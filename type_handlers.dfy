/** `R2dbcCustomTypeHandlers`: the registry of type handlers, keyed by handler
    class, and the choice of handler for a property. A property needs a
    handler when its `@TableColumn` marks it as JSON or its type is an enum,
    unless the column forces `IgnoreHandler`; the marker `DefaultHandler`
    resolves to the enum handler for an enum and to the JSON handler for a
    JSON column. */
module TypeHandlers {
  import opened Wrappers
  import opened JavaValues
  import MK = MappingKit
  import Validation

  /** A handler instance: its runtime class and what it does to a value on
      the way to and from the database. */
  datatype TypeHandler = TypeHandler(runtimeClass: MK.HandlerClass, writer: Value -> Value, reader: Value -> Value)

  type Registry = map<MK.HandlerClass, TypeHandler>

  /** `hasTypeHandler`: the property has a `@TableColumn`, needs handling (an
      enum type or a JSON column) and is not forced to `IgnoreHandler`. */
  predicate HasTypeHandler(p: MK.Property) {
    p.column.Some? && (p.javaType.isEnum || p.column.value.isJson) && p.column.value.typeHandler != MK.IgnoreHandler
  }

  /** The handler class `getTypeHandler` looks up: the annotated class, with
      the marker `DefaultHandler` replaced by the enum or JSON handler when
      the property calls for one. */
  function ResolvedClass(column: MK.TableColumn, javaType: MK.JavaType): MK.HandlerClass {
    if column.typeHandler != MK.DefaultHandler then column.typeHandler
    else if javaType.isEnum then MK.EnumHandler
    else if column.isJson then MK.JsonHandler
    else MK.DefaultHandler
  }

  /** For a column left at the marker, a handler is needed exactly when the
      marker resolves to a real handler class, and that class is the enum
      handler for an enum, else the JSON handler. */
  lemma ResolvedClassRule(p: MK.Property)
    requires p.column.Some? && p.column.value.typeHandler == MK.DefaultHandler
    ensures HasTypeHandler(p) <==> ResolvedClass(p.column.value, p.javaType) != MK.DefaultHandler
    ensures p.javaType.isEnum ==> ResolvedClass(p.column.value, p.javaType) == MK.EnumHandler
    ensures !p.javaType.isEnum && p.column.value.isJson ==> ResolvedClass(p.column.value, p.javaType) == MK.JsonHandler
  {
  }

  /** An explicitly named handler class is looked up as it is named. */
  lemma ExplicitClassIsKept(column: MK.TableColumn, javaType: MK.JavaType)
    requires column.typeHandler != MK.DefaultHandler
    ensures ResolvedClass(column, javaType) == column.typeHandler
  {
  }

  const REQUIRED_ANNOTATION := "Required annotation TableColumn not found"

  /** `getTypeHandler`: a property without `@TableColumn` fails in
      `getRequiredAnnotation`; otherwise the handler registered under the
      resolved class, or none (`null`). */
  function HandlerFor(registry: Registry, p: MK.Property): (r: Outcome<Option<TypeHandler>>)
    ensures r.Err? <==> p.column.None?
    ensures r.Err? ==> r.error == IllegalState(REQUIRED_ANNOTATION)
    ensures r.Ok? ==> (r.value.Some? <==> ResolvedClass(p.column.value, p.javaType) in registry)
    ensures r.Ok? && r.value.Some? ==> r.value.value == registry[ResolvedClass(p.column.value, p.javaType)]
  {
    match p.column
    case None => Err(IllegalState(REQUIRED_ANNOTATION))
    case Some(column) =>
      var c := ResolvedClass(column, p.javaType);
      Ok(if c in registry then Some(registry[c]) else None)
  }

  /** `write`: null stays null; otherwise the chosen handler's writer, and a
      missing handler is dereferenced as null. */
  function Write(registry: Registry, value: Value, p: MK.Property): (r: Outcome<Value>)
    ensures value == Null ==> r == Ok(Null)
    ensures value != Null && p.column.None? ==> r == Err(IllegalState(REQUIRED_ANNOTATION))
  {
    if value == Null then Ok(Null)
    else
      var handler :- HandlerFor(registry, p);
      if handler.None? then Err(NullPointer) else Ok(handler.value.writer(value))
  }

  /** `read`: the chosen handler's reader; a missing handler is dereferenced
      as null. */
  function Read(registry: Registry, value: Value, p: MK.Property): (r: Outcome<Value>)
    ensures p.column.None? ==> r == Err(IllegalState(REQUIRED_ANNOTATION))
  {
    var handler :- HandlerFor(registry, p);
    if handler.None? then Err(NullPointer) else Ok(handler.value.reader(value))
  }

  /** What `write` and `read` do once a handler is found, and the null
      dereference when none is registered. */
  lemma WriteReadDispatch(registry: Registry, value: Value, p: MK.Property)
    requires p.column.Some?
    ensures var c := ResolvedClass(p.column.value, p.javaType);
      (c in registry ==> Read(registry, value, p) == Ok(registry[c].reader(value))) &&
      (c in registry && value != Null ==> Write(registry, value, p) == Ok(registry[c].writer(value))) &&
      (c !in registry ==> Read(registry, value, p) == Err(NullPointer)) &&
      (c !in registry && value != Null ==> Write(registry, value, p) == Err(NullPointer))
  {
  }

  /** The registry of the no-argument constructor: the enum handler under
      `R2dbcEnumTypeHandler` and a Jackson handler under the abstract
      `R2dbcJsonTypeHandler`. */
  function DefaultRegistry(enumHandler: TypeHandler, jacksonHandler: TypeHandler): (r: Registry)
    ensures r.Keys == {MK.EnumHandler, MK.JsonHandler}
    ensures r[MK.EnumHandler] == enumHandler && r[MK.JsonHandler] == jacksonHandler
  {
    map[MK.EnumHandler := enumHandler, MK.JsonHandler := jacksonHandler]
  }

  /** With the default registry every property that needs a handler and
      leaves the choice to the marker, or names the enum or JSON handler,
      gets one: its writes and reads never dereference null. */
  lemma DefaultRegistryServes(enumHandler: TypeHandler, jacksonHandler: TypeHandler, p: MK.Property, value: Value)
    requires HasTypeHandler(p)
    requires p.column.value.typeHandler in {MK.DefaultHandler, MK.EnumHandler, MK.JsonHandler}
    ensures var registry := DefaultRegistry(enumHandler, jacksonHandler);
      var handler := if ResolvedClass(p.column.value, p.javaType) == MK.EnumHandler then enumHandler else jacksonHandler;
      HandlerFor(registry, p) == Ok(Some(handler)) &&
      Read(registry, value, p) == Ok(handler.reader(value)) &&
      (value != Null ==> Write(registry, value, p) == Ok(handler.writer(value)))
  {
  }

  /** The key the list constructor files a handler under, as written: its
      runtime class. */
  function RuntimeKeys(handlers: seq<TypeHandler>): (ks: seq<Option<MK.HandlerClass>>)
    ensures |ks| == |handlers| && forall i :: 0 <= i < |handlers| ==> ks[i] == Some(handlers[i].runtimeClass)
  {
    seq(|handlers|, i requires 0 <= i < |handlers| => Some(handlers[i].runtimeClass))
  }

  /** The list constructor as written: handlers keyed by `getClass()`, a
      repeated class failing in `toMap`. */
  function ListRegistryAsWritten(handlers: seq<TypeHandler>): (r: Outcome<Registry>)
  {
    ToMap(RuntimeKeys(handlers), handlers)
  }

  const JSON_COLUMN := MK.TableColumn("", "", "", "", "", true, true, Validation.DEFAULT, MK.DefaultHandler)
  const JSON_PROPERTY :=
    MK.Property("payload", Some("payload"), false, false, false, MK.JavaType("Payload", false, false),
                Some(JSON_COLUMN), None, None)

  /** No handler's runtime class is the abstract `R2dbcJsonTypeHandler`, so
      the list constructor never registers one under it: given the two
      handlers the no-argument constructor registers, a JSON column that
      needs a handler finds none, and writing a value to it dereferences
      null. */
  lemma ListRegistryLosesJson(enumBehaviour: Value -> Value, jsonBehaviour: Value -> Value)
    ensures var handlers := [TypeHandler(MK.EnumHandler, enumBehaviour, enumBehaviour),
                             TypeHandler(MK.JacksonHandler, jsonBehaviour, jsonBehaviour)];
      var registry := ListRegistryAsWritten(handlers);
      registry.Ok? && MK.JsonHandler !in registry.value &&
      HasTypeHandler(JSON_PROPERTY) && Write(registry.value, Str("x"), JSON_PROPERTY) == Err(NullPointer)
  {
    var handlers := [TypeHandler(MK.EnumHandler, enumBehaviour, enumBehaviour),
                     TypeHandler(MK.JacksonHandler, jsonBehaviour, jsonBehaviour)];
    var ks := RuntimeKeys(handlers);
    assert ks == [Some(MK.EnumHandler), Some(MK.JacksonHandler)];
    TwoEntries(ks, handlers);
  }

  /** `toMap` over two distinct non-null keys. */
  lemma TwoEntries<K, V>(keys: seq<Option<K>>, values: seq<V>)
    requires |keys| == 2 && |values| == 2 && keys[0].Some? && keys[1].Some? && keys[0] != keys[1]
    ensures ToMap(keys, values) == Ok(map[keys[0].value := values[0], keys[1].value := values[1]])
  {
    assert ToMap(keys[..1][..0], values[..1][..0]) == Ok(map[]);
    assert ToMap(keys[..1], values[..1]) == Ok(map[keys[0].value := values[0]]);
  }

  /** The class a handler serves under: JSON handlers under the abstract
      `R2dbcJsonTypeHandler`, which is what the marker resolves to, every
      other handler under its runtime class. */
  function RegistrationClass(runtimeClass: MK.HandlerClass): (c: MK.HandlerClass)
    ensures c == MK.JsonHandler <==> runtimeClass in {MK.JsonHandler, MK.JacksonHandler, MK.PostgresJsonHandler}
    ensures c != MK.JsonHandler ==> c == runtimeClass
  {
    if runtimeClass == MK.JacksonHandler || runtimeClass == MK.PostgresJsonHandler then MK.JsonHandler
    else runtimeClass
  }

  function RegistrationKeys(handlers: seq<TypeHandler>): (ks: seq<Option<MK.HandlerClass>>)
    ensures |ks| == |handlers| &&
      forall i :: 0 <= i < |handlers| ==> ks[i] == Some(RegistrationClass(handlers[i].runtimeClass))
  {
    seq(|handlers|, i requires 0 <= i < |handlers| => Some(RegistrationClass(handlers[i].runtimeClass)))
  }

  /** The list constructor corrected: each handler is filed under the class
      it serves, so that a JSON handler is found where the marker looks. */
  function ListRegistry(handlers: seq<TypeHandler>): (r: Outcome<Registry>)
  {
    ToMap(RegistrationKeys(handlers), handlers)
  }

  /** The corrected list registry holds each handler under the class it
      serves; it fails only on two handlers for the same class. */
  lemma ListRegistryContents(handlers: seq<TypeHandler>)
    ensures ListRegistry(handlers).Err? ==> ListRegistry(handlers).error == IllegalState(DUPLICATE_KEY)
    ensures ListRegistry(handlers).Ok? ==>
      (forall i :: 0 <= i < |handlers| ==>
        RegistrationClass(handlers[i].runtimeClass) in ListRegistry(handlers).value &&
        ListRegistry(handlers).value[RegistrationClass(handlers[i].runtimeClass)] == handlers[i]) &&
      (forall c :: c in ListRegistry(handlers).value ==> Some(c) in RegistrationKeys(handlers))
  {
    var ks := RegistrationKeys(handlers);
    ToMapNoNullKey(ks, handlers);
    if ListRegistry(handlers).Ok? {
      ToMapContents(ks, handlers);
    }
  }

  /** `toMap` over keys that are never null fails only on a repeated key. */
  lemma {:induction false} ToMapNoNullKey<K, V>(keys: seq<Option<K>>, values: seq<V>)
    requires |keys| == |values| && forall i :: 0 <= i < |keys| ==> keys[i].Some?
    ensures ToMap(keys, values).Err? ==> ToMap(keys, values).error == IllegalState(DUPLICATE_KEY)
  {
    if |keys| > 0 {
      var n := |keys| - 1;
      assert forall i :: 0 <= i < n ==> keys[..n][i] == keys[i];
      ToMapNoNullKey(keys[..n], values[..n]);
    }
  }

  /** Given the two handlers the no-argument constructor registers, the
      corrected list registry is the default registry, and a property whose
      column leaves the choice to the marker finds its handler whenever the
      list holds an enum and a JSON handler. */
  lemma ListRegistryServes(handlers: seq<TypeHandler>, p: MK.Property, e: int, j: int)
    requires ListRegistry(handlers).Ok?
    requires 0 <= e < |handlers| && handlers[e].runtimeClass == MK.EnumHandler
    requires 0 <= j < |handlers| && handlers[j].runtimeClass in {MK.JacksonHandler, MK.PostgresJsonHandler}
    requires HasTypeHandler(p) && p.column.value.typeHandler == MK.DefaultHandler
    ensures HandlerFor(ListRegistry(handlers).value, p) ==
      Ok(Some(if p.javaType.isEnum then handlers[e] else handlers[j]))
  {
    ListRegistryContents(handlers);
    assert RegistrationClass(handlers[e].runtimeClass) == MK.EnumHandler;
    assert RegistrationClass(handlers[j].runtimeClass) == MK.JsonHandler;
  }

  /** The corrected list registry of the default pair is the default
      registry. */
  lemma ListRegistryOfDefaultPair(enumBehaviour: Value -> Value, jsonBehaviour: Value -> Value)
    ensures var enumHandler := TypeHandler(MK.EnumHandler, enumBehaviour, enumBehaviour);
      var jacksonHandler := TypeHandler(MK.JacksonHandler, jsonBehaviour, jsonBehaviour);
      ListRegistry([enumHandler, jacksonHandler]) == Ok(DefaultRegistry(enumHandler, jacksonHandler))
  {
    var handlers := [TypeHandler(MK.EnumHandler, enumBehaviour, enumBehaviour),
                     TypeHandler(MK.JacksonHandler, jsonBehaviour, jsonBehaviour)];
    var ks := RegistrationKeys(handlers);
    assert ks == [Some(MK.EnumHandler), Some(MK.JsonHandler)];
    TwoEntries(ks, handlers);
  }

  /** The registry object; its map is filled once, by a constructor. */
  class CustomTypeHandlers {
    const typeHandlerMap: Registry

    /** The no-argument constructor: the enum handler and a Jackson handler,
        with the behaviours given. */
    constructor Default(enumBehaviour: (Value -> Value, Value -> Value), jsonBehaviour: (Value -> Value, Value -> Value))
      ensures typeHandlerMap == DefaultRegistry(
        TypeHandler(MK.EnumHandler, enumBehaviour.0, enumBehaviour.1),
        TypeHandler(MK.JacksonHandler, jsonBehaviour.0, jsonBehaviour.1))
    {
      typeHandlerMap := DefaultRegistry(
        TypeHandler(MK.EnumHandler, enumBehaviour.0, enumBehaviour.1),
        TypeHandler(MK.JacksonHandler, jsonBehaviour.0, jsonBehaviour.1));
    }

    constructor Of(registry: Registry)
      ensures typeHandlerMap == registry
    {
      typeHandlerMap := registry;
    }

    /** The list constructor (corrected): fails as `toMap` does when two
        handlers serve the same class. */
    static method FromList(handlers: seq<TypeHandler>) returns (r: Outcome<CustomTypeHandlers>)
      ensures r.Err? <==> ListRegistry(handlers).Err?
      ensures r.Err? ==> r.error == IllegalState(DUPLICATE_KEY)
      ensures r.Ok? ==> fresh(r.value) && r.value.typeHandlerMap == ListRegistry(handlers).value
    {
      ListRegistryContents(handlers);
      var registry := ListRegistry(handlers);
      if registry.Err? {
        return Err(registry.error);
      }
      var built := new CustomTypeHandlers.Of(registry.value);
      return Ok(built);
    }
  }
}
