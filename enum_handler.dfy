/** `R2dbcEnumTypeHandler`: how an enum constant is written to a column and
    read back. The written form is the `StandardEnum` code, else the value of
    the first field marked `@EnumValue`, else the ordinal; reading looks the
    value's string form up in a per-class map of written forms, cached in a
    `TwoKeyMap`. */
module EnumHandling {
  import opened Wrappers
  import opened JavaValues
  import opened TwoKeyCache

  /** An enum constant: its ordinal, its `StandardEnum.getCode()` when the
      enum implements `StandardEnum`, and its field values by field name. */
  datatype EnumConstant = EnumConstant(
    constantName: string, ordinal: nat, standardCode: Option<Value>, fieldValues: map<string, Value>)

  /** An enum class: its declared fields in order, each with whether it is
      marked `@EnumValue`, and its constants. */
  datatype EnumClass = EnumClass(className: string, declaredFields: seq<(string, bool)>, constants: seq<EnumConstant>)

  /** The first declared field marked `@EnumValue`. */
  function EnumValueField(fields: seq<(string, bool)>): (r: Option<string>)
    ensures r.Some? ==>
      exists i :: 0 <= i < |fields| && fields[i] == (r.value, true) && forall j :: 0 <= j < i ==> !fields[j].1
    ensures r.None? <==> forall i :: 0 <= i < |fields| ==> !fields[i].1
  {
    if |fields| == 0 then None
    else if fields[0].1 then Some(fields[0].0)
    else
      var rest := EnumValueField(fields[1..]);
      assert forall i :: 1 <= i < |fields| ==> fields[i] == fields[1..][i - 1];
      if rest.Some? then
        var k :| 0 <= k < |fields[1..]| && fields[1..][k] == (rest.value, true) &&
          forall j :: 0 <= j < k ==> !fields[1..][j].1;
        assert fields[k + 1] == (rest.value, true);
        assert forall j :: 0 <= j < k + 1 ==> !fields[j].1 by {
          forall j | 0 <= j < k + 1 ensures !fields[j].1 {
            if j > 0 { assert fields[j] == fields[1..][j - 1]; }
          }
        }
        rest
      else rest
  }

  /** The writer: the code, else the `@EnumValue` field's value (null when
      the constant has none), else the ordinal. */
  function Write(enumClass: EnumClass, c: EnumConstant): Value {
    if c.standardCode.Some? then c.standardCode.value
    else
      match EnumValueField(enumClass.declaredFields)
      case Some(f) => if f in c.fieldValues then c.fieldValues[f] else Null
      case None => Num(c.ordinal)
  }

  /** The priority of the writer, each way: the code wins; without one,
      the first field marked `@EnumValue` gives the value (null when the
      constant has none); without such a field, the ordinal. */
  lemma WriterPriority(enumClass: EnumClass, c: EnumConstant, i: int)
    ensures c.standardCode.Some? ==> Write(enumClass, c) == c.standardCode.value
    ensures c.standardCode.None? && (forall j :: 0 <= j < |enumClass.declaredFields| ==> !enumClass.declaredFields[j].1) ==>
      Write(enumClass, c) == Num(c.ordinal)
    ensures var fields := enumClass.declaredFields;
      c.standardCode.None? && 0 <= i < |fields| && fields[i].1 && (forall j :: 0 <= j < i ==> !fields[j].1) ==>
        Write(enumClass, c) == if fields[i].0 in c.fieldValues then c.fieldValues[fields[i].0] else Null
  {
    var fields := enumClass.declaredFields;
    if c.standardCode.None? && 0 <= i < |fields| && fields[i].1 && (forall j :: 0 <= j < i ==> !fields[j].1) {
      var r := EnumValueField(fields);
      var k :| 0 <= k < |fields| && fields[k] == (r.value, true) && forall j :: 0 <= j < k ==> !fields[j].1;
      assert k == i;
    }
  }

  /** The key a constant is stored under: its written form as a string, or
      `None` when the written form is null. */
  function Key(enumClass: EnumClass, c: EnumConstant): Option<string> {
    var written := Write(enumClass, c);
    if written == Null then None else Some(ToString(written))
  }

  function Keys(enumClass: EnumClass, constants: seq<EnumConstant>): (ks: seq<Option<string>>)
    ensures |ks| == |constants| && forall i :: 0 <= i < |constants| ==> ks[i] == Key(enumClass, constants[i])
  {
    seq(|constants|, i requires 0 <= i < |constants| => Key(enumClass, constants[i]))
  }

  /** The enum map of a class: its constants keyed by their written form. */
  function EnumMapOf(enumClass: EnumClass, constants: seq<EnumConstant>): (r: Outcome<map<string, EnumConstant>>)
  {
    ToMap(Keys(enumClass, constants), constants)
  }

  /** A built map holds exactly the constants' keys, each mapped to its own
      constant, and no constant was written as null. */
  lemma EnumMapContents(enumClass: EnumClass, constants: seq<EnumConstant>)
    requires EnumMapOf(enumClass, constants).Ok?
    ensures forall i :: 0 <= i < |constants| ==> Write(enumClass, constants[i]) != Null
    ensures forall k :: k in EnumMapOf(enumClass, constants).value ==>
      exists i :: 0 <= i < |constants| && Key(enumClass, constants[i]) == Some(k)
    ensures forall i :: 0 <= i < |constants| ==>
      Key(enumClass, constants[i]).value in EnumMapOf(enumClass, constants).value &&
      EnumMapOf(enumClass, constants).value[Key(enumClass, constants[i]).value] == constants[i]
  {
    var ks := Keys(enumClass, constants);
    ToMapContents(ks, constants);
    forall k | k in EnumMapOf(enumClass, constants).value
      ensures exists i :: 0 <= i < |constants| && Key(enumClass, constants[i]) == Some(k)
    {
      var i :| 0 <= i < |ks| && ks[i] == Some(k);
    }
  }

  /** In a built map no two distinct constants share a key. */
  lemma {:induction false} DistinctWhenBuilt(enumClass: EnumClass, constants: seq<EnumConstant>, i: int, j: int)
    requires EnumMapOf(enumClass, constants).Ok?
    requires 0 <= i < |constants| && 0 <= j < |constants| && constants[i] != constants[j]
    ensures Key(enumClass, constants[i]) != Key(enumClass, constants[j])
    ensures Write(enumClass, constants[i]) != Null
  {
    EnumMapContents(enumClass, constants);
  }

  const ZERO_KEY := "0"

  /** `getOrDefault`: the constant written as `key`, else the one written as
      "0", else null. */
  function Lookup(enumMap: map<string, EnumConstant>, key: string): Option<EnumConstant> {
    if key in enumMap then Some(enumMap[key])
    else if ZERO_KEY in enumMap then Some(enumMap[ZERO_KEY])
    else None
  }

  /** The reader as a function of the class: a null value fails in
      `toString`, as does building the map. */
  function Read(enumClass: EnumClass, value: Value): (r: Outcome<Option<EnumConstant>>)
    ensures value == Null ==> r == Err(NullPointer)
  {
    if value == Null then Err(NullPointer)
    else
      var m :- EnumMapOf(enumClass, enumClass.constants);
      Ok(Lookup(m, ToString(value)))
  }

  /** Reading what was written gives the constant back whenever the map can be
      built, that is whenever written forms are non-null and distinct. */
  lemma ReadOfWrite(enumClass: EnumClass, c: EnumConstant)
    requires c in enumClass.constants
    requires EnumMapOf(enumClass, enumClass.constants).Ok?
    ensures Read(enumClass, Write(enumClass, c)) == Ok(Some(c))
  {
    EnumMapContents(enumClass, enumClass.constants);
    var k :| 0 <= k < |enumClass.constants| && enumClass.constants[k] == c;
    assert Write(enumClass, enumClass.constants[k]) != Null;
  }

  /** A value no constant is written as falls back to the constant written
      as "0", or to null when there is none. */
  lemma UnknownFallsBackToZero(enumClass: EnumClass, value: Value)
    requires value != Null
    requires EnumMapOf(enumClass, enumClass.constants).Ok?
    requires forall i :: 0 <= i < |enumClass.constants| ==>
      Key(enumClass, enumClass.constants[i]) != Some(ToString(value))
    ensures var m := EnumMapOf(enumClass, enumClass.constants).value;
      Read(enumClass, value) == Ok(if ZERO_KEY in m then Some(m[ZERO_KEY]) else None)
  {
    EnumMapContents(enumClass, enumClass.constants);
  }

  /** The handler with its per-class cache of enum maps. */
  class EnumTypeHandler {
    const enumCache: TwoKeyMap<string, string, EnumConstant>
    /** The classes whose maps are cached, by class name. */
    ghost var cachedClasses: map<string, EnumClass>

    /** Every cached map is the map of the class it was built for. */
    ghost predicate Valid()
      reads this, enumCache
    {
      enumCache.cacheMap.Keys == cachedClasses.Keys &&
      forall k :: k in cachedClasses ==>
        cachedClasses[k].className == k &&
        EnumMapOf(cachedClasses[k], cachedClasses[k].constants) == Ok(enumCache.cacheMap[k])
    }

    constructor()
      ensures Valid() && fresh(enumCache) && enumCache.cacheMap == map[]
    {
      enumCache := new TwoKeyMap();
      cachedClasses := map[];
    }

    /** `getEnumMap`: the cached map of the class, or the map built and then
        cached; a failed build caches nothing. */
    method GetEnumMap(enumClass: EnumClass) returns (r: Outcome<map<string, EnumConstant>>)
      requires Valid()
      requires enumClass.className in cachedClasses ==> cachedClasses[enumClass.className] == enumClass
      modifies this, enumCache
      ensures Valid()
      ensures r == EnumMapOf(enumClass, enumClass.constants)
      ensures r.Err? ==> enumCache.cacheMap == old(enumCache.cacheMap)
      ensures r.Ok? ==> enumCache.cacheMap == old(enumCache.cacheMap)[enumClass.className := r.value]
    {
      var key := enumClass.className;
      if key in enumCache.cacheMap {
        return Ok(enumCache.cacheMap[key]);
      }
      var built := EnumMapOf(enumClass, enumClass.constants);
      if built.Err? {
        return built;
      }
      var m := enumCache.GetOrCreateLevelOneCache(key, _ => built.value);
      cachedClasses := cachedClasses[key := enumClass];
      return Ok(m);
    }

    /** The reader: the constant for `value`, through the cached map. */
    method ReadValue(enumClass: EnumClass, value: Value) returns (r: Outcome<Option<EnumConstant>>)
      requires Valid()
      requires enumClass.className in cachedClasses ==> cachedClasses[enumClass.className] == enumClass
      modifies this, enumCache
      ensures Valid()
      ensures r == Read(enumClass, value)
    {
      if value == Null {
        return Err(NullPointer);
      }
      var m :- GetEnumMap(enumClass);
      return Ok(Lookup(m, ToString(value)));
    }
  }
}
