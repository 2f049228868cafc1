/** The plugin machinery: a plugin context that records one execution and
    its result, plugins registered by name in an executor, the per-operation
    switch that turns plugins on and off, and the logic-delete plugin, which
    adds "field = undeleted value" to a query's criteria and turns a delete
    into an update of that field. */
module Plugins {
  import opened Wrappers
  import opened JavaValues
  import C = Criteria
  import MK = MappingKit
  import StringKit

  /** `R2dbcPluginName`: the one plugin the system defines. */
  datatype PluginName = LOGIC_DELETE

  /** `R2dbcPluginName.values()`. */
  const ALL_PLUGIN_NAMES: set<PluginName> := {LOGIC_DELETE}

  lemma EveryNameListed(name: PluginName)
    ensures name in ALL_PLUGIN_NAMES
  {
    match name
    case LOGIC_DELETE =>
  }

  const CRITERIA_GROUP := "CRITERIA"

  function GroupOf(name: PluginName): string {
    match name
    case LOGIC_DELETE => CRITERIA_GROUP
  }

  function NameOf(name: PluginName): (r: string)
    ensures r != ""
  {
    match name
    case LOGIC_DELETE => "LOGIC_DELETE"
  }

  /** A criteria object as the plugin tells it apart: Spring's `Criteria`,
      an `EnhancedCriteria` (both are chains of the same shape), or another
      `CriteriaDefinition` it does not extend. */
  datatype CriteriaDefinition = Spring(criteria: C.Criteria) | Enhanced(criteria: C.Criteria) | OtherDefinition(text: string)

  /** Spring's `Update.update(column, value)`: a single assignment. */
  datatype Update = Update(column: string, value: Value)

  /** The class a plugin is asked to produce. */
  datatype ResultType = UPDATE | CRITERIA_DEFINITION | OtherType(className: string)

  /** A plugin result, tagged with what it is. */
  datatype PluginResult = UpdateResult(update: Update) | CriteriaResult(definition: CriteriaDefinition) | OtherResult(value: Value)

  /** `R2dbcPluginContext`: what a plugin runs on, and what it left. The
      domain type is given by its mapping metadata. */
  class PluginContext {
    const pluginName: PluginName
    const enable: bool
    const domain: MK.Entity
    const pluginResultType: ResultType
    const lastPluginResult: Option<PluginResult>
    var executed: bool
    var result: Option<PluginResult>

    /** The builder: `executed` starts false and there is no result yet. */
    constructor(pluginName: PluginName, enable: bool, domain: MK.Entity, pluginResultType: ResultType,
                lastPluginResult: Option<PluginResult>)
      ensures this.pluginName == pluginName && this.enable == enable && this.domain == domain
      ensures this.pluginResultType == pluginResultType && this.lastPluginResult == lastPluginResult
      ensures !executed && result.None?
      ensures TakeResult().None?
    {
      this.pluginName := pluginName;
      this.enable := enable;
      this.domain := domain;
      this.pluginResultType := pluginResultType;
      this.lastPluginResult := lastPluginResult;
      executed := false;
      result := None;
    }

    /** `takeResult(mapper)`: the mapped result, but only once the plugin has
        run; a null mapped result is empty. */
    function TakeResultWith<R>(mapper: Option<PluginResult> -> Option<R>): (r: Option<R>)
      reads this
      ensures !executed ==> r.None?
    {
      if executed then mapper(result) else None
    }

    /** `takeResult()`: the result, but only once the plugin has run. */
    function TakeResult(): (r: Option<PluginResult>)
      reads this
      ensures !executed ==> r.None?
      ensures executed ==> r == result
    {
      TakeResultWith(x => x)
    }

    /** `execute`: records what the plugin method produced, marks the context
        executed and returns the context itself. */
    method Execute(produced: Option<PluginResult>) returns (self: PluginContext)
      modifies this
      ensures self == this && executed && result == produced
      ensures TakeResult() == produced
    {
      result := produced;
      executed := true;
      self := this;
    }
  }

  /** `R2DbcLogicDeletePlugin.isLogicDeleteEnable`: the mapping kit's rule
      with no caller asking to ignore logic deletion. */
  predicate LogicDeleteEnabled(config: MK.LogicDeleteConfig, entity: MK.Entity) {
    MK.IsLogicDeleteEnable(config, entity, false)
  }

  /** The plugin's enable rule: the first `@TableLogic` property's `enable`
      decides; without one, the global switch with a non-empty field. */
  lemma LogicDeleteEnabledRule(config: MK.LogicDeleteConfig, entity: MK.Entity)
    ensures MK.LogicProperty(entity.properties).None? ==>
      (LogicDeleteEnabled(config, entity) <==> config.enable && config.field != "")
    ensures MK.LogicProperty(entity.properties).Some? ==>
      (LogicDeleteEnabled(config, entity) <==> MK.LogicProperty(entity.properties).value.logic.value.enable)
  {
  }

  const UPDATE_COLUMN_MESSAGE := "A database object name must not be null or empty"

  /** `handleUpdate`, as written: set the logic-delete field to its deleted
      value, whether or not logic deletion is enabled. `Update.update`
      refuses a blank column name. */
  function HandleUpdate(config: MK.LogicDeleteConfig, entity: MK.Entity): (r: Outcome<Update>)
    ensures var column := MK.LogicDeleteColumn(config, entity, MK.DELETE_VALUE);
      (r.Err? <==> StringKit.BlankString(column.0)) &&
      (r.Ok? ==> (r.value.column, r.value.value) == column)
  {
    var column := MK.LogicDeleteColumn(config, entity, MK.DELETE_VALUE);
    if StringKit.BlankString(column.0) then Err(IllegalArgument(UPDATE_COLUMN_MESSAGE))
    else Ok(Update(column.0, column.1))
  }

  /** As written, an entity without `@TableLogic` under a configuration
      with logic deletion off still gets an update: with the default blank
      field it is refused, and with a field named it turns the delete into
      an update although logic deletion is disabled. */
  lemma HandleUpdateIgnoresEnable(config: MK.LogicDeleteConfig, entity: MK.Entity)
    requires MK.LogicProperty(entity.properties).None? && !config.enable
    ensures !LogicDeleteEnabled(config, entity)
    ensures config.field == "" ==> HandleUpdate(config, entity).Err?
    ensures !StringKit.BlankString(config.field) ==> HandleUpdate(config, entity).Ok?
  {
    assert StringKit.BlankString("");
  }

  /** `handleUpdate` as evidently intended: no update (a null result, so the
      delete stays a physical one) unless logic deletion is enabled. */
  function HandleUpdateCorrected(config: MK.LogicDeleteConfig, entity: MK.Entity): (r: Outcome<Option<Update>>)
  {
    if !LogicDeleteEnabled(config, entity) then Ok(None)
    else
      var update :- HandleUpdate(config, entity);
      Ok(Some(update))
  }

  /** The corrected rule: a disabled entity gets no update, so the default
      configuration never fails; an enabled one gets the delete update of
      its logic column, refused only for a blank column. */
  lemma HandleUpdateCorrectedRule(config: MK.LogicDeleteConfig, entity: MK.Entity)
    ensures !LogicDeleteEnabled(config, entity) <==> HandleUpdateCorrected(config, entity) == Ok(None)
    ensures MK.LogicProperty(entity.properties).None? && !config.enable ==>
      HandleUpdateCorrected(config, entity) == Ok(None)
    ensures var column := MK.LogicDeleteColumn(config, entity, MK.DELETE_VALUE);
      LogicDeleteEnabled(config, entity) ==>
        (HandleUpdateCorrected(config, entity).Err? <==> StringKit.BlankString(column.0)) &&
        (HandleUpdateCorrected(config, entity).Ok? ==>
           HandleUpdateCorrected(config, entity) == Ok(Some(Update(column.0, column.1))))
  {
  }

  /** The condition "field = value", built with `where(field).is(value)`:
      a blank field or a null value is refused. */
  function Condition(field: string, value: Value): (r: Outcome<C.Criteria>)
    ensures r.Err? <==> StringKit.BlankString(field) || value.Null?
    ensures r.Ok? ==> (r.value.previous.None? && r.value.column == Some(field) &&
                       r.value.comparator == Some(C.Comparator.EQ) && r.value.value == value)
  {
    var step :- C.Where(field);
    C.Compare(step, C.Comparator.EQ, value)
  }

  /** `handleCriteria`: a missing last result counts as `Criteria.empty()`;
      when logic deletion is enabled a Spring or enhanced criteria gets
      "field = undeleted value" ANDed on; anything else comes back as it
      was. */
  function HandleCriteria(config: MK.LogicDeleteConfig, entity: MK.Entity, last: Option<CriteriaDefinition>)
    : (r: Outcome<CriteriaDefinition>)
  {
    var definition := if last.None? then Spring(C.EMPTY) else last.value;
    if !LogicDeleteEnabled(config, entity) || definition.OtherDefinition? then Ok(definition)
    else
      var column := MK.LogicDeleteColumn(config, entity, MK.UNDELETE_VALUE);
      var condition :- Condition(column.0, column.1);
      var extended := C.AndGroup(definition.criteria, [condition]);
      Ok(if definition.Spring? then Spring(extended) else Enhanced(extended))
  }

  /** What `handleCriteria` gives, case by case: unchanged when disabled or
      of another kind; otherwise the same kind of criteria, extended by one
      AND group holding exactly the undeleted-value condition. */
  lemma HandleCriteriaCases(config: MK.LogicDeleteConfig, entity: MK.Entity, last: Option<CriteriaDefinition>)
    ensures last.None? && !LogicDeleteEnabled(config, entity) ==> HandleCriteria(config, entity, last) == Ok(Spring(C.EMPTY))
    ensures last.Some? && (!LogicDeleteEnabled(config, entity) || last.value.OtherDefinition?) ==>
      HandleCriteria(config, entity, last) == Ok(last.value)
    ensures var definition := if last.None? then Spring(C.EMPTY) else last.value;
      var column := MK.LogicDeleteColumn(config, entity, MK.UNDELETE_VALUE);
      var r := HandleCriteria(config, entity, last);
      LogicDeleteEnabled(config, entity) && !definition.OtherDefinition? ==>
        (r.Err? <==> StringKit.BlankString(column.0) || column.1.Null?)
    ensures var definition := if last.None? then Spring(C.EMPTY) else last.value;
      var column := MK.LogicDeleteColumn(config, entity, MK.UNDELETE_VALUE);
      var r := HandleCriteria(config, entity, last);
      LogicDeleteEnabled(config, entity) && !definition.OtherDefinition? && r.Ok? ==>
        r.value.Spring? == definition.Spring? && r.value.Enhanced? == definition.Enhanced? &&
        r.value.criteria.previous == Some(definition.criteria) &&
        r.value.criteria.column.None? && |r.value.criteria.group| == 1 &&
        r.value.criteria.group[0].column == Some(column.0) &&
        r.value.criteria.group[0].comparator == Some(C.Comparator.EQ) &&
        r.value.criteria.group[0].value == column.1
  {
  }

  /** Extending an empty criteria yields a chain whose new group follows an
      empty predecessor, so it is combined as the first node (INITIAL). */
  lemma EmptyCriteriaGetsInitialGroup(config: MK.LogicDeleteConfig, entity: MK.Entity)
    requires HandleCriteria(config, entity, None).Ok? && LogicDeleteEnabled(config, entity)
    ensures HandleCriteria(config, entity, None).value.Spring?
    ensures HandleCriteria(config, entity, None).value.criteria.combinator == C.Combinator.INITIAL
  {
    assert C.IsEmpty(C.EMPTY);
  }

  /** `R2dbcOperationPlugin` as the logic-delete plugin: its group and name
      are fixed when it is built, and its sort starts at 0. */
  class OperationPlugin {
    const group: string
    const name: string
    var sort: int

    constructor(group: string, name: string)
      ensures this.group == group && this.name == name && sort == 0
    {
      this.group := group;
      this.name := name;
      sort := 0;
    }

    /** The logic-delete plugin, named after `LOGIC_DELETE`. */
    constructor LogicDelete()
      ensures group == GroupOf(LOGIC_DELETE) && name == NameOf(LOGIC_DELETE) && sort == 0
    {
      group := GroupOf(LOGIC_DELETE);
      name := NameOf(LOGIC_DELETE);
      sort := 0;
    }

    method SetSort(sort: int)
      modifies this
      ensures this.sort == sort
    {
      this.sort := sort;
    }

    /** `plugInto`: an update context runs `handleUpdate`, a criteria
        context runs `handleCriteria`, any other context is returned as it
        is. A last result that is not a criteria fails the cast. */
    method PlugInto(config: MK.LogicDeleteConfig, context: PluginContext) returns (r: Outcome<PluginContext>)
      modifies context
      ensures r.Ok? ==> r.value == context
      ensures context.pluginResultType == UPDATE ==>
        (r.Ok? <==> HandleUpdate(config, context.domain).Ok?) &&
        (r.Ok? ==> context.executed &&
                   context.result == Some(UpdateResult(HandleUpdate(config, context.domain).value)))
      ensures context.pluginResultType == CRITERIA_DEFINITION ==>
        (r.Ok? <==> OkCriteria(config, context.domain, context.lastPluginResult)) &&
        (r.Ok? ==> context.executed &&
                   context.result == Some(CriteriaResult(CriteriaOf(config, context.domain, context.lastPluginResult))))
      ensures context.pluginResultType.OtherType? ==>
        r == Ok(context) && context.executed == old(context.executed) && context.result == old(context.result)
      ensures r.Err? ==> context.executed == old(context.executed) && context.result == old(context.result)
    {
      match context.pluginResultType
      case UPDATE =>
        var update := HandleUpdate(config, context.domain);
        if update.Err? {
          return Err(update.error);
        }
        var self := context.Execute(Some(UpdateResult(update.value)));
        return Ok(self);
      case CRITERIA_DEFINITION =>
        var last: Option<CriteriaDefinition>;
        match context.lastPluginResult {
          case None => last := None;
          case Some(CriteriaResult(d)) => last := Some(d);
          case Some(_) => return Err(ClassCast);
        }
        var definition := HandleCriteria(config, context.domain, last);
        if definition.Err? {
          return Err(definition.error);
        }
        var self := context.Execute(Some(CriteriaResult(definition.value)));
        return Ok(self);
      case OtherType(_) =>
        return Ok(context);
    }

    /** `apply`: a disabled context is returned untouched; an enabled one is
        handed to `plugInto`. */
    method Apply(config: MK.LogicDeleteConfig, context: PluginContext) returns (r: Outcome<PluginContext>)
      modifies context
      ensures !context.enable ==>
        r == Ok(context) && context.executed == old(context.executed) && context.result == old(context.result)
      ensures context.enable && context.pluginResultType == UPDATE && HandleUpdate(config, context.domain).Ok? ==>
        r == Ok(context) && context.TakeResult() == Some(UpdateResult(HandleUpdate(config, context.domain).value))
      ensures context.enable && context.pluginResultType == UPDATE && HandleUpdate(config, context.domain).Err? ==>
        r.Err? && context.executed == old(context.executed) && context.result == old(context.result)
      ensures context.enable && context.pluginResultType == CRITERIA_DEFINITION &&
              OkCriteria(config, context.domain, context.lastPluginResult) ==>
        r == Ok(context) &&
        context.TakeResult() == Some(CriteriaResult(CriteriaOf(config, context.domain, context.lastPluginResult)))
      ensures context.enable && context.pluginResultType == CRITERIA_DEFINITION &&
              !OkCriteria(config, context.domain, context.lastPluginResult) ==>
        r.Err? && context.executed == old(context.executed) && context.result == old(context.result)
      ensures context.enable && context.pluginResultType.OtherType? ==>
        r == Ok(context) && context.executed == old(context.executed) && context.result == old(context.result)
    {
      if context.enable {
        r := PlugInto(config, context);
      } else {
        r := Ok(context);
      }
    }
  }

  /** The last result of a criteria context, as the criteria it must be. */
  function LastCriteria(last: Option<PluginResult>): (r: Outcome<Option<CriteriaDefinition>>)
    ensures r.Err? <==> last.Some? && !last.value.CriteriaResult?
  {
    match last
    case None => Ok(None)
    case Some(CriteriaResult(d)) => Ok(Some(d))
    case Some(_) => Err(ClassCast)
  }

  /** Whether `handleCriteria` succeeds on a context's last result. */
  predicate OkCriteria(config: MK.LogicDeleteConfig, entity: MK.Entity, last: Option<PluginResult>) {
    LastCriteria(last).Ok? && HandleCriteria(config, entity, LastCriteria(last).value).Ok?
  }

  /** The criteria `handleCriteria` produces on a context's last result. */
  function CriteriaOf(config: MK.LogicDeleteConfig, entity: MK.Entity, last: Option<PluginResult>): CriteriaDefinition
    requires OkCriteria(config, entity, last)
  {
    HandleCriteria(config, entity, LastCriteria(last).value).value
  }

  /** `R2dbcPluginExecutor`: plugins kept by name. */
  class PluginExecutor {
    var pluginCacheUsingName: map<string, OperationPlugin>

    constructor()
      ensures pluginCacheUsingName == map[]
    {
      pluginCacheUsingName := map[];
    }

    /** `addPlugin`: registers the plugin under its name, replacing any
        plugin of the same name, and returns the executor. */
    method AddPlugin(plugin: OperationPlugin) returns (self: PluginExecutor)
      modifies this
      ensures self == this
      ensures pluginCacheUsingName == old(pluginCacheUsingName)[plugin.name := plugin]
    {
      pluginCacheUsingName := pluginCacheUsingName[plugin.name := plugin];
      self := this;
    }

    /** `removePlugin`: drops the plugin of that name and no other. */
    method RemovePlugin(pluginName: PluginName)
      modifies this
      ensures pluginCacheUsingName == old(pluginCacheUsingName) - {NameOf(pluginName)}
    {
      pluginCacheUsingName := pluginCacheUsingName - {NameOf(pluginName)};
    }

    /** `getPlugin`: the plugin registered under the name, or null. */
    function GetPlugin(pluginName: PluginName): (r: Option<OperationPlugin>)
      reads this
      ensures r.Some? <==> NameOf(pluginName) in pluginCacheUsingName
      ensures r.Some? ==> r.value == pluginCacheUsingName[NameOf(pluginName)]
    {
      var key := NameOf(pluginName);
      if key in pluginCacheUsingName then Some(pluginCacheUsingName[key]) else None
    }

    /** `run`: hands the context to the plugin registered under its name; no
        such plugin is dereferenced as null. */
    method Run(config: MK.LogicDeleteConfig, context: PluginContext) returns (r: Outcome<PluginContext>)
      modifies context
      ensures GetPlugin(context.pluginName).None? ==> r == Err(NullPointer) && context.executed == old(context.executed)
      ensures GetPlugin(context.pluginName).Some? && !context.enable ==>
        r == Ok(context) && context.executed == old(context.executed)
      ensures GetPlugin(context.pluginName).Some? && context.enable && context.pluginResultType == UPDATE ==>
        if HandleUpdate(config, context.domain).Ok?
        then r == Ok(context) && context.TakeResult() == Some(UpdateResult(HandleUpdate(config, context.domain).value))
        else r.Err? && context.executed == old(context.executed) && context.result == old(context.result)
      ensures GetPlugin(context.pluginName).Some? && context.enable && context.pluginResultType == CRITERIA_DEFINITION ==>
        if OkCriteria(config, context.domain, context.lastPluginResult)
        then r == Ok(context) &&
          context.TakeResult() == Some(CriteriaResult(CriteriaOf(config, context.domain, context.lastPluginResult)))
        else r.Err? && context.executed == old(context.executed) && context.result == old(context.result)
      ensures GetPlugin(context.pluginName).Some? && context.enable && context.pluginResultType.OtherType? ==>
        r == Ok(context) && context.executed == old(context.executed) && context.result == old(context.result)
    {
      var plugin := GetPlugin(context.pluginName);
      if plugin.None? {
        return Err(NullPointer);
      }
      r := plugin.value.Apply(config, context);
    }
  }

  /** A plugin added is the one found under its name, a second plugin of
      that name replaces it, and after removal none is found. */
  method AddReplaceRemove(executor: PluginExecutor, first: OperationPlugin, second: OperationPlugin)
    returns (found: Option<OperationPlugin>, replaced: Option<OperationPlugin>, removed: Option<OperationPlugin>)
    requires first.name == NameOf(LOGIC_DELETE) && second.name == NameOf(LOGIC_DELETE)
    modifies executor
    ensures found == Some(first) && replaced == Some(second) && removed.None?
  {
    var self := executor.AddPlugin(first);
    found := executor.GetPlugin(LOGIC_DELETE);
    self := executor.AddPlugin(second);
    replaced := executor.GetPlugin(LOGIC_DELETE);
    executor.RemovePlugin(LOGIC_DELETE);
    removed := executor.GetPlugin(LOGIC_DELETE);
  }

  /** `R2dbcOperationOption`: whether references are selected, and a switch
      per plugin, all on at first. */
  class OperationOption {
    const selectReference: bool
    var pluginSwitch: map<PluginName, bool>

    /** Every plugin has a switch. */
    predicate Valid()
      reads this
    {
      ALL_PLUGIN_NAMES <= pluginSwitch.Keys
    }

    constructor()
      ensures selectReference && Valid() && forall p :: p in pluginSwitch ==> pluginSwitch[p]
    {
      selectReference := true;
      pluginSwitch := map p | p in ALL_PLUGIN_NAMES :: true;
    }

    constructor WithReference(selectReference: bool)
      ensures this.selectReference == selectReference && Valid() && forall p :: p in pluginSwitch ==> pluginSwitch[p]
    {
      this.selectReference := selectReference;
      pluginSwitch := map p | p in ALL_PLUGIN_NAMES :: true;
    }

    /** `isPluginEnable`: the switch, unboxed; a missing switch would be
        dereferenced as null. */
    function IsPluginEnable(pluginName: PluginName): (r: Outcome<bool>)
      reads this
      ensures Valid() ==> r.Ok?
      ensures r.Ok? ==> pluginName in pluginSwitch && r.value == pluginSwitch[pluginName]
    {
      EveryNameListed(pluginName);
      if pluginName in pluginSwitch then Ok(pluginSwitch[pluginName]) else Err(NullPointer)
    }

    method DisablePlugin(pluginName: PluginName)
      modifies this
      ensures pluginSwitch == old(pluginSwitch)[pluginName := false]
      ensures IsPluginEnable(pluginName) == Ok(false)
    {
      pluginSwitch := pluginSwitch[pluginName := false];
    }

    method EnablePlugin(pluginName: PluginName)
      modifies this
      ensures pluginSwitch == old(pluginSwitch)[pluginName := true]
      ensures IsPluginEnable(pluginName) == Ok(true)
    {
      pluginSwitch := pluginSwitch[pluginName := true];
    }
  }

  /** A fresh option has every plugin enabled; disabling then enabling a
      plugin reads back as off, then on. */
  method ToggleRoundTrip(selectReference: bool) returns (initially: Outcome<bool>, afterDisable: Outcome<bool>, afterEnable: Outcome<bool>)
    ensures initially == Ok(true) && afterDisable == Ok(false) && afterEnable == Ok(true)
  {
    var option := new OperationOption.WithReference(selectReference);
    initially := option.IsPluginEnable(LOGIC_DELETE);
    option.DisablePlugin(LOGIC_DELETE);
    afterDisable := option.IsPluginEnable(LOGIC_DELETE);
    option.EnablePlugin(LOGIC_DELETE);
    afterEnable := option.IsPluginEnable(LOGIC_DELETE);
  }
}
