/** The Seeker query builder: a list of probes (one condition each: field,
    rule, value and how it joins the previous ones), a list of sorters and a
    page request, folded by `buildQuery` into criteria, a sort order and a
    page. */
module Seeker {
  import opened Wrappers
  import opened JavaValues
  import C = Criteria
  import P = Pages
  import StringKit

  // ------------------------------------------------------------ domain enums

  /** `Rule`: the comparison a probe asks for. */
  datatype Rule = EQ | NE | GT | GE | LT | LE | IN | NOT_IN | LIKE | BETWEEN | NOT_BETWEEN

  /** `Extend`: preprocessing of a probe before it is applied. */
  datatype Extend = NONE | SKIP | DO_NOT_OVERRIDE | DATE | ENUM

  /** `Synapse`: how a probe joins the criteria built so far. */
  datatype Synapse = AND | OR

  /** `Sorting`: three spellings of each direction. */
  datatype Sorting = ASC | ASCEND | ASCENDING | DESC | DESCEND | DESCENDING

  const BLANK := ""
  const PERCENT_SIGN := "%"
  const NULL_PARAM_MESSAGE := "Parameter must not be null"

  // ------------------------------------------------------------ rules

  /** The comparator each rule builds from a non-null parameter. */
  function ComparatorOf(rule: Rule): C.Comparator {
    match rule
    case EQ => C.Comparator.EQ
    case NE => C.Comparator.NEQ
    case GT => C.Comparator.GT
    case GE => C.Comparator.GTE
    case LT => C.Comparator.LT
    case LE => C.Comparator.LTE
    case IN => C.Comparator.IN
    case NOT_IN => C.Comparator.NOT_IN
    case LIKE => C.Comparator.LIKE
    case BETWEEN => C.Comparator.BETWEEN
    case NOT_BETWEEN => C.Comparator.NOT_BETWEEN
  }

  /** `ReflectionKit.cast(params)` to a list, then `get(0)` and `get(1)`:
      anything but a list (a set among them) fails the cast, a short list
      the index. */
  function Bounds(param: Value): (r: Outcome<(Value, Value)>)
    ensures r.Ok? <==> param.Collection? && param.isList && |param.items| >= 2
    ensures r.Err? ==> (r.error == ClassCast <==> !(param.Collection? && param.isList))
    ensures r.Ok? ==> r.value == (param.items[0], param.items[1])
  {
    if !param.Collection? || !param.isList then Err(ClassCast)
    else if |param.items| < 2 then Err(IndexOutOfBounds)
    else Ok((param.items[0], param.items[1]))
  }

  /** `getFunction().apply(step, param)`: the step method each rule calls.
      `IN` and `NOT_IN` pass a collection as a collection and anything else
      as a single vararg; `LIKE` wraps the string form in "%". */
  function RuleFunction(rule: Rule, step: C.Step, param: Value): (r: Outcome<C.Criteria>)
  {
    match rule
    case IN =>
      if param.Collection? then C.InCollection(step, false, param.items, param.isList) else C.InValues(step, false, [param])
    case NOT_IN =>
      if param.Collection? then C.InCollection(step, true, param.items, param.isList) else C.InValues(step, true, [param])
    case LIKE => C.Compare(step, C.Comparator.LIKE, Str(PERCENT_SIGN + ToString(param) + PERCENT_SIGN))
    case BETWEEN =>
      var bounds :- Bounds(param);
      C.Between(step, false, bounds.0, bounds.1)
    case NOT_BETWEEN =>
      var bounds :- Bounds(param);
      C.Between(step, true, bounds.0, bounds.1)
    case _ => C.Compare(step, ComparatorOf(rule), param)
  }

  /** `nullParamFallback`: EQ becomes IS NULL, NE becomes IS NOT NULL, every
      other rule throws. */
  function NullParamFallback(rule: Rule, step: C.Step): (r: Outcome<C.Criteria>)
    ensures r.Ok? <==> rule in {EQ, NE}
  {
    match rule
    case EQ => Ok(C.IsNullStep(step))
    case NE => Ok(C.IsNotNullStep(step))
    case _ => Err(UnsupportedOperation(NULL_PARAM_MESSAGE))
  }

  /** `RuleFunction.execute`: a null parameter goes to the fallback, any
      other to the rule's function. */
  function Execute(rule: Rule, step: C.Step, param: Value): (r: Outcome<C.Criteria>)
  {
    if param == Null then NullParamFallback(rule, step) else RuleFunction(rule, step, param)
  }

  /** A null parameter: EQ and NE test for null, every other rule throws
      `UnsupportedOperationException`, and the rule's own function is not
      reached. */
  lemma NullParameterCases(rule: Rule, step: C.Step)
    ensures rule == EQ ==>
      Execute(rule, step, Null).Ok? && Execute(rule, step, Null).value.comparator == Some(C.Comparator.IS_NULL)
    ensures rule == NE ==>
      Execute(rule, step, Null).Ok? && Execute(rule, step, Null).value.comparator == Some(C.Comparator.IS_NOT_NULL)
    ensures rule !in {EQ, NE} ==> Execute(rule, step, Null) == Err(UnsupportedOperation(NULL_PARAM_MESSAGE))
    ensures Execute(rule, step, Null).Ok? ==>
      Execute(rule, step, Null).value.column == Some(step.column) &&
      Execute(rule, step, Null).value.previous == step.previous
  {
  }

  /** A non-null parameter builds the rule's comparator on the step's column
      with the value the rule makes of the parameter. */
  lemma NonNullParameterCases(rule: Rule, step: C.Step, param: Value)
    requires param != Null
    ensures var r := Execute(rule, step, param);
      r.Ok? ==>
        r.value.column == Some(step.column) && r.value.previous == step.previous &&
        r.value.comparator == Some(ComparatorOf(rule))
    ensures rule in {EQ, NE, GT, GE, LT, LE} ==> Execute(rule, step, param) == Ok(C.Complete(step, ComparatorOf(rule), param))
    ensures rule == LIKE ==>
      Execute(rule, step, param) == Ok(C.Complete(step, C.Comparator.LIKE, Str("%" + ToString(param) + "%")))
    ensures rule in {IN, NOT_IN} && Execute(rule, step, param).Ok? ==>
      Execute(rule, step, param).value.value == (if param.Collection? then param else Collection([param], true))
    ensures rule in {BETWEEN, NOT_BETWEEN} ==>
      (Execute(rule, step, param).Err? <==>
        !param.Collection? || !param.isList || |param.items| < 2 || param.items[0] == Null || param.items[1] == Null)
    ensures rule in {BETWEEN, NOT_BETWEEN} && Execute(rule, step, param).Ok? ==>
      Execute(rule, step, param).value.value == Pair(param.items[0], param.items[1])
  {
  }

  // ------------------------------------------------------------ probes

  /** A probe, after its constructor has replaced null members. */
  datatype Probe = Probe(field: string, jsonKey: string, value: Value, rule: Rule, extend: Extend,
                         synapse: Synapse, snakeCase: bool)

  /** The all-arguments constructor: a null field or JSON key becomes "", a
      null rule EQ, a null extension NONE, a null synapse AND; only the value
      may stay null. */
  function NewProbe(field: Option<string>, jsonKey: Option<string>, value: Value, rule: Option<Rule>,
                    extend: Option<Extend>, synapse: Option<Synapse>, snakeCase: bool): (p: Probe)
    ensures p.field == field.GetOr(BLANK) && p.jsonKey == jsonKey.GetOr(BLANK)
    ensures p.rule == rule.GetOr(EQ) && p.extend == extend.GetOr(NONE) && p.synapse == synapse.GetOr(AND)
    ensures p.value == value && p.snakeCase == snakeCase
  {
    Probe(if field.Some? then field.value else BLANK,
          if jsonKey.Some? then jsonKey.value else BLANK,
          value,
          if rule.Some? then rule.value else EQ,
          if extend.Some? then extend.value else NONE,
          if synapse.Some? then synapse.value else AND,
          snakeCase)
  }

  /** `Probe.builder()...build()` with the members the seeker sets; the
      others keep their defaults. */
  function BuiltProbe(rule: Rule, field: Option<string>, value: Value, extend: Option<Extend>): Probe {
    NewProbe(field, Some(BLANK), value, Some(rule), extend, Some(AND), true)
  }

  /** `getField`: the field in snake case, unless the probe says not to. */
  function GetField(p: Probe): (r: string)
    ensures p.snakeCase ==> r == StringKit.SnakeCase(p.field)
    ensures !p.snakeCase ==> r == p.field
  {
    if p.snakeCase then StringKit.SnakeCase(p.field) else p.field
  }

  /** The step a probe continues from: a fresh `where` on null or empty
      criteria, otherwise `and` or `or` after them. */
  function ProbeStep(p: Probe, criteria: Option<C.Criteria>): (r: Outcome<C.Step>)
  {
    if criteria.None? || C.IsEmpty(criteria.value) then C.Where(GetField(p))
    else if p.synapse == AND then C.AndColumn(criteria.value, GetField(p))
    else C.OrColumn(criteria.value, GetField(p))
  }

  /** `Probe.apply`. */
  function Apply(p: Probe, criteria: Option<C.Criteria>): (r: Outcome<C.Criteria>)
  {
    var step :- ProbeStep(p, criteria);
    Execute(p.rule, step, p.value)
  }

  /** A probe applied to null or empty criteria starts a new chain; applied
      to non-empty criteria it continues them, joined by its synapse. */
  lemma ApplyChains(p: Probe, criteria: Option<C.Criteria>)
    ensures criteria.None? || C.IsEmpty(criteria.value) ==>
      (ProbeStep(p, criteria).Ok? <==> !StringKit.BlankString(GetField(p))) &&
      (Apply(p, criteria).Ok? ==> Apply(p, criteria).value.previous.None?)
    ensures criteria.Some? && !C.IsEmpty(criteria.value) && ProbeStep(p, criteria).Ok? ==>
      ProbeStep(p, criteria).value ==
        C.Step(criteria, if p.synapse == AND then C.Combinator.AND else C.Combinator.OR, GetField(p))
    ensures Apply(p, criteria).Ok? ==> Apply(p, criteria).value.column == Some(GetField(p))
  {
    if ProbeStep(p, criteria).Ok? {
      var step := ProbeStep(p, criteria).value;
      if p.value == Null {
        NullParameterCases(p.rule, step);
      } else {
        NonNullParameterCases(p.rule, step, p.value);
      }
    }
  }

  /** `buildQuery`'s filter: a probe stays unless it is skipped, and a
      skipped probe with a blank field stays too. */
  predicate Kept(p: Probe) {
    p.extend != SKIP || StringKit.BlankString(GetField(p))
  }

  /** The probes that stay, in order. */
  function KeptProbes(probes: seq<Probe>): (r: seq<Probe>)
    ensures forall i :: 0 <= i < |r| ==> Kept(r[i]) && r[i] in probes
    ensures |r| <= |probes|
  {
    if |probes| == 0 then []
    else
      var rest := KeptProbes(probes[..|probes| - 1]);
      if Kept(probes[|probes| - 1]) then rest + [probes[|probes| - 1]] else rest
  }

  /** Every probe that passes the filter is kept. */
  lemma {:induction false} KeptProbesKeepsAll(probes: seq<Probe>, i: int)
    requires 0 <= i < |probes| && Kept(probes[i])
    ensures probes[i] in KeptProbes(probes)
  {
    if i < |probes| - 1 {
      KeptProbesKeepsAll(probes[..|probes| - 1], i);
    }
  }

  /** `Extend.handle`: NONE, SKIP and DO_NOT_OVERRIDE leave the probe as it
      is; DATE and ENUM rewrite it with `rewrite`. */
  function Handle(p: Probe, rewrite: Probe -> Probe): Probe {
    if p.extend in {DATE, ENUM} then rewrite(p) else p
  }

  /** The reduce of `buildQuery`, from `EnhancedCriteria.empty()`, applying
      each handled probe in turn; the first failure ends it. */
  function Fold(probes: seq<Probe>, rewrite: Probe -> Probe): (r: Outcome<C.Criteria>)
  {
    if |probes| == 0 then Ok(C.EMPTY)
    else
      var before :- Fold(probes[..|probes| - 1], rewrite);
      Apply(Handle(probes[|probes| - 1], rewrite), Some(before))
  }

  /** No probe leaves the empty criteria; one probe applies to empty
      criteria, so it starts the chain; a later probe continues what the
      earlier ones built. */
  lemma FoldSteps(probes: seq<Probe>, rewrite: Probe -> Probe, p: Probe)
    ensures Fold([], rewrite) == Ok(C.EMPTY)
    ensures Fold([p], rewrite) == Apply(Handle(p, rewrite), None)
    ensures Fold(probes + [p], rewrite).Ok? ==> Fold(probes, rewrite).Ok?
    ensures Fold(probes, rewrite).Ok? ==>
      Fold(probes + [p], rewrite) == Apply(Handle(p, rewrite), Some(Fold(probes, rewrite).value))
  {
    assert C.IsEmpty(C.EMPTY);
    assert [p][..0] == [];
    assert (probes + [p])[..|probes|] == probes;
  }

  // ------------------------------------------------------------ sorters

  /** A sorter: its field and its sorting, which may be null. */
  datatype Sorter = Sorter(field: string, sorting: Option<Sorting>)

  const ORDER_PROPERTY_MESSAGE := "Property must not be null or empty"

  /** `Sorting.execute` through `getSorting`: a null sorting sorts
      ascending, and Spring's `Sort.Order` refuses a field without text. */
  function OrderOf(s: Sorter): (r: Outcome<P.Order>)
    ensures r.Err? <==> StringKit.BlankString(s.field)
    ensures r.Err? ==> r.error == IllegalArgument(ORDER_PROPERTY_MESSAGE)
    ensures r.Ok? ==> r.value.property == s.field
    ensures r.Ok? ==>
      (r.value.direction == P.Direction.DESC <==> s.sorting.Some? && s.sorting.value in {DESC, DESCEND, DESCENDING})
  {
    var sorting := if s.sorting.Some? then s.sorting.value else ASC;
    var direction := if sorting in {DESC, DESCEND, DESCENDING} then P.Direction.DESC else P.Direction.ASC;
    if StringKit.BlankString(s.field) then Err(IllegalArgument(ORDER_PROPERTY_MESSAGE))
    else Ok(P.Order(direction, s.field))
  }

  const ID_COLUMN := "id"

  /** The sort of `buildQuery`: one order per sorter, in order, or "id"
      descending when there is no sorter; a sorter whose field has no text
      fails the whole sort. */
  function SortOf(sorters: seq<Sorter>): (r: Outcome<seq<P.Order>>)
    ensures |sorters| == 0 ==> r == Ok([P.Order(P.Direction.DESC, ID_COLUMN)])
    ensures r.Ok? <==> forall i :: 0 <= i < |sorters| ==> OrderOf(sorters[i]).Ok?
    ensures r.Err? ==> r.error == IllegalArgument(ORDER_PROPERTY_MESSAGE)
    ensures r.Ok? && |sorters| > 0 ==>
      |r.value| == |sorters| && forall i :: 0 <= i < |sorters| ==> OrderOf(sorters[i]) == Ok(r.value[i])
  {
    if |sorters| == 0 then Ok([P.Order(P.Direction.DESC, ID_COLUMN)])
    else if exists i :: 0 <= i < |sorters| && OrderOf(sorters[i]).Err? then Err(IllegalArgument(ORDER_PROPERTY_MESSAGE))
    else Ok(seq(|sorters|, i requires 0 <= i < |sorters| => OrderOf(sorters[i]).value))
  }

  /** The sorters after `setSorter(field, sorting)`'s loop: every sorter of
      that field takes the new sorting. */
  function Resorted(sorters: seq<Sorter>, field: string, sorting: Option<Sorting>): (r: seq<Sorter>)
    ensures |r| == |sorters|
    ensures forall i :: 0 <= i < |sorters| ==>
      r[i] == (if sorters[i].field == field then Sorter(field, sorting) else sorters[i])
  {
    seq(|sorters|, i requires 0 <= i < |sorters| =>
      if sorters[i].field == field then Sorter(field, sorting) else sorters[i])
  }

  /** The entries of one field removed, the others kept in order. */
  function WithoutField<T>(entries: seq<T>, fieldOf: T -> string, field: string): (r: seq<T>)
    ensures forall i :: 0 <= i < |r| ==> fieldOf(r[i]) != field && r[i] in entries
    ensures |r| <= |entries|
  {
    if |entries| == 0 then []
    else
      var rest := WithoutField(entries[..|entries| - 1], fieldOf, field);
      if fieldOf(entries[|entries| - 1]) == field then rest else rest + [entries[|entries| - 1]]
  }

  /** Every entry of another field survives the removal. */
  lemma {:induction false} WithoutFieldKeepsOthers<T>(entries: seq<T>, fieldOf: T -> string, field: string, i: int)
    requires 0 <= i < |entries| && fieldOf(entries[i]) != field
    ensures entries[i] in WithoutField(entries, fieldOf, field)
  {
    if i < |entries| - 1 {
      WithoutFieldKeepsOthers(entries[..|entries| - 1], fieldOf, field, i);
    }
  }

  /** Removing a field no entry has changes nothing. */
  lemma {:induction false} WithoutAbsentField<T>(entries: seq<T>, fieldOf: T -> string, field: string)
    requires forall i :: 0 <= i < |entries| ==> fieldOf(entries[i]) != field
    ensures WithoutField(entries, fieldOf, field) == entries
  {
    if |entries| > 0 {
      WithoutAbsentField(entries[..|entries| - 1], fieldOf, field);
    }
  }

  function SorterField(s: Sorter): string { s.field }

  /** What `buildQuery` builds: `Query.query(criteria).sort(sort)
      .with(pageable)`, which appends the page's own sort and takes its size
      as the limit and its offset. */
  datatype Query = Query(criteria: C.Criteria, sort: seq<P.Order>, limit: int, offset: int)

  /** The probes after `buildQuery`: DATE and ENUM probes are rewritten in
      place by their extension, all others stay as they are. */
  function HandledAll(probes: seq<Probe>, rewrite: Probe -> Probe): (r: seq<Probe>)
    ensures |r| == |probes|
    ensures forall i :: 0 <= i < |probes| ==> r[i] == Handle(probes[i], rewrite)
  {
    seq(|probes|, i requires 0 <= i < |probes| => Handle(probes[i], rewrite))
  }

  /** The query built from the probes, sorters and page request: the
      criteria is folded first, then the sort is built, then the page
      request; the first of them that fails fails the query. */
  function QueryOf(probes: seq<Probe>, sorters: seq<Sorter>, pagination: P.Request,
                   rewrite: Probe -> Probe): (r: Outcome<Query>)
    ensures r.Ok? <==>
      Fold(KeptProbes(probes), rewrite).Ok? && SortOf(sorters).Ok? && P.BuildPageable(pagination).Ok?
    ensures Fold(KeptProbes(probes), rewrite).Ok? && SortOf(sorters).Err? ==>
      r == Err(IllegalArgument(ORDER_PROPERTY_MESSAGE))
    ensures r.Ok? ==>
      r.value.criteria == Fold(KeptProbes(probes), rewrite).value &&
      r.value.sort == SortOf(sorters).value &&
      r.value.limit == P.BuildPageable(pagination).value.size &&
      r.value.offset == P.RequestOffset(P.BuildPageable(pagination).value)
  {
    var criteria :- Fold(KeptProbes(probes), rewrite);
    var sort :- SortOf(sorters);
    var pageable :- P.BuildPageable(pagination);
    Ok(Query(criteria, sort + pageable.sort, pageable.size, P.RequestOffset(pageable)))
  }

  /** The default page of a seeker: the first ten records, newest id first
      when no sorter is set. */
  lemma DefaultQuery(probes: seq<Probe>, rewrite: Probe -> Probe)
    requires Fold(KeptProbes(probes), rewrite).Ok?
    ensures QueryOf(probes, [], P.DefaultPage(), rewrite).Ok?
    ensures QueryOf(probes, [], P.DefaultPage(), rewrite).value.sort == [P.Order(P.Direction.DESC, ID_COLUMN)]
    ensures QueryOf(probes, [], P.DefaultPage(), rewrite).value.limit == 10
    ensures QueryOf(probes, [], P.DefaultPage(), rewrite).value.offset == 0
  {
  }

  /** A sorter on a blank field makes the query fail once the probes fold,
      whatever the other sorters are. */
  lemma BlankSorterFails(probes: seq<Probe>, sorters: seq<Sorter>, pagination: P.Request,
                         rewrite: Probe -> Probe, i: int)
    requires 0 <= i < |sorters| && StringKit.BlankString(sorters[i].field)
    requires Fold(KeptProbes(probes), rewrite).Ok?
    ensures QueryOf(probes, sorters, pagination, rewrite) == Err(IllegalArgument(ORDER_PROPERTY_MESSAGE))
  {
    assert OrderOf(sorters[i]).Err?;
  }

  /** `Seeker`: the mutable probe and sorter lists and the page request. */
  class Seeker {
    var probes: seq<Probe>
    var sorters: seq<Sorter>
    const pagination: P.Request

    /** A new seeker: no probes, no sorters, page 1 of 10. */
    constructor()
      ensures probes == [] && sorters == [] && pagination == P.DefaultPage()
    {
      probes := [];
      sorters := [];
      pagination := P.DefaultPage();
    }

    /** `takePageable`: the 1-based page request as Spring's 0-based one. */
    function TakePageable(): (r: Outcome<P.PageRequest>)
      reads this
      ensures INT_MIN < pagination.pageNumber <= INT_MAX ==>
        (r.Ok? <==> pagination.pageNumber >= 1 && pagination.pageSize >= 1) &&
        (r.Ok? ==> r.value.page == pagination.pageNumber - 1)
      ensures r.Ok? ==> r.value.size == pagination.pageSize && r.value.sort == []
    {
      P.BuildPageable(pagination)
    }

    /** `getProbe`: the first probe whose converted field is `field`, or a
        new default probe for it, which is not added. */
    function GetProbe(field: string): (r: Probe)
      reads this
      ensures (exists i :: 0 <= i < |probes| && GetField(probes[i]) == field) ==>
        exists i :: 0 <= i < |probes| && r == probes[i] && GetField(r) == field &&
          forall j :: 0 <= j < i ==> GetField(probes[j]) != field
      ensures (forall i :: 0 <= i < |probes| ==> GetField(probes[i]) != field) ==>
        r == NewProbe(Some(field), Some(BLANK), Null, Some(EQ), Some(NONE), Some(AND), true)
    {
      FirstWithField(probes, field)
    }

    /** `removeProbe`: drops the probes of that field, keeping the rest in
        order. */
    method RemoveProbe(field: string)
      modifies this
      ensures probes == WithoutField(old(probes), GetField, field) && sorters == old(sorters)
    {
      probes := WithoutField(probes, GetField, field);
    }

    /** `addProbe(probe)`: appends the probe. */
    method AddProbe(probe: Probe) returns (self: Seeker)
      modifies this
      ensures self == this && probes == old(probes) + [probe] && sorters == old(sorters)
    {
      probes := probes + [probe];
      self := this;
    }

    /** `addProbe(rule, field, value[, extend])`: appends the built probe. */
    method AddRuleProbe(rule: Rule, field: Option<string>, value: Value, extend: Option<Extend>) returns (self: Seeker)
      modifies this
      ensures self == this && probes == old(probes) + [BuiltProbe(rule, field, value, extend)]
      ensures sorters == old(sorters)
    {
      self := AddProbe(BuiltProbe(rule, field, value, extend));
    }

    /** `eq`: appends an EQ probe. */
    method Eq(field: Option<string>, value: Value) returns (self: Seeker)
      modifies this
      ensures self == this && probes == old(probes) + [BuiltProbe(EQ, field, value, None)]
      ensures sorters == old(sorters)
    {
      self := AddRuleProbe(EQ, field, value, None);
    }

    /** `gt`: appends a GT probe. */
    method Gt(field: Option<string>, value: Value) returns (self: Seeker)
      modifies this
      ensures self == this && probes == old(probes) + [BuiltProbe(GT, field, value, None)]
      ensures sorters == old(sorters)
    {
      self := AddRuleProbe(GT, field, value, None);
    }

    /** `addSorter`: appends one sorter. */
    method AddSorter(field: string, sorting: Option<Sorting>) returns (self: Seeker)
      modifies this
      ensures self == this && sorters == old(sorters) + [Sorter(field, sorting)] && probes == old(probes)
    {
      sorters := sorters + [Sorter(field, sorting)];
      self := this;
    }

    /** `setSorter`: every sorter of the field takes the new sorting; when
        there is none, one is appended. */
    method SetSorter(field: string, sorting: Option<Sorting>) returns (self: Seeker)
      modifies this
      ensures self == this && probes == old(probes)
      ensures (exists i :: 0 <= i < |old(sorters)| && old(sorters)[i].field == field) ==>
        sorters == Resorted(old(sorters), field, sorting)
      ensures (forall i :: 0 <= i < |old(sorters)| ==> old(sorters)[i].field != field) ==>
        sorters == old(sorters) + [Sorter(field, sorting)]
    {
      var matches := false;
      var i := 0;
      while i < |sorters|
        invariant 0 <= i <= |sorters| == |old(sorters)|
        invariant forall k :: 0 <= k < i ==>
          sorters[k] == (if old(sorters)[k].field == field then Sorter(field, sorting) else old(sorters)[k])
        invariant forall k :: i <= k < |sorters| ==> sorters[k] == old(sorters)[k]
        invariant matches <==> exists k :: 0 <= k < i && old(sorters)[k].field == field
        invariant probes == old(probes)
      {
        if sorters[i].field == field {
          matches := true;
          sorters := sorters[i := Sorter(field, sorting)];
        }
        i := i + 1;
      }
      if !matches {
        assert sorters == old(sorters);
        self := AddSorter(field, sorting);
      } else {
        assert sorters == Resorted(old(sorters), field, sorting);
        self := this;
      }
    }

    /** `removeSorter`: drops the sorters of that field, keeping the rest in
        order. */
    method RemoveSorter(field: string) returns (self: Seeker)
      modifies this
      ensures self == this && probes == old(probes)
      ensures sorters == WithoutField(old(sorters), SorterField, field)
    {
      sorters := WithoutField(sorters, SorterField, field);
      self := this;
    }

    /** `buildQuery`: the kept probes folded into criteria, the sorters into
        a sort, and the page request; `rewrite` stands for the DATE and ENUM
        extensions, whose rewrites stay in the probe list. */
    method BuildQuery(rewrite: Probe -> Probe) returns (r: Outcome<Query>)
      modifies this
      ensures r == QueryOf(old(probes), old(sorters), pagination, rewrite)
      ensures probes == HandledAll(old(probes), rewrite) && sorters == old(sorters)
    {
      r := QueryOf(probes, sorters, pagination, rewrite);
      probes := HandledAll(probes, rewrite);
    }
  }

  /** The first probe whose converted field is `field`, else a new probe
      for it. */
  function FirstWithField(probes: seq<Probe>, field: string): (r: Probe)
    ensures (exists i :: 0 <= i < |probes| && GetField(probes[i]) == field) ==>
      exists i :: 0 <= i < |probes| && r == probes[i] && GetField(r) == field &&
        forall j :: 0 <= j < i ==> GetField(probes[j]) != field
    ensures (forall i :: 0 <= i < |probes| ==> GetField(probes[i]) != field) ==>
      r == NewProbe(Some(field), Some(BLANK), Null, Some(EQ), Some(NONE), Some(AND), true)
  {
    if |probes| == 0 then NewProbe(Some(field), Some(BLANK), Null, Some(EQ), Some(NONE), Some(AND), true)
    else if GetField(probes[0]) == field then probes[0]
    else
      var r := FirstWithField(probes[1..], field);
      assert forall i :: 1 <= i < |probes| ==> probes[i] == probes[1..][i - 1];
      assert (exists i :: 0 <= i < |probes| && GetField(probes[i]) == field) ==>
        exists i :: 0 <= i < |probes[1..]| && GetField(probes[1..][i]) == field;
      if exists i :: 0 <= i < |probes[1..]| && GetField(probes[1..][i]) == field then
        var k :| 0 <= k < |probes[1..]| && r == probes[1..][k] && GetField(r) == field &&
          forall j :: 0 <= j < k ==> GetField(probes[1..][j]) != field;
        assert r == probes[k + 1];
        r
      else r
  }
}
