/** `EnhancedCriteria`: an immutable chain of comparison nodes and groups,
    each node linked to its predecessor and combined with it by AND or OR.
    Spring's own `Criteria`, of which `EnhancedCriteria` is a copy, is
    modelled by the same datatype. */
module Criteria {
  import opened Wrappers
  import opened JavaValues
  import StringKit

  /** Spring's `CriteriaDefinition.Comparator`. */
  datatype Comparator =
    | INITIAL | EQ | NEQ | BETWEEN | NOT_BETWEEN | LT | LTE | GT | GTE
    | IS_NULL | IS_NOT_NULL | LIKE | NOT_LIKE | NOT_IN | IN | IS_TRUE | IS_FALSE

  /** `Comparator.getComparator()`: the SQL text of a comparator. */
  function ComparatorSql(c: Comparator): string {
    match c
    case INITIAL => ""
    case EQ => "="
    case NEQ => "!="
    case BETWEEN => "BETWEEN"
    case NOT_BETWEEN => "NOT BETWEEN"
    case LT => "<"
    case LTE => "<="
    case GT => ">"
    case GTE => ">="
    case IS_NULL => "IS NULL"
    case IS_NOT_NULL => "IS NOT NULL"
    case LIKE => "LIKE"
    case NOT_LIKE => "NOT LIKE"
    case NOT_IN => "NOT IN"
    case IN => "IN"
    case IS_TRUE => "IS TRUE"
    case IS_FALSE => "IS FALSE"
  }

  datatype Combinator = INITIAL | AND | OR

  /** `Combinator.name()`. */
  function CombinatorName(c: Combinator): string {
    match c
    case INITIAL => "INITIAL"
    case AND => "AND"
    case OR => "OR"
  }

  /** One node of the chain. `column` and `comparator` are `None` for a group
      node; `previous` is `None` for the first node of a chain. */
  datatype Criteria = Node(
    previous: Option<Criteria>,
    combinator: Combinator,
    group: seq<Criteria>,
    column: Option<string>,
    comparator: Option<Comparator>,
    value: Value,
    ignoreCase: bool)

  /** The constructor shared by all nodes: a node that follows an empty chain
      gets the INITIAL combinator whatever combinator it was asked for. */
  function Make(previous: Option<Criteria>, combinator: Combinator, group: seq<Criteria>,
                column: Option<string>, comparator: Option<Comparator>, value: Value,
                ignoreCase: bool): (r: Criteria)
    ensures r.previous == previous && r.group == group && r.column == column
    ensures r.comparator == comparator && r.value == value && r.ignoreCase == ignoreCase
    ensures WellBuilt(r)
  {
    Node(previous,
         if previous.Some? && IsEmpty(previous.value) then Combinator.INITIAL else combinator,
         group, column, comparator, value, ignoreCase)
  }

  /** What the constructor guarantees about every node it builds. */
  predicate WellBuilt(c: Criteria) {
    c.previous.Some? && IsEmpty(c.previous.value) ==> c.combinator == Combinator.INITIAL
  }

  /** `EMPTY`: column `SqlIdentifier.EMPTY`, comparator INITIAL, no value. */
  const EMPTY: Criteria := Node(None, Combinator.INITIAL, [], Some(""), Some(Comparator.INITIAL), Null, false)

  // ------------------------------------------------------------ emptiness

  /** `doIsEmpty`: this node alone, ignoring its predecessors. */
  predicate NodeEmpty(c: Criteria)
    decreases c, 0
  {
    c.comparator == Some(Comparator.INITIAL)
    || (c.column.None? && forall i :: 0 <= i < |c.group| ==> IsEmpty(c.group[i]))
  }

  /** `isEmpty`: this node and every predecessor are empty. */
  predicate IsEmpty(c: Criteria)
    decreases c, 1
  {
    NodeEmpty(c) && (c.previous.None? || IsEmpty(c.previous.value))
  }

  /** The chain ending in `c`, oldest node first. */
  function Chain(c: Criteria): (r: seq<Criteria>)
    ensures |r| > 0 && r[|r| - 1] == c
    ensures r[0].previous.None?
    ensures forall k :: 0 <= k < |r| - 1 ==> r[k + 1].previous == Some(r[k])
  {
    if c.previous.None? then [c] else Chain(c.previous.value) + [c]
  }

  /** `isEmpty` walks the predecessors in a loop. */
  method IsEmptyWalk(c: Criteria) returns (empty: bool)
    ensures empty == IsEmpty(c)
    decreases c, 1
  {
    var own := NodeEmptyScan(c);
    if !own {
      return false;
    }
    var parent := c.previous;
    while parent.Some?
      invariant IsEmpty(c) == (parent.None? || IsEmpty(parent.value))
      decreases parent
    {
      var parentEmpty := NodeEmptyScan(parent.value);
      if !parentEmpty {
        return false;
      }
      parent := parent.value.previous;
    }
    return true;
  }

  /** `doIsEmpty` scans the group in a loop. */
  method NodeEmptyScan(c: Criteria) returns (empty: bool)
    ensures empty == NodeEmpty(c)
    decreases c, 0
  {
    if c.comparator == Some(Comparator.INITIAL) {
      return true;
    }
    if c.column.Some? {
      return false;
    }
    var i := 0;
    while i < |c.group|
      invariant 0 <= i <= |c.group|
      invariant forall k :: 0 <= k < i ==> IsEmpty(c.group[k])
    {
      var memberEmpty := IsEmptyWalk(c.group[i]);
      if !memberEmpty {
        return false;
      }
      i := i + 1;
    }
    return true;
  }

  /** isEmpty holds exactly when every node of the chain is empty on its own. */
  lemma {:induction false} IsEmptyIffAllNodesEmpty(c: Criteria)
    ensures IsEmpty(c) <==> forall x :: x in Chain(c) ==> NodeEmpty(x)
    decreases c
  {
    if c.previous.Some? {
      var p := c.previous.value;
      IsEmptyIffAllNodesEmpty(p);
      var cp := Chain(p);
      assert Chain(c) == cp + [c];
      assert IsEmpty(c) == (NodeEmpty(c) && IsEmpty(p));
      assert (forall x :: x in cp + [c] ==> NodeEmpty(x))
          == ((forall x :: x in cp ==> NodeEmpty(x)) && NodeEmpty(c));
    } else {
      assert Chain(c) == [c];
      assert IsEmpty(c) == NodeEmpty(c);
      assert (forall x :: x in Chain(c) ==> NodeEmpty(x)) == NodeEmpty(c);
    }
  }

  // ------------------------------------------------------------ factories

  /** `where(column)`, `and(column)` and `or(column)` return a step that is
      completed by a comparison; this records what the step will build. */
  datatype Step = Step(previous: Option<Criteria>, combinator: Combinator, column: string)

  /** `Assert.hasText`: the column name must contain a non-whitespace character. */
  function CheckColumn(column: string): Outcome<string> {
    if StringKit.BlankString(column) then Err(IllegalArgument("Column name must not be null or empty"))
    else Ok(column)
  }

  function Where(column: string): (r: Outcome<Step>)
    ensures r.Ok? <==> !StringKit.BlankString(column)
    ensures r.Ok? ==> r.value.previous.None? && r.value.column == column
  {
    var name :- CheckColumn(column);
    Ok(Step(None, Combinator.INITIAL, name))
  }

  function AndColumn(c: Criteria, column: string): (r: Outcome<Step>)
    ensures r.Ok? <==> !StringKit.BlankString(column)
    ensures r.Ok? ==> r.value.previous == Some(c) && r.value.column == column
  {
    var name :- CheckColumn(column);
    Ok(Step(Some(c), Combinator.AND, name))
  }

  function OrColumn(c: Criteria, column: string): (r: Outcome<Step>)
    ensures r.Ok? <==> !StringKit.BlankString(column)
    ensures r.Ok? ==> r.value.previous == Some(c) && r.value.column == column
  {
    var name :- CheckColumn(column);
    Ok(Step(Some(c), Combinator.OR, name))
  }

  /** `createLambdaCriteria`: the node a step builds for a comparison. */
  function Complete(step: Step, comparator: Comparator, value: Value): (r: Criteria)
    ensures r.previous == step.previous && r.column == Some(step.column)
    ensures r.comparator == Some(comparator) && r.value == value && |r.group| == 0
    ensures !NodeEmpty(r) <== comparator != Comparator.INITIAL
  {
    Make(step.previous, step.combinator, [], Some(step.column), Some(comparator), value, false)
  }

  /** The single-value comparisons (`is`, `not`, `lessThan`, ..., `notLike`)
      reject a null value. */
  function Compare(step: Step, comparator: Comparator, value: Value): (r: Outcome<Criteria>)
    requires comparator in {Comparator.EQ, Comparator.NEQ, Comparator.LT, Comparator.LTE,
                            Comparator.GT, Comparator.GTE, Comparator.LIKE, Comparator.NOT_LIKE}
    ensures r.Err? <==> value.Null?
    ensures r.Ok? ==> r.value == Complete(step, comparator, value)
  {
    if value.Null? then Err(IllegalArgument("Value must not be null"))
    else Ok(Complete(step, comparator, value))
  }

  const ONE_ARGUMENT_MESSAGE := "You can only pass in one argument of type java.util.Collection"

  predicate NoNulls(values: seq<Value>) {
    forall i :: 0 <= i < |values| ==> !values[i].Null?
  }

  /** `in(Object...)` / `notIn(Object...)`: no null element, and a second
      argument that is itself a collection is refused. */
  function InValues(step: Step, negated: bool, values: seq<Value>): (r: Outcome<Criteria>)
    ensures r.Ok? <==> NoNulls(values) && !(|values| > 1 && values[1].Collection?)
    ensures r.Err? && NoNulls(values) ==> r.error.InvalidDataAccessApiUsage?
    ensures r.Ok? ==> r.value.value == Collection(values, true)
  {
    if !NoNulls(values) then Err(IllegalArgument("Values must not contain a null value"))
    else if |values| > 1 && values[1].Collection? then
      Err(InvalidDataAccessApiUsage(ONE_ARGUMENT_MESSAGE))
    else Ok(Complete(step, if negated then Comparator.NOT_IN else Comparator.IN, Collection(values, true)))
  }

  /** `in(Collection)` / `notIn(Collection)`: only null elements are
      refused, and the collection is kept as it was given. */
  function InCollection(step: Step, negated: bool, values: seq<Value>, isList: bool): (r: Outcome<Criteria>)
    ensures r.Ok? <==> NoNulls(values)
    ensures r.Ok? ==> r.value.value == Collection(values, isList)
  {
    if !NoNulls(values) then Err(IllegalArgument("Values must not contain a null value"))
    else Ok(Complete(step, if negated then Comparator.NOT_IN else Comparator.IN, Collection(values, isList)))
  }

  /** `between` / `notBetween` pair the two bounds. */
  function Between(step: Step, negated: bool, begin: Value, end: Value): (r: Outcome<Criteria>)
    ensures r.Ok? <==> !begin.Null? && !end.Null?
    ensures r.Ok? ==> r.value.value == Pair(begin, end)
  {
    if begin.Null? then Err(IllegalArgument("Begin value must not be null"))
    else if end.Null? then Err(IllegalArgument("End value must not be null"))
    else Ok(Complete(step, if negated then Comparator.NOT_BETWEEN else Comparator.BETWEEN, Pair(begin, end)))
  }

  /** A completed comparison renders as `column comparator operand`. */
  lemma CompleteRenders(step: Step, comparator: Comparator, value: Value)
    requires comparator != Comparator.INITIAL
    ensures Rendered(Complete(step, comparator, value)) ==
      Ok(step.column + " " + ComparatorSql(comparator) + Operand(comparator, value))
  {
  }

  /** `isNull()`: renders as `column IS NULL`. */
  function IsNullStep(step: Step): (r: Criteria)
    ensures r.previous == step.previous && |r.group| == 0 && r.value == Null
    ensures Rendered(r) == Ok(step.column + " IS NULL")
  {
    CompleteRenders(step, Comparator.IS_NULL, Null);
    assert step.column + " " + "IS NULL" + "" == step.column + " IS NULL";
    Complete(step, Comparator.IS_NULL, Null)
  }

  /** `isNotNull()`: renders as `column IS NOT NULL`. */
  function IsNotNullStep(step: Step): (r: Criteria)
    ensures r.previous == step.previous && |r.group| == 0 && r.value == Null
    ensures Rendered(r) == Ok(step.column + " IS NOT NULL")
  {
    CompleteRenders(step, Comparator.IS_NOT_NULL, Null);
    assert step.column + " " + "IS NOT NULL" + "" == step.column + " IS NOT NULL";
    Complete(step, Comparator.IS_NOT_NULL, Null)
  }

  /** `isTrue()`: renders as `column IS TRUE`. */
  function IsTrueStep(step: Step): (r: Criteria)
    ensures r.previous == step.previous && |r.group| == 0 && r.value == Bool(true)
    ensures Rendered(r) == Ok(step.column + " IS TRUE")
  {
    CompleteRenders(step, Comparator.IS_TRUE, Bool(true));
    assert step.column + " " + "IS TRUE" + "" == step.column + " IS TRUE";
    Complete(step, Comparator.IS_TRUE, Bool(true))
  }

  /** `isFalse()`: renders as `column IS FALSE`. */
  function IsFalseStep(step: Step): (r: Criteria)
    ensures r.previous == step.previous && |r.group| == 0 && r.value == Bool(false)
    ensures Rendered(r) == Ok(step.column + " IS FALSE")
  {
    CompleteRenders(step, Comparator.IS_FALSE, Bool(false));
    assert step.column + " " + "IS FALSE" + "" == step.column + " IS FALSE";
    Complete(step, Comparator.IS_FALSE, Bool(false))
  }

  /** `and(List)` / `and(CriteriaDefinition)`: a group node after `c`,
      combined with AND unless `c` is empty, and itself empty exactly when
      every member is. */
  function AndGroup(c: Criteria, group: seq<Criteria>): (r: Criteria)
    ensures r.previous == Some(c) && r.group == group && r.column.None? && r.comparator.None?
    ensures r.combinator == if IsEmpty(c) then Combinator.INITIAL else Combinator.AND
    ensures NodeEmpty(r) <==> AllEmpty(group)
  {
    Make(Some(c), Combinator.AND, group, None, None, Null, false)
  }

  /** `or(List)` / `or(CriteriaDefinition)`: the same with OR. */
  function OrGroup(c: Criteria, group: seq<Criteria>): (r: Criteria)
    ensures r.previous == Some(c) && r.group == group && r.column.None? && r.comparator.None?
    ensures r.combinator == if IsEmpty(c) then Combinator.INITIAL else Combinator.OR
    ensures NodeEmpty(r) <==> AllEmpty(group)
  {
    Make(Some(c), Combinator.OR, group, None, None, Null, false)
  }

  /** `from(List)`: nothing gives EMPTY, one criteria is returned itself, and
      more are grouped with AND after EMPTY. */
  function From(criteria: seq<Criteria>): (r: Criteria)
    ensures |criteria| == 0 ==> r == EMPTY
    ensures |criteria| == 1 ==> r == criteria[0]
    ensures |criteria| > 1 ==> r.group == criteria && r.combinator == Combinator.INITIAL && r.previous == Some(EMPTY)
  {
    if |criteria| == 0 then EMPTY
    else if |criteria| == 1 then criteria[0]
    else AndGroup(EMPTY, criteria)
  }

  /** `ignoreCase(b)`: the same node when the flag already is `b`. */
  function IgnoreCase(c: Criteria, ignoreCase: bool): Criteria {
    if c.ignoreCase != ignoreCase then
      Make(c.previous, c.combinator, c.group, c.column, c.comparator, c.value, ignoreCase)
    else c
  }

  /** ignoreCase changes the flag and nothing else, and is the identity when
      the flag is already set that way. */
  lemma IgnoreCaseOnlyFlag(c: Criteria, ignoreCase: bool)
    requires WellBuilt(c)
    ensures IgnoreCase(c, ignoreCase) == c.(ignoreCase := ignoreCase)
    ensures c.ignoreCase == ignoreCase ==> IgnoreCase(c, ignoreCase) == c
  {
  }

  // ------------------------------------------------------------ rendering

  /** `renderValue`: numbers bare, collections element by element joined with
      ", ", null as `null`, and any other value quoted. */
  function RenderValue(v: Value): string
    decreases v, 1
  {
    match v
    case Num(n) => IntToString(n)
    case Collection(items, _) => Join(RenderItems(v, items), ", ")
    case Null => "null"
    case _ => "'" + ToString(v) + "'"
  }

  function RenderItems(owner: Value, items: seq<Value>): (r: seq<string>)
    requires forall i :: 0 <= i < |items| ==> items[i] < owner
    ensures |r| == |items|
    ensures forall i :: 0 <= i < |items| ==> r[i] == RenderValue(items[i])
    decreases owner, 0, |items|
  {
    if |items| == 0 then [] else [RenderValue(items[0])] + RenderItems(owner, items[1..])
  }

  /** What follows `column comparator` for one comparison. */
  function Operand(comparator: Comparator, value: Value): string {
    match comparator
    case BETWEEN | NOT_BETWEEN =>
      if value.Pair? then " " + ToString(value.first) + " AND " + ToString(value.second) else ""
    case IS_NULL | IS_NOT_NULL | IS_TRUE | IS_FALSE => ""
    case IN | NOT_IN => " (" + RenderValue(value) + ")"
    case _ => " " + RenderValue(value)
  }

  /** `render`: nothing for an empty chain, a parenthesised group for a group
      node, and `column comparator operand` otherwise. A non-group node
      without a column or comparator dereferences null. */
  function Rendered(c: Criteria): Outcome<string>
    decreases c, 1
  {
    if IsEmpty(c) then Ok("")
    else if |c.group| > 0 then
      var body :- GroupParts(c, c.group);
      Ok("(" + body + ")")
    else if c.column.None? || c.comparator.None? then Err(NullPointer)
    else Ok(c.column.value + " " + ComparatorSql(c.comparator.value) + Operand(c.comparator.value, c.value))
  }

  /** True when no criteria of `items` renders anything. */
  predicate AllEmpty(items: seq<Criteria>) {
    forall i :: 0 <= i < |items| ==> IsEmpty(items[i])
  }

  /** The text between the parentheses of `unrollGroup`: empty members are
      skipped, and every rendered member but the first is preceded by its
      combinator, INITIAL printed as AND. */
  function GroupParts(owner: Criteria, items: seq<Criteria>): Outcome<string>
    requires forall i :: 0 <= i < |items| ==> items[i] < owner
    decreases owner, 0, |items|
  {
    if |items| == 0 then Ok("")
    else
      var init := items[..|items| - 1];
      var last := items[|items| - 1];
      var acc :- GroupParts(owner, init);
      if IsEmpty(last) then Ok(acc)
      else
        var text :- Unrolled(last);
        Ok(acc + (if AllEmpty(init) then "" else GroupSeparator(last)) + text)
  }

  function GroupSeparator(c: Criteria): string {
    " " + CombinatorName(if c.combinator == Combinator.INITIAL then Combinator.AND else c.combinator) + " "
  }

  function ChainSeparator(c: Criteria): string {
    if c.combinator != Combinator.INITIAL then " " + CombinatorName(c.combinator) + " " else ""
  }

  /** `unroll`: every node of the chain, oldest first, each after its
      combinator unless that is INITIAL. */
  function Unrolled(c: Criteria): Outcome<string>
    decreases c, 3
  {
    if c.previous.None? then Rendered(c)
    else Extend(Unrolled(c.previous.value), c)
  }

  /** Appends one more node of the chain to a rendering. */
  function Extend(acc: Outcome<string>, c: Criteria): Outcome<string>
    decreases c, 2
  {
    var s :- acc;
    var t :- Rendered(c);
    Ok(s + ChainSeparator(c) + t)
  }

  /** Appends the nodes `forward`, in order. */
  function Continue(acc: Outcome<string>, forward: seq<Criteria>): Outcome<string>
    decreases |forward|
  {
    if |forward| == 0 then acc else Continue(Extend(acc, forward[0]), forward[1..])
  }

  /** `toString`. */
  function Text(c: Criteria): Outcome<string> {
    if IsEmpty(c) then Ok("") else Unrolled(c)
  }

  lemma {:induction false} ContinueErr(e: Failure, forward: seq<Criteria>)
    ensures Continue(Err(e), forward) == Err(e)
    decreases |forward|
  {
    if |forward| > 0 {
      ContinueErr(e, forward[1..]);
    }
  }

  lemma {:induction false} GroupPartsErr(owner: Criteria, items: seq<Criteria>, i: nat)
    requires forall k :: 0 <= k < |items| ==> items[k] < owner
    requires i <= |items| && GroupParts(owner, items[..i]).Err?
    ensures GroupParts(owner, items) == GroupParts(owner, items[..i])
    decreases |items| - i
  {
    if i < |items| {
      assert items[..i + 1][..i] == items[..i];
      GroupPartsErr(owner, items, i + 1);
    } else {
      assert items[..i] == items;
    }
  }

  /** One more member of a group, as `unrollGroup`'s loop body renders it. */
  lemma GroupPartsStep(owner: Criteria, items: seq<Criteria>, i: nat)
    requires forall k :: 0 <= k < |items| ==> items[k] < owner
    requires i < |items| && GroupParts(owner, items[..i]).Ok?
    ensures AllEmpty(items[..i + 1]) == (AllEmpty(items[..i]) && IsEmpty(items[i]))
    ensures IsEmpty(items[i]) ==> GroupParts(owner, items[..i + 1]) == GroupParts(owner, items[..i])
    ensures !IsEmpty(items[i]) && Unrolled(items[i]).Err? ==>
      GroupParts(owner, items[..i + 1]) == Err(Unrolled(items[i]).error)
    ensures !IsEmpty(items[i]) && Unrolled(items[i]).Ok? ==>
      GroupParts(owner, items[..i + 1]) == Ok(GroupParts(owner, items[..i]).value
        + (if AllEmpty(items[..i]) then "" else GroupSeparator(items[i])) + Unrolled(items[i]).value)
  {
    assert items[..i + 1][..i] == items[..i];
  }

  lemma ContinueHead(acc: Outcome<string>, forward: seq<Criteria>)
    requires |forward| > 0
    ensures Continue(acc, forward) == Continue(Extend(acc, forward[0]), forward[1..])
  {
  }

  lemma ExtendOk(builder: string, c: Criteria)
    ensures Rendered(c).Ok? ==> Extend(Ok(builder), c) == Ok(builder + ChainSeparator(c) + Rendered(c).value)
    ensures Rendered(c).Err? ==> Extend(Ok(builder), c) == Err(Rendered(c).error)
  {
  }

  /** `toString` checks emptiness, then unrolls. */
  method ToText(c: Criteria) returns (r: Outcome<string>)
    ensures r == Text(c)
    ensures IsEmpty(c) ==> r == Ok("")
  {
    var empty := IsEmptyWalk(c);
    if empty {
      return Ok("");
    }
    r := Unroll(c);
  }

  /** `unroll`: the first loop records the forward links while walking back
      to the first node, the second renders the chain forwards into the
      builder. */
  method Unroll(c: Criteria) returns (r: Outcome<string>)
    ensures r == Unrolled(c)
    decreases c, 3
  {
    var current := c;
    var forward: seq<Criteria> := [];
    while current.previous.Some?
      invariant current == c || current < c
      invariant forall k :: 0 <= k < |forward| ==> forward[k] == c || forward[k] < c
      invariant Unrolled(c) == Continue(Unrolled(current), forward)
      decreases current
    {
      ContinueHead(Unrolled(current.previous.value), [current] + forward);
      assert ([current] + forward)[1..] == forward;
      forward := [current] + forward;
      current := current.previous.value;
    }
    var head := Render(current);
    if head.Err? {
      ContinueErr(head.error, forward);
      return head;
    }
    var builder := head.value;
    var i := 0;
    while i < |forward|
      invariant 0 <= i <= |forward|
      invariant Unrolled(c) == Continue(Ok(builder), forward[i..])
    {
      var criterion := forward[i];
      assert forward[i..][1..] == forward[i + 1..];
      ContinueHead(Ok(builder), forward[i..]);
      ExtendOk(builder, criterion);
      var text := Render(criterion);
      if text.Err? {
        ContinueErr(text.error, forward[i + 1..]);
        return Err(text.error);
      }
      builder := builder + ChainSeparator(criterion) + text.value;
      i := i + 1;
    }
    return Ok(builder);
  }

  /** `render`. */
  method Render(c: Criteria) returns (r: Outcome<string>)
    ensures r == Rendered(c)
    decreases c, 1
  {
    var empty := IsEmptyWalk(c);
    if empty {
      return Ok("");
    }
    if |c.group| > 0 {
      var body := UnrollGroup(c);
      if body.Err? {
        return Err(body.error);
      }
      return Ok("(" + body.value + ")");
    }
    if c.column.None? || c.comparator.None? {
      return Err(NullPointer);
    }
    return Ok(c.column.value + " " + ComparatorSql(c.comparator.value) + Operand(c.comparator.value, c.value));
  }

  /** `unrollGroup`, without the surrounding parentheses. */
  method UnrollGroup(owner: Criteria) returns (r: Outcome<string>)
    ensures r == GroupParts(owner, owner.group)
    decreases owner, 0
  {
    var group := owner.group;
    var builder := "";
    var first := true;
    var i := 0;
    while i < |group|
      invariant 0 <= i <= |group|
      invariant first <==> AllEmpty(group[..i])
      invariant GroupParts(owner, group[..i]) == Ok(builder)
    {
      var criterion := group[i];
      GroupPartsStep(owner, group, i);
      var empty := IsEmptyWalk(criterion);
      if !empty {
        var text := Unroll(criterion);
        if text.Err? {
          GroupPartsErr(owner, group, i + 1);
          assert group[..|group|] == group;
          return Err(text.error);
        }
        builder := builder + (if first then "" else GroupSeparator(criterion)) + text.value;
        first := false;
      }
      i := i + 1;
    }
    assert group[..i] == group;
    return Ok(builder);
  }

  // ------------------------------------------------------------ properties

  /** Every node of the chain was built by the constructor. */
  predicate ChainWellBuilt(c: Criteria) {
    WellBuilt(c) && (c.previous.Some? ==> ChainWellBuilt(c.previous.value))
  }

  /** Chaining onto a well-built chain keeps it well built. */
  lemma MakeKeepsChainWellBuilt(previous: Criteria, combinator: Combinator, group: seq<Criteria>,
                                column: Option<string>, comparator: Option<Comparator>, value: Value, ignoreCase: bool)
    requires ChainWellBuilt(previous)
    ensures ChainWellBuilt(Make(Some(previous), combinator, group, column, comparator, value, ignoreCase))
  {
  }

  /** A well-built empty chain unrolls to nothing: every combinator in it was
      normalised to INITIAL, so no separator is printed. */
  lemma {:induction false} EmptyChainUnrollsToNothing(c: Criteria)
    requires ChainWellBuilt(c) && IsEmpty(c)
    ensures Unrolled(c) == Ok("")
    decreases c
  {
    if c.previous.Some? {
      EmptyChainUnrollsToNothing(c.previous.value);
      assert ChainSeparator(c) == "";
      assert Rendered(c) == Ok("");
      ExtendOk("", c);
      assert Rendered(c).value == "";
      assert "" + ChainSeparator(c) + Rendered(c).value == "";
      assert Extend(Ok(""), c) == Ok("");
      assert Unrolled(c.previous.value) == Ok("");
      assert Unrolled(c) == Extend(Unrolled(c.previous.value), c);
    } else {
      assert Rendered(c) == Ok("");
    }
  }

  /** The rendering of a group does not depend on the node that owns it. */
  lemma {:induction false} GroupPartsOwner(o1: Criteria, o2: Criteria, items: seq<Criteria>)
    requires forall i :: 0 <= i < |items| ==> items[i] < o1 && items[i] < o2
    ensures GroupParts(o1, items) == GroupParts(o2, items)
    decreases |items|
  {
    if |items| > 0 {
      GroupPartsOwner(o1, o2, items[..|items| - 1]);
    }
  }

  /** A node that follows an empty well-built chain renders exactly as the
      same node would at the head of a chain. */
  lemma AfterEmptyActsAsFirst(p: Criteria, combinator: Combinator, group: seq<Criteria>,
                              column: Option<string>, comparator: Option<Comparator>, value: Value, ignoreCase: bool)
    requires ChainWellBuilt(p) && IsEmpty(p)
    ensures var n := Make(Some(p), combinator, group, column, comparator, value, ignoreCase);
      n.combinator == Combinator.INITIAL
      && Text(n) == Text(Make(None, combinator, group, column, comparator, value, ignoreCase))
  {
    var n := Make(Some(p), combinator, group, column, comparator, value, ignoreCase);
    var first := Make(None, combinator, group, column, comparator, value, ignoreCase);
    assert IsEmpty(n) == IsEmpty(first);
    if !IsEmpty(n) {
      EmptyChainUnrollsToNothing(p);
      SameNodeRendersAlike(n, first);
    }
  }

  /** Two nodes that differ only in what precedes them, the first after an
      empty chain that unrolls to nothing with the INITIAL combinator, unroll
      to the same text. */
  lemma SameNodeRendersAlike(n: Criteria, first: Criteria)
    requires n.previous.Some? && IsEmpty(n.previous.value) && Unrolled(n.previous.value) == Ok("")
    requires n.combinator == Combinator.INITIAL && first.previous.None?
    requires n.group == first.group && n.column == first.column && n.comparator == first.comparator
    requires n.value == first.value && !IsEmpty(n)
    ensures Unrolled(n) == Unrolled(first)
  {
    assert NodeEmpty(n) == NodeEmpty(first);
    GroupPartsOwner(n, first, n.group);
    assert Rendered(n) == Rendered(first);
    ExtendOk("", n);
    assert ChainSeparator(n) == "";
    if Rendered(n).Ok? {
      assert "" + ChainSeparator(n) + Rendered(n).value == Rendered(n).value;
    }
    assert Unrolled(n) == Extend(Ok(""), n);
  }

  /** `from` of several criteria is their AND group, printed in parentheses. */
  lemma FromGroupsWithAnd(criteria: seq<Criteria>)
    requires |criteria| > 1 && !AllEmpty(criteria)
    ensures var r := From(criteria);
      GroupParts(r, criteria).Ok? ==> Text(r) == Ok("(" + GroupParts(r, criteria).value + ")")
  {
    var r := From(criteria);
    assert r == Node(Some(EMPTY), Combinator.INITIAL, criteria, None, None, Null, false);
    assert !NodeEmpty(r);
    assert !IsEmpty(r);
    assert Unrolled(EMPTY) == Ok("") by {
      assert IsEmpty(EMPTY);
    }
    ExtendOk("", r);
    assert Text(r) == Extend(Ok(""), r);
    assert ChainSeparator(r) == "";
    if GroupParts(r, criteria).Ok? {
      var body := "(" + GroupParts(r, criteria).value + ")";
      assert Rendered(r) == Ok(body);
      assert "" + ChainSeparator(r) + body == body;
    }
  }

  /** The members of a group that render something, in order. */
  function NonEmptyMembers(items: seq<Criteria>): (r: seq<Criteria>)
    ensures forall i :: 0 <= i < |r| ==> !IsEmpty(r[i]) && r[i] in items
    ensures forall x :: x in items && !IsEmpty(x) ==> x in r
    ensures AllEmpty(items) <==> |r| == 0
  {
    if |items| == 0 then []
    else
      var init := items[..|items| - 1];
      var last := items[|items| - 1];
      var r0 := NonEmptyMembers(init);
      assert forall x :: x in init ==> x in items;
      assert AllEmpty(items) == (AllEmpty(init) && IsEmpty(last));
      if IsEmpty(last) then r0 else r0 + [last]
  }

  /** A single member is kept exactly when it is not empty. */
  lemma NonEmptyMember(x: Criteria)
    ensures NonEmptyMembers([x]) == if IsEmpty(x) then [] else [x]
  {
    assert [x][..0] == [];
  }

  /** Filtering distributes over concatenation; with `NonEmptyMember`, the
      non-empty members are kept in their order, each as often as it
      occurs. */
  lemma {:induction false} NonEmptyMembersAppend(a: seq<Criteria>, b: seq<Criteria>)
    ensures NonEmptyMembers(a + b) == NonEmptyMembers(a) + NonEmptyMembers(b)
    decreases |b|
  {
    if |b| == 0 {
      assert a + b == a;
    } else {
      var init, last := b[..|b| - 1], b[|b| - 1];
      NonEmptyMembersAppend(a, init);
      var ab := a + b;
      assert ab[..|ab| - 1] == a + init && ab[|ab| - 1] == last;
      NonEmptyStep(ab);
      NonEmptyStep(b);
    }
  }

  /** One step of the filter, from the right. */
  lemma NonEmptyStep(items: seq<Criteria>)
    requires |items| > 0
    ensures var init, last := items[..|items| - 1], items[|items| - 1];
      NonEmptyMembers(items) == NonEmptyMembers(init) + (if IsEmpty(last) then [] else [last])
  {
  }

  /** Rendering a group skips its empty members entirely. */
  lemma {:induction false} GroupSkipsEmptyMembers(owner: Criteria, items: seq<Criteria>)
    requires forall i :: 0 <= i < |items| ==> items[i] < owner
    ensures forall i :: 0 <= i < |NonEmptyMembers(items)| ==> NonEmptyMembers(items)[i] < owner
    ensures GroupParts(owner, items) == GroupParts(owner, NonEmptyMembers(items))
    decreases |items|
  {
    MembersBelow(owner, items);
    if |items| > 0 {
      GroupSkipsEmptyMembers(owner, items[..|items| - 1]);
      GroupSkipsEmptyStep(owner, items);
    }
  }

  /** The last member keeps the rendering of the filtered members in step
      with that of all members. */
  lemma GroupSkipsEmptyStep(owner: Criteria, items: seq<Criteria>)
    requires forall i :: 0 <= i < |items| ==> items[i] < owner
    requires |items| > 0
    requires var ne := NonEmptyMembers(items[..|items| - 1]);
      (forall i :: 0 <= i < |ne| ==> ne[i] < owner) &&
      GroupParts(owner, items[..|items| - 1]) == GroupParts(owner, ne)
    ensures forall i :: 0 <= i < |NonEmptyMembers(items)| ==> NonEmptyMembers(items)[i] < owner
    ensures GroupParts(owner, items) == GroupParts(owner, NonEmptyMembers(items))
  {
    MembersBelow(owner, items);
    NonEmptyStep(items);
    if IsEmpty(items[|items| - 1]) {
      GroupPartsSkipsLast(owner, items);
    } else {
      GroupKeepsLast(owner, items);
    }
  }

  /** A non-empty last member is appended to both renderings alike. */
  lemma GroupKeepsLast(owner: Criteria, items: seq<Criteria>)
    requires forall i :: 0 <= i < |items| ==> items[i] < owner
    requires |items| > 0 && !IsEmpty(items[|items| - 1])
    requires var ne := NonEmptyMembers(items[..|items| - 1]);
      (forall i :: 0 <= i < |ne| ==> ne[i] < owner) &&
      GroupParts(owner, items[..|items| - 1]) == GroupParts(owner, ne)
    ensures GroupParts(owner, items) == GroupParts(owner, NonEmptyMembers(items[..|items| - 1]) + [items[|items| - 1]])
  {
    var ne := NonEmptyMembers(items[..|items| - 1]);
    assert AllEmpty(ne) <==> |ne| == 0 by {
      if |ne| > 0 { assert !IsEmpty(ne[0]); }
    }
    GroupPartsExtend(owner, items, ne);
  }

  /** The non-empty members are members, so they lie below the group. */
  lemma MembersBelow(owner: Criteria, items: seq<Criteria>)
    requires forall i :: 0 <= i < |items| ==> items[i] < owner
    ensures forall i :: 0 <= i < |NonEmptyMembers(items)| ==> NonEmptyMembers(items)[i] < owner
  {
    var r := NonEmptyMembers(items);
    forall i | 0 <= i < |r|
      ensures r[i] < owner
    {
      var j :| 0 <= j < |items| && items[j] == r[i];
    }
  }

  /** An empty last member adds nothing to the rendered group. */
  lemma GroupPartsSkipsLast(owner: Criteria, items: seq<Criteria>)
    requires forall i :: 0 <= i < |items| ==> items[i] < owner
    requires |items| > 0 && IsEmpty(items[|items| - 1])
    ensures GroupParts(owner, items) == GroupParts(owner, items[..|items| - 1])
  {
  }

  /** When the members before the last render, and are empty, like `b`,
      the whole list renders like `b` with that last member appended. */
  lemma GroupPartsExtend(owner: Criteria, items: seq<Criteria>, b: seq<Criteria>)
    requires forall i :: 0 <= i < |items| ==> items[i] < owner
    requires forall i :: 0 <= i < |b| ==> b[i] < owner
    requires |items| > 0
    requires GroupParts(owner, items[..|items| - 1]) == GroupParts(owner, b)
    requires AllEmpty(items[..|items| - 1]) <==> AllEmpty(b)
    ensures GroupParts(owner, items) == GroupParts(owner, b + [items[|items| - 1]])
  {
    var bl := b + [items[|items| - 1]];
    assert bl[..|b|] == b && bl[|b|] == items[|items| - 1];
    assert forall i :: 0 <= i < |bl| ==> bl[i] < owner;
    GroupPartsUnfold(owner, items);
    GroupPartsUnfold(owner, bl);
  }

  /** The text of a group is its last member appended to the text of the
      members before it. */
  lemma GroupPartsUnfold(owner: Criteria, items: seq<Criteria>)
    requires forall i :: 0 <= i < |items| ==> items[i] < owner
    requires |items| > 0
    ensures var init := items[..|items| - 1];
      GroupParts(owner, items) == GroupAppend(GroupParts(owner, init), AllEmpty(init), items[|items| - 1])
  {
  }

  /** What the last member adds to the text of the members before it. */
  function GroupAppend(acc: Outcome<string>, allEmptyBefore: bool, last: Criteria): Outcome<string> {
    var text :- acc;
    if IsEmpty(last) then Ok(text)
    else
      var rendered :- Unrolled(last);
      Ok(text + (if allEmptyBefore then "" else GroupSeparator(last)) + rendered)
  }

  /** Two rendered members are joined by the second one's combinator, AND
      when that is INITIAL. */
  lemma GroupOfTwo(owner: Criteria, a: Criteria, b: Criteria)
    requires a < owner && b < owner
    requires !IsEmpty(a) && !IsEmpty(b) && Unrolled(a).Ok? && Unrolled(b).Ok?
    ensures GroupParts(owner, [a, b]) == Ok(Unrolled(a).value
      + (if b.combinator == Combinator.OR then " OR " else " AND ") + Unrolled(b).value)
  {
    assert [a, b][..1] == [a];
    assert [a][..0] == [];
    assert GroupParts(owner, []) == Ok("");
    assert AllEmpty([]);
    assert "" + "" + Unrolled(a).value == Unrolled(a).value;
    assert GroupParts(owner, [a]) == Ok(Unrolled(a).value);
    assert !AllEmpty([a]);
    assert GroupSeparator(b) == (if b.combinator == Combinator.OR then " OR " else " AND ") by {
      assert " " + "OR" + " " == " OR ";
      assert " " + "AND" + " " == " AND ";
    }
    assert [a, b][1] == b;
  }

  /** A number operand is printed bare and reads back as that number. */
  lemma NumberOperandReadsBack(n: int)
    ensures var s := RenderValue(Num(n));
      |s| > 0 && s[0] != '\'' && ParseInt(s) == n
  {
    IntToStringRoundTrip(n);
  }

  /** A collection operand lists its elements' renderings separated by ", ";
      a one-element collection renders as that element. */
  lemma CollectionOperand(items: seq<Value>, isList: bool)
    ensures RenderValue(Collection(items, isList)) ==
            Join(seq(|items|, i requires 0 <= i < |items| => RenderValue(items[i])), ", ")
    ensures |items| == 1 ==> RenderValue(Collection(items, isList)) == RenderValue(items[0])
    ensures |items| == 0 ==> RenderValue(Collection(items, isList)) == ""
  {
    var r := RenderItems(Collection(items, isList), items);
    assert r == seq(|items|, i requires 0 <= i < |items| => RenderValue(items[i]));
  }

  /** `renderValue` of anything but a number or a collection: `null` for
      null, and otherwise the value's `toString()` between single quotes. */
  lemma RenderValueQuotes(v: Value)
    requires !v.Num? && !v.Collection?
    ensures v.Null? ==> RenderValue(v) == "null"
    ensures !v.Null? ==> var s := RenderValue(v);
      |s| >= 2 && s[0] == '\'' && s[|s| - 1] == '\'' && s[1..|s| - 1] == ToString(v)
    ensures v.Str? ==> RenderValue(v) == "'" + v.s + "'"
  {
    if !v.Null? {
      var s := RenderValue(v);
      assert s == "'" + ToString(v) + "'";
      assert s[1..|s| - 1] == ToString(v);
    }
  }
}
