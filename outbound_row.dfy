/** What the insert and update executors work on: Spring's `OutboundRow`, an
    insertion-ordered map from column names to bound `Parameter`s that the
    executors prune in place, and the entity instance whose properties they
    read and set through a property accessor. */
module OutboundRows {
  import opened Wrappers
  import opened JavaValues

  /** A bound `Parameter`; its value is `Null` when it carries none. */
  datatype Parameter = Parameter(value: Value)

  /** `Parameter.hasValue`. */
  predicate HasValue(p: Parameter) {
    !p.value.Null?
  }

  type Entry = (string, Parameter)

  /** The column names of `entries`, in order. */
  function Columns(entries: seq<Entry>): (r: seq<string>)
    ensures |r| == |entries|
    ensures forall i :: 0 <= i < |entries| ==> r[i] == entries[i].0
  {
    if |entries| == 0 then [] else [entries[0].0] + Columns(entries[1..])
  }

  /** No column is bound twice, as in the map the row is. */
  predicate DistinctColumns(entries: seq<Entry>) {
    forall i, j :: 0 <= i < j < |entries| ==> entries[i].0 != entries[j].0
  }

  /** `get(column)`: the parameter bound to `column`, if any. */
  function Lookup(entries: seq<Entry>, column: string): (r: Option<Parameter>)
    ensures r.Some? <==> column in Columns(entries)
    ensures r.Some? ==> (column, r.value) in entries
  {
    if |entries| == 0 then None
    else if entries[0].0 == column then Some(entries[0].1)
    else Lookup(entries[1..], column)
  }

  /** In a row without repeated columns, the entry at `i` is what its
      column looks up. */
  lemma {:induction false} LookupEntry(entries: seq<Entry>, i: int)
    requires DistinctColumns(entries) && 0 <= i < |entries|
    ensures Lookup(entries, entries[i].0) == Some(entries[i].1)
  {
    if i > 0 {
      assert entries[0].0 != entries[i].0;
      assert entries[1..][i - 1] == entries[i];
      LookupEntry(entries[1..], i - 1);
    }
  }

  /** The entries of `entries` that are not bound to `column`, in order. */
  function Without(entries: seq<Entry>, column: string): (r: seq<Entry>)
    ensures forall e :: e in r <==> e in entries && e.0 != column
    ensures |r| <= |entries|
  {
    if |entries| == 0 then []
    else if entries[0].0 == column then Without(entries[1..], column)
    else [entries[0]] + Without(entries[1..], column)
  }

  /** Removing a column keeps the others unrepeated. */
  lemma {:induction false} WithoutDistinct(entries: seq<Entry>, column: string)
    requires DistinctColumns(entries)
    ensures DistinctColumns(Without(entries, column))
  {
    if |entries| > 0 {
      var rest := entries[1..];
      assert DistinctColumns(rest) by {
        forall i, j | 0 <= i < j < |rest| ensures rest[i].0 != rest[j].0 {
          assert rest[i] == entries[i + 1] && rest[j] == entries[j + 1];
        }
      }
      WithoutDistinct(rest, column);
      if entries[0].0 != column {
        var tail := Without(rest, column);
        forall k | 0 <= k < |tail| ensures tail[k].0 != entries[0].0 {
          assert tail[k] in tail;
          var m :| 0 <= m < |rest| && rest[m] == tail[k];
          assert rest[m] == entries[m + 1];
        }
      }
    }
  }

  /** The entries left after removing each of `columns` in turn. */
  function WithoutAll(entries: seq<Entry>, columns: seq<string>): (r: seq<Entry>)
    decreases |columns|
  {
    if |columns| == 0 then entries
    else Without(WithoutAll(entries, columns[..|columns| - 1]), columns[|columns| - 1])
  }

  /** An entry survives the removals exactly when its column is none of
      the removed ones. */
  lemma {:induction false} WithoutAllMembers(entries: seq<Entry>, columns: seq<string>)
    ensures forall e :: e in WithoutAll(entries, columns) <==> e in entries && e.0 !in columns
    decreases |columns|
  {
    if |columns| > 0 {
      var init := columns[..|columns| - 1];
      WithoutAllMembers(entries, init);
      assert columns == init + [columns[|columns| - 1]];
    }
  }

  lemma {:induction false} WithoutAllDistinct(entries: seq<Entry>, columns: seq<string>)
    requires DistinctColumns(entries)
    ensures DistinctColumns(WithoutAll(entries, columns))
    decreases |columns|
  {
    if |columns| > 0 {
      WithoutAllDistinct(entries, columns[..|columns| - 1]);
      WithoutDistinct(WithoutAll(entries, columns[..|columns| - 1]), columns[|columns| - 1]);
    }
  }

  /** `OutboundRow`. */
  class OutboundRow {
    var entries: seq<Entry>

    predicate Valid()
      reads this
    {
      DistinctColumns(entries)
    }

    constructor(entries: seq<Entry>)
      requires DistinctColumns(entries)
      ensures this.entries == entries && Valid()
    {
      this.entries := entries;
    }

    function Get(column: string): (r: Option<Parameter>)
      reads this
      ensures r.Some? <==> column in Columns(entries)
    {
      Lookup(entries, column)
    }

    /** `remove(column)`: unbinds the column and returns what it was bound
        to. */
    method Remove(column: string) returns (removed: Option<Parameter>)
      requires Valid()
      modifies this
      ensures Valid()
      ensures removed == old(Get(column))
      ensures entries == Without(old(entries), column)
    {
      removed := Lookup(entries, column);
      WithoutDistinct(entries, column);
      entries := Without(entries, column);
    }
  }

  /** The value of the property called `name`, `Null` when it is not set. */
  function ValueOf(values: map<string, Value>, name: string): Value {
    if name in values then values[name] else Null
  }

  /** An entity instance, seen through its property accessor. */
  class Bean {
    var properties: map<string, Value>

    constructor(properties: map<string, Value>)
      ensures this.properties == properties
    {
      this.properties := properties;
    }

    function Get(name: string): (r: Value)
      reads this
      ensures name !in properties ==> r == Null
    {
      ValueOf(properties, name)
    }

    /** `setProperty`: only the named property changes. */
    method SetProperty(name: string, value: Value)
      modifies this
      ensures properties == old(properties)[name := value]
    {
      properties := properties[name := value];
    }
  }
}
