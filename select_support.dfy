/** The result rules of the select operation: when a page needs a count
    query, what the total is otherwise, and the row limits, projections and
    answers of `first`, `one`, `all`, `count` and `exists`. The queries themselves run
    elsewhere; their answers are parameters here. */
module SelectSupport {
  import opened Wrappers
  import opened JavaValues
  import opened Pages
  import MK = MappingKit
  import Naming

  /** Spring's `Pageable`: either unpaged or a page request. */
  datatype Pageable = Unpaged | Paged(request: PageRequest)

  /** The count query is made only when paging is on with a positive size
      and the page came back full: a shorter page is the last one. */
  predicate NeedsCount(pageable: Pageable, records: nat) {
    pageable.Paged? && pageable.request.size > 0 && records > 0 && pageable.request.size <= records
  }

  /** The total of a page: the count the query returned (0 for no row) when
      a count is needed, otherwise offset + the records fetched. An unpaged
      request has no offset, and Spring refuses to give one. */
  function PageTotal(pageable: Pageable, records: nat, countRow: Option<int>): (r: Outcome<int>)
    ensures NeedsCount(pageable, records) ==> r == Ok(countRow.GetOr(0))
    ensures !NeedsCount(pageable, records) && pageable.Paged? ==>
      r == Ok(RequestOffset(pageable.request) + records)
    ensures r.Err? <==> pageable.Unpaged?
  {
    if NeedsCount(pageable, records) then Ok(CountOf(countRow))
    else if pageable.Unpaged? then Err(UnsupportedOperation("Unpaged has no offset"))
    else Ok(RequestOffset(pageable.request) + records)
  }

  /** Without a count query the total is exact: a short or empty page
      request `(page, size)` returns every record from its offset on. */
  lemma ShortPageTotalIsExact(page: nat, size: nat, all: nat)
    requires size > 0 && page * size <= all && all - page * size < size
    ensures PageTotal(Paged(PageRequest(page, size, [])), all - page * size, None) == Ok(all)
  {
  }

  /** `doPage`: the page the select returns, whose total is `PageTotal`
      as `Pagination` adjusts it. */
  function PageOf<T>(pageable: Pageable, records: seq<T>, countRow: Option<int>): (r: Outcome<Pagination<T>>)
    requires pageable.Paged? ==> pageable.request.size >= 1
    ensures r.Ok? <==> pageable.Paged?
    ensures r.Ok? ==> r.value.content == records && r.value.pageable == pageable.request
    ensures r.Ok? ==> r.value == NewPagination(records, pageable.request, PageTotal(pageable, |records|, countRow).value)
  {
    var total :- PageTotal(pageable, |records|, countRow);
    Ok(NewPagination(records, pageable.request, total))
  }

  /** The totals a page reports: a short page, the records from its
      offset on; a full page, the count, unless the count falls short of
      the records the page already holds, which then count instead. */
  lemma PageOfTotals<T>(request: PageRequest, records: seq<T>, countRow: Option<int>)
    requires request.size >= 1
    ensures var r := PageOf(Paged(request), records, countRow);
      r.Ok? &&
      (|records| < request.size ==> r.value.total == RequestOffset(request) + |records|) &&
      (|records| >= request.size ==>
        r.value.total == if RequestOffset(request) + request.size > countRow.GetOr(0)
                         then RequestOffset(request) + |records| else countRow.GetOr(0))
  {
  }

  /** The terminal operations of a select. */
  datatype Terminal = First | One | All | Exists

  /** The row limit a terminal operation puts on the query: `first`, `one`
      and `exists` replace it by 1, `all` keeps the query's own. */
  function TerminalLimit(t: Terminal, queryLimit: Option<nat>): (r: Option<nat>)
    ensures t == All ==> r == queryLimit
    ensures t != All ==> r == Some(1)
  {
    if t == All then queryLimit else Some(1)
  }

  /** The rows a query returns under a limit: the first rows of its full
      result, as many as the limit allows. */
  function Limited<T>(rows: seq<T>, limit: Option<nat>): (r: seq<T>)
    ensures limit.None? ==> r == rows
    ensures limit.Some? ==> |r| == (if limit.value < |rows| then limit.value else |rows|)
    ensures r == rows[..|r|]
  {
    if limit.None? || |rows| <= limit.value then rows else rows[..limit.value]
  }

  /** `RowsFetchSpec.first`: the first row, if any. */
  function FirstRow<T>(rows: seq<T>): (r: Option<T>)
    ensures r.Some? <==> |rows| > 0
    ensures r.Some? ==> r.value == rows[0]
  {
    if |rows| == 0 then None else Some(rows[0])
  }

  /** `RowsFetchSpec.one`: the only row, none for no row, and a wrong
      result size when more than one row comes back. */
  function OneRow<T>(rows: seq<T>): (r: Outcome<Option<T>>)
    ensures r.Err? <==> |rows| > 1
    ensures r.Err? ==> r.error == IncorrectResultSize(1)
    ensures r.Ok? ==> r.value == FirstRow(rows)
  {
    if |rows| > 1 then Err(IncorrectResultSize(1)) else Ok(FirstRow(rows))
  }

  /** The column `exists` projects: the id property's `getColumnName()`
      when the entity has one, else `*`. */
  function ExistsProjection(kind: Naming.NamingKind, entity: MK.Entity): (r: string)
    ensures MK.IdProperty(entity).Some? ==> r == Naming.PropertyColumnName(kind, MK.IdProperty(entity).value)
    ensures MK.IdProperty(entity).None? ==> r == "*"
  {
    var id := MK.IdProperty(entity);
    if id.Some? then Naming.PropertyColumnName(kind, id.value) else "*"
  }

  /** `exists`: whether the one-row select returns a row. */
  predicate ExistsOf<T>(rows: seq<T>) {
    FirstRow(Limited(rows, TerminalLimit(Exists, None))).Some?
  }

  /** What the terminal operations answer for a query whose full result is
      `rows`: `first` is its first row; `one` is the same and never reports
      a wrong result size, because the limit comes first, although `one` on
      the full result would whenever it has two rows; `exists` holds iff the
      result is not empty; `all` returns what the query's own limit lets
      through. */
  lemma TerminalResults<T>(rows: seq<T>, queryLimit: Option<nat>)
    ensures FirstRow(Limited(rows, TerminalLimit(First, queryLimit))) == FirstRow(rows)
    ensures OneRow(Limited(rows, TerminalLimit(One, queryLimit))) == Ok(FirstRow(rows))
    ensures |rows| > 1 ==> OneRow(rows).Err?
    ensures ExistsOf(rows) <==> |rows| > 0
    ensures Limited(rows, TerminalLimit(All, queryLimit)) == Limited(rows, queryLimit)
  {
    if |rows| > 0 {
      assert Limited(rows, Some(1))[0] == rows[0];
    }
  }

  /** `count`: the first row's value, 0 when no row comes back. */
  function CountOf(firstRow: Option<int>): (r: int)
    ensures firstRow.None? ==> r == 0
    ensures firstRow.Some? ==> r == firstRow.value
  {
    firstRow.GetOr(0)
  }
}
