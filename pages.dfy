/** Paging: the in-memory `Pagination.paging`, page counts and neighbours,
    the `Request` and `PageParameter` builders and the offset/limit defaults
    of the `Page` interface. Spring's `PageRequest` and `PageImpl`, which
    these build on, are modelled by the few rules they contribute. */
module Pages {
  import opened Wrappers
  import opened JavaValues

  predicate IsInt(x: int) { INT_MIN <= x <= INT_MAX }
  predicate IsLong(x: int) { LONG_MIN <= x <= LONG_MAX }

  datatype Direction = ASC | DESC
  datatype Order = Order(direction: Direction, property: string)

  /** Spring's `PageRequest`: a 0-based page index, a size and a sort
      (the empty sequence is `Sort.unsorted()`). */
  datatype PageRequest = PageRequest(page: int, size: int, sort: seq<Order>)

  const PAGE_INDEX_MESSAGE := "Page index must not be less than zero"
  const PAGE_SIZE_MESSAGE := "Page size must not be less than one"

  /** `PageRequest.of`: refuses a negative index and a size below one. */
  function PageRequestOf(page: int, size: int, sort: seq<Order>): (r: Outcome<PageRequest>)
    ensures r.Ok? <==> page >= 0 && size >= 1
    ensures r.Ok? ==> r.value.page == page && r.value.size == size && r.value.sort == sort
    ensures r.Err? ==> r.error.IllegalArgument?
  {
    if page < 0 then Err(IllegalArgument(PAGE_INDEX_MESSAGE))
    else if size < 1 then Err(IllegalArgument(PAGE_SIZE_MESSAGE))
    else Ok(PageRequest(page, size, sort))
  }

  function RequestOffset(p: PageRequest): int { p.page * p.size }

  /** A page of records with the request that produced it and the total
      number of records. */
  datatype Pagination<T> = Pagination(content: seq<T>, pageable: PageRequest, total: int)

  /** `PageImpl`'s constructor: a non-empty last page (offset + size passes
      the total) fixes the total at offset + the number of records. */
  function NewPagination<T>(content: seq<T>, pageable: PageRequest, total: int): (r: Pagination<T>)
    ensures r.content == content && r.pageable == pageable
    ensures r.total == total || (|content| > 0 && r.total == RequestOffset(pageable) + |content|)
  {
    var adjusted :=
      if |content| > 0 && RequestOffset(pageable) + pageable.size > total
      then RequestOffset(pageable) + |content| else total;
    Pagination(content, pageable, adjusted)
  }

  /** The ceiling of `total / size`, as a reference definition. */
  function CeilDiv(total: int, size: int): int
    requires size > 0
  {
    if total % size == 0 then total / size else total / size + 1
  }

  lemma CeilDivIsCeiling(total: int, size: int)
    requires size > 0
    ensures (CeilDiv(total, size) - 1) * size < total <= CeilDiv(total, size) * size
  {
    var q, m := total / size, total % size;
    assert total == size * q + m;
    if m == 0 {
      assert CeilDiv(total, size) * size == total;
    } else {
      assert CeilDiv(total, size) * size == size * q + size;
    }
  }

  /** `calculatePages`, on Java `long`s. */
  function CalculatePages(pageSize: int, totalElements: int): (r: Outcome<int>)
    ensures r.Err? <==> pageSize == 0
    ensures r.Err? ==> r.error.Arithmetic?
  {
    if pageSize == 0 then Err(Arithmetic)
    else Ok(WrapLong(RoundedQuotient(totalElements, pageSize)))
  }

  /** With a positive page size, `calculatePages` is the ceiling of the
      quotient, for every `long` total (negative ones included). */
  lemma CalculatePagesIsCeiling(pageSize: int, totalElements: int)
    requires IsInt(pageSize) && pageSize > 0 && IsLong(totalElements)
    ensures CalculatePages(pageSize, totalElements) == Ok(CeilDiv(totalElements, pageSize))
  {
    var r := RoundedQuotient(totalElements, pageSize);
    QuotientBound(totalElements, pageSize);
    RoundedQuotientWindow(totalElements, pageSize);
    CeilingUnique(totalElements, pageSize, r);
  }

  /** The truncated quotient, plus one for a positive remainder. */
  function RoundedQuotient(x: int, size: int): int
    requires size != 0
  {
    JavaDiv(x, size) + (if JavaRem(x, size) > 0 then 1 else 0)
  }

  lemma RoundedQuotientWindow(x: int, size: int)
    requires size > 0
    ensures var r := RoundedQuotient(x, size); (r - 1) * size < x <= r * size
  {
    JavaDivRem(x, size);
    var q := JavaDiv(x, size);
    if JavaRem(x, size) > 0 {
      MulAdd(size, q, 1);
    } else {
      MulAdd(size, q, -1);
    }
  }

  /** The truncated quotient lies between 0 and the dividend, and leaves
      room for the rounding up. */
  lemma QuotientBound(x: int, size: int)
    requires size > 0 && IsLong(x)
    ensures x >= 0 ==> 0 <= JavaDiv(x, size) <= x
    ensures x >= 0 && JavaRem(x, size) > 0 ==> JavaDiv(x, size) < x
    ensures x < 0 ==> x <= JavaDiv(x, size) <= 0
  {
    JavaDivRem(x, size);
    var a := Abs(x);
    var q := a / size;
    assert a == size * q + a % size;
    if q < 0 {
      MulMonotone(size, q, -1);
      assert false;
    }
    MulAtLeast(q, size);
    assert a == size * q + a % size;
  }

  lemma MulMonotone(size: nat, a: int, b: int)
    requires a <= b
    ensures a * size <= b * size
  {
    assert b * size - a * size == (b - a) * size;
  }

  /** Only the ceiling lies in the window `((r-1)*size, r*size]`. */
  lemma CeilingUnique(total: int, size: int, r: int)
    requires size > 0 && (r - 1) * size < total <= r * size
    ensures r == CeilDiv(total, size)
  {
    CeilDivIsCeiling(total, size);
    var c := CeilDiv(total, size);
    if r < c {
      MulMonotone(size, r, c - 1);
    } else if r > c {
      MulMonotone(size, c, r - 1);
    }
  }

  /** Java's narrowing of a number to `int`: values beyond the range
      saturate at its ends. */
  function Saturated(x: int): (r: int)
    ensures IsInt(r)
    ensures IsInt(x) ==> r == x
    ensures x > INT_MAX ==> r == INT_MAX
    ensures x < INT_MIN ==> r == INT_MIN
  {
    if x > INT_MAX then INT_MAX else if x < INT_MIN then INT_MIN else x
  }

  /** `PageImpl.getTotalPages`: the ceiling of total / size, narrowed to
      `int`; the request size is at least 1. */
  function TotalPages<T>(p: Pagination<T>): int
    requires p.pageable.size >= 1
  {
    Saturated(CeilDiv(p.total, p.pageable.size))
  }

  /** The page count is an `int`: the exact ceiling when that fits, and
      `Integer.MAX_VALUE` when the total needs more pages than that. */
  lemma TotalPagesRule<T>(p: Pagination<T>)
    requires p.pageable.size >= 1
    ensures IsInt(TotalPages(p))
    ensures IsInt(CeilDiv(p.total, p.pageable.size)) ==> TotalPages(p) == CeilDiv(p.total, p.pageable.size)
    ensures p.total > INT_MAX * p.pageable.size ==> TotalPages(p) == INT_MAX
    ensures p.total >= 0 ==> TotalPages(p) >= 0
  {
    CeilDivIsCeiling(p.total, p.pageable.size);
    var c := CeilDiv(p.total, p.pageable.size);
    if p.total > INT_MAX * p.pageable.size && c <= INT_MAX {
      MulMonotone(p.pageable.size, c, INT_MAX);
    }
    if p.total >= 0 && c < 0 {
      MulMonotone(p.pageable.size, c, -1);
    }
  }

  /** `getNumber`: the 0-based index of the request, plus one. */
  function Number<T>(p: Pagination<T>): int { WrapInt(p.pageable.page + 1) }

  /** `getPrevious` */
  function Previous<T>(p: Pagination<T>): (r: int)
    ensures r >= 0
    ensures p.pageable.page >= 1 ==> r == p.pageable.page - 1
  {
    if p.pageable.page - 1 > 0 then p.pageable.page - 1 else 0
  }

  /** `getNext`: the page after the request's index, but never past the
      page count. */
  function Next<T>(p: Pagination<T>): (r: int)
    requires p.pageable.size >= 1
    ensures IsInt(r) && r <= TotalPages(p)
    ensures r == TotalPages(p) || r == WrapInt(p.pageable.page + 1)
    ensures IsInt(p.pageable.page + 1) && p.pageable.page + 1 < TotalPages(p) ==> r == p.pageable.page + 1
  {
    var n := WrapInt(p.pageable.page + 1);
    if n < TotalPages(p) then n else TotalPages(p)
  }

  /** `getHasPrevious` as written: `Chunk.hasPrevious` asks `getNumber() >
      0`, and the call reaches the overriding 1-based `getNumber`. */
  predicate HasPrevious<T>(p: Pagination<T>) { Number(p) > 0 }

  /** `getHasNext` as written: `PageImpl.hasNext` asks `getNumber() + 1 <
      getTotalPages()`, again through the 1-based `getNumber`. */
  predicate HasNext<T>(p: Pagination<T>)
    requires p.pageable.size >= 1
  {
    WrapInt(Number(p) + 1) < TotalPages(p)
  }

  /** `hasPrevious` as Spring means it: the index is past the first page. */
  predicate HasPreviousCorrected<T>(p: Pagination<T>) { p.pageable.page > 0 }

  /** `hasNext` as Spring means it: a page follows the request's index. */
  predicate HasNextCorrected<T>(p: Pagination<T>)
    requires p.pageable.size >= 1
  {
    p.pageable.page + 1 < TotalPages(p)
  }

  /** As written the first page claims a previous page, and the page
      before the last claims no next one: 10 records in pages of 5 on the
      first page. */
  lemma NeighboursAreOneOff()
    ensures var first := Pagination([1, 2, 3, 4, 5], PageRequest(0, 5, []), 10);
      HasPrevious(first) && !HasPreviousCorrected(first) &&
      !HasNext(first) && HasNextCorrected(first)
  {
    var first := Pagination([1, 2, 3, 4, 5], PageRequest(0, 5, []), 10);
    assert CeilDiv(10, 5) == 2;
  }

  /** With the 0-based index, a page has a next page exactly when records
      lie beyond it: `(page + 1) * size < total`. On every real page (index
      within `int`) the as-written answers are those of the page one
      further on, so the first page always claims a previous one. */
  lemma {:induction false} NeighboursCorrected<T>(p: Pagination<T>)
    requires p.pageable.size >= 1 && 0 <= p.pageable.page && p.pageable.page + 2 <= INT_MAX
    ensures 0 <= p.total <= INT_MAX ==>
      (HasNextCorrected(p) <==> (p.pageable.page + 1) * p.pageable.size < p.total)
    ensures HasPrevious(p)
    ensures HasNext(p) <==> HasNextCorrected(p.(pageable := p.pageable.(page := p.pageable.page + 1)))
  {
    if 0 <= p.total <= INT_MAX {
      PagesFit(p.total, p.pageable.size);
      BeforeCeiling(p.total, p.pageable.size, p.pageable.page + 1);
    }
  }

  /** A non-negative `int` total never needs more pages than it has records. */
  lemma PagesFit(total: int, size: int)
    requires size >= 1 && 0 <= total <= INT_MAX
    ensures 0 <= CeilDiv(total, size) <= total
  {
    CeilDivIsCeiling(total, size);
    var c := CeilDiv(total, size);
    if c >= 1 {
      MulMonotone(size - 1, 0, c - 1);
      assert (c - 1) * size == (c - 1) * (size - 1) + (c - 1);
    } else if c < 0 {
      MulMonotone(size, c, -1);
    }
  }

  /** An index lies before the ceiling exactly when records lie beyond the
      pages up to it. */
  lemma BeforeCeiling(total: int, size: int, k: int)
    requires size >= 1
    ensures k < CeilDiv(total, size) <==> k * size < total
  {
    CeilDivIsCeiling(total, size);
    var c := CeilDiv(total, size);
    if k < c {
      MulMonotone(size, k, c - 1);
    } else {
      MulMonotone(size, c, k);
    }
  }

  /** The start and end of the slice `paging` takes, on Java `int`s. */
  function StartIndex(pageNumber: int, pageSize: int): (r: int)
    ensures r >= 0
  {
    var product := WrapInt(WrapInt(pageNumber - 1) * pageSize);
    if product > 0 then product else 0
  }

  function EndIndex(pageNumber: int, pageSize: int, total: nat): (r: int)
    ensures r <= total
  {
    var bound := WrapInt(StartIndex(pageNumber, pageSize) + pageSize);
    if bound < total then bound else total
  }

  /** The records of a page in memory: empty for a missing list and for a
      start past the end. */
  function PageRecords<T>(pageNumber: int, pageSize: int, data: Option<seq<T>>): (r: seq<T>)
    ensures data.None? ==> r == []
  {
    var total := if data.None? then 0 else |data.value|;
    var start, end := StartIndex(pageNumber, pageSize), EndIndex(pageNumber, pageSize, total);
    if data.None? || start > end then [] else data.value[start..end]
  }

  /** `Pagination.paging`, as written: the `PageRequest` is built from the
      1-based page number (see `PagingNumberIsOneTooHigh`). */
  function Paging<T>(pageNumber: int, pageSize: int, data: Option<seq<T>>): (r: Outcome<Pagination<T>>)
    ensures r.Ok? <==> pageNumber >= 0 && pageSize >= 1
    ensures r.Ok? ==> r.value.content == PageRecords(pageNumber, pageSize, data)
  {
    var total := if data.None? then 0 else |data.value|;
    var request :- PageRequestOf(pageNumber, pageSize, []);
    Ok(NewPagination(PageRecords(pageNumber, pageSize, data), request, total))
  }

  /** `paging` with the page index the method evidently intends: the
      0-based index of the page it slices. */
  function PagingCorrected<T>(pageNumber: int, pageSize: int, data: Option<seq<T>>): (r: Outcome<Pagination<T>>)
    ensures r.Ok? <==> pageSize >= 1
    ensures r.Ok? ==> r.value.content == PageRecords(pageNumber, pageSize, data)
  {
    var total := if data.None? then 0 else |data.value|;
    var index := if pageNumber - 1 > 0 then pageNumber - 1 else 0;
    var request :- PageRequestOf(index, pageSize, []);
    Ok(NewPagination(PageRecords(pageNumber, pageSize, data), request, total))
  }

  /** No `int` overflow in the slice bounds of page `pageNumber`. */
  predicate NoOverflow(pageNumber: int, pageSize: int) {
    IsInt(pageNumber) && IsInt(pageSize) && pageNumber >= 1 && pageSize >= 1
    && pageNumber * pageSize <= INT_MAX
  }

  lemma ProductBounds(pageNumber: int, pageSize: int)
    requires NoOverflow(pageNumber, pageSize)
    ensures 0 <= (pageNumber - 1) * pageSize
    ensures (pageNumber - 1) * pageSize + pageSize == pageNumber * pageSize
  {
    MulAdd(pageSize, pageNumber - 1, 1);
  }

  /** The records are the slice `[(p-1)*s, min(p*s, total))`, empty when it
      starts at or past the end. */
  lemma PagingSlice<T>(pageNumber: int, pageSize: int, data: seq<T>)
    requires NoOverflow(pageNumber, pageSize)
    ensures var start := (pageNumber - 1) * pageSize;
      var end := if pageNumber * pageSize < |data| then pageNumber * pageSize else |data|;
      PageRecords(pageNumber, pageSize, Some(data)) == if start < |data| then data[start..end] else []
  {
    ProductBounds(pageNumber, pageSize);
    var start := (pageNumber - 1) * pageSize;
    assert WrapInt(pageNumber - 1) == pageNumber - 1;
    assert StartIndex(pageNumber, pageSize) == start;
    assert WrapInt(start + pageSize) == pageNumber * pageSize;
  }

  /** A missing list pages to no records and a total of 0. */
  lemma PagingNullData<T>(pageNumber: int, pageSize: int)
    requires pageNumber >= 0 && pageSize >= 1
    ensures var r := Paging<T>(pageNumber, pageSize, None);
      r.Ok? && r.value.content == [] && r.value.total == 0
  {
  }

  /** A page past the last one has no records. */
  lemma PagingPastLastPage<T>(pageNumber: int, pageSize: int, data: seq<T>)
    requires NoOverflow(pageNumber, pageSize) && (pageNumber - 1) * pageSize >= |data|
    ensures Paging(pageNumber, pageSize, Some(data)).value.content == []
  {
    PagingSlice(pageNumber, pageSize, data);
  }

  /** As written, page 1 of a non-empty list reports page number 2, and its
      total grows by the offset of the mis-indexed request. */
  lemma PagingNumberIsOneTooHigh<T>(data: seq<T>)
    requires 0 < |data| <= 10
    ensures var r := Paging(1, 10, Some(data));
      r.Ok? && Number(r.value) == 2 && r.value.total == 10 + |data|
  {
    PagingSlice(1, 10, data);
  }

  /** Corrected, the page number is the one asked for (at least 1) and the
      total is the length of the list. */
  lemma PagingCorrectedReportsPage<T>(pageNumber: int, pageSize: int, data: seq<T>)
    requires NoOverflow(pageNumber, pageSize)
    ensures var r := PagingCorrected(pageNumber, pageSize, Some(data));
      r.Ok? && Number(r.value) == pageNumber && r.value.total == |data|
  {
    PagingSlice(pageNumber, pageSize, data);
    ProductBounds(pageNumber, pageSize);
  }

  /** `new Pagination(content)`: page index 1 with the content's size; an
      empty list is refused by `PageRequest.of`. */
  function FromContent<T>(content: seq<T>): (r: Outcome<Pagination<T>>)
    ensures r.Ok? <==> |content| > 0
    ensures r.Ok? ==> r.value.content == content && r.value.total == 2 * |content|
  {
    var request :- PageRequestOf(1, |content|, []);
    Ok(NewPagination(content, request, |content|))
  }

  /** `Pagination.Request`: a 1-based page number and a size. */
  datatype Request = Request(pageNumber: int, pageSize: int)

  /** `Request.buildPageable`, converting to Spring's 0-based index. */
  function BuildPageable(r: Request): Outcome<PageRequest> {
    PageRequestOf(WrapInt(r.pageNumber - 1), r.pageSize, [])
  }

  /** `Request.defaultPage` */
  function DefaultPage(): (r: Request)
    ensures BuildPageable(r) == Ok(PageRequest(0, 10, []))
  {
    Request(1, 10)
  }

  /** `Pagination.of` */
  function Of(pageNumber: int, pageSize: int): Outcome<PageRequest> {
    BuildPageable(Request(pageNumber, pageSize))
  }

  /** A 1-based page number becomes the 0-based index one below it; page 0
      and below are refused. */
  lemma BuildPageableShiftsToZeroBased(pageNumber: int, pageSize: int)
    requires IsInt(pageNumber) && INT_MIN < pageNumber
    ensures Of(pageNumber, pageSize).Ok? <==> pageNumber >= 1 && pageSize >= 1
    ensures Of(pageNumber, pageSize).Ok? ==> Of(pageNumber, pageSize).value == PageRequest(pageNumber - 1, pageSize, [])
  {
  }

  /** The `Page` interface's defaults, over its `getCurrent` and `getSize`. */
  datatype Page = Page(current: int, size: int)

  /** `getOffset`, on Java `long`s. */
  function Offset(p: Page): (r: int)
    ensures r >= 0
    ensures p.current <= 1 ==> r == 0
  {
    if p.current <= 1 then 0
    else
      var product := WrapLong((p.current - 1) * p.size);
      if product > 0 then product else 0
  }

  /** Without overflow, the offset of page `current` is `(current-1)*size`. */
  lemma OffsetOfLaterPage(p: Page)
    requires p.current > 1 && p.size >= 0 && (p.current - 1) * p.size <= LONG_MAX
    ensures Offset(p) == (p.current - 1) * p.size
  {
  }

  function Limit(p: Page): (r: int)
    ensures r == p.size
  {
    p.size
  }

  /** `getTotal` and `isQueryCount` defaults: the total is unknown (-1) and
      a count query is made. */
  function Total(p: Page): (r: int)
    ensures r == -1
  {
    -1
  }

  predicate IsQueryCount(p: Page)
    ensures IsQueryCount(p)
  {
    true
  }

  /** `PageParameter`: request parameters with a 1-based page number. */
  datatype PageParameter = PageParameter(pageNumber: int, pageSize: int, needCount: bool, sort: seq<Order>)

  /** The two- and three-argument constructors: a count is needed. */
  function NewPageParameter(pageNumber: int, pageSize: int): (r: PageParameter)
    ensures r.pageNumber == pageNumber && r.pageSize == pageSize
    ensures r.needCount && r.sort == []
  {
    PageParameter(pageNumber, pageSize, true, [])
  }

  function NewSortedPageParameter(pageNumber: int, pageSize: int, sort: seq<Order>): (r: PageParameter)
    ensures r.pageNumber == pageNumber && r.pageSize == pageSize
    ensures r.needCount && r.sort == sort
  {
    PageParameter(pageNumber, pageSize, true, sort)
  }

  /** `getPageNumber`: never below 1. */
  function PageNumber(p: PageParameter): (r: int)
    ensures r >= 1
    ensures p.pageNumber >= 1 ==> r == p.pageNumber
  {
    if p.pageNumber > 1 then p.pageNumber else 1
  }

  /** `buildRequest`: the index is `getPageNumber() - 1`, so never negative;
      only a size below 1 is refused. */
  function BuildRequest(p: PageParameter): (r: Outcome<PageRequest>)
    ensures r.Ok? <==> p.pageSize >= 1
    ensures r.Ok? ==> r.value.page >= 0 && r.value.page == PageNumber(p) - 1
    ensures r.Ok? ==> r.value.size == p.pageSize && r.value.sort == p.sort
  {
    PageRequestOf(PageNumber(p) - 1, p.pageSize, p.sort)
  }
}
