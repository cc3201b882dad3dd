/** DataPaginationService.paginateData: the page of `length` items starting at
    `start`, together with the size of the whole collection. */
module Pagination {

  datatype PaginatedData<T> = PaginatedData(totalCount: int, data: seq<T>)

  /** The largest value of the platform's 64-bit `Int`. */
  const IntMax: int := 0x7FFF_FFFF_FFFF_FFFF
  const IntMin: int := -0x8000_0000_0000_0000

  predicate IsInt(v: int)
  {
    IntMin <= v <= IntMax
  }

  function Min(a: int, b: int): int
  {
    if a < b then a else b
  }

  /** The guard's accepted inputs: a page that starts inside the collection. */
  predicate ValidRequest(count: int, start: int, length: int)
  {
    start >= 0 && length > 0 && start < count
  }

  /** The outcome of running the function as written: a result, or a trap on
      integer overflow. */
  datatype Outcome<T> = Returned(page: PaginatedData<T>) | Trapped

  /** `paginateData` as written: the end index is `min(start + length, count)`,
      and `start + length` is computed in `Int`, which traps on overflow. */
  function PaginateDataAsWritten<T>(dataList: seq<T>, start: int, length: int): Outcome<T>
    requires IsInt(start) && IsInt(length) && |dataList| <= IntMax
  {
    var totalCount := |dataList|;
    if !ValidRequest(totalCount, start, length) then Returned(PaginatedData(totalCount, []))
    else if start + length > IntMax then Trapped
    else
      var end := Min(start + length, totalCount);
      Returned(PaginatedData(totalCount, dataList[start..end]))
  }

  /** A request the guard accepts traps: a two-item list, start 1, length `Int.max`. */
  lemma AsWrittenTrapsOnLongPage()
    ensures ValidRequest(2, 1, IntMax)
    ensures PaginateDataAsWritten([0, 0], 1, IntMax) == Trapped
  {
  }

  /** `paginateData` with the end index computed without overflow: every
      request the guard accepts returns its page. */
  function PaginateData<T>(dataList: seq<T>, start: int, length: int): (r: PaginatedData<T>)
    ensures r.totalCount == |dataList|
    ensures !ValidRequest(|dataList|, start, length) ==> r.data == []
    ensures ValidRequest(|dataList|, start, length) ==>
      |r.data| == Min(length, |dataList| - start)
      && r.data == dataList[start..start + |r.data|]
    ensures ValidRequest(|dataList|, start, length) ==>
      0 < |r.data| <= length && |r.data| <= |dataList| - start && r.data[0] == dataList[start]
  {
    var totalCount := |dataList|;
    if !ValidRequest(totalCount, start, length) then PaginatedData(totalCount, [])
    else
      var end := start + Min(length, totalCount - start);
      PaginatedData(totalCount, dataList[start..end])
  }

  /** Wherever the original does not trap it returns the corrected page. */
  lemma AsWrittenAgreesWithoutOverflow<T>(dataList: seq<T>, start: int, length: int)
    requires IsInt(start) && IsInt(length) && |dataList| <= IntMax
    requires PaginateDataAsWritten(dataList, start, length) != Trapped
    ensures PaginateDataAsWritten(dataList, start, length) == Returned(PaginateData(dataList, start, length))
  {
  }

  /** The pages from `start` on, each `length` long. */
  function PagesFrom<T>(dataList: seq<T>, start: nat, length: int): seq<T>
    requires length > 0
    decreases |dataList| - start
  {
    if start >= |dataList| then []
    else PaginateData(dataList, start, length).data + PagesFrom(dataList, start + length, length)
  }

  /** The first page is the slice the request starts at, and the pages after
      it start where it ends, or there are none. */
  lemma PagesFromStep<T>(dataList: seq<T>, start: nat, length: int)
    requires length > 0 && start < |dataList|
    ensures var next := start + Min(length, |dataList| - start);
      PagesFrom(dataList, start, length) == dataList[start..next] + PagesFrom(dataList, start + length, length)
    ensures start + length > |dataList| ==> PagesFrom(dataList, start + length, length) == []
  {
    var next := start + Min(length, |dataList| - start);
    var page := PaginateData(dataList, start, length).data;
    assert |page| == next - start;
    assert page == dataList[start..next];
  }

  lemma SliceSplit<T>(s: seq<T>, a: nat, b: nat)
    requires a <= b <= |s|
    ensures s[a..] == s[a..b] + s[b..]
  {
  }

  /** Consecutive pages concatenate to the rest of the collection: nothing is
      skipped and nothing is repeated. */
  lemma {:induction false} PagesReassemble<T>(dataList: seq<T>, start: nat, length: int)
    requires length > 0 && start <= |dataList|
    ensures PagesFrom(dataList, start, length) == dataList[start..]
    decreases |dataList| - start
  {
    if start < |dataList| {
      var next := start + Min(length, |dataList| - start);
      PagesFromStep(dataList, start, length);
      SliceSplit(dataList, start, next);
      if start + length <= |dataList| {
        assert next == start + length;
        PagesReassemble(dataList, next, length);
      } else {
        assert next == |dataList| && dataList[next..] == [];
      }
    }
  }

  /** One hundred numbers: the first page of twenty, the short last page, and
      an empty collection. */
  lemma HundredNumbers()
    ensures var numbers := seq(100, i => i + 1); var empty: seq<int> := [];
      PaginateData(numbers, 0, 20) == PaginatedData(100, seq(20, i => i + 1))
      && PaginateData(numbers, 95, 20) == PaginatedData(100, [96, 97, 98, 99, 100])
      && PaginateData(empty, 0, 10) == PaginatedData(0, [])
  {
    var numbers := seq(100, i => i + 1);
    assert PaginateData(numbers, 95, 20).data == numbers[95..100];
    assert numbers[95..100] == [96, 97, 98, 99, 100];
  }
}
