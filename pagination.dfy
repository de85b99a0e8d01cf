/** Query-string paging: clamping of `page` and `limit`, the skip offset and
    the page count reported beside every paged list. */
module Pagination {
  import opened Common
  import opened Sequences

  const DefaultPage := 1
  const DefaultLimit := 20
  const MaxLimit := 100

  datatype PaginationParams = PaginationParams(page: int, limit: int, skip: int)

  datatype PaginationMeta = PaginationMeta(page: int, limit: int, total: int, totalPages: int)

  /** `parseInt(x) || d`. A query value that does not parse is None (NaN);
      NaN and 0 are both falsy, so both give the default. */
  function OrDefault(parsed: Option<int>, default: int): (n: int)
    ensures parsed.Some? && parsed.value != 0 ==> n == parsed.value
    ensures parsed.None? || parsed.value == 0 ==> n == default
  {
    match parsed
    case None => default
    case Some(v) => if v == 0 then default else v
  }

  /** Offset of the first item of a page. */
  function CalculateSkip(page: int, limit: int): (skip: int)
    ensures page >= 1 && limit >= 0 ==> skip >= 0
    ensures skip + limit == page * limit
  {
    (page - 1) * limit
  }

  /** Reads `page` and `limit` from the query string: page at least 1,
      limit in [1, 100], defaults 1 and 20. */
  function GetPaginationParams(page: Option<int>, limit: Option<int>): (r: PaginationParams)
    ensures r.page >= 1
    ensures 1 <= r.limit <= MaxLimit
    ensures r.skip == CalculateSkip(r.page, r.limit) && r.skip >= 0
  {
    var p := Max(1, OrDefault(page, DefaultPage));
    var l := Min(MaxLimit, Max(1, OrDefault(limit, DefaultLimit)));
    PaginationParams(p, l, CalculateSkip(p, l))
  }

  /** A missing, unparseable, zero or negative page is page 1; any other is kept. */
  lemma PageClamp(page: Option<int>, limit: Option<int>)
    ensures GetPaginationParams(page, limit).page ==
      (if page.None? || page.value <= 0 then 1 else page.value)
  {
  }

  /** A missing, unparseable or zero limit is 20 (0 is falsy); a negative one
      is 1; one above 100 is 100; any other is kept. */
  lemma LimitClamp(page: Option<int>, limit: Option<int>)
    ensures GetPaginationParams(page, limit).limit ==
      (if limit.None? || limit.value == 0 then DefaultLimit
       else if limit.value < 0 then 1
       else if limit.value > MaxLimit then MaxLimit
       else limit.value)
  {
  }

  /** `Math.ceil(total / limit)`: for a whole total and a positive limit
      the quotient is exact, so the ceiling is the integer one. */
  function CeilDiv(total: nat, limit: int): (q: nat)
    requires limit >= 1
    ensures (q - 1) * limit < total <= q * limit
  {
    var d := total / limit;
    assert total == d * limit + total % limit;
    if total % limit == 0 then d else d + 1
  }

  /** The metadata echoes page, limit and total; totalPages is the least
      number of pages of `limit` items that hold `total` items. */
  function BuildPaginationMeta(page: int, limit: int, total: nat): (r: PaginationMeta)
    requires limit >= 1
    ensures r.page == page && r.limit == limit && r.total == total
    ensures r.totalPages >= 0
    ensures (r.totalPages - 1) * limit < total <= r.totalPages * limit
    ensures total == 0 ==> r.totalPages == 0
  {
    PaginationMeta(page, limit, total, CeilDiv(total, limit))
  }

  /** A page starts inside the list exactly when its number is at most
      totalPages: the pages 1..totalPages are the non-empty ones. */
  lemma {:induction false} PageInRange(page: int, limit: int, total: nat)
    requires page >= 1 && limit >= 1
    ensures CalculateSkip(page, limit) < total <==> page <= BuildPaginationMeta(page, limit, total).totalPages
  {
    var n := BuildPaginationMeta(page, limit, total).totalPages;
    if page <= n {
      assert (page - 1) * limit <= (n - 1) * limit by {
        MulMonotone(page - 1, n - 1, limit);
      }
    } else {
      assert n * limit <= (page - 1) * limit by {
        MulMonotone(n, page - 1, limit);
      }
    }
  }

  lemma MulMonotone(a: int, b: int, c: int)
    requires a <= b && c >= 0
    ensures a * c <= b * c
  {
    assert b * c - a * c == (b - a) * c;
  }

  /** Consecutive pages are adjacent: page p + 1 starts where page p ends. */
  lemma NextPageFollows(page: int, limit: int)
    ensures CalculateSkip(page + 1, limit) == CalculateSkip(page, limit) + limit
  {
  }

  /** The paging step of the statics: `skip((page - 1) * limit).limit(limit)`
      when both page and limit are given, the whole list otherwise. */
  function ApplyPaging<T>(s: seq<T>, page: Option<int>, limit: Option<int>): (r: seq<T>)
    requires page.Some? && limit.Some? ==> page.value >= 1 && limit.value >= 1
    ensures page.None? || limit.None? ==> r == s
    ensures page.Some? && limit.Some? ==> |r| <= limit.value
    ensures page.Some? && limit.Some? ==>
      |r| == if CalculateSkip(page.value, limit.value) >= |s| then 0 else Min(limit.value, |s| - CalculateSkip(page.value, limit.value))
    ensures page.Some? && limit.Some? ==>
      forall k :: 0 <= k < |r| ==>
        (CalculateSkip(page.value, limit.value) + k < |s| && r[k] == s[CalculateSkip(page.value, limit.value) + k])
  {
    if page.Some? && limit.Some? then Page(s, CalculateSkip(page.value, limit.value), limit.value)
    else s
  }

  /** Paging a sorted list keeps it sorted, and keeps only its elements. */
  lemma PagingKeepsOrder<T>(s: seq<T>, page: Option<int>, limit: Option<int>, le: (T, T) -> bool)
    requires page.Some? && limit.Some? ==> page.value >= 1 && limit.value >= 1
    requires SortedBy(s, le)
    ensures SortedBy(ApplyPaging(s, page, limit), le)
    ensures forall k :: 0 <= k < |ApplyPaging(s, page, limit)| ==> ApplyPaging(s, page, limit)[k] in s
  {
    var r := ApplyPaging(s, page, limit);
    if page.Some? && limit.Some? {
      var skip := CalculateSkip(page.value, limit.value);
      forall i, j | 0 <= i < j < |r| ensures le(r[i], r[j]) {
        assert r[i] == s[skip + i] && r[j] == s[skip + j];
      }
    }
  }

  /** The page of a list and the metadata built from the list's length
      agree: the page is non-empty exactly when its number is at most
      totalPages. */
  lemma {:induction false} PageMatchesMeta<T>(s: seq<T>, page: int, limit: int)
    requires page >= 1 && limit >= 1
    ensures |ApplyPaging(s, Some(page), Some(limit))| > 0 <==> page <= BuildPaginationMeta(page, limit, |s|).totalPages
  {
    PageInRange(page, limit, |s|);
  }
}
