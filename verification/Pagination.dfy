/** Paging as the repositories do it, and the page counts the handlers report. */
module Pagination {

  const MAX_INT64: int := 0x7FFF_FFFF_FFFF_FFFF
  const DEFAULT_SIZE: int := 20
  const SIZE_LIMIT: int := 200

  /** Two's complement wrap-around of a 64-bit result. */
  function Wrap64(x: int): (r: int)
    ensures -MAX_INT64 - 1 <= r <= MAX_INT64
    ensures r == x <==> -MAX_INT64 - 1 <= x <= MAX_INT64
  {
    (x + MAX_INT64 + 1) % 0x1_0000_0000_0000_0000 - MAX_INT64 - 1
  }

  /** It is the 64-bit number that differs from the true result by a multiple of 2^64. */
  lemma WrapsAround(x: int, k: int)
    requires -MAX_INT64 - 1 <= x + k * 0x1_0000_0000_0000_0000 <= MAX_INT64
    ensures Wrap64(x) == x + k * 0x1_0000_0000_0000_0000
  {
  }

  /** Go's integer division, which truncates toward zero. */
  function Quotient(x: int, y: int): int
    requires y > 0
  {
    if x >= 0 then x / y else -(-x / y)
  }

  datatype Request = Request(page: int, pageSize: int)

  datatype Window = Window(page: int, pageSize: int, offset: int)

  /** The page size the repository uses. */
  function Clamp(pageSize: int): (size: int)
    ensures 1 <= size <= SIZE_LIMIT
  {
    if pageSize < 1 then DEFAULT_SIZE else if pageSize > SIZE_LIMIT then SIZE_LIMIT else pageSize
  }

  /** What the repository makes of a request. */
  function Normalize(p: Request): Window {
    var page := if p.page < 1 then 1 else p.page;
    Window(page, Clamp(p.pageSize), Wrap64((page - 1) * Clamp(p.pageSize)))
  }

  /** The page size the handlers report; it is not limited. */
  function ReportedSize(p: Request): (size: int)
    ensures size >= 1
  {
    if p.pageSize < 1 then DEFAULT_SIZE else p.pageSize
  }

  /** Both take 20 for a size that is not positive; only the repository stops at 200. */
  lemma SizesDiffer(page: int, pageSize: int)
    ensures pageSize < 1 ==> Clamp(pageSize) == 20 && ReportedSize(Request(page, pageSize)) == 20
    ensures 1 <= pageSize <= 200 ==> Clamp(pageSize) == pageSize
    ensures pageSize > 200 ==> Clamp(pageSize) == 200
    ensures pageSize >= 1 ==> ReportedSize(Request(page, pageSize)) == pageSize
  {
  }

  /** The number of pages the handlers report, in 64-bit arithmetic. */
  function TotalPages(p: Request, total: nat): int {
    Quotient(Wrap64(total + ReportedSize(p) - 1), ReportedSize(p))
  }

  /** OFFSET and LIMIT over the ordered list; a negative OFFSET is left out of the query. */
  function Slice<T>(items: seq<T>, w: Window): (page: seq<T>)
    requires 1 <= w.pageSize <= SIZE_LIMIT
    ensures |page| <= SIZE_LIMIT
    ensures page == [] <==> items == [] || w.offset >= |items|
  {
    var from := if w.offset < 0 then 0 else if w.offset > |items| then |items| else w.offset;
    var to := if from + w.pageSize > |items| then |items| else from + w.pageSize;
    items[from..to]
  }

  function Page<T>(items: seq<T>, p: Request): (page: seq<T>)
    ensures |page| <= SIZE_LIMIT
  {
    Slice(items, Normalize(p))
  }

  /** Pages 1 to `pages` of the given size, one after the other. */
  function Walk<T>(items: seq<T>, pageSize: int, pages: nat): seq<T> {
    if pages == 0 then []
    else Walk(items, pageSize, pages - 1) + Page(items, Request(pages, pageSize))
  }

  function Min(x: int, y: int): int { if x < y then x else y }

  /** n items need this many pages of size p. */
  function PagesNeeded(n: nat, p: int): nat
    requires p > 0
  {
    (n + p - 1) / p
  }

  lemma ProductBound(k: int, size: int, bound: int)
    requires 0 <= k && 0 < size && 0 <= bound
    ensures k * size <= bound <==> k <= bound / size
  {
    var m := bound / size;
    assert m * size <= bound < m * size + size;
    if k <= m {
      MulMonotone(k, m, size);
    } else {
      MulMonotone(m + 1, k, size);
      assert (m + 1) * size == m * size + size;
    }
  }

  /** The 64-bit offset is the intended one exactly up to this page. */
  lemma OffsetIsExact(p: Request)
    ensures var w := Normalize(p);
            w.offset == (w.page - 1) * w.pageSize <==> w.page - 1 <= MAX_INT64 / w.pageSize
  {
    hide Wrap64;
    var w := Normalize(p);
    ProductBound(w.page - 1, w.pageSize, MAX_INT64);
    MulMonotone(0, w.page - 1, w.pageSize);
  }

  lemma MulMonotone(x: int, y: int, z: int)
    requires 0 <= x <= y && z >= 0
    ensures 0 <= x * z <= y * z
  {}

  /** Beyond it a later page can be the first page again. */
  lemma OverflowReturnsTheFirstPage<T>(items: seq<T>)
    requires |items| >= 2
    ensures Page(items, Request(0x4000_0000_0000_0001, 2)) == items[..2]
  {
    assert Wrap64(0x4000_0000_0000_0000 * 2) == -MAX_INT64 - 1;
  }

  lemma WrapsBelowZero(x: int)
    requires MAX_INT64 < x <= 2 * MAX_INT64
    ensures Wrap64(x) < 0
  {}

  lemma CeilingIsPositive(n: nat, p: int)
    requires p > 0 && n > 0
    ensures PagesNeeded(n, p) > 0
  {}

  /** The reported page count is the rounded-up quotient exactly when the sum does not overflow. */
  lemma TotalPagesIsExact(p: Request, total: nat)
    requires total <= MAX_INT64 && p.pageSize <= MAX_INT64
    ensures TotalPages(p, total) == PagesNeeded(total, ReportedSize(p))
            <==> total + ReportedSize(p) - 1 <= MAX_INT64
  {
    var sum := total + ReportedSize(p) - 1;
    if sum > MAX_INT64 {
      hide Wrap64, PagesNeeded;
      WrapsBelowZero(sum);
      CeilingIsPositive(total, ReportedSize(p));
      NegativeQuotient(Wrap64(sum), ReportedSize(p));
    }
  }

  lemma NegativeQuotient(x: int, y: int)
    requires x < 0 < y
    ensures Quotient(x, y) <= 0
  {}

  /** k pages of the given size hold exactly the first k * min(size, 200) items. */
  lemma {:induction false} WalkIsPrefix<T>(items: seq<T>, pageSize: int, pages: nat)
    requires |items| <= MAX_INT64
    requires (pages - 1) * Clamp(pageSize) <= MAX_INT64
    ensures Walk(items, pageSize, pages)
            == items[..Min(|items|, pages * Clamp(pageSize))]
  {
    hide Wrap64, Clamp, Page;
    var size := Clamp(pageSize);
    if pages > 0 {
      var before := (pages - 1) * size;
      MulMonotone(pages - 1, pages, size);
      assert pages * size == before + size;
      assert pages > 1 ==> (pages - 2) * size <= before;
      WalkIsPrefix(items, pageSize, pages - 1);
      NthPage(items, pageSize, pages, before);
      assert items[..Min(|items|, before)] + items[Min(|items|, before)..Min(|items|, before + size)]
             == items[..Min(|items|, before + size)];
    }
  }

  lemma NthPage<T>(items: seq<T>, pageSize: int, page: int, offset: int)
    requires page >= 1 && offset == (page - 1) * Clamp(pageSize) && 0 <= offset <= MAX_INT64
    ensures Page(items, Request(page, pageSize))
            == items[Min(|items|, offset)..Min(|items|, offset + Clamp(pageSize))]
  {
  }

  /** Walking all reported pages visits all n items, or min(n, 200 * ceil(n / p)) when p is over the limit. */
  lemma FullWalk<T>(items: seq<T>, pageSize: int)
    requires pageSize <= MAX_INT64 && |items| + ReportedSize(Request(1, pageSize)) - 1 <= MAX_INT64
    ensures var n := |items|;
            var p := ReportedSize(Request(1, pageSize));
            var pages := TotalPages(Request(1, pageSize), n);
            && pages == PagesNeeded(n, p)
            && (p <= SIZE_LIMIT ==> Walk(items, pageSize, pages) == items)
            && (p > SIZE_LIMIT ==> Walk(items, pageSize, pages) == items[..Min(n, PagesNeeded(n, p) * SIZE_LIMIT)])
  {
    hide Wrap64, TotalPages, PagesNeeded, Walk, Clamp;
    var n, p := |items|, ReportedSize(Request(1, pageSize));
    var pages, size := PagesNeeded(n, p), Clamp(pageSize);
    TotalPagesIsExact(Request(1, pageSize), n);
    ClampIsLeast(pageSize);
    ReachesTheEnd(n, p, size);
    WalkIsPrefix(items, pageSize, pages);
    assert items[..n] == items;
  }

  lemma ClampIsLeast(pageSize: int)
    ensures Clamp(pageSize) == Min(ReportedSize(Request(1, pageSize)), SIZE_LIMIT)
  {
  }

  lemma ReachesTheEnd(n: nat, p: int, size: int)
    requires 0 < size <= p && n + p - 1 <= MAX_INT64
    ensures (PagesNeeded(n, p) - 1) * size <= MAX_INT64
    ensures PagesNeeded(n, p) * p >= n
  {
    hide PagesNeeded;
    var pages := PagesNeeded(n, p);
    CeilingCovers(n, p);
    if pages > 0 {
      MulMonotone2(pages - 1, size, p);
    }
  }

  /**
   A page is empty exactly when there are no items or its 64-bit offset is past them; a page whose
   offset overflowed is empty only if what is left of the offset is still past them.
   */
  lemma PageIsEmptyExactlyWhen<T>(items: seq<T>, p: Request)
    ensures Page(items, p) == [] <==> items == [] || Normalize(p).offset >= |items|
  {
    hide Normalize, Slice;
  }

  lemma MulMonotone2(x: int, y: int, z: int)
    requires 0 <= x && 0 <= y <= z
    ensures x * y <= x * z
  {}

  lemma CeilingCovers(n: nat, p: int)
    requires p > 0
    ensures PagesNeeded(n, p) * p >= n
    ensures PagesNeeded(n, p) > 0 ==> (PagesNeeded(n, p) - 1) * p < n
  {
    var k := PagesNeeded(n, p);
    assert n + p - 1 == k * p + (n + p - 1) % p;
    assert k * p == (k - 1) * p + p;
  }

  /** Pages after the last reported one are empty, as long as their offset does not overflow. */
  lemma LaterPagesAreEmpty<T>(items: seq<T>, pageSize: int, page: int)
    requires 1 <= ReportedSize(Request(1, pageSize)) <= SIZE_LIMIT
    requires page > PagesNeeded(|items|, ReportedSize(Request(1, pageSize)))
    requires page - 1 <= MAX_INT64 / Clamp(pageSize)
    ensures Page(items, Request(page, pageSize)) == []
  {
    var p := ReportedSize(Request(1, pageSize));
    CeilingCovers(|items|, p);
    OffsetIsExact(Request(page, pageSize));
    MulMonotone(PagesNeeded(|items|, p), page - 1, p);
  }
}
