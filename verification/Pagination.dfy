/** PaginateArticles: slicing a list into pages with 64-bit machine integers. */
module Pagination {
  import opened Wrappers

  const TWO_63 := 0x8000_0000_0000_0000
  const TWO_64 := 0x1_0000_0000_0000_0000

  predicate IsInt64(n: int) { -TWO_63 <= n < TWO_63 }

  // Go's int: the result of an operation modulo 2^64, as a signed number.
  function Wrap(n: int): (w: int)
    ensures IsInt64(w)
    ensures IsInt64(n) ==> w == n
    ensures (w - n) % TWO_64 == 0
  {
    (n + TWO_63) % TWO_64 - TWO_63
  }

  // SummarizedResponse; `status` is always "ok".
  datatype Response<T> = Response(total: nat, articles: seq<T>)

  // Go's articles[lo:hi], which panics when the bounds are out of order or out of range.
  function Slice<T>(articles: seq<T>, lo: int, hi: int): Option<seq<T>> {
    if 0 <= lo <= hi <= |articles| then Some(articles[lo..hi]) else None
  }

  /** The code; None is a panic. */
  function PaginateArticles<T>(articles: seq<T>, page: int, pageSize: int): Option<Response<T>> {
    var startIndex := Wrap(Wrap(page - 1) * pageSize);
    var endIndex := Wrap(startIndex + pageSize);
    if startIndex >= |articles| then Some(Response(|articles|, []))
    else
      var clamped := if endIndex > |articles| then |articles| else endIndex;
      match Slice(articles, startIndex, clamped)
      case None => None
      case Some(slice) => Some(Response(|articles|, slice))
  }

  /** The page the endpoints promise: positions (page-1)*k up to page*k of the list. */
  function Page<T>(articles: seq<T>, page: nat, pageSize: nat): seq<T>
    requires page >= 1
  {
    var start := (page - 1) * pageSize;
    if start >= |articles| then []
    else if start + pageSize > |articles| then articles[start..]
    else articles[start..start + pageSize]
  }

  lemma MulMonotone(a: int, b: int, k: int)
    requires a <= b && k >= 0
    ensures a * k <= b * k
  {
    assert 0 <= (b - a) * k == b * k - a * k;
  }

  lemma MulSuccessor(a: int, k: int)
    ensures (a + 1) * k == a * k + k
  {
  }

  // What the handlers let through: strconv.Atoi of both numbers, each at least 1.
  predicate Accepted(page: int, pageSize: int) {
    IsInt64(page) && IsInt64(pageSize) && page >= 1 && pageSize >= 1
  }

  /** On every list of at most 2^62 articles, the code returns the promised page exactly when
      (page-1)*pageSize does not overflow or happens to wrap to a start past the list; in the
      remaining cases it panics or serves articles that are not on the page. */
  lemma PaginateIsPageIff<T>(articles: seq<T>, page: int, pageSize: int)
    requires Accepted(page, pageSize) && |articles| <= TWO_63 / 2
    ensures PaginateArticles(articles, page, pageSize) == Some(Response(|articles|, Page(articles, page, pageSize)))
      <==> IsInt64((page - 1) * pageSize) || Wrap((page - 1) * pageSize) >= |articles|
  {
    var ideal := (page - 1) * pageSize;
    StartBounds(page, pageSize, |articles|);
    WrappedProduct(page, pageSize);
    var start := Wrap(ideal);
    if IsInt64(ideal) {
      assert ideal < |articles| ==> articles[ideal..|articles|] == articles[ideal..];
    } else if 0 <= start < |articles| {
      var end := Wrap(start + pageSize);
      assert end < start || end > start;
      assert Page(articles, page, pageSize) == [];
      if end > |articles| {
        assert |articles[start..|articles|]| > 0;
      } else if end > start {
        assert |articles[start..end]| > 0;
      }
    }
  }

  lemma WrappedProduct(page: int, pageSize: int)
    requires Accepted(page, pageSize)
    ensures Wrap(page - 1) == page - 1
    ensures !IsInt64((page - 1) * pageSize) ==> (page - 1) * pageSize >= TWO_63
  {
    MulMonotone(0, page - 1, pageSize);
  }

  // On the non-empty branch the end of the page does not overflow either.
  lemma StartBounds(page: int, pageSize: int, n: nat)
    requires Accepted(page, pageSize) && n <= TWO_63 / 2
    ensures (page - 1) * pageSize >= 0
    ensures (page - 1) * pageSize < n ==> IsInt64((page - 1) * pageSize + pageSize)
  {
    MulMonotone(0, page - 1, pageSize);
    if page > 1 {
      MulMonotone(1, page - 1, pageSize);
    }
  }

  /** On a list of one article: a page number that serves page 1 again, and one that panics. */
  lemma OverflowWitness<T>(article: T)
    ensures PaginateArticles([article], TWO_63 / 2 + 1, 4) == Some(Response(1, [article]))
    ensures Page([article], TWO_63 / 2 + 1, 4) == []
    ensures PaginateArticles([article], TWO_63 / 4 + 1, 4) == None
  {
    assert [article][0..1] == [article];
  }

  // ---------- Pages partition the list ----------

  function PageCount(n: nat, pageSize: nat): nat
    requires pageSize >= 1
  {
    (n + pageSize - 1) / pageSize
  }

  // Pages 1 to `last`, one after the other.
  function PagesUpTo<T>(articles: seq<T>, last: nat, pageSize: nat): seq<T> {
    if last == 0 then [] else PagesUpTo(articles, last - 1, pageSize) + Page(articles, last, pageSize)
  }

  lemma {:induction false} PagesArePrefix<T>(articles: seq<T>, last: nat, pageSize: nat)
    ensures PagesUpTo(articles, last, pageSize) ==
            if last * pageSize < |articles| then articles[..last * pageSize] else articles
  {
    if last > 0 {
      PagesArePrefix(articles, last - 1, pageSize);
      assert last * pageSize == (last - 1) * pageSize + pageSize;
    } else if articles == [] {
      assert articles == [];
    }
  }

  lemma CountBounds(n: nat, k: nat)
    requires k >= 1
    ensures n <= PageCount(n, k) * k < n + k
  {
  }

  lemma PageBounds(n: nat, k: nat, p: nat)
    requires k >= 1 && p >= 1
    ensures p < PageCount(n, k) ==> (p - 1) * k + k < n
    ensures p == PageCount(n, k) ==> (p - 1) * k < n <= (p - 1) * k + k
    ensures p > PageCount(n, k) ==> (p - 1) * k >= n
  {
    var last: int := PageCount(n, k);
    CountBounds(n, k);
    hide PageCount;
    MulSuccessor(p - 1, k);
    MulSuccessor(last - 1, k);
    if p < last {
      MulMonotone(p, last - 1, k);
    } else if p > last {
      MulMonotone(last, p - 1, k);
    }
  }

  lemma PagesRebuild<T>(articles: seq<T>, pageSize: nat)
    requires pageSize >= 1
    ensures PagesUpTo(articles, PageCount(|articles|, pageSize), pageSize) == articles
  {
    CountBounds(|articles|, pageSize);
    PagesArePrefix(articles, PageCount(|articles|, pageSize), pageSize);
    hide PageCount, PagesUpTo, Page;
  }

  // The three ways a page can lie on the list.
  lemma PageLength<T>(articles: seq<T>, page: nat, pageSize: nat, start: nat)
    requires page >= 1 && start == (page - 1) * pageSize
    ensures start + pageSize <= |articles| ==> |Page(articles, page, pageSize)| == pageSize
    ensures start < |articles| <= start + pageSize ==> 0 < |Page(articles, page, pageSize)| <= pageSize
    ensures start >= |articles| ==> Page(articles, page, pageSize) == []
  {
  }

  /** Concatenating pages 1 to ceil(n/k) gives the list back; every page before the last is full,
      the last is not empty, and later pages are. */
  lemma PagesPartition<T>(articles: seq<T>, pageSize: nat, p: nat)
    requires pageSize >= 1 && p >= 1
    ensures PagesUpTo(articles, PageCount(|articles|, pageSize), pageSize) == articles
    ensures p < PageCount(|articles|, pageSize) ==> |Page(articles, p, pageSize)| == pageSize
    ensures p == PageCount(|articles|, pageSize) ==> 0 < |Page(articles, p, pageSize)| <= pageSize
    ensures p > PageCount(|articles|, pageSize) ==> Page(articles, p, pageSize) == []
  {
    hide PageCount, PagesUpTo, Page;
    PagesRebuild(articles, pageSize);
    MulMonotone(0, p - 1, pageSize);
    PageBounds(|articles|, pageSize, p);
    PageLength(articles, p, pageSize, (p - 1) * pageSize);
  }

  /** Position i of the list is on page i/k + 1, at place i mod k, and on no other page. */
  lemma EachOnOnePage<T>(articles: seq<T>, pageSize: nat, i: nat, p: nat, q: nat)
    requires pageSize >= 1 && i < |articles| && p >= 1
    ensures (p - 1) * pageSize + q == i && q < |Page(articles, p, pageSize)|
      <==> p == i / pageSize + 1 && q == i % pageSize
    ensures var home := Page(articles, i / pageSize + 1, pageSize);
      i % pageSize < |home| && home[i % pageSize] == articles[i]
  {
    var d, m := i / pageSize, i % pageSize;
    assert i == d * pageSize + m;
    MulMonotone(0, p - 1, pageSize);
    MulMonotone(0, d, pageSize);
    if (p - 1) * pageSize + q == i && q < |Page(articles, p, pageSize)| {
      UniqueQuotient(p - 1, q, d, m, pageSize);
    }
  }

  lemma UniqueQuotient(a: nat, r: nat, b: nat, t: nat, k: nat)
    requires r < k && t < k && a * k + r == b * k + t
    ensures a == b && r == t
  {
    if a < b {
      MulSuccessor(a, k);
      MulMonotone(a + 1, b, k);
    } else if b < a {
      MulSuccessor(b, k);
      MulMonotone(b + 1, a, k);
    }
  }

  /** The headlines endpoint serves page 1 of the newsfeed endpoint. */
  lemma HeadlinesIsFirstPage<T>(articles: seq<T>, pageSize: int)
    requires Accepted(1, pageSize) && |articles| <= TWO_63 / 2
    ensures PaginateArticles(articles, 1, pageSize) == Some(Response(|articles|, Page(articles, 1, pageSize)))
    ensures Page(articles, 1, pageSize) == if pageSize <= |articles| then articles[..pageSize] else articles
  {
    PaginateIsPageIff(articles, 1, pageSize);
  }
}
