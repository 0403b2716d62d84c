/** The product section's pagination: the page size chosen from the window
    width, the page count, the clamped current page, the slice shown, and
    the page state moved by the previous and next buttons. */
module ProductSection {
  import opened Wrappers

  /** `pageSizes`: products per page for each breakpoint. */
  const SmallPageSize := 4
  const MediumPageSize := 6
  const LargePageSize := 8
  const ExtraLargePageSize := 10

  /** `pageSize`: chosen from `window.innerWidth`; `None` is the absence of a
      window, which gets the medium size. */
  function PageSize(width: Option<int>): (n: nat)
    ensures n in {SmallPageSize, MediumPageSize, LargePageSize, ExtraLargePageSize}
    ensures width.None? ==> n == MediumPageSize
    ensures width.Some? ==>
              && (n == ExtraLargePageSize <==> width.value >= 1280)
              && (n == LargePageSize <==> 1024 <= width.value < 1280)
              && (n == MediumPageSize <==> 768 <= width.value < 1024)
              && (n == SmallPageSize <==> width.value < 768)
  {
    match width
    case None => MediumPageSize
    case Some(w) =>
      if w >= 1280 then ExtraLargePageSize
      else if w >= 1024 then LargePageSize
      else if w >= 768 then MediumPageSize
      else SmallPageSize
  }

  /** `Math.max(1, Math.ceil(count / pageSize))`: at least one page, and
      otherwise the fewest pages of `pageSize` that hold `count` products. */
  function TotalPages(count: nat, pageSize: nat): (t: nat)
    requires pageSize > 0
    ensures t >= 1
    ensures count == 0 ==> t == 1
    ensures count > 0 ==> (t - 1) * pageSize < count <= t * pageSize
  {
    var pages := (count + pageSize - 1) / pageSize;
    if pages < 1 then 1 else pages
  }

  /** `Math.min(page, totalPages - 1)`: the page shown, within range even
      when the page state exceeds it. */
  function Current(page: nat, totalPages: nat): (c: nat)
    requires totalPages >= 1
    ensures c < totalPages && c <= page
    ensures page < totalPages ==> c == page
    ensures page >= totalPages ==> c == totalPages - 1
  {
    if page < totalPages - 1 then page else totalPages - 1
  }

  /** `s.slice(start, end)` for non-negative bounds: both are cut down to the
      length, and an end before the start gives nothing. */
  function Slice<T>(s: seq<T>, start: nat, end: nat): (r: seq<T>)
    ensures start <= end <= |s| ==> r == s[start..end]
    ensures start <= |s| <= end ==> r == s[start..]
    ensures start >= |s| ==> r == []
    ensures end <= start ==> r == []
  {
    var a := if start < |s| then start else |s|;
    var b := if end < a then a else if end < |s| then end else |s|;
    s[a..b]
  }

  /** `pagedProducts`: the `current` page, at most `pageSize` products
      starting at `current * pageSize`. */
  function PagedProducts<T>(products: seq<T>, current: nat, pageSize: nat): (r: seq<T>)
    ensures |r| <= pageSize
    ensures current * pageSize + pageSize <= |products| ==>
              r == products[current * pageSize..current * pageSize + pageSize]
    ensures current * pageSize <= |products| <= current * pageSize + pageSize ==>
              r == products[current * pageSize..]
  {
    Slice(products, current * pageSize, current * pageSize + pageSize)
  }

  /** The pages `0 .. k - 1` concatenated in order. */
  function PagesUpTo<T>(products: seq<T>, pageSize: nat, k: nat): seq<T> {
    if k == 0 then [] else PagesUpTo(products, pageSize, k - 1) + PagedProducts(products, k - 1, pageSize)
  }

  /** The first `k` pages are the first `k * pageSize` products (or all of
      them). */
  lemma {:induction false} PagesUpToPrefix<T>(products: seq<T>, pageSize: nat, k: nat)
    ensures PagesUpTo(products, pageSize, k) ==
              products[..if k * pageSize <= |products| then k * pageSize else |products|]
  {
    if k > 0 {
      PagesUpToPrefix(products, pageSize, k - 1);
      var a := (k - 1) * pageSize;
      assert k * pageSize == a + pageSize;
      if a <= |products| {
        var b := if a + pageSize <= |products| then a + pageSize else |products|;
        assert products[..a] + products[a..b] == products[..b];
      }
    }
  }

  /** Every product is on exactly one page: the pages `0 .. totalPages - 1`
      concatenated in order give back the list. */
  lemma PagesCoverProducts<T>(products: seq<T>, pageSize: nat)
    requires pageSize > 0
    ensures PagesUpTo(products, pageSize, TotalPages(|products|, pageSize)) == products
  {
    var t := TotalPages(|products|, pageSize);
    PagesUpToPrefix(products, pageSize, t);
    assert t * pageSize >= |products|;
  }

  /** With at least one product the page shown is never empty. */
  lemma CurrentPageNotEmpty<T>(products: seq<T>, page: nat, pageSize: nat)
    requires pageSize > 0 && |products| > 0
    ensures var c := Current(page, TotalPages(|products|, pageSize));
            |PagedProducts(products, c, pageSize)| > 0
  {
    var t := TotalPages(|products|, pageSize);
    var c := Current(page, t);
    MulMonotone(c, t - 1, pageSize);
    var start := c * pageSize;
    assert start < |products|;
    assert |PagedProducts(products, c, pageSize)| > 0 by {
      if start + pageSize <= |products| {
        assert PagedProducts(products, c, pageSize) == products[start..start + pageSize];
      } else {
        assert PagedProducts(products, c, pageSize) == products[start..];
      }
    }
  }

  lemma MulMonotone(a: nat, b: nat, k: nat)
    requires a <= b
    ensures a * k <= b * k
  {
  }

  /** `totalPages > 1`: the pagination controls appear exactly when the
      products do not fit on one page. */
  function ShowsControls(count: nat, pageSize: nat): (r: bool)
    requires pageSize > 0
    ensures r <==> count > pageSize
  {
    var t := TotalPages(count, pageSize);
    assert t > 1 ==> (t - 1) * pageSize >= pageSize;
    t > 1
  }

  /** `current === 0`: Previous is disabled exactly on the first page,
      which is every page when all products fit on one. */
  function PrevDisabled(page: nat, count: nat, pageSize: nat): (r: bool)
    requires pageSize > 0
    ensures r <==> page == 0 || count <= pageSize
  {
    var t := TotalPages(count, pageSize);
    assert t == 1 <==> count <= pageSize by {
      if t > 1 {
        MulMonotone(1, t - 1, pageSize);
      }
    }
    assert Current(page, t) == 0 <==> page == 0 || t == 1;
    Current(page, t) == 0
  }

  /** `current >= totalPages - 1`: Next is disabled exactly when no
      product remains after the shown page. */
  function NextDisabled(page: nat, count: nat, pageSize: nat): (r: bool)
    requires pageSize > 0
    ensures var c := Current(page, TotalPages(count, pageSize));
            r <==> count <= (c + 1) * pageSize
  {
    var t := TotalPages(count, pageSize);
    var c := Current(page, t);
    assert c < t - 1 ==> (c + 1) * pageSize <= (t - 1) * pageSize by {
      if c < t - 1 {
        MulMonotone(c + 1, t - 1, pageSize);
      }
    }
    assert c >= t - 1 ==> c == t - 1;
    c >= t - 1
  }

  /** The component's `page` state, moved by `goPrev` and `goNext`. */
  class Pager {
    var page: nat

    constructor ()
      ensures page == 0
    {
      page := 0;
    }

    /** `goPrev`: one page back, never below 0. */
    method GoPrev()
      modifies this
      ensures page == if old(page) == 0 then 0 else old(page) - 1
    {
      page := if page < 1 then 0 else page - 1;
    }

    /** `goNext`: one page on, never beyond the last page. */
    method GoNext(totalPages: nat)
      requires totalPages >= 1
      modifies this
      ensures page <= totalPages - 1
      ensures old(page) < totalPages - 1 ==> page == old(page) + 1
      ensures old(page) >= totalPages - 1 ==> page == totalPages - 1
    {
      page := if totalPages - 1 < page + 1 then totalPages - 1 else page + 1;
    }
  }
}
