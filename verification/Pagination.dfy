/** Splitting a list into numbered pages. */
module Pagination {
  import opened Wrappers

  /** Rust's `usize` on a 64-bit target. */
  const USIZE_MAX: nat := 0xFFFF_FFFF_FFFF_FFFF

  type usize = n: nat | n <= USIZE_MAX

  /** A page as `Normalize` accepts it. */
  datatype Page = Page(page: usize, perPage: usize)

  datatype Meta = Meta(page: usize, perPage: usize, totalItems: nat, totalPages: nat)

  function SaturatingSub(a: usize, b: usize): usize {
    if a < b then 0 else a - b
  }

  function SaturatingMul(a: usize, b: usize): usize {
    if a * b <= USIZE_MAX then a * b else USIZE_MAX
  }

  /** The field at fault, or the page with its defaults filled in. */
  function Normalize(page: Option<usize>, perPage: Option<usize>): (r: Result<Page, string>)
    ensures r.Ok? ==> 1 <= r.value.page && 1 <= r.value.perPage <= 100
  {
    var number := if page.None? then 1 else page.value;
    var size := if perPage.None? then 20 else perPage.value;
    if number == 0 then Err("page")
    else if size == 0 || size > 100 then Err("per_page")
    else Ok(Page(number, size))
  }

  /** Without numbers it is page 1 of 20 items; a fault names the field, the page first. */
  lemma NormalizeDefaults(page: Option<usize>, perPage: Option<usize>)
    ensures Normalize(None, None) == Ok(Page(1, 20))
    ensures Normalize(page, perPage).Ok? ==>
      && (page == None ==> Normalize(page, perPage).value.page == 1)
      && (perPage == None ==> Normalize(page, perPage).value.perPage == 20)
    ensures Normalize(page, perPage).Err? ==>
      Normalize(page, perPage).error == if page == Some(0) then "page" else "per_page"
  {
  }

  /** `normalize` never rewrites a number that was given. */
  lemma NormalizeAcceptsIff(page: Option<usize>, perPage: Option<usize>)
    ensures var r := Normalize(page, perPage);
      && (r.Ok? <==> (page.Some? ==> 1 <= page.value) && (perPage.Some? ==> 1 <= perPage.value <= 100))
      && (r.Ok? && page.Some? ==> r.value.page == page.value)
      && (r.Ok? && perPage.Some? ==> r.value.perPage == perPage.value)
  {
  }

  /** `iter().skip(start).take(n)`. */
  function SkipTake<T>(items: seq<T>, start: nat, n: nat): (r: seq<T>)
    ensures |r| <= n
  {
    if |items| <= start then []
    else if |items| <= start + n then items[start..]
    else items[start..start + n]
  }

  function TotalPages(count: nat, perPage: nat): nat
    requires 0 < perPage
  {
    if count == 0 then 0 else (count + perPage - 1) / perPage
  }

  function Paginated<T>(items: seq<T>, page: Page): (seq<T>, Meta)
    requires 0 < page.perPage
  {
    var start := SaturatingMul(page.perPage, SaturatingSub(page.page, 1));
    (SkipTake(items, start, page.perPage),
     Meta(page.page, page.perPage, |items|, TotalPages(|items|, page.perPage)))
  }

  // ---------------------------------------------------------------- laws

  /** Page `k`, counted from 0, in unbounded arithmetic. */
  function PageAt<T>(items: seq<T>, perPage: nat, k: nat): seq<T> {
    SkipTake(items, k * perPage, perPage)
  }

  /** Saturation is invisible: the page is the one that unbounded arithmetic gives. A list in memory
      has at most USIZE_MAX elements. */
  lemma SaturationIsInvisible<T>(items: seq<T>, page: Page)
    requires 1 <= page.page && 1 <= page.perPage && |items| <= USIZE_MAX
    ensures Paginated(items, page).0 == PageAt(items, page.perPage, page.page - 1)
  {
    assert page.perPage * (page.page - 1) == (page.page - 1) * page.perPage;
  }

  /** The answers to pages 1 to `k`, one after the other. */
  function FirstPages<T>(items: seq<T>, perPage: usize, k: usize): seq<T>
    requires 0 < perPage
  {
    if k == 0 then [] else FirstPages(items, perPage, k - 1) + Paginated(items, Page(k, perPage)).0
  }

  function Prefix<T>(items: seq<T>, n: nat): seq<T> {
    if n <= |items| then items[..n] else items
  }

  lemma PrefixGrows<T>(items: seq<T>, start: nat, n: nat)
    ensures Prefix(items, start) + SkipTake(items, start, n) == Prefix(items, start + n)
  {
  }

  lemma {:induction false} FirstPagesArePrefix<T>(items: seq<T>, perPage: usize, k: usize)
    requires 0 < perPage && |items| <= USIZE_MAX
    ensures FirstPages(items, perPage, k) == Prefix(items, k * perPage)
  {
    if k > 0 {
      var start := (k - 1) * perPage;
      FirstPagesArePrefix(items, perPage, k - 1);
      SaturationIsInvisible(items, Page(k, perPage));
      PrefixGrows(items, start, perPage);
      assert k * perPage == start + perPage;
    }
  }

  /** `total_pages` is the smallest number of pages that holds every item. */
  lemma TotalPagesIsLeast(count: nat, perPage: nat)
    requires 0 < perPage
    ensures var total := TotalPages(count, perPage);
      count <= total * perPage && (0 < total ==> (total - 1) * perPage < count)
  {
    var n := count + perPage - 1;
    assert n == n / perPage * perPage + n % perPage;
    assert (n / perPage - 1) * perPage == n / perPage * perPage - perPage;
  }

  lemma MulMonotone(a: nat, b: nat, n: nat)
    requires a <= b
    ensures a * n <= b * n
  {
    assert (b - a) * n >= 0;
  }

  /** Pages 1 to `total_pages` joined give back the list. */
  lemma PagesGiveBackTheList<T>(items: seq<T>, perPage: usize)
    requires 0 < perPage && |items| <= USIZE_MAX
    ensures var total := TotalPages(|items|, perPage);
      total <= USIZE_MAX && FirstPages(items, perPage, total) == items
  {
    var total := TotalPages(|items|, perPage);
    TotalPagesIsLeast(|items|, perPage);
    if total > 0 { MulMonotone(1, perPage, total - 1); }
    FirstPagesArePrefix(items, perPage, total);
  }

  /** A page is empty exactly when its number is past `total_pages`. */
  lemma EmptyIffPastTheEnd<T>(items: seq<T>, page: Page)
    requires 1 <= page.page && 1 <= page.perPage && |items| <= USIZE_MAX
    ensures Paginated(items, page).0 == [] <==> Paginated(items, page).1.totalPages < page.page
  {
    var total := TotalPages(|items|, page.perPage);
    SaturationIsInvisible(items, page);
    TotalPagesIsLeast(|items|, page.perPage);
    if total < page.page {
      MulMonotone(total, page.page - 1, page.perPage);
    } else {
      MulMonotone(page.page - 1, total - 1, page.perPage);
    }
  }

  lemma FullPage<T>(items: seq<T>, perPage: nat, k: nat)
    requires (k + 1) * perPage <= |items|
    ensures |PageAt(items, perPage, k)| == perPage
  {
    assert k * perPage + perPage == (k + 1) * perPage;
  }

  /** Each page but the last non-empty one is full. */
  lemma EarlierPagesAreFull<T>(items: seq<T>, page: Page)
    requires 1 <= page.page && 1 <= page.perPage && |items| <= USIZE_MAX
    requires page.page < TotalPages(|items|, page.perPage)
    ensures |Paginated(items, page).0| == page.perPage
  {
    SaturationIsInvisible(items, page);
    assert page.page * page.perPage <= |items| by {
      TotalPagesIsLeast(|items|, page.perPage);
      MulMonotone(page.page, TotalPages(|items|, page.perPage) - 1, page.perPage);
    }
    FullPage(items, page.perPage, page.page - 1);
  }

  lemma SkipTakeHolds<T>(items: seq<T>, start: nat, n: nat)
    ensures var taken := SkipTake(items, start, n);
      && |taken| == (if |items| <= start then 0 else if |items| - start < n then |items| - start else n)
      && forall i | 0 <= i < |taken| :: start + i < |items| && taken[i] == items[start + i]
  {
  }

  /** The item in place `i` of a page is the one in place `(page - 1) * per_page + i` of the list, and the
      numbers beside it are the page's own and the list's length. */
  lemma PageHolds<T>(items: seq<T>, page: Page, start: nat)
    requires 1 <= page.page && 1 <= page.perPage && |items| <= USIZE_MAX
    requires start == (page.page - 1) * page.perPage
    ensures var (paged, meta) := Paginated(items, page);
      && |paged| == (if |items| <= start then 0
                     else if |items| - start < page.perPage then |items| - start
                     else page.perPage)
      && (forall i | 0 <= i < |paged| :: start + i < |items| && paged[i] == items[start + i])
      && meta.page == page.page && meta.perPage == page.perPage && meta.totalItems == |items|
  {
    SaturationIsInvisible(items, page);
    SkipTakeHolds(items, start, page.perPage);
  }
}
