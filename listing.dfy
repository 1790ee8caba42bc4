/**
 * Django's `Paginator(object_list, per_page).get_page(number)` as the two data
 * page endpoints use it (no orphans, an empty first page allowed): the page
 * count, the page a requested number falls back to, and the slice a page holds.
 */
module Listing {
  import opened Wrappers

  /**
   * Why the paginator gives no page. A zero `per_page` divides by zero when the
   * page count is computed; a negative one either reaches `EmptyPage` or
   * slices the QuerySet with a negative bound, which QuerySets refuse.
   */
  datatype PaginatorError = ZeroDivisionError | InvalidPerPage

  /** A `Page`: its objects, its number, and the paginator's page count and object count. */
  datatype Page<T> = Page(objects: seq<T>, number: nat, numPages: nat, count: nat)

  /** `Paginator.num_pages`: `ceil(max(1, count) / per_page)`. */
  function NumPages(count: nat, perPage: nat): (n: nat)
    requires perPage > 0
    ensures n >= 1
    ensures (n - 1) * perPage < (if count == 0 then 1 else count) <= n * perPage
  {
    var hits := if count == 0 then 1 else count;
    var n := (hits + perPage - 1) / perPage;
    var rem := (hits + perPage - 1) % perPage;
    assert n * perPage == hits + perPage - 1 - rem;
    assert (n - 1) * perPage == n * perPage - perPage;
    n
  }

  /**
   * The page `get_page(number)` serves out of `numPages`: page 1 when no
   * integer was given (`PageNotAnInteger`), the last page when the number is
   * out of range (`EmptyPage`).
   */
  function PageNumber(number: Option<int>, numPages: nat): (k: nat)
    requires numPages >= 1
    ensures 1 <= k <= numPages
    ensures number.None? ==> k == 1
    ensures number.Some? && 1 <= number.value <= numPages ==> k == number.value
    ensures number.Some? && !(1 <= number.value <= numPages) ==> k == numPages
  {
    match number
    case None => 1
    case Some(v) => if v < 1 || v > numPages then numPages else v
  }

  lemma MulMonotone(a: nat, b: nat, p: nat)
    requires a <= b
    ensures a * p <= b * p
  {
  }

  /** The first index of page `k`: `(k - 1) * per_page`. */
  function Bottom(k: nat, perPage: nat): nat
    requires k >= 1
  {
    (k - 1) * perPage
  }

  /** The objects of page `k`: from `Bottom` up to `per_page` of them, stopping at the end. */
  function PageSlice<T>(objects: seq<T>, perPage: nat, k: nat): (s: seq<T>)
    requires perPage > 0 && 1 <= k <= NumPages(|objects|, perPage)
    ensures |s| <= perPage && Bottom(k, perPage) + |s| <= |objects|
    ensures forall i :: 0 <= i < |s| ==> s[i] == objects[Bottom(k, perPage) + i]
  {
    var n := NumPages(|objects|, perPage);
    MulMonotone(k - 1, n - 1, perPage);
    var bottom := Bottom(k, perPage);
    var top := if bottom + perPage > |objects| then |objects| else bottom + perPage;
    objects[bottom..top]
  }

  /** `Paginator(objects, per_page).get_page(number)`. */
  function GetPage<T>(objects: seq<T>, perPage: int, number: Option<int>): (r: Result<Page<T>, PaginatorError>)
    ensures r.Err? <==> perPage <= 0
    ensures perPage == 0 ==> r == Err(ZeroDivisionError)
    ensures r.Ok? ==>
      && r.value.count == |objects|
      && r.value.numPages == NumPages(|objects|, perPage)
      && r.value.number == PageNumber(number, r.value.numPages)
      && r.value.objects == PageSlice(objects, perPage, r.value.number)
  {
    if perPage == 0 then Err(ZeroDivisionError)
    else if perPage < 0 then Err(InvalidPerPage)
    else
      var n := NumPages(|objects|, perPage);
      var k := PageNumber(number, n);
      Ok(Page(PageSlice(objects, perPage, k), k, n, |objects|))
  }

  /** Every page but the last is full; the last holds the rest, and is empty only when there is nothing to show. */
  lemma PageSizes<T>(objects: seq<T>, perPage: nat, k: nat)
    requires perPage > 0 && 1 <= k <= NumPages(|objects|, perPage)
    ensures k < NumPages(|objects|, perPage) ==> |PageSlice(objects, perPage, k)| == perPage
    ensures k == NumPages(|objects|, perPage) ==>
      |PageSlice(objects, perPage, k)| == |objects| - (k - 1) * perPage
    ensures PageSlice(objects, perPage, k) == [] <==> objects == []
  {
    var n := NumPages(|objects|, perPage);
    if k < n {
      MulMonotone(k, n - 1, perPage);
      assert k * perPage == (k - 1) * perPage + perPage;
    }
    MulMonotone(k - 1, n - 1, perPage);
  }

  /** The concatenation of pages `k` to the last. */
  function PagesFrom<T>(objects: seq<T>, perPage: nat, k: nat): seq<T>
    requires perPage > 0 && k >= 1
    decreases NumPages(|objects|, perPage) + 1 - k
  {
    if k > NumPages(|objects|, perPage) then []
    else PageSlice(objects, perPage, k) + PagesFrom(objects, perPage, k + 1)
  }

  /** Pages `k` onwards hold exactly the objects from `Bottom(k)` on, in order. */
  lemma {:induction false} PagesFromSuffix<T>(objects: seq<T>, perPage: nat, k: nat)
    requires perPage > 0 && 1 <= k <= NumPages(|objects|, perPage)
    ensures Bottom(k, perPage) <= |objects|
    ensures PagesFrom(objects, perPage, k) == objects[Bottom(k, perPage)..]
    decreases NumPages(|objects|, perPage) + 1 - k
  {
    var bottom := Bottom(k, perPage);
    if k == NumPages(|objects|, perPage) {
      LastPageSlice(objects, perPage, k);
    } else {
      FullPageSlice(objects, perPage, k);
      PagesFromSuffix(objects, perPage, k + 1);
      assert objects[bottom..] == objects[bottom..bottom + perPage] + objects[bottom + perPage..];
    }
  }

  /** A page before the last holds `per_page` objects, and the next page starts right after it. */
  lemma FullPageSlice<T>(objects: seq<T>, perPage: nat, k: nat)
    requires perPage > 0 && 1 <= k < NumPages(|objects|, perPage)
    ensures Bottom(k + 1, perPage) == Bottom(k, perPage) + perPage <= |objects|
    ensures PageSlice(objects, perPage, k) == objects[Bottom(k, perPage)..Bottom(k, perPage) + perPage]
  {
    MulMonotone(k, NumPages(|objects|, perPage) - 1, perPage);
    assert k * perPage == (k - 1) * perPage + perPage;
  }

  /** The last page holds every object from its first index on. */
  lemma LastPageSlice<T>(objects: seq<T>, perPage: nat, k: nat)
    requires perPage > 0 && k == NumPages(|objects|, perPage)
    ensures Bottom(k, perPage) <= |objects|
    ensures PageSlice(objects, perPage, k) == objects[Bottom(k, perPage)..]
  {
    assert k * perPage == (k - 1) * perPage + perPage;
  }

  /** The pages partition the object list: read in order, they give back every object once. */
  lemma PagesPartition<T>(objects: seq<T>, perPage: nat)
    requires perPage > 0
    ensures PagesFrom(objects, perPage, 1) == objects
  {
    PagesFromSuffix(objects, perPage, 1);
  }

  /** Three results at two per page: two pages, holding two then one. */
  lemma ThreeResultsTwoPerPage<T>(a: T, b: T, c: T)
    ensures GetPage([a, b, c], 2, Some(1)) == Ok(Page([a, b], 1, 2, 3))
    ensures GetPage([a, b, c], 2, Some(2)) == Ok(Page([c], 2, 2, 3))
    ensures GetPage([a, b, c], 2, Some(-1)) == Ok(Page([c], 2, 2, 3))
    ensures GetPage([a, b, c], 2, Some(3)) == Ok(Page([c], 2, 2, 3))
  {
    assert NumPages(3, 2) == 2;
    assert [a, b, c][0..2] == [a, b];
    assert [a, b, c][2..3] == [c];
  }

  /** With nothing to show there is one empty page, whatever number was asked for. */
  lemma NoResults<T>(empty: seq<T>, perPage: nat, number: Option<int>)
    requires empty == [] && perPage > 0
    ensures GetPage(empty, perPage, number) == Ok(Page([], 1, 1, 0))
  {
    assert NumPages(0, perPage) == 1;
  }
}
