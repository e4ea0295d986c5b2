/**
 * The page-slicing helper of the posts app: `get_paginated_post` builds a
 * Django `Paginator` over an ordered list with `COUNT_PAGE` items per page
 * and returns `paginator.get_page(request.GET.get('page'))`.
 *
 * Django's paginator is used with its defaults (no orphans, an empty first
 * page allowed), so the semantics below are those of `Paginator.num_pages`,
 * `Paginator.validate_number`, `Paginator.get_page` and `Paginator.page`
 * under those defaults.
 */
module Pagination {
  import opened Wrappers

  /** `COUNT_PAGE`: the number of items on a full page. */
  const PageSize: nat := 10

  /**
   * The `page` query parameter as Python's `int()` sees it: absent
   * (`request.GET.get` gives `None`), a value `int()` rejects, or an integer.
   */
  datatype PageParam = Missing | NotAnInteger | Number(n: int)

  /** The two exceptions `validate_number` raises. */
  datatype PageError = PageNotAnInteger | EmptyPage

  /** A `Page` object: the items shown, its 1-based number and the page count. */
  datatype Page<T> = Page(items: seq<T>, number: nat, numPages: nat)

  /**
   * `Paginator.num_pages`: ceil(max(1, count) / PageSize), so an empty list
   * still has one (empty) page.
   */
  function NumPages(count: nat): (r: nat)
    ensures 1 <= r
    ensures count <= r * PageSize
    ensures count == 0 ==> r == 1
    ensures count > 0 ==> (r - 1) * PageSize < count
  {
    var hits := if count < 1 then 1 else count;
    (hits + PageSize - 1) / PageSize
  }

  /**
   * `Paginator.validate_number`: a non-integer is `PageNotAnInteger`, an
   * integer outside 1..numPages is `EmptyPage`.
   */
  function ValidateNumber(param: PageParam, numPages: nat): (r: Result<nat, PageError>)
    ensures r.Ok? <==> param.Number? && 1 <= param.n <= numPages
    ensures r.Ok? ==> r.value == param.n
    ensures r == Err(PageNotAnInteger) <==> !param.Number?
  {
    match param
    case Missing => Err(PageNotAnInteger)
    case NotAnInteger => Err(PageNotAnInteger)
    case Number(n) =>
      if n < 1 then Err(EmptyPage)
      else if n > numPages then Err(EmptyPage)
      else Ok(n)
  }

  /**
   * `Paginator.page(number)` for a valid number: the items from index
   * (number - 1) * PageSize on, at most PageSize of them.
   */
  function PageSlice<T>(items: seq<T>, number: nat): (s: seq<T>)
    requires 1 <= number <= NumPages(|items|)
    ensures |s| <= PageSize
    ensures |s| == if number * PageSize <= |items| then PageSize else |items| - (number - 1) * PageSize
    ensures forall i :: 0 <= i < |s| ==> s[i] == items[(number - 1) * PageSize + i]
  {
    var bottom := (number - 1) * PageSize;
    var top := if bottom + PageSize >= |items| then |items| else bottom + PageSize;
    items[bottom..top]
  }

  /**
   * `Paginator.get_page(param)`: never fails. A missing or non-integer
   * parameter selects page 1, an integer out of range selects the last page.
   */
  function GetPage<T>(items: seq<T>, param: PageParam): (pg: Page<T>)
    ensures pg.numPages == NumPages(|items|)
    ensures 1 <= pg.number <= pg.numPages
    ensures pg.items == PageSlice(items, pg.number)
    ensures !param.Number? ==> pg.number == 1
    ensures param.Number? && 1 <= param.n <= pg.numPages ==> pg.number == param.n
    ensures param.Number? && (param.n < 1 || pg.numPages < param.n) ==> pg.number == pg.numPages
  {
    var numPages := NumPages(|items|);
    var number :=
      match ValidateNumber(param, numPages)
      case Ok(k) => k
      case Err(PageNotAnInteger) => 1
      case Err(EmptyPage) => numPages;
    Page(PageSlice(items, number), number, numPages)
  }

  /** Pages 1..k laid end to end. */
  function Pages<T>(items: seq<T>, k: nat): seq<T>
    requires k <= NumPages(|items|)
  {
    if k == 0 then [] else Pages(items, k - 1) + PageSlice(items, k)
  }

  /** Pages 1..k together are the first k * PageSize items (or all of them). */
  lemma {:induction false} PagesArePrefix<T>(items: seq<T>, k: nat)
    requires k <= NumPages(|items|)
    ensures Pages(items, k) == items[..if k * PageSize <= |items| then k * PageSize else |items|]
  {
    if k > 0 {
      PagesArePrefix(items, k - 1);
      var s := PageSlice(items, k);
      var bottom := (k - 1) * PageSize;
      var top := if k * PageSize <= |items| then k * PageSize else |items|;
      assert s == items[bottom..top];
      assert items[..bottom] + items[bottom..top] == items[..top];
    }
  }

  /** All the pages laid end to end reproduce the input exactly. */
  lemma PagesReassemble<T>(items: seq<T>)
    ensures Pages(items, NumPages(|items|)) == items
  {
    PagesArePrefix(items, NumPages(|items|));
  }

  /** Every page before the last one is full. */
  lemma FullPagesBeforeLast<T>(items: seq<T>, k: nat)
    requires 1 <= k < NumPages(|items|)
    ensures |GetPage(items, Number(k)).items| == PageSize
  {
  }

  /** The item at index j is shown on page j / PageSize + 1, at position j % PageSize. */
  lemma ItemOnPage<T>(items: seq<T>, j: nat)
    requires j < |items|
    ensures var pg := GetPage(items, Number(j / PageSize + 1));
      pg.number == j / PageSize + 1 && j % PageSize < |pg.items| && pg.items[j % PageSize] == items[j]
  {
    var k := j / PageSize + 1;
    assert (k - 1) * PageSize <= j < k * PageSize;
  }

  /**
   * Thirteen items: page 1 holds 10, page 2 holds 3, and asking for page 3
   * gives page 2 rather than an error.
   */
  lemma ThirteenItems<T>(items: seq<T>)
    requires |items| == 13
    ensures NumPages(|items|) == 2
    ensures |GetPage(items, Missing).items| == 10
    ensures |GetPage(items, Number(2)).items| == 3
    ensures GetPage(items, Number(3)) == GetPage(items, Number(2))
  {
  }
}
