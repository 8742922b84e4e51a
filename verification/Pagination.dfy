/**
 * Page links of a paginated listing (`page[size]`, `page[number]`): the
 * first, last, previous and next page numbers, and the slice of the listing
 * a page shows.
 */
module Pagination {
  import opened Wrappers

  datatype PageLinks = PageLinks(first: nat, last: nat, prev: Option<nat>, next: Option<nat>)

  datatype PaginationError = InvalidPagination

  /** The number of pages of `size` items needed for `total` items. */
  function PageCount(total: nat, size: nat): (n: nat)
    requires size > 0
    ensures (n - 1) * size < total <= n * size || (total == 0 && n == 0)
  {
    (total + size - 1) / size
  }

  /** The links of page `number` of a listing of `total` items; size and number must be positive. */
  function Paginate(total: nat, size: int, number: int): (r: Result<PageLinks, PaginationError>)
    ensures r.Failure? <==> size <= 0 || number <= 0
    ensures r.Success? ==> r.value.first == 1 && r.value.last == PageCount(total, size)
    ensures r.Success? ==> (r.value.prev.Some? <==> number > 1) && (r.value.prev.Some? ==> r.value.prev.value == number - 1)
    ensures r.Success? ==> (r.value.next.Some? <==> number * size < total) && (r.value.next.Some? ==> r.value.next.value == number + 1)
  {
    if size <= 0 || number <= 0 then Failure(InvalidPagination)
    else Success(PageLinks(
      1,
      PageCount(total, size),
      if number > 1 then Some(number - 1) else None,
      if number * size < total then Some(number + 1) else None))
  }

  /**
   * The items page `number` shows: those at positions (number-1)*size up to
   * number*size. A page is short only when it runs up to the end of the
   * listing, so no item within its range is left out.
   */
  function PageItems<T>(items: seq<T>, size: nat, number: nat): (page: seq<T>)
    requires size > 0 && number > 0
    ensures |page| <= size
    ensures forall k :: 0 <= k < |page| ==> (number - 1) * size + k < |items| && page[k] == items[(number - 1) * size + k]
    ensures |page| == size || (number - 1) * size + |page| >= |items|
  {
    var from := (number - 1) * size;
    if from >= |items| then []
    else if number * size <= |items| then items[from..number * size]
    else items[from..]
  }

  /** A next page is never past the last page, and it is not empty. */
  lemma NextWithinLast(total: nat, size: int, number: int)
    requires Paginate(total, size, number).Success? && Paginate(total, size, number).value.next.Some?
    ensures Paginate(total, size, number).value.next.value <= Paginate(total, size, number).value.last
  {
    ProductOrder(number, PageCount(total, size), size);
  }

  lemma ProductOrder(a: int, b: int, c: int)
    requires c > 0 && a * c < b * c
    ensures a < b
  {
  }

  lemma MonotoneProduct(a: nat, b: nat, c: nat)
    requires a <= b
    ensures a * c <= b * c
  {
  }

  /** The last page holds the final items and no page after it holds any. */
  lemma PagesAfterLastAreEmpty<T>(items: seq<T>, size: nat, number: nat)
    requires size > 0 && number > PageCount(|items|, size)
    ensures PageItems(items, size, number) == []
  {
    var last := PageCount(|items|, size);
    MonotoneProduct(last, number - 1, size);
  }

  /** Ten users in pages of five: page 1 links first=1, last=2, no previous page, next=2. */
  lemma TenUsersFirstPage()
    ensures Paginate(10, 5, 1) == Success(PageLinks(1, 2, None, Some(2)))
  {
  }

  /** Nine items in pages of five: page 1 has a next page and no previous one; page 2 the reverse. */
  lemma NineItemsTwoPages()
    ensures Paginate(9, 5, 1) == Success(PageLinks(1, 2, None, Some(2)))
    ensures Paginate(9, 5, 2) == Success(PageLinks(1, 2, Some(1), None))
  {
  }
}
