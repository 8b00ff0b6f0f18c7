/** Products.jsx: the catalogue page. The fetched list is reversed in place so
    that the newest product comes first, then shown nine at a time; the page
    number is state changed by the numbered, previous and next buttons. */
module ProductsPage {
  import opened Seqs

  const ITEMS_PER_PAGE: nat := 9

  /** `data.reverse()`: swaps from both ends towards the middle. */
  method ReverseInPlace<T>(a: array<T>)
    modifies a
    ensures a[..] == Reverse(old(a[..]))
  {
    var i, j := 0, a.Length - 1;
    while i < j
      invariant 0 <= i && j == a.Length - 1 - i && i <= j + 1
      invariant forall k :: 0 <= k < i ==> a[k] == old(a[a.Length - 1 - k]) && a[a.Length - 1 - k] == old(a[k])
      invariant forall k :: i <= k <= j ==> a[k] == old(a[k])
    {
      a[i], a[j] := a[j], a[i];
      i, j := i + 1, j - 1;
    }
    assert forall k :: 0 <= k < a.Length ==> a[k] == old(a[..])[a.Length - 1 - k];
  }

  /** `Math.ceil(n / 9)`. */
  function TotalPages(n: nat): (r: nat)
    ensures r * ITEMS_PER_PAGE >= n
    ensures n > 0 ==> (r - 1) * ITEMS_PER_PAGE < n
    ensures n == 0 <==> r == 0
  {
    (n + ITEMS_PER_PAGE - 1) / ITEMS_PER_PAGE
  }

  /** `products.slice(indexOfFirstItem, indexOfLastItem)` with
      `indexOfLastItem = page * 9` and `indexOfFirstItem = indexOfLastItem - 9`. */
  function PageItems<T>(products: seq<T>, page: int): (r: seq<T>)
    ensures |r| <= ITEMS_PER_PAGE
    ensures page >= 1 ==>
      var first := if (page - 1) * ITEMS_PER_PAGE < |products| then (page - 1) * ITEMS_PER_PAGE else |products|;
      var last := if page * ITEMS_PER_PAGE < |products| then page * ITEMS_PER_PAGE else |products|;
      r == products[first..last]
  {
    var indexOfLastItem := page * ITEMS_PER_PAGE;
    var indexOfFirstItem := indexOfLastItem - ITEMS_PER_PAGE;
    JsSlice(products, indexOfFirstItem, indexOfLastItem)
  }

  /** Pages 1 to k one after another. */
  function PagesUpTo<T>(products: seq<T>, k: nat): seq<T>
  {
    if k == 0 then [] else PagesUpTo(products, k - 1) + PageItems(products, k)
  }

  /** The first k pages hold exactly the first min(9k, n) products, in order. */
  lemma {:induction false} PagesUpToPrefix<T>(products: seq<T>, k: nat)
    ensures PagesUpTo(products, k) == products[..if k * ITEMS_PER_PAGE < |products| then k * ITEMS_PER_PAGE else |products|]
  {
    if k > 0 {
      PagesUpToPrefix(products, k - 1);
    }
  }

  /** Pages 1 to `TotalPages` show every product exactly once, in list order. */
  lemma PagesCoverAll<T>(products: seq<T>)
    ensures PagesUpTo(products, TotalPages(|products|)) == products
  {
    PagesUpToPrefix(products, TotalPages(|products|));
  }

  /** "Menampilkan first-last": `indexOfFirstItem + 1` and
      `Math.min(indexOfLastItem, products.length)`. */
  function RangeShown(n: nat, page: int): (r: (int, int))
    ensures 1 <= page <= TotalPages(n) ==> 1 <= r.0 <= r.1 <= n
  {
    (page * ITEMS_PER_PAGE - ITEMS_PER_PAGE + 1, if page * ITEMS_PER_PAGE < n then page * ITEMS_PER_PAGE else n)
  }

  /** On a page that exists the range text counts the items shown. */
  lemma RangeCountsPage<T>(products: seq<T>, page: int)
    requires 1 <= page <= TotalPages(|products|)
    ensures RangeShown(|products|, page).1 - RangeShown(|products|, page).0 + 1 == |PageItems(products, page)|
  {
  }

  /** With no products the text still reads "1-0" and Next stays enabled,
      since `currentPage === totalPages` compares 1 with 0. */
  lemma EmptyCatalogue()
    ensures TotalPages(0) == 0 && RangeShown(0, 1) == (1, 0)
    ensures !NextDisabled(1, TotalPages(0))
  {
  }

  predicate PreviousDisabled(page: int)
  {
    page == 1
  }

  predicate NextDisabled(page: int, totalPages: nat)
  {
    page == totalPages
  }

  /** The page number and the buttons that change it. */
  class Pager {
    var currentPage: int

    constructor ()
      ensures currentPage == 1
    {
      currentPage := 1;
    }

    /** `paginate`: any number, as the numbered buttons pass 1 to totalPages. */
    method Paginate(pageNumber: int)
      modifies this
      ensures currentPage == pageNumber
    {
      currentPage := pageNumber;
    }

    /** The previous button; a disabled button does nothing. */
    method Previous()
      modifies this
      ensures currentPage == if PreviousDisabled(old(currentPage)) then old(currentPage) else old(currentPage) - 1
      ensures old(currentPage) >= 1 ==> currentPage >= 1
    {
      if !PreviousDisabled(currentPage) {
        Paginate(currentPage - 1);
      }
    }

    /** The next button; with at least one page it never leaves the last one. */
    method Next(totalPages: nat)
      modifies this
      ensures currentPage == if NextDisabled(old(currentPage), totalPages) then old(currentPage) else old(currentPage) + 1
      ensures 1 <= old(currentPage) <= totalPages ==> 1 <= currentPage <= totalPages
    {
      if !NextDisabled(currentPage, totalPages) {
        Paginate(currentPage + 1);
      }
    }
  }
}
