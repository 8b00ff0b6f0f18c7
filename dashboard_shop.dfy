/** DashboardShop.jsx: the signed-in customer's shop. Products are searched by
    name and narrowed to a category; the add button puts the product in the
    cart under a default size, and a product is marked as in the cart when any
    line holds it. The 1.5-second "added" animation is not modelled. */
module DashboardShop {
  import opened Seqs
  import opened Models
  import opened Text
  import opened CartContext

  const FALLBACK_SIZE: string := "M"
  const ALL: string := "All"

  /** `product.sizes.length > 0 ? product.sizes[0] : 'M'`. */
  function DefaultSize(p: Product): (size: string)
    ensures |p.sizes| > 0 ==> size == p.sizes[0] && size in p.sizes
    ensures |p.sizes| == 0 ==> size == FALLBACK_SIZE
  {
    if |p.sizes| > 0 then p.sizes[0] else FALLBACK_SIZE
  }

  function EntryProductId(e: CartEntry): string
  {
    e.product.id
  }

  /** `isInCart`: some line holds the product, whatever its size. */
  function IsInCart(items: seq<CartEntry>, productId: string): (r: bool)
    ensures r <==> exists i :: 0 <= i < |items| && items[i].product.id == productId
  {
    FirstIndex(items, EntryProductId, productId).Some?
  }

  /** After adding a product under any size, the product is in the cart. */
  lemma AddedIsInCart(items: seq<CartEntry>, product: Product, size: string)
    ensures IsInCart(AddedTo(items, product, size), product.id)
  {
    var r := AddedTo(items, product, size);
    if i :| 0 <= i < |items| && Matches(items[i], product.id, size) {
      assert r[i].product.id == product.id;
    } else {
      assert r[|items|].product.id == product.id;
    }
  }

  /** A line in one size marks the product as in the cart, though a line in
      another size does not exist. */
  lemma InCartWhateverSize(p: Product)
    ensures IsInCart([CartEntry(p, "L", 1)], p.id)
    ensures !Matches(CartEntry(p, "L", 1), p.id, FALLBACK_SIZE)
  {
    assert [CartEntry(p, "L", 1)][0].product.id == p.id;
  }

  /** `handleAddToCart`: the cart gains the product under its default size. */
  method HandleAddToCart(cart: CartState, product: Product)
    modifies cart
    ensures cart.items == AddedTo(old(cart.items), product, DefaultSize(product))
    ensures IsInCart(cart.items, product.id)
    ensures old(cart.Valid()) ==> cart.Valid()
  {
    var defaultSize := DefaultSize(product);
    cart.AddToCart(product, defaultSize);
    AddedIsInCart(old(cart.items), product, defaultSize);
  }

  /** `matchesSearch && matchesCategory`. */
  predicate MatchesShop(p: Product, searchTerm: string, selectedCategory: string)
  {
    Contains(ToLower(p.name), ToLower(searchTerm)) && (selectedCategory == ALL || p.category == selectedCategory)
  }

  function Shown(searchTerm: string, selectedCategory: string): Product -> bool
  {
    (p: Product) => MatchesShop(p, searchTerm, selectedCategory)
  }

  /** `filteredProducts`: exactly the products matching the search and the category. */
  function FilteredProducts(products: seq<Product>, searchTerm: string, selectedCategory: string): (r: seq<Product>)
    ensures |r| <= |products|
    ensures forall p :: p in r <==> p in products && MatchesShop(p, searchTerm, selectedCategory)
  {
    FilterMemberAll(products, Shown(searchTerm, selectedCategory));
    Filter(products, Shown(searchTerm, selectedCategory))
  }

  /** No search text and the category 'All' keep every product. */
  lemma ShowAll(products: seq<Product>)
    ensures FilteredProducts(products, "", ALL) == products
  {
    forall i | 0 <= i < |products|
      ensures Shown("", ALL)(products[i])
    {
      ContainsEmpty(ToLower(products[i].name));
    }
    FilterKeepsAll(products, Shown("", ALL));
  }

  /** The shop keeps the fetched order: filtering a split list filters each part. */
  lemma FilteredKeepsOrder(a: seq<Product>, b: seq<Product>, searchTerm: string, selectedCategory: string)
    ensures FilteredProducts(a + b, searchTerm, selectedCategory)
         == FilteredProducts(a, searchTerm, selectedCategory) + FilteredProducts(b, searchTerm, selectedCategory)
  {
    FilterAppend(a, b, Shown(searchTerm, selectedCategory));
  }
}
