/**
 The storefront page's state: the active tab, the selected category, the
 favorites and the cart, owned by one object whose methods are the page's
 event handlers. Every handler runs to completion before the next one starts,
 so each is a plain field update.
 */
module Storefront {
  import opened Sequences
  import opened Catalog
  import opened Favorites
  import opened Cart

  class StorefrontState {
    var activeTab: string
    var selectedCategory: string
    var favorites: seq<int>
    var cart: seq<Line>

    /** What the handlers keep: no id is a favorite twice, one line per product, every quantity at least 1. */
    ghost predicate Valid()
      reads this
    {
      Distinct(favorites) && WellFormed(cart)
    }

    /** The page as first shown: the catalog tab, every category, no favorites, an empty cart. */
    constructor ()
      ensures Valid()
      ensures activeTab == "catalog" && selectedCategory == "all"
      ensures favorites == [] && cart == []
    {
      activeTab := "catalog";
      selectedCategory := "all";
      favorites := [];
      cart := [];
    }

    /** The heart button of product `id`. */
    method ToggleFavorite(id: int)
      requires Valid()
      modifies this`favorites
      ensures Valid()
      ensures favorites == Toggle(old(favorites), id)
      ensures id in favorites <==> id !in old(favorites)
      ensures forall x :: x != id ==> (x in favorites <==> x in old(favorites))
    {
      ToggleKeepsDistinct(favorites, id);
      favorites := Toggle(favorites, id);
    }

    /** The "add to cart" button of product `id`. */
    method AddToCart(id: int)
      requires Valid()
      modifies this`cart
      ensures Valid()
      ensures cart == AddLine(old(cart), id)
      ensures CartTotal(cart) == CartTotal(old(cart)) + PriceOf(id)
      ensures InCatalog(old(cart)) && Lookup(id).Some? ==> InCatalog(cart)
    {
      AddLineTotal(cart, id);
      cart := AddLine(cart, id);
    }

    /** The remove button of the cart line of product `id`. */
    method RemoveFromCart(id: int)
      requires Valid()
      modifies this`cart
      ensures Valid()
      ensures cart == RemoveLine(old(cart), id)
      ensures id !in Ids(cart)
      ensures CartTotal(cart) == CartTotal(old(cart)) - PriceOf(id) * QuantityOf(old(cart), id)
      ensures InCatalog(old(cart)) ==> InCatalog(cart)
    {
      RemoveLineKeepsWellFormed(cart, id);
      RemoveLineTotal(cart, id);
      if InCatalog(cart) { RemoveLineKeepsInCatalog(cart, id); }
      cart := RemoveLine(cart, id);
    }

    /** The minus and plus buttons of the cart line of product `id`, which ask for `quantity`. */
    method UpdateQuantity(id: int, quantity: int)
      requires Valid()
      modifies this`cart
      ensures Valid()
      ensures cart == Cart.UpdateQuantity(old(cart), id, quantity)
      ensures quantity < 1 ==> cart == RemoveLine(old(cart), id)
      ensures id !in Ids(old(cart)) ==> cart == old(cart)
      ensures InCatalog(old(cart)) ==> InCatalog(cart)
    {
      if quantity < 1 {
        RemoveFromCart(id);
        return;
      }
      UpdateQuantityKeepsInvariants(cart, id, quantity);
      if id !in Ids(cart) {
        UpdateQuantityAbsent(cart, id, quantity);
      }
      cart := SetQuantity(cart, id, quantity);
    }

    /** A tab button. */
    method SetActiveTab(tab: string)
      modifies this`activeTab
      ensures activeTab == tab
    {
      activeTab := tab;
    }

    /** A category button. */
    method SetSelectedCategory(category: string)
      modifies this`selectedCategory
      ensures selectedCategory == category
    {
      selectedCategory := category;
    }
  }

  /** The seeded session's adds: product 1 once, then product 2 twice, on an empty cart. */
  lemma SeededAdds()
    ensures AddLine(AddLine(AddLine([], 1), 2), 2) == [Line(1, 1), Line(2, 2)]
  {
    assert Ids([Line(1, 1)]) == [1];
    assert Ids([Line(1, 1), Line(2, 1)]) == [1, 2];
  }

  /** The seeded session's quantity change: asking for 0 of product 1 removes its line. */
  lemma SeededRemoval()
    ensures UpdateQuantity([Line(1, 1), Line(2, 2)], 1, 0) == [Line(2, 2)]
  {
    assert [Line(1, 1), Line(2, 2)][1..] == [Line(2, 2)];
    assert [Line(2, 2)][1..] == [];
  }

  /** The totals of the seeded session's two carts at the seed prices. */
  lemma SeededTotals()
    ensures CartTotal([Line(1, 1), Line(2, 2)]) == 122300
    ensures CartTotal([Line(2, 2)]) == 97800
  {
    assert PriceOf(1) == 24500 by { PriceOfCatalogProduct(Products[0]); }
    assert PriceOf(2) == 48900 by { PriceOfCatalogProduct(Products[1]); }
    assert [Line(1, 1), Line(2, 2)][1..] == [Line(2, 2)];
    assert [Line(2, 2)][1..] == [];
  }

  /**
   A session on a fresh page: product 1 added once and product 2 twice, then
   product 1's quantity asked down to 0. The handlers' contracts fix each cart.
   */
  method SeededSession() returns (totalBefore: int, totalAfter: int, lines: seq<Line>)
    ensures totalBefore == 122300
    ensures totalAfter == 97800
    ensures lines == [Line(2, 2)]
  {
    SeededAdds();
    SeededRemoval();
    SeededTotals();
    var page := new StorefrontState();
    page.AddToCart(1);
    page.AddToCart(2);
    page.AddToCart(2);
    totalBefore := CartTotal(page.cart);
    page.UpdateQuantity(1, 0);
    totalAfter := CartTotal(page.cart);
    lines := page.cart;
  }
}
