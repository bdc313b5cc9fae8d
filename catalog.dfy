/**
 The storefront's fixed product catalog and the catalog view filtered by the
 selected category tab.
 */
module Catalog {
  import opened Sequences

  datatype Option<T> = None | Some(value: T)

  /** The four product categories. */
  datatype Category = Shelf | Panel | Vase | Sculpture

  /** The identifier of a category, as the category buttons assign it to the selection. */
  function CategoryId(c: Category): string {
    match c
    case Shelf => "shelf"
    case Panel => "panel"
    case Vase => "vase"
    case Sculpture => "sculpture"
  }

  /** A product; its name, image and description play no part in the logic. */
  datatype Product = Product(id: int, price: int, category: Category)

  /** The catalog, in display order. */
  const Products: seq<Product> := [
    Product(1, 24500, Vase),
    Product(2, 48900, Panel),
    Product(3, 35600, Shelf),
    Product(4, 67800, Sculpture),
    Product(5, 19900, Vase),
    Product(6, 52000, Panel)
  ]

  /** The catalog's product ids are unique and its prices are positive. */
  lemma CatalogWellFormed()
    ensures forall i, j :: 0 <= i < j < |Products| ==> Products[i].id != Products[j].id
    ensures forall p :: p in Products ==> p.price > 0
  {
  }

  /** The first product of `ps` with the given id, if any. */
  function Find(ps: seq<Product>, id: int): (r: Option<Product>)
    ensures r.Some? ==> r.value.id == id
  {
    if ps == [] then None
    else if ps[0].id == id then Some(ps[0])
    else Find(ps[1..], id)
  }

  /** The search fails exactly when no product has the id, and otherwise yields the first product that has it. */
  lemma {:induction false} FindFirstMatch(ps: seq<Product>, id: int)
    ensures Find(ps, id).None? <==> forall i :: 0 <= i < |ps| ==> ps[i].id != id
    ensures Find(ps, id).Some? ==>
      exists k :: 0 <= k < |ps| && ps[k] == Find(ps, id).value && forall j :: 0 <= j < k ==> ps[j].id != id
  {
    if ps != [] && ps[0].id != id {
      FindFirstMatch(ps[1..], id);
      assert forall i :: 0 < i < |ps| ==> ps[i] == ps[1..][i - 1];
      if Find(ps, id).Some? {
        var k :| 0 <= k < |ps[1..]| && ps[1..][k] == Find(ps, id).value && forall j :: 0 <= j < k ==> ps[1..][j].id != id;
        assert ps[k + 1] == Find(ps, id).value;
      }
    }
  }

  /** The catalog product with the given id, if there is one. */
  function Lookup(id: int): (r: Option<Product>)
    ensures r.Some? ==> r.value.id == id && r.value.price > 0
  {
    CatalogWellFormed();
    FindFirstMatch(Products, id);
    Find(Products, id)
  }

  /** The lookup finds exactly the catalog's products. */
  lemma LookupFindsCatalog(id: int)
    ensures Lookup(id).Some? <==> exists p :: p in Products && p.id == id
    ensures Lookup(id).Some? ==> Lookup(id).value in Products
  {
    FindFirstMatch(Products, id);
    if !Lookup(id).Some? {
      forall p | p in Products ensures p.id != id {
        var i :| 0 <= i < |Products| && Products[i] == p;
      }
    }
  }

  /** The catalog's ids being unique, the lookup of a catalog product's id yields that product. */
  lemma LookupCatalogProduct(p: Product)
    requires p in Products
    ensures Lookup(p.id) == Some(p)
  {
    CatalogWellFormed();
    LookupFindsCatalog(p.id);
    var k :| 0 <= k < |Products| && Products[k] == p;
    var q := Lookup(p.id).value;
    var m :| 0 <= m < |Products| && Products[m] == q;
    assert Products[k].id == Products[m].id;
    assert k == m;
  }

  /** The unit price a cart line is charged: the catalog price, or 0 for an id not in the catalog. */
  function PriceOf(id: int): (price: int)
    ensures price >= 0
    ensures price > 0 <==> Lookup(id).Some?
  {
    match Lookup(id)
    case Some(p) => p.price
    case None => 0
  }

  /** A catalog product is charged its catalog price. */
  lemma PriceOfCatalogProduct(p: Product)
    requires p in Products
    ensures PriceOf(p.id) == p.price
  {
    LookupCatalogProduct(p);
  }

  /** The products of `ps` whose category identifier is `selection`, in their order. */
  function FilterCategory(ps: seq<Product>, selection: string): (r: seq<Product>)
    ensures forall p :: p in r <==> p in ps && CategoryId(p.category) == selection
    ensures IsSubsequence(r, ps)
  {
    if ps == [] then []
    else
      var rest := FilterCategory(ps[1..], selection);
      assert ps == [ps[0]] + ps[1..];
      SubsequenceCons(rest, ps[0], ps[1..]);
      if CategoryId(ps[0].category) == selection then [ps[0]] + rest else rest
  }

  /** The category filter keeps every copy of a product of the selected category and no copy of any other. */
  lemma {:induction false} FilterCategoryCounts(ps: seq<Product>, selection: string)
    ensures forall p :: Count(FilterCategory(ps, selection), p) == (if CategoryId(p.category) == selection then Count(ps, p) else 0)
  {
    if ps != [] {
      FilterCategoryCounts(ps[1..], selection);
      var rest := FilterCategory(ps[1..], selection);
      if CategoryId(ps[0].category) == selection {
        assert ([ps[0]] + rest)[1..] == rest;
      }
    }
  }

  /**
   The products shown in the catalog tab: the whole catalog for the selection
   "all", otherwise the catalog's products of the selected category, in catalog order.
   */
  function FilteredProducts(selection: string): (r: seq<Product>)
    ensures selection == "all" ==> r == Products
    ensures selection != "all" ==> IsSubsequence(r, Products)
    ensures selection != "all" ==> forall p :: p in r <==> p in Products && CategoryId(p.category) == selection
  {
    if selection == "all" then Products else FilterCategory(Products, selection)
  }

  /** A selection that is neither "all" nor a category identifier shows no product. */
  lemma UnknownSelectionShowsNothing(selection: string)
    requires selection != "all"
    requires forall c: Category :: CategoryId(c) != selection
    ensures FilteredProducts(selection) == []
  {
  }

  /** The vase tab shows products 1 and 5, in that order. */
  lemma VaseSelection()
    ensures FilteredProducts("vase") == [Products[0], Products[4]]
  {
    assert FilterCategory(Products[5..], "vase") == [];
    assert FilterCategory(Products[4..], "vase") == [Products[4]];
    assert FilterCategory(Products[3..], "vase") == [Products[4]];
    assert FilterCategory(Products[2..], "vase") == [Products[4]];
    assert FilterCategory(Products[1..], "vase") == [Products[4]];
  }
}
