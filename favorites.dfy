/**
 The favorites list: a sequence of product ids that a heart button toggles, and
 the favorites tab, which shows the catalog's products whose ids are favorites.
 */
module Favorites {
  import opened Sequences
  import opened Catalog

  /** The favorites with every occurrence of `id` dropped and the rest kept in order. */
  function Without(favs: seq<int>, id: int): (r: seq<int>)
    ensures forall x :: x in r <==> x in favs && x != id
    ensures IsSubsequence(r, favs)
    ensures id !in favs ==> r == favs
    ensures Distinct(favs) ==> Distinct(r)
  {
    if favs == [] then []
    else
      var rest := Without(favs[1..], id);
      assert favs == [favs[0]] + favs[1..];
      SubsequenceCons(rest, favs[0], favs[1..]);
      DistinctCons(favs[0], favs[1..]);
      DistinctCons(favs[0], rest);
      if favs[0] == id then rest else [favs[0]] + rest
  }

  /** The filter keeps every copy of every other id: the list shrinks by the occurrences of `id` alone. */
  lemma {:induction false} WithoutCounts(favs: seq<int>, id: int)
    ensures forall x :: Count(Without(favs, id), x) == (if x == id then 0 else Count(favs, x))
    ensures |Without(favs, id)| == |favs| - Count(favs, id)
  {
    if favs != [] {
      WithoutCounts(favs[1..], id);
      var rest := Without(favs[1..], id);
      if favs[0] != id {
        assert ([favs[0]] + rest)[1..] == rest;
      }
    }
  }

  /** Dropping `id` from a list with one more id at the end. */
  lemma {:induction false} WithoutSnoc(favs: seq<int>, x: int, id: int)
    ensures Without(favs + [x], id) == Without(favs, id) + (if x == id then [] else [x])
  {
    if favs == [] {
      assert favs + [x] == [x];
    } else {
      assert (favs + [x])[0] == favs[0];
      assert (favs + [x])[1..] == favs[1..] + [x];
      WithoutSnoc(favs[1..], x, id);
      var rest := Without(favs[1..], id);
      var tail := if x == id then [] else [x];
      assert [favs[0]] + (rest + tail) == ([favs[0]] + rest) + tail;
    }
  }

  /** The favorites after a heart-button press on `id`: removed when present, else appended. */
  function Toggle(favs: seq<int>, id: int): (r: seq<int>)
    ensures id in r <==> id !in favs
    ensures forall x :: x != id ==> (x in r <==> x in favs)
  {
    if id in favs then Without(favs, id) else favs + [id]
  }

  /** A toggle keeps a duplicate-free favorites list duplicate-free. */
  lemma ToggleKeepsDistinct(favs: seq<int>, id: int)
    requires Distinct(favs)
    ensures Distinct(Toggle(favs, id))
  {
    DistinctSnoc(favs, id);
  }

  /** Two presses on the same heart restore every id's membership, and the list itself when `id` was absent. */
  lemma ToggleTwice(favs: seq<int>, id: int)
    ensures forall x :: x in Toggle(Toggle(favs, id), id) <==> x in favs
    ensures id !in favs ==> Toggle(Toggle(favs, id), id) == favs
  {
    if id !in favs {
      WithoutSnoc(favs, id, id);
    }
  }

  /** The favorites after one press per element of `ids`, in order. */
  function ToggleAll(favs: seq<int>, ids: seq<int>): seq<int>
    decreases ids
  {
    if ids == [] then favs else ToggleAll(Toggle(favs, ids[0]), ids[1..])
  }

  /** However many presses, a duplicate-free favorites list stays duplicate-free. */
  lemma {:induction false} ToggleAllKeepsDistinct(favs: seq<int>, ids: seq<int>)
    requires Distinct(favs)
    ensures Distinct(ToggleAll(favs, ids))
    decreases ids
  {
    if ids != [] {
      ToggleKeepsDistinct(favs, ids[0]);
      ToggleAllKeepsDistinct(Toggle(favs, ids[0]), ids[1..]);
    }
  }

  /** After a run of presses, `x` is a favorite exactly when it started as one xor it was pressed an odd number of times. */
  lemma {:induction false} ToggleParity(favs: seq<int>, ids: seq<int>, x: int)
    ensures x in ToggleAll(favs, ids) <==> (x in favs) != (Count(ids, x) % 2 == 1)
    decreases ids
  {
    if ids != [] {
      var next := Toggle(favs, ids[0]);
      ToggleParity(next, ids[1..], x);
      ParityStep(ids, x);
    }
  }

  /** One press moves the parity of the remaining presses by one when it is a press on `x`. */
  lemma ParityStep(ids: seq<int>, x: int)
    requires ids != []
    ensures (Count(ids, x) % 2 == 1) == ((ids[0] == x) != (Count(ids[1..], x) % 2 == 1))
  {
  }

  /** The products of `ps` whose ids are among `favs`, in their order. */
  function FilterFavorites(ps: seq<Product>, favs: seq<int>): (r: seq<Product>)
    ensures forall p :: p in r <==> p in ps && p.id in favs
    ensures IsSubsequence(r, ps)
  {
    if ps == [] then []
    else
      var rest := FilterFavorites(ps[1..], favs);
      assert ps == [ps[0]] + ps[1..];
      SubsequenceCons(rest, ps[0], ps[1..]);
      if ps[0].id in favs then [ps[0]] + rest else rest
  }

  /** The filter keeps every copy of a product whose id is a favorite and no copy of any other. */
  lemma {:induction false} FilterFavoritesCounts(ps: seq<Product>, favs: seq<int>)
    ensures forall p :: Count(FilterFavorites(ps, favs), p) == (if p.id in favs then Count(ps, p) else 0)
  {
    if ps != [] {
      FilterFavoritesCounts(ps[1..], favs);
      var rest := FilterFavorites(ps[1..], favs);
      if ps[0].id in favs {
        assert ([ps[0]] + rest)[1..] == rest;
      }
    }
  }

  /** The filter reads only which ids are favorites, not their order or repetition. */
  lemma {:induction false} FilterFavoritesByMembership(ps: seq<Product>, f1: seq<int>, f2: seq<int>)
    requires forall x :: x in f1 <==> x in f2
    ensures FilterFavorites(ps, f1) == FilterFavorites(ps, f2)
  {
    if ps != [] {
      FilterFavoritesByMembership(ps[1..], f1, f2);
    }
  }

  /** The favorites tab: the catalog's products whose ids are favorites, in catalog order. */
  function FavoriteProducts(favs: seq<int>): (r: seq<Product>)
    ensures IsSubsequence(r, Products)
    ensures forall p :: p in r <==> p in Products && p.id in favs
  {
    FilterFavorites(Products, favs)
  }

  /** Pressing two hearts in either order yields the same favorites tab. */
  lemma ToggleOrderIrrelevant(favs: seq<int>, a: int, b: int)
    ensures FavoriteProducts(Toggle(Toggle(favs, a), b)) == FavoriteProducts(Toggle(Toggle(favs, b), a))
  {
    FilterFavoritesByMembership(Products, Toggle(Toggle(favs, a), b), Toggle(Toggle(favs, b), a));
  }

  /** Pressing the hearts of products 5 and then 1 leaves the list [5, 1]. */
  lemma PressFiveThenOne()
    ensures ToggleAll([], [5, 1]) == [5, 1]
  {
    assert Toggle([], 5) == [5];
    assert Toggle([5], 1) == [5, 1];
    assert [5, 1][1..] == [1];
    assert ToggleAll([5], [1]) == ToggleAll([5, 1], []);
  }

  /** With favorites [5, 1] the tab shows product 1 before product 5. */
  lemma FavoritesInCatalogOrder()
    ensures FavoriteProducts(ToggleAll([], [5, 1])) == [Products[0], Products[4]]
  {
    PressFiveThenOne();
    FavoritesFiveOneTail();
    assert FilterFavorites(Products[1..], [5, 1]) == [Products[4]];
  }

  /** Among products 3 to 6 only product 5 is among the favorites [5, 1]. */
  lemma FavoritesFiveOneTail()
    ensures FilterFavorites(Products[2..], [5, 1]) == [Products[4]]
  {
    assert FilterFavorites(Products[5..], [5, 1]) == [];
    assert FilterFavorites(Products[4..], [5, 1]) == [Products[4]];
    assert FilterFavorites(Products[3..], [5, 1]) == [Products[4]];
  }
}
