/**
 The shopping cart: a sequence of lines, each a product id with a quantity, the
 three updates the cart buttons apply to it, and the two views derived from it
 (the cart total and the cart's products joined with the catalog).
 */
module Cart {
  import opened Sequences
  import opened Catalog

  /** One cart line: a product id and how many of that product are in the cart. */
  datatype Line = Line(id: int, quantity: int)

  /** The product ids of the cart's lines, in cart order. */
  function Ids(cart: seq<Line>): (r: seq<int>)
    ensures |r| == |cart|
    ensures forall i :: 0 <= i < |cart| ==> r[i] == cart[i].id
  {
    if cart == [] then [] else [cart[0].id] + Ids(cart[1..])
  }

  /** The ids of two carts laid end to end are their ids laid end to end. */
  lemma IdsAppend(a: seq<Line>, b: seq<Line>)
    ensures Ids(a + b) == Ids(a) + Ids(b)
  {
  }

  /** The cart invariant: at most one line per product id, and every quantity at least 1. */
  predicate WellFormed(cart: seq<Line>) {
    Distinct(Ids(cart)) && forall i :: 0 <= i < |cart| ==> cart[i].quantity >= 1
  }

  /** Every line's id names a catalog product. */
  predicate InCatalog(cart: seq<Line>) {
    forall i :: 0 <= i < |cart| ==> Lookup(cart[i].id).Some?
  }

  /** Every line of product `id` with its quantity one higher; the other lines as they were. */
  function Increment(cart: seq<Line>, id: int): (r: seq<Line>)
    ensures |r| == |cart|
    ensures forall i :: 0 <= i < |cart| ==>
      r[i].id == cart[i].id && r[i].quantity == cart[i].quantity + (if cart[i].id == id then 1 else 0)
  {
    if cart == [] then []
    else
      var line := if cart[0].id == id then cart[0].(quantity := cart[0].quantity + 1) else cart[0];
      [line] + Increment(cart[1..], id)
  }

  /**
   The cart after the "add to cart" button of product `id`: the quantity of a
   line already holding `id` goes up by one, otherwise a line with quantity 1 is
   appended at the end.
   */
  function AddLine(cart: seq<Line>, id: int): (r: seq<Line>)
    ensures id in Ids(cart) ==> |r| == |cart| && Ids(r) == Ids(cart)
    ensures id in Ids(cart) ==> forall i :: 0 <= i < |cart| ==>
      r[i].quantity == cart[i].quantity + (if cart[i].id == id then 1 else 0)
    ensures id !in Ids(cart) ==> |r| == |cart| + 1 && r[..|cart|] == cart && r[|cart|] == Line(id, 1)
    ensures WellFormed(cart) ==> WellFormed(r)
    ensures InCatalog(cart) && Lookup(id).Some? ==> InCatalog(r)
  {
    if id in Ids(cart) then
      Increment(cart, id)
    else
      IdsAppend(cart, [Line(id, 1)]);
      assert Ids([Line(id, 1)]) == [id];
      DistinctSnoc(Ids(cart), id);
      cart + [Line(id, 1)]
  }

  /** In a well-formed cart, adding a product leaves exactly one line for it. */
  lemma AddLineSingleLine(cart: seq<Line>, id: int)
    requires WellFormed(cart)
    ensures Count(Ids(AddLine(cart, id)), id) == 1
  {
    DistinctCount(Ids(AddLine(cart, id)), id);
  }

  /** The cart after the remove button of product `id`: the lines of the other products, in cart order. */
  function RemoveLine(cart: seq<Line>, id: int): (r: seq<Line>)
    ensures id !in Ids(r)
    ensures forall l :: l in r <==> l in cart && l.id != id
    ensures IsSubsequence(r, cart)
    ensures id !in Ids(cart) ==> r == cart
  {
    if cart == [] then []
    else
      var rest := RemoveLine(cart[1..], id);
      assert cart == [cart[0]] + cart[1..];
      SubsequenceCons(rest, cart[0], cart[1..]);
      assert Ids(cart) == [cart[0].id] + Ids(cart[1..]);
      if cart[0].id == id then rest
      else
        assert Ids([cart[0]] + rest) == [cart[0].id] + Ids(rest);
        [cart[0]] + rest
  }

  /** The removal keeps every copy of every line of another product: one line fewer per line of `id`. */
  lemma {:induction false} RemoveLineCounts(cart: seq<Line>, id: int)
    ensures forall l :: Count(RemoveLine(cart, id), l) == (if l.id == id then 0 else Count(cart, l))
    ensures |RemoveLine(cart, id)| == |cart| - Count(Ids(cart), id)
  {
    if cart != [] {
      RemoveLineCounts(cart[1..], id);
      var rest := RemoveLine(cart[1..], id);
      assert Ids(cart)[1..] == Ids(cart[1..]);
      if cart[0].id != id {
        assert RemoveLine(cart, id) == [cart[0]] + rest;
        assert ([cart[0]] + rest)[1..] == rest;
      }
    }
  }

  /** Removing a product's lines keeps the cart invariant. */
  lemma {:induction false} RemoveLineKeepsWellFormed(cart: seq<Line>, id: int)
    requires WellFormed(cart)
    ensures WellFormed(RemoveLine(cart, id))
  {
    if cart != [] {
      var first, tail := cart[0], cart[1..];
      assert WellFormed(tail) && first.id !in Ids(tail) by {
        assert Ids(cart) == [first.id] + Ids(tail);
        DistinctCons(first.id, Ids(tail));
        forall i | 0 <= i < |tail| ensures tail[i].quantity >= 1 {
          assert tail[i] == cart[i + 1];
        }
      }
      RemoveLineKeepsWellFormed(tail, id);
      var rest := RemoveLine(tail, id);
      if first.id != id {
        RemoveLineIds(tail, id, first.id);
        var r := [first] + rest;
        assert Distinct(Ids(r)) by {
          assert Ids(r) == [first.id] + Ids(rest);
          DistinctCons(first.id, Ids(rest));
        }
        forall i | 0 <= i < |r| ensures r[i].quantity >= 1 {
          if i > 0 { assert r[i] == rest[i - 1]; }
        }
        assert RemoveLine(cart, id) == r;
      }
    }
  }

  /** A removal introduces no id: an id without a line before has none after. */
  lemma RemoveLineIds(cart: seq<Line>, id: int, x: int)
    requires x !in Ids(cart)
    ensures x !in Ids(RemoveLine(cart, id))
  {
    var rest := RemoveLine(cart, id);
    forall k | 0 <= k < |rest| ensures Ids(rest)[k] != x {
      assert rest[k] in cart;
      var j :| 0 <= j < |cart| && cart[j] == rest[k];
      assert Ids(cart)[j] == rest[k].id;
    }
  }

  /** Removing a product's lines keeps every line in the catalog. */
  lemma RemoveLineKeepsInCatalog(cart: seq<Line>, id: int)
    requires InCatalog(cart)
    ensures InCatalog(RemoveLine(cart, id))
  {
    var r := RemoveLine(cart, id);
    forall i | 0 <= i < |r| ensures Lookup(r[i].id).Some? {
      assert r[i] in cart;
    }
  }

  /** Every line of product `id` with its quantity replaced by `quantity`; the other lines as they were. */
  function SetQuantity(cart: seq<Line>, id: int, quantity: int): (r: seq<Line>)
    ensures |r| == |cart|
    ensures forall i :: 0 <= i < |cart| ==>
      r[i].id == cart[i].id && r[i].quantity == (if cart[i].id == id then quantity else cart[i].quantity)
  {
    if cart == [] then []
    else
      var line := if cart[0].id == id then cart[0].(quantity := quantity) else cart[0];
      [line] + SetQuantity(cart[1..], id, quantity)
  }

  /**
   The cart after the quantity buttons ask for `quantity` of product `id`: below
   1 the line is removed, otherwise the matching line's quantity becomes `quantity`.
   */
  function UpdateQuantity(cart: seq<Line>, id: int, quantity: int): (r: seq<Line>)
    ensures quantity < 1 ==> r == RemoveLine(cart, id)
    ensures quantity >= 1 ==> |r| == |cart| && Ids(r) == Ids(cart)
    ensures quantity >= 1 ==> forall i :: 0 <= i < |cart| ==>
      r[i].quantity == (if cart[i].id == id then quantity else cart[i].quantity)
  {
    if quantity < 1 then RemoveLine(cart, id) else SetQuantity(cart, id, quantity)
  }

  /** A quantity change never adds a line: for a product without a line the cart is unchanged. */
  lemma UpdateQuantityAbsent(cart: seq<Line>, id: int, quantity: int)
    requires id !in Ids(cart)
    ensures UpdateQuantity(cart, id, quantity) == cart
  {
    if quantity >= 1 {
      SetQuantityAbsent(cart, id, quantity);
    }
  }

  /** A quantity change keeps the cart invariant, and keeps a cart of catalog products one. */
  lemma UpdateQuantityKeepsInvariants(cart: seq<Line>, id: int, quantity: int)
    ensures WellFormed(cart) ==> WellFormed(UpdateQuantity(cart, id, quantity))
    ensures InCatalog(cart) ==> InCatalog(UpdateQuantity(cart, id, quantity))
  {
    var r := UpdateQuantity(cart, id, quantity);
    if quantity < 1 {
      if WellFormed(cart) { RemoveLineKeepsWellFormed(cart, id); }
      if InCatalog(cart) { RemoveLineKeepsInCatalog(cart, id); }
    } else {
      assert Ids(r) == Ids(cart);
    }
  }

  /** The amount one line adds to the total: its product's price, or 0 for an unknown id, times its quantity. */
  function LineTotal(line: Line): int {
    PriceOf(line.id) * line.quantity
  }

  /**
   The cart total shown under the cart: the sum of the line totals, written as
   a right fold (the first line's total plus the total of the rest).
   */
  function CartTotal(cart: seq<Line>): int {
    if cart == [] then 0 else LineTotal(cart[0]) + CartTotal(cart[1..])
  }

  /**
   The page's `reduce` over the cart: a left fold that adds each line's total
   to the running sum `acc`, first line first.
   */
  function ReduceTotal(acc: int, cart: seq<Line>): int
    decreases cart
  {
    if cart == [] then acc else ReduceTotal(acc + LineTotal(cart[0]), cart[1..])
  }

  /** The left fold started at `acc` ends at `acc` plus the right-fold total, so from 0 the two agree. */
  lemma {:induction false} ReduceTotalIsCartTotal(acc: int, cart: seq<Line>)
    ensures ReduceTotal(acc, cart) == acc + CartTotal(cart)
    decreases cart
  {
    if cart != [] {
      var next := acc + LineTotal(cart[0]);
      ReduceTotalIsCartTotal(next, cart[1..]);
      assert ReduceTotal(acc, cart) == ReduceTotal(next, cart[1..]);
      assert CartTotal(cart) == LineTotal(cart[0]) + CartTotal(cart[1..]);
    }
  }

  /** The sum of the quantities of the lines holding `id` (the line's quantity in a well-formed cart). */
  function QuantityOf(cart: seq<Line>, id: int): int {
    if cart == [] then 0 else (if cart[0].id == id then cart[0].quantity else 0) + QuantityOf(cart[1..], id)
  }

  /**
   Distributivity and the sign of a product, stated as lemmas so that the
   proofs about totals can name the one nonlinear step they need.
   */
  lemma Distribute(a: int, b: int, c: int)
    ensures a * (b + c) == a * b + a * c
  {
  }

  lemma NonNegativeProduct(a: int, b: int)
    requires a >= 0 && b >= 0
    ensures a * b >= 0
  {
  }

  /** Incrementing the lines of `id` raises the total by the price of `id` once per such line. */
  lemma {:induction false} IncrementTotal(cart: seq<Line>, id: int)
    ensures CartTotal(Increment(cart, id)) == CartTotal(cart) + PriceOf(id) * Count(Ids(cart), id)
  {
    if cart != [] {
      IncrementTotal(cart[1..], id);
      IncrementTotalStep(cart, id);
      IdsCount(cart, id);
      PriceTimesCount(PriceOf(id), cart[0].id == id, Count(Ids(cart[1..]), id), Count(Ids(cart), id));
    }
  }

  /**
   One more line of the product adds one more price: the multiplication is
   stated on the count `n` itself, so that no product has to be rewritten.
   */
  lemma PriceTimesCount(price: int, hit: bool, c: int, n: int)
    requires n == (if hit then 1 else 0) + c
    ensures price * n == (if hit then price else 0) + price * c
  {
    if hit {
      Distribute(price, 1, c);
    }
  }

  /** The first line's share of the incremented total: its old value, plus the price when it holds `id`. */
  lemma {:induction false} IncrementTotalStep(cart: seq<Line>, id: int)
    requires cart != []
    ensures CartTotal(Increment(cart, id))
      == LineTotal(cart[0]) + (if cart[0].id == id then PriceOf(id) else 0) + CartTotal(Increment(cart[1..], id))
  {
    var r := Increment(cart, id);
    assert r[1..] == Increment(cart[1..], id);
    if cart[0].id == id {
      assert r[0] == Line(id, cart[0].quantity + 1);
      Distribute(PriceOf(id), cart[0].quantity, 1);
    } else {
      assert r[0] == cart[0];
    }
  }

  /** Counting `id` among the line ids, one line at a time. */
  lemma {:induction false} IdsCount(cart: seq<Line>, id: int)
    requires cart != []
    ensures Count(Ids(cart), id) == (if cart[0].id == id then 1 else 0) + Count(Ids(cart[1..]), id)
  {
    assert Ids(cart)[1..] == Ids(cart[1..]);
  }

  /** A line appended at the end adds its own value to the total. */
  lemma {:induction false} CartTotalAppend(cart: seq<Line>, line: Line)
    ensures CartTotal(cart + [line]) == CartTotal(cart) + LineTotal(line)
  {
    if cart == [] {
      assert cart + [line] == [line];
    } else {
      assert (cart + [line])[1..] == cart[1..] + [line];
      CartTotalAppend(cart[1..], line);
    }
  }

  /** In a well-formed cart, "add to cart" raises the total by exactly the product's price. */
  lemma AddLineTotal(cart: seq<Line>, id: int)
    requires WellFormed(cart)
    ensures CartTotal(AddLine(cart, id)) == CartTotal(cart) + PriceOf(id)
  {
    if id in Ids(cart) {
      IncrementTotal(cart, id);
      DistinctCount(Ids(cart), id);
      assert PriceOf(id) * Count(Ids(cart), id) == PriceOf(id) * 1;
    } else {
      CartTotalAppend(cart, Line(id, 1));
      assert LineTotal(Line(id, 1)) == PriceOf(id) * 1;
    }
  }

  /** Removing the lines of `id` lowers the total by their value. */
  lemma {:induction false} RemoveLineTotal(cart: seq<Line>, id: int)
    ensures CartTotal(RemoveLine(cart, id)) == CartTotal(cart) - PriceOf(id) * QuantityOf(cart, id)
  {
    if cart != [] {
      RemoveLineTotal(cart[1..], id);
      var rest := RemoveLine(cart[1..], id);
      var price := PriceOf(id);
      var s := QuantityOf(cart[1..], id);
      if cart[0].id == id {
        assert RemoveLine(cart, id) == rest;
        assert QuantityOf(cart, id) == cart[0].quantity + s;
        assert LineTotal(cart[0]) == price * cart[0].quantity;
        Distribute(price, cart[0].quantity, s);
      } else {
        assert RemoveLine(cart, id) == [cart[0]] + rest;
        assert ([cart[0]] + rest)[1..] == rest;
        assert QuantityOf(cart, id) == s;
      }
    }
  }

  /** In a well-formed cart, setting the quantity of the line at `k` replaces that line's value by the new one. */
  lemma {:induction false} SetQuantityTotal(cart: seq<Line>, id: int, quantity: int, k: nat)
    requires WellFormed(cart) && k < |cart| && cart[k].id == id
    ensures CartTotal(SetQuantity(cart, id, quantity)) == CartTotal(cart) - LineTotal(cart[k]) + LineTotal(Line(id, quantity))
  {
    var r := SetQuantity(cart, id, quantity);
    assert r[1..] == SetQuantity(cart[1..], id, quantity);
    assert Ids(cart) == [cart[0].id] + Ids(cart[1..]);
    DistinctCons(cart[0].id, Ids(cart[1..]));
    if k == 0 {
      assert r[0] == Line(id, quantity);
      assert SetQuantity(cart[1..], id, quantity) == cart[1..] by {
        assert id !in Ids(cart[1..]);
        SetQuantityAbsent(cart[1..], id, quantity);
      }
    } else {
      assert Ids(cart)[0] != Ids(cart)[k];
      assert r[0] == cart[0];
      assert WellFormed(cart[1..]) by {
        forall i | 0 <= i < |cart[1..]| ensures cart[1..][i].quantity >= 1 {
          assert cart[1..][i] == cart[i + 1];
        }
      }
      assert cart[1..][k - 1] == cart[k];
      SetQuantityTotal(cart[1..], id, quantity, k - 1);
    }
  }

  /** Setting the quantity of a product that has no line changes nothing. */
  lemma {:induction false} SetQuantityAbsent(cart: seq<Line>, id: int, quantity: int)
    requires id !in Ids(cart)
    ensures SetQuantity(cart, id, quantity) == cart
  {
    if cart != [] {
      assert Ids(cart)[1..] == Ids(cart[1..]);
      assert Ids(cart)[0] == cart[0].id;
      SetQuantityAbsent(cart[1..], id, quantity);
      assert cart == [cart[0]] + cart[1..];
    }
  }

  /** With quantities of at least 0 (in particular in a well-formed cart) the total is never negative. */
  lemma {:induction false} CartTotalNonNegative(cart: seq<Line>)
    requires forall i :: 0 <= i < |cart| ==> cart[i].quantity >= 0
    ensures CartTotal(cart) >= 0
  {
    if cart != [] {
      assert forall i :: 0 <= i < |cart[1..]| ==> cart[1..][i] == cart[i + 1];
      CartTotalNonNegative(cart[1..]);
      NonNegativeProduct(PriceOf(cart[0].id), cart[0].quantity);
    }
  }

  /** A catalog product together with its line's quantity, as the cart panel lists it. */
  datatype CartItem = CartItem(product: Product, quantity: int)

  /** The cart's lines joined with their catalog products, in cart order. */
  function CartProducts(cart: seq<Line>): (r: seq<CartItem>)
    requires InCatalog(cart)
    ensures |r| == |cart|
    ensures forall i :: 0 <= i < |cart| ==>
      r[i].product.id == cart[i].id && r[i].product.price == PriceOf(cart[i].id) && r[i].quantity == cart[i].quantity
  {
    if cart == [] then []
    else
      assert forall i :: 0 <= i < |cart[1..]| ==> cart[1..][i] == cart[i + 1];
      [CartItem(Lookup(cart[0].id).value, cart[0].quantity)] + CartProducts(cart[1..])
  }

  /** Every joined product is the catalog's entry for its line. */
  lemma CartProductsFromCatalog(cart: seq<Line>)
    requires InCatalog(cart)
    ensures forall i :: 0 <= i < |cart| ==> CartProducts(cart)[i].product in Products
  {
    forall i | 0 <= i < |cart| ensures CartProducts(cart)[i].product in Products {
      CartProductAt(cart, i);
      LookupFindsCatalog(cart[i].id);
    }
  }

  /** The entry at `i` of the joined view holds the catalog product of line `i`. */
  lemma {:induction false} CartProductAt(cart: seq<Line>, i: nat)
    requires InCatalog(cart) && i < |cart|
    ensures |CartProducts(cart)| == |cart| && CartProducts(cart)[i].product == Lookup(cart[i].id).value
  {
    var tail := cart[1..];
    assert InCatalog(tail) by {
      forall k | 0 <= k < |tail| ensures Lookup(tail[k].id).Some? {
        assert tail[k] == cart[k + 1];
      }
    }
    var items := CartProducts(cart);
    assert items == [CartItem(Lookup(cart[0].id).value, cart[0].quantity)] + CartProducts(tail);
    if i > 0 {
      CartProductAt(tail, i - 1);
      assert tail[i - 1] == cart[i];
      assert items[i] == CartProducts(tail)[i - 1];
    }
  }

  /** The sum of price times quantity over joined cart items. */
  function ItemsTotal(items: seq<CartItem>): int {
    if items == [] then 0 else items[0].product.price * items[0].quantity + ItemsTotal(items[1..])
  }

  /** When every line is in the catalog, the total agrees with the joined view: the zero fallback never applies. */
  lemma {:induction false} CartTotalMatchesCartProducts(cart: seq<Line>)
    requires InCatalog(cart)
    ensures CartTotal(cart) == ItemsTotal(CartProducts(cart))
  {
    if cart != [] {
      assert forall i :: 0 <= i < |cart[1..]| ==> cart[1..][i] == cart[i + 1];
      CartTotalMatchesCartProducts(cart[1..]);
      var items := CartProducts(cart);
      assert items[1..] == CartProducts(cart[1..]);
      assert PriceOf(cart[0].id) == items[0].product.price;
    }
  }

  /** Two presses of "add to cart" on a product not yet in the cart leave one line with quantity 2. */
  lemma AddTwice(cart: seq<Line>, id: int)
    requires id !in Ids(cart)
    ensures AddLine(AddLine(cart, id), id) == cart + [Line(id, 2)]
  {
    var once := AddLine(cart, id);
    assert Ids(once)[|cart|] == id;
    var twice := AddLine(once, id);
    assert |twice| == |cart| + 1;
    forall i | 0 <= i < |cart| + 1 ensures twice[i] == (cart + [Line(id, 2)])[i] {
      if i < |cart| {
        assert once[i] == cart[i];
        assert Ids(cart)[i] == cart[i].id;
      }
    }
  }

  /** Asking for quantity 0 right after adding a product new to the cart restores the cart. */
  lemma RemoveAfterAdd(cart: seq<Line>, id: int)
    requires id !in Ids(cart)
    ensures UpdateQuantity(AddLine(cart, id), id, 0) == cart
  {
    var once := AddLine(cart, id);
    assert once == cart + [Line(id, 1)];
    RemoveLineSnoc(cart, Line(id, 1), id);
  }

  /** Removing `id` from a cart with one more line at the end. */
  lemma {:induction false} RemoveLineSnoc(cart: seq<Line>, line: Line, id: int)
    ensures RemoveLine(cart + [line], id) == RemoveLine(cart, id) + (if line.id == id then [] else [line])
  {
    if cart == [] {
      assert cart + [line] == [line];
    } else {
      assert (cart + [line])[1..] == cart[1..] + [line];
      RemoveLineSnoc(cart[1..], line, id);
      var rest := RemoveLine(cart[1..], id);
      var tail := if line.id == id then [] else [line];
      assert [cart[0]] + (rest + tail) == ([cart[0]] + rest) + tail;
    }
  }
}
