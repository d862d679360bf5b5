/**
 * The shopping cart held by the application shell (App.tsx) and the checkout
 * totals the terminal computes from it (components/POSView.tsx).
 */
module Cart {
  import opened Types
  import opened Seqs

  /** The sales tax rate: a fixed 8%. */
  const TaxRate: real := 8.0 / 100.0

  predicate InCart(cart: seq<CartItem>, id: string) {
    exists i | 0 <= i < |cart| :: cart[i].id() == id
  }

  /** No two lines of the cart are for the same product id. */
  ghost predicate UniqueIds(cart: seq<CartItem>) {
    forall i, j | 0 <= i < j < |cart| :: cart[i].id() != cart[j].id()
  }

  function LineAmount(item: CartItem): real {
    item.price() * item.quantity as real
  }

  function Units(item: CartItem): real {
    item.quantity as real
  }

  /** Adds one unit to every line whose id is `id`. */
  function BumpLine(cart: seq<CartItem>, id: string): (r: seq<CartItem>)
    ensures |r| == |cart|
    ensures forall i | 0 <= i < |cart| :: r[i].product == cart[i].product
    ensures forall i | 0 <= i < |cart| ::
      r[i].quantity == if cart[i].id() == id then cart[i].quantity + 1 else cart[i].quantity
  {
    seq(|cart|, i requires 0 <= i < |cart| =>
      if cart[i].id() == id then cart[i].(quantity := cart[i].quantity + 1) else cart[i])
  }

  /**
   * `addToCart`: a product already in the cart gains one unit on its line;
   * any other product is appended as a new line of quantity 1.
   */
  function AddToCart(cart: seq<CartItem>, p: Product): (r: seq<CartItem>)
    ensures InCart(r, p.id)
    ensures UniqueIds(cart) ==> UniqueIds(r)
    ensures InCart(cart, p.id) ==> |r| == |cart|
    ensures InCart(cart, p.id) ==> forall i | 0 <= i < |cart| ::
      r[i].product == cart[i].product &&
      r[i].quantity == (if cart[i].id() == p.id then cart[i].quantity + 1 else cart[i].quantity)
    ensures !InCart(cart, p.id) ==> |r| == |cart| + 1 && r[..|cart|] == cart && r[|cart|] == CartItem(p, 1)
  {
    if InCart(cart, p.id) then BumpLine(cart, p.id)
    else
      var r := cart + [CartItem(p, 1)];
      assert r[|cart|].id() == p.id;
      r
  }

  /** With unique ids, adding a product already in the cart changes only its own line. */
  lemma AddExistingChangesOneLine(cart: seq<CartItem>, p: Product, k: nat)
    requires UniqueIds(cart)
    requires k < |cart| && cart[k].id() == p.id
    ensures var r := AddToCart(cart, p);
      |r| == |cart| && r[k] == cart[k].(quantity := cart[k].quantity + 1) &&
      forall i | 0 <= i < |cart| && i != k :: r[i] == cart[i]
  {
    assert InCart(cart, p.id);
    var r := AddToCart(cart, p);
    forall i | 0 <= i < |cart| && i != k
      ensures r[i] == cart[i]
    {
      if i < k {
        assert cart[i].id() != cart[k].id();
      } else {
        assert cart[k].id() != cart[i].id();
      }
    }
  }

  /** Adding a product already in the cart raises the unit count by exactly one. */
  lemma AddExistingUnits(cart: seq<CartItem>, p: Product, k: nat)
    requires UniqueIds(cart)
    requires k < |cart| && cart[k].id() == p.id
    ensures SumBy(AddToCart(cart, p), Units) == SumBy(cart, Units) + 1.0
  {
    AddExistingChangesOneLine(cart, p, k);
    SumByChangeAt(cart, AddToCart(cart, p), k, Units);
  }

  /** Adding a product already in the cart raises the subtotal by the unit price snapshotted on its line. */
  lemma AddExistingSubtotal(cart: seq<CartItem>, p: Product, k: nat)
    requires UniqueIds(cart)
    requires k < |cart| && cart[k].id() == p.id
    ensures Subtotal(AddToCart(cart, p)) == Subtotal(cart) + cart[k].price()
  {
    AddExistingChangesOneLine(cart, p, k);
    var r := AddToCart(cart, p);
    SumByChangeAt(cart, r, k, LineAmount);
    PriceTimesSuccessor(cart[k].price(), cart[k].quantity as real);
  }

  lemma PriceTimesSuccessor(a: real, b: real)
    ensures a * (b + 1.0) - a * b == a
  {
  }

  /** Adding a product not yet in the cart raises the unit count by one and the subtotal by its price. */
  lemma AddNewTotals(cart: seq<CartItem>, p: Product)
    requires !InCart(cart, p.id)
    ensures SumBy(AddToCart(cart, p), Units) == SumBy(cart, Units) + 1.0
    ensures Subtotal(AddToCart(cart, p)) == Subtotal(cart) + p.price
  {
    SumByAppend(cart, [CartItem(p, 1)], Units);
    SumByAppend(cart, [CartItem(p, 1)], LineAmount);
  }

  /**
   * The `updateQuantity` callback: changes the quantity of the line(s) with
   * this id by `delta`, never letting a line fall below one unit.
   */
  function UpdateQuantity(cart: seq<CartItem>, id: string, delta: int): (r: seq<CartItem>)
    ensures |r| == |cart|
    ensures forall i | 0 <= i < |cart| :: r[i].product == cart[i].product
    ensures forall i | 0 <= i < |cart| && cart[i].id() == id ::
      r[i].quantity >= 1 && (cart[i].quantity + delta >= 1 ==> r[i].quantity == cart[i].quantity + delta)
    ensures forall i | 0 <= i < |cart| && cart[i].id() != id :: r[i] == cart[i]
  {
    seq(|cart|, i requires 0 <= i < |cart| =>
      if cart[i].id() == id
      then cart[i].(quantity := if cart[i].quantity + delta < 1 then 1 else cart[i].quantity + delta)
      else cart[i])
  }

  /** Raising and then lowering a quantity by the same amount restores the cart, as long as no clamp applied. */
  lemma UpdateQuantityRoundTrip(cart: seq<CartItem>, id: string, delta: int)
    requires forall i | 0 <= i < |cart| && cart[i].id() == id :: cart[i].quantity >= 1 && cart[i].quantity + delta >= 1
    ensures UpdateQuantity(UpdateQuantity(cart, id, delta), id, -delta) == cart
  {
    var r := UpdateQuantity(UpdateQuantity(cart, id, delta), id, -delta);
    assert forall i | 0 <= i < |cart| :: r[i] == cart[i];
  }

  /** The lines `removeFromCart` keeps: those of every other product. */
  function OtherLine(id: string): CartItem -> bool {
    (x: CartItem) => x.id() != id
  }

  /**
   * The `removeFromCart` callback: drops every line with this id and keeps
   * the others, in their order and each once.
   */
  function RemoveFromCart(cart: seq<CartItem>, id: string): (r: seq<CartItem>)
    ensures Filtered(r, cart, OtherLine(id))
    ensures !InCart(r, id)
    ensures forall x | x in cart && x.id() != id :: x in r
    ensures forall x | x in r :: x in cart
    ensures |r| == |cart| - Count(cart, (x: CartItem) => x.id() == id)
  {
    FilterIsFiltered(cart, OtherLine(id));
    CountPartition(cart, OtherLine(id), (x: CartItem) => x.id() == id);
    Filter(cart, OtherLine(id))
  }

  /** Removing a product that was just added as a new line gives back the previous cart. */
  lemma AddThenRemove(cart: seq<CartItem>, p: Product)
    requires !InCart(cart, p.id)
    ensures RemoveFromCart(AddToCart(cart, p), p.id) == cart
  {
    FilterAppend(cart, [CartItem(p, 1)], OtherLine(p.id));
    FilterAll(cart, OtherLine(p.id));
  }

  /** `clearCart`: empties the cart after a sale. */
  function ClearCart(cart: seq<CartItem>): (r: seq<CartItem>)
    ensures |r| == 0
  {
    []
  }

  /** `cart.reduce((sum, item) => sum + item.price * item.quantity, 0)` */
  function Subtotal(cart: seq<CartItem>): real {
    SumBy(cart, LineAmount)
  }

  datatype CheckoutTotals = CheckoutTotals(subtotal: real, tax: real, total: real)

  /**
   * The terminal's totals: tax is 8% of the subtotal and the flat discount is
   * taken off the taxed amount, the total being clamped so it is never negative.
   */
  function Totals(cart: seq<CartItem>, discount: real): (r: CheckoutTotals)
    ensures r.subtotal == Subtotal(cart)
    ensures r.tax * 100.0 == r.subtotal * 8.0
    ensures r.total >= 0.0
    ensures r.subtotal * 108.0 / 100.0 - discount >= 0.0 ==> r.total == r.subtotal * 108.0 / 100.0 - discount
    ensures r.subtotal * 108.0 / 100.0 - discount < 0.0 ==> r.total == 0.0
  {
    var subtotal := Subtotal(cart);
    var tax := subtotal * TaxRate;
    var total := if subtotal + tax - discount < 0.0 then 0.0 else subtotal + tax - discount;
    CheckoutTotals(subtotal, tax, total)
  }

  /** A cart whose lines have non-negative prices and quantities has a non-negative subtotal, tax and pre-discount total. */
  lemma TotalsNonNegative(cart: seq<CartItem>, discount: real)
    requires forall i | 0 <= i < |cart| :: cart[i].price() >= 0.0 && cart[i].quantity >= 0
    requires discount >= 0.0
    ensures var t := Totals(cart, discount);
      t.subtotal >= 0.0 && t.tax >= 0.0 && t.total <= t.subtotal + t.tax
  {
    assert forall i | 0 <= i < |cart| :: LineAmount(cart[i]) >= 0.0;
    SumByNonNeg(cart, LineAmount);
  }

  /**
   * After `clearCart` no product is in the cart, the totals are zero for any
   * non-negative discount, and the next product added starts a fresh cart.
   */
  lemma ClearedCartStartsFresh(cart: seq<CartItem>, discount: real, p: Product)
    requires discount >= 0.0
    ensures forall id :: !InCart(ClearCart(cart), id)
    ensures Totals(ClearCart(cart), discount) == CheckoutTotals(0.0, 0.0, 0.0)
    ensures AddToCart(ClearCart(cart), p) == [CartItem(p, 1)]
  {
  }

  /** A larger discount never gives a larger total. */
  lemma TotalMonotoneInDiscount(cart: seq<CartItem>, d1: real, d2: real)
    requires d1 <= d2
    ensures Totals(cart, d2).total <= Totals(cart, d1).total
  {
  }
}
