/**
 * The sales terminal (components/POSView.tsx): the product search, the
 * checkout handler that turns the cart into a transaction, the success
 * dialog reset, and the quick-add customer form.
 */
module Pos {
  import opened Wrappers
  import opened Types
  import opened Text
  import opened Seqs
  import opened Cart
  import opened Settlement

  /** The terminal's own state, together with the application's cart. */
  datatype PosSession = PosSession(
    cart: seq<CartItem>,
    discount: real,
    selectedCustomerId: Option<string>,
    showSuccess: bool,
    lastTransaction: Option<Transaction>)

  predicate MatchesCategory(p: Product, category: string) {
    category == "All" || p.category == category
  }

  predicate MatchesSearch(p: Product, query: string) {
    IncludesIgnoringCase(p.name, query) || IncludesIgnoringCase(p.sku, query)
  }

  function Shown(category: string, query: string): Product -> bool {
    (p: Product) => MatchesCategory(p, category) && MatchesSearch(p, query)
  }

  /**
   * `filteredProducts`: products in the chosen category whose name or SKU
   * contains the query, ignoring case, in catalogue order and each as often
   * as it is listed.
   */
  function FilterProducts(products: seq<Product>, category: string, query: string): (r: seq<Product>)
    ensures Filtered(r, products, Shown(category, query))
    ensures forall p | p in r :: p in products && MatchesCategory(p, category) && MatchesSearch(p, query)
    ensures forall p | p in products && MatchesCategory(p, category) && MatchesSearch(p, query) :: p in r
    ensures |r| <= |products|
  {
    FilterIsFiltered(products, Shown(category, query));
    Filter(products, Shown(category, query))
  }

  /** With category 'All' and an empty query the whole catalogue is listed. */
  lemma FilterProductsShowsAll(products: seq<Product>)
    ensures FilterProducts(products, "All", "") == products
  {
    forall i | 0 <= i < |products|
      ensures MatchesSearch(products[i], "")
    {
      IncludesEmpty(ToLower(products[i].name));
    }
    FilterAll(products, Shown("All", ""));
  }

  datatype CheckoutResult =
    | EmptyCart                     // nothing happens
    | CustomerRequired              // a Credit sale without a customer: alert, nothing happens
    | Sold(tx: Transaction)    // the transaction handed to `onCheckout`

  /** `selectedCustomerId || undefined` */
  function CustomerOf(selected: Option<string>): (r: Option<string>)
    ensures r.Some? <==> OptTruthy(selected)
    ensures r.Some? ==> r == selected
  {
    if OptTruthy(selected) then selected else None
  }

  /**
   * `handleCheckout`: an empty cart does nothing; a Credit sale without a
   * selected customer is refused; otherwise the emitted transaction carries a
   * copy of the cart, the computed total and tax, the discount, the payment
   * method, the selected customer if any, and `now` as time stamp and id.
   */
  function HandleCheckout(s: PosSession, pay: PaymentMethod, now: nat): (r: CheckoutResult)
    ensures r == EmptyCart <==> |s.cart| == 0
    ensures r == CustomerRequired <==> |s.cart| > 0 && pay == Credit && !OptTruthy(s.selectedCustomerId)
    ensures r.Sold? ==>
      && r.tx.id == "TX-" + NatToString(now)
      && r.tx.timestamp == now
      && r.tx.items == s.cart
      && r.tx.total == Totals(s.cart, s.discount).total
      && r.tx.total >= 0.0
      && r.tx.tax * 100.0 == Subtotal(s.cart) * 8.0
      && r.tx.discount == s.discount
      && r.tx.paymentMethod == pay
      && r.tx.customerId == CustomerOf(s.selectedCustomerId)
    ensures r.Sold? && pay == Credit ==> OptTruthy(r.tx.customerId)
  {
    if |s.cart| == 0 then EmptyCart
    else if pay == Credit && !OptTruthy(s.selectedCustomerId) then CustomerRequired
    else
      var t := Totals(s.cart, s.discount);
      Sold(Transaction("TX-" + NatToString(now), now, s.cart, t.total, t.tax, s.discount, pay,
                            CustomerOf(s.selectedCustomerId)))
  }

  /**
   * The terminal's checkout together with the shell's `saveTransaction`: a
   * refused or empty checkout leaves the store and the terminal untouched; a
   * completed one records the sale and opens the success dialog.
   */
  function Checkout(st: Store, s: PosSession, pay: PaymentMethod, now: nat): (r: (Store, PosSession))
    ensures !HandleCheckout(s, pay, now).Sold? ==> r == (st, s)
    ensures HandleCheckout(s, pay, now).Sold? ==>
      var tx := HandleCheckout(s, pay, now).tx;
      r.0 == SaveTransaction(st, tx, now) && r.1.showSuccess && r.1.lastTransaction == Some(tx) && r.1.cart == s.cart
  {
    match HandleCheckout(s, pay, now)
    case Sold(tx) => (SaveTransaction(st, tx, now), s.(showSuccess := true, lastTransaction := Some(tx)))
    case _ => (st, s)
  }

  /**
   * The customer a completed sale is booked to is the selected one, and a sale
   * made with no customer selected leaves every customer record as it was.
   */
  lemma CheckoutBooksSelectedCustomer(st: Store, s: PosSession, pay: PaymentMethod, now: nat)
    requires HandleCheckout(s, pay, now).Sold?
    ensures var tx := HandleCheckout(s, pay, now).tx;
      (tx.customerId.None? <==> !OptTruthy(s.selectedCustomerId)) &&
      (tx.customerId.Some? ==> tx.customerId == s.selectedCustomerId)
    ensures !OptTruthy(s.selectedCustomerId) ==> Checkout(st, s, pay, now).0.customers == st.customers
  {
  }

  /** A Credit checkout without a customer changes no product, customer or transaction. */
  lemma CreditWithoutCustomerChangesNothing(st: Store, s: PosSession, now: nat)
    requires !OptTruthy(s.selectedCustomerId)
    ensures Checkout(st, s, Credit, now).0 == st
  {
  }

  /** A checkout keeps every customer's balance owed and lifetime spend non-negative. */
  lemma CheckoutKeepsCustomersSound(st: Store, s: PosSession, pay: PaymentMethod, now: nat)
    requires CustomersSound(st.customers)
    ensures CustomersSound(Checkout(st, s, pay, now).0.customers)
  {
    if HandleCheckout(s, pay, now).Sold? {
      SaveTransactionKeepsCustomersSound(st, HandleCheckout(s, pay, now).tx, now);
    }
  }

  /** `closeSuccess`: clears the discount, the customer selection, the last sale and the cart. */
  function CloseSuccess(s: PosSession): (r: PosSession)
    ensures |r.cart| == 0 && r.discount == 0.0 && r.selectedCustomerId.None?
    ensures !r.showSuccess && r.lastTransaction.None?
  {
    PosSession([], 0.0, None, false, None)
  }

  /** After the success dialog closes, the totals are back to zero and a checkout does nothing. */
  lemma CloseSuccessResetsSale(s: PosSession, pay: PaymentMethod, now: nat)
    ensures var c := CloseSuccess(s);
      Totals(c.cart, c.discount) == CheckoutTotals(0.0, 0.0, 0.0) &&
      HandleCheckout(c, pay, now) == EmptyCart
  {
  }

  /**
   * `handleQuickAddSubmit` with the shell's `onQuickAddCustomer`: a name and a
   * phone are required; the new customer is appended with no email, nothing
   * spent, nothing owed, and `now` as id stamp and last visit.
   */
  function QuickAddCustomer(customers: seq<Customer>, name: string, phone: string, now: nat): (r: seq<Customer>)
    ensures !Truthy(name) || !Truthy(phone) ==> r == customers
    ensures Truthy(name) && Truthy(phone) ==>
      |r| == |customers| + 1 && r[..|customers|] == customers &&
      r[|customers|] == Customer("c-" + NatToString(now), name, "", phone, 0.0, 0.0, now)
    ensures CustomersSound(customers) ==> CustomersSound(r)
  {
    if !Truthy(name) || !Truthy(phone) then customers
    else customers + [Customer("c-" + NatToString(now), name, "", phone, 0.0, 0.0, now)]
  }
}
