/**
 * Settlement rules of the application shell (App.tsx): recording a sale
 * (`saveTransaction`) and processing a return (`handleProcessReturn`). Each
 * is a pure function from the old collections to the new ones.
 */
module Settlement {
  import opened Wrappers
  import opened Types
  import opened Text
  import opened Seqs

  /** The collections the settlement rules keep consistent. */
  datatype Store = Store(
    products: seq<Product>,
    customers: seq<Customer>,
    transactions: seq<Transaction>,
    appReturns: seq<AppReturn>)

  /** Every customer owes a non-negative balance and has a non-negative lifetime spend. */
  ghost predicate CustomersSound(cs: seq<Customer>) {
    forall i | 0 <= i < |cs| :: cs[i].creditBalance >= 0.0 && cs[i].totalSpent >= 0.0
  }

  /** `transaction.items.find(i => i.id === id)` */
  function SaleLine(tx: Transaction, id: string): Option<CartItem> {
    Find(tx.items, (i: CartItem) => i.id() == id)
  }

  /** `newReturn.items.find(i => i.productId === id)` */
  function ReturnedLine(ret: AppReturn, id: string): Option<ReturnLine> {
    Find(ret.items, (l: ReturnLine) => l.productId == id)
  }

  /** `transactions.find(t => t.id === id)` */
  function FindTransaction(txs: seq<Transaction>, id: string): Option<Transaction> {
    Find(txs, (t: Transaction) => t.id == id)
  }

  function SellFrom(p: Product, tx: Transaction): Product {
    match SaleLine(tx, p.id)
    case Some(item) => p.(stock := p.stock - item.quantity)
    case None => p
  }

  function ChargeCustomer(c: Customer, tx: Transaction, now: int): Customer {
    c.(totalSpent := c.totalSpent + tx.total,
       creditBalance := if tx.paymentMethod == Credit then c.creditBalance + tx.total else c.creditBalance,
       lastVisit := now)
  }

  /**
   * `saveTransaction`: the sale goes to the head of the ledger; every product
   * named by a sale line loses that line's quantity of stock (no clamp at 0);
   * when the sale names a customer, that customer's lifetime spend grows by
   * the total, the balance owed grows by the total for a Credit sale only, and
   * the last visit becomes `now`.
   */
  function SaveTransaction(st: Store, tx: Transaction, now: int): (r: Store)
    ensures |r.transactions| == |st.transactions| + 1
    ensures r.transactions[0] == tx && r.transactions[1..] == st.transactions
    ensures r.appReturns == st.appReturns
    ensures |r.products| == |st.products|
    ensures forall i | 0 <= i < |st.products| ::
      var p := st.products[i];
      match SaleLine(tx, p.id)
      case None => r.products[i] == p
      case Some(item) => r.products[i] == p.(stock := p.stock - item.quantity)
    ensures !OptTruthy(tx.customerId) ==> r.customers == st.customers
    ensures |r.customers| == |st.customers|
    ensures forall i | 0 <= i < |st.customers| ::
      var c := st.customers[i];
      if OptTruthy(tx.customerId) && c.id == tx.customerId.value then
        && r.customers[i].id == c.id
        && r.customers[i].name == c.name && r.customers[i].email == c.email && r.customers[i].phone == c.phone
        && r.customers[i].totalSpent == c.totalSpent + tx.total
        && (r.customers[i].creditBalance > c.creditBalance <==> tx.paymentMethod == Credit && tx.total > 0.0)
        && (tx.paymentMethod != Credit ==> r.customers[i].creditBalance == c.creditBalance)
        && (tx.paymentMethod == Credit ==> r.customers[i].creditBalance == c.creditBalance + tx.total)
        && r.customers[i].lastVisit == now
      else r.customers[i] == c
  {
    var products := seq(|st.products|, i requires 0 <= i < |st.products| => SellFrom(st.products[i], tx));
    var customers :=
      if OptTruthy(tx.customerId) then
        seq(|st.customers|, i requires 0 <= i < |st.customers| =>
          if st.customers[i].id == tx.customerId.value then ChargeCustomer(st.customers[i], tx, now)
          else st.customers[i])
      else st.customers;
    Store(products, customers, [tx] + st.transactions, st.appReturns)
  }

  /** A sale with a non-negative total keeps every balance owed and every lifetime spend non-negative. */
  lemma SaveTransactionKeepsCustomersSound(st: Store, tx: Transaction, now: int)
    requires CustomersSound(st.customers)
    requires tx.total >= 0.0
    ensures CustomersSound(SaveTransaction(st, tx, now).customers)
  {
  }

  function ReturnInto(p: Product, ret: AppReturn): Product {
    match ReturnedLine(ret, p.id)
    case Some(line) =>
      p.(stock := p.stock + (if ret.kind == SalesReturn then line.quantity else -line.quantity))
    case None => p
  }

  /**
   * The customer a return is refunded to: only a Sales return whose original
   * transaction is on the ledger, was paid on Credit, and names a customer.
   * That customer is the one the original sale was booked to.
   */
  function RefundedCustomer(st: Store, ret: AppReturn): (r: Option<string>)
    ensures r.Some? ==> ret.kind == SalesReturn && r.value != ""
    ensures r.Some? ==>
      FindTransaction(st.transactions, ret.referenceId).Some? &&
      r == FindTransaction(st.transactions, ret.referenceId).value.customerId
    ensures r.Some? <==>
      ret.kind == SalesReturn &&
      (exists k | 0 <= k < |st.transactions| :: st.transactions[k].id == ret.referenceId) &&
      var t := FindTransaction(st.transactions, ret.referenceId).value;
      OptTruthy(t.customerId) && t.paymentMethod == Credit
  {
    if ret.kind == SalesReturn then
      match FindTransaction(st.transactions, ret.referenceId)
      case Some(t) =>
        if OptTruthy(t.customerId) && t.paymentMethod == Credit then Some(t.customerId.value) else None
      case None => None
    else None
  }

  function Refund(c: Customer, amount: real): Customer {
    c.(creditBalance := if c.creditBalance - amount < 0.0 then 0.0 else c.creditBalance - amount,
       totalSpent := if c.totalSpent - amount < 0.0 then 0.0 else c.totalSpent - amount)
  }

  /**
   * `handleProcessReturn`: the return goes to the head of the returns list; a
   * Sales return puts each returned quantity back into stock and a Purchase
   * return takes it out; for a Sales return against a Credit sale with a
   * customer, that customer's balance owed and lifetime spend each drop by
   * the return amount, floored at zero. Nothing else changes.
   */
  function ProcessReturn(st: Store, ret: AppReturn): (r: Store)
    ensures |r.appReturns| == |st.appReturns| + 1
    ensures r.appReturns[0] == ret && r.appReturns[1..] == st.appReturns
    ensures r.transactions == st.transactions
    ensures |r.products| == |st.products|
    ensures forall i | 0 <= i < |st.products| ::
      var p := st.products[i];
      match ReturnedLine(ret, p.id)
      case None => r.products[i] == p
      case Some(line) =>
        r.products[i] == p.(stock := if ret.kind == SalesReturn then p.stock + line.quantity else p.stock - line.quantity)
    ensures RefundedCustomer(st, ret).None? ==> r.customers == st.customers
    ensures |r.customers| == |st.customers|
    ensures forall i | 0 <= i < |st.customers| ::
      var c := st.customers[i];
      if RefundedCustomer(st, ret) == Some(c.id) then
        && r.customers[i].creditBalance >= 0.0 && r.customers[i].totalSpent >= 0.0
        && (c.creditBalance >= ret.amount ==> r.customers[i].creditBalance == c.creditBalance - ret.amount)
        && (c.creditBalance < ret.amount ==> r.customers[i].creditBalance == 0.0)
        && (c.totalSpent >= ret.amount ==> r.customers[i].totalSpent == c.totalSpent - ret.amount)
        && (c.totalSpent < ret.amount ==> r.customers[i].totalSpent == 0.0)
        && r.customers[i] == c.(creditBalance := r.customers[i].creditBalance, totalSpent := r.customers[i].totalSpent)
      else r.customers[i] == c
  {
    var products := seq(|st.products|, i requires 0 <= i < |st.products| => ReturnInto(st.products[i], ret));
    var customers :=
      match RefundedCustomer(st, ret)
      case Some(cid) =>
        seq(|st.customers|, i requires 0 <= i < |st.customers| =>
          if st.customers[i].id == cid then Refund(st.customers[i], ret.amount) else st.customers[i])
      case None => st.customers;
    Store(products, customers, st.transactions, [ret] + st.appReturns)
  }

  /** Any return keeps every balance owed and every lifetime spend non-negative. */
  lemma ProcessReturnKeepsCustomersSound(st: Store, ret: AppReturn)
    requires CustomersSound(st.customers)
    ensures CustomersSound(ProcessReturn(st, ret).customers)
  {
  }

  function ToReturnLine(item: CartItem): ReturnLine {
    ReturnLine(item.id(), item.name(), item.quantity, item.price())
  }

  /** A Sales return of every line of a transaction, for its full total. */
  function FullReturn(tx: Transaction, id: string, date: int): (r: AppReturn)
    ensures r.kind == SalesReturn && r.referenceId == tx.id && r.amount == tx.total
    ensures |r.items| == |tx.items|
    ensures forall i | 0 <= i < |tx.items| ::
      r.items[i].productId == tx.items[i].id() && r.items[i].quantity == tx.items[i].quantity
  {
    AppReturn(id, SalesReturn, tx.id, date, tx.total,
      seq(|tx.items|, i requires 0 <= i < |tx.items| => ToReturnLine(tx.items[i])),
      Completed, None)
  }

  /** Returning every line of a sale puts the catalogue's stock back exactly as it was before the sale. */
  lemma SaleThenFullReturnRestoresStock(st: Store, tx: Transaction, now: int, rid: string, date: int)
    ensures ProcessReturn(SaveTransaction(st, tx, now), FullReturn(tx, rid, date)).products == st.products
  {
    var ret := FullReturn(tx, rid, date);
    var mid := SaveTransaction(st, tx, now);
    var r := ProcessReturn(mid, ret);
    forall i | 0 <= i < |st.products|
      ensures r.products[i] == st.products[i]
    {
      assert mid.products[i] == SellFrom(st.products[i], tx);
      assert r.products[i] == ReturnInto(mid.products[i], ret);
      SellThenReturn(st.products[i], tx, rid, date);
    }
  }

  /** A product sold by a transaction and returned with the full return of it has its stock back. */
  lemma SellThenReturn(p: Product, tx: Transaction, rid: string, date: int)
    ensures ReturnInto(SellFrom(p, tx), FullReturn(tx, rid, date)) == p
  {
    var ret := FullReturn(tx, rid, date);
    FindMapped(tx.items, (it: CartItem) => it.id() == p.id, ret.items, (l: ReturnLine) => l.productId == p.id, ToReturnLine);
  }

  /**
   * Returning a Credit sale in full, for its total, gives the customer back
   * the balance owed and the lifetime spend they had before the sale; only
   * the last-visit time keeps the sale's mark.
   */
  lemma CreditSaleThenFullReturnRestoresCustomer(st: Store, tx: Transaction, now: int, rid: string, date: int)
    requires CustomersSound(st.customers)
    requires tx.paymentMethod == Credit && OptTruthy(tx.customerId) && tx.total >= 0.0
    ensures var r := ProcessReturn(SaveTransaction(st, tx, now), FullReturn(tx, rid, date));
      |r.customers| == |st.customers| &&
      forall i | 0 <= i < |st.customers| ::
        r.customers[i] == (if st.customers[i].id == tx.customerId.value
                           then st.customers[i].(lastVisit := now) else st.customers[i])
  {
    var mid := SaveTransaction(st, tx, now);
    var ret := FullReturn(tx, rid, date);
    assert mid.transactions[0] == tx;
    assert FindTransaction(mid.transactions, tx.id) == Some(tx);
    assert RefundedCustomer(mid, ret) == Some(tx.customerId.value);
  }

  /**
   * Nothing stops the same Sales return from being processed twice: each
   * product named by it regains its returned quantity twice over.
   */
  lemma DuplicateSalesReturnCountsTwice(st: Store, ret: AppReturn)
    requires ret.kind == SalesReturn
    ensures var r := ProcessReturn(ProcessReturn(st, ret), ret);
      |r.appReturns| == |st.appReturns| + 2 &&
      forall i | 0 <= i < |st.products| ::
        ReturnedLine(ret, st.products[i].id).Some? ==>
          r.products[i].stock == st.products[i].stock + 2 * ReturnedLine(ret, st.products[i].id).value.quantity
  {
  }
}
