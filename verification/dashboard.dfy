/**
 * The store overview (components/DashboardView.tsx): today's takings, the
 * low-stock and debt cards, the top debtors, the latest sales, the low-stock
 * and pending-task lists, and the printed receipt.
 */
module Dashboard {
  import opened Wrappers
  import opened Types
  import opened Text
  import opened Seqs
  import opened Cart
  import opened Pos
  import opened CreditLedger
  import opened Inventory

  /** A product counts as low on stock at or below five units. */
  predicate LowOnStock(p: Product) {
    p.stock <= 5
  }

  predicate Owes(c: Customer) {
    c.creditBalance > 0.0
  }

  predicate Pending(t: ShopTask) {
    t.status != Done
  }

  /** A sale made on the calendar day `today`, as `dayOf` reads its time stamp. */
  function OnDay(dayOf: int -> int, today: int): Transaction -> bool {
    (t: Transaction) => dayOf(t.timestamp) == today
  }

  function OffDay(dayOf: int -> int, today: int): Transaction -> bool {
    (t: Transaction) => dayOf(t.timestamp) != today
  }

  datatype Overview = Overview(
    todayRevenue: real,
    todayOrders: nat,
    lowStockCount: nat,
    totalDebt: real,
    debtors: seq<Customer>,
    recentTransactions: seq<Transaction>,
    lowStockProducts: seq<Product>,
    pendingTasks: seq<ShopTask>)

  /**
   * The debtors card: at most four customers who owe something, largest
   * balance first, each at most as often as listed.
   */
  function TopDebtors(customers: seq<Customer>): (r: seq<Customer>)
    ensures |r| <= 4 && SortedDesc(r, Balance)
    ensures multiset(r) <= multiset(customers)
    ensures forall c | c in r :: c in customers && c.creditBalance > 0.0
  {
    var owing := Filter(customers, Owes);
    var sorted := SortDesc(owing, Balance);
    SameElements(sorted, owing);
    FilterIsFiltered(customers, Owes);
    SubsequenceMultiset(owing, customers);
    PrefixMultiset(Take(sorted, 4), sorted);
    Take(sorted, 4)
  }

  /**
   * The recent-sales list: the five latest sales, or all of them when there
   * are fewer, newest first, each sale at most as often as it was recorded.
   */
  function RecentSales(transactions: seq<Transaction>): (r: seq<Transaction>)
    ensures |r| == if |transactions| < 5 then |transactions| else 5
    ensures SortedDesc(r, Timestamp)
    ensures multiset(r) <= multiset(transactions)
    ensures forall t | t in r :: t in transactions
  {
    var sorted := SortDesc(transactions, Timestamp);
    SameElements(sorted, transactions);
    PrefixMultiset(Take(sorted, 5), sorted);
    Take(sorted, 5)
  }

  /**
   * `stats`. The calendar day of a time stamp in the browser's locale is the
   * parameter `dayOf`, and `today` is the current day.
   */
  function Stats(transactions: seq<Transaction>, products: seq<Product>, tasks: seq<ShopTask>,
                 customers: seq<Customer>, dayOf: int -> int, today: int): (r: Overview)
    ensures r.todayRevenue == SumBy(Filter(transactions, OnDay(dayOf, today)), TxTotal)
    ensures r.todayOrders == Count(transactions, OnDay(dayOf, today))
    ensures r.lowStockCount == Count(products, LowOnStock)
    ensures r.totalDebt == TotalOutstanding(customers)
    ensures |r.debtors| <= 4 && SortedDesc(r.debtors, Balance)
    ensures multiset(r.debtors) <= multiset(customers)
    ensures forall c | c in r.debtors :: c in customers && c.creditBalance > 0.0
    ensures |r.recentTransactions| == if |transactions| < 5 then |transactions| else 5
    ensures SortedDesc(r.recentTransactions, Timestamp)
    ensures multiset(r.recentTransactions) <= multiset(transactions)
    ensures forall t | t in r.recentTransactions :: t in transactions
    ensures |r.lowStockProducts| == if r.lowStockCount < 4 then r.lowStockCount else 4
    ensures r.lowStockProducts <= Filter(products, LowOnStock)
    ensures |r.pendingTasks| == if Count(tasks, Pending) < 3 then Count(tasks, Pending) else 3
    ensures r.pendingTasks <= Filter(tasks, Pending)
  {
    var todayTrans := Filter(transactions, OnDay(dayOf, today));
    var low := Filter(products, LowOnStock);
    Overview(
      SumBy(todayTrans, TxTotal),
      |todayTrans|,
      |low|,
      SumBy(customers, Balance),
      TopDebtors(customers),
      RecentSales(transactions),
      Take(low, 4),
      Take(Filter(tasks, Pending), 3))
  }

  function TxTotal(t: Transaction): real { t.total }

  /** The low-stock card counts exactly the products the inventory tabs call low or out of stock. */
  lemma {:induction false} LowStockIsLowPlusOut(products: seq<Product>)
    ensures Count(products, LowOnStock) == CountStatuses(products).lowStock + CountStatuses(products).outOfStock
  {
    if |products| > 0 {
      LowStockIsLowPlusOut(products[1..]);
    }
  }

  /** The dashboard's debtors are the first four of the ledger's unfiltered debtor list. */
  lemma DebtorsAreLedgerTop(transactions: seq<Transaction>, products: seq<Product>, tasks: seq<ShopTask>,
                            customers: seq<Customer>, dayOf: int -> int, today: int)
    ensures Stats(transactions, products, tasks, customers, dayOf, today).debtors == Take(Debtors(customers, ""), 4)
  {
    forall i | 0 <= i < |customers|
      ensures Owes(customers[i]) == ListedDebtor(customers[i], "")
    {
      IncludesEmpty(ToLower(customers[i].name));
    }
    FilterCongruent(customers, Owes, (c: Customer) => ListedDebtor(c, ""));
  }

  /** No customer owing more than the smallest balance shown is missing from the top debtors. */
  lemma TopDebtorsAreLargest(transactions: seq<Transaction>, products: seq<Product>, tasks: seq<ShopTask>,
                             customers: seq<Customer>, dayOf: int -> int, today: int, c: Customer)
    requires c in customers && c.creditBalance > 0.0
    ensures var d := Stats(transactions, products, tasks, customers, dayOf, today).debtors;
      |d| > 0 && (c.creditBalance > d[|d| - 1].creditBalance ==> c in d)
  {
    TopOfSorted(Filter(customers, Owes), Balance, 4);
    SameElements(SortDesc(Filter(customers, Owes), Balance), Filter(customers, Owes));
  }

  /** No sale later than the oldest one shown is missing from the recent sales. */
  lemma RecentAreLatest(transactions: seq<Transaction>, products: seq<Product>, tasks: seq<ShopTask>,
                        customers: seq<Customer>, dayOf: int -> int, today: int, t: Transaction)
    requires t in transactions
    ensures var rt := Stats(transactions, products, tasks, customers, dayOf, today).recentTransactions;
      |rt| > 0 && (t.timestamp > rt[|rt| - 1].timestamp ==> t in rt)
  {
    TopOfSorted(transactions, Timestamp, 5);
  }

  /** With non-negative totals, today's takings never exceed the takings of all time. */
  lemma TodayWithinAllTime(transactions: seq<Transaction>, products: seq<Product>, tasks: seq<ShopTask>,
                           customers: seq<Customer>, dayOf: int -> int, today: int)
    requires forall i | 0 <= i < |transactions| :: transactions[i].total >= 0.0
    ensures Stats(transactions, products, tasks, customers, dayOf, today).todayRevenue <= SumBy(transactions, TxTotal)
  {
    TodaySalesWithinAll(transactions, dayOf, today);
  }

  lemma TodaySalesWithinAll(transactions: seq<Transaction>, dayOf: int -> int, today: int)
    requires forall i | 0 <= i < |transactions| :: transactions[i].total >= 0.0
    ensures SumBy(Filter(transactions, OnDay(dayOf, today)), TxTotal) <= SumBy(transactions, TxTotal)
  {
    SumByPartition(transactions, TxTotal, OnDay(dayOf, today), OffDay(dayOf, today));
    var rest := Filter(transactions, OffDay(dayOf, today));
    assert forall i | 0 <= i < |rest| :: rest[i] in transactions;
    SumByNonNeg(rest, TxTotal);
  }

  /** The receipt's "Subtotal" line as written: the stored total, less the tax, plus the discount. */
  function ReceiptSubtotalAsWritten(tx: Transaction): (r: real)
    ensures r + tx.tax - tx.discount == tx.total
  {
    tx.total - tx.tax + tx.discount
  }

  /** The receipt's "Subtotal" line as intended: the price of the lines sold, never negative for real prices. */
  function ReceiptSubtotal(tx: Transaction): (r: real)
    ensures r == SumBy(tx.items, LineAmount)
    ensures (forall i | 0 <= i < |tx.items| :: tx.items[i].price() >= 0.0 && tx.items[i].quantity >= 0) ==> r >= 0.0
  {
    if forall i | 0 <= i < |tx.items| :: tx.items[i].price() >= 0.0 && tx.items[i].quantity >= 0 then
      TotalsNonNegative(tx.items, 0.0);
      Subtotal(tx.items)
    else Subtotal(tx.items)
  }

  /** For every completed sale the intended receipt subtotal is the one the tax was charged on. */
  lemma ReceiptSubtotalIsTaxBase(s: PosSession, pay: PaymentMethod, now: nat)
    requires HandleCheckout(s, pay, now).Sold?
    ensures var tx := HandleCheckout(s, pay, now).tx;
      ReceiptSubtotal(tx) == Totals(s.cart, s.discount).subtotal && tx.tax * 100.0 == ReceiptSubtotal(tx) * 8.0
  {
  }

  /**
   * The reconstruction is right exactly when the total was not clamped at
   * zero, that is when the discount did not exceed the taxed subtotal.
   */
  lemma ReceiptAsWrittenRightIffUnclamped(s: PosSession, pay: PaymentMethod, now: nat)
    requires HandleCheckout(s, pay, now).Sold?
    ensures var tx := HandleCheckout(s, pay, now).tx;
      ReceiptSubtotalAsWritten(tx) == ReceiptSubtotal(tx) <==> Subtotal(s.cart) * 108.0 / 100.0 - s.discount >= 0.0
  {
  }

  /** One unit at 100 with a discount of 150: the total is 0 and the receipt prints a subtotal of 142. */
  lemma ReceiptAsWrittenWrongWhenClamped(now: nat)
    ensures var soap := Product("p1", "Soap", "Home", "Local", 100.0, 60.0, 10, "", "SOAP");
      var s := PosSession([CartItem(soap, 1)], 150.0, None, false, None);
      var tx := HandleCheckout(s, Cash, now).tx;
      HandleCheckout(s, Cash, now).Sold? && tx.total == 0.0 &&
      ReceiptSubtotalAsWritten(tx) == 142.0 && ReceiptSubtotal(tx) == 100.0
  {
    var soap := Product("p1", "Soap", "Home", "Local", 100.0, 60.0, 10, "", "SOAP");
    var cart := [CartItem(soap, 1)];
    assert Subtotal(cart) == 100.0;
  }
}
