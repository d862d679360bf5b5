/**
 * The application shell (App.tsx) as a state machine over the shared store:
 * the events that change customers, products, sales and returns, and the
 * invariants every sequence of them keeps.
 */
module Shell {
  import opened Wrappers
  import opened Types
  import opened Settlement
  import opened Pos
  import opened CreditLedger

  /** Everything that changes the shared store. */
  datatype Event =
    | Sale(session: PosSession, pay: PaymentMethod, now: nat)            // checkout, then `saveTransaction`
    | Return(ret: AppReturn)                                              // `handleProcessReturn`
    | Repayment(selected: Option<Customer>, amount: NumericInput)         // the ledger's `handleSettle`
    | QuickAdd(name: string, phone: string, now: nat)                     // `onQuickAddCustomer`

  function Step(st: Store, e: Event): Store {
    match e
    case Sale(s, pay, now) => Checkout(st, s, pay, now).0
    case Return(ret) => ProcessReturn(st, ret)
    case Repayment(selected, amount) => st.(customers := Settle(st.customers, selected, amount))
    case QuickAdd(name, phone, now) => st.(customers := QuickAddCustomer(st.customers, name, phone, now))
  }

  function Run(st: Store, events: seq<Event>): Store
    decreases |events|
  {
    if |events| == 0 then st else Run(Step(st, events[0]), events[1..])
  }

  /** One event keeps every balance owed and every lifetime spend non-negative. */
  lemma StepKeepsCustomersSound(st: Store, e: Event)
    requires CustomersSound(st.customers)
    ensures CustomersSound(Step(st, e).customers)
  {
    match e
    case Sale(s, pay, now) => CheckoutKeepsCustomersSound(st, s, pay, now);
    case Return(ret) => ProcessReturnKeepsCustomersSound(st, ret);
    case Repayment(selected, amount) => SettleKeepsCustomersSound(st.customers, selected, amount);
    case QuickAdd(name, phone, now) =>
  }

  /** No sequence of sales, returns, repayments and new customers makes a balance owed or a lifetime spend negative. */
  lemma {:induction false} RunKeepsCustomersSound(st: Store, events: seq<Event>)
    requires CustomersSound(st.customers)
    ensures CustomersSound(Run(st, events).customers)
    decreases |events|
  {
    if |events| > 0 {
      StepKeepsCustomersSound(st, events[0]);
      RunKeepsCustomersSound(Step(st, events[0]), events[1..]);
    }
  }

  /** `earlier` is what is left of `r` after dropping some newer entries from its front. */
  ghost predicate EndsWith<T>(r: seq<T>, earlier: seq<T>) {
    |earlier| <= |r| && r[|r| - |earlier|..] == earlier
  }

  lemma EndsWithTransitive<T>(a: seq<T>, b: seq<T>, c: seq<T>)
    requires EndsWith(a, b) && EndsWith(b, c)
    ensures EndsWith(a, c)
  {
    assert a[|a| - |c|..] == a[|a| - |b|..][|b| - |c|..];
  }

  /** The store's sales and returns history with `earlier`'s as its oldest part. */
  ghost predicate HistoryExtends(r: Store, earlier: Store) {
    EndsWith(r.transactions, earlier.transactions) && EndsWith(r.appReturns, earlier.appReturns)
  }

  /** One event only ever puts sales and returns in front of the history. */
  lemma StepKeepsHistory(st: Store, e: Event)
    ensures HistoryExtends(Step(st, e), st)
  {
    var r := Step(st, e);
    if e.Sale? && HandleCheckout(e.session, e.pay, e.now).Sold? {
      assert r.transactions[|r.transactions| - |st.transactions|..] == r.transactions[1..];
    }
    if e.Return? {
      assert r.appReturns[|r.appReturns| - |st.appReturns|..] == r.appReturns[1..];
    }
  }

  /** The sales and returns history is append-only: the old history is always the tail of the new one. */
  lemma {:induction false} RunKeepsHistory(st: Store, events: seq<Event>)
    ensures HistoryExtends(Run(st, events), st)
    decreases |events|
  {
    if |events| > 0 {
      var mid := Step(st, events[0]);
      StepKeepsHistory(st, events[0]);
      RunKeepsHistory(mid, events[1..]);
      var r := Run(mid, events[1..]);
      EndsWithTransitive(r.transactions, mid.transactions, st.transactions);
      EndsWithTransitive(r.appReturns, mid.appReturns, st.appReturns);
    }
  }
}
