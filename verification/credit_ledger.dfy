/**
 * The buy-now-pay-later ledger (components/CreditLedgerView.tsx): the debtor
 * list, the outstanding total, repayments, and a debtor's credit history.
 */
module CreditLedger {
  import opened Wrappers
  import opened Types
  import opened Text
  import opened Seqs
  import opened Settlement

  function Balance(c: Customer): real {
    c.creditBalance
  }

  function Timestamp(t: Transaction): real {
    t.timestamp as real
  }

  /** A debtor owes something and their name (ignoring case) or phone contains the search text. */
  predicate ListedDebtor(c: Customer, search: string) {
    c.creditBalance > 0.0 && (IncludesIgnoringCase(c.name, search) || Includes(c.phone, search))
  }

  /** `debtors`: the matching customers who owe something, largest balance first. */
  function Debtors(customers: seq<Customer>, search: string): (r: seq<Customer>)
    ensures forall c | c in r :: c in customers && ListedDebtor(c, search)
    ensures forall c | c in customers && ListedDebtor(c, search) :: c in r
    ensures forall i | 0 <= i < |r| :: r[i].creditBalance > 0.0
    ensures SortedDesc(r, Balance)
    ensures multiset(r) == multiset(Filter(customers, (c: Customer) => ListedDebtor(c, search)))
  {
    var listed := Filter(customers, (c: Customer) => ListedDebtor(c, search));
    var r := SortDesc(listed, Balance);
    SameElements(r, listed);
    forall i | 0 <= i < |r|
      ensures r[i].creditBalance > 0.0
    {
      assert r[i] in listed;
    }
    r
  }

  /** `totalOutstanding`: the sum of every customer's balance owed. */
  function TotalOutstanding(customers: seq<Customer>): real {
    SumBy(customers, Balance)
  }

  /**
   * When no balance is negative, the outstanding total is both non-negative and
   * exactly what the unfiltered debtor list adds up to: customers who owe
   * nothing contribute nothing.
   */
  lemma OutstandingIsDebtorTotal(customers: seq<Customer>)
    requires CustomersSound(customers)
    ensures TotalOutstanding(customers) >= 0.0
    ensures TotalOutstanding(customers) == SumBy(Debtors(customers, ""), Balance)
  {
    var p := (c: Customer) => ListedDebtor(c, "");
    forall i | 0 <= i < |customers|
      ensures !p(customers[i]) ==> Balance(customers[i]) == 0.0
    {
      IncludesEmpty(ToLower(customers[i].name));
    }
    SumByDropZeros(customers, Balance, p);
    SumByPermutation(Debtors(customers, ""), Filter(customers, p), Balance);
    SumByNonNeg(customers, Balance);
  }

  /** A typed amount after `parseFloat`: the empty string, something that is not a number, or a number. */
  datatype NumericInput = Blank | NotANumber | Number(value: real)

  predicate RepaymentAccepted(selected: Option<Customer>, amount: NumericInput) {
    selected.Some? && amount.Number? && amount.value > 0.0
  }

  /**
   * `handleSettle`: without a selected debtor, with an empty, non-numeric, zero
   * or negative amount nothing changes; otherwise the selected customer's
   * balance owed drops by the amount, floored at zero, and nothing else changes.
   */
  function Settle(customers: seq<Customer>, selected: Option<Customer>, amount: NumericInput): (r: seq<Customer>)
    ensures !RepaymentAccepted(selected, amount) ==> r == customers
    ensures |r| == |customers|
    ensures forall i | 0 <= i < |customers| ::
      if RepaymentAccepted(selected, amount) && customers[i].id == selected.value.id then
        && r[i] == customers[i].(creditBalance := r[i].creditBalance)
        && r[i].creditBalance >= 0.0
        && (customers[i].creditBalance >= 0.0 ==> r[i].creditBalance <= customers[i].creditBalance)
        && (customers[i].creditBalance >= amount.value ==> r[i].creditBalance == customers[i].creditBalance - amount.value)
        && (customers[i].creditBalance < amount.value ==> r[i].creditBalance == 0.0)
      else r[i] == customers[i]
  {
    if !RepaymentAccepted(selected, amount) then customers
    else
      var a := amount.value;
      seq(|customers|, i requires 0 <= i < |customers| =>
        var c := customers[i];
        if c.id == selected.value.id
        then c.(creditBalance := if c.creditBalance - a < 0.0 then 0.0 else c.creditBalance - a)
        else c)
  }

  /** A repayment keeps every balance owed and every lifetime spend non-negative. */
  lemma SettleKeepsCustomersSound(customers: seq<Customer>, selected: Option<Customer>, amount: NumericInput)
    requires CustomersSound(customers)
    ensures CustomersSound(Settle(customers, selected, amount))
  {
  }

  /** An accepted repayment never raises the outstanding total. */
  lemma {:induction false} SettleLowersOutstanding(customers: seq<Customer>, selected: Option<Customer>, amount: NumericInput)
    requires CustomersSound(customers)
    ensures TotalOutstanding(Settle(customers, selected, amount)) <= TotalOutstanding(customers)
  {
    var r := Settle(customers, selected, amount);
    SumsPointwiseLe(r, customers);
  }

  lemma {:induction false} SumsPointwiseLe(a: seq<Customer>, b: seq<Customer>)
    requires |a| == |b|
    requires forall i | 0 <= i < |a| :: a[i].creditBalance <= b[i].creditBalance
    ensures SumBy(a, Balance) <= SumBy(b, Balance)
  {
    if |a| > 0 {
      SumsPointwiseLe(a[1..], b[1..]);
    }
  }

  predicate CreditSaleOf(t: Transaction, customerId: string) {
    t.customerId == Some(customerId) && t.paymentMethod == Credit
  }

  /** `getDebtorTransactions`: the customer's Credit transactions, newest first. */
  function DebtorTransactions(txs: seq<Transaction>, customerId: string): (r: seq<Transaction>)
    ensures forall t | t in r :: t in txs && CreditSaleOf(t, customerId)
    ensures forall t | t in txs && CreditSaleOf(t, customerId) :: t in r
    ensures SortedDesc(r, Timestamp)
    ensures multiset(r) == multiset(Filter(txs, (t: Transaction) => CreditSaleOf(t, customerId)))
  {
    var mine := Filter(txs, (t: Transaction) => CreditSaleOf(t, customerId));
    var r := SortDesc(mine, Timestamp);
    SameElements(r, mine);
    r
  }
}
