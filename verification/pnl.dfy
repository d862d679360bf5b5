/**
 * The profit-and-loss report (components/PnLView.tsx): the records inside a
 * date range, revenue, gross and net profit, total expenses, the profit
 * margin, and per-category statistics ranked by revenue.
 */
module PnL {
  import opened Types
  import opened Seqs
  import opened Cart

  /** One day in milliseconds: the range's end date is widened by a day. */
  const DayMillis: int := 86400000

  /** A timestamp lies in the range from the start date to one day past the end date, both inclusive. */
  predicate InRange(ts: int, start: int, end: int) {
    start <= ts <= end + DayMillis
  }

  function TxInRange(start: int, end: int): Transaction -> bool {
    (t: Transaction) => InRange(t.timestamp, start, end)
  }

  function ExpenseInRange(start: int, end: int): Expense -> bool {
    (e: Expense) => InRange(e.date, start, end)
  }

  function PurchaseInRange(start: int, end: int): Purchase -> bool {
    (p: Purchase) => InRange(p.date, start, end)
  }

  function TxTotal(t: Transaction): real { t.total }
  function ExpenseAmount(e: Expense): real { e.amount }
  function PurchaseAmount(p: Purchase): real { p.amount }

  /** The margin of one line: (selling price - cost price) * quantity. */
  function ItemMargin(item: CartItem): real {
    (item.price() - item.costPrice()) * item.quantity as real
  }

  function TxGrossProfit(t: Transaction): real {
    SumBy(t.items, ItemMargin)
  }

  /** Every line of every transaction, in order. */
  function AllItems(trans: seq<Transaction>): (r: seq<CartItem>)
    ensures forall t | t in trans :: forall x | x in t.items :: x in r
    ensures forall x | x in r :: exists t | t in trans :: x in t.items
  {
    if |trans| == 0 then []
    else
      var rest := AllItems(trans[1..]);
      assert forall t | t in trans[1..] :: forall x | x in t.items :: x in rest;
      assert forall x | x in rest :: exists t | t in trans[1..] :: x in t.items;
      trans[0].items + rest
  }

  /**
   * The lines of a single transaction are its own, and the lines of two runs
   * of transactions are the first run's followed by the second's; together
   * these fix every line, its multiplicity and its place.
   */
  lemma {:induction false} AllItemsConcat(a: seq<Transaction>, b: seq<Transaction>, t: Transaction)
    ensures AllItems([t]) == t.items
    ensures AllItems(a + b) == AllItems(a) + AllItems(b)
  {
    assert AllItems([t]) == t.items + AllItems([]);
    if |a| > 0 {
      assert (a + b)[0] == a[0];
      assert (a + b)[1..] == a[1..] + b;
      AllItemsConcat(a[1..], b, t);
    } else {
      assert a + b == b;
    }
  }

  /** Gross profit summed transaction by transaction is the margin summed over all lines. */
  lemma {:induction false} GrossProfitIsLineMargins(trans: seq<Transaction>)
    ensures SumBy(trans, TxGrossProfit) == SumBy(AllItems(trans), ItemMargin)
  {
    if |trans| > 0 {
      GrossProfitIsLineMargins(trans[1..]);
      SumByAppend(trans[0].items, AllItems(trans[1..]), ItemMargin);
    }
  }

  /** The running totals of one category while the lines are scanned. */
  datatype CategoryTotals = CategoryTotals(name: string, revenue: real, itemsSold: int, profit: real) {
    function Add(item: CartItem): CategoryTotals {
      CategoryTotals(name, revenue + LineAmount(item), itemsSold + item.quantity, profit + ItemMargin(item))
    }
  }

  function Revenue(c: CategoryTotals): real { c.revenue }
  function Profit(c: CategoryTotals): real { c.profit }
  function Sold(c: CategoryTotals): real { c.itemsSold as real }

  predicate HasCategory(acc: seq<CategoryTotals>, c: string) {
    exists i | 0 <= i < |acc| :: acc[i].name == c
  }

  ghost predicate UniqueNames(acc: seq<CategoryTotals>) {
    forall i, j | 0 <= i < j < |acc| :: acc[i].name != acc[j].name
  }

  /** The lines of category `c`. */
  function ByCategory(c: string): CartItem -> bool {
    (item: CartItem) => item.category() == c
  }

  /**
   * One step of the category scan: the line's category entry gains the line's
   * revenue, units and margin; a category seen for the first time is appended.
   */
  function AddItem(acc: seq<CategoryTotals>, item: CartItem): (r: seq<CategoryTotals>)
    ensures HasCategory(r, item.category())
    ensures forall c :: HasCategory(r, c) <==> HasCategory(acc, c) || c == item.category()
    ensures UniqueNames(acc) ==> UniqueNames(r)
    ensures HasCategory(acc, item.category()) ==> |r| == |acc|
    ensures !HasCategory(acc, item.category()) ==>
      |r| == |acc| + 1 && r[..|acc|] == acc && r[|acc|] == CategoryTotals(item.category(), 0.0, 0, 0.0).Add(item)
    ensures forall i | 0 <= i < |acc| ::
      r[i] == if acc[i].name == item.category() then acc[i].Add(item) else acc[i]
  {
    var cat := item.category();
    if HasCategory(acc, cat) then
      var r := seq(|acc|, i requires 0 <= i < |acc| => if acc[i].name == cat then acc[i].Add(item) else acc[i]);
      assert forall i | 0 <= i < |acc| :: r[i].name == acc[i].name;
      r
    else
      var r := acc + [CategoryTotals(cat, 0.0, 0, 0.0).Add(item)];
      assert r[|acc|].name == cat;
      assert forall i | 0 <= i < |acc| :: r[i] == acc[i];
      r
  }

  /** `categoryMap` after every line has been scanned, in order of first appearance. */
  function Aggregate(items: seq<CartItem>): (r: seq<CategoryTotals>)
    ensures UniqueNames(r)
    ensures forall c :: HasCategory(r, c) <==> exists j | 0 <= j < |items| :: items[j].category() == c
    decreases |items|
  {
    if |items| == 0 then []
    else
      var pre := items[..|items| - 1];
      var r := AddItem(Aggregate(pre), items[|items| - 1]);
      assert forall j | 0 <= j < |pre| :: pre[j] == items[j];
      r
  }

  /** The three figures a category entry accumulates. */
  datatype Measure = RevenueMeasure | ProfitMeasure | UnitsMeasure

  function EntryValue(e: CategoryTotals, m: Measure): real {
    match m
    case RevenueMeasure => e.revenue
    case ProfitMeasure => e.profit
    case UnitsMeasure => e.itemsSold as real
  }

  function LineValue(m: Measure): CartItem -> real {
    match m
    case RevenueMeasure => LineAmount
    case ProfitMeasure => ItemMargin
    case UnitsMeasure => Units
  }

  lemma AddValue(e: CategoryTotals, item: CartItem, m: Measure)
    ensures EntryValue(e.Add(item), m) == EntryValue(e, m) + LineValue(m)(item)
  {
  }

  /** Each category entry holds exactly the revenue, units and margin of that category's lines. */
  lemma AggregateEntries(items: seq<CartItem>, i: nat)
    requires i < |Aggregate(items)|
    ensures var e := Aggregate(items)[i];
      var lines := Filter(items, ByCategory(e.name));
      e.revenue == SumBy(lines, LineAmount) && e.profit == SumBy(lines, ItemMargin) && e.itemsSold as real == SumBy(lines, Units)
  {
    AggregateEntry(items, i, RevenueMeasure);
    AggregateEntry(items, i, ProfitMeasure);
    AggregateEntry(items, i, UnitsMeasure);
  }

  /** Scanning one more line adds it to its own category's lines and to no other's. */
  lemma LinesStep(pre: seq<CartItem>, last: CartItem, c: string)
    ensures Filter(pre + [last], ByCategory(c)) == Filter(pre, ByCategory(c)) + (if last.category() == c then [last] else [])
  {
    FilterAppend(pre, [last], ByCategory(c));
  }

  /** A category's lines after one more line, summed: the old sum plus that line's value if it is of the category. */
  lemma LinesValueStep(pre: seq<CartItem>, last: CartItem, c: string, m: Measure)
    ensures SumBy(Filter(pre + [last], ByCategory(c)), LineValue(m))
      == SumBy(Filter(pre, ByCategory(c)), LineValue(m)) + (if last.category() == c then LineValue(m)(last) else 0.0)
  {
    LinesStep(pre, last, c);
    var tail := if last.category() == c then [last] else [];
    SumByAppend(Filter(pre, ByCategory(c)), tail, LineValue(m));
    assert SumBy(tail, LineValue(m)) == if last.category() == c then LineValue(m)(last) else 0.0;
  }

  /** A category that has no entry yet has no lines yet. */
  lemma {:induction false} NoEntryNoLines(items: seq<CartItem>, c: string)
    requires !HasCategory(Aggregate(items), c)
    ensures Filter(items, ByCategory(c)) == []
    decreases |items|
  {
    if |items| > 0 {
      var pre := items[..|items| - 1];
      var last := items[|items| - 1];
      assert items == pre + [last];
      NoEntryNoLines(pre, c);
      LinesStep(pre, last, c);
    }
  }

  /** Scanning a line leaves an existing entry's name alone and adds the line's value to it only if it is of that category. */
  lemma EntryStep(acc: seq<CategoryTotals>, last: CartItem, i: nat, m: Measure)
    requires i < |acc|
    ensures i < |AddItem(acc, last)| && AddItem(acc, last)[i].name == acc[i].name
    ensures EntryValue(AddItem(acc, last)[i], m)
      == EntryValue(acc[i], m) + (if acc[i].name == last.category() then LineValue(m)(last) else 0.0)
  {
    if acc[i].name == last.category() {
      AddValue(acc[i], last, m);
    }
  }

  /** An entry created by a line holds just that line's value. */
  lemma NewEntryStep(acc: seq<CategoryTotals>, last: CartItem, i: nat, m: Measure)
    requires |acc| <= i < |AddItem(acc, last)|
    ensures i == |acc| && AddItem(acc, last)[i].name == last.category() && !HasCategory(acc, last.category())
    ensures EntryValue(AddItem(acc, last)[i], m) == LineValue(m)(last)
  {
    AddValue(CategoryTotals(last.category(), 0.0, 0, 0.0), last, m);
  }

  lemma {:induction false} AggregateEntry(items: seq<CartItem>, i: nat, m: Measure)
    requires i < |Aggregate(items)|
    ensures var e := Aggregate(items)[i];
      EntryValue(e, m) == SumBy(Filter(items, ByCategory(e.name)), LineValue(m))
    decreases |items|
  {
    var pre := items[..|items| - 1];
    var last := items[|items| - 1];
    assert items == pre + [last];
    var a := Aggregate(pre);
    assert Aggregate(items) == AddItem(a, last);
    var e := AddItem(a, last)[i];
    LinesValueStep(pre, last, e.name, m);
    if i < |a| {
      AggregateEntry(pre, i, m);
      EntryStep(a, last, i, m);
    } else {
      NewEntryStep(a, last, i, m);
      NoEntryNoLines(pre, e.name);
    }
  }

  /** Scanning one line adds its revenue and margin to the totals over all entries. */
  lemma TotalsStep(acc: seq<CategoryTotals>, item: CartItem)
    requires UniqueNames(acc)
    ensures SumBy(AddItem(acc, item), Revenue) == SumBy(acc, Revenue) + LineAmount(item)
    ensures SumBy(AddItem(acc, item), Profit) == SumBy(acc, Profit) + ItemMargin(item)
  {
    var r := AddItem(acc, item);
    if HasCategory(acc, item.category()) {
      var k :| 0 <= k < |acc| && acc[k].name == item.category();
      forall i | 0 <= i < |acc| && i != k ensures r[i] == acc[i] {
        if i < k { assert acc[i].name != acc[k].name; } else { assert acc[k].name != acc[i].name; }
      }
      SumByChangeAt(acc, r, k, Revenue);
      SumByChangeAt(acc, r, k, Profit);
    } else {
      assert r == acc + [r[|acc|]];
      SumByAppend(acc, [r[|acc|]], Revenue);
      SumByAppend(acc, [r[|acc|]], Profit);
    }
  }

  /** The category revenues add up to the revenue of all lines, and the category margins to their margin. */
  lemma {:induction false} AggregateTotals(items: seq<CartItem>)
    ensures SumBy(Aggregate(items), Revenue) == SumBy(items, LineAmount)
    ensures SumBy(Aggregate(items), Profit) == SumBy(items, ItemMargin)
    decreases |items|
  {
    if |items| > 0 {
      var pre := items[..|items| - 1];
      var last := items[|items| - 1];
      assert items == pre + [last];
      AggregateTotals(pre);
      SumByAppend(pre, [last], LineAmount);
      SumByAppend(pre, [last], ItemMargin);
      assert Aggregate(items) == AddItem(Aggregate(pre), last);
      TotalsStep(Aggregate(pre), last);
    }
  }

  datatype CategoryStat = CategoryStat(name: string, revenue: real, itemsSold: int, profit: real, percentage: real)

  function StatRevenue(s: CategoryStat): real { s.revenue }
  function StatProfit(s: CategoryStat): real { s.profit }

  /** A category's share of revenue in percent, 0 when there is no revenue. */
  function Share(revenue: real, totalRevenue: real): (p: real)
    ensures totalRevenue > 0.0 ==> p * totalRevenue == revenue * 100.0
    ensures totalRevenue <= 0.0 ==> p == 0.0
  {
    if totalRevenue > 0.0 then revenue / totalRevenue * 100.0 else 0.0
  }

  function WithShares(acc: seq<CategoryTotals>, totalRevenue: real): (r: seq<CategoryStat>)
    ensures |r| == |acc|
    ensures forall i | 0 <= i < |acc| ::
      r[i].name == acc[i].name && r[i].revenue == acc[i].revenue && r[i].itemsSold == acc[i].itemsSold &&
      r[i].profit == acc[i].profit && r[i].percentage == Share(acc[i].revenue, totalRevenue)
  {
    seq(|acc|, i requires 0 <= i < |acc| =>
      CategoryStat(acc[i].name, acc[i].revenue, acc[i].itemsSold, acc[i].profit, Share(acc[i].revenue, totalRevenue)))
  }

  datatype Report = Report(
    totalRevenue: real,
    totalExpenses: real,
    netProfit: real,
    categoryStats: seq<CategoryStat>,
    operationalExpenses: real,
    inventoryPurchases: real,
    grossProfit: real,
    filteredTrans: seq<Transaction>,
    filteredExp: seq<Expense>,
    filteredPurch: seq<Purchase>)

  /**
   * `pnlData` for the range [start, end + one day]: revenue is the sum of the
   * transaction totals, gross profit the sum of line margins, net profit gross
   * profit less operational expenses, total expenses operational expenses plus
   * purchases, and the category statistics are ranked by revenue.
   */
  function BuildReport(transactions: seq<Transaction>, expenses: seq<Expense>, purchases: seq<Purchase>,
                       start: int, end: int): (r: Report)
    ensures Filtered(r.filteredTrans, transactions, TxInRange(start, end))
    ensures Filtered(r.filteredExp, expenses, ExpenseInRange(start, end))
    ensures Filtered(r.filteredPurch, purchases, PurchaseInRange(start, end))
    ensures r.totalRevenue == SumBy(r.filteredTrans, TxTotal)
    ensures r.grossProfit == SumBy(AllItems(r.filteredTrans), ItemMargin)
    ensures r.operationalExpenses == SumBy(r.filteredExp, ExpenseAmount)
    ensures r.inventoryPurchases == SumBy(r.filteredPurch, PurchaseAmount)
    ensures forall t | t in r.filteredTrans :: t in transactions && InRange(t.timestamp, start, end)
    ensures forall t | t in transactions && InRange(t.timestamp, start, end) :: t in r.filteredTrans
    ensures forall e | e in r.filteredExp :: e in expenses && InRange(e.date, start, end)
    ensures forall e | e in expenses && InRange(e.date, start, end) :: e in r.filteredExp
    ensures forall p | p in r.filteredPurch :: p in purchases && InRange(p.date, start, end)
    ensures forall p | p in purchases && InRange(p.date, start, end) :: p in r.filteredPurch
    ensures r.netProfit == r.grossProfit - r.operationalExpenses
    ensures r.totalExpenses == r.operationalExpenses + r.inventoryPurchases
    ensures SortedDesc(r.categoryStats, StatRevenue)
  {
    var ft := Filter(transactions, TxInRange(start, end));
    var fe := Filter(expenses, ExpenseInRange(start, end));
    var fp := Filter(purchases, PurchaseInRange(start, end));
    FilterIsFiltered(transactions, TxInRange(start, end));
    FilterIsFiltered(expenses, ExpenseInRange(start, end));
    FilterIsFiltered(purchases, PurchaseInRange(start, end));
    GrossProfitIsLineMargins(ft);
    var revenue := SumBy(ft, TxTotal);
    var gross := SumBy(ft, TxGrossProfit);
    var opex := SumBy(fe, ExpenseAmount);
    var purch := SumBy(fp, PurchaseAmount);
    var stats := SortDesc(WithShares(Aggregate(AllItems(ft)), revenue), StatRevenue);
    Report(revenue, opex + purch, gross - opex, stats, opex, purch, gross, ft, fe, fp)
  }

  /** The ranked category statistics are exactly the scanned categories, each with its share. */
  lemma CategoryStatsAreCategories(transactions: seq<Transaction>, expenses: seq<Expense>, purchases: seq<Purchase>,
                                   start: int, end: int)
    ensures var r := BuildReport(transactions, expenses, purchases, start, end);
      multiset(r.categoryStats) == multiset(WithShares(Aggregate(AllItems(r.filteredTrans)), r.totalRevenue))
  {
  }

  /**
   * The category profits add up to the report's gross profit, and the
   * category revenues to the line revenue of the range's sales (before tax
   * and discount, so not to the revenue figure itself).
   */
  lemma CategoryStatsAddUp(transactions: seq<Transaction>, expenses: seq<Expense>, purchases: seq<Purchase>,
                           start: int, end: int)
    ensures var r := BuildReport(transactions, expenses, purchases, start, end);
      SumBy(r.categoryStats, StatProfit) == r.grossProfit &&
      SumBy(r.categoryStats, StatRevenue) == SumBy(AllItems(r.filteredTrans), LineAmount)
  {
    var r := BuildReport(transactions, expenses, purchases, start, end);
    var items := AllItems(r.filteredTrans);
    var acc := Aggregate(items);
    var shared := WithShares(acc, r.totalRevenue);
    SumByPermutation(r.categoryStats, shared, StatProfit);
    SumByPermutation(r.categoryStats, shared, StatRevenue);
    SumByCongruent(shared, StatProfit, acc, Profit);
    SumByCongruent(shared, StatRevenue, acc, Revenue);
    AggregateTotals(items);
    GrossProfitIsLineMargins(r.filteredTrans);
  }

  /** The "Profit Margin" card: net profit over revenue in percent, dividing by 1 when there is no revenue. */
  function ProfitMargin(netProfit: real, totalRevenue: real): (m: real)
    ensures totalRevenue != 0.0 ==> m * totalRevenue == netProfit * 100.0
    ensures totalRevenue == 0.0 ==> m == netProfit * 100.0
  {
    netProfit / (if totalRevenue == 0.0 then 1.0 else totalRevenue) * 100.0
  }

  /** Widening the range never drops a record: everything in a range is in any range containing it. */
  lemma WiderRangeKeepsRecords(transactions: seq<Transaction>, expenses: seq<Expense>, purchases: seq<Purchase>,
                               start: int, end: int, start': int, end': int)
    requires start' <= start && end <= end'
    ensures var r := BuildReport(transactions, expenses, purchases, start, end);
      var w := BuildReport(transactions, expenses, purchases, start', end');
      (forall t | t in r.filteredTrans :: t in w.filteredTrans) &&
      (forall e | e in r.filteredExp :: e in w.filteredExp) &&
      (forall p | p in r.filteredPurch :: p in w.filteredPurch)
  {
    var r := BuildReport(transactions, expenses, purchases, start, end);
    var w := BuildReport(transactions, expenses, purchases, start', end');
    forall t | t in r.filteredTrans ensures t in w.filteredTrans {
      assert t in transactions && InRange(t.timestamp, start', end');
    }
    forall e | e in r.filteredExp ensures e in w.filteredExp {
      assert e in expenses && InRange(e.date, start', end');
    }
    forall p | p in r.filteredPurch ensures p in w.filteredPurch {
      assert p in purchases && InRange(p.date, start', end');
    }
  }
}
