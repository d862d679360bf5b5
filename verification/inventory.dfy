/**
 * Catalogue management (components/InventoryView.tsx): stock status,
 * status counts, the filtered list and its valuation, row selection, bulk
 * update and delete, spreadsheet import of already-decoded rows, and
 * single-product create, edit and delete.
 */
module Inventory {
  import opened Wrappers
  import opened Types
  import opened Text
  import opened Seqs

  datatype StockStatus = InStock | LowStock | OutOfStock

  /** `getStockStatus`: out of stock at or below 0, low from 1 to 5, in stock above 5. */
  function GetStockStatus(stock: int): (r: StockStatus)
    ensures r == OutOfStock <==> stock <= 0
    ensures r == LowStock <==> 1 <= stock <= 5
    ensures r == InStock <==> stock > 5
  {
    if stock <= 0 then OutOfStock else if stock <= 5 then LowStock else InStock
  }

  datatype StatusCounts = StatusCounts(all: nat, inStock: nat, lowStock: nat, outOfStock: nat)

  predicate IsInStock(p: Product) { p.stock > 5 }
  predicate IsLowStock(p: Product) { p.stock > 0 && p.stock <= 5 }
  predicate IsOutOfStock(p: Product) { p.stock <= 0 }

  /** `statusCounts`: the three status counts partition the catalogue. */
  function CountStatuses(products: seq<Product>): (r: StatusCounts)
    ensures r.all == |products|
    ensures r.inStock + r.lowStock + r.outOfStock == r.all
    ensures r.inStock == Count(products, (p: Product) => GetStockStatus(p.stock) == InStock)
    ensures r.lowStock == Count(products, (p: Product) => GetStockStatus(p.stock) == LowStock)
    ensures r.outOfStock == Count(products, (p: Product) => GetStockStatus(p.stock) == OutOfStock)
  {
    CountsPartition(products);
    CountsAgree(products);
    StatusCounts(|products|, Count(products, IsInStock), Count(products, IsLowStock), Count(products, IsOutOfStock))
  }

  lemma {:induction false} CountsPartition(products: seq<Product>)
    ensures Count(products, IsInStock) + Count(products, IsLowStock) + Count(products, IsOutOfStock) == |products|
  {
    if |products| > 0 {
      CountsPartition(products[1..]);
    }
  }

  lemma {:induction false} CountsAgree(products: seq<Product>)
    ensures Filter(products, IsInStock) == Filter(products, (p: Product) => GetStockStatus(p.stock) == InStock)
    ensures Filter(products, IsLowStock) == Filter(products, (p: Product) => GetStockStatus(p.stock) == LowStock)
    ensures Filter(products, IsOutOfStock) == Filter(products, (p: Product) => GetStockStatus(p.stock) == OutOfStock)
  {
    if |products| > 0 {
      CountsAgree(products[1..]);
    }
  }

  predicate MatchesInventorySearch(p: Product, search: string) {
    IncludesIgnoringCase(p.name, search) || IncludesIgnoringCase(p.sku, search) || IncludesIgnoringCase(p.brand, search)
  }

  /** The status tab: `None` is 'All'. */
  predicate MatchesStatus(p: Product, status: Option<StockStatus>) {
    status.None? || GetStockStatus(p.stock) == status.value
  }

  function Listed(search: string, status: Option<StockStatus>): Product -> bool {
    (p: Product) => MatchesInventorySearch(p, search) && MatchesStatus(p, status)
  }

  /**
   * `filtered`: products whose name, SKU or brand contains the search text and
   * whose status matches the tab, in catalogue order and each as often as listed.
   */
  function FilterInventory(products: seq<Product>, search: string, status: Option<StockStatus>): (r: seq<Product>)
    ensures Filtered(r, products, Listed(search, status))
    ensures forall p | p in r :: p in products && MatchesInventorySearch(p, search) && MatchesStatus(p, status)
    ensures forall p | p in products && MatchesInventorySearch(p, search) && MatchesStatus(p, status) :: p in r
  {
    FilterIsFiltered(products, Listed(search, status));
    Filter(products, Listed(search, status))
  }

  function CostValue(p: Product): real { p.costPrice * p.stock as real }
  function RetailValue(p: Product): real { p.price * p.stock as real }
  function StockUnits(p: Product): real { p.stock as real }
  function MarginValue(p: Product): real { (p.price - p.costPrice) * p.stock as real }

  datatype Valuation = Valuation(cost: real, retail: real, stockTotal: real) {
    function Plus(other: Valuation): Valuation {
      Valuation(cost + other.cost, retail + other.retail, stockTotal + other.stockTotal)
    }
  }

  /** `valuation` / `filteredTotals`: cost and retail value of the stock on hand, and the units on hand. */
  function Valuate(products: seq<Product>): Valuation {
    Valuation(SumBy(products, CostValue), SumBy(products, RetailValue), SumBy(products, StockUnits))
  }

  /** The valuation of the whole catalogue is the valuation of any filter's rows plus that of the rows it hides. */
  lemma ValuationSplits(products: seq<Product>, keep: Product -> bool)
    ensures Valuate(products) == Valuate(Filter(products, keep)).Plus(Valuate(Filter(products, x => !keep(x))))
  {
    SumByPartition(products, CostValue, keep, x => !keep(x));
    SumByPartition(products, RetailValue, keep, x => !keep(x));
    SumByPartition(products, StockUnits, keep, x => !keep(x));
  }

  /** The potential margin shown, retail minus cost, is the sum over products of unit margin times stock. */
  lemma {:induction false} PotentialMargin(products: seq<Product>)
    ensures Valuate(products).retail - Valuate(products).cost == SumBy(products, MarginValue)
  {
    if |products| > 0 {
      PotentialMargin(products[1..]);
      var p := products[0];
      assert MarginValue(p) == RetailValue(p) - CostValue(p) by {
        MulSubDistributes(p.price, p.costPrice, p.stock as real);
      }
    }
  }

  lemma MulSubDistributes(a: real, b: real, c: real)
    ensures (a - b) * c == a * c - b * c
  {
  }

  function IdsOf(products: seq<Product>): (r: set<string>)
    ensures forall id | id in r :: exists i | 0 <= i < |products| :: products[i].id == id
    ensures forall i | 0 <= i < |products| :: products[i].id in r
  {
    set i | 0 <= i < |products| :: products[i].id
  }

  /** `toggleSelect`: flips whether `id` is selected and leaves every other id as it was. */
  function ToggleSelect(sel: set<string>, id: string): (r: set<string>)
    ensures id in r <==> id !in sel
    ensures forall x | x != id :: x in r <==> x in sel
  {
    if id in sel then sel - {id} else sel + {id}
  }

  /** Toggling an id twice restores the selection. */
  lemma ToggleTwice(sel: set<string>, id: string)
    ensures ToggleSelect(ToggleSelect(sel, id), id) == sel
  {
  }

  /**
   * `handleSelectAll` as written: it clears the selection when the NUMBER of
   * selected ids equals the number of listed rows, and otherwise selects
   * exactly the listed ids.
   */
  function SelectAllAsWritten(sel: set<string>, filtered: seq<Product>): (r: set<string>)
    ensures |sel| == |filtered| ==> r == {}
    ensures |sel| != |filtered| ==> forall x :: x in r <==> exists i | 0 <= i < |filtered| :: filtered[i].id == x
  {
    if |sel| == |filtered| then {} else IdsOf(filtered)
  }

  /**
   * Counting instead of comparing membership: one hidden selected row and one
   * different listed row make the "select all" button clear the selection
   * although the listed row was never selected.
   */
  lemma SelectAllAsWrittenClearsUnselected()
    ensures var listed := [Product("b", "Bread", "Bakery", "Local", 1.0, 0.5, 3, "", "B-1")];
      "b" !in {"a"} && SelectAllAsWritten({"a"}, listed) == {}
  {
  }

  /**
   * `handleSelectAll` as intended: it clears the selection exactly when every
   * listed row is already selected, and otherwise selects exactly the listed rows.
   */
  function SelectAll(sel: set<string>, filtered: seq<Product>): (r: set<string>)
    ensures IdsOf(filtered) <= sel ==> r == {}
    ensures !(IdsOf(filtered) <= sel) ==> r == IdsOf(filtered)
    ensures forall i | 0 <= i < |filtered| && filtered[i].id !in sel :: filtered[i].id in r
  {
    if IdsOf(filtered) <= sel then {} else IdsOf(filtered)
  }

  /** From an empty selection, select-all selects every listed row, and pressing it again clears it. */
  lemma SelectAllTwice(filtered: seq<Product>)
    requires |filtered| > 0
    ensures SelectAll({}, filtered) == IdsOf(filtered)
    ensures SelectAll(SelectAll({}, filtered), filtered) == {}
  {
    assert filtered[0].id in IdsOf(filtered);
  }

  function Unselected(sel: set<string>): Product -> bool {
    (p: Product) => p.id !in sel
  }

  function OtherProduct(id: string): Product -> bool {
    (p: Product) => p.id != id
  }

  /**
   * `handleBulkDelete` (the confirmation is `confirmed`): removes exactly the
   * selected products, keeping the others in order, and clears the selection.
   */
  function BulkDelete(products: seq<Product>, sel: set<string>, confirmed: bool): (r: (seq<Product>, set<string>))
    ensures !confirmed ==> r == (products, sel)
    ensures confirmed ==> r.1 == {}
    ensures confirmed ==> Filtered(r.0, products, Unselected(sel))
    ensures confirmed ==> forall p | p in r.0 :: p in products && p.id !in sel
    ensures confirmed ==> forall p | p in products && p.id !in sel :: p in r.0
  {
    FilterIsFiltered(products, Unselected(sel));
    if !confirmed then (products, sel)
    else (Filter(products, Unselected(sel)), {})
  }

  /**
   * `deleteProduct`: removes the products with this id, keeping the others in
   * order, and drops the id from the selection.
   */
  function DeleteProduct(products: seq<Product>, sel: set<string>, id: string, confirmed: bool): (r: (seq<Product>, set<string>))
    ensures !confirmed ==> r == (products, sel)
    ensures confirmed ==> r.1 == sel - {id}
    ensures confirmed ==> Filtered(r.0, products, OtherProduct(id))
    ensures confirmed ==> forall p | p in r.0 :: p in products && p.id != id
    ensures confirmed ==> forall p | p in products && p.id != id :: p in r.0
  {
    FilterIsFiltered(products, OtherProduct(id));
    if !confirmed then (products, sel)
    else (Filter(products, OtherProduct(id)), sel - {id})
  }

  /** Deleting a single selected product is a bulk delete of that one product. */
  lemma DeleteIsBulkDeleteOfOne(products: seq<Product>, id: string)
    ensures DeleteProduct(products, {id}, id, true) == BulkDelete(products, {id}, true)
  {
    var sel := {id};
    FilterCongruent(products, OtherProduct(id), Unselected(sel));
    assert sel - {id} == {};
  }

  datatype BulkKind = StockField | CategoryField

  /**
   * `applyBulkUpdate`: without a field or with an empty value nothing happens;
   * otherwise every selected product gets the new stock (the value read by
   * `number`, the `Number` conversion) or the new category, nothing else
   * changes, and the selection is cleared.
   */
  function ApplyBulkUpdate(products: seq<Product>, sel: set<string>, kind: Option<BulkKind>, value: string,
                           number: string -> int): (r: (seq<Product>, set<string>))
    ensures kind.None? || value == "" ==> r == (products, sel)
    ensures kind.Some? && value != "" ==> r.1 == {}
    ensures |r.0| == |products|
    ensures forall i | 0 <= i < |products| ::
      var p := products[i];
      if kind.Some? && value != "" && p.id in sel then
        r.0[i] == (if kind.value == StockField then p.(stock := number(value)) else p.(category := value))
      else r.0[i] == p
  {
    if kind.None? || value == "" then (products, sel)
    else
      (seq(|products|, i requires 0 <= i < |products| =>
        var p := products[i];
        if p.id in sel then
          (if kind.value == StockField then p.(stock := number(value)) else p.(category := value))
        else p), {})
  }

  /** Moving products to another category leaves the cost, retail and unit totals as they were. */
  lemma CategoryUpdateKeepsValuation(products: seq<Product>, sel: set<string>, value: string, number: string -> int)
    ensures Valuate(ApplyBulkUpdate(products, sel, Some(CategoryField), value, number).0) == Valuate(products)
  {
    var r := ApplyBulkUpdate(products, sel, Some(CategoryField), value, number).0;
    SumByCongruent(r, CostValue, products, CostValue);
    SumByCongruent(r, RetailValue, products, RetailValue);
    SumByCongruent(r, StockUnits, products, StockUnits);
  }

  /**
   * Bulk-updating the category or the stock of one selected product does what
   * editing that product in the product form and saving does, when its id is
   * unique and it has a name, a price and a SKU.
   */
  lemma BulkUpdateOfOneIsEdit(products: seq<Product>, k: nat, kind: BulkKind, value: string,
                              number: string -> int, now: nat)
    requires k < |products| && value != ""
    requires forall j | 0 <= j < |products| :: products[j].id == products[k].id ==> j == k
    requires products[k].name != "" && products[k].price != 0.0 && products[k].sku != ""
    ensures var p := products[k];
      var form := if kind == StockField then p.(stock := number(value)) else p.(category := value);
      SaveProduct(products, Some(p), form, now) == Saved(ApplyBulkUpdate(products, {p.id}, Some(kind), value, number).0)
  {
  }

  /**
   * A spreadsheet row after decoding: both header spellings merged, text
   * cells as strings ("" when absent) and numeric cells as numbers (`None`
   * when absent or, for the price, not a number).
   */
  datatype ImportRow = ImportRow(
    name: string,
    sku: string,
    price: Option<real>,
    costPrice: Option<real>,
    stock: Option<int>,
    category: string,
    brand: string,
    image: string)

  /** A row is kept when it has a name, a SKU and a numeric price. */
  predicate RowValid(row: ImportRow) {
    row.name != "" && row.sku != "" && row.price.Some?
  }

  function PlaceholderImage(sku: string): string {
    "https://picsum.photos/seed/" + sku + "/400/400"
  }

  /** The product built from a kept row at position `index`. */
  function RowToProduct(row: ImportRow, timestamp: nat, index: nat): (p: Product)
    requires RowValid(row)
    ensures p.name == row.name && p.price == row.price.value
    ensures p.sku == ToUpper(row.sku) && IsUpper(p.sku)
    ensures p.costPrice == row.costPrice.GetOr(0.0) && p.stock == row.stock.GetOr(0)
    ensures p.category == (if row.category == "" then "General" else row.category)
    ensures p.brand == (if row.brand == "" then "Generic" else row.brand)
    ensures p.id == "bulk-" + NatToString(timestamp) + "-" + NatToString(index)
    ensures p.image == (if row.image == "" then PlaceholderImage(row.sku) else row.image)
  {
    Product(
      "bulk-" + NatToString(timestamp) + "-" + NatToString(index),
      row.name,
      OrElse(row.category, "General"),
      OrElse(row.brand, "Generic"),
      row.price.value,
      row.costPrice.GetOr(0.0),
      row.stock.GetOr(0),
      OrElse(row.image, PlaceholderImage(row.sku)),
      ToUpper(row.sku))
  }

  /** The products built from the kept rows, in row order; `start` is the index of `rows[0]` in the sheet. */
  function ValidProducts(rows: seq<ImportRow>, timestamp: nat, start: nat): seq<Product>
  {
    if |rows| == 0 then []
    else
      var head := if RowValid(rows[0]) then [RowToProduct(rows[0], timestamp, start)] else [];
      head + ValidProducts(rows[1..], timestamp, start + 1)
  }

  /** One product per kept row. */
  lemma {:induction false} ValidProductsCount(rows: seq<ImportRow>, timestamp: nat, start: nat)
    ensures |ValidProducts(rows, timestamp, start)| == Count(rows, RowValid)
  {
    if |rows| > 0 {
      ValidProductsCount(rows[1..], timestamp, start + 1);
    }
  }

  /** Every imported SKU is upper-case. */
  lemma ImportedSkusUpper(rows: seq<ImportRow>, timestamp: nat, start: nat)
    ensures forall j | 0 <= j < |ValidProducts(rows, timestamp, start)| :: IsUpper(ValidProducts(rows, timestamp, start)[j].sku)
  {
    forall j | 0 <= j < |ValidProducts(rows, timestamp, start)|
      ensures IsUpper(ValidProducts(rows, timestamp, start)[j].sku)
    {
      var i := ImportedFromKeptRow(rows, timestamp, start, j);
    }
  }

  /** The products of a non-empty sheet: the first row's, if it is kept, then the rest's. */
  lemma ValidProductsUnfold(rows: seq<ImportRow>, timestamp: nat, start: nat)
    requires |rows| > 0
    ensures RowValid(rows[0]) ==>
      ValidProducts(rows, timestamp, start) == [RowToProduct(rows[0], timestamp, start)] + ValidProducts(rows[1..], timestamp, start + 1)
    ensures !RowValid(rows[0]) ==> ValidProducts(rows, timestamp, start) == ValidProducts(rows[1..], timestamp, start + 1)
  {
  }

  /** The `j`-th product of a non-empty sheet, located in the first row or in the rest. */
  lemma ValidProductsAt(rows: seq<ImportRow>, timestamp: nat, start: nat, j: nat)
    requires |rows| > 0 && j < |ValidProducts(rows, timestamp, start)|
    ensures RowValid(rows[0]) && j == 0 ==> ValidProducts(rows, timestamp, start)[j] == RowToProduct(rows[0], timestamp, start)
    ensures RowValid(rows[0]) && j > 0 ==>
      j - 1 < |ValidProducts(rows[1..], timestamp, start + 1)| &&
      ValidProducts(rows, timestamp, start)[j] == ValidProducts(rows[1..], timestamp, start + 1)[j - 1]
    ensures !RowValid(rows[0]) ==>
      j < |ValidProducts(rows[1..], timestamp, start + 1)| &&
      ValidProducts(rows, timestamp, start)[j] == ValidProducts(rows[1..], timestamp, start + 1)[j]
  {
    ValidProductsUnfold(rows, timestamp, start);
  }

  /** Every imported product comes from a kept row, built with that row's position; `i` is that row. */
  lemma {:induction false} ImportedFromKeptRow(rows: seq<ImportRow>, timestamp: nat, start: nat, j: nat) returns (i: nat)
    requires j < |ValidProducts(rows, timestamp, start)|
    ensures i < |rows| && RowValid(rows[i])
    ensures ValidProducts(rows, timestamp, start)[j] == RowToProduct(rows[i], timestamp, start + i)
  {
    ValidProductsAt(rows, timestamp, start, j);
    if RowValid(rows[0]) && j == 0 {
      return 0;
    }
    var j' := if RowValid(rows[0]) then j - 1 else j;
    var i' := ImportedFromKeptRow(rows[1..], timestamp, start + 1, j');
    assert rows[1..][i'] == rows[i' + 1];
    i := i' + 1;
    assert start + 1 + i' == start + i;
  }

  /** Every kept row is imported. */
  lemma {:induction false} KeptRowImported(rows: seq<ImportRow>, timestamp: nat, start: nat, i: nat)
    requires i < |rows| && RowValid(rows[i])
    ensures RowToProduct(rows[i], timestamp, start + i) in ValidProducts(rows, timestamp, start)
  {
    var r := ValidProducts(rows, timestamp, start);
    if i == 0 {
      assert r[0] == RowToProduct(rows[0], timestamp, start);
    } else {
      assert rows[1..][i - 1] == rows[i];
      KeptRowImported(rows[1..], timestamp, start + 1, i - 1);
    }
  }

  datatype ImportResult =
    | NoValidRows                          // error shown, catalogue unchanged
    | Imported(products: seq<Product>)     // the new catalogue

  /**
   * The row mapping of `processBulkFile`: rows without a name, a SKU or a
   * numeric price are skipped; if none is left the import fails, otherwise
   * the new products go in front of the catalogue.
   */
  function ImportRows(products: seq<Product>, rows: seq<ImportRow>, timestamp: nat): (r: ImportResult)
    ensures r.NoValidRows? <==> Count(rows, RowValid) == 0
    ensures r.Imported? ==>
      |r.products| == Count(rows, RowValid) + |products| &&
      r.products[..Count(rows, RowValid)] == ValidProducts(rows, timestamp, 0) &&
      r.products[Count(rows, RowValid)..] == products &&
      forall j | 0 <= j < Count(rows, RowValid) :: IsUpper(r.products[j].sku)
  {
    var valid := ValidProducts(rows, timestamp, 0);
    ValidProductsCount(rows, timestamp, 0);
    ImportedSkusUpper(rows, timestamp, 0);
    if |valid| == 0 then NoValidRows
    else
      assert (valid + products)[|valid|..] == products;
      assert (valid + products)[..|valid|] == valid;
      Imported(valid + products)
  }

  /** The import fails exactly when no row has a name, a SKU and a numeric price. */
  lemma ImportFailsIffNoKeptRow(products: seq<Product>, rows: seq<ImportRow>, timestamp: nat)
    ensures ImportRows(products, rows, timestamp).NoValidRows? <==> forall i | 0 <= i < |rows| :: !RowValid(rows[i])
  {
    if exists i | 0 <= i < |rows| :: RowValid(rows[i]) {
      var i :| 0 <= i < |rows| && RowValid(rows[i]);
      KeptRowImported(rows, timestamp, 0, i);
    } else if Count(rows, RowValid) > 0 {
      ValidProductsCount(rows, timestamp, 0);
      var i := ImportedFromKeptRow(rows, timestamp, 0, 0);
    }
  }

  /**
   * Each product an import puts in front of the catalogue is built from a kept
   * row, with that row's position; `i` is that row.
   */
  lemma ImportedFromRow(products: seq<Product>, rows: seq<ImportRow>, timestamp: nat, j: nat) returns (i: nat)
    requires ImportRows(products, rows, timestamp).Imported? && j < Count(rows, RowValid)
    ensures i < |rows| && RowValid(rows[i])
    ensures ImportRows(products, rows, timestamp).products[j] == RowToProduct(rows[i], timestamp, i)
  {
    ValidProductsCount(rows, timestamp, 0);
    assert ImportRows(products, rows, timestamp).products[j] == ValidProducts(rows, timestamp, 0)[j];
    i := ImportedFromKeptRow(rows, timestamp, 0, j);
  }

  /** Every kept row's product is among those an import puts in front of the catalogue. */
  lemma RowImported(products: seq<Product>, rows: seq<ImportRow>, timestamp: nat, i: nat)
    requires ImportRows(products, rows, timestamp).Imported? && i < |rows| && RowValid(rows[i])
    ensures RowToProduct(rows[i], timestamp, i) in ImportRows(products, rows, timestamp).products[..Count(rows, RowValid)]
  {
    KeptRowImported(rows, timestamp, 0, i);
    assert ImportRows(products, rows, timestamp).products[..Count(rows, RowValid)] == ValidProducts(rows, timestamp, 0);
  }

  datatype SaveResult =
    | MissingFields                        // alert, nothing changes
    | Saved(products: seq<Product>)

  /** The product `handleSaveProduct` creates from the form. */
  function NewProduct(form: Product, now: nat): (p: Product)
    ensures p.id == NatToString(now)
    ensures p.name == form.name && p.price == form.price && p.costPrice == form.costPrice && p.stock == form.stock
    ensures IsUpper(p.sku) && p.sku == ToUpper(form.sku)
    ensures p.category == (if form.category == "" then "General" else form.category)
    ensures p.brand == (if form.brand == "" then "Local Brand" else form.brand)
    ensures p.image == (if form.image == "" then PlaceholderImage(form.sku) else form.image)
  {
    Product(
      NatToString(now),
      form.name,
      OrElse(form.category, "General"),
      OrElse(form.brand, "Local Brand"),
      form.price,
      form.costPrice,
      form.stock,
      OrElse(form.image, PlaceholderImage(form.sku)),
      ToUpper(form.sku))
  }

  /**
   * `handleSaveProduct`: a form without a name, a non-zero price or a SKU is
   * refused; an edit replaces only the product with the edited id by the form;
   * a create puts the new product in front of the catalogue.
   */
  function SaveProduct(products: seq<Product>, editing: Option<Product>, form: Product, now: nat): (r: SaveResult)
    ensures r.MissingFields? <==> form.name == "" || form.price == 0.0 || form.sku == ""
    ensures r.Saved? && editing.Some? ==>
      |r.products| == |products| &&
      forall i | 0 <= i < |products| ::
        r.products[i] == if products[i].id == editing.value.id then form else products[i]
    ensures r.Saved? && editing.None? ==>
      |r.products| == |products| + 1 && r.products[1..] == products && r.products[0] == NewProduct(form, now)
  {
    if form.name == "" || form.price == 0.0 || form.sku == "" then MissingFields
    else match editing
      case Some(e) =>
        Saved(seq(|products|, i requires 0 <= i < |products| => if products[i].id == e.id then form else products[i]))
      case None => Saved([NewProduct(form, now)] + products)
  }

  /** Editing a product without changing the form leaves the catalogue as it was. */
  lemma SaveUnchangedEditIsIdentity(products: seq<Product>, i: nat, now: nat)
    requires i < |products|
    requires forall j | 0 <= j < |products| :: products[j].id == products[i].id ==> j == i
    requires products[i].name != "" && products[i].price != 0.0 && products[i].sku != ""
    ensures SaveProduct(products, Some(products[i]), products[i], now) == Saved(products)
  {
  }
}
