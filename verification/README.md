# A verified model of a point-of-sale front end

This project models the business rules of a single-shop point-of-sale
application. The application is a React front end in which the shell
(`App.tsx`) keeps the shared store: products, customers, transactions,
returns, expenses, users and settings. The views change the store through
callbacks. The model covers:

- **the shell's settlement rules**: adding to the cart, recording a sale and
  processing a return;
- **the sales terminal**: product search, checkout totals (8% tax, flat
  discount, total clamped at zero), the checkout handler and quick-add
  customers;
- **the buy-now-pay-later ledger**: debtors, outstanding total, repayments
  floored at zero, and a debtor's credit history;
- **inventory**: stock status, status counts, filters, valuation, row
  selection, bulk update and delete, import of decoded spreadsheet rows, and
  single-product save and delete;
- **the profit-and-loss report**: the date range, revenue, gross, net and
  total expenses, and per-category statistics;
- **the dashboard overview** and its printed receipt;
- **expenses**: the expense list, the spend totals and the category list;
- **staff**: accounts, the staff search, role counts and manager permission
  switches;
- **sign-in**;
- **the settings page**: its working copy, the edits to it, the save, and the factory defaults.

Every handler is a pure function from the old state to the new one.
`Date.now()` becomes a parameter `now`. A `confirm()` dialog becomes a
parameter `confirmed`. Any other foreign call also becomes a parameter:
`Number` for the bulk stock update, `encodeURIComponent`, and the calendar
day of a time stamp in the browser's locale. Amounts of money are `real`.
Stock and quantities are `int`. JavaScript truthiness of strings is written
out (`Text.Truthy`, `Text.OptTruthy`).

Modules, one per source concern:

| module | file | models |
|---|---|---|
| `Wrappers`, `Text`, `Seqs` | wrappers.dfy, text.dfy, seqs.dfy | `Option`; string truthiness, case mapping, `includes`, `trim`; `find`, `filter`, `reduce`, `slice`, descending `sort` |
| `Types` | types.dfy | the records of `types.ts` |
| `Cart`, `Settlement`, `Shell` | cart.dfy, settlement.dfy, shell.dfy | `App.tsx`: cart, `saveTransaction`, `handleProcessReturn`, the store as a state machine |
| `Pos` | pos.dfy | `components/POSView.tsx` |
| `CreditLedger` | credit_ledger.dfy | `components/CreditLedgerView.tsx` |
| `Inventory` | inventory.dfy | `components/InventoryView.tsx` |
| `PnL` | pnl.dfy | `components/PnLView.tsx` |
| `Dashboard` | dashboard.dfy | `components/DashboardView.tsx` |
| `Expenses` | expenses.dfy | `components/ExpensesView.tsx` |
| `Staff` | staff.dfy | `components/UsersView.tsx` |
| `Login` | login.dfy | `components/LoginView.tsx` |
| `Settings` | settings.dfy | `components/SettingsView.tsx` and the defaults in `App.tsx` |

Behaviour of the source that the proofs make explicit:

- The P&L category percentages are shares of the revenue figure. That figure
  is the sum of transaction totals, after tax and discount. The category
  revenues are pre-tax line amounts. So the percentages do not add up to 100
  (`PnL.CategoryStatsAddUp`).
- Sign-in accepts either demo password for any listed e-mail. The stored
  password, role and status are never looked at
  (`Login.PasswordNotTiedToAccount`).
- A sales return can be processed twice and then restocks twice
  (`Settlement.DuplicateSalesReturnCountsTwice`).
- The staff dialog's permission toggle turns on a switch the settings record
  lacks. The settings page leaves such a switch alone
  (`Staff.PermissionToggleGrantsMissing`).
- The "last category cannot be deleted" guard relies on the list having no
  repeats (`Expenses.RepeatedCategoryEmptiesList`).

## Model

| member | source | states |
|---|---|---|
| Text.ToUpper | components/InventoryView.tsx:258 | upper-casing keeps the length, maps each character and yields an upper-case string |
| Text.ToUpperIdempotent | components/InventoryView.tsx:258 | upper-casing an already upper-cased SKU changes nothing |
| Text.Trim | components/ExpensesView.tsx:54 | the trimmed name neither starts nor ends with white space |
| Text.TrimRemovesOnlySurroundingSpace | components/ExpensesView.tsx:54 | the trimmed name is a slice of the input with only white space before and after it |
| Text.TrimIdempotent | components/ExpensesView.tsx:54 | trimming a trimmed category name changes nothing |
| Text.NatToString | App.tsx:192 | the time stamp in a generated id is a non-empty run of decimal digits |
| Text.NatToStringInjective | App.tsx:192 | distinct time stamps render as distinct digit strings, so ids with the same prefix differ |
| Seqs.Find | App.tsx:140 | `find` returns nothing exactly when no element matches, else the first match |
| Seqs.SortDesc | components/DashboardView.tsx:49 | the descending sort returns a permutation of its input ordered by non-increasing key |
| Seqs.TopOfSorted | components/DashboardView.tsx:37-40 | taking the first n of a sorted list keeps every element whose key exceeds the smallest shown |
| Seqs.FilterIsFiltered | components/POSView.tsx:69-75 | every `filter` keeps the matching elements in their original order, each as often as in the input, and drops the rest |
| Seqs.FilteredIsFilter | components/POSView.tsx:69-75 | any in-order selection of exactly the matching elements, with their counts, is the `filter` result |
| Cart.AddToCart | App.tsx:138-146 | a product in the cart gains one unit on its line; a new product is appended with quantity 1; the line ids stay unique |
| Cart.AddExistingChangesOneLine | App.tsx:142-143 | with unique ids, re-adding a product changes only its own line, by one unit |
| Cart.AddExistingUnits | App.tsx:142-143 | re-adding a product raises the cart's unit count by exactly one |
| Cart.AddExistingSubtotal | App.tsx:142-143 | re-adding a product raises the subtotal by its line's unit price |
| Cart.AddNewTotals | App.tsx:145 | adding a new product raises units by one and the subtotal by its price |
| Cart.UpdateQuantity | App.tsx:192 | the quantity changes by delta on matching lines, never below 1; other lines are untouched |
| Cart.UpdateQuantityRoundTrip | App.tsx:192 | +delta then -delta restores the cart when no clamp applied |
| Cart.RemoveFromCart | App.tsx:192 | removal drops exactly the lines with the id and keeps every other line in cart order, each as often as before |
| Cart.AddThenRemove | App.tsx:138-146 | removing a product just added as a new line restores the cart |
| Cart.ClearedCartStartsFresh | App.tsx:148 | after clearing, no product is in the cart, the totals are zero and the next add starts a one-line cart |
| Cart.Totals | components/POSView.tsx:77-79 | tax is 8% of the subtotal; the total is subtotal plus tax minus discount, clamped at 0 |
| Cart.TotalsNonNegative | components/POSView.tsx:77-79 | with non-negative prices the subtotal and tax are non-negative and the total never exceeds subtotal plus tax |
| Cart.TotalMonotoneInDiscount | components/POSView.tsx:79 | a larger discount never gives a larger total |
| Settlement.SaveTransaction | App.tsx:150-164 | the sale heads the ledger; stock drops by each sold quantity; the named customer's spend, Credit balance and last visit are updated; nothing else changes |
| Settlement.SaveTransactionKeepsCustomersSound | App.tsx:156-163 | a sale with a non-negative total keeps balances and spends non-negative |
| Settlement.RefundedCustomer | App.tsx:177-179 | a customer is refunded only for a Sales return against a listed Credit sale naming a customer, and the one refunded is that sale's customer |
| Settlement.ProcessReturn | App.tsx:166-187 | the return heads the list; Sales returns restock and Purchase returns destock; the refunded customer's balance and spend drop, floored at 0 |
| Settlement.ProcessReturnKeepsCustomersSound | App.tsx:177-186 | any return keeps balances and spends non-negative |
| Settlement.SaleThenFullReturnRestoresStock | App.tsx:150-187 | a sale followed by its full return restores every product's stock |
| Settlement.CreditSaleThenFullReturnRestoresCustomer | App.tsx:150-187 | a Credit sale followed by its full return restores the customer except for the last visit |
| Settlement.DuplicateSalesReturnCountsTwice | App.tsx:166-176 | nothing deduplicates returns: a repeated Sales return restocks twice |
| Pos.FilterProducts | components/POSView.tsx:69-75 | exactly the products in the category whose name or SKU contains the query, ignoring case, in catalogue order and each as often as listed |
| Pos.FilterProductsShowsAll | components/POSView.tsx:69-75 | category 'All' with an empty query lists the whole catalogue in order |
| Pos.HandleCheckout | components/POSView.tsx:81-102 | an empty cart does nothing; Credit without a customer is refused; otherwise the transaction carries the cart, totals, discount, method and customer |
| Pos.CheckoutBooksSelectedCustomer | components/POSView.tsx:81-102 | a sale is booked to the selected customer, to none exactly when none is selected, and then no customer record changes |
| Pos.Checkout | components/POSView.tsx:81-102 | a refused checkout changes nothing; a sale is saved and opens the success dialog |
| Pos.CreditWithoutCustomerChangesNothing | components/POSView.tsx:83-86 | a Credit checkout without a customer leaves the store untouched |
| Pos.CheckoutKeepsCustomersSound | components/POSView.tsx:81-102 | a checkout keeps balances and spends non-negative |
| Pos.CloseSuccess | components/POSView.tsx:104-111 | closing the dialog empties the cart and clears discount, customer and last sale |
| Pos.CloseSuccessResetsSale | components/POSView.tsx:104-111 | after closing, the totals are zero and a checkout does nothing |
| Pos.QuickAddCustomer | components/POSView.tsx:125-134 | a name and phone are required; the customer is appended owing nothing; balances stay non-negative |
| CreditLedger.Debtors | components/CreditLedgerView.tsx:18-25 | exactly the matching customers owing something, largest balance first |
| CreditLedger.OutstandingIsDebtorTotal | components/CreditLedgerView.tsx:27-29 | the outstanding total is non-negative and equals the unfiltered debtor list's total |
| CreditLedger.Settle | components/CreditLedgerView.tsx:31-48 | without a debtor or a positive amount nothing changes; otherwise only that balance drops by the amount, floored at 0 |
| CreditLedger.SettleKeepsCustomersSound | components/CreditLedgerView.tsx:38-42 | a repayment keeps every balance non-negative |
| CreditLedger.SettleLowersOutstanding | components/CreditLedgerView.tsx:31-48 | a repayment never raises the outstanding total |
| CreditLedger.DebtorTransactions | components/CreditLedgerView.tsx:50-54 | exactly the customer's Credit transactions, newest first |
| Inventory.GetStockStatus | components/InventoryView.tsx:75-79 | out of stock iff stock <= 0, low iff 1..5, in stock iff > 5 |
| Inventory.CountStatuses | components/InventoryView.tsx:81-88 | each tab's count is the number of products with that status, and the three add up to All |
| Inventory.FilterInventory | components/InventoryView.tsx:90-98 | exactly the products matching name, SKU or brand and the status tab, in catalogue order and each as often as listed |
| Inventory.ValuationSplits | components/InventoryView.tsx:101-117 | the catalogue valuation is the filtered rows' valuation plus the hidden rows' |
| Inventory.PotentialMargin | components/InventoryView.tsx:101-107 | retail minus cost value is the sum of unit margin times stock |
| Inventory.ToggleSelect | components/InventoryView.tsx:130-138 | flips membership of the id and of no other id |
| Inventory.ToggleTwice | components/InventoryView.tsx:130-138 | toggling twice restores the selection |
| Inventory.SelectAllAsWritten | components/InventoryView.tsx:122-128 | clears when the selection's size equals the row count, else selects the listed ids |
| Inventory.SelectAllAsWrittenClearsUnselected | components/InventoryView.tsx:122-128 | a hidden selected row makes select-all clear a listed row that was never selected |
| Inventory.SelectAll | components/InventoryView.tsx:122-128 | clears exactly when every listed row is selected, else selects exactly the listed rows |
| Inventory.SelectAllTwice | components/InventoryView.tsx:122-128 | from nothing, select-all selects every listed row and a second press clears them |
| Inventory.BulkDelete | components/InventoryView.tsx:140-145 | once confirmed, exactly the unselected products remain in catalogue order, each as often as before, and the selection clears |
| Inventory.DeleteProduct | components/InventoryView.tsx:313-323 | once confirmed, exactly the products with other ids remain in catalogue order, each as often as before, and the id leaves the selection |
| Inventory.DeleteIsBulkDeleteOfOne | components/InventoryView.tsx:140-145 | deleting a single selected product equals bulk-deleting that selection |
| Inventory.ApplyBulkUpdate | components/InventoryView.tsx:147-165 | with a field and value, selected products get the stock or category and the selection clears; otherwise nothing changes |
| Inventory.CategoryUpdateKeepsValuation | components/InventoryView.tsx:147-165 | moving products to another category leaves the cost, retail and unit totals unchanged |
| Inventory.BulkUpdateOfOneIsEdit | components/InventoryView.tsx:147-165 | bulk-updating the stock or category of one selected product with a unique id equals editing it in the product form and saving |
| Inventory.RowToProduct | components/InventoryView.tsx:255-265 | an imported product keeps the row's name and price, an upper-cased SKU, the id `bulk-<time stamp>-<row index>`, cost and stock defaulting to 0, General and Generic, and a placeholder image seeded by the SKU as typed |
| Inventory.ValidProductsCount | components/InventoryView.tsx:245-266 | one product per kept row |
| Inventory.ImportedSkusUpper | components/InventoryView.tsx:258 | every imported SKU is upper-case |
| Inventory.ImportedFromKeptRow | components/InventoryView.tsx:245-266 | every imported product is built from a kept row with that row's index |
| Inventory.KeptRowImported | components/InventoryView.tsx:245-266 | every kept row is imported |
| Inventory.ImportRows | components/InventoryView.tsx:242-275 | the import fails iff no row is kept; otherwise the kept rows' products, in row order, precede the unchanged catalogue |
| Inventory.ImportedFromRow | components/InventoryView.tsx:245-275 | every product added by an import is built from a kept row with that row's index |
| Inventory.RowImported | components/InventoryView.tsx:245-275 | every kept row's product is among those an import adds |
| Inventory.ImportFailsIffNoKeptRow | components/InventoryView.tsx:250-270 | the import fails exactly when no row has a name, SKU and numeric price |
| Inventory.NewProduct | components/InventoryView.tsx:295-305 | a created product takes the form's fields, an upper-cased SKU, the category and brand defaults, and a placeholder image seeded by the SKU when none is given |
| Inventory.SaveProduct | components/InventoryView.tsx:283-311 | a form without name, price or SKU is refused; an edit replaces the edited id; a create prepends |
| Inventory.SaveUnchangedEditIsIdentity | components/InventoryView.tsx:290-292 | saving an unchanged edit leaves the catalogue as it was |
| PnL.AllItems | components/PnLView.tsx:66-83 | the scanned lines are exactly the lines of the transactions in range: every such line is scanned and every scanned line comes from one |
| PnL.AllItemsConcat | components/PnLView.tsx:66-83 | the lines of one transaction are its items, and scanning two lists of transactions is scanning each in turn |
| PnL.GrossProfitIsLineMargins | components/PnLView.tsx:44-49 | gross profit is the margin summed over all lines |
| PnL.AddItem | components/PnLView.tsx:70-82 | a line adds its revenue, units and margin to its own category only, creating it when first seen |
| PnL.Aggregate | components/PnLView.tsx:65-83 | one entry per category that appears among the lines, with no repeats |
| PnL.AggregateEntries | components/PnLView.tsx:65-83 | each entry's revenue, profit and units are the sums over that category's lines |
| PnL.AggregateTotals | components/PnLView.tsx:65-83 | category revenues and margins add up to the line revenue and margin |
| PnL.Share | components/PnLView.tsx:92 | share times the revenue figure is 100 times the category revenue; 0 without revenue |
| PnL.WithShares | components/PnLView.tsx:90-92 | each statistic copies its category entry and adds its share |
| PnL.BuildReport | components/PnLView.tsx:34-97 | the three lists are exactly the records in [start, end + one day] in order; revenue, gross profit, operating costs and purchases are sums over those records; net = gross - operating; total expenses = operating + purchases; categories by revenue |
| PnL.CategoryStatsAreCategories | components/PnLView.tsx:90-93 | the ranked statistics are a permutation of the scanned categories |
| PnL.CategoryStatsAddUp | components/PnLView.tsx:42-93 | category profits sum to gross profit; category revenues sum to the pre-tax line revenue |
| PnL.ProfitMargin | components/PnLView.tsx:199 | margin times revenue is 100 times net profit; without revenue the divisor is 1 |
| PnL.WiderRangeKeepsRecords | components/PnLView.tsx:35-40 | widening the range drops no transaction, expense or purchase |
| Dashboard.Stats | components/DashboardView.tsx:18-52 | today's takings and orders are the sum and size of today's sales; the low-stock count is the size of that filter; debt is the outstanding total; debtors and latest sales use each record at most as often as it occurs; the low-stock and pending lists are the first 4 and 3 of their filters |
| Dashboard.TopDebtors | components/DashboardView.tsx:37-40 | at most four customers, all owing something, largest balance first, none repeated more often than listed |
| Dashboard.RecentSales | components/DashboardView.tsx:49 | the five latest sales, or all when fewer, newest first, none repeated more often than recorded |
| Dashboard.LowStockIsLowPlusOut | components/DashboardView.tsx:22 | the low-stock card counts the inventory's low plus out-of-stock products |
| Dashboard.DebtorsAreLedgerTop | components/DashboardView.tsx:37-40 | the top debtors are the first four of the ledger's unfiltered list |
| Dashboard.TopDebtorsAreLargest | components/DashboardView.tsx:37-40 | no customer owing more than the smallest shown balance is missing |
| Dashboard.RecentAreLatest | components/DashboardView.tsx:49 | no sale later than the oldest shown is missing |
| Dashboard.TodayWithinAllTime | components/DashboardView.tsx:19-21 | with non-negative totals, today's takings are at most all takings |
| Dashboard.ReceiptAsWrittenRightIffUnclamped | components/DashboardView.tsx:210 | the printed subtotal is right exactly when the total was not clamped |
| Dashboard.ReceiptAsWrittenWrongWhenClamped | components/DashboardView.tsx:210 | one unit at 100 with discount 150 prints 142 instead of 100 |
| Dashboard.ReceiptSubtotal | components/DashboardView.tsx:210 | the intended subtotal is the sum of the sold lines and is never negative when prices and quantities are not |
| Dashboard.ReceiptSubtotalIsTaxBase | components/POSView.tsx:77-79 | the corrected subtotal is the one the 8% tax was charged on |
| Expenses.FirstCategory | components/ExpensesView.tsx:27 | the default category is the first listed one when that is non-empty, and 'Operational' otherwise |
| Expenses.SubmitExpense | components/ExpensesView.tsx:33-50 | no title or zero amount changes nothing; otherwise the expense heads the list, filed under the form's category or else the default one, and the form resets |
| Expenses.SubmitAddsToSpend | components/ExpensesView.tsx:71 | recording adds the amount to total spend, and to fixed burn exactly when recurring |
| Expenses.RecurringWithinTotal | components/ExpensesView.tsx:104 | with non-negative amounts, fixed burn is between 0 and total spend |
| Expenses.DefaultCategoriesValid | App.tsx:55 | the default categories are non-empty, distinct and not blank |
| Expenses.AddCategory | components/ExpensesView.tsx:52-61 | a blank or listed trimmed name is refused; any other is appended |
| Expenses.DeleteCategory | components/ExpensesView.tsx:63-69 | the only category is kept; otherwise exactly the named one goes and the rest keep their order and counts |
| Expenses.DeleteCategoryAt | components/ExpensesView.tsx:63-69 | with distinct names and more than one category, deleting the one at position k leaves the list with just that position cut out |
| Expenses.AddCategoryKeepsValid | components/ExpensesView.tsx:52-61 | adding keeps the list non-empty, distinct and non-blank |
| Expenses.DeleteCategoryKeepsValid | components/ExpensesView.tsx:63-69 | deleting keeps the list non-empty, distinct and non-blank |
| Expenses.DeleteRemovesOne | components/ExpensesView.tsx:68 | without repeats, deleting a listed category removes one entry |
| Expenses.RepeatedCategoryEmptiesList | components/ExpensesView.tsx:63-69 | with a repeated name, the guard fails and the list empties |
| Expenses.AddThenDeleteCategory | components/ExpensesView.tsx:52-69 | deleting a just-added category restores the list |
| Staff.AddUser | components/UsersView.tsx:38-57 | no name or e-mail is refused; otherwise one account is appended, Cashier and Active by default |
| Staff.UpdateUser | components/UsersView.tsx:59-65 | the edited id's accounts are replaced and no others |
| Staff.DeleteUser | components/UsersView.tsx:67-71 | once confirmed, exactly the accounts with other ids remain, in list order and each as often as before |
| Staff.UpdateThenDelete | components/UsersView.tsx:59-71 | an edit is invisible once the account is removed |
| Staff.AddThenDeleteUser | components/UsersView.tsx:38-71 | removing a just-added account with a fresh id restores the list |
| Staff.FilterUsers | components/UsersView.tsx:80-84 | exactly the accounts whose name, role or e-mail contains the term, in list order and each as often as listed |
| Staff.EmptySearchListsAll | components/UsersView.tsx:80-84 | an empty search lists every account in order |
| Staff.CountRoles | components/UsersView.tsx:120 | the role counts add up to the number of accounts |
| Staff.AddUserCountsRole | components/UsersView.tsx:38-57 | adding an account raises its role's count by one and no other |
| Staff.ToggleManagerPermission | components/UsersView.tsx:73-78 | the switch becomes the negation of its truthiness; nothing else changes |
| Staff.PermissionToggleAgreesWithSettings | components/UsersView.tsx:73-78 | on a present switch the dialog and the settings page toggle alike |
| Staff.PermissionToggleGrantsMissing | components/UsersView.tsx:73-78 | on a missing switch the dialog turns it on and the settings page does nothing |
| Login.HandleLogin | components/LoginView.tsx:17-32 | sign-in succeeds iff a demo password is given and the e-mail is listed, picking the first such account; else the error shows |
| Login.PasswordNotTiedToAccount | components/LoginView.tsx:24 | either demo password signs any listed e-mail into the same account |
| Login.LoginFindsOwnAccount | components/LoginView.tsx:24 | with unique e-mails, an account's e-mail signs in that account |
| Login.QuickLoginChoices | components/LoginView.tsx:136 | the one-click choices are the first three accounts |
| Login.QuickLogin | components/LoginView.tsx:34-37 | the chosen account is signed in and the screen turns busy |
| Login.QuickLoginIsCheckedLogin | components/LoginView.tsx:18-37 | with unique e-mails, one-click sign-in picks the account the checked sign-in gives for its e-mail and a demo password, and with no error showing leaves the same screen state |
| Settings.SettingsExtensional | types.ts:99-118 | records agreeing on every key are equal |
| Settings.HandleToggle | components/SettingsView.tsx:16-23 | a present switch is negated; text fields and missing switches are left alone; no other key changes |
| Settings.ToggleTwice | components/SettingsView.tsx:16-23 | toggling a key twice restores the settings |
| Settings.HandleChange | components/SettingsView.tsx:25-30 | the text field reads the value; no other key changes |
| Settings.ChangeBackRestores | components/SettingsView.tsx:25-30 | typing back the old value restores the settings |
| Settings.EditsStayLocal | components/SettingsView.tsx:12-30 | edits on the page change only its working copy, which becomes the edits applied in order; the application's settings stay as they were |
| Settings.SaveStoresEdits | components/SettingsView.tsx:32-41 | saving hands the working copy unchanged to the shell, so the stored settings become exactly the edits applied to the record the page opened with; saving again changes nothing |
| Settings.SaveUneditedKeepsSettings | components/SettingsView.tsx:32-41 | saving without edits, or after a switch was toggled twice, leaves the stored settings as they were |
| Settings.DefaultsGrantAccess | App.tsx:86-105 | out of the box every switch is set, every access switch is on and transaction deletion is off |
| Shell.StepKeepsCustomersSound | App.tsx:150-192 | sales, returns, repayments and quick-adds keep balances and spends non-negative |
| Shell.RunKeepsCustomersSound | App.tsx:150-192 | any sequence of those events keeps balances and spends non-negative |
| Shell.StepKeepsHistory | App.tsx:150-187 | one event only puts sales and returns in front of the history |
| Shell.RunKeepsHistory | App.tsx:150-187 | the sales and returns history is append-only |

## Left out

- The AI assistant views and the `services/geminiService.ts` calls: they call a remote model.
- Spreadsheet parsing (XLSX), export, barcode and receipt printing, and the camera scanner. These are I/O. The import is modelled from the decoded rows on.
- Persistence to `localStorage` (App.tsx:57-65, 108-117) and the online/offline listeners (App.tsx:120-136). These are browser I/O.
- `setTimeout` delays in sign-in, quick login and settings save. Only the state after the delay is modelled.
- The settings page's saving spinner and saved banner (`isSaving`, `showToast`). They are display state. The save itself is modelled by `Settings.SavePage`, which hands the working copy to the shell's `setSettings` (App.tsx:206).
- The seven-day charts and the P&L daily buckets. They depend on locale date strings. The dashboard's "today" is modelled through the `dayOf` parameter.
- `Number` / `parseFloat` / `isNaN` parsing. Inputs arrive already parsed: `NumericInput`, `Option<real>`, or the `number` parameter of the bulk update. One quirk follows from this: an import row whose 'Selling Price' is 0 and that has no 'price' column parses to NaN and is skipped. The model sees that row as having no price.
- IEEE floating-point rounding. Money is exact `real`.
- `toLowerCase`, `toUpperCase` and `trim` are modelled on ASCII only. They do no Unicode case mapping and treat no Unicode white space as space.
- The `|| 0` guards on typed numeric fields (`costPrice`, `creditBalance`). Those fields are always numbers in the model.
- Settings.HandleChange: restricted to the three text fields. The page only calls `handleChange` for text inputs.
- The ordering of `Object.values`, which puts integer-like keys first. PnL.Aggregate keeps categories in order of first appearance. The ranked statistics are only claimed to be sorted by revenue and a permutation of the categories.
- Seqs.SortDesc: the model's sort is a stable insertion sort, but stability itself is not stated.
- View routing, the sign-in gate and the role-based menu are left out. They choose what is shown, not what is stored.
- Cart lines are identified by product id, as in the source. The cart stores a snapshot of the product, and later catalogue edits do not reach it.

## Findings

| source | as written | input that shows it | evidently intended | confidence | as-written member | corrected member |
|---|---|---|---|---|---|---|
| components/DashboardView.tsx:210 | the receipt's Subtotal line is `total - tax + discount` | one unit at 100 with a discount of 150: total clamped to 0, tax 8, Subtotal prints 142 | the sum of the sold lines (100), on which the tax was charged | high, not executed | Dashboard.ReceiptSubtotalAsWritten | Dashboard.ReceiptSubtotal |
| components/InventoryView.tsx:122-128 | select-all clears when the number of selected ids equals the number of listed rows | selection {"a"} while the list shows only product "b": the button clears the selection instead of selecting "b" | clear only when every listed row is already selected | medium, not executed | Inventory.SelectAllAsWritten | Inventory.SelectAll |

The receipt finding is exhibited by `Dashboard.ReceiptAsWrittenWrongWhenClamped`. `Dashboard.ReceiptAsWrittenRightIffUnclamped` bounds it: it shows the printed line is wrong exactly when the total was clamped. The corrected subtotal's property is `Dashboard.ReceiptSubtotalIsTaxBase`. The select-all finding is exhibited by `Inventory.SelectAllAsWrittenClearsUnselected`. The corrected behaviour is proved by `Inventory.SelectAll` and `Inventory.SelectAllTwice`.
