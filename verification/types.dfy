/**
 * The application's record shapes and enumerations (types.ts).
 * Money is an exact `real`, stock and quantities are `int`, timestamps are
 * integer milliseconds. Optional fields (`x?: T`) are `Option<T>`.
 */
module Types {
  import opened Wrappers

  datatype Product = Product(
    id: string,
    name: string,
    category: string,
    brand: string,
    price: real,      // selling price
    costPrice: real,
    stock: int,
    image: string,
    sku: string)

  /** A cart line is a snapshot of a product record together with a quantity. */
  datatype CartItem = CartItem(product: Product, quantity: int) {
    function id(): string { product.id }
    function name(): string { product.name }
    function category(): string { product.category }
    function price(): real { product.price }
    function costPrice(): real { product.costPrice }
  }

  datatype PaymentMethod = Cash | Card | Digital | Credit

  datatype Transaction = Transaction(
    id: string,
    timestamp: int,
    items: seq<CartItem>,
    total: real,
    tax: real,
    discount: real,
    paymentMethod: PaymentMethod,
    customerId: Option<string>)

  datatype TaskStatus = Todo | InProgress | Done
  datatype TaskPriority = Low | Medium | High

  datatype ShopTask = ShopTask(
    id: string,
    title: string,
    description: string,
    status: TaskStatus,
    priority: TaskPriority)

  datatype Customer = Customer(
    id: string,
    name: string,
    email: string,
    phone: string,
    totalSpent: real,
    creditBalance: real,
    lastVisit: int)

  datatype Expense = Expense(
    id: string,
    title: string,
    category: string,
    amount: real,
    date: int,
    note: string,
    isRecurring: Option<bool>)

  datatype PurchaseStatus = PurchasePending | Received | Cancelled

  datatype Purchase = Purchase(
    id: string,
    supplier: string,
    date: int,
    amount: real,
    status: PurchaseStatus,
    items: Option<seq<CartItem>>)

  datatype UserRole = Admin | Manager | Cashier

  /** The role as the string the application stores and searches. */
  function RoleName(role: UserRole): string {
    match role
    case Admin => "Admin"
    case Manager => "Manager"
    case Cashier => "Cashier"
  }

  datatype UserStatus = Active | Inactive

  datatype User = User(
    id: string,
    name: string,
    role: UserRole,
    email: string,
    password: Option<string>,
    status: UserStatus,
    avatar: Option<string>,
    twoFactorEnabled: Option<bool>,
    loginNotificationsEnabled: Option<bool>)

  datatype ReturnType = SalesReturn | PurchaseReturn
  datatype ReturnStatus = ReturnPending | Completed | Rejected

  /** One returned line: the original product id, its name, the quantity and unit price. */
  datatype ReturnLine = ReturnLine(productId: string, name: string, quantity: int, price: real)

  datatype AppReturn = AppReturn(
    id: string,
    kind: ReturnType,          // `type` in the source
    referenceId: string,       // the original transaction or purchase id
    date: int,
    amount: real,
    items: seq<ReturnLine>,
    status: ReturnStatus,
    reason: Option<string>)

  /** The boolean switches of the system settings. */
  datatype FlagKey =
    | ManagerAccessToUsers
    | ManagerAccessToInventory
    | ManagerAccessToReports
    | ManagerAccessToPnL
    | ManagerAccessToExpenses
    | ManagerAccessToPurchases
    | ManagerAccessToCustomers
    | ManagerAccessToWarehouse
    | ManagerAccessToAiAssistant
    | ManagerAccessToCreativeStudio
    | ManagerAccessToOpsBoard
    | ManagerAccessToReturns
    | CashierAccessToInventory
    | AllowTransactionDeletion
    | LockSystemCurrency

  /** The text-valued settings. */
  datatype TextKey = BusinessName | BaseCurrency | PrimaryLanguage

  /** `keyof SystemSettings` */
  datatype SettingKey = FlagSetting(flag: FlagKey) | TextSetting(text: TextKey)

  datatype SettingValue = BoolValue(b: bool) | TextValue(s: string) | Undefined

  /**
   * The system settings: the three text fields and the fifteen switches, the
   * switches keyed by name. A switch missing from the map is one the stored
   * object lacks (`undefined`).
   */
  datatype SystemSettings = SystemSettings(
    businessName: string,
    flags: map<FlagKey, bool>,
    baseCurrency: string,
    primaryLanguage: string)
}
