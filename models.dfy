/** The records of the server's Models folder, as values. They are also the JSON
    shapes the client pages read. Money is exact (`real`, standing for C#'s
    `decimal`), instants are integer milliseconds since 1970-01-01T00:00Z (the
    precision MongoDB stores), and a nullable field is an `Option`. A document
    id is `None` until the store assigns one on insert. */
module Models {
  import opened Seqs

  /** Promo.cs. `discountType` is "Percentage" or anything else, which the service treats as fixed. */
  datatype Promo = Promo(
    id: Option<string>,
    code: string,
    name: string,
    description: Option<string>,
    discountType: string,
    discountValue: real,
    minPurchase: real,
    maxDiscount: Option<real>,
    startDate: int,
    endDate: int,
    usageLimit: Option<int>,
    usedCount: int,
    isActive: bool,
    createdAt: int)

  /** Cart.cs, `CartItem`: one order line, with the unit price copied at checkout. */
  datatype CartItem = CartItem(
    productId: string,
    productName: string,
    price: real,
    quantity: int,
    imageUrl: Option<string>,
    size: Option<string>)

  /** Order.cs. */
  datatype Order = Order(
    id: Option<string>,
    userId: Option<string>,
    items: seq<CartItem>,
    totalAmount: real,
    status: string,
    createdAt: int,
    customerName: string,
    shippingAddress: string,
    phoneNumber: string,
    promoCode: Option<string>,
    discountAmount: real)

  /** Product.cs. */
  datatype Product = Product(
    id: string,
    name: string,
    price: real,
    category: string,
    description: Option<string>,
    imageUrl: Option<string>,
    stock: int,
    sizes: seq<string>)

  /** User.cs, `UserAddress`. */
  datatype UserAddress = UserAddress(
    id: string,
    addressLabel: string,  // `Label`; `label` is a Dafny keyword
    recipientName: string,
    phoneNumber: string,
    street: string,
    city: string,
    province: string,
    postalCode: string,
    isDefault: bool)

  /** User.cs. The password is stored as given. */
  datatype User = User(
    id: Option<string>,
    email: string,
    password: string,
    fullName: string,
    role: string,
    addresses: seq<UserAddress>,
    walletBalance: real)

  /** ActivityLog.cs (without its store-assigned id). */
  datatype ActivityLog = ActivityLog(
    userId: string,
    userName: string,
    role: string,
    action: string,
    details: string,
    timestamp: int)

  /** SalesStatsDto.cs. */
  datatype TopProduct = TopProduct(name: string, sales: int, revenue: real)

  datatype SalesStats = SalesStats(
    totalRevenue: real,
    totalOrders: int,
    newCustomers: int,
    averageOrderValue: real,
    topProducts: seq<TopProduct>)

  /** AuthDtos.cs. */
  datatype LoginDto = LoginDto(email: string, password: string)

  datatype RegisterDto = RegisterDto(fullName: string, email: string, password: string)

  /** The id a record is stored under: the one it carries, or the one the store generates. */
  function InsertedId(id: Option<string>, freshId: string): (r: Option<string>)
    ensures r.Some?
    ensures id.Some? ==> r == id
    ensures id.None? ==> r == Some(freshId)
  {
    if id.Some? then id else Some(freshId)
  }

  // The keys the stores look records up by.

  function PromoId(p: Promo): Option<string> { p.id }

  function PromoCode(p: Promo): string { p.code }

  function OrderId(o: Order): Option<string> { o.id }

  function UserId(u: User): Option<string> { u.id }

  function UserEmail(u: User): string { u.email }
}
