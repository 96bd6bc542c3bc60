/** The shop's tables and what one transaction of the order and product services makes of them. */
module ShopTables {
  import opened MapSums
  import opened Discount

  // Stock is a Java int: it wraps around.
  type Int32 = n: int | -0x8000_0000 <= n < 0x8000_0000

  const WRAP := 0x1_0000_0000

  function Wrap32(n: int): Int32
    decreases if n < 0 then -n else n + 1
  {
    if n >= 0x8000_0000 then Wrap32(n - WRAP)
    else if n < -0x8000_0000 then Wrap32(n + WRAP)
    else n
  }

  datatype Role = Buyer | Seller | Admin
  datatype Principal = Principal(id: string, role: Role)

  datatype ProductStatus = Active | Inactive | Archived
  datatype Product = Product(name: string, price: int, stock: Int32, status: ProductStatus, sellerId: string)

  datatype Line = Line(productId: string, quantity: Int32)
  datatype Item = Item(line: Line, productName: string, priceAtOrder: int)

  datatype OrderStatus = Created | PaymentPending | Paid | Delivered | Canceled
  datatype Order = Order(
    userId: string, status: OrderStatus, items: seq<Item>, totalPrice: int, discountedPrice: int, promoCode: Option<string>)

  // Promos are keyed by their code, which the schema makes unique.
  datatype Promo = Promo(
    percent: int, active: bool, maxUses: Option<int>, currentUses: int, minAmount: Option<int>, expiresAt: Option<int>)

  datatype OperationKind = CreateOrderOp | UpdateOrderOp | CancelOrderOp
  datatype Operation = Operation(userId: string, kind: OperationKind, orderId: string, at: int)

  datatype Shop = Shop(
    products: map<string, Product>, promos: map<string, Promo>, orders: map<string, Order>, operations: seq<Operation>)

  datatype Shortfall = Shortfall(productId: string, requested: int, available: int)

  datatype Error =
    | AccessDenied | RateLimited | TooManyActiveOrders | OrderNotFound | NotOwner | InvalidTransition(from: OrderStatus)
    | ProductNotFound(productId: string) | ProductNotActive(productId: string) | InsufficientStock(shortfalls: seq<Shortfall>)
    | PromoInvalid | PromoBelowMinimum | DatabaseRejected

  // Any exception rolls the whole transaction back.
  datatype Outcome = Done(shop: Shop) | Failed(error: Error)

  // The clock is read for the rate limit, for the promo's expiry, and when the operation is saved; in microseconds.
  datatype Clock = Clock(checked: int, applied: int, saved: int)
  const TICKS_PER_SECOND := 1_000_000

  // ---------- Lines and stock ----------

  datatype Direction = Take | Give

  function Signed(d: Direction, n: int): int {
    if d == Take then -n else n
  }

  function ShiftOne(products: map<string, Product>, line: Line, d: Direction): map<string, Product> {
    if line.productId !in products then products
    else
      var p := products[line.productId];
      products[line.productId := p.(stock := Wrap32(p.stock + Signed(d, line.quantity)))]
  }

  /** Products after taking, or giving back, every line in turn. */
  function Shifted(products: map<string, Product>, lines: seq<Line>, d: Direction): map<string, Product> {
    if lines == [] then products
    else ShiftOne(Shifted(products, lines[..|lines| - 1], d), lines[|lines| - 1], d)
  }

  function LinesOf(items: seq<Item>): (lines: seq<Line>)
    ensures |lines| == |items|
  {
    if items == [] then [] else LinesOf(items[..|items| - 1]) + [items[|items| - 1].line]
  }

  /** Snapshots of the products' names and prices. */
  function ItemsOf(products: map<string, Product>, lines: seq<Line>): seq<Item> {
    if lines == [] then []
    else
      var last := lines[|lines| - 1];
      ItemsOf(products, lines[..|lines| - 1])
      + (if last.productId in products then [Item(last, products[last.productId].name, products[last.productId].price)] else [])
  }

  function Total(items: seq<Item>): int {
    if items == [] then 0
    else Total(items[..|items| - 1]) + items[|items| - 1].priceAtOrder * items[|items| - 1].line.quantity
  }

  function FirstMissing(products: map<string, Product>, lines: seq<Line>): Option<string> {
    if lines == [] then None
    else
      var earlier := FirstMissing(products, lines[..|lines| - 1]);
      if earlier.Some? || lines[|lines| - 1].productId in products then earlier else Some(lines[|lines| - 1].productId)
  }

  function FirstBad(products: map<string, Product>, lines: seq<Line>): Option<Error> {
    if lines == [] then None
    else
      var earlier := FirstBad(products, lines[..|lines| - 1]);
      var id := lines[|lines| - 1].productId;
      if earlier.Some? then earlier
      else if id !in products then Some(ProductNotFound(id))
      else if products[id].status != Active then Some(ProductNotActive(id))
      else None
  }

  function Shortfalls(products: map<string, Product>, lines: seq<Line>): seq<Shortfall> {
    if lines == [] then []
    else
      var last := lines[|lines| - 1];
      Shortfalls(products, lines[..|lines| - 1])
      + (if last.productId in products && products[last.productId].stock < last.quantity
         then [Shortfall(last.productId, last.quantity, products[last.productId].stock)] else [])
  }

  /** Each line is checked on its own, against the stock before any line is taken. */
  function LinesFault(products: map<string, Product>, lines: seq<Line>): Option<Error> {
    if FirstBad(products, lines).Some? then FirstBad(products, lines)
    else if Shortfalls(products, lines) != [] then Some(InsufficientStock(Shortfalls(products, lines)))
    else None
  }

  // ---------- Promos ----------

  predicate IsBlank(s: string) {
    forall i :: 0 <= i < |s| ==> s[i] in " \t\n\r"
  }

  datatype Pricing = Priced(promos: map<string, Promo>, promoCode: Option<string>, discountedPrice: int) | Rejected(error: Error)

  function WithUses(promos: map<string, Promo>, code: string, change: int): map<string, Promo>
    requires code in promos
  {
    promos[code := promos[code].(currentUses := promos[code].currentUses + change)]
  }

  function ApplyPromo(promos: map<string, Promo>, code: string, total: int, now: int): Pricing {
    if code !in promos then Rejected(PromoInvalid)
    else
      var promo := promos[code];
      if !promo.active then Rejected(PromoInvalid)
      else if promo.maxUses.Some? && promo.currentUses >= promo.maxUses.value then Rejected(PromoInvalid)
      else if promo.expiresAt.Some? && now > promo.expiresAt.value then Rejected(PromoInvalid)
      else if promo.minAmount.Some? && total < promo.minAmount.value then Rejected(PromoBelowMinimum)
      else Priced(WithUses(promos, code, 1), Some(code), total - Calculate(promo.percent, total))
  }

  function PriceNew(promos: map<string, Promo>, code: Option<string>, total: int, now: int): Pricing {
    if code.Some? && !IsBlank(code.value) then ApplyPromo(promos, code.value, total, now)
    else Priced(promos, None, total)
  }

  /** An order keeps its promo while the new total meets the minimum; a lost promo is not replaced by the request's. */
  function Reprice(promos: map<string, Promo>, carried: Option<string>, code: Option<string>, total: int, now: int): Pricing {
    if carried.None? then PriceNew(promos, code, total, now)
    else if carried.value !in promos then Priced(promos, carried, total)
    else
      var promo := promos[carried.value];
      if promo.minAmount.Some? && total < promo.minAmount.value then Priced(WithUses(promos, carried.value, -1), None, total)
      else Priced(promos, carried, total - Calculate(promo.percent, total))
  }

  // ---------- Admission ----------

  /** MAX over the user's operations of one kind. */
  function LastTime(operations: seq<Operation>, userId: string, kind: OperationKind): Option<int> {
    if operations == [] then None
    else
      var earlier, last := LastTime(operations[..|operations| - 1], userId, kind), operations[|operations| - 1];
      if last.userId != userId || last.kind != kind then earlier
      else if earlier.Some? && earlier.value > last.at then earlier
      else Some(last.at)
  }

  predicate IsLimited(operations: seq<Operation>, userId: string, kind: OperationKind, now: int, limit: int) {
    var last := LastTime(operations, userId, kind);
    last.Some? && (now - last.value) / TICKS_PER_SECOND < limit
  }

  predicate IsActive(o: Order, userId: string) {
    o.userId == userId && (o.status == Created || o.status == PaymentPending)
  }

  predicate HasActiveOrder(orders: map<string, Order>, userId: string) {
    exists id :: id in orders && IsActive(orders[id], userId)
  }

  function OwnershipFault(o: Order, who: Principal): Option<Error> {
    if who.role == Admin then None
    else if who.role == Seller then Some(AccessDenied)
    else if o.userId != who.id then Some(NotOwner)
    else None
  }

  // ---------- The transactions ----------

  function Accepted(shop: Shop, commits: bool): Outcome {
    if commits then Done(shop) else Failed(DatabaseRejected)
  }

  /** The checks createOrder makes before it writes, in its order. */
  function CreateFault(s: Shop, limit: int, lines: seq<Line>, who: Principal, now: int): Option<Error> {
    if who.role == Seller then Some(AccessDenied)
    else if IsLimited(s.operations, who.id, CreateOrderOp, now, limit) then Some(RateLimited)
    else if HasActiveOrder(s.orders, who.id) then Some(TooManyActiveOrders)
    else LinesFault(s.products, lines)
  }

  function CreatePricing(s: Shop, lines: seq<Line>, code: Option<string>, now: int): Pricing {
    PriceNew(s.promos, code, Total(ItemsOf(s.products, lines)), now)
  }

  function CreateEffect(s: Shop, id: string, lines: seq<Line>, pricing: Pricing, who: Principal, saved: int): Shop
    requires pricing.Priced?
  {
    var items := ItemsOf(s.products, lines);
    var order := Order(who.id, Created, items, Total(items), pricing.discountedPrice, pricing.promoCode);
    Shop(Shifted(s.products, lines, Take), pricing.promos, s.orders[id := order],
         s.operations + [Operation(who.id, CreateOrderOp, id, saved)])
  }

  function CreateOrder(s: Shop, limit: int, id: string, lines: seq<Line>, code: Option<string>, who: Principal,
                       clock: Clock, commits: bool): Outcome
  {
    var fault := CreateFault(s, limit, lines, who, clock.checked);
    var pricing := CreatePricing(s, lines, code, clock.applied);
    if fault.Some? then Failed(fault.value)
    else if pricing.Rejected? then Failed(pricing.error)
    else Accepted(CreateEffect(s, id, lines, pricing, who, clock.saved), commits && id !in s.orders)
  }

  /** The products with the order's old lines given back. */
  function Restored(s: Shop, id: string): map<string, Product>
    requires id in s.orders
  {
    Shifted(s.products, LinesOf(s.orders[id].items), Give)
  }

  function UpdateFault(s: Shop, limit: int, id: string, lines: seq<Line>, who: Principal, now: int): Option<Error> {
    if id !in s.orders then Some(OrderNotFound)
    else
      var order := s.orders[id];
      var held := LinesOf(order.items);
      if OwnershipFault(order, who).Some? then OwnershipFault(order, who)
      else if order.status != Created then Some(InvalidTransition(order.status))
      else if IsLimited(s.operations, who.id, UpdateOrderOp, now, limit) then Some(RateLimited)
      else if FirstMissing(s.products, held).Some? then Some(ProductNotFound(FirstMissing(s.products, held).value))
      else LinesFault(Restored(s, id), lines)
  }

  function UpdatePricing(s: Shop, id: string, lines: seq<Line>, code: Option<string>, now: int): Pricing
    requires id in s.orders
  {
    Reprice(s.promos, s.orders[id].promoCode, code, Total(ItemsOf(Restored(s, id), lines)), now)
  }

  function UpdateEffect(s: Shop, id: string, lines: seq<Line>, pricing: Pricing, who: Principal, saved: int): Shop
    requires id in s.orders && pricing.Priced?
  {
    var items := ItemsOf(Restored(s, id), lines);
    var order := s.orders[id].(items := items, totalPrice := Total(items),
                               discountedPrice := pricing.discountedPrice, promoCode := pricing.promoCode);
    Shop(Shifted(Restored(s, id), lines, Take), pricing.promos, s.orders[id := order],
         s.operations + [Operation(who.id, UpdateOrderOp, id, saved)])
  }

  function UpdateOrder(s: Shop, limit: int, id: string, lines: seq<Line>, code: Option<string>, who: Principal,
                       clock: Clock, commits: bool): Outcome
  {
    var fault := UpdateFault(s, limit, id, lines, who, clock.checked);
    if fault.Some? then Failed(fault.value)
    else
      var pricing := UpdatePricing(s, id, lines, code, clock.applied);
      if pricing.Rejected? then Failed(pricing.error)
      else Accepted(UpdateEffect(s, id, lines, pricing, who, clock.saved), commits)
  }

  function CancelFault(s: Shop, id: string, who: Principal): Option<Error> {
    if id !in s.orders then Some(OrderNotFound)
    else
      var order := s.orders[id];
      var lines := LinesOf(order.items);
      if OwnershipFault(order, who).Some? then OwnershipFault(order, who)
      else if order.status != Created && order.status != PaymentPending then Some(InvalidTransition(order.status))
      else if FirstMissing(s.products, lines).Some? then Some(ProductNotFound(FirstMissing(s.products, lines).value))
      else None
  }

  /** A cancelled order keeps its promo code, but its use is given back. */
  function Unused(promos: map<string, Promo>, code: Option<string>): map<string, Promo> {
    if code.Some? && code.value in promos then WithUses(promos, code.value, -1) else promos
  }

  function CancelEffect(s: Shop, id: string, who: Principal, saved: int): Shop
    requires id in s.orders
  {
    Shop(Restored(s, id), Unused(s.promos, s.orders[id].promoCode), s.orders[id := s.orders[id].(status := Canceled)],
         s.operations + [Operation(who.id, CancelOrderOp, id, saved)])
  }

  function CancelOrder(s: Shop, id: string, who: Principal, saved: int, commits: bool): Outcome {
    var fault := CancelFault(s, id, who);
    if fault.Some? then Failed(fault.value) else Accepted(CancelEffect(s, id, who, saved), commits)
  }

  function CreateProduct(s: Shop, id: string, name: string, price: int, stock: Int32, status: ProductStatus,
                         who: Principal, commits: bool): Outcome
  {
    if who.role == Buyer then Failed(AccessDenied)
    else Accepted(s.(products := s.products[id := Product(name, price, stock, status, who.id)]), commits && id !in s.products)
  }

  function ManageFault(s: Shop, id: string, who: Principal): Option<Error> {
    if id !in s.products then Some(ProductNotFound(id))
    else if who.role == Admin then None
    else if who.role != Seller || s.products[id].sellerId != who.id then Some(AccessDenied)
    else None
  }

  function UpdateProduct(s: Shop, id: string, name: string, price: int, stock: Int32, status: ProductStatus,
                         who: Principal, commits: bool): Outcome
  {
    var fault := ManageFault(s, id, who);
    if fault.Some? then Failed(fault.value)
    else Accepted(s.(products := s.products[id := Product(name, price, stock, status, s.products[id].sellerId)]), commits)
  }

  function DeleteProduct(s: Shop, id: string, who: Principal, commits: bool): Outcome {
    var fault := ManageFault(s, id, who);
    if fault.Some? then Failed(fault.value)
    else Accepted(s.(products := s.products[id := s.products[id].(status := Archived)]), commits)
  }

  // ---------- Runs ----------

  datatype Request =
    | Create(id: string, lines: seq<Line>, code: Option<string>, who: Principal, clock: Clock, commits: bool)
    | Update(id: string, lines: seq<Line>, code: Option<string>, who: Principal, clock: Clock, commits: bool)
    | Cancel(id: string, who: Principal, saved: int, commits: bool)
    | AddProduct(id: string, name: string, price: int, stock: Int32, status: ProductStatus, who: Principal, commits: bool)
    | EditProduct(id: string, name: string, price: int, stock: Int32, status: ProductStatus, who: Principal, commits: bool)
    | RemoveProduct(id: string, who: Principal, commits: bool)

  function Perform(s: Shop, limit: int, r: Request): Outcome {
    match r
    case Create(id, lines, code, who, clock, commits) => CreateOrder(s, limit, id, lines, code, who, clock, commits)
    case Update(id, lines, code, who, clock, commits) => UpdateOrder(s, limit, id, lines, code, who, clock, commits)
    case Cancel(id, who, saved, commits) => CancelOrder(s, id, who, saved, commits)
    case AddProduct(id, name, price, stock, status, who, commits) => CreateProduct(s, id, name, price, stock, status, who, commits)
    case EditProduct(id, name, price, stock, status, who, commits) => UpdateProduct(s, id, name, price, stock, status, who, commits)
    case RemoveProduct(id, who, commits) => DeleteProduct(s, id, who, commits)
  }

  function FaultOf(out: Outcome): Option<Error> {
    if out.Done? then None else Some(out.error)
  }

  /** The tables after one request: its changes, or none of them. */
  function After(s: Shop, limit: int, r: Request): Shop {
    var out := Perform(s, limit, r);
    if out.Done? then out.shop else s
  }

  /** Transactions run one after another. */
  function AfterAll(s: Shop, limit: int, requests: seq<Request>): Shop {
    if requests == [] then s
    else After(AfterAll(s, limit, requests[..|requests| - 1]), limit, requests[|requests| - 1])
  }

  // ---------- What accepted requests mean ----------

  predicate Accepts(s: Shop, limit: int, r: Request) {
    Perform(s, limit, r).Done?
  }

  // t is s with one order filed under id, and one operation recorded.
  predicate Files(s: Shop, t: Shop, id: string, items: seq<Item>, pricing: Pricing, userId: string, operation: Operation)
    requires pricing.Priced?
  {
    && id in t.orders && t.orders == s.orders[id := t.orders[id]]
    && t.orders[id] == Order(userId, Created, items, Total(items), pricing.discountedPrice, pricing.promoCode)
    && t.operations == s.operations + [operation]
  }

  lemma CreateMeans(s: Shop, limit: int, r: Request)
    requires r.Create? && Accepts(s, limit, r)
    ensures CreateFault(s, limit, r.lines, r.who, r.clock.checked).None? && LinesFault(s.products, r.lines).None? && r.id !in s.orders
    ensures var t := After(s, limit, r); var items := ItemsOf(s.products, r.lines);
      var pricing := CreatePricing(s, r.lines, r.code, r.clock.applied);
      && pricing.Priced? && t.products == Shifted(s.products, r.lines, Take) && t.promos == pricing.promos
      && Files(s, t, r.id, items, pricing, r.who.id, Operation(r.who.id, CreateOrderOp, r.id, r.clock.saved))
  {
  }

  lemma UpdateMeans(s: Shop, limit: int, r: Request)
    requires r.Update? && Accepts(s, limit, r)
    ensures UpdateFault(s, limit, r.id, r.lines, r.who, r.clock.checked).None?
    ensures r.id in s.orders && s.orders[r.id].status == Created && LinesFault(Restored(s, r.id), r.lines).None?
    ensures var t := After(s, limit, r); var items := ItemsOf(Restored(s, r.id), r.lines);
      var pricing := UpdatePricing(s, r.id, r.lines, r.code, r.clock.applied);
      && pricing.Priced? && t.products == Shifted(Restored(s, r.id), r.lines, Take) && t.promos == pricing.promos
      && Files(s, t, r.id, items, pricing, s.orders[r.id].userId, Operation(r.who.id, UpdateOrderOp, r.id, r.clock.saved))
  {
  }

  lemma CancelMeans(s: Shop, limit: int, r: Request)
    requires r.Cancel? && Accepts(s, limit, r)
    ensures r.id in s.orders && (s.orders[r.id].status == Created || s.orders[r.id].status == PaymentPending)
    ensures After(s, limit, r) == CancelEffect(s, r.id, r.who, r.saved)
  {
  }

  predicate AboutProducts(r: Request) {
    r.AddProduct? || r.EditProduct? || r.RemoveProduct?
  }

  /** The product requests leave orders, promos and operations alone, and never remove a product. */
  lemma ProductRequestMeans(s: Shop, limit: int, r: Request)
    requires AboutProducts(r)
    ensures var t := After(s, limit, r);
      && t == s.(products := t.products)
      && s.products.Keys <= t.products.Keys
      && forall p :: p in s.products && p != r.id ==> t.products[p] == s.products[p]
  {
  }
}
