/** The shop's services: each public method is one transaction over the tables, rolled back on any error. */
module ShopServices {
  import opened MapSums
  import opened Discount
  import opened ShopTables
  import opened Stock

  // ---------- Facts for the loops over lines ----------

  lemma {:induction false} BadPersists(products: map<string, Product>, lines: seq<Line>, i: nat)
    requires i <= |lines| && FirstBad(products, lines[..i]).Some?
    ensures FirstBad(products, lines) == FirstBad(products, lines[..i])
    decreases |lines|
  {
    if i < |lines| {
      var front := lines[..|lines| - 1];
      assert front[..i] == lines[..i];
      BadPersists(products, front, i);
    } else {
      assert lines[..i] == lines;
    }
  }

  lemma {:induction false} NotBadIsPresent(products: map<string, Product>, lines: seq<Line>, i: nat)
    requires i < |lines| && FirstBad(products, lines).None?
    ensures lines[i].productId in products
    decreases |lines|
  {
    if i < |lines| - 1 {
      NotBadIsPresent(products, lines[..|lines| - 1], i);
    }
  }

  lemma {:induction false} MissingPersists(products: map<string, Product>, lines: seq<Line>, i: nat)
    requires i <= |lines| && FirstMissing(products, lines[..i]).Some?
    ensures FirstMissing(products, lines) == FirstMissing(products, lines[..i])
    decreases |lines|
  {
    if i < |lines| {
      var front := lines[..|lines| - 1];
      assert front[..i] == lines[..i];
      MissingPersists(products, front, i);
    } else {
      assert lines[..i] == lines;
    }
  }

  lemma PrefixStep<T>(s: seq<T>, i: nat)
    requires i < |s|
    ensures s[..i + 1][..i] == s[..i] && |s[..i + 1]| == i + 1 && s[..i + 1][i] == s[i]
  {
  }

  class Database {
    var products: map<string, Product>
    var promos: map<string, Promo>
    var orders: map<string, Order>
    var operations: seq<Operation>

    constructor (start: Shop)
      ensures Contents() == start
    {
      products, promos, orders, operations := start.products, start.promos, start.orders, start.operations;
    }

    ghost function Contents(): Shop
      reads this
    {
      Shop(products, promos, orders, operations)
    }

    method FindLastOperationTime(userId: string, kind: OperationKind) returns (last: Option<int>)
      ensures last == LastTime(operations, userId, kind)
    {
      last := None;
      for i := 0 to |operations|
        invariant last == LastTime(operations[..i], userId, kind)
      {
        PrefixStep(operations, i);
        var op := operations[i];
        if op.userId == userId && op.kind == kind && (last.None? || last.value <= op.at) {
          last := Some(op.at);
        }
      }
      assert operations[..|operations|] == operations;
    }

    method Rollback(products: map<string, Product>, promos: map<string, Promo>, orders: map<string, Order>, operations: seq<Operation>)
      modifies this
      ensures Contents() == Shop(products, promos, orders, operations)
    {
      this.products, this.promos, this.orders, this.operations := products, promos, orders, operations;
    }
  }

  class OrderService {
    const db: Database
    const rateLimitSeconds: int

    constructor (db: Database, rateLimitSeconds: int)
      ensures this.db == db && this.rateLimitSeconds == rateLimitSeconds
    {
      this.db, this.rateLimitSeconds := db, rateLimitSeconds;
    }

    method CheckRateLimit(userId: string, kind: OperationKind, now: int) returns (limited: bool)
      ensures limited == IsLimited(db.operations, userId, kind, now, rateLimitSeconds)
    {
      var last := db.FindLastOperationTime(userId, kind);
      limited := false;
      if last.Some? {
        var secondsSince := (now - last.value) / TICKS_PER_SECOND;
        limited := secondsSince < rateLimitSeconds;
      }
    }

    method CheckOwnership(order: Order, who: Principal) returns (fault: Option<Error>)
      ensures fault == OwnershipFault(order, who)
    {
      if who.role == Admin {
        return None;
      }
      if who.role == Seller {
        return Some(AccessDenied);
      }
      fault := if order.userId != who.id then Some(NotOwner) else None;
    }

    // An unknown or inactive product stops the loop; a shortfall is only noted until its end.
    method ValidateLines(lines: seq<Line>) returns (fault: Option<Error>)
      ensures fault == LinesFault(db.products, lines)
    {
      var insufficient: seq<Shortfall> := [];
      for i := 0 to |lines|
        invariant FirstBad(db.products, lines[..i]).None?
        invariant insufficient == Shortfalls(db.products, lines[..i])
      {
        PrefixStep(lines, i);
        var id := lines[i].productId;
        if id !in db.products {
          BadPersists(db.products, lines, i + 1);
          return Some(ProductNotFound(id));
        }
        var product := db.products[id];
        if product.status != Active {
          BadPersists(db.products, lines, i + 1);
          return Some(ProductNotActive(id));
        }
        if product.stock < lines[i].quantity {
          insufficient := insufficient + [Shortfall(id, lines[i].quantity, product.stock)];
        }
      }
      assert lines[..|lines|] == lines;
      fault := if insufficient != [] then Some(InsufficientStock(insufficient)) else None;
    }

    // Takes every line from stock in turn; a repeated product is taken from what its earlier line left.
    method ReserveLines(lines: seq<Line>) returns (items: seq<Item>, totalAmount: int)
      requires FirstBad(db.products, lines).None?
      modifies db`products
      ensures db.products == Shifted(old(db.products), lines, Take)
      ensures items == ItemsOf(old(db.products), lines) && totalAmount == Total(items)
    {
      items, totalAmount := [], 0;
      for i := 0 to |lines|
        invariant db.products == Shifted(old(db.products), lines[..i], Take)
        invariant items == ItemsOf(old(db.products), lines[..i]) && totalAmount == Total(items)
      {
        PrefixStep(lines, i);
        var line := lines[i];
        NotBadIsPresent(old(db.products), lines, i);
        ShiftedAt(old(db.products), lines[..i], Take, line.productId);
        var product := db.products[line.productId];
        db.products := db.products[line.productId := product.(stock := Wrap32(product.stock - line.quantity))];
        var item := Item(line, product.name, product.price);
        TotalStep(items, item);
        items := items + [item];
        totalAmount := totalAmount + product.price * line.quantity;
      }
      assert lines[..|lines|] == lines;
    }

    // Stops at the first line whose product is gone; the caller's rollback undoes the earlier ones.
    method ReturnLines(items: seq<Item>) returns (missing: Option<string>)
      modifies db`products
      ensures missing == FirstMissing(old(db.products), LinesOf(items))
      ensures missing.None? ==> db.products == Shifted(old(db.products), LinesOf(items), Give)
    {
      ghost var lines := LinesOf(items);
      for i := 0 to |items|
        invariant FirstMissing(old(db.products), lines[..i]).None?
        invariant db.products == Shifted(old(db.products), lines[..i], Give)
      {
        PrefixStep(lines, i);
        LineAt(items, i);
        var line := items[i].line;
        ShiftedAt(old(db.products), lines[..i], Give, line.productId);
        if line.productId !in db.products {
          MissingPersists(old(db.products), lines, i + 1);
          return Some(line.productId);
        }
        var product := db.products[line.productId];
        db.products := db.products[line.productId := product.(stock := Wrap32(product.stock + line.quantity))];
      }
      assert lines[..|lines|] == lines;
      missing := None;
    }

    method CalculateDiscount(promo: Promo, totalAmount: int) returns (discount: int)
      ensures discount == Calculate(promo.percent, totalAmount)
    {
      discount := RoundHalfUp(totalAmount * promo.percent, WHOLE);
      var maxDiscount := RoundHalfUp(totalAmount * CAP, WHOLE);
      if discount > maxDiscount {
        discount := maxDiscount;
      }
    }

    method ApplyPromoCode(order: Order, code: string, totalAmount: int, now: int) returns (fault: Option<Error>, priced: Order)
      modifies db`promos
      ensures var pricing := ApplyPromo(old(db.promos), code, totalAmount, now);
        if pricing.Priced? then
          && fault == None && db.promos == pricing.promos
          && priced == order.(promoCode := pricing.promoCode, discountedPrice := pricing.discountedPrice)
        else fault == Some(pricing.error) && db.promos == old(db.promos)
    {
      priced := order;
      if code !in db.promos {
        return Some(PromoInvalid), order;
      }
      var promo := db.promos[code];
      if !promo.active {
        return Some(PromoInvalid), order;
      }
      if promo.maxUses.Some? && promo.currentUses >= promo.maxUses.value {
        return Some(PromoInvalid), order;
      }
      if promo.expiresAt.Some? && now > promo.expiresAt.value {
        return Some(PromoInvalid), order;
      }
      if promo.minAmount.Some? && totalAmount < promo.minAmount.value {
        return Some(PromoBelowMinimum), order;
      }
      var discount := CalculateDiscount(promo, totalAmount);
      priced := order.(promoCode := Some(code), discountedPrice := totalAmount - discount);
      db.promos := db.promos[code := promo.(currentUses := promo.currentUses + 1)];
      fault := None;
    }

    method PriceOrder(order: Order, code: Option<string>, totalAmount: int, now: int) returns (fault: Option<Error>, priced: Order)
      requires order.promoCode.None?
      modifies db`promos
      ensures var pricing := PriceNew(old(db.promos), code, totalAmount, now);
        if pricing.Priced? then
          && fault == None && db.promos == pricing.promos
          && priced == order.(promoCode := pricing.promoCode, discountedPrice := pricing.discountedPrice)
        else fault == Some(pricing.error) && db.promos == old(db.promos)
    {
      if code.Some? && !IsBlank(code.value) {
        fault, priced := ApplyPromoCode(order, code.value, totalAmount, now);
      } else {
        fault, priced := None, order.(discountedPrice := totalAmount);
      }
    }

    method RepriceOrder(order: Order, code: Option<string>, totalAmount: int, now: int) returns (fault: Option<Error>, priced: Order)
      modifies db`promos
      ensures var pricing := Reprice(old(db.promos), order.promoCode, code, totalAmount, now);
        if pricing.Priced? then
          && fault == None && db.promos == pricing.promos
          && priced == order.(promoCode := pricing.promoCode, discountedPrice := pricing.discountedPrice)
        else fault == Some(pricing.error) && db.promos == old(db.promos)
    {
      fault, priced := None, order;
      if order.promoCode.Some? {
        var carried := order.promoCode.value;
        if carried in db.promos {
          var promo := db.promos[carried];
          if promo.minAmount.Some? && totalAmount < promo.minAmount.value {
            db.promos := db.promos[carried := promo.(currentUses := promo.currentUses - 1)];
            priced := order.(promoCode := None, discountedPrice := totalAmount);
          } else {
            var discount := CalculateDiscount(promo, totalAmount);
            priced := order.(discountedPrice := totalAmount - discount);
          }
        } else {
          priced := order.(discountedPrice := totalAmount);
        }
      } else {
        fault, priced := PriceOrder(order, code, totalAmount, now);
      }
    }

    // The body of createOrder; an error may leave changes behind, which its transaction undoes.
    method DoCreate(id: string, lines: seq<Line>, code: Option<string>, who: Principal, clock: Clock, commits: bool)
      returns (fault: Option<Error>)
      modifies db
      ensures var out := ShopTables.CreateOrder(old(db.Contents()), rateLimitSeconds, id, lines, code, who, clock, commits);
        if out.Done? then fault == None && db.Contents() == out.shop else fault == Some(out.error)
    {
      if who.role == Seller {
        return Some(AccessDenied);
      }
      var limited := CheckRateLimit(who.id, CreateOrderOp, clock.checked);
      if limited {
        return Some(RateLimited);
      }
      if exists other :: other in db.orders && IsActive(db.orders[other], who.id) {
        return Some(TooManyActiveOrders);
      }
      fault := ValidateLines(lines);
      if fault.Some? {
        return;
      }
      var taken := id in db.orders;
      var order := Order(who.id, Created, [], 0, 0, None);
      var items, totalAmount := ReserveLines(lines);
      order := order.(items := items, totalPrice := totalAmount);
      fault, order := PriceOrder(order, code, totalAmount, clock.applied);
      if fault.Some? {
        return;
      }
      db.orders := db.orders[id := order];
      db.operations := db.operations + [Operation(who.id, CreateOrderOp, id, clock.saved)];
      fault := if commits && !taken then None else Some(DatabaseRejected);
    }

    // The checks of updateOrder; between them the order's old lines go back to stock.
    method CheckUpdate(id: string, lines: seq<Line>, who: Principal, now: int) returns (fault: Option<Error>)
      modifies db`products
      ensures fault == UpdateFault(old(db.Contents()), rateLimitSeconds, id, lines, who, now)
      ensures fault.None? ==> id in db.orders && db.products == Restored(old(db.Contents()), id)
    {
      if id !in db.orders {
        return Some(OrderNotFound);
      }
      var order := db.orders[id];
      fault := CheckOwnership(order, who);
      if fault.Some? {
        return;
      }
      if order.status != Created {
        return Some(InvalidTransition(order.status));
      }
      var limited := CheckRateLimit(who.id, UpdateOrderOp, now);
      if limited {
        return Some(RateLimited);
      }
      var missing := ReturnLines(order.items);
      if missing.Some? {
        return Some(ProductNotFound(missing.value));
      }
      fault := ValidateLines(lines);
    }

    method DoUpdate(id: string, lines: seq<Line>, code: Option<string>, who: Principal, clock: Clock, commits: bool)
      returns (fault: Option<Error>)
      modifies db
      ensures var out := ShopTables.UpdateOrder(old(db.Contents()), rateLimitSeconds, id, lines, code, who, clock, commits);
        if out.Done? then fault == None && db.Contents() == out.shop else fault == Some(out.error)
    {
      fault := CheckUpdate(id, lines, who, clock.checked);
      if fault.Some? {
        return;
      }
      var order := db.orders[id];
      var items, totalAmount := ReserveLines(lines);
      order := order.(items := items, totalPrice := totalAmount);
      fault, order := RepriceOrder(order, code, totalAmount, clock.applied);
      if fault.Some? {
        return;
      }
      db.orders := db.orders[id := order];
      db.operations := db.operations + [Operation(who.id, UpdateOrderOp, id, clock.saved)];
      fault := if commits then None else Some(DatabaseRejected);
    }

    method DoCancel(id: string, who: Principal, saved: int, commits: bool) returns (fault: Option<Error>)
      modifies db
      ensures var out := ShopTables.CancelOrder(old(db.Contents()), id, who, saved, commits);
        if out.Done? then fault == None && db.Contents() == out.shop else fault == Some(out.error)
    {
      if id !in db.orders {
        return Some(OrderNotFound);
      }
      var order := db.orders[id];
      fault := CheckOwnership(order, who);
      if fault.Some? {
        return;
      }
      if order.status != Created && order.status != PaymentPending {
        return Some(InvalidTransition(order.status));
      }
      var missing := ReturnLines(order.items);
      if missing.Some? {
        return Some(ProductNotFound(missing.value));
      }
      if order.promoCode.Some? && order.promoCode.value in db.promos {
        var promo := db.promos[order.promoCode.value];
        db.promos := db.promos[order.promoCode.value := promo.(currentUses := promo.currentUses - 1)];
      }
      db.orders := db.orders[id := order.(status := Canceled)];
      db.operations := db.operations + [Operation(who.id, CancelOrderOp, id, saved)];
      fault := if commits then None else Some(DatabaseRejected);
    }

    // ---------- The transactions ----------

    method CreateOrder(id: string, lines: seq<Line>, code: Option<string>, who: Principal, clock: Clock, commits: bool)
      returns (fault: Option<Error>)
      modifies db
      ensures var r := Create(id, lines, code, who, clock, commits);
        && db.Contents() == After(old(db.Contents()), rateLimitSeconds, r)
        && fault == FaultOf(Perform(old(db.Contents()), rateLimitSeconds, r))
    {
      var products, promos, orders, operations := db.products, db.promos, db.orders, db.operations;
      fault := DoCreate(id, lines, code, who, clock, commits);
      if fault.Some? {
        db.Rollback(products, promos, orders, operations);
      }
    }

    method UpdateOrder(id: string, lines: seq<Line>, code: Option<string>, who: Principal, clock: Clock, commits: bool)
      returns (fault: Option<Error>)
      modifies db
      ensures var r := Update(id, lines, code, who, clock, commits);
        && db.Contents() == After(old(db.Contents()), rateLimitSeconds, r)
        && fault == FaultOf(Perform(old(db.Contents()), rateLimitSeconds, r))
    {
      var products, promos, orders, operations := db.products, db.promos, db.orders, db.operations;
      fault := DoUpdate(id, lines, code, who, clock, commits);
      if fault.Some? {
        db.Rollback(products, promos, orders, operations);
      }
    }

    method CancelOrder(id: string, who: Principal, saved: int, commits: bool) returns (fault: Option<Error>)
      modifies db
      ensures var r := Cancel(id, who, saved, commits);
        && db.Contents() == After(old(db.Contents()), rateLimitSeconds, r)
        && fault == FaultOf(Perform(old(db.Contents()), rateLimitSeconds, r))
    {
      var products, promos, orders, operations := db.products, db.promos, db.orders, db.operations;
      fault := DoCancel(id, who, saved, commits);
      if fault.Some? {
        db.Rollback(products, promos, orders, operations);
      }
    }
  }

  lemma TotalStep(items: seq<Item>, item: Item)
    ensures Total(items + [item]) == Total(items) + item.priceAtOrder * item.line.quantity
  {
    assert (items + [item])[..|items + [item]| - 1] == items;
  }

  class ProductService {
    const db: Database

    constructor (db: Database)
      ensures this.db == db
    {
      this.db := db;
    }

    method CheckOwnership(product: Product, who: Principal) returns (allowed: bool)
      ensures allowed == (who.role == Admin || (who.role == Seller && product.sellerId == who.id))
    {
      allowed := who.role == Admin || (who.role == Seller && product.sellerId == who.id);
    }

    method CreateProduct(id: string, name: string, price: int, stock: Int32, status: ProductStatus, who: Principal, commits: bool)
      returns (fault: Option<Error>)
      modifies db`products
      ensures forall limit :: var r := AddProduct(id, name, price, stock, status, who, commits);
        db.Contents() == After(old(db.Contents()), limit, r) && fault == FaultOf(Perform(old(db.Contents()), limit, r))
    {
      if who.role != Seller && who.role != Admin {
        return Some(AccessDenied);
      }
      if !commits || id in db.products {
        return Some(DatabaseRejected);
      }
      db.products := db.products[id := Product(name, price, stock, status, who.id)];
      fault := None;
    }

    method UpdateProduct(id: string, name: string, price: int, stock: Int32, status: ProductStatus, who: Principal, commits: bool)
      returns (fault: Option<Error>)
      modifies db`products
      ensures forall limit :: var r := EditProduct(id, name, price, stock, status, who, commits);
        db.Contents() == After(old(db.Contents()), limit, r) && fault == FaultOf(Perform(old(db.Contents()), limit, r))
    {
      if id !in db.products {
        return Some(ProductNotFound(id));
      }
      var product := db.products[id];
      var allowed := CheckOwnership(product, who);
      if !allowed {
        return Some(AccessDenied);
      }
      if !commits {
        return Some(DatabaseRejected);
      }
      db.products := db.products[id := product.(name := name, price := price, stock := stock, status := status)];
      fault := None;
    }

    // Deleting archives the product.
    method DeleteProduct(id: string, who: Principal, commits: bool) returns (fault: Option<Error>)
      modifies db`products
      ensures forall limit :: var r := RemoveProduct(id, who, commits);
        db.Contents() == After(old(db.Contents()), limit, r) && fault == FaultOf(Perform(old(db.Contents()), limit, r))
    {
      if id !in db.products {
        return Some(ProductNotFound(id));
      }
      var product := db.products[id];
      var allowed := CheckOwnership(product, who);
      if !allowed {
        return Some(AccessDenied);
      }
      if !commits {
        return Some(DatabaseRejected);
      }
      db.products := db.products[id := product.(status := Archived)];
      fault := None;
    }
  }
}
