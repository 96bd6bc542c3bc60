/** Each request of the shop: when it is accepted, which error it gets otherwise, and the rows an accepted one leaves. */
module RequestAnswers {
  import opened MapSums
  import opened Discount
  import opened ShopTables
  import opened Stock
  import opened OrderAnswers

  // ---------- Create ----------

  predicate Admitted(s: Shop, limit: int, r: Request)
    requires r.Create?
  {
    && r.who.role != Seller
    && !TooSoon(s.operations, r.who.id, CreateOrderOp, r.clock.checked, limit)
    && !Busy(s.orders, r.who.id)
  }

  predicate Orderable(products: map<string, Product>, lines: seq<Line>) {
    AllSellable(products, lines) && InStock(products, lines)
  }

  // The code a request brings, if any, can be used now for this total.
  predicate CodeWorks(promos: map<string, Promo>, code: Option<string>, total: int, now: int) {
    BringsCode(code) ==> Usable(promos, code.value, now) && MeetsMinimum(promos[code.value], total)
  }

  lemma CreateFaultAnswers(s: Shop, limit: int, r: Request)
    requires r.Create?
    ensures var fault := CreateFault(s, limit, r.lines, r.who, r.clock.checked);
      var soon := TooSoon(s.operations, r.who.id, CreateOrderOp, r.clock.checked, limit);
      && (fault == Some(AccessDenied) <==> r.who.role == Seller)
      && (fault == Some(RateLimited) <==> r.who.role != Seller && soon)
      && (fault == Some(TooManyActiveOrders) <==> r.who.role != Seller && !soon && Busy(s.orders, r.who.id))
      && (Admitted(s, limit, r) ==> fault == LinesFault(s.products, r.lines))
      && (fault.None? <==> Admitted(s, limit, r) && Orderable(s.products, r.lines))
  {
    LimitedExactly(s.operations, r.who.id, CreateOrderOp, r.clock.checked, limit);
    LinesAnswers(s.products, r.lines);
  }

  /** A create is accepted if and only if every check passes and the transaction commits. */
  lemma CreateAccepted(s: Shop, limit: int, r: Request)
    requires r.Create?
    ensures Accepts(s, limit, r) <==>
      && Admitted(s, limit, r) && Orderable(s.products, r.lines)
      && CodeWorks(s.promos, r.code, Cost(s.products, r.lines), r.clock.applied)
      && r.commits && r.id !in s.orders
  {
    CreateFaultAnswers(s, limit, r);
    if Orderable(s.products, r.lines) {
      PricedByCost(s.products, r.lines);
      NewPriceAnswers(s.promos, r.code, Cost(s.products, r.lines), r.clock.applied);
      if BringsCode(r.code) {
        PromoAnswers(s.promos, r.code.value, Cost(s.products, r.lines), r.clock.applied);
      }
    }
  }

  lemma PricedByCost(products: map<string, Product>, lines: seq<Line>)
    requires AllSellable(products, lines)
    ensures Total(ItemsOf(products, lines)) == Cost(products, lines)
  {
    ItemsAreSnapshots(products, lines);
    SnapshotsCost(products, lines, ItemsOf(products, lines));
  }

  /** Otherwise it gets the error of the first check that fails. */
  lemma CreateRefused(s: Shop, limit: int, r: Request)
    requires r.Create?
    ensures var out := Perform(s, limit, r); var total := Cost(s.products, r.lines);
      var soon := TooSoon(s.operations, r.who.id, CreateOrderOp, r.clock.checked, limit);
      var ready := Admitted(s, limit, r) && Orderable(s.products, r.lines);
      var usable := BringsCode(r.code) ==> Usable(s.promos, r.code.value, r.clock.applied);
      && (out == Failed(AccessDenied) <==> r.who.role == Seller)
      && (out == Failed(RateLimited) <==> r.who.role != Seller && soon)
      && (out == Failed(TooManyActiveOrders) <==> r.who.role != Seller && !soon && Busy(s.orders, r.who.id))
      && (Admitted(s, limit, r) && !Orderable(s.products, r.lines) ==>
            LinesFault(s.products, r.lines).Some? && out == Failed(LinesFault(s.products, r.lines).value))
      && (ready ==> (out == Failed(PromoInvalid) <==> !usable))
      && (ready ==> (out == Failed(PromoBelowMinimum) <==> usable && !CodeWorks(s.promos, r.code, total, r.clock.applied)))
      && (ready && CodeWorks(s.promos, r.code, total, r.clock.applied) && !(r.commits && r.id !in s.orders) ==> out == Failed(DatabaseRejected))
  {
    CreateFaultAnswers(s, limit, r);
    LinesAnswers(s.products, r.lines);
    if Orderable(s.products, r.lines) {
      PricedByCost(s.products, r.lines);
      NewPriceAnswers(s.promos, r.code, Cost(s.products, r.lines), r.clock.applied);
      if BringsCode(r.code) {
        PromoAnswers(s.promos, r.code.value, Cost(s.products, r.lines), r.clock.applied);
      }
    }
  }

  /** The order filed: a snapshot of each line, their cost as its total, and the total less any discount as its price. */
  predicate FilesOrder(products: map<string, Product>, lines: seq<Line>, o: Order) {
    && o.status == Created && Snapshots(products, lines, o.items) && o.totalPrice == Cost(products, lines)
  }

  predicate NewlyPriced(s: Shop, t: Shop, code: Option<string>, o: Order) {
    if BringsCode(code) then
      && UsesMoved(s.promos, t.promos, code.value, 1) && o.promoCode == Some(code.value)
      && o.discountedPrice == o.totalPrice - Calculate(s.promos[code.value].percent, o.totalPrice)
    else t.promos == s.promos && o.promoCode == None && o.discountedPrice == o.totalPrice
  }

  // Every product keeps its terms, and its stock moves by what the lines of it add up to.
  predicate StockTaken(products: map<string, Product>, products': map<string, Product>, lines: seq<Line>) {
    && products'.Keys == products.Keys
    && forall p :: p in products ==> products'[p] == products[p].(stock := Wrap32(products[p].stock - LineSum(lines, p)))
  }

  lemma TakenFromStock(products: map<string, Product>, lines: seq<Line>)
    ensures StockTaken(products, Shifted(products, lines, Take), lines)
  {
    forall p | p in products
      ensures p in Shifted(products, lines, Take)
      ensures Shifted(products, lines, Take)[p] == products[p].(stock := Wrap32(products[p].stock - LineSum(lines, p)))
    {
      ShiftedAt(products, lines, Take, p);
    }
    ShiftedAt(products, lines, Take, "");
  }

  /** An accepted create files one new order of the caller at the products' present prices, and changes nothing else. */
  lemma CreateFiles(s: Shop, limit: int, r: Request)
    requires r.Create? && Accepts(s, limit, r)
    ensures var t := After(s, limit, r);
      && r.id !in s.orders && r.id in t.orders && t.orders == s.orders[r.id := t.orders[r.id]]
      && t.orders[r.id].userId == r.who.id && FilesOrder(s.products, r.lines, t.orders[r.id])
      && NewlyPriced(s, t, r.code, t.orders[r.id])
      && StockTaken(s.products, t.products, r.lines)
      && t.operations == s.operations + [Operation(r.who.id, CreateOrderOp, r.id, r.clock.saved)]
  {
    CreateMeans(s, limit, r);
    CreateAccepted(s, limit, r);
    ItemsAreSnapshots(s.products, r.lines);
    PricedByCost(s.products, r.lines);
    TakenFromStock(s.products, r.lines);
    NewPriceAnswers(s.promos, r.code, Cost(s.products, r.lines), r.clock.applied);
    if BringsCode(r.code) {
      PromoAnswers(s.promos, r.code.value, Cost(s.products, r.lines), r.clock.applied);
    }
  }

  // ---------- Update ----------

  /** Admins, and the buyer whose order it is. */
  predicate Owns(who: Principal, o: Order) {
    who.role == Admin || (who.role == Buyer && o.userId == who.id)
  }

  predicate AllPresent(products: map<string, Product>, items: seq<Item>) {
    forall i :: 0 <= i < |items| ==> items[i].line.productId in products
  }

  // How many of p the order's items hold.
  function HeldIn(items: seq<Item>, p: string): int {
    if items == [] then 0
    else HeldIn(items[..|items| - 1], p) + (if items[|items| - 1].line.productId == p then items[|items| - 1].line.quantity else 0)
  }

  lemma {:induction false} HeldIsLineSum(items: seq<Item>, p: string)
    ensures LineSum(LinesOf(items), p) == HeldIn(items, p)
    decreases |items|
  {
    if items != [] {
      HeldIsLineSum(items[..|items| - 1], p);
      assert LinesOf(items)[..|items| - 1] == LinesOf(items[..|items| - 1]);
    }
  }

  // The products once the items have been given back.
  predicate GivenBack(products: map<string, Product>, products': map<string, Product>, items: seq<Item>) {
    && products'.Keys == products.Keys
    && forall p :: p in products ==> products'[p] == products[p].(stock := Wrap32(products[p].stock + HeldIn(items, p)))
  }

  lemma RestoredIsGivenBack(s: Shop, id: string)
    requires id in s.orders
    ensures GivenBack(s.products, Restored(s, id), s.orders[id].items)
  {
    var lines := LinesOf(s.orders[id].items);
    forall p | p in s.products
      ensures p in Restored(s, id)
      ensures Restored(s, id)[p] == s.products[p].(stock := Wrap32(s.products[p].stock + HeldIn(s.orders[id].items, p)))
    {
      ShiftedAt(s.products, lines, Give, p);
      HeldIsLineSum(s.orders[id].items, p);
    }
    ShiftedAt(s.products, lines, Give, "");
  }

  lemma {:induction false} GivenBackCosts(products: map<string, Product>, products': map<string, Product>, items: seq<Item>, lines: seq<Line>)
    requires GivenBack(products, products', items)
    ensures Cost(products', lines) == Cost(products, lines)
    decreases |lines|
  {
    if lines != [] {
      GivenBackCosts(products, products', items, lines[..|lines| - 1]);
    }
  }

  predicate AllKnown(products: map<string, Product>, lines: seq<Line>) {
    forall i :: 0 <= i < |lines| ==> lines[i].productId in products
  }

  lemma {:induction false} MissingLines(products: map<string, Product>, lines: seq<Line>)
    ensures FirstMissing(products, lines).None? <==> AllKnown(products, lines)
    decreases |lines|
  {
    if lines != [] {
      var front := lines[..|lines| - 1];
      MissingLines(products, front);
      assert AllKnown(products, lines) <==> AllKnown(products, front) && lines[|front|].productId in products by {
        assert forall i :: 0 <= i < |front| ==> front[i] == lines[i];
      }
    }
  }

  lemma PresentIsKnown(products: map<string, Product>, items: seq<Item>)
    ensures AllPresent(products, items) <==> AllKnown(products, LinesOf(items))
  {
    forall i | 0 <= i < |items| ensures LinesOf(items)[i] == items[i].line {
      LineAt(items, i);
    }
  }

  lemma MissingExactly(products: map<string, Product>, items: seq<Item>)
    ensures FirstMissing(products, LinesOf(items)).None? <==> AllPresent(products, items)
  {
    MissingLines(products, LinesOf(items));
    PresentIsKnown(products, items);
  }

  /** The first item whose product is gone is the one reported. */
  lemma {:induction false} FirstMissingDecides(products: map<string, Product>, items: seq<Item>, i: nat)
    requires i < |items| && AllPresent(products, items[..i]) && items[i].line.productId !in products
    ensures FirstMissing(products, LinesOf(items)) == Some(items[i].line.productId)
    decreases |items|
  {
    var front := items[..|items| - 1];
    assert LinesOf(items)[..|items| - 1] == LinesOf(front);
    if i < |front| {
      assert front[..i] == items[..i];
      FirstMissingDecides(products, front, i);
    } else {
      assert front == items[..i];
      MissingExactly(products, front);
    }
  }

  predicate MayUpdate(s: Shop, limit: int, r: Request)
    requires r.Update?
  {
    && r.id in s.orders && Owns(r.who, s.orders[r.id]) && s.orders[r.id].status == Created
    && !TooSoon(s.operations, r.who.id, UpdateOrderOp, r.clock.checked, limit)
  }

  lemma UpdateFaultAnswers(s: Shop, limit: int, r: Request)
    requires r.Update?
    ensures var fault := UpdateFault(s, limit, r.id, r.lines, r.who, r.clock.checked); var known := r.id in s.orders;
      && (fault == Some(OrderNotFound) <==> !known)
      && (fault == Some(AccessDenied) <==> known && r.who.role == Seller)
      && (fault == Some(NotOwner) <==> known && r.who.role == Buyer && s.orders[r.id].userId != r.who.id)
      && (forall from :: fault == Some(InvalidTransition(from)) <==>
            known && Owns(r.who, s.orders[r.id]) && s.orders[r.id].status != Created && from == s.orders[r.id].status)
      && (fault == Some(RateLimited) <==>
            known && Owns(r.who, s.orders[r.id]) && s.orders[r.id].status == Created
            && TooSoon(s.operations, r.who.id, UpdateOrderOp, r.clock.checked, limit))
      && (MayUpdate(s, limit, r) ==>
            fault == var missing := FirstMissing(s.products, LinesOf(s.orders[r.id].items));
              if missing.Some? then Some(ProductNotFound(missing.value)) else LinesFault(Restored(s, r.id), r.lines))
  {
    LimitedExactly(s.operations, r.who.id, UpdateOrderOp, r.clock.checked, limit);
    if r.id in s.orders {
      LinesAnswers(Restored(s, r.id), r.lines);
    }
  }

  // The order's code, or the request's if it carries none, does not stand in the way.
  predicate PriceWorks(promos: map<string, Promo>, carried: Option<string>, code: Option<string>, total: int, now: int) {
    carried.None? ==> CodeWorks(promos, code, total, now)
  }

  lemma RepriceWorks(promos: map<string, Promo>, carried: Option<string>, code: Option<string>, total: int, now: int)
    ensures Reprice(promos, carried, code, total, now).Priced? <==> PriceWorks(promos, carried, code, total, now)
  {
    RepriceAnswers(promos, carried, code, total, now);
    NewPriceAnswers(promos, code, total, now);
    if BringsCode(code) {
      PromoAnswers(promos, code.value, total, now);
    }
  }

  lemma RestoredCost(s: Shop, id: string, lines: seq<Line>)
    requires id in s.orders && AllSellable(Restored(s, id), lines)
    ensures Snapshots(s.products, lines, ItemsOf(Restored(s, id), lines))
    ensures Total(ItemsOf(Restored(s, id), lines)) == Cost(s.products, lines)
  {
    RestoredIsGivenBack(s, id);
    ItemsAreSnapshots(Restored(s, id), lines);
    PricedByCost(Restored(s, id), lines);
    GivenBackCosts(s.products, Restored(s, id), s.orders[id].items, lines);
  }

  // The stock with the order's items given back covers each line.
  predicate StockCovers(products: map<string, Product>, items: seq<Item>, lines: seq<Line>) {
    forall i :: 0 <= i < |lines| && lines[i].productId in products ==>
      lines[i].quantity <= Wrap32(products[lines[i].productId].stock + HeldIn(items, lines[i].productId))
  }

  lemma RestoredOrderable(s: Shop, id: string, lines: seq<Line>)
    requires id in s.orders
    ensures AllSellable(Restored(s, id), lines) <==> AllSellable(s.products, lines)
    ensures InStock(Restored(s, id), lines) <==> StockCovers(s.products, s.orders[id].items, lines)
  {
    RestoredIsGivenBack(s, id);
  }

  /** An update is accepted if and only if every check passes, its lines against the stock with the old ones given back. */
  lemma UpdateAccepted(s: Shop, limit: int, r: Request)
    requires r.Update?
    ensures Accepts(s, limit, r) <==>
      && MayUpdate(s, limit, r) && AllPresent(s.products, s.orders[r.id].items)
      && AllSellable(s.products, r.lines) && StockCovers(s.products, s.orders[r.id].items, r.lines)
      && PriceWorks(s.promos, s.orders[r.id].promoCode, r.code, Cost(s.products, r.lines), r.clock.applied)
      && r.commits
  {
    UpdateFaultAnswers(s, limit, r);
    if MayUpdate(s, limit, r) {
      MissingExactly(s.products, s.orders[r.id].items);
      LinesAnswers(Restored(s, r.id), r.lines);
      RestoredOrderable(s, r.id, r.lines);
      if Orderable(Restored(s, r.id), r.lines) {
        RestoredCost(s, r.id, r.lines);
        RepriceWorks(s.promos, s.orders[r.id].promoCode, r.code, Cost(s.products, r.lines), r.clock.applied);
      }
    }
  }

  // The checks' error comes before those of pricing and of the commit, which are others.
  lemma FaultComesFirst(s: Shop, limit: int, r: Request)
    requires r.Update?
    ensures var out, fault := Perform(s, limit, r), UpdateFault(s, limit, r.id, r.lines, r.who, r.clock.checked);
      if fault.Some? then out == Failed(fault.value)
      else out.Done? || out.error in {PromoInvalid, PromoBelowMinimum, DatabaseRejected}
  {
  }

  /** Otherwise it gets the error of the first check that fails. */
  lemma UpdateRefused(s: Shop, limit: int, r: Request)
    requires r.Update?
    ensures var out := Perform(s, limit, r); var known := r.id in s.orders;
      && (out == Failed(OrderNotFound) <==> !known)
      && (out == Failed(AccessDenied) <==> known && r.who.role == Seller)
      && (out == Failed(NotOwner) <==> known && r.who.role == Buyer && s.orders[r.id].userId != r.who.id)
      && (known && Owns(r.who, s.orders[r.id]) && s.orders[r.id].status != Created ==> out == Failed(InvalidTransition(s.orders[r.id].status)))
      && (out == Failed(RateLimited) <==>
            known && Owns(r.who, s.orders[r.id]) && s.orders[r.id].status == Created
            && TooSoon(s.operations, r.who.id, UpdateOrderOp, r.clock.checked, limit))
      && (MayUpdate(s, limit, r) ==>
            var missing := FirstMissing(s.products, LinesOf(s.orders[r.id].items)); var fault := LinesFault(Restored(s, r.id), r.lines);
            if missing.Some? then out == Failed(ProductNotFound(missing.value))
            else fault.Some? ==> out == Failed(fault.value))
  {
    UpdateFaultAnswers(s, limit, r);
    FaultComesFirst(s, limit, r);
  }

  // An update whose lines are in order: what the promo makes of it, and the commit.
  lemma UpdateUnpriced(s: Shop, limit: int, r: Request)
    requires r.Update? && MayUpdate(s, limit, r) && AllPresent(s.products, s.orders[r.id].items)
    requires AllSellable(s.products, r.lines) && StockCovers(s.products, s.orders[r.id].items, r.lines)
    ensures var out := Perform(s, limit, r); var total := Cost(s.products, r.lines); var carried := s.orders[r.id].promoCode;
      var usable := carried.None? && BringsCode(r.code) ==> Usable(s.promos, r.code.value, r.clock.applied);
      && (out == Failed(PromoInvalid) <==> !usable)
      && (out == Failed(PromoBelowMinimum) <==> usable && !PriceWorks(s.promos, carried, r.code, total, r.clock.applied))
      && (out == Failed(DatabaseRejected) <==> PriceWorks(s.promos, carried, r.code, total, r.clock.applied) && !r.commits)
  {
    var total, carried := Cost(s.products, r.lines), s.orders[r.id].promoCode;
    UpdateFaultAnswers(s, limit, r);
    MissingExactly(s.products, s.orders[r.id].items);
    RestoredOrderable(s, r.id, r.lines);
    LinesAnswers(Restored(s, r.id), r.lines);
    RestoredCost(s, r.id, r.lines);
    RepriceAnswers(s.promos, carried, r.code, total, r.clock.applied);
    NewPriceAnswers(s.promos, r.code, total, r.clock.applied);
    if BringsCode(r.code) {
      PromoAnswers(s.promos, r.code.value, total, r.clock.applied);
    }
  }

  // The price of an updated order, and the uses of codes it moves.
  predicate Repriced(s: Shop, t: Shop, carried: Option<string>, code: Option<string>, o: Order) {
    if carried.None? then NewlyPriced(s, t, code, o)
    else if carried.value in s.promos && !MeetsMinimum(s.promos[carried.value], o.totalPrice) then
      UsesMoved(s.promos, t.promos, carried.value, -1) && o.promoCode == None && o.discountedPrice == o.totalPrice
    else
      && t.promos == s.promos && o.promoCode == carried
      && o.discountedPrice == if carried.value in s.promos
                              then o.totalPrice - Calculate(s.promos[carried.value].percent, o.totalPrice) else o.totalPrice
  }

  lemma UpdatePrices(s: Shop, limit: int, r: Request)
    requires r.Update? && Accepts(s, limit, r) && AllSellable(s.products, r.lines)
    ensures r.id in s.orders
    ensures var t := After(s, limit, r);
      r.id in t.orders && Repriced(s, t, s.orders[r.id].promoCode, r.code, t.orders[r.id])
  {
    UpdateMeans(s, limit, r);
    var total, carried := Total(ItemsOf(Restored(s, r.id), r.lines)), s.orders[r.id].promoCode;
    RepriceAnswers(s.promos, carried, r.code, total, r.clock.applied);
    NewPriceAnswers(s.promos, r.code, total, r.clock.applied);
    if BringsCode(r.code) {
      PromoAnswers(s.promos, r.code.value, total, r.clock.applied);
    }
  }

  /**
   * An accepted update files the same user's order anew, at the products' present prices; the old items have gone
   * back to stock before the new lines are taken, and nothing else changes.
   */
  lemma UpdateFiles(s: Shop, limit: int, r: Request)
    requires r.Update? && Accepts(s, limit, r)
    ensures r.id in s.orders
    ensures var t := After(s, limit, r);
      && r.id in t.orders && t.orders == s.orders[r.id := t.orders[r.id]]
      && t.orders[r.id].userId == s.orders[r.id].userId && FilesOrder(s.products, r.lines, t.orders[r.id])
      && Repriced(s, t, s.orders[r.id].promoCode, r.code, t.orders[r.id])
      && GivenBack(s.products, Restored(s, r.id), s.orders[r.id].items) && StockTaken(Restored(s, r.id), t.products, r.lines)
      && t.operations == s.operations + [Operation(r.who.id, UpdateOrderOp, r.id, r.clock.saved)]
  {
    UpdateMeans(s, limit, r);
    UpdateAccepted(s, limit, r);
    RestoredIsGivenBack(s, r.id);
    RestoredOrderable(s, r.id, r.lines);
    RestoredCost(s, r.id, r.lines);
    TakenFromStock(Restored(s, r.id), r.lines);
    UpdatePrices(s, limit, r);
  }

  // ---------- Cancel ----------

  predicate MayCancel(s: Shop, r: Request)
    requires r.Cancel?
  {
    && r.id in s.orders && Owns(r.who, s.orders[r.id])
    && (s.orders[r.id].status == Created || s.orders[r.id].status == PaymentPending)
  }

  /** Each answer to a cancel, if and only if its check is the first to fail; paid orders and later ones stay. */
  lemma CancelAnswers(s: Shop, limit: int, r: Request)
    requires r.Cancel?
    ensures var out := Perform(s, limit, r); var known := r.id in s.orders;
      && (Accepts(s, limit, r) <==> MayCancel(s, r) && AllPresent(s.products, s.orders[r.id].items) && r.commits)
      && (out == Failed(OrderNotFound) <==> !known)
      && (out == Failed(AccessDenied) <==> known && r.who.role == Seller)
      && (out == Failed(NotOwner) <==> known && r.who.role == Buyer && s.orders[r.id].userId != r.who.id)
      && (known && Owns(r.who, s.orders[r.id]) && !MayCancel(s, r) ==> out == Failed(InvalidTransition(s.orders[r.id].status)))
      && (MayCancel(s, r) && !AllPresent(s.products, s.orders[r.id].items) ==>
            var missing := FirstMissing(s.products, LinesOf(s.orders[r.id].items));
            missing.Some? && out == Failed(ProductNotFound(missing.value)))
      && (out == Failed(DatabaseRejected) <==> MayCancel(s, r) && AllPresent(s.products, s.orders[r.id].items) && !r.commits)
  {
    if r.id in s.orders {
      MissingExactly(s.products, s.orders[r.id].items);
    }
  }

  /** An accepted cancel gives back the items and the use of the code, marks the order, and changes nothing else. */
  lemma CancelFiles(s: Shop, limit: int, r: Request)
    requires r.Cancel? && Accepts(s, limit, r)
    ensures r.id in s.orders
    ensures var t := After(s, limit, r); var o := s.orders[r.id];
      && t.orders == s.orders[r.id := Order(o.userId, Canceled, o.items, o.totalPrice, o.discountedPrice, o.promoCode)]
      && GivenBack(s.products, t.products, o.items)
      && (if o.promoCode.Some? && o.promoCode.value in s.promos then UsesMoved(s.promos, t.promos, o.promoCode.value, -1)
          else t.promos == s.promos)
      && t.operations == s.operations + [Operation(r.who.id, CancelOrderOp, r.id, r.saved)]
  {
    CancelMeans(s, limit, r);
    RestoredIsGivenBack(s, r.id);
  }

  // ---------- Products ----------

  predicate Manages(who: Principal, p: Product) {
    who.role == Admin || (who.role == Seller && p.sellerId == who.id)
  }

  /** Sellers and admins add products under new ids, which are then theirs. */
  lemma AddAnswers(s: Shop, limit: int, r: Request)
    requires r.AddProduct?
    ensures var out := Perform(s, limit, r);
      && (out == Failed(AccessDenied) <==> r.who.role == Buyer)
      && (out == Failed(DatabaseRejected) <==> r.who.role != Buyer && !(r.commits && r.id !in s.products))
      && (Accepts(s, limit, r) <==> r.who.role != Buyer && r.commits && r.id !in s.products)
      && (Accepts(s, limit, r) ==>
            out.shop == s.(products := s.products[r.id := Product(r.name, r.price, r.stock, r.status, r.who.id)]))
  {
  }

  /** Owners and admins edit a product's fields, and archive it; it stays with its seller. */
  lemma ManageAnswers(s: Shop, limit: int, r: Request)
    requires r.EditProduct? || r.RemoveProduct?
    ensures var out := Perform(s, limit, r); var known := r.id in s.products;
      && (out == Failed(ProductNotFound(r.id)) <==> !known)
      && (out == Failed(AccessDenied) <==> known && !Manages(r.who, s.products[r.id]))
      && (out == Failed(DatabaseRejected) <==> known && Manages(r.who, s.products[r.id]) && !r.commits)
      && (Accepts(s, limit, r) <==> known && Manages(r.who, s.products[r.id]) && r.commits)
      && (Accepts(s, limit, r) ==>
            var p := s.products[r.id];
            var p' := if r.EditProduct? then Product(r.name, r.price, r.stock, r.status, p.sellerId)
                      else Product(p.name, p.price, p.stock, Archived, p.sellerId);
            out.shop == s.(products := s.products[r.id := p']))
  {
  }
}
