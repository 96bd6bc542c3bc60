/** Promo accounting and price integrity over every run of the shop. */
module OrderPrices {
  import opened MapSums
  import opened Discount
  import opened ShopTables

  // 1 if an order of this promo counts as a use of the code.
  function Uses(promoCode: Option<string>, code: string): int {
    if promoCode == Some(code) then 1 else 0
  }

  function OrderUses(o: Order, code: string): int {
    if o.status == Canceled then 0 else Uses(o.promoCode, code)
  }

  function UsedBy(orders: map<string, Order>, code: string): map<string, int> {
    map id | id in orders :: OrderUses(orders[id], code)
  }

  /** The number of orders, not cancelled, that carry the code. */
  ghost function Carrying(orders: map<string, Order>, code: string): int {
    Sum(UsedBy(orders, code))
  }

  lemma CarryingUpdate(orders: map<string, Order>, id: string, o: Order, code: string)
    ensures Carrying(orders[id := o], code)
         == Carrying(orders, code) - (if id in orders then OrderUses(orders[id], code) else 0) + OrderUses(o, code)
  {
    assert UsedBy(orders[id := o], code) == UsedBy(orders, code)[id := OrderUses(o, code)];
    SumUpdate(UsedBy(orders, code), id, OrderUses(o, code));
  }

  // ---------- What pricing does to the promos ----------

  // Only the use counts may differ.
  predicate SameTerms(a: map<string, Promo>, b: map<string, Promo>) {
    a.Keys == b.Keys && forall c :: c in a ==> b[c] == a[c].(currentUses := b[c].currentUses)
  }

  predicate WithinMax(promos: map<string, Promo>) {
    forall c :: c in promos && promos[c].maxUses.Some? ==> promos[c].currentUses <= promos[c].maxUses.value
  }

  // The change in each promo's uses, and no use beyond the maximum.
  predicate CountsUses(a: map<string, Promo>, b: map<string, Promo>, before: Option<string>, now: Option<string>) {
    && SameTerms(a, b)
    && (forall c :: c in a ==> b[c].currentUses == a[c].currentUses - Uses(before, c) + Uses(now, c))
    && (WithinMax(a) ==> WithinMax(b))
  }

  lemma PriceNewCounts(promos: map<string, Promo>, code: Option<string>, total: int, now: int)
    requires PriceNew(promos, code, total, now).Priced?
    ensures var priced := PriceNew(promos, code, total, now);
      CountsUses(promos, priced.promos, None, priced.promoCode)
  {
  }

  lemma RepriceCounts(promos: map<string, Promo>, carried: Option<string>, code: Option<string>, total: int, now: int)
    requires Reprice(promos, carried, code, total, now).Priced?
    ensures var priced := Reprice(promos, carried, code, total, now);
      CountsUses(promos, priced.promos, carried, priced.promoCode)
  {
    if carried.None? {
      PriceNewCounts(promos, code, total, now);
    }
  }

  lemma UnusedCounts(promos: map<string, Promo>, code: Option<string>)
    ensures CountsUses(promos, Unused(promos, code), code, None)
  {
  }

  // ---------- Prices ----------

  /** The price an order of this total owes under its promo, whose minimum it meets. */
  predicate OwesUnder(promos: map<string, Promo>, promoCode: Option<string>, total: int, price: int) {
    if promoCode.None? then price == total
    else
      && promoCode.value in promos
      && price == total - Calculate(promos[promoCode.value].percent, total)
      && (promos[promoCode.value].minAmount.Some? ==> promos[promoCode.value].minAmount.value <= total)
  }

  predicate PriceOk(promos: map<string, Promo>, o: Order) {
    o.totalPrice == Total(o.items) && OwesUnder(promos, o.promoCode, o.totalPrice, o.discountedPrice)
  }

  predicate WellPriced(s: Shop) {
    forall id :: id in s.orders ==> PriceOk(s.promos, s.orders[id])
  }

  lemma PriceNewOwes(promos: map<string, Promo>, code: Option<string>, total: int, now: int)
    requires PriceNew(promos, code, total, now).Priced?
    ensures var priced := PriceNew(promos, code, total, now);
      OwesUnder(promos, priced.promoCode, total, priced.discountedPrice)
  {
  }

  lemma RepriceOwes(promos: map<string, Promo>, carried: Option<string>, code: Option<string>, total: int, now: int)
    requires Reprice(promos, carried, code, total, now).Priced?
    requires carried.Some? ==> carried.value in promos
    ensures var priced := Reprice(promos, carried, code, total, now);
      OwesUnder(promos, priced.promoCode, total, priced.discountedPrice)
  {
    if carried.None? {
      PriceNewOwes(promos, code, total, now);
    }
  }

  // ---------- One request ----------

  /** Uses and carrying orders change together. */
  ghost predicate Accounts(s: Shop, t: Shop) {
    && SameTerms(s.promos, t.promos)
    && (WithinMax(s.promos) ==> WithinMax(t.promos))
    && forall c :: c in s.promos ==>
         t.promos[c].currentUses - Carrying(t.orders, c) == s.promos[c].currentUses - Carrying(s.orders, c)
  }

  lemma FiledAccounts(s: Shop, t: Shop, id: string, before: Option<string>)
    requires id in t.orders && t.orders == s.orders[id := t.orders[id]]
    requires id in s.orders ==> s.orders[id].status != Canceled && s.orders[id].promoCode == before
    requires id !in s.orders ==> before == None
    requires CountsUses(s.promos, t.promos, before, if t.orders[id].status == Canceled then None else t.orders[id].promoCode)
    ensures Accounts(s, t)
  {
    forall c | c in s.promos
      ensures t.promos[c].currentUses - Carrying(t.orders, c) == s.promos[c].currentUses - Carrying(s.orders, c)
    {
      CarryingUpdate(s.orders, id, t.orders[id], c);
    }
  }

  lemma FiledIsPriced(s: Shop, t: Shop, id: string)
    requires WellPriced(s) && SameTerms(s.promos, t.promos)
    requires id in t.orders && t.orders == s.orders[id := t.orders[id]] && PriceOk(s.promos, t.orders[id])
    ensures WellPriced(t)
  {
  }

  lemma CreateAccounts(s: Shop, limit: int, r: Request)
    requires r.Create? && Accepts(s, limit, r)
    ensures Accounts(s, After(s, limit, r))
    ensures WellPriced(s) ==> WellPriced(After(s, limit, r))
  {
    CreateMeans(s, limit, r);
    var total := Total(ItemsOf(s.products, r.lines));
    PriceNewCounts(s.promos, r.code, total, r.clock.applied);
    PriceNewOwes(s.promos, r.code, total, r.clock.applied);
    FiledAccounts(s, After(s, limit, r), r.id, None);
    if WellPriced(s) {
      FiledIsPriced(s, After(s, limit, r), r.id);
    }
  }

  lemma UpdateAccounts(s: Shop, limit: int, r: Request)
    requires r.Update? && Accepts(s, limit, r)
    ensures Accounts(s, After(s, limit, r))
    ensures WellPriced(s) ==> WellPriced(After(s, limit, r))
  {
    UpdateMeans(s, limit, r);
    var carried, total := s.orders[r.id].promoCode, Total(ItemsOf(Restored(s, r.id), r.lines));
    RepriceCounts(s.promos, carried, r.code, total, r.clock.applied);
    FiledAccounts(s, After(s, limit, r), r.id, carried);
    if WellPriced(s) {
      assert PriceOk(s.promos, s.orders[r.id]);
      RepriceOwes(s.promos, carried, r.code, total, r.clock.applied);
      FiledIsPriced(s, After(s, limit, r), r.id);
    }
  }

  lemma CancelAccounts(s: Shop, limit: int, r: Request)
    requires r.Cancel? && Accepts(s, limit, r)
    ensures Accounts(s, After(s, limit, r))
    ensures WellPriced(s) ==> WellPriced(After(s, limit, r))
  {
    CancelMeans(s, limit, r);
    UnusedCounts(s.promos, s.orders[r.id].promoCode);
    FiledAccounts(s, After(s, limit, r), r.id, s.orders[r.id].promoCode);
    if WellPriced(s) {
      assert PriceOk(s.promos, s.orders[r.id]);
      FiledIsPriced(s, After(s, limit, r), r.id);
    }
  }

  lemma RequestAccounts(s: Shop, limit: int, r: Request)
    ensures Accounts(s, After(s, limit, r))
    ensures WellPriced(s) ==> WellPriced(After(s, limit, r))
  {
    if AboutProducts(r) {
      ProductRequestMeans(s, limit, r);
    } else if Accepts(s, limit, r) {
      match r
      case Create(_, _, _, _, _, _) => CreateAccounts(s, limit, r);
      case Update(_, _, _, _, _, _) => UpdateAccounts(s, limit, r);
      case Cancel(_, _, _, _) => CancelAccounts(s, limit, r);
    }
  }

  // ---------- Every run ----------

  lemma AccountsTwice(s: Shop, t: Shop, u: Shop)
    requires Accounts(s, t) && Accounts(t, u)
    ensures Accounts(s, u)
  {
  }

  /**
   * In every reachable state a promo's uses are what they were at the start plus the change in the number of
   * orders, not cancelled, that carry it; and they never exceed its maximum.
   */
  lemma {:induction false} PromoAccounting(s: Shop, limit: int, requests: seq<Request>, code: string)
    requires WithinMax(s.promos) && code in s.promos
    ensures var t := AfterAll(s, limit, requests);
      && code in t.promos
      && t.promos[code].currentUses == s.promos[code].currentUses + Carrying(t.orders, code) - Carrying(s.orders, code)
      && (t.promos[code].maxUses.Some? ==> t.promos[code].currentUses <= t.promos[code].maxUses.value)
      && t.promos[code].maxUses == s.promos[code].maxUses
  {
    AccountsAlways(s, limit, requests);
  }

  lemma {:induction false} AccountsAlways(s: Shop, limit: int, requests: seq<Request>)
    ensures Accounts(s, AfterAll(s, limit, requests))
    decreases |requests|
  {
    if requests != [] {
      var front := requests[..|requests| - 1];
      AccountsAlways(s, limit, front);
      RequestAccounts(AfterAll(s, limit, front), limit, requests[|requests| - 1]);
      AccountsTwice(s, AfterAll(s, limit, front), AfterAll(s, limit, requests));
    }
  }

  /**
   * In every reachable state each order's total is the sum of its snapshot prices times quantities, its
   * discounted price is the total less its promo's discount or the total itself, and it meets its promo's minimum.
   */
  lemma {:induction false} PricesAlwaysAddUp(s: Shop, limit: int, requests: seq<Request>)
    requires WellPriced(s)
    ensures WellPriced(AfterAll(s, limit, requests))
    decreases |requests|
  {
    if requests != [] {
      var front := requests[..|requests| - 1];
      PricesAlwaysAddUp(s, limit, front);
      RequestAccounts(AfterAll(s, limit, front), limit, requests[|requests| - 1]);
    }
  }

  /** What a customer owes lies between zero and the total, and is at least 30% of it less half a cent. */
  lemma OwedIsBounded(promos: map<string, Promo>, o: Order)
    requires PriceOk(promos, o) && o.totalPrice >= 0
    requires o.promoCode.Some? ==> promos[o.promoCode.value].percent >= 0
    ensures 0 <= o.discountedPrice <= o.totalPrice
    ensures 20_000 * o.discountedPrice >= 6_000 * o.totalPrice - 10_000
  {
    if o.promoCode.Some? {
      DiscountedPriceBounds(promos[o.promoCode.value].percent, o.totalPrice);
    }
  }

  // ---------- Snapshots ----------

  lemma SnapshotStep(s: Shop, limit: int, r: Request, id: string)
    requires id in s.orders && !(r.Update? && r.id == id)
    ensures id in After(s, limit, r).orders
    ensures After(s, limit, r).orders[id] == s.orders[id].(status := After(s, limit, r).orders[id].status)
  {
    if AboutProducts(r) {
      ProductRequestMeans(s, limit, r);
    } else if Accepts(s, limit, r) {
      match r
      case Create(_, _, _, _, _, _) => CreateMeans(s, limit, r);
      case Update(_, _, _, _, _, _) => UpdateMeans(s, limit, r);
      case Cancel(_, _, _, _) => CancelMeans(s, limit, r);
    }
  }

  /** Until its own next update an order keeps its items and prices, whatever happens to the products. */
  lemma {:induction false} SnapshotsStay(s: Shop, limit: int, requests: seq<Request>, id: string)
    requires id in s.orders && forall i :: 0 <= i < |requests| ==> !(requests[i].Update? && requests[i].id == id)
    ensures id in AfterAll(s, limit, requests).orders
    ensures var o := AfterAll(s, limit, requests).orders[id];
      && o.items == s.orders[id].items && o.userId == s.orders[id].userId && o.promoCode == s.orders[id].promoCode
      && o.totalPrice == s.orders[id].totalPrice && o.discountedPrice == s.orders[id].discountedPrice
    decreases |requests|
  {
    if requests != [] {
      var front := requests[..|requests| - 1];
      SnapshotsStay(s, limit, front, id);
      SnapshotStep(AfterAll(s, limit, front), limit, requests[|requests| - 1], id);
    }
  }
}
