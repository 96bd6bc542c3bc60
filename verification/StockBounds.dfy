/** When stock goes negative: a returned quantity that overflows it, or repeated lines that add up to too much. */
module StockBounds {
  import opened MapSums
  import opened ShopTables
  import opened Stock

  const MAX := 0x7FFF_FFFF
  const MAX_LINES := 50
  const MAX_QUANTITY := 999

  // What the request body's own validation asks of its lines.
  predicate ValidLines(lines: seq<Line>) {
    |lines| <= MAX_LINES && forall i :: 0 <= i < |lines| ==> 1 <= lines[i].quantity <= MAX_QUANTITY
  }

  predicate NoRepeats(lines: seq<Line>) {
    forall i, j :: 0 <= i < j < |lines| ==> lines[i].productId != lines[j].productId
  }

  lemma {:induction false} SumIsBounded(lines: seq<Line>, p: string)
    requires forall i :: 0 <= i < |lines| ==> 1 <= lines[i].quantity <= MAX_QUANTITY
    ensures 0 <= LineSum(lines, p) <= MAX_QUANTITY * |lines|
    decreases |lines|
  {
    if lines != [] {
      SumIsBounded(lines[..|lines| - 1], p);
    }
  }

  lemma {:induction false} AbsentSum(lines: seq<Line>, p: string)
    requires forall i :: 0 <= i < |lines| ==> lines[i].productId != p
    ensures LineSum(lines, p) == 0
    decreases |lines|
  {
    if lines != [] {
      AbsentSum(lines[..|lines| - 1], p);
    }
  }

  /** Without repeats, checking each line on its own checks the sum. */
  lemma {:induction false} CheckedLineFits(products: map<string, Product>, lines: seq<Line>, p: string)
    requires NoRepeats(lines) && Shortfalls(products, lines) == []
    requires p in products && products[p].stock >= 0
    ensures LineSum(lines, p) <= products[p].stock
    decreases |lines|
  {
    if lines != [] {
      var front, last := lines[..|lines| - 1], lines[|lines| - 1];
      if last.productId == p {
        AbsentSum(front, p);
      } else {
        CheckedLineFits(products, front, p);
      }
    }
  }

  // A product with negative stock fails the check of every line that names it.
  lemma {:induction false} NegativeIsRefused(products: map<string, Product>, lines: seq<Line>, p: string)
    requires ValidLines(lines) && Shortfalls(products, lines) == []
    requires p in products && products[p].stock < 0
    ensures LineSum(lines, p) == 0
    decreases |lines|
  {
    if lines != [] {
      NegativeIsRefused(products, lines[..|lines| - 1], p);
    }
  }

  // ---------- Orders keep the limits of the requests that made them ----------

  predicate ValidOrders(s: Shop) {
    forall id :: id in s.orders ==> ValidLines(LinesOf(s.orders[id].items))
  }

  /** A request as its body's validation lets it through, with no product named twice. */
  predicate ValidRequest(r: Request) {
    match r
    case Create(_, lines, _, _, _, _) => ValidLines(lines) && NoRepeats(lines)
    case Update(_, lines, _, _, _, _) => ValidLines(lines) && NoRepeats(lines)
    case AddProduct(_, _, _, stock, _, _, _) => stock >= 0
    case EditProduct(_, _, _, stock, _, _, _) => stock >= 0
    case _ => true
  }

  lemma HeldByOne(s: Shop, id: string, p: string)
    requires ValidOrders(s) && id in s.orders
    ensures 0 <= OrderHeld(s.orders[id], p) <= MAX_LINES * MAX_QUANTITY
  {
    SumIsBounded(LinesOf(s.orders[id].items), p);
  }

  lemma HeldIsNonNegative(s: Shop, p: string)
    requires ValidOrders(s)
    ensures forall id :: id in s.orders ==> 0 <= OrderHeld(s.orders[id], p) <= Held(s.orders, p)
  {
    var held := HeldBy(s.orders, p);
    forall id | id in held ensures held[id] >= 0 {
      HeldByOne(s, id, p);
    }
    SumNonNegative(held);
    forall id | id in s.orders ensures 0 <= OrderHeld(s.orders[id], p) <= Held(s.orders, p) {
      assert held[id] == OrderHeld(s.orders[id], p);
    }
  }

  lemma FiledIsValid(s: Shop, t: Shop, id: string, products: map<string, Product>, lines: seq<Line>)
    requires ValidOrders(s) && ValidLines(lines) && TakesAndFiles(s, t, id, products, lines)
    ensures ValidOrders(t)
  {
    ItemsKeepLines(products, lines);
  }

  lemma OrdersStayValid(s: Shop, limit: int, r: Request)
    requires ValidOrders(s) && ValidRequest(r)
    ensures ValidOrders(After(s, limit, r))
  {
    if AboutProducts(r) {
      ProductRequestMeans(s, limit, r);
    } else if Accepts(s, limit, r) {
      if r.Create? {
        CreateTakes(s, limit, r);
        FiledIsValid(s, After(s, limit, r), r.id, s.products, r.lines);
      } else if r.Update? {
        UpdateTakes(s, limit, r);
        FiledIsValid(s, After(s, limit, r), r.id, Restored(s, r.id), r.lines);
      } else {
        CancelMeans(s, limit, r);
      }
    }
  }

  // ---------- Exactly when stock goes negative ----------

  /** An accepted update or cancel gives back more of p than its stock has room for. */
  predicate Overflows(s: Shop, limit: int, r: Request, p: string)
    requires p in s.products
  {
    && (r.Update? || r.Cancel?) && r.id in s.orders && Accepts(s, limit, r)
    && s.products[p].stock + OrderHeld(s.orders[r.id], p) > MAX
  }

  lemma CreateStays(s: Shop, limit: int, r: Request, p: string)
    requires r.Create? && ValidRequest(r) && Accepts(s, limit, r)
    requires p in s.products && s.products[p].stock >= 0
    ensures 0 <= s.products[p].stock - LineSum(r.lines, p) <= MAX
  {
    CreateMeans(s, limit, r);
    CheckedLineFits(s.products, r.lines, p);
    SumIsBounded(r.lines, p);
  }

  lemma UpdateChecked(s: Shop, limit: int, r: Request)
    requires r.Update? && Accepts(s, limit, r)
    ensures r.id in s.orders && s.orders[r.id].status == Created && Shortfalls(Restored(s, r.id), r.lines) == []
  {
    UpdateMeans(s, limit, r);
  }

  lemma UpdateWithRoom(s: Shop, limit: int, r: Request, p: string)
    requires r.Update? && ValidRequest(r) && ValidOrders(s) && Accepts(s, limit, r)
    requires p in s.products && s.products[p].stock >= 0 && !Overflows(s, limit, r, p)
    ensures r.id in s.orders && 0 <= s.products[p].stock + OrderHeld(s.orders[r.id], p) - LineSum(r.lines, p) <= MAX
  {
    UpdateChecked(s, limit, r);
    HeldByOne(s, r.id, p);
    RestoredAt(s, r.id, p);
    CheckedLineFits(Restored(s, r.id), r.lines, p);
    SumIsBounded(r.lines, p);
  }

  lemma NegativeAfter(s: Shop, t: Shop, id: string, lines: seq<Line>, p: string)
    requires id in s.orders && s.orders[id].status == Created && p in s.products
    requires TakesAndFiles(s, t, id, Restored(s, id), lines)
    requires Wrap32(s.products[p].stock + OrderHeld(s.orders[id], p)) < 0 && LineSum(lines, p) == 0
    ensures p in t.products && t.products[p].stock < 0
  {
    UpdateBalances(s, t, id, lines, p);
  }

  lemma UpdateOverflows(s: Shop, limit: int, r: Request, p: string)
    requires r.Update? && ValidLines(r.lines) && ValidOrders(s)
    requires p in s.products && s.products[p].stock >= 0 && Overflows(s, limit, r, p)
    ensures p in After(s, limit, r).products && After(s, limit, r).products[p].stock < 0
  {
    UpdateTakes(s, limit, r);
    UpdateChecked(s, limit, r);
    OverflowedIsRefused(s, r.id, r.lines, p);
    NegativeAfter(s, After(s, limit, r), r.id, r.lines, p);
  }

  lemma OverflowedIsRefused(s: Shop, id: string, lines: seq<Line>, p: string)
    requires id in s.orders && s.orders[id].status == Created && ValidOrders(s) && ValidLines(lines)
    requires p in s.products && s.products[p].stock >= 0 && s.products[p].stock + OrderHeld(s.orders[id], p) > MAX
    requires Shortfalls(Restored(s, id), lines) == []
    ensures Wrap32(s.products[p].stock + OrderHeld(s.orders[id], p)) < 0 && LineSum(lines, p) == 0
  {
    HeldByOne(s, id, p);
    RestoredAt(s, id, p);
    NegativeIsRefused(Restored(s, id), lines, p);
  }

  lemma CancelOverflows(s: Shop, limit: int, r: Request, p: string)
    requires r.Cancel? && ValidOrders(s)
    requires p in s.products && s.products[p].stock >= 0 && Overflows(s, limit, r, p)
    ensures p in After(s, limit, r).products && After(s, limit, r).products[p].stock < 0
  {
    CancelMeans(s, limit, r);
    HeldByOne(s, r.id, p);
    CancelMoves(s, r.id, r.who, r.saved, p);
  }

  lemma ExactMove(s: Shop, t: Shop, p: string, n: int)
    requires Moves(s, t, p, n) && -MAX <= s.products[p].stock - n <= MAX
    ensures t.products[p].stock == s.products[p].stock - n && Owned(t, p) == Owned(s, p)
  {
  }

  lemma OrderRequestWithRoom(s: Shop, limit: int, r: Request, p: string)
    requires ValidRequest(r) && ValidOrders(s) && !AboutProducts(r) && Accepts(s, limit, r)
    requires p in s.products && s.products[p].stock >= 0 && !Overflows(s, limit, r, p)
    ensures var t := After(s, limit, r);
      p in t.products && t.products[p].stock >= 0 && Owned(t, p) == Owned(s, p)
  {
    OrderRequestMoves(s, limit, r, p);
    if r.Create? {
      CreateStays(s, limit, r, p);
    } else if r.Update? {
      UpdateWithRoom(s, limit, r, p);
    } else {
      CancelMeans(s, limit, r);
      HeldByOne(s, r.id, p);
    }
    ExactMove(s, After(s, limit, r), p, Taken(s, r, p));
  }

  lemma RequestWithRoom(s: Shop, limit: int, r: Request, p: string)
    requires ValidRequest(r) && ValidOrders(s)
    requires p in s.products && s.products[p].stock >= 0 && !Overflows(s, limit, r, p)
    ensures var t := After(s, limit, r);
      p in t.products && t.products[p].stock >= 0 && Owned(t, p) == Owned(s, p) + Edit(s, limit, r, p)
  {
    if AboutProducts(r) {
      ProductRequestEdits(s, limit, r, p);
    } else if Accepts(s, limit, r) {
      OrderRequestWithRoom(s, limit, r, p);
    }
  }

  /** One request that names no product twice leaves stock negative if and only if it overflows it. */
  lemma NegativeExactly(s: Shop, limit: int, r: Request, p: string)
    requires ValidRequest(r) && ValidOrders(s) && p in s.products && s.products[p].stock >= 0
    ensures p in After(s, limit, r).products
    ensures After(s, limit, r).products[p].stock < 0 <==> Overflows(s, limit, r, p)
  {
    if !Overflows(s, limit, r, p) {
      RequestWithRoom(s, limit, r, p);
    } else if r.Update? {
      UpdateOverflows(s, limit, r, p);
    } else {
      CancelOverflows(s, limit, r, p);
    }
  }

  // ---------- Runs ----------

  lemma {:induction false} OrdersAlwaysValid(s: Shop, limit: int, requests: seq<Request>, n: nat)
    requires ValidOrders(s) && n <= |requests| && forall i :: 0 <= i < |requests| ==> ValidRequest(requests[i])
    ensures ValidOrders(AfterAll(s, limit, requests[..n]))
    decreases n
  {
    if n > 0 {
      OrdersAlwaysValid(s, limit, requests, n - 1);
      assert requests[..n][..n - 1] == requests[..n - 1];
      OrdersStayValid(AfterAll(s, limit, requests[..n - 1]), limit, requests[n - 1]);
    }
  }

  lemma {:induction false} ProductsStay(s: Shop, limit: int, requests: seq<Request>, p: string)
    requires p in s.products
    ensures p in AfterAll(s, limit, requests).products
    decreases |requests|
  {
    if requests != [] {
      ProductsStay(s, limit, requests[..|requests| - 1], p);
      RequestKeepsLedger(AfterAll(s, limit, requests[..|requests| - 1]), limit, requests[|requests| - 1], p);
    }
  }

  function StockOf(s: Shop, p: string): int {
    if p in s.products then s.products[p].stock else 0
  }

  predicate OverflowsThere(s: Shop, limit: int, requests: seq<Request>, i: nat, p: string)
    requires i < |requests|
  {
    var t := AfterAll(s, limit, requests[..i]);
    p in t.products && Overflows(t, limit, requests[i], p)
  }

  ghost predicate NeverOverflows(s: Shop, limit: int, requests: seq<Request>, p: string) {
    forall i :: 0 <= i < |requests| ==> !OverflowsThere(s, limit, requests, i, p)
  }

  lemma AfterPrefix(s: Shop, limit: int, requests: seq<Request>, n: nat)
    requires n < |requests|
    ensures AfterAll(s, limit, requests[..n + 1]) == After(AfterAll(s, limit, requests[..n]), limit, requests[n])
  {
    assert requests[..n + 1][..n] == requests[..n];
  }

  lemma {:induction false} StaysNonNegative(s: Shop, limit: int, requests: seq<Request>, n: nat, p: string)
    requires ValidOrders(s) && n <= |requests| && forall i :: 0 <= i < |requests| ==> ValidRequest(requests[i])
    requires p in s.products && s.products[p].stock >= 0 && NeverOverflows(s, limit, requests, p)
    ensures p in AfterAll(s, limit, requests[..n]).products && StockOf(AfterAll(s, limit, requests[..n]), p) >= 0
    decreases n
  {
    if n > 0 {
      StaysNonNegative(s, limit, requests, n - 1, p);
      OrdersAlwaysValid(s, limit, requests, n - 1);
      AfterPrefix(s, limit, requests, n - 1);
      assert !OverflowsThere(s, limit, requests, n - 1, p);
      NegativeExactly(AfterAll(s, limit, requests[..n - 1]), limit, requests[n - 1], p);
    }
  }

  /**
   * In a run of requests that name no product twice, a product's stock stays non-negative all along if and only
   * if no update or cancel returns more than the stock has room for.
   */
  lemma NonNegativeExactly(s: Shop, limit: int, requests: seq<Request>, p: string)
    requires ValidOrders(s) && forall i :: 0 <= i < |requests| ==> ValidRequest(requests[i])
    requires p in s.products && s.products[p].stock >= 0
    ensures (forall n :: 0 <= n <= |requests| ==> StockOf(AfterAll(s, limit, requests[..n]), p) >= 0)
            <==> NeverOverflows(s, limit, requests, p)
  {
    if NeverOverflows(s, limit, requests, p) {
      forall n | 0 <= n <= |requests| ensures StockOf(AfterAll(s, limit, requests[..n]), p) >= 0 {
        StaysNonNegative(s, limit, requests, n, p);
      }
    } else {
      var i :| 0 <= i < |requests| && OverflowsThere(s, limit, requests, i, p);
      if StockOf(AfterAll(s, limit, requests[..i]), p) >= 0 {
        OrdersAlwaysValid(s, limit, requests, i);
        NegativeExactly(AfterAll(s, limit, requests[..i]), limit, requests[i], p);
        AfterPrefix(s, limit, requests, i);
        assert StockOf(AfterAll(s, limit, requests[..i + 1]), p) < 0;
      }
    }
  }

  lemma NeverOverflowsFront(s: Shop, limit: int, requests: seq<Request>, p: string)
    requires requests != [] && NeverOverflows(s, limit, requests, p)
    ensures NeverOverflows(s, limit, requests[..|requests| - 1], p)
    ensures var t := AfterAll(s, limit, requests[..|requests| - 1]);
      p in t.products ==> !Overflows(t, limit, requests[|requests| - 1], p)
  {
    var front := requests[..|requests| - 1];
    forall i | 0 <= i < |front| ensures !OverflowsThere(s, limit, front, i, p) {
      assert front[..i] == requests[..i] && front[i] == requests[i];
      assert !OverflowsThere(s, limit, requests, i, p);
    }
    assert !OverflowsThere(s, limit, requests, |requests| - 1, p);
  }

  /** And in such a run the ledger balances exactly, with no wrap-around. */
  lemma {:induction false} StockNeverNegative(s: Shop, limit: int, requests: seq<Request>, p: string)
    requires ValidOrders(s) && forall i :: 0 <= i < |requests| ==> ValidRequest(requests[i])
    requires p in s.products && s.products[p].stock >= 0 && NeverOverflows(s, limit, requests, p)
    ensures p in AfterAll(s, limit, requests).products
    ensures StockOf(AfterAll(s, limit, requests), p) >= 0
    ensures Owned(AfterAll(s, limit, requests), p) == Owned(s, p) + Edits(s, limit, requests, p)
    decreases |requests|
  {
    if requests != [] {
      var n := |requests| - 1;
      var front, last := requests[..n], requests[n];
      NeverOverflowsFront(s, limit, requests, p);
      StockNeverNegative(s, limit, front, p);
      OrdersAlwaysValid(s, limit, requests, n);
      RequestWithRoom(AfterAll(s, limit, front), limit, last, p);
    }
  }

  // ---------- A rule a seller can follow ----------

  /** Every product has room for everything the orders hold of it. */
  ghost predicate HasRoom(s: Shop) {
    ValidOrders(s) && forall p :: p in s.products ==> RoomAt(s, p)
  }

  ghost predicate RoomAt(s: Shop, p: string)
    requires p in s.products
  {
    0 <= s.products[p].stock && Owned(s, p) <= MAX
  }

  // The seller leaves room for what the orders hold.
  ghost predicate LeavesRoom(s: Shop, r: Request) {
    match r
    case AddProduct(p, _, _, stock, _, _, _) => stock + Held(s.orders, p) <= MAX
    case EditProduct(p, _, _, stock, _, _, _) => stock + Held(s.orders, p) <= MAX
    case _ => true
  }

  lemma RoomNeverOverflows(s: Shop, limit: int, r: Request, p: string)
    requires HasRoom(s) && p in s.products
    ensures !Overflows(s, limit, r, p)
  {
    assert RoomAt(s, p);
    HeldIsNonNegative(s, p);
  }

  lemma NoNewProducts(s: Shop, limit: int, r: Request, p: string)
    requires !AboutProducts(r) && p !in s.products
    ensures p !in After(s, limit, r).products
  {
    if Accepts(s, limit, r) {
      if r.Create? {
        CreateTakes(s, limit, r);
        ShiftedAt(s.products, r.lines, Take, p);
      } else if r.Update? {
        UpdateTakes(s, limit, r);
        ShiftedAt(s.products, LinesOf(s.orders[r.id].items), Give, p);
        ShiftedAt(Restored(s, r.id), r.lines, Take, p);
      } else {
        CancelMeans(s, limit, r);
        ShiftedAt(s.products, LinesOf(s.orders[r.id].items), Give, p);
      }
    }
  }

  lemma OldProductHasRoom(s: Shop, limit: int, r: Request, p: string)
    requires HasRoom(s) && ValidRequest(r) && LeavesRoom(s, r) && p in s.products
    ensures p in After(s, limit, r).products && RoomAt(After(s, limit, r), p)
  {
    assert RoomAt(s, p);
    RoomNeverOverflows(s, limit, r, p);
    RequestWithRoom(s, limit, r, p);
  }

  lemma NewProductHasRoom(s: Shop, limit: int, r: Request, p: string)
    requires ValidRequest(r) && LeavesRoom(s, r) && p !in s.products && p in After(s, limit, r).products
    ensures RoomAt(After(s, limit, r), p)
  {
    if !AboutProducts(r) {
      NoNewProducts(s, limit, r, p);
    }
  }

  lemma RequestKeepsRoom(s: Shop, limit: int, r: Request)
    requires HasRoom(s) && ValidRequest(r) && LeavesRoom(s, r)
    ensures HasRoom(After(s, limit, r))
  {
    OrdersStayValid(s, limit, r);
    forall p | p in After(s, limit, r).products ensures RoomAt(After(s, limit, r), p) {
      if p in s.products {
        OldProductHasRoom(s, limit, r, p);
      } else {
        NewProductHasRoom(s, limit, r, p);
      }
    }
  }

  lemma {:induction false} RoomStays(s: Shop, limit: int, requests: seq<Request>, n: nat)
    requires HasRoom(s) && n <= |requests| && forall i :: 0 <= i < |requests| ==> ValidRequest(requests[i])
    requires forall i :: 0 <= i < |requests| ==> LeavesRoom(AfterAll(s, limit, requests[..i]), requests[i])
    ensures HasRoom(AfterAll(s, limit, requests[..n]))
    decreases n
  {
    if n > 0 {
      RoomStays(s, limit, requests, n - 1);
      AfterPrefix(s, limit, requests, n - 1);
      RequestKeepsRoom(AfterAll(s, limit, requests[..n - 1]), limit, requests[n - 1]);
    }
  }

  /** Sellers who leave room for what the orders hold keep every stock from overflowing, and so from going negative. */
  lemma LeavingRoomSuffices(s: Shop, limit: int, requests: seq<Request>, p: string)
    requires HasRoom(s) && forall i :: 0 <= i < |requests| ==> ValidRequest(requests[i])
    requires forall i :: 0 <= i < |requests| ==> LeavesRoom(AfterAll(s, limit, requests[..i]), requests[i])
    ensures NeverOverflows(s, limit, requests, p)
  {
    forall i | 0 <= i < |requests| ensures !OverflowsThere(s, limit, requests, i, p) {
      RoomStays(s, limit, requests, i);
      if p in AfterAll(s, limit, requests[..i]).products {
        RoomNeverOverflows(AfterAll(s, limit, requests[..i]), limit, requests[i], p);
      }
    }
  }

  // ---------- Repeated products ----------

  /** An accepted order oversells a product if and only if its lines for it add up to more than the stock. */
  lemma OversellsExactly(s: Shop, limit: int, r: Request, p: string)
    requires r.Create? && Accepts(s, limit, r) && ValidLines(r.lines) && p in s.products && s.products[p].stock >= 0
    ensures p in After(s, limit, r).products
    ensures After(s, limit, r).products[p].stock < 0 <==> LineSum(r.lines, p) > s.products[p].stock
  {
    OrderRequestMoves(s, limit, r, p);
    SumIsBounded(r.lines, p);
    ExactMove(s, After(s, limit, r), p, LineSum(r.lines, p));
  }

  lemma UpdateWithinRange(s: Shop, limit: int, r: Request, p: string)
    requires r.Update? && Accepts(s, limit, r) && ValidLines(r.lines) && ValidOrders(s)
    requires p in s.products && s.products[p].stock >= 0 && !Overflows(s, limit, r, p)
    ensures p in After(s, limit, r).products && r.id in s.orders
    ensures After(s, limit, r).products[p].stock == s.products[p].stock + OrderHeld(s.orders[r.id], p) - LineSum(r.lines, p)
  {
    OrderRequestMoves(s, limit, r, p);
    UpdateChecked(s, limit, r);
    SumIsBounded(r.lines, p);
    HeldByOne(s, r.id, p);
    ExactMove(s, After(s, limit, r), p, LineSum(r.lines, p) - OrderHeld(s.orders[r.id], p));
  }

  /**
   * An accepted update leaves a product's stock negative if and only if its lines exceed the stock with the
   * order's old lines given back, or giving them back overflows it.
   */
  lemma UpdateOversellsExactly(s: Shop, limit: int, r: Request, p: string)
    requires r.Update? && Accepts(s, limit, r) && ValidLines(r.lines) && ValidOrders(s)
    requires p in s.products && s.products[p].stock >= 0
    ensures p in After(s, limit, r).products && r.id in s.orders
    ensures After(s, limit, r).products[p].stock < 0
            <==> LineSum(r.lines, p) > s.products[p].stock + OrderHeld(s.orders[r.id], p) || Overflows(s, limit, r, p)
  {
    if Overflows(s, limit, r, p) {
      UpdateOverflows(s, limit, r, p);
    } else {
      UpdateWithinRange(s, limit, r, p);
    }
  }

  function LastLamp(): Shop {
    Shop(map["lamp" := Product("Lamp", 500, 1, Active, "seller")], map[], map[], [])
  }

  function LampTwice(clock: Clock): Request {
    Create("order", [Line("lamp", 1), Line("lamp", 1)], None, Principal("buyer", Buyer), clock, true)
  }

  // One more line that its own check lets through.
  lemma OneMoreLine(products: map<string, Product>, lines: seq<Line>, last: Line)
    requires LinesFault(products, lines).None?
    requires last.productId in products && products[last.productId].status == Active && products[last.productId].stock >= last.quantity
    ensures LinesFault(products, lines + [last]).None?
    ensures LineSum(lines + [last], last.productId) == LineSum(lines, last.productId) + last.quantity
  {
    assert (lines + [last])[..|lines + [last]| - 1] == lines;
  }

  lemma TwicePasses(products: map<string, Product>, line: Line)
    requires line.productId in products && products[line.productId].status == Active
    requires products[line.productId].stock >= line.quantity
    ensures LinesFault(products, [line, line]).None?
    ensures LineSum([line, line], line.productId) == 2 * line.quantity
  {
    OneMoreLine(products, [], line);
    OneMoreLine(products, [] + [line], line);
    assert [] + [line] + [line] == [line, line];
  }

  // In a shop without orders so far, a buyer's order without a promo is accepted once its lines pass.
  lemma FirstOrderIsAccepted(s: Shop, limit: int, r: Request)
    requires r.Create? && r.who.role == Buyer && r.code.None? && r.commits && s.orders == map[] && s.operations == []
    requires LinesFault(s.products, r.lines).None?
    ensures Accepts(s, limit, r)
  {
  }

  lemma LampTwiceIsAccepted(limit: int, clock: Clock)
    ensures Accepts(LastLamp(), limit, LampTwice(clock))
    ensures LineSum(LampTwice(clock).lines, "lamp") == 2
  {
    TwicePasses(LastLamp().products, Line("lamp", 1));
    FirstOrderIsAccepted(LastLamp(), limit, LampTwice(clock));
  }

  /** Two lines for the last lamp are both accepted, and leave a stock of minus one. */
  lemma RepeatedLineOversells(limit: int, clock: Clock)
    ensures var t := After(LastLamp(), limit, LampTwice(clock));
      "lamp" in t.products && t.products["lamp"].stock == -1
  {
    LampTwiceIsAccepted(limit, clock);
    OrderRequestMoves(LastLamp(), limit, LampTwice(clock), "lamp");
    ExactMove(LastLamp(), After(LastLamp(), limit, LampTwice(clock)), "lamp", 2);
  }

  // ---------- A return that overflows ----------

  function OneOrdered(): Shop {
    Shop(map["lamp" := Product("Lamp", 500, 0, Active, "seller")], map[],
         map["order" := Order("buyer", Created, [Item(Line("lamp", 1), "Lamp", 500)], 500, 500, None)], [])
  }

  const FILL_UP := EditProduct("lamp", "Lamp", 500, MAX, Active, Principal("seller", Seller), true)
  const GIVE_BACK := Cancel("order", Principal("buyer", Buyer), 0, true)

  lemma OneLine()
    ensures LinesOf(OneOrdered().orders["order"].items) == [Line("lamp", 1)]
    ensures LineSum([Line("lamp", 1)], "lamp") == 1
  {
    var items, line := OneOrdered().orders["order"].items, Line("lamp", 1);
    assert items[..0] == [] && [line][..0] == [];
    assert LinesOf(items) == LinesOf(items[..0]) + [line];
  }

  lemma OneOrderedIsValid()
    ensures ValidOrders(OneOrdered())
  {
    OneLine();
  }

  lemma GiveBackOverflows(limit: int)
    ensures var full := OneOrdered().(products := map["lamp" := Product("Lamp", 500, MAX, Active, "seller")]);
      Overflows(full, limit, GIVE_BACK, "lamp")
  {
    OneLine();
    var full := OneOrdered().(products := map["lamp" := Product("Lamp", 500, MAX, Active, "seller")]);
    assert [Line("lamp", 1)][..0] == [];
    assert FirstMissing(full.products, [Line("lamp", 1)]).None?;
    assert OrderHeld(full.orders["order"], "lamp") == 1;
  }

  /** A seller sets the largest stock there is while one lamp is on order; its cancel makes the stock negative. */
  lemma ReturnOverflows(limit: int)
    ensures var t := AfterAll(OneOrdered(), limit, [FILL_UP] + [GIVE_BACK]);
      "lamp" in t.products && t.products["lamp"].stock < 0
    ensures ValidRequest(FILL_UP) && ValidRequest(GIVE_BACK) && ValidOrders(OneOrdered())
  {
    OneOrderedIsValid();
    var s := OneOrdered();
    var full := After(s, limit, FILL_UP);
    assert full == s.(products := map["lamp" := Product("Lamp", 500, MAX, Active, "seller")]);
    GiveBackOverflows(limit);
    CancelOverflows(full, limit, GIVE_BACK, "lamp");
    AfterPrefix(s, limit, [FILL_UP] + [GIVE_BACK], 1);
    AfterPrefix(s, limit, [FILL_UP] + [GIVE_BACK], 0);
    assert ([FILL_UP] + [GIVE_BACK])[..2] == [FILL_UP] + [GIVE_BACK];
  }
}
