/** Stock conservation: what leaves the shelves is what the orders hold. */
module Stock {
  import opened MapSums
  import opened ShopTables

  /** The quantity of p over all lines; a request may name it more than once. */
  function LineSum(lines: seq<Line>, p: string): int {
    if lines == [] then 0
    else LineSum(lines[..|lines| - 1], p) + (if lines[|lines| - 1].productId == p then lines[|lines| - 1].quantity else 0)
  }

  function OrderHeld(o: Order, p: string): int {
    if o.status == Canceled then 0 else LineSum(LinesOf(o.items), p)
  }

  function HeldBy(orders: map<string, Order>, p: string): map<string, int> {
    map id | id in orders :: OrderHeld(orders[id], p)
  }

  /** The quantity of p in all orders that are not cancelled. */
  ghost function Held(orders: map<string, Order>, p: string): int {
    Sum(HeldBy(orders, p))
  }

  // ---------- Wrap-around ----------

  lemma {:induction false} WrapShift(n: int)
    ensures Wrap32(n + WRAP) == Wrap32(n)
    decreases if n < 0 then -n else n + 1
  {
    if n + WRAP < 0x8000_0000 {
      if n < -0x8000_0000 {
        assert Wrap32(n) == Wrap32(n + WRAP);
      }
    }
  }

  lemma {:induction false} WrapAdd(a: int, b: int)
    ensures Wrap32(Wrap32(a) + b) == Wrap32(a + b)
    decreases if a < 0 then -a else a + 1
  {
    if a >= 0x8000_0000 {
      WrapAdd(a - WRAP, b);
      WrapShift(a - WRAP + b);
    } else if a < -0x8000_0000 {
      WrapAdd(a + WRAP, b);
      WrapShift(a + b);
    }
  }

  /** Wrapping keeps the low 32 bits, read as a signed number. */
  lemma {:induction false} WrapIsModulo(n: int)
    ensures Wrap32(n) == (n + 0x8000_0000) % WRAP - 0x8000_0000
    decreases if n < 0 then -n else n + 1
  {
    if n >= 0x8000_0000 {
      WrapIsModulo(n - WRAP);
    } else if n < -0x8000_0000 {
      WrapIsModulo(n + WRAP);
    }
  }

  /** Equal up to multiples of 2^32, all that a wrapping int can keep. */
  predicate Congruent(a: int, b: int) {
    Wrap32(a) == Wrap32(b)
  }

  lemma CongruentAdd(a: int, b: int, c: int)
    requires Congruent(a, b)
    ensures Congruent(a + c, b + c)
  {
    WrapAdd(a, c);
    WrapAdd(b, c);
  }

  // ---------- One order's lines ----------

  lemma {:induction false} LineAt(items: seq<Item>, i: nat)
    requires i < |items|
    ensures LinesOf(items)[i] == items[i].line
    decreases |items|
  {
    if i < |items| - 1 {
      LineAt(items[..|items| - 1], i);
    }
  }

  lemma {:induction false} ShiftedAt(products: map<string, Product>, lines: seq<Line>, d: Direction, p: string)
    ensures Shifted(products, lines, d).Keys == products.Keys
    ensures p in products ==>
      Shifted(products, lines, d)[p] == products[p].(stock := Wrap32(products[p].stock + Signed(d, LineSum(lines, p))))
    decreases |lines|
  {
    if lines != [] {
      var front, last := lines[..|lines| - 1], lines[|lines| - 1];
      ShiftedAt(products, front, d, p);
      if p in products && last.productId == p {
        WrapAdd(products[p].stock + Signed(d, LineSum(front, p)), Signed(d, last.quantity));
      }
    }
  }

  lemma {:induction false} ItemsKeepLines(products: map<string, Product>, lines: seq<Line>)
    requires FirstBad(products, lines).None?
    ensures LinesOf(ItemsOf(products, lines)) == lines
    decreases |lines|
  {
    if lines != [] {
      var front, last := lines[..|lines| - 1], lines[|lines| - 1];
      ItemsKeepLines(products, front);
      var items := ItemsOf(products, lines);
      assert items[..|items| - 1] == ItemsOf(products, front);
      assert lines == front + [last];
    }
  }

  lemma HeldUpdate(orders: map<string, Order>, id: string, o: Order, p: string)
    ensures Held(orders[id := o], p) == Held(orders, p) - (if id in orders then OrderHeld(orders[id], p) else 0) + OrderHeld(o, p)
  {
    assert HeldBy(orders[id := o], p) == HeldBy(orders, p)[id := OrderHeld(o, p)];
    SumUpdate(HeldBy(orders, p), id, OrderHeld(o, p));
  }

  // ---------- The ledger ----------

  /** How much a seller's edit changes the stock of p. */
  function Edit(s: Shop, limit: int, r: Request, p: string): int {
    if r.EditProduct? && r.id == p && p in s.products && Perform(s, limit, r).Done? then r.stock - s.products[p].stock else 0
  }

  function Edits(s: Shop, limit: int, requests: seq<Request>, p: string): int {
    if requests == [] then 0
    else
      var front := requests[..|requests| - 1];
      Edits(s, limit, front, p) + Edit(AfterAll(s, limit, front), limit, requests[|requests| - 1], p)
  }

  ghost function Owned(s: Shop, p: string): int
    requires p in s.products
  {
    s.products[p].stock + Held(s.orders, p)
  }

  /** The orders hold n more of p, and the shelves have n less, up to wrap-around. */
  ghost predicate Moves(s: Shop, t: Shop, p: string, n: int) {
    && p in s.products && p in t.products
    && Congruent(t.products[p].stock, s.products[p].stock - n)
    && Held(t.orders, p) == Held(s.orders, p) + n
  }

  lemma MovesKeepOwned(s: Shop, t: Shop, p: string, n: int)
    requires Moves(s, t, p, n)
    ensures Congruent(Owned(t, p), Owned(s, p))
  {
    CongruentAdd(t.products[p].stock, s.products[p].stock - n, Held(t.orders, p));
  }

  // Replacing the order under id by one with these lines.
  lemma HeldReplaced(orders: map<string, Order>, id: string, o: Order, products: map<string, Product>, lines: seq<Line>, p: string)
    requires o.status != Canceled && o.items == ItemsOf(products, lines) && FirstBad(products, lines).None?
    ensures Held(orders[id := o], p) == Held(orders, p) - (if id in orders then OrderHeld(orders[id], p) else 0) + LineSum(lines, p)
  {
    ItemsKeepLines(products, lines);
    HeldUpdate(orders, id, o, p);
  }

  // The stock field before and after, as the wrapping int it is.
  lemma StockMoves(s: Shop, t: Shop, p: string, n: int)
    requires p in s.products && p in t.products
    requires t.products[p].stock == Wrap32(s.products[p].stock - n) && Held(t.orders, p) == Held(s.orders, p) + n
    ensures Moves(s, t, p, n)
  {
    WrapAdd(s.products[p].stock - n, 0);
  }

  // t takes the lines from these products and files an order for them in s.
  predicate TakesAndFiles(s: Shop, t: Shop, id: string, products: map<string, Product>, lines: seq<Line>) {
    && FirstBad(products, lines).None? && t.products == Shifted(products, lines, Take)
    && id in t.orders && t.orders == s.orders[id := t.orders[id]]
    && t.orders[id].status == Created && t.orders[id].items == ItemsOf(products, lines)
  }

  lemma CreateTakes(s: Shop, limit: int, r: Request)
    requires r.Create? && Accepts(s, limit, r)
    ensures TakesAndFiles(s, After(s, limit, r), r.id, s.products, r.lines) && r.id !in s.orders
  {
    CreateMeans(s, limit, r);
  }

  lemma UpdateTakes(s: Shop, limit: int, r: Request)
    requires r.Update? && Accepts(s, limit, r)
    ensures r.id in s.orders && s.orders[r.id].status == Created
    ensures TakesAndFiles(s, After(s, limit, r), r.id, Restored(s, r.id), r.lines)
  {
    UpdateMeans(s, limit, r);
  }

  lemma TakenAndFiled(s: Shop, t: Shop, id: string, products: map<string, Product>, lines: seq<Line>, p: string)
    requires p in products && TakesAndFiles(s, t, id, products, lines)
    ensures p in t.products && t.products[p].stock == Wrap32(products[p].stock - LineSum(lines, p))
    ensures Held(t.orders, p) == Held(s.orders, p) - (if id in s.orders then OrderHeld(s.orders[id], p) else 0) + LineSum(lines, p)
  {
    ShiftedAt(products, lines, Take, p);
    HeldReplaced(s.orders, id, t.orders[id], products, lines, p);
  }

  lemma RestoredAt(s: Shop, id: string, p: string)
    requires id in s.orders && s.orders[id].status != Canceled && p in s.products
    ensures p in Restored(s, id)
    ensures Restored(s, id)[p] == s.products[p].(stock := Wrap32(s.products[p].stock + OrderHeld(s.orders[id], p)))
  {
    ShiftedAt(s.products, LinesOf(s.orders[id].items), Give, p);
  }

  lemma CancelMoves(s: Shop, id: string, who: Principal, saved: int, p: string)
    requires id in s.orders && s.orders[id].status != Canceled && p in s.products
    ensures var t := CancelEffect(s, id, who, saved);
      && p in t.products && t.products[p].stock == Wrap32(s.products[p].stock + OrderHeld(s.orders[id], p))
      && Held(t.orders, p) == Held(s.orders, p) - OrderHeld(s.orders[id], p)
  {
    RestoredAt(s, id, p);
    HeldUpdate(s.orders, id, s.orders[id].(status := Canceled), p);
  }

  /** What an accepted order request adds to the quantity of p that orders hold. */
  function Taken(s: Shop, r: Request, p: string): int {
    match r
    case Create(_, lines, _, _, _, _) => LineSum(lines, p)
    case Update(id, lines, _, _, _, _) => LineSum(lines, p) - (if id in s.orders then OrderHeld(s.orders[id], p) else 0)
    case Cancel(id, _, _, _) => if id in s.orders then -OrderHeld(s.orders[id], p) else 0
    case _ => 0
  }

  lemma CreateBalances(s: Shop, t: Shop, id: string, lines: seq<Line>, p: string)
    requires TakesAndFiles(s, t, id, s.products, lines) && id !in s.orders && p in s.products
    ensures Balanced(s, t, p, 0, LineSum(lines, p))
  {
    TakenAndFiled(s, t, id, s.products, lines, p);
    Int32IsWrapped(s.products[p].stock);
  }

  lemma CreateMoves(s: Shop, t: Shop, id: string, lines: seq<Line>, p: string)
    requires TakesAndFiles(s, t, id, s.products, lines) && id !in s.orders && p in s.products
    ensures Moves(s, t, p, LineSum(lines, p))
  {
    CreateBalances(s, t, id, lines, p);
    StockMovesTwice(s, t, p, 0, LineSum(lines, p));
  }

  lemma CreateRequestMoves(s: Shop, limit: int, r: Request, p: string)
    requires r.Create? && p in s.products && Accepts(s, limit, r)
    ensures Moves(s, After(s, limit, r), p, Taken(s, r, p))
  {
    CreateTakes(s, limit, r);
    CreateMoves(s, After(s, limit, r), r.id, r.lines, p);
  }

  // The stock after giving back and taking, and what the orders then hold.
  ghost predicate Balanced(s: Shop, t: Shop, p: string, gave: int, took: int) {
    && p in s.products && p in t.products
    && t.products[p].stock == Wrap32(Wrap32(s.products[p].stock + gave) - took)
    && Held(t.orders, p) == Held(s.orders, p) - gave + took
  }

  lemma StockMovesTwice(s: Shop, t: Shop, p: string, gave: int, took: int)
    requires Balanced(s, t, p, gave, took)
    ensures Moves(s, t, p, took - gave)
  {
    WrapAdd(s.products[p].stock + gave, -took);
    StockMoves(s, t, p, took - gave);
  }

  lemma UpdateBalances(s: Shop, t: Shop, id: string, lines: seq<Line>, p: string)
    requires id in s.orders && s.orders[id].status == Created && p in s.products
    requires TakesAndFiles(s, t, id, Restored(s, id), lines)
    ensures Balanced(s, t, p, OrderHeld(s.orders[id], p), LineSum(lines, p))
  {
    RestoredAt(s, id, p);
    var restored := Restored(s, id);
    TakenAndFiled(s, t, id, restored, lines, p);
  }

  lemma ReplacedMoves(s: Shop, t: Shop, id: string, lines: seq<Line>, p: string)
    requires id in s.orders && s.orders[id].status == Created && p in s.products
    requires TakesAndFiles(s, t, id, Restored(s, id), lines)
    ensures Moves(s, t, p, LineSum(lines, p) - OrderHeld(s.orders[id], p))
  {
    UpdateBalances(s, t, id, lines, p);
    StockMovesTwice(s, t, p, OrderHeld(s.orders[id], p), LineSum(lines, p));
  }

  lemma UpdateMoves(s: Shop, limit: int, r: Request, p: string)
    requires r.Update? && p in s.products && Accepts(s, limit, r)
    ensures Moves(s, After(s, limit, r), p, Taken(s, r, p))
  {
    UpdateTakes(s, limit, r);
    ReplacedMoves(s, After(s, limit, r), r.id, r.lines, p);
  }

  lemma CancelRequestMoves(s: Shop, limit: int, r: Request, p: string)
    requires r.Cancel? && p in s.products && Accepts(s, limit, r)
    ensures Moves(s, After(s, limit, r), p, Taken(s, r, p))
  {
    CancelMeans(s, limit, r);
    CancelMoves(s, r.id, r.who, r.saved, p);
    StockMoves(s, After(s, limit, r), p, -OrderHeld(s.orders[r.id], p));
  }

  lemma OrderRequestMoves(s: Shop, limit: int, r: Request, p: string)
    requires !AboutProducts(r) && p in s.products && Accepts(s, limit, r)
    ensures Moves(s, After(s, limit, r), p, Taken(s, r, p))
  {
    if r.Create? {
      CreateRequestMoves(s, limit, r, p);
    } else if r.Update? {
      UpdateMoves(s, limit, r, p);
    } else {
      CancelRequestMoves(s, limit, r, p);
    }
  }

  lemma ProductRequestEdits(s: Shop, limit: int, r: Request, p: string)
    requires AboutProducts(r) && p in s.products
    ensures After(s, limit, r).orders == s.orders && p in After(s, limit, r).products
    ensures After(s, limit, r).products[p].stock == s.products[p].stock + Edit(s, limit, r, p)
  {
    ProductRequestMeans(s, limit, r);
  }

  lemma RequestKeepsLedger(s: Shop, limit: int, r: Request, p: string)
    requires p in s.products
    ensures p in After(s, limit, r).products
    ensures Congruent(Owned(After(s, limit, r), p), Owned(s, p) + Edit(s, limit, r, p))
  {
    if AboutProducts(r) {
      ProductRequestEdits(s, limit, r, p);
    } else if Accepts(s, limit, r) {
      OrderRequestMoves(s, limit, r, p);
      MovesKeepOwned(s, After(s, limit, r), p, Taken(s, r, p));
    }
  }

  /**
   * Over every run of requests, with any exception rolling its transaction back and lines repeating products:
   * stock plus what the orders hold is what it was, plus the sellers' net edits, up to wrap-around.
   */
  lemma {:induction false} StockConserved(s: Shop, limit: int, requests: seq<Request>, p: string)
    requires p in s.products
    ensures p in AfterAll(s, limit, requests).products
    ensures Congruent(Owned(AfterAll(s, limit, requests), p), Owned(s, p) + Edits(s, limit, requests, p))
    decreases |requests|
  {
    if requests != [] {
      var front, last := requests[..|requests| - 1], requests[|requests| - 1];
      var t := AfterAll(s, limit, front);
      StockConserved(s, limit, front, p);
      RequestKeepsLedger(t, limit, last, p);
      CongruentAdd(Owned(t, p), Owned(s, p) + Edits(s, limit, front, p), Edit(t, limit, last, p));
    }
  }

  lemma Int32IsWrapped(n: Int32)
    ensures Wrap32(n) == n
  {
  }

  // The same wrapped value means the same value exactly where it needs no wrapping.
  lemma WrapsExactly(n: int)
    ensures Wrap32(n) == n <==> -0x8000_0000 <= n < 0x8000_0000
  {
  }

  /** The stock is the exact balance wrapped, and the ledger balances exactly if and only if that fits a Java int. */
  predicate BalancesExactly(stock: Int32, held: int, total: int) {
    var exact := total - held;
    stock == Wrap32(exact) && (stock + held == total <==> -0x8000_0000 <= exact < 0x8000_0000)
  }

  lemma ExactFrom(stock: Int32, held: int, total: int)
    requires Congruent(stock + held, total)
    ensures BalancesExactly(stock, held, total)
  {
    CongruentAdd(stock + held, total, -held);
    Int32IsWrapped(stock);
    WrapsExactly(total - held);
  }

  ghost predicate ExactAt(t: Shop, p: string, total: int) {
    p in t.products && BalancesExactly(t.products[p].stock, Held(t.orders, p), total)
  }

  lemma ExactFromCongruent(t: Shop, p: string, total: int)
    requires p in t.products && Congruent(Owned(t, p), total)
    ensures ExactAt(t, p, total)
  {
    ExactFrom(t.products[p].stock, Held(t.orders, p), total);
  }

  /** Over every run, repeated products included, stock and held quantities balance exactly wherever an int can. */
  lemma StockExactly(s: Shop, limit: int, requests: seq<Request>, p: string)
    requires p in s.products
    ensures ExactAt(AfterAll(s, limit, requests), p, Owned(s, p) + Edits(s, limit, requests, p))
  {
    StockConserved(s, limit, requests, p);
    ExactFromCongruent(AfterAll(s, limit, requests), p, Owned(s, p) + Edits(s, limit, requests, p));
  }
}
