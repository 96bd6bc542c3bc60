/** What the shop answers to every request, in terms of the stored rows, and what an accepted request files. */
module OrderAnswers {
  import opened MapSums
  import opened Discount
  import opened ShopTables

  // ---------- The rate limit ----------

  /** Some earlier operation of the kind lies less than the limit back. */
  predicate TooSoon(operations: seq<Operation>, userId: string, kind: OperationKind, now: int, limit: int) {
    exists i :: 0 <= i < |operations| && operations[i].userId == userId && operations[i].kind == kind
                && now - operations[i].at < limit * 1_000_000
  }

  predicate IsOne(op: Operation, userId: string, kind: OperationKind) {
    op.userId == userId && op.kind == kind
  }

  /** The latest operation of the kind: one of them, and none is later. */
  lemma {:induction false} LastTimeExactly(operations: seq<Operation>, userId: string, kind: OperationKind)
    ensures LastTime(operations, userId, kind).Some? <==> exists i :: 0 <= i < |operations| && IsOne(operations[i], userId, kind)
    ensures var last := LastTime(operations, userId, kind); last.Some? ==>
      && (exists i :: 0 <= i < |operations| && IsOne(operations[i], userId, kind) && operations[i].at == last.value)
      && (forall i :: 0 <= i < |operations| && IsOne(operations[i], userId, kind) ==> operations[i].at <= last.value)
    decreases |operations|
  {
    if operations != [] {
      var front, last := operations[..|operations| - 1], operations[|operations| - 1];
      LastTimeExactly(front, userId, kind);
      var before := LastTime(front, userId, kind);
      if before.Some? {
        var i :| 0 <= i < |front| && IsOne(front[i], userId, kind) && front[i].at == before.value;
        assert operations[i] == front[i];
      }
      if IsOne(last, userId, kind) {
        assert IsOne(operations[|operations| - 1], userId, kind);
      }
      forall i | 0 <= i < |operations| && IsOne(operations[i], userId, kind)
        ensures LastTime(operations, userId, kind).Some? && operations[i].at <= LastTime(operations, userId, kind).value
      {
        assert i < |front| ==> operations[i] == front[i];
      }
    }
  }

  lemma WholeSeconds(elapsed: int, limit: int)
    ensures elapsed / 1_000_000 < limit <==> elapsed < limit * 1_000_000
  {
  }

  /** A request is limited if and only if some earlier operation of its kind lies less than the limit back. */
  lemma LimitedExactly(operations: seq<Operation>, userId: string, kind: OperationKind, now: int, limit: int)
    ensures IsLimited(operations, userId, kind, now, limit) <==> TooSoon(operations, userId, kind, now, limit)
  {
    LastTimeExactly(operations, userId, kind);
    var last := LastTime(operations, userId, kind);
    if last.Some? {
      WholeSeconds(now - last.value, limit);
      var i :| 0 <= i < |operations| && IsOne(operations[i], userId, kind) && operations[i].at == last.value;
    }
    if i :| 0 <= i < |operations| && operations[i].userId == userId && operations[i].kind == kind
            && now - operations[i].at < limit * 1_000_000 {
      assert IsOne(operations[i], userId, kind);
    }
  }

  predicate Busy(orders: map<string, Order>, userId: string) {
    exists id :: id in orders && orders[id].userId == userId && (orders[id].status == Created || orders[id].status == PaymentPending)
  }

  // ---------- Lines ----------

  predicate Sellable(products: map<string, Product>, l: Line) {
    l.productId in products && products[l.productId].status == Active
  }

  predicate AllSellable(products: map<string, Product>, lines: seq<Line>) {
    forall i :: 0 <= i < |lines| ==> Sellable(products, lines[i])
  }

  predicate InStock(products: map<string, Product>, lines: seq<Line>) {
    forall i :: 0 <= i < |lines| && lines[i].productId in products ==> lines[i].quantity <= products[lines[i].productId].stock
  }

  lemma {:induction false} BadExactly(products: map<string, Product>, lines: seq<Line>)
    ensures FirstBad(products, lines).None? <==> AllSellable(products, lines)
    decreases |lines|
  {
    if lines != [] {
      var front := lines[..|lines| - 1];
      BadExactly(products, front);
      assert AllSellable(products, lines) <==> AllSellable(products, front) && Sellable(products, lines[|front|]) by {
        assert forall i :: 0 <= i < |front| ==> front[i] == lines[i];
      }
    }
  }

  /** The first line that cannot be sold decides the error: its product is unknown, or not active. */
  lemma {:induction false} FirstBadDecides(products: map<string, Product>, lines: seq<Line>, i: nat)
    requires i < |lines| && AllSellable(products, lines[..i]) && !Sellable(products, lines[i])
    ensures var p := lines[i].productId;
      FirstBad(products, lines) == Some(if p in products then ProductNotActive(p) else ProductNotFound(p))
    decreases |lines|
  {
    var front := lines[..|lines| - 1];
    if i < |front| {
      assert front[..i] == lines[..i];
      FirstBadDecides(products, front, i);
    } else {
      assert front == lines[..i];
      BadExactly(products, front);
    }
  }

  // at picks the lines asking for more than the stock, all of them, from first to last.
  predicate PicksShort(products: map<string, Product>, lines: seq<Line>, at: seq<nat>) {
    && (forall j :: 0 <= j < |at| ==> at[j] < |lines|)
    && (forall j, k :: 0 <= j < k < |at| ==> at[j] < at[k])
    && (forall i :: 0 <= i < |lines| ==> (i in at <==> lines[i].productId in products && lines[i].quantity > products[lines[i].productId].stock))
  }

  lemma PicksShortMore(products: map<string, Product>, lines: seq<Line>, before: seq<nat>, at: seq<nat>)
    requires lines != [] && PicksShort(products, lines[..|lines| - 1], before)
    requires var l := lines[|lines| - 1];
      at == if l.productId in products && l.quantity > products[l.productId].stock then before + [|lines| - 1] else before
    ensures PicksShort(products, lines, at)
  {
    var front := lines[..|lines| - 1];
    forall i | 0 <= i < |lines|
      ensures i in at <==> lines[i].productId in products && lines[i].quantity > products[lines[i].productId].stock
    {
      if i < |front| {
        assert front[i] == lines[i];
        assert i in at <==> i in before;
      } else {
        assert i !in before;
      }
    }
  }

  predicate Reports(products: map<string, Product>, lines: seq<Line>, at: seq<nat>, shortfalls: seq<Shortfall>) {
    && |shortfalls| == |at|
    && forall j :: 0 <= j < |at| ==>
         && at[j] < |lines| && lines[at[j]].productId in products
         && shortfalls[j].productId == lines[at[j]].productId && shortfalls[j].requested == lines[at[j]].quantity
         && shortfalls[j].available == products[lines[at[j]].productId].stock
  }

  lemma ReportsMore(products: map<string, Product>, lines: seq<Line>, before: seq<nat>, shortfalls: seq<Shortfall>)
    requires lines != [] && Reports(products, lines[..|lines| - 1], before, shortfalls)
    ensures Reports(products, lines, before, shortfalls)
    ensures var l := lines[|lines| - 1]; l.productId in products ==>
      Reports(products, lines, before + [|lines| - 1], shortfalls + [Shortfall(l.productId, l.quantity, products[l.productId].stock)])
  {
    var front := lines[..|lines| - 1];
    forall j | 0 <= j < |before| ensures lines[before[j]] == front[before[j]] {}
  }

  lemma ReportedMore(products: map<string, Product>, lines: seq<Line>, before: seq<nat>)
    requires lines != [] && Reports(products, lines[..|lines| - 1], before, Shortfalls(products, lines[..|lines| - 1]))
    ensures var l := lines[|lines| - 1];
      var at := if l.productId in products && l.quantity > products[l.productId].stock then before + [|lines| - 1] else before;
      Reports(products, lines, at, Shortfalls(products, lines))
  {
    var l, earlier := lines[|lines| - 1], Shortfalls(products, lines[..|lines| - 1]);
    ReportsMore(products, lines, before, earlier);
    if l.productId in products && l.quantity > products[l.productId].stock {
      assert Shortfalls(products, lines) == earlier + [Shortfall(l.productId, l.quantity, products[l.productId].stock)];
    } else {
      assert Shortfalls(products, lines) == earlier;
    }
  }

  /** The shortfalls reported are those of exactly the lines that ask for more than the stock, in order. */
  lemma {:induction false} ShortfallsInOrder(products: map<string, Product>, lines: seq<Line>) returns (at: seq<nat>)
    ensures PicksShort(products, lines, at) && Reports(products, lines, at, Shortfalls(products, lines))
    decreases |lines|
  {
    if lines == [] {
      at := [];
    } else {
      var front, l := lines[..|lines| - 1], lines[|lines| - 1];
      var before := ShortfallsInOrder(products, front);
      at := if l.productId in products && l.quantity > products[l.productId].stock then before + [|front|] else before;
      PicksShortMore(products, lines, before, at);
      ReportedMore(products, lines, before);
    }
  }

  lemma NoneShort(products: map<string, Product>, lines: seq<Line>)
    ensures Shortfalls(products, lines) == [] <==> InStock(products, lines)
  {
    var at := ShortfallsInOrder(products, lines);
    if at == [] {
      forall i | 0 <= i < |lines| && lines[i].productId in products
        ensures lines[i].quantity <= products[lines[i].productId].stock
      {
        assert i !in at;
      }
    } else {
      assert at[0] in at;
    }
  }

  /** The lines are refused if and only if some line cannot be sold, or asks for more than the stock. */
  lemma LinesAnswers(products: map<string, Product>, lines: seq<Line>)
    ensures var fault := LinesFault(products, lines);
      && (fault.None? <==> AllSellable(products, lines) && InStock(products, lines))
      && (fault.Some? && fault.value.InsufficientStock? <==> AllSellable(products, lines) && !InStock(products, lines))
      && (fault.Some? && (fault.value.ProductNotFound? || fault.value.ProductNotActive?) <==> !AllSellable(products, lines))
  {
    BadExactly(products, lines);
    BadIsBad(products, lines);
    NoneShort(products, lines);
  }

  lemma {:induction false} BadIsBad(products: map<string, Product>, lines: seq<Line>)
    ensures var bad := FirstBad(products, lines); bad.Some? ==> bad.value.ProductNotFound? || bad.value.ProductNotActive?
    decreases |lines|
  {
    if lines != [] {
      BadIsBad(products, lines[..|lines| - 1]);
    }
  }

  // ---------- Prices ----------

  /** What the lines cost at the products' prices. */
  function Cost(products: map<string, Product>, lines: seq<Line>): int {
    if lines == [] then 0
    else
      var l := lines[|lines| - 1];
      Cost(products, lines[..|lines| - 1]) + (if l.productId in products then products[l.productId].price * l.quantity else 0)
  }

  /** One item per line, in order, each with its product's name and price. */
  predicate Snapshots(products: map<string, Product>, lines: seq<Line>, items: seq<Item>) {
    && |items| == |lines|
    && forall i :: 0 <= i < |lines| ==>
         && lines[i].productId in products && items[i].line == lines[i]
         && items[i].productName == products[lines[i].productId].name
         && items[i].priceAtOrder == products[lines[i].productId].price
  }

  lemma SellableFront(products: map<string, Product>, lines: seq<Line>)
    requires lines != [] && AllSellable(products, lines)
    ensures AllSellable(products, lines[..|lines| - 1]) && Sellable(products, lines[|lines| - 1])
  {
    var front := lines[..|lines| - 1];
    forall i | 0 <= i < |front| ensures Sellable(products, front[i]) {
      assert front[i] == lines[i];
    }
  }

  lemma SnapshotsMore(products: map<string, Product>, lines: seq<Line>, items: seq<Item>)
    requires lines != [] && Snapshots(products, lines[..|lines| - 1], items) && lines[|lines| - 1].productId in products
    ensures var l := lines[|lines| - 1];
      Snapshots(products, lines, items + [Item(l, products[l.productId].name, products[l.productId].price)])
  {
    var front := lines[..|lines| - 1];
    assert forall i :: 0 <= i < |front| ==> front[i] == lines[i];
  }

  lemma {:induction false} ItemsAreSnapshots(products: map<string, Product>, lines: seq<Line>)
    requires AllSellable(products, lines)
    ensures Snapshots(products, lines, ItemsOf(products, lines))
    decreases |lines|
  {
    if lines != [] {
      SellableFront(products, lines);
      ItemsAreSnapshots(products, lines[..|lines| - 1]);
      SnapshotsMore(products, lines, ItemsOf(products, lines[..|lines| - 1]));
    }
  }

  lemma {:induction false} SnapshotsCost(products: map<string, Product>, lines: seq<Line>, items: seq<Item>)
    requires Snapshots(products, lines, items)
    ensures Total(items) == Cost(products, lines)
    decreases |lines|
  {
    if lines != [] {
      var front, before := lines[..|lines| - 1], items[..|items| - 1];
      assert forall i :: 0 <= i < |front| ==> front[i] == lines[i] && before[i] == items[i];
      SnapshotsCost(products, front, before);
    }
  }

  // ---------- Promo codes ----------

  /** The request brings a code: some text that is not all blanks. */
  predicate BringsCode(code: Option<string>) {
    code.Some? && exists i :: 0 <= i < |code.value| && code.value[i] != ' ' && code.value[i] != '\t' && code.value[i] != '\n' && code.value[i] != '\r'
  }

  /** The promo can be used now: active, not used up, and not expired. */
  predicate Usable(promos: map<string, Promo>, code: string, now: int) {
    && code in promos && promos[code].active
    && (promos[code].maxUses.Some? ==> promos[code].currentUses < promos[code].maxUses.value)
    && (promos[code].expiresAt.Some? ==> now <= promos[code].expiresAt.value)
  }

  predicate MeetsMinimum(promo: Promo, total: int) {
    promo.minAmount.Some? ==> promo.minAmount.value <= total
  }

  // The promos with one more, or one less, use of the code.
  predicate UsesMoved(promos: map<string, Promo>, promos': map<string, Promo>, code: string, change: int) {
    && code in promos && promos'.Keys == promos.Keys
    && (forall c :: c in promos && c != code ==> promos'[c] == promos[c])
    && var p, p' := promos[code], promos'[code];
       && p'.currentUses == p.currentUses + change
       && p'.percent == p.percent && p'.active == p.active && p'.maxUses == p.maxUses && p'.minAmount == p.minAmount && p'.expiresAt == p.expiresAt
  }

  /** A code is taken if and only if its promo is usable and the total meets its minimum; then it has one more use. */
  lemma PromoAnswers(promos: map<string, Promo>, code: string, total: int, now: int)
    ensures var out := ApplyPromo(promos, code, total, now); var usable := Usable(promos, code, now);
      && (out == Rejected(PromoInvalid) <==> !usable)
      && (out == Rejected(PromoBelowMinimum) <==> usable && !MeetsMinimum(promos[code], total))
      && (out.Priced? <==> usable && MeetsMinimum(promos[code], total))
      && (out.Priced? ==>
            && UsesMoved(promos, out.promos, code, 1) && out.promoCode == Some(code)
            && out.discountedPrice == total - Calculate(promos[code].percent, total))
  {
  }

  lemma BlankExactly(code: string)
    ensures IsBlank(code) <==> !BringsCode(Some(code))
  {
    if !IsBlank(code) {
      var i :| 0 <= i < |code| && code[i] !in " \t\n\r";
      assert " \t\n\r"[0] == ' ' && " \t\n\r"[1] == '\t' && " \t\n\r"[2] == '\n' && " \t\n\r"[3] == '\r';
    }
  }

  /** Pricing a total that carries no code yet. */
  lemma NewPriceAnswers(promos: map<string, Promo>, code: Option<string>, total: int, now: int)
    ensures var out := PriceNew(promos, code, total, now);
      if BringsCode(code) then out == ApplyPromo(promos, code.value, total, now) else out == Priced(promos, None, total)
  {
    if code.Some? {
      BlankExactly(code.value);
    }
  }

  /**
   * Repricing an order: without a code it is priced like a new one; a code whose promo is gone stays and discounts
   * nothing; one whose minimum the total misses is dropped and its use given back; any other stays and discounts.
   */
  lemma RepriceAnswers(promos: map<string, Promo>, carried: Option<string>, code: Option<string>, total: int, now: int)
    ensures var out := Reprice(promos, carried, code, total, now);
      && (carried.None? ==> out == PriceNew(promos, code, total, now))
      && (carried.Some? && carried.value !in promos ==> out == Priced(promos, carried, total))
      && (carried.Some? && carried.value in promos && !MeetsMinimum(promos[carried.value], total) ==>
            out.Priced? && UsesMoved(promos, out.promos, carried.value, -1) && out.promoCode == None && out.discountedPrice == total)
      && (carried.Some? && carried.value in promos && MeetsMinimum(promos[carried.value], total) ==>
            out == Priced(promos, carried, total - Calculate(promos[carried.value].percent, total)))
  {
  }
}
