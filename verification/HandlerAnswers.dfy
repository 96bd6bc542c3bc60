/** What each handler answers, for every event and all tables, in terms of the event's fields and the stored rows. */
module HandlerAnswers {
  import opened MapSums
  import opened Warehouse
  import opened Handlers
  import opened Effects
  import opened Ledger

  // ---------- A stored row ----------

  /** There is no row at k, or only a strictly older one. */
  predicate Older(zones: Zones, k: Key, ts: int) {
    k in zones ==> zones[k].ts < ts
  }

  function AvailableAt(zones: Zones, k: Key): int {
    if k in zones then zones[k].available else 0
  }

  function ReservedAt(zones: Zones, k: Key): int {
    if k in zones then zones[k].reserved else 0
  }

  // ---------- Product events ----------

  function Quantity(ev: Event): int
    requires IsProductEvent(ev)
  {
    if ev.InventoryCounted? then ev.counted else ev.quantity
  }

  predicate TwoZones(ev: Event) {
    ev.ProductMoved? ==> ev.fromZone != ev.toZone
  }

  predicate AllOlder(zones: Zones, ev: Event)
    requires IsProductEvent(ev)
  {
    if ev.ProductMoved?
    then Older(zones, Key(ev.product, ev.fromZone), ev.ts) && Older(zones, Key(ev.product, ev.toZone), ev.ts)
    else Older(zones, Key(ev.product, ev.zone), ev.ts)
  }

  /** What the event takes is there: shipped, reserved and moved pieces are available, released ones reserved. */
  predicate Enough(zones: Zones, ev: Event)
    requires IsProductEvent(ev)
  {
    match ev
    case ProductShipped(_, _, p, z, q) => q <= AvailableAt(zones, Key(p, z))
    case ProductReserved(_, _, p, z, q) => q <= AvailableAt(zones, Key(p, z))
    case ProductMoved(_, _, p, source, _, q) => q <= AvailableAt(zones, Key(p, source))
    case ProductReleased(_, _, p, z, q) => q <= ReservedAt(zones, Key(p, z))
    case _ => true
  }

  /** Each answer to a product event, if and only if its own check is the first to fail, or none does. */
  lemma ProductAnswers(t: Tables, ev: Event)
    requires IsProductEvent(ev)
    ensures var out, asked := Handle(t, ev), Quantity(ev) >= 0;
      && (out == Reject(NegativeQuantity) <==> !asked)
      && (out == Reject(SameZone) <==> asked && !TwoZones(ev))
      && (out == Skip <==> asked && TwoZones(ev) && !AllOlder(t.zones, ev))
      && (out == Reject(Insufficient) <==> asked && TwoZones(ev) && AllOlder(t.zones, ev) && !Enough(t.zones, ev))
      && (out.Apply? <==> asked && TwoZones(ev) && AllOlder(t.zones, ev) && Enough(t.zones, ev))
  {
  }

  // ---------- Order events ----------

  predicate LineFits(zones: Zones, l: Line, ts: int) {
    var k := Key(l.product, l.zone);
    l.quantity >= 0 && Older(zones, k, ts) && l.quantity <= AvailableAt(zones, k)
  }

  // Line i is the first that does not fit.
  predicate FirstMisfit(zones: Zones, items: seq<Line>, ts: int, i: nat) {
    i < |items| && !LineFits(zones, items[i], ts) && forall j :: 0 <= j < i ==> LineFits(zones, items[j], ts)
  }

  lemma {:induction false} MisfitIsFault(zones: Zones, items: seq<Line>, ts: int, i: nat)
    requires FirstMisfit(zones, items, ts, i)
    ensures CreateFault(zones, items, ts) ==
      if items[i].quantity < 0 then Some(Reject(NegativeQuantity))
      else if !Older(zones, Key(items[i].product, items[i].zone), ts) then Some(Skip)
      else Some(Reject(Insufficient))
    decreases |items|
  {
    var front := items[..|items| - 1];
    if i < |front| {
      MisfitIsFault(zones, front, ts, i);
    } else {
      CreateFaultFree(zones, front, ts);
    }
  }

  /** A new order is accepted if and only if it has lines and each of them fits by itself. */
  lemma CreationAccepted(t: Tables, ev: Event)
    requires ev.OrderCreated?
    ensures Accepts(t, ev) <==> ev.items != [] && forall i :: 0 <= i < |ev.items| ==> LineFits(t.zones, ev.items[i], ev.ts)
    ensures Handle(t, ev) == Reject(NoItems) <==> ev.items == []
  {
    CreateFaultFree(t.zones, ev.items, ev.ts);
    NoItemsIsNoFault(t.zones, ev.items, ev.ts);
  }

  lemma {:induction false} NoItemsIsNoFault(zones: Zones, items: seq<Line>, ts: int)
    ensures CreateFault(zones, items, ts) != Some(Reject(NoItems))
    decreases |items|
  {
    if items != [] {
      NoItemsIsNoFault(zones, items[..|items| - 1], ts);
    }
  }

  /** Otherwise the first line that does not fit decides: negative, too old, or more than is available. */
  lemma CreationRefused(t: Tables, ev: Event, i: nat)
    requires ev.OrderCreated? && FirstMisfit(t.zones, ev.items, ev.ts, i)
    ensures var l := ev.items[i]; var k := Key(l.product, l.zone);
      && (Handle(t, ev) == Reject(NegativeQuantity) <==> l.quantity < 0)
      && (Handle(t, ev) == Skip <==> l.quantity >= 0 && !Older(t.zones, k, ev.ts))
      && (Handle(t, ev) == Reject(Insufficient) <==>
            l.quantity >= 0 && Older(t.zones, k, ev.ts) && l.quantity > AvailableAt(t.zones, k))
  {
    MisfitIsFault(t.zones, ev.items, ev.ts, i);
  }

  // The lines before line i have taken their share of the key's reserved pieces.
  predicate LineShips(zones: Zones, items: seq<Line>, i: nat, ts: int)
    requires i < |items|
  {
    var k := Key(items[i].product, items[i].zone);
    Older(zones, k, ts) && LineSum(items[..i], k) + items[i].quantity <= ReservedAt(zones, k)
  }

  predicate AllShip(zones: Zones, items: seq<Line>, n: nat, ts: int)
    requires n <= |items|
  {
    forall i :: 0 <= i < n ==> LineShips(zones, items, i, ts)
  }

  lemma {:induction false} ShipsIsNoFault(zones: Zones, items: seq<Line>, n: nat, ts: int)
    requires n <= |items|
    ensures CompleteFault(zones, items[..n], ts) == None <==> AllShip(zones, items, n, ts)
    decreases n
  {
    if n > 0 {
      ShipsIsNoFault(zones, items, n - 1, ts);
      assert items[..n][..n - 1] == items[..n - 1] && items[..n][n - 1] == items[n - 1];
      assert AllShip(zones, items, n, ts) <==> AllShip(zones, items, n - 1, ts) && LineShips(zones, items, n - 1, ts);
    }
  }

  /** The answers to a completion that do not look at its lines, and when it is accepted. */
  lemma CompletionAnswers(t: Tables, ev: Event)
    requires ev.OrderCompleted?
    ensures Handle(t, ev) == Reject(OrderNotFound) <==> ev.orderId !in t.orders
    ensures ev.orderId in t.orders ==>
      var o := t.orders[ev.orderId];
      && (o.status == Completed ==> Handle(t, ev) == Apply([HistoryOf(ev)]))
      && (Accepts(t, ev) <==> o.status == Completed || AllShip(t.zones, o.items, |o.items|, ev.ts))
  {
    if ev.orderId in t.orders {
      var items := t.orders[ev.orderId].items;
      ShipsIsNoFault(t.zones, items, |items|, ev.ts);
      assert items[..|items|] == items;
      FoundIsNoFault(t.zones, items, ev.ts);
    }
  }

  lemma {:induction false} FoundIsNoFault(zones: Zones, items: seq<Line>, ts: int)
    ensures CompleteFault(zones, items, ts) != Some(Reject(OrderNotFound))
    decreases |items|
  {
    if items != [] {
      FoundIsNoFault(zones, items[..|items| - 1], ts);
    }
  }

  /** Otherwise the first line that cannot ship decides: too old, or more than its key still has reserved. */
  lemma CompletionRefused(t: Tables, ev: Event, i: nat)
    requires ev.OrderCompleted? && ev.orderId in t.orders && t.orders[ev.orderId].status == Created
    requires var items := t.orders[ev.orderId].items;
      i < |items| && !LineShips(t.zones, items, i, ev.ts) && AllShip(t.zones, items, i, ev.ts)
    ensures var items := t.orders[ev.orderId].items; var k := Key(items[i].product, items[i].zone);
      && (Handle(t, ev) == Skip <==> !Older(t.zones, k, ev.ts))
      && (Handle(t, ev) == Reject(Insufficient) <==> Older(t.zones, k, ev.ts))
  {
    var items := t.orders[ev.orderId].items;
    ShipsIsNoFault(t.zones, items, i, ev.ts);
    assert items[..i + 1][..i] == items[..i] && items[..i + 1][i] == items[i];
    CompleteFaultPersists(t.zones, items, i + 1, ev.ts);
  }

  // ---------- What is written ----------

  /** The day of a timestamp. */
  predicate OnDay(ts: int, day: int) {
    day * 86_400_000 <= ts < (day + 1) * 86_400_000
  }

  predicate HistoryFields(ev: Event, row: HistoryRow) {
    && row.payload == ev
    && (IsProductEvent(ev) ==>
          && row.product == Some(ev.product) && row.quantity == Quantity(ev)
          && row.zone == Some(if ev.ProductMoved? then ev.fromZone else ev.zone))
    && (!IsProductEvent(ev) ==> row.product == None && row.zone == None && row.quantity == 0)
  }

  lemma DayOf(ts: int, day: int)
    requires OnDay(ts, day)
    ensures ts / 86_400_000 == day
  {
  }

  /** Every accepted event is filed in the history under its day, time and id, and nothing else there changes. */
  lemma HistoryIsFiled(t: Tables, ev: Event, day: int)
    requires Accepts(t, ev) && OnDay(ev.ts, day)
    ensures var h, h' := t.history, Step(t, ev).history; var at := HistoryKey(day, ev.ts, ev.id);
      at in h' && HistoryFields(ev, h'[at]) && h' == h[at := h'[at]]
  {
    DayOf(ev.ts, day);
    HistoryColumn(t, ev);
  }

  lemma {:induction false} ZoneWritesKeepHistory(t: Tables, zones: Zones, items: seq<Line>, dir: Direction, ev: Event, keys: seq<Key>)
    ensures PutOrderRows(t, zones, items, dir, ev, keys).history == t.history
    decreases |keys|
  {
    if keys != [] {
      ZoneWritesKeepHistory(t, zones, items, dir, ev, keys[..|keys| - 1]);
    }
  }

  lemma OrderHistory(t: Tables, ev: Event)
    requires Accepts(t, ev) && (ev.OrderCreated? || Fulfils(t, ev))
    ensures Step(t, ev).history == ApplyWrite(t, HistoryOf(ev)).history
  {
    var items, dir, row := OrderOps(t, ev);
    OrderApply(t, ev, items, dir, row, HistoryOf(ev));
    ZoneWritesKeepHistory(t, t.zones, items, dir, ev, DistinctKeys(items));
  }

  lemma ProductHistory(t: Tables, ev: Event)
    requires IsProductEvent(ev) && Accepts(t, ev)
    ensures Step(t, ev).history == ApplyWrite(t, HistoryOf(ev)).history
  {
    var tail := ProductOps(t, ev);
    if ev.ProductMoved? {
      var k1, k2 := Key(ev.product, ev.fromZone), Key(ev.product, ev.toZone);
      TwoRowsApply(t, k1, NewRow(t, ev, k1), k2, NewRow(t, ev, k2), tail);
    } else {
      var k := Key(ev.product, ev.zone);
      OneRowApply(t, k, NewRow(t, ev, k), tail);
    }
  }

  lemma HistoryColumn(t: Tables, ev: Event)
    requires Accepts(t, ev)
    ensures Step(t, ev).history == ApplyWrite(t, HistoryOf(ev)).history
  {
    if IsProductEvent(ev) {
      ProductHistory(t, ev);
    } else if ev.OrderCreated? || Fulfils(t, ev) {
      OrderHistory(t, ev);
    } else {
      ApplyOne(t, HistoryOf(ev));
    }
  }

  /** The two copies of the inventory, field by field. */
  lemma CopiesAgree(evs: seq<Event>, product: string, zone: string)
    ensures var t := Run(EMPTY, evs); var k, i := Key(product, zone), IndexKey(zone, product);
      && (k in t.zones <==> k in t.byProduct) && (k in t.zones <==> i in t.byZone)
      && (k in t.zones ==>
            && t.byProduct[k].available == t.zones[k].available && t.byZone[i].available == t.zones[k].available
            && t.byProduct[k].reserved == t.zones[k].reserved && t.byZone[i].reserved == t.zones[k].reserved
            && t.byProduct[k].ts == t.zones[k].ts && t.byZone[i].ts == t.zones[k].ts)
  {
    ViewsAgree(evs);
    assert InSync(Run(EMPTY, evs), Key(product, zone));
  }
}
