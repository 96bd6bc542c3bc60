/** What an accepted event does to the tables, stated on whole tables rather than on write lists. */
module Effects {
  import opened MapSums
  import opened Warehouse
  import opened Handlers

  predicate Accepts(t: Tables, ev: Event) {
    Handle(t, ev).Apply?
  }

  /** The tables after ev: handled against t, and its batch applied in full. */
  function Step(t: Tables, ev: Event): Tables {
    if Accepts(t, ev) then ApplyAll(t, Handle(t, ev).ops) else t
  }

  /** The tables after a whole delivery sequence. */
  function Run(t: Tables, evs: seq<Event>): Tables {
    if evs == [] then t else Step(Run(t, evs[..|evs| - 1]), evs[|evs| - 1])
  }

  /** Every event of evs is accepted when its turn comes. */
  ghost predicate Clean(t: Tables, evs: seq<Event>) {
    evs == [] ||
    (Clean(t, evs[..|evs| - 1]) && Accepts(Run(t, evs[..|evs| - 1]), evs[|evs| - 1]))
  }

  lemma RunSnoc(t: Tables, evs: seq<Event>, ev: Event)
    ensures Run(t, evs + [ev]) == Step(Run(t, evs), ev)
    ensures Clean(t, evs + [ev]) <==> Clean(t, evs) && Accepts(Run(t, evs), ev)
  {
    assert (evs + [ev])[..|evs|] == evs;
  }

  // A completion that ships an open order; completing a completed order only writes history.
  predicate Fulfils(t: Tables, ev: Event) {
    ev.OrderCompleted? && ev.orderId in t.orders && t.orders[ev.orderId].status == Created
  }

  function LineKeys(items: seq<Line>): set<Key> {
    set k | k in DistinctKeys(items)
  }

  function ProductKeys(ev: Event): set<Key>
    requires IsProductEvent(ev)
  {
    if ev.ProductMoved?
    then {Key(ev.product, ev.fromZone), Key(ev.product, ev.toZone)}
    else {Key(ev.product, ev.zone)}
  }

  /** The inventory rows an accepted event writes. */
  function Touched(t: Tables, ev: Event): set<Key> {
    if ev.OrderCreated? then LineKeys(ev.items)
    else if ev.OrderCompleted? then (if Fulfils(t, ev) then LineKeys(t.orders[ev.orderId].items) else {})
    else ProductKeys(ev)
  }

  function AvailableChange(zones: Zones, ev: Event, k: Key): int {
    match ev
    case ProductReceived(_, _, _, _, q, _) => q
    case ProductShipped(_, _, _, _, q) => -q
    case ProductMoved(_, _, _, source, _, q) => if k.zone == source then -q else q
    case ProductReserved(_, _, _, _, q) => -q
    case ProductReleased(_, _, _, _, q) => q
    case InventoryCounted(_, _, _, _, counted) => counted - ReadZone(zones, k).available
    case _ => 0
  }

  function ReservedChange(t: Tables, ev: Event, k: Key): int {
    match ev
    case ProductReserved(_, _, _, _, q) => q
    case ProductReleased(_, _, _, _, q) => -q
    case OrderCreated(_, _, _, items) => LineSum(items, k)
    case OrderCompleted(_, _, id) => if Fulfils(t, ev) then -LineSum(t.orders[id].items, k) else 0
    case _ => 0
  }

  function NewRow(t: Tables, ev: Event, k: Key): ZoneRow {
    var s := ReadZone(t.zones, k);
    ZoneRow(s.available + AvailableChange(t.zones, ev, k), s.reserved + ReservedChange(t, ev, k), ev.id, ev.ts,
            if ev.ProductReceived? && ev.supplier.Some? then ev.supplier else s.supplier)
  }

  function NewRows(t: Tables, ev: Event): Zones {
    map k | k in Touched(t, ev) :: NewRow(t, ev, k)
  }

  function NewOrders(t: Tables, ev: Event): map<string, Order> {
    if ev.OrderCreated? then t.orders[ev.orderId := Order(Created, ev.items, Some(ev.ts), ev.ts)]
    else if Fulfils(t, ev) then
      t.orders[ev.orderId := t.orders[ev.orderId].(status := Completed, updatedAt := ev.ts)]
    else t.orders
  }

  // ---------- Write lists put rows into all three inventory tables at once ----------

  function PutRow(t: Tables, k: Key, row: ZoneRow): Tables {
    t.(zones := t.zones[k := row],
       byProduct := t.byProduct[k := StockOf(row)],
       byZone := t.byZone[IndexKey(k.zone, k.product) := StockOf(row)])
  }

  lemma PutRowAgrees(t: Tables, k: Key, row: ZoneRow)
    requires Agree(t)
    ensures Agree(PutRow(t, k, row))
  {
    forall x ensures InSync(PutRow(t, k, row), x) {
      assert InSync(t, x);
    }
  }

  lemma ApplyOne(t: Tables, w: Write)
    ensures ApplyAll(t, [w]) == ApplyWrite(t, w)
  {
    assert [w][1..] == [];
  }

  lemma ApplyTwo(t: Tables, a: Write, b: Write)
    ensures ApplyAll(t, [a, b]) == ApplyWrite(ApplyWrite(t, a), b)
  {
    assert [a, b][1..] == [b];
    ApplyOne(ApplyWrite(t, a), b);
  }

  lemma ZoneWritesPut(t: Tables, k: Key, row: ZoneRow)
    ensures ApplyAll(t, ZoneWrites(k, row)) == PutRow(t, k, row)
  {
    var ws := ZoneWrites(k, row);
    assert ws[1..] == [ws[1], ws[2]];
    ApplyTwo(ApplyWrite(t, ws[0]), ws[1], ws[2]);
  }

  // Order and history rows are no part of the inventory tables.
  predicate OffInventory(w: Write) {
    w.InsertHistory? || w.UpsertOrder? || w.UpdateOrderStatus?
  }

  lemma OffInventoryAgrees(t: Tables, w: Write)
    requires Agree(t) && OffInventory(w)
    ensures Agree(ApplyWrite(t, w))
  {
    forall k ensures InSync(ApplyWrite(t, w), k) {
      assert InSync(t, k);
    }
  }

  lemma OneRowApply(t: Tables, k: Key, row: ZoneRow, tail: Write)
    requires OffInventory(tail)
    ensures ApplyAll(t, ZoneWrites(k, row) + [tail]) == ApplyWrite(PutRow(t, k, row), tail)
    ensures Agree(t) ==> Agree(ApplyWrite(PutRow(t, k, row), tail))
  {
    ApplyConcat(t, ZoneWrites(k, row), [tail]);
    ZoneWritesPut(t, k, row);
    ApplyOne(PutRow(t, k, row), tail);
    if Agree(t) {
      PutRowAgrees(t, k, row);
      OffInventoryAgrees(PutRow(t, k, row), tail);
    }
  }

  lemma TwoRowsApply(t: Tables, k1: Key, r1: ZoneRow, k2: Key, r2: ZoneRow, tail: Write)
    requires OffInventory(tail)
    ensures ApplyAll(t, ZoneWrites(k1, r1) + ZoneWrites(k2, r2) + [tail])
         == ApplyWrite(PutRow(PutRow(t, k1, r1), k2, r2), tail)
    ensures Agree(t) ==> Agree(ApplyWrite(PutRow(PutRow(t, k1, r1), k2, r2), tail))
  {
    var t1 := PutRow(t, k1, r1);
    assert ZoneWrites(k1, r1) + ZoneWrites(k2, r2) + [tail] == ZoneWrites(k1, r1) + (ZoneWrites(k2, r2) + [tail]);
    ApplyConcat(t, ZoneWrites(k1, r1), ZoneWrites(k2, r2) + [tail]);
    ZoneWritesPut(t, k1, r1);
    OneRowApply(t1, k2, r2, tail);
    if Agree(t) {
      PutRowAgrees(t, k1, r1);
    }
  }

  // ---------- The meaning of every handler ----------

  ghost predicate Means(t: Tables, ev: Event, t': Tables) {
    && t'.zones == t.zones + NewRows(t, ev)
    && t'.orders == NewOrders(t, ev)
    && (Agree(t) ==> Agree(t'))
  }

  /** The history row of an event, which depends on nothing stored. */
  function HistoryOf(ev: Event): Write {
    if IsProductEvent(ev) then
      HistoryWrite(ev, Some(ev.product), Some(if ev.ProductMoved? then ev.fromZone else ev.zone),
                   if ev.InventoryCounted? then ev.counted else ev.quantity)
    else HistoryWrite(ev, None, None, 0)
  }

  lemma ProductOps(t: Tables, ev: Event) returns (tail: Write)
    requires IsProductEvent(ev) && Accepts(t, ev)
    ensures tail == HistoryOf(ev) && OffInventory(tail) && tail.InsertHistory?
    ensures !ev.ProductMoved? ==>
      Handle(t, ev).ops == ZoneWrites(Key(ev.product, ev.zone), NewRow(t, ev, Key(ev.product, ev.zone))) + [tail]
    ensures ev.ProductMoved? ==>
      var k1, k2 := Key(ev.product, ev.fromZone), Key(ev.product, ev.toZone);
      k1 != k2 && Handle(t, ev).ops == ZoneWrites(k1, NewRow(t, ev, k1)) + ZoneWrites(k2, NewRow(t, ev, k2)) + [tail]
  {
    tail := HistoryOf(ev);
  }

  lemma OneNewRow(t: Tables, ev: Event, k: Key)
    requires Touched(t, ev) == {k}
    ensures t.zones + NewRows(t, ev) == t.zones[k := NewRow(t, ev, k)]
  {
  }

  lemma TwoNewRows(t: Tables, ev: Event, k1: Key, k2: Key)
    requires Touched(t, ev) == {k1, k2}
    ensures t.zones + NewRows(t, ev) == t.zones[k1 := NewRow(t, ev, k1)][k2 := NewRow(t, ev, k2)]
  {
  }

  lemma OneRowMeaning(t: Tables, ev: Event)
    requires IsProductEvent(ev) && !ev.ProductMoved? && Accepts(t, ev)
    ensures Means(t, ev, Step(t, ev))
  {
    var tail := ProductOps(t, ev);
    var k := Key(ev.product, ev.zone);
    var row := NewRow(t, ev, k);
    OneNewRow(t, ev, k);
    OneRowApply(t, k, row, tail);
    assert Step(t, ev) == ApplyWrite(PutRow(t, k, row), tail);
  }

  lemma MoveMeaning(t: Tables, ev: Event)
    requires ev.ProductMoved? && Accepts(t, ev)
    ensures Means(t, ev, Step(t, ev))
  {
    var tail := ProductOps(t, ev);
    var k1, k2 := Key(ev.product, ev.fromZone), Key(ev.product, ev.toZone);
    var r1, r2 := NewRow(t, ev, k1), NewRow(t, ev, k2);
    TwoNewRows(t, ev, k1, k2);
    TwoRowsApply(t, k1, r1, k2, r2, tail);
    assert Step(t, ev) == ApplyWrite(PutRow(PutRow(t, k1, r1), k2, r2), tail);
  }

  /** t with an order's rows put at the keys, in order. */
  function PutOrderRows(t: Tables, zones: Zones, items: seq<Line>, dir: Direction, ev: Event, keys: seq<Key>): Tables {
    if keys == [] then t
    else
      var k := keys[|keys| - 1];
      PutRow(PutOrderRows(t, zones, items, dir, ev, keys[..|keys| - 1]), k, OrderRow(zones, items, dir, ev, k))
  }

  lemma {:induction false} OrderZoneWritesPut(t: Tables, zones: Zones, items: seq<Line>, dir: Direction, ev: Event, keys: seq<Key>)
    ensures ApplyAll(t, OrderZoneWrites(zones, items, dir, ev, keys)) == PutOrderRows(t, zones, items, dir, ev, keys)
    decreases |keys|
  {
    if keys != [] {
      var front, k := keys[..|keys| - 1], keys[|keys| - 1];
      OrderZoneWritesPut(t, zones, items, dir, ev, front);
      ApplyConcat(t, OrderZoneWrites(zones, items, dir, ev, front), ZoneWrites(k, OrderRow(zones, items, dir, ev, k)));
      ZoneWritesPut(PutOrderRows(t, zones, items, dir, ev, front), k, OrderRow(zones, items, dir, ev, k));
    }
  }

  lemma {:induction false} OrderRowsPut(t: Tables, zones: Zones, items: seq<Line>, dir: Direction, ev: Event, keys: seq<Key>)
    ensures var t' := PutOrderRows(t, zones, items, dir, ev, keys);
      && t'.orders == t.orders
      && (Agree(t) ==> Agree(t'))
      && (forall k :: k in t'.zones <==> k in t.zones || k in keys)
      && (forall k :: k in t'.zones ==>
            t'.zones[k] == if k in keys then OrderRow(zones, items, dir, ev, k) else t.zones[k])
    decreases |keys|
  {
    if keys != [] {
      var front, k := keys[..|keys| - 1], keys[|keys| - 1];
      OrderRowsPut(t, zones, items, dir, ev, front);
      assert forall x :: x in keys <==> x in front || x == k;
      if Agree(t) {
        PutRowAgrees(PutOrderRows(t, zones, items, dir, ev, front), k, OrderRow(zones, items, dir, ev, k));
      }
    }
  }

  /** The write that stores a new order, or completes a stored one. */
  function OrderWrite(ev: Event): Write
    requires !IsProductEvent(ev)
  {
    if ev.OrderCreated? then UpsertOrder(ev.orderId, Order(Created, ev.items, Some(ev.ts), ev.ts))
    else UpdateOrderStatus(ev.orderId, Completed, ev.ts)
  }

  lemma OrderOps(t: Tables, ev: Event) returns (items: seq<Line>, dir: Direction, row: Write)
    requires Accepts(t, ev) && (ev.OrderCreated? || Fulfils(t, ev))
    ensures ev.OrderCreated? ==> items == ev.items && dir == Reserving
    ensures ev.OrderCompleted? ==> items == t.orders[ev.orderId].items && dir == Fulfilling
    ensures row == OrderWrite(ev) && OffInventory(row) && ApplyWrite(t, row).orders == NewOrders(t, ev) && !row.InsertHistory?
    ensures Handle(t, ev).ops == OrderZoneWrites(t.zones, items, dir, ev, DistinctKeys(items))
                                 + [row, HistoryWrite(ev, None, None, 0)]
  {
    row := OrderWrite(ev);
    if ev.OrderCreated? {
      items, dir := ev.items, Reserving;
    } else {
      items, dir := t.orders[ev.orderId].items, Fulfilling;
    }
  }

  lemma OrderNewRow(t: Tables, ev: Event, items: seq<Line>, dir: Direction, k: Key)
    requires ev.OrderCreated? || Fulfils(t, ev)
    requires ev.OrderCreated? ==> items == ev.items && dir == Reserving
    requires ev.OrderCompleted? ==> items == t.orders[ev.orderId].items && dir == Fulfilling
    ensures k in Touched(t, ev) <==> k in DistinctKeys(items)
    ensures NewRow(t, ev, k) == OrderRow(t.zones, items, dir, ev, k)
  {
  }

  lemma OrderZones(t: Tables, ev: Event, items: seq<Line>, dir: Direction, t1: Tables)
    requires ev.OrderCreated? || Fulfils(t, ev)
    requires ev.OrderCreated? ==> items == ev.items && dir == Reserving
    requires ev.OrderCompleted? ==> items == t.orders[ev.orderId].items && dir == Fulfilling
    requires forall k :: k in t1.zones <==> k in t.zones || k in DistinctKeys(items)
    requires forall k :: k in t1.zones ==>
      t1.zones[k] == if k in DistinctKeys(items) then OrderRow(t.zones, items, dir, ev, k) else t.zones[k]
    ensures t1.zones == t.zones + NewRows(t, ev)
  {
    forall k ensures k in t1.zones <==> k in t.zones + NewRows(t, ev)
             ensures k in t1.zones ==> t1.zones[k] == (t.zones + NewRows(t, ev))[k]
    {
      OrderNewRow(t, ev, items, dir, k);
    }
  }

  lemma OrderApply(t: Tables, ev: Event, items: seq<Line>, dir: Direction, row: Write, history: Write)
    requires OffInventory(row) && OffInventory(history)
    ensures var t1 := PutOrderRows(t, t.zones, items, dir, ev, DistinctKeys(items));
      var t' := ApplyWrite(ApplyWrite(t1, row), history);
      && ApplyAll(t, OrderZoneWrites(t.zones, items, dir, ev, DistinctKeys(items)) + [row, history]) == t'
      && (Agree(t) ==> Agree(t'))
  {
    var keys := DistinctKeys(items);
    var t1 := PutOrderRows(t, t.zones, items, dir, ev, keys);
    OrderZoneWritesPut(t, t.zones, items, dir, ev, keys);
    OrderRowsPut(t, t.zones, items, dir, ev, keys);
    ApplyConcat(t, OrderZoneWrites(t.zones, items, dir, ev, keys), [row, history]);
    ApplyTwo(t1, row, history);
    if Agree(t) {
      OffInventoryAgrees(t1, row);
      OffInventoryAgrees(ApplyWrite(t1, row), history);
    }
  }

  lemma OrderMeaning(t: Tables, ev: Event)
    requires Accepts(t, ev) && (ev.OrderCreated? || Fulfils(t, ev))
    ensures Means(t, ev, Step(t, ev))
  {
    var items, dir, row := OrderOps(t, ev);
    var keys := DistinctKeys(items);
    var t1 := PutOrderRows(t, t.zones, items, dir, ev, keys);
    OrderApply(t, ev, items, dir, row, HistoryWrite(ev, None, None, 0));
    OrderRowsPut(t, t.zones, items, dir, ev, keys);
    OrderZones(t, ev, items, dir, t1);
    OrderColumn(t, t1, row);
  }

  lemma OrderColumn(t: Tables, t1: Tables, row: Write)
    requires OffInventory(row) && t1.orders == t.orders
    ensures ApplyWrite(t1, row).orders == ApplyWrite(t, row).orders
    ensures ApplyWrite(t1, row).zones == t1.zones
  {
  }

  lemma HistoryOnlyMeaning(t: Tables, ev: Event)
    requires Accepts(t, ev) && ev.OrderCompleted? && !Fulfils(t, ev)
    ensures Means(t, ev, Step(t, ev))
  {
    var history := HistoryWrite(ev, None, None, 0);
    ApplyOne(t, history);
    assert NewRows(t, ev) == map[];
    if Agree(t) {
      OffInventoryAgrees(t, history);
    }
  }

  /** An accepted event rewrites exactly its rows and its order, and keeps the three inventory tables equal. */
  lemma HandlerMeaning(t: Tables, ev: Event)
    requires Accepts(t, ev)
    ensures Step(t, ev).zones == t.zones + NewRows(t, ev)
    ensures Step(t, ev).orders == NewOrders(t, ev)
    ensures Agree(t) ==> Agree(Step(t, ev))
  {
    if ev.OrderCreated? || Fulfils(t, ev) {
      OrderMeaning(t, ev);
    } else if ev.OrderCompleted? {
      HistoryOnlyMeaning(t, ev);
    } else if ev.ProductMoved? {
      MoveMeaning(t, ev);
    } else {
      OneRowMeaning(t, ev);
    }
  }

  /** Over every delivery sequence the three inventory tables show the same rows. */
  lemma {:induction false} ViewsAgree(evs: seq<Event>)
    ensures Agree(Run(EMPTY, evs))
    decreases |evs|
  {
    if evs == [] {
      forall k ensures InSync(EMPTY, k) {}
    } else {
      var front := evs[..|evs| - 1];
      ViewsAgree(front);
      if Accepts(Run(EMPTY, front), evs[|evs| - 1]) {
        HandlerMeaning(Run(EMPTY, front), evs[|evs| - 1]);
      }
    }
  }
}
