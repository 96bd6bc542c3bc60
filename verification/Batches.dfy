/**
 * A logged batch may land partly, in any order, and be replayed later. These lemmas say why that is
 * harmless for the batches the handlers build.
 */
module Batches {
  import opened MapSums
  import opened Warehouse
  import opened Handlers
  import opened Effects

  datatype RowId =
    | ZoneId(key: Key) | ProductId(key: Key) | IndexId(index: IndexKey)
    | OrderId(order: string) | HistoryId(at: HistoryKey) | NoRow

  datatype Cell = NoCell | ZoneCell(zone: ZoneRow) | StockCell(stock: Stock) | OrderCell(order: Order) | HistoryCell(entry: HistoryRow)

  function RowOf(w: Write): RowId {
    match w
    case UpsertZone(k, _) => ZoneId(k)
    case UpsertProduct(k, _) => ProductId(k)
    case UpsertZoneIndex(i, _) => IndexId(i)
    case UpsertOrder(id, _) => OrderId(id)
    case UpdateOrderStatus(id, _, _) => OrderId(id)
    case InsertHistory(at, _) => HistoryId(at)
    case MarkEvent(_) => NoRow
  }

  function Look(t: Tables, r: RowId): Cell {
    match r
    case ZoneId(k) => if k in t.zones then ZoneCell(t.zones[k]) else NoCell
    case ProductId(k) => if k in t.byProduct then StockCell(t.byProduct[k]) else NoCell
    case IndexId(i) => if i in t.byZone then StockCell(t.byZone[i]) else NoCell
    case OrderId(id) => if id in t.orders then OrderCell(t.orders[id]) else NoCell
    case HistoryId(at) => if at in t.history then HistoryCell(t.history[at]) else NoCell
    case NoRow => NoCell
  }

  /** What w makes of the contents of its own row. */
  function Overwrite(w: Write, c: Cell): Cell {
    match w
    case UpsertZone(_, row) => ZoneCell(row)
    case UpsertProduct(_, s) => StockCell(s)
    case UpsertZoneIndex(_, s) => StockCell(s)
    case UpsertOrder(_, o) => OrderCell(o)
    case UpdateOrderStatus(_, st, at) =>
      OrderCell(if c.OrderCell? then c.order.(status := st, updatedAt := at) else Order(st, [], None, at))
    case InsertHistory(_, row) => HistoryCell(row)
    case MarkEvent(_) => c
  }

  lemma LookWrite(t: Tables, w: Write, r: RowId)
    ensures Look(ApplyWrite(t, w), r) == if RowOf(w) == r then Overwrite(w, Look(t, r)) else Look(t, r)
  {
  }

  lemma SameTables(a: Tables, b: Tables)
    requires forall r :: Look(a, r) == Look(b, r)
    ensures a == b
  {
    forall k
      ensures (k in a.zones <==> k in b.zones) && (k in a.zones ==> a.zones[k] == b.zones[k])
      ensures (k in a.byProduct <==> k in b.byProduct) && (k in a.byProduct ==> a.byProduct[k] == b.byProduct[k])
    {
      assert Look(a, ZoneId(k)) == Look(b, ZoneId(k)) && Look(a, ProductId(k)) == Look(b, ProductId(k));
    }
    forall i ensures (i in a.byZone <==> i in b.byZone) && (i in a.byZone ==> a.byZone[i] == b.byZone[i]) {
      assert Look(a, IndexId(i)) == Look(b, IndexId(i));
    }
    forall id ensures (id in a.orders <==> id in b.orders) && (id in a.orders ==> a.orders[id] == b.orders[id]) {
      assert Look(a, OrderId(id)) == Look(b, OrderId(id));
    }
    forall at ensures (at in a.history <==> at in b.history) && (at in a.history ==> a.history[at] == b.history[at]) {
      assert Look(a, HistoryId(at)) == Look(b, HistoryId(at));
    }
    assert a.zones == b.zones && a.byProduct == b.byProduct && a.byZone == b.byZone;
    assert a.orders == b.orders && a.history == b.history;
  }

  // Writes that reach row r only as w, however often, leave it as one w would.
  lemma {:induction false} LookAll(t: Tables, ws: seq<Write>, w: Write, r: RowId)
    requires RowOf(w) == r
    requires forall i :: 0 <= i < |ws| && RowOf(ws[i]) == r ==> ws[i] == w
    ensures Look(ApplyAll(t, ws), r) == if w in ws then Overwrite(w, Look(t, r)) else Look(t, r)
    decreases |ws|
  {
    if ws != [] {
      LookWrite(t, ws[0], r);
      LookAll(ApplyWrite(t, ws[0]), ws[1..], w, r);
    }
  }

  lemma {:induction false} LookUntouched(t: Tables, ws: seq<Write>, r: RowId)
    requires forall i :: 0 <= i < |ws| ==> RowOf(ws[i]) != r
    ensures Look(ApplyAll(t, ws), r) == Look(t, r)
    decreases |ws|
  {
    if ws != [] {
      LookWrite(t, ws[0], r);
      LookUntouched(ApplyWrite(t, ws[0]), ws[1..], r);
    }
  }

  ghost predicate DistinctRows(ws: seq<Write>) {
    forall i, j :: 0 <= i < j < |ws| ==> RowOf(ws[i]) != RowOf(ws[j])
  }

  ghost predicate DrawnFrom(ws: seq<Write>, ops: seq<Write>) {
    forall i :: 0 <= i < |ws| ==> ws[i] in ops
  }

  lemma ConfluenceAt(t: Tables, ops: seq<Write>, landed: seq<Write>, replay: seq<Write>, r: RowId)
    requires DistinctRows(ops) && DrawnFrom(landed, ops) && DrawnFrom(replay, ops) && DrawnFrom(ops, replay)
    ensures Look(ApplyAll(ApplyAll(t, landed), replay), r) == Look(ApplyAll(t, ops), r)
  {
    if i :| 0 <= i < |ops| && RowOf(ops[i]) == r {
      LookAll(t, landed, ops[i], r);
      LookAll(ApplyAll(t, landed), replay, ops[i], r);
      LookAll(t, ops, ops[i], r);
    } else {
      LookUntouched(t, landed, r);
      LookUntouched(ApplyAll(t, landed), replay, r);
      LookUntouched(t, ops, r);
    }
  }

  /**
   * However much of a batch landed, in whatever order and however often, and in whatever order it is
   * then replayed in full: the tables are those of one clean application.
   */
  lemma BatchConfluence(t: Tables, ops: seq<Write>, landed: seq<Write>, replay: seq<Write>)
    requires DistinctRows(ops) && DrawnFrom(landed, ops) && DrawnFrom(replay, ops) && DrawnFrom(ops, replay)
    ensures ApplyAll(ApplyAll(t, landed), replay) == ApplyAll(t, ops)
  {
    forall r ensures Look(ApplyAll(ApplyAll(t, landed), replay), r) == Look(ApplyAll(t, ops), r) {
      ConfluenceAt(t, ops, landed, replay, r);
    }
    SameTables(ApplyAll(ApplyAll(t, landed), replay), ApplyAll(t, ops));
  }

  // ---------- Every handler's batch touches each row at most once ----------

  ghost predicate Apart(a: seq<Write>, b: seq<Write>) {
    forall i, j :: 0 <= i < |a| && 0 <= j < |b| ==> RowOf(a[i]) != RowOf(b[j])
  }

  lemma ConcatDistinct(a: seq<Write>, b: seq<Write>)
    requires DistinctRows(a) && DistinctRows(b) && Apart(a, b)
    ensures DistinctRows(a + b)
  {
  }

  ghost predicate InventoryOf(ws: seq<Write>, keys: seq<Key>) {
    forall i :: 0 <= i < |ws| ==>
      match RowOf(ws[i])
      case ZoneId(k) => k in keys
      case ProductId(k) => k in keys
      case IndexId(ix) => Key(ix.product, ix.zone) in keys
      case _ => false
  }

  lemma {:induction false} OrderZoneWritesDistinct(zones: Zones, items: seq<Line>, dir: Direction, ev: Event, keys: seq<Key>)
    requires forall i, j :: 0 <= i < j < |keys| ==> keys[i] != keys[j]
    ensures DistinctRows(OrderZoneWrites(zones, items, dir, ev, keys))
    ensures InventoryOf(OrderZoneWrites(zones, items, dir, ev, keys), keys)
    decreases |keys|
  {
    if keys != [] {
      var front, k := keys[..|keys| - 1], keys[|keys| - 1];
      OrderZoneWritesDistinct(zones, items, dir, ev, front);
      var before, last := OrderZoneWrites(zones, items, dir, ev, front), ZoneWrites(k, OrderRow(zones, items, dir, ev, k));
      assert k !in front;
      assert Apart(before, last);
      ConcatDistinct(before, last);
    }
  }

  lemma OneZoneDistinct(k: Key, row: ZoneRow, tail: Write)
    requires OffInventory(tail)
    ensures DistinctRows(ZoneWrites(k, row) + [tail])
  {
  }

  lemma TwoZonesDistinct(k1: Key, r1: ZoneRow, k2: Key, r2: ZoneRow, tail: Write)
    requires k1 != k2 && OffInventory(tail)
    ensures DistinctRows(ZoneWrites(k1, r1) + ZoneWrites(k2, r2) + [tail])
  {
    OneZoneDistinct(k2, r2, tail);
    var first, second := ZoneWrites(k1, r1), ZoneWrites(k2, r2) + [tail];
    assert DistinctRows(first);
    assert Apart(first, second);
    ConcatDistinct(first, second);
    assert first + second == ZoneWrites(k1, r1) + ZoneWrites(k2, r2) + [tail];
  }

  lemma ProductBatchDistinct(t: Tables, ev: Event)
    requires Accepts(t, ev) && IsProductEvent(ev)
    ensures DistinctRows(Handle(t, ev).ops)
  {
    var tail := ProductOps(t, ev);
    if ev.ProductMoved? {
      var k1, k2 := Key(ev.product, ev.fromZone), Key(ev.product, ev.toZone);
      TwoZonesDistinct(k1, NewRow(t, ev, k1), k2, NewRow(t, ev, k2), tail);
    } else {
      var k := Key(ev.product, ev.zone);
      OneZoneDistinct(k, NewRow(t, ev, k), tail);
    }
  }

  lemma TailDistinct(zw: seq<Write>, keys: seq<Key>, row: Write, history: Write)
    requires DistinctRows(zw) && InventoryOf(zw, keys)
    requires OffInventory(row) && !row.InsertHistory? && history.InsertHistory?
    ensures DistinctRows(zw + [row, history])
  {
    var tail := [row, history];
    assert DistinctRows(tail);
    forall i, j | 0 <= i < |zw| && 0 <= j < |tail| ensures RowOf(zw[i]) != RowOf(tail[j]) {}
    ConcatDistinct(zw, tail);
  }

  lemma OrderBatchDistinct(t: Tables, ev: Event)
    requires Accepts(t, ev) && (ev.OrderCreated? || Fulfils(t, ev))
    ensures DistinctRows(Handle(t, ev).ops)
  {
    var items, dir, row := OrderOps(t, ev);
    DistinctKeysOnce(items);
    OrderZoneWritesDistinct(t.zones, items, dir, ev, DistinctKeys(items));
    TailDistinct(OrderZoneWrites(t.zones, items, dir, ev, DistinctKeys(items)), DistinctKeys(items), row,
                 HistoryWrite(ev, None, None, 0));
  }

  /** Each handler's write list touches each row of each table at most once. */
  lemma HandlerBatchDistinct(t: Tables, ev: Event)
    requires Accepts(t, ev)
    ensures DistinctRows(Handle(t, ev).ops)
  {
    if IsProductEvent(ev) {
      ProductBatchDistinct(t, ev);
    } else if ev.OrderCreated? || Fulfils(t, ev) {
      OrderBatchDistinct(t, ev);
    }
  }

  // ---------- Late replays: last write wins by write time ----------

  // A statement that reached a replica, with the write time its batch was given.
  datatype Arrival = Arrival(stamp: nat, write: Write)

  type Replica = map<RowId, Arrival>

  /** A row keeps the statement with the latest write time. */
  function Land(s: Replica, a: Arrival): Replica {
    var r := RowOf(a.write);
    if r in s && s[r].stamp > a.stamp then s else s[r := a]
  }

  function LandAll(s: Replica, arrivals: seq<Arrival>): Replica {
    if arrivals == [] then s
    else Land(LandAll(s, arrivals[..|arrivals| - 1]), arrivals[|arrivals| - 1])
  }

  lemma {:induction false} LatestWins(arrivals: seq<Arrival>, r: RowId)
    ensures var s := LandAll(map[], arrivals);
      && (r in s ==> s[r] in arrivals && RowOf(s[r].write) == r)
      && (forall i :: 0 <= i < |arrivals| && RowOf(arrivals[i].write) == r ==> r in s && arrivals[i].stamp <= s[r].stamp)
    decreases |arrivals|
  {
    if arrivals != [] {
      var front := arrivals[..|arrivals| - 1];
      LatestWins(front, r);
      assert forall i :: 0 <= i < |front| ==> arrivals[i] == front[i];
    }
  }

  /** A batch that writes an inventory row writes the same figures to its two copies, and only then. */
  ghost predicate Mirrored(ws: seq<Write>) {
    && (forall k, row :: UpsertZone(k, row) in ws ==>
          UpsertProduct(k, StockOf(row)) in ws && UpsertZoneIndex(IndexKey(k.zone, k.product), StockOf(row)) in ws)
    && (forall k, s :: UpsertProduct(k, s) in ws ==> exists row :: UpsertZone(k, row) in ws && s == StockOf(row))
    && (forall i, s :: UpsertZoneIndex(i, s) in ws ==>
          exists row :: UpsertZone(Key(i.product, i.zone), row) in ws && s == StockOf(row))
  }

  lemma MirroredConcat(a: seq<Write>, b: seq<Write>)
    requires Mirrored(a) && Mirrored(b)
    ensures Mirrored(a + b)
  {
    forall k, s | UpsertProduct(k, s) in a + b ensures exists row :: UpsertZone(k, row) in a + b && s == StockOf(row) {
      var part := if UpsertProduct(k, s) in a then a else b;
      var row :| UpsertZone(k, row) in part && s == StockOf(row);
      assert UpsertZone(k, row) in a + b;
    }
    forall i, s | UpsertZoneIndex(i, s) in a + b
      ensures exists row :: UpsertZone(Key(i.product, i.zone), row) in a + b && s == StockOf(row)
    {
      var part := if UpsertZoneIndex(i, s) in a then a else b;
      var row :| UpsertZone(Key(i.product, i.zone), row) in part && s == StockOf(row);
      assert UpsertZone(Key(i.product, i.zone), row) in a + b;
    }
  }

  lemma ZoneWritesMirrored(k: Key, row: ZoneRow)
    ensures Mirrored(ZoneWrites(k, row))
  {
    assert UpsertZone(k, row) == ZoneWrites(k, row)[0];
    assert UpsertProduct(k, StockOf(row)) == ZoneWrites(k, row)[1];
    assert UpsertZoneIndex(IndexKey(k.zone, k.product), StockOf(row)) == ZoneWrites(k, row)[2];
  }

  lemma OffInventoryMirrored(ws: seq<Write>)
    requires forall i :: 0 <= i < |ws| ==> OffInventory(ws[i])
    ensures Mirrored(ws)
  {
  }

  lemma {:induction false} OrderZoneWritesMirrored(zones: Zones, items: seq<Line>, dir: Direction, ev: Event, keys: seq<Key>)
    ensures Mirrored(OrderZoneWrites(zones, items, dir, ev, keys))
    decreases |keys|
  {
    if keys != [] {
      var front, k := keys[..|keys| - 1], keys[|keys| - 1];
      OrderZoneWritesMirrored(zones, items, dir, ev, front);
      ZoneWritesMirrored(k, OrderRow(zones, items, dir, ev, k));
      MirroredConcat(OrderZoneWrites(zones, items, dir, ev, front), ZoneWrites(k, OrderRow(zones, items, dir, ev, k)));
    }
  }

  lemma ProductBatchMirrored(t: Tables, ev: Event)
    requires Accepts(t, ev) && IsProductEvent(ev)
    ensures Mirrored(Handle(t, ev).ops)
  {
    var tail := ProductOps(t, ev);
    OffInventoryMirrored([tail]);
    if ev.ProductMoved? {
      var k1, k2 := Key(ev.product, ev.fromZone), Key(ev.product, ev.toZone);
      var w1, w2 := ZoneWrites(k1, NewRow(t, ev, k1)), ZoneWrites(k2, NewRow(t, ev, k2));
      ZoneWritesMirrored(k1, NewRow(t, ev, k1));
      ZoneWritesMirrored(k2, NewRow(t, ev, k2));
      MirroredConcat(w1, w2);
      MirroredConcat(w1 + w2, [tail]);
    } else {
      var k := Key(ev.product, ev.zone);
      ZoneWritesMirrored(k, NewRow(t, ev, k));
      MirroredConcat(ZoneWrites(k, NewRow(t, ev, k)), [tail]);
    }
  }

  lemma OrderBatchMirrored(t: Tables, ev: Event)
    requires Accepts(t, ev) && (ev.OrderCreated? || Fulfils(t, ev))
    ensures Mirrored(Handle(t, ev).ops)
  {
    var items, dir, row := OrderOps(t, ev);
    var tail := [row, HistoryWrite(ev, None, None, 0)];
    OrderZoneWritesMirrored(t.zones, items, dir, ev, DistinctKeys(items));
    OffInventoryMirrored(tail);
    MirroredConcat(OrderZoneWrites(t.zones, items, dir, ev, DistinctKeys(items)), tail);
  }

  /** Every handler's batch mirrors each inventory row into its two copies. */
  lemma HandlerBatchMirrored(t: Tables, ev: Event)
    requires Accepts(t, ev)
    ensures Mirrored(Handle(t, ev).ops)
  {
    if IsProductEvent(ev) {
      ProductBatchMirrored(t, ev);
    } else if ev.OrderCreated? || Fulfils(t, ev) {
      OrderBatchMirrored(t, ev);
    } else {
      OffInventoryMirrored([HistoryWrite(ev, None, None, 0)]);
    }
  }

  // Write times name batches; every statement of every batch has arrived, each any number of times.
  ghost predicate Delivered(batches: map<nat, seq<Write>>, arrivals: seq<Arrival>) {
    && (forall st :: st in batches ==> DistinctRows(batches[st]) && Mirrored(batches[st]))
    && (forall i :: 0 <= i < |arrivals| ==> arrivals[i].stamp in batches && arrivals[i].write in batches[arrivals[i].stamp])
    && (forall st, w :: st in batches && w in batches[st] ==> Arrival(st, w) in arrivals)
  }

  /** The three copies of row k in a replica show the same figures, or are all absent. */
  ghost predicate CopiesAgree(s: Replica, k: Key) {
    var z, p, i := ZoneId(k), ProductId(k), IndexId(IndexKey(k.zone, k.product));
    && (z in s <==> p in s) && (z in s <==> i in s)
    && (z in s ==> s[z].write.UpsertZone? && s[p].write == UpsertProduct(k, StockOf(s[z].write.row))
                   && s[i].write == UpsertZoneIndex(IndexKey(k.zone, k.product), StockOf(s[z].write.row)))
  }

  lemma SameRowSameWrite(ws: seq<Write>, a: Write, b: Write)
    requires DistinctRows(ws) && a in ws && b in ws && RowOf(a) == RowOf(b)
    ensures a == b
  {
  }

  // A copy of an inventory row: its id, and the statement that carries a given row to it.
  datatype Copy = ProductCopy | IndexCopy

  function CopyId(c: Copy, k: Key): RowId {
    if c == ProductCopy then ProductId(k) else IndexId(IndexKey(k.zone, k.product))
  }

  function CopyWrite(c: Copy, k: Key, row: ZoneRow): Write {
    if c == ProductCopy then UpsertProduct(k, StockOf(row)) else UpsertZoneIndex(IndexKey(k.zone, k.product), StockOf(row))
  }

  lemma ZoneHasCopy(batches: map<nat, seq<Write>>, arrivals: seq<Arrival>, k: Key, c: Copy)
    requires Delivered(batches, arrivals) && ZoneId(k) in LandAll(map[], arrivals)
    ensures var s := LandAll(map[], arrivals);
      CopyId(c, k) in s && s[ZoneId(k)].stamp <= s[CopyId(c, k)].stamp
  {
    LatestWins(arrivals, ZoneId(k));
    LatestWins(arrivals, CopyId(c, k));
    var a := LandAll(map[], arrivals)[ZoneId(k)];
    assert CopyWrite(c, k, a.write.row) in batches[a.stamp];
    assert Arrival(a.stamp, CopyWrite(c, k, a.write.row)) in arrivals;
  }

  lemma CopyHasZone(batches: map<nat, seq<Write>>, arrivals: seq<Arrival>, k: Key, c: Copy) returns (row: ZoneRow)
    requires Delivered(batches, arrivals) && CopyId(c, k) in LandAll(map[], arrivals)
    ensures var s := LandAll(map[], arrivals);
      && ZoneId(k) in s && s[CopyId(c, k)].stamp <= s[ZoneId(k)].stamp
      && s[CopyId(c, k)].write == CopyWrite(c, k, row)
      && (s[CopyId(c, k)].stamp == s[ZoneId(k)].stamp ==> s[ZoneId(k)].write == UpsertZone(k, row))
  {
    var s := LandAll(map[], arrivals);
    LatestWins(arrivals, ZoneId(k));
    LatestWins(arrivals, CopyId(c, k));
    var a := s[CopyId(c, k)];
    row :| UpsertZone(k, row) in batches[a.stamp] && a.write == CopyWrite(c, k, row);
    assert Arrival(a.stamp, UpsertZone(k, row)) in arrivals;
    if s[ZoneId(k)].stamp == a.stamp {
      SameRowSameWrite(batches[a.stamp], s[ZoneId(k)].write, UpsertZone(k, row));
    }
  }

  lemma CopyConverges(batches: map<nat, seq<Write>>, arrivals: seq<Arrival>, k: Key, c: Copy)
    requires Delivered(batches, arrivals)
    ensures var s := LandAll(map[], arrivals);
      && (ZoneId(k) in s <==> CopyId(c, k) in s)
      && (ZoneId(k) in s ==> s[ZoneId(k)].write.UpsertZone? && s[CopyId(c, k)].write == CopyWrite(c, k, s[ZoneId(k)].write.row))
  {
    if ZoneId(k) in LandAll(map[], arrivals) {
      ZoneHasCopy(batches, arrivals, k, c);
    }
    if CopyId(c, k) in LandAll(map[], arrivals) {
      var row := CopyHasZone(batches, arrivals, k, c);
      ZoneHasCopy(batches, arrivals, k, c);
    }
  }

  /**
   * Batches may interleave, land partly and be replayed after later ones: once every statement has
   * arrived, the three inventory tables agree on every row.
   */
  lemma ViewsConverge(batches: map<nat, seq<Write>>, arrivals: seq<Arrival>, k: Key)
    requires Delivered(batches, arrivals)
    ensures CopiesAgree(LandAll(map[], arrivals), k)
  {
    CopyConverges(batches, arrivals, k, ProductCopy);
    CopyConverges(batches, arrivals, k, IndexCopy);
  }
}
