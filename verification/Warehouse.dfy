/** The consumer's entities: events, table rows, and the single-table writes a batch is made of. */
module Warehouse {
  import opened MapSums

  datatype Key = Key(product: string, zone: string)
  datatype IndexKey = IndexKey(zone: string, product: string)

  // inventory_by_product_zone carries all columns; its two denormalised copies carry a Stock.
  datatype ZoneRow = ZoneRow(available: int, reserved: int, eventId: string, ts: int, supplier: Option<string>)
  datatype Stock = Stock(available: int, reserved: int, ts: int)

  type Zones = map<Key, ZoneRow>

  datatype Line = Line(product: string, zone: string, quantity: int)
  datatype OrderStatus = Created | Completed
  // An order row made by a bare status update would have no items and no creation time.
  datatype Order = Order(status: OrderStatus, items: seq<Line>, createdAt: Option<int>, updatedAt: int)

  datatype Event =
    | ProductReceived(id: string, ts: int, product: string, zone: string, quantity: int, supplier: Option<string>)
    | ProductShipped(id: string, ts: int, product: string, zone: string, quantity: int)
    | ProductMoved(id: string, ts: int, product: string, fromZone: string, toZone: string, quantity: int)
    | ProductReserved(id: string, ts: int, product: string, zone: string, quantity: int)
    | ProductReleased(id: string, ts: int, product: string, zone: string, quantity: int)
    | InventoryCounted(id: string, ts: int, product: string, zone: string, counted: int)
    | OrderCreated(id: string, ts: int, orderId: string, items: seq<Line>)
    | OrderCompleted(id: string, ts: int, orderId: string)

  predicate IsProductEvent(ev: Event) {
    !ev.OrderCreated? && !ev.OrderCompleted?
  }

  const MILLIS_PER_DAY := 86_400_000

  datatype HistoryKey = HistoryKey(day: int, ts: int, eventId: string)
  datatype HistoryRow = HistoryRow(product: Option<string>, zone: Option<string>, quantity: int, payload: Event)

  datatype Tables = Tables(
    zones: Zones,
    byProduct: map<Key, Stock>,
    byZone: map<IndexKey, Stock>,
    orders: map<string, Order>,
    history: map<HistoryKey, HistoryRow>)

  const EMPTY := Tables(map[], map[], map[], map[], map[])

  // One statement of a batch. MarkEvent is the conditional insert that a batch must never carry.
  datatype Write =
    | UpsertZone(key: Key, row: ZoneRow)
    | UpsertProduct(key: Key, stock: Stock)
    | UpsertZoneIndex(index: IndexKey, stock: Stock)
    | UpsertOrder(orderId: string, order: Order)
    | UpdateOrderStatus(orderId: string, status: OrderStatus, updatedAt: int)
    | InsertHistory(at: HistoryKey, entry: HistoryRow)
    | MarkEvent(eventId: string)

  function ApplyWrite(t: Tables, w: Write): Tables {
    match w
    case UpsertZone(k, row) => t.(zones := t.zones[k := row])
    case UpsertProduct(k, s) => t.(byProduct := t.byProduct[k := s])
    case UpsertZoneIndex(k, s) => t.(byZone := t.byZone[k := s])
    case UpsertOrder(id, o) => t.(orders := t.orders[id := o])
    case UpdateOrderStatus(id, st, at) =>
      var o := if id in t.orders then t.orders[id] else Order(st, [], None, at);
      t.(orders := t.orders[id := o.(status := st, updatedAt := at)])
    case InsertHistory(k, row) => t.(history := t.history[k := row])
    case MarkEvent(_) => t
  }

  /** The tables after every write of ws has reached them, first to last. */
  function ApplyAll(t: Tables, ws: seq<Write>): Tables
    decreases |ws|
  {
    if ws == [] then t else ApplyAll(ApplyWrite(t, ws[0]), ws[1..])
  }

  lemma {:induction false} ApplyConcat(t: Tables, a: seq<Write>, b: seq<Write>)
    ensures ApplyAll(t, a + b) == ApplyAll(ApplyAll(t, a), b)
    decreases |a|
  {
    if a == [] {
      assert a + b == b;
    } else {
      assert (a + b)[1..] == a[1..] + b;
      ApplyConcat(ApplyWrite(t, a[0]), a[1..], b);
    }
  }

  function StockOf(row: ZoneRow): Stock {
    Stock(row.available, row.reserved, row.ts)
  }

  /** The three writes that put one inventory row into its three tables. */
  function ZoneWrites(k: Key, row: ZoneRow): seq<Write> {
    [ UpsertZone(k, row),
      UpsertProduct(k, StockOf(row)),
      UpsertZoneIndex(IndexKey(k.zone, k.product), StockOf(row)) ]
  }

  function HistoryWrite(ev: Event, product: Option<string>, zone: Option<string>, quantity: int): Write {
    InsertHistory(HistoryKey(ev.ts / MILLIS_PER_DAY, ev.ts, ev.id), HistoryRow(product, zone, quantity, ev))
  }

  /** The three inventory tables show the same row at k, or none of them has one. */
  predicate InSync(t: Tables, k: Key) {
    var i := IndexKey(k.zone, k.product);
    if k in t.zones
    then k in t.byProduct && t.byProduct[k] == StockOf(t.zones[k]) && i in t.byZone && t.byZone[i] == StockOf(t.zones[k])
    else k !in t.byProduct && i !in t.byZone
  }

  ghost predicate Agree(t: Tables) {
    forall k :: InSync(t, k)
  }

  // What _read_zone returns: a missing row reads as an empty, never-written zone.
  datatype ZoneState = ZoneState(available: int, reserved: int, lastTs: Option<int>, supplier: Option<string>)

  function ReadZone(zones: Zones, k: Key): ZoneState {
    if k in zones
    then ZoneState(zones[k].available, zones[k].reserved, Some(zones[k].ts), zones[k].supplier)
    else ZoneState(0, 0, None, None)
  }

  predicate IsStale(ts: int, last: Option<int>) {
    last.Some? && ts <= last.value
  }
}
