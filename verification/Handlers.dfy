/** The eight event handlers: what each reads, when it skips or rejects, and the writes it asks for. */
module Handlers {
  import opened MapSums
  import opened Warehouse

  datatype Reason = NegativeQuantity | Insufficient | SameZone | NoItems | OrderNotFound
  datatype Outcome = Skip | Reject(reason: Reason) | Apply(ops: seq<Write>)

  // ---------- Product events: each reads one or two inventory rows ----------

  function HandleProductReceived(zones: Zones, ev: Event): Outcome
    requires ev.ProductReceived?
  {
    var k := Key(ev.product, ev.zone);
    var s := ReadZone(zones, k);
    if ev.quantity < 0 then Reject(NegativeQuantity)
    else if IsStale(ev.ts, s.lastTs) then Skip
    else
      var supplier := if ev.supplier.Some? then ev.supplier else s.supplier;
      Apply(ZoneWrites(k, ZoneRow(s.available + ev.quantity, s.reserved, ev.id, ev.ts, supplier))
            + [HistoryWrite(ev, Some(ev.product), Some(ev.zone), ev.quantity)])
  }

  function HandleProductShipped(zones: Zones, ev: Event): Outcome
    requires ev.ProductShipped?
  {
    var k := Key(ev.product, ev.zone);
    var s := ReadZone(zones, k);
    if ev.quantity < 0 then Reject(NegativeQuantity)
    else if IsStale(ev.ts, s.lastTs) then Skip
    else if s.available < ev.quantity then Reject(Insufficient)
    else
      Apply(ZoneWrites(k, ZoneRow(s.available - ev.quantity, s.reserved, ev.id, ev.ts, s.supplier))
            + [HistoryWrite(ev, Some(ev.product), Some(ev.zone), ev.quantity)])
  }

  function HandleProductMoved(zones: Zones, ev: Event): Outcome
    requires ev.ProductMoved?
  {
    var src := ReadZone(zones, Key(ev.product, ev.fromZone));
    var dst := ReadZone(zones, Key(ev.product, ev.toZone));
    if ev.quantity < 0 then Reject(NegativeQuantity)
    else if ev.fromZone == ev.toZone then Reject(SameZone)
    else if IsStale(ev.ts, src.lastTs) || IsStale(ev.ts, dst.lastTs) then Skip
    else if src.available < ev.quantity then Reject(Insufficient)
    else
      Apply(ZoneWrites(Key(ev.product, ev.fromZone),
                       ZoneRow(src.available - ev.quantity, src.reserved, ev.id, ev.ts, src.supplier))
            + ZoneWrites(Key(ev.product, ev.toZone),
                         ZoneRow(dst.available + ev.quantity, dst.reserved, ev.id, ev.ts, dst.supplier))
            + [HistoryWrite(ev, Some(ev.product), Some(ev.fromZone), ev.quantity)])
  }

  function HandleProductReserved(zones: Zones, ev: Event): Outcome
    requires ev.ProductReserved?
  {
    var k := Key(ev.product, ev.zone);
    var s := ReadZone(zones, k);
    if ev.quantity < 0 then Reject(NegativeQuantity)
    else if IsStale(ev.ts, s.lastTs) then Skip
    else if s.available < ev.quantity then Reject(Insufficient)
    else
      Apply(ZoneWrites(k, ZoneRow(s.available - ev.quantity, s.reserved + ev.quantity, ev.id, ev.ts, s.supplier))
            + [HistoryWrite(ev, Some(ev.product), Some(ev.zone), ev.quantity)])
  }

  function HandleProductReleased(zones: Zones, ev: Event): Outcome
    requires ev.ProductReleased?
  {
    var k := Key(ev.product, ev.zone);
    var s := ReadZone(zones, k);
    if ev.quantity < 0 then Reject(NegativeQuantity)
    else if IsStale(ev.ts, s.lastTs) then Skip
    else if s.reserved < ev.quantity then Reject(Insufficient)
    else
      Apply(ZoneWrites(k, ZoneRow(s.available + ev.quantity, s.reserved - ev.quantity, ev.id, ev.ts, s.supplier))
            + [HistoryWrite(ev, Some(ev.product), Some(ev.zone), ev.quantity)])
  }

  function HandleInventoryCounted(zones: Zones, ev: Event): Outcome
    requires ev.InventoryCounted?
  {
    var k := Key(ev.product, ev.zone);
    var s := ReadZone(zones, k);
    if ev.counted < 0 then Reject(NegativeQuantity)
    else if IsStale(ev.ts, s.lastTs) then Skip
    else
      Apply(ZoneWrites(k, ZoneRow(ev.counted, s.reserved, ev.id, ev.ts, s.supplier))
            + [HistoryWrite(ev, Some(ev.product), Some(ev.zone), ev.counted)])
  }

  function HandleProduct(zones: Zones, ev: Event): Outcome
    requires IsProductEvent(ev)
  {
    match ev
    case ProductReceived(_, _, _, _, _, _) => HandleProductReceived(zones, ev)
    case ProductShipped(_, _, _, _, _) => HandleProductShipped(zones, ev)
    case ProductMoved(_, _, _, _, _, _) => HandleProductMoved(zones, ev)
    case ProductReserved(_, _, _, _, _) => HandleProductReserved(zones, ev)
    case ProductReleased(_, _, _, _, _) => HandleProductReleased(zones, ev)
    case InventoryCounted(_, _, _, _, _) => HandleInventoryCounted(zones, ev)
  }

  // ---------- Order events: specified line by line, over repeated lines ----------

  function KeyOf(l: Line): Key {
    Key(l.product, l.zone)
  }

  /** The total quantity that items ask for at k. */
  function LineSum(items: seq<Line>, k: Key): int {
    if items == [] then 0
    else
      var l := items[|items| - 1];
      LineSum(items[..|items| - 1], k) + (if KeyOf(l) == k then l.quantity else 0)
  }

  /** The keys of items, each once, in order of first appearance. */
  function DistinctKeys(items: seq<Line>): seq<Key> {
    if items == [] then []
    else
      var before := DistinctKeys(items[..|items| - 1]);
      var k := KeyOf(items[|items| - 1]);
      if k in before then before else before + [k]
  }

  lemma {:induction false} DistinctKeysOnce(items: seq<Line>)
    ensures forall i :: 0 <= i < |items| ==> KeyOf(items[i]) in DistinctKeys(items)
    ensures forall k :: k in DistinctKeys(items) ==> exists i :: 0 <= i < |items| && KeyOf(items[i]) == k
    ensures forall i, j :: 0 <= i < j < |DistinctKeys(items)| ==> DistinctKeys(items)[i] != DistinctKeys(items)[j]
  {
    if items != [] {
      var front := items[..|items| - 1];
      DistinctKeysOnce(front);
      forall k | k in DistinctKeys(items) ensures exists i :: 0 <= i < |items| && KeyOf(items[i]) == k {
        if k in DistinctKeys(front) {
          var i :| 0 <= i < |front| && KeyOf(front[i]) == k;
          assert KeyOf(items[i]) == k;
        } else {
          assert KeyOf(items[|items| - 1]) == k;
        }
      }
      forall i | 0 <= i < |items| ensures KeyOf(items[i]) in DistinctKeys(items) {
        if i < |front| {
          assert front[i] == items[i];
        }
      }
    }
  }

  // The first line of a new order that stops it. Reserving changes neither availability nor the
  // row's timestamp, so each line is judged on the stored row alone.
  function CreateFault(zones: Zones, items: seq<Line>, ts: int): (fault: Option<Outcome>)
    ensures fault.Some? ==> !fault.value.Apply?
  {
    if items == [] then None
    else
      var earlier := CreateFault(zones, items[..|items| - 1], ts);
      var l := items[|items| - 1];
      var s := ReadZone(zones, KeyOf(l));
      if earlier.Some? then earlier
      else if l.quantity < 0 then Some(Reject(NegativeQuantity))
      else if IsStale(ts, s.lastTs) then Some(Skip)
      else if s.available < l.quantity then Some(Reject(Insufficient))
      else None
  }

  // The first line of a stored order that stops its completion: earlier lines have already used
  // up their share of the reserved quantity.
  function CompleteFault(zones: Zones, items: seq<Line>, ts: int): (fault: Option<Outcome>)
    ensures fault.Some? ==> !fault.value.Apply?
  {
    if items == [] then None
    else
      var front := items[..|items| - 1];
      var earlier := CompleteFault(zones, front, ts);
      var l := items[|items| - 1];
      var s := ReadZone(zones, KeyOf(l));
      if earlier.Some? then earlier
      else if IsStale(ts, s.lastTs) then Some(Skip)
      else if s.reserved - LineSum(front, KeyOf(l)) < l.quantity then Some(Reject(Insufficient))
      else None
  }

  // An order's creation adds its quantities to reserved, its completion takes them off again.
  datatype Direction = Reserving | Fulfilling

  function Signed(dir: Direction, quantity: int): int {
    if dir == Reserving then quantity else -quantity
  }

  /** The row an order event leaves at k: reserved moves by the order's whole quantity there. */
  function OrderRow(zones: Zones, items: seq<Line>, dir: Direction, ev: Event, k: Key): ZoneRow {
    var s := ReadZone(zones, k);
    ZoneRow(s.available, s.reserved + Signed(dir, LineSum(items, k)), ev.id, ev.ts, s.supplier)
  }

  function OrderZoneWrites(zones: Zones, items: seq<Line>, dir: Direction, ev: Event, keys: seq<Key>): seq<Write> {
    if keys == [] then []
    else
      var k := keys[|keys| - 1];
      OrderZoneWrites(zones, items, dir, ev, keys[..|keys| - 1]) + ZoneWrites(k, OrderRow(zones, items, dir, ev, k))
  }

  function OrderCreatedOutcome(t: Tables, ev: Event): Outcome
    requires ev.OrderCreated?
  {
    var fault := CreateFault(t.zones, ev.items, ev.ts);
    if ev.items == [] then Reject(NoItems)
    else if fault.Some? then fault.value
    else
      Apply(OrderZoneWrites(t.zones, ev.items, Reserving, ev, DistinctKeys(ev.items))
            + [UpsertOrder(ev.orderId, Order(Created, ev.items, Some(ev.ts), ev.ts)),
               HistoryWrite(ev, None, None, 0)])
  }

  function OrderCompletedOutcome(t: Tables, ev: Event): Outcome
    requires ev.OrderCompleted?
  {
    if ev.orderId !in t.orders then Reject(OrderNotFound)
    else
      var o := t.orders[ev.orderId];
      var fault := CompleteFault(t.zones, o.items, ev.ts);
      if o.status == Completed then Apply([HistoryWrite(ev, None, None, 0)])
      else if fault.Some? then fault.value
      else
        Apply(OrderZoneWrites(t.zones, o.items, Fulfilling, ev, DistinctKeys(o.items))
              + [UpdateOrderStatus(ev.orderId, Completed, ev.ts), HistoryWrite(ev, None, None, 0)])
  }

  /** The handler table. */
  function Handle(t: Tables, ev: Event): Outcome {
    match ev
    case OrderCreated(_, _, _, _) => OrderCreatedOutcome(t, ev)
    case OrderCompleted(_, _, _) => OrderCompletedOutcome(t, ev)
    case _ => HandleProduct(t.zones, ev)
  }

  // ---------- The order handlers' loops ----------

  lemma {:induction false} CreateFaultPersists(zones: Zones, items: seq<Line>, n: nat, ts: int)
    requires n <= |items| && CreateFault(zones, items[..n], ts).Some?
    ensures CreateFault(zones, items, ts) == CreateFault(zones, items[..n], ts)
    decreases |items| - n
  {
    if n < |items| {
      var front := items[..|items| - 1];
      assert front[..n] == items[..n];
      CreateFaultPersists(zones, front, n, ts);
    } else {
      assert items[..n] == items;
    }
  }

  lemma {:induction false} CompleteFaultPersists(zones: Zones, items: seq<Line>, n: nat, ts: int)
    requires n <= |items| && CompleteFault(zones, items[..n], ts).Some?
    ensures CompleteFault(zones, items, ts) == CompleteFault(zones, items[..n], ts)
    decreases |items| - n
  {
    if n < |items| {
      var front := items[..|items| - 1];
      assert front[..n] == items[..n];
      CompleteFaultPersists(zones, front, n, ts);
    } else {
      assert items[..n] == items;
    }
  }

  lemma LineSumAbsent(items: seq<Line>, k: Key)
    requires k !in DistinctKeys(items)
    ensures LineSum(items, k) == 0
  {
    if items != [] {
      LineSumAbsent(items[..|items| - 1], k);
    }
  }

  /** What `seen` holds for k once the lines `done` have been folded into it. */
  function Running(zones: Zones, done: seq<Line>, dir: Direction, k: Key): ZoneState {
    var s := ReadZone(zones, k);
    s.(reserved := s.reserved + Signed(dir, LineSum(done, k)))
  }

  ghost predicate Seen(zones: Zones, done: seq<Line>, dir: Direction, inserted: seq<Key>, seen: map<Key, ZoneState>) {
    && inserted == DistinctKeys(done)
    && (forall k :: k in seen <==> k in inserted)
    && (forall k :: k in seen ==> seen[k] == Running(zones, done, dir, k))
  }

  lemma SeenStep(zones: Zones, done: seq<Line>, l: Line, dir: Direction, inserted: seq<Key>, seen: map<Key, ZoneState>)
    requires Seen(zones, done, dir, inserted, seen)
    ensures KeyOf(l) !in seen ==> ReadZone(zones, KeyOf(l)) == Running(zones, done, dir, KeyOf(l))
    ensures Running(zones, done + [l], dir, KeyOf(l)).reserved
         == Running(zones, done, dir, KeyOf(l)).reserved + Signed(dir, l.quantity)
    ensures Seen(zones, done + [l], dir,
                 if KeyOf(l) in seen then inserted else inserted + [KeyOf(l)],
                 seen[KeyOf(l) := Running(zones, done + [l], dir, KeyOf(l))])
  {
    var k := KeyOf(l);
    assert (done + [l])[..|done|] == done;
    if k !in seen {
      LineSumAbsent(done, k);
    }
  }

  lemma CreateFaultStep(zones: Zones, done: seq<Line>, l: Line, ts: int)
    requires CreateFault(zones, done, ts) == None
    ensures CreateFault(zones, done + [l], ts)
         == if l.quantity < 0 then Some(Reject(NegativeQuantity))
            else if IsStale(ts, ReadZone(zones, KeyOf(l)).lastTs) then Some(Skip)
            else if ReadZone(zones, KeyOf(l)).available < l.quantity then Some(Reject(Insufficient))
            else None
  {
    assert (done + [l])[..|done|] == done;
  }

  lemma CompleteFaultStep(zones: Zones, done: seq<Line>, l: Line, ts: int)
    requires CompleteFault(zones, done, ts) == None
    ensures CompleteFault(zones, done + [l], ts)
         == if IsStale(ts, ReadZone(zones, KeyOf(l)).lastTs) then Some(Skip)
            else if Running(zones, done, Fulfilling, KeyOf(l)).reserved < l.quantity then Some(Reject(Insufficient))
            else None
  {
    assert (done + [l])[..|done|] == done;
  }

  lemma OverwriteTwice<K, V>(m: map<K, V>, k: K, v: V, w: V)
    ensures m[k := v][k := w] == m[k := w]
  {
  }

  // The loop over a new order's lines; a fault is the early return or raise it meets.
  method ReserveLines(zones: Zones, items: seq<Line>, ts: int)
    returns (fault: Option<Outcome>, inserted: seq<Key>, seen: map<Key, ZoneState>)
    ensures fault == CreateFault(zones, items, ts)
    ensures fault == None ==> Seen(zones, items, Reserving, inserted, seen)
  {
    fault, inserted, seen := None, [], map[];
    for i := 0 to |items|
      invariant CreateFault(zones, items[..i], ts) == None
      invariant Seen(zones, items[..i], Reserving, inserted, seen)
    {
      var l := items[i];
      assert items[..i + 1] == items[..i] + [l];
      CreateFaultStep(zones, items[..i], l, ts);
      SeenStep(zones, items[..i], l, Reserving, inserted, seen);
      var k := KeyOf(l);
      ghost var before := seen;
      if l.quantity < 0 {
        CreateFaultPersists(zones, items, i + 1, ts);
        fault := Some(Reject(NegativeQuantity));
        return;
      }
      if k !in seen {
        seen := seen[k := ReadZone(zones, k)];
        inserted := inserted + [k];
      }
      var s := seen[k];
      if IsStale(ts, s.lastTs) {
        CreateFaultPersists(zones, items, i + 1, ts);
        fault := Some(Skip);
        return;
      }
      if s.available < l.quantity {
        CreateFaultPersists(zones, items, i + 1, ts);
        fault := Some(Reject(Insufficient));
        return;
      }
      OverwriteTwice(before, k, ReadZone(zones, k), s.(reserved := s.reserved + l.quantity));
      seen := seen[k := s.(reserved := s.reserved + l.quantity)];
    }
    assert items[..|items|] == items;
  }

  // The loop over a stored order's lines.
  method FulfilLines(zones: Zones, items: seq<Line>, ts: int)
    returns (fault: Option<Outcome>, inserted: seq<Key>, seen: map<Key, ZoneState>)
    ensures fault == CompleteFault(zones, items, ts)
    ensures fault == None ==> Seen(zones, items, Fulfilling, inserted, seen)
  {
    fault, inserted, seen := None, [], map[];
    for i := 0 to |items|
      invariant CompleteFault(zones, items[..i], ts) == None
      invariant Seen(zones, items[..i], Fulfilling, inserted, seen)
    {
      var l := items[i];
      assert items[..i + 1] == items[..i] + [l];
      CompleteFaultStep(zones, items[..i], l, ts);
      SeenStep(zones, items[..i], l, Fulfilling, inserted, seen);
      var k := KeyOf(l);
      ghost var before := seen;
      if k !in seen {
        seen := seen[k := ReadZone(zones, k)];
        inserted := inserted + [k];
      }
      var s := seen[k];
      if IsStale(ts, s.lastTs) {
        CompleteFaultPersists(zones, items, i + 1, ts);
        fault := Some(Skip);
        return;
      }
      if s.reserved < l.quantity {
        CompleteFaultPersists(zones, items, i + 1, ts);
        fault := Some(Reject(Insufficient));
        return;
      }
      OverwriteTwice(before, k, ReadZone(zones, k), s.(reserved := s.reserved - l.quantity));
      seen := seen[k := s.(reserved := s.reserved - l.quantity)];
    }
    assert items[..|items|] == items;
  }

  method HandleOrderCreated(t: Tables, ev: Event) returns (out: Outcome)
    requires ev.OrderCreated?
    ensures out == OrderCreatedOutcome(t, ev)
  {
    if |ev.items| == 0 {
      return Reject(NoItems);
    }
    var fault, inserted, seen := ReserveLines(t.zones, ev.items, ev.ts);
    if fault.Some? {
      return fault.value;
    }
    var ops := EmitZoneWrites(t.zones, ev.items, Reserving, ev, inserted, seen);
    out := Apply(ops + [UpsertOrder(ev.orderId, Order(Created, ev.items, Some(ev.ts), ev.ts)),
                        HistoryWrite(ev, None, None, 0)]);
  }

  method HandleOrderCompleted(t: Tables, ev: Event) returns (out: Outcome)
    requires ev.OrderCompleted?
    ensures out == OrderCompletedOutcome(t, ev)
  {
    if ev.orderId !in t.orders {
      return Reject(OrderNotFound);
    }
    var order := t.orders[ev.orderId];
    if order.status == Completed {
      return Apply([HistoryWrite(ev, None, None, 0)]);
    }
    var fault, inserted, seen := FulfilLines(t.zones, order.items, ev.ts);
    if fault.Some? {
      return fault.value;
    }
    var ops := EmitZoneWrites(t.zones, order.items, Fulfilling, ev, inserted, seen);
    out := Apply(ops + [UpdateOrderStatus(ev.orderId, Completed, ev.ts), HistoryWrite(ev, None, None, 0)]);
  }

  lemma OrderZoneWritesStep(zones: Zones, items: seq<Line>, dir: Direction, ev: Event, keys: seq<Key>, i: nat)
    requires i < |keys|
    ensures OrderZoneWrites(zones, items, dir, ev, keys[..i + 1])
         == OrderZoneWrites(zones, items, dir, ev, keys[..i]) + ZoneWrites(keys[i], OrderRow(zones, items, dir, ev, keys[i]))
  {
    assert keys[..i + 1][..i] == keys[..i];
  }

  // The loop over seen.items() that both order handlers end with.
  method EmitZoneWrites(ghost zones: Zones, ghost items: seq<Line>, ghost dir: Direction, ev: Event,
                        inserted: seq<Key>, seen: map<Key, ZoneState>) returns (ops: seq<Write>)
    requires forall i :: 0 <= i < |inserted| ==>
      inserted[i] in seen && seen[inserted[i]] == Running(zones, items, dir, inserted[i])
    ensures ops == OrderZoneWrites(zones, items, dir, ev, inserted)
  {
    ops := [];
    for i := 0 to |inserted|
      invariant ops == OrderZoneWrites(zones, items, dir, ev, inserted[..i])
    {
      var s := seen[inserted[i]];
      var row := ZoneRow(s.available, s.reserved, ev.id, ev.ts, s.supplier);
      assert row == OrderRow(zones, items, dir, ev, inserted[i]);
      OrderZoneWritesStep(zones, items, dir, ev, inserted, i);
      ops := ops + ZoneWrites(inserted[i], row);
    }
    assert inserted[..|inserted|] == inserted;
  }
}
