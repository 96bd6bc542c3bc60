/** Conservation: what the inventory rows hold is exactly what the accepted events put there. */
module Ledger {
  import opened MapSums
  import opened Warehouse
  import opened Handlers
  import opened Effects

  // ---------- What acceptance guarantees ----------

  /** A new order is accepted exactly when every line is non-negative, fresh, and individually available. */
  lemma {:induction false} CreateFaultFree(zones: Zones, items: seq<Line>, ts: int)
    ensures CreateFault(zones, items, ts) == None <==>
      forall i :: 0 <= i < |items| ==>
        && items[i].quantity >= 0
        && !IsStale(ts, ReadZone(zones, KeyOf(items[i])).lastTs)
        && items[i].quantity <= ReadZone(zones, KeyOf(items[i])).available
  {
    if items != [] {
      var front := items[..|items| - 1];
      CreateFaultFree(zones, front, ts);
      assert forall i :: 0 <= i < |front| ==> items[i] == front[i];
    }
  }

  lemma {:induction false} CompleteFaultFree(zones: Zones, items: seq<Line>, ts: int)
    requires CompleteFault(zones, items, ts) == None
    ensures forall k :: k in DistinctKeys(items) ==>
      !IsStale(ts, ReadZone(zones, k).lastTs) && LineSum(items, k) <= ReadZone(zones, k).reserved
  {
    if items != [] {
      var front, l := items[..|items| - 1], items[|items| - 1];
      CompleteFaultFree(zones, front, ts);
      forall k | k in DistinctKeys(items)
        ensures !IsStale(ts, ReadZone(zones, k).lastTs) && LineSum(items, k) <= ReadZone(zones, k).reserved
      {
        if KeyOf(l) != k {
          assert k in DistinctKeys(front);
        }
      }
    }
  }

  ghost predicate LinesNonNegative(items: seq<Line>) {
    forall i :: 0 <= i < |items| ==> items[i].quantity >= 0
  }

  lemma {:induction false} PrefixSum(items: seq<Line>, n: nat, k: Key)
    requires n <= |items| && LinesNonNegative(items)
    ensures LineSum(items[..n], k) <= LineSum(items, k)
    decreases |items| - n
  {
    if n == |items| {
      assert items[..n] == items;
    } else {
      var front := items[..|items| - 1];
      assert front[..n] == items[..n];
      PrefixSum(front, n, k);
    }
  }

  /** Every key of an order is older than ts and has the sum of its lines reserved. */
  predicate Covered(zones: Zones, items: seq<Line>, ts: int) {
    forall k :: k in DistinctKeys(items) ==> !IsStale(ts, ReadZone(zones, k).lastTs) && LineSum(items, k) <= ReadZone(zones, k).reserved
  }

  lemma {:induction false} CoveredPrefix(zones: Zones, items: seq<Line>, n: nat, ts: int)
    requires n <= |items| && LinesNonNegative(items) && Covered(zones, items, ts)
    ensures CompleteFault(zones, items[..n], ts) == None
  {
    if n > 0 {
      CoveredPrefix(zones, items, n - 1, ts);
      assert items[..n][..n - 1] == items[..n - 1];
      DistinctKeysOnce(items);
      PrefixSum(items, n, KeyOf(items[n - 1]));
    }
  }

  /** A completion has no fault if and only if every key is fresh and covers the sum of its lines. */
  lemma CompleteFaultExactly(zones: Zones, items: seq<Line>, ts: int)
    requires LinesNonNegative(items)
    ensures CompleteFault(zones, items, ts) == None <==> Covered(zones, items, ts)
  {
    if Covered(zones, items, ts) {
      CoveredPrefix(zones, items, |items|, ts);
      assert items[..|items|] == items;
    } else if CompleteFault(zones, items, ts) == None {
      CompleteFaultFree(zones, items, ts);
    }
  }

  lemma {:induction false} LineSumNonNegative(items: seq<Line>, k: Key)
    requires forall i :: 0 <= i < |items| ==> items[i].quantity >= 0
    ensures LineSum(items, k) >= 0
  {
    if items != [] {
      LineSumNonNegative(items[..|items| - 1], k);
    }
  }

  /** No accepted event is stale at a row it writes. */
  lemma AcceptedIsFresh(t: Tables, ev: Event, k: Key)
    requires Accepts(t, ev) && k in Touched(t, ev)
    ensures k in t.zones ==> t.zones[k].ts < ev.ts
  {
    if ev.OrderCreated? {
      CreateFaultFree(t.zones, ev.items, ev.ts);
      DistinctKeysOnce(ev.items);
    } else if ev.OrderCompleted? {
      CompleteFaultFree(t.zones, t.orders[ev.orderId].items, ev.ts);
    }
  }

  ghost predicate NonNegative(t: Tables) {
    && (forall k :: k in t.zones ==> t.zones[k].available >= 0 && t.zones[k].reserved >= 0)
    && (forall id :: id in t.orders ==> LinesNonNegative(t.orders[id].items))
  }

  lemma NewRowNonNegative(t: Tables, ev: Event, k: Key)
    requires Accepts(t, ev) && NonNegative(t) && k in Touched(t, ev)
    ensures NewRow(t, ev, k).available >= 0 && NewRow(t, ev, k).reserved >= 0
  {
    if ev.OrderCreated? {
      CreateFaultFree(t.zones, ev.items, ev.ts);
      LineSumNonNegative(ev.items, k);
    } else if ev.OrderCompleted? {
      CompleteFaultFree(t.zones, t.orders[ev.orderId].items, ev.ts);
    }
  }

  lemma StepNonNegative(t: Tables, ev: Event)
    requires NonNegative(t)
    ensures NonNegative(Step(t, ev))
  {
    if Accepts(t, ev) {
      HandlerMeaning(t, ev);
      forall k | k in Touched(t, ev) ensures NewRow(t, ev, k).available >= 0 && NewRow(t, ev, k).reserved >= 0 {
        NewRowNonNegative(t, ev, k);
      }
      if ev.OrderCreated? {
        CreateFaultFree(t.zones, ev.items, ev.ts);
        assert LinesNonNegative(ev.items);
      }
    }
  }

  lemma {:induction false} RunNonNegative(evs: seq<Event>)
    ensures NonNegative(Run(EMPTY, evs))
    decreases |evs|
  {
    if evs != [] {
      RunNonNegative(evs[..|evs| - 1]);
      StepNonNegative(Run(EMPTY, evs[..|evs| - 1]), evs[|evs| - 1]);
    }
  }

  // ---------- Per product and zone ----------

  // Quantities moved by accepted events, by cause.
  datatype Flow = Flow(received: int, shipped: int, movedIn: int, movedOut: int, reserved: int, released: int,
                       adjusted: int, ordered: int, fulfilled: int)

  const NO_FLOW := Flow(0, 0, 0, 0, 0, 0, 0, 0, 0)

  function Plus(a: Flow, b: Flow): Flow {
    Flow(a.received + b.received, a.shipped + b.shipped, a.movedIn + b.movedIn, a.movedOut + b.movedOut,
         a.reserved + b.reserved, a.released + b.released, a.adjusted + b.adjusted,
         a.ordered + b.ordered, a.fulfilled + b.fulfilled)
  }

  function EventFlow(t: Tables, ev: Event, k: Key): Flow {
    if !Accepts(t, ev) || k !in Touched(t, ev) then NO_FLOW
    else
      match ev
      case ProductReceived(_, _, _, _, q, _) => NO_FLOW.(received := q)
      case ProductShipped(_, _, _, _, q) => NO_FLOW.(shipped := q)
      case ProductMoved(_, _, _, source, _, q) =>
        if k.zone == source then NO_FLOW.(movedOut := q) else NO_FLOW.(movedIn := q)
      case ProductReserved(_, _, _, _, q) => NO_FLOW.(reserved := q)
      case ProductReleased(_, _, _, _, q) => NO_FLOW.(released := q)
      case InventoryCounted(_, _, _, _, counted) => NO_FLOW.(adjusted := counted - ReadZone(t.zones, k).available)
      case OrderCreated(_, _, _, items) => NO_FLOW.(ordered := LineSum(items, k))
      case OrderCompleted(_, _, id) => NO_FLOW.(fulfilled := if Fulfils(t, ev) then LineSum(t.orders[id].items, k) else 0)
  }

  function RunFlow(evs: seq<Event>, k: Key): Flow {
    if evs == [] then NO_FLOW
    else
      var front := evs[..|evs| - 1];
      Plus(RunFlow(front, k), EventFlow(Run(EMPTY, front), evs[|evs| - 1], k))
  }

  ghost predicate Balances(s: ZoneState, f: Flow) {
    && s.available == f.received - f.shipped + f.movedIn - f.movedOut - f.reserved + f.released + f.adjusted
    && s.reserved == f.reserved - f.released + f.ordered - f.fulfilled
  }

  lemma StepBalances(t: Tables, ev: Event, k: Key, f: Flow)
    requires Balances(ReadZone(t.zones, k), f)
    ensures Balances(ReadZone(Step(t, ev).zones, k), Plus(f, EventFlow(t, ev, k)))
  {
    if Accepts(t, ev) {
      HandlerMeaning(t, ev);
      if k !in Touched(t, ev) {
        assert ReadZone(t.zones + NewRows(t, ev), k) == ReadZone(t.zones, k);
      }
    }
  }

  /** Over every delivery sequence, each row balances against the accepted events and never goes negative. */
  lemma {:induction false} KeyLedger(evs: seq<Event>, k: Key)
    ensures Balances(ReadZone(Run(EMPTY, evs).zones, k), RunFlow(evs, k))
    ensures ReadZone(Run(EMPTY, evs).zones, k).available >= 0 && ReadZone(Run(EMPTY, evs).zones, k).reserved >= 0
    decreases |evs|
  {
    RunNonNegative(evs);
    if evs != [] {
      var front := evs[..|evs| - 1];
      KeyLedger(front, k);
      StepBalances(Run(EMPTY, front), evs[|evs| - 1], k, RunFlow(front, k));
    }
  }

  // ---------- Per product, over all zones ----------

  function Availability(zones: Zones, product: string): map<Key, int> {
    map k | k in zones && k.product == product :: zones[k].available
  }

  ghost function TotalAvailable(zones: Zones, product: string): int {
    Sum(Availability(zones, product))
  }

  /** The flow of one event into a product, whatever the zone; a move counts on both sides. */
  function ProductEventFlow(t: Tables, ev: Event, product: string): Flow {
    if !Accepts(t, ev) || !IsProductEvent(ev) || ev.product != product then NO_FLOW
    else if ev.ProductMoved? then NO_FLOW.(movedOut := ev.quantity, movedIn := ev.quantity)
    else EventFlow(t, ev, Key(product, ev.zone))
  }

  function ProductFlow(evs: seq<Event>, product: string): Flow {
    if evs == [] then NO_FLOW
    else
      var front := evs[..|evs| - 1];
      Plus(ProductFlow(front, product), ProductEventFlow(Run(EMPTY, front), evs[|evs| - 1], product))
  }

  lemma PutTotal(zones: Zones, k: Key, row: ZoneRow, product: string)
    ensures TotalAvailable(zones[k := row], product)
         == TotalAvailable(zones, product)
            + (if k.product == product then row.available - ReadZone(zones, k).available else 0)
  {
    if k.product == product {
      assert Availability(zones[k := row], product) == Availability(zones, product)[k := row.available];
      SumUpdate(Availability(zones, product), k, row.available);
    } else {
      assert Availability(zones[k := row], product) == Availability(zones, product);
    }
  }

  lemma LastRow(zones: Zones, rows: Zones, k: Key)
    requires k in rows
    ensures zones + rows == (zones + (rows - {k}))[k := rows[k]]
    ensures ReadZone(zones + (rows - {k}), k) == ReadZone(zones, k)
  {
  }

  // Order events rewrite rows without touching what they have available.
  lemma {:induction false} OrderTotal(zones: Zones, rows: Zones, product: string)
    requires forall k :: k in rows ==> rows[k].available == ReadZone(zones, k).available
    ensures TotalAvailable(zones + rows, product) == TotalAvailable(zones, product)
    decreases |rows|
  {
    if rows == map[] {
      assert zones + rows == zones;
    } else {
      assert rows.Keys != {};
      var k :| k in rows;
      OrderTotal(zones, rows - {k}, product);
      LastRow(zones, rows, k);
      PutTotal(zones + (rows - {k}), k, rows[k], product);
    }
  }

  ghost predicate ProductBalances(total: int, f: Flow) {
    && total == f.received - f.shipped - f.reserved + f.released + f.adjusted
    && f.movedIn == f.movedOut && f.ordered == 0 && f.fulfilled == 0
  }

  lemma StepTotal(t: Tables, ev: Event, product: string, f: Flow)
    requires ProductBalances(TotalAvailable(t.zones, product), f)
    ensures ProductBalances(TotalAvailable(Step(t, ev).zones, product), Plus(f, ProductEventFlow(t, ev, product)))
  {
    if !Accepts(t, ev) {
    } else if !IsProductEvent(ev) {
      HandlerMeaning(t, ev);
      OrderTotal(t.zones, NewRows(t, ev), product);
    } else if ev.ProductMoved? {
      var k1, k2 := Key(ev.product, ev.fromZone), Key(ev.product, ev.toZone);
      HandlerMeaning(t, ev);
      TwoNewRows(t, ev, k1, k2);
      PutTotal(t.zones, k1, NewRow(t, ev, k1), product);
      PutTotal(t.zones[k1 := NewRow(t, ev, k1)], k2, NewRow(t, ev, k2), product);
    } else {
      var k := Key(ev.product, ev.zone);
      HandlerMeaning(t, ev);
      OneNewRow(t, ev, k);
      PutTotal(t.zones, k, NewRow(t, ev, k), product);
    }
  }

  /** Summed over all zones, a product's availability balances with moves and orders contributing nothing. */
  lemma {:induction false} ProductLedger(evs: seq<Event>, product: string)
    ensures ProductBalances(TotalAvailable(Run(EMPTY, evs).zones, product), ProductFlow(evs, product))
    decreases |evs|
  {
    if evs == [] {
      assert Availability(EMPTY.zones, product) == map[];
    } else {
      var front := evs[..|evs| - 1];
      ProductLedger(front, product);
      StepTotal(Run(EMPTY, front), evs[|evs| - 1], product, ProductFlow(front, product));
    }
  }
}
