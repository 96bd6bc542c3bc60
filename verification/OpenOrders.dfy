/** Orders that are still open keep their quantities reserved, whatever else happens to the rows. */
module OpenOrders {
  import opened MapSums
  import opened Warehouse
  import opened Handlers
  import opened Effects
  import opened Ledger

  function OpenLines(orders: map<string, Order>, k: Key): map<string, int> {
    map id | id in orders && orders[id].status == Created :: LineSum(orders[id].items, k)
  }

  /** What all open orders together ask for at k. */
  ghost function OpenQuantity(orders: map<string, Order>, k: Key): int {
    Sum(OpenLines(orders, k))
  }

  lemma PutOrder(orders: map<string, Order>, id: string, o: Order, k: Key)
    ensures OpenQuantity(orders[id := o], k)
         == OpenQuantity(orders, k)
            + (if o.status == Created then LineSum(o.items, k) else 0)
            - (if id in orders && orders[id].status == Created then LineSum(orders[id].items, k) else 0)
  {
    var open := OpenLines(orders, k);
    if o.status == Created {
      assert OpenLines(orders[id := o], k) == open[id := LineSum(o.items, k)];
      SumUpdate(open, id, LineSum(o.items, k));
    } else if id in open {
      assert OpenLines(orders[id := o], k) == open - {id};
      SumRemove(open, id);
    } else {
      assert OpenLines(orders[id := o], k) == open;
    }
  }

  /** The slack between what is reserved at k and what the open orders need there. */
  ghost function Slack(t: Tables, k: Key): int {
    ReadZone(t.zones, k).reserved - OpenQuantity(t.orders, k)
  }

  // Only a release lowers the slack; re-creating an order id over an open order raises it.
  lemma StepSlack(t: Tables, ev: Event, k: Key)
    requires NonNegative(t)
    ensures Slack(Step(t, ev), k) + EventFlow(t, ev, k).released >= Slack(t, k)
  {
    if Accepts(t, ev) {
      HandlerMeaning(t, ev);
      if ev.OrderCreated? {
        PutOrder(t.orders, ev.orderId, Order(Created, ev.items, Some(ev.ts), ev.ts), k);
        if k !in Touched(t, ev) {
          LineSumAbsent(ev.items, k);
        }
        if ev.orderId in t.orders {
          LineSumNonNegative(t.orders[ev.orderId].items, k);
        }
      } else if Fulfils(t, ev) {
        var o := t.orders[ev.orderId];
        PutOrder(t.orders, ev.orderId, o.(status := Completed, updatedAt := ev.ts), k);
        if k !in Touched(t, ev) {
          LineSumAbsent(o.items, k);
        }
      }
    }
  }

  /** Over every delivery sequence, reserved plus everything ever released covers the open orders. */
  lemma {:induction false} OpenOrdersCovered(evs: seq<Event>, k: Key)
    ensures ReadZone(Run(EMPTY, evs).zones, k).reserved + RunFlow(evs, k).released >= OpenQuantity(Run(EMPTY, evs).orders, k)
    decreases |evs|
  {
    if evs == [] {
      assert OpenLines(EMPTY.orders, k) == map[];
    } else {
      var front := evs[..|evs| - 1];
      OpenOrdersCovered(front, k);
      RunNonNegative(front);
      StepSlack(Run(EMPTY, front), evs[|evs| - 1], k);
    }
  }

  // Enough reserved for every line's whole key leaves staleness as the only possible fault.
  lemma {:induction false} CoveredFault(zones: Zones, items: seq<Line>, n: nat, ts: int)
    requires n <= |items| && LinesNonNegative(items)
    requires forall k :: LineSum(items, k) <= ReadZone(zones, k).reserved
    ensures CompleteFault(zones, items[..n], ts) in {None, Some(Skip)}
  {
    if n > 0 {
      CoveredFault(zones, items, n - 1, ts);
      assert items[..n][..n - 1] == items[..n - 1];
      PrefixSum(items, n, KeyOf(items[n - 1]));
    }
  }

  /** A completion runs short only if some key of that very order has seen a release. */
  lemma CompletionShortOnlyAfterRelease(evs: seq<Event>, ev: Event)
    requires ev.OrderCompleted? && Handle(Run(EMPTY, evs), ev) == Reject(Insufficient)
    ensures ev.orderId in Run(EMPTY, evs).orders
    ensures exists k :: k in DistinctKeys(Run(EMPTY, evs).orders[ev.orderId].items) && RunFlow(evs, k).released > 0
  {
    var t := Run(EMPTY, evs);
    var items := t.orders[ev.orderId].items;
    RunNonNegative(evs);
    if forall k :: k in DistinctKeys(items) ==> RunFlow(evs, k).released <= 0 {
      forall k ensures LineSum(items, k) <= ReadZone(t.zones, k).reserved {
        if k in DistinctKeys(items) {
          OpenOrdersCovered(evs, k);
          OpenOrderCounted(t, ev.orderId, k);
        } else {
          LineSumAbsent(items, k);
        }
      }
      CoveredNeverShort(t.zones, items, ev.ts);
    }
  }

  lemma CoveredNeverShort(zones: Zones, items: seq<Line>, ts: int)
    requires LinesNonNegative(items)
    requires forall k :: LineSum(items, k) <= ReadZone(zones, k).reserved
    ensures CompleteFault(zones, items, ts) != Some(Reject(Insufficient))
  {
    CoveredFault(zones, items, |items|, ts);
    assert items[..|items|] == items;
  }

  lemma OpenOrderCounted(t: Tables, id: string, k: Key)
    requires NonNegative(t) && id in t.orders && t.orders[id].status == Created
    ensures LineSum(t.orders[id].items, k) <= OpenQuantity(t.orders, k)
  {
    var open := OpenLines(t.orders, k);
    forall o | o in open ensures open[o] >= 0 {
      LineSumNonNegative(t.orders[o].items, k);
    }
    SumNonNegative(open);
    assert open[id] == LineSum(t.orders[id].items, k);
  }

  /** In runs without PRODUCT_RELEASED, a completion is never rejected for insufficient reserved quantity. */
  lemma CompletionNeverShort(evs: seq<Event>, ev: Event)
    requires forall i :: 0 <= i < |evs| ==> !evs[i].ProductReleased?
    requires ev.OrderCompleted?
    ensures Handle(Run(EMPTY, evs), ev) != Reject(Insufficient)
  {
    if Handle(Run(EMPTY, evs), ev) == Reject(Insufficient) {
      CompletionShortOnlyAfterRelease(evs, ev);
      var k :| RunFlow(evs, k).released > 0;
      NoReleaseEvents(evs, k);
    }
  }

  lemma {:induction false} NoReleaseEvents(evs: seq<Event>, k: Key)
    requires forall i :: 0 <= i < |evs| ==> !evs[i].ProductReleased?
    ensures RunFlow(evs, k).released == 0
    decreases |evs|
  {
    if evs != [] {
      var front := evs[..|evs| - 1];
      NoReleaseEvents(front, k);
      OtherEventsReleaseNothing(Run(EMPTY, front), evs[|evs| - 1], k);
    }
  }

  lemma OtherEventsReleaseNothing(t: Tables, ev: Event, k: Key)
    requires !ev.ProductReleased?
    ensures EventFlow(t, ev, k).released == 0
  {
  }

  lemma OnlyStale(zones: Zones, items: seq<Line>, ts: int)
    requires forall k :: k in DistinctKeys(items) ==> !IsStale(ts, ReadZone(zones, k).lastTs)
    ensures CompleteFault(zones, items, ts) in {None, Some(Reject(Insufficient))}
  {
    if items != [] {
      OnlyStale(zones, items[..|items| - 1], ts);
      DistinctKeysOnce(items);
    }
  }

  // No row of the order is as new as the completion, or newer.
  predicate NoneNewer(t: Tables, ev: Event)
    requires ev.OrderCompleted? && ev.orderId in t.orders
  {
    forall k :: k in DistinctKeys(t.orders[ev.orderId].items) ==> !IsStale(ev.ts, ReadZone(t.zones, k).lastTs)
  }

  lemma ShortExactly(t: Tables, ev: Event)
    requires NonNegative(t) && ev.OrderCompleted? && Fulfils(t, ev)
    requires NoneNewer(t, ev)
    ensures var items := t.orders[ev.orderId].items;
      Handle(t, ev) == Reject(Insufficient) <==>
      exists k :: k in DistinctKeys(items) && LineSum(items, k) > ReadZone(t.zones, k).reserved
  {
    var items := t.orders[ev.orderId].items;
    CompleteFaultExactly(t.zones, items, ev.ts);
    OnlyStale(t.zones, items, ev.ts);
  }

  /**
   * Over every delivery sequence, a completion of an open order with no newer row in its way runs short if and
   * only if some key has less reserved than the order's lines for it add up to.
   */
  lemma CompletionShortExactly(evs: seq<Event>, ev: Event)
    requires ev.OrderCompleted? && Fulfils(Run(EMPTY, evs), ev)
    requires NoneNewer(Run(EMPTY, evs), ev)
    ensures var t := Run(EMPTY, evs); var items := t.orders[ev.orderId].items;
      Handle(t, ev) == Reject(Insufficient) <==>
      exists k :: k in DistinctKeys(items) && LineSum(items, k) > ReadZone(t.zones, k).reserved
  {
    RunNonNegative(evs);
    ShortExactly(Run(EMPTY, evs), ev);
  }

  /** Over every delivery sequence, exactly when a completion is accepted. */
  lemma CompletionAcceptedExactly(evs: seq<Event>, ev: Event)
    requires ev.OrderCompleted?
    ensures var t := Run(EMPTY, evs);
      Accepts(t, ev) <==>
        && ev.orderId in t.orders
        && (t.orders[ev.orderId].status == Completed || Covered(t.zones, t.orders[ev.orderId].items, ev.ts))
  {
    var t := Run(EMPTY, evs);
    RunNonNegative(evs);
    if ev.orderId in t.orders {
      CompleteFaultExactly(t.zones, t.orders[ev.orderId].items, ev.ts);
    }
  }

  // ---------- Releases do strand orders ----------

  lemma OneLineOrder(l: Line)
    ensures DistinctKeys([l]) == [KeyOf(l)]
    ensures LineSum([l], KeyOf(l)) == l.quantity
  {
    assert [l][..0] == [];
  }

  lemma CreateOneLine(t: Tables, ev: Event, l: Line)
    requires ev.OrderCreated? && ev.items == [l] && KeyOf(l) in t.zones
    requires 0 <= l.quantity <= t.zones[KeyOf(l)].available && t.zones[KeyOf(l)].ts < ev.ts
    ensures Accepts(t, ev)
    ensures var r := t.zones[KeyOf(l)];
      Step(t, ev).zones == t.zones[KeyOf(l) := ZoneRow(r.available, r.reserved + l.quantity, ev.id, ev.ts, r.supplier)]
    ensures Step(t, ev).orders == t.orders[ev.orderId := Order(Created, [l], Some(ev.ts), ev.ts)]
  {
    CreateFaultFree(t.zones, [l], ev.ts);
    OneLineOrder(l);
    HandlerMeaning(t, ev);
    OneNewRow(t, ev, KeyOf(l));
  }

  lemma ReceiveFirst(t: Tables, ev: Event)
    requires ev.ProductReceived? && ev.quantity >= 0 && Key(ev.product, ev.zone) !in t.zones
    ensures Accepts(t, ev)
    ensures Step(t, ev).zones == t.zones[Key(ev.product, ev.zone) := ZoneRow(ev.quantity, 0, ev.id, ev.ts, ev.supplier)]
    ensures Step(t, ev).orders == t.orders
  {
    HandlerMeaning(t, ev);
    OneNewRow(t, ev, Key(ev.product, ev.zone));
  }

  lemma ReleaseAll(t: Tables, ev: Event)
    requires ev.ProductReleased? && ev.quantity >= 0 && Key(ev.product, ev.zone) in t.zones
    requires var r := t.zones[Key(ev.product, ev.zone)]; r.reserved == ev.quantity && r.ts < ev.ts
    ensures Accepts(t, ev)
    ensures var r := t.zones[Key(ev.product, ev.zone)];
      Step(t, ev).zones
      == t.zones[Key(ev.product, ev.zone) := ZoneRow(r.available + ev.quantity, 0, ev.id, ev.ts, r.supplier)]
    ensures Step(t, ev).orders == t.orders
  {
    HandlerMeaning(t, ev);
    OneNewRow(t, ev, Key(ev.product, ev.zone));
  }

  lemma OneLineFault(zones: Zones, l: Line, ts: int)
    ensures CompleteFault(zones, [l], ts)
         == if IsStale(ts, ReadZone(zones, KeyOf(l)).lastTs) then Some(Skip)
            else if ReadZone(zones, KeyOf(l)).reserved < l.quantity then Some(Reject(Insufficient)) else None
  {
    assert [l][..0] == [];
  }

  const E1 := ProductReceived("e1", 1, "p", "z", 5, None)
  const E2 := OrderCreated("e2", 2, "o", [Line("p", "z", 5)])
  const E3 := ProductReleased("e3", 3, "p", "z", 5)
  const E4 := OrderCompleted("e4", 4, "o")

  lemma StrandedStart() returns (t: Tables)
    ensures Clean(EMPTY, [E1, E2, E3]) && t == Run(EMPTY, [E1, E2, E3])
    ensures Key("p", "z") in t.zones && t.zones[Key("p", "z")] == ZoneRow(5 + 5, 0, "e3", 3, None)
    ensures "o" in t.orders && t.orders["o"] == Order(Created, [Line("p", "z", 5)], Some(2), 2)
  {
    var t1 := Step(EMPTY, E1);
    var t2 := Step(t1, E2);
    t := Step(t2, E3);
    ReceiveFirst(EMPTY, E1);
    CreateOneLine(t1, E2, Line("p", "z", 5));
    ReleaseAll(t2, E3);
    RunThree(E1, E2, E3);
  }

  /** A release can take an open order's reservation; its completion is then rejected. */
  lemma ReleaseStrandsOrder()
    ensures Clean(EMPTY, [E1, E2, E3])
    ensures Handle(Run(EMPTY, [E1, E2, E3]), E4) == Reject(Insufficient)
  {
    var t := StrandedStart();
    OneLineFault(t.zones, Line("p", "z", 5), 4);
  }

  lemma RunThree(a: Event, b: Event, c: Event)
    ensures Run(EMPTY, [a, b, c]) == Step(Step(Step(EMPTY, a), b), c)
    ensures Clean(EMPTY, [a, b, c]) <==>
      Accepts(EMPTY, a) && Accepts(Step(EMPTY, a), b) && Accepts(Step(Step(EMPTY, a), b), c)
  {
    RunSnoc(EMPTY, [], a);
    RunSnoc(EMPTY, [a], b);
    RunSnoc(EMPTY, [a, b], c);
    assert [] + [a] == [a] && [a] + [b] == [a, b] && [a, b] + [c] == [a, b, c];
  }
}
