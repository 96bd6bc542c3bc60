/**
 * An event handled while earlier batches are still landing: what its batch does to the tables they settle on,
 * and exactly when that is what handling it on the settled tables would have done.
 */
module LateBatches {
  import opened MapSums
  import opened Warehouse
  import opened Handlers
  import opened Effects
  import opened Ledger
  import opened Store

  /** The order rows after the order write of ev, handled on t, reaches other tables. */
  function OrdersOver(orders: map<string, Order>, t: Tables, ev: Event): map<string, Order> {
    if ev.OrderCreated? || Fulfils(t, ev) then ApplyWrite(EMPTY.(orders := orders), OrderWrite(ev)).orders else orders
  }

  ghost predicate Lands(base: Tables, t: Tables, ev: Event, t': Tables) {
    && t'.zones == base.zones + NewRows(t, ev)
    && t'.orders == OrdersOver(base.orders, t, ev)
    && t'.history == ApplyWrite(base, HistoryOf(ev)).history
    && (Agree(base) ==> Agree(t'))
  }

  lemma PutRowsTouched(base: Tables, t: Tables, ev: Event, k: Key)
    requires Touched(t, ev) == {k}
    ensures base.zones + NewRows(t, ev) == base.zones[k := NewRow(t, ev, k)]
  {
  }

  lemma OneRowLands(base: Tables, t: Tables, ev: Event)
    requires IsProductEvent(ev) && !ev.ProductMoved? && Accepts(t, ev)
    ensures Lands(base, t, ev, ApplyAll(base, Handle(t, ev).ops))
  {
    var tail := ProductOps(t, ev);
    var k := Key(ev.product, ev.zone);
    PutRowsTouched(base, t, ev, k);
    OneRowApply(base, k, NewRow(t, ev, k), tail);
  }

  lemma PutTwoTouched(base: Tables, t: Tables, ev: Event, k1: Key, k2: Key)
    requires Touched(t, ev) == {k1, k2}
    ensures base.zones + NewRows(t, ev) == base.zones[k1 := NewRow(t, ev, k1)][k2 := NewRow(t, ev, k2)]
  {
  }

  lemma TwoRowsPut(base: Tables, k1: Key, r1: ZoneRow, k2: Key, r2: ZoneRow, history: Write)
    requires history.InsertHistory?
    ensures var t' := ApplyWrite(PutRow(PutRow(base, k1, r1), k2, r2), history);
      && t'.zones == base.zones[k1 := r1][k2 := r2] && t'.orders == base.orders
      && t'.history == ApplyWrite(base, history).history
  {
  }

  lemma MoveLands(base: Tables, t: Tables, ev: Event)
    requires ev.ProductMoved? && Accepts(t, ev)
    ensures Lands(base, t, ev, ApplyAll(base, Handle(t, ev).ops))
  {
    var tail := ProductOps(t, ev);
    var k1, k2 := Key(ev.product, ev.fromZone), Key(ev.product, ev.toZone);
    var r1, r2 := NewRow(t, ev, k1), NewRow(t, ev, k2);
    PutTwoTouched(base, t, ev, k1, k2);
    TwoRowsApply(base, k1, r1, k2, r2, tail);
    TwoRowsPut(base, k1, r1, k2, r2, tail);
  }

  lemma {:induction false} PutRowsKeepHistory(t: Tables, zones: Zones, items: seq<Line>, dir: Direction, ev: Event, keys: seq<Key>)
    ensures PutOrderRows(t, zones, items, dir, ev, keys).history == t.history
    decreases |keys|
  {
    if keys != [] {
      PutRowsKeepHistory(t, zones, items, dir, ev, keys[..|keys| - 1]);
    }
  }

  lemma OrderRowsLand(base: Tables, t: Tables, ev: Event, items: seq<Line>, dir: Direction)
    requires ev.OrderCreated? || Fulfils(t, ev)
    requires ev.OrderCreated? ==> items == ev.items && dir == Reserving
    requires ev.OrderCompleted? ==> items == t.orders[ev.orderId].items && dir == Fulfilling
    ensures var t1 := PutOrderRows(base, t.zones, items, dir, ev, DistinctKeys(items));
      && t1.zones == base.zones + NewRows(t, ev) && t1.orders == base.orders && t1.history == base.history
      && (Agree(base) ==> Agree(t1))
  {
    var keys := DistinctKeys(items);
    var t1 := PutOrderRows(base, t.zones, items, dir, ev, keys);
    OrderRowsPut(base, t.zones, items, dir, ev, keys);
    PutRowsKeepHistory(base, t.zones, items, dir, ev, keys);
    forall k ensures k in t1.zones <==> k in base.zones + NewRows(t, ev)
             ensures k in t1.zones ==> t1.zones[k] == (base.zones + NewRows(t, ev))[k]
    {
      OrderNewRow(t, ev, items, dir, k);
    }
  }

  lemma OrderColumnOnly(a: Tables, b: Tables, row: Write)
    requires a.orders == b.orders
    ensures ApplyWrite(a, row).orders == ApplyWrite(b, row).orders
  {
  }

  lemma TwoMoreLand(base: Tables, t1: Tables, row: Write, history: Write)
    requires OffInventory(row) && !row.InsertHistory? && history.InsertHistory?
    requires t1.orders == base.orders && t1.history == base.history
    ensures var t' := ApplyWrite(ApplyWrite(t1, row), history);
      && t'.zones == t1.zones && t'.orders == ApplyWrite(base, row).orders && t'.history == ApplyWrite(base, history).history
      && (Agree(t1) ==> Agree(t'))
  {
    OrderColumnOnly(t1, base, row);
    if Agree(t1) {
      OffInventoryAgrees(t1, row);
      OffInventoryAgrees(ApplyWrite(t1, row), history);
    }
  }

  lemma OrderRowsThenOrder(base: Tables, t: Tables, ev: Event, items: seq<Line>, dir: Direction)
    requires ev.OrderCreated? || Fulfils(t, ev)
    requires ev.OrderCreated? ==> items == ev.items && dir == Reserving
    requires ev.OrderCompleted? ==> items == t.orders[ev.orderId].items && dir == Fulfilling
    ensures var t1 := PutOrderRows(base, t.zones, items, dir, ev, DistinctKeys(items));
      Lands(base, t, ev, ApplyWrite(ApplyWrite(t1, OrderWrite(ev)), HistoryOf(ev)))
  {
    var t1 := PutOrderRows(base, t.zones, items, dir, ev, DistinctKeys(items));
    OrderRowsLand(base, t, ev, items, dir);
    TwoMoreLand(base, t1, OrderWrite(ev), HistoryOf(ev));
    OrderColumnOnly(base, EMPTY.(orders := base.orders), OrderWrite(ev));
  }

  lemma OrderLands(base: Tables, t: Tables, ev: Event)
    requires Accepts(t, ev) && (ev.OrderCreated? || Fulfils(t, ev))
    ensures Lands(base, t, ev, ApplyAll(base, Handle(t, ev).ops))
  {
    var items, dir, row := OrderOps(t, ev);
    OrderRowsThenOrder(base, t, ev, items, dir);
    WriteListLands(base, t.zones, items, dir, ev, row, HistoryOf(ev));
  }

  lemma WriteListLands(base: Tables, zones: Zones, items: seq<Line>, dir: Direction, ev: Event, row: Write, history: Write)
    ensures ApplyAll(base, OrderZoneWrites(zones, items, dir, ev, DistinctKeys(items)) + [row, history])
         == ApplyWrite(ApplyWrite(PutOrderRows(base, zones, items, dir, ev, DistinctKeys(items)), row), history)
  {
    var keys := DistinctKeys(items);
    OrderZoneWritesPut(base, zones, items, dir, ev, keys);
    ApplyConcat(base, OrderZoneWrites(zones, items, dir, ev, keys), [row, history]);
    ApplyTwo(PutOrderRows(base, zones, items, dir, ev, keys), row, history);
  }

  lemma HistoryLands(base: Tables, t: Tables, ev: Event)
    requires Accepts(t, ev) && ev.OrderCompleted? && !Fulfils(t, ev)
    ensures Lands(base, t, ev, ApplyAll(base, Handle(t, ev).ops))
  {
    ApplyOne(base, HistoryWrite(ev, None, None, 0));
    assert NewRows(t, ev) == map[];
    if Agree(base) {
      OffInventoryAgrees(base, HistoryWrite(ev, None, None, 0));
    }
  }

  /** What the batch of ev, built from what t shows, makes of any tables it lands on. */
  lemma BatchLands(base: Tables, t: Tables, ev: Event)
    requires Accepts(t, ev)
    ensures Lands(base, t, ev, ApplyAll(base, Handle(t, ev).ops))
  {
    if ev.OrderCreated? || Fulfils(t, ev) {
      OrderLands(base, t, ev);
    } else if ev.OrderCompleted? {
      HistoryLands(base, t, ev);
    } else if ev.ProductMoved? {
      MoveLands(base, t, ev);
    } else {
      OneRowLands(base, t, ev);
    }
  }

  // ---------- Exactly when handling early is handling late ----------

  /** Handled on the settled tables too, ev is accepted and would leave the same rows and the same order there. */
  predicate SameEffect(visible: Tables, settled: Tables, ev: Event) {
    && Accepts(settled, ev)
    && settled.zones + NewRows(visible, ev) == settled.zones + NewRows(settled, ev)
    && OrdersOver(settled.orders, visible, ev) == OrdersOver(settled.orders, settled, ev)
  }

  lemma AgreeingTables(a: Tables, b: Tables)
    requires Agree(a) && Agree(b) && a.zones == b.zones && a.orders == b.orders && a.history == b.history
    ensures a == b
  {
    forall k: Key ensures (k in a.byProduct <==> k in b.byProduct) && (k in a.byProduct ==> a.byProduct[k] == b.byProduct[k]) {
      assert InSync(a, k) && InSync(b, k);
    }
    forall i: IndexKey ensures (i in a.byZone <==> i in b.byZone) && (i in a.byZone ==> a.byZone[i] == b.byZone[i]) {
      assert InSync(a, Key(i.product, i.zone)) && InSync(b, Key(i.product, i.zone));
    }
    assert a.byProduct == b.byProduct && a.byZone == b.byZone;
  }

  /**
   * A batch built from what is visible settles into what handling the event on the settled tables would have
   * given, accepted there, if and only if it has the same effect.
   */
  lemma EarlyIsLateExactly(visible: Tables, settled: Tables, ev: Event)
    requires Accepts(visible, ev) && Agree(settled)
    ensures Accepts(settled, ev) && ApplyAll(settled, Handle(visible, ev).ops) == Step(settled, ev)
            <==> SameEffect(visible, settled, ev)
  {
    if Accepts(settled, ev) {
      BatchLands(settled, visible, ev);
      BatchLands(settled, settled, ev);
      if SameEffect(visible, settled, ev) {
        AgreeingTables(ApplyAll(settled, Handle(visible, ev).ops), Step(settled, ev));
      }
    }
  }

  lemma SameOverlay(zones: Zones, a: Zones, b: Zones)
    requires a.Keys == b.Keys
    ensures zones + a == zones + b <==> a == b
  {
    if zones + a == zones + b {
      forall k | k in a ensures a[k] == b[k] {
        assert (zones + a)[k] == a[k] && (zones + b)[k] == b[k];
      }
    }
  }

  lemma SameRowsExactly(visible: Tables, settled: Tables, ev: Event)
    requires Touched(visible, ev) == Touched(settled, ev)
    ensures NewRows(visible, ev) == NewRows(settled, ev) <==>
      forall k :: k in Touched(settled, ev) ==> NewRow(visible, ev, k) == NewRow(settled, ev, k)
  {
    var a, b := NewRows(visible, ev), NewRows(settled, ev);
    if a == b {
      forall k | k in Touched(settled, ev) ensures NewRow(visible, ev, k) == NewRow(settled, ev, k) {
        assert a[k] == b[k];
      }
    }
  }

  /** For every event but a completion, that means each of its rows comes out the same. */
  lemma SameEffectByRows(visible: Tables, settled: Tables, ev: Event)
    requires !ev.OrderCompleted?
    ensures SameEffect(visible, settled, ev) <==>
      Accepts(settled, ev) && forall k :: k in Touched(settled, ev) ==> NewRow(visible, ev, k) == NewRow(settled, ev, k)
  {
    assert Touched(visible, ev) == Touched(settled, ev);
    SameRowsExactly(visible, settled, ev);
    SameOverlay(settled.zones, NewRows(visible, ev), NewRows(settled, ev));
  }

  // ---------- The fields that have to agree ----------

  /** One row of an event that is no completion: what its new row keeps of the old one has to be settled already. */
  predicate FieldsAgree(visible: Tables, settled: Tables, ev: Event, k: Key) {
    var v, s := ReadZone(visible.zones, k), ReadZone(settled.zones, k);
    && !IsStale(ev.ts, s.lastTs)
    && v.reserved == s.reserved
    && (ev.InventoryCounted? || v.available == s.available)
    && ((ev.ProductReceived? && ev.supplier.Some?) || v.supplier == s.supplier)
  }

  lemma AgreeingRows(visible: Tables, settled: Tables, ev: Event, k: Key)
    requires !ev.OrderCompleted? && k in Touched(settled, ev) && !IsStale(ev.ts, ReadZone(settled.zones, k).lastTs)
    ensures FieldsAgree(visible, settled, ev, k) <==> NewRow(visible, ev, k) == NewRow(settled, ev, k)
  {
  }

  lemma CreationFits(visible: Tables, settled: Tables, ev: Event)
    requires ev.OrderCreated? && Accepts(visible, ev) && forall k :: k in Touched(settled, ev) ==> FieldsAgree(visible, settled, ev, k)
    ensures Accepts(settled, ev)
  {
    CreateFaultFree(visible.zones, ev.items, ev.ts);
    CreateFaultFree(settled.zones, ev.items, ev.ts);
    DistinctKeysOnce(ev.items);
    forall i | 0 <= i < |ev.items| ensures FieldsAgree(visible, settled, ev, KeyOf(ev.items[i])) {
      assert KeyOf(ev.items[i]) in Touched(settled, ev);
    }
  }

  lemma ProductFits(visible: Tables, settled: Tables, ev: Event)
    requires IsProductEvent(ev) && Accepts(visible, ev) && forall k :: k in Touched(settled, ev) ==> FieldsAgree(visible, settled, ev, k)
    ensures Accepts(settled, ev)
  {
    if ev.ProductMoved? {
      assert Key(ev.product, ev.fromZone) in Touched(settled, ev) && Key(ev.product, ev.toZone) in Touched(settled, ev);
    } else {
      assert Key(ev.product, ev.zone) in Touched(settled, ev);
    }
  }

  lemma AcceptedIsNotStale(t: Tables, ev: Event, k: Key)
    requires Accepts(t, ev) && k in Touched(t, ev)
    ensures !IsStale(ev.ts, ReadZone(t.zones, k).lastTs)
  {
    AcceptedIsFresh(t, ev, k);
  }

  /**
   * An accepted event that is no completion has the same effect if and only if, at each of its rows, the settled
   * row is older than the event and agrees with the visible one in every field that the new row keeps.
   */
  lemma SameEffectByFields(visible: Tables, settled: Tables, ev: Event)
    requires !ev.OrderCompleted? && Accepts(visible, ev)
    ensures SameEffect(visible, settled, ev) <==> forall k :: k in Touched(settled, ev) ==> FieldsAgree(visible, settled, ev, k)
  {
    SameEffectByRows(visible, settled, ev);
    if SameEffect(visible, settled, ev) {
      forall k | k in Touched(settled, ev) ensures FieldsAgree(visible, settled, ev, k) {
        AcceptedIsNotStale(settled, ev, k);
        AgreeingRows(visible, settled, ev, k);
      }
    }
    if forall k :: k in Touched(settled, ev) ==> FieldsAgree(visible, settled, ev, k) {
      if ev.OrderCreated? {
        CreationFits(visible, settled, ev);
      } else {
        ProductFits(visible, settled, ev);
      }
      forall k | k in Touched(settled, ev) ensures NewRow(visible, ev, k) == NewRow(settled, ev, k) {
        AgreeingRows(visible, settled, ev, k);
      }
    }
  }

  // What an order row looks like in any run: an order is stored with lines, none of them negative.
  ghost predicate Stored(orders: map<string, Order>, id: string) {
    id in orders ==> LinesNonNegative(orders[id].items) && (orders[id].status == Created ==> orders[id].items != [])
  }

  // No row carries the event's id yet.
  predicate Unseen(t: Tables, ev: Event) {
    forall k :: k in t.zones ==> t.zones[k].eventId != ev.id
  }

  /** One row of a completion: the settled row is older, agrees, and leaves as much reserved once the order's own share is gone. */
  predicate SharesAgree(visible: Tables, settled: Tables, ev: Event, k: Key)
    requires ev.OrderCompleted? && ev.orderId in visible.orders && ev.orderId in settled.orders
  {
    var v, s := ReadZone(visible.zones, k), ReadZone(settled.zones, k);
    && !IsStale(ev.ts, s.lastTs)
    && v.available == s.available && v.supplier == s.supplier
    && v.reserved - LineSum(visible.orders[ev.orderId].items, k) == s.reserved - LineSum(settled.orders[ev.orderId].items, k)
  }

  predicate CompletionsAgree(visible: Tables, settled: Tables, ev: Event)
    requires ev.OrderCompleted? && ev.orderId in visible.orders
  {
    && ev.orderId in settled.orders
    && settled.orders[ev.orderId].status == visible.orders[ev.orderId].status
    && (Fulfils(visible, ev) ==>
          Touched(visible, ev) == Touched(settled, ev)
          && forall k :: k in Touched(settled, ev) ==> SharesAgree(visible, settled, ev, k))
  }

  lemma AgreeingShares(visible: Tables, settled: Tables, ev: Event, k: Key)
    requires Fulfils(visible, ev) && Fulfils(settled, ev) && !IsStale(ev.ts, ReadZone(settled.zones, k).lastTs)
    ensures SharesAgree(visible, settled, ev, k) <==> NewRow(visible, ev, k) == NewRow(settled, ev, k)
  {
  }

  // Both tables are left with the same rows, so both write the same keys: no row has the event's id before.
  lemma SameOverlayKeys(visible: Tables, settled: Tables, ev: Event, other: Zones)
    requires Unseen(settled, ev) && settled.zones + NewRows(visible, ev) == settled.zones + other
    ensures Touched(visible, ev) <= other.Keys
  {
    forall k | k in Touched(visible, ev) ensures k in other {
      assert (settled.zones + NewRows(visible, ev))[k].eventId == ev.id;
      assert k in settled.zones + other;
    }
  }

  lemma SameKeysNeeded(visible: Tables, settled: Tables, ev: Event)
    requires Unseen(settled, ev) && settled.zones + NewRows(visible, ev) == settled.zones + NewRows(settled, ev)
    ensures Touched(visible, ev) == Touched(settled, ev)
  {
    SameOverlayKeys(visible, settled, ev, NewRows(settled, ev));
    forall k | k in Touched(settled, ev) ensures k in Touched(visible, ev) {
      assert (settled.zones + NewRows(settled, ev))[k].eventId == ev.id;
      assert k in settled.zones + NewRows(visible, ev);
    }
  }

  lemma FulfilledHasKeys(t: Tables, ev: Event)
    requires Fulfils(t, ev) && t.orders[ev.orderId].items != []
    ensures Touched(t, ev) != {}
  {
    var items := t.orders[ev.orderId].items;
    DistinctKeysOnce(items);
    assert KeyOf(items[0]) in Touched(t, ev);
  }

  lemma CompletionFits(visible: Tables, settled: Tables, ev: Event)
    requires ev.OrderCompleted? && Accepts(visible, ev) && CompletionsAgree(visible, settled, ev) && Stored(settled.orders, ev.orderId)
    ensures Accepts(settled, ev)
  {
    if Fulfils(visible, ev) {
      var items := settled.orders[ev.orderId].items;
      CompleteFaultFree(visible.zones, visible.orders[ev.orderId].items, ev.ts);
      forall k | k in DistinctKeys(items)
        ensures !IsStale(ev.ts, ReadZone(settled.zones, k).lastTs) && LineSum(items, k) <= ReadZone(settled.zones, k).reserved
      {
        assert k in Touched(settled, ev) && k in Touched(visible, ev);
        assert SharesAgree(visible, settled, ev, k);
      }
      CompleteFaultExactly(settled.zones, items, ev.ts);
    }
  }

  lemma AgreeingCompletions(visible: Tables, settled: Tables, ev: Event)
    requires ev.OrderCompleted? && Accepts(visible, ev) && CompletionsAgree(visible, settled, ev) && Stored(settled.orders, ev.orderId)
    ensures SameEffect(visible, settled, ev)
  {
    CompletionFits(visible, settled, ev);
    if Fulfils(visible, ev) {
      forall k | k in Touched(settled, ev) ensures NewRow(visible, ev, k) == NewRow(settled, ev, k) {
        AgreeingShares(visible, settled, ev, k);
      }
      SameRowsExactly(visible, settled, ev);
    } else {
      assert NewRows(visible, ev) == map[] == NewRows(settled, ev);
    }
  }

  lemma SameEffectAgrees(visible: Tables, settled: Tables, ev: Event)
    requires ev.OrderCompleted? && Accepts(visible, ev) && Unseen(settled, ev) && SameEffect(visible, settled, ev)
    requires Stored(visible.orders, ev.orderId) && Stored(settled.orders, ev.orderId)
    ensures CompletionsAgree(visible, settled, ev)
  {
    SameKeysNeeded(visible, settled, ev);
    if Fulfils(visible, ev) {
      FulfilledHasKeys(visible, ev);
      SameRowsExactly(visible, settled, ev);
      SameOverlay(settled.zones, NewRows(visible, ev), NewRows(settled, ev));
      forall k | k in Touched(settled, ev) ensures SharesAgree(visible, settled, ev, k) {
        AcceptedIsNotStale(settled, ev, k);
        AgreeingShares(visible, settled, ev, k);
      }
    } else if Fulfils(settled, ev) {
      FulfilledHasKeys(settled, ev);
    }
  }

  /**
   * An accepted completion, new to the settled rows, has the same effect if and only if the order has the same
   * status in both tables and, where it is open, the same keys, each with a settled row that agrees.
   */
  lemma CompletionSameEffectExactly(visible: Tables, settled: Tables, ev: Event)
    requires ev.OrderCompleted? && Accepts(visible, ev) && Unseen(settled, ev)
    requires Stored(visible.orders, ev.orderId) && Stored(settled.orders, ev.orderId)
    ensures SameEffect(visible, settled, ev) <==> CompletionsAgree(visible, settled, ev)
  {
    if CompletionsAgree(visible, settled, ev) {
      AgreeingCompletions(visible, settled, ev);
    }
    if SameEffect(visible, settled, ev) {
      SameEffectAgrees(visible, settled, ev);
    }
  }

  lemma ClearHasSameEffect(bs: seq<Batch>, ev: Event)
    requires Clear(bs, ev) && Accepts(Visible(bs), ev)
    ensures Accepts(Settled(bs), ev) && ApplyAll(Settled(bs), Handle(Visible(bs), ev).ops) == Step(Settled(bs), ev)
  {
    ClearSeesSettled(bs, ev);
  }
}
