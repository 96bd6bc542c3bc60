/** What happens when an applied event is delivered again after its processed-id row has expired. */
module Redelivery {
  import opened MapSums
  import opened Warehouse
  import opened Handlers
  import opened Effects
  import opened Ledger
  import opened OpenOrders

  lemma TimestampsGrow(t: Tables, ev: Event, k: Key)
    requires k in t.zones
    ensures k in Step(t, ev).zones && t.zones[k].ts <= Step(t, ev).zones[k].ts
  {
    if Accepts(t, ev) {
      HandlerMeaning(t, ev);
      if k in Touched(t, ev) {
        AcceptedIsFresh(t, ev, k);
      }
    }
  }

  lemma RowJustWritten(t: Tables, ev: Event, k: Key)
    requires Accepts(t, ev) && k in Touched(t, ev)
    ensures k in Step(t, ev).zones && Step(t, ev).zones[k].ts == ev.ts
  {
    HandlerMeaning(t, ev);
  }

  lemma RunTo(evs: seq<Event>, n: nat)
    requires 0 < n <= |evs|
    ensures Run(EMPTY, evs[..n]) == Step(Run(EMPTY, evs[..n - 1]), evs[n - 1])
  {
    assert evs[..n][..n - 1] == evs[..n - 1];
  }

  // The row an accepted event wrote keeps at least that event's timestamp for ever after.
  lemma {:induction false} RowStaysFresh(evs: seq<Event>, i: nat, n: nat, k: Key)
    requires Clean(EMPTY, evs) && i < n <= |evs|
    requires k in Touched(Run(EMPTY, evs[..i]), evs[i])
    ensures k in Run(EMPTY, evs[..n]).zones && evs[i].ts <= Run(EMPTY, evs[..n]).zones[k].ts
    decreases n
  {
    RunTo(evs, n);
    if n == i + 1 {
      CleanPrefix(evs, n);
      RowJustWritten(Run(EMPTY, evs[..i]), evs[i], k);
    } else {
      RowStaysFresh(evs, i, n - 1, k);
      TimestampsGrow(Run(EMPTY, evs[..n - 1]), evs[n - 1], k);
    }
  }

  lemma {:induction false} CleanPrefix(evs: seq<Event>, n: nat)
    requires Clean(EMPTY, evs) && 0 < n <= |evs|
    ensures Accepts(Run(EMPTY, evs[..n - 1]), evs[n - 1])
    decreases |evs|
  {
    if n < |evs| {
      var front := evs[..|evs| - 1];
      CleanPrefix(front, n);
      assert front[..n - 1] == evs[..n - 1];
    }
  }

  // Every accepted event but a completion has a row of its own.
  function SomeKey(ev: Event): Key
    requires !ev.OrderCompleted? && (ev.OrderCreated? ==> ev.items != [])
  {
    if ev.OrderCreated? then KeyOf(ev.items[0])
    else if ev.ProductMoved? then Key(ev.product, ev.fromZone)
    else Key(ev.product, ev.zone)
  }

  lemma SomeKeyTouched(t: Tables, ev: Event)
    requires !ev.OrderCompleted? && Accepts(t, ev)
    ensures ev.OrderCreated? ==> ev.items != []
    ensures SomeKey(ev) in Touched(t, ev)
  {
    if ev.OrderCreated? {
      DistinctKeysOnce(ev.items);
    }
  }

  lemma StaleIsRefused(t: Tables, ev: Event)
    requires !ev.OrderCompleted? && (ev.OrderCreated? ==> ev.items != [])
    requires SomeKey(ev) in t.zones && ev.ts <= t.zones[SomeKey(ev)].ts
    ensures !Accepts(t, ev)
  {
    if ev.OrderCreated? {
      CreateFaultFree(t.zones, ev.items, ev.ts);
    }
  }

  // ---------- Completions: the order's status does the work ----------

  lemma {:induction false} OrdersComeFromCreations(evs: seq<Event>, id: string)
    requires id in Run(EMPTY, evs).orders
    ensures exists i :: 0 <= i < |evs| && evs[i].OrderCreated? && evs[i].orderId == id
    decreases |evs|
  {
    if evs != [] {
      var front, last := evs[..|evs| - 1], evs[|evs| - 1];
      if Accepts(Run(EMPTY, front), last) {
        HandlerMeaning(Run(EMPTY, front), last);
      }
      if last.OrderCreated? && last.orderId == id {
        assert evs[|evs| - 1] == last;
      } else {
        OrdersComeFromCreations(front, id);
        var i :| 0 <= i < |front| && front[i].OrderCreated? && front[i].orderId == id;
        assert evs[i] == front[i];
      }
    }
  }

  ghost predicate CreatedOnce(evs: seq<Event>, id: string) {
    forall i, j :: 0 <= i < j < |evs| && evs[i].OrderCreated? && evs[j].OrderCreated? ==>
      evs[i].orderId != id || evs[j].orderId != id
  }

  lemma StaysCompleted(t: Tables, ev: Event, id: string)
    requires id in t.orders && t.orders[id].status == Completed
    requires !(ev.OrderCreated? && ev.orderId == id)
    ensures id in Step(t, ev).orders && Step(t, ev).orders[id].status == Completed
  {
    if Accepts(t, ev) {
      HandlerMeaning(t, ev);
    }
  }

  lemma JustCompleted(t: Tables, ev: Event)
    requires ev.OrderCompleted? && Accepts(t, ev)
    ensures ev.orderId in t.orders
    ensures ev.orderId in Step(t, ev).orders && Step(t, ev).orders[ev.orderId].status == Completed
  {
    HandlerMeaning(t, ev);
  }

  lemma {:induction false} CompletedForGood(evs: seq<Event>, i: nat, n: nat)
    requires Clean(EMPTY, evs) && i < n <= |evs|
    requires evs[i].OrderCompleted? && CreatedOnce(evs, evs[i].orderId)
    ensures var t := Run(EMPTY, evs[..n]);
      evs[i].orderId in t.orders && t.orders[evs[i].orderId].status == Completed
    decreases n
  {
    var id := evs[i].orderId;
    RunTo(evs, n);
    CleanPrefix(evs, i + 1);
    JustCompleted(Run(EMPTY, evs[..i]), evs[i]);
    if n > i + 1 {
      CompletedForGood(evs, i, n - 1);
      OrdersComeFromCreations(evs[..i], id);
      StaysCompleted(Run(EMPTY, evs[..n - 1]), evs[n - 1], id);
    }
  }

  // Inventory and orders as they were; only the event history may differ.
  predicate SameButHistory(t: Tables, t': Tables) {
    t'.zones == t.zones && t'.byProduct == t.byProduct && t'.byZone == t.byZone && t'.orders == t.orders
  }

  lemma CompletedAgain(t: Tables, ev: Event)
    requires ev.OrderCompleted? && ev.orderId in t.orders && t.orders[ev.orderId].status == Completed
    ensures SameButHistory(t, Step(t, ev))
  {
    ApplyOne(t, HistoryWrite(ev, None, None, 0));
  }

  /**
   * An event that was applied leaves every inventory and order row unchanged when it is applied
   * again, at any later time; for a completion, as long as its order id was created only once.
   */
  lemma RedeliveryIsHarmless(evs: seq<Event>, i: nat)
    requires Clean(EMPTY, evs) && i < |evs|
    requires evs[i].OrderCompleted? ==> CreatedOnce(evs, evs[i].orderId)
    ensures SameButHistory(Run(EMPTY, evs), Step(Run(EMPTY, evs), evs[i]))
  {
    assert evs[..|evs|] == evs;
    if evs[i].OrderCompleted? {
      CompletedForGood(evs, i, |evs|);
      CompletedAgain(Run(EMPTY, evs), evs[i]);
    } else {
      CleanPrefix(evs, i + 1);
      SomeKeyTouched(Run(EMPTY, evs[..i]), evs[i]);
      RowStaysFresh(evs, i, |evs|, SomeKey(evs[i]));
      StaleIsRefused(Run(EMPTY, evs), evs[i]);
    }
  }

  /** A completion, delivered at all, changes rows if and only if its order is open and every key of it is covered. */
  lemma CompletionChangesExactly(t: Tables, ev: Event)
    requires ev.OrderCompleted? && NonNegative(t)
    ensures !SameButHistory(t, Step(t, ev)) <==> Fulfils(t, ev) && Covered(t.zones, t.orders[ev.orderId].items, ev.ts)
  {
    if ev.orderId in t.orders {
      CompleteFaultExactly(t.zones, t.orders[ev.orderId].items, ev.ts);
    }
    if Accepts(t, ev) {
      HandlerMeaning(t, ev);
      if Fulfils(t, ev) {
        assert Step(t, ev).orders[ev.orderId].status == Completed;
      } else {
        CompletedAgain(t, ev);
      }
    }
  }

  // ---------- A re-created order id breaks it ----------

  const R1 := ProductReceived("r1", 1, "p", "a", 5, None)
  const R2 := ProductReceived("r2", 1, "p", "b", 5, None)
  const C1 := OrderCreated("c1", 2, "o", [Line("p", "a", 5)])
  const D1 := OrderCompleted("d1", 4, "o")
  const C2 := OrderCreated("c2", 3, "o", [Line("p", "b", 5)])

  lemma CompleteOneLine(t: Tables, ev: Event, l: Line)
    requires Fulfils(t, ev) && t.orders[ev.orderId].items == [l] && KeyOf(l) in t.zones
    requires l.quantity <= t.zones[KeyOf(l)].reserved && t.zones[KeyOf(l)].ts < ev.ts
    ensures Accepts(t, ev)
    ensures var r := t.zones[KeyOf(l)];
      Step(t, ev).zones == t.zones[KeyOf(l) := ZoneRow(r.available, r.reserved - l.quantity, ev.id, ev.ts, r.supplier)]
    ensures Step(t, ev).orders == NewOrders(t, ev)
  {
    OneLineFault(t.zones, l, ev.ts);
    OneLineOrder(l);
    HandlerMeaning(t, ev);
    OneNewRow(t, ev, KeyOf(l));
  }

  lemma ReopenedStart() returns (t: Tables)
    ensures t == Run(EMPTY, [R1, R2, C1]) && Clean(EMPTY, [R1, R2, C1])
    ensures Key("p", "a") in t.zones && t.zones[Key("p", "a")] == ZoneRow(5, 5, "c1", 2, None)
    ensures Key("p", "b") in t.zones && t.zones[Key("p", "b")] == ZoneRow(5, 0, "r2", 1, None)
    ensures "o" in t.orders && t.orders["o"] == Order(Created, [Line("p", "a", 5)], Some(2), 2)
  {
    var t1 := Step(EMPTY, R1);
    var t2 := Step(t1, R2);
    t := Step(t2, C1);
    ReceiveFirst(EMPTY, R1);
    ReceiveFirst(t1, R2);
    CreateOneLine(t2, C1, Line("p", "a", 5));
    RunThree(R1, R2, C1);
  }

  /** Re-creating an order id re-opens it, and the redelivered completion then ships the new order. */
  lemma ReopenedOrderBreaksIt()
    ensures Clean(EMPTY, [R1, R2, C1, D1, C2])
    ensures !SameButHistory(Run(EMPTY, [R1, R2, C1, D1, C2]), Step(Run(EMPTY, [R1, R2, C1, D1, C2]), D1))
  {
    var t3 := ReopenedStart();
    var t4 := Step(t3, D1);
    var t5 := Step(t4, C2);
    CompleteOneLine(t3, D1, Line("p", "a", 5));
    CreateOneLine(t4, C2, Line("p", "b", 5));
    CompleteOneLine(t5, D1, Line("p", "b", 5));
    RunSnoc(EMPTY, [R1, R2, C1], D1);
    RunSnoc(EMPTY, [R1, R2, C1, D1], C2);
    assert [R1, R2, C1] + [D1] == [R1, R2, C1, D1] && [R1, R2, C1, D1] + [C2] == [R1, R2, C1, D1, C2];
    assert Step(t5, D1).zones[Key("p", "b")].reserved == 0 && t5.zones[Key("p", "b")].reserved == 5;
  }
}
