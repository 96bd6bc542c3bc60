/**
 * Events may arrive late, twice, or be refused; the inventory and the orders that result are those the accepted
 * events give when replayed in timestamp order.
 */
module Replay {
  import opened MapSums
  import opened Warehouse
  import opened Handlers
  import opened Effects
  import opened Ledger
  import opened OpenOrders
  import opened Redelivery
  import opened Store
  import opened Reordering

  // ---------- Which events take effect ----------

  /** Accepted, and more than a history row: completing a completed order writes nothing else. */
  predicate TakesEffect(t: Tables, ev: Event) {
    Accepts(t, ev) && (ev.OrderCompleted? ==> Fulfils(t, ev))
  }

  /** The events of a delivery sequence that take effect in their turn. */
  function Effective(delivered: seq<Event>): seq<Event> {
    if delivered == [] then []
    else
      var front, ev := delivered[..|delivered| - 1], delivered[|delivered| - 1];
      Effective(front) + (if TakesEffect(Run(EMPTY, front), ev) then [ev] else [])
  }

  /** Every order id is created by one event, however often that event is delivered. */
  ghost predicate CreatedByOne(evs: seq<Event>) {
    forall i, j :: 0 <= i < |evs| && 0 <= j < |evs| && evs[i].OrderCreated? && evs[j].OrderCreated? && evs[i].orderId == evs[j].orderId
      ==> evs[i] == evs[j]
  }

  /** The event that creates an order, if there is one. */
  function Creation(evs: seq<Event>, id: string): Option<Event> {
    if evs == [] then None
    else
      var ev := evs[|evs| - 1];
      if ev.OrderCreated? && ev.orderId == id then Some(ev) else Creation(evs[..|evs| - 1], id)
  }

  lemma {:induction false} CreationFound(evs: seq<Event>, id: string)
    ensures var c := Creation(evs, id); c.Some? ==> c.value in evs && c.value.OrderCreated? && c.value.orderId == id
    ensures (exists i :: 0 <= i < |evs| && evs[i].OrderCreated? && evs[i].orderId == id) ==> Creation(evs, id).Some?
    decreases |evs|
  {
    if evs != [] {
      var front := evs[..|evs| - 1];
      CreationFound(front, id);
      if i :| 0 <= i < |evs| && evs[i].OrderCreated? && evs[i].orderId == id {
        assert i < |front| ==> front[i] == evs[i];
      }
    }
  }

  lemma TheCreation(all: seq<Event>, ev: Event)
    requires CreatedByOne(all) && ev in all && ev.OrderCreated?
    ensures Creation(all, ev.orderId) == Some(ev)
  {
    CreationFound(all, ev.orderId);
    var i :| 0 <= i < |all| && all[i] == ev;
    var other := Creation(all, ev.orderId).value;
    var j :| 0 <= j < |all| && all[j] == other;
  }

  // ---------- The handlers as a machine over the inventory and the orders ----------

  function LinesOf(all: seq<Event>, id: string): seq<Line> {
    var c := Creation(all, id);
    if c.Some? && c.value.OrderCreated? then c.value.items else []
  }

  function KeysOf(all: seq<Event>, ev: Event): set<Key> {
    if IsProductEvent(ev) then ProductKeys(ev)
    else LineKeys(if ev.OrderCreated? then ev.items else LinesOf(all, ev.orderId))
  }

  function AsTables(z: Rows): Tables {
    EMPTY.(zones := z.zones, orders := z.orders)
  }

  function RowsIn(t: Tables): Rows {
    Rows(t.zones, t.orders)
  }

  predicate Fits(all: seq<Event>, z: Rows, ev: Event) {
    && TakesEffect(AsTables(z), ev)
    && (ev.OrderCreated? ==> ev.orderId !in z.orders)
    && (ev.OrderCompleted? ==> z.orders[ev.orderId].items == LinesOf(all, ev.orderId) && z.orders[ev.orderId].updatedAt < ev.ts)
  }

  function OrderAfter(z: Rows, ev: Event): Order
    requires !IsProductEvent(ev)
  {
    if ev.OrderCreated? then Order(Created, ev.items, Some(ev.ts), ev.ts)
    else if ev.orderId in z.orders then z.orders[ev.orderId].(status := Completed, updatedAt := ev.ts)
    else Order(Completed, [], None, ev.ts)
  }

  function WritesOf(all: seq<Event>, z: Rows, ev: Event): Rows {
    Rows(map k | k in KeysOf(all, ev) :: NewRow(AsTables(z), ev, k),
         if IsProductEvent(ev) then map[] else map[ev.orderId := OrderAfter(z, ev)])
  }

  function Inventory(all: seq<Event>): Machine {
    Machine(ev => KeysOf(all, ev), (z, ev) => Fits(all, z, ev), (z, ev) => WritesOf(all, z, ev))
  }

  lemma FittingKeys(all: seq<Event>, z: Rows, ev: Event)
    requires Fits(all, z, ev)
    ensures KeysOf(all, ev) == Touched(AsTables(z), ev)
  {
  }

  lemma SameShown(all: seq<Event>, a: Rows, b: Rows, ev: Event)
    requires SameOn(a, b, KeysOf(all, ev), OrdersOf(ev))
    requires ev.OrderCompleted? && ev.orderId in a.orders ==> a.orders[ev.orderId].items == LinesOf(all, ev.orderId)
    ensures SameReads(AsTables(a), AsTables(b), ev)
  {
    if !IsProductEvent(ev) {
      assert ev.orderId in OrdersOf(ev);
    }
  }

  lemma FitsLocally(all: seq<Event>, a: Rows, b: Rows, ev: Event)
    requires SameOn(a, b, KeysOf(all, ev), OrdersOf(ev)) && Fits(all, a, ev)
    ensures Fits(all, b, ev)
  {
    SameShown(all, a, b, ev);
    HandlersAreLocal(AsTables(a), AsTables(b), ev);
    if !IsProductEvent(ev) {
      assert ev.orderId in OrdersOf(ev);
    }
  }

  predicate SameOrder(a: Tables, b: Tables, id: string) {
    (id in a.orders <==> id in b.orders) && (id in a.orders ==> a.orders[id] == b.orders[id])
  }

  lemma NewRowLocally(a: Tables, b: Tables, ev: Event, k: Key)
    requires ReadZone(a.zones, k) == ReadZone(b.zones, k)
    requires ev.OrderCompleted? ==> SameOrder(a, b, ev.orderId)
    ensures NewRow(a, ev, k) == NewRow(b, ev, k)
  {
  }

  lemma NewRowsLocally(all: seq<Event>, a: Rows, b: Rows, ev: Event)
    requires SameOn(a, b, KeysOf(all, ev), OrdersOf(ev))
    ensures WritesOf(all, a, ev).zones == WritesOf(all, b, ev).zones
  {
    if ev.OrderCompleted? {
      assert ev.orderId in OrdersOf(ev);
    }
    forall k | k in KeysOf(all, ev) ensures NewRow(AsTables(a), ev, k) == NewRow(AsTables(b), ev, k) {
      NewRowLocally(AsTables(a), AsTables(b), ev, k);
    }
  }

  lemma WritesLocally(all: seq<Event>, a: Rows, b: Rows, ev: Event)
    requires SameOn(a, b, KeysOf(all, ev), OrdersOf(ev))
    ensures WritesOf(all, a, ev) == WritesOf(all, b, ev)
  {
    NewRowsLocally(all, a, b, ev);
    if !IsProductEvent(ev) {
      assert ev.orderId in OrdersOf(ev);
    }
  }

  lemma FitsOverwritesOlder(all: seq<Event>, z: Rows, ev: Event)
    requires Fits(all, z, ev)
    ensures OverwritesOlder(z, WritesOf(all, z, ev), ev.ts)
  {
    FittingKeys(all, z, ev);
    forall k | k in KeysOf(all, ev) ensures k in z.zones ==> z.zones[k].ts < ev.ts {
      AcceptedIsFresh(AsTables(z), ev, k);
    }
  }

  /** The handlers read and write their own keys and their own order only, and replace older rows only. */
  lemma InventoryIsLawful(all: seq<Event>)
    ensures Lawful(Inventory(all))
  {
    forall a: Rows, b: Rows, ev: Event | SameOn(a, b, KeysOf(all, ev), OrdersOf(ev))
      ensures Fits(all, a, ev) == Fits(all, b, ev) && WritesOf(all, a, ev) == WritesOf(all, b, ev)
    {
      if Fits(all, a, ev) {
        FitsLocally(all, a, b, ev);
      }
      if Fits(all, b, ev) {
        FitsLocally(all, b, a, ev);
      }
      WritesLocally(all, a, b, ev);
    }
    forall z: Rows, ev: Event | Fits(all, z, ev) ensures OverwritesOlder(z, WritesOf(all, z, ev), ev.ts) {
      FitsOverwritesOlder(all, z, ev);
    }
  }

  // ---------- The tables run that machine ----------

  // A stored order is as its one creation made it, and its rows are at least as new as that.
  ghost predicate OrderFact(all: seq<Event>, t: Tables, id: string)
    requires id in t.orders
  {
    var o, c := t.orders[id], Creation(all, id);
    && c.Some? && c.value.OrderCreated? && o.items == c.value.items && o.items != []
    && (o.status == Created ==> o.updatedAt == c.value.ts)
    && forall k :: k in LineKeys(o.items) ==> k in t.zones && c.value.ts <= t.zones[k].ts
  }

  ghost predicate OrderFacts(all: seq<Event>, t: Tables) {
    forall id :: id in t.orders ==> OrderFact(all, t, id)
  }

  lemma FactKept(all: seq<Event>, t: Tables, ev: Event, id: string)
    requires OrderFacts(all, t) && Accepts(t, ev) && id in t.orders && !(ev.OrderCreated? && ev.orderId == id)
    ensures id in Step(t, ev).orders && OrderFact(all, Step(t, ev), id)
  {
    assert OrderFact(all, t, id);
    HandlerMeaning(t, ev);
    forall k | k in LineKeys(t.orders[id].items) ensures k in Step(t, ev).zones && t.zones[k].ts <= Step(t, ev).zones[k].ts {
      TimestampsGrow(t, ev, k);
    }
  }

  lemma FactMade(all: seq<Event>, t: Tables, ev: Event)
    requires CreatedByOne(all) && ev in all && ev.OrderCreated? && Accepts(t, ev)
    ensures ev.orderId in Step(t, ev).orders && OrderFact(all, Step(t, ev), ev.orderId)
  {
    TheCreation(all, ev);
    HandlerMeaning(t, ev);
    forall k | k in LineKeys(ev.items) ensures k in Step(t, ev).zones && Step(t, ev).zones[k].ts == ev.ts {
      RowJustWritten(t, ev, k);
    }
  }

  lemma FactsKept(all: seq<Event>, t: Tables, ev: Event)
    requires CreatedByOne(all) && (TakesEffect(t, ev) ==> ev in all) && OrderFacts(all, t)
    ensures OrderFacts(all, Step(t, ev))
  {
    if Accepts(t, ev) {
      HandlerMeaning(t, ev);
      forall id | id in Step(t, ev).orders ensures OrderFact(all, Step(t, ev), id) {
        if ev.OrderCreated? && ev.orderId == id {
          FactMade(all, t, ev);
        } else {
          FactKept(all, t, ev, id);
        }
      }
    }
  }

  lemma SomeLineKey(items: seq<Line>)
    requires items != []
    ensures KeyOf(items[0]) in LineKeys(items)
  {
    DistinctKeysOnce(items);
  }

  // An order's creation is stale once the order is stored.
  lemma StoredIsNotRecreated(all: seq<Event>, t: Tables, ev: Event)
    requires CreatedByOne(all) && ev in all && OrderFacts(all, t) && ev.OrderCreated? && Accepts(t, ev)
    ensures ev.orderId !in t.orders
  {
    if ev.orderId in t.orders {
      assert OrderFact(all, t, ev.orderId);
      TheCreation(all, ev);
      SomeLineKey(ev.items);
      AcceptedIsFresh(t, ev, KeyOf(ev.items[0]));
    }
  }

  lemma CompletionIsLater(all: seq<Event>, t: Tables, ev: Event)
    requires OrderFacts(all, t) && Fulfils(t, ev) && Accepts(t, ev)
    ensures t.orders[ev.orderId].items == LinesOf(all, ev.orderId) && t.orders[ev.orderId].updatedAt < ev.ts
  {
    assert OrderFact(all, t, ev.orderId);
    var items := t.orders[ev.orderId].items;
    SomeLineKey(items);
    AcceptedIsFresh(t, ev, KeyOf(items[0]));
  }

  lemma SameOutcome(t: Tables, ev: Event)
    ensures Accepts(AsTables(RowsIn(t)), ev) == Accepts(t, ev)
  {
    assert SameReads(t, AsTables(RowsIn(t)), ev);
    HandlersAreLocal(t, AsTables(RowsIn(t)), ev);
  }

  lemma FitsExactly(all: seq<Event>, t: Tables, ev: Event)
    requires CreatedByOne(all) && (TakesEffect(t, ev) ==> ev in all) && OrderFacts(all, t)
    ensures Fits(all, RowsIn(t), ev) <==> TakesEffect(t, ev)
  {
    SameOutcome(t, ev);
    if TakesEffect(t, ev) {
      if ev.OrderCreated? {
        StoredIsNotRecreated(all, t, ev);
      } else if ev.OrderCompleted? {
        CompletionIsLater(all, t, ev);
      }
    }
  }

  lemma SameNewOrders(all: seq<Event>, t: Tables, ev: Event)
    requires Fits(all, RowsIn(t), ev)
    ensures t.orders + WritesOf(all, RowsIn(t), ev).orders == NewOrders(t, ev)
  {
  }

  lemma SameNewRows(all: seq<Event>, t: Tables, ev: Event)
    requires Fits(all, RowsIn(t), ev)
    ensures WritesOf(all, RowsIn(t), ev).zones == NewRows(t, ev)
  {
    FittingKeys(all, RowsIn(t), ev);
    assert Touched(AsTables(RowsIn(t)), ev) == Touched(t, ev);
    forall k | k in Touched(t, ev) ensures NewRow(AsTables(RowsIn(t)), ev, k) == NewRow(t, ev, k) {
      NewRowLocally(AsTables(RowsIn(t)), t, ev, k);
    }
  }

  lemma StepAdvances(all: seq<Event>, t: Tables, ev: Event)
    requires CreatedByOne(all) && (TakesEffect(t, ev) ==> ev in all) && OrderFacts(all, t)
    ensures RowsIn(Step(t, ev)) == Advance(Inventory(all), RowsIn(t), ev)
  {
    FitsExactly(all, t, ev);
    if TakesEffect(t, ev) {
      HandlerMeaning(t, ev);
      SameNewRows(all, t, ev);
      SameNewOrders(all, t, ev);
    } else if Accepts(t, ev) {
      CompletedAgain(t, ev);
    }
  }

  lemma {:induction false} FoldSnoc(m: Machine, z: Rows, evs: seq<Event>, ev: Event)
    ensures Fold(m, z, evs + [ev]) == Advance(m, Fold(m, z, evs), ev)
    ensures Accepted(m, z, evs + [ev]) == Accepted(m, z, evs) + (if m.fits(Fold(m, z, evs), ev) then [ev] else [])
    ensures AllFit(m, z, evs + [ev]) <==> AllFit(m, z, evs) && m.fits(Fold(m, z, evs), ev)
    decreases |evs|
  {
    if evs == [] {
      assert [ev][1..] == [];
    } else {
      FoldSnoc(m, Advance(m, z, evs[0]), evs[1..], ev);
      assert (evs + [ev])[1..] == evs[1..] + [ev];
    }
  }

  const NOTHING := RowsIn(EMPTY)

  lemma {:induction false} RunIsFold(all: seq<Event>, evs: seq<Event>)
    requires CreatedByOne(all) && forall ev :: ev in Effective(evs) ==> ev in all
    ensures OrderFacts(all, Run(EMPTY, evs))
    ensures RowsIn(Run(EMPTY, evs)) == Fold(Inventory(all), NOTHING, evs)
    ensures Effective(evs) == Accepted(Inventory(all), NOTHING, evs)
    ensures AllFit(Inventory(all), NOTHING, evs) ==> Clean(EMPTY, evs)
    decreases |evs|
  {
    if evs != [] {
      var front, last := evs[..|evs| - 1], evs[|evs| - 1];
      RunIsFold(all, front);
      FactsKept(all, Run(EMPTY, front), last);
      StepAdvances(all, Run(EMPTY, front), last);
      FitsExactly(all, Run(EMPTY, front), last);
      FoldSnoc(Inventory(all), NOTHING, front, last);
      assert evs == front + [last];
    }
  }

  lemma {:induction false} EffectiveAreDelivered(delivered: seq<Event>)
    ensures forall ev :: ev in Effective(delivered) ==> ev in delivered
    decreases |delivered|
  {
    if delivered != [] {
      EffectiveAreDelivered(delivered[..|delivered| - 1]);
    }
  }

  lemma SameMembers(a: seq<Event>, b: seq<Event>)
    requires multiset(a) == multiset(b)
    ensures forall ev :: ev in a <==> ev in b
  {
    forall ev ensures ev in a <==> ev in b {
      assert ev in a <==> ev in multiset(a);
    }
  }

  /**
   * The replay theorem. Whatever was delivered, and in whatever order, as long as no order id is created twice in
   * effect: the inventory and the orders are those that the events that took effect give by themselves, in any
   * timestamp order, from empty tables; in that replay no event is stale and none is rejected.
   */
  lemma ReplayTheorem(delivered: seq<Event>, sorted: seq<Event>)
    requires CreatedByOne(Effective(delivered))
    requires multiset(sorted) == multiset(Effective(delivered)) && ByTimestamp(sorted)
    ensures Clean(EMPTY, sorted)
    ensures Run(EMPTY, sorted).zones == Run(EMPTY, delivered).zones && Run(EMPTY, sorted).orders == Run(EMPTY, delivered).orders
  {
    var all := Effective(delivered);
    var m := Inventory(all);
    InventoryIsLawful(all);
    RunIsFold(all, delivered);
    AcceptedSuffices(m, NOTHING, delivered);
    SortedReplay(m, NOTHING, all, sorted);
    SameMembers(sorted, all);
    EffectiveAreDelivered(sorted);
    RunIsFold(all, sorted);
    assert RowsIn(Run(EMPTY, sorted)) == RowsIn(Run(EMPTY, delivered));
  }

  /** Events that took effect on a common row, or on one order, did so in strict timestamp order. */
  lemma EffectiveConflictsIncrease(delivered: seq<Event>, i: nat, j: nat)
    requires CreatedByOne(Effective(delivered)) && i < j < |Effective(delivered)|
    requires Conflict(Inventory(Effective(delivered)), Effective(delivered)[i], Effective(delivered)[j])
    ensures Effective(delivered)[i].ts < Effective(delivered)[j].ts
  {
    var m := Inventory(Effective(delivered));
    InventoryIsLawful(Effective(delivered));
    RunIsFold(Effective(delivered), delivered);
    AcceptedSuffices(m, NOTHING, delivered);
    ConflictsIncrease(m, NOTHING, Effective(delivered), i, j);
  }

  // ---------- An order created twice is not replayed ----------

  lemma EffectiveSnoc(evs: seq<Event>, ev: Event)
    ensures Effective(evs + [ev]) == Effective(evs) + (if TakesEffect(Run(EMPTY, evs), ev) then [ev] else [])
  {
    assert (evs + [ev])[..|evs|] == evs;
  }

  lemma TwoMore(start: seq<Event>, d: Event, e: Event) returns (evs: seq<Event>)
    ensures evs == start + [d] + [e]
    ensures Run(EMPTY, evs) == Step(Step(Run(EMPTY, start), d), e)
    ensures Effective(start) == start && TakesEffect(Run(EMPTY, start), d) && TakesEffect(Step(Run(EMPTY, start), d), e)
            ==> Effective(evs) == evs
  {
    evs := start + [d] + [e];
    RunSnoc(EMPTY, start, d);
    RunSnoc(EMPTY, start + [d], e);
    EffectiveSnoc(start, d);
    EffectiveSnoc(start + [d], e);
  }

  lemma ThreeEffective(a: Event, b: Event, c: Event) returns (evs: seq<Event>)
    requires !a.OrderCompleted? && !b.OrderCompleted? && !c.OrderCompleted? && Clean(EMPTY, [a, b, c])
    ensures evs == [a, b, c] && Effective(evs) == evs
  {
    RunThree(a, b, c);
    RunSnoc(EMPTY, [], a);
    RunSnoc(EMPTY, [a], b);
    EffectiveSnoc([], a);
    EffectiveSnoc([a], b);
    EffectiveSnoc([a, b], c);
    assert [] + [a] == [a] && [a] + [b] == [a, b] && [a, b] + [c] == [a, b, c];
    evs := [a, b, c];
  }

  // Two shelves with five pieces each, those on the first one reserved for the order.
  predicate OneOrderOpen(t: Tables) {
    && Key("p", "a") in t.zones && t.zones[Key("p", "a")] == ZoneRow(5, 5, "c1", 2, None)
    && Key("p", "b") in t.zones && t.zones[Key("p", "b")] == ZoneRow(5, 0, "r2", 1, None)
    && "o" in t.orders && t.orders["o"] == Order(Created, [Line("p", "a", 5)], Some(2), 2)
  }

  predicate Ends(t: Tables, status: OrderStatus) {
    "o" in t.orders && t.orders["o"].status == status
  }

  lemma CompletedThenReopened(t: Tables)
    requires OneOrderOpen(t)
    ensures TakesEffect(t, D1) && TakesEffect(Step(t, D1), C2) && Ends(Step(Step(t, D1), C2), Created)
  {
    CompleteOneLine(t, D1, Line("p", "a", 5));
    CreateOneLine(Step(t, D1), C2, Line("p", "b", 5));
  }

  lemma ReopenedThenCompleted(t: Tables)
    requires OneOrderOpen(t)
    ensures Ends(Step(Step(t, C2), D1), Completed)
  {
    CreateOneLine(t, C2, Line("p", "b", 5));
    CompleteOneLine(Step(t, C2), D1, Line("p", "b", 5));
  }

  lemma OpenedOnce() returns (start: seq<Event>)
    ensures start == [R1, R2, C1] && Effective(start) == start && OneOrderOpen(Run(EMPTY, start))
  {
    var t := ReopenedStart();
    start := ThreeEffective(R1, R2, C1);
  }

  lemma SwappedLast(start: seq<Event>, d: Event, e: Event)
    ensures multiset(start + [d] + [e]) == multiset(start + [e] + [d])
  {
  }

  lemma SortedSwap(start: seq<Event>)
    requires start == [R1, R2, C1]
    ensures ByTimestamp(start + [C2] + [D1])
  {
  }

  /** An order completed and then created again, both times in effect: replayed by timestamp it ends completed instead. */
  lemma RecreationBreaksReplay() returns (delivered: seq<Event>, sorted: seq<Event>)
    ensures delivered == [R1, R2, C1] + [D1] + [C2] && sorted == [R1, R2, C1] + [C2] + [D1]
    ensures multiset(sorted) == multiset(Effective(delivered)) && ByTimestamp(sorted)
    ensures Ends(Run(EMPTY, delivered), Created) && Ends(Run(EMPTY, sorted), Completed)
  {
    var start := OpenedOnce();
    CompletedThenReopened(Run(EMPTY, start));
    ReopenedThenCompleted(Run(EMPTY, start));
    delivered := TwoMore(start, D1, C2);
    sorted := TwoMore(start, C2, D1);
    SwappedLast(start, D1, C2);
    SortedSwap(start);
  }
}
