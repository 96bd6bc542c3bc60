/** The laws of the inventory, carried over to runs of the consumer with crashes, redelivery, expiry and late batches. */
module ConsumerLaws {
  import opened Warehouse
  import opened Handlers
  import opened Effects
  import opened Ledger
  import opened OpenOrders
  import opened Redelivery
  import opened Store
  import opened LateBatches
  import opened Protocol

  /**
   * In every faithful run, each inventory row and each product total that the tables settle on balances
   * against the events applied so far.
   */
  lemma LedgerInFaithfulRuns(log: seq<Message>, moves: seq<Move>, k: Key)
    requires FaithfulThroughout(log, moves)
    ensures var s := Exec(log, moves); var zones := Settled(s.batches).zones;
      && Balances(ReadZone(zones, k), RunFlow(s.account.applied, k))
      && ReadZone(zones, k).available >= 0 && ReadZone(zones, k).reserved >= 0
      && ProductBalances(TotalAvailable(zones, k.product), ProductFlow(s.account.applied, k.product))
  {
    RunsAreFolds(log, moves);
    KeyLedger(Exec(log, moves).account.applied, k);
    ProductLedger(Exec(log, moves).account.applied, k.product);
  }

  /** In every faithful run, reserved plus the quantities released by applied events covers the open orders. */
  lemma OpenOrdersInFaithfulRuns(log: seq<Message>, moves: seq<Move>, k: Key)
    requires FaithfulThroughout(log, moves)
    ensures var s := Exec(log, moves); var t := Settled(s.batches);
      ReadZone(t.zones, k).reserved + RunFlow(s.account.applied, k).released >= OpenQuantity(t.orders, k)
  {
    RunsAreFolds(log, moves);
    OpenOrdersCovered(Exec(log, moves).account.applied, k);
  }

  /** Whenever every batch has landed, what the tables settle on is what they show. */
  lemma LedgerShows(log: seq<Message>, moves: seq<Move>, k: Key)
    requires FaithfulThroughout(log, moves) && Quiet(Exec(log, moves).batches)
    ensures var s := Exec(log, moves);
      Balances(ReadZone(Visible(s.batches).zones, k), RunFlow(s.account.applied, k))
  {
    LedgerInFaithfulRuns(log, moves, k);
    QuietIsSettled(Exec(log, moves).batches);
  }

  /**
   * A delivery, however interrupted and whatever is still landing, leaves what the tables settle on alone or
   * puts one batch of its event on top of it.
   */
  lemma DeliveryAppliesOnceOrNot(s: State, ev: Event, offset: nat, fate: Fate)
    ensures var s' := Process(s, Recognised(ev), offset, fate);
      || Settled(s'.batches) == Settled(s.batches)
      || (Accepts(Visible(s.batches), ev)
          && Settled(s'.batches) == ApplyAll(Settled(s.batches), Handle(Visible(s.batches), ev).ops))
  {
    var s' := Process(s, Recognised(ev), offset, fate);
    ProcessAdds(s, Recognised(ev), offset, fate);
    if Adds(s, s', ev) {
      AddsSettled(s, s', ev);
    }
  }

  /**
   * Redelivering an applied event in a faithful run, with its mark expired or not and whatever interrupts it, leaves
   * every inventory and order row the tables settle on unchanged, as long as it is itself handled faithfully; for a
   * completion, also as long as the order id was created once.
   */
  lemma ExpiryIsHarmless(log: seq<Message>, moves: seq<Move>, i: nat, offset: nat, fate: Fate)
    requires FaithfulThroughout(log, moves) && i < |Exec(log, moves).account.applied|
    requires var s := Exec(log, moves); var ev := s.account.applied[i];
      Accepts(Visible(s.batches), ev) ==> SameEffect(Visible(s.batches), Settled(s.batches), ev)
    requires var applied := Exec(log, moves).account.applied;
      applied[i].OrderCompleted? ==> CreatedOnce(applied, applied[i].orderId)
    ensures var s := Exec(log, moves);
      SameButHistory(Settled(s.batches), Settled(Process(s, Recognised(s.account.applied[i]), offset, fate).batches))
  {
    var s := Exec(log, moves);
    var ev := s.account.applied[i];
    RunsAreFolds(log, moves);
    RedeliveryIsHarmless(s.account.applied, i);
    DeliveryAppliesOnceOrNot(s, ev, offset, fate);
    if Accepts(Visible(s.batches), ev) {
      SettledViewsAgree(log, moves);
      EarlyIsLateExactly(Visible(s.batches), Settled(s.batches), ev);
    }
  }

  // ---------- No run ever shows a negative quantity ----------

  predicate SoundWrite(w: Write) {
    && (w.UpsertZone? ==> w.row.available >= 0 && w.row.reserved >= 0)
    && (w.UpsertOrder? ==> w.order.items != [] && forall i :: 0 <= i < |w.order.items| ==> w.order.items[i].quantity >= 0)
    && (w.UpdateOrderStatus? ==> w.status == Completed)
  }

  predicate SoundWrites(ws: seq<Write>) {
    forall i :: 0 <= i < |ws| ==> SoundWrite(ws[i])
  }

  /** No negative quantity, and no open order without lines. */
  ghost predicate Sound(t: Tables) {
    NonNegative(t) && forall id :: id in t.orders ==> Stored(t.orders, id)
  }

  lemma WriteKeepsSound(t: Tables, w: Write)
    requires Sound(t) && SoundWrite(w)
    ensures Sound(ApplyWrite(t, w))
  {
  }

  lemma {:induction false} WritesKeepSound(t: Tables, ws: seq<Write>)
    requires Sound(t) && SoundWrites(ws)
    ensures Sound(ApplyAll(t, ws))
    decreases |ws|
  {
    if ws != [] {
      WriteKeepsSound(t, ws[0]);
      WritesKeepSound(ApplyWrite(t, ws[0]), ws[1..]);
    }
  }

  lemma {:induction false} OrderWritesSound(zones: Zones, items: seq<Line>, dir: Direction, ev: Event, keys: seq<Key>)
    requires forall k :: k in keys ==> OrderRow(zones, items, dir, ev, k).available >= 0 && OrderRow(zones, items, dir, ev, k).reserved >= 0
    ensures SoundWrites(OrderZoneWrites(zones, items, dir, ev, keys))
    decreases |keys|
  {
    if keys != [] {
      OrderWritesSound(zones, items, dir, ev, keys[..|keys| - 1]);
    }
  }

  lemma ProductBatchSound(t: Tables, ev: Event)
    requires NonNegative(t) && IsProductEvent(ev) && Accepts(t, ev)
    ensures SoundWrites(Handle(t, ev).ops)
  {
    var tail := ProductOps(t, ev);
    forall k | k in Touched(t, ev) ensures NewRow(t, ev, k).available >= 0 && NewRow(t, ev, k).reserved >= 0 {
      NewRowNonNegative(t, ev, k);
    }
    if ev.ProductMoved? {
      var k1, k2 := Key(ev.product, ev.fromZone), Key(ev.product, ev.toZone);
      TwoZonesSound(k1, NewRow(t, ev, k1), k2, NewRow(t, ev, k2), tail);
    } else {
      var k := Key(ev.product, ev.zone);
      TwoZonesSound(k, NewRow(t, ev, k), k, NewRow(t, ev, k), tail);
    }
  }

  lemma TwoZonesSound(k1: Key, r1: ZoneRow, k2: Key, r2: ZoneRow, tail: Write)
    requires r1.available >= 0 && r1.reserved >= 0 && r2.available >= 0 && r2.reserved >= 0 && tail.InsertHistory?
    ensures SoundWrites(ZoneWrites(k1, r1) + [tail])
    ensures SoundWrites(ZoneWrites(k1, r1) + ZoneWrites(k2, r2) + [tail])
  {
  }

  lemma OrderBatchSound(t: Tables, ev: Event)
    requires NonNegative(t) && Accepts(t, ev) && (ev.OrderCreated? || Fulfils(t, ev))
    ensures SoundWrites(Handle(t, ev).ops)
  {
    var items, dir, row := OrderOps(t, ev);
    forall k | k in DistinctKeys(items)
      ensures OrderRow(t.zones, items, dir, ev, k).available >= 0 && OrderRow(t.zones, items, dir, ev, k).reserved >= 0
    {
      OrderNewRow(t, ev, items, dir, k);
      NewRowNonNegative(t, ev, k);
    }
    OrderWritesSound(t.zones, items, dir, ev, DistinctKeys(items));
    if ev.OrderCreated? {
      CreateFaultFree(t.zones, ev.items, ev.ts);
    }
  }

  lemma BatchSound(t: Tables, ev: Event)
    requires NonNegative(t) && Accepts(t, ev)
    ensures SoundWrites(Handle(t, ev).ops)
  {
    if IsProductEvent(ev) {
      ProductBatchSound(t, ev);
    } else if ev.OrderCreated? || Fulfils(t, ev) {
      OrderBatchSound(t, ev);
    }
  }

  predicate SoundBatches(bs: seq<Batch>) {
    forall i :: 0 <= i < |bs| ==> SoundWrites(bs[i].ops)
  }

  lemma LandedSound(b: Batch)
    requires SoundWrites(b.ops)
    ensures SoundWrites(Shown(b))
  {
    if b.Part? {
      PickedDrawn(b.ops, b.positions);
      forall i | 0 <= i < |Shown(b)| ensures SoundWrite(Shown(b)[i]) {
        var j :| 0 <= j < |b.ops| && b.ops[j] == Shown(b)[i];
      }
    }
  }

  lemma {:induction false} VisibleSound(bs: seq<Batch>)
    requires SoundBatches(bs)
    ensures Sound(Visible(bs))
    decreases |bs|
  {
    if bs != [] {
      VisibleSound(bs[..|bs| - 1]);
      LandedSound(bs[|bs| - 1]);
      WritesKeepSound(Visible(bs[..|bs| - 1]), Shown(bs[|bs| - 1]));
    }
  }

  lemma {:induction false} BatchesStaySound(log: seq<Message>, moves: seq<Move>)
    ensures SoundBatches(Exec(log, moves).batches)
    decreases |moves|
  {
    if moves != [] {
      var s, m := Exec(log, moves[..|moves| - 1]), moves[|moves| - 1];
      var s' := Next(log, s, m);
      BatchesStaySound(log, moves[..|moves| - 1]);
      NextAdds(log, s, m);
      if !SameWrites(s.batches, s'.batches) {
        VisibleSound(s.batches);
        BatchSound(Visible(s.batches), log[s.position].ev);
        AddedSound(s.batches, s'.batches);
      }
    }
  }

  lemma AddedSound(bs: seq<Batch>, bs': seq<Batch>)
    requires SoundBatches(bs) && |bs'| == |bs| + 1 && bs'[..|bs|] == bs && SoundWrites(bs'[|bs|].ops)
    ensures SoundBatches(bs')
  {
    assert forall i :: 0 <= i < |bs| ==> bs'[i] == bs[i];
  }

  /** In every run, faithful or not, no table ever shows a negative quantity, whatever has landed of whatever batch. */
  lemma NeverShowsNegative(log: seq<Message>, moves: seq<Move>)
    ensures NonNegative(Visible(Exec(log, moves).batches))
  {
    BatchesStaySound(log, moves);
    VisibleSound(Exec(log, moves).batches);
  }
}
