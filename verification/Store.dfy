/**
 * What the tables show while logged batches are still landing. Every statement carries the write time of its
 * batch, and a later write time wins wherever and whenever an earlier one lands.
 */
module Store {
  import opened Warehouse
  import opened Handlers
  import opened Effects
  import opened Batches

  // A batch in order of write time: all of it has landed, or it was interrupted and only the statements at
  // these positions have.
  datatype Batch = Whole(ops: seq<Write>) | Part(ops: seq<Write>, positions: seq<nat>)

  function Picked(ops: seq<Write>, positions: seq<nat>): seq<Write> {
    if positions == [] then []
    else
      Picked(ops, positions[..|positions| - 1])
      + (if positions[|positions| - 1] < |ops| then [ops[positions[|positions| - 1]]] else [])
  }

  function Shown(b: Batch): seq<Write> {
    if b.Whole? then b.ops else Picked(b.ops, b.positions)
  }

  /** What a reader sees: the statements that have landed, in order of write time. */
  function Visible(bs: seq<Batch>): Tables {
    if bs == [] then EMPTY else ApplyAll(Visible(bs[..|bs| - 1]), Shown(bs[|bs| - 1]))
  }

  /** What a reader will see once every batch has landed. */
  function Settled(bs: seq<Batch>): Tables {
    if bs == [] then EMPTY else ApplyAll(Settled(bs[..|bs| - 1]), bs[|bs| - 1].ops)
  }

  predicate Quiet(bs: seq<Batch>) {
    forall i :: 0 <= i < |bs| ==> bs[i].Whole?
  }

  lemma {:induction false} QuietIsSettled(bs: seq<Batch>)
    requires Quiet(bs)
    ensures Visible(bs) == Settled(bs)
    decreases |bs|
  {
    if bs != [] {
      QuietIsSettled(bs[..|bs| - 1]);
    }
  }

  lemma Append(bs: seq<Batch>, b: Batch)
    ensures Visible(bs + [b]) == ApplyAll(Visible(bs), Shown(b))
    ensures Settled(bs + [b]) == ApplyAll(Settled(bs), b.ops)
  {
    assert (bs + [b])[..|bs|] == bs;
  }

  // Same batches, whatever has landed of them.
  predicate SameWrites(a: seq<Batch>, b: seq<Batch>) {
    |a| == |b| && forall i :: 0 <= i < |a| ==> a[i].ops == b[i].ops
  }

  /** Landing more of a batch, early or late, changes nothing of what the tables settle on. */
  lemma {:induction false} LandingSettlesAlike(a: seq<Batch>, b: seq<Batch>)
    requires SameWrites(a, b)
    ensures Settled(a) == Settled(b)
    decreases |a|
  {
    if a != [] {
      LandingSettlesAlike(a[..|a| - 1], b[..|b| - 1]);
    }
  }

  lemma {:induction false} PickedDrawn(ops: seq<Write>, positions: seq<nat>)
    ensures DrawnFrom(Picked(ops, positions), ops)
  {
    if positions != [] {
      PickedDrawn(ops, positions[..|positions| - 1]);
    }
  }

  /** A row shows the write with the latest write time among those that have landed on it. */
  lemma LatestLandedShows(t: Tables, earlier: seq<Write>, w: Write, later: seq<Write>)
    requires !w.UpdateOrderStatus? && !w.MarkEvent?
    requires forall i :: 0 <= i < |later| ==> RowOf(later[i]) != RowOf(w)
    ensures Look(ApplyAll(t, earlier + [w] + later), RowOf(w)) == Overwrite(w, NoCell)
  {
    ApplyConcat(t, earlier + [w], later);
    ApplyConcat(t, earlier, [w]);
    ApplyOne(ApplyAll(t, earlier), w);
    LookWrite(ApplyAll(t, earlier), w, RowOf(w));
    LookUntouched(ApplyAll(t, earlier + [w]), later, RowOf(w));
  }

  // ---------- Rows no pending batch writes are settled ----------

  predicate Writes(ops: seq<Write>, r: RowId) {
    exists i :: 0 <= i < |ops| && RowOf(ops[i]) == r
  }

  predicate Untouched(bs: seq<Batch>, r: RowId) {
    forall i :: 0 <= i < |bs| && bs[i].Part? ==> !Writes(bs[i].ops, r)
  }

  // What a write list leaves in a row depends on that row alone.
  lemma {:induction false} RowsAreIndependent(a: Tables, b: Tables, ws: seq<Write>, r: RowId)
    requires Look(a, r) == Look(b, r)
    ensures Look(ApplyAll(a, ws), r) == Look(ApplyAll(b, ws), r)
    decreases |ws|
  {
    if ws != [] {
      LookWrite(a, ws[0], r);
      LookWrite(b, ws[0], r);
      RowsAreIndependent(ApplyWrite(a, ws[0]), ApplyWrite(b, ws[0]), ws[1..], r);
    }
  }

  lemma PartMisses(b: Batch, r: RowId)
    requires b.Part? && !Writes(b.ops, r)
    ensures forall i :: 0 <= i < |Shown(b)| ==> RowOf(Shown(b)[i]) != r
  {
    PickedDrawn(b.ops, b.positions);
    forall i | 0 <= i < |Shown(b)| ensures RowOf(Shown(b)[i]) != r {
      assert Shown(b)[i] in b.ops;
    }
  }

  lemma {:induction false} UntouchedIsSettled(bs: seq<Batch>, r: RowId)
    requires Untouched(bs, r)
    ensures Look(Visible(bs), r) == Look(Settled(bs), r)
    decreases |bs|
  {
    if bs != [] {
      var front, last := bs[..|bs| - 1], bs[|bs| - 1];
      UntouchedIsSettled(front, r);
      if last.Whole? {
        RowsAreIndependent(Visible(front), Settled(front), last.ops, r);
      } else {
        PartMisses(last, r);
        LookUntouched(Visible(front), Shown(last), r);
        LookUntouched(Settled(front), last.ops, r);
      }
    }
  }

  // ---------- What a handler reads ----------

  function ReadKeys(t: Tables, ev: Event): set<Key> {
    if ev.OrderCreated? then LineKeys(ev.items)
    else if ev.OrderCompleted? then (if ev.orderId in t.orders then LineKeys(t.orders[ev.orderId].items) else {})
    else ProductKeys(ev)
  }

  /** The two tables show the handler of ev the same rows, and the same order. */
  predicate SameReads(a: Tables, b: Tables, ev: Event) {
    && (ev.OrderCompleted? ==> Look(a, OrderId(ev.orderId)) == Look(b, OrderId(ev.orderId)))
    && forall k :: k in ReadKeys(a, ev) ==> Look(a, ZoneId(k)) == Look(b, ZoneId(k))
  }

  lemma SameRow(a: Tables, b: Tables, k: Key)
    requires Look(a, ZoneId(k)) == Look(b, ZoneId(k))
    ensures ReadZone(a.zones, k) == ReadZone(b.zones, k)
  {
  }

  predicate SameLines(a: Zones, b: Zones, items: seq<Line>) {
    forall i :: 0 <= i < |items| ==> ReadZone(a, KeyOf(items[i])) == ReadZone(b, KeyOf(items[i]))
  }

  lemma {:induction false} SameFaults(a: Zones, b: Zones, items: seq<Line>, ts: int)
    requires SameLines(a, b, items)
    ensures CreateFault(a, items, ts) == CreateFault(b, items, ts)
    ensures CompleteFault(a, items, ts) == CompleteFault(b, items, ts)
  {
    if items != [] {
      var front := items[..|items| - 1];
      assert forall i :: 0 <= i < |front| ==> front[i] == items[i];
      SameFaults(a, b, front, ts);
    }
  }

  lemma {:induction false} SameZoneWrites(a: Zones, b: Zones, items: seq<Line>, dir: Direction, ev: Event, keys: seq<Key>)
    requires forall k :: k in keys ==> OrderRow(a, items, dir, ev, k) == OrderRow(b, items, dir, ev, k)
    ensures OrderZoneWrites(a, items, dir, ev, keys) == OrderZoneWrites(b, items, dir, ev, keys)
    decreases |keys|
  {
    if keys != [] {
      SameZoneWrites(a, b, items, dir, ev, keys[..|keys| - 1]);
    }
  }

  lemma SameOrderReads(a: Zones, b: Zones, items: seq<Line>, dir: Direction, ev: Event)
    requires SameLines(a, b, items)
    ensures OrderZoneWrites(a, items, dir, ev, DistinctKeys(items)) == OrderZoneWrites(b, items, dir, ev, DistinctKeys(items))
  {
    DistinctKeysOnce(items);
    SameZoneWrites(a, b, items, dir, ev, DistinctKeys(items));
  }

  lemma KeysGiveLines(a: Tables, b: Tables, items: seq<Line>)
    requires forall k :: k in LineKeys(items) ==> Look(a, ZoneId(k)) == Look(b, ZoneId(k))
    ensures SameLines(a.zones, b.zones, items)
  {
    DistinctKeysOnce(items);
    forall i | 0 <= i < |items| ensures ReadZone(a.zones, KeyOf(items[i])) == ReadZone(b.zones, KeyOf(items[i])) {
      assert KeyOf(items[i]) in LineKeys(items);
      SameRow(a, b, KeyOf(items[i]));
    }
  }

  lemma MoveReads(a: Tables, b: Tables, ev: Event)
    requires ev.ProductMoved? && SameReads(a, b, ev)
    ensures HandleProductMoved(a.zones, ev) == HandleProductMoved(b.zones, ev)
  {
    SameRow(a, b, Key(ev.product, ev.fromZone));
    SameRow(a, b, Key(ev.product, ev.toZone));
  }

  lemma OneRowReads(a: Tables, b: Tables, ev: Event)
    requires IsProductEvent(ev) && !ev.ProductMoved? && SameReads(a, b, ev)
    ensures HandleProduct(a.zones, ev) == HandleProduct(b.zones, ev)
  {
    SameRow(a, b, Key(ev.product, ev.zone));
  }

  lemma ProductReads(a: Tables, b: Tables, ev: Event)
    requires IsProductEvent(ev) && SameReads(a, b, ev)
    ensures HandleProduct(a.zones, ev) == HandleProduct(b.zones, ev)
  {
    if ev.ProductMoved? {
      MoveReads(a, b, ev);
    } else {
      OneRowReads(a, b, ev);
    }
  }

  lemma OrderReads(a: Tables, b: Tables, ev: Event)
    requires !IsProductEvent(ev) && SameReads(a, b, ev)
    ensures Handle(a, ev) == Handle(b, ev)
  {
    if ev.OrderCreated? || ev.orderId in a.orders {
      var items := if ev.OrderCreated? then ev.items else a.orders[ev.orderId].items;
      KeysGiveLines(a, b, items);
      SameFaults(a.zones, b.zones, items, ev.ts);
      SameOrderReads(a.zones, b.zones, items, if ev.OrderCreated? then Reserving else Fulfilling, ev);
    }
  }

  /** A handler's outcome depends on nothing but the rows and the order it reads. */
  lemma HandlersAreLocal(a: Tables, b: Tables, ev: Event)
    requires SameReads(a, b, ev)
    ensures Handle(a, ev) == Handle(b, ev)
  {
    if IsProductEvent(ev) {
      ProductReads(a, b, ev);
    } else {
      OrderReads(a, b, ev);
    }
  }

  /** No interrupted batch that is still landing writes a row, or the order, that the handler of ev reads. */
  predicate Clear(bs: seq<Batch>, ev: Event) {
    && (ev.OrderCompleted? ==> Untouched(bs, OrderId(ev.orderId)))
    && forall k :: k in ReadKeys(Visible(bs), ev) ==> Untouched(bs, ZoneId(k))
  }

  lemma ClearSeesSettled(bs: seq<Batch>, ev: Event)
    requires Clear(bs, ev)
    ensures Handle(Visible(bs), ev) == Handle(Settled(bs), ev)
  {
    if ev.OrderCompleted? {
      UntouchedIsSettled(bs, OrderId(ev.orderId));
    }
    forall k | k in ReadKeys(Visible(bs), ev) ensures Look(Visible(bs), ZoneId(k)) == Look(Settled(bs), ZoneId(k)) {
      UntouchedIsSettled(bs, ZoneId(k));
    }
    HandlersAreLocal(Visible(bs), Settled(bs), ev);
  }

  lemma QuietIsClear(bs: seq<Batch>, ev: Event)
    requires Quiet(bs)
    ensures Clear(bs, ev)
  {
  }
}
