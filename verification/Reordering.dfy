/**
 * A timestamped store whose events touch named rows: why events that touch different rows may be
 * reordered, and why sorting the accepted events by timestamp changes nothing.
 */
module Reordering {
  import opened Warehouse

  // The inventory rows and the order rows.
  datatype Rows = Rows(zones: Zones, orders: map<string, Order>)

  // fits says whether an event is accepted; writes are the rows it then writes, one for each of its keys and orders.
  datatype Machine = Machine(
    keys: Event -> set<Key>,
    fits: (Rows, Event) -> bool,
    writes: (Rows, Event) -> Rows)

  function OrdersOf(ev: Event): set<string> {
    if IsProductEvent(ev) then {} else {ev.orderId}
  }

  predicate SameOn(a: Rows, b: Rows, keys: set<Key>, ids: set<string>) {
    && (forall k :: k in keys ==> (k in a.zones <==> k in b.zones) && (k in a.zones ==> a.zones[k] == b.zones[k]))
    && (forall id :: id in ids ==> (id in a.orders <==> id in b.orders) && (id in a.orders ==> a.orders[id] == b.orders[id]))
  }

  /** Every row of w has the event's timestamp, and replaces an older one if any. */
  predicate OverwritesOlder(z: Rows, w: Rows, ts: int) {
    && (forall k :: k in w.zones ==> w.zones[k].ts == ts && (k in z.zones ==> z.zones[k].ts < ts))
    && (forall id :: id in w.orders ==> w.orders[id].updatedAt == ts && (id in z.orders ==> z.orders[id].updatedAt < ts))
  }

  /** What an event reads and writes stays within its keys and its order, and it only ever overwrites older rows. */
  ghost predicate Lawful(m: Machine) {
    && (forall z: Rows, ev: Event :: m.fits(z, ev) ==>
          m.writes(z, ev).zones.Keys == m.keys(ev) && m.writes(z, ev).orders.Keys == OrdersOf(ev))
    && (forall a: Rows, b: Rows, ev: Event :: SameOn(a, b, m.keys(ev), OrdersOf(ev)) ==>
          m.fits(a, ev) == m.fits(b, ev) && (m.fits(a, ev) ==> m.writes(a, ev) == m.writes(b, ev)))
    && (forall z: Rows, ev: Event :: m.fits(z, ev) ==> OverwritesOlder(z, m.writes(z, ev), ev.ts))
  }

  function Put(z: Rows, w: Rows): Rows {
    Rows(z.zones + w.zones, z.orders + w.orders)
  }

  function Advance(m: Machine, z: Rows, ev: Event): Rows {
    if m.fits(z, ev) then Put(z, m.writes(z, ev)) else z
  }

  /** The rows after a delivery sequence, first to last. */
  function Fold(m: Machine, z: Rows, evs: seq<Event>): Rows
    decreases |evs|
  {
    if evs == [] then z else Fold(m, Advance(m, z, evs[0]), evs[1..])
  }

  /** Every event of evs fits when its turn comes: none is stale, none is rejected. */
  ghost predicate AllFit(m: Machine, z: Rows, evs: seq<Event>)
    decreases |evs|
  {
    evs == [] || (m.fits(z, evs[0]) && AllFit(m, Advance(m, z, evs[0]), evs[1..]))
  }

  /** The accepted events of a delivery sequence, in delivery order. */
  function Accepted(m: Machine, z: Rows, evs: seq<Event>): seq<Event>
    decreases |evs|
  {
    if evs == [] then []
    else (if m.fits(z, evs[0]) then [evs[0]] else []) + Accepted(m, Advance(m, z, evs[0]), evs[1..])
  }

  lemma {:induction false} AcceptedSuffices(m: Machine, z: Rows, evs: seq<Event>)
    ensures AllFit(m, z, Accepted(m, z, evs))
    ensures Fold(m, z, Accepted(m, z, evs)) == Fold(m, z, evs)
    decreases |evs|
  {
    if evs != [] {
      var rest := Accepted(m, Advance(m, z, evs[0]), evs[1..]);
      AcceptedSuffices(m, Advance(m, z, evs[0]), evs[1..]);
      if m.fits(z, evs[0]) {
        assert Accepted(m, z, evs)[1..] == rest;
      } else {
        assert Accepted(m, z, evs) == rest;
      }
    }
  }

  predicate Conflict(m: Machine, a: Event, b: Event) {
    !(m.keys(a) !! m.keys(b)) || !(OrdersOf(a) !! OrdersOf(b))
  }

  lemma PutsCommute(z: Rows, a: Rows, b: Rows)
    requires a.zones.Keys !! b.zones.Keys && a.orders.Keys !! b.orders.Keys
    ensures Put(Put(z, a), b) == Put(Put(z, b), a)
  {
    assert z.zones + a.zones + b.zones == z.zones + b.zones + a.zones;
    assert z.orders + a.orders + b.orders == z.orders + b.orders + a.orders;
  }

  lemma Commute(m: Machine, z: Rows, a: Event, b: Event)
    requires Lawful(m) && !Conflict(m, a, b)
    requires m.fits(z, a) && m.fits(Advance(m, z, a), b)
    ensures m.fits(z, b) && m.fits(Advance(m, z, b), a)
    ensures Advance(m, Advance(m, z, a), b) == Advance(m, Advance(m, z, b), a)
  {
    var wa, wb := m.writes(z, a), m.writes(z, b);
    assert m.keys(a) !! m.keys(b) && OrdersOf(a) !! OrdersOf(b);
    assert SameOn(Put(z, wa), z, m.keys(b), OrdersOf(b));
    PutsCommute(z, wa, wb);
    assert SameOn(Put(z, wb), z, m.keys(a), OrdersOf(a));
  }

  // ---------- Accepted events on a common row have strictly increasing timestamps ----------

  // A row of an event that is still to come, if there is one now.
  predicate OlderRows(m: Machine, z: Rows, ev: Event) {
    && (forall k :: k in m.keys(ev) && k in z.zones ==> z.zones[k].ts < ev.ts)
    && (forall id :: id in OrdersOf(ev) && id in z.orders ==> z.orders[id].updatedAt < ev.ts)
  }

  lemma {:induction false} LaterOnRow(m: Machine, z: Rows, evs: seq<Event>, i: nat)
    requires Lawful(m) && AllFit(m, z, evs) && i < |evs|
    ensures OlderRows(m, z, evs[i])
    decreases |evs|
  {
    assert OverwritesOlder(z, m.writes(z, evs[0]), evs[0].ts);
    if i > 0 {
      LaterOnRow(m, Advance(m, z, evs[0]), evs[1..], i - 1);
    }
  }

  // What has just been written is older than any event to come on the same row.
  lemma JustWritten(m: Machine, z: Rows, a: Event, b: Event)
    requires Lawful(m) && m.fits(z, a) && OlderRows(m, Advance(m, z, a), b) && Conflict(m, a, b)
    ensures a.ts < b.ts
  {
    var w := m.writes(z, a);
    assert OverwritesOlder(z, w, a.ts);
    if !(m.keys(a) !! m.keys(b)) {
      var k :| k in m.keys(a) && k in m.keys(b);
      assert k in w.zones;
    } else {
      var id :| id in OrdersOf(a) && id in OrdersOf(b);
      assert id in w.orders;
    }
  }

  lemma {:induction false} FirstConflict(m: Machine, z: Rows, evs: seq<Event>, i: nat, j: nat, a: Event, b: Event)
    requires Lawful(m) && AllFit(m, z, evs) && i < j < |evs| && evs[i] == a && evs[j] == b
    requires Conflict(m, a, b)
    ensures a.ts < b.ts
    decreases |evs|
  {
    var z', tail := Advance(m, z, evs[0]), evs[1..];
    assert tail[j - 1] == b;
    if i > 0 {
      assert tail[i - 1] == a;
      FirstConflict(m, z', tail, i - 1, j - 1, a, b);
    } else {
      LaterOnRow(m, z', tail, j - 1);
      JustWritten(m, z, a, b);
    }
  }

  /** Two accepted events that share a row were accepted in strict timestamp order. */
  lemma ConflictsIncrease(m: Machine, z: Rows, evs: seq<Event>, i: nat, j: nat)
    requires Lawful(m) && AllFit(m, z, evs) && i < j < |evs|
    requires Conflict(m, evs[i], evs[j])
    ensures evs[i].ts < evs[j].ts
  {
    FirstConflict(m, z, evs, i, j, evs[i], evs[j]);
  }

  // ---------- Any timestamp order gives the same rows ----------

  lemma FirstOf(m: Machine, z: Rows, a: Event, rest: seq<Event>)
    ensures AllFit(m, z, [a] + rest) <==> m.fits(z, a) && AllFit(m, Advance(m, z, a), rest)
    ensures Fold(m, z, [a] + rest) == Fold(m, Advance(m, z, a), rest)
  {
    assert ([a] + rest)[1..] == rest;
  }

  lemma SplitOff(evs: seq<Event>, i: nat)
    requires 0 < i < |evs|
    ensures evs[..i] + evs[i + 1..] == [evs[0]] + (evs[1..][..i - 1] + evs[1..][i..])
    ensures evs == [evs[0]] + evs[1..]
  {
  }

  // Bringing one event to the front past events it does not conflict with.
  lemma {:induction false} ToFront(m: Machine, z: Rows, evs: seq<Event>, i: nat)
    requires Lawful(m) && AllFit(m, z, evs) && i < |evs|
    requires forall j :: 0 <= j < i ==> !Conflict(m, evs[j], evs[i])
    ensures m.fits(z, evs[i])
    ensures AllFit(m, Advance(m, z, evs[i]), evs[..i] + evs[i + 1..])
    ensures Fold(m, Advance(m, z, evs[i]), evs[..i] + evs[i + 1..]) == Fold(m, z, evs)
    decreases i
  {
    if i == 0 {
      assert evs[..0] + evs[1..] == evs[1..];
    } else {
      var a, b, tail := evs[0], evs[i], evs[1..];
      var rest := tail[..i - 1] + tail[i..];
      SplitOff(evs, i);
      FirstOf(m, z, a, tail);
      assert tail[i - 1] == b;
      forall j | 0 <= j < i - 1 ensures !Conflict(m, tail[j], b) {
        assert tail[j] == evs[j + 1];
      }
      ToFront(m, Advance(m, z, a), tail, i - 1);
      Commute(m, z, a, b);
      FirstOf(m, Advance(m, z, b), a, rest);
    }
  }

  ghost predicate ByTimestamp(evs: seq<Event>) {
    forall i, j :: 0 <= i < j < |evs| ==> evs[i].ts <= evs[j].ts
  }

  lemma Without(evs: seq<Event>, i: nat)
    requires i < |evs|
    ensures multiset(evs) == multiset{evs[i]} + multiset(evs[..i] + evs[i + 1..])
  {
    assert evs == evs[..i] + [evs[i]] + evs[i + 1..];
  }

  lemma WithoutFirst(evs: seq<Event>)
    requires evs != []
    ensures multiset(evs) == multiset{evs[0]} + multiset(evs[1..])
  {
    assert evs == [evs[0]] + evs[1..];
  }

  lemma Cancel(m: multiset<Event>, a: multiset<Event>, b: multiset<Event>)
    requires m + a == m + b
    ensures a == b
  {
    assert a == m + a - m;
    assert b == m + b - m;
  }

  lemma TakeOut(evs: seq<Event>, sorted: seq<Event>) returns (i: nat)
    requires sorted != [] && multiset(sorted) == multiset(evs)
    ensures i < |evs| && evs[i] == sorted[0]
    ensures multiset(sorted[1..]) == multiset(evs[..i] + evs[i + 1..])
  {
    assert sorted[0] in multiset(evs);
    i :| i < |evs| && evs[i] == sorted[0];
    Without(evs, i);
    WithoutFirst(sorted);
    Cancel(multiset{sorted[0]}, multiset(sorted[1..]), multiset(evs[..i] + evs[i + 1..]));
  }

  lemma FirstIsEarliest(evs: seq<Event>, sorted: seq<Event>, j: nat)
    requires sorted != [] && multiset(sorted) == multiset(evs) && ByTimestamp(sorted) && j < |evs|
    ensures sorted[0].ts <= evs[j].ts
  {
    assert evs[j] in multiset(sorted);
  }

  /** Every timestamp-ordered arrangement of evs fits throughout and ends in the same rows. */
  lemma {:induction false} SortedReplay(m: Machine, z: Rows, evs: seq<Event>, sorted: seq<Event>)
    requires Lawful(m) && AllFit(m, z, evs)
    requires multiset(sorted) == multiset(evs) && ByTimestamp(sorted)
    ensures AllFit(m, z, sorted) && Fold(m, z, sorted) == Fold(m, z, evs)
    decreases |evs|
  {
    if sorted == [] {
      assert |multiset(evs)| == 0;
      assert evs == [];
    } else {
      var i := TakeOut(evs, sorted);
      forall j | 0 <= j < i ensures !Conflict(m, evs[j], evs[i]) {
        if Conflict(m, evs[j], evs[i]) {
          ConflictsIncrease(m, z, evs, j, i);
          FirstIsEarliest(evs, sorted, j);
        }
      }
      ToFront(m, z, evs, i);
      SortedReplay(m, Advance(m, z, evs[i]), evs[..i] + evs[i + 1..], sorted[1..]);
    }
  }
}
