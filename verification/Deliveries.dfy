/** What becomes of a delivered message: which counter it raises, where it goes, and the accounts of whole runs. */
module Deliveries {
  import opened MapSums
  import opened Warehouse
  import opened Handlers
  import opened Effects
  import opened Store
  import opened Protocol
  import opened Outcomes

  // ---------- One delivery ----------

  /** The message cannot be handled, or its handler rejects it on what the tables show. */
  predicate Refused(t: Tables, msg: Message) {
    !msg.Recognised? || msg.ev.id == "" || Handle(t, msg.ev).Reject?
  }

  /** The handler accepts the event, and its id is not marked yet. */
  predicate IsNew(s: State, msg: Message) {
    !Refused(Visible(s.batches), msg) && Handle(Visible(s.batches), msg.ev).Apply? && msg.ev.id !in s.marks
  }

  predicate IsSkipped(s: State, msg: Message) {
    !Refused(Visible(s.batches), msg) && (Handle(Visible(s.batches), msg.ev).Skip? || msg.ev.id in s.marks)
  }

  // What one delivery adds to the counters.
  predicate CountsUp(s: State, s': State, processed: bool, failed: bool, skipped: bool) {
    && s'.processed == s.processed + (if processed then 1 else 0)
    && s'.failed == s.failed + (if failed then 1 else 0)
    && s'.skipped == s.skipped + (if skipped then 1 else 0)
  }

  lemma RefusedDelivery(s: State, msg: Message, offset: nat, fate: Fate)
    requires !fate.crash && !Interrupts(s, msg, fate) && Refused(Visible(s.batches), msg)
    ensures var s' := Process(s, msg, offset, fate);
      CountsUp(s, s', false, true, false) && s'.deadLetters == s.deadLetters + [msg]
      && s'.batches == s.batches && s'.marks == s.marks
  {
  }

  lemma SkippedDelivery(s: State, msg: Message, offset: nat, fate: Fate)
    requires !fate.crash && !Interrupts(s, msg, fate) && IsSkipped(s, msg)
    ensures var s' := Process(s, msg, offset, fate);
      CountsUp(s, s', false, false, true) && s'.deadLetters == s.deadLetters && s'.batches == s.batches && s'.marks == s.marks
  {
  }

  lemma NewDelivery(s: State, msg: Message, offset: nat, fate: Fate)
    requires !fate.crash && !Interrupts(s, msg, fate) && IsNew(s, msg)
    ensures var s' := Process(s, msg, offset, fate);
      && CountsUp(s, s', true, false, false) && s'.deadLetters == s.deadLetters
      && s'.batches == s.batches + [Whole(Handle(Visible(s.batches), msg.ev).ops)] && s'.marks == s.marks + {msg.ev.id}
  {
  }

  /**
   * A delivery that is neither interrupted nor cut by a crash is failed and dead-lettered if and only if the message
   * is refused, skipped if and only if its handler skips it or its id is marked, and processed if and only if it is
   * accepted and new; only then are its batch written and its id marked.
   */
  lemma DeliveryCounts(s: State, msg: Message, offset: nat, fate: Fate)
    requires !fate.crash && !Interrupts(s, msg, fate)
    ensures var s' := Process(s, msg, offset, fate); var refused := Refused(Visible(s.batches), msg);
      && (s'.failed == s.failed + 1 <==> refused) && (s'.failed == s.failed <==> !refused)
      && (s'.deadLetters == s.deadLetters + [msg] <==> refused) && (s'.deadLetters == s.deadLetters <==> !refused)
      && (s'.skipped == s.skipped + 1 <==> IsSkipped(s, msg)) && (s'.skipped == s.skipped <==> !IsSkipped(s, msg))
      && (s'.processed == s.processed + 1 <==> IsNew(s, msg)) && (s'.processed == s.processed <==> !IsNew(s, msg))
      && s'.batches == (if IsNew(s, msg) then s.batches + [Whole(Handle(Visible(s.batches), msg.ev).ops)] else s.batches)
      && s'.marks == (if IsNew(s, msg) then s.marks + {msg.ev.id} else s.marks)
  {
    if Refused(Visible(s.batches), msg) {
      RefusedDelivery(s, msg, offset, fate);
    } else if IsSkipped(s, msg) {
      SkippedDelivery(s, msg, offset, fate);
    } else {
      NewDelivery(s, msg, offset, fate);
    }
  }

  /**
   * A delivery that is interrupted counts nothing and sends nothing. What it leaves is what had reached the storage:
   * nothing when reading fails; the id's mark, if it was recorded; the mark and, if the log took it, the batch with
   * the statements that had landed.
   */
  lemma InterruptedDelivery(s: State, msg: Message, offset: nat, fate: Fate)
    requires !fate.crash && Interrupts(s, msg, fate)
    ensures var s' := Process(s, msg, offset, fate);
      && CountsUp(s, s', false, false, false) && s'.deadLetters == s.deadLetters
      && s'.position == offset + 1 && s'.committed == s.committed && s'.commits == s.commits
      && match fate.interrupt
         case AtRead => s'.batches == s.batches && s'.marks == s.marks
         case AtMark(recorded) => s'.batches == s.batches && s'.marks == (if recorded then s.marks + {msg.ev.id} else s.marks)
         case AtBatch(landed) =>
           && s'.marks == s.marks + {msg.ev.id}
           && s'.batches == if landed.NotLogged? then s.batches
                            else s.batches + [Part(Handle(Visible(s.batches), msg.ev).ops, landed.positions)]
         case NoInterrupt => false
  {
  }

  lemma {:induction false} PickedTogether(ops: seq<Write>, a: seq<nat>, b: seq<nat>)
    ensures Picked(ops, a + b) == Picked(ops, a) + Picked(ops, b)
    decreases |b|
  {
    if b == [] {
      assert a + b == a;
    } else {
      PickedTogether(ops, a, b[..|b| - 1]);
      assert (a + b)[..|a + b| - 1] == a + b[..|b| - 1];
    }
  }

  /** What lands later shows after what had landed, and a replayed batch shows every statement; other batches stay. */
  lemma LandingShows(log: seq<Message>, s: State, i: nat, positions: seq<nat>, k: nat)
    requires i < |s.batches| && k < |s.batches|
    ensures var land, replay := Next(log, s, Land(i, positions)), Next(log, s, Replay(i)); var b := s.batches[k];
      && land == s.(batches := land.batches) && replay == s.(batches := replay.batches)
      && |land.batches| == |replay.batches| == |s.batches|
      && Shown(land.batches[k]) == (if k == i && b.Part? then Shown(b) + Picked(b.ops, positions) else Shown(b))
      && Shown(replay.batches[k]) == (if k == i then b.ops else Shown(b))
      && land.batches[k].ops == b.ops && replay.batches[k].ops == b.ops
  {
    if s.batches[k].Part? {
      PickedTogether(s.batches[k].ops, s.batches[k].positions, positions);
    }
  }

  // The process died where the other one lived on to its commit, or to its infrastructure branch.
  predicate DiedAs(dead: State, alive: State, committed: nat) {
    && dead.batches == alive.batches && dead.marks == alive.marks && dead.deadLetters == alive.deadLetters
    && dead.account.applied == alive.account.applied && dead.account.cut == alive.account.cut
    && dead.committed == dead.position == committed
    && dead.processed == dead.failed == dead.skipped == dead.commits == 0
  }

  lemma WriteDies(s: State, ev: Event, ops: seq<Write>, offset: nat, fate: Fate)
    requires fate.crash
    ensures DiedAs(WriteBatch(s, ev, ops, offset, fate), WriteBatch(s, ev, ops, offset, fate.(crash := false)), s.committed)
  {
  }

  lemma ClaimDies(s: State, ev: Event, ops: seq<Write>, offset: nat, fate: Fate)
    requires fate.crash
    ensures DiedAs(Claim(s, ev, ops, offset, fate), Claim(s, ev, ops, offset, fate.(crash := false)), s.committed)
  {
    WriteDies(s.(marks := s.marks + {ev.id}), ev, ops, offset, fate);
  }

  lemma DeadLetterDies(s: State, msg: Message, offset: nat, fate: Fate)
    requires fate.crash
    ensures DiedAs(DeadLetter(s, msg, offset, fate), DeadLetter(s, msg, offset, fate.(crash := false)), s.committed)
    ensures DiedAs(Settle(s, offset, fate), Settle(s, offset, fate.(crash := false)), s.committed)
    ensures DiedAs(Interrupted(s, fate), Interrupted(s, fate.(crash := false)), s.committed)
  {
  }

  /** A crash before the commit loses the counters and the position, and nothing that was stored or sent. */
  lemma CrashKeepsStores(s: State, msg: Message, offset: nat, fate: Fate)
    requires fate.crash
    ensures DiedAs(Process(s, msg, offset, fate), Process(s, msg, offset, fate.(crash := false)), s.committed)
  {
    var moved := s.(position := offset + 1);
    DeadLetterDies(moved, msg, offset, fate);
    DeadLetterDies(moved.(skipped := s.skipped + 1), msg, offset, fate);
    if msg.Recognised? && Handle(Visible(s.batches), msg.ev).Apply? {
      ClaimDies(moved, msg.ev, Handle(Visible(s.batches), msg.ev).ops, offset, fate);
    }
  }

  // ---------- Which events are rejected unread ----------

  function StaleRow(ts: int): ZoneRow {
    ZoneRow(0, 0, "", ts, None)
  }

  // Tables on which an event that reads them is not rejected.
  function Unrejecting(ev: Event): Tables {
    match ev
    case ProductMoved(_, ts, p, source, _, _) => EMPTY.(zones := map[Key(p, source) := StaleRow(ts)])
    case OrderCreated(_, ts, _, items) => if items == [] then EMPTY else EMPTY.(zones := map[KeyOf(items[0]) := StaleRow(ts)])
    case OrderCompleted(_, ts, id) => EMPTY.(orders := map[id := Order(Completed, [], None, ts)])
    case _ => EMPTY.(zones := map[Key(ev.product, ev.zone) := StaleRow(ev.ts)])
  }

  lemma FirstLineStale(zones: Zones, items: seq<Line>, ts: int)
    requires items != [] && items[0].quantity >= 0 && IsStale(ts, ReadZone(zones, KeyOf(items[0])).lastTs)
    ensures CreateFault(zones, items, ts) == Some(Skip)
  {
    CreateFaultStep(zones, [], items[0], ts);
    assert items[..1] == [] + [items[0]];
    CreateFaultPersists(zones, items, 1, ts);
  }

  lemma FirstLineNegative(zones: Zones, items: seq<Line>, ts: int)
    requires items != [] && items[0].quantity < 0
    ensures CreateFault(zones, items, ts) == Some(Reject(NegativeQuantity))
  {
    CreateFaultStep(zones, [], items[0], ts);
    assert items[..1] == [] + [items[0]];
    CreateFaultPersists(zones, items, 1, ts);
  }

  /** A handler reads the tables if and only if what they show can keep it from rejecting the event. */
  lemma ReadsExactly(ev: Event)
    ensures Reads(ev) <==> exists t :: !Handle(t, ev).Reject?
  {
    if Reads(ev) {
      if ev.OrderCreated? {
        FirstLineStale(Unrejecting(ev).zones, ev.items, ev.ts);
      }
      assert !Handle(Unrejecting(ev), ev).Reject?;
    } else {
      forall t ensures Handle(t, ev).Reject? {
        if ev.OrderCreated? && ev.items != [] {
          FirstLineNegative(t.zones, ev.items, ev.ts);
        }
      }
    }
  }

  // ---------- Runs ----------

  // A delivery that refuses its message: nothing fails before its handler has read what it needs.
  predicate Refuses(log: seq<Message>, s: State, m: Move) {
    && m.Poll? && s.position < |log|
    && Refused(Visible(s.batches), log[s.position])
    && (log[s.position].Recognised? && log[s.position].ev.id != "" ==> !(m.fate.interrupt.AtRead? && Reads(log[s.position].ev)))
  }

  /** The messages refused along a run, one for each delivery that refuses its message. */
  function RefusedIn(log: seq<Message>, moves: seq<Move>): seq<Message> {
    if moves == [] then []
    else
      var front, m := moves[..|moves| - 1], moves[|moves| - 1];
      var s := Exec(log, front);
      RefusedIn(log, front) + (if Refuses(log, s, m) then [log[s.position]] else [])
  }

  lemma ClaimSendsNothing(s: State, ev: Event, ops: seq<Write>, offset: nat, fate: Fate)
    ensures Claim(s, ev, ops, offset, fate).deadLetters == s.deadLetters
  {
  }

  lemma RefusalIsSent(log: seq<Message>, s: State, m: Move)
    ensures Next(log, s, m).deadLetters == s.deadLetters + (if Refuses(log, s, m) then [log[s.position]] else [])
  {
    if m.Poll? && s.position < |log| {
      var msg, moved := log[s.position], s.(position := s.position + 1);
      if msg.Recognised? && Handle(Visible(s.batches), msg.ev).Apply? {
        ClaimSendsNothing(moved, msg.ev, Handle(Visible(s.batches), msg.ev).ops, s.position, m.fate);
      }
    }
  }

  /** In every run, through crashes, redelivery and expiry, the dead letters are exactly the refused messages, in order. */
  lemma {:induction false} DeadLettersExactly(log: seq<Message>, moves: seq<Move>)
    ensures Exec(log, moves).deadLetters == RefusedIn(log, moves)
    decreases |moves|
  {
    if moves != [] {
      DeadLettersExactly(log, moves[..|moves| - 1]);
      RefusalIsSent(log, Exec(log, moves[..|moves| - 1]), moves[|moves| - 1]);
    }
  }

  lemma {:induction false} RefusedStays(log: seq<Message>, moves: seq<Move>, n: nat)
    requires n <= |moves|
    ensures RefusedIn(log, moves[..n]) <= RefusedIn(log, moves)
    decreases |moves| - n
  {
    if n == |moves| {
      assert moves[..n] == moves;
    } else {
      var front := moves[..|moves| - 1];
      assert front[..n] == moves[..n];
      RefusedStays(log, front, n);
    }
  }

  /** Every refused message whose delivery got its outcome, or died before its commit, is in the dead letters for good. */
  lemma RefusedIsDeadLettered(log: seq<Message>, moves: seq<Move>, i: nat)
    requires i < |moves|
    requires var s := Exec(log, moves[..i]);
      moves[i].Poll? && s.position < |log| && Refused(Visible(s.batches), log[s.position]) && !Interrupts(s, log[s.position], moves[i].fate)
    ensures log[Exec(log, moves[..i]).position] in Exec(log, moves).deadLetters
  {
    var s := Exec(log, moves[..i]);
    assert moves[..i + 1][..i] == moves[..i];
    assert Refuses(log, s, moves[i]);
    var refused := RefusedIn(log, moves[..i + 1]);
    assert refused[|refused| - 1] == log[s.position];
    RefusedStays(log, moves, i + 1);
    assert RefusedIn(log, moves)[|refused| - 1] == log[s.position];
    DeadLettersExactly(log, moves);
  }

  // The event of a delivery that logs its batch: accepted, its id claimed by this delivery, the batch not lost.
  predicate Logs(log: seq<Message>, s: State, m: Move) {
    && m.Poll? && s.position < |log| && IsNew(s, log[s.position])
    && (m.fate.interrupt.AtBatch? ==> m.fate.interrupt.landed.Logged?)
    && !m.fate.interrupt.AtMark? && !m.fate.interrupt.AtRead?
  }

  lemma NewIsRead(t: Tables, ev: Event)
    requires Accepts(t, ev)
    ensures Reads(ev)
  {
    ReadsExactly(ev);
  }

  lemma LoggedIsApplied(log: seq<Message>, s: State, m: Move)
    ensures Next(log, s, m).account.applied == s.account.applied + (if Logs(log, s, m) then [log[s.position].ev] else [])
  {
    if m.Poll? && s.position < |log| && IsNew(s, log[s.position]) {
      NewIsRead(Visible(s.batches), log[s.position].ev);
    }
  }

  function LoggedIn(log: seq<Message>, moves: seq<Move>): seq<Event> {
    if moves == [] then []
    else
      var front, m := moves[..|moves| - 1], moves[|moves| - 1];
      var s := Exec(log, front);
      LoggedIn(log, front) + (if Logs(log, s, m) then [log[s.position].ev] else [])
  }

  /** In every run the applied events are exactly those accepted and new whose batch was logged, in order. */
  lemma {:induction false} AppliedExactly(log: seq<Message>, moves: seq<Move>)
    ensures Exec(log, moves).account.applied == LoggedIn(log, moves)
    decreases |moves|
  {
    if moves != [] {
      AppliedExactly(log, moves[..|moves| - 1]);
      LoggedIsApplied(log, Exec(log, moves[..|moves| - 1]), moves[|moves| - 1]);
    }
  }
}
