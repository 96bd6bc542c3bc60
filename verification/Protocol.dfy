/**
 * The delivery protocol as a state machine: deliver, handle, mark, batch, commit, with an interruption
 * possible between any two of them, redelivery, expiry of marks, and replay of interrupted batches.
 */
module Protocol {
  import opened MapSums
  import opened Warehouse
  import opened Handlers
  import opened Effects
  import opened Batches
  import opened Store
  import opened LateBatches

  // A message off the topic. Unrecognised events decode, but no handler knows their type; an event
  // without an id has the empty one.
  datatype Message = Undecodable | Unrecognised(id: string) | Recognised(ev: Event)

  // What reached the tables before a batch was interrupted: nothing, or the batch log took it and the
  // statements at these positions had landed already.
  datatype Landed = NotLogged | Logged(positions: seq<nat>)
  datatype Interrupt = NoInterrupt | AtRead | AtMark(recorded: bool) | AtBatch(landed: Landed)

  // The environment's choices for one delivery. A crash turns the interruption into the death of the
  // process, and without an interruption it falls just before the commit.
  datatype Fate = Fate(interrupt: Interrupt, crash: bool, commits: bool)

  // What has happened so far, for the accounts: events applied, ids marked without being applied,
  // marks expired, and offsets that got an outcome.
  datatype Account = Account(applied: seq<Event>, cut: multiset<string>, expired: multiset<string>, settled: set<nat>)

  datatype State = State(
    batches: seq<Batch>,
    marks: set<string>,
    position: nat,
    committed: nat,
    processed: nat,
    failed: nat,
    skipped: nat,
    commits: nat,
    deadLetters: seq<Message>,
    account: Account)

  const START := State([], {}, 0, 0, 0, 0, 0, 0, [], Account([], multiset{}, multiset{}, {}))

  // A restarted process resumes at the committed offset with fresh counters.
  function Restarted(s: State): State {
    s.(position := s.committed, processed := 0, failed := 0, skipped := 0, commits := 0)
  }

  // The infrastructure branch: the position has moved on, and nothing is committed.
  function Interrupted(s: State, fate: Fate): State {
    if fate.crash then Restarted(s) else s
  }

  // A message that got its outcome has its offset committed.
  function Settle(s: State, offset: nat, fate: Fate): State {
    if fate.crash then Restarted(s)
    else s.(commits := s.commits + 1,
            committed := if fate.commits then offset + 1 else s.committed,
            account := s.account.(settled := s.account.settled + {offset}))
  }

  function DeadLetter(s: State, msg: Message, offset: nat, fate: Fate): State {
    Settle(s.(failed := s.failed + 1, deadLetters := s.deadLetters + [msg]), offset, fate)
  }

  // Whether the handler gets as far as reading a table before it can reject.
  predicate Reads(ev: Event) {
    match ev
    case ProductMoved(_, _, _, source, dest, q) => q >= 0 && source != dest
    case InventoryCounted(_, _, _, _, counted) => counted >= 0
    case OrderCreated(_, _, _, items) => items != [] && items[0].quantity >= 0
    case OrderCompleted(_, _, _) => true
    case _ => ev.quantity >= 0
  }

  function Bump(m: multiset<string>, id: string): multiset<string> {
    m[id := m[id] + 1]
  }

  function WithCut(s: State, id: string): State {
    s.(account := s.account.(cut := Bump(s.account.cut, id)))
  }

  function WithBatch(s: State, ev: Event, b: Batch): State {
    s.(batches := s.batches + [b], account := s.account.(applied := s.account.applied + [ev]))
  }

  // The batch of an event whose id has just been claimed.
  function WriteBatch(s: State, ev: Event, ops: seq<Write>, offset: nat, fate: Fate): State {
    if !fate.interrupt.AtBatch? then Settle(WithBatch(s, ev, Whole(ops)).(processed := s.processed + 1), offset, fate)
    else if fate.interrupt.landed.NotLogged? then Interrupted(WithCut(s, ev.id), fate)
    else Interrupted(WithBatch(s, ev, Part(ops, fate.interrupt.landed.positions)), fate)
  }

  // Claiming the id, then writing the batch if the id was new.
  function Claim(s: State, ev: Event, ops: seq<Write>, offset: nat, fate: Fate): State {
    var marked := s.(marks := s.marks + {ev.id});
    if fate.interrupt.AtMark? then
      if fate.interrupt.recorded && ev.id !in s.marks then Interrupted(WithCut(marked, ev.id), fate) else Interrupted(s, fate)
    else if ev.id in s.marks then Settle(s.(skipped := s.skipped + 1), offset, fate)
    else WriteBatch(marked, ev, ops, offset, fate)
  }

  /** One message, from delivery to its commit or its interruption. */
  function Process(state: State, msg: Message, offset: nat, fate: Fate): State {
    var s := state.(position := offset + 1);
    if !msg.Recognised? || msg.ev.id == "" then DeadLetter(s, msg, offset, fate)
    else if fate.interrupt.AtRead? && Reads(msg.ev) then Interrupted(s, fate)
    else
      match Handle(Visible(s.batches), msg.ev)
      case Reject(_) => DeadLetter(s, msg, offset, fate)
      case Skip => Settle(s.(skipped := s.skipped + 1), offset, fate)
      case Apply(ops) => Claim(s, msg.ev, ops, offset, fate)
  }

  // Messages are polled whether or not interrupted batches have been replayed; more of one may land at any time.
  datatype Move = Poll(fate: Fate) | Expire(id: string) | Replay(batch: nat) | Land(batch: nat, positions: seq<nat>) | Rebalance

  function MoreLanded(b: Batch, positions: seq<nat>): Batch {
    if b.Whole? then b else Part(b.ops, b.positions + positions)
  }

  function Next(log: seq<Message>, s: State, m: Move): State {
    match m
    case Poll(fate) => if s.position < |log| then Process(s, log[s.position], s.position, fate) else s
    case Expire(id) =>
      if id in s.marks
      then s.(marks := s.marks - {id}, account := s.account.(expired := Bump(s.account.expired, id)))
      else s
    case Replay(i) => if i < |s.batches| then s.(batches := s.batches[i := Whole(s.batches[i].ops)]) else s
    case Land(i, positions) =>
      if i < |s.batches| then s.(batches := s.batches[i := MoreLanded(s.batches[i], positions)]) else s
    case Rebalance => s.(position := s.committed)
  }

  function Exec(log: seq<Message>, moves: seq<Move>): State {
    if moves == [] then START
    else Next(log, Exec(log, moves[..|moves| - 1]), moves[|moves| - 1])
  }

  // ---------- At most once, and the tables as a fold ----------

  /** How often an event with this id is among evs. */
  function Occurrences(evs: seq<Event>, id: string): nat {
    if evs == [] then 0
    else Occurrences(evs[..|evs| - 1], id) + (if evs[|evs| - 1].id == id then 1 else 0)
  }

  /** Every mark ever claimed for id is accounted for: applied or cut on one side, expired or live on the other. */
  predicate MarksBalance(s: State, id: string) {
    Occurrences(s.account.applied, id) + s.account.cut[id] == s.account.expired[id] + (if id in s.marks then 1 else 0)
  }

  lemma OccurrencesSnoc(evs: seq<Event>, ev: Event, id: string)
    ensures Occurrences(evs + [ev], id) == Occurrences(evs, id) + (if ev.id == id then 1 else 0)
  {
    assert (evs + [ev])[..|evs|] == evs;
  }

  // Marks claimed for id that are neither applied nor cut yet.
  function Owed(s: State, id: string): int {
    s.account.expired[id] + (if id in s.marks then 1 else 0) - Occurrences(s.account.applied, id) - s.account.cut[id]
  }

  lemma CutPays(s: State, id: string, other: string)
    ensures Owed(WithCut(s, id), other) == Owed(s, other) - (if id == other then 1 else 0)
  {
  }

  lemma BatchPays(s: State, ev: Event, b: Batch, id: string)
    ensures Owed(WithBatch(s, ev, b), id) == Owed(s, id) - (if ev.id == id then 1 else 0)
  {
    OccurrencesSnoc(s.account.applied, ev, id);
  }

  lemma EndPays(s: State, offset: nat, fate: Fate, id: string)
    ensures Owed(Settle(s, offset, fate), id) == Owed(s, id) && Owed(Interrupted(s, fate), id) == Owed(s, id)
  {
  }

  lemma WriteBatchPays(s: State, ev: Event, ops: seq<Write>, offset: nat, fate: Fate, id: string)
    ensures Owed(WriteBatch(s, ev, ops, offset, fate), id) == Owed(s, id) - (if ev.id == id then 1 else 0)
  {
    if !fate.interrupt.AtBatch? {
      BatchPays(s, ev, Whole(ops), id);
      EndPays(WithBatch(s, ev, Whole(ops)).(processed := s.processed + 1), offset, fate, id);
    } else if fate.interrupt.landed.NotLogged? {
      CutPays(s, ev.id, id);
      EndPays(WithCut(s, ev.id), offset, fate, id);
    } else {
      var part := Part(ops, fate.interrupt.landed.positions);
      BatchPays(s, ev, part, id);
      EndPays(WithBatch(s, ev, part), offset, fate, id);
    }
  }

  lemma ClaimKeepsMarks(s: State, ev: Event, ops: seq<Write>, offset: nat, fate: Fate, id: string)
    requires MarksBalance(s, id)
    ensures MarksBalance(Claim(s, ev, ops, offset, fate), id)
  {
    if !fate.interrupt.AtMark? && ev.id !in s.marks {
      WriteBatchPays(s.(marks := s.marks + {ev.id}), ev, ops, offset, fate, id);
    }
  }

  lemma ProcessKeepsMarks(s: State, msg: Message, offset: nat, fate: Fate, id: string)
    requires MarksBalance(s, id)
    ensures MarksBalance(Process(s, msg, offset, fate), id)
  {
    var s' := s.(position := offset + 1);
    if msg.Recognised? && Handle(Visible(s.batches), msg.ev).Apply? {
      ClaimKeepsMarks(s', msg.ev, Handle(Visible(s.batches), msg.ev).ops, offset, fate, id);
    }
  }

  lemma MarksBalanceKept(log: seq<Message>, s: State, m: Move, id: string)
    requires MarksBalance(s, id)
    ensures MarksBalance(Next(log, s, m), id)
  {
    if m.Poll? && s.position < |log| {
      ProcessKeepsMarks(s, log[s.position], s.position, m.fate, id);
    }
  }

  /** At-most-once: for each life of its mark, an id's batch is either applied once or cut once. */
  lemma {:induction false} AtMostOnce(log: seq<Message>, moves: seq<Move>, id: string)
    ensures var s := Exec(log, moves);
      Occurrences(s.account.applied, id) + s.account.cut[id] == s.account.expired[id] + (if id in s.marks then 1 else 0)
    decreases |moves|
  {
    if moves != [] {
      var front := moves[..|moves| - 1];
      AtMostOnce(log, front, id);
      MarksBalanceKept(log, Exec(log, front), moves[|moves| - 1], id);
    }
  }

  /** While no mark of an id has expired, it is applied at most once, and it is marked but unapplied only if cut. */
  lemma AppliedAtMostOnce(log: seq<Message>, moves: seq<Move>, id: string)
    requires Exec(log, moves).account.expired[id] == 0
    ensures var s := Exec(log, moves);
      && Occurrences(s.account.applied, id) <= 1
      && (Occurrences(s.account.applied, id) == 1 ==> id in s.marks && s.account.cut[id] == 0)
      && (id in s.marks && Occurrences(s.account.applied, id) == 0 ==> s.account.cut[id] == 1)
  {
    AtMostOnce(log, moves, id);
  }

  // ---------- What the tables settle on ----------

  // The state has one more batch: that of ev, built from what was visible.
  predicate Adds(s: State, s': State, ev: Event) {
    && Accepts(Visible(s.batches), ev)
    && |s'.batches| == |s.batches| + 1 && s'.batches[..|s.batches|] == s.batches
    && s'.batches[|s.batches|].ops == Handle(Visible(s.batches), ev).ops
    && s'.account.applied == s.account.applied + [ev]
  }

  predicate AddsNothing(s: State, s': State) {
    s'.batches == s.batches && s'.account.applied == s.account.applied
  }

  lemma WriteBatchAdds(s: State, ev: Event, ops: seq<Write>, offset: nat, fate: Fate)
    requires Handle(Visible(s.batches), ev) == Apply(ops)
    ensures var s' := WriteBatch(s, ev, ops, offset, fate);
      AddsNothing(s, s') || Adds(s, s', ev)
  {
  }

  lemma ClaimAdds(s: State, ev: Event, ops: seq<Write>, offset: nat, fate: Fate)
    requires Handle(Visible(s.batches), ev) == Apply(ops)
    ensures var s' := Claim(s, ev, ops, offset, fate);
      AddsNothing(s, s') || Adds(s, s', ev)
  {
    WriteBatchAdds(s.(marks := s.marks + {ev.id}), ev, ops, offset, fate);
  }

  lemma ProcessAdds(s: State, msg: Message, offset: nat, fate: Fate)
    ensures var s' := Process(s, msg, offset, fate);
      AddsNothing(s, s') || (msg.Recognised? && Adds(s, s', msg.ev))
  {
    var s0 := s.(position := offset + 1);
    if msg.Recognised? && Handle(Visible(s.batches), msg.ev).Apply? {
      ClaimAdds(s0, msg.ev, Handle(Visible(s.batches), msg.ev).ops, offset, fate);
    }
  }

  /** A move either adds the batch of one event, or changes at most how much of the batches has landed. */
  lemma NextAdds(log: seq<Message>, s: State, m: Move)
    ensures var s' := Next(log, s, m);
      || (SameWrites(s.batches, s'.batches) && s'.account.applied == s.account.applied)
      || (m.Poll? && s.position < |log| && log[s.position].Recognised? && Adds(s, s', log[s.position].ev))
  {
    if m.Poll? && s.position < |log| {
      ProcessAdds(s, log[s.position], s.position, m.fate);
    }
  }

  lemma AddsSettled(s: State, s': State, ev: Event)
    requires Adds(s, s', ev)
    ensures Settled(s'.batches) == ApplyAll(Settled(s.batches), Handle(Visible(s.batches), ev).ops)
  {
    Append(s.batches, s'.batches[|s.batches|]);
    assert s'.batches == s.batches + [s'.batches[|s.batches|]];
  }

  /** In every run, whatever is polled before whatever is replayed, the three inventory tables settle on the same rows. */
  lemma {:induction false} SettledViewsAgree(log: seq<Message>, moves: seq<Move>)
    ensures Agree(Settled(Exec(log, moves).batches))
    decreases |moves|
  {
    if moves == [] {
      forall k ensures InSync(EMPTY, k) {}
    } else {
      var s, m := Exec(log, moves[..|moves| - 1]), moves[|moves| - 1];
      SettledViewsAgree(log, moves[..|moves| - 1]);
      NextAdds(log, s, m);
      if SameWrites(s.batches, Next(log, s, m).batches) {
        LandingSettlesAlike(s.batches, Next(log, s, m).batches);
      } else {
        AddsSettled(s, Next(log, s, m), log[s.position].ev);
        BatchLands(Settled(s.batches), Visible(s.batches), log[s.position].ev);
      }
    }
  }

  /** Whenever every batch has landed, the three inventory tables agree. */
  lemma ViewsAgreeInEveryRun(log: seq<Message>, moves: seq<Move>)
    requires Quiet(Exec(log, moves).batches)
    ensures Agree(Visible(Exec(log, moves).batches))
  {
    SettledViewsAgree(log, moves);
    QuietIsSettled(Exec(log, moves).batches);
  }

  /** The tables settle on what the applied events give one after another, each accepted in its turn. */
  ghost predicate TablesAreFold(s: State) {
    && Clean(EMPTY, s.account.applied)
    && Settled(s.batches) == Run(EMPTY, s.account.applied)
  }

  // The event whose batch a move adds, if it adds one.
  function AddedBy(log: seq<Message>, s: State, m: Move): Option<Event> {
    var s' := Next(log, s, m);
    if |s'.batches| > |s.batches| && m.Poll? && s.position < |log| && log[s.position].Recognised?
    then Some(log[s.position].ev) else None
  }

  /** An event that a move applies has the same effect on the settled tables as on the visible ones. */
  predicate Faithful(log: seq<Message>, s: State, m: Move) {
    var ev := AddedBy(log, s, m);
    ev.Some? ==> SameEffect(Visible(s.batches), Settled(s.batches), ev.value)
  }

  lemma FoldKeptExactly(log: seq<Message>, s: State, m: Move)
    requires TablesAreFold(s) && Agree(Settled(s.batches))
    ensures TablesAreFold(Next(log, s, m)) <==> Faithful(log, s, m)
  {
    var s' := Next(log, s, m);
    NextAdds(log, s, m);
    if SameWrites(s.batches, s'.batches) {
      LandingSettlesAlike(s.batches, s'.batches);
    } else {
      var ev := log[s.position].ev;
      AddsSettled(s, s', ev);
      RunSnoc(EMPTY, s.account.applied, ev);
      EarlyIsLateExactly(Visible(s.batches), Settled(s.batches), ev);
    }
  }

  ghost predicate FoldThroughout(log: seq<Message>, moves: seq<Move>) {
    forall n :: 0 <= n <= |moves| ==> TablesAreFold(Exec(log, moves[..n]))
  }

  ghost predicate FaithfulThroughout(log: seq<Message>, moves: seq<Move>) {
    forall i :: 0 <= i < |moves| ==> Faithful(log, Exec(log, moves[..i]), moves[i])
  }

  lemma ExecTo(log: seq<Message>, moves: seq<Move>, n: nat)
    requires n < |moves|
    ensures Exec(log, moves[..n + 1]) == Next(log, Exec(log, moves[..n]), moves[n])
  {
    assert moves[..n + 1][..n] == moves[..n];
  }

  lemma {:induction false} FoldTo(log: seq<Message>, moves: seq<Move>, n: nat)
    requires n <= |moves| && FaithfulThroughout(log, moves)
    ensures TablesAreFold(Exec(log, moves[..n]))
    decreases n
  {
    if n > 0 {
      FoldTo(log, moves, n - 1);
      ExecTo(log, moves, n - 1);
      SettledViewsAgree(log, moves[..n - 1]);
      FoldKeptExactly(log, Exec(log, moves[..n - 1]), moves[n - 1]);
    }
  }

  /**
   * Exactly when the tables are a fold of the applied events all through a run: if and only if every event
   * applied while earlier batches are still landing has the effect it would have once they have landed.
   */
  lemma RunsAreFoldsExactly(log: seq<Message>, moves: seq<Move>)
    ensures FoldThroughout(log, moves) <==> FaithfulThroughout(log, moves)
  {
    if FaithfulThroughout(log, moves) {
      forall n | 0 <= n <= |moves| ensures TablesAreFold(Exec(log, moves[..n])) {
        FoldTo(log, moves, n);
      }
    }
    if FoldThroughout(log, moves) {
      forall i | 0 <= i < |moves| ensures Faithful(log, Exec(log, moves[..i]), moves[i]) {
        assert TablesAreFold(Exec(log, moves[..i])) && TablesAreFold(Exec(log, moves[..i + 1]));
        ExecTo(log, moves, i);
        SettledViewsAgree(log, moves[..i]);
        FoldKeptExactly(log, Exec(log, moves[..i]), moves[i]);
      }
    }
  }

  /**
   * In every faithful run the tables settle on those of the applied events, each accepted in its turn. Every law
   * proved of Run(EMPTY, _) is thereby a law of every such run of the consumer.
   */
  lemma RunsAreFolds(log: seq<Message>, moves: seq<Move>)
    requires FaithfulThroughout(log, moves)
    ensures TablesAreFold(Exec(log, moves))
  {
    FoldTo(log, moves, |moves|);
    assert moves[..|moves|] == moves;
  }

  predicate UndisturbedMove(log: seq<Message>, s: State, m: Move) {
    var ev := AddedBy(log, s, m);
    ev.Some? ==> Clear(s.batches, ev.value)
  }

  /** No event is applied while an interrupted batch that writes a row or an order it reads is still landing. */
  ghost predicate Undisturbed(log: seq<Message>, moves: seq<Move>) {
    forall i :: 0 <= i < |moves| ==> UndisturbedMove(log, Exec(log, moves[..i]), moves[i])
  }

  lemma ClearIsFaithful(log: seq<Message>, s: State, m: Move)
    requires UndisturbedMove(log, s, m) && Agree(Settled(s.batches))
    ensures Faithful(log, s, m)
  {
    NextAdds(log, s, m);
    if AddedBy(log, s, m).Some? {
      var ev := AddedBy(log, s, m).value;
      ClearHasSameEffect(s.batches, ev);
      EarlyIsLateExactly(Visible(s.batches), Settled(s.batches), ev);
    }
  }

  /** A run is faithful when no event is applied while a batch that shares a row or an order with it is landing. */
  lemma UndisturbedIsFaithful(log: seq<Message>, moves: seq<Move>)
    requires Undisturbed(log, moves)
    ensures FaithfulThroughout(log, moves)
  {
    forall i | 0 <= i < |moves| ensures Faithful(log, Exec(log, moves[..i]), moves[i]) {
      assert UndisturbedMove(log, Exec(log, moves[..i]), moves[i]);
      SettledViewsAgree(log, moves[..i]);
      ClearIsFaithful(log, Exec(log, moves[..i]), moves[i]);
    }
  }

  lemma LoggedBatchReplays(t: Tables, ev: Event, positions: seq<nat>)
    requires Accepts(t, ev)
    ensures var ops := Handle(t, ev).ops;
      ApplyAll(ApplyAll(t, Picked(ops, positions)), ops) == Step(t, ev)
  {
    var ops := Handle(t, ev).ops;
    PickedDrawn(ops, positions);
    HandlerBatchDistinct(t, ev);
    BatchConfluence(t, ops, Picked(ops, positions), ops);
  }

  // ---------- A late replay does lose an update ----------

  const FIRST := ProductReceived("a", 1, "p", "z", 5, None)
  const SECOND := ProductReceived("b", 2, "p", "z", 3, None)
  const SHELF := Key("p", "z")
  const LOGGED_ONLY := Poll(Fate(AtBatch(Logged([])), false, true))
  const PROCEEDS := Poll(Fate(NoInterrupt, false, true))

  lemma ExecSnoc(log: seq<Message>, moves: seq<Move>, m: Move)
    ensures Exec(log, moves + [m]) == Next(log, Exec(log, moves), m)
  {
    assert (moves + [m])[..|moves|] == moves;
  }

  lemma AfterFirst()
    ensures var s := Exec([Recognised(FIRST), Recognised(SECOND)], [LOGGED_ONLY]);
      && s.batches == [Part(Handle(EMPTY, FIRST).ops, [])] && s.account.applied == [FIRST] && s.position == 1
      && s.marks == {"a"} && Visible(s.batches) == EMPTY && Handle(EMPTY, FIRST).Apply?
  {
    var log := [Recognised(FIRST), Recognised(SECOND)];
    assert [LOGGED_ONLY][..0] == [];
    assert Exec(log, []) == START;
    Append([], Part(Handle(EMPTY, FIRST).ops, []));
    assert [] + [Part(Handle(EMPTY, FIRST).ops, [])] == [Part(Handle(EMPTY, FIRST).ops, [])];
  }

  lemma AfterSecond()
    ensures var s := Exec([Recognised(FIRST), Recognised(SECOND)], [LOGGED_ONLY, PROCEEDS]);
      && Handle(EMPTY, FIRST).Apply? && Handle(EMPTY, SECOND).Apply?
      && s.batches == [Part(Handle(EMPTY, FIRST).ops, []), Whole(Handle(EMPTY, SECOND).ops)]
      && s.account.applied == [FIRST, SECOND]
  {
    AfterFirst();
    ExecSnoc([Recognised(FIRST), Recognised(SECOND)], [LOGGED_ONLY], PROCEEDS);
    assert [LOGGED_ONLY] + [PROCEEDS] == [LOGGED_ONLY, PROCEEDS];
  }

  lemma ReceiveLands(base: Tables, t: Tables, ev: Event)
    requires ev.ProductReceived? && ev.quantity >= 0 && Key(ev.product, ev.zone) !in t.zones
    ensures Accepts(t, ev)
    ensures ApplyAll(base, Handle(t, ev).ops).zones
         == base.zones[Key(ev.product, ev.zone) := ZoneRow(ev.quantity, 0, ev.id, ev.ts, ev.supplier)]
  {
    BatchLands(base, t, ev);
    PutRowsTouched(base, t, ev, Key(ev.product, ev.zone));
  }

  lemma FoldOfBoth()
    ensures var t := Run(EMPTY, [FIRST, SECOND]); SHELF in t.zones && t.zones[SHELF].available == 8
  {
    RunSnoc(EMPTY, [], FIRST);
    RunSnoc(EMPTY, [FIRST], SECOND);
    assert [] + [FIRST] == [FIRST] && [FIRST] + [SECOND] == [FIRST, SECOND];
    ReceiveLands(EMPTY, EMPTY, FIRST);
    var t1 := Step(EMPTY, FIRST);
    HandlerMeaning(t1, SECOND);
    assert SHELF in Touched(t1, SECOND);
  }

  lemma BothLanded()
    requires Handle(EMPTY, FIRST).Apply? && Handle(EMPTY, SECOND).Apply?
    ensures var bs := [Whole(Handle(EMPTY, FIRST).ops), Whole(Handle(EMPTY, SECOND).ops)];
      Visible(bs) == Settled(bs) && SHELF in Settled(bs).zones && Settled(bs).zones[SHELF].available == 3
  {
    var b1, b2 := Whole(Handle(EMPTY, FIRST).ops), Whole(Handle(EMPTY, SECOND).ops);
    Append([b1], b2);
    ReceiveLands(Settled([b1]), EMPTY, SECOND);
    assert [b1] + [b2] == [b1, b2];
    QuietIsSettled([b1, b2]);
  }

  lemma AfterReplay()
    ensures var s := Exec([Recognised(FIRST), Recognised(SECOND)], [LOGGED_ONLY, PROCEEDS, Replay(0)]);
      && Handle(EMPTY, FIRST).Apply? && Handle(EMPTY, SECOND).Apply? && s.account.applied == [FIRST, SECOND]
      && s.batches == [Whole(Handle(EMPTY, FIRST).ops), Whole(Handle(EMPTY, SECOND).ops)]
  {
    AfterSecond();
    var log, two := [Recognised(FIRST), Recognised(SECOND)], [LOGGED_ONLY, PROCEEDS];
    ExecSnoc(log, two, Replay(0));
    assert two + [Replay(0)] == [LOGGED_ONLY, PROCEEDS, Replay(0)];
  }

  /**
   * The consumer does not wait for a replay. Five pieces whose batch was logged and had not landed, then three
   * more on the same shelf: once both batches have landed the shelf shows three, not eight.
   */
  lemma LateReplayLosesUpdate()
    ensures var s := Exec([Recognised(FIRST), Recognised(SECOND)], [LOGGED_ONLY, PROCEEDS, Replay(0)]);
      && Quiet(s.batches) && s.account.applied == [FIRST, SECOND]
      && SHELF in Visible(s.batches).zones && Visible(s.batches).zones[SHELF].available == 3
      && !TablesAreFold(s)
  {
    AfterReplay();
    BothLanded();
    FoldOfBoth();
  }
}
