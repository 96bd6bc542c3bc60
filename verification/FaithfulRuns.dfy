/** The tables of a run are the fold of its applied events exactly when the rows each event reads have settled, field by field. */
module FaithfulRuns {
  import opened Warehouse
  import opened Effects
  import opened Store
  import opened LateBatches
  import opened Protocol
  import opened ConsumerLaws

  lemma {:induction false} SettledSound(bs: seq<Batch>)
    requires SoundBatches(bs)
    ensures Sound(Settled(bs))
    decreases |bs|
  {
    if bs != [] {
      SettledSound(bs[..|bs| - 1]);
      WritesKeepSound(Settled(bs[..|bs| - 1]), bs[|bs| - 1].ops);
    }
  }

  /** The rows the tables settle on carry the ids of applied events. */
  ghost predicate RowsAreApplied(s: State) {
    forall k :: k in Settled(s.batches).zones ==> Occurrences(s.account.applied, Settled(s.batches).zones[k].eventId) > 0
  }

  lemma RowsKept(log: seq<Message>, s: State, m: Move)
    requires RowsAreApplied(s)
    ensures RowsAreApplied(Next(log, s, m))
  {
    var s' := Next(log, s, m);
    NextAdds(log, s, m);
    if SameWrites(s.batches, s'.batches) {
      LandingSettlesAlike(s.batches, s'.batches);
    } else {
      var ev := log[s.position].ev;
      AddsSettled(s, s', ev);
      BatchLands(Settled(s.batches), Visible(s.batches), ev);
      forall k | k in Settled(s'.batches).zones
        ensures Occurrences(s'.account.applied, Settled(s'.batches).zones[k].eventId) > 0
      {
        OccurrencesSnoc(s.account.applied, ev, Settled(s'.batches).zones[k].eventId);
      }
    }
  }

  lemma {:induction false} RowsInEveryRun(log: seq<Message>, moves: seq<Move>)
    ensures RowsAreApplied(Exec(log, moves))
    decreases |moves|
  {
    if moves != [] {
      RowsInEveryRun(log, moves[..|moves| - 1]);
      RowsKept(log, Exec(log, moves[..|moves| - 1]), moves[|moves| - 1]);
    }
  }

  lemma ProcessAddsUnmarked(s: State, msg: Message, offset: nat, fate: Fate)
    requires |Process(s, msg, offset, fate).batches| > |s.batches|
    ensures msg.Recognised? && msg.ev.id !in s.marks
  {
  }

  /** An id whose mark has not expired is new to the rows when its batch is added. */
  lemma AddedIsUnseen(log: seq<Message>, moves: seq<Move>, m: Move)
    requires var ev := AddedBy(log, Exec(log, moves), m); ev.Some? && Exec(log, moves).account.expired[ev.value.id] == 0
    ensures Unseen(Settled(Exec(log, moves).batches), AddedBy(log, Exec(log, moves), m).value)
  {
    var s := Exec(log, moves);
    ProcessAddsUnmarked(s, log[s.position], s.position, m.fate);
    AtMostOnce(log, moves, log[s.position].ev.id);
    RowsInEveryRun(log, moves);
  }

  /** What has to agree between the visible and the settled tables for an event handled on the visible ones. */
  predicate Agrees(visible: Tables, settled: Tables, ev: Event) {
    if ev.OrderCompleted? then ev.orderId in visible.orders && CompletionsAgree(visible, settled, ev)
    else forall k :: k in Touched(settled, ev) ==> FieldsAgree(visible, settled, ev, k)
  }

  predicate AppliedInAgreement(log: seq<Message>, s: State, m: Move) {
    var ev := AddedBy(log, s, m);
    ev.Some? ==> Agrees(Visible(s.batches), Settled(s.batches), ev.value)
  }

  // No completion is applied again after the mark of its id has expired.
  predicate NewCompletion(log: seq<Message>, s: State, m: Move) {
    var ev := AddedBy(log, s, m);
    ev.Some? && ev.value.OrderCompleted? ==> s.account.expired[ev.value.id] == 0
  }

  lemma FaithfulIsAgreement(log: seq<Message>, moves: seq<Move>, m: Move)
    requires NewCompletion(log, Exec(log, moves), m)
    ensures Faithful(log, Exec(log, moves), m) <==> AppliedInAgreement(log, Exec(log, moves), m)
  {
    var s := Exec(log, moves);
    NextAdds(log, s, m);
    if AddedBy(log, s, m).Some? {
      var ev := AddedBy(log, s, m).value;
      if ev.OrderCompleted? {
        AddedIsUnseen(log, moves, m);
        BatchesStaySound(log, moves);
        VisibleSound(s.batches);
        SettledSound(s.batches);
        CompletionSameEffectExactly(Visible(s.batches), Settled(s.batches), ev);
      } else {
        SameEffectByFields(Visible(s.batches), Settled(s.batches), ev);
      }
    }
  }

  /**
   * The tables are the fold of the applied events all through a run if and only if every event is applied when the
   * settled rows it writes are older and agree with the visible ones: in the fields its new row keeps, and for a
   * completion in the order's status, its keys, and what is reserved beyond its own share.
   */
  lemma RunsAreFoldsByFields(log: seq<Message>, moves: seq<Move>)
    requires forall i :: 0 <= i < |moves| ==> NewCompletion(log, Exec(log, moves[..i]), moves[i])
    ensures FoldThroughout(log, moves) <==>
      forall i :: 0 <= i < |moves| ==> AppliedInAgreement(log, Exec(log, moves[..i]), moves[i])
  {
    forall i | 0 <= i < |moves|
      ensures Faithful(log, Exec(log, moves[..i]), moves[i]) <==> AppliedInAgreement(log, Exec(log, moves[..i]), moves[i])
    {
      FaithfulIsAgreement(log, moves[..i], moves[i]);
    }
    RunsAreFoldsExactly(log, moves);
  }
}
