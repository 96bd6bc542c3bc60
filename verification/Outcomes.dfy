/** One outcome per message, one commit per outcome, and when a commit can pass a message without one. */
module Outcomes {
  import opened MapSums
  import opened Warehouse
  import opened Handlers
  import opened Store
  import opened Protocol

  /** Whether this delivery ends in the infrastructure branch, or would if the process survived. */
  predicate Interrupts(s: State, msg: Message, fate: Fate) {
    && msg.Recognised? && msg.ev.id != ""
    && if fate.interrupt.AtRead? && Reads(msg.ev) then true
       else
         && Handle(Visible(s.batches), msg.ev).Apply?
         && (fate.interrupt.AtMark? || (fate.interrupt.AtBatch? && msg.ev.id !in s.marks))
  }

  function Counted(s: State): (int, int, int, int) {
    (s.processed, s.failed, s.skipped, s.commits)
  }

  /**
   * A delivery the process survives either counts exactly one outcome and attempts exactly one commit,
   * or takes the infrastructure branch, counts nothing and attempts no commit.
   */
  lemma OneOutcome(s: State, msg: Message, offset: nat, fate: Fate)
    requires !fate.crash
    ensures var s' := Process(s, msg, offset, fate);
      if Interrupts(s, msg, fate) then
        Counted(s') == Counted(s) && s'.committed == s.committed && s'.account.settled == s.account.settled
      else
        && s'.commits == s.commits + 1
        && Counted(s') in {(s.processed + 1, s.failed, s.skipped, s.commits + 1),
                           (s.processed, s.failed + 1, s.skipped, s.commits + 1),
                           (s.processed, s.failed, s.skipped + 1, s.commits + 1)}
        && s'.account.settled == s.account.settled + {offset}
        && s'.committed == if fate.commits then offset + 1 else s.committed
  {
  }

  // Once an event has reached the claim it is no longer rejected.
  lemma ClaimRejectsNothing(s: State, ev: Event, ops: seq<Write>, offset: nat, fate: Fate)
    requires !fate.crash
    ensures var s' := Claim(s, ev, ops, offset, fate);
      s'.failed == s.failed && s'.deadLetters == s.deadLetters
  {
  }

  /** A rejected message goes to the dead letters, and to nothing else: it changes no table and marks no id. */
  lemma RejectedTouchesNothing(s: State, msg: Message, offset: nat, fate: Fate)
    requires !fate.crash
    ensures var s' := Process(s, msg, offset, fate);
      && (s'.failed == s.failed + 1 <==> s'.deadLetters == s.deadLetters + [msg])
      && (s'.failed == s.failed <==> s'.deadLetters == s.deadLetters)
      && (s'.failed == s.failed + 1 ==>
            s'.batches == s.batches && s'.marks == s.marks && s'.account.applied == s.account.applied)
  {
    var s0 := s.(position := offset + 1);
    if msg.Recognised? && Handle(Visible(s.batches), msg.ev).Apply? {
      ClaimRejectsNothing(s0, msg.ev, Handle(Visible(s.batches), msg.ev).ops, offset, fate);
    }
  }

  // How one delivery moves the offsets; interrupted means the infrastructure branch was taken and survived.
  predicate OffsetsMove(s: State, s': State, offset: nat, interrupted: bool) {
    && s'.committed in {s.committed, offset + 1}
    && s'.position in {offset + 1, s'.committed}
    && s'.account.settled in {s.account.settled, s.account.settled + {offset}}
    && (s'.committed != s.committed ==> offset in s'.account.settled)
    && (s'.position == offset + 1 && !interrupted ==> offset in s'.account.settled || s'.committed == offset + 1)
  }

  lemma ClaimOffsets(s: State, ev: Event, ops: seq<Write>, offset: nat, fate: Fate)
    requires s.committed <= offset && s.position == offset + 1
    ensures OffsetsMove(s, Claim(s, ev, ops, offset, fate), offset,
                        !fate.crash && (fate.interrupt.AtMark? || (fate.interrupt.AtBatch? && ev.id !in s.marks)))
  {
  }

  lemma ProcessOffsets(s: State, msg: Message, offset: nat, fate: Fate)
    requires s.committed <= offset
    ensures OffsetsMove(s, Process(s, msg, offset, fate), offset, !fate.crash && Interrupts(s, msg, fate))
  {
    var s' := s.(position := offset + 1);
    if msg.Recognised? && Handle(Visible(s.batches), msg.ev).Apply? {
      ClaimOffsets(s', msg.ev, Handle(Visible(s.batches), msg.ev).ops, offset, fate);
    }
  }

  lemma {:induction false} CommittedBehindPosition(log: seq<Message>, moves: seq<Move>)
    ensures Exec(log, moves).committed <= Exec(log, moves).position
    decreases |moves|
  {
    if moves != [] {
      var front, m := moves[..|moves| - 1], moves[|moves| - 1];
      CommittedBehindPosition(log, front);
      var s := Exec(log, front);
      if m.Poll? && s.position < |log| {
        ProcessOffsets(s, log[s.position], s.position, m.fate);
      }
    }
  }

  /** Along every run, the committed offset never decreases. */
  lemma {:induction false} CommittedNeverDecreases(log: seq<Message>, moves: seq<Move>, n: nat)
    requires n <= |moves|
    ensures Exec(log, moves[..n]).committed <= Exec(log, moves).committed
    decreases |moves| - n
  {
    if n == |moves| {
      assert moves[..n] == moves;
    } else {
      var front, m := moves[..|moves| - 1], moves[|moves| - 1];
      assert front[..n] == moves[..n];
      CommittedNeverDecreases(log, front, n);
      CommittedBehindPosition(log, front);
      var s := Exec(log, front);
      if m.Poll? && s.position < |log| {
        ProcessOffsets(s, log[s.position], s.position, m.fate);
      }
    }
  }

  // ---------- Loss ----------

  /** Every offset below n has had an outcome. */
  ghost predicate SettledBelow(s: State, n: nat) {
    forall o: nat :: o < n ==> o in s.account.settled
  }

  // Whether a move takes the infrastructure branch and lives on, with the offset neither committed nor rewound.
  predicate TakesInfrastructureBranch(log: seq<Message>, s: State, m: Move) {
    m.Poll? && s.position < |log| && !m.fate.crash && Interrupts(s, log[s.position], m.fate)
  }

  ghost predicate AvoidsInfrastructureBranch(log: seq<Message>, moves: seq<Move>) {
    forall i :: 0 <= i < |moves| ==> !TakesInfrastructureBranch(log, Exec(log, moves[..i]), moves[i])
  }

  lemma SettledKept(log: seq<Message>, s: State, m: Move)
    requires s.committed <= s.position && SettledBelow(s, s.position)
    requires !TakesInfrastructureBranch(log, s, m)
    ensures SettledBelow(Next(log, s, m), Next(log, s, m).position)
  {
    if m.Poll? && s.position < |log| {
      ProcessOffsets(s, log[s.position], s.position, m.fate);
    }
  }

  /** In runs that avoid the infrastructure branch, every offset below the committed one has had an outcome. */
  lemma {:induction false} NothingLost(log: seq<Message>, moves: seq<Move>)
    requires AvoidsInfrastructureBranch(log, moves)
    ensures SettledBelow(Exec(log, moves), Exec(log, moves).position)
    ensures SettledBelow(Exec(log, moves), Exec(log, moves).committed)
    decreases |moves|
  {
    CommittedBehindPosition(log, moves);
    if moves != [] {
      var front := moves[..|moves| - 1];
      assert forall i :: 0 <= i < |front| ==> moves[i] == front[i] && moves[..i] == front[..i];
      NothingLost(log, front);
      CommittedBehindPosition(log, front);
      assert moves[..|moves| - 1] == front;
      SettledKept(log, Exec(log, front), moves[|moves| - 1]);
    }
  }

  // ---------- Exactly which commits lose a message ----------

  // A crash or a rebalance puts the position back to the committed offset.
  predicate Rewinds(log: seq<Message>, s: State, m: Move) {
    m.Rebalance? || (m.Poll? && s.position < |log| && m.fate.crash)
  }

  // Something happened at step i that nothing has undone since; both are read off the steps before.
  predicate Since<T>(happens: (seq<T>, T) -> bool, undoes: (seq<T>, T) -> bool, xs: seq<T>, i: nat)
    requires i < |xs|
  {
    happens(xs[..i], xs[i]) && forall j :: i < j < |xs| ==> !undoes(xs[..j], xs[j])
  }

  lemma SinceFront<T>(happens: (seq<T>, T) -> bool, undoes: (seq<T>, T) -> bool, xs: seq<T>, i: nat)
    requires |xs| > 0 && i < |xs| - 1
    ensures Since(happens, undoes, xs, i) <==>
      Since(happens, undoes, xs[..|xs| - 1], i) && !undoes(xs[..|xs| - 1], xs[|xs| - 1])
  {
    var front := xs[..|xs| - 1];
    assert front[..i] == xs[..i] && front[i] == xs[i];
    forall j | i < j < |front| ensures front[..j] == xs[..j] && front[j] == xs[j] {}
  }

  ghost predicate AtEveryStep<T>(holds: (seq<T>, T) -> bool, xs: seq<T>) {
    forall i :: 0 <= i < |xs| ==> holds(xs[..i], xs[i])
  }

  lemma EveryStepFront<T>(holds: (seq<T>, T) -> bool, xs: seq<T>)
    requires xs != []
    ensures AtEveryStep(holds, xs) <==> AtEveryStep(holds, xs[..|xs| - 1]) && holds(xs[..|xs| - 1], xs[|xs| - 1])
  {
    var front := xs[..|xs| - 1];
    forall i | 0 <= i < |front| ensures front[..i] == xs[..i] && front[i] == xs[i] {}
    if AtEveryStep(holds, front) && holds(front, xs[|xs| - 1]) {
      forall i | 0 <= i < |xs| ensures holds(xs[..i], xs[i]) {
        if i < |front| {
          assert holds(front[..i], front[i]);
        }
      }
    }
  }

  predicate PassesNow(log: seq<Message>, before: seq<Move>, m: Move, o: nat) {
    var s := Exec(log, before);
    TakesInfrastructureBranch(log, s, m) && s.position == o && o !in s.account.settled
  }

  // Move i took the infrastructure branch at offset o, which had no outcome, and nothing has rewound since.
  predicate PassedAt(log: seq<Message>, moves: seq<Move>, i: nat, o: nat)
    requires i < |moves|
  {
    Since((before, m) => PassesNow(log, before, m, o), (before, m) => Rewinds(log, Exec(log, before), m), moves, i)
  }

  ghost predicate Passed(log: seq<Message>, moves: seq<Move>, o: nat) {
    exists i :: 0 <= i < |moves| && PassedAt(log, moves, i, o)
  }

  // Below the position, not below the committed offset, and without an outcome.
  predicate Skipped(s: State, o: nat) {
    s.committed <= o < s.position && o !in s.account.settled
  }

  lemma PassedFront(log: seq<Message>, moves: seq<Move>, i: nat, o: nat)
    requires |moves| > 0 && i < |moves| - 1
    ensures PassedAt(log, moves, i, o) <==>
      PassedAt(log, moves[..|moves| - 1], i, o) && !Rewinds(log, Exec(log, moves[..|moves| - 1]), moves[|moves| - 1])
  {
    SinceFront((before, m) => PassesNow(log, before, m, o), (before, m) => Rewinds(log, Exec(log, before), m), moves, i);
  }

  lemma InterruptSettlesNothing(s: State, msg: Message, offset: nat, fate: Fate)
    requires Interrupts(s, msg, fate) && !fate.crash
    ensures var s' := Process(s, msg, offset, fate);
      s'.account.settled == s.account.settled && s'.committed == s.committed && s'.position == offset + 1
  {
    OneOutcome(s, msg, offset, fate);
    SurvivorMovesOn(s, msg, offset, fate);
  }

  lemma SurvivorMovesOn(s: State, msg: Message, offset: nat, fate: Fate)
    requires !fate.crash
    ensures Process(s, msg, offset, fate).position == offset + 1
  {
  }

  lemma CrashRewinds(s: State, msg: Message, offset: nat, fate: Fate)
    requires fate.crash
    ensures var s' := Process(s, msg, offset, fate);
      s'.position == s'.committed == s.committed && s'.account.settled == s.account.settled
  {
  }

  // One move: what is skipped after it was skipped before, or is what it has just passed.
  lemma SkippedStep(log: seq<Message>, s: State, m: Move, o: nat)
    requires s.committed <= s.position
    ensures Skipped(Next(log, s, m), o) ==>
      !Rewinds(log, s, m) && (Skipped(s, o) || (TakesInfrastructureBranch(log, s, m) && s.position == o && o !in s.account.settled))
  {
    if m.Poll? && s.position < |log| {
      var msg, offset := log[s.position], s.position;
      if m.fate.crash {
        CrashRewinds(s, msg, offset, m.fate);
      } else {
        OneOutcome(s, msg, offset, m.fate);
        SurvivorMovesOn(s, msg, offset, m.fate);
      }
    }
  }

  // What has been passed stays below the position and without an outcome until something rewinds.
  lemma UnsettledStep(log: seq<Message>, s: State, m: Move, o: nat)
    requires o < s.position && o !in s.account.settled && !Rewinds(log, s, m)
    ensures o < Next(log, s, m).position && o !in Next(log, s, m).account.settled
  {
    if m.Poll? && s.position < |log| {
      OneOutcome(s, log[s.position], s.position, m.fate);
      SurvivorMovesOn(s, log[s.position], s.position, m.fate);
    }
  }

  lemma JustPassed(log: seq<Message>, s: State, m: Move)
    requires TakesInfrastructureBranch(log, s, m) && s.position !in s.account.settled
    ensures s.position < Next(log, s, m).position && s.position !in Next(log, s, m).account.settled
  {
    InterruptSettlesNothing(s, log[s.position], s.position, m.fate);
  }

  lemma {:induction false} PassedIsUnsettled(log: seq<Message>, moves: seq<Move>, i: nat, o: nat)
    requires i < |moves| && PassedAt(log, moves, i, o)
    ensures o < Exec(log, moves).position && o !in Exec(log, moves).account.settled
    decreases |moves|
  {
    var front := moves[..|moves| - 1];
    if i == |moves| - 1 {
      JustPassed(log, Exec(log, front), moves[i]);
    } else {
      PassedFront(log, moves, i, o);
      PassedIsUnsettled(log, front, i, o);
      UnsettledStep(log, Exec(log, front), moves[|moves| - 1], o);
    }
  }

  lemma {:induction false} SkippedWasPassed(log: seq<Message>, moves: seq<Move>, o: nat)
    requires Skipped(Exec(log, moves), o)
    ensures Passed(log, moves, o)
    decreases |moves|
  {
    if moves != [] {
      var front, m := moves[..|moves| - 1], moves[|moves| - 1];
      CommittedBehindPosition(log, front);
      SkippedStep(log, Exec(log, front), m, o);
      if Skipped(Exec(log, front), o) {
        SkippedWasPassed(log, front, o);
        var i :| 0 <= i < |front| && PassedAt(log, front, i, o);
        PassedFront(log, moves, i, o);
      } else {
        assert PassedAt(log, moves, |moves| - 1, o);
      }
    }
  }

  // A poll whose message gets its outcome and whose commit succeeds.
  predicate Commits(log: seq<Message>, s: State, m: Move) {
    m.Poll? && s.position < |log| && !m.fate.crash && m.fate.commits && !Interrupts(s, log[s.position], m.fate)
  }

  lemma CommitSettles(log: seq<Message>, s: State, m: Move)
    requires Commits(log, s, m)
    ensures Next(log, s, m).committed == s.position + 1
    ensures Next(log, s, m).account.settled == s.account.settled + {s.position}
  {
    OneOutcome(s, log[s.position], s.position, m.fate);
  }

  /**
   * A successful commit loses a message if and only if the infrastructure branch was taken earlier at an offset
   * without an outcome, and neither a crash nor a rebalance has rewound the position since.
   */
  lemma CommitLosesExactly(log: seq<Message>, moves: seq<Move>, m: Move)
    requires SettledBelow(Exec(log, moves), Exec(log, moves).committed) && Commits(log, Exec(log, moves), m)
    ensures var s' := Next(log, Exec(log, moves), m);
      SettledBelow(s', s'.committed) <==> !exists o: nat :: Passed(log, moves, o)
  {
    var s := Exec(log, moves);
    var s' := Next(log, s, m);
    CommitSettles(log, s, m);
    if o: nat :| Passed(log, moves, o) {
      var i :| 0 <= i < |moves| && PassedAt(log, moves, i, o);
      PassedIsUnsettled(log, moves, i, o);
      assert o < s'.committed && o !in s'.account.settled;
    } else {
      forall o: nat | o < s'.committed ensures o in s'.account.settled {
        if o < s.position && o !in s.account.settled {
          SkippedWasPassed(log, moves, o);
        }
      }
    }
  }

  // ---------- Exactly which runs lose a message ----------

  ghost predicate LosingCommit(log: seq<Message>, before: seq<Move>, m: Move) {
    Commits(log, Exec(log, before), m) && exists o: nat :: Passed(log, before, o)
  }

  lemma CommittedMovesByCommits(log: seq<Message>, s: State, m: Move)
    ensures !Commits(log, s, m) ==> Next(log, s, m).committed == s.committed
    ensures s.account.settled <= Next(log, s, m).account.settled
  {
    if m.Poll? && s.position < |log| {
      if m.fate.crash {
        CrashRewinds(s, log[s.position], s.position, m.fate);
      } else {
        OneOutcome(s, log[s.position], s.position, m.fate);
      }
    }
  }

  // What is lost stays lost: the position never again comes below the committed offset.
  lemma LostStep(log: seq<Message>, s: State, m: Move)
    requires s.committed <= s.position && !SettledBelow(s, s.committed)
    ensures !SettledBelow(Next(log, s, m), Next(log, s, m).committed)
  {
    var o: nat :| o < s.committed && o !in s.account.settled;
    var s' := Next(log, s, m);
    if m.Poll? && s.position < |log| {
      ProcessOffsets(s, log[s.position], s.position, m.fate);
    }
    assert o < s'.committed && o !in s'.account.settled;
  }

  // Whether anything below the committed offset is lost after one more move.
  lemma LosesStep(log: seq<Message>, front: seq<Move>, m: Move)
    ensures var s := Exec(log, front); var s' := Next(log, s, m);
      SettledBelow(s', s'.committed) <==> SettledBelow(s, s.committed) && !LosingCommit(log, front, m)
  {
    var s := Exec(log, front);
    CommittedBehindPosition(log, front);
    if !SettledBelow(s, s.committed) {
      LostStep(log, s, m);
    } else if Commits(log, s, m) {
      CommitLosesExactly(log, front, m);
    } else {
      CommittedMovesByCommits(log, s, m);
    }
  }

  /**
   * A run loses a message, for good, if and only if one of its commits comes after an infrastructure branch at an
   * offset without an outcome that nothing has rewound since. Runs that rewind in time lose nothing.
   */
  lemma {:induction false} RunLosesExactly(log: seq<Message>, moves: seq<Move>)
    ensures SettledBelow(Exec(log, moves), Exec(log, moves).committed)
            <==> forall i :: 0 <= i < |moves| ==> !LosingCommit(log, moves[..i], moves[i])
    decreases |moves|
  {
    if moves != [] {
      var front, m := moves[..|moves| - 1], moves[|moves| - 1];
      RunLosesExactly(log, front);
      LosesStep(log, front, m);
      LosingFront(log, moves);
    }
  }

  lemma LosingFront(log: seq<Message>, moves: seq<Move>)
    requires moves != []
    ensures var front := moves[..|moves| - 1];
      (forall i :: 0 <= i < |moves| ==> !LosingCommit(log, moves[..i], moves[i]))
      <==> (forall i :: 0 <= i < |front| ==> !LosingCommit(log, front[..i], front[i])) && !LosingCommit(log, front, moves[|moves| - 1])
  {
    ghost var keeps := (before: seq<Move>, m: Move) => !LosingCommit(log, before, m);
    EveryStepFront(keeps, moves);
    assert AtEveryStep(keeps, moves) <==> forall i :: 0 <= i < |moves| ==> !LosingCommit(log, moves[..i], moves[i]);
    var front := moves[..|moves| - 1];
    assert AtEveryStep(keeps, front) <==> forall i :: 0 <= i < |front| ==> !LosingCommit(log, front[..i], front[i]);
  }

  const READ_FAILS := Fate(AtRead, false, true)
  const LOST_LOG := [Recognised(ProductReceived("e", 1, "p", "z", 5, None)), Undecodable]

  /** The infrastructure branch does lose messages: the next message's commit passes the interrupted one. */
  lemma InfrastructureBranchLoses()
    ensures var s := Exec(LOST_LOG, [Poll(READ_FAILS), PROCEEDS]);
      s.committed == 2 && 0 !in s.account.settled && s.account.applied == []
  {
    var m1, m2 := Poll(READ_FAILS), PROCEEDS;
    assert [m1, m2][..1] == [m1] && [m1][..0] == [];
    var s1 := Next(LOST_LOG, START, m1);
    assert Exec(LOST_LOG, [m1]) == s1;
    assert s1 == START.(position := 1);
  }
}
