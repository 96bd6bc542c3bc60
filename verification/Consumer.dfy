/** The consumer itself: the storage client and the polling loop, proved to follow the protocol. */
module ConsumerService {
  import opened Warehouse
  import opened Handlers
  import opened Effects
  import opened Store
  import opened Protocol

  // Statements that a batch may carry: everything but the conditional insert.
  function WithoutMarks(ws: seq<Write>): seq<Write> {
    if ws == [] then []
    else
      WithoutMarks(ws[..|ws| - 1]) + (if ws[|ws| - 1].MarkEvent? then [] else [ws[|ws| - 1]])
  }

  lemma {:induction false} NoMarksToDrop(ws: seq<Write>)
    requires forall i :: 0 <= i < |ws| ==> !ws[i].MarkEvent?
    ensures WithoutMarks(ws) == ws
  {
    if ws != [] {
      NoMarksToDrop(ws[..|ws| - 1]);
    }
  }

  class CassandraClient {
    var batches: seq<Batch>   // every logged batch in order of write time, and what has landed of it
    var processedEvents: set<string>

    constructor ()
      ensures batches == [] && processedEvents == {}
    {
      batches, processedEvents := [], {};
    }

    // What get_zone_state and get_order read.
    function Tables(): Tables
      reads this
    {
      Visible(batches)
    }

    // INSERT ... IF NOT EXISTS; the call can fail with the insert recorded or not.
    method MarkEventIfNew(eventId: string, fault: Interrupt) returns (failed: bool, isNew: bool)
      modifies this`processedEvents
      ensures failed == fault.AtMark?
      ensures isNew == (!failed && eventId !in old(processedEvents))
      ensures processedEvents == if failed && !fault.recorded then old(processedEvents) else old(processedEvents) + {eventId}
    {
      failed, isNew := fault.AtMark?, false;
      if failed {
        if fault.recorded {
          processedEvents := processedEvents + {eventId};
        }
        return;
      }
      if eventId !in processedEvents {
        processedEvents := processedEvents + {eventId};
        isNew := true;
      }
    }

    // Builds the batch from everything but mark statements and executes it as one logged batch.
    method ExecuteBatch(statements: seq<Write>, fault: Interrupt) returns (failed: bool)
      modifies this`batches
      ensures var batch := WithoutMarks(statements);
        if batch == [] then !failed && batches == old(batches)
        else if !fault.AtBatch? then !failed && batches == old(batches) + [Whole(batch)]
        else if fault.landed.NotLogged? then failed && batches == old(batches)
        else failed && batches == old(batches) + [Part(batch, fault.landed.positions)]
    {
      var batch: seq<Write> := [];
      var added := 0;
      for i := 0 to |statements|
        invariant batch == WithoutMarks(statements[..i]) && added == |batch|
      {
        assert statements[..i + 1][..i] == statements[..i];
        if statements[i].MarkEvent? {
          continue;
        }
        batch := batch + [statements[i]];
        added := added + 1;
      }
      assert statements[..|statements|] == statements;
      failed := false;
      if added == 0 {
        return;
      }
      if !fault.AtBatch? {
        batches := batches + [Whole(batch)];
      } else {
        failed := true;
        if fault.landed.Logged? {
          batches := batches + [Part(batch, fault.landed.positions)];
        }
      }
    }

    /** More statements of an interrupted batch land, under the write time it was given. */
    method LandStatements(batch: nat, positions: seq<nat>)
      requires batch < |batches|
      modifies this`batches
      ensures batches == old(batches)[batch := MoreLanded(old(batches)[batch], positions)]
    {
      if batches[batch].Part? {
        batches := batches[batch := Part(batches[batch].ops, batches[batch].positions + positions)];
      }
    }

    /** The batch log finishes an interrupted batch. */
    method ReplayBatch(batch: nat)
      requires batch < |batches|
      modifies this`batches
      ensures batches == old(batches)[batch := Whole(old(batches)[batch].ops)]
    {
      batches := batches[batch := Whole(batches[batch].ops)];
    }

    /** A mark's time to live runs out. */
    method ExpireMark(eventId: string)
      modifies this`processedEvents
      ensures processedEvents == old(processedEvents) - {eventId}
    {
      processedEvents := processedEvents - {eventId};
    }
  }

  method Dispatch(t: Tables, ev: Event) returns (out: Outcome)
    ensures out == Handle(t, ev)
  {
    match ev {
      case OrderCreated(_, _, _, _) => out := HandleOrderCreated(t, ev);
      case OrderCompleted(_, _, _) => out := HandleOrderCompleted(t, ev);
      case _ => out := HandleProduct(t.zones, ev);
    }
  }

  // What poll brings: nothing or an end-of-partition, a broker error, a message, or the stop signal. Between two
  // polls marks expire, interrupted batches land or are replayed, and the partition is reassigned.
  datatype Polled = Nothing | BrokerError | Delivery(fate: Fate) | StopSignal | Meanwhile(happening: Happening)
  datatype Happening = MarkExpires(id: string) | BatchReplayed(batch: nat) | StatementsLand(batch: nat, positions: seq<nat>) | Reassigned

  function MoveOf(h: Happening): Move {
    match h
    case MarkExpires(id) => Expire(id)
    case BatchReplayed(i) => Replay(i)
    case StatementsLand(i, positions) => Land(i, positions)
    case Reassigned => Rebalance
  }

  function MovesIn(p: Polled): seq<Move> {
    match p
    case Delivery(fate) => [Poll(fate)]
    case Meanwhile(h) => [MoveOf(h)]
    case _ => []
  }

  /** The protocol's moves in a sequence of polls, up to the stop signal. */
  function MovesOf(polls: seq<Polled>): seq<Move>
    decreases |polls|
  {
    if polls == [] || polls[0].StopSignal? then [] else MovesIn(polls[0]) + MovesOf(polls[1..])
  }

  lemma NextTurn(polls: seq<Polled>, i: nat, moves: seq<Move>)
    requires i < |polls|
    ensures moves + MovesOf(polls[i..]) == moves + MovesIn(polls[i]) + (if polls[i].StopSignal? then [] else MovesOf(polls[i + 1..]))
  {
    assert polls[i..][0] == polls[i] && polls[i..][1..] == polls[i + 1..];
  }

  class Consumer {
    const log: seq<Message>
    const cass: CassandraClient
    var running: bool
    var position: nat
    var committed: nat
    var processed: nat
    var failed: nat
    var skipped: nat
    var commits: nat
    var deadLetters: seq<Message>
    ghost var account: Account
    ghost var moves: seq<Move>   // the protocol's moves so far

    ghost function Snapshot(): State
      reads this, cass
    {
      State(cass.batches, cass.processedEvents, position, committed, processed, failed, skipped, commits, deadLetters, account)
    }

    /** The consumer and its storage are where the protocol's moves so far have brought them. */
    ghost predicate Valid()
      reads this, cass
    {
      Snapshot() == Exec(log, moves)
    }

    constructor (log: seq<Message>)
      ensures fresh(cass) && this.log == log && running && moves == [] && Valid()
    {
      this.log := log;
      cass := new CassandraClient();
      running, position, committed, processed, failed, skipped, commits, deadLetters := true, 0, 0, 0, 0, 0, 0, [];
      account, moves := START.account, [];
    }

    method Restart()
      modifies this
      ensures Snapshot() == Restarted(old(Snapshot())) && running == old(running) && moves == old(moves)
    {
      position, processed, failed, skipped, commits := committed, 0, 0, 0, 0;
    }

    // _commit_offset: a failed commit is logged and otherwise ignored.
    method CommitOffset(offset: nat, fate: Fate)
      modifies this
      ensures Snapshot() == Settle(old(Snapshot()), offset, fate) && running == old(running) && moves == old(moves)
    {
      if fate.crash {
        Restart();
        return;
      }
      commits := commits + 1;
      account := account.(settled := account.settled + {offset});
      if fate.commits {
        committed := offset + 1;
      }
    }

    method SendToDlq(msg: Message, offset: nat, fate: Fate)
      modifies this
      ensures Snapshot() == DeadLetter(old(Snapshot()), msg, offset, fate) && running == old(running) && moves == old(moves)
    {
      failed := failed + 1;
      deadLetters := deadLetters + [msg];
      CommitOffset(offset, fate);
    }

    method InfrastructureError(fate: Fate)
      modifies this
      ensures Snapshot() == Interrupted(old(Snapshot()), fate) && running == old(running) && moves == old(moves)
    {
      if fate.crash {
        Restart();
      }
    }

    method ProcessOne(msg: Message, offset: nat, fate: Fate)
      modifies this, cass
      ensures Snapshot() == Process(old(Snapshot()), msg, offset, fate) && running == old(running) && moves == old(moves)
    {
      position := offset + 1;
      if !msg.Recognised? || msg.ev.id == "" {
        SendToDlq(msg, offset, fate);
        return;
      }
      if fate.interrupt.AtRead? && Reads(msg.ev) {
        InfrastructureError(fate);
        return;
      }
      var outcome := Dispatch(cass.Tables(), msg.ev);
      match outcome {
        case Reject(_) => SendToDlq(msg, offset, fate);
        case Skip =>
          skipped := skipped + 1;
          CommitOffset(offset, fate);
        case Apply(ops) => ClaimAndApply(msg.ev, ops, offset, fate);
      }
    }

    // Steps 4 to 6 of processing: claim the id, execute the batch, count and commit.
    method ClaimAndApply(ev: Event, ops: seq<Write>, offset: nat, fate: Fate)
      requires Handle(cass.Tables(), ev) == Apply(ops)
      modifies this, cass
      ensures Snapshot() == Claim(old(Snapshot()), ev, ops, offset, fate) && running == old(running) && moves == old(moves)
    {
      var known := ev.id in cass.processedEvents;
      var markFailed, isNew := cass.MarkEventIfNew(ev.id, fate.interrupt);
      if markFailed {
        if fate.interrupt.recorded && !known {
          account := account.(cut := Bump(account.cut, ev.id));
        }
        InfrastructureError(fate);
        return;
      }
      if !isNew {
        skipped := skipped + 1;
        CommitOffset(offset, fate);
        return;
      }
      HandlerWritesNoMarks(cass.Tables(), ev);
      ExecuteAndCommit(ev, ops, offset, fate);
    }

    method BatchInterrupted(ev: Event, fate: Fate)
      requires fate.interrupt.AtBatch?
      modifies this
      ensures var s := old(Snapshot());
        Snapshot() == Interrupted(
          if fate.interrupt.landed.NotLogged? then WithCut(s, ev.id)
          else s.(account := s.account.(applied := s.account.applied + [ev])), fate)
      ensures running == old(running) && moves == old(moves)
    {
      if fate.interrupt.landed.NotLogged? {
        account := account.(cut := Bump(account.cut, ev.id));
      } else {
        account := account.(applied := account.applied + [ev]);
      }
      InfrastructureError(fate);
    }

    method ExecuteAndCommit(ev: Event, ops: seq<Write>, offset: nat, fate: Fate)
      requires WithoutMarks(ops) == ops && ops != []
      modifies this, cass`batches
      ensures Snapshot() == WriteBatch(old(Snapshot()), ev, ops, offset, fate) && running == old(running) && moves == old(moves)
    {
      var batchFailed := cass.ExecuteBatch(ops, fate.interrupt);
      if batchFailed {
        BatchInterrupted(ev, fate);
        return;
      }
      account := account.(applied := account.applied + [ev]);
      processed := processed + 1;
      CommitOffset(offset, fate);
    }

    // What happens to the consumer between two polls.
    method Happen(h: Happening)
      modifies this, cass
      ensures Snapshot() == Next(log, old(Snapshot()), MoveOf(h)) && running == old(running) && moves == old(moves)
    {
      match h {
        case MarkExpires(id) =>
          if id in cass.processedEvents {
            cass.ExpireMark(id);
            account := account.(expired := Bump(account.expired, id));
          }
        case BatchReplayed(i) =>
          if i < |cass.batches| {
            cass.ReplayBatch(i);
          }
        case StatementsLand(i, positions) =>
          if i < |cass.batches| {
            cass.LandStatements(i, positions);
          }
        case Reassigned => position := committed;
      }
    }

    method ProcessPolled(fate: Fate)
      modifies this, cass
      ensures Snapshot() == Next(log, old(Snapshot()), Poll(fate)) && running == old(running) && moves == old(moves)
    {
      if position < |log| {
        ProcessOne(log[position], position, fate);
      }
    }

    // One turn of the loop; the signal only clears the running flag.
    method Turn(p: Polled)
      requires Valid() && running
      modifies this, cass
      ensures Valid() && moves == old(moves) + MovesIn(p) && running == !p.StopSignal?
    {
      match p {
        case Nothing =>
        case BrokerError =>
        case StopSignal => running := false;
        case Meanwhile(h) =>
          Happen(h);
          Moved(MoveOf(h));
        case Delivery(fate) =>
          ProcessPolled(fate);
          Moved(Poll(fate));
      }
    }

    // _consume_loop: polls until the stop signal; each poll either brings nothing or one message.
    method ConsumeLoop(polls: seq<Polled>)
      requires Valid()
      modifies this, cass
      ensures Valid() && moves == old(moves) + (if old(running) then MovesOf(polls) else [])
    {
      ghost var all := moves + (if running then MovesOf(polls) else []);
      var i := 0;
      while running && i < |polls|
        invariant 0 <= i <= |polls| && Valid()
        invariant all == moves + (if running then MovesOf(polls[i..]) else [])
      {
        NextTurn(polls, i, moves);
        Turn(polls[i]);
        i := i + 1;
      }
    }

    // One more move of the protocol has been made.
    ghost method Moved(m: Move)
      requires Snapshot() == Next(log, Exec(log, moves), m)
      modifies this`moves
      ensures Valid() && moves == old(moves) + [m]
    {
      assert (moves + [m])[..|moves|] == moves;
      moves := moves + [m];
    }
  }

  lemma {:induction false} OrderZoneWritesNoMarks(zones: Zones, items: seq<Line>, dir: Direction, ev: Event, keys: seq<Key>)
    ensures forall i :: 0 <= i < |OrderZoneWrites(zones, items, dir, ev, keys)| ==>
      !OrderZoneWrites(zones, items, dir, ev, keys)[i].MarkEvent?
    decreases |keys|
  {
    if keys != [] {
      OrderZoneWritesNoMarks(zones, items, dir, ev, keys[..|keys| - 1]);
    }
  }

  lemma ProductWritesNoMarks(t: Tables, ev: Event)
    requires IsProductEvent(ev) && Accepts(t, ev)
    ensures forall i :: 0 <= i < |Handle(t, ev).ops| ==> !Handle(t, ev).ops[i].MarkEvent?
    ensures Handle(t, ev).ops != []
  {
    var tail := ProductOps(t, ev);
    if ev.ProductMoved? {
      var k1, k2 := Key(ev.product, ev.fromZone), Key(ev.product, ev.toZone);
      TwoZonesWriteNoMarks(k1, NewRow(t, ev, k1), k2, NewRow(t, ev, k2), tail);
    }
  }

  lemma TwoZonesWriteNoMarks(k1: Key, r1: ZoneRow, k2: Key, r2: ZoneRow, tail: Write)
    requires !tail.MarkEvent?
    ensures var ws := ZoneWrites(k1, r1) + ZoneWrites(k2, r2) + [tail];
      ws != [] && forall i :: 0 <= i < |ws| ==> !ws[i].MarkEvent?
  {
  }

  lemma OrderWritesNoMarks(t: Tables, ev: Event)
    requires Accepts(t, ev) && (ev.OrderCreated? || Fulfils(t, ev))
    ensures forall i :: 0 <= i < |Handle(t, ev).ops| ==> !Handle(t, ev).ops[i].MarkEvent?
    ensures Handle(t, ev).ops != []
  {
    var items, dir, row := OrderOps(t, ev);
    OrderZoneWritesNoMarks(t.zones, items, dir, ev, DistinctKeys(items));
  }

  /** No handler puts the conditional insert into its batch, and none asks for an empty one. */
  lemma HandlerWritesNoMarks(t: Tables, ev: Event)
    requires Accepts(t, ev)
    ensures WithoutMarks(Handle(t, ev).ops) == Handle(t, ev).ops && Handle(t, ev).ops != []
  {
    if IsProductEvent(ev) {
      ProductWritesNoMarks(t, ev);
    } else if ev.OrderCreated? || Fulfils(t, ev) {
      OrderWritesNoMarks(t, ev);
    }
    NoMarksToDrop(Handle(t, ev).ops);
  }
}
