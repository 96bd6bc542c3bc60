/**
 * One cache key under concurrency. Readers miss, read the database and set the key in separate steps;
 * writers commit and delete it in separate steps. The key holds a flight row or a search's list.
 */
module CacheRaces {
  import opened MapSums

  // A moment: its place in the order of events, and the clock in seconds.
  datatype Moment = Moment(step: nat, time: nat)

  predicate Before(a: Moment, b: Moment) {
    a.step < b.step && a.time <= b.time
  }

  // Committed values, the last one current.
  datatype Version<V> = Version(value: V, committed: Moment)

  // A cached value remembers which version its setter read and when, and when it was set.
  datatype Entry = Entry(version: nat, readAt: Moment, setAt: Moment)

  datatype Reader = Missed | Holding(version: nat, read: Moment)

  datatype State<V> = State(
    versions: seq<Version<V>>,
    cache: Option<Entry>,
    readers: map<nat, Reader>,
    deletes: map<nat, Moment>,   // versions whose writer has deleted the key, and when
    served: seq<V>,
    now: Moment)

  // Every read request is one reader; every committed version has one writer, which deletes once. A reader bypasses
  // the key when its cache read fails, or when it looks under another key for what it will set here.
  datatype Move<V> =
    | Get(reader: nat) | Bypass(reader: nat) | ReadDatabase(reader: nat) | SetKey(reader: nat)
    | Commit(value: V) | Delete(version: nat) | Tick(elapsed: nat)

  const TTL := 7 * 60

  function Start<V>(value: V): State<V> {
    State([Version(value, Moment(0, 0))], None, map[], map[0 := Moment(0, 0)], [], Moment(1, 0))
  }

  function Current<V>(s: State<V>): nat
    requires s.versions != []
  {
    |s.versions| - 1
  }

  // The cache and the readers only hold versions that exist.
  predicate Ready<V>(s: State<V>) {
    && s.versions != []
    && (s.cache.Some? ==> s.cache.value.version < |s.versions|)
    && (forall r :: r in s.readers && s.readers[r].Holding? ==> s.readers[r].version < |s.versions|)
  }

  function Next<V>(s: State<V>, m: Move<V>): (t: State<V>)
    requires Ready(s)
    ensures Ready(t)
  {
    var t := s.(now := Moment(s.now.step + 1, s.now.time));
    match m
    case Get(r) =>
      if r in s.readers then s
      else if s.cache.Some? then t.(served := s.served + [s.versions[s.cache.value.version].value])
      else t.(readers := s.readers[r := Missed])
    case Bypass(r) => if r in s.readers then s else t.(readers := s.readers[r := Missed])
    case ReadDatabase(r) =>
      if r in s.readers && s.readers[r].Missed?
      then t.(readers := s.readers[r := Holding(Current(s), s.now)], served := s.served + [s.versions[Current(s)].value])
      else s
    case SetKey(r) =>
      if r in s.readers && s.readers[r].Holding?
      then t.(cache := Some(Entry(s.readers[r].version, s.readers[r].read, s.now)), readers := s.readers - {r})
      else s
    case Commit(value) => t.(versions := s.versions + [Version(value, s.now)])
    case Delete(v) =>
      if v < |s.versions| && v !in s.deletes then t.(cache := None, deletes := s.deletes[v := s.now]) else s
    case Tick(elapsed) =>
      var time := s.now.time + elapsed;
      t.(now := Moment(s.now.step + 1, time),
         cache := if s.cache.Some? && s.cache.value.setAt.time + TTL <= time then None else s.cache)
  }

  /** v was the current version at m: committed before it, and every later one committed after it. */
  predicate CurrentAt<V>(s: State<V>, v: nat, m: Moment) {
    && v < |s.versions|
    && Before(s.versions[v].committed, m)
    && (forall w :: v < w < |s.versions| ==> Before(m, s.versions[w].committed))
  }

  predicate Committed<V(==)>(s: State<V>, value: V) {
    exists v :: 0 <= v < |s.versions| && s.versions[v].value == value
  }

  // A key in the cache was set after every deletion so far, and is no older than its time to live.
  predicate EntryOk<V>(s: State<V>, e: Entry) {
    && CurrentAt(s, e.version, e.readAt)
    && Before(e.readAt, e.setAt) && Before(e.setAt, s.now) && s.now.time < e.setAt.time + TTL
    && (forall v :: v in s.deletes ==> Before(s.deletes[v], e.setAt))
  }

  predicate ReaderOk<V>(s: State<V>, r: Reader) {
    r.Holding? ==> CurrentAt(s, r.version, r.read) && Before(r.read, s.now)
  }

  ghost predicate Inv<V>(s: State<V>) {
    && Ready(s)
    && (forall v :: 0 <= v < |s.versions| ==> Before(s.versions[v].committed, s.now))
    && (forall v :: v in s.deletes ==> v < |s.versions| && Before(s.deletes[v], s.now))
    && (s.cache.Some? ==> EntryOk(s, s.cache.value))
    && (forall r :: r in s.readers ==> ReaderOk(s, s.readers[r]))
    && (forall i :: 0 <= i < |s.served| ==> Committed(s, s.served[i]))
  }

  lemma CommittedGrows<V>(s: State<V>, t: State<V>, value: V)
    requires Committed(s, value) && s.versions <= t.versions
    ensures Committed(t, value)
  {
    var v :| 0 <= v < |s.versions| && s.versions[v].value == value;
    assert t.versions[v].value == value;
  }

  lemma ServedKept<V>(s: State<V>, m: Move<V>, i: nat)
    requires Inv(s) && i < |Next(s, m).served|
    ensures Committed(Next(s, m), Next(s, m).served[i])
  {
    var t := Next(s, m);
    assert s.versions <= t.versions;
    if i < |s.served| {
      assert t.served[i] == s.served[i];
      CommittedGrows(s, t, s.served[i]);
    } else {
      var v := if m.Get? then s.cache.value.version else Current(s);
      assert t.versions[v].value == t.served[i];
    }
  }

  lemma InvKept<V>(s: State<V>, m: Move<V>)
    requires Inv(s)
    ensures Inv(Next(s, m))
  {
    var t := Next(s, m);
    forall i | 0 <= i < |t.served| ensures Committed(t, t.served[i]) {
      ServedKept(s, m, i);
    }
    forall r | r in t.readers ensures ReaderOk(t, t.readers[r]) {
      assert r in s.readers ==> ReaderOk(s, s.readers[r]);
    }
  }

  function Exec<V>(value: V, moves: seq<Move<V>>): (s: State<V>)
    ensures Ready(s)
  {
    if moves == [] then Start(value) else Next(Exec(value, moves[..|moves| - 1]), moves[|moves| - 1])
  }

  lemma {:induction false} InvAlways<V>(value: V, moves: seq<Move<V>>)
    ensures Inv(Exec(value, moves))
    decreases |moves|
  {
    if moves != [] {
      InvAlways(value, moves[..|moves| - 1]);
      InvKept(Exec(value, moves[..|moves| - 1]), moves[|moves| - 1]);
    }
  }

  // ---------- What readers are served ----------

  /** Every value ever served was committed at some earlier point. */
  lemma ServedWasCommitted<V>(value: V, moves: seq<Move<V>>, i: nat)
    requires i < |Exec(value, moves).served|
    ensures var s := Exec(value, moves);
      exists v :: 0 <= v < |s.versions| && s.versions[v].value == s.served[i]
  {
    InvAlways(value, moves);
    assert Committed(Exec(value, moves), Exec(value, moves).served[i]);
  }

  /** A cached value was current at a moment no longer ago than the time to live plus its setter's delay. */
  lemma StalenessIsBounded<V>(value: V, moves: seq<Move<V>>)
    requires Exec(value, moves).cache.Some?
    ensures var s := Exec(value, moves); var e := s.cache.value;
      && CurrentAt(s, e.version, e.readAt)
      && s.now.time - e.readAt.time < 7 * 60 + (e.setAt.time - e.readAt.time)
  {
    InvAlways(value, moves);
  }

  /** The writer of version v has committed and not yet deleted the key. */
  predicate BetweenCommitAndDelete<V>(s: State<V>, v: nat) {
    v < |s.versions| && v !in s.deletes
  }

  /** e was set after v's writer deleted the key, by a reader whose database read came before v's commit. */
  predicate LateSet<V>(s: State<V>, e: Entry, v: nat) {
    v < |s.versions| && v in s.deletes && Before(s.deletes[v], e.setAt) && Before(e.readAt, s.versions[v].committed)
  }

  /**
   * A cached value that is not current: for each version it misses, either that version's writer is
   * still between its commit and its delete, or a slow reader set the entry after that delete.
   */
  lemma WhyStale<V>(value: V, moves: seq<Move<V>>, v: nat)
    requires Exec(value, moves).cache.Some?
    requires Exec(value, moves).cache.value.version < v < |Exec(value, moves).versions|
    ensures var s := Exec(value, moves);
      BetweenCommitAndDelete(s, v) || LateSet(s, s.cache.value, v)
  {
    InvAlways(value, moves);
  }

  // ---------- Prompt readers keep the cache fresh ----------

  // No reader sets a version after the writer of a newer one has deleted the key.
  predicate PromptMove<V>(s: State<V>, m: Move<V>) {
    m.SetKey? && m.reader in s.readers && s.readers[m.reader].Holding? ==>
      forall v :: s.readers[m.reader].version < v < |s.versions| ==> v !in s.deletes
  }

  ghost predicate Prompt<V>(value: V, moves: seq<Move<V>>) {
    forall i :: 0 <= i < |moves| ==> PromptMove(Exec(value, moves[..i]), moves[i])
  }

  ghost predicate MissesOnlyPending<V>(s: State<V>) {
    s.cache.Some? ==> forall v :: s.cache.value.version < v < |s.versions| ==> v !in s.deletes
  }

  lemma PromptStep<V>(s: State<V>, m: Move<V>)
    requires Inv(s) && MissesOnlyPending(s) && PromptMove(s, m)
    ensures MissesOnlyPending(Next(s, m))
  {
  }

  lemma {:induction false} PromptMissesOnlyPending<V>(value: V, moves: seq<Move<V>>)
    requires Prompt(value, moves)
    ensures MissesOnlyPending(Exec(value, moves))
    decreases |moves|
  {
    if moves != [] {
      var front := moves[..|moves| - 1];
      forall i | 0 <= i < |front| ensures PromptMove(Exec(value, front[..i]), front[i]) {
        assert moves[i] == front[i] && moves[..i] == front[..i];
      }
      PromptMissesOnlyPending(value, front);
      InvAlways(value, front);
      PromptStep(Exec(value, front), moves[|moves| - 1]);
    }
  }

  /** If every set is prompt, then once no writer is between commit and delete, the cached value is the current one. */
  lemma PromptCacheIsCurrent<V>(value: V, moves: seq<Move<V>>)
    requires Prompt(value, moves) && Exec(value, moves).cache.Some?
    requires forall v :: !BetweenCommitAndDelete(Exec(value, moves), v)
    ensures Exec(value, moves).cache.value.version == Current(Exec(value, moves))
  {
    PromptMissesOnlyPending(value, moves);
    InvAlways(value, moves);
    var s := Exec(value, moves);
    assert !BetweenCommitAndDelete(s, Current(s));
  }

  /** A reader's set leaves an entry that misses only versions with a pending writer if and only if it is prompt. */
  lemma SetIsPromptExactly<V>(value: V, moves: seq<Move<V>>, r: nat)
    requires r in Exec(value, moves).readers && Exec(value, moves).readers[r].Holding?
    ensures MissesOnlyPending(Next(Exec(value, moves), SetKey(r))) <==> PromptMove(Exec(value, moves), SetKey(r))
  {
    InvAlways(value, moves);
  }

  lemma PrefixStep<V>(value: V, moves: seq<Move<V>>, n: nat)
    requires n < |moves|
    ensures Exec(value, moves[..n + 1]) == Next(Exec(value, moves[..n]), moves[n])
  {
    assert moves[..n + 1][..n] == moves[..n];
  }

  lemma PromptPrefix<V>(value: V, moves: seq<Move<V>>, n: nat)
    requires n <= |moves| && Prompt(value, moves)
    ensures Prompt(value, moves[..n])
  {
    forall i | 0 <= i < n ensures PromptMove(Exec(value, moves[..n][..i]), moves[..n][i]) {
      assert moves[..n][..i] == moves[..i] && moves[..n][i] == moves[i];
    }
  }

  /** All through a run the entry misses only versions with a pending writer if and only if every set is prompt. */
  lemma PromptExactly<V>(value: V, moves: seq<Move<V>>)
    ensures (forall n :: 0 <= n <= |moves| ==> MissesOnlyPending(Exec(value, moves[..n]))) <==> Prompt(value, moves)
  {
    if Prompt(value, moves) {
      forall n | 0 <= n <= |moves| ensures MissesOnlyPending(Exec(value, moves[..n])) {
        PromptPrefix(value, moves, n);
        PromptMissesOnlyPending(value, moves[..n]);
      }
    } else {
      var i :| 0 <= i < |moves| && !PromptMove(Exec(value, moves[..i]), moves[i]);
      PrefixStep(value, moves, i);
      SetIsPromptExactly(value, moves[..i], moves[i].reader);
      assert !MissesOnlyPending(Exec(value, moves[..i + 1]));
    }
  }

  lemma ExecSnoc<V>(value: V, moves: seq<Move<V>>, m: Move<V>)
    ensures Exec(value, moves + [m]) == Next(Exec(value, moves), m)
  {
    assert (moves + [m])[..|moves|] == moves;
  }

  function SlowRead<V>(): seq<Move<V>> {
    [Get(1), ReadDatabase(1)]
  }

  lemma AfterSlowRead<V>(a: V)
    ensures var s := Exec(a, SlowRead());
      s.readers == map[1 := Holding(0, Moment(2, 0))] && |s.versions| == 1 && s.deletes.Keys == {0}
  {
    var get: Move<V>, read: Move<V> := Get(1), ReadDatabase(1);
    ExecSnoc(a, [], get);
    ExecSnoc(a, [] + [get], read);
    assert [] + [get] + [read] == SlowRead<V>();
    assert Exec(a, []) == Start(a);
  }

  lemma AfterDelete<V>(a: V, b: V)
    ensures var s := Exec(a, SlowRead() + [Commit(b)] + [Delete(1)]);
      s.readers == map[1 := Holding(0, Moment(2, 0))] && |s.versions| == 2 && s.deletes.Keys == {0, 1}
  {
    AfterSlowRead(a);
    ExecSnoc(a, SlowRead(), Commit(b));
    ExecSnoc(a, SlowRead() + [Commit(b)], Delete(1));
  }

  /** A slow reader does leave a stale entry behind, with no writer at work. */
  lemma SlowReaderLeavesStale<V>(a: V, b: V)
    ensures var s := Exec(a, SlowRead() + [Commit(b)] + [Delete(1)] + [SetKey(1)]);
      && s.cache.Some? && s.cache.value.version == 0 && Current(s) == 1
      && (forall v :: !BetweenCommitAndDelete(s, v))
  {
    AfterDelete(a, b);
    ExecSnoc(a, SlowRead() + [Commit(b)] + [Delete(1)], SetKey(1));
  }
}
