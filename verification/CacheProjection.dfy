/**
 * The flight service seen through one flight's key: its requests, one after another, are one schedule of the races
 * that readers and writers can run on that key.
 */
module CacheProjection {
  import opened MapSums
  import opened Seats
  import opened Uuids
  import opened FlightCache
  import Races = CacheRaces

  // ---------- Requests one after another ----------

  function Served(s: Service, rs: seq<Request>): Service {
    if rs == [] then s else Serve(Served(s, rs[..|rs| - 1]), rs[|rs| - 1]).0
  }

  /** A request for the flight, in whatever spelling of its id. */
  predicate Gets(r: Request, row: string) {
    r.GetFlight? && Uuid(r.id) == Some(row)
  }

  // Flights are stored under ids as the database prints them.
  ghost predicate Canonical(s: Service) {
    forall x :: FlightKey(x) in s.cache ==> Uuid(x) == Some(x) && s.cache[FlightKey(x)].FlightEntry?
  }

  lemma ServeKeepsCanonical(s: Service, r: Request)
    requires Rows(s.db) && Canonical(s)
    ensures Canonical(Serve(s, r).0)
  {
    var s' := Serve(s, r).0;
    forall x | FlightKey(x) in s'.cache ensures Uuid(x) == Some(x) && s'.cache[FlightKey(x)].FlightEntry? {
      match r
      case GetFlight(id, _, _) =>
        if Uuid(id).Some? {
          PrintingIsIdempotent(id);
          if FlightKey(Uuid(id).value) == FlightKey(x) {
            FlightKeyInjective(Uuid(id).value, x);
          }
        }
      case SearchFlights(o, d, date, _, _) => KeysApart(x, o, d, date);
      case Mutate(c, _, _) =>
        assert FlightKey(x) in s.cache && s'.cache[FlightKey(x)] == s.cache[FlightKey(x)];
      case Expiry(key) =>
        assert FlightKey(x) in s.cache && s'.cache[FlightKey(x)] == s.cache[FlightKey(x)];
    }
  }

  lemma {:induction false} ServedKeeps(s: Service, rs: seq<Request>)
    requires Rows(s.db) && Canonical(s)
    ensures Rows(Served(s, rs).db) && Canonical(Served(s, rs)) && Served(s, rs).db.flights.Keys == s.db.flights.Keys
    decreases |rs|
  {
    if rs != [] {
      ServedKeeps(s, rs[..|rs| - 1]);
      ServeKeepsTheRows(Served(s, rs[..|rs| - 1]), rs[|rs| - 1]);
      ServeKeepsCanonical(Served(s, rs[..|rs| - 1]), rs[|rs| - 1]);
    }
  }

  // ---------- A request as moves on the flight's key ----------

  type World = Races.State<Flight>
  type Step = Races.Move<Flight>

  function ReadMoves(n: nat, looks: bool, store: bool): seq<Step> {
    [if looks then Races.Get(n) else Races.Bypass(n)] + [Races.ReadDatabase(n)] + (if store then [Races.SetKey(n)] else [])
  }

  function WriteMoves(f: Flight, version: nat, deletes: bool): seq<Step> {
    [Races.Commit(f)] + (if deletes then [Races.Delete(version)] else [])
  }

  /** What request r does on the flight's key: its reader has number n, and the next version of the row that number. */
  function MovesFor(s: Service, row: string, r: Request, n: nat, version: nat): seq<Step>
    requires row in s.db.flights
  {
    match r
    case GetFlight(id, hit, store) =>
      if Uuid(id) != Some(row) then []
      else if hit && id == row && FlightKey(row) in s.cache then [Races.Get(n)]
      else ReadMoves(n, hit && id == row, store)
    case SearchFlights(_, _, _, _, _) => []
    case Mutate(c, dropsFlight, _) =>
      var out := Requested(s.db, c);
      if out.Done? && CalledRow(s.db, c) == row && row in out.db.flights
      then WriteMoves(out.db.flights[row], version, dropsFlight && CalledFlight(s.db, c) == row) else []
    case Expiry(key) => if key == FlightKey(row) then [Races.Tick(Races.TTL)] else []
  }

  function Follow(w: World, moves: seq<Step>): (w': World)
    requires Races.Ready(w)
    ensures Races.Ready(w')
  {
    if moves == [] then w else Races.Next(Follow(w, moves[..|moves| - 1]), moves[|moves| - 1])
  }

  lemma FollowOne(w: World, a: Step)
    requires Races.Ready(w)
    ensures Follow(w, [a]) == Races.Next(w, a)
  {
    assert [a][..0] == [];
  }

  lemma FollowSnoc(w: World, moves: seq<Step>, a: Step)
    requires Races.Ready(w)
    ensures Follow(w, moves + [a]) == Races.Next(Follow(w, moves), a)
  {
    assert (moves + [a])[..|moves|] == moves;
  }

  lemma {:induction false} ExecFollow(value: Flight, a: seq<Step>, b: seq<Step>)
    ensures Races.Exec(value, a + b) == Follow(Races.Exec(value, a), b)
    decreases |b|
  {
    if b == [] {
      assert a + b == a;
    } else {
      var front, last := b[..|b| - 1], b[|b| - 1];
      ExecFollow(value, a, front);
      assert (a + b)[..|a + b| - 1] == a + front;
    }
  }

  // ---------- What one request does to the flight's row and entry ----------

  function RowEntry(s: Service, row: string): Option<Entry> {
    if FlightKey(row) in s.cache then Some(s.cache[FlightKey(row)]) else None
  }

  lemma GetServes(s: Service, row: string, r: Request)
    requires Canonical(s) && row in s.db.flights && Gets(r, row)
    ensures var (s', a) := Serve(s, r); var e := RowEntry(s, row);
      && s'.db == s.db
      && if r.cacheReads && r.id == row && e.Some? then s' == s && e.value.FlightEntry? && a == FlightAnswer(Some(e.value.flight))
         else a == FlightAnswer(Some(s.db.flights[row]))
              && RowEntry(s', row) == if r.cacheWrites then Some(FlightEntry(s.db.flights[row])) else e
  {
    if FlightKey(r.id) in s.cache {
      assert Uuid(r.id) == Some(r.id);
    }
  }

  // Whether a request is a successful change of the row, and whether it deletes the row's entry.
  predicate Changes(s: Service, row: string, r: Request) {
    r.Mutate? && Requested(s.db, r.call).Done? && CalledRow(s.db, r.call) == row && row in Requested(s.db, r.call).db.flights
  }

  predicate Deletes(s: Service, row: string, r: Request) {
    r.Mutate? && r.dropsFlight && CalledFlight(s.db, r.call) == row
  }

  // The row a change makes.
  function Made(s: Service, row: string, r: Request): Option<Flight> {
    if Changes(s, row, r) then Some(Requested(s.db, r.call).db.flights[row]) else None
  }

  lemma ChangeServes(s: Service, row: string, r: Request)
    requires Rows(s.db) && Changes(s, row, r)
    ensures var s' := Serve(s, r).0;
      && row in s'.db.flights && s'.db.flights[row] == Requested(s.db, r.call).db.flights[row]
      && RowEntry(s', row) == if Deletes(s, row, r) then None else RowEntry(s, row)
  {
    var id, f := ServesChange(s, r);
    EntryAfter(s.cache, CalledFlight(s.db, r.call), f, r.dropsFlight, r.dropsSearch, row);
  }

  lemma OtherChangeServes(s: Service, row: string, r: Request)
    requires Rows(s.db) && row in s.db.flights && r.Mutate? && !Changes(s, row, r)
    ensures var s' := Serve(s, r).0;
      row in s'.db.flights && s'.db.flights[row] == s.db.flights[row] && RowEntry(s', row) == RowEntry(s, row)
  {
    if Requested(s.db, r.call).Done? {
      var id, f := ServesChange(s, r);
      NamesItsRow(s.db, r.call);
      CallTouchesOneFlight(s.db, r.call);
      EntryAfter(s.cache, CalledFlight(s.db, r.call), f, r.dropsFlight, r.dropsSearch, row);
    }
  }

  lemma OtherServes(s: Service, row: string, r: Request)
    requires !Gets(r, row) && !r.Mutate?
    ensures var s' := Serve(s, r).0;
      s'.db == s.db && RowEntry(s', row) == if r.Expiry? && r.key == FlightKey(row) then None else RowEntry(s, row)
  {
    match r
    case GetFlight(id, _, _) =>
      if Uuid(id).Some? && FlightKey(Uuid(id).value) == FlightKey(row) {
        FlightKeyInjective(Uuid(id).value, row);
      }
    case SearchFlights(o, d, date, _, _) => KeysApart(row, o, d, date);
    case Expiry(_) =>
  }

  // ---------- The races follow ----------

  /** The current version is f, the key holds e, and no reader has a number from n on. */
  predicate Tracks(w: World, f: Flight, e: Option<Entry>, n: nat) {
    && Races.Ready(w)
    && w.versions[Races.Current(w)].value == f
    && e == (if w.cache.Some? then Some(FlightEntry(w.versions[w.cache.value.version].value)) else None)
    && (w.cache.Some? ==> w.cache.value.setAt.time <= w.now.time)
    && (forall r :: r in w.readers ==> r < n)
    && (forall v :: v in w.deletes ==> v < |w.versions|)
  }

  /** What moves do to the versions and the deletions; they never leave the key missing a version that was deleted. */
  ghost predicate Moved(w: World, w': World, made: Option<Flight>, deletes: bool) {
    && (if made.Some?
        then |w'.versions| == |w.versions| + 1 && w'.versions[..|w.versions|] == w.versions
             && w'.versions[|w.versions|].value == made.value
        else w'.versions == w.versions)
    && w'.deletes.Keys == (if made.Some? && deletes then w.deletes.Keys + {|w.versions|} else w.deletes.Keys)
    && (Races.MissesOnlyPending(w) ==> Races.MissesOnlyPending(w'))
  }

  lemma MissFollows(w: World, f: Flight, e: Option<Entry>, n: nat, looks: bool) returns (start: Step, w2: World)
    requires Tracks(w, f, e, n) && (looks ==> e.None?)
    ensures start == if looks then Races.Get(n) else Races.Bypass(n)
    ensures Follow(w, [start] + [Races.ReadDatabase(n)]) == w2 && Tracks(w2, f, e, n + 1) && Moved(w, w2, None, false)
    ensures w2.served == w.served + [f]
    ensures n in w2.readers && w2.readers[n].Holding? && w2.readers[n].version == Races.Current(w2)
  {
    start := if looks then Races.Get(n) else Races.Bypass(n);
    FollowOne(w, start);
    FollowSnoc(w, [start], Races.ReadDatabase(n));
    var w1 := Races.Next(w, start);
    assert w1.readers == w.readers[n := Races.Missed] && w1.versions == w.versions && w1.cache == w.cache && w1.served == w.served;
    w2 := Races.Next(w1, Races.ReadDatabase(n));
  }

  lemma SetFollows(w: World, f: Flight, e: Option<Entry>, n: nat)
    requires Tracks(w, f, e, n + 1) && n in w.readers && w.readers[n].Holding? && w.readers[n].version == Races.Current(w)
    ensures var w' := Races.Next(w, Races.SetKey(n));
      Tracks(w', f, Some(FlightEntry(f)), n + 1) && w'.served == w.served && Moved(w, w', None, false)
  {
  }

  lemma ReadFollows(w: World, f: Flight, e: Option<Entry>, n: nat, looks: bool, store: bool)
    requires Tracks(w, f, e, n) && (looks ==> e.None?)
    ensures var w' := Follow(w, ReadMoves(n, looks, store));
      && Tracks(w', f, if store then Some(FlightEntry(f)) else e, n + 1) && w'.served == w.served + [f]
      && Moved(w, w', None, false)
  {
    var start, w2 := MissFollows(w, f, e, n, looks);
    var two := [start] + [Races.ReadDatabase(n)];
    if store {
      FollowSnoc(w, two, Races.SetKey(n));
      SetFollows(w2, f, e, n);
    } else {
      assert two + [] == two;
    }
  }

  lemma HitFollows(w: World, f: Flight, g: Flight, n: nat)
    requires Tracks(w, f, Some(FlightEntry(g)), n)
    ensures var w' := Follow(w, [Races.Get(n)]);
      Tracks(w', f, Some(FlightEntry(g)), n + 1) && w'.served == w.served + [g] && Moved(w, w', None, false)
  {
    FollowOne(w, Races.Get(n));
  }

  lemma WriteFollows(w: World, f: Flight, e: Option<Entry>, n: nat, g: Flight, deletes: bool)
    requires Tracks(w, f, e, n)
    ensures var w' := Follow(w, WriteMoves(g, |w.versions|, deletes));
      Tracks(w', g, if deletes then None else e, n + 1) && w'.served == w.served && Moved(w, w', Some(g), deletes)
  {
    FollowOne(w, Races.Commit(g));
    FollowSnoc(w, [Races.Commit(g)], Races.Delete(|w.versions|));
    assert [Races.Commit(g)] + [] == [Races.Commit(g)];
  }

  lemma ExpiryFollows(w: World, f: Flight, e: Option<Entry>, n: nat)
    requires Tracks(w, f, e, n)
    ensures var w' := Follow(w, [Races.Tick(Races.TTL)]);
      Tracks(w', f, None, n + 1) && w'.served == w.served && Moved(w, w', None, false)
  {
    FollowOne(w, Races.Tick(Races.TTL));
  }

  lemma NothingFollows(w: World, f: Flight, e: Option<Entry>, n: nat)
    requires Tracks(w, f, e, n)
    ensures Tracks(Follow(w, []), f, e, n + 1) && Follow(w, []).served == w.served && Moved(w, Follow(w, []), None, false)
  {
  }

  /** The service's row and entry are the current version and the key. */
  predicate Shows(s: Service, w: World, row: string, n: nat) {
    row in s.db.flights && Tracks(w, s.db.flights[row], RowEntry(s, row), n)
  }

  // What the flight's requests are answered.
  function AnswerTo(s: Service, row: string, r: Request): seq<Flight> {
    var a := Serve(s, r).1;
    if Gets(r, row) && a.FlightAnswer? && a.flight.Some? then [a.flight.value] else []
  }

  lemma GetShows(s: Service, w: World, row: string, r: Request, n: nat)
    requires Shows(s, w, row, n) && Canonical(s) && Gets(r, row)
    ensures var w' := Follow(w, MovesFor(s, row, r, n, |w.versions|));
      Shows(Serve(s, r).0, w', row, n + 1) && w'.served == w.served + AnswerTo(s, row, r) && Moved(w, w', None, false)
  {
    GetServes(s, row, r);
    var f, e := s.db.flights[row], RowEntry(s, row);
    var hits := r.cacheReads && r.id == row && e.Some?;
    if hits {
      assert MovesFor(s, row, r, n, |w.versions|) == [Races.Get(n)];
      HitFollows(w, f, e.value.flight, n);
    } else {
      assert MovesFor(s, row, r, n, |w.versions|) == ReadMoves(n, r.cacheReads && r.id == row, r.cacheWrites);
      ReadFollows(w, f, e, n, r.cacheReads && r.id == row, r.cacheWrites);
    }
  }

  lemma MutateShows(s: Service, w: World, row: string, r: Request, n: nat)
    requires Rows(s.db) && Shows(s, w, row, n) && r.Mutate?
    ensures var w' := Follow(w, MovesFor(s, row, r, n, |w.versions|));
      Shows(Serve(s, r).0, w', row, n + 1) && w'.served == w.served && Moved(w, w', Made(s, row, r), Deletes(s, row, r))
  {
    var f, e := s.db.flights[row], RowEntry(s, row);
    if Changes(s, row, r) {
      ChangeServes(s, row, r);
      WriteFollows(w, f, e, n, Made(s, row, r).value, Deletes(s, row, r));
    } else {
      OtherChangeServes(s, row, r);
      NothingFollows(w, f, e, n);
    }
  }

  lemma OtherShows(s: Service, w: World, row: string, r: Request, n: nat)
    requires Shows(s, w, row, n) && !Gets(r, row) && !r.Mutate?
    ensures var w' := Follow(w, MovesFor(s, row, r, n, |w.versions|));
      Shows(Serve(s, r).0, w', row, n + 1) && w'.served == w.served && Moved(w, w', None, false)
  {
    OtherServes(s, row, r);
    if r.Expiry? && r.key == FlightKey(row) {
      ExpiryFollows(w, s.db.flights[row], RowEntry(s, row), n);
    } else {
      NothingFollows(w, s.db.flights[row], RowEntry(s, row), n);
    }
  }

  /** One request is some moves of the races on the flight's key, with the same answer. */
  lemma RequestShows(s: Service, w: World, row: string, r: Request, n: nat)
    requires Rows(s.db) && Canonical(s) && Shows(s, w, row, n)
    ensures var w' := Follow(w, MovesFor(s, row, r, n, |w.versions|));
      Shows(Serve(s, r).0, w', row, n + 1) && w'.served == w.served + AnswerTo(s, row, r)
      && Moved(w, w', Made(s, row, r), Deletes(s, row, r))
  {
    if Gets(r, row) {
      GetShows(s, w, row, r, n);
    } else if r.Mutate? {
      MutateShows(s, w, row, r, n);
    } else {
      OtherShows(s, w, row, r, n);
    }
  }

  // ---------- Whole runs ----------

  // Rows are keyed as the database prints them, and nothing is cached yet.
  ghost predicate Opens(s: Service, row: string) {
    Rows(s.db) && s.cache == map[] && row in s.db.flights
  }

  /** The requests of a run as a schedule of moves on the flight's key. */
  ghost function Schedule(s: Service, row: string, rs: seq<Request>): seq<Step>
    requires Opens(s, row)
  {
    if rs == [] then []
    else
      var front := rs[..|rs| - 1];
      ServedKeeps(s, front);
      var before := Schedule(s, row, front);
      before + MovesFor(Served(s, front), row, rs[|rs| - 1], |front|, |Races.Exec(s.db.flights[row], before).versions|)
  }

  ghost function WorldAfter(s: Service, row: string, rs: seq<Request>): World
    requires Opens(s, row)
  {
    Races.Exec(s.db.flights[row], Schedule(s, row, rs))
  }

  function RowAnswers(s: Service, row: string, rs: seq<Request>): seq<Flight> {
    if rs == [] then []
    else RowAnswers(s, row, rs[..|rs| - 1]) + AnswerTo(Served(s, rs[..|rs| - 1]), row, rs[|rs| - 1])
  }

  lemma WorldStep(s: Service, row: string, rs: seq<Request>)
    requires Opens(s, row) && rs != []
    ensures var front := rs[..|rs| - 1]; var w := WorldAfter(s, row, front);
      && row in Served(s, front).db.flights
      && WorldAfter(s, row, rs) == Follow(w, MovesFor(Served(s, front), row, rs[|rs| - 1], |front|, |w.versions|))
  {
    var front := rs[..|rs| - 1];
    var w := WorldAfter(s, row, front);
    ServedKeeps(s, front);
    ExecFollow(s.db.flights[row], Schedule(s, row, front), MovesFor(Served(s, front), row, rs[|rs| - 1], |front|, |w.versions|));
  }

  /**
   * In every run, whatever fails and however ids are spelled, the flight's row, its cache entry and the answers to
   * its requests are those of one schedule of the races on its key, in which the key never misses a deleted version.
   */
  lemma {:induction false} RunsAreSchedules(s: Service, row: string, rs: seq<Request>)
    requires Opens(s, row)
    ensures var w := WorldAfter(s, row, rs);
      Shows(Served(s, rs), w, row, |rs|) && w.served == RowAnswers(s, row, rs) && Races.MissesOnlyPending(w)
    decreases |rs|
  {
    if rs != [] {
      var front := rs[..|rs| - 1];
      RunsAreSchedules(s, row, front);
      ServedKeeps(s, front);
      WorldStep(s, row, rs);
      RequestShows(Served(s, front), WorldAfter(s, row, front), row, rs[|rs| - 1], |front|);
    }
  }

  // Version v of the row was made by request i, whose deletion is the version's.
  ghost predicate MadeBy(s: Service, row: string, rs: seq<Request>, w: World, v: nat, i: nat) {
    && i < |rs| && v < |w.versions|
    && Made(Served(s, rs[..i]), row, rs[i]) == Some(w.versions[v].value)
    && (v in w.deletes <==> Deletes(Served(s, rs[..i]), row, rs[i]))
  }

  lemma StillMadeBy(s: Service, row: string, rs: seq<Request>, w: World, w': World, v: nat, i: nat)
    requires rs != [] && MadeBy(s, row, rs[..|rs| - 1], w, v, i)
    requires v < |w'.versions| && w'.versions[v] == w.versions[v] && (v in w'.deletes <==> v in w.deletes)
    ensures MadeBy(s, row, rs, w', v, i)
  {
    var front := rs[..|rs| - 1];
    assert front[..i] == rs[..i] && front[i] == rs[i];
  }

  lemma RunStep(s: Service, row: string, rs: seq<Request>)
    requires Opens(s, row) && rs != []
    ensures var front := rs[..|rs| - 1]; var w := WorldAfter(s, row, front);
      && w.versions != [] && (forall v :: v in w.deletes ==> v < |w.versions|)
      && Moved(w, WorldAfter(s, row, rs), Made(Served(s, front), row, rs[|rs| - 1]), Deletes(Served(s, front), row, rs[|rs| - 1]))
  {
    var front := rs[..|rs| - 1];
    RunsAreSchedules(s, row, front);
    ServedKeeps(s, front);
    WorldStep(s, row, rs);
    RequestShows(Served(s, front), WorldAfter(s, row, front), row, rs[|rs| - 1], |front|);
  }

  lemma VersionMoved(w: World, w': World, made: Option<Flight>, deletes: bool, v: nat)
    requires Moved(w, w', made, deletes) && v < |w'.versions| && forall u :: u in w.deletes ==> u < |w.versions|
    ensures v < |w.versions| ==> w'.versions[v] == w.versions[v] && (v in w'.deletes <==> v in w.deletes)
    ensures v >= |w.versions| ==> made == Some(w'.versions[v].value) && (v in w'.deletes <==> deletes)
  {
    if v < |w.versions| && made.Some? {
      assert w'.versions[v] == w'.versions[..|w.versions|][v];
    }
    assert v in w'.deletes <==> v in w'.deletes.Keys;
  }

  lemma VersionInStep(s: Service, row: string, rs: seq<Request>, v: nat)
    requires Opens(s, row) && rs != [] && v < |WorldAfter(s, row, rs).versions|
    ensures var front := rs[..|rs| - 1]; var w, w' := WorldAfter(s, row, front), WorldAfter(s, row, rs);
      && (v < |w.versions| ==> w'.versions[v] == w.versions[v] && (v in w'.deletes <==> v in w.deletes))
      && (v >= |w.versions| ==> MadeBy(s, row, rs, w', v, |front|))
  {
    var front, r := rs[..|rs| - 1], rs[|rs| - 1];
    RunStep(s, row, rs);
    VersionMoved(WorldAfter(s, row, front), WorldAfter(s, row, rs), Made(Served(s, front), row, r), Deletes(Served(s, front), row, r), v);
  }

  lemma {:induction false} VersionsAreMade(s: Service, row: string, rs: seq<Request>, v: nat) returns (i: nat)
    requires Opens(s, row) && 0 < v < |WorldAfter(s, row, rs).versions|
    ensures MadeBy(s, row, rs, WorldAfter(s, row, rs), v, i)
    decreases |rs|
  {
    if rs == [] {
      assert false;
    }
    var front := rs[..|rs| - 1];
    VersionInStep(s, row, rs, v);
    if v < |WorldAfter(s, row, front).versions| {
      i := VersionsAreMade(s, row, front, v);
      StillMadeBy(s, row, rs, WorldAfter(s, row, front), WorldAfter(s, row, rs), v, i);
    } else {
      i := |front|;
    }
  }

  lemma {:induction false} FirstVersion(s: Service, row: string, rs: seq<Request>)
    requires Opens(s, row)
    ensures WorldAfter(s, row, rs).versions[0].value == s.db.flights[row]
    decreases |rs|
  {
    if rs != [] {
      var front := rs[..|rs| - 1];
      FirstVersion(s, row, front);
      RunStep(s, row, rs);
      VersionInStep(s, row, rs, 0);
    }
  }

  predicate Had(s: Service, row: string, rs: seq<Request>, n: nat, f: Flight) {
    n <= |rs| && row in Served(s, rs[..n]).db.flights && Served(s, rs[..n]).db.flights[row] == f
  }

  lemma MadeIsHad(s: Service, row: string, rs: seq<Request>, i: nat, f: Flight)
    requires Opens(s, row) && i < |rs| && Made(Served(s, rs[..i]), row, rs[i]) == Some(f)
    ensures Had(s, row, rs, i + 1, f)
  {
    var before := Served(s, rs[..i]);
    ServedKeeps(s, rs[..i]);
    ChangeServes(before, row, rs[i]);
    assert rs[..i + 1][..i] == rs[..i];
    assert Served(s, rs[..i + 1]) == Serve(before, rs[i]).0;
  }

  /** In every run, every answer for a flight is a row it had at some point of the run. */
  lemma AnswersAreRows(s: Service, row: string, rs: seq<Request>, i: nat)
    requires Opens(s, row) && i < |RowAnswers(s, row, rs)|
    ensures exists n :: Had(s, row, rs, n, RowAnswers(s, row, rs)[i])
  {
    RunsAreSchedules(s, row, rs);
    Races.ServedWasCommitted(s.db.flights[row], Schedule(s, row, rs), i);
    var w := WorldAfter(s, row, rs);
    var v :| 0 <= v < |w.versions| && w.versions[v].value == w.served[i];
    if v == 0 {
      FirstVersion(s, row, rs);
      assert Had(s, row, rs, 0, w.served[i]);
    } else {
      var j := VersionsAreMade(s, row, rs, v);
      MadeIsHad(s, row, rs, j, w.served[i]);
    }
  }

  predicate LeavesEntry(s: Service, row: string, rs: seq<Request>, i: nat) {
    i < |rs| && Changes(Served(s, rs[..i]), row, rs[i]) && !Deletes(Served(s, rs[..i]), row, rs[i])
  }

  lemma NotCurrentIsPending(w: World, f: Flight, e: Option<Entry>, n: nat)
    requires Tracks(w, f, e, n) && e.Some? && e != Some(FlightEntry(f)) && Races.MissesOnlyPending(w)
    ensures Races.Current(w) > 0 && Races.Current(w) !in w.deletes
  {
  }

  /**
   * A cached flight that is not the row goes back to a change of the row whose deletion failed or spelled the id
   * another way: requests one after another have no late setters.
   */
  lemma StaleEntryIsExplained(s: Service, row: string, rs: seq<Request>)
    requires Opens(s, row) && row in Served(s, rs).db.flights
    requires var e := RowEntry(Served(s, rs), row); e.Some? && e != Some(FlightEntry(Served(s, rs).db.flights[row]))
    ensures exists i :: LeavesEntry(s, row, rs, i)
  {
    RunsAreSchedules(s, row, rs);
    var w := WorldAfter(s, row, rs);
    NotCurrentIsPending(w, Served(s, rs).db.flights[row], RowEntry(Served(s, rs), row), |rs|);
    var i := VersionsAreMade(s, row, rs, Races.Current(w));
    assert LeavesEntry(s, row, rs, i);
  }
}
