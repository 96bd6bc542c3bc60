/** Cache-aside reads over the seat ledger: exactly when cached answers are the answers the database would give. */
module FlightCache {
  import opened MapSums
  import opened Seats
  import opened Uuids

  // ---------- Cache keys ----------

  const DIGITS := ['0', '1', '2', '3', '4', '5', '6', '7', '8', '9']

  /** The last `width` decimal digits of n, with leading zeros. */
  function Padded(n: nat, width: nat): (s: string)
    ensures |s| == width
  {
    if width == 0 then [] else Padded(n / 10, width - 1) + [DIGITS[n % 10]]
  }

  function DateText(d: Date): string {
    Padded(d.year, 4) + "-" + Padded(d.month, 2) + "-" + Padded(d.day, 2)
  }

  function FlightKey(id: string): string {
    "flight:" + id
  }

  function SearchKey(origin: string, destination: string, date: Date): string {
    "search:" + origin + ":" + destination + ":" + DateText(date)
  }

  function Power10(width: nat): nat {
    if width == 0 then 1 else 10 * Power10(width - 1)
  }

  lemma {:induction false} PaddedInjective(a: nat, b: nat, width: nat)
    requires a < Power10(width) && b < Power10(width) && Padded(a, width) == Padded(b, width)
    ensures a == b
    decreases width
  {
    if width > 0 {
      var x, y := Padded(a, width), Padded(b, width);
      assert x[..width - 1] == Padded(a / 10, width - 1) && x[width - 1] == DIGITS[a % 10];
      assert y[..width - 1] == Padded(b / 10, width - 1) && y[width - 1] == DIGITS[b % 10];
      PaddedInjective(a / 10, b / 10, width - 1);
    }
  }

  lemma DateTextInjective(a: Date, b: Date)
    requires DateText(a) == DateText(b)
    ensures a == b
  {
    var x, y := DateText(a), DateText(b);
    assert x[..4] == Padded(a.year, 4) && x[5..7] == Padded(a.month, 2) && x[8..10] == Padded(a.day, 2);
    assert y[..4] == Padded(b.year, 4) && y[5..7] == Padded(b.month, 2) && y[8..10] == Padded(b.day, 2);
    assert Power10(2) == 100 && Power10(4) == 10_000 by {
      assert Power10(0) == 1 && Power10(1) == 10 && Power10(2) == 100 && Power10(3) == 1_000;
    }
    PaddedInjective(a.year, b.year, 4);
    PaddedInjective(a.month, b.month, 2);
    PaddedInjective(a.day, b.day, 2);
  }

  const CODE_LENGTH := 3

  /** For airport codes of the schema's fixed length, different searches have different keys. */
  lemma SearchKeyInjective(o1: string, d1: string, t1: Date, o2: string, d2: string, t2: Date)
    requires |o1| == |d1| == |o2| == |d2| == CODE_LENGTH
    requires SearchKey(o1, d1, t1) == SearchKey(o2, d2, t2)
    ensures o1 == o2 && d1 == d2 && t1 == t2
  {
    var x, y := SearchKey(o1, d1, t1), SearchKey(o2, d2, t2);
    assert x[7..10] == o1 && x[11..14] == d1 && x[15..] == DateText(t1);
    assert y[7..10] == o2 && y[11..14] == d2 && y[15..] == DateText(t2);
    DateTextInjective(t1, t2);
  }

  datatype Query = Query(origin: string, destination: string, date: Date)

  function KeyOf(q: Query): string {
    SearchKey(q.origin, q.destination, q.date)
  }

  predicate HasColon(code: string) {
    exists i :: 0 <= i < |code| && code[i] == ':'
  }

  // The part of a search key between its prefix and the date's own colon.
  function Route(o: string, d: string): string {
    o + ":" + d
  }

  lemma KeyParts(o: string, d: string, date: Date)
    ensures SearchKey(o, d, date) == "search:" + Route(o, d) + (":" + DateText(date)) && |DateText(date)| == 10
  {
  }

  lemma EqualKeysEqualParts(a: Query, b: Query)
    requires KeyOf(a) == KeyOf(b)
    ensures Route(a.origin, a.destination) == Route(b.origin, b.destination) && a.date == b.date
  {
    var x, y := Route(a.origin, a.destination), Route(b.origin, b.destination);
    KeyParts(a.origin, a.destination, a.date);
    KeyParts(b.origin, b.destination, b.date);
    var key := KeyOf(a);
    assert key[7..|key| - 11] == x && key[|key| - 10..] == DateText(a.date);
    assert key[7..|key| - 11] == y && key[|key| - 10..] == DateText(b.date);
    DateTextInjective(a.date, b.date);
  }

  lemma OneColonOneRoute(o: string, d: string, o': string, d': string)
    requires !HasColon(o) && !HasColon(d) && Route(o, d) == Route(o', d')
    ensures o == o' && d == d'
  {
    var r := Route(o, d);
    assert r[|o'|] == ':' && r[|o|] == ':';
    assert forall i :: 0 <= i < |r| && r[i] == ':' ==> i == |o|;
    assert r[..|o|] == o && r[..|o|] == o' && r[|o| + 1..] == d && r[|o| + 1..] == d';
  }

  // Moving the border of the two codes to another colon gives another search with the same key.
  lemma SplitAt(code: string) returns (i: nat)
    requires HasColon(code)
    ensures i < |code| && code == code[..i] + ":" + code[i + 1..]
  {
    i :| i < |code| && code[i] == ':';
    assert code == code[..i] + [code[i]] + code[i + 1..];
  }

  lemma OtherSplit(q: Query) returns (other: Query)
    requires HasColon(q.origin) || HasColon(q.destination)
    ensures other != q && KeyOf(other) == KeyOf(q)
  {
    if HasColon(q.origin) {
      var i := SplitAt(q.origin);
      other := Query(q.origin[..i], q.origin[i + 1..] + ":" + q.destination, q.date);
      assert Route(other.origin, other.destination) == Route(q.origin, q.destination);
    } else {
      var i := SplitAt(q.destination);
      other := Query(q.origin + ":" + q.destination[..i], q.destination[i + 1..], q.date);
      assert Route(other.origin, other.destination) == Route(q.origin, q.destination);
    }
    KeyParts(q.origin, q.destination, q.date);
    KeyParts(other.origin, other.destination, other.date);
  }

  /** A search shares its key with another search if and only if there is a colon in one of its codes. */
  lemma KeysCollideExactly(q: Query)
    ensures (exists other :: other != q && KeyOf(other) == KeyOf(q)) <==> HasColon(q.origin) || HasColon(q.destination)
  {
    if HasColon(q.origin) || HasColon(q.destination) {
      var other := OtherSplit(q);
    } else {
      forall other | KeyOf(other) == KeyOf(q) ensures other == q {
        EqualKeysEqualParts(q, other);
        OneColonOneRoute(q.origin, q.destination, other.origin, other.destination);
      }
    }
  }

  lemma KeysApart(id: string, origin: string, destination: string, date: Date)
    ensures FlightKey(id) != SearchKey(origin, destination, date)
  {
    assert FlightKey(id)[0] == 'f' && SearchKey(origin, destination, date)[0] == 's';
  }

  lemma FlightKeyInjective(a: string, b: string)
    requires FlightKey(a) == FlightKey(b)
    ensures a == b
  {
    assert FlightKey(a)[7..] == a && FlightKey(b)[7..] == b;
  }

  // ---------- The database's answers ----------

  datatype Row = Row(id: string, flight: Flight)

  /** A fixed-length column compares without regard to trailing blanks. */
  function Trimmed(code: string): string {
    if code != [] && code[|code| - 1] == ' ' then Trimmed(code[..|code| - 1]) else code
  }

  predicate Matches(f: Flight, origin: string, destination: string, date: Date) {
    Trimmed(f.origin) == Trimmed(origin) && Trimmed(f.destination) == Trimmed(destination)
    && f.departureDate == date && f.status == Scheduled
  }

  lemma {:induction false} TrimmedEnds(code: string)
    ensures Trimmed(code) <= code
    ensures forall i :: |Trimmed(code)| <= i < |code| ==> code[i] == ' '
    ensures Trimmed(code) != [] ==> Trimmed(code)[|Trimmed(code)| - 1] != ' '
    decreases |code|
  {
    if code != [] && code[|code| - 1] == ' ' {
      var front := code[..|code| - 1];
      TrimmedEnds(front);
      assert forall i :: 0 <= i < |front| ==> code[i] == front[i];
    }
  }

  // One code is the other with blanks after it.
  predicate BlanksApart(a: string, b: string) {
    && (forall i :: 0 <= i < |a| && i < |b| ==> a[i] == b[i])
    && (forall i :: |b| <= i < |a| ==> a[i] == ' ')
    && (forall i :: |a| <= i < |b| ==> b[i] == ' ')
  }

  lemma TrimmedNoShorter(a: string, b: string)
    requires BlanksApart(a, b)
    ensures |Trimmed(a)| >= |Trimmed(b)|
  {
    TrimmedEnds(a);
    TrimmedEnds(b);
    if Trimmed(b) != [] {
      var last := |Trimmed(b)| - 1;
      assert b[last] == Trimmed(b)[last];
    }
  }

  /** Codes compare equal if and only if one is the other with blanks after it. */
  lemma TrimmedExactly(a: string, b: string)
    ensures Trimmed(a) == Trimmed(b) <==> BlanksApart(a, b)
  {
    TrimmedEnds(a);
    TrimmedEnds(b);
    var s, t := Trimmed(a), Trimmed(b);
    if BlanksApart(a, b) {
      TrimmedNoShorter(a, b);
      TrimmedNoShorter(b, a);
      forall i | 0 <= i < |s| ensures s[i] == t[i] {
        assert s[i] == a[i] && t[i] == b[i];
      }
    }
    if s == t {
      forall i | 0 <= i < |a| && i < |b| ensures a[i] == b[i] {
        if i < |s| {
          assert a[i] == s[i] && b[i] == t[i];
        }
      }
    }
  }

  /** Codes of one length are equal if they are equal up to trailing blanks. */
  lemma SameLengthSameCode(a: string, b: string)
    requires |a| == |b| && Trimmed(a) == Trimmed(b)
    ensures a == b
  {
    TrimmedExactly(a, b);
  }

  /** The flights of a search, in departure order; ids lists all flights in that order. */
  function Search(flights: map<string, Flight>, ids: seq<string>, origin: string, destination: string, date: Date): seq<Row> {
    if ids == [] then []
    else
      var id := ids[|ids| - 1];
      Search(flights, ids[..|ids| - 1], origin, destination, date)
      + (if id in flights && Matches(flights[id], origin, destination, date) then [Row(id, flights[id])] else [])
  }

  /** A scheduled flight of that route, up to blanks, leaving on that date. */
  predicate OnSale(f: Flight, o: string, d: string, date: Date) {
    f.status == Scheduled && f.departureDate == date && BlanksApart(f.origin, o) && BlanksApart(f.destination, d)
  }

  lemma MatchesExactly(f: Flight, o: string, d: string, date: Date)
    ensures Matches(f, o, d, date) <==> OnSale(f, o, d, date)
  {
    TrimmedExactly(f.origin, o);
    TrimmedExactly(f.destination, d);
  }

  /** A search lists exactly the scheduled flights of its route and date, each as it stands. */
  lemma {:induction false} SearchIsExact(flights: map<string, Flight>, ids: seq<string>, o: string, d: string, date: Date, row: Row)
    ensures row in Search(flights, ids, o, d, date) <==>
      row.id in ids && row.id in flights && OnSale(flights[row.id], o, d, date) && row.flight == flights[row.id]
    decreases |ids|
  {
    if ids != [] {
      var front, id := ids[..|ids| - 1], ids[|ids| - 1];
      SearchIsExact(flights, front, o, d, date, row);
      assert row.id in ids <==> row.id in front || row.id == id;
      if id in flights {
        MatchesExactly(flights[id], o, d, date);
      }
    }
  }

  // at picks the positions of the flights on sale, all of them, from first to last.
  predicate Picks(flights: map<string, Flight>, ids: seq<string>, o: string, d: string, date: Date, at: seq<nat>) {
    && (forall j :: 0 <= j < |at| ==> at[j] < |ids|)
    && (forall j, k :: 0 <= j < k < |at| ==> at[j] < at[k])
    && (forall i :: 0 <= i < |ids| ==> (i in at <==> ids[i] in flights && OnSale(flights[ids[i]], o, d, date)))
  }

  /** It lists each of them once, in order of departure. */
  lemma {:induction false} SearchInOrder(flights: map<string, Flight>, ids: seq<string>, o: string, d: string, date: Date) returns (at: seq<nat>)
    ensures Picks(flights, ids, o, d, date, at) && |Search(flights, ids, o, d, date)| == |at|
    ensures forall j :: 0 <= j < |at| ==>
      ids[at[j]] in flights && Search(flights, ids, o, d, date)[j] == Row(ids[at[j]], flights[ids[at[j]]])
    decreases |ids|
  {
    if ids == [] {
      at := [];
    } else {
      var front, id := ids[..|ids| - 1], ids[|ids| - 1];
      at := SearchInOrder(flights, front, o, d, date);
      var before := at;
      if id in flights {
        MatchesExactly(flights[id], o, d, date);
        if OnSale(flights[id], o, d, date) {
          at := at + [|front|];
        }
      }
      PicksMore(flights, ids, o, d, date, before, at);
    }
  }

  lemma PicksMore(flights: map<string, Flight>, ids: seq<string>, o: string, d: string, date: Date, before: seq<nat>, at: seq<nat>)
    requires ids != [] && Picks(flights, ids[..|ids| - 1], o, d, date, before)
    requires var id := ids[|ids| - 1];
      at == if id in flights && OnSale(flights[id], o, d, date) then before + [|ids| - 1] else before
    ensures Picks(flights, ids, o, d, date, at)
  {
    var front := ids[..|ids| - 1];
    forall i | 0 <= i < |ids| ensures i in at <==> ids[i] in flights && OnSale(flights[ids[i]], o, d, date) {
      if i < |front| {
        assert front[i] == ids[i];
        assert i in at <==> i in before;
      } else {
        assert i !in before;
      }
    }
  }

  /** The row a text names, in whatever spelling. */
  function Lookup(flights: map<string, Flight>, id: string): Option<Flight> {
    if Uuid(id).Some? && Uuid(id).value in flights then Some(flights[Uuid(id).value]) else None
  }

  /** A flight is found if and only if the text names a stored row; it is that row. */
  lemma LookupExactly(flights: map<string, Flight>, id: string)
    ensures Lookup(flights, id).Some? <==> Uuid(id).Some? && Uuid(id).value in flights
    ensures Lookup(flights, id).Some? ==> Lookup(flights, id).value == flights[Uuid(id).value]
  {
  }

  /** A call as it arrives: its ids are texts that the database reads. */
  function Requested(db: Db, c: Call): Outcome {
    match c
    case ReserveCall(f, b, seats, now) =>
      if Uuid(f).None? then Failed(InvalidId)
      else if Uuid(b).Some? then Reserve(db, Uuid(f).value, Uuid(b).value, seats, now)
      else
        // The flight is checked before the reservation is inserted.
        var out := Reserve(db, Uuid(f).value, b, seats, now);
        if out.Failed? && out.error != ConstraintViolated then out else Failed(InvalidId)
    case ReleaseCall(b, now) => if Uuid(b).None? then Failed(InvalidId) else Release(db, Uuid(b).value, now)
  }

  // The same call on the rows its texts name.
  function Named(c: Call): Call {
    match c
    case ReserveCall(f, b, seats, now) => ReserveCall(Uuid(f).GetOr(f), Uuid(b).GetOr(b), seats, now)
    case ReleaseCall(b, now) => ReleaseCall(Uuid(b).GetOr(b), now)
  }

  lemma RequestedIsNamed(db: Db, c: Call)
    requires Requested(db, c).Done?
    ensures Run1(db, Named(c)) == Requested(db, c)
  {
  }

  // Flights are keyed by their id as the database prints it, and reservations refer to flights.
  predicate Rows(db: Db) {
    && (forall f :: f in db.flights ==> Uuid(f) == Some(f))
    && (forall b :: b in db.reservations ==> db.reservations[b].flightId in db.flights)
  }

  // ---------- The service ----------

  // A search that found nothing is stored as JSON null, which reads back as a miss.
  datatype Entry = FlightEntry(flight: Flight) | SearchEntry(rows: seq<Row>)

  datatype Service = Service(db: Db, ids: seq<string>, cache: map<string, Entry>)

  datatype Answer =
    | FlightAnswer(flight: Option<Flight>) | SearchAnswer(rows: seq<Row>) | CallAnswer(error: Option<Error>) | NoAnswer

  // A read, a write or an invalidation of the cache may fail, which the service only logs. The search entry is
  // dropped if the flight's lookup and the deletion both succeed.
  datatype Request =
    | GetFlight(id: string, cacheReads: bool, cacheWrites: bool)
    | SearchFlights(origin: string, destination: string, date: Date, cacheReads: bool, cacheWrites: bool)
    | Mutate(call: Call, dropsFlight: bool, dropsSearch: bool)
    | Expiry(key: string)

  function Dropped(cache: map<string, Entry>, key: string, works: bool): map<string, Entry> {
    if works then cache - {key} else cache
  }

  function Invalidated(s: Service, flightId: string, dropsFlight: bool, dropsSearch: bool): Service {
    var cache := Dropped(s.cache, FlightKey(flightId), dropsFlight);
    var flight := Lookup(s.db.flights, flightId);
    if flight.Some? then
      var f := flight.value;
      s.(cache := Dropped(cache, SearchKey(f.origin, f.destination, f.departureDate), dropsSearch))
    else s.(cache := cache)
  }

  /** The flight a call changes, as the service spells it when it invalidates: the caller's text, or the reservation's. */
  function CalledFlight(db: Db, c: Call): string {
    if c.ReserveCall? then c.flightId
    else if Uuid(c.bookingId).Some? && Uuid(c.bookingId).value in db.reservations
    then db.reservations[Uuid(c.bookingId).value].flightId
    else ""
  }

  /** The row of that flight. */
  function CalledRow(db: Db, c: Call): string {
    if c.ReserveCall? then Uuid(c.flightId).GetOr("") else CalledFlight(db, c)
  }

  function Serve(s: Service, r: Request): (Service, Answer) {
    match r
    case GetFlight(id, hit, store) =>
      var key := FlightKey(id);
      if hit && key in s.cache && s.cache[key].FlightEntry? then (s, FlightAnswer(Some(s.cache[key].flight)))
      else
        var found := Lookup(s.db.flights, id);
        // A row is stored under its own id, however the request spelled it.
        (if store && found.Some? then s.(cache := s.cache[FlightKey(Uuid(id).value) := FlightEntry(found.value)]) else s,
         FlightAnswer(found))
    case SearchFlights(o, d, date, hit, store) =>
      var key := SearchKey(o, d, date);
      if hit && key in s.cache && s.cache[key].SearchEntry? && s.cache[key].rows != [] then (s, SearchAnswer(s.cache[key].rows))
      else
        var rows := Search(s.db.flights, s.ids, o, d, date);
        (if store then s.(cache := s.cache[key := SearchEntry(rows)]) else s, SearchAnswer(rows))
    case Mutate(c, dropsFlight, dropsSearch) =>
      var out := Requested(s.db, c);
      if out.Failed? then (s, CallAnswer(Some(out.error)))
      else (Invalidated(s.(db := out.db), CalledFlight(s.db, c), dropsFlight, dropsSearch), CallAnswer(None))
    case Expiry(key) => (s.(cache := s.cache - {key}), NoAnswer)
  }

  // The same service with no cache.
  function ServePlain(s: Service, r: Request): (Service, Answer) {
    match r
    case GetFlight(id, _, _) => (s, FlightAnswer(Lookup(s.db.flights, id)))
    case SearchFlights(o, d, date, _, _) => (s, SearchAnswer(Search(s.db.flights, s.ids, o, d, date)))
    case Mutate(c, _, _) =>
      var out := Requested(s.db, c);
      if out.Failed? then (s, CallAnswer(Some(out.error))) else (s.(db := out.db), CallAnswer(None))
    case Expiry(_) => (s, NoAnswer)
  }

  function Answers(s: Service, rs: seq<Request>): seq<Answer>
    decreases |rs|
  {
    if rs == [] then [] else var (s', a) := Serve(s, rs[0]); [a] + Answers(s', rs[1..])
  }

  function PlainAnswers(s: Service, rs: seq<Request>): seq<Answer>
    decreases |rs|
  {
    if rs == [] then [] else var (s', a) := ServePlain(s, rs[0]); [a] + PlainAnswers(s', rs[1..])
  }

  // ---------- Transparency ----------

  function QueryOf(r: Request): Query
    requires r.SearchFlights?
  {
    Query(r.origin, r.destination, r.date)
  }

  predicate Asked(all: seq<Request>, q: Query) {
    exists i :: 0 <= i < |all| && all[i].SearchFlights? && QueryOf(all[i]) == q
  }

  /** No two different searches of the sequence share a cache key. */
  ghost predicate KeysDiffer(all: seq<Request>) {
    forall p, q :: Asked(all, p) && Asked(all, q) && KeyOf(p) == KeyOf(q) ==> p == q
  }

  predicate FlightFresh(s: Service, id: string) {
    var key := FlightKey(id);
    key in s.cache ==> s.cache[key].FlightEntry? && id in s.db.flights && s.cache[key].flight == s.db.flights[id]
  }

  predicate SearchFresh(s: Service, o: string, d: string, date: Date) {
    var key := SearchKey(o, d, date);
    key in s.cache ==> s.cache[key].SearchEntry? && s.cache[key].rows == Search(s.db.flights, s.ids, o, d, date)
  }

  /** Every cached flight, and every cached list of a search in the sequence, is what the database would answer now. */
  ghost predicate Fresh(s: Service, all: seq<Request>) {
    && (forall id :: FlightFresh(s, id))
    && (forall q :: Asked(all, q) ==> SearchFresh(s, q.origin, q.destination, q.date))
  }

  // A call that changes one flight's seats changes no search that does not list that flight.
  lemma {:induction false} OtherSearches(flights: map<string, Flight>, ids: seq<string>, id: string, f: Flight,
                                         o: string, d: string, date: Date)
    requires id in flights && f == flights[id].(availableSeats := f.availableSeats, updatedAt := f.updatedAt)
    requires !Matches(f, o, d, date) || id !in ids
    ensures Search(flights[id := f], ids, o, d, date) == Search(flights, ids, o, d, date)
  {
    if ids != [] {
      OtherSearches(flights, ids[..|ids| - 1], id, f, o, d, date);
    }
  }

  lemma CallTouchesOneFlight(db: Db, c: Call)
    requires Requested(db, c).Done?
    ensures var id := CalledRow(db, c); var db' := Requested(db, c).db;
      && id in db.flights && id in db'.flights
      && db'.flights == db.flights[id := db'.flights[id]]
      && db'.flights[id] == db.flights[id].(availableSeats := db'.flights[id].availableSeats, updatedAt := db'.flights[id].updatedAt)
  {
  }

  lemma CallMovesSeats(db: Db, c: Call)
    requires Valid(db) && Requested(db, c).Done?
    ensures var id := CalledRow(db, c);
      id in db.flights && id in Requested(db, c).db.flights
      && Requested(db, c).db.flights[id].availableSeats != db.flights[id].availableSeats
  {
  }

  lemma RowsWith(db: Db, id: string, f: Flight, reservations: map<string, Reservation>)
    requires Rows(db) && id in db.flights && forall b :: b in reservations ==> reservations[b].flightId in db.flights
    ensures Rows(Db(db.flights[id := f], reservations))
  {
  }

  lemma ReserveKeepsRows(db: Db, f: string, b: string, seats: int, now: int)
    requires Rows(db) && Reserve(db, f, b, seats, now).Done?
    ensures Rows(Reserve(db, f, b, seats, now).db)
  {
    var row := WithSeats(db.flights[f], db.flights[f].availableSeats - seats, now);
    RowsWith(db, f, row, db.reservations[b := Reservation(f, seats, Active)]);
  }

  lemma ReleaseKeepsRows(db: Db, b: string, now: int)
    requires Rows(db) && Release(db, b, now).Done?
    ensures Rows(Release(db, b, now).db)
  {
    var r := db.reservations[b];
    var row := WithSeats(db.flights[r.flightId], db.flights[r.flightId].availableSeats + r.seatCount, now);
    RowsWith(db, r.flightId, row, db.reservations[b := r.(status := Released)]);
  }

  lemma RunKeepsRows(db: Db, c: Call)
    requires Rows(db) && Run1(db, c).Done?
    ensures Rows(Run1(db, c).db)
  {
    match c
    case ReserveCall(f, b, seats, now) => ReserveKeepsRows(db, f, b, seats, now);
    case ReleaseCall(b, now) => ReleaseKeepsRows(db, b, now);
  }

  lemma CallKeepsRows(db: Db, c: Call)
    requires Rows(db) && Requested(db, c).Done?
    ensures Rows(Requested(db, c).db)
  {
    RequestedIsNamed(db, c);
    RunKeepsRows(db, Named(c));
  }

  lemma NamesItsRow(db: Db, c: Call)
    requires Rows(db) && Requested(db, c).Done?
    ensures Uuid(CalledFlight(db, c)) == Some(CalledRow(db, c))
  {
    CallTouchesOneFlight(db, c);
  }

  // The cache after the two deletions that follow a change.
  function CacheAfter(cache: map<string, Entry>, spelled: string, f: Flight, dropsFlight: bool, dropsSearch: bool): map<string, Entry> {
    Dropped(Dropped(cache, FlightKey(spelled), dropsFlight), KeyOf(RouteOf(f)), dropsSearch)
  }

  lemma InvalidatedCache(s: Service, spelled: string, dropsFlight: bool, dropsSearch: bool)
    requires Lookup(s.db.flights, spelled).Some?
    ensures var s' := Invalidated(s, spelled, dropsFlight, dropsSearch);
      s' == s.(cache := CacheAfter(s.cache, spelled, Lookup(s.db.flights, spelled).value, dropsFlight, dropsSearch))
  {
  }

  // The changed row is found under the service's spelling of its id.
  lemma ChangedRowIsFound(db: Db, c: Call)
    requires Rows(db) && Requested(db, c).Done?
    ensures var after, id := Requested(db, c).db.flights, CalledRow(db, c);
      id in after && Lookup(after, CalledFlight(db, c)) == Some(after[id])
  {
    CallTouchesOneFlight(db, c);
    NamesItsRow(db, c);
  }

  lemma ServesInvalidated(s: Service, r: Request)
    requires Rows(s.db) && r.Mutate? && Requested(s.db, r.call).Done?
    ensures var after, id := Requested(s.db, r.call).db, CalledRow(s.db, r.call);
      && id in after.flights
      && Serve(s, r).0 == s.(db := after,
           cache := CacheAfter(s.cache, CalledFlight(s.db, r.call), after.flights[id], r.dropsFlight, r.dropsSearch))
  {
    ChangedRowIsFound(s.db, r.call);
    InvalidatedCache(s.(db := Requested(s.db, r.call).db), CalledFlight(s.db, r.call), r.dropsFlight, r.dropsSearch);
  }

  lemma PlainChanges(s: Service, r: Request)
    requires r.Mutate? && Requested(s.db, r.call).Done?
    ensures ServePlain(s, r).0 == s.(db := Requested(s.db, r.call).db)
  {
  }

  /** A successful mutation: one flight's row is new, and the deletions have been made under the service's spelling. */
  lemma ServesChange(s: Service, r: Request) returns (id: string, f: Flight)
    requires Rows(s.db) && r.Mutate? && Requested(s.db, r.call).Done?
    ensures id == CalledRow(s.db, r.call) && id in s.db.flights
    ensures id in Requested(s.db, r.call).db.flights && f == Requested(s.db, r.call).db.flights[id]
    ensures f == s.db.flights[id].(availableSeats := f.availableSeats, updatedAt := f.updatedAt)
    ensures Serve(s, r).0.db.flights == s.db.flights[id := f] && Serve(s, r).0.ids == s.ids
    ensures ServePlain(s, r).0.db == Serve(s, r).0.db && ServePlain(s, r).0.ids == s.ids
    ensures Serve(s, r).0.cache == CacheAfter(s.cache, CalledFlight(s.db, r.call), f, r.dropsFlight, r.dropsSearch)
  {
    var db := Requested(s.db, r.call).db;
    id := CalledRow(s.db, r.call);
    CallTouchesOneFlight(s.db, r.call);
    ServesInvalidated(s, r);
    PlainChanges(s, r);
    f := db.flights[id];
    assert db.flights == s.db.flights[id := f];
  }

  // The row is not the old one: a call moves at least one seat.
  lemma ServesNewSeats(s: Service, r: Request) returns (id: string, f: Flight)
    requires Valid(s.db) && Rows(s.db) && r.Mutate? && Requested(s.db, r.call).Done?
    ensures id == CalledRow(s.db, r.call) && id in s.db.flights && f != s.db.flights[id]
    ensures f == s.db.flights[id].(availableSeats := f.availableSeats, updatedAt := f.updatedAt)
    ensures Serve(s, r).0.db.flights == s.db.flights[id := f] && Serve(s, r).0.ids == s.ids
    ensures ServePlain(s, r).0.db == Serve(s, r).0.db && ServePlain(s, r).0.ids == s.ids
  {
    id, f := ServesChange(s, r);
    CallMovesSeats(s.db, r.call);
  }

  function RouteOf(f: Flight): Query {
    Query(f.origin, f.destination, f.departureDate)
  }

  // ---------- Exactly when a mutation leaves a stale entry behind ----------

  /** The changed flight has no entry, or its entry is dropped: the deletion works, and spells the id as the row does. */
  predicate FlightCovered(s: Service, r: Request)
    requires r.Mutate?
  {
    FlightKey(CalledRow(s.db, r.call)) !in s.cache || (r.dropsFlight && CalledFlight(s.db, r.call) == CalledRow(s.db, r.call))
  }

  // A list somebody asks for, in some spelling of its codes, that is cached and holds the flight.
  predicate ListsFlight(s: Service, id: string, all: seq<Request>, q: Query) {
    && Asked(all, q) && KeyOf(q) in s.cache
    && id in s.ids && id in s.db.flights && Matches(s.db.flights[id], q.origin, q.destination, q.date)
  }

  /** Every cached list that holds the changed flight is dropped: the deletion works, and that list's key is the row's own. */
  ghost predicate SearchCovered(s: Service, r: Request, all: seq<Request>)
    requires r.Mutate?
  {
    var id := CalledRow(s.db, r.call);
    forall q :: ListsFlight(s, id, all, q) ==> r.dropsSearch && KeyOf(q) == KeyOf(RouteOf(s.db.flights[id]))
  }

  // What the deletions leave of one entry.
  lemma EntryAfter(cache: map<string, Entry>, spelled: string, f: Flight, d1: bool, d2: bool, x: string)
    ensures FlightKey(x) in CacheAfter(cache, spelled, f, d1, d2) <==> FlightKey(x) in cache && !(d1 && spelled == x)
    ensures FlightKey(x) in CacheAfter(cache, spelled, f, d1, d2) ==> CacheAfter(cache, spelled, f, d1, d2)[FlightKey(x)] == cache[FlightKey(x)]
  {
    KeysApart(x, f.origin, f.destination, f.departureDate);
    if FlightKey(spelled) == FlightKey(x) {
      FlightKeyInjective(spelled, x);
    }
  }

  lemma ListAfter(cache: map<string, Entry>, spelled: string, f: Flight, d1: bool, d2: bool, q: Query)
    ensures KeyOf(q) in CacheAfter(cache, spelled, f, d1, d2) <==> KeyOf(q) in cache && !(d2 && KeyOf(q) == KeyOf(RouteOf(f)))
    ensures KeyOf(q) in CacheAfter(cache, spelled, f, d1, d2) ==> CacheAfter(cache, spelled, f, d1, d2)[KeyOf(q)] == cache[KeyOf(q)]
  {
    KeysApart(spelled, q.origin, q.destination, q.date);
  }

  lemma FlightsStayFresh(s: Service, r: Request, x: string)
    requires Rows(s.db) && r.Mutate? && Requested(s.db, r.call).Done? && FlightFresh(s, x) && FlightCovered(s, r)
    ensures FlightFresh(Serve(s, r).0, x)
  {
    var id, f := ServesChange(s, r);
    EntryAfter(s.cache, CalledFlight(s.db, r.call), f, r.dropsFlight, r.dropsSearch, x);
  }

  lemma SearchesStayFresh(s: Service, r: Request, all: seq<Request>, q: Query)
    requires Rows(s.db) && r.Mutate? && Requested(s.db, r.call).Done? && SearchCovered(s, r, all)
    requires Asked(all, q) && SearchFresh(s, q.origin, q.destination, q.date)
    ensures SearchFresh(Serve(s, r).0, q.origin, q.destination, q.date)
  {
    var id, f := ServesChange(s, r);
    ListAfter(s.cache, CalledFlight(s.db, r.call), f, r.dropsFlight, r.dropsSearch, q);
    if !ListsFlight(s, id, all, q) && KeyOf(q) in s.cache {
      OtherSearches(s.db.flights, s.ids, id, f, q.origin, q.destination, q.date);
    }
  }

  lemma UncoveredEntryStays(s: Service, r: Request)
    requires Rows(s.db) && r.Mutate? && Requested(s.db, r.call).Done?
    requires FlightKey(CalledRow(s.db, r.call)) in s.cache && !FlightCovered(s, r)
    ensures var key := FlightKey(CalledRow(s.db, r.call));
      key in Serve(s, r).0.cache && Serve(s, r).0.cache[key] == s.cache[key]
  {
    var id, f := ServesChange(s, r);
    EntryAfter(s.cache, CalledFlight(s.db, r.call), f, r.dropsFlight, r.dropsSearch, id);
  }

  lemma UncoveredFlightIsStale(s: Service, r: Request)
    requires Valid(s.db) && Rows(s.db) && r.Mutate? && Requested(s.db, r.call).Done? && !FlightCovered(s, r)
    requires FlightFresh(s, CalledRow(s.db, r.call))
    ensures !FlightFresh(Serve(s, r).0, CalledRow(s.db, r.call))
  {
    var id, f := ServesNewSeats(s, r);
    UncoveredEntryStays(s, r);
  }

  // A changed flight makes every list that holds it another list.
  lemma ListChanges(flights: map<string, Flight>, ids: seq<string>, id: string, f: Flight, q: Query)
    requires id in flights && id in ids && f != flights[id] && Matches(flights[id], q.origin, q.destination, q.date)
    ensures var found := Search(flights, ids, q.origin, q.destination, q.date);
      found != [] && found != Search(flights[id := f], ids, q.origin, q.destination, q.date)
  {
    MatchesExactly(flights[id], q.origin, q.destination, q.date);
    SearchIsExact(flights, ids, q.origin, q.destination, q.date, Row(id, flights[id]));
    SearchIsExact(flights[id := f], ids, q.origin, q.destination, q.date, Row(id, flights[id]));
  }

  lemma UncoveredListStays(s: Service, r: Request, q: Query)
    requires Rows(s.db) && r.Mutate? && Requested(s.db, r.call).Done? && KeyOf(q) in s.cache
    requires CalledRow(s.db, r.call) in s.db.flights
    requires !(r.dropsSearch && KeyOf(q) == KeyOf(RouteOf(s.db.flights[CalledRow(s.db, r.call)])))
    ensures KeyOf(q) in Serve(s, r).0.cache && Serve(s, r).0.cache[KeyOf(q)] == s.cache[KeyOf(q)]
  {
    var id, f := ServesChange(s, r);
    ListAfter(s.cache, CalledFlight(s.db, r.call), f, r.dropsFlight, r.dropsSearch, q);
  }

  lemma UncoveredSearchIsStale(s: Service, r: Request, all: seq<Request>, q: Query)
    requires Valid(s.db) && Rows(s.db) && r.Mutate? && Requested(s.db, r.call).Done?
    requires ListsFlight(s, CalledRow(s.db, r.call), all, q) && SearchFresh(s, q.origin, q.destination, q.date)
    requires !(r.dropsSearch && KeyOf(q) == KeyOf(RouteOf(s.db.flights[CalledRow(s.db, r.call)])))
    ensures !SearchFresh(Serve(s, r).0, q.origin, q.destination, q.date)
  {
    var id, f := ServesNewSeats(s, r);
    UncoveredListStays(s, r, q);
    ListChanges(s.db.flights, s.ids, id, f, q);
  }

  /**
   * A successful mutation leaves every entry fresh if and only if its flight's own entry, and every list asked for
   * that holds it, are covered.
   */
  lemma MutateKeepsFreshExactly(s: Service, r: Request, all: seq<Request>)
    requires Valid(s.db) && Rows(s.db) && r.Mutate? && Requested(s.db, r.call).Done? && Fresh(s, all)
    ensures Fresh(Serve(s, r).0, all) <==> FlightCovered(s, r) && SearchCovered(s, r, all)
  {
    if FlightCovered(s, r) && SearchCovered(s, r, all) {
      CoveredKeepsFresh(s, r, all);
    } else if !FlightCovered(s, r) {
      assert FlightFresh(s, CalledRow(s.db, r.call));
      UncoveredFlightIsStale(s, r);
    } else {
      var id := CalledRow(s.db, r.call);
      var q :| ListsFlight(s, id, all, q) && !(r.dropsSearch && KeyOf(q) == KeyOf(RouteOf(s.db.flights[id])));
      UncoveredSearchIsStale(s, r, all, q);
    }
  }

  lemma CoveredKeepsFresh(s: Service, r: Request, all: seq<Request>)
    requires Rows(s.db) && r.Mutate? && Fresh(s, all) && (Requested(s.db, r.call).Done? ==> FlightCovered(s, r) && SearchCovered(s, r, all))
    ensures Fresh(Serve(s, r).0, all)
  {
    if Requested(s.db, r.call).Done? {
      forall x ensures FlightFresh(Serve(s, r).0, x) {
        assert FlightFresh(s, x);
        FlightsStayFresh(s, r, x);
      }
      forall q | Asked(all, q) ensures SearchFresh(Serve(s, r).0, q.origin, q.destination, q.date) {
        SearchesStayFresh(s, r, all, q);
      }
    }
  }

  lemma GetKeepsFresh(s: Service, r: Request, all: seq<Request>)
    requires Fresh(s, all) && r.GetFlight?
    ensures Fresh(Serve(s, r).0, all)
  {
    var s' := Serve(s, r).0;
    forall x ensures FlightFresh(s', x) {
      assert FlightFresh(s, x);
      if Uuid(r.id).Some? && FlightKey(x) == FlightKey(Uuid(r.id).value) {
        FlightKeyInjective(x, Uuid(r.id).value);
      }
    }
    forall q | Asked(all, q) ensures SearchFresh(s', q.origin, q.destination, q.date) {
      assert SearchFresh(s, q.origin, q.destination, q.date);
      KeysApart(Uuid(r.id).GetOr(""), q.origin, q.destination, q.date);
    }
  }

  lemma SearchKeepsFresh(s: Service, r: Request, all: seq<Request>)
    requires Fresh(s, all) && r.SearchFlights? && KeysDiffer(all) && Asked(all, QueryOf(r))
    ensures Fresh(Serve(s, r).0, all)
  {
    var s' := Serve(s, r).0;
    forall x ensures FlightFresh(s', x) {
      assert FlightFresh(s, x);
      KeysApart(x, r.origin, r.destination, r.date);
    }
    forall q | Asked(all, q) ensures SearchFresh(s', q.origin, q.destination, q.date) {
      assert SearchFresh(s, q.origin, q.destination, q.date);
      assert KeyOf(q) == KeyOf(QueryOf(r)) ==> q == QueryOf(r);
    }
  }

  lemma ExpiryKeepsFresh(s: Service, r: Request, all: seq<Request>)
    requires Fresh(s, all) && r.Expiry?
    ensures Fresh(Serve(s, r).0, all)
  {
    var s' := Serve(s, r).0;
    forall x ensures FlightFresh(s', x) {
      assert FlightFresh(s, x);
    }
    forall q | Asked(all, q) ensures SearchFresh(s', q.origin, q.destination, q.date) {
      assert SearchFresh(s, q.origin, q.destination, q.date);
    }
  }

  // A mutation that succeeds drops, or need not drop, what it made stale.
  ghost predicate Covered(s: Service, r: Request, all: seq<Request>) {
    r.Mutate? && Requested(s.db, r.call).Done? ==> FlightCovered(s, r) && SearchCovered(s, r, all)
  }

  lemma ServeKeepsFresh(s: Service, r: Request, all: seq<Request>)
    requires Rows(s.db) && Fresh(s, all) && KeysDiffer(all) && Covered(s, r, all) && (r.SearchFlights? ==> Asked(all, QueryOf(r)))
    ensures Fresh(Serve(s, r).0, all) && Rows(Serve(s, r).0.db)
  {
    if r.Mutate? && Requested(s.db, r.call).Done? {
      CallKeepsRows(s.db, r.call);
    }
    match r
    case GetFlight(_, _, _) => GetKeepsFresh(s, r, all);
    case SearchFlights(_, _, _, _, _) => SearchKeepsFresh(s, r, all);
    case Mutate(_, _, _) => CoveredKeepsFresh(s, r, all);
    case Expiry(_) => ExpiryKeepsFresh(s, r, all);
  }

  lemma FreshAnswers(s: Service, r: Request, all: seq<Request>)
    requires Rows(s.db) && Fresh(s, all) && (r.SearchFlights? ==> Asked(all, QueryOf(r)))
    ensures Serve(s, r).1 == ServePlain(s, r).1
    ensures Serve(s, r).0.db == ServePlain(s, r).0.db && Serve(s, r).0.ids == s.ids
  {
    if r.GetFlight? {
      assert FlightFresh(s, r.id);
    } else if r.SearchFlights? {
      var q := QueryOf(r);
      assert SearchFresh(s, q.origin, q.destination, q.date);
    }
  }

  // The cacheless service ignores whatever the cache holds.
  lemma {:induction false} PlainIgnoresCache(s: Service, t: Service, rs: seq<Request>)
    requires s.db == t.db && s.ids == t.ids
    ensures PlainAnswers(s, rs) == PlainAnswers(t, rs)
    decreases |rs|
  {
    if rs != [] {
      PlainIgnoresCache(ServePlain(s, rs[0]).0, ServePlain(t, rs[0]).0, rs[1..]);
    }
  }

  /** Along the sequence, every mutation is covered when its turn comes. */
  ghost predicate AllCovered(s: Service, rs: seq<Request>, all: seq<Request>)
    decreases |rs|
  {
    rs == [] || (Covered(s, rs[0], all) && AllCovered(Serve(s, rs[0]).0, rs[1..], all))
  }

  lemma {:induction false} TransparentFrom(s: Service, rs: seq<Request>, all: seq<Request>)
    requires Rows(s.db) && Fresh(s, all) && KeysDiffer(all) && AllCovered(s, rs, all)
    requires forall i :: 0 <= i < |rs| && rs[i].SearchFlights? ==> Asked(all, QueryOf(rs[i]))
    ensures Answers(s, rs) == PlainAnswers(s, rs)
    decreases |rs|
  {
    if rs != [] {
      var s' := Serve(s, rs[0]).0;
      FreshAnswers(s, rs[0], all);
      ServeKeepsFresh(s, rs[0], all);
      TransparentFrom(s', rs[1..], all);
      PlainIgnoresCache(s', ServePlain(s, rs[0]).0, rs[1..]);
    }
  }

  lemma EmptyCacheIsFresh(db: Db, ids: seq<string>, all: seq<Request>)
    ensures Fresh(Service(db, ids, map[]), all)
  {
  }

  /**
   * Cache transparency: from an empty cache, for any sequence of reads, searches, reservations and releases that
   * do not overlap, in which no two different searches share a key, with entries expiring, cache reads and writes
   * failing at any time, and every mutation covered: every answer is the one the service without a cache gives.
   */
  lemma CacheTransparency(db: Db, ids: seq<string>, rs: seq<Request>)
    requires Rows(db) && KeysDiffer(rs) && AllCovered(Service(db, ids, map[]), rs, rs)
    ensures Answers(Service(db, ids, map[]), rs) == PlainAnswers(Service(db, ids, map[]), rs)
  {
    EmptyCacheIsFresh(db, ids, rs);
    TransparentFrom(Service(db, ids, map[]), rs, rs);
  }

  predicate FixedCodes(flights: map<string, Flight>) {
    forall id :: id in flights ==> |flights[id].origin| == |flights[id].destination| == CODE_LENGTH
  }

  predicate FixedSearches(all: seq<Request>) {
    forall i :: 0 <= i < |all| && all[i].SearchFlights? ==> |all[i].origin| == |all[i].destination| == CODE_LENGTH
  }

  // Deletions work, and reservations spell their flight's id as the database prints it.
  predicate WellSpelled(r: Request) {
    r.Mutate? ==> r.dropsFlight && r.dropsSearch && (r.call.ReserveCall? ==> Uuid(r.call.flightId) == Some(r.call.flightId))
  }

  lemma FixedMatchIsRoute(f: Flight, q: Query)
    requires |f.origin| == |f.destination| == |q.origin| == |q.destination| && Matches(f, q.origin, q.destination, q.date)
    ensures q == RouteOf(f)
  {
    SameLengthSameCode(f.origin, q.origin);
    SameLengthSameCode(f.destination, q.destination);
  }

  lemma AskedIsFixed(all: seq<Request>, q: Query)
    requires FixedSearches(all) && Asked(all, q)
    ensures |q.origin| == |q.destination| == CODE_LENGTH
  {
  }

  lemma WellSpelledIsCovered(s: Service, r: Request, all: seq<Request>)
    requires Rows(s.db) && FixedCodes(s.db.flights) && FixedSearches(all) && WellSpelled(r)
    ensures Covered(s, r, all)
  {
    if r.Mutate? && Requested(s.db, r.call).Done? {
      var id, f := ServesChange(s, r);
      forall q | ListsFlight(s, id, all, q) ensures KeyOf(q) == KeyOf(RouteOf(s.db.flights[id])) {
        AskedIsFixed(all, q);
        FixedMatchIsRoute(s.db.flights[id], q);
      }
    }
  }

  lemma ServeKeepsTheRows(s: Service, r: Request)
    requires Rows(s.db)
    ensures Rows(Serve(s, r).0.db) && Serve(s, r).0.db.flights.Keys == s.db.flights.Keys
  {
    if r.Mutate? && Requested(s.db, r.call).Done? {
      ServesInvalidated(s, r);
      CallKeepsRows(s.db, r.call);
      CallTouchesOneFlight(s.db, r.call);
    }
  }

  lemma FixedWith(flights: map<string, Flight>, id: string, f: Flight)
    requires FixedCodes(flights) && id in flights && f.origin == flights[id].origin && f.destination == flights[id].destination
    ensures FixedCodes(flights[id := f])
  {
  }

  lemma ServeKeepsRows(s: Service, r: Request)
    requires Rows(s.db) && FixedCodes(s.db.flights)
    ensures Rows(Serve(s, r).0.db) && FixedCodes(Serve(s, r).0.db.flights)
  {
    ServeKeepsTheRows(s, r);
    if r.Mutate? && Requested(s.db, r.call).Done? {
      var id, f := ServesChange(s, r);
      FixedWith(s.db.flights, id, f);
    }
  }

  /** Working deletions cover every mutation when ids are spelled as printed and codes have the schema's length. */
  lemma {:induction false} WorkingDropsCover(s: Service, rs: seq<Request>, all: seq<Request>)
    requires Rows(s.db) && FixedCodes(s.db.flights) && FixedSearches(all) && forall i :: 0 <= i < |rs| ==> WellSpelled(rs[i])
    ensures AllCovered(s, rs, all)
    decreases |rs|
  {
    if rs != [] {
      WellSpelledIsCovered(s, rs[0], all);
      ServeKeepsRows(s, rs[0]);
      WorkingDropsCover(Serve(s, rs[0]).0, rs[1..], all);
    }
  }

  /** With colon-free codes of any lengths, or with codes of the schema's length, no two searches share a key. */
  lemma CodesDiffer(rs: seq<Request>)
    requires (forall i :: 0 <= i < |rs| && rs[i].SearchFlights? ==> !HasColon(rs[i].origin) && !HasColon(rs[i].destination))
          || (forall i :: 0 <= i < |rs| && rs[i].SearchFlights? ==> |rs[i].origin| == |rs[i].destination| == CODE_LENGTH)
    ensures KeysDiffer(rs)
  {
    forall p, q | Asked(rs, p) && Asked(rs, q) && KeyOf(p) == KeyOf(q) ensures p == q {
      if !HasColon(p.origin) && !HasColon(p.destination) {
        EqualKeysEqualParts(p, q);
        OneColonOneRoute(p.origin, p.destination, q.origin, q.destination);
      } else {
        SearchKeyInjective(p.origin, p.destination, p.date, q.origin, q.destination, q.date);
      }
    }
  }

  /** A stored list is what a reading search answers if and only if it is not empty or nothing has turned up since. */
  lemma StoredListExactly(s: Service, q: Query, store: bool)
    requires KeyOf(q) in s.cache && s.cache[KeyOf(q)].SearchEntry?
    ensures var rows := s.cache[KeyOf(q)].rows;
      Serve(s, SearchFlights(q.origin, q.destination, q.date, true, store)).1 == SearchAnswer(rows)
      <==> rows != [] || Search(s.db.flights, s.ids, q.origin, q.destination, q.date) == []
  {
  }

  // ---------- Where transparency fails ----------

  lemma OneMoreAnswer(s: Service, r: Request, rest: seq<Request>)
    ensures Answers(s, [r] + rest) == [Serve(s, r).1] + Answers(Serve(s, r).0, rest)
    ensures PlainAnswers(s, [r] + rest) == [ServePlain(s, r).1] + PlainAnswers(ServePlain(s, r).0, rest)
  {
    assert ([r] + rest)[1..] == rest;
  }

  lemma TwoAnswers(s: Service, a: Request, b: Request)
    ensures Answers(s, [a, b]) == [Serve(s, a).1] + [Serve(Serve(s, a).0, b).1]
    ensures PlainAnswers(s, [a, b]) == [ServePlain(s, a).1] + [ServePlain(ServePlain(s, a).0, b).1]
  {
    OneMoreAnswer(s, a, [b]);
    OneMoreAnswer(Serve(s, a).0, b, []);
    OneMoreAnswer(ServePlain(s, a).0, b, []);
    assert [a] + [b] == [a, b] && [b] + [] == [b];
  }

  /**
   * Two searches that share a key, one after the other with the cache working: the second is answered as without
   * a cache if and only if the first finds nothing, or both find the same.
   */
  lemma SharedKeyExactly(db: Db, ids: seq<string>, p: Query, q: Query)
    requires KeyOf(p) == KeyOf(q)
    ensures var s := Service(db, ids, map[]);
      var rs := [SearchFlights(p.origin, p.destination, p.date, true, true), SearchFlights(q.origin, q.destination, q.date, true, true)];
      var first, second := Search(db.flights, ids, p.origin, p.destination, p.date), Search(db.flights, ids, q.origin, q.destination, q.date);
      Answers(s, rs) == PlainAnswers(s, rs) <==> first == [] || first == second
  {
    var s := Service(db, ids, map[]);
    var a, b := SearchFlights(p.origin, p.destination, p.date, true, true), SearchFlights(q.origin, q.destination, q.date, true, true);
    var first := Search(db.flights, ids, p.origin, p.destination, p.date);
    var second := Search(db.flights, ids, q.origin, q.destination, q.date);
    TwoAnswers(s, a, b);
    assert Serve(s, a) == (s.(cache := map[KeyOf(p) := SearchEntry(first)]), SearchAnswer(first));
    assert Serve(Serve(s, a).0, b).1 == SearchAnswer(if first == [] then second else first);
    assert Answers(s, [a, b])[1] == SearchAnswer(if first == [] then second else first);
    assert PlainAnswers(s, [a, b])[1] == SearchAnswer(second);
  }

  /** So a flight with a colon in its code answers a search that matches nothing. */
  lemma ColonCodesBreakTransparency(db: Db, id: string, date: Date)
    requires id in db.flights && Matches(db.flights[id], "A:B", "CDE", date)
    ensures var rs := [SearchFlights("A:B", "CDE", date, true, true), SearchFlights("A", "B:CDE", date, true, true)];
      Answers(Service(db, [id], map[]), rs) != PlainAnswers(Service(db, [id], map[]), rs)
  {
    var p, q := Query("A:B", "CDE", date), Query("A", "B:CDE", date);
    assert Route("A:B", "CDE") == Route("A", "B:CDE");
    KeyParts("A:B", "CDE", date);
    KeyParts("A", "B:CDE", date);
    OneFlightSearch(db.flights, id, "A:B", "CDE", date);
    OneFlightSearch(db.flights, id, "A", "B:CDE", date);
    assert Trimmed("A:B") == "A:B" && Trimmed("A") == "A";
    SharedKeyExactly(db, [id], p, q);
  }

  lemma DiffersNow(s: Service, p: Service, r: Request)
    requires Serve(s, r).1 != ServePlain(p, r).1
    ensures Answers(s, [r]) != PlainAnswers(p, [r])
  {
    OneMoreAnswer(s, r, []);
    OneMoreAnswer(p, r, []);
    assert [r] + [] == [r];
    assert Answers(s, [r])[0] != PlainAnswers(p, [r])[0];
  }

  lemma DiffersLater(s: Service, p: Service, r: Request, rest: seq<Request>)
    requires Answers(Serve(s, r).0, rest) != PlainAnswers(ServePlain(p, r).0, rest)
    ensures Answers(s, [r] + rest) != PlainAnswers(p, [r] + rest)
  {
    OneMoreAnswer(s, r, rest);
    OneMoreAnswer(p, r, rest);
    assert Answers(s, [r] + rest)[1..] == Answers(Serve(s, r).0, rest);
    assert PlainAnswers(p, [r] + rest)[1..] == PlainAnswers(ServePlain(p, r).0, rest);
  }

  // The same read before and after a change.
  lemma ThirdDiffers(s: Service, read: Request, change: Request, s1: Service, s2: Service, p1: Service, p2: Service)
    requires Serve(s, read).0 == s1 && Serve(s1, change).0 == s2 && ServePlain(s, read).0 == p1 && ServePlain(p1, change).0 == p2
    requires Serve(s2, read).1 != ServePlain(p2, read).1
    ensures Answers(s, [read] + [change] + [read]) != PlainAnswers(s, [read] + [change] + [read])
  {
    DiffersNow(s2, p2, read);
    DiffersLater(s1, p1, change, [read]);
    DiffersLater(s, s, read, [change] + [read]);
    assert [read] + [change] + [read] == [read] + ([change] + [read]);
  }

  lemma GetReads(s: Service, id: string)
    requires Uuid(id) == Some(id) && id in s.db.flights
    ensures var get := GetFlight(id, true, true);
      && ServePlain(s, get) == (s, FlightAnswer(Some(s.db.flights[id])))
      && (FlightKey(id) !in s.cache ==>
            Serve(s, get) == (s.(cache := s.cache[FlightKey(id) := FlightEntry(s.db.flights[id])]), FlightAnswer(Some(s.db.flights[id]))))
      && (FlightKey(id) in s.cache && s.cache[FlightKey(id)].FlightEntry? ==>
            Serve(s, get).1 == FlightAnswer(Some(s.cache[FlightKey(id)].flight)))
  {
  }

  // Read again after the change: what is cached, and what the database holds.
  lemma CachedReadAgain(s: Service, r: Request, id: string, stored: Flight)
    requires Rows(s.db) && r.Mutate? && Requested(s.db, r.call).Done? && id == CalledRow(s.db, r.call)
    requires s.cache == map[FlightKey(id) := FlightEntry(stored)] && !FlightCovered(s, r)
    ensures Serve(Serve(s, r).0, GetFlight(id, true, true)).1 == FlightAnswer(Some(stored))
  {
    UncoveredEntryStays(s, r);
  }

  lemma PlainReadAgain(s: Service, r: Request, id: string)
    requires Valid(s.db) && Rows(s.db) && r.Mutate? && Requested(s.db, r.call).Done? && id == CalledRow(s.db, r.call)
    ensures id in s.db.flights
    ensures ServePlain(ServePlain(s, r).0, GetFlight(id, true, true)).1 != FlightAnswer(Some(s.db.flights[id]))
  {
    var row, f := ServesNewSeats(s, r);
  }

  // A flight read, changed while its entry is not covered, and read again.
  lemma UncoveredReadIsStale(db: Db, ids: seq<string>, r: Request)
    requires Valid(db) && Rows(db) && r.Mutate? && Requested(db, r.call).Done?
    requires !(r.dropsFlight && CalledFlight(db, r.call) == CalledRow(db, r.call))
    ensures var get := GetFlight(CalledRow(db, r.call), true, true); var s := Service(db, ids, map[]);
      Answers(s, [get] + [r] + [get]) != PlainAnswers(s, [get] + [r] + [get])
  {
    var s, id := Service(db, ids, map[]), CalledRow(db, r.call);
    var get := GetFlight(id, true, true);
    PlainReadAgain(s, r, id);
    GetReads(s, id);
    var s1 := Serve(s, get).0;
    CachedReadAgain(s1, r, id, db.flights[id]);
    ThirdDiffers(s, get, r, s1, Serve(s1, r).0, s, ServePlain(s, r).0);
  }

  /** A flight that was read, then changed with its deletion failing, is read stale. */
  lemma FailedDropServesStale(db: Db, ids: seq<string>, c: Call)
    requires Valid(db) && Rows(db) && Requested(db, c).Done?
    ensures var s := Service(db, ids, map[]); var get := GetFlight(CalledRow(db, c), true, true);
      Answers(s, [get] + [Mutate(c, false, true)] + [get]) != PlainAnswers(s, [get] + [Mutate(c, false, true)] + [get])
  {
    UncoveredReadIsStale(db, ids, Mutate(c, false, true));
  }

  /**
   * With every deletion working, a flight that was read and then reserved under another spelling of its id, in
   * capitals or in braces, is read stale: the entry is stored under the row's id and deleted under the caller's.
   */
  lemma OtherSpellingServesStale(db: Db, ids: seq<string>, spelled: string, b: string, seats: int, now: int)
    requires Valid(db) && Rows(db) && Requested(db, ReserveCall(spelled, b, seats, now)).Done?
    requires Uuid(spelled) != Some(spelled)
    ensures var c := ReserveCall(spelled, b, seats, now);
      var s := Service(db, ids, map[]); var get := GetFlight(CalledRow(db, c), true, true);
      Answers(s, [get] + [Mutate(c, true, true)] + [get]) != PlainAnswers(s, [get] + [Mutate(c, true, true)] + [get])
  {
    UncoveredReadIsStale(db, ids, Mutate(ReserveCall(spelled, b, seats, now), true, true));
  }

  lemma SameRowSameOutcome(db: Db, id: string, other: string, b: string, seats: int, now: int)
    requires Uuid(id) == Uuid(other)
    ensures Requested(db, ReserveCall(id, b, seats, now)) == Requested(db, ReserveCall(other, b, seats, now))
  {
  }

  /** And every reservation can be spelled so. */
  lemma EveryFlightHasAnotherSpelling(db: Db, id: string, b: string, seats: int, now: int)
    requires Uuid(id) == Some(id)
    ensures var spelled := "{" + id + "}";
      Uuid(spelled) != Some(spelled) && Requested(db, ReserveCall(spelled, b, seats, now)) == Requested(db, ReserveCall(id, b, seats, now))
  {
    BracesSpellTheSame(id);
    SameRowSameOutcome(db, "{" + id + "}", id, b, seats, now);
  }

  lemma {:induction false} BlankIsTrimmed(code: string)
    ensures Trimmed(code + " ") == Trimmed(code) && |(code + " ")| == |code| + 1
  {
    assert (code + " ")[..|code|] == code;
  }

  lemma LongerCodeOtherKey(f: Flight, q: Query)
    requires q.origin == f.origin + " " && q.destination == f.destination && q.date == f.departureDate
    ensures KeyOf(q) != KeyOf(RouteOf(f))
  {
    KeyParts(q.origin, q.destination, q.date);
    KeyParts(f.origin, f.destination, f.departureDate);
    assert |KeyOf(q)| == |KeyOf(RouteOf(f))| + 1;
  }

  lemma SearchReads(s: Service, q: Query)
    ensures var search := SearchFlights(q.origin, q.destination, q.date, true, true);
      var found := Search(s.db.flights, s.ids, q.origin, q.destination, q.date);
      && ServePlain(s, search) == (s, SearchAnswer(found))
      && (KeyOf(q) !in s.cache ==> Serve(s, search) == (s.(cache := s.cache[KeyOf(q) := SearchEntry(found)]), SearchAnswer(found)))
      && (KeyOf(q) in s.cache && s.cache[KeyOf(q)].SearchEntry? && s.cache[KeyOf(q)].rows != [] ==>
            Serve(s, search).1 == SearchAnswer(s.cache[KeyOf(q)].rows))
  {
  }

  // Searched again after the change: what is cached, and what the database holds.
  lemma CachedListAgain(s: Service, r: Request, q: Query, stored: seq<Row>)
    requires Rows(s.db) && r.Mutate? && Requested(s.db, r.call).Done?
    requires s.cache == map[KeyOf(q) := SearchEntry(stored)] && stored != []
    requires CalledRow(s.db, r.call) in s.db.flights && KeyOf(q) != KeyOf(RouteOf(s.db.flights[CalledRow(s.db, r.call)]))
    ensures Serve(Serve(s, r).0, SearchFlights(q.origin, q.destination, q.date, true, true)).1 == SearchAnswer(stored)
  {
    UncoveredListStays(s, r, q);
    SearchReads(Serve(s, r).0, q);
  }

  lemma PlainListAgain(s: Service, r: Request, q: Query)
    requires Valid(s.db) && Rows(s.db) && r.Mutate? && Requested(s.db, r.call).Done?
    requires var id := CalledRow(s.db, r.call);
      id in s.ids && id in s.db.flights && Matches(s.db.flights[id], q.origin, q.destination, q.date)
    ensures var found := Search(s.db.flights, s.ids, q.origin, q.destination, q.date);
      && found != []
      && ServePlain(ServePlain(s, r).0, SearchFlights(q.origin, q.destination, q.date, true, true)).1 != SearchAnswer(found)
  {
    var id, f := ServesNewSeats(s, r);
    ListChanges(s.db.flights, s.ids, id, f, q);
    SearchReads(ServePlain(s, r).0, q);
  }

  // A search that lists a flight under another key than the row's own, repeated after the flight has changed.
  lemma OtherKeyServesStale(db: Db, ids: seq<string>, r: Request, q: Query)
    requires Valid(db) && Rows(db) && r.Mutate? && Requested(db, r.call).Done?
    requires var id := CalledRow(db, r.call);
      id in ids && id in db.flights && Matches(db.flights[id], q.origin, q.destination, q.date) && KeyOf(q) != KeyOf(RouteOf(db.flights[id]))
    ensures var s := Service(db, ids, map[]); var search := SearchFlights(q.origin, q.destination, q.date, true, true);
      Answers(s, [search] + [r] + [search]) != PlainAnswers(s, [search] + [r] + [search])
  {
    var s := Service(db, ids, map[]);
    var search := SearchFlights(q.origin, q.destination, q.date, true, true);
    var found := Search(db.flights, ids, q.origin, q.destination, q.date);
    PlainListAgain(s, r, q);
    SearchReads(s, q);
    var s1 := Serve(s, search).0;
    CachedListAgain(s1, r, q, found);
    ThirdDiffers(s, search, r, s1, Serve(s1, r).0, s, ServePlain(s, r).0);
  }

  /**
   * With every deletion working, a search whose code ends in a blank finds the flight all the same, under a key of
   * its own that no change of the flight deletes: repeated after the change, it lists the old seats.
   */
  lemma BlankCodeServesStale(db: Db, ids: seq<string>, c: Call)
    requires Valid(db) && Rows(db) && Requested(db, c).Done?
    requires CalledRow(db, c) in ids && CalledRow(db, c) in db.flights && db.flights[CalledRow(db, c)].status == Scheduled
    ensures var s, f := Service(db, ids, map[]), db.flights[CalledRow(db, c)];
      var search := SearchFlights(f.origin + " ", f.destination, f.departureDate, true, true);
      Answers(s, [search] + [Mutate(c, true, true)] + [search]) != PlainAnswers(s, [search] + [Mutate(c, true, true)] + [search])
  {
    var f := db.flights[CalledRow(db, c)];
    var q := Query(f.origin + " ", f.destination, f.departureDate);
    BlankIsTrimmed(f.origin);
    LongerCodeOtherKey(f, q);
    OtherKeyServesStale(db, ids, Mutate(c, true, true), q);
  }

  lemma OneFlightSearch(flights: map<string, Flight>, id: string, o: string, d: string, date: Date)
    requires id in flights
    ensures Search(flights, [id], o, d, date) == if Matches(flights[id], o, d, date) then [Row(id, flights[id])] else []
  {
    assert [id][..0] == [];
  }
}
