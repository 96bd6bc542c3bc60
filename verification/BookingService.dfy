/** The booking service's objects: its repository, and the two sagas run from start to end by one caller. */
module BookingServices {
  import opened MapSums
  import opened Seats
  import opened Saga
  import opened SeatAnswers
  import FlightCache
  import opened FlightServices
  import opened Uuids

  datatype Failure =
    | Missing(field: string) | SeatCountNotPositive | FlightUnknown | ReserveFailed | CreateFailed | CreatedButNotFetched
    | BookingUnknown | AlreadyCancelled | ReleaseFailed | UpdateFailed

  datatype Result = Ok(id: string, booking: Booking) | Err(failure: Failure)

  /** The first check a request fails, in the order the service makes them. */
  function FirstFault(request: Request): Option<Failure> {
    if request.userId == "" then Some(Missing("user_id"))
    else if request.passengerName == "" then Some(Missing("passenger_name"))
    else if request.passengerEmail == "" then Some(Missing("passenger_email"))
    else if request.flightId == "" then Some(Missing("flight_id"))
    else if request.seatCount <= 0 then Some(SeatCountNotPositive)
    else None
  }

  /** Each check fails if and only if its field is missing, or not positive, and the ones before it are in order. */
  lemma FirstFaultExactly(r: Request)
    ensures var named := r.userId != "" && r.passengerName != ""; var complete := named && r.passengerEmail != "" && r.flightId != "";
      && (FirstFault(r) == Some(Missing("user_id")) <==> r.userId == "")
      && (FirstFault(r) == Some(Missing("passenger_name")) <==> r.userId != "" && r.passengerName == "")
      && (FirstFault(r) == Some(Missing("passenger_email")) <==> named && r.passengerEmail == "")
      && (FirstFault(r) == Some(Missing("flight_id")) <==> named && r.passengerEmail != "" && r.flightId == "")
      && (FirstFault(r) == Some(SeatCountNotPositive) <==> complete && r.seatCount <= 0)
      && (FirstFault(r).None? <==> complete && r.seatCount > 0)
  {
    assert |"user_id"| == 7 && |"passenger_name"| == 14 && |"passenger_email"| == 15 && |"flight_id"| == 9;
  }

  /** The row a text names, in whatever spelling. */
  function Named(bookings: map<string, Booking>, id: string): Option<Booking> {
    if Uuid(id).Some? then Find(bookings, Uuid(id).value) else None
  }

  /** A request as the bookings table keeps it: the flight's id is a UUID there. */
  function Kept(request: Request): Request {
    request.(flightId := Uuid(request.flightId).GetOr(request.flightId))
  }

  class BookingRepository {
    var bookings: map<string, Booking>

    constructor ()
      ensures bookings == map[]
    {
      bookings := map[];
    }

    // The id is a new one, as its generator prints it; the flight's id is the request's text.
    method Create(id: string, booking: Booking, reply: Reply) returns (ok: bool)
      modifies this
      ensures var kept := booking.(request := Kept(booking.request));
        var fits := !reply.NotExecuted? && Uuid(booking.request.flightId).Some?
          && CanInsert(old(bookings), id, kept.request, kept.totalPrice);
        && bookings == (if fits then old(bookings)[id := kept] else old(bookings))
        && ok == (fits && reply.Answered?)
    {
      ok := false;
      var flightId := Uuid(booking.request.flightId);
      if reply.NotExecuted? || flightId.None? || id in bookings || booking.request.seatCount <= 0 || booking.totalPrice <= 0 {
        return;
      }
      bookings := bookings[id := booking.(request := booking.request.(flightId := flightId.value))];
      ok := reply.Answered?;
    }

    method GetById(id: string, reply: Reply) returns (rowId: string, found: Option<Booking>)
      ensures found == if reply.Answered? then Named(bookings, id) else None
      ensures found.Some? ==> Uuid(id) == Some(rowId)
    {
      rowId, found := "", None;
      var read := Uuid(id);
      if reply.Answered? && read.Some? && read.value in bookings {
        rowId, found := read.value, Some(bookings[read.value]);
      }
    }

    // Updating and reading back count as one call.
    method UpdateStatus(id: string, status: BookingStatus, reply: Reply) returns (rowId: string, found: Option<Booking>)
      modifies this
      ensures var b := Named(old(bookings), id);
        bookings == if !reply.NotExecuted? && b.Some? then old(bookings)[Uuid(id).value := b.value.(status := status)] else old(bookings)
      ensures found == if reply.Answered? then Named(bookings, id) else None
      ensures found.Some? ==> Uuid(id) == Some(rowId)
    {
      rowId, found := "", None;
      if reply.NotExecuted? {
        return;
      }
      var read := Uuid(id);
      if read.Some? && read.value in bookings {
        bookings := bookings[read.value := bookings[read.value].(status := status)];
      }
      rowId, found := GetById(id, reply);
    }
  }

  // ---------- One saga on its own ----------

  function ReservedAlone(w: World, id: string, request: Request, reserve: Reply, now: int): World {
    Next(Next(w, StartCreate(id, request)), CreateCall(id, reserve, now))
  }

  function WrittenAlone(w: World, id: string, insert: Reply, compensate: Reply, now: int): World {
    Next(Next(w, CreateCall(id, insert, now)), CreateCall(id, compensate, now))
  }

  /** A create run from start to end, with nobody else moving; calls after its end do nothing. */
  function CreateAlone(w: World, id: string, request: Request, reserve: Reply, insert: Reply, compensate: Reply, now: int): World {
    WrittenAlone(ReservedAlone(w, id, request, reserve, now), id, insert, compensate, now)
  }

  function StageOf(w: World, id: string): CreateStage {
    if id in w.creates then w.creates[id].stage else Undone
  }

  lemma ReservedIs(w: World, id: string, request: Request, reserve: Reply, now: int)
    requires id !in w.creates
    ensures var w' := ReservedAlone(w, id, request, reserve, now); var out := Reserve(w.db, request.flightId, id, request.seatCount, now);
      && w'.bookings == w.bookings && w'.cancels == w.cancels && id in w'.creates && w'.creates[id].request == request
      && w'.db == (if !reserve.NotExecuted? && out.Done? then out.db else w.db)
      && StageOf(w', id) == if reserve.NotExecuted? || out.Failed? then Undone
                            else if reserve.Lost? then Broken else Inserting(out.total)
  {
  }

  lemma WrittenIs(w: World, id: string, totalPrice: int, insert: Reply, compensate: Reply, now: int)
    requires id in w.creates && w.creates[id].stage == Inserting(totalPrice)
    ensures var w' := WrittenAlone(w, id, insert, compensate, now); var out := Release(w.db, id, now);
      var fits := !insert.NotExecuted? && CanInsert(w.bookings, id, w.creates[id].request, totalPrice);
      && w'.bookings == (if fits then w.bookings[id := Booking(w.creates[id].request, totalPrice, Confirmed)] else w.bookings)
      && (StageOf(w', id).Booked? <==> fits && insert.Answered?)
      && w'.db == if (fits && insert.Answered?) || compensate.NotExecuted? || out.Failed? then w.db else out.db
  {
    var v := InsertStep(w, id, totalPrice, insert);
    assert Next(w, CreateCall(id, insert, now)) == v;
    assert v.db == w.db;
    if v.creates[id].stage.Compensating? {
      var written := v.creates[id].stage.written;
      assert Next(v, CreateCall(id, compensate, now)) == CompensateStep(v, id, written, compensate, now);
    }
  }

  lemma EndedStays(w: World, id: string, insert: Reply, compensate: Reply, now: int)
    requires id in w.creates && (w.creates[id].stage.Undone? || w.creates[id].stage.Broken?)
    ensures WrittenAlone(w, id, insert, compensate, now) == w
  {
  }

  function CancelAlone(w: World, k: nat, id: string, load: Reply, release: Reply, update: Reply, now: int): World {
    var loaded := Next(Next(w, StartCancel(k, id)), CancelCall(k, load, now));
    Next(Next(loaded, CancelCall(k, release, now)), CancelCall(k, update, now))
  }

  predicate Loads(w: World, id: string, load: Reply, status: BookingStatus) {
    load.Answered? && id in w.bookings && w.bookings[id].status == status
  }

  // A cancel of one row, read off its three calls.
  lemma CancelIs(w: World, id: string, load: Reply, release: Reply, update: Reply, now: int)
    requires w.cancels == map[]
    ensures var w' := CancelAlone(w, 0, id, load, release, update, now); var out := Release(w.db, id, now);
      var sent := Loads(w, id, load, Confirmed) && !release.NotExecuted? && out.Done?;
      && w'.db == (if sent then out.db else w.db)
      && w'.bookings == if sent && release.Answered? && !update.NotExecuted?
                        then w.bookings[id := w.bookings[id].(status := BookingStatus.Cancelled)] else w.bookings
  {
    var v := Next(Next(w, StartCancel(0, id)), CancelCall(0, load, now));
    assert v.db == w.db && v.bookings == w.bookings && v.cancels.Keys == {0};
    if Loads(w, id, load, Confirmed) {
      assert v.cancels[0] == Cancel(id, Releasing);
      assert Next(v, CancelCall(0, release, now)) == ReleaseStep(v, 0, release, now);
    } else {
      assert v.cancels[0] == Cancel(id, Refused);
    }
  }

  /** When every call answers, a create either books its seats at their price, or leaves no trace. */
  lemma CreateIsAtomic(w: World, id: string, request: Request, now: int)
    requires Valid(w.db) && id !in w.creates && id !in w.db.reservations && id !in w.bookings
    ensures var w' := CreateAlone(w, id, request, Answered, Answered, Answered, now);
      var out := Reserve(w.db, request.flightId, id, request.seatCount, now);
      if out.Done? && out.total > 0
      then StageOf(w', id).Booked? && w'.db == out.db && w'.bookings == w.bookings[id := Booking(request, out.total, Confirmed)]
      else !StageOf(w', id).Booked? && w'.bookings == w.bookings && SameSeats(w.db, w'.db)
  {
    var out := Reserve(w.db, request.flightId, id, request.seatCount, now);
    ReservedIs(w, id, request, Answered, now);
    var v := ReservedAlone(w, id, request, Answered, now);
    if out.Failed? {
      EndedStays(v, id, Answered, Answered, now);
    } else {
      WrittenIs(v, id, out.total, Answered, Answered, now);
      if out.total <= 0 {
        UndoneReserve(w.db, request.flightId, id, request.seatCount, now);
      }
    }
  }

  // What a booking of the request costs.
  function Price(db: Db, request: Request): int {
    if request.flightId in db.flights then request.seatCount * db.flights[request.flightId].pricePerSeat else 0
  }

  lemma ReserveEnds(w: World, id: string, request: Request, reserve: Reply, now: int)
    requires id !in w.creates
    ensures var w' := ReservedAlone(w, id, request, reserve, now); var reserved := CanReserve(w.db, request.flightId, id, request.seatCount);
      && w'.bookings == w.bookings && id in w'.creates && w'.creates[id].request == request
      && (StageOf(w', id).Inserting? <==> reserved && reserve.Answered?)
      && (StageOf(w', id).Inserting? ==> StageOf(w', id).totalPrice == Price(w.db, request))
      && (!StageOf(w', id).Inserting? ==> StageOf(w', id).Undone? || StageOf(w', id).Broken?)
      && (id in w'.db.reservations && id !in w.db.reservations <==> reserved && !reserve.NotExecuted?)
  {
    ReservedIs(w, id, request, reserve, now);
    ReserveAnswers(w.db, request.flightId, id, request.seatCount, now);
    if CanReserve(w.db, request.flightId, id, request.seatCount) {
      ReserveEffect(w.db, request.flightId, id, request.seatCount, now);
    }
  }

  /**
   * A create books its request if and only if the seats can be had, reserving and inserting both answer, the id is
   * new and the price positive; a booking is written, told or not, unless the insert is not executed.
   */
  lemma CreateAnswers(w: World, id: string, request: Request, reserve: Reply, insert: Reply, compensate: Reply, now: int)
    requires id !in w.creates
    ensures var w' := CreateAlone(w, id, request, reserve, insert, compensate, now);
      var writes := CanReserve(w.db, request.flightId, id, request.seatCount) && reserve.Answered?
        && !insert.NotExecuted? && id !in w.bookings && Price(w.db, request) > 0;
      && (StageOf(w', id).Booked? <==> writes && insert.Answered?)
      && w'.bookings == if writes then w.bookings[id := Booking(request, Price(w.db, request), Confirmed)] else w.bookings
  {
    ReserveEnds(w, id, request, reserve, now);
    var v := ReservedAlone(w, id, request, reserve, now);
    if v.creates[id].stage.Inserting? {
      WrittenIs(v, id, v.creates[id].stage.totalPrice, insert, compensate, now);
    } else {
      EndedStays(v, id, insert, compensate, now);
    }
  }

  ghost predicate SameSeats(a: Db, b: Db) {
    a.flights.Keys == b.flights.Keys
    && forall f :: f in a.flights ==> a.flights[f].availableSeats == b.flights[f].availableSeats
  }

  lemma UndoneReserve(db: Db, flightId: string, id: string, seats: int, now: int)
    requires Valid(db) && Reserve(db, flightId, id, seats, now).Done?
    ensures var out := Reserve(db, flightId, id, seats, now);
      Release(out.db, id, now).Done? && SameSeats(db, Release(out.db, id, now).db)
  {
    var call := ReserveCall(flightId, id, seats, now);
    CallKeepsValid(db, call);
    assert After(db, call) == Reserve(db, flightId, id, seats, now).db;
    ActiveIsReleasable(After(db, call), id, now);
  }

  // What works on the flight service's side: its cache's reads and writes, and the invalidations after each call.
  datatype Environment = Environment(cacheReads: bool, cacheWrites: bool, reserve: DropFaults, release: DropFaults)

  predicate FlightIsFound(s: FlightCache.Service, id: string, env: Environment) {
    FlightCache.Serve(s, FlightCache.GetFlight(id, env.cacheReads, env.cacheWrites)).1.flight.Some?
  }

  // ---------- What the caller is told ----------

  // The reservation went through, and the service heard of it.
  predicate Reserved(db: Db, id: string, request: Request, reserve: Reply, now: int) {
    reserve.Answered? && FlightCache.Requested(db, ReserveCall(request.flightId, id, request.seatCount, now)).Done?
  }

  /** Each result of an accepted create says how its saga ended: where the reservation stands and whether it is booked. */
  predicate CreateEnds(result: Result, w: World, id: string, reserved: bool, fetch: Reply) {
    && (result.Ok? <==> StageOf(w, id).Booked? && fetch.Answered?)
    && (result.Ok? ==> result.id == id && Find(w.bookings, id) == Some(result.booking))
    && (result == Err(ReserveFailed) <==> !reserved)
    && (result == Err(CreateFailed) <==> reserved && !StageOf(w, id).Booked?)
    && (result == Err(CreatedButNotFetched) <==> StageOf(w, id).Booked? && !fetch.Answered?)
  }

  /** Each result of a cancel names the one step that ended it. */
  predicate CancelEnds(result: Result, before: World, w: World, id: string, load: Reply, release: Reply, update: Reply, now: int) {
    var released := Loads(before, id, load, Confirmed) && release.Answered? && Release(before.db, id, now).Done?;
    && (result.Ok? <==> released && update.Answered?)
    && (result.Ok? ==> result.id == id && Find(w.bookings, id) == Some(result.booking) && IsCancelled(w, id))
    && (result == Err(BookingUnknown) <==> !load.Answered? || id !in before.bookings)
    && (result == Err(AlreadyCancelled) <==> Loads(before, id, load, BookingStatus.Cancelled))
    && (result == Err(ReleaseFailed) <==> Loads(before, id, load, Confirmed) && !released)
    && (result == Err(UpdateFailed) <==> released && !update.Answered?)
  }

  lemma UnreservedEnds(w: World, id: string, request: Request, reserve: Reply, insert: Reply, compensate: Reply, now: int)
    requires w.creates == map[] && Uuid(id) == Some(id) && Uuid(request.flightId).Some? && !Reserved(w.db, id, request, reserve, now)
    ensures var w' := CreateAlone(w, id, Kept(request), reserve, insert, compensate, now);
      var out := FlightCache.Requested(w.db, ReserveCall(request.flightId, id, request.seatCount, now));
      && w'.db == (if !reserve.NotExecuted? && out.Done? then out.db else w.db)
      && w'.bookings == w.bookings && !StageOf(w', id).Booked?
  {
    ReservedIs(w, id, Kept(request), reserve, now);
    EndedStays(ReservedAlone(w, id, Kept(request), reserve, now), id, insert, compensate, now);
  }

  lemma ReservedGoesOn(w: World, id: string, request: Request, reserve: Reply, now: int)
    requires w.creates == map[] && w.cancels == map[] && Uuid(id) == Some(id) && Reserved(w.db, id, request, reserve, now)
    ensures var out := FlightCache.Requested(w.db, ReserveCall(request.flightId, id, request.seatCount, now));
      ReservedAlone(w, id, Kept(request), reserve, now)
      == World(out.db, w.bookings, map[id := Create(Kept(request), Inserting(out.total))], map[])
  {
  }

  class BookingService {
    const repo: BookingRepository
    const flights: FlightService

    constructor (repo: BookingRepository, flights: FlightService)
      ensures this.repo == repo && this.flights == flights
    {
      this.repo, this.flights := repo, flights;
    }

    ghost function Snapshot(): World
      reads repo, flights.repo
    {
      World(flights.repo.Contents(), repo.bookings, map[], map[])
    }

    // Calls to the flight service over the network.
    method RemoteReserve(flightId: string, id: string, seats: int, reply: Reply, now: int, faults: DropFaults)
      returns (ok: bool, totalPrice: int)
      modifies flights.repo, flights.cache
      ensures var out := FlightCache.Requested(old(flights.repo.Contents()), ReserveCall(flightId, id, seats, now));
        && flights.repo.Contents() == (if !reply.NotExecuted? && out.Done? then out.db else old(flights.repo.Contents()))
        && ok == (reply.Answered? && out.Done?)
        && (ok ==> totalPrice == out.total)
    {
      ok, totalPrice := false, 0;
      if reply.NotExecuted? {
        return;
      }
      var failure, total := flights.ReserveSeats(flightId, id, seats, now, faults);
      if failure == None && reply.Answered? {
        ok, totalPrice := true, total;
      }
    }

    method RemoteRelease(id: string, reply: Reply, now: int, faults: DropFaults) returns (ok: bool)
      modifies flights.repo, flights.cache
      ensures var out := FlightCache.Requested(old(flights.repo.Contents()), ReleaseCall(id, now));
        && flights.repo.Contents() == (if !reply.NotExecuted? && out.Done? then out.db else old(flights.repo.Contents()))
        && ok == (reply.Answered? && out.Done?)
    {
      ok := false;
      if reply.NotExecuted? {
        return;
      }
      var failure := flights.ReleaseReservation(id, now, faults);
      ok := failure == None && reply.Answered?;
    }

    // The booking record, or the release that compensates for it; reached only with seats reserved on the flight.
    method WriteBooking(id: string, request: Request, totalPrice: int, insert: Reply, compensate: Reply, fetch: Reply, now: int, env: Environment)
      returns (result: Result)
      requires Uuid(id) == Some(id) && Uuid(request.flightId).Some?
      modifies repo, flights.repo, flights.cache
      ensures var create := map[id := Create(Kept(request), Inserting(totalPrice))];
        var w := WrittenAlone(old(Snapshot()).(creates := create), id, insert, compensate, now);
        && Snapshot() == World(w.db, w.bookings, map[], map[])
        && (StageOf(w, id).Booked? && fetch.Answered? ==> result.Ok? && result.id == id && Find(w.bookings, id) == Some(result.booking))
        && (StageOf(w, id).Booked? && !fetch.Answered? ==> result == Err(CreatedButNotFetched))
        && (!StageOf(w, id).Booked? ==> result == Err(CreateFailed))
    {
      ghost var w := old(Snapshot()).(creates := map[id := Create(Kept(request), Inserting(totalPrice))]);
      WrittenIs(w, id, totalPrice, insert, compensate, now);
      var ok := repo.Create(id, Booking(request, totalPrice, Confirmed), insert);
      if !ok {
        ok := RemoteRelease(id, compensate, now, env.release);
        return Err(CreateFailed);
      }
      var rowId, created := repo.GetById(id, fetch);
      if created.None? {
        return Err(CreatedButNotFetched);
      }
      result := Ok(rowId, created.value);
    }

    // The reservation call carries the flight's id as the caller spelled it; a text that is no id reserves nothing.
    method ReserveAndWrite(id: string, request: Request, reserve: Reply, insert: Reply, compensate: Reply, fetch: Reply, now: int, env: Environment)
      returns (result: Result)
      requires Uuid(id) == Some(id)
      modifies repo, flights.repo, flights.cache
      ensures Uuid(request.flightId).None? ==> Snapshot() == old(Snapshot()) && result == Err(ReserveFailed)
      ensures Uuid(request.flightId).Some? ==>
        var w := CreateAlone(old(Snapshot()), id, Kept(request), reserve, insert, compensate, now);
        && Snapshot() == World(w.db, w.bookings, map[], map[])
        && CreateEnds(result, w, id, Reserved(old(flights.repo.Contents()), id, request, reserve, now), fetch)
    {
      ghost var w := old(Snapshot());
      var ok, totalPrice := RemoteReserve(request.flightId, id, request.seatCount, reserve, now, env.reserve);
      if !ok {
        if Uuid(request.flightId).Some? {
          UnreservedEnds(w, id, request, reserve, insert, compensate, now);
        }
        return Err(ReserveFailed);
      }
      ReservedGoesOn(w, id, request, reserve, now);
      result := WriteBooking(id, request, totalPrice, insert, compensate, fetch, now, env);
    }

    // The request's checks, and the flight it names.
    method CheckFlight(request: Request, lookup: Reply, env: Environment) returns (failure: Option<Failure>)
      modifies flights.cache
      ensures FirstFault(request).Some? ==> failure == FirstFault(request)
      ensures FirstFault(request).None? ==>
        failure == if lookup.Answered? && FlightIsFound(old(flights.Snapshot()), request.flightId, env) then None else Some(FlightUnknown)
    {
      if request.userId == "" {
        return Some(Missing("user_id"));
      }
      if request.passengerName == "" {
        return Some(Missing("passenger_name"));
      }
      if request.passengerEmail == "" {
        return Some(Missing("passenger_email"));
      }
      if request.flightId == "" {
        return Some(Missing("flight_id"));
      }
      if request.seatCount <= 0 {
        return Some(SeatCountNotPositive);
      }
      if lookup.NotExecuted? {
        return Some(FlightUnknown);
      }
      var flight := flights.GetFlight(request.flightId, env.cacheReads, env.cacheWrites);
      failure := if flight.None? || lookup.Lost? then Some(FlightUnknown) else None;
    }

    // The id is a new one, as its generator prints it.
    method CreateBooking(id: string, request: Request, lookup: Reply, reserve: Reply, insert: Reply, compensate: Reply,
                         fetch: Reply, now: int, env: Environment)
      returns (result: Result)
      requires Uuid(id) == Some(id)
      modifies repo, flights.repo, flights.cache
      ensures var accepted := FirstFault(request).None? && lookup.Answered? && FlightIsFound(old(flights.Snapshot()), request.flightId, env);
        if !accepted then Snapshot() == old(Snapshot()) && result == Err(FirstFault(request).GetOr(FlightUnknown))
        else if Uuid(request.flightId).None? then Snapshot() == old(Snapshot()) && result == Err(ReserveFailed)
        else
          var w := CreateAlone(old(Snapshot()), id, Kept(request), reserve, insert, compensate, now);
          && Snapshot() == World(w.db, w.bookings, map[], map[])
          && CreateEnds(result, w, id, Reserved(old(flights.repo.Contents()), id, request, reserve, now), fetch)
    {
      var failure := CheckFlight(request, lookup, env);
      if failure.Some? {
        return Err(failure.value);
      }
      result := ReserveAndWrite(id, request, reserve, insert, compensate, fetch, now, env);
    }

    // The row's id goes into the saga and the caller's spelling into the calls.
    method CancelBooking(id: string, load: Reply, release: Reply, update: Reply, now: int, env: Environment) returns (result: Result)
      modifies repo, flights.repo, flights.cache
      ensures Uuid(id).None? ==> Snapshot() == old(Snapshot()) && result == Err(BookingUnknown)
      ensures Uuid(id).Some? ==>
        var w := CancelAlone(old(Snapshot()), 0, Uuid(id).value, load, release, update, now);
        && Snapshot() == World(w.db, w.bookings, map[], map[])
        && CancelEnds(result, old(Snapshot()), w, Uuid(id).value, load, release, update, now)
    {
      ghost var w := old(Snapshot());
      CancelIs(w, Uuid(id).GetOr(""), load, release, update, now);
      var rowId, booking := repo.GetById(id, load);
      if booking.None? {
        return Err(BookingUnknown);
      }
      if booking.value.status == BookingStatus.Cancelled {
        return Err(AlreadyCancelled);
      }
      var ok := RemoteRelease(id, release, now, env.release);
      if !ok {
        return Err(ReleaseFailed);
      }
      rowId, booking := repo.UpdateStatus(id, BookingStatus.Cancelled, update);
      if booking.None? {
        return Err(UpdateFailed);
      }
      result := Ok(rowId, booking.value);
    }
  }
}
