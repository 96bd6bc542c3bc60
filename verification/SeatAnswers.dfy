/** What the flight service answers to a reserve or a release, in terms of the stored rows, and what follows for runs. */
module SeatAnswers {
  import opened MapSums
  import opened Uuids
  import opened Seats
  import FlightCache
  import opened Saga

  // ---------- One call ----------

  /** The flight can be booked for so many seats under this booking id. */
  predicate CanReserve(db: Db, flightId: string, bookingId: string, seats: int) {
    && flightId in db.flights && db.flights[flightId].status == Scheduled
    && 0 < seats <= db.flights[flightId].availableSeats && bookingId !in db.reservations
  }

  // The flight's row with another number of free seats, field by field.
  predicate SeatsMoved(f: Flight, f': Flight, change: int, now: int) {
    && f'.availableSeats == f.availableSeats + change && f'.updatedAt == now
    && f'.origin == f.origin && f'.destination == f.destination && f'.departureDate == f.departureDate
    && f'.departureMinute == f.departureMinute && f'.totalSeats == f.totalSeats && f'.pricePerSeat == f.pricePerSeat
    && f'.status == f.status
  }

  /** A reserve succeeds if and only if the flight can be booked so; each error if and only if its check fails first. */
  lemma ReserveAnswers(db: Db, f: string, b: string, seats: int, now: int)
    ensures var out := Reserve(db, f, b, seats, now);
      var known := f in db.flights; var open := known && db.flights[f].status == Scheduled;
      var enough := open && seats <= db.flights[f].availableSeats;
      && (out.Done? <==> CanReserve(db, f, b, seats))
      && (out == Failed(FlightNotFound) <==> !known)
      && (out == Failed(FlightNotAvailable) <==> known && !open)
      && (out == Failed(NotEnoughSeats) <==> open && !enough)
      && (out == Failed(ConstraintViolated) <==> enough && (seats <= 0 || b in db.reservations))
  {
  }

  /** It takes the seats from that flight alone, files one active reservation, and costs the flight's price per seat. */
  lemma ReserveEffect(db: Db, f: string, b: string, seats: int, now: int)
    requires CanReserve(db, f, b, seats)
    ensures var out := Reserve(db, f, b, seats, now);
      && out.Done? && out.total == seats * db.flights[f].pricePerSeat
      && f in out.db.flights && SeatsMoved(db.flights[f], out.db.flights[f], -seats, now)
      && out.db.flights == db.flights[f := out.db.flights[f]]
      && out.db.reservations == db.reservations[b := Reservation(f, seats, Active)]
  {
  }

  predicate CanRelease(db: Db, b: string) {
    && b in db.reservations && db.reservations[b].status == Active && db.reservations[b].flightId in db.flights
    && var f := db.flights[db.reservations[b].flightId];
       f.availableSeats + db.reservations[b].seatCount <= f.totalSeats
  }

  lemma ReleaseAnswers(db: Db, b: string, now: int)
    ensures var out := Release(db, b, now); var known := b in db.reservations;
      var active := known && db.reservations[b].status == Active;
      && (out.Done? <==> CanRelease(db, b))
      && (out == Failed(ReservationNotFound) <==> !known)
      && (out == Failed(ReservationNotActive) <==> known && !active)
      && (out == Failed(ConstraintViolated) <==> active && !CanRelease(db, b))
  {
  }

  /** A release gives the reservation's seats back to its flight alone, and marks it released. */
  lemma ReleaseEffect(db: Db, b: string, now: int)
    requires CanRelease(db, b)
    ensures var out := Release(db, b, now); var r := db.reservations[b];
      && out.Done? && r.flightId in out.db.flights
      && SeatsMoved(db.flights[r.flightId], out.db.flights[r.flightId], r.seatCount, now)
      && out.db.flights == db.flights[r.flightId := out.db.flights[r.flightId]]
      && out.db.reservations == db.reservations[b := Reservation(r.flightId, r.seatCount, Released)]
  {
  }

  /** The calls as they arrive: ids name rows in any spelling, and a text that is no id is refused. */
  lemma RequestedAnswers(db: Db, f: string, b: string, seats: int, now: int)
    ensures var reserve, release := FlightCache.Requested(db, ReserveCall(f, b, seats, now)), FlightCache.Requested(db, ReleaseCall(b, now));
      && (reserve.Done? <==> Uuid(f).Some? && Uuid(b).Some? && CanReserve(db, Uuid(f).value, Uuid(b).value, seats))
      && (reserve.Done? ==> reserve == Reserve(db, Uuid(f).value, Uuid(b).value, seats, now))
      && (Uuid(f).None? ==> reserve == Failed(InvalidId))
      && (release.Done? <==> Uuid(b).Some? && CanRelease(db, Uuid(b).value))
      && (release.Done? ==> release == Release(db, Uuid(b).value, now))
      && (release == Failed(InvalidId) <==> Uuid(b).None?)
  {
  }

  /** Errors of a reserve with a good flight id come in the order of its checks; the booking id is read last. */
  lemma RequestedErrors(db: Db, f: string, b: string, seats: int, now: int)
    requires Uuid(f).Some?
    ensures var out := FlightCache.Requested(db, ReserveCall(f, b, seats, now)); var id := Uuid(f).value;
      var known := id in db.flights; var open := known && db.flights[id].status == Scheduled;
      var enough := open && seats <= db.flights[id].availableSeats;
      && (out == Failed(FlightNotFound) <==> !known)
      && (out == Failed(FlightNotAvailable) <==> known && !open)
      && (out == Failed(NotEnoughSeats) <==> open && !enough)
      && (out == Failed(InvalidId) <==> enough && Uuid(b).None?)
      && (out == Failed(ConstraintViolated) <==> enough && Uuid(b).Some? && (seats <= 0 || Uuid(b).value in db.reservations))
  {
  }

  // ---------- Flights that are not on sale ----------

  predicate ActiveOn(db: Db, b: string, f: string) {
    b in db.reservations && db.reservations[b].status == Active && db.reservations[b].flightId == f
  }

  // What no call ever changes of a flight.
  predicate SameTerms(f: Flight, f': Flight) {
    f'.status == f.status && f'.pricePerSeat == f.pricePerSeat && f'.totalSeats == f.totalSeats
  }

  lemma CallKeepsTerms(db: Db, c: Call, f: string)
    requires f in db.flights
    ensures f in After(db, c).flights && SameTerms(db.flights[f], After(db, c).flights[f])
  {
  }

  lemma CallSellsOpenFlights(db: Db, c: Call, b: string, f: string)
    requires f in db.flights && db.flights[f].status != Scheduled && ActiveOn(After(db, c), b, f)
    ensures ActiveOn(db, b, f)
  {
    if c.ReserveCall? {
      ReserveAnswers(db, c.flightId, c.bookingId, c.seats, c.now);
    }
  }

  /** Under any interleaving of calls, a flight that is not scheduled never gains an active reservation. */
  lemma {:induction false} ClosedFlightsSellNothing(db: Db, calls: seq<Call>, b: string, f: string)
    requires f in db.flights && db.flights[f].status != Scheduled
    ensures f in AfterAll(db, calls).flights && SameTerms(db.flights[f], AfterAll(db, calls).flights[f])
    ensures ActiveOn(AfterAll(db, calls), b, f) ==> ActiveOn(db, b, f)
    decreases |calls|
  {
    if calls != [] {
      var front := calls[..|calls| - 1];
      ClosedFlightsSellNothing(db, front, b, f);
      CallKeepsTerms(AfterAll(db, front), calls[|calls| - 1], f);
      if ActiveOn(AfterAll(db, calls), b, f) {
        CallSellsOpenFlights(AfterAll(db, front), calls[|calls| - 1], b, f);
      }
    }
  }

  // ---------- What bookings cost ----------

  /** A positive number of seats on a scheduled flight, at the flight's price for each. */
  predicate Costs(flights: map<string, Flight>, request: Request, totalPrice: int) {
    && request.flightId in flights && flights[request.flightId].status == Scheduled
    && request.seatCount > 0 && totalPrice == request.seatCount * flights[request.flightId].pricePerSeat
  }

  predicate CreatePriced(flights: map<string, Flight>, c: Create) {
    c.stage.Inserting? ==> Costs(flights, c.request, c.stage.totalPrice)
  }

  predicate BookingPriced(flights: map<string, Flight>, b: Booking) {
    Costs(flights, b.request, b.totalPrice) && b.totalPrice > 0
  }

  predicate AllPriced(flights: map<string, Flight>, w: World) {
    && (forall id :: id in w.creates ==> CreatePriced(flights, w.creates[id]))
    && (forall id :: id in w.bookings ==> BookingPriced(flights, w.bookings[id]))
  }

  // The flights on sale now are those of the start, with other free seats.
  predicate SameFlights(flights: map<string, Flight>, now: map<string, Flight>) {
    now.Keys == flights.Keys && forall f :: f in flights ==> SameTerms(flights[f], now[f])
  }

  lemma NextKeepsFlights(flights: map<string, Flight>, w: World, m: Move)
    requires SameFlights(flights, w.db.flights)
    ensures SameFlights(flights, Next(w, m).db.flights)
  {
    DbStep(w, m);
    if FlightCall(w, m).Some? {
      forall f | f in flights ensures SameTerms(flights[f], Next(w, m).db.flights[f]) {
        CallKeepsTerms(w.db, FlightCall(w, m).value, f);
      }
    }
  }

  lemma ReservedIsPriced(flights: map<string, Flight>, w: World, id: string, reply: Reply, now: int)
    requires SameFlights(flights, w.db.flights) && id in w.creates
    ensures CreatePriced(flights, ReserveStep(w, id, reply, now).creates[id])
  {
    var request := w.creates[id].request;
    ReserveAnswers(w.db, request.flightId, id, request.seatCount, now);
  }

  lemma CreateIsPriced(flights: map<string, Flight>, w: World, m: Move, id: string)
    requires SameFlights(flights, w.db.flights) && AllPriced(flights, w) && id in Next(w, m).creates
    ensures CreatePriced(flights, Next(w, m).creates[id])
  {
    if m.CreateCall? && m.id == id && id in w.creates {
      if w.creates[id].stage.Reserving? {
        ReservedIsPriced(flights, w, id, m.reply, m.now);
      }
    } else if Subject(w, m) != Some(id) {
      OthersKept(w, m, id);
      assert id in w.creates && Next(w, m).creates[id] == w.creates[id];
    }
  }

  lemma BookedIsPriced(flights: map<string, Flight>, w: World, m: Move, id: string)
    requires SameFlights(flights, w.db.flights) && AllPriced(flights, w) && id in Next(w, m).bookings
    ensures BookingPriced(flights, Next(w, m).bookings[id])
  {
    if id in w.bookings {
      NextIsLater(w, m, id);
    } else if m.CreateCall? && m.id == id && id in w.creates {
      assert CreatePriced(flights, w.creates[id]);
    } else if Subject(w, m) != Some(id) {
      OthersKept(w, m, id);
      assert false;
    }
  }

  lemma {:induction false} PricedAlways(w: World, moves: seq<Move>)
    requires AllPriced(w.db.flights, w)
    ensures SameFlights(w.db.flights, Exec(w, moves).db.flights) && AllPriced(w.db.flights, Exec(w, moves))
    decreases |moves|
  {
    if moves != [] {
      var before, m := Exec(w, moves[..|moves| - 1]), moves[|moves| - 1];
      PricedAlways(w, moves[..|moves| - 1]);
      NextKeepsFlights(w.db.flights, before, m);
      forall id | id in Next(before, m).creates ensures CreatePriced(w.db.flights, Next(before, m).creates[id]) {
        CreateIsPriced(w.db.flights, before, m, id);
      }
      forall id | id in Next(before, m).bookings ensures BookingPriced(w.db.flights, Next(before, m).bookings[id]) {
        BookedIsPriced(w.db.flights, before, m, id);
      }
    }
  }

  /**
   * Under any interleaving of creates and cancels, with failures, lost replies and crashes, every booking is for a
   * positive number of seats on a scheduled flight, and costs that number times the flight's price.
   */
  lemma BookingsCostTheirSeats(db: Db, moves: seq<Move>, id: string)
    requires id in Exec(Start(db), moves).bookings
    ensures var b := Exec(Start(db), moves).bookings[id];
      && b.request.flightId in db.flights && db.flights[b.request.flightId].status == Scheduled
      && b.request.seatCount > 0 && b.totalPrice > 0
      && b.totalPrice == b.request.seatCount * db.flights[b.request.flightId].pricePerSeat
  {
    PricedAlways(Start(db), moves);
    assert BookingPriced(db.flights, Exec(Start(db), moves).bookings[id]);
  }

  // ---------- How creates end ----------

  predicate BrokenReserved(w: World, id: string) {
    id in w.creates && w.creates[id].stage.Broken? ==> id in w.db.reservations
  }

  lemma BrokenStep(w: World, m: Move, id: string)
    requires Inv(w) && BrokenReserved(w, id)
    ensures BrokenReserved(Next(w, m), id)
  {
    assert Fine(w, id);
    NextIsLater(w, m, id);
    if Subject(w, m) != Some(id) {
      OthersKept(w, m, id);
    }
  }

  lemma {:induction false} BrokenAlways(db: Db, moves: seq<Move>, id: string)
    requires Fresh(db)
    ensures BrokenReserved(Exec(Start(db), moves), id)
    decreases |moves|
  {
    if moves != [] {
      BrokenAlways(db, moves[..|moves| - 1], id);
      InvAlways(db, moves[..|moves| - 1]);
      BrokenStep(Exec(Start(db), moves[..|moves| - 1]), moves[|moves| - 1], id);
    }
  }

  /**
   * In every run a create that broke had reserved its seats; one that was undone holds none and has no booking; and
   * one that is booked has its booking.
   */
  lemma CreatesEndSo(db: Db, moves: seq<Move>, id: string)
    requires Fresh(db) && id in Exec(Start(db), moves).creates
    ensures var w := Exec(Start(db), moves); var stage := w.creates[id].stage;
      && (stage.Broken? ==> id in w.db.reservations)
      && (stage.Undone? ==> id !in w.bookings && (id in w.db.reservations ==> w.db.reservations[id].status == Released))
      && (stage.Booked? ==> id in w.bookings && w.bookings[id].request == w.creates[id].request)
  {
    BrokenAlways(db, moves, id);
    InvAlways(db, moves);
    assert Fine(Exec(Start(db), moves), id);
  }
}
