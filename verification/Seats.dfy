/** The seat ledger of the flight service: reservations take seats from a flight, releases give them back. */
module Seats {
  import opened MapSums

  datatype FlightStatus = Scheduled | Departed | Cancelled | Completed

  // A calendar date that prints as four, two and two digits.
  datatype CalendarDate = CalendarDate(year: nat, month: nat, day: nat)
  type Date = d: CalendarDate | d.year < 10_000 && d.month < 100 && d.day < 100 witness CalendarDate(2026, 4, 1)

  // Prices are in cents; dates and times are UTC.
  datatype Flight = Flight(
    origin: string, destination: string, departureDate: Date, departureMinute: int, totalSeats: int,
    availableSeats: int, pricePerSeat: int, status: FlightStatus, updatedAt: int)

  datatype ReservationStatus = Active | Released | Expired
  datatype Reservation = Reservation(flightId: string, seatCount: int, status: ReservationStatus)

  // Reservations are keyed by booking id, which the schema makes unique.
  datatype Db = Db(flights: map<string, Flight>, reservations: map<string, Reservation>)

  datatype Error =
    | FlightNotFound | FlightNotAvailable | NotEnoughSeats
    | ReservationNotFound | ReservationNotActive | ConstraintViolated | InvalidId

  datatype Outcome = Done(db: Db, total: int) | Failed(error: Error)

  function WithSeats(f: Flight, seats: int, now: int): Flight {
    f.(availableSeats := seats, updatedAt := now)
  }

  /** ReserveSeats as one serializable transaction: all of it, or an error and no change. */
  function Reserve(db: Db, flightId: string, bookingId: string, seats: int, now: int): Outcome {
    if flightId !in db.flights then Failed(FlightNotFound)
    else
      var f := db.flights[flightId];
      if f.status != Scheduled then Failed(FlightNotAvailable)
      else if f.availableSeats < seats then Failed(NotEnoughSeats)
      else if seats <= 0 || bookingId in db.reservations then Failed(ConstraintViolated)
      else
        Done(Db(db.flights[flightId := WithSeats(f, f.availableSeats - seats, now)],
                db.reservations[bookingId := Reservation(flightId, seats, Active)]),
             seats * f.pricePerSeat)
  }

  /** ReleaseReservation as one serializable transaction. */
  function Release(db: Db, bookingId: string, now: int): Outcome {
    if bookingId !in db.reservations then Failed(ReservationNotFound)
    else
      var r := db.reservations[bookingId];
      if r.status != Active then Failed(ReservationNotActive)
      else if r.flightId !in db.flights
        || db.flights[r.flightId].availableSeats + r.seatCount > db.flights[r.flightId].totalSeats
      then Failed(ConstraintViolated)
      else
        var f := db.flights[r.flightId];
        Done(Db(db.flights[r.flightId := WithSeats(f, f.availableSeats + r.seatCount, now)],
                db.reservations[bookingId := r.(status := Released)]), 0)
  }

  // ---------- The ledger ----------

  function ActiveSeats(reservations: map<string, Reservation>, flightId: string): map<string, int> {
    map b | b in reservations && reservations[b].flightId == flightId && reservations[b].status == Active
          :: reservations[b].seatCount
  }

  /** Seats of a flight, free or held by an active reservation. */
  ghost function Held(db: Db, flightId: string): int {
    Sum(ActiveSeats(db.reservations, flightId))
  }

  /** What the tables' constraints promise, and no flight holds more active seats than it has given out. */
  ghost predicate Valid(db: Db) {
    && (forall f :: f in db.flights ==> 0 <= db.flights[f].availableSeats <= db.flights[f].totalSeats)
    && (forall b :: b in db.reservations ==>
          db.reservations[b].flightId in db.flights && db.reservations[b].seatCount > 0)
    && (forall f :: f in db.flights ==> db.flights[f].availableSeats + Held(db, f) <= db.flights[f].totalSeats)
  }

  datatype Call = ReserveCall(flightId: string, bookingId: string, seats: int, now: int) | ReleaseCall(bookingId: string, now: int)

  function Run1(db: Db, c: Call): Outcome {
    match c
    case ReserveCall(f, b, seats, now) => Reserve(db, f, b, seats, now)
    case ReleaseCall(b, now) => Release(db, b, now)
  }

  function After(db: Db, c: Call): Db {
    var out := Run1(db, c);
    if out.Done? then out.db else db
  }

  /** Any interleaving of serializable calls is some sequence of them. */
  function AfterAll(db: Db, calls: seq<Call>): Db {
    if calls == [] then db else After(AfterAll(db, calls[..|calls| - 1]), calls[|calls| - 1])
  }

  lemma HeldAfterReserve(db: Db, flightId: string, bookingId: string, seats: int, f: string)
    requires bookingId !in db.reservations
    ensures Sum(ActiveSeats(db.reservations[bookingId := Reservation(flightId, seats, Active)], f))
         == Held(db, f) + (if f == flightId then seats else 0)
  {
    var before := ActiveSeats(db.reservations, f);
    var after := ActiveSeats(db.reservations[bookingId := Reservation(flightId, seats, Active)], f);
    if f == flightId {
      assert after == before[bookingId := seats];
      SumUpdate(before, bookingId, seats);
    } else {
      assert after == before;
    }
  }

  lemma HeldAfterRelease(db: Db, bookingId: string, f: string)
    requires bookingId in db.reservations && db.reservations[bookingId].status == Active
    ensures var r := db.reservations[bookingId];
      Sum(ActiveSeats(db.reservations[bookingId := r.(status := Released)], f))
      == Held(db, f) - (if f == r.flightId then r.seatCount else 0)
  {
    var r := db.reservations[bookingId];
    var before := ActiveSeats(db.reservations, f);
    var after := ActiveSeats(db.reservations[bookingId := r.(status := Released)], f);
    if f == r.flightId {
      assert after == before - {bookingId};
      SumRemove(before, bookingId);
    } else {
      assert after == before;
    }
  }

  lemma CallConserves(db: Db, c: Call, f: string)
    requires f in db.flights
    ensures f in After(db, c).flights && After(db, c).flights[f].totalSeats == db.flights[f].totalSeats
    ensures After(db, c).flights[f].availableSeats + Held(After(db, c), f) == db.flights[f].availableSeats + Held(db, f)
  {
    if Run1(db, c).Done? {
      if c.ReserveCall? {
        HeldAfterReserve(db, c.flightId, c.bookingId, c.seats, f);
      } else {
        HeldAfterRelease(db, c.bookingId, f);
      }
    }
  }

  lemma HeldIsNonNegative(db: Db, f: string)
    requires Valid(db)
    ensures Held(db, f) >= 0
    ensures forall b :: b in ActiveSeats(db.reservations, f) ==> db.reservations[b].seatCount <= Held(db, f)
  {
    SumNonNegative(ActiveSeats(db.reservations, f));
  }

  lemma CallKeepsValid(db: Db, c: Call)
    requires Valid(db)
    ensures Valid(After(db, c))
  {
    var db' := After(db, c);
    if Run1(db, c).Done? {
      forall f | f in db'.flights
        ensures db'.flights[f].availableSeats + Held(db', f) <= db'.flights[f].totalSeats
      {
        assert f in db.flights;
        CallConserves(db, c, f);
      }
    }
  }

  /**
   * Under any interleaving of reservations and releases, a flight's free seats plus those held by
   * active reservations stay constant, and the free seats stay between zero and the total.
   */
  lemma {:induction false} SeatsConserved(db: Db, calls: seq<Call>, f: string)
    requires Valid(db) && f in db.flights
    ensures var db' := AfterAll(db, calls);
      && Valid(db')
      && f in db'.flights
      && db'.flights[f].totalSeats == db.flights[f].totalSeats
      && db'.flights[f].availableSeats + Held(db', f) == db.flights[f].availableSeats + Held(db, f)
      && 0 <= db'.flights[f].availableSeats <= db'.flights[f].totalSeats
    decreases |calls|
  {
    if calls != [] {
      var front := calls[..|calls| - 1];
      SeatsConserved(db, front, f);
      CallKeepsValid(AfterAll(db, front), calls[|calls| - 1]);
      CallConserves(AfterAll(db, front), calls[|calls| - 1], f);
    }
  }

  /** An active reservation can always be released: the seat constraint never stands in the way. */
  lemma ActiveIsReleasable(db: Db, b: string, now: int)
    requires Valid(db)
    ensures Release(db, b, now).Done? <==> b in db.reservations && db.reservations[b].status == Active
  {
    if b in db.reservations && db.reservations[b].status == Active {
      HeldIsNonNegative(db, db.reservations[b].flightId);
      assert b in ActiveSeats(db.reservations, db.reservations[b].flightId);
    }
  }

  // ---------- A reservation is released at most once ----------

  /** Reservations stay as they are, except that active ones may become released. */
  predicate Ages(a: Reservation, b: Reservation) {
    b == a || (a.status == Active && b == a.(status := Released))
  }

  lemma {:induction false} ReservationsAge(db: Db, calls: seq<Call>, b: string)
    requires b in db.reservations
    ensures b in AfterAll(db, calls).reservations && Ages(db.reservations[b], AfterAll(db, calls).reservations[b])
    decreases |calls|
  {
    if calls != [] {
      ReservationsAge(db, calls[..|calls| - 1], b);
    }
  }

  /** The releases of b among calls that succeed. */
  function SuccessfulReleases(db: Db, calls: seq<Call>, b: string): nat {
    if calls == [] then 0
    else
      var front, c := calls[..|calls| - 1], calls[|calls| - 1];
      SuccessfulReleases(db, front, b)
      + (if c.ReleaseCall? && c.bookingId == b && Run1(AfterAll(db, front), c).Done? then 1 else 0)
  }

  function IsActive(db: Db, b: string): nat {
    if b in db.reservations && db.reservations[b].status == Active then 1 else 0
  }

  /** However many cancellations race, an active reservation gives its seats back exactly once or still holds them. */
  lemma {:induction false} ReleasedExactlyOnce(db: Db, calls: seq<Call>, b: string)
    requires b in db.reservations
    ensures SuccessfulReleases(db, calls, b) + IsActive(AfterAll(db, calls), b) == IsActive(db, b)
    decreases |calls|
  {
    if calls != [] {
      var front := calls[..|calls| - 1];
      ReleasedExactlyOnce(db, front, b);
      ReservationsAge(db, front, b);
    }
  }
}
