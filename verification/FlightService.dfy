/** The flight service's objects: repository transactions, the cache, and the cache-aside service over both. */
module FlightServices {
  import opened MapSums
  import opened Seats
  import opened FlightCache
  import opened Uuids

  class FlightRepository {
    var flights: map<string, Flight>
    var reservations: map<string, Reservation>
    const departures: seq<string>   // all flight ids in order of departure

    constructor (flights: map<string, Flight>, departures: seq<string>)
      ensures Contents() == Db(flights, map[]) && this.departures == departures
    {
      this.flights, this.reservations, this.departures := flights, map[], departures;
    }

    ghost function Contents(): Db
      reads this
    {
      Db(flights, reservations)
    }

    // Ids arrive as texts; the database reads them as UUIDs, or fails.
    method GetFlightById(id: string) returns (rowId: string, found: Option<Flight>)
      ensures found == Lookup(flights, id) && (found.Some? ==> Uuid(id) == Some(rowId))
    {
      rowId, found := "", None;
      var read := Uuid(id);
      if read.Some? && read.value in flights {
        rowId, found := read.value, Some(flights[read.value]);
      }
    }

    method SearchFlights(origin: string, destination: string, date: Date) returns (rows: seq<Row>)
      ensures rows == Search(flights, departures, origin, destination, date)
    {
      rows := [];
      for i := 0 to |departures|
        invariant rows == Search(flights, departures[..i], origin, destination, date)
      {
        assert departures[..i + 1][..i] == departures[..i];
        var id := departures[i];
        if id in flights && Matches(flights[id], origin, destination, date) {
          rows := rows + [Row(id, flights[id])];
        }
      }
      assert departures[..|departures|] == departures;
    }

    // The update comes before the insert; a violated constraint rolls both back.
    method ReserveSeats(flightId: string, bookingId: string, seats: int, now: int) returns (failure: Option<Error>, total: int)
      modifies this
      ensures var out := Requested(old(Contents()), ReserveCall(flightId, bookingId, seats, now));
        if out.Done? then failure == None && Contents() == out.db && total == out.total
        else failure == Some(out.error) && Contents() == old(Contents())
    {
      failure, total := None, 0;
      var id, booking := Uuid(flightId), Uuid(bookingId);
      if id.None? {
        return Some(InvalidId), 0;
      }
      if id.value !in flights {
        return Some(FlightNotFound), 0;
      }
      var f := flights[id.value];
      if f.status != Scheduled {
        return Some(FlightNotAvailable), 0;
      }
      if f.availableSeats < seats {
        return Some(NotEnoughSeats), 0;
      }
      var saved := flights;
      flights := flights[id.value := WithSeats(f, f.availableSeats - seats, now)];
      if booking.None? {
        flights := saved;
        return Some(InvalidId), 0;
      }
      if seats <= 0 || booking.value in reservations {
        flights := saved;
        return Some(ConstraintViolated), 0;
      }
      reservations := reservations[booking.value := Reservation(id.value, seats, Active)];
      total := seats * f.pricePerSeat;
    }

    method ReleaseReservation(bookingId: string, now: int) returns (failure: Option<Error>, flightId: string)
      modifies this
      ensures var c := ReleaseCall(bookingId, now); var out := Requested(old(Contents()), c);
        if out.Done? then failure == None && Contents() == out.db && flightId == CalledFlight(old(Contents()), c)
        else failure == Some(out.error) && Contents() == old(Contents())
    {
      failure, flightId := None, "";
      var booking := Uuid(bookingId);
      if booking.None? {
        return Some(InvalidId), "";
      }
      if booking.value !in reservations {
        return Some(ReservationNotFound), "";
      }
      var r := reservations[booking.value];
      if r.status != Active {
        return Some(ReservationNotActive), "";
      }
      if r.flightId !in flights || flights[r.flightId].availableSeats + r.seatCount > flights[r.flightId].totalSeats {
        return Some(ConstraintViolated), "";
      }
      var f := flights[r.flightId];
      flights := flights[r.flightId := WithSeats(f, f.availableSeats + r.seatCount, now)];
      reservations := reservations[booking.value := r.(status := Released)];
      flightId := r.flightId;
    }
  }

  class RedisCache {
    var entries: map<string, Entry>

    constructor ()
      ensures entries == map[]
    {
      entries := map[];
    }

    // A read that fails, finds nothing, or cannot decode what it finds is a miss.
    method GetFlight(id: string, works: bool) returns (cached: Option<Flight>)
      ensures cached == if works && FlightKey(id) in entries && entries[FlightKey(id)].FlightEntry?
                        then Some(entries[FlightKey(id)].flight) else None
    {
      cached := None;
      if works && FlightKey(id) in entries && entries[FlightKey(id)].FlightEntry? {
        cached := Some(entries[FlightKey(id)].flight);
      }
    }

    method SetFlight(id: string, flight: Flight, works: bool)
      modifies this
      ensures entries == if works then old(entries)[FlightKey(id) := FlightEntry(flight)] else old(entries)
    {
      if works {
        entries := entries[FlightKey(id) := FlightEntry(flight)];
      }
    }

    method GetSearchResults(origin: string, destination: string, date: Date, works: bool) returns (cached: seq<Row>)
      ensures var key := SearchKey(origin, destination, date);
        cached == if works && key in entries && entries[key].SearchEntry? then entries[key].rows else []
    {
      var key := SearchKey(origin, destination, date);
      cached := [];
      if works && key in entries && entries[key].SearchEntry? {
        cached := entries[key].rows;
      }
    }

    method SetSearchResults(origin: string, destination: string, date: Date, rows: seq<Row>, works: bool)
      modifies this
      ensures var key := SearchKey(origin, destination, date);
        entries == if works then old(entries)[key := SearchEntry(rows)] else old(entries)
    {
      if works {
        entries := entries[SearchKey(origin, destination, date) := SearchEntry(rows)];
      }
    }

    // A deletion that fails leaves the entry where it is.
    method InvalidateFlight(id: string, works: bool)
      modifies this
      ensures entries == Dropped(old(entries), FlightKey(id), works)
    {
      if works {
        entries := entries - {FlightKey(id)};
      }
    }

    method InvalidateSearchByFlight(f: Flight, works: bool)
      modifies this
      ensures entries == Dropped(old(entries), SearchKey(f.origin, f.destination, f.departureDate), works)
    {
      if works {
        entries := entries - {SearchKey(f.origin, f.destination, f.departureDate)};
      }
    }
  }

  // Which steps of an invalidation fail: deleting the flight's entry, looking the flight up, deleting the search entry.
  datatype DropFaults = DropFaults(flight: bool, lookup: bool, search: bool)

  class FlightService {
    const repo: FlightRepository
    const cache: RedisCache

    constructor (repo: FlightRepository, cache: RedisCache)
      ensures this.repo == repo && this.cache == cache
    {
      this.repo, this.cache := repo, cache;
    }

    ghost function Snapshot(): Service
      reads repo, cache
    {
      Service(repo.Contents(), repo.departures, cache.entries)
    }

    method GetFlight(id: string, cacheReads: bool, cacheWrites: bool) returns (flight: Option<Flight>)
      modifies cache
      ensures (Snapshot(), FlightAnswer(flight)) == Serve(old(Snapshot()), Request.GetFlight(id, cacheReads, cacheWrites))
    {
      flight := cache.GetFlight(id, cacheReads);
      if flight.Some? {
        return;
      }
      var rowId: string;
      rowId, flight := repo.GetFlightById(id);
      if flight.Some? {
        cache.SetFlight(rowId, flight.value, cacheWrites);
      }
    }

    method SearchFlights(origin: string, destination: string, date: Date, cacheReads: bool, cacheWrites: bool)
      returns (rows: seq<Row>)
      modifies cache
      ensures (Snapshot(), SearchAnswer(rows))
           == Serve(old(Snapshot()), Request.SearchFlights(origin, destination, date, cacheReads, cacheWrites))
    {
      rows := cache.GetSearchResults(origin, destination, date, cacheReads);
      if rows != [] {
        return;
      }
      rows := repo.SearchFlights(origin, destination, date);
      cache.SetSearchResults(origin, destination, date, rows, cacheWrites);
    }

    method ReserveSeats(flightId: string, bookingId: string, seats: int, now: int, faults: DropFaults)
      returns (failure: Option<Error>, total: int)
      modifies repo, cache
      ensures (Snapshot(), CallAnswer(failure)) == Serve(old(Snapshot()),
        Mutate(ReserveCall(flightId, bookingId, seats, now), !faults.flight, !faults.lookup && !faults.search))
      ensures var out := Requested(old(repo.Contents()), ReserveCall(flightId, bookingId, seats, now));
        if out.Done? then failure == None && total == out.total else failure == Some(out.error)
    {
      failure, total := repo.ReserveSeats(flightId, bookingId, seats, now);
      if failure == None {
        InvalidateFlightCache(flightId, faults);
      }
    }

    method ReleaseReservation(bookingId: string, now: int, faults: DropFaults) returns (failure: Option<Error>)
      modifies repo, cache
      ensures (Snapshot(), CallAnswer(failure)) == Serve(old(Snapshot()),
        Mutate(ReleaseCall(bookingId, now), !faults.flight, !faults.lookup && !faults.search))
    {
      var flightId: string;
      failure, flightId := repo.ReleaseReservation(bookingId, now);
      if failure == None {
        InvalidateFlightCache(flightId, faults);
      }
    }

    // Drops the flight's own entry and the search entry of its route and date. Failures are only logged; when the
    // flight cannot be looked up its search entry stays.
    method InvalidateFlightCache(flightId: string, faults: DropFaults)
      modifies cache
      ensures Snapshot() == Invalidated(old(Snapshot()), flightId, !faults.flight, !faults.lookup && !faults.search)
    {
      cache.InvalidateFlight(flightId, !faults.flight);
      if faults.lookup {
        return;
      }
      var rowId, flight := repo.GetFlightById(flightId);
      if flight.Some? {
        cache.InvalidateSearchByFlight(flight.value, !faults.search);
      }
    }
  }
}
