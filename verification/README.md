# Warehouse, flights and shop: a verified model

This project models three services of the repository and proves what they keep over whole runs. Each is a state
machine over stored tables with something to conserve.

**Warehouse consumer (hm6).** A consumer reads inventory events at least once and applies each to denormalised tables:
inventory by product and zone, its two copies, orders, and the event history. It runs a handler against the tables,
claims the event's id with a conditional insert, applies the handler's write list as one batch, and commits the offset.
A failure or a crash can fall between any two of these steps, and an interrupted batch may land in part and be replayed.

- `Warehouse`, `Handlers`: events, tables, writes, and the eight handlers; the two order handlers are loops over lines.
- `HandlerAnswers`: every answer of every handler, on the event's fields and the stored rows.
- `Effects`, `Ledger`, `OpenOrders`: what an accepted event means, conservation per key and per product, and why open
  orders stay covered.
- `Reordering`, `Replay`: the replay theorem for reordered and duplicated product and order events.
- `Batches`: partly applied and late batches, and agreement of the three inventory tables.
- `Store`, `LateBatches`: what the tables show while logged batches are still landing, what they settle on, and exactly
  when handling an event early comes to the same as handling it late.
- `Deliveries`: what becomes of each delivered message, and of whole runs: dead letters and applied events, exactly.
- `Protocol`, `Outcomes`, `Redelivery`, `Consumer`, `ConsumerLaws`, `FaithfulRuns`: the delivery protocol as a state machine, at-most-once
  application, outcome accounting, redelivery after a mark expires, and the consumer's classes, proved to take exactly
  the protocol's steps. The consumer goes on polling while an interrupted batch waits for its replay. A run whose events
  all have the effect they would have on the settled tables is called faithful; exactly in those runs the tables settle
  on a fold of the applied events, so every law about delivery sequences is a law about them. `FaithfulRuns` says which
  fields have to agree for that, event type by event type.

**Flight booking (hm3).** A flight service owns a seat ledger with a cache in front of it; a booking service runs sagas
over the two databases.

- `Seats`, `FlightService`: the two serializable transactions, their conservation laws, and the service's classes.
- `SeatAnswers`: every answer of a reserve and a release on the stored rows, and what bookings cost in every run.
- `Uuids`: the spellings of a UUID. Ids arrive as texts; the database reads any spelling and prints one.
- `FlightCache`: cache keys and the transparency of the cache for non-overlapping requests. A flight is stored under the
  id its row prints, and deleted under the spelling the caller sent; search codes compare without trailing blanks and
  make keys with them.
- `CacheRaces`: one cache key with interleaved readers and writers, generic in what is stored. `CacheProjection` shows
  every run of the service to be one schedule of these races on each flight's key.
- `Saga`, `BookingService`: any number of creates and cancels, interleaved, with calls that fail, calls whose reply is lost
  after they took effect, and crashes. Sagas are told by the rows their ids name.

**Shop orders (hm2).** Create, update and cancel orders over mutable stock, promo counters, price snapshots and rate
limits. Each public method is one transaction, and any exception rolls it back.

- `Discount`: the rounded and capped discount.
- `ShopTables`, `ShopService`: the tables, the transactions as functions, and the services' classes with their loops.
- `OrderAnswers`, `RequestAnswers`: every answer of every request on the stored rows, and the rows an accepted one leaves.
- `Stock`, `StockBounds`, `OrderPrices`, `Admission`: stock conservation and when stock stays non-negative, promo
  accounting and price integrity, and the admission bounds.

`MapSums` holds sums over finite maps. Run `dafny verify dfyconfig.toml` to check everything.

## How to read it

Methods of classes follow the imperative code. Each is proved to compute a function of the old state, and the laws are
lemmas about these functions over every state, every run and every interleaving. A choice of the environment (which call
fails, whether a commit succeeds, when a process dies, what the clock reads) is a parameter, and the laws hold for all of
them. A property that fails comes with a concrete run and with the exact condition under which it holds.

## Where the code and its documentation differ

The model follows the code.

- The processed-event mark is written before and outside the batch (hm6/consumer/main.py:306-334), not inside it as
  hm6/README.md:129-130 says. The provable statement is at most once: an id can be marked and never applied.
- The read-only duplicate check that hm6/README.md:122-126 describes is not made; the conditional insert decides.
- `handle_order_created` adds to reserved and never takes from available (hm6/consumer/handlers.py:418-424), contrary to
  its docstring, and checks each line of an order alone.
- The infrastructure branch says that Kafka will repeat the message, but returns without seeking back
  (hm6/consumer/main.py:391-402), so the next commit can pass it.
- The configured maximum of ten active orders in the shop is not read; the code allows one.

## Model

| member | source | states |
|---|---|---|
| `Handlers.DistinctKeysOnce` | hm6/consumer/handlers.py:400-446 | The keys of an order, repeated lines merged: every line's key is there, nothing else is, and each only once |
| `Handlers.ReserveLines` | hm6/consumer/handlers.py:396-432 | The loop over a new order's lines stops with exactly the first fault in line order, each line checked against available alone; otherwise every key read carries its sum of quantities added to reserved |
| `Handlers.FulfilLines` | hm6/consumer/handlers.py:502-524 | The loop over a stored order's lines stops with exactly the first fault, later lines of a key seeing what earlier ones took; otherwise every key carries its sum taken from reserved |
| `Handlers.HandleOrderCreated` | hm6/consumer/handlers.py:384-467 | The handler's outcome for every input: the empty-order and line faults, and otherwise one row per distinct key, the order row as created, and history |
| `Handlers.HandleOrderCompleted` | hm6/consumer/handlers.py:470-554 | The handler's outcome for every input: unknown order, an already completed one (history only), line faults, and otherwise rows, status update and history |
| `Handlers.EmitZoneWrites` | hm6/consumer/handlers.py:434-446 | The loop that emits three writes per distinct key, in order of first appearance |
| `HandlerAnswers.ProductAnswers` | hm6/consumer/handlers.py:149-381 | Each answer to each product event, if and only if: rejected for a negative quantity, for a move within one zone, skipped when a row it touches is as new or newer, rejected when it takes more than is available or, for a release, reserved; accepted otherwise |
| `HandlerAnswers.CreationAccepted` | hm6/consumer/handlers.py:384-467 | A new order is accepted if and only if it has lines and each by itself is non-negative, newer than its row, and within what is available; without lines it is rejected |
| `HandlerAnswers.CreationRefused` | hm6/consumer/handlers.py:400-424 | Otherwise the first line that does not fit decides between negative, stale and insufficient |
| `HandlerAnswers.CompletionAnswers` | hm6/consumer/handlers.py:470-554 | A completion is rejected exactly for an unknown order, writes history alone for a completed one, and is accepted exactly when completed or each line ships from what earlier lines left reserved |
| `HandlerAnswers.CompletionRefused` | hm6/consumer/handlers.py:502-524 | Otherwise the first line that cannot ship decides between stale and insufficient |
| `HandlerAnswers.HistoryIsFiled` | hm6/consumer/handlers.py:111-126 | Every accepted event is filed in the history under its day, time and id, with its product, zone and quantity, and nothing else there changes |
| `HandlerAnswers.CopiesAgree` | hm6/consumer/handlers.py:64-108 | After any delivery sequence the two copies of each inventory row exist with it and hold its available, reserved and timestamp |
| `Ledger.CreateFaultFree` | hm6/consumer/handlers.py:400-422 | A new order is accepted if and only if every line alone is non-negative, fresh, and within available |
| `Ledger.CompleteFaultExactly` | hm6/consumer/handlers.py:502-522 | For lines that are not negative, a completion has no fault if and only if every key of the order is fresh and its reserved covers the sum of the order's lines there |
| `Effects.ProductOps` | hm6/consumer/handlers.py:149-381 | Each accepted product event writes its one or two rows, in all three inventory tables, and then history |
| `Effects.OrderOps` | hm6/consumer/handlers.py:426-467 | Each accepted order event writes one row per distinct key, its order row, and then history |
| `Effects.HandlerMeaning` | hm6/consumer/handlers.py:149-554 | An accepted event changes exactly the rows of its keys, by amounts stated per event type, and its order; the three inventory tables stay equal |
| `Effects.ViewsAgree` | hm6/consumer/handlers.py:64-108 | After any delivery sequence the three inventory tables have the same keys, transposed, and equal available, reserved and timestamp |
| `Ledger.AcceptedIsFresh` | hm6/consumer/handlers.py:52-55 | No accepted event is older than, or as old as, a row it writes |
| `Ledger.RunNonNegative` | hm6/consumer/handlers.py:58-61 | After any delivery sequence no available, reserved or stored line quantity is negative |
| `Ledger.KeyLedger` | hm6/consumer/handlers.py:149-554 | Per product and zone, over any sequence: available and reserved are the signed sums of what accepted events received, shipped, moved, reserved, released, counted, ordered and completed; neither is negative |
| `Ledger.ProductLedger` | hm6/consumer/handlers.py:149-554 | Per product over all zones: availability is received minus shipped minus reserved plus released plus count adjustments; moves cancel and orders contribute nothing |
| `OpenOrders.OpenOrdersCovered` | hm6/consumer/handlers.py:316-554 | For every key, reserved plus everything ever released there covers the lines of all open orders, with repeated lines and re-created order ids |
| `OpenOrders.CompletionShortOnlyAfterRelease` | hm6/consumer/handlers.py:518-522 | A completion fails for insufficient reserved only if a release was accepted at one of that order's own keys |
| `OpenOrders.CompletionShortExactly` | hm6/consumer/handlers.py:514-522 | Over every sequence, a completion of an open order with no newer row in its way runs short if and only if some key has less reserved than the order's lines there add up to |
| `OpenOrders.CompletionAcceptedExactly` | hm6/consumer/handlers.py:482-522 | Over every sequence, a completion is accepted if and only if its order is known and already completed, or every key of it is fresh and covered |
| `OpenOrders.CompletionNeverShort` | hm6/consumer/handlers.py:518-522 | In runs without releases no completion ever fails for insufficient reserved |
| `OpenOrders.ReleaseStrandsOrder` | hm6/consumer/handlers.py:316-351 | A release can take an open order's reservation, after which its completion is rejected: a concrete run |
| `Replay.ReplayTheorem` | hm6/consumer/handlers.py:52-554 | Whatever product and order events were delivered, reordered, duplicated, stale or rejected, with no order id created twice in effect: the inventory and the orders are those of the events that took effect, in any timestamp order from empty tables, and in that replay none is stale or rejected |
| `Replay.EffectiveConflictsIncrease` | hm6/consumer/handlers.py:52-55 | Events that took effect on a common row, or on one order, did so in strict timestamp order |
| `Replay.FitsExactly` | hm6/consumer/handlers.py:384-554 | Along such a run an event takes effect if and only if it fits the machine below: a creation then finds no stored order, and a completion an open one that is older, with the lines of its one creation |
| `Replay.RecreationBreaksReplay` | hm6/consumer/handlers.py:449-452 | An order completed and then created again, both in effect, ends completed instead when replayed by timestamp: a concrete run |
| `Replay.InventoryIsLawful` | hm6/consumer/handlers.py:149-554 | The handlers read and write only their own keys and their own order, and replace only older rows |
| `Reordering.Commute` | hm6/consumer/handlers.py:149-554 | Accepted events with no key and no order in common may be exchanged: both still fit and the rows are the same |
| `Reordering.ConflictsIncrease` | hm6/consumer/handlers.py:52-55 | In any machine with these laws, accepted events that share a row are in strict timestamp order |
| `Reordering.SortedReplay` | hm6/consumer/handlers.py:52-554 | Every timestamp-ordered arrangement of the accepted events fits throughout and ends in the same rows |
| `Batches.HandlerBatchDistinct` | hm6/consumer/handlers.py:149-554 | No handler's write list touches a row of a table twice |
| `Batches.BatchConfluence` | hm6/consumer/cassandra_client.py:179-213 | Any part of such a batch, landed in any order and any number of times, followed by a full replay in any order, gives the tables of one clean application |
| `Batches.LatestWins` | hm6/consumer/cassandra_client.py:179-213 | With last-write-wins by write time, each row shows the latest statement that reached it, in whatever order they arrived |
| `Batches.HandlerBatchMirrored` | hm6/consumer/handlers.py:64-108 | Every batch writes a row to one inventory table exactly when it writes the same values to the other two |
| `Batches.ViewsConverge` | hm6/consumer/cassandra_client.py:179-213 | Once every batch is fully delivered, even long after later ones, the three inventory tables agree |
| `Redelivery.TimestampsGrow` | hm6/consumer/handlers.py:158-167 | Row timestamps never decrease |
| `Redelivery.RedeliveryIsHarmless` | hm6/consumer/handlers.py:486-497 | Applying an already applied event again, at any later time, changes no inventory or order row; a completion needs its order id to have been created once |
| `Redelivery.CompletionChangesExactly` | hm6/consumer/handlers.py:482-522 | A completion, delivered at all, changes rows if and only if its order is open and every key of it is fresh and covered |
| `Redelivery.ReopenedOrderBreaksIt` | hm6/consumer/handlers.py:449-452 | Re-creating an order id re-opens it, and the redelivered old completion ships the new order: a concrete run |
| `Store.LatestLandedShows` | hm6/consumer/cassandra_client.py:179-213 | A row shows the landed statement with the latest write time |
| `Store.LandingSettlesAlike` | hm6/consumer/cassandra_client.py:179-213 | What the tables settle on does not depend on how much of which batch has landed |
| `Store.UntouchedIsSettled` | hm6/consumer/cassandra_client.py:179-213 | A row that no pending batch writes already shows what it settles on |
| `Store.HandlersAreLocal` | hm6/consumer/handlers.py:149-554 | A handler's outcome depends on nothing but the rows and the order it reads |
| `LateBatches.BatchLands` | hm6/consumer/handlers.py:149-554 | What the batch of any accepted event, built from what was visible, makes of any tables it lands on |
| `LateBatches.EarlyIsLateExactly` | hm6/consumer/main.py:299-334 | Handling an event while earlier batches are landing equals handling it once they have landed, if and only if it is accepted there too and leaves the same rows and order |
| `LateBatches.SameEffectByRows` | hm6/consumer/handlers.py:149-467 | For every event but a completion, that means each of its rows comes out the same |
| `LateBatches.SameEffectByFields` | hm6/consumer/handlers.py:149-467 | For an accepted event that is no completion: if and only if at each of its rows the settled row is older and agrees in reserved, in available unless it is a count, and in the supplier unless it brings one |
| `LateBatches.CompletionSameEffectExactly` | hm6/consumer/handlers.py:470-554 | For an accepted completion, new to the settled rows: if and only if the order has the same status in both tables and, where it is open, the same keys, each with an older settled row that agrees in available, supplier, and reserved less the order's own share |
| `FaithfulRuns.RunsAreFoldsByFields` | hm6/consumer/main.py:196-429 | So the tables settle throughout on the applied events one after another if and only if every event is applied while those fields agree; no completion being applied again after its mark has expired |
| `Protocol.RunsAreFoldsExactly` | hm6/consumer/main.py:196-429 | In every run with crashes, redelivery, expiry and messages polled before interrupted batches are replayed: the tables settle throughout on the applied events one after another, if and only if every event applied has the effect it would have on the settled tables |
| `Protocol.UndisturbedIsFaithful` | hm6/consumer/main.py:391-402 | That holds whenever no event is applied while a pending batch writes a row or an order it reads |
| `Protocol.LateReplayLosesUpdate` | hm6/consumer/main.py:391-402 | The consumer does not wait for a replay, and a later event on the same row then loses the earlier one: a concrete run |
| `Protocol.AtMostOnce` | hm6/consumer/cassandra_client.py:125-163 | In every run, for every id: times applied plus times cut equals marks expired plus the live mark |
| `Protocol.AppliedAtMostOnce` | hm6/consumer/main.py:299-334 | While no mark of an id has expired, it is applied at most once, applied implies marked, and it is marked but unapplied only if it was cut between the two |
| `Protocol.LoggedBatchReplays` | hm6/consumer/cassandra_client.py:179-213 | An interrupted handler batch, once replayed, equals one clean application |
| `Protocol.SettledViewsAgree` | hm6/consumer/main.py:196-429 | In every run the three inventory tables settle on the same rows |
| `Protocol.ViewsAgreeInEveryRun` | hm6/consumer/main.py:196-429 | In every run, whenever every batch has landed the three inventory tables agree |
| `Outcomes.OneOutcome` | hm6/consumer/main.py:196-429 | A delivery the process survives counts exactly one of processed, failed and skipped and attempts exactly one commit, or takes the infrastructure branch and does neither; the taken branch is stated |
| `Outcomes.RejectedTouchesNothing` | hm6/consumer/main.py:336-389 | A rejected message goes to the dead letters, changes no table and marks no id |
| `Deliveries.DeliveryCounts` | hm6/consumer/main.py:196-419 | A delivery neither interrupted nor cut by a crash is failed and dead-lettered if and only if the message is undecodable, unrecognised, without id or rejected; skipped if and only if its handler skips it or its id is marked; processed if and only if accepted and new, and only then are its batch written and its id marked |
| `Deliveries.InterruptedDelivery` | hm6/consumer/main.py:391-402 | An interrupted delivery counts and sends nothing and commits nothing; it leaves exactly the mark and the statements that had reached the storage |
| `Deliveries.CrashKeepsStores` | hm6/consumer/main.py:422-429 | A crash before the commit loses counters and position, and nothing stored or sent |
| `Deliveries.ReadsExactly` | hm6/consumer/handlers.py:149-554 | A handler reads the tables if and only if what they show can keep it from rejecting the event |
| `Deliveries.DeadLettersExactly` | hm6/consumer/main.py:336-389 | In every run the dead letters are exactly the refused messages of its deliveries, in order |
| `Deliveries.RefusedIsDeadLettered` | hm6/consumer/main.py:336-389 | Every refused message whose delivery was not interrupted is in the dead letters ever after |
| `Deliveries.AppliedExactly` | hm6/consumer/main.py:299-334 | In every run the applied events are exactly those accepted under a new id whose batch was logged, in order |
| `Deliveries.LandingShows` | hm6/consumer/cassandra_client.py:179-213 | Statements that land later show after those that had landed, a replayed batch shows all of its own, and other batches stay |
| `Outcomes.CommittedNeverDecreases` | hm6/consumer/main.py:422-429 | Along every run the committed offset never decreases |
| `Outcomes.NothingLost` | hm6/consumer/main.py:391-402 | In runs that avoid the infrastructure branch every offset below the committed one has had an outcome |
| `Outcomes.CommitLosesExactly` | hm6/consumer/main.py:391-429 | A successful commit loses a message if and only if the infrastructure branch was taken before at an offset without an outcome, and neither a crash nor a rebalance has rewound the position since |
| `Outcomes.RunLosesExactly` | hm6/consumer/main.py:391-429 | A run loses a message for good if and only if it has such a commit; runs that rewind in time lose nothing |
| `Outcomes.InfrastructureBranchLoses` | hm6/consumer/main.py:391-402 | The infrastructure branch does lose messages: a concrete run |
| `ConsumerService.CassandraClient.MarkEventIfNew` | hm6/consumer/cassandra_client.py:125-163 | The conditional insert: new only if absent, and on failure recorded or not |
| `ConsumerService.CassandraClient.ExecuteBatch` | hm6/consumer/cassandra_client.py:179-213 | The loop that drops mark statements and counts the rest; an empty batch is not sent, an interrupted one is lost or joins the pending ones with what has landed of it |
| `ConsumerService.HandlerWritesNoMarks` | hm6/consumer/handlers.py:149-554 | No handler asks for an empty batch or puts the conditional insert into one |
| `ConsumerService.Consumer.ProcessOne` | hm6/consumer/main.py:196-419 | One message takes exactly the protocol's step on store, dead letters, counters and offsets, whatever is pending |
| `ConsumerService.Consumer.ClaimAndApply` | hm6/consumer/main.py:301-334 | The id is claimed before and outside the batch; a known id is skipped and committed |
| `ConsumerService.Consumer.ExecuteAndCommit` | hm6/consumer/main.py:332-419 | The batch, then the count and the commit, or the infrastructure branch |
| `ConsumerService.Consumer.CommitOffset` | hm6/consumer/main.py:422-429 | One commit attempt, whose failure is ignored |
| `ConsumerService.Consumer.SendToDlq` | hm6/consumer/main.py:336-389 | A failed message is counted, sent to the dead letters and committed |
| `ConsumerService.Consumer.ConsumeLoop` | hm6/consumer/main.py:170-193 | After any polls, with expiries, replays and reassignments between them, the consumer and its store are where exactly those moves of the protocol lead |
| `ConsumerLaws.NeverShowsNegative` | hm6/consumer/main.py:196-429 | In every run, whatever has landed of whatever batch, no table shows a negative quantity |
| `ConsumerLaws.LedgerInFaithfulRuns` | hm6/consumer/main.py:196-429 | Both ledgers hold of what the tables settle on in every run whose events have the effect they would have on the settled tables |
| `ConsumerLaws.OpenOrdersInFaithfulRuns` | hm6/consumer/main.py:196-429 | Open orders stay covered in every such run |
| `ConsumerLaws.DeliveryAppliesOnceOrNot` | hm6/consumer/main.py:299-334 | In every state a delivery, however interrupted, adds one batch of its event to what the tables settle on, or leaves that alone |
| `ConsumerLaws.ExpiryIsHarmless` | hm6/cassandra/schema.cql:67-73 | Redelivering an applied event after its mark expired, whatever interrupts it, changes no inventory or order row the tables settle on |
| `Seats.SeatsConserved` | hm3/flight-service/internal/repository/flight_repository.go:77-193 | Under any interleaving of reserve and release calls, available plus actively reserved seats of a flight is constant, and available stays between zero and total |
| `Seats.CallKeepsValid` | hm3/flight-service/migrations/000001_init.up.sql:19-38 | Every call keeps the tables' constraints and the bound on what a flight's reservations hold |
| `Seats.ActiveIsReleasable` | hm3/flight-service/internal/repository/flight_repository.go:139-193 | A release succeeds if and only if the reservation exists and is active; the seat constraint never blocks it |
| `Seats.ReservationsAge` | hm3/flight-service/internal/repository/flight_repository.go:165-181 | A reservation never disappears and only moves from active to released |
| `Seats.ReleasedExactlyOnce` | hm3/flight-service/internal/repository/flight_repository.go:161-193 | However many releases of a booking race, its seats are returned exactly once or still held |
| `FlightServices.FlightRepository.ReserveSeats` | hm3/flight-service/internal/repository/flight_repository.go:77-137 | All of the transaction or none of it, with the source's order of checks, the rows named by their ids in any spelling; the returned price is seats times price per seat |
| `FlightServices.FlightRepository.ReleaseReservation` | hm3/flight-service/internal/repository/flight_repository.go:139-193 | All of the transaction or none of it, with the source's order of checks; the flight returned is the reservation's |
| `SeatAnswers.ReserveAnswers` | hm3/flight-service/internal/repository/flight_repository.go:77-137 | A reserve succeeds if and only if the flight is stored, scheduled, has at least that positive number of seats free, and the booking id is new; each error if and only if its own check is the first to fail |
| `SeatAnswers.ReserveEffect` | hm3/flight-service/internal/repository/flight_repository.go:107-131 | It takes the seats from that flight alone, files one active reservation, and costs the seats times the flight's price |
| `SeatAnswers.ReleaseAnswers` | hm3/flight-service/internal/repository/flight_repository.go:139-193 | A release succeeds if and only if the reservation is stored, active, and its seats fit back; each error if and only if its own check is the first to fail |
| `SeatAnswers.ReleaseEffect` | hm3/flight-service/internal/repository/flight_repository.go:161-193 | It gives the seats back to the reservation's flight alone and marks the reservation released |
| `SeatAnswers.RequestedAnswers` | hm3/flight-service/internal/repository/flight_repository.go:77-193 | With ids as texts, a call succeeds if and only if they name rows for which it does |
| `SeatAnswers.RequestedErrors` | hm3/flight-service/internal/repository/flight_repository.go:84-127 | A reserve's errors come in the order of its checks, the booking id being read last |
| `SeatAnswers.ClosedFlightsSellNothing` | hm3/flight-service/internal/repository/flight_repository.go:98-100 | Under any interleaving of calls a flight that is not scheduled never gains an active reservation |
| `SeatAnswers.BookingsCostTheirSeats` | hm3/booking-service/internal/service/booking_service.go:54-76 | In every run of creates and cancels, every booking is for a positive number of seats on a scheduled flight and costs that number times the flight's price |
| `SeatAnswers.CreatesEndSo` | hm3/booking-service/internal/service/booking_service.go:54-94 | In every run a broken create had reserved its seats, an undone one holds none and has no booking, and a booked one has its booking |
| `Uuids.UuidExactly` | hm3/flight-service/migrations/000001_init.up.sql:4 | A text is read as a UUID if and only if it is 32 hexadecimal digits, with hyphens between groups of four at will and with or without braces around; it prints in lower case in groups of 8, 4, 4, 4 and 12 |
| `Uuids.PrintingIsIdempotent` | hm3/flight-service/migrations/000001_init.up.sql:4 | The text the database prints for a UUID is a spelling of it, and prints as itself |
| `Uuids.CaseMakesNoDifference` | hm3/flight-service/migrations/000001_init.up.sql:4 | Texts that differ in letter case name the same UUID |
| `Uuids.BracesSpellTheSame` | hm3/flight-service/migrations/000001_init.up.sql:4 | Every UUID has another spelling than its printed one |
| `FlightServices.FlightRepository.SearchFlights` | hm3/flight-service/internal/repository/flight_repository.go:42-75 | The row loop returns the search of the table |
| `FlightCache.SearchIsExact` | hm3/flight-service/internal/repository/flight_repository.go:47-52 | A row is listed if and only if its flight is listed and stored as it stands, scheduled, leaves on the date, and has the codes asked for with nothing but blanks more on either side |
| `FlightCache.SearchInOrder` | hm3/flight-service/internal/repository/flight_repository.go:42-75 | A search lists each such flight once, in order of departure |
| `FlightCache.TrimmedExactly` | hm3/flight-service/migrations/000001_init.up.sql:7-8 | Codes compare equal if and only if one is the other with blanks after it |
| `FlightCache.LookupExactly` | hm3/flight-service/internal/repository/flight_repository.go:23-40 | A flight is found if and only if the text names a stored row, and is that row |
| `FlightCache.SameLengthSameCode` | hm3/flight-service/migrations/000001_init.up.sql:7-8 | Codes of one length that are equal up to trailing blanks are equal |
| `FlightServices.FlightService.GetFlight` | hm3/flight-service/internal/service/flight_service.go:23-45 | Cache-aside read: looked up under the id as sent, otherwise the database row, which is stored under the row's own id if the cache takes it |
| `FlightServices.FlightService.SearchFlights` | hm3/flight-service/internal/service/flight_service.go:47-69 | Cache-aside search over the same two stores |
| `FlightServices.FlightService.ReserveSeats` | hm3/flight-service/internal/service/flight_service.go:71-81 | The repository's reservation, and on success the two invalidations under the id as sent, which may fail |
| `FlightServices.FlightService.ReleaseReservation` | hm3/flight-service/internal/service/flight_service.go:83-93 | The repository's release, and on success the two invalidations, which may fail |
| `FlightServices.FlightService.InvalidateFlightCache` | hm3/flight-service/internal/service/flight_service.go:95-112 | Drops the entry under the id as spelled and the search entry of the row's own route and date, each unless its deletion fails, and the latter unless the lookup fails |
| `FlightCache.SearchKeyInjective` | hm3/flight-service/internal/cache/redis_cache.go:135-137 | For codes of the schema's length, equal search keys mean equal searches |
| `FlightCache.DateTextInjective` | hm3/flight-service/internal/cache/redis_cache.go:135-137 | The date text determines the date |
| `FlightCache.KeysCollideExactly` | hm3/flight-service/internal/cache/redis_cache.go:135-137 | A search shares its key with another search if and only if there is a colon in one of its codes, for codes of any length |
| `FlightCache.CacheTransparency` | hm3/flight-service/internal/service/flight_service.go:23-112 | For any sequence of non-overlapping reads, searches, reserves, releases and expiries in which no two different searches share a key and every mutation's entries are covered, with cache reads and writes failing at will: every answer is the answer without a cache |
| `FlightCache.WorkingDropsCover` | hm3/flight-service/internal/service/flight_service.go:71-112 | They are covered when deletions work, reserves spell the flight's id as the database prints it, and codes have the schema's length |
| `FlightCache.CodesDiffer` | hm3/flight-service/internal/cache/redis_cache.go:135-137 | No two different searches, as spelled, share a key when all codes are free of colons, or all have the schema's length |
| `FlightCache.MutateKeepsFreshExactly` | hm3/flight-service/internal/service/flight_service.go:71-112 | A successful mutation leaves every entry fresh if and only if the entry under the row's id is absent, or deleted under that spelling, and every cached list asked for that holds the flight is deleted under the key of the row's own codes |
| `FlightCache.FailedDropServesStale` | hm3/flight-service/internal/service/flight_service.go:100-103 | A flight read, then changed with its deletion failing, is read stale: for every database and call |
| `FlightCache.OtherSpellingServesStale` | hm3/flight-service/internal/cache/redis_cache.go:65-81 | With every deletion working, a flight read and then reserved under another spelling of its id is read stale, for every database: the entry is stored under the row's id and deleted under the caller's |
| `FlightCache.EveryFlightHasAnotherSpelling` | hm3/flight-service/migrations/000001_init.up.sql:4 | Every reservation can be spelled so, with the same outcome |
| `FlightCache.BlankCodeServesStale` | hm3/flight-service/internal/repository/flight_repository.go:47-52 | With every deletion working, a search with a trailing blank in its origin, repeated after a change of a flight it lists, is answered with the old list, for every database |
| `FlightCache.SharedKeyExactly` | hm3/flight-service/internal/cache/redis_cache.go:135-137 | Of two searches sharing a key, the second is answered right if and only if the first finds nothing or both find the same |
| `FlightCache.ColonCodesBreakTransparency` | hm3/flight-service/internal/cache/redis_cache.go:135-137 | With a colon inside a code a search is answered with another search's list: a concrete run |
| `CacheRaces.ServedWasCommitted` | hm3/flight-service/internal/service/flight_service.go:23-45 | Under any interleaving of readers and writers, every value served was committed earlier |
| `CacheRaces.WhyStale` | hm3/flight-service/internal/service/flight_service.go:71-112 | If a cached value misses a version, that version's writer is between its commit and its delete, or a reader whose database read came before that commit set the entry after the delete |
| `CacheRaces.StalenessIsBounded` | hm3/flight-service/internal/cache/redis_cache.go:65-75 | A cached value was current no longer ago than the time to live plus its setter's delay |
| `CacheRaces.PromptExactly` | hm3/flight-service/internal/service/flight_service.go:23-112 | All through a run the entry misses only versions with a pending writer if and only if every set is prompt in that sense |
| `CacheRaces.PromptCacheIsCurrent` | hm3/flight-service/internal/service/flight_service.go:23-112 | So with prompt sets and no writer pending the cached value is the current one |
| `CacheRaces.SlowReaderLeavesStale` | hm3/flight-service/internal/service/flight_service.go:32-42 | A slow reader does leave a stale entry with no writer at work: a concrete run |
| `CacheProjection.RequestShows` | hm3/flight-service/internal/service/flight_service.go:23-112 | One request of the service, whatever fails and however ids are spelled, is some moves of the races on a flight's key with the same answer, row and entry |
| `CacheProjection.RunsAreSchedules` | hm3/flight-service/internal/service/flight_service.go:23-112 | So every run of requests, from an empty cache, is one schedule of the races on the flight's key: same row, same entry, same answers, and the key never misses a version that was deleted |
| `CacheProjection.AnswersAreRows` | hm3/flight-service/internal/service/flight_service.go:23-112 | In every run, with any deletion failing, every answer for a flight is a row it had at some point of the run |
| `CacheProjection.StaleEntryIsExplained` | hm3/flight-service/internal/service/flight_service.go:71-112 | A cached flight that is not the row goes back to a change of the row whose deletion failed or spelled the id another way |
| `Saga.EveryBookingIsReserved` | hm3/booking-service/internal/service/booking_service.go:54-94 | Under any interleaving of creates and cancels with failures, lost replies and crashes: every booking has a reservation of the same id, flight and seat count, and a cancelled one's is released |
| `Saga.OrphansAreExplained` | hm3/booking-service/internal/service/booking_service.go:54-85 | An active reservation without a booking belongs only to a create that has reserved and not finished, or that broke |
| `Saga.UnbackedAreExplained` | hm3/booking-service/internal/service/booking_service.go:107-134 | A confirmed booking without active seats belongs to a cancel cut between release and update, or to a create that broke |
| `Saga.LedgersDriftExactly` | hm3/booking-service/internal/service/booking_service.go:54-134 | At every moment the seats held on a flight are those of its confirmed bookings, plus the orphaned, minus the unbacked |
| `Saga.SettledLedger` | hm3/booking-service/internal/service/booking_service.go:54-134 | Once all sagas have ended without crash, failed compensation or failed status update, the seats taken from each flight are exactly those of its confirmed bookings |
| `Saga.OneCancelWins` | hm3/booking-service/internal/service/booking_service.go:107-134 | Of all cancels of one booking at most one gets past the release |
| `Saga.CompensationSucceeds` | hm3/booking-service/internal/service/booking_service.go:78-84 | The compensating release succeeds if and only if the call gets through, and then the seats are back |
| `Saga.CancellableExactly` | hm3/booking-service/internal/service/booking_service.go:107-134 | In every reachable world a confirmed booking can still be cancelled if and only if it is not stuck: its seats are active, or a cancel that released them has its update still to come |
| `Saga.CrashedCancelSticks` | hm3/booking-service/internal/service/booking_service.go:120-131 | Bookings do get stuck: a run in which a cancel crashes between release and update |
| `Saga.StuckForGood` | hm3/booking-service/internal/service/booking_service.go:120-133 | A stuck booking stays stuck, whatever any saga does |
| `Saga.InvKept` | hm3/booking-service/internal/service/booking_service.go:54-134 | Every step of every saga keeps the invariant behind these statements |
| `BookingServices.CreateIsAtomic` | hm3/booking-service/internal/service/booking_service.go:54-94 | With every call answering, a create books its seats at the reserved price or leaves bookings and free seats as they were |
| `BookingServices.FirstFaultExactly` | hm3/booking-service/internal/service/booking_service.go:29-43 | Each validation error if and only if its own field is missing, or the seat count not positive, with the fields before it in order |
| `BookingServices.CreateAnswers` | hm3/booking-service/internal/service/booking_service.go:54-94 | A create books if and only if the seats can be had, reserve and insert both answer, the id is new and the price positive; it writes the booking, at that price, unless the insert is not executed |
| `BookingServices.BookingService.CreateBooking` | hm3/booking-service/internal/service/booking_service.go:28-94 | Validation in the source's order, the flight lookup, then the saga's steps; each result, and each error, if and only if the saga ended that way |
| `BookingServices.BookingService.WriteBooking` | hm3/booking-service/internal/service/booking_service.go:78-93 | The insert, or the release that compensates for it |
| `BookingServices.BookingService.CancelBooking` | hm3/booking-service/internal/service/booking_service.go:107-134 | Load, release, update: the saga's steps on the row the id names; success, unknown, already cancelled, failed release and failed update each if and only if that step ended it |
| `BookingServices.BookingRepository.Create` | hm3/booking-service/internal/repository/booking_repository.go:19-48 | An insert that fits the constraints, with the flight's id as the database prints it, or an error with nothing, or everything, written |
| `BookingServices.BookingRepository.UpdateStatus` | hm3/booking-service/internal/repository/booking_repository.go:78-91 | An unconditional update of the row the id names, read back |
| `Saga.BookingsStay` | hm3/booking-service/internal/repository/booking_repository.go:50-76 | A booking once inserted is found by its id ever after, for the same request and price |
| `Discount.RoundedIsNearest` | hm2/src/main/java/com/example/shop/service/OrderService.java:379-384 | Half-up rounding: the one integer within half of the quotient, ties away from zero |
| `Discount.CapCommutesWithRounding` | hm2/src/main/java/com/example/shop/service/OrderService.java:377-391 | Capping after rounding equals rounding at the rate min(percent, 70%) |
| `Discount.DiscountIsExactToHalfACent` | hm2/src/main/java/com/example/shop/service/OrderService.java:377-391 | The discount is within half a cent of the exact amount at that rate |
| `Discount.DiscountedPriceBounds` | hm2/src/main/java/com/example/shop/service/OrderService.java:377-391 | The discounted price is never negative, never above the total, and at most half a cent below 30% of it |
| `Discount.DiscountedPriceIsMonotone` | hm2/src/main/java/com/example/shop/service/OrderService.java:377-391 | The discounted price never falls when the total rises |
| `ShopServices.OrderService.CreateOrder` | hm2/src/main/java/com/example/shop/service/OrderService.java:38-133 | The whole transaction: the new tables and the error, for every request; any error leaves everything as it was |
| `ShopServices.OrderService.UpdateOrder` | hm2/src/main/java/com/example/shop/service/OrderService.java:135-247 | The whole transaction, with the old lines given back before the new ones are checked |
| `ShopServices.OrderService.CancelOrder` | hm2/src/main/java/com/example/shop/service/OrderService.java:249-288 | The whole transaction: lines and promo use given back, status canceled |
| `ShopServices.OrderService.ValidateLines` | hm2/src/main/java/com/example/shop/service/OrderService.java:58-81 | The loop finds the first unknown or inactive product, and otherwise all shortfalls, each line checked alone |
| `ShopServices.OrderService.ReserveLines` | hm2/src/main/java/com/example/shop/service/OrderService.java:91-114 | The indexed loop takes every line from stock, repeated products in turn, and totals the price snapshots, which RequestAnswers.CreateFiles ties to the products |
| `ShopServices.OrderService.ReturnLines` | hm2/src/main/java/com/example/shop/service/OrderService.java:152-158 | The loop gives every line back, or stops at the first missing product |
| `ShopServices.OrderService.CheckRateLimit` | hm2/src/main/java/com/example/shop/service/OrderService.java:327-335 | Limited if and only if fewer whole seconds than the limit have passed since the latest such operation |
| `OrderAnswers.LimitedExactly` | hm2/src/main/java/com/example/shop/service/OrderService.java:327-335 | Limited if and only if some earlier operation of the user and kind lies less than the limit back |
| `OrderAnswers.LinesAnswers` | hm2/src/main/java/com/example/shop/service/OrderService.java:58-81 | Lines are refused if and only if some product is unknown or not active, or, all being sellable, some line asks for more than the stock |
| `OrderAnswers.FirstBadDecides` | hm2/src/main/java/com/example/shop/service/OrderService.java:59-65 | The first line that cannot be sold decides the error: unknown product, or not active |
| `OrderAnswers.ShortfallsInOrder` | hm2/src/main/java/com/example/shop/service/OrderService.java:67-81 | The shortfalls reported are those of exactly the lines that ask for more than the stock, in order, with what was asked and what there is |
| `OrderAnswers.PromoAnswers` | hm2/src/main/java/com/example/shop/service/OrderService.java:349-375 | A code is taken if and only if its promo is known, active, not used up, not expired, and the total meets its minimum; each refusal if and only if; taken, it has one more use and discounts the total |
| `OrderAnswers.NewPriceAnswers` | hm2/src/main/java/com/example/shop/service/OrderService.java:118-124 | An order with a code that is not blank is priced by it, and any other costs its total |
| `OrderAnswers.RepriceAnswers` | hm2/src/main/java/com/example/shop/service/OrderService.java:217-239 | A carried code stays and discounts, stays without effect when its promo is gone, or is dropped with its use given back when the total misses its minimum |
| `RequestAnswers.CreateAccepted` | hm2/src/main/java/com/example/shop/service/OrderService.java:38-133 | A create is accepted if and only if the caller is no seller, is not limited and has no open order, every line is sellable and in stock, the code works, and the transaction commits |
| `RequestAnswers.CreateRefused` | hm2/src/main/java/com/example/shop/service/OrderService.java:38-133 | Otherwise it gets the error of the first of these that fails |
| `RequestAnswers.CreateFiles` | hm2/src/main/java/com/example/shop/service/OrderService.java:83-130 | An accepted create files one order of the caller with one item per line in order, each with its product's present name and price, their cost as total; stock, promo and operations move by it, and nothing else changes |
| `RequestAnswers.UpdateAccepted` | hm2/src/main/java/com/example/shop/service/OrderService.java:135-247 | An update is accepted if and only if the order is known, the caller's or an admin's, still created, not limited, its old products are there, the new lines sellable and covered by the stock with the old ones given back, and the code works |
| `RequestAnswers.UpdateRefused` | hm2/src/main/java/com/example/shop/service/OrderService.java:136-183 | Otherwise it gets the error of the first check that fails |
| `RequestAnswers.UpdateUnpriced` | hm2/src/main/java/com/example/shop/service/OrderService.java:217-239 | With its lines in order, an update fails exactly for an unusable code, a missed minimum, or the commit |
| `RequestAnswers.UpdateFiles` | hm2/src/main/java/com/example/shop/service/OrderService.java:151-246 | An accepted update files the same user's order anew at the products' present names and prices, the old items being given back first |
| `RequestAnswers.FirstMissingDecides` | hm2/src/main/java/com/example/shop/service/OrderService.java:152-155 | The first item whose product is gone is the one reported |
| `RequestAnswers.CancelAnswers` | hm2/src/main/java/com/example/shop/service/OrderService.java:249-268 | A cancel is accepted if and only if the order is known, the caller's or an admin's, and created or awaiting payment, and its products are there; each error if and only if its check is the first to fail |
| `RequestAnswers.CancelFiles` | hm2/src/main/java/com/example/shop/service/OrderService.java:264-286 | It gives back the items and the code's use, marks the order canceled, and changes nothing else |
| `RequestAnswers.AddAnswers` | hm2/src/main/java/com/example/shop/service/ProductService.java:78-96 | Exactly sellers and admins add products, under new ids |
| `RequestAnswers.ManageAnswers` | hm2/src/main/java/com/example/shop/service/ProductService.java:98-125 | Exactly owners and admins edit a product's fields or archive it; it stays with its seller |
| `Admission.ChangedByOwner` | hm2/src/main/java/com/example/shop/service/OrderService.java:141-142 | An accepted update or cancel comes from an admin or the order's own buyer |
| `Admission.OnlyOwnersChangeOrders` | hm2/src/main/java/com/example/shop/service/OrderService.java:337-347 | In every run an order changes only by requests of an admin or its own buyer |
| `ShopServices.OrderService.ApplyPromoCode` | hm2/src/main/java/com/example/shop/service/OrderService.java:349-375 | The promo's checks in order, and on success one more use and the discounted price |
| `ShopServices.OrderService.RepriceOrder` | hm2/src/main/java/com/example/shop/service/OrderService.java:217-239 | Keeps, drops or newly applies a promo for the new total |
| `ShopServices.OrderService.CalculateDiscount` | hm2/src/main/java/com/example/shop/service/OrderService.java:377-391 | The rounded and capped discount |
| `ShopServices.Database.FindLastOperationTime` | hm2/src/main/java/com/example/shop/repository/UserOperationRepository.java:15-18 | The maximum time over the user's operations of one kind |
| `ShopServices.ProductService.CreateProduct` | hm2/src/main/java/com/example/shop/service/ProductService.java:78-96 | Sellers and admins add products they own |
| `ShopServices.ProductService.UpdateProduct` | hm2/src/main/java/com/example/shop/service/ProductService.java:98-114 | Owners and admins set name, price, stock and status |
| `ShopServices.ProductService.DeleteProduct` | hm2/src/main/java/com/example/shop/service/ProductService.java:116-125 | Deleting archives the product |
| `Stock.WrapIsModulo` | hm2/src/main/java/com/example/shop/service/OrderService.java:99 | A wrapping int keeps the low 32 bits as a signed number |
| `Stock.ShiftedAt` | hm2/src/main/java/com/example/shop/service/OrderService.java:94-114 | A loop over lines moves each product's stock by the sum of its lines and changes nothing else |
| `Stock.OrderRequestMoves` | hm2/src/main/java/com/example/shop/service/OrderService.java:57-270 | Every accepted create, update and cancel moves between stock and orders exactly the same quantity of each product |
| `Stock.StockConserved` | hm2/src/main/java/com/example/shop/service/OrderService.java:57-270 | Over every run, repeated products and rollbacks included: stock plus the quantities in non-canceled orders is the initial sum plus the sellers' net edits, up to 32-bit wrap-around |
| `Stock.StockExactly` | hm2/src/main/java/com/example/shop/service/OrderService.java:57-270 | Over every run the stock is the exact balance wrapped, and the ledger balances exactly if and only if that balance fits a Java int |
| `StockBounds.CheckedLineFits` | hm2/src/main/java/com/example/shop/service/OrderService.java:69 | Without repeated products, checking each line alone checks the sum |
| `StockBounds.NegativeExactly` | hm2/src/main/java/com/example/shop/service/OrderService.java:152-211 | One request that names no product twice makes a stock negative if and only if it is an accepted update or cancel returning more than the stock has room for |
| `StockBounds.NonNegativeExactly` | hm2/src/main/java/com/example/shop/service/OrderService.java:57-270 | In a run of requests that name no product twice, stock stays non-negative all along if and only if no update or cancel overflows it so |
| `StockBounds.StockNeverNegative` | hm2/src/main/java/com/example/shop/service/OrderService.java:57-270 | And then the ledger balances exactly |
| `StockBounds.LeavingRoomSuffices` | hm2/src/main/java/com/example/shop/service/ProductService.java:108 | Sellers who leave room for what the orders hold keep every stock from overflowing |
| `StockBounds.ReturnOverflows` | hm2/src/main/java/com/example/shop/service/OrderService.java:264-270 | A seller sets the largest stock, and a cancel makes it negative: a concrete run |
| `StockBounds.OversellsExactly` | hm2/src/main/java/com/example/shop/service/OrderService.java:69 | An accepted create makes a product's stock negative if and only if its lines for it add up to more than the stock |
| `StockBounds.UpdateOversellsExactly` | hm2/src/main/java/com/example/shop/service/OrderService.java:172 | An accepted update does if and only if its lines exceed the stock with the old lines given back, or giving them back overflows it |
| `StockBounds.RepeatedLineOversells` | hm2/src/main/java/com/example/shop/service/OrderService.java:58-81 | Two lines for the last item are accepted and leave a stock of minus one: a concrete request |
| `OrderPrices.PromoAccounting` | hm2/src/main/java/com/example/shop/service/OrderService.java:217-375 | In every reachable state a promo's uses are its initial uses plus the change in non-canceled orders carrying it, and never exceed its maximum |
| `OrderPrices.PricesAlwaysAddUp` | hm2/src/main/java/com/example/shop/service/OrderService.java:91-239 | In every reachable state each order's total is its snapshot prices times quantities, its discounted price is the total less the discount or the total itself, and it meets its promo's minimum |
| `OrderPrices.OwedIsBounded` | hm2/src/main/java/com/example/shop/service/OrderService.java:349-391 | So what is owed lies between zero and the total, and at least 30% of it less half a cent |
| `OrderPrices.SnapshotsStay` | hm2/src/main/java/com/example/shop/service/OrderService.java:102-113 | Until its own next update an order keeps its items and prices, whatever happens to the products |
| `OrderPrices.RequestAccounts` | hm2/src/main/java/com/example/shop/service/OrderService.java:217-375 | One request changes uses and carrying orders together, and keeps all prices consistent |
| `Admission.AtMostOneActiveOrder` | hm2/src/main/java/com/example/shop/service/OrderService.java:50-55 | No user ever has more than one order that is created or awaiting payment |
| `Admission.AdmittedIsLate` | hm2/src/main/java/com/example/shop/service/OrderService.java:327-335 | An operation the limit lets through comes at least the limit after each earlier one of its kind |
| `Admission.SpacedInEveryRun` | hm2/src/main/java/com/example/shop/service/OrderService.java:129-130 | In every run a user's creates, and updates, lie at least the limit apart |
| `Admission.EveryCreateIsRecorded` | hm2/src/main/java/com/example/shop/service/OrderService.java:393-400 | The recorded operations are exactly the accepted creates |
| `Admission.CreatesAreBounded` | hm2/src/main/java/com/example/shop/service/OrderService.java:47-130 | In any interval of L seconds a user's accepted creates number at most L divided by the limit, plus one |

## Left out

- ConsumerLaws.ExpiryIsHarmless: for completions it asks that the order id was created once, since a re-created id does break it (Redelivery.ReopenedOrderBreaksIt), and it holds in faithful runs.
- Outcomes.NothingLost: holds only for runs that avoid the infrastructure branch; Outcomes.RunLosesExactly says exactly which runs lose a message.
- Stock.StockConserved: equality is up to 32-bit wrap-around, which is all that a Java int keeps; Stock.StockExactly says exactly when it is plain equality.
- FlightCache.CacheTransparency: requests do not overlap; overlap is the subject of CacheRaces. It asks that every mutation's entries are covered: a failed deletion, another spelling of the flight's id, and a search code with trailing blanks each break it (FlightCache.FailedDropServesStale, OtherSpellingServesStale, BlankCodeServesStale).
- FlightCache.WorkingDropsCover: asks for codes of the schema's length, and for reserves that spell the flight's id as it is printed; releases take it from the reservation, so always do.
- Uuids.Uuid: spellings are those the database documents (letter case, hyphens after groups of four digits, braces).
- Replay.ReplayTheorem: order ids created twice in effect are excluded, since they break it (Replay.RecreationBreaksReplay), and so are completions of completed orders, which write history alone.
- CacheRaces follows one key at a time, with every writer deleting the key once after its commit; a writer that dies before its delete leaves the key to its time to live.
- ConsumerLaws.LedgerInFaithfulRuns: holds only in faithful runs; in others an update can be lost (Protocol.LateReplayLosesUpdate). The exact condition is Protocol.RunsAreFoldsExactly, and FaithfulRuns.RunsAreFoldsByFields in terms of fields.
- FaithfulRuns.RunsAreFoldsByFields: a completion applied again after its mark expired is excluded, because handled while its own first batch is still landing it leaves the same rows in another way; Protocol.RunsAreFoldsExactly covers it.
- Write times of batches grow with their order of execution, as those of one client with a monotonic clock do.
- The event history is modelled as rows that handlers insert; its expiry and the JSON text of its payload are not.
- Quantities are unbounded integers in the consumer; a value outside Cassandra's bigint would fail the batch, which is one of the failures covered.
- Events with missing fields, failures to send to the dead letters, and the deserialiser are not part of the model beyond a message that cannot be decoded.
- A consumer has one partition; a rebalance moves its position back to the committed offset.
- The text form of order lines in the orders table is a sequence of lines.
- The is_event_processed query is not called by the consumer and is not modelled.
- Flight and booking prices are whole cents instead of floating point.
- Flights are identified by what the cache and the ledger read; number, airline, arrival time and creation time are left out, as are a booking's two timestamps.
- Rows with equal departure times come in one fixed order.
- Callers that reach the flight service's release directly, past the booking service, are outside the saga model.
- An authentication failure, a deadline or a serialization failure of a transaction is a call that was not executed.
- Listing bookings, listing and reading orders, product listing, and conversion to responses read tables only.
- A promo is identified by its code, which the schema makes unique.
- Use counts of promos are unbounded integers.
- Transactions of the shop run one at a time; the code has no locks or versions, and concurrent transactions are not modelled.
- A value that does not fit its column, and every other database error, is a transaction that does not commit.
- Blank promo codes are those of spaces, tabs and line ends; the request pattern admits only capitals, digits and underscores in any case.
- Product descriptions and categories, user accounts and tokens, and Hibernate's handling of collections are left out.
- The generator, aggregation and ranking of hm5, the producer of hm6, and hm1, hm4 and hm7 hold no comparable state machine.
- HTTP, gRPC, Avro, Kafka, Cassandra, Redis and Postgres internals, metrics, logging and dashboards are left out; what is assumed of storage is atomic steps, the conditional insert, batches with replay, rollback and expiry.
