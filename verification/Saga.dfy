/**
 * Bookings over two databases. Creating reserves seats, inserts the booking, and releases the seats if the
 * insert fails; cancelling releases the seats and then updates the booking. Any number of these sagas interleave.
 */
module Saga {
  import opened MapSums
  import opened Seats

  datatype BookingStatus = Confirmed | Cancelled

  datatype Request = Request(userId: string, passengerName: string, passengerEmail: string, flightId: string, seatCount: int)

  datatype Booking = Booking(request: Request, totalPrice: int, status: BookingStatus)

  // How a call over the network ends: its true result, an error although it took effect, or an error instead.
  datatype Reply = Answered | Lost | NotExecuted

  // Where a saga stands: the names say which call comes next, or how it ended. A broken saga crashed or lost
  // a call after its first effect. Compensating remembers whether the failed insert took effect all the same.
  datatype CreateStage = Reserving | Inserting(totalPrice: int) | Compensating(written: bool) | Booked | Undone | Broken
  datatype CancelStage = Loading | Releasing | Updating | Finished | Refused | Stranded

  datatype Create = Create(request: Request, stage: CreateStage)
  datatype Cancel = Cancel(bookingId: string, stage: CancelStage)

  datatype World = World(db: Db, bookings: map<string, Booking>, creates: map<string, Create>, cancels: map<nat, Cancel>)

  datatype Move =
    | StartCreate(id: string, request: Request)
    | CreateCall(id: string, reply: Reply, now: int)
    | CreateCrash(id: string)
    | StartCancel(cancel: nat, bookingId: string)
    | CancelCall(cancel: nat, reply: Reply, now: int)
    | CancelCrash(cancel: nat)

  /** The insert the bookings table accepts: a new id, and the two positive columns. */
  predicate CanInsert(bookings: map<string, Booking>, id: string, request: Request, totalPrice: int) {
    id !in bookings && request.seatCount > 0 && totalPrice > 0
  }

  function InStage(w: World, id: string, stage: CreateStage): World
    requires id in w.creates
  {
    w.(creates := w.creates[id := w.creates[id].(stage := stage)])
  }

  function ReserveStep(w: World, id: string, reply: Reply, now: int): World
    requires id in w.creates
  {
    var request := w.creates[id].request;
    var out := Reserve(w.db, request.flightId, id, request.seatCount, now);
    if reply.NotExecuted? || out.Failed? then InStage(w, id, Undone)
    else InStage(w.(db := out.db), id, if reply.Lost? then Broken else Inserting(out.total))
  }

  function InsertStep(w: World, id: string, totalPrice: int, reply: Reply): World
    requires id in w.creates
  {
    var request := w.creates[id].request;
    if reply.NotExecuted? || !CanInsert(w.bookings, id, request, totalPrice) then InStage(w, id, Compensating(false))
    else
      InStage(w.(bookings := w.bookings[id := Booking(request, totalPrice, Confirmed)]), id,
              if reply.Lost? then Compensating(true) else Booked)
  }

  function CompensateStep(w: World, id: string, written: bool, reply: Reply, now: int): World
    requires id in w.creates
  {
    var out := Release(w.db, id, now);
    if reply.NotExecuted? || out.Failed? then InStage(w, id, Broken)
    else InStage(w.(db := out.db), id, if written then Broken else Undone)
  }

  function CreateStep(w: World, id: string, reply: Reply, now: int): World
    requires id in w.creates
  {
    match w.creates[id].stage
    case Reserving => ReserveStep(w, id, reply, now)
    case Inserting(totalPrice) => InsertStep(w, id, totalPrice, reply)
    case Compensating(written) => CompensateStep(w, id, written, reply, now)
    case _ => w
  }

  function AtStage(w: World, k: nat, stage: CancelStage): World
    requires k in w.cancels
  {
    w.(cancels := w.cancels[k := w.cancels[k].(stage := stage)])
  }

  function ReleaseStep(w: World, k: nat, reply: Reply, now: int): World
    requires k in w.cancels
  {
    var out := Release(w.db, w.cancels[k].bookingId, now);
    if reply.NotExecuted? || out.Failed? then AtStage(w, k, Refused)
    else AtStage(w.(db := out.db), k, if reply.Lost? then Stranded else Updating)
  }

  function UpdateStep(w: World, k: nat, reply: Reply): World
    requires k in w.cancels
  {
    var id := w.cancels[k].bookingId;
    if reply.NotExecuted? then AtStage(w, k, Stranded)
    else if id !in w.bookings then AtStage(w, k, Finished)
    else AtStage(w.(bookings := w.bookings[id := w.bookings[id].(status := BookingStatus.Cancelled)]), k, Finished)
  }

  function CancelStep(w: World, k: nat, reply: Reply, now: int): World
    requires k in w.cancels
  {
    var id := w.cancels[k].bookingId;
    match w.cancels[k].stage
    case Loading =>
      AtStage(w, k, if reply.Answered? && id in w.bookings && w.bookings[id].status == Confirmed then Releasing else Refused)
    case Releasing => ReleaseStep(w, k, reply, now)
    case Updating => UpdateStep(w, k, reply)
    case _ => w
  }

  /** A crash ends a saga where it stands. It leaves nothing behind only before the first call. */
  function CreateCrashed(stage: CreateStage): CreateStage {
    match stage
    case Reserving => Undone
    case Inserting(_) => Broken
    case Compensating(_) => Broken
    case _ => stage
  }

  function CancelCrashed(stage: CancelStage): CancelStage {
    match stage
    case Loading => Refused
    case Releasing => Refused
    case Updating => Stranded
    case _ => stage
  }

  function Next(w: World, m: Move): World {
    match m
    case StartCreate(id, request) =>
      // A new saga draws a random id, different from every earlier one.
      if id in w.creates then w else w.(creates := w.creates[id := Create(request, Reserving)])
    case CreateCall(id, reply, now) => if id in w.creates then CreateStep(w, id, reply, now) else w
    case CreateCrash(id) => if id in w.creates then InStage(w, id, CreateCrashed(w.creates[id].stage)) else w
    case StartCancel(k, id) => if k in w.cancels then w else w.(cancels := w.cancels[k := Cancel(id, Loading)])
    case CancelCall(k, reply, now) => if k in w.cancels then CancelStep(w, k, reply, now) else w
    case CancelCrash(k) => if k in w.cancels then AtStage(w, k, CancelCrashed(w.cancels[k].stage)) else w
  }

  // ---------- What every step keeps ----------

  function Find<V>(m: map<string, V>, id: string): Option<V> {
    if id in m then Some(m[id]) else None
  }

  predicate Matches(r: Reservation, request: Request) {
    r.flightId == request.flightId && r.seatCount == request.seatCount && (r.status == Active || r.status == Released)
  }

  // An active reservation without a booking, and the other way round.
  predicate Orphaned(r: Option<Reservation>, b: Option<Booking>) {
    r.Some? && r.value.status == Active && !(b.Some? && b.value.status == Confirmed)
  }

  predicate Unbacked(r: Option<Reservation>, b: Option<Booking>) {
    b.Some? && b.value.status == Confirmed && !(r.Some? && r.value.status == Active)
  }

  /** What the stage of a create says about its reservation and its booking. */
  predicate StageOk(stage: CreateStage, r: Option<Reservation>, b: Option<Booking>) {
    match stage
    case Reserving => r.None? && b.None?
    case Inserting(_) => b.None? && r.Some? && r.value.status == Active
    case Compensating(written) => if written then b.Some? else b.None? && r.Some? && r.value.status == Active
    case Booked => b.Some?
    case Undone => b.None? && (r.Some? ==> r.value.status == Released)
    case Broken => true
  }

  // Everything known about one id; `cut` says that a cancel released its seats and has not updated its booking.
  predicate IdOk(c: Option<Create>, r: Option<Reservation>, b: Option<Booking>, cut: bool) {
    && (r.Some? ==> c.Some? && Matches(r.value, c.value.request))
    && (b.Some? ==> r.Some? && b.value.request == c.value.request)
    && (b.Some? && b.value.status == BookingStatus.Cancelled ==> r.value.status == Released)
    && (Unbacked(r, b) ==> cut || c.value.stage.Broken?)
    && (c.Some? ==> StageOk(c.value.stage, r, b))
  }

  predicate CancelOk(c: Cancel, r: Option<Reservation>, b: Option<Booking>) {
    && (c.stage.Releasing? ==> b.Some?)
    && (c.stage.Updating? || c.stage.Stranded? ==> b.Some? && r.Some? && r.value.status == Released)
    && (c.stage.Finished? ==> b.Some? && b.value.status == BookingStatus.Cancelled)
  }

  predicate Cuts(c: Cancel, id: string) {
    c.bookingId == id && (c.stage.Updating? || c.stage.Stranded?)
  }

  predicate Cut(w: World, id: string) {
    exists k :: k in w.cancels && Cuts(w.cancels[k], id)
  }

  predicate Fine(w: World, id: string) {
    IdOk(Find(w.creates, id), Find(w.db.reservations, id), Find(w.bookings, id), Cut(w, id))
  }

  predicate CancelFine(w: World, k: nat)
    requires k in w.cancels
  {
    var id := w.cancels[k].bookingId;
    CancelOk(w.cancels[k], Find(w.db.reservations, id), Find(w.bookings, id))
  }

  ghost predicate Inv(w: World) {
    && Valid(w.db)
    && (forall id :: Fine(w, id))
    && (forall k :: k in w.cancels ==> CancelFine(w, k))
  }

  // The id a move can touch.
  function Subject(w: World, m: Move): Option<string> {
    match m
    case StartCreate(id, _) => Some(id)
    case CreateCall(id, _, _) => Some(id)
    case CreateCrash(id) => Some(id)
    case StartCancel(_, id) => Some(id)
    case CancelCall(k, _, _) => if k in w.cancels then Some(w.cancels[k].bookingId) else None
    case CancelCrash(k) => if k in w.cancels then Some(w.cancels[k].bookingId) else None
  }

  lemma OthersKept(w: World, m: Move, id: string)
    requires Subject(w, m) != Some(id)
    ensures var w' := Next(w, m);
      && Find(w'.creates, id) == Find(w.creates, id)
      && Find(w'.bookings, id) == Find(w.bookings, id)
      && Find(w'.db.reservations, id) == Find(w.db.reservations, id)
  {
  }

  /** The call a move makes to the flight service, if it gets there. */
  function FlightCall(w: World, m: Move): Option<Call> {
    if m.CreateCall? && m.id in w.creates && !m.reply.NotExecuted? then
      var request := w.creates[m.id].request;
      match w.creates[m.id].stage
      case Reserving => Some(ReserveCall(request.flightId, m.id, request.seatCount, m.now))
      case Compensating(_) => Some(ReleaseCall(m.id, m.now))
      case _ => None
    else if m.CancelCall? && m.cancel in w.cancels && !m.reply.NotExecuted? && w.cancels[m.cancel].stage.Releasing? then
      Some(ReleaseCall(w.cancels[m.cancel].bookingId, m.now))
    else None
  }

  lemma DbStep(w: World, m: Move)
    ensures Next(w, m).db == if FlightCall(w, m).Some? then After(w.db, FlightCall(w, m).value) else w.db
  {
  }

  lemma CutKept(w: World, m: Move, id: string)
    requires Cut(w, id)
    ensures Cut(Next(w, m), id) || (id in Next(w, m).bookings && Next(w, m).bookings[id].status == BookingStatus.Cancelled)
      || id !in w.bookings
  {
    var k :| k in w.cancels && Cuts(w.cancels[k], id);
    var w' := Next(w, m);
    assert k in w'.cancels;
    if !Cuts(w'.cancels[k], id) {
      assert m.CancelCall? && m.cancel == k;
    }
  }

  lemma ReserveKeepsFine(w: World, id: string, reply: Reply, now: int)
    requires Fine(w, id) && id in w.creates && w.creates[id].stage.Reserving?
    ensures Fine(ReserveStep(w, id, reply, now), id)
  {
    assert Cut(ReserveStep(w, id, reply, now), id) == Cut(w, id);
  }

  lemma InsertKeepsFine(w: World, id: string, totalPrice: int, reply: Reply)
    requires Fine(w, id) && id in w.creates && w.creates[id].stage == Inserting(totalPrice)
    ensures Fine(InsertStep(w, id, totalPrice, reply), id)
  {
    assert Cut(InsertStep(w, id, totalPrice, reply), id) == Cut(w, id);
  }

  lemma CompensateKeepsFine(w: World, id: string, written: bool, reply: Reply, now: int)
    requires Fine(w, id) && id in w.creates && w.creates[id].stage == Compensating(written)
    ensures Fine(CompensateStep(w, id, written, reply, now), id)
  {
    assert Cut(CompensateStep(w, id, written, reply, now), id) == Cut(w, id);
  }

  lemma CreateKeepsFine(w: World, m: Move, id: string)
    requires Fine(w, id) && (m.StartCreate? || m.CreateCall? || m.CreateCrash?) && m.id == id
    ensures Fine(Next(w, m), id)
  {
    assert Cut(Next(w, m), id) == Cut(w, id);
    if m.CreateCall? && id in w.creates {
      match w.creates[id].stage
      case Reserving => ReserveKeepsFine(w, id, m.reply, m.now);
      case Inserting(totalPrice) => InsertKeepsFine(w, id, totalPrice, m.reply);
      case Compensating(written) => CompensateKeepsFine(w, id, written, m.reply, m.now);
      case _ =>
    }
  }

  lemma ReleaseKeepsFine(w: World, k: nat, reply: Reply, now: int)
    requires k in w.cancels && Fine(w, w.cancels[k].bookingId) && CancelFine(w, k) && w.cancels[k].stage.Releasing?
    ensures Fine(ReleaseStep(w, k, reply, now), w.cancels[k].bookingId)
  {
    var id := w.cancels[k].bookingId;
    var w' := ReleaseStep(w, k, reply, now);
    if w'.db == w.db {
      StageCutKept(w, k, Refused);
    } else {
      assert Cuts(w'.cancels[k], id);
    }
  }

  lemma UpdateKeepsFine(w: World, k: nat, reply: Reply)
    requires k in w.cancels && Fine(w, w.cancels[k].bookingId) && CancelFine(w, k) && w.cancels[k].stage.Updating?
    ensures Fine(UpdateStep(w, k, reply), w.cancels[k].bookingId)
  {
    if reply.NotExecuted? {
      assert Cuts(UpdateStep(w, k, reply).cancels[k], w.cancels[k].bookingId);
    }
  }

  // A cancel that is not itself cutting can move to another stage without hiding a cut.
  lemma StageCutKept(w: World, k: nat, stage: CancelStage)
    requires k in w.cancels
    requires w.cancels[k].stage.Updating? || w.cancels[k].stage.Stranded? ==> stage.Stranded?
    ensures Cut(w, w.cancels[k].bookingId) ==> Cut(AtStage(w, k, stage), w.cancels[k].bookingId)
  {
    var id := w.cancels[k].bookingId;
    if Cut(w, id) {
      var j :| j in w.cancels && Cuts(w.cancels[j], id);
      assert Cuts(AtStage(w, k, stage).cancels[j], id);
    }
  }

  lemma CancelKeepsFine(w: World, m: Move, id: string)
    requires Inv(w) && (m.StartCancel? || m.CancelCall? || m.CancelCrash?) && Subject(w, m) == Some(id)
    ensures Fine(Next(w, m), id)
  {
    assert Fine(w, id);
    if Cut(w, id) {
      CutKept(w, m, id);
    }
    if m.CancelCall? {
      match w.cancels[m.cancel].stage
      case Releasing => ReleaseKeepsFine(w, m.cancel, m.reply, m.now);
      case Updating => UpdateKeepsFine(w, m.cancel, m.reply);
      case _ =>
    }
  }

  lemma FineKept(w: World, m: Move, id: string)
    requires Inv(w)
    ensures Fine(Next(w, m), id)
  {
    assert Fine(w, id);
    if Subject(w, m) == Some(id) {
      if m.StartCreate? || m.CreateCall? || m.CreateCrash? {
        CreateKeepsFine(w, m, id);
      } else {
        CancelKeepsFine(w, m, id);
      }
    } else {
      OthersKept(w, m, id);
      if Cut(w, id) {
        CutKept(w, m, id);
      }
    }
  }

  // Rows are never removed, and neither status is ever taken back.
  predicate Later(r: Option<Reservation>, b: Option<Booking>, r': Option<Reservation>, b': Option<Booking>) {
    && (r.Some? ==> r'.Some? && Ages(r.value, r'.value))
    && (b.Some? ==> b'.Some? && (b'.value == b.value || b'.value == b.value.(status := BookingStatus.Cancelled)))
  }

  lemma CreateIsLater(w: World, id: string, reply: Reply, now: int)
    requires id in w.creates
    ensures var w' := CreateStep(w, id, reply, now);
      Later(Find(w.db.reservations, id), Find(w.bookings, id), Find(w'.db.reservations, id), Find(w'.bookings, id))
  {
  }

  lemma CancelIsLater(w: World, k: nat, reply: Reply, now: int)
    requires k in w.cancels
    ensures var w' := CancelStep(w, k, reply, now); var id := w.cancels[k].bookingId;
      Later(Find(w.db.reservations, id), Find(w.bookings, id), Find(w'.db.reservations, id), Find(w'.bookings, id))
  {
  }

  lemma NextIsLater(w: World, m: Move, id: string)
    ensures var w' := Next(w, m);
      Later(Find(w.db.reservations, id), Find(w.bookings, id), Find(w'.db.reservations, id), Find(w'.bookings, id))
  {
    if Subject(w, m) != Some(id) {
      OthersKept(w, m, id);
    } else if m.CreateCall? && id in w.creates {
      CreateIsLater(w, id, m.reply, m.now);
    } else if m.CancelCall? {
      CancelIsLater(w, m.cancel, m.reply, m.now);
    }
  }

  lemma OwnCancelKept(w: World, k: nat, reply: Reply, now: int)
    requires k in w.cancels && Fine(w, w.cancels[k].bookingId) && CancelFine(w, k)
    ensures CancelFine(CancelStep(w, k, reply, now), k)
  {
  }

  lemma IdleCancelKept(w: World, m: Move, k: nat)
    requires k in w.cancels && !((m.CancelCall? || m.CancelCrash?) && m.cancel == k)
    ensures k in Next(w, m).cancels && Next(w, m).cancels[k] == w.cancels[k]
  {
  }

  lemma CancelFineKept(w: World, m: Move, k: nat)
    requires Inv(w) && k in w.cancels
    ensures k in Next(w, m).cancels && CancelFine(Next(w, m), k)
  {
    var id := w.cancels[k].bookingId;
    assert CancelFine(w, k) && Fine(w, id);
    if m.CancelCall? && m.cancel == k {
      OwnCancelKept(w, k, m.reply, m.now);
    } else if !(m.CancelCrash? && m.cancel == k) {
      IdleCancelKept(w, m, k);
      NextIsLater(w, m, id);
    }
  }

  lemma NewCancelFine(w: World, m: Move, k: nat)
    requires k !in w.cancels && k in Next(w, m).cancels
    ensures CancelFine(Next(w, m), k)
  {
  }

  lemma InvKept(w: World, m: Move)
    requires Inv(w)
    ensures Inv(Next(w, m))
  {
    DbStep(w, m);
    if FlightCall(w, m).Some? {
      CallKeepsValid(w.db, FlightCall(w, m).value);
    }
    forall id ensures Fine(Next(w, m), id) {
      FineKept(w, m, id);
    }
    forall k | k in Next(w, m).cancels ensures CancelFine(Next(w, m), k) {
      if k in w.cancels {
        CancelFineKept(w, m, k);
      } else {
        NewCancelFine(w, m, k);
      }
    }
  }

  ghost predicate Fresh(db: Db) {
    Valid(db) && db.reservations == map[]
  }

  function Start(db: Db): World {
    World(db, map[], map[], map[])
  }

  /** The world after a run of any sagas, interleaved in any way. */
  function Exec(w: World, moves: seq<Move>): World {
    if moves == [] then w else Next(Exec(w, moves[..|moves| - 1]), moves[|moves| - 1])
  }

  lemma {:induction false} InvAlways(db: Db, moves: seq<Move>)
    requires Fresh(db)
    ensures Inv(Exec(Start(db), moves))
    decreases |moves|
  {
    if moves == [] {
      assert forall id :: Fine(Start(db), id);
    } else {
      InvAlways(db, moves[..|moves| - 1]);
      InvKept(Exec(Start(db), moves[..|moves| - 1]), moves[|moves| - 1]);
    }
  }

  // ---------- Safety of every run ----------

  /** Every booking has a reservation of its own flight and seat count; a cancelled one's is released. */
  lemma EveryBookingIsReserved(db: Db, moves: seq<Move>, id: string)
    requires Fresh(db) && id in Exec(Start(db), moves).bookings
    ensures var w := Exec(Start(db), moves); var b := w.bookings[id];
      && id in w.db.reservations
      && w.db.reservations[id].flightId == b.request.flightId
      && w.db.reservations[id].seatCount == b.request.seatCount
      && (b.status == BookingStatus.Cancelled ==> w.db.reservations[id].status == Released)
  {
    InvAlways(db, moves);
    assert Fine(Exec(Start(db), moves), id);
  }

  /** Seats held without a booking belong to a create that is between its reserve and its end, or broke there. */
  lemma OrphansAreExplained(db: Db, moves: seq<Move>, id: string)
    requires Fresh(db) && id in Exec(Start(db), moves).db.reservations
    requires var w := Exec(Start(db), moves);
      Orphaned(Find(w.db.reservations, id), Find(w.bookings, id))
    ensures var w := Exec(Start(db), moves);
      && id in w.creates && id !in w.bookings
      && (w.creates[id].stage.Inserting? || w.creates[id].stage == Compensating(false) || w.creates[id].stage.Broken?)
  {
    InvAlways(db, moves);
    assert Fine(Exec(Start(db), moves), id);
  }

  /** A confirmed booking without seats: a cancel released them and has not updated it, or its create broke. */
  lemma UnbackedAreExplained(db: Db, moves: seq<Move>, id: string)
    requires Fresh(db) && id in Exec(Start(db), moves).bookings
    requires var w := Exec(Start(db), moves);
      Unbacked(Find(w.db.reservations, id), Find(w.bookings, id))
    ensures var w := Exec(Start(db), moves);
      Cut(w, id) || (id in w.creates && w.creates[id].stage.Broken?)
  {
    InvAlways(db, moves);
    assert Fine(Exec(Start(db), moves), id);
  }

  /** A booking, once inserted, is found by its id ever after, for the same request and price. */
  lemma {:induction false} BookingsStay(w: World, moves: seq<Move>, id: string)
    requires id in w.bookings
    ensures id in Exec(w, moves).bookings
    ensures var b, b' := w.bookings[id], Exec(w, moves).bookings[id];
      b' == b || b' == b.(status := BookingStatus.Cancelled)
    decreases |moves|
  {
    if moves != [] {
      BookingsStay(w, moves[..|moves| - 1], id);
      NextIsLater(Exec(w, moves[..|moves| - 1]), moves[|moves| - 1], id);
    }
  }

  // ---------- The two ledgers ----------

  function ConfirmedSeats(bookings: map<string, Booking>, flightId: string): map<string, int> {
    map id | id in bookings && bookings[id].request.flightId == flightId && bookings[id].status == Confirmed
           :: bookings[id].request.seatCount
  }

  function OrphanSeats(w: World, flightId: string): map<string, int> {
    map id | id in w.db.reservations && w.db.reservations[id].flightId == flightId
             && Orphaned(Find(w.db.reservations, id), Find(w.bookings, id))
           :: w.db.reservations[id].seatCount
  }

  function UnbackedSeats(w: World, flightId: string): map<string, int> {
    map id | id in w.bookings && w.bookings[id].request.flightId == flightId
             && Unbacked(Find(w.db.reservations, id), Find(w.bookings, id))
           :: w.bookings[id].request.seatCount
  }

  function BackedSeats(w: World, flightId: string): map<string, int> {
    map id | id in w.bookings && w.bookings[id].request.flightId == flightId && w.bookings[id].status == Confirmed
             && !Unbacked(Find(w.db.reservations, id), Find(w.bookings, id))
           :: w.bookings[id].request.seatCount
  }

  lemma ActiveSplits(w: World, f: string)
    requires Inv(w)
    ensures ActiveSeats(w.db.reservations, f) == BackedSeats(w, f) + OrphanSeats(w, f)
    ensures BackedSeats(w, f).Keys !! OrphanSeats(w, f).Keys
  {
    var active, split := ActiveSeats(w.db.reservations, f), BackedSeats(w, f) + OrphanSeats(w, f);
    forall id ensures id in active <==> id in split {
      assert Fine(w, id);
    }
    forall id | id in active ensures active[id] == split[id] {
      assert Fine(w, id);
    }
  }

  lemma ConfirmedSplits(w: World, f: string)
    ensures ConfirmedSeats(w.bookings, f) == BackedSeats(w, f) + UnbackedSeats(w, f)
    ensures BackedSeats(w, f).Keys !! UnbackedSeats(w, f).Keys
  {
  }

  /**
   * At every moment the seats held on a flight are those of its confirmed bookings, plus the orphaned
   * reservations, less the confirmed bookings whose seats are gone.
   */
  lemma LedgersDriftExactly(db: Db, moves: seq<Move>, f: string)
    requires Fresh(db)
    ensures var w := Exec(Start(db), moves);
      Held(w.db, f) == Sum(ConfirmedSeats(w.bookings, f)) + Sum(OrphanSeats(w, f)) - Sum(UnbackedSeats(w, f))
  {
    var w := Exec(Start(db), moves);
    InvAlways(db, moves);
    ActiveSplits(w, f);
    ConfirmedSplits(w, f);
    SumUnion(BackedSeats(w, f), OrphanSeats(w, f));
    SumUnion(BackedSeats(w, f), UnbackedSeats(w, f));
  }

  lemma {:induction false} FlightConserved(db: Db, moves: seq<Move>, f: string)
    requires Fresh(db) && f in db.flights
    ensures var w := Exec(Start(db), moves);
      && f in w.db.flights
      && w.db.flights[f].totalSeats == db.flights[f].totalSeats
      && w.db.flights[f].availableSeats + Held(w.db, f) == db.flights[f].availableSeats
    decreases |moves|
  {
    if moves == [] {
      assert ActiveSeats(db.reservations, f) == map[];
    } else {
      var front, m := moves[..|moves| - 1], moves[|moves| - 1];
      FlightConserved(db, front, f);
      DbStep(Exec(Start(db), front), m);
      if FlightCall(Exec(Start(db), front), m).Some? {
        CallConserves(Exec(Start(db), front).db, FlightCall(Exec(Start(db), front), m).value, f);
      }
    }
  }

  /** All sagas have ended, none by a crash or a lost call after its first effect. */
  predicate Settled(w: World) {
    && (forall id :: id in w.creates ==> w.creates[id].stage.Booked? || w.creates[id].stage.Undone?)
    && (forall k :: k in w.cancels ==> w.cancels[k].stage.Finished? || w.cancels[k].stage.Refused?)
  }

  /** Once all sagas have settled, the seats taken from each flight are exactly those of its confirmed bookings. */
  lemma SettledLedger(db: Db, moves: seq<Move>, f: string)
    requires Fresh(db) && f in db.flights && Settled(Exec(Start(db), moves))
    ensures var w := Exec(Start(db), moves);
      && f in w.db.flights && w.db.flights[f].totalSeats == db.flights[f].totalSeats
      && db.flights[f].availableSeats - w.db.flights[f].availableSeats == Sum(ConfirmedSeats(w.bookings, f))
  {
    var w := Exec(Start(db), moves);
    InvAlways(db, moves);
    FlightConserved(db, moves, f);
    LedgersDriftExactly(db, moves, f);
    forall id ensures id !in OrphanSeats(w, f) && id !in UnbackedSeats(w, f) {
      assert Fine(w, id);
    }
    assert OrphanSeats(w, f) == map[] && UnbackedSeats(w, f) == map[];
  }

  // ---------- Racing cancels ----------

  predicate Won(c: Cancel) {
    c.stage.Updating? || c.stage.Stranded? || c.stage.Finished?
  }

  predicate Rivals(w: World, j: nat, k: nat) {
    j != k && j in w.cancels && k in w.cancels && w.cancels[j].bookingId == w.cancels[k].bookingId
  }

  lemma WinnerReleased(w: World, k: nat)
    requires Inv(w) && k in w.cancels && Won(w.cancels[k])
    ensures var id := w.cancels[k].bookingId;
      id in w.db.reservations && w.db.reservations[id].status == Released
  {
    assert CancelFine(w, k) && Fine(w, w.cancels[k].bookingId);
  }

  // A cancel that wins with this move found its reservation active.
  lemma NewWinnerFoundActive(w: World, m: Move, k: nat)
    requires k in Next(w, m).cancels && Won(Next(w, m).cancels[k]) && !(k in w.cancels && Won(w.cancels[k]))
    ensures m.CancelCall? && m.cancel == k && k in w.cancels
    ensures var id := w.cancels[k].bookingId;
      id in w.db.reservations && w.db.reservations[id].status == Active
  {
  }

  predicate BothWon(w: World, j: nat, k: nat) {
    Rivals(w, j, k) && Won(w.cancels[j]) && Won(w.cancels[k])
  }

  lemma SameBooking(w: World, m: Move, k: nat)
    requires k in w.cancels
    ensures k in Next(w, m).cancels && Next(w, m).cancels[k].bookingId == w.cancels[k].bookingId
  {
  }

  // Had j won before, k would have found its reservation both active and released.
  lemma NewWinnerIsNoRival(w: World, m: Move, j: nat, k: nat)
    requires Inv(w) && j in w.cancels && Won(w.cancels[j])
    requires k in Next(w, m).cancels && Won(Next(w, m).cancels[k]) && !(k in w.cancels && Won(w.cancels[k]))
    ensures k in w.cancels && w.cancels[k].bookingId != w.cancels[j].bookingId
  {
    NewWinnerFoundActive(w, m, k);
    WinnerReleased(w, j);
  }

  lemma SecondCannotWin(w: World, m: Move, j: nat, k: nat)
    requires Inv(w) && BothWon(Next(w, m), j, k) && j in w.cancels && Won(w.cancels[j])
    ensures BothWon(w, j, k)
  {
    SameBooking(w, m, j);
    if k in w.cancels {
      SameBooking(w, m, k);
    }
    if !(k in w.cancels && Won(w.cancels[k])) {
      NewWinnerIsNoRival(w, m, j, k);
    }
  }

  lemma OneWinsAMove(w: World, m: Move, j: nat, k: nat)
    requires BothWon(Next(w, m), j, k)
    ensures (j in w.cancels && Won(w.cancels[j])) || (k in w.cancels && Won(w.cancels[k]))
  {
    if !(j in w.cancels && Won(w.cancels[j])) && !(k in w.cancels && Won(w.cancels[k])) {
      NewWinnerFoundActive(w, m, j);
      NewWinnerFoundActive(w, m, k);
      assert false;
    }
  }

  /** Of all the cancels of one booking, at most one ever gets past the release. */
  lemma {:induction false} OneCancelWins(db: Db, moves: seq<Move>, j: nat, k: nat)
    requires Fresh(db)
    ensures !BothWon(Exec(Start(db), moves), j, k)
    decreases |moves|
  {
    if moves != [] && BothWon(Exec(Start(db), moves), j, k) {
      var front, m := moves[..|moves| - 1], moves[|moves| - 1];
      var w := Exec(Start(db), front);
      InvAlways(db, front);
      OneWinsAMove(w, m, j, k);
      if j in w.cancels && Won(w.cancels[j]) {
        SecondCannotWin(w, m, j, k);
      } else {
        SecondCannotWin(w, m, k, j);
      }
      OneCancelWins(db, front, j, k);
    }
  }

  // ---------- Compensation, and what nothing can repair ----------

  /** Releasing after a failed insert gives the seats back whenever the call gets through. */
  lemma CompensationSucceeds(db: Db, moves: seq<Move>, id: string, reply: Reply, now: int)
    requires Fresh(db)
    requires var w := Exec(Start(db), moves); id in w.creates && w.creates[id].stage == Compensating(false)
    ensures var w := Exec(Start(db), moves); var w' := Next(w, CreateCall(id, reply, now));
      && (w'.creates[id].stage.Undone? <==> !reply.NotExecuted?)
      && (w'.creates[id].stage.Broken? <==> reply.NotExecuted?)
      && (!reply.NotExecuted? ==> id in w'.db.reservations && w'.db.reservations[id].status == Released)
  {
    var w := Exec(Start(db), moves);
    InvAlways(db, moves);
    assert Fine(w, id);
    ActiveIsReleasable(w.db, id, now);
  }

  // Confirmed, its seats released, and no cancel left that would still update it.
  predicate Stuck(w: World, id: string) {
    && id in w.bookings && w.bookings[id].status == Confirmed
    && id in w.db.reservations && w.db.reservations[id].status == Released
    && forall k :: k in w.cancels && w.cancels[k].bookingId == id ==> !w.cancels[k].stage.Updating?
  }

  lemma StuckStep(w: World, m: Move, id: string)
    requires Stuck(w, id)
    ensures Stuck(Next(w, m), id)
  {
    NextIsLater(w, m, id);
    forall k | k in Next(w, m).cancels && Next(w, m).cancels[k].bookingId == id
      ensures !Next(w, m).cancels[k].stage.Updating?
    {
      if Won(Next(w, m).cancels[k]) && !(k in w.cancels && Won(w.cancels[k])) {
        NewWinnerFoundActive(w, m, k);
      }
    }
    if m.CancelCall? && m.cancel in w.cancels && w.cancels[m.cancel].bookingId == id {
      assert !w.cancels[m.cancel].stage.Updating?;
    }
  }

  /** A booking whose cancel was cut after the release stays confirmed for good: every retry finds nothing to release. */
  lemma {:induction false} StuckForGood(w: World, moves: seq<Move>, id: string)
    requires Stuck(w, id)
    ensures Stuck(Exec(w, moves), id)
    decreases |moves|
  {
    if moves != [] {
      StuckForGood(w, moves[..|moves| - 1], id);
      StuckStep(Exec(w, moves[..|moves| - 1]), moves[|moves| - 1], id);
    }
  }

  // ---------- Exactly when a confirmed booking can still be cancelled ----------

  predicate IsCancelled(w: World, id: string) {
    id in w.bookings && w.bookings[id].status == BookingStatus.Cancelled
  }

  ghost predicate Cancellable(w: World, id: string) {
    exists more: seq<Move> :: IsCancelled(Exec(w, more), id)
  }

  lemma ExecSnoc(w: World, moves: seq<Move>, m: Move)
    ensures Exec(w, moves + [m]) == Next(Exec(w, moves), m)
  {
    assert (moves + [m])[..|moves|] == moves;
  }

  lemma {:induction false} UnusedNumber(cancels: map<nat, Cancel>) returns (k: nat)
    ensures forall j :: j in cancels ==> j < k
    decreases |cancels|
  {
    k := 0;
    if cancels != map[] {
      assert cancels.Keys != {};
      var j :| j in cancels;
      var rest := cancels - {j};
      assert rest.Keys == cancels.Keys - {j};
      var bound := UnusedNumber(rest);
      k := if j < bound then bound else j + 1;
      forall i | i in cancels ensures i < k {
        assert i == j || i in rest;
      }
    }
  }

  // A fresh cancel of a confirmed booking with active seats, every call answered.
  lemma FreshCancelRuns(w: World, id: string, k: nat)
    requires Valid(w.db) && k !in w.cancels && id in w.bookings && w.bookings[id].status == Confirmed
    requires id in w.db.reservations && w.db.reservations[id].status == Active
    ensures var call := CancelCall(k, Answered, 0);
      IsCancelled(Next(Next(Next(Next(w, StartCancel(k, id)), call), call), call), id)
  {
    ActiveIsReleasable(w.db, id, 0);
    var call := CancelCall(k, Answered, 0);
    var w2 := Next(Next(w, StartCancel(k, id)), call);
    assert w2.cancels[k] == Cancel(id, Releasing) && w2.db == w.db && w2.bookings == w.bookings;
    var w3 := Next(w2, call);
    assert w3.cancels[k] == Cancel(id, Updating) && w3.bookings == w.bookings;
  }

  lemma FourMoves(w: World, a: Move, b: Move, c: Move, d: Move)
    ensures Exec(w, [] + [a] + [b] + [c] + [d]) == Next(Next(Next(Next(w, a), b), c), d)
  {
    assert Exec(w, []) == w;
    ExecSnoc(w, [], a);
    ExecSnoc(w, [] + [a], b);
    ExecSnoc(w, [] + [a] + [b], c);
    ExecSnoc(w, [] + [a] + [b] + [c], d);
  }

  lemma FreshCancelWorks(w: World, id: string, k: nat)
    requires Valid(w.db) && k !in w.cancels && id in w.bookings && w.bookings[id].status == Confirmed
    requires id in w.db.reservations && w.db.reservations[id].status == Active
    ensures Cancellable(w, id)
  {
    var start, call := StartCancel(k, id), CancelCall(k, Answered, 0);
    FreshCancelRuns(w, id, k);
    FourMoves(w, start, call, call, call);
    var more := [] + [start] + [call] + [call] + [call];
    assert IsCancelled(Exec(w, more), id);
  }

  // The cancel that released the seats can still update the booking.
  lemma PendingCancelWorks(w: World, id: string, k: nat)
    requires k in w.cancels && w.cancels[k] == Cancel(id, Updating) && id in w.bookings
    ensures Cancellable(w, id)
  {
    var call := CancelCall(k, Answered, 0);
    ExecSnoc(w, [], call);
    assert Exec(w, []) == w;
    assert IsCancelled(Exec(w, [] + [call]), id);
  }

  /**
   * In every reachable world a confirmed booking can still be cancelled if and only if it is not stuck: its seats
   * are active, or some cancel that released them has its update still to come.
   */
  lemma CancellableExactly(db: Db, moves: seq<Move>, id: string)
    requires Fresh(db) && id in Exec(Start(db), moves).bookings
    requires Exec(Start(db), moves).bookings[id].status == Confirmed
    ensures Cancellable(Exec(Start(db), moves), id) <==> !Stuck(Exec(Start(db), moves), id)
  {
    var w := Exec(Start(db), moves);
    InvAlways(db, moves);
    assert Fine(w, id);
    if Stuck(w, id) {
      forall more: seq<Move> ensures !IsCancelled(Exec(w, more), id) {
        StuckForGood(w, more, id);
      }
    } else if w.db.reservations[id].status == Active {
      var k := UnusedNumber(w.cancels);
      FreshCancelWorks(w, id, k);
    } else {
      var k :| k in w.cancels && w.cancels[k].bookingId == id && w.cancels[k].stage.Updating?;
      assert w.cancels[k] == Cancel(id, Updating);
      PendingCancelWorks(w, id, k);
    }
  }

  function Seat(flightId: string): Request {
    Request("user", "name", "mail", flightId, 1)
  }

  function BookOneSeat(flightId: string): seq<Move> {
    [] + [StartCreate("b", Seat(flightId))] + [CreateCall("b", Answered, 0)] + [CreateCall("b", Answered, 0)]
  }

  lemma OneSeatBooked(db: Db, f: string)
    requires Fresh(db) && f in db.flights && db.flights[f].status == Scheduled
    requires db.flights[f].availableSeats >= 1 && db.flights[f].pricePerSeat > 0
    ensures var w := Exec(Start(db), BookOneSeat(f));
      && "b" in w.bookings && w.bookings["b"].status == Confirmed && w.cancels == map[]
      && "b" in w.db.reservations && w.db.reservations["b"].status == Active
  {
    var start, call := StartCreate("b", Seat(f)), CreateCall("b", Answered, 0);
    ExecSnoc(Start(db), [], start);
    ExecSnoc(Start(db), [] + [start], call);
    ExecSnoc(Start(db), [] + [start] + [call], call);
    assert Exec(Start(db), []) == Start(db);
    var w1 := Next(Start(db), start);
    var w2 := Next(w1, call);
    assert w2.creates["b"].stage == Inserting(db.flights[f].pricePerSeat) && w2.bookings == map[] && w2.cancels == map[];
  }

  /**
   * Bookings do get stuck: one seat is booked with every call answered, a cancel releases it, and the booking
   * service crashes before the update.
   */
  lemma CrashedCancelSticks(db: Db, f: string)
    requires Fresh(db) && f in db.flights && db.flights[f].status == Scheduled
    requires db.flights[f].availableSeats >= 1 && db.flights[f].pricePerSeat > 0
    ensures Stuck(Exec(Start(db), BookOneSeat(f) + [StartCancel(0, "b")] + [CancelCall(0, Answered, 0)]
                                  + [CancelCall(0, Answered, 0)] + [CancelCrash(0)]), "b")
  {
    var booked, start, call, crash := BookOneSeat(f), StartCancel(0, "b"), CancelCall(0, Answered, 0), CancelCrash(0);
    var w := Exec(Start(db), booked);
    OneSeatBooked(db, f);
    InvAlways(db, booked);
    ActiveIsReleasable(w.db, "b", 0);
    ExecSnoc(Start(db), booked, start);
    ExecSnoc(Start(db), booked + [start], call);
    ExecSnoc(Start(db), booked + [start] + [call], call);
    ExecSnoc(Start(db), booked + [start] + [call] + [call], crash);
    CutCancelSticks(w, "b");
  }

  lemma CutCancelSticks(w: World, id: string)
    requires w.cancels == map[] && id in w.bookings && w.bookings[id].status == Confirmed && Release(w.db, id, 0).Done?
    ensures var w1 := Next(Next(w, StartCancel(0, id)), CancelCall(0, Answered, 0));
      Stuck(Next(Next(w1, CancelCall(0, Answered, 0)), CancelCrash(0)), id)
  {
    var w1 := Next(Next(w, StartCancel(0, id)), CancelCall(0, Answered, 0));
    assert w1.cancels == map[0 := Cancel(id, Releasing)] && w1.db == w.db && w1.bookings == w.bookings;
    var w2 := Next(w1, CancelCall(0, Answered, 0));
    assert w2.cancels == map[0 := Cancel(id, Updating)] && w2.bookings == w.bookings;
  }
}
