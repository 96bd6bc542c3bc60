/** Who may order, and how often: one active order per user, and a bounded rate of creation. */
module Admission {
  import opened ShopTables
  import Discount

  // ---------- One active order ----------

  predicate OneActive(orders: map<string, Order>, userId: string) {
    forall i, j :: i in orders && j in orders && IsActive(orders[i], userId) && IsActive(orders[j], userId) ==> i == j
  }

  lemma RequestKeepsOneActive(s: Shop, limit: int, r: Request, userId: string)
    requires OneActive(s.orders, userId)
    ensures OneActive(After(s, limit, r).orders, userId)
  {
    if AboutProducts(r) {
      ProductRequestMeans(s, limit, r);
    } else if Accepts(s, limit, r) {
      match r
      case Create(_, _, _, _, _, _) => CreateMeans(s, limit, r);
      case Update(_, _, _, _, _, _) => UpdateMeans(s, limit, r);
      case Cancel(_, _, _, _) => CancelMeans(s, limit, r);
    }
  }

  /** With serial transactions no user ever has more than one order that is created or awaits payment. */
  lemma {:induction false} AtMostOneActiveOrder(s: Shop, limit: int, requests: seq<Request>, userId: string)
    requires OneActive(s.orders, userId)
    ensures OneActive(AfterAll(s, limit, requests).orders, userId)
    decreases |requests|
  {
    if requests != [] {
      var front := requests[..|requests| - 1];
      AtMostOneActiveOrder(s, limit, front, userId);
      RequestKeepsOneActive(AfterAll(s, limit, front), limit, requests[|requests| - 1], userId);
    }
  }

  // ---------- Whose orders change ----------

  predicate MayChange(who: Principal, o: Order) {
    who.role == Admin || (who.role == Buyer && who.id == o.userId)
  }

  /** Admins pass, and buyers for their own orders; nobody else does. */
  lemma OwnershipExactly(o: Order, who: Principal)
    ensures OwnershipFault(o, who).None? <==> MayChange(who, o)
  {
  }

  /** An accepted update or cancel comes from an admin or from the order's own buyer. */
  lemma ChangedByOwner(s: Shop, limit: int, r: Request)
    requires (r.Update? || r.Cancel?) && Accepts(s, limit, r)
    ensures r.id in s.orders && MayChange(r.who, s.orders[r.id])
  {
    if r.Update? {
      UpdateMeans(s, limit, r);
    }
    OwnershipExactly(s.orders[r.id], r.who);
  }

  lemma OthersLeaveOrder(s: Shop, limit: int, r: Request, id: string)
    requires id in s.orders
    requires (r.Update? || r.Cancel?) && r.id == id ==> !MayChange(r.who, s.orders[id])
    ensures id in After(s, limit, r).orders && After(s, limit, r).orders[id] == s.orders[id]
  {
    if AboutProducts(r) {
      ProductRequestMeans(s, limit, r);
    } else if Accepts(s, limit, r) {
      if r.Create? {
        CreateMeans(s, limit, r);
      } else {
        ChangedByOwner(s, limit, r);
        if r.Update? {
          UpdateMeans(s, limit, r);
        } else {
          CancelMeans(s, limit, r);
        }
      }
    }
  }

  /** In every run an order changes only by requests of an admin or of its own buyer. */
  lemma {:induction false} OnlyOwnersChangeOrders(s: Shop, limit: int, requests: seq<Request>, id: string)
    requires id in s.orders
    requires forall i :: 0 <= i < |requests| && (requests[i].Update? || requests[i].Cancel?) && requests[i].id == id
                         ==> !MayChange(requests[i].who, s.orders[id])
    ensures id in AfterAll(s, limit, requests).orders && AfterAll(s, limit, requests).orders[id] == s.orders[id]
    decreases |requests|
  {
    if requests != [] {
      var front := requests[..|requests| - 1];
      OnlyOwnersChangeOrders(s, limit, front, id);
      OthersLeaveOrder(AfterAll(s, limit, front), limit, requests[|requests| - 1], id);
    }
  }

  // ---------- The rate of creation ----------

  /** When the user's operations of one kind were saved. */
  function Times(operations: seq<Operation>, userId: string, kind: OperationKind): seq<int> {
    if operations == [] then []
    else
      var last := operations[|operations| - 1];
      Times(operations[..|operations| - 1], userId, kind) + (if last.userId == userId && last.kind == kind then [last.at] else [])
  }

  lemma {:induction false} LastIsMax(operations: seq<Operation>, userId: string, kind: OperationKind, i: nat)
    requires i < |Times(operations, userId, kind)|
    ensures LastTime(operations, userId, kind).Some?
    ensures Times(operations, userId, kind)[i] <= LastTime(operations, userId, kind).value
    decreases |operations|
  {
    var front := operations[..|operations| - 1];
    if i < |Times(front, userId, kind)| {
      LastIsMax(front, userId, kind, i);
    } else if Times(front, userId, kind) != [] {
      LastIsMax(front, userId, kind, 0);
    }
  }

  // Every two times lie at least the gap apart, in order.
  predicate Spaced(times: seq<int>, gap: int) {
    forall i, j :: 0 <= i < j < |times| ==> times[j] - times[i] >= gap
  }

  lemma FloorAtLeast(n: int, d: int, q: int)
    requires d > 0 && n / d >= q
    ensures n >= q * d
  {
    assert n / d * d <= n;
    assert q * d <= n / d * d;
  }

  /** An operation the rate limit lets through comes a whole limit after each earlier one of its kind. */
  lemma AdmittedIsLate(operations: seq<Operation>, userId: string, kind: OperationKind, now: int, limit: int, i: nat)
    requires !IsLimited(operations, userId, kind, now, limit) && i < |Times(operations, userId, kind)|
    ensures now - Times(operations, userId, kind)[i] >= limit * TICKS_PER_SECOND
  {
    LastIsMax(operations, userId, kind, i);
    FloorAtLeast(now - LastTime(operations, userId, kind).value, TICKS_PER_SECOND, limit);
  }

  predicate IsLimitedKind(kind: OperationKind) {
    kind == CreateOrderOp || kind == UpdateOrderOp
  }

  // Within one transaction the clock does not run backwards.
  predicate Orderly(r: Request) {
    r.Create? || r.Update? ==> r.clock.checked <= r.clock.saved
  }

  lemma RecordedIsSpaced(operations: seq<Operation>, op: Operation, now: int, limit: int, userId: string, kind: OperationKind)
    requires Spaced(Times(operations, userId, kind), limit * TICKS_PER_SECOND)
    requires op.userId == userId && op.kind == kind ==> !IsLimited(operations, userId, kind, now, limit) && now <= op.at
    ensures Spaced(Times(operations + [op], userId, kind), limit * TICKS_PER_SECOND)
  {
    var gap, times := limit * TICKS_PER_SECOND, Times(operations, userId, kind);
    assert (operations + [op])[..|operations + [op]| - 1] == operations;
    if op.userId == userId && op.kind == kind {
      forall i | 0 <= i < |times| ensures op.at - times[i] >= gap {
        AdmittedIsLate(operations, userId, kind, now, limit, i);
      }
    }
  }

  lemma RequestKeepsSpacing(s: Shop, limit: int, r: Request, userId: string, kind: OperationKind)
    requires Orderly(r) && IsLimitedKind(kind)
    requires Spaced(Times(s.operations, userId, kind), limit * TICKS_PER_SECOND)
    ensures Spaced(Times(After(s, limit, r).operations, userId, kind), limit * TICKS_PER_SECOND)
  {
    if AboutProducts(r) {
      ProductRequestMeans(s, limit, r);
    } else if Accepts(s, limit, r) {
      match r
      case Create(id, _, _, who, clock, _) =>
        CreateMeans(s, limit, r);
        RecordedIsSpaced(s.operations, Operation(who.id, CreateOrderOp, id, clock.saved), clock.checked, limit, userId, kind);
      case Update(id, _, _, who, clock, _) =>
        UpdateMeans(s, limit, r);
        RecordedIsSpaced(s.operations, Operation(who.id, UpdateOrderOp, id, clock.saved), clock.checked, limit, userId, kind);
      case Cancel(id, who, saved, _) =>
        CancelMeans(s, limit, r);
        RecordedIsSpaced(s.operations, Operation(who.id, CancelOrderOp, id, saved), saved, limit, userId, kind);
    }
  }

  lemma {:induction false} SpacedInEveryRun(s: Shop, limit: int, requests: seq<Request>, userId: string, kind: OperationKind)
    requires IsLimitedKind(kind) && forall i :: 0 <= i < |requests| ==> Orderly(requests[i])
    requires Spaced(Times(s.operations, userId, kind), limit * TICKS_PER_SECOND)
    ensures Spaced(Times(AfterAll(s, limit, requests).operations, userId, kind), limit * TICKS_PER_SECOND)
    decreases |requests|
  {
    if requests != [] {
      var front := requests[..|requests| - 1];
      SpacedInEveryRun(s, limit, front, userId, kind);
      RequestKeepsSpacing(AfterAll(s, limit, front), limit, requests[|requests| - 1], userId, kind);
    }
  }

  /** The creates of a run that the service accepts for the user. */
  function AcceptedCreates(s: Shop, limit: int, requests: seq<Request>, userId: string): nat {
    if requests == [] then 0
    else
      var front, last := requests[..|requests| - 1], requests[|requests| - 1];
      AcceptedCreates(s, limit, front, userId)
      + (if last.Create? && last.who.id == userId && Accepts(AfterAll(s, limit, front), limit, last) then 1 else 0)
  }

  lemma RecordedOnce(s: Shop, limit: int, r: Request, userId: string)
    ensures |Times(After(s, limit, r).operations, userId, CreateOrderOp)|
         == |Times(s.operations, userId, CreateOrderOp)| + (if r.Create? && r.who.id == userId && Accepts(s, limit, r) then 1 else 0)
  {
    if AboutProducts(r) {
      ProductRequestMeans(s, limit, r);
    } else if Accepts(s, limit, r) {
      var op: Operation;
      match r
      case Create(id, _, _, who, clock, _) =>
        CreateMeans(s, limit, r);
        op := Operation(who.id, CreateOrderOp, id, clock.saved);
      case Update(id, _, _, who, clock, _) =>
        UpdateMeans(s, limit, r);
        op := Operation(who.id, UpdateOrderOp, id, clock.saved);
      case Cancel(id, who, saved, _) =>
        CancelMeans(s, limit, r);
        op := Operation(who.id, CancelOrderOp, id, saved);
      assert (s.operations + [op])[..|s.operations + [op]| - 1] == s.operations;
    }
  }

  /** The recorded operations the limit is checked against are exactly the accepted creates. */
  lemma {:induction false} EveryCreateIsRecorded(s: Shop, limit: int, requests: seq<Request>, userId: string)
    ensures |Times(AfterAll(s, limit, requests).operations, userId, CreateOrderOp)|
         == |Times(s.operations, userId, CreateOrderOp)| + AcceptedCreates(s, limit, requests, userId)
    decreases |requests|
  {
    if requests != [] {
      var front := requests[..|requests| - 1];
      EveryCreateIsRecorded(s, limit, front, userId);
      RecordedOnce(AfterAll(s, limit, front), limit, requests[|requests| - 1], userId);
    }
  }

  // ---------- Counting over an interval ----------

  function CountWithin(times: seq<int>, from: int, to: int): nat {
    if times == [] then 0
    else CountWithin(times[..|times| - 1], from, to) + (if from <= times[|times| - 1] <= to then 1 else 0)
  }

  lemma OneMoreGap(count: nat, gap: int, span: int, later: int)
    requires count >= 1 && (count - 1) * gap <= span && span + gap <= later
    ensures count * gap <= later
  {
    assert count * gap == (count - 1) * gap + gap;
  }

  // The last time counted lies at least count - 1 gaps after the start of the interval.
  lemma {:induction false} CountedSpan(times: seq<int>, gap: int, from: int, to: int) returns (k: nat)
    requires Spaced(times, gap) && CountWithin(times, from, to) > 0
    ensures k < |times| && from <= times[k] <= to
    ensures (CountWithin(times, from, to) - 1) * gap <= times[k] - from
    decreases |times|
  {
    var front, last := times[..|times| - 1], times[|times| - 1];
    var count := CountWithin(front, from, to);
    if count == 0 {
      k := |times| - 1;
    } else {
      k := CountedSpan(front, gap, from, to);
      if from <= last <= to {
        assert last - times[k] >= gap;
        OneMoreGap(count, gap, times[k] - from, last - from);
        k := |times| - 1;
      }
    }
  }

  lemma GapsFit(count: nat, gap: int, span: int)
    requires count >= 1 && gap > 0 && (count - 1) * gap <= span
    ensures count <= span / gap + 1
  {
    var fitting := span / gap;
    if fitting < count - 1 {
      Discount.TimesMonotone(gap, fitting + 1, count - 1);
    }
  }

  lemma IntervalBound(times: seq<int>, limit: int, from: int, seconds: nat)
    requires limit > 0 && Spaced(times, limit * TICKS_PER_SECOND)
    ensures CountWithin(times, from, from + seconds * TICKS_PER_SECOND) <= seconds / limit + 1
  {
    var gap, to := limit * TICKS_PER_SECOND, from + seconds * TICKS_PER_SECOND;
    var count := CountWithin(times, from, to);
    if count > 0 {
      var k := CountedSpan(times, gap, from, to);
      assert (count - 1) * limit * TICKS_PER_SECOND == (count - 1) * gap;
      assert (count - 1) * limit <= seconds;
      GapsFit(count, limit, seconds);
    }
  }

  /** In any interval of the given number of seconds, a user's accepted creates number at most seconds / limit + 1. */
  lemma CreatesAreBounded(s: Shop, limit: int, requests: seq<Request>, userId: string, from: int, seconds: nat)
    requires limit > 0 && forall i :: 0 <= i < |requests| ==> Orderly(requests[i])
    requires Spaced(Times(s.operations, userId, CreateOrderOp), limit * TICKS_PER_SECOND)
    ensures var times := Times(AfterAll(s, limit, requests).operations, userId, CreateOrderOp);
      CountWithin(times, from, from + seconds * TICKS_PER_SECOND) <= seconds / limit + 1
  {
    SpacedInEveryRun(s, limit, requests, userId, CreateOrderOp);
    IntervalBound(Times(AfterAll(s, limit, requests).operations, userId, CreateOrderOp), limit, from, seconds);
  }
}
