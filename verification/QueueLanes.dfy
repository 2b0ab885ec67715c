/**
 Lanes are independent: the one vector of tickets behaves as a product of
 single-lane machines that know nothing of each other.
 */
module QueueLanes {
  import opened Sequences
  import opened QueueState
  import opened QueueInvariant
  import opened QueueSteps

  /** One lane on its own. */
  datatype Lane = Lane(name: string, tickets: seq<Ticket>, capacity: Capacity, reservations: seq<Reservation>)

  /** What an operation on the queue means for one lane. */
  datatype LaneEvent =
    | Idle
    | Arrive(req: Request)
    | LoseReservation(id: string)
    | DropWaiter(id: string)
    | Depart(id: string, reserve: bool)
    | Renew(id: string)
    | Expel(claim: Claim)

  // The single-lane machine.

  /**
   The lane's slots offered to its tickets in their order: the tickets
   afterwards, and how many run. A background ticket takes none while the lane is busy.
   */
  function Offer(ts: seq<Ticket>, cap: Capacity, busy: bool, running: nat): (seq<Ticket>, nat) {
    if ts == [] then ([], running) else
    var (before, load) := Offer(ts[..|ts| - 1], cap, busy, running);
    var t := ts[|ts| - 1];
    if t.state.Waiting? && (t.priority.Foreground? || !busy) && cap.Admits(load)
    then (before + [t.(state := Running)], load + 1)
    else (before + [t], load)
  }

  predicate LaneBusy(s: Lane) {
    (exists t :: t in s.tickets && t.priority.Foreground?) || s.reservations != []
  }

  function LanePump(s: Lane): Lane {
    s.(tickets := Offer(s.tickets, s.capacity, LaneBusy(s), Count(s.tickets, RunningOn(s.name))).0)
  }

  function LaneArrive(s: Lane, req: Request, now: nat): Lane {
    var at := if req.front then FirstIndex(s.tickets, OrdinaryWaiterOn(s.name)) else |s.tickets|;
    s.(tickets := s.tickets[..at] + [NewTicket(req, now)] + s.tickets[at..],
       capacity := RequestedCapacity(req.maxParallel),
       reservations := Replaced(s.reservations, req.replacing))
  }

  function LaneDepart(s: Lane, id: string, reserve: bool, now: nat): Lane {
    var pos := FirstIndex(s.tickets, WithId(id));
    var rest := DropReservation(s.reservations, id);
    s.(tickets := Filter(s.tickets, Without(id)),
       reservations := if pos < |s.tickets| && reserve then rest + [ReservationFor(s.tickets[pos], now)] else rest)
  }

  function LaneRenew(s: Lane, id: string, now: nat): Lane {
    s.(tickets := seq(|s.tickets|, i requires 0 <= i < |s.tickets| => RefreshedTicket(s.tickets[i], id, now)),
       reservations := seq(|s.reservations|,
         i requires 0 <= i < |s.reservations| => RefreshedReservation(s.reservations[i], id, now)))
  }

  function LaneChange(s: Lane, e: LaneEvent, now: nat): Lane {
    match e
    case Idle => s
    case Arrive(req) => LaneArrive(s, req, now)
    case LoseReservation(id) => s.(reservations := DropReservation(s.reservations, id))
    case DropWaiter(id) =>
      if exists t :: t in s.tickets && t.id == id && t.state.Waiting?
      then s.(tickets := Filter(s.tickets, Without(id))) else s
    case Depart(id, reserve) => LaneDepart(s, id, reserve, now)
    case Renew(id) => LaneRenew(s, id, now)
    case Expel(claim) =>
      s.(tickets := Filter(s.tickets, Unclaimed(claim)),
         reservations := Filter(s.reservations, ReservationUnclaimed(claim)))
  }

  function LaneStep(s: Lane, e: LaneEvent, now: nat): Lane {
    LanePump(LaneChange(s, e, now))
  }

  // The lane as part of the queue.

  function Project(q: Queue, lane: string): Lane {
    Lane(lane, Filter(q.tickets, OnLane(lane)), CapacityOf(q.capacity, lane), Filter(q.reservations, ReservedOn(lane)))
  }

  /** The only thing a lane needs to be told of the others: whether an acquire was accepted at all. */
  function View(q: Queue, op: Op, lane: string): LaneEvent {
    match op
    case Acquire(req) =>
      if !Accepts(q, req) then Idle
      else if req.lane == lane then Arrive(req)
      else if req.replacing.Some? then LoseReservation(req.replacing.value)
      else Idle
    case CancelProbe(_) => Idle
    case CancelWaiting(id) => DropWaiter(id)
    case Release(id, reserve) => Depart(id, reserve)
    case Heartbeat(id) => Renew(id)
    case Reclaim(claim) => Expel(claim)
  }

  lemma {:induction false} LaneKnowsItsLoad(q: Queue, lane: string)
    ensures LaneBusy(Project(q, lane)) <==> BusyForBackground(q, lane)
    ensures Count(Project(q, lane).tickets, RunningOn(lane)) == Used(q, lane)
  {
    var s := Project(q, lane);
    FilterNarrow(q.tickets, OnLane(lane), RunningOn(lane));
    if s.reservations != [] {
      assert s.reservations[0] in s.reservations;
    }
    if r :| r in q.reservations && r.lane == lane {
      assert r in s.reservations;
    }
    if t :| t in q.tickets && t.lane == lane && t.priority.Foreground? {
      assert t in s.tickets;
    }
  }

  /** On the first `n` tickets the closed form of a pump agrees with offering the lane's slots in order. */
  ghost predicate OffersAgree(q: Queue, pumped: seq<Ticket>, lane: string, n: nat)
    requires n <= |q.tickets| == |pumped|
  {
    var cap, busy, used := CapacityOf(q.capacity, lane), BusyForBackground(q, lane), Used(q, lane);
    Offer(Filter(q.tickets[..n], OnLane(lane)), cap, busy, used)
      == (Filter(pumped[..n], OnLane(lane)), Level(cap, used, Eligible(q, lane, n)))
  }

  lemma {:induction false} LaneSplit(ts: seq<Ticket>, i: nat, lane: string)
    requires i < |ts|
    ensures Filter(ts[..i + 1], OnLane(lane)) ==
            if ts[i].lane == lane then Filter(ts[..i], OnLane(lane)) + [ts[i]] else Filter(ts[..i], OnLane(lane))
  {
    FilterSplit(ts, i, OnLane(lane));
  }

  lemma {:induction false} OffersAgreeOnLane(q: Queue, pumped: seq<Ticket>, i: nat)
    requires |q.tickets| == |pumped| && i < |pumped| && pumped[i] == PumpedAt(q, i)
    requires OffersAgree(q, pumped, q.tickets[i].lane, i)
    ensures OffersAgree(q, pumped, q.tickets[i].lane, i + 1)
  {
    hide Filter, Offer, Level, PumpedAt, BusyForBackground, EligibleOn, Eligible, Used, CapacityOf;
    var t := q.tickets[i];
    var cap, busy, used := CapacityOf(q.capacity, t.lane), BusyForBackground(q, t.lane), Used(q, t.lane);
    PumpedIs(q, i);
    LaneSplit(q.tickets, i, t.lane);
    LaneSplit(pumped, i, t.lane);
    EligibleSplit(q, t.lane, i);
    OfferOneMore(Filter(q.tickets[..i], OnLane(t.lane)), Filter(pumped[..i], OnLane(t.lane)),
                 t, pumped[i], cap, busy, used, Eligible(q, t.lane, i));
  }

  lemma {:induction false} OffersAgreeElsewhere(q: Queue, pumped: seq<Ticket>, lane: string, i: nat)
    requires |q.tickets| == |pumped| && i < |pumped| && pumped[i] == PumpedAt(q, i)
    requires OffersAgree(q, pumped, lane, i) && q.tickets[i].lane != lane
    ensures OffersAgree(q, pumped, lane, i + 1)
  {
    hide Filter, Offer, Level, PumpedAt, BusyForBackground;
    PumpedIs(q, i);
    LaneSplit(q.tickets, i, lane);
    LaneSplit(pumped, i, lane);
    EligibleSplit(q, lane, i);
  }

  lemma {:induction false} PumpOffersInOrder(q: Queue, pumped: seq<Ticket>, lane: string, n: nat)
    requires n <= |q.tickets| == |pumped|
    requires forall i :: 0 <= i < |pumped| ==> pumped[i] == PumpedAt(q, i)
    ensures OffersAgree(q, pumped, lane, n)
  {
    if n > 0 {
      PumpOffersInOrder(q, pumped, lane, n - 1);
      if q.tickets[n - 1].lane == lane {
        OffersAgreeOnLane(q, pumped, n - 1);
      } else {
        OffersAgreeElsewhere(q, pumped, lane, n - 1);
      }
    }
  }

  /** Offering the lane's slots to one more ticket, `waiters` eligible ones having gone before it. */
  lemma {:induction false} OfferOneMore(ts: seq<Ticket>, us: seq<Ticket>, t: Ticket, u: Ticket,
                     cap: Capacity, busy: bool, used: nat, waiters: nat)
    requires Offer(ts, cap, busy, used) == (us, Level(cap, used, waiters))
    requires u == if EligibleOn(t.lane, busy)(t) && cap.Admits(used + waiters) then t.(state := Running) else t
    ensures Offer(ts + [t], cap, busy, used) ==
            (us + [u], Level(cap, used, waiters + if EligibleOn(t.lane, busy)(t) then 1 else 0))
  {
    assert (ts + [t])[..|ts|] == ts;
  }

  lemma {:induction false} PumpedIs(q: Queue, i: nat)
    requires i < |q.tickets|
    ensures
      var t := q.tickets[i];
      PumpedAt(q, i) ==
        if && EligibleOn(t.lane, BusyForBackground(q, t.lane))(t)
           && CapacityOf(q.capacity, t.lane).Admits(Used(q, t.lane) + Eligible(q, t.lane, i))
        then t.(state := Running) else t
  {
  }

  lemma {:induction false} PumpByLane(q: Queue, lane: string)
    ensures Project(Pump(q), lane) == LanePump(Project(q, lane))
  {
    PumpOffersInOrder(q, Pump(q).tickets, lane, |q.tickets|);
    LaneKnowsItsLoad(q, lane);
    assert q.tickets[..|q.tickets|] == q.tickets;
    assert Pump(q).tickets[..|q.tickets|] == Pump(q).tickets;
  }

  lemma {:induction false} ReplacedByLane(rs: seq<Reservation>, replacing: Option<string>, lane: string)
    ensures Filter(Replaced(rs, replacing), ReservedOn(lane)) == Replaced(Filter(rs, ReservedOn(lane)), replacing)
  {
    hide Filter;
    if replacing.Some? {
      FilterCommutes(rs, ReservationWithout(replacing.value), ReservedOn(lane));
    }
  }

  lemma {:induction false} InsertionByLane(q: Queue, lane: string, front: bool)
    ensures
      var at := InsertionPoint(q, lane, front);
      var ts := Project(q, lane).tickets;
      var laneAt := if front then FirstIndex(ts, OrdinaryWaiterOn(lane)) else |ts|;
      && Filter(q.tickets[..at], OnLane(lane)) == ts[..laneAt]
      && Filter(q.tickets[at..], OnLane(lane)) == ts[laneAt..]
  {
    hide Filter;
    var at := InsertionPoint(q, lane, front);
    if front {
      FirstIndexThroughFilter(q.tickets, OnLane(lane), OrdinaryWaiterOn(lane));
    } else {
      assert q.tickets[..at] == q.tickets;
      assert q.tickets[at..] == [];
    }
  }

  lemma {:induction false} JoinByLane(q: Queue, req: Request, now: nat)
    ensures Project(Join(q, req, now), req.lane) == LaneArrive(Project(q, req.lane), req, now)
  {
    hide Filter;
    hide FirstIndex;
    var lane := req.lane;
    FilterInsert(q.tickets, InsertionPoint(q, lane, req.front), NewTicket(req, now), OnLane(lane));
    InsertionByLane(q, lane, req.front);
    ReplacedByLane(q.reservations, req.replacing, lane);
  }

  lemma {:induction false} JoinElsewhere(q: Queue, req: Request, now: nat, lane: string)
    requires req.lane != lane
    ensures Project(Join(q, req, now), lane) ==
            Project(q, lane).(reservations := Replaced(Project(q, lane).reservations, req.replacing))
  {
    hide Filter;
    var at := InsertionPoint(q, req.lane, req.front);
    FilterInsert(q.tickets, at, NewTicket(req, now), OnLane(lane));
    FilterSplitAt(q.tickets, at, OnLane(lane));
    ReplacedByLane(q.reservations, req.replacing, lane);
  }

  lemma {:induction false} WaiterByLane(q: Queue, id: string, lane: string)
    requires Sound(q)
    ensures Project(if HasWaiter(q, id) then KeepTickets(q, Without(id)) else q, lane)
            == LaneChange(Project(q, lane), DropWaiter(id), 0)
  {
    hide Filter;
    var s := Project(q, lane);
    FilterCommutes(q.tickets, Without(id), OnLane(lane));
    if w :| w in q.tickets && w.id == id && w.state.Waiting? {
      if w.lane == lane {
        assert w in s.tickets;
      } else {
        forall i | 0 <= i < |s.tickets| ensures Without(id)(s.tickets[i]) {
          if s.tickets[i].id == id {
            SameTicket(q.tickets, s.tickets[i], w);
          }
        }
        FilterAll(s.tickets, Without(id));
      }
    }
  }

  lemma {:induction false} HolderByLane(q: Queue, id: string, lane: string)
    requires Sound(q)
    ensures
      var ts := Project(q, lane).tickets;
      var pos, lanePos := FirstIndex(q.tickets, WithId(id)), FirstIndex(ts, WithId(id));
      if pos < |q.tickets| && q.tickets[pos].lane == lane
      then lanePos < |ts| && ts[lanePos] == q.tickets[pos]
      else lanePos == |ts|
  {
    hide Filter;
    var ts := Project(q, lane).tickets;
    var pos, lanePos := FirstIndex(q.tickets, WithId(id)), FirstIndex(ts, WithId(id));
    assert pos < |q.tickets| && q.tickets[pos].lane == lane ==> q.tickets[pos] in ts;
    if lanePos < |ts| {
      assert ts[lanePos] in q.tickets;
      SameTicket(q.tickets, ts[lanePos], q.tickets[pos]);
    }
  }

  lemma {:induction false} DepartByLane(q: Queue, id: string, reserve: bool, now: nat, lane: string)
    requires Sound(q)
    ensures Project(Leave(q, id, reserve, now), lane) == LaneDepart(Project(q, lane), id, reserve, now)
  {
    hide Filter, FirstIndex;
    HolderByLane(q, id, lane);
    var pos := FirstIndex(q.tickets, WithId(id));
    FilterCommutes(q.tickets, Without(id), OnLane(lane));
    FilterCommutes(q.reservations, ReservationWithout(id), ReservedOn(lane));
    if pos < |q.tickets| {
      FilterSnoc(DropReservation(q.reservations, id), ReservationFor(q.tickets[pos], now), ReservedOn(lane));
    } else {
      FilterAll(Project(q, lane).tickets, Without(id));
    }
  }

  lemma {:induction false} RenewByLane(q: Queue, id: string, now: nat, lane: string)
    ensures Project(Refresh(q, id, now), lane) == LaneRenew(Project(q, lane), id, now)
  {
    hide Filter;
    var r := Refresh(q, id, now);
    FilterMapped(q.tickets, r.tickets, OnLane(lane), (t: Ticket) => RefreshedTicket(t, id, now));
    FilterMapped(q.reservations, r.reservations, ReservedOn(lane), (x: Reservation) => RefreshedReservation(x, id, now));
  }

  lemma {:induction false} ExpelByLane(q: Queue, claim: Claim, lane: string, now: nat)
    ensures Project(Evict(q, claim), lane) == LaneChange(Project(q, lane), Expel(claim), now)
  {
    hide Filter;
    FilterCommutes(q.tickets, Unclaimed(claim), OnLane(lane));
    FilterCommutes(q.reservations, ReservationUnclaimed(claim), ReservedOn(lane));
  }

  lemma {:induction false} PrepareByLane(q: Queue, e: Event, lane: string)
    requires Inv(q)
    ensures Project(Prepare(q, e), lane) == LaneChange(Project(q, lane), View(q, e.op, lane), e.now)
  {
    hide Filter;
    hide FirstIndex;
    match e.op
    case Acquire(req) =>
      if Accepts(q, req) {
        if req.lane == lane { JoinByLane(q, req, e.now); } else { JoinElsewhere(q, req, e.now, lane); }
      }
    case CancelProbe(_) =>
    case CancelWaiting(id) => WaiterByLane(q, id, lane);
    case Release(id, reserve) => DepartByLane(q, id, reserve, e.now, lane);
    case Heartbeat(id) => RenewByLane(q, id, e.now, lane);
    case Reclaim(claim) => ExpelByLane(q, claim, lane, e.now);
  }

  /** Every step of the queue is, on each lane, one step of that lane's own machine. */
  lemma {:induction false} StepByLane(q: Queue, e: Event, lane: string)
    requires Inv(q)
    ensures Project(Step(q, e).0, lane) == LaneStep(Project(q, lane), View(q, e.op, lane), e.now)
  {
    StepIsPump(q, e);
    PumpByLane(Prepare(q, e), lane);
    PrepareByLane(q, e, lane);
  }

  /** The lane machine after the events of a run, fed with what each means for the lane. */
  function LaneRun(events: seq<Event>, lane: string): Lane {
    if events == [] then Lane(lane, [], Slots(1), []) else
    var before := events[..|events| - 1];
    var e := events[|events| - 1];
    LaneStep(LaneRun(before, lane), View(Run(EMPTY, before), e.op, lane), e.now)
  }

  /** After every run the queue is the product of its lanes' own runs. */
  lemma {:induction false} RunByLane(events: seq<Event>, lane: string)
    ensures Project(Run(EMPTY, events), lane) == LaneRun(events, lane)
  {
    if events != [] {
      var before := events[..|events| - 1];
      RunByLane(before, lane);
      RunKeepsInv(before);
      StepByLane(Run(EMPTY, before), events[|events| - 1], lane);
    }
  }

  /** Whether the operation concerns a ticket or a reservation of the lane, or its capacity. */
  ghost predicate Touches(s: Lane, e: LaneEvent) {
    match e
    case Idle => false
    case Arrive(_) => true
    case LoseReservation(id) => exists r :: r in s.reservations && r.id == id
    case DropWaiter(id) => exists t :: t in s.tickets && t.id == id && t.state.Waiting?
    case Depart(id, _) => (exists t :: t in s.tickets && t.id == id) || (exists r :: r in s.reservations && r.id == id)
    case Renew(id) => (exists t :: t in s.tickets && t.id == id) || (exists r :: r in s.reservations && r.id == id)
    case Expel(claim) =>
      || (exists t :: t in s.tickets && claim.Covers(t.owner, t.lease))
      || (exists r :: r in s.reservations && claim.Covers(r.owner, r.lease))
  }

  lemma {:induction false} UntouchedDoesNotChange(s: Lane, e: LaneEvent, now: nat)
    requires !Touches(s, e)
    ensures LaneChange(s, e, now) == s
  {
    match e
    case Idle =>
    case LoseReservation(id) => FilterAll(s.reservations, ReservationWithout(id));
    case DropWaiter(_) =>
    case Depart(id, _) =>
      FilterAll(s.tickets, Without(id));
      FilterAll(s.reservations, ReservationWithout(id));
      FirstIndexIs(s.tickets, WithId(id), |s.tickets|);
    case Renew(id) =>
      assert forall i :: 0 <= i < |s.tickets| ==> s.tickets[i] in s.tickets;
      assert forall i :: 0 <= i < |s.reservations| ==> s.reservations[i] in s.reservations;
      assert LaneRenew(s, id, now).tickets == s.tickets;
      assert LaneRenew(s, id, now).reservations == s.reservations;
    case Expel(claim) =>
      FilterAll(s.tickets, Unclaimed(claim));
      FilterAll(s.reservations, ReservationUnclaimed(claim));
  }

  /** An operation that touches nothing of a lane leaves the lane exactly as it was. */
  lemma {:induction false} OtherLanesStayUnchanged(q: Queue, e: Event, lane: string)
    requires Inv(q) && !Touches(Project(q, lane), View(q, e.op, lane))
    ensures Project(Step(q, e).0, lane) == Project(q, lane)
  {
    StepByLane(q, e, lane);
    UntouchedDoesNotChange(Project(q, lane), View(q, e.op, lane), e.now);
    PumpByLane(q, lane);
    PumpIsIdle(q);
  }
}
