/**
 Every operation is a change to the holders followed by one pump, and what
 follows for capacity and for the order of admission.
 */
module QueueSteps {
  import opened Sequences
  import opened QueueState
  import opened QueueInvariant

  /** What an operation does before its lanes are pumped. */
  function Prepare(q: Queue, e: Event): Queue {
    match e.op
    case Acquire(req) => if Accepts(q, req) then Join(q, req, e.now) else StepAcquire(q, req, e.now).0
    case CancelProbe(id) => StepCancelProbe(q, id).0
    case CancelWaiting(id) => if HasWaiter(q, id) then KeepTickets(q, Without(id)) else q
    case Release(id, reserve) => Leave(q, id, reserve, e.now)
    case Heartbeat(id) => Refresh(q, id, e.now)
    case Reclaim(claim) => Evict(q, claim)
  }

  lemma {:induction false} KeepingAllKeepsAll(q: Queue, keep: Ticket -> bool)
    requires |Filter(q.tickets, keep)| == |q.tickets|
    ensures KeepTickets(q, keep) == q
  {
    FilterDroppedNothing(q.tickets, keep);
    assert (set t | t in q.tickets && !keep(t) :: t.id) == {};
    assert q.senders - {} == q.senders;
    assert ChannelsOf(q.senders, {}) == {};
    assert Settle(q.channels, {}, Closed) == q.channels;
  }

  lemma {:induction false} EvictingNobody(q: Queue, claim: Claim)
    requires |Evict(q, claim).tickets| == |q.tickets| && |Evict(q, claim).reservations| == |q.reservations|
    ensures Evict(q, claim) == q
  {
    FilterDroppedNothing(q.reservations, ReservationUnclaimed(claim));
    KeepingAllKeepsAll(q, Unclaimed(claim));
  }

  lemma {:induction false} PrepareIsSound(q: Queue, e: Event)
    requires Inv(q)
    ensures Sound(Prepare(q, e))
  {
    match e.op
    case Acquire(req) => if Accepts(q, req) { JoinIsSound(q, req, e.now); } else { AcquireKeepsInv(q, req, e.now); }
    case CancelProbe(id) => CancelKeepsInv(q, id);
    case CancelWaiting(id) => KeepIsSound(q, Without(id));
    case Release(id, reserve) => LeaveIsSound(q, id, reserve, e.now);
    case Heartbeat(id) =>
      RefreshChangesLeases(q, id, e.now);
      LeasesAreFree(q, Refresh(q, id, e.now));
    case Reclaim(claim) => EvictIsSound(q, claim);
  }

  /**
   No operation forgets to pump: where the code does not, its change freed
   nothing, and a pump would have found nobody to admit.
   */
  lemma {:induction false} StepIsPump(q: Queue, e: Event)
    requires Inv(q)
    ensures Sound(Prepare(q, e))
    ensures Step(q, e).0 == Pump(Prepare(q, e))
  {
    hide Inv, Join, Pump, KeepTickets, Leave, Refresh, Evict, HasTicket, HasReservation, HasWaiter;
    PrepareIsSound(q, e);
    StepKeepsInv(q, e);
    if e.op.Release? {
      ReleaseForgetsNoPump(q, e.op.id, e.op.reserve, e.now);
    } else if e.op.Reclaim? {
      ReclaimForgetsNoPump(q, e.op.claim);
    } else if Prepare(q, e) == Step(q, e).0 {
      NothingToPump(Step(q, e).0);
    }
  }

  lemma {:induction false} NothingToPump(q: Queue)
    requires Inv(q)
    ensures Pump(q) == q
  {
    PumpIsIdle(q);
  }

  lemma {:induction false} ReleaseForgetsNoPump(q: Queue, id: string, reserve: bool, now: nat)
    requires Inv(q)
    ensures StepRelease(q, id, reserve, now).0 == Pump(Leave(q, id, reserve, now))
  {
    hide Inv, Pump, Leave;
    if !HasTicket(q, id) && !HasReservation(q, id) {
      LeaveOfAStranger(q, id, reserve, now);
      NothingToPump(q);
    }
  }

  lemma {:induction false} ReclaimForgetsNoPump(q: Queue, claim: Claim)
    requires Inv(q)
    ensures StepReclaim(q, claim).0 == Pump(Evict(q, claim))
  {
    hide Inv, Pump, Evict;
    if |Evict(q, claim).tickets| == |q.tickets| && |Evict(q, claim).reservations| == |q.reservations| {
      EvictingNobody(q, claim);
      NothingToPump(q);
    }
  }

  // Capacity.

  lemma {:induction false} JoinDoesNotRun(q: Queue, req: Request, now: nat, lane: string)
    ensures Used(Join(q, req, now), lane) == Used(q, lane)
  {
    FilterInsert(q.tickets, InsertionPoint(q, req.lane, req.front), NewTicket(req, now), RunningOn(lane));
  }

  /** Before the pump, an operation only takes running tickets away. */
  lemma {:induction false} PrepareOnlyFrees(q: Queue, e: Event, lane: string)
    ensures Used(Prepare(q, e), lane) <= Used(q, lane)
  {
    hide Filter, FirstIndex, Join, Refresh;
    match e.op
    case Acquire(req) => JoinDoesNotRun(q, req, e.now, lane);
    case CancelProbe(_) =>
    case CancelWaiting(id) => CountAfterFilter(q.tickets, Without(id), RunningOn(lane));
    case Release(id, _) => CountAfterFilter(q.tickets, Without(id), RunningOn(lane));
    case Heartbeat(id) =>
      RefreshChangesLeases(q, id, e.now);
      LeasesDoNotLoad(q, Refresh(q, id, e.now), lane);
    case Reclaim(claim) => CountAfterFilter(q.tickets, Unclaimed(claim), RunningOn(lane));
  }

  /** No operation raises a lane's load above what it was and the capacity now in force. */
  lemma {:induction false} StepRespectsCapacity(q: Queue, e: Event, lane: string)
    requires Inv(q)
    ensures
      var r := Step(q, e).0;
      Used(r, lane) <= Used(q, lane) || Slots(Used(r, lane)).AtMost(CapacityOf(r.capacity, lane))
  {
    StepIsPump(q, e);
    PrepareOnlyFrees(q, e, lane);
    PumpLevel(Prepare(q, e), lane);
  }

  /** Whether every acquire of a run on `lane` asks for a capacity of at most `bound`. */
  ghost predicate AsksAtMost(events: seq<Event>, lane: string, bound: Capacity) {
    forall i :: 0 <= i < |events| && events[i].op.Acquire? && events[i].op.req.lane == lane ==>
      RequestedCapacity(events[i].op.req.maxParallel).AtMost(bound)
  }

  lemma {:induction false} StepCapacity(q: Queue, e: Event, lane: string)
    ensures
      CapacityOf(Step(q, e).0.capacity, lane) ==
        if e.op.Acquire? && Accepts(q, e.op.req) && e.op.req.lane == lane
        then RequestedCapacity(e.op.req.maxParallel) else CapacityOf(q.capacity, lane)
  {
  }

  /** Over any run a lane never runs more tickets than the largest capacity ever asked for it. */
  lemma {:induction false} RunRespectsCapacity(events: seq<Event>, lane: string, bound: Capacity)
    requires AsksAtMost(events, lane, bound) && bound.Admits(0)
    ensures CapacityOf(Run(EMPTY, events).capacity, lane).AtMost(bound)
    ensures Slots(Used(Run(EMPTY, events), lane)).AtMost(bound)
  {
    if events != [] {
      var before := events[..|events| - 1];
      RunRespectsCapacity(before, lane, bound);
      RunKeepsInv(before);
      StepRespectsCapacity(Run(EMPTY, before), events[|events| - 1], lane);
      StepCapacity(Run(EMPTY, before), events[|events| - 1], lane);
    }
  }

  // Order of admission.

  /** Whether `t` runs, and did not in `q`. */
  ghost predicate NewlyRunning(q: Queue, t: Ticket) {
    t.state.Running? && !(exists u :: u in q.tickets && u.id == t.id && u.state.Running?)
  }

  lemma {:induction false} EarlierIsOffered(ts: seq<Ticket>, i: nat, j: nat, p: Ticket -> bool)
    requires i < j <= |ts|
    ensures Count(ts[..i], p) <= Count(ts[..j], p)
  {
    assert ts[..j][..i] == ts[..i];
    FilterPrefix(ts[..j], i, p);
  }

  /** One pump admits no ticket ahead of an earlier waiter of its lane, except a foreground one past a background one. */
  lemma {:induction false} PumpIsFair(q: Queue, i: nat, j: nat)
    requires i < j < |q.tickets| && q.tickets[i].lane == q.tickets[j].lane
    requires q.tickets[j].state.Waiting?
    requires Pump(q).tickets[i].state.Waiting? && Pump(q).tickets[j].state.Running?
    ensures q.tickets[i].priority.Background? && q.tickets[j].priority.Foreground?
  {
    var lane := q.tickets[i].lane;
    EarlierIsOffered(q.tickets, i, j, EligibleOn(lane, BusyForBackground(q, lane)));
  }

  /** A ticket that runs before the pump ran in `q` already. */
  lemma {:induction false} PrepareAdmitsNobody(q: Queue, e: Event, t: Ticket)
    requires Inv(q) && t in Prepare(q, e).tickets && t.state.Running?
    ensures !NewlyRunning(q, t)
  {
    hide FirstIndex, Settle, Inv, CapacityOf;
    match e.op
    case Acquire(req) => if Accepts(q, req) { JoinInserts(q, req, e.now); }
    case Heartbeat(id) =>
      var i :| 0 <= i < |q.tickets| && t == RefreshedTicket(q.tickets[i], id, e.now);
      assert q.tickets[i] in q.tickets;
    case _ =>
  }

  /**
   Whenever an operation lets a ticket run and leaves an earlier ticket of the
   lane waiting, the one is a foreground and the other a background ticket.
   */
  lemma {:induction false} StepIsFair(q: Queue, e: Event, i: nat, j: nat)
    requires Inv(q)
    requires i < j < |Step(q, e).0.tickets|
    requires
      var ts := Step(q, e).0.tickets;
      ts[i].lane == ts[j].lane && ts[i].state.Waiting? && NewlyRunning(q, ts[j])
    ensures
      var ts := Step(q, e).0.tickets;
      ts[i].priority.Background? && ts[j].priority.Foreground?
  {
    StepIsPump(q, e);
    var p := Prepare(q, e);
    var t := p.tickets[j];
    if t.state.Running? {
      PrepareAdmitsNobody(q, e, t);
    }
    PumpIsFair(p, i, j);
  }
}
