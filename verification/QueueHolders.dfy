/**
 Who holds what after a step and after a run, in the terms of the requests: which ids have a
 ticket or a reservation, what each of them carries over from its acquire, and for how long.
 */
module QueueHolders {
  import opened Sequences
  import opened QueueState
  import opened QueueInvariant
  import opened QueueSteps
  import opened QueueLeases

  // One step.

  lemma {:induction false} PumpKeepsHolding(q: Queue, id: string)
    ensures HasTicket(Pump(q), id) <==> HasTicket(q, id)
    ensures HasReservation(Pump(q), id) <==> HasReservation(q, id)
  {
    var p := Pump(q);
    if t :| t in q.tickets && t.id == id {
      var i :| 0 <= i < |q.tickets| && q.tickets[i] == t;
      assert p.tickets[i] in p.tickets;
    }
    if t :| t in p.tickets && t.id == id {
      var i :| 0 <= i < |p.tickets| && p.tickets[i] == t;
      assert q.tickets[i] in q.tickets;
    }
  }

  /** The ids with a ticket after a step. */
  ghost predicate TicketAfter(q: Queue, op: Op, id: string) {
    match op
    case Acquire(req) => HasTicket(q, id) || (id == req.id && id !in q.cancelledEarly)
    case CancelProbe(_) => HasTicket(q, id)
    case CancelWaiting(x) =>
      HasTicket(q, id) && !(x == id && exists t :: t in q.tickets && t.id == id && t.state.Waiting?)
    case Release(x, _) => HasTicket(q, id) && x != id
    case Heartbeat(_) => HasTicket(q, id)
    case Reclaim(OwnedBy(window)) => exists t :: t in q.tickets && t.id == id && t.owner != window
    case Reclaim(LeaseBefore(now)) => exists t :: t in q.tickets && t.id == id && t.lease >= now
  }

  /** The ids with a reservation after a step. */
  ghost predicate ReservationAfter(q: Queue, op: Op, id: string) {
    match op
    case Acquire(req) =>
      HasReservation(q, id)
      && !(req.replacing == Some(id) && !HasTicket(q, req.id) && req.id !in q.cancelledEarly)
    case CancelProbe(_) => HasReservation(q, id)
    case CancelWaiting(_) => HasReservation(q, id)
    case Release(x, reserve) => if x == id then reserve && HasTicket(q, id) else HasReservation(q, id)
    case Heartbeat(_) => HasReservation(q, id)
    case Reclaim(OwnedBy(window)) => exists r :: r in q.reservations && r.id == id && r.owner != window
    case Reclaim(LeaseBefore(now)) => exists r :: r in q.reservations && r.id == id && r.lease >= now
  }

  lemma {:induction false} JoinedHolders(q: Queue, req: Request, now: nat, id: string)
    ensures HasTicket(Join(q, req, now), id) <==> HasTicket(q, id) || id == req.id
    ensures HasReservation(Join(q, req, now), id) <==> HasReservation(q, id) && req.replacing != Some(id)
  {
    hide Filter, FirstIndex;
    var j := Join(q, req, now);
    JoinInserts(q, req, now);
    assert NewTicket(req, now) in j.tickets;
    if t :| t in q.tickets && t.id == id {
      assert t in j.tickets;
    }
    if r :| r in q.reservations && r.id == id && req.replacing != Some(id) {
      assert r in j.reservations;
    }
  }

  lemma {:induction false} LeftHolders(q: Queue, x: string, reserve: bool, now: nat, id: string)
    ensures HasTicket(Leave(q, x, reserve, now), id) <==> HasTicket(q, id) && x != id
    ensures HasReservation(Leave(q, x, reserve, now), id) <==>
            if x == id then reserve && HasTicket(q, id) else HasReservation(q, id)
  {
    hide Filter;
    var left := Leave(q, x, reserve, now);
    var pos := FirstIndex(q.tickets, WithId(x));
    if pos < |q.tickets| {
      assert q.tickets[pos] in q.tickets;
      if reserve {
        assert ReservationFor(q.tickets[pos], now) in left.reservations;
      }
    }
    if t :| t in q.tickets && t.id == id && x != id {
      assert t in left.tickets;
    }
    if r :| r in q.reservations && r.id == id && x != id {
      assert r in DropReservation(q.reservations, x);
      assert r in left.reservations;
    }
  }

  lemma {:induction false} RefreshedHolders(q: Queue, x: string, now: nat, id: string)
    ensures HasTicket(Refresh(q, x, now), id) <==> HasTicket(q, id)
    ensures HasReservation(Refresh(q, x, now), id) <==> HasReservation(q, id)
  {
    var r := Refresh(q, x, now);
    if t :| t in q.tickets && t.id == id {
      var i :| 0 <= i < |q.tickets| && q.tickets[i] == t;
      assert r.tickets[i] in r.tickets;
    }
    if t :| t in r.tickets && t.id == id {
      var i :| 0 <= i < |r.tickets| && r.tickets[i] == t;
      assert q.tickets[i] in q.tickets;
    }
    if s :| s in q.reservations && s.id == id {
      var i :| 0 <= i < |q.reservations| && q.reservations[i] == s;
      assert r.reservations[i] in r.reservations;
    }
    if s :| s in r.reservations && s.id == id {
      var i :| 0 <= i < |r.reservations| && r.reservations[i] == s;
      assert q.reservations[i] in q.reservations;
    }
  }

  lemma {:induction false} CancelledHolders(q: Queue, x: string, id: string)
    requires Sound(q)
    ensures HasTicket(Step(q, Event(CancelWaiting(x), 0)).0, id) <==> TicketAfter(q, CancelWaiting(x), id)
    ensures HasReservation(Step(q, Event(CancelWaiting(x), 0)).0, id) <==> HasReservation(q, id)
  {
    hide Filter;
    if HasWaiter(q, x) {
      var kept := KeepTickets(q, Without(x));
      PumpKeepsHolding(kept, id);
      if t :| t in q.tickets && t.id == id && x != id {
        assert t in kept.tickets;
      }
    }
  }

  lemma {:induction false} AcquiredHolders(q: Queue, req: Request, now: nat, id: string)
    ensures HasTicket(StepAcquire(q, req, now).0, id) <==> TicketAfter(q, Acquire(req), id)
    ensures HasReservation(StepAcquire(q, req, now).0, id) <==> ReservationAfter(q, Acquire(req), id)
  {
    if Accepts(q, req) {
      JoinedHolders(q, req, now, id);
      PumpKeepsHolding(Join(q, req, now), id);
    }
  }

  lemma {:induction false} ReleasedHolders(q: Queue, x: string, reserve: bool, now: nat, id: string)
    ensures HasTicket(StepRelease(q, x, reserve, now).0, id) <==> TicketAfter(q, Release(x, reserve), id)
    ensures HasReservation(StepRelease(q, x, reserve, now).0, id) <==> ReservationAfter(q, Release(x, reserve), id)
  {
    hide Leave;
    LeftHolders(q, x, reserve, now, id);
    PumpKeepsHolding(Leave(q, x, reserve, now), id);
  }

  /** Exactly which ids have a ticket and which have a reservation after each operation. */
  lemma {:induction false} StepHolders(q: Queue, e: Event, id: string)
    requires Inv(q)
    ensures HasTicket(Step(q, e).0, id) <==> TicketAfter(q, e.op, id)
    ensures HasReservation(Step(q, e).0, id) <==> ReservationAfter(q, e.op, id)
  {
    hide StepAcquire, StepRelease, StepReclaim, Refresh;
    match e.op
    case Acquire(req) => AcquiredHolders(q, req, e.now, id);
    case CancelProbe(_) =>
    case CancelWaiting(x) => CancelledHolders(q, x, id);
    case Release(x, reserve) => ReleasedHolders(q, x, reserve, e.now, id);
    case Heartbeat(x) => RefreshedHolders(q, x, e.now, id);
    case Reclaim(OwnedBy(window)) => WindowReleaseIsExact(q, window, e.now);
    case Reclaim(LeaseBefore(now)) => SweepIsExact(q, now, e.now);
  }

  /** Exactly what each operation answers. */
  lemma {:induction false} StepReplies(q: Queue, e: Event)
    requires Inv(q)
    ensures
      var reply := Step(q, e).1;
      match e.op
      case Acquire(req) =>
        && (reply == Duplicate <==> HasTicket(q, req.id))
        && (reply == Refused <==> !HasTicket(q, req.id) && req.id in q.cancelledEarly)
        && (reply.Accepted? <==> !HasTicket(q, req.id) && req.id !in q.cancelledEarly)
      case CancelProbe(id) => reply == Changed(HasTicket(q, id))
      case CancelWaiting(id) => reply == Changed(exists t :: t in q.tickets && t.id == id && t.state.Waiting?)
      case Release(id, _) => reply == Changed(HasTicket(q, id) || HasReservation(q, id))
      case Heartbeat(_) => reply == Changed(false)
      case Reclaim(OwnedBy(window)) =>
        reply == Changed((exists t :: t in q.tickets && t.owner == window) || (exists r :: r in q.reservations && r.owner == window))
      case Reclaim(LeaseBefore(now)) =>
        reply == Changed((exists t :: t in q.tickets && t.lease < now) || (exists r :: r in q.reservations && r.lease < now))
  {
    if e.op.Reclaim? {
      ReclaimAnswers(q, e.op.claim);
    }
  }

  // What a ticket and a reservation carry over.

  /** `t` is what the accepted acquire of `e` asked for. */
  ghost predicate AskedFor(q: Queue, e: Event, t: Ticket) {
    && e.op.Acquire? && !HasTicket(q, e.op.req.id) && e.op.req.id !in q.cancelledEarly
    && t.id == e.op.req.id && t.lane == e.op.req.lane && t.owner == e.op.req.window
    && t.front == e.op.req.front && t.priority == e.op.req.priority
  }

  /** A lease after an event: five minutes from now after a heartbeat of its id, and otherwise what it was. */
  predicate LeaseGoesOn(e: Event, id: string, was: nat, lease: nat) {
    lease == if e.op == Heartbeat(id) then e.now + 300_000 else was
  }

  /** `t` is `u` after `e`: at most admitted, and renewed by its heartbeat. */
  ghost predicate Continues(e: Event, u: Ticket, t: Ticket) {
    && t.id == u.id && t.lane == u.lane && t.owner == u.owner && t.front == u.front && t.priority == u.priority
    && (u.state.Running? ==> t.state.Running?)
    && LeaseGoesOn(e, u.id, u.lease, t.lease)
  }

  lemma {:induction false} PumpCarriesOver(q: Queue, t: Ticket)
    requires t in Pump(q).tickets
    ensures exists u :: u in q.tickets && (t == u || (u.state.Waiting? && t == u.(state := Running)))
  {
    var i :| 0 <= i < |q.tickets| && Pump(q).tickets[i] == t;
    assert q.tickets[i] in q.tickets;
  }

  lemma {:induction false} PrepareCarriesOver(q: Queue, e: Event, t: Ticket)
    requires t in Prepare(q, e).tickets
    ensures (AskedFor(q, e, t) && t.state.Waiting? && t.lease == e.now + 300_000)
            || (exists u :: u in q.tickets && Continues(e, u, t) && t.state == u.state)
  {
    hide Filter, FirstIndex, Settle;
    if e.op.Heartbeat? {
      var i :| 0 <= i < |q.tickets| && t == RefreshedTicket(q.tickets[i], e.op.id, e.now);
      assert q.tickets[i] in q.tickets && Continues(e, q.tickets[i], t);
    } else if e.op.Acquire? && Accepts(q, e.op.req) {
      JoinInserts(q, e.op.req, e.now);
      assert t in q.tickets ==> Continues(e, t, t);
    } else {
      assert t in q.tickets && Continues(e, t, t);
    }
  }

  /** A ticket is new with what its acquire asked for and a full lease, or it is an old one carried over. */
  lemma {:induction false} StepCarriesTicketsOver(q: Queue, e: Event, t: Ticket)
    requires Inv(q) && t in Step(q, e).0.tickets
    ensures (AskedFor(q, e, t) && t.lease == e.now + 300_000) || (exists u :: u in q.tickets && Continues(e, u, t))
  {
    hide Step, Prepare, Pump;
    StepIsPump(q, e);
    PumpCarriesOver(Prepare(q, e), t);
    var p :| p in Prepare(q, e).tickets && (t == p || (p.state.Waiting? && t == p.(state := Running)));
    PrepareCarriesOver(q, e, p);
    if u :| u in q.tickets && Continues(e, u, p) && p.state == u.state {
      assert Continues(e, u, t);
    }
  }

  /** A reservation is what the ticket given back by `e` leaves, with a full lease, or it is an old one. */
  lemma {:induction false} StepCarriesReservationsOver(q: Queue, e: Event, r: Reservation)
    requires Inv(q) && r in Step(q, e).0.reservations
    ensures
      || (&& e.op == Release(r.id, true) && r.lease == e.now + 300_000
          && exists u :: u in q.tickets && u.id == r.id && u.lane == r.lane && u.owner == r.owner)
      || (exists s :: s in q.reservations && s.id == r.id && s.lane == r.lane && s.owner == r.owner
                      && LeaseGoesOn(e, r.id, s.lease, r.lease))
  {
    hide Step, Inv, Prepare;
    StepIsPump(q, e);
    PrepareCarriesReservationsOver(q, e, r);
  }

  lemma {:induction false} PrepareCarriesReservationsOver(q: Queue, e: Event, r: Reservation)
    requires r in Prepare(q, e).reservations
    ensures
      || (&& e.op == Release(r.id, true) && r.lease == e.now + 300_000
          && exists u :: u in q.tickets && u.id == r.id && u.lane == r.lane && u.owner == r.owner)
      || (exists s :: s in q.reservations && s.id == r.id && s.lane == r.lane && s.owner == r.owner
                      && LeaseGoesOn(e, r.id, s.lease, r.lease))
  {
    hide Filter, FirstIndex, Settle, Leave, StepAcquire, StepCancelProbe;
    if e.op.Heartbeat? {
      var i :| 0 <= i < |q.reservations| && r == RefreshedReservation(q.reservations[i], e.op.id, e.now);
      assert q.reservations[i] in q.reservations;
    } else if e.op.Release? {
      ReservationsLeft(q, e.op.id, e.op.reserve, e.now, r);
    } else {
      ReservationsStay(q, e, r);
    }
  }

  lemma {:induction false} ReservationsStay(q: Queue, e: Event, r: Reservation)
    requires r in Prepare(q, e).reservations && !e.op.Heartbeat? && !e.op.Release?
    ensures r in q.reservations
  {
    hide Filter, FirstIndex, Settle;
  }

  lemma {:induction false} ReservationsLeft(q: Queue, id: string, reserve: bool, now: nat, r: Reservation)
    requires r in Leave(q, id, reserve, now).reservations
    ensures r in q.reservations
            || (reserve && r.id == id && r.lease == now + 300_000
                && exists u :: u in q.tickets && u.id == r.id && u.lane == r.lane && u.owner == r.owner)
  {
    hide Filter;
    var pos := FirstIndex(q.tickets, WithId(id));
    if r !in q.reservations {
      assert q.tickets[pos] in q.tickets;
    }
  }

  // Over a run.

  /** Every ticket of a run is what an accepted acquire of the run asked for. */
  lemma {:induction false} TicketsComeFromAcquires(events: seq<Event>, t: Ticket)
    requires t in Run(EMPTY, events).tickets
    ensures exists i :: 0 <= i < |events| && AskedFor(Run(EMPTY, events[..i]), events[i], t)
  {
    hide Step, AskedFor;
    if events != [] {
      var before, e := events[..|events| - 1], events[|events| - 1];
      RunKeepsInv(before);
      StepCarriesTicketsOver(Run(EMPTY, before), e, t);
      if u :| u in Run(EMPTY, before).tickets && Continues(e, u, t) {
        TicketsComeFromAcquires(before, u);
        var i :| 0 <= i < |before| && AskedFor(Run(EMPTY, before[..i]), before[i], u);
        SameTermsAskedFor(Run(EMPTY, before[..i]), before[i], e, u, t);
        assert before[..i] == events[..i];
      }
    }
  }

  lemma {:induction false} SameTermsAskedFor(q: Queue, e: Event, later: Event, u: Ticket, t: Ticket)
    requires AskedFor(q, e, u) && Continues(later, u, t)
    ensures AskedFor(q, e, t)
  {
  }

  /** Whether the `i`th event of a run is an accepted acquire under `id`, on `lane` and from `window`. */
  ghost predicate AcceptedAt(events: seq<Event>, i: nat, id: string, lane: string, window: string) {
    && i < |events| && events[i].op.Acquire?
    && !HasTicket(Run(EMPTY, events[..i]), id) && id !in Run(EMPTY, events[..i]).cancelledEarly
    && events[i].op.req.id == id && events[i].op.req.lane == lane && events[i].op.req.window == window
  }

  /** Every reservation of a run was left by a release of a ticket that an acquire of the run had brought. */
  lemma {:induction false} ReservationsComeFromReleases(events: seq<Event>, r: Reservation)
    requires r in Run(EMPTY, events).reservations
    ensures exists i, j :: 0 <= i < j < |events| && AcceptedAt(events, i, r.id, r.lane, r.owner)
                           && events[j].op == Release(r.id, true)
  {
    hide Step;
    if events != [] {
      var before, e := events[..|events| - 1], events[|events| - 1];
      RunKeepsInv(before);
      StepCarriesReservationsOver(Run(EMPTY, before), e, r);
      if s :| s in Run(EMPTY, before).reservations && s.id == r.id && s.lane == r.lane && s.owner == r.owner {
        ReservationsComeFromReleases(before, s);
        var i, j :| 0 <= i < j < |before| && AcceptedAt(before, i, s.id, s.lane, s.owner)
                    && before[j].op == Release(s.id, true);
        assert before[..i] == events[..i];
        assert AcceptedAt(events, i, r.id, r.lane, r.owner) && events[j].op == Release(r.id, true);
      } else {
        var u :| u in Run(EMPTY, before).tickets && u.id == r.id && u.lane == r.lane && u.owner == r.owner;
        TicketsComeFromAcquires(before, u);
        var i :| 0 <= i < |before| && AskedFor(Run(EMPTY, before[..i]), before[i], u);
        assert before[..i] == events[..i];
        assert AcceptedAt(events, i, r.id, r.lane, r.owner) && events[|before|].op == Release(r.id, true);
      }
    }
  }

  /** Every acquire of the run under `id` comes from `window`. */
  ghost predicate AcquiredFrom(events: seq<Event>, id: string, window: string) {
    forall i :: 0 <= i < |events| && events[i].op.Acquire? && events[i].op.req.id == id ==>
      events[i].op.req.window == window
  }

  lemma {:induction false} HoldersBelongToTheirWindow(events: seq<Event>, id: string, window: string)
    requires AcquiredFrom(events, id, window)
    ensures forall t :: t in Run(EMPTY, events).tickets && t.id == id ==> t.owner == window
    ensures forall r :: r in Run(EMPTY, events).reservations && r.id == id ==> r.owner == window
  {
    hide Run;
    forall t | t in Run(EMPTY, events).tickets && t.id == id ensures t.owner == window {
      TicketsComeFromAcquires(events, t);
    }
    forall r | r in Run(EMPTY, events).reservations && r.id == id ensures r.owner == window {
      ReservationsComeFromReleases(events, r);
    }
  }

  /** After a window is released, no id acquired from it holds anything, and every other id holds what it held. */
  lemma {:induction false} ReleasedWindowHoldsNothing(events: seq<Event>, id: string, window: string, released: string, now: nat)
    requires AcquiredFrom(events, id, window)
    ensures
      var before := Run(EMPTY, events);
      var after := Step(before, Event(Reclaim(OwnedBy(released)), now)).0;
      if released == window then !HasTicket(after, id) && !HasReservation(after, id)
      else HasTicket(after, id) == HasTicket(before, id) && HasReservation(after, id) == HasReservation(before, id)
  {
    hide Run, Step;
    RunKeepsInv(events);
    HoldersBelongToTheirWindow(events, id, window);
    StepHolders(Run(EMPTY, events), Event(Reclaim(OwnedBy(released)), now), id);
  }

  // Silence.

  /** What renews or begins a lease of `id`: its acquire, its heartbeat, or giving its slot back with a reservation. */
  predicate ShowsLife(e: Event, id: string) {
    || (e.op.Acquire? && e.op.req.id == id)
    || e.op == Heartbeat(id)
    || e.op == Release(id, true)
  }

  /** When `id` last showed life in a run; zero before it ever did. */
  function LastLife(events: seq<Event>, id: string): nat {
    if events == [] then 0
    else if ShowsLife(events[|events| - 1], id) then events[|events| - 1].now
    else LastLife(events[..|events| - 1], id)
  }

  ghost predicate LeasesEndBy(q: Queue, id: string, end: nat) {
    && (forall t :: t in q.tickets && t.id == id ==> t.lease <= end)
    && (forall r :: r in q.reservations && r.id == id ==> r.lease <= end)
  }

  lemma {:induction false} StepLeasesEnd(q: Queue, e: Event, id: string, end: nat)
    requires Inv(q) && LeasesEndBy(q, id, end)
    requires end <= e.now + 300_000
    ensures LeasesEndBy(Step(q, e).0, id, if ShowsLife(e, id) then e.now + 300_000 else end)
  {
    hide Step, Inv;
    forall t | t in Step(q, e).0.tickets && t.id == id
      ensures t.lease <= if ShowsLife(e, id) then e.now + 300_000 else end
    {
      StepCarriesTicketsOver(q, e, t);
    }
    forall r | r in Step(q, e).0.reservations && r.id == id
      ensures r.lease <= if ShowsLife(e, id) then e.now + 300_000 else end
    {
      StepCarriesReservationsOver(q, e, r);
    }
  }

  lemma {:induction false} LastLifeIsPast(events: seq<Event>, id: string, now: nat)
    requires forall i :: 0 <= i < |events| ==> events[i].now <= now
    ensures LastLife(events, id) <= now
  {
    if events != [] {
      LastLifeIsPast(events[..|events| - 1], id, now);
    }
  }

  lemma {:induction false} LeasesEndAfterLastLife(events: seq<Event>, id: string)
    requires ClockRuns(events, 0)
    ensures LeasesEndBy(Run(EMPTY, events), id, LastLife(events, id) + 300_000)
  {
    hide Step, LeasesEndBy, Inv, ShowsLife;
    if events == [] {
      EmptyHasNoLeases(id);
    } else {
      var before, e := events[..|events| - 1], events[|events| - 1];
      LeasesEndAfterLastLife(before, id);
      LastLifeIsPast(before, id, e.now);
      RunKeepsInv(before);
      StepLeasesEnd(Run(EMPTY, before), e, id, LastLife(before, id) + 300_000);
    }
  }

  lemma {:induction false} EmptyHasNoLeases(id: string)
    ensures LeasesEndBy(EMPTY, id, 300_000)
  {
  }

  /** With a clock that does not run backwards, an id silent for longer than five minutes loses all it holds in the next sweep. */
  lemma {:induction false} SilentIdsAreSwept(events: seq<Event>, id: string, now: nat, at: nat)
    requires ClockRuns(events, 0) && now > LastLife(events, id) + 300_000
    ensures
      var after := Step(Run(EMPTY, events), Event(Reclaim(LeaseBefore(now)), at)).0;
      !HasTicket(after, id) && !HasReservation(after, id)
  {
    hide Run, Step, LastLife;
    RunKeepsInv(events);
    LeasesEndAfterLastLife(events, id);
    StepHolders(Run(EMPTY, events), Event(Reclaim(LeaseBefore(now)), at), id);
  }
}
