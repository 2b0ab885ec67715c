/**
 A turn keeps background tickets of its lane out for its whole life: while it
 waits, while it runs, and while it holds a reservation between two slots.
 */
module QueueTurns {
  import opened Sequences
  import opened QueueState
  import opened QueueInvariant
  import opened QueueSteps

  /** The turn that goes by `id` has a foreground ticket of the lane, or holds the lane with a reservation. */
  ghost predicate Holds(q: Queue, id: string, lane: string) {
    || (exists t :: t in q.tickets && t.id == id && t.lane == lane && t.priority.Foreground?)
    || (exists r :: r in q.reservations && r.id == id && r.lane == lane)
  }

  /** No id has a ticket and a reservation at once; so while request ids are not used again. */
  ghost predicate IdsUsedOnce(q: Queue) {
    forall t, r :: t in q.tickets && r in q.reservations ==> t.id != r.id
  }

  /** An acquire under an id that a reservation still goes by. */
  ghost predicate ReusesId(q: Queue, e: Event) {
    e.op.Acquire? && HasReservation(q, e.op.req.id) && e.op.req.replacing != Some(e.op.req.id)
  }

  /** Whether the event is the turn `id` taking its slot back, on its lane and in the foreground. */
  predicate TakesBack(q: Queue, e: Event, id: string, lane: string) {
    && e.op.Acquire? && Accepts(q, e.op.req)
    && e.op.req.replacing == Some(id) && e.op.req.lane == lane && e.op.req.priority.Foreground?
  }

  /** The id the turn goes by after an event. */
  function NextId(q: Queue, e: Event, id: string, lane: string): string {
    if TakesBack(q, e, id, lane) then e.op.req.id else id
  }

  /** The events that end the turn `id`. */
  predicate Ends(q: Queue, e: Event, id: string, lane: string) {
    match e.op
    case Acquire(req) =>
      Accepts(q, req) && req.replacing == Some(id) && HasReservation(q, id) && !TakesBack(q, e, id, lane)
    case CancelProbe(_) => false
    case CancelWaiting(x) => x == id && HasWaiter(q, id)
    case Release(x, reserve) => x == id && !(reserve && HasTicket(q, id))
    case Heartbeat(_) => false
    case Reclaim(claim) =>
      || (exists t :: t in q.tickets && t.id == id && claim.Covers(t.owner, t.lease))
      || (exists r :: r in q.reservations && r.id == id && claim.Covers(r.owner, r.lease))
  }

  lemma {:induction false} HoldingMakesBusy(q: Queue, id: string, lane: string)
    requires Holds(q, id, lane)
    ensures BusyForBackground(q, lane)
  {
  }

  lemma {:induction false} PumpKeepsHolds(q: Queue, id: string, lane: string)
    ensures Holds(Pump(q), id, lane) <==> Holds(q, id, lane)
  {
    var p := Pump(q);
    if t :| t in q.tickets && t.id == id && t.lane == lane && t.priority.Foreground? {
      var i :| 0 <= i < |q.tickets| && q.tickets[i] == t;
      assert p.tickets[i] in p.tickets;
    }
    if t :| t in p.tickets && t.id == id && t.lane == lane && t.priority.Foreground? {
      var i :| 0 <= i < |p.tickets| && p.tickets[i] == t;
      assert q.tickets[i] in q.tickets;
    }
  }

  /** No operation lets a background ticket run on a lane that is held afterwards. */
  lemma {:induction false} HeldLanesAdmitNoBackground(q: Queue, e: Event, id: string, lane: string, t: Ticket)
    requires Inv(q) && Holds(Step(q, e).0, id, lane)
    requires t in Step(q, e).0.tickets && t.lane == lane && t.priority.Background?
    ensures !NewlyRunning(q, t)
  {
    hide Filter, Step, Prepare;
    var p := Prepare(q, e);
    StepIsPump(q, e);
    PumpKeepsHolds(p, id, lane);
    HoldingMakesBusy(p, id, lane);
    var i :| 0 <= i < |p.tickets| && Pump(p).tickets[i] == t;
    assert !AdmittedAt(p, i);
    assert p.tickets[i] in p.tickets;
    if t.state.Running? {
      PrepareAdmitsNobody(q, e, t);
    }
  }

  // What keeps a turn, and what ends it.

  lemma {:induction false} JoinHolds(q: Queue, e: Event, id: string, lane: string)
    requires e.op.Acquire? && Accepts(q, e.op.req) && Holds(q, id, lane) && IdsUsedOnce(q)
    ensures Holds(Join(q, e.op.req, e.now), NextId(q, e, id, lane), lane) <==> !Ends(q, e, id, lane)
  {
    hide Filter, FirstIndex;
    var j := Join(q, e.op.req, e.now);
    JoinInserts(q, e.op.req, e.now);
    assert NewTicket(e.op.req, e.now) in j.tickets;
    if t :| t in q.tickets && t.id == id && t.lane == lane && t.priority.Foreground? {
      assert t in j.tickets;
    }
    if r :| r in q.reservations && r.id == id && r.lane == lane && e.op.req.replacing != Some(id) {
      assert r in j.reservations;
    }
  }

  lemma {:induction false} LeaveHolds(q: Queue, x: string, reserve: bool, now: nat, id: string, lane: string)
    requires Sound(q) && Holds(q, id, lane) && IdsUsedOnce(q)
    ensures Holds(Leave(q, x, reserve, now), id, lane) <==> !(x == id && !(reserve && HasTicket(q, id)))
  {
    hide Filter;
    var left := Leave(q, x, reserve, now);
    var pos := FirstIndex(q.tickets, WithId(x));
    if x == id && pos < |q.tickets| {
      assert q.tickets[pos] in q.tickets;
      if t :| t in q.tickets && t.id == id && t.lane == lane && t.priority.Foreground? {
        SameTicket(q.tickets, t, q.tickets[pos]);
      }
      if reserve {
        assert ReservationFor(q.tickets[pos], now) in left.reservations;
      }
    } else if x != id {
      if t :| t in q.tickets && t.id == id && t.lane == lane && t.priority.Foreground? {
        assert t in left.tickets;
      } else {
        var r :| r in q.reservations && r.id == id && r.lane == lane;
        assert r in DropReservation(q.reservations, x);
        assert r in left.reservations;
      }
    }
  }

  lemma {:induction false} EvictHolds(q: Queue, claim: Claim, id: string, lane: string)
    requires Sound(q) && Holds(q, id, lane) && IdsUsedOnce(q)
    ensures Holds(Evict(q, claim), id, lane) <==>
            !(|| (exists t :: t in q.tickets && t.id == id && claim.Covers(t.owner, t.lease))
              || (exists r :: r in q.reservations && r.id == id && claim.Covers(r.owner, r.lease)))
  {
    hide Filter;
    var kept := Evict(q, claim);
    if t :| t in q.tickets && t.id == id && t.lane == lane && t.priority.Foreground? {
      assert t in kept.tickets <==> !claim.Covers(t.owner, t.lease);
      forall u | u in q.tickets && u.id == id ensures u == t {
        SameTicket(q.tickets, t, u);
      }
    } else {
      var r :| r in q.reservations && r.id == id && r.lane == lane;
      assert r in kept.reservations <==> !claim.Covers(r.owner, r.lease);
      forall s | s in q.reservations && s.id == id ensures s == r {
        SameReservation(q.reservations, r, s);
      }
    }
  }

  lemma {:induction false} SameReservation(rs: seq<Reservation>, a: Reservation, b: Reservation)
    requires UniqueReservations(rs) && a in rs && b in rs && a.id == b.id
    ensures a == b
  {
    var i :| 0 <= i < |rs| && rs[i] == a;
    var j :| 0 <= j < |rs| && rs[j] == b;
    assert i <= j && j <= i;
  }

  lemma {:induction false} CancelHolds(q: Queue, x: string, id: string, lane: string)
    requires Sound(q) && Holds(q, id, lane) && IdsUsedOnce(q) && HasWaiter(q, x)
    ensures Holds(KeepTickets(q, Without(x)), id, lane) <==> x != id
  {
    hide Filter;
    if t :| t in q.tickets && t.id == id && t.lane == lane && t.priority.Foreground? {
      assert t in KeepTickets(q, Without(x)).tickets <==> x != id;
    }
  }

  lemma {:induction false} RefreshHolds(q: Queue, x: string, now: nat, id: string, lane: string)
    requires Holds(q, id, lane)
    ensures Holds(Refresh(q, x, now), id, lane)
  {
    var r := Refresh(q, x, now);
    if t :| t in q.tickets && t.id == id && t.lane == lane && t.priority.Foreground? {
      var i :| 0 <= i < |q.tickets| && q.tickets[i] == t;
      assert r.tickets[i] in r.tickets;
    } else {
      var s :| s in q.reservations && s.id == id && s.lane == lane;
      var i :| 0 <= i < |q.reservations| && q.reservations[i] == s;
      assert r.reservations[i] in r.reservations;
    }
  }

  lemma {:induction false} PrepareHolds(q: Queue, e: Event, id: string, lane: string)
    requires Inv(q) && Holds(q, id, lane) && IdsUsedOnce(q)
    ensures Holds(Prepare(q, e), NextId(q, e, id, lane), lane) <==> !Ends(q, e, id, lane)
  {
    hide Filter, FirstIndex, Holds;
    match e.op
    case Acquire(req) =>
      if Accepts(q, req) { JoinHolds(q, e, id, lane); } else { OnlyTicketsHold(q, Prepare(q, e), id, lane); }
    case CancelProbe(_) => OnlyTicketsHold(q, Prepare(q, e), id, lane);
    case CancelWaiting(x) => if HasWaiter(q, x) { CancelHolds(q, x, id, lane); }
    case Release(x, reserve) => LeaveHolds(q, x, reserve, e.now, id, lane);
    case Heartbeat(x) => RefreshHolds(q, x, e.now, id, lane);
    case Reclaim(claim) => EvictHolds(q, claim, id, lane);
  }

  lemma {:induction false} OnlyTicketsHold(q: Queue, r: Queue, id: string, lane: string)
    requires r.tickets == q.tickets && r.reservations == q.reservations
    ensures Holds(r, id, lane) <==> Holds(q, id, lane)
  {
  }

  /** A turn goes on through an event exactly when the event is not one that ends it. */
  lemma {:induction false} TurnGoesOnUnlessEnded(q: Queue, e: Event, id: string, lane: string)
    requires Inv(q) && Holds(q, id, lane) && IdsUsedOnce(q)
    ensures Holds(Step(q, e).0, NextId(q, e, id, lane), lane) <==> !Ends(q, e, id, lane)
  {
    hide Filter, Holds, Ends, NextId, Prepare, Step;
    StepIsPump(q, e);
    PrepareHolds(q, e, id, lane);
    PumpKeepsHolds(Prepare(q, e), NextId(q, e, id, lane), lane);
  }

  // Whole turns.

  lemma {:induction false} PumpKeepsIdsUsedOnce(q: Queue)
    requires IdsUsedOnce(q)
    ensures IdsUsedOnce(Pump(q))
  {
    var p := Pump(q);
    forall t, r | t in p.tickets && r in p.reservations ensures t.id != r.id {
      var i :| 0 <= i < |p.tickets| && p.tickets[i] == t;
      assert q.tickets[i] in q.tickets;
    }
  }

  lemma {:induction false} LeaveKeepsIdsUsedOnce(q: Queue, id: string, reserve: bool, now: nat)
    requires IdsUsedOnce(q)
    ensures IdsUsedOnce(Leave(q, id, reserve, now))
  {
    hide Filter;
    var left := Leave(q, id, reserve, now);
    forall t, r | t in left.tickets && r in left.reservations ensures t.id != r.id {
      assert t in q.tickets;
      assert r.id == id || r in q.reservations;
    }
  }

  lemma {:induction false} RefreshKeepsIdsUsedOnce(q: Queue, id: string, now: nat)
    requires IdsUsedOnce(q)
    ensures IdsUsedOnce(Refresh(q, id, now))
  {
    var f := Refresh(q, id, now);
    forall t, r | t in f.tickets && r in f.reservations ensures t.id != r.id {
      var i :| 0 <= i < |f.tickets| && f.tickets[i] == t;
      var j :| 0 <= j < |f.reservations| && f.reservations[j] == r;
      assert q.tickets[i] in q.tickets && q.reservations[j] in q.reservations;
    }
  }

  lemma {:induction false} JoinKeepsIdsUsedOnce(q: Queue, e: Event)
    requires IdsUsedOnce(q) && !ReusesId(q, e) && e.op.Acquire?
    ensures IdsUsedOnce(Join(q, e.op.req, e.now))
  {
    hide Filter, FirstIndex;
    var j := Join(q, e.op.req, e.now);
    JoinInserts(q, e.op.req, e.now);
    forall t, r | t in j.tickets && r in j.reservations ensures t.id != r.id {
      assert r in q.reservations;
    }
  }

  lemma {:induction false} StepKeepsIdsUsedOnce(q: Queue, e: Event)
    requires Inv(q) && IdsUsedOnce(q) && !ReusesId(q, e)
    ensures IdsUsedOnce(Step(q, e).0)
  {
    hide Filter, FirstIndex, Inv;
    StepIsPump(q, e);
    if e.op.Acquire? {
      JoinKeepsIdsUsedOnce(q, e);
    } else if e.op.Release? {
      LeaveKeepsIdsUsedOnce(q, e.op.id, e.op.reserve, e.now);
    } else if e.op.Heartbeat? {
      RefreshKeepsIdsUsedOnce(q, e.op.id, e.now);
    }
    PumpKeepsIdsUsedOnce(Prepare(q, e));
  }

  /** The id a turn goes by after the events of a run. */
  function HolderAfter(q: Queue, events: seq<Event>, id: string, lane: string): string {
    if events == [] then id else
    var before := events[..|events| - 1];
    NextId(Run(q, before), events[|events| - 1], HolderAfter(q, before, id, lane), lane)
  }

  /** No event of the run ends the turn, and none brings back a request id that is still in use. */
  ghost predicate TurnRuns(q: Queue, events: seq<Event>, id: string, lane: string) {
    forall i :: 0 <= i < |events| ==>
      && !Ends(Run(q, events[..i]), events[i], HolderAfter(q, events[..i], id, lane), lane)
      && !ReusesId(Run(q, events[..i]), events[i])
  }

  /** Through any number of slots given back and taken back, the turn holds its lane. */
  lemma {:induction false} TurnHoldsItsLane(q: Queue, events: seq<Event>, id: string, lane: string)
    requires Inv(q) && IdsUsedOnce(q) && Holds(q, id, lane) && TurnRuns(q, events, id, lane)
    ensures Inv(Run(q, events)) && IdsUsedOnce(Run(q, events))
    ensures Holds(Run(q, events), HolderAfter(q, events, id, lane), lane)
  {
    hide Step, Inv, IdsUsedOnce, Holds, Ends, ReusesId, NextId;
    if events != [] {
      var before, e := events[..|events| - 1], events[|events| - 1];
      assert forall i :: 0 <= i <= |before| ==> before[..i] == events[..i];
      TurnHoldsItsLane(q, before, id, lane);
      var r, holder := Run(q, before), HolderAfter(q, before, id, lane);
      StepKeepsInv(r, e);
      StepKeepsIdsUsedOnce(r, e);
      TurnGoesOnUnlessEnded(r, e, holder, lane);
    }
  }

  /**
   From the moment a turn holds its lane until an event ends it, no background
   ticket of the lane goes from waiting to running.
   */
  lemma {:induction false} TurnLifeExclusion(q: Queue, events: seq<Event>, id: string, lane: string, i: nat, t: Ticket)
    requires Inv(q) && IdsUsedOnce(q) && Holds(q, id, lane) && TurnRuns(q, events, id, lane)
    requires i < |events| && t in Run(q, events[..i + 1]).tickets && t.lane == lane && t.priority.Background?
    ensures !NewlyRunning(Run(q, events[..i]), t)
  {
    hide Step, Inv, IdsUsedOnce, Holds, Ends, ReusesId, NextId;
    var before, upTo := events[..i], events[..i + 1];
    assert forall j :: 0 <= j <= i ==> before[..j] == events[..j];
    assert forall j :: 0 <= j <= i + 1 ==> upTo[..j] == events[..j];
    TurnHoldsItsLane(q, before, id, lane);
    TurnHoldsItsLane(q, upTo, id, lane);
    assert upTo[..|upTo| - 1] == before;
    HeldLanesAdmitNoBackground(Run(q, before), events[i], HolderAfter(q, upTo, id, lane), lane, t);
  }

  /** A turn holds its lane from its accepted acquire on. */
  lemma {:induction false} AcquireBeginsTurn(q: Queue, req: Request, now: nat)
    requires Inv(q) && Accepts(q, req) && req.priority.Foreground?
    ensures Holds(Step(q, Event(Acquire(req), now)).0, req.id, req.lane)
  {
    hide Filter, FirstIndex;
    JoinInserts(q, req, now);
    assert NewTicket(req, now) in Join(q, req, now).tickets;
    PumpKeepsHolds(Join(q, req, now), req.id, req.lane);
  }

  /**
   Giving a slot back twice in a row does not keep the lane: the second
   release finds only the reservation, and ends it.
   */
  lemma {:induction false} ReservingTwiceEndsTheTurn(q: Queue, id: string, lane: string, now: nat)
    requires Inv(q) && IdsUsedOnce(q) && Holds(q, id, lane) && HasTicket(q, id)
    ensures
      var once := Step(q, Event(Release(id, true), now)).0;
      Holds(once, id, lane) && !Holds(Step(once, Event(Release(id, true), now)).0, id, lane)
  {
    hide Filter, FirstIndex;
    var e := Event(Release(id, true), now);
    var once := Step(q, e).0;
    TurnGoesOnUnlessEnded(q, e, id, lane);
    StepKeepsInv(q, e);
    StepKeepsIdsUsedOnce(q, e);
    var left := Leave(q, id, true, now);
    forall t | t in once.tickets ensures t.id != id {
      var i :| 0 <= i < |left.tickets| && once.tickets[i] == t;
      assert left.tickets[i] in left.tickets;
    }
    TurnGoesOnUnlessEnded(once, e, id, lane);
  }
}
