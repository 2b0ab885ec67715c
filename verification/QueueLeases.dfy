/** Leases: what a reclaim takes, and why a holder that keeps beating is never taken by a sweep. */
module QueueLeases {
  import opened Sequences
  import opened QueueState
  import opened QueueInvariant
  import opened QueueSteps

  /** What a reclaim has to leave: the holders of every other window, and the leases that have not ended. */
  predicate Outlasts(claim: Claim, owner: string, lease: nat) {
    (claim.OwnedBy? && owner != claim.window) || (claim.LeaseBefore? && claim.now <= lease)
  }

  /**
   A reclaim leaves exactly the tickets and reservations its claim does not
   cover, in their old order, with admission re-established among them.
   */
  lemma {:induction false} ReclaimIsExact(q: Queue, claim: Claim, now: nat)
    requires Inv(q)
    ensures
      var r := Step(q, Event(Reclaim(claim), now)).0;
      var kept := Filter(q.tickets, (t: Ticket) => Outlasts(claim, t.owner, t.lease));
      && r.reservations == Filter(q.reservations, (s: Reservation) => Outlasts(claim, s.owner, s.lease))
      && |r.tickets| == |kept|
      && (forall i :: 0 <= i < |kept| ==> r.tickets[i] == kept[i] || r.tickets[i] == kept[i].(state := Running))
      && WorkConserving(r)
  {
    hide Filter;
    StepIsPump(q, Event(Reclaim(claim), now));
    PumpConservesWork(Evict(q, claim));
    var kept := Filter(q.tickets, (t: Ticket) => Outlasts(claim, t.owner, t.lease));
    SameFilter(q.tickets, Unclaimed(claim), (t: Ticket) => Outlasts(claim, t.owner, t.lease));
    SameFilter(q.reservations, ReservationUnclaimed(claim), (s: Reservation) => Outlasts(claim, s.owner, s.lease));
    assert Evict(q, claim).tickets == kept;
  }

  lemma {:induction false} SameFilter<T(!new)>(s: seq<T>, a: T -> bool, b: T -> bool)
    requires forall i :: 0 <= i < |s| ==> a(s[i]) == b(s[i])
    ensures Filter(s, a) == Filter(s, b)
  {
    if s != [] {
      SameFilter(s[..|s| - 1], a, b);
    }
  }

  /** After a reclaim the holders left are exactly those that the claim does not cover. */
  lemma {:induction false} ReclaimLeaves(q: Queue, claim: Claim, now: nat, id: string)
    requires Inv(q)
    ensures
      var r := Step(q, Event(Reclaim(claim), now)).0;
      && (HasTicket(r, id) <==> exists t :: t in q.tickets && t.id == id && !claim.Covers(t.owner, t.lease))
      && (HasReservation(r, id) <==> exists s :: s in q.reservations && s.id == id && !claim.Covers(s.owner, s.lease))
  {
    hide Filter, Inv, Step, AdmittedAt;
    StepIsPump(q, Event(Reclaim(claim), now));
    var kept := Evict(q, claim);
    if t :| t in q.tickets && t.id == id && !claim.Covers(t.owner, t.lease) {
      assert t in kept.tickets;
      var i :| 0 <= i < |kept.tickets| && kept.tickets[i] == t;
      assert Pump(kept).tickets[i] in Pump(kept).tickets;
    }
    if t :| t in Pump(kept).tickets && t.id == id {
      var i :| 0 <= i < |kept.tickets| && Pump(kept).tickets[i] == t;
      assert kept.tickets[i] in kept.tickets;
    }
  }

  /** A reclaim answers whether its claim covered anything. */
  lemma {:induction false} ReclaimAnswers(q: Queue, claim: Claim)
    ensures StepReclaim(q, claim).1 ==
            Changed((exists t :: t in q.tickets && claim.Covers(t.owner, t.lease))
                    || (exists r :: r in q.reservations && claim.Covers(r.owner, r.lease)))
  {
    hide Filter, Pump;
    if |Evict(q, claim).tickets| == |q.tickets| {
      FilterDroppedNothing(q.tickets, Unclaimed(claim));
    } else if forall t :: t in q.tickets ==> !claim.Covers(t.owner, t.lease) {
      FilterAll(q.tickets, Unclaimed(claim));
    }
    if |Evict(q, claim).reservations| == |q.reservations| {
      FilterDroppedNothing(q.reservations, ReservationUnclaimed(claim));
    } else if forall r :: r in q.reservations ==> !claim.Covers(r.owner, r.lease) {
      FilterAll(q.reservations, ReservationUnclaimed(claim));
    }
  }

  /** A sweep for `now` takes exactly the leases that ended before `now`. */
  lemma {:induction false} SweepIsExact(q: Queue, now: nat, at: nat)
    requires Inv(q)
    ensures
      var r := Step(q, Event(Reclaim(LeaseBefore(now)), at)).0;
      && (forall id :: HasTicket(r, id) <==> exists t :: t in q.tickets && t.id == id && t.lease >= now)
      && (forall id :: HasReservation(r, id) <==> exists s :: s in q.reservations && s.id == id && s.lease >= now)
  {
    hide Step, Inv, HasTicket, HasReservation;
    forall id {
      ReclaimLeaves(q, LeaseBefore(now), at, id);
    }
  }

  /** Releasing a window takes exactly what that window owns. */
  lemma {:induction false} WindowReleaseIsExact(q: Queue, window: string, at: nat)
    requires Inv(q)
    ensures
      var r := Step(q, Event(Reclaim(OwnedBy(window)), at)).0;
      && (forall id :: HasTicket(r, id) <==> exists t :: t in q.tickets && t.id == id && t.owner != window)
      && (forall id :: HasReservation(r, id) <==> exists s :: s in q.reservations && s.id == id && s.owner != window)
  {
    hide Step, Inv, HasTicket, HasReservation;
    forall id {
      ReclaimLeaves(q, OwnedBy(window), at, id);
    }
  }

  // Lease safety.

  /** `id` has a ticket or a reservation, and every lease it has runs to `until` at least. */
  ghost predicate HeldUntil(q: Queue, id: string, until: int) {
    && (HasTicket(q, id) || HasReservation(q, id))
    && (forall t :: t in q.tickets && t.id == id ==> t.lease >= until)
    && (forall r :: r in q.reservations && r.id == id ==> r.lease >= until)
  }

  /** The operations, other than a sweep, that make `id` give up what it holds. */
  ghost predicate Dismisses(q: Queue, e: Event, id: string) {
    match e.op
    case Acquire(req) => Accepts(q, req) && req.replacing == Some(id) && HasReservation(q, id)
    case CancelProbe(_) => false
    case CancelWaiting(x) => x == id
    case Release(x, reserve) => x == id && !(reserve && HasTicket(q, id))
    case Heartbeat(_) => false
    case Reclaim(claim) =>
      claim.OwnedBy? &&
      (|| (exists t :: t in q.tickets && t.id == id && t.owner == claim.window)
       || (exists r :: r in q.reservations && r.id == id && r.owner == claim.window))
  }

  lemma {:induction false} PumpKeepsHeld(q: Queue, id: string, until: int)
    requires HeldUntil(q, id, until)
    ensures HeldUntil(Pump(q), id, until)
  {
    var p := Pump(q);
    if t :| t in q.tickets && t.id == id {
      var i :| 0 <= i < |q.tickets| && q.tickets[i] == t;
      assert p.tickets[i] in p.tickets;
    }
    forall t | t in p.tickets && t.id == id ensures t.lease >= until {
      var i :| 0 <= i < |p.tickets| && p.tickets[i] == t;
      assert q.tickets[i] in q.tickets;
    }
  }

  lemma {:induction false} JoinKeepsHeld(q: Queue, req: Request, now: nat, id: string, until: int)
    requires HeldUntil(q, id, until) && until <= now + LEASE_TTL_MS
    requires !(req.replacing == Some(id) && HasReservation(q, id))
    ensures HeldUntil(Join(q, req, now), id, until)
  {
    hide Filter, FirstIndex;
    var j := Join(q, req, now);
    JoinInserts(q, req, now);
    if t :| t in q.tickets && t.id == id {
      assert t in j.tickets;
    } else {
      var r :| r in q.reservations && r.id == id;
      assert r in j.reservations;
    }
  }

  lemma {:induction false} LeaveKeepsHeld(q: Queue, x: string, reserve: bool, now: nat, id: string, until: int)
    requires HeldUntil(q, id, until) && until <= now + LEASE_TTL_MS
    requires !(x == id && !(reserve && HasTicket(q, id)))
    ensures HeldUntil(Leave(q, x, reserve, now), id, until)
  {
    hide Filter;
    var left := Leave(q, x, reserve, now);
    var pos := FirstIndex(q.tickets, WithId(x));
    if x == id {
      assert ReservationFor(q.tickets[pos], now) in left.reservations;
    } else if t :| t in q.tickets && t.id == id {
      assert t in left.tickets;
    } else {
      var r :| r in q.reservations && r.id == id;
      assert r in DropReservation(q.reservations, x);
      assert r in left.reservations;
    }
  }

  lemma {:induction false} EvictKeepsHeld(q: Queue, e: Event, id: string, until: int)
    requires HeldUntil(q, id, until) && !Dismisses(q, e, id) && e.op.Reclaim?
    requires e.op.claim.LeaseBefore? ==> e.op.claim.now <= until
    ensures HeldUntil(Evict(q, e.op.claim), id, until)
  {
    hide Filter;
    var kept := Evict(q, e.op.claim);
    if t :| t in q.tickets && t.id == id {
      assert t in kept.tickets;
    } else {
      var r :| r in q.reservations && r.id == id;
      assert r in kept.reservations;
    }
  }

  /** A heartbeat for `id` renews what it holds; any other leaves it as it was. */
  lemma {:induction false} RefreshKeepsHeld(q: Queue, x: string, now: nat, id: string, until: int)
    requires HeldUntil(q, id, until)
    ensures HeldUntil(Refresh(q, x, now), id, if x == id then now + LEASE_TTL_MS else until)
  {
    var r := Refresh(q, x, now);
    if t :| t in q.tickets && t.id == id {
      var i :| 0 <= i < |q.tickets| && q.tickets[i] == t;
      assert r.tickets[i] in r.tickets;
    } else {
      var s :| s in q.reservations && s.id == id;
      var i :| 0 <= i < |q.reservations| && q.reservations[i] == s;
      assert r.reservations[i] in r.reservations;
    }
    forall t | t in r.tickets && t.id == id ensures t.lease >= if x == id then now + LEASE_TTL_MS else until {
      var i :| 0 <= i < |r.tickets| && r.tickets[i] == t;
      assert q.tickets[i] in q.tickets;
    }
    forall s | s in r.reservations && s.id == id ensures s.lease >= if x == id then now + LEASE_TTL_MS else until {
      var i :| 0 <= i < |r.reservations| && r.reservations[i] == s;
      assert q.reservations[i] in q.reservations;
    }
  }

  lemma {:induction false} StepKeepsHeld(q: Queue, e: Event, id: string, until: int)
    requires Inv(q) && HeldUntil(q, id, until) && !Dismisses(q, e, id) && until <= e.now + LEASE_TTL_MS
    requires e.op.Reclaim? && e.op.claim.LeaseBefore? ==> e.op.claim.now <= until
    ensures HeldUntil(Step(q, e).0, id, if e.op == Heartbeat(id) then e.now + LEASE_TTL_MS else until)
  {
    hide Filter, FirstIndex, HeldUntil, Inv;
    StepIsPump(q, e);
    var beat := if e.op == Heartbeat(id) then e.now + LEASE_TTL_MS else until;
    match e.op {
      case Acquire(req) =>
        if Accepts(q, req) { JoinKeepsHeld(q, req, e.now, id, until); } else { SameHolders(q, Prepare(q, e), id, until); }
      case CancelProbe(_) => SameHolders(q, Prepare(q, e), id, until);
      case CancelWaiting(x) => if HasWaiter(q, x) { CancelKeepsHeld(q, x, id, until); }
      case Release(x, reserve) => LeaveKeepsHeld(q, x, reserve, e.now, id, until);
      case Heartbeat(x) => RefreshKeepsHeld(q, x, e.now, id, until);
      case Reclaim(_) => EvictKeepsHeld(q, e, id, until);
    }
    PumpKeepsHeld(Prepare(q, e), id, beat);
  }

  lemma {:induction false} SameHolders(q: Queue, r: Queue, id: string, until: int)
    requires HeldUntil(q, id, until) && r.tickets == q.tickets && r.reservations == q.reservations
    ensures HeldUntil(r, id, until)
  {
  }

  lemma {:induction false} CancelKeepsHeld(q: Queue, x: string, id: string, until: int)
    requires HeldUntil(q, id, until) && x != id
    ensures HeldUntil(KeepTickets(q, Without(x)), id, until)
  {
    hide Filter;
    if t :| t in q.tickets && t.id == id {
      assert t in KeepTickets(q, Without(x)).tickets;
    }
  }

  /** When `id` last showed a sign of life: its latest heartbeat, or `start` before the first. */
  function LastBeat(events: seq<Event>, id: string, start: nat): nat {
    if events == [] then start
    else if events[|events| - 1].op == Heartbeat(id) then events[|events| - 1].now
    else LastBeat(events[..|events| - 1], id, start)
  }

  ghost predicate ClockRuns(events: seq<Event>, start: nat) {
    && (forall i :: 0 <= i < |events| ==> start <= events[i].now)
    && (forall i, j :: 0 <= i < j < |events| ==> events[i].now <= events[j].now)
  }

  /** Each sweep comes at most one lease after the latest heartbeat of `id`. */
  ghost predicate BeatsInTime(events: seq<Event>, id: string, start: nat) {
    forall i :: 0 <= i < |events| && events[i].op.Reclaim? && events[i].op.claim.LeaseBefore? ==>
      events[i].op.claim.now <= LastBeat(events[..i], id, start) + LEASE_TTL_MS
  }

  ghost predicate NeverDismissed(q: Queue, events: seq<Event>, id: string) {
    forall i :: 0 <= i < |events| ==> !Dismisses(Run(q, events[..i]), events[i], id)
  }

  lemma {:induction false} LastBeatIsPast(events: seq<Event>, id: string, start: nat, now: nat)
    requires forall i :: 0 <= i < |events| ==> events[i].now <= now
    requires start <= now
    ensures LastBeat(events, id, start) <= now
  {
    if events != [] {
      LastBeatIsPast(events[..|events| - 1], id, start, now);
    }
  }

  /**
   Lease safety. With a clock that does not run backwards, an id that beats at
   least once per lease, as a ticket or as a reservation, survives every sweep.
   */
  lemma {:induction false} LeaseSafety(q: Queue, events: seq<Event>, id: string, start: nat)
    requires Inv(q) && HeldUntil(q, id, start + LEASE_TTL_MS)
    requires ClockRuns(events, start) && BeatsInTime(events, id, start) && NeverDismissed(q, events, id)
    ensures Inv(Run(q, events))
    ensures HeldUntil(Run(q, events), id, LastBeat(events, id, start) + LEASE_TTL_MS)
  {
    hide Step, Inv, HeldUntil, Dismisses;
    if events != [] {
      var before, e := events[..|events| - 1], events[|events| - 1];
      assert BeatsInTime(before, id, start) && NeverDismissed(q, before, id) by {
        assert forall i :: 0 <= i <= |before| ==> before[..i] == events[..i];
      }
      assert events[..|before|] == before;
      LeaseSafety(q, before, id, start);
      LastBeatIsPast(before, id, start, e.now);
      StepKeepsInv(Run(q, before), e);
      StepKeepsHeld(Run(q, before), e, id, LastBeat(before, id, start) + LEASE_TTL_MS);
    }
  }
}
