/** Wake-ups: every accepted acquire is answered once, by the fate of its ticket. */
module QueueWakeups {
  import opened Sequences
  import opened QueueState
  import opened QueueInvariant
  import opened QueueSteps

  datatype Fate = Waits | Runs | Gone

  function FateOf(r: Queue, id: string): Fate {
    if HasWaiter(r, id) then Waits else if HasTicket(r, id) then Runs else Gone
  }

  function SignalFor(fate: Fate): Signal {
    match fate
    case Waits => Open
    case Runs => Sent
    case Gone => Closed
  }

  /** The channel of a waiter `id` of `q` tells in `r` whether its ticket still waits, runs, or is gone. */
  ghost predicate Tracks(q: Queue, r: Queue, id: string)
    requires id in q.senders
  {
    var k := q.senders[id];
    && k < |r.channels|
    && r.channels[k] == SignalFor(FateOf(r, id))
    && (r.channels[k] == Open ==> id in r.senders && r.senders[id] == k)
  }

  lemma {:induction false} KeepTracks(q: Queue, keep: Ticket -> bool, id: string)
    requires Sound(q) && id in q.senders
    ensures Tracks(q, KeepTickets(q, keep), id)
    ensures HasTicket(KeepTickets(q, keep), id) ==> HasWaiter(KeepTickets(q, keep), id)
  {
    var kept := KeepTickets(q, keep);
    var gone := set t | t in q.tickets && !keep(t) :: t.id;
    var w :| w in q.tickets && w.id == id && w.state.Waiting?;
    if id in gone {
      var u :| u in q.tickets && !keep(u) && u.id == id;
      SameTicket(q.tickets, u, w);
      if t :| t in kept.tickets && t.id == id {
        SameTicket(q.tickets, t, w);
        assert false;
      }
      assert q.senders[id] in ChannelsOf(q.senders, gone);
    } else {
      assert w in kept.tickets;
      assert q.senders[id] !in ChannelsOf(q.senders, gone);
    }
  }

  lemma {:induction false} FateAt(ts: seq<Ticket>, r: Queue, i: nat)
    requires ts == r.tickets && UniqueIds(ts) && i < |ts|
    ensures FateOf(r, ts[i].id) == if ts[i].state.Waiting? then Waits else Runs
  {
    assert ts[i] in ts;
    if t :| t in ts && t.id == ts[i].id && t.state.Waiting? {
      SameTicket(ts, t, ts[i]);
    }
  }

  lemma {:induction false} PumpMarks(q: Queue, i: nat)
    requires UniqueIds(q.tickets) && i < |q.tickets|
    ensures UniqueIds(Pump(q).tickets)
    ensures |Pump(q).tickets| == |q.tickets| && Pump(q).tickets[i].id == q.tickets[i].id
    ensures Pump(q).tickets[i].state.Waiting? <==> q.tickets[i].state.Waiting? && !AdmittedAt(q, i)
  {
  }

  lemma {:induction false} PumpTracks(q: Queue, id: string)
    requires Sound(q) && id in q.senders
    ensures Tracks(q, Pump(q), id)
  {
    hide FateOf, AdmittedAt, AdmittedIds, PumpedAt;
    var p := Pump(q);
    var w :| w in q.tickets && w.id == id && w.state.Waiting?;
    var i :| 0 <= i < |q.tickets| && q.tickets[i] == w;
    AdmittedIdsOwn(q, i);
    PumpMarks(q, i);
    FateAt(p.tickets, p, i);
    assert q.senders[id] in ChannelsOf(q.senders, AdmittedIds(q, |q.tickets|)) <==> AdmittedAt(q, i);
  }

  lemma {:induction false} JoinTracks(q: Queue, req: Request, now: nat, id: string)
    requires Sound(q) && Accepts(q, req) && id in q.senders
    ensures Tracks(q, Join(q, req, now), id)
  {
    JoinInserts(q, req, now);
    var w :| w in q.tickets && w.id == id && w.state.Waiting?;
    assert w in Join(q, req, now).tickets;
  }

  lemma {:induction false} StillTracks(q: Queue, r: Queue, id: string)
    requires Inv(q) && Inv(r) && id in q.senders && r.senders == q.senders && r.channels == q.channels
    ensures Tracks(q, r, id)
  {
    var w :| w in r.tickets && w.id == id && w.state.Waiting?;
  }

  lemma {:induction false} ReservationsDoNotWait(q: Queue, r: Queue, rs: seq<Reservation>, id: string)
    requires id in q.senders
    ensures Tracks(q, r.(reservations := rs), id) <==> Tracks(q, r, id)
  {
  }

  lemma {:induction false} LeaveTracks(q: Queue, other: string, reserve: bool, now: nat, id: string)
    requires Inv(q) && id in q.senders
    ensures Tracks(q, Leave(q, other, reserve, now), id)
  {
    var left := Leave(q, other, reserve, now);
    if FirstIndex(q.tickets, WithId(other)) < |q.tickets| {
      KeepTracks(q, Without(other), id);
      ReservationsDoNotWait(q, KeepTickets(q, Without(other)), left.reservations, id);
    } else {
      StillTracks(q, q, id);
      ReservationsDoNotWait(q, q, left.reservations, id);
    }
  }

  lemma {:induction false} RefreshTracks(q: Queue, other: string, now: nat, id: string)
    requires Inv(q) && id in q.senders
    ensures Tracks(q, Refresh(q, other, now), id)
  {
    RefreshChangesLeases(q, other, now);
    LeasesAreFree(q, Refresh(q, other, now));
    StillTracks(q, Refresh(q, other, now), id);
  }

  lemma {:induction false} EvictTracks(q: Queue, claim: Claim, id: string)
    requires Inv(q) && id in q.senders
    ensures Tracks(q, Evict(q, claim), id)
  {
    var rs := Filter(q.reservations, ReservationUnclaimed(claim));
    FilterKeepsReservationsUnique(q.reservations, ReservationUnclaimed(claim));
    ReservationsAreFree(q, rs);
    KeepTracks(q.(reservations := rs), Unclaimed(claim), id);
  }

  lemma {:induction false} AcquireTracks(q: Queue, req: Request, now: nat, id: string)
    requires Inv(q) && id in q.senders && !Accepts(q, req)
    ensures Tracks(q, StepAcquire(q, req, now).0, id)
  {
    AcquireKeepsInv(q, req, now);
    StillTracks(q, StepAcquire(q, req, now).0, id);
  }

  lemma {:induction false} CancelTracks(q: Queue, other: string, id: string)
    requires Inv(q) && id in q.senders
    ensures Tracks(q, StepCancelProbe(q, other).0, id)
    ensures Tracks(q, KeepTickets(q, Without(other)), id)
    ensures Tracks(q, q, id)
  {
    CancelKeepsInv(q, other);
    StillTracks(q, StepCancelProbe(q, other).0, id);
    KeepTracks(q, Without(other), id);
    StillTracks(q, q, id);
  }

  lemma {:induction false} AcquiresTrack(q: Queue, e: Event, id: string)
    requires Inv(q) && id in q.senders && e.op.Acquire?
    ensures Tracks(q, Prepare(q, e), id)
  {
    if Accepts(q, e.op.req) {
      JoinTracks(q, e.op.req, e.now, id);
    } else {
      AcquireTracks(q, e.op.req, e.now, id);
    }
  }

  lemma {:induction false} CancelsTrack(q: Queue, e: Event, id: string)
    requires Inv(q) && id in q.senders && (e.op.CancelProbe? || e.op.CancelWaiting?)
    ensures Tracks(q, Prepare(q, e), id)
  {
    CancelTracks(q, e.op.id, id);
  }

  lemma {:induction false} ReleasesTrack(q: Queue, e: Event, id: string)
    requires Inv(q) && id in q.senders && e.op.Release?
    ensures Tracks(q, Prepare(q, e), id)
  {
    LeaveTracks(q, e.op.id, e.op.reserve, e.now, id);
  }

  lemma {:induction false} PrepareTracks(q: Queue, e: Event, id: string)
    requires Inv(q) && id in q.senders
    ensures Tracks(q, Prepare(q, e), id)
  {
    if e.op.Acquire? {
      AcquiresTrack(q, e, id);
    } else if e.op.Release? {
      ReleasesTrack(q, e, id);
    } else if e.op.Heartbeat? {
      RefreshTracks(q, e.op.id, e.now, id);
    } else if e.op.Reclaim? {
      EvictTracks(q, e.op.claim, id);
    } else {
      CancelsTrack(q, e, id);
    }
  }

  /**
   No wake-up is lost and none is sent twice: in any step, the channel of a
   waiter is sent to exactly when its ticket gets to run, and closed exactly
   when its ticket is removed.
   */
  lemma {:induction false} StepTracks(q: Queue, e: Event, id: string)
    requires Inv(q) && id in q.senders
    ensures Tracks(q, Step(q, e).0, id)
  {
    StepIsPump(q, e);
    var p := Prepare(q, e);
    PrepareTracks(q, e, id);
    var k := q.senders[id];
    if p.channels[k] == Open {
      PumpTracks(p, id);
    } else {
      SettledStays(p, k);
      PumpKeepsHolders(p, id);
    }
  }

  lemma {:induction false} SettledStays(p: Queue, k: nat)
    requires Sound(p) && k < |p.channels| && p.channels[k] != Open
    ensures Pump(p).channels[k] == p.channels[k]
    ensures forall id :: id in Pump(p).senders ==> Pump(p).senders[id] != k
  {
    PumpWaiters(p);
  }

  lemma {:induction false} PumpKeepsIds(p: Queue)
    ensures |Pump(p).tickets| == |p.tickets|
    ensures forall i :: 0 <= i < |p.tickets| ==>
      Pump(p).tickets[i].id == p.tickets[i].id && (p.tickets[i].state.Running? ==> Pump(p).tickets[i].state.Running?)
  {
  }

  lemma {:induction false} PumpKeepsHolders(p: Queue, id: string)
    requires Sound(p) && !HasWaiter(p, id)
    ensures HasTicket(Pump(p), id) <==> HasTicket(p, id)
    ensures !HasWaiter(Pump(p), id)
  {
    hide PumpedAt, AdmittedAt, AdmittedIds, Sound;
    var r := Pump(p);
    PumpKeepsIds(p);
    if t :| t in p.tickets && t.id == id {
      var i :| 0 <= i < |p.tickets| && p.tickets[i] == t;
      assert r.tickets[i] in r.tickets;
    }
    if t :| t in r.tickets && t.id == id {
      var i :| 0 <= i < |r.tickets| && r.tickets[i] == t;
      assert p.tickets[i] in p.tickets;
    }
    forall t | t in r.tickets && t.id == id ensures t.state.Running? {
      var i :| 0 <= i < |r.tickets| && r.tickets[i] == t;
      assert p.tickets[i] in p.tickets;
    }
  }

  /** An accepted acquire gets the next channel, and that channel tells at once whether its ticket runs. */
  lemma {:induction false} ArrivalTracks(q: Queue, req: Request, now: nat)
    requires Inv(q) && Accepts(q, req)
    ensures
      var (r, reply) := Step(q, Event(Acquire(req), now));
      && reply == Accepted(|q.channels|)
      && |r.channels| == |q.channels| + 1
      && r.channels[|q.channels|] == SignalFor(FateOf(r, req.id))
      && FateOf(r, req.id) != Gone
      && (FateOf(r, req.id) == Waits ==> req.id in r.senders && r.senders[req.id] == |q.channels|)
  {
    var j := Join(q, req, now);
    JoinIsSound(q, req, now);
    hide Filter, Settle, PumpedAt, AdmittedAt, AdmittedIds, UniqueIds, InOrder;
    PumpTracks(j, req.id);
    PumpKeepsIds(j);
    assert NewTicket(req, now) in j.tickets by { JoinInserts(q, req, now); }
    var i :| 0 <= i < |j.tickets| && j.tickets[i].id == req.id;
    PumpRestoresInv(j);
    FateAt(Pump(j).tickets, Pump(j), i);
  }

  lemma {:induction false} OnlyArrivalsOpenChannels(q: Queue, e: Event)
    ensures |Step(q, e).0.channels| ==
            |q.channels| + if e.op.Acquire? && Accepts(q, e.op.req) then 1 else 0
    ensures Step(q, e).1.Accepted? <==> e.op.Acquire? && Accepts(q, e.op.req)
  {
  }

  lemma {:induction false} KeepSettlesOnlyOpen(q: Queue, keep: Ticket -> bool, k: nat)
    requires OpenChannelsAreSenders(q) && k < |q.channels| && q.channels[k] != Open
    ensures KeepTickets(q, keep).channels[k] == q.channels[k]
  {
    var gone := set t | t in q.tickets && !keep(t) :: t.id;
    assert k !in ChannelsOf(q.senders, gone);
  }

  lemma {:induction false} PrepareSettlesOnlyOpen(q: Queue, e: Event, k: nat)
    requires Inv(q) && k < |q.channels| && q.channels[k] != Open
    ensures k < |Prepare(q, e).channels| && Prepare(q, e).channels[k] == q.channels[k]
  {
    hide Filter, FirstIndex, Settle;
    if e.op.CancelWaiting? {
      KeepSettlesOnlyOpen(q, Without(e.op.id), k);
    } else if e.op.Release? {
      KeepSettlesOnlyOpen(q, Without(e.op.id), k);
    } else if e.op.Reclaim? {
      KeepSettlesOnlyOpen(q, Unclaimed(e.op.claim), k);
    }
  }

  /** A channel that was sent to or closed stays as it is. */
  lemma {:induction false} StepSettlesOnlyOpen(q: Queue, e: Event, k: nat)
    requires Inv(q) && k < |q.channels| && q.channels[k] != Open
    ensures k < |Step(q, e).0.channels| && Step(q, e).0.channels[k] == q.channels[k]
  {
    StepIsPump(q, e);
    PrepareSettlesOnlyOpen(q, e, k);
    SettledStays(Prepare(q, e), k);
  }

  /** Over a whole run each accepted acquire resolves at most once: what its channel said first it says for ever. */
  lemma {:induction false} RunResolvesOnce(events: seq<Event>, n: nat, k: nat)
    requires n <= |events|
    requires k < |Run(EMPTY, events[..n]).channels| && Run(EMPTY, events[..n]).channels[k] != Open
    ensures k < |Run(EMPTY, events).channels|
    ensures Run(EMPTY, events).channels[k] == Run(EMPTY, events[..n]).channels[k]
  {
    if n == |events| {
      assert events[..n] == events;
    } else {
      var before := events[..|events| - 1];
      assert before[..n] == events[..n];
      RunResolvesOnce(before, n, k);
      RunKeepsInv(before);
      StepSettlesOnlyOpen(Run(EMPTY, before), events[|events| - 1], k);
    }
  }
}
