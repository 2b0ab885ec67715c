/** The queue as the program keeps it: fields under one lock, updated in place by each operation. */
module InferenceQueue {
  import opened Sequences
  import opened QueueState
  import opened QueueInvariant
  import opened QueueSteps

  function CountFor(counts: map<string, nat>, lane: string): nat {
    if lane in counts then counts[lane] else 0
  }

  // What the loops and the removals compute.

  lemma {:induction false} OthersDiffer(ts: seq<Ticket>, pos: nat)
    requires UniqueIds(ts) && pos < |ts|
    ensures forall i :: 0 <= i < |ts| && i != pos ==> ts[i].id != ts[pos].id
  {
  }

  lemma {:induction false} WithoutAt(ts: seq<Ticket>, pos: nat)
    requires UniqueIds(ts) && pos < |ts|
    ensures Filter(ts, Without(ts[pos].id)) == ts[..pos] + ts[pos + 1..]
  {
    hide Filter, UniqueIds;
    var before, after, others := ts[..pos], ts[pos + 1..], Without(ts[pos].id);
    FilterSplitAt(ts, pos, others);
    assert ts[pos..] == [ts[pos]] + after;
    FilterConcat([ts[pos]], after, others);
    FilterOne(ts[pos], others);
    OthersDiffer(ts, pos);
    FilterAll(before, others);
    FilterAll(after, others);
  }

  lemma {:induction false} RemovalIsKeep(q: Queue, pos: nat)
    requires Sound(q) && pos < |q.tickets|
    ensures
      var id := q.tickets[pos].id;
      KeepTickets(q, Without(id)) == q.(
        tickets := q.tickets[..pos] + q.tickets[pos + 1..],
        senders := q.senders - {id},
        channels := if id in q.senders then q.channels[q.senders[id] := Closed] else q.channels)
  {
    hide Filter;
    var id := q.tickets[pos].id;
    WithoutAt(q.tickets, pos);
    assert q.tickets[pos] in q.tickets;
    assert (set t | t in q.tickets && !Without(id)(t) :: t.id) == {id};
    assert ChannelsOf(q.senders, {id}) == if id in q.senders then {q.senders[id]} else {};
  }

  lemma {:induction false} RemoveFirstAt(ids: seq<string>, pos: nat)
    requires pos < |ids| && forall i :: 0 <= i < pos ==> ids[i] != ids[pos]
    ensures RemoveFirst(ids, ids[pos]) == ids[..pos] + ids[pos + 1..]
  {
    if pos > 0 {
      assert ids[1..][pos - 1] == ids[pos];
      RemoveFirstAt(ids[1..], pos - 1);
    }
  }

  lemma {:induction false} SettleOne(channels: seq<Signal>, ks: set<nat>, k: nat, signal: Signal)
    requires k < |channels|
    ensures Settle(channels, ks + {k}, signal) == Settle(channels, ks, signal)[k := signal]
  {
  }

  lemma {:induction false} NothingSettled(q: Queue, signal: Signal)
    ensures Settle(q.channels, ChannelsOf(q.senders, {}), signal) == q.channels
  {
    assert ChannelsOf(q.senders, {}) == {};
  }

  /** Removing one more id: its sender goes, and the channel of that sender is settled. */
  lemma {:induction false} SettleOneMore(q: Queue, ids: set<string>, id: string, signal: Signal)
    requires OpenChannelsAreSenders(q)
    ensures q.senders - (ids + {id}) == (q.senders - ids) - {id}
    ensures id !in q.senders - ids ==> ChannelsOf(q.senders, ids + {id}) == ChannelsOf(q.senders, ids)
    ensures id in q.senders ==> ChannelsOf(q.senders, ids + {id}) == ChannelsOf(q.senders, ids) + {q.senders[id]}
  {
  }

  /** What `TakeSender` does to the channels is to settle one more id. */
  lemma {:induction false} SettlingOneMore(q: Queue, ids: set<string>, id: string, signal: Signal)
    requires OpenChannelsAreSenders(q)
    ensures q.senders - (ids + {id}) == (q.senders - ids) - {id}
    ensures
      var before := Settle(q.channels, ChannelsOf(q.senders, ids), signal);
      Settle(q.channels, ChannelsOf(q.senders, ids + {id}), signal) ==
        if id in q.senders - ids then before[q.senders[id] := signal] else before
  {
    hide ChannelsOf;
    SettleOneMore(q, ids, id, signal);
    if id in q.senders - ids {
      SettleOne(q.channels, ChannelsOf(q.senders, ids), q.senders[id], signal);
    }
  }

  lemma {:induction false} AdmittedOneMore(q: Queue, i: nat)
    requires i < |q.tickets|
    ensures AdmittedIds(q, i + 1) == AdmittedIds(q, i) + if AdmittedAt(q, i) then {q.tickets[i].id} else {}
  {
  }

  lemma {:induction false} BusyStays(q: Queue, r: Queue, lane: string)
    requires |r.tickets| == |q.tickets| && r.reservations == q.reservations
    requires forall i :: 0 <= i < |q.tickets| ==>
      r.tickets[i].lane == q.tickets[i].lane && r.tickets[i].priority == q.tickets[i].priority
    ensures BusyForBackground(r, lane) <==> BusyForBackground(q, lane)
  {
    if t :| t in q.tickets && t.lane == lane && t.priority.Foreground? {
      var i :| 0 <= i < |q.tickets| && q.tickets[i] == t;
      assert r.tickets[i] in r.tickets;
    }
    if t :| t in r.tickets && t.lane == lane && t.priority.Foreground? {
      var i :| 0 <= i < |r.tickets| && r.tickets[i] == t;
      assert q.tickets[i] in q.tickets;
    }
  }

  /** What the running counts say after the ticket at `i` was looked at. */
  lemma {:induction false} CountsAdvance(q: Queue, i: nat, lane: string)
    requires i < |q.tickets|
    ensures
      var cap := CapacityOf(q.capacity, lane);
      Level(cap, Used(q, lane), Eligible(q, lane, i + 1)) ==
      Level(cap, Used(q, lane), Eligible(q, lane, i))
      + if q.tickets[i].lane == lane && AdmittedAt(q, i) then 1 else 0
  {
    EligibleSplit(q, lane, i);
    LevelSteps(CapacityOf(q.capacity, lane), Used(q, lane), Eligible(q, lane, i));
  }

  // The loop of a pump.

  /** The pump of `q` has looked at the first `i` tickets and got to `r`. */
  ghost predicate Pumping(q: Queue, r: Queue, running: map<string, nat>, i: nat) {
    && i <= |q.tickets| == |r.tickets|
    && (forall j :: 0 <= j < |q.tickets| ==> r.tickets[j] == if j < i then PumpedAt(q, j) else q.tickets[j])
    && r == q.(tickets := r.tickets, senders := q.senders - AdmittedIds(q, i),
               channels := Settle(q.channels, ChannelsOf(q.senders, AdmittedIds(q, i)), Sent))
    && (forall lane :: CountFor(running, lane) == LoadAfter(q, i, lane))
  }

  /** How many tickets run on `lane` once the first `i` were looked at. */
  function LoadAfter(q: Queue, i: nat, lane: string): nat
    requires i <= |q.tickets|
  {
    Level(CapacityOf(q.capacity, lane), Used(q, lane), Eligible(q, lane, i))
  }

  lemma {:induction false} PumpingStarts(q: Queue, running: map<string, nat>)
    requires forall lane :: CountFor(running, lane) == Count(q.tickets, RunningOn(lane))
    ensures Pumping(q, q, running, 0)
  {
    assert AdmittedIds(q, 0) == {};
    assert q.senders - {} == q.senders;
    assert ChannelsOf(q.senders, {}) == {};
    assert Settle(q.channels, {}, Sent) == q.channels;
    forall lane ensures LoadAfter(q, 0, lane) == Used(q, lane) {
      LevelSteps(CapacityOf(q.capacity, lane), Used(q, lane), 0);
    }
  }

  /** The test of the loop is the closed form of admission. */
  lemma {:induction false} PumpingDecides(q: Queue, r: Queue, running: map<string, nat>, i: nat)
    requires i < |q.tickets| && Pumping(q, r, running, i)
    ensures r.tickets[i] == q.tickets[i]
    ensures
      var t := r.tickets[i];
      AdmittedAt(q, i) <==>
        && t.state.Waiting?
        && CapacityOf(r.capacity, t.lane).Admits(CountFor(running, t.lane))
        && (t.priority.Foreground? || !BusyForBackground(r, t.lane))
  {
    hide Filter;
    var lane := q.tickets[i].lane;
    BusyStays(q, r, lane);
    LevelSteps(CapacityOf(q.capacity, lane), Used(q, lane), Eligible(q, lane, i));
  }

  lemma {:induction false} PumpingPasses(q: Queue, r: Queue, running: map<string, nat>, i: nat)
    requires i < |q.tickets| && Pumping(q, r, running, i) && !AdmittedAt(q, i)
    ensures Pumping(q, r, running, i + 1)
  {
    hide Filter, Level, Eligible, Used;
    AdmittedOneMore(q, i);
    assert AdmittedIds(q, i) + {} == AdmittedIds(q, i);
    forall lane ensures LoadAfter(q, i + 1, lane) == LoadAfter(q, i, lane) {
      CountsAdvance(q, i, lane);
    }
  }

  lemma {:induction false} PumpingAdmits(q: Queue, r: Queue, running: map<string, nat>, i: nat)
    requires Sound(q)
    requires i < |q.tickets| && Pumping(q, r, running, i) && AdmittedAt(q, i)
    ensures forall x :: x in r.senders ==> r.senders[x] < |r.channels|
    ensures
      var t := r.tickets[i];
      var next := r.(
        tickets := r.tickets[i := t.(state := Running)],
        senders := r.senders - {t.id},
        channels := if t.id in r.senders then r.channels[r.senders[t.id] := Sent] else r.channels);
      Pumping(q, next, running[t.lane := CountFor(running, t.lane) + 1], i + 1)
  {
    hide Filter, Level, Eligible, Used, AdmittedAt;
    var t := q.tickets[i];
    var ids := AdmittedIds(q, i);
    AdmittedOneMore(q, i);
    SettlingOneMore(q, ids, t.id, Sent);
    forall lane ensures LoadAfter(q, i + 1, lane) == LoadAfter(q, i, lane) + if t.lane == lane then 1 else 0 {
      CountsAdvance(q, i, lane);
    }
    var next := r.(
      tickets := r.tickets[i := t.(state := Running)],
      senders := r.senders - {t.id},
      channels := if t.id in r.senders then r.channels[r.senders[t.id] := Sent] else r.channels);
    assert next.senders == q.senders - AdmittedIds(q, i + 1);
    assert next.channels == Settle(q.channels, ChannelsOf(q.senders, AdmittedIds(q, i + 1)), Sent);
    assert forall j :: 0 <= j < |q.tickets| ==> next.tickets[j] == if j < i + 1 then PumpedAt(q, j) else q.tickets[j];
    assert next == q.(tickets := next.tickets, senders := next.senders, channels := next.channels);
    var counts := running[t.lane := CountFor(running, t.lane) + 1];
    forall lane ensures CountFor(counts, lane) == LoadAfter(q, i + 1, lane) {
      assert CountFor(running, lane) == LoadAfter(q, i, lane);
    }
  }

  lemma {:induction false} PumpingEnds(q: Queue, r: Queue, running: map<string, nat>)
    requires Pumping(q, r, running, |q.tickets|)
    ensures r == Pump(q)
  {
    hide Filter, AdmittedAt;
    assert r.tickets == Pump(q).tickets;
  }

  class InferenceQueue {
    var tickets: seq<Ticket>
    var senders: map<string, nat>
    var laneCapacity: map<string, Capacity>
    var cancelledEarly: seq<string>
    var reservations: seq<Reservation>
    /** The receiving ends of the wake-up channels handed out so far. */
    var channels: seq<Signal>

    function State(): Queue
      reads this
    {
      Queue(tickets, senders, laneCapacity, cancelledEarly, reservations, channels)
    }

    ghost predicate Valid()
      reads this
    {
      Inv(State())
    }

    constructor ()
      ensures Valid() && State() == EMPTY
    {
      tickets, senders, laneCapacity := [], map[], map[];
      cancelledEarly, reservations, channels := [], [], [];
      new;
      EmptyIsInv();
    }

    /** Count currently running tickets per lane. */
    method RunningByLane() returns (counts: map<string, nat>)
      ensures forall lane :: CountFor(counts, lane) == Count(tickets, RunningOn(lane))
    {
      counts := map[];
      for i := 0 to |tickets|
        invariant forall lane :: CountFor(counts, lane) == Count(tickets[..i], RunningOn(lane))
      {
        forall lane ensures Count(tickets[..i + 1], RunningOn(lane)) ==
            Count(tickets[..i], RunningOn(lane)) + if RunningOn(lane)(tickets[i]) then 1 else 0
        {
          CountSplit(tickets, i, RunningOn(lane));
        }
        var t := tickets[i];
        if t.state.Running? {
          counts := counts[t.lane := CountFor(counts, t.lane) + 1];
        }
      }
      assert tickets[..|tickets|] == tickets;
    }

    /** Take the sender of `id` out and settle its channel: sent to, or closed by being dropped. */
    method TakeSender(id: string, signal: Signal)
      requires forall x :: x in senders ==> senders[x] < |channels|
      modifies this`senders, this`channels
      ensures senders == old(senders) - {id}
      ensures channels == if id in old(senders) then old(channels)[old(senders)[id] := signal] else old(channels)
    {
      if id in senders {
        channels := channels[senders[id] := signal];
        senders := senders - {id};
      }
    }

    /** Admit waiters in their order while their lane has room, waking each through its sender. */
    method Pump()
      requires Sound(State())
      modifies this
      ensures State() == QueueState.Pump(old(State()))
      ensures Valid()
    {
      hide Filter, AdmittedAt, PumpedAt, BusyForBackground, Pumping, Sound, Inv, QueueState.Pump;
      ghost var q := State();
      var running: map<string, nat> := RunningByLane();
      PumpingStarts(q, running);
      for i := 0 to |tickets|
        invariant |tickets| == |q.tickets|
        invariant Pumping(q, State(), running, i)
      {
        PumpingDecides(q, State(), running, i);
        var t := tickets[i];
        if && t.state.Waiting?
           && CapacityOf(laneCapacity, t.lane).Admits(CountFor(running, t.lane))
           && (t.priority.Foreground? || !BusyForBackground(State(), t.lane))
        {
          PumpingAdmits(q, State(), running, i);
          tickets := tickets[i := t.(state := Running)];
          running := running[t.lane := CountFor(running, t.lane) + 1];
          TakeSender(t.id, Sent);
        } else {
          PumpingPasses(q, State(), running, i);
        }
      }
      PumpingEnds(q, State(), running);
      PumpRestoresInv(q);
    }

    /** Register a waiting ticket and return the receiver of its wake-up; a `front` one goes before ordinary waiters. */
    method EnqueueWith(req: Request, now: nat) returns (reply: Reply)
      requires Valid()
      modifies this
      ensures (State(), reply) == StepAcquire(old(State()), req, now)
      ensures Valid()
    {
      hide Filter, UniqueIds, UniqueReservations, InOrder, SendersAreWaiters, OpenChannelsAreSenders, WorkConserving;
      ghost var q := State();
      AcquireKeepsInv(q, req, now);
      if exists t :: t in tickets && t.id == req.id {
        return Duplicate;
      }
      if req.id in cancelledEarly {
        var known := FirstIndex(cancelledEarly, (x: string) => x == req.id);
        RemoveFirstAt(cancelledEarly, known);
        cancelledEarly := cancelledEarly[..known] + cancelledEarly[known + 1..];
        return Refused;
      }
      laneCapacity := laneCapacity[req.lane := RequestedCapacity(req.maxParallel)];
      if req.replacing.Some? {
        reservations := Filter(reservations, ReservationWithout(req.replacing.value));
      }
      reply := Accepted(|channels|);
      senders := senders[req.id := |channels|];
      channels := channels + [Open];
      var at := if req.front then FirstIndex(tickets, OrdinaryWaiterOn(req.lane)) else |tickets|;
      tickets := tickets[..at] + [NewTicket(req, now)] + tickets[at..];
      assert State() == Join(q, req, now);
      JoinIsSound(q, req, now);
      Pump();
    }

    /** The first half of a cancel: an id that is not here yet is refused when it comes. */
    method CancelProbe(id: string) returns (known: bool)
      requires Valid()
      modifies this`cancelledEarly
      ensures (State(), Changed(known)) == StepCancelProbe(old(State()), id)
      ensures Valid()
    {
      hide Inv;
      CancelKeepsInv(State(), id);
      known := exists t :: t in tickets && t.id == id;
      if !known {
        cancelledEarly := cancelledEarly + [id];
        var excess := if |cancelledEarly| > EARLY_CANCEL_CAP then |cancelledEarly| - EARLY_CANCEL_CAP else 0;
        cancelledEarly := cancelledEarly[excess..];
      }
    }

    /** Drop the ticket at `pos` and its sender. */
    method RemoveAt(pos: nat)
      requires Sound(State()) && pos < |tickets|
      modifies this`tickets, this`senders, this`channels
      ensures State() == KeepTickets(old(State()), Without(old(tickets)[pos].id))
      ensures Sound(State())
    {
      hide Filter, UniqueIds, UniqueReservations, InOrder, SendersAreWaiters;
      ghost var q := State();
      var id := tickets[pos].id;
      RemovalIsKeep(q, pos);
      KeepIsSound(q, Without(id));
      tickets := tickets[..pos] + tickets[pos + 1..];
      TakeSender(id, Closed);
    }

    /** The second half of a cancel: drop the ticket if it still waits. */
    method CancelWaiting(id: string) returns (removed: bool)
      requires Valid()
      modifies this
      ensures (State(), Changed(removed)) == StepCancelWaiting(old(State()), id)
      ensures Valid()
    {
      var pos := FirstIndex(tickets, (t: Ticket) => t.id == id && t.state.Waiting?);
      removed := pos < |tickets|;
      if removed {
        assert tickets[pos] in tickets;
        RemoveAt(pos);
        Pump();
      } else {
        assert forall t :: t in tickets ==> !(t.id == id && t.state.Waiting?);
      }
    }

    /** Cancel a still-waiting ticket, with nothing in between the two halves. */
    method Cancel(id: string) returns (removed: bool)
      requires Valid()
      modifies this
      ensures State() == Step(Step(old(State()), Event(Op.CancelProbe(id), 0)).0, Event(Op.CancelWaiting(id), 0)).0
      ensures Valid()
      ensures removed <==> HasWaiter(old(State()), id)
    {
      var known := CancelProbe(id);
      if known {
        removed := CancelWaiting(id);
      } else {
        removed := false;
      }
    }

    /** Release a slot; with `reserve`, keep the lane against background tickets under this id. */
    method ReleaseWith(id: string, reserve: bool, now: nat) returns (changed: bool)
      requires Valid()
      modifies this
      ensures (State(), Changed(changed)) == StepRelease(old(State()), id, reserve, now)
      ensures Valid()
    {
      hide Filter, UniqueIds, UniqueReservations, InOrder, SendersAreWaiters, OpenChannelsAreSenders, WorkConserving, ReservationWithout;
      ghost var q := State();
      LeaveIsSound(q, id, reserve, now);
      FilterKeepsReservationsUnique(reservations, ReservationWithout(id));
      ReservationsAreFree(q, DropReservation(reservations, id));
      var hadReservation := exists r :: r in reservations && r.id == id;
      reservations := Filter(reservations, ReservationWithout(id));
      var pos := FirstIndex(tickets, WithId(id));
      var removed := pos < |tickets|;
      if removed {
        var t := tickets[pos];
        assert t in q.tickets;
        RemoveAt(pos);
        if reserve {
          reservations := reservations + [ReservationFor(t, now)];
        }
      } else {
        assert forall t :: t in q.tickets ==> !WithId(id)(t);
      }
      changed := removed || hadReservation;
      assert State() == Leave(q, id, reserve, now);
      if changed {
        Pump();
      } else {
        LeaveOfAStranger(q, id, reserve, now);
      }
    }

    /** Renew the lease of a ticket, and of a reservation, under this id. */
    method Heartbeat(id: string, now: nat)
      requires Valid()
      modifies this`tickets, this`reservations
      ensures State() == Refresh(old(State()), id, now)
      ensures Valid()
    {
      hide InOrder, SendersAreWaiters, OpenChannelsAreSenders, WorkConserving;
      ghost var q := State();
      var t := FirstIndex(tickets, WithId(id));
      if t < |tickets| {
        tickets := tickets[t := tickets[t].(lease := now + LEASE_TTL_MS)];
      }
      var r := FirstIndex(reservations, (x: Reservation) => x.id == id);
      if r < |reservations| {
        reservations := reservations[r := reservations[r].(lease := now + LEASE_TTL_MS)];
      }
      assert tickets == Refresh(q, id, now).tickets;
      assert reservations == Refresh(q, id, now).reservations;
      RefreshChangesLeases(q, id, now);
      LeasesAreFree(q, Refresh(q, id, now));
    }

    /** Drop every ticket and reservation the claim covers, and pump if anything was freed. */
    method Reclaim(claim: Claim) returns (changed: bool)
      requires Valid()
      modifies this
      ensures (State(), Changed(changed)) == StepReclaim(old(State()), claim)
      ensures Valid()
    {
      hide Filter, Inv, Sound, ChannelsOf, Settle;
      ghost var q := State();
      assert OpenChannelsAreSenders(q) by { InvOpensSenders(q); }
      EvictIsSound(q, claim) by { InvIsSound(q); }
      var reservationsBefore := |reservations|;
      reservations := Filter(reservations, ReservationUnclaimed(claim));
      var freedReservation := |reservations| != reservationsBefore;
      var victims := Filter(tickets, Claimed(claim));
      VictimsAreTheRest(tickets, claim);
      if victims == [] {
        KeepingAllKeepsAll(State(), Unclaimed(claim));
        if freedReservation {
          Pump();
        } else {
          EvictingNobody(q, claim);
        }
        return freedReservation;
      }
      tickets := Filter(tickets, Unclaimed(claim));
      NothingSettled(q, Closed);
      assert FirstIds(victims, 0) == {};
      for i := 0 to |victims|
        invariant tickets == Filter(q.tickets, Unclaimed(claim))
        invariant laneCapacity == q.capacity && cancelledEarly == q.cancelledEarly
        invariant reservations == Filter(q.reservations, ReservationUnclaimed(claim))
        invariant senders == q.senders - FirstIds(victims, i)
        invariant channels == Settle(q.channels, ChannelsOf(q.senders, FirstIds(victims, i)), Closed)
      {
        hide Filter;
        assert FirstIds(victims, i + 1) == FirstIds(victims, i) + {victims[i].id};
        SettlingOneMore(q, FirstIds(victims, i), victims[i].id, Closed);
        TakeSender(victims[i].id, Closed);
      }
      VictimIds(q.tickets, claim);
      assert State() == Evict(q, claim);
      Pump();
      changed := true;
    }

    /** Drop everything a window owns. */
    method ReleaseWindow(window: string) returns (changed: bool)
      requires Valid()
      modifies this
      ensures (State(), Changed(changed)) == StepReclaim(old(State()), OwnedBy(window))
      ensures Valid()
    {
      changed := Reclaim(OwnedBy(window));
    }

    /** Drop everything whose lease ended before `now`. */
    method SweepExpiredAt(now: nat) returns (changed: bool)
      requires Valid()
      modifies this
      ensures (State(), Changed(changed)) == StepReclaim(old(State()), LeaseBefore(now))
      ensures Valid()
    {
      changed := Reclaim(LeaseBefore(now));
    }
  }

  lemma {:induction false} InvIsSound(q: Queue)
    requires Inv(q)
    ensures Sound(q)
  {
  }

  lemma {:induction false} InvOpensSenders(q: Queue)
    requires Inv(q)
    ensures OpenChannelsAreSenders(q)
  {
  }

  function Claimed(claim: Claim): Ticket -> bool {
    (t: Ticket) => claim.Covers(t.owner, t.lease)
  }

  function FirstIds(ts: seq<Ticket>, n: nat): set<string>
    requires n <= |ts|
  {
    set i | 0 <= i < n :: ts[i].id
  }

  lemma {:induction false} VictimsAreTheRest(ts: seq<Ticket>, claim: Claim)
    ensures |Filter(ts, Claimed(claim))| + |Filter(ts, Unclaimed(claim))| == |ts|
  {
    if ts != [] {
      VictimsAreTheRest(ts[..|ts| - 1], claim);
    }
  }

  lemma {:induction false} VictimIds(ts: seq<Ticket>, claim: Claim)
    ensures FirstIds(Filter(ts, Claimed(claim)), |Filter(ts, Claimed(claim))|)
            == set t | t in ts && !Unclaimed(claim)(t) :: t.id
  {
    hide Filter;
    var victims := Filter(ts, Claimed(claim));
    forall t | t in ts && !Unclaimed(claim)(t) ensures t.id in FirstIds(victims, |victims|) {
      assert t in victims;
    }
    forall i | 0 <= i < |victims| ensures victims[i] in ts && !Unclaimed(claim)(victims[i]) {
      assert victims[i] in victims;
    }
  }
}
