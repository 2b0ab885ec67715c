/** What holds of the queue in every reachable state, and why no operation breaks it. */
module QueueInvariant {
  import opened Sequences
  import opened QueueState

  ghost predicate UniqueIds(ts: seq<Ticket>) {
    forall i, j :: 0 <= i < j < |ts| ==> ts[i].id != ts[j].id
  }

  ghost predicate UniqueReservations(rs: seq<Reservation>) {
    forall i, j :: 0 <= i < j < |rs| ==> rs[i].id != rs[j].id
  }

  /** The senders' keys are exactly the ids of waiting tickets. */
  ghost predicate SendersAreWaiters(q: Queue) {
    && (forall t :: t in q.tickets && t.state.Waiting? ==> t.id in q.senders)
    && (forall id :: id in q.senders ==> HasWaiter(q, id))
  }

  /** The unsettled channels are exactly those that wake a waiter, one each. */
  ghost predicate OpenChannelsAreSenders(q: Queue) {
    && (forall id :: id in q.senders ==> q.senders[id] < |q.channels| && q.channels[q.senders[id]] == Open)
    && (forall a, b :: a in q.senders && b in q.senders && q.senders[a] == q.senders[b] ==> a == b)
    && (forall k :: 0 <= k < |q.channels| && q.channels[k] == Open ==>
          exists id :: id in q.senders && q.senders[id] == k)
  }

  /** Of two waiters of one lane, `a` goes first: front tickets first, then by arrival. */
  ghost predicate GoesFirst(senders: map<string, nat>, a: Ticket, b: Ticket) {
    a.lane == b.lane && a.state.Waiting? && b.state.Waiting? && a.id in senders && b.id in senders ==>
      if a.front == b.front then senders[a.id] < senders[b.id] else a.front
  }

  ghost predicate InOrder(q: Queue) {
    forall i, j :: 0 <= i < j < |q.tickets| ==> GoesFirst(q.senders, q.tickets[i], q.tickets[j])
  }

  ghost predicate NoLaneClosed(q: Queue) {
    forall lane :: lane in q.capacity ==> q.capacity[lane].Admits(0)
  }

  /** All of the invariant but work conservation: what `Pump` needs, and keeps. */
  ghost predicate Sound(q: Queue) {
    && UniqueIds(q.tickets)
    && UniqueReservations(q.reservations)
    && SendersAreWaiters(q)
    && OpenChannelsAreSenders(q)
    && InOrder(q)
    && NoLaneClosed(q)
    && |q.cancelledEarly| <= EARLY_CANCEL_CAP
  }

  /** No waiter could run: its lane is full, or it is in the background of a busy lane. */
  ghost predicate WorkConserving(q: Queue) {
    forall t :: t in q.tickets && t.state.Waiting? ==>
      || !CapacityOf(q.capacity, t.lane).Admits(Used(q, t.lane))
      || (t.priority.Background? && BusyForBackground(q, t.lane))
  }

  ghost predicate Inv(q: Queue) {
    Sound(q) && WorkConserving(q)
  }

  // Pumping.

  /** How many tickets run on a lane once `waiters` eligible ones were offered its free slots. */
  function Level(cap: Capacity, used: nat, waiters: nat): nat {
    match cap
    case Unbounded => used + waiters
    case Slots(n) => if n <= used then used else if n <= used + waiters then n else used + waiters
  }

  function Eligible(q: Queue, lane: string, n: nat): nat
    requires n <= |q.tickets|
  {
    Count(q.tickets[..n], EligibleOn(lane, BusyForBackground(q, lane)))
  }

  lemma {:induction false} RunsAfterPump(q: Queue, lane: string, i: nat)
    requires i < |q.tickets|
    ensures RunningOn(lane)(PumpedAt(q, i)) <==>
            || RunningOn(lane)(q.tickets[i])
            || (&& EligibleOn(lane, BusyForBackground(q, lane))(q.tickets[i])
                && CapacityOf(q.capacity, lane).Admits(Used(q, lane) + Eligible(q, lane, i)))
  {
  }

  lemma {:induction false} CountSplit(s: seq<Ticket>, i: nat, p: Ticket -> bool)
    requires i < |s|
    ensures Count(s[..i + 1], p) == Count(s[..i], p) + (if p(s[i]) then 1 else 0)
  {
    FilterSplit(s, i, p);
  }

  lemma {:induction false} LevelSteps(cap: Capacity, used: nat, waiters: nat)
    ensures Level(cap, used, 0) == used
    ensures cap.Admits(Level(cap, used, waiters)) <==> cap.Admits(used + waiters)
    ensures Level(cap, used, waiters + 1) == Level(cap, used, waiters) + if cap.Admits(used + waiters) then 1 else 0
  {
  }

  lemma {:induction false} EligibleSplit(q: Queue, lane: string, i: nat)
    requires i < |q.tickets|
    ensures Eligible(q, lane, i + 1) ==
            Eligible(q, lane, i) + if EligibleOn(lane, BusyForBackground(q, lane))(q.tickets[i]) then 1 else 0
  {
    CountSplit(q.tickets, i, EligibleOn(lane, BusyForBackground(q, lane)));
  }

  lemma {:induction false} NoneEligible(q: Queue, lane: string)
    ensures Eligible(q, lane, 0) == 0
  {
  }

  /** Each lane fills up to its capacity or until its eligible waiters run out. */
  lemma {:induction false} PumpFillsLanes(q: Queue, pumped: seq<Ticket>, lane: string, n: nat)
    requires |pumped| == |q.tickets| && n <= |pumped|
    requires forall i :: 0 <= i < |pumped| ==> pumped[i] == PumpedAt(q, i)
    ensures Count(pumped[..n], RunningOn(lane)) ==
            Count(q.tickets[..n], RunningOn(lane)) - Used(q, lane)
            + Level(CapacityOf(q.capacity, lane), Used(q, lane), Eligible(q, lane, n))
  {
    hide Filter, Level, PumpedAt, BusyForBackground, Used, CapacityOf;
    if n == 0 {
      LevelSteps(CapacityOf(q.capacity, lane), Used(q, lane), 0);
      NoneEligible(q, lane);
      assert pumped[..0] == q.tickets[..0];
    } else {
      PumpFillsLanes(q, pumped, lane, n - 1);
      RunsAfterPump(q, lane, n - 1);
      CountSplit(pumped, n - 1, RunningOn(lane));
      CountSplit(q.tickets, n - 1, RunningOn(lane));
      EligibleSplit(q, lane, n - 1);
      LevelSteps(CapacityOf(q.capacity, lane), Used(q, lane), Eligible(q, lane, n - 1));
    }
  }

  lemma {:induction false} PumpLevel(q: Queue, lane: string)
    ensures Used(Pump(q), lane) ==
            Level(CapacityOf(q.capacity, lane), Used(q, lane), Eligible(q, lane, |q.tickets|))
  {
    PumpFillsLanes(q, Pump(q).tickets, lane, |q.tickets|);
    assert Pump(q).tickets[..|q.tickets|] == Pump(q).tickets;
    assert q.tickets[..|q.tickets|] == q.tickets;
  }

  lemma {:induction false} PumpKeepsBusy(q: Queue, lane: string)
    ensures BusyForBackground(Pump(q), lane) == BusyForBackground(q, lane)
  {
    var p := Pump(q);
    if t :| t in q.tickets && t.lane == lane && t.priority.Foreground? {
      var i :| 0 <= i < |q.tickets| && q.tickets[i] == t;
      assert p.tickets[i] in p.tickets && p.tickets[i].lane == lane && p.tickets[i].priority.Foreground?;
    }
    if t :| t in p.tickets && t.lane == lane && t.priority.Foreground? {
      var i :| 0 <= i < |p.tickets| && p.tickets[i] == t;
      assert q.tickets[i] in q.tickets && q.tickets[i].lane == lane && q.tickets[i].priority.Foreground?;
    }
  }

  lemma {:induction false} PumpConservesWork(q: Queue)
    ensures WorkConserving(Pump(q))
  {
    hide Filter, BusyForBackground, AdmittedIds, Settle;
    var p := Pump(q);
    forall t | t in p.tickets && t.state.Waiting?
      ensures || !CapacityOf(p.capacity, t.lane).Admits(Used(p, t.lane))
              || (t.priority.Background? && BusyForBackground(p, t.lane))
    {
      var i :| 0 <= i < |p.tickets| && p.tickets[i] == t;
      PumpLevel(q, t.lane);
      PumpKeepsBusy(q, t.lane);
      FilterPrefix(q.tickets, i, EligibleOn(t.lane, BusyForBackground(q, t.lane)));
      assert q.tickets[..|q.tickets|] == q.tickets;
    }
  }

  lemma {:induction false} AdmittedIdsOwn(q: Queue, i: nat)
    requires UniqueIds(q.tickets) && i < |q.tickets|
    ensures q.tickets[i].id in AdmittedIds(q, |q.tickets|) <==> AdmittedAt(q, i)
  {
    if q.tickets[i].id in AdmittedIds(q, |q.tickets|) {
      var j :| 0 <= j < |q.tickets| && AdmittedAt(q, j) && q.tickets[j].id == q.tickets[i].id;
    }
  }

  lemma {:induction false} PumpWaiters(q: Queue)
    requires Sound(q)
    ensures SendersAreWaiters(Pump(q))
    ensures forall id :: id in Pump(q).senders ==> id in q.senders && Pump(q).senders[id] == q.senders[id]
  {
    hide AdmittedIds, AdmittedAt, OpenChannelsAreSenders, InOrder;
    var p := Pump(q);
    forall t | t in p.tickets && t.state.Waiting? ensures t.id in p.senders {
      var i :| 0 <= i < |p.tickets| && p.tickets[i] == t;
      AdmittedIdsOwn(q, i);
      assert q.tickets[i] in q.tickets;
    }
    forall id | id in p.senders ensures HasWaiter(p, id) {
      var t :| t in q.tickets && t.id == id && t.state.Waiting?;
      var i :| 0 <= i < |q.tickets| && q.tickets[i] == t;
      AdmittedIdsOwn(q, i);
      assert p.tickets[i] in p.tickets;
    }
  }

  lemma {:induction false} PumpChannels(q: Queue)
    requires Sound(q)
    ensures OpenChannelsAreSenders(Pump(q))
  {
    hide AdmittedIds, UniqueIds, UniqueReservations, SendersAreWaiters, InOrder, NoLaneClosed, PumpedAt;
    var p := Pump(q);
    var ks := ChannelsOf(q.senders, AdmittedIds(q, |q.tickets|));
    assert forall id :: id in p.senders ==> p.senders[id] !in ks;
    forall k | 0 <= k < |p.channels| && p.channels[k] == Open
      ensures exists id :: id in p.senders && p.senders[id] == k
    {
      var id :| id in q.senders && q.senders[id] == k;
      assert id !in AdmittedIds(q, |q.tickets|);
      assert id in p.senders;
    }
  }

  lemma {:induction false} PumpKeepsOrder(q: Queue)
    requires Sound(q)
    ensures InOrder(Pump(q))
  {
    var p := Pump(q);
    PumpWaiters(q);
    forall i, j | 0 <= i < j < |p.tickets| ensures GoesFirst(p.senders, p.tickets[i], p.tickets[j]) {
      assert GoesFirst(q.senders, q.tickets[i], q.tickets[j]);
    }
  }

  lemma {:induction false} PumpRestoresInv(q: Queue)
    requires Sound(q)
    ensures Inv(Pump(q))
  {
    PumpWaiters(q);
    PumpChannels(q);
    PumpKeepsOrder(q);
    PumpConservesWork(q);
  }

  /** On a work-conserving queue a pump finds nobody to admit. */
  lemma {:induction false} PumpIsIdle(q: Queue)
    requires WorkConserving(q)
    ensures Pump(q) == q
  {
    forall i | 0 <= i < |q.tickets| ensures !AdmittedAt(q, i) {
      assert q.tickets[i] in q.tickets;
    }
    assert AdmittedIds(q, |q.tickets|) == {};
    assert ChannelsOf(q.senders, {}) == {};
    assert Pump(q).tickets == q.tickets;
    assert Pump(q).senders == q.senders;
    assert Pump(q).channels == q.channels;
  }

  /** One pass over the tickets is a fixpoint: a second finds nothing left to admit. */
  lemma {:induction false} PumpOnceIsEnough(q: Queue)
    ensures Pump(Pump(q)) == Pump(q)
  {
    PumpConservesWork(q);
    PumpIsIdle(Pump(q));
  }

  // Removal.

  lemma {:induction false} FilterKeepsIdsUnique(ts: seq<Ticket>, keep: Ticket -> bool)
    requires UniqueIds(ts)
    ensures UniqueIds(Filter(ts, keep))
  {
    FilterKeepsPairs(ts, keep, (a: Ticket, b: Ticket) => a.id != b.id);
  }

  lemma {:induction false} FilterKeepsReservationsUnique(rs: seq<Reservation>, keep: Reservation -> bool)
    requires UniqueReservations(rs)
    ensures UniqueReservations(Filter(rs, keep))
  {
    FilterKeepsPairs(rs, keep, (a: Reservation, b: Reservation) => a.id != b.id);
  }

  lemma {:induction false} SameTicket(ts: seq<Ticket>, a: Ticket, b: Ticket)
    requires UniqueIds(ts) && a in ts && b in ts && a.id == b.id
    ensures a == b
  {
    var i :| 0 <= i < |ts| && ts[i] == a;
    var j :| 0 <= j < |ts| && ts[j] == b;
    assert i <= j && j <= i;
  }

  lemma {:induction false} KeepWaiters(q: Queue, keep: Ticket -> bool)
    requires Sound(q)
    ensures SendersAreWaiters(KeepTickets(q, keep))
  {
    var kept := KeepTickets(q, keep);
    forall t | t in kept.tickets && t.state.Waiting? ensures t.id in kept.senders {
      if u :| u in q.tickets && !keep(u) && u.id == t.id {
        SameTicket(q.tickets, t, u);
      }
    }
    forall id | id in kept.senders ensures HasWaiter(kept, id) {
      var t :| t in q.tickets && t.id == id && t.state.Waiting?;
      assert t in kept.tickets;
    }
  }

  lemma {:induction false} KeepChannels(q: Queue, keep: Ticket -> bool)
    requires Sound(q)
    ensures OpenChannelsAreSenders(KeepTickets(q, keep))
  {
    var kept := KeepTickets(q, keep);
    var gone := set t | t in q.tickets && !keep(t) :: t.id;
    forall k | 0 <= k < |kept.channels| && kept.channels[k] == Open
      ensures exists id :: id in kept.senders && kept.senders[id] == k
    {
      var id :| id in q.senders && q.senders[id] == k;
      assert id !in gone;
      assert id in kept.senders;
    }
  }

  lemma {:induction false} KeepOrder(q: Queue, keep: Ticket -> bool)
    requires Sound(q)
    ensures InOrder(KeepTickets(q, keep))
  {
    var kept := KeepTickets(q, keep);
    FilterKeepsPairs(q.tickets, keep, (a: Ticket, b: Ticket) => GoesFirst(q.senders, a, b));
    forall i, j | 0 <= i < j < |kept.tickets| ensures GoesFirst(kept.senders, kept.tickets[i], kept.tickets[j]) {
      assert GoesFirst(q.senders, kept.tickets[i], kept.tickets[j]);
    }
  }

  lemma {:induction false} KeepIsSound(q: Queue, keep: Ticket -> bool)
    requires Sound(q)
    ensures Sound(KeepTickets(q, keep))
  {
    FilterKeepsIdsUnique(q.tickets, keep);
    KeepWaiters(q, keep);
    KeepChannels(q, keep);
    KeepOrder(q, keep);
  }

  lemma {:induction false} ReservationsAreFree(q: Queue, rs: seq<Reservation>)
    requires Sound(q) && UniqueReservations(rs)
    ensures Sound(q.(reservations := rs))
  {
    var r := q.(reservations := rs);
    assert forall id :: HasWaiter(r, id) == HasWaiter(q, id);
  }

  lemma {:induction false} LeaveIsSound(q: Queue, id: string, reserve: bool, now: nat)
    requires Sound(q)
    ensures Sound(Leave(q, id, reserve, now))
  {
    var rs := DropReservation(q.reservations, id);
    FilterKeepsReservationsUnique(q.reservations, ReservationWithout(id));
    ReservationsAreFree(q, rs);
    var dropped := q.(reservations := rs);
    KeepIsSound(dropped, Without(id));
    var kept := KeepTickets(dropped, Without(id));
    var pos := FirstIndex(q.tickets, WithId(id));
    if pos < |q.tickets| && reserve {
      forall i | 0 <= i < |rs| ensures rs[i].id != id {
        assert rs[i] in Filter(q.reservations, ReservationWithout(id));
      }
      ReservationsAreFree(kept, rs + [ReservationFor(q.tickets[pos], now)]);
    }
  }

  lemma {:induction false} EvictIsSound(q: Queue, claim: Claim)
    requires Sound(q)
    ensures Sound(Evict(q, claim))
  {
    FilterKeepsReservationsUnique(q.reservations, ReservationUnclaimed(claim));
    ReservationsAreFree(q, Filter(q.reservations, ReservationUnclaimed(claim)));
    KeepIsSound(q.(reservations := Filter(q.reservations, ReservationUnclaimed(claim))), Unclaimed(claim));
  }

  /** `r` is `q` with other leases. */
  ghost predicate OnlyLeasesDiffer(q: Queue, r: Queue) {
    && |r.tickets| == |q.tickets|
    && |r.reservations| == |q.reservations|
    && (forall i :: 0 <= i < |q.tickets| ==> r.tickets[i] == q.tickets[i].(lease := r.tickets[i].lease))
    && (forall i :: 0 <= i < |q.reservations| ==>
          r.reservations[i] == q.reservations[i].(lease := r.reservations[i].lease))
    && r == q.(tickets := r.tickets, reservations := r.reservations)
  }

  /** Leases have no part in admission: a lane's load and what keeps background tickets out do not see them. */
  lemma {:induction false} LeasesDoNotLoad(q: Queue, r: Queue, lane: string)
    requires OnlyLeasesDiffer(q, r)
    ensures Used(r, lane) == Used(q, lane)
    ensures BusyForBackground(r, lane) <==> BusyForBackground(q, lane)
  {
    CountPointwise(q.tickets, r.tickets, RunningOn(lane), RunningOn(lane));
    CountPointwise(r.tickets, q.tickets, RunningOn(lane), RunningOn(lane));
    if BusyForBackground(q, lane) {
      LeasesDoNotFree(q, r, lane);
    }
    if BusyForBackground(r, lane) {
      LeasesDoNotFree(r, q, lane);
    }
  }

  lemma {:induction false} LeasesDoNotFree(q: Queue, r: Queue, lane: string)
    requires OnlyLeasesDiffer(q, r) && BusyForBackground(q, lane)
    ensures BusyForBackground(r, lane)
  {
    if t :| t in q.tickets && t.lane == lane && t.priority.Foreground? {
      var i :| 0 <= i < |q.tickets| && q.tickets[i] == t;
      assert r.tickets[i] in r.tickets;
    } else {
      var s :| s in q.reservations && s.lane == lane;
      var i :| 0 <= i < |q.reservations| && q.reservations[i] == s;
      assert r.reservations[i] in r.reservations;
    }
  }

  lemma {:induction false} LeasesDoNotWait(q: Queue, r: Queue)
    requires OnlyLeasesDiffer(q, r) && SendersAreWaiters(q)
    ensures SendersAreWaiters(r)
  {
    forall t | t in r.tickets && t.state.Waiting? ensures t.id in r.senders {
      var i :| 0 <= i < |r.tickets| && r.tickets[i] == t;
      assert q.tickets[i] in q.tickets;
    }
    forall id | id in r.senders ensures HasWaiter(r, id) {
      var t :| t in q.tickets && t.id == id && t.state.Waiting?;
      var i :| 0 <= i < |q.tickets| && q.tickets[i] == t;
      assert r.tickets[i] in r.tickets;
    }
  }

  lemma {:induction false} LeasesAreFree(q: Queue, r: Queue)
    requires OnlyLeasesDiffer(q, r) && Inv(q)
    ensures Inv(r)
  {
    hide WorkConserving, SendersAreWaiters;
    LeasesDoNotWait(q, r);
    LeasesDoNotAdmit(q, r);
    forall i, j | 0 <= i < j < |r.tickets| ensures GoesFirst(r.senders, r.tickets[i], r.tickets[j]) {
      assert GoesFirst(q.senders, q.tickets[i], q.tickets[j]);
    }
  }

  lemma {:induction false} LeasesDoNotAdmit(q: Queue, r: Queue)
    requires OnlyLeasesDiffer(q, r) && WorkConserving(q)
    ensures WorkConserving(r)
  {
    hide Used, BusyForBackground, CapacityOf;
    forall t | t in r.tickets && t.state.Waiting?
      ensures || !CapacityOf(r.capacity, t.lane).Admits(Used(r, t.lane))
              || (t.priority.Background? && BusyForBackground(r, t.lane))
    {
      var i :| 0 <= i < |r.tickets| && r.tickets[i] == t;
      assert q.tickets[i] in q.tickets;
      LeasesDoNotLoad(q, r, t.lane);
    }
  }

  lemma {:induction false} RefreshChangesLeases(q: Queue, id: string, now: nat)
    ensures OnlyLeasesDiffer(q, Refresh(q, id, now))
  {
  }

  // Arrival.

  /** `ts` with `t` put in at index `at`. */
  ghost predicate Inserted(ts: seq<Ticket>, at: nat, t: Ticket, r: seq<Ticket>) {
    && at <= |ts|
    && |r| == |ts| + 1
    && r[at] == t
    && (forall i :: 0 <= i < at ==> r[i] == ts[i])
    && (forall i :: at <= i < |ts| ==> r[i + 1] == ts[i])
  }

  lemma {:induction false} JoinInserts(q: Queue, req: Request, now: nat)
    ensures Inserted(q.tickets, InsertionPoint(q, req.lane, req.front), NewTicket(req, now), Join(q, req, now).tickets)
    ensures forall t :: t in Join(q, req, now).tickets <==> t in q.tickets || t == NewTicket(req, now)
  {
    var at := InsertionPoint(q, req.lane, req.front);
    assert q.tickets == q.tickets[..at] + q.tickets[at..];
  }

  lemma {:induction false} JoinWaiters(q: Queue, req: Request, now: nat)
    requires Sound(q) && Accepts(q, req)
    ensures SendersAreWaiters(Join(q, req, now))
  {
    var j := Join(q, req, now);
    JoinInserts(q, req, now);
    forall id | id in j.senders ensures HasWaiter(j, id) {
      if id == req.id {
        assert NewTicket(req, now) in j.tickets;
      } else {
        var t :| t in q.tickets && t.id == id && t.state.Waiting?;
        assert t in j.tickets;
      }
    }
  }

  lemma {:induction false} JoinOpensAChannel(q: Queue, req: Request, now: nat)
    requires Sound(q) && Accepts(q, req)
    ensures OpenChannelsAreSenders(Join(q, req, now))
  {
    var j := Join(q, req, now);
    assert req.id !in q.senders;
    forall k | 0 <= k < |j.channels| && j.channels[k] == Open
      ensures exists id :: id in j.senders && j.senders[id] == k
    {
      if k == |q.channels| {
        assert req.id in j.senders && j.senders[req.id] == k;
      } else {
        assert q.channels[k] == Open;
        var id :| id in q.senders && q.senders[id] == k;
        assert id in j.senders && j.senders[id] == k;
      }
    }
  }

  /** The index in the old sequence of the ticket at `i` in the new one. */
  function OldIndex(at: nat, i: nat): int {
    if i < at then i else i - 1
  }

  lemma {:induction false} InsertKeepsIdsUnique(ts: seq<Ticket>, at: nat, t: Ticket, r: seq<Ticket>)
    requires Inserted(ts, at, t, r) && UniqueIds(ts) && (forall u :: u in ts ==> u.id != t.id)
    ensures UniqueIds(r)
  {
    forall a, b | 0 <= a < b < |r| ensures r[a].id != r[b].id {
      var x, y := OldIndex(at, a), OldIndex(at, b);
      assert a != at ==> r[a] == ts[x] && ts[x] in ts;
      assert b != at ==> r[b] == ts[y] && ts[y] in ts;
    }
  }

  lemma {:induction false} NewTicketGoesAfter(q: Queue, req: Request, now: nat, x: nat)
    requires Sound(q) && Accepts(q, req) && x < InsertionPoint(q, req.lane, req.front)
    ensures GoesFirst(q.senders[req.id := |q.channels|], q.tickets[x], NewTicket(req, now))
  {
    assert q.tickets[x] in q.tickets;
    assert req.front ==> !OrdinaryWaiterOn(req.lane)(q.tickets[x]);
  }

  lemma {:induction false} NewTicketGoesBefore(q: Queue, req: Request, now: nat, y: nat)
    requires Sound(q) && Accepts(q, req) && InsertionPoint(q, req.lane, req.front) <= y < |q.tickets|
    ensures GoesFirst(q.senders[req.id := |q.channels|], NewTicket(req, now), q.tickets[y])
  {
    var at := InsertionPoint(q, req.lane, req.front);
    assert OrdinaryWaiterOn(req.lane)(q.tickets[at]);
    assert q.tickets[at] in q.tickets && q.tickets[y] in q.tickets;
    if at < y {
      assert GoesFirst(q.senders, q.tickets[at], q.tickets[y]);
    }
  }

  lemma {:induction false} OthersKeepOrder(q: Queue, req: Request, x: nat, y: nat)
    requires Sound(q) && Accepts(q, req) && x < y < |q.tickets|
    ensures GoesFirst(q.senders[req.id := |q.channels|], q.tickets[x], q.tickets[y])
  {
    assert q.tickets[x] in q.tickets && q.tickets[y] in q.tickets;
    assert GoesFirst(q.senders, q.tickets[x], q.tickets[y]);
  }

  lemma {:induction false} InsertKeepsOrder(q: Queue, req: Request, now: nat, r: seq<Ticket>, a: nat, b: nat)
    requires Sound(q) && Accepts(q, req) && a < b < |r|
    requires Inserted(q.tickets, InsertionPoint(q, req.lane, req.front), NewTicket(req, now), r)
    ensures GoesFirst(q.senders[req.id := |q.channels|], r[a], r[b])
  {
    hide Sound, InsertionPoint, GoesFirst, NewTicket, Accepts;
    var at := InsertionPoint(q, req.lane, req.front);
    if b == at {
      NewTicketGoesAfter(q, req, now, a);
    } else if a == at {
      NewTicketGoesBefore(q, req, now, b - 1);
      assert r[b - 1 + 1] == q.tickets[b - 1];
    } else {
      var x, y := OldIndex(at, a), OldIndex(at, b);
      assert r[a] == q.tickets[x] && r[b] == q.tickets[y];
      OthersKeepOrder(q, req, x, y);
    }
  }

  /** The new ticket takes its place behind the waiters that go before it, and ahead of the others. */
  lemma {:induction false} JoinKeepsOrder(q: Queue, req: Request, now: nat)
    requires Sound(q) && Accepts(q, req)
    ensures InOrder(Join(q, req, now))
  {
    var j := Join(q, req, now);
    JoinInserts(q, req, now);
    forall a, b | 0 <= a < b < |j.tickets| ensures GoesFirst(j.senders, j.tickets[a], j.tickets[b]) {
      InsertKeepsOrder(q, req, now, j.tickets, a, b);
    }
  }

  lemma {:induction false} JoinIsSound(q: Queue, req: Request, now: nat)
    requires Sound(q) && Accepts(q, req)
    ensures Sound(Join(q, req, now))
  {
    JoinWaiters(q, req, now);
    JoinOpensAChannel(q, req, now);
    JoinKeepsOrder(q, req, now);
    JoinInserts(q, req, now);
    InsertKeepsIdsUnique(q.tickets, InsertionPoint(q, req.lane, req.front), NewTicket(req, now), Join(q, req, now).tickets);
    if req.replacing.Some? {
      FilterKeepsReservationsUnique(q.reservations, ReservationWithout(req.replacing.value));
    }
  }

  lemma {:induction false} RemoveFirstShortens(s: seq<string>, x: string)
    requires x in s
    ensures |RemoveFirst(s, x)| == |s| - 1
  {
    if s[0] != x {
      RemoveFirstShortens(s[1..], x);
    }
  }

  // Every step, every run.

  lemma {:induction false} EarlyCancelsAreFree(q: Queue, ids: seq<string>)
    requires Inv(q) && |ids| <= EARLY_CANCEL_CAP
    ensures Inv(q.(cancelledEarly := ids))
  {
    var r := q.(cancelledEarly := ids);
    assert forall id :: HasWaiter(r, id) == HasWaiter(q, id);
    assert forall lane :: BusyForBackground(r, lane) == BusyForBackground(q, lane);
  }

  lemma {:induction false} AcquireKeepsInv(q: Queue, req: Request, now: nat)
    requires Inv(q)
    ensures Inv(StepAcquire(q, req, now).0)
  {
    if Accepts(q, req) {
      JoinIsSound(q, req, now);
      PumpRestoresInv(Join(q, req, now));
    } else if !HasTicket(q, req.id) {
      RemoveFirstShortens(q.cancelledEarly, req.id);
      EarlyCancelsAreFree(q, RemoveFirst(q.cancelledEarly, req.id));
    }
  }

  lemma {:induction false} ReleaseKeepsInv(q: Queue, id: string, reserve: bool, now: nat)
    requires Inv(q)
    ensures Inv(StepRelease(q, id, reserve, now).0)
  {
    LeaveIsSound(q, id, reserve, now);
    PumpRestoresInv(Leave(q, id, reserve, now));
    if !HasTicket(q, id) && !HasReservation(q, id) {
      LeaveOfAStranger(q, id, reserve, now);
    }
  }

  lemma {:induction false} ReclaimKeepsInv(q: Queue, claim: Claim)
    requires Inv(q)
    ensures Inv(StepReclaim(q, claim).0)
  {
    EvictIsSound(q, claim);
    PumpRestoresInv(Evict(q, claim));
  }

  lemma {:induction false} CancelKeepsInv(q: Queue, id: string)
    requires Inv(q)
    ensures Inv(StepCancelProbe(q, id).0)
    ensures Inv(StepCancelWaiting(q, id).0)
  {
    EarlyCancelsAreFree(q, Remember(q.cancelledEarly, id));
    KeepIsSound(q, Without(id));
    PumpRestoresInv(KeepTickets(q, Without(id)));
  }

  lemma {:induction false} StepKeepsInv(q: Queue, e: Event)
    requires Inv(q)
    ensures Inv(Step(q, e).0)
  {
    hide Inv, StepAcquire, StepRelease, StepReclaim, StepCancelProbe, StepCancelWaiting;
    match e.op
    case Acquire(req) => AcquireKeepsInv(q, req, e.now);
    case CancelProbe(id) => CancelKeepsInv(q, id);
    case CancelWaiting(id) => CancelKeepsInv(q, id);
    case Release(id, reserve) => ReleaseKeepsInv(q, id, reserve, e.now);
    case Heartbeat(id) =>
      RefreshChangesLeases(q, id, e.now);
      LeasesAreFree(q, Refresh(q, id, e.now));
    case Reclaim(claim) => ReclaimKeepsInv(q, claim);
  }

  /** Releasing an id that holds nothing changes nothing. */
  lemma {:induction false} LeaveOfAStranger(q: Queue, id: string, reserve: bool, now: nat)
    requires !HasTicket(q, id) && !HasReservation(q, id)
    ensures Leave(q, id, reserve, now) == q
  {
    FilterAll(q.reservations, ReservationWithout(id));
  }

  lemma {:induction false} EmptyIsInv()
    ensures Inv(EMPTY)
  {
  }

  /** The invariant, work conservation included, holds after every run of operations. */
  lemma {:induction false} RunKeepsInv(events: seq<Event>)
    ensures Inv(Run(EMPTY, events))
  {
    if events != [] {
      RunKeepsInv(events[..|events| - 1]);
      StepKeepsInv(Run(EMPTY, events[..|events| - 1]), events[|events| - 1]);
    }
  }
}
