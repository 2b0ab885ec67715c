/** How long a foreground ticket waits: a bound by the slots given back on its lane. */
module QueueWaiting {
  import opened Sequences
  import opened QueueState
  import opened QueueInvariant
  import opened QueueSteps

  function ForegroundWaiterOn(lane: string): Ticket -> bool {
    (t: Ticket) => t.lane == lane && t.state.Waiting? && t.priority.Foreground?
  }

  function RunningOrForegroundOn(lane: string): Ticket -> bool {
    (t: Ticket) => t.lane == lane && (t.state.Running? || t.priority.Foreground?)
  }

  function Position(q: Queue, id: string): nat {
    FirstIndex(q.tickets, WithId(id))
  }

  /** Whether `id` is a foreground waiter of `lane`. */
  ghost predicate WaitsOn(q: Queue, id: string, lane: string, front: bool) {
    var at := Position(q, id);
    && at < |q.tickets|
    && ForegroundWaiterOn(lane)(q.tickets[at])
    && q.tickets[at].front == front
  }

  /** The foreground waiters of the lane before `id`. */
  function AheadOf(q: Queue, id: string, lane: string): nat {
    Count(q.tickets[..Position(q, id)], ForegroundWaiterOn(lane))
  }

  /** Those ahead of `id` and those that run: what must leave, but for the lane's capacity, before it can run. */
  function Distance(q: Queue, id: string, lane: string): nat {
    AheadOf(q, id, lane) + Used(q, lane)
  }

  /** The running tickets of `lane` that are no longer held afterwards. */
  function Departed(q: Queue, r: Queue, lane: string): nat {
    Count(q.tickets, GoneFrom(set t | t in r.tickets :: t.id, lane))
  }

  function GoneFrom(ids: set<string>, lane: string): Ticket -> bool {
    (t: Ticket) => t.lane == lane && t.state.Running? && t.id !in ids
  }

  /** Whether the operation puts a foreground ticket in front of an ordinary waiter of `lane`. */
  ghost predicate Overtakes(e: Event, lane: string, front: bool) {
    e.op.Acquire? && e.op.req.lane == lane && e.op.req.front && e.op.req.priority.Foreground? && !front
  }

  // Distance, cut at the ticket's place.

  lemma {:induction false} CountAdds(ts: seq<Ticket>, p: Ticket -> bool, a: Ticket -> bool, b: Ticket -> bool)
    requires forall i :: 0 <= i < |ts| ==> (p(ts[i]) <==> a(ts[i]) || b(ts[i])) && !(a(ts[i]) && b(ts[i]))
    ensures Count(ts, p) == Count(ts, a) + Count(ts, b)
  {
    if ts != [] {
      CountAdds(ts[..|ts| - 1], p, a, b);
    }
  }

  lemma {:induction false} CountSame(ts: seq<Ticket>, us: seq<Ticket>, p: Ticket -> bool)
    requires |ts| == |us| && forall i :: 0 <= i < |ts| ==> p(ts[i]) == p(us[i])
    ensures Count(ts, p) == Count(us, p)
  {
    hide Count;
    if ts != [] {
      CountSame(ts[..|ts| - 1], us[..|us| - 1], p);
      CountLast(ts, p);
      CountLast(us, p);
    }
  }

  lemma {:induction false} CountCut(ts: seq<Ticket>, at: nat, p: Ticket -> bool)
    requires at <= |ts|
    ensures Count(ts, p) == Count(ts[..at], p) + Count(ts[at..], p)
  {
    FilterSplitAt(ts, at, p);
  }

  /** `Distance` counts what runs or is in the foreground before the ticket, and what runs after it. */
  function Cut(ts: seq<Ticket>, at: nat, lane: string): nat
    requires at <= |ts|
  {
    Count(ts[..at], RunningOrForegroundOn(lane)) + Count(ts[at..], RunningOn(lane))
  }

  lemma {:induction false} DistanceIsCut(q: Queue, id: string, lane: string)
    ensures Distance(q, id, lane) == Cut(q.tickets, Position(q, id), lane)
  {
    var at := Position(q, id);
    CountCut(q.tickets, at, RunningOn(lane));
    CountAdds(q.tickets[..at], RunningOrForegroundOn(lane), ForegroundWaiterOn(lane), RunningOn(lane));
  }

  // The pump.

  lemma {:induction false} PumpKeepsPosition(q: Queue, id: string)
    ensures Position(Pump(q), id) == Position(q, id)
  {
    var at := Position(q, id);
    FirstIndexIs(Pump(q).tickets, WithId(id), at);
  }

  /** While a foreground ticket waits, the pump admits foreground tickets before it and nobody else. */
  lemma {:induction false} PumpAdmitsOnlyAhead(q: Queue, id: string, lane: string, front: bool, i: nat)
    requires WaitsOn(q, id, lane, front) && !AdmittedAt(q, Position(q, id))
    requires i < |q.tickets| && q.tickets[i].lane == lane && AdmittedAt(q, i)
    ensures i < Position(q, id) && q.tickets[i].priority.Foreground?
  {
    hide Filter;
    var at := Position(q, id);
    assert q.tickets[at] in q.tickets;
    if at < i {
      EarlierIsOffered(q.tickets, at, i, EligibleOn(lane, BusyForBackground(q, lane)));
    }
  }

  lemma {:induction false} PumpKeepsDistance(q: Queue, id: string, lane: string, front: bool)
    requires WaitsOn(q, id, lane, front) && !AdmittedAt(q, Position(q, id))
    ensures WaitsOn(Pump(q), id, lane, front)
    ensures Distance(Pump(q), id, lane) == Distance(q, id, lane)
  {
    hide Filter;
    var at := Position(q, id);
    var ts, us := q.tickets, Pump(q).tickets;
    PumpKeepsPosition(q, id);
    DistanceIsCut(q, id, lane);
    DistanceIsCut(Pump(q), id, lane);
    forall i | 0 <= i < |ts|
      ensures if i < at then RunningOrForegroundOn(lane)(us[i]) == RunningOrForegroundOn(lane)(ts[i])
              else RunningOn(lane)(us[i]) == RunningOn(lane)(ts[i])
    {
      if ts[i].lane == lane && AdmittedAt(q, i) {
        PumpAdmitsOnlyAhead(q, id, lane, front, i);
      }
    }
    CountSame(ts[..at], us[..at], RunningOrForegroundOn(lane));
    CountSame(ts[at..], us[at..], RunningOn(lane));
  }

  // What comes before the pump.

  lemma {:induction false} CountLoses(ts: seq<Ticket>, keep: Ticket -> bool, p: Ticket -> bool, gone: Ticket -> bool)
    requires forall i :: 0 <= i < |ts| && gone(ts[i]) ==> p(ts[i]) && !keep(ts[i])
    ensures Count(Filter(ts, keep), p) + Count(ts, gone) <= Count(ts, p)
  {
    if ts != [] {
      var rest, last := ts[..|ts| - 1], ts[|ts| - 1];
      CountLoses(rest, keep, p, gone);
      FilterSnoc(Filter(rest, keep), last, p);
    }
  }

  lemma {:induction false} CutLoses(ts: seq<Ticket>, at: nat, keep: Ticket -> bool, lane: string, ids: set<string>)
    requires at <= |ts| && (forall i :: 0 <= i < |ts| && keep(ts[i]) ==> ts[i].id in ids)
    ensures
      && |Filter(ts[..at], keep)| <= |Filter(ts, keep)|
      && Cut(Filter(ts, keep), |Filter(ts[..at], keep)|, lane) + Count(ts, GoneFrom(ids, lane)) <= Cut(ts, at, lane)
  {
    hide Filter;
    var a, b := ts[..at], ts[at..];
    FilterSplitAt(ts, at, keep);
    CountCut(ts, at, GoneFrom(ids, lane));
    CountLoses(a, keep, RunningOrForegroundOn(lane), GoneFrom(ids, lane));
    CountLoses(b, keep, RunningOn(lane), GoneFrom(ids, lane));
    var kept, cut := Filter(ts, keep), |Filter(a, keep)|;
    assert kept[..cut] == Filter(a, keep) && kept[cut..] == Filter(b, keep);
  }

  function Ids(ts: seq<Ticket>): set<string> {
    set t | t in ts :: t.id
  }

  lemma {:induction false} KeepShortensDistance(q: Queue, keep: Ticket -> bool, id: string, lane: string, front: bool)
    requires Sound(q) && WaitsOn(q, id, lane, front) && keep(q.tickets[Position(q, id)])
    ensures WaitsOn(KeepTickets(q, keep), id, lane, front)
    ensures Distance(KeepTickets(q, keep), id, lane) + Departed(q, KeepTickets(q, keep), lane) <= Distance(q, id, lane)
  {
    hide Filter;
    var at, kept := Position(q, id), KeepTickets(q, keep);
    assert forall i :: 0 <= i < |q.tickets| && i != at ==> q.tickets[i].id != id;
    FirstIndexThroughFilter(q.tickets, keep, WithId(id));
    assert q.tickets[at..][0] == q.tickets[at];
    assert q.tickets[at] in kept.tickets;
    SameTicket(kept.tickets, kept.tickets[Position(kept, id)], q.tickets[at]) by {
      FilterKeepsIdsUnique(q.tickets, keep);
    }
    CutLoses(q.tickets, at, keep, lane, Ids(kept.tickets)) by {
      forall i | 0 <= i < |q.tickets| && keep(q.tickets[i]) ensures q.tickets[i].id in Ids(kept.tickets) {
        assert q.tickets[i] in kept.tickets;
      }
    }
    DistanceIsCut(q, id, lane);
    DistanceIsCut(kept, id, lane);
  }

  lemma {:induction false} CountNone(ts: seq<Ticket>, p: Ticket -> bool)
    requires forall i :: 0 <= i < |ts| ==> !p(ts[i])
    ensures Count(ts, p) == 0
  {
    if ts != [] {
      CountNone(ts[..|ts| - 1], p);
    }
  }

  lemma {:induction false} NobodyDeparts(q: Queue, r: Queue, lane: string)
    requires forall i :: 0 <= i < |q.tickets| ==> q.tickets[i].id in Ids(r.tickets)
    ensures Departed(q, r, lane) == 0
  {
    CountNone(q.tickets, GoneFrom(Ids(r.tickets), lane));
  }

  /** A front arrival that goes in before a front waiter of the lane is not of that lane. */
  lemma {:induction false} FrontStaysBehindFront(q: Queue, req: Request, at: nat)
    requires Sound(q) && at < |q.tickets| && q.tickets[at].state.Waiting? && q.tickets[at].front
    requires req.front && InsertionPoint(q, req.lane, true) <= at
    ensures q.tickets[at].lane != req.lane
  {
    var to := InsertionPoint(q, req.lane, true);
    assert OrdinaryWaiterOn(req.lane)(q.tickets[to]);
    assert q.tickets[to] in q.tickets && q.tickets[at] in q.tickets;
    if to < at {
      assert GoesFirst(q.senders, q.tickets[to], q.tickets[at]);
    }
  }

  lemma {:induction false} CutGrowsBehind(ts: seq<Ticket>, to: nat, at: nat, t: Ticket, lane: string)
    requires to <= |ts| && at < |ts| && t.state.Waiting?
    requires to <= at ==> t.lane != lane || t.priority.Background?
    ensures Cut(ts[..to] + [t] + ts[to..], if to <= at then at + 1 else at, lane) == Cut(ts, at, lane)
  {
    hide Filter;
    var us := ts[..to] + [t] + ts[to..];
    if to <= at {
      var front := ts[..at];
      assert us[..at + 1] == front[..to] + [t] + front[to..];
      assert us[at + 1..] == ts[at..];
      FilterInsert(front, to, t, RunningOrForegroundOn(lane));
    } else {
      var back := ts[at..];
      assert us[..at] == ts[..at];
      assert us[at..] == back[..to - at] + [t] + back[to - at..];
      FilterInsert(back, to - at, t, RunningOn(lane));
    }
  }

  lemma {:induction false} InsertMovesPosition(ts: seq<Ticket>, to: nat, t: Ticket, r: seq<Ticket>, id: string)
    requires Inserted(ts, to, t, r) && t.id != id
    ensures
      var at := FirstIndex(ts, WithId(id));
      FirstIndex(r, WithId(id)) == if to <= at then at + 1 else at
  {
    var at := FirstIndex(ts, WithId(id));
    var k := if to <= at then at + 1 else at;
    forall j | 0 <= j < k ensures !WithId(id)(r[j]) {
      assert j == to || r[j] == ts[OldIndex(to, j)];
    }
    FirstIndexIs(r, WithId(id), k);
  }

  lemma {:induction false} JoinPosition(q: Queue, req: Request, now: nat, id: string, lane: string, front: bool)
    requires Accepts(q, req) && WaitsOn(q, id, lane, front)
    ensures WaitsOn(Join(q, req, now), id, lane, front)
    ensures Position(Join(q, req, now), id) ==
            if InsertionPoint(q, req.lane, req.front) <= Position(q, id) then Position(q, id) + 1 else Position(q, id)
  {
    hide Filter, FirstIndex, InsertionPoint;
    var j := Join(q, req, now);
    assert q.tickets[Position(q, id)] in q.tickets;
    JoinInserts(q, req, now);
    InsertMovesPosition(q.tickets, InsertionPoint(q, req.lane, req.front), NewTicket(req, now), j.tickets, id);
  }

  lemma {:induction false} JoinLosesNobody(q: Queue, req: Request, now: nat, lane: string)
    ensures Departed(q, Join(q, req, now), lane) == 0
  {
    hide Filter, FirstIndex, Departed;
    var j := Join(q, req, now);
    JoinInserts(q, req, now);
    NobodyDeparts(q, j, lane) by {
      forall i | 0 <= i < |q.tickets| ensures q.tickets[i].id in Ids(j.tickets) {
        assert q.tickets[i] in j.tickets;
      }
    }
  }

  lemma {:induction false} JoinKeepsDistance(q: Queue, e: Event, id: string, lane: string, front: bool)
    requires Sound(q) && e.op.Acquire? && Accepts(q, e.op.req) && WaitsOn(q, id, lane, front)
    requires !Overtakes(e, lane, front)
    ensures WaitsOn(Join(q, e.op.req, e.now), id, lane, front)
    ensures Distance(Join(q, e.op.req, e.now), id, lane) == Distance(q, id, lane)
    ensures Departed(q, Join(q, e.op.req, e.now), lane) == 0
  {
    hide Filter, FirstIndex, Cut, Distance;
    var req, at := e.op.req, Position(q, id);
    var to := InsertionPoint(q, req.lane, req.front);
    JoinPosition(q, req, e.now, id, lane, front);
    JoinLosesNobody(q, req, e.now, lane);
    if to <= at && front {
      FrontStaysBehindFront(q, req, at);
    }
    CutGrowsBehind(q.tickets, to, at, NewTicket(req, e.now), lane);
    DistanceIsCut(q, id, lane);
    DistanceIsCut(Join(q, req, e.now), id, lane);
  }

  lemma {:induction false} RefreshKeepsDistance(q: Queue, other: string, now: nat, id: string, lane: string, front: bool)
    requires WaitsOn(q, id, lane, front)
    ensures WaitsOn(Refresh(q, other, now), id, lane, front)
    ensures Distance(Refresh(q, other, now), id, lane) == Distance(q, id, lane)
    ensures Departed(q, Refresh(q, other, now), lane) == 0
  {
    hide Filter;
    var r, at := Refresh(q, other, now), Position(q, id);
    FirstIndexIs(r.tickets, WithId(id), at);
    CountSame(q.tickets[..at], r.tickets[..at], ForegroundWaiterOn(lane));
    CountSame(q.tickets, r.tickets, RunningOn(lane));
    NobodyDeparts(q, r, lane) by {
      forall i | 0 <= i < |q.tickets| ensures q.tickets[i].id in Ids(r.tickets) {
        assert r.tickets[i] in r.tickets;
      }
    }
  }

  lemma {:induction false} NothingChangesDistance(q: Queue, r: Queue, id: string, lane: string, front: bool)
    requires WaitsOn(q, id, lane, front) && r.tickets == q.tickets
    ensures WaitsOn(r, id, lane, front)
    ensures Distance(r, id, lane) == Distance(q, id, lane)
    ensures Departed(q, r, lane) == 0
  {
    hide Filter;
    NobodyDeparts(q, r, lane);
  }

  // Steps and runs.

  lemma {:induction false} LeaveShortensDistance(q: Queue, other: string, reserve: bool, now: nat, id: string, lane: string, front: bool)
    requires Inv(q) && WaitsOn(q, id, lane, front) && other != id
    ensures WaitsOn(Leave(q, other, reserve, now), id, lane, front)
    ensures Distance(Leave(q, other, reserve, now), id, lane) + Departed(q, Leave(q, other, reserve, now), lane)
            <= Distance(q, id, lane)
  {
    hide Filter, FirstIndex, Distance, Departed;
    var left := Leave(q, other, reserve, now);
    if FirstIndex(q.tickets, WithId(other)) < |q.tickets| {
      var kept := KeepTickets(q, Without(other));
      KeepShortensDistance(q, Without(other), id, lane, front);
      SameTicketsSameDistance(q, kept, left, id, lane, front);
    } else {
      NothingChangesDistance(q, left, id, lane, front);
    }
  }

  lemma {:induction false} SameTicketsSameDistance(q: Queue, r: Queue, s: Queue, id: string, lane: string, front: bool)
    requires r.tickets == s.tickets
    ensures WaitsOn(r, id, lane, front) == WaitsOn(s, id, lane, front)
    ensures Distance(r, id, lane) == Distance(s, id, lane) && Departed(q, r, lane) == Departed(q, s, lane)
  {
    hide Filter, FirstIndex;
  }

  lemma {:induction false} EvictShortensDistance(q: Queue, claim: Claim, id: string, lane: string, front: bool)
    requires Inv(q) && WaitsOn(q, id, lane, front) && HasTicket(Evict(q, claim), id)
    ensures WaitsOn(Evict(q, claim), id, lane, front)
    ensures Distance(Evict(q, claim), id, lane) + Departed(q, Evict(q, claim), lane) <= Distance(q, id, lane)
  {
    hide Filter, FirstIndex, Distance, Departed;
    var t :| t in Evict(q, claim).tickets && t.id == id;
    SameTicket(q.tickets, t, q.tickets[Position(q, id)]);
    KeepShortensDistance(q, Unclaimed(claim), id, lane, front);
    SameTicketsSameDistance(q, KeepTickets(q, Unclaimed(claim)), Evict(q, claim), id, lane, front);
  }

  lemma {:induction false} CancelShortensDistance(q: Queue, other: string, id: string, lane: string, front: bool)
    requires Inv(q) && WaitsOn(q, id, lane, front) && HasTicket(KeepTickets(q, Without(other)), id)
    ensures WaitsOn(KeepTickets(q, Without(other)), id, lane, front)
    ensures Distance(KeepTickets(q, Without(other)), id, lane) + Departed(q, KeepTickets(q, Without(other)), lane)
            <= Distance(q, id, lane)
  {
    hide Filter, FirstIndex, Distance, Departed;
    KeepShortensDistance(q, Without(other), id, lane, front);
  }

  lemma {:induction false} PrepareShortensDistance(q: Queue, e: Event, id: string, lane: string, front: bool)
    requires Inv(q) && WaitsOn(q, id, lane, front) && !Overtakes(e, lane, front)
    requires HasTicket(Prepare(q, e), id)
    ensures WaitsOn(Prepare(q, e), id, lane, front)
    ensures Distance(Prepare(q, e), id, lane) + Departed(q, Prepare(q, e), lane) <= Distance(q, id, lane)
  {
    hide Filter, FirstIndex, Distance, Departed;
    if e.op.Acquire? && Accepts(q, e.op.req) {
      JoinKeepsDistance(q, e, id, lane, front);
    } else if e.op.CancelWaiting? && HasWaiter(q, e.op.id) {
      CancelShortensDistance(q, e.op.id, id, lane, front);
    } else if e.op.Release? {
      LeaveShortensDistance(q, e.op.id, e.op.reserve, e.now, id, lane, front);
    } else if e.op.Heartbeat? {
      RefreshKeepsDistance(q, e.op.id, e.now, id, lane, front);
    } else if e.op.Reclaim? {
      EvictShortensDistance(q, e.op.claim, id, lane, front);
    } else {
      NothingChangesDistance(q, Prepare(q, e), id, lane, front);
    }
  }

  lemma {:induction false} PumpKeepsIds(q: Queue)
    ensures Ids(Pump(q).tickets) == Ids(q.tickets)
  {
    var p := Pump(q);
    forall t | t in q.tickets ensures t.id in Ids(p.tickets) {
      var i :| 0 <= i < |q.tickets| && q.tickets[i] == t;
      assert p.tickets[i] in p.tickets;
    }
    forall t | t in p.tickets ensures t.id in Ids(q.tickets) {
      var i :| 0 <= i < |p.tickets| && p.tickets[i] == t;
      assert q.tickets[i] in q.tickets;
    }
  }

  lemma {:induction false} WaiterIsNotAdmitted(q: Queue, id: string, lane: string, front: bool)
    requires Sound(q) && WaitsOn(q, id, lane, front) && HasWaiter(Pump(q), id)
    ensures !AdmittedAt(q, Position(q, id))
  {
    hide Filter, FirstIndex, AdmittedAt;
    var p, at := Pump(q), Position(q, id);
    PumpRestoresInv(q);
    var t :| t in p.tickets && t.id == id && t.state.Waiting?;
    SameTicket(p.tickets, t, p.tickets[at]);
  }

  /** While a foreground ticket keeps waiting, each running ticket that leaves its lane brings it one closer. */
  lemma {:induction false} StepShortensDistance(q: Queue, e: Event, id: string, lane: string, front: bool)
    requires Inv(q) && WaitsOn(q, id, lane, front) && !Overtakes(e, lane, front)
    requires HasWaiter(Step(q, e).0, id)
    ensures WaitsOn(Step(q, e).0, id, lane, front)
    ensures Distance(Step(q, e).0, id, lane) + Departed(q, Step(q, e).0, lane) <= Distance(q, id, lane)
  {
    hide Filter, FirstIndex, Distance, Prepare, Step;
    var p := Prepare(q, e);
    StepIsPump(q, e);
    PumpKeepsIds(p);
    assert HasTicket(p, id) by {
      var t :| t in Pump(p).tickets && t.id == id;
      assert id in Ids(Pump(p).tickets);
    }
    PrepareShortensDistance(q, e, id, lane, front);
    WaiterIsNotAdmitted(p, id, lane, front);
    PumpKeepsDistance(p, id, lane, front);
  }

  lemma {:induction false} PreparedWaiterWaited(q: Queue, e: Event, id: string)
    requires HasTicket(q, id) && HasWaiter(Prepare(q, e), id)
    ensures HasWaiter(q, id)
  {
    hide Filter, FirstIndex;
    var u :| u in Prepare(q, e).tickets && u.id == id && u.state.Waiting?;
    if e.op.Acquire? {
      if Accepts(q, e.op.req) {
        JoinInserts(q, e.op.req, e.now);
      }
      assert u in q.tickets;
    } else if e.op.Heartbeat? {
      var i :| 0 <= i < |q.tickets| && u == RefreshedTicket(q.tickets[i], e.op.id, e.now);
      assert q.tickets[i] in q.tickets;
    } else {
      assert u in q.tickets;
    }
  }

  lemma {:induction false} WaiterWaitedBefore(q: Queue, e: Event, id: string)
    requires Inv(q) && HasTicket(q, id) && HasWaiter(Step(q, e).0, id)
    ensures HasWaiter(q, id)
  {
    hide Filter, FirstIndex, Prepare, Step;
    StepIsPump(q, e);
    var p := Prepare(q, e);
    var t :| t in Pump(p).tickets && t.id == id && t.state.Waiting?;
    var i :| 0 <= i < |p.tickets| && Pump(p).tickets[i] == t;
    assert p.tickets[i] in p.tickets;
    PreparedWaiterWaited(q, e, id);
  }

  /** How many running tickets of `lane` leave over a run. */
  function Departures(q: Queue, events: seq<Event>, lane: string): nat {
    if events == [] then 0 else
    var before := events[..|events| - 1];
    Departures(q, before, lane) + Departed(Run(q, before), Run(q, events), lane)
  }

  /** The ticket is never removed, and no foreground ticket is put in front of it. */
  ghost predicate Undisturbed(q: Queue, events: seq<Event>, id: string, lane: string, front: bool) {
    && (forall i :: 0 <= i < |events| ==> !Overtakes(events[i], lane, front))
    && (forall i :: 0 <= i <= |events| ==> HasTicket(Run(q, events[..i]), id))
  }

  lemma {:induction false} RunFromKeepsInv(q: Queue, events: seq<Event>)
    requires Inv(q)
    ensures Inv(Run(q, events))
  {
    hide Inv, Step;
    if events != [] {
      RunFromKeepsInv(q, events[..|events| - 1]);
      StepKeepsInv(Run(q, events[..|events| - 1]), events[|events| - 1]);
    }
  }

  lemma {:induction false} StillWaiting(q: Queue, events: seq<Event>, id: string, lane: string, front: bool)
    requires Inv(q) && WaitsOn(q, id, lane, front) && Undisturbed(q, events, id, lane, front)
    requires HasWaiter(Run(q, events), id)
    ensures WaitsOn(Run(q, events), id, lane, front)
    ensures Distance(Run(q, events), id, lane) + Departures(q, events, lane) <= Distance(q, id, lane)
  {
    hide Step, Inv, WaitsOn, HasWaiter, HasTicket, Distance, Departed;
    if events != [] {
      var before, e := events[..|events| - 1], events[|events| - 1];
      assert forall i :: 0 <= i <= |before| ==> before[..i] == events[..i];
      assert events[..|before|] == before;
      RunFromKeepsInv(q, before);
      WaiterWaitedBefore(Run(q, before), e, id);
      StillWaiting(q, before, id, lane, front);
      StepShortensDistance(Run(q, before), e, id, lane, front);
    }
  }

  /**
   Bounded waiting. A foreground ticket with `a` foreground waiters before it in
   its lane and `r` tickets running there runs once `a + 1 + r - n` running
   tickets have left the lane, however the operations interleave, where `n` is a
   capacity the lane still has in the end; unless it is removed or overtaken.
   */
  lemma {:induction false} BoundedWaiting(q: Queue, events: seq<Event>, id: string, lane: string, front: bool, n: nat)
    requires Inv(q) && WaitsOn(q, id, lane, front) && Undisturbed(q, events, id, lane, front)
    requires Slots(n).AtMost(CapacityOf(Run(q, events).capacity, lane))
    requires Departures(q, events, lane) >= AheadOf(q, id, lane) + 1 + Used(q, lane) - n
    ensures HasTicket(Run(q, events), id) && !HasWaiter(Run(q, events), id)
  {
    hide Step, Filter;
    var r := Run(q, events);
    assert events[..|events|] == events;
    if HasWaiter(r, id) {
      StillWaiting(q, events, id, lane, front);
      RunFromKeepsInv(q, events);
      WaiterMeansFull(r, id, lane, front);
      assert false;
    }
  }

  lemma {:induction false} WaiterMeansFull(q: Queue, id: string, lane: string, front: bool)
    requires Inv(q) && WaitsOn(q, id, lane, front)
    ensures !CapacityOf(q.capacity, lane).Admits(Used(q, lane))
  {
    hide Filter;
    assert q.tickets[Position(q, id)] in q.tickets;
  }

  /** A lane without a bound keeps no foreground ticket waiting. */
  lemma {:induction false} UnboundedLanesDoNotWait(q: Queue, id: string, lane: string, front: bool)
    requires Inv(q) && CapacityOf(q.capacity, lane).Unbounded?
    ensures !WaitsOn(q, id, lane, front)
  {
    if WaitsOn(q, id, lane, front) {
      WaiterMeansFull(q, id, lane, front);
      assert false;
    }
  }
}
