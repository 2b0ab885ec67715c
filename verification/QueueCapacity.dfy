/** How many tickets a lane runs, in the numbers its acquires asked for. */
module QueueCapacity {
  import opened Sequences
  import opened QueueState
  import opened QueueInvariant
  import opened QueueSteps
  import opened QueueHolders

  /**
   An accepted acquire sets how many its lane may run: as many as it asks for,
   one when it asks for none, and any number when it names no bound.
   */
  lemma {:induction false} AcquireSetsCapacity(q: Queue, req: Request, now: nat, running: nat)
    requires !HasTicket(q, req.id) && req.id !in q.cancelledEarly
    ensures
      var capacity := Step(q, Event(Acquire(req), now)).0.capacity;
      CapacityOf(capacity, req.lane).Admits(running) <==>
        match req.maxParallel
        case None => true
        case Some(n) => running < n || (n == 0 && running == 0)
  {
    StepCapacity(q, Event(Acquire(req), now), req.lane);
  }

  /** What the last accepted acquire of a run on `lane` asked for. */
  ghost function LastAsked(events: seq<Event>, lane: string): Option<Option<nat>> {
    if events == [] then None else
    var before, e := events[..|events| - 1], events[|events| - 1];
    if && e.op.Acquire? && e.op.req.lane == lane
       && !HasTicket(Run(EMPTY, before), e.op.req.id) && e.op.req.id !in Run(EMPTY, before).cancelledEarly
    then Some(e.op.req.maxParallel) else LastAsked(before, lane)
  }

  /** The capacity in force is the one asked for last; a lane nobody asked for runs one. */
  lemma {:induction false} CapacityIsLastAsked(events: seq<Event>, lane: string, running: nat)
    ensures CapacityOf(Run(EMPTY, events).capacity, lane).Admits(running) <==>
            match LastAsked(events, lane)
            case None => running == 0
            case Some(None) => true
            case Some(Some(n)) => running < n || (n == 0 && running == 0)
  {
    hide Step;
    if events != [] {
      var before, e := events[..|events| - 1], events[|events| - 1];
      CapacityIsLastAsked(before, lane, running);
      StepCapacity(Run(EMPTY, before), e, lane);
      if e.op.Acquire? && Accepts(Run(EMPTY, before), e.op.req) && e.op.req.lane == lane {
        AcquireSetsCapacity(Run(EMPTY, before), e.op.req, e.now, running);
      }
    }
  }

  lemma {:induction false} AskedForStays(events: seq<Event>, i: nat, t: Ticket)
    requires i < |events| && AskedFor(Run(EMPTY, events[..i]), events[i], t)
    ensures LastAsked(events, t.lane).Some?
  {
    var before := events[..|events| - 1];
    if i < |before| {
      assert before[..i] == events[..i];
      AskedForStays(before, i, t);
    }
  }

  /**
   In every reachable state a ticket waits only on a lane with a bound, for as
   many to run there as were asked for last; or it is in the background, and a
   foreground ticket or a reservation is on its lane.
   */
  lemma {:induction false} WaitsOnlyWhenFull(events: seq<Event>, t: Ticket)
    requires t in Run(EMPTY, events).tickets && t.state.Waiting?
    ensures
      var q := Run(EMPTY, events);
      || (&& LastAsked(events, t.lane).Some? && LastAsked(events, t.lane).value.Some?
          && Used(q, t.lane) >= 1 && Used(q, t.lane) >= LastAsked(events, t.lane).value.value)
      || (&& t.priority.Background?
          && (|| (exists u :: u in q.tickets && u.lane == t.lane && u.priority.Foreground?)
              || (exists r :: r in q.reservations && r.lane == t.lane)))
  {
    hide Run, Filter;
    var q := Run(EMPTY, events);
    RunKeepsInv(events);
    TicketsComeFromAcquires(events, t);
    var i :| 0 <= i < |events| && AskedFor(Run(EMPTY, events[..i]), events[i], t);
    AskedForStays(events, i, t);
    CapacityIsLastAsked(events, t.lane, Used(q, t.lane));
  }

  /** Every acquire of the run on `lane` asks for `n` at once, and for a foreground ticket. */
  ghost predicate AlwaysAsks(events: seq<Event>, lane: string, n: Option<nat>) {
    forall i :: 0 <= i < |events| && events[i].op.Acquire? && events[i].op.req.lane == lane ==>
      events[i].op.req.maxParallel == n && events[i].op.req.priority.Foreground?
  }

  lemma {:induction false} LastAskedIsAlways(events: seq<Event>, lane: string, n: Option<nat>)
    requires AlwaysAsks(events, lane, n)
    ensures LastAsked(events, lane) == None || LastAsked(events, lane) == Some(n)
  {
    if events != [] {
      LastAskedIsAlways(events[..|events| - 1], lane, n);
    }
  }

  /** How many tickets a lane holds, waiting or running. */
  function Held(q: Queue, lane: string): nat {
    Count(q.tickets, OnLane(lane))
  }

  lemma {:induction false} RunningAreHeld(q: Queue, lane: string)
    ensures Used(q, lane) <= Held(q, lane)
    ensures Used(q, lane) < Held(q, lane) ==> exists t :: t in q.tickets && t.lane == lane && t.state.Waiting?
  {
    CountPointwise(q.tickets, q.tickets, RunningOn(lane), OnLane(lane));
    if forall t :: t in q.tickets && t.lane == lane ==> t.state.Running? {
      CountAgrees(q.tickets, RunningOn(lane), OnLane(lane));
    }
  }

  lemma {:induction false} CountAgrees(ts: seq<Ticket>, p: Ticket -> bool, q: Ticket -> bool)
    requires forall t :: t in ts ==> p(t) == q(t)
    ensures Count(ts, p) == Count(ts, q)
  {
    forall i | 0 <= i < |ts| ensures p(ts[i]) == q(ts[i]) {
      assert ts[i] in ts;
    }
    CountPointwise(ts, ts, p, q);
    CountPointwise(ts, ts, q, p);
  }

  /**
   A lane whose acquires all ask for `n` runs exactly as many of its tickets as
   it holds, up to `n`; up to one for an `n` of zero, and all without a bound.
   */
  lemma {:induction false} LaneRunsAsManyAsAsked(events: seq<Event>, lane: string, n: Option<nat>)
    requires AlwaysAsks(events, lane, n)
    ensures
      var q := Run(EMPTY, events);
      Used(q, lane) ==
        match n
        case None => Held(q, lane)
        case Some(k) =>
          var most := if k == 0 then 1 else k;
          if Held(q, lane) < most then Held(q, lane) else most
  {
    hide Run, Filter, Used, Held;
    var q := Run(EMPTY, events);
    RunningAreHeld(q, lane);
    if n.Some? {
      RunRespectsCapacity(events, lane, Slots(if n.value == 0 then 1 else n.value));
    }
    LastAskedIsAlways(events, lane, n);
    if Used(q, lane) < Held(q, lane) {
      var t :| t in q.tickets && t.lane == lane && t.state.Waiting?;
      TicketsComeFromAcquires(events, t);
      WaitsOnlyWhenFull(events, t);
    }
  }
}
