/** Cancels that overtake their acquire. */
module QueueEarlyCancels {
  import opened Sequences
  import opened QueueState
  import opened QueueInvariant
  import opened QueueSteps

  /** `id` is among the last `n` remembered cancels. */
  ghost predicate AmongLast(ids: seq<string>, id: string, n: nat) {
    exists i :: 0 <= i < |ids| && ids[i] == id && |ids| - i <= n
  }

  lemma {:induction false} RememberAppends(ids: seq<string>, id: string)
    requires |ids| <= EARLY_CANCEL_CAP
    ensures
      var r := Remember(ids, id);
      var dropped := if |ids| == EARLY_CANCEL_CAP then 1 else 0;
      && |r| == |ids| + 1 - dropped
      && r[|r| - 1] == id
      && (forall i :: 0 <= i < |r| - 1 ==> r[i] == ids[i + dropped])
  {
  }

  lemma {:induction false} RememberAges(ids: seq<string>, x: string, id: string, n: nat)
    requires |ids| <= EARLY_CANCEL_CAP && AmongLast(ids, id, n) && n < EARLY_CANCEL_CAP
    ensures AmongLast(Remember(ids, x), id, n + 1)
  {
    var i :| 0 <= i < |ids| && ids[i] == id && |ids| - i <= n;
    var dropped := if |ids| == EARLY_CANCEL_CAP then 1 else 0;
    RememberAppends(ids, x);
    assert Remember(ids, x)[i - dropped] == id;
  }

  lemma {:induction false} RemoveFirstKeeps(ids: seq<string>, x: string, id: string, n: nat)
    requires x in ids && x != id && AmongLast(ids, id, n)
    ensures AmongLast(RemoveFirst(ids, x), id, n)
  {
    var i :| 0 <= i < |ids| && ids[i] == id && |ids| - i <= n;
    if ids[0] == x {
      assert ids[1..][i - 1] == id;
    } else {
      RemoveFirstShortens(ids[1..], x);
      if i == 0 {
        assert RemoveFirst(ids, x)[0] == id;
      } else {
        assert ids[1..][i - 1] == id;
        RemoveFirstKeeps(ids[1..], x, id, n);
        var k :| 0 <= k < |RemoveFirst(ids[1..], x)| && RemoveFirst(ids[1..], x)[k] == id
                 && |RemoveFirst(ids[1..], x)| - k <= n;
        assert RemoveFirst(ids, x)[k + 1] == id;
      }
    }
  }

  /** A cancel of an id the queue does not hold. */
  ghost predicate CancelsUnknown(q: Queue, e: Event) {
    e.op.CancelProbe? && !HasTicket(q, e.op.id)
  }

  lemma {:induction false} StepAges(q: Queue, e: Event, id: string, n: nat)
    requires Inv(q) && AmongLast(q.cancelledEarly, id, n) && n < EARLY_CANCEL_CAP
    requires !(e.op.Acquire? && e.op.req.id == id)
    ensures AmongLast(Step(q, e).0.cancelledEarly, id, if CancelsUnknown(q, e) then n + 1 else n)
  {
    hide Filter, FirstIndex, Inv;
    assert |q.cancelledEarly| <= EARLY_CANCEL_CAP by { KnowsTheCap(q); }
    if CancelsUnknown(q, e) {
      RememberAges(q.cancelledEarly, e.op.id, id, n);
    } else if e.op.Acquire? && !HasTicket(q, e.op.req.id) && e.op.req.id in q.cancelledEarly {
      RemoveFirstKeeps(q.cancelledEarly, e.op.req.id, id, n);
    }
  }

  /** Only a cancel of an unknown id and the refusal it leads to change what is remembered. */
  lemma {:induction false} OthersRememberNothing(q: Queue, e: Event)
    requires !(e.op.CancelProbe? && forall t :: t in q.tickets ==> t.id != e.op.id)
    requires !(e.op.Acquire? && e.op.req.id in q.cancelledEarly && forall t :: t in q.tickets ==> t.id != e.op.req.id)
    ensures Step(q, e).0.cancelledEarly == q.cancelledEarly
  {
    hide Filter, FirstIndex;
  }

  lemma {:induction false} KnowsTheCap(q: Queue)
    requires Inv(q)
    ensures |q.cancelledEarly| <= EARLY_CANCEL_CAP
  {
  }

  /** How many cancels of a run name an id the queue does not hold. */
  ghost function UnknownCancels(q: Queue, events: seq<Event>): nat {
    if events == [] then 0 else
    var before := events[..|events| - 1];
    UnknownCancels(q, before) + if CancelsUnknown(Run(q, before), events[|events| - 1]) then 1 else 0
  }

  ghost predicate NeverArrives(events: seq<Event>, id: string) {
    forall i :: 0 <= i < |events| ==> !(events[i].op.Acquire? && events[i].op.req.id == id)
  }

  lemma {:induction false} StaysUnknown(q: Queue, e: Event, id: string)
    requires Inv(q) && !HasTicket(q, id) && !(e.op.Acquire? && e.op.req.id == id)
    ensures !HasTicket(Step(q, e).0, id)
  {
    hide Filter, FirstIndex, Step, Prepare;
    var p := Prepare(q, e);
    StepIsPump(q, e);
    forall t | t in Pump(p).tickets ensures t.id != id {
      var i :| 0 <= i < |p.tickets| && Pump(p).tickets[i] == t;
      assert p.tickets[i] in p.tickets;
      PreparedTicketsAreKnown(q, e, p.tickets[i]);
    }
  }

  lemma {:induction false} PreparedTicketsAreKnown(q: Queue, e: Event, t: Ticket)
    requires t in Prepare(q, e).tickets
    ensures HasTicket(q, t.id) || (e.op.Acquire? && e.op.req.id == t.id)
  {
    hide Filter, FirstIndex;
    if e.op.Acquire? {
      if Accepts(q, e.op.req) {
        JoinInserts(q, e.op.req, e.now);
      }
    } else if e.op.Heartbeat? {
      var i :| 0 <= i < |q.tickets| && t == RefreshedTicket(q.tickets[i], e.op.id, e.now);
      assert q.tickets[i] in q.tickets;
    }
  }

  lemma {:induction false} RunAges(q: Queue, events: seq<Event>, id: string, n: nat)
    requires Inv(q) && !HasTicket(q, id) && AmongLast(q.cancelledEarly, id, n)
    requires NeverArrives(events, id) && n + UnknownCancels(q, events) <= EARLY_CANCEL_CAP
    ensures Inv(Run(q, events)) && !HasTicket(Run(q, events), id)
    ensures AmongLast(Run(q, events).cancelledEarly, id, n + UnknownCancels(q, events))
  {
    hide Step, Inv, HasTicket, AmongLast;
    if events != [] {
      var before, e := events[..|events| - 1], events[|events| - 1];
      RunAges(q, before, id, n);
      StepKeepsInv(Run(q, before), e);
      StaysUnknown(Run(q, before), e, id);
      if n + UnknownCancels(q, before) < EARLY_CANCEL_CAP {
        StepAges(Run(q, before), e, id, n + UnknownCancels(q, before));
      } else {
        OldestStays(Run(q, before), e, id);
      }
    }
  }

  lemma {:induction false} OldestStays(q: Queue, e: Event, id: string)
    requires Inv(q) && AmongLast(q.cancelledEarly, id, EARLY_CANCEL_CAP)
    requires !(e.op.Acquire? && e.op.req.id == id) && !CancelsUnknown(q, e)
    ensures AmongLast(Step(q, e).0.cancelledEarly, id, EARLY_CANCEL_CAP)
  {
    hide Filter, FirstIndex, Inv;
    if e.op.Acquire? && !HasTicket(q, e.op.req.id) && e.op.req.id in q.cancelledEarly {
      RemoveFirstKeeps(q.cancelledEarly, e.op.req.id, id, EARLY_CANCEL_CAP);
    }
  }

  lemma {:induction false} ProbeRemembers(q: Queue, probe: Event, id: string)
    requires Inv(q) && probe.op == CancelProbe(id) && !HasTicket(q, id)
    ensures Inv(Step(q, probe).0)
    ensures Step(q, probe).0.tickets == q.tickets
    ensures AmongLast(Step(q, probe).0.cancelledEarly, id, 1)
  {
    hide Filter, FirstIndex, Inv;
    KnowsTheCap(q);
    StepKeepsInv(q, probe);
    RememberAppends(q.cancelledEarly, id);
    var ids := Step(q, probe).0.cancelledEarly;
    assert ids[|ids| - 1] == id;
  }

  /**
   A cancel that overtakes its acquire makes that acquire fail and change
   nothing but the memory of the cancel, as long as fewer than
   `EARLY_CANCEL_CAP` further unknown ids are cancelled in between.
   */
  lemma {:induction false} EarlyCancelRefuses(q: Queue, probe: Event, events: seq<Event>, acquire: Event)
    requires Inv(q) && acquire.op.Acquire? && probe.op == CancelProbe(acquire.op.req.id)
    requires !HasTicket(q, acquire.op.req.id) && NeverArrives(events, acquire.op.req.id)
    requires UnknownCancels(Step(q, probe).0, events) < 64
    ensures
      var before := Run(Step(q, probe).0, events);
      var (after, reply) := Step(before, acquire);
      && reply == Refused
      && after == before.(cancelledEarly := after.cancelledEarly)
      && |after.cancelledEarly| == |before.cancelledEarly| - 1
  {
    hide Filter, FirstIndex, Inv, Step, HasTicket, AmongLast;
    var id := acquire.op.req.id;
    var first := Step(q, probe).0;
    ProbeRemembers(q, probe, id);
    SameTicketsSameIds(q, first, id);
    RunAges(first, events, id, 1);
    RememberedIsRefused(Run(first, events), acquire, 1 + UnknownCancels(first, events));
  }

  lemma {:induction false} SameTicketsSameIds(q: Queue, r: Queue, id: string)
    requires r.tickets == q.tickets
    ensures HasTicket(r, id) == HasTicket(q, id)
  {
  }

  /** A remembered cancel refuses its acquire, which forgets it and changes nothing else. */
  lemma {:induction false} RememberedIsRefused(q: Queue, acquire: Event, n: nat)
    requires acquire.op.Acquire? && !HasTicket(q, acquire.op.req.id)
    requires AmongLast(q.cancelledEarly, acquire.op.req.id, n)
    ensures
      var (after, reply) := Step(q, acquire);
      && reply == Refused
      && after == q.(cancelledEarly := after.cancelledEarly)
      && |after.cancelledEarly| == |q.cancelledEarly| - 1
  {
    RemoveFirstShortens(q.cancelledEarly, acquire.op.req.id);
  }

  /** A run of cancels of unknown ids other than `id`. */
  ghost predicate OnlyOtherCancels(q: Queue, events: seq<Event>, id: string) {
    forall i :: 0 <= i < |events| ==>
      events[i].op.CancelProbe? && events[i].op.id != id && !HasTicket(q, events[i].op.id)
  }

  lemma {:induction false} OthersPushOut(q: Queue, events: seq<Event>, id: string)
    requires Inv(q) && OnlyOtherCancels(q, events, id)
    ensures Run(q, events).tickets == q.tickets
    ensures |Run(q, events).cancelledEarly| <= EARLY_CANCEL_CAP
    ensures
      var ids := Run(q, events).cancelledEarly;
      forall i :: 0 <= i < |ids| && ids[i] == id ==> |ids| - i > |events|
  {
    if events != [] {
      var before := events[..|events| - 1];
      OthersPushOut(q, before, id);
      RememberAppends(Run(q, before).cancelledEarly, events[|events| - 1].op.id);
    }
  }

  lemma {:induction false} EveryCancelIsUnknown(q: Queue, events: seq<Event>, id: string)
    requires Inv(q) && OnlyOtherCancels(q, events, id)
    ensures UnknownCancels(q, events) == |events|
  {
    if events != [] {
      EveryCancelIsUnknown(q, events[..|events| - 1], id);
      OthersPushOut(q, events[..|events| - 1], id);
    }
  }

  /** The bound is tight: `EARLY_CANCEL_CAP` cancels of other unknown ids make the queue forget one, and one fewer does not. */
  lemma {:induction false} EarlyCancelBoundIsTight(q: Queue, probe: Event, events: seq<Event>, id: string)
    requires Inv(q) && probe.op == CancelProbe(id) && !HasTicket(q, id)
    requires OnlyOtherCancels(q, events, id)
    ensures id in Run(Step(q, probe).0, events).cancelledEarly <==> |events| < 64
  {
    hide Filter, FirstIndex, Inv, Step;
    var first := Step(q, probe).0;
    ProbeRemembers(q, probe, id);
    assert OnlyOtherCancels(first, events, id);
    OthersPushOut(first, events, id);
    if |events| < EARLY_CANCEL_CAP {
      EveryCancelIsUnknown(first, events, id);
      RunAges(first, events, id, 1);
    }
  }
}
