/**
 The state of the inference admission queue and what each operation does to it,
 as functions on values. `InferenceQueue` implements these step by step; the
 other Queue modules prove what they promise.
 */
module QueueState {
  import opened Sequences

  const LEASE_TTL_MS: nat := 5 * 60 * 1000
  const EARLY_CANCEL_CAP: nat := 64

  datatype TicketState = Waiting | Running

  datatype Priority = Foreground | Background

  /** A lane's capacity. The largest machine word, which means "not modelled", is `Unbounded`. */
  datatype Capacity = Slots(n: nat) | Unbounded
  {
    /** Whether a lane that runs `running` tickets may admit one more. */
    predicate Admits(running: nat) {
      Unbounded? || running < n
    }

    predicate AtMost(other: Capacity) {
      other.Unbounded? || (Slots? && n <= other.n)
    }
  }

  /** What the receiving end of a wake-up channel has seen: nothing yet, the wake-up, or the sender's end. */
  datatype Signal = Open | Sent | Closed

  datatype Ticket = Ticket(
    id: string, lane: string, state: TicketState, front: bool,
    priority: Priority, owner: string, lease: nat)

  datatype Reservation = Reservation(id: string, lane: string, owner: string, lease: nat)

  /**
   `channels` holds one entry per accepted acquire, in arrival order, so an
   index into it is at once the receiver an acquire returns and its arrival number.
   `senders` maps a request id to the channel that wakes it.
   */
  datatype Queue = Queue(
    tickets: seq<Ticket>, senders: map<string, nat>, capacity: map<string, Capacity>,
    cancelledEarly: seq<string>, reservations: seq<Reservation>, channels: seq<Signal>)

  const EMPTY := Queue([], map[], map[], [], [], [])

  // Ticket and reservation predicates.

  function OnLane(lane: string): Ticket -> bool {
    (t: Ticket) => t.lane == lane
  }

  function RunningOn(lane: string): Ticket -> bool {
    (t: Ticket) => t.lane == lane && t.state.Running?
  }

  /** Waiters that may run once there is room, on a lane that is or is not busy for background tickets. */
  function EligibleOn(lane: string, busy: bool): Ticket -> bool {
    (t: Ticket) => t.lane == lane && t.state.Waiting? && (t.priority.Foreground? || !busy)
  }

  function OrdinaryWaiterOn(lane: string): Ticket -> bool {
    (t: Ticket) => t.lane == lane && t.state.Waiting? && !t.front
  }

  function WithId(id: string): Ticket -> bool {
    (t: Ticket) => t.id == id
  }

  function ReservedOn(lane: string): Reservation -> bool {
    (r: Reservation) => r.lane == lane
  }

  // Lane capacity and load.

  function CapacityOf(capacity: map<string, Capacity>, lane: string): Capacity {
    if lane in capacity then capacity[lane] else Slots(1)
  }

  /** How many tickets run on `lane`. */
  function Used(q: Queue, lane: string): nat {
    Count(q.tickets, RunningOn(lane))
  }

  predicate BusyForBackground(q: Queue, lane: string) {
    || (exists t :: t in q.tickets && t.lane == lane && t.priority.Foreground?)
    || (exists r :: r in q.reservations && r.lane == lane)
  }

  // Admission.

  /**
   Whether the waiter at `i` gets a slot of its lane: it is eligible, and the
   running tickets together with the eligible waiters before it leave room.
   */
  predicate Admitted(ts: seq<Ticket>, cap: Capacity, busy: bool, i: nat)
    requires i < |ts|
  {
    var lane := ts[i].lane;
    && EligibleOn(lane, busy)(ts[i])
    && cap.Admits(Count(ts, RunningOn(lane)) + Count(ts[..i], EligibleOn(lane, busy)))
  }

  predicate AdmittedAt(q: Queue, i: nat)
    requires i < |q.tickets|
  {
    var lane := q.tickets[i].lane;
    Admitted(q.tickets, CapacityOf(q.capacity, lane), BusyForBackground(q, lane), i)
  }

  function PumpedAt(q: Queue, i: nat): Ticket
    requires i < |q.tickets|
  {
    if AdmittedAt(q, i) then q.tickets[i].(state := Running) else q.tickets[i]
  }

  /** The ids admitted among the first `n` tickets. */
  function AdmittedIds(q: Queue, n: nat): set<string>
    requires n <= |q.tickets|
  {
    set i | 0 <= i < n && AdmittedAt(q, i) :: q.tickets[i].id
  }

  function ChannelsOf(senders: map<string, nat>, ids: set<string>): set<nat> {
    set id | id in ids && id in senders :: senders[id]
  }

  function Settle(channels: seq<Signal>, ks: set<nat>, signal: Signal): (r: seq<Signal>)
    ensures |r| == |channels|
  {
    seq(|channels|, k requires 0 <= k < |channels| => if k in ks then signal else channels[k])
  }

  /** Every lane's waiters admitted as far as its capacity goes, each woken through its sender. */
  function Pump(q: Queue): Queue {
    var ids := AdmittedIds(q, |q.tickets|);
    q.(tickets := seq(|q.tickets|, i requires 0 <= i < |q.tickets| => PumpedAt(q, i)),
       senders := q.senders - ids,
       channels := Settle(q.channels, ChannelsOf(q.senders, ids), Sent))
  }

  // Operations.

  /** Which holders a reclaim drops: those of a window, or those whose lease ran out before a time. */
  datatype Claim = OwnedBy(window: string) | LeaseBefore(now: nat)
  {
    predicate Covers(owner: string, lease: nat) {
      match this
      case OwnedBy(window) => owner == window
      case LeaseBefore(now) => lease < now
    }
  }

  /** An acquire as it arrives; `maxParallel` of `None` asks for no bound. */
  datatype Request = Request(
    id: string, lane: string, maxParallel: Option<nat>, window: string,
    front: bool, priority: Priority, replacing: Option<string>)

  /**
   One atomic step under the queue's lock. A cancel takes the lock twice: once
   to remember an id it does not know, once to drop a waiter.
   */
  datatype Op =
    | Acquire(req: Request)
    | CancelProbe(id: string)
    | CancelWaiting(id: string)
    | Release(id: string, reserve: bool)
    | Heartbeat(id: string)
    | Reclaim(claim: Claim)

  datatype Event = Event(op: Op, now: nat)

  datatype Reply =
    | Accepted(receiver: nat)
    | Duplicate
    | Refused
    | Changed(changed: bool)

  predicate HasTicket(q: Queue, id: string) {
    exists t :: t in q.tickets && t.id == id
  }

  predicate HasReservation(q: Queue, id: string) {
    exists r :: r in q.reservations && r.id == id
  }

  predicate HasWaiter(q: Queue, id: string) {
    exists t :: t in q.tickets && t.id == id && t.state.Waiting?
  }

  function RequestedCapacity(maxParallel: Option<nat>): Capacity {
    match maxParallel
    case None => Unbounded
    case Some(n) => Slots(if n == 0 then 1 else n)
  }

  function Without(id: string): Ticket -> bool {
    (t: Ticket) => t.id != id
  }

  function ReservationWithout(id: string): Reservation -> bool {
    (r: Reservation) => r.id != id
  }

  function Unclaimed(claim: Claim): Ticket -> bool {
    (t: Ticket) => !claim.Covers(t.owner, t.lease)
  }

  function ReservationUnclaimed(claim: Claim): Reservation -> bool {
    (r: Reservation) => !claim.Covers(r.owner, r.lease)
  }

  function DropReservation(reservations: seq<Reservation>, id: string): seq<Reservation> {
    Filter(reservations, ReservationWithout(id))
  }

  /** Drop the tickets that do not satisfy `keep`, and their senders with them. */
  function KeepTickets(q: Queue, keep: Ticket -> bool): Queue {
    var gone := set t | t in q.tickets && !keep(t) :: t.id;
    q.(tickets := Filter(q.tickets, keep),
       senders := q.senders - gone,
       channels := Settle(q.channels, ChannelsOf(q.senders, gone), Closed))
  }

  /** Where a new ticket goes: a `front` one before its lane's first ordinary waiter, any other at the end. */
  function InsertionPoint(q: Queue, lane: string, front: bool): (at: nat)
    ensures at <= |q.tickets|
  {
    if front then FirstIndex(q.tickets, OrdinaryWaiterOn(lane)) else |q.tickets|
  }

  function NewTicket(req: Request, now: nat): Ticket {
    Ticket(req.id, req.lane, Waiting, req.front, req.priority, req.window, now + LEASE_TTL_MS)
  }

  function Replaced(reservations: seq<Reservation>, replacing: Option<string>): seq<Reservation> {
    match replacing
    case None => reservations
    case Some(id) => DropReservation(reservations, id)
  }

  /** An accepted acquire before its lane is pumped. */
  function Join(q: Queue, req: Request, now: nat): Queue {
    var at := InsertionPoint(q, req.lane, req.front);
    q.(tickets := q.tickets[..at] + [NewTicket(req, now)] + q.tickets[at..],
       senders := q.senders[req.id := |q.channels|],
       capacity := q.capacity[req.lane := RequestedCapacity(req.maxParallel)],
       reservations := Replaced(q.reservations, req.replacing),
       channels := q.channels + [Open])
  }

  function RemoveFirst(s: seq<string>, x: string): seq<string>
    requires x in s
  {
    if s[0] == x then s[1..] else [s[0]] + RemoveFirst(s[1..], x)
  }

  function Remember(ids: seq<string>, id: string): seq<string> {
    var all := ids + [id];
    if |all| > EARLY_CANCEL_CAP then all[|all| - EARLY_CANCEL_CAP..] else all
  }

  predicate Accepts(q: Queue, req: Request) {
    !HasTicket(q, req.id) && req.id !in q.cancelledEarly
  }

  function StepAcquire(q: Queue, req: Request, now: nat): (Queue, Reply) {
    if HasTicket(q, req.id) then (q, Duplicate)
    else if req.id in q.cancelledEarly then
      (q.(cancelledEarly := RemoveFirst(q.cancelledEarly, req.id)), Refused)
    else (Pump(Join(q, req, now)), Accepted(|q.channels|))
  }

  function StepCancelProbe(q: Queue, id: string): (Queue, Reply) {
    if HasTicket(q, id) then (q, Changed(true))
    else (q.(cancelledEarly := Remember(q.cancelledEarly, id)), Changed(false))
  }

  function StepCancelWaiting(q: Queue, id: string): (Queue, Reply) {
    if HasWaiter(q, id) then (Pump(KeepTickets(q, Without(id))), Changed(true))
    else (q, Changed(false))
  }

  /** The reservation a turn leaves when it gives back the slot of `t`. */
  function ReservationFor(t: Ticket, now: nat): Reservation {
    Reservation(t.id, t.lane, t.owner, now + LEASE_TTL_MS)
  }

  /** A release before its lane is pumped. */
  function Leave(q: Queue, id: string, reserve: bool, now: nat): Queue {
    var dropped := q.(reservations := DropReservation(q.reservations, id));
    var pos := FirstIndex(q.tickets, WithId(id));
    if pos < |q.tickets| then
      var kept := KeepTickets(dropped, Without(id));
      if reserve
      then kept.(reservations := kept.reservations + [ReservationFor(q.tickets[pos], now)])
      else kept
    else dropped
  }

  function StepRelease(q: Queue, id: string, reserve: bool, now: nat): (Queue, Reply) {
    var left := Leave(q, id, reserve, now);
    if HasTicket(q, id) || HasReservation(q, id)
    then (Pump(left), Changed(true))
    else (left, Changed(false))
  }

  function RefreshedTicket(t: Ticket, id: string, now: nat): Ticket {
    if t.id == id then t.(lease := now + LEASE_TTL_MS) else t
  }

  function RefreshedReservation(r: Reservation, id: string, now: nat): Reservation {
    if r.id == id then r.(lease := now + LEASE_TTL_MS) else r
  }

  function Refresh(q: Queue, id: string, now: nat): Queue {
    q.(tickets := seq(|q.tickets|, i requires 0 <= i < |q.tickets| => RefreshedTicket(q.tickets[i], id, now)),
       reservations := seq(|q.reservations|,
         i requires 0 <= i < |q.reservations| => RefreshedReservation(q.reservations[i], id, now)))
  }

  /** A reclaim before the lanes are pumped. */
  function Evict(q: Queue, claim: Claim): Queue {
    KeepTickets(q.(reservations := Filter(q.reservations, ReservationUnclaimed(claim))), Unclaimed(claim))
  }

  function StepReclaim(q: Queue, claim: Claim): (Queue, Reply) {
    var evicted := Evict(q, claim);
    if |evicted.tickets| != |q.tickets| || |evicted.reservations| != |q.reservations|
    then (Pump(evicted), Changed(true))
    else (q, Changed(false))
  }

  function Step(q: Queue, e: Event): (Queue, Reply) {
    match e.op
    case Acquire(req) => StepAcquire(q, req, e.now)
    case CancelProbe(id) => StepCancelProbe(q, id)
    case CancelWaiting(id) => StepCancelWaiting(q, id)
    case Release(id, reserve) => StepRelease(q, id, reserve, e.now)
    case Heartbeat(id) => (Refresh(q, id, e.now), Changed(false))
    case Reclaim(claim) => StepReclaim(q, claim)
  }

  /** The queue after the events of a run, the first one first. */
  function Run(q: Queue, events: seq<Event>): Queue {
    if events == [] then q
    else Step(Run(q, events[..|events| - 1]), events[|events| - 1]).0
  }
}
