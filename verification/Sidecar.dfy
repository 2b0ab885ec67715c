/**
 The events of a sidecar: two reader threads and a waiter share a channel of
 capacity one with the consumer. Every interleaving of their steps is a run.
 */
module Sidecar {
  import opened Sequences

  datatype CommandEvent =
    | Stdout(line: string)
    | Stderr(line: string)
    | Error(message: string)
    | Terminated(code: Option<int>)

  /** What reading a pipe gives: its lines, and then its end or an error. */
  datatype Pipe = Pipe(lines: seq<string>, failure: Option<string>)

  /** A child as the threads see it: its pipes, and what waiting for it answers. */
  datatype Child = Child(out: Pipe, err: Pipe, exit: Exit)

  datatype Exit = Status(code: Option<int>) | WaitFailed(message: string)

  datatype Side = OutSide | ErrSide

  /** A reader thread: what its pipe still gives, the event it is about to send, and whether the thread has ended. */
  datatype Reader = Reader(todo: seq<CommandEvent>, holding: Option<CommandEvent>, done: bool)

  datatype Waiter = AwaitsChild | JoinsOut | JoinsErr | Sends | Ended

  datatype State = State(
    out: Reader, err: Reader, waiter: Waiter, channel: Option<CommandEvent>, open: bool,
    received: seq<CommandEvent>)
  {
    function On(side: Side): Reader {
      if side.OutSide? then out else err
    }

    function With(side: Side, r: Reader): State {
      if side.OutSide? then this.(out := r) else this.(err := r)
    }
  }

  datatype Move =
    | Read(side: Side)
    | Send(side: Side)
    | Wait
    | Join
    | SendExit
    | Receive
    | Close

  function Wrap(side: Side, line: string): CommandEvent {
    if side.OutSide? then Stdout(line) else Stderr(line)
  }

  /** The events a reader sends, if it gets to send them all. */
  function Script(side: Side, pipe: Pipe): seq<CommandEvent> {
    seq(|pipe.lines|, i requires 0 <= i < |pipe.lines| => Wrap(side, pipe.lines[i]))
    + if pipe.failure.Some? then [Error(pipe.failure.value)] else []
  }

  function ScriptOf(c: Child, side: Side): seq<CommandEvent> {
    Script(side, if side.OutSide? then c.out else c.err)
  }

  function ExitEvent(c: Child): CommandEvent {
    match c.exit
    case Status(code) => Terminated(code)
    case WaitFailed(message) => Error(message)
  }

  function Init(c: Child): State {
    State(Reader(ScriptOf(c, OutSide), None, false), Reader(ScriptOf(c, ErrSide), None, false),
          AwaitsChild, None, true, [])
  }

  /** Whether a thread can take the step now: a send waits for room in the channel, unless nobody receives any more. */
  predicate Enabled(s: State, m: Move) {
    match m
    case Read(side) => !s.On(side).done && s.On(side).holding.None?
    case Send(side) => s.On(side).holding.Some? && (s.channel.None? || !s.open)
    case Wait => s.waiter.AwaitsChild?
    case Join => (s.waiter.JoinsOut? && s.out.done) || (s.waiter.JoinsErr? && s.err.done)
    case SendExit => s.waiter.Sends? && (s.channel.None? || !s.open)
    case Receive => s.open && s.channel.Some?
    case Close => s.open
  }

  function DoRead(r: Reader): Reader {
    if r.todo == [] then r.(done := true) else r.(todo := r.todo[1..], holding := Some(r.todo[0]))
  }

  function DoSend(s: State, side: Side): State
    requires s.On(side).holding.Some?
  {
    var r := s.On(side);
    if s.open
    then s.With(side, r.(holding := None, done := r.holding.value.Error?)).(channel := r.holding)
    else s.With(side, r.(holding := None, done := true))
  }

  function Apply(c: Child, s: State, m: Move): State
    requires Enabled(s, m)
  {
    match m
    case Read(side) => s.With(side, DoRead(s.On(side)))
    case Send(side) => DoSend(s, side)
    case Wait => s.(waiter := JoinsOut)
    case Join => s.(waiter := if s.waiter.JoinsOut? then JoinsErr else Sends)
    case SendExit => if s.open then s.(waiter := Ended, channel := Some(ExitEvent(c))) else s.(waiter := Ended)
    case Receive => s.(channel := None, received := s.received + [s.channel.value])
    case Close => s.(open := false, channel := None)
  }

  /** Whether the moves, the first one first, can be made from `s`. */
  predicate CanRun(c: Child, s: State, moves: seq<Move>)
    decreases |moves|
  {
    moves == [] || (Enabled(s, moves[0]) && CanRun(c, Apply(c, s, moves[0]), moves[1..]))
  }

  function Run(c: Child, s: State, moves: seq<Move>): State
    requires CanRun(c, s, moves)
    decreases |moves|
  {
    if moves == [] then s else Run(c, Apply(c, s, moves[0]), moves[1..])
  }

  // Interleavings.

  /** `s` is an interleaving of `a` and `b`, each in its own order. */
  ghost predicate Merge(s: seq<CommandEvent>, a: seq<CommandEvent>, b: seq<CommandEvent>)
    decreases |s|
  {
    if s == [] then a == [] && b == []
    else
      || (a != [] && s[|s| - 1] == a[|a| - 1] && Merge(s[..|s| - 1], a[..|a| - 1], b))
      || (b != [] && s[|s| - 1] == b[|b| - 1] && Merge(s[..|s| - 1], a, b[..|b| - 1]))
  }

  lemma {:induction false} MergeSnoc(s: seq<CommandEvent>, a: seq<CommandEvent>, b: seq<CommandEvent>, x: CommandEvent)
    requires Merge(s, a, b)
    ensures Merge(s + [x], a + [x], b) && Merge(s + [x], a, b + [x])
  {
    assert (s + [x])[..|s|] == s && (a + [x])[..|a|] == a && (b + [x])[..|b|] == b;
  }

  /** Where the events of an interleaving come from, seen through a filter. */
  lemma {:induction false} MergeFilters(s: seq<CommandEvent>, a: seq<CommandEvent>, b: seq<CommandEvent>, p: CommandEvent -> bool)
    requires Merge(s, a, b)
    requires forall i :: 0 <= i < |b| ==> !p(b[i])
    ensures Filter(s, p) == Filter(a, p)
    decreases |s|
  {
    if s != [] {
      if a != [] && s[|s| - 1] == a[|a| - 1] && Merge(s[..|s| - 1], a[..|a| - 1], b) {
        MergeFilters(s[..|s| - 1], a[..|a| - 1], b, p);
      } else {
        MergeFilters(s[..|s| - 1], a, b[..|b| - 1], p);
      }
    }
  }

  lemma {:induction false} MergeSwaps(s: seq<CommandEvent>, a: seq<CommandEvent>, b: seq<CommandEvent>)
    requires Merge(s, a, b)
    ensures Merge(s, b, a)
    decreases |s|
  {
    if s != [] {
      if a != [] && s[|s| - 1] == a[|a| - 1] && Merge(s[..|s| - 1], a[..|a| - 1], b) {
        MergeSwaps(s[..|s| - 1], a[..|a| - 1], b);
      } else {
        MergeSwaps(s[..|s| - 1], a, b[..|b| - 1]);
      }
    }
  }

  // What every interleaving keeps.

  function Pending(o: Option<CommandEvent>): seq<CommandEvent> {
    if o.Some? then [o.value] else []
  }

  /** What a reader has not sent yet. */
  function Unsent(r: Reader): seq<CommandEvent> {
    Pending(r.holding) + r.todo
  }

  /** What a reader has sent of its script. */
  function SentBy(script: seq<CommandEvent>, r: Reader): seq<CommandEvent>
    requires |Unsent(r)| <= |script|
  {
    script[..|script| - |Unsent(r)|]
  }

  function Sent(c: Child, s: State, side: Side): seq<CommandEvent>
    requires |Unsent(s.On(side))| <= |ScriptOf(c, side)|
  {
    SentBy(ScriptOf(c, side), s.On(side))
  }

  /** The events that left the threads, in the order of the channel. */
  function Delivered(s: State): seq<CommandEvent> {
    s.received + Pending(s.channel)
  }

  ghost predicate ReaderFits(script: seq<CommandEvent>, r: Reader, open: bool) {
    && |Unsent(r)| <= |script|
    && script == SentBy(script, r) + Unsent(r)
    && (r.done ==> r.holding.None? && (open ==> r.todo == []))
  }

  ghost predicate ReaderOk(c: Child, s: State, side: Side) {
    ReaderFits(ScriptOf(c, side), s.On(side), s.open)
  }

  /** While the consumer receives: both readers are done before the waiter gets to its send. */
  ghost predicate WaiterOk(s: State) {
    && (s.waiter in {JoinsErr, Sends, Ended} ==> s.out.done)
    && (s.waiter in {Sends, Ended} ==> s.err.done)
  }

  /** `seen` is in order: an interleaving of what the readers began with, and the exit event only after all of both. */
  ghost predicate InOrder(c: Child, seen: seq<CommandEvent>, a: seq<CommandEvent>, b: seq<CommandEvent>, ended: bool) {
    if ended
    then seen != [] && seen[|seen| - 1] == ExitEvent(c) && Merge(seen[..|seen| - 1], a, b)
    else Merge(seen, a, b)
  }

  ghost predicate Inv(c: Child, s: State) {
    && ReaderOk(c, s, OutSide)
    && ReaderOk(c, s, ErrSide)
    && WaiterOk(s)
    && (s.open ==> InOrder(c, Delivered(s), Sent(c, s, OutSide), Sent(c, s, ErrSide), s.waiter.Ended?))
    && (!s.open ==> s.channel.None?)
  }

  lemma {:induction false} InitIsInv(c: Child)
    ensures Inv(c, Init(c))
  {
    hide ScriptOf;
    var s := Init(c);
    assert Sent(c, s, OutSide) == [] && Sent(c, s, ErrSide) == [];
    assert Delivered(s) == [];
  }

  /** An error is the last thing a pipe gives. */
  lemma {:induction false} ErrorsComeLast(c: Child, side: Side, i: nat)
    requires i < |ScriptOf(c, side)| && ScriptOf(c, side)[i].Error?
    ensures i == |ScriptOf(c, side)| - 1
  {
  }

  lemma {:induction false} ReaderReads(script: seq<CommandEvent>, r: Reader, open: bool)
    requires ReaderFits(script, r, open) && r.holding.None? && !r.done
    ensures ReaderFits(script, DoRead(r), open) && SentBy(script, DoRead(r)) == SentBy(script, r)
  {
    assert Unsent(r) == r.todo;
    assert Unsent(DoRead(r)) == r.todo;
  }

  lemma {:induction false} ReadKeepsInv(c: Child, s: State, side: Side)
    requires Inv(c, s) && Enabled(s, Read(side))
    ensures Inv(c, Apply(c, s, Read(side)))
  {
    hide Merge, Script, ScriptOf, DoRead;
    var t := Apply(c, s, Read(side));
    ReaderReads(ScriptOf(c, side), s.On(side), s.open);
    assert ReaderOk(c, t, Other(side)) && Sent(c, t, Other(side)) == Sent(c, s, Other(side));
    assert Delivered(t) == Delivered(s);
    assert WaiterOk(t);
  }

  function Other(side: Side): Side {
    if side.OutSide? then ErrSide else OutSide
  }

  lemma {:induction false} ReaderSends(script: seq<CommandEvent>, r: Reader, open: bool)
    requires ReaderFits(script, r, open) && r.holding.Some?
    requires forall i :: 0 <= i < |script| && script[i].Error? ==> i == |script| - 1
    ensures
      var t := r.(holding := None, done := !open || r.holding.value.Error?);
      ReaderFits(script, t, open) && SentBy(script, t) == SentBy(script, r) + [r.holding.value]
  {
    var k, t := |script| - |Unsent(r)|, r.(holding := None);
    assert Unsent(r) == [r.holding.value] + r.todo;
    assert Unsent(t) == r.todo;
    assert script[k] == Unsent(r)[0];
    assert script[k + 1..] == r.todo;
  }

  lemma {:induction false} SendMovesOneEvent(c: Child, s: State, side: Side)
    requires ReaderOk(c, s, side) && s.On(side).holding.Some?
    ensures ReaderOk(c, DoSend(s, side), side)
    ensures Sent(c, DoSend(s, side), side) == Sent(c, s, side) + [s.On(side).holding.value]
    ensures DoSend(s, side).On(Other(side)) == s.On(Other(side))
  {
    hide Script, ScriptOf;
    forall i | 0 <= i < |ScriptOf(c, side)| && ScriptOf(c, side)[i].Error? ensures i == |ScriptOf(c, side)| - 1 {
      ErrorsComeLast(c, side, i);
    }
    ReaderSends(ScriptOf(c, side), s.On(side), s.open);
  }

  lemma {:induction false} SendKeepsInv(c: Child, s: State, side: Side)
    requires Inv(c, s) && Enabled(s, Send(side))
    ensures Inv(c, Apply(c, s, Send(side)))
  {
    hide Merge, Script, ScriptOf;
    var t, e := DoSend(s, side), s.On(side).holding.value;
    SendMovesOneEvent(c, s, side);
    assert ReaderOk(c, t, Other(side)) && Sent(c, t, Other(side)) == Sent(c, s, Other(side));
    if s.open {
      assert Delivered(t) == Delivered(s) + [e];
      MergeSnoc(Delivered(s), Sent(c, s, OutSide), Sent(c, s, ErrSide), e);
    }
  }

  lemma {:induction false} SendExitKeepsInv(c: Child, s: State)
    requires Inv(c, s) && Enabled(s, SendExit)
    ensures Inv(c, Apply(c, s, SendExit))
  {
    var t := Apply(c, s, SendExit);
    if s.open {
      assert Delivered(t) == Delivered(s) + [ExitEvent(c)];
      assert Delivered(t)[..|Delivered(t)| - 1] == Delivered(s);
    }
  }

  lemma {:induction false} MoveKeepsInv(c: Child, s: State, m: Move)
    requires Inv(c, s) && Enabled(s, m)
    ensures Inv(c, Apply(c, s, m))
  {
    match m
    case Read(side) => ReadKeepsInv(c, s, side);
    case Send(side) => SendKeepsInv(c, s, side);
    case SendExit => SendExitKeepsInv(c, s);
    case Receive => assert Delivered(Apply(c, s, Receive)) == Delivered(s);
    case Wait => assert Delivered(Apply(c, s, Wait)) == Delivered(s);
    case Join => assert Delivered(Apply(c, s, Join)) == Delivered(s);
    case Close =>
  }

  lemma {:induction false} RunKeepsInv(c: Child, s: State, moves: seq<Move>)
    requires Inv(c, s) && CanRun(c, s, moves)
    ensures Inv(c, Run(c, s, moves))
    decreases |moves|
  {
    if moves != [] {
      MoveKeepsInv(c, s, moves[0]);
      RunKeepsInv(c, Apply(c, s, moves[0]), moves[1..]);
    }
  }

  /** Every thread has ended, and what they sent was received, or nobody receives any more. */
  predicate Final(s: State) {
    s.out.done && s.err.done && s.waiter.Ended? && s.channel.None?
  }

  // No deadlock, and an end.

  /** As long as a thread is left, or an event to receive, some step other than closing can be taken. */
  lemma {:induction false} NeverDeadlocks(c: Child, s: State)
    requires Inv(c, s) && !Final(s)
    ensures exists m :: m != Close && Enabled(s, m)
  {
    if s.channel.Some? {
      assert Enabled(s, Receive);
    } else if !s.out.done {
      assert Enabled(s, if s.out.holding.Some? then Send(OutSide) else Read(OutSide));
    } else if !s.err.done {
      assert Enabled(s, if s.err.holding.Some? then Send(ErrSide) else Read(ErrSide));
    } else {
      assert Enabled(s, if s.waiter.AwaitsChild? then Wait else if s.waiter.Sends? then SendExit else Join);
    }
  }

  function ReaderSteps(r: Reader): nat {
    3 * |r.todo| + (if r.holding.Some? then 2 else 0) + if r.done then 0 else 1
  }

  function StepsLeft(s: State): nat {
    ReaderSteps(s.out) + ReaderSteps(s.err)
    + (match s.waiter case AwaitsChild => 5 case JoinsOut => 4 case JoinsErr => 3 case Sends => 2 case Ended => 0)
    + (if s.channel.Some? then 1 else 0) + if s.open then 1 else 0
  }

  lemma {:induction false} MoveCounts(c: Child, s: State, m: Move)
    requires Inv(c, s) && Enabled(s, m)
    ensures StepsLeft(Apply(c, s, m)) < StepsLeft(s)
  {
    hide Merge, Script, ScriptOf;
  }

  /** Every step brings the end closer, so no run goes on for ever. */
  lemma {:induction false} RunsAreBounded(c: Child, s: State, moves: seq<Move>)
    requires Inv(c, s) && CanRun(c, s, moves)
    ensures |moves| + StepsLeft(Run(c, s, moves)) <= StepsLeft(s)
    decreases |moves|
  {
    if moves != [] {
      MoveCounts(c, s, moves[0]);
      MoveKeepsInv(c, s, moves[0]);
      RunsAreBounded(c, Apply(c, s, moves[0]), moves[1..]);
    }
  }

  /** Steps a reader may still take once nobody receives: the one read it is at, and the one send that fails. */
  function StepsOnceClosed(s: State): nat {
    (if s.out.done then 0 else if s.out.holding.Some? then 1 else 2)
    + (if s.err.done then 0 else if s.err.holding.Some? then 1 else 2)
    + (match s.waiter case AwaitsChild => 4 case JoinsOut => 3 case JoinsErr => 2 case Sends => 1 case Ended => 0)
  }

  /** Once the consumer is gone, all threads together take at most eight more steps, however much the child still writes. */
  lemma {:induction false} ClosedRunsEndSoon(c: Child, s: State, moves: seq<Move>)
    requires Inv(c, s) && !s.open && CanRun(c, s, moves)
    ensures |moves| + StepsOnceClosed(Run(c, s, moves)) <= StepsOnceClosed(s) <= 8
    decreases |moves|
  {
    if moves != [] {
      ClosedMoveCounts(c, s, moves[0]);
      MoveKeepsInv(c, s, moves[0]);
      ClosedRunsEndSoon(c, Apply(c, s, moves[0]), moves[1..]);
    }
  }

  lemma {:induction false} ClosedMoveCounts(c: Child, s: State, m: Move)
    requires Inv(c, s) && !s.open && Enabled(s, m)
    ensures !Apply(c, s, m).open && StepsOnceClosed(Apply(c, s, m)) < StepsOnceClosed(s)
  {
    hide Merge, Script, ScriptOf;
  }

  // What the consumer gets.

  lemma {:induction false} StaysOpen(c: Child, s: State, moves: seq<Move>)
    requires CanRun(c, s, moves) && s.open && Close !in moves
    ensures Run(c, s, moves).open
    decreases |moves|
  {
    if moves != [] {
      assert moves[0] in moves;
      StaysOpen(c, Apply(c, s, moves[0]), moves[1..]);
    }
  }

  /** `s` is what reading `pipe` gave: an event for each line in the order of the lines, and then its one error if reading failed. */
  ghost predicate GivenBy(s: seq<CommandEvent>, side: Side, pipe: Pipe) {
    && |s| == |pipe.lines| + (if pipe.failure.Some? then 1 else 0)
    && (forall i :: 0 <= i < |pipe.lines| ==>
          s[i] == if side.OutSide? then Stdout(pipe.lines[i]) else Stderr(pipe.lines[i]))
    && (pipe.failure.Some? ==> s[|pipe.lines|] == Error(pipe.failure.value))
  }

  lemma {:induction false} ScriptIsGiven(c: Child)
    ensures GivenBy(ScriptOf(c, OutSide), OutSide, c.out) && GivenBy(ScriptOf(c, ErrSide), ErrSide, c.err)
  {
  }

  /**
   The order of events. In every interleaving with a consumer that keeps
   receiving, what it has got once nothing is left to do is an interleaving of
   everything either pipe gave, each in order, and then the exit event.
   */
  lemma {:induction false} EverythingArrivesInOrder(c: Child, moves: seq<Move>)
    requires CanRun(c, Init(c), moves) && Close !in moves && Final(Run(c, Init(c), moves))
    ensures
      var got := Run(c, Init(c), moves).received;
      && got != []
      && (match c.exit
          case Status(code) => got[|got| - 1] == Terminated(code)
          case WaitFailed(message) => got[|got| - 1] == Error(message))
      && exists out, err :: GivenBy(out, OutSide, c.out) && GivenBy(err, ErrSide, c.err) && Merge(got[..|got| - 1], out, err)
  {
    InitIsInv(c);
    RunKeepsInv(c, Init(c), moves);
    StaysOpen(c, Init(c), moves);
    ScriptIsGiven(c);
    var s := Run(c, Init(c), moves);
    assert Delivered(s) == s.received;
    assert Sent(c, s, OutSide) == ScriptOf(c, OutSide) && Sent(c, s, ErrSide) == ScriptOf(c, ErrSide);
  }

  function IsStdout(): CommandEvent -> bool { (e: CommandEvent) => e.Stdout? }

  function IsStderr(): CommandEvent -> bool { (e: CommandEvent) => e.Stderr? }

  lemma {:induction false} LinesOfPipe(s: seq<CommandEvent>, side: Side, pipe: Pipe, p: CommandEvent -> bool)
    requires GivenBy(s, side, pipe) && (forall e: CommandEvent :: p(e) <==> if side.OutSide? then e.Stdout? else e.Stderr?)
    ensures Filter(s, p) == s[..|pipe.lines|]
  {
    hide Filter;
    var n := |pipe.lines|;
    FilterAll(s[..n], p);
    if pipe.failure.Some? {
      assert s == s[..n] + [s[n]];
      FilterSnoc(s[..n], s[n], p);
    } else {
      assert s == s[..n];
    }
  }

  lemma {:induction false} LinesOfMerge(body: seq<CommandEvent>, last: CommandEvent, c: Child,
                                        out: seq<CommandEvent>, err: seq<CommandEvent>)
    requires GivenBy(out, OutSide, c.out) && GivenBy(err, ErrSide, c.err) && Merge(body, out, err)
    requires last.Terminated? || last.Error?
    ensures Filter(body + [last], IsStdout()) == out[..|c.out.lines|]
    ensures Filter(body + [last], IsStderr()) == err[..|c.err.lines|]
  {
    hide Filter, Merge;
    MergeSwaps(body, out, err);
    MergeFilters(body, out, err, IsStdout());
    MergeFilters(body, err, out, IsStderr());
    LinesOfPipe(out, OutSide, c.out, IsStdout());
    LinesOfPipe(err, ErrSide, c.err, IsStderr());
    FilterSnoc(body, last, IsStdout());
    FilterSnoc(body, last, IsStderr());
  }

  /** Whatever fails, the consumer gets every line that was read, each pipe's in the order of the pipe and none twice. */
  lemma {:induction false} LinesArriveInOrder(c: Child, moves: seq<Move>)
    requires CanRun(c, Init(c), moves) && Close !in moves && Final(Run(c, Init(c), moves))
    ensures
      var got := Run(c, Init(c), moves).received;
      var out, err := Filter(got, IsStdout()), Filter(got, IsStderr());
      && |out| == |c.out.lines| && (forall i :: 0 <= i < |out| ==> out[i] == Stdout(c.out.lines[i]))
      && |err| == |c.err.lines| && (forall i :: 0 <= i < |err| ==> err[i] == Stderr(c.err.lines[i]))
  {
    hide Filter, Merge, CanRun, Final, Run, Init, IsStdout, IsStderr;
    EverythingArrivesInOrder(c, moves);
    var got := Run(c, Init(c), moves).received;
    var body, last := got[..|got| - 1], got[|got| - 1];
    assert got == body + [last];
    var out, err :| GivenBy(out, OutSide, c.out) && GivenBy(err, ErrSide, c.err) && Merge(body, out, err);
    LinesOfMerge(body, last, c, out, err);
  }

  /** When no read and no wait fails: nothing but lines, and then one `Terminated` at the very end. */
  lemma {:induction false} TerminatedComesLast(c: Child, moves: seq<Move>)
    requires CanRun(c, Init(c), moves) && Close !in moves && Final(Run(c, Init(c), moves))
    requires c.out.failure.None? && c.err.failure.None? && c.exit.Status?
    ensures
      var got := Run(c, Init(c), moves).received;
      && |got| == |c.out.lines| + |c.err.lines| + 1
      && got[|got| - 1] == Terminated(c.exit.code)
      && forall i :: 0 <= i < |got| - 1 ==> got[i].Stdout? || got[i].Stderr?
  {
    hide Merge, CanRun, Final, Run, Init;
    EverythingArrivesInOrder(c, moves);
    var got := Run(c, Init(c), moves).received;
    var body := got[..|got| - 1];
    var out, err :| GivenBy(out, OutSide, c.out) && GivenBy(err, ErrSide, c.err) && Merge(body, out, err);
    MergeMembers(body, out, err);
    MergeAdds(body, out, err);
    forall i | 0 <= i < |got| - 1 ensures got[i].Stdout? || got[i].Stderr? {
      assert body[i] in out || body[i] in err;
    }
  }

  lemma {:induction false} MergeAdds(s: seq<CommandEvent>, a: seq<CommandEvent>, b: seq<CommandEvent>)
    requires Merge(s, a, b)
    ensures |s| == |a| + |b|
    decreases |s|
  {
    if s != [] {
      if a != [] && s[|s| - 1] == a[|a| - 1] && Merge(s[..|s| - 1], a[..|a| - 1], b) {
        MergeAdds(s[..|s| - 1], a[..|a| - 1], b);
      } else {
        MergeAdds(s[..|s| - 1], a, b[..|b| - 1]);
      }
    }
  }

  lemma {:induction false} MergeMembers(s: seq<CommandEvent>, a: seq<CommandEvent>, b: seq<CommandEvent>)
    requires Merge(s, a, b)
    ensures forall i :: 0 <= i < |s| ==> s[i] in a || s[i] in b
    decreases |s|
  {
    if s != [] {
      if a != [] && s[|s| - 1] == a[|a| - 1] && Merge(s[..|s| - 1], a[..|a| - 1], b) {
        MergeMembers(s[..|s| - 1], a[..|a| - 1], b);
      } else {
        MergeMembers(s[..|s| - 1], a, b[..|b| - 1]);
      }
    }
  }
}
