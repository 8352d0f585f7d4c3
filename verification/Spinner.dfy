/** The progress spinner of pkg/console/spinner.go: a goroutine that writes one
    frame per tick, a caller of `Stop`, the ticker and the UI loop, with the
    `stop` and `stopped` channels between them. One step is one atomic action. */
module Spinner {
  const SYMBOLS: string := ['\\', '-', '/', '|']

  type Position = n: nat | n < 4

  /** What the goroutine writes: the first frame, a frame for one symbol, or the
      message passed to `Stop`. */
  datatype Message =
    | Start
    | Frame(symbol: char)
    | Result(message: string, isError: bool)

  /** The goroutine: about to call `g.Update`, waiting for the UI loop, at the
      `select`, sending on `stopped`, or gone. */
  datatype Stage =
    | Issuing(message: Message)
    | Waiting(message: Message)
    | Selecting
    | SendingStopped
    | Exited

  /** The caller: not in `Stop` yet, sending on `stop`, waiting for `stopped`,
      or back from `Stop`. */
  datatype Caller = Idle | SendingStop(message: string, isError: bool) | AwaitingStopped | Returned

  /** `position` is the index of the next symbol in the inner loop; `tick` says
      that the ticker's one-element channel holds a tick; `updates` holds the
      callbacks not yet run; `signalling` says that the UI loop is inside a
      callback, at the channel send. `written` records what the UI loop ran, `shown`
      whether the last of it found the view, and `panel` is the view's text. */
  datatype State = State(
    stage: Stage, position: Position,
    caller: Caller,
    tickerOn: bool, tick: bool,
    updates: multiset<Message>, signalling: bool,
    written: seq<Message>, shown: bool, panel: string)

  datatype Step =
    | Tick
    | Issue
    | RunCallback(message: Message, viewExists: bool)
    | Signal
    | TakeTick
    | CallStop(text: string, isError: bool)
    | TakeStop
    | Handshake

  predicate Enabled(s: State, step: Step) {
    match step
    case Tick => s.tickerOn
    case Issue => s.stage.Issuing?
    case RunCallback(m, _) => !s.signalling && m in s.updates
    case Signal => s.signalling && s.stage.Waiting?
    case TakeTick => s.stage.Selecting? && s.tick
    case CallStop(_, _) => s.caller.Idle?
    case TakeStop => s.stage.Selecting? && s.caller.SendingStop?
    case Handshake => s.stage.SendingStopped? && s.caller.AwaitingStopped?
  }

  /** The view after a write; the first frame and the result clear it first. */
  function Written(prefix: string, panel: string, m: Message): string {
    match m
    case Start => prefix + "|"
    case Frame(symbol) => panel + "\r" + prefix + [symbol]
    case Result(message, _) => message
  }

  function Next(prefix: string, s: State, step: Step): State
    requires Enabled(s, step)
  {
    match step
    case Tick => s.(tick := true)
    case Issue =>
      s.(stage := Waiting(s.stage.message), updates := s.updates + multiset{s.stage.message})
    case RunCallback(m, viewExists) =>
      s.(updates := s.updates - multiset{m}, signalling := true, written := s.written + [m],
         shown := viewExists, panel := if viewExists then Written(prefix, s.panel, m) else s.panel)
    case Signal =>
      s.(signalling := false, stage := if s.stage.message.Result? then SendingStopped else Selecting)
    case TakeTick =>
      s.(tick := false, stage := Issuing(Frame(SYMBOLS[s.position])),
         position := if s.position == 3 then 0 else s.position + 1)
    case CallStop(text, isError) =>
      s.(tickerOn := false, caller := SendingStop(text, isError))
    case TakeStop =>
      s.(caller := AwaitingStopped, stage := Issuing(Result(s.caller.message, s.caller.isError)))
    case Handshake =>
      s.(stage := Exited, caller := Returned)
  }

  function Started(panel: string): State {
    State(Issuing(Start), 0, Idle, true, false, multiset{}, false, [], false, panel)
  }

  predicate IsRun(prefix: string, s: State, trace: seq<Step>)
    decreases |trace|
  {
    trace == [] || (Enabled(s, trace[0]) && IsRun(prefix, Next(prefix, s, trace[0]), trace[1..]))
  }

  function Final(prefix: string, s: State, trace: seq<Step>): State
    requires IsRun(prefix, s, trace)
    decreases |trace|
  {
    if trace == [] then s else Final(prefix, Next(prefix, s, trace[0]), trace[1..])
  }

  /** The frames of the first `n` ticks: symbol i mod 4 for the i-th. */
  function Frames(n: nat): (frames: seq<Message>)
    ensures |frames| == n
  {
    seq(n, i => Frame(SYMBOLS[i % 4]))
  }

  /** The message the goroutine has issued but the UI loop has not run. */
  ghost function Owed(s: State): seq<Message> {
    if s.stage.Issuing? || (s.stage.Waiting? && !s.signalling) then [s.stage.message] else []
  }

  /** The goroutine has taken the `Stop` message. */
  ghost predicate Stopping(s: State) {
    s.caller.AwaitingStopped? || s.caller.Returned?
  }

  /** Everything issued so far is the first frame, one frame a tick and, once
      stopping, the `Stop` message; at most the last of it is still owed. */
  ghost predicate Inv(s: State, ticks: nat, last: seq<Message>) {
    && s.written + Owed(s) == [Start] + Frames(ticks) + last
    && s.position == ticks % 4
    && (if Stopping(s) then |last| == 1 && last[0].Result? else last == [])
    && s.updates == (if s.stage.Waiting? && !s.signalling then multiset{s.stage.message} else multiset{})
    && (s.signalling ==> s.stage.Waiting?)
    && (s.caller.Idle? || !s.tickerOn)
    && (s.shown && s.written != [] && s.written[|s.written| - 1].Result? ==>
          s.panel == s.written[|s.written| - 1].message)
    && (if Stopping(s) then
          match s.stage
          case Issuing(m) => s.caller.AwaitingStopped? && m == last[0]
          case Waiting(m) => s.caller.AwaitingStopped? && m == last[0]
          case SendingStopped => s.caller.AwaitingStopped?
          case Exited => s.caller.Returned?
          case Selecting => false
        else
          match s.stage
          case Issuing(m) => !m.Result?
          case Waiting(m) => !m.Result?
          case Selecting => true
          case _ => false)
  }

  /** The tick count and the final message after one more step. */
  ghost function TicksAfter(s: State, step: Step, ticks: nat): nat {
    if step.TakeTick? then ticks + 1 else ticks
  }

  ghost function LastAfter(s: State, step: Step, last: seq<Message>): seq<Message>
    requires Enabled(s, step)
  {
    if step.TakeStop? then [Result(s.caller.message, s.caller.isError)] else last
  }

  lemma TickKeepsInv(prefix: string, s: State, ticks: nat, last: seq<Message>)
    requires Inv(s, ticks, last) && Enabled(s, TakeTick)
    ensures Inv(Next(prefix, s, TakeTick), ticks + 1, last)
  {
    assert Frames(ticks + 1) == Frames(ticks) + [Frame(SYMBOLS[ticks % 4])];
    assert s.written + Owed(s) == s.written;
    assert [Start] + Frames(ticks) + last == [Start] + Frames(ticks);
  }

  lemma StopKeepsInv(prefix: string, s: State, ticks: nat, last: seq<Message>)
    requires Inv(s, ticks, last) && Enabled(s, TakeStop)
    ensures Inv(Next(prefix, s, TakeStop), ticks, LastAfter(s, TakeStop, last))
  {
    assert s.written + Owed(s) == s.written;
    assert [Start] + Frames(ticks) + last == [Start] + Frames(ticks);
  }

  lemma CallbackKeepsInv(prefix: string, s: State, step: Step, ticks: nat, last: seq<Message>)
    requires Inv(s, ticks, last) && Enabled(s, step) && step.RunCallback?
    ensures Inv(Next(prefix, s, step), ticks, last)
  {
    assert Next(prefix, s, step).updates == multiset{};
  }

  lemma StepKeepsInv(prefix: string, s: State, step: Step, ticks: nat, last: seq<Message>)
    requires Inv(s, ticks, last) && Enabled(s, step)
    ensures Inv(Next(prefix, s, step), TicksAfter(s, step, ticks), LastAfter(s, step, last))
  {
    match step
    case TakeTick => TickKeepsInv(prefix, s, ticks, last);
    case TakeStop => StopKeepsInv(prefix, s, ticks, last);
    case RunCallback(_, _) => CallbackKeepsInv(prefix, s, step, ticks, last);
    case _ =>
  }

  /** Ticks consumed and final message over a whole run. */
  ghost function TicksOf(prefix: string, s: State, trace: seq<Step>, ticks: nat): nat
    requires IsRun(prefix, s, trace)
    decreases |trace|
  {
    if trace == [] then ticks
    else TicksOf(prefix, Next(prefix, s, trace[0]), trace[1..], TicksAfter(s, trace[0], ticks))
  }

  ghost function LastOf(prefix: string, s: State, trace: seq<Step>, last: seq<Message>): seq<Message>
    requires IsRun(prefix, s, trace)
    decreases |trace|
  {
    if trace == [] then last
    else LastOf(prefix, Next(prefix, s, trace[0]), trace[1..], LastAfter(s, trace[0], last))
  }

  lemma {:induction false} RunKeepsInv(prefix: string, s: State, trace: seq<Step>, ticks: nat, last: seq<Message>)
    requires Inv(s, ticks, last) && IsRun(prefix, s, trace)
    ensures Inv(Final(prefix, s, trace), TicksOf(prefix, s, trace, ticks), LastOf(prefix, s, trace, last))
    decreases |trace|
  {
    if trace != [] {
      StepKeepsInv(prefix, s, trace[0], ticks, last);
      RunKeepsInv(prefix, Next(prefix, s, trace[0]), trace[1..],
                  TicksAfter(s, trace[0], ticks), LastAfter(s, trace[0], last));
    }
  }

  lemma StartedInv(panel: string)
    ensures Inv(Started(panel), 0, [])
  {
  }

  /** `written` is `full`, or `full` without its last message. */
  ghost predicate UpToLast(written: seq<Message>, full: seq<Message>) {
    written == full || (full != [] && written == full[..|full| - 1])
  }

  /** At every point of every run: the UI loop has run the messages in the order
      they were issued, at most one write is outstanding, the n-th tick shows
      symbol n mod 4, and only the message of `Stop` comes after the frames. */
  lemma WritesInOrder(prefix: string, panel: string, trace: seq<Step>)
    requires IsRun(prefix, Started(panel), trace)
    ensures var s := Final(prefix, Started(panel), trace);
            var ticks := TicksOf(prefix, Started(panel), trace, 0);
      && (if Stopping(s) then
            exists m, e :: UpToLast(s.written, [Start] + Frames(ticks) + [Result(m, e)])
          else UpToLast(s.written, [Start] + Frames(ticks)))
      && |s.updates| + (if s.signalling then 1 else 0) <= 1
  {
    StartedInv(panel);
    RunKeepsInv(prefix, Started(panel), trace, 0, []);
    var s := Final(prefix, Started(panel), trace);
    var ticks, last := TicksOf(prefix, Started(panel), trace, 0), LastOf(prefix, Started(panel), trace, []);
    OwedIsLast(s, [Start] + Frames(ticks) + last);
    if Stopping(s) {
      assert last == [Result(last[0].message, last[0].isError)];
    } else {
      assert [Start] + Frames(ticks) + last == [Start] + Frames(ticks);
    }
  }

  lemma OwedIsLast(s: State, full: seq<Message>)
    requires s.written + Owed(s) == full
    ensures UpToLast(s.written, full)
  {
    assert (s.written + Owed(s))[..|s.written|] == s.written;
  }

  // ----- Stop

  /** The final message is the one `Stop` was called with. */
  lemma {:induction false} LastIsFromCaller(prefix: string, s: State, trace: seq<Step>, last: seq<Message>)
    requires IsRun(prefix, s, trace)
    ensures var end := LastOf(prefix, s, trace, last);
      || end == last
      || exists text, isError :: end == [Result(text, isError)]
           && (s.caller == SendingStop(text, isError) || CallStop(text, isError) in trace)
    decreases |trace|
  {
    if trace != [] {
      assert trace == [trace[0]] + trace[1..];
      LastIsFromCaller(prefix, Next(prefix, s, trace[0]), trace[1..], LastAfter(s, trace[0], last));
    }
  }

  /** Once `Stop` has returned its message was the last write and nothing can be
      written any more: no step changes the writes or the panel. */
  lemma QuietAfterStop(prefix: string, panel: string, trace: seq<Step>, step: Step)
    requires IsRun(prefix, Started(panel), trace)
    requires Final(prefix, Started(panel), trace).caller.Returned?
    ensures var s := Final(prefix, Started(panel), trace);
      && s.written != [] && s.written[|s.written| - 1].Result?
      && CallStop(s.written[|s.written| - 1].message, s.written[|s.written| - 1].isError) in trace
      && (s.shown ==> s.panel == s.written[|s.written| - 1].message)
      && s.written[..|s.written| - 1] == [Start] + Frames(TicksOf(prefix, Started(panel), trace, 0))
      && !Enabled(s, step)
  {
    StartedInv(panel);
    RunKeepsInv(prefix, Started(panel), trace, 0, []);
    var s := Final(prefix, Started(panel), trace);
    var ticks, last := TicksOf(prefix, Started(panel), trace, 0), LastOf(prefix, Started(panel), trace, []);
    assert s.written + Owed(s) == s.written;
    assert last == [last[0]];
    LastIsFromCaller(prefix, Started(panel), trace, []);
  }

  /** Between the call of `Stop` and its return some step can always be taken,
      and none of them is a tick. */
  lemma StopMakesProgress(s: State, ticks: nat, last: seq<Message>) returns (step: Step)
    requires Inv(s, ticks, last) && !s.caller.Idle? && !s.caller.Returned?
    ensures Enabled(s, step)
  {
    match s.stage
    case Issuing(_) => step := Issue;
    case Waiting(m) => step := if s.signalling then Signal else RunCallback(m, true);
    case Selecting => step := TakeStop;
    case SendingStopped => step := Handshake;
  }

  /** Steps until `Stop` returns, at most: the write under way, a frame for the
      tick left in the channel, the result, and the two rendezvous. */
  ghost function Remaining(s: State): nat {
    (if s.tick then 4 else 0) +
    (if s.caller.SendingStop? then 4 else 0) +
    match s.stage
    case Exited => 0
    case SendingStopped => 1
    case Selecting => 1
    case Waiting(_) => if s.signalling then 2 else 3
    case Issuing(_) => 4
  }

  lemma StopStepUsesUp(prefix: string, s: State, step: Step, ticks: nat, last: seq<Message>)
    requires Inv(s, ticks, last) && Enabled(s, step) && !s.caller.Idle?
    ensures Remaining(Next(prefix, s, step)) == Remaining(s) - 1
  {
  }

  /** From the call of `Stop` on, every run has at most twelve steps, and it can
      be extended exactly until `Stop` has returned. */
  lemma {:induction false} StopReturns(prefix: string, s: State, trace: seq<Step>, ticks: nat, last: seq<Message>)
    requires Inv(s, ticks, last) && !s.caller.Idle? && IsRun(prefix, s, trace)
    ensures |trace| <= Remaining(s) <= 12
    ensures var end := Final(prefix, s, trace);
      (forall step :: !Enabled(end, step)) <==> end.caller.Returned?
    decreases |trace|
  {
    if trace != [] {
      StepKeepsInv(prefix, s, trace[0], ticks, last);
      StopStepUsesUp(prefix, s, trace[0], ticks, last);
      StopReturns(prefix, Next(prefix, s, trace[0]), trace[1..],
                  TicksAfter(s, trace[0], ticks), LastAfter(s, trace[0], last));
    } else if !s.caller.Returned? {
      var step := StopMakesProgress(s, ticks, last);
    }
  }
}
