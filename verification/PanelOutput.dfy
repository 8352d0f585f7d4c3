/** Concurrent output of an installation command: `execute`,
    `printToPanelAndLog` and `printToPanel` of pkg/console/util.go. Two reader
    goroutines share a lock; every print is handed to the UI loop through
    `g.Update`, which does not promise any order, and the reader waits on a
    channel until the UI loop has done it. One step is one atomic action of one
    participant. */
module PanelOutput {
  import opened Wrappers
  import ScanLines

  datatype Reader = Stderr | Stdout

  function Other(r: Reader): Reader {
    if r == Stderr then Stdout else Stderr
  }

  /** Where a reader goroutine stands. From Locking on it carries a line; from
      Printing to Unlocking it holds the lock. */
  datatype Stage =
    | Scanning
    | Locking(line: string)
    | Printing(line: string)
    | Waiting(line: string)
    | Unlocking
    | Finished

  /** `todo` is what the scanner has not delivered yet. */
  datatype Process = Process(stage: Stage, todo: seq<string>)

  /** The UI loop is either free or stuck in a callback that has printed and
      now signals the reader's channel. */
  datatype Ui = Idle | Signalling(reader: Reader)

  /** A callback handed to `g.Update` and not yet run. */
  datatype Callback = Callback(reader: Reader, line: string)

  datatype State = State(
    stderr: Process, stdout: Process,
    lock: Option<Reader>,
    pending: multiset<Callback>,
    ui: Ui,
    panel: seq<string>)
  {
    function Of(r: Reader): Process {
      if r == Stderr then stderr else stdout
    }

    function Set(r: Reader, p: Process): State {
      if r == Stderr then this.(stderr := p) else this.(stdout := p)
    }

    predicate Done() {
      stderr.stage.Finished? && stdout.stage.Finished?
    }
  }

  datatype Step =
    | Scan(reader: Reader)
    | Lock(reader: Reader)
    | Submit(reader: Reader)
    | RunCallback(callback: Callback)
    | Signal(reader: Reader)
    | Unlock(reader: Reader)

  predicate Enabled(s: State, step: Step) {
    match step
    case Scan(r) => s.Of(r).stage.Scanning?
    case Lock(r) => s.Of(r).stage.Locking? && s.lock.None?
    case Submit(r) => s.Of(r).stage.Printing?
    case RunCallback(c) => s.ui.Idle? && c in s.pending
    case Signal(r) => s.ui == Signalling(r) && s.Of(r).stage.Waiting?
    case Unlock(r) => s.Of(r).stage.Unlocking?
  }

  function Next(s: State, step: Step): State
    requires Enabled(s, step)
  {
    match step
    case Scan(r) =>
      var p := s.Of(r);
      if p.todo == [] then s.Set(r, Process(Finished, []))
      else s.Set(r, Process(Locking(p.todo[0]), p.todo[1..]))
    case Lock(r) =>
      s.Set(r, s.Of(r).(stage := Printing(s.Of(r).stage.line))).(lock := Some(r))
    case Submit(r) =>
      var line := s.Of(r).stage.line;
      s.Set(r, s.Of(r).(stage := Waiting(line))).(pending := s.pending + multiset{Callback(r, line)})
    case RunCallback(c) =>
      s.(pending := s.pending - multiset{c}, panel := s.panel + [c.line], ui := Signalling(c.reader))
    case Signal(r) =>
      s.Set(r, s.Of(r).(stage := Unlocking)).(ui := Idle)
    case Unlock(r) =>
      s.Set(r, s.Of(r).(stage := Scanning)).(lock := None)
  }

  function Initial(stderr: seq<string>, stdout: seq<string>): State {
    State(Process(Scanning, stderr), Process(Scanning, stdout), None, multiset{}, Idle, [])
  }

  /** `trace` is a run of the program from `s`. */
  predicate IsRun(s: State, trace: seq<Step>)
    decreases |trace|
  {
    trace == [] || (Enabled(s, trace[0]) && IsRun(Next(s, trace[0]), trace[1..]))
  }

  function Final(s: State, trace: seq<Step>): State
    requires IsRun(s, trace)
    decreases |trace|
  {
    if trace == [] then s else Final(Next(s, trace[0]), trace[1..])
  }

  /** `text` merges all of `a` and all of `b`, each in its own order. */
  ghost predicate Interleaving(text: seq<string>, a: seq<string>, b: seq<string>)
    decreases |text|
  {
    if text == [] then a == [] && b == []
    else
      var n := |text| - 1;
      || (a != [] && a[|a| - 1] == text[n] && Interleaving(text[..n], a[..|a| - 1], b))
      || (b != [] && b[|b| - 1] == text[n] && Interleaving(text[..n], a, b[..|b| - 1]))
  }

  /** Prints of `r` that the UI loop has not done yet: handed over or not. */
  ghost predicate Owes(s: State, r: Reader) {
    s.Of(r).stage.Locking? || s.Of(r).stage.Printing? || (s.Of(r).stage.Waiting? && s.ui != Signalling(r))
  }

  /** How many lines of its stream a reader has on the panel. */
  ghost function Shown(s: State, r: Reader, lines: seq<string>): int {
    |lines| - |s.Of(r).todo| - (if Owes(s, r) then 1 else 0)
  }

  /** What one reader's stage says about its stream, the lock and the callbacks. */
  ghost predicate ReaderInv(s: State, r: Reader, lines: seq<string>) {
    var p := s.Of(r);
    && |p.todo| <= |lines| && p.todo == lines[|lines| - |p.todo|..]
    && (p.stage.Finished? ==> p.todo == [])
    && (p.stage.Locking? || p.stage.Printing? || p.stage.Waiting? ==>
          |p.todo| < |lines| && p.stage.line == lines[|lines| - |p.todo| - 1])
    && (s.lock == Some(r) <==> p.stage.Printing? || p.stage.Waiting? || p.stage.Unlocking?)
    && (s.ui == Signalling(r) ==> p.stage.Waiting?)
  }

  /** Callbacks not yet run: only the lock holder's, only while it waits, and
      not the one being signalled. */
  ghost function Outstanding(s: State): multiset<Callback> {
    if s.lock.Some? && s.Of(s.lock.value).stage.Waiting? && s.ui.Idle?
    then multiset{Callback(s.lock.value, s.Of(s.lock.value).stage.line)} else multiset{}
  }

  ghost predicate Inv(s: State, stderr: seq<string>, stdout: seq<string>) {
    && ReaderInv(s, Stderr, stderr)
    && ReaderInv(s, Stdout, stdout)
    && s.pending == Outstanding(s)
    && Shown(s, Stderr, stderr) >= 0 && Shown(s, Stdout, stdout) >= 0
    && Interleaving(s.panel, stderr[..Shown(s, Stderr, stderr)], stdout[..Shown(s, Stdout, stdout)])
  }

  // ----- Safety: what every step keeps

  /** What a step of `r` leaves alone about the other reader. */
  lemma OtherReaderKept(s: State, s': State, r: Reader, lines: seq<string>)
    requires s'.Of(r) == s.Of(r) && ReaderInv(s, r, lines)
    requires s'.lock == s.lock || (s.lock != Some(r) && s'.lock != Some(r))
    requires s'.ui == s.ui || (s.ui != Signalling(r) && s'.ui != Signalling(r))
    ensures ReaderInv(s', r, lines) && Shown(s', r, lines) == Shown(s, r, lines)
  {
  }

  lemma ScanKeepsReader(s: State, r: Reader, lines: seq<string>)
    requires ReaderInv(s, r, lines) && Enabled(s, Scan(r))
    ensures ReaderInv(Next(s, Scan(r)), r, lines)
    ensures Shown(Next(s, Scan(r)), r, lines) == Shown(s, r, lines)
  {
    var todo := s.Of(r).todo;
    if todo != [] {
      assert todo[0] == lines[|lines| - |todo|];
      assert todo[1..] == lines[|lines| - |todo[1..]|..];
    }
  }

  lemma ScanKeepsInv(s: State, r: Reader, stderr: seq<string>, stdout: seq<string>)
    requires Inv(s, stderr, stdout) && Enabled(s, Scan(r))
    ensures Inv(Next(s, Scan(r)), stderr, stdout)
  {
    var s' := Next(s, Scan(r));
    if r == Stderr {
      ScanKeepsReader(s, Stderr, stderr);
      OtherReaderKept(s, s', Stdout, stdout);
    } else {
      ScanKeepsReader(s, Stdout, stdout);
      OtherReaderKept(s, s', Stderr, stderr);
    }
    assert s'.pending == Outstanding(s');
  }

  lemma LockKeepsInv(s: State, r: Reader, stderr: seq<string>, stdout: seq<string>)
    requires Inv(s, stderr, stdout) && Enabled(s, Lock(r))
    ensures Inv(Next(s, Lock(r)), stderr, stdout)
  {
    var s' := Next(s, Lock(r));
    OtherReaderKept(s, s', Other(r), if r == Stderr then stdout else stderr);
    assert s'.pending == Outstanding(s');
  }

  lemma SubmitKeepsInv(s: State, r: Reader, stderr: seq<string>, stdout: seq<string>)
    requires Inv(s, stderr, stdout) && Enabled(s, Submit(r))
    ensures Inv(Next(s, Submit(r)), stderr, stdout)
  {
    var s' := Next(s, Submit(r));
    OtherReaderKept(s, s', Other(r), if r == Stderr then stdout else stderr);
    assert s'.pending == Outstanding(s');
  }

  lemma SignalKeepsInv(s: State, r: Reader, stderr: seq<string>, stdout: seq<string>)
    requires Inv(s, stderr, stdout) && Enabled(s, Signal(r))
    ensures Inv(Next(s, Signal(r)), stderr, stdout)
  {
    var s' := Next(s, Signal(r));
    OtherReaderKept(s, s', Other(r), if r == Stderr then stdout else stderr);
    assert s'.pending == Outstanding(s');
  }

  lemma UnlockKeepsInv(s: State, r: Reader, stderr: seq<string>, stdout: seq<string>)
    requires Inv(s, stderr, stdout) && Enabled(s, Unlock(r))
    ensures Inv(Next(s, Unlock(r)), stderr, stdout)
  {
    var s' := Next(s, Unlock(r));
    OtherReaderKept(s, s', Other(r), if r == Stderr then stdout else stderr);
    assert s'.pending == Outstanding(s');
  }

  lemma CallbackKeepsInv(s: State, c: Callback, stderr: seq<string>, stdout: seq<string>)
    requires Inv(s, stderr, stdout) && Enabled(s, RunCallback(c))
    ensures Inv(Next(s, RunCallback(c)), stderr, stdout)
  {
    var s' := Next(s, RunCallback(c));
    assert s'.pending == multiset{};
    var r, lines := c.reader, if c.reader == Stderr then stderr else stdout;
    var k := Shown(s, r, lines);
    assert Shown(s', r, lines) == k + 1 && lines[k] == c.line;
    assert lines[..k + 1][..k] == lines[..k];
    assert s'.panel[..|s.panel|] == s.panel;
  }

  lemma StepKeepsInv(s: State, step: Step, stderr: seq<string>, stdout: seq<string>)
    requires Inv(s, stderr, stdout) && Enabled(s, step)
    ensures Inv(Next(s, step), stderr, stdout)
  {
    match step
    case Scan(r) => ScanKeepsInv(s, r, stderr, stdout);
    case Lock(r) => LockKeepsInv(s, r, stderr, stdout);
    case Submit(r) => SubmitKeepsInv(s, r, stderr, stdout);
    case RunCallback(c) => CallbackKeepsInv(s, c, stderr, stdout);
    case Signal(r) => SignalKeepsInv(s, r, stderr, stdout);
    case Unlock(r) => UnlockKeepsInv(s, r, stderr, stdout);
  }

  lemma {:induction false} RunKeepsInv(s: State, trace: seq<Step>, stderr: seq<string>, stdout: seq<string>)
    requires Inv(s, stderr, stdout) && IsRun(s, trace)
    ensures Inv(Final(s, trace), stderr, stdout)
    decreases |trace|
  {
    if trace != [] {
      StepKeepsInv(s, trace[0], stderr, stdout);
      RunKeepsInv(Next(s, trace[0]), trace[1..], stderr, stdout);
    }
  }

  lemma InitialInv(stderr: seq<string>, stdout: seq<string>)
    ensures Inv(Initial(stderr, stdout), stderr, stdout)
  {
  }

  /** At every point of every run the panel merges a prefix of each stream in
      stream order, at most one print is outstanding, and the readers are never
      both between lock and unlock. */
  lemma PanelIsInterleaving(stderr: seq<string>, stdout: seq<string>, trace: seq<Step>)
    requires IsRun(Initial(stderr, stdout), trace)
    ensures var s := Final(Initial(stderr, stdout), trace);
      && (exists m: nat, n: nat :: m <= |stderr| && n <= |stdout|
            && Interleaving(s.panel, stderr[..m], stdout[..n]))
      && |s.pending| + (if s.ui.Idle? then 0 else 1) <= 1
      && !(HoldsLock(s, Stderr) && HoldsLock(s, Stdout))
  {
    InitialInv(stderr, stdout);
    RunKeepsInv(Initial(stderr, stdout), trace, stderr, stdout);
    var s := Final(Initial(stderr, stdout), trace);
    assert Shown(s, Stderr, stderr) <= |stderr| && Shown(s, Stdout, stdout) <= |stdout|;
  }

  predicate HoldsLock(s: State, r: Reader) {
    s.Of(r).stage.Printing? || s.Of(r).stage.Waiting? || s.Of(r).stage.Unlocking?
  }

  /** After `wg.Wait` every line of both streams has been printed exactly once. */
  lemma AllPrintedWhenDone(stderr: seq<string>, stdout: seq<string>, trace: seq<Step>)
    requires IsRun(Initial(stderr, stdout), trace)
    requires Final(Initial(stderr, stdout), trace).Done()
    ensures Interleaving(Final(Initial(stderr, stdout), trace).panel, stderr, stdout)
  {
    InitialInv(stderr, stdout);
    RunKeepsInv(Initial(stderr, stdout), trace, stderr, stdout);
    assert stderr[..|stderr|] == stderr && stdout[..|stdout|] == stdout;
  }

  /** An interleaving has exactly the lines of both streams. */
  lemma {:induction false} InterleavingContents(text: seq<string>, a: seq<string>, b: seq<string>)
    requires Interleaving(text, a, b)
    ensures multiset(text) == multiset(a) + multiset(b)
    decreases |text|
  {
    if text != [] {
      var n := |text| - 1;
      assert text == text[..n] + [text[n]];
      if a != [] && a[|a| - 1] == text[n] && Interleaving(text[..n], a[..|a| - 1], b) {
        assert a == a[..|a| - 1] + [a[|a| - 1]];
        InterleavingContents(text[..n], a[..|a| - 1], b);
      } else {
        assert b == b[..|b| - 1] + [b[|b| - 1]];
        InterleavingContents(text[..n], a, b[..|b| - 1]);
      }
    }
  }

  // ----- Liveness: no deadlock, and every run has the same length

  /** A step some participant can take, as long as `wg.Wait` has not returned. */
  lemma NoDeadlock(s: State, stderr: seq<string>, stdout: seq<string>) returns (step: Step)
    requires Inv(s, stderr, stdout) && !s.Done()
    ensures Enabled(s, step)
  {
    if s.lock.Some? {
      var r := s.lock.value;
      match s.Of(r).stage
      case Printing(_) => step := Submit(r);
      case Waiting(line) =>
        if s.ui.Idle? {
          step := RunCallback(Callback(r, line));
        } else {
          step := Signal(r);
        }
      case _ => step := Unlock(r);
    } else {
      var r := if s.stderr.stage.Finished? then Stdout else Stderr;
      step := if s.Of(r).stage.Scanning? then Scan(r) else Lock(r);
    }
  }

  /** Steps a reader and the callbacks on its behalf still have to take. */
  ghost function Work(s: State, r: Reader): nat {
    6 * |s.Of(r).todo| + match s.Of(r).stage
    case Finished => 0
    case Scanning => 1
    case Unlocking => 2
    case Waiting(_) => if s.ui == Signalling(r) then 3 else 4
    case Printing(_) => 5
    case Locking(_) => 6
  }

  lemma StepTakesOneUnit(s: State, step: Step, stderr: seq<string>, stdout: seq<string>)
    requires Inv(s, stderr, stdout) && Enabled(s, step)
    ensures Work(Next(s, step), Stderr) + Work(Next(s, step), Stdout) + 1 == Work(s, Stderr) + Work(s, Stdout)
  {
    var r := if step.RunCallback? then step.callback.reader else step.reader;
    WorkOfReader(s, step, r, if r == Stderr then stderr else stdout);
    assert Work(Next(s, step), Other(r)) == Work(s, Other(r));
  }

  lemma WorkOfReader(s: State, step: Step, r: Reader, lines: seq<string>)
    requires ReaderInv(s, r, lines) && s.pending == Outstanding(s) && Enabled(s, step)
    requires r == if step.RunCallback? then step.callback.reader else step.reader
    ensures Work(Next(s, step), r) + 1 == Work(s, r)
  {
  }

  lemma {:induction false} RunLength(s: State, trace: seq<Step>, stderr: seq<string>, stdout: seq<string>)
    requires Inv(s, stderr, stdout) && IsRun(s, trace)
    ensures Work(Final(s, trace), Stderr) + Work(Final(s, trace), Stdout) + |trace|
         == Work(s, Stderr) + Work(s, Stdout)
    decreases |trace|
  {
    if trace != [] {
      StepKeepsInv(s, trace[0], stderr, stdout);
      StepTakesOneUnit(s, trace[0], stderr, stdout);
      RunLength(Next(s, trace[0]), trace[1..], stderr, stdout);
    }
  }

  /** Whatever the scheduler does, the program stops after six steps a line and
      one more for each reader: a run can be extended exactly until then, and
      then everything has been printed. */
  lemma EveryRunCompletes(stderr: seq<string>, stdout: seq<string>, trace: seq<Step>)
    requires IsRun(Initial(stderr, stdout), trace)
    ensures |trace| <= 6 * (|stderr| + |stdout|) + 2
    ensures var s := Final(Initial(stderr, stdout), trace);
      && (s.Done() <==> |trace| == 6 * (|stderr| + |stdout|) + 2)
      && (s.Done() <==> forall step :: !Enabled(s, step))
  {
    var s0 := Initial(stderr, stdout);
    var s := Final(s0, trace);
    InitialInv(stderr, stdout);
    RunKeepsInv(s0, trace, stderr, stdout);
    RunLength(s0, trace, stderr, stdout);
    if !s.Done() {
      var step := NoDeadlock(s, stderr, stdout);
    } else {
      forall step
        ensures !Enabled(s, step)
      {
        DoneIsFinal(s, step, stderr, stdout);
      }
    }
  }

  lemma DoneIsFinal(s: State, step: Step, stderr: seq<string>, stdout: seq<string>)
    requires Inv(s, stderr, stdout) && s.Done()
    ensures !Enabled(s, step)
  {
  }

  // ----- From the command's bytes to the panel

  function Tokens(lines: seq<ScanLines.Line>): seq<string> {
    if lines == [] then [] else [lines[0].token] + Tokens(lines[1..])
  }

  /** Whatever pieces the two pipes deliver their bytes in and however the
      goroutines are scheduled, the panel ends up merging the lines of both
      streams, and those lines with their terminators are the very bytes. */
  lemma OutputReachesPanel(stderr: seq<string>, stdout: seq<string>, trace: seq<Step>)
    requires var s0 := Initial(Tokens(ScanLines.Scan([], stderr)), Tokens(ScanLines.Scan([], stdout)));
      IsRun(s0, trace) && forall step :: !Enabled(Final(s0, trace), step)
    ensures var (errLines, outLines) := (ScanLines.Scan([], stderr), ScanLines.Scan([], stdout));
      && Interleaving(Final(Initial(Tokens(errLines), Tokens(outLines)), trace).panel,
                      Tokens(errLines), Tokens(outLines))
      && ScanLines.Concat(errLines) == ScanLines.Flatten(stderr)
      && ScanLines.Concat(outLines) == ScanLines.Flatten(stdout)
  {
    var errLines, outLines := ScanLines.Scan([], stderr), ScanLines.Scan([], stdout);
    EveryRunCompletes(Tokens(errLines), Tokens(outLines), trace);
    AllPrintedWhenDone(Tokens(errLines), Tokens(outLines), trace);
    ScanLines.Reassembles([], stderr);
    ScanLines.Reassembles([], stdout);
    assert [] + ScanLines.Flatten(stderr) == ScanLines.Flatten(stderr);
    assert [] + ScanLines.Flatten(stdout) == ScanLines.Flatten(stdout);
  }
}
