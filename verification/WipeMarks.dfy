/** When opening the list of the wipe field panics: what its marks remember of the
    lists before. */
module WipeMarks {
  import opened Wrappers
  import opened Validator
  import opened WizardSteps
  import opened WizardRuns
  import opened WipeList

  /** The list of disks to wipe named a chosen one, so the field is reset. */
  predicate Resets(t: State) {
    WipeOptions(t) != [] && (t.config.device in t.config.wipeDisks || t.config.dataDisk in t.config.wipeDisks)
  }

  /** How one event changes the number of marks. */
  function RememberedBy(m: Machine, s: State, e: Event, before: nat): nat
    requires Enabled(m, s, e)
  {
    match e
    case Disk(key) =>
      if Handed(m, s, key).Some? then (if Resets(Handed(m, s, key).value) then 0 else before)
      else if key.OpenWipe? && before == 0 then |WipeOptions(s)|
      else before
    case _ => before
  }

  /** How many disks the list had when it was opened for the first time since the
      field was last reset; 0 if it has not been. */
  function Remembered(m: Machine, s0: State, events: seq<Event>): nat
    requires IsRun(m, s0, events)
    decreases |events|
  {
    if events == [] then 0
    else
      LastStep(m, s0, events);
      var before := events[..|events| - 1];
      RememberedBy(m, After(m, s0, before), events[|events| - 1], Remembered(m, s0, before))
  }

  lemma NextKeepsMarks(m: Machine, s: State)
    ensures GotoNextPage(m, s).disks == s.disks
  {
  }

  lemma OfferKeepsMarks(m: Machine, t: State)
    ensures WipeIfNeeded(m, t).disks.marks == if Resets(t) then [] else t.disks.marks
  {
    NextKeepsMarks(m, t);
  }

  lemma FieldKeepsMarks(m: Machine, s: State, key: DiskKey)
    requires Handed(m, s, key).None? && (key.PickDevice? || key.PickDataDisk? || key.EnterSize?)
    ensures DiskStep(m, s, key).disks.marks == s.disks.marks
  {
    match key
    case PickDevice(_, _) =>
    case PickDataDisk(_, _) =>
    case EnterSize(_) =>
  }

  lemma OpeningMarks(s: State)
    ensures |WipeOpened(s).disks.marks| == if s.disks.marks == [] then |WipeOptions(s)| else |s.disks.marks|
  {
  }

  lemma AnswerKeepsMarks(m: Machine, s: State)
    ensures WipeAnswered(m, s).disks == s.disks
  {
    NextKeepsMarks(m, s.(config := s.config.(wipeDisks := s.disks.selected), page := DiskWipe));
  }

  lemma DiskKeyMarks(m: Machine, s: State, key: DiskKey)
    requires DiskEnabled(s, key)
    ensures |DiskStep(m, s, key).disks.marks| == RememberedBy(m, s, Disk(key), |s.disks.marks|)
  {
    if Handed(m, s, key).Some? {
      HandedIsOffered(m, s, key);
      OfferKeepsMarks(m, Handed(m, s, key).value);
      HandedMarks(m, s, key);
    } else {
      match key
      case OpenWipe => OpeningMarks(s);
      case ToggleWipe(_) =>
      case CloseWipe =>
      case AnswerWipe => AnswerKeepsMarks(m, s);
      case PickMbr(_) => NextKeepsMarks(m, s);
      case DiskUp(_, _) =>
      case _ => FieldKeepsMarks(m, s, key);
    }
  }

  lemma HandedMarks(m: Machine, s: State, key: DiskKey)
    requires Handed(m, s, key).Some?
    ensures Handed(m, s, key).value.disks == s.disks
  {
  }

  lemma ShowingKeepsMarks(m: Machine, s: State, scan: Option<DiskScan>)
    ensures ShowDiskPage(m, s, scan).disks.marks == s.disks.marks
  {
  }

  lemma SetupKeepsMarks(m: Machine, s: State, key: SetupKey)
    ensures SetupStep(m, s, key).disks.marks == s.disks.marks
  {
    match key
    case ConfirmPassword(text, encrypted, _, scan) =>
      if encrypted.Some? {
        var t := s.(input := s.input.(passwordConfirm := text));
        ShowingKeepsMarks(m, t.(config := t.config.(password := encrypted.value)), scan);
      }
    case _ =>
  }

  lemma ReplyKeepsMarks(s: State, reply: Reply)
    requires ReplyEnabled(s, reply)
    ensures ReplyStep(s, reply).disks == s.disks
  {
  }

  lemma FinalKeepsMarks(s: State, key: FinalKey)
    ensures FinalStep(s, key).disks == s.disks
  {
  }

  lemma StepMarks(m: Machine, s: State, e: Event)
    requires Enabled(m, s, e)
    ensures |Step(m, s, e).disks.marks| == RememberedBy(m, s, e, |s.disks.marks|)
  {
    match e
    case Setup(key) => SetupKeepsMarks(m, s, key);
    case Disk(key) => DiskKeyMarks(m, s, key);
    case Vip(key) =>
    case Final(key) => FinalKeepsMarks(s, key);
    case Back(scan) => ShowingKeepsMarks(m, s, scan);
    case Done(reply) => ReplyKeepsMarks(s, reply);
  }

  lemma {:induction false} MarksAreRemembered(m: Machine, s0: State, events: seq<Event>)
    requires IsStart(s0) && IsRun(m, s0, events)
    ensures |After(m, s0, events).disks.marks| == Remembered(m, s0, events)
    decreases |events|
  {
    if events != [] {
      var before := events[..|events| - 1];
      LastStep(m, s0, events);
      MarksAreRemembered(m, s0, before);
      StepMarks(m, After(m, s0, before), events[|events| - 1]);
    }
  }

  /** In every run: opening the list panics if and only if it has more disks now than
      when it was opened first since the field was last reset. */
  lemma OpeningPanicsExactlyWhen(m: Machine, s0: State, events: seq<Event>)
    requires IsStart(s0) && IsRun(m, s0, events) && After(m, s0, events).page.DiskWipe?
    ensures var s := After(m, s0, events);
      Step(m, s, Disk(OpenWipe)).page.Failed? <==> 0 < Remembered(m, s0, events) < |WipeOptions(s)|
  {
    MarksAreRemembered(m, s0, events);
  }
}
