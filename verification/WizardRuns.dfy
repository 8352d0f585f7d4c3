/** Whole runs of the wizard, and what the final validator says of the settled pages
    at their end. */
module WizardRuns {
  import opened Wrappers
  import opened Validator
  import opened WizardSteps
  import opened WizardInvariants
  import opened PartitionSize

  // ----- Runs

  /** A run in which every VIP request that fails finds the wizard able to take
      it. */
  predicate OnlyHarmless(m: Machine, s: State, events: seq<Event>)
    requires IsRun(m, s, events)
    decreases |events|
  {
    events == [] || (!Harmful(m, s, events[0]) && OnlyHarmless(m, Step(m, s, events[0]), events[1..]))
  }

  /** The wizard is on course after every event of the run. */
  ghost predicate StaysOnCourse(m: Machine, s: State, events: seq<Event>)
    requires IsRun(m, s, events)
    decreases |events|
  {
    OnCourse(m, s) && (events == [] || StaysOnCourse(m, Step(m, s, events[0]), events[1..]))
  }

  lemma StartsOnCourse(m: Machine, s: State)
    requires IsStart(s)
    ensures Inv(m, s) && OnCourse(m, s)
  {
  }

  lemma {:induction false} RunKeepsInv(m: Machine, s: State, events: seq<Event>)
    requires Inv(m, s) && IsRun(m, s, events)
    ensures Inv(m, After(m, s, events))
    decreases |events|
  {
    if events != [] {
      StepKeepsInv(m, s, events[0]);
      RunKeepsInv(m, Step(m, s, events[0]), events[1..]);
    }
  }

  lemma {:induction false} RunKeepsCourse(m: Machine, s: State, events: seq<Event>)
    requires Inv(m, s) && OnCourse(m, s) && IsRun(m, s, events) && OnlyHarmless(m, s, events)
    ensures Inv(m, After(m, s, events)) && OnCourse(m, After(m, s, events))
    ensures StaysOnCourse(m, s, events)
    decreases |events|
  {
    if events != [] {
      StepKeepsInv(m, s, events[0]);
      StepKeepsCourse(m, s, events[0]);
      RunKeepsCourse(m, Step(m, s, events[0]), events[1..]);
    }
  }

  lemma {:induction false} OffCourseAtTheFailure(m: Machine, s: State, events: seq<Event>)
    requires Inv(m, s) && IsRun(m, s, events) && StaysOnCourse(m, s, events)
    ensures OnlyHarmless(m, s, events)
    decreases |events|
  {
    if events != [] {
      var e := events[0];
      StepKeepsInv(m, s, e);
      if e == Done(VipDone(false)) {
        HarmfulFailure(m, s);
      }
      OffCourseAtTheFailure(m, Step(m, s, e), events[1..]);
    }
  }

  /** A run stays on course if and only if no VIP request fails at a moment when
      the wizard cannot take it. */
  lemma OnCourseExactlyWhen(m: Machine, s0: State, events: seq<Event>)
    requires IsStart(s0) && IsRun(m, s0, events)
    ensures StaysOnCourse(m, s0, events) <==> OnlyHarmless(m, s0, events)
  {
    StartsOnCourse(m, s0);
    if OnlyHarmless(m, s0, events) {
      RunKeepsCourse(m, s0, events);
    } else if StaysOnCourse(m, s0, events) {
      OffCourseAtTheFailure(m, s0, events);
    }
  }

  // ----- One more event

  ghost predicate Reaches(m: Machine, s: State, t: State) {
    exists events: seq<Event> :: IsRun(m, s, events) && After(m, s, events) == t
  }

  lemma {:induction false} OneMore(m: Machine, s: State, events: seq<Event>, e: Event)
    requires IsRun(m, s, events) && Enabled(m, After(m, s, events), e)
    ensures IsRun(m, s, events + [e])
    ensures After(m, s, events + [e]) == Step(m, After(m, s, events), e)
    decreases |events|
  {
    if events == [] {
      assert ([] + [e])[1..] == [];
    } else {
      assert (events + [e])[1..] == events[1..] + [e];
      OneMore(m, Step(m, s, events[0]), events[1..], e);
    }
  }

  lemma Extend(m: Machine, s: State, t: State, e: Event) returns (u: State)
    requires Reaches(m, s, t) && Enabled(m, t, e)
    ensures u == Step(m, t, e) && Reaches(m, s, u)
  {
    var events: seq<Event> :| IsRun(m, s, events) && After(m, s, events) == t;
    OneMore(m, s, events, e);
    u := Step(m, t, e);
  }

  /** A run is a shorter one and its last event. */
  lemma {:induction false} LastStep(m: Machine, s: State, events: seq<Event>)
    requires IsRun(m, s, events) && events != []
    ensures var n := |events| - 1;
      && IsRun(m, s, events[..n]) && Enabled(m, After(m, s, events[..n]), events[n])
      && After(m, s, events) == Step(m, After(m, s, events[..n]), events[n])
    decreases |events|
  {
    var n := |events| - 1;
    if n > 0 {
      LastStep(m, Step(m, s, events[0]), events[1..]);
      assert events[1..][..n - 1] == events[..n][1..] && events[..n][0] == events[0];
    }
  }

  /** Every prefix of a run is a run, and the next event is enabled after it. */
  lemma {:induction false} PrefixOfRun(m: Machine, s: State, events: seq<Event>, i: nat)
    requires IsRun(m, s, events) && i < |events|
    ensures IsRun(m, s, events[..i]) && Enabled(m, After(m, s, events[..i]), events[i])
    decreases |events|
  {
    if i > 0 {
      PrefixOfRun(m, Step(m, s, events[0]), events[1..], i - 1);
      assert events[..i][0] == events[0] && events[..i][1..] == events[1..][..i - 1];
    }
  }

  // ----- The end of a run

  /** The configuration the install panel validates, made from the wizard's or from
      what a merge leaves of it: the address formatted again, and the data disk cleared
      if it is the installation disk. */
  function AtInstall(c: Config, formatted: Nonempty): Config {
    c.(serverUrl := if c.serverUrl == "" then "" else formatted,
       dataDisk := if c.dataDisk == c.device then "" else c.dataDisk)
  }

  predicate Complete(m: Machine, c: Config) {
    && CommonCheck(m, c) == Ok(())
    && c.password != ""
    && (c.mode.Create? ==> c.serverUrl == "")
    && (c.mode.Join? ==> c.serverUrl != "")
    && (!c.mode.InstallOnly? ==> ValidToken(c.token))
  }

  lemma CompleteOnCourse(m: Machine, s: State, formatted: Nonempty)
    requires Inv(m, s) && OnCourse(m, s) && s.page.Install?
    requires !m.alreadyInstalled && !m.automatic && m.pathsAllowed
    ensures Complete(m, AtInstall(s.config, formatted))
  {
  }

  lemma ValidatorOnCourse(m: Machine, s: State, formatted: Nonempty)
    requires Inv(m, s) && OnCourse(m, s) && s.page.Install? && !m.alreadyInstalled
    ensures var c := AtInstall(s.config, formatted);
      ValidateConfig(m, c).Ok? <==> CommonCheck(m, c).Ok? && (c.forceMbr ==> m.isBios)
  {
    DisksAtTheEnd(m, s.config, formatted);
    if !s.installModeOnly {
      NetworkAtTheEnd(m, s, formatted);
    }
  }

  /** An interactive run on course, on a new node, passes. */
  lemma InteractiveRunPasses(m: Machine, s0: State, events: seq<Event>, formatted: Nonempty)
    requires IsStart(s0) && IsRun(m, s0, events) && OnlyHarmless(m, s0, events)
    requires After(m, s0, events).page.Install?
    requires !m.alreadyInstalled && !m.automatic && m.pathsAllowed
    ensures Complete(m, AtInstall(After(m, s0, events).config, formatted))
  {
    StartsOnCourse(m, s0);
    RunKeepsCourse(m, s0, events);
    CompleteOnCourse(m, After(m, s0, events), formatted);
  }

  /** The whole validator, for a new node: after a run on course it accepts exactly
      when `commonCheck` does and the MBR scheme, which the page only asks about
      on BIOS machines, was not preset on another one. */
  lemma ValidatorAtTheEnd(m: Machine, s0: State, events: seq<Event>, formatted: Nonempty)
    requires IsStart(s0) && IsRun(m, s0, events) && OnlyHarmless(m, s0, events)
    requires After(m, s0, events).page.Install? && !m.alreadyInstalled
    ensures var c := AtInstall(After(m, s0, events).config, formatted);
      ValidateConfig(m, c).Ok? <==> CommonCheck(m, c).Ok? && (c.forceMbr ==> m.isBios)
  {
    StartsOnCourse(m, s0);
    RunKeepsCourse(m, s0, events);
    ValidatorOnCourse(m, After(m, s0, events), formatted);
  }

  lemma DisksAtTheEnd(m: Machine, c: Config, formatted: Nonempty)
    requires DiskSettled(m, c)
    ensures DiskChecks(m, AtInstall(c, formatted)).Ok? <==> (c.forceMbr ==> m.isBios)
  {
  }

  lemma NetworkAtTheEnd(m: Machine, s: State, formatted: Nonempty)
    requires Inv(m, s) && OnCourse(m, s) && s.page.Install? && !s.installModeOnly
    ensures CheckNetworks(s.config.network, s.config.dnsServers).Ok? && ValidToken(s.config.token)
  {
  }

  // ----- The disks at the end

  /** Any key that leaves the disk page forwards leaves it with choices the
      validator's size branches accept, and on a BIOS machine with the MBR scheme
      only on a disk that can hold it. */
  lemma DisksLeftSettled(m: Machine, s0: State, events: seq<Event>, key: DiskKey)
    requires IsStart(s0) && IsRun(m, s0, events) && DiskEnabled(After(m, s0, events), key)
    ensures var t := DiskStep(m, After(m, s0, events), key);
      OnDiskPage(t.page) || t.page.Failed?
      || (&& (t.page.NetworkPage? || t.page.ConfirmInstall?)
          && CheckDeviceSizes(m, t.config).Ok?
          && (m.isBios && t.config.forceMbr ==> CheckForceMbr(m, t.config.device).Ok?))
  {
    StartsOnCourse(m, s0);
    RunKeepsInv(m, s0, events);
    var s := After(m, s0, events);
    DiskKeyOutcome(m, s, key);
  }

  /** When the installer later lays out the partitions of a disk shared with VM
      data, the chosen size fits if and only if it leaves room below the last
      whole GiB of the disk, and then so does the whole layout. */
  lemma SharedLayoutAtTheEnd(m: Machine, s0: State, events: seq<Event>, formatted: Nonempty)
    requires IsStart(s0) && IsRun(m, s0, events) && OnlyHarmless(m, s0, events)
    requires After(m, s0, events).page.Install? && !m.alreadyInstalled && !m.skipChecks
    requires SharesItsDisk(AtInstall(After(m, s0, events).config, formatted))
    ensures LayoutFits(m, AtInstall(After(m, s0, events).config, formatted))
  {
    StartsOnCourse(m, s0);
    RunKeepsCourse(m, s0, events);
    SharedLayoutOnCourse(m, After(m, s0, events), formatted);
  }

  predicate SharesItsDisk(c: Config) {
    c.role != Witness && c.dataDisk == ""
  }

  predicate LayoutFits(m: Machine, c: Config) {
    c.device in m.sizes && LayoutMatches(m.sizes[c.device], c.persistentSize)
  }

  predicate LayoutMatches(diskBytes: Uint64, text: string) {
    var exact := ParsePartitionSize(diskBytes, text, false);
    var layout := SharedDiskLayout(diskBytes, text, false);
    && exact.Ok?
    && (layout.Ok? <==> exact.value + FIXED_OCCUPIED <= diskBytes - diskBytes % GIB)
    && (layout.Ok? ==> layout.value.persistent == ByteToMi(exact.value) && layout.value.Occupied() * MIB <= diskBytes)
  }

  lemma SharedLayoutOnCourse(m: Machine, s: State, formatted: Nonempty)
    requires OnCourse(m, s) && s.page.Install? && !m.alreadyInstalled && !m.skipChecks
    requires SharesItsDisk(AtInstall(s.config, formatted))
    ensures LayoutFits(m, AtInstall(s.config, formatted))
  {
    SizeSettled(m, s.config);
    LayoutOfAcceptedSize(m.sizes[s.config.device], s.config.persistentSize);
  }

  lemma SizeSettled(m: Machine, c: Config)
    requires DiskSettled(m, c) && !m.skipChecks && c.role != Witness && (c.dataDisk == "" || c.dataDisk == c.device)
    ensures c.device in m.sizes && ParsePartitionSize(m.sizes[c.device], c.persistentSize, false).Ok?
  {
  }

  lemma LayoutOfAcceptedSize(diskBytes: Uint64, text: string)
    requires ParsePartitionSize(diskBytes, text, false).Ok?
    ensures LayoutMatches(diskBytes, text)
  {
    EmptySizeIsRefused(diskBytes);
    WizardAgainstLayout(diskBytes, text);
    if SharedDiskLayout(diskBytes, text, false).Ok? {
      AcceptedLayoutFits(diskBytes, text);
    }
  }

  lemma EmptySizeIsRefused(diskBytes: Uint64)
    ensures ParsePartitionSize(diskBytes, "", false).Err?
  {
  }

  /** In no run is the data disk field reached without disks to offer: an empty cache,
      for which listing them would panic, never gets there. */
  lemma DataDiskFieldHasDisks(m: Machine, s0: State, events: seq<Event>)
    requires IsStart(s0) && IsRun(m, s0, events) && After(m, s0, events).page.DiskData?
    ensures |After(m, s0, events).disks.options| > 1
  {
    StartsOnCourse(m, s0);
    RunKeepsInv(m, s0, events);
  }
}
