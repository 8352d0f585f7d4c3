/** When the wizard's main loop ends with an error or a panic, in runs where disks can
    be read and passwords set. */
module WizardFailures {
  import opened Wrappers
  import opened Validator
  import opened WizardSteps
  import opened WizardRuns
  import opened WipeList
  import opened WipeMarks

  // ----- Readings that succeed

  /** The size can be read, as a signed number too. */
  predicate Readable(m: Machine, disk: string) {
    disk in m.sizes && m.sizes[disk] < 0x8000_0000_0000_0000
  }

  predicate ScanSucceeds(m: Machine, scan: Option<DiskScan>) {
    scan.Some? && forall disk <- scan.value.options :: Readable(m, disk)
  }

  /** The scan, the encryption and the size readings an event needs succeed. */
  predicate Succeeds(m: Machine, e: Event) {
    match e
    case Setup(ConfirmPassword(_, encrypted, applied, scan)) => encrypted.Some? && applied && ScanSucceeds(m, scan)
    case Back(scan) => ScanSucceeds(m, scan)
    case Disk(PickDevice(device, _)) => Readable(m, device)
    case _ => true
  }

  /** On the fields of the disk page a readable disk is chosen. */
  predicate ChosenReadable(m: Machine, s: State) {
    && (s.config.device == "" || Readable(m, s.config.device))
    && (OnDiskPage(s.page) && !s.page.DiskFatal? ==> Readable(m, s.config.device))
  }

  // ----- What fails nevertheless

  /** A VIP request that succeeds when its fields are closed, or opening a list of the
      wipe field that has grown. */
  predicate Fails(s: State, e: Event, remembered: nat) {
    || (e == Done(VipDone(true)) && !s.hwAddrOpen)
    || (e == Disk(OpenWipe) && 0 < remembered < |WipeOptions(s)|)
  }

  /** The step neither reads nor fails where it should not. */
  predicate Goes(m: Machine, t: State) {
    ChosenReadable(m, t) && !t.page.Failed?
  }

  lemma ShowingGoes(m: Machine, s: State, scan: Option<DiskScan>)
    requires ChosenReadable(m, s) && ScanSucceeds(m, scan)
    ensures Goes(m, ShowDiskPage(m, s, scan))
  {
    var options := scan.value.options;
    if options != [] {
      assert Readable(m, options[0]);
    }
  }

  lemma NextGoes(m: Machine, s: State)
    requires OnDiskPage(s.page) && Readable(m, s.config.device)
    ensures Goes(m, GotoNextPage(m, s)) && GotoNextPage(m, s).config.device == s.config.device
  {
  }

  lemma OfferGoes(m: Machine, s: State)
    requires OnDiskPage(s.page) && Readable(m, s.config.device)
    ensures Goes(m, WipeIfNeeded(m, s))
  {
    if WipeOptions(s) == [] && !m.isBios {
      NextGoes(m, s);
    }
  }

  lemma SizeGoes(m: Machine, s: State, focus: Page)
    requires Readable(m, s.config.device) && !focus.Failed?
    ensures Goes(m, ShowSize(m, s, focus))
  {
  }

  lemma DeviceGoes(m: Machine, s: State, device: string, dataDisk: string)
    requires s.page.DiskDevice? && Readable(m, device)
    ensures Goes(m, DevicePicked(m, s, device, dataDisk))
  {
    var t := s.(config := s.config.(device := device));
    if s.config.role == Witness {
      OfferGoes(m, if |s.disks.options| > 1 then t else t.(diskConfirmed := DiskSizesValid(m, t.config)));
    } else {
      SizeGoes(m, t, if |s.disks.options| > 1 then DiskData else DiskSize);
    }
  }

  lemma DataDiskGoes(m: Machine, s: State, device: string, dataDisk: string)
    requires s.page.DiskData? && ChosenReadable(m, s)
    ensures Goes(m, DataDiskPicked(m, s, device, dataDisk))
  {
    var t := s.(config := s.config.(dataDisk := dataDisk));
    SizeGoes(m, t, DiskSize);
    OfferGoes(m, t.(diskConfirmed := true));
  }

  lemma EnteredGoes(m: Machine, s: State, text: string)
    requires s.page.DiskSize? && ChosenReadable(m, s)
    ensures Goes(m, SizeEntered(m, s, text))
  {
    OfferGoes(m, s.(config := s.config.(persistentSize := text), diskConfirmed := true));
  }

  lemma AnswerGoes(m: Machine, s: State)
    requires (s.page.DiskWipe? || s.page.DiskWipeList?) && ChosenReadable(m, s)
    ensures Goes(m, WipeAnswered(m, s))
  {
    NextGoes(m, s.(config := s.config.(wipeDisks := s.disks.selected), page := DiskWipe));
  }

  lemma MbrGoes(m: Machine, s: State, yes: bool)
    requires s.page.DiskMbr? && ChosenReadable(m, s)
    ensures Goes(m, MbrPicked(m, s, yes))
  {
    NextGoes(m, s);
  }

  lemma UpGoes(m: Machine, s: State, device: string, dataDisk: string)
    requires OnDiskPage(s.page) && !s.page.DiskFatal? && ChosenReadable(m, s)
    ensures Goes(m, DiskMovedUp(m, s, device, dataDisk))
  {
    SizeGoes(m, s.(diskConfirmed := s.diskConfirmed && s.page.DiskDevice?), DiskSize);
  }

  lemma DiskGoes(m: Machine, s: State, key: DiskKey)
    requires DiskEnabled(s, key) && ChosenReadable(m, s) && Succeeds(m, Disk(key)) && !key.OpenWipe?
    ensures Goes(m, DiskStep(m, s, key))
  {
    match key
    case PickDevice(device, dataDisk) => DeviceGoes(m, s, device, dataDisk);
    case PickDataDisk(device, dataDisk) => DataDiskGoes(m, s, device, dataDisk);
    case EnterSize(text) => EnteredGoes(m, s, text);
    case ToggleWipe(_) =>
    case CloseWipe =>
    case AnswerWipe => AnswerGoes(m, s);
    case PickMbr(yes) => MbrGoes(m, s, yes);
    case DiskUp(device, dataDisk) => UpGoes(m, s, device, dataDisk);
  }

  lemma SetupGoes(m: Machine, s: State, key: SetupKey)
    requires SetupEnabled(m, s, key) && ChosenReadable(m, s) && Succeeds(m, Setup(key))
    ensures Goes(m, SetupStep(m, s, key))
  {
    match key
    case ConfirmPassword(text, encrypted, _, scan) =>
      var t := s.(input := s.input.(passwordConfirm := text));
      ShowingGoes(m, t.(config := t.config.(password := encrypted.value)), scan);
    case ChooseMode(_) =>
    case _ =>
  }

  lemma FinalGoes(m: Machine, s: State, key: FinalKey)
    requires FinalEnabled(s, key) && ChosenReadable(m, s)
    ensures Goes(m, FinalStep(s, key))
  {
    FinalStaysBehind(s, key);
    BehindGoes(m, s, FinalStep(s, key));
  }

  lemma BehindGoes(m: Machine, s: State, t: State)
    requires ChosenReadable(m, s) && StaysBehind(s, t)
    ensures Goes(m, t)
  {
  }

  lemma VipGoes(m: Machine, s: State, key: VipKey)
    requires VipEnabled(s, key) && ChosenReadable(m, s)
    ensures Goes(m, VipStep(s, key))
  {
  }

  lemma BackGoes(m: Machine, s: State, scan: Option<DiskScan>)
    requires CanGoBack(s.page) && ChosenReadable(m, s) && ScanSucceeds(m, scan)
    ensures Goes(m, WentBack(m, s, scan))
  {
    if ReturnsToDisks(m, s) {
      ShowingGoes(m, s, scan);
    } else {
      EscapeStays(m, s);
    }
  }

  lemma AnsweredGoes(m: Machine, s: State, reply: Reply)
    requires Enabled(m, s, Done(reply)) && ChosenReadable(m, s) && !reply.VipDone?
    ensures Goes(m, ReplyStep(s, reply))
  {
    ReplyAnswers(s, reply);
    AnswerGoesOn(m, s, ReplyStep(s, reply));
  }

  lemma AnswerGoesOn(m: Machine, s: State, t: State)
    requires ChosenReadable(m, s) && !s.page.Failed? && Answers(s, t)
    ensures Goes(m, t)
  {
  }

  lemma VipReplyFails(m: Machine, s: State, ok: bool)
    requires s.vipRequests > 0 && !s.page.Failed? && ChosenReadable(m, s)
    ensures var t := VipFinished(s, ok); ChosenReadable(m, t) && (t.page.Failed? <==> ok && !s.hwAddrOpen)
  {
  }

  lemma StepFails(m: Machine, s: State, e: Event)
    requires Enabled(m, s, e) && ChosenReadable(m, s) && Succeeds(m, e)
    ensures ChosenReadable(m, Step(m, s, e))
    ensures Step(m, s, e).page.Failed? <==> Fails(s, e, |s.disks.marks|)
  {
    match e
    case Setup(key) => SetupGoes(m, s, key);
    case Disk(key) =>
      if !key.OpenWipe? {
        DiskGoes(m, s, key);
      }
    case Vip(key) => VipGoes(m, s, key);
    case Final(key) => FinalGoes(m, s, key);
    case Back(scan) => BackGoes(m, s, scan);
    case Done(reply) =>
      if reply.VipDone? {
        VipReplyFails(m, s, reply.ok);
      } else {
        AnsweredGoes(m, s, reply);
      }
  }

  lemma {:induction false} RunStaysReadable(m: Machine, s0: State, events: seq<Event>)
    requires IsRun(m, s0, events) && ChosenReadable(m, s0)
    requires forall i :: 0 <= i < |events| ==> Succeeds(m, events[i])
    ensures ChosenReadable(m, After(m, s0, events))
    decreases |events|
  {
    if events != [] {
      assert Succeeds(m, events[0]);
      StepFails(m, s0, events[0]);
      RunStaysReadable(m, Step(m, s0, events[0]), events[1..]);
    }
  }

  /** The run's last event is one that fails. */
  predicate EndsInFailure(m: Machine, s0: State, events: seq<Event>)
    requires IsRun(m, s0, events)
  {
    && events != []
    && var before := events[..|events| - 1];
       LastStep(m, s0, events);
       Fails(After(m, s0, before), events[|events| - 1], Remembered(m, s0, before))
  }

  /** With disks that can be read and passwords that can be set, the wizard fails if and
      only if a VIP request succeeds after its fields were closed, or a list of the wipe
      field is opened that has grown. Nothing follows then. */
  lemma FailsExactlyWhen(m: Machine, s0: State, events: seq<Event>)
    requires IsStart(s0) && IsRun(m, s0, events)
    requires s0.config.device == "" || Readable(m, s0.config.device)
    requires forall i :: 0 <= i < |events| ==> Succeeds(m, events[i])
    ensures After(m, s0, events).page.Failed? <==> EndsInFailure(m, s0, events)
    ensures After(m, s0, events).page.Failed? ==> forall e :: !Enabled(m, After(m, s0, events), e)
  {
    NothingFollows(m, After(m, s0, events));
    if events != [] {
      var before, e := events[..|events| - 1], events[|events| - 1];
      LastStep(m, s0, events);
      RunStaysReadable(m, s0, before);
      MarksAreRemembered(m, s0, before);
      StepFails(m, After(m, s0, before), e);
    }
  }

  lemma NothingFollows(m: Machine, s: State)
    ensures s.page.Failed? ==> forall e :: !Enabled(m, s, e)
  {
  }
}
