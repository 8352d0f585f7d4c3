/** Which disks the list of disks to wipe names when the installation starts. */
module WipeList {
  import opened Wrappers
  import opened Validator
  import opened WizardSteps
  import opened WizardInvariants
  import opened WizardRuns

  /** The list names the installation disk or the data disk; a witness has none. */
  predicate NamesChosen(c: Config, list: seq<string>) {
    c.device in list || (c.role != Witness && c.dataDisk != "" && c.dataDisk in list)
  }

  // ----- What the opened list can name

  lemma {:induction false} WithoutHolds(disks: seq<string>, disk: string, x: string)
    ensures x in Without(disks, disk) <==> x in disks && x != disk
  {
    if disks != [] {
      WithoutHolds(disks[1..], disk, x);
      assert disks == [disks[0]] + disks[1..];
    }
  }

  lemma {:induction false} MarkedAreOptions(options: seq<string>, marks: seq<bool>, x: string)
    ensures x in Marked(options, marks) ==> x in options
  {
    if options != [] && marks != [] {
      MarkedAreOptions(options[1..], marks[1..], x);
      assert options == [options[0]] + options[1..];
    }
  }

  /** Worked out again, the marks never stand for a chosen disk. */
  lemma MarkedAreNotChosen(s: State, marks: seq<bool>)
    ensures !NamesChosen(s.config, Marked(WipeOptions(s), marks))
  {
    var options := WipeOptions(s);
    forall x | x == s.config.device || x == s.config.dataDisk
      ensures x !in Marked(options, marks)
    {
      MarkedAreOptions(options, marks, x);
      WithoutHolds(Without(s.disks.wipeable, s.config.device), s.config.dataDisk, x);
      WithoutHolds(s.disks.wipeable, s.config.device, x);
    }
  }

  // ----- What decides, over a run

  /** The state that a key of the disk page hands to the decision whether to offer the
      wipe field, if it gets there. */
  function Handed(m: Machine, s: State, key: DiskKey): Option<State> {
    match key
    case PickDevice(device, _) =>
      var t := s.(config := s.config.(device := device));
      if s.config.role != Witness then None
      else if |s.disks.options| > 1 then Some(t)
      else Some(t.(diskConfirmed := DiskSizesValid(m, t.config)))
    case PickDataDisk(device, dataDisk) =>
      if device == dataDisk then None
      else Some(s.(config := s.config.(dataDisk := dataDisk), diskConfirmed := true))
    case EnterSize(text) =>
      if PersistentSizeVerdict(m, s.config, text) != Valid then None
      else Some(s.(config := s.config.(persistentSize := text), diskConfirmed := true))
    case _ => None
  }

  lemma HandedIsOffered(m: Machine, s: State, key: DiskKey)
    ensures Handed(m, s, key).Some? ==> DiskStep(m, s, key) == WipeIfNeeded(m, Handed(m, s, key).value)
  {
  }

  /** At that moment: the answer can only be what the field last stood for, and
      without a field the list stays. */
  predicate MisnamedAt(s: State) {
    NamesChosen(s.config, if WipeOptions(s) != [] then s.disks.selected else s.config.wipeDisks)
  }

  /** How one event changes the verdict. */
  predicate MisnamedBy(m: Machine, s: State, e: Event, before: bool)
    requires Enabled(m, s, e)
  {
    match e
    case Disk(key) =>
      if Handed(m, s, key).Some? then MisnamedAt(Handed(m, s, key).value)
      else if key.OpenWipe? then false
      else before
    case Done(reply) =>
      if Place(s.page) < 5 <= Place(ReplyStep(s, reply).page) then NamesChosen(s.config, s.config.wipeDisks)
      else before
    case _ => before
  }

  /** Whether the run leaves a chosen disk on the list. The last of these events
      decides: a choice of disks or size that comes to the wipe field, opening the
      field's list, or a late reply that carries the wizard over the disk page, which
      finds the list as it is. */
  predicate Misnamed(m: Machine, s0: State, events: seq<Event>)
    requires IsRun(m, s0, events)
    decreases |events|
  {
    events != [] && MisnamedOnce(m, s0, events)
  }

  predicate MisnamedOnce(m: Machine, s0: State, events: seq<Event>)
    requires IsRun(m, s0, events) && events != []
    decreases |events|, 0
  {
    LastStep(m, s0, events);
    var before := events[..|events| - 1];
    MisnamedBy(m, After(m, s0, before), events[|events| - 1], before != [] && MisnamedOnce(m, s0, before))
  }

  // ----- The verdict holds

  /** On a new node, what the verdict says of the state. */
  predicate Tracked(s: State, misnamed: bool) {
    && (s.page.DiskWipe? ==> (misnamed <==> NamesChosen(s.config, s.disks.selected)))
    && (s.page.DiskWipeList? ==> !misnamed && !NamesChosen(s.config, s.disks.selected))
    && (s.page.DiskMbr? || Place(s.page) >= 5 ==> (misnamed <==> NamesChosen(s.config, s.config.wipeDisks)))
  }

  /** Only the page, the role, the mode and the fields of other pages may differ. */
  predicate SameLists(s: State, t: State) {
    && t.config.device == s.config.device && t.config.dataDisk == s.config.dataDisk
    && t.config.wipeDisks == s.config.wipeDisks && t.config.forceMbr == s.config.forceMbr
    && t.disks.selected == s.disks.selected
  }

  lemma NextKeepsVerdict(m: Machine, s: State)
    requires OnDiskPage(s.page) && !s.page.DiskWipeList?
    ensures var t := GotoNextPage(m, s);
      && t.config.wipeDisks == s.config.wipeDisks && t.disks == s.disks
      && (forall list :: NamesChosen(t.config, list) <==> NamesChosen(s.config, list))
      && (t.page == s.page || t.page.Failed? || t.page.ConfirmInstall? || t.page.NetworkPage?)
  {
  }

  lemma OfferTracked(m: Machine, s: State)
    requires s.page.DiskDevice? || s.page.DiskData? || s.page.DiskSize?
    ensures Tracked(WipeIfNeeded(m, s), MisnamedAt(s))
  {
    if WipeOptions(s) == [] && !m.isBios {
      NextKeepsVerdict(m, s);
    }
  }

  lemma AnswerTracked(m: Machine, s: State, misnamed: bool)
    requires Tracked(s, misnamed) && (s.page.DiskWipe? || s.page.DiskWipeList?)
    ensures Tracked(WipeAnswered(m, s), misnamed)
  {
    if !m.isBios {
      NextKeepsVerdict(m, s.(config := s.config.(wipeDisks := s.disks.selected), page := DiskWipe));
    }
  }

  lemma MbrTracked(m: Machine, s: State, yes: bool, misnamed: bool)
    requires Tracked(s, misnamed) && s.page.DiskMbr?
    ensures Tracked(MbrPicked(m, s, yes), misnamed)
  {
    NextKeepsVerdict(m, s);
  }

  lemma UpTracked(m: Machine, s: State, device: string, dataDisk: string, misnamed: bool)
    requires OnDiskPage(s.page) && !s.page.DiskWipeList?
    ensures Tracked(DiskMovedUp(m, s, device, dataDisk), misnamed)
  {
  }

  predicate OnAField(p: Page) {
    p.DiskDevice? || p.DiskData? || p.DiskSize? || p.Failed?
  }

  lemma SizeNotHanded(m: Machine, s: State, text: string)
    requires s.page.DiskSize? && PersistentSizeVerdict(m, s.config, text) != Valid
    ensures OnAField(SizeEntered(m, s, text).page)
  {
  }

  lemma NotHandedIsUnseen(m: Machine, s: State, key: DiskKey, misnamed: bool)
    requires DiskEnabled(s, key) && (key.PickDevice? || key.PickDataDisk? || key.EnterSize?)
    requires Handed(m, s, key).None?
    ensures OnAField(DiskStep(m, s, key).page)
  {
    match key
    case PickDevice(_, _) =>
    case PickDataDisk(_, _) =>
    case EnterSize(text) => SizeNotHanded(m, s, text);
  }

  lemma FieldTracked(m: Machine, s: State, key: DiskKey, misnamed: bool)
    requires DiskEnabled(s, key) && (key.PickDevice? || key.PickDataDisk? || key.EnterSize?)
    ensures Handed(m, s, key).Some? ==> Tracked(DiskStep(m, s, key), MisnamedAt(Handed(m, s, key).value))
    ensures Handed(m, s, key).None? ==> Tracked(DiskStep(m, s, key), misnamed)
  {
    if Handed(m, s, key).Some? {
      HandedIsOffered(m, s, key);
      OfferTracked(m, Handed(m, s, key).value);
    } else {
      NotHandedIsUnseen(m, s, key, misnamed);
    }
  }

  lemma OpenTracked(s: State)
    requires s.page.DiskWipe?
    ensures Tracked(WipeOpened(s), false)
  {
    MarkedAreNotChosen(s, if s.disks.marks == [] then NoMarks(|WipeOptions(s)|) else s.disks.marks);
  }

  lemma ToggleTracked(s: State, row: nat)
    requires s.page.DiskWipeList?
    ensures Tracked(WipeToggled(s, row), false)
  {
    MarkedAreNotChosen(s, WipeToggled(s, row).disks.marks);
  }

  lemma DiskTracked(m: Machine, s: State, key: DiskKey, misnamed: bool)
    requires Inv(m, s) && DiskEnabled(s, key) && Tracked(s, misnamed)
    ensures Tracked(DiskStep(m, s, key), MisnamedBy(m, s, Disk(key), misnamed))
  {
    match key
    case OpenWipe => OpenTracked(s);
    case ToggleWipe(row) => ToggleTracked(s, row);
    case CloseWipe =>
    case AnswerWipe => AnswerTracked(m, s, misnamed);
    case PickMbr(yes) => MbrTracked(m, s, yes, misnamed);
    case DiskUp(device, dataDisk) => UpTracked(m, s, device, dataDisk, misnamed);
    case _ => FieldTracked(m, s, key, misnamed);
  }

  /** Off the disk page the lists stay; a page behind it comes only from one behind. */
  lemma ElsewhereTracked(s: State, t: State, misnamed: bool)
    requires Tracked(s, misnamed) && SameLists(s, t)
    requires !t.page.DiskWipe? && !t.page.DiskWipeList? && !t.page.DiskMbr?
    requires Place(t.page) >= 5 ==> Place(s.page) >= 5 && t.config.role == s.config.role
    ensures Tracked(t, misnamed)
  {
  }

  lemma ConfirmTracked(m: Machine, s: State, text: string, encrypted: Option<Nonempty>, applied: bool,
                       scan: Option<DiskScan>, misnamed: bool)
    requires s.page.PasswordConfirm?
    ensures Tracked(PasswordConfirmed(m, s, text, encrypted, applied, scan), misnamed)
  {
    if encrypted.Some? {
      var t := s.(input := s.input.(passwordConfirm := text));
      ShowingDisks(m, t.(config := t.config.(password := encrypted.value)), scan);
    }
  }

  lemma SetupTracked(m: Machine, s: State, key: SetupKey, misnamed: bool)
    requires SetupEnabled(m, s, key) && Tracked(s, misnamed) && !m.alreadyInstalled
    ensures Tracked(SetupStep(m, s, key), misnamed)
  {
    match key
    case ConfirmPassword(text, encrypted, applied, scan) =>
      ConfirmTracked(m, s, text, encrypted, applied, scan, misnamed);
    case ChooseMode(mode) =>
      assert Place(ModeChosen(m, s, mode).page) < 5;
    case ChooseRole(role) =>
      assert Place(RoleChosen(m, s, role).page) < 5;
    case EnterPassword(text) =>
      assert Place(PasswordEntered(s, text).page) < 5;
    case _ => ElsewhereTracked(s, SetupStep(m, s, key), misnamed);
  }

  /** A step among the pages behind the disk page. */
  predicate StaysBehind(s: State, t: State) {
    && SameLists(s, t) && t.config.role == s.config.role
    && Place(s.page) >= 5 && (Place(t.page) >= 5 || t.page.Halted?)
  }

  lemma ServerUrlStaysBehind(s: State, text: string, formatted: Option<Nonempty>)
    requires s.page.ServerUrl?
    ensures StaysBehind(s, ServerUrlEntered(s, text, formatted))
  {
  }

  lemma TokenStaysBehind(s: State, text: string)
    requires s.page.TokenPage?
    ensures StaysBehind(s, TokenEntered(s, text))
  {
  }

  lemma NtpStaysBehind(s: State, text: string)
    requires s.page.NtpServers?
    ensures StaysBehind(s, NtpEntered(s, text))
  {
  }

  lemma KeyUrlStaysBehind(s: State, url: string)
    requires s.page.SshKeys?
    ensures StaysBehind(s, KeyUrlEntered(s, url))
  {
  }

  lemma ConfigUrlStaysBehind(s: State, url: string)
    requires s.page.CloudInit?
    ensures StaysBehind(s, ConfigUrlEntered(s, url))
  {
  }

  lemma FinalStaysBehind(s: State, key: FinalKey)
    requires FinalEnabled(s, key)
    ensures StaysBehind(s, FinalStep(s, key))
  {
    match key
    case EnterServerUrl(text, formatted) => ServerUrlStaysBehind(s, text, formatted);
    case EnterToken(text) => TokenStaysBehind(s, text);
    case EnterNtp(text) => NtpStaysBehind(s, text);
    case EnterProxy =>
    case EnterKeyUrl(url) => KeyUrlStaysBehind(s, url);
    case EnterConfigUrl(url) => ConfigUrlStaysBehind(s, url);
    case Confirm(_) =>
  }

  /** A reply keeps the lists and opens a page behind the disk page or none. */
  predicate Answers(s: State, t: State) {
    SameLists(s, t) && t.config.role == s.config.role && (t.page == s.page || Place(t.page) >= 5)
  }

  /** Only the reply to a VIP request can end the wizard. */
  predicate AnswersOrEnds(s: State, t: State, reply: Reply) {
    Answers(s, t) || (reply.VipDone? && SameLists(s, t) && t.page.Failed?)
  }

  lemma NetworkAnswers(s: State, outcome: NetworkOutcome)
    ensures Answers(s, NetworkFinished(s, outcome))
  {
  }

  lemma DnsAnswers(s: State, servers: string, ok: bool)
    ensures Answers(s, DnsFinished(s, servers, ok))
  {
  }

  lemma NtpAnswers(s: State, servers: string, outcome: NtpOutcome)
    ensures Answers(s, NtpFinished(s, servers, outcome))
  {
    var t := NtpFinished(s, servers, outcome);
    assert t.config == s.config && t.disks == s.disks && (t.page.NtpServers? || t.page.Proxy?);
  }

  lemma PingAnswers(s: State, url: Nonempty, ok: bool)
    ensures Answers(s, PingFinished(s, url, ok))
  {
  }

  lemma KeysAnswer(s: State, keys: Option<seq<string>>)
    ensures Answers(s, KeysFinished(s, keys))
  {
  }

  lemma ReplyAnswers(s: State, reply: Reply)
    requires ReplyEnabled(s, reply)
    ensures AnswersOrEnds(s, ReplyStep(s, reply), reply)
  {
    match reply
    case NetworkDone(outcome) => NetworkAnswers(s, outcome);
    case DnsDone(servers, ok) => DnsAnswers(s, servers, ok);
    case NtpDone(servers, outcome) => NtpAnswers(s, servers, outcome);
    case PingDone(url, ok) => PingAnswers(s, url, ok);
    case KeysDone(keys) => KeysAnswer(s, keys);
    case ConfigDone(_) =>
    case VipDone(_) =>
  }

  lemma AnswerKeepsVerdict(s: State, t: State, reply: Reply, misnamed: bool)
    requires Tracked(s, misnamed) && AnswersOrEnds(s, t, reply)
    ensures var carried := Place(s.page) < 5 <= Place(t.page);
      Tracked(t, if carried then NamesChosen(s.config, s.config.wipeDisks) else misnamed)
  {
  }

  lemma ReplyTracked(m: Machine, s: State, reply: Reply, misnamed: bool)
    requires Enabled(m, s, Done(reply)) && Tracked(s, misnamed)
    ensures Tracked(ReplyStep(s, reply), MisnamedBy(m, s, Done(reply), misnamed))
  {
    ReplyAnswers(s, reply);
    AnswerKeepsVerdict(s, ReplyStep(s, reply), reply, misnamed);
  }

  lemma EscapeTracked(m: Machine, s: State, scan: Option<DiskScan>, misnamed: bool)
    requires CanGoBack(s.page) && Tracked(s, misnamed)
    ensures Tracked(WentBack(m, s, scan), misnamed)
  {
    if ReturnsToDisks(m, s) {
      ShowingDisks(m, s, scan);
    } else {
      EscapeStays(m, s);
      ElsewhereTracked(s, WentBack(m, s, scan), misnamed);
    }
  }

  lemma EscapeStays(m: Machine, s: State)
    requires CanGoBack(s.page) && !ReturnsToDisks(m, s)
    ensures !OnDiskPage(PreviousPage(s)) && (Place(PreviousPage(s)) >= 5 ==> Place(s.page) >= 5)
  {
  }

  lemma VipTracked(s: State, key: VipKey, misnamed: bool)
    requires VipEnabled(s, key) && Tracked(s, misnamed)
    ensures Tracked(VipStep(s, key), misnamed)
  {
    ElsewhereTracked(s, VipStep(s, key), misnamed);
  }

  lemma FinalTracked(s: State, key: FinalKey, misnamed: bool)
    requires FinalEnabled(s, key) && Tracked(s, misnamed)
    ensures Tracked(FinalStep(s, key), misnamed)
  {
    FinalStaysBehind(s, key);
    ElsewhereTracked(s, FinalStep(s, key), misnamed);
  }

  lemma StepTracked(m: Machine, s: State, e: Event, misnamed: bool)
    requires Inv(m, s) && Enabled(m, s, e) && Tracked(s, misnamed) && !m.alreadyInstalled
    ensures Tracked(Step(m, s, e), MisnamedBy(m, s, e, misnamed))
  {
    match e
    case Setup(key) => SetupTracked(m, s, key, misnamed);
    case Disk(key) => DiskTracked(m, s, key, misnamed);
    case Vip(key) => VipTracked(s, key, misnamed);
    case Final(key) => FinalTracked(s, key, misnamed);
    case Back(scan) => EscapeTracked(m, s, scan, misnamed);
    case Done(reply) => ReplyTracked(m, s, reply, misnamed);
  }

  lemma {:induction false} RunTracked(m: Machine, s0: State, events: seq<Event>)
    requires IsStart(s0) && IsRun(m, s0, events) && !m.alreadyInstalled
    ensures Tracked(After(m, s0, events), Misnamed(m, s0, events))
    decreases |events|
  {
    if events != [] {
      var before := events[..|events| - 1];
      LastStep(m, s0, events);
      StartsOnCourse(m, s0);
      RunKeepsInv(m, s0, before);
      RunTracked(m, s0, before);
      StepTracked(m, After(m, s0, before), events[|events| - 1], Misnamed(m, s0, before));
    }
  }

  /** In every run of a new node the list names a chosen disk when the installation
      starts if and only if the last event that decides left it so. */
  lemma WipeListAtTheEnd(m: Machine, s0: State, events: seq<Event>, formatted: Nonempty)
    requires IsStart(s0) && IsRun(m, s0, events) && After(m, s0, events).page.Install? && !m.alreadyInstalled
    ensures var c := AtInstall(After(m, s0, events).config, formatted);
      NamesChosen(c, c.wipeDisks) <==> Misnamed(m, s0, events)
  {
    RunTracked(m, s0, events);
    TrackedAtTheEnd(After(m, s0, events), Misnamed(m, s0, events), formatted);
  }

  lemma TrackedAtTheEnd(s: State, misnamed: bool, formatted: Nonempty)
    requires Tracked(s, misnamed) && s.page.Install?
    ensures var c := AtInstall(s.config, formatted);
      NamesChosen(c, c.wipeDisks) <==> misnamed
  {
  }
}
