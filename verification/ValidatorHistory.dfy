/** When the whole validator accepts, for every run of a new node, whatever arrives too
    late: what was applied to the network last, and how the disk page was passed. */
module ValidatorHistory {
  import opened Wrappers
  import opened Validator
  import opened WizardSteps
  import opened WizardInvariants
  import opened WizardRuns
  import opened WizardHistory
  import opened WipeList
  import NetworkProfiles
  import Strings

  // ----- The network

  /** The network as edited, the one applied last, and the name servers set last. */
  datatype NetworkHistory = NetworkHistory(
    edited: NetworkProfiles.Network, applied: NetworkProfiles.Network, dnsServers: seq<string>)

  /** A network that is applied is stored even if no address comes for it; with one
      from DHCP its address fields are cleared. */
  function AfterEvent(h: NetworkHistory, e: Event): NetworkHistory {
    match e
    case Setup(EditNetwork(n)) => h.(edited := n)
    case Done(NetworkDone(outcome)) =>
      if outcome == Refused || !NetworkProfiles.Supported(h.edited) then h
      else if h.edited.method_ != NetworkProfiles.METHOD_DHCP || outcome == DhcpFailed then h.(applied := h.edited)
      else h.(applied := h.edited, edited := h.edited.(ip := "", subnetMask := "", gateway := "", mtu := 0))
    case Done(DnsDone(servers, ok)) =>
      if ok && servers != "" then h.(dnsServers := Strings.Split(servers, ',')) else h
    case _ => h
  }

  function AfterEvents(h: NetworkHistory, events: seq<Event>): NetworkHistory
    decreases |events|
  {
    if events == [] then h else AfterEvents(AfterEvent(h, events[0]), events[1..])
  }

  function HistoryOf(s: State): NetworkHistory {
    NetworkHistory(s.network, s.config.network, s.config.dnsServers)
  }

  predicate Usable(h: NetworkHistory) {
    && h.applied.interfaces != []
    && (|| h.applied.method_ == NetworkProfiles.METHOD_DHCP
        || (h.applied.method_ == NetworkProfiles.METHOD_STATIC && h.dnsServers != []))
  }

  lemma SetupHistory(m: Machine, s: State, key: SetupKey)
    ensures HistoryOf(SetupStep(m, s, key)) == AfterEvent(HistoryOf(s), Setup(key))
  {
    match key
    case ConfirmPassword(text, encrypted, _, scan) =>
      if encrypted.Some? {
        var t := s.(input := s.input.(passwordConfirm := text));
        ShowingDisks(m, t.(config := t.config.(password := encrypted.value)), scan);
      }
    case _ =>
  }

  lemma NetworkReplyHistory(s: State, outcome: NetworkOutcome)
    ensures HistoryOf(NetworkFinished(s, outcome)) == AfterEvent(HistoryOf(s), Done(NetworkDone(outcome)))
  {
  }

  lemma ReplyHistory(s: State, reply: Reply)
    requires ReplyEnabled(s, reply)
    ensures HistoryOf(ReplyStep(s, reply)) == AfterEvent(HistoryOf(s), Done(reply))
  {
    match reply
    case NetworkDone(outcome) => NetworkReplyHistory(s, outcome);
    case DnsDone(_, _) =>
    case _ =>
  }

  lemma FinalHistory(s: State, key: FinalKey)
    ensures HistoryOf(FinalStep(s, key)) == HistoryOf(s)
  {
  }

  lemma StepHistory(m: Machine, s: State, e: Event)
    requires Inv(m, s) && Enabled(m, s, e)
    ensures HistoryOf(Step(m, s, e)) == AfterEvent(HistoryOf(s), e)
  {
    match e
    case Setup(key) => SetupHistory(m, s, key);
    case Disk(key) => DiskKeyOutcome(m, s, key);
    case Vip(_) =>
    case Final(key) => FinalHistory(s, key);
    case Back(scan) => ShowingDisks(m, s, scan);
    case Done(reply) => ReplyHistory(s, reply);
  }

  lemma {:induction false} RunHistory(m: Machine, s: State, events: seq<Event>)
    requires Inv(m, s) && IsRun(m, s, events)
    ensures HistoryOf(After(m, s, events)) == AfterEvents(HistoryOf(s), events)
    decreases |events|
  {
    if events != [] {
      StepKeepsInv(m, s, events[0]);
      StepHistory(m, s, events[0]);
      RunHistory(m, Step(m, s, events[0]), events[1..]);
    }
  }

  // ----- The disks

  /** How one event changes the verdict: leaving the disk page by a key, which checks
      the sizes, or being carried over it by a reply, which does not. */
  predicate AcceptedBy(m: Machine, s: State, e: Event, before: bool)
    requires Enabled(m, s, e)
  {
    match e
    case Disk(key) =>
      if Place(DiskStep(m, s, key).page) >= 5 then DiskStep(m, s, key).config.forceMbr ==> m.isBios else before
    case Done(reply) =>
      if Place(s.page) < 5 <= Place(ReplyStep(s, reply).page) then DiskChecks(m, s.config).Ok? else before
    case _ => before
  }

  /** Whether the disk page was last passed with choices the validator accepts. */
  predicate DisksAccepted(m: Machine, s0: State, events: seq<Event>)
    requires IsRun(m, s0, events)
    decreases |events|
  {
    events != [] && AcceptedOnce(m, s0, events)
  }

  predicate AcceptedOnce(m: Machine, s0: State, events: seq<Event>)
    requires IsRun(m, s0, events) && events != []
    decreases |events|, 0
  {
    LastStep(m, s0, events);
    var before := events[..|events| - 1];
    AcceptedBy(m, After(m, s0, before), events[|events| - 1], before != [] && AcceptedOnce(m, s0, before))
  }

  predicate Judged(m: Machine, s: State, accepted: bool) {
    Place(s.page) >= 5 ==> (accepted <==> DiskChecks(m, s.config).Ok?)
  }

  predicate SameChoices(s: State, t: State) {
    && t.config.device == s.config.device && t.config.dataDisk == s.config.dataDisk
    && t.config.role == s.config.role && t.config.forceMbr == s.config.forceMbr
  }

  lemma ChoicesDecide(m: Machine, s: State, t: State)
    requires SameChoices(s, t)
    ensures DiskChecks(m, t.config) == DiskChecks(m, s.config)
  {
  }

  lemma SettledChoices(m: Machine, c: Config)
    requires DiskSettled(m, c)
    ensures DiskChecks(m, c).Ok? <==> (c.forceMbr ==> m.isBios)
  {
  }

  lemma DiskJudged(m: Machine, s: State, key: DiskKey, accepted: bool)
    requires Inv(m, s) && DiskEnabled(s, key)
    ensures Judged(m, DiskStep(m, s, key), AcceptedBy(m, s, Disk(key), accepted))
  {
    var t := DiskStep(m, s, key);
    DiskKeyOutcome(m, s, key);
    if Place(t.page) >= 5 {
      SettledChoices(m, t.config);
    }
  }

  lemma ReplyJudged(m: Machine, s: State, reply: Reply, accepted: bool)
    requires Enabled(m, s, Done(reply)) && Judged(m, s, accepted)
    ensures Judged(m, ReplyStep(s, reply), AcceptedBy(m, s, Done(reply), accepted))
  {
    ReplyAnswers(s, reply);
    ChoicesDecide(m, s, ReplyStep(s, reply));
  }

  lemma BehindJudged(m: Machine, s: State, t: State, accepted: bool)
    requires Judged(m, s, accepted) && (Place(t.page) >= 5 ==> Place(s.page) >= 5 && SameChoices(s, t))
    ensures Judged(m, t, accepted)
  {
    if Place(t.page) >= 5 {
      ChoicesDecide(m, s, t);
    }
  }

  lemma ConfirmJudged(m: Machine, s: State, text: string, encrypted: Option<Nonempty>, applied: bool,
                      scan: Option<DiskScan>, accepted: bool)
    requires s.page.PasswordConfirm?
    ensures Judged(m, PasswordConfirmed(m, s, text, encrypted, applied, scan), accepted)
  {
    if encrypted.Some? {
      var t := s.(input := s.input.(passwordConfirm := text));
      ShowingDisks(m, t.(config := t.config.(password := encrypted.value)), scan);
    }
  }

  lemma SetupJudged(m: Machine, s: State, key: SetupKey, accepted: bool)
    requires SetupEnabled(m, s, key) && Judged(m, s, accepted) && !m.alreadyInstalled
    ensures Judged(m, SetupStep(m, s, key), accepted)
  {
    match key
    case ConfirmPassword(text, encrypted, applied, scan) =>
      ConfirmJudged(m, s, text, encrypted, applied, scan, accepted);
    case ChooseMode(mode) => assert Place(ModeChosen(m, s, mode).page) < 5;
    case ChooseRole(role) => assert Place(RoleChosen(m, s, role).page) < 5;
    case EnterPassword(text) => assert Place(PasswordEntered(s, text).page) < 5;
    case _ => BehindJudged(m, s, SetupStep(m, s, key), accepted);
  }

  lemma VipJudged(m: Machine, s: State, key: VipKey, accepted: bool)
    requires VipEnabled(s, key) && Judged(m, s, accepted)
    ensures Judged(m, VipStep(s, key), accepted)
  {
    BehindJudged(m, s, VipStep(s, key), accepted);
  }

  lemma FinalJudged(m: Machine, s: State, key: FinalKey, accepted: bool)
    requires FinalEnabled(s, key) && Judged(m, s, accepted)
    ensures Judged(m, FinalStep(s, key), accepted)
  {
    FinalStaysBehind(s, key);
    BehindJudged(m, s, FinalStep(s, key), accepted);
  }

  lemma EscapeJudged(m: Machine, s: State, scan: Option<DiskScan>, accepted: bool)
    requires CanGoBack(s.page) && Judged(m, s, accepted)
    ensures Judged(m, WentBack(m, s, scan), accepted)
  {
    if ReturnsToDisks(m, s) {
      ShowingDisks(m, s, scan);
    } else {
      EscapeStays(m, s);
      BehindJudged(m, s, WentBack(m, s, scan), accepted);
    }
  }

  lemma StepJudged(m: Machine, s: State, e: Event, accepted: bool)
    requires Inv(m, s) && Enabled(m, s, e) && Judged(m, s, accepted) && !m.alreadyInstalled
    ensures Judged(m, Step(m, s, e), AcceptedBy(m, s, e, accepted))
  {
    match e
    case Setup(key) => SetupJudged(m, s, key, accepted);
    case Disk(key) => DiskJudged(m, s, key, accepted);
    case Vip(key) => VipJudged(m, s, key, accepted);
    case Final(key) => FinalJudged(m, s, key, accepted);
    case Back(scan) => EscapeJudged(m, s, scan, accepted);
    case Done(reply) => ReplyJudged(m, s, reply, accepted);
  }

  lemma {:induction false} RunJudged(m: Machine, s0: State, events: seq<Event>)
    requires IsStart(s0) && IsRun(m, s0, events) && !m.alreadyInstalled
    ensures Judged(m, After(m, s0, events), DisksAccepted(m, s0, events))
    decreases |events|
  {
    if events != [] {
      var before := events[..|events| - 1];
      LastStep(m, s0, events);
      StartsOnCourse(m, s0);
      RunKeepsInv(m, s0, before);
      RunJudged(m, s0, before);
      StepJudged(m, After(m, s0, before), events[|events| - 1], DisksAccepted(m, s0, before));
    }
  }

  // ----- The validator

  /** Clearing a data disk that is the installation disk changes no check. */
  lemma ClearedDataDisk(m: Machine, c: Config, formatted: Nonempty)
    ensures DiskChecks(m, AtInstall(c, formatted)) == DiskChecks(m, c)
  {
  }

  lemma ValidateOfState(m: Machine, s: State, formatted: Nonempty, passes: bool, accepted: bool)
    requires Inv(m, s) && s.page.Install? && Judged(m, s, accepted)
    requires Checked(m, s.config, None, formatted) <==> passes
    ensures ValidateConfig(m, AtInstall(s.config, formatted)).Ok? <==>
      passes && accepted && (s.config.mode == InstallOnly || Usable(HistoryOf(s)))
  {
    ClearedDataDisk(m, s.config, formatted);
  }

  /** For every run of a new node that reaches the install panel, when no remote
      configuration is merged: the validator accepts if and only if `commonCheck` does,
      the disk page was last passed with accepted choices and, outside install mode, the
      network applied last and the name servers set last can be used. */
  lemma ValidatorExactlyWhen(m: Machine, s0: State, events: seq<Event>, formatted: Nonempty)
    requires IsStart(s0) && IsRun(m, s0, events) && After(m, s0, events).page.Install? && !m.alreadyInstalled
    ensures ValidateConfig(m, AtInstall(After(m, s0, events).config, formatted)).Ok? <==>
      && Passes(m, s0.config, events, None)
      && DisksAccepted(m, s0, events)
      && (ModeAfter(events, s0.config.mode) == InstallOnly || Usable(AfterEvents(HistoryOf(s0), events)))
  {
    StartsOnCourse(m, s0);
    RunKeepsInv(m, s0, events);
    RunHistory(m, s0, events);
    RunJudged(m, s0, events);
    ConfigIsItsHistory(m, s0, events);
    CommonCheckExactlyWhen(m, s0, events, None, formatted);
    ValidateOfState(m, After(m, s0, events), formatted, Passes(m, s0.config, events, None),
                    DisksAccepted(m, s0, events));
  }
}
