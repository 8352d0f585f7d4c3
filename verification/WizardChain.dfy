/** The pages of each mode form a chain: no step skips one, Escape goes back one,
    and a run that gets to a page has been on every page before it. */
module WizardChain {
  import opened Wrappers
  import opened Validator
  import opened WizardSteps
  import opened WizardInvariants

  /** A VIP request that fails after its page was left. */
  predicate TooLate(s: State, e: Event) {
    e == Done(VipDone(false)) && !OnVipPage(s.page)
  }

  lemma PunctualIsHarmless(m: Machine, s: State, e: Event)
    requires Inv(m, s) && OnCourse(m, s) && !TooLate(s, e)
    ensures !Harmful(m, s, e)
  {
    SettledOnVipPage(m, s);
  }

  /** The place after a place in the chain of a mode. */
  function NextPlace(m: Machine, mode: Mode, place: nat): nat {
    if place == 1 && mode.Join? then 2
    else if place <= 2 then (if m.alreadyInstalled then 5 else 3)
    else if place == 4 && mode.InstallOnly? then 16
    else if place == 5 && !mode.Create? then 7
    else if place == 8 && !mode.Create? then 10
    else if place == 9 then 11
    else place + 1
  }

  /** A step stays, goes to the next page of the mode, goes back to the page before,
      or ends the wizard. */
  predicate MovesByOne(m: Machine, s: State, t: State) {
    || t.page.Halted? || t.page.Failed?
    || Place(t.page) == Place(s.page)
    || Place(t.page) == NextPlace(m, t.config.mode, Place(s.page))
    || (Place(t.page) >= 1 && Place(s.page) == NextPlace(m, t.config.mode, Place(t.page)))
  }

  lemma NoPlaceBetween(m: Machine, mode: Mode, place: nat, between: nat)
    requires InChain(m, mode, place) && InChain(m, mode, between) && 1 <= place <= 16
    ensures place < NextPlace(m, mode, place) && !(place < between < NextPlace(m, mode, place))
  {
  }

  lemma ConfirmPasswordMovesByOne(m: Machine, s: State, text: string, encrypted: Option<Nonempty>, applied: bool,
                                  scan: Option<DiskScan>)
    requires s.page.PasswordConfirm?
    ensures MovesByOne(m, s, PasswordConfirmed(m, s, text, encrypted, applied, scan))
  {
    var t := s.(input := s.input.(passwordConfirm := text));
    if encrypted.Some? {
      ShowingDisks(m, t.(config := t.config.(password := encrypted.value)), scan);
    }
  }

  lemma ModeMovesByOne(m: Machine, s: State, mode: Mode)
    requires s.page.AskCreate?
    ensures MovesByOne(m, s, ModeChosen(m, s, mode))
  {
  }

  lemma RoleMovesByOne(m: Machine, s: State, role: Role)
    requires s.page.AskRole?
    ensures MovesByOne(m, s, RoleChosen(m, s, role))
  {
  }

  lemma PasswordMovesByOne(m: Machine, s: State, text: string)
    requires s.page.PasswordEntry?
    ensures MovesByOne(m, s, PasswordEntered(s, text))
  {
  }

  lemma ParkedMovesByOne(m: Machine, s: State, t: Task)
    requires s.page == Origin(t)
    ensures MovesByOne(m, s, Parked(s, t))
  {
  }

  lemma SetupKeyMovesByOne(m: Machine, s: State, key: SetupKey)
    requires Inv(m, s) && OnCourse(m, s) && SetupEnabled(m, s, key) && Place(s.page) >= 1
    ensures MovesByOne(m, s, SetupStep(m, s, key))
  {
    match key
    case ConfirmPassword(text, encrypted, applied, scan) =>
      ConfirmPasswordMovesByOne(m, s, text, encrypted, applied, scan);
    case ChooseMode(mode) => ModeMovesByOne(m, s, mode);
    case ChooseRole(role) => RoleMovesByOne(m, s, role);
    case SubmitNetwork => ParkedMovesByOne(m, s, ApplyNetwork);
    case SubmitDns(text) => ParkedMovesByOne(m, s, SetDns(text));
    case SubmitCluster(_) =>
    case SubmitHostname(_) =>
    case EnterPassword(text) => PasswordMovesByOne(m, s, text);
    case _ =>
  }

  lemma DiskKeyMovesByOne(m: Machine, s: State, key: DiskKey)
    requires Inv(m, s) && DiskEnabled(s, key)
    ensures MovesByOne(m, s, DiskStep(m, s, key))
  {
    DiskKeyOutcome(m, s, key);
  }

  lemma VipKeyMovesByOne(m: Machine, s: State, key: VipKey)
    requires VipEnabled(s, key)
    ensures MovesByOne(m, s, VipStep(s, key))
  {
  }

  lemma ServerUrlMovesByOne(m: Machine, s: State, text: string, formatted: Option<Nonempty>)
    requires s.page.ServerUrl?
    ensures MovesByOne(m, s, ServerUrlEntered(s, text, formatted))
  {
  }

  lemma TokenMovesByOne(m: Machine, s: State, text: string)
    requires s.page.TokenPage?
    ensures MovesByOne(m, s, TokenEntered(s, text))
  {
  }

  lemma NtpMovesByOne(m: Machine, s: State, text: string)
    requires s.page.NtpServers?
    ensures MovesByOne(m, s, NtpEntered(s, text))
  {
  }

  lemma KeyUrlMovesByOne(m: Machine, s: State, url: string)
    requires s.page.SshKeys?
    ensures MovesByOne(m, s, KeyUrlEntered(s, url))
  {
  }

  lemma ConfigUrlMovesByOne(m: Machine, s: State, url: string)
    requires s.page.CloudInit?
    ensures MovesByOne(m, s, ConfigUrlEntered(s, url))
  {
  }

  lemma FinalKeyMovesByOne(m: Machine, s: State, key: FinalKey)
    requires FinalEnabled(s, key)
    ensures MovesByOne(m, s, FinalStep(s, key))
  {
    match key
    case EnterServerUrl(text, formatted) => ServerUrlMovesByOne(m, s, text, formatted);
    case EnterToken(text) => TokenMovesByOne(m, s, text);
    case EnterNtp(text) => NtpMovesByOne(m, s, text);
    case EnterProxy =>
    case EnterKeyUrl(url) => KeyUrlMovesByOne(m, s, url);
    case EnterConfigUrl(url) => ConfigUrlMovesByOne(m, s, url);
    case Confirm(_) =>
  }

  lemma NetworkReplyMovesByOne(m: Machine, s: State, outcome: NetworkOutcome)
    requires s.page == Waiting(NetworkPage)
    ensures MovesByOne(m, s, NetworkFinished(s, outcome))
  {
  }

  lemma DnsReplyMovesByOne(m: Machine, s: State, servers: string, ok: bool)
    requires s.page == Waiting(DnsServers)
    ensures MovesByOne(m, s, DnsFinished(s, servers, ok))
  {
  }

  lemma PingReplyMovesByOne(m: Machine, s: State, url: Nonempty, ok: bool)
    requires s.page == Waiting(ServerUrl)
    ensures MovesByOne(m, s, PingFinished(s, url, ok))
  {
  }

  lemma NtpReplyMovesByOne(m: Machine, s: State, servers: string, outcome: NtpOutcome)
    requires s.page == Waiting(NtpServers)
    ensures MovesByOne(m, s, NtpFinished(s, servers, outcome))
  {
    var t := NtpFinished(s, servers, outcome);
    assert t.page.NtpServers? || t.page.Proxy?;
  }

  lemma KeysReplyMovesByOne(m: Machine, s: State, keys: Option<seq<string>>)
    requires s.page == Waiting(SshKeys)
    ensures MovesByOne(m, s, KeysFinished(s, keys))
  {
  }

  lemma ConfigReplyMovesByOne(m: Machine, s: State, ok: bool)
    requires s.page == Waiting(CloudInit)
    ensures MovesByOne(m, s, ConfigFinished(s, ok))
  {
  }

  lemma OptionReplyMovesByOne(m: Machine, s: State, reply: Reply)
    requires Focused(s) && ReplyEnabled(s, reply) && !s.page.Failed?
    requires reply.NtpDone? || reply.KeysDone? || reply.ConfigDone?
    ensures MovesByOne(m, s, ReplyStep(s, reply))
  {
    match reply
    case NtpDone(servers, outcome) =>
      OwnReply(s, CheckNtp(servers));
      NtpReplyMovesByOne(m, s, servers, outcome);
    case KeysDone(keys) =>
      OwnReply(s, FetchKeys);
      KeysReplyMovesByOne(m, s, keys);
    case ConfigDone(ok) =>
      OwnReply(s, FetchConfig);
      ConfigReplyMovesByOne(m, s, ok);
  }

  lemma NetworkPagesReplyMovesByOne(m: Machine, s: State, reply: Reply)
    requires Focused(s) && ReplyEnabled(s, reply) && !s.page.Failed?
    requires reply.NetworkDone? || reply.DnsDone?
    ensures MovesByOne(m, s, ReplyStep(s, reply))
  {
    match reply
    case NetworkDone(outcome) =>
      OwnReply(s, ApplyNetwork);
      NetworkReplyMovesByOne(m, s, outcome);
    case DnsDone(servers, ok) =>
      OwnReply(s, SetDns(servers));
      DnsReplyMovesByOne(m, s, servers, ok);
  }

  /** A reply leaves the wizard on the page that waited, or on the next. */
  lemma ReplyMovesByOne(m: Machine, s: State, reply: Reply)
    requires Focused(s) && ReplyEnabled(s, reply) && !s.page.Failed?
    requires !TooLate(s, Done(reply))
    ensures MovesByOne(m, s, ReplyStep(s, reply))
  {
    match reply
    case PingDone(url, ok) =>
      OwnReply(s, Ping(url));
      PingReplyMovesByOne(m, s, url, ok);
    case VipDone(_) =>
    case _ =>
      if reply.NetworkDone? || reply.DnsDone? {
        NetworkPagesReplyMovesByOne(m, s, reply);
      } else {
        OptionReplyMovesByOne(m, s, reply);
      }
  }

  lemma PreviousPageIsOneBack(m: Machine, s: State)
    requires Inv(m, s) && OnCourse(m, s) && CanGoBack(s.page) && !ReturnsToDisks(m, s)
    ensures var p := Place(PreviousPage(s));
      p >= 1 && Place(s.page) == NextPlace(m, s.config.mode, p)
  {
  }

  /** Escape goes exactly one page back. */
  lemma EscapeGoesBack(m: Machine, s: State, scan: Option<DiskScan>)
    requires Inv(m, s) && OnCourse(m, s) && CanGoBack(s.page)
    ensures var t := WentBack(m, s, scan);
      t.page.Failed? || (Place(t.page) >= 1 && Place(s.page) == NextPlace(m, s.config.mode, Place(t.page)))
    ensures WentBack(m, s, scan).config.mode == s.config.mode
  {
    if ReturnsToDisks(m, s) {
      ShowingDisks(m, s, scan);
    } else {
      PreviousPageIsOneBack(m, s);
    }
  }

  /** On course the wizard never skips a page, forwards or backwards. */
  lemma StepMovesByOne(m: Machine, s: State, e: Event)
    requires Inv(m, s) && OnCourse(m, s) && Enabled(m, s, e) && !TooLate(s, e) && Place(s.page) >= 1
    ensures MovesByOne(m, s, Step(m, s, e))
  {
    match e
    case Setup(key) => SetupKeyMovesByOne(m, s, key);
    case Disk(key) => DiskKeyMovesByOne(m, s, key);
    case Vip(key) => VipKeyMovesByOne(m, s, key);
    case Final(key) => FinalKeyMovesByOne(m, s, key);
    case Back(scan) => EscapeGoesBack(m, s, scan);
    case Done(reply) => ReplyMovesByOne(m, s, reply);
  }

  predicate ChoosesMode(e: Event) {
    e.Setup? && e.setup.ChooseMode?
  }

  lemma SetupKeepsMode(m: Machine, s: State, key: SetupKey)
    requires SetupEnabled(m, s, key) && !key.ChooseMode?
    ensures SetupStep(m, s, key).config.mode == s.config.mode
  {
    match key
    case ConfirmPassword(text, encrypted, _, scan) =>
      if encrypted.Some? {
        var t := s.(input := s.input.(passwordConfirm := text));
        ShowingDisks(m, t.(config := t.config.(password := encrypted.value)), scan);
      }
    case _ =>
  }

  lemma FinalKeepsMode(s: State, key: FinalKey)
    requires FinalEnabled(s, key)
    ensures FinalStep(s, key).config.mode == s.config.mode
  {
  }

  lemma ReplyKeepsMode(s: State, reply: Reply)
    requires ReplyEnabled(s, reply)
    ensures ReplyStep(s, reply).config.mode == s.config.mode
  {
  }

  /** Only the first page changes the mode. */
  lemma StepKeepsMode(m: Machine, s: State, e: Event)
    requires Inv(m, s) && Enabled(m, s, e)
    ensures ChoosesMode(e) || Step(m, s, e).config.mode == s.config.mode
  {
    match e
    case Setup(key) =>
      if !key.ChooseMode? {
        SetupKeepsMode(m, s, key);
      }
    case Disk(key) => DiskKeyOutcome(m, s, key);
    case Vip(key) =>
    case Final(key) => FinalKeepsMode(s, key);
    case Back(scan) => ShowingDisks(m, s, scan);
    case Done(reply) => ReplyKeepsMode(s, reply);
  }

  lemma NextPlaceIsInjective(m: Machine, mode: Mode, p: nat, q: nat)
    requires InChain(m, mode, p) && InChain(m, mode, q) && NextPlace(m, mode, p) == NextPlace(m, mode, q)
    requires p <= 16 && q <= 16
    ensures p == q
  {
  }

  lemma PlaceInChain(m: Machine, s: State)
    requires Inv(m, s) && OnCourse(m, s)
    ensures Place(s.page) <= 17
    ensures Place(s.page) >= 1 ==> InChain(m, s.config.mode, Place(s.page))
  {
  }

  /** Escape undoes a step forwards: it leads back to the page the step left, or
      ends the wizard because the disks cannot be read. */
  lemma EscapeUndoesNext(m: Machine, s: State, e: Event, scan: Option<DiskScan>)
    requires Inv(m, s) && OnCourse(m, s) && Enabled(m, s, e) && !TooLate(s, e)
    requires Place(s.page) >= 1 && Place(Step(m, s, e).page) > Place(s.page) && CanGoBack(Step(m, s, e).page)
    ensures var back := WentBack(m, Step(m, s, e), scan);
      back.page.Failed? || Place(back.page) == Place(s.page)
  {
    var t := Step(m, s, e);
    StepKeepsInv(m, s, e);
    PunctualIsHarmless(m, s, e);
    StepKeepsCourse(m, s, e);
    StepMovesByOne(m, s, e);
    EscapeGoesBack(m, t, scan);
    var back := WentBack(m, t, scan);
    StepKeepsInv(m, t, Back(scan));
    PunctualIsHarmless(m, t, Back(scan));
    StepKeepsCourse(m, t, Back(scan));
    StepKeepsMode(m, s, e);
    PlaceInChain(m, s);
    PlaceInChain(m, t);
    PlaceInChain(m, back);
    if !back.page.Failed? {
      ForwardIsNext(m, t.config.mode, Place(s.page), Place(t.page));
      NextPlaceIsInjective(m, t.config.mode, Place(s.page), Place(back.page));
    }
  }

  lemma ForwardIsNext(m: Machine, mode: Mode, p: nat, q: nat)
    requires 1 <= p < q <= 17 && InChain(m, mode, q)
    requires q == NextPlace(m, mode, p) || p == NextPlace(m, mode, q)
    ensures q == NextPlace(m, mode, p) && p <= 16
  {
  }

  // ----- Whole runs

  /** A run in which no VIP request fails after its page was left. */
  predicate IsPunctual(m: Machine, s: State, events: seq<Event>)
    requires IsRun(m, s, events)
    decreases |events|
  {
    events == [] || (!TooLate(s, events[0]) && IsPunctual(m, Step(m, s, events[0]), events[1..]))
  }

  predicate KeepsMode(events: seq<Event>) {
    forall i :: 0 <= i < |events| ==> !ChoosesMode(events[i])
  }

  /** The run is on a page of this place at some moment. */
  predicate Visits(m: Machine, s: State, events: seq<Event>, place: nat)
    requires IsRun(m, s, events)
    decreases |events|
  {
    Place(s.page) == place || (events != [] && Visits(m, Step(m, s, events[0]), events[1..], place))
  }

  lemma OneStepCannotPass(m: Machine, s: State, t: State, place: nat)
    requires MovesByOne(m, s, t) && Place(s.page) < place < Place(t.page) <= 17
    requires InChain(m, t.config.mode, Place(s.page)) && InChain(m, t.config.mode, Place(t.page))
    ensures !InChain(m, t.config.mode, place)
  {
    ForwardIsNext(m, t.config.mode, Place(s.page), Place(t.page));
    if InChain(m, t.config.mode, place) {
      NoPlaceBetween(m, t.config.mode, Place(s.page), place);
    }
  }

  predicate Stopped(p: Page) {
    p.Halted? || p.Failed?
  }

  lemma StoppedForGood(m: Machine, s: State, e: Event)
    requires OnCourse(m, s) && Enabled(m, s, e) && !TooLate(s, e) && Stopped(s.page)
    ensures Stopped(Step(m, s, e).page)
  {
    assert e.Done? && e.reply.VipDone?;
  }

  lemma {:induction false} StoppedRun(m: Machine, s: State, events: seq<Event>)
    requires Inv(m, s) && OnCourse(m, s) && IsRun(m, s, events) && IsPunctual(m, s, events) && Stopped(s.page)
    ensures Place(After(m, s, events).page) == 0
    decreases |events|
  {
    if events != [] {
      StepKeepsInv(m, s, events[0]);
      PunctualIsHarmless(m, s, events[0]);
      StepKeepsCourse(m, s, events[0]);
      StoppedForGood(m, s, events[0]);
      StoppedRun(m, Step(m, s, events[0]), events[1..]);
    }
  }

  /** What one step of a run that keeps its mode means for a place ahead: the run
      has stopped, or has not passed it. */
  lemma OneStepAhead(m: Machine, s: State, e: Event, place: nat)
    requires Inv(m, s) && OnCourse(m, s) && Enabled(m, s, e) && !TooLate(s, e) && !ChoosesMode(e)
    requires 1 <= Place(s.page) < place && InChain(m, s.config.mode, place)
    ensures var t := Step(m, s, e);
      && Inv(m, t) && OnCourse(m, t) && t.config.mode == s.config.mode
      && (Stopped(t.page) || 1 <= Place(t.page) <= place)
  {
    var t := Step(m, s, e);
    StepKeepsInv(m, s, e);
    PunctualIsHarmless(m, s, e);
    StepKeepsCourse(m, s, e);
    StepMovesByOne(m, s, e);
    StepKeepsMode(m, s, e);
    PlaceInChain(m, s);
    PlaceInChain(m, t);
    if Place(t.page) > place {
      OneStepCannotPass(m, s, t, place);
    }
  }

  /** Once the mode is chosen, a run that ends on a page of it has been on every
      page of the mode between there and where it started. */
  lemma {:induction false} NoPageSkipped(m: Machine, s: State, events: seq<Event>, place: nat)
    requires Inv(m, s) && OnCourse(m, s) && IsRun(m, s, events) && IsPunctual(m, s, events) && KeepsMode(events)
    requires 1 <= Place(s.page) <= place <= Place(After(m, s, events).page)
    requires InChain(m, s.config.mode, place)
    ensures Visits(m, s, events, place)
    decreases |events|
  {
    if Place(s.page) != place {
      OneStepAhead(m, s, events[0], place);
      var t := Step(m, s, events[0]);
      if Stopped(t.page) {
        StoppedRun(m, t, events[1..]);
      } else {
        NoPageSkipped(m, t, events[1..], place);
      }
    }
  }
}
