/** What the events of a run alone say about the configuration at its end, for every
    run, whatever arrives too late: the last event about the mode, the management
    address and the keys decides. From it the exact condition under which
    `commonCheck` passes. */
module WizardHistory {
  import opened Wrappers
  import opened Validator
  import opened WizardSteps
  import opened WizardInvariants
  import opened WizardRuns
  import opened RemoteConfig

  // ----- What the last event about a field left in it

  function ModeAfter(events: seq<Event>, start: Mode): Mode {
    if events == [] then start
    else match events[|events| - 1]
      case Setup(ChooseMode(mode)) => mode
      case _ => ModeAfter(events[..|events| - 1], start)
  }

  function AddressAfter(events: seq<Event>, start: string): string {
    if events == [] then start
    else match events[|events| - 1]
      case Setup(ChooseMode(Create)) => ""
      case Done(PingDone(url, true)) => url
      case _ => AddressAfter(events[..|events| - 1], start)
  }

  function KeysAfter(events: seq<Event>, start: seq<string>): seq<string> {
    if events == [] then start
    else match events[|events| - 1]
      case Final(EnterKeyUrl(_)) => []
      case Done(KeysDone(Some(keys))) => keys
      case _ => KeysAfter(events[..|events| - 1], start)
  }

  predicate ChoosesCreate(e: Event) {
    e == Setup(ChooseMode(Create))
  }

  predicate PingSucceeds(e: Event) {
    e.Done? && e.reply.PingDone? && e.reply.ok
  }

  predicate AboutKeys(e: Event) {
    (e.Final? && e.final.EnterKeyUrl?) || (e.Done? && e.reply.KeysDone? && e.reply.keys.Some?)
  }

  predicate BringsKeys(e: Event) {
    e.Done? && e.reply.KeysDone? && e.reply.keys.Some? && e.reply.keys.value != []
  }

  // ----- The same, said of the run

  /** A ping succeeded, and create was not chosen after it. */
  predicate PingedSinceCreate(events: seq<Event>) {
    exists i :: 0 <= i < |events| && PingSucceeds(events[i])
      && forall j :: i < j < |events| ==> !ChoosesCreate(events[j])
  }

  predicate NeverCreate(events: seq<Event>) {
    forall i :: 0 <= i < |events| ==> !ChoosesCreate(events[i])
  }

  /** The last event about the keys brought some. */
  predicate KeysBrought(events: seq<Event>) {
    exists i :: 0 <= i < |events| && BringsKeys(events[i]) && forall j :: i < j < |events| ==> !AboutKeys(events[j])
  }

  predicate KeyPageUsed(events: seq<Event>) {
    exists i :: 0 <= i < |events| && events[i].Final? && events[i].final.EnterKeyUrl?
  }

  lemma {:induction false} AddressLeft(events: seq<Event>, start: string)
    ensures AddressAfter(events, start) != "" <==> PingedSinceCreate(events) || (NeverCreate(events) && start != "")
  {
    if events != [] {
      var n := |events| - 1;
      AddressLeft(events[..n], start);
      AddressOfOneMore(events[..n], events[n]);
      assert events == events[..n] + [events[n]];
    }
  }

  lemma AddressOfOneMore(events: seq<Event>, e: Event)
    ensures PingedSinceCreate(events + [e]) <==> PingSucceeds(e) || (PingedSinceCreate(events) && !ChoosesCreate(e))
    ensures NeverCreate(events + [e]) <==> NeverCreate(events) && !ChoosesCreate(e)
  {
    var all, n := events + [e], |events|;
    assert all[n] == e && forall i :: 0 <= i < n ==> all[i] == events[i];
    if PingedSinceCreate(events) && !ChoosesCreate(e) {
      var i :| 0 <= i < n && PingSucceeds(events[i]) && forall j :: i < j < n ==> !ChoosesCreate(events[j]);
      assert PingSucceeds(all[i]);
    }
    if PingedSinceCreate(all) && !PingSucceeds(e) {
      var i :| 0 <= i < |all| && PingSucceeds(all[i]) && forall j :: i < j < |all| ==> !ChoosesCreate(all[j]);
      assert PingSucceeds(events[i]) && !ChoosesCreate(all[n]);
    }
    if PingSucceeds(e) {
      assert PingSucceeds(all[n]);
    }
    if NeverCreate(all) {
      assert !ChoosesCreate(all[n]);
    }
  }

  lemma {:induction false} KeysLeft(events: seq<Event>, start: seq<string>)
    requires KeyPageUsed(events)
    ensures KeysAfter(events, start) != [] <==> KeysBrought(events)
  {
    var n := |events| - 1;
    assert events == events[..n] + [events[n]];
    KeysOfOneMore(events[..n], events[n]);
    if !AboutKeys(events[n]) {
      KeysLeft(events[..n], start);
    }
  }

  lemma KeysOfOneMore(events: seq<Event>, e: Event)
    ensures KeysBrought(events + [e]) <==> BringsKeys(e) || (KeysBrought(events) && !AboutKeys(e))
    ensures KeyPageUsed(events + [e]) <==> KeyPageUsed(events) || (e.Final? && e.final.EnterKeyUrl?)
  {
    var all, n := events + [e], |events|;
    assert all[n] == e && forall i :: 0 <= i < n ==> all[i] == events[i];
    if KeysBrought(events) && !AboutKeys(e) {
      var i :| 0 <= i < n && BringsKeys(events[i]) && forall j :: i < j < n ==> !AboutKeys(events[j]);
      assert BringsKeys(all[i]);
    }
    if KeysBrought(all) && !BringsKeys(e) {
      var i :| 0 <= i < |all| && BringsKeys(all[i]) && forall j :: i < j < |all| ==> !AboutKeys(all[j]);
      assert BringsKeys(events[i]) && !AboutKeys(all[n]);
    }
    if BringsKeys(e) {
      assert BringsKeys(all[n]);
    }
    if KeyPageUsed(events) {
      var i :| 0 <= i < n && events[i].Final? && events[i].final.EnterKeyUrl?;
      assert all[i].Final? && all[i].final.EnterKeyUrl?;
    }
  }

  // ----- Every step follows

  predicate Follows(s: State, e: Event, t: State) {
    && t.config.mode == ModeAfter([e], s.config.mode)
    && t.config.serverUrl == AddressAfter([e], s.config.serverUrl)
    && t.config.sshKeys == KeysAfter([e], s.config.sshKeys)
  }

  /** None of the three is touched. */
  predicate Same(s: State, t: State) {
    t.config.mode == s.config.mode && t.config.serverUrl == s.config.serverUrl && t.config.sshKeys == s.config.sshKeys
  }

  predicate IsPlain(e: Event) {
    !(e.Setup? && e.setup.ChooseMode?) && !PingSucceeds(e) && !AboutKeys(e)
  }

  lemma PlainFollows(s: State, e: Event, t: State)
    requires IsPlain(e) && Same(s, t)
    ensures Follows(s, e, t)
  {
    assert [e][..0] == [];
  }

  lemma ChoosingFollows(m: Machine, s: State, mode: Mode)
    ensures Follows(s, Setup(ChooseMode(mode)), ModeChosen(m, s, mode))
  {
    assert [Setup(ChooseMode(mode))][..0] == [];
  }

  lemma SetupFollows(m: Machine, s: State, key: SetupKey)
    requires SetupEnabled(m, s, key)
    ensures Follows(s, Setup(key), SetupStep(m, s, key))
  {
    match key
    case ChooseMode(mode) => ChoosingFollows(m, s, mode);
    case ConfirmPassword(text, encrypted, applied, scan) =>
      ConfirmingKeeps(m, s, text, encrypted, applied, scan);
      PlainFollows(s, Setup(key), SetupStep(m, s, key));
    case _ => PlainFollows(s, Setup(key), SetupStep(m, s, key));
  }

  lemma ConfirmingKeeps(m: Machine, s: State, text: string, encrypted: Option<Nonempty>, applied: bool,
                        scan: Option<DiskScan>)
    ensures Same(s, PasswordConfirmed(m, s, text, encrypted, applied, scan))
  {
    var t := s.(input := s.input.(passwordConfirm := text));
    if encrypted.Some? {
      ShowingDisks(m, t.(config := t.config.(password := encrypted.value)), scan);
    }
  }

  lemma FinalFollows(s: State, key: FinalKey)
    requires FinalEnabled(s, key)
    ensures Follows(s, Final(key), FinalStep(s, key))
  {
    match key
    case EnterKeyUrl(url) => assert [Final(key)][..0] == [];
    case _ => PlainFollows(s, Final(key), FinalStep(s, key));
  }

  lemma PingFollows(s: State, url: Nonempty, ok: bool)
    ensures Follows(s, Done(PingDone(url, ok)), PingFinished(s, url, ok))
  {
    assert [Done(PingDone(url, ok))][..0] == [];
  }

  lemma KeysFollow(s: State, keys: Option<seq<string>>)
    ensures Follows(s, Done(KeysDone(keys)), KeysFinished(s, keys))
  {
    assert [Done(KeysDone(keys))][..0] == [];
  }

  lemma ReplyFollows(s: State, reply: Reply)
    requires ReplyEnabled(s, reply)
    ensures Follows(s, Done(reply), ReplyStep(s, reply))
  {
    match reply
    case PingDone(url, ok) => PingFollows(s, url, ok);
    case KeysDone(keys) => KeysFollow(s, keys);
    case _ => PlainFollows(s, Done(reply), ReplyStep(s, reply));
  }

  lemma StepFollows(m: Machine, s: State, e: Event)
    requires Inv(m, s) && Enabled(m, s, e)
    ensures Follows(s, e, Step(m, s, e))
  {
    match e
    case Setup(key) => SetupFollows(m, s, key);
    case Disk(key) =>
      DiskKeyOutcome(m, s, key);
      PlainFollows(s, e, DiskStep(m, s, key));
    case Vip(key) => PlainFollows(s, e, VipStep(s, key));
    case Final(key) => FinalFollows(s, key);
    case Back(scan) =>
      ShowingDisks(m, s, scan);
      PlainFollows(s, e, WentBack(m, s, scan));
    case Done(reply) => ReplyFollows(s, reply);
  }

  lemma AfterOneMore(events: seq<Event>, e: Event, mode: Mode, address: string, keys: seq<string>)
    ensures ModeAfter(events + [e], mode) == ModeAfter([e], ModeAfter(events, mode))
    ensures AddressAfter(events + [e], address) == AddressAfter([e], AddressAfter(events, address))
    ensures KeysAfter(events + [e], keys) == KeysAfter([e], KeysAfter(events, keys))
  {
    assert (events + [e])[..|events|] == events && [e][..0] == [];
  }

  /** Mode, address and keys are what the last event about each left. */
  lemma {:induction false} ConfigIsItsHistory(m: Machine, s0: State, events: seq<Event>)
    requires Inv(m, s0) && IsRun(m, s0, events)
    ensures var c := After(m, s0, events).config;
      && c.mode == ModeAfter(events, s0.config.mode)
      && c.serverUrl == AddressAfter(events, s0.config.serverUrl)
      && c.sshKeys == KeysAfter(events, s0.config.sshKeys)
    decreases |events|
  {
    if events != [] {
      var n := |events| - 1;
      LastStep(m, s0, events);
      RunKeepsInv(m, s0, events[..n]);
      ConfigIsItsHistory(m, s0, events[..n]);
      StepFollows(m, After(m, s0, events[..n]), events[n]);
      AfterOneMore(events[..n], events[n], s0.config.mode, s0.config.serverUrl, s0.config.sshKeys);
      assert events == events[..n] + [events[n]];
    }
  }

  // ----- An installed node

  /** The key page lies behind: shown or still to be shown by a task. */
  predicate PastKeyPage(s: State) {
    Place(s.page) >= 15 || FetchKeys in s.tasks || FetchConfig in s.tasks
  }

  predicate UsesKeyPage(e: Event) {
    e.Final? && e.final.EnterKeyUrl?
  }

  lemma EarlierPast(s: State, t: State)
    requires t.tasks <= s.tasks && (Place(t.page) < 15 || Place(s.page) >= 15) && PastKeyPage(t)
    ensures PastKeyPage(s)
  {
  }

  lemma VipReplyPastKeyPage(s: State, ok: bool)
    requires s.vipRequests > 0 && PastKeyPage(VipFinished(s, ok))
    ensures PastKeyPage(s)
  {
    EarlierPast(s, VipFinished(s, ok));
  }

  /** The replies of the tasks before the key page. */
  lemma NetworkPastKeyPage(s: State, outcome: NetworkOutcome)
    requires PastKeyPage(NetworkFinished(s, outcome))
    ensures PastKeyPage(s)
  {
    EarlierPast(s, NetworkFinished(s, outcome));
  }

  lemma DnsPastKeyPage(s: State, servers: string, ok: bool)
    requires PastKeyPage(DnsFinished(s, servers, ok))
    ensures PastKeyPage(s)
  {
    EarlierPast(s, DnsFinished(s, servers, ok));
  }

  lemma PingPastKeyPage(s: State, url: Nonempty, ok: bool)
    requires PastKeyPage(PingFinished(s, url, ok))
    ensures PastKeyPage(s)
  {
    EarlierPast(s, PingFinished(s, url, ok));
  }

  lemma NtpReplyPastKeyPage(s: State, servers: string, outcome: NtpOutcome)
    requires PastKeyPage(NtpFinished(s, servers, outcome))
    ensures PastKeyPage(s)
  {
    EarlierPast(s, NtpFinished(s, servers, outcome));
  }

  lemma ReplyPastKeyPage(s: State, reply: Reply)
    requires ReplyEnabled(s, reply) && PastKeyPage(ReplyStep(s, reply))
    ensures PastKeyPage(s)
  {
    match reply
    case KeysDone(_) =>
    case ConfigDone(_) =>
    case VipDone(ok) => VipReplyPastKeyPage(s, ok);
    case NetworkDone(outcome) => NetworkPastKeyPage(s, outcome);
    case DnsDone(servers, ok) => DnsPastKeyPage(s, servers, ok);
    case PingDone(url, ok) => PingPastKeyPage(s, url, ok);
    case NtpDone(servers, outcome) => NtpReplyPastKeyPage(s, servers, outcome);
  }

  lemma ParkedPast(s: State, t: Task)
    requires s.page == Origin(t) && !t.FetchKeys? && !t.FetchConfig? && PastKeyPage(Parked(s, t))
    ensures PastKeyPage(s)
  {
  }

  lemma NtpPastKeyPage(s: State, text: string)
    requires s.page.NtpServers? && PastKeyPage(NtpEntered(s, text))
    ensures PastKeyPage(s)
  {
    var t := s.(input := s.input.(ntpChecked := false));
    if text == s.input.ntp && s.input.ntpChecked {
      EarlierPast(s, t.(page := Proxy));
    } else {
      ParkedPast(t, CheckNtp(text));
      EarlierPast(s, t);
    }
  }

  lemma KeyPastKeyPage(s: State, key: FinalKey)
    requires FinalEnabled(s, key) && PastKeyPage(FinalStep(s, key))
    ensures PastKeyPage(s) || key.EnterKeyUrl?
  {
    match key
    case EnterServerUrl(text, formatted) =>
      if text != "" && formatted.Some? {
        ParkedPast(s, Ping(formatted.value));
      }
    case EnterToken(text) => EarlierPast(s, TokenEntered(s, text));
    case EnterNtp(text) => NtpPastKeyPage(s, text);
    case EnterProxy => EarlierPast(s, s.(page := SshKeys));
    case EnterKeyUrl(_) =>
    case EnterConfigUrl(_) =>
    case Confirm(_) =>
  }

  lemma ConfirmPastKeyPage(m: Machine, s: State, text: string, encrypted: Option<Nonempty>, applied: bool,
                           scan: Option<DiskScan>)
    requires s.page.PasswordConfirm? && PastKeyPage(PasswordConfirmed(m, s, text, encrypted, applied, scan))
    ensures PastKeyPage(s)
  {
    if encrypted.Some? {
      var t := s.(input := s.input.(passwordConfirm := text));
      ShowingDisks(m, t.(config := t.config.(password := encrypted.value)), scan);
    }
  }

  lemma SetupPastKeyPage(m: Machine, s: State, key: SetupKey)
    requires SetupEnabled(m, s, key) && PastKeyPage(SetupStep(m, s, key))
    ensures PastKeyPage(s)
  {
    match key
    case ConfirmPassword(text, encrypted, applied, scan) =>
      ConfirmPastKeyPage(m, s, text, encrypted, applied, scan);
    case ChooseMode(_) =>
    case ChooseRole(_) =>
    case _ =>
  }

  lemma PreviousIsEarlier(s: State)
    requires CanGoBack(s.page) && Place(s.page) < 15
    ensures Place(PreviousPage(s)) < 15
  {
  }

  lemma EscapePastKeyPage(m: Machine, s: State, scan: Option<DiskScan>)
    requires CanGoBack(s.page) && PastKeyPage(WentBack(m, s, scan))
    ensures PastKeyPage(s)
  {
    if Place(s.page) < 15 {
      ShowingDisks(m, s, scan);
      PreviousIsEarlier(s);
      EarlierPast(s, WentBack(m, s, scan));
    }
  }

  lemma StepPastKeyPage(m: Machine, s: State, e: Event)
    requires Inv(m, s) && Enabled(m, s, e) && m.alreadyInstalled && PastKeyPage(Step(m, s, e))
    ensures PastKeyPage(s) || UsesKeyPage(e)
  {
    match e
    case Setup(key) => SetupPastKeyPage(m, s, key);
    case Disk(key) => DiskKeyOutcome(m, s, key);
    case Vip(key) =>
    case Final(key) => KeyPastKeyPage(s, key);
    case Back(scan) => EscapePastKeyPage(m, s, scan);
    case Done(reply) => ReplyPastKeyPage(s, reply);
  }

  lemma StepKeepsPassword(m: Machine, s: State, e: Event)
    requires Inv(m, s) && Enabled(m, s, e) && m.alreadyInstalled
    ensures Step(m, s, e).config.password == s.config.password
  {
    match e
    case Setup(key) => SetupKeepsPassword(m, s, key);
    case Disk(key) => DiskKeyOutcome(m, s, key);
    case Vip(key) =>
    case Final(key) => FinalKeepsPassword(s, key);
    case Back(scan) => ShowingDisks(m, s, scan);
    case Done(reply) => ReplyKeepsPassword(s, reply);
  }

  /** The password pages are not shown on an installed node. */
  lemma SetupKeepsPassword(m: Machine, s: State, key: SetupKey)
    requires Place(s.page) != 3 && SetupEnabled(m, s, key)
    ensures SetupStep(m, s, key).config.password == s.config.password
  {
    match key
    case ConfirmPassword(_, _, _, _) => assert false;
    case _ =>
  }

  lemma FinalKeepsPassword(s: State, key: FinalKey)
    ensures FinalStep(s, key).config.password == s.config.password
  {
  }

  lemma ReplyKeepsPassword(s: State, reply: Reply)
    requires ReplyEnabled(s, reply)
    ensures ReplyStep(s, reply).config.password == s.config.password
  {
  }

  /** On an installed node the password is the starting one. */
  lemma {:induction false} PasswordOfInstalledNode(m: Machine, s0: State, events: seq<Event>)
    requires Inv(m, s0) && IsRun(m, s0, events) && m.alreadyInstalled
    ensures After(m, s0, events).config.password == s0.config.password
    decreases |events|
  {
    if events != [] {
      var e, t := events[0], Step(m, s0, events[0]);
      StepKeepsInv(m, s0, e);
      StepKeepsPassword(m, s0, e);
      PasswordOfInstalledNode(m, t, events[1..]);
    }
  }

  /** Behind the key page the key page has been used. */
  lemma {:induction false} KeyPageIsUsed(m: Machine, s0: State, events: seq<Event>)
    requires Inv(m, s0) && IsRun(m, s0, events) && m.alreadyInstalled
    requires !PastKeyPage(s0) && PastKeyPage(After(m, s0, events))
    ensures KeyPageUsed(events)
    decreases |events|
  {
    var e, t := events[0], Step(m, s0, events[0]);
    StepKeepsInv(m, s0, e);
    if PastKeyPage(t) {
      StepPastKeyPage(m, s0, e);
      assert UsesKeyPage(events[0]);
    } else {
      KeyPageIsUsed(m, t, events[1..]);
      var i :| 0 <= i < |events[1..]| && events[1..][i].Final? && events[1..][i].final.EnterKeyUrl?;
      assert events[i + 1].Final? && events[i + 1].final.EnterKeyUrl?;
    }
  }

  // ----- The mode has been chosen

  predicate PastModePage(s: State) {
    Place(s.page) >= 2 || Pending(s)
  }

  /** Before the mode is chosen, only the first two pages take events. */
  lemma FirstEvents(m: Machine, s: State, e: Event)
    requires Enabled(m, s, e) && !PastModePage(s)
    ensures e.Setup? && (e.setup.Acknowledge? || e.setup.ChooseMode?)
  {
    match e
    case Done(reply) => RepliesArePending(s, reply);
    case _ =>
  }

  lemma RepliesArePending(s: State, reply: Reply)
    requires ReplyEnabled(s, reply)
    ensures Pending(s)
  {
  }

  lemma StepPastModePage(m: Machine, s: State, e: Event)
    requires Enabled(m, s, e) && !PastModePage(s) && PastModePage(Step(m, s, e))
    ensures e.Setup? && e.setup.ChooseMode?
  {
    FirstEvents(m, s, e);
  }

  predicate ModeWasChosen(events: seq<Event>) {
    exists i :: 0 <= i < |events| && events[i].Setup? && events[i].setup.ChooseMode?
  }

  lemma {:induction false} ModeIsChosen(m: Machine, s0: State, events: seq<Event>)
    requires IsRun(m, s0, events) && !PastModePage(s0) && PastModePage(After(m, s0, events))
    ensures ModeWasChosen(events)
    decreases |events|
  {
    var e, t := events[0], Step(m, s0, events[0]);
    if PastModePage(t) {
      StepPastModePage(m, s0, e);
      assert events[0].Setup? && events[0].setup.ChooseMode?;
    } else {
      ModeIsChosen(m, t, events[1..]);
      var i :| 0 <= i < |events[1..]| && events[1..][i].Setup? && events[1..][i].setup.ChooseMode?;
      assert events[i + 1].Setup? && events[i + 1].setup.ChooseMode?;
    }
  }

  lemma {:induction false} CreateWasChosen(events: seq<Event>, start: Mode)
    requires ModeWasChosen(events) && ModeAfter(events, start) == Create
    ensures !NeverCreate(events)
  {
    var n := |events| - 1;
    if events[n].Setup? && events[n].setup.ChooseMode? {
      assert ChoosesCreate(events[n]);
    } else {
      var i :| 0 <= i < |events| && events[i].Setup? && events[i].setup.ChooseMode?;
      assert events[..n][i].Setup? && events[..n][i].setup.ChooseMode?;
      CreateWasChosen(events[..n], start);
      var j :| 0 <= j < n && ChoosesCreate(events[..n][j]);
      assert ChoosesCreate(events[j]);
    }
  }

  // ----- Exactly when commonCheck passes

  /** In create mode no ping succeeded since create was chosen and the remote
      configuration has no address; in join mode a ping did, or create was never chosen
      and there was an address to start with, or the remote configuration has one. */
  predicate AddressFits(mode: Mode, start: string, events: seq<Event>, remote: string) {
    match mode
    case Create => !PingedSinceCreate(events) && remote == ""
    case Join => PingedSinceCreate(events) || (NeverCreate(events) && start != "") || remote != ""
    case _ => true
  }

  /** What no page settles: the image address of an automatic install and the
      persistent paths. */
  predicate InstallSet(m: Machine, remote: Option<Remote>) {
    var machine := MachineWith(m, remote);
    (m.alreadyInstalled || !machine.automatic || machine.isoUrl != "") && machine.pathsAllowed
  }

  /** On an installed node there was a password to start with, the last event about the
      keys brought some, or the remote configuration has credentials. */
  predicate HasCredentials(m: Machine, c0: Config, events: seq<Event>, remote: Option<Remote>) {
    m.alreadyInstalled ==> c0.password != "" || KeysBrought(events) || BringsCredentials(remote)
  }

  /** What a run must have been for its configuration to pass, in terms of the machine,
      the configuration it started from, its events and the remote configuration that is
      merged, if any. */
  predicate Passes(m: Machine, c0: Config, events: seq<Event>, remote: Option<Remote>) {
    var mode := ModeAfter(events, c0.mode);
    || mode == InstallOnly
    || (&& InstallSet(m, remote)
        && AddressFits(mode, c0.serverUrl, events, AddressOf(remote))
        && HasCredentials(m, c0, events, remote))
  }

  /** The outcome of the check at the install panel. */
  predicate Checked(m: Machine, c: Config, remote: Option<Remote>, formatted: Nonempty) {
    CommonCheck(MachineWith(m, remote), AtInstall(ConfigWith(c, remote), formatted)).Ok?
  }

  lemma CheckOfState(m: Machine, s: State, remote: Option<Remote>, formatted: Nonempty)
    requires Inv(m, s) && s.page.Install?
    ensures Checked(m, s.config, remote, formatted) <==> Acceptable(m, s.config, remote)
    ensures s.config.mode.Create? || s.config.mode.Join? || s.config.mode.InstallOnly?
  {
    MergeFills(s.config, remote);
  }

  predicate Acceptable(m: Machine, c: Config, remote: Option<Remote>) {
    || c.mode.InstallOnly?
    || (&& InstallSet(m, remote)
        && (c.mode.Create? ==> c.serverUrl == "" && AddressOf(remote) == "")
        && (c.mode.Join? ==> c.serverUrl != "" || AddressOf(remote) != "")
        && (m.alreadyInstalled ==> c.sshKeys != [] || c.password != "" || BringsCredentials(remote)))
  }

  lemma AcceptableByHistory(m: Machine, c0: Config, c: Config, events: seq<Event>, remote: Option<Remote>)
    requires c.mode == ModeAfter(events, c0.mode) && c.serverUrl == AddressAfter(events, c0.serverUrl)
    requires c.mode.Create? || c.mode.Join? || c.mode.InstallOnly?
    requires ModeWasChosen(events)
    requires m.alreadyInstalled ==> c.password == c0.password && (c.sshKeys != [] <==> KeysBrought(events))
    ensures Acceptable(m, c, remote) <==> Passes(m, c0, events, remote)
  {
    AddressLeft(events, c0.serverUrl);
    if c.mode.Create? {
      CreateWasChosen(events, c0.mode);
    }
  }

  /** For every run that reaches the install panel, whatever arrived late on the way and
      whatever remote configuration is merged, `commonCheck` accepts the result if and
      only if the run was such. */
  lemma CommonCheckExactlyWhen(m: Machine, s0: State, events: seq<Event>, remote: Option<Remote>, formatted: Nonempty)
    requires IsStart(s0) && IsRun(m, s0, events) && After(m, s0, events).page.Install?
    ensures Checked(m, After(m, s0, events).config, remote, formatted) <==> Passes(m, s0.config, events, remote)
  {
    StartsOnCourse(m, s0);
    RunKeepsInv(m, s0, events);
    CheckOfState(m, After(m, s0, events), remote, formatted);
    PastEverything(After(m, s0, events));
    ModeIsChosen(m, s0, events);
    ConfigIsItsHistory(m, s0, events);
    if m.alreadyInstalled {
      CredentialsOfInstalledNode(m, s0, events);
    }
    AcceptableByHistory(m, s0.config, After(m, s0, events).config, events, remote);
  }

  lemma PastEverything(s: State)
    requires s.page.Install?
    ensures PastKeyPage(s) && PastModePage(s)
  {
  }

  /** On an installed node that reaches the install panel: the starting password, and
      keys if and only if the last event about them brought some. */
  lemma CredentialsOfInstalledNode(m: Machine, s0: State, events: seq<Event>)
    requires IsStart(s0) && IsRun(m, s0, events) && m.alreadyInstalled && PastKeyPage(After(m, s0, events))
    ensures var c := After(m, s0, events).config;
      c.password == s0.config.password && (c.sshKeys != [] <==> KeysBrought(events))
  {
    StartsOnCourse(m, s0);
    PasswordOfInstalledNode(m, s0, events);
    KeyPageIsUsed(m, s0, events);
    ConfigIsItsHistory(m, s0, events);
    KeysLeft(events, s0.config.sshKeys);
  }

  /** A run on course has an address that fits, so there it passes but for what no
      page settles: the image address of an automatic install, the persistent paths, on
      an installed node the credentials, and in create mode an address in the remote
      configuration. */
  lemma CommonCheckAtTheEnd(m: Machine, s0: State, events: seq<Event>, remote: Option<Remote>, formatted: Nonempty)
    requires IsStart(s0) && IsRun(m, s0, events) && OnlyHarmless(m, s0, events)
    requires After(m, s0, events).page.Install?
    ensures var mode := ModeAfter(events, s0.config.mode);
      && AddressFits(mode, s0.config.serverUrl, events, "")
      && (Checked(m, After(m, s0, events).config, remote, formatted) <==>
            || mode == InstallOnly
            || (&& InstallSet(m, remote) && HasCredentials(m, s0.config, events, remote)
                && (mode == Create ==> AddressOf(remote) == "")))
  {
    StartsOnCourse(m, s0);
    RunKeepsCourse(m, s0, events);
    ConfigIsItsHistory(m, s0, events);
    AddressOnCourse(After(m, s0, events), s0.config, events);
    CommonCheckExactlyWhen(m, s0, events, remote, formatted);
  }

  lemma AddressOnCourse(s: State, c0: Config, events: seq<Event>)
    requires s.page.Install? && UrlFitsMode(s)
    requires s.config.mode == ModeAfter(events, c0.mode) && s.config.serverUrl == AddressAfter(events, c0.serverUrl)
    ensures AddressFits(ModeAfter(events, c0.mode), c0.serverUrl, events, "")
  {
    AddressLeft(events, c0.serverUrl);
  }
}
