/** The invariants of the wizard: one that every step keeps, and one that is kept
    while no VIP request fails too late. */
module WizardInvariants {
  import opened Wrappers
  import opened Validator
  import opened WizardSteps
  import NetworkProfiles

  // ----- The order of the pages

  /** The page the user sees: behind the spinner, the one that put it up. */
  function Shown(p: Page): Page {
    if p.Waiting? then p.origin else p
  }

  /** The place of a page in the order of the pages; 0 outside of it. */
  function Place(p: Page): nat {
    match Shown(p)
    case AskCreate => 1
    case AskRole => 2
    case PasswordEntry => 3
    case PasswordConfirm => 3
    case DiskFatal => 4
    case DiskDevice => 4
    case DiskData => 4
    case DiskSize => 4
    case DiskWipe => 4
    case DiskWipeList => 4
    case DiskMbr => 4
    case NetworkPage => 5
    case ClusterNetwork => 6
    case Hostname => 7
    case DnsServers => 8
    case VipMethod => 9
    case VipHwAddr => 9
    case VipAddress => 9
    case ServerUrl => 10
    case TokenPage => 11
    case NtpServers => 12
    case Proxy => 13
    case SshKeys => 14
    case CloudInit => 15
    case ConfirmInstall => 16
    case Install => 17
    case _ => 0
  }

  /** The pages that belong to a mode, by place. */
  predicate InChain(m: Machine, mode: Mode, place: nat) {
    place == 1
    || (place == 2 && mode.Join?)
    || ((place == 3 || place == 4) && !m.alreadyInstalled)
    || ((place == 5 || place == 7 || place == 8 || 11 <= place <= 15) && !mode.InstallOnly?)
    || ((place == 6 || place == 9) && mode.Create?)
    || (place == 10 && mode.Join?)
    || place == 16 || place == 17
  }

  // ----- Over all runs

  predicate Pending(s: State) {
    s.tasks != multiset{} || s.vipRequests > 0
  }

  predicate ModeSet(m: Machine, s: State) {
    && (s.config.mode.Create? || s.config.mode.Join? || (s.config.mode.InstallOnly? && !m.alreadyInstalled))
    && s.installModeOnly == s.config.mode.InstallOnly?
  }

  predicate AfterToken(t: Task) {
    t.CheckNtp? || t.FetchKeys? || t.FetchConfig?
  }

  predicate NeedsToken(s: State) {
    12 <= Place(s.page) <= 15 || (Place(s.page) >= 16 && !s.installModeOnly)
  }

  /** The MBR field is for BIOS machines, the data disk field for several disks. */
  predicate FieldFits(m: Machine, s: State) {
    (s.page.DiskMbr? ==> m.isBios) && (s.page.DiskData? ==> |s.disks.options| > 1)
  }

  ghost predicate Inv(m: Machine, s: State) {
    && (Place(s.page) >= 2 || Pending(s) ==> ModeSet(m, s))
    && (!m.alreadyInstalled && (Place(s.page) >= 4 || Pending(s)) ==> s.config.password != "")
    && (s.page.PasswordConfirm? ==> s.input.password != "")
    && (NeedsToken(s) ==> ValidToken(s.config.token))
    && (forall t <- s.tasks :: AfterToken(t) ==> ValidToken(s.config.token))
    && Offered(s.network.method_)
    && FieldFits(m, s)
    && (m.alreadyInstalled ==> Place(s.page) != 3 && Place(s.page) != 4)
  }

  // ----- The disk page

  /** The size branches accept, and a disk with the MBR scheme is within its
      limit; the persistent size is accepted where it is used. */
  predicate DiskSettled(m: Machine, c: Config) {
    && CheckDeviceSizes(m, c).Ok?
    && (m.isBios && c.forceMbr ==> ExceedsMbrLimit(m, c.device) == Some(false))
    && (c.role == Witness ==> c.dataDisk == "")
    && (c.role != Witness ==> PersistentSizeVerdict(m, c, c.persistentSize) == Valid)
  }

  /** Only the disk choices, the cache and the page changed. */
  predicate OnlyDisksChanged(s: State, t: State) {
    && t.config == s.config.(device := t.config.device, dataDisk := t.config.dataDisk, forceMbr := t.config.forceMbr,
                             persistentSize := t.config.persistentSize, wipeDisks := t.config.wipeDisks)
    && t.input == s.input && t.network == s.network && t.installModeOnly == s.installModeOnly
    && t.tasks == s.tasks && t.vipRequests == s.vipRequests && t.hwAddrOpen == s.hwAddrOpen
  }

  /** Where a handler of the disk page can lead. */
  predicate DiskOutcome(m: Machine, s: State, t: State) {
    && OnlyDisksChanged(s, t)
    && (!m.isBios ==> t.config.forceMbr == s.config.forceMbr)
    && FieldFits(m, t)
    && (|| OnDiskPage(t.page)
        || t.page.Failed?
        || (t.page == (if s.installModeOnly then ConfirmInstall else NetworkPage) && DiskSettled(m, t.config)))
  }

  /** The page's size check and the validator's accept the same choices. */
  lemma SizeChecksAgree(m: Machine, c: Config)
    ensures DiskSizesValid(m, c) <==> CheckDeviceSizes(m, c).Ok?
    ensures c.role == Witness ==> CheckDeviceSizes(m, c.(dataDisk := "")) == CheckDeviceSizes(m, c)
  {
  }

  lemma LeavingTheDiskPage(m: Machine, s: State)
    requires OnDiskPage(s.page) && FieldFits(m, s)
    requires m.isBios && s.config.forceMbr ==> ExceedsMbrLimit(m, s.config.device) == Some(false)
    ensures DiskOutcome(m, s, GotoNextPage(m, s))
  {
    SizeChecksAgree(m, s.config);
    if DiskSizesValid(m, s.config) {
      if s.config.role == Witness {
        Left(m, s, s.config.(dataDisk := ""));
      } else if PersistentSizeVerdict(m, s.config, s.config.persistentSize) == Valid {
        Left(m, s, s.config);
      }
    }
  }

  lemma Left(m: Machine, s: State, c: Config)
    requires OnDiskPage(s.page) && FieldFits(m, s) && DiskSettled(m, c)
    requires c == s.config.(dataDisk := c.dataDisk)
    ensures DiskOutcome(m, s, LeaveDiskPage(s.(config := c)))
  {
  }

  lemma WipePageOrNext(m: Machine, s: State)
    requires OnDiskPage(s.page) && FieldFits(m, s)
    ensures DiskOutcome(m, s, WipeIfNeeded(m, s))
  {
    if WipeOptions(s) == [] && !m.isBios {
      LeavingTheDiskPage(m, s);
    } else if WipeOptions(s) != [] {
      var t := WipeIfNeeded(m, s);
      assert t.page.DiskWipe? && OnlyDisksChanged(s, t) && t.config.forceMbr == s.config.forceMbr;
    }
  }

  /** Choosing disks first changes only the choices. */
  lemma AfterChoice(m: Machine, s: State, t: State, u: State)
    requires OnlyDisksChanged(s, t) && t.config.forceMbr == s.config.forceMbr
    requires DiskOutcome(m, t, u)
    ensures DiskOutcome(m, s, u)
  {
  }

  lemma DevicePickedByWitness(m: Machine, s: State, device: string, dataDisk: string)
    requires s.page.DiskDevice? && s.config.role == Witness
    ensures DiskOutcome(m, s, DevicePicked(m, s, device, dataDisk))
  {
    var t := s.(config := s.config.(device := device));
    var u := if |s.disks.options| > 1 then t else t.(diskConfirmed := DiskSizesValid(m, t.config));
    WipePageOrNext(m, u);
    AfterChoice(m, s, u, WipeIfNeeded(m, u));
  }

  lemma DevicePickedOutcome(m: Machine, s: State, device: string, dataDisk: string)
    requires s.page.DiskDevice?
    ensures DiskOutcome(m, s, DevicePicked(m, s, device, dataDisk))
  {
    if s.config.role == Witness {
      DevicePickedByWitness(m, s, device, dataDisk);
    } else {
      var t := s.(config := s.config.(device := device));
      if |s.disks.options| > 1 {
        FieldShown(m, s, t, DiskData);
      }
      FieldShown(m, s, t, DiskSize);
    }
  }

  lemma FieldShown(m: Machine, s: State, t: State, field: Page)
    requires OnlyDisksChanged(s, t) && t.config.forceMbr == s.config.forceMbr
    requires (field.DiskData? && |t.disks.options| > 1) || field.DiskSize?
    ensures DiskOutcome(m, s, ShowSize(m, t, field)) && DiskOutcome(m, s, t.(page := field))
  {
  }

  lemma DataDiskPickedOutcome(m: Machine, s: State, device: string, dataDisk: string)
    requires s.page.DiskData? && FieldFits(m, s)
    ensures DiskOutcome(m, s, DataDiskPicked(m, s, device, dataDisk))
  {
    if device == dataDisk {
      FieldShown(m, s, s.(config := s.config.(dataDisk := dataDisk)), DiskSize);
    } else {
      var t := s.(config := s.config.(dataDisk := dataDisk), diskConfirmed := true);
      WipePageOrNext(m, t);
      AfterChoice(m, s, t, WipeIfNeeded(m, t));
    }
  }

  lemma SizeEnteredOutcome(m: Machine, s: State, text: string)
    requires s.page.DiskSize?
    ensures DiskOutcome(m, s, SizeEntered(m, s, text))
  {
    if PersistentSizeVerdict(m, s.config, text) == Valid {
      var t := s.(config := s.config.(persistentSize := text), diskConfirmed := true);
      WipePageOrNext(m, t);
      AfterChoice(m, s, t, WipeIfNeeded(m, t));
    }
  }

  lemma WipeAnsweredOutcome(m: Machine, s: State)
    requires s.page.DiskWipe? || s.page.DiskWipeList?
    ensures DiskOutcome(m, s, WipeAnswered(m, s))
  {
    if !m.isBios {
      var t := s.(config := s.config.(wipeDisks := s.disks.selected), page := DiskWipe);
      LeavingTheDiskPage(m, t);
      AfterChoice(m, s, t, GotoNextPage(m, t));
    }
  }

  lemma MbrPickedOutcome(m: Machine, s: State, yes: bool)
    requires s.page.DiskMbr? && m.isBios
    ensures DiskOutcome(m, s, MbrPicked(m, s, yes))
  {
    if s.config.forceMbr == yes && (yes ==> ExceedsMbrLimit(m, s.config.device) == Some(false)) {
      LeavingTheDiskPage(m, s);
    }
  }

  lemma DiskMovedUpOutcome(m: Machine, s: State, device: string, dataDisk: string)
    requires OnDiskPage(s.page) && FieldFits(m, s)
    ensures DiskOutcome(m, s, DiskMovedUp(m, s, device, dataDisk))
  {
    var above := FieldAbove(s, device, dataDisk);
    var t := s.(diskConfirmed := s.diskConfirmed && s.page.DiskDevice?);
    if above.DiskDevice? {
      assert DiskMovedUp(m, s, device, dataDisk) == t.(page := DiskDevice);
    } else {
      FieldShown(m, s, t, above);
    }
  }

  // ----- One step keeps the invariant

  lemma DiskKeepsInv(m: Machine, s: State, t: State)
    requires Inv(m, s) && OnDiskPage(s.page) && DiskOutcome(m, s, t)
    ensures Inv(m, t)
  {
  }

  lemma DiskKeyOutcome(m: Machine, s: State, key: DiskKey)
    requires Inv(m, s) && DiskEnabled(s, key)
    ensures OnDiskPage(s.page) && DiskOutcome(m, s, DiskStep(m, s, key))
  {
    match key
    case PickDevice(device, dataDisk) => DevicePickedOutcome(m, s, device, dataDisk);
    case PickDataDisk(device, dataDisk) => DataDiskPickedOutcome(m, s, device, dataDisk);
    case EnterSize(text) => SizeEnteredOutcome(m, s, text);
    case OpenWipe =>
    case ToggleWipe(_) =>
    case CloseWipe =>
    case AnswerWipe => WipeAnsweredOutcome(m, s);
    case PickMbr(yes) => MbrPickedOutcome(m, s, yes);
    case DiskUp(device, dataDisk) => DiskMovedUpOutcome(m, s, device, dataDisk);
  }

  lemma ShowingDisks(m: Machine, s: State, scan: Option<DiskScan>)
    ensures var t := ShowDiskPage(m, s, scan);
      && OnlyDisksChanged(s, t) && t.config.forceMbr == s.config.forceMbr
      && (t.page.DiskFatal? || t.page.DiskDevice? || t.page.Failed?)
  {
  }

  /** Moving to a page that has been reached before in this sense. */
  predicate MayShow(m: Machine, s: State, p: Page) {
    && (Place(p) >= 2 ==> ModeSet(m, s))
    && (!m.alreadyInstalled && Place(p) >= 4 ==> s.config.password != "")
    && (p.PasswordConfirm? ==> s.input.password != "")
    && (NeedsToken(s.(page := p)) ==> ValidToken(s.config.token))
    && FieldFits(m, s.(page := p))
    && (m.alreadyInstalled ==> Place(p) != 3 && Place(p) != 4)
  }

  /** A step that keeps the mode, the password and the token. */
  lemma Moved(m: Machine, s: State, t: State)
    requires Inv(m, s)
    requires t.config.mode == s.config.mode && t.installModeOnly == s.installModeOnly
    requires t.config.password == s.config.password && t.config.token == s.config.token
    requires t.input.password == s.input.password && Offered(t.network.method_)
    requires t.tasks <= s.tasks && t.vipRequests <= s.vipRequests && MayShow(m, t, t.page)
    ensures Inv(m, t)
  {
  }

  lemma ModeKeepsInv(m: Machine, s: State, mode: Mode)
    requires Inv(m, s) && s.page.AskCreate?
    requires mode.Create? || mode.Join? || (mode.InstallOnly? && !m.alreadyInstalled)
    ensures Inv(m, ModeChosen(m, s, mode))
  {
  }

  lemma PasswordKeepsInv(m: Machine, s: State, text: string)
    requires Inv(m, s) && s.page.PasswordEntry?
    ensures Inv(m, PasswordEntered(s, text))
  {
  }

  lemma ConfirmedKeepsInv(m: Machine, s: State, text: string, encrypted: Option<Nonempty>, applied: bool,
                          scan: Option<DiskScan>)
    requires Inv(m, s) && s.page.PasswordConfirm?
    ensures Inv(m, PasswordConfirmed(m, s, text, encrypted, applied, scan))
  {
    var t := s.(input := s.input.(passwordConfirm := text));
    if s.input.password == text && encrypted.Some? {
      ShowingDisks(m, t.(config := t.config.(password := encrypted.value)), scan);
    }
  }

  lemma TaskKeepsInv(m: Machine, s: State, t: Task)
    requires Inv(m, s) && s.page == Origin(t)
    ensures Inv(m, Parked(s, t))
  {
  }

  lemma VipRequestKeepsInv(m: Machine, s: State, dhcp: bool)
    requires Inv(m, s) && s.page.VipHwAddr?
    ensures Inv(m, VipRequested(s, dhcp))
  {
  }

  lemma TokenKeepsInv(m: Machine, s: State, text: string)
    requires Inv(m, s) && s.page.TokenPage?
    ensures Inv(m, TokenEntered(s, text))
  {
  }

  /** Pages that keep everything but themselves. */
  lemma PageKeepsInv(m: Machine, s: State, t: State)
    requires Inv(m, s) && MayShow(m, s, t.page) && t == s.(page := t.page, hwAddrOpen := t.hwAddrOpen)
    ensures Inv(m, t)
  {
    Moved(m, s, t);
  }

  lemma RoleKeepsInv(m: Machine, s: State, role: Role)
    requires Inv(m, s) && s.page.AskRole?
    ensures Inv(m, RoleChosen(m, s, role))
  {
    Moved(m, s, RoleChosen(m, s, role));
  }

  lemma UpToPasswordKeepsInv(m: Machine, s: State, text: string)
    requires Inv(m, s) && s.page.PasswordConfirm?
    ensures Inv(m, s.(input := s.input.(passwordConfirm := text), page := PasswordEntry))
  {
    Moved(m, s, s.(input := s.input.(passwordConfirm := text), page := PasswordEntry));
  }

  lemma NetworkKeepsInv(m: Machine, s: State, n: NetworkProfiles.Network)
    requires Inv(m, s) && Offered(n.method_)
    ensures Inv(m, s.(network := n))
  {
  }

  lemma NtpKeepsInv(m: Machine, s: State, text: string)
    requires Inv(m, s) && s.page.NtpServers?
    ensures Inv(m, NtpEntered(s, text))
  {
    var t := s.(input := s.input.(ntpChecked := false));
    Moved(m, s, t);
    if text == s.input.ntp && s.input.ntpChecked {
      Moved(m, s, t.(page := Proxy));
    } else {
      TaskKeepsInv(m, t, CheckNtp(text));
    }
  }

  lemma KeyUrlKeepsInv(m: Machine, s: State, url: string)
    requires Inv(m, s) && s.page.SshKeys?
    ensures Inv(m, KeyUrlEntered(s, url))
  {
    var t := s.(config := s.config.(sshKeys := []));
    Moved(m, s, t);
    if url == "" {
      Moved(m, s, t.(page := CloudInit));
    } else {
      TaskKeepsInv(m, t, FetchKeys);
    }
  }

  lemma ConfigUrlKeepsInv(m: Machine, s: State, url: string)
    requires Inv(m, s) && s.page.CloudInit?
    ensures Inv(m, ConfigUrlEntered(s, url))
  {
    var t := s.(config := s.config.(configUrl := url));
    Moved(m, s, t);
    if url == "" {
      Moved(m, s, t.(page := ConfirmInstall));
    } else {
      TaskKeepsInv(m, t, FetchConfig);
    }
  }

  lemma NetworkReplyKeepsInv(m: Machine, s: State, outcome: NetworkOutcome)
    requires Inv(m, s) && ApplyNetwork in s.tasks
    ensures Inv(m, NetworkFinished(s, outcome))
  {
    Moved(m, s, NetworkFinished(s, outcome));
  }

  lemma DnsReplyKeepsInv(m: Machine, s: State, servers: string, ok: bool)
    requires Inv(m, s) && SetDns(servers) in s.tasks
    ensures Inv(m, DnsFinished(s, servers, ok))
  {
    Moved(m, s, DnsFinished(s, servers, ok));
  }

  lemma PingReplyKeepsInv(m: Machine, s: State, url: Nonempty, ok: bool)
    requires Inv(m, s) && Ping(url) in s.tasks
    ensures Inv(m, PingFinished(s, url, ok))
  {
    Moved(m, s, PingFinished(s, url, ok));
  }

  lemma NtpOutcomeKeepsInv(m: Machine, s: State, t: State)
    requires Inv(m, s) && (exists servers :: CheckNtp(servers) in s.tasks)
    requires t == s.(tasks := t.tasks, input := t.input, page := t.page) && t.tasks <= s.tasks
    requires t.input.password == s.input.password && (t.page.NtpServers? || t.page.Proxy?)
    ensures Inv(m, t)
  {
    Moved(m, s, t);
  }

  lemma NtpReplyKeepsInv(m: Machine, s: State, servers: string, outcome: NtpOutcome)
    requires Inv(m, s) && CheckNtp(servers) in s.tasks
    ensures Inv(m, NtpFinished(s, servers, outcome))
  {
    NtpOutcomeKeepsInv(m, s, NtpFinished(s, servers, outcome));
  }

  lemma KeysReplyKeepsInv(m: Machine, s: State, keys: Option<seq<string>>)
    requires Inv(m, s) && FetchKeys in s.tasks
    ensures Inv(m, KeysFinished(s, keys))
  {
    Moved(m, s, KeysFinished(s, keys));
  }

  lemma ConfigReplyKeepsInv(m: Machine, s: State, ok: bool)
    requires Inv(m, s) && FetchConfig in s.tasks
    ensures Inv(m, ConfigFinished(s, ok))
  {
    Moved(m, s, ConfigFinished(s, ok));
  }

  lemma VipReplyKeepsInv(m: Machine, s: State, ok: bool)
    requires Inv(m, s) && s.vipRequests > 0
    ensures Inv(m, VipFinished(s, ok))
  {
    Moved(m, s, VipFinished(s, ok));
  }

  lemma EscapeKeepsInv(m: Machine, s: State, scan: Option<DiskScan>)
    requires Inv(m, s) && CanGoBack(s.page)
    ensures Inv(m, WentBack(m, s, scan))
  {
    if ReturnsToDisks(m, s) {
      ShowingDisks(m, s, scan);
      Moved(m, s, ShowDiskPage(m, s, scan));
    } else {
      EarlierPage(m, s);
      Moved(m, s, WentBack(m, s, scan));
    }
  }

  lemma EarlierPage(m: Machine, s: State)
    requires Inv(m, s) && CanGoBack(s.page) && !ReturnsToDisks(m, s)
    ensures MayShow(m, s, PreviousPage(s))
  {
  }

  lemma SetupKeepsInv(m: Machine, s: State, key: SetupKey)
    requires Inv(m, s) && SetupEnabled(m, s, key)
    ensures Inv(m, SetupStep(m, s, key))
  {
    match key
    case EditNetwork(n) => NetworkKeepsInv(m, s, n);
    case SubmitNetwork => TaskKeepsInv(m, s, ApplyNetwork);
    case SubmitCluster(_) => PageKeepsInv(m, s, SetupStep(m, s, key));
    case SubmitHostname(_) => PageKeepsInv(m, s, SetupStep(m, s, key));
    case SubmitDns(text) => TaskKeepsInv(m, s, SetDns(text));
    case _ => FirstKeysKeepInv(m, s, key);
  }

  lemma FirstKeysKeepInv(m: Machine, s: State, key: SetupKey)
    requires Inv(m, s) && SetupEnabled(m, s, key) && Place(s.page) <= 3
    ensures Inv(m, SetupStep(m, s, key))
  {
    match key
    case Acknowledge(_) => PageKeepsInv(m, s, SetupStep(m, s, key));
    case ChooseMode(mode) => ModeKeepsInv(m, s, mode);
    case ChooseRole(role) => RoleKeepsInv(m, s, role);
    case EnterPassword(text) => PasswordKeepsInv(m, s, text);
    case ConfirmPassword(text, encrypted, applied, scan) => ConfirmedKeepsInv(m, s, text, encrypted, applied, scan);
    case UpToPassword(text) => UpToPasswordKeepsInv(m, s, text);
  }

  lemma VipPageKeepsInv(m: Machine, s: State, t: State)
    requires Inv(m, s) && OnVipPage(s.page) && t == s.(page := t.page, hwAddrOpen := t.hwAddrOpen)
    requires OnVipPage(t.page) || t.page.TokenPage?
    ensures Inv(m, t)
  {
    PageKeepsInv(m, s, t);
  }

  lemma VipKeepsInv(m: Machine, s: State, key: VipKey)
    requires Inv(m, s) && VipEnabled(s, key)
    ensures Inv(m, VipStep(s, key))
  {
    match key
    case PickVipMethod(dhcp) => VipPageKeepsInv(m, s, VipMethodPicked(s, dhcp));
    case RequestVip(dhcp) => VipRequestKeepsInv(m, s, dhcp);
    case EnterVip(accepted) =>
      if accepted {
        VipPageKeepsInv(m, s, s.(hwAddrOpen := false, page := TokenPage));
      }
    case VipUp(dhcp) => VipPageKeepsInv(m, s, VipMovedUp(s, dhcp));
  }

  lemma FinalKeepsInv(m: Machine, s: State, key: FinalKey)
    requires Inv(m, s) && FinalEnabled(s, key)
    ensures Inv(m, FinalStep(s, key))
  {
    match key
    case EnterServerUrl(text, formatted) =>
      if text != "" && formatted.Some? {
        TaskKeepsInv(m, s, Ping(formatted.value));
      }
    case EnterToken(text) => TokenKeepsInv(m, s, text);
    case EnterNtp(text) => NtpKeepsInv(m, s, text);
    case EnterProxy => PageKeepsInv(m, s, s.(page := SshKeys));
    case EnterKeyUrl(url) => KeyUrlKeepsInv(m, s, url);
    case EnterConfigUrl(url) => ConfigUrlKeepsInv(m, s, url);
    case Confirm(yes) => PageKeepsInv(m, s, s.(page := if yes then Install else Halted));
  }

  lemma ReplyKeepsInv(m: Machine, s: State, reply: Reply)
    requires Inv(m, s) && ReplyEnabled(s, reply)
    ensures Inv(m, ReplyStep(s, reply))
  {
    match reply
    case NetworkDone(outcome) => NetworkReplyKeepsInv(m, s, outcome);
    case DnsDone(servers, ok) => DnsReplyKeepsInv(m, s, servers, ok);
    case PingDone(url, ok) => PingReplyKeepsInv(m, s, url, ok);
    case NtpDone(servers, outcome) => NtpReplyKeepsInv(m, s, servers, outcome);
    case KeysDone(keys) => KeysReplyKeepsInv(m, s, keys);
    case ConfigDone(ok) => ConfigReplyKeepsInv(m, s, ok);
    case VipDone(ok) => VipReplyKeepsInv(m, s, ok);
  }

  lemma StepKeepsInv(m: Machine, s: State, e: Event)
    requires Inv(m, s) && Enabled(m, s, e)
    ensures Inv(m, Step(m, s, e))
  {
    match e
    case Setup(key) => SetupKeepsInv(m, s, key);
    case Disk(key) =>
      DiskKeyOutcome(m, s, key);
      DiskKeepsInv(m, s, DiskStep(m, s, key));
    case Vip(key) => VipKeepsInv(m, s, key);
    case Final(key) => FinalKeepsInv(m, s, key);
    case Back(scan) => EscapeKeepsInv(m, s, scan);
    case Done(reply) => ReplyKeepsInv(m, s, reply);
  }

  // ----- On course

  /** No background task but the one the waiting page started. */
  ghost predicate Focused(s: State) {
    s.page.Failed?
    || (if s.page.Waiting? then exists t: Task :: s.tasks == multiset{t} && s.page.origin == Origin(t)
        else s.tasks == multiset{})
  }

  predicate NetworkSettled(s: State) {
    NetworkProfiles.Supported(s.config.network) && s.config.network.method_ == s.network.method_
  }

  predicate UrlFitsMode(s: State) {
    && (s.config.mode.Create? && Place(s.page) >= 2 ==> s.config.serverUrl == "")
    && (s.config.mode.Join? && Place(s.page) >= 11 ==> s.config.serverUrl != "")
  }

  predicate DnsSettled(s: State) {
    s.config.network.method_ == NetworkProfiles.METHOD_STATIC ==> s.config.dnsServers != []
  }

  /** The page belongs to the mode, and everything the pages before it settle is
      settled. */
  ghost predicate OnCourse(m: Machine, s: State) {
    && Focused(s)
    && (s.hwAddrOpen ==> OnVipPage(s.page) || s.page.Failed?)
    && (Place(s.page) >= 2 ==> InChain(m, s.config.mode, Place(s.page)))
    && UrlFitsMode(s)
    && (!m.alreadyInstalled && Place(s.page) >= 5 ==> DiskSettled(m, s.config))
    && (Place(s.page) >= 6 && !s.installModeOnly ==> NetworkSettled(s))
    && (Place(s.page) >= 9 && !s.installModeOnly ==> DnsSettled(s))
  }

  lemma DiskKeepsCourse(m: Machine, s: State, t: State)
    requires Inv(m, s) && OnCourse(m, s) && OnDiskPage(s.page) && DiskOutcome(m, s, t)
    ensures OnCourse(m, t)
  {
  }

  lemma ModeKeepsCourse(m: Machine, s: State, mode: Mode)
    requires Inv(m, s) && OnCourse(m, s) && s.page.AskCreate?
    requires mode.Create? || mode.Join? || (mode.InstallOnly? && !m.alreadyInstalled)
    ensures OnCourse(m, ModeChosen(m, s, mode))
  {
  }

  lemma RoleKeepsCourse(m: Machine, s: State, role: Role)
    requires Inv(m, s) && OnCourse(m, s) && s.page.AskRole?
    ensures OnCourse(m, RoleChosen(m, s, role))
  {
  }

  lemma ConfirmedKeepsCourse(m: Machine, s: State, text: string, encrypted: Option<Nonempty>, applied: bool,
                             scan: Option<DiskScan>)
    requires Inv(m, s) && OnCourse(m, s) && s.page.PasswordConfirm?
    ensures OnCourse(m, PasswordConfirmed(m, s, text, encrypted, applied, scan))
  {
    var t := s.(input := s.input.(passwordConfirm := text));
    if s.input.password == text && encrypted.Some? {
      ShowingDisks(m, t.(config := t.config.(password := encrypted.value)), scan);
    }
  }

  lemma TaskKeepsCourse(m: Machine, s: State, t: Task)
    requires OnCourse(m, s) && s.page == Origin(t)
    ensures OnCourse(m, Parked(s, t))
  {
    assert s.tasks + multiset{t} == multiset{t};
  }

  /** On course, a reply finds its own page waiting and no other task. */
  lemma OwnReply(s: State, t: Task)
    requires Focused(s) && !s.page.Failed? && t in s.tasks
    ensures s.page == Waiting(Origin(t)) && s.tasks - multiset{t} == multiset{}
  {
    var u: Task :| s.tasks == multiset{u} && s.page.origin == Origin(u);
    assert t == u;
  }

  lemma NetworkReplyKeepsCourse(m: Machine, s: State, outcome: NetworkOutcome)
    requires Inv(m, s) && OnCourse(m, s) && !s.page.Failed? && ApplyNetwork in s.tasks
    ensures OnCourse(m, NetworkFinished(s, outcome))
  {
    OwnReply(s, ApplyNetwork);
  }

  lemma DnsReplyKeepsCourse(m: Machine, s: State, servers: string, ok: bool)
    requires Inv(m, s) && OnCourse(m, s) && !s.page.Failed? && SetDns(servers) in s.tasks
    ensures OnCourse(m, DnsFinished(s, servers, ok))
  {
    OwnReply(s, SetDns(servers));
  }

  lemma PingReplyKeepsCourse(m: Machine, s: State, url: Nonempty, ok: bool)
    requires Inv(m, s) && OnCourse(m, s) && !s.page.Failed? && Ping(url) in s.tasks
    ensures OnCourse(m, PingFinished(s, url, ok))
  {
    OwnReply(s, Ping(url));
  }

  /** A reply to one of the optional pages that opens the page again or the next. */
  lemma LateReplyKeepsCourse(m: Machine, s: State, t: State)
    requires Inv(m, s) && OnCourse(m, s) && s.page.Waiting? && 12 <= Place(s.page) <= 15
    requires t == s.(config := s.config.(sshKeys := t.config.sshKeys), input := t.input, tasks := multiset{},
                     page := t.page)
    requires !t.page.Waiting? && (Place(t.page) == Place(s.page) || Place(t.page) == Place(s.page) + 1)
    ensures OnCourse(m, t)
  {
  }

  lemma NtpReplyKeepsCourse(m: Machine, s: State, servers: string, outcome: NtpOutcome)
    requires Inv(m, s) && OnCourse(m, s) && !s.page.Failed? && CheckNtp(servers) in s.tasks
    ensures OnCourse(m, NtpFinished(s, servers, outcome))
  {
    OwnReply(s, CheckNtp(servers));
    LateReplyKeepsCourse(m, s, NtpFinished(s, servers, outcome));
  }

  lemma KeysReplyKeepsCourse(m: Machine, s: State, keys: Option<seq<string>>)
    requires Inv(m, s) && OnCourse(m, s) && !s.page.Failed? && FetchKeys in s.tasks
    ensures OnCourse(m, KeysFinished(s, keys))
  {
    OwnReply(s, FetchKeys);
    LateReplyKeepsCourse(m, s, KeysFinished(s, keys));
  }

  lemma ConfigReplyKeepsCourse(m: Machine, s: State, ok: bool)
    requires Inv(m, s) && OnCourse(m, s) && !s.page.Failed? && FetchConfig in s.tasks
    ensures OnCourse(m, ConfigFinished(s, ok))
  {
    OwnReply(s, FetchConfig);
    LateReplyKeepsCourse(m, s, ConfigFinished(s, ok));
  }

  /** What the pages before the VIP page settle. */
  predicate SettledBeforeVip(m: Machine, s: State) {
    && s.config.serverUrl == "" && (m.alreadyInstalled || DiskSettled(m, s.config))
    && NetworkSettled(s) && DnsSettled(s)
  }

  predicate FailureIsHarmless(m: Machine, s: State) {
    s.config.mode.Create? && !s.page.Waiting? && SettledBeforeVip(m, s)
  }

  lemma HarmlessFailure(m: Machine, s: State)
    requires OnCourse(m, s) && s.vipRequests > 0 && !s.page.Failed? && FailureIsHarmless(m, s)
    ensures OnCourse(m, VipFinished(s, false))
  {
  }

  lemma HarmfulFailure(m: Machine, s: State)
    requires Inv(m, s) && OnCourse(m, s) && s.vipRequests > 0 && !s.page.Failed?
    requires OnCourse(m, VipFinished(s, false))
    ensures FailureIsHarmless(m, s)
  {
  }

  /** A failed VIP request leaves the wizard on course if and only if it finds a new
      cluster being set up, no other task under way, and the pages before the VIP
      page settled; and on the VIP page it always does. */
  lemma FailureIsHarmlessExactlyWhen(m: Machine, s: State)
    requires Inv(m, s) && OnCourse(m, s) && s.vipRequests > 0 && !s.page.Failed?
    ensures OnCourse(m, VipFinished(s, false)) <==> FailureIsHarmless(m, s)
    ensures OnVipPage(s.page) ==> FailureIsHarmless(m, s)
  {
    if OnVipPage(s.page) || FailureIsHarmless(m, s) {
      SettledOnVipPage(m, s);
      HarmlessFailure(m, s);
    } else if OnCourse(m, VipFinished(s, false)) {
      HarmfulFailure(m, s);
    }
  }

  lemma SettledOnVipPage(m: Machine, s: State)
    requires Inv(m, s) && OnCourse(m, s)
    ensures OnVipPage(s.page) ==> FailureIsHarmless(m, s)
  {
  }

  /** A VIP request that fails while the wizard cannot take it. */
  predicate Harmful(m: Machine, s: State, e: Event) {
    e == Done(VipDone(false)) && !FailureIsHarmless(m, s)
  }

  lemma VipReplyKeepsCourse(m: Machine, s: State, ok: bool)
    requires Inv(m, s) && OnCourse(m, s) && s.vipRequests > 0 && !s.page.Failed? && (ok || FailureIsHarmless(m, s))
    ensures OnCourse(m, VipFinished(s, ok))
  {
    if !ok {
      HarmlessFailure(m, s);
    }
  }

  lemma EscapeKeepsCourse(m: Machine, s: State, scan: Option<DiskScan>)
    requires Inv(m, s) && OnCourse(m, s) && CanGoBack(s.page)
    ensures OnCourse(m, WentBack(m, s, scan))
  {
    if ReturnsToDisks(m, s) {
      ShowingDisks(m, s, scan);
    } else {
      Returned(m, s);
    }
  }

  /** Escape leads to an earlier page of the mode. */
  lemma Returned(m: Machine, s: State)
    requires Inv(m, s) && OnCourse(m, s) && CanGoBack(s.page) && !ReturnsToDisks(m, s)
    ensures var p := PreviousPage(s);
      && Place(p) < Place(s.page) && InChain(m, s.config.mode, Place(p)) && !p.Waiting?
      && (OnVipPage(p) ==> !OnVipPage(s.page))
  {
  }

  /** A key that keeps what the earlier pages settled and opens a page of the
      mode. */
  lemma PageKeepsCourse(m: Machine, s: State, t: State)
    requires Inv(m, s) && OnCourse(m, s) && !s.page.Waiting? && !s.page.Failed?
    requires t.config == s.config.(token := t.config.token, sshKeys := t.config.sshKeys,
                                   configUrl := t.config.configUrl)
    requires t.network == s.network && t.tasks == s.tasks && t.installModeOnly == s.installModeOnly
    requires !t.page.Waiting? && (t.hwAddrOpen ==> OnVipPage(t.page))
    requires InChain(m, s.config.mode, Place(t.page)) || Place(t.page) == 0
    requires Place(t.page) <= Place(s.page) || Place(s.page) >= 11
          || (s.page.ClusterNetwork? && t.page.Hostname?) || (s.page.Hostname? && t.page.DnsServers?)
          || (OnVipPage(s.page) && t.page.TokenPage?)
    ensures OnCourse(m, t)
  {
  }

  lemma FirstPagesKeepCourse(m: Machine, s: State, t: State)
    requires OnCourse(m, s) && !s.page.Waiting? && !s.page.Failed? && !OnVipPage(s.page) && Place(s.page) <= 5
    requires t == s.(page := t.page, input := t.input, network := t.network)
    requires Place(t.page) <= 1 || Place(t.page) == Place(s.page)
    requires !t.page.Waiting? && !t.page.Failed?
    ensures OnCourse(m, t)
  {
  }

  lemma SetupKeepsCourse(m: Machine, s: State, key: SetupKey)
    requires Inv(m, s) && OnCourse(m, s) && SetupEnabled(m, s, key)
    ensures OnCourse(m, SetupStep(m, s, key))
  {
    match key
    case EditNetwork(n) => FirstPagesKeepCourse(m, s, s.(network := n));
    case SubmitNetwork => TaskKeepsCourse(m, s, ApplyNetwork);
    case SubmitCluster(_) => PageKeepsCourse(m, s, SetupStep(m, s, key));
    case SubmitHostname(_) => PageKeepsCourse(m, s, SetupStep(m, s, key));
    case SubmitDns(text) => TaskKeepsCourse(m, s, SetDns(text));
    case _ => FirstKeysKeepCourse(m, s, key);
  }

  /** The keys of the pages before the disk page. */
  lemma FirstKeysKeepCourse(m: Machine, s: State, key: SetupKey)
    requires Inv(m, s) && OnCourse(m, s) && SetupEnabled(m, s, key) && Place(s.page) <= 3
    ensures OnCourse(m, SetupStep(m, s, key))
  {
    match key
    case ChooseMode(mode) => ModeKeepsCourse(m, s, mode);
    case ChooseRole(role) => RoleKeepsCourse(m, s, role);
    case ConfirmPassword(text, encrypted, applied, scan) => ConfirmedKeepsCourse(m, s, text, encrypted, applied, scan);
    case _ => FirstPagesKeepCourse(m, s, SetupStep(m, s, key));
  }

  lemma VipPageKeepsCourse(m: Machine, s: State, t: State)
    requires Inv(m, s) && OnCourse(m, s) && OnVipPage(s.page)
    requires t == s.(page := t.page, hwAddrOpen := t.hwAddrOpen, vipRequests := t.vipRequests)
    requires OnVipPage(t.page) || (t.page.TokenPage? && !t.hwAddrOpen)
    ensures OnCourse(m, t)
  {
    PageKeepsCourse(m, s, t);
  }

  lemma VipKeepsCourse(m: Machine, s: State, key: VipKey)
    requires Inv(m, s) && OnCourse(m, s) && VipEnabled(s, key)
    ensures OnCourse(m, VipStep(s, key))
  {
    match key
    case PickVipMethod(dhcp) => VipPageKeepsCourse(m, s, VipMethodPicked(s, dhcp));
    case RequestVip(dhcp) => VipPageKeepsCourse(m, s, VipRequested(s, dhcp));
    case EnterVip(accepted) =>
      if accepted {
        VipPageKeepsCourse(m, s, s.(hwAddrOpen := false, page := TokenPage));
      }
    case VipUp(dhcp) => VipPageKeepsCourse(m, s, VipMovedUp(s, dhcp));
  }

  lemma NtpKeepsCourse(m: Machine, s: State, text: string)
    requires Inv(m, s) && OnCourse(m, s) && s.page.NtpServers?
    ensures OnCourse(m, NtpEntered(s, text))
  {
    var t := s.(input := s.input.(ntpChecked := false));
    if text == s.input.ntp && s.input.ntpChecked {
      PageKeepsCourse(m, s, t.(page := Proxy));
    } else {
      PageKeepsCourse(m, s, t);
      TaskKeepsCourse(m, t, CheckNtp(text));
    }
  }

  lemma KeyUrlKeepsCourse(m: Machine, s: State, url: string)
    requires Inv(m, s) && OnCourse(m, s) && s.page.SshKeys?
    ensures OnCourse(m, KeyUrlEntered(s, url))
  {
    var t := s.(config := s.config.(sshKeys := []));
    PageKeepsCourse(m, s, t);
    if url == "" {
      PageKeepsCourse(m, s, t.(page := CloudInit));
    } else {
      TaskKeepsCourse(m, t, FetchKeys);
    }
  }

  lemma ConfigUrlKeepsCourse(m: Machine, s: State, url: string)
    requires Inv(m, s) && OnCourse(m, s) && s.page.CloudInit?
    ensures OnCourse(m, ConfigUrlEntered(s, url))
  {
    var t := s.(config := s.config.(configUrl := url));
    PageKeepsCourse(m, s, t);
    if url == "" {
      PageKeepsCourse(m, s, t.(page := ConfirmInstall));
    } else {
      TaskKeepsCourse(m, t, FetchConfig);
    }
  }

  lemma TokenKeepsCourse(m: Machine, s: State, text: string)
    requires Inv(m, s) && OnCourse(m, s) && s.page.TokenPage?
    ensures OnCourse(m, TokenEntered(s, text))
  {
    if ValidToken(text) {
      PageKeepsCourse(m, s, s.(config := s.config.(token := text), page := NtpServers));
    }
  }

  lemma ConfirmKeepsCourse(m: Machine, s: State, yes: bool)
    requires Inv(m, s) && OnCourse(m, s) && s.page.ConfirmInstall?
    ensures OnCourse(m, s.(page := if yes then Install else Halted))
  {
    PageKeepsCourse(m, s, s.(page := if yes then Install else Halted));
  }

  lemma FinalKeepsCourse(m: Machine, s: State, key: FinalKey)
    requires Inv(m, s) && OnCourse(m, s) && FinalEnabled(s, key)
    ensures OnCourse(m, FinalStep(s, key))
  {
    match key
    case EnterServerUrl(text, formatted) =>
      if text != "" && formatted.Some? {
        TaskKeepsCourse(m, s, Ping(formatted.value));
      }
    case EnterToken(text) => TokenKeepsCourse(m, s, text);
    case EnterNtp(text) => NtpKeepsCourse(m, s, text);
    case EnterProxy => PageKeepsCourse(m, s, s.(page := SshKeys));
    case EnterKeyUrl(url) => KeyUrlKeepsCourse(m, s, url);
    case EnterConfigUrl(url) => ConfigUrlKeepsCourse(m, s, url);
    case Confirm(yes) => ConfirmKeepsCourse(m, s, yes);
  }

  lemma ReplyKeepsCourse(m: Machine, s: State, reply: Reply)
    requires Inv(m, s) && OnCourse(m, s) && ReplyEnabled(s, reply) && !s.page.Failed?
    requires !Harmful(m, s, Done(reply))
    ensures OnCourse(m, ReplyStep(s, reply))
  {
    match reply
    case NetworkDone(outcome) => NetworkReplyKeepsCourse(m, s, outcome);
    case DnsDone(servers, ok) => DnsReplyKeepsCourse(m, s, servers, ok);
    case PingDone(url, ok) => PingReplyKeepsCourse(m, s, url, ok);
    case NtpDone(servers, outcome) => NtpReplyKeepsCourse(m, s, servers, outcome);
    case KeysDone(keys) => KeysReplyKeepsCourse(m, s, keys);
    case ConfigDone(ok) => ConfigReplyKeepsCourse(m, s, ok);
    case VipDone(ok) => VipReplyKeepsCourse(m, s, ok);
  }

  lemma StepKeepsCourse(m: Machine, s: State, e: Event)
    requires Inv(m, s) && OnCourse(m, s) && Enabled(m, s, e) && !Harmful(m, s, e)
    ensures OnCourse(m, Step(m, s, e))
  {
    match e
    case Setup(key) => SetupKeepsCourse(m, s, key);
    case Disk(key) =>
      DiskKeyOutcome(m, s, key);
      DiskKeepsCourse(m, s, DiskStep(m, s, key));
    case Vip(key) => VipKeepsCourse(m, s, key);
    case Final(key) => FinalKeepsCourse(m, s, key);
    case Back(scan) => EscapeKeepsCourse(m, s, scan);
    case Done(reply) => ReplyKeepsCourse(m, s, reply);
  }
}
