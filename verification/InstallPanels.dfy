/** The wizard's handlers as the installer runs them: each updates the shared
    configuration, input data and page flags in place. The contracts tie every
    handler to its step of the transition system, about which the runs are
    proved. */
module InstallPanels {
  import opened Wrappers
  import opened Validator
  import opened RemoteConfig
  import opened WizardHistory
  import opened WizardInvariants
  import opened WizardRuns
  import opened WizardSteps
  import NetworkProfiles
  import Strings

  lemma SessionGoesOn(m: Machine, start: State, events: seq<Event>, i: nat)
    requires IsRun(m, start, events) && i < |events|
    ensures IsRun(m, start, events[..i]) && Enabled(m, After(m, start, events[..i]), events[i])
    ensures IsRun(m, start, events[..i + 1])
    ensures After(m, start, events[..i + 1]) == Step(m, After(m, start, events[..i]), events[i])
  {
    PrefixOfRun(m, start, events, i);
    OneMore(m, start, events[..i], events[i]);
    assert events[..i + 1] == events[..i] + [events[i]];
  }

  lemma SessionOutcome(m: Machine, start: State, events: seq<Event>)
    requires IsStart(start) && IsRun(m, start, events)
    ensures var s := After(m, start, events);
      && Inv(m, s)
      && (OnlyHarmless(m, start, events) ==> OnCourse(m, s))
      && (s.page.Install? ==> forall remote: Option<Remote>, formatted: Nonempty ::
            Checked(m, s.config, remote, formatted) <==> Passes(m, start.config, events, remote))
  {
    StartsOnCourse(m, start);
    RunKeepsInv(m, start, events);
    if OnlyHarmless(m, start, events) {
      RunKeepsCourse(m, start, events);
    }
    if After(m, start, events).page.Install? {
      forall remote: Option<Remote>, formatted: Nonempty {
        CommonCheckExactlyWhen(m, start, events, remote, formatted);
      }
    }
  }

  class Wizard {
    const machine: Machine

    /** The focused panel. */
    var page: Page
    /** `c.config`. */
    var config: Config
    /** `userInputData`. */
    var input: UserInput
    /** `mgmtNetwork`. */
    var network: NetworkProfiles.Network
    var diskConfirmed: bool
    var installModeOnly: bool
    /** `diskOptionsCache` and the widgets of the disk page. */
    var disks: DiskFields
    /** Goroutines still running. */
    var tasks: multiset<Task>
    var vipRequests: nat
    var hwAddrOpen: bool

    constructor (machine: Machine, config: Config, network: NetworkProfiles.Network, preflightWarnings: seq<string>)
      requires network.method_ == ""
      ensures this.machine == machine && this.config == config && IsStart(Now())
      ensures page == if preflightWarnings == [] then AskCreate else Preflight
    {
      this.machine, this.config, this.network := machine, config, network;
      page := if preflightWarnings == [] then AskCreate else Preflight;
      input := UserInput("", "", "0.suse.pool.ntp.org", false);
      diskConfirmed, installModeOnly := false, false;
      disks := DiskFields([], [], [], [], false);
      tasks, vipRequests, hwAddrOpen := multiset{}, 0, false;
    }

    /** All fields as one value. */
    ghost function Now(): State
      reads this
    {
      State(page, config, input, network, diskConfirmed, installModeOnly, disks, tasks, vipRequests, hwAddrOpen)
    }

    // ----- Mode, role and password

    method AskCreateEnter(selected: Mode)
      modifies this
      ensures Now() == ModeChosen(machine, old(Now()), selected)
    {
      if machine.alreadyInstalled {
        config := config.(mode := OtherMode(""));
      }
      config := config.(mode := selected);
      installModeOnly := false;
      if selected == InstallOnly {
        installModeOnly := true;
      }
      if config.mode == Create {
        config := config.(role := DefaultRole);
        config := config.(serverUrl := "");
      }
      if config.mode == Join {
        page := AskRole;
      } else if machine.alreadyInstalled {
        page := NetworkPage;
      } else {
        page := PasswordEntry;
      }
    }

    method AskRoleEnter(selected: Role)
      modifies this
      ensures Now() == RoleChosen(machine, old(Now()), selected)
    {
      config := config.(role := selected);
      page := if machine.alreadyInstalled then NetworkPage else PasswordEntry;
    }

    method PasswordEnter(text: string)
      requires page.PasswordEntry?
      modifies this
      ensures Now() == PasswordEntered(old(Now()), text)
    {
      input := input.(password := text);
      if text != "" {
        page := PasswordConfirm;
      }
    }

    method PasswordConfirmEnter(text: string, encrypted: Option<Nonempty>, applied: bool, scan: Option<DiskScan>)
      modifies this
      ensures Now() == PasswordConfirmed(machine, old(Now()), text, encrypted, applied, scan)
    {
      input := input.(passwordConfirm := text);
      if input.password != input.passwordConfirm {
        return;
      }
      if encrypted.None? {
        page := Failed;
        return;
      }
      config := config.(password := encrypted.value);
      if !applied {
        page := Failed;
        return;
      }
      ShowDisks(scan);
    }

    // ----- Disks

    method PresetConfigDisks()
      modifies this`config
      ensures config == Preset(old(config), disks.options)
    {
      if config.device != "" && config.dataDisk != "" {
        return;
      }
      if |disks.options| == 0 {
        return;
      }
      if config.device == "" {
        config := config.(device := disks.options[0]);
      }
      if config.dataDisk == "" {
        config := config.(dataDisk := config.device);
      }
    }

    /** `showDiskPage`. */
    method ShowDisks(scan: Option<DiskScan>)
      modifies this
      ensures Now() == ShowDiskPage(machine, old(Now()), scan)
    {
      diskConfirmed := false;
      if scan.None? {
        page := Failed;
      } else {
        disks := disks.(options := scan.value.options, wipeable := scan.value.wipeable);
        PresetConfigDisks();
        if |disks.options| == 0 {
          page := DiskFatal;
        } else {
          page := DiskDevice;
          if config.role != Witness && (|disks.options| == 1 || config.dataDisk == config.device) {
            if !CanShowSize(machine, config, disks) {
              page := Failed;
            }
            disks := disks.(sizeShown := true);
          }
        }
      }
    }

    /** The size field's `PreShow`. */
    method ShowSizeField(focus: Page)
      modifies this`page, this`disks
      ensures Now() == ShowSize(machine, old(Now()), focus)
    {
      if disks.sizeShown && config.persistentSize != "" {
        page := focus;
        return;
      }
      if config.device !in machine.sizes {
        page := Failed;
        return;
      }
      disks := disks.(sizeShown := true);
      page := focus;
    }

    /** The two-step confirmation at the end of the disk page. */
    method GotoNext()
      modifies this
      ensures Now() == GotoNextPage(machine, old(Now()))
    {
      if !DiskSizesValid(machine, config) {
        return;
      }
      if config.role == Witness {
        config := config.(dataDisk := "");
      } else {
        var verdict := PersistentSizeVerdict(machine, config, config.persistentSize);
        if verdict == Unreadable {
          page := Failed;
          return;
        }
        if verdict == Invalid {
          return;
        }
      }
      if !diskConfirmed {
        diskConfirmed := true;
        return;
      }
      page := if installModeOnly then ConfirmInstall else NetworkPage;
    }

    method ShowWipeIfNeeded()
      modifies this
      ensures Now() == WipeIfNeeded(machine, old(Now()))
    {
      var remaining := Without(Without(disks.wipeable, config.device), config.dataDisk);
      if |remaining| != 0 {
        if config.device in config.wipeDisks || config.dataDisk in config.wipeDisks {
          config := config.(wipeDisks := []);
          disks := disks.(marks := []);
        }
        page := DiskWipe;
        return;
      }
      if machine.isBios {
        page := DiskMbr;
        return;
      }
      GotoNext();
    }

    method DiskConfirm(device: string, dataDisk: string)
      modifies this
      ensures Now() == DevicePicked(machine, old(Now()), device, dataDisk)
    {
      config := config.(device := device);
      if |disks.options| > 1 {
        if config.role == Witness {
          ShowWipeIfNeeded();
          return;
        }
        if device == dataDisk {
          ShowSizeField(DiskData);
          return;
        }
        page := DiskData;
        return;
      }
      if config.role == Witness {
        diskConfirmed := DiskSizesValid(machine, config);
        ShowWipeIfNeeded();
        return;
      }
      ShowSizeField(DiskSize);
    }

    method DataDiskConfirm(device: string, dataDisk: string)
      modifies this
      ensures Now() == DataDiskPicked(machine, old(Now()), device, dataDisk)
    {
      config := config.(dataDisk := dataDisk);
      if device == dataDisk {
        ShowSizeField(DiskSize);
        return;
      }
      diskConfirmed := true;
      ShowWipeIfNeeded();
    }

    method PersistentSizeConfirm(text: string)
      modifies this
      ensures Now() == SizeEntered(machine, old(Now()), text)
    {
      var verdict := PersistentSizeVerdict(machine, config, text);
      if verdict == Unreadable {
        page := Failed;
        return;
      }
      if verdict == Invalid {
        return;
      }
      config := config.(persistentSize := text);
      diskConfirmed := true;
      ShowWipeIfNeeded();
    }

    /** Tab on the wipe field: the list is shown and worked out again. */
    method OpenWipeList()
      requires page.DiskWipe?
      modifies this`disks, this`page
      ensures Now() == WipeOpened(old(Now()))
    {
      var options := Without(Without(disks.wipeable, config.device), config.dataDisk);
      var marks := disks.marks;
      if |marks| == 0 {
        marks := NoMarks(|options|);
      }
      if |marks| < |options| {
        page := Failed;
        return;
      }
      disks := disks.(marks := marks, selected := Marked(options, marks));
      page := DiskWipeList;
    }

    method ToggleWipeRow(row: nat)
      modifies this`disks
      ensures Now() == WipeToggled(old(Now()), row)
    {
      var options := Without(Without(disks.wipeable, config.device), config.dataDisk);
      if row < |disks.marks| && row < |options| {
        disks := disks.(marks := disks.marks[row := !disks.marks[row]]);
      }
      disks := disks.(selected := Marked(options, disks.marks));
    }

    method WipeDisksConfirm()
      modifies this
      ensures Now() == WipeAnswered(machine, old(Now()))
    {
      config := config.(wipeDisks := disks.selected);
      page := DiskWipe;
      if machine.isBios {
        page := DiskMbr;
        return;
      }
      GotoNext();
    }

    method MbrConfirm(yes: bool)
      modifies this
      ensures Now() == MbrPicked(machine, old(Now()), yes)
    {
      if yes {
        var tooLarge := ExceedsMbrLimit(machine, config.device);
        if tooLarge.None? {
          page := Failed;
          return;
        }
        if tooLarge.value {
          return;
        }
      }
      if config.forceMbr != yes {
        config := config.(forceMbr := yes);
        return;
      }
      GotoNext();
    }

    method DiskArrowUp(device: string, dataDisk: string)
      modifies this
      ensures Now() == DiskMovedUp(machine, old(Now()), device, dataDisk)
    {
      if page == DiskDevice {
        return;
      }
      diskConfirmed := false;
      if page == DiskData {
        page := DiskDevice;
      } else if page == DiskSize {
        page := if |disks.options| > 1 then DiskData else DiskDevice;
      } else if config.role == Witness {
        page := DiskDevice;
      } else if |disks.options| > 1 && device != dataDisk {
        page := DiskData;
      } else {
        ShowSizeField(DiskSize);
      }
    }

    // ----- Network

    /** `preGotoNextPage`: whether the wizard may go on. */
    method ApplyAndProbe(outcome: NetworkOutcome) returns (proceed: bool)
      modifies this`config, this`network
      ensures config == old(config).(network := Probed(old(Now()), outcome).applied)
      ensures network == Probed(old(Now()), outcome).left
      ensures proceed == Probed(old(Now()), outcome).proceed
    {
      if outcome == Refused || !NetworkProfiles.Supported(network) {
        return false;
      }
      config := config.(network := network);
      if network.method_ == NetworkProfiles.METHOD_DHCP {
        if outcome == DhcpFailed {
          return false;
        }
        network := network.(ip := "", subnetMask := "", gateway := "", mtu := 0);
        if outcome == NoDefaultRoute {
          return false;
        }
      }
      return outcome != RouteUnreadable;
    }

    method NetworkReply(outcome: NetworkOutcome)
      modifies this
      ensures Now() == NetworkFinished(old(Now()), outcome)
    {
      ghost var probe := Probed(Now(), outcome);
      var proceed := ApplyAndProbe(outcome);
      ShowAfterNetwork(proceed);
      assert Now() == ProbeFinished(old(Now()), probe);
    }

    method ShowAfterNetwork(proceed: bool)
      modifies this`tasks, this`page
      ensures tasks == old(tasks) - multiset{ApplyNetwork}
      ensures page == if proceed then AfterNetwork(old(Now())) else NetworkPage
    {
      tasks := tasks - multiset{ApplyNetwork};
      page := NetworkPage;
      if proceed {
        page := if config.mode == Create then ClusterNetwork else Hostname;
      }
    }

    method DnsReply(servers: string, ok: bool)
      modifies this
      ensures Now() == DnsFinished(old(Now()), servers, ok)
    {
      tasks := tasks - multiset{SetDns(servers)};
      if network.method_ == NetworkProfiles.METHOD_STATIC && servers == "" {
        page := DnsServers;
        return;
      }
      if servers != "" {
        if !ok {
          page := DnsServers;
          return;
        }
        config := config.(dnsServers := Strings.Split(servers, ','));
      }
      page := if config.mode == Create then VipMethod else ServerUrl;
    }

    method VipReply(ok: bool)
      requires vipRequests > 0
      modifies this
      ensures Now() == VipFinished(old(Now()), ok)
    {
      vipRequests := vipRequests - 1;
      if !ok {
        page := VipMethod;
        return;
      }
      if !hwAddrOpen {
        page := Failed;
      }
    }

    method VipArrowUp(dhcp: bool)
      modifies this
      ensures Now() == VipMovedUp(old(Now()), dhcp)
    {
      if page == VipAddress && dhcp {
        hwAddrOpen := true;
        page := VipHwAddr;
        return;
      }
      page := VipMethod;
    }

    // ----- Management address, token, time servers and optional pages

    method ServerUrlEnter(text: string, formatted: Option<Nonempty>)
      modifies this
      ensures Now() == ServerUrlEntered(old(Now()), text, formatted)
    {
      if text == "" {
        return;
      }
      if formatted.None? {
        return;
      }
      tasks := tasks + multiset{Ping(formatted.value)};
      page := Waiting(ServerUrl);
    }

    method PingReply(url: Nonempty, ok: bool)
      modifies this
      ensures Now() == PingFinished(old(Now()), url, ok)
    {
      tasks := tasks - multiset{Ping(url)};
      if !ok {
        page := ServerUrl;
        return;
      }
      config := config.(serverUrl := url);
      page := TokenPage;
    }

    method TokenEnter(text: string)
      modifies this
      ensures Now() == TokenEntered(old(Now()), text)
    {
      if text == "" {
        return;
      }
      if !ValidToken(text) {
        return;
      }
      config := config.(token := text);
      page := NtpServers;
    }

    method NtpEnter(text: string)
      modifies this
      ensures Now() == NtpEntered(old(Now()), text)
    {
      if input.ntp == text && input.ntpChecked {
        input := input.(ntpChecked := false);
        page := Proxy;
        return;
      }
      input := input.(ntpChecked := false);
      tasks := tasks + multiset{CheckNtp(text)};
      page := Waiting(NtpServers);
    }

    method NtpReply(servers: string, outcome: NtpOutcome)
      modifies this`tasks, this`page, this`input
      ensures Now() == NtpFinished(old(Now()), servers, outcome)
    {
      tasks := tasks - multiset{CheckNtp(servers)};
      if outcome == SpaceInInput {
        page := NtpServers;
        return;
      }
      input := input.(ntpChecked := true, ntp := servers);
      if servers == "" {
        page := NtpServers;
        return;
      }
      if outcome == Unreachable {
        page := NtpServers;
        return;
      }
      input := input.(ntpChecked := false);
      page := Proxy;
    }

    method KeyUrlEnter(url: string)
      modifies this
      ensures Now() == KeyUrlEntered(old(Now()), url)
    {
      config := config.(sshKeys := []);
      if url != "" {
        tasks := tasks + multiset{FetchKeys};
        page := Waiting(SshKeys);
        return;
      }
      page := CloudInit;
    }

    method ConfigUrlEnter(url: string)
      modifies this
      ensures Now() == ConfigUrlEntered(old(Now()), url)
    {
      config := config.(configUrl := url);
      if url != "" {
        tasks := tasks + multiset{FetchConfig};
        page := Waiting(CloudInit);
        return;
      }
      page := ConfirmInstall;
    }

    // ----- Escape

    method EscapePassword()
      requires page.PasswordEntry? || page.PasswordConfirm?
      modifies this`page
      ensures Now() == WentBack(machine, old(Now()), None)
    {
      if config.mode == Join {
        page := AskRole;
        return;
      }
      page := AskCreate;
    }

    method EscapeDisk()
      requires OnDiskPage(page) && CanGoBack(page)
      modifies this`page, this`diskConfirmed
      ensures Now() == WentBack(machine, old(Now()), None)
    {
      diskConfirmed := false;
      page := PasswordEntry;
    }

    method EscapeNetwork(scan: Option<DiskScan>)
      requires page.NetworkPage?
      modifies this
      ensures Now() == WentBack(machine, old(Now()), scan)
    {
      if machine.alreadyInstalled {
        if config.mode == Join {
          page := AskRole;
          return;
        }
        page := AskCreate;
        return;
      }
      ShowDisks(scan);
    }

    method EscapeHostname()
      requires page.Hostname?
      modifies this`page
      ensures Now() == WentBack(machine, old(Now()), None)
    {
      if config.mode == Create {
        page := ClusterNetwork;
        return;
      }
      page := NetworkPage;
    }

    method EscapeVip()
      requires OnVipPage(page)
      modifies this`page, this`hwAddrOpen
      ensures Now() == WentBack(machine, old(Now()), None)
    {
      hwAddrOpen := false;
      page := DnsServers;
    }

    method EscapeNtp()
      requires page.NtpServers?
      modifies this`page, this`input
      ensures Now() == WentBack(machine, old(Now()), None)
    {
      input := input.(ntpChecked := false);
      page := TokenPage;
    }

    method EscapeToken()
      requires page.TokenPage?
      modifies this`page
      ensures Now() == WentBack(machine, old(Now()), None)
    {
      if config.mode == Create {
        page := VipMethod;
        return;
      }
      page := ServerUrl;
    }

    method EscapeConfirm(scan: Option<DiskScan>)
      requires page.ConfirmInstall?
      modifies this
      ensures Now() == WentBack(machine, old(Now()), scan)
    {
      if installModeOnly {
        ShowDisks(scan);
        return;
      }
      page := CloudInit;
    }

    // ----- Dispatch: every handler is a step of the transition system

    /** Starting a background task. */
    method Park(t: Task)
      modifies this`tasks, this`page
      ensures Now() == Parked(old(Now()), t)
    {
      tasks := tasks + multiset{t};
      page := Waiting(Origin(t));
    }

    method HandleSetup(key: SetupKey)
      requires SetupEnabled(machine, Now(), key)
      modifies this
      ensures Now() == SetupStep(machine, old(Now()), key)
    {
      match key
      case Acknowledge(proceed) => page := if proceed then AskCreate else Halted;
      case ChooseMode(mode) => AskCreateEnter(mode);
      case ChooseRole(role) => AskRoleEnter(role);
      case EnterPassword(text) => PasswordEnter(text);
      case ConfirmPassword(text, encrypted, applied, scan) => PasswordConfirmEnter(text, encrypted, applied, scan);
      case UpToPassword(text) =>
        input := input.(passwordConfirm := text);
        page := PasswordEntry;
      case EditNetwork(n) => network := n;
      case SubmitNetwork => Park(ApplyNetwork);
      case SubmitCluster(accepted) => page := if accepted then Hostname else ClusterNetwork;
      case SubmitHostname(accepted) => page := if accepted then DnsServers else Hostname;
      case SubmitDns(text) => Park(SetDns(text));
    }

    method HandleDisk(key: DiskKey)
      requires DiskEnabled(Now(), key)
      modifies this
      ensures Now() == DiskStep(machine, old(Now()), key)
    {
      match key
      case PickDevice(device, dataDisk) => DiskConfirm(device, dataDisk);
      case PickDataDisk(device, dataDisk) => DataDiskConfirm(device, dataDisk);
      case EnterSize(text) => PersistentSizeConfirm(text);
      case OpenWipe => OpenWipeList();
      case ToggleWipe(row) => ToggleWipeRow(row);
      case CloseWipe => page := DiskWipe;
      case AnswerWipe => WipeDisksConfirm();
      case PickMbr(yes) => MbrConfirm(yes);
      case DiskUp(device, dataDisk) => DiskArrowUp(device, dataDisk);
    }

    method HandleVip(key: VipKey)
      requires VipEnabled(Now(), key)
      modifies this
      ensures Now() == VipStep(old(Now()), key)
    {
      match key
      case PickVipMethod(dhcp) =>
        hwAddrOpen := dhcp;
        page := if dhcp then VipHwAddr else VipAddress;
      case RequestVip(dhcp) =>
        if dhcp {
          vipRequests := vipRequests + 1;
        }
        page := VipAddress;
      case EnterVip(accepted) =>
        if accepted {
          hwAddrOpen := false;
          page := TokenPage;
        }
      case VipUp(dhcp) => VipArrowUp(dhcp);
    }

    method HandleFinal(key: FinalKey)
      requires FinalEnabled(Now(), key)
      modifies this
      ensures Now() == FinalStep(old(Now()), key)
    {
      match key
      case EnterServerUrl(text, formatted) => ServerUrlEnter(text, formatted);
      case EnterToken(text) => TokenEnter(text);
      case EnterNtp(text) => NtpEnter(text);
      case EnterProxy => page := SshKeys;
      case EnterKeyUrl(url) => KeyUrlEnter(url);
      case EnterConfigUrl(url) => ConfigUrlEnter(url);
      case Confirm(yes) => page := if yes then Install else Halted;
    }

    method HandleReply(reply: Reply)
      requires ReplyEnabled(Now(), reply)
      modifies this
      ensures Now() == ReplyStep(old(Now()), reply)
    {
      match reply
      case NetworkDone(outcome) => NetworkReply(outcome);
      case DnsDone(servers, ok) => DnsReply(servers, ok);
      case PingDone(url, ok) => PingReply(url, ok);
      case NtpDone(servers, outcome) => NtpReply(servers, outcome);
      case KeysDone(keys) => KeysReply(keys);
      case ConfigDone(ok) => ConfigReply(ok);
      case VipDone(ok) => VipReply(ok);
    }

    method KeysReply(keys: Option<seq<string>>)
      modifies this
      ensures Now() == KeysFinished(old(Now()), keys)
    {
      tasks := tasks - multiset{FetchKeys};
      if keys.None? {
        page := SshKeys;
        return;
      }
      config := config.(sshKeys := keys.value);
      page := CloudInit;
    }

    method ConfigReply(ok: bool)
      modifies this
      ensures Now() == ConfigFinished(old(Now()), ok)
    {
      tasks := tasks - multiset{FetchConfig};
      page := if ok then ConfirmInstall else CloudInit;
    }

    method HandleEscape(scan: Option<DiskScan>)
      requires CanGoBack(page)
      modifies this
      ensures Now() == WentBack(machine, old(Now()), scan)
    {
      if OnDiskPage(page) {
        EscapeDisk();
      } else if OnVipPage(page) {
        EscapeVip();
      } else {
        match page
        case AskRole => page := AskCreate;
        case PasswordEntry => EscapePassword();
        case PasswordConfirm => EscapePassword();
        case NetworkPage => EscapeNetwork(scan);
        case ClusterNetwork => page := NetworkPage;
        case Hostname => EscapeHostname();
        case DnsServers => page := Hostname;
        case ServerUrl => page := DnsServers;
        case TokenPage => EscapeToken();
        case NtpServers => EscapeNtp();
        case Proxy => page := NtpServers;
        case SshKeys => page := Proxy;
        case CloudInit => page := SshKeys;
        case ConfirmInstall => EscapeConfirm(scan);
      }
    }

    /** What every handler keeps, in any state it may find. */
    method Handle(e: Event)
      requires Enabled(machine, Now(), e)
      modifies this
      ensures Now() == Step(machine, old(Now()), e)
      ensures old(Inv(machine, Now())) ==> Inv(machine, Now())
      ensures old(Inv(machine, Now()) && OnCourse(machine, Now()) && !Harmful(machine, Now(), e)) ==>
        OnCourse(machine, Now())
    {
      ghost var s := Now();
      Dispatch(e);
      if Inv(machine, s) {
        StepKeepsInv(machine, s, e);
        if OnCourse(machine, s) && !Harmful(machine, s, e) {
          StepKeepsCourse(machine, s, e);
        }
      }
    }

    method Dispatch(e: Event)
      requires Enabled(machine, Now(), e)
      modifies this
      ensures Now() == Step(machine, old(Now()), e)
    {
      match e
      case Setup(key) => HandleSetup(key);
      case Disk(key) => HandleDisk(key);
      case Vip(key) => HandleVip(key);
      case Final(key) => HandleFinal(key);
      case Back(scan) => HandleEscape(scan);
      case Done(reply) => HandleReply(reply);
    }

    /** The main loop over the events of a session. At its end the invariants hold, and
        if it got to the install panel the configuration it built passes `commonCheck`
        if and only if the session was such as `Passes` says. */
    method Run(events: seq<Event>)
      requires IsStart(Now()) && IsRun(machine, Now(), events)
      modifies this
      ensures Now() == After(machine, old(Now()), events)
      ensures Inv(machine, Now())
      ensures OnlyHarmless(machine, old(Now()), events) ==> OnCourse(machine, Now())
      ensures page.Install? ==> forall remote: Option<Remote>, formatted: Nonempty ::
        Checked(machine, config, remote, formatted) <==> Passes(machine, old(config), events, remote)
    {
      ghost var start := Now();
      StartsOnCourse(machine, start);
      for i := 0 to |events|
        invariant IsRun(machine, start, events[..i]) && Now() == After(machine, start, events[..i])
      {
        SessionGoesOn(machine, start, events, i);
        Dispatch(events[i]);
      }
      assert events[..|events|] == events;
      SessionOutcome(machine, start, events);
    }
  }
}
