/** The installation wizard as a transition system: what each key handler and
    each finished background task of pkg/console/install_panels.go and
    pkg/console/helper.go does to the shared state. What a widget holds when its
    handler runs, and how a command or request ends, arrives in the event. */
module WizardSteps {
  import opened Wrappers
  import opened PartitionSize
  import opened Validator
  import Strings
  import NetworkProfiles

  /** The focused panel; `Waiting` while a background task holds the focus on the
      spinner, with the page that started it; `DiskWipeList` the opened list of
      the wipe field. `Failed`: a handler returned an error or panicked, which ends
      the main loop. */
  datatype Page =
    | Preflight | AskCreate | AskRole
    | PasswordEntry | PasswordConfirm
    | DiskFatal | DiskDevice | DiskData | DiskSize | DiskWipe | DiskWipeList | DiskMbr
    | NetworkPage | ClusterNetwork | Hostname | DnsServers
    | VipMethod | VipHwAddr | VipAddress
    | ServerUrl | TokenPage | NtpServers | Proxy | SshKeys | CloudInit
    | ConfirmInstall | Install | Halted | Failed
    | Waiting(origin: Page)

  /** A background task other than a VIP request. */
  datatype Task =
    | ApplyNetwork
    | SetDns(servers: string)
    | Ping(url: Nonempty)
    | CheckNtp(servers: string)
    | FetchKeys
    | FetchConfig

  type Nonempty = s: string | s != "" witness "x"

  function Origin(t: Task): Page {
    match t
    case ApplyNetwork => NetworkPage
    case SetDns(_) => DnsServers
    case Ping(_) => ServerUrl
    case CheckNtp(_) => NtpServers
    case FetchKeys => SshKeys
    case FetchConfig => CloudInit
  }

  /** `input` is `userInputData`, `network` is `mgmtNetwork`. `hwAddrOpen` says that
      the VIP hardware address field is open, `vipRequests` how many VIP requests
      have not come back. */
  datatype State = State(
    page: Page, config: Config, input: UserInput, network: NetworkProfiles.Network,
    diskConfirmed: bool, installModeOnly: bool, disks: DiskFields,
    tasks: multiset<Task>, vipRequests: nat, hwAddrOpen: bool)

  datatype UserInput = UserInput(password: string, passwordConfirm: string, ntp: string, ntpChecked: bool)

  datatype DiskScan = DiskScan(options: seq<string>, wipeable: seq<string>)

  /** The disk cache (all disks, and those with an installation on them) and what
      the disk page's fields remember: the wipe field's marks by position and the
      disks they last stood for, and whether the size field has been shown. */
  datatype DiskFields = DiskFields(
    options: seq<string>, wipeable: seq<string>,
    marks: seq<bool>, selected: seq<string>, sizeShown: bool)

  datatype NetworkOutcome = Refused | DhcpFailed | RouteUnreadable | NoDefaultRoute | Applied

  datatype NtpOutcome = SpaceInInput | Unreachable | Reached

  /** Keys on the mode, role, password and network pages. */
  datatype SetupKey =
    | Acknowledge(proceed: bool)
    | ChooseMode(mode: Mode)
    | ChooseRole(role: Role)
    | EnterPassword(text: string)
    | ConfirmPassword(text: string, encrypted: Option<Nonempty>, applied: bool, scan: Option<DiskScan>)
    | UpToPassword(text: string)
    | EditNetwork(network: NetworkProfiles.Network)
    | SubmitNetwork
    | SubmitCluster(accepted: bool)
    | SubmitHostname(accepted: bool)
    | SubmitDns(text: string)

  datatype DiskKey =
    | PickDevice(device: string, dataDisk: string)
    | PickDataDisk(device: string, dataDisk: string)
    | EnterSize(text: string)
    | OpenWipe
    | ToggleWipe(row: nat)
    | CloseWipe
    | AnswerWipe
    | PickMbr(yes: bool)
    | DiskUp(device: string, dataDisk: string)

  datatype VipKey =
    | PickVipMethod(dhcp: bool)
    | RequestVip(dhcp: bool)
    | EnterVip(accepted: bool)
    | VipUp(dhcp: bool)

  /** Keys on the pages from the management address on. */
  datatype FinalKey =
    | EnterServerUrl(text: string, formatted: Option<Nonempty>)
    | EnterToken(text: string)
    | EnterNtp(text: string)
    | EnterProxy
    | EnterKeyUrl(text: string)
    | EnterConfigUrl(text: string)
    | Confirm(yes: bool)

  /** The end of a background task. */
  datatype Reply =
    | NetworkDone(outcome: NetworkOutcome)
    | DnsDone(servers: string, ok: bool)
    | PingDone(url: Nonempty, ok: bool)
    | NtpDone(servers: string, ntpOutcome: NtpOutcome)
    | KeysDone(keys: Option<seq<string>>)
    | ConfigDone(ok: bool)
    | VipDone(ok: bool)

  datatype Event =
    | Setup(setup: SetupKey)
    | Disk(disk: DiskKey)
    | Vip(vip: VipKey)
    | Final(final: FinalKey)
    | Back(scan: Option<DiskScan>)
    | Done(reply: Reply)

  predicate OnDiskPage(p: Page) {
    p.DiskFatal? || p.DiskDevice? || p.DiskData? || p.DiskSize? || p.DiskWipe? || p.DiskWipeList? || p.DiskMbr?
  }

  predicate OnVipPage(p: Page) {
    p.VipMethod? || p.VipHwAddr? || p.VipAddress?
  }

  /** Pages from which Escape leads to another page. */
  predicate CanGoBack(p: Page) {
    && !p.Preflight? && !p.AskCreate? && !p.DiskWipeList? && !p.Install? && !p.Halted? && !p.Failed?
    && !p.Waiting?
  }

  /** The values the network method drop-down offers, and the unset one. */
  predicate Offered(method_: string) {
    method_ == "" || method_ == NetworkProfiles.METHOD_DHCP || method_ == NetworkProfiles.METHOD_STATIC
  }

  predicate SetupEnabled(m: Machine, s: State, key: SetupKey) {
    match key
    case Acknowledge(_) => s.page.Preflight?
    case ChooseMode(mode) =>
      s.page.AskCreate? && (mode.Create? || mode.Join? || (mode.InstallOnly? && !m.alreadyInstalled))
    case ChooseRole(role) => s.page.AskRole? && !role.OtherRole?
    case EnterPassword(_) => s.page.PasswordEntry?
    case ConfirmPassword(_, _, _, _) => s.page.PasswordConfirm?
    case UpToPassword(_) => s.page.PasswordConfirm?
    case EditNetwork(n) => s.page.NetworkPage? && Offered(n.method_)
    case SubmitNetwork => s.page.NetworkPage?
    case SubmitCluster(_) => s.page.ClusterNetwork?
    case SubmitHostname(_) => s.page.Hostname?
    case SubmitDns(_) => s.page.DnsServers?
  }

  predicate DiskEnabled(s: State, key: DiskKey) {
    match key
    case PickDevice(_, _) => s.page.DiskDevice?
    case PickDataDisk(_, _) => s.page.DiskData?
    case EnterSize(_) => s.page.DiskSize?
    case OpenWipe => s.page.DiskWipe?
    case ToggleWipe(_) => s.page.DiskWipeList?
    case CloseWipe => s.page.DiskWipeList?
    case AnswerWipe => s.page.DiskWipe? || s.page.DiskWipeList?
    case PickMbr(_) => s.page.DiskMbr?
    case DiskUp(_, _) => OnDiskPage(s.page) && !s.page.DiskFatal? && !s.page.DiskWipeList?
  }

  predicate VipEnabled(s: State, key: VipKey) {
    match key
    case PickVipMethod(_) => s.page.VipMethod?
    case RequestVip(_) => s.page.VipHwAddr?
    case EnterVip(_) => s.page.VipAddress?
    case VipUp(_) => s.page.VipHwAddr? || s.page.VipAddress?
  }

  predicate FinalEnabled(s: State, key: FinalKey) {
    match key
    case EnterServerUrl(_, _) => s.page.ServerUrl?
    case EnterToken(_) => s.page.TokenPage?
    case EnterNtp(_) => s.page.NtpServers?
    case EnterProxy => s.page.Proxy?
    case EnterKeyUrl(_) => s.page.SshKeys?
    case EnterConfigUrl(_) => s.page.CloudInit?
    case Confirm(_) => s.page.ConfirmInstall?
  }

  predicate ReplyEnabled(s: State, reply: Reply) {
    match reply
    case NetworkDone(_) => ApplyNetwork in s.tasks
    case DnsDone(servers, _) => SetDns(servers) in s.tasks
    case PingDone(url, _) => Ping(url) in s.tasks
    case NtpDone(servers, _) => CheckNtp(servers) in s.tasks
    case KeysDone(_) => FetchKeys in s.tasks
    case ConfigDone(_) => FetchConfig in s.tasks
    case VipDone(_) => s.vipRequests > 0
  }

  predicate Enabled(m: Machine, s: State, e: Event) {
    match e
    case Setup(key) => SetupEnabled(m, s, key)
    case Disk(key) => DiskEnabled(s, key)
    case Vip(key) => VipEnabled(s, key)
    case Final(key) => FinalEnabled(s, key)
    case Back(_) => CanGoBack(s.page)
    case Done(reply) => !s.page.Failed? && ReplyEnabled(s, reply)
  }

  // ----- Mode, role and password pages

  function ModeChosen(m: Machine, s: State, mode: Mode): State {
    var c := s.config.(mode := mode);
    var d := if mode.Create? then c.(role := DefaultRole, serverUrl := "") else c;
    s.(config := d, installModeOnly := mode.InstallOnly?,
       page := if mode.Join? then AskRole else if m.alreadyInstalled then NetworkPage else PasswordEntry)
  }

  function RoleChosen(m: Machine, s: State, role: Role): State {
    s.(config := s.config.(role := role), page := if m.alreadyInstalled then NetworkPage else PasswordEntry)
  }

  function PasswordEntered(s: State, text: string): State {
    s.(input := s.input.(password := text), page := if text == "" then PasswordEntry else PasswordConfirm)
  }

  function PasswordConfirmed(m: Machine, s: State, text: string, encrypted: Option<Nonempty>, applied: bool,
                             scan: Option<DiskScan>): State
  {
    var t := s.(input := s.input.(passwordConfirm := text));
    if s.input.password != text then t
    else if encrypted.None? then t.(page := Failed)
    else
      var u := t.(config := t.config.(password := encrypted.value));
      if applied then ShowDiskPage(m, u, scan) else u.(page := Failed)
  }

  function BeforePassword(s: State): Page {
    if s.config.mode.Join? then AskRole else AskCreate
  }

  // ----- The disk page

  /** `presetConfigDisks`. */
  function Preset(c: Config, options: seq<string>): Config {
    if (c.device != "" && c.dataDisk != "") || options == [] then c
    else
      var device := if c.device == "" then options[0] else c.device;
      c.(device := device, dataDisk := if c.dataDisk == "" then device else c.dataDisk)
  }

  /** Showing the size field reads the size of the chosen disk, unless the field
      has been shown before and a size is set. */
  predicate CanShowSize(m: Machine, c: Config, disks: DiskFields) {
    (disks.sizeShown && c.persistentSize != "") || c.device in m.sizes
  }

  function ShowSize(m: Machine, s: State, focus: Page): State {
    if CanShowSize(m, s.config, s.disks) then s.(disks := s.disks.(sizeShown := true), page := focus)
    else s.(page := Failed)
  }

  /** The size field shown beside the disk choice. */
  predicate OffersSize(c: Config, options: seq<string>) {
    c.role != Witness && (|options| == 1 || c.dataDisk == c.device)
  }

  function ShowDiskPage(m: Machine, s: State, scan: Option<DiskScan>): State {
    match scan
    case None => s.(diskConfirmed := false, page := Failed)
    case Some(DiskScan(options, wipeable)) =>
      var c := Preset(s.config, options);
      var size := options != [] && OffersSize(c, options);
      var page := if options == [] then DiskFatal
                  else if size && !CanShowSize(m, c, s.disks) then Failed
                  else DiskDevice;
      var disks := s.disks.(options := options, wipeable := wipeable, sizeShown := s.disks.sizeShown || size);
      s.(diskConfirmed := false, disks := disks, config := c, page := page)
  }

  /** `validateAllDiskSizes`. */
  predicate DiskSizesValid(m: Machine, c: Config) {
    m.skipChecks
    || (if c.role == Witness then AtLeast(m, c.device, MULTIPLE_DISK_GIB)
        else if c.dataDisk == "" || c.device == c.dataDisk then AtLeast(m, c.device, SINGLE_DISK_GIB)
        else AtLeast(m, c.device, MULTIPLE_DISK_GIB) && AtLeast(m, c.dataDisk, DATA_DISK_GIB))
  }

  datatype Verdict = Valid | Invalid | Unreadable

  /** `validatePersistentPartitionSize`. */
  function PersistentSizeVerdict(m: Machine, c: Config, text: string): Verdict {
    if c.dataDisk != "" && c.device != c.dataDisk then Valid
    else if c.device !in m.sizes then Unreadable
    else if ParsePartitionSize(m.sizes[c.device], text, m.skipChecks).Ok? then Valid
    else Invalid
  }

  function GotoNextPage(m: Machine, s: State): State {
    if !DiskSizesValid(m, s.config) then s
    else if s.config.role == Witness then LeaveDiskPage(s.(config := s.config.(dataDisk := "")))
    else match PersistentSizeVerdict(m, s.config, s.config.persistentSize)
      case Unreadable => s.(page := Failed)
      case Invalid => s
      case Valid => LeaveDiskPage(s)
  }

  /** The first Enter confirms, the second leaves. */
  function LeaveDiskPage(s: State): State {
    if !s.diskConfirmed then s.(diskConfirmed := true)
    else s.(page := if s.installModeOnly then ConfirmInstall else NetworkPage)
  }

  function WipeOptions(s: State): seq<string> {
    Without(Without(s.disks.wipeable, s.config.device), s.config.dataDisk)
  }

  function Without(disks: seq<string>, disk: string): seq<string> {
    if disks == [] then []
    else if disks[0] == disk then Without(disks[1..], disk)
    else [disks[0]] + Without(disks[1..], disk)
  }

  /** `isWipeDisksPanelNeeded`. A list that names a chosen disk is emptied and the
      marks go, but not the disks they last stood for. */
  function WipeIfNeeded(m: Machine, s: State): State {
    if WipeOptions(s) != [] then
      if s.config.device in s.config.wipeDisks || s.config.dataDisk in s.config.wipeDisks then
        s.(config := s.config.(wipeDisks := []), disks := s.disks.(marks := []), page := DiskWipe)
      else s.(page := DiskWipe)
    else if m.isBios then s.(page := DiskMbr)
    else GotoNextPage(m, s)
  }

  /** The options at the marked positions. */
  function Marked(options: seq<string>, marks: seq<bool>): seq<string> {
    if options == [] || marks == [] then []
    else (if marks[0] then [options[0]] else []) + Marked(options[1..], marks[1..])
  }

  function NoMarks(n: nat): (marks: seq<bool>)
    ensures |marks| == n
  {
    if n == 0 then [] else [false] + NoMarks(n - 1)
  }

  /** Opening the list works the disks out again from the marks; with fewer marks
      than disks that panics. */
  function WipeOpened(s: State): State {
    var options := WipeOptions(s);
    var marks := if s.disks.marks == [] then NoMarks(|options|) else s.disks.marks;
    if |marks| < |options| then s.(page := Failed)
    else s.(disks := s.disks.(marks := marks, selected := Marked(options, marks)), page := DiskWipeList)
  }

  function WipeToggled(s: State, row: nat): State {
    var marks := if row < |s.disks.marks| && row < |WipeOptions(s)| then s.disks.marks[row := !s.disks.marks[row]]
                 else s.disks.marks;
    s.(disks := s.disks.(marks := marks, selected := Marked(WipeOptions(s), marks)))
  }

  /** Enter takes the disks the field last stood for, with the list open or not. */
  function WipeAnswered(m: Machine, s: State): State {
    var t := s.(config := s.config.(wipeDisks := s.disks.selected), page := DiskWipe);
    if m.isBios then t.(page := DiskMbr) else GotoNextPage(m, t)
  }

  function DevicePicked(m: Machine, s: State, device: string, dataDisk: string): State {
    var t := s.(config := s.config.(device := device));
    if |s.disks.options| > 1 then
      if t.config.role == Witness then WipeIfNeeded(m, t)
      else if device == dataDisk then ShowSize(m, t, DiskData)
      else t.(page := DiskData)
    else if t.config.role == Witness then
      WipeIfNeeded(m, t.(diskConfirmed := DiskSizesValid(m, t.config)))
    else ShowSize(m, t, DiskSize)
  }

  function DataDiskPicked(m: Machine, s: State, device: string, dataDisk: string): State {
    var t := s.(config := s.config.(dataDisk := dataDisk));
    if device == dataDisk then ShowSize(m, t, DiskSize)
    else WipeIfNeeded(m, t.(diskConfirmed := true))
  }

  function SizeEntered(m: Machine, s: State, text: string): State {
    match PersistentSizeVerdict(m, s.config, text)
    case Unreadable => s.(page := Failed)
    case Invalid => s
    case Valid => WipeIfNeeded(m, s.(config := s.config.(persistentSize := text), diskConfirmed := true))
  }

  function MbrPicked(m: Machine, s: State, yes: bool): State {
    var tooLarge := if yes then ExceedsMbrLimit(m, s.config.device) else Some(false);
    match tooLarge
    case None => s.(page := Failed)
    case Some(true) => s
    case Some(false) =>
      if s.config.forceMbr != yes then s.(config := s.config.(forceMbr := yes))
      else GotoNextPage(m, s)
  }

  /** The field above the focused one. */
  function FieldAbove(s: State, device: string, dataDisk: string): Page {
    if s.page.DiskDevice? || s.page.DiskData? then DiskDevice
    else if s.page.DiskSize? then (if |s.disks.options| > 1 then DiskData else DiskDevice)
    else if s.config.role == Witness then DiskDevice
    else if |s.disks.options| > 1 && device != dataDisk then DiskData
    else DiskSize
  }

  function DiskMovedUp(m: Machine, s: State, device: string, dataDisk: string): State {
    var above := FieldAbove(s, device, dataDisk);
    var t := s.(diskConfirmed := s.diskConfirmed && s.page.DiskDevice?);
    if above.DiskSize? then ShowSize(m, t, DiskSize) else t.(page := above)
  }

  // ----- Network pages

  /** Starting a task gives the focus to the spinner. */
  function Parked(s: State, t: Task): State {
    s.(tasks := s.tasks + multiset{t}, page := Waiting(Origin(t)))
  }

  datatype Probe = Probe(applied: NetworkProfiles.Network, left: NetworkProfiles.Network, proceed: bool)

  /** `preGotoNextPage`: the configuration and `mgmtNetwork` afterwards, and
      whether the wizard goes on. */
  function Probed(s: State, outcome: NetworkOutcome): Probe {
    var n := s.network;
    if outcome == Refused || !NetworkProfiles.Supported(n) then Probe(s.config.network, n, false)
    else if n.method_ != NetworkProfiles.METHOD_DHCP then Probe(n, n, outcome != RouteUnreadable)
    else if outcome == DhcpFailed then Probe(n, n, false)
    else Probe(n, n.(ip := "", subnetMask := "", gateway := "", mtu := 0),
               outcome != RouteUnreadable && outcome != NoDefaultRoute)
  }

  function NetworkFinished(s: State, outcome: NetworkOutcome): State {
    ProbeFinished(s, Probed(s, outcome))
  }

  function ProbeFinished(s: State, probe: Probe): State {
    s.(tasks := s.tasks - multiset{ApplyNetwork}, config := s.config.(network := probe.applied),
       network := probe.left, page := if probe.proceed then AfterNetwork(s) else NetworkPage)
  }

  function AfterNetwork(s: State): Page {
    if s.config.mode.Create? then ClusterNetwork else Hostname
  }

  /** Only a static address needs a server. */
  predicate DnsAccepted(s: State, servers: string, ok: bool) {
    if servers == "" then s.network.method_ != NetworkProfiles.METHOD_STATIC else ok
  }

  function DnsFinished(s: State, servers: string, ok: bool): State {
    var accepted := DnsAccepted(s, servers, ok);
    var list := if accepted && servers != "" then Strings.Split(servers, ',') else s.config.dnsServers;
    s.(tasks := s.tasks - multiset{SetDns(servers)}, config := s.config.(dnsServers := list),
       page := if accepted then AfterDns(s) else DnsServers)
  }

  function AfterDns(s: State): Page {
    if s.config.mode.Create? then VipMethod else ServerUrl
  }

  function VipMethodPicked(s: State, dhcp: bool): State {
    s.(hwAddrOpen := dhcp, page := if dhcp then VipHwAddr else VipAddress)
  }

  /** The request does not take the focus: the address field does. */
  function VipRequested(s: State, dhcp: bool): State {
    s.(vipRequests := if dhcp then s.vipRequests + 1 else s.vipRequests, page := VipAddress)
  }

  /** A reply writes into the two fields if they are open and is an error
      otherwise; a failure shows the method panel, whatever page is open. */
  function VipFinished(s: State, ok: bool): State
    requires s.vipRequests > 0
  {
    s.(vipRequests := s.vipRequests - 1,
       page := if !ok then VipMethod else if s.hwAddrOpen then s.page else Failed)
  }

  function VipMovedUp(s: State, dhcp: bool): State {
    if s.page.VipAddress? && dhcp then s.(hwAddrOpen := true, page := VipHwAddr) else s.(page := VipMethod)
  }

  // ----- Management address, token and optional pages

  function ServerUrlEntered(s: State, text: string, formatted: Option<Nonempty>): State {
    if text == "" || formatted.None? then s
    else Parked(s, Ping(formatted.value))
  }

  function PingFinished(s: State, url: Nonempty, ok: bool): State {
    var t := s.(tasks := s.tasks - multiset{Ping(url)});
    if ok then t.(config := t.config.(serverUrl := url), page := TokenPage) else t.(page := ServerUrl)
  }

  function TokenEntered(s: State, text: string): State {
    if ValidToken(text) then s.(config := s.config.(token := text), page := NtpServers) else s
  }

  function NtpEntered(s: State, text: string): State {
    if text == s.input.ntp && s.input.ntpChecked then s.(input := s.input.(ntpChecked := false), page := Proxy)
    else Parked(s.(input := s.input.(ntpChecked := false)), CheckNtp(text))
  }

  function NtpFinished(s: State, servers: string, outcome: NtpOutcome): State {
    var left := s.tasks - multiset{CheckNtp(servers)};
    if outcome == SpaceInInput then s.(tasks := left, page := NtpServers)
    else if servers == "" || outcome == Unreachable then
      s.(tasks := left, input := s.input.(ntpChecked := true, ntp := servers), page := NtpServers)
    else s.(tasks := left, input := s.input.(ntpChecked := false, ntp := servers), page := Proxy)
  }

  function KeyUrlEntered(s: State, url: string): State {
    var t := s.(config := s.config.(sshKeys := []));
    if url == "" then t.(page := CloudInit)
    else Parked(t, FetchKeys)
  }

  function KeysFinished(s: State, keys: Option<seq<string>>): State {
    var t := s.(tasks := s.tasks - multiset{FetchKeys});
    if keys.None? then t.(page := SshKeys)
    else t.(config := t.config.(sshKeys := keys.value), page := CloudInit)
  }

  function ConfigUrlEntered(s: State, url: string): State {
    var t := s.(config := s.config.(configUrl := url));
    if url == "" then t.(page := ConfirmInstall)
    else Parked(t, FetchConfig)
  }

  function ConfigFinished(s: State, ok: bool): State {
    s.(tasks := s.tasks - multiset{FetchConfig}, page := if ok then ConfirmInstall else CloudInit)
  }

  // ----- Escape

  /** Escape runs the disk scan again when it leads back to the disk page. */
  predicate ReturnsToDisks(m: Machine, s: State) {
    (s.page.NetworkPage? && !m.alreadyInstalled) || (s.page.ConfirmInstall? && s.installModeOnly)
  }

  /** Where Escape leads otherwise. */
  function PreviousPage(s: State): Page
    requires CanGoBack(s.page)
  {
    match s.page
    case AskRole => AskCreate
    case PasswordEntry => BeforePassword(s)
    case PasswordConfirm => BeforePassword(s)
    case NetworkPage => BeforePassword(s)
    case ClusterNetwork => NetworkPage
    case Hostname => if s.config.mode.Create? then ClusterNetwork else NetworkPage
    case DnsServers => Hostname
    case VipMethod => DnsServers
    case VipHwAddr => DnsServers
    case VipAddress => DnsServers
    case ServerUrl => DnsServers
    case TokenPage => AfterDns(s)
    case NtpServers => TokenPage
    case Proxy => NtpServers
    case SshKeys => Proxy
    case CloudInit => SshKeys
    case ConfirmInstall => CloudInit
    case _ => PasswordEntry
  }

  function WentBack(m: Machine, s: State, scan: Option<DiskScan>): State
    requires CanGoBack(s.page)
  {
    if ReturnsToDisks(m, s) then ShowDiskPage(m, s, scan)
    else s.(page := PreviousPage(s),
            diskConfirmed := s.diskConfirmed && !OnDiskPage(s.page),
            hwAddrOpen := s.hwAddrOpen && !OnVipPage(s.page),
            input := if s.page.NtpServers? then s.input.(ntpChecked := false) else s.input)
  }

  // ----- One step

  function SetupStep(m: Machine, s: State, key: SetupKey): State {
    match key
    case Acknowledge(proceed) => s.(page := if proceed then AskCreate else Halted)
    case ChooseMode(mode) => ModeChosen(m, s, mode)
    case ChooseRole(role) => RoleChosen(m, s, role)
    case EnterPassword(text) => PasswordEntered(s, text)
    case ConfirmPassword(text, encrypted, applied, scan) => PasswordConfirmed(m, s, text, encrypted, applied, scan)
    case UpToPassword(text) => s.(input := s.input.(passwordConfirm := text), page := PasswordEntry)
    case EditNetwork(n) => s.(network := n)
    case SubmitNetwork => Parked(s, ApplyNetwork)
    case SubmitCluster(accepted) => s.(page := if accepted then Hostname else ClusterNetwork)
    case SubmitHostname(accepted) => s.(page := if accepted then DnsServers else Hostname)
    case SubmitDns(text) => Parked(s, SetDns(text))
  }

  function DiskStep(m: Machine, s: State, key: DiskKey): State {
    match key
    case PickDevice(device, dataDisk) => DevicePicked(m, s, device, dataDisk)
    case PickDataDisk(device, dataDisk) => DataDiskPicked(m, s, device, dataDisk)
    case EnterSize(text) => SizeEntered(m, s, text)
    case OpenWipe => WipeOpened(s)
    case ToggleWipe(row) => WipeToggled(s, row)
    case CloseWipe => s.(page := DiskWipe)
    case AnswerWipe => WipeAnswered(m, s)
    case PickMbr(yes) => MbrPicked(m, s, yes)
    case DiskUp(device, dataDisk) => DiskMovedUp(m, s, device, dataDisk)
  }

  function VipStep(s: State, key: VipKey): State {
    match key
    case PickVipMethod(dhcp) => VipMethodPicked(s, dhcp)
    case RequestVip(dhcp) => VipRequested(s, dhcp)
    case EnterVip(accepted) => if accepted then s.(hwAddrOpen := false, page := TokenPage) else s
    case VipUp(dhcp) => VipMovedUp(s, dhcp)
  }

  function FinalStep(s: State, key: FinalKey): State {
    match key
    case EnterServerUrl(text, formatted) => ServerUrlEntered(s, text, formatted)
    case EnterToken(text) => TokenEntered(s, text)
    case EnterNtp(text) => NtpEntered(s, text)
    case EnterProxy => s.(page := SshKeys)
    case EnterKeyUrl(url) => KeyUrlEntered(s, url)
    case EnterConfigUrl(url) => ConfigUrlEntered(s, url)
    case Confirm(yes) => s.(page := if yes then Install else Halted)
  }

  function ReplyStep(s: State, reply: Reply): State
    requires ReplyEnabled(s, reply)
  {
    match reply
    case NetworkDone(outcome) => NetworkFinished(s, outcome)
    case DnsDone(servers, ok) => DnsFinished(s, servers, ok)
    case PingDone(url, ok) => PingFinished(s, url, ok)
    case NtpDone(servers, outcome) => NtpFinished(s, servers, outcome)
    case KeysDone(keys) => KeysFinished(s, keys)
    case ConfigDone(ok) => ConfigFinished(s, ok)
    case VipDone(ok) => VipFinished(s, ok)
  }

  function Step(m: Machine, s: State, e: Event): State
    requires Enabled(m, s, e)
  {
    match e
    case Setup(key) => SetupStep(m, s, key)
    case Disk(key) => DiskStep(m, s, key)
    case Vip(key) => VipStep(s, key)
    case Final(key) => FinalStep(s, key)
    case Back(scan) => WentBack(m, s, scan)
    case Done(reply) => ReplyStep(s, reply)
  }

  // ----- Runs

  predicate IsRun(m: Machine, s: State, events: seq<Event>)
    decreases |events|
  {
    events == [] || (Enabled(m, s, events[0]) && IsRun(m, Step(m, s, events[0]), events[1..]))
  }

  function After(m: Machine, s: State, events: seq<Event>): State
    requires IsRun(m, s, events)
    decreases |events|
  {
    if events == [] then s else After(m, Step(m, s, events[0]), events[1..])
  }

  /** The wizard as `layoutInstall` shows it: any configuration read from the
      boot parameters, and no task under way. */
  predicate IsStart(s: State) {
    && (s.page.Preflight? || s.page.AskCreate?)
    && s.tasks == multiset{} && s.vipRequests == 0
    && !s.diskConfirmed && !s.installModeOnly && !s.hwAddrOpen
    && s.disks.marks == [] && s.disks.selected == [] && !s.disks.sizeShown
    && s.network.method_ == ""
  }
}
