/** Runs the validator or the user would not want, step by step: each shows that a
    condition of the theorems over all runs can fail. */
module FailingRuns {
  import opened Wrappers
  import opened Validator
  import opened WizardSteps
  import opened WizardInvariants
  import opened WizardRuns
  import opened WipeList
  import opened PartitionSize
  import NetworkProfiles
  import Strings

  // ----- A VIP request that fails too late

  /** Nothing under way but VIP requests, and no address. */
  predicate Quiet(s: State, mode: Mode, requests: nat) {
    s.tasks == multiset{} && s.vipRequests == requests && s.config.mode == mode && s.config.serverUrl == ""
    && !s.installModeOnly
  }

  predicate Known(m: Machine, s: State) {
    s.config.device != "" && s.config.device in m.sizes
  }

  /** The pages in between leave these alone. */
  predicate Kept(s: State, t: State) {
    && t.config.device == s.config.device && t.config.password == s.config.password
    && t.config.role == s.config.role
  }

  predicate FreshNode(m: Machine, s: State, disk: string) {
    && IsStart(s) && s.page.AskCreate? && s.config.device == "" && s.config.dataDisk == ""
    && !m.alreadyInstalled && !m.isBios && disk != "" && AtLeast(m, disk, SINGLE_DISK_GIB)
  }

  lemma SizeIsFine(m: Machine, c: Config, disk: string)
    requires c.device == disk && c.dataDisk == disk && c.role != Witness && AtLeast(m, disk, SINGLE_DISK_GIB)
    ensures PersistentSizeVerdict(m, c, Strings.Decimal(150) + "Gi") == Valid && DiskSizesValid(m, c)
  {
    ParsedSize(150, "Gi");
  }

  lemma ThroughThePassword(m: Machine, s: State, disk: string) returns (t: State)
    requires FreshNode(m, s, disk)
    ensures Reaches(m, s, t) && Quiet(t, Create, 0) && t.page.DiskDevice? && t.config.role == DefaultRole
    ensures t.config.device == disk && t.config.dataDisk == disk && t.disks.options == [disk] && t.disks.wipeable == []
  {
    assert IsRun(m, s, []) && After(m, s, []) == s;
    t := Extend(m, s, s, Setup(ChooseMode(Create)));
    t := Extend(m, s, t, Setup(EnterPassword("password")));
    t := Extend(m, s, t, Setup(ConfirmPassword("password", Some("hash"), true, Some(DiskScan([disk], [])))));
  }

  lemma ThroughTheDisk(m: Machine, s: State, start: State, disk: string) returns (t: State)
    requires AtLeast(m, disk, SINGLE_DISK_GIB) && !m.isBios
    requires Reaches(m, start, s) && Quiet(s, Create, 0) && s.page.DiskDevice? && s.config.role == DefaultRole
    requires s.config.device == disk && s.config.dataDisk == disk && s.disks.options == [disk] && s.disks.wipeable == []
    ensures Reaches(m, start, t) && Quiet(t, Create, 0) && t.page.NetworkPage?
    ensures t.config.device == disk && t.config.role == DefaultRole
  {
    var text := Strings.Decimal(150) + "Gi";
    t := Extend(m, start, s, Disk(PickDevice(disk, disk)));
    SizeIsFine(m, t.config, disk);
    SizeIsFine(m, t.config.(persistentSize := text), disk);
    t := Extend(m, start, t, Disk(EnterSize(text)));
  }

  const DHCP_NETWORK: NetworkProfiles.Network :=
    NetworkProfiles.Network(["eth0"], NetworkProfiles.METHOD_DHCP, "", "", "", None, 0, 0)

  lemma ThroughTheNetwork(m: Machine, start: State, s: State) returns (t: State)
    requires Reaches(m, start, s) && Quiet(s, Create, 0) && s.page.NetworkPage?
    ensures Kept(s, t)
    ensures Reaches(m, start, t) && Quiet(t, Create, 0) && t.page.ClusterNetwork?
  {
    t := Extend(m, start, s, Setup(EditNetwork(DHCP_NETWORK)));
    t := Extend(m, start, t, Setup(SubmitNetwork));
    t := Extend(m, start, t, Done(NetworkDone(Applied)));
  }

  lemma ToTheVip(m: Machine, start: State, s: State) returns (t: State)
    requires Reaches(m, start, s) && Quiet(s, Create, 0) && s.page.ClusterNetwork?
    ensures Kept(s, t)
    ensures Reaches(m, start, t) && Quiet(t, Create, 0) && t.page.VipMethod?
  {
    t := Extend(m, start, s, Setup(SubmitCluster(true)));
    t := Extend(m, start, t, Setup(SubmitHostname(true)));
    t := Extend(m, start, t, Setup(SubmitDns("10.0.0.1")));
    t := Extend(m, start, t, Done(DnsDone("10.0.0.1", true)));
  }

  lemma RequestAndLeave(m: Machine, start: State, s: State) returns (t: State)
    requires Reaches(m, start, s) && Quiet(s, Create, 0) && s.page.VipMethod?
    ensures Kept(s, t)
    ensures Reaches(m, start, t) && Quiet(t, Create, 1) && t.page.DnsServers? && !t.hwAddrOpen
  {
    t := Extend(m, start, s, Vip(PickVipMethod(true)));
    t := Extend(m, start, t, Vip(RequestVip(true)));
    t := Extend(m, start, t, Back(None));
  }

  lemma EscapeOnce(m: Machine, start: State, s: State) returns (t: State)
    requires Reaches(m, start, s) && Quiet(s, Create, 1)
    requires s.page.DnsServers? || s.page.Hostname? || s.page.ClusterNetwork?
    ensures Kept(s, t)
    ensures Reaches(m, start, t) && Quiet(t, Create, 1)
    ensures t.page == if s.page.DnsServers? then Hostname else if s.page.Hostname? then ClusterNetwork else NetworkPage
  {
    t := Extend(m, start, s, Back(None));
  }

  lemma BackToTheNetwork(m: Machine, start: State, s: State) returns (t: State)
    requires Reaches(m, start, s) && Quiet(s, Create, 1) && s.page.DnsServers?
    ensures Kept(s, t)
    ensures Reaches(m, start, t) && Quiet(t, Create, 1) && t.page.NetworkPage?
  {
    t := EscapeOnce(m, start, s);
    t := EscapeOnce(m, start, t);
    t := EscapeOnce(m, start, t);
  }

  lemma BackToTheMode(m: Machine, start: State, s: State, disk: string) returns (t: State)
    requires Reaches(m, start, s) && Quiet(s, Create, 1) && s.page.NetworkPage? && !m.alreadyInstalled && Known(m, s)
    ensures Reaches(m, start, t) && Quiet(t, Join, 1) && t.page.AskRole?
  {
    t := Extend(m, start, s, Back(Some(DiskScan([disk], []))));
    t := Extend(m, start, t, Back(None));
    t := Extend(m, start, t, Back(None));
    t := Extend(m, start, t, Setup(ChooseMode(Join)));
  }

  /** The failure arrives on the role page. */
  lemma FailureReopensTheVipPage(m: Machine, start: State, s: State) returns (t: State)
    requires Reaches(m, start, s) && Quiet(s, Join, 1) && s.page.AskRole?
    ensures Kept(s, t)
    ensures Reaches(m, start, t) && Quiet(t, Join, 0) && t.page.NtpServers? && t.config.token != ""
  {
    t := Extend(m, start, s, Done(VipDone(false)));
    t := Extend(m, start, t, Vip(PickVipMethod(false)));
    t := Extend(m, start, t, Vip(EnterVip(true)));
    t := Extend(m, start, t, Final(EnterToken("token")));
  }

  lemma ThroughTheTimeServers(m: Machine, start: State, s: State, mode: Mode) returns (t: State)
    requires Reaches(m, start, s) && Quiet(s, mode, 0) && s.page.NtpServers?
    ensures Kept(s, t) && t.config.token == s.config.token
    ensures Reaches(m, start, t) && Quiet(t, mode, 0) && t.page.Proxy?
  {
    var waits := s.input.ntp != "ntp.example" || !s.input.ntpChecked;
    t := Extend(m, start, s, Final(EnterNtp("ntp.example")));
    if waits {
      t := TimeServersAnswer(m, start, t, mode);
    }
  }

  lemma TimeServersAnswer(m: Machine, start: State, s: State, mode: Mode) returns (t: State)
    requires Reaches(m, start, s) && s.page == Waiting(NtpServers) && s.tasks == multiset{CheckNtp("ntp.example")}
    requires Quiet(s.(tasks := multiset{}), mode, 0)
    ensures Kept(s, t) && t.config.token == s.config.token
    ensures Reaches(m, start, t) && Quiet(t, mode, 0) && t.page.Proxy?
  {
    t := Extend(m, start, s, Done(NtpDone("ntp.example", Reached)));
  }

  lemma ToTheInstallation(m: Machine, start: State, s: State, mode: Mode) returns (t: State)
    requires Reaches(m, start, s) && Quiet(s, mode, 0) && s.page.Proxy?
    ensures Kept(s, t) && t.config.token == s.config.token
    ensures Reaches(m, start, t) && Quiet(t, mode, 0) && t.page.Install? && t.config.sshKeys == []
    ensures t.config.configUrl == ""
  {
    t := Extend(m, start, s, Final(EnterProxy));
    t := Extend(m, start, t, Final(EnterKeyUrl("")));
    t := Extend(m, start, t, Final(EnterConfigUrl("")));
    t := Extend(m, start, t, Final(Confirm(true)));
  }

  /** From every fresh node there is such a run. */
  lemma JoinWithoutAddress(m: Machine, s: State, disk: string, formatted: Nonempty) returns (t: State)
    requires FreshNode(m, s, disk)
    ensures Reaches(m, s, t) && t.page.Install? && t.config.configUrl == ""
    ensures CommonCheck(m, AtInstall(t.config, formatted)) == Err(JoinWithoutServerUrl)
  {
    t := UntilTheRequest(m, s, disk);
    t := BackToTheNetwork(m, s, t);
    t := BackToTheMode(m, s, t, disk);
    t := FailureReopensTheVipPage(m, s, t);
    t := ThroughTheTimeServers(m, s, t, Join);
    t := ToTheInstallation(m, s, t, Join);
  }

  // ----- An installed node without credentials

  lemma StaticVip(m: Machine, start: State, s: State) returns (t: State)
    requires Reaches(m, start, s) && Quiet(s, Create, 0) && s.page.VipMethod?
    ensures Kept(s, t) && t.config.token != ""
    ensures Reaches(m, start, t) && Quiet(t, Create, 0) && t.page.NtpServers?
  {
    t := Extend(m, start, s, Vip(PickVipMethod(false)));
    t := Extend(m, start, t, Vip(EnterVip(true)));
    t := Extend(m, start, t, Final(EnterToken("token")));
  }

  lemma StartOnInstalledNode(m: Machine, s: State) returns (t: State)
    requires IsStart(s) && s.page.AskCreate? && m.alreadyInstalled
    ensures t.config.password == s.config.password
    ensures Reaches(m, s, t) && Quiet(t, Create, 0) && t.page.NetworkPage?
  {
    assert IsRun(m, s, []) && After(m, s, []) == s;
    t := Extend(m, s, s, Setup(ChooseMode(Create)));
  }

  /** From every installed node that starts without a password. */
  lemma InstalledNodeWithoutCredentials(m: Machine, s: State, formatted: Nonempty) returns (t: State)
    requires IsStart(s) && s.page.AskCreate? && m.alreadyInstalled && s.config.password == ""
    ensures Reaches(m, s, t) && t.page.Install? && t.config.configUrl == ""
    ensures CommonCheck(m, AtInstall(t.config, formatted)) == Err(NoCredentials)
  {
    t := StartOnInstalledNode(m, s);
    t := ThroughTheNetwork(m, s, t);
    t := ToTheVip(m, s, t);
    t := StaticVip(m, s, t);
    t := ThroughTheTimeServers(m, s, t, Create);
    t := ToTheInstallation(m, s, t, Create);
  }

  // ----- A VIP request that succeeds too late

  lemma UntilTheRequest(m: Machine, s: State, disk: string) returns (t: State)
    requires FreshNode(m, s, disk)
    ensures Reaches(m, s, t) && Quiet(t, Create, 1) && t.page.DnsServers? && !t.hwAddrOpen
    ensures t.config.device == disk && t.config.role == DefaultRole
  {
    t := ThroughThePassword(m, s, disk);
    t := ThroughTheDisk(m, t, s, disk);
    t := ThroughTheNetwork(m, s, t);
    t := ToTheVip(m, s, t);
    t := RequestAndLeave(m, s, t);
  }

  /** Its fields are closed when the address arrives. */
  lemma LateSuccessEndsTheWizard(m: Machine, s: State, disk: string) returns (t: State)
    requires FreshNode(m, s, disk)
    ensures Reaches(m, s, t) && t.page.Failed?
  {
    t := UntilTheRequest(m, s, disk);
    t := Extend(m, s, t, Done(VipDone(true)));
  }

  // ----- A disk that no page has checked

  /** A disk that is too small is chosen while the request is under way, and its failure
      carries the wizard over the checks. */
  lemma ChooseUnchecked(m: Machine, start: State, s: State, disk: string, small: string) returns (t: State)
    requires Reaches(m, start, s) && Quiet(s, Create, 1) && s.page.NetworkPage? && !m.alreadyInstalled
    requires s.config.device == disk && disk != "" && disk in m.sizes && small != disk
    requires s.config.role == DefaultRole
    ensures Reaches(m, start, t) && Quiet(t, Create, 0) && t.page.VipMethod? && t.config.device == small
  {
    t := Extend(m, start, s, Back(Some(DiskScan([disk, small], []))));
    t := PickAnother(m, start, t, small, disk);
    t := Extend(m, start, t, Done(VipDone(false)));
  }

  lemma PickAnother(m: Machine, start: State, s: State, device: string, dataDisk: string) returns (t: State)
    requires Reaches(m, start, s) && Quiet(s, Create, 1) && s.page.DiskDevice? && |s.disks.options| > 1
    requires s.config.role == DefaultRole && device != dataDisk
    ensures Reaches(m, start, t) && Quiet(t, Create, 1) && t.page.DiskData? && t.config.device == device
  {
    t := Extend(m, start, s, Disk(PickDevice(device, dataDisk)));
  }

  lemma ReachedKeepsInv(m: Machine, s: State, t: State)
    requires IsStart(s) && Reaches(m, s, t)
    ensures Inv(m, t)
  {
    var events: seq<Event> :| IsRun(m, s, events) && After(m, s, events) == t;
    StartsOnCourse(m, s);
    RunKeepsInv(m, s, events);
  }

  lemma TooSmall(m: Machine, s: State, small: string, formatted: Nonempty)
    requires Inv(m, s) && s.page.Install? && !m.alreadyInstalled && !m.automatic && m.pathsAllowed
    requires s.config.mode == Create && s.config.serverUrl == "" && s.config.device == small && !s.installModeOnly
    requires !m.skipChecks && !AtLeast(m, small, MULTIPLE_DISK_GIB)
    ensures CommonCheck(m, AtInstall(s.config, formatted)).Ok?
    ensures ValidateConfig(m, AtInstall(s.config, formatted)) == Err(DeviceTooSmall(small))
  {
  }

  /** `commonCheck` accepts such a run and the disk checks refuse it. */
  lemma DiskGoesUnchecked(m: Machine, s: State, disk: string, small: string, formatted: Nonempty) returns (t: State)
    requires FreshNode(m, s, disk) && small != disk && !AtLeast(m, small, MULTIPLE_DISK_GIB)
    requires !m.skipChecks && !m.automatic && m.pathsAllowed
    ensures Reaches(m, s, t) && t.page.Install?
    ensures CommonCheck(m, AtInstall(t.config, formatted)).Ok?
    ensures ValidateConfig(m, AtInstall(t.config, formatted)) == Err(DeviceTooSmall(small))
  {
    t := UntilTheRequest(m, s, disk);
    t := BackToTheNetwork(m, s, t);
    t := ChooseUnchecked(m, s, t, disk, small);
    t := StaticVip(m, s, t);
    t := ThroughTheTimeServers(m, s, t, Create);
    t := ToTheInstallation(m, s, t, Create);
    ReachedKeepsInv(m, s, t);
    TooSmall(m, t, small, formatted);
  }

  // ----- A chosen disk on the list of disks to wipe

  /** A new node with these disks, and nothing chosen yet. */
  predicate NodeWithDisks(m: Machine, s: State, disks: seq<string>) {
    && IsStart(s) && s.page.AskCreate? && s.config.device == "" && s.config.dataDisk == "" && s.config.wipeDisks == []
    && s.config.role != Witness && !m.alreadyInstalled && !m.isBios
    && (forall i :: 0 <= i < |disks| ==> disks[i] != "" && AtLeast(m, disks[i], SINGLE_DISK_GIB))
    && (forall i, j :: 0 <= i < j < |disks| ==> disks[i] != disks[j])
  }

  /** On the disk page of an install-only run, one disk chosen for both. */
  predicate OneDiskChosen(m: Machine, s: State, options: seq<string>, wipeable: seq<string>, disk: string) {
    && s.installModeOnly && s.config.role != Witness && !m.isBios
    && s.disks.options == options && s.disks.wipeable == wipeable && |options| > 1
    && s.config.device == disk && s.config.dataDisk == disk && AtLeast(m, disk, SINGLE_DISK_GIB)
  }

  lemma ToTheDisks(m: Machine, s: State, options: seq<string>, wipeable: seq<string>) returns (t: State)
    requires NodeWithDisks(m, s, options) && |options| > 1
    ensures Reaches(m, s, t) && t.page.DiskDevice? && OneDiskChosen(m, t, options, wipeable, options[0])
    ensures t.config.wipeDisks == [] && t.disks.marks == [] && t.disks.selected == []
  {
    assert IsRun(m, s, []) && After(m, s, []) == s;
    t := Extend(m, s, s, Setup(ChooseMode(InstallOnly)));
    t := Extend(m, s, t, Setup(EnterPassword("password")));
    t := Extend(m, s, t, Setup(ConfirmPassword("password", Some("hash"), true, Some(DiskScan(options, wipeable)))));
  }

  /** Choosing one disk for both leads to the wipe field if another disk is offered
      there. */
  lemma ChooseForBoth(m: Machine, start: State, s: State, options: seq<string>, wipeable: seq<string>,
                      before: string, disk: string) returns (t: State)
    requires Reaches(m, start, s) && s.page.DiskDevice? && OneDiskChosen(m, s, options, wipeable, before)
    requires AtLeast(m, disk, SINGLE_DISK_GIB)
    requires Without(Without(wipeable, disk), disk) != []
    ensures Reaches(m, start, t) && t.page.DiskWipe? && OneDiskChosen(m, t, options, wipeable, disk)
    ensures t.diskConfirmed && t.config.persistentSize == Strings.Decimal(150) + "Gi"
    ensures t.disks.selected == s.disks.selected
    ensures t.disks.marks == if disk in s.config.wipeDisks then [] else s.disks.marks
    ensures t.config.wipeDisks == if disk in s.config.wipeDisks then [] else s.config.wipeDisks
  {
    t := Extend(m, start, s, Disk(PickDevice(disk, disk)));
    t := Extend(m, start, t, Disk(PickDataDisk(disk, disk)));
    t := EnterTheSize(m, start, t, options, wipeable, disk);
  }

  lemma EnterTheSize(m: Machine, start: State, s: State, options: seq<string>, wipeable: seq<string>, disk: string)
    returns (t: State)
    requires Reaches(m, start, s) && s.page.DiskSize? && OneDiskChosen(m, s, options, wipeable, disk)
    requires Without(Without(wipeable, disk), disk) != []
    ensures Reaches(m, start, t) && t.page.DiskWipe? && OneDiskChosen(m, t, options, wipeable, disk)
    ensures t.diskConfirmed && t.config.persistentSize == Strings.Decimal(150) + "Gi"
    ensures t.disks.selected == s.disks.selected
    ensures t.disks.marks == if disk in s.config.wipeDisks then [] else s.disks.marks
    ensures t.config.wipeDisks == if disk in s.config.wipeDisks then [] else s.config.wipeDisks
  {
    SizeIsFine(m, s.config, disk);
    t := Extend(m, start, s, Disk(EnterSize(Strings.Decimal(150) + "Gi")));
  }

  lemma AnswerAndLeave(m: Machine, start: State, s: State, options: seq<string>, wipeable: seq<string>, disk: string)
    returns (t: State)
    requires Reaches(m, start, s) && (s.page.DiskWipe? || s.page.DiskWipeList?)
    requires OneDiskChosen(m, s, options, wipeable, disk)
    requires s.diskConfirmed && s.config.persistentSize == Strings.Decimal(150) + "Gi"
    ensures Reaches(m, start, t) && t.page.ConfirmInstall? && OneDiskChosen(m, t, options, wipeable, disk)
    ensures t.config.wipeDisks == s.disks.selected && t.disks == s.disks
  {
    SizeIsFine(m, s.config, disk);
    t := Extend(m, start, s, Disk(AnswerWipe));
  }

  lemma TheOther(a: string, b: string)
    requires a != b
    ensures Without(Without([a, b], a), a) == [b] && Without(Without([a, b], b), b) == [a]
  {
    WithoutTwo(a, b, a);
    WithoutTwo(a, b, b);
    WithoutOne(b, a);
    WithoutOne(a, b);
  }

  lemma WithoutOne(x: string, disk: string)
    ensures Without([x], disk) == if x == disk then [] else [x]
  {
    assert [x][1..] == [] && Without([], disk) == [];
  }

  lemma WithoutTwo(x: string, y: string, disk: string)
    ensures Without([x, y], disk) == (if x == disk then [] else [x]) + (if y == disk then [] else [y])
  {
    assert [x, y][1..] == [y];
    WithoutOne(y, disk);
  }

  lemma MarkedOne(x: string)
    ensures Marked([x], [true]) == [x]
  {
    assert [x][1..] == [] && Marked([], [true][1..]) == [];
  }

  lemma MarkTheOther(m: Machine, start: State, s: State, a: string, b: string) returns (t: State)
    requires a != b && Reaches(m, start, s) && s.page.DiskWipe? && OneDiskChosen(m, s, [a, b], [a, b], a)
    requires s.disks.marks == [] && s.diskConfirmed && s.config.persistentSize == Strings.Decimal(150) + "Gi"
    ensures Reaches(m, start, t) && t.page.DiskWipeList? && OneDiskChosen(m, t, [a, b], [a, b], a)
    ensures t.diskConfirmed && t.config.persistentSize == s.config.persistentSize && t.disks.selected == [b]
  {
    TheOther(a, b);
    t := Extend(m, start, s, Disk(OpenWipe));
    assert t.disks.marks == [false];
    t := Extend(m, start, t, Disk(ToggleWipe(0)));
    assert t.disks.marks == [true];
    MarkedOne(b);
  }

  lemma BackToTheDisks(m: Machine, start: State, s: State, a: string, b: string) returns (t: State)
    requires Reaches(m, start, s) && s.page.ConfirmInstall? && OneDiskChosen(m, s, [a, b], [a, b], a) && a != ""
    ensures Reaches(m, start, t) && t.page.DiskDevice? && OneDiskChosen(m, t, [a, b], [a, b], a)
    ensures t.config.wipeDisks == s.config.wipeDisks && t.disks.selected == s.disks.selected
  {
    t := Extend(m, start, s, Back(Some(DiskScan([a, b], [a, b]))));
  }

  /** One disk is marked, then chosen: the page is offered with no marks, but Enter
      stores what they stood for, and the installation disk is on the list. */
  lemma ChosenDiskIsWiped(m: Machine, s: State, a: string, b: string, formatted: Nonempty) returns (t: State)
    requires NodeWithDisks(m, s, [a, b])
    ensures Reaches(m, s, t) && t.page.Install?
    ensures var c := AtInstall(t.config, formatted); c.device == b && c.wipeDisks == [b] && NamesChosen(c, c.wipeDisks)
  {
    assert a != b by { assert [a, b][0] != [a, b][1]; }
    assert AtLeast(m, b, SINGLE_DISK_GIB) by { assert AtLeast(m, [a, b][1], SINGLE_DISK_GIB); }
    TheOther(a, b);
    t := ToTheDisks(m, s, [a, b], [a, b]);
    t := ChooseForBoth(m, s, t, [a, b], [a, b], a, a);
    t := MarkTheOther(m, s, t, a, b);
    t := AnswerAndLeave(m, s, t, [a, b], [a, b], a);
    t := BackToTheDisks(m, s, t, a, b);
    t := ChooseForBoth(m, s, t, [a, b], [a, b], a, b);
    t := AnswerAndLeave(m, s, t, [a, b], [a, b], b);
    t := Extend(m, s, t, Final(Confirm(true)));
  }

  // ----- A list that grows under its marks

  lemma UpToTheDevice(m: Machine, start: State, s: State, options: seq<string>, wipeable: seq<string>, disk: string)
    returns (t: State)
    requires Reaches(m, start, s) && s.page.DiskWipe? && OneDiskChosen(m, s, options, wipeable, disk)
    ensures Reaches(m, start, t) && t.page.DiskDevice? && OneDiskChosen(m, t, options, wipeable, disk)
    ensures t.config.wipeDisks == s.config.wipeDisks && t.disks.marks == s.disks.marks
  {
    t := Extend(m, start, s, Disk(DiskUp(disk, disk)));
    t := Extend(m, start, t, Disk(DiskUp(disk, disk)));
    t := Extend(m, start, t, Disk(DiskUp(disk, disk)));
  }

  lemma OpenAndClose(m: Machine, start: State, s: State, options: seq<string>, wipeable: seq<string>, disk: string)
    returns (t: State)
    requires Reaches(m, start, s) && s.page.DiskWipe? && OneDiskChosen(m, s, options, wipeable, disk)
    requires s.disks.marks == []
    ensures Reaches(m, start, t) && t.page.DiskWipe? && OneDiskChosen(m, t, options, wipeable, disk)
    ensures t.config.wipeDisks == s.config.wipeDisks && |t.disks.marks| == |WipeOptions(s)|
  {
    t := Extend(m, start, s, Disk(OpenWipe));
    t := Extend(m, start, t, Disk(CloseWipe));
  }

  /** Opened for one disk, then again for two, the list panics. */
  lemma OpeningTheListPanics(m: Machine, s: State, a: string, b: string, c: string) returns (t: State)
    requires NodeWithDisks(m, s, [a, b, c])
    ensures Reaches(m, s, t) && t.page.Failed?
  {
    var all := [a, b, c];
    assert a != b && a != c && b != c by { assert all[0] != all[1] && all[0] != all[2] && all[1] != all[2]; }
    assert AtLeast(m, c, SINGLE_DISK_GIB) by { assert AtLeast(m, all[2], SINGLE_DISK_GIB); }
    TheOther(a, b);
    NotAmong(a, b, c);
    t := ToTheDisks(m, s, all, [a, b]);
    t := ChooseForBoth(m, s, t, all, [a, b], a, a);
    t := OpenAndClose(m, s, t, all, [a, b], a);
    t := UpToTheDevice(m, s, t, all, [a, b], a);
    t := ChooseForBoth(m, s, t, all, [a, b], a, c);
    t := Extend(m, s, t, Disk(OpenWipe));
  }

  lemma NotAmong(a: string, b: string, c: string)
    requires a != c && b != c
    ensures Without(Without([a, b], c), c) == [a, b]
  {
    WithoutTwo(a, b, c);
  }
}
