/** The configuration the wizard fills in and the checks it must pass at the end
    (pkg/console/validator.go). */
module Validator {
  import opened Wrappers
  import opened PartitionSize
  import NetworkProfiles

  datatype Mode = Create | Join | InstallOnly | Upgrade | OtherMode(text: string)

  datatype Role = DefaultRole | Management | Witness | Worker | OtherRole(text: string)

  /** The fields of `config.HarvesterConfig` that wizard pages write. */
  datatype Config = Config(
    mode: Mode, role: Role,
    serverUrl: string, token: string, password: string, sshKeys: seq<string>, configUrl: string,
    device: string, dataDisk: string, persistentSize: string, wipeDisks: seq<string>, forceMbr: bool,
    network: NetworkProfiles.Network, dnsServers: seq<string>)

  /** What does not change while the wizard runs: the machine, and the
      configuration fields no page writes. `sizes` holds the disks whose size can
      be read; `pathsAllowed` is the outcome of `checkPersistentStatePaths`. */
  datatype Machine = Machine(
    alreadyInstalled: bool, isBios: bool, sizes: map<string, Uint64>,
    skipChecks: bool, automatic: bool, isoUrl: string, pathsAllowed: bool)

  datatype CheckError =
    | CreateWithServerUrl | JoinWithoutServerUrl | UnknownMode
    | NoIsoUrl | NoToken | NoCredentials | PathRefused
    | NoDevice | DeviceTooSmall(device: string) | SizeUnreadable
    | DiskTooLargeForMbr | MbrOnUefi
    | TokenRefused | NoInterface | MethodRefused | StaticWithoutDns

  const SINGLE_DISK_GIB: nat := 250
  const MULTIPLE_DISK_GIB: nat := 180
  const DATA_DISK_GIB: nat := 50

  /** (2^32 - 1) sectors of 512 bytes. */
  const MBR_LIMIT: nat := 2199023255040

  /** `checkToken`: one or more characters of the pattern's class, which spells
      out the printing ASCII characters. */
  predicate ValidToken(token: string) {
    token != "" && forall i :: 0 <= i < |token| ==> ' ' <= token[i] <= '~'
  }

  function CommonCheck(m: Machine, c: Config): Result<(), CheckError> {
    if c.mode == Upgrade || c.mode == InstallOnly then Ok(())
    else if c.mode == Create && c.serverUrl != "" then Err(CreateWithServerUrl)
    else if c.mode == Join && c.serverUrl == "" then Err(JoinWithoutServerUrl)
    else if c.mode != Create && c.mode != Join then Err(UnknownMode)
    else if !m.alreadyInstalled && m.automatic && m.isoUrl == "" then Err(NoIsoUrl)
    else if c.token == "" then Err(NoToken)
    else if c.sshKeys == [] && c.password == "" then Err(NoCredentials)
    else if !m.pathsAllowed then Err(PathRefused)
    else Ok(())
  }

  predicate AtLeast(m: Machine, device: string, gib: nat) {
    device in m.sizes && ByteToGi(m.sizes[device]) >= gib
  }

  function CheckDeviceSizes(m: Machine, c: Config): Result<(), CheckError> {
    if m.skipChecks then Ok(())
    else if c.role == Witness then
      if AtLeast(m, c.device, MULTIPLE_DISK_GIB) then Ok(()) else Err(DeviceTooSmall(c.device))
    else if c.dataDisk == c.device || c.dataDisk == "" then
      if AtLeast(m, c.device, SINGLE_DISK_GIB) then Ok(()) else Err(DeviceTooSmall(c.device))
    else if !AtLeast(m, c.device, MULTIPLE_DISK_GIB) then Err(DeviceTooSmall(c.device))
    else if !AtLeast(m, c.dataDisk, DATA_DISK_GIB) then Err(DeviceTooSmall(c.dataDisk))
    else Ok(())
  }

  /** `diskExceedsMBRLimit`; the size is read as a signed 64-bit number. */
  function ExceedsMbrLimit(m: Machine, device: string): Option<bool> {
    if device !in m.sizes || m.sizes[device] >= 0x8000_0000_0000_0000 then None
    else Some(m.sizes[device] > MBR_LIMIT)
  }

  function CheckForceMbr(m: Machine, device: string): Result<(), CheckError> {
    match ExceedsMbrLimit(m, device)
    case None => Err(SizeUnreadable)
    case Some(true) => Err(DiskTooLargeForMbr)
    case Some(false) => if m.isBios then Ok(()) else Err(MbrOnUefi)
  }

  function DiskChecks(m: Machine, c: Config): Result<(), CheckError> {
    match CheckDeviceSizes(m, c)
    case Err(e) => Err(e)
    case Ok(_) => if c.forceMbr then CheckForceMbr(m, c.device) else Ok(())
  }

  function CheckNetworks(n: NetworkProfiles.Network, dnsServers: seq<string>): Result<(), CheckError> {
    if n.interfaces == [] then Err(NoInterface)
    else if n.method_ != NetworkProfiles.METHOD_DHCP && n.method_ != NetworkProfiles.METHOD_STATIC then
      Err(MethodRefused)
    else if n.method_ == NetworkProfiles.METHOD_STATIC && dnsServers == [] then Err(StaticWithoutDns)
    else Ok(())
  }

  /** `Validate`, for the checks above in their order. */
  function Validate(m: Machine, c: Config): Result<(), CheckError> {
    match DiskChecks(m, c)
    case Err(e) => Err(e)
    case Ok(_) =>
      if c.mode == InstallOnly then Ok(())
      else match CheckNetworks(c.network, c.dnsServers)
        case Err(e) => Err(e)
        case Ok(_) => if ValidToken(c.token) then Ok(()) else Err(TokenRefused)
  }

  /** `validateConfig`. */
  function ValidateConfig(m: Machine, c: Config): Result<(), CheckError> {
    match CommonCheck(m, c)
    case Err(e) => Err(e)
    case Ok(_) => Validate(m, c)
  }
}
