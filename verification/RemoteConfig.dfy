/** The remote configuration that `HarvesterConfig.Merge` (pkg/config/config.go) adds to
    the wizard's before the installation: it fills what is unset and appends to lists. */
module RemoteConfig {
  import opened Wrappers
  import opened Validator
  import NetworkProfiles

  /** A configuration file: the fields pages write too, and those of the machine. */
  datatype Remote = Remote(config: Config, automatic: bool, skipChecks: bool, isoUrl: string, pathsAllowed: bool)

  function Filled(text: string, other: string): string {
    if text == "" then other else text
  }

  function FilledNumber(n: int, other: int): int {
    if n == 0 then other else n
  }

  /** Entries that are there and not empty stay. */
  function MergedOptions(options: Option<map<string, string>>, other: Option<map<string, string>>)
    : Option<map<string, string>>
  {
    match (options, other)
    case (Some(o), Some(p)) => Some(p + (map k | k in o && (k !in p || o[k] != "") :: o[k]))
    case (None, _) => other
    case (_, None) => options
  }

  function MergedNetwork(n: NetworkProfiles.Network, other: NetworkProfiles.Network): NetworkProfiles.Network {
    NetworkProfiles.Network(
      n.interfaces + other.interfaces, Filled(n.method_, other.method_),
      Filled(n.ip, other.ip), Filled(n.subnetMask, other.subnetMask), Filled(n.gateway, other.gateway),
      MergedOptions(n.bondOptions, other.bondOptions),
      FilledNumber(n.mtu, other.mtu), FilledNumber(n.vlanId, other.vlanId))
  }

  function Merged(c: Config, other: Config): Config {
    Config(
      if c.mode == OtherMode("") then other.mode else c.mode,
      if c.role == OtherRole("") then other.role else c.role,
      Filled(c.serverUrl, other.serverUrl), Filled(c.token, other.token), Filled(c.password, other.password),
      c.sshKeys + other.sshKeys, Filled(c.configUrl, other.configUrl),
      Filled(c.device, other.device), Filled(c.dataDisk, other.dataDisk),
      Filled(c.persistentSize, other.persistentSize), c.wipeDisks + other.wipeDisks, c.forceMbr || other.forceMbr,
      MergedNetwork(c.network, other.network), c.dnsServers + other.dnsServers)
  }

  /** The configuration after the merge, if there is one to merge. */
  function ConfigWith(c: Config, remote: Option<Remote>): Config {
    match remote
    case None => c
    case Some(r) => Merged(c, r.config)
  }

  function MachineWith(m: Machine, remote: Option<Remote>): Machine {
    match remote
    case None => m
    case Some(r) =>
      m.(automatic := m.automatic || r.automatic, skipChecks := m.skipChecks || r.skipChecks,
         isoUrl := Filled(m.isoUrl, r.isoUrl), pathsAllowed := m.pathsAllowed && r.pathsAllowed)
  }

  function AddressOf(remote: Option<Remote>): string {
    if remote.None? then "" else remote.value.config.serverUrl
  }

  predicate BringsCredentials(remote: Option<Remote>) {
    remote.Some? && (remote.value.config.password != "" || remote.value.config.sshKeys != [])
  }

  /** What the merge leaves of a configuration with mode and token set. */
  lemma MergeFills(c: Config, remote: Option<Remote>)
    requires c.mode != OtherMode("")
    ensures var merged := ConfigWith(c, remote);
      && merged.mode == c.mode
      && (merged.serverUrl != "" <==> c.serverUrl != "" || AddressOf(remote) != "")
      && (merged.sshKeys != [] || merged.password != "" <==>
            c.sshKeys != [] || c.password != "" || BringsCredentials(remote))
      && (c.token != "" ==> merged.token == c.token)
  {
  }
}
