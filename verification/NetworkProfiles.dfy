/** The NetworkManager profile directory: saving, wiping, restoring and rewriting
    it (pkg/config/cos.go), in the order `applyNetworks` does
    (pkg/console/network.go). A profile is represented by the fields its template
    prints. */
module NetworkProfiles {
  import opened Wrappers
  import opened Strings
  import SubnetMask

  const METHOD_DHCP: string := "dhcp"
  const METHOD_STATIC: string := "static"
  const METHOD_NONE: string := "none"

  const GLOB_SUFFIX: string := "nmconnection"
  const BOND_FILE: string := "bond-mgmt.nmconnection"
  const BRIDGE_FILE: string := "bridge-mgmt.nmconnection"
  const VLAN_FILE: string := "vlan-mgmt.nmconnection"

  /** `config.Network`, with interfaces by name; None for unset bond options. */
  datatype Network = Network(
    interfaces: seq<string>, method_: string,
    ip: string, subnetMask: string, gateway: string,
    bondOptions: Option<map<string, string>>, mtu: int, vlanId: int)

  /** The `[ipv4]` section: NoMethod when the template prints no method line. */
  datatype Ipv4 = Disabled | Auto | Manual(ip: string, prefix: string, gateway: string) | NoMethod

  datatype Profile =
    | Foreign(bytes: string)
    | BondMaster(mtu: Option<int>, options: map<string, string>, taggedVlan: Option<int>)
    | BondSlave(name: string)
    | Bridge(mtu: Option<int>, taggedVlan: Option<int>, dns: Option<string>, ipv4: Ipv4)
    | Vlan(mtu: Option<int>, id: int, dns: Option<string>, ipv4: Ipv4)

  type Files = map<string, Profile>

  datatype ApplyError = NoInterface | UnsupportedMethod | HostnameRefused

  /** The pattern `*nmconnection`. */
  predicate IsProfile(name: string) {
    |name| >= |GLOB_SUFFIX| && name[|name| - |GLOB_SUFFIX|..] == GLOB_SUFFIX
  }

  function Profiles(files: Files): Files {
    map name | name in files && IsProfile(name) :: files[name]
  }

  function Others(files: Files): Files {
    map name | name in files && !IsProfile(name) :: files[name]
  }

  // ----- What the templates print

  function SlaveFile(name: string): string {
    "bond-slave-" + name + ".nmconnection"
  }

  function IfPositive(n: int): Option<int> {
    if n > 0 then Some(n) else None
  }

  function IfTagged(vlanId: int): Option<int> {
    if vlanId > 1 then Some(vlanId) else None
  }

  function DnsLine(dnsServers: seq<string>): Option<string> {
    if dnsServers == [] then None else Some(Join(dnsServers, ';') + ";")
  }

  function Ipv4Section(method_: string, n: Network, none: Ipv4): Ipv4 {
    if method_ == METHOD_DHCP then Auto
    else if method_ == METHOD_STATIC then Manual(n.ip, SubnetMask.MaskToCidr(n.subnetMask), n.gateway)
    else none
  }

  predicate NeedsVlanInterface(n: Network) {
    2 <= n.vlanId <= 4094
  }

  function BondProfile(n: Network): Profile {
    var options := if n.bondOptions.Some? then n.bondOptions.value
                   else map["mode" := "active-backup", "miimon" := "100"];
    BondMaster(IfPositive(n.mtu), options, IfTagged(n.vlanId))
  }

  function BridgeProfile(n: Network, dns: seq<string>): Profile {
    var tagged := NeedsVlanInterface(n);
    Bridge(IfPositive(n.mtu), IfTagged(n.vlanId),
           if tagged then None else DnsLine(dns),
           Ipv4Section(if tagged then METHOD_NONE else n.method_, n, Disabled))
  }

  function VlanProfile(n: Network, dns: seq<string>): Profile {
    Vlan(IfPositive(n.mtu), n.vlanId, DnsLine(dns), Ipv4Section(n.method_, n, NoMethod))
  }

  function SlaveProfiles(interfaces: seq<string>): Files {
    if interfaces == [] then map[]
    else
      var name := interfaces[|interfaces| - 1];
      SlaveProfiles(interfaces[..|interfaces| - 1])[SlaveFile(name) := BondSlave(name)]
  }

  /** Every profile written for a network. */
  function ProfilesOf(n: Network, dns: seq<string>): Files {
    var bonded := map[BOND_FILE := BondProfile(n)] + SlaveProfiles(n.interfaces);
    var bridged := bonded[BRIDGE_FILE := BridgeProfile(n, dns)];
    if NeedsVlanInterface(n) then bridged[VLAN_FILE := VlanProfile(n, dns)] else bridged
  }

  predicate Supported(n: Network) {
    n.interfaces != [] && (n.method_ == METHOD_DHCP || n.method_ == METHOD_STATIC || n.method_ == METHOD_NONE)
  }

  lemma WritesAdd(a: Files, n: Network, dns: seq<string>)
    ensures var bonded := a[BOND_FILE := BondProfile(n)] + SlaveProfiles(n.interfaces);
            var bridged := bonded[BRIDGE_FILE := BridgeProfile(n, dns)];
      a + ProfilesOf(n, dns) == if NeedsVlanInterface(n) then bridged[VLAN_FILE := VlanProfile(n, dns)] else bridged
  {
  }

  // ----- The directory

  class ProfileDirectory {
    /** `NMConnectionPath`. */
    var files: Files
    /** `originalNetworkConfigs`. */
    var original: Files
    /** `saveOriginalNetworkConfigOnce` has been used. */
    var saved: bool

    constructor (files: Files)
      ensures this.files == files && original == map[] && !saved
    {
      this.files, original, saved := files, map[], false;
    }

    method WipeNMConnectionProfiles()
      modifies this`files
      ensures files == Others(old(files))
    {
      var paths := set name | name in files && IsProfile(name);
      while paths != {}
        invariant paths == set name | name in files && IsProfile(name)
        invariant files.Keys <= old(files).Keys && Others(files) == Others(old(files))
        decreases |paths|
      {
        var path :| path in paths;
        files, paths := files - {path}, paths - {path};
      }
      assert forall name <- files :: name !in paths;
      assert Others(files) == files;
    }

    method RestoreOriginalNetworkConfig()
      modifies this`files
      ensures files == if original == map[] then old(files) else Others(old(files)) + original
    {
      if |original| == 0 {
        return;
      }
      WipeNMConnectionProfiles();
      var names := original.Keys;
      while names != {}
        invariant names <= original.Keys
        invariant files == Others(old(files)) + (map name | name in original.Keys - names :: original[name])
        decreases |names|
      {
        var name :| name in names;
        files, names := files[name := original[name]], names - {name};
      }
    }

    method SaveOriginalNetworkConfig()
      modifies this`original, this`saved
      ensures saved
      ensures original == if old(saved) then old(original) else old(original) + Profiles(files)
    {
      if saved {
        return;
      }
      saved := true;
      var paths := set name | name in files && IsProfile(name);
      while paths != {}
        invariant paths <= Profiles(files).Keys && saved
        invariant original == old(original) + (map name | name in Profiles(files).Keys - paths :: files[name])
        decreases |paths|
      {
        var path :| path in paths;
        original, paths := original[path := files[path]], paths - {path};
      }
    }

    method UpdateBond(n: Network)
      modifies this`files
      ensures files == old(files)[BOND_FILE := BondProfile(n)] + SlaveProfiles(n.interfaces)
    {
      var options := n.bondOptions;
      if options.None? {
        options := Some(map["mode" := "active-backup", "miimon" := "100"]);
      }
      files := files[BOND_FILE := BondMaster(IfPositive(n.mtu), options.value, IfTagged(n.vlanId))];
      for i := 0 to |n.interfaces|
        invariant files == old(files)[BOND_FILE := BondProfile(n)] + SlaveProfiles(n.interfaces[..i])
      {
        assert n.interfaces[..i + 1][..i] == n.interfaces[..i];
        files := files[SlaveFile(n.interfaces[i]) := BondSlave(n.interfaces[i])];
      }
      assert n.interfaces[..|n.interfaces|] == n.interfaces;
    }

    method UpdateBridge(n: Network, dns: seq<string>)
      modifies this`files
      ensures files ==
        if NeedsVlanInterface(n) then old(files)[BRIDGE_FILE := BridgeProfile(n, dns)][VLAN_FILE := VlanProfile(n, dns)]
        else old(files)[BRIDGE_FILE := BridgeProfile(n, dns)]
    {
      var needVlanInterface := n.vlanId >= 2 && n.vlanId <= 4094;
      var bridgeMethod := n.method_;
      if needVlanInterface {
        bridgeMethod := METHOD_NONE;
      }
      var bridgeDns := None;
      if !needVlanInterface && |dns| > 0 {
        bridgeDns := Some(Join(dns, ';') + ";");
      }
      files := files[BRIDGE_FILE :=
        Bridge(IfPositive(n.mtu), IfTagged(n.vlanId), bridgeDns, Ipv4Section(bridgeMethod, n, Disabled))];
      if needVlanInterface {
        files := files[VLAN_FILE := VlanProfile(n, dns)];
      }
    }

    method UpdateManagementInterfaceConfig(n: Network, dns: seq<string>) returns (r: Result<(), ApplyError>)
      modifies this`files
      ensures r.Ok? <==> Supported(n)
      ensures r.Ok? ==> files == Others(old(files)) + ProfilesOf(n, dns)
      ensures r.Err? ==> files == old(files)
      ensures r == Err(NoInterface) <==> n.interfaces == []
    {
      if |n.interfaces| == 0 {
        return Err(NoInterface);
      }
      if n.method_ != METHOD_DHCP && n.method_ != METHOD_STATIC && n.method_ != METHOD_NONE {
        return Err(UnsupportedMethod);
      }
      WipeNMConnectionProfiles();
      UpdateBond(n);
      UpdateBridge(n, dns);
      WritesAdd(Others(old(files)), n, dns);
      return Ok(());
    }

    /** `applyNetworks`. The host name is set between saving and updating, and
        fails or not. */
    method Apply(n: Network, hostnameAccepted: bool) returns (r: Result<(), ApplyError>)
      modifies this
      ensures Snapshot() == ApplyTo(old(Snapshot()), n, hostnameAccepted)
      ensures r.Ok? <==> hostnameAccepted && Supported(n)
    {
      RestoreOriginalNetworkConfig();
      SaveOriginalNetworkConfig();
      if !hostnameAccepted {
        return Err(HostnameRefused);
      }
      r := UpdateManagementInterfaceConfig(n, []);
    }

    function Snapshot(): Directory
      reads this
    {
      Directory(files, original, saved)
    }
  }

  /** The directory and the snapshot as values. */
  datatype Directory = Directory(files: Files, original: Files, saved: bool)

  function Restored(d: Directory): Files {
    if d.original == map[] then d.files else Others(d.files) + d.original
  }

  /** One `applyNetworks` call. */
  function ApplyTo(d: Directory, n: Network, hostnameAccepted: bool): Directory {
    var files := Restored(d);
    var original := if d.saved then d.original else d.original + Profiles(files);
    var updated := if hostnameAccepted && Supported(n) then Others(files) + ProfilesOf(n, []) else files;
    Directory(updated, original, true)
  }

  // ----- Any sequence of calls

  datatype Call = Call(network: Network, hostnameAccepted: bool)

  predicate Accepted(c: Call) {
    c.hostnameAccepted && Supported(c.network)
  }

  function ApplyAll(d: Directory, calls: seq<Call>): Directory {
    if calls == [] then d
    else
      var last := calls[|calls| - 1];
      ApplyTo(ApplyAll(d, calls[..|calls| - 1]), last.network, last.hostnameAccepted)
  }

  /** One of the interfaces has this slave profile. */
  predicate NamesSlave(interfaces: seq<string>, name: string) {
    exists i :: 0 <= i < |interfaces| && name == SlaveFile(interfaces[i])
  }

  lemma {:induction false} SlaveFilesAreProfiles(interfaces: seq<string>)
    ensures forall name :: name in SlaveProfiles(interfaces) <==> NamesSlave(interfaces, name)
    ensures forall name <- SlaveProfiles(interfaces) :: IsProfile(name)
  {
    if interfaces != [] {
      var n := |interfaces| - 1;
      SlaveFilesAreProfiles(interfaces[..n]);
      OneMoreSlave(interfaces[..n], interfaces[n]);
      assert interfaces[..n] + [interfaces[n]] == interfaces;
      var name := SlaveFile(interfaces[n]);
      assert name[|name| - |GLOB_SUFFIX|..] == GLOB_SUFFIX;
    }
  }

  lemma OneMoreSlave(interfaces: seq<string>, last: string)
    ensures forall name :: NamesSlave(interfaces + [last], name) <==>
      NamesSlave(interfaces, name) || name == SlaveFile(last)
  {
    var all, n := interfaces + [last], |interfaces|;
    assert all[n] == last && forall i :: 0 <= i < n ==> all[i] == interfaces[i];
    forall name
      ensures NamesSlave(interfaces, name) ==> NamesSlave(all, name)
    {
      if i :| 0 <= i < n && name == SlaveFile(interfaces[i]) {
        assert name == SlaveFile(all[i]);
      }
    }
  }

  lemma WrittenFilesAreProfiles(n: Network, dns: seq<string>)
    ensures forall name <- ProfilesOf(n, dns) :: IsProfile(name)
    ensures VLAN_FILE in ProfilesOf(n, dns) <==> NeedsVlanInterface(n)
  {
    SlaveFilesAreProfiles(n.interfaces);
    assert BOND_FILE[|BOND_FILE| - |GLOB_SUFFIX|..] == GLOB_SUFFIX;
    assert BRIDGE_FILE[|BRIDGE_FILE| - |GLOB_SUFFIX|..] == GLOB_SUFFIX;
    assert VLAN_FILE[|VLAN_FILE| - |GLOB_SUFFIX|..] == GLOB_SUFFIX;
    forall i | 0 <= i < |n.interfaces|
      ensures SlaveFile(n.interfaces[i]) != VLAN_FILE
    {
      assert SlaveFile(n.interfaces[i])[0] == 'b';
    }
  }

  lemma ReplacedProfiles(files: Files, written: Files)
    requires forall name <- written :: IsProfile(name)
    ensures Others(Others(files) + written) == Others(files)
  {
  }

  lemma Split(files: Files)
    ensures Others(files) + Profiles(files) == files
    ensures forall name <- Profiles(files) :: IsProfile(name)
  {
  }

  /** One call changes no other file. */
  lemma ApplyKeepsOthers(d: Directory, n: Network, hostnameAccepted: bool)
    requires forall name <- d.original :: IsProfile(name)
    ensures Others(Restored(d)) == Others(d.files)
    ensures Others(ApplyTo(d, n, hostnameAccepted).files) == Others(d.files)
  {
    ReplacedProfiles(d.files, d.original);
    WrittenFilesAreProfiles(n, []);
    ReplacedProfiles(Restored(d), ProfilesOf(n, []));
  }

  /** After any calls the files that are not profiles are the first ones, and the
      snapshot is the profile set at the first call. */
  lemma {:induction false} SnapshotIsFirst(files: Files, calls: seq<Call>)
    ensures var d := ApplyAll(Directory(files, map[], false), calls);
      && Others(d.files) == Others(files)
      && d.saved == (calls != [])
      && d.original == if calls == [] then map[] else Profiles(files)
  {
    if calls != [] {
      var n := |calls| - 1;
      SnapshotIsFirst(files, calls[..n]);
      Split(files);
      var d := ApplyAll(Directory(files, map[], false), calls[..n]);
      ApplyKeepsOthers(d, calls[n].network, calls[n].hostnameAccepted);
    }
  }

  /** Every call after the first rewrites the original profiles: they are put
      back exactly, if there were any. */
  lemma RestoredIsOriginal(files: Files, calls: seq<Call>)
    requires calls != [] && Profiles(files) != map[]
    ensures Restored(ApplyAll(Directory(files, map[], false), calls)) == files
  {
    SnapshotIsFirst(files, calls);
    Split(files);
  }

  lemma LastCall(d0: Directory, calls: seq<Call>)
    requires calls != []
    ensures var before, last := ApplyAll(d0, calls[..|calls| - 1]), calls[|calls| - 1];
      ApplyAll(d0, calls).files ==
        if Accepted(last) then Others(Restored(before)) + ProfilesOf(last.network, []) else Restored(before)
  {
  }

  lemma OthersSurvive(files: Files, calls: seq<Call>)
    ensures Others(Restored(ApplyAll(Directory(files, map[], false), calls))) == Others(files)
  {
    SnapshotIsFirst(files, calls);
    Split(files);
    var d := ApplyAll(Directory(files, map[], false), calls);
    ReplacedProfiles(d.files, d.original);
  }

  lemma RejectedLast(files: Files, calls: seq<Call>)
    requires calls == [] || Profiles(files) != map[]
    ensures Restored(ApplyAll(Directory(files, map[], false), calls)) == files
  {
    if calls != [] {
      RestoredIsOriginal(files, calls);
    }
  }

  lemma NothingToRestore(files: Files, calls: seq<Call>)
    requires Profiles(files) == map[]
    ensures var d := ApplyAll(Directory(files, map[], false), calls);
      Restored(d) == d.files
  {
    SnapshotIsFirst(files, calls);
  }

  ghost predicate Outcome(files: Files, calls: seq<Call>)
    requires calls != []
  {
    var d0 := Directory(files, map[], false);
    var last := calls[|calls| - 1];
    ApplyAll(d0, calls).files ==
      if Accepted(last) then Others(files) + ProfilesOf(last.network, [])
      else if Profiles(files) != map[] then files
      else ApplyAll(d0, calls[..|calls| - 1]).files
  }

  /** The outcome of a whole history. If its last call is accepted only that
      network matters; if it is rejected the directory is back at its original
      contents, provided it held a profile at the start, and otherwise the call
      changes nothing. */
  lemma OutcomeOfHistory(files: Files, calls: seq<Call>)
    requires calls != []
    ensures Outcome(files, calls)
  {
    var d0 := Directory(files, map[], false);
    var before := calls[..|calls| - 1];
    LastCall(d0, calls);
    if Accepted(calls[|calls| - 1]) {
      OthersSurvive(files, before);
    } else if Profiles(files) != map[] {
      RejectedLast(files, before);
    } else {
      NothingToRestore(files, before);
    }
  }

  /** The address is carried by exactly one profile: the VLAN profile, present
      exactly for 2 to 4094, and otherwise the bridge. */
  lemma AddressCarrier(n: Network, dns: seq<string>)
    requires n.method_ != METHOD_NONE && Supported(n)
    ensures var ps := ProfilesOf(n, dns);
      && (VLAN_FILE in ps <==> 2 <= n.vlanId <= 4094)
      && (if VLAN_FILE in ps then
            ps[BRIDGE_FILE].ipv4 == Disabled && Carries(ps[VLAN_FILE].ipv4, n)
          else Carries(ps[BRIDGE_FILE].ipv4, n))
  {
    WrittenFilesAreProfiles(n, dns);
  }

  const MANAGEMENT_INTERFACE: string := "mgmt-br"

  /** `getManagementInterfaceName`, used to request an address. */
  function ManagementInterfaceName(n: Network): string {
    if n.vlanId >= 2 && n.vlanId <= 4094 then MANAGEMENT_INTERFACE + "." + Decimal(n.vlanId) else MANAGEMENT_INTERFACE
  }

  /** The address is requested on the interface whose profile carries it. */
  lemma AddressIsRequestedOnItsCarrier(n: Network, dns: seq<string>)
    ensures var ps := ProfilesOf(n, dns);
      if VLAN_FILE in ps then
        && ps[VLAN_FILE].Vlan? && ps[VLAN_FILE].id >= 0
        && ManagementInterfaceName(n) == MANAGEMENT_INTERFACE + "." + Decimal(ps[VLAN_FILE].id)
      else ManagementInterfaceName(n) == MANAGEMENT_INTERFACE
  {
    WrittenFilesAreProfiles(n, dns);
  }

  ghost predicate Carries(section: Ipv4, n: Network) {
    if n.method_ == METHOD_DHCP then section == Auto
    else section == Manual(n.ip, SubnetMask.MaskToCidr(n.subnetMask), n.gateway)
  }

  /** A static address goes out with the prefix length of the mask the network
      page stored. */
  lemma StaticPrefix(section: Ipv4, n: Network, mask: SubnetMask.Mask, ones: nat)
    requires n.method_ == METHOD_STATIC && Carries(section, n)
    requires SubnetMask.HasPrefixLength(mask, ones) && n.subnetMask == SubnetMask.Print(mask)
    ensures section.Manual? && section.prefix == Decimal(ones)
  {
    SubnetMask.StoredMaskBecomesPrefixLength(mask, ones);
  }
}
