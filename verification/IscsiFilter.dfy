/** Leaving out the NICs that carry iSCSI sessions: `filterISCSIInterfaces` and
    `filterNICSBySession` (pkg/console/network.go). */
module IscsiFilter {
  import opened Wrappers

  /** A link as the host reports it: its hardware address, whether its state is up,
      and its addresses without their prefix length. `addresses` is None when they
      cannot be fetched, and an element is None when it does not parse. */
  datatype Link = Link(name: string, mac: string, up: bool, addresses: Option<seq<Option<string>>>)

  datatype FilterError = NoAddresses | BadAddress

  type Devices = map<string, Link>

  // ----- One link

  /** The addresses are looked at in order up to the first one of a session. */
  function Scan(addresses: seq<Option<string>>, sessions: set<string>): Result<bool, FilterError> {
    if addresses == [] then Ok(false)
    else if addresses[0].None? then Err(BadAddress)
    else if addresses[0].value in sessions then Ok(true)
    else Scan(addresses[1..], sessions)
  }

  function InUse(link: Link, sessions: set<string>): Result<bool, FilterError> {
    if !link.up then Ok(false)
    else if link.addresses.None? then Err(NoAddresses)
    else Scan(link.addresses.value, sessions)
  }

  predicate CarriesSession(addresses: seq<Option<string>>, sessions: set<string>, i: nat) {
    i < |addresses| && addresses[i].Some? && addresses[i].value in sessions
  }

  /** A link is in use if and only if one of its addresses is a session's and every
      address before it parses; the scan fails if and only if an address that does
      not parse comes before any session's. */
  lemma {:induction false} ScanFindsSession(addresses: seq<Option<string>>, sessions: set<string>)
    ensures Scan(addresses, sessions) == Ok(true) <==>
      exists i: nat :: CarriesSession(addresses, sessions, i) && forall j :: 0 <= j < i ==> addresses[j].Some?
    ensures Scan(addresses, sessions).Err? <==>
      exists i: nat :: i < |addresses| && addresses[i].None?
        && forall j :: 0 <= j < i ==> addresses[j].Some? && !CarriesSession(addresses, sessions, j)
  {
    if addresses != [] {
      var rest := addresses[1..];
      ScanFindsSession(rest, sessions);
      if addresses[0].Some? && addresses[0].value !in sessions {
        if i: nat :| CarriesSession(addresses, sessions, i) && forall j :: 0 <= j < i ==> addresses[j].Some? {
          assert CarriesSession(rest, sessions, i - 1);
        }
        if i: nat :| CarriesSession(rest, sessions, i) && forall j :: 0 <= j < i ==> rest[j].Some? {
          assert CarriesSession(addresses, sessions, i + 1);
          assert forall j :: 1 <= j < i + 1 ==> addresses[j] == rest[j - 1];
        }
      } else if addresses[0].Some? {
        assert CarriesSession(addresses, sessions, 0);
      }
    }
  }

  // ----- The device map

  /** The device map: for each hardware address the last NIC that has it. */
  function DeviceMap(nics: seq<Link>): Devices {
    if nics == [] then map[]
    else DeviceMap(nics[..|nics| - 1])[nics[|nics| - 1].mac := nics[|nics| - 1]]
  }

  /** The hardware addresses of the links in use. */
  ghost function UsedMacs(links: seq<Link>, sessions: set<string>): set<string> {
    set i | 0 <= i < |links| && InUse(links[i], sessions) == Ok(true) :: links[i].mac
  }

  predicate AllReadable(links: seq<Link>, sessions: set<string>) {
    forall i :: 0 <= i < |links| ==> InUse(links[i], sessions).Ok?
  }

  /** The loop over the addresses of a link, with its `break`. */
  method LinkInUse(link: Link, sessions: set<string>) returns (r: Result<bool, FilterError>)
    ensures r == InUse(link, sessions)
  {
    if !link.up {
      return Ok(false);
    }
    if link.addresses.None? {
      return Err(NoAddresses);
    }
    var addresses := link.addresses.value;
    for i := 0 to |addresses|
      invariant Scan(addresses, sessions) == Scan(addresses[i..], sessions)
    {
      if addresses[i].None? {
        return Err(BadAddress);
      }
      if addresses[i].value in sessions {
        return Ok(true);
      }
      assert addresses[i..][1..] == addresses[i + 1..];
    }
    return Ok(false);
  }

  method FilterNicsBySession(devices: Devices, links: seq<Link>, sessions: set<string>)
    returns (r: Result<Devices, FilterError>)
    ensures r.Ok? <==> AllReadable(links, sessions)
    ensures r.Ok? ==> r.value == devices - UsedMacs(links, sessions)
  {
    var left := devices;
    for i := 0 to |links|
      invariant AllReadable(links[..i], sessions)
      invariant left == devices - UsedMacs(links[..i], sessions)
    {
      var used := LinkInUse(links[i], sessions);
      if used.Err? {
        return Err(used.error);
      }
      OneMoreLink(links, sessions, i);
      if used.value {
        left := left - {links[i].mac};
      }
    }
    assert links[..|links|] == links;
    return Ok(left);
  }

  lemma OneMoreLink(links: seq<Link>, sessions: set<string>, i: nat)
    requires i < |links| && InUse(links[i], sessions).Ok?
    ensures UsedMacs(links[..i + 1], sessions)
         == UsedMacs(links[..i], sessions) + if InUse(links[i], sessions).value then {links[i].mac} else {}
  {
    var before, now := UsedMacs(links[..i], sessions), UsedMacs(links[..i + 1], sessions);
    forall mac <- before ensures mac in now {
      var j :| 0 <= j < i && InUse(links[..i][j], sessions) == Ok(true) && links[..i][j].mac == mac;
      assert links[..i + 1][j] == links[..i][j];
    }
    forall mac <- now ensures mac in before || (InUse(links[i], sessions).value && mac == links[i].mac) {
      var j :| 0 <= j < i + 1 && InUse(links[..i + 1][j], sessions) == Ok(true) && links[..i + 1][j].mac == mac;
      if j < i {
        assert links[..i][j] == links[..i + 1][j];
      }
    }
    if InUse(links[i], sessions).value {
      assert links[..i + 1][i].mac in now;
    }
  }

  /** What is left: the last NIC for each hardware address no link in use has. */
  method FilterIscsiInterfaces(nics: seq<Link>, vlanNics: seq<Link>, sessionAddresses: seq<string>)
    returns (r: Result<Devices, FilterError>)
    ensures var sessions := set s | s in sessionAddresses;
      && (r.Ok? <==> AllReadable(nics, sessions) && AllReadable(vlanNics, sessions))
      && (r.Ok? ==> r.value == DeviceMap(nics) - UsedMacs(nics, sessions) - UsedMacs(vlanNics, sessions))
  {
    var devices: Devices := map[];
    for i := 0 to |nics|
      invariant devices == DeviceMap(nics[..i])
    {
      assert nics[..i + 1][..i] == nics[..i];
      devices := devices[nics[i].mac := nics[i]];
    }
    assert nics[..|nics|] == nics;
    var sessions: set<string> := {};
    for i := 0 to |sessionAddresses|
      invariant sessions == set s | s in sessionAddresses[..i]
    {
      assert sessionAddresses[..i + 1] == sessionAddresses[..i] + [sessionAddresses[i]];
      sessions := sessions + {sessionAddresses[i]};
    }
    assert sessionAddresses[..|sessionAddresses|] == sessionAddresses;
    r := FilterNicsBySession(devices, nics, sessions);
    if r.Err? {
      return;
    }
    r := FilterNicsBySession(r.value, vlanNics, sessions);
  }

  // ----- Distinct hardware addresses

  predicate Distinct(nics: seq<Link>) {
    forall i, j :: 0 <= i < j < |nics| ==> nics[i].mac != nics[j].mac
  }

  lemma {:induction false} DeviceMapHolds(nics: seq<Link>, mac: string)
    requires Distinct(nics)
    ensures mac in DeviceMap(nics) <==> exists i :: 0 <= i < |nics| && nics[i].mac == mac
    ensures forall i :: 0 <= i < |nics| && nics[i].mac == mac ==>
      mac in DeviceMap(nics) && DeviceMap(nics)[mac] == nics[i]
  {
    if nics != [] {
      var n := |nics| - 1;
      DeviceMapHolds(nics[..n], mac);
      if nics[n].mac != mac && mac in DeviceMap(nics[..n]) {
        var i :| 0 <= i < n && nics[..n][i].mac == mac;
        assert nics[i].mac == mac;
      }
    }
  }

  predicate UsedBy(link: Link, sessions: set<string>, mac: string) {
    link.mac == mac && InUse(link, sessions) == Ok(true)
  }

  /** With distinct hardware addresses the NICs left are exactly those whose address
      no NIC or VLAN link in use has. */
  lemma KeptExactlyWhen(nics: seq<Link>, vlanNics: seq<Link>, sessions: set<string>, nic: Link)
    requires Distinct(nics)
    ensures var left := DeviceMap(nics) - UsedMacs(nics, sessions) - UsedMacs(vlanNics, sessions);
      (nic.mac in left && left[nic.mac] == nic) <==>
        && nic in nics
        && (forall i :: 0 <= i < |nics| ==> !UsedBy(nics[i], sessions, nic.mac))
        && (forall i :: 0 <= i < |vlanNics| ==> !UsedBy(vlanNics[i], sessions, nic.mac))
  {
    DeviceMapHolds(nics, nic.mac);
    UsedMacsHold(nics, sessions, nic.mac);
    UsedMacsHold(vlanNics, sessions, nic.mac);
  }

  lemma UsedMacsHold(links: seq<Link>, sessions: set<string>, mac: string)
    ensures mac in UsedMacs(links, sessions) <==> exists i :: 0 <= i < |links| && UsedBy(links[i], sessions, mac)
  {
  }

  // ----- Order

  predicate Unreadable(addresses: seq<Option<string>>) {
    exists i :: 0 <= i < |addresses| && addresses[i].None?
  }

  predicate Hit(addresses: seq<Option<string>>, sessions: set<string>) {
    exists i :: 0 <= i < |addresses| && addresses[i].Some? && addresses[i].value in sessions
  }

  /** Which of the two kinds of address is there decides, unless both are. */
  lemma {:induction false} ScanByContents(addresses: seq<Option<string>>, sessions: set<string>)
    ensures !Unreadable(addresses) ==> Scan(addresses, sessions) == Ok(Hit(addresses, sessions))
    ensures Unreadable(addresses) && !Hit(addresses, sessions) ==> Scan(addresses, sessions) == Err(BadAddress)
  {
    if addresses != [] {
      ScanByContents(addresses[1..], sessions);
      ContentsOfRest(addresses, sessions);
    }
  }

  lemma ContentsOfRest(addresses: seq<Option<string>>, sessions: set<string>)
    requires addresses != []
    ensures Unreadable(addresses) <==> addresses[0].None? || Unreadable(addresses[1..])
    ensures Hit(addresses, sessions) <==>
      (addresses[0].Some? && addresses[0].value in sessions) || Hit(addresses[1..], sessions)
  {
    var rest := addresses[1..];
    if i :| 0 <= i < |rest| && rest[i].None? {
      assert addresses[i + 1].None?;
    }
    if i :| 0 <= i < |rest| && rest[i].Some? && rest[i].value in sessions {
      assert addresses[i + 1].Some? && addresses[i + 1].value in sessions;
    }
    if i :| 0 < i < |addresses| && addresses[i].None? {
      assert rest[i - 1].None?;
    }
    if i :| 0 < i < |addresses| && addresses[i].Some? && addresses[i].value in sessions {
      assert rest[i - 1].Some? && rest[i - 1].value in sessions;
    }
  }

  ghost predicate AnyOrder(addresses: seq<Option<string>>, sessions: set<string>) {
    forall other: seq<Option<string>> :: multiset(other) == multiset(addresses) ==>
      Scan(other, sessions) == Scan(addresses, sessions)
  }

  /** The order of a link's addresses matters if and only if one of them does not parse
      and one is a session's. */
  lemma AddressOrderMattersExactlyWhen(addresses: seq<Option<string>>, sessions: set<string>)
    ensures AnyOrder(addresses, sessions) <==> !(Unreadable(addresses) && Hit(addresses, sessions))
  {
    if Unreadable(addresses) && Hit(addresses, sessions) {
      TwoOrdersDiffer(addresses, sessions);
    } else {
      ScanByContents(addresses, sessions);
      forall other: seq<Option<string>> | multiset(other) == multiset(addresses)
        ensures Scan(other, sessions) == Scan(addresses, sessions)
      {
        ScanByContents(other, sessions);
        SameContents(addresses, other, sessions);
        SameContents(other, addresses, sessions);
      }
    }
  }

  lemma SameContents(one: seq<Option<string>>, other: seq<Option<string>>, sessions: set<string>)
    requires multiset(one) == multiset(other)
    ensures Unreadable(one) ==> Unreadable(other)
    ensures Hit(one, sessions) ==> Hit(other, sessions)
  {
    if i :| 0 <= i < |one| && one[i].None? {
      assert one[i] in multiset(other);
    }
    if i :| 0 <= i < |one| && one[i].Some? && one[i].value in sessions {
      assert one[i] in multiset(other);
    }
  }

  /** Each kind first. */
  lemma TwoOrdersDiffer(addresses: seq<Option<string>>, sessions: set<string>)
    requires Unreadable(addresses) && Hit(addresses, sessions)
    ensures !AnyOrder(addresses, sessions)
  {
    var i :| 0 <= i < |addresses| && addresses[i].None?;
    var j :| 0 <= j < |addresses| && addresses[j].Some? && addresses[j].value in sessions;
    var bad, good := MovedToFront(addresses, i), MovedToFront(addresses, j);
    MovedIsPermutation(addresses, i);
    MovedIsPermutation(addresses, j);
    assert Scan(bad, sessions) == Err(BadAddress) && Scan(good, sessions) == Ok(true);
  }

  function MovedToFront(addresses: seq<Option<string>>, i: nat): seq<Option<string>>
    requires i < |addresses|
  {
    [addresses[i]] + (addresses[..i] + addresses[i + 1..])
  }

  lemma MovedIsPermutation(addresses: seq<Option<string>>, i: nat)
    requires i < |addresses|
    ensures multiset(MovedToFront(addresses, i)) == multiset(addresses)
  {
    assert addresses == addresses[..i] + [addresses[i]] + addresses[i + 1..];
  }

  /** The same link, its addresses in any order. */
  predicate SameLink(one: Link, other: Link) {
    && one.name == other.name && one.mac == other.mac && one.up == other.up
    && (one.addresses.Some? <==> other.addresses.Some?)
    && (one.addresses.Some? ==> multiset(one.addresses.value) == multiset(other.addresses.value))
  }

  /** Every link of one list is in the other. */
  ghost predicate Covered(one: seq<Link>, other: seq<Link>) {
    forall i :: 0 <= i < |one| ==> IsAmong(one[i], other)
  }

  ghost predicate IsAmong(link: Link, links: seq<Link>) {
    exists j :: 0 <= j < |links| && SameLink(link, links[j])
  }

  ghost predicate SameLinks(one: seq<Link>, other: seq<Link>) {
    Covered(one, other) && Covered(other, one)
  }

  /** No link that is up mixes addresses that do not parse with a session's. */
  predicate Settled(links: seq<Link>, sessions: set<string>) {
    forall i :: 0 <= i < |links| && links[i].up && links[i].addresses.Some? ==>
      !(Unreadable(links[i].addresses.value) && Hit(links[i].addresses.value, sessions))
  }

  lemma SameUse(one: Link, other: Link, sessions: set<string>)
    requires SameLink(one, other)
    requires one.up && one.addresses.Some? ==> !(Unreadable(one.addresses.value) && Hit(one.addresses.value, sessions))
    ensures InUse(one, sessions) == InUse(other, sessions)
  {
    if one.up && one.addresses.Some? {
      AddressOrderMattersExactlyWhen(one.addresses.value, sessions);
      assert Scan(other.addresses.value, sessions) == Scan(one.addresses.value, sessions);
    }
  }

  /** What `filterISCSIInterfaces` returns; None for an error. */
  ghost function Left(nics: seq<Link>, vlanNics: seq<Link>, sessions: set<string>): Option<Devices> {
    if AllReadable(nics, sessions) && AllReadable(vlanNics, sessions)
    then Some(DeviceMap(nics) - UsedMacs(nics, sessions) - UsedMacs(vlanNics, sessions))
    else None
  }

  ghost predicate SameDevices(one: Devices, other: Devices) {
    one.Keys == other.Keys && forall mac <- one :: SameLink(one[mac], other[mac])
  }

  /** The outcome, error or not, is the same for any order of the NICs, the VLAN links,
      the addresses of each link and the sessions. */
  lemma OrderDoesNotMatter(nics: seq<Link>, nics': seq<Link>, vlanNics: seq<Link>, vlanNics': seq<Link>,
                           sessionAddresses: seq<string>, sessionAddresses': seq<string>)
    requires Distinct(nics) && Distinct(nics') && SameLinks(nics, nics') && SameLinks(vlanNics, vlanNics')
    requires forall s :: s in sessionAddresses <==> s in sessionAddresses'
    requires var sessions := set s | s in sessionAddresses; Settled(nics, sessions) && Settled(vlanNics, sessions)
    ensures var one := Left(nics, vlanNics, set s | s in sessionAddresses);
            var other := Left(nics', vlanNics', set s | s in sessionAddresses');
      && (one.Some? <==> other.Some?)
      && (one.Some? ==> SameDevices(one.value, other.value))
  {
    var sessions := set s | s in sessionAddresses;
    assert sessions == set s | s in sessionAddresses';
    SameReading(nics, nics', sessions);
    SameReading(vlanNics, vlanNics', sessions);
    SameDeviceMap(nics, nics');
  }

  lemma SameReading(links: seq<Link>, links': seq<Link>, sessions: set<string>)
    requires SameLinks(links, links') && Settled(links, sessions)
    ensures AllReadable(links, sessions) <==> AllReadable(links', sessions)
    ensures UsedMacs(links, sessions) == UsedMacs(links', sessions)
  {
    SettledCarries(links', links, sessions);
    CoveredReading(links, links', sessions);
    CoveredReading(links', links, sessions);
  }

  lemma SettledCarries(links: seq<Link>, settled: seq<Link>, sessions: set<string>)
    requires Covered(links, settled) && Settled(settled, sessions)
    ensures Settled(links, sessions)
  {
    forall i | 0 <= i < |links| && links[i].up && links[i].addresses.Some?
      ensures !(Unreadable(links[i].addresses.value) && Hit(links[i].addresses.value, sessions))
    {
      assert IsAmong(links[i], settled);
      var j :| 0 <= j < |settled| && SameLink(links[i], settled[j]);
      SameContents(links[i].addresses.value, settled[j].addresses.value, sessions);
    }
  }

  lemma CoveredReading(links: seq<Link>, links': seq<Link>, sessions: set<string>)
    requires Covered(links, links') && Settled(links, sessions)
    ensures AllReadable(links', sessions) ==> AllReadable(links, sessions)
    ensures UsedMacs(links, sessions) <= UsedMacs(links', sessions)
  {
    forall i | 0 <= i < |links|
      ensures AllReadable(links', sessions) ==> InUse(links[i], sessions).Ok?
      ensures InUse(links[i], sessions) == Ok(true) ==> links[i].mac in UsedMacs(links', sessions)
    {
      assert IsAmong(links[i], links');
      var j :| 0 <= j < |links'| && SameLink(links[i], links'[j]);
      SameUse(links[i], links'[j], sessions);
    }
  }

  lemma SameDeviceMap(nics: seq<Link>, nics': seq<Link>)
    requires Distinct(nics) && Distinct(nics') && SameLinks(nics, nics')
    ensures SameDevices(DeviceMap(nics), DeviceMap(nics'))
  {
    CoveredMap(nics, nics');
    CoveredMap(nics', nics);
  }

  lemma CoveredMap(nics: seq<Link>, nics': seq<Link>)
    requires Distinct(nics) && Distinct(nics') && Covered(nics, nics')
    ensures forall mac <- DeviceMap(nics) ::
      mac in DeviceMap(nics') && SameLink(DeviceMap(nics)[mac], DeviceMap(nics')[mac])
  {
    forall mac <- DeviceMap(nics)
      ensures mac in DeviceMap(nics') && SameLink(DeviceMap(nics)[mac], DeviceMap(nics')[mac])
    {
      DeviceMapHolds(nics, mac);
      DeviceMapHolds(nics', mac);
      var i :| 0 <= i < |nics| && nics[i].mac == mac;
      assert IsAmong(nics[i], nics');
      var j :| 0 <= j < |nics'| && SameLink(nics[i], nics'[j]);
      assert nics'[j].mac == mac;
    }
  }
}
