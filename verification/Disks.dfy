/** Which block devices the installer offers: `filterUniqueDisks` and
    `deviceContainsCOSPartition` of pkg/console/util.go, on the decoded `lsblk`
    output. */
module Disks {

  const DISK_TYPE: string := "disk"
  const PARTITION_TYPE: string := "part"
  const MPATH_TYPE: string := "mpath"
  const COS_LABEL: string := "COS_OEM"

  datatype Device = Device(
    name: string, size: string, diskType: string,
    wwn: string, serial: string, fsLabel: string,
    children: seq<Device>)
  {
    predicate IsDisk() {
      diskType == DISK_TYPE
    }

    /** A disk without serial number and without WWN. */
    predicate Anonymous() {
      serial == "" && wwn == ""
    }

    /** What a disk is known by: its identifiers, or else its name. */
    function Keys(): set<string> {
      if !IsDisk() then {}
      else if Anonymous() then {name}
      else Identifiers()
    }

    function Identifiers(): set<string> {
      (if serial != "" then {serial} else {}) + (if wwn != "" then {wwn} else {})
    }
  }

  // ----- filterUniqueDisks

  /** The first loop's map after one more device. */
  function DedupStep(m: map<string, Device>, d: Device): map<string, Device> {
    if !d.IsDisk() then m
    else if d.Anonymous() then m[d.name := d]
    else
      var m := if d.serial != "" && d.serial !in m then m[d.serial := d] else m;
      if d.wwn != "" && d.wwn !in m then m[d.wwn := d] else m
  }

  function Dedup(disks: seq<Device>): map<string, Device> {
    if disks == [] then map[] else DedupStep(Dedup(disks[..|disks| - 1]), disks[|disks| - 1])
  }

  /** `r` holds, under its own name, some entry of `m` for each name in `m`. */
  ghost predicate RekeyedByName(m: map<string, Device>, r: map<string, Device>) {
    && (forall k :: k in m ==> m[k].name in r)
    && (forall name :: name in r ==> r[name].name == name && exists k :: k in m && m[k] == r[name])
  }

  /** Go visits the map in any order; so does the second loop. */
  method FilterUniqueDisks(disks: seq<Device>) returns (resultMap: map<string, Device>)
    ensures RekeyedByName(Dedup(disks), resultMap)
  {
    var dedupMap: map<string, Device> := map[];
    for i := 0 to |disks|
      invariant dedupMap == Dedup(disks[..i])
    {
      assert disks[..i + 1][..i] == disks[..i];
      var disk := disks[i];
      if disk.diskType == DISK_TYPE {
        if disk.wwn == "" && disk.serial == "" {
          dedupMap := dedupMap[disk.name := disk];
          continue;
        }
        if disk.serial != "" {
          if disk.serial !in dedupMap {
            dedupMap := dedupMap[disk.serial := disk];
          }
        }
        if disk.wwn != "" {
          if disk.wwn !in dedupMap {
            dedupMap := dedupMap[disk.wwn := disk];
          }
          continue;
        }
      }
    }
    assert disks[..|disks|] == disks;
    resultMap := map[];
    var left := dedupMap.Keys;
    while left != {}
      invariant left <= dedupMap.Keys
      invariant forall k :: k in dedupMap.Keys - left ==> dedupMap[k].name in resultMap
      invariant forall name :: name in resultMap ==>
        resultMap[name].name == name && exists k :: k in dedupMap && dedupMap[k] == resultMap[name]
      decreases |left|
    {
      var k :| k in left;
      resultMap := resultMap[dedupMap[k].name := dedupMap[k]];
      left := left - {k};
    }
  }

  /** `disks[i]` is the first to carry the key `k`. */
  ghost predicate FirstWith(disks: seq<Device>, k: string, i: nat) {
    i < |disks| && k in disks[i].Keys() && forall j :: 0 <= j < i ==> k !in disks[j].Keys()
  }

  /** A disk is kept when it is the first carrier of one of its keys. For
      separate serial and WWN spaces: the first with its serial or the first with
      its WWN, or without either. */
  ghost predicate Kept(disks: seq<Device>, i: nat) {
    exists k :: FirstWith(disks, k, i)
  }

  ghost predicate DistinctNames(disks: seq<Device>) {
    forall i, j :: 0 <= i < j < |disks| && disks[i].IsDisk() && disks[j].IsDisk() ==> disks[i].name != disks[j].name
  }

  /** No disk without identifiers is named like an identifier of an earlier one. */
  ghost predicate NoNameIsKey(disks: seq<Device>) {
    forall i, j :: 0 <= i < j < |disks| && disks[j].IsDisk() && disks[j].Anonymous() ==>
      disks[j].name !in disks[i].Keys()
  }

  /** The deduplication map sends every key to its first carrier. */
  ghost predicate MapsToFirst(disks: seq<Device>, m: map<string, Device>) {
    && (forall k :: k in m ==> exists i: nat :: FirstWith(disks, k, i) && m[k] == disks[i])
    && (forall i, k :: 0 <= i < |disks| && k in disks[i].Keys() ==> k in m)
  }

  lemma FirstWithSnoc(disks: seq<Device>, d: Device, k: string, i: nat)
    ensures FirstWith(disks, k, i) ==> FirstWith(disks + [d], k, i)
    ensures i < |disks| && FirstWith(disks + [d], k, i) ==> FirstWith(disks, k, i)
  {
    var all := disks + [d];
    assert forall j :: 0 <= j < |disks| ==> all[j] == disks[j];
  }

  lemma FirstWithUnique(disks: seq<Device>, k: string, i: nat, j: nat)
    requires FirstWith(disks, k, i) && FirstWith(disks, k, j)
    ensures i == j
  {
  }

  lemma StepMapsToFirst(disks: seq<Device>, d: Device, m: map<string, Device>)
    requires MapsToFirst(disks, m)
    requires d.IsDisk() && d.Anonymous() ==> d.name !in m
    ensures MapsToFirst(disks + [d], DedupStep(m, d))
  {
    var all, m' := disks + [d], DedupStep(m, d);
    assert forall j :: 0 <= j < |disks| ==> all[j] == disks[j];
    assert all[|disks|] == d;
    forall k | k in m'
      ensures exists i: nat :: FirstWith(all, k, i) && m'[k] == all[i]
    {
      if k in m {
        var i: nat :| FirstWith(disks, k, i) && m[k] == disks[i];
        FirstWithSnoc(disks, d, k, i);
        assert m'[k] == all[i];
      } else {
        assert FirstWith(all, k, |disks|) && m'[k] == all[|disks|];
      }
    }
  }

  lemma {:induction false} DedupMapsToFirst(disks: seq<Device>)
    requires NoNameIsKey(disks)
    ensures MapsToFirst(disks, Dedup(disks))
  {
    if disks != [] {
      var n := |disks| - 1;
      var before, d := disks[..n], disks[n];
      DedupMapsToFirst(before);
      assert forall i :: 0 <= i < n ==> before[i] == disks[i];
      StepMapsToFirst(before, d, Dedup(before));
      assert before + [d] == disks;
    }
  }

  /** A disk without identifiers always ends up under its own name. */
  lemma {:induction false} AnonymousWins(disks: seq<Device>, j: nat)
    requires DistinctNames(disks) && j < |disks| && disks[j].IsDisk() && disks[j].Anonymous()
    ensures disks[j].name in Dedup(disks) && Dedup(disks)[disks[j].name] == disks[j]
  {
    var n := |disks| - 1;
    if j < n {
      AnonymousWins(disks[..n], j);
    }
  }

  /** The map sends every key to its first carrier if and only if no disk without
      identifiers is named like a key of an earlier disk. */
  lemma MapsToFirstExactlyWhen(disks: seq<Device>)
    requires DistinctNames(disks)
    ensures MapsToFirst(disks, Dedup(disks)) <==> NoNameIsKey(disks)
  {
    if NoNameIsKey(disks) {
      DedupMapsToFirst(disks);
    } else {
      var i, j :| 0 <= i < j < |disks| && disks[j].IsDisk() && disks[j].Anonymous() && disks[j].name in disks[i].Keys();
      AnonymousWins(disks, j);
    }
  }

  /** The entry of `r` under `name` is the kept disk `disks[i]` of that name. */
  ghost predicate Offers(disks: seq<Device>, r: map<string, Device>, name: string, i: nat) {
    && i < |disks| && disks[i].IsDisk() && Kept(disks, i)
    && name == disks[i].name && name in r && r[name] == disks[i]
  }

  lemma EntryIsKept(disks: seq<Device>, r: map<string, Device>, name: string) returns (i: nat)
    requires NoNameIsKey(disks) && RekeyedByName(Dedup(disks), r) && name in r
    ensures Offers(disks, r, name, i)
  {
    DedupMapsToFirst(disks);
    var m := Dedup(disks);
    var k :| k in m && m[k] == r[name];
    i :| FirstWith(disks, k, i) && m[k] == disks[i];
  }

  lemma KeptHasEntry(disks: seq<Device>, r: map<string, Device>, i: nat)
    requires NoNameIsKey(disks) && RekeyedByName(Dedup(disks), r) && Kept(disks, i)
    ensures i < |disks| && disks[i].name in r
  {
    DedupMapsToFirst(disks);
    var m := Dedup(disks);
    var k :| FirstWith(disks, k, i);
    assert k in m;
    var j: nat :| FirstWith(disks, k, j) && m[k] == disks[j];
    FirstWithUnique(disks, k, i, j);
  }

  /** With distinct names, a disk is offered if and only if it is kept. */
  lemma OfferedExactlyKept(disks: seq<Device>, r: map<string, Device>, i: nat)
    requires DistinctNames(disks) && NoNameIsKey(disks)
    requires RekeyedByName(Dedup(disks), r)
    requires i < |disks| && disks[i].IsDisk()
    ensures disks[i].name in r <==> Kept(disks, i)
    ensures disks[i].name in r ==> r[disks[i].name] == disks[i]
  {
    if Kept(disks, i) {
      KeptHasEntry(disks, r, i);
    }
    if disks[i].name in r {
      var j := EntryIsKept(disks, r, disks[i].name);
      SameName(disks, i, j);
    }
  }

  lemma SameName(disks: seq<Device>, i: nat, j: nat)
    requires DistinctNames(disks) && i < |disks| && j < |disks| && disks[i].IsDisk() && disks[j].IsDisk()
    requires disks[i].name == disks[j].name
    ensures i == j
  {
  }

  /** Every entry of the deduplication map is a disk of the list. */
  lemma {:induction false} HeldIsDisk(disks: seq<Device>, k: string) returns (i: nat)
    requires k in Dedup(disks)
    ensures i < |disks| && disks[i].IsDisk() && Dedup(disks)[k] == disks[i]
  {
    i := |disks| - 1;
    var before := Dedup(disks[..i]);
    if Dedup(disks)[k] != disks[i] || !disks[i].IsDisk() {
      i := HeldIsDisk(disks[..i], k);
    }
  }

  /** The result is the same for every order in which the map is visited, whenever a
      name determines its disk. */
  lemma OrderDoesNotMatter(disks: seq<Device>, one: map<string, Device>, other: map<string, Device>)
    requires DistinctNames(disks)
    requires RekeyedByName(Dedup(disks), one) && RekeyedByName(Dedup(disks), other)
    ensures one == other
  {
    SameEntries(disks, one, other);
    SameEntries(disks, other, one);
  }

  lemma SameEntries(disks: seq<Device>, one: map<string, Device>, other: map<string, Device>)
    requires DistinctNames(disks)
    requires RekeyedByName(Dedup(disks), one) && RekeyedByName(Dedup(disks), other)
    ensures forall name :: name in one ==> name in other && one[name] == other[name]
  {
    forall name | name in one
      ensures name in other && one[name] == other[name]
    {
      var i := EntryIsDisk(disks, one, name);
      var j := EntryIsDisk(disks, other, name);
      SameName(disks, i, j);
    }
  }

  lemma EntryIsDisk(disks: seq<Device>, r: map<string, Device>, name: string) returns (i: nat)
    requires RekeyedByName(Dedup(disks), r) && name in r
    ensures i < |disks| && disks[i].IsDisk() && disks[i] == r[name] && r[name].name == name
  {
    var k :| k in Dedup(disks) && Dedup(disks)[k] == r[name];
    i := HeldIsDisk(disks, k);
  }

  /** Every identifier keeps a representative: the first disk that carries it. */
  lemma EveryKeyRepresented(disks: seq<Device>, r: map<string, Device>, k: string, i: nat)
    requires DistinctNames(disks) && NoNameIsKey(disks)
    requires RekeyedByName(Dedup(disks), r)
    requires i < |disks| && k in disks[i].Keys()
    ensures exists j: nat :: j <= i && FirstWith(disks, k, j) && disks[j].name in r && r[disks[j].name] == disks[j]
  {
    DedupMapsToFirst(disks);
    assert k in Dedup(disks);
    var j: nat :| FirstWith(disks, k, j);
    assert Kept(disks, j);
    OfferedExactlyKept(disks, r, j);
  }

  /** Names, serial numbers and WWNs never coincide. */
  ghost predicate SeparateKeySpaces(disks: seq<Device>) {
    forall i, j :: 0 <= i < |disks| && 0 <= j < |disks| && disks[i].IsDisk() && disks[j].IsDisk() ==>
      && (disks[i].serial != "" ==> disks[i].serial != disks[j].wwn)
      && disks[i].name !in disks[j].Identifiers()
  }

  /** Then a disk is kept as the code's comments have it: it has no identifier,
      or is the first with its serial number, or is the first with its WWN. */
  lemma KeptInSeparateSpaces(disks: seq<Device>, i: nat)
    requires DistinctNames(disks) && SeparateKeySpaces(disks) && i < |disks| && disks[i].IsDisk()
    ensures NoNameIsKey(disks)
    ensures Kept(disks, i) <==>
      || disks[i].Anonymous()
      || (disks[i].serial != "" && forall j :: 0 <= j < i && disks[j].IsDisk() ==> disks[j].serial != disks[i].serial)
      || (disks[i].wwn != "" && forall j :: 0 <= j < i && disks[j].IsDisk() ==> disks[j].wwn != disks[i].wwn)
  {
    var d := disks[i];
    if d.Anonymous() {
      assert FirstWith(disks, d.name, i);
    } else {
      if d.serial != "" && forall j :: 0 <= j < i && disks[j].IsDisk() ==> disks[j].serial != d.serial {
        assert FirstWith(disks, d.serial, i);
      }
      if d.wwn != "" && forall j :: 0 <= j < i && disks[j].IsDisk() ==> disks[j].wwn != d.wwn {
        assert FirstWith(disks, d.wwn, i);
      }
      if Kept(disks, i) {
        var k :| FirstWith(disks, k, i);
        assert k == d.serial || k == d.wwn;
      }
    }
  }

  /** When the condition fails a disk may be lost: one whose serial number is the
      name of a later disk without identifiers is not offered at all. */
  lemma NameCollisionDropsDisk(disks: seq<Device>, r: map<string, Device>)
    requires |disks| == 2 && disks[0].IsDisk() && disks[1].IsDisk()
    requires disks[0].serial == disks[1].name != "" && disks[0].wwn == "" && disks[1].Anonymous()
    requires disks[0].name != disks[1].name
    requires RekeyedByName(Dedup(disks), r)
    ensures disks[0].name !in r && Kept(disks, 0)
  {
    assert disks[..1][..0] == [] && disks[..1][0] == disks[0];
    assert Dedup(disks[..1]) == map[disks[0].serial := disks[0]];
    assert Dedup(disks) == map[disks[1].name := disks[1]];
    assert FirstWith(disks, disks[0].serial, 0);
  }

  // ----- What is offered, whatever the names and keys

  /** `disks[i]` is the first disk with identifiers to carry `k`. */
  ghost predicate FirstCarrier(disks: seq<Device>, k: string, i: nat) {
    && i < |disks| && Carries(disks[i], k)
    && forall j :: 0 <= j < i ==> !Carries(disks[j], k)
  }

  predicate Carries(d: Device, k: string) {
    d.IsDisk() && k in d.Identifiers()
  }

  /** Some disk without identifiers has this name. */
  ghost predicate NamesAnonymous(disks: seq<Device>, k: string) {
    exists i :: 0 <= i < |disks| && disks[i].IsDisk() && disks[i].Anonymous() && disks[i].name == k
  }

  /** The entry for a key: the disk without identifiers of that name if there is one,
      else the first disk that carries the key. */
  ghost predicate IsEntry(disks: seq<Device>, k: string, i: nat) {
    if NamesAnonymous(disks, k) then i < |disks| && disks[i].IsDisk() && disks[i].Anonymous() && disks[i].name == k
    else FirstCarrier(disks, k, i)
  }

  lemma {:induction false} HeldIsKey(disks: seq<Device>, k: string) returns (i: nat)
    requires k in Dedup(disks)
    ensures i < |disks| && k in disks[i].Keys()
  {
    i := |disks| - 1;
    if k !in disks[i].Keys() {
      i := HeldIsKey(disks[..i], k);
    }
  }

  lemma FirstOfCarriers(disks: seq<Device>, k: string, j: nat) returns (i: nat)
    requires j < |disks| && Carries(disks[j], k)
    ensures FirstCarrier(disks, k, i)
  {
    i := j;
    if l :| 0 <= l < j && Carries(disks[l], k) {
      i := FirstOfCarriers(disks, k, l);
    }
  }

  /** Every key of the map has its entry. */
  lemma HeldHasEntry(disks: seq<Device>, k: string) returns (i: nat)
    requires k in Dedup(disks)
    ensures IsEntry(disks, k, i)
  {
    if NamesAnonymous(disks, k) {
      i :| i < |disks| && disks[i].IsDisk() && disks[i].Anonymous() && disks[i].name == k;
    } else {
      var j := HeldIsKey(disks, k);
      i := FirstOfCarriers(disks, k, j);
    }
  }

  lemma {:induction false} FirstCarrierIsHeld(disks: seq<Device>, k: string, i: nat)
    requires FirstCarrier(disks, k, i) && !NamesAnonymous(disks, k)
    ensures k in Dedup(disks) && Dedup(disks)[k] == disks[i]
  {
    var n := |disks| - 1;
    var before := disks[..n];
    assert forall j :: 0 <= j < n ==> before[j] == disks[j];
    if i < n {
      FirstCarrierIsHeld(before, k, i);
    } else if k in Dedup(before) {
      var j := HeldIsKey(before, k);
      assert false;
    }
  }

  /** The map holds every key's entry and nothing else. */
  lemma DedupHolds(disks: seq<Device>, k: string, i: nat)
    requires DistinctNames(disks) && IsEntry(disks, k, i)
    ensures k in Dedup(disks) && Dedup(disks)[k] == disks[i]
  {
    if NamesAnonymous(disks, k) {
      AnonymousWins(disks, i);
    } else {
      FirstCarrierIsHeld(disks, k, i);
    }
  }

  /** With distinct names alone: a disk is offered if and only if it has no identifier,
      or is the first to carry one of its identifiers and no disk without identifiers
      has that identifier as its name. */
  lemma OfferedExactlyWhen(disks: seq<Device>, r: map<string, Device>, i: nat)
    requires DistinctNames(disks) && RekeyedByName(Dedup(disks), r)
    requires i < |disks| && disks[i].IsDisk()
    ensures disks[i].name in r <==>
      disks[i].Anonymous() || exists k :: FirstCarrier(disks, k, i) && !NamesAnonymous(disks, k)
    ensures disks[i].name in r ==> r[disks[i].name] == disks[i]
  {
    if disks[i].name in r {
      EntryOfName(disks, r, i);
    }
    if disks[i].Anonymous() {
      DedupHolds(disks, disks[i].name, i);
    } else if k :| FirstCarrier(disks, k, i) && !NamesAnonymous(disks, k) {
      DedupHolds(disks, k, i);
    }
  }

  lemma EntryOfName(disks: seq<Device>, r: map<string, Device>, i: nat)
    requires DistinctNames(disks) && RekeyedByName(Dedup(disks), r)
    requires i < |disks| && disks[i].IsDisk() && disks[i].name in r
    ensures r[disks[i].name] == disks[i]
    ensures disks[i].Anonymous() || exists k :: FirstCarrier(disks, k, i) && !NamesAnonymous(disks, k)
  {
    var k :| k in Dedup(disks) && Dedup(disks)[k] == r[disks[i].name];
    var j := HeldHasEntry(disks, k);
    DedupHolds(disks, k, j);
    SameName(disks, i, j);
  }

  // ----- deviceContainsCOSPartition

  predicate IsCosPartition(d: Device) {
    d.diskType == PARTITION_TYPE && d.fsLabel == COS_LABEL
  }

  /** The loop over the children from the `i`-th on; a multipath child decides
      the answer alone. */
  function ContainsCosFrom(disk: Device, i: nat): bool
    decreases disk, |disk.children| - i
  {
    if i >= |disk.children| then false
    else if disk.children[i].diskType == MPATH_TYPE then ContainsCosFrom(disk.children[i], 0)
    else IsCosPartition(disk.children[i]) || ContainsCosFrom(disk, i + 1)
  }

  function DeviceContainsCosPartition(disk: Device): bool {
    ContainsCosFrom(disk, 0)
  }

  /** The `i`-th child is a COS partition, or leads to one through multipath
      devices. */
  ghost predicate LeadsToCos(disk: Device, i: nat) {
    && i < |disk.children|
    && (if disk.children[i].diskType == MPATH_TYPE
        then exists k: nat :: LeadsToCos(disk.children[i], k)
        else IsCosPartition(disk.children[i]))
  }

  /** The same, with no multipath device among the earlier siblings on the way. */
  ghost predicate Reached(disk: Device, i: nat) {
    && i < |disk.children|
    && (forall j :: 0 <= j < i ==> disk.children[j].diskType != MPATH_TYPE)
    && (if disk.children[i].diskType == MPATH_TYPE
        then exists k: nat :: Reached(disk.children[i], k)
        else IsCosPartition(disk.children[i]))
  }

  lemma {:induction false} ReportedIsReached(disk: Device, i: nat) returns (k: nat)
    requires ContainsCosFrom(disk, i)
    requires forall j :: 0 <= j < i && j < |disk.children| ==> disk.children[j].diskType != MPATH_TYPE
    ensures Reached(disk, k)
    decreases disk, |disk.children| - i
  {
    if disk.children[i].diskType == MPATH_TYPE {
      var below := ReportedIsReached(disk.children[i], 0);
      k := i;
    } else if IsCosPartition(disk.children[i]) {
      k := i;
    } else {
      k := ReportedIsReached(disk, i + 1);
    }
  }

  lemma {:induction false} ReachedIsReported(disk: Device, i: nat, k: nat)
    requires i <= k && Reached(disk, k)
    ensures ContainsCosFrom(disk, i)
    decreases disk, |disk.children| - i
  {
    if i < k {
      assert disk.children[i].diskType != MPATH_TYPE;
      ReachedIsReported(disk, i + 1, k);
    } else if disk.children[i].diskType == MPATH_TYPE {
      var below: nat :| Reached(disk.children[i], below);
      ReachedIsReported(disk.children[i], 0, below);
    }
  }

  /** A COS partition is reported if and only if one can be reached without
      passing an earlier multipath sibling at any level; so nothing is reported
      that is not there. */
  lemma ReportedExactlyWhenReached(disk: Device)
    ensures DeviceContainsCosPartition(disk) ==> exists k: nat :: Reached(disk, k)
    ensures (exists k: nat :: Reached(disk, k)) ==> DeviceContainsCosPartition(disk)
    ensures DeviceContainsCosPartition(disk) ==> exists k: nat :: LeadsToCos(disk, k)
  {
    if DeviceContainsCosPartition(disk) {
      var k := ReportedIsReached(disk, 0);
      ReachedIsThere(disk, k);
    }
    forall k: nat | Reached(disk, k)
      ensures DeviceContainsCosPartition(disk)
    {
      ReachedIsReported(disk, 0, k);
    }
  }

  lemma {:induction false} ReachedIsThere(disk: Device, i: nat)
    requires Reached(disk, i)
    ensures LeadsToCos(disk, i)
    decreases disk
  {
    if disk.children[i].diskType == MPATH_TYPE {
      var k: nat :| Reached(disk.children[i], k);
      ReachedIsThere(disk.children[i], k);
    }
  }

  /** But it misses a COS partition that stands after an empty multipath device. */
  lemma PartitionAfterMultipathIsMissed(disk: Device)
    requires |disk.children| == 2
    requires disk.children[0].diskType == MPATH_TYPE && disk.children[0].children == []
    requires IsCosPartition(disk.children[1])
    ensures LeadsToCos(disk, 1) && !DeviceContainsCosPartition(disk)
  {
    assert !ContainsCosFrom(disk.children[0], 0);
    assert disk.children[1].diskType != MPATH_TYPE;
  }
}
