/** The disk choices shown by the wizard: `DiskOptionsCache` and the entry
    formatting of pkg/console/util.go. */
module DiskOptions {
  import opened Wrappers
  import opened Disks

  /** `widgets.Option`. */
  datatype Choice = Choice(value: string, text: string)

  function GenerateDiskEntry(d: Device): string {
    d.name + " " + d.size
  }

  // ----- sort.Strings

  /** Byte-wise lexicographic order. */
  predicate Leq(a: string, b: string) {
    a == "" || (b != "" && (a[0] < b[0] || (a[0] == b[0] && Leq(a[1..], b[1..]))))
  }

  lemma {:induction false} LeqTotal(a: string, b: string)
    ensures Leq(a, b) || Leq(b, a)
    ensures Leq(a, b) && Leq(b, a) ==> a == b
  {
    if a != "" && b != "" && a[0] == b[0] {
      LeqTotal(a[1..], b[1..]);
      assert a == [a[0]] + a[1..] && b == [b[0]] + b[1..];
    }
  }

  lemma {:induction false} LeqTransitive(a: string, b: string, c: string)
    requires Leq(a, b) && Leq(b, c)
    ensures Leq(a, c)
  {
    if a != "" && a[0] == b[0] == c[0] {
      LeqTransitive(a[1..], b[1..], c[1..]);
    }
  }

  ghost predicate Sorted(s: seq<string>) {
    forall i, j :: 0 <= i < j < |s| ==> Leq(s[i], s[j])
  }

  function Insert(x: string, s: seq<string>): seq<string> {
    if s == [] then [x]
    else if Leq(x, s[0]) then [x] + s
    else [s[0]] + Insert(x, s[1..])
  }

  function Sort(s: seq<string>): seq<string> {
    if s == [] then [] else Insert(s[0], Sort(s[1..]))
  }

  lemma {:induction false} InsertKeeps(x: string, s: seq<string>)
    requires Sorted(s)
    ensures Sorted(Insert(x, s)) && multiset(Insert(x, s)) == multiset{x} + multiset(s)
  {
    if s == [] {
    } else if Leq(x, s[0]) {
      forall j | 0 <= j < |s|
        ensures Leq(x, s[j])
      {
        if j > 0 {
          LeqTransitive(x, s[0], s[j]);
        }
      }
    } else {
      LeqTotal(x, s[0]);
      InsertKeeps(x, s[1..]);
      assert s == [s[0]] + s[1..];
      var rest := Insert(x, s[1..]);
      forall j | 0 <= j < |rest|
        ensures Leq(s[0], rest[j])
      {
        assert rest[j] in multiset(rest);
        if rest[j] != x {
          assert rest[j] in s[1..];
        }
      }
    }
  }

  lemma {:induction false} SortSorts(s: seq<string>)
    ensures Sorted(Sort(s)) && multiset(Sort(s)) == multiset(s)
  {
    if s != [] {
      SortSorts(s[1..]);
      InsertKeeps(s[0], Sort(s[1..]));
      assert s == [s[0]] + s[1..];
    }
  }

  ghost predicate Subsequence<T>(a: seq<T>, b: seq<T>) {
    if a == [] then true
    else if b == [] then false
    else (a[0] == b[0] && Subsequence(a[1..], b[1..])) || Subsequence(a, b[1..])
  }

  lemma TailOf(s: seq<string>)
    requires s != []
    ensures s[0] in multiset(s) && multiset(s) == multiset{s[0]} + multiset(s[1..])
    ensures Sorted(s) ==> Sorted(s[1..])
  {
    assert s == [s[0]] + s[1..];
  }

  lemma FirstIsLeast(s: seq<string>, x: string)
    requires s != [] && Sorted(s) && x in multiset(s)
    ensures Leq(s[0], x)
  {
    var i :| 0 <= i < |s| && s[i] == x;
    LeqTotal(x, x);
  }

  lemma FirstIsNotInPart(a: seq<string>, b: seq<string>)
    requires a != [] && b != [] && Sorted(a) && Sorted(b) && a[0] != b[0] && a[0] in multiset(b)
    ensures b[0] !in multiset(a)
  {
    FirstIsLeast(b, a[0]);
    if b[0] in multiset(a) {
      FirstIsLeast(a, b[0]);
      LeqTotal(a[0], b[0]);
    }
  }

  /** A sorted part of a sorted sequence is a subsequence of it. */
  lemma {:induction false} SortedPartIsSubsequence(a: seq<string>, b: seq<string>)
    requires Sorted(a) && Sorted(b) && multiset(a) <= multiset(b)
    ensures Subsequence(a, b)
  {
    if a != [] {
      TailOf(a);
      assert b != [];
      TailOf(b);
      if a[0] == b[0] {
        PartOfTails(a[0], multiset(a[1..]), multiset(b[1..]));
        SortedPartIsSubsequence(a[1..], b[1..]);
      } else {
        FirstIsNotInPart(a, b);
        PartWithout(b[0], multiset(a), multiset(b[1..]));
        SortedPartIsSubsequence(a, b[1..]);
      }
    }
  }

  lemma PartOfTails(x: string, a: multiset<string>, b: multiset<string>)
    requires multiset{x} + a <= multiset{x} + b
    ensures a <= b
  {
    forall y
      ensures a[y] <= b[y]
    {
      assert (multiset{x} + a)[y] <= (multiset{x} + b)[y];
    }
  }

  lemma PartWithout(x: string, a: multiset<string>, b: multiset<string>)
    requires a <= multiset{x} + b && x !in a
    ensures a <= b
  {
    forall y
      ensures a[y] <= b[y]
    {
      assert a[y] <= (multiset{x} + b)[y];
    }
  }

  /** So a sort does not depend on the order of what it sorts. */
  lemma {:induction false} SortIsCanonical(a: seq<string>, b: seq<string>)
    requires Sorted(a) && Sorted(b) && multiset(a) == multiset(b)
    ensures a == b
  {
    assert |a| == |multiset(a)| == |b|;
    if a != [] {
      TailOf(a);
      TailOf(b);
      if a[0] != b[0] {
        FirstIsNotInPart(a, b);
      }
      PartOfTails(a[0], multiset(a[1..]), multiset(b[1..]));
      PartOfTails(a[0], multiset(b[1..]), multiset(a[1..]));
      SortIsCanonical(a[1..], b[1..]);
      assert a == [a[0]] + a[1..] && b == [b[0]] + b[1..];
    }
  }

  // ----- The entries of a device map

  /** `order` visits every key once, as a Go `range` over a map does. */
  ghost predicate IsVisit(order: seq<string>, keys: set<string>) {
    && (forall i, j :: 0 <= i < j < |order| ==> order[i] != order[j])
    && (forall k :: k in order <==> k in keys)
  }

  predicate Shown(d: Device, cosOnly: bool) {
    !cosOnly || DeviceContainsCosPartition(d)
  }

  /** The printed entries of the devices at `order`, all or only the ones with a
      COS partition. */
  function Entries(order: seq<string>, m: map<string, Device>, cosOnly: bool): seq<string>
    requires forall k <- order :: k in m
  {
    if order == [] then []
    else
      var d := m[order[|order| - 1]];
      Entries(order[..|order| - 1], m, cosOnly) + (if Shown(d, cosOnly) then [GenerateDiskEntry(d)] else [])
  }

  lemma {:induction false} EntriesWithout(order: seq<string>, i: nat, m: map<string, Device>, cosOnly: bool)
    requires i < |order| && forall k <- order :: k in m
    ensures forall k <- order[..i] + order[i + 1..] :: k in m
    ensures var d := m[order[i]];
      multiset(Entries(order, m, cosOnly))
        == multiset(Entries(order[..i] + order[i + 1..], m, cosOnly))
           + (if Shown(d, cosOnly) then multiset{GenerateDiskEntry(d)} else multiset{})
  {
    var n := |order| - 1;
    var init, k := order[..n], order[n];
    assert order == init + [k];
    if i == n {
      assert order[..i] + order[i + 1..] == init;
    } else {
      var shorter := init[..i] + init[i + 1..];
      assert order[..i] + order[i + 1..] == shorter + [k];
      EntriesWithout(init, i, m, cosOnly);
      EntriesSnoc(shorter, k, m, cosOnly);
      EntriesSnoc(init, k, m, cosOnly);
    }
  }

  lemma EntriesSnoc(order: seq<string>, k: string, m: map<string, Device>, cosOnly: bool)
    requires k in m && forall k <- order :: k in m
    ensures Entries(order + [k], m, cosOnly)
      == Entries(order, m, cosOnly) + (if Shown(m[k], cosOnly) then [GenerateDiskEntry(m[k])] else [])
  {
    assert (order + [k])[..|order|] == order;
  }

  lemma {:induction false} VisitsAgree(one: seq<string>, other: seq<string>, keys: set<string>,
                                       m: map<string, Device>, cosOnly: bool)
    requires IsVisit(one, keys) && IsVisit(other, keys) && keys <= m.Keys
    ensures multiset(Entries(one, m, cosOnly)) == multiset(Entries(other, m, cosOnly))
    decreases |one|
  {
    assert other != [] ==> other[0] in keys;
    if one != [] {
      var n := |one| - 1;
      var k := one[n];
      assert k in other;
      var i :| 0 <= i < |other| && other[i] == k;
      EntriesWithout(one, n, m, cosOnly);
      EntriesWithout(other, i, m, cosOnly);
      assert one[..n] + one[n + 1..] == one[..n];
      VisitWithout(one, n, keys);
      VisitWithout(other, i, keys);
      VisitsAgree(one[..n], other[..i] + other[i + 1..], keys - {k}, m, cosOnly);
    }
  }

  lemma VisitWithout(order: seq<string>, i: nat, keys: set<string>)
    requires IsVisit(order, keys) && i < |order|
    ensures IsVisit(order[..i] + order[i + 1..], keys - {order[i]})
  {
    var shorter := order[..i] + order[i + 1..];
    forall k | k in keys - {order[i]}
      ensures k in shorter
    {
      var j :| 0 <= j < |order| && order[j] == k;
      assert k == if j < i then shorter[j] else shorter[j - 1];
    }
  }

  // ----- generateDiskWidgetOptions

  function FirstBlank(line: string): (i: Option<nat>)
    ensures i.Some? ==> i.value < |line| && line[i.value] == ' ' && forall j :: 0 <= j < i.value ==> line[j] != ' '
    ensures i.None? ==> forall j :: 0 <= j < |line| ==> line[j] != ' '
  {
    if line == "" then None
    else if line[0] == ' ' then Some(0)
    else match FirstBlank(line[1..])
      case None => None
      case Some(i) => Some(i + 1)
  }

  /** The value is the part before the first blank; a line without a blank gives
      no choice. */
  function Choices(lines: seq<string>): seq<Choice> {
    if lines == [] then []
    else match FirstBlank(lines[0])
      case None => Choices(lines[1..])
      case Some(i) => [Choice("/dev/" + lines[0][..i], lines[0])] + Choices(lines[1..])
  }

  /** The device path is recovered from the printed entry if and only if the
      name holds no blank. */
  lemma NameRecovered(d: Device)
    ensures Choices([GenerateDiskEntry(d)]) == [Choice("/dev/" + d.name, GenerateDiskEntry(d))]
      <==> forall j :: 0 <= j < |d.name| ==> d.name[j] != ' '
  {
    var line := GenerateDiskEntry(d);
    assert line[|d.name|] == ' ' && line[..|d.name|] == d.name;
    assert FirstBlank(line).Some?;
    var i := FirstBlank(line).value;
    assert Choices([line]) == [Choice("/dev/" + line[..i], line)];
    assert |"/dev/" + line[..i]| == 5 + i && |"/dev/" + d.name| == 5 + |d.name|;
    forall j | 0 <= j < |d.name|
      ensures d.name[j] == line[j]
    {
    }
  }

  lemma {:induction false} ChoicesOfSubsequence(a: seq<string>, b: seq<string>)
    requires Subsequence(a, b)
    ensures Subsequence(Choices(a), Choices(b))
    decreases |b|
  {
    if a != [] {
      if a[0] == b[0] && Subsequence(a[1..], b[1..]) {
        ChoicesOfSubsequence(a[1..], b[1..]);
        SubsequenceCons(Choices(a[1..]), Choices(b[1..]), FirstBlank(b[0]), b[0]);
      } else {
        ChoicesOfSubsequence(a, b[1..]);
        if FirstBlank(b[0]).Some? {
          assert Choices(b)[1..] == Choices(b[1..]);
        }
      }
    }
  }

  lemma SubsequenceCons(a: seq<Choice>, b: seq<Choice>, blank: Option<nat>, line: string)
    requires Subsequence(a, b) && (blank.Some? ==> blank.value <= |line|)
    ensures blank.Some? ==>
      var c := Choice("/dev/" + line[..blank.value], line);
      Subsequence([c] + a, [c] + b)
  {
    if blank.Some? {
      var c := Choice("/dev/" + line[..blank.value], line);
      assert ([c] + a)[1..] == a && ([c] + b)[1..] == b;
    }
  }

  // ----- The cache

  /** `all` and `installed` are what a refresh may compute from the devices, for
      some order of visiting the maps. */
  ghost predicate Refreshed(disks: seq<Device>, all: seq<Choice>, installed: seq<Choice>) {
    exists m: map<string, Device>, order: seq<string> ::
      && RekeyedByName(Dedup(disks), m) && IsVisit(order, m.Keys)
      && all == Choices(Sort(Entries(order, m, false)))
      && installed == Choices(Sort(Entries(order, m, true)))
  }

  lemma VisitedEntriesAgree(one: seq<string>, other: seq<string>, m: map<string, Device>, cosOnly: bool)
    requires IsVisit(one, m.Keys) && IsVisit(other, m.Keys)
    ensures Sort(Entries(one, m, cosOnly)) == Sort(Entries(other, m, cosOnly))
  {
    VisitsAgree(one, other, m.Keys, m, cosOnly);
    SortSorts(Entries(one, m, cosOnly));
    SortSorts(Entries(other, m, cosOnly));
    SortIsCanonical(Sort(Entries(one, m, cosOnly)), Sort(Entries(other, m, cosOnly)));
  }

  /** The choices do not depend on the order in which Go visits its maps. */
  lemma RefreshIsDeterministic(disks: seq<Device>, all: seq<Choice>, installed: seq<Choice>,
                               all': seq<Choice>, installed': seq<Choice>)
    requires DistinctNames(disks)
    requires Refreshed(disks, all, installed) && Refreshed(disks, all', installed')
    ensures all == all' && installed == installed'
  {
    var m: map<string, Device>, order: seq<string> :|
      && RekeyedByName(Dedup(disks), m) && IsVisit(order, m.Keys)
      && all == Choices(Sort(Entries(order, m, false)))
      && installed == Choices(Sort(Entries(order, m, true)));
    var m': map<string, Device>, order': seq<string> :|
      && RekeyedByName(Dedup(disks), m') && IsVisit(order', m'.Keys)
      && all' == Choices(Sort(Entries(order', m', false)))
      && installed' == Choices(Sort(Entries(order', m', true)));
    OrderDoesNotMatter(disks, m, m');
    VisitedEntriesAgree(order, order', m, false);
    VisitedEntriesAgree(order, order', m, true);
  }

  lemma {:induction false} CosEntriesArePart(order: seq<string>, m: map<string, Device>)
    requires forall k <- order :: k in m
    ensures multiset(Entries(order, m, true)) <= multiset(Entries(order, m, false))
  {
    if order != [] {
      CosEntriesArePart(order[..|order| - 1], m);
    }
  }

  /** The disks with an installation are listed in the order of the whole list. */
  lemma InstalledIsSubsequence(disks: seq<Device>, all: seq<Choice>, installed: seq<Choice>)
    requires Refreshed(disks, all, installed)
    ensures Subsequence(installed, all)
  {
    var m: map<string, Device>, order: seq<string> :|
      && RekeyedByName(Dedup(disks), m) && IsVisit(order, m.Keys)
      && all == Choices(Sort(Entries(order, m, false)))
      && installed == Choices(Sort(Entries(order, m, true)));
    CosEntriesArePart(order, m);
    SortSorts(Entries(order, m, false));
    SortSorts(Entries(order, m, true));
    SortedPartIsSubsequence(Sort(Entries(order, m, true)), Sort(Entries(order, m, false)));
    ChoicesOfSubsequence(Sort(Entries(order, m, true)), Sort(Entries(order, m, false)));
  }

  /** The choices other than those two devices. */
  function Without(choices: seq<Choice>, device: string, dataDisk: string): seq<Choice> {
    if choices == [] then []
    else
      var before := Without(choices[..|choices| - 1], device, dataDisk);
      var c := choices[|choices| - 1];
      if c.value != device && c.value != dataDisk then before + [c] else before
  }

  function UseInstallationDisk(c: Choice): Choice {
    Choice(c.value, "Use the installation disk (" + c.text + ")")
  }

  /** Outcome of `getDataDiskOptions`: indexing an empty list panics. */
  datatype DataDiskChoices = Panic | Offered(choices: seq<Choice>)

  /** `i` is the first choice with this value. */
  ghost predicate FirstChoice(choices: seq<Choice>, value: string, i: nat) {
    i < |choices| && choices[i].value == value && forall j :: 0 <= j < i ==> choices[j].value != value
  }

  /** The loop of `refresh` over the unique disks, in any order. */
  method CollectEntries(resultMap: map<string, Device>)
    returns (disks: seq<string>, hvstInstalledDisks: seq<string>, ghost order: seq<string>)
    ensures IsVisit(order, resultMap.Keys)
    ensures disks == Entries(order, resultMap, false) && hvstInstalledDisks == Entries(order, resultMap, true)
  {
    disks, hvstInstalledDisks, order := [], [], [];
    var left := resultMap.Keys;
    while left != {}
      invariant left <= resultMap.Keys && IsVisit(order, resultMap.Keys - left)
      invariant disks == Entries(order, resultMap, false)
      invariant hvstInstalledDisks == Entries(order, resultMap, true)
      decreases |left|
    {
      var k :| k in left;
      var device := resultMap[k];
      EntriesSnoc(order, k, resultMap, false);
      EntriesSnoc(order, k, resultMap, true);
      disks := disks + [GenerateDiskEntry(device)];
      if DeviceContainsCosPartition(device) {
        hvstInstalledDisks := hvstInstalledDisks + [GenerateDiskEntry(device)];
      }
      order, left := order + [k], left - {k};
    }
  }

  method ArrayOf(choices: seq<Choice>) returns (a: array<Choice>)
    ensures fresh(a) && a[..] == choices
  {
    a := new Choice[|choices|](i requires 0 <= i < |choices| => choices[i]);
  }

  /** `append(a[:i], a[i+1:]...)` in place; the last element stays behind. */
  method CloseGap(a: array<Choice>, i: nat)
    requires i < a.Length
    modifies a
    ensures a[..a.Length - 1] == old(a[..i]) + old(a[i + 1..])
  {
    ghost var was := a[..];
    var k := i;
    while k + 1 < a.Length
      invariant i <= k < a.Length
      invariant a[..k] == was[..i] + was[i + 1..k + 1]
      invariant a[k + 1..] == was[k + 1..]
    {
      assert a[k + 1] == a[k + 1..][0];
      a[k] := a[k + 1];
      k := k + 1;
    }
    assert was[i + 1..k + 1] == was[i + 1..];
  }

  class DiskOptionsCache {
    var diskOptions: array<Choice>
    var hvstInstalledDiskOptions: array<Choice>

    constructor ()
      ensures diskOptions[..] == [] && hvstInstalledDiskOptions[..] == []
    {
      diskOptions := new Choice[0];
      hvstInstalledDiskOptions := new Choice[0];
    }

    /** None stands for a failing `lsblk` or unreadable output. */
    method Refresh(output: Option<seq<Device>>) returns (ok: bool)
      modifies this
      ensures ok <==> output.Some?
      ensures ok ==> Refreshed(output.value, diskOptions[..], hvstInstalledDiskOptions[..])
      ensures ok ==> fresh(diskOptions) && fresh(hvstInstalledDiskOptions)
      ensures !ok ==> diskOptions == old(diskOptions) && hvstInstalledDiskOptions == old(hvstInstalledDiskOptions)
    {
      if output.None? {
        return false;
      }
      var resultMap := FilterUniqueDisks(output.value);
      var disks, hvstInstalledDisks, order := CollectEntries(resultMap);
      var all := GenerateDiskWidgetOptions(Sort(disks));
      var installed := GenerateDiskWidgetOptions(Sort(hvstInstalledDisks));
      diskOptions := ArrayOf(all);
      hvstInstalledDiskOptions := ArrayOf(installed);
      return true;
    }

    /** The installation disk, relabelled, comes first and the other choices keep
        their order; the cache itself is not touched. */
    method GetDataDiskOptions(deviceForOS: string) returns (r: DataDiskChoices)
      ensures r.Panic? <==> deviceForOS == "" && diskOptions.Length == 0
      ensures deviceForOS == "" && diskOptions.Length > 0 ==>
        r == Offered([UseInstallationDisk(diskOptions[0])] + diskOptions[1..])
      ensures forall i: nat :: deviceForOS != "" && FirstChoice(diskOptions[..], deviceForOS, i) ==>
        r == Offered([UseInstallationDisk(diskOptions[i])] + diskOptions[..i] + diskOptions[i + 1..])
      ensures deviceForOS != "" && (forall c <- diskOptions[..] :: c.value != deviceForOS) ==> r == Offered([])
    {
      var n := diskOptions.Length;
      var diskOpts := ArrayOf(diskOptions[..]);
      if deviceForOS == "" {
        if n == 0 {
          return Panic;
        }
        diskOpts[0] := UseInstallationDisk(diskOpts[0]);
        return Offered(diskOpts[..]);
      }
      for i := 0 to n
        invariant diskOpts[..] == diskOptions[..]
        invariant forall j :: 0 <= j < i ==> diskOptions[j].value != deviceForOS
      {
        if diskOpts[i].value == deviceForOS {
          var osDiskOpt := UseInstallationDisk(diskOpts[i]);
          CloseGap(diskOpts, i);
          assert FirstChoice(diskOptions[..], deviceForOS, i);
          return Offered([osDiskOpt] + diskOpts[..n - 1]);
        }
      }
      return Offered([]);
    }

    /** Disks with an installation that are neither the installation disk nor the
        data disk. */
    method GetWipeDisksOptions(device: string, dataDisk: string) returns (filterDisks: seq<Choice>)
      ensures filterDisks == Without(hvstInstalledDiskOptions[..], device, dataDisk)
    {
      filterDisks := [];
      for i := 0 to hvstInstalledDiskOptions.Length
        invariant filterDisks == Without(hvstInstalledDiskOptions[..i], device, dataDisk)
      {
        assert hvstInstalledDiskOptions[..i + 1][..i] == hvstInstalledDiskOptions[..i];
        var v := hvstInstalledDiskOptions[i];
        if v.value != device && v.value != dataDisk {
          filterDisks := filterDisks + [v];
        }
      }
      assert hvstInstalledDiskOptions[..hvstInstalledDiskOptions.Length] == hvstInstalledDiskOptions[..];
    }
  }

  /** `generateDiskWidgetOptions`. */
  method GenerateDiskWidgetOptions(lines: seq<string>) returns (options: seq<Choice>)
    ensures options == Choices(lines)
  {
    options := [];
    for i := 0 to |lines|
      invariant options + Choices(lines[i..]) == Choices(lines)
    {
      var splits := FirstBlank(lines[i]);
      assert lines[i..][1..] == lines[i + 1..];
      if splits.Some? {
        options := options + [Choice("/dev/" + lines[i][..splits.value], lines[i])];
      }
    }
  }

  lemma {:induction false} SubsequenceTransitive(a: seq<Choice>, b: seq<Choice>, c: seq<Choice>)
    requires Subsequence(a, b) && Subsequence(b, c)
    ensures Subsequence(a, c)
    decreases |b| + |c|
  {
    if a != [] {
      if b[0] == c[0] && Subsequence(b[1..], c[1..]) {
        if a[0] == b[0] && Subsequence(a[1..], b[1..]) {
          SubsequenceTransitive(a[1..], b[1..], c[1..]);
        } else {
          SubsequenceTransitive(a, b[1..], c[1..]);
        }
      } else {
        SubsequenceTransitive(a, b, c[1..]);
      }
    }
  }

  lemma {:induction false} SubsequenceSnoc(a: seq<Choice>, b: seq<Choice>, c: Choice)
    requires Subsequence(a, b)
    ensures Subsequence(a + [c], b + [c]) && Subsequence(a, b + [c])
    decreases |b|
  {
    if b == [] {
      assert (a + [c])[1..] == [] && (b + [c])[1..] == [];
    } else {
      assert (b + [c])[1..] == b[1..] + [c];
      if a != [] && a[0] == b[0] && Subsequence(a[1..], b[1..]) {
        SubsequenceSnoc(a[1..], b[1..], c);
        assert (a + [c])[1..] == a[1..] + [c];
      } else {
        SubsequenceSnoc(a, b[1..], c);
      }
    }
  }

  lemma {:induction false} WithoutIsSubsequence(choices: seq<Choice>, device: string, dataDisk: string)
    ensures Subsequence(Without(choices, device, dataDisk), choices)
    ensures forall c :: c in Without(choices, device, dataDisk) <==>
      c in choices && c.value != device && c.value != dataDisk
  {
    if choices != [] {
      var n := |choices| - 1;
      WithoutIsSubsequence(choices[..n], device, dataDisk);
      SubsequenceSnoc(Without(choices[..n], device, dataDisk), choices[..n], choices[n]);
      assert choices == choices[..n] + [choices[n]];
    }
  }

  /** The disks offered for wiping come in the order of all choices, and are
      exactly the installed ones other than the two chosen devices. */
  lemma WipeChoices(disks: seq<Device>, all: seq<Choice>, installed: seq<Choice>, device: string, dataDisk: string)
    requires Refreshed(disks, all, installed)
    ensures Subsequence(Without(installed, device, dataDisk), all)
    ensures forall c :: c in Without(installed, device, dataDisk) <==>
      c in installed && c.value != device && c.value != dataDisk
  {
    InstalledIsSubsequence(disks, all, installed);
    WithoutIsSubsequence(installed, device, dataDisk);
    SubsequenceTransitive(Without(installed, device, dataDisk), installed, all);
  }
}
