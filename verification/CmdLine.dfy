/** Kernel parameters folded into a nested map: `ParseCmdLine` in
    pkg/util/cmdline.go over `GetValue` and `PutValue` of
    vendor/github.com/rancher/mapper/values/values.go, from the list of items its
    pattern finds. */
module CmdLine {
  import opened Wrappers
  import opened Strings
  import IfDetails

  datatype Value =
    | Str(text: string)
    | List(texts: seq<string>)
    | Node(tree: Tree)
    | Interfaces(interfaces: seq<IfDetails.Interface>)
    | Number(n: nat)

  type Tree = map<string, Value>

  type Path = seq<string>

  // ----- Nested maps

  function GetValue(data: Tree, keys: Path): Option<Value>
    decreases |keys|
  {
    if keys == [] || keys[0] !in data then None
    else if |keys| == 1 then Some(data[keys[0]])
    else match data[keys[0]]
      case Node(tree) => GetValue(tree, keys[1..])
      case _ => None
  }

  /** Missing maps on the way are made; anything but a map on the way ends the put
      without effect. */
  function PutValue(data: Tree, val: Value, keys: Path): Tree
    decreases |keys|
  {
    if keys == [] then data
    else if |keys| == 1 then data[keys[0] := val]
    else if keys[0] !in data then data[keys[0] := Node(PutValue(map[], val, keys[1..]))]
    else match data[keys[0]]
      case Node(tree) => data[keys[0] := Node(PutValue(tree, val, keys[1..]))]
      case _ => data
  }

  /** Nothing but maps lies on the way to a path. */
  predicate Clear(data: Tree, keys: Path)
    decreases |keys|
  {
    |keys| <= 1 || keys[0] !in data || (data[keys[0]].Node? && Clear(data[keys[0]].tree, keys[1..]))
  }

  predicate ProperPrefix(p: Path, q: Path) {
    |p| < |q| && q[..|p|] == p
  }

  predicate Incomparable(p: Path, q: Path) {
    p != q && !ProperPrefix(p, q) && !ProperPrefix(q, p)
  }

  lemma TailsCompare(p: Path, q: Path)
    requires p != [] && q != [] && p[0] == q[0]
    ensures ProperPrefix(p, q) <==> ProperPrefix(p[1..], q[1..])
    ensures p == q <==> p[1..] == q[1..]
  {
    if ProperPrefix(p, q) {
      assert q[1..][..|p[1..]|] == q[..|p|][1..];
    }
    if ProperPrefix(p[1..], q[1..]) {
      assert q[..|p|] == [q[0]] + q[1..][..|p[1..]|];
      assert p == [p[0]] + p[1..];
    }
    assert p == [p[0]] + p[1..] && q == [q[0]] + q[1..];
  }

  lemma {:induction false} GetPutSame(data: Tree, val: Value, keys: Path)
    requires keys != [] && Clear(data, keys)
    ensures GetValue(PutValue(data, val, keys), keys) == Some(val)
    decreases |keys|
  {
    if |keys| > 1 {
      if keys[0] in data {
        GetPutSame(data[keys[0]].tree, val, keys[1..]);
      } else {
        GetPutSame(map[], val, keys[1..]);
      }
    }
  }

  /** No put disturbs a path that neither extends nor is extended by its own. */
  lemma {:induction false} GetPutOther(data: Tree, val: Value, p: Path, q: Path)
    requires p != [] && q != [] && Incomparable(p, q)
    ensures GetValue(PutValue(data, val, p), q) == GetValue(data, q)
    decreases |p|
  {
    if p[0] == q[0] {
      TailsCompare(p, q);
      TailsCompare(q, p);
      assert |p| > 1 && |q| > 1;
      if p[0] in data {
        if data[p[0]].Node? {
          GetPutOther(data[p[0]].tree, val, p[1..], q[1..]);
        }
      } else {
        GetPutOther(map[], val, p[1..], q[1..]);
      }
    }
  }

  lemma {:induction false} GetPutAbove(data: Tree, val: Value, p: Path, q: Path)
    requires q != [] && ProperPrefix(q, p) && Clear(data, p)
    ensures GetValue(PutValue(data, val, p), q).Some? && GetValue(PutValue(data, val, p), q).value.Node?
    decreases |p|
  {
    assert p[0] == p[..|q|][0];
    if |q| > 1 {
      TailsCompare(q, p);
      if p[0] in data {
        GetPutAbove(data[p[0]].tree, val, p[1..], q[1..]);
      } else {
        GetPutAbove(map[], val, p[1..], q[1..]);
      }
    }
  }

  lemma {:induction false} GetPutBelow(data: Tree, val: Value, p: Path, q: Path)
    requires p != [] && ProperPrefix(p, q) && Clear(data, p) && !val.Node?
    ensures GetValue(PutValue(data, val, p), q).None?
    decreases |p|
  {
    assert q[0] == q[..|p|][0];
    if |p| > 1 {
      TailsCompare(p, q);
      if p[0] in data {
        GetPutBelow(data[p[0]].tree, val, p[1..], q[1..]);
      } else {
        GetPutBelow(map[], val, p[1..], q[1..]);
      }
    }
  }

  lemma {:induction false} ClearPut(data: Tree, val: Value, p: Path, q: Path)
    requires p != [] && q != [] && (p == q || Incomparable(p, q)) && Clear(data, q)
    ensures Clear(PutValue(data, val, p), q)
    decreases |p|
  {
    if |q| > 1 && p[0] == q[0] {
      TailsCompare(p, q);
      TailsCompare(q, p);
      assert |p| > 1;
      if p[0] in data {
        ClearPut(data[p[0]].tree, val, p[1..], q[1..]);
      } else {
        ClearPut(map[], val, p[1..], q[1..]);
      }
    }
  }

  lemma {:induction false} GetIsClear(data: Tree, keys: Path)
    requires GetValue(data, keys).Some?
    ensures keys != [] && Clear(data, keys)
    decreases |keys|
  {
    if |keys| > 1 {
      GetIsClear(data[keys[0]].tree, keys[1..]);
    }
  }

  // ----- Items

  function TrimQuotesLeft(s: string): string {
    if s != "" && s[0] == '"' then TrimQuotesLeft(s[1..]) else s
  }

  function TrimQuotesRight(s: string): string {
    if s != "" && s[|s| - 1] == '"' then TrimQuotesRight(s[..|s| - 1]) else s
  }

  /** `strings.Trim(s, "\"")`. */
  function TrimQuotes(s: string): string {
    TrimQuotesRight(TrimQuotesLeft(s))
  }

  /** The position of the first '=', or the length. */
  function EqualsAt(item: string): (i: nat)
    ensures i <= |item|
  {
    if item == "" || item[0] == '=' then 0 else 1 + EqualsAt(item[1..])
  }

  function ValueOf(item: string): string {
    var i := EqualsAt(item);
    if i == |item| then "true" else TrimQuotes(item[i + 1..])
  }

  /** The keys under the prefix; None for an item of another prefix. */
  function KeysOf(item: string, prefix: string): Option<Path> {
    var keys := Split(TrimQuotes(item[..EqualsAt(item)]), '.');
    if prefix == "" then Some(keys)
    else if keys[0] != prefix then None
    else Some(keys[1..])
  }

  /** The value after one more occurrence; None leaves the map as it is. */
  function Combined(existing: Option<Value>, text: string): Option<Value> {
    match existing
    case None => Some(Str(text))
    case Some(Str(first)) => Some(List([first, text]))
    case Some(List(texts)) => Some(List(texts + [text]))
    case Some(_) => None
  }

  function AddItem(data: Tree, prefix: string, item: string): Tree {
    match KeysOf(item, prefix)
    case None => data
    case Some(keys) => Add(data, keys, ValueOf(item))
  }

  function Add(data: Tree, keys: Path, text: string): Tree {
    match Combined(GetValue(data, keys), text)
    case None => data
    case Some(val) => PutValue(data, val, keys)
  }

  function Folded(prefix: string, items: seq<string>): Tree {
    if items == [] then map[]
    else AddItem(Folded(prefix, items[..|items| - 1]), prefix, items[|items| - 1])
  }

  /** The loop of `ParseCmdLine`. */
  method FoldItems(prefix: string, items: seq<string>) returns (data: Tree)
    ensures data == Folded(prefix, items)
  {
    data := map[];
    for i := 0 to |items|
      invariant data == Folded(prefix, items[..i])
    {
      assert items[..i + 1][..i] == items[..i];
      var keys := KeysOf(items[i], prefix);
      if keys.None? {
        continue;
      }
      var value := ValueOf(items[i]);
      var existing := GetValue(data, keys.value);
      match existing
      case Some(Str(v)) => data := PutValue(data, List([v, value]), keys.value);
      case Some(List(v)) => data := PutValue(data, List(v + [value]), keys.value);
      case Some(_) =>
      case None => data := PutValue(data, Str(value), keys.value);
    }
    assert items[..|items|] == items;
  }

  // ----- Items read back

  /** A key as it is meant: no separator and no quote. */
  predicate IsKey(key: string) {
    key != "" && forall i :: 0 <= i < |key| ==> key[i] != '.' && key[i] != '=' && key[i] != '"'
  }

  predicate Unquoted(text: string) {
    text != "" ==> text[0] != '"' && text[|text| - 1] != '"'
  }

  function Quote(quoted: bool): string {
    if quoted then "\"" else ""
  }

  lemma {:induction false} FirstEquals(head: string, tail: string)
    requires forall i :: 0 <= i < |head| ==> head[i] != '='
    ensures EqualsAt(head + ['='] + tail) == |head|
  {
    var item := head + ['='] + tail;
    if head != "" {
      assert item[1..] == head[1..] + ['='] + tail;
      FirstEquals(head[1..], tail);
    }
  }

  lemma TrimQuoted(text: string, quoted: bool)
    requires Unquoted(text)
    ensures TrimQuotes(Quote(quoted) + text + Quote(quoted)) == text
  {
    var s := Quote(quoted) + text + Quote(quoted);
    if quoted {
      assert s[1..] == text + ['"'];
      if text == "" {
        assert s[1..] == ['"'] && ['"'][1..] == "";
        assert TrimQuotesLeft(['"']) == "";
      } else {
        assert TrimQuotesLeft(s) == text + ['"'];
        var t := text + ['"'];
        assert t[..|t| - 1] == text && TrimQuotesRight(text) == text;
      }
    } else {
      assert s == text;
    }
  }

  lemma {:induction false} JoinedKeys(keys: Path)
    requires keys != [] && forall i :: 0 <= i < |keys| ==> IsKey(keys[i])
    ensures var s := Join(keys, '.');
      && s != "" && s[0] != '"' && s[|s| - 1] != '"'
      && (forall i :: 0 <= i < |s| ==> s[i] != '=')
  {
    if |keys| > 1 {
      JoinedKeys(keys[1..]);
    }
  }

  lemma KeysSplit(all: Path)
    requires all != [] && forall i :: 0 <= i < |all| ==> IsKey(all[i])
    ensures Split(Join(all, '.'), '.') == all
  {
    forall part <- all ensures '.' !in part {
      var i :| 0 <= i < |all| && part == all[i];
      assert IsKey(part);
    }
    SplitJoin(all, '.');
  }

  lemma HeadKept(head: string, tail: string)
    requires Unquoted(head) && forall i :: 0 <= i < |head| ==> head[i] != '='
    ensures var item := head + ['='] + tail; TrimQuotes(item[..EqualsAt(item)]) == head
  {
    FirstEquals(head, tail);
    assert (head + ['='] + tail)[..|head|] == head;
    TrimQuoted(head, false);
    assert Quote(false) + head + Quote(false) == head;
  }

  lemma PathReadsBack(all: Path, tail: string)
    requires all != [] && all[0] != "" && forall i :: 0 <= i < |all| ==> IsKey(all[i])
    ensures KeysOf(Join(all, '.') + ['='] + tail, all[0]) == Some(all[1..])
  {
    JoinedKeys(all);
    HeadKept(Join(all, '.'), tail);
    KeysSplit(all);
  }

  lemma ValueReadsBack(head: string, text: string, quoted: bool)
    requires Unquoted(text) && forall i :: 0 <= i < |head| ==> head[i] != '='
    ensures ValueOf(head + ['='] + (Quote(quoted) + text + Quote(quoted))) == text
  {
    var tail := Quote(quoted) + text + Quote(quoted);
    FirstEquals(head, tail);
    TrimQuoted(text, quoted);
    assert (head + ['='] + tail)[|head| + 1..] == tail;
  }

  /** A key path with its prefix and a text, quoted or not, are read back from
      their item. */
  lemma ItemReadsBack(all: Path, text: string, quoted: bool)
    requires all != [] && (forall i :: 0 <= i < |all| ==> IsKey(all[i])) && Unquoted(text)
    ensures var item := Join(all, '.') + ['='] + (Quote(quoted) + text + Quote(quoted));
      KeysOf(item, all[0]) == Some(all[1..]) && ValueOf(item) == text
  {
    assert IsKey(all[0]);
    PathReadsBack(all, Quote(quoted) + text + Quote(quoted));
    JoinedKeys(all);
    ValueReadsBack(Join(all, '.'), text, quoted);
  }

  // ----- The flat reading of the same items

  /** All values given for a path, in command-line order. */
  function Occurrences(prefix: string, items: seq<string>, path: Path): seq<string> {
    if items == [] then []
    else
      var before := Occurrences(prefix, items[..|items| - 1], path);
      var last := items[|items| - 1];
      if KeysOf(last, prefix) == Some(path) then before + [ValueOf(last)] else before
  }

  /** The nested map reads as the values of a path: one text, or a list of two or
      more; without an occurrence no text is there. */
  predicate Reads(data: Tree, path: Path, texts: seq<string>) {
    match GetValue(data, path)
    case None => texts == []
    case Some(Node(_)) => texts == []
    case Some(Str(text)) => texts == [text]
    case Some(List(list)) => |list| >= 2 && texts == list
    case Some(_) => false
  }

  ghost predicate Agrees(prefix: string, items: seq<string>) {
    forall path: Path :: path != [] ==> Reads(Folded(prefix, items), path, Occurrences(prefix, items, path))
  }

  predicate Used(prefix: string, items: seq<string>, path: Path) {
    exists i :: 0 <= i < |items| && KeysOf(items[i], prefix) == Some(path)
  }

  /** No path in use extends another one. */
  ghost predicate PrefixFree(prefix: string, items: seq<string>) {
    forall p: Path, q: Path ::
      p != [] && Used(prefix, items, p) && Used(prefix, items, q) ==> !ProperPrefix(p, q)
  }

  lemma {:induction false} OccursExactlyWhenUsed(prefix: string, items: seq<string>, path: Path)
    ensures Occurrences(prefix, items, path) != [] <==> Used(prefix, items, path)
  {
    if items != [] {
      var n := |items| - 1;
      OccursExactlyWhenUsed(prefix, items[..n], path);
      if Used(prefix, items[..n], path) {
        var i :| 0 <= i < n && KeysOf(items[..n][i], prefix) == Some(path);
        assert KeysOf(items[i], prefix) == Some(path);
      }
    }
  }

  lemma UsedBefore(prefix: string, items: seq<string>, n: nat, path: Path)
    requires n <= |items| && Used(prefix, items[..n], path)
    ensures Used(prefix, items, path)
  {
    var i :| 0 <= i < n && KeysOf(items[..n][i], prefix) == Some(path);
    assert KeysOf(items[i], prefix) == Some(path);
  }

  // ----- Prefix-free items agree

  /** One more occurrence of a path in use, seen from any path. */
  lemma AddReads(data: Tree, used: Path, text: string, path: Path, texts: seq<string>, before: seq<string>)
    requires used != [] && path != [] && Clear(data, used)
    requires Reads(data, used, before) && Reads(data, path, texts)
    requires path == used ==> texts == before
    requires ProperPrefix(path, used) || ProperPrefix(used, path) ==> texts == []
    requires !(GetValue(data, used).Some? && GetValue(data, used).value.Node?)
    ensures Reads(Add(data, used, text), path, if path == used then texts + [text] else texts)
  {
    var val := Combined(GetValue(data, used), text).value;
    if path == used {
      GetPutSame(data, val, used);
    } else if ProperPrefix(path, used) {
      GetPutAbove(data, val, used, path);
    } else if ProperPrefix(used, path) {
      GetPutBelow(data, val, used, path);
    } else {
      GetPutOther(data, val, used, path);
    }
  }

  /** A path in use stays reachable and is never a map. */
  predicate IsLeaf(data: Tree, path: Path) {
    Clear(data, path) && !(GetValue(data, path).Some? && GetValue(data, path).value.Node?)
  }

  lemma LeafStays(data: Tree, used: Path, text: string, path: Path)
    requires path != [] && used != [] && (path == used || Incomparable(used, path))
    requires IsLeaf(data, used) && IsLeaf(data, path)
    ensures IsLeaf(Add(data, used, text), path)
  {
    var combined := Combined(GetValue(data, used), text);
    if combined.Some? {
      ClearPut(data, combined.value, used, path);
      if path == used {
        GetPutSame(data, combined.value, used);
      } else {
        GetPutOther(data, combined.value, used, path);
      }
    }
  }

  lemma LastItemIsUsed(prefix: string, items: seq<string>, n: nat)
    requires 0 < n <= |items|
    ensures items[..n][..n - 1] == items[..n - 1] && items[..n][n - 1] == items[n - 1]
    ensures KeysOf(items[n - 1], prefix).Some? ==> Used(prefix, items, KeysOf(items[n - 1], prefix).value)
  {
  }

  lemma {:induction false} FoldedLeaf(prefix: string, items: seq<string>, n: nat, path: Path)
    requires PrefixFree(prefix, items) && n <= |items| && path != [] && Used(prefix, items, path)
    ensures IsLeaf(Folded(prefix, items[..n]), path)
    decreases n
  {
    if n > 0 {
      FoldedLeaf(prefix, items, n - 1, path);
      LastItemIsUsed(prefix, items, n);
      var keys := KeysOf(items[n - 1], prefix);
      if keys.Some? && keys.value != [] {
        FoldedLeaf(prefix, items, n - 1, keys.value);
        LeafStays(Folded(prefix, items[..n - 1]), keys.value, ValueOf(items[n - 1]), path);
      }
    }
  }

  lemma {:induction false} FoldedReads(prefix: string, items: seq<string>, n: nat, path: Path)
    requires PrefixFree(prefix, items) && n <= |items| && path != []
    ensures Reads(Folded(prefix, items[..n]), path, Occurrences(prefix, items[..n], path))
    decreases n, 0
  {
    if n > 0 {
      FoldedReads(prefix, items, n - 1, path);
      LastItemIsUsed(prefix, items, n);
      var keys := KeysOf(items[n - 1], prefix);
      if keys.Some? && keys.value != [] {
        ReadsAfterItem(prefix, items, n, path, keys.value);
      }
    }
  }

  lemma {:induction false} ReadsAfterItem(prefix: string, items: seq<string>, n: nat, path: Path, used: Path)
    requires PrefixFree(prefix, items) && 0 < n <= |items| && path != [] && used != []
    requires KeysOf(items[n - 1], prefix) == Some(used)
    requires Reads(Folded(prefix, items[..n - 1]), path, Occurrences(prefix, items[..n - 1], path))
    ensures Reads(Folded(prefix, items[..n]), path, Occurrences(prefix, items[..n], path))
    decreases n - 1, 1
  {
    var data := Folded(prefix, items[..n - 1]);
    var texts := Occurrences(prefix, items[..n - 1], path);
    LastItemIsUsed(prefix, items, n);
    FoldedReads(prefix, items, n - 1, used);
    FoldedLeaf(prefix, items, n - 1, used);
    OccursExactlyWhenUsed(prefix, items[..n - 1], path);
    if texts != [] {
      UsedBefore(prefix, items, n - 1, path);
    }
    AddReads(data, used, ValueOf(items[n - 1]), path, texts, Occurrences(prefix, items[..n - 1], used));
  }

  lemma {:induction false} AboveIsNode(data: Tree, p: Path, q: Path)
    requires p != [] && ProperPrefix(p, q) && GetValue(data, q).Some?
    ensures GetValue(data, p).Some? && GetValue(data, p).value.Node?
    decreases |p|
  {
    assert q[0] == q[..|p|][0];
    if |p| > 1 {
      TailsCompare(p, q);
      AboveIsNode(data[p[0]].tree, p[1..], q[1..]);
    }
  }

  lemma AgreeingIsPrefixFree(prefix: string, items: seq<string>, p: Path, q: Path)
    requires Agrees(prefix, items) && p != [] && Used(prefix, items, p) && Used(prefix, items, q)
    ensures !ProperPrefix(p, q)
  {
    if ProperPrefix(p, q) {
      var data := Folded(prefix, items);
      OccursExactlyWhenUsed(prefix, items, p);
      OccursExactlyWhenUsed(prefix, items, q);
      assert Reads(data, p, Occurrences(prefix, items, p));
      assert Reads(data, q, Occurrences(prefix, items, q));
      AboveIsNode(data, p, q);
      assert false;
    }
  }

  /** The nested map holds for every path exactly the values the command line gives
      it, in their order, if and only if no path in use extends another. */
  lemma AgreesExactlyWhenPrefixFree(prefix: string, items: seq<string>)
    ensures Agrees(prefix, items) <==> PrefixFree(prefix, items)
  {
    if PrefixFree(prefix, items) {
      assert items[..|items|] == items;
      forall path: Path | path != []
        ensures Reads(Folded(prefix, items), path, Occurrences(prefix, items, path))
      {
        FoldedReads(prefix, items, |items|, path);
      }
    }
    if Agrees(prefix, items) {
      forall p: Path, q: Path | p != [] && Used(prefix, items, p) && Used(prefix, items, q)
        ensures !ProperPrefix(p, q)
      {
        AgreeingIsPrefixFree(prefix, items, p, q);
      }
    }
  }

  // ----- The pass over the management interfaces

  const INTERFACES: Path := ["install", "management_interface", "interfaces"]

  function TextsOf(v: Value): seq<string> {
    match v
    case Str(text) => [text]
    case List(texts) => texts
    case _ => []
  }

  /** The interface list is the parse of the texts, one for one. */
  predicate ParsedFrom(list: seq<IfDetails.Interface>, texts: seq<string>) {
    |list| == |texts| && forall i :: 0 <= i < |texts| ==> IfDetails.Parsed(texts[i]) == Ok(list[i])
  }

  predicate AllParse(texts: seq<string>) {
    forall i :: 0 <= i < |texts| ==> IfDetails.Parsed(texts[i]).Ok?
  }

  /** The error is that of the first text that does not parse. */
  ghost predicate FirstError(texts: seq<string>, error: IfDetails.DetailsError) {
    exists i :: 0 <= i < |texts| && IfDetails.Parsed(texts[i]) == Err(error) && AllParse(texts[..i])
  }

  /** `toNetworkInterfaces`. */
  method ToNetworkInterfaces(data: Tree) returns (r: Result<Tree, IfDetails.DetailsError>)
    ensures GetValue(data, INTERFACES).None? ==> r == Ok(data)
    ensures GetValue(data, INTERFACES).Some? ==>
      var texts := TextsOf(GetValue(data, INTERFACES).value);
      && (r.Ok? <==> AllParse(texts))
      && (r.Ok? ==> exists list: seq<IfDetails.Interface> ::
            ParsedFrom(list, texts) && r.value == PutValue(data, Interfaces(list), INTERFACES))
      && (r.Err? ==> FirstError(texts, r.error))
  {
    var found := GetValue(data, INTERFACES);
    if found.None? {
      return Ok(data);
    }
    var out := IfDetails.ParseAll(TextsOf(found.value));
    if out.Err? {
      return Err(out.error);
    }
    assert ParsedFrom(out.value, TextsOf(found.value));
    return Ok(PutValue(data, Interfaces(out.value), INTERFACES));
  }

  // ----- The pass over the scheme version

  const SCHEME_VERSION: Path := ["scheme_version"]

  /** `strconv.ParseUint(text, 10, 32)`. */
  function ParseUint32(text: string): Option<nat> {
    if text != "" && AllDigits(text) && DigitsValue(text) < 0x1_0000_0000 then Some(DigitsValue(text)) else None
  }

  /** The map `ParseCmdLine` returns, beside an error or not; its type assertion on
      the scheme version panics for anything but one text. */
  datatype Outcome = Parsed(data: Tree) | Refused(data: Tree) | Panicked

  /** `toSchemeVersion`. */
  function WithSchemeVersion(data: Tree): Outcome {
    match GetValue(data, SCHEME_VERSION)
    case None => Parsed(data)
    case Some(Str(text)) =>
      if ParseUint32(text).None? then Refused(data)
      else Parsed(PutValue(data, Number(ParseUint32(text).value), SCHEME_VERSION))
    case Some(_) => Panicked
  }

  /** Some path in use extends this one. */
  ghost predicate UsedBelow(prefix: string, items: seq<string>, path: Path) {
    exists below: Path :: ProperPrefix(path, below) && Used(prefix, items, below)
  }

  /** Maps are made for paths in use only. */
  lemma {:induction false} NodeIsUsedBelow(prefix: string, items: seq<string>, n: nat, path: Path)
    requires PrefixFree(prefix, items) && n <= |items| && path != []
    requires var found := GetValue(Folded(prefix, items[..n]), path); found.Some? && found.value.Node?
    ensures UsedBelow(prefix, items, path)
    decreases n
  {
    if n > 0 {
      LastItemIsUsed(prefix, items, n);
      var keys := KeysOf(items[n - 1], prefix);
      if keys.None? || keys.value == [] {
        NodeIsUsedBelow(prefix, items, n - 1, path);
      } else if !ProperPrefix(path, keys.value) {
        var data, used := Folded(prefix, items[..n - 1]), keys.value;
        FoldedLeaf(prefix, items, n - 1, used);
        NodeWasThere(data, used, ValueOf(items[n - 1]), path);
        NodeIsUsedBelow(prefix, items, n - 1, path);
      }
    }
  }

  lemma NodeWasThere(data: Tree, used: Path, text: string, path: Path)
    requires used != [] && path != [] && !ProperPrefix(path, used) && IsLeaf(data, used)
    requires var found := GetValue(Add(data, used, text), path); found.Some? && found.value.Node?
    ensures GetValue(data, path) == GetValue(Add(data, used, text), path)
  {
    var combined := Combined(GetValue(data, used), text);
    if combined.Some? {
      if path == used {
        GetPutSame(data, combined.value, used);
      } else if ProperPrefix(used, path) {
        GetPutBelow(data, combined.value, used, path);
      } else {
        GetPutOther(data, combined.value, used, path);
      }
    }
  }

  /** What stands at a path, for prefix-free items. */
  lemma FoundAt(prefix: string, items: seq<string>, path: Path)
    requires PrefixFree(prefix, items) && path != []
    ensures var texts, found := Occurrences(prefix, items, path), GetValue(Folded(prefix, items), path);
      && (found == None <==> texts == [] && !UsedBelow(prefix, items, path))
      && (|texts| == 1 ==> found == Some(Str(texts[0])))
      && (found.Some? && found.value.Str? ==> texts == [found.value.text])
  {
    assert items[..|items|] == items;
    FoldedReads(prefix, items, |items|, path);
    var data := Folded(prefix, items);
    var found := GetValue(data, path);
    if found.Some? && found.value.Node? {
      NodeIsUsedBelow(prefix, items, |items|, path);
    }
    if below: Path :| ProperPrefix(path, below) && Used(prefix, items, below) {
      OccursExactlyWhenUsed(prefix, items, below);
      FoldedReads(prefix, items, |items|, below);
      AboveIsNode(data, path, below);
    }
  }

  /** `ParseCmdLine`. */
  method ParseCmdLine(prefix: string, items: seq<string>) returns (r: Outcome)
    ensures var data := Folded(prefix, items);
      match GetValue(data, INTERFACES)
      case None => r == WithSchemeVersion(data)
      case Some(v) =>
        if AllParse(TextsOf(v)) then
          exists list: seq<IfDetails.Interface> ::
            ParsedFrom(list, TextsOf(v)) && r == WithSchemeVersion(PutValue(data, Interfaces(list), INTERFACES))
        else r == Refused(data)
    ensures PrefixFree(prefix, items) ==> IsOutcome(prefix, items, r)
  {
    var data := FoldItems(prefix, items);
    var passed := ToNetworkInterfaces(data);
    if passed.Err? {
      r := Refused(data);
    } else {
      r := WithSchemeVersion(passed.value);
    }
    if PrefixFree(prefix, items) {
      OutcomeOfItems(prefix, items, data, passed);
    }
  }

  /** What prefix-free items come to. A bad interface refuses them; otherwise the
      scheme version decides: given twice, or with parameters below it, it panics, and
      a text that is no 32-bit number refuses. */
  ghost predicate IsOutcome(prefix: string, items: seq<string>, r: Outcome) {
    var versions := Occurrences(prefix, items, SCHEME_VERSION);
    if !AllParse(Occurrences(prefix, items, INTERFACES)) then r == Refused(Folded(prefix, items))
    else if |versions| >= 2 || UsedBelow(prefix, items, SCHEME_VERSION) then r.Panicked?
    else if versions == [] then r.Parsed? && InterfacesParsed(prefix, items, r.data)
    else if ParseUint32(versions[0]).None? then r.Refused? && InterfacesParsed(prefix, items, r.data)
    else
      && r.Parsed? && GetValue(r.data, SCHEME_VERSION) == Some(Number(ParseUint32(versions[0]).value))
      && InterfacesBesideVersion(prefix, items, r.data)
  }

  ghost predicate HoldsInterfaces(prefix: string, items: seq<string>, data: Tree) {
    Used(prefix, items, INTERFACES) ==>
      exists list: seq<IfDetails.Interface> ::
        && GetValue(data, INTERFACES) == Some(Interfaces(list))
        && ParsedFrom(list, Occurrences(prefix, items, INTERFACES))
  }

  /** The interfaces are the parses of their values, one for one and in order, and
      every other path reads as its values. */
  ghost predicate InterfacesParsed(prefix: string, items: seq<string>, data: Tree) {
    && HoldsInterfaces(prefix, items, data)
    && (forall path: Path :: path != [] && Incomparable(INTERFACES, path) ==>
          Reads(data, path, Occurrences(prefix, items, path)))
  }

  ghost predicate InterfacesBesideVersion(prefix: string, items: seq<string>, data: Tree) {
    && HoldsInterfaces(prefix, items, data)
    && (forall path: Path ::
          path != [] && Incomparable(INTERFACES, path) && Incomparable(SCHEME_VERSION, path) ==>
            Reads(data, path, Occurrences(prefix, items, path)))
  }

  lemma InterfacesPassed(prefix: string, items: seq<string>, data: Tree, passed: Result<Tree, IfDetails.DetailsError>)
    requires PrefixFree(prefix, items) && data == Folded(prefix, items)
    requires GetValue(data, INTERFACES).None? ==> passed == Ok(data)
    requires GetValue(data, INTERFACES).Some? ==>
      var texts := TextsOf(GetValue(data, INTERFACES).value);
      && (passed.Ok? <==> AllParse(texts))
      && (passed.Ok? ==> exists list: seq<IfDetails.Interface> ::
            ParsedFrom(list, texts) && passed.value == PutValue(data, Interfaces(list), INTERFACES))
    ensures passed.Ok? <==> AllParse(Occurrences(prefix, items, INTERFACES))
    ensures passed.Ok? ==> InterfacesParsed(prefix, items, passed.value)
    ensures passed.Ok? ==> GetValue(passed.value, SCHEME_VERSION) == GetValue(data, SCHEME_VERSION)
  {
    AgreesExactlyWhenPrefixFree(prefix, items);
    OccursExactlyWhenUsed(prefix, items, INTERFACES);
    assert Reads(data, INTERFACES, Occurrences(prefix, items, INTERFACES));
    var found := GetValue(data, INTERFACES);
    if found.None? {
      assert InterfacesParsed(prefix, items, data);
    } else {
      assert TextsOf(found.value) == Occurrences(prefix, items, INTERFACES);
      if passed.Ok? {
        var list: seq<IfDetails.Interface> :|
          ParsedFrom(list, TextsOf(found.value)) && passed.value == PutValue(data, Interfaces(list), INTERFACES);
        InterfacesPut(prefix, items, data, list);
        GetPutOther(data, Interfaces(list), INTERFACES, SCHEME_VERSION);
      }
    }
  }

  lemma VersionPut(prefix: string, items: seq<string>, data: Tree, n: nat)
    requires InterfacesParsed(prefix, items, data) && GetValue(data, SCHEME_VERSION).Some?
    ensures var put := PutValue(data, Number(n), SCHEME_VERSION);
      GetValue(put, SCHEME_VERSION) == Some(Number(n)) && InterfacesBesideVersion(prefix, items, put)
  {
    GetPutSame(data, Number(n), SCHEME_VERSION);
    forall path: Path | path != [] && Incomparable(SCHEME_VERSION, path)
      ensures GetValue(PutValue(data, Number(n), SCHEME_VERSION), path) == GetValue(data, path)
    {
      GetPutOther(data, Number(n), SCHEME_VERSION, path);
    }
  }

  lemma OutcomeOfItems(prefix: string, items: seq<string>, data: Tree, passed: Result<Tree, IfDetails.DetailsError>)
    requires PrefixFree(prefix, items) && data == Folded(prefix, items)
    requires GetValue(data, INTERFACES).None? ==> passed == Ok(data)
    requires GetValue(data, INTERFACES).Some? ==>
      var texts := TextsOf(GetValue(data, INTERFACES).value);
      && (passed.Ok? <==> AllParse(texts))
      && (passed.Ok? ==> exists list: seq<IfDetails.Interface> ::
            ParsedFrom(list, texts) && passed.value == PutValue(data, Interfaces(list), INTERFACES))
    ensures IsOutcome(prefix, items, if passed.Err? then Refused(data) else WithSchemeVersion(passed.value))
  {
    InterfacesPassed(prefix, items, data, passed);
    if passed.Ok? {
      FoundAt(prefix, items, SCHEME_VERSION);
      VersionDecides(prefix, items, passed.value);
    }
  }

  lemma VersionDecides(prefix: string, items: seq<string>, data: Tree)
    requires PrefixFree(prefix, items) && InterfacesParsed(prefix, items, data)
    requires AllParse(Occurrences(prefix, items, INTERFACES))
    requires var texts, found := Occurrences(prefix, items, SCHEME_VERSION), GetValue(data, SCHEME_VERSION);
      && (found == None <==> texts == [] && !UsedBelow(prefix, items, SCHEME_VERSION))
      && (|texts| == 1 ==> found == Some(Str(texts[0])))
      && (found.Some? && found.value.Str? ==> texts == [found.value.text])
    ensures IsOutcome(prefix, items, WithSchemeVersion(data))
  {
    var texts := Occurrences(prefix, items, SCHEME_VERSION);
    if |texts| == 1 {
      NotBelowItself(prefix, items, SCHEME_VERSION);
      if ParseUint32(texts[0]).Some? {
        VersionPut(prefix, items, data, ParseUint32(texts[0]).value);
      }
    }
  }

  lemma NotBelowItself(prefix: string, items: seq<string>, path: Path)
    requires PrefixFree(prefix, items) && path != [] && Occurrences(prefix, items, path) != []
    ensures !UsedBelow(prefix, items, path)
  {
    OccursExactlyWhenUsed(prefix, items, path);
  }

  lemma InterfacesPut(prefix: string, items: seq<string>, data: Tree, list: seq<IfDetails.Interface>)
    requires Agrees(prefix, items) && data == Folded(prefix, items) && GetValue(data, INTERFACES).Some?
    requires ParsedFrom(list, Occurrences(prefix, items, INTERFACES))
    ensures InterfacesParsed(prefix, items, PutValue(data, Interfaces(list), INTERFACES))
  {
    GetIsClear(data, INTERFACES);
    GetPutSame(data, Interfaces(list), INTERFACES);
    forall path: Path | path != [] && Incomparable(INTERFACES, path)
      ensures Reads(PutValue(data, Interfaces(list), INTERFACES), path, Occurrences(prefix, items, path))
    {
      assert Reads(data, path, Occurrences(prefix, items, path));
      GetPutOther(data, Interfaces(list), INTERFACES, path);
    }
  }
}
