/** Interface details on the kernel command line: `parseIfDetails` and the list
    pass around it (pkg/util/cmdline.go). */
module IfDetails {
  import opened Wrappers
  import opened Strings

  datatype Interface = Interface(hwAddr: Option<string>, name: Option<string>)

  datatype DetailsError = EmptyDetails | BadShape | BadMac

  /** What one comma-separated field sets. */
  datatype Field = HwAddr(mac: string) | Name(name: string)

  // ----- Blanks and hardware addresses

  predicate IsBlank(c: char) {
    c == ' ' || 9 as char <= c <= 13 as char
  }

  function TrimLeft(s: string): string {
    if s != "" && IsBlank(s[0]) then TrimLeft(s[1..]) else s
  }

  function TrimRight(s: string): string {
    if s != "" && IsBlank(s[|s| - 1]) then TrimRight(s[..|s| - 1]) else s
  }

  function TrimSpace(s: string): string {
    TrimRight(TrimLeft(s))
  }

  predicate IsHex(c: char) {
    '0' <= c <= '9' || 'a' <= c <= 'f' || 'A' <= c <= 'F'
  }

  /** `net.ParseMAC` on text with exactly five colons: a colon ends each pair, so
      only the six-byte colon form is left. */
  predicate IsMac(parts: seq<string>) {
    |parts| == 6 && forall i :: 0 <= i < 6 ==> |parts[i]| == 2 && IsHex(parts[i][0]) && IsHex(parts[i][1])
  }

  // ----- One field

  function TrimAll(parts: seq<string>): (r: seq<string>)
    ensures |r| == |parts| && forall i :: 0 <= i < |parts| ==> r[i] == TrimSpace(parts[i])
  {
    if parts == [] then [] else [TrimSpace(parts[0])] + TrimAll(parts[1..])
  }

  function ParseField(field: string): Result<Field, DetailsError> {
    var parts := TrimAll(Split(field, ':'));
    if |parts| == 7 then
      if parts[0] != "hwAddr" then Err(BadShape)
      else if IsMac(parts[1..]) then Ok(HwAddr(Join(parts[1..], ':'))) else Err(BadMac)
    else if |parts| == 6 then
      if IsMac(parts) then Ok(HwAddr(Join(parts, ':'))) else Err(BadMac)
    else if |parts| == 2 then
      if parts[0] == "name" then Ok(Name(parts[1])) else Err(BadShape)
    else if |parts| == 1 then Ok(Name(parts[0]))
    else Err(BadShape)
  }

  // ----- All fields

  /** The first error in the fields. */
  function FirstError(fields: seq<string>): Option<DetailsError> {
    if fields == [] then None
    else match ParseField(fields[0])
      case Err(e) => Some(e)
      case Ok(_) => FirstError(fields[1..])
  }

  /** The last field that sets the hardware address, and the last that sets the
      name. */
  function LastHwAddr(fields: seq<string>): Option<string> {
    if fields == [] then None
    else match ParseField(fields[|fields| - 1])
      case Ok(HwAddr(mac)) => Some(mac)
      case _ => LastHwAddr(fields[..|fields| - 1])
  }

  function LastName(fields: seq<string>): Option<string> {
    if fields == [] then None
    else match ParseField(fields[|fields| - 1])
      case Ok(Name(name)) => Some(name)
      case _ => LastName(fields[..|fields| - 1])
  }

  function ParsedFields(fields: seq<string>): Result<Interface, DetailsError> {
    match FirstError(fields)
    case Some(e) => Err(e)
    case None => Ok(Interface(LastHwAddr(fields), LastName(fields)))
  }

  function Parsed(details: string): Result<Interface, DetailsError> {
    if details == "" then Err(EmptyDetails) else ParsedFields(Split(details, ','))
  }

  lemma {:induction false} FirstErrorAt(fields: seq<string>, i: nat)
    requires i < |fields| && ParseField(fields[i]).Err?
    requires forall j :: 0 <= j < i ==> ParseField(fields[j]).Ok?
    ensures FirstError(fields) == Some(ParseField(fields[i]).error)
  {
    if i > 0 {
      assert ParseField(fields[0]).Ok?;
      FirstErrorAt(fields[1..], i - 1);
    }
  }

  lemma {:induction false} NoError(fields: seq<string>)
    ensures FirstError(fields).None? <==> forall i :: 0 <= i < |fields| ==> ParseField(fields[i]).Ok?
  {
    if fields != [] {
      NoError(fields[1..]);
      if FirstError(fields).None? {
        assert forall i :: 1 <= i < |fields| ==> fields[i] == fields[1..][i - 1];
      } else if ParseField(fields[0]).Ok? {
        var i :| 0 <= i < |fields[1..]| && ParseField(fields[1..][i]).Err?;
        assert fields[i + 1] == fields[1..][i];
      }
    }
  }

  lemma OneMoreField(fields: seq<string>, i: nat, field: Field)
    requires i < |fields| && ParseField(fields[i]) == Ok(field)
    ensures LastHwAddr(fields[..i + 1]) == if field.HwAddr? then Some(field.mac) else LastHwAddr(fields[..i])
    ensures LastName(fields[..i + 1]) == if field.Name? then Some(field.name) else LastName(fields[..i])
  {
    assert fields[..i + 1][..i] == fields[..i];
  }

  /** The loop of `parseIfDetails`: the map is filled field by field. */
  method FillFields(fields: seq<string>) returns (r: Result<Interface, DetailsError>)
    ensures r == ParsedFields(fields)
  {
    var data := Interface(None, None);
    for i := 0 to |fields|
      invariant forall j :: 0 <= j < i ==> ParseField(fields[j]).Ok?
      invariant data.hwAddr == LastHwAddr(fields[..i])
      invariant data.name == LastName(fields[..i])
    {
      var field := ParseField(fields[i]);
      if field.Err? {
        FirstErrorAt(fields, i);
        return Err(field.error);
      }
      OneMoreField(fields, i, field.value);
      if field.value.HwAddr? {
        data := data.(hwAddr := Some(field.value.mac));
      } else {
        data := data.(name := Some(field.value.name));
      }
    }
    NoError(fields);
    assert fields[..|fields|] == fields;
    return Ok(data);
  }

  method ParseIfDetails(details: string) returns (r: Result<Interface, DetailsError>)
    ensures r == Parsed(details)
  {
    if details == "" {
      return Err(EmptyDetails);
    }
    r := FillFields(Split(details, ','));
  }

  /** The list pass of `toNetworkInterfaces`. */
  method ParseAll(details: seq<string>) returns (r: Result<seq<Interface>, DetailsError>)
    ensures r.Ok? <==> forall i :: 0 <= i < |details| ==> Parsed(details[i]).Ok?
    ensures r.Ok? ==> |r.value| == |details| && forall i :: 0 <= i < |details| ==> Parsed(details[i]) == Ok(r.value[i])
    ensures r.Err? ==> exists i :: 0 <= i < |details| && Parsed(details[i]) == Err(r.error)
                                   && forall j :: 0 <= j < i ==> Parsed(details[j]).Ok?
  {
    var out := [];
    for i := 0 to |details|
      invariant |out| == i && forall j :: 0 <= j < i ==> Parsed(details[j]) == Ok(out[j])
    {
      var n := ParseIfDetails(details[i]);
      if n.Err? {
        return Err(n.error);
      }
      out := out + [n.value];
    }
    return Ok(out);
  }

  // ----- The documented spellings

  predicate IsName(name: string) {
    name != "" && ':' !in name && ',' !in name && !IsBlank(name[0]) && !IsBlank(name[|name| - 1])
  }

  predicate AllBlank(s: string) {
    forall i :: 0 <= i < |s| ==> IsBlank(s[i])
  }

  lemma {:induction false} TrimLeading(blank: string, s: string)
    requires AllBlank(blank) && s != "" && !IsBlank(s[0]) && !IsBlank(s[|s| - 1])
    ensures TrimSpace(blank + s) == s
  {
    if blank == "" {
      assert blank + s == s;
    } else {
      assert (blank + s)[1..] == blank[1..] + s;
      TrimLeading(blank[1..], s);
    }
  }

  lemma PlainIsTrimmed(s: string)
    requires s != "" && !IsBlank(s[0]) && !IsBlank(s[|s| - 1])
    ensures TrimSpace(s) == s
  {
  }

  lemma MacParts(mac: seq<string>)
    requires IsMac(mac)
    ensures Split(Join(mac, ':'), ':') == mac && TrimAll(mac) == mac
  {
    forall part <- mac ensures ':' !in part {
      var i :| 0 <= i < 6 && part == mac[i];
    }
    SplitJoin(mac, ':');
    forall i | 0 <= i < 6 ensures TrimSpace(mac[i]) == mac[i] {
      PlainIsTrimmed(mac[i]);
    }
  }

  /** A hardware address alone, or after its label and any blanks. */
  lemma HwAddrField(mac: seq<string>, blank: string)
    requires IsMac(mac) && AllBlank(blank)
    ensures ParseField(Join(mac, ':')) == Ok(HwAddr(Join(mac, ':')))
    ensures ParseField("hwAddr:" + blank + Join(mac, ':')) == Ok(HwAddr(Join(mac, ':')))
  {
    MacParts(mac);
    LabelledMac(mac, blank);
  }

  lemma LabelledMac(mac: seq<string>, blank: string)
    requires IsMac(mac) && AllBlank(blank)
    ensures TrimAll(Split("hwAddr:" + blank + Join(mac, ':'), ':')) == ["hwAddr"] + mac
  {
    var first := blank + mac[0];
    var parts := [first] + mac[1..];
    assert Join(parts, ':') == blank + Join(mac, ':') by {
      assert parts[1..] == mac[1..];
      assert first + [':'] + Join(mac[1..], ':') == blank + (mac[0] + [':'] + Join(mac[1..], ':'));
    }
    ColonFree(mac, blank);
    SplitJoin(parts, ':');
    assert "hwAddr:" + blank + Join(mac, ':') == "hwAddr" + [':'] + Join(parts, ':');
    SplitCons("hwAddr", Join(parts, ':'), ':');
    var all := ["hwAddr"] + parts;
    TrimLeading(blank, mac[0]);
    PlainIsTrimmed("hwAddr");
    MacParts(mac);
    forall i | 0 <= i < 7 ensures TrimSpace(all[i]) == (["hwAddr"] + mac)[i] {
      if i >= 2 {
        assert TrimAll(mac)[i - 1] == TrimSpace(mac[i - 1]);
      }
    }
  }

  lemma ColonFree(mac: seq<string>, blank: string)
    requires IsMac(mac) && AllBlank(blank)
    ensures forall part <- [blank + mac[0]] + mac[1..] :: ':' !in part
  {
    var parts := [blank + mac[0]] + mac[1..];
    forall part <- parts ensures ':' !in part {
      var i :| 0 <= i < |parts| && part == parts[i];
      if i > 0 {
        assert part == mac[i];
      }
    }
  }

  /** A name alone, or after its label and any blanks. */
  lemma NameField(name: string, blank: string)
    requires IsName(name) && AllBlank(blank)
    ensures ParseField(name) == Ok(Name(name))
    ensures ParseField("name:" + blank + name) == Ok(Name(name))
  {
    SplitWithout(name, ':');
    PlainIsTrimmed(name);
    var value := blank + name;
    assert ':' !in value;
    SplitWithout(value, ':');
    SplitCons("name", value, ':');
    assert "name:" + blank + name == "name" + [':'] + value;
    PlainIsTrimmed("name");
    TrimLeading(blank, name);
    assert TrimAll(Split("name" + [':'] + value, ':')) == ["name", name];
  }

  lemma CommaFree(mac: seq<string>, blank: string, name: string)
    requires IsMac(mac) && AllBlank(blank) && IsName(name)
    ensures ',' !in Join(mac, ':') && ',' !in "hwAddr:" + blank + Join(mac, ':')
    ensures ',' !in "name:" + blank + name
  {
    JoinKeepsOut(mac, ':', ',');
  }

  lemma {:induction false} JoinKeepsOut(parts: seq<string>, sep: char, c: char)
    requires c != sep && forall i :: 0 <= i < |parts| ==> c !in parts[i]
    ensures c !in Join(parts, sep)
  {
    if |parts| > 1 {
      forall i | 0 <= i < |parts[1..]| ensures c !in parts[1..][i] {
        assert parts[1..][i] == parts[i + 1];
      }
      JoinKeepsOut(parts[1..], sep, c);
    }
  }

  lemma OneField(field: string, value: Field)
    requires field != "" && ',' !in field && ParseField(field) == Ok(value)
    ensures Parsed(field) ==
      Ok(if value.HwAddr? then Interface(Some(value.mac), None) else Interface(None, Some(value.name)))
  {
    SplitWithout(field, ',');
    NoError([field]);
    OneMoreField([field], 0, value);
    assert [field][..0] == [] && [field][..1] == [field];
  }

  lemma TwoFields(first: string, second: string, mac: string, name: string)
    requires ',' !in first && ',' !in second
    requires ParseField(first) == Ok(HwAddr(mac)) && ParseField(second) == Ok(Name(name))
    ensures Parsed(first + "," + second) == Ok(Interface(Some(mac), Some(name)))
  {
    SplitWithout(second, ',');
    SplitCons(first, second, ',');
    var fields := [first, second];
    NoError(fields);
    OneMoreField(fields, 0, HwAddr(mac));
    OneMoreField(fields, 1, Name(name));
    assert fields[..0] == [] && fields[..2] == fields;
    assert |first + "," + second| > 0;
    assert LastHwAddr(fields) == Some(mac) && LastName(fields) == Some(name);
    assert Split(first + "," + second, ',') == fields;
  }

  /** Every documented spelling of an interface reads back as that interface, for
      every hardware address, every name and any blanks after a label. */
  lemma DocumentedSpellings(mac: seq<string>, name: string, blank: string)
    requires IsMac(mac) && IsName(name) && AllBlank(blank)
    ensures var hw := Join(mac, ':');
            var labelledHw, labelledName := "hwAddr:" + blank + hw, "name:" + blank + name;
      && Parsed(labelledHw) == Parsed(hw) == Ok(Interface(Some(hw), None))
      && Parsed(labelledName) == Parsed(name) == Ok(Interface(None, Some(name)))
      && Parsed(labelledHw + "," + labelledName) == Ok(Interface(Some(hw), Some(name)))
      && Parsed(labelledHw + "," + name) == Ok(Interface(Some(hw), Some(name)))
      && Parsed(hw + "," + labelledName) == Ok(Interface(Some(hw), Some(name)))
  {
    var hw := Join(mac, ':');
    var labelledHw, labelledName := "hwAddr:" + blank + hw, "name:" + blank + name;
    HwAddrField(mac, blank);
    NameField(name, blank);
    CommaFree(mac, blank, name);
    OneField(labelledHw, HwAddr(hw));
    MacNotEmpty(mac);
    OneField(hw, HwAddr(hw));
    OneField(labelledName, Name(name));
    OneField(name, Name(name));
    TwoFields(labelledHw, labelledName, hw, name);
    TwoFields(labelledHw, name, hw, name);
    TwoFields(hw, labelledName, hw, name);
  }

  lemma MacNotEmpty(mac: seq<string>)
    requires IsMac(mac)
    ensures Join(mac, ':') != ""
  {
  }

  predicate SetsHwAddr(field: string) {
    ParseField(field).Ok? && ParseField(field).value.HwAddr?
  }

  predicate SetsName(field: string) {
    ParseField(field).Ok? && ParseField(field).value.Name?
  }

  /** Of the fields that set the hardware address the last one wins; without one
      there is none. */
  lemma {:induction false} LastHwAddrWins(fields: seq<string>, i: nat)
    requires i < |fields| && forall j :: i < j < |fields| ==> !SetsHwAddr(fields[j])
    requires SetsHwAddr(fields[i]) || i == 0
    ensures LastHwAddr(fields) == if SetsHwAddr(fields[i]) then Some(ParseField(fields[i]).value.mac) else None
  {
    if i < |fields| - 1 {
      assert !SetsHwAddr(fields[|fields| - 1]);
      LastHwAddrWins(fields[..|fields| - 1], i);
    }
  }

  lemma {:induction false} LastNameWins(fields: seq<string>, i: nat)
    requires i < |fields| && forall j :: i < j < |fields| ==> !SetsName(fields[j])
    requires SetsName(fields[i]) || i == 0
    ensures LastName(fields) == if SetsName(fields[i]) then Some(ParseField(fields[i]).value.name) else None
  {
    if i < |fields| - 1 {
      assert !SetsName(fields[|fields| - 1]);
      LastNameWins(fields[..|fields| - 1], i);
    }
  }

  predicate AllAccepted(fields: seq<string>) {
    forall i :: 0 <= i < |fields| ==> FieldAccepted(fields[i])
  }

  lemma {:induction false} NoErrorExactlyWhen(fields: seq<string>)
    ensures FirstError(fields).None? <==> AllAccepted(fields)
  {
    if fields != [] {
      ShapesAccepted(fields[0]);
      NoErrorExactlyWhen(fields[1..]);
      assert AllAccepted(fields) <==> FieldAccepted(fields[0]) && AllAccepted(fields[1..]) by {
        assert fields == [fields[0]] + fields[1..];
      }
    }
  }

  /** Details are accepted exactly when they are not empty and every field has one
      of the four shapes. */
  lemma AcceptedExactlyWhen(details: string)
    ensures Parsed(details).Ok? <==> details != "" && AllAccepted(Split(details, ','))
  {
    NoErrorExactlyWhen(Split(details, ','));
  }

  predicate FieldAccepted(field: string) {
    HasShape(Split(field, ':'))
  }

  /** A bare name, a labelled name, six pairs, or labelled pairs; blanks around the
      parts do not matter. */
  predicate HasShape(parts: seq<string>) {
    || |parts| == 1
    || (|parts| == 2 && TrimSpace(parts[0]) == "name")
    || IsMac(TrimAll(parts))
    || (|parts| == 7 && TrimSpace(parts[0]) == "hwAddr" && IsMac(TrimAll(parts[1..])))
  }

  lemma ShapesAccepted(field: string)
    ensures ParseField(field).Ok? <==> FieldAccepted(field)
  {
    var parts := Split(field, ':');
    assert TrimAll(parts)[1..] == TrimAll(parts[1..]);
  }
}
