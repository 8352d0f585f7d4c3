/** The dotted-decimal subnet mask typed on the network page
    (pkg/console/install_panels.go) and its prefix-length form written to the
    NetworkManager profiles (pkg/config/cos.go). */
module SubnetMask {
  import opened Wrappers
  import opened Strings

  type Octet = n: int | 0 <= n < 256

  /** `net.IPMask` of four bytes. */
  datatype Mask = Mask(a: Octet, b: Octet, c: Octet, d: Octet) {
    /** The mask as one 32-bit number, most significant byte first. */
    function Value(): nat {
      0x100_0000 * a + 0x1_0000 * b + 0x100 * c + d
    }

    function Octets(): seq<Octet> {
      [a, b, c, d]
    }
  }

  datatype MaskError =
    | NotFourParts
    | UnknownNumber(position: nat)
    | OutOfRange(position: nat, number: int)
    | NotContinuous

  function Pow2(n: nat): (p: nat)
    ensures p >= 1
  {
    if n == 0 then 1 else 2 * Pow2(n - 1)
  }

  /** A prefix of `n` one bits followed by zero bits, as in section 3.1 of
      RFC 4632. */
  ghost predicate HasPrefixLength(mask: Mask, n: nat) {
    n <= 32 && mask.Value() == Pow2(32) - Pow2(32 - n)
  }

  ghost predicate IsPrefixMask(mask: Mask) {
    exists n: nat :: HasPrefixLength(mask, n)
  }

  /** Leading one bits of a byte, counted by shifting it left. */
  function LeadingOnes(v: Octet): nat {
    if v >= 128 then 1 + LeadingOnes((2 * v) % 256) else 0
  }

  /** What is left of a byte once its leading one bits are shifted out. */
  function AfterLeadingOnes(v: Octet): Octet {
    if v >= 128 then AfterLeadingOnes((2 * v) % 256) else v
  }

  /** `simpleMaskLength` of Go's net package: None when a zero bit is followed
      by a one bit. */
  function SimpleMaskLength(octets: seq<Octet>): Option<nat> {
    if octets == [] then Some(0)
    else if octets[0] == 255 then
      match SimpleMaskLength(octets[1..])
      case Some(n) => Some(8 + n)
      case None => None
    else if AfterLeadingOnes(octets[0]) != 0 || exists o <- octets[1..] :: o != 0 then None
    else Some(LeadingOnes(octets[0]))
  }

  /** First result of `net.IPMask.Size`. */
  function Size(mask: Mask): nat {
    match SimpleMaskLength(mask.Octets())
    case Some(n) => n
    case None => 0
  }

  /** One byte of `net.CIDRMask`, with `ones` bits still to place. */
  function CidrOctet(ones: int): Octet {
    if ones >= 8 then 255 else if ones <= 0 then 0 else 255 - 255 / Pow2(ones)
  }

  /** `net.CIDRMask(ones, 32)`. */
  function CidrMask(ones: nat): Mask {
    Mask(CidrOctet(ones), CidrOctet(ones - 8), CidrOctet(ones - 16), CidrOctet(ones - 24))
  }

  predicate IsValidMaskFormat(mask: Mask) {
    CidrMask(Size(mask)) == mask
  }

  /** A byte of `ones` one bits counts back to `ones`. */
  lemma {:induction false} CountOnes(ones: nat, v: Octet)
    requires ones <= 8 && v == 256 - Pow2(8 - ones)
    ensures LeadingOnes(v) == ones && AfterLeadingOnes(v) == 0
  {
    if ones > 0 {
      assert Pow2(8 - (ones - 1)) == 2 * Pow2(8 - ones);
      assert Pow2(8 - ones) <= 128 by { Pow2Monotone(8 - ones, 7); }
      CountOnes(ones - 1, (2 * v) % 256);
    }
  }

  lemma {:induction false} Pow2Monotone(m: nat, n: nat)
    requires m <= n
    ensures Pow2(m) <= Pow2(n)
  {
    if m < n {
      Pow2Monotone(m, n - 1);
    }
  }

  lemma {:induction false} Pow2Sum(m: nat, n: nat)
    ensures Pow2(m + n) == Pow2(m) * Pow2(n)
  {
    if m > 0 {
      Pow2Sum(m - 1, n);
    }
  }

  lemma OctetOfOnes(ones: int)
    requires 0 <= ones < 8
    ensures CidrOctet(ones) == 256 - Pow2(8 - ones) < 255
    ensures LeadingOnes(CidrOctet(ones)) == ones && AfterLeadingOnes(CidrOctet(ones)) == 0
  {
    assert Pow2(1) == 2 && Pow2(2) == 4 && Pow2(3) == 8 && Pow2(4) == 16;
    assert Pow2(5) == 32 && Pow2(6) == 64 && Pow2(7) == 128 && Pow2(8) == 256;
    assert ones == 0 || ones == 1 || ones == 2 || ones == 3 || ones == 4 || ones == 5 || ones == 6 || ones == 7;
    CountOnes(ones, CidrOctet(ones));
  }

  lemma ValueOfCidrMask(n: nat)
    requires n <= 32
    ensures HasPrefixLength(CidrMask(n), n)
  {
    WholeBytes();
    if n < 32 {
      OctetOfOnes(n % 8);
      PartialByte(n);
      ShiftedPower(n / 8, n % 8);
    }
  }

  /** What the lowest bit of the byte after `full` whole ones stands for. */
  function Weight(full: nat): nat {
    match full case 0 => 0x100_0000 case 1 => 0x1_0000 case 2 => 0x100 case _ => 1
  }

  lemma PartialByte(n: nat)
    requires n < 32
    ensures CidrMask(n).Value() == 0x1_0000_0000 - (256 - CidrOctet(n % 8)) * Weight(n / 8)
  {
    var v := CidrOctet(n % 8);
    match n / 8
    case 0 => assert CidrMask(n) == Mask(v, 0, 0, 0);
    case 1 => assert CidrMask(n) == Mask(255, v, 0, 0);
    case 2 => assert CidrMask(n) == Mask(255, 255, v, 0);
    case _ => assert CidrMask(n) == Mask(255, 255, 255, v);
  }

  lemma WholeBytes()
    ensures Pow2(0) == 1 && Pow2(8) == 0x100 && Pow2(16) == 0x1_0000 && Pow2(24) == 0x100_0000
    ensures Pow2(32) == 0x1_0000_0000
  {
    assert Pow2(8) == 0x100;
    Pow2Sum(8, 8);
    Pow2Sum(16, 8);
    Pow2Sum(24, 8);
  }

  lemma ShiftedPower(full: nat, ones: nat)
    requires full < 4 && ones < 8
    ensures Pow2(32 - 8 * full - ones) == Pow2(8 - ones) * Weight(full)
  {
    WholeBytes();
    Pow2Sum(8 - ones, 24 - 8 * full);
  }

  lemma {:induction false} LengthOfCidrOctets(octets: seq<Octet>, n: nat)
    requires n <= 8 * |octets|
    requires forall i :: 0 <= i < |octets| ==> octets[i] == CidrOctet(n - 8 * i)
    ensures SimpleMaskLength(octets) == Some(n)
  {
    if n >= 8 {
      LengthOfCidrOctets(octets[1..], n - 8);
    } else if octets != [] {
      OctetOfOnes(n);
    }
  }

  lemma SizeOfCidrMask(n: nat)
    requires n <= 32
    ensures Size(CidrMask(n)) == n
  {
    LengthOfCidrOctets(CidrMask(n).Octets(), n);
  }

  /** The format test accepts exactly the 33 prefix masks, and `Size` is then
      the prefix length. */
  lemma ValidFormatIsPrefix(mask: Mask)
    ensures IsValidMaskFormat(mask) <==> IsPrefixMask(mask)
    ensures forall n: nat :: HasPrefixLength(mask, n) ==> Size(mask) == n
  {
    forall n: nat | HasPrefixLength(mask, n)
      ensures CidrMask(n) == mask && Size(mask) == n
    {
      ValueOfCidrMask(n);
      SizeOfCidrMask(n);
      ValueInjective(CidrMask(n), mask);
    }
    if IsValidMaskFormat(mask) {
      var n := if Size(mask) <= 32 then Size(mask) else 32;
      assert CidrMask(n) == mask;
      ValueOfCidrMask(n);
    }
  }

  /** Four bytes determine the number they spell. */
  lemma ValueInjective(m: Mask, k: Mask)
    requires m.Value() == k.Value()
    ensures m == k
  {
    LastByte((m.a * 256 + m.b) * 256 + m.c, m.d, (k.a * 256 + k.b) * 256 + k.c, k.d);
    LastByte(m.a * 256 + m.b, m.c, k.a * 256 + k.b, k.c);
    LastByte(m.a, m.b, k.a, k.b);
  }

  lemma LastByte(x: int, d: Octet, y: int, e: Octet)
    requires x * 256 + d == y * 256 + e
    ensures x == y && d == e
  {
  }

  // ----- ParseMask

  /** What one part of the text must be to become a byte of the mask. */
  function ParseOctet(part: string, position: nat): Result<Octet, MaskError> {
    match Atoi(part)
    case None => Err(UnknownNumber(position))
    case Some(n) => if 0 <= n <= 255 then Ok(n) else Err(OutOfRange(position, n))
  }

  /** The mask a text denotes: four parts, each a byte. */
  function Denoted(text: string): Option<Mask> {
    var parts := Split(text, '.');
    if |parts| == 4 && forall i :: 0 <= i < 4 ==> ParseOctet(parts[i], i).Ok? then
      Some(Mask(ParseOctet(parts[0], 0).value, ParseOctet(parts[1], 1).value,
                ParseOctet(parts[2], 2).value, ParseOctet(parts[3], 3).value))
    else None
  }

  /** What each error says about the text; `position` is the first bad part. */
  ghost predicate Rejects(text: string, error: MaskError) {
    var parts := Split(text, '.');
    match error
    case NotFourParts => |parts| != 4
    case NotContinuous => Denoted(text).Some? && !IsPrefixMask(Denoted(text).value)
    case _ =>
      && |parts| == 4 && error.position < 4
      && ParseOctet(parts[error.position], error.position) == Err(error)
      && forall k: nat :: k < error.position ==> ParseOctet(parts[k], k).Ok?
  }

  method ParseMask(text: string) returns (r: Result<Mask, MaskError>)
    ensures r.Ok? ==> Denoted(text) == Some(r.value) && IsPrefixMask(r.value)
    ensures r.Err? ==> Rejects(text, r.error)
  {
    var parts := Split(text, '.');
    if |parts| != 4 {
      return Err(NotFourParts);
    }
    var result := new Octet[4](_ => 0);
    for i := 0 to 4
      invariant forall k :: 0 <= k < i ==> ParseOctet(parts[k], k) == Ok(result[k])
    {
      var num := Atoi(parts[i]);
      if num.None? {
        return Err(UnknownNumber(i));
      }
      if num.value < 0 || num.value > 255 {
        return Err(OutOfRange(i, num.value));
      }
      result[i] := num.value;
    }
    var mask := Mask(result[0], result[1], result[2], result[3]);
    ValidFormatIsPrefix(mask);
    if !IsValidMaskFormat(mask) {
      return Err(NotContinuous);
    }
    return Ok(mask);
  }

  // ----- Printing and the prefix length in the profiles

  /** `%d.%d.%d.%d`. */
  function Print(mask: Mask): string {
    Join([Decimal(mask.a), Decimal(mask.b), Decimal(mask.c), Decimal(mask.d)], '.')
  }

  /** One field of a dotted IPv4 address for `net.ParseIP`: no sign and no
      leading zero. */
  function ParseIPv4Field(part: string): Option<Octet> {
    if part != "" && AllDigits(part) && (part[0] != '0' || |part| == 1) && DigitsValue(part) <= 255
    then Some(DigitsValue(part)) else None
  }

  /** `net.ParseIP(text).To4()` for dotted texts. */
  function ParseIPv4(text: string): Option<Mask> {
    var parts := Split(text, '.');
    if |parts| == 4 && forall part <- parts :: ParseIPv4Field(part).Some? then
      Some(Mask(ParseIPv4Field(parts[0]).value, ParseIPv4Field(parts[1]).value,
                ParseIPv4Field(parts[2]).value, ParseIPv4Field(parts[3]).value))
    else None
  }

  /** `maskToCIDR`: the prefix length as text, and "" for an unset mask. */
  function MaskToCidr(text: string): string {
    if text == "" then ""
    else match ParseIPv4(text)
      case Some(mask) => Decimal(Size(mask))
      case None => Decimal(0)
  }

  lemma PrintedOctet(v: Octet, position: nat)
    ensures ParseOctet(Decimal(v), position) == Ok(v)
    ensures ParseIPv4Field(Decimal(v)) == Some(v)
    ensures '.' !in Decimal(v)
  {
    DigitsValueOfDecimal(v);
    assert IsDigit(Decimal(v)[0]);
    forall c | c in Decimal(v)
      ensures c != '.'
    {
      assert IsDigit(c);
    }
  }

  /** The printed mask denotes the same mask again, for every four bytes. */
  lemma PrintedMaskDenotes(mask: Mask)
    ensures Denoted(Print(mask)) == Some(mask) && ParseIPv4(Print(mask)) == Some(mask)
  {
    PrintedOctet(mask.a, 0);
    PrintedOctet(mask.b, 1);
    PrintedOctet(mask.c, 2);
    PrintedOctet(mask.d, 3);
    SplitJoin([Decimal(mask.a), Decimal(mask.b), Decimal(mask.c), Decimal(mask.d)], '.');
  }

  /** The text stored after a mask is accepted is turned into its prefix length
      when the profile is written. */
  lemma StoredMaskBecomesPrefixLength(mask: Mask, n: nat)
    requires HasPrefixLength(mask, n)
    ensures MaskToCidr(Print(mask)) == Decimal(n)
  {
    PrintedMaskDenotes(mask);
    ValidFormatIsPrefix(mask);
    if Print(mask) == "" {
      SplitWithout("", '.');
    }
  }
}
