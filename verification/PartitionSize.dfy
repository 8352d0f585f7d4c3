/** Size arithmetic of the installation disk: `pkg/util/disk.go`,
    `pkg/util/common.go`, the shared-disk layout of `pkg/config/cos.go` and the
    disk checks of `pkg/console/util.go`. Sizes are Go `uint64` values, so every
    product and difference wraps. */
module PartitionSize {
  import opened Wrappers
  import opened Strings

  type Uint64 = n: nat | n < 0x1_0000_0000_0000_0000

  const MIB: nat := 0x10_0000
  const GIB: nat := 0x4000_0000

  const MIN_DISK: nat := 250 * GIB
  const MIN_PERSISTENT: nat := 150 * GIB

  const OEM_MIB: nat := 50
  const STATE_MIB: nat := 15360
  const RECOVERY_MIB: nat := 8192
  const ESP_MIB: nat := 64
  const VM_DATA_MIB: nat := 51200

  /** Everything on the installation disk besides the persistent partition. */
  const FIXED_OCCUPIED: nat := (50 + 15360 + 8192 + 64 + 51200) * MIB

  function Wrap(n: int): Uint64 {
    n % UINT64_LIMIT
  }

  function ByteToGi(b: Uint64): Uint64 { b / GIB }
  function ByteToMi(b: Uint64): Uint64 { b / MIB }
  function GiToByte(gi: Uint64): Uint64 { Wrap(gi * GIB) }

  datatype SizeError =
    | DiskTooSmall
    | BadFormat
    | NotANumber
    | PartitionTooSmall
    | PartitionTooLarge(maximumGi: Uint64)

  /** The pattern `^(\d+)(Mi|Gi)$`. */
  predicate MatchesSizePattern(text: string) {
    |text| >= 3 && AllDigits(text[..|text| - 2]) && (text[|text| - 2..] == "Mi" || text[|text| - 2..] == "Gi")
  }

  function Unit(text: string): nat
    requires MatchesSizePattern(text)
  {
    if text[|text| - 2..] == "Mi" then MIB else GIB
  }

  function ParsePartitionBytes(text: string): Result<Uint64, SizeError> {
    if !MatchesSizePattern(text) then Err(BadFormat)
    else match ParseUint64(text[..|text| - 2])
      case None => Err(NotANumber)
      case Some(size) => Ok(Wrap(size * Unit(text)))
  }

  function ParsePartitionSize(diskBytes: Uint64, text: string, skipChecks: bool): Result<Uint64, SizeError> {
    if !skipChecks && diskBytes < MIN_DISK then Err(DiskTooSmall)
    else match ParsePartitionBytes(text)
      case Err(e) => Err(e)
      case Ok(partition) =>
        if !skipChecks && partition < MIN_PERSISTENT then Err(PartitionTooSmall)
        else
          var available := Wrap(diskBytes - FIXED_OCCUPIED);
          if partition > available then
            if skipChecks then Ok(available) else Err(PartitionTooLarge(ByteToGi(available)))
          else Ok(partition)
  }

  /** The number of bytes a size text spells, without any 64-bit limit. */
  function Written(text: string): nat
    requires MatchesSizePattern(text)
  {
    DigitsValue(text[..|text| - 2]) * Unit(text)
  }

  // ----- The partition layout of a disk shared with VM data

  datatype Layout = Layout(oem: nat, state: nat, recovery: nat, persistent: Uint64) {
    /** MiB taken by the partitions, the boot partition and the VM data area. */
    function Occupied(): nat {
      oem + state + recovery + persistent + ESP_MIB + VM_DATA_MIB
    }
  }

  function CalcCosPersistentPartSize(diskGi: Uint64, text: string, skipChecks: bool): Result<Uint64, SizeError> {
    match ParsePartitionSize(GiToByte(diskGi), text, skipChecks)
    case Err(e) => Err(e)
    case Ok(size) => Ok(ByteToMi(size))
  }

  function SharedDiskLayout(diskBytes: Uint64, persistentSize: string, skipChecks: bool): Result<Layout, SizeError> {
    var text := if persistentSize == "" then Decimal(150) + "Gi" else persistentSize;
    match CalcCosPersistentPartSize(ByteToGi(diskBytes), text, skipChecks)
    case Err(e) => Err(e)
    case Ok(persistent) => Ok(Layout(OEM_MIB, STATE_MIB, RECOVERY_MIB, persistent))
  }

  lemma TruncatedDisk(diskBytes: Uint64)
    ensures GiToByte(ByteToGi(diskBytes)) == diskBytes - diskBytes % GIB
  {
  }

  /** Whatever is accepted with the checks on lies between the minimum and what
      the disk leaves, and the whole layout then fits on the disk. */
  lemma AcceptedLayoutFits(diskBytes: Uint64, persistentSize: string)
    requires SharedDiskLayout(diskBytes, persistentSize, false).Ok?
    ensures var layout := SharedDiskLayout(diskBytes, persistentSize, false).value;
      layout.Occupied() * MIB <= diskBytes && layout.persistent >= 150 * 1024
  {
    TruncatedDisk(diskBytes);
  }

  /** Without the checks the layout fits exactly when the disk truncated to GiB
      can hold the fixed partitions at all: below that the subtraction wraps. */
  lemma UncheckedLayoutFits(diskBytes: Uint64, persistentSize: string)
    requires SharedDiskLayout(diskBytes, persistentSize, true).Ok?
    ensures SharedDiskLayout(diskBytes, persistentSize, true).value.Occupied() * MIB
              <= GiToByte(ByteToGi(diskBytes))
            <==> GiToByte(ByteToGi(diskBytes)) >= FIXED_OCCUPIED
  {
    TruncatedDisk(diskBytes);
  }

  /** What the checks ask of disk and size. */
  lemma SizeAccepted(diskBytes: Uint64, text: string)
    ensures var bytes, r := ParsePartitionBytes(text), ParsePartitionSize(diskBytes, text, false);
      && (r.Ok? <==> && diskBytes >= MIN_DISK && bytes.Ok?
                     && MIN_PERSISTENT <= bytes.value <= diskBytes - FIXED_OCCUPIED)
      && (r.Ok? ==> r == bytes)
  {
  }

  /** The layout works on the disk truncated to GiB, the wizard on the exact
      size. A size the layout accepts is accepted by the wizard, as the same
      number of bytes. A size the wizard accepts is accepted by the layout if
      and only if it leaves room below the last whole GiB. */
  lemma WizardAgainstLayout(diskBytes: Uint64, text: string)
    requires text != ""
    ensures var exact := ParsePartitionSize(diskBytes, text, false);
            var layout := SharedDiskLayout(diskBytes, text, false);
      && (layout.Ok? ==> exact.Ok? && layout.value.persistent == ByteToMi(exact.value))
      && (exact.Ok? ==> (layout.Ok? <==> exact.value + FIXED_OCCUPIED <= diskBytes - diskBytes % GIB))
  {
    TruncatedDisk(diskBytes);
    SizeAccepted(diskBytes, text);
    SizeAccepted(diskBytes - diskBytes % GIB, text);
  }

  /** The gap is real: on a disk of 300 GiB and 1 MiB the wizard takes a
      persistent size that the layout then refuses. */
  lemma WizardAcceptsWhatLayoutRefuses()
    ensures ParsePartitionSize(300 * GIB + MIB, Decimal(232335) + "Mi", false) == Ok(232335 * MIB)
    ensures SharedDiskLayout(300 * GIB + MIB, Decimal(232335) + "Mi", false) == Err(PartitionTooLarge(226))
  {
    PrintedSize(232335, "Mi");
    TruncatedDisk(300 * GIB + MIB);
  }

  /** A printed number with a unit spells that many units. */
  lemma PrintedSize(n: nat, unit: string)
    requires unit == "Mi" || unit == "Gi"
    ensures var text := Decimal(n) + unit;
      MatchesSizePattern(text) && text[..|text| - 2] == Decimal(n)
      && Written(text) == n * (if unit == "Mi" then MIB else GIB)
  {
    var text := Decimal(n) + unit;
    assert text[..|text| - 2] == Decimal(n) && text[|text| - 2..] == unit;
    DigitsValueOfDecimal(n);
  }

  lemma ParsedSize(n: Uint64, unit: string)
    requires unit == "Mi" || unit == "Gi"
    ensures Decimal(n) + unit != ""
    ensures ParsePartitionBytes(Decimal(n) + unit) == Ok(Wrap(n * (if unit == "Mi" then MIB else GIB)))
  {
    PrintedSize(n, unit);
    DigitsValueOfDecimal(n);
  }

  /** An accepted size is the one the user wrote if and only if what was written
      is below 2^64 bytes; above, the product wraps. */
  lemma AcceptedSizeIsWritten(diskBytes: Uint64, text: string)
    requires ParsePartitionSize(diskBytes, text, false).Ok?
    ensures MatchesSizePattern(text)
    ensures ParsePartitionSize(diskBytes, text, false).value == Written(text) <==> Written(text) < UINT64_LIMIT
  {
  }

  /** Writing 2^34 GiB more never changes the outcome, so a size far beyond any
      disk is accepted whenever the size it wraps to is. */
  lemma OversizedTextIsAcceptedToo(diskBytes: Uint64, n: Uint64, skipChecks: bool)
    requires n + 0x4_0000_0000 < UINT64_LIMIT
    ensures ParsePartitionSize(diskBytes, Decimal(n + 0x4_0000_0000) + "Gi", skipChecks)
         == ParsePartitionSize(diskBytes, Decimal(n) + "Gi", skipChecks)
  {
    ParsedSize(n, "Gi");
    ParsedSize(n + 0x4_0000_0000, "Gi");
    WrapsAround(n);
  }

  lemma WrapsAround(n: nat)
    ensures Wrap((n + 0x4_0000_0000) * GIB) == Wrap(n * GIB)
  {
  }

  // ----- The default persistent size offered by the wizard

  /** `product` may be the truncated floating-point product of `bytes` and 0.3:
      the true product give or take the rounding of the two operands and of the
      multiplication. */
  predicate IsThirtyPercent(bytes: Uint64, product: Uint64) {
    var error := bytes / 0x100_0000_0000 + 10;
    3 * bytes - error <= 10 * product <= 3 * bytes + error
  }

  function DefaultPersistentGi(product: Uint64): Uint64 {
    if ByteToGi(product) < 150 then 150 else ByteToGi(product)
  }

  /** On every disk the installer accepts, the offered default reads back as
      what was printed and passes both the wizard's check and the layout. */
  lemma DefaultSizeIsAccepted(diskBytes: Uint64, product: Uint64)
    requires diskBytes >= MIN_DISK && IsThirtyPercent(diskBytes, product)
    ensures var n := DefaultPersistentGi(product);
            var text := Decimal(n) + "Gi";
      && ParsePartitionSize(diskBytes, text, false) == Ok(n * GIB)
      && SharedDiskLayout(diskBytes, text, false) == Ok(Layout(OEM_MIB, STATE_MIB, RECOVERY_MIB, n * 1024))
  {
    var n := DefaultPersistentGi(product);
    DefaultSizeBounds(diskBytes, product);
    TruncatedDisk(diskBytes);
    PrintedGiIsAccepted(diskBytes, n);
    PrintedGiIsAccepted(diskBytes - diskBytes % GIB, n);
  }

  lemma PrintedGiIsAccepted(diskBytes: Uint64, n: Uint64)
    requires diskBytes >= MIN_DISK && 150 <= n && n * GIB < UINT64_LIMIT && n * GIB + FIXED_OCCUPIED <= diskBytes
    ensures Decimal(n) + "Gi" != ""
    ensures ParsePartitionSize(diskBytes, Decimal(n) + "Gi", false) == Ok(n * GIB)
  {
    ParsedSize(n, "Gi");
    WrapIsIdentity(n * GIB);
    WrapIsIdentity(diskBytes - FIXED_OCCUPIED);
  }

  lemma WrapIsIdentity(n: int)
    requires 0 <= n < UINT64_LIMIT
    ensures Wrap(n) == n
  {
  }

  lemma DefaultSizeBounds(diskBytes: Uint64, product: Uint64)
    requires diskBytes >= MIN_DISK && IsThirtyPercent(diskBytes, product)
    ensures var n := DefaultPersistentGi(product);
      150 <= n && n * GIB < UINT64_LIMIT && n * GIB + FIXED_OCCUPIED <= diskBytes - diskBytes % GIB
  {
    var n := DefaultPersistentGi(product);
    assert n == 150 || n * GIB <= product;
    assert 10 * product <= 4 * diskBytes;
  }
}
