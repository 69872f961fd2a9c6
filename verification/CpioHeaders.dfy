/** CPIO member headers: newc with and without checksums, portable ASCII (odc), and
    binary in both byte orders; and the headers the writers print. */
module CpioHeaders {
  import opened Support
  import opened Sequences
  import opened CpioFields

  const NEWC_HEADER_BYTES: nat := 110
  const ODC_HEADER_BYTES: nat := 76
  const BINARY_HEADER_BYTES: nat := 26
  const MAGIC_NEWC: Bytes := [0x30, 0x37, 0x30, 0x37, 0x30, 0x31]
  const MAGIC_CRC: Bytes := [0x30, 0x37, 0x30, 0x37, 0x30, 0x32]
  const MAGIC_ODC: Bytes := [0x30, 0x37, 0x30, 0x37, 0x30, 0x37]
  const MAGIC_LARGE: Bytes := [0x30, 0x37, 0x30, 0x37, 0x30, 0x58]
  const BINARY_MAGIC: u16 := 0x71c7

  datatype CpioFormat = Newc | CrcNewc | Odc | BinaryLittleEndian | BinaryBigEndian | Mixed

  datatype Metadata = Metadata(
    inode: u32,
    mode: u32,
    uid: u32,
    gid: u32,
    linkCount: u32,
    modifiedTime: u64,
    deviceMajor: u32,
    deviceMinor: u32,
    rdevMajor: u32,
    rdevMinor: u32)

  datatype ParsedHeader = ParsedHeader(
    format: CpioFormat,
    headerBytes: nat,
    alignment: nat,
    meta: Metadata,
    fileSize: u64,
    nameSize: u64,
    checksum: Option<u32>)

  // ----- Parsing. The digit loops are `HexU32` and `OctalU64`.

  function Hex(bytes: Bytes, p: nat): (r: Result<u32>)
    ensures r.Failure? ==> r.error.Format?
  {
    var v := NumeralAt(bytes, p, 8, 16);
    Powers();
    if v.None? then Failure(Format(CpioFieldInvalid)) else Success(v.value)
  }

  function Octal(bytes: Bytes, p: nat, length: nat): (r: Result<u64>)
    requires length <= 11
    ensures r.Success? && length <= 6 ==> r.value < 0x4_0000
    ensures r.Failure? ==> r.error.Format?
  {
    var v := NumeralAt(bytes, p, length, 8);
    Powers();
    PowerGrows(8, length, if length <= 6 then 6 else 11);
    if v.None? then Failure(Format(CpioFieldInvalid)) else Success(v.value)
  }

  function NewcMetadata(bytes: Bytes, p: nat): (r: Result<Metadata>)
    ensures r.Failure? ==> r.error.Format?
  {
    var inode :- Hex(bytes, p + 6);
    var mode :- Hex(bytes, p + 14);
    var uid :- Hex(bytes, p + 22);
    var gid :- Hex(bytes, p + 30);
    var linkCount :- Hex(bytes, p + 38);
    var modifiedTime :- Hex(bytes, p + 46);
    var deviceMajor :- Hex(bytes, p + 62);
    var deviceMinor :- Hex(bytes, p + 70);
    var rdevMajor :- Hex(bytes, p + 78);
    var rdevMinor :- Hex(bytes, p + 86);
    Success(Metadata(inode, mode, uid, gid, linkCount, modifiedTime, deviceMajor, deviceMinor, rdevMajor, rdevMinor))
  }

  function NewcHeaderAt(bytes: Bytes, p: nat, hasChecksum: bool): (r: Result<ParsedHeader>)
    ensures r.Success? ==> HeaderShape(r.value)
    ensures r.Failure? ==> r.error.Format?
  {
    if p + NEWC_HEADER_BYTES > |bytes| then Failure(Format(CpioTruncated))
    else
      var checksum :- Hex(bytes, p + 102);
      if !hasChecksum && checksum != 0 then Failure(Format(CpioChecksumField))
      else
        var meta :- NewcMetadata(bytes, p);
        var fileSize :- Hex(bytes, p + 54);
        var nameSize :- Hex(bytes, p + 94);
        Success(ParsedHeader(if hasChecksum then CrcNewc else Newc, NEWC_HEADER_BYTES, 4, meta, fileSize, nameSize,
                             if hasChecksum then Some(checksum) else None))
  }

  function OdcMetadata(bytes: Bytes, p: nat): (r: Result<Metadata>)
    ensures r.Failure? ==> r.error.Format?
  {
    var device :- Octal(bytes, p + 6, 6);
    var rdev :- Octal(bytes, p + 42, 6);
    var inode :- Octal(bytes, p + 12, 6);
    var mode :- Octal(bytes, p + 18, 6);
    var uid :- Octal(bytes, p + 24, 6);
    var gid :- Octal(bytes, p + 30, 6);
    var linkCount :- Octal(bytes, p + 36, 6);
    var modifiedTime :- Octal(bytes, p + 48, 11);
    Success(Metadata(inode, mode, uid, gid, linkCount, modifiedTime, 0, device, 0, rdev))
  }

  function OdcHeaderAt(bytes: Bytes, p: nat): (r: Result<ParsedHeader>)
    ensures r.Success? ==> HeaderShape(r.value)
    ensures r.Failure? ==> r.error.Format?
  {
    if p + ODC_HEADER_BYTES > |bytes| then Failure(Format(CpioTruncated))
    else
      var meta :- OdcMetadata(bytes, p);
      var nameSize :- Octal(bytes, p + 59, 6);
      var fileSize :- Octal(bytes, p + 65, 11);
      Success(ParsedHeader(Odc, ODC_HEADER_BYTES, 1, meta, fileSize, nameSize, None))
  }

  /** Word k of a binary header, which is known to be there. */
  function Word(bytes: Bytes, p: nat, k: nat, littleEndian: bool): u16
    requires p + 2 * k + 2 <= |bytes|
  {
    WordAt(bytes, p + 2 * k, littleEndian).value
  }

  function BinaryHeaderAt(bytes: Bytes, p: nat, littleEndian: bool): (r: Result<ParsedHeader>)
    ensures r.Success? ==> HeaderShape(r.value)
    ensures r.Failure? ==> r.error.Format?
  {
    if p + BINARY_HEADER_BYTES > |bytes| then Failure(Format(CpioTruncated))
    else if Word(bytes, p, 0, littleEndian) != BINARY_MAGIC then Failure(Format(CpioMagicInvalid))
    else
      var meta := Metadata(
        Word(bytes, p, 2, littleEndian), Word(bytes, p, 3, littleEndian), Word(bytes, p, 4, littleEndian),
        Word(bytes, p, 5, littleEndian), Word(bytes, p, 6, littleEndian),
        CombineWords(Word(bytes, p, 8, littleEndian), Word(bytes, p, 9, littleEndian)),
        0, Word(bytes, p, 1, littleEndian), 0, Word(bytes, p, 7, littleEndian));
      Success(ParsedHeader(
        if littleEndian then BinaryLittleEndian else BinaryBigEndian, BINARY_HEADER_BYTES, 2, meta,
        CombineWords(Word(bytes, p, 11, littleEndian), Word(bytes, p, 12, littleEndian)),
        Word(bytes, p, 10, littleEndian), None))
  }

  predicate HeaderShape(h: ParsedHeader) {
    && h.format != Mixed
    && 0 < h.headerBytes <= NEWC_HEADER_BYTES
    && (h.alignment == 1 || h.alignment == 2 || h.alignment == 4)
    && h.fileSize <= 0x2_0000_0000 && h.nameSize <= 0x1_0000_0000
  }

  function HeaderAt(bytes: Bytes, p: nat): (r: Result<ParsedHeader>)
    ensures r.Success? ==> HeaderShape(r.value)
    ensures r.Failure? ==> r.error.Format? || r.error == UnsupportedFeature(LargeFileCpio)
  {
    if p + 2 > |bytes| then Failure(Format(CpioTruncated))
    else if WordAt(bytes, p, true) == Some(BINARY_MAGIC) then BinaryHeaderAt(bytes, p, true)
    else if WordAt(bytes, p, false) == Some(BINARY_MAGIC) then BinaryHeaderAt(bytes, p, false)
    else if p + 6 > |bytes| then Failure(Format(CpioTruncated))
    else
      var magic := bytes[p..p + 6];
      if magic == MAGIC_LARGE then Failure(UnsupportedFeature(LargeFileCpio))
      else if magic == MAGIC_NEWC || magic == MAGIC_CRC then NewcHeaderAt(bytes, p, magic == MAGIC_CRC)
      else if magic == MAGIC_ODC then OdcHeaderAt(bytes, p)
      else Failure(Format(CpioMagicInvalid))
  }

  // ----- Printing.

  /** Eight digits a field. */
  function HexBytes(values: seq<u32>): (bytes: Bytes)
    ensures |bytes| == 8 * |values|
  {
    if |values| == 0 then [] else HexBytes(values[..|values| - 1]) + Digits(values[|values| - 1], 8, 16)
  }

  lemma {:induction false} HexOf(bytes: Bytes, p: nat, values: seq<u32>, k: nat)
    requires At(bytes, p, HexBytes(values)) && k < |values|
    ensures Hex(bytes, p + 8 * k) == Success(values[k])
    decreases |values|
  {
    hide Digits, NumeralAt, Power;
    var n := |values| - 1;
    AtConcat(bytes, p, HexBytes(values[..n]), Digits(values[n], 8, 16));
    if k < n {
      HexOf(bytes, p, values[..n], k);
    } else {
      Powers();
      DigitsDenote(bytes, p + 8 * n, values[n], 8, 16);
    }
  }

  /** Printed numbers: metadata in the order of the fields, then the sizes. */
  function NewcValues(meta: Metadata, nameSize: u32, dataSize: u32, checksum: u32): seq<u32>
    requires NewcPrintable(meta)
  {
    [meta.inode, meta.mode, meta.uid, meta.gid, meta.linkCount, meta.modifiedTime, dataSize, meta.deviceMajor,
     meta.deviceMinor, meta.rdevMajor, meta.rdevMinor, nameSize, checksum]
  }

  predicate NewcPrintable(meta: Metadata) {
    meta.modifiedTime < 0x1_0000_0000
  }

  function NewcHeader(meta: Metadata, nameSize: u32, dataSize: u32, crc: bool, checksum: u32): (bytes: Bytes)
    requires NewcPrintable(meta)
    ensures |bytes| == 110
  {
    [0x30, 0x37, 0x30, 0x37, 0x30, if crc then 0x32 else 0x31]
    + HexBytes(NewcValues(meta, nameSize, dataSize, checksum))
  }

  /** Printed without checksums the field is zero. */
  lemma NewcHeaderRoundTrip(bytes: Bytes, p: nat, meta: Metadata, nameSize: u32, dataSize: u32, crc: bool,
                            checksum: u32)
    requires NewcPrintable(meta) && (crc || checksum == 0)
    requires At(bytes, p, NewcHeader(meta, nameSize, dataSize, crc, checksum))
    ensures HeaderAt(bytes, p)
      == Success(ParsedHeader(if crc then CrcNewc else Newc, 110, 4, meta, dataSize, nameSize,
                              if crc then Some(checksum) else None))
  {
    hide Hex, HexBytes, NewcMetadata;
    var magic := if crc then MAGIC_CRC else MAGIC_NEWC;
    var values := NewcValues(meta, nameSize, dataSize, checksum);
    AtConcat(bytes, p, magic, HexBytes(values));
    AtBounds(bytes, p, NewcHeader(meta, nameSize, dataSize, crc, checksum));
    TextMagic(bytes, p, magic);
    HexOf(bytes, p + 6, values, 6);
    HexOf(bytes, p + 6, values, 11);
    HexOf(bytes, p + 6, values, 12);
    NewcMetadataRoundTrip(bytes, p, meta, nameSize, dataSize, checksum);
  }

  lemma NewcMetadataRoundTrip(bytes: Bytes, p: nat, meta: Metadata, nameSize: u32, dataSize: u32, checksum: u32)
    requires NewcPrintable(meta) && At(bytes, p + 6, HexBytes(NewcValues(meta, nameSize, dataSize, checksum)))
    ensures NewcMetadata(bytes, p) == Success(meta)
  {
    hide Hex, HexBytes;
    var values := NewcValues(meta, nameSize, dataSize, checksum);
    HexOf(bytes, p + 6, values, 0);
    HexOf(bytes, p + 6, values, 1);
    HexOf(bytes, p + 6, values, 2);
    HexOf(bytes, p + 6, values, 3);
    HexOf(bytes, p + 6, values, 4);
    HexOf(bytes, p + 6, values, 5);
    HexOf(bytes, p + 6, values, 7);
    HexOf(bytes, p + 6, values, 8);
    HexOf(bytes, p + 6, values, 9);
    HexOf(bytes, p + 6, values, 10);
  }

  /** The text formats do not start with the binary magic. */
  lemma TextMagic(bytes: Bytes, p: nat, magic: Bytes)
    requires At(bytes, p, magic) && |magic| == 6 && magic[0] == 0x30 && magic[1] == 0x37
    ensures p + 6 <= |bytes| && bytes[p..p + 6] == magic
    ensures WordAt(bytes, p, true) != Some(BINARY_MAGIC) && WordAt(bytes, p, false) != Some(BINARY_MAGIC)
  {
    assert bytes[p] == bytes[p..p + 6][0] && bytes[p + 1] == bytes[p..p + 6][1];
  }

  predicate OdcPrintable(meta: Metadata) {
    && meta.deviceMajor == meta.rdevMajor == 0 && meta.deviceMinor < 0x4_0000 && meta.rdevMinor < 0x4_0000
    && meta.inode < 0x4_0000 && meta.mode < 0x4_0000 && meta.uid < 0x4_0000 && meta.gid < 0x4_0000
    && meta.linkCount < 0x4_0000 && meta.modifiedTime < 0x2_0000_0000
  }

  function OdcFields(meta: Metadata, nameSize: nat, dataSize: nat): seq<Field> {
    [Field(meta.deviceMinor, 6), Field(meta.inode, 6), Field(meta.mode, 6), Field(meta.uid, 6), Field(meta.gid, 6),
     Field(meta.linkCount, 6), Field(meta.rdevMinor, 6), Field(meta.modifiedTime, 11), Field(nameSize, 6),
     Field(dataSize, 11)]
  }

  function OdcHeader(meta: Metadata, nameSize: nat, dataSize: nat): Bytes {
    [0x30, 0x37, 0x30, 0x37, 0x30, 0x37] + FieldBytes(OdcFields(meta, nameSize, dataSize), 8)
  }

  lemma OdcOffsets(meta: Metadata, nameSize: nat, dataSize: nat)
    ensures
      var fields := OdcFields(meta, nameSize, dataSize);
      && WidthBefore(fields, 0) == 0 && WidthBefore(fields, 1) == 6 && WidthBefore(fields, 2) == 12
         && WidthBefore(fields, 3) == 18
      && WidthBefore(fields, 4) == 24 && WidthBefore(fields, 5) == 30 && WidthBefore(fields, 6) == 36
         && WidthBefore(fields, 7) == 42
      && WidthBefore(fields, 8) == 53 && WidthBefore(fields, 9) == 59 && WidthBefore(fields, 10) == 70
  {
    var fields := OdcFields(meta, nameSize, dataSize);
    hide WidthBefore;
    NoWidth(fields);
    NextWidth(fields, 0);
    NextWidth(fields, 1);
    NextWidth(fields, 2);
    NextWidth(fields, 3);
    NextWidth(fields, 4);
    NextWidth(fields, 5);
    NextWidth(fields, 6);
    NextWidth(fields, 7);
    NextWidth(fields, 8);
    NextWidth(fields, 9);
  }

  lemma OdcFieldsFit(meta: Metadata, nameSize: nat, dataSize: nat)
    requires OdcPrintable(meta) && nameSize < 0x4_0000 && dataSize < 0x2_0000_0000
    ensures FieldsFit(OdcFields(meta, nameSize, dataSize), 8)
  {
    hide Power;
    Powers();
  }

  lemma OdcField(bytes: Bytes, p: nat, meta: Metadata, nameSize: nat, dataSize: nat, k: nat)
    requires OdcPrintable(meta) && nameSize < 0x4_0000 && dataSize < 0x2_0000_0000 && k < 10
    requires At(bytes, p, FieldBytes(OdcFields(meta, nameSize, dataSize), 8))
    ensures
      var fields := OdcFields(meta, nameSize, dataSize);
      fields[k].width <= 11 && Octal(bytes, p + WidthBefore(fields, k), fields[k].width) == Success(fields[k].value)
  {
    hide FieldBytes, WidthBefore, NumeralAt, Power;
    OdcFieldsFit(meta, nameSize, dataSize);
    FieldAt(bytes, p, OdcFields(meta, nameSize, dataSize), 8, k);
    Powers();
  }

  lemma OdcHeaderRoundTrip(bytes: Bytes, p: nat, meta: Metadata, nameSize: nat, dataSize: nat)
    requires OdcPrintable(meta) && nameSize < 0x4_0000 && dataSize < 0x2_0000_0000
    requires At(bytes, p, OdcHeader(meta, nameSize, dataSize))
    ensures |OdcHeader(meta, nameSize, dataSize)| == 76
    ensures HeaderAt(bytes, p) == Success(ParsedHeader(Odc, 76, 1, meta, dataSize, nameSize, None))
  {
    hide Octal, FieldBytes, WidthBefore, OdcMetadata;
    var fields := OdcFields(meta, nameSize, dataSize);
    AtConcat(bytes, p, MAGIC_ODC, FieldBytes(fields, 8));
    AtBounds(bytes, p, OdcHeader(meta, nameSize, dataSize));
    FieldsLength(fields, 8);
    OdcOffsets(meta, nameSize, dataSize);
    TextMagic(bytes, p, MAGIC_ODC);
    OdcField(bytes, p + 6, meta, nameSize, dataSize, 8);
    OdcField(bytes, p + 6, meta, nameSize, dataSize, 9);
    OdcMetadataRoundTrip(bytes, p, meta, nameSize, dataSize);
  }

  lemma OdcMetadataRoundTrip(bytes: Bytes, p: nat, meta: Metadata, nameSize: nat, dataSize: nat)
    requires OdcPrintable(meta) && nameSize < 0x4_0000 && dataSize < 0x2_0000_0000
    requires At(bytes, p + 6, FieldBytes(OdcFields(meta, nameSize, dataSize), 8))
    ensures OdcMetadata(bytes, p) == Success(meta)
  {
    hide Octal, FieldBytes, WidthBefore;
    OdcOffsets(meta, nameSize, dataSize);
    OdcField(bytes, p + 6, meta, nameSize, dataSize, 0);
    OdcField(bytes, p + 6, meta, nameSize, dataSize, 1);
    OdcField(bytes, p + 6, meta, nameSize, dataSize, 2);
    OdcField(bytes, p + 6, meta, nameSize, dataSize, 3);
    OdcField(bytes, p + 6, meta, nameSize, dataSize, 4);
    OdcField(bytes, p + 6, meta, nameSize, dataSize, 5);
    OdcField(bytes, p + 6, meta, nameSize, dataSize, 6);
    OdcField(bytes, p + 6, meta, nameSize, dataSize, 7);
  }

  predicate BinaryPrintable(meta: Metadata) {
    && meta.deviceMajor == meta.rdevMajor == 0 && meta.deviceMinor < 0x1_0000 && meta.rdevMinor < 0x1_0000
    && meta.inode < 0x1_0000 && meta.mode < 0x1_0000 && meta.uid < 0x1_0000 && meta.gid < 0x1_0000
    && meta.linkCount < 0x1_0000 && meta.modifiedTime < 0x1_0000_0000
  }

  function BinaryWords(meta: Metadata, nameSize: u16, dataSize: u32): (words: seq<u16>)
    requires BinaryPrintable(meta)
    ensures |words| == 13
  {
    [0x71c7, meta.deviceMinor, meta.inode, meta.mode, meta.uid, meta.gid, meta.linkCount, meta.rdevMinor,
     meta.modifiedTime / 0x1_0000, meta.modifiedTime % 0x1_0000, nameSize, dataSize / 0x1_0000, dataSize % 0x1_0000]
  }

  function BinaryHeader(meta: Metadata, nameSize: u16, dataSize: u32, littleEndian: bool): (bytes: Bytes)
    requires BinaryPrintable(meta)
    ensures |bytes| == 26
  {
    WordsBytes(BinaryWords(meta, nameSize, dataSize), littleEndian)
  }

  lemma BinaryWord(bytes: Bytes, p: nat, meta: Metadata, nameSize: u16, dataSize: u32, littleEndian: bool, k: nat)
    requires BinaryPrintable(meta) && At(bytes, p, BinaryHeader(meta, nameSize, dataSize, littleEndian)) && k < 13
    ensures p + 26 <= |bytes| && Word(bytes, p, k, littleEndian) == BinaryWords(meta, nameSize, dataSize)[k]
  {
    hide WordsBytes;
    WordOf(bytes, p, BinaryWords(meta, nameSize, dataSize), littleEndian, k);
  }

  lemma BinaryHeaderRoundTrip(bytes: Bytes, p: nat, meta: Metadata, nameSize: u16, dataSize: u32, littleEndian: bool)
    requires BinaryPrintable(meta) && At(bytes, p, BinaryHeader(meta, nameSize, dataSize, littleEndian))
    ensures HeaderAt(bytes, p)
      == Success(ParsedHeader(if littleEndian then BinaryLittleEndian else BinaryBigEndian, 26, 2, meta, dataSize,
                              nameSize, None))
  {
    hide BinaryHeader, WordAt;
    forall k | 0 <= k < 13
      ensures p + 26 <= |bytes| && Word(bytes, p, k, littleEndian) == BinaryWords(meta, nameSize, dataSize)[k]
    {
      BinaryWord(bytes, p, meta, nameSize, dataSize, littleEndian, k);
    }
    BinaryMagics(bytes, p, littleEndian);
  }

  /** The large-file format is told apart from damage. */
  lemma LargeFilesUnsupported(bytes: Bytes, p: nat)
    requires At(bytes, p, [0x30, 0x37, 0x30, 0x37, 0x30, 0x58])
    ensures HeaderAt(bytes, p) == Failure(UnsupportedFeature(LargeFileCpio))
  {
    TextMagic(bytes, p, [0x30, 0x37, 0x30, 0x37, 0x30, 0x58]);
  }

  /** The two byte orders of the magic are told apart. */
  lemma BinaryMagics(bytes: Bytes, p: nat, littleEndian: bool)
    requires p + 2 <= |bytes| && Word(bytes, p, 0, littleEndian) == BINARY_MAGIC
    ensures WordAt(bytes, p, littleEndian) == Some(BINARY_MAGIC)
      && WordAt(bytes, p, !littleEndian) != Some(BINARY_MAGIC)
  {
  }

  // ----- Only printed headers are accepted.

  lemma HexShown(bytes: Bytes, p: nat)
    requires Hex(bytes, p).Success?
    ensures At(Lowered(bytes), p, Digits(Hex(bytes, p).value, 8, 16))
  {
    hide At, Digits, NumeralAt, Power, Lower;
    NumeralShown(bytes, p, 8, 16);
  }

  lemma {:induction false} HexesShown(bytes: Bytes, p: nat, values: seq<u32>)
    requires p <= |bytes| && forall k :: 0 <= k < |values| ==> Hex(bytes, p + 8 * k) == Success(values[k])
    ensures At(Lowered(bytes), p, HexBytes(values))
    decreases |values|
  {
    hide At, Hex, Digits, Lower;
    if |values| == 0 {
      AtNothing(Lowered(bytes), p);
    } else {
      var n := |values| - 1;
      HexesShown(bytes, p, values[..n]);
      assert Hex(bytes, p + 8 * n) == Success(values[n]);
      HexShown(bytes, p + 8 * n);
      AtConcat(Lowered(bytes), p, HexBytes(values[..n]), Digits(values[n], 8, 16));
    }
  }

  lemma MagicShown(bytes: Bytes, p: nat, magic: Bytes)
    requires p + 6 <= |bytes| && bytes[p..p + 6] == magic && forall i :: 0 <= i < 6 ==> 0x30 <= magic[i] <= 0x39
    ensures At(Lowered(bytes), p, magic)
  {
    forall i | 0 <= i < 6 ensures Lowered(bytes)[p + i] == magic[i] {
      assert bytes[p + i] == bytes[p..p + 6][i];
    }
    assert Lowered(bytes)[p..p + 6] == magic;
  }

  /** An accepted newc header is the printed one, up to the case of its digits. */
  lemma NewcHeaderPrinted(bytes: Bytes, p: nat)
    requires HeaderAt(bytes, p).Success? && HeaderAt(bytes, p).value.format in {Newc, CrcNewc}
    ensures
      var h := HeaderAt(bytes, p).value;
      var crc := h.format == CrcNewc;
      && NewcPrintable(h.meta) && h.fileSize < 0x1_0000_0000 && h.nameSize < 0x1_0000_0000
      && h.headerBytes == 110 && h.alignment == 4 && h.checksum.Some? == crc
      && At(Lowered(bytes), p,
            NewcHeader(h.meta, h.nameSize, h.fileSize, crc, if crc then h.checksum.value else 0))
  {
    hide Hex, OdcHeaderAt, BinaryHeaderAt, WordAt, Lower, HexBytes, At;
    var h := HeaderAt(bytes, p).value;
    var crc := h.format == CrcNewc;
    NotOtherFormats(bytes, p);
    var magic := if crc then MAGIC_CRC else MAGIC_NEWC;
    var values := NewcValues(h.meta, h.nameSize, h.fileSize, if crc then h.checksum.value else 0);
    forall k | 0 <= k < 13 ensures Hex(bytes, p + 6 + 8 * k) == Success(values[k]) {
      match k
      case 0 =>
      case 1 =>
      case 2 =>
      case 3 =>
      case 4 =>
      case 5 =>
      case 6 =>
      case 7 =>
      case 8 =>
      case 9 =>
      case 10 =>
      case 11 =>
      case _ =>
    }
    MagicShown(bytes, p, magic);
    HexesShown(bytes, p + 6, values);
    AtConcat(Lowered(bytes), p, magic, HexBytes(values));
  }

  lemma NotOtherFormats(bytes: Bytes, p: nat)
    ensures OdcHeaderAt(bytes, p).Success? ==> OdcHeaderAt(bytes, p).value.format == Odc
    ensures forall little :: BinaryHeaderAt(bytes, p, little).Success? ==>
      BinaryHeaderAt(bytes, p, little).value.format == if little then BinaryLittleEndian else BinaryBigEndian
    ensures forall crc :: NewcHeaderAt(bytes, p, crc).Success? ==>
      NewcHeaderAt(bytes, p, crc).value.format == if crc then CrcNewc else Newc
  {
    hide Hex, Octal, Word, NewcMetadata, OdcMetadata;
  }

  lemma OctalRead(bytes: Bytes, p: nat, width: nat)
    requires width <= 11 && Octal(bytes, p, width).Success?
    ensures NumeralAt(bytes, p, width, 8) == Some(Octal(bytes, p, width).value)
    ensures width == 6 ==> Octal(bytes, p, width).value < 0x4_0000
    ensures width == 11 ==> Octal(bytes, p, width).value < 0x2_0000_0000
  {
    hide Power;
    Powers();
  }

  /** An accepted portable ASCII header is the printed one. */
  lemma OdcHeaderPrinted(bytes: Bytes, p: nat)
    requires HeaderAt(bytes, p).Success? && HeaderAt(bytes, p).value.format == Odc
    ensures
      var h := HeaderAt(bytes, p).value;
      && OdcPrintable(h.meta) && h.headerBytes == 76 && h.alignment == 1 && h.checksum.None?
      && At(Lowered(bytes), p, OdcHeader(h.meta, h.nameSize, h.fileSize))
  {
    hide Octal, NewcHeaderAt, BinaryHeaderAt, WordAt, Lower, FieldBytes, WidthBefore, NumeralAt, At;
    NotOtherFormats(bytes, p);
    var h := HeaderAt(bytes, p).value;
    var fields := OdcFields(h.meta, h.nameSize, h.fileSize);
    OdcOffsets(h.meta, h.nameSize, h.fileSize);
    OctalRead(bytes, p + 6, 6);
    OctalRead(bytes, p + 12, 6);
    OctalRead(bytes, p + 18, 6);
    OctalRead(bytes, p + 24, 6);
    OctalRead(bytes, p + 30, 6);
    OctalRead(bytes, p + 36, 6);
    OctalRead(bytes, p + 42, 6);
    OctalRead(bytes, p + 48, 11);
    OctalRead(bytes, p + 59, 6);
    OctalRead(bytes, p + 65, 11);
    MagicShown(bytes, p, MAGIC_ODC);
    FieldsShown(bytes, p + 6, fields, 10);
    assert fields[..10] == fields;
    AtConcat(Lowered(bytes), p, MAGIC_ODC, FieldBytes(fields, 8));
  }

  lemma WordRead(bytes: Bytes, p: nat, k: nat, littleEndian: bool)
    requires p + 26 <= |bytes| && k < 13
    ensures WordAt(bytes, p + 2 * k, littleEndian) == Some(Word(bytes, p, k, littleEndian))
  {
  }

  /** An accepted binary header is the printed one. */
  lemma BinaryHeaderPrinted(bytes: Bytes, p: nat, littleEndian: bool)
    requires HeaderAt(bytes, p).Success?
      && HeaderAt(bytes, p).value.format == if littleEndian then BinaryLittleEndian else BinaryBigEndian
    ensures
      var h := HeaderAt(bytes, p).value;
      && BinaryPrintable(h.meta) && h.fileSize < 0x1_0000_0000 && h.nameSize < 0x1_0000
      && h.headerBytes == 26 && h.alignment == 2 && h.checksum.None?
      && At(bytes, p, BinaryHeader(h.meta, h.nameSize, h.fileSize, littleEndian))
  {
    hide NewcHeaderAt, OdcHeaderAt, Word, WordAt, WordsBytes, At;
    NotOtherFormats(bytes, p);
    var h := HeaderAt(bytes, p).value;
    assert BinaryHeaderAt(bytes, p, littleEndian) == Success(h);
    var words := BinaryWords(h.meta, h.nameSize, h.fileSize);
    forall k | 0 <= k < 13 ensures WordAt(bytes, p + 2 * k, littleEndian) == Some(words[k]) {
      WordRead(bytes, p, k, littleEndian);
    }
    WordsShown(bytes, p, words, littleEndian);
  }
}
