/** CPIO images as the writers lay them out, and the parser inverting them. */
module CpioWriter {
  import opened Support
  import opened Sequences
  import opened CpioFields
  import opened CpioHeaders
  import opened CpioEntries

  datatype Writer = NewcWriter(crc: bool) | OdcWriter | BinaryWriter(littleEndian: bool)

  datatype Item = Item(name: Bytes, data: Bytes, meta: Metadata)

  /** An item with the format its record is written in. */
  datatype Piece = Piece(writer: Writer, item: Item)

  function FormatOf(w: Writer): CpioFormat {
    match w
    case NewcWriter(crc) => if crc then CrcNewc else Newc
    case OdcWriter => Odc
    case BinaryWriter(littleEndian) => if littleEndian then BinaryLittleEndian else BinaryBigEndian
  }

  function HeaderSize(w: Writer): nat {
    match w
    case NewcWriter(_) => 110
    case OdcWriter => 76
    case BinaryWriter(_) => 26
  }

  function Alignment(w: Writer): (a: nat)
    ensures a == 1 || a == 2 || a == 4
  {
    match w
    case NewcWriter(_) => 4
    case OdcWriter => 1
    case BinaryWriter(_) => 2
  }

  /** Metadata, name and data sizes fit the format's fields. */
  predicate FieldSized(w: Writer, item: Item) {
    match w
    case NewcWriter(_) =>
      NewcPrintable(item.meta) && |item.name| + 1 < 0x1_0000_0000 && |item.data| < 0x1_0000_0000
    case OdcWriter => OdcPrintable(item.meta) && |item.name| + 1 < 0x4_0000 && |item.data| < 0x2_0000_0000
    case BinaryWriter(_) =>
      BinaryPrintable(item.meta) && |item.name| + 1 < 0x1_0000 && |item.data| < 0x1_0000_0000
  }

  function ChecksumOf(w: Writer, data: Bytes): Option<u32> {
    if w.NewcWriter? && w.crc then Some(ByteSum(data)) else None
  }

  function HeaderFor(w: Writer, item: Item): Bytes
    requires FieldSized(w, item)
  {
    match w
    case NewcWriter(crc) =>
      NewcHeader(item.meta, |item.name| + 1, |item.data|, crc, if crc then ByteSum(item.data) else 0)
    case OdcWriter => OdcHeader(item.meta, |item.name| + 1, |item.data|)
    case BinaryWriter(littleEndian) => BinaryHeader(item.meta, |item.name| + 1, |item.data|, littleEndian)
  }

  function Zeros(n: nat): (zeros: Bytes)
    ensures |zeros| == n
  {
    seq(n, _ => 0)
  }

  function Padding(length: nat, alignment: nat): Bytes
    requires alignment > 0
  {
    Zeros(AlignUp(length, alignment) - length)
  }

  // ----- One record, written at a position.

  function NameEnd(w: Writer, start: nat, item: Item): nat {
    start + HeaderSize(w) + |item.name| + 1
  }

  function DataStart(w: Writer, start: nat, item: Item): nat {
    AlignUp(NameEnd(w, start, item), Alignment(w))
  }

  function RecordBytes(w: Writer, start: nat, item: Item): Bytes
    requires FieldSized(w, item)
  {
    var dataEnd := DataStart(w, start, item) + |item.data|;
    HeaderFor(w, item) + (item.name + ([0] + (Padding(NameEnd(w, start, item), Alignment(w))
      + (item.data + Padding(dataEnd, Alignment(w))))))
  }

  function RecordEnd(w: Writer, start: nat, item: Item): nat {
    AlignUp(DataStart(w, start, item) + |item.data|, Alignment(w))
  }

  function HeaderOf(w: Writer, item: Item): ParsedHeader {
    ParsedHeader(FormatOf(w), HeaderSize(w), Alignment(w), item.meta,
                 if |item.data| <= U64_MAX then |item.data| else 0, if |item.name| < U64_MAX then |item.name| + 1
                 else 0, ChecksumOf(w, item.data))
  }

  lemma HeaderRoundTrip(payload: Bytes, p: nat, w: Writer, item: Item)
    requires FieldSized(w, item) && At(payload, p, HeaderFor(w, item))
    ensures |HeaderFor(w, item)| == HeaderSize(w)
    ensures HeaderAt(payload, p) == Success(HeaderOf(w, item))
  {
    hide HeaderAt, NewcHeader, OdcHeader, BinaryHeader, ByteSum;
    match w
    case NewcWriter(crc) =>
      NewcHeaderRoundTrip(payload, p, item.meta, |item.name| + 1, |item.data|, crc,
                          if crc then ByteSum(item.data) else 0);
    case OdcWriter =>
      OdcHeaderRoundTrip(payload, p, item.meta, |item.name| + 1, |item.data|);
    case BinaryWriter(littleEndian) =>
      BinaryHeaderRoundTrip(payload, p, item.meta, |item.name| + 1, |item.data|, littleEndian);
  }

  lemma ZerosRead(payload: Bytes, p: nat, n: nat)
    requires At(payload, p, Zeros(n))
    ensures p + n <= |payload| && AllZero(payload, p, p + n)
  {
    forall i | p <= i < p + n ensures payload[i] == 0 {
      assert payload[i] == payload[p..p + n][i - p];
    }
  }

  lemma PaddingRoundTrip(payload: Bytes, p: nat, alignment: nat)
    requires alignment > 0 && At(payload, p, Padding(p, alignment))
    ensures PaddingAt(payload, p, alignment) == Success(AlignUp(p, alignment))
  {
    hide AlignUp, Zeros;
    ZerosRead(payload, p, AlignUp(p, alignment) - p);
  }

  lemma NameRoundTrip(payload: Bytes, p: nat, name: Bytes)
    requires At(payload, p, name) && At(payload, p + |name|, [0]) && 0 !in name
    ensures NameAt(payload, p, |name| + 1) == Success(name)
  {
    AtOne(payload, p + |name|, 0);
  }

  /** The parts of a written record, where they stand. */
  lemma RecordParts(payload: Bytes, p: nat, w: Writer, item: Item)
    requires FieldSized(w, item) && At(payload, p, RecordBytes(w, p, item))
    ensures
      var nameStart := p + |HeaderFor(w, item)|;
      var nameEnd := nameStart + |item.name| + 1;
      && At(payload, p, HeaderFor(w, item)) && At(payload, nameStart, item.name) && At(payload, nameEnd - 1, [0])
    ensures
      var nameEnd := p + |HeaderFor(w, item)| + |item.name| + 1;
      var first := Padding(NameEnd(w, p, item), Alignment(w));
      && At(payload, nameEnd, first)
      && At(payload, nameEnd + |first|, item.data)
      && At(payload, nameEnd + |first| + |item.data|, Padding(DataStart(w, p, item) + |item.data|, Alignment(w)))
  {
    hide HeaderFor, Padding, DataStart, At;
    var last := Padding(DataStart(w, p, item) + |item.data|, Alignment(w));
    var first := Padding(NameEnd(w, p, item), Alignment(w));
    var header := HeaderFor(w, item);
    AtConcat(payload, p, header, item.name + ([0] + (first + (item.data + last))));
    AtConcat(payload, p + |header|, item.name, [0] + (first + (item.data + last)));
    AtConcat(payload, p + |header| + |item.name|, [0], first + (item.data + last));
    AtConcat(payload, p + |header| + |item.name| + 1, first, item.data + last);
    AtConcat(payload, p + |header| + |item.name| + 1 + |first|, item.data, last);
  }

  lemma HeaderFields(w: Writer, item: Item)
    requires FieldSized(w, item)
    ensures HeaderShape(HeaderOf(w, item)) && Alignment(w) > 0
    ensures HeaderOf(w, item).headerBytes == HeaderSize(w) && HeaderOf(w, item).alignment == Alignment(w)
    ensures HeaderOf(w, item).nameSize == |item.name| + 1 && HeaderOf(w, item).fileSize == |item.data|
  {
  }

  lemma RecordStep(payload: Bytes, p: nat, h: ParsedHeader, name: Bytes, start: nat, end: nat)
    requires HeaderShape(h) && NameAt(payload, p + h.headerBytes, h.nameSize) == Success(name)
    requires PaddingAt(payload, p + h.headerBytes + h.nameSize, h.alignment) == Success(start)
    requires start + h.fileSize <= |payload| && PaddingAt(payload, start + h.fileSize, h.alignment) == Success(end)
    ensures RecordAt(payload, p, h) == Success(Record(name, start, start + h.fileSize, end))
  {
    hide NameAt, PaddingAt;
  }

  /** Whatever stands before and after it, a written record reads back whole. */
  lemma RecordRoundTrip(payload: Bytes, p: nat, w: Writer, item: Item)
    requires FieldSized(w, item) && 0 !in item.name && At(payload, p, RecordBytes(w, p, item))
    ensures HeaderAt(payload, p) == Success(HeaderOf(w, item)) && HeaderShape(HeaderOf(w, item))
    ensures
      var start := DataStart(w, p, item);
      && RecordAt(payload, p, HeaderOf(w, item))
           == Success(Record(item.name, start, start + |item.data|, RecordEnd(w, p, item)))
      && start + |item.data| <= |payload| && payload[start..start + |item.data|] == item.data
  {
    hide HeaderAt, HeaderFor, RecordBytes, NameAt, PaddingAt, Padding, AlignUp, RecordAt;
    hide HeaderOf, HeaderShape, FieldSized, HeaderSize, Alignment;
    HeaderFields(w, item);
    RecordParts(payload, p, w, item);
    HeaderRoundTrip(payload, p, w, item);
    var nameStart := p + HeaderSize(w);
    var nameEnd := nameStart + |item.name| + 1;
    NameRoundTrip(payload, nameStart, item.name);
    PaddingRoundTrip(payload, nameEnd, Alignment(w));
    PaddingLength(nameEnd, Alignment(w));
    var start := DataStart(w, p, item);
    AtBounds(payload, start, item.data);
    PaddingRoundTrip(payload, start + |item.data|, Alignment(w));
    RecordStep(payload, p, HeaderOf(w, item), item.name, start, RecordEnd(w, p, item));
  }

  lemma PaddingLength(length: nat, alignment: nat)
    requires alignment > 0
    ensures length + |Padding(length, alignment)| == AlignUp(length, alignment)
  {
  }

  lemma RecordLength(w: Writer, start: nat, item: Item)
    requires FieldSized(w, item)
    ensures start + |RecordBytes(w, start, item)| == RecordEnd(w, start, item)
  {
    hide AlignUp, Padding, HeaderFor, HeaderAt;
    AtWhole(HeaderFor(w, item), []);
    assert HeaderFor(w, item) + [] == HeaderFor(w, item);
    HeaderRoundTrip(HeaderFor(w, item), 0, w, item);
    PaddingLength(NameEnd(w, start, item), Alignment(w));
    PaddingLength(DataStart(w, start, item) + |item.data|, Alignment(w));
  }

  // ----- The image.

  /** TRAILER!!!, without data or metadata. */
  const TRAILER_ITEM: Item := Item([0x54, 0x52, 0x41, 0x49, 0x4c, 0x45, 0x52, 0x21, 0x21, 0x21], [],
                                   Metadata(0, 0, 0, 0, 0, 0, 0, 0, 0, 0))

  predicate Writable(pieces: seq<Piece>) {
    forall i :: 0 <= i < |pieces| ==>
      && FieldSized(pieces[i].writer, pieces[i].item)
      && 0 !in pieces[i].item.name && pieces[i].item.name != TRAILER
  }

  /** The records of the first k items. */
  function Written(pieces: seq<Piece>, k: nat): Bytes
    requires Writable(pieces) && k <= |pieces|
  {
    if k == 0 then []
    else
      var before := Written(pieces, k - 1);
      before + RecordBytes(pieces[k - 1].writer, |before|, pieces[k - 1].item)
  }

  /** All records and the trailer's. */
  function Image(pieces: seq<Piece>, w: Writer): Bytes
    requires Writable(pieces)
  {
    var records := Written(pieces, |pieces|);
    records + RecordBytes(w, |records|, TRAILER_ITEM)
  }

  lemma {:induction false} RecordInPlace(pieces: seq<Piece>, n: nat, k: nat, rest: Bytes)
    requires Writable(pieces) && k < n <= |pieces|
    ensures At(Written(pieces, n) + rest, |Written(pieces, k)|,
               RecordBytes(pieces[k].writer, |Written(pieces, k)|, pieces[k].item))
    decreases n
  {
    hide RecordBytes;
    var before := Written(pieces, n - 1);
    var last := RecordBytes(pieces[n - 1].writer, |before|, pieces[n - 1].item);
    assert Written(pieces, n) + rest == before + (last + rest);
    if k < n - 1 {
      RecordInPlace(pieces, n - 1, k, last + rest);
    } else {
      AtWhole(last, rest);
      Shifted(before, last + rest, last);
    }
  }

  lemma Shifted<T>(before: seq<T>, s: seq<T>, word: seq<T>)
    requires At(s, 0, word)
    ensures At(before + s, |before|, word)
  {
    assert (before + s)[|before|..|before| + |word|] == s[0..|word|];
  }

  // ----- Limits, and the state after k records.

  function NameTotal(pieces: seq<Piece>, k: nat): nat
    requires k <= |pieces|
  {
    if k == 0 then 0 else NameTotal(pieces, k - 1) + |pieces[k - 1].item.name|
  }

  function HeaderTotal(pieces: seq<Piece>, k: nat): nat
    requires k <= |pieces|
  {
    if k == 0 then 0 else HeaderTotal(pieces, k - 1) + HeaderSize(pieces[k - 1].writer) + |pieces[k - 1].item.name| + 1
  }

  predicate Allowed(pieces: seq<Piece>, w: Writer, limits: Limits) {
    && |pieces| <= limits.maxFiles
    && NameTotal(pieces, |pieces|) <= limits.maxTotalNameBytes
    && HeaderTotal(pieces, |pieces|) + HeaderSize(w) + |TRAILER| + 1 <= limits.maxHeaderBytes
    && forall i :: 0 <= i < |pieces| ==>
         |pieces[i].item.name| <= limits.maxNameBytesPerEntry && |pieces[i].item.data| <= limits.maxEntryOutputBytes
  }

  lemma {:induction false} TotalsGrow(pieces: seq<Piece>, a: nat, b: nat)
    requires a <= b <= |pieces|
    ensures NameTotal(pieces, a) <= NameTotal(pieces, b) && HeaderTotal(pieces, a) <= HeaderTotal(pieces, b)
    decreases b
  {
    if a < b {
      TotalsGrow(pieces, a, b - 1);
    }
  }

  function EntryAt(pieces: seq<Piece>, k: nat): CpioEntry
    requires Writable(pieces) && k < |pieces|
  {
    var start := DataStart(pieces[k].writer, |Written(pieces, k)|, pieces[k].item);
    var piece := pieces[k];
    CpioEntry(k, FormatOf(piece.writer), piece.item.name, piece.item.meta, HeaderOf(piece.writer, piece.item).fileSize,
              ChecksumOf(piece.writer, piece.item.data), start, start + |piece.item.data|)
  }

  /** One format if all records share it. */
  function FormatOfAll(pieces: seq<Piece>, k: nat, format: CpioFormat): CpioFormat
    requires k <= |pieces|
  {
    if forall i :: 0 <= i < k ==> FormatOf(pieces[i].writer) == format then format else Mixed
  }

  function FormatSoFar(pieces: seq<Piece>, k: nat): Option<CpioFormat>
    requires k <= |pieces|
  {
    if k == 0 then None else Some(FormatOfAll(pieces, k, FormatOf(pieces[k - 1].writer)))
  }

  lemma FormatGrows(pieces: seq<Piece>, k: nat, w: Writer)
    requires k <= |pieces|
    ensures Combined(FormatSoFar(pieces, k), FormatOf(w)) == FormatOfAll(pieces, k, FormatOf(w))
    ensures k < |pieces| && pieces[k].writer == w ==>
      FormatSoFar(pieces, k + 1) == Some(FormatOfAll(pieces, k, FormatOf(w)))
  {
    hide FormatOf;
    NoneMixed(w);
    if k > 0 {
      NoneMixed(pieces[k - 1].writer);
    }
  }

  lemma NoneMixed(w: Writer)
    ensures FormatOf(w) != Mixed
  {
  }

  function StateAfter(pieces: seq<Piece>, k: nat): State
    requires Writable(pieces) && k <= |pieces|
  {
    State(|Written(pieces, k)|, seq(k, j requires 0 <= j < k => EntryAt(pieces, j)),
          FormatSoFar(pieces, k), NameTotal(pieces, k), HeaderTotal(pieces, k))
  }

  /** The limits let item k through. */
  lemma ItemAllowed(pieces: seq<Piece>, w: Writer, k: nat, limits: Limits)
    requires Writable(pieces) && Allowed(pieces, w, limits) && k < |pieces|
    ensures FieldSized(pieces[k].writer, pieces[k].item) && 0 !in pieces[k].item.name && pieces[k].item.name != TRAILER
    ensures
      var s, h := StateAfter(pieces, k), HeaderOf(pieces[k].writer, pieces[k].item);
      && AddHeaderBytes(s, h, limits) == Success(HeaderTotal(pieces, k + 1))
      && forall start: nat, end: nat, next: nat ::
        EntryLimits(s, h, Record(pieces[k].item.name, start, end, next), limits).Success?
  {
    hide FieldSized, Written, FormatSoFar, EntryAt, AddHeaderBytes, EntryLimits, HeaderOf;
    var s, h := StateAfter(pieces, k), HeaderOf(pieces[k].writer, pieces[k].item);
    assert FieldSized(pieces[k].writer, pieces[k].item);
    HeaderFields(pieces[k].writer, pieces[k].item);
    TotalsGrow(pieces, k + 1, |pieces|);
    HeaderCounted(s, h, HeaderTotal(pieces, k + 1), limits);
    forall start: nat, end: nat, next: nat
      ensures EntryLimits(s, h, Record(pieces[k].item.name, start, end, next), limits).Success? {
      EntryAllowed(s, h, Record(pieces[k].item.name, start, end, next), limits);
    }
  }

  lemma HeaderCounted(s: State, h: ParsedHeader, total: nat, limits: Limits)
    requires total == s.headerBytes + h.headerBytes + h.nameSize && total <= limits.maxHeaderBytes
    ensures AddHeaderBytes(s, h, limits) == Success(total)
  {
  }

  lemma EntryAllowed(s: State, h: ParsedHeader, rec: Record, limits: Limits)
    requires |s.entries| < limits.maxFiles && |rec.name| <= limits.maxNameBytesPerEntry
      && s.nameBytes + |rec.name| <= limits.maxTotalNameBytes && h.fileSize <= limits.maxEntryOutputBytes
    ensures EntryLimits(s, h, rec, limits).Success?
  {
  }

  /** One round of the parser moves from item k to item k + 1. */
  lemma NextItem(payload: Bytes, pieces: seq<Piece>, w: Writer, k: nat, limits: Limits)
    requires Writable(pieces) && Allowed(pieces, w, limits) && k < |pieces|
    requires At(payload, |Written(pieces, k)|, RecordBytes(pieces[k].writer, |Written(pieces, k)|, pieces[k].item))
    ensures Next(payload, StateAfter(pieces, k), limits) == Success(Outcome(StateAfter(pieces, k + 1), false))
    ensures
      var start := DataStart(pieces[k].writer, |Written(pieces, k)|, pieces[k].item);
      start + |pieces[k].item.data| <= |payload| && payload[start..start + |pieces[k].item.data|] == pieces[k].item.data
  {
    hide HeaderAt, RecordAt, RecordBytes, DataStart, RecordEnd, ByteSum, Next, Writable, Allowed, AddHeaderBytes,
         EntryLimits;
    hide FieldSized, HeaderTotal, NameTotal, Written, At;
    ItemAllowed(pieces, w, k, limits);
    var s, w, item := StateAfter(pieces, k), pieces[k].writer, pieces[k].item;
    RecordRoundTrip(payload, s.offset, w, item);
    var start := DataStart(w, s.offset, item);
    var rec := Record(item.name, start, start + |item.data|, RecordEnd(w, s.offset, item));
    NextIs(payload, s, limits, HeaderOf(w, item), HeaderTotal(pieces, k + 1), rec);
    RecordLength(w, s.offset, item);
    FormatGrows(pieces, k, w);
    StateGrows(pieces, k);
  }

  lemma StateGrows(pieces: seq<Piece>, k: nat)
    requires Writable(pieces) && k < |pieces|
    ensures
      var s, t := StateAfter(pieces, k), StateAfter(pieces, k + 1);
      && t.nameBytes == s.nameBytes + |pieces[k].item.name|
      && t.entries == s.entries + [EntryAt(pieces, k)]
      && t.offset == s.offset + |RecordBytes(pieces[k].writer, s.offset, pieces[k].item)|
  {
    hide RecordBytes, EntryAt;
  }

  lemma AtTrailer(payload: Bytes, pieces: seq<Piece>, w: Writer, limits: Limits)
    requires Writable(pieces) && Allowed(pieces, w, limits)
    requires At(payload, |Written(pieces, |pieces|)|, RecordBytes(w, |Written(pieces, |pieces|)|, TRAILER_ITEM))
    ensures
      var s := StateAfter(pieces, |pieces|);
      && Next(payload, s, limits).Success? && Next(payload, s, limits).value.trailer
      && Next(payload, s, limits).value.state.offset == |Image(pieces, w)|
      && Next(payload, s, limits).value.state.entries == s.entries
      && Next(payload, s, limits).value.state.format == Some(FormatOfAll(pieces, |pieces|, FormatOf(w)))
  {
    hide HeaderAt, RecordAt, RecordBytes, DataStart, RecordEnd, ByteSum, Next;
    var s := StateAfter(pieces, |pieces|);
    RecordRoundTrip(payload, s.offset, w, TRAILER_ITEM);
    var start := DataStart(w, s.offset, TRAILER_ITEM);
    var rec := Record(TRAILER, start, start, RecordEnd(w, s.offset, TRAILER_ITEM));
    NextIs(payload, s, limits, HeaderOf(w, TRAILER_ITEM), s.headerBytes + HeaderSize(w) + |TRAILER| + 1, rec);
    RecordLength(w, s.offset, TRAILER_ITEM);
    FormatGrows(pieces, |pieces|, w);
  }

  lemma {:induction false} ReadFrom(payload: Bytes, pieces: seq<Piece>, w: Writer, k: nat, limits: Limits, rest: Bytes)
    requires Writable(pieces) && Allowed(pieces, w, limits) && k <= |pieces| && payload == Image(pieces, w) + rest
    ensures
      var r := ReadAll(payload, StateAfter(pieces, k), limits);
      && r.Success? && r.value.entries == StateAfter(pieces, |pieces|).entries
      && r.value.offset == |Image(pieces, w)| && r.value.format == Some(FormatOfAll(pieces, |pieces|, FormatOf(w)))
    decreases |pieces| - k
  {
    hide Next, RecordBytes, StateAfter, Allowed;
    var n := |pieces|;
    var records := Written(pieces, n);
    var trailer := RecordBytes(w, |records|, TRAILER_ITEM);
    assert payload == records + (trailer + rest);
    StateOffset(pieces, k);
    if k < n {
      RecordInPlace(pieces, n, k, trailer + rest);
      NextItem(payload, pieces, w, k, limits);
      ReadFrom(payload, pieces, w, k + 1, limits, rest);
    } else {
      AtWhole(trailer, rest);
      Shifted(records, trailer + rest, trailer);
      AtTrailer(payload, pieces, w, limits);
    }
    NotPastEnd(payload, StateAfter(pieces, k), limits);
  }

  lemma StateOffset(pieces: seq<Piece>, k: nat)
    requires Writable(pieces) && k <= |pieces|
    ensures StateAfter(pieces, k).offset == |Written(pieces, k)|
  {
  }

  lemma NotPastEnd(payload: Bytes, s: State, limits: Limits)
    requires Next(payload, s, limits).Success?
    ensures s.offset < |payload|
  {
    hide Next;
  }

  /** For NUL-free names other than the trailer's, field-sized data and ample limits:
      the image, with or without zero bytes after it, reads back to exactly the items,
      each in a format of its own. */
  lemma RoundTrip(pieces: seq<Piece>, w: Writer, zeros: nat, limits: Limits)
    requires Writable(pieces) && Allowed(pieces, w, limits)
    ensures
      var payload := Image(pieces, w) + Zeros(zeros);
      var r := Entries(payload, limits);
      && r.Success? && r.value.format == FormatOfAll(pieces, |pieces|, FormatOf(w)) && |r.value.entries| == |pieces|
      && forall k :: 0 <= k < |pieces| ==> EntryHolds(payload, r.value.entries[k], k, pieces[k])
  {
    hide ReadAll, Image, Next, RecordBytes, Allowed, EntryAt;
    var payload := Image(pieces, w) + Zeros(zeros);
    ReadFrom(payload, pieces, w, 0, limits, Zeros(zeros));
    StartState(pieces);
    OnlyZeros(Image(pieces, w), zeros);
    forall k | 0 <= k < |pieces| ensures EntryHolds(payload, StateAfter(pieces, |pieces|).entries[k], k, pieces[k]) {
      ItemHeld(pieces, w, k, limits, Zeros(zeros));
    }
  }

  /** The entry carries the item's name and metadata, and its range the item's data. */
  predicate EntryHolds(payload: Bytes, e: CpioEntry, k: nat, piece: Piece) {
    var item := piece.item;
    && e.index == k && e.format == FormatOf(piece.writer) && e.meta == item.meta
    && e.checksum == ChecksumOf(piece.writer, item.data)
    && e.rawName == item.name && e.size == |item.data|
    && e.dataStart <= e.dataEnd <= |payload| && payload[e.dataStart..e.dataEnd] == item.data
  }

  lemma StartState(pieces: seq<Piece>)
    requires Writable(pieces)
    ensures StateAfter(pieces, 0) == START
  {
  }

  lemma OnlyZeros(image: Bytes, zeros: nat)
    ensures AllZero(image + Zeros(zeros), |image|, |image + Zeros(zeros)|)
  {
  }

  lemma ItemHeld(pieces: seq<Piece>, w: Writer, k: nat, limits: Limits, rest: Bytes)
    requires Writable(pieces) && Allowed(pieces, w, limits) && k < |pieces|
    ensures EntryHolds(Image(pieces, w) + rest, EntryAt(pieces, k), k, pieces[k])
  {
    hide RecordBytes, Next, Allowed, DataStart, StateAfter;
    var n := |pieces|;
    var trailer := RecordBytes(w, |Written(pieces, n)|, TRAILER_ITEM);
    assert Image(pieces, w) + rest == Written(pieces, n) + (trailer + rest);
    RecordInPlace(pieces, n, k, trailer + rest);
    NextItem(Image(pieces, w) + rest, pieces, w, k, limits);
  }

  // ----- The writers.

  method AppendZeros(output: Bytes, alignment: nat) returns (longer: Bytes)
    requires alignment == 1 || alignment == 2 || alignment == 4
    ensures longer == output + Padding(|output|, alignment)
  {
    longer := output;
    while |longer| % alignment != 0
      invariant |output| <= |longer| <= AlignUp(|output|, alignment)
      invariant longer == output + Zeros(|longer| - |output|)
      decreases AlignUp(|output|, alignment) - |longer|
    {
      Aligned(|output|, alignment);
      longer := longer + [0];
    }
    OneMultiple(|output|, |longer|, alignment);
  }

  lemma OneMultiple(low: nat, value: nat, alignment: nat)
    requires alignment == 1 || alignment == 2 || alignment == 4
    requires low <= value <= AlignUp(low, alignment) && value % alignment == 0
    ensures value == AlignUp(low, alignment)
  {
  }

  method PushAll(output: Bytes, values: seq<u32>) returns (longer: Bytes)
    ensures longer == output + HexBytes(values)
  {
    hide Digits;
    longer := output;
    for i := 0 to |values|
      invariant longer == output + HexBytes(values[..i])
    {
      longer := longer + Digits(values[i], 8, 16);
      assert values[..i + 1][..i] == values[..i];
    }
    assert values[..|values|] == values;
  }

  method AppendNewc(output: Bytes, item: Item, crc: bool) returns (longer: Bytes)
    requires FieldSized(NewcWriter(crc), item)
    ensures longer == output + RecordBytes(NewcWriter(crc), |output|, item)
  {
    hide Digits, AlignUp, ByteSum, Padding;
    var w := NewcWriter(crc);
    longer := output + [0x30, 0x37, 0x30, 0x37, 0x30, if crc then 0x32 else 0x31];
    var checksum := if crc then ByteSum(item.data) else 0;
    longer := PushAll(longer, NewcValues(item.meta, |item.name| + 1, |item.data|, checksum));
    assert longer == output + HeaderFor(w, item);
    longer := longer + item.name + [0];
    longer := AppendZeros(longer, 4);
    PaddingLength(NameEnd(w, |output|, item), 4);
    longer := longer + item.data;
    longer := AppendZeros(longer, 4);
    Regrouped(output, w, item);
  }

  lemma Regrouped(output: Bytes, w: Writer, item: Item)
    requires FieldSized(w, item)
    ensures
      var dataEnd := DataStart(w, |output|, item) + |item.data|;
      output + HeaderFor(w, item) + item.name + [0] + Padding(NameEnd(w, |output|, item), Alignment(w)) + item.data
        + Padding(dataEnd, Alignment(w))
      == output + RecordBytes(w, |output|, item)
  {
    hide HeaderFor, Padding, DataStart;
  }

  method PushFields(output: Bytes, fields: seq<Field>) returns (longer: Bytes)
    ensures longer == output + FieldBytes(fields, 8)
  {
    hide Digits;
    longer := output;
    for i := 0 to |fields|
      invariant longer == output + FieldBytes(fields[..i], 8)
    {
      longer := longer + Digits(fields[i].value, fields[i].width, 8);
      assert fields[..i + 1][..i] == fields[..i];
    }
    assert fields[..|fields|] == fields;
  }

  method AppendOdc(output: Bytes, item: Item) returns (longer: Bytes)
    requires FieldSized(OdcWriter, item)
    ensures longer == output + RecordBytes(OdcWriter, |output|, item)
  {
    hide Digits, FieldBytes;
    longer := output + [0x30, 0x37, 0x30, 0x37, 0x30, 0x37];
    longer := PushFields(longer, OdcFields(item.meta, |item.name| + 1, |item.data|));
    assert longer == output + HeaderFor(OdcWriter, item);
    longer := longer + item.name + [0] + item.data;
    Unpadded(NameEnd(OdcWriter, |output|, item));
    Unpadded(DataStart(OdcWriter, |output|, item) + |item.data|);
    Regrouped(output, OdcWriter, item);
  }

  lemma Unpadded(length: nat)
    ensures Padding(length, 1) == []
  {
  }

  method PushWords(output: Bytes, words: seq<u16>, littleEndian: bool) returns (longer: Bytes)
    ensures longer == output + WordsBytes(words, littleEndian)
  {
    hide WordBytes;
    longer := output;
    for i := 0 to |words|
      invariant longer == output + WordsBytes(words[..i], littleEndian)
    {
      longer := longer + WordBytes(words[i], littleEndian);
      assert words[..i + 1][..i] == words[..i];
    }
    assert words[..|words|] == words;
  }

  method AppendBinary(output: Bytes, item: Item, littleEndian: bool) returns (longer: Bytes)
    requires FieldSized(BinaryWriter(littleEndian), item)
    ensures longer == output + RecordBytes(BinaryWriter(littleEndian), |output|, item)
  {
    hide WordsBytes, AlignUp, Padding;
    var w := BinaryWriter(littleEndian);
    longer := PushWords(output, BinaryWords(item.meta, |item.name| + 1, |item.data|), littleEndian);
    assert longer == output + HeaderFor(w, item);
    longer := longer + item.name + [0];
    longer := AppendZeros(longer, 2);
    PaddingLength(NameEnd(w, |output|, item), 2);
    longer := longer + item.data;
    longer := AppendZeros(longer, 2);
    Regrouped(output, w, item);
  }

  method Append(w: Writer, output: Bytes, item: Item) returns (longer: Bytes)
    requires FieldSized(w, item)
    ensures longer == output + RecordBytes(w, |output|, item)
  {
    match w
    case NewcWriter(crc) => longer := AppendNewc(output, item, crc);
    case OdcWriter => longer := AppendOdc(output, item);
    case BinaryWriter(littleEndian) => longer := AppendBinary(output, item, littleEndian);
  }

  /** The fixtures: one record an item, then the trailer. */
  method WriteImage(pieces: seq<Piece>, w: Writer) returns (image: Bytes)
    requires Writable(pieces)
    ensures image == Image(pieces, w)
  {
    hide RecordBytes;
    image := [];
    for k := 0 to |pieces|
      invariant image == Written(pieces, k)
    {
      image := Append(pieces[k].writer, image, pieces[k].item);
    }
    image := Append(w, image, TRAILER_ITEM);
  }
}
