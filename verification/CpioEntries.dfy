/** Parsing a CPIO payload: records one after the other up to the trailer. */
module CpioEntries {
  import opened Support
  import opened CpioHeaders

  /** TRAILER!!! */
  const TRAILER: Bytes := [0x54, 0x52, 0x41, 0x49, 0x4c, 0x45, 0x52, 0x21, 0x21, 0x21]

  datatype CpioEntry = CpioEntry(
    index: nat,
    format: CpioFormat,
    rawName: Bytes,
    meta: Metadata,
    size: u64,
    checksum: Option<u32>,
    dataStart: nat,
    dataEnd: nat)

  // ----- Alignment.

  function AlignUp(value: nat, alignment: nat): (aligned: nat)
    requires alignment > 0
    ensures value <= aligned < value + alignment
  {
    if value % alignment == 0 then value else value + (alignment - value % alignment)
  }

  lemma Aligned(value: nat, alignment: nat)
    requires alignment == 1 || alignment == 2 || alignment == 4
    ensures AlignUp(value, alignment) % alignment == 0
  {
  }

  predicate AllZero(bytes: Bytes, low: nat, high: nat)
    requires low <= high <= |bytes|
  {
    forall i :: low <= i < high ==> bytes[i] == 0
  }

  // ----- One record.

  datatype Record = Record(name: Bytes, dataStart: nat, dataEnd: nat, end: nat)

  function NameAt(payload: Bytes, start: nat, size: nat): (r: Result<Bytes>)
    ensures r.Success? ==> start + size <= |payload| && |r.value| + 1 == size && 0 !in r.value
    ensures r.Failure? ==> r.error.Format?
  {
    if size == 0 then Failure(Format(CpioNameInvalid))
    else if start + size > |payload| then Failure(Format(CpioTruncated))
    else if payload[start + size - 1] != 0 then Failure(Format(CpioNameInvalid))
    else if 0 in payload[start..start + size - 1] then Failure(Format(CpioNameInvalid))
    else Success(payload[start..start + size - 1])
  }

  /** Zero bytes up to the next multiple of the alignment. */
  function PaddingAt(payload: Bytes, start: nat, alignment: nat): (r: Result<nat>)
    requires alignment > 0
    ensures r.Success? ==>
      start <= r.value == AlignUp(start, alignment) <= |payload| && AllZero(payload, start, r.value)
    ensures r.Failure? ==> r.error.Format?
  {
    var end := AlignUp(start, alignment);
    if end > |payload| then Failure(Format(CpioTruncated))
    else if !AllZero(payload, start, end) then Failure(Format(CpioPaddingNonzero))
    else Success(end)
  }

  function RecordAt(payload: Bytes, p: nat, h: ParsedHeader): (r: Result<Record>)
    requires HeaderShape(h)
    ensures r.Success? ==>
      && p < r.value.dataStart <= r.value.dataEnd <= r.value.end <= |payload|
      && r.value.dataEnd - r.value.dataStart == h.fileSize && |r.value.name| + 1 == h.nameSize && 0 !in r.value.name
      && p + 1 + |r.value.name| + h.fileSize <= r.value.end
    ensures r.Failure? ==> r.error.Format?
  {
    var nameStart := p + h.headerBytes;
    var name :- NameAt(payload, nameStart, h.nameSize);
    var dataStart :- PaddingAt(payload, nameStart + h.nameSize, h.alignment);
    var dataEnd := dataStart + h.fileSize;
    if dataEnd > |payload| then Failure(Format(CpioTruncated))
    else
      var end :- PaddingAt(payload, dataEnd, h.alignment);
      Success(Record(name, dataStart, dataEnd, end))
  }

  function ByteSum(bytes: Bytes): u32 {
    if |bytes| == 0 then 0 else (ByteSum(bytes[..|bytes| - 1]) + bytes[|bytes| - 1]) % 0x1_0000_0000
  }

  // ----- All records.

  /** What the loop carries from record to record. */
  datatype State = State(offset: nat, entries: seq<CpioEntry>, format: Option<CpioFormat>, nameBytes: nat,
                         headerBytes: nat)

  const START: State := State(0, [], None, 0, 0)

  function Combined(current: Option<CpioFormat>, next: CpioFormat): CpioFormat {
    if current.None? || current.value == next then next else Mixed
  }

  function AddHeaderBytes(s: State, h: ParsedHeader, limits: Limits): (r: Result<nat>)
    ensures r.Success? ==> r.value == s.headerBytes + h.headerBytes + h.nameSize
    ensures r.Failure? ==> !Interruption(r.error)
  {
    var total := s.headerBytes + h.headerBytes + h.nameSize;
    if total > U64_MAX then Failure(Format(CpioCountOverflows))
    else
      var _ :- CheckLimit(total, limits.maxHeaderBytes, HeaderBytes);
      Success(total)
  }

  function EntryOf(s: State, h: ParsedHeader, rec: Record): CpioEntry {
    CpioEntry(|s.entries|, h.format, rec.name, h.meta, h.fileSize, h.checksum, rec.dataStart, rec.dataEnd)
  }

  function EntryLimits(s: State, h: ParsedHeader, rec: Record, limits: Limits): (r: Result<()>)
    ensures r.Failure? ==> !Interruption(r.error)
  {
    var _ :- CheckLimit(|s.entries| + 1, limits.maxFiles, LimitKind.Files);
    var _ :- CheckLimit(|rec.name|, limits.maxNameBytesPerEntry, NameBytesPerEntry);
    var _ :- CheckLimit(s.nameBytes + |rec.name|, limits.maxTotalNameBytes, TotalNameBytes);
    CheckLimit(h.fileSize, limits.maxEntryOutputBytes, EntryOutputBytes)
  }

  datatype Outcome = Outcome(state: State, trailer: bool)

  function Next(payload: Bytes, s: State, limits: Limits): (r: Result<Outcome>)
    ensures r.Success? ==> s.offset < r.value.state.offset <= |payload|
    ensures r.Failure? ==> !Interruption(r.error)
  {
    var h :- HeaderAt(payload, s.offset);
    var headerBytes :- AddHeaderBytes(s, h, limits);
    var rec :- RecordAt(payload, s.offset, h);
    var format := Some(Combined(s.format, h.format));
    if rec.name == TRAILER then
      if h.fileSize != 0 then Failure(Format(CpioTrailerData))
      else Success(Outcome(State(rec.end, s.entries, format, s.nameBytes, headerBytes), true))
    else
      var _ :- EntryLimits(s, h, rec, limits);
      if h.checksum.Some? && ByteSum(payload[rec.dataStart..rec.dataEnd]) != h.checksum.value then
        Failure(Checksum(Member, Some(|s.entries|)))
      else
        Success(Outcome(State(rec.end, s.entries + [EntryOf(s, h, rec)], format, s.nameBytes + |rec.name|, headerBytes), false))
  }

  /** From state s to the trailer. */
  function ReadAll(payload: Bytes, s: State, limits: Limits): (r: Result<State>)
    ensures r.Failure? ==> !Interruption(r.error)
    ensures r.Success? ==> r.value.offset <= |payload|
    decreases |payload| - s.offset
  {
    if s.offset >= |payload| then Failure(Format(CpioTrailerMissing))
    else
      var next :- Next(payload, s, limits);
      if next.trailer then Success(next.state) else ReadAll(payload, next.state, limits)
  }

  datatype Cpio = Cpio(format: CpioFormat, entries: seq<CpioEntry>)

  function Entries(payload: Bytes, limits: Limits): (r: Result<Cpio>)
    ensures r.Failure? ==> !Interruption(r.error)
  {
    var s :- ReadAll(payload, START, limits);
    if !AllZero(payload, s.offset, |payload|) then Failure(Format(CpioTrailingNonzero))
    else if s.format.None? then Failure(Format(CpioEmpty))
    else Success(Cpio(s.format.value, s.entries))
  }

  // ----- What every accepted payload satisfies.

  predicate EntryOk(payload: Bytes, e: CpioEntry, index: nat) {
    && e.index == index
    && e.dataStart <= e.dataEnd <= |payload| && e.dataEnd - e.dataStart == e.size
    && 0 !in e.rawName && e.rawName != TRAILER
    && (e.checksum.Some? ==> ByteSum(payload[e.dataStart..e.dataEnd]) == e.checksum.value)
  }

  /** Entries in order, no two overlapping, all before the offset. */
  predicate Laid(payload: Bytes, entries: seq<CpioEntry>, offset: nat) {
    && (forall i :: 0 <= i < |entries| ==> EntryOk(payload, entries[i], i) && entries[i].dataEnd <= offset)
    && (forall i, j :: 0 <= i < j < |entries| ==> entries[i].dataEnd < entries[j].dataStart)
  }

  lemma NextLaid(payload: Bytes, s: State, limits: Limits)
    requires Laid(payload, s.entries, s.offset) && Next(payload, s, limits).Success?
    ensures Laid(payload, Next(payload, s, limits).value.state.entries, Next(payload, s, limits).value.state.offset)
    ensures Next(payload, s, limits).value.state.format.Some?
  {
    hide HeaderAt, RecordAt, ByteSum;
  }

  /** A trailer record starts at p and ends at `end`. */
  predicate TrailerAt(payload: Bytes, p: nat, end: nat) {
    var h := HeaderAt(payload, p);
    && h.Success? && h.value.fileSize == 0
    && RecordAt(payload, p, h.value).Success?
    && RecordAt(payload, p, h.value).value.name == TRAILER
    && RecordAt(payload, p, h.value).value.end == end
  }

  lemma NextTrailer(payload: Bytes, s: State, limits: Limits)
    requires Next(payload, s, limits).Success? && Next(payload, s, limits).value.trailer
    ensures TrailerAt(payload, s.offset, Next(payload, s, limits).value.state.offset)
    ensures Next(payload, s, limits).value.state.entries == s.entries
  {
    hide HeaderAt, RecordAt, ByteSum;
  }

  /** Reading stops right behind a trailer record, with all entries before it. */
  lemma {:induction false} ReadAllTrailer(payload: Bytes, s: State, limits: Limits) returns (p: nat)
    requires Laid(payload, s.entries, s.offset) && ReadAll(payload, s, limits).Success?
    ensures TrailerAt(payload, p, ReadAll(payload, s, limits).value.offset)
    ensures s.offset <= p && Laid(payload, ReadAll(payload, s, limits).value.entries, p)
    decreases |payload| - s.offset
  {
    hide Next, Laid, TrailerAt;
    var next := Next(payload, s, limits).value;
    if next.trailer {
      NextTrailer(payload, s, limits);
      p := s.offset;
    } else {
      NextLaid(payload, s, limits);
      p := ReadAllTrailer(payload, next.state, limits);
    }
  }

  /** On any accepted payload the data ranges are ordered, disjoint and in bounds, a
      trailer record stands behind them all, and behind it there are only zero bytes. */
  lemma AcceptedIsSafe(payload: Bytes, limits: Limits) returns (p: nat, trailerEnd: nat)
    requires Entries(payload, limits).Success?
    ensures TrailerAt(payload, p, trailerEnd) && p < trailerEnd <= |payload|
    ensures AllZero(payload, trailerEnd, |payload|)
    ensures Laid(payload, Entries(payload, limits).value.entries, p)
  {
    hide Laid;
    NothingLaid(payload);
    p := ReadAllTrailer(payload, START, limits);
    trailerEnd := ReadAll(payload, START, limits).value.offset;
  }

  lemma NothingLaid(payload: Bytes)
    ensures Laid(payload, START.entries, START.offset)
  {
  }

  // ----- Limits.

  /** The bytes of a header in each format. */
  function HeaderLength(format: CpioFormat): nat {
    match format
    case Newc => 110
    case CrcNewc => 110
    case Odc => 76
    case BinaryLittleEndian => 26
    case BinaryBigEndian => 26
    case Mixed => 0
  }

  function NamesLength(entries: seq<CpioEntry>): nat {
    if |entries| == 0 then 0 else NamesLength(entries[..|entries| - 1]) + |entries[|entries| - 1].rawName|
  }

  /** Headers with their names and the zeros behind those. */
  function HeadersLength(entries: seq<CpioEntry>): nat {
    if |entries| == 0 then 0
    else
      var last := entries[|entries| - 1];
      HeadersLength(entries[..|entries| - 1]) + HeaderLength(last.format) + |last.rawName| + 1
  }

  predicate WithinLimits(entries: seq<CpioEntry>, limits: Limits) {
    && (|entries| > 0 ==> |entries| <= limits.maxFiles && NamesLength(entries) <= limits.maxTotalNameBytes)
    && forall i :: 0 <= i < |entries| ==>
         |entries[i].rawName| <= limits.maxNameBytesPerEntry && entries[i].size <= limits.maxEntryOutputBytes
  }

  /** What the counters of the loop count. */
  predicate Counting(s: State, limits: Limits) {
    && WithinLimits(s.entries, limits) && s.nameBytes == NamesLength(s.entries)
    && s.headerBytes == HeadersLength(s.entries)
  }

  lemma HeaderLengths(payload: Bytes, p: nat)
    requires HeaderAt(payload, p).Success?
    ensures HeaderAt(payload, p).value.headerBytes == HeaderLength(HeaderAt(payload, p).value.format)
  {
    hide Hex, Octal, NewcMetadata, OdcMetadata, Word;
  }

  lemma NextCounts(payload: Bytes, s: State, limits: Limits)
    requires Counting(s, limits) && Next(payload, s, limits).Success?
    ensures
      var next := Next(payload, s, limits).value;
      if next.trailer then
        next.state.entries == s.entries && next.state.headerBytes <= limits.maxHeaderBytes
        && exists format :: next.state.headerBytes == HeadersLength(s.entries) + HeaderLength(format) + |TRAILER| + 1
      else Counting(next.state, limits)
  {
    hide HeaderAt, RecordAt, ByteSum, HeaderLength;
    HeaderLengths(payload, s.offset);
    var next := Next(payload, s, limits).value;
    var format := HeaderAt(payload, s.offset).value.format;
    if next.trailer {
      assert next.state.headerBytes == HeadersLength(s.entries) + HeaderLength(format) + |TRAILER| + 1;
    } else {
      assert next.state.entries[..|s.entries|] == s.entries;
    }
  }

  lemma {:induction false} ReadAllCounts(payload: Bytes, s: State, limits: Limits)
    requires Counting(s, limits) && ReadAll(payload, s, limits).Success?
    ensures
      var end := ReadAll(payload, s, limits).value;
      && WithinLimits(end.entries, limits)
      && exists format :: HeadersLength(end.entries) + HeaderLength(format) + |TRAILER| + 1 <= limits.maxHeaderBytes
    decreases |payload| - s.offset
  {
    hide Next, WithinLimits, HeaderLength, HeadersLength;
    NextCounts(payload, s, limits);
    var next := Next(payload, s, limits).value;
    if next.trailer {
      var format :| next.state.headerBytes == HeadersLength(s.entries) + HeaderLength(format) + |TRAILER| + 1;
      assert HeadersLength(s.entries) + HeaderLength(format) + |TRAILER| + 1 <= limits.maxHeaderBytes;
    } else {
      ReadAllCounts(payload, next.state, limits);
    }
  }

  /** Every accepted payload keeps the limits on files, names, member sizes and headers,
      the trailer's header included. */
  lemma AcceptedWithinLimits(payload: Bytes, limits: Limits)
    requires Entries(payload, limits).Success?
    ensures
      var entries := Entries(payload, limits).value.entries;
      && WithinLimits(entries, limits)
      && exists format :: HeadersLength(entries) + HeaderLength(format) + |TRAILER| + 1 <= limits.maxHeaderBytes
  {
    hide ReadAll;
    ReadAllCounts(payload, START, limits);
  }

  // ----- Checksums.

  function Total(bytes: Bytes): nat {
    if |bytes| == 0 then 0 else bytes[0] + Total(bytes[1..])
  }

  lemma {:induction false} TotalAppend(bytes: Bytes, last: u8)
    ensures Total(bytes + [last]) == Total(bytes) + last
    decreases |bytes|
  {
    if |bytes| == 0 {
      assert bytes + [last] == [last];
    } else {
      TotalAppend(bytes[1..], last);
      assert (bytes + [last])[1..] == bytes[1..] + [last];
    }
  }

  /** The checksum is the sum of all bytes, without its overflow. */
  lemma {:induction false} ByteSumIsTotal(bytes: Bytes)
    ensures ByteSum(bytes) == Total(bytes) % 0x1_0000_0000
    decreases |bytes|
  {
    hide Total;
    if |bytes| == 0 {
      NoTotal();
      assert bytes == [];
    } else {
      var n := |bytes| - 1;
      ByteSumIsTotal(bytes[..n]);
      TotalAppend(bytes[..n], bytes[n]);
      WrappedSum(Total(bytes[..n]), bytes[n]);
      assert bytes == bytes[..n] + [bytes[n]];
    }
  }

  lemma WrappedSum(total: nat, b: u8)
    ensures (total % 0x1_0000_0000 + b) % 0x1_0000_0000 == (total + b) % 0x1_0000_0000
  {
  }

  lemma NoTotal()
    ensures Total([]) == 0
  {
  }

  // ----- The parser.

  lemma SumOne(bytes: Bytes, k: nat)
    requires k < |bytes|
    ensures ByteSum(bytes[..k + 1]) == (ByteSum(bytes[..k]) + bytes[k]) % 0x1_0000_0000
  {
    assert bytes[..k + 1][..k] == bytes[..k];
  }

  method SumBytes(bytes: Bytes, control: ParseControl) returns (r: Result<u32>)
    requires |bytes| <= U64_MAX
    modifies control
    ensures r.Success? ==> r.value == ByteSum(bytes) && control.Charged(|bytes|)
    ensures r.Failure? ==> Interrupted(r) && control.stopped
    ensures old(control.Ample(|bytes|)) ==> r.Success?
  {
    hide ByteSum;
    var sum: u32 := 0;
    NoSum();
    var start := 0;
    while start < |bytes|
      invariant 0 <= start <= |bytes| && sum == ByteSum(bytes[..start]) && control.Charged(start)
    {
      var end := if |bytes| - start < CONTROL_CHUNK_SIZE then |bytes| else start + CONTROL_CHUNK_SIZE;
      var _ :- control.Checkpoint(end - start);
      for k := start to end
        invariant sum == ByteSum(bytes[..k]) && control.Charged(end)
      {
        SumOne(bytes, k);
        sum := (sum + bytes[k]) % 0x1_0000_0000;
      }
      start := end;
    }
    assert bytes[..start] == bytes;
    return Success(sum);
  }

  lemma NoSum()
    ensures ByteSum([]) == 0
  {
  }

  method VerifyChecksum(data: Bytes, checksum: Option<u32>, index: nat, control: ParseControl) returns (r: Result<()>)
    requires |data| <= U64_MAX
    modifies control
    ensures r.Success? ==>
      (checksum.Some? ==> ByteSum(data) == checksum.value) && control.Charged(if checksum.Some? then |data| else 0)
    ensures r.Failure? ==>
      || (Interrupted(r) && control.stopped)
      || (r.error == Checksum(Member, Some(index)) && checksum.Some? && ByteSum(data) != checksum.value)
    ensures old(control.Ample(|data|)) ==> !Interrupted(r)
  {
    if checksum.Some? {
      var sum :- SumBytes(data, control);
      if sum != checksum.value {
        return Failure(Checksum(Member, Some(index)));
      }
    }
    return Success(());
  }

  lemma NextIs(payload: Bytes, s: State, limits: Limits, h: ParsedHeader, headerBytes: nat, rec: Record)
    requires HeaderAt(payload, s.offset) == Success(h) && AddHeaderBytes(s, h, limits) == Success(headerBytes)
    requires RecordAt(payload, s.offset, h) == Success(rec)
    ensures Next(payload, s, limits) == (
      var format := Some(Combined(s.format, h.format));
      if rec.name == TRAILER then
        if h.fileSize != 0 then Failure(Format(CpioTrailerData))
        else Success(Outcome(State(rec.end, s.entries, format, s.nameBytes, headerBytes), true))
      else
        var limited := EntryLimits(s, h, rec, limits);
        if limited.Failure? then Failure(limited.error)
        else if h.checksum.Some? && ByteSum(payload[rec.dataStart..rec.dataEnd]) != h.checksum.value then
          Failure(Checksum(Member, Some(|s.entries|)))
        else
          Success(Outcome(State(rec.end, s.entries + [EntryOf(s, h, rec)], format, s.nameBytes + |rec.name|, headerBytes), false)))
  {
    hide HeaderAt, RecordAt, AddHeaderBytes, EntryLimits, ByteSum;
  }

  /** One round of the loop. It charges no more than the bytes it moves past. */
  method ReadNext(payload: Bytes, s: State, limits: Limits, control: ParseControl) returns (r: Result<Outcome>)
    requires |payload| <= U64_MAX && s.offset < |payload|
    modifies control
    ensures r == Next(payload, s, limits) || (Interrupted(r) && control.stopped)
    ensures r.Success? ==>
      exists spent: nat :: control.Charged(spent) && spent <= r.value.state.offset - s.offset
    ensures old(control.Ample(|payload| - s.offset)) ==> !Interrupted(r)
  {
    hide HeaderAt, RecordAt, AddHeaderBytes, EntryLimits, ByteSum, Next;
    NextFails(payload, s, limits);
    var _ :- control.Checkpoint(1);
    var h :- HeaderAt(payload, s.offset);
    var headerBytes :- AddHeaderBytes(s, h, limits);
    var rec :- RecordAt(payload, s.offset, h);
    NextIs(payload, s, limits, h, headerBytes, rec);
    var format := Some(Combined(s.format, h.format));
    if rec.name == TRAILER {
      if h.fileSize != 0 {
        return Failure(Format(CpioTrailerData));
      }
      assert control.Charged(1);
      return Success(Outcome(State(rec.end, s.entries, format, s.nameBytes, headerBytes), true));
    }
    var _ :- EntryLimits(s, h, rec, limits);
    var name :- CopyBytes(rec.name, control);
    var entry := EntryOf(s, h, rec).(rawName := name);
    var _ :- VerifyChecksum(payload[rec.dataStart..rec.dataEnd], h.checksum, |s.entries|, control);
    assert control.Charged(1 + |name| + if h.checksum.Some? then h.fileSize else 0);
    return Success(Outcome(State(rec.end, s.entries + [entry], format, s.nameBytes + |name|, headerBytes), false));
  }

  lemma NextFails(payload: Bytes, s: State, limits: Limits)
    ensures
      var h := HeaderAt(payload, s.offset);
      if h.Failure? then Next(payload, s, limits) == Failure(h.error)
      else
        var headerBytes := AddHeaderBytes(s, h.value, limits);
        if headerBytes.Failure? then Next(payload, s, limits) == Failure(headerBytes.error)
        else RecordAt(payload, s.offset, h.value).Failure? ==>
          Next(payload, s, limits) == Failure(RecordAt(payload, s.offset, h.value).error)
  {
    hide HeaderAt, RecordAt, AddHeaderBytes, EntryLimits, ByteSum;
  }

  method ParseEntries(payload: Bytes, limits: Limits, control: ParseControl) returns (r: Result<Cpio>)
    requires |payload| <= U64_MAX
    modifies control
    ensures r == Entries(payload, limits) || (Interrupted(r) && control.stopped)
    ensures old(control.Ample(|payload|)) ==> r == Entries(payload, limits)
  {
    hide Next, HeaderAt;
    var s := START;
    ghost var spent: nat := 0;
    while s.offset < |payload|
      invariant s.offset <= |payload| && ReadAll(payload, START, limits) == ReadAll(payload, s, limits)
      invariant control.Charged(spent) && spent <= s.offset
      decreases |payload| - s.offset
    {
      label Round:
      var next :- ReadNext(payload, s, limits, control);
      ghost var more: nat :| control.Charged@Round(more) && more <= next.state.offset - s.offset;
      spent := spent + more;
      s := next.state;
      if next.trailer {
        assert ReadAll(payload, START, limits) == Success(s);
        for i := s.offset to |payload|
          invariant forall k :: s.offset <= k < i ==> payload[k] == 0
        {
          if payload[i] != 0 {
            return Failure(Format(CpioTrailingNonzero));
          }
        }
        if s.format.None? {
          return Failure(Format(CpioEmpty));
        }
        return Success(Cpio(s.format.value, s.entries));
      }
    }
    return Failure(Format(CpioTrailerMissing));
  }
}
