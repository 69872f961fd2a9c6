/** File names in UTF-16, stored inline (read in two passes) or in an external
    stream (read in one). Both readers accept the same names under the same limits. */
module Names {
  import opened Support
  import opened Sequences
  import opened Bounded

  type Name = seq<u16>

  // ----- What the bytes say.

  function UnitAt(data: Bytes, p: nat): u16
    requires p + 2 <= |data|
  {
    data[p] as int + 0x100 * data[p + 1] as int
  }

  function Prepend(units: Name, rest: Option<Parsed<Name>>): Option<Parsed<Name>> {
    if rest.None? then None else Some(Parsed(units + rest.value.value, rest.value.end))
  }

  /** Code units up to the zero that ends a name. */
  function NameAt(data: Bytes, p: nat): (r: Option<Parsed<Name>>)
    ensures r.Some? ==> r.value.end == p + 2 * |r.value.value| + 2 <= |data|
    decreases |data| - p
  {
    if p + 2 > |data| then None
    else if UnitAt(data, p) == 0 then Some(Parsed([], p + 2))
    else Prepend([UnitAt(data, p)], NameAt(data, p + 2))
  }

  function NamesAt(data: Bytes, p: nat, count: nat): (r: Option<Parsed<seq<Name>>>)
    requires p <= |data|
    ensures r.Some? ==> p <= r.value.end <= |data| && |r.value.value| == count
  {
    if count == 0 then Some(Parsed([], p))
    else
      var before := NamesAt(data, p, count - 1);
      if before.None? then None
      else
        var name := NameAt(data, before.value.end);
        if name.None? then None else Some(Parsed(before.value.value + [name.value.value], name.value.end))
  }

  lemma {:induction false} NamesMissing(data: Bytes, p: nat, a: nat, b: nat)
    requires p <= |data| && a <= b && NamesAt(data, p, a).None?
    ensures NamesAt(data, p, b).None?
    decreases b
  {
    if a < b {
      NamesMissing(data, p, a, b - 1);
    }
  }

  /** Later names leave earlier ones as they are. */
  lemma {:induction false} NamesPrefix(data: Bytes, p: nat, a: nat, b: nat)
    requires p <= |data| && a <= b && NamesAt(data, p, b).Some?
    ensures NamesAt(data, p, a).Some? && NamesAt(data, p, a).value.value == NamesAt(data, p, b).value.value[..a]
    decreases b
  {
    if a < b {
      NamesPrefix(data, p, a, b - 1);
    }
  }

  // ----- Limits.

  function NameBytes(names: seq<Name>, k: nat): nat
    requires k <= |names|
  {
    if k == 0 then 0 else NameBytes(names, k - 1) + 2 * |names[k - 1]|
  }

  predicate Within(names: seq<Name>, before: nat, limits: Limits) {
    && (forall name :: name in names ==> 2 * |name| <= limits.maxNameBytesPerEntry)
    && (|names| > 0 ==> before + NameBytes(names, |names|) <= limits.maxTotalNameBytes)
  }

  lemma {:induction false} NameBytesMonotone(names: seq<Name>, a: nat, b: nat)
    requires a <= b <= |names|
    ensures NameBytes(names, a) <= NameBytes(names, b)
    decreases b
  {
    if a < b {
      NameBytesMonotone(names, a, b - 1);
    }
  }

  lemma {:induction false} SameBytes(a: seq<Name>, b: seq<Name>, k: nat)
    requires k <= |a| && k <= |b| && forall i :: 0 <= i < k ==> a[i] == b[i]
    ensures NameBytes(a, k) == NameBytes(b, k)
    decreases k
  {
    if k > 0 {
      SameBytes(a, b, k - 1);
    }
  }

  /** The names fill the data from p on, within the limits. */
  predicate NamesOk(data: Bytes, p: nat, count: nat, before: nat, limits: Limits)
    requires p <= |data|
  {
    var names := NamesAt(data, p, count);
    names.Some? && names.value.end == |data| && Within(names.value.value, before, limits)
  }

  // ----- A name being read.

  function Units(data: Bytes, q: nat, m: nat): (units: Name)
    requires q + 2 * m <= |data|
    ensures |units| == m
  {
    seq(m, i requires 0 <= i < m => UnitAt(data, q + 2 * i))
  }

  predicate NonZero(units: Name) {
    forall i :: 0 <= i < |units| ==> units[i] != 0
  }

  lemma NonZeroPrefix(units: Name, last: u16)
    requires NonZero(units + [last])
    ensures NonZero(units) && last != 0
  {
    assert (units + [last])[|units|] == last;
    forall i: nat | i < |units| ensures units[i] != 0 {
      assert (units + [last])[i] == units[i];
    }
  }

  /** k names have been read, and m units of the next, which starts at q. */
  predicate InName(data: Bytes, start: nat, k: nat, q: nat, m: nat) {
    && start <= |data| && q + 2 * m <= |data|
    && NamesAt(data, start, k).Some? && NamesAt(data, start, k).value.end == q
    && NonZero(Units(data, q, m))
  }

  lemma {:induction false} NameGoesOn(data: Bytes, q: nat, m: nat)
    requires q + 2 * m <= |data| && NonZero(Units(data, q, m))
    ensures NameAt(data, q) == Prepend(Units(data, q, m), NameAt(data, q + 2 * m))
    decreases m
  {
    if m > 0 {
      assert Units(data, q, m) == Units(data, q, m - 1) + [UnitAt(data, q + 2 * (m - 1))];
      NonZeroPrefix(Units(data, q, m - 1), UnitAt(data, q + 2 * (m - 1)));
      NameGoesOn(data, q, m - 1);
      assert Units(data, q, m)[m - 1] != 0;
      var rest := NameAt(data, q + 2 * m);
      if rest.Some? {
        assert Units(data, q, m - 1) + ([UnitAt(data, q + 2 * (m - 1))] + rest.value.value) == Units(data, q, m)
          + rest.value.value;
      }
    } else {
      var rest := NameAt(data, q);
      if rest.Some? {
        assert Units(data, q, 0) + rest.value.value == rest.value.value;
      }
    }
  }

  lemma OneMoreUnit(data: Bytes, start: nat, k: nat, q: nat, m: nat)
    requires InName(data, start, k, q, m) && q + 2 * m + 2 <= |data| && UnitAt(data, q + 2 * m) != 0
    ensures InName(data, start, k, q, m + 1) && Units(data, q, m + 1) == Units(data, q, m) + [UnitAt(data, q + 2 * m)]
  {
    assert Units(data, q, m + 1) == Units(data, q, m) + [UnitAt(data, q + 2 * m)];
  }

  lemma NameEnds(data: Bytes, start: nat, k: nat, q: nat, m: nat)
    requires InName(data, start, k, q, m) && q + 2 * m + 2 <= |data| && UnitAt(data, q + 2 * m) == 0
    ensures
      NamesAt(data, start, k + 1) == Some(Parsed(NamesAt(data, start, k).value.value + [Units(data, q, m)], q + 2 * m + 2))
    ensures InName(data, start, k + 1, q + 2 * m + 2, 0)
  {
    NameGoesOn(data, q, m);
    assert Units(data, q, m) + [] == Units(data, q, m);
  }

  lemma NameTruncated(data: Bytes, start: nat, k: nat, q: nat, m: nat, count: nat)
    requires InName(data, start, k, q, m) && q + 2 * m + 2 > |data| && k < count
    ensures NamesAt(data, start, count).None?
  {
    NameGoesOn(data, q, m);
    NamesMissing(data, start, k + 1, count);
  }

  lemma NameTooLong(data: Bytes, start: nat, k: nat, q: nat, m: nat, count: nat, before: nat, limits: Limits)
    requires InName(data, start, k, q, m) && 2 * m > limits.maxNameBytesPerEntry && k < count
    ensures !NamesOk(data, start, count, before, limits)
  {
    NameGoesOn(data, q, m);
    if NamesAt(data, start, count).Some? {
      NamesPrefix(data, start, k + 1, count);
      assert NamesAt(data, start, k + 1).value.value[k] == NamesAt(data, start, count).value.value[k];
      assert NamesAt(data, start, count).value.value[k] in NamesAt(data, start, count).value.value;
    }
  }

  lemma NamesTooLong(data: Bytes, start: nat, k: nat, count: nat, before: nat, limits: Limits)
    requires start <= |data| && 0 < k <= count && NamesAt(data, start, k).Some?
    requires before + NameBytes(NamesAt(data, start, k).value.value, k) > limits.maxTotalNameBytes
    ensures !NamesOk(data, start, count, before, limits)
  {
    if NamesAt(data, start, count).Some? {
      NamesPrefix(data, start, k, count);
      var names := NamesAt(data, start, count).value.value;
      SameBytes(NamesAt(data, start, k).value.value, names, k);
      NameBytesMonotone(names, k, count);
    }
  }

  lemma NoNamesYet(data: Bytes, start: nat)
    requires start <= |data|
    ensures InName(data, start, 0, start, 0) && NamesAt(data, start, 0) == Some(Parsed([], start))
  {
  }

  lemma OneMoreWithin(names: seq<Name>, name: Name, before: nat, limits: Limits)
    requires Within(names, before, limits) && 2 * |name| <= limits.maxNameBytesPerEntry
    requires before + NameBytes(names, |names|) + 2 * |name| <= limits.maxTotalNameBytes
    ensures Within(names + [name], before, limits)
  {
    hide NameBytes;
    NextTotal(names, name);
  }

  lemma NextTotal(names: seq<Name>, name: Name)
    ensures NameBytes(names + [name], |names| + 1) == NameBytes(names, |names|) + 2 * |name|
  {
    SameBytes(names, names + [name], |names|);
  }

  // ----- The readers.

  /** The only ways reading names fails. */
  predicate NameFault(e: Error) {
    || Interruption(e) || e == Format(TruncatedRange) || e == Format(Unconsumed)
    || e == LimitExceeded(NameBytesPerEntry) || e == LimitExceeded(TotalNameBytes)
  }

  method ReadUnit(reader: BoundedReader, control: ParseControl) returns (r: Result<u16>)
    requires reader.Valid()
    modifies reader, control
    ensures reader.Valid()
    ensures r.Success? ==>
      && reader.position == old(reader.position) + 2
      && r.value == UnitAt(reader.bytes, old(reader.position)) && control.Charged(2)
    ensures r.Failure? ==>
      (Interrupted(r) && control.stopped)
        || (r == Failure(Format(TruncatedRange)) && old(reader.position) + 2 > |reader.bytes|)
    ensures old(control.Ample(if reader.position + 2 <= |reader.bytes| then 2 else 0)) ==> !Interrupted(r)
  {
    var pair :- reader.ReadBytes(2);
    var _ :- control.Checkpoint(2);
    return Success(pair[0] as int + 0x100 * pair[1] as int);
  }

  /** First pass: counts zero units, checks the limits, stores nothing. */
  method ScanNames(reader: BoundedReader, count: u64, limits: Limits, control: ParseControl) returns (r: Result<()>)
    requires reader.Valid() && |reader.bytes| <= U64_MAX
    modifies reader, control
    ensures r.Success? ==>
      NamesOk(reader.bytes, old(reader.position), count, 0, limits)
        && control.Charged(|reader.bytes| - old(reader.position))
    ensures r.Failure? ==>
      NameFault(r.error) && ((Interrupted(r) && control.stopped)
                             || !NamesOk(reader.bytes, old(reader.position), count, 0, limits))
    ensures old(control.Ample(|reader.bytes| - reader.position)) ==> !Interrupted(r)
  {
    hide NamesAt, NameAt, NameBytes, Units, UnitAt, InName;
    ghost var data, start := reader.bytes, reader.position;
    ghost var q: nat, m: nat, names: seq<Name> := start, 0, [];
    NoNamesYet(data, start);
    NoBytes();
    var namesSeen: nat, currentBytes: nat, totalBytes: nat := 0, 0, 0;
    while namesSeen < count
      invariant reader.Valid() && reader.position == q + 2 * m && start <= reader.position && namesSeen <= count
      invariant InName(data, start, namesSeen, q, m) && NamesAt(data, start, namesSeen) == Some(Parsed(names, q))
      invariant |names| == namesSeen && totalBytes == NameBytes(names, namesSeen) && Within(names, 0, limits)
      invariant currentBytes == 2 * m && (m > 0 ==> currentBytes <= limits.maxNameBytesPerEntry)
      invariant (namesSeen == count ==> m == 0) && control.Charged(reader.position - start)
      decreases |reader.bytes| - reader.position
    {
      var unit := ReadUnit(reader, control);
      if unit.Failure? {
        if !Interruption(unit.error) {
          NameTruncated(data, start, namesSeen, q, m, count);
        }
        return Failure(unit.error);
      }
      if unit.value == 0 {
        NameEnds(data, start, namesSeen, q, m);
        NextTotal(names, Units(data, q, m));
        UnitsCounted(data, q, m);
        if currentBytes > limits.maxNameBytesPerEntry {
          return Failure(LimitExceeded(NameBytesPerEntry));
        }
        totalBytes := totalBytes + currentBytes;
        if totalBytes > limits.maxTotalNameBytes {
          NamesTooLong(data, start, namesSeen + 1, count, 0, limits);
          return Failure(LimitExceeded(TotalNameBytes));
        }
        OneMoreWithin(names, Units(data, q, m), 0, limits);
        names := names + [Units(data, q, m)];
        namesSeen, q, m, currentBytes := namesSeen + 1, reader.position, 0, 0;
      } else {
        OneMoreUnit(data, start, namesSeen, q, m);
        m := m + 1;
        currentBytes := currentBytes + 2;
        if currentBytes > limits.maxNameBytesPerEntry {
          NameTooLong(data, start, namesSeen, q, m, count, 0, limits);
          return Failure(LimitExceeded(NameBytesPerEntry));
        }
      }
    }
    EndOfNames(data, start, count, q, m);
    if reader.position != |reader.bytes| {
      return Failure(Format(Unconsumed));
    }
    return Success(());
  }

  lemma NoBytes()
    ensures NameBytes([], 0) == 0
  {
  }

  lemma UnitsCounted(data: Bytes, q: nat, m: nat)
    requires q + 2 * m <= |data|
    ensures |Units(data, q, m)| == m
  {
  }

  lemma EndOfNames(data: Bytes, start: nat, k: nat, q: nat, m: nat)
    requires InName(data, start, k, q, m)
    ensures start <= |data| && NamesAt(data, start, k).Some? && NamesAt(data, start, k).value.end == q
  {
  }

  /** Second pass: reads the names of data the first pass let through. */
  method CollectNames(reader: BoundedReader, count: u64, control: ParseControl) returns (r: Result<seq<Name>>)
    requires reader.Valid() && |reader.bytes| <= U64_MAX
    modifies reader, control
    ensures r.Success? ==>
      && NamesAt(reader.bytes, old(reader.position), count) == Some(Parsed(r.value, |reader.bytes|))
      && control.Charged(|reader.bytes| - old(reader.position))
    ensures r.Failure? ==> NameFault(r.error)
    ensures r.Failure? ==>
      || (Interrupted(r) && control.stopped)
      || NamesAt(reader.bytes, old(reader.position), count).None?
      || NamesAt(reader.bytes, old(reader.position), count).value.end != |reader.bytes|
    ensures old(control.Ample(|reader.bytes| - reader.position)) ==> !Interrupted(r)
  {
    hide NamesAt, NameAt, Units, UnitAt, InName;
    ghost var data, start := reader.bytes, reader.position;
    NoNamesYet(data, start);
    var names: seq<Name> := [];
    for k := 0 to count
      invariant reader.Valid() && start <= reader.position && InName(data, start, k, reader.position, 0)
      invariant NamesAt(data, start, k) == Some(Parsed(names, reader.position))
      invariant control.Charged(reader.position - start)
    {
      var name := CollectName(reader, start, k, count, control);
      if name.Failure? {
        return Failure(name.error);
      }
      names := names + [name.value];
    }
    if reader.position != |reader.bytes| {
      return Failure(Format(Unconsumed));
    }
    return Success(names);
  }

  /** One name, unit by unit. */
  method CollectName(reader: BoundedReader, ghost start: nat, ghost k: nat, ghost count: nat, control: ParseControl)
      returns (r: Result<Name>)
    requires reader.Valid() && InName(reader.bytes, start, k, reader.position, 0) && k < count
    modifies reader, control
    ensures reader.Valid() && start <= |reader.bytes|
    ensures r.Success? ==>
      && NamesAt(reader.bytes, start, k).Some? && old(reader.position) <= reader.position
      && NamesAt(reader.bytes, start, k + 1)
           == Some(Parsed(NamesAt(reader.bytes, start, k).value.value + [r.value], reader.position))
      && InName(reader.bytes, start, k + 1, reader.position, 0)
      && control.Charged(reader.position - old(reader.position))
    ensures r.Failure? ==>
      NameFault(r.error) && ((Interrupted(r) && control.stopped) || NamesAt(reader.bytes, start, count).None?)
    ensures old(control.Ample(|reader.bytes| - reader.position)) ==> !Interrupted(r)
  {
    hide NamesAt, NameAt, Units, UnitAt, InName;
    ghost var data, q := reader.bytes, reader.position;
    EndOfNames(data, start, k, q, 0);
    var name: Name := [];
    NothingRead(data, q);
    while true
      invariant reader.Valid() && reader.position == q + 2 * |name|
      invariant InName(data, start, k, q, |name|) && name == Units(data, q, |name|)
      invariant control.Charged(reader.position - q)
      decreases |reader.bytes| - reader.position
    {
      var unit := ReadUnit(reader, control);
      if unit.Failure? {
        if !Interruption(unit.error) {
          NameTruncated(data, start, k, q, |name|, count);
        }
        return Failure(unit.error);
      }
      if unit.value == 0 {
        NameEnds(data, start, k, q, |name|);
        return Success(name);
      }
      OneMoreUnit(data, start, k, q, |name|);
      name := name + [unit.value];
    }
  }

  lemma NothingRead(data: Bytes, q: nat)
    requires q <= |data|
    ensures Units(data, q, 0) == []
  {
  }

  // ----- The inline property.

  datatype ParsedNames = Inline(names: seq<Name>) | ExternalAt(dataIndex: u64)

  predicate InlineOk(data: Bytes, count: nat, limits: Limits) {
    |data| > 0 && data[0] == 0 && NamesOk(data, 1, count, 0, limits)
  }

  predicate ExternalOk(data: Bytes) {
    |data| > 0 && data[0] != 0 && UintAt(data, 1).Success? && UintAt(data, 1).value.end == |data|
  }

  /** Two passes; whatever the first accepts, the second reads to the end. */
  method ParseNames(data: Bytes, count: u64, limits: Limits, control: ParseControl) returns (r: Result<ParsedNames>)
    requires |data| <= U64_MAX
    modifies control
    ensures r.Success? && r.value.Inline? ==>
      InlineOk(data, count, limits) && NamesAt(data, 1, count) == Some(Parsed(r.value.names, |data|))
    ensures r.Success? && r.value.ExternalAt? ==>
      ExternalOk(data) && UintAt(data, 1) == Success(Parsed(r.value.dataIndex, |data|))
    ensures r.Failure? ==>
      NameFault(r.error) && ((Interrupted(r) && control.stopped)
                             || !(InlineOk(data, count, limits) || ExternalOk(data)))
    ensures old(control.Ample(2 * |data| + 10)) ==> !Interrupted(r)
  {
    hide UintAt, NamesAt, Within;
    var scan := new BoundedReader(data);
    var _ :- control.Checkpoint(1);
    var flag :- scan.ReadU8();
    if flag != 0 {
      var _ :- control.Checkpoint(9);
      var dataIndex :- scan.Read7zUint();
      if scan.position != |data| {
        return Failure(Format(Unconsumed));
      }
      return Success(ExternalAt(dataIndex));
    }
    var _ :- ScanNames(scan, count, limits, control);
    var reader := new BoundedReader(data);
    var _ :- control.Checkpoint(1);
    var again := reader.ReadU8();
    if again.Failure? {
      return Failure(Format(TruncatedRange));
    }
    if again.value != 0 {
      return Failure(Format(NamePropertyChanged));
    }
    var names :- CollectNames(reader, count, control);
    return Success(Inline(names));
  }

  // ----- The external stream.

  method ReadExternalUnit(reader: BoundedReader, control: ParseControl) returns (r: Result<u16>)
    requires reader.Valid()
    modifies reader, control
    ensures reader.Valid()
    ensures r.Success? ==>
      && reader.position == old(reader.position) + 2
      && r.value == UnitAt(reader.bytes, old(reader.position)) && control.Charged(2)
    ensures r.Failure? ==>
      (Interrupted(r) && control.stopped)
        || (r == Failure(Format(TruncatedRange)) && old(reader.position) + 2 > |reader.bytes|)
    ensures old(control.Ample(if reader.position + 2 <= |reader.bytes| then 2 else 0)) ==> !Interrupted(r)
  {
    var _ :- control.Checkpoint(0);
    r := ReadUnit(reader, control);
  }

  /** One name, with its length checked as it grows. */
  method ReadExternalName(reader: BoundedReader, ghost k: nat, ghost count: nat, ghost before: nat, limits: Limits,
                          control: ParseControl)
      returns (r: Result<Name>)
    requires reader.Valid() && InName(reader.bytes, 0, k, reader.position, 0) && k < count
    modifies reader, control
    ensures reader.Valid()
    ensures r.Success? ==>
      && NamesAt(reader.bytes, 0, k).Some? && old(reader.position) <= reader.position
      && NamesAt(reader.bytes, 0, k + 1)
           == Some(Parsed(NamesAt(reader.bytes, 0, k).value.value + [r.value], reader.position))
      && InName(reader.bytes, 0, k + 1, reader.position, 0)
      && 2 * |r.value| <= limits.maxNameBytesPerEntry
      && control.Charged(reader.position - old(reader.position))
    ensures r.Failure? ==> (Interrupted(r) && control.stopped) || !NamesOk(reader.bytes, 0, count, before, limits)
    ensures old(control.Ample(|reader.bytes| - reader.position)) ==> !Interrupted(r)
  {
    hide NamesAt, NameAt, Units, UnitAt, InName, Within;
    ghost var data, q := reader.bytes, reader.position;
    EndOfNames(data, 0, k, q, 0);
    var name: Name := [];
    var nameBytes: nat := 0;
    NothingRead(data, q);
    while true
      invariant reader.Valid() && reader.position == q + 2 * |name|
      invariant InName(data, 0, k, q, |name|) && name == Units(data, q, |name|)
      invariant nameBytes == 2 * |name| <= limits.maxNameBytesPerEntry
      invariant control.Charged(reader.position - q)
      decreases |reader.bytes| - reader.position
    {
      var unit := ReadExternalUnit(reader, control);
      if unit.Failure? {
        if !Interruption(unit.error) {
          NameTruncated(data, 0, k, q, |name|, count);
        }
        return Failure(unit.error);
      }
      if unit.value == 0 {
        NameEnds(data, 0, k, q, |name|);
        return Success(name);
      }
      OneMoreUnit(data, 0, k, q, |name|);
      nameBytes := nameBytes + 2;
      if nameBytes > limits.maxNameBytesPerEntry {
        NameTooLong(data, 0, k, q, |name| + 1, count, before, limits);
        return Failure(LimitExceeded(NameBytesPerEntry));
      }
      name := name + [unit.value];
    }
  }

  /** Defined entries take the names in turn; the others stay. */
  function NamedEntry(entry: Option<Name>, defined: seq<bool>, names: seq<Name>, i: nat): Option<Name>
    requires i < |defined|
  {
    if defined[i] then (if SetBefore(defined, i) < |names| then Some(names[SetBefore(defined, i)]) else None) else entry
  }

  predicate EntriesNamed(now: seq<Option<Name>>, given: seq<Option<Name>>, defined: seq<bool>, names: seq<Name>,
                         n: nat) {
    && |now| == |given| == |defined| && n <= |defined| && |names| == SetBefore(defined, n)
    && (forall i :: 0 <= i < n ==> now[i] == NamedEntry(given[i], defined, names, i))
    && (forall i :: n <= i < |now| ==> now[i] == given[i])
  }

  lemma OneMoreNamed(now: seq<Option<Name>>, given: seq<Option<Name>>, defined: seq<bool>, names: seq<Name>, n: nat,
                     name: Name)
    requires EntriesNamed(now, given, defined, names, n) && n < |defined|
    ensures
      if defined[n] then EntriesNamed(now[n := Some(name)], given, defined, names + [name], n + 1)
      else EntriesNamed(now, given, defined, names, n + 1)
  {
    forall i | 0 <= i < n
      ensures NamedEntry(given[i], defined, names + [name], i) == NamedEntry(given[i], defined, names, i) {
      SetMonotone(defined, i, n);
      if defined[i] {
        SetMonotone(defined, i + 1, n);
        assert SetBefore(defined, i + 1) == SetBefore(defined, i) + 1;
      }
    }
  }

  method ApplyExternalNames(entries: array<Option<Name>>, defined: seq<bool>, data: Bytes, totalBefore: u64,
                            limits: Limits, control: ParseControl)
      returns (r: Result<()>, total: nat)
    requires |data| <= U64_MAX
    modifies entries, control
    ensures r.Success? ==>
      var count := SetBefore(defined, |defined|);
      && NamesOk(data, 0, count, totalBefore, limits)
      && EntriesNamed(entries[..], old(entries[..]), defined, NamesAt(data, 0, count).value.value, |defined|)
      && total == totalBefore + NameBytes(NamesAt(data, 0, count).value.value, count)
    ensures r.Failure? ==>
      || (Interrupted(r) && control.stopped)
      || |defined| != entries.Length || !NamesOk(data, 0, SetBefore(defined, |defined|), totalBefore, limits)
    ensures old(control.Ample(entries.Length + |data|)) ==> !Interrupted(r)
  {
    hide NamesAt, Units, UnitAt, InName, NameBytes, SetBefore, Within, EntriesNamed;
    total := totalBefore;
    if |defined| != entries.Length {
      return Failure(Format(DefinitionCountMismatch)), total;
    }
    ghost var count, given := SetBefore(defined, |defined|), entries[..];
    var reader := new BoundedReader(data);
    ghost var names: seq<Name> := [];
    NoNamesYet(data, 0);
    NoneNamed(given, defined, totalBefore, limits);
    for i := 0 to entries.Length
      invariant reader.Valid() && InName(data, 0, |names|, reader.position, 0)
      invariant NamesAt(data, 0, |names|) == Some(Parsed(names, reader.position))
      invariant total == totalBefore + NameBytes(names, |names|) && Within(names, totalBefore, limits)
      invariant EntriesNamed(entries[..], given, defined, names, i)
      invariant control.Charged(i + reader.position)
    {
      var charged := control.Checkpoint(1);
      if charged.Failure? {
        return Failure(charged.error), total;
      }
      NamesLeft(entries[..], given, defined, names, i);
      if defined[i] {
        var name := ReadExternalName(reader, |names|, count, totalBefore, limits, control);
        if name.Failure? {
          return Failure(name.error), total;
        }
        NextTotal(names, name.value);
        total := total + 2 * |name.value|;
        if total > limits.maxTotalNameBytes {
          NamesTooLong(data, 0, |names| + 1, count, totalBefore, limits);
          return Failure(LimitExceeded(TotalNameBytes)), total;
        }
        OneMoreWithin(names, name.value, totalBefore, limits);
        OneMoreNamed(entries[..], given, defined, names, i, name.value);
        ghost var now := entries[..];
        names := names + [name.value];
        entries[i] := Some(name.value);
        assert entries[..] == now[i := Some(name.value)];
      } else {
        OneMoreNamed(entries[..], given, defined, names, i, []);
      }
    }
    EndOfNames(data, 0, |names|, reader.position, 0);
    NamesCounted(entries[..], given, defined, names);
    if reader.position != |data| {
      return Failure(Format(Unconsumed)), total;
    }
    return Success(()), total;
  }

  lemma NoneNamed(given: seq<Option<Name>>, defined: seq<bool>, before: nat, limits: Limits)
    requires |given| == |defined|
    ensures EntriesNamed(given, given, defined, [], 0) && NameBytes([], 0) == 0 && Within([], before, limits)
  {
  }

  lemma NamesLeft(now: seq<Option<Name>>, given: seq<Option<Name>>, defined: seq<bool>, names: seq<Name>, n: nat)
    requires EntriesNamed(now, given, defined, names, n) && n < |defined|
    ensures defined[n] ==> |names| < SetBefore(defined, |defined|)
  {
    SetMonotone(defined, n + 1, |defined|);
  }

  lemma NamesCounted(now: seq<Option<Name>>, given: seq<Option<Name>>, defined: seq<bool>, names: seq<Name>)
    requires EntriesNamed(now, given, defined, names, |defined|)
    ensures |names| == SetBefore(defined, |defined|)
  {
  }

  // ----- Both storages hold the same names.

  /** The inline form is the external one behind a zero byte. */
  lemma {:induction false} NameShifted(body: Bytes, p: nat)
    ensures
      var inside := NameAt([0] + body, p + 1);
      var outside := NameAt(body, p);
      if outside.None? then inside.None? else inside == Some(Parsed(outside.value.value, outside.value.end + 1))
    decreases |body| - p
  {
    if p + 2 <= |body| {
      assert UnitAt([0] + body, p + 1) == UnitAt(body, p);
      NameShifted(body, p + 2);
    }
  }

  lemma {:induction false} NamesShifted(body: Bytes, count: nat)
    ensures
      var inside := NamesAt([0] + body, 1, count);
      var outside := NamesAt(body, 0, count);
      if outside.None? then inside.None? else inside == Some(Parsed(outside.value.value, outside.value.end + 1))
    decreases count
  {
    hide NameAt;
    if count > 0 {
      NamesShifted(body, count - 1);
      var before := NamesAt(body, 0, count - 1);
      if before.Some? {
        NameShifted(body, before.value.end);
      }
    }
  }

  /** Same byte strings, same limits, same names. */
  lemma SameNames(body: Bytes, count: nat, limits: Limits)
    ensures InlineOk([0] + body, count, limits) <==> NamesOk(body, 0, count, 0, limits)
    ensures NamesOk(body, 0, count, 0, limits) ==>
      NamesAt([0] + body, 1, count).value.value == NamesAt(body, 0, count).value.value
  {
    hide NamesAt, Within;
    NamesShifted(body, count);
  }

  lemma {:induction false} AllDefined(n: nat, k: nat)
    requires k <= n
    ensures SetBefore(seq(n, _ => true), k) == k
    decreases k
  {
    if k > 0 {
      AllDefined(n, k - 1);
    }
  }

  /** Name bytes the entries already hold. */
  function HeldBytes(entries: seq<Option<Name>>, k: nat): nat
    requires k <= |entries|
  {
    if k == 0 then 0 else HeldBytes(entries, k - 1) + if entries[k - 1].Some? then 2 * |entries[k - 1].value| else 0
  }

  lemma {:induction false} HeldMonotone(entries: seq<Option<Name>>, a: nat, b: nat)
    requires a <= b <= |entries|
    ensures HeldBytes(entries, a) <= HeldBytes(entries, b)
    decreases b
  {
    if a < b {
      HeldMonotone(entries, a, b - 1);
    }
  }

  method InitialNameBytes(entries: seq<Option<Name>>) returns (r: Result<u64>)
    ensures
      if HeldBytes(entries, |entries|) <= U64_MAX then r == Success(HeldBytes(entries, |entries|))
      else r == Failure(Format(NameBytesOverflow))
  {
    var total: u64 := 0;
    for i := 0 to |entries|
      invariant total == HeldBytes(entries, i)
    {
      HeldMonotone(entries, i + 1, |entries|);
      var bytes := if entries[i].Some? then 2 * |entries[i].value| else 0;
      if total + bytes > U64_MAX {
        return Failure(Format(NameBytesOverflow));
      }
      total := total + bytes;
    }
    return Success(total);
  }

  lemma {:induction false} NothingHeld(entries: seq<Option<Name>>, k: nat)
    requires k <= |entries| && forall i :: 0 <= i < |entries| ==> entries[i].None?
    ensures HeldBytes(entries, k) == 0
    decreases k
  {
    if k > 0 {
      NothingHeld(entries, k - 1);
    }
  }

  lemma NamedInTurn(now: seq<Option<Name>>, given: seq<Option<Name>>, names: seq<Name>, n: nat)
    requires |given| == n && EntriesNamed(now, given, seq(n, _ => true), names, n)
    ensures |now| == |names| == n && forall i :: 0 <= i < n ==> now[i] == Some(names[i])
  {
    AllDefined(n, n);
    forall i: nat | i < n ensures now[i] == Some(names[i]) {
      AllDefined(n, i);
    }
  }

  /** Both readers on the same names: inline behind a zero byte, and as an external
      stream for entries that are all defined and not yet named. With enough work
      allowed they succeed together and leave the same names. */
  method ReadBothStorages(body: Bytes, count: u64, limits: Limits, inlineControl: ParseControl,
                          externalControl: ParseControl)
      returns (inside: Result<ParsedNames>, outside: Result<()>, entries: array<Option<Name>>)
    requires |body| < U64_MAX && inlineControl != externalControl
    requires inlineControl.Ample(2 * |body| + 12) && externalControl.Ample(count + |body|)
    modifies inlineControl, externalControl
    ensures inside.Success? <==> outside.Success?
    ensures inside.Success? ==>
      && inside.value.Inline? && entries.Length == |inside.value.names| == count
      && forall i :: 0 <= i < entries.Length ==> entries[i] == Some(inside.value.names[i])
  {
    hide NamesAt, Within, EntriesNamed, SetBefore, UintAt;
    inside := ParseNames([0] + body, count, limits, inlineControl);
    entries := new Option<Name>[count](_ => None);
    ghost var given := entries[..];
    NothingHeld(given, |given|);
    var held := InitialNameBytes(entries[..]);
    var defined := seq(count, _ => true);
    AllDefined(count, count);
    SameNames(body, count, limits);
    var total;
    outside, total := ApplyExternalNames(entries, defined, body, held.value, limits, externalControl);
    if outside.Success? {
      NamedInTurn(entries[..], given, NamesAt(body, 0, count).value.value, count);
    }
  }
}
