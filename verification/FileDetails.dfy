/** The properties of a file list: which data each known identifier names, and the
    vectors of optional fixed-width numbers among them (times, attributes, positions). */
module FileDetails {
  import opened Support
  import opened Sequences
  import opened Bounded
  import opened Reading
  import opened SubstreamSyntax
  import opened HeaderSyntax

  const ID_EMPTY_STREAM: u8 := 0x0e
  const ID_EMPTY_FILE: u8 := 0x0f
  const ID_ANTI: u8 := 0x10
  const ID_NAME: u8 := 0x11
  const ID_CTIME: u8 := 0x12
  const ID_ATIME: u8 := 0x13
  const ID_MTIME: u8 := 0x14
  const ID_WIN_ATTRIBUTES: u8 := 0x15
  const ID_START_POS: u8 := 0x18
  const ID_DUMMY: u8 := 0x19

  // ----- Which property is which.

  predicate Known(id: u8) {
    ID_EMPTY_STREAM <= id <= ID_WIN_ATTRIBUTES || id == ID_START_POS
  }

  predicate KnownOnce(properties: seq<RawProperty>) {
    forall i, j :: 0 <= i < j < |properties| && Known(properties[i].id) ==> properties[i].id != properties[j].id
  }

  predicate OnlyZeros(data: Bytes) {
    forall i :: 0 <= i < |data| ==> data[i] == 0
  }

  predicate DummiesZero(properties: seq<RawProperty>) {
    forall i :: 0 <= i < |properties| && properties[i].id == ID_DUMMY ==> OnlyZeros(properties[i].data)
  }

  /** Every known property is in its slot, and every filled slot holds one. */
  predicate SlotsOk(slots: map<u8, Bytes>, properties: seq<RawProperty>) {
    && (forall i :: 0 <= i < |properties| && Known(properties[i].id) ==>
          properties[i].id in slots && slots[properties[i].id] == properties[i].data)
    && (forall id :: id in slots ==> Known(id) && exists i :: 0 <= i < |properties| && properties[i].id == id)
  }

  /** The properties kept without being understood, in order. */
  function UnknownOf(properties: seq<RawProperty>): seq<RawProperty> {
    if |properties| == 0 then []
    else
      var last := properties[|properties| - 1];
      UnknownOf(properties[..|properties| - 1]) + if Known(last.id) || last.id == ID_DUMMY then [] else [last]
  }

  datatype Collected = Collected(slots: map<u8, Bytes>, unknown: seq<RawProperty>)

  predicate CollectedOk(c: Collected, properties: seq<RawProperty>) {
    KnownOnce(properties) && DummiesZero(properties) && SlotsOk(c.slots, properties)
      && c.unknown == UnknownOf(properties)
  }

  predicate CollectFault(e: Error) {
    Interruption(e) || e == Format(PropertyDuplicated) || e == Format(DummyNonzero)
  }

  function AddProperty(c: Collected, q: RawProperty): Result<Collected> {
    if Known(q.id) then
      if q.id in c.slots then Failure(Format(PropertyDuplicated)) else Success(c.(slots := c.slots[q.id := q.data]))
    else if q.id == ID_DUMMY then
      if OnlyZeros(q.data) then Success(c) else Failure(Format(DummyNonzero))
    else Success(c.(unknown := c.unknown + [q]))
  }

  lemma PropertyAdded(c: Collected, properties: seq<RawProperty>, k: nat)
    requires k < |properties| && CollectedOk(c, properties[..k])
    ensures
      var next := AddProperty(c, properties[k]);
      if next.Success? then CollectedOk(next.value, properties[..k + 1])
      else CollectFault(next.error) && !(KnownOnce(properties) && DummiesZero(properties))
  {
    hide Known, OnlyZeros, UnknownOf;
    var before, q := properties[..k], properties[k];
    assert properties[..k + 1] == before + [q];
    if AddProperty(c, q).Success? {
      KeptProperty(c, before, q);
    } else if Known(q.id) {
      var i :| 0 <= i < |before| && before[i].id == q.id;
      assert properties[i].id == properties[k].id;
    }
  }

  lemma KeptProperty(c: Collected, before: seq<RawProperty>, q: RawProperty)
    requires CollectedOk(c, before) && AddProperty(c, q).Success?
    ensures CollectedOk(AddProperty(c, q).value, before + [q])
  {
    hide OnlyZeros, KnownOnce, DummiesZero, SlotsOk;
    SlotsFilled(c.slots, before, q);
    StillOnce(before, q);
    StillZero(before, q);
    assert (before + [q])[..|before|] == before;
  }

  lemma StillOnce(before: seq<RawProperty>, q: RawProperty)
    requires KnownOnce(before) && forall i :: 0 <= i < |before| && Known(before[i].id) ==> before[i].id != q.id
    ensures KnownOnce(before + [q])
  {
    hide Known;
  }

  lemma StillZero(before: seq<RawProperty>, q: RawProperty)
    requires DummiesZero(before) && (q.id == ID_DUMMY ==> OnlyZeros(q.data))
    ensures DummiesZero(before + [q])
  {
    hide OnlyZeros;
  }

  lemma SlotsFilled(slots: map<u8, Bytes>, before: seq<RawProperty>, q: RawProperty)
    requires SlotsOk(slots, before) && (Known(q.id) ==> q.id !in slots)
    ensures SlotsOk(if Known(q.id) then slots[q.id := q.data] else slots, before + [q])
    ensures forall i :: 0 <= i < |before| && Known(before[i].id) ==> before[i].id != q.id
  {
    hide Known;
    var after, filled := before + [q], if Known(q.id) then slots[q.id := q.data] else slots;
    forall i: nat | i < |after| && Known(after[i].id)
      ensures after[i].id in filled && filled[after[i].id] == after[i].data {
      if i < |before| {
        assert after[i] == before[i];
      }
    }
    forall id | id in filled ensures Known(id) && exists i :: 0 <= i < |after| && after[i].id == id {
      if id in slots {
        var i :| 0 <= i < |before| && before[i].id == id;
        assert after[i].id == id;
      } else {
        assert after[|before|].id == id;
      }
    }
  }

  method AllZeros(data: Bytes) returns (zeros: bool)
    ensures zeros == OnlyZeros(data)
  {
    for i := 0 to |data|
      invariant forall j :: 0 <= j < i ==> data[j] == 0
    {
      if data[i] != 0 {
        return false;
      }
    }
    return true;
  }

  /** One property into its slot, or to the unknown ones; dummies are only checked. */
  method CollectProperty(c: Collected, q: RawProperty, control: ParseControl) returns (r: Result<Collected>)
    requires |q.data| <= U64_MAX
    modifies control
    ensures (Interrupted(r) && control.stopped) || r == AddProperty(c, q)
  {
    if Known(q.id) {
      if q.id in c.slots {
        return Failure(Format(PropertyDuplicated));
      }
      return Success(c.(slots := c.slots[q.id := q.data]));
    }
    if q.id == ID_DUMMY {
      var zeros := AllZeros(q.data);
      if !zeros {
        return Failure(Format(DummyNonzero));
      }
      return Success(c);
    }
    var data :- CopyBytes(q.data, control);
    return Success(c.(unknown := c.unknown + [RawProperty(q.id, data)]));
  }

  /** Accepts exactly the lists that name no known property twice and leave dummies zero. */
  method CollectProperties(properties: seq<RawProperty>, control: ParseControl) returns (r: Result<Collected>)
    requires StoredProperties(properties)
    modifies control
    ensures r.Success? ==> CollectedOk(r.value, properties)
    ensures r.Failure? ==> CollectFault(r.error)
    ensures r.Failure? ==> (Interrupted(r) && control.stopped) || !(KnownOnce(properties) && DummiesZero(properties))
  {
    hide CollectedOk, AddProperty, CollectFault, KnownOnce, DummiesZero;
    NothingCollected();
    var c := Collected(map[], []);
    for k := 0 to |properties|
      invariant CollectedOk(c, properties[..k])
    {
      assert properties[k] in properties;
      PropertyAdded(c, properties, k);
      c :- CollectProperty(c, properties[k], control);
    }
    assert properties[..|properties|] == properties;
    return Success(c);
  }

  lemma NothingCollected()
    ensures CollectedOk(Collected(map[], []), []) && forall e :: Interruption(e) ==> CollectFault(e)
  {
  }

  /** The list determines the slots. */
  lemma SlotsAgree(a: map<u8, Bytes>, b: map<u8, Bytes>, properties: seq<RawProperty>)
    requires SlotsOk(a, properties) && SlotsOk(b, properties)
    ensures a == b
  {
    forall id | id in a || id in b ensures id in a && id in b && a[id] == b[id] {
      var i :| 0 <= i < |properties| && properties[i].id == id;
    }
  }

  /** The data of a known property, if the list has it. */
  function Slot(slots: map<u8, Bytes>, id: u8): Option<Bytes> {
    if id in slots then Some(slots[id]) else None
  }

  /** Looking a slot up is looking the property up in the list. */
  lemma SlotIsProperty(c: Collected, properties: seq<RawProperty>, id: u8, data: Bytes)
    requires CollectedOk(c, properties) && Known(id)
    ensures Slot(c.slots, id) == Some(data) <==> RawProperty(id, data) in properties
  {
    if id in c.slots {
      var i :| 0 <= i < |properties| && properties[i].id == id;
      assert properties[i] == RawProperty(id, c.slots[id]);
    }
    if RawProperty(id, data) in properties {
      var i :| 0 <= i < |properties| && properties[i] == RawProperty(id, data);
      assert properties[i].id in c.slots;
    }
  }

  // ----- Vectors of optional numbers.

  predicate Width(width: nat) {
    width == 4 || width == 8
  }

  function NumberAt(bytes: Bytes, p: nat, width: nat): (r: Result<Parsed<u64>>)
    requires Width(width)
    ensures r.Success? ==> r.value.end == p + width <= |bytes|
    ensures r.Failure? ==> r.error == Format(TruncatedRange)
  {
    if p + width > |bytes| then Failure(Format(TruncatedRange))
    else
      Powers();
      Success(Parsed(LittleEndian(bytes, p, width), p + width))
  }

  function NumbersFrom(bytes: Bytes, p: nat, defined: seq<bool>, k: nat,
                       width: nat): (r: Result<Parsed<seq<Option<u64>>>>)
    requires p <= |bytes| && k <= |defined| && Width(width)
    ensures r.Success? ==> p <= r.value.end <= |bytes| && |r.value.value| == k
    ensures r.Failure? ==> r.error == Format(TruncatedRange)
  {
    if k == 0 then Success(Parsed([], p))
    else
      var before :- NumbersFrom(bytes, p, defined, k - 1, width);
      if !defined[k - 1] then Success(Parsed(before.value + [None], before.end))
      else
        var number :- NumberAt(bytes, before.end, width);
        Success(Parsed(before.value + [Some(number.value)], number.end))
  }

  lemma {:induction false} NumbersFail(bytes: Bytes, p: nat, defined: seq<bool>, a: nat, b: nat, width: nat)
    requires p <= |bytes| && a <= b <= |defined| && Width(width) && NumbersFrom(bytes, p, defined, a, width).Failure?
    ensures NumbersFrom(bytes, p, defined, b, width) == NumbersFrom(bytes, p, defined, a, width)
    decreases b
  {
    hide NumberAt;
    if a < b {
      NumbersFail(bytes, p, defined, a, b - 1, width);
    }
  }

  /** Where entry k's number stands: behind those of the defined entries before it. */
  function NumberStart(p: nat, defined: seq<bool>, k: nat, width: nat): nat
    requires k <= |defined|
  {
    p + width * SetBefore(defined, k)
  }

  lemma NumberStarts(p: nat, defined: seq<bool>, k: nat, width: nat)
    requires k < |defined|
    ensures NumberStart(p, defined, 0, width) == p
    ensures NumberStart(p, defined, k + 1, width) == NumberStart(p, defined, k, width) + if defined[k] then width else 0
  {
    if defined[k] {
      assert width * (SetBefore(defined, k) + 1) == width * SetBefore(defined, k) + width;
    }
  }

  lemma {:induction false} NumbersEnd(bytes: Bytes, p: nat, defined: seq<bool>, k: nat, width: nat)
    requires p <= |bytes| && k <= |defined| && Width(width)
    ensures NumbersFrom(bytes, p, defined, k, width).Success? <==> NumberStart(p, defined, k, width) <= |bytes|
    ensures
      var found := NumbersFrom(bytes, p, defined, k, width);
      found.Success? ==> found.value.end == NumberStart(p, defined, k, width)
    decreases k
  {
    if k > 0 {
      hide LittleEndian, NumberStart, SetBefore, Width;
      NumbersEnd(bytes, p, defined, k - 1, width);
      NumberStarts(p, defined, k - 1, width);
    }
  }

  /** The numbers stand one after the other, one for each defined entry. */
  lemma {:induction false} NumbersInTurn(bytes: Bytes, p: nat, defined: seq<bool>, k: nat, width: nat, i: nat)
    requires p <= |bytes| && i < k <= |defined| && Width(width) && NumbersFrom(bytes, p, defined, k, width).Success?
    ensures
      var number := NumberAt(bytes, NumberStart(p, defined, i, width), width);
      NumbersFrom(bytes, p, defined, k, width).value.value[i]
        == if defined[i] && number.Success? then Some(number.value.value) else None
    ensures defined[i] ==> NumbersFrom(bytes, p, defined, k, width).value.value[i].Some?
    decreases k
  {
    hide NumberAt, NumberStart, Width;
    NumbersEnd(bytes, p, defined, k - 1, width);
    if i < k - 1 {
      NumbersInTurn(bytes, p, defined, k - 1, width, i);
    }
  }

  method ReadNumber(reader: BoundedReader, width: nat, control: ParseControl) returns (r: Result<u64>)
    requires reader.Valid() && Width(width)
    modifies reader, control
    ensures Reads(reader, control, NumberAt(reader.bytes, old(reader.position), width), r)
  {
    hide LittleEndian;
    ghost var p := reader.position;
    var _ :- control.Checkpoint(width);
    var taken :- reader.ReadBytes(width);
    SameNumber(reader.bytes, p, width, width);
    return Success(LittleEndian(taken, 0, width));
  }

  lemma {:induction false} SameNumber(bytes: Bytes, p: nat, width: nat, n: nat)
    requires p + width <= |bytes| && n <= width
    ensures LittleEndian(bytes[p..p + width], 0, n) == LittleEndian(bytes, p, n)
    decreases n
  {
    hide Pow256;
    if n > 0 {
      SameNumber(bytes, p, width, n - 1);
    }
  }

  method ReadNumbers(reader: BoundedReader, defined: seq<bool>, width: nat, control: ParseControl)
      returns (r: Result<seq<Option<u64>>>)
    requires reader.Valid() && Width(width)
    modifies reader, control
    ensures Follows(reader, control, NumbersFrom(reader.bytes, old(reader.position), defined, |defined|, width), r)
  {
    hide NumberAt;
    ghost var start := reader.position;
    var values: seq<Option<u64>> := [];
    for i := 0 to |defined|
      invariant reader.Valid()
      invariant NumbersFrom(reader.bytes, start, defined, i, width) == Success(Parsed(values, reader.position))
      invariant control.stopped == old(control.stopped)
    {
      var _ :- control.Checkpoint(1);
      if defined[i] {
        var number := ReadNumber(reader, width, control);
        if number.Failure? {
          if !Interruption(number.error) {
            NumbersFail(reader.bytes, start, defined, i + 1, |defined|, width);
          }
          return Failure(number.error);
        }
        values := values + [Some(number.value)];
      } else {
        values := values + [None];
      }
    }
    return Success(values);
  }

  datatype PropertyValues = InlineValues(values: seq<Option<u64>>) | ExternalValues(dataIndex: u64, defined: seq<bool>)

  /** Which entries are defined: all, or those whose bits are set. */
  function OptionalBitsAt(bytes: Bytes, p: nat, count: nat): (r: Result<Parsed<seq<bool>>>)
    requires p <= |bytes|
    ensures r.Success? ==> p <= r.value.end <= |bytes| && |r.value.value| == count
    ensures r.Failure? ==> r.error == Format(TruncatedRange)
  {
    var all :- U8At(bytes, p);
    DefinedAt(bytes, all.end, all.value != 0, count)
  }

  method ParseOptionalBits(reader: BoundedReader, count: u64, control: ParseControl) returns (r: Result<seq<bool>>)
    requires reader.Valid()
    modifies reader, control
    ensures Follows(reader, control, OptionalBitsAt(reader.bytes, old(reader.position), count), r)
  {
    hide BitsAt;
    var all :- ReadU8(reader, control);
    if all != 0 {
      return Success(seq(count, _ => true));
    }
    r := ParseBits(reader, count, control);
  }

  predicate ValueFault(e: Error) {
    e == Format(TruncatedRange) || e == Format(Unconsumed)
  }

  function DefinedValuesAt(data: Bytes, count: nat, width: nat): (r: Result<PropertyValues>)
    requires Width(width)
    ensures r.Success? ==> count == match r.value case InlineValues(values) => |values| case ExternalValues(_, defined) => |defined|
    ensures r.Failure? ==> ValueFault(r.error)
  {
    var defined :- OptionalBitsAt(data, 0, count);
    var external :- U8At(data, defined.end);
    if external.value != 0 then
      var index :- UintAt(data, external.end);
      if index.end != |data| then Failure(Format(Unconsumed)) else Success(ExternalValues(index.value, defined.value))
    else
      var values :- NumbersFrom(data, external.end, defined.value, count, width);
      if values.end != |data| then Failure(Format(Unconsumed)) else Success(InlineValues(values.value))
  }

  method ParseDefinedValues(data: Bytes, count: u64, width: nat, control: ParseControl)
      returns (r: Result<PropertyValues>)
    requires Width(width)
    modifies control
    ensures (Interrupted(r) && control.stopped) || r == DefinedValuesAt(data, count, width)
  {
    hide OptionalBitsAt, UintAt, NumbersFrom;
    var reader := new BoundedReader(data);
    var defined :- ParseOptionalBits(reader, count, control);
    var external :- ReadU8(reader, control);
    if external != 0 {
      var dataIndex :- ReadUint(reader, control);
      if reader.position != |data| {
        return Failure(Format(Unconsumed));
      }
      return Success(ExternalValues(dataIndex, defined));
    }
    var values :- ReadNumbers(reader, defined, width, control);
    if reader.position != |data| {
      return Failure(Format(Unconsumed));
    }
    return Success(InlineValues(values));
  }
}
