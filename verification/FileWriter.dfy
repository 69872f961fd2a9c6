/** Names and numbers of a file list as a writer puts them down. A property reads as
    given names or numbers exactly if it is written so. */
module FileWriter {
  import opened Support
  import opened Sequences
  import opened Numbers
  import opened Bounded
  import opened SubstreamSyntax
  import opened FileDetails
  import opened Names

  // ----- Names: two bytes a code unit, the low one first, and a zero unit behind.

  function NameText(name: Name): (text: Bytes)
    ensures |text| == 2 * |name| + 2
  {
    if |name| == 0 then [0, 0] else [name[0] % 0x100, name[0] / 0x100] + NameText(name[1..])
  }

  function NamesText(names: seq<Name>): Bytes {
    if |names| == 0 then [] else NamesText(names[..|names| - 1]) + NameText(names[|names| - 1])
  }

  lemma UnitStands(data: Bytes, p: nat, low: u8, high: u8)
    ensures At(data, p, [low, high]) <==> p + 2 <= |data| && data[p] == low && data[p + 1] == high
  {
    assert [low, high] == [low] + [high];
    AtConcat(data, p, [low], [high]);
    AtOne(data, p, low);
    AtOne(data, p + 1, high);
  }

  lemma UnitHalves(data: Bytes, p: nat, unit: u16)
    requires p + 2 <= |data|
    ensures UnitAt(data, p) == unit <==> data[p] == unit % 0x100 && data[p + 1] == unit / 0x100
  {
  }

  lemma PrependIs(unit: u16, rest: Option<Parsed<Name>>, name: Name, end: nat)
    requires |name| > 0
    ensures Prepend([unit], rest) == Some(Parsed(name, end))
      <==> unit == name[0] && rest == Some(Parsed(name[1..], end))
  {
    assert name == [name[0]] + name[1..];
    if rest.Some? {
      assert ([unit] + rest.value.value)[1..] == rest.value.value;
    }
  }

  lemma NonZeroOpens(name: Name)
    requires |name| > 0
    ensures NonZero(name) <==> name[0] != 0 && NonZero(name[1..])
  {
    assert forall i :: 0 < i < |name| ==> name[i] == name[1..][i - 1];
  }

  lemma NameOpens(data: Bytes, p: nat)
    ensures p + 2 > |data| ==> NameAt(data, p).None?
    ensures p + 2 <= |data| && UnitAt(data, p) == 0 ==> NameAt(data, p) == Some(Parsed([], p + 2))
    ensures p + 2 <= |data| && UnitAt(data, p) != 0 ==>
      NameAt(data, p) == Prepend([UnitAt(data, p)], NameAt(data, p + 2))
  {
  }

  /** A name is read where it is written, and nowhere else. */
  lemma {:induction false} NameReads(data: Bytes, p: nat, name: Name)
    ensures NameAt(data, p) == Some(Parsed(name, p + |NameText(name)|))
      <==> NonZero(name) && At(data, p, NameText(name))
    decreases |name|
  {
    hide At, UnitAt, NameAt, Prepend, NonZero;
    NameOpens(data, p);
    if |name| == 0 {
      EmptyNameReads(data, p);
      assert name == [];
    } else {
      var low: u8, high: u8 := name[0] % 0x100, name[0] / 0x100;
      AtConcat(data, p, [low, high], NameText(name[1..]));
      UnitStands(data, p, low, high);
      NameReads(data, p + 2, name[1..]);
      NonZeroOpens(name);
      if p + 2 <= |data| {
        UnitHalves(data, p, name[0]);
        PrependIs(UnitAt(data, p), NameAt(data, p + 2), name, p + |NameText(name)|);
      }
    }
  }

  lemma EmptyNameReads(data: Bytes, p: nat)
    ensures NameAt(data, p) == Some(Parsed([], p + 2)) <==> At(data, p, [0, 0])
    ensures NonZero([])
  {
    hide At;
    UnitStands(data, p, 0, 0);
  }

  predicate AllNonZero(names: seq<Name>) {
    forall i :: 0 <= i < |names| ==> NonZero(names[i])
  }

  /** The limits on names, in terms of what is written: two bytes of each name end it.
      `before` counts the bytes of names held already. */
  predicate NamesAllowed(names: seq<Name>, before: nat, limits: Limits) {
    && (forall i :: 0 <= i < |names| ==> 2 * |names[i]| <= limits.maxNameBytesPerEntry)
    && (|names| > 0 ==> before + |NamesText(names)| - 2 * |names| <= limits.maxTotalNameBytes)
  }

  lemma {:induction false} TextLength(names: seq<Name>, n: nat)
    requires n <= |names|
    ensures |NamesText(names[..n])| == NameBytes(names, n) + 2 * n
    decreases n
  {
    hide NameText;
    if n > 0 {
      TextLength(names, n - 1);
      assert names[..n][..n - 1] == names[..n - 1];
    }
  }

  lemma AllowedIsWithin(names: seq<Name>, before: nat, limits: Limits)
    ensures NamesAllowed(names, before, limits) <==> Within(names, before, limits)
  {
    hide NamesText, NameBytes;
    TextLength(names, |names|);
    assert names[..|names|] == names;
  }

  lemma NamesEnd(data: Bytes, p: nat, count: nat)
    requires p <= |data| && NamesAt(data, p, count).Some?
    ensures
      var found := NamesAt(data, p, count).value;
      found.end == p + |NamesText(found.value)|
    decreases count
  {
    hide NameAt, NameText;
    if count > 0 {
      NamesEnd(data, p, count - 1);
      var before, names := NamesAt(data, p, count - 1).value, NamesAt(data, p, count).value.value;
      assert names[..|names| - 1] == before.value;
    }
  }

  lemma NamesOpen(data: Bytes, p: nat, before: seq<Name>, q: nat, name: Name, end: nat)
    requires p <= |data| && NamesAt(data, p, |before|) == Some(Parsed(before, q))
    requires NameAt(data, q) == Some(Parsed(name, end))
    ensures NamesAt(data, p, |before| + 1) == Some(Parsed(before + [name], end))
  {
    hide NameAt;
  }

  lemma {:induction false} NamesRead(data: Bytes, p: nat, names: seq<Name>)
    requires p <= |data| && AllNonZero(names) && At(data, p, NamesText(names))
    ensures NamesAt(data, p, |names|) == Some(Parsed(names, p + |NamesText(names)|))
    decreases |names|
  {
    hide At, NameAt, NameText, NonZero, NamesAt;
    if |names| == 0 {
      NoNamesYet(data, p);
      assert names == [];
    } else {
      var n := |names| - 1;
      AtConcat(data, p, NamesText(names[..n]), NameText(names[n]));
      NamesRead(data, p, names[..n]);
      NameReads(data, p + |NamesText(names[..n])|, names[n]);
      NamesOpen(data, p, names[..n], p + |NamesText(names[..n])|, names[n], p + |NamesText(names)|);
      assert names == names[..n] + [names[n]];
    }
  }

  lemma {:induction false} NamesWritten(data: Bytes, p: nat, count: nat)
    requires p <= |data| && NamesAt(data, p, count).Some?
    ensures
      var names := NamesAt(data, p, count).value.value;
      AllNonZero(names) && At(data, p, NamesText(names))
    decreases count
  {
    hide At, NameAt, NameText, NonZero;
    if count == 0 {
      AtNothing(data, p);
    } else {
      var before, names := NamesAt(data, p, count - 1).value, NamesAt(data, p, count).value.value;
      NamesWritten(data, p, count - 1);
      NamesEnd(data, p, count - 1);
      assert names[..count - 1] == before.value;
      LastNameReads(data, before.end, names[count - 1]);
      NameReads(data, before.end, names[count - 1]);
      AtConcat(data, p, NamesText(before.value), NameText(names[count - 1]));
    }
  }

  lemma LastNameReads(data: Bytes, q: nat, name: Name)
    requires NameAt(data, q).Some? && NameAt(data, q).value.value == name
    ensures NameAt(data, q) == Some(Parsed(name, q + |NameText(name)|))
  {
    hide NameText;
  }

  /** The names that are there, written down. */
  function HeldText(entries: seq<Option<Name>>): Bytes {
    if |entries| == 0 then []
    else
      var last := entries[|entries| - 1];
      HeldText(entries[..|entries| - 1]) + if last.Some? then NameText(last.value) else []
  }

  function HeldCount(entries: seq<Option<Name>>): nat {
    if |entries| == 0 then 0 else HeldCount(entries[..|entries| - 1]) + if entries[|entries| - 1].Some? then 1 else 0
  }

  /** The bytes held are those written, less the two that end each name. */
  lemma {:induction false} HeldIsWritten(entries: seq<Option<Name>>, n: nat)
    requires n <= |entries|
    ensures HeldBytes(entries, n) == |HeldText(entries[..n])| - 2 * HeldCount(entries[..n])
    decreases n
  {
    hide NameText;
    if n > 0 {
      HeldIsWritten(entries, n - 1);
      assert entries[..n][..n - 1] == entries[..n - 1];
    }
  }

  /** The one-pass reader's acceptance condition, in terms of what is written. */
  lemma StreamAccepted(data: Bytes, names: seq<Name>, before: nat, limits: Limits)
    ensures
      (NamesAt(data, 0, |names|) == Some(Parsed(names, |data|)) && NamesOk(data, 0, |names|, before, limits))
      <==> (AllNonZero(names) && data == NamesText(names) && NamesAllowed(names, before, limits))
  {
    hide NamesAt, NamesText, AllNonZero, NamesAllowed, Within;
    NamesFill(data, names);
    AllowedIsWithin(names, before, limits);
  }

  /** The names are what fills the data, if and only if writing them gives the data. */
  lemma NamesFill(data: Bytes, names: seq<Name>)
    ensures NamesAt(data, 0, |names|) == Some(Parsed(names, |data|)) <==> AllNonZero(names) && data == NamesText(names)
  {
    hide NamesAt, NamesText, AllNonZero;
    assert data[0..|data|] == data;
    if NamesAt(data, 0, |names|) == Some(Parsed(names, |data|)) {
      NamesWritten(data, 0, |names|);
      NamesEnd(data, 0, |names|);
    }
    if AllNonZero(names) && data == NamesText(names) {
      NamesRead(data, 0, names);
    }
  }

  // ----- Numbers, lowest byte first.

  function NumberText(v: nat, width: nat): (text: Bytes)
    ensures |text| == width
  {
    if width == 0 then [] else [v % 0x100] + NumberText(v / 0x100, width - 1)
  }

  lemma LowAndRest(v: nat, b: u8, rest: nat)
    ensures v == b + 0x100 * rest <==> b == v % 0x100 && rest == v / 0x100
  {
  }

  lemma {:induction false} NumberReads(bytes: Bytes, p: nat, v: nat, n: nat)
    requires p + n <= |bytes| && v < Pow256(n)
    ensures LittleEndian(bytes, p, n) == v <==> At(bytes, p, NumberText(v, n))
    decreases n
  {
    hide At, LittleEndian;
    if n == 0 {
      AtNothing(bytes, p);
      NoLowBytes(bytes, p);
    } else {
      var low: u8 := v % 0x100;
      LowAndRest(v, bytes[p], LittleEndian(bytes, p + 1, n - 1));
      LowFirst(bytes, p, n);
      NumberReads(bytes, p + 1, v / 0x100, n - 1);
      AtConcat(bytes, p, [low], NumberText(v / 0x100, n - 1));
      AtOne(bytes, p, low);
    }
  }

  /** The numbers that are defined, one behind the other. */
  function NumbersText(values: seq<Option<u64>>, width: nat): Bytes {
    if |values| == 0 then []
    else
      var n := |values| - 1;
      NumbersText(values[..n], width) + if values[n].Some? then NumberText(values[n].value, width) else []
  }

  /** Flag i of a bit vector: 128 for the first of a byte, 1 for the last. */
  predicate BitIn(data: Bytes, p: nat, i: nat) {
    p + i / 8 < |data| && data[p + i / 8] / Pow2(7 - i % 8) % 2 == 1
  }

  lemma SameBit(data: Bytes, p: nat, i: nat)
    ensures BitIn(data, p, i) == BitAt(data, p, i)
  {
    MaskIsPower(i % 8);
  }

  lemma MaskIsPower(k: nat)
    requires k < 8
    ensures Mask(k) == Pow2(7 - k)
  {
    assert Pow2(1) == 2 && Pow2(2) == 4 && Pow2(3) == 8 && Pow2(4) == 16;
    assert Pow2(5) == 32 && Pow2(6) == 64 && Pow2(7) == 128;
  }

  /** How many bytes say which files have a number: one if all have, or a bit vector besides. */
  function FlagLength(data: Bytes, count: nat): nat {
    if |data| > 0 && data[0] != 0 then 1 else 1 + (count + 7) / 8
  }

  predicate DefinedIn(data: Bytes, i: nat) {
    |data| > 0 && (data[0] != 0 || BitIn(data, 1, i))
  }

  /** The property gives each file the number in `values`, if any, written in `width` bytes. */
  predicate HoldsNumbers(data: Bytes, values: seq<Option<u64>>, width: nat) {
    var flags := FlagLength(data, |values|);
    && flags < |data| && data[flags..] == [0] + NumbersText(values, width)
    && forall i :: 0 <= i < |values| ==> InRange(values[i], width) && values[i].Some? == DefinedIn(data, i)
  }

  /** The property says where the numbers are, and which files have one. */
  predicate HoldsIndex(data: Bytes, defined: seq<bool>, index: u64) {
    var flags := FlagLength(data, |defined|);
    && flags < |data| && data[flags] != 0 && UintAt(data, flags + 1) == Success(Parsed(index, |data|))
    && (forall i :: 0 <= i < |defined| ==> (defined[i] <==> DefinedIn(data, i)))
  }

  predicate InRange(value: Option<u64>, width: nat) {
    value.Some? && width == 4 ==> value.value < 0x1_0000_0000
  }

  lemma OneNumber(bytes: Bytes, p: nat, v: u64, width: nat)
    requires Width(width)
    ensures NumberAt(bytes, p, width) == Success(Parsed(v, p + width))
      <==> InRange(Some(v), width) && At(bytes, p, NumberText(v, width))
  {
    hide At, NumberText, LittleEndian;
    Powers();
    if p + width <= |bytes| {
      if InRange(Some(v), width) {
        NumberReads(bytes, p, v, width);
      }
    } else if At(bytes, p, NumberText(v, width)) {
      AtBounds(bytes, p, NumberText(v, width));
    }
  }

  lemma {:induction false} NumbersHeld(bytes: Bytes, p: nat, defined: seq<bool>, k: nat, width: nat)
    requires p <= |bytes| && k <= |defined| && Width(width) && NumbersFrom(bytes, p, defined, k, width).Success?
    ensures
      var found := NumbersFrom(bytes, p, defined, k, width).value;
      var text := NumbersText(found.value, width);
      && found.end == p + |text| && At(bytes, p, text)
      && forall i :: 0 <= i < k ==> InRange(found.value[i], width) && found.value[i].Some? == defined[i]
    decreases k
  {
    hide At, NumberText, NumberAt, InRange;
    if k == 0 {
      AtNothing(bytes, p);
    } else {
      NumbersHeld(bytes, p, defined, k - 1, width);
      var before, found := NumbersFrom(bytes, p, defined, k - 1, width).value,
          NumbersFrom(bytes, p, defined, k, width).value;
      assert found.value[..k - 1] == before.value;
      LastNumber(bytes, before.end, found.value[k - 1], defined[k - 1], width);
      var last := if defined[k - 1] then NumberText(found.value[k - 1].value, width) else [];
      AtConcat(bytes, p, NumbersText(before.value, width), last);
    }
  }

  lemma LastNumber(bytes: Bytes, q: nat, value: Option<u64>, defined: bool, width: nat)
    requires q <= |bytes| && Width(width)
    requires
      if defined then
        NumberAt(bytes, q, width).Success? && value == Some(NumberAt(bytes, q, width).value.value)
      else value == None
    ensures InRange(value, width) && At(bytes, q, if value.Some? then NumberText(value.value, width) else [])
  {
    hide At, NumberText, InRange, LittleEndian;
    AtNothing(bytes, q);
    if defined {
      OneNumber(bytes, q, value.value, width);
    } else {
      NoNumberInRange(width);
    }
  }

  lemma NoNumberInRange(width: nat)
    ensures InRange(None, width)
  {
  }

  lemma NumbersStep(bytes: Bytes, p: nat, defined: seq<bool>, before: seq<Option<u64>>, q: nat, value: Option<u64>,
                    width: nat)
    requires p <= |bytes| && |before| < |defined| && Width(width)
    requires NumbersFrom(bytes, p, defined, |before|, width) == Success(Parsed(before, q))
    requires defined[|before|] == value.Some?
    requires value.Some? ==> NumberAt(bytes, q, width) == Success(Parsed(value.value, q + width))
    ensures NumbersFrom(bytes, p, defined, |before| + 1, width)
      == Success(Parsed(before + [value], q + if value.Some? then width else 0))
  {
    hide NumberAt;
  }

  lemma NoNumbersFrom(bytes: Bytes, p: nat, defined: seq<bool>, width: nat)
    requires p <= |bytes| && Width(width)
    ensures NumbersFrom(bytes, p, defined, 0, width) == Success(Parsed([], p))
  {
  }

  lemma {:induction false} NumbersRead(bytes: Bytes, p: nat, defined: seq<bool>, values: seq<Option<u64>>, width: nat)
    requires p <= |bytes| && |values| <= |defined| && Width(width) && At(bytes, p, NumbersText(values, width))
    requires forall i :: 0 <= i < |values| ==> InRange(values[i], width) && values[i].Some? == defined[i]
    ensures NumbersFrom(bytes, p, defined, |values|, width)
      == Success(Parsed(values, p + |NumbersText(values, width)|))
    decreases |values|
  {
    hide At, NumberText, NumberAt, NumbersFrom, InRange;
    if |values| == 0 {
      NoNumbersFrom(bytes, p, defined, width);
      assert values == [];
    } else {
      var n := |values| - 1;
      var last := if values[n].Some? then NumberText(values[n].value, width) else [];
      var q := p + |NumbersText(values[..n], width)|;
      AtConcat(bytes, p, NumbersText(values[..n], width), last);
      NumbersRead(bytes, p, defined, values[..n], width);
      if values[n].Some? {
        OneNumber(bytes, q, values[n].value, width);
      }
      NumbersStep(bytes, p, defined, values[..n], q, values[n], width);
      assert values == values[..n] + [values[n]];
    }
  }

  lemma FlagsRead(data: Bytes, count: nat)
    ensures
      var found := OptionalBitsAt(data, 0, count);
      && (found.Success? <==> 0 < |data| && FlagLength(data, count) <= |data|)
      && (found.Success? ==>
            && found.value.end == FlagLength(data, count)
            && forall i :: 0 <= i < count ==> found.value.value[i] == DefinedIn(data, i))
  {
    hide Bits, BitAt, BitIn;
    if |data| > 0 && data[0] == 0 && FlagLength(data, count) <= |data| {
      forall i | 0 <= i < count ensures Bits(data, 1, count)[i] == DefinedIn(data, i) {
        BitsPrefix(data, 1, i, count);
        SameBit(data, 1, i);
      }
    }
  }

  lemma Suffix(data: Bytes, p: nat, text: Bytes)
    requires p <= |data|
    ensures data[p..] == text <==> At(data, p, text) && p + |text| == |data|
  {
  }

  lemma SameNumbers(data: Bytes, values: seq<Option<u64>>, width: nat)
    requires Width(width)
    ensures HoldsNumbers(data, values, width) <==>
      && 0 < |data| && FlagLength(data, |values|) < |data| && data[FlagLength(data, |values|)] == 0
      && At(data, FlagLength(data, |values|) + 1, NumbersText(values, width))
      && FlagLength(data, |values|) + 1 + |NumbersText(values, width)| == |data|
      && forall i :: 0 <= i < |values| ==> InRange(values[i], width) && values[i].Some? == DefinedIn(data, i)
  {
    hide At, NumbersText, DefinedIn;
    var flags, zero: Bytes := FlagLength(data, |values|), [0];
    if flags < |data| {
      Suffix(data, flags, zero + NumbersText(values, width));
      AtConcat(data, flags, zero, NumbersText(values, width));
      AtOne(data, flags, 0);
    }
  }

  /** The parser reads numbers from a property if and only if the property holds them. */
  lemma NumbersExactly(data: Bytes, values: seq<Option<u64>>, width: nat)
    requires Width(width)
    ensures DefinedValuesAt(data, |values|, width) == Success(InlineValues(values))
      <==> HoldsNumbers(data, values, width)
  {
    hide OptionalBitsAt, NumbersFrom, NumbersText, HoldsNumbers, FlagLength, DefinedIn, UintAt, InRange, At;
    SameNumbers(data, values, width);
    FlagsRead(data, |values|);
    var found := OptionalBitsAt(data, 0, |values|);
    if found.Success? {
      var p, defined := found.value.end + 1, found.value.value;
      if p <= |data| && NumbersFrom(data, p, defined, |values|, width).Success? {
        NumbersHeld(data, p, defined, |values|, width);
      }
      if HoldsNumbers(data, values, width) {
        NumbersRead(data, p, defined, values, width);
      }
    }
  }

  /** The parser is referred to another stream if and only if the property refers there. */
  lemma IndexExactly(data: Bytes, defined: seq<bool>, index: u64, width: nat)
    requires Width(width)
    ensures DefinedValuesAt(data, |defined|, width) == Success(ExternalValues(index, defined))
      <==> HoldsIndex(data, defined, index)
  {
    hide OptionalBitsAt, NumbersFrom, FlagLength, DefinedIn, UintAt;
    FlagsRead(data, |defined|);
    var found := OptionalBitsAt(data, 0, |defined|);
    if found.Success? && forall i :: 0 <= i < |defined| ==> found.value.value[i] == defined[i] {
      assert found.value.value == defined;
    }
  }
}
