/** The number fields of CPIO headers: fixed-width hexadecimal and octal digits, and
    16-bit words in either byte order. */
module CpioFields {
  import opened Support
  import opened Sequences

  // ----- Digits.

  function HexDigit(b: u8): Option<nat> {
    if 0x30 <= b <= 0x39 then Some(b - 0x30)
    else if 0x61 <= b <= 0x66 then Some(b - 0x61 + 10)
    else if 0x41 <= b <= 0x46 then Some(b - 0x41 + 10)
    else None
  }

  function OctalDigit(b: u8): Option<nat> {
    if 0x30 <= b <= 0x37 then Some(b - 0x30) else None
  }

  function Digit(radix: nat, b: u8): (d: Option<nat>)
    requires radix == 8 || radix == 16
    ensures d.Some? ==> d.value < radix
  {
    if radix == 8 then OctalDigit(b) else HexDigit(b)
  }

  function Power(radix: nat, n: nat): (p: nat)
    requires radix > 0
    ensures p > 0
  {
    if n == 0 then 1 else radix * Power(radix, n - 1)
  }

  /** The number n digits at p denote, highest digit first. */
  function NumeralAt(bytes: Bytes, p: nat, n: nat, radix: nat): (v: Option<nat>)
    requires radix == 8 || radix == 16
    ensures v.Some? ==> v.value < Power(radix, n) && p + n <= |bytes|
  {
    if p + n > |bytes| then None
    else if n == 0 then Some(0)
    else
      var high := NumeralAt(bytes, p, n - 1, radix);
      var low := Digit(radix, bytes[p + n - 1]);
      if high.None? || low.None? then None
      else
        assert high.value + 1 <= Power(radix, n - 1);
        Some(high.value * radix + low.value)
  }

  lemma {:induction false} NumberFails(bytes: Bytes, p: nat, m: nat, n: nat, radix: nat)
    requires (radix == 8 || radix == 16) && m <= n && p + n <= |bytes| && NumeralAt(bytes, p, m, radix).None?
    ensures NumeralAt(bytes, p, n, radix).None?
    decreases n
  {
    if m < n {
      NumberFails(bytes, p, m, n - 1, radix);
    }
  }

  // ----- The digits of a number, as the writers print them.

  function Shown(d: nat): u8
    requires d < 16
  {
    if d < 10 then 0x30 + d else 0x61 + d - 10
  }

  function Digits(v: nat, n: nat, radix: nat): (digits: Bytes)
    requires radix == 8 || radix == 16
    ensures |digits| == n
  {
    if n == 0 then [] else Digits(v / radix, n - 1, radix) + [Shown(v % radix)]
  }

  lemma ShownDigit(radix: nat, d: nat)
    requires (radix == 8 || radix == 16) && d < radix
    ensures Digit(radix, Shown(d)) == Some(d)
  {
  }

  lemma OneMoreDigit(bytes: Bytes, p: nat, n: nat, radix: nat, v: nat)
    requires (radix == 8 || radix == 16) && n > 0 && p + n <= |bytes|
    requires NumeralAt(bytes, p, n - 1, radix) == Some(v / radix) && Digit(radix, bytes[p + n - 1]) == Some(v % radix)
    ensures NumeralAt(bytes, p, n, radix) == Some(v)
  {
    hide Digit, Power;
    assert (v / radix) * radix + v % radix == v;
  }

  lemma QuotientFits(v: nat, radix: nat, w: nat)
    requires (radix == 8 || radix == 16) && v < radix * w
    ensures v / radix < w
  {
  }

  lemma PowerOpens(radix: nat, n: nat)
    requires radix > 0
    ensures Power(radix, n) == if n == 0 then 1 else radix * Power(radix, n - 1)
  {
  }

  lemma NoDigits(bytes: Bytes, p: nat, radix: nat)
    requires (radix == 8 || radix == 16) && p <= |bytes|
    ensures NumeralAt(bytes, p, 0, radix) == Some(0)
  {
  }

  lemma {:induction false} DigitsDenote(bytes: Bytes, p: nat, v: nat, n: nat, radix: nat)
    requires (radix == 8 || radix == 16) && v < Power(radix, n) && At(bytes, p, Digits(v, n, radix))
    ensures NumeralAt(bytes, p, n, radix) == Some(v)
    decreases n
  {
    hide Digit, Shown, NumeralAt, Power;
    if n > 0 {
      PowerOpens(radix, n);
      ShownDigit(radix, v % radix);
      AtConcat(bytes, p, Digits(v / radix, n - 1, radix), [Shown(v % radix)]);
      AtOne(bytes, p + n - 1, Shown(v % radix));
      QuotientFits(v, radix, Power(radix, n - 1));
      DigitsDenote(bytes, p, v / radix, n - 1, radix);
      OneMoreDigit(bytes, p, n, radix, v);
    } else {
      PowerOpens(radix, 0);
      NoDigits(bytes, p, radix);
    }
  }

  // ----- Nothing but digits denotes a number; capitals count like small letters.

  function Lower(b: u8): u8 {
    if 0x41 <= b <= 0x46 then b + 0x20 else b
  }

  function Lowered(bytes: Bytes): (lowered: Bytes)
    ensures |lowered| == |bytes|
  {
    seq(|bytes|, i requires 0 <= i < |bytes| => Lower(bytes[i]))
  }

  lemma DigitShown(radix: nat, b: u8)
    requires radix == 8 || radix == 16
    ensures Digit(radix, b) == Digit(radix, Lower(b))
    ensures Digit(radix, b).Some? ==> Shown(Digit(radix, b).value) == Lower(b)
  {
  }

  lemma LastDigit(high: nat, low: nat, radix: nat)
    requires (radix == 8 || radix == 16) && low < radix
    ensures (high * radix + low) / radix == high && (high * radix + low) % radix == low
  {
  }

  lemma {:induction false} NumeralShown(bytes: Bytes, p: nat, n: nat, radix: nat)
    requires radix == 8 || radix == 16
    ensures NumeralAt(bytes, p, n, radix).Some? ==>
      At(Lowered(bytes), p, Digits(NumeralAt(bytes, p, n, radix).value, n, radix))
    decreases n
  {
    hide At, Digit, Shown, Lower, Power;
    if NumeralAt(bytes, p, n, radix).Some? {
      if n == 0 {
        AtNothing(Lowered(bytes), p);
      } else {
        var high, low := NumeralAt(bytes, p, n - 1, radix).value, Digit(radix, bytes[p + n - 1]).value;
        NumeralShown(bytes, p, n - 1, radix);
        DigitShown(radix, bytes[p + n - 1]);
        LastDigit(high, low, radix);
        AtConcat(Lowered(bytes), p, Digits(high, n - 1, radix), [Shown(low)]);
        AtOne(Lowered(bytes), p + n - 1, Shown(low));
      }
    }
  }

  lemma {:induction false} CaseIgnored(bytes: Bytes, p: nat, n: nat, radix: nat)
    requires radix == 8 || radix == 16
    ensures NumeralAt(bytes, p, n, radix) == NumeralAt(Lowered(bytes), p, n, radix)
    decreases n
  {
    hide Digit, Shown, Lower, Power;
    if n > 0 && p + n <= |bytes| {
      CaseIgnored(bytes, p, n - 1, radix);
      DigitShown(radix, bytes[p + n - 1]);
    }
  }

  // ----- The readers' loops.

  lemma Powers()
    ensures Power(16, 8) == 0x1_0000_0000 && Power(8, 6) == 0x4_0000 && Power(8, 11) == 0x2_0000_0000
  {
    assert Power(16, 4) == 0x1_0000;
    assert Power(8, 3) == 512 && Power(8, 9) == 0x800_0000;
  }

  lemma {:induction false} PowerGrows(radix: nat, m: nat, n: nat)
    requires radix > 0 && m <= n
    ensures Power(radix, m) <= Power(radix, n)
    decreases n
  {
    if m < n {
      PowerGrows(radix, m, n - 1);
      assert Power(radix, n - 1) <= radix * Power(radix, n - 1);
    }
  }

  /** Eight digits always fit: the overflow checks never fire. */
  method HexU32(bytes: Bytes, offset: nat) returns (r: Result<u32>)
    ensures
      var v := NumeralAt(bytes, offset, 8, 16);
      if v.Some? then r.Success? && r.value == v.value
      else r == Failure(Format(if offset + 8 > |bytes| then CpioTruncated else CpioFieldInvalid))
  {
    hide HexDigit, Power;
    if offset + 8 > |bytes| {
      return Failure(Format(CpioTruncated));
    }
    Powers();
    var value: u32 := 0;
    for i := 0 to 8
      invariant NumeralAt(bytes, offset, i, 16) == Some(value)
    {
      var nibble := HexDigit(bytes[offset + i]);
      if nibble.None? {
        NumberFails(bytes, offset, i + 1, 8, 16);
        return Failure(Format(CpioFieldInvalid));
      }
      PowerGrows(16, i + 1, 8);
      assert NumeralAt(bytes, offset, i + 1, 16) == Some(value * 16 + nibble.value);
      if value * 16 + nibble.value > 0xffff_ffff {
        return Failure(Format(CpioFieldInvalid));
      }
      value := value * 16 + nibble.value;
    }
    return Success(value);
  }

  /** At most eleven octal digits, which a u64 always holds. */
  method OctalU64(bytes: Bytes, offset: nat, length: nat) returns (r: Result<u64>)
    requires length <= 11
    ensures
      var v := NumeralAt(bytes, offset, length, 8);
      if v.Some? then r.Success? && r.value == v.value
      else r == Failure(Format(if offset + length > |bytes| then CpioTruncated else CpioFieldInvalid))
  {
    hide OctalDigit, Power;
    if offset + length > |bytes| {
      return Failure(Format(CpioTruncated));
    }
    Powers();
    var value: u64 := 0;
    for i := 0 to length
      invariant NumeralAt(bytes, offset, i, 8) == Some(value)
    {
      var octet := OctalDigit(bytes[offset + i]);
      if octet.None? {
        NumberFails(bytes, offset, i + 1, length, 8);
        return Failure(Format(CpioFieldInvalid));
      }
      PowerGrows(8, i + 1, 11);
      assert NumeralAt(bytes, offset, i + 1, 8) == Some(value * 8 + octet.value);
      if value * 8 + octet.value > U64_MAX {
        return Failure(Format(CpioFieldInvalid));
      }
      value := value * 8 + octet.value;
    }
    return Success(value);
  }

  // ----- Words.

  function WordAt(bytes: Bytes, p: nat, littleEndian: bool): Option<u16> {
    if p + 2 > |bytes| then None
    else if littleEndian then Some(bytes[p] as int + 0x100 * bytes[p + 1] as int)
    else Some(0x100 * bytes[p] as int + bytes[p + 1] as int)
  }

  function WordBytes(v: u16, littleEndian: bool): (bytes: Bytes)
    ensures |bytes| == 2
  {
    if littleEndian then [v % 0x100, v / 0x100] else [v / 0x100, v % 0x100]
  }

  lemma WordRoundTrip(bytes: Bytes, p: nat, v: u16, littleEndian: bool)
    requires At(bytes, p, WordBytes(v, littleEndian))
    ensures WordAt(bytes, p, littleEndian) == Some(v)
  {
    assert bytes[p] == bytes[p..p + 2][0] && bytes[p + 1] == bytes[p..p + 2][1];
  }

  function CombineWords(high: u16, low: u16): u32 {
    high * 0x1_0000 + low
  }

  // ----- Runs of fields.

  datatype Field = Field(value: nat, width: nat)

  function FieldBytes(fields: seq<Field>, radix: nat): Bytes
    requires radix == 8 || radix == 16
  {
    if |fields| == 0 then []
    else
      var last := fields[|fields| - 1];
      FieldBytes(fields[..|fields| - 1], radix) + Digits(last.value, last.width, radix)
  }

  function WidthBefore(fields: seq<Field>, k: nat): nat
    requires k <= |fields|
  {
    if k == 0 then 0 else WidthBefore(fields, k - 1) + fields[k - 1].width
  }

  lemma NoWidth(fields: seq<Field>)
    ensures WidthBefore(fields, 0) == 0
  {
  }

  lemma NextWidth(fields: seq<Field>, k: nat)
    requires k < |fields|
    ensures WidthBefore(fields, k + 1) == WidthBefore(fields, k) + fields[k].width
  {
  }

  lemma {:induction false} SameWidth(a: seq<Field>, b: seq<Field>, k: nat)
    requires k <= |a| && k <= |b| && forall i :: 0 <= i < k ==> a[i] == b[i]
    ensures WidthBefore(a, k) == WidthBefore(b, k)
    decreases k
  {
    if k > 0 {
      SameWidth(a, b, k - 1);
    }
  }

  lemma {:induction false} FieldsLength(fields: seq<Field>, radix: nat)
    requires radix == 8 || radix == 16
    ensures |FieldBytes(fields, radix)| == WidthBefore(fields, |fields|)
    decreases |fields|
  {
    if |fields| > 0 {
      FieldsLength(fields[..|fields| - 1], radix);
      SameWidth(fields[..|fields| - 1], fields, |fields| - 1);
    }
  }

  predicate FieldsFit(fields: seq<Field>, radix: nat)
    requires radix == 8 || radix == 16
  {
    forall i :: 0 <= i < |fields| ==> fields[i].value < Power(radix, fields[i].width)
  }

  /** Every written field reads back, at the sum of the widths before it. */
  lemma {:induction false} FieldAt(bytes: Bytes, p: nat, fields: seq<Field>, radix: nat, k: nat)
    requires (radix == 8 || radix == 16) && FieldsFit(fields, radix) && At(bytes, p, FieldBytes(fields, radix))
      && k < |fields|
    ensures NumeralAt(bytes, p + WidthBefore(fields, k), fields[k].width, radix) == Some(fields[k].value)
    decreases |fields|
  {
    hide Digits, NumeralAt, Power;
    var n := |fields| - 1;
    AtConcat(bytes, p, FieldBytes(fields[..n], radix), Digits(fields[n].value, fields[n].width, radix));
    FieldsLength(fields[..n], radix);
    if k < n {
      FieldAt(bytes, p, fields[..n], radix, k);
      SameWidth(fields[..n], fields, k);
    } else {
      SameWidth(fields[..n], fields, n);
      DigitsDenote(bytes, p + WidthBefore(fields, n), fields[n].value, fields[n].width, radix);
    }
  }

  function WordsBytes(words: seq<u16>, littleEndian: bool): (bytes: Bytes)
    ensures |bytes| == 2 * |words|
  {
    if |words| == 0 then []
    else WordsBytes(words[..|words| - 1], littleEndian) + WordBytes(words[|words| - 1], littleEndian)
  }

  lemma {:induction false} WordOf(bytes: Bytes, p: nat, words: seq<u16>, littleEndian: bool, k: nat)
    requires At(bytes, p, WordsBytes(words, littleEndian)) && k < |words|
    ensures WordAt(bytes, p + 2 * k, littleEndian) == Some(words[k])
    decreases |words|
  {
    hide WordAt, WordBytes;
    var n := |words| - 1;
    AtConcat(bytes, p, WordsBytes(words[..n], littleEndian), WordBytes(words[n], littleEndian));
    if k < n {
      WordOf(bytes, p, words[..n], littleEndian, k);
    } else {
      WordRoundTrip(bytes, p + 2 * n, words[n], littleEndian);
    }
  }

  // ----- Fields that were read are the ones written.

  lemma {:induction false} FieldsShown(bytes: Bytes, p: nat, fields: seq<Field>, n: nat)
    requires p <= |bytes| && n <= |fields| && forall k :: 0 <= k < n ==>
      NumeralAt(bytes, p + WidthBefore(fields, k), fields[k].width, 8) == Some(fields[k].value)
    ensures At(Lowered(bytes), p, FieldBytes(fields[..n], 8))
    decreases n
  {
    hide At, NumeralAt, FieldBytes, WidthBefore;
    if n == 0 {
      NoFieldBytes();
      AtNothing(Lowered(bytes), p);
      assert fields[..0] == [];
    } else {
      FieldsShown(bytes, p, fields, n - 1);
      OneFieldShown(bytes, p, fields, n);
    }
  }

  lemma OneFieldShown(bytes: Bytes, p: nat, fields: seq<Field>, n: nat)
    requires p <= |bytes| && 0 < n <= |fields| && At(Lowered(bytes), p, FieldBytes(fields[..n - 1], 8))
    requires NumeralAt(bytes, p + WidthBefore(fields, n - 1), fields[n - 1].width, 8) == Some(fields[n - 1].value)
    ensures At(Lowered(bytes), p, FieldBytes(fields[..n], 8))
  {
    hide At, NumeralAt, FieldBytes, WidthBefore, Digits;
    var last := fields[n - 1];
    NumeralShown(bytes, p + WidthBefore(fields, n - 1), last.width, 8);
    FieldsLength(fields[..n - 1], 8);
    SameWidth(fields[..n - 1], fields, n - 1);
    LastField(fields, n);
    AtConcat(Lowered(bytes), p, FieldBytes(fields[..n - 1], 8), Digits(last.value, last.width, 8));
  }

  lemma NoFieldBytes()
    ensures FieldBytes([], 8) == []
  {
  }

  lemma LastField(fields: seq<Field>, n: nat)
    requires 0 < n <= |fields|
    ensures FieldBytes(fields[..n], 8)
         == FieldBytes(fields[..n - 1], 8) + Digits(fields[n - 1].value, fields[n - 1].width, 8)
  {
    hide Digits;
    assert fields[..n][..n - 1] == fields[..n - 1];
  }

  lemma {:induction false} WordsShown(bytes: Bytes, p: nat, words: seq<u16>, littleEndian: bool)
    requires p <= |bytes| && forall k :: 0 <= k < |words| ==>
      WordAt(bytes, p + 2 * k, littleEndian) == Some(words[k])
    ensures At(bytes, p, WordsBytes(words, littleEndian))
    decreases |words|
  {
    hide At, WordAt, WordBytes;
    if |words| == 0 {
      AtNothing(bytes, p);
    } else {
      var n := |words| - 1;
      WordsShown(bytes, p, words[..n], littleEndian);
      WordShown(bytes, p + 2 * n, words[n], littleEndian);
      AtConcat(bytes, p, WordsBytes(words[..n], littleEndian), WordBytes(words[n], littleEndian));
    }
  }

  lemma WordShown(bytes: Bytes, p: nat, v: u16, littleEndian: bool)
    requires WordAt(bytes, p, littleEndian) == Some(v)
    ensures At(bytes, p, WordBytes(v, littleEndian))
  {
    assert bytes[p..p + 2] == [bytes[p], bytes[p + 1]];
  }
}
