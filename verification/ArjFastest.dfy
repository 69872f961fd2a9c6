/** ARJ method 4 ("fastest"): literals and sliding-window matches, their bit
    encoding, and the decoder that inverts it. */
module ArjFastest {
  import opened Support
  import opened Sequences
  import opened Numbers
  import opened ArjBits

  const FASTEST_DICTIONARY_BYTES: nat := 8 * 1024
  const FARTHEST: nat := 15872

  datatype Token = Literal(byte: u8) | Match(length: nat, distance: nat)

  // ----- What tokens mean.

  /** Copies byte by byte, so that a match may run into its own output. */
  function Copy(output: Bytes, length: nat, distance: nat): (result: Bytes)
    requires 1 <= distance <= |output|
    ensures |result| == |output| + length && result[..|output|] == output
    ensures forall i :: |output| <= i < |result| ==> result[i] == result[i - distance]
  {
    if length == 0 then output
    else
      var before := Copy(output, length - 1, distance);
      before + [before[|before| - distance]]
  }

  /** The code can write the token, and its source lies inside the output so far. */
  predicate Writable(output: Bytes, t: Token) {
    match t
    case Literal(_) => true
    case Match(length, distance) => 3 <= length <= 256 && 1 <= distance <= FARTHEST && distance <= |output|
  }

  function Apply(output: Bytes, t: Token): (result: Bytes)
    requires Writable(output, t)
    ensures output < result
  {
    match t
    case Literal(byte) => output + [byte]
    case Match(length, distance) => Copy(output, length, distance)
  }

  predicate AllWritable(output: Bytes, tokens: seq<Token>)
    decreases |tokens|
  {
    |tokens| == 0 || (Writable(output, tokens[0]) && AllWritable(Apply(output, tokens[0]), tokens[1..]))
  }

  function Expand(output: Bytes, tokens: seq<Token>): (result: Bytes)
    requires AllWritable(output, tokens)
    ensures |result| >= |output| + |tokens|
    decreases |tokens|
  {
    if |tokens| == 0 then output else Expand(Apply(output, tokens[0]), tokens[1..])
  }

  function Matches(tokens: seq<Token>): nat {
    if |tokens| == 0 then 0 else (if tokens[0].Match? then 1 else 0) + Matches(tokens[1..])
  }

  // ----- The encoder.

  function EncodeToken(t: Token): Bits
    requires t.Match? ==> t.length >= 2 && t.distance >= 1
  {
    match t
    case Literal(byte) => Code(0, 7, 0) + Digits(byte, 8)
    case Match(length, distance) => Code(0, 7, length - 2) + Code(9, 13, distance - 1)
  }

  /** A literal is a zero bit and the byte's eight. */
  lemma LiteralBits(byte: u8)
    ensures EncodeToken(Literal(byte)) == [false] + Digits(byte, 8)
  {
    hide Digits;
    var none := Digits(0, 0);
    CodePowers();
    assert Code(0, 7, 0) == [false] + none && none == [];
  }

  /** A width in unary, a zero bit below the last width, and as many digits. */
  function Wide(ones: nat, width: nat, last: nat, offset: nat): Bits {
    Ones(ones) + ((if width < last then [false] else []) + Digits(offset, width))
  }

  /** A match is its length in a width from 1 to 7, less what the width counts from, and
      its distance in a width from 9 to 13 likewise. */
  lemma MatchBits(length: nat, distance: nat, j: nat, k: nat)
    requires 1 <= j <= 7 && Pow2(j) <= length - 1 < Pow2(j + 1)
    requires 9 <= k <= 13 && Pow2(k) <= distance + 511 < Pow2(k + 1) && distance >= 1
    ensures EncodeToken(Match(length, distance))
      == Wide(j, j, 7, length - 1 - Pow2(j)) + Wide(k - 9, k, 13, distance + 511 - Pow2(k))
  {
    hide Digits, Code, Ones;
    CodePowers();
    CodeShape(0, 7, length - 2, j);
    CodeShape(9, 13, distance - 1, k);
  }

  lemma CodePowers()
    ensures Pow2(0) == 1 && Pow2(1) == 2 && Pow2(2) == 4 && Pow2(7) == 128 && Pow2(8) == 256
    ensures Pow2(9) == 512 && Pow2(10) == 1024 && Pow2(13) == 8192 && Pow2(14) == 16384
  {
    PowersToSixteen();
    assert Pow2(8) == 2 * Pow2(7) && Pow2(9) == 2 * Pow2(8) && Pow2(10) == 2 * Pow2(9);
    assert Pow2(13) == 2 * Pow2(12) && Pow2(14) == 2 * Pow2(13);
  }

  function Encode(output: Bytes, tokens: seq<Token>): Bits
    requires AllWritable(output, tokens)
    decreases |tokens|
  {
    if |tokens| == 0 then [] else EncodeToken(tokens[0]) + Encode(Apply(output, tokens[0]), tokens[1..])
  }

  // ----- The decoder, as a function of the bits.

  datatype TokenRead = TokenRead(token: Token, end: nat)

  function NextToken(bits: Bits, p: nat, produced: nat, size: nat): (r: Result<TokenRead>)
    requires p <= |bits|
    ensures r.Success? ==> p <= r.value.end <= |bits|
    ensures r.Failure? ==> r.error.Format?
  {
    var code := Decode(bits, p, 0, 7);
    if code.None? then Failure(Format(BitStreamTruncated))
    else if code.value.value == 0 then
      if code.value.end + 8 > |bits| then Failure(Format(BitStreamTruncated))
      else Success(TokenRead(Literal(ByteNumber(bits, code.value.end)), code.value.end + 8))
    else if produced + code.value.value + 2 > size then Failure(Format(MatchExceedsOutput))
    else
      var back := Decode(bits, code.value.end, 9, 13);
      if back.None? then Failure(Format(BitStreamTruncated))
      else if back.value.value + 1 > produced then Failure(Format(MatchBeforeOutput))
      else Success(TokenRead(Match(code.value.value + 2, back.value.value + 1), back.value.end))
  }

  function ByteNumber(bits: Bits, p: nat): u8
    requires p + 8 <= |bits|
  {
    PowersToSixteen();
    Number(bits, p, 8)
  }

  lemma CodeRanges()
    ensures Largest(0, 7) == 254 && Largest(9, 13) + 1 == FARTHEST
  {
    PowersToSixteen();
    assert Pow2(9) == 2 * Pow2(8) && Pow2(14) == 4 * Pow2(12) && Pow2(0) == 1;
  }

  lemma NextTokenWritable(bits: Bits, p: nat, output: Bytes, size: nat)
    requires p <= |bits|
    ensures NextToken(bits, p, |output|, size).Success? ==>
      var t := NextToken(bits, p, |output|, size).value.token;
      Writable(output, t) && (t.Match? ==> |output| + t.length <= size)
  {
    hide Decode, Code, Number;
    CodeRanges();
    var code := Decode(bits, p, 0, 7);
    if code.Some? {
      CodeInvertsDecode(bits, p, 0, 7);
      if Decode(bits, code.value.end, 9, 13).Some? {
        CodeInvertsDecode(bits, code.value.end, 9, 13);
      }
    }
  }

  datatype Expansion = Expansion(bytes: Bytes, matches: nat)

  /** Decodes tokens until the declared size is reached; later bits are ignored. */
  function Run(bits: Bits, p: nat, size: nat, e: Expansion): Result<Expansion>
    requires p <= |bits|
    decreases size - |e.bytes|
  {
    if |e.bytes| >= size then Success(e)
    else
      var next := NextToken(bits, p, |e.bytes|, size);
      if next.Failure? then Failure(next.error)
      else
        NextTokenWritable(bits, p, e.bytes, size);
        Run(bits, next.value.end, size, After(e, next.value.token))
  }

  function After(e: Expansion, t: Token): (r: Expansion)
    requires Writable(e.bytes, t)
    ensures |r.bytes| > |e.bytes|
  {
    Expansion(Apply(e.bytes, t), e.matches + if t.Match? then 1 else 0)
  }

  // ----- Decoding inverts encoding.

  lemma NextTokenInverts(bits: Bits, p: nat, output: Bytes, t: Token, size: nat)
    requires p <= |bits| && Writable(output, t) && At(bits, p, EncodeToken(t))
    requires |Apply(output, t)| <= size
    ensures NextToken(bits, p, |output|, size) == Success(TokenRead(t, p + |EncodeToken(t)|))
  {
    hide At, NextToken, Decode, Code, Digits, Copy;
    match t {
      case Literal(byte) => LiteralInverts(bits, p, |output|, byte, size);
      case Match(length, distance) => MatchInverts(bits, p, |output|, length, distance, size);
    }
  }

  lemma LiteralInverts(bits: Bits, p: nat, produced: nat, byte: u8, size: nat)
    requires p <= |bits| && At(bits, p, Code(0, 7, 0) + Digits(byte, 8))
    ensures NextToken(bits, p, produced, size) == Success(TokenRead(Literal(byte), p + |EncodeToken(Literal(byte))|))
  {
    hide At, Digits, Decode, Code, ByteNumber;
    CodeRanges();
    AtConcat(bits, p, Code(0, 7, 0), Digits(byte, 8));
    DecodeInvertsCode(bits, p, 0, 7, 0);
    ByteDigits(bits, p + |Code(0, 7, 0)|, byte);
  }

  lemma MatchInverts(bits: Bits, p: nat, produced: nat, length: nat, distance: nat, size: nat)
    requires p <= |bits| && 3 <= length <= 256 && 1 <= distance <= FARTHEST
    requires distance <= produced && produced + length <= size
    requires At(bits, p, Code(0, 7, length - 2) + Code(9, 13, distance - 1))
    ensures NextToken(bits, p, produced, size)
         == Success(TokenRead(Match(length, distance), p + |EncodeToken(Match(length, distance))|))
  {
    hide At, Digits, Decode, Code, ByteNumber;
    CodeRanges();
    var middle := p + |Code(0, 7, length - 2)|;
    AtConcat(bits, p, Code(0, 7, length - 2), Code(9, 13, distance - 1));
    DecodeInvertsCode(bits, p, 0, 7, length - 2);
    AtBounds(bits, middle, Code(9, 13, distance - 1));
    DecodeInvertsCode(bits, middle, 9, 13, distance - 1);
  }

  lemma ByteDigits(bits: Bits, p: nat, byte: u8)
    requires At(bits, p, Digits(byte, 8))
    ensures p + 8 <= |bits| && ByteNumber(bits, p) == byte
  {
    PowersToSixteen();
    NumberOfDigits(bits, p, byte, 8);
  }

  /** Every writable token list is decoded from its encoding, whatever bits follow. */
  lemma {:induction false} RunInvertsEncode(bits: Bits, p: nat, e: Expansion, tokens: seq<Token>)
    requires p <= |bits| && AllWritable(e.bytes, tokens) && At(bits, p, Encode(e.bytes, tokens))
    ensures Run(bits, p, |Expand(e.bytes, tokens)|, e)
         == Success(Expansion(Expand(e.bytes, tokens), e.matches + Matches(tokens)))
    decreases |tokens|
  {
    hide At, EncodeToken, NextToken, Copy;
    if |tokens| > 0 {
      var t, rest := tokens[0], tokens[1..];
      var next := Apply(e.bytes, t);
      AtConcat(bits, p, EncodeToken(t), Encode(next, rest));
      AtBounds(bits, p + |EncodeToken(t)|, Encode(next, rest));
      NextTokenInverts(bits, p, e.bytes, t, |Expand(e.bytes, tokens)|);
      RunInvertsEncode(bits, p + |EncodeToken(t)|, After(e, t), rest);
    }
  }

  lemma NextTokenReads(bits: Bits, p: nat, output: Bytes, size: nat)
    requires p <= |bits| && NextToken(bits, p, |output|, size).Success?
    ensures
      var next := NextToken(bits, p, |output|, size).value;
      && Writable(output, next.token)
      && At(bits, p, EncodeToken(next.token))
      && next.end == p + |EncodeToken(next.token)|
      && (|output| < size ==> |Apply(output, next.token)| <= size)
  {
    hide At, Digits, Decode, Code, Number, Copy;
    NextTokenWritable(bits, p, output, size);
    var code := Decode(bits, p, 0, 7).value;
    CodeInvertsDecode(bits, p, 0, 7);
    if code.value == 0 {
      PowersToSixteen();
      DigitsOfNumber(bits, code.end, 8);
      AtConcat(bits, p, Code(0, 7, 0), Digits(ByteNumber(bits, code.end), 8));
    } else {
      CodeInvertsDecode(bits, code.end, 9, 13);
      AtConcat(bits, p, Code(0, 7, code.value), Code(9, 13, Decode(bits, code.end, 9, 13).value.value));
    }
  }

  /** Whatever is decoded was encoded: the accepted bits begin with the encoding
      of a token list that expands to exactly the declared size. */
  lemma {:induction false} EncodeInvertsRun(bits: Bits, p: nat, size: nat, e: Expansion) returns (tokens: seq<Token>)
    requires p <= |bits| && |e.bytes| <= size && Run(bits, p, size, e).Success?
    ensures AllWritable(e.bytes, tokens) && At(bits, p, Encode(e.bytes, tokens))
    ensures Run(bits, p, size, e).value == Expansion(Expand(e.bytes, tokens), e.matches + Matches(tokens))
    ensures |Expand(e.bytes, tokens)| == size
    decreases size - |e.bytes|
  {
    hide At, EncodeToken, NextToken, Copy;
    if |e.bytes| == size {
      tokens := [];
      AtNothing(bits, p);
    } else {
      var next := NextToken(bits, p, |e.bytes|, size).value;
      NextTokenReads(bits, p, e.bytes, size);
      var rest := EncodeInvertsRun(bits, next.end, size, After(e, next.token));
      tokens := [next.token] + rest;
      assert tokens[1..] == rest;
      AtConcat(bits, p, EncodeToken(next.token), Encode(Apply(e.bytes, next.token), rest));
    }
  }

  /** The encoding is unambiguous. */
  lemma {:induction false} EncodingUnique(bits: Bits, p: nat, output: Bytes, a: seq<Token>, b: seq<Token>)
    requires p <= |bits| && AllWritable(output, a) && AllWritable(output, b)
    requires At(bits, p, Encode(output, a)) && At(bits, p, Encode(output, b))
    requires |Expand(output, a)| == |Expand(output, b)|
    ensures a == b
    decreases |a|
  {
    hide At, EncodeToken, NextToken, Copy;
    if |a| > 0 && |b| > 0 {
      var size := |Expand(output, a)|;
      AtConcat(bits, p, EncodeToken(a[0]), Encode(Apply(output, a[0]), a[1..]));
      AtConcat(bits, p, EncodeToken(b[0]), Encode(Apply(output, b[0]), b[1..]));
      NextTokenInverts(bits, p, output, a[0], size);
      NextTokenInverts(bits, p, output, b[0], size);
      AtBounds(bits, p + |EncodeToken(a[0])|, Encode(Apply(output, a[0]), a[1..]));
      EncodingUnique(bits, p + |EncodeToken(a[0])|, Apply(output, a[0]), a[1..], b[1..]);
      assert a == [a[0]] + a[1..] && b == [b[0]] + b[1..];
    }
  }

  // ----- Packing bits into bytes, zero-padded.

  function PackedByte(bits: Bits, p: nat): u8 {
    Sum(Bit(bits, p), Bit(bits, p + 1), Bit(bits, p + 2), Bit(bits, p + 3),
        Bit(bits, p + 4), Bit(bits, p + 5), Bit(bits, p + 6), Bit(bits, p + 7))
  }

  type Digit = d: int | 0 <= d <= 1

  function Bit(bits: Bits, p: nat): Digit {
    if p < |bits| && bits[p] then 1 else 0
  }

  function Sum(a: Digit, b: Digit, c: Digit, d: Digit, e: Digit, f: Digit, g: Digit, h: Digit): u8 {
    128 * a + 64 * b + 32 * c + 16 * d + 8 * e + 4 * f + 2 * g + h
  }

  function Pack(bits: Bits): Bytes {
    seq((|bits| + 7) / 8, i requires 0 <= i => PackedByte(bits, 8 * i))
  }

  lemma BitOfSplit(s: u8, k: nat, weight: nat, high: nat, bit: Digit, low: nat)
    requires k < 8 && weight == Weight(k) && low < weight && s == (2 * high + bit) * weight + low
    ensures BitOf(s, k) == (bit == 1)
  {
    match k {
      case 0 => assert s / 128 == 2 * high + bit;
      case 1 => assert s / 64 == 2 * high + bit;
      case 2 => assert s / 32 == 2 * high + bit;
      case 3 => assert s / 16 == 2 * high + bit;
      case 4 => assert s / 8 == 2 * high + bit;
      case 5 => assert s / 4 == 2 * high + bit;
      case 6 => assert s / 2 == 2 * high + bit;
      case _ =>
    }
  }

  lemma BitsOfSum(a: Digit, b: Digit, c: Digit, d: Digit, e: Digit, f: Digit, g: Digit, h: Digit, k: nat)
    requires k < 8
    ensures BitOf(Sum(a, b, c, d, e, f, g, h), k) == ([a, b, c, d, e, f, g, h][k] == 1)
  {
    hide BitOf;
    var s := Sum(a, b, c, d, e, f, g, h);
    match k {
      case 0 => BitOfSplit(s, 0, 128, 0, a, 64 * b + 32 * c + 16 * d + 8 * e + 4 * f + 2 * g + h);
      case 1 => BitOfSplit(s, 1, 64, a, b, 32 * c + 16 * d + 8 * e + 4 * f + 2 * g + h);
      case 2 => BitOfSplit(s, 2, 32, 2 * a + b, c, 16 * d + 8 * e + 4 * f + 2 * g + h);
      case 3 => BitOfSplit(s, 3, 16, 4 * a + 2 * b + c, d, 8 * e + 4 * f + 2 * g + h);
      case 4 => BitOfSplit(s, 4, 8, 8 * a + 4 * b + 2 * c + d, e, 4 * f + 2 * g + h);
      case 5 => BitOfSplit(s, 5, 4, 16 * a + 8 * b + 4 * c + 2 * d + e, f, 2 * g + h);
      case 6 => BitOfSplit(s, 6, 2, 32 * a + 16 * b + 8 * c + 4 * d + 2 * e + f, g, h);
      case _ => BitOfSplit(s, 7, 1, 64 * a + 32 * b + 16 * c + 8 * d + 4 * e + 2 * f + g, h, 0);
    }
  }

  lemma PackedBit(bits: Bits, p: nat, k: nat)
    requires k < 8
    ensures BitOf(PackedByte(bits, p), k) == (Bit(bits, p + k) == 1)
  {
    hide BitOf, Sum, Bit;
    BitsOfSum(Bit(bits, p), Bit(bits, p + 1), Bit(bits, p + 2), Bit(bits, p + 3),
              Bit(bits, p + 4), Bit(bits, p + 5), Bit(bits, p + 6), Bit(bits, p + 7), k);
  }

  lemma PackedBits(bits: Bits)
    ensures At(BitsOf(Pack(bits)), 0, bits)
  {
    hide BitOf, PackedByte;
    var stream := BitsOf(Pack(bits));
    forall i | 0 <= i < |bits| ensures stream[i] == bits[i] {
      BitAt(Pack(bits), i / 8, i % 8);
      PackedBit(bits, 8 * (i / 8), i % 8);
    }
    assert stream[0..|bits|] == bits;
  }

  /** Decoding the packed encoding of any writable token list gives its expansion. */
  lemma RoundTrip(tokens: seq<Token>)
    requires AllWritable([], tokens)
    ensures Run(BitsOf(Pack(Encode([], tokens))), 0, |Expand([], tokens)|, Expansion([], 0))
         == Success(Expansion(Expand([], tokens), Matches(tokens)))
  {
    hide Run, At, Encode, Expand, BitsOf, Pack;
    var code := Encode([], tokens);
    PackedBits(code);
    RunInvertsEncode(BitsOf(Pack(code)), 0, Expansion([], 0), tokens);
  }

  // ----- The decoder.

  method ReadToken(bits: MsbBits, produced: nat, size: nat) returns (r: Result<Token>)
    requires bits.Valid() && produced <= size
    modifies bits
    ensures bits.Valid()
    ensures
      var next := NextToken(bits.Stream(), old(bits.Position()), produced, size);
      if next.Failure? then r == Failure(next.error)
      else r == Success(next.value.token) && bits.Position() == next.value.end
  {
    hide Decode, BitsOf, Number;
    ghost var all, start := bits.Stream(), bits.Position();
    var lengthCode :- DecodeVariable(bits, 0, 7);
    if lengthCode == 0 {
      var literal :- bits.Read(8);
      assert literal == ByteNumber(all, Decode(all, start, 0, 7).value.end);
      return Success(Literal(literal));
    }
    var repeat := lengthCode + 2;
    var remaining := size - produced;
    if repeat > remaining {
      return Failure(Format(MatchExceedsOutput));
    }
    var backPointer :- DecodeVariable(bits, 9, 13);
    var distance := backPointer + 1;
    if distance > produced {
      return Failure(Format(MatchBeforeOutput));
    }
    return Success(Match(repeat, distance));
  }

  method CopyMatch(output: Bytes, repeat: nat, distance: nat, control: ParseControl) returns (r: Result<Bytes>)
    requires 1 <= distance <= |output|
    modifies control
    ensures r.Success? ==> r.value == Copy(output, repeat, distance) && control.Charged(repeat)
    ensures r.Failure? ==> Interrupted(r) && control.stopped
    ensures old(control.Ample(repeat)) ==> r.Success?
  {
    var result := output;
    for i := 0 to repeat
      invariant result == Copy(output, i, distance) && control.Charged(i)
    {
      var _ :- control.Checkpoint(1);
      result := result + [result[|result| - distance]];
    }
    return Success(result);
  }

  method DecodeFastest(compressed: Bytes, originalSize: u64, maxDictionaryBytes: u64, control: ParseControl)
      returns (r: Result<Bytes>)
    requires |compressed| <= U64_MAX
    modifies control
    ensures maxDictionaryBytes < 8192 ==> r == Failure(LimitExceeded(DictionaryBytes))
    ensures maxDictionaryBytes >= 8192 ==>
      var run := Run(BitsOf(compressed), 0, originalSize, Expansion([], 0));
      if r.Success? then
        && run.Success? && r.value == run.value.bytes && |r.value| == originalSize
        && control.Charged(|compressed| + originalSize + run.value.matches)
      else (Interrupted(r) && control.stopped) || run == Failure(r.error)
    ensures old(control.Ample(|compressed| + 2 * originalSize)) ==> !Interrupted(r)
  {
    hide BitsOf, NextToken, Copy;
    if FASTEST_DICTIONARY_BYTES > maxDictionaryBytes {
      return Failure(LimitExceeded(DictionaryBytes));
    }
    var _ :- control.ConsumeBytes(|compressed|);
    var output: Bytes := [];
    var bits := new MsbBits(compressed);
    ghost var matches := 0;
    ghost var all := bits.Stream();
    while |output| < originalSize
      invariant bits.Valid() && bits.Stream() == all && |output| + matches <= 2 * |output| <= 2 * originalSize
      invariant Run(all, 0, originalSize, Expansion([], 0))
             == Run(all, bits.Position(), originalSize, Expansion(output, matches))
      invariant control.Charged(|compressed| + |output| + matches)
      decreases originalSize - |output|
    {
      NextTokenWritable(all, bits.Position(), output, originalSize);
      var _ :- control.Checkpoint(1);
      var token :- ReadToken(bits, |output|, originalSize);
      match token {
        case Literal(byte) =>
          output := output + [byte];
        case Match(repeat, distance) =>
          output :- CopyMatch(output, repeat, distance, control);
          matches := matches + 1;
      }
    }
    return Success(output);
  }
}
