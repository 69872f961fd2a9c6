/** CRC-32 as what it is defined to be: the remainder of a division of polynomials over
    the two-element field. A polynomial is the set of its exponents. */
module CrcDivision {
  import opened Support
  import opened Checksums
  import Numbers

  type Polynomial = set<nat>

  function Plus(a: Polynomial, b: Polynomial): Polynomial {
    (a - b) + (b - a)
  }

  /** The product with x to the k. */
  function Raised(a: Polynomial, k: nat): Polynomial {
    set e | e in a :: e + k
  }

  const GENERATOR: Polynomial := {32, 26, 23, 22, 16, 12, 11, 10, 8, 7, 5, 4, 2, 1, 0}

  /** The generator times the sum of the listed powers of x. */
  function Multiple(q: seq<nat>): Polynomial {
    if |q| == 0 then {} else Plus(Multiple(q[..|q| - 1]), Raised(GENERATOR, q[|q| - 1]))
  }

  /** The bits as coefficients, the first the highest. */
  function PolynomialOf(bits: seq<bool>): Polynomial {
    set i | 0 <= i < |bits| && bits[i] :: |bits| - 1 - i
  }

  /** x^31 down to 1: the initial register. */
  const ONES: Polynomial := set e | 0 <= e < 32

  /** The register holds its highest coefficient in its lowest bit. */
  function Register(r: bv32): (p: Polynomial)
    ensures forall e :: e in p ==> e < 32
  {
    set i | 0 <= i < 32 && BitOf(r, i) :: 31 - i
  }

  lemma InRegister(r: bv32, e: nat)
    ensures e in Register(r) <==> e < 32 && BitOf(r, 31 - e)
  {
    hide BitOf;
    if e < 32 && BitOf(r, 31 - e) {
      assert 31 - (31 - e) == e;
    }
  }

  // ----- Bits of words.

  lemma BitOfHalf(r: bv32, i: nat)
    ensures BitOf(Half(r), i) == BitOf(r, i + 1)
  {
    hide Half, Odd;
  }

  lemma {:induction false} HalvesOfXor(a: bv32, b: bv32, n: nat)
    ensures Halves(Xor(a, b), n) == Xor(Halves(a, n), Halves(b, n))
    decreases n
  {
    hide Half, Xor;
    if n > 0 {
      HalfOfXor(a, b);
      HalvesOfXor(Half(a), Half(b), n - 1);
    }
  }

  lemma OddOfXor(a: bv32, b: bv32)
    ensures Odd(Xor(a, b)) == (Odd(a) != Odd(b))
  {
  }

  lemma BitOfXor(a: bv32, b: bv32, i: nat)
    ensures BitOf(Xor(a, b), i) == (BitOf(a, i) != BitOf(b, i))
  {
    hide Half, Xor, Odd;
    HalvesOfXor(a, b, i);
    OddOfXor(Halves(a, i), Halves(b, i));
  }

  lemma NoBitAbove(r: bv32)
    ensures !BitOf(r, 32)
  {
    hide Halves;
    NothingLeft(r);
  }

  // ----- The constant is the generator without its leading term, reflected.

  /** The constant's digits in base 16, behind k of them. */
  function Rest(k: nat): bv32 {
    match k
    case 0 => 0xedb8_8320
    case 1 => 0xedb_8832
    case 2 => 0xed_b883
    case 3 => 0xe_db88
    case 4 => 0xedb8
    case 5 => 0xedb
    case 6 => 0xed
    case _ => 0xe
  }

  lemma {:induction false} RestLeft(k: nat)
    requires k <= 7
    ensures Halves(POLYNOMIAL, 4 * k) == Rest(k)
    decreases k
  {
    hide Half;
    if k > 0 {
      RestLeft(k - 1);
      HalvesSplit(POLYNOMIAL, 4 * (k - 1), 4);
      HalvesOpen(Rest(k - 1));
      HalfFour(Rest(k - 1));
    }
  }

  lemma LowBits(v: bv32)
    ensures BitOf(v, 0) == (v & 1 != 0) && BitOf(v, 1) == (v & 2 != 0)
    ensures BitOf(v, 2) == (v & 4 != 0) && BitOf(v, 3) == (v & 8 != 0)
  {
    hide Halves;
    HalvesStep(v, 0);
    HalvesStep(v, 1);
    HalvesStep(Half(v), 0);
    HalvesStep(Half(Half(v)), 0);
    HalvesOpen(v);
    LowBitsShifted(v);
  }

  lemma LowBitsShifted(v: bv32)
    ensures Odd(v) == (v & 1 != 0) && Odd(Half(v)) == (v & 2 != 0)
    ensures Odd(Half(Half(v))) == (v & 4 != 0) && Odd(Half(Half(Half(v)))) == (v & 8 != 0)
  {
  }

  lemma GeneratorBit(i: nat)
    requires i < 32
    ensures BitOf(POLYNOMIAL, i) <==> 31 - i in GENERATOR
  {
    hide BitOf;
    var k, j := i / 4, i % 4;
    GeneratorDigit(k, j);
    DigitBit(k, j);
  }

  lemma DigitBit(k: nat, j: nat)
    requires k <= 7 && j < 4
    ensures BitOf(POLYNOMIAL, 4 * k + j) == BitOf(Rest(k), j)
  {
    hide Halves, Odd;
    RestLeft(k);
    HalvesSplit(POLYNOMIAL, 4 * k, j);
  }

  lemma GeneratorDigit(k: nat, j: nat)
    requires k <= 7 && j < 4
    ensures BitOf(Rest(k), j) <==> 31 - (4 * k + j) in GENERATOR
  {
    hide BitOf;
    LowBits(Rest(k));
    match k {
      case 0 =>
      case 1 =>
      case 2 =>
      case 3 =>
      case 4 =>
      case 5 =>
      case 6 =>
      case _ =>
    }
  }

  // ----- One bit.

  /** Shifting a bit in multiplies by x and adds the bit above; what leaves at the top
      takes the generator with it. */
  lemma BitDivides(r: bv32, bit: bool)
    ensures Register(BitIn(r, bit))
      == Plus(Plus(Raised(Register(r), 1), if bit then {32} else {}), if Odd(r) != bit then GENERATOR else {})
  {
    hide BitOf, BitIn, Odd, Register;
    var after := Register(BitIn(r, bit));
    var before := Raised(Register(r), 1);
    forall e: nat ensures e in after
      <==> e in Plus(Plus(before, if bit then {32} else {}), if Odd(r) != bit then GENERATOR else {}) {
      InRegister(BitIn(r, bit), e);
      InRaised(r, e);
      FirstBit(r);
      if e < 32 {
        BitAfter(r, bit, 31 - e);
        GeneratorBit(31 - e);
      }
    }
  }

  lemma InRaised(r: bv32, e: nat)
    ensures e in Raised(Register(r), 1) <==> 0 < e <= 32 && BitOf(r, 32 - e)
  {
    hide BitOf, Register;
    if e > 0 {
      InRegister(r, e - 1);
    }
  }

  lemma BitAfter(r: bv32, bit: bool, i: nat)
    requires i < 32
    ensures BitOf(BitIn(r, bit), i) == (BitOf(r, i + 1) != (Odd(r) != bit && BitOf(POLYNOMIAL, i)))
    ensures !BitOf(r, 32) && BitOf(r, 0) == Odd(r)
  {
    hide BitOf, Half, Odd, Xor, Enter;
    EnterHalves(r, bit);
    BitOfHalf(r, i);
    BitOfXor(Half(r), POLYNOMIAL, i);
    NoBitAbove(r);
    FirstBit(r);
  }

  lemma FirstBit(r: bv32)
    ensures BitOf(r, 0) == Odd(r)
  {
    hide Odd;
  }

  // ----- All bits.

  lemma RaisedTwice(a: Polynomial, j: nat, k: nat)
    ensures Raised(Raised(a, j), k) == Raised(a, j + k)
  {
    forall e | e in Raised(a, j + k) ensures e in Raised(Raised(a, j), k) {
      var d :| d in a && e == d + (j + k);
      assert d + j in Raised(a, j);
    }
  }

  lemma RaisedSum(a: Polynomial, b: Polynomial, k: nat)
    ensures Raised(Plus(a, b), k) == Plus(Raised(a, k), Raised(b, k))
  {
  }

  /** The quotient with every power raised by one. */
  function Next(q: seq<nat>): (next: seq<nat>)
    ensures |next| == |q|
  {
    seq(|q|, i requires 0 <= i < |q| => q[i] + 1)
  }

  lemma {:induction false} MultipleRaised(q: seq<nat>)
    ensures Multiple(Next(q)) == Raised(Multiple(q), 1)
    decreases |q|
  {
    hide Raised, Plus;
    if |q| > 0 {
      var n := |q| - 1;
      assert Next(q)[..n] == Next(q[..n]);
      MultipleRaised(q[..n]);
      RaisedSum(Multiple(q[..n]), Raised(GENERATOR, q[n]), 1);
      RaisedTwice(GENERATOR, q[n], 1);
    } else {
      NothingRaised();
    }
  }

  lemma NothingRaised()
    ensures Raised({}, 1) == {}
  {
  }

  lemma OneMoreTerm(q: seq<nat>, k: nat)
    ensures Multiple(q + [k]) == Plus(Multiple(q), Raised(GENERATOR, k))
  {
    assert (q + [k])[..|q|] == q;
  }

  lemma OneMoreBit(bits: seq<bool>, bit: bool)
    ensures PolynomialOf(bits + [bit]) == Plus(Raised(PolynomialOf(bits), 1), if bit then {0} else {})
  {
    var longer := bits + [bit];
    forall e: nat ensures e in PolynomialOf(longer)
      <==> e in Plus(Raised(PolynomialOf(bits), 1), if bit then {0} else {}) {
      if e in PolynomialOf(longer) {
        var i :| 0 <= i < |longer| && longer[i] && e == |longer| - 1 - i;
        if i < |bits| {
          assert bits[i] && |bits| - 1 - i in PolynomialOf(bits);
        }
      }
      if e in Raised(PolynomialOf(bits), 1) {
        var i :| 0 <= i < |bits| && bits[i] && e == |bits| - 1 - i + 1;
        assert longer[i];
      }
      if bit && e == 0 {
        assert longer[|bits|];
      }
    }
  }

  /** What is divided: the message behind 32 zero bits, with the initial register added at its head. */
  function Dividend(bits: seq<bool>): Polynomial {
    Plus(Raised(PolynomialOf(bits), 32), Raised(ONES, |bits|))
  }

  lemma NextDividend(bits: seq<bool>, bit: bool)
    ensures Dividend(bits + [bit]) == Plus(Raised(Dividend(bits), 1), if bit then {32} else {})
  {
    hide PolynomialOf;
    var p, last := PolynomialOf(bits), if bit then {0} else {};
    OneMoreBit(bits, bit);
    RaisedSum(Raised(p, 1), last, 32);
    RaisedTwice(p, 1, 32);
    RaisedTwice(p, 32, 1);
    RaisedTwice(ONES, |bits|, 1);
    RaisedSum(Raised(p, 32), Raised(ONES, |bits|), 1);
    Rearranged(Raised(p, 33), Raised(last, 32), Raised(ONES, |bits| + 1));
    assert Raised(last, 32) == if bit then {32} else {};
  }

  lemma Rearranged(a: Polynomial, b: Polynomial, c: Polynomial)
    ensures Plus(Plus(a, b), c) == Plus(Plus(a, c), b)
  {
  }

  lemma InitialRegister()
    ensures Register(INITIAL) == ONES
  {
    hide BitOf;
    forall e: nat ensures e in Register(INITIAL) <==> e in ONES {
      InRegister(INITIAL, e);
      if e < 32 {
        AllOnes(31 - e);
      }
    }
  }

  /** All ones, behind k digits in base 16. */
  function OnesLeft(k: nat): bv32 {
    match k
    case 0 => 0xffff_ffff
    case 1 => 0xfff_ffff
    case 2 => 0xff_ffff
    case 3 => 0xf_ffff
    case 4 => 0xffff
    case 5 => 0xfff
    case 6 => 0xff
    case _ => 0xf
  }

  lemma {:induction false} OnesFollow(k: nat)
    requires k <= 7
    ensures Halves(INITIAL, 4 * k) == OnesLeft(k)
    decreases k
  {
    hide Half;
    if k > 0 {
      OnesFollow(k - 1);
      HalvesSplit(INITIAL, 4 * (k - 1), 4);
      HalvesOpen(OnesLeft(k - 1));
      HalfFour(OnesLeft(k - 1));
    }
  }

  lemma AllOnes(i: nat)
    requires i < 32
    ensures BitOf(INITIAL, i)
  {
    hide Halves, Odd, OnesLeft;
    var k, j := i / 4, i % 4;
    OnesFollow(k);
    HalvesSplit(INITIAL, 4 * k, j);
    OnesDigit(k, j);
  }

  lemma OnesDigit(k: nat, j: nat)
    requires k <= 7 && j < 4
    ensures BitOf(OnesLeft(k), j)
  {
    hide BitOf;
    LowBits(OnesLeft(k));
    OnesLow(k);
  }

  lemma OnesLow(k: nat)
    ensures OnesLeft(k) & 1 != 0 && OnesLeft(k) & 2 != 0 && OnesLeft(k) & 4 != 0 && OnesLeft(k) & 8 != 0
  {
  }

  lemma NoBits()
    ensures Dividend([]) == ONES
  {
    assert PolynomialOf([]) == {};
    assert Raised({}, 32) == {};
    assert Raised(ONES, 0) == ONES;
  }

  /** Feeding bits is long division: the register is the remainder. */
  lemma {:induction false} FeedDivides(bits: seq<bool>) returns (q: seq<nat>)
    ensures Dividend(bits) == Plus(Multiple(q), Register(FeedBits(INITIAL, bits)))
    decreases |bits|
  {
    hide BitIn, Odd, Register, FeedBits, Dividend;
    if |bits| == 0 {
      q := [];
      NoBits();
      InitialRegister();
      Checksums.NoBits(INITIAL);
      assert Plus({}, ONES) == ONES;
    } else {
      var n := |bits| - 1;
      var bit := bits[n];
      var r := FeedBits(INITIAL, bits[..n]);
      var before := FeedDivides(bits[..n]);
      assert bits == bits[..n] + [bit];
      NextDividend(bits[..n], bit);
      FeedBitsSplit(INITIAL, bits[..n], [bit]);
      OneBitFed(r, bit);
      q := NextQuotient(before, r, bit);
    }
  }

  lemma OneBitFed(r: bv32, bit: bool)
    ensures FeedBits(r, [bit]) == BitIn(r, bit)
  {
    hide BitIn;
    assert [bit][1..] == [];
    Checksums.NoBits(BitIn(r, bit));
  }

  lemma NextQuotient(q: seq<nat>, r: bv32, bit: bool) returns (next: seq<nat>)
    ensures Plus(Raised(Plus(Multiple(q), Register(r)), 1), if bit then {32} else {})
         == Plus(Multiple(next), Register(BitIn(r, bit)))
  {
    hide BitIn, Odd, Register, Multiple;
    var in32: Polynomial, out: Polynomial := if bit then {32} else {}, if Odd(r) != bit then GENERATOR else {};
    var m, s := Raised(Multiple(q), 1), Raised(Register(r), 1);
    BitDivides(r, bit);
    RaisedSum(Multiple(q), Register(r), 1);
    MultipleRaised(q);
    if Odd(r) != bit {
      next := Next(q) + [0];
      OneMoreTerm(Next(q), 0);
      assert Raised(GENERATOR, 0) == GENERATOR;
    } else {
      next := Next(q);
      assert Plus(m, {}) == m;
    }
    Regrouped(m, s, in32, out);
  }

  lemma Regrouped(m: Polynomial, s: Polynomial, a: Polynomial, g: Polynomial)
    ensures Plus(Plus(m, s), a) == Plus(Plus(m, g), Plus(Plus(s, a), g))
  {
  }

  /** The checksum is the complement of the remainder of the message, behind 32 zero bits and
      with 32 ones added at its head, divided by the generator; its lowest bit is the
      remainder's coefficient of x^31. */
  lemma CrcIsRemainder(bytes: Bytes) returns (q: seq<nat>, r: Polynomial)
    ensures Plus(Raised(PolynomialOf(BitString(bytes)), 32), Raised(ONES, 8 * |bytes|)) == Plus(Multiple(q), r)
    ensures forall e :: e in r ==> e < 32
    ensures forall i: nat :: i < 32 ==> (BitOf(Crc(bytes), i) <==> 31 - i !in r)
  {
    hide BitOf, Register, FeedBits, Multiple, Feed, Complement, PolynomialOf;
    FeedIsBits(INITIAL, bytes);
    q := FeedDivides(BitString(bytes));
    var state := FeedBits(INITIAL, BitString(bytes));
    r := Register(state);
    forall i: nat | i < 32 ensures BitOf(Crc(bytes), i) <==> 31 - i !in r {
      InRegister(state, 31 - i);
      ComplementBit(state, i);
    }
  }

  lemma ComplementBit(v: bv32, i: nat)
    requires i < 32
    ensures BitOf(Complement(v), i) == !BitOf(v, i)
  {
    hide BitOf, Xor;
    ComplementIsXor(v);
    BitOfXor(v, INITIAL, i);
    AllOnes(i);
  }

  lemma ComplementIsXor(v: bv32)
    ensures Complement(v) == Xor(v, INITIAL)
  {
  }
}
