/** Powers of two, and quotients. */
module Numbers {

  function Pow2(n: nat): (p: nat)
    ensures p >= 1
  {
    if n == 0 then 1 else 2 * Pow2(n - 1)
  }

  lemma PowersToSixteen()
    ensures Pow2(4) == 16 && Pow2(8) == 256 && Pow2(12) == 4096 && Pow2(16) == 65536
  {
    assert Pow2(4) == 16;
    assert Pow2(8) == 16 * Pow2(4);
    assert Pow2(12) == 16 * Pow2(8);
    assert Pow2(16) == 16 * Pow2(12);
  }

  lemma {:induction false} Pow2Monotone(m: nat, n: nat)
    requires m <= n
    ensures Pow2(m) <= Pow2(n)
    decreases n
  {
    if m < n {
      Pow2Monotone(m, n - 1);
    }
  }

  lemma Times(d: int, w: int)
    requires w >= 0
    ensures d >= 1 ==> d * w >= w
    ensures d <= -1 ==> d * w + w <= 0
  {
  }

  lemma RemainderIs(v: nat, w: nat, q: nat, r: nat)
    requires v == q * w + r && r < w
    ensures v / w == q && v % w == r
  {
    var d := v / w - q;
    assert d * w == r - v % w;
    Times(d, w);
  }

  lemma HalfQuotient(b: nat, w: nat, m: nat)
    requires w > 0 && m == 2 * w
    ensures b / 2 / w == b / m
  {
    var a := b / 2;
    var q, r := a / w, a % w;
    QuotientOfDouble(b, a, w, m, q, r);
  }

  lemma QuotientOfDouble(b: nat, a: nat, w: nat, m: nat, q: nat, r: nat)
    requires a == b / 2 && m == 2 * w && a == q * w + r && r < w
    ensures b / m == q
  {
    Doubled(q, w, m);
    RemainderIs(b, m, q, 2 * r + b % 2);
  }

  lemma Doubled(q: nat, w: nat, m: nat)
    requires m == 2 * w
    ensures q * m == 2 * (q * w)
  {
  }
}
