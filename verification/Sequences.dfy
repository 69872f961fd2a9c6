/** Words standing at a position of a longer sequence. */
module Sequences {

  predicate At<T(==)>(s: seq<T>, p: nat, word: seq<T>) {
    p + |word| <= |s| && s[p..p + |word|] == word
  }

  lemma AtConcat<T>(s: seq<T>, p: nat, u: seq<T>, w: seq<T>)
    ensures At(s, p, u + w) <==> At(s, p, u) && At(s, p + |u|, w)
  {
    if p + |u + w| <= |s| {
      var middle := p + |u|;
      assert s[p..p + |u + w|] == s[p..middle] + s[middle..middle + |w|];
      if At(s, p, u + w) {
        assert s[p..middle] == (u + w)[..|u|] == u;
        assert s[middle..middle + |w|] == (u + w)[|u|..] == w;
      }
    }
  }

  lemma AtOne<T>(s: seq<T>, p: nat, x: T)
    ensures At(s, p, [x]) <==> p < |s| && s[p] == x
  {
    if p < |s| {
      assert s[p..p + 1] == [s[p]];
    }
  }

  lemma AtBounds<T>(s: seq<T>, p: nat, word: seq<T>)
    requires At(s, p, word)
    ensures p + |word| <= |s|
  {
  }

  lemma AtNothing<T>(s: seq<T>, p: nat)
    requires p <= |s|
    ensures At(s, p, [])
  {
  }

  lemma AtWhole<T>(word: seq<T>, rest: seq<T>)
    ensures At(word + rest, 0, word)
  {
    assert (word + rest)[0..|word|] == word;
  }

  /** How many of the first k flags are set. */
  function SetBefore(flags: seq<bool>, k: nat): (n: nat)
    requires k <= |flags|
    ensures n <= k
  {
    if k == 0 then 0 else SetBefore(flags, k - 1) + if flags[k - 1] then 1 else 0
  }

  lemma {:induction false} SetMonotone(flags: seq<bool>, a: nat, b: nat)
    requires a <= b <= |flags|
    ensures SetBefore(flags, a) <= SetBefore(flags, b) && a - SetBefore(flags, a) <= b - SetBefore(flags, b)
    decreases b
  {
    if a < b {
      SetMonotone(flags, a, b - 1);
    }
  }

  lemma Subslice<T>(s: seq<T>, a: nat, b: nat, c: nat, d: nat)
    requires a <= b <= |s| && c <= d <= b - a
    ensures s[a..b][c..d] == s[a + c..a + d]
  {
    forall i | 0 <= i < d - c ensures s[a..b][c..d][i] == s[a + c..a + d][i] {
      assert s[a..b][c + i] == s[a + c + i];
    }
  }
}
