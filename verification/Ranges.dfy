/** The sort-and-scan overlap check of packed-stream sections. */
module Ranges {
  import opened Support

  datatype Range = Range(start: nat, end: nat)

  predicate Proper(ranges: seq<Range>) {
    forall r :: r in ranges ==> r.start < r.end
  }

  /** Some byte lies in both. */
  predicate Overlap(a: Range, b: Range) {
    a.start < b.end && b.start < a.end
  }

  /** No byte lies in two of the ranges. */
  predicate Disjoint(ranges: seq<Range>) {
    forall i, j :: 0 <= i < j < |ranges| ==> !Overlap(ranges[i], ranges[j])
  }

  // ----- Disjointness does not depend on the order.

  lemma TwoCopies(s: seq<Range>, i: nat, j: nat)
    requires i < j < |s| && s[i] == s[j]
    ensures multiset(s)[s[i]] >= 2
  {
    assert s == s[..j] + s[j..];
    assert s[i] == s[..j][i] && s[j] == s[j..][0];
    assert s[i] in multiset(s[..j]) && s[i] in multiset(s[j..]);
  }

  lemma TwoPlaces(s: seq<Range>, x: Range)
    requires multiset(s)[x] >= 2
    ensures x in s && exists i, j :: 0 <= i < j < |s| && s[i] == x && s[j] == x
  {
    assert x in s;
    var i :| 0 <= i < |s| && s[i] == x;
    var rest := s[..i] + s[i + 1..];
    assert s == s[..i] + [x] + s[i + 1..];
    assert multiset(rest) == multiset(s) - multiset{x};
    assert x in rest;
    var k :| 0 <= k < |rest| && rest[k] == x;
    var j := if k < i then k else k + 1;
    assert s[j] == x;
  }

  lemma NoTwice(a: seq<Range>, x: Range)
    requires Disjoint(a) && Proper(a)
    ensures multiset(a)[x] < 2
  {
    if multiset(a)[x] >= 2 {
      TwoPlaces(a, x);
    }
  }

  lemma DisjointPermuted(a: seq<Range>, b: seq<Range>)
    requires multiset(a) == multiset(b) && Disjoint(a) && Proper(a)
    ensures Disjoint(b) && Proper(b)
  {
    forall r | r in b ensures r.start < r.end {
      assert r in multiset(b) && r in a;
    }
    forall i, j | 0 <= i < j < |b| ensures !Overlap(b[i], b[j]) {
      assert b[i] in multiset(b) && b[j] in multiset(b);
      if b[i] == b[j] {
        TwoCopies(b, i, j);
        NoTwice(a, b[i]);
      } else {
        assert b[i] in multiset(a) && b[j] in multiset(a);
        var k :| 0 <= k < |a| && a[k] == b[i];
        var l :| 0 <= l < |a| && a[l] == b[j];
        assert k < l || l < k;
      }
    }
  }

  // ----- The scan.

  predicate ByStart(s: seq<Range>) {
    forall i, j :: 0 <= i < j < |s| ==> s[i].start <= s[j].start
  }

  /** Each range starts at or after the end of the one before it. */
  predicate Chained(s: seq<Range>) {
    forall i :: 0 < i < |s| ==> s[i - 1].end <= s[i].start
  }

  lemma {:induction false} ChainedApart(s: seq<Range>, i: nat, j: nat)
    requires Chained(s) && Proper(s) && i < j < |s|
    ensures s[i].end <= s[j].start
    decreases j
  {
    if i < j - 1 {
      ChainedApart(s, i, j - 1);
      assert s[j - 1] in s;
    }
  }

  /** Sorted by start, non-empty ranges chain exactly when they are disjoint. */
  lemma ChainedMeansDisjoint(s: seq<Range>)
    requires ByStart(s) && Proper(s)
    ensures Chained(s) <==> Disjoint(s)
  {
    if Chained(s) {
      forall i, j | 0 <= i < j < |s| ensures !Overlap(s[i], s[j]) {
        ChainedApart(s, i, j);
      }
    }
    if Disjoint(s) {
      forall i | 0 < i < |s| ensures s[i - 1].end <= s[i].start {
        assert s[i] in s && !Overlap(s[i - 1], s[i]);
        assert s[i - 1].start <= s[i].start;
      }
    }
  }

  // ----- The check.

  function Inserted(s: seq<Range>, r: Range): (t: seq<Range>) {
    if |s| == 0 || s[|s| - 1].start <= r.start then s + [r]
    else Inserted(s[..|s| - 1], r) + [s[|s| - 1]]
  }

  lemma {:induction false} InsertedKeeps(s: seq<Range>, r: Range)
    ensures multiset(Inserted(s, r)) == multiset(s) + multiset{r}
    decreases |s|
  {
    if |s| > 0 && s[|s| - 1].start > r.start {
      InsertedKeeps(s[..|s| - 1], r);
      assert s == s[..|s| - 1] + [s[|s| - 1]];
    }
  }

  lemma {:induction false} InsertedSorted(s: seq<Range>, r: Range)
    requires ByStart(s)
    ensures ByStart(Inserted(s, r))
    decreases |s|
  {
    if |s| > 0 && s[|s| - 1].start > r.start {
      var n := |s| - 1;
      var front := Inserted(s[..n], r);
      InsertedSorted(s[..n], r);
      InsertedKeeps(s[..n], r);
      forall i | 0 <= i < |front| ensures front[i].start <= s[n].start {
        assert front[i] in multiset(s[..n]) + multiset{r};
      }
    }
  }

  /** The library sort: in place, by start; equal starts in any order. */
  method SortByStart(ranges: array<Range>)
    modifies ranges
    ensures ByStart(ranges[..]) && multiset(ranges[..]) == multiset(old(ranges[..]))
  {
    ghost var given := ranges[..];
    var sorted: seq<Range> := [];
    for i := 0 to ranges.Length
      invariant ranges[..] == given && ByStart(sorted) && multiset(sorted) == multiset(ranges[..i]) && |sorted| == i
    {
      assert ranges[..i + 1] == ranges[..i] + [ranges[i]];
      InsertedKeeps(sorted, ranges[i]);
      InsertedSorted(sorted, ranges[i]);
      sorted := Inserted(sorted, ranges[i]);
      assert |multiset(sorted)| == i + 1;
    }
    assert ranges[..ranges.Length] == given;
    forall i | 0 <= i < ranges.Length {
      ranges[i] := sorted[i];
    }
    assert ranges[..] == sorted;
  }

  /** Accepts a list of non-empty ranges exactly when it is pairwise disjoint. */
  method CheckNonOverlapping(ranges: array<Range>) returns (r: Result<()>)
    requires Proper(ranges[..])
    modifies ranges
    ensures r.Success? <==> Disjoint(old(ranges[..]))
    ensures r.Failure? ==> r.error == Format(PackRangesOverlap)
    ensures multiset(ranges[..]) == multiset(old(ranges[..]))
  {
    hide Disjoint, ByStart, Proper;
    ghost var given := ranges[..];
    SortByStart(ranges);
    AnyOrder(given, ranges[..]);
    var previousEnd: Option<nat> := None;
    for i := 0 to ranges.Length
      invariant previousEnd == if i == 0 then None else Some(ranges[i - 1].end)
      invariant forall k :: 0 < k < i ==> ranges[k - 1].end <= ranges[k].start
    {
      if previousEnd.Some? && ranges[i].start < previousEnd.value {
        assert ranges[..][i - 1].end > ranges[..][i].start;
        return Failure(Format(PackRangesOverlap));
      }
      previousEnd := Some(ranges[i].end);
    }
    return Success(());
  }

  lemma AnyOrder(given: seq<Range>, sorted: seq<Range>)
    requires Proper(given) && multiset(given) == multiset(sorted) && ByStart(sorted)
    ensures Chained(sorted) <==> Disjoint(given)
  {
    forall r | r in sorted ensures r.start < r.end {
      assert r in multiset(sorted) && r in given;
    }
    ChainedMeansDisjoint(sorted);
    if Disjoint(given) {
      DisjointPermuted(given, sorted);
    }
    if Disjoint(sorted) {
      DisjointPermuted(sorted, given);
    }
  }
}
