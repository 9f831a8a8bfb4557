/** Orders of columns: sequences that hold each of 0 .. n-1 once. */
module Permutations {
  import opened Collections

  function Range(n: nat): seq<int> { seq(n, i => i) }

  /** `s` holds each of 0 .. |s|-1 exactly once. */
  ghost predicate IsPermutation(s: seq<int>) { multiset(s) == multiset(Range(|s|)) }

  ghost predicate InRange(s: seq<int>) { forall i | 0 <= i < |s| :: 0 <= s[i] < |s| }

  ghost predicate NoDuplicates(s: seq<int>) { forall i, j | 0 <= i < j < |s| :: s[i] != s[j] }

  /** Every one of 0 .. |s|-1 occurs. */
  ghost predicate Covers(s: seq<int>) { forall x | 0 <= x < |s| :: x in s }

  ghost function Elements(s: seq<int>): set<int> { set x | x in s }

  lemma {:induction false} ElementsCount(s: seq<int>)
    ensures |Elements(s)| <= |s|
    ensures |Elements(s)| == |s| <==> NoDuplicates(s)
  {
    if s != [] {
      var n := |s| - 1;
      var front := s[..n];
      ElementsCount(front);
      assert forall i | 0 <= i < n :: front[i] == s[i];
      assert Elements(s) == Elements(front) + {s[n]};
      if s[n] in front { assert !NoDuplicates(s); }
      if NoDuplicates(front) && s[n] !in front {
        forall i, j | 0 <= i < j < |s| ensures s[i] != s[j] { assert s[i] == front[i]; }
      }
    } else {
      assert Elements(s) == {};
    }
  }

  lemma {:induction false} RangeCount(n: nat)
    ensures |Elements(Range(n))| == n && forall x :: x in Elements(Range(n)) <==> 0 <= x < n
  {
    ElementsCount(Range(n));
    forall x | 0 <= x < n ensures x in Elements(Range(n)) { assert Range(n)[x] == x; }
  }

  lemma SubsetOfSameSize(a: set<int>, b: set<int>)
    requires a <= b && |a| == |b|
    ensures a == b
  {
    SubsetSize(a, b);
    assert b == a + (b - a) && |b - a| == 0;
  }

  /** Pigeonhole: among values in range, no duplicates and no gaps are the same. */
  lemma Pigeonhole(s: seq<int>)
    requires InRange(s)
    ensures Covers(s) <==> NoDuplicates(s)
  {
    ElementsCount(s);
    RangeCount(|s|);
    assert Elements(s) <= Elements(Range(|s|));
    if Covers(s) { assert Elements(s) == Elements(Range(|s|)); }
    if NoDuplicates(s) {
      SubsetOfSameSize(Elements(s), Elements(Range(|s|)));
      forall x | 0 <= x < |s| ensures x in s { assert x in Elements(s); }
    }
  }

  lemma {:induction false} AtMostOnce(s: seq<int>, x: int)
    ensures NoDuplicates(s) ==> multiset(s)[x] <= 1
  {
    if s != [] {
      var n := |s| - 1;
      assert s == s[..n] + [s[n]];
      AtMostOnce(s[..n], x);
    }
  }

  lemma {:induction false} DuplicateTwice(s: seq<int>, i: nat, j: nat)
    requires i < j < |s| && s[i] == s[j]
    ensures multiset(s)[s[i]] >= 2
  {
    assert s == s[..j] + [s[j]] + s[j + 1..];
    assert s[..j][i] == s[i];
  }

  /** A permutation is in range and has no duplicates, and conversely. */
  lemma PermutationIff(s: seq<int>)
    ensures IsPermutation(s) <==> InRange(s) && NoDuplicates(s)
  {
    var r := Range(|s|);
    if IsPermutation(s) {
      forall i | 0 <= i < |s| ensures 0 <= s[i] < |s| { assert s[i] in multiset(s) && s[i] in r; }
      forall i, j | 0 <= i < j < |s| ensures s[i] != s[j] {
        AtMostOnce(r, s[i]);
        if s[i] == s[j] { DuplicateTwice(s, i, j); }
      }
    }
    if InRange(s) && NoDuplicates(s) {
      Pigeonhole(s);
      forall x ensures multiset(s)[x] == multiset(r)[x] {
        AtMostOnce(s, x);
        AtMostOnce(r, x);
        if 0 <= x < |s| { assert x in s && r[x] == x && x in r; }
      }
    }
  }

  /** Also without knowing that the values are in range. */
  lemma CoversIsPermutation(s: seq<int>)
    requires Covers(s)
    ensures IsPermutation(s)
  {
    ElementsCount(s);
    RangeCount(|s|);
    var r := Elements(Range(|s|));
    assert r <= Elements(s);
    SubsetSize(r, Elements(s));
    SubsetOfSameSize(r, Elements(s));
    forall i | 0 <= i < |s| ensures 0 <= s[i] < |s| { assert s[i] in Elements(s); }
    PermutationIff(s);
  }
}
