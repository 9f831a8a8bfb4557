/**
 Insertion into a sorted list by bisection.  The comparison is a parameter: a total preorder
 that answers -1, 0 or +1.
 */
module SortedList {
  import opened Collections

  ghost predicate Order<T(!new)>(cmp: (T, T) -> int) {
    && (forall a, b :: -1 <= cmp(a, b) <= 1 && cmp(a, b) == -cmp(b, a))
    && (forall a, b, c :: cmp(a, b) <= 0 && cmp(b, c) <= 0 ==> cmp(a, c) <= 0)
  }

  predicate Sorted<T>(s: seq<T>, cmp: (T, T) -> int) {
    forall i, j | 0 <= i < j < |s| :: cmp(s[i], s[j]) <= 0
  }

  /** Insertion turns the result over when the order is descending ... */
  function Directed<T>(cmp: (T, T) -> int, ascending: bool): (T, T) -> int {
    (a, b) => if ascending then cmp(a, b) else -1 * cmp(a, b)
  }

  /** ... while the sort callback turns the arguments over. */
  function Callback<T>(cmp: (T, T) -> int, ascending: bool): (T, T) -> int {
    (a, b) => if ascending then cmp(a, b) else cmp(b, a)
  }

  /** Both are the same order. */
  lemma CallbackIsDirected<T(!new)>(cmp: (T, T) -> int, ascending: bool)
    requires Order(cmp)
    ensures forall a, b :: Callback(cmp, ascending)(a, b) == Directed(cmp, ascending)(a, b)
    ensures Order(Directed(cmp, ascending))
  {
    var d := Directed(cmp, ascending);
    forall a, b ensures -1 <= d(a, b) <= 1 && d(a, b) == -d(b, a) && Callback(cmp, ascending)(a, b) == d(a, b) {
      assert cmp(a, b) == -cmp(b, a);
    }
    forall a, b, c | d(a, b) <= 0 && d(b, c) <= 0 ensures d(a, c) <= 0 {
      assert cmp(a, b) == -cmp(b, a) && cmp(b, c) == -cmp(c, b) && cmp(a, c) == -cmp(c, a);
    }
  }

  // ---------------------------------------------------------------- bisection

  /** An index, and the number of comparisons made to find it. */
  datatype Found = Found(index: nat, comparisons: nat)

  /** Halves [top, bottom] while it has rows strictly inside, keeping list[top] < x <= list[bottom]. */
  function BooleanSearchInsertionPoint<T>(s: seq<T>, x: T, top: nat, bottom: nat, cmp: (T, T) -> int): (r: Found)
    requires top <= bottom < |s|
    ensures top <= r.index <= bottom
    ensures top < bottom && cmp(x, s[top]) > 0 && cmp(x, s[bottom]) <= 0 ==>
      r.index > top && cmp(x, s[r.index - 1]) > 0 && cmp(x, s[r.index]) <= 0
    decreases bottom - top
  {
    if top == bottom || top + 1 == bottom then
      Found(bottom, 0)
    else
      var middle := top + (bottom - top) / 2;
      assert top < middle < bottom;
      var r := if cmp(x, s[middle]) <= 0
        then BooleanSearchInsertionPoint(s, x, top, middle, cmp)
        else BooleanSearchInsertionPoint(s, x, middle, bottom, cmp);
      Found(r.index, r.comparisons + 1)
  }

  /** Where a list with a sort column takes a new item; `cmp` has the direction in it. */
  function FindInsertionIndex<T>(s: seq<T>, x: T, cmp: (T, T) -> int): (r: Found)
    ensures r.index <= |s|
    ensures r.index < |s| ==> cmp(x, s[r.index]) <= 0
    ensures 0 < r.index < |s| ==> cmp(x, s[r.index - 1]) > 0
    ensures r.index == |s| > 0 ==> cmp(x, s[|s| - 1]) >= 0
  {
    var n := |s|;
    if n == 0 then Found(0, 0)
    else if cmp(x, s[0]) <= 0 then Found(0, 1)
    else if cmp(x, s[n - 1]) >= 0 then Found(n, 2)
    else
      var r := BooleanSearchInsertionPoint(s, x, 0, n - 1, cmp);
      Found(r.index, r.comparisons + 2)
  }

  /** The rows from the index on are not smaller, those before it are strictly smaller, or else
      the index is the end and they are not bigger. */
  predicate IsPlaceFor<T>(s: seq<T>, x: T, i: nat, cmp: (T, T) -> int) {
    && i <= |s|
    && (forall k | i <= k < |s| :: cmp(x, s[k]) <= 0)
    && (forall k | 0 <= k < i :: cmp(s[k], x) <= 0)
    && (i < |s| ==> forall k | 0 <= k < i :: cmp(s[k], x) < 0)
  }

  lemma InsertionIndex<T(!new)>(s: seq<T>, x: T, cmp: (T, T) -> int)
    requires Order(cmp) && Sorted(s, cmp)
    ensures IsPlaceFor(s, x, FindInsertionIndex(s, x, cmp).index, cmp)
  {
    var i := FindInsertionIndex(s, x, cmp).index;
    forall k | i <= k < |s| ensures cmp(x, s[k]) <= 0 {
      assert cmp(x, s[i]) <= 0 && (i == k || cmp(s[i], s[k]) <= 0);
    }
    forall k | 0 <= k < i ensures cmp(s[k], x) <= 0 && (i < |s| ==> cmp(s[k], x) < 0) {
      assert k == i - 1 || cmp(s[k], s[i - 1]) <= 0;
      assert cmp(x, s[i - 1]) == -cmp(s[i - 1], x) && cmp(x, s[k]) == -cmp(s[k], x);
      var a, b := s[k], s[i - 1];
      assert cmp(x, a) <= 0 && cmp(a, b) <= 0 ==> cmp(x, b) <= 0;
    }
  }

  lemma InsertSorted<T(!new)>(s: seq<T>, i: nat, x: T, cmp: (T, T) -> int)
    requires Order(cmp) && Sorted(s, cmp) && i <= |s|
    ensures Sorted(Insert(s, i, x), cmp) <==>
      (forall k | i <= k < |s| :: cmp(x, s[k]) <= 0) && (forall k | 0 <= k < i :: cmp(s[k], x) <= 0)
  {
    var r := Insert(s, i, x);
    InsertedAt(s, i, x);
    if Sorted(r, cmp) {
      forall k | i <= k < |s| ensures cmp(x, s[k]) <= 0 { assert r[k + 1] == s[k]; }
      forall k | 0 <= k < i ensures cmp(s[k], x) <= 0 { assert r[k] == s[k]; }
    }
    if (forall k | i <= k < |s| :: cmp(x, s[k]) <= 0) && (forall k | 0 <= k < i :: cmp(s[k], x) <= 0) {
      forall a, b | 0 <= a < b < |r| ensures cmp(r[a], r[b]) <= 0 {
        if b == i {
          assert r[a] == s[a];
        } else if a == i {
          assert r[b] == s[b - 1];
        } else {
          assert r[a] == s[if a < i then a else a - 1] && r[b] == s[if b < i then b else b - 1];
        }
      }
    }
  }

  /** In a sorted list an item fits at `i` if it fits between its two neighbours. */
  lemma FitsBetween<T(!new)>(s: seq<T>, i: nat, x: T, cmp: (T, T) -> int)
    requires Order(cmp) && Sorted(s, cmp) && i <= |s|
    ensures (i > 0 ==> cmp(s[i - 1], x) <= 0) && (i < |s| ==> cmp(x, s[i]) <= 0) <==> Sorted(Insert(s, i, x), cmp)
  {
    InsertSorted(s, i, x, cmp);
    if (i > 0 ==> cmp(s[i - 1], x) <= 0) && (i < |s| ==> cmp(x, s[i]) <= 0) {
      forall k | i <= k < |s| ensures cmp(x, s[k]) <= 0 {
        assert i == k || cmp(s[i], s[k]) <= 0;
      }
      forall k | 0 <= k < i ensures cmp(s[k], x) <= 0 {
        assert k == i - 1 || cmp(s[k], s[i - 1]) <= 0;
      }
    }
  }

  /** An item inserted where FindInsertionIndex says keeps the list sorted. */
  lemma SortedAfterInsertion<T(!new)>(s: seq<T>, x: T, cmp: (T, T) -> int)
    requires Order(cmp) && Sorted(s, cmp)
    ensures Sorted(Insert(s, FindInsertionIndex(s, x, cmp).index, x), cmp)
  {
    InsertionIndex(s, x, cmp);
    InsertSorted(s, FindInsertionIndex(s, x, cmp).index, x, cmp);
  }

  lemma SortedAfterRemoval<T>(s: seq<T>, i: nat, cmp: (T, T) -> int)
    requires Sorted(s, cmp) && i < |s|
    ensures Sorted(Remove(s, i), cmp)
  {
    forall k | 0 <= k < |s| - 1 ensures Remove(s, i)[k] == s[if k < i then k else k + 1] {}
  }

  // ---------------------------------------------------------------- number of comparisons

  function Pow2(k: nat): nat { if k == 0 then 1 else 2 * Pow2(k - 1) }

  function CeilLog2(n: nat): nat { if n <= 1 then 0 else 1 + CeilLog2((n + 1) / 2) }

  /** It is the least k with n <= 2^k. */
  lemma {:induction false} CeilLog2IsLeast(n: nat)
    ensures var k := CeilLog2(n); n <= Pow2(k) && (n > 1 ==> k > 0 && Pow2(k - 1) < n)
  {
    if n > 1 { CeilLog2IsLeast((n + 1) / 2); }
  }

  lemma {:induction false} CeilLog2Grows(m: nat, n: nat)
    requires m <= n
    ensures CeilLog2(m) <= CeilLog2(n)
    decreases n
  {
    if n > 1 && m > 1 { CeilLog2Grows((m + 1) / 2, (n + 1) / 2); }
  }

  /** Either half needs one comparison less. */
  lemma Halves(top: nat, middle: nat, bottom: nat)
    requires top + 1 < bottom && middle == top + (bottom - top) / 2
    ensures top < middle < bottom
    ensures CeilLog2(middle - top) < CeilLog2(bottom - top) && CeilLog2(bottom - middle) < CeilLog2(bottom - top)
  {
    assert bottom - middle == (bottom - top + 1) / 2;
    CeilLog2Grows(middle - top, bottom - middle);
  }

  lemma {:induction false} BisectionComparisons<T>(s: seq<T>, x: T, top: nat, bottom: nat, cmp: (T, T) -> int)
    requires top <= bottom < |s|
    ensures BooleanSearchInsertionPoint(s, x, top, bottom, cmp).comparisons <= CeilLog2(bottom - top)
    decreases bottom - top
  {
    if top + 1 < bottom {
      var middle := top + (bottom - top) / 2;
      Halves(top, middle, bottom);
      if cmp(x, s[middle]) <= 0 {
        BisectionComparisons(s, x, top, middle, cmp);
      } else {
        BisectionComparisons(s, x, middle, bottom, cmp);
      }
    }
  }

  /** Two comparisons with the ends, and one for each halving of what lies between. */
  lemma InsertionComparisons<T>(s: seq<T>, x: T, cmp: (T, T) -> int)
    requires |s| >= 2
    ensures FindInsertionIndex(s, x, cmp).comparisons <= 2 + CeilLog2(|s| - 1)
  {
    BisectionComparisons(s, x, 0, |s| - 1, cmp);
  }
}
