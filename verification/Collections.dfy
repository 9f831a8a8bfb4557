/** Sequences with an item put in or taken out, and the size of finite sets. */
module Collections {

  /** The first element with property `p`, or the length. */
  function FirstIndex<T>(s: seq<T>, p: T -> bool): (i: nat)
    ensures i <= |s| && (i < |s| ==> p(s[i])) && forall k | 0 <= k < i :: !p(s[k])
  {
    if s == [] || p(s[0]) then 0
    else
      var i := FirstIndex(s[1..], p);
      assert forall k | 0 < k <= i :: s[k] == s[1..][k - 1];
      i + 1
  }

  function Insert<T>(s: seq<T>, i: nat, x: T): seq<T>
    requires i <= |s|
  {
    s[..i] + [x] + s[i..]
  }

  function Remove<T>(s: seq<T>, i: nat): seq<T>
    requires i < |s|
  {
    s[..i] + s[i + 1..]
  }

  /** Removing what was inserted, and inserting what was removed, changes nothing. */
  lemma InsertRemove<T>(s: seq<T>, i: nat, x: T)
    requires i <= |s|
    ensures Remove(Insert(s, i, x), i) == s
    ensures i < |s| ==> Insert(Remove(s, i), i, s[i]) == s
  {}

  lemma InsertedAt<T>(s: seq<T>, i: nat, x: T)
    requires i <= |s|
    ensures var r := Insert(s, i, x);
      && |r| == |s| + 1 && r[i] == x
      && (forall k | 0 <= k < i :: r[k] == s[k]) && (forall k | i < k < |r| :: r[k] == s[k - 1])
  {}

  lemma RemovedAt<T>(s: seq<T>, i: nat)
    requires i < |s|
    ensures var r := Remove(s, i);
      && |r| == |s| - 1
      && (forall k | 0 <= k < i :: r[k] == s[k]) && (forall k | i <= k < |r| :: r[k] == s[k + 1])
  {}

  lemma RemoveInTail<T>(s: seq<T>, i: nat)
    requires 0 < i < |s|
    ensures Remove(s, i)[0] == s[0] && Remove(s, i)[1..] == Remove(s[1..], i - 1)
  {}

  lemma {:induction false} SubsetSize<T>(a: set<T>, b: set<T>)
    requires a <= b
    ensures |a| <= |b|
    decreases |a|
  {
    if |a| > 0 {
      var x :| x in a;
      SubsetSize(a - {x}, b - {x});
    }
  }
}
