/**
 The operations offered on the selected rows.  CFolderListView keeps a mask and, for each
 operation, how many selected rows lack it, and updates both row by row.  Here a mask is
 the set of its bit positions; module SelectionView has the DWORD.
 */
module SelectionCache {

  /** A set of bit positions: 0 VIEW, 1 PAUSE, 2 RESUME, 3 RESTART, 4 DELETE,
      5 RECIPIENT_INFO, 6 SENDER_INFO, 7 PROPERTIES. */
  type Ops = set<nat>

  const OP_NUMBER: nat := 8
  const SINGLE_ONLY: Ops := {0, 7}   // VIEW and PROPERTIES make sense for one row only
  const ALL: Ops := {0, 1, 2, 3, 4, 5, 6, 7}
  const FFFF: Ops := set k: nat | k < 16

  // ---------------------------------------------------------------- the list control

  /** A row: the operations of its message, cut down by the server's security. */
  datatype Row = Row(ops: Ops, selected: bool)

  ghost predicate InRange(rows: seq<Row>) { forall i | 0 <= i < |rows| :: rows[i].ops <= ALL }

  /** CListCtrl::GetSelectedCount */
  function Count(rows: seq<Row>): nat {
    if rows == [] then 0
    else Count(rows[..|rows| - 1]) + (if rows[|rows| - 1].selected then 1 else 0)
  }

  predicate Lacks(r: Row, k: nat) { r.selected && k !in r.ops }

  /** How many selected rows lack operation `k`. */
  function Lacking(rows: seq<Row>, k: nat): nat {
    if rows == [] then 0
    else Lacking(rows[..|rows| - 1], k) + (if Lacks(rows[|rows| - 1], k) then 1 else 0)
  }

  /** Operation `k` is possible on all selected rows; VIEW and PROPERTIES are for a single one. */
  predicate Offered(rows: seq<Row>, k: nat) {
    k < OP_NUMBER && Count(rows) > 0 && Lacking(rows, k) == 0 && (k == 0 || k == 7 ==> Count(rows) == 1)
  }

  function Toggle(rows: seq<Row>, i: nat, on: bool): seq<Row>
    requires i < |rows|
  {
    rows[i := rows[i].(selected := on)]
  }

  /** CListCtrl::GetNextItem: the first selected row from `i` on, or the number of rows. */
  function NextSelected(rows: seq<Row>, i: nat): (j: nat)
    requires i <= |rows|
    ensures i <= j <= |rows| && (j < |rows| ==> rows[j].selected)
    ensures forall k | i <= k < j :: !rows[k].selected
    decreases |rows| - i
  {
    if i == |rows| || rows[i].selected then i else NextSelected(rows, i + 1)
  }

  // ---------------------------------------------------------------- cache

  datatype Cache = Cache(mask: Ops, counts: seq<int>)

  const EMPTY := Cache({}, [0, 0, 0, 0, 0, 0, 0, 0])

  /** The operations OnItemSelected takes into account when `n` rows are selected. */
  function Stripped(ops: Ops, n: nat): Ops { if n > 1 then ops - SINGLE_ONLY else ops }

  /** OnItemSelected: an empty mask is taken for "nothing selected yet". */
  function Select(c: Cache, ops: Ops, n: nat): (r: Cache)
    requires |c.counts| == OP_NUMBER
    ensures |r.counts| == OP_NUMBER
  {
    var cut := Stripped(ops, n);
    Cache((if c.mask == {} then FFFF else c.mask) * cut,
          seq(OP_NUMBER, k requires 0 <= k < OP_NUMBER => c.counts[k] + (if k in cut then 0 else 1)))
  }

  /** OnItemUnSelected when two or more rows stay selected. */
  function Unselect(c: Cache, ops: Ops): (r: Cache)
    requires |c.counts| == OP_NUMBER
    ensures |r.counts| == OP_NUMBER
  {
    var counts := seq(OP_NUMBER, k requires 0 <= k < OP_NUMBER => c.counts[k] - (if k in ops then 0 else 1));
    Cache(c.mask + (set k: nat | k < OP_NUMBER && k !in ops && counts[k] == 0), counts)
  }

  /** OnItemUnSelected; `rows` are those after the change, `ops` those of the row. */
  function Unselected(rows: seq<Row>, c: Cache, ops: Ops): (r: Cache)
    requires |c.counts| == OP_NUMBER
    ensures |r.counts| == OP_NUMBER
  {
    var first := NextSelected(rows, 0);
    if Count(rows) > 1 then Unselect(c, ops)
    else if first < |rows| then Select(EMPTY, rows[first].ops, 1)
    else EMPTY
  }

  /** RecalcPossibleOperations after the first `j` rows; `n` rows are selected in all. */
  function RecalcTo(rows: seq<Row>, j: nat, n: nat): (r: Cache)
    requires j <= |rows|
    ensures |r.counts| == OP_NUMBER
  {
    if j == 0 then EMPTY
    else if rows[j - 1].selected then Select(RecalcTo(rows, j - 1, n), rows[j - 1].ops, n)
    else RecalcTo(rows, j - 1, n)
  }

  function Recalc(rows: seq<Row>): (r: Cache)
    ensures |r.counts| == OP_NUMBER
  {
    RecalcTo(rows, |rows|, Count(rows))
  }

  // ---------------------------------------------------------------- counting

  lemma {:induction false} CountOfToggle(rows: seq<Row>, i: nat, k: nat)
    requires i < |rows|
    ensures Count(Toggle(rows, i, true)) == Count(Toggle(rows, i, false)) + 1
    ensures Lacking(Toggle(rows, i, true), k) == Lacking(Toggle(rows, i, false), k) + (if k in rows[i].ops then 0 else 1)
  {
    var n := |rows| - 1;
    if i == n {
      assert Toggle(rows, i, true)[..n] == rows[..n] == Toggle(rows, i, false)[..n];
    } else {
      assert Toggle(rows, i, true)[..n] == Toggle(rows[..n], i, true);
      assert Toggle(rows, i, false)[..n] == Toggle(rows[..n], i, false);
      CountOfToggle(rows[..n], i, k);
    }
  }

  lemma {:induction false} LackingAtMostCount(rows: seq<Row>, k: nat)
    ensures Lacking(rows, k) <= Count(rows)
  {
    if rows != [] { LackingAtMostCount(rows[..|rows| - 1], k); }
  }

  lemma {:induction false} NoneSelected(rows: seq<Row>)
    requires forall i | 0 <= i < |rows| :: !rows[i].selected
    ensures Count(rows) == 0
  {
    if rows != [] { NoneSelected(rows[..|rows| - 1]); }
  }

  lemma {:induction false} SomeSelected(rows: seq<Row>, i: nat)
    requires i < |rows| && rows[i].selected
    ensures Count(rows) > 0
  {
    assert Toggle(rows, i, true) == rows;
    CountOfToggle(rows, i, 0);
  }

  // ---------------------------------------------------------------- counters

  predicate CountOk(rows: seq<Row>, c: Cache, k: nat)
    requires k < |c.counts|
  {
    if k in SINGLE_ONLY && Count(rows) > 1 then c.counts[k] >= Lacking(rows, k) && c.counts[k] >= Count(rows) - 1
    else c.counts[k] == Lacking(rows, k)
  }

  /** Each counter is the number of selected rows that lack the operation.  With two or more
      rows selected those of VIEW and PROPERTIES may exceed it, and are at least 1. */
  ghost predicate CountsOk(rows: seq<Row>, c: Cache) {
    |c.counts| == OP_NUMBER && forall k: nat | k < OP_NUMBER :: CountOk(rows, c, k)
  }

  /** The mask offers exactly what is possible on the whole selection. */
  ghost predicate MaskExact(rows: seq<Row>, c: Cache) {
    forall k: nat :: k in c.mask <==> Offered(rows, k)
  }

  /** A row becomes selected: the counters stay right ... */
  lemma SelectCounts(rows: seq<Row>, c: Cache, i: nat)
    requires CountsOk(rows, c) && i < |rows| && !rows[i].selected && InRange(rows)
    ensures CountsOk(Toggle(rows, i, true), Select(c, rows[i].ops, Count(Toggle(rows, i, true))))
  {
    assert Toggle(rows, i, false) == rows;
    var now := Toggle(rows, i, true);
    forall k: nat | k < OP_NUMBER ensures CountOk(now, Select(c, rows[i].ops, Count(now)), k) {
      assert CountOk(rows, c, k);
      CountOfToggle(rows, i, k);
      LackingAtMostCount(rows, k);
    }
  }

  /** ... and the mask stays exact, except that an empty one is taken for a fresh one. */
  lemma SelectMask(rows: seq<Row>, c: Cache, i: nat)
    requires |c.counts| == OP_NUMBER && MaskExact(rows, c) && i < |rows| && !rows[i].selected && InRange(rows)
    ensures var now := Toggle(rows, i, true);
      MaskExact(now, Select(c, rows[i].ops, Count(now))) <==>
        c.mask != {} || Count(rows) == 0 || Stripped(rows[i].ops, Count(now)) == {}
  {
    assert Toggle(rows, i, false) == rows;
    var now := Toggle(rows, i, true);
    var cut := Stripped(rows[i].ops, Count(now));
    var r := Select(c, rows[i].ops, Count(now));
    forall k: nat
      ensures k in r.mask <==> (c.mask == {} || Offered(rows, k)) && k in cut
      ensures Offered(now, k) <==> (Count(rows) == 0 || Offered(rows, k)) && k in cut
    {
      CountOfToggle(rows, i, k);
      LackingAtMostCount(rows, k);
    }
    if c.mask == {} && Count(rows) > 0 && cut != {} {
      var k :| k in cut;
      assert k in r.mask && !Offered(rows, k) && !Offered(now, k);
    }
  }

  /** A row becomes unselected: counters and mask stay right, and no counter goes below 0. */
  lemma UnselectKeeps(rows: seq<Row>, c: Cache, i: nat)
    requires CountsOk(rows, c) && i < |rows| && rows[i].selected && InRange(rows)
    ensures var now := Toggle(rows, i, false); var r := Unselected(now, c, rows[i].ops);
      && CountsOk(now, r)
      && (forall k: nat | k < OP_NUMBER :: r.counts[k] >= 0)
      && (MaskExact(rows, c) ==> MaskExact(now, r))
  {
    assert Toggle(rows, i, true) == rows;
    var now := Toggle(rows, i, false);
    var r := Unselected(now, c, rows[i].ops);
    if Count(now) > 1 {
      forall k: nat
        ensures k < OP_NUMBER ==> CountOk(now, r, k) && r.counts[k] >= 0
        ensures MaskExact(rows, c) ==> (k in r.mask <==> Offered(now, k))
      {
        if k < OP_NUMBER { assert CountOk(rows, c, k); }
        CountOfToggle(rows, i, k);
      }
    } else {
      DropToOne(now);
    }
  }

  /** The reset for at most one selected row is a full recalculation, and exact. */
  lemma DropToOne(rows: seq<Row>)
    requires Count(rows) <= 1 && InRange(rows)
    ensures var r := Unselected(rows, EMPTY, {});
      && CountsOk(rows, r) && MaskExact(rows, r)
      && forall c: Cache, ops: Ops | |c.counts| == OP_NUMBER :: Unselected(rows, c, ops) == r
  {
    var first := NextSelected(rows, 0);
    var r := Unselected(rows, EMPTY, {});
    if first < |rows| {
      SomeSelected(rows, first);
      assert Toggle(rows, first, true) == rows;
      forall k: nat ensures k < OP_NUMBER ==> CountOk(rows, r, k) ensures k in r.mask <==> Offered(rows, k) {
        CountOfToggle(rows, first, k);
        LackingAtMostCount(Toggle(rows, first, false), k);
      }
    } else {
      NoneSelected(rows);
      forall k: nat ensures k < OP_NUMBER ==> CountOk(rows, r, k) ensures k in r.mask <==> Offered(rows, k) {
        LackingAtMostCount(rows, k);
      }
    }
  }

  // ---------------------------------------------------------------- full recalculation

  lemma {:induction false} RecalcCounts(rows: seq<Row>, j: nat, n: nat, k: nat)
    requires j <= |rows| && k < OP_NUMBER && InRange(rows)
    ensures RecalcTo(rows, j, n).counts[k] ==
      if k in SINGLE_ONLY && n > 1 then Count(rows[..j]) else Lacking(rows[..j], k)
  {
    if j > 0 {
      assert rows[..j][..j - 1] == rows[..j - 1];
      RecalcCounts(rows, j - 1, n, k);
    }
  }

  /** A recalculation leaves the counters right, whatever they were. */
  lemma RecalcCountsOk(rows: seq<Row>)
    requires InRange(rows)
    ensures CountsOk(rows, Recalc(rows))
  {
    assert rows[..|rows|] == rows;
    forall k: nat | k < OP_NUMBER ensures CountOk(rows, Recalc(rows), k) {
      RecalcCounts(rows, |rows|, Count(rows), k);
      LackingAtMostCount(rows, k);
    }
  }

  /** The selected rows from `i` up to `j` have operation `k` in common, and it is meant for `n`. */
  predicate Common(rows: seq<Row>, i: nat, j: nat, n: nat, k: nat)
    requires j <= |rows|
  {
    k < OP_NUMBER && (k in SINGLE_ONLY ==> n <= 1) && forall m | i <= m < j && rows[m].selected :: k in rows[m].ops
  }

  ghost predicate NothingCommon(rows: seq<Row>, i: nat, j: nat, n: nat)
    requires j <= |rows|
  {
    forall k: nat :: !Common(rows, i, j, n, k)
  }

  /** Where the recalculation of the first `j` rows has last started afresh: at the last selected
      row before which the rows since the previous start have nothing in common; or at row 0. */
  ghost function LastStart(rows: seq<Row>, j: nat, n: nat): (i: nat)
    requires j <= |rows|
    ensures i <= j && (i > 0 ==> i < j && rows[i].selected)
  {
    if j == 0 then 0
    else
      var i := LastStart(rows, j - 1, n);
      if rows[j - 1].selected && NothingCommon(rows, i, j - 1, n) then j - 1 else i
  }

  lemma {:induction false} NoneCommonAtFirst(rows: seq<Row>, j: nat, n: nat)
    requires j <= |rows| && (forall m | 0 <= m < j :: !rows[m].selected)
    ensures LastStart(rows, j, n) == 0
  {
    if j > 0 { NoneCommonAtFirst(rows, j - 1, n); }
  }

  /** `mask` is what the selected rows from `i` up to `j` have in common. */
  ghost predicate IsCommon(rows: seq<Row>, i: nat, j: nat, n: nat, mask: Ops)
    requires j <= |rows|
  {
    forall k: nat :: k in mask <==> Common(rows, i, j, n, k)
  }

  /** The mask holds what the selected rows since the last start have in common; before the first
      selected row it is empty. */
  lemma {:induction false} RecalcMask(rows: seq<Row>, j: nat, n: nat)
    requires j <= |rows| && InRange(rows)
    ensures var mask := RecalcTo(rows, j, n).mask;
      if Count(rows[..j]) == 0 then mask == {} else IsCommon(rows, LastStart(rows, j, n), j, n, mask)
  {
    if j == 0 {
      assert rows[..0] == [];
    } else {
      RecalcMask(rows, j - 1, n);
      assert rows[..j][..j - 1] == rows[..j - 1];
      var was := LastStart(rows, j - 1, n);
      if rows[j - 1].selected {
        MaskOfRow(rows, j, n);
        if Count(rows[..j - 1]) == 0 {
          NothingBefore(rows, j - 1);
          NoneCommonAtFirst(rows, j - 1, n);
          FirstRow(rows, j, n);
        } else {
          NextRow(rows, was, j, n, RecalcTo(rows, j - 1, n).mask);
        }
      } else {
        SkipRow(rows, was, j, n);
      }
    }
  }

  lemma MaskOfRow(rows: seq<Row>, j: nat, n: nat)
    requires 0 < j <= |rows| && InRange(rows) && rows[j - 1].selected
    ensures IsCommon(rows, j - 1, j, n, Stripped(rows[j - 1].ops, n))
  {}

  lemma SkipRow(rows: seq<Row>, i: nat, j: nat, n: nat)
    requires 0 < j <= |rows| && !rows[j - 1].selected
    ensures forall k: nat :: Common(rows, i, j, n, k) <==> Common(rows, i, j - 1, n, k)
  {}

  lemma FirstRow(rows: seq<Row>, j: nat, n: nat)
    requires 0 < j <= |rows| && InRange(rows) && forall m | 0 <= m < j - 1 :: !rows[m].selected
    ensures forall k: nat :: Common(rows, 0, j, n, k) <==> Common(rows, j - 1, j, n, k)
    ensures !NothingCommon(rows, 0, j - 1, n)
  {
    assert Common(rows, 0, j - 1, n, 1);
  }

  /** One more selected row: the mask is cut down, or starts afresh when it is empty. */
  lemma NextRow(rows: seq<Row>, i: nat, j: nat, n: nat, mask: Ops)
    requires 0 < j <= |rows| && InRange(rows) && rows[j - 1].selected && i < j && IsCommon(rows, i, j - 1, n, mask)
    ensures mask == {} <==> NothingCommon(rows, i, j - 1, n)
    ensures IsCommon(rows, i, j, n, mask * Stripped(rows[j - 1].ops, n))
  {
    forall k: nat ensures Common(rows, i, j, n, k) <==> Common(rows, i, j - 1, n, k) && Common(rows, j - 1, j, n, k) {}
    MaskOfRow(rows, j, n);
    if NothingCommon(rows, i, j - 1, n) { assert forall k: nat :: k !in mask; }
  }

  lemma {:induction false} NothingBefore(rows: seq<Row>, j: nat)
    requires j <= |rows| && Count(rows[..j]) == 0
    ensures forall m | 0 <= m < j :: !rows[m].selected
  {
    if j > 0 {
      assert rows[..j][..j - 1] == rows[..j - 1];
      NothingBefore(rows, j - 1);
    }
  }

  /** What is offered is common to all rows, of which some is selected. */
  lemma {:induction false} CommonToAll(rows: seq<Row>, j: nat, n: nat, k: nat)
    requires j <= |rows|
    ensures Common(rows, 0, j, n, k) <==> k < OP_NUMBER && Lacking(rows[..j], k) == 0 && (k in SINGLE_ONLY ==> n <= 1)
  {
    if j > 0 {
      assert rows[..j][..j - 1] == rows[..j - 1];
      CommonToAll(rows, j - 1, n, k);
    }
  }

  /** Once it has started afresh, nothing is common to all rows. */
  lemma {:induction false} StartMeansNothing(rows: seq<Row>, j: nat, n: nat)
    requires j <= |rows| && LastStart(rows, j, n) > 0
    ensures NothingCommon(rows, 0, j, n)
  {
    var i := LastStart(rows, j - 1, n);
    if rows[j - 1].selected && NothingCommon(rows, i, j - 1, n) {
      forall k: nat ensures !Common(rows, 0, j, n, k) {
        assert !Common(rows, i, j - 1, n, k);
      }
    } else {
      StartMeansNothing(rows, j - 1, n);
      forall k: nat ensures !Common(rows, 0, j, n, k) {
        assert !Common(rows, 0, j - 1, n, k);
      }
    }
  }

  /** The recalculation has never started afresh, or the rows since then have nothing in common
      either. */
  ghost predicate StartsRight(rows: seq<Row>) {
    var i := LastStart(rows, |rows|, Count(rows));
    i == 0 || NothingCommon(rows, i, |rows|, Count(rows))
  }

  /** A recalculation is exact if and only if so. */
  lemma RecalcExact(rows: seq<Row>)
    requires InRange(rows)
    ensures MaskExact(rows, Recalc(rows)) <==> StartsRight(rows)
  {
    var n := Count(rows);
    var i := LastStart(rows, |rows|, n);
    assert rows[..|rows|] == rows;
    RecalcMask(rows, |rows|, n);
    forall k: nat ensures Offered(rows, k) <==> n > 0 && Common(rows, 0, |rows|, n, k) { CommonToAll(rows, |rows|, n, k); }
    if i > 0 {
      StartMeansNothing(rows, |rows|, n);
      SomeSelected(rows, i);
    }
  }

  /** So it is exact whenever the selected rows have an operation in common. */
  lemma RecalcOffersCommon(rows: seq<Row>, k: nat)
    requires InRange(rows) && Offered(rows, k)
    ensures MaskExact(rows, Recalc(rows))
  {
    var n := Count(rows);
    assert rows[..|rows|] == rows;
    CommonToAll(rows, |rows|, n, k);
    if LastStart(rows, |rows|, n) > 0 {
      StartMeansNothing(rows, |rows|, n);
      assert false;
    }
    RecalcExact(rows);
  }

  lemma CountSnoc(rows: seq<Row>, r: Row, k: nat)
    ensures Count(rows + [r]) == Count(rows) + (if r.selected then 1 else 0)
    ensures Lacking(rows + [r], k) == Lacking(rows, k) + (if Lacks(r, k) then 1 else 0)
  {
    assert (rows + [r])[..|rows|] == rows;
  }

  /** Three rows with nothing in common: the recalculation offers what the last one can. */
  lemma RecalcOffersTooMuch() returns (rows: seq<Row>)
    ensures InRange(rows) && Recalc(rows).mask == {4} && forall k: nat :: !Offered(rows, k)
  {
    var a, b, c := Row({1}, true), Row({2}, true), Row({4}, true);
    rows := [] + [a] + [b] + [c];
    forall k: nat ensures Count(rows) == 3 && Lacking(rows, k) > 0 {
      CountSnoc([], a, k);
      CountSnoc([] + [a], b, k);
      CountSnoc([] + [a] + [b], c, k);
    }
    assert Count(rows) == 3 by { CountSnoc([], a, 0); CountSnoc([] + [a], b, 0); CountSnoc([] + [a] + [b], c, 0); }
    assert rows[0] == a && rows[1] == b && rows[2] == c;
    assert RecalcTo(rows, 1, 3) == Select(RecalcTo(rows, 0, 3), a.ops, 3);
    assert RecalcTo(rows, 1, 3).mask == {1};
    assert RecalcTo(rows, 2, 3) == Select(RecalcTo(rows, 1, 3), b.ops, 3);
    assert RecalcTo(rows, 2, 3).mask == {};
    assert RecalcTo(rows, 3, 3) == Select(RecalcTo(rows, 2, 3), c.ops, 3);
  }

  // ---------------------------------------------------------------- runs

  datatype Selection = Selection(rows: seq<Row>, cache: Cache)

  /** A single row changes, or rows and selection change in bulk and are recalculated (select
      all, none or invert, rows added, removed or updated, the end of an operation on many). */
  datatype Event = OnSelect(i: nat) | OnUnselect(i: nat) | OnRecalc(rows: seq<Row>)

  ghost predicate Possible(s: Selection, e: Event) {
    match e
    case OnSelect(i) => i < |s.rows| && !s.rows[i].selected
    case OnUnselect(i) => i < |s.rows| && s.rows[i].selected
    case OnRecalc(rows) => InRange(rows)
  }

  function After(s: Selection, e: Event): Selection
    requires Possible(s, e) && |s.cache.counts| == OP_NUMBER
  {
    match e
    case OnSelect(i) =>
      var now := Toggle(s.rows, i, true);
      Selection(now, Select(s.cache, s.rows[i].ops, Count(now)))
    case OnUnselect(i) =>
      var now := Toggle(s.rows, i, false);
      Selection(now, Unselected(now, s.cache, s.rows[i].ops))
    case OnRecalc(rows) => Selection(rows, Recalc(rows))
  }

  /** No row is selected on top of an empty mask, unless it makes no difference. */
  ghost predicate Guarded(s: Selection, e: Event)
    requires Possible(s, e)
  {
    match e
    case OnSelect(i) =>
      s.cache.mask != {} || Count(s.rows) == 0 || Stripped(s.rows[i].ops, Count(Toggle(s.rows, i, true))) == {}
    case OnUnselect(_) => true
    case OnRecalc(rows) => StartsRight(rows)
  }

  ghost predicate IsRun(trace: seq<Selection>, events: seq<Event>) {
    && |trace| == |events| + 1 && trace[0] == Selection([], EMPTY)
    && forall i | 0 <= i < |events| ::
      && |trace[i].cache.counts| == OP_NUMBER
      && Possible(trace[i], events[i]) && trace[i + 1] == After(trace[i], events[i])
  }

  lemma EventKeepsCounts(s: Selection, e: Event)
    requires CountsOk(s.rows, s.cache) && InRange(s.rows) && Possible(s, e)
    ensures var r := After(s, e); CountsOk(r.rows, r.cache) && InRange(r.rows)
  {
    match e
    case OnSelect(i) => SelectCounts(s.rows, s.cache, i);
    case OnUnselect(i) => UnselectKeeps(s.rows, s.cache, i);
    case OnRecalc(rows) => RecalcCountsOk(rows);
  }

  lemma EventKeepsMask(s: Selection, e: Event)
    requires CountsOk(s.rows, s.cache) && MaskExact(s.rows, s.cache) && InRange(s.rows) && Possible(s, e)
    ensures MaskExact(After(s, e).rows, After(s, e).cache) <==> Guarded(s, e)
  {
    match e
    case OnSelect(i) => SelectMask(s.rows, s.cache, i);
    case OnUnselect(i) => UnselectKeeps(s.rows, s.cache, i);
    case OnRecalc(rows) => RecalcExact(rows);
  }

  /** In every run each counter other than those of VIEW and PROPERTIES is that of a fresh
      recalculation: the number of selected rows that lack the operation. */
  lemma {:induction false} CountersInEveryRun(trace: seq<Selection>, events: seq<Event>, i: nat)
    requires IsRun(trace, events) && i < |trace|
    ensures InRange(trace[i].rows) && CountsOk(trace[i].rows, trace[i].cache)
    ensures forall k: nat | k < OP_NUMBER && k != 0 && k != 7 ::
      trace[i].cache.counts[k] == Lacking(trace[i].rows, k) == Recalc(trace[i].rows).counts[k]
  {
    if i > 0 {
      CountersInEveryRun(trace, events, i - 1);
      EventKeepsCounts(trace[i - 1], events[i - 1]);
    } else {
      assert CountsOk([], EMPTY) && trace[0] == Selection([], EMPTY);
    }
    RecalcCountsOk(trace[i].rows);
    forall k: nat | k < OP_NUMBER && k != 0 && k != 7
      ensures trace[i].cache.counts[k] == Lacking(trace[i].rows, k) == Recalc(trace[i].rows).counts[k]
    {
      assert CountOk(trace[i].rows, trace[i].cache, k) && CountOk(trace[i].rows, Recalc(trace[i].rows), k);
    }
  }

  lemma {:induction false} MaskUntil(trace: seq<Selection>, events: seq<Event>, i: nat)
    requires IsRun(trace, events) && i < |trace|
    requires forall j | 0 <= j < i :: Guarded(trace[j], events[j])
    ensures MaskExact(trace[i].rows, trace[i].cache)
  {
    if i > 0 {
      MaskUntil(trace, events, i - 1);
      CountersInEveryRun(trace, events, i - 1);
      EventKeepsMask(trace[i - 1], events[i - 1]);
    }
  }

  /** The mask is exact throughout a run if and only if every event of it is guarded. */
  lemma MaskExactIffGuarded(trace: seq<Selection>, events: seq<Event>)
    requires IsRun(trace, events)
    ensures (forall i | 0 <= i < |trace| :: MaskExact(trace[i].rows, trace[i].cache))
       <==> (forall i | 0 <= i < |events| :: Guarded(trace[i], events[i]))
  {
    if forall i | 0 <= i < |events| :: Guarded(trace[i], events[i]) {
      forall i: nat | i < |trace| ensures MaskExact(trace[i].rows, trace[i].cache) { MaskUntil(trace, events, i); }
    }
    if forall i | 0 <= i < |trace| :: MaskExact(trace[i].rows, trace[i].cache) {
      forall i: nat | i < |events| ensures Guarded(trace[i], events[i]) {
        CountersInEveryRun(trace, events, i);
        assert MaskExact(trace[i].rows, trace[i].cache);
        EventKeepsMask(trace[i], events[i]);
        assert trace[i + 1] == After(trace[i], events[i]) && MaskExact(trace[i + 1].rows, trace[i + 1].cache);
      }
    }
  }

  /** Whatever the run, VIEW and PROPERTIES are not in the mask while two or more rows are
      selected, and their counters keep them out until the selection drops to one. */
  lemma {:induction false} SingleOnlyNeverOffered(trace: seq<Selection>, events: seq<Event>, i: nat, k: nat)
    requires IsRun(trace, events) && i < |trace| && (k == 0 || k == 7) && Count(trace[i].rows) > 1
    ensures |trace[i].cache.counts| == OP_NUMBER && k !in trace[i].cache.mask && trace[i].cache.counts[k] >= 1
  {
    CountersInEveryRun(trace, events, i);
    assert CountOk(trace[i].rows, trace[i].cache, k);
    if i == 0 {
    } else {
      var s, e := trace[i - 1], events[i - 1];
      match e
      case OnSelect(j) =>
      case OnUnselect(j) =>
        assert Toggle(s.rows, j, true) == s.rows;
        CountOfToggle(s.rows, j, k);
        SingleOnlyNeverOffered(trace, events, i - 1, k);
      case OnRecalc(rows) => RecalcSingleOnly(rows, |rows|, Count(rows), k);
    }
  }

  lemma {:induction false} RecalcSingleOnly(rows: seq<Row>, j: nat, n: nat, k: nat)
    requires j <= |rows| && n > 1 && k in SINGLE_ONLY
    ensures k !in RecalcTo(rows, j, n).mask
  {
    if j > 0 { RecalcSingleOnly(rows, j - 1, n, k); }
  }
}
