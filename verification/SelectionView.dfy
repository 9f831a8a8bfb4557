/**
 The list view's own DWORD mask and counter array, with the list control reduced to its rows
 and their selection states.  Each handler is proved equal to the step of SelectionCache on
 the set of the mask's bits.
 */
module SelectionView {
  import opened Dword
  import opened Folders
  import opened SelectionCache

  const FAX_JOB_OP_VIEW: bv32 := 0x01
  const FAX_JOB_OP_PAUSE: bv32 := 0x02
  const FAX_JOB_OP_RESUME: bv32 := 0x04
  const FAX_JOB_OP_RESTART: bv32 := 0x08
  const FAX_JOB_OP_DELETE: bv32 := 0x10
  const FAX_JOB_OP_PROPERTIES: bv32 := 0x80
  const FAX_JOB_OP_ALL: bv32 := 0xFF

  /** A message: its own operations, and what its server lets this user manage. */
  datatype FaxMsg = FaxMsg(possible: bv32, canManageInbox: bool, canManageAllJobs: bool)

  /** An item of the list control. */
  datatype Line = Line(msg: FaxMsg, selected: bool)

  // ---------------------------------------------------------------- masks

  const NOT_FOR_MANY: bv32 := FAX_JOB_OP_VIEW | FAX_JOB_OP_PROPERTIES
  const QUEUE_ADMIN: bv32 := FAX_JOB_OP_DELETE | FAX_JOB_OP_PAUSE | FAX_JOB_OP_RESUME | FAX_JOB_OP_RESTART

  lemma OpBits()
    ensures Bits(NOT_FOR_MANY) == SINGLE_ONLY
    ensures Bits(FAX_JOB_OP_DELETE) == {4}
    ensures Bits(QUEUE_ADMIN) == {1, 2, 3, 4}
    ensures Bits(FAX_JOB_OP_ALL) == ALL
    ensures Bits(0xFFFF) == FFFF
  {
    assert OneBit(0) == 0x01 && OneBit(1) == 0x02 && OneBit(2) == 0x04 && OneBit(3) == 0x08;
    assert OneBit(4) == 0x10 && OneBit(7) == 0x80;
    assert NOT_FOR_MANY == Or(0x01, 0x80);
    assert QUEUE_ADMIN == Or(Or(Or(0x10, 0x02), 0x04), 0x08);
    LowOnes();
  }

  // ---------------------------------------------------------------- the loops over the counters

  /** `x` has the bits `ops`, shifted right by `dw`. */
  ghost predicate Shifted(x: bv32, ops: Ops, dw: nat) {
    forall k: nat :: k + dw < OP_NUMBER ==> (Bit(x, k) <==> k + dw in ops)
  }

  lemma ShiftOne(x: bv32, ops: Ops, dw: nat)
    requires Shifted(x, ops, dw) && dw < OP_NUMBER
    ensures Low(x) <==> dw in ops
    ensures Shifted(Half(x), ops, dw + 1)
  {
    assert Bit(x, 0) <==> 0 + dw in ops;
    var y := Half(x);
    forall k: nat | k + (dw + 1) < OP_NUMBER ensures Bit(y, k) <==> k + (dw + 1) in ops {
      assert Bit(x, k + 1) <==> (k + 1) + dw in ops;
    }
  }

  /** The first `dw` counters changed by `delta` where the operation is present, the others did not. */
  ghost predicate Counted(was: seq<int>, now: seq<int>, ops: Ops, dw: nat, delta: int) {
    && |now| == |was| == OP_NUMBER
    && forall k | 0 <= k < OP_NUMBER :: now[k] == was[k] + (if k < dw && k !in ops then delta else 0)
  }

  /** The operations among the first `dw` that no other selected row lacks. */
  ghost function Enabled(was: seq<int>, ops: Ops, dw: nat): Ops
    requires |was| == OP_NUMBER
  {
    set k: nat | k < OP_NUMBER && k < dw && k !in ops && was[k] == 1
  }

  lemma EnabledStep(was: seq<int>, ops: Ops, dw: nat)
    requires |was| == OP_NUMBER && dw < OP_NUMBER
    ensures Enabled(was, ops, dw + 1) == Enabled(was, ops, dw) + (if dw !in ops && was[dw] == 1 then {dw} else {})
  {}

  lemma CountedAll(was: Cache, now: seq<int>, ops: Ops, n: nat, cut: Ops)
    requires |was.counts| == OP_NUMBER && cut == Stripped(ops, n) && Counted(was.counts, now, cut, OP_NUMBER, 1)
    ensures now == Select(was, ops, n).counts
  {}

  lemma UncountedAll(was: Cache, now: seq<int>, ops: Ops)
    requires |was.counts| == OP_NUMBER && Counted(was.counts, now, ops, OP_NUMBER, -1)
    ensures Cache(was.mask + Enabled(was.counts, ops, OP_NUMBER), now) == Unselect(was, ops)
  {
    var r := Unselect(was, ops);
    assert now == r.counts;
    assert Enabled(was.counts, ops, OP_NUMBER) == set k: nat | k < OP_NUMBER && k !in ops && r.counts[k] == 0;
  }

  /** GetNextItem finds a row if and only if one is selected. */
  lemma FirstSelected(rows: seq<Row>)
    ensures NextSelected(rows, 0) < |rows| <==> Count(rows) > 0
  {
    var first := NextSelected(rows, 0);
    if first < |rows| { SomeSelected(rows, first); } else { NoneSelected(rows); }
  }

  // ---------------------------------------------------------------- view

  class CFolderListView {
    const kind: FolderType
    var lines: seq<Line>                 // the list control
    var mask: bv32                       // m_dwPossibleOperationsOnSelectedItems
    const counts: array<int>             // m_nImpossibleOperationsCounts
    var inMultiItemsOperation: bool

    ghost predicate Valid()
      reads this
    {
      counts.Length == OP_NUMBER && Bits(mask) <= ALL
    }

    constructor (kind: FolderType)
      ensures Valid() && fresh(counts) && this.kind == kind
      ensures lines == [] && Cached() == EMPTY && !inMultiItemsOperation
    {
      this.kind := kind;
      lines, mask, inMultiItemsOperation := [], 0, false;
      counts := new int[OP_NUMBER](_ => 0);
      new;
      ZeroBits(0);
    }

    function RowsOf(lines: seq<Line>): seq<Row> {
      seq(|lines|, i requires 0 <= i < |lines| => Row(Bits(ItemOperations(lines[i].msg)), lines[i].selected))
    }

    function Rows(): seq<Row>
      reads this`lines
    {
      RowsOf(lines)
    }

    ghost function Cached(): Cache
      reads this, counts
    {
      Cache(Bits(mask), counts[..])
    }

    ghost function Now(): Selection
      reads this, counts
    {
      Selection(Rows(), Cached())
    }

    /** What the server's security leaves of all operations. */
    function GetServerPossibleOperations(msg: FaxMsg): (ops: bv32)
      ensures Bits(ops) == ALL
        - (if kind == INBOX && !msg.canManageInbox then {4} else {})
        - (if kind == INCOMING && !msg.canManageAllJobs then {1, 2, 3, 4} else {})
    {
      OpBits();
      match kind
      case INBOX => if msg.canManageInbox then FAX_JOB_OP_ALL else ButNot(FAX_JOB_OP_ALL, FAX_JOB_OP_DELETE)
      case INCOMING => if msg.canManageAllJobs then FAX_JOB_OP_ALL else ButNot(FAX_JOB_OP_ALL, QUEUE_ADMIN)
      case OUTBOX => FAX_JOB_OP_ALL
      case SENT_ITEMS => FAX_JOB_OP_ALL
    }

    function ItemOperations(msg: FaxMsg): (ops: bv32)
      ensures Bits(ops) == Bits(GetServerPossibleOperations(msg)) * Bits(msg.possible) <= ALL
    {
      And(GetServerPossibleOperations(msg), msg.possible)
    }

    method OnItemSelected(msg: FaxMsg)
      requires Valid()
      modifies this`mask, counts
      ensures Valid()
      ensures Cached() == Select(old(Cached()), Bits(ItemOperations(msg)), Count(Rows()))
    {
      var itemOperations := RestrictMask(msg, Count(Rows()) > 1);
      CountImpossible(itemOperations);
      CountedAll(old(Cached()), counts[..], Bits(ItemOperations(msg)), Count(Rows()), Bits(itemOperations));
    }

    /** The mask becomes what it and the item have in common; many selected items have no VIEW
        and PROPERTIES. */
    method RestrictMask(msg: FaxMsg, many: bool) returns (itemOperations: bv32)
      modifies this`mask
      ensures Bits(itemOperations) == if many then Bits(ItemOperations(msg)) - SINGLE_ONLY else Bits(ItemOperations(msg))
      ensures Bits(mask) == (if old(Bits(mask)) == {} then FFFF else old(Bits(mask))) * Bits(itemOperations)
    {
      OpBits();
      ZeroBits(mask);
      if mask == 0 {
        mask := 0xFFFF;
      }
      itemOperations := ItemOperations(msg);
      if many {
        itemOperations := ButNot(itemOperations, NOT_FOR_MANY);
      }
      mask := And(mask, itemOperations);
    }

    /** One more selected item lacks the operations not in `ops`. */
    method CountImpossible(ops: bv32)
      requires counts.Length == OP_NUMBER
      modifies counts
      ensures Counted(old(counts[..]), counts[..], Bits(ops), OP_NUMBER, 1)
    {
      var itemOperations := ops;
      ghost var present := Bits(ops);
      var dw := 0;
      while dw < counts.Length
        invariant 0 <= dw <= counts.Length && Shifted(itemOperations, present, dw)
        invariant Counted(old(counts[..]), counts[..], present, dw, 1)
      {
        ShiftOne(itemOperations, present, dw);
        if !Low(itemOperations) {
          counts[dw] := counts[dw] + 1;
        }
        itemOperations := Half(itemOperations);
        dw := dw + 1;
      }
    }

    method OnItemUnSelected(msg: FaxMsg)
      requires Valid()
      modifies this`mask, counts
      ensures Valid()
      ensures Cached() == Unselected(Rows(), old(Cached()), Bits(ItemOperations(msg)))
    {
      var selectedCount := Count(Rows());
      if selectedCount <= 1 {
        Clear();
        FirstSelected(Rows());
        if selectedCount == 1 {
          var index := NextSelected(Rows(), 0);
          OnItemSelected(lines[index].msg);
        }
        return;
      }
      UncountImpossible(ItemOperations(msg));
      UncountedAll(old(Cached()), counts[..], Bits(ItemOperations(msg)));
    }

    /** One selected item less lacks the operations not in `ops`: those that none lacks any more
        are offered again. */
    method UncountImpossible(ops: bv32)
      requires Valid()
      modifies this`mask, counts
      ensures Valid()
      ensures Counted(old(counts[..]), counts[..], Bits(ops), OP_NUMBER, -1)
      ensures Bits(mask) == old(Bits(mask)) + Enabled(old(counts[..]), Bits(ops), OP_NUMBER)
    {
      var itemOperations := ops;
      ghost var present, was, offered := Bits(ops), counts[..], Bits(mask);
      var dw := 0;
      while dw < counts.Length
        invariant 0 <= dw <= counts.Length == OP_NUMBER && Shifted(itemOperations, present, dw)
        invariant Counted(was, counts[..], present, dw, -1)
        invariant Bits(mask) == offered + Enabled(was, present, dw)
      {
        ShiftOne(itemOperations, present, dw);
        UncountNext(dw, Low(itemOperations), was, offered, present);
        itemOperations := Half(itemOperations);
        dw := dw + 1;
      }
    }

    method UncountNext(dw: nat, possible: bool, ghost was: seq<int>, ghost offered: Ops, ghost present: Ops)
      requires dw < counts.Length == OP_NUMBER && (possible <==> dw in present)
      requires Counted(was, counts[..], present, dw, -1) && Bits(mask) == offered + Enabled(was, present, dw)
      modifies this`mask, counts
      ensures Counted(was, counts[..], present, dw + 1, -1) && Bits(mask) == offered + Enabled(was, present, dw + 1)
    {
      EnabledStep(was, present, dw);
      if !possible {
        UncountOne(dw);
      }
    }

    /** The operation is enabled when its counter comes down to 0. */
    method UncountOne(dw: nat)
      requires dw < counts.Length == OP_NUMBER
      modifies this`mask, counts
      ensures forall k | 0 <= k < OP_NUMBER :: counts[k] == old(counts[k]) - (if k == dw then 1 else 0)
      ensures Bits(mask) == old(Bits(mask)) + (if old(counts[dw]) == 1 then {dw} else {})
    {
      counts[dw] := counts[dw] - 1;
      if counts[dw] == 0 {
        mask := Or(mask, OneBit(dw));
      }
    }

    /** The mask and all counters become 0. */
    method Clear()
      requires Valid()
      modifies this`mask, counts
      ensures Valid() && Cached() == EMPTY
    {
      mask := 0;
      ZeroBits(0);
      forall k | 0 <= k < counts.Length {
        counts[k] := 0;
      }
    }

    method SelectRow(index: nat)
      requires Valid() && index < |lines|
      modifies this`mask, counts
      ensures Valid() && Cached() == Select(old(Cached()), Rows()[index].ops, Count(Rows()))
    {
      OnItemSelected(lines[index].msg);
    }

    method RecalcPossibleOperations()
      requires Valid()
      modifies this`mask, counts
      ensures Valid() && Cached() == Recalc(Rows())
    {
      var rows := Rows();
      var selectedCount := Count(rows);
      Clear();
      var index := -1;
      assert rows[..0] == [];
      var n := 0;
      while n < selectedCount
        invariant Valid() && 0 <= n <= selectedCount && -1 <= index < |lines| && Rows() == rows
        invariant n == Count(rows[..index + 1])
        invariant Cached() == RecalcTo(rows, index + 1, selectedCount)
      {
        RecalcStep(rows, index + 1, selectedCount);
        index := NextSelected(rows, index + 1);
        SelectRow(index);
        n := n + 1;
      }
      RecalcEnd(rows, index + 1, selectedCount);
    }

    /** The control sets or clears the selection of item `i` and notifies OnItemChanged. */
    method SetItemState(i: nat, on: bool)
      requires Valid() && i < |lines|
      modifies this`lines, this`mask, counts
      ensures Valid() && Rows() == Toggle(old(Rows()), i, on)
      ensures lines == old(lines)[i := old(lines)[i].(selected := on)]
      ensures old(lines[i].selected) == on || inMultiItemsOperation ==> Cached() == old(Cached())
      ensures old(lines[i].selected) != on && !inMultiItemsOperation ==>
        Now() == After(old(Now()), if on then OnSelect(i) else OnUnselect(i))
    {
      var wasSelected := lines[i].selected;
      lines := lines[i := lines[i].(selected := on)];
      assert Rows() == Toggle(old(Rows()), i, on);
      if inMultiItemsOperation {
        return;
      }
      if on && !wasSelected {
        OnItemSelected(lines[i].msg);
      } else if !on && wasSelected {
        OnItemUnSelected(lines[i].msg);
      }
    }

    /** Every item changes sides; the operations are recalculated once, at the end. */
    method OnSelectInvert()
      requires Valid()
      modifies this, counts
      ensures Valid() && !inMultiItemsOperation
      ensures |lines| == old(|lines|)
      ensures forall i | 0 <= i < |lines| :: lines[i] == old(lines[i]).(selected := !old(lines[i].selected))
      ensures Now() == After(old(Now()), OnRecalc(Rows()))
    {
      inMultiItemsOperation := true;
      var dw := 0;
      while dw < |lines|
        invariant Valid() && inMultiItemsOperation && 0 <= dw <= |lines| == old(|lines|)
        invariant Cached() == old(Cached())
        invariant forall i | 0 <= i < |lines| ::
          lines[i] == if i < dw then old(lines[i]).(selected := !old(lines[i].selected)) else old(lines[i])
      {
        SetItemState(dw, !lines[dw].selected);
        dw := dw + 1;
      }
      inMultiItemsOperation := false;
      RecalcPossibleOperations();
    }
  }

  // ---------------------------------------------------------------- walking the selection

  lemma {:induction false} SkipUnselected(rows: seq<Row>, i: nat, j: nat, n: nat)
    requires i <= j <= |rows| && forall k | i <= k < j :: !rows[k].selected
    ensures Count(rows[..j]) == Count(rows[..i]) && RecalcTo(rows, j, n) == RecalcTo(rows, i, n)
    decreases j
  {
    if i < j {
      assert rows[..j][..j - 1] == rows[..j - 1];
      SkipUnselected(rows, i, j - 1, n);
    }
  }

  /** What a round of RecalcPossibleOperations has to do: the next selected row. */
  lemma RecalcStep(rows: seq<Row>, i: nat, n: nat)
    requires i <= |rows| && Count(rows[..i]) < Count(rows)
    ensures var next := NextSelected(rows, i);
      && next < |rows| && Count(rows[..next + 1]) == Count(rows[..i]) + 1
      && RecalcTo(rows, next + 1, n) == Select(RecalcTo(rows, i, n), rows[next].ops, n)
  {
    var next := NextSelected(rows, i);
    SomeLeft(rows, i);
    SkipUnselected(rows, i, next, n);
    assert rows[..next + 1][..next] == rows[..next];
  }

  lemma RecalcEnd(rows: seq<Row>, i: nat, n: nat)
    requires i <= |rows| && Count(rows[..i]) == Count(rows)
    ensures RecalcTo(rows, i, n) == RecalcTo(rows, |rows|, n)
  {
    NoneLeft(rows, i);
    SkipUnselected(rows, i, |rows|, n);
  }

  lemma SomeLeft(rows: seq<Row>, i: nat)
    requires i <= |rows| && Count(rows[..i]) < Count(rows)
    ensures NextSelected(rows, i) < |rows|
  {
    assert rows[..|rows|] == rows;
    if NextSelected(rows, i) == |rows| { SkipUnselected(rows, i, |rows|, 0); }
  }

  lemma {:induction false} CountGrows(rows: seq<Row>, i: nat, j: nat)
    requires i <= j <= |rows|
    ensures Count(rows[..i]) <= Count(rows[..j])
    decreases j
  {
    if i < j {
      assert rows[..j][..j - 1] == rows[..j - 1];
      CountGrows(rows, i, j - 1);
    }
  }

  /** Once all selected rows have been counted, no later row is selected. */
  lemma NoneLeft(rows: seq<Row>, i: nat)
    requires i <= |rows| && Count(rows[..i]) == Count(rows)
    ensures forall k | i <= k < |rows| :: !rows[k].selected
  {
    assert rows[..|rows|] == rows;
    forall k | i <= k < |rows| ensures !rows[k].selected {
      assert rows[..k + 1][..k] == rows[..k];
      CountGrows(rows, i, k);
      CountGrows(rows, k + 1, |rows|);
    }
  }
}
