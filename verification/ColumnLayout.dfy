/**
 The columns of a list view: their order, width and whether they are shown, the sort column,
 and how they are kept in the registry.
 */
module ColumnLayout {
  import opened Permutations
  import Dialog = ColumnDialog

  // ---------------------------------------------------------------- registry

  /** A DWORD, as the registry holds it and as unsigned comparisons see it. */
  type Uint32 = x: int | 0 <= x < 0x1_0000_0000

  function ToUint32(i: int): Uint32 { i % 0x1_0000_0000 }

  function ToInt(d: Uint32): int { if d < 0x8000_0000 then d else d - 0x1_0000_0000 }

  predicate IsInt(i: int) { -0x8000_0000 <= i < 0x8000_0000 }

  lemma IntRoundTrip(i: int)
    requires IsInt(i)
    ensures ToInt(ToUint32(i)) == i
  {}

  /** What is stored for view `view`: three values a column, and two for sorting. */
  datatype Key =
    | ColShow(view: string, col: nat)
    | ColOrder(view: string, col: nat)
    | ColWidth(view: string, col: nat)
    | SortAscending(view: string)
    | SortColumn(view: string)

  type Registry = map<Key, Uint32>

  /** GetProfileInt */
  function Get(registry: Registry, key: Key, otherwise: Uint32): Uint32 {
    if key in registry then registry[key] else otherwise
  }

  // ---------------------------------------------------------------- layout

  /** TViewColumnInfo */
  datatype ColumnInfo = ColumnInfo(show: bool, width: int, dwOrder: Uint32)

  datatype Layout = Layout(order: seq<int>, info: seq<ColumnInfo>, displayed: nat, sortedCol: int, ascending: bool)

  function Orders(info: seq<ColumnInfo>): (s: seq<int>)
    ensures |s| == |info|
  {
    seq(|info|, i requires 0 <= i < |info| => info[i].dwOrder)
  }

  /** The order array is a permutation, dwOrder is its inverse, and the first `displayed` columns
      are the ones shown. */
  ghost predicate Consistent(l: Layout) {
    && |l.order| == |l.info| && l.displayed <= |l.order| < 0x8000_0000 && IsPermutation(l.order)
    && (forall k | 0 <= k < |l.order| :: 0 <= l.order[k] < |l.order| && l.info[l.order[k]].dwOrder == k)
    && (forall c | 0 <= c < |l.info| :: l.info[c].show <==> l.info[c].dwOrder < l.displayed)
  }

  // ---------------------------------------------------------------- counting

  /** The values of `s` below `k`. */
  function Below(s: seq<int>, k: int): seq<int> {
    if s == [] then [] else Below(s[..|s| - 1], k) + (if s[|s| - 1] < k then [s[|s| - 1]] else [])
  }

  function CountShown(info: seq<ColumnInfo>): nat {
    if info == [] then 0 else CountShown(info[..|info| - 1]) + (if info[|info| - 1].show then 1 else 0)
  }

  lemma {:induction false} BelowElements(s: seq<int>, k: int)
    ensures forall x :: x in Below(s, k) <==> x in s && x < k
    ensures NoDuplicates(s) ==> NoDuplicates(Below(s, k))
  {
    if s != [] {
      var n := |s| - 1;
      BelowElements(s[..n], k);
      assert s == s[..n] + [s[n]];
      if NoDuplicates(s) {
        assert forall i | 0 <= i < n :: s[..n][i] == s[i];
        assert NoDuplicates(s[..n]) && s[n] !in s[..n];
      }
    }
  }

  /** A permutation has exactly `k` values below `k`. */
  lemma PermutationBelow(s: seq<int>, k: nat)
    requires IsPermutation(s) && k <= |s|
    ensures |Below(s, k)| == k
  {
    PermutationIff(s);
    Pigeonhole(s);
    BelowElements(s, k);
    ElementsCount(Below(s, k));
    RangeCount(k);
    forall x ensures x in Elements(Below(s, k)) <==> x in Elements(Range(k)) {}
    assert Elements(Below(s, k)) == Elements(Range(k));
  }

  lemma CountOneMore(info: seq<ColumnInfo>, c: nat)
    requires c < |info|
    ensures CountShown(info[..c + 1]) == CountShown(info[..c]) + (if info[c].show then 1 else 0)
  {
    assert info[..c + 1][..c] == info[..c];
  }

  lemma {:induction false} ShownAreBelow(info: seq<ColumnInfo>, k: int)
    requires forall c | 0 <= c < |info| :: info[c].show <==> info[c].dwOrder < k
    ensures CountShown(info) == |Below(Orders(info), k)|
  {
    if info != [] {
      var n := |info| - 1;
      ShownAreBelow(info[..n], k);
      assert Orders(info)[..n] == Orders(info[..n]);
    }
  }

  /** The inverse of a permutation is one. */
  lemma OrdersArePermutation(l: Layout)
    requires Consistent(l)
    ensures IsPermutation(Orders(l.info))
    ensures forall c | 0 <= c < |l.info| :: 0 <= l.info[c].dwOrder < |l.info| && l.order[l.info[c].dwOrder] == c
  {
    PermutationIff(l.order);
    Pigeonhole(l.order);
    forall c | 0 <= c < |l.info| ensures 0 <= l.info[c].dwOrder < |l.info| && l.order[l.info[c].dwOrder] == c {
      assert c in l.order;
      var k :| 0 <= k < |l.order| && l.order[k] == c;
    }
    PermutationIff(Orders(l.info));
  }

  /** The number of columns marked as shown is the number of displayed columns. */
  lemma RecountIsDisplayed(l: Layout)
    requires Consistent(l)
    ensures CountShown(l.info) == l.displayed
  {
    OrdersArePermutation(l);
    PermutationBelow(Orders(l.info), l.displayed);
    ShownAreBelow(l.info, l.displayed);
  }

  // ---------------------------------------------------------------- saving

  /** The registry after SaveLayout: `widths` are those of the list control. */
  ghost predicate IsSaved(registry: Registry, r: Registry, view: string, l: Layout, widths: seq<nat>)
    requires |widths| == |l.info|
  {
    && (forall c: nat | c < |l.info| ::
      && ColShow(view, c) in r && r[ColShow(view, c)] == (if l.info[c].show then 1 else 0)
      && ColOrder(view, c) in r && r[ColOrder(view, c)] == l.info[c].dwOrder
      && ColWidth(view, c) in r && r[ColWidth(view, c)] == ToUint32(if l.info[c].show then widths[c] else -1))
    && SortAscending(view) in r && r[SortAscending(view)] == (if l.ascending then 1 else 0)
    && SortColumn(view) in r && r[SortColumn(view)] == ToUint32(l.sortedCol)
    && (forall key | key in registry && key.view != view :: key in r && r[key] == registry[key])
  }

  // ---------------------------------------------------------------- reading

  /** The info ReadLayout finds for column `c`. */
  function ReadInfo(registry: Registry, view: string, c: nat, defaultColNum: nat): ColumnInfo {
    ColumnInfo(Get(registry, ColShow(view, c), if c < defaultColNum then 1 else 0) != 0,
               ToInt(Get(registry, ColWidth(view, c), ToUint32(-1))),
               Get(registry, ColOrder(view, c), ToUint32(c)))
  }

  /** The order array after the first `c` columns: a column goes to the place it asks for, if
      there is one. */
  function Placed(info: seq<ColumnInfo>, c: nat): (order: seq<int>)
    requires c <= |info|
    ensures |order| == |info|
  {
    if c == 0 then seq(|info|, _ => -1)
    else
      var order := Placed(info, c - 1);
      var place := info[c - 1].dwOrder;
      if place < |info| then order[place := c - 1] else order
  }

  lemma PlacedNext(info: seq<ColumnInfo>, c: nat)
    requires c < |info|
    ensures Placed(info, c + 1) ==
      if info[c].dwOrder < |info| then Placed(info, c)[info[c].dwOrder := c] else Placed(info, c)
  {}

  /** A sort column that is out of range becomes 0, and so does -1: the comparison is unsigned. */
  function ReadSortedCol(registry: Registry, view: string, n: nat): int {
    var col := ToInt(Get(registry, SortColumn(view), 1));
    if ToUint32(col) >= n then 0 else col
  }

  function ReadInfos(registry: Registry, view: string, n: nat, defaultColNum: nat): (info: seq<ColumnInfo>)
    ensures |info| == n
  {
    seq(n, c requires 0 <= c < n => ReadInfo(registry, view, c, defaultColNum))
  }

  /** What ReadLayout makes of the registry. */
  function Read(registry: Registry, view: string, n: nat, defaultColNum: nat): Layout {
    var info := ReadInfos(registry, view, n, defaultColNum);
    Layout(Placed(info, n), info, CountShown(info), ReadSortedCol(registry, view, n),
           Get(registry, SortAscending(view), 1) != 0)
  }

  lemma {:induction false} PlacedAt(info: seq<ColumnInfo>, c: nat, place: nat)
    requires c <= |info| && place < |info|
    ensures var x := Placed(info, c)[place];
      if x == -1 then forall d | 0 <= d < c :: info[d].dwOrder != place
      else 0 <= x < c && info[x].dwOrder == place
  {
    if c > 0 { PlacedAt(info, c - 1, place); }
  }

  /** The order array has no gap if and only if the places asked for are a permutation; then it
      is the inverse one.  So a gap means that an entry of it is -1. */
  lemma PlacedIff(info: seq<ColumnInfo>)
    ensures var order := Placed(info, |info|);
      && ((forall k | 0 <= k < |order| :: order[k] >= 0) <==> IsPermutation(Orders(info)))
      && (IsPermutation(Orders(info)) ==>
           IsPermutation(order) && forall k | 0 <= k < |order| :: 0 <= order[k] < |info| && info[order[k]].dwOrder == k)
  {
    var order, places := Placed(info, |info|), Orders(info);
    forall k | 0 <= k < |info|
      ensures order[k] >= 0 <==> k in places
      ensures order[k] >= 0 ==> order[k] < |info| && info[order[k]].dwOrder == k
    {
      PlacedAt(info, |info|, k);
      if order[k] >= 0 { assert places[order[k]] == k; }
    }
    if forall k | 0 <= k < |order| :: order[k] >= 0 { CoversIsPermutation(places); }
    if IsPermutation(places) {
      PermutationIff(places);
      Pigeonhole(places);
      PermutationIff(order);
    }
  }

  lemma {:induction false} ShownAtMost(info: seq<ColumnInfo>)
    ensures CountShown(info) <= |info|
  {
    if info != [] { ShownAtMost(info[..|info| - 1]); }
  }

  /** The first loop of OpenSelectColumnsDlg uses the first `displayed` entries of the order array
      as indices. */
  predicate WidthLoopInRange(l: Layout) {
    l.displayed <= |l.order| && forall k | 0 <= k < l.displayed :: 0 <= l.order[k] < |l.info|
  }

  /** It stays in range if and only if each of the first `displayed` places is asked for by some
      column; an entry out of range is -1, and stands for a place that none asks for. */
  lemma WidthLoopIff(registry: Registry, view: string, n: nat, defaultColNum: nat)
    ensures var l := Read(registry, view, n, defaultColNum);
      && (WidthLoopInRange(l) <==> forall k | 0 <= k < l.displayed :: k in Orders(l.info))
      && (forall k | 0 <= k < n :: -1 <= l.order[k] < n && (l.order[k] == -1 <==> k !in Orders(l.info)))
  {
    var l := Read(registry, view, n, defaultColNum);
    ShownAtMost(l.info);
    var places := Orders(l.info);
    forall k | 0 <= k < n ensures -1 <= l.order[k] < n && (l.order[k] == -1 <==> k !in places) {
      PlacedAt(l.info, n, k);
      if l.order[k] >= 0 { assert places[l.order[k]] == k; }
    }
  }

  /** Two columns that ask for the first place leave a gap.  If both are shown the first loop of
      OpenSelectColumnsDlg meets it, and otherwise InputValidate of the dialog does. */
  lemma TwoColumnsOnePlace(registry: Registry, view: string, both: bool)
    requires ColOrder(view, 0) in registry && registry[ColOrder(view, 0)] == 0
    requires ColOrder(view, 1) in registry && registry[ColOrder(view, 1)] == 0
    requires ColShow(view, 0) in registry && registry[ColShow(view, 0)] == 1
    requires ColShow(view, 1) in registry && registry[ColShow(view, 1)] == if both then 1 else 0
    ensures var l := Read(registry, view, 2, 8);
      l.order == [1, -1] && !InRange(l.order) && (WidthLoopInRange(l) <==> !both)
  {
    var info := ReadInfos(registry, view, 2, 8);
    assert info[0].dwOrder == 0 && info[1].dwOrder == 0;
    assert Placed(info, 0) == [-1, -1];
    assert Placed(info, 1) == [0, -1];
    assert Placed(info, 2) == [1, -1];
    assert info[..1][..0] == [] && info[..2] == info && info[..2][..1] == info[..1] && CountShown(info[..0]) == 0;
    assert CountShown(info[..1]) == 1 && CountShown(info) == if both then 2 else 1;
    var order := Placed(info, 2);
    assert order[0] == 1 && order[1] == -1;
  }

  /** Saving a consistent layout and reading it back restores the order, what is shown and how
      wide, and the direction. */
  lemma RoundTrip(registry: Registry, r: Registry, view: string, l: Layout, widths: seq<nat>, defaultColNum: nat)
    requires Consistent(l) && |widths| == |l.info| && (forall c | 0 <= c < |widths| :: IsInt(widths[c]))
    requires IsSaved(registry, r, view, l, widths)
    ensures var m := Read(r, view, |l.info|, defaultColNum);
      && Consistent(m) && m.order == l.order && m.displayed == l.displayed && m.ascending == l.ascending
      && (forall c | 0 <= c < |l.info| ::
           m.info[c] == l.info[c].(width := if l.info[c].show then widths[c] else -1))
  {
    var m := Read(r, view, |l.info|, defaultColNum);
    InfosRoundTrip(registry, r, view, l, widths, defaultColNum);
    SameInfos(l, m);
  }

  /** A layout read from infos that agree with those of a consistent one, but for the widths. */
  lemma SameInfos(l: Layout, m: Layout)
    requires Consistent(l) && |m.info| == |l.info| && m.order == Placed(m.info, |m.info|) && m.displayed == CountShown(m.info)
    requires forall c | 0 <= c < |l.info| :: m.info[c].show == l.info[c].show && m.info[c].dwOrder == l.info[c].dwOrder
    ensures Consistent(m) && m.order == l.order && m.displayed == l.displayed
  {
    assert Orders(m.info) == Orders(l.info);
    OrdersArePermutation(l);
    PlacedIff(m.info);
    SameInverse(m.order, l.order, m.info);
    SameCount(m.info, l.info);
    RecountIsDisplayed(l);
  }

  lemma InfosRoundTrip(registry: Registry, r: Registry, view: string, l: Layout, widths: seq<nat>, defaultColNum: nat)
    requires |widths| == |l.info| && (forall c | 0 <= c < |widths| :: IsInt(widths[c]))
    requires IsSaved(registry, r, view, l, widths)
    ensures var info := ReadInfos(r, view, |l.info|, defaultColNum);
      forall c | 0 <= c < |l.info| :: info[c] == l.info[c].(width := if l.info[c].show then widths[c] else -1)
  {
    var info := ReadInfos(r, view, |l.info|, defaultColNum);
    forall c | 0 <= c < |l.info| ensures info[c] == l.info[c].(width := if l.info[c].show then widths[c] else -1) {
      IntRoundTrip(if l.info[c].show then widths[c] else -1);
      assert ColShow(view, c) in r && ColOrder(view, c) in r && ColWidth(view, c) in r;
    }
  }

  /** ... and the sort column if and only if there is one: none comes back as the first. */
  lemma SortedColRoundTrip(registry: Registry, r: Registry, view: string, l: Layout, widths: seq<nat>)
    requires 0 < |l.info| < 0x8000_0000 && |widths| == |l.info| && IsInt(l.sortedCol)
    requires IsSaved(registry, r, view, l, widths)
    ensures var col := ReadSortedCol(r, view, |l.info|);
      (col == l.sortedCol <==> 0 <= l.sortedCol < |l.info|) && (l.sortedCol == -1 ==> col == 0)
  {
    IntRoundTrip(l.sortedCol);
  }

  /** The width a column gets: that of its title if none is known, 0 if it is hidden. */
  function WidthOf(column: ColumnInfo, title: nat): nat {
    if !column.show then 0 else if column.width < 0 then title else column.width
  }

  /** Nothing stored for the view: the columns in their natural order, the first ones shown. */
  lemma FirstRun(registry: Registry, view: string, n: nat, defaultColNum: nat)
    requires n < 0x8000_0000 && forall key | key in registry :: key.view != view
    ensures var l := Read(registry, view, n, defaultColNum);
      && Consistent(l) && l.displayed == (if n < defaultColNum then n else defaultColNum)
      && (forall k | 0 <= k < n :: l.order[k] == k)
  {
    var info := ReadInfos(registry, view, n, defaultColNum);
    var shown := if n < defaultColNum then n else defaultColNum;
    DefaultInfos(registry, view, n, defaultColNum);
    PlacedIff(info);
    ShownAreBelow(info, shown);
    PermutationBelow(Orders(info), shown);
  }

  /** ... those as wide as their titles want, and the rows sorted by the second column, ascending. */
  lemma FirstRunLooks(registry: Registry, view: string, n: nat, defaultColNum: nat, titleWidth: nat -> nat)
    requires n < 0x8000_0000 && forall key | key in registry :: key.view != view
    ensures var l := Read(registry, view, n, defaultColNum);
      && l.sortedCol == (if n > 1 then 1 else 0) && l.ascending
      && (forall c: nat | c < n :: WidthOf(l.info[c], titleWidth(c)) == if c < defaultColNum then titleWidth(c) else 0)
  {
    DefaultInfos(registry, view, n, defaultColNum);
    assert SortColumn(view).view == view && SortAscending(view).view == view;
  }

  lemma DefaultInfos(registry: Registry, view: string, n: nat, defaultColNum: nat)
    requires n < 0x8000_0000 && forall key | key in registry :: key.view != view
    ensures var info := ReadInfos(registry, view, n, defaultColNum);
      && Orders(info) == Range(n)
      && forall c: nat | c < n :: info[c].dwOrder == c && (info[c].show <==> c < defaultColNum) && info[c].width == -1
  {
    var info := ReadInfos(registry, view, n, defaultColNum);
    assert Orders(info) == Range(n);
  }

  lemma SameInverse(a: seq<int>, b: seq<int>, info: seq<ColumnInfo>)
    requires |a| == |b| == |info| && IsPermutation(Orders(info))
    requires forall k | 0 <= k < |a| :: 0 <= a[k] < |info| && info[a[k]].dwOrder == k
    requires forall k | 0 <= k < |b| :: 0 <= b[k] < |info| && info[b[k]].dwOrder == k
    ensures a == b
  {
    var places := Orders(info);
    PermutationIff(places);
    forall k | 0 <= k < |a| ensures a[k] == b[k] {
      assert places[a[k]] == k == places[b[k]];
    }
  }

  lemma {:induction false} SameCount(a: seq<ColumnInfo>, b: seq<ColumnInfo>)
    requires |a| == |b| && forall c | 0 <= c < |a| :: a[c].show == b[c].show
    ensures CountShown(a) == CountShown(b)
  {
    if a != [] { SameCount(a[..|a| - 1], b[..|b| - 1]); }
  }

  /** A displayed column takes over its width in the control. */
  function Kept(column: ColumnInfo, shown: bool, width: nat): ColumnInfo {
    if shown then column.(width := width) else column
  }

  lemma KeptConsistent(l: Layout, m: Layout)
    requires Consistent(l) && m.order == l.order && m.displayed == l.displayed && |m.info| == |l.info|
    requires forall c | 0 <= c < |l.info| :: m.info[c].show == l.info[c].show && m.info[c].dwOrder == l.info[c].dwOrder
    ensures Consistent(m)
  {}

  // ---------------------------------------------------------------- list view

  class CFolderListView {
    const columns: nat                      // GetLogicalColumnsCount
    const defaultColNum: nat
    const titleWidth: nat -> nat            // one and a half times the width of a column's title
    var order: array<int>                   // m_pnColumnsOrder
    var info: array<ColumnInfo>             // m_pViewColumnInfo
    var displayed: nat                      // m_dwDisplayedColumns
    var sortedCol: int
    var ascending: bool
    var columnsInitialized: bool
    var columnWidth: seq<nat>               // of the list control

    ghost function Now(): Layout
      reads this, order, info
    {
      Layout(order[..], info[..], displayed, sortedCol, ascending)
    }

    ghost predicate Valid()
      reads this, order, info
    {
      Consistent(Now()) && order.Length == info.Length == columns == |columnWidth| && sortedCol < columns
    }

    /** The order array is a permutation, whatever the columns' infos say. */
    ghost predicate Usable()
      reads this, order, info
    {
      && IsPermutation(order[..]) && order.Length == info.Length == columns == |columnWidth|
      && displayed <= columns < 0x8000_0000 && sortedCol < columns
    }

    constructor (columns: nat, defaultColNum: nat, titleWidth: nat -> nat)
      ensures this.columns == columns && this.defaultColNum == defaultColNum && this.titleWidth == titleWidth
      ensures !columnsInitialized && sortedCol == -1 && |columnWidth| == columns
    {
      this.columns, this.defaultColNum, this.titleWidth := columns, defaultColNum, titleWidth;
      order, info, displayed, sortedCol := new int[0], new ColumnInfo[0], 0, -1;
      ascending, columnsInitialized, columnWidth := true, false, seq(columns, _ => 0);
    }

    method ReadLayout(registry: Registry, view: string)
      modifies this`order, this`info, this`displayed, this`sortedCol, this`ascending
      ensures Now() == Read(registry, view, columns, defaultColNum)
      ensures fresh(order) && fresh(info) && order.Length == info.Length == columns
    {
      order := new int[columns](_ => -1);
      info := new ColumnInfo[columns](_ => ColumnInfo(false, 0, 0));
      ReadColumns(registry, view);
      ascending := Get(registry, SortAscending(view), 1) != 0;
      sortedCol := ToInt(Get(registry, SortColumn(view), 1));
      if ToUint32(sortedCol) >= columns {
        sortedCol := 0;
      }
    }

    /** What a round of that loop does with the column it has read. */
    method TakeColumn(dw: nat, column: ColumnInfo)
      requires order.Length == info.Length == columns && dw < columns
      modifies this`displayed, order, info
      ensures displayed == old(displayed) + (if column.show then 1 else 0)
      ensures order[..] == if column.dwOrder < columns then old(order[..])[column.dwOrder := dw] else old(order[..])
      ensures info[..] == old(info[..])[dw := column]
    {
      info[dw] := column;
      if column.show {
        displayed := displayed + 1;
      }
      if column.dwOrder < columns {
        order[column.dwOrder] := dw;
      }
    }

    /** The loop of ReadLayout. */
    method ReadColumns(registry: Registry, view: string)
      requires order.Length == info.Length == columns && forall k | 0 <= k < columns :: order[k] == -1
      modifies this`displayed, order, info
      ensures info[..] == ReadInfos(registry, view, columns, defaultColNum)
      ensures order[..] == Placed(info[..], columns) && displayed == CountShown(info[..])
    {
      displayed := 0;
      ghost var infos := ReadInfos(registry, view, columns, defaultColNum);
      var dw := 0;
      while dw < columns
        invariant 0 <= dw <= columns && forall c | 0 <= c < dw :: info[c] == infos[c]
        invariant displayed == CountShown(infos[..dw])
        invariant order[..] == Placed(infos, dw)
      {
        CountOneMore(infos, dw);
        PlacedNext(infos, dw);
        assert infos[dw] == ReadInfo(registry, view, dw, defaultColNum);
        TakeColumn(dw, ReadInfo(registry, view, dw, defaultColNum));
        dw := dw + 1;
      }
      assert infos[..columns] == infos && info[..] == info[..columns];
    }

    method SaveLayout(registry: Registry, view: string) returns (r: Registry)
      requires info.Length == columns == |columnWidth|
      ensures !columnsInitialized ==> r == registry
      ensures columnsInitialized ==> IsSaved(registry, r, view, Now(), columnWidth)
    {
      r := registry;
      if !columnsInitialized {
        return;
      }
      var dw := 0;
      while dw < columns
        invariant 0 <= dw <= columns
        invariant forall c: nat | c < dw ::
          && ColShow(view, c) in r && r[ColShow(view, c)] == (if info[c].show then 1 else 0)
          && ColOrder(view, c) in r && r[ColOrder(view, c)] == info[c].dwOrder
          && ColWidth(view, c) in r && r[ColWidth(view, c)] == ToUint32(if info[c].show then columnWidth[c] else -1)
        invariant forall key | key in registry && key.view != view :: key in r && r[key] == registry[key]
      {
        r := r[ColShow(view, dw) := if info[dw].show then 1 else 0];
        r := r[ColOrder(view, dw) := info[dw].dwOrder];
        var width := if info[dw].show then columnWidth[dw] else -1;
        r := r[ColWidth(view, dw) := ToUint32(width)];
        dw := dw + 1;
      }
      r := r[SortAscending(view) := if ascending then 1 else 0];
      r := r[SortColumn(view) := ToUint32(sortedCol)];
    }

    /** The control's columns get their width. */
    method ColumnsToLayout()
      requires info.Length == columns == |columnWidth|
      modifies this`columnWidth
      ensures |columnWidth| == columns
      ensures forall c: nat | c < columns :: columnWidth[c] == WidthOf(info[c], titleWidth(c))
    {
      var dwCol := 0;
      while dwCol < columns
        invariant 0 <= dwCol <= columns == |columnWidth|
        invariant forall c: nat | c < dwCol :: columnWidth[c] == WidthOf(info[c], titleWidth(c))
      {
        if info[dwCol].show {
          if info[dwCol].width < 0 {
            columnWidth := columnWidth[dwCol := titleWidth(dwCol)];
          } else {
            columnWidth := columnWidth[dwCol := info[dwCol].width];
          }
        } else {
          columnWidth := columnWidth[dwCol := 0];
        }
        dwCol := dwCol + 1;
      }
    }

    /** Keeps the widths, runs the dialog, and takes over what it leaves in the order array.  A column
        that was displayed keeps the width it had in the control, one that was not gets the one stored
        for it, or that of its title; hidden columns have none. */
    method OpenSelectColumnsDlg(actions: seq<Dialog.Action>) returns (exit: Dialog.Exit, ghost run: seq<Dialog.Lists>)
      requires Usable()
      modifies this`displayed, this`sortedCol, this`columnWidth, order, info
      ensures Usable() && exit != Dialog.IDABORT
      ensures old(Valid()) || exit == Dialog.IDOK ==> Valid()
      ensures Dialog.IsSession(old(order[..]), old(displayed), actions, run)
      ensures Dialog.Ended(old(order[..]), old(displayed), actions, run, exit, order[..], displayed)
      ensures forall c: nat | c < columns ::
        info[c].width == if c in old(order[..displayed]) then old(columnWidth[c]) else old(info[c].width)
      ensures exit != Dialog.IDOK ==> columnWidth == old(columnWidth) && sortedCol == old(sortedCol)
      ensures exit != Dialog.IDOK ==>
        forall c: nat | c < columns :: info[c].show == old(info[c].show) && info[c].dwOrder == old(info[c].dwOrder)
      ensures exit == Dialog.IDOK ==>
        sortedCol == if old(sortedCol) >= 0 && !info[old(sortedCol)].show then -1 else old(sortedCol)
      ensures exit == Dialog.IDOK ==> forall c: nat | c < columns ::
        columnWidth[c] == if !info[c].show then 0 else if info[c].width < 0 then titleWidth(c) else info[c].width
    {
      exit, run := KeepAndSelect(actions);
      if exit == Dialog.IDOK {
        Rearrange();
      }
    }

    /** What it does up to the end of the dialog. */
    method KeepAndSelect(actions: seq<Dialog.Action>) returns (exit: Dialog.Exit, ghost run: seq<Dialog.Lists>)
      requires Usable()
      modifies this`displayed, order, info
      ensures Usable() && exit != Dialog.IDABORT && (old(Valid()) && exit != Dialog.IDOK ==> Valid())
      ensures Dialog.IsSession(old(order[..]), old(displayed), actions, run)
      ensures Dialog.Ended(old(order[..]), old(displayed), actions, run, exit, order[..], displayed)
      ensures forall c: nat | c < columns :: info[c] == Kept(old(info[c]), c in old(order[..displayed]), columnWidth[c])
    {
      PermutationIff(order[..]);
      KeepWidths();
      ghost var kept := Now();
      if Consistent(old(Now())) { KeptConsistent(old(Now()), kept); }
      exit, run := SelectColumns(actions);
      assert exit != Dialog.IDOK ==> Now() == kept;
    }

    /** What OpenSelectColumnsDlg does after OK. */
    method Rearrange()
      requires Usable()
      modifies this`sortedCol, this`columnWidth, info
      ensures Valid() && forall c: nat | c < columns :: info[c].width == old(info[c].width)
      ensures sortedCol == if old(sortedCol) >= 0 && !info[old(sortedCol)].show then -1 else old(sortedCol)
      ensures forall c: nat | c < columns :: columnWidth[c] == WidthOf(info[c], titleWidth(c))
    {
      TakeOrder();
      if sortedCol >= 0 && !info[sortedCol].show {
        sortedCol := -1;
      }
      ColumnsToLayout();
    }

    /** The first loop of OpenSelectColumnsDlg: the displayed columns take over their widths. */
    method KeepWidths()
      requires info.Length == columns == |columnWidth| && WidthLoopInRange(Now())
      modifies info
      ensures forall c: nat | c < columns :: info[c] == Kept(old(info[c]), c in order[..displayed], columnWidth[c])
    {
      var dw := 0;
      while dw < displayed
        invariant 0 <= dw <= displayed
        invariant forall c: nat | c < columns :: info[c] == Kept(old(info[c]), c in order[..dw], columnWidth[c])
      {
        var index := order[dw];
        assert order[..dw + 1] == order[..dw] + [index];
        info[index] := info[index].(width := columnWidth[index]);
        dw := dw + 1;
      }
    }

    /** The dialog, with the order array and the number of displayed columns. */
    method SelectColumns(actions: seq<Dialog.Action>) returns (exit: Dialog.Exit, ghost run: seq<Dialog.Lists>)
      requires order.Length == columns && displayed <= columns && IsPermutation(order[..])
      modifies this`displayed, order
      ensures displayed <= columns && IsPermutation(order[..]) && exit != Dialog.IDABORT
      ensures Dialog.IsSession(old(order[..]), old(displayed), actions, run)
      ensures Dialog.Ended(old(order[..]), old(displayed), actions, run, exit, order[..], displayed)
    {
      PermutationIff(order[..]);
      var dlg := new Dialog.CColumnSelectDlg(order, columns, displayed);
      exit, run := dlg.DoModal(actions);
      displayed := dlg.selectedItems;
    }

    /** The second loop: the columns' places in the order, and whether they are shown. */
    method TakeOrder()
      requires Usable()
      modifies info
      ensures Valid()
      ensures forall c: nat | c < columns :: info[c].width == old(info[c].width)
    {
      PermutationIff(order[..]);
      Pigeonhole(order[..]);
      var dw := 0;
      while dw < columns
        invariant 0 <= dw <= columns
        invariant forall k | 0 <= k < dw :: info[order[k]] == old(info[order[k]]).(dwOrder := k, show := k < displayed)
        invariant forall c: nat | c < columns :: info[c].width == old(info[c].width)
      {
        var index := order[dw];
        info[index] := info[index].(dwOrder := dw, show := dw < displayed);
        dw := dw + 1;
      }
      forall c: nat | c < columns ensures info[c].show <==> info[c].dwOrder < displayed {
        assert c in order[..];
        var k :| 0 <= k < columns && order[k] == c;
      }
    }
  }
}
