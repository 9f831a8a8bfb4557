/**
 The list view sorted by a column: rows are added, updated and removed one at a time and the
 sort column changes.  What a row shows is a copy of its message, which may be out of date.
 */
module SortedRows {
  import opened Collections
  import opened SortedList

  type Ptr = nat

  /** How messages compare and read in each logical column. */
  datatype Columns<!T> = Columns(compare: (nat, T, T) -> int, text: (nat, T) -> string, isIcon: nat -> bool)

  /** An item of the list control: its lParam, the message as last written to it, its state. */
  datatype Line<T> = Line(msg: Ptr, shown: T, selected: bool)

  datatype View<T> = View(lines: seq<Line<T>>, messages: map<Ptr, T>, sortedCol: int, ascending: bool)

  function ByColumn<T>(cols: Columns<T>, col: nat): (T, T) -> int { (a, b) => cols.compare(col, a, b) }

  ghost predicate Comparable<T(!new)>(cols: Columns<T>) {
    forall col: nat :: Order(ByColumn(cols, col))
  }

  /** The order of column `col`, in the view's direction. */
  function Cmp<T>(cols: Columns<T>, col: nat, ascending: bool): (T, T) -> int {
    Directed(ByColumn(cols, col), ascending)
  }

  /** What a cell reads; nothing is written to the icon column. */
  function Text<T>(cols: Columns<T>, col: nat, x: T): string {
    if cols.isIcon(col) then "" else cols.text(col, x)
  }

  /** CListCtrl::FindItem by lParam: its index, or the number of rows. */
  function FindItem<T>(lines: seq<Line<T>>, msg: Ptr): (i: nat)
    ensures i <= |lines| && (i < |lines| ==> lines[i].msg == msg)
    ensures forall k | 0 <= k < i :: lines[k].msg != msg
  {
    if lines == [] || lines[0].msg == msg then 0
    else
      var i := FindItem(lines[1..], msg);
      assert forall k | 0 < k <= i :: lines[k].msg == lines[1..][k - 1].msg || k == i + 1;
      i + 1
  }

  /** The messages behind the rows, top to bottom. */
  function Keys<T>(v: View<T>): (s: seq<T>)
    requires Live(v)
    ensures |s| == |v.lines|
  {
    seq(|v.lines|, i requires 0 <= i < |v.lines| => v.messages[v.lines[i].msg])
  }

  /** Every row points to a message. */
  predicate Live<T>(v: View<T>) {
    forall i | 0 <= i < |v.lines| :: v.lines[i].msg in v.messages
  }

  /** No message has two rows. */
  predicate Distinct<T>(lines: seq<Line<T>>) {
    forall i, j | 0 <= i < j < |lines| :: lines[i].msg != lines[j].msg
  }

  /** The messages that have a row. */
  ghost function Msgs<T>(lines: seq<Line<T>>): set<Ptr> { set k | 0 <= k < |lines| :: lines[k].msg }

  /** Every row shows its message as it is. */
  ghost predicate UpToDate<T>(v: View<T>)
    requires Live(v)
  {
    forall i | 0 <= i < |v.lines| :: v.lines[i].shown == v.messages[v.lines[i].msg]
  }

  ghost predicate Ok<T>(v: View<T>) {
    Live(v) && Distinct(v.lines) && UpToDate(v) && v.sortedCol >= -1
  }

  ghost predicate InOrder<T>(cols: Columns<T>, v: View<T>)
    requires Live(v)
  {
    v.sortedCol >= 0 ==> Sorted(Keys(v), Cmp(cols, v.sortedCol, v.ascending))
  }

  // ---------------------------------------------------------------- adding, removing, updating

  /** FindInsertionIndex: at the end while the list is empty or has no sort column. */
  function IndexFor<T>(cols: Columns<T>, v: View<T>, msg: Ptr): (i: nat)
    requires Live(v) && msg in v.messages && v.sortedCol >= -1
    ensures i <= |v.lines|
  {
    if v.lines == [] || v.sortedCol == -1 then |v.lines|
    else FindInsertionIndex(Keys(v), v.messages[msg], Cmp(cols, v.sortedCol, v.ascending)).index
  }

  function Added<T>(cols: Columns<T>, v: View<T>, msg: Ptr): View<T>
    requires Live(v) && msg in v.messages && v.sortedCol >= -1
  {
    v.(lines := Insert(v.lines, IndexFor(cols, v, msg), Line(msg, v.messages[msg], false)))
  }

  function Removed<T>(v: View<T>, msg: Ptr): View<T> {
    var i := FindItem(v.lines, msg);
    if i < |v.lines| then v.(lines := Remove(v.lines, i)) else v
  }

  /** The cell of the sort column reads differently from what the message now has for it. */
  predicate TextChanges<T>(cols: Columns<T>, v: View<T>, i: nat)
    requires i < |v.lines| && v.lines[i].msg in v.messages && v.sortedCol >= 0
  {
    Text(cols, v.sortedCol, v.messages[v.lines[i].msg]) != Text(cols, v.sortedCol, v.lines[i].shown)
  }

  /** UpdateSortedItem of the row at `i`, moved or updated in place; a selection is put back at
      the old index. */
  function UpdatedAt<T>(cols: Columns<T>, v: View<T>, i: nat): View<T>
    requires Live(v) && v.sortedCol >= -1 && i < |v.lines|
  {
    var line := v.lines[i];
    if v.sortedCol >= 0 && TextChanges(cols, v, i) then
      var w := Added(cols, v.(lines := Remove(v.lines, i)), line.msg);
      if line.selected then w.(lines := w.lines[i := w.lines[i].(selected := true)]) else w
    else
      v.(lines := v.lines[i := line.(shown := v.messages[line.msg])])
  }

  function Updated<T>(cols: Columns<T>, v: View<T>, msg: Ptr): View<T>
    requires Live(v) && v.sortedCol >= -1
  {
    var i := FindItem(v.lines, msg);
    if i < |v.lines| then UpdatedAt(cols, v, i) else v
  }

  lemma KeysOfInsert<T>(v: View<T>, i: nat, line: Line<T>)
    requires Live(v) && i <= |v.lines| && line.msg in v.messages
    ensures var w := v.(lines := Insert(v.lines, i, line)); Live(w) && Keys(w) == Insert(Keys(v), i, v.messages[line.msg])
  {}

  lemma KeysOfRemove<T>(v: View<T>, i: nat)
    requires Live(v) && i < |v.lines|
    ensures var w := v.(lines := Remove(v.lines, i)); Live(w) && Keys(w) == Remove(Keys(v), i)
  {}

  lemma CmpIsOrder<T(!new)>(cols: Columns<T>, col: nat, ascending: bool)
    requires Comparable(cols)
    ensures Order(Cmp(cols, col, ascending))
  {
    CallbackIsDirected(ByColumn(cols, col), ascending);
  }

  lemma InsertRow<T>(lines: seq<Line<T>>, i: nat, line: Line<T>)
    requires Distinct(lines) && i <= |lines| && line.msg !in Msgs(lines)
    ensures var w := Insert(lines, i, line); Distinct(w) && Msgs(w) == Msgs(lines) + {line.msg}
  {
    var w := Insert(lines, i, line);
    assert w[i] == line;
    forall k | 0 <= k < |lines| ensures lines[k].msg in Msgs(w) {
      assert w[if k < i then k else k + 1] == lines[k];
    }
    forall k | 0 <= k < |w| && k != i ensures w[k].msg in Msgs(lines) {
      assert w[k] == lines[if k < i then k else k - 1];
    }
    forall a, b | 0 <= a < b < |w| ensures w[a].msg != w[b].msg {
      assert (a < i ==> w[a] == lines[a]) && (a > i ==> w[a] == lines[a - 1]);
      assert (b < i ==> w[b] == lines[b]) && (b > i ==> w[b] == lines[b - 1]);
    }
  }

  lemma FindRow<T>(lines: seq<Line<T>>, i: nat)
    requires Distinct(lines) && i < |lines|
    ensures FindItem(lines, lines[i].msg) == i
  {}

  lemma RemoveRow<T>(lines: seq<Line<T>>, i: nat)
    requires Distinct(lines) && i < |lines|
    ensures var w := Remove(lines, i); Distinct(w) && Msgs(w) == Msgs(lines) - {lines[i].msg}
  {
    var w := Remove(lines, i);
    RemovedAt(lines, i);
    forall k | 0 <= k < |w| ensures w[k].msg != lines[i].msg && w[k].msg in Msgs(lines) {
      assert w[k] == lines[if k < i then k else k + 1];
    }
    forall k | 0 <= k < |lines| && k != i ensures lines[k].msg in Msgs(w) {
      assert w[if k < i then k else k - 1] == lines[k];
    }
    forall a, b | 0 <= a < b < |w| ensures w[a].msg != w[b].msg {
      assert w[a] == lines[if a < i then a else a + 1] && w[b] == lines[if b < i then b else b + 1];
    }
  }

  lemma NotFound<T>(lines: seq<Line<T>>, msg: Ptr)
    ensures FindItem(lines, msg) == |lines| <==> msg !in Msgs(lines)
  {}

  lemma AddedOk<T>(cols: Columns<T>, v: View<T>, msg: Ptr)
    requires Ok(v) && msg in v.messages && msg !in Msgs(v.lines)
    ensures var w := Added(cols, v, msg); Ok(w) && Msgs(w.lines) == Msgs(v.lines) + {msg}
  {
    var i := IndexFor(cols, v, msg);
    var w := Added(cols, v, msg);
    var line := Line(msg, v.messages[msg], false);
    InsertRow(v.lines, i, line);
    var lines := Insert(v.lines, i, line);
    forall k | 0 <= k < |lines| ensures lines[k].msg in v.messages && lines[k].shown == v.messages[lines[k].msg] {
      if k != i { assert lines[k] == v.lines[if k < i then k else k - 1]; }
    }
    assert w.lines == lines && Live(w);
  }

  lemma AddedInOrder<T(!new)>(cols: Columns<T>, v: View<T>, msg: Ptr)
    requires Comparable(cols) && Ok(v) && InOrder(cols, v) && msg in v.messages
    ensures Live(Added(cols, v, msg)) && InOrder(cols, Added(cols, v, msg))
  {
    var i := IndexFor(cols, v, msg);
    KeysOfInsert(v, i, Line(msg, v.messages[msg], false));
    if v.sortedCol >= 0 {
      CmpIsOrder(cols, v.sortedCol, v.ascending);
      SortedAfterInsertion(Keys(v), v.messages[msg], Cmp(cols, v.sortedCol, v.ascending));
    }
  }

  /** AddSortedItem keeps a list in order, and the others in their places around the new row. */
  lemma AddKeepsOrder<T(!new)>(cols: Columns<T>, v: View<T>, msg: Ptr)
    requires Comparable(cols) && Ok(v) && msg in v.messages && msg !in Msgs(v.lines)
    ensures var w := Added(cols, v, msg);
      && Ok(w) && Msgs(w.lines) == Msgs(v.lines) + {msg} && Removed(w, msg) == v
      && (InOrder(cols, v) ==> InOrder(cols, w))
  {
    var i := IndexFor(cols, v, msg);
    var line := Line(msg, v.messages[msg], false);
    AddedOk(cols, v, msg);
    FindRow(Insert(v.lines, i, line), i);
    InsertRemove(v.lines, i, line);
    if InOrder(cols, v) { AddedInOrder(cols, v, msg); }
  }

  lemma RemoveKeepsOrder<T(!new)>(cols: Columns<T>, v: View<T>, msg: Ptr)
    requires Ok(v)
    ensures var w := Removed(v, msg);
      Ok(w) && Msgs(w.lines) == Msgs(v.lines) - {msg} && (InOrder(cols, v) ==> InOrder(cols, w))
  {
    var i := FindItem(v.lines, msg);
    NotFound(v.lines, msg);
    if i < |v.lines| {
      KeysOfRemove(v, i);
      RemoveRow(v.lines, i);
      if InOrder(cols, v) && v.sortedCol >= 0 {
        SortedAfterRemoval(Keys(v), i, Cmp(cols, v.sortedCol, v.ascending));
      }
    }
  }

  // ---------------------------------------------------------------- an update

  /** The row at `i` is in order with its neighbours. */
  predicate Fits<T>(s: seq<T>, i: nat, cmp: (T, T) -> int)
    requires i < |s|
  {
    (i > 0 ==> cmp(s[i - 1], s[i]) <= 0) && (i + 1 < |s| ==> cmp(s[i], s[i + 1]) <= 0)
  }

  lemma SortedIffFits<T(!new)>(s: seq<T>, i: nat, cmp: (T, T) -> int)
    requires Order(cmp) && i < |s| && Sorted(Remove(s, i), cmp)
    ensures Sorted(s, cmp) <==> Fits(s, i, cmp)
  {
    InsertRemove(s, i, s[i]);
    assert Insert(Remove(s, i), i, s[i]) == s;
    FitsBetween(Remove(s, i), i, s[i], cmp);
  }

  /** Message `msg` of view `v` changes to `x`, before the view is told. */
  function Changed<T>(v: View<T>, msg: Ptr, x: T): View<T> { v.(messages := v.messages[msg := x]) }

  /** The rest of the list does not notice. */
  lemma RestOk<T>(v: View<T>, x: T, i: nat)
    requires Ok(v) && i < |v.lines|
    ensures var msg := v.lines[i].msg; var w := Changed(v, msg, x); var rest := w.(lines := Remove(w.lines, i));
      && Live(w) && Ok(rest) && msg !in Msgs(rest.lines) && Msgs(rest.lines) + {msg} == Msgs(v.lines)
      && Keys(rest) == Remove(Keys(v), i)
  {
    var w := Changed(v, v.lines[i].msg, x);
    var rest := w.(lines := Remove(w.lines, i));
    RemoveRow(v.lines, i);
    assert forall k | 0 <= k < |rest.lines| :: rest.lines[k] == v.lines[if k < i then k else k + 1];
    KeysOfRemove(v, i);
    assert Keys(rest) == Keys(v.(lines := Remove(v.lines, i)));
  }

  lemma RestInOrder<T(!new)>(cols: Columns<T>, v: View<T>, x: T, i: nat)
    requires Ok(v) && InOrder(cols, v) && i < |v.lines|
    ensures var w := Changed(v, v.lines[i].msg, x); var rest := w.(lines := Remove(w.lines, i));
      Live(rest) && InOrder(cols, rest)
  {
    RestOk(v, x, i);
    if v.sortedCol >= 0 { SortedAfterRemoval(Keys(v), i, Cmp(cols, v.sortedCol, v.ascending)); }
  }

  /** Two views with the same messages in the same rows, showing the same. */
  ghost predicate Alike<T>(a: View<T>, b: View<T>) {
    && a.messages == b.messages && a.sortedCol == b.sortedCol && a.ascending == b.ascending && |a.lines| == |b.lines|
    && forall k | 0 <= k < |a.lines| :: a.lines[k].msg == b.lines[k].msg && a.lines[k].shown == b.lines[k].shown
  }

  lemma AlikeAgree<T>(cols: Columns<T>, a: View<T>, b: View<T>)
    requires Alike(a, b) && Ok(a)
    ensures Ok(b) && Keys(a) == Keys(b) && Msgs(a.lines) == Msgs(b.lines) && (InOrder(cols, a) <==> InOrder(cols, b))
  {
    assert forall k | 0 <= k < |b.lines| :: b.lines[k].msg == a.lines[k].msg;
    assert Keys(a) == Keys(b);
  }

  /** A moved row is inserted like a new one; only its selection is another. */
  lemma MovedAlike<T>(cols: Columns<T>, w: View<T>, i: nat)
    requires Live(w) && w.sortedCol >= 0 && i < |w.lines| && TextChanges(cols, w, i)
    ensures var rest := w.(lines := Remove(w.lines, i)); Alike(Added(cols, rest, w.lines[i].msg), UpdatedAt(cols, w, i))
  {}

  lemma MovedOk<T>(cols: Columns<T>, w: View<T>, i: nat)
    requires Live(w) && w.sortedCol >= 0 && i < |w.lines| && TextChanges(cols, w, i)
    requires var rest := w.(lines := Remove(w.lines, i));
      Ok(rest) && w.lines[i].msg !in Msgs(rest.lines) && Msgs(rest.lines) + {w.lines[i].msg} == Msgs(w.lines)
    ensures var r := UpdatedAt(cols, w, i); Ok(r) && Msgs(r.lines) == Msgs(w.lines)
  {
    var rest := w.(lines := Remove(w.lines, i));
    AddedOk(cols, rest, w.lines[i].msg);
    MovedAlike(cols, w, i);
    AlikeAgree(cols, Added(cols, rest, w.lines[i].msg), UpdatedAt(cols, w, i));
  }

  /** Removed and inserted again, the row is in its place. */
  lemma MovedInOrder<T(!new)>(cols: Columns<T>, w: View<T>, i: nat)
    requires Comparable(cols) && Live(w) && w.sortedCol >= 0 && i < |w.lines| && TextChanges(cols, w, i)
    requires var rest := w.(lines := Remove(w.lines, i));
      Ok(rest) && w.lines[i].msg !in Msgs(rest.lines) && InOrder(cols, rest)
    ensures var r := UpdatedAt(cols, w, i); Live(r) && InOrder(cols, r)
  {
    var rest := w.(lines := Remove(w.lines, i));
    AddedOk(cols, rest, w.lines[i].msg);
    AddedInOrder(cols, rest, w.lines[i].msg);
    MovedAlike(cols, w, i);
    AlikeAgree(cols, Added(cols, rest, w.lines[i].msg), UpdatedAt(cols, w, i));
  }

  /** An update keeps the rows, and what they show becomes right.  The list is in order
      afterwards if and only if the text of the sort column changed or the row still fits where
      it is. */
  lemma UpdateExact<T(!new)>(cols: Columns<T>, v: View<T>, x: T, i: nat)
    requires Comparable(cols) && Ok(v) && InOrder(cols, v) && i < |v.lines|
    ensures var w := Changed(v, v.lines[i].msg, x); Live(w) && var r := UpdatedAt(cols, w, i);
      && Ok(r) && Msgs(r.lines) == Msgs(v.lines)
      && (InOrder(cols, r) <==>
           v.sortedCol == -1 || TextChanges(cols, w, i) || Fits(Keys(w), i, Cmp(cols, v.sortedCol, v.ascending)))
  {
    var w := Changed(v, v.lines[i].msg, x);
    if v.sortedCol >= 0 && TextChanges(cols, w, i) {
      RestOk(v, x, i);
      RestInOrder(cols, v, x, i);
      MovedOk(cols, w, i);
      MovedInOrder(cols, w, i);
    } else {
      UpdatedInPlace(cols, v, x, i);
      if v.sortedCol >= 0 {
        CmpIsOrder(cols, v.sortedCol, v.ascending);
        RestOk(v, x, i);
        RestInOrder(cols, v, x, i);
        KeysOfRemove(w, i);
        SortedIffFits(Keys(w), i, Cmp(cols, v.sortedCol, v.ascending));
      }
    }
  }

  lemma UpdatedInPlace<T>(cols: Columns<T>, v: View<T>, x: T, i: nat)
    requires Ok(v) && i < |v.lines|
    requires var w := Changed(v, v.lines[i].msg, x); v.sortedCol == -1 || !TextChanges(cols, w, i)
    ensures var w := Changed(v, v.lines[i].msg, x); var r := UpdatedAt(cols, w, i);
      Ok(r) && Keys(r) == Keys(w) && Msgs(r.lines) == Msgs(v.lines)
  {
    var w := Changed(v, v.lines[i].msg, x);
    var r := UpdatedAt(cols, w, i);
    assert forall k | 0 <= k < |r.lines| :: r.lines[k].msg == v.lines[k].msg;
    assert Keys(r) == Keys(w);
  }

  /** Also in a list out of order, an update keeps the rows and makes what they show right. */
  lemma UpdatedOk<T(!new)>(cols: Columns<T>, v: View<T>, x: T, i: nat)
    requires Comparable(cols) && Ok(v) && i < |v.lines|
    ensures var w := Changed(v, v.lines[i].msg, x); Live(w) && var r := UpdatedAt(cols, w, i);
      Ok(r) && Msgs(r.lines) == Msgs(v.lines)
  {
    var w := Changed(v, v.lines[i].msg, x);
    RestOk(v, x, i);
    if v.sortedCol >= 0 && TextChanges(cols, w, i) {
      MovedOk(cols, w, i);
    } else {
      UpdatedInPlace(cols, v, x, i);
    }
  }

  // ---------------------------------------------------------------- text and order

  /** In column `col`, what reads the same compares the same. */
  ghost predicate TextDecides<T(!new)>(cols: Columns<T>, col: nat) {
    forall a, b :: Text(cols, col, a) == Text(cols, col, b) ==> cols.compare(col, a, b) == 0
  }

  lemma EqualFits<T(!new)>(s: seq<T>, i: nat, x: T, cmp: (T, T) -> int)
    requires Order(cmp) && Sorted(s, cmp) && i < |s| && cmp(x, s[i]) == 0
    ensures Fits(s[i := x], i, cmp)
  {
    var was := s[i];
    assert cmp(x, was) == -cmp(was, x);
    if i > 0 {
      var b := s[i - 1];
      assert cmp(b, was) <= 0 && cmp(was, x) <= 0;
    }
    if i + 1 < |s| {
      var b := s[i + 1];
      assert cmp(x, was) <= 0 && cmp(was, b) <= 0;
    }
  }

  lemma KeysOfChange<T>(v: View<T>, x: T, i: nat)
    requires Ok(v) && i < |v.lines|
    ensures var w := Changed(v, v.lines[i].msg, x); Live(w) && Keys(w) == Keys(v)[i := x]
  {}

  /** Then an update always leaves the list in order. */
  lemma UpdateRestoresOrder<T(!new)>(cols: Columns<T>, v: View<T>, x: T, i: nat)
    requires Comparable(cols) && Ok(v) && InOrder(cols, v) && i < |v.lines|
    requires v.sortedCol >= 0 ==> TextDecides(cols, v.sortedCol)
    ensures var w := Changed(v, v.lines[i].msg, x); Live(w) && var r := UpdatedAt(cols, w, i);
      Ok(r) && Msgs(r.lines) == Msgs(v.lines) && InOrder(cols, r)
  {
    UpdateExact(cols, v, x, i);
    var w := Changed(v, v.lines[i].msg, x);
    KeysOfChange(v, x, i);
    if v.sortedCol >= 0 && !TextChanges(cols, w, i) {
      var cmp := Cmp(cols, v.sortedCol, v.ascending);
      CmpIsOrder(cols, v.sortedCol, v.ascending);
      assert cols.compare(v.sortedCol, x, v.lines[i].shown) == 0 && cmp(x, Keys(v)[i]) == 0;
      EqualFits(Keys(v), i, x, cmp);
    }
  }

  const DIGITS := "0123456789"

  function Decimal(n: nat): string {
    if n < 10 then [DIGITS[n]] else Decimal(n / 10) + [DIGITS[n % 10]]
  }

  /** FaxSizeFormat: whole kilobytes, but 1 for less than one. */
  function Kilobytes(size: nat): nat { if 0 < size < 1024 then 1 else size / 1024 }

  /** Sizes: they are shown in kilobytes, and compared by the byte. */
  const SIZES: Columns<nat> := Columns(
    (col, a, b) => if a < b then -1 else if a == b then 0 else 1,
    (col, a) => Decimal(Kilobytes(a)),
    col => false)

  lemma SizesCompare()
    ensures Comparable(SIZES) && Text(SIZES, 0, 10) == Text(SIZES, 0, 30) == "1"
  {
    forall col: nat ensures Order(ByColumn(SIZES, col)) {}
    assert Kilobytes(10) == 1 == Kilobytes(30) && Decimal(1) == "1";
  }

  /** A message that grows by less than a kilobyte stays where it is, and the list is out of order. */
  lemma UpdateLeavesDisorder(v: View<nat>)
    requires v.lines == [Line(1, 10, false), Line(2, 20, false)] && v.sortedCol == 0 && v.ascending
    requires 1 in v.messages && v.messages[1] == 10 && 2 in v.messages && v.messages[2] == 20
    ensures Comparable(SIZES) && Ok(v) && InOrder(SIZES, v)
    ensures var w := Changed(v, 1, 30); Live(w) && var r := Updated(SIZES, w, 1);
      Ok(r) && !InOrder(SIZES, r)
  {
    SizesCompare();
    TwoSizes(v);
    UpdateExact(SIZES, v, 30, 0);
    FindRow(v.lines, 0);
  }

  lemma TwoSizes(v: View<nat>)
    requires v.lines == [Line(1, 10, false), Line(2, 20, false)] && v.sortedCol == 0 && v.ascending
    requires 1 in v.messages && v.messages[1] == 10 && 2 in v.messages && v.messages[2] == 20
    ensures Ok(v) && InOrder(SIZES, v)
    ensures var w := Changed(v, 1, 30); Live(w) && !TextChanges(SIZES, w, 0) && !Fits(Keys(w), 0, Cmp(SIZES, 0, true))
  {
    SizesCompare();
    var w := Changed(v, 1, 30);
    assert Keys(v) == [10, 20] && Keys(w) == [30, 20];
    assert Cmp(SIZES, 0, true)(30, 20) == 1 && Cmp(SIZES, 0, true)(10, 20) == -1;
  }

  /** The row that is moved stays selected if and only if it comes back to where it was; what
      is selected is the row now at the old index. */
  lemma UpdateReselects<T(!new)>(cols: Columns<T>, v: View<T>, x: T, i: nat)
    requires Comparable(cols) && Ok(v) && i < |v.lines| && v.lines[i].selected && v.sortedCol >= 0
    requires TextChanges(cols, Changed(v, v.lines[i].msg, x), i)
    ensures var w := Changed(v, v.lines[i].msg, x); var rest := w.(lines := Remove(w.lines, i));
      && Live(w) && Live(rest)
      && var r, j := UpdatedAt(cols, w, i), IndexFor(cols, rest, v.lines[i].msg);
      && r.lines[i].selected && r.lines[j].msg == v.lines[i].msg && (r.lines[j].selected <==> i == j)
  {
    var w := Changed(v, v.lines[i].msg, x);
    assert Live(w);
  }

  // ---------------------------------------------------------------- sorting

  /** CListCtrl::SortItems: the same rows, in the order of the callback. */
  predicate IsSort<T(==)>(cols: Columns<T>, v: View<T>, w: View<T>)
    requires v.sortedCol >= 0
  {
    && w == v.(lines := w.lines) && Live(w) && Distinct(w.lines) && |w.lines| == |v.lines|
    && (forall k | 0 <= k < |w.lines| :: w.lines[k] in v.lines)
    && (forall k | 0 <= k < |v.lines| :: v.lines[k] in w.lines)
    && Sorted(Keys(w), Callback(ByColumn(cols, v.sortedCol), v.ascending))
  }

  /** DoSort: nothing happens without a sort column. */
  ghost predicate IsDoSort<T(!new)>(cols: Columns<T>, v: View<T>, w: View<T>) {
    if v.sortedCol < 0 then w == v else IsSort(cols, v, w)
  }

  lemma SortPutsInOrder<T(!new)>(cols: Columns<T>, v: View<T>, w: View<T>)
    requires Comparable(cols) && Ok(v) && IsDoSort(cols, v, w)
    ensures Ok(w) && InOrder(cols, w) && Msgs(w.lines) == Msgs(v.lines)
  {
    if v.sortedCol >= 0 {
      assert Order(ByColumn(cols, v.sortedCol));
      CallbackIsDirected(ByColumn(cols, v.sortedCol), v.ascending);
      forall k | 0 <= k < |w.lines| ensures w.lines[k].shown == w.messages[w.lines[k].msg] && w.lines[k].msg in Msgs(v.lines) {
        assert w.lines[k] in v.lines;
      }
      forall k | 0 <= k < |v.lines| ensures v.lines[k].msg in Msgs(w.lines) {
        assert v.lines[k] in w.lines;
      }
    }
  }

  /** OnColumnClick before it sorts: the other direction, or another column, ascending. */
  function Clicked<T>(v: View<T>, col: nat): View<T> {
    v.(ascending := if col == v.sortedCol then !v.ascending else true, sortedCol := col)
  }

  /** The rows are in the order of column `col`, from its least value on or from its greatest. */
  ghost predicate Arranged<T>(cols: Columns<T>, v: View<T>, col: nat, ascending: bool)
    requires Live(v)
  {
    forall i, j | 0 <= i < j < |v.lines| ::
      var c := cols.compare(col, v.messages[v.lines[i].msg], v.messages[v.lines[j].msg]); if ascending then c <= 0 else c >= 0
  }

  lemma SortArranges<T(!new)>(cols: Columns<T>, v: View<T>, w: View<T>)
    requires Comparable(cols) && v.sortedCol >= 0 && IsSort(cols, v, w)
    ensures w.sortedCol == v.sortedCol && w.ascending == v.ascending && Arranged(cols, w, v.sortedCol, v.ascending)
  {
    var cmp := ByColumn(cols, v.sortedCol);
    assert Order(cmp);
    forall i, j | 0 <= i < j < |w.lines|
      ensures var c := cols.compare(v.sortedCol, w.messages[w.lines[i].msg], w.messages[w.lines[j].msg]);
        if v.ascending then c <= 0 else c >= 0
    {
      var a, b := Keys(w)[i], Keys(w)[j];
      assert Callback(cmp, v.ascending)(a, b) <= 0;
      assert cmp(a, b) == -cmp(b, a);
    }
  }

  // ---------------------------------------------------------------- runs

  /** `appended`: rows were added at the end since the list was last sorted. */
  datatype State<T> = State(view: View<T>, appended: bool)

  /** What happens to a view: a refresh adds a message at the end, or ends; the user clicks a
      column or hides the sort column; a message arrives, goes or changes; the view is cleared. */
  datatype Event<T> =
    | Append(msg: Ptr, x: T)
    | RefreshEnded
    | Click(col: nat)
    | HideSorted
    | Arrive(msg: Ptr, x: T)
    | Leave(msg: Ptr)
    | Change(msg: Ptr, x: T)
    | ClearView

  ghost predicate Next<T(!new)>(cols: Columns<T>, s: State<T>, e: Event<T>, t: State<T>) {
    Ok(s.view) && var v := s.view;
    match e
    case Append(msg, x) =>
      msg !in v.messages && t == State(v.(messages := v.messages[msg := x], lines := v.lines + [Line(msg, x, false)]), true)
    case RefreshEnded =>
      IsDoSort(cols, v, t.view) && t.appended == (s.appended && v.sortedCol < 0)
    case Click(col) =>
      if cols.isIcon(col) then t == s else IsDoSort(cols, Clicked(v, col), t.view) && !t.appended
    case HideSorted => t == s.(view := v.(sortedCol := -1))
    case Arrive(msg, x) => msg !in v.messages && t == s.(view := Added(cols, Changed(v, msg, x), msg))
    case Leave(msg) =>
      var w := Removed(v, msg);
      t == s.(view := w.(messages := w.messages - {msg}))
    case Change(msg, x) => msg in v.messages && t == s.(view := Updated(cols, Changed(v, msg, x), msg))
    case ClearView => t == State(v.(lines := []), false)
  }

  /** A changed message of a sorted list reads differently in the sort column, or its row still
      fits where it is. */
  ghost predicate Guarded<T>(cols: Columns<T>, s: State<T>, e: Event<T>)
    requires Ok(s.view)
  {
    match e
    case Change(msg, x) =>
      var v, w, i := s.view, Changed(s.view, msg, x), FindItem(s.view.lines, msg);
      i < |v.lines| && !s.appended && v.sortedCol >= 0 ==>
        TextChanges(cols, w, i) || Fits(Keys(w), i, Cmp(cols, v.sortedCol, v.ascending))
    case _ => true
  }

  ghost predicate IsRun<T(!new)>(cols: Columns<T>, trace: seq<State<T>>, events: seq<Event<T>>) {
    && |trace| == |events| + 1 && trace[0].view.lines == [] && trace[0].view.sortedCol >= -1
    && forall i | 0 <= i < |events| :: Next(cols, trace[i], events[i], trace[i + 1])
  }

  ghost predicate Holds<T>(cols: Columns<T>, s: State<T>) {
    Ok(s.view) && (!s.appended ==> InOrder(cols, s.view))
  }

  lemma AppendKeeps<T(!new)>(cols: Columns<T>, s: State<T>, e: Event<T>, t: State<T>)
    requires Next(cols, s, e, t) && e.Append?
    ensures Holds(cols, t)
  {
    var v := s.view;
    var w := v.(messages := v.messages[e.msg := e.x]);
    assert Insert(w.lines, |w.lines|, Line(e.msg, e.x, false)) == t.view.lines;
    InsertRow(w.lines, |w.lines|, Line(e.msg, e.x, false));
  }

  lemma ArriveKeeps<T(!new)>(cols: Columns<T>, s: State<T>, e: Event<T>, t: State<T>)
    requires Comparable(cols) && Holds(cols, s) && Next(cols, s, e, t) && e.Arrive?
    ensures Holds(cols, t)
  {
    var v := s.view;
    var w := Changed(v, e.msg, e.x);
    assert Ok(w) && Keys(w) == Keys(v);
    AddKeepsOrder(cols, w, e.msg);
  }

  lemma LeaveKeeps<T(!new)>(cols: Columns<T>, s: State<T>, e: Event<T>, t: State<T>)
    requires Comparable(cols) && Holds(cols, s) && Next(cols, s, e, t) && e.Leave?
    ensures Holds(cols, t)
  {
    var w := Removed(s.view, e.msg);
    RemoveKeepsOrder(cols, s.view, e.msg);
    var r := t.view;
    assert r.lines == w.lines;
    forall k | 0 <= k < |r.lines| ensures r.lines[k].msg in r.messages && r.lines[k].shown == r.messages[r.lines[k].msg] {
      assert r.lines[k].msg in Msgs(w.lines);
    }
    assert Keys(r) == Keys(w);
  }

  lemma ChangeKeeps<T(!new)>(cols: Columns<T>, s: State<T>, e: Event<T>, t: State<T>)
    requires Comparable(cols) && Holds(cols, s) && Next(cols, s, e, t) && e.Change?
    ensures Ok(t.view) && (Holds(cols, t) <==> Guarded(cols, s, e))
  {
    var v, i := s.view, FindItem(s.view.lines, e.msg);
    var w := Changed(v, e.msg, e.x);
    if i == |v.lines| {
      NotFound(v.lines, e.msg);
      assert forall k | 0 <= k < |v.lines| :: v.lines[k].msg in Msgs(v.lines);
      assert Keys(w) == Keys(v);
    } else if s.appended {
      UpdatedOk(cols, v, e.x, i);
    } else {
      UpdateExact(cols, v, e.x, i);
    }
  }

  /** Every step keeps the rows right, and a sorted list in order if and only if it is guarded. */
  lemma StepKeepsOrder<T(!new)>(cols: Columns<T>, s: State<T>, e: Event<T>, t: State<T>)
    requires Comparable(cols) && Holds(cols, s) && Next(cols, s, e, t)
    ensures Ok(t.view) && (Holds(cols, t) <==> Guarded(cols, s, e))
  {
    match e
    case Append(msg, x) => AppendKeeps(cols, s, e, t);
    case RefreshEnded => SortPutsInOrder(cols, s.view, t.view);
    case Click(col) =>
      if !cols.isIcon(col) {
        assert Keys(Clicked(s.view, col)) == Keys(s.view);
        SortPutsInOrder(cols, Clicked(s.view, col), t.view);
      }
    case HideSorted =>
    case Arrive(msg, x) => ArriveKeeps(cols, s, e, t);
    case Leave(msg) => LeaveKeeps(cols, s, e, t);
    case Change(msg, x) => ChangeKeeps(cols, s, e, t);
    case ClearView =>
  }

  /** A click on a column that is no icon column arranges the rows by it, and turns the direction over
      if they were arranged by it already. */
  lemma ClickArranges<T(!new)>(cols: Columns<T>, s: State<T>, col: nat, t: State<T>)
    requires Comparable(cols) && Next(cols, s, Click(col), t) && !cols.isIcon(col)
    ensures t.view.sortedCol == col && t.view.ascending == (s.view.sortedCol == col ==> !s.view.ascending)
    ensures Live(t.view) && Arranged(cols, t.view, col, t.view.ascending) && Msgs(t.view.lines) == Msgs(s.view.lines)
  {
    assert Keys(Clicked(s.view, col)) == Keys(s.view);
    SortPutsInOrder(cols, Clicked(s.view, col), t.view);
    SortArranges(cols, Clicked(s.view, col), t.view);
  }

  /** The first click on a column arranges the rows from its least value on, the second one from
      its greatest. */
  lemma TwoClicks<T(!new)>(cols: Columns<T>, trace: seq<State<T>>, events: seq<Event<T>>, i: nat, col: nat)
    requires Comparable(cols) && IsRun(cols, trace, events) && i + 1 < |events| && !cols.isIcon(col)
    requires events[i] == Click(col) && events[i + 1] == Click(col) && trace[i].view.sortedCol != col
    ensures Live(trace[i + 1].view) && Arranged(cols, trace[i + 1].view, col, true)
    ensures Live(trace[i + 2].view) && Arranged(cols, trace[i + 2].view, col, false)
    ensures Msgs(trace[i + 2].view.lines) == Msgs(trace[i].view.lines)
  {
    StepOfRun(cols, trace, events, i);
    StepOfRun(cols, trace, events, i + 1);
    ClickArranges(cols, trace[i], col, trace[i + 1]);
    ClickArranges(cols, trace[i + 1], col, trace[i + 2]);
  }

  lemma EmptyHolds<T(!new)>(cols: Columns<T>, s: State<T>)
    requires s.view.lines == [] && s.view.sortedCol >= -1
    ensures Holds(cols, s)
  {}

  lemma StepOfRun<T(!new)>(cols: Columns<T>, trace: seq<State<T>>, events: seq<Event<T>>, i: nat)
    requires IsRun(cols, trace, events) && i < |events|
    ensures Next(cols, trace[i], events[i], trace[i + 1])
  {}

  lemma {:induction false} HoldsUntil<T(!new)>(cols: Columns<T>, trace: seq<State<T>>, events: seq<Event<T>>, i: nat)
    requires Comparable(cols) && IsRun(cols, trace, events) && i < |trace|
    requires forall j | 0 <= j < i :: Next(cols, trace[j], events[j], trace[j + 1]) && Guarded(cols, trace[j], events[j])
    ensures Holds(cols, trace[i])
  {
    if i == 0 {
      EmptyHolds(cols, trace[0]);
    } else {
      HoldsUntil(cols, trace, events, i - 1);
      StepOfRun(cols, trace, events, i - 1);
      StepKeepsOrder(cols, trace[i - 1], events[i - 1], trace[i]);
    }
  }

  /** Throughout a run the list is in the order of its sort column and direction, whenever no
      refresh has added rows since it was sorted, if and only if every change is guarded. */
  lemma InOrderIffGuarded<T(!new)>(cols: Columns<T>, trace: seq<State<T>>, events: seq<Event<T>>)
    requires Comparable(cols) && IsRun(cols, trace, events)
    ensures (forall i | 0 <= i < |trace| :: Holds(cols, trace[i]))
       <==> (forall i | 0 <= i < |events| :: Next(cols, trace[i], events[i], trace[i + 1]) && Guarded(cols, trace[i], events[i]))
  {
    if forall i | 0 <= i < |events| :: Next(cols, trace[i], events[i], trace[i + 1]) && Guarded(cols, trace[i], events[i]) {
      forall i: nat | i < |trace| ensures Holds(cols, trace[i]) { HoldsUntil(cols, trace, events, i); }
    }
    if forall i | 0 <= i < |trace| :: Holds(cols, trace[i]) {
      forall i: nat | i < |events| ensures Guarded(cols, trace[i], events[i]) {
        assert Next(cols, trace[i], events[i], trace[i + 1]) && Holds(cols, trace[i + 1]);
        StepKeepsOrder(cols, trace[i], events[i], trace[i + 1]);
      }
    }
  }

  ghost predicate SortDecided<T(!new)>(cols: Columns<T>, v: View<T>) {
    v.sortedCol >= 0 ==> TextDecides(cols, v.sortedCol)
  }

  lemma DecidedStep<T(!new)>(cols: Columns<T>, s: State<T>, e: Event<T>, t: State<T>)
    requires Comparable(cols) && Holds(cols, s) && Next(cols, s, e, t)
    requires SortDecided(cols, s.view)
    ensures Holds(cols, t)
  {
    if e.Change? {
      var i := FindItem(s.view.lines, e.msg);
      if i < |s.view.lines| && !s.appended {
        UpdateRestoresOrder(cols, s.view, e.x, i);
        UpdateExact(cols, s.view, e.x, i);
      }
    }
    StepKeepsOrder(cols, s, e, t);
  }

  /** In every sort column of the run, what reads the same compares the same. */
  ghost predicate AllDecided<T(!new)>(cols: Columns<T>, trace: seq<State<T>>) {
    forall i | 0 <= i < |trace| :: SortDecided(cols, trace[i].view)
  }

  lemma DecidedRound<T(!new)>(cols: Columns<T>, trace: seq<State<T>>, events: seq<Event<T>>, i: nat)
    requires Comparable(cols) && IsRun(cols, trace, events) && AllDecided(cols, trace)
    requires 0 < i < |trace| && Holds(cols, trace[i - 1])
    ensures Holds(cols, trace[i])
  {
    StepOfRun(cols, trace, events, i - 1);
    DecidedStep(cols, trace[i - 1], events[i - 1], trace[i]);
  }

  /** So it is whenever what reads the same in a sort column compares the same. */
  lemma {:induction false} InOrderInEveryRun<T(!new)>(cols: Columns<T>, trace: seq<State<T>>, events: seq<Event<T>>, i: nat)
    requires Comparable(cols) && IsRun(cols, trace, events) && i < |trace|
    requires AllDecided(cols, trace)
    ensures Holds(cols, trace[i])
  {
    if i == 0 {
      EmptyHolds(cols, trace[0]);
    } else {
      InOrderInEveryRun(cols, trace, events, i - 1);
      DecidedRound(cols, trace, events, i);
    }
  }
}
