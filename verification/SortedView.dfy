/**
 The list view that keeps its rows sorted: the list control's rows, the sort column and
 direction are fields, and each handler is proved equal to the step of SortedRows.
 */
module SortedView {
  import opened Collections
  import opened SortedList
  import opened SortedRows

  datatype Result = ERROR_SUCCESS | ERROR_NOT_FOUND

  class CFolderListView<T(!new,==)> {
    const cols: Columns<T>
    var messages: map<Ptr, T>      // the CFaxMsg objects behind the lParams
    var lines: seq<Line<T>>        // the list control
    var sortedCol: int             // m_nSortedCol
    var ascending: bool            // m_bSortAscending
    var sorting: bool              // m_bSorting

    function Now(): View<T>
      reads this
    {
      View(lines, messages, sortedCol, ascending)
    }

    ghost predicate Valid()
      reads this
    {
      Comparable(cols) && Ok(Now())
    }

    constructor (cols: Columns<T>, messages: map<Ptr, T>)
      requires Comparable(cols)
      ensures Valid() && this.cols == cols && Now() == View([], messages, -1, true) && !sorting
    {
      this.cols, this.messages := cols, messages;
      lines, sortedCol, ascending, sorting := [], -1, true, false;
    }

    /** AddItem: the new row is not selected. */
    method AddItem(index: nat, msg: Ptr)
      requires Live(Now()) && index <= |lines| && msg in messages
      modifies this`lines
      ensures lines == Insert(old(lines), index, Line(msg, messages[msg], false))
    {
      lines := lines[..index] + [Line(msg, messages[msg], false)] + lines[index..];
    }

    method FindIndex(msg: Ptr) returns (index: nat)
      requires Live(Now()) && msg in messages && sortedCol >= -1
      ensures index == IndexFor(cols, Now(), msg) && index <= |lines|
      ensures lines == [] || sortedCol == -1 ==> index == |lines|
      ensures Comparable(cols) && InOrder(cols, Now()) && sortedCol >= 0 ==>
        IsPlaceFor(Keys(Now()), messages[msg], index, Cmp(cols, sortedCol, ascending))
    {
      if Comparable(cols) && InOrder(cols, Now()) && sortedCol >= 0 {
        CmpIsOrder(cols, sortedCol, ascending);
        InsertionIndex(Keys(Now()), messages[msg], Cmp(cols, sortedCol, ascending));
      }
      if |lines| == 0 || sortedCol == -1 {
        return |lines|;
      }
      var found := FindInsertionIndex(Keys(Now()), messages[msg], Cmp(cols, sortedCol, ascending));
      return found.index;
    }

    method AddSortedItem(msg: Ptr)
      requires Live(Now()) && msg in messages && sortedCol >= -1
      modifies this`lines
      ensures Now() == Added(cols, old(Now()), msg)
    {
      var index := FindIndex(msg);
      AddItem(index, msg);
    }

    /** `index`: where the row is, or none if it has to be searched. */
    method RemoveItem(msg: Ptr, index: int) returns (selected: bool)
      requires Distinct(lines) && (index == -1 || (0 <= index < |lines| && lines[index].msg == msg))
      modifies this`lines
      ensures Now() == Removed(old(Now()), msg)
      ensures selected <==> exists k | 0 <= k < |old(lines)| :: old(lines)[k].msg == msg && old(lines)[k].selected
    {
      selected := false;
      var at := index;
      if at == -1 {
        at := FindItem(lines, msg);
        if at == |lines| {
          return;
        }
      } else {
        FindRow(lines, index);
      }
      selected := lines[at].selected;
      lines := lines[..at] + lines[at + 1..];
    }

    method UpdateSortedItem(msg: Ptr) returns (result: Result)
      requires Live(Now()) && sortedCol >= -1
      modifies this`lines
      ensures Now() == Updated(cols, old(Now()), msg)
      ensures result == ERROR_NOT_FOUND <==> msg !in Msgs(old(lines))
    {
      NotFound(lines, msg);
      var current := FindItem(lines, msg);
      if current == |lines| {
        return ERROR_NOT_FOUND;
      }
      var justUpdate := true;
      if 0 <= sortedCol {
        var displayed := Text(cols, sortedCol, lines[current].shown);
        if Text(cols, sortedCol, messages[msg]) != displayed {
          justUpdate := false;
        }
      }
      if justUpdate {
        lines := lines[current := lines[current].(shown := messages[msg])];
      } else {
        var selected := lines[current].selected;
        lines := Remove(lines, current);
        AddSortedItem(msg);
        if selected {
          lines := lines[current := lines[current].(selected := true)];
        }
      }
      return ERROR_SUCCESS;
    }

    /** What the list control does is not known beyond this contract; repeated insertion meets it. */
    method SortItems()
      requires Valid() && sortedCol >= 0
      modifies this`lines
      ensures IsSort(cols, old(Now()), Now())
    {
      CallbackIsOrder(cols, sortedCol, ascending);
      var was := Now();
      var view := was.(lines := []);
      for i := 0 to |was.lines|
        invariant IsSortOfPrefix(cols, was, view, i)
      {
        SortStep(cols, was, view, i);
        view := view.(lines := InsertionSortStep(cols, view, was.lines[i]));
      }
      assert was.lines[..|was.lines|] == was.lines;
      lines := view.lines;
    }

    method DoSort()
      requires Valid()
      modifies this`lines, this`sorting
      ensures sorting == old(sorting)
      ensures if sorting then Now() == old(Now()) else IsDoSort(cols, old(Now()), Now())
      ensures Valid()
    {
      if sorting || sortedCol < 0 {
        return;
      }
      sorting := true;
      SortItems();
      SortPutsInOrder(cols, old(Now()), Now());
      sorting := false;
    }

    method OnColumnClick(col: nat)
      requires Valid()
      modifies this
      ensures Valid() && sorting == old(sorting)
      ensures cols.isIcon(col) ==> Now() == old(Now())
      ensures !cols.isIcon(col) ==> sortedCol == col && ascending == (old(sortedCol) == col ==> !old(ascending))
      ensures !cols.isIcon(col) && !sorting ==> Arranged(cols, Now(), col, ascending)
      ensures !cols.isIcon(col) ==>
        if sorting then Now() == Clicked(old(Now()), col) else IsDoSort(cols, Clicked(old(Now()), col), Now())
    {
      if cols.isIcon(col) {
        return;
      }
      if col == sortedCol {
        ascending := !ascending;
      } else {
        ascending := true;
      }
      sortedCol := col;
      ghost var clicked := Now();
      assert clicked == Clicked(old(Now()), col);
      DoSort();
      if !sorting { SortArranges(cols, clicked, Now()); }
    }
  }

  lemma CallbackIsOrder<T(!new)>(cols: Columns<T>, col: nat, ascending: bool)
    requires Comparable(cols)
    ensures Order(Callback(ByColumn(cols, col), ascending))
  {
    assert Order(ByColumn(cols, col));
    CallbackIsDirected(ByColumn(cols, col), ascending);
  }

  /** The first `i` rows, sorted. */
  ghost predicate IsSortOfPrefix<T(!new)>(cols: Columns<T>, v: View<T>, w: View<T>, i: nat) {
    && w == v.(lines := w.lines) && Live(w) && Distinct(w.lines) && |w.lines| == i <= |v.lines| && v.sortedCol >= 0
    && (forall line :: line in w.lines <==> line in v.lines[..i])
    && Sorted(Keys(w), Callback(ByColumn(cols, v.sortedCol), v.ascending))
  }

  function InsertionSortStep<T>(cols: Columns<T>, w: View<T>, line: Line<T>): seq<Line<T>>
    requires Live(w) && line.msg in w.messages && w.sortedCol >= 0
  {
    var cmp := Callback(ByColumn(cols, w.sortedCol), w.ascending);
    Insert(w.lines, FindInsertionIndex(Keys(w), w.messages[line.msg], cmp).index, line)
  }

  lemma SortStep<T(!new)>(cols: Columns<T>, v: View<T>, w: View<T>, i: nat)
    requires Comparable(cols) && Ok(v) && IsSortOfPrefix(cols, v, w, i) && i < |v.lines|
    ensures IsSortOfPrefix(cols, v, w.(lines := InsertionSortStep(cols, w, v.lines[i])), i + 1)
  {
    SortStepRows(cols, v, w, i);
    SortStepOrder(cols, w, v.lines[i]);
  }

  lemma SortStepRows<T(!new)>(cols: Columns<T>, v: View<T>, w: View<T>, i: nat)
    requires IsSortOfPrefix(cols, v, w, i) && i < |v.lines| && Distinct(v.lines) && v.lines[i].msg in w.messages
    ensures var lines := InsertionSortStep(cols, w, v.lines[i]);
      Distinct(lines) && |lines| == i + 1 && forall line :: line in lines <==> line in v.lines[..i + 1]
  {
    var line := v.lines[i];
    var cmp := Callback(ByColumn(cols, w.sortedCol), w.ascending);
    var index := FindInsertionIndex(Keys(w), w.messages[line.msg], cmp).index;
    NotYet(v.lines, w.lines, i);
    InsertRow(w.lines, index, line);
    InsertedLines(w.lines, index, line);
    NextPrefix(v.lines, w.lines, InsertionSortStep(cols, w, line), i);
  }

  lemma SortStepOrder<T(!new)>(cols: Columns<T>, w: View<T>, line: Line<T>)
    requires Comparable(cols) && Live(w) && w.sortedCol >= 0 && line.msg in w.messages
    requires Sorted(Keys(w), Callback(ByColumn(cols, w.sortedCol), w.ascending))
    ensures var r := w.(lines := InsertionSortStep(cols, w, line));
      Live(r) && Sorted(Keys(r), Callback(ByColumn(cols, w.sortedCol), w.ascending))
  {
    var cmp := Callback(ByColumn(cols, w.sortedCol), w.ascending);
    CallbackIsOrder(cols, w.sortedCol, w.ascending);
    KeysOfInsert(w, FindInsertionIndex(Keys(w), w.messages[line.msg], cmp).index, line);
    SortedAfterInsertion(Keys(w), w.messages[line.msg], cmp);
  }

  lemma NextPrefix<T(!new)>(s: seq<T>, done: seq<T>, more: seq<T>, i: nat)
    requires i < |s| && (forall y :: y in done <==> y in s[..i]) && (forall y :: y in more <==> y in done || y == s[i])
    ensures forall y :: y in more <==> y in s[..i + 1]
  {
    assert s[..i + 1] == s[..i] + [s[i]];
  }

  lemma NotYet<T>(lines: seq<Line<T>>, done: seq<Line<T>>, i: nat)
    requires Distinct(lines) && i < |lines| && forall k | 0 <= k < |done| :: done[k] in lines[..i]
    ensures lines[i].msg !in Msgs(done)
  {}

  lemma InsertedLines<T(!new)>(s: seq<T>, i: nat, x: T)
    requires i <= |s|
    ensures forall y :: y in Insert(s, i, x) <==> y in s || y == x
  {
    var w := Insert(s, i, x);
    assert w[i] == x;
    forall k | 0 <= k < |s| ensures s[k] in w {
      assert w[if k < i then k else k + 1] == s[k];
    }
  }
}
