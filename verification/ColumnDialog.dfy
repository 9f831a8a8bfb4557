/**
 The dialog that selects and orders columns: two list boxes, and an array that holds the
 displayed columns in order, then the others.
 */
module ColumnDialog {
  import C = Collections
  import opened Permutations

  // ---------------------------------------------------------------- list boxes

  /** A string of a list box: the column in its item data, and whether it is selected. */
  datatype Item = Item(id: int, selected: bool)

  function Ids(items: seq<Item>): (s: seq<int>)
    ensures |s| == |items|
  {
    seq(|items|, i requires 0 <= i < |items| => items[i].id)
  }

  function Selected(items: seq<Item>): seq<Item> {
    if items == [] then [] else (if items[0].selected then [items[0]] else []) + Selected(items[1..])
  }

  function Unselected(items: seq<Item>): seq<Item> {
    if items == [] then [] else (if items[0].selected then [] else [items[0]]) + Unselected(items[1..])
  }

  /** GetSelItems(1, ...): the first selected item, or the number of items. */
  function FirstSelected(items: seq<Item>): (i: nat)
    ensures i <= |items| && (i < |items| ==> items[i].selected)
    ensures forall k | 0 <= k < i :: !items[k].selected
  {
    C.FirstIndex(items, (x: Item) => x.selected)
  }

  lemma {:induction false} TakeSelected(items: seq<Item>, rest: seq<Item>, i: nat)
    requires i == FirstSelected(items) < |items| && rest == C.Remove(items, i)
    ensures Selected(items) == [items[i]] + Selected(rest)
    ensures Unselected(items) == Unselected(rest)
  {
    if i == 0 {
      assert rest == items[1..];
    } else {
      FirstInTail(items);
      C.RemoveInTail(items, i);
      TakeSelected(items[1..], rest[1..], i - 1);
      assert Selected(items) == Selected(items[1..]) && Selected(rest) == Selected(rest[1..]);
    }
  }

  lemma FirstInTail(items: seq<Item>)
    requires 0 < FirstSelected(items) < |items|
    ensures FirstSelected(items[1..]) == FirstSelected(items) - 1
  {}

  lemma {:induction false} SomeSelected(items: seq<Item>)
    ensures Selected(items) != [] <==> FirstSelected(items) < |items|
  {
    if items != [] { SomeSelected(items[1..]); }
  }

  lemma {:induction false} NoneSelected(items: seq<Item>)
    requires Selected(items) == []
    ensures Unselected(items) == items
  {
    if items != [] { NoneSelected(items[1..]); }
  }

  lemma IdsCons(x: Item, rest: seq<Item>)
    ensures multiset(Ids([x] + rest)) == multiset{x.id} + multiset(Ids(rest))
  {
    assert Ids([x] + rest) == [x.id] + Ids(rest);
  }

  lemma IdsConcat(s: seq<Item>, t: seq<Item>)
    ensures Ids(s + t) == Ids(s) + Ids(t)
  {}

  /** Selected and unselected items together are all items. */
  lemma {:induction false} SelectedAndUnselected(items: seq<Item>)
    ensures multiset(Ids(items)) == multiset(Ids(Selected(items))) + multiset(Ids(Unselected(items)))
  {
    if items != [] {
      var x, rest := items[0], items[1..];
      assert items == [x] + rest;
      SelectedAndUnselected(rest);
      IdsCons(x, rest);
      IdsCons(x, Selected(rest));
      IdsCons(x, Unselected(rest));
      assert x.selected ==> Unselected(items) == Unselected(rest);
      assert !x.selected ==> Selected(items) == Selected(rest);
    }
  }

  /** AddString leaves a string unselected. */
  function Deselected(items: seq<Item>): seq<Item> {
    seq(|items|, i requires 0 <= i < |items| => Item(items[i].id, false))
  }

  /** Strings for columns, as AddString leaves them. */
  function Strings(ids: seq<int>): (items: seq<Item>)
    ensures Ids(items) == ids
  {
    seq(|ids|, i requires 0 <= i < |ids| => Item(ids[i], false))
  }

  lemma MovedPartition(listFrom: seq<Item>, listTo: seq<Item>)
    ensures multiset(Ids(Unselected(listFrom))) + multiset(Ids(listTo + Deselected(Selected(listFrom))))
         == multiset(Ids(listFrom)) + multiset(Ids(listTo))
  {
    SelectedAndUnselected(listFrom);
    IdsConcat(listTo, Deselected(Selected(listFrom)));
    assert Ids(Deselected(Selected(listFrom))) == Ids(Selected(listFrom));
  }

  class CListBox {
    var items: seq<Item>

    constructor ()
      ensures items == []
    {
      items := [];
    }

    /** AddString and SetItemData, on a list box that does not sort. */
    method AddStrToList(id: int)
      modifies this
      ensures items == old(items) + [Item(id, false)]
    {
      items := items + [Item(id, false)];
    }

    method DeleteString(i: nat)
      requires i < |items|
      modifies this
      ensures items == C.Remove(old(items), i)
    {
      items := items[..i] + items[i + 1..];
    }

    method InsertString(i: nat, id: int)
      requires i <= |items|
      modifies this
      ensures items == old(items[..i]) + [Item(id, false)] + old(items[i..])
    {
      items := items[..i] + [Item(id, false)] + items[i..];
    }

    method SetSel(i: nat)
      requires i < |items|
      modifies this
      ensures items == old(items)[i := old(items)[i].(selected := true)]
    {
      items := items[i := items[i].(selected := true)];
    }
  }

  /** The loop of MoveSelectedItems: as often as there are selected items, the first of them. */
  method MoveAllSelected(listFrom: CListBox, listTo: CListBox)
    requires listFrom != listTo
    modifies listFrom, listTo
    ensures listFrom.items == old(Unselected(listFrom.items))
    ensures listTo.items == old(listTo.items) + Deselected(old(Selected(listFrom.items)))
  {
    var selCount := |Selected(listFrom.items)|;
    ghost var moved: seq<Item> := [];
    var i := 0;
    while i < selCount
      invariant 0 <= i <= selCount && |moved| == i
      invariant moved + Selected(listFrom.items) == old(Selected(listFrom.items))
      invariant Unselected(listFrom.items) == old(Unselected(listFrom.items))
      invariant listTo.items == old(listTo.items) + Deselected(moved)
    {
      SomeSelected(listFrom.items);
      var index := FirstSelected(listFrom.items);
      TakeSelected(listFrom.items, C.Remove(listFrom.items, index), index);
      var id := listFrom.items[index].id;
      assert Deselected(moved + [listFrom.items[index]]) == Deselected(moved) + [Item(id, false)];
      moved := moved + [listFrom.items[index]];
      listFrom.DeleteString(index);
      listTo.AddStrToList(id);
      i := i + 1;
    }
    NoneSelected(listFrom.items);
  }

  /** The loop of OnInitDialog: the first `selectedItems` columns are displayed. */
  method FillLists(order: array<int>, selectedItems: nat, displayed: CListBox, available: CListBox)
    requires displayed != available && displayed.items == available.items == [] && selectedItems <= order.Length
    modifies displayed, available
    ensures displayed.items == Strings(order[..selectedItems]) && available.items == Strings(order[selectedItems..])
  {
    var i := 0;
    while i < order.Length
      invariant 0 <= i <= order.Length
      invariant displayed.items == Strings(order[..if i < selectedItems then i else selectedItems])
      invariant available.items == Strings(order[selectedItems..if i < selectedItems then selectedItems else i])
    {
      var columnId := order[i];
      if i < selectedItems {
        displayed.AddStrToList(columnId);
      } else {
        available.AddStrToList(columnId);
      }
      i := i + 1;
    }
  }

  /** The first loop of OnOK: writes what is displayed over the array, and tells if that made a
      difference. */
  method WriteDisplayed(order: array<int>, displayed: seq<Item>) returns (modified: bool)
    requires |displayed| <= order.Length
    modifies order
    ensures order[..] == Ids(displayed) + old(order[|displayed|..])
    ensures modified <==> Ids(displayed) != old(order[..|displayed|])
  {
    ghost var was, shown := order[..], Ids(displayed);
    modified := false;
    var i := 0;
    while i < |displayed|
      invariant 0 <= i <= |displayed|
      invariant order[..] == shown[..i] + was[i..]
      invariant modified <==> shown[..i] != was[..i]
    {
      var id := displayed[i].id;
      OverwriteStep(order[..], shown, was, i);
      if order[i] != id {
        modified := true;
        order[i] := id;
      }
      i := i + 1;
    }
    assert shown[..i] == shown;
  }

  /** The second loop of OnOK: the other columns behind them. */
  method WriteAvailable(order: array<int>, displayCount: nat, available: seq<Item>)
    requires displayCount + |available| == order.Length
    modifies order
    ensures order[..] == old(order[..displayCount]) + Ids(available)
  {
    ghost var was := order[..];
    ghost var all := was[..displayCount] + Ids(available);
    var i := 0;
    while i < |available|
      invariant 0 <= i <= |available|
      invariant order[..] == all[..displayCount + i] + was[displayCount + i..]
    {
      OverwriteStep(order[..], all, was, displayCount + i);
      order[displayCount + i] := available[i].id;
      i := i + 1;
    }
  }

  lemma OverwriteStep(s: seq<int>, ids: seq<int>, order: seq<int>, i: nat)
    requires i < |ids| <= |order| && s == ids[..i] + order[i..]
    ensures s[i] == order[i] && s[i := ids[i]] == ids[..i + 1] + order[i + 1..]
    ensures ids[..i + 1] == order[..i + 1] <==> ids[..i] == order[..i] && ids[i] == order[i]
  {
    assert ids[..i + 1] == ids[..i] + [ids[i]] && order[..i + 1] == order[..i] + [order[i]];
  }

  // ---------------------------------------------------------------- dialog

  datatype Exit = IDOK | IDCANCEL | IDABORT

  /** What the user may try: a button works only while it is enabled. */
  datatype Action =
    | Add | Remove | Up | Down
    | SelectDisplayed(selection: seq<bool>) | SelectAvailable(selection: seq<bool>)
    | DblclkDisplayed | DblclkAvailable
    | Ok | Cancel

  datatype Lists = Lists(displayed: seq<Item>, available: seq<Item>)

  /** What an action other than OK and Cancel makes of the lists.  Selected columns go to the end of
      the other list in their order, and without any nothing changes; the only selected one changes
      places with the one above or below; a new selection keeps the columns. */
  ghost predicate Acted(action: Action, l: Lists, m: Lists) {
    match action
    case Add => Moved(l.available, l.displayed, m.available, m.displayed)
    case DblclkAvailable => Moved(l.available, l.displayed, m.available, m.displayed)
    case Remove => Moved(l.displayed, l.available, m.displayed, m.available)
    case DblclkDisplayed => Moved(l.displayed, l.available, m.displayed, m.available)
    case Up => m.available == l.available && MovedBy(l.displayed, m.displayed, -1)
    case Down => m.available == l.available && MovedBy(l.displayed, m.displayed, 1)
    case SelectDisplayed(selection) => m.available == l.available && Chosen(l.displayed, m.displayed, selection)
    case SelectAvailable(selection) => m.displayed == l.displayed && Chosen(l.available, m.available, selection)
    case Ok => m == l
    case Cancel => m == l
  }

  ghost predicate Moved(listFrom: seq<Item>, listTo: seq<Item>, listFrom': seq<Item>, listTo': seq<Item>) {
    listFrom' == Unselected(listFrom) && listTo' == listTo + Deselected(Selected(listFrom))
  }

  ghost predicate MovedBy(a: seq<Item>, b: seq<Item>, step: int) {
    if Movable(a, step) then Swapped(a, b, FirstSelected(a), FirstSelected(a) + step) else b == a
  }

  /** A selection that does not fit the list is none. */
  ghost predicate Chosen(a: seq<Item>, b: seq<Item>, selection: seq<bool>) {
    if |selection| != |a| then b == a
    else |b| == |a| && forall k | 0 <= k < |a| :: b[k] == Item(a[k].id, selection[k])
  }

  /** The lists from the opening of the dialog on: `run[i]` are those after `i` actions. */
  ghost predicate IsSession(order: seq<int>, selected: nat, actions: seq<Action>, run: seq<Lists>) {
    && 0 < |run| <= |actions| + 1 && selected <= |order|
    && run[0] == Lists(Strings(order[..selected]), Strings(order[selected..]))
    && forall i | 0 <= i < |run| - 1 :: Acted(actions[i], run[i], run[i + 1]) && !Closes(actions[i], run[i])
  }

  /** OK is enabled while something is displayed. */
  predicate Closes(action: Action, l: Lists) { action == Cancel || (action == Ok && l.displayed != []) }

  /** The session has ended with `exit`, and the array that starts with the `shown` displayed columns is
      `result`: by OK if that displays anything else than before, and otherwise without a change. */
  ghost predicate Ended(order: seq<int>, selected: nat, actions: seq<Action>, run: seq<Lists>,
                        exit: Exit, result: seq<int>, shown: nat)
    requires IsSession(order, selected, actions, run)
  {
    var l, n := run[|run| - 1], |run| - 1;
    && (n == |actions| || Closes(actions[n], l))
    && if n < |actions| && actions[n] == Ok && Ids(l.displayed) != order[..selected]
       then exit == IDOK && result == Ids(l.displayed) + Ids(l.available) && shown == |l.displayed|
       else exit == IDCANCEL && result == order && shown == selected
  }

  lemma SessionGoesOn(order: seq<int>, selected: nat, actions: seq<Action>, run: seq<Lists>, m: Lists)
    requires IsSession(order, selected, actions, run) && |run| <= |actions|
    requires Acted(actions[|run| - 1], run[|run| - 1], m) && !Closes(actions[|run| - 1], run[|run| - 1])
    ensures IsSession(order, selected, actions, run + [m])
  {
    var more := run + [m];
    forall i | 0 <= i < |more| - 1 ensures Acted(actions[i], more[i], more[i + 1]) && !Closes(actions[i], more[i]) {
      if i < |run| - 1 { assert Acted(actions[i], run[i], run[i + 1]); }
    }
  }

  lemma SessionStep(order: seq<int>, selected: nat, actions: seq<Action>, run: seq<Lists>, n: nat)
    requires IsSession(order, selected, actions, run) && 0 < n < |run|
    ensures n <= |actions| && Acted(actions[n - 1], run[n - 1], run[n])
  {
    var i := n - 1;
    assert Acted(actions[i], run[i], run[i + 1]);
  }

  /** The actions decide it all. */
  lemma {:induction false} SessionIsDecided(order: seq<int>, selected: nat, actions: seq<Action>, a: seq<Lists>, b: seq<Lists>, n: nat)
    requires IsSession(order, selected, actions, a) && IsSession(order, selected, actions, b) && n < |a| && n < |b|
    ensures a[n] == b[n]
  {
    if n > 0 {
      SessionIsDecided(order, selected, actions, a, b, n - 1);
      SessionStep(order, selected, actions, a, n);
      SessionStep(order, selected, actions, b, n);
      ActedOneWay(actions[n - 1], a[n - 1], a[n], b[n]);
    }
  }

  lemma ActedOneWay(action: Action, l: Lists, m: Lists, m': Lists)
    requires Acted(action, l, m) && Acted(action, l, m')
    ensures m == m'
  {
    if action.SelectDisplayed? { assert m.displayed == m'.displayed; }
    if action.SelectAvailable? { assert m.available == m'.available; }
  }

  /** Each of 0 .. `n`-1 is in one of the two lists, once. */
  ghost predicate Partition(displayed: seq<Item>, available: seq<Item>, n: nat) {
    multiset(Ids(displayed)) + multiset(Ids(available)) == multiset(Range(n))
  }

  lemma Swappable(a: seq<Item>, b: seq<Item>, n: nat)
    ensures Partition(a, b, n) <==> Partition(b, a, n)
  {}

  lemma MovedKeepsPartition(listFrom: seq<Item>, listTo: seq<Item>, n: nat)
    requires Partition(listFrom, listTo, n)
    ensures Partition(Unselected(listFrom), listTo + Deselected(Selected(listFrom)), n)
  {
    MovedPartition(listFrom, listTo);
  }

  lemma PartitionIsPermutation(displayed: seq<Item>, available: seq<Item>, n: nat)
    ensures Partition(displayed, available, n) <==>
      |displayed| + |available| == n && IsPermutation(Ids(displayed) + Ids(available))
  {
    assert multiset(Ids(displayed) + Ids(available)) == multiset(Ids(displayed)) + multiset(Ids(available));
    assert |multiset(Range(n))| == n;
  }

  class CColumnSelectDlg {
    const orderedItems: array<int>         // m_pnOrderedItems
    const listSize: nat
    var selectedItems: nat                 // m_rdwSelectedItems
    const displayed: CListBox
    const available: CListBox
    var butAdd: bool
    var butOk: bool
    var butRemove: bool
    var butUp: bool
    var butDown: bool

    ghost predicate Valid()
      reads this, orderedItems, displayed, available
    {
      && displayed != available && orderedItems.Length == listSize
      && selectedItems <= listSize && IsPermutation(orderedItems[..])
      && Partition(displayed.items, available.items, listSize)
    }

    ghost function Now(): Lists
      reads this, displayed, available
    {
      Lists(displayed.items, available.items)
    }

    /** The buttons allow what the lists have to offer. */
    ghost predicate Buttons()
      reads this, displayed, available
    {
      && (butAdd <==> FirstSelected(available.items) < |available.items|)
      && (butRemove <==> FirstSelected(displayed.items) < |displayed.items|)
      && (butOk <==> displayed.items != [])
      && (butUp <==> Movable(displayed.items, -1))
      && (butDown <==> Movable(displayed.items, 1))
    }

    constructor (orderedItems: array<int>, listSize: nat, selectedItems: nat)
      requires orderedItems.Length == listSize
      ensures this.orderedItems == orderedItems && this.listSize == listSize && this.selectedItems == selectedItems
      ensures fresh(displayed) && fresh(available) && displayed != available
      ensures displayed.items == available.items == []
    {
      this.orderedItems, this.listSize, this.selectedItems := orderedItems, listSize, selectedItems;
      displayed := new CListBox();
      available := new CListBox();
      butAdd, butOk, butRemove, butUp, butDown := false, false, false, false, false;
    }

    /** Marks the position of every entry and looks for a column without a mark.  True exactly
        for a permutation. */
    method InputValidate() returns (ok: bool)
      requires orderedItems.Length == listSize && InRange(orderedItems[..])
      ensures ok <==> selectedItems <= listSize && IsPermutation(orderedItems[..])
    {
      if selectedItems > listSize {
        return false;
      }
      ghost var order := orderedItems[..];
      var orderCheck := new int[listSize](_ => -1);
      var dw := 0;
      while dw < listSize
        invariant 0 <= dw <= listSize && orderedItems[..] == order
        invariant forall x | 0 <= x < listSize :: orderCheck[x] >= 0 <==> x in order[..dw]
      {
        var index := orderedItems[dw];
        assert index == order[dw];
        orderCheck[index] := dw;
        assert order[..dw + 1] == order[..dw] + [index];
        dw := dw + 1;
      }
      assert order[..listSize] == order;
      ok := true;
      dw := 0;
      while dw < listSize
        invariant 0 <= dw <= listSize && (ok <==> forall x | 0 <= x < dw :: x in order)
        invariant forall x | 0 <= x < listSize :: orderCheck[x] >= 0 <==> x in order
        invariant orderedItems[..] == order
      {
        if orderCheck[dw] < 0 {
          ok := false;
          break;
        }
        dw := dw + 1;
      }
      Pigeonhole(order);
      PermutationIff(order);
    }

    method OnInitDialog() returns (ok: bool)
      requires orderedItems.Length == listSize && InRange(orderedItems[..])
      requires displayed != available && displayed.items == available.items == []
      modifies this`butAdd, this`butOk, this`butRemove, this`butUp, this`butDown, displayed, available
      ensures ok <==> selectedItems <= listSize && IsPermutation(orderedItems[..])
      ensures ok ==> Valid() && Buttons()
      ensures ok ==> displayed.items == Strings(orderedItems[..selectedItems])
      ensures ok ==> available.items == Strings(orderedItems[selectedItems..])
    {
      ok := InputValidate();
      if !ok {
        return;
      }
      FillLists(orderedItems, selectedItems, displayed, available);
      assert orderedItems[..] == orderedItems[..selectedItems] + orderedItems[selectedItems..];
      PartitionIsPermutation(displayed.items, available.items, listSize);
      CalcButtonsState();
    }

    method CalcButtonsState()
      modifies this`butAdd, this`butOk, this`butRemove, this`butUp, this`butDown
      ensures Buttons()
    {
      var selCount := |Selected(available.items)|;
      SomeSelected(available.items);
      butAdd := selCount > 0;
      var count := |displayed.items|;
      butOk := count > 0;
      selCount := |Selected(displayed.items)|;
      SomeSelected(displayed.items);
      butRemove := selCount > 0;
      OneSelected(displayed.items);
      if selCount == 1 && 1 < count {
        var index := FirstSelected(displayed.items);
        butUp := index > 0;
        butDown := index < count - 1;
      } else {
        butUp, butDown := false, false;
      }
    }

    /** The user changes the selection of a list box. */
    method OnSelChange(list: CListBox, selection: seq<bool>)
      requires Valid() && (list == displayed || list == available) && |selection| == |list.items|
      modifies this`butAdd, this`butOk, this`butRemove, this`butUp, this`butDown, list
      ensures Valid() && Buttons()
      ensures Chosen(old(list.items), list.items, selection)
    {
      var items := list.items;
      list.items := seq(|items|, i requires 0 <= i < |items| && |selection| == |items| => Item(items[i].id, selection[i]));
      assert Ids(list.items) == old(Ids(list.items));
      CalcButtonsState();
    }

    method MoveSelectedItems(listFrom: CListBox, listTo: CListBox)
      requires Valid() && ((listFrom == displayed && listTo == available) || (listFrom == available && listTo == displayed))
      modifies this`butAdd, this`butOk, this`butRemove, this`butUp, this`butDown, listFrom, listTo
      ensures Valid() && Buttons()
      ensures listFrom.items == old(Unselected(listFrom.items))
      ensures listTo.items == old(listTo.items) + Deselected(old(Selected(listFrom.items)))
    {
      Swappable(listFrom.items, listTo.items, listSize);
      MoveAllSelected(listFrom, listTo);
      MovedKeepsPartition(old(listFrom.items), old(listTo.items), listSize);
      Swappable(listFrom.items, listTo.items, listSize);
      CalcButtonsState();
    }

    /** Moves the only selected item one place up or down; it stays the only selected one. */
    method MoveItemVertical(step: int)
      requires Valid() && Buttons() && ((step == -1 && butUp) || (step == 1 && butDown))
      modifies this`butAdd, this`butOk, this`butRemove, this`butUp, this`butDown, displayed
      ensures Valid() && Buttons()
      ensures var i := FirstSelected(old(displayed.items)); Swapped(old(displayed.items), displayed.items, i, i + step)
      ensures OnlySelected(displayed.items, FirstSelected(old(displayed.items)) + step)
    {
      var count := |displayed.items|;
      OneSelected(displayed.items);
      assert 1 < count;
      assert |Selected(displayed.items)| == 1;
      var index := FirstSelected(displayed.items);
      var newIndex := index + step;
      assert 0 <= newIndex < count;
      var id := displayed.items[index].id;
      ghost var was := displayed.items;
      displayed.DeleteString(index);
      displayed.InsertString(newIndex, id);
      displayed.SetSel(newIndex);
      MoveIsSwap(was, index, newIndex);
      SwappedIds(was, index, newIndex);
      assert Swapped(was, displayed.items, index, index + step);
      CalcButtonsState();
    }

    /** Writes the lists back to the array.  Without a change to what is displayed, the array is
        left alone and the dialog is cancelled. */
    method OnOK() returns (exit: Exit)
      requires Valid() && Buttons() && butOk
      modifies this`selectedItems, orderedItems
      ensures Valid() && 0 < selectedItems == |displayed.items| && exit != IDABORT
      ensures exit == IDCANCEL <==> Ids(displayed.items) == old(orderedItems[..selectedItems])
      ensures exit == IDCANCEL ==> orderedItems[..] == old(orderedItems[..]) && selectedItems == old(selectedItems)
      ensures exit == IDOK ==> orderedItems[..] == Ids(displayed.items) + Ids(available.items)
      ensures orderedItems[..selectedItems] == Ids(displayed.items)
    {
      PartitionIsPermutation(displayed.items, available.items, listSize);
      ghost var order := orderedItems[..];
      var displayCount := |displayed.items|;
      var modified := WriteDisplayed(orderedItems, displayed.items);
      if displayCount != selectedItems {
        modified := true;
        selectedItems := displayCount;
      }
      if !modified {
        assert order == order[..displayCount] + order[displayCount..];
        return IDCANCEL;
      }
      WriteAvailable(orderedItems, displayCount, available.items);
      return IDOK;
    }

    method OnButAdd()
      requires Valid() && Buttons()
      modifies this`butAdd, this`butOk, this`butRemove, this`butUp, this`butDown, displayed, available
      ensures Valid() && Buttons() && Acted(Add, old(Now()), Now())
    {
      if butAdd { MoveSelectedItems(available, displayed); } else { NothingMoves(available.items, displayed.items); }
    }

    method OnButRemove()
      requires Valid() && Buttons()
      modifies this`butAdd, this`butOk, this`butRemove, this`butUp, this`butDown, displayed, available
      ensures Valid() && Buttons() && Acted(Remove, old(Now()), Now())
    {
      if butRemove { MoveSelectedItems(displayed, available); } else { NothingMoves(displayed.items, available.items); }
    }

    method OnButUp()
      requires Valid() && Buttons()
      modifies this`butAdd, this`butOk, this`butRemove, this`butUp, this`butDown, displayed
      ensures Valid() && Buttons() && Acted(Up, old(Now()), Now())
    {
      if butUp { MoveItemVertical(-1); }
    }

    method OnButDown()
      requires Valid() && Buttons()
      modifies this`butAdd, this`butOk, this`butRemove, this`butUp, this`butDown, displayed
      ensures Valid() && Buttons() && Acted(Down, old(Now()), Now())
    {
      if butDown { MoveItemVertical(1); }
    }

    method OnDblclkListDisplayed()
      requires Valid() && Buttons()
      modifies this`butAdd, this`butOk, this`butRemove, this`butUp, this`butDown, displayed, available
      ensures Valid() && Buttons() && Acted(DblclkDisplayed, old(Now()), Now())
    {
      SomeSelected(displayed.items);
      if 0 < |Selected(displayed.items)| {
        MoveSelectedItems(displayed, available);
      } else {
        NothingMoves(displayed.items, available.items);
      }
    }

    method OnDblclkListAvailable()
      requires Valid() && Buttons()
      modifies this`butAdd, this`butOk, this`butRemove, this`butUp, this`butDown, displayed, available
      ensures Valid() && Buttons() && Acted(DblclkAvailable, old(Now()), Now())
    {
      SomeSelected(available.items);
      if 0 < |Selected(available.items)| {
        MoveSelectedItems(available, displayed);
      } else {
        NothingMoves(available.items, displayed.items);
      }
    }

    /** Any action that does not close the dialog. */
    method Act(action: Action)
      requires Valid() && Buttons() && !Closes(action, Now())
      modifies this`butAdd, this`butOk, this`butRemove, this`butUp, this`butDown, displayed, available
      ensures Valid() && Buttons() && Acted(action, old(Now()), Now())
    {
      match action
      case Add => OnButAdd();
      case Remove => OnButRemove();
      case Up => OnButUp();
      case Down => OnButDown();
      case SelectDisplayed(selection) => if |selection| == |displayed.items| { OnSelChange(displayed, selection); }
      case SelectAvailable(selection) => if |selection| == |available.items| { OnSelChange(available, selection); }
      case DblclkDisplayed => OnDblclkListDisplayed();
      case DblclkAvailable => OnDblclkListAvailable();
      case Ok =>
      case Cancel =>
    }

    /** The whole dialog, for any sequence of actions.  It gives up at once if the order is not a
        permutation.  Otherwise `run` is what the user has made of the lists, and decides what
        becomes of the array. */
    method DoModal(actions: seq<Action>) returns (exit: Exit, ghost run: seq<Lists>)
      requires orderedItems.Length == listSize && InRange(orderedItems[..])
      requires displayed != available && displayed.items == available.items == []
      modifies this, orderedItems, displayed, available
      ensures exit == IDABORT <==> !(old(selectedItems) <= listSize && IsPermutation(old(orderedItems[..])))
      ensures exit == IDABORT ==> orderedItems[..] == old(orderedItems[..]) && selectedItems == old(selectedItems)
      ensures exit != IDABORT ==> Valid() && IsSession(old(orderedItems[..]), old(selectedItems), actions, run)
      ensures exit != IDABORT ==>
        Ended(old(orderedItems[..]), old(selectedItems), actions, run, exit, orderedItems[..], selectedItems)
    {
      var ok := OnInitDialog();
      run := [Now()];
      if !ok {
        return IDABORT, run;
      }
      ghost var order, selected := orderedItems[..], selectedItems;
      for i := 0 to |actions|
        invariant Valid() && Buttons() && |run| == i + 1 && run[i] == Now()
        invariant orderedItems[..] == order && selectedItems == selected && IsSession(order, selected, actions, run)
      {
        var closed;
        closed, exit, run := OnAction(actions, i, order, selected, run);
        if closed {
          return;
        }
      }
      return IDCANCEL, run;
    }

    /** The next action of a session, and whether it closes the dialog. */
    method OnAction(actions: seq<Action>, i: nat, ghost order: seq<int>, ghost selected: nat, ghost run: seq<Lists>)
      returns (closed: bool, exit: Exit, ghost more: seq<Lists>)
      requires Valid() && Buttons() && i < |actions| && |run| == i + 1 && run[i] == Now()
      requires order == orderedItems[..] && selected == selectedItems && IsSession(order, selected, actions, run)
      modifies this, orderedItems, displayed, available
      ensures Valid() && IsSession(order, selected, actions, more)
      ensures closed ==> exit != IDABORT && Ended(order, selected, actions, more, exit, orderedItems[..], selectedItems)
      ensures !closed ==> Buttons() && |more| == i + 2 && more[i + 1] == Now() && orderedItems[..] == order && selectedItems == selected
    {
      closed, more := true, run;
      if actions[i] == Cancel {
        exit := IDCANCEL;
      } else if actions[i] == Ok && butOk {
        exit := OnOK();
      } else {
        closed, exit := false, IDCANCEL;
        more := OnOther(actions, i, order, selected, run);
      }
    }

    /** The next action, if it does not close the dialog. */
    method OnOther(actions: seq<Action>, i: nat, ghost order: seq<int>, ghost selected: nat, ghost run: seq<Lists>)
      returns (ghost more: seq<Lists>)
      requires Valid() && Buttons() && i < |actions| && |run| == i + 1 && run[i] == Now()
      requires IsSession(order, selected, actions, run) && !Closes(actions[i], Now())
      modifies this`butAdd, this`butOk, this`butRemove, this`butUp, this`butDown, displayed, available
      ensures Valid() && Buttons() && IsSession(order, selected, actions, more) && |more| == i + 2 && more[i + 1] == Now()
    {
      Act(actions[i]);
      SessionGoesOn(order, selected, actions, run, Now());
      more := run + [Now()];
    }
  }

  /** Without a selected item moving the selected items changes nothing. */
  lemma NothingMoves(listFrom: seq<Item>, listTo: seq<Item>)
    requires FirstSelected(listFrom) == |listFrom|
    ensures Moved(listFrom, listTo, listFrom, listTo)
  {
    SomeSelected(listFrom);
    NoneSelected(listFrom);
  }

  // ---------------------------------------------------------------- one selected item

  ghost predicate OnlySelected(items: seq<Item>, i: int) {
    0 <= i < |items| && forall k | 0 <= k < |items| :: items[k].selected <==> k == i
  }

  /** A single item is selected and can go `step` places down. */
  ghost predicate Movable(items: seq<Item>, step: int) {
    OnlySelected(items, FirstSelected(items)) && 0 <= FirstSelected(items) + step < |items|
  }

  /** The only selected item of `a`, at `i`, and the one at `j` have changed places. */
  ghost predicate Swapped(a: seq<Item>, b: seq<Item>, i: int, j: int) {
    OnlySelected(a, i) && 0 <= j < |a| && b == a[i := a[j]][j := a[i]]
  }

  lemma {:induction false} OneSelected(items: seq<Item>)
    ensures |Selected(items)| == 1 <==> OnlySelected(items, FirstSelected(items))
  {
    var i := FirstSelected(items);
    SomeSelected(items);
    if i < |items| {
      var rest := C.Remove(items, i);
      TakeSelected(items, rest, i);
      assert forall k | 0 <= k < |rest| :: rest[k] == items[if k < i then k else k + 1];
      SomeSelected(rest);
      if FirstSelected(rest) < |rest| {
        var k := FirstSelected(rest);
        assert items[if k < i then k else k + 1].selected;
      } else {
        forall k | 0 <= k < |items| && k != i ensures !items[k].selected {
          assert items[k] == rest[if k < i then k else k - 1];
        }
      }
    }
  }

  /** Taken out and put back one place further, an item changes places with its neighbour. */
  lemma MoveIsSwap(items: seq<Item>, i: nat, j: nat)
    requires i < |items| && j < |items| && (j == i + 1 || i == j + 1) && OnlySelected(items, i)
    ensures var rest := C.Remove(items, i);
      var moved := rest[..j] + [Item(items[i].id, false)] + rest[j..];
      var r := moved[j := moved[j].(selected := true)];
      r == items[i := items[j]][j := items[i]] && OnlySelected(r, j)
  {
    var rest := C.Remove(items, i);
    var moved := rest[..j] + [Item(items[i].id, false)] + rest[j..];
    var r := moved[j := moved[j].(selected := true)];
    var k := if i < j then i else j;
    assert r[..k] == items[..k] && r[k + 2..] == items[k + 2..];
    assert r == items[i := items[j]][j := items[i]];
  }

  lemma SwappedIds(items: seq<Item>, i: nat, j: nat)
    requires i < |items| && j < |items|
    ensures multiset(Ids(items[i := items[j]][j := items[i]])) == multiset(Ids(items))
  {
    assert Ids(items[i := items[j]][j := items[i]]) == Ids(items)[i := Ids(items)[j]][j := Ids(items)[i]];
  }
}
