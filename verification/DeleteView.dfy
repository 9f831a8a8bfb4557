/**
 The delete command of a list view, with the messages of its folders and the operations offered
 on the selection.  The loop is proved equal to DeleteRuns.
 */
module DeleteView {
  import opened Collections
  import opened SortedList
  import opened SortedRows
  import opened DeleteRuns
  import C = SelectionCache

  /** The rows as the cache of operations sees them. */
  function RowsOf<T>(operations: T -> C.Ops, v: View<T>): (rows: seq<C.Row>)
    requires Live(v)
    ensures |rows| == |v.lines|
  {
    seq(|v.lines|, i requires 0 <= i < |v.lines| => C.Row(operations(v.messages[v.lines[i].msg]), v.lines[i].selected))
  }

  /** GetSelectedCount counts the selected messages. */
  lemma CountIsSelected<T>(operations: T -> C.Ops, v: View<T>)
    requires Live(v) && Distinct(v.lines)
    ensures C.Count(RowsOf(operations, v)) == |SelectedMsgs(v.lines)|
  {
    CountPrefix(operations, v, |v.lines|);
    assert v.lines[..|v.lines|] == v.lines;
    assert RowsOf(operations, v)[..|v.lines|] == RowsOf(operations, v);
  }

  lemma {:induction false} CountPrefix<T>(operations: T -> C.Ops, v: View<T>, n: nat)
    requires Live(v) && Distinct(v.lines) && n <= |v.lines|
    ensures C.Count(RowsOf(operations, v)[..n]) == |SelectedMsgs(v.lines[..n])|
  {
    var rows := RowsOf(operations, v);
    if n == 0 {
      assert SelectedMsgs(v.lines[..0]) == {};
    } else {
      CountPrefix(operations, v, n - 1);
      assert rows[..n][..n - 1] == rows[..n - 1];
      var front, line := v.lines[..n - 1], v.lines[n - 1];
      assert Insert(front, n - 1, line) == v.lines[..n];
      SelectedOfInsert(front, n - 1, line);
      assert line.msg !in SelectedMsgs(front);
    }
  }

  class CFolderListView<T(!new,==)> {
    const cols: Columns<T>
    const operations: T -> C.Ops        // of a message, cut down by its server
    var view: View<T>
    var cache: C.Cache                  // mask and counters
    var inMultiItemsOperation: bool
    var jobOpCancel: bool
    var freed: seq<Ptr>
    var deleted: seq<Ptr>

    function Now(): Progress<T>
      reads this
    {
      Progress(view, freed, deleted, jobOpCancel)
    }

    ghost predicate Valid()
      reads this
    {
      Comparable(cols) && Good(Now())
    }

    ghost predicate Recalculated()
      reads this
      requires Live(view)
    {
      cache == C.Recalc(RowsOf(operations, view))
    }

    /** Neither messages nor cache have changed since the method began. */
    twostate predicate Unchanged()
      reads this
    {
      Now() == old(Now()) && cache == old(cache)
    }

    method RecalcPossibleOperations()
      requires Live(view)
      modifies this`cache
      ensures Recalculated()
    {
      cache := C.Recalc(RowsOf(operations, view));
    }

    /** CFolder::OnJobRemoved and what it makes the view do. */
    method OnJobRemoved(msg: Ptr)
      requires Valid()
      modifies this`view, this`cache, this`freed
      ensures Valid() && Now() == JobRemoved(old(Now()), msg)
      ensures !inMultiItemsOperation && msg in old(view.messages) ==> Recalculated()
    {
      JobRemovedGood(Now(), msg);
      if msg !in view.messages {
        return;
      }
      var index := FindItem(view.lines, msg);
      if index < |view.lines| {
        view := view.(lines := Remove(view.lines, index));
      }
      view := view.(messages := view.messages - {msg});
      freed := freed + [msg];
      if !inMultiItemsOperation {
        RecalcPossibleOperations();
      }
    }

    method OnJobAdded(msg: Ptr, x: T)
      requires Valid()
      modifies this`view
      ensures Valid() && Now() == JobAdded(cols, old(Now()), msg, x)
    {
      CameGood(cols, Now(), msg, x);
      if msg !in view.messages && msg !in freed {
        view := Changed(view, msg, x);
        view := Added(cols, view, msg);
      }
    }

    method OnJobUpdated(msg: Ptr, x: T)
      requires Valid()
      modifies this`view
      ensures Valid() && Now() == JobUpdated(cols, old(Now()), msg, x)
    {
      DiffersGood(cols, Now(), msg, x);
      if msg in view.messages {
        view := Updated(cols, Changed(view, msg, x), msg);
      } else {
        OnJobAdded(msg, x);
      }
    }

    /** One message of a chunk: a row at the end of the list. */
    method OnFolderAddChunk(msg: Ptr, x: T)
      requires Valid()
      modifies this`view
      ensures Valid() && Now() == RowAppended(old(Now()), msg, x)
    {
      AppendedGood(Now(), msg, x);
      if msg !in freed && FindItem(view.lines, msg) == |view.lines| {
        view := Changed(view, msg, x).(lines := view.lines + [Line(msg, x, false)]);
      }
    }

    /** `lines` is what the list control makes of DoSort. */
    method OnFolderRefreshEnded(lines: seq<Line<T>>)
      requires Valid()
      modifies this`view
      ensures Valid() && Now() == RowsSorted(cols, old(Now()), lines)
    {
      RefreshedGood(cols, Now(), lines);
      var w := view.(lines := lines);
      if view.sortedCol >= 0 && IsSort(cols, view, w) {
        view := w;
      }
    }

    /** What the handler of one report does. */
    method Dispatch(report: Report<T>)
      requires Valid()
      modifies this`view, this`cache, this`freed, this`jobOpCancel
      ensures Valid() && Now() == Reported(cols, old(Now()), report)
    {
      ReportedGood(cols, Now(), report);
      match report {
        case Gone(msg) => OnJobRemoved(msg);
        case Came(msg, x) => OnJobAdded(msg, x);
        case Differs(msg, x) => OnJobUpdated(msg, x);
        case Appended(msg, x) => OnFolderAddChunk(msg, x);
        case Refreshed(lines) => OnFolderRefreshEnded(lines);
        case CancelPressed => jobOpCancel := true;
      }
    }

    /** The reports that are dispatched while the progress bar moves on. */
    method JobOpProgressDlgInc(reports: seq<Report<T>>)
      requires Valid() && inMultiItemsOperation
      modifies this`view, this`cache, this`freed, this`jobOpCancel
      ensures Valid() && Now() == Pumped(cols, old(Now()), reports)
    {
      ghost var s := Now();
      for i := 0 to |reports|
        invariant Valid() && Now() == Pumped(cols, s, reports[..i])
      {
        assert reports[..i + 1][..i] == reports[..i];
        Dispatch(reports[i]);
      }
      assert reports[..|reports|] == reports;
    }

    /** The delete command: asks, deletes the first selected message until there is none or as
        many have been deleted as were selected.  Whatever the cache of operations was before, it
        is the recalculated one at the end, or else nothing has changed at all. */
    method OnFolderItemDelete(confirm: bool, answers: nat -> bool, pump: nat -> seq<Report<T>>)
      returns (ok: bool, ghost turns: nat)
      requires Valid() && !inMultiItemsOperation && !jobOpCancel
      modifies this
      ensures Valid() && !inMultiItemsOperation && !jobOpCancel
      ensures confirm && |SelectedMsgs(old(view.lines))| > 1 ==> Recalculated()
      ensures Recalculated() || Unchanged()
      ensures !confirm ==> ok && Now() == old(Now())
      ensures confirm ==>
        var r := Deleting(cols, old(Now()), 0, |SelectedMsgs(old(view.lines))|, answers, pump);
        Now() == r.0.(cancel := false) && ok == r.1
      ensures old(deleted) <= deleted && turns == |deleted| - |old(deleted)|
      ensures confirm ==> StopsAfter(turns, |SelectedMsgs(old(view.lines))|, answers, pump, SelectedMsgs(view.lines) == {}, ok)
    {
      if !confirm {
        return true, 0;
      }
      var selected := C.Count(RowsOf(operations, view));
      CountIsSelected(operations, view);
      if selected == 0 {
        assert SelectedMsgs(view.lines) == {};
        return true, 0;
      }
      ok, turns := DeleteSelected(selected, answers, pump);
    }

    method DeleteSelected(selected: nat, answers: nat -> bool, pump: nat -> seq<Report<T>>) returns (ok: bool, ghost turns: nat)
      requires Valid() && !inMultiItemsOperation && !jobOpCancel
      modifies this`view, this`cache, this`freed, this`deleted, this`jobOpCancel, this`inMultiItemsOperation
      ensures Valid() && !inMultiItemsOperation && !jobOpCancel
      ensures selected > 1 ==> Recalculated()
      ensures Recalculated() || Unchanged()
      ensures Now() == Deleting(cols, old(Now()), 0, selected, answers, pump).0.(cancel := false)
      ensures ok == Deleting(cols, old(Now()), 0, selected, answers, pump).1
      ensures old(deleted) <= deleted && turns == |deleted| - |old(deleted)|
      ensures StopsAfter(turns, selected, answers, pump, SelectedMsgs(view.lines) == {}, ok)
    {
      ghost var r := Deleting(cols, Now(), 0, selected, answers, pump);
      turns := DeletesUntilStopped(cols, Now(), selected, answers, pump, r);
      if selected > 1 {
        inMultiItemsOperation := true;
      }
      ok := DeleteLoop(selected, answers, pump);
      if inMultiItemsOperation {
        EndMultiItemsOperation();
      }
    }

    method EndMultiItemsOperation()
      requires Valid()
      modifies this`jobOpCancel, this`inMultiItemsOperation, this`cache
      ensures !inMultiItemsOperation && !jobOpCancel && Recalculated()
    {
      jobOpCancel := false;
      inMultiItemsOperation := false;
      RecalcPossibleOperations();
    }

    /** The rest of a turn, once the server has deleted the message of row `index`. */
    method DeleteTurn(index: nat, item: nat, selected: nat, pump: nat -> seq<Report<T>>)
      requires Valid() && (inMultiItemsOperation <==> selected > 1) && index == FirstSelected(view.lines) < |view.lines|
      modifies this`view, this`cache, this`freed, this`deleted, this`jobOpCancel
      ensures Valid() && Now() == Turn(cols, old(Now()), item, selected, pump)
      ensures inMultiItemsOperation || Recalculated()
      ensures selected <= 1 ==> jobOpCancel == old(jobOpCancel)
    {
      ghost var s := Now();
      var msg := view.lines[index].msg;
      OnJobRemoved(msg);
      deleted := deleted + [msg];
      assert Now() == DeleteFirst(s);
      if inMultiItemsOperation {
        JobOpProgressDlgInc(pump(item));
      }
    }

    /** A round of the loop that is to end with `r`: whether it goes on, and if not, whether that
        was an error. */
    method DeleteNext(item: nat, selected: nat, answers: nat -> bool, pump: nat -> seq<Report<T>>, ghost r: (Progress<T>, bool))
      returns (goOn: bool, ok: bool)
      requires Valid() && (inMultiItemsOperation <==> selected > 1)
      requires (selected <= 1 ==> !jobOpCancel) && r == Deleting(cols, Now(), item, selected, answers, pump)
      modifies this`view, this`cache, this`freed, this`deleted, this`jobOpCancel
      ensures Valid() && (selected <= 1 ==> !jobOpCancel)
      ensures inMultiItemsOperation || Recalculated() || Unchanged()
      ensures goOn ==> ok && item < selected && r == Deleting(cols, Now(), item + 1, selected, answers, pump)
      ensures !goOn ==> r == (Now(), ok)
    {
      var index := FirstSelected(view.lines);
      if item >= selected || jobOpCancel || index == |view.lines| {
        return false, true;
      }
      if !answers(item) {
        return false, false;
      }
      DeleteTurn(index, item, selected, pump);
      return true, true;
    }

    method DeleteLoop(selected: nat, answers: nat -> bool, pump: nat -> seq<Report<T>>) returns (ok: bool)
      requires Valid() && (inMultiItemsOperation <==> selected > 1)
      requires selected <= 1 ==> !jobOpCancel
      modifies this`view, this`cache, this`freed, this`deleted, this`jobOpCancel
      ensures Valid() && (inMultiItemsOperation || Recalculated() || Unchanged())
      ensures Now() == Deleting(cols, old(Now()), 0, selected, answers, pump).0
      ensures ok == Deleting(cols, old(Now()), 0, selected, answers, pump).1
      ensures selected <= 1 ==> !jobOpCancel
    {
      ghost var r := Deleting(cols, Now(), 0, selected, answers, pump);
      ok := true;
      var item, goOn := 0, true;
      while goOn
        invariant Valid() && 0 <= item <= selected
        invariant inMultiItemsOperation || Recalculated() || Unchanged()
        invariant if goOn then ok && r == Deleting(cols, Now(), item, selected, answers, pump) else r == (Now(), ok)
        invariant selected <= 1 ==> !jobOpCancel
        decreases selected - item, goOn
      {
        goOn, ok := DeleteNext(item, selected, answers, pump, r);
        if goOn {
          item := item + 1;
        }
      }
    }
  }
}
