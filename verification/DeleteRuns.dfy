/**
 Deleting the selected messages one by one.  Between two deletions the progress dialog pumps
 messages, so a server may report that a message is gone, has come or has changed.
 */
module DeleteRuns {
  import opened Collections
  import opened SortedList
  import opened SortedRows

  /** What may come in at the pump.  A server reports that a message is gone, has come or has
      changed.  A build thread that goes on meanwhile appends its chunks message by message, and
      ends with a sort, or with its messages gone.  The user may press Cancel. */
  datatype Report<T> =
    | Gone(msg: Ptr)
    | Came(msg: Ptr, x: T)
    | Differs(msg: Ptr, x: T)
    | Appended(msg: Ptr, x: T)
    | Refreshed(lines: seq<Line<T>>)   // as the list control sorts them
    | CancelPressed

  /** The view with its messages, the messages freed so far, and those the user's command has
      deleted on a server. */
  datatype Progress<T> = Progress(view: View<T>, freed: seq<Ptr>, deleted: seq<Ptr>, cancel: bool)

  /** GetNextItem(-1): the first selected row, or the number of rows. */
  function FirstSelected<T>(lines: seq<Line<T>>): (i: nat)
    ensures i <= |lines| && (i < |lines| ==> lines[i].selected)
    ensures forall k | 0 <= k < i :: !lines[k].selected
  {
    FirstIndex(lines, (line: Line<T>) => line.selected)
  }

  ghost function SelectedMsgs<T>(lines: seq<Line<T>>): set<Ptr> {
    set k | 0 <= k < |lines| && lines[k].selected :: lines[k].msg
  }

  /** CFolder::OnJobRemoved: the row goes, then the map entry, then the message. */
  function JobRemoved<T>(s: Progress<T>, msg: Ptr): Progress<T> {
    if msg in s.view.messages then
      var w := Removed(s.view, msg);
      s.(view := w.(messages := w.messages - {msg}), freed := s.freed + [msg])
    else s
  }

  /** OnJobAdded: a message that is known already is ignored. */
  function JobAdded<T>(cols: Columns<T>, s: Progress<T>, msg: Ptr, x: T): Progress<T>
    requires Ok(s.view)
  {
    if msg in s.view.messages || msg in s.freed then s
    else s.(view := Added(cols, Changed(s.view, msg, x), msg))
  }

  /** OnJobUpdated: a message that is not known is added. */
  function JobUpdated<T>(cols: Columns<T>, s: Progress<T>, msg: Ptr, x: T): Progress<T>
    requires Ok(s.view)
  {
    if msg in s.view.messages then s.(view := Updated(cols, Changed(s.view, msg, x), msg))
    else JobAdded(cols, s, msg, x)
  }

  /** OnFolderAddChunk, for one message of the chunk: a row at the end. */
  function RowAppended<T>(s: Progress<T>, msg: Ptr, x: T): Progress<T> {
    var v := s.view;
    if msg in s.freed || FindItem(v.lines, msg) < |v.lines| then s
    else s.(view := Changed(v, msg, x).(lines := v.lines + [Line(msg, x, false)]))
  }

  /** OnFolderRefreshEnded: DoSort, whose outcome is up to the list control. */
  function RowsSorted<T(==)>(cols: Columns<T>, s: Progress<T>, lines: seq<Line<T>>): Progress<T> {
    var w := s.view.(lines := lines);
    if s.view.sortedCol >= 0 && IsSort(cols, s.view, w) then s.(view := w) else s
  }

  function Reported<T(==)>(cols: Columns<T>, s: Progress<T>, r: Report<T>): Progress<T>
    requires Ok(s.view)
  {
    match r
    case Gone(msg) => JobRemoved(s, msg)
    case Came(msg, x) => JobAdded(cols, s, msg, x)
    case Differs(msg, x) => JobUpdated(cols, s, msg, x)
    case Appended(msg, x) => RowAppended(s, msg, x)
    case Refreshed(lines) => RowsSorted(cols, s, lines)
    case CancelPressed => s.(cancel := true)
  }

  // ---------------------------------------------------------------- freeing

  ghost function Freed<T>(s: Progress<T>): set<Ptr> { set k | 0 <= k < |s.freed| :: s.freed[k] }

  /** No message is freed twice or while it is in a map, and what was deleted was freed. */
  ghost predicate Good<T>(s: Progress<T>) {
    && Ok(s.view)
    && (forall i, j | 0 <= i < j < |s.freed| :: s.freed[i] != s.freed[j])
    && Freed(s) !! s.view.messages.Keys
    && (forall i | 0 <= i < |s.deleted| :: s.deleted[i] in Freed(s))
  }

  /** The messages there are or have been. */
  ghost function All<T>(s: Progress<T>): set<Ptr> { s.view.messages.Keys + Freed(s) }

  lemma SelectedOfRemove<T>(lines: seq<Line<T>>, i: nat)
    requires Distinct(lines) && i < |lines|
    ensures SelectedMsgs(Remove(lines, i)) == SelectedMsgs(lines) - {lines[i].msg}
  {
    var w := Remove(lines, i);
    forall k | 0 <= k < |w| ensures w[k].msg != lines[i].msg && (w[k].selected ==> w[k].msg in SelectedMsgs(lines)) {
      assert w[k] == lines[if k < i then k else k + 1];
    }
    forall k | 0 <= k < |lines| && k != i && lines[k].selected ensures lines[k].msg in SelectedMsgs(w) {
      assert w[if k < i then k else k - 1] == lines[k];
    }
  }

  lemma RemovedOk<T>(v: View<T>, msg: Ptr)
    requires Ok(v)
    ensures var w := Removed(v, msg);
      Ok(w.(messages := w.messages - {msg})) && SelectedMsgs(w.lines) == SelectedMsgs(v.lines) - {msg}
  {
    var i := FindItem(v.lines, msg);
    NotFound(v.lines, msg);
    var w := Removed(v, msg);
    if i < |v.lines| {
      RemoveRow(v.lines, i);
      SelectedOfRemove(v.lines, i);
      KeysOfRemove(v, i);
      assert forall k | 0 <= k < |w.lines| :: w.lines[k] == v.lines[if k < i then k else k + 1];
    } else {
      assert SelectedMsgs(v.lines) <= Msgs(v.lines);
    }
    assert forall k | 0 <= k < |w.lines| :: w.lines[k].msg in Msgs(w.lines);
  }

  lemma JobRemovedGood<T>(s: Progress<T>, msg: Ptr)
    requires Good(s)
    ensures var r := JobRemoved(s, msg);
      && Good(r) && All(r) == All(s)
      && (msg in s.view.messages ==> SelectedMsgs(r.view.lines) == SelectedMsgs(s.view.lines) - {msg})
      && (msg in s.view.messages ==> Freed(r) == Freed(s) + {msg})
  {
    RemovedOk(s.view, msg);
    var r := JobRemoved(s, msg);
    if msg in s.view.messages {
      assert r.freed == s.freed + [msg];
      assert forall k | 0 <= k < |s.freed| :: r.freed[k] == s.freed[k];
      assert r.freed[|s.freed|] == msg;
      assert Freed(r) == Freed(s) + {msg};
    }
  }

  // ---------------------------------------------------------------- selection

  /** Where the row at `i` goes when it is moved. */
  ghost function NewIndex<T>(cols: Columns<T>, w: View<T>, i: nat): nat
    requires Live(w) && w.sortedCol >= -1 && i < |w.lines|
  {
    IndexFor(cols, w.(lines := Remove(w.lines, i)), w.lines[i].msg)
  }

  /** A selected row that has to be moved comes back to its place, or gives it to a neighbour
      that is selected, too. */
  ghost predicate TameAt<T>(cols: Columns<T>, w: View<T>, i: nat)
    requires Live(w) && w.sortedCol >= -1 && i < |w.lines|
  {
    w.lines[i].selected && w.sortedCol >= 0 && TextChanges(cols, w, i) ==>
      var j := NewIndex(cols, w, i);
      j == i || w.lines[if j > i then i + 1 else i - 1].selected
  }

  ghost predicate Tame<T>(cols: Columns<T>, s: Progress<T>, r: Report<T>)
    requires Ok(s.view)
  {
    r.Differs? && r.msg in s.view.messages && FindItem(s.view.lines, r.msg) < |s.view.lines| ==>
      TameAt(cols, Changed(s.view, r.msg, r.x), FindItem(s.view.lines, r.msg))
  }

  /** Who is at the old index after a move. */
  lemma TakesPlace<T>(cols: Columns<T>, w: View<T>, i: nat)
    requires Live(w) && w.sortedCol >= 0 && i < |w.lines| && TextChanges(cols, w, i)
    ensures NewIndex(cols, w, i) < |w.lines| == |UpdatedAt(cols, w, i).lines|
    ensures var j, r := NewIndex(cols, w, i), UpdatedAt(cols, w, i);
      r.lines[i].msg == w.lines[if j == i then i else if j > i then i + 1 else i - 1].msg
  {
    var rest, j := Remove(w.lines, i), NewIndex(cols, w, i);
    RemovedAt(w.lines, i);
    InsertedAt(rest, j, Line(w.lines[i].msg, w.messages[w.lines[i].msg], false));
  }

  lemma SelectedOfInsert<T>(lines: seq<Line<T>>, i: nat, line: Line<T>)
    requires i <= |lines|
    ensures SelectedMsgs(Insert(lines, i, line)) == SelectedMsgs(lines) + (if line.selected then {line.msg} else {})
  {
    var w := Insert(lines, i, line);
    InsertedAt(lines, i, line);
    forall k | 0 <= k < |w| && k != i && w[k].selected ensures w[k].msg in SelectedMsgs(lines) {
      assert w[k] == lines[if k < i then k else k - 1];
    }
    forall k | 0 <= k < |lines| && lines[k].selected ensures lines[k].msg in SelectedMsgs(w) {
      assert w[if k < i then k else k + 1] == lines[k];
    }
  }

  lemma SelectedOfChoose<T>(lines: seq<Line<T>>, i: nat, on: bool, x: T)
    requires i < |lines| && (lines[i].selected ==> on)
    ensures SelectedMsgs(lines[i := lines[i].(selected := on, shown := x)]) == SelectedMsgs(lines) + (if on then {lines[i].msg} else {})
  {
    var w := lines[i := lines[i].(selected := on, shown := x)];
    assert w[i].msg == lines[i].msg && w[i].selected == on;
    assert forall k | 0 <= k < |lines| && k != i :: w[k] == lines[k];
    forall p ensures p in SelectedMsgs(w) <==> p in SelectedMsgs(lines) + (if on then {lines[i].msg} else {}) {
      if p in SelectedMsgs(lines) {
        var k :| 0 <= k < |lines| && lines[k].selected && lines[k].msg == p;
        assert w[k].selected && w[k].msg == p;
      }
    }
  }

  /** What a move selects: of a selected row, the one at the old index; of another, nothing. */
  lemma SelectedOfMove<T>(cols: Columns<T>, w: View<T>, i: nat)
    requires Live(w) && Distinct(w.lines) && w.sortedCol >= 0 && i < |w.lines| && TextChanges(cols, w, i)
    ensures var r := UpdatedAt(cols, w, i);
      && |r.lines| == |w.lines|
      && SelectedMsgs(r.lines) == SelectedMsgs(w.lines) - {w.lines[i].msg} + (if w.lines[i].selected then {r.lines[i].msg} else {})
  {
    var line := w.lines[i];
    var rest := w.(lines := Remove(w.lines, i));
    var j := IndexFor(cols, rest, line.msg);
    var ins := Insert(rest.lines, j, Line(line.msg, w.messages[line.msg], false));
    SelectedOfRemove(w.lines, i);
    SelectedOfInsert(rest.lines, j, Line(line.msg, w.messages[line.msg], false));
    if line.selected { SelectedOfChoose(ins, i, true, ins[i].shown); }
  }

  /** What an update selects: nothing new, but the row at the old index of a moved one. */
  lemma SelectedOfUpdate<T>(cols: Columns<T>, w: View<T>, i: nat)
    requires Live(w) && Distinct(w.lines) && w.sortedCol >= -1 && i < |w.lines|
    ensures |UpdatedAt(cols, w, i).lines| == |w.lines|
    ensures var moved := w.sortedCol >= 0 && TextChanges(cols, w, i) && w.lines[i].selected; var r := UpdatedAt(cols, w, i);
      && (moved ==> SelectedMsgs(r.lines) == SelectedMsgs(w.lines) - {w.lines[i].msg} + {r.lines[i].msg})
      && (!moved ==> SelectedMsgs(r.lines) == SelectedMsgs(w.lines))
  {
    if w.sortedCol >= 0 && TextChanges(cols, w, i) {
      SelectedOfMove(cols, w, i);
      NotSelected(w.lines, i);
    } else {
      SelectedOfChoose(w.lines, i, w.lines[i].selected, w.messages[w.lines[i].msg]);
    }
  }

  lemma NotSelected<T>(lines: seq<Line<T>>, i: nat)
    requires Distinct(lines) && i < |lines|
    ensures lines[i].msg in SelectedMsgs(lines) <==> lines[i].selected
  {}

  // ---------------------------------------------------------------- reports

  lemma ReportedGood<T(!new)>(cols: Columns<T>, s: Progress<T>, r: Report<T>)
    requires Comparable(cols) && Good(s)
    ensures var t := Reported(cols, s, r);
      Good(t) && All(s) <= All(t) && Freed(s) <= Freed(t) && t.deleted == s.deleted && t.view.sortedCol == s.view.sortedCol
  {
    match r
    case Gone(msg) => JobRemovedGood(s, msg);
    case Came(msg, x) => CameGood(cols, s, msg, x);
    case Differs(msg, x) => DiffersGood(cols, s, msg, x);
    case Appended(msg, x) => AppendedGood(s, msg, x);
    case Refreshed(lines) => RefreshedGood(cols, s, lines);
    case CancelPressed =>
  }

  lemma CameGood<T>(cols: Columns<T>, s: Progress<T>, msg: Ptr, x: T)
    requires Good(s)
    ensures var t := JobAdded(cols, s, msg, x); Good(t) && All(s) <= All(t)
  {
    if msg !in s.view.messages && msg !in s.freed {
      var w := Changed(s.view, msg, x);
      NewMessageOk(s.view, msg, x);
      AddedOk(cols, w, msg);
      assert Added(cols, w, msg).messages.Keys == s.view.messages.Keys + {msg};
    }
  }

  /** A message without a row may be anything. */
  lemma NewMessageOk<T>(v: View<T>, msg: Ptr, x: T)
    requires Ok(v) && msg !in Msgs(v.lines)
    ensures Ok(Changed(v, msg, x))
  {
    assert forall k | 0 <= k < |v.lines| :: v.lines[k].msg in Msgs(v.lines);
  }

  lemma DiffersGood<T(!new)>(cols: Columns<T>, s: Progress<T>, msg: Ptr, x: T)
    requires Comparable(cols) && Good(s)
    ensures var t := JobUpdated(cols, s, msg, x); Good(t) && All(s) <= All(t)
  {
    if msg in s.view.messages {
      var w := Changed(s.view, msg, x);
      var t := Updated(cols, w, msg);
      ChangedOk(cols, s.view, msg, x);
      assert t.messages == w.messages && w.messages.Keys == s.view.messages.Keys;
    } else {
      CameGood(cols, s, msg, x);
    }
  }

  lemma AppendedGood<T>(s: Progress<T>, msg: Ptr, x: T)
    requires Good(s)
    ensures var t := RowAppended(s, msg, x);
      Good(t) && All(s) <= All(t) && SelectedMsgs(t.view.lines) == SelectedMsgs(s.view.lines)
  {
    var v, line := s.view, Line(msg, x, false);
    if msg !in s.freed && FindItem(v.lines, msg) == |v.lines| {
      var t := RowAppended(s, msg, x);
      NotFound(v.lines, msg);
      NewMessageOk(v, msg, x);
      assert t.view.lines == Insert(v.lines, |v.lines|, line);
      InsertRow(v.lines, |v.lines|, line);
      SelectedOfInsert(v.lines, |v.lines|, line);
      AppendedOk(v, msg, x);
    }
  }

  lemma AppendedOk<T>(v: View<T>, msg: Ptr, x: T)
    requires Ok(Changed(v, msg, x)) && Distinct(v.lines + [Line(msg, x, false)])
    ensures Ok(Changed(v, msg, x).(lines := v.lines + [Line(msg, x, false)]))
  {}

  lemma RefreshedGood<T(!new)>(cols: Columns<T>, s: Progress<T>, lines: seq<Line<T>>)
    requires Comparable(cols) && Good(s)
    ensures var t := RowsSorted(cols, s, lines);
      Good(t) && All(s) <= All(t) && SelectedMsgs(t.view.lines) == SelectedMsgs(s.view.lines)
  {
    var w := s.view.(lines := lines);
    if s.view.sortedCol >= 0 && IsSort(cols, s.view, w) {
      SortPutsInOrder(cols, s.view, w);
      SelectedOfSort(s.view.lines, lines);
    }
  }

  lemma SelectedOfSort<T>(a: seq<Line<T>>, b: seq<Line<T>>)
    requires (forall k | 0 <= k < |a| :: a[k] in b) && (forall k | 0 <= k < |b| :: b[k] in a)
    ensures SelectedMsgs(a) == SelectedMsgs(b)
  {
    forall k | 0 <= k < |a| && a[k].selected ensures a[k].msg in SelectedMsgs(b) { assert a[k] in b; }
    forall k | 0 <= k < |b| && b[k].selected ensures b[k].msg in SelectedMsgs(a) { assert b[k] in a; }
  }

  lemma ChangedOk<T(!new)>(cols: Columns<T>, v: View<T>, msg: Ptr, x: T)
    requires Comparable(cols) && Ok(v) && msg in v.messages
    ensures Live(Changed(v, msg, x)) && Ok(Updated(cols, Changed(v, msg, x), msg))
  {
    var i := FindItem(v.lines, msg);
    if i < |v.lines| {
      UpdatedOk(cols, v, x, i);
    } else {
      NotFound(v.lines, msg);
      assert forall k | 0 <= k < |v.lines| :: v.lines[k].msg in Msgs(v.lines);
    }
  }

  lemma TameUpdate<T>(cols: Columns<T>, v: View<T>, x: T, i: nat)
    requires Ok(v) && i < |v.lines|
    ensures Live(Changed(v, v.lines[i].msg, x))
    ensures var w := Changed(v, v.lines[i].msg, x);
      SelectedMsgs(UpdatedAt(cols, w, i).lines) <= SelectedMsgs(v.lines) <==> TameAt(cols, w, i)
  {
    var w := Changed(v, v.lines[i].msg, x);
    SelectedOfUpdate(cols, w, i);
    if v.sortedCol >= 0 && TextChanges(cols, w, i) {
      TakesPlace(cols, w, i);
      var j := NewIndex(cols, w, i);
      NotSelected(v.lines, if j == i then i else if j > i then i + 1 else i - 1);
    }
  }

  lemma CameSelects<T>(cols: Columns<T>, s: Progress<T>, msg: Ptr, x: T)
    requires Good(s)
    ensures SelectedMsgs(JobAdded(cols, s, msg, x).view.lines) == SelectedMsgs(s.view.lines)
  {
    if msg !in s.view.messages && msg !in s.freed {
      var w := Changed(s.view, msg, x);
      SelectedOfInsert(w.lines, IndexFor(cols, w, msg), Line(msg, x, false));
    }
  }

  /** A report selects a message that was not selected if and only if it is not tame. */
  lemma TameIff<T(!new)>(cols: Columns<T>, s: Progress<T>, r: Report<T>)
    requires Comparable(cols) && Good(s)
    ensures SelectedMsgs(Reported(cols, s, r).view.lines) <= SelectedMsgs(s.view.lines) <==> Tame(cols, s, r)
  {
    match r
    case Gone(msg) => JobRemovedGood(s, msg);
    case Came(msg, x) => CameSelects(cols, s, msg, x);
    case Differs(msg, x) => TameDiffers(cols, s, msg, x);
    case Appended(msg, x) => AppendedGood(s, msg, x);
    case Refreshed(lines) => RefreshedGood(cols, s, lines);
    case CancelPressed =>
  }

  lemma TameDiffers<T(!new)>(cols: Columns<T>, s: Progress<T>, msg: Ptr, x: T)
    requires Comparable(cols) && Good(s)
    ensures SelectedMsgs(JobUpdated(cols, s, msg, x).view.lines) <= SelectedMsgs(s.view.lines) <==>
      Tame(cols, s, Differs(msg, x))
  {
    var i := FindItem(s.view.lines, msg);
    if msg !in s.view.messages {
      CameSelects(cols, s, msg, x);
    } else if i < |s.view.lines| {
      TameUpdate(cols, s.view, x, i);
    }
  }

  // ---------------------------------------------------------------- the loop

  /** The reports that come in at one pump. */
  ghost function Pumped<T(!new)>(cols: Columns<T>, s: Progress<T>, reports: seq<Report<T>>): (t: Progress<T>)
    requires Comparable(cols) && Good(s)
    ensures Good(t)
  {
    if reports == [] then s
    else
      var n := |reports| - 1;
      ReportedGood(cols, Pumped(cols, s, reports[..n]), reports[n]);
      Reported(cols, Pumped(cols, s, reports[..n]), reports[n])
  }

  /** One turn: the first selected message is deleted, first by its server. */
  ghost function DeleteFirst<T>(s: Progress<T>): (t: Progress<T>)
    requires Good(s) && FirstSelected(s.view.lines) < |s.view.lines|
    ensures Good(t)
  {
    var msg := s.view.lines[FirstSelected(s.view.lines)].msg;
    JobRemovedGood(s, msg);
    var r := JobRemoved(s, msg);
    r.(deleted := r.deleted + [msg])
  }

  ghost function Turn<T(!new)>(cols: Columns<T>, s: Progress<T>, k: nat, n: nat, pump: nat -> seq<Report<T>>): (t: Progress<T>)
    requires Comparable(cols) && Good(s) && FirstSelected(s.view.lines) < |s.view.lines|
    ensures Good(t)
  {
    if n > 1 then Pumped(cols, DeleteFirst(s), pump(k)) else DeleteFirst(s)
  }

  /** The loop ends, or finds no selected row. */
  predicate Finished<T>(s: Progress<T>, k: nat, n: nat) {
    k >= n || s.cancel || FirstSelected(s.view.lines) == |s.view.lines|
  }

  /** OnFolderItemDelete from turn `k` of `n`: `answers` says if the server agrees, `pump` what
      comes in after each turn.  The result tells if there was no error. */
  ghost function Deleting<T(!new)>(cols: Columns<T>, s: Progress<T>, k: nat, n: nat,
                                   answers: nat -> bool, pump: nat -> seq<Report<T>>): (r: (Progress<T>, bool))
    requires Comparable(cols) && Good(s)
    decreases n - k
  {
    if Finished(s, k, n) then (s, true)
    else if !answers(k) then (s, false)
    else Deleting(cols, Turn(cols, s, k, n, pump), k + 1, n, answers, pump)
  }

  ghost predicate Stops<T>(s: Progress<T>, k: nat, n: nat, answers: nat -> bool) { Finished(s, k, n) || !answers(k) }

  /** Messages only come, are freed and deleted. */
  ghost predicate Grows<T>(s: Progress<T>, t: Progress<T>) { Good(t) && All(s) <= All(t) && Freed(s) <= Freed(t) }

  lemma {:induction false} PumpGrows<T(!new)>(cols: Columns<T>, s: Progress<T>, reports: seq<Report<T>>)
    requires Comparable(cols) && Good(s)
    ensures var t := Pumped(cols, s, reports); Grows(s, t) && t.deleted == s.deleted
  {
    if reports != [] {
      var n := |reports| - 1;
      PumpGrows(cols, s, reports[..n]);
      ReportedGood(cols, Pumped(cols, s, reports[..n]), reports[n]);
    }
  }

  lemma FirstGrows<T>(s: Progress<T>)
    requires Good(s) && FirstSelected(s.view.lines) < |s.view.lines|
    ensures Grows(s, DeleteFirst(s))
  {
    JobRemovedGood(s, s.view.lines[FirstSelected(s.view.lines)].msg);
  }

  lemma TurnGrows<T(!new)>(cols: Columns<T>, s: Progress<T>, k: nat, n: nat, pump: nat -> seq<Report<T>>)
    requires Comparable(cols) && Good(s) && FirstSelected(s.view.lines) < |s.view.lines|
    ensures Grows(s, Turn(cols, s, k, n, pump)) && Turn(cols, s, k, n, pump).deleted == DeleteFirst(s).deleted
  {
    FirstGrows(s);
    if n > 1 { PumpGrows(cols, DeleteFirst(s), pump(k)); }
  }

  lemma {:induction false} DeletingGrows<T(!new)>(cols: Columns<T>, s: Progress<T>, k: nat, n: nat,
                                                  answers: nat -> bool, pump: nat -> seq<Report<T>>)
    requires Comparable(cols) && Good(s)
    ensures Grows(s, Deleting(cols, s, k, n, answers, pump).0)
    decreases n - k
  {
    if !Stops(s, k, n, answers) {
      TurnGrows(cols, s, k, n, pump);
      DeletingGrows(cols, Turn(cols, s, k, n, pump), k + 1, n, answers, pump);
    }
  }

  // ---------------------------------------------------------------- when it stops

  lemma ReportCancels<T>(cols: Columns<T>, s: Progress<T>, r: Report<T>)
    requires Good(s)
    ensures Reported(cols, s, r).cancel <==> s.cancel || r == CancelPressed
  {}

  lemma {:induction false} PumpCancels<T(!new)>(cols: Columns<T>, s: Progress<T>, reports: seq<Report<T>>)
    requires Comparable(cols) && Good(s)
    ensures Pumped(cols, s, reports).cancel <==> s.cancel || CancelPressed in reports
  {
    if reports != [] {
      var n := |reports| - 1;
      PumpCancels(cols, s, reports[..n]);
      ReportCancels(cols, Pumped(cols, s, reports[..n]), reports[n]);
      InFront(reports, CancelPressed);
    }
  }

  lemma InFront<T>(s: seq<T>, x: T)
    requires s != []
    ensures x in s <==> x in s[..|s| - 1] || x == s[|s| - 1]
  {
    assert s == s[..|s| - 1] + [s[|s| - 1]];
  }

  /** Cancel has been pressed in the turn before turn `k`. */
  predicate CancelledBefore<T(==)>(k: nat, n: nat, pump: nat -> seq<Report<T>>) { n > 1 && 0 < k && CancelPressed in pump(k - 1) }

  /** A loop over `n` selected messages may stop after `d` turns: the server has agreed to each of
      them, Cancel was pressed in none but the last, and there is a reason to stop; `ok` tells if
      it is other than the server's refusal. */
  ghost predicate StopsAfter<T>(d: nat, n: nat, answers: nat -> bool, pump: nat -> seq<Report<T>>, none: bool, ok: bool) {
    && d <= n && (forall k: nat | k < d :: answers(k) && !CancelledBefore(k, n, pump))
    && if ok then d == n || CancelledBefore(d, n, pump) || none
       else d < n && !CancelledBefore(d, n, pump) && !none && !answers(d)
  }

  lemma TurnDeletes<T(!new)>(cols: Columns<T>, s: Progress<T>, k: nat, n: nat, pump: nat -> seq<Report<T>>)
    requires Comparable(cols) && Good(s) && FirstSelected(s.view.lines) < |s.view.lines| && !s.cancel
    ensures var t := Turn(cols, s, k, n, pump);
      && t.deleted == s.deleted + [s.view.lines[FirstSelected(s.view.lines)].msg]
      && (t.cancel <==> CancelledBefore(k + 1, n, pump))
  {
    TurnGrows(cols, s, k, n, pump);
    if n > 1 { PumpCancels(cols, DeleteFirst(s), pump(k)); }
  }

  /** The loop as a whole, seen from turn `k`, goes on with the next one. */
  lemma OneMoreTurn<T(!new)>(cols: Columns<T>, s: Progress<T>, k: nat, n: nat, answers: nat -> bool, pump: nat -> seq<Report<T>>)
    returns (t: Progress<T>)
    requires Comparable(cols) && Good(s) && !Stops(s, k, n, answers)
    ensures Good(t) && Deleting(cols, s, k, n, answers, pump) == Deleting(cols, t, k + 1, n, answers, pump)
    ensures s.deleted <= t.deleted && |t.deleted| == |s.deleted| + 1 && (t.cancel <==> CancelledBefore(k + 1, n, pump))
  {
    t := Turn(cols, s, k, n, pump);
    TurnDeletes(cols, s, k, n, pump);
  }

  lemma StopsNow<T(!new)>(cols: Columns<T>, s: Progress<T>, k: nat, n: nat, answers: nat -> bool, pump: nat -> seq<Report<T>>)
    requires Comparable(cols) && Good(s) && k <= n && (s.cancel <==> CancelledBefore(k, n, pump))
    requires forall i: nat | i < k :: answers(i) && !CancelledBefore(i, n, pump)
    requires Stops(s, k, n, answers)
    ensures var r := Deleting(cols, s, k, n, answers, pump);
      r.0 == s && StopsAfter(k, n, answers, pump, FirstSelected(s.view.lines) == |s.view.lines|, r.1)
  {}

  lemma {:induction false} StopsInTime<T(!new)>(cols: Columns<T>, s: Progress<T>, k: nat, n: nat, answers: nat -> bool,
                                                pump: nat -> seq<Report<T>>, r: (Progress<T>, bool)) returns (d: nat)
    requires Comparable(cols) && Good(s) && k <= n && (s.cancel <==> CancelledBefore(k, n, pump))
    requires forall i: nat | i < k :: answers(i) && !CancelledBefore(i, n, pump)
    requires r == Deleting(cols, s, k, n, answers, pump)
    ensures s.deleted <= r.0.deleted && d == k + |r.0.deleted| - |s.deleted|
    ensures StopsAfter(d, n, answers, pump, FirstSelected(r.0.view.lines) == |r.0.view.lines|, r.1)
    ensures r.0.cancel <==> CancelledBefore(d, n, pump)
    decreases n - k
  {
    if Stops(s, k, n, answers) {
      StopsNow(cols, s, k, n, answers, pump);
      d := k;
    } else {
      var t := OneMoreTurn(cols, s, k, n, answers, pump);
      d := StopsInTime(cols, t, k + 1, n, answers, pump, r);
    }
  }

  /** As many messages are deleted as there are turns before the first reason to stop: all
      selected ones done, Cancel, no selected row left, or a refusal, which alone is an error. */
  lemma DeletesUntilStopped<T(!new)>(cols: Columns<T>, s: Progress<T>, n: nat, answers: nat -> bool, pump: nat -> seq<Report<T>>,
                                     r: (Progress<T>, bool)) returns (d: nat)
    requires Comparable(cols) && Good(s) && !s.cancel && r == Deleting(cols, s, 0, n, answers, pump)
    ensures s.deleted <= r.0.deleted && d == |r.0.deleted| - |s.deleted|
    ensures StopsAfter(d, n, answers, pump, SelectedMsgs(r.0.view.lines) == {}, r.1)
    ensures r.0.cancel <==> CancelledBefore(d, n, pump)
  {
    d := StopsInTime(cols, s, 0, n, answers, pump, r);
    FirstIsSelected(r.0.view.lines);
  }

  // ---------------------------------------------------------------- what becomes of the messages

  /** The report tells of a message that the folder is to have. */
  predicate Tells<T>(r: Report<T>, msg: Ptr) { (r.Came? || r.Differs? || r.Appended?) && r.msg == msg }

  /** A message that was neither known nor freed is stored as reported and gets a row, unselected;
      the other rows stay as they are. */
  lemma ReportShows<T>(cols: Columns<T>, s: Progress<T>, r: Report<T>, msg: Ptr) returns (i: nat)
    requires Good(s) && Tells(r, msg) && msg !in s.view.messages && msg !in s.freed
    ensures var t := Reported(cols, s, r);
      && t.view.messages == s.view.messages[msg := r.x]
      && i < |t.view.lines| && t.view.lines[i] == Line(msg, r.x, false) && Remove(t.view.lines, i) == s.view.lines
  {
    var lines, line := s.view.lines, Line(msg, r.x, false);
    i := WhereShown(cols, s, r, msg);
    InsertRemove(lines, i, line);
    InsertedAt(lines, i, line);
  }

  lemma WhereShown<T>(cols: Columns<T>, s: Progress<T>, r: Report<T>, msg: Ptr) returns (i: nat)
    requires Good(s) && Tells(r, msg) && msg !in s.view.messages && msg !in s.freed
    ensures var t, w := Reported(cols, s, r), Changed(s.view, msg, r.x);
      i <= |s.view.lines| && t.view == w.(lines := Insert(s.view.lines, i, Line(msg, r.x, false)))
  {
    if r.Appended? {
      NotFound(s.view.lines, msg);
      i := |s.view.lines|;
      assert Insert(s.view.lines, i, Line(msg, r.x, false)) == s.view.lines + [Line(msg, r.x, false)];
    } else {
      i := IndexFor(cols, Changed(s.view, msg, r.x), msg);
    }
  }

  /** The end of a refresh puts the rows in order, if the control sorts and there is a sort column. */
  lemma RefreshSorts<T(!new)>(cols: Columns<T>, s: Progress<T>, lines: seq<Line<T>>)
    requires Comparable(cols) && Good(s) && s.view.sortedCol >= 0 && IsSort(cols, s.view, s.view.(lines := lines))
    ensures var t := Reported(cols, s, Refreshed(lines)).view;
      Live(t) && Arranged(cols, t, s.view.sortedCol, s.view.ascending) && Msgs(t.lines) == Msgs(s.view.lines)
  {
    SortArranges(cols, s.view, s.view.(lines := lines));
    SortPutsInOrder(cols, s.view, s.view.(lines := lines));
  }

  lemma TellsOfAll<T(!new)>(cols: Columns<T>, s: Progress<T>, r: Report<T>, msg: Ptr)
    requires Comparable(cols) && Good(s) && Tells(r, msg)
    ensures msg in All(Reported(cols, s, r))
  {
    ReportedGood(cols, s, r);
    if msg in s.view.messages || msg in s.freed {
      assert msg in All(s);
    } else {
      var i := ReportShows(cols, s, r, msg);
    }
  }

  lemma {:induction false} PumpKeepsTold<T(!new)>(cols: Columns<T>, s: Progress<T>, reports: seq<Report<T>>, i: nat, msg: Ptr)
    requires Comparable(cols) && Good(s) && i < |reports| && Tells(reports[i], msg)
    ensures msg in All(Pumped(cols, s, reports))
  {
    var n := |reports| - 1;
    var t := Pumped(cols, s, reports[..n]);
    if i == n {
      TellsOfAll(cols, t, reports[n], msg);
    } else {
      PumpKeepsTold(cols, s, reports[..n], i, msg);
      ReportedGood(cols, t, reports[n]);
    }
  }

  /** Message `msg` is reported in one of the turns from `k` on that are made, `d` in number. */
  ghost predicate ToldOf<T>(pump: nat -> seq<Report<T>>, k: nat, d: nat, msg: Ptr) {
    exists j: nat, i: nat :: k <= j < k + d && i < |pump(j)| && Tells(pump(j)[i], msg)
  }

  lemma ToldInTurn<T(!new)>(cols: Columns<T>, s: Progress<T>, k: nat, n: nat, answers: nat -> bool,
                            pump: nat -> seq<Report<T>>, i: nat, msg: Ptr)
    requires Comparable(cols) && Good(s) && n > 1 && !Stops(s, k, n, answers) && i < |pump(k)| && Tells(pump(k)[i], msg)
    ensures msg in All(Deleting(cols, s, k, n, answers, pump).0)
  {
    PumpKeepsTold(cols, DeleteFirst(s), pump(k), i, msg);
    DeletingGrows(cols, Turn(cols, s, k, n, pump), k + 1, n, answers, pump);
  }

  lemma {:induction false} ToldIsKept<T(!new)>(cols: Columns<T>, s: Progress<T>, k: nat, n: nat, answers: nat -> bool,
                                               pump: nat -> seq<Report<T>>, j: nat, i: nat, msg: Ptr, r: (Progress<T>, bool))
    requires Comparable(cols) && Good(s) && n > 1 && k <= j && i < |pump(j)| && Tells(pump(j)[i], msg)
    requires r == Deleting(cols, s, k, n, answers, pump) && j - k < |r.0.deleted| - |s.deleted|
    ensures msg in All(r.0)
    decreases n - k
  {
    assert !Stops(s, k, n, answers);
    if j == k {
      ToldInTurn(cols, s, k, n, answers, pump, i, msg);
    } else {
      var t := OneMoreTurn(cols, s, k, n, answers, pump);
      ToldIsKept(cols, t, k + 1, n, answers, pump, j, i, msg, r);
    }
  }

  /** Every message that was there, or was reported in a turn, is in its map at the end or has been
      freed, and none is freed twice. */
  lemma FreedExactlyOnce<T(!new)>(cols: Columns<T>, s: Progress<T>, n: nat, answers: nat -> bool,
                                  pump: nat -> seq<Report<T>>, msg: Ptr)
    requires Comparable(cols) && Good(s)
    requires var d := |Deleting(cols, s, 0, n, answers, pump).0.deleted| - |s.deleted|;
      msg in s.view.messages || (n > 1 && d >= 0 && ToldOf(pump, 0, d, msg))
    ensures var t := Deleting(cols, s, 0, n, answers, pump).0;
      || msg in t.view.messages
      || exists i | 0 <= i < |t.freed| :: t.freed[i] == msg && forall j | 0 <= j < |t.freed| && j != i :: t.freed[j] != msg
  {
    var t := Deleting(cols, s, 0, n, answers, pump).0;
    if msg in s.view.messages {
      DeletingGrows(cols, s, 0, n, answers, pump);
      assert msg in All(s) && msg in All(t);
    } else {
      var d := |t.deleted| - |s.deleted|;
      var j: nat, i: nat :| 0 <= j < d && i < |pump(j)| && Tells(pump(j)[i], msg);
      ToldIsKept(cols, s, 0, n, answers, pump, j, i, msg, Deleting(cols, s, 0, n, answers, pump));
    }
    OnceAmongFreed(cols, s, n, answers, pump, msg);
  }

  lemma OnceAmongFreed<T(!new)>(cols: Columns<T>, s: Progress<T>, n: nat, answers: nat -> bool, pump: nat -> seq<Report<T>>, msg: Ptr)
    requires Comparable(cols) && Good(s) && msg in All(Deleting(cols, s, 0, n, answers, pump).0)
    ensures var t := Deleting(cols, s, 0, n, answers, pump).0;
      || msg in t.view.messages
      || exists i | 0 <= i < |t.freed| :: t.freed[i] == msg && forall j | 0 <= j < |t.freed| && j != i :: t.freed[j] != msg
  {
    var t := Deleting(cols, s, 0, n, answers, pump).0;
    DeletingGrows(cols, s, 0, n, answers, pump);
    if msg !in t.view.messages {
      var i :| 0 <= i < |t.freed| && t.freed[i] == msg;
      forall j | 0 <= j < |t.freed| && j != i ensures t.freed[j] != msg {
        assert i < j || j < i;
      }
    }
  }

  // ---------------------------------------------------------------- only removals

  /** The rows of the messages not in `gone`, in their order. */
  function Others<T>(lines: seq<Line<T>>, gone: set<Ptr>): seq<Line<T>> {
    if lines == [] then []
    else (if lines[0].msg in gone then [] else [lines[0]]) + Others(lines[1..], gone)
  }

  lemma {:induction false} OthersTwice<T>(lines: seq<Line<T>>, a: set<Ptr>, b: set<Ptr>)
    ensures Others(Others(lines, a), b) == Others(lines, a + b)
  {
    if lines != [] {
      OthersTwice(lines[1..], a, b);
      if lines[0].msg in a {
        assert Others(lines, a) == Others(lines[1..], a);
      } else {
        assert Others(lines, a)[1..] == Others(lines[1..], a);
      }
    }
  }

  lemma {:induction false} OthersOfNone<T>(lines: seq<Line<T>>, gone: set<Ptr>)
    requires Msgs(lines) !! gone
    ensures Others(lines, gone) == lines
  {
    if lines != [] {
      assert lines[0].msg in Msgs(lines);
      assert forall k | 0 <= k < |lines| - 1 :: lines[1..][k] == lines[k + 1];
      forall k | 0 <= k < |lines| - 1 ensures lines[1..][k].msg in Msgs(lines) { assert lines[k + 1].msg in Msgs(lines); }
      OthersOfNone(lines[1..], gone);
    }
  }

  lemma {:induction false} OthersOfOne<T>(lines: seq<Line<T>>, i: nat)
    requires Distinct(lines) && i < |lines|
    ensures Others(lines, {lines[i].msg}) == Remove(lines, i)
  {
    var rest := lines[1..];
    assert forall k | 0 <= k < |rest| :: rest[k] == lines[k + 1];
    if i == 0 {
      OthersOfNone(rest, {lines[0].msg});
      assert Remove(lines, 0) == rest;
    } else {
      assert lines[0].msg != lines[i].msg && rest[i - 1] == lines[i];
      OthersOfOne(rest, i - 1);
      assert Remove(lines, i) == [lines[0]] + Remove(rest, i - 1);
    }
  }

  ghost predicate OnlyRemovals<T>(reports: seq<Report<T>>) {
    forall i | 0 <= i < |reports| :: reports[i].Gone? || reports[i].CancelPressed?
  }

  /** From `s` to `t` messages have only been freed, with their rows and nothing else. */
  ghost predicate Shrunk<T>(s: Progress<T>, t: Progress<T>) {
    && Freed(s) <= Freed(t)
    && t.view.messages == s.view.messages - (Freed(t) - Freed(s))
    && t.view.lines == Others(s.view.lines, Freed(t) - Freed(s))
    && SelectedMsgs(t.view.lines) == SelectedMsgs(s.view.lines) - (Freed(t) - Freed(s))
  }

  lemma ShrunkTwice<T>(a: Progress<T>, b: Progress<T>, c: Progress<T>)
    requires Shrunk(a, b) && Shrunk(b, c)
    ensures Shrunk(a, c)
  {
    OthersTwice(a.view.lines, Freed(b) - Freed(a), Freed(c) - Freed(b));
    assert (Freed(b) - Freed(a)) + (Freed(c) - Freed(b)) == Freed(c) - Freed(a);
  }

  lemma NothingShrinks<T>(s: Progress<T>, t: Progress<T>)
    requires t.view == s.view && t.freed == s.freed
    ensures Shrunk(s, t)
  {
    OthersOfNone(s.view.lines, {});
    assert Freed(t) - Freed(s) == {};
  }

  lemma RemovalShrinks<T>(s: Progress<T>, msg: Ptr)
    requires Good(s)
    ensures Shrunk(s, JobRemoved(s, msg))
  {
    var t := JobRemoved(s, msg);
    JobRemovedGood(s, msg);
    if msg in s.view.messages {
      assert Freed(t) - Freed(s) == {msg};
      NotFound(s.view.lines, msg);
      var i := FindItem(s.view.lines, msg);
      if i < |s.view.lines| { OthersOfOne(s.view.lines, i); } else { OthersOfNone(s.view.lines, {msg}); }
    } else {
      NothingShrinks(s, t);
    }
  }

  /** The messages that some report of the first `n` pumps says are gone. */
  ghost predicate ReportedGone<T>(pump: nat -> seq<Report<T>>, n: nat, msg: Ptr) {
    exists k: nat | k < n :: Gone(msg) in pump(k)
  }

  lemma {:induction false} PumpShrinks<T(!new)>(cols: Columns<T>, s: Progress<T>, reports: seq<Report<T>>)
    requires Comparable(cols) && Good(s) && OnlyRemovals(reports)
    ensures var t := Pumped(cols, s, reports);
      Shrunk(s, t) && forall msg | msg in Freed(t) - Freed(s) :: Gone(msg) in reports
  {
    if reports == [] {
      NothingShrinks(s, s);
    } else {
      var n := |reports| - 1;
      PumpShrinks(cols, s, reports[..n]);
      var t := Pumped(cols, s, reports[..n]);
      var r := Reported(cols, t, reports[n]);
      if reports[n].Gone? {
        RemovalShrinks(t, reports[n].msg);
        JobRemovedGood(t, reports[n].msg);
      } else {
        NothingShrinks(t, r);
      }
      ShrunkTwice(s, t, r);
      forall msg | msg in Freed(r) - Freed(s) ensures Gone(msg) in reports {
        if msg in Freed(t) { assert Gone(msg) in reports[..n]; } else { assert reports[n] == Gone(msg); }
      }
    }
  }

  lemma FirstIsSelected<T>(lines: seq<Line<T>>)
    ensures FirstSelected(lines) == |lines| <==> SelectedMsgs(lines) == {}
    ensures FirstSelected(lines) < |lines| ==> lines[FirstSelected(lines)].msg in SelectedMsgs(lines)
  {
    var i := FirstSelected(lines);
    if i < |lines| { assert lines[i].msg in SelectedMsgs(lines); }
  }

  lemma DeleteFirstShrinks<T>(s: Progress<T>)
    requires Good(s) && FirstSelected(s.view.lines) < |s.view.lines|
    ensures var t := DeleteFirst(s); var msg := s.view.lines[FirstSelected(s.view.lines)].msg;
      Shrunk(s, t) && msg in SelectedMsgs(s.view.lines) && Freed(t) == Freed(s) + {msg} && msg !in Freed(s)
  {
    var msg := s.view.lines[FirstSelected(s.view.lines)].msg;
    FirstIsSelected(s.view.lines);
    RemovalShrinks(s, msg);
    JobRemovedGood(s, msg);
    NothingShrinks(JobRemoved(s, msg), DeleteFirst(s));
    ShrunkTwice(s, JobRemoved(s, msg), DeleteFirst(s));
  }

  lemma TurnShrinks<T(!new)>(cols: Columns<T>, s: Progress<T>, k: nat, n: nat, pump: nat -> seq<Report<T>>)
    requires Comparable(cols) && Good(s) && FirstSelected(s.view.lines) < |s.view.lines| && OnlyRemovals(pump(k))
    ensures var t := Turn(cols, s, k, n, pump);
      && Shrunk(s, t)
      && (forall msg | msg in Freed(t) - Freed(s) :: msg in SelectedMsgs(s.view.lines) || Gone(msg) in pump(k))
  {
    var t, u := DeleteFirst(s), Turn(cols, s, k, n, pump);
    DeleteFirstShrinks(s);
    if n > 1 { PumpShrinks(cols, t, pump(k)); } else { NothingShrinks(t, t); }
    ShrunkTwice(s, t, u);
  }

  lemma TurnSelects<T(!new)>(cols: Columns<T>, s: Progress<T>, k: nat, n: nat, pump: nat -> seq<Report<T>>)
    requires Comparable(cols) && Good(s) && FirstSelected(s.view.lines) < |s.view.lines| && OnlyRemovals(pump(k))
    ensures var msg := s.view.lines[FirstSelected(s.view.lines)].msg;
      && msg in SelectedMsgs(s.view.lines)
      && SelectedMsgs(Turn(cols, s, k, n, pump).view.lines) <= SelectedMsgs(s.view.lines) - {msg}
  {
    DeleteFirstShrinks(s);
    if n > 1 { PumpShrinks(cols, DeleteFirst(s), pump(k)); }
  }

  lemma TurnLeavesLess<T(!new)>(cols: Columns<T>, s: Progress<T>, k: nat, n: nat, pump: nat -> seq<Report<T>>)
    requires Comparable(cols) && Good(s) && FirstSelected(s.view.lines) < |s.view.lines| && OnlyRemovals(pump(k))
    ensures Left(Turn(cols, s, k, n, pump)) < Left(s)
  {
    TurnSelects(cols, s, k, n, pump);
    SmallerSet(SelectedMsgs(Turn(cols, s, k, n, pump).view.lines), SelectedMsgs(s.view.lines),
               s.view.lines[FirstSelected(s.view.lines)].msg);
  }

  lemma {:induction false} DeletingShrinks<T(!new)>(cols: Columns<T>, s: Progress<T>, k: nat, n: nat,
                                                    answers: nat -> bool, pump: nat -> seq<Report<T>>)
    requires Comparable(cols) && Good(s) && forall i: nat | i < n :: OnlyRemovals(pump(i))
    ensures Shrunk(s, Deleting(cols, s, k, n, answers, pump).0)
    decreases n - k
  {
    if Stops(s, k, n, answers) {
      NothingShrinks(s, s);
    } else {
      var t := Turn(cols, s, k, n, pump);
      TurnShrinks(cols, s, k, n, pump);
      DeletingShrinks(cols, t, k + 1, n, answers, pump);
      ShrunkTwice(s, t, Deleting(cols, t, k + 1, n, answers, pump).0);
    }
  }

  /** The loop goes on, and what is gone by then was the first selected message or is reported. */
  lemma TurnToNext<T(!new)>(cols: Columns<T>, s: Progress<T>, k: nat, n: nat, answers: nat -> bool,
                            pump: nat -> seq<Report<T>>, msg: Ptr) returns (t: Progress<T>)
    requires Comparable(cols) && Good(s) && !Stops(s, k, n, answers) && OnlyRemovals(pump(k))
    ensures Good(t) && Deleting(cols, s, k, n, answers, pump) == Deleting(cols, t, k + 1, n, answers, pump)
    ensures SelectedMsgs(t.view.lines) <= SelectedMsgs(s.view.lines)
    ensures msg in Freed(t) - Freed(s) ==> msg in SelectedMsgs(s.view.lines) || ReportedGone(pump, n, msg)
  {
    t := Turn(cols, s, k, n, pump);
    TurnShrinks(cols, s, k, n, pump);
  }

  lemma {:induction false} NoOthersGo<T(!new)>(cols: Columns<T>, s: Progress<T>, k: nat, n: nat, answers: nat -> bool,
                                               pump: nat -> seq<Report<T>>, msg: Ptr, r: (Progress<T>, bool))
    requires Comparable(cols) && Good(s) && forall i: nat | i < n :: OnlyRemovals(pump(i))
    requires r == Deleting(cols, s, k, n, answers, pump) && msg in Freed(r.0) - Freed(s)
    ensures msg in SelectedMsgs(s.view.lines) || ReportedGone(pump, n, msg)
    decreases n - k
  {
    if !Stops(s, k, n, answers) {
      var t := TurnToNext(cols, s, k, n, answers, pump, msg);
      if msg !in Freed(t) { NoOthersGo(cols, t, k + 1, n, answers, pump, msg, r); }
    }
  }

  /** How many messages are selected. */
  ghost function Left<T>(s: Progress<T>): nat { |SelectedMsgs(s.view.lines)| }

  lemma NoneLeft<T>(s: Progress<T>)
    ensures Left(s) == 0 <==> FirstSelected(s.view.lines) == |s.view.lines|
    ensures Left(s) == 0 <==> SelectedMsgs(s.view.lines) == {}
  {
    FirstIsSelected(s.view.lines);
    EmptySet(SelectedMsgs(s.view.lines));
  }

  /** A loop that neither ends nor fails goes on with fewer selected messages. */
  lemma NextTurn<T(!new)>(cols: Columns<T>, s: Progress<T>, k: nat, n: nat, answers: nat -> bool, pump: nat -> seq<Report<T>>)
    returns (t: Progress<T>)
    requires Comparable(cols) && Good(s) && !Stops(s, k, n, answers) && OnlyRemovals(pump(k)) && Left(s) + k <= n
    ensures Good(t) && Left(t) + (k + 1) <= n
    ensures Deleting(cols, s, k, n, answers, pump) == Deleting(cols, t, k + 1, n, answers, pump)
  {
    t := Turn(cols, s, k, n, pump);
    TurnLeavesLess(cols, s, k, n, pump);
  }

  lemma EndsWithNone<T(!new)>(cols: Columns<T>, s: Progress<T>, k: nat, n: nat, answers: nat -> bool, pump: nat -> seq<Report<T>>)
    requires Comparable(cols) && Good(s) && Stops(s, k, n, answers) && Left(s) + k <= n
    ensures var r := Deleting(cols, s, k, n, answers, pump); r.1 && !r.0.cancel ==> SelectedMsgs(r.0.view.lines) == {}
  {
    NoneLeft(s);
  }

  lemma {:induction false} NoneIsLeft<T(!new)>(cols: Columns<T>, s: Progress<T>, k: nat, n: nat, answers: nat -> bool,
                                               pump: nat -> seq<Report<T>>, r: (Progress<T>, bool))
    requires Comparable(cols) && Good(s) && forall i: nat | i < n :: OnlyRemovals(pump(i))
    requires Left(s) + k <= n && r == Deleting(cols, s, k, n, answers, pump)
    ensures r.1 && !r.0.cancel ==> SelectedMsgs(r.0.view.lines) == {}
    decreases n - k
  {
    if Stops(s, k, n, answers) {
      EndsWithNone(cols, s, k, n, answers, pump);
    } else {
      var t := NextTurn(cols, s, k, n, answers, pump);
      NoneIsLeft(cols, t, k + 1, n, answers, pump, r);
    }
  }

  /** While servers only report removals: messages go with their rows and nothing else changes;
      only those go that are selected or reported as removed; and without an error or a cancel
      all selected ones go. */
  lemma DeletesSelected<T(!new)>(cols: Columns<T>, s: Progress<T>, n: nat, answers: nat -> bool, pump: nat -> seq<Report<T>>)
    requires Comparable(cols) && Good(s) && n == Left(s)
    requires forall i: nat | i < n :: OnlyRemovals(pump(i))
    ensures var r := Deleting(cols, s, 0, n, answers, pump); var gone := Freed(r.0) - Freed(s);
      && Shrunk(s, r.0)
      && (forall msg | msg in gone :: msg in SelectedMsgs(s.view.lines) || ReportedGone(pump, n, msg))
      && (r.1 && !r.0.cancel ==> SelectedMsgs(s.view.lines) <= gone)
  {
    var r := Deleting(cols, s, 0, n, answers, pump);
    DeletingShrinks(cols, s, 0, n, answers, pump);
    NoneIsLeft(cols, s, 0, n, answers, pump, r);
    NothingBut(SelectedMsgs(s.view.lines), Freed(r.0) - Freed(s));
    forall msg | msg in Freed(r.0) - Freed(s)
      ensures msg in SelectedMsgs(s.view.lines) || ReportedGone(pump, n, msg)
    {
      NoOthersGo(cols, s, 0, n, answers, pump, msg, r);
    }
  }

  lemma NothingBut(a: set<Ptr>, b: set<Ptr>)
    ensures a - b == {} ==> a <= b
  {
    assert a <= (a - b) + b;
  }

  lemma EmptySet(a: set<Ptr>)
    ensures |a| == 0 ==> a == {}
  {}

  lemma SmallerSet(a: set<Ptr>, b: set<Ptr>, x: Ptr)
    requires a <= b - {x} && x in b
    ensures |a| < |b|
  {
    assert b == (b - {x}) + {x};
    assert |b - {x}| == |b| - 1;
    SubsetSize(a, b - {x});
  }

  // ---------------------------------------------------------------- only what was selected

  ghost predicate TamePump<T(!new)>(cols: Columns<T>, s: Progress<T>, reports: seq<Report<T>>)
    requires Comparable(cols) && Good(s)
  {
    forall i | 0 <= i < |reports| :: Tame(cols, Pumped(cols, s, reports[..i]), reports[i])
  }

  ghost predicate TameRun<T(!new)>(cols: Columns<T>, s: Progress<T>, k: nat, n: nat,
                                   answers: nat -> bool, pump: nat -> seq<Report<T>>)
    requires Comparable(cols) && Good(s)
    decreases n - k
  {
    Stops(s, k, n, answers) ||
    ((n > 1 ==> TamePump(cols, DeleteFirst(s), pump(k))) && TameRun(cols, Turn(cols, s, k, n, pump), k + 1, n, answers, pump))
  }

  lemma {:induction false} TamePumpSelects<T(!new)>(cols: Columns<T>, s: Progress<T>, reports: seq<Report<T>>)
    requires Comparable(cols) && Good(s) && TamePump(cols, s, reports)
    ensures SelectedMsgs(Pumped(cols, s, reports).view.lines) <= SelectedMsgs(s.view.lines)
  {
    if reports != [] {
      var n := |reports| - 1;
      TameFront(cols, s, reports);
      TamePumpSelects(cols, s, reports[..n]);
      TameIff(cols, Pumped(cols, s, reports[..n]), reports[n]);
    }
  }

  lemma TameFront<T(!new)>(cols: Columns<T>, s: Progress<T>, reports: seq<Report<T>>)
    requires Comparable(cols) && Good(s) && TamePump(cols, s, reports) && reports != []
    ensures TamePump(cols, s, reports[..|reports| - 1])
    ensures Tame(cols, Pumped(cols, s, reports[..|reports| - 1]), reports[|reports| - 1])
  {
    var front := reports[..|reports| - 1];
    forall i | 0 <= i < |front| ensures Tame(cols, Pumped(cols, s, front[..i]), front[i]) {
      assert front[..i] == reports[..i];
    }
  }

  /** Whatever is reported meanwhile, the command deletes only messages that were selected when
      it began, as long as no report passes a selection on. */
  lemma {:induction false} DeletesOnlySelected<T(!new)>(cols: Columns<T>, s: Progress<T>, k: nat, n: nat,
                                                        answers: nat -> bool, pump: nat -> seq<Report<T>>, msg: Ptr)
    requires Comparable(cols) && Good(s) && TameRun(cols, s, k, n, answers, pump)
    requires msg in Deleting(cols, s, k, n, answers, pump).0.deleted
    ensures msg in s.deleted || msg in SelectedMsgs(s.view.lines)
    decreases n - k
  {
    if !Stops(s, k, n, answers) {
      DeleteFirstShrinks(s);
      var t := DeleteFirst(s);
      TurnGrows(cols, s, k, n, pump);
      if n > 1 { TamePumpSelects(cols, t, pump(k)); }
      DeletesOnlySelected(cols, Turn(cols, s, k, n, pump), k + 1, n, answers, pump, msg);
    }
  }

  /** A message that has become smaller moves above the one before it, and passes its selection
      on to that one. */
  lemma PassesSelectionOn(v: View<nat>)
    requires v.lines == [Line(2, 2000, false), Line(3, 4000, true)] && v.sortedCol == 0 && v.ascending
    requires Ok(v)
    ensures 3 in v.messages && Updated(SIZES, Changed(v, 3, 100), 3).lines == [Line(3, 100, false), Line(2, 2000, true)]
  {
    assert v.lines[0].msg in v.messages && v.lines[1].msg in v.messages;
    assert v.messages[2] == v.lines[0].shown && v.messages[3] == v.lines[1].shown;
    var w := Changed(v, 3, 100);
    var rest := w.(lines := Remove(w.lines, 1));
    FindRow(v.lines, 1);
    assert Text(SIZES, 0, 100) == Decimal(1) == "1" && Text(SIZES, 0, 4000) == Decimal(3) == "3";
    assert rest.lines == [Line(2, 2000, false)] && Keys(rest) == [2000];
    assert IndexFor(SIZES, rest, 3) == 0;
    assert Added(SIZES, rest, 3).lines == [Line(3, 100, false), Line(2, 2000, false)];
  }

  lemma FirstGoes(s: Progress<nat>)
    requires Good(s) && |s.view.lines| > 0 && s.view.lines[FirstSelected(s.view.lines)..] != []
    ensures var i, t := FirstSelected(s.view.lines), DeleteFirst(s); var msg := s.view.lines[i].msg;
      && t.view == s.view.(lines := Remove(s.view.lines, i), messages := s.view.messages - {msg})
      && t.deleted == s.deleted + [msg] && t.cancel == s.cancel
  {
    FindRow(s.view.lines, FirstSelected(s.view.lines));
  }

  lemma FirstTurn(s: Progress<nat>, pump: nat -> seq<Report<nat>>)
    requires s.view.lines == [Line(1, 10, true), Line(2, 2000, false), Line(3, 4000, true)]
    requires Good(s) && s.view.sortedCol == 0 && s.view.ascending && s.deleted == [] && pump(0) == [Differs(3, 100)]
    ensures Comparable(SIZES) && FirstSelected(s.view.lines) == 0
    ensures var u := Turn(SIZES, s, 0, 2, pump);
      u.view.lines == [Line(3, 100, false), Line(2, 2000, true)] && u.deleted == [1] && u.cancel == s.cancel
  {
    SizesCompare();
    WithoutFirst(s);
    var t := DeleteFirst(s);
    PumpOne(SIZES, t, pump(0), Differs(3, 100));
    PassesSelectionOn(t.view);
  }

  lemma PumpOne<T(!new)>(cols: Columns<T>, s: Progress<T>, reports: seq<Report<T>>, r: Report<T>)
    requires Comparable(cols) && Good(s) && reports == [r]
    ensures Pumped(cols, s, reports) == Reported(cols, s, r)
  {
    assert reports[..0] == [] && Pumped(cols, s, []) == s;
  }

  lemma WithoutFirst(s: Progress<nat>)
    requires s.view.lines == [Line(1, 10, true), Line(2, 2000, false), Line(3, 4000, true)]
    requires Good(s) && s.deleted == []
    ensures FirstSelected(s.view.lines) == 0
    ensures var t := DeleteFirst(s);
      && t.view.lines == [Line(2, 2000, false), Line(3, 4000, true)] && t.deleted == [1] && t.cancel == s.cancel
      && t.view.sortedCol == s.view.sortedCol && t.view.ascending == s.view.ascending
  {
    FirstRow(s.view.lines);
    FirstGoes(s);
  }

  lemma SecondTurn(u: Progress<nat>, pump: nat -> seq<Report<nat>>)
    requires u.view.lines == [Line(3, 100, false), Line(2, 2000, true)] && Good(u) && u.deleted == [1] && pump(1) == []
    ensures Comparable(SIZES) && FirstSelected(u.view.lines) == 1
    ensures var w := Turn(SIZES, u, 1, 2, pump); w.deleted == [1, 2] && 3 in w.view.messages && w.cancel == u.cancel
  {
    SizesCompare();
    assert FirstSelected(u.view.lines) == 1;
    FirstGoes(u);
    assert u.view.lines[0].msg in u.view.messages;
  }

  /** Messages 1 and 3 are selected.  While they are deleted a server reports that 3 has become
      smaller, and 2 is deleted instead. */
  lemma DeletesAnother(s: Progress<nat>, pump: nat -> seq<Report<nat>>)
    requires s.view.lines == [Line(1, 10, true), Line(2, 2000, false), Line(3, 4000, true)]
    requires Good(s) && s.view.sortedCol == 0 && s.view.ascending && s.deleted == [] && !s.cancel
    requires pump(0) == [Differs(3, 100)] && pump(1) == []
    ensures Comparable(SIZES)
    ensures var r := Deleting(SIZES, s, 0, 2, i => true, pump);
      r.1 && !r.0.cancel && r.0.deleted == [1, 2] && 3 in r.0.view.messages
  {
    FirstTurn(s, pump);
    var u := Turn(SIZES, s, 0, 2, pump);
    SecondTurn(u, pump);
    var w := Turn(SIZES, u, 1, 2, pump);
    assert Deleting(SIZES, w, 2, 2, i => true, pump) == (w, true);
    assert Deleting(SIZES, u, 1, 2, i => true, pump) == (w, true);
  }

  lemma FirstRow<T>(lines: seq<Line<T>>)
    requires |lines| > 0
    ensures lines[0].selected ==> FirstSelected(lines) == 0
    ensures FindItem(lines, lines[0].msg) == 0
  {}
}
