/** What the maps hold: what the server has enumerated, less what has been removed since, and
    more what has been added. */
module RefreshContents {
  import opened RefreshProtocol
  import opened RefreshFlags
  import opened RefreshPending
  import opened RefreshRows
  import opened RefreshRuns
  import opened RefreshProgress

  function Elements(ids: seq<Id>): set<Id> { set id | id in ids }

  function Ids(chunks: seq<seq<Id>>): set<Id> { Elements(Flatten(chunks)) }

  /** Thread `t` is the last one created for folder `f`.  While it enumerates, what is stored and
      what is pending make up `all`; a valid folder stores just that. */
  ghost predicate Holds(s: State, f: nat, t: Tid, all: set<Id>) {
    f < |s.folders| && t < |s.threads| && HoldsIn(s.folders[f], s.threads[t], f, t, all)
  }

  ghost predicate HoldsIn(F: Folder, T: BuildThread, f: nat, t: Tid, all: set<Id>) {
    && T.folder == f && (F.handle.Some? ==> F.handle.value == t)
    && (Enumerating(T.pc) ==> forall id: Id :: id in all <==> id in F.msgs || id in Pending(T))
    && (Succeeded(T.pc) ==> F.valid)
    && (F.valid ==> forall id: Id :: id in all <==> id in F.msgs)
  }

  /** What user and servers make of the contents of folder `f`. */
  function Effect(a: Action, f: nat, all: set<Id>): set<Id> {
    match a
    case DeleteRow(g, id) => if g == f then all - {id} else all
    case NotifyRemoved(g, id) => if g == f then all - {id} else all
    case NotifyAdded(g, id) => if g == f then all + {id} else all
    case _ => all
  }

  /** The action creates a thread for folder `f`. */
  predicate Creates(s: State, a: Action, f: nat) { a.CreateThread? && TopIsCreate(s) && s.Top().folder == f }

  // ---------------------------------------------------------------- every action

  lemma CreatedHolds(s: State, ids: seq<seq<Id>>)
    requires Flags(s) && CreateOk(s) && Enabled(s, CreateThread(ids))
    ensures Holds(ThreadCreated(s, ids), s.Top().folder, |s.threads|, Ids(ids))
  {
    assert FrameOk(s, s.Top());
    assert [] + Flatten(ids) == Flatten(ids);
  }

  lemma InsertHolds(s: State, f: nat, t: Tid, all: set<Id>)
    requires CanAdvance(s, t) && s.threads[t].pc == Insert && ThreadOk(s, t) && PendingOk(s.threads[t], s.folders[s.threads[t].folder])
    requires Holds(s, f, t, all)
    ensures Holds(Advance(s, t), f, t, all)
  {
    var r, T := Advance(s, t), s.threads[t];
    InsertKeepsPending(s, t);
    assert r.folders[f].handle == s.folders[f].handle && r.folders[f].valid == s.folders[f].valid && r.threads[t].folder == f;
    forall id: Id ensures id in all <==> id in r.folders[f].msgs || id in Pending(r.threads[t]) {
      assert id in Pending(T) <==> id == T.batch[0] || id in Pending(r.threads[t]);
    }
  }

  lemma FetchHolds(s: State, f: nat, t: Tid, all: set<Id>)
    requires CanAdvance(s, t) && s.threads[t].pc == Enumerate && ThreadOk(s, t) && PendingOk(s.threads[t], s.folders[s.threads[t].folder])
    requires Holds(s, f, t, all)
    ensures Holds(Advance(s, t), f, t, all)
  {
    FetchKeepsPending(s, t);
    if s.threads[t].todo == [] { assert Pending(s.threads[t]) == []; }
  }

  /** The thread itself goes on. */
  lemma StepHolds(s: State, f: nat, t: Tid, all: set<Id>)
    requires CanAdvance(s, t) && ThreadOk(s, t) && PendingOk(s.threads[t], s.folders[s.threads[t].folder])
    requires Holds(s, f, t, all)
    ensures Holds(Advance(s, t), f, t, all)
  {
    match s.threads[t].pc {
      case Enumerate => FetchHolds(s, f, t, all);
      case Insert => InsertHolds(s, f, t, all);
      case _ => ElseKeepsPending(s, t);
    }
  }

  lemma ServedHolds(s: State, f: nat, t: Tid, all: set<Id>)
    requires CanServe(s, t) && ThreadOk(s, t) && Holds(s, f, t, all)
    ensures Holds(Serve(s, t), f, t, all)
  {
    assert Pending(Serve(s, t).threads[t]) == Pending(s.threads[t]);
  }

  /** A thread, or what is served for it. */
  lemma ThreadHolds(s: State, a: Action, f: nat, t: Tid, all: set<Id>)
    requires Flags(s) && Gathering(s) && Enabled(s, a) && (a.Step? || a.FailRefresh? || a.ServeThread?) && Holds(s, f, t, all)
    ensures Holds(Apply(s, a), f, t, all)
  {
    assert ThreadOk(s, t) && ThreadOk(s, a.t) && PendingOk(s.threads[t], s.folders[s.threads[t].folder]);
    if a.t == t {
      match a {
        case Step(_) => StepHolds(s, f, t, all);
        case FailRefresh(_) =>
        case ServeThread(_) => ServedHolds(s, f, t, all);
      }
    } else {
      OtherHolds(s, a, f, t, all);
    }
  }

  lemma OtherHolds(s: State, a: Action, f: nat, t: Tid, all: set<Id>)
    requires Flags(s) && Enabled(s, a) && (a.Step? || a.FailRefresh? || a.ServeThread?) && Holds(s, f, t, all) && a.t != t
    ensures Holds(Apply(s, a), f, t, all)
  {
    assert ThreadOk(s, a.t);
    match a {
      case Step(u) => StepMoves(s, u);
      case FailRefresh(u) => FailMoves(s, u);
      case ServeThread(u) => ServeMoves(s, u);
    }
  }

  /** Thread `t` is as it was, and so is folder `f`, as far as its contents are concerned; or it is
      not valid and no longer being filled. */
  predicate Leaves(s: State, r: State, f: nat, t: Tid)
    requires f < |s.folders| && t < |s.threads|
  {
    && f < |r.folders| && t < |r.threads| && r.threads[t] == s.threads[t]
    && var F, F' := s.folders[f], r.folders[f];
    && (F'.handle.Some? ==> F'.handle == F.handle)
    && if F'.valid then F.valid && F'.msgs == F.msgs
       else F'.msgs == F.msgs || !s.threads[t].Building()
  }

  lemma LeftHolds(s: State, r: State, f: nat, t: Tid, all: set<Id>)
    requires Holds(s, f, t, all) && Leaves(s, r, f, t) && (Succeeded(s.threads[t].pc) ==> r.folders[f].valid)
    ensures Holds(r, f, t, all)
  {}

  /** A handler of the UI thread: RebuildContents empties a folder only when nothing is building it. */
  lemma HandlerLeaves(s: State, f: nat, t: Tid)
    requires Flags(s) && CanRun(s) && f < |s.folders| && t < |s.threads| && s.threads[t].folder == f
    ensures Leaves(s, RunHandler(s), f, t)
    ensures s.threads[t].Building() ==>
      RunHandler(s).folders[f].valid == s.folders[f].valid && RunHandler(s).folders[f].handle == s.folders[f].handle
  {
    if s.Top().Rebuild? && s.Top().pc != LeaveCs { NoBuilderOfTop(s, t); }
  }

  lemma EventHolds(s: State, a: Action, f: nat, t: Tid, all: set<Id>)
    requires Flags(s) && Gathering(s) && Enabled(s, a) && IsEvent(a) && Holds(s, f, t, all)
    ensures Holds(Apply(s, a), f, t, Effect(a, f, all))
  {
    var T := s.threads[t];
    assert ThreadOk(s, t) && PendingOk(T, s.folders[f]);
  }

  lemma ActionHolds(s: State, a: Action, f: nat, t: Tid, all: set<Id>)
    requires Flags(s) && Gathering(s) && Enabled(s, a) && Holds(s, f, t, all) && !Creates(s, a, f)
    ensures Holds(Apply(s, a), f, t, Effect(a, f, all))
  {
    if IsEvent(a) {
      EventHolds(s, a, f, t, all);
    } else if a.Step? || a.FailRefresh? || a.ServeThread? {
      ThreadHolds(s, a, f, t, all);
    } else {
      if a.Run? { HandlerLeaves(s, f, t); } else { OutcomeLeaves(s, a, f, t); }
      LeftHolds(s, Apply(s, a), f, t, all);
    }
  }

  lemma OutcomeLeaves(s: State, a: Action, f: nat, t: Tid)
    requires Flags(s) && Enabled(s, a) && (a.WaitFailed? || a.CreateThread? || a.CreateFailed?) && !Creates(s, a, f)
    requires f < |s.folders| && t < |s.threads| && s.threads[t].folder == f
    ensures Leaves(s, Apply(s, a), f, t)
    ensures s.threads[t].Building() ==>
      Apply(s, a).folders[f].valid == s.folders[f].valid && Apply(s, a).folders[f].handle == s.folders[f].handle
  {
    NoBuilderOfTop(s, t);
  }

  // ---------------------------------------------------------------- every run

  /** What folder `f` is to hold after actions i..j, if it was to hold `all` before. */
  function Expected(acts: seq<Action>, f: nat, i: nat, j: nat, all: set<Id>): set<Id>
    requires i <= j <= |acts|
  {
    if i == j then all else Effect(acts[j - 1], f, Expected(acts, f, i, j - 1, all))
  }

  /** Action `i` is the last one before `j` that creates a thread for folder `f`. */
  predicate LastCreation(trace: seq<State>, acts: seq<Action>, f: nat, i: nat, j: nat)
    requires |trace| == |acts| + 1 && i < j <= |acts|
  {
    Creates(trace[i], acts[i], f) && forall k | i < k < j :: !Creates(trace[k], acts[k], f)
  }

  lemma StepOfRun(trace: seq<State>, acts: seq<Action>, j: nat)
    requires IsRun(trace, acts) && 0 < j <= |acts|
    ensures Flags(trace[j - 1]) && Gathering(trace[j - 1])
    ensures Enabled(trace[j - 1], acts[j - 1]) && trace[j] == Apply(trace[j - 1], acts[j - 1])
  {
    RunKeepsFlags(trace, acts, j - 1);
    RunKeepsGathering(trace, acts, j - 1);
  }

  lemma LastBefore(trace: seq<State>, acts: seq<Action>, f: nat, i: nat, j: nat)
    requires |trace| == |acts| + 1 && i < j - 1 < |acts| && LastCreation(trace, acts, f, i, j)
    ensures LastCreation(trace, acts, f, i, j - 1) && !Creates(trace[j - 1], acts[j - 1], f)
  {}

  lemma {:induction false} RunHolds(trace: seq<State>, acts: seq<Action>, f: nat, i: nat, j: nat)
    requires IsRun(trace, acts) && i < j <= |acts| && LastCreation(trace, acts, f, i, j)
    ensures Holds(trace[j], f, |trace[i].threads|, Expected(acts, f, i + 1, j, Ids(acts[i].ids)))
  {
    if i == j - 1 {
      StepOfRun(trace, acts, j);
      CreatedHolds(trace[i], acts[i].ids);
    } else {
      LastBefore(trace, acts, f, i, j);
      RunHolds(trace, acts, f, i, j - 1);
      NextHolds(trace, acts, f, j, |trace[i].threads|, Expected(acts, f, i + 1, j - 1, Ids(acts[i].ids)));
    }
  }

  lemma NextHolds(trace: seq<State>, acts: seq<Action>, f: nat, j: nat, t: Tid, all: set<Id>)
    requires IsRun(trace, acts) && 0 < j <= |acts| && Holds(trace[j - 1], f, t, all) && !Creates(trace[j - 1], acts[j - 1], f)
    ensures Holds(trace[j], f, t, Effect(acts[j - 1], f, all))
  {
    StepOfRun(trace, acts, j);
    ActionHolds(trace[j - 1], acts[j - 1], f, t, all);
  }

  /** In every run, also with errors and lost views: a valid folder holds exactly what its last
      thread has enumerated, less what was removed and more what was added since; until then what
      is missing is what that thread has yet to be told.  The thread that reports success has
      left the folder valid. */
  lemma StoresTheEnumerated(trace: seq<State>, acts: seq<Action>, f: nat, i: nat, j: nat)
    requires IsRun(trace, acts) && i < j <= |acts| && LastCreation(trace, acts, f, i, j)
    ensures var t, all := |trace[i].threads|, Expected(acts, f, i + 1, j, Ids(acts[i].ids));
      && f < |trace[j].folders| && t < |trace[j].threads|
      && var F, T := trace[j].folders[f], trace[j].threads[t];
      && (F.valid ==> F.msgs.Keys == all)
      && (Succeeded(T.pc) ==> F.valid)
      && (Enumerating(T.pc) ==> forall id :: id in all <==> id in F.msgs || id in Pending(T))
      && (Enumerating(T.pc) ==> forall id | id in Pending(T) :: id !in F.msgs)
  {
    var t, all := |trace[i].threads|, Expected(acts, f, i + 1, j, Ids(acts[i].ids));
    RunHolds(trace, acts, f, i, j);
    RunKeepsGathering(trace, acts, j);
    var F, T := trace[j].folders[f], trace[j].threads[t];
    assert PendingOk(T, F);
    if Enumerating(T.pc) {
      forall id ensures id in all <==> id in F.msgs || id in Pending(T) {
        assert id in all <==> id in F.msgs.Keys + Elements(Pending(T));
      }
    }
  }

  // ---------------------------------------------------------------- without errors

  /** Folder `f`, which is not valid, will be rebuilt. */
  ghost predicate Due(s: State, f: nat)
    requires f < |s.folders|
  {
    || (!s.folders[f].refreshing && exists k: nat :: VisitAt(s, f, k))
    || exists k: nat :: RebuildAt(s, f, k)
  }

  /** A handler has yet to look at the folder. */
  predicate VisitAt(s: State, f: nat, k: nat) { k < |s.stack| && s.stack[k].ViewFolder? && s.stack[k].next <= f }

  /** A RebuildContents of the folder that has not failed has yet to create the thread. */
  predicate RebuildAt(s: State, f: nat, k: nat) {
    && k < |s.stack| && s.stack[k].Rebuild? && s.stack[k].folder == f
    && s.stack[k].pc != LeaveCs && s.stack[k].pc != EnterCs(false)
  }

  /** Unless there are errors, folder `f` is going to be valid and to hold `all`. */
  ghost predicate OnTrack(s: State, f: nat, all: set<Id>, servers: Servers)
    requires f < |s.folders|
  {
    || (s.folders[f].valid && s.folders[f].msgs.Keys == all)
    || (Builder(s, f) && Fills(s, f, s.folders[f].handle.value, all))
    || (!s.folders[f].valid && Due(s, f) && all == Ids(servers(f)))
  }

  ghost predicate Fills(s: State, f: nat, t: Tid, all: set<Id>) {
    Holds(s, f, t, all) && Enumerating(s.threads[t].pc)
  }

  lemma StepLeavesValid(s: State, t: Tid, f: nat)
    requires CanAdvance(s, t) && ThreadOk(s, t) && f < |s.folders| && s.folders[f].valid
    ensures var r := Advance(s, t);
      |r.folders| == |s.folders| && r.folders[f].valid && r.folders[f].msgs == s.folders[f].msgs
  {}

  /** A valid folder stays as it is without events. */
  lemma ValidStays(s: State, a: Action, f: nat)
    requires Flags(s) && Enabled(s, a) && Internal(a) && f < |s.folders| && s.folders[f].valid
    ensures |Apply(s, a).folders| == |s.folders| && Apply(s, a).folders[f].valid
    ensures Apply(s, a).folders[f].msgs == s.folders[f].msgs
  {
    match a
    case Step(t) =>
      assert ThreadOk(s, t);
      StepLeavesValid(s, t, f);
    case FailRefresh(t) =>
    case ServeThread(t) => assert ThreadOk(s, t);
    case Run => if s.Top().Rebuild? { assert FrameOk(s, s.Top()); }
    case _ =>
  }

  /** The thread that fills the folder goes on, or has told all and makes the folder valid. */
  lemma OwnFillsOn(s: State, a: Action, f: nat, t: Tid, all: set<Id>)
    requires Flags(s) && Enabled(s, a) && (a == Step(t) || a == ServeThread(t))
    requires Fills(s, f, t, all) && Holds(Apply(s, a), f, t, all)
    ensures Apply(s, a).folders[f].valid || (Fills(Apply(s, a), f, t, all) && Apply(s, a).folders[f].handle == Some(t))
  {
    assert ThreadOk(s, t);
    if a.Step? { StepMoves(s, t); } else { ServeMoves(s, t); }
  }

  /** Nothing else changes its thread, or the handle. */
  lemma ElseFillsOn(s: State, a: Action, f: nat, t: Tid, all: set<Id>)
    requires Flags(s) && Enabled(s, a) && Internal(a) && !a.FailRefresh? && a != Step(t) && a != ServeThread(t)
    requires !Creates(s, a, f) && Fills(s, f, t, all)
    ensures var r := Apply(s, a); f < |r.folders| && r.folders[f].handle == Some(t) && t < |r.threads| && r.threads[t] == s.threads[t]
  {
    assert ThreadOk(s, t);
    match a
    case Step(u) => assert ThreadOk(s, u); StepMoves(s, u);
    case ServeThread(u) => assert ThreadOk(s, u); ServeMoves(s, u);
    case Run => HandlerLeaves(s, f, t);
    case _ => OutcomeLeaves(s, a, f, t);
  }

  lemma FillerIsAlone(s: State, a: Action, f: nat, t: Tid, all: set<Id>)
    requires Flags(s) && Enabled(s, a) && Fills(s, f, t, all)
    ensures !Creates(s, a, f)
  {
    assert ThreadOk(s, t);
    if Creates(s, a, f) { NoBuilderOfTop(s, t); }
  }

  lemma FillsOn(s: State, a: Action, f: nat, t: Tid, all: set<Id>, servers: Servers)
    requires Flags(s) && Gathering(s) && Enabled(s, a) && Internal(a) && Smooth(s, a, servers) && Fills(s, f, t, all)
    ensures f < |Apply(s, a).folders| && OnTrack(Apply(s, a), f, all, servers)
  {
    assert ThreadOk(s, t);
    FillerIsAlone(s, a, f, t, all);
    ActionHolds(s, a, f, t, all);
    if a == Step(t) || a == ServeThread(t) { OwnFillsOn(s, a, f, t, all); } else { ElseFillsOn(s, a, f, t, all); }
  }

  /** Neither a thread nor what is served for it touches a folder that is due. */
  lemma DueWaits(s: State, a: Action, f: nat)
    requires Flags(s) && Enabled(s, a) && (a.Step? || a.ServeThread?) && f < |s.folders| && !s.folders[f].valid && Due(s, f)
    ensures var r := Apply(s, a); f < |r.folders| && !r.folders[f].valid && Due(r, f)
  {
    var r := Apply(s, a);
    assert ThreadOk(s, a.t);
    if a.Step? { StepMoves(s, a.t); } else { ServeMoves(s, a.t); }
    if k: nat :| RebuildAt(s, f, k) { assert FrameOk(s, s.stack[k]); assert RebuildAt(r, f, k); }
    else { var k: nat :| VisitAt(s, f, k); assert VisitAt(r, f, k); }
  }

  /** A handler looks at the folder, goes on rebuilding it, or leaves it alone. */
  lemma DueIsVisited(s: State, f: nat)
    requires Flags(s) && CanRun(s) && s.Top().ViewFolder? && f < |s.folders| && !s.folders[f].valid && Due(s, f)
    ensures var r := RunHandler(s); f < |r.folders| && !r.folders[f].valid && Due(r, f)
  {
    var r := RunHandler(s);
    if k: nat :| RebuildAt(s, f, k) {
      assert RebuildAt(r, f, k);
    } else {
      var k: nat :| VisitAt(s, f, k);
      if k == |s.stack| - 1 && s.Top().next == f { assert RebuildAt(r, f, k + 1); } else { assert VisitAt(r, f, k); }
    }
  }

  /** The frames below the running RebuildContents stay, and it goes on or returns; other folders
      stay as they are. */
  lemma RebuildStack(s: State, f: nat)
    requires CanRun(s) && s.Top().Rebuild? && f < |s.folders|
    ensures var r, n := RunHandler(s), |s.stack| - 1;
      && (forall k: nat | k < n :: k < |r.stack| && r.stack[k] == s.stack[k])
      && (RebuildAt(s, s.Top().folder, n) ==> RebuildAt(r, s.Top().folder, n))
      && f < |r.folders| && (r.folders[f].valid ==> s.folders[f].valid)
      && (s.Top().folder != f || s.Top().pc == LeaveCs ==> r.folders[f].refreshing == s.folders[f].refreshing)
  {}

  lemma DueIsRebuilt(s: State, f: nat)
    requires Flags(s) && CanRun(s) && s.Top().Rebuild? && f < |s.folders| && !s.folders[f].valid && Due(s, f)
    ensures var r := RunHandler(s); f < |r.folders| && !r.folders[f].valid && Due(r, f)
  {
    var r, n := RunHandler(s), |s.stack| - 1;
    RebuildStack(s, f);
    if !RebuildAt(s, f, n) { DueBelow(s, f); }
    DueStays(s, r, f, n);
  }

  /** A folder that the running RebuildContents is not going to fill. */
  lemma DueBelow(s: State, f: nat)
    requires Flags(s) && CanRun(s) && s.Top().Rebuild? && f < |s.folders| && Due(s, f) && !RebuildAt(s, f, |s.stack| - 1)
    ensures (exists k: nat :: k < |s.stack| - 1 && RebuildAt(s, f, k))
      || (!s.folders[f].refreshing && (s.Top().folder != f || s.Top().pc == LeaveCs)
          && exists k: nat :: k < |s.stack| - 1 && VisitAt(s, f, k))
  {
    assert FrameOk(s, s.Top());
    if k: nat :| RebuildAt(s, f, k) {
      assert k < |s.stack| - 1;
    } else {
      var k: nat :| VisitAt(s, f, k);
      assert k < |s.stack| - 1;
    }
  }

  lemma DueStays(s: State, r: State, f: nat, n: nat)
    requires n < |s.stack| && f < |s.folders| && f < |r.folders|
    requires forall k: nat | k < n :: k < |r.stack| && r.stack[k] == s.stack[k]
    requires (RebuildAt(s, f, n) && RebuildAt(r, f, n))
      || (exists k: nat :: k < n && RebuildAt(s, f, k))
      || (!r.folders[f].refreshing && exists k: nat :: k < n && VisitAt(s, f, k))
    ensures Due(r, f)
  {
    if k: nat :| k < n && RebuildAt(s, f, k) {
      assert RebuildAt(r, f, k);
    } else if k: nat :| k < n && VisitAt(s, f, k) {
      assert VisitAt(r, f, k);
    }
  }

  lemma DueIsCreated(s: State, ids: seq<seq<Id>>, f: nat, servers: Servers)
    requires Flags(s) && CreateOk(s) && Enabled(s, CreateThread(ids)) && Smooth(s, CreateThread(ids), servers)
    requires f < |s.folders| && !s.folders[f].valid && Due(s, f)
    ensures var r := ThreadCreated(s, ids); f < |r.folders| && OnTrack(r, f, Ids(servers(f)), servers)
  {
    var r := ThreadCreated(s, ids);
    assert FrameOk(s, s.Top());
    if s.Top().folder == f {
      CreatedHolds(s, ids);
    } else if k: nat :| RebuildAt(s, f, k) {
      assert RebuildAt(r, f, k);
    } else {
      var k: nat :| VisitAt(s, f, k);
      assert VisitAt(r, f, k);
    }
  }

  /** Without errors what is going to be stored stays the same. */
  lemma SmoothKeepsTrack(s: State, a: Action, f: nat, all: set<Id>, servers: Servers)
    requires Flags(s) && Gathering(s) && Enabled(s, a) && Internal(a) && Smooth(s, a, servers)
    requires f < |s.folders| && OnTrack(s, f, all, servers)
    ensures f < |Apply(s, a).folders| && OnTrack(Apply(s, a), f, all, servers)
  {
    if s.folders[f].valid && s.folders[f].msgs.Keys == all {
      ValidStays(s, a, f);
    } else if Builder(s, f) && Fills(s, f, s.folders[f].handle.value, all) {
      FillsOn(s, a, f, s.folders[f].handle.value, all, servers);
    } else if a.CreateThread? {
      DueIsCreated(s, a.ids, f, servers);
    } else if a.Run? {
      if s.Top().ViewFolder? { DueIsVisited(s, f); } else { DueIsRebuilt(s, f); }
    } else {
      DueWaits(s, a, f);
    }
  }

  lemma {:induction false} SmoothPathKeepsTrack(path: seq<State>, acts: seq<Action>, f: nat, all: set<Id>, servers: Servers, n: nat)
    requires n <= |acts| && |path| == |acts| + 1 && OnTheirOwn(path[0], path, acts) && Smoothly(path, acts, servers)
    requires Flags(path[0]) && Gathering(path[0]) && f < |path[0].folders| && OnTrack(path[0], f, all, servers)
    ensures var s := path[n]; Flags(s) && Gathering(s) && f < |s.folders| && OnTrack(s, f, all, servers)
  {
    if n > 0 {
      SmoothPathKeepsTrack(path, acts, f, all, servers, n - 1);
      SmoothStep(path[n - 1], acts[n - 1], f, all, servers);
    }
  }

  lemma SmoothStep(s: State, a: Action, f: nat, all: set<Id>, servers: Servers)
    requires Flags(s) && Gathering(s) && Enabled(s, a) && Internal(a) && Smooth(s, a, servers)
    requires f < |s.folders| && OnTrack(s, f, all, servers)
    ensures var r := Apply(s, a); Flags(r) && Gathering(r) && f < |r.folders| && OnTrack(r, f, all, servers)
  {
    KeepsFlags(s, a);
    KeepsGathering(s, a);
    SmoothKeepsTrack(s, a, f, all, servers);
  }

  lemma RestOnTrack(s: State, f: nat, all: set<Id>, servers: Servers)
    requires AtRest(s) && f < |s.folders| && OnTrack(s, f, all, servers)
    ensures s.folders[f].valid && s.folders[f].msgs.Keys == all
  {}

  /** Wherever the threads go on their own without an error: when they have come to rest, every
      folder that was on its way is valid and holds what it was to hold. */
  lemma SmoothPathFills(path: seq<State>, acts: seq<Action>, f: nat, all: set<Id>, servers: Servers)
    requires |path| == |acts| + 1 && OnTheirOwn(path[0], path, acts) && Smoothly(path, acts, servers) && AtRest(path[|acts|])
    requires Flags(path[0]) && Gathering(path[0]) && f < |path[0].folders| && OnTrack(path[0], f, all, servers)
    ensures var s := path[|acts|]; f < |s.folders| && s.folders[f].valid && s.folders[f].msgs.Keys == all
  {
    SmoothPathKeepsTrack(path, acts, f, all, servers, |acts|);
    RestOnTrack(path[|acts|], f, all, servers);
  }

  // ---------------------------------------------------------------- the commands

  /** F5, wherever the threads go from there without an error: when they come to rest, every folder
      is valid and holds exactly what its server has enumerated. */
  lemma RefreshFillsAll(trace: seq<State>, acts: seq<Action>, i: nat, servers: Servers, path: seq<State>, more: seq<Action>)
    requires IsRun(trace, acts) && i < |acts| && acts[i] == RefreshCurrent
    requires OnTheirOwn(trace[i + 1], path, more) && Smoothly(path, more, servers) && AtRest(path[|more|])
    ensures |path[|more|].folders| == |trace[i].folders|
    ensures forall f: nat | f < |trace[i].folders| :: var F := path[|more|].folders[f]; F.valid && F.msgs.Keys == Ids(servers(f))
  {
    var s, r := trace[i], trace[i + 1];
    RunKeepsFlags(trace, acts, i + 1);
    RunKeepsGathering(trace, acts, i + 1);
    PathKeepsFolders(path, more, |more|);
    forall f: nat | f < |s.folders| ensures path[|more|].folders[f].valid && path[|more|].folders[f].msgs.Keys == Ids(servers(f)) {
      assert VisitAt(r, f, |r.stack| - 1);
      SmoothPathFills(path, more, f, Ids(servers(f)), servers);
    }
  }

  lemma {:induction false} PathKeepsFolders(path: seq<State>, acts: seq<Action>, n: nat)
    requires n <= |acts| && |path| == |acts| + 1 && OnTheirOwn(path[0], path, acts)
    ensures |path[n].folders| == |path[0].folders|
  {
    if n > 0 {
      PathKeepsFolders(path, acts, n - 1);
      assert path[n] == Apply(path[n - 1], acts[n - 1]);
    }
  }

  /** The refresh of the folder has already failed, and is being wound up. */
  ghost predicate Failing(s: State, f: nat)
    requires f < |s.folders|
  {
    && s.folders[f].refreshing && !s.folders[f].valid
    && if Builder(s, f) then !Enumerating(s.threads[s.folders[f].handle.value].pc)
       else forall k: nat | ActiveAt(s, f, k) :: s.stack[k].pc == EnterCs(false)
  }

  /** What an opened folder is going to hold. */
  function Promised(s: State, f: nat, servers: Servers): set<Id>
    requires f < |s.folders|
  {
    var F := s.folders[f];
    if F.valid then F.msgs.Keys
    else if Builder(s, f) then F.msgs.Keys + Elements(Pending(s.threads[F.handle.value]))
    else Ids(servers(f))
  }

  lemma OpenedIsOnTrack(s: State, f: nat, servers: Servers)
    requires Flags(s) && Enabled(s, OpenFolder) && f < |s.folders| && !Failing(s, f)
    ensures OnTrack(Apply(s, OpenFolder), f, Promised(s, f, servers), servers)
  {
    var r, F := Apply(s, OpenFolder), s.folders[f];
    assert FolderOk(s, f);
    if F.valid {
    } else if Builder(s, f) {
      assert ThreadOk(s, F.handle.value);
      assert Fills(r, f, F.handle.value, Promised(s, f, servers));
    } else if F.refreshing {
      var k: nat :| ActiveAt(s, f, k) && s.stack[k].pc != EnterCs(false);
      assert RebuildAt(r, f, k);
    } else {
      assert VisitAt(r, f, |s.stack|);
    }
  }

  /** Opening the view, also in the middle of other work: every folder whose refresh has not
      failed already comes to be valid.  A valid one keeps what it holds, one that is being filled
      gets the rest, and any other one what its server enumerates. */
  lemma OpenFillsAll(trace: seq<State>, acts: seq<Action>, i: nat, servers: Servers, path: seq<State>, more: seq<Action>)
    requires IsRun(trace, acts) && i < |acts| && acts[i] == OpenFolder
    requires OnTheirOwn(trace[i + 1], path, more) && Smoothly(path, more, servers) && AtRest(path[|more|])
    ensures |path[|more|].folders| == |trace[i].folders|
    ensures forall f: nat | f < |trace[i].folders| && !Failing(trace[i], f) :: var F := path[|more|].folders[f];
      F.valid && F.msgs.Keys == Promised(trace[i], f, servers)
  {
    var s := trace[i];
    RunKeepsFlags(trace, acts, i);
    RunKeepsFlags(trace, acts, i + 1);
    RunKeepsGathering(trace, acts, i + 1);
    PathKeepsFolders(path, more, |more|);
    forall f: nat | f < |s.folders| && !Failing(s, f)
      ensures path[|more|].folders[f].valid && path[|more|].folders[f].msgs.Keys == Promised(s, f, servers)
    {
      OpenedIsOnTrack(s, f, servers);
      SmoothPathFills(path, more, f, Promised(s, f, servers), servers);
    }
  }

  /** A refresh at the root takes effect when the view is opened next: again every folder comes to hold
      exactly what its server enumerates then. */
  lemma RootRefreshFillsAll(trace: seq<State>, acts: seq<Action>, i: nat, servers: Servers, path: seq<State>, more: seq<Action>)
    requires IsRun(trace, acts) && i + 1 < |acts| && acts[i] == RefreshRoot && acts[i + 1] == OpenFolder
    requires OnTheirOwn(trace[i + 2], path, more) && Smoothly(path, more, servers) && AtRest(path[|more|])
    ensures trace[i + 1].rows == {} && |path[|more|].folders| == |trace[i].folders|
    ensures forall f: nat | f < |trace[i].folders| :: var F := path[|more|].folders[f]; F.valid && F.msgs.Keys == Ids(servers(f))
  {
    var r := trace[i + 1];
    RunKeepsFlags(trace, acts, i + 1);
    forall f: nat | f < |r.folders| ensures !Failing(r, f) && Promised(r, f, servers) == Ids(servers(f)) {
      IdleHasNoBuilder(r, f);
    }
    OpenFillsAll(trace, acts, i + 1, servers, path, more);
  }

  /** There is such a way for whatever the servers enumerate; and if no delete command has lost its
      view, the rows at its end are the messages of all folders. */
  lemma RefreshComesToShowAll(trace: seq<State>, acts: seq<Action>, i: nat, servers: Servers)
    returns (path: seq<State>, more: seq<Action>)
    requires IsRun(trace, acts) && i < |acts| && acts[i] == RefreshCurrent && Distinctly(servers)
    ensures OnTheirOwn(trace[i + 1], path, more) && Smoothly(path, more, servers) && AtRest(path[|more|])
    ensures var s := path[|more|];
      && (forall f: nat | f < |s.folders| :: s.folders[f].valid && s.folders[f].msgs.Keys == Ids(servers(f)))
      && (OrderlyRun(trace, acts) ==> s.rows == set f, id | 0 <= f < |s.folders| && id in s.folders[f].msgs :: s.folders[f].msgs[id])
  {
    path, more := EveryRunComesToRest(trace, acts, i + 1, servers);
    RefreshFillsAll(trace, acts, i, servers, path, more);
    var s := path[|more|];
    if OrderlyRun(trace, acts) {
      assert forall f, id | 0 <= f < |s.folders| && id in s.folders[f].msgs :: s.folders[f].valid;
    }
  }
}
