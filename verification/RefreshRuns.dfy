/** What holds in every run of the refresh protocol. */
module RefreshRuns {
  import opened RefreshProtocol
  import opened RefreshFlags
  import opened RefreshPending
  import opened RefreshRows

  ghost predicate IsRun(trace: seq<State>, acts: seq<Action>) {
    && |trace| == |acts| + 1 && IsInit(trace[0])
    && forall i | 0 <= i < |acts| :: Enabled(trace[i], acts[i]) && trace[i + 1] == Apply(trace[i], acts[i])
  }

  /** No delete command is taken while a build thread has reset its folder's view pointer. */
  predicate OrderlyRun(trace: seq<State>, acts: seq<Action>)
    requires |trace| == |acts| + 1
  {
    forall i | 0 <= i < |acts| :: Orderly(trace[i], acts[i])
  }

  predicate NoDanglingRow(s: State) { forall p | p in s.rows :: p in s.heap }

  lemma {:induction false} RunKeepsFlags(trace: seq<State>, acts: seq<Action>, i: nat)
    requires IsRun(trace, acts) && i < |trace|
    ensures Flags(trace[i])
  {
    if i == 0 {
      InitFlags(trace[0]);
    } else {
      RunKeepsFlags(trace, acts, i - 1);
      KeepsFlags(trace[i - 1], acts[i - 1]);
    }
  }

  lemma {:induction false} RunKeepsGathering(trace: seq<State>, acts: seq<Action>, i: nat)
    requires IsRun(trace, acts) && i < |trace|
    ensures Gathering(trace[i])
  {
    if i == 0 {
      InitGathering(trace[0]);
    } else {
      RunKeepsGathering(trace, acts, i - 1);
      RunKeepsFlags(trace, acts, i - 1);
      KeepsGathering(trace[i - 1], acts[i - 1]);
    }
  }

  lemma {:induction false} RunKeepsRows(trace: seq<State>, acts: seq<Action>, i: nat)
    requires IsRun(trace, acts) && i < |trace|
    requires forall j | 0 <= j < i :: Orderly(trace[j], acts[j])
    ensures Rows(trace[i])
  {
    if i == 0 {
      InitRows(trace[0]);
    } else {
      RunKeepsRows(trace, acts, i - 1);
      RunKeepsFlags(trace, acts, i - 1);
      RunKeepsGathering(trace, acts, i - 1);
      KeepsRows(trace[i - 1], acts[i - 1]);
    }
  }

  // ---------------------------------------------------------------- safety

  /** RebuildContents starts only when its folder is not refreshing; a locked folder is
      refreshing; one thread per folder is between its creation and its clearing of
      m_bRefreshing, and it never finds m_bStopRefresh set. */
  lemma OneBuilderPerFolder(trace: seq<State>, acts: seq<Action>, i: nat)
    requires IsRun(trace, acts) && i < |trace|
    ensures var s := trace[i];
      && (s.stack != [] && s.Top().Rebuild? && s.Top().pc == Begin ==>
          s.Top().folder < |s.folders| && !s.folders[s.Top().folder].refreshing)
      && (forall f | 0 <= f < |s.folders| :: s.folders[f].locked ==> s.folders[f].refreshing)
      && (forall t, u | 0 <= t < u < |s.threads| ::
          s.threads[t].Building() && s.threads[u].Building() ==> s.threads[t].folder != s.threads[u].folder)
      && (forall t | 0 <= t < |s.threads| :: s.threads[t].Building() ==>
          s.threads[t].folder < |s.folders| && s.folders[s.threads[t].folder].refreshing && !s.folders[s.threads[t].folder].stop)
  {
    var s := trace[i];
    RunKeepsFlags(trace, acts, i);
    if s.stack != [] { assert FrameOk(s, s.Top()); }
    forall f: nat | f < |s.folders| ensures s.folders[f].locked ==> s.folders[f].refreshing { assert FolderOk(s, f); }
    forall t: Tid | t < |s.threads|
      ensures s.threads[t].Building() ==> s.threads[t].folder < |s.folders| && s.folders[s.threads[t].folder].handle == Some(t)
      ensures s.threads[t].Building() ==> s.folders[s.threads[t].folder].refreshing && !s.folders[s.threads[t].folder].stop
    { assert ThreadOk(s, t); }
  }

  /** A thread that waits for the other one holds no m_CsData meanwhile. */
  lemma NobodyWaitsInsideData(trace: seq<State>, acts: seq<Action>, i: nat)
    requires IsRun(trace, acts) && i < |trace|
    ensures var s := trace[i]; forall f | 0 <= f < |s.folders| ::
      && (s.Serving() ==> !s.folders[f].cs.HeldBy(UiThread))
      && (forall t | 0 <= t < |s.threads| && (s.threads[t].pc.Sending? || s.threads[t].pc == Painting) ::
          !s.folders[f].cs.HeldBy(Worker(t)))
  {
    var s := trace[i];
    RunKeepsFlags(trace, acts, i);
    forall f: nat | f < |s.folders|
      ensures s.Serving() ==> !s.folders[f].cs.HeldBy(UiThread)
      ensures forall t | 0 <= t < |s.threads| && (s.threads[t].pc.Sending? || s.threads[t].pc == Painting) ::
        !s.folders[f].cs.HeldBy(Worker(t))
    { assert FolderOk(s, f); }
  }

  lemma IdleHasNoBuilder(s: State, f: nat)
    requires Flags(s) && f < |s.folders| && !s.folders[f].refreshing
    ensures !Builder(s, f)
  {
    assert FolderOk(s, f);
    if s.folders[f].handle.Some? { assert ThreadOk(s, s.folders[f].handle.value); }
  }

  /** Every row is a live message of some folder's map; a folder that is not refreshing
      shows all of its map if it is valid and nothing of it otherwise; what a thread has
      stored and not sent is not shown yet, and everything else it has stored is. */
  lemma ViewIndexesMaps(trace: seq<State>, acts: seq<Action>, i: nat)
    requires IsRun(trace, acts) && OrderlyRun(trace, acts) && i < |trace|
    ensures var s := trace[i];
      && (forall p | p in s.rows :: p in s.heap && Stored(s, p))
      && (forall f, id | 0 <= f < |s.folders| && id in s.folders[f].msgs :: s.folders[f].msgs[id] in s.heap)
      && (forall f, id | 0 <= f < |s.folders| && id in s.folders[f].msgs && !s.folders[f].refreshing ::
          s.folders[f].msgs[id] in s.rows <==> s.folders[f].valid)
      && (forall t | 0 <= t < |s.threads| && s.threads[t].Building() ::
          s.threads[t].folder < |s.folders| && var F := s.folders[s.threads[t].folder];
          s.threads[t].chunk == set id | id in F.msgs && F.msgs[id] !in s.rows :: F.msgs[id])
  {
    var s := trace[i];
    RunKeepsFlags(trace, acts, i);
    RunKeepsRows(trace, acts, i);
    forall f: nat, id | f < |s.folders| && id in s.folders[f].msgs && !s.folders[f].refreshing
      ensures s.folders[f].msgs[id] in s.rows <==> s.folders[f].valid
    {
      IdleHasNoBuilder(s, f);
    }
    forall t: Tid | t < |s.threads| && s.threads[t].Building()
      ensures s.threads[t].folder < |s.folders| && var F := s.folders[s.threads[t].folder];
        s.threads[t].chunk == set id | id in F.msgs && F.msgs[id] !in s.rows :: F.msgs[id]
    {
      assert ThreadOk(s, t) && WorkOk(s, t);
      var F := s.folders[s.threads[t].folder];
      forall p | p in s.threads[t].chunk ensures exists id :: id in F.msgs && F.msgs[id] == p && p !in s.rows {
        assert Stored(s, p);
        assert F.msgs[s.heap[p].id] == p;
      }
    }
  }

  // ---------------------------------------------------------------- the one hole

  /** From a good state, a delete command leaves every row live exactly if the folder's
      view pointer is set at that moment. */
  lemma DeleteKeepsRowsLive(s: State, f: nat, id: Id)
    requires Flags(s) && Rows(s) && Enabled(s, DeleteRow(f, id))
    ensures NoDanglingRow(Apply(s, DeleteRow(f, id))) <==> s.folders[f].attached
  {
    if s.folders[f].attached {
      RemoveKeepsRows(s, f, id);
    } else {
      var p := s.folders[f].msgs[id];
      assert p in Apply(s, DeleteRow(f, id)).rows && p !in Apply(s, DeleteRow(f, id)).heap;
    }
  }

  /** A run shows no freed message at any time exactly if it is orderly. */
  lemma DanglesIffDisorderly(trace: seq<State>, acts: seq<Action>)
    requires IsRun(trace, acts)
    ensures (forall i | 0 <= i < |trace| :: NoDanglingRow(trace[i])) <==> OrderlyRun(trace, acts)
  {
    if OrderlyRun(trace, acts) {
      forall i: nat | i < |trace| ensures NoDanglingRow(trace[i]) { RunKeepsRows(trace, acts, i); }
    } else {
      var i := FirstDisorder(trace, acts, 0);
      RunKeepsFlags(trace, acts, i);
      RunKeepsRows(trace, acts, i);
      DeleteKeepsRowsLive(trace[i], acts[i].f, acts[i].id);
      assert !NoDanglingRow(trace[i + 1]);
    }
  }

  lemma {:induction false} FirstDisorder(trace: seq<State>, acts: seq<Action>, from: nat) returns (i: nat)
    requires |trace| == |acts| + 1 && from <= |acts| && !OrderlyRun(trace, acts)
    requires forall j | 0 <= j < from :: Orderly(trace[j], acts[j])
    ensures i < |acts| && !Orderly(trace[i], acts[i]) && forall j | 0 <= j < i :: Orderly(trace[j], acts[j])
    decreases |acts| - from
  {
    if Orderly(trace[from], acts[from]) { i := FirstDisorder(trace, acts, from + 1); } else { i := from; }
  }

  ghost predicate Reached(trace: seq<State>, acts: seq<Action>, s: State) {
    IsRun(trace, acts) && trace[|acts|] == s
  }

  lemma Extend(trace: seq<State>, acts: seq<Action>, s: State, a: Action) returns (trace': seq<State>, acts': seq<Action>)
    requires Reached(trace, acts, s) && Enabled(s, a)
    ensures Reached(trace', acts', Apply(s, a))
  {
    trace', acts' := trace + [Apply(s, a)], acts + [a];
  }

  function ClosedFolder(): Folder { Folder(false, false, false, false, false, None, map[], CritSec(UiThread, 0)) }

  function Rebuilding(F: Folder, pc: RebuildPc): State {
    State([F], [], [ViewFolder(1), Rebuild(0, pc)], {}, map[], 0)
  }

  function Creating(): State {
    Rebuilding(Folder(false, true, true, true, false, None, map[], CritSec(UiThread, 1)), Create)
  }

  function Created(): State {
    State([Folder(false, true, true, false, false, Some(0), map[], CritSec(UiThread, 1))],
          [BuildThread(0, Enumerate, [], [[7]], {})], [ViewFolder(1), Rebuild(0, LeaveCs)], {}, map[], 0)
  }

  function Refreshing(pc: WorkerPc, batch: seq<Id>, todo: seq<seq<Id>>): State {
    State([Folder(false, true, true, false, false, Some(0), map[], CritSec(UiThread, 0))],
          [BuildThread(0, pc, batch, todo, {})], [], {}, map[], 0)
  }

  function Shown(): State {
    State([Folder(false, true, true, false, true, Some(0), map[7 := 0], CritSec(Worker(0), 0))],
          [BuildThread(0, Enumerate, [], [], {})], [], {0}, map[0 := Msg(0, 7)], 1)
  }

  lemma RunToBegin() returns (trace: seq<State>, acts: seq<Action>)
    ensures Reached(trace, acts, Rebuilding(ClosedFolder(), Begin))
  {
    var s0 := State([ClosedFolder()], [], [], {}, map[], 0);
    trace, acts := [s0], [];
    trace, acts := Extend(trace, acts, s0, OpenFolder);
    trace, acts := Extend(trace, acts, Push(s0, ViewFolder(0)), Run);
    assert RunHandler(Push(s0, ViewFolder(0))) == Rebuilding(ClosedFolder(), Begin);
  }

  lemma RunToEnter() returns (trace: seq<State>, acts: seq<Action>)
    ensures Reached(trace, acts, RunHandler(RunHandler(Rebuilding(ClosedFolder(), Begin))))
  {
    trace, acts := RunToBegin();
    var s := Rebuilding(ClosedFolder(), Begin);
    trace, acts := Extend(trace, acts, s, Run);
    trace, acts := Extend(trace, acts, RunHandler(s), Run);
  }

  lemma RunToCreate() returns (trace: seq<State>, acts: seq<Action>)
    ensures Reached(trace, acts, Creating())
  {
    trace, acts := RunToEnter();
    var s4 := RunHandler(RunHandler(Rebuilding(ClosedFolder(), Begin)));
    trace, acts := Extend(trace, acts, s4, Run);
    var s5 := RunHandler(s4);
    trace, acts := Extend(trace, acts, s5, Run);
    assert RunHandler(s5) == Creating();
  }

  lemma RunToRefreshing() returns (trace: seq<State>, acts: seq<Action>)
    ensures Reached(trace, acts, Refreshing(Enumerate, [], [[7]]))
  {
    trace, acts := RunToCreate();
    assert Flatten([[7]]) == [7];
    trace, acts := Extend(trace, acts, Creating(), CreateThread([[7]]));
    var s1 := Created();
    assert ThreadCreated(Creating(), [[7]]) == s1;
    trace, acts := Extend(trace, acts, s1, Run);
    var s2 := RunHandler(s1);
    trace, acts := Extend(trace, acts, s2, Run);
    assert RunHandler(s2) == Refreshing(Enumerate, [], [[7]]);
  }

  function OneStored(pc: WorkerPc, chunk: set<Ptr>): State {
    State([Folder(false, true, true, false, pc == Sending(AddChunk), Some(0), map[7 := 0], CritSec(Worker(0), 0))],
          [BuildThread(0, pc, [], [], chunk)], [], {}, map[0 := Msg(0, 7)], 1)
  }

  lemma RunToStored() returns (trace: seq<State>, acts: seq<Action>)
    ensures Reached(trace, acts, OneStored(Detach(AddChunk), {0}))
  {
    trace, acts := RunToRefreshing();
    trace, acts := Extend(trace, acts, Refreshing(Enumerate, [], [[7]]), Step(0));
    var s1 := Refreshing(Fill, [7], []);
    assert [[7]][1..] == [] && [7][1..] == [];
    assert Advance(Refreshing(Enumerate, [], [[7]]), 0) == s1;
    trace, acts := Extend(trace, acts, s1, Step(0));
    var s2 := Advance(s1, 0);
    trace, acts := Extend(trace, acts, s2, Step(0));
    var s3 := Advance(s2, 0);
    assert s3.folders[0].msgs == map[7 := 0] && s3.heap == map[0 := Msg(0, 7)] && s3.threads[0].chunk == {0};
    assert s3.folders == OneStored(Fill, {0}).folders && s3.threads == OneStored(Fill, {0}).threads;
    trace, acts := Extend(trace, acts, OneStored(Fill, {0}), Step(0));
    assert Advance(OneStored(Fill, {0}), 0) == OneStored(Detach(AddChunk), {0});
  }

  lemma RunToShown() returns (trace: seq<State>, acts: seq<Action>)
    ensures Reached(trace, acts, Shown())
  {
    trace, acts := RunToStored();
    var s4 := OneStored(Detach(AddChunk), {0});
    trace, acts := Extend(trace, acts, s4, Step(0));
    var s5 := Advance(s4, 0);
    trace, acts := Extend(trace, acts, s5, Step(0));
    var s6 := OneStored(Sending(AddChunk), {0});
    assert Advance(s5, 0) == s6;
    trace, acts := Extend(trace, acts, s6, ServeThread(0));
    assert Serve(s6, 0) == Shown();
  }

  /** One folder with one message on its server: the user opens the folder, the chunk
      arrives, and the row is deleted while the thread looks up the view a second time. */
  lemma DisorderlyRun() returns (trace: seq<State>, acts: seq<Action>)
    ensures IsRun(trace, acts) && !NoDanglingRow(trace[|acts|])
  {
    trace, acts := RunToShown();
    trace, acts := Extend(trace, acts, Shown(), Step(0));
    var s1 := Advance(Shown(), 0);
    trace, acts := Extend(trace, acts, s1, Step(0));
    var s2 := Advance(s1, 0);
    trace, acts := Extend(trace, acts, s2, DeleteRow(0, 7));
    assert 0 in RemoveJob(s2, 0, 7).rows && 0 !in RemoveJob(s2, 0, 7).heap;
  }
}
