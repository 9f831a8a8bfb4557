/** No deadlock and no livelock: left alone, the UI thread and the build threads always
    come to rest, and then the view shows exactly the messages of the valid folders. */
module RefreshProgress {
  import opened RefreshProtocol
  import opened RefreshFlags
  import opened RefreshPending
  import opened RefreshRows
  import opened RefreshRuns

  /** The UI thread is in its main message loop and every build thread has died. */
  ghost predicate AtRest(s: State) {
    s.stack == [] && forall t | 0 <= t < |s.threads| :: s.threads[t].pc == Done
  }

  /** Actions the threads take on their own. */
  predicate Internal(a: Action) { !IsEvent(a) }

  /** What each folder's server enumerates when it is asked. */
  type Servers = nat -> seq<seq<Id>>

  ghost predicate Distinctly(servers: Servers) { forall f :: Distinct(Flatten(servers(f))) }

  /** No error happens, and a new thread is told what the folder's server has. */
  predicate Smooth(s: State, a: Action, servers: Servers) {
    && !a.FailRefresh? && !a.WaitFailed? && !a.CreateFailed?
    && (a.CreateThread? ==> TopIsCreate(s) && a.ids == servers(s.Top().folder))
  }

  // ---------------------------------------------------------------- somebody can go on

  lemma SomebodyCanGoOn(s: State, servers: Servers) returns (a: Action)
    requires Flags(s) && !AtRest(s) && Distinctly(servers)
    ensures Enabled(s, a) && Internal(a) && Smooth(s, a, servers)
  {
    if t: Tid :| t < |s.threads| && s.threads[t].InData() {
      assert ThreadOk(s, t);
      a := Step(t);
    } else if !s.Serving() {
      a := HandlerGoesOn(s, servers);
    } else if t: Tid :| t < |s.threads| && s.threads[t].pc != Done {
      a := ThreadGoesOn(s, t);
    } else {
      assert FrameOk(s, s.Top()) && FolderOk(s, s.Top().folder);
      a := Run;
    }
  }

  /** Nobody but the UI thread is inside any m_CsData. */
  ghost predicate NoThreadInData(s: State) { forall t | 0 <= t < |s.threads| :: !s.threads[t].InData() }

  lemma HandlerGoesOn(s: State, servers: Servers) returns (a: Action)
    requires Flags(s) && NoThreadInData(s) && !s.Serving() && Distinctly(servers)
    ensures Enabled(s, a) && (a.Run? || a.CreateThread?) && Smooth(s, a, servers)
  {
    assert FrameOk(s, s.Top());
    if s.Top().Rebuild? { assert FolderOk(s, s.Top().folder); }
    a := if s.Top().Rebuild? && s.Top().pc == Create then CreateThread(servers(s.Top().folder)) else Run;
  }

  lemma ThreadGoesOn(s: State, t: Tid) returns (a: Action)
    requires Flags(s) && NoThreadInData(s) && s.Serving() && t < |s.threads| && s.threads[t].pc != Done
    ensures Enabled(s, a) && (a.Step? || a.ServeThread?)
  {
    assert ThreadOk(s, t) && FolderOk(s, s.threads[t].folder);
    a := if s.threads[t].pc.Sending? || s.threads[t].pc == Painting then ServeThread(t) else Step(t);
  }

  // ---------------------------------------------------------------- it cannot go on for ever

  function ThreadWork(T: BuildThread): nat {
    match T.pc
    case Enumerate => EnumWork(T)
    case Fill => EnumWork(T) + 5
    case Insert => EnumWork(T) + 4
    case Detach(m) => if m == AddChunk then EnumWork(T) + 3 else 8
    case Attach(m) => if m == AddChunk then EnumWork(T) + 2 else 7
    case Sending(m) => if m == AddChunk then EnumWork(T) + 1 else 6
    case EnterData => 5
    case UnlockFolder => 4
    case EndRefreshing => 3
    case Painting => 2
    case Done => 1
  }

  function EnumWork(T: BuildThread): nat { 10 + 6 * |T.todo| + 2 * |Pending(T)| }

  function Work(threads: seq<BuildThread>): nat {
    if threads == [] then 0 else Work(threads[..|threads| - 1]) + ThreadWork(threads[|threads| - 1])
  }

  lemma {:induction false} WorkOfUpdate(threads: seq<BuildThread>, t: Tid, T: BuildThread)
    requires t < |threads|
    ensures Work(threads[t := T]) + ThreadWork(threads[t]) == Work(threads) + ThreadWork(T)
  {
    var n := |threads| - 1;
    if t == n {
      assert threads[t := T][..n] == threads[..n];
    } else {
      assert threads[t := T][..n] == threads[..n][t := T];
      WorkOfUpdate(threads[..n], t, T);
    }
  }

  function FrameWork(fr: Frame, folders: nat): nat {
    match fr
    case ViewFolder(i) => if i < folders then 8 * (folders - i) + 1 else 1
    case Rebuild(_, Begin) => 7
    case Rebuild(_, StopThread) => 6
    case Rebuild(_, WaitDeath(_)) => 5
    case Rebuild(_, EnterCs(_)) => 4
    case Rebuild(_, Clear) => 3
    case Rebuild(_, Create) => 2
    case Rebuild(_, LeaveCs) => 1
  }

  function StackWork(stack: seq<Frame>, folders: nat): nat {
    if stack == [] then 0 else StackWork(stack[..|stack| - 1], folders) + FrameWork(stack[|stack| - 1], folders)
  }

  predicate LessWork(r: State, s: State) {
    || StackWork(r.stack, |r.folders|) < StackWork(s.stack, |s.folders|)
    || (StackWork(r.stack, |r.folders|) == StackWork(s.stack, |s.folders|) && Work(r.threads) < Work(s.threads))
  }

  lemma StepWork(s: State, t: Tid)
    requires CanAdvance(s, t) && ThreadOk(s, t)
    ensures ThreadWork(Advance(s, t).threads[t]) < ThreadWork(s.threads[t])
    ensures Advance(s, t).threads == s.threads[t := Advance(s, t).threads[t]]
  {
    var T := s.threads[t];
    if T.pc == Enumerate && T.todo != [] {
      assert |Pending(T)| == |T.batch| + |T.todo[0]| + |Flatten(T.todo[1..])|;
    }
  }

  lemma ServeWork(s: State, t: Tid)
    requires CanServe(s, t)
    ensures ThreadWork(Serve(s, t).threads[t]) < ThreadWork(s.threads[t])
    ensures Serve(s, t).threads == s.threads[t := Serve(s, t).threads[t]]
  {
  }

  lemma ThreadActionWork(s: State, r: State, t: Tid)
    requires r.stack == s.stack && |r.folders| == |s.folders| && t < |s.threads| && |r.threads| == |s.threads|
    requires r.threads == s.threads[t := r.threads[t]] && ThreadWork(r.threads[t]) < ThreadWork(s.threads[t])
    ensures LessWork(r, s)
  {
    WorkOfUpdate(s.threads, t, r.threads[t]);
  }

  lemma TopWork(s: State, fr: Frame)
    requires s.stack != []
    ensures StackWork(PutTop(s, fr).stack, |s.folders|) + FrameWork(s.Top(), |s.folders|)
         == StackWork(s.stack, |s.folders|) + FrameWork(fr, |s.folders|)
  {
    assert PutTop(s, fr).stack[..|s.stack| - 1] == s.stack[..|s.stack| - 1];
  }

  lemma VisitWork(s: State)
    requires CanRun(s) && s.Top().ViewFolder?
    ensures var r := RunHandler(s); StackWork(r.stack, |r.folders|) < StackWork(s.stack, |s.folders|)
  {
    var r := RunHandler(s);
    if |r.stack| < |s.stack| {
      assert r.stack == s.stack[..|s.stack| - 1];
    } else if |r.stack| == |s.stack| {
      TopWork(s, r.Top());
    } else {
      assert r.stack[..|s.stack|] == PutTop(s, r.stack[|s.stack| - 1]).stack;
      TopWork(s, r.stack[|s.stack| - 1]);
    }
  }

  lemma RebuildWork(s: State)
    requires Flags(s) && CanRun(s) && s.Top().Rebuild?
    ensures var r := RunHandler(s); StackWork(r.stack, |r.folders|) < StackWork(s.stack, |s.folders|)
  {
    var r := RunHandler(s);
    if s.Top().pc == LeaveCs {
      assert r.stack == s.stack[..|s.stack| - 1];
    } else {
      RebuildTop(s);
      TopWork(s, r.Top());
    }
  }

  lemma RebuildTop(s: State)
    requires CanRun(s) && s.Top().Rebuild? && s.Top().pc != LeaveCs
    ensures var r := RunHandler(s);
      && r.stack != [] && r.stack == PutTop(s, r.Top()).stack && |r.folders| == |s.folders|
      && FrameWork(r.Top(), |s.folders|) < FrameWork(s.Top(), |s.folders|)
  {}

  lemma OutcomeWork(s: State, a: Action)
    requires Flags(s) && Enabled(s, a) && (a.WaitFailed? || a.CreateThread? || a.CreateFailed?)
    ensures StackWork(Apply(s, a).stack, |Apply(s, a).folders|) < StackWork(s.stack, |s.folders|)
  {
    var r := Apply(s, a);
    assert r.stack == PutTop(s, r.Top()).stack;
    TopWork(s, r.Top());
  }

  /** Every action the threads take on their own leaves less work, also after an error. */
  lemma InternalActionWork(s: State, a: Action)
    requires Flags(s) && Enabled(s, a) && Internal(a)
    ensures LessWork(Apply(s, a), s)
  {
    match a
    case Step(t) =>
      assert ThreadOk(s, t);
      StepMoves(s, t);
      StepWork(s, t);
      ThreadActionWork(s, Apply(s, a), t);
    case FailRefresh(t) => ThreadActionWork(s, Apply(s, a), t);
    case ServeThread(t) =>
      ServeWork(s, t);
      ThreadActionWork(s, Apply(s, a), t);
    case Run => if s.Top().ViewFolder? { VisitWork(s); } else { RebuildWork(s); }
    case _ => OutcomeWork(s, a);
  }

  // ---------------------------------------------------------------- coming to rest

  /** `path` goes on from `s` by internal actions. */
  ghost predicate OnTheirOwn(s: State, path: seq<State>, acts: seq<Action>) {
    && |path| == |acts| + 1 && path[0] == s
    && forall i | 0 <= i < |acts| :: Internal(acts[i]) && Enabled(path[i], acts[i]) && path[i + 1] == Apply(path[i], acts[i])
  }

  ghost predicate Smoothly(path: seq<State>, acts: seq<Action>, servers: Servers)
    requires |path| == |acts| + 1
  {
    forall i | 0 <= i < |acts| :: Smooth(path[i], acts[i], servers)
  }

  /** One action of the threads on their own, with what it keeps and what it leaves. */
  lemma GoOn(s: State, servers: Servers) returns (a: Action)
    requires Flags(s) && Gathering(s) && !AtRest(s) && Distinctly(servers)
    ensures Enabled(s, a) && Internal(a) && Smooth(s, a, servers)
    ensures var r := Apply(s, a); Flags(r) && Gathering(r) && (Rows(s) ==> Rows(r)) && LessWork(r, s)
  {
    a := SomebodyCanGoOn(s, servers);
    KeepsFlags(s, a);
    KeepsGathering(s, a);
    InternalActionWork(s, a);
    if Rows(s) { KeepsRows(s, a); }
  }

  lemma PathOn(s: State, a: Action, path: seq<State>, acts: seq<Action>, servers: Servers)
    requires Enabled(s, a) && Internal(a) && Smooth(s, a, servers)
    requires OnTheirOwn(Apply(s, a), path, acts) && Smoothly(path, acts, servers)
    ensures OnTheirOwn(s, [s] + path, [a] + acts) && Smoothly([s] + path, [a] + acts, servers)
    ensures ([s] + path)[|[a] + acts|] == path[|acts|]
  {
    var p, q := [s] + path, [a] + acts;
    forall i | 0 <= i < |q| ensures Internal(q[i]) && Enabled(p[i], q[i]) && p[i + 1] == Apply(p[i], q[i]) && Smooth(p[i], q[i], servers) {
      if i > 0 { assert p[i] == path[i - 1] && q[i] == acts[i - 1] && p[i + 1] == path[i - 1 + 1]; }
    }
  }

  lemma {:induction false} ComesToRest(s: State, servers: Servers) returns (path: seq<State>, acts: seq<Action>)
    requires Flags(s) && Gathering(s) && Distinctly(servers)
    ensures OnTheirOwn(s, path, acts) && Smoothly(path, acts, servers)
    ensures AtRest(path[|acts|]) && Flags(path[|acts|]) && (Rows(s) ==> Rows(path[|acts|]))
    decreases StackWork(s.stack, |s.folders|), Work(s.threads)
  {
    if AtRest(s) {
      path, acts := [s], [];
    } else {
      var a := GoOn(s, servers);
      var path1, acts1 := ComesToRest(Apply(s, a), servers);
      PathOn(s, a, path1, acts1, servers);
      path, acts := [s] + path1, [a] + acts1;
    }
  }

  /** At rest nothing is refreshing, locked or held, and the rows are the messages of the
      valid folders, no more and no less. */
  lemma RestShowsValidFolders(s: State)
    requires Flags(s) && AtRest(s)
    ensures forall f | 0 <= f < |s.folders| ::
      !s.folders[f].refreshing && !s.folders[f].locked && s.folders[f].cs.depth == 0
    ensures Rows(s) ==> s.rows == set f, id | 0 <= f < |s.folders| && id in s.folders[f].msgs && s.folders[f].valid :: s.folders[f].msgs[id]
  {
    forall f: nat | f < |s.folders| ensures !s.folders[f].refreshing && !s.folders[f].locked && s.folders[f].cs.depth == 0 {
      assert FolderOk(s, f);
    }
    if Rows(s) {
      forall p | p in s.rows ensures Stored(s, p) && s.folders[s.heap[p].folder].valid { assert Stored(s, p); }
    }
  }

  /** From every state of every run, whatever the servers enumerate, the threads on their own come
      to rest. */
  lemma EveryRunComesToRest(trace: seq<State>, acts: seq<Action>, i: nat, servers: Servers)
    returns (path: seq<State>, more: seq<Action>)
    requires IsRun(trace, acts) && i < |trace| && Distinctly(servers)
    ensures OnTheirOwn(trace[i], path, more) && Smoothly(path, more, servers) && AtRest(path[|more|])
    ensures OrderlyRun(trace, acts) ==> var s := path[|more|];
      s.rows == set f, id | 0 <= f < |s.folders| && id in s.folders[f].msgs && s.folders[f].valid :: s.folders[f].msgs[id]
  {
    RunKeepsFlags(trace, acts, i);
    RunKeepsGathering(trace, acts, i);
    if OrderlyRun(trace, acts) { RunKeepsRows(trace, acts, i); }
    path, more := ComesToRest(trace[i], servers);
    RestShowsValidFolders(path[|more|]);
  }
}
