/** What every action keeps about flags, stack, threads and the critical section. */
module RefreshFlags {
  import opened RefreshProtocol

  /** A build thread owns the folder's refresh. */
  predicate Builder(s: State, f: nat)
    requires f < |s.folders|
  {
    var h := s.folders[f].handle;
    h.Some? && h.value < |s.threads| && s.threads[h.value].Building()
  }

  predicate ActiveAt(s: State, f: nat, k: nat) {
    k < |s.stack| && s.stack[k].Active() && s.stack[k].folder == f
  }

  predicate ThreadOk(s: State, t: Tid)
    requires t < |s.threads|
  {
    var T := s.threads[t];
    && T.folder < |s.folders|
    && (T.pc == Insert ==> T.batch != [])
    && var F := s.folders[T.folder];
    && (T.InData() ==> F.cs == CritSec(Worker(t), 1))
    && (T.Building() ==>
      && F.handle == Some(t) && F.refreshing && !F.stop
      && (F.locked <==> T.pc != EndRefreshing)
      && (Looked(T.pc) ==> F.attached)
      && (Filling(T.pc) ==> !F.valid))
  }

  /** The thread has looked up the view for the message it sends, or for its last one. */
  predicate Looked(pc: WorkerPc) {
    pc.Sending? || pc == EnterData || pc == UnlockFolder || pc == EndRefreshing
  }

  /** Refresh has not succeeded (yet). */
  predicate Filling(pc: WorkerPc) {
    || pc == Enumerate || pc == Fill || pc == Insert
    || ((pc.Detach? || pc.Attach? || pc.Sending?) && pc.mail != RefreshEnded)
  }

  predicate FrameOk(s: State, fr: Frame) {
    fr.Rebuild? ==>
      && fr.folder < |s.folders|
      && var F := s.folders[fr.folder];
      && (fr.pc == Begin ==> !F.refreshing && !F.valid)
      && (fr.Active() ==>
        && F.refreshing && !F.valid && !Builder(s, fr.folder)
        && (F.locked <==> fr.pc == Clear || fr.pc == Create)
        && (fr.pc.WaitDeath? ==> F.handle == Some(fr.pc.tid))
        && (fr.pc.EnterCs? || fr.InData() ==> F.handle.None?))
  }

  ghost predicate FolderOk(s: State, f: nat)
    requires f < |s.folders|
  {
    var F := s.folders[f];
    && (F.locked ==> F.refreshing)
    && (F.handle.Some? ==> F.handle.value < |s.threads| && s.threads[F.handle.value].folder == f)
    && (F.refreshing && !Builder(s, f) ==> exists k :: ActiveAt(s, f, k))
    && (F.valid && !Builder(s, f) ==> F.attached)
    && F.cs.depth <= 1
    && (F.cs.depth == 1 ==>
      match F.cs.owner
      case UiThread => s.stack != [] && s.Top().InData() && s.Top().folder == f
      case Worker(t) => t < |s.threads| && s.threads[t].InData() && s.threads[t].folder == f)
  }

  ghost predicate Flags(s: State) {
    && (forall t: Tid | t < |s.threads| :: ThreadOk(s, t))
    && (forall k: nat | k < |s.stack| :: FrameOk(s, s.stack[k]))
    && (forall k: nat | k < |s.stack| - 1 :: s.stack[k].ViewFolder? || s.stack[k].Serving())
    && (forall j: nat, k: nat | j < k < |s.stack| ::
      s.stack[j].Active() && s.stack[k].Active() ==> s.stack[j].folder != s.stack[k].folder)
    && (s.stack != [] && s.Top().InData() ==> s.folders[s.Top().folder].cs == CritSec(UiThread, 1))
    && (forall f: nat | f < |s.folders| :: FolderOk(s, f))
  }

  lemma InitFlags(s: State)
    requires IsInit(s)
    ensures Flags(s)
  {
    forall f: nat | f < |s.folders| ensures FolderOk(s, f) {
      assert InitFolder(s.folders[f]);
    }
  }

  // ---------------------------------------------------------------- one thread moves

  /** `r` differs from `s` in thread `t` and its folder, in one of the ways a thread (or the
      handler of what it sent) changes them. */
  ghost predicate Moves(s: State, r: State, t: Tid) {
    && t < |s.threads| && s.threads[t].folder < |s.folders|
    && r.stack == s.stack
    && |r.threads| == |s.threads| && (forall u: Tid | u < |s.threads| && u != t :: r.threads[u] == s.threads[u])
    && |r.folders| == |s.folders|
    && (forall f: nat | f < |s.folders| && f != s.threads[t].folder :: r.folders[f] == s.folders[f])
    && MovesLocally(t, s.threads[t], r.threads[t], s.folders[s.threads[t].folder], r.folders[s.threads[t].folder])
  }

  predicate MovesLocally(t: Tid, T: BuildThread, T': BuildThread, F: Folder, F': Folder) {
    && T'.folder == T.folder && F'.handle == F.handle && F'.stop == F.stop
    && (T'.pc == Insert ==> T'.batch != [])
    && (if T.InData() == T'.InData() then F'.cs == F.cs
        else if T'.InData() then F.cs.CanEnter(Worker(t)) && F'.cs == F.cs.Enter(Worker(t))
        else F'.cs == CritSec(Worker(t), 0))
    && (if T'.Building() then
          && T.Building() && F'.refreshing == F.refreshing
          && (F'.locked <==> T'.pc != EndRefreshing)
          && (Looked(T'.pc) ==> F'.attached)
          && (Filling(T'.pc) ==> !F'.valid)
        else if T.Building() then F' == F.(refreshing := false) && T.pc == EndRefreshing
        else F' == F)
  }

  lemma MoveKeepsThreads(s: State, r: State, t: Tid, u: Tid)
    requires Flags(s) && Moves(s, r, t) && u < |s.threads|
    ensures ThreadOk(r, u)
  {
    assert ThreadOk(s, u) && ThreadOk(s, t) && FolderOk(s, s.threads[t].folder);
  }

  lemma MoveKeepsFrames(s: State, r: State, t: Tid, k: nat)
    requires Flags(s) && Moves(s, r, t) && k < |s.stack|
    ensures FrameOk(r, r.stack[k])
  {
    assert ThreadOk(s, t) && FrameOk(s, s.stack[k]);
    if s.stack[k].Rebuild? {
      assert FolderOk(s, s.stack[k].folder);
    }
  }

  lemma MoveKeepsOther(s: State, r: State, t: Tid, f: nat)
    requires Flags(s) && Moves(s, r, t) && f < |s.folders| && f != s.threads[t].folder
    ensures FolderOk(r, f)
  {
    assert FolderOk(s, f);
    if k :| ActiveAt(s, f, k) { assert ActiveAt(r, f, k); }
  }

  lemma MoveKeepsOwn(s: State, r: State, t: Tid)
    requires Flags(s) && Moves(s, r, t)
    ensures FolderOk(r, s.threads[t].folder)
  {
    var f := s.threads[t].folder;
    assert ThreadOk(s, t) && FolderOk(s, f);
    if k :| ActiveAt(s, f, k) { assert ActiveAt(r, f, k); }
  }

  lemma MoveKeepsFlags(s: State, r: State, t: Tid)
    requires Flags(s) && Moves(s, r, t)
    ensures Flags(r)
  {
    assert ThreadOk(s, t);
    forall u: Tid | u < |r.threads| ensures ThreadOk(r, u) { MoveKeepsThreads(s, r, t, u); }
    forall k: nat | k < |r.stack| ensures FrameOk(r, r.stack[k]) { MoveKeepsFrames(s, r, t, k); }
    forall f: nat | f < |r.folders| ensures FolderOk(r, f) {
      if f == s.threads[t].folder { MoveKeepsOwn(s, r, t); } else { MoveKeepsOther(s, r, t, f); }
    }
    if r.stack != [] && r.Top().InData() {
      assert FrameOk(s, s.Top());
    }
  }

  lemma InsertMoves(s: State, t: Tid)
    requires CanAdvance(s, t) && ThreadOk(s, t) && s.threads[t].pc == Insert
    ensures Moves(s, Advance(s, t), t)
  {
    var T, r := s.threads[t], Advance(s, t);
    assert r.stack == s.stack && |r.threads| == |s.threads| && |r.folders| == |s.folders|;
    assert MovesLocally(t, T, r.threads[t], s.folders[T.folder], r.folders[T.folder]);
  }

  lemma FetchMoves(s: State, t: Tid)
    requires CanAdvance(s, t) && ThreadOk(s, t) && (s.threads[t].pc == Enumerate || s.threads[t].pc == Fill)
    ensures Moves(s, Advance(s, t), t)
  {
    var T, r := s.threads[t], Advance(s, t);
    assert MovesLocally(t, T, r.threads[t], s.folders[T.folder], r.folders[T.folder]);
  }

  lemma SendMoves(s: State, t: Tid)
    requires CanAdvance(s, t) && ThreadOk(s, t) && (s.threads[t].pc.Detach? || s.threads[t].pc.Attach?)
    ensures Moves(s, Advance(s, t), t)
  {
    var T, r := s.threads[t], Advance(s, t);
    assert MovesLocally(t, T, r.threads[t], s.folders[T.folder], r.folders[T.folder]);
  }

  lemma EndMoves(s: State, t: Tid)
    requires CanAdvance(s, t) && ThreadOk(s, t)
    requires s.threads[t].pc == EnterData || s.threads[t].pc == UnlockFolder || s.threads[t].pc == EndRefreshing
    ensures Moves(s, Advance(s, t), t)
  {
    var T, r := s.threads[t], Advance(s, t);
    assert MovesLocally(t, T, r.threads[t], s.folders[T.folder], r.folders[T.folder]);
  }

  lemma StepMoves(s: State, t: Tid)
    requires CanAdvance(s, t) && ThreadOk(s, t)
    ensures Moves(s, Advance(s, t), t)
  {
    match s.threads[t].pc
    case Insert => InsertMoves(s, t);
    case Enumerate => FetchMoves(s, t);
    case Fill => FetchMoves(s, t);
    case Detach(_) => SendMoves(s, t);
    case Attach(_) => SendMoves(s, t);
    case _ => EndMoves(s, t);
  }

  lemma FailMoves(s: State, t: Tid)
    requires Enabled(s, FailRefresh(t)) && ThreadOk(s, t)
    ensures Moves(s, Apply(s, FailRefresh(t)), t)
  {
  }

  lemma ServeMoves(s: State, t: Tid)
    requires CanServe(s, t) && ThreadOk(s, t)
    ensures Moves(s, Serve(s, t), t)
  {
  }

  // ---------------------------------------------------------------- the running handler moves

  /** A folder keeps its agreement while it, its threads and its handlers stay as they are. */
  lemma KeptFolder(s: State, r: State, g: nat)
    requires g < |s.folders| == |r.folders| && FolderOk(s, g) && r.folders[g] == s.folders[g]
    requires |r.threads| >= |s.threads| && forall t: Tid | t < |s.threads| :: r.threads[t] == s.threads[t]
    requires forall k | ActiveAt(s, g, k) :: ActiveAt(r, g, k)
    requires s.folders[g].cs == CritSec(UiThread, 1) ==> r.stack != [] && r.Top().InData() && r.Top().folder == g
    ensures FolderOk(r, g)
  {
    if k :| ActiveAt(s, g, k) { assert ActiveAt(r, g, k); }
  }

  /** Only the innermost RebuildContents and its folder change; a thread may be created. */
  ghost predicate TopMoves(s: State, r: State, f: nat) {
    && f < |s.folders| && s.stack != [] && s.Top().Rebuild? && s.Top().folder == f && s.Top().pc != LeaveCs
    && |r.stack| == |s.stack| && r.Top().Rebuild? && r.Top().folder == f && r.Top().pc != Begin
    && (forall k: nat | k < |s.stack| - 1 :: r.stack[k] == s.stack[k])
    && |r.threads| >= |s.threads| && (forall t: Tid | t < |s.threads| :: r.threads[t] == s.threads[t])
    && |r.folders| == |s.folders| && (forall g: nat | g < |s.folders| && g != f :: r.folders[g] == s.folders[g])
  }

  /** A folder inside RebuildContents has no thread that is still building. */
  lemma NoBuilderOfTop(s: State, t: Tid)
    requires Flags(s) && s.stack != [] && s.Top().Rebuild? && s.Top().pc != LeaveCs && t < |s.threads|
    ensures s.threads[t].folder == s.Top().folder ==> !s.threads[t].Building()
  {
    assert FrameOk(s, s.Top());
    assert ThreadOk(s, t);
  }

  lemma TopMoveKeepsFrames(s: State, r: State, f: nat, k: nat)
    requires Flags(s) && TopMoves(s, r, f) && FrameOk(r, r.Top()) && k < |r.stack|
    ensures FrameOk(r, r.stack[k])
  {
    assert FrameOk(s, s.Top());
    if k < |s.stack| - 1 {
      assert FrameOk(s, s.stack[k]);
      if s.stack[k].Rebuild? { assert FolderOk(s, s.stack[k].folder); }
    }
  }

  lemma TopMoveKeepsFolders(s: State, r: State, f: nat, g: nat)
    requires Flags(s) && TopMoves(s, r, f) && g < |s.folders| && g != f
    ensures FolderOk(r, g)
  {
    assert FolderOk(s, g);
    KeptFolder(s, r, g);
  }

  lemma TopMoveKeepsThreads(s: State, r: State, f: nat, t: Tid)
    requires Flags(s) && TopMoves(s, r, f) && t < |s.threads|
    ensures ThreadOk(r, t)
  {
    assert ThreadOk(s, t);
    NoBuilderOfTop(s, t);
  }

  lemma TopMoveKeepsApart(s: State, r: State, f: nat, j: nat, k: nat)
    requires Flags(s) && TopMoves(s, r, f) && j < k < |r.stack| && r.stack[j].Active() && r.stack[k].Active()
    ensures r.stack[j].folder != r.stack[k].folder
  {
    assert FrameOk(s, s.stack[j]) && FrameOk(s, s.Top());
  }

  lemma TopMoveKeepsFlags(s: State, r: State, f: nat)
    requires Flags(s) && TopMoves(s, r, f) && FrameOk(r, r.Top()) && FolderOk(r, f)
    requires r.Top().InData() ==> r.folders[f].cs == CritSec(UiThread, 1)
    requires forall t: Tid | |s.threads| <= t < |r.threads| :: ThreadOk(r, t)
    ensures Flags(r)
  {
    forall k: nat | k < |r.stack| ensures FrameOk(r, r.stack[k]) { TopMoveKeepsFrames(s, r, f, k); }
    forall t: Tid | t < |r.threads| ensures ThreadOk(r, t) {
      if t < |s.threads| { TopMoveKeepsThreads(s, r, f, t); }
    }
    forall g: nat | g < |r.folders| ensures FolderOk(r, g) {
      if g != f { TopMoveKeepsFolders(s, r, f, g); }
    }
    forall j: nat, k: nat | j < k < |r.stack| && r.stack[j].Active() && r.stack[k].Active()
      ensures r.stack[j].folder != r.stack[k].folder
    {
      TopMoveKeepsApart(s, r, f, j, k);
    }
  }

  lemma RebuildTopMoves(s: State, f: nat, pc: RebuildPc)
    requires CanRun(s) && s.Top() == Rebuild(f, pc) && pc != LeaveCs
    ensures var r := RunHandler(s); TopMoves(s, r, f) && r.threads == s.threads
  {}

  /** The top frame and its folder agree, and m_CsData is held once where it is held. */
  ghost predicate TopOk(r: State, f: nat)
    requires r.stack != [] && f < |r.folders|
  {
    FrameOk(r, r.Top()) && FolderOk(r, f) && (r.Top().InData() ==> r.folders[f].cs == CritSec(UiThread, 1))
  }

  lemma BeginOwn(s: State, f: nat)
    requires Flags(s) && CanRun(s) && s.Top() == Rebuild(f, Begin)
    ensures TopOk(RunHandler(s), f)
  {
    var r := RunHandler(s);
    assert FrameOk(s, s.Top()) && FolderOk(s, f);
    assert ActiveAt(r, f, |r.stack| - 1);
    var h := s.folders[f].handle;
    if h.Some? { assert ThreadOk(s, h.value); }
  }

  lemma StopOwn(s: State, f: nat, pc: RebuildPc)
    requires Flags(s) && CanRun(s) && s.Top() == Rebuild(f, pc) && (pc == StopThread || pc.WaitDeath?)
    ensures TopOk(RunHandler(s), f)
  {
    var r := RunHandler(s);
    assert FrameOk(s, s.Top()) && FolderOk(s, f);
    assert ActiveAt(r, f, |r.stack| - 1);
  }

  lemma EnterOwn(s: State, f: nat, pc: RebuildPc)
    requires Flags(s) && CanRun(s) && s.Top() == Rebuild(f, pc) && pc.EnterCs?
    ensures TopOk(RunHandler(s), f)
  {
    var r := RunHandler(s);
    assert FrameOk(s, s.Top()) && FolderOk(s, f);
    if pc.stopped { assert ActiveAt(r, f, |r.stack| - 1); }
  }

  lemma ClearOwn(s: State, f: nat)
    requires Flags(s) && CanRun(s) && s.Top() == Rebuild(f, Clear)
    ensures TopOk(RunHandler(s), f)
  {
    var r := RunHandler(s);
    assert FrameOk(s, s.Top()) && FolderOk(s, f);
    assert ActiveAt(r, f, |r.stack| - 1);
  }

  lemma RebuildMoves(s: State, f: nat, pc: RebuildPc)
    requires Flags(s) && CanRun(s) && s.Top() == Rebuild(f, pc) && pc != LeaveCs
    ensures Flags(RunHandler(s))
  {
    RebuildTopMoves(s, f, pc);
    match pc {
      case Begin => BeginOwn(s, f);
      case StopThread => StopOwn(s, f, pc);
      case WaitDeath(_) => StopOwn(s, f, pc);
      case EnterCs(_) => EnterOwn(s, f, pc);
      case Clear => ClearOwn(s, f);
    }
    TopMoveKeepsFlags(s, RunHandler(s), f);
  }

  lemma OutcomeTopMoves(s: State, a: Action)
    requires Enabled(s, a) && (a.WaitFailed? || a.CreateThread? || a.CreateFailed?)
    ensures TopMoves(s, Apply(s, a), s.Top().folder)
  {}

  /** The wait or the creation failed. */
  lemma FailureOwn(s: State, a: Action)
    requires Flags(s) && Enabled(s, a) && (a.WaitFailed? || a.CreateFailed?)
    ensures var r, f := Apply(s, a), s.Top().folder;
      && r.threads == s.threads && FrameOk(r, r.Top()) && FolderOk(r, f)
      && (r.Top().InData() ==> r.folders[f].cs == CritSec(UiThread, 1))
  {
    var r, f := Apply(s, a), s.Top().folder;
    assert FrameOk(s, s.Top()) && FolderOk(s, f);
    if r.Top().Active() { assert ActiveAt(r, f, |r.stack| - 1); }
  }

  lemma CreationOwn(s: State, ids: seq<seq<Id>>)
    requires Flags(s) && Enabled(s, CreateThread(ids))
    ensures var r, f := ThreadCreated(s, ids), s.Top().folder;
      && FrameOk(r, r.Top()) && FolderOk(r, f) && r.folders[f].cs == CritSec(UiThread, 1)
      && |r.threads| == |s.threads| + 1 && ThreadOk(r, |s.threads|)
  {
    assert FrameOk(s, s.Top()) && FolderOk(s, s.Top().folder);
  }

  lemma OutcomeMoves(s: State, a: Action)
    requires Flags(s) && Enabled(s, a) && (a.WaitFailed? || a.CreateThread? || a.CreateFailed?)
    ensures Flags(Apply(s, a))
  {
    OutcomeTopMoves(s, a);
    if a.CreateThread? { CreationOwn(s, a.ids); } else { FailureOwn(s, a); }
    TopMoveKeepsFlags(s, Apply(s, a), s.Top().folder);
  }

  // ---------------------------------------------------------------- handlers begin and end

  /** The stack shrinks or grows by a frame that has set no flag. */
  lemma LeaveKeepsFlags(s: State)
    requires Flags(s) && CanRun(s) && s.Top().Rebuild? && s.Top().pc == LeaveCs
    ensures Flags(RunHandler(s))
  {
    var r, f := RunHandler(s), s.Top().folder;
    assert FolderOk(s, f);
    forall k: nat | k < |r.stack| ensures FrameOk(r, r.stack[k]) { assert FrameOk(s, s.stack[k]); }
    forall t: Tid | t < |r.threads| ensures ThreadOk(r, t) { assert ThreadOk(s, t); }
    forall g: nat | g < |r.folders| ensures FolderOk(r, g) {
      assert FolderOk(s, g);
      if k :| ActiveAt(s, g, k) { assert ActiveAt(r, g, k); }
    }
    if r.stack != [] && r.Top().InData() { assert s.stack[|r.stack| - 1].Serving(); }
  }

  lemma VisitKeepsFlags(s: State)
    requires Flags(s) && CanRun(s) && s.Top().ViewFolder?
    ensures Flags(RunHandler(s))
  {
    var r := RunHandler(s);
    forall k: nat | k < |r.stack| ensures FrameOk(r, r.stack[k]) {
      if k < |s.stack| { assert FrameOk(s, s.stack[k]); }
    }
    forall t: Tid | t < |r.threads| ensures ThreadOk(r, t) { assert ThreadOk(s, t); }
    forall g: nat | g < |r.folders| ensures FolderOk(r, g) {
      assert FolderOk(s, g);
      KeptFolder(s, r, g);
    }
    if |r.stack| < |s.stack| && r.stack != [] { assert r.Top().ViewFolder? || r.Top().Serving(); }
  }

  lemma OpenKeepsFlags(s: State)
    requires Flags(s) && s.Serving()
    ensures Flags(Push(s, ViewFolder(0)))
  {
    var r := Push(s, ViewFolder(0));
    forall k: nat | k < |r.stack| ensures FrameOk(r, r.stack[k]) {
      if k < |s.stack| { assert FrameOk(s, s.stack[k]); }
    }
    forall t: Tid | t < |r.threads| ensures ThreadOk(r, t) { assert ThreadOk(s, t); }
    forall g: nat | g < |r.folders| ensures FolderOk(r, g) {
      assert FolderOk(s, g);
      if k :| ActiveAt(s, g, k) { assert ActiveAt(r, g, k); }
    }
  }

  // ---------------------------------------------------------------- what flags do not depend on

  /** Equal up to the message maps, the view, and m_bValidList where nothing refreshes. */
  ghost predicate SameFlags(s: State, r: State) {
    && r.stack == s.stack && r.threads == s.threads && |r.folders| == |s.folders|
    && forall f: nat | f < |s.folders| ::
      || r.folders[f].(msgs := map[]) == s.folders[f].(msgs := map[])
      || (!s.folders[f].refreshing && r.folders[f] == s.folders[f].(valid := false))
  }

  lemma SameKeepsFlags(s: State, r: State)
    requires Flags(s) && SameFlags(s, r)
    ensures Flags(r)
  {
    forall k: nat | k < |r.stack| ensures FrameOk(r, r.stack[k]) { assert FrameOk(s, s.stack[k]); }
    forall t: Tid | t < |r.threads| ensures ThreadOk(r, t) { SameKeepsThread(s, r, t); }
    forall g: nat | g < |r.folders| ensures FolderOk(r, g) { SameKeepsFolder(s, r, g); }
  }

  lemma SameKeepsThread(s: State, r: State, t: Tid)
    requires Flags(s) && SameFlags(s, r) && t < |s.threads|
    ensures ThreadOk(r, t)
  {
    assert ThreadOk(s, t);
    var f := s.threads[t].folder;
    assert r.folders[f].(msgs := map[]) == s.folders[f].(msgs := map[]) || r.folders[f] == s.folders[f].(valid := false);
  }

  lemma SameKeepsFolder(s: State, r: State, g: nat)
    requires Flags(s) && SameFlags(s, r) && g < |s.folders|
    ensures FolderOk(r, g)
  {
    assert FolderOk(s, g);
    if k :| ActiveAt(s, g, k) { assert ActiveAt(r, g, k); }
  }

  /** The user's and the servers' actions. */
  predicate IsEvent(a: Action) {
    a.OpenFolder? || a.RefreshCurrent? || a.RefreshRoot? || a.DeleteRow? || a.NotifyAdded? || a.NotifyRemoved?
  }

  lemma RootSame(s: State)
    requires Enabled(s, RefreshRoot)
    ensures SameFlags(s, Apply(s, RefreshRoot))
  {}

  lemma RemoveSame(s: State, f: nat, id: Id)
    requires f < |s.folders| && id in s.folders[f].msgs
    ensures SameFlags(s, RemoveJob(s, f, id))
  {}

  lemma AddSame(s: State, f: nat, id: Id)
    requires f < |s.folders|
    ensures SameFlags(s, AddJob(s, f, id))
  {}

  lemma RefreshKeepsFlags(s: State)
    requires Flags(s) && Enabled(s, RefreshCurrent)
    ensures Flags(Apply(s, RefreshCurrent))
  {
    var r := Apply(s, RefreshRoot);
    RootSame(s);
    SameKeepsFlags(s, r);
    OpenKeepsFlags(r);
    assert Apply(s, RefreshCurrent) == Push(r, ViewFolder(0));
  }

  lemma EventKeepsFlags(s: State, a: Action)
    requires Flags(s) && Enabled(s, a) && IsEvent(a)
    ensures Flags(Apply(s, a))
  {
    match a
    case OpenFolder => OpenKeepsFlags(s);
    case RefreshCurrent => RefreshKeepsFlags(s);
    case RefreshRoot =>
      RootSame(s);
      SameKeepsFlags(s, Apply(s, a));
    case DeleteRow(f, id) =>
      RemoveSame(s, f, id);
      SameKeepsFlags(s, RemoveJob(s, f, id));
    case NotifyAdded(f, id) =>
      AddSame(s, f, id);
      SameKeepsFlags(s, AddJob(s, f, id));
    case NotifyRemoved(f, id) =>
      if id in s.folders[f].msgs {
        RemoveSame(s, f, id);
        SameKeepsFlags(s, RemoveJob(s, f, id));
      }
  }

  lemma ThreadKeepsFlags(s: State, a: Action)
    requires Flags(s) && Enabled(s, a) && (a.Step? || a.FailRefresh? || a.ServeThread?)
    ensures Flags(Apply(s, a))
  {
    assert ThreadOk(s, a.t);
    match a {
      case Step(t) => StepMoves(s, t);
      case FailRefresh(t) => FailMoves(s, t);
      case ServeThread(t) => ServeMoves(s, t);
    }
    MoveKeepsFlags(s, Apply(s, a), a.t);
  }

  lemma HandlerKeepsFlags(s: State)
    requires Flags(s) && CanRun(s)
    ensures Flags(RunHandler(s))
  {
    if s.Top().ViewFolder? { VisitKeepsFlags(s); }
    else if s.Top().pc == LeaveCs { LeaveKeepsFlags(s); }
    else { RebuildMoves(s, s.Top().folder, s.Top().pc); }
  }

  /** Every action of every thread keeps the flags. */
  lemma KeepsFlags(s: State, a: Action)
    requires Flags(s) && Enabled(s, a)
    ensures Flags(Apply(s, a))
  {
    if IsEvent(a) { EventKeepsFlags(s, a); }
    else if a.Run? { HandlerKeepsFlags(s); }
    else if a.Step? || a.FailRefresh? || a.ServeThread? { ThreadKeepsFlags(s, a); }
    else { OutcomeMoves(s, a); }
  }
}
