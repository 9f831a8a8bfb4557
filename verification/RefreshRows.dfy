/** The list view as an index over the folders' maps. */
module RefreshRows {
  import opened RefreshProtocol
  import opened RefreshFlags
  import opened RefreshPending

  /** Each map entry is a live object that knows where it is stored, and each live object
      is stored there: no entry dangles and no object leaks. */
  ghost predicate HeapOk(s: State) {
    && (forall f: nat, id: Id {:trigger s.folders[f].msgs[id]} | f < |s.folders| && id in s.folders[f].msgs ::
      s.folders[f].msgs[id] in s.heap && s.heap[s.folders[f].msgs[id]] == Msg(f, id))
    && (forall p: Ptr | p in s.heap :: Stored(s, p) && p < s.nextPtr)
  }

  predicate Stored(s: State, p: Ptr)
    requires p in s.heap
  {
    var m := s.heap[p];
    m.folder < |s.folders| && m.id in s.folders[m.folder].msgs && s.folders[m.folder].msgs[m.id] == p
  }

  /** Whether the view must show a message of folder `f`: all but the unsent chunk while a
      thread builds, all of a valid folder, none of an invalid one. */
  predicate MustShow(s: State, f: nat, p: Ptr)
    requires f < |s.folders|
  {
    if Builder(s, f) then p !in s.threads[s.folders[f].handle.value].chunk else s.folders[f].valid
  }

  ghost predicate ViewOk(s: State) {
    && (forall p | p in s.rows :: p in s.heap)
    && (forall p: Ptr | p in s.heap && s.heap[p].folder < |s.folders| :: p in s.rows <==> MustShow(s, s.heap[p].folder, p))
  }

  predicate Ended(pc: WorkerPc) {
    pc == EnterData || pc == UnlockFolder || pc == EndRefreshing
  }

  predicate Succeeded(pc: WorkerPc) {
    (pc.Detach? || pc.Attach? || pc.Sending?) && pc.mail == RefreshEnded
  }

  ghost predicate WorkOk(s: State, t: Tid)
    requires t < |s.threads|
  {
    var T := s.threads[t];
    T.Building() && T.folder < |s.folders| ==>
      var F := s.folders[T.folder];
      && (forall p | p in T.chunk :: p in s.heap && s.heap[p].folder == T.folder)
      && (T.pc == Enumerate || Ended(T.pc) || Succeeded(T.pc) ==> T.chunk == {})
      && (Succeeded(T.pc) ==> F.valid)
      && (Ended(T.pc) && !F.valid ==> F.msgs == map[])
  }

  ghost predicate Rows(s: State) {
    && HeapOk(s) && ViewOk(s)
    && (forall t: Tid | t < |s.threads| :: WorkOk(s, t))
  }

  lemma InitRows(s: State)
    requires IsInit(s)
    ensures Rows(s)
  {
    forall f: nat | f < |s.folders| ensures s.folders[f].msgs == map[] {
      assert InitFolder(s.folders[f]);
    }
  }

  /** A delete command finds the folder's pointer to its view set. */
  predicate Orderly(s: State, a: Action) {
    a.DeleteRow? && a.f < |s.folders| ==> s.folders[a.f].attached
  }

  // ---------------------------------------------------------------- heap and maps

  ghost predicate SameStore(s: State, r: State) {
    && |r.folders| == |s.folders| && r.heap == s.heap && r.nextPtr == s.nextPtr
    && forall f: nat | f < |s.folders| :: r.folders[f].msgs == s.folders[f].msgs
  }

  lemma SameKeepsHeap(s: State, r: State)
    requires HeapOk(s) && SameStore(s, r)
    ensures HeapOk(r)
  {
    forall p: Ptr | p in r.heap ensures Stored(r, p) { assert Stored(s, p); }
  }

  lemma StoreKeepsHeap(s: State, f: nat, id: Id)
    requires HeapOk(s) && f < |s.folders| && id !in s.folders[f].msgs
    ensures HeapOk(Store(s, f, id))
  {
    var r := Store(s, f, id);
    forall p: Ptr | p in r.heap ensures Stored(r, p) && p < r.nextPtr {
      if p != s.nextPtr { assert Stored(s, p); }
    }
  }

  lemma RemoveKeepsHeap(s: State, f: nat, id: Id)
    requires HeapOk(s) && f < |s.folders| && id in s.folders[f].msgs
    ensures HeapOk(RemoveJob(s, f, id))
  {
    var r := RemoveJob(s, f, id);
    forall p: Ptr | p in r.heap ensures Stored(r, p) && p < r.nextPtr { assert Stored(s, p); }
  }

  lemma FreeKeepsHeap(s: State, f: nat)
    requires HeapOk(s) && f < |s.folders|
    ensures HeapOk(FreeAll(s, f))
    ensures forall p :: p in FreeAll(s, f).heap <==> p in s.heap && s.heap[p].folder != f
  {
    var r := FreeAll(s, f);
    forall p: Ptr | p in s.heap ensures p in r.heap <==> s.heap[p].folder != f { assert Stored(s, p); }
    forall p: Ptr | p in r.heap ensures Stored(r, p) && p < r.nextPtr { assert Stored(s, p); }
  }

  lemma StepSameStore(s: State, t: Tid)
    requires CanAdvance(s, t) && s.threads[t].pc != Insert
    ensures SameStore(s, Advance(s, t))
  {
  }

  lemma InsertSameStore(s: State, t: Tid)
    requires CanAdvance(s, t) && s.threads[t].pc == Insert
    ensures SameStore(Store(s, s.threads[t].folder, s.threads[t].batch[0]), Advance(s, t))
  {
  }

  lemma StepKeepsHeap(s: State, t: Tid)
    requires HeapOk(s) && CanAdvance(s, t) && ThreadOk(s, t) && PendingOk(s.threads[t], s.folders[s.threads[t].folder])
    ensures HeapOk(Advance(s, t))
  {
    var T := s.threads[t];
    if T.pc == Insert {
      assert T.batch[0] == Pending(T)[0];
      StoreKeepsHeap(s, T.folder, T.batch[0]);
      InsertSameStore(s, t);
      SameKeepsHeap(Store(s, T.folder, T.batch[0]), Advance(s, t));
    } else {
      StepSameStore(s, t);
      SameKeepsHeap(s, Advance(s, t));
    }
  }

  // ---------------------------------------------------------------- view

  lemma OtherFolderShown(s: State, r: State, t: Tid, g: nat)
    requires Flags(s) && Moves(s, r, t) && g < |s.folders| && g != s.threads[t].folder
    ensures forall p :: MustShow(r, g, p) <==> MustShow(s, g, p)
  {
    assert FolderOk(s, g);
  }

  /** What the view has to know of a thread's step. */
  lemma StepEffect(s: State, t: Tid)
    requires CanAdvance(s, t) && ThreadOk(s, t)
    ensures var r, T := Advance(s, t), s.threads[t];
      && r.rows == s.rows && Moves(s, r, t)
      && r.threads[t].chunk == (if T.pc == Insert then T.chunk + {s.nextPtr} else T.chunk)
      && r.heap == (if T.pc == Insert then s.heap[s.nextPtr := Msg(T.folder, T.batch[0])] else s.heap)
      && (r.threads[t].Building() <==> T.pc != EndRefreshing)
      && (T.pc == EndRefreshing ==> r.folders[T.folder].valid == s.folders[T.folder].valid)
  {
    StepMoves(s, t);
  }

  lemma StepKeepsView(s: State, t: Tid)
    requires Flags(s) && Rows(s) && CanAdvance(s, t)
    ensures ViewOk(Advance(s, t))
  {
    var r, T := Advance(s, t), s.threads[t];
    assert ThreadOk(s, t) && WorkOk(s, t);
    StepEffect(s, t);
    forall p: Ptr | p in r.heap && r.heap[p].folder < |r.folders|
      ensures p in r.rows <==> MustShow(r, r.heap[p].folder, p)
    {
      var g := r.heap[p].folder;
      if p in s.heap { assert Stored(s, p); }
      if g != T.folder { OtherFolderShown(s, r, t, g); }
    }
  }

  // ---------------------------------------------------------------- work of the threads

  /** Threads of other folders do not notice. */
  lemma OtherKeepsWork(s: State, r: State, t: Tid, u: Tid)
    requires Flags(s) && Moves(s, r, t) && u < |s.threads| && u != t && WorkOk(s, u)
    requires s.threads[t].Building()
    requires forall p | p in s.heap && s.heap[p].folder != s.threads[t].folder :: p in r.heap && r.heap[p] == s.heap[p]
    ensures WorkOk(r, u)
  {
    assert ThreadOk(s, u) && ThreadOk(s, t);
  }

  lemma StepKeepsWork(s: State, t: Tid)
    requires CanAdvance(s, t) && ThreadOk(s, t) && WorkOk(s, t) && HeapOk(s)
    ensures WorkOk(Advance(s, t), t)
  {
    StepEffect(s, t);
  }

  /** A move of a building thread whose own work, heap and view are right leaves all rows right. */
  lemma MoveKeepsRows(s: State, r: State, t: Tid)
    requires Flags(s) && Rows(s) && Moves(s, r, t) && s.threads[t].Building()
    requires HeapOk(r) && ViewOk(r) && WorkOk(r, t)
    requires forall p | p in s.heap && s.heap[p].folder != s.threads[t].folder :: p in r.heap && r.heap[p] == s.heap[p]
    ensures Rows(r)
  {
    forall u: Tid | u < |r.threads| ensures WorkOk(r, u) {
      assert WorkOk(s, u);
      if u != t { OtherKeepsWork(s, r, t, u); }
    }
  }

  lemma NewIsFresh(s: State)
    requires HeapOk(s)
    ensures s.nextPtr !in s.heap
  {}

  lemma StepKeepsRows(s: State, t: Tid)
    requires Flags(s) && Gathering(s) && Rows(s) && CanAdvance(s, t)
    ensures Rows(Advance(s, t))
  {
    assert ThreadOk(s, t) && WorkOk(s, t) && PendingOk(s.threads[t], s.folders[s.threads[t].folder]);
    StepKeepsHeap(s, t);
    StepKeepsView(s, t);
    StepKeepsWork(s, t);
    StepEffect(s, t);
    NewIsFresh(s);
    MoveKeepsRows(s, Advance(s, t), t);
  }

  // ---------------------------------------------------------------- what the UI serves

  /** A move that neither stores, nor shows, nor ends a refresh. */
  lemma CalmKeepsRows(s: State, r: State, t: Tid)
    requires Flags(s) && Rows(s) && Moves(s, r, t) && SameStore(s, r) && r.rows == s.rows
    requires r.threads[t].Building() == s.threads[t].Building() && r.threads[t].chunk == s.threads[t].chunk
    requires r.threads[t].Building() || r.folders == s.folders
    requires WorkOk(r, t)
    ensures Rows(r)
  {
    assert ThreadOk(s, t);
    CalmKeepsView(s, r, t);
    SameKeepsHeap(s, r);
    if s.threads[t].Building() {
      MoveKeepsRows(s, r, t);
    } else {
      forall u: Tid | u < |r.threads| ensures WorkOk(r, u) { assert WorkOk(s, u); }
    }
  }

  lemma CalmKeepsView(s: State, r: State, t: Tid)
    requires Flags(s) && Rows(s) && Moves(s, r, t) && SameStore(s, r) && r.rows == s.rows
    requires r.threads[t].Building() == s.threads[t].Building() && r.threads[t].chunk == s.threads[t].chunk
    requires r.threads[t].Building() || r.folders == s.folders
    ensures ViewOk(r)
  {
    assert ThreadOk(s, t);
    forall p: Ptr | p in r.heap && r.heap[p].folder < |r.folders|
      ensures p in r.rows <==> MustShow(r, r.heap[p].folder, p)
    {
      if r.heap[p].folder != s.threads[t].folder { OtherFolderShown(s, r, t, r.heap[p].folder); }
      else { assert FolderOk(s, s.threads[t].folder); }
    }
  }

  lemma FailKeepsRows(s: State, t: Tid)
    requires Flags(s) && Rows(s) && Enabled(s, FailRefresh(t))
    ensures Rows(Apply(s, FailRefresh(t)))
  {
    assert ThreadOk(s, t) && WorkOk(s, t);
    FailMoves(s, t);
    CalmKeepsRows(s, Apply(s, FailRefresh(t)), t);
  }

  lemma ServeChunkKeepsView(s: State, t: Tid)
    requires Flags(s) && Rows(s) && CanServe(s, t) && s.threads[t].pc == Sending(AddChunk)
    requires Moves(s, Serve(s, t), t)
    ensures ViewOk(Serve(s, t))
  {
    var r, T := Serve(s, t), s.threads[t];
    assert ThreadOk(s, t) && WorkOk(s, t);
    forall p: Ptr | p in r.heap && r.heap[p].folder < |r.folders|
      ensures p in r.rows <==> MustShow(r, r.heap[p].folder, p)
    {
      if r.heap[p].folder != T.folder { OtherFolderShown(s, r, t, r.heap[p].folder); }
    }
  }

  lemma ServeChunkKeepsRows(s: State, t: Tid)
    requires Flags(s) && Rows(s) && CanServe(s, t) && s.threads[t].pc == Sending(AddChunk)
    ensures Rows(Serve(s, t))
  {
    var r := Serve(s, t);
    assert ThreadOk(s, t) && WorkOk(s, t);
    ServeMoves(s, t);
    SameKeepsHeap(s, r);
    ServeChunkKeepsView(s, t);
    MoveKeepsRows(s, r, t);
  }

  lemma ServeInvalidateKeepsView(s: State, t: Tid)
    requires Flags(s) && Rows(s) && CanServe(s, t) && s.threads[t].pc == Sending(Invalidate)
    requires Moves(s, Serve(s, t), t)
    requires forall p :: p in Serve(s, t).heap <==> p in s.heap && s.heap[p].folder != s.threads[t].folder
    ensures ViewOk(Serve(s, t))
  {
    var r, f := Serve(s, t), s.threads[t].folder;
    forall p: Ptr | p in s.heap ensures p in s.folders[f].msgs.Values <==> s.heap[p].folder == f { assert Stored(s, p); }
    forall p: Ptr | p in r.heap && r.heap[p].folder < |r.folders|
      ensures p in r.rows <==> MustShow(r, r.heap[p].folder, p)
    {
      OtherFolderShown(s, r, t, r.heap[p].folder);
    }
  }

  lemma ServeInvalidateKeepsRows(s: State, t: Tid)
    requires Flags(s) && Rows(s) && CanServe(s, t) && s.threads[t].pc == Sending(Invalidate)
    ensures Rows(Serve(s, t))
  {
    var r, f := Serve(s, t), s.threads[t].folder;
    assert ThreadOk(s, t) && WorkOk(s, t);
    ServeMoves(s, t);
    FreeKeepsHeap(s, f);
    SameKeepsHeap(FreeAll(s, f), r);
    ServeInvalidateKeepsView(s, t);
    MoveKeepsRows(s, r, t);
  }

  lemma ServeElseKeepsRows(s: State, t: Tid)
    requires Flags(s) && Rows(s) && CanServe(s, t)
    requires s.threads[t].pc == Sending(RefreshEnded) || s.threads[t].pc == Painting
    ensures Rows(Serve(s, t))
  {
    assert ThreadOk(s, t) && WorkOk(s, t);
    ServeMoves(s, t);
    CalmKeepsRows(s, Serve(s, t), t);
  }

  // ---------------------------------------------------------------- running handler

  /** Apart from the innermost RebuildContents, which has not changed what it stores or
      which thread builds, nothing moved. */
  lemma TopKeepsRows(s: State, r: State, f: nat)
    requires Flags(s) && Rows(s) && TopMoves(s, r, f) && SameStore(s, r) && r.rows == s.rows
    requires r.threads == s.threads && r.folders[f].valid == s.folders[f].valid && !Builder(r, f)
    ensures Rows(r)
  {
    SameKeepsHeap(s, r);
    assert FrameOk(s, s.Top());
    forall p: Ptr | p in r.heap && r.heap[p].folder < |r.folders|
      ensures p in r.rows <==> MustShow(r, r.heap[p].folder, p)
    {
      if r.heap[p].folder == f {
        assert FolderOk(s, f);
        if s.folders[f].handle.Some? { assert ThreadOk(s, s.folders[f].handle.value); }
      }
    }
    forall u: Tid | u < |r.threads| ensures WorkOk(r, u) {
      assert WorkOk(s, u);
      NoBuilderOfTop(s, u);
    }
  }

  /** Fewer stored messages, of which none is in the thread's chunk, suit its work. */
  lemma ShrinkKeepsWork(s: State, r: State, u: Tid)
    requires r.threads == s.threads && u < |s.threads| && WorkOk(s, u)
    requires s.threads[u].Building() && s.threads[u].folder < |s.folders| && |r.folders| == |s.folders|
    requires r.folders[s.threads[u].folder].valid == s.folders[s.threads[u].folder].valid
    requires r.folders[s.threads[u].folder].msgs.Keys <= s.folders[s.threads[u].folder].msgs.Keys
    requires forall p | p in s.threads[u].chunk :: p in r.heap && r.heap[p] == s.heap[p]
    ensures WorkOk(r, u)
  {
    var F, F' := s.folders[s.threads[u].folder], r.folders[s.threads[u].folder];
    if F.msgs == map[] { assert F'.msgs.Keys == {}; assert F'.msgs == map[]; }
    forall id | id in F'.msgs ensures id in F.msgs { assert id in F'.msgs.Keys; }
  }

  lemma ClearKeepsView(s: State, f: nat)
    requires Flags(s) && Rows(s) && CanRun(s) && s.Top() == Rebuild(f, Clear)
    requires forall p :: p in RunHandler(s).heap <==> p in s.heap && s.heap[p].folder != f
    ensures ViewOk(RunHandler(s))
  {
    var r := RunHandler(s);
    assert FrameOk(s, s.Top());
    forall p: Ptr | p in r.heap && r.heap[p].folder < |r.folders|
      ensures p in r.rows <==> MustShow(r, r.heap[p].folder, p)
    {
      assert MustShow(s, r.heap[p].folder, p) <==> MustShow(r, r.heap[p].folder, p);
    }
  }

  lemma ClearKeepsHeap(s: State, f: nat)
    requires HeapOk(s) && CanRun(s) && s.Top() == Rebuild(f, Clear)
    ensures HeapOk(RunHandler(s))
    ensures forall p :: p in RunHandler(s).heap <==> p in s.heap && s.heap[p].folder != f
  {
    FreeKeepsHeap(s, f);
    ClearSameStore(s, f);
    SameKeepsHeap(FreeAll(s, f), RunHandler(s));
  }

  lemma ClearSameStore(s: State, f: nat)
    requires CanRun(s) && s.Top() == Rebuild(f, Clear)
    ensures SameStore(FreeAll(s, f), RunHandler(s))
  {}

  lemma ClearKeepsWork(s: State, f: nat, u: Tid)
    requires Flags(s) && CanRun(s) && s.Top() == Rebuild(f, Clear) && u < |s.threads| && WorkOk(s, u)
    requires forall p :: p in RunHandler(s).heap <==> p in s.heap && s.heap[p].folder != f
    ensures WorkOk(RunHandler(s), u)
  {
    assert ThreadOk(s, u);
    NoBuilderOfTop(s, u);
    if s.threads[u].Building() { ShrinkKeepsWork(s, RunHandler(s), u); }
  }

  lemma ClearKeepsRows(s: State, f: nat)
    requires Flags(s) && Rows(s) && CanRun(s) && s.Top() == Rebuild(f, Clear)
    ensures Rows(RunHandler(s))
  {
    var r := RunHandler(s);
    ClearKeepsHeap(s, f);
    ClearKeepsView(s, f);
    forall u: Tid | u < |r.threads| ensures WorkOk(r, u) { ClearKeepsWork(s, f, u); }
  }

  lemma CreateKeepsView(s: State, ids: seq<seq<Id>>)
    requires Flags(s) && CreateOk(s) && Rows(s) && Enabled(s, CreateThread(ids))
    ensures ViewOk(ThreadCreated(s, ids))
  {
    var r := ThreadCreated(s, ids);
    forall p: Ptr | p in r.heap && r.heap[p].folder < |r.folders|
      ensures p in r.rows <==> MustShow(r, r.heap[p].folder, p)
    {
      assert Stored(s, p);
      assert FolderOk(s, r.heap[p].folder);
    }
  }

  lemma CreateSameStore(s: State, ids: seq<seq<Id>>)
    requires Enabled(s, CreateThread(ids))
    ensures SameStore(s, ThreadCreated(s, ids))
  {}

  lemma CreateKeepsRows(s: State, ids: seq<seq<Id>>)
    requires Flags(s) && CreateOk(s) && Rows(s) && Enabled(s, CreateThread(ids))
    ensures Rows(ThreadCreated(s, ids))
  {
    var r := ThreadCreated(s, ids);
    CreateSameStore(s, ids);
    SameKeepsHeap(s, r);
    CreateKeepsView(s, ids);
    forall u: Tid | u < |r.threads| ensures WorkOk(r, u) { CreateKeepsWork(s, ids, u); }
  }

  lemma CreateKeepsWork(s: State, ids: seq<seq<Id>>, u: Tid)
    requires Flags(s) && Rows(s) && Enabled(s, CreateThread(ids)) && u <= |s.threads|
    ensures WorkOk(ThreadCreated(s, ids), u)
  {
    if u < |s.threads| {
      assert WorkOk(s, u);
      NoBuilderOfTop(s, u);
    }
  }

  lemma RebuildKeepsRows(s: State)
    requires Flags(s) && Rows(s) && CanRun(s) && s.Top().Rebuild? && s.Top().pc != Clear && s.Top().pc != LeaveCs
    ensures Rows(RunHandler(s))
  {
    RebuildEffect(s, s.Top().folder, s.Top().pc);
    TopKeepsRows(s, RunHandler(s), s.Top().folder);
  }

  /** What the view has to know of a step of RebuildContents. */
  lemma RebuildEffect(s: State, f: nat, pc: RebuildPc)
    requires Flags(s) && CanRun(s) && s.Top() == Rebuild(f, pc) && pc != Clear && pc != LeaveCs
    ensures var r := RunHandler(s);
      && TopMoves(s, r, f) && SameStore(s, r) && r.rows == s.rows && r.threads == s.threads
      && r.folders[f].valid == s.folders[f].valid && !Builder(r, f)
  {
    assert FrameOk(s, s.Top()) && FolderOk(s, f);
    if s.folders[f].handle.Some? { assert ThreadOk(s, s.folders[f].handle.value); }
  }

  lemma FailedOutcomeKeepsRows(s: State, a: Action)
    requires Flags(s) && Rows(s) && Enabled(s, a) && (a.WaitFailed? || a.CreateFailed?)
    ensures Rows(Apply(s, a))
  {
    FailedEffect(s, a);
    TopKeepsRows(s, Apply(s, a), s.Top().folder);
  }

  lemma FailedEffect(s: State, a: Action)
    requires Flags(s) && Enabled(s, a) && (a.WaitFailed? || a.CreateFailed?)
    ensures var r, f := Apply(s, a), s.Top().folder;
      && TopMoves(s, r, f) && SameStore(s, r) && r.rows == s.rows && r.threads == s.threads
      && r.folders[f].valid == s.folders[f].valid && !Builder(r, f)
  {
    var f := s.Top().folder;
    assert FrameOk(s, s.Top()) && FolderOk(s, f);
    if s.folders[f].handle.Some? { assert ThreadOk(s, s.folders[f].handle.value); }
  }

  /** Entering or leaving a handler touches neither maps nor view. */
  lemma StackKeepsRows(s: State, r: State)
    requires Rows(s) && r.threads == s.threads && r.rows == s.rows && SameStore(s, r)
    requires forall f: nat | f < |s.folders| :: r.folders[f].(cs := s.folders[f].cs) == s.folders[f]
    ensures Rows(r)
  {
    SameKeepsHeap(s, r);
    forall p: Ptr | p in r.heap && r.heap[p].folder < |r.folders|
      ensures p in r.rows <==> MustShow(r, r.heap[p].folder, p)
    {
      assert MustShow(s, r.heap[p].folder, p) <==> MustShow(r, r.heap[p].folder, p);
    }
    forall u: Tid | u < |r.threads| ensures WorkOk(r, u) { assert WorkOk(s, u); }
  }

  lemma VisitEffect(s: State)
    requires CanRun(s) && s.Top().ViewFolder?
    ensures var r := RunHandler(s);
      && r.threads == s.threads && r.rows == s.rows && SameStore(s, r)
      && (forall f: nat | f < |s.folders| :: r.folders[f].(cs := s.folders[f].cs) == s.folders[f])
  {}

  lemma VisitKeepsRows(s: State)
    requires Flags(s) && Rows(s) && CanRun(s) && s.Top().ViewFolder?
    ensures Rows(RunHandler(s))
  {
    VisitEffect(s);
    StackKeepsRows(s, RunHandler(s));
  }

  lemma LeaveEffect(s: State)
    requires Flags(s) && CanRun(s) && s.Top().Rebuild? && s.Top().pc == LeaveCs
    ensures var r := RunHandler(s);
      && r.threads == s.threads && r.rows == s.rows && SameStore(s, r)
      && (forall f: nat | f < |s.folders| :: r.folders[f].(cs := s.folders[f].cs) == s.folders[f])
  {}

  lemma LeaveKeepsRows(s: State)
    requires Flags(s) && Rows(s) && CanRun(s) && s.Top().Rebuild? && s.Top().pc == LeaveCs
    ensures Rows(RunHandler(s))
  {
    LeaveEffect(s);
    StackKeepsRows(s, RunHandler(s));
  }

  lemma HandlerKeepsRows(s: State)
    requires Flags(s) && Rows(s) && CanRun(s)
    ensures Rows(RunHandler(s))
  {
    if s.Top().ViewFolder? {
      VisitKeepsRows(s);
    } else if s.Top().pc == LeaveCs {
      LeaveKeepsRows(s);
    } else if s.Top().pc == Clear {
      ClearKeepsRows(s, s.Top().folder);
    } else {
      RebuildKeepsRows(s);
    }
  }

  // ---------------------------------------------------------------- user and servers

  lemma ClearViewKeepsRows(s: State)
    requires Flags(s) && Rows(s) && Enabled(s, RefreshRoot)
    ensures Rows(Apply(s, RefreshRoot))
  {
    var r := Apply(s, RefreshRoot);
    SameKeepsHeap(s, r);
    forall p: Ptr | p in r.heap && r.heap[p].folder < |r.folders| ensures !MustShow(r, r.heap[p].folder, p) {
      var h := s.folders[r.heap[p].folder].handle;
      if h.Some? && h.value < |s.threads| {
        assert ThreadOk(s, h.value) && FolderOk(s, r.heap[p].folder);
      }
    }
    forall u: Tid | u < |r.threads| ensures WorkOk(r, u) { assert WorkOk(s, u) && ThreadOk(s, u); }
  }

  lemma RemoveKeepsView(s: State, f: nat, id: Id)
    requires HeapOk(s) && ViewOk(s) && f < |s.folders| && id in s.folders[f].msgs && s.folders[f].attached
    ensures ViewOk(RemoveJob(s, f, id))
  {
    var r := RemoveJob(s, f, id);
    forall p: Ptr | p in r.heap && r.heap[p].folder < |r.folders|
      ensures p in r.rows <==> MustShow(r, r.heap[p].folder, p)
    {
      assert MustShow(s, r.heap[p].folder, p) <==> MustShow(r, r.heap[p].folder, p);
    }
  }

  lemma RemoveKeepsWork(s: State, f: nat, id: Id, u: Tid)
    requires Flags(s) && HeapOk(s) && ViewOk(s) && f < |s.folders| && id in s.folders[f].msgs && s.folders[f].msgs[id] in s.rows
    requires u < |s.threads| && WorkOk(s, u)
    ensures WorkOk(RemoveJob(s, f, id), u)
  {
    assert ThreadOk(s, u);
    if s.threads[u].Building() { ShrinkKeepsWork(s, RemoveJob(s, f, id), u); }
  }

  lemma RemoveKeepsRows(s: State, f: nat, id: Id)
    requires Flags(s) && Rows(s) && f < |s.folders| && id in s.folders[f].msgs && s.Serving()
    requires s.folders[f].attached && s.folders[f].msgs[id] in s.rows
    ensures Rows(RemoveJob(s, f, id))
  {
    var r := RemoveJob(s, f, id);
    RemoveKeepsHeap(s, f, id);
    RemoveKeepsView(s, f, id);
    forall u: Tid | u < |r.threads| ensures WorkOk(r, u) { RemoveKeepsWork(s, f, id, u); }
  }

  /** A notified folder has its view attached and shows all its messages. */
  lemma NotifiedFolder(s: State, f: nat)
    requires Flags(s) && Rows(s) && CanNotify(s, f)
    ensures s.folders[f].attached
    ensures forall p | p in s.heap && s.heap[p].folder == f :: p in s.rows
    ensures Builder(s, f) ==> s.threads[s.folders[f].handle.value].chunk == {}
    ensures Builder(s, f) ==> s.threads[s.folders[f].handle.value].pc == EndRefreshing
  {
    assert FolderOk(s, f);
    if Builder(s, f) {
      assert ThreadOk(s, s.folders[f].handle.value) && WorkOk(s, s.folders[f].handle.value);
    }
  }

  lemma AddKeepsView(s: State, f: nat, id: Id)
    requires Flags(s) && Rows(s) && CanNotify(s, f)
    ensures ViewOk(AddJob(s, f, id))
  {
    var r := AddJob(s, f, id);
    NotifiedFolder(s, f);
    forall p: Ptr | p in r.heap && r.heap[p].folder < |r.folders|
      ensures p in r.rows <==> MustShow(r, r.heap[p].folder, p)
    {
      if p in s.heap { assert MustShow(s, r.heap[p].folder, p) <==> MustShow(r, r.heap[p].folder, p); }
    }
  }

  lemma AddKeepsRows(s: State, f: nat, id: Id)
    requires Flags(s) && Rows(s) && CanNotify(s, f)
    ensures Rows(AddJob(s, f, id))
  {
    var r := AddJob(s, f, id);
    NotifiedFolder(s, f);
    if id !in s.folders[f].msgs {
      AddKeepsHeap(s, f, id);
      AddKeepsView(s, f, id);
      forall u: Tid | u < |r.threads| ensures WorkOk(r, u) { AddKeepsWork(s, f, id, u); }
    }
  }

  lemma AddKeepsHeap(s: State, f: nat, id: Id)
    requires HeapOk(s) && f < |s.folders| && id !in s.folders[f].msgs
    ensures HeapOk(AddJob(s, f, id))
  {
    StoreKeepsHeap(s, f, id);
    SameKeepsHeap(Store(s, f, id), AddJob(s, f, id));
  }

  lemma AddKeepsWork(s: State, f: nat, id: Id, u: Tid)
    requires Flags(s) && Rows(s) && CanNotify(s, f) && id !in s.folders[f].msgs && u < |s.threads|
    ensures WorkOk(AddJob(s, f, id), u)
  {
    NotifiedFolder(s, f);
    NewIsFresh(s);
    assert WorkOk(s, u) && ThreadOk(s, u);
  }

  lemma ServeKeepsRows(s: State, t: Tid)
    requires Flags(s) && Rows(s) && CanServe(s, t)
    ensures Rows(Serve(s, t))
  {
    match s.threads[t].pc {
      case Sending(AddChunk) => ServeChunkKeepsRows(s, t);
      case Sending(Invalidate) => ServeInvalidateKeepsRows(s, t);
      case Sending(RefreshEnded) => ServeElseKeepsRows(s, t);
      case Painting => ServeElseKeepsRows(s, t);
      case _ =>
    }
  }

  /** Every action keeps the view an index over the maps, if each delete command finds its
      folder's view pointer set. */
  lemma KeepsRows(s: State, a: Action)
    requires Flags(s) && Gathering(s) && Rows(s) && Enabled(s, a) && Orderly(s, a)
    ensures Rows(Apply(s, a))
  {
    match a
    case Step(t) => StepKeepsRows(s, t);
    case FailRefresh(t) => FailKeepsRows(s, t);
    case ServeThread(t) => ServeKeepsRows(s, t);
    case Run => HandlerKeepsRows(s);
    case WaitFailed => FailedOutcomeKeepsRows(s, a);
    case CreateThread(ids) => CreateKeepsRows(s, ids);
    case CreateFailed => FailedOutcomeKeepsRows(s, a);
    case OpenFolder => StackKeepsRows(s, Apply(s, a));
    case RefreshCurrent =>
      ClearViewKeepsRows(s);
      StackKeepsRows(Apply(s, RefreshRoot), Apply(s, a));
    case RefreshRoot => ClearViewKeepsRows(s);
    case DeleteRow(f, id) => RemoveKeepsRows(s, f, id);
    case NotifyAdded(f, id) => AddKeepsRows(s, f, id);
    case NotifyRemoved(f, id) =>
      NotifiedFolder(s, f);
      if id in s.folders[f].msgs { RemoveKeepsRows(s, f, id); }
  }
}
