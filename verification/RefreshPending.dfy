/** What a build thread has yet to store, for all runs: it is distinct and not stored already. */
module RefreshPending {
  import opened RefreshProtocol
  import opened RefreshFlags

  /** Refresh is still asking the server, or sends what it has stored. */
  predicate Enumerating(pc: WorkerPc) {
    || pc == Enumerate || pc == Fill || pc == Insert
    || ((pc.Detach? || pc.Attach? || pc.Sending?) && pc.mail == AddChunk)
  }

  function Pending(T: BuildThread): seq<Id> { T.batch + Flatten(T.todo) }

  ghost predicate PendingOk(T: BuildThread, F: Folder) {
    Enumerating(T.pc) ==>
      && Distinct(Pending(T)) && (forall id | id in Pending(T) :: id !in F.msgs)
      && (T.pc != Fill && T.pc != Insert ==> T.batch == [])
  }

  /** RebuildContents creates a thread for an empty folder only. */
  predicate CreateOk(s: State) { TopIsCreate(s) ==> s.folders[s.Top().folder].msgs == map[] }

  ghost predicate Gathering(s: State) {
    && CreateOk(s)
    && forall t: Tid | t < |s.threads| && s.threads[t].folder < |s.folders| ::
      PendingOk(s.threads[t], s.folders[s.threads[t].folder])
  }

  // ---------------------------------------------------------------- the thread itself

  lemma FetchKeepsPending(s: State, t: Tid)
    requires CanAdvance(s, t) && s.threads[t].pc == Enumerate && PendingOk(s.threads[t], s.folders[s.threads[t].folder])
    ensures var r := Advance(s, t); PendingOk(r.threads[t], r.folders[s.threads[t].folder])
    ensures Enumerating(Advance(s, t).threads[t].pc) ==> Pending(Advance(s, t).threads[t]) == Pending(s.threads[t])
  {
    var T := s.threads[t];
    if T.todo != [] { assert Pending(Advance(s, t).threads[t]) == Pending(T); }
  }

  /** Storing a message takes it from what is pending, as the first. */
  lemma InsertKeepsPending(s: State, t: Tid)
    requires CanAdvance(s, t) && s.threads[t].pc == Insert && ThreadOk(s, t)
    requires PendingOk(s.threads[t], s.folders[s.threads[t].folder])
    ensures var r, T := Advance(s, t), s.threads[t];
      && r.threads[t].pc == Fill && Pending(T) == [T.batch[0]] + Pending(r.threads[t])
      && r.folders[T.folder].msgs == s.folders[T.folder].msgs[T.batch[0] := s.nextPtr]
      && PendingOk(r.threads[t], r.folders[T.folder])
  {
    var r, T := Advance(s, t), s.threads[t];
    assert Pending(r.threads[t]) == Pending(T)[1..];
    forall id | id in Pending(r.threads[t]) ensures id !in r.folders[T.folder].msgs {
      var i :| 0 <= i < |Pending(T)| - 1 && Pending(T)[1..][i] == id;
      assert Pending(T)[0] != Pending(T)[i + 1];
      assert Pending(T)[i + 1] in Pending(T);
    }
  }

  lemma ElseKeepsPending(s: State, t: Tid)
    requires CanAdvance(s, t) && s.threads[t].pc != Enumerate && s.threads[t].pc != Insert
    requires PendingOk(s.threads[t], s.folders[s.threads[t].folder])
    ensures var r, T := Advance(s, t), s.threads[t];
      && Pending(r.threads[t]) == Pending(T) && r.folders[T.folder].msgs == s.folders[T.folder].msgs
      && PendingOk(r.threads[t], r.folders[T.folder])
  {}

  lemma StepKeepsPending(s: State, t: Tid)
    requires CanAdvance(s, t) && ThreadOk(s, t) && PendingOk(s.threads[t], s.folders[s.threads[t].folder])
    ensures var r := Advance(s, t); PendingOk(r.threads[t], r.folders[s.threads[t].folder])
  {
    match s.threads[t].pc {
      case Enumerate => FetchKeepsPending(s, t);
      case Insert => InsertKeepsPending(s, t);
      case _ => ElseKeepsPending(s, t);
    }
  }

  lemma ServeKeepsPending(s: State, t: Tid)
    requires CanServe(s, t) && PendingOk(s.threads[t], s.folders[s.threads[t].folder])
    ensures var r := Serve(s, t); PendingOk(r.threads[t], r.folders[s.threads[t].folder])
  {
    if s.threads[t].pc == Sending(AddChunk) { assert Pending(Serve(s, t).threads[t]) == Pending(s.threads[t]); }
  }

  // ---------------------------------------------------------------- the others

  /** Enumerating threads of other folders do not notice what a thread does. */
  lemma OtherKeepsPending(s: State, r: State, t: Tid, u: Tid)
    requires Flags(s) && Gathering(s) && Moves(s, r, t) && u < |s.threads| && u != t && s.threads[t].pc != Done
    requires s.threads[t].Building() || r.folders == s.folders
    ensures r.threads[u].folder < |r.folders| && PendingOk(r.threads[u], r.folders[r.threads[u].folder])
  {
    assert ThreadOk(s, u) && ThreadOk(s, t);
    assert PendingOk(s.threads[u], s.folders[s.threads[u].folder]);
  }

  lemma MoveKeepsCreate(s: State, r: State, t: Tid)
    requires Flags(s) && CreateOk(s) && Moves(s, r, t)
    requires s.threads[t].Building() || r.folders == s.folders
    ensures CreateOk(r)
  {
    if TopIsCreate(s) { NoBuilderOfTop(s, t); }
  }

  lemma ThreadKeepsGathering(s: State, a: Action)
    requires Flags(s) && Gathering(s) && Enabled(s, a) && (a.Step? || a.FailRefresh? || a.ServeThread?)
    ensures Gathering(Apply(s, a))
  {
    var r, t := Apply(s, a), a.t;
    assert ThreadOk(s, t) && PendingOk(s.threads[t], s.folders[s.threads[t].folder]);
    match a {
      case Step(_) => StepMoves(s, t); StepKeepsPending(s, t);
      case FailRefresh(_) => FailMoves(s, t);
      case ServeThread(_) => ServeMoves(s, t); ServeKeepsPending(s, t);
    }
    MoveKeepsCreate(s, r, t);
    forall u: Tid | u < |r.threads| && u != t
      ensures r.threads[u].folder < |r.folders| && PendingOk(r.threads[u], r.folders[r.threads[u].folder])
    {
      OtherKeepsPending(s, r, t, u);
    }
  }

  /** The threads are as before, and what a folder had not stored it has not stored now, unless it
      is valid. */
  ghost predicate StoresNoMore(s: State, r: State) {
    && r.threads == s.threads && |r.folders| == |s.folders|
    && forall f: nat, id | f < |s.folders| && id in r.folders[f].msgs :: id in s.folders[f].msgs || s.folders[f].valid
  }

  lemma StoresNoMoreKeeps(s: State, r: State)
    requires Flags(s) && Gathering(s) && StoresNoMore(s, r) && CreateOk(r)
    ensures Gathering(r)
  {
    forall u: Tid | u < |r.threads| && r.threads[u].folder < |r.folders|
      ensures PendingOk(r.threads[u], r.folders[r.threads[u].folder])
    {
      assert ThreadOk(s, u) && PendingOk(s.threads[u], s.folders[s.threads[u].folder]);
    }
  }

  lemma RebuildStoresNoMore(s: State, f: nat, pc: RebuildPc)
    requires Flags(s) && CanRun(s) && s.Top() == Rebuild(f, pc) && pc != LeaveCs
    ensures StoresNoMore(s, RunHandler(s)) && CreateOk(RunHandler(s))
  {}

  lemma ReturnStoresNoMore(s: State)
    requires Flags(s) && CanRun(s) && (s.Top().Rebuild? ==> s.Top().pc == LeaveCs)
    ensures StoresNoMore(s, RunHandler(s)) && CreateOk(RunHandler(s))
  {
    var r := RunHandler(s);
    if |r.stack| < |s.stack| && r.stack != [] { assert r.Top().ViewFolder? || r.Top().Serving(); }
  }

  /** A handler of the UI thread. */
  lemma HandlerStoresNoMore(s: State)
    requires Flags(s) && CanRun(s)
    ensures StoresNoMore(s, RunHandler(s)) && CreateOk(RunHandler(s))
  {
    if s.Top().Rebuild? && s.Top().pc != LeaveCs {
      RebuildStoresNoMore(s, s.Top().folder, s.Top().pc);
    } else {
      ReturnStoresNoMore(s);
    }
  }

  lemma CreateKeepsGathering(s: State, ids: seq<seq<Id>>)
    requires Flags(s) && Gathering(s) && Enabled(s, CreateThread(ids))
    ensures Gathering(ThreadCreated(s, ids))
  {
    var r := ThreadCreated(s, ids);
    assert [] + Flatten(ids) == Flatten(ids);
    forall u: Tid | u < |r.threads| && r.threads[u].folder < |r.folders|
      ensures PendingOk(r.threads[u], r.folders[r.threads[u].folder])
    {
      if u < |s.threads| { assert PendingOk(s.threads[u], s.folders[s.threads[u].folder]); }
    }
  }

  /** Every action, whether delete commands find the view or not. */
  lemma KeepsGathering(s: State, a: Action)
    requires Flags(s) && Gathering(s) && Enabled(s, a)
    ensures Gathering(Apply(s, a))
  {
    if a.Step? || a.FailRefresh? || a.ServeThread? {
      ThreadKeepsGathering(s, a);
    } else if a.CreateThread? {
      CreateKeepsGathering(s, a.ids);
    } else {
      if a.Run? { HandlerStoresNoMore(s); }
      StoresNoMoreKeeps(s, Apply(s, a));
    }
  }

  lemma InitGathering(s: State)
    requires IsInit(s)
    ensures Gathering(s)
  {}
}
