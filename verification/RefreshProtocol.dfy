/**
 The refresh protocol of the folders of one type (one folder per server), which share
 one list view.  The UI thread re-enters itself: while it waits for the death of an old
 build thread it serves sent messages, user commands and server notifications, so its
 state is a stack of suspended handlers.  Each build thread is a worker with a program
 counter.  An action is what one thread does between two points where another thread
 can get in.
 */
module RefreshProtocol {

  type Id = nat    // DWORDLONG message id, unique on its server
  type Ptr = nat   // address of a CFaxMsg
  type Tid = nat   // index of a build thread, in order of creation

  datatype Option<+T> = None | Some(value: T)

  // ---------------------------------------------------------------- critical section

  datatype Who = UiThread | Worker(tid: Tid)

  /** m_CsData, which its owner may enter again. */
  datatype CritSec = CritSec(owner: Who, depth: nat) {
    predicate CanEnter(w: Who) { depth == 0 || owner == w }

    function Enter(w: Who): CritSec
      requires CanEnter(w)
    {
      CritSec(w, depth + 1)
    }

    function Leave(w: Who): CritSec
      requires depth > 0 && owner == w
    {
      CritSec(owner, depth - 1)
    }

    predicate HeldBy(w: Who) { depth > 0 && owner == w }
  }

  // ---------------------------------------------------------------- state

  /** The blocking messages a build thread sends to the view. */
  datatype Mail = AddChunk | RefreshEnded | Invalidate

  /** What a build thread does next.  `Insert` and `UnlockFolder` are inside m_CsData. */
  datatype WorkerPc =
    | Enumerate | Fill | Insert
    | Detach(mail: Mail) | Attach(mail: Mail) | Sending(mail: Mail)
    | EnterData | UnlockFolder | EndRefreshing | Painting | Done

  /** `batch` and `todo` are the ids the server has yet to hand over: the rest of the
      current chunk and the later chunks.  `chunk` is what was stored but not yet sent. */
  datatype BuildThread = BuildThread(folder: nat, pc: WorkerPc, batch: seq<Id>, todo: seq<seq<Id>>, chunk: set<Ptr>) {
    /** Between its creation and its clearing of m_bRefreshing. */
    predicate Building() { pc != Painting && pc != Done }

    predicate InData() { pc == Insert || pc == UnlockFolder }
  }

  datatype RebuildPc =
    | Begin | StopThread | WaitDeath(tid: Tid) | EnterCs(stopped: bool) | Clear | Create | LeaveCs

  /** A suspended or running handler of the UI thread. */
  datatype Frame =
    | ViewFolder(next: nat)                     // loop over the servers' folders
    | Rebuild(folder: nat, pc: RebuildPc)       // inside RebuildContents of one folder
  {
    /** Has set m_bRefreshing and not yet handed it to a thread or cleared it. */
    predicate Active() { Rebuild? && pc != Begin && pc != LeaveCs }

    predicate InData() { Rebuild? && (pc == Clear || pc == Create || pc == LeaveCs) }

    predicate Serving() { Rebuild? && pc.WaitDeath? }
  }

  datatype Folder = Folder(
    valid: bool,          // m_bValidList
    refreshing: bool,     // m_bRefreshing
    locked: bool,         // m_bLocked
    stop: bool,           // m_bStopRefresh
    attached: bool,       // m_pAssignedView is not NULL
    handle: Option<Tid>,  // m_hBuildThread
    msgs: map<Id, Ptr>,   // m_Msgs
    cs: CritSec)          // m_CsData

  /** A message object knows its server's folder and its id. */
  datatype Msg = Msg(folder: nat, id: Id)

  datatype State = State(
    folders: seq<Folder>,
    threads: seq<BuildThread>,
    stack: seq<Frame>,        // the UI thread's handlers, innermost last
    rows: set<Ptr>,           // messages shown by the list control
    heap: map<Ptr, Msg>,      // message objects allocated and not freed
    nextPtr: Ptr)               // next address
  {
    function Top(): Frame
      requires stack != []
    {
      stack[|stack| - 1]
    }

    /** The UI thread is in a message loop: the main one, or the one inside a wait. */
    predicate Serving() { stack == [] || Top().Serving() }
  }

  ghost predicate IsInit(s: State) {
    && s.threads == [] && s.stack == [] && s.rows == {} && s.heap == map[]
    && forall f | 0 <= f < |s.folders| :: InitFolder(s.folders[f])
  }

  predicate InitFolder(F: Folder) {
    && !F.valid && !F.refreshing && !F.locked && !F.attached && F.handle.None?
    && F.msgs == map[] && F.cs.depth == 0
  }

  // ---------------------------------------------------------------- state updates

  function PutFolder(s: State, f: nat, F: Folder): State
    requires f < |s.folders|
  {
    s.(folders := s.folders[f := F])
  }

  function PutThread(s: State, t: Tid, T: BuildThread): State
    requires t < |s.threads|
  {
    s.(threads := s.threads[t := T])
  }

  function Jump(s: State, t: Tid, pc: WorkerPc): State
    requires t < |s.threads|
  {
    PutThread(s, t, s.threads[t].(pc := pc))
  }

  function PutTop(s: State, fr: Frame): State
    requires s.stack != []
  {
    s.(stack := s.stack[|s.stack| - 1 := fr])
  }

  function Push(s: State, fr: Frame): State { s.(stack := s.stack + [fr]) }

  function Pop(s: State): State
    requires s.stack != []
  {
    s.(stack := s.stack[..|s.stack| - 1])
  }

  /** Deletes every message object of the map and empties the map. */
  function FreeAll(s: State, f: nat): State
    requires f < |s.folders|
  {
    s.(folders := s.folders[f := s.folders[f].(msgs := map[])],
       heap := s.heap - s.folders[f].msgs.Values)
  }

  /** A new object for `id`, stored in the folder's map. */
  function Store(s: State, f: nat, id: Id): State
    requires f < |s.folders|
  {
    s.(folders := s.folders[f := s.folders[f].(msgs := s.folders[f].msgs[id := s.nextPtr])],
       heap := s.heap[s.nextPtr := Msg(f, id)],
       nextPtr := s.nextPtr + 1)
  }

  /** CFolder::OnJobRemoved for a message of the map: the view is told only when attached. */
  function RemoveJob(s: State, f: nat, id: Id): State
    requires f < |s.folders| && id in s.folders[f].msgs
  {
    var F := s.folders[f];
    var p := F.msgs[id];
    s.(folders := s.folders[f := F.(msgs := F.msgs - {id})],
       rows := if F.attached then s.rows - {p} else s.rows,
       heap := s.heap - {p})
  }

  /** OnJobAdded: an id already known is ignored. */
  function AddJob(s: State, f: nat, id: Id): State
    requires f < |s.folders|
  {
    if id in s.folders[f].msgs then s
    else
      var s1 := Store(s, f, id);
      if s.folders[f].attached then s1.(rows := s.rows + {s.nextPtr}) else s1
  }

  function InvalidateAll(fs: seq<Folder>): (r: seq<Folder>)
    ensures |r| == |fs| && forall i | 0 <= i < |fs| :: r[i] == fs[i].(valid := false)
  {
    seq(|fs|, i requires 0 <= i < |fs| => fs[i].(valid := false))
  }

  function Flatten(chunks: seq<seq<Id>>): seq<Id> {
    if chunks == [] then [] else chunks[0] + Flatten(chunks[1..])
  }

  ghost predicate Distinct(ids: seq<Id>) {
    forall i, j | 0 <= i < j < |ids| :: ids[i] != ids[j]
  }

  // ---------------------------------------------------------------- build thread

  predicate IsThread(s: State, t: Tid) { t < |s.threads| && s.threads[t].folder < |s.folders| }

  /** The thread is not blocked: neither on m_CsData nor inside SendMessage. */
  predicate CanAdvance(s: State, t: Tid) {
    && IsThread(s, t)
    && var T := s.threads[t];
    var cs := s.folders[T.folder].cs;
    match T.pc
    case Fill => T.batch != [] ==> cs.CanEnter(Worker(t))
    case Insert => T.batch != [] && cs.HeldBy(Worker(t))
    case EnterData => cs.CanEnter(Worker(t))
    case UnlockFolder => cs.HeldBy(Worker(t))
    case Sending(_) => false
    case Painting => false
    case Done => false
    case _ => true
  }

  /** BuildThreadProc and, inside it, the folder's Refresh. */
  function Advance(s: State, t: Tid): State
    requires CanAdvance(s, t)
  {
    var T := s.threads[t];
    var f := T.folder;
    var F := s.folders[f];
    match T.pc
    case Enumerate =>
      if F.stop || T.todo == [] then Succeed(s, t)
      else PutThread(s, t, T.(pc := Fill, batch := T.todo[0], todo := T.todo[1..]))
    case Fill =>
      if T.batch == [] then Jump(s, t, Detach(AddChunk))
      else Jump(PutFolder(s, f, F.(cs := F.cs.Enter(Worker(t)))), t, Insert)
    case Insert => InsertOne(s, t)
    case Detach(mail) => Jump(PutFolder(s, f, F.(attached := false)), t, Attach(mail))
    case Attach(mail) => Jump(PutFolder(s, f, F.(attached := true)), t, Sending(mail))
    case EnterData => Jump(PutFolder(s, f, F.(cs := F.cs.Enter(Worker(t)))), t, UnlockFolder)
    case UnlockFolder => Jump(PutFolder(s, f, F.(locked := false, cs := F.cs.Leave(Worker(t)))), t, EndRefreshing)
    case EndRefreshing => Jump(PutFolder(s, f, F.(refreshing := false)), t, Painting)
  }

  /** Refresh returned ERROR_SUCCESS: m_bValidList is set before the view is looked up. */
  function Succeed(s: State, t: Tid): State
    requires IsThread(s, t)
  {
    var f := s.threads[t].folder;
    Jump(PutFolder(s, f, s.folders[f].(valid := true)), t, Detach(RefreshEnded))
  }

  /** Stores one message inside m_CsData, leaves it and looks at m_bStopRefresh. */
  function InsertOne(s: State, t: Tid): State
    requires IsThread(s, t) && s.threads[t].batch != []
    requires s.folders[s.threads[t].folder].cs.HeldBy(Worker(t))
  {
    var T := s.threads[t];
    var s1 := Store(s, T.folder, T.batch[0]);
    var F := s1.folders[T.folder];
    var s2 := PutFolder(s1, T.folder, F.(cs := F.cs.Leave(Worker(t))));
    var s3 := PutThread(s2, t, T.(pc := Fill, batch := T.batch[1..], chunk := T.chunk + {s.nextPtr}));
    if F.stop then Succeed(s3, t) else s3
  }

  // ---------------------------------------------------------------- UI thread: sent messages

  /** The UI thread serves messages and `t` waits in SendMessage (or in the repainting of
      the status bar, which is sent to the window's thread as well). */
  predicate CanServe(s: State, t: Tid) {
    && s.Serving() && IsThread(s, t)
    && match s.threads[t].pc
       case Sending(Invalidate) => s.folders[s.threads[t].folder].cs.CanEnter(UiThread)
       case Sending(_) => true
       case Painting => true
       case _ => false
  }

  /** OnFolderAddChunk, OnFolderRefreshEnded, OnFolderInvalidate, or WM_PAINT. */
  function Serve(s: State, t: Tid): State
    requires CanServe(s, t)
  {
    var T := s.threads[t];
    match T.pc
    case Sending(AddChunk) => PutThread(s, t, T.(pc := Enumerate, chunk := {})).(rows := s.rows + T.chunk)
    case Sending(RefreshEnded) => Jump(s, t, EnterData)
    case Sending(Invalidate) =>
      PutThread(FreeAll(s, T.folder), t, T.(pc := EnterData, chunk := {}))
        .(rows := s.rows - s.folders[T.folder].msgs.Values)
    case Painting => Jump(s, t, Done)
  }

  // ---------------------------------------------------------------- UI thread: running handler

  /** The running handler is neither blocked nor about to call something with a choice of
      outcomes (CreateThread has one). */
  predicate CanRun(s: State) {
    && s.stack != []
    && (s.Top().Rebuild? ==>
      && s.Top().folder < |s.folders|
      && var cs := s.folders[s.Top().folder].cs;
      match s.Top().pc
      case WaitDeath(t) => t < |s.threads| && s.threads[t].pc == Done
      case EnterCs(_) => cs.CanEnter(UiThread)
      case Clear => cs.HeldBy(UiThread)
      case Create => false
      case LeaveCs => cs.HeldBy(UiThread)
      case _ => true)
  }

  function RunHandler(s: State): State
    requires CanRun(s)
  {
    match s.Top()
    case ViewFolder(i) => VisitNext(s, i)
    case Rebuild(f, pc) => StepRebuild(s, f, pc)
  }

  /** One round of CClientConsoleDoc::ViewFolder: SetVisible of one server's folder. */
  function VisitNext(s: State, i: nat): State
    requires s.stack != []
  {
    if i >= |s.folders| then Pop(s)
    else if !s.folders[i].valid && !s.folders[i].refreshing then
      Push(PutTop(s, ViewFolder(i + 1)), Rebuild(i, Begin))
    else PutTop(s, ViewFolder(i + 1))
  }

  /** CFolder::RebuildContents, with StopBuildThread and InvalidateContents inside it. */
  function StepRebuild(s: State, f: nat, pc: RebuildPc): State
    requires CanRun(s) && s.Top() == Rebuild(f, pc)
  {
    var F := s.folders[f];
    match pc
    case Begin => PutTop(PutFolder(s, f, F.(refreshing := true)), Rebuild(f, StopThread))
    case StopThread =>
      var next := if F.handle.Some? then WaitDeath(F.handle.value) else EnterCs(true);
      PutTop(PutFolder(s, f, F.(stop := true)), Rebuild(f, next))
    case WaitDeath(t) => PutTop(PutFolder(s, f, F.(handle := None)), Rebuild(f, EnterCs(true)))
    case EnterCs(stopped) =>
      var F1 := F.(cs := F.cs.Enter(UiThread));
      if stopped then PutTop(PutFolder(s, f, F1.(locked := true)), Rebuild(f, Clear))
      else PutTop(PutFolder(s, f, F1.(refreshing := false)), Rebuild(f, LeaveCs))
    case Clear =>
      // InvalidateContents(FALSE) enters m_CsData again, frees, leaves; it does not touch the view
      var F1 := F.(cs := F.cs.Enter(UiThread).Leave(UiThread), valid := false);
      PutTop(FreeAll(PutFolder(s, f, F1), f), Rebuild(f, Create))
    case LeaveCs => Pop(PutFolder(s, f, F.(cs := F.cs.Leave(UiThread))))
  }

  /** CreateThread inside RebuildContents; `ids` is what the server will enumerate. */
  function ThreadCreated(s: State, ids: seq<seq<Id>>): State
    requires TopIsCreate(s)
  {
    var f := s.Top().folder;
    var F := s.folders[f].(stop := false, handle := Some(|s.threads|));
    PutTop(PutFolder(s, f, F), Rebuild(f, LeaveCs))
      .(threads := s.threads + [BuildThread(f, Enumerate, [], ids, {})])
  }

  function ThreadNotCreated(s: State): State
    requires TopIsCreate(s)
  {
    var f := s.Top().folder;
    var F := s.folders[f].(stop := false, locked := false, refreshing := false);
    PutTop(PutFolder(s, f, F), Rebuild(f, LeaveCs))
  }

  predicate TopIsCreate(s: State) {
    s.stack != [] && s.Top().Rebuild? && s.Top().pc == Create && s.Top().folder < |s.folders|
  }

  /** WaitForThreadDeathOrShutdown returned an error: the handle is closed all the same. */
  function NotWaited(s: State): State
    requires s.stack != [] && s.Top().Serving() && s.Top().folder < |s.folders|
  {
    var f := s.Top().folder;
    PutTop(PutFolder(s, f, s.folders[f].(handle := None)), Rebuild(f, EnterCs(false)))
  }

  // ---------------------------------------------------------------- actions

  datatype Action =
    | Step(t: Tid)                       // a build thread goes on
    | FailRefresh(t: Tid)                // an error of the server ends its Refresh
    | ServeThread(t: Tid)                // the UI thread handles what a build thread sent
    | Run                                // the running UI handler goes on
    | WaitFailed | CreateThread(ids: seq<seq<Id>>) | CreateFailed
    | OpenFolder | RefreshCurrent | RefreshRoot | DeleteRow(f: nat, id: Id)   // user
    | NotifyAdded(f: nat, id: Id) | NotifyRemoved(f: nat, id: Id)             // server

  /** CLeftView::CanRefreshFolder: F5 is enabled. */
  predicate CanRefresh(s: State) { forall f | 0 <= f < |s.folders| :: !s.folders[f].refreshing }

  /** The UI thread can take a server's notification for this folder: CServerNode drops
      those of a locked or invalid one. */
  predicate CanNotify(s: State, f: nat) {
    && s.Serving() && f < |s.folders|
    && s.folders[f].valid && !s.folders[f].locked && s.folders[f].cs.CanEnter(UiThread)
  }

  ghost predicate Enabled(s: State, a: Action) {
    match a
    case Step(t) => CanAdvance(s, t)
    case FailRefresh(t) => IsThread(s, t) && (s.threads[t].pc == Enumerate || s.threads[t].pc == Fill)
    case ServeThread(t) => CanServe(s, t)
    case Run => CanRun(s)
    case WaitFailed => s.stack != [] && s.Top().Serving() && s.Top().folder < |s.folders|
    case CreateThread(ids) => TopIsCreate(s) && Distinct(Flatten(ids))
    case CreateFailed => TopIsCreate(s)
    case OpenFolder => s.Serving()
    case RefreshCurrent => s.Serving() && CanRefresh(s)
    case RefreshRoot => s.Serving() && CanRefresh(s)
    case DeleteRow(f, id) =>
      && s.Serving() && f < |s.folders| && id in s.folders[f].msgs && s.folders[f].msgs[id] in s.rows
      && s.folders[f].cs.CanEnter(UiThread)
    case NotifyAdded(f, _) => CanNotify(s, f)
    case NotifyRemoved(f, _) => CanNotify(s, f)
  }

  function Apply(s: State, a: Action): State
    requires Enabled(s, a)
  {
    match a
    case Step(t) => Advance(s, t)
    case FailRefresh(t) => Jump(s, t, Detach(Invalidate))
    case ServeThread(t) => Serve(s, t)
    case Run => RunHandler(s)
    case WaitFailed => NotWaited(s)
    case CreateThread(ids) => ThreadCreated(s, ids)
    case CreateFailed => ThreadNotCreated(s)
    case OpenFolder => Push(s, ViewFolder(0))
    case RefreshCurrent => Push(s.(rows := {}, folders := InvalidateAll(s.folders)), ViewFolder(0))
    case RefreshRoot => s.(rows := {}, folders := InvalidateAll(s.folders))
    case DeleteRow(f, id) => RemoveJob(s, f, id)
    case NotifyAdded(f, id) => AddJob(s, f, id)
    case NotifyRemoved(f, id) => if id in s.folders[f].msgs then RemoveJob(s, f, id) else s
  }
}
