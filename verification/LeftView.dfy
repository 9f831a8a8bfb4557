/**
 The tree view's summary of the servers, on which it depends whether the user may refresh.
 */
module LeftView {
  import opened Folders
  import P = RefreshProtocol

  /** A server: which of its folders are refreshing, and its own state. */
  datatype Server = Server(folderRefreshing: map<FolderType, bool>, refreshing: bool, online: bool)

  predicate Complete(servers: seq<Server>) {
    forall i, t: FolderType | 0 <= i < |servers| :: t in servers[i].folderRefreshing
  }

  /** Something of this server is refreshing that concerns the current view; without a view, the
      root is selected and all folders count. */
  ghost predicate Busy(s: Server, current: P.Option<FolderType>) {
    || s.refreshing
    || exists t: FolderType :: t in s.folderRefreshing && s.folderRefreshing[t] && (current == P.None || current == P.Some(t))
  }

  /** The indices of the servers that are off line. */
  ghost function OffLine(servers: seq<Server>): set<nat> {
    set i | 0 <= i < |servers| && !servers[i].refreshing && !servers[i].online
  }

  method GetServerState(servers: seq<Server>, current: P.Option<FolderType>) returns (refreshing: bool, offLineCount: nat)
    requires Complete(servers)
    ensures refreshing <==> exists i :: 0 <= i < |servers| && Busy(servers[i], current)
    ensures offLineCount == |OffLine(servers)|
  {
    refreshing := false;
    offLineCount := 0;
    for i := 0 to |servers|
      invariant refreshing <==> exists k :: 0 <= k < i && Busy(servers[k], current)
      invariant offLineCount == |OffLine(servers[..i])|
    {
      var server := servers[i];
      BusyCases(server, current);
      if current.Some? {
        if server.folderRefreshing[current.value] {
          refreshing := true;
        }
      } else {
        if || server.folderRefreshing[INBOX] || server.folderRefreshing[OUTBOX]
           || server.folderRefreshing[SENT_ITEMS] || server.folderRefreshing[INCOMING]
        {
          refreshing := true;
        }
      }
      OffLineStep(servers, i);
      if server.refreshing {
        refreshing := true;
      } else if !server.online {
        offLineCount := offLineCount + 1;
      }
    }
    assert servers[..|servers|] == servers;
  }

  lemma BusyCases(s: Server, current: P.Option<FolderType>)
    requires forall t: FolderType :: t in s.folderRefreshing
    ensures current.Some? ==> (Busy(s, current) <==> s.refreshing || s.folderRefreshing[current.value])
    ensures current.None? ==>
      (Busy(s, current) <==>
        || s.refreshing || s.folderRefreshing[INBOX] || s.folderRefreshing[OUTBOX]
        || s.folderRefreshing[SENT_ITEMS] || s.folderRefreshing[INCOMING])
  {
    if current.None? && Busy(s, current) && !s.refreshing {
      var t :| t in s.folderRefreshing && s.folderRefreshing[t];
      assert t == INBOX || t == OUTBOX || t == SENT_ITEMS || t == INCOMING;
    }
    assert forall t: FolderType :: t in s.folderRefreshing;
  }

  lemma OffLineStep(servers: seq<Server>, i: nat)
    requires i < |servers|
    ensures OffLine(servers[..i + 1]) ==
      OffLine(servers[..i]) + (if !servers[i].refreshing && !servers[i].online then {i} else {})
  {}

  /** CanRefreshFolder: F5 is offered only while no folder of the current type is refreshing, as
      the refresh protocol supposes. */
  method CanRefreshFolder(servers: seq<Server>, current: FolderType, ghost s: P.State) returns (can: bool)
    requires Complete(servers) && |s.folders| == |servers|
    requires forall f | 0 <= f < |servers| :: servers[f].folderRefreshing[current] == s.folders[f].refreshing
    ensures can ==> P.CanRefresh(s)
    ensures P.CanRefresh(s) && (forall f | 0 <= f < |servers| :: !servers[f].refreshing) ==> can
  {
    var refreshing, offLineCount := GetServerState(servers, P.Some(current));
    forall f | 0 <= f < |s.folders| && s.folders[f].refreshing ensures refreshing {
      assert servers[f].folderRefreshing[current] && Busy(servers[f], P.Some(current));
    }
    return !refreshing;
  }
}
