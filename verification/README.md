# Verified model of the fax client console

`faxsrv/clientconsole` is a client that shows the fax queues and archives of several servers. This
project models its logic in Dafny and proves what the code relies on. It has four parts.

**Refreshing a folder** (`RefreshProtocol`, `RefreshFlags`, `RefreshPending`, `RefreshRows`,
`RefreshRuns`, `RefreshProgress`, `RefreshContents`, `LeftView`). The folders of one type, one per
server, share one list view. A background thread builds each folder and sends blocking messages to the
UI thread. The UI thread, while it waits for an old thread to die, serves those messages and can be
re-entered by the user and by server notifications. The model is a state machine: any number of folders,
a stack of suspended UI handlers, any number of build threads with program counters, a recursive
critical section per folder, a heap of message objects. An action is what one thread does between two
points where another can get in. Proved for all runs: the flags stay consistent, at most one thread
builds a folder, nobody waits inside a critical section, no deadlock and no livelock, the view is an
index over the maps, and a valid folder holds exactly what its server has enumerated and notified.
Without errors a refresh comes to rest with every folder valid.

**The list view** (`SelectionCache`, `SelectionView`, `SortedList`, `SortedRows`, `SortedView`,
`DeleteRuns`, `DeleteView`, with `Dword` for bits, `Folders` for the folder types and `Collections` for
sequences). The cache of operations offered on the selection; sorted insertion by bisection; updates,
column clicks and removals; the delete loop with reports that come in between. The fields and handlers
are classes, each proved equal to a step on values; the theorems are about those steps and about runs of
them. Each module has the fields of the view that its component uses.

**Columns** (`Permutations`, `ColumnDialog`, `ColumnLayout`). The dialog that selects and orders
columns, and the layout that is saved to the registry and read back.

**Jobs** (`Job`). Client commands between two reports of the server, and the detector that decides
whether a report changes anything.

`dafny verify dfyconfig.toml` checks the whole project.

## Where the code does less than it says

Each has a lemma with the exact condition, or a concrete input, or both.

- `CFolder::AttachView` sets the view pointer to NULL before it looks it up, outside the critical
  section. If the user deletes a row in that window the row keeps a freed message. A run never shows a
  freed message if and only if no delete command falls into that window
  (`RefreshRuns.DanglesIffDisorderly`, `RefreshRuns.DisorderlyRun`). This, like the absence of
  deadlocks, is about the actions of the model; the end of the service (`servernode.cpp:2000-2017`) and
  the lock `m_csBuildupThread` of `CServerNode::GetConnectionHandle` are not among them.
- `OnItemSelected` takes an empty mask for "nothing selected yet", also when it is called from the full
  recalculation. So the mask starts afresh at a row before which there is nothing in common, and three
  rows with nothing in common are offered what the last one can do (`SelectionCache.RecalcExact`,
  `SelectionCache.MaskExactIffGuarded`, `SelectionCache.RecalcOffersTooMuch`).
- `UpdateSortedItem` moves a row only if the text of the sort column changes. Where the text says less
  than the comparison (sizes are shown in kilobytes, and as 1 below one) the list is left out of order
  (`SortedRows.UpdateExact`, `SortedRows.UpdateLeavesDisorder`).
- A row that is moved passes its selection on to whatever is at the old index. In the middle of a
  delete command that is a message the user never selected, and it is deleted
  (`SortedRows.UpdateReselects`, `DeleteRuns.TameIff`, `DeleteRuns.DeletesAnother`).
- A layout without a sort column is read back as sorted by column 0, because the sort column is compared
  with an unsigned count. Column 0 is the icon column of every view (`mainfrm.cpp:68`), whose cells have
  no text (in a release build), so updates never move a row then (`ColumnLayout.SortedColRoundTrip`).
- An inconsistent layout in the registry leaves -1 in the order array, which is then used as an index: a
  gap at one of the displayed places by the first loop of `OpenSelectColumnsDlg`
  (`folderlistview.cpp:1963-1969`), any other by `InputValidate`, before that can refuse it
  (`ColumnLayout.PlacedIff`, `ColumnLayout.WidthLoopIff`, `ColumnLayout.TwoColumnsOnePlace`).
- `IsNewStatus` passes over null strings that `UpdateStatus` would store, and compares fields that
  `UpdateStatus` ignores (`Job.DetectsExactly`, `Job.DetectsIff`, `Job.NullNameGoesUnnoticed`).

## Assumptions

- A column's comparison is a total preorder that answers -1, 0 or 1; texts and comparisons are
  parameters. Times and numbers of a job are integers, the empty time is 0.
- Message ids are distinct within one enumeration of a server. Addresses are not used twice.
- `WaitForThreadDeathOrShutdown` waits without a time limit and serves sent messages and posted ones;
  its failure is an action of its own. Whether `CreateThread` succeeds, what a server enumerates, when it
  fails, what it answers to a command, and what it reports are arbitrary.
- Repainting the status bar from a build thread is taken to block until the UI thread serves it, which
  is the worst case.
- What a server enumerates for a queue is taken without the completed and cancelled jobs, which
  `CQueueFolder::Refresh` skips. What it enumerates is told in chunks of any size; a queue has one.
- The list control's sort is known by its contract only: the same rows, in the order of the callback.

## Model

| member | source | states |
|---|---|---|
| RefreshFlags.KeepsFlags | faxsrv/clientconsole/folder.cpp:186-541 | every action of a UI handler, build thread, user or server keeps the agreement of m_bRefreshing, m_bLocked, m_bValidList, m_hBuildThread and the critical sections, also re-entered and after each failure exit |
| RefreshRuns.OneBuilderPerFolder | faxsrv/clientconsole/folder.cpp:296-378 | in every run RebuildContents starts on a folder that is not refreshing, locked implies refreshing, one thread at most builds a folder, and a building thread's folder is refreshing and not being stopped |
| RefreshRuns.NobodyWaitsInsideData | faxsrv/clientconsole/folder.cpp:381-428 | in every run the UI thread waits for a thread's death only outside m_CsData, and build threads send only outside it |
| RefreshRows.KeepsRows | faxsrv/clientconsole/messagefolder.cpp:52-288 | every action keeps maps, heap and rows in agreement: no entry dangles, no object leaks, and exactly the unsent chunk of a building folder is missing from the view |
| RefreshPending.KeepsGathering | faxsrv/clientconsole/folder.cpp:296-378 | every action keeps: what a building thread has yet to be told is distinct and not in the map, and a thread is created for an empty map only |
| RefreshContents.StoresTheEnumerated | faxsrv/clientconsole/messagefolder.cpp:116-288 | in every run, also with errors: a valid folder holds exactly what its last thread has enumerated, less what was deleted or reported gone and more what was reported new since; until then exactly what that thread has yet to be told is missing; a thread that reports success leaves its folder valid |
| RefreshRuns.ViewIndexesMaps | faxsrv/clientconsole/folderlistview.cpp:754-825 | in every orderly run each row is a live message of some map, and an idle folder shows all of its map if it is valid and nothing otherwise |
| RefreshRuns.DeleteKeepsRowsLive | faxsrv/clientconsole/folder.cpp:595-681 | a delete command leaves no row on a freed message if and only if the folder's view pointer is set at that moment |
| RefreshRuns.DanglesIffDisorderly | faxsrv/clientconsole/folder.cpp:140-183 | a run never shows a freed message if and only if no delete command is taken while AttachView has reset the pointer |
| RefreshRuns.DisorderlyRun | faxsrv/clientconsole/folder.cpp:140-183 | a run of one folder with one message that ends with a row on a freed message |
| RefreshProgress.SomebodyCanGoOn | faxsrv/clientconsole/utils.cpp:303-458 | no deadlock: unless all is at rest, the UI thread or a build thread can go on without any failure, user or notification |
| RefreshProgress.InternalActionWork | faxsrv/clientconsole/folder.cpp:432-541 | no livelock: whatever the threads do on their own leaves strictly less work, also after errors |
| RefreshProgress.RestShowsValidFolders | faxsrv/clientconsole/folderlistview.cpp:687-750 | at rest nothing is refreshing, locked or held, and the rows are exactly the messages of the valid folders |
| RefreshProgress.EveryRunComesToRest | faxsrv/clientconsole/leftview.cpp:692-783 | from every state of every run, whatever the servers enumerate, the threads on their own and without errors come to rest, and then the view shows exactly the valid folders |
| RefreshContents.RefreshFillsAll | faxsrv/clientconsole/leftview.cpp:761-783 | wherever the threads go after F5 without an error: when they come to rest every folder is valid and holds exactly what its server has enumerated |
| RefreshContents.RootRefreshFillsAll | faxsrv/clientconsole/leftview.cpp:718-756 | a refresh at the root empties the view, and when it is opened next every folder comes to hold what its server enumerates then |
| RefreshContents.OpenFillsAll | faxsrv/clientconsole/clientconsoledoc.cpp:717-755 | opening the view, also in the middle of other work, makes every folder valid whose refresh has not failed already: a valid one keeps its contents, one that is being filled gets the rest, any other one what its server enumerates |
| RefreshContents.RefreshComesToShowAll | faxsrv/clientconsole/leftview.cpp:692-783 | for whatever the servers enumerate there is such a way after F5, and in an orderly run the rows at its end are the messages of all folders |
| LeftView.GetServerState | faxsrv/clientconsole/leftview.cpp:801-876 | refreshing exactly if some server or folder of the current view (all folders at the root) is, and the number of servers that are off line |
| LeftView.CanRefreshFolder | faxsrv/clientconsole/leftview.cpp:657-689 | a refresh is offered only if no folder of the type is refreshing, which the protocol relies on, and always if no server is busy either |
| SelectionCache.SelectMask | faxsrv/clientconsole/folderlistview.cpp:1322-1381 | one more selected row leaves an exact mask exact if and only if the mask was not empty, or nothing was selected, or the row offers nothing |
| SelectionCache.UnselectKeeps | faxsrv/clientconsole/folderlistview.cpp:1383-1444 | one selected row less keeps counters right and a mask exact, and no counter goes below 0 |
| SelectionCache.RecalcCountsOk | faxsrv/clientconsole/folderlistview.cpp:1275-1320 | a recalculation leaves each counter at the number of selected rows that lack the operation |
| SelectionCache.RecalcMask | faxsrv/clientconsole/folderlistview.cpp:1275-1320 | a recalculated mask is what the selected rows have in common since the last one reached with nothing in common before it |
| SelectionCache.RecalcExact | faxsrv/clientconsole/folderlistview.cpp:1275-1320 | a recalculated mask is exact if and only if the mask has never started afresh, or the rows since it last did have nothing in common either |
| SelectionCache.RecalcOffersCommon | faxsrv/clientconsole/folderlistview.cpp:1275-1320 | so a recalculation is exact whenever the selected rows have an operation in common |
| SelectionCache.RecalcOffersTooMuch | faxsrv/clientconsole/folderlistview.cpp:1347-1350 | three rows that have nothing in common, for which an operation is offered all the same |
| SelectionCache.CountersInEveryRun | faxsrv/clientconsole/folderlistview.cpp:1185-1444 | in every run of selections, unselections and bulk changes each counter but those of VIEW and PROPERTIES equals that of a fresh recalculation |
| SelectionCache.MaskExactIffGuarded | faxsrv/clientconsole/folderlistview.cpp:1185-1444 | the mask is the set of operations common to all selected rows throughout a run if and only if every event of it is guarded: the row by row ones by the test of SelectMask, the bulk ones by that of RecalcExact |
| SelectionCache.SingleOnlyNeverOffered | faxsrv/clientconsole/folderlistview.cpp:1355-1361 | in every run VIEW and PROPERTIES are not offered while two or more rows are selected, and their counters stay at least 1 |
| SelectionView.CFolderListView.GetServerPossibleOperations | faxsrv/clientconsole/folderlistview.cpp:1114-1181 | exactly DELETE is missing in an inbox one may not manage, and DELETE, PAUSE, RESUME and RESTART in an incoming queue |
| SelectionView.CFolderListView.OnItemSelected | faxsrv/clientconsole/folderlistview.cpp:1322-1381 | the DWORD mask and the counter array become what selecting makes of their bits and values |
| SelectionView.CFolderListView.OnItemUnSelected | faxsrv/clientconsole/folderlistview.cpp:1383-1444 | the same for unselecting, with the reset for at most one selected row |
| SelectionView.CFolderListView.RecalcPossibleOperations | faxsrv/clientconsole/folderlistview.cpp:1275-1320 | the walk over the selected items ends with the recalculated cache, whatever it was before |
| SelectionView.CFolderListView.SetItemState | faxsrv/clientconsole/folderlistview.cpp:1185-1273 | a change of one item's selection is one event of a run, and nothing happens to the cache without a change or in the middle of a bulk operation |
| SelectionView.CFolderListView.OnSelectInvert | faxsrv/clientconsole/folderlistview.cpp:275-311 | every item changes sides, and the cache is recalculated once |
| SortedList.CallbackIsDirected | faxsrv/clientconsole/folderlistview.cpp:834-884 | swapping the arguments when descending, as the sort does, is the same order as negating the result, as insertion does |
| SortedList.BooleanSearchInsertionPoint | faxsrv/clientconsole/folderlistview.cpp:2612-2706 | the bisection ends between its bounds, and with list[top] < x <= list[bottom] right after a smaller row and at one that is not |
| SortedList.InsertionIndex | faxsrv/clientconsole/folderlistview.cpp:2482-2610 | on a sorted list the rows from the index on are not smaller, and those before it strictly smaller unless it is the end |
| SortedList.SortedAfterInsertion | faxsrv/clientconsole/folderlistview.cpp:2708-2767 | inserting there keeps the list sorted, in both directions |
| SortedList.InsertionComparisons | faxsrv/clientconsole/folderlistview.cpp:2482-2706 | with n >= 2 rows at most 2 + ceil(log2(n-1)) comparisons are made |
| SortedList.CeilLog2IsLeast | faxsrv/clientconsole/folderlistview.cpp:2658-2660 | the logarithm in that bound is the least k with n <= 2^k |
| SortedRows.AddKeepsOrder | faxsrv/clientconsole/folderlistview.cpp:2708-2767 | a row that is added keeps the others in place, so removing it again restores the view, and a sorted list stays sorted |
| SortedRows.RemoveKeepsOrder | faxsrv/clientconsole/folderlistview.cpp:2397-2480 | removing a message's row removes that row only, and a sorted list stays sorted |
| SortedRows.UpdateExact | faxsrv/clientconsole/folderlistview.cpp:2769-2910 | an update keeps the set of rows and makes them show their messages; the list is sorted afterwards if and only if the sort text changed or the row still fits between its neighbours |
| SortedRows.UpdateRestoresOrder | faxsrv/clientconsole/folderlistview.cpp:2769-2910 | so it is always sorted if equal text in the sort column implies equal comparison |
| SortedRows.UpdateLeavesDisorder | faxsrv/clientconsole/utils.cpp:883-890 | a message that grows within the kilobyte shown leaves a list sorted by size out of order |
| SortedRows.UpdateReselects | faxsrv/clientconsole/folderlistview.cpp:2893-2904 | after a move the row at the old index is selected, and the moved one if and only if it is that row |
| SortedRows.SortPutsInOrder | faxsrv/clientconsole/folderlistview.cpp:2364-2395 | after DoSort the same messages are shown, in the order insertion expects |
| SortedRows.ClickArranges | faxsrv/clientconsole/folderlistview.cpp:886-939 | a click on a column arranges the same messages by it, in the direction opposite to the former one if it was the sort column, ascending otherwise |
| SortedRows.TwoClicks | faxsrv/clientconsole/folderlistview.cpp:886-939 | in a run, the first of two clicks on another column arranges the rows from its least value on, the second from its greatest |
| SortedRows.InOrderIffGuarded | faxsrv/clientconsole/folderlistview.cpp:834-939 | throughout a run of refreshes, clicks, arrivals, removals and changes the list is in the order of its sort column and direction, whenever no refresh has appended rows since the last sort, if and only if every change is guarded |
| SortedRows.InOrderInEveryRun | faxsrv/clientconsole/folderlistview.cpp:886-939 | so it is in every run if equal text in the sort columns implies equal comparison |
| SortedView.CFolderListView.FindIndex | faxsrv/clientconsole/folderlistview.cpp:2482-2610 | the end while the list is empty or has no sort column; in a sorted list the rows from the index on are not smaller, and those before it strictly smaller unless it is the end |
| SortedView.CFolderListView.AddSortedItem | faxsrv/clientconsole/folderlistview.cpp:2708-2767 | the list control's rows become those of the view with the message added, unselected |
| SortedView.CFolderListView.RemoveItem | faxsrv/clientconsole/folderlistview.cpp:2397-2480 | the row goes, if there is one, with or without its index given, and the caller learns whether it was selected |
| SortedView.CFolderListView.UpdateSortedItem | faxsrv/clientconsole/folderlistview.cpp:2769-2910 | the rows become those of the updated view, and ERROR_NOT_FOUND means exactly that the message has no row |
| SortedView.CFolderListView.DoSort | faxsrv/clientconsole/folderlistview.cpp:2364-2395 | sorts once, not while sorting and not without a sort column |
| SortedView.CFolderListView.OnColumnClick | faxsrv/clientconsole/folderlistview.cpp:886-939 | the icon column is ignored; any other one becomes the sort column, ascending, or changes direction if it was that, and unless a sort is going on the rows are arranged by it, from its least value on or from its greatest |
| DeleteRuns.FreedExactlyOnce | faxsrv/clientconsole/folderlistview.cpp:3123-3212 | every message that was in its map, or is told of by a server or a build thread in one of the turns, is in its map at the end or has been freed exactly once |
| DeleteRuns.DeletesUntilStopped | faxsrv/clientconsole/folderlistview.cpp:3148-3186 | as many messages are deleted as there are turns before the first reason to stop: all done, Cancel pressed in a turn, no selected row left, or the server's refusal, which alone is an error |
| DeleteRuns.ReportShows | faxsrv/clientconsole/queuefolder.cpp:184-305 | an unknown message that is reported is stored as reported and gets one row, unselected, between the others as they are |
| DeleteRuns.RefreshSorts | faxsrv/clientconsole/folderlistview.cpp:688-750 | the end of a refresh arranges the rows by the sort column, if there is one |
| DeleteRuns.DeletesSelected | faxsrv/clientconsole/folderlistview.cpp:3123-3212 | while only removals are reported, messages go with their rows and the others keep their order; only selected or reported ones go; all selected ones go without an error or a cancel |
| DeleteRuns.TameIff | faxsrv/clientconsole/folderlistview.cpp:2893-2904 | a report selects a message that was not selected if and only if it moves a selected row elsewhere and the neighbour that takes its place was not selected |
| DeleteRuns.DeletesOnlySelected | faxsrv/clientconsole/folderlistview.cpp:3148-3186 | without such reports only messages selected at the start are deleted, whatever else comes in |
| DeleteRuns.DeletesAnother | faxsrv/clientconsole/folderlistview.cpp:3148-3186 | with one, a message that was never selected is deleted, and a selected one is left |
| DeleteView.CountIsSelected | faxsrv/clientconsole/folderlistview.cpp:3125-3130 | the control's selected count is the number of selected messages, as the loop bound takes it |
| DeleteView.CFolderListView.OnJobRemoved | faxsrv/clientconsole/folder.cpp:595-681 | row, map entry and message go together, an unknown message changes nothing, and the operations are recalculated outside bulk operations |
| DeleteView.CFolderListView.JobOpProgressDlgInc | faxsrv/clientconsole/folderlistview.cpp:4259-4341 | the reports pumped, of servers and of build threads, take effect in their order |
| DeleteView.CFolderListView.OnFolderItemDelete | faxsrv/clientconsole/folderlistview.cpp:3067-3219 | the command is the loop of DeleteRuns, whatever the cache of operations was before; the server has agreed to each deletion, none follows a turn in which Cancel was pressed, and it ends early for no other reason than Cancel, a refusal or no selected row; it ends outside bulk mode with the cancel flag reset, with the operations recalculated if several rows were selected, and otherwise recalculated or with nothing changed |
| Permutations.Pigeonhole | faxsrv/clientconsole/columnselectdlg.cpp:1014-1023 | among entries in range, every column marked is the same as no duplicates |
| Permutations.PermutationIff | faxsrv/clientconsole/columnselectdlg.cpp:952-1029 | a permutation is in range without duplicates, and conversely |
| ColumnDialog.CColumnSelectDlg.InputValidate | faxsrv/clientconsole/columnselectdlg.cpp:952-1029 | TRUE exactly if no more columns are selected than there are and the order array is a permutation |
| ColumnDialog.CColumnSelectDlg.OnInitDialog | faxsrv/clientconsole/columnselectdlg.cpp:107-173 | the lists hold the displayed and the other columns in the array's order, or the dialog gives up exactly on invalid input |
| ColumnDialog.CColumnSelectDlg.MoveSelectedItems | faxsrv/clientconsole/columnselectdlg.cpp:732-823 | the selected columns go to the end of the other list in their order, the others stay in theirs, and together they remain a permutation |
| ColumnDialog.CColumnSelectDlg.MoveItemVertical | faxsrv/clientconsole/columnselectdlg.cpp:603-730 | with the button enabled its assertions hold, and the only selected item changes places with its neighbour and stays the only selected one |
| ColumnDialog.CColumnSelectDlg.CalcButtonsState | faxsrv/clientconsole/columnselectdlg.cpp:826-892 | each button is enabled exactly when what it does is possible |
| ColumnDialog.CColumnSelectDlg.OnOK | faxsrv/clientconsole/columnselectdlg.cpp:175-279 | the array stays a permutation that begins with the displayed columns, of which there are some; IDCANCEL exactly if those were not changed, and then nothing is |
| ColumnDialog.CColumnSelectDlg.Act | faxsrv/clientconsole/columnselectdlg.cpp:282-515 | Up and Down exchange the only selected column with the one above or below; Add, Remove and the double clicks move the selected ones to the end of the other list in their order; a new selection keeps the columns; nothing happens without the button |
| ColumnDialog.SessionIsDecided | faxsrv/clientconsole/columnselectdlg.cpp:282-515 | the lists after any number of actions are determined by them |
| ColumnDialog.CColumnSelectDlg.DoModal | faxsrv/clientconsole/columnselectdlg.cpp:107-279 | IDABORT exactly on invalid input, changing nothing; otherwise the lists go from the split of the array through the effects of the user's actions, and at the end the array is, for OK with something displayed and different, displayed followed by available columns, and otherwise as it was |
| ColumnLayout.RecountIsDisplayed | faxsrv/clientconsole/folderlistview.cpp:2160-2168 | in a consistent layout the columns marked as shown are as many as are displayed |
| ColumnLayout.PermutationBelow | faxsrv/clientconsole/folderlistview.cpp:2160-2168 | a permutation has exactly k values below k |
| ColumnLayout.PlacedIff | faxsrv/clientconsole/folderlistview.cpp:2175-2193 | the order array that is read has no gap if and only if the saved places are a permutation, and then it is the inverse one |
| ColumnLayout.WidthLoopIff | faxsrv/clientconsole/folderlistview.cpp:1963-1969 | the loop over the displayed columns indexes in range if and only if each of the first places is asked for by some column; every entry out of range is -1 |
| ColumnLayout.TwoColumnsOnePlace | faxsrv/clientconsole/folderlistview.cpp:2175-2193 | two columns that store the same dwOrder leave a gap, which that loop meets if both are shown, and InputValidate otherwise |
| ColumnLayout.RoundTrip | faxsrv/clientconsole/folderlistview.cpp:2224-2300 | a consistent layout that is saved and read again has its order array, dwOrder, bShow, direction, number of displayed columns and the widths of shown columns back |
| ColumnLayout.SortedColRoundTrip | faxsrv/clientconsole/folderlistview.cpp:2213-2217 | the sort column comes back if and only if it is in range, and none comes back as column 0 |
| ColumnLayout.FirstRun | faxsrv/clientconsole/folderlistview.cpp:2094-2221 | without anything stored the layout is consistent: natural order, the default number of columns shown |
| ColumnLayout.FirstRunLooks | faxsrv/clientconsole/folderlistview.cpp:2094-2221 | the columns shown then are as wide as their titles want, and the second one is the sort column, ascending |
| ColumnLayout.CFolderListView.ReadLayout | faxsrv/clientconsole/folderlistview.cpp:2094-2221 | fills the two arrays and the sort fields with what the registry says |
| ColumnLayout.CFolderListView.SaveLayout | faxsrv/clientconsole/folderlistview.cpp:2224-2300 | stores three values per column and two for sorting, changes no other view's, and nothing before the columns are initialised |
| ColumnLayout.CFolderListView.OpenSelectColumnsDlg | faxsrv/clientconsole/folderlistview.cpp:1899-2006 | with any permutation as order array and for every use of the dialog: the array becomes what the user's actions make of it; columns that were displayed keep the width they had; a consistent layout stays consistent, and OK makes any layout so, gives up a hidden sort column, and sets each column's width to the known one, to that of its title or to 0; nothing but widths changes without OK |
| Job.DoneKeepsSane | faxsrv/clientconsole/job.cpp:578-606 | accepted commands keep: RESUME only if paused, PAUSE only if not, RESTART with neither and not paused |
| Job.PauseResume | faxsrv/clientconsole/job.cpp:580-590 | PAUSE then RESUME, and RESUME then PAUSE, restore the whole job |
| Job.SaneInEveryRun | faxsrv/clientconsole/job.cpp:492-611 | that agreement holds throughout every run of commands, accepted or not |
| Job.AtMostOnce | faxsrv/clientconsole/job.cpp:592-602 | between two reports of the server RESTART and DELETE are accepted at most once each |
| Job.Alternate | faxsrv/clientconsole/job.cpp:580-596 | between two accepted PAUSE there is a RESUME or RESTART, and between two RESUME a PAUSE |
| Job.PausedIff | faxsrv/clientconsole/job.cpp:380-449 | the status shown is PAUSED exactly if the bit is set, and NOLINE makes no difference |
| Job.StatusAfter | faxsrv/clientconsole/job.cpp:380-449 | PAUSED after PAUSE, PENDING after RESTART, the former status after PAUSE and RESUME, unchanged by DELETE |
| Job.StatusIff | faxsrv/clientconsole/job.cpp:402-448 | a job that is not paused is shown with each status exactly if its bit alone is set, NOLINE not counted, INPROGRESS also for FAILED |
| Job.DoneObeys | faxsrv/clientconsole/job.cpp:578-606 | an accepted command changes exactly the bits it is for, of status and operations, and nothing else |
| Job.DetectsExactly | faxsrv/clientconsole/job.cpp:169-225 | a status is found new for exactly the jobs it would change, if and only if it has no null strings and no values outside the validity mask |
| Job.DetectsIff | faxsrv/clientconsole/job.cpp:169-225 | for one job and one status: found new exactly if it would change the job, if and only if they differ in something else, or there is neither a stray value nor a null string over a text, or there are both |
| Job.NullNameGoesUnnoticed | faxsrv/clientconsole/job.cpp:207-222 | a report without the device's name is not found new, though UpdateStatus would empty the name |
| Job.NotNewAfterUpdate | faxsrv/clientconsole/job.cpp:227-378 | right after UpdateStatus the status is not new if and only if it has no values outside the mask |
| Job.UpdateTwice | faxsrv/clientconsole/job.cpp:227-378 | UpdateStatus is idempotent and leaves 0 in every field outside the mask |
| Job.CJob.UpdateStatus | faxsrv/clientconsole/job.cpp:227-378 | a validity bit is set exactly if it is in the job's own mask or the report's, each of the seven values is the report's if its bit is set and 0 otherwise, PROPERTIES is possible beside what the report says, and null strings become empty |
| Job.TakenOverOneWay | faxsrv/clientconsole/job.cpp:227-378 | no other state of the job would be that |
| Job.CJob.IsNewStatus | faxsrv/clientconsole/job.cpp:169-225 | for a job as UpdateStatus leaves it and a proper status: TRUE exactly if the update would change the job |
| Job.CJob.OnJobUpdated | faxsrv/clientconsole/queuefolder.cpp:308-382 | for a proper status the job always ends up updated, and the view is told exactly if something changed |
| Job.CJob.DoJobOperation | faxsrv/clientconsole/job.cpp:492-611 | refused commands, lost connections and server errors change nothing and are returned; an accepted command has its whole effect, bit by bit, and no other |

## Left out

- Folder and view in the refresh protocol are values of a state machine, not classes: its steps begin and
  end in the middle of the source's methods. Rows are a set there; their order is in `SortedRows`.
- Folders of the other three types: they have views, locks and threads of their own and behave alike.
- In the protocol a message's content does not change; updates are in `SortedRows` and `DeleteRuns`.
- Disconnecting a server, the end of the service (`servernode.cpp:2000-2017`), fatal RPC errors, shutdown
  and destruction; the lock `m_csBuildupThread` around the connection handle.
- `m_bRefreshFailed`, the activity text and the texts of errors.
- Out-of-memory exceptions and failures of control calls, with the exits they lead to.
- The failure exit of `RebuildContents` for `InvalidateContents`, which never fails.
- The loops that pause, resume and restart: they walk forward by index while rows may move.
- Selecting a start-up message, focus, scrolling, redrawing, menus and the property pages.
- `CFaxMsg` classes other than jobs, and what they do to fetch, print or mail a fax.
- SelectionView.CFolderListView.SetItemState: the notification names an item that exists; those without an item are ignored by the source.
- Job.CJob.DoJobOperation: an error code of 0 for a lost connection is not modelled.
- ColumnDialog.CColumnSelectDlg.InputValidate: requires entries in range, as the source asserts; what an entry of -1 does to memory is not modelled.
