# ClearPipe and its neighbours: a verified model

A Dafny model of the parts of the ClearML server with the most state and the most interleaving, and
proofs about it. The scheduler, the run-start protocol and the definition edits are those of
ClearPipe, the pipeline service; the others are self-contained algorithms of the same server.

| files | what they model |
|---|---|
| `DagModel`, `DagInvariants`, `DagPolls`, `DagConfluence`, `DagProgress`, `DagCycles` | the pipeline scheduler as a function of what it observes: polls, retries, timeouts, launches and stops, over every interleaving, on acyclic and on cyclic graphs |
| `DagRunner`, `DagVerdict` | the scheduler's loop itself, a class that updates its dictionaries in place, proved against that function; and what its result says |
| `DagRestart` | controller crashes at any point, cancellation, and restarts that restore from the recorded pipeline |
| `StartProtocol`, `StartSafety`, `StartOrigin`, `StartConvergence`, `StartRecovery` | the idempotent start of a run: any number of concurrent, retried or crashed calls over the shared stores |
| `DefinitionEdits` | update, archive, delete and activation of a definition under optimistic concurrency |
| `EventPaging`, `EventTopK` | cursor paging of events, and the latest events of each plot |
| `UrlDeletion` | the job that deletes files and charges retries |
| `PyStrings`, `KeyEscaper` | Python's string methods and the parameter key escaper |
| `DistributedLock` | the lock with a time to live |
| `NestedDicts` | in-place merge, get, set and delete on nested dictionaries, on the heap and as values |
| `PdfWriter` | the PDF writer of the report node, against the rules of ISO 32000-1 |
| `Common` | result types and two facts about finite sets |

The unseen callees are taken by the contract that the code states: `Settings.add_value` is an atomic
insert-if-absent, cloning with a fixed id is an atomic insert that fails if the id exists, a
conditional update or delete of one document is atomic, enqueueing a task either leaves its status
different from created or changes nothing, and a search is sorted with an arbitrary order of equal
keys. What the server, its children, the clock and the storage answer is a parameter everywhere.

## What the proofs found

Where a property that one would expect is not one of the code, the code is kept, a lemma gives the
input that shows it, and another gives the exact condition.

- A node on a cycle can be launched: if it continues on failure and its parent on the cycle was
  stopped by a failed node outside it (`DagCycles.LaunchOnCycle`); the cycles of which that is never
  so are characterised (`DagCycles.CycleIsNeverLaunchedExactly`). A cyclic graph still never returns.
- A node restored with a failed child is not retried, whatever its retries
  (`DagInvariants.RestoredTerminalIsNeverLaunched`), and a restored child is not counted as an attempt.
- A recorded child that still runs can be replaced by a second one, even without retries after one
  restart (`DagRestart.LiveChildIsDuplicated`). It takes a poll that meets the fifth error in a row,
  not overdue and with attempts no more than retries: without one no live or successful child is
  replaced (`DagRestart.RelaunchOnlyReplacesSpentChild`, `DagRestart.OnlyGivingUpFreesTheNode`), and
  after one the next visit does it (`DagRestart.GivenUpChildIsReplaced`). The counter of errors belongs
  to the node: after a relaunch the first error gives the new child up
  (`DagProgress.FirstErrorAfterGivingUp`).
- The phase of a start reservation is not monotone (`StartConvergence.ReservationMayFallBack`); the
  run's own record is.
- A start call can fail although its run goes on: when it lost the race to enqueue it and the run has
  left the queue again before its second attempt (`StartRecovery.FinishesExactly` says when a call that
  stands anywhere still ends with the run).
- A version 2 update or archive undoes an activation that landed since it read
  (`DefinitionEdits.ActivationSurvives`, `DefinitionEdits.ActivationLost`).
- A page that ends on the integer key 0 restarts the listing, which then never ends; every descending
  listing by iteration that reaches iteration 0 does (`EventPaging.DescendingToZeroNeverEnds`).
- Events are lost where a page ends on a key with more events than one answer holds, 10000
  (`EventPaging.UnfitPageMayLose`), and paging is complete exactly where no key has more
  (`EventPaging.CompleteExactlyWhenTiesFit`; for one page, `EventPaging.CoversExactly`).
- The compiled configuration of a version 2 definition can fall behind its revision
  (`DefinitionEdits.ArchivedMayLag`), exactly after an archive whose graph did not compile
  (`DefinitionEdits.LagsExactly`).
- One call of the deletion job can use up all the retries of a record
  (`UrlDeletion.OneCallUsesUpAllRetries`; exactly when, `UrlDeletion.FailedExactly`).
- A key that starts with a percent sign and an underscore does not survive escaping
  (`KeyEscaper.RoundTrip`), and odd runs of three or more underscores keep a double underscore.
- Plots whose concatenated names collide share one quota (`EventTopK.SecondPlotIsLost`). All plots keep
  their own exactly when no names collide (`EventTopK.PlotsKeepTheirOwn`); at one max_iters a plot does
  exactly when it has a quota of its own (`EventTopK.KeepsItsOwnExactly`).
- Merging is not associative (`NestedDicts.MergeDoesNotAssociate`; exactly when it is,
  `NestedDicts.MergeAssociates`).

## Model

| member | source | states |
|---|---|---|
| `DagRunner.ClearMLBackend.constructor` | `clearml-server/apiserver/bll/clearpipe/controller_runner.py:333-340` | the backend starts from the recorded pipeline and has made no call |
| `DagRunner.ClearMLBackend.Launch` | `clearml-server/apiserver/bll/clearpipe/controller_runner.py:349-391` | one new child, under the handle the server hands out, for this node and these inputs |
| `DagRunner.ClearMLBackend.Cancel` | `clearml-server/apiserver/bll/clearpipe/controller_runner.py:418-419` | exactly the given child is told to stop |
| `DagRunner.ClearMLBackend.UpdatePipeline` | `clearml-server/apiserver/bll/clearpipe/controller_runner.py:425-429` | the node's step holds this child and status, and the recorded pipeline is what all the calls so far make of it |
| `DagRunner.ClearMLBackend.Restore` | `clearml-server/apiserver/bll/clearpipe/controller_runner.py:393-405` | a node without a recorded child restores nothing; a recorded child that cannot be read restores as failed |
| `DagRunner.DagRunner.constructor` | `clearml-server/apiserver/bll/clearpipe/controller_runner.py:227-238` | for any nodes and edges the runner's graph has the listed nodes and the sources of the edges as parents; it can be run exactly when every edge to a listed node comes from a listed node |
| `DagRunner.ParentsAreSources` | `clearml-server/apiserver/bll/clearpipe/controller_runner.py:234-238` | the parents of a node are exactly the sources of its incoming edges, whatever their order and repetition |
| `DagRunner.StartsFromTheRecord` | `clearml-server/apiserver/bll/clearpipe/controller_runner.py:241-255` | a run starts with every recorded child, at the server's status or failed if it cannot be read, no attempts made, its time running from now; any other node is pending |
| `DagRunner.DagRunner.Begin` | `clearml-server/apiserver/bll/clearpipe/controller_runner.py:241-255` | before the loop the dictionaries are the initial state of a run that restores what the pipeline records |
| `DagRunner.DagRunner.Observe` | `clearml-server/apiserver/bll/clearpipe/controller_runner.py:267-278` | a poll's verdict: error counter up or reset, up to four errors ignored, a passed timeout cancels and fails |
| `DagRunner.DagRunner.Settle` | `clearml-server/apiserver/bll/clearpipe/controller_runner.py:279-288` | a terminal status is recorded once; a failed attempt with retries left puts the node back to pending without its child |
| `DagRunner.DagRunner.PollStep` | `clearml-server/apiserver/bll/clearpipe/controller_runner.py:264-288` | one iteration of the polling loop is one poll label of the run function, and reports progress exactly when a mark changed |
| `DagRunner.DagRunner.Consider` | `clearml-server/apiserver/bll/clearpipe/controller_runner.py:293-308` | the launch loop's choice between waiting, stopping and launching is the decision of the run function |
| `DagRunner.DagRunner.Gather` | `clearml-server/apiserver/bll/clearpipe/controller_runner.py:309-313` | a launch gets the outputs of exactly the parents in SUCCESS that have a child |
| `DagRunner.DagRunner.VisitStep` | `clearml-server/apiserver/bll/clearpipe/controller_runner.py:290-321` | one iteration of the launch loop is one visit label of the run function |
| `DagRunner.DagRunner.PollPass` | `clearml-server/apiserver/bll/clearpipe/controller_runner.py:263-288` | the polling loop polls each child it had at its start once, in any order, and nothing else |
| `DagRunner.DagRunner.LaunchPass` | `clearml-server/apiserver/bll/clearpipe/controller_runner.py:290-321` | the launch loop visits every node once, in order, against the marks as they change |
| `DagRunner.DagRunner.CancelAll` | `clearml-server/apiserver/bll/clearpipe/controller_runner.py:257-261` | a cancel goes to each child that is not terminal, once, and to no other |
| `DagRunner.DagRunner.Pass` | `clearml-server/apiserver/bll/clearpipe/controller_runner.py:263-321` | one pass is a sequence of labels; on an acyclic graph a pass without progress leaves a live child or everything finished |
| `DagRunner.DagRunner.Run` | `clearml-server/apiserver/bll/clearpipe/controller_runner.py:240-329` | it returns if and only if every node is in SUCCESS, with a child id for every node; it raises with exactly the nodes that failed; a cancelled controller told exactly the live children; with children that answer at once it ends within its move budget |
| `DagRunner.FinalReports` | `clearml-server/apiserver/bll/clearpipe/controller_runner.py:323-327` | what the exit test returns or raises is right for the run state: all nodes covered, or exactly the failed ones |
| `DagRunner.PassDone` | `clearml-server/apiserver/bll/clearpipe/controller_runner.py:263-329` | on an acyclic graph a pass that makes no move leaves some child live, or has finished every node |
| `DagInvariants.SoundExec` | `clearml-server/apiserver/bll/clearpipe/controller_runner.py:263-321` | child, mark and attempt count of every node agree throughout any run |
| `DagInvariants.TerminalIsFinal` | `clearml-server/apiserver/bll/clearpipe/controller_runner.py:264-297` | a terminal mark that survives the retry check never changes again, whatever happens later |
| `DagInvariants.LaunchesAreBounded` | `clearml-server/apiserver/bll/clearpipe/controller_runner.py:284-321` | every run, restored ones included, launches each node at most max(0, retries) + 1 times, and attempts counts the launches |
| `DagInvariants.RestoredTerminalIsNeverLaunched` | `clearml-server/apiserver/bll/clearpipe/controller_runner.py:246-255` | a node restored with a terminal child is never launched, even when it failed and has retries |
| `DagInvariants.LaunchOrderHolds` | `clearml-server/apiserver/bll/clearpipe/controller_runner.py:290-321` | at every point of a run without restored children each node launched so far has all parents in SUCCESS (all TERMINAL with continueOnFail) |
| `DagInvariants.LaunchInputs` | `clearml-server/apiserver/bll/clearpipe/controller_runner.py:302-316` | every launch is handed the outputs of exactly the parents in SUCCESS |
| `DagInvariants.ErrorCounterCountsTheNode` | `clearml-server/apiserver/bll/clearpipe/controller_runner.py:267-273` | the error counter is the number of failed polls of the node since its last answered poll; a relaunch does not reset it |
| `DagInvariants.NoChildIsDroppedSilently` | `clearml-server/apiserver/bll/clearpipe/controller_runner.py:264-288` | each child a run owned is still followed, or was seen terminal, timed out and cancelled, met the error limit, or was restored finished |
| `DagPolls.ReportIsKept` | `clearml-server/apiserver/bll/clearpipe/controller_runner.py:267-288` | a child in time that reports: a success is kept as reported, with the child; a failure is kept as reported or the node waits for another attempt, by its retries; anything else only resets the error counter |
| `DagPolls.LateReportFails` | `clearml-server/apiserver/bll/clearpipe/controller_runner.py:275-288` | a child that answers after its time is told to stop and has failed, whatever it reports |
| `DagPolls.ErrorsAreCounted` | `clearml-server/apiserver/bll/clearpipe/controller_runner.py:270-288` | a poll that raises is counted; below five in a row that is all, at five the child has failed |
| `DagPolls.VisitFollowsParents` | `clearml-server/apiserver/bll/clearpipe/controller_runner.py:290-321` | a pending node is stopped, launched or left alone by the statuses of its parents; a launch takes one attempt, records the child, and hands over the children of the successful parents |
| `DagPolls.NothingToPoll` | `clearml-server/apiserver/bll/clearpipe/controller_runner.py:264-266` | a node without a child or finished is not polled |
| `DagPolls.NothingToVisit` | `clearml-server/apiserver/bll/clearpipe/controller_runner.py:290-292` | a node that is not pending is passed over |
| `DagPolls.OthersUntouched` | `clearml-server/apiserver/bll/clearpipe/controller_runner.py:264-321` | neither loop's iteration touches another node |
| `DagPolls.ChildStartedThen` | `clearml-server/apiserver/bll/clearpipe/controller_runner.py:241-321` | over any run, a child's time runs from the label that launched it, or from the restart that found it |
| `DagPolls.StoppedOnlyLate` | `clearml-server/apiserver/bll/clearpipe/controller_runner.py:275-278` | over any run, a child is told to stop only by a poll more than its timeout after that |
| `DagConfluence.FinishedRunIsSolution` | `clearml-server/apiserver/bll/clearpipe/controller_runner.py:263-329` | on any graph a finished run leaves a solution of: ok(n) iff n is not blocked and one of its allowed attempts succeeds, the attempts' outcomes being what the children reported, in time |
| `DagConfluence.SolutionIsUnique` | `clearml-server/apiserver/bll/clearpipe/controller_runner.py:293-308` | on an acyclic graph that equation has at most one solution |
| `DagConfluence.SolutionExists` | `clearml-server/apiserver/bll/clearpipe/controller_runner.py:293-308` | on an acyclic graph it has one |
| `DagConfluence.Confluence` | `clearml-server/apiserver/bll/clearpipe/controller_runner.py:263-329` | two finished runs with the same attempt outcomes have the same success set, the one solution, however they interleave |
| `DagCycles.CyclicOrAcyclic` | `clearml-server/apiserver/bll/clearpipe/controller_runner.py:227-238` | a graph has a ranking of its nodes exactly when it has no cycle |
| `DagCycles.CyclicGraphNeverReturns` | `clearml-server/apiserver/bll/clearpipe/controller_runner.py:293-327` | a graph with a cycle never ends with every node in SUCCESS |
| `DagCycles.OnlyAcyclicGraphsReturn` | `clearml-server/apiserver/bll/clearpipe/controller_runner.py:293-327` | a run whose nodes all end in SUCCESS is a run of an acyclic graph |
| `DagCycles.CycleIsNeverLaunchedExactly` | `clearml-server/apiserver/bll/clearpipe/controller_runner.py:293-308` | no run launches any node of a cycle exactly when every node on it that continues on failure has a parent in a set of nodes that no failure outside can stop |
| `DagCycles.CycleIsNeverLaunched` | `clearml-server/apiserver/bll/clearpipe/controller_runner.py:293-308` | in particular nodes on a cycle without continueOnFail are never launched |
| `DagCycles.LaunchOnCycle` | `clearml-server/apiserver/bll/clearpipe/controller_runner.py:294-308` | a node on a cycle can be launched if it continues on failure: a run that does it |
| `DagVerdict.VerdictIsTheSolution` | `clearml-server/apiserver/bll/clearpipe/controller_runner.py:323-327` | with fixed outcomes on an acyclic graph a finished run returns exactly when the one solution is the whole node set, and otherwise names exactly the nodes outside it |
| `DagVerdict.ReturnedOnlyIfAcyclic` | `clearml-server/apiserver/bll/clearpipe/controller_runner.py:323-327` | a run that starts fresh and returns is a run of an acyclic graph |
| `DagProgress.NoDeadlock` | `clearml-server/apiserver/bll/clearpipe/controller_runner.py:290-321` | on an acyclic graph, with no live child and a node unfinished, the launch loop finds a node to launch or to stop |
| `DagProgress.MeasureStep` | `clearml-server/apiserver/bll/clearpipe/controller_runner.py:263-321` | a step lowers the measure exactly when it changes a mark, and never raises it |
| `DagProgress.RunMovesAreBounded` | `clearml-server/apiserver/bll/clearpipe/controller_runner.py:263-321` | any run changes marks at most sum(2 * max(0, retries) + 4) times, however long it polls |
| `DagProgress.FirstErrorAfterGivingUp` | `clearml-server/apiserver/bll/clearpipe/controller_runner.py:245-274` | after a child is given up for its errors and replaced, the first failed poll gives the new child up too |
| `DagRestart.InvHolds` | `clearml-server/apiserver/bll/clearpipe/controller_runner.py:246-261` | what memory and server agree on, after any number of crashes, cancellations and restarts at any point between two backend calls |
| `DagRestart.RelaunchOnlyReplacesSpentChild` | `clearml-server/apiserver/bll/clearpipe/controller_runner.py:267-288` | a launch replaces a recorded child only if it ended without success, or an earlier poll of the node met the fifth error in a row, not overdue and with retries left, and let that child go |
| `DagRestart.OnlyGivingUpFreesTheNode` | `clearml-server/apiserver/bll/clearpipe/controller_runner.py:267-288` | a poll leaves its node pending while its child has not ended exactly in that branch |
| `DagRestart.GivenUpChildIsReplaced` | `clearml-server/apiserver/bll/clearpipe/controller_runner.py:286-320` | from any reachable world, a poll that takes that branch and the next visit replace the record of a child that has not ended, and its task stays as it was |
| `DagRestart.LiveChildIsDuplicated` | `clearml-server/apiserver/bll/clearpipe/controller_runner.py:286-320` | a run in which it happens to a child in progress: no retries configured, one restart, five failed polls |
| `DagRestart.ReportedSuccessIsNeverRelaunched` | `clearml-server/apiserver/bll/clearpipe/controller_runner.py:393-405` | once a node's child was reported in SUCCESS the node is never launched again, in any life of the controller |
| `DagRestart.StepOrphans` | `clearml-server/apiserver/bll/clearpipe/controller_runner.py:316-320` | the only window in which a child is launched and not recorded lies between the launch and its record |
| `DagRestart.OrphansAreBounded` | `clearml-server/apiserver/bll/clearpipe/controller_runner.py:316-320` | children launched and never recorded number at most the crashes |
| `StartSafety.NextKeeps` | `clearml-server/apiserver/services/clearpipe.py:1900-2144` | every step of every call keeps the invariant of the stores and of all calls, errors and stops included |
| `StartSafety.InvHolds` | `clearml-server/apiserver/services/clearpipe.py:1900-2144` | that invariant holds in every reachable state |
| `StartSafety.OneReservationOneRun` | `clearml-server/apiserver/services/clearpipe.py:697-737` | a reservation's definition, revision, fingerprint, queue and run id never change, and every run task ever created has that id and binding |
| `StartSafety.SuccessNamesTheReservedRun` | `clearml-server/apiserver/services/clearpipe.py:1953-1968` | every successful response names the reserved run, which is committed and enqueued by then |
| `StartSafety.CommitIsSound` | `clearml-server/apiserver/services/clearpipe.py:1969-1972` | a committed reservation has an existing committed run and says enqueued, and the inconsistent branch is never taken |
| `StartSafety.CommittedRunIsFinal` | `clearml-server/apiserver/services/clearpipe.py:811-826` | a committed run is never removed by a cleanup and its record never changes again |
| `StartSafety.CleanupKeeps` | `clearml-server/apiserver/services/clearpipe.py:1611-1614` | a cleanup removes the run only while it is in status created, which no committed run is |
| `StartSafety.OtherRequestChangesNothing` | `clearml-server/apiserver/services/clearpipe.py:684-694` | a call with another fingerprint, definition or revision changes nothing and is never answered with a run |
| `StartOrigin.EverythingIsAsAsked` | `clearml-server/apiserver/services/clearpipe.py:1921-2045` | at any time the reservation and every run hold the definition, revision, input and queue that the call asked for that made the reservation, with no queue asked for the default answered to that call, and an enqueued run is in that queue |
| `StartOrigin.ReservationIsTheCalls` | `clearml-server/apiserver/services/clearpipe.py:1921-1943` | a reservation is made by one move of one call, after that call's own question for the queue |
| `StartOrigin.AnsweredAsAsked` | `clearml-server/apiserver/services/clearpipe.py:1953-1968` | a call answered with a run is answered with one for what it asked for itself, in the queue of the reservation |
| `StartOrigin.FailedCreatorCleanedUp` | `clearml-server/apiserver/services/clearpipe.py:2135-2144` | a call that created the run and failed has tried to clean up, and if that met no error no run in status created was left right after it |
| `StartOrigin.CloneMakesCreator` | `clearml-server/apiserver/services/clearpipe.py:2032-2079` | a run comes from the clone of a call, with the reserved id, and without an error that call is its creator |
| `StartOrigin.CleanedUp` | `clearml-server/apiserver/services/clearpipe.py:1611-1614` | a cleanup removes exactly the runs in status created |
| `StartOrigin.OnlyTheCreatorCleansUp` | `clearml-server/apiserver/services/clearpipe.py:2074-2144` | only the call whose clone created the run ever cleans up |
| `StartRecovery.FinishesExactly` | `clearml-server/apiserver/services/clearpipe.py:1900-2145` | in every reachable state any call, wherever it stands, left alone and meeting no error, ends with the committed run exactly when its run is still there and it is not one that the code gives up on |
| `StartConvergence.RetryConverges` | `clearml-server/apiserver/services/clearpipe.py:1900-2145` | from every reachable state one uninterrupted retry without errors answers with the reserved id in at most nine accesses and leaves run and reservation committed |
| `StartConvergence.ReservationMayFallBack` | `clearml-server/apiserver/services/clearpipe.py:2073-2079` | a run in which a committed reservation goes back to pending |
| `StartConvergence.FallBackIsTheMark` | `clearml-server/apiserver/services/clearpipe.py:2077-2079` | a committed reservation stops being committed exactly when the write after the clone is made |
| `DefinitionEdits.StepKeepsInv` | `clearml-server/apiserver/services/clearpipe.py:1740-1795` | every read, write and activation keeps the invariant of the definition, the log and the calls under way |
| `DefinitionEdits.OneWriterPerRevision` | `clearml-server/apiserver/services/clearpipe.py:1790-1795` | at most one update, archive or deletion succeeds from each revision, in revision order, and none after a deletion |
| `DefinitionEdits.RevisionAlwaysReads` | `clearml-server/apiserver/services/clearpipe.py:201-212` | on every reachable definition the revision check succeeds and gives 1 plus the number of writes; graph and runtime agree |
| `DefinitionEdits.SuccessMovesUpByOne` | `clearml-server/apiserver/services/clearpipe.py:1757-1802` | a successful update or archive finds revision r and leaves, and reports, r + 1 |
| `DefinitionEdits.CreatedAsAsked` | `clearml-server/apiserver/services/clearpipe.py:1633-1735` | a new definition holds the graph it was created with, at revision 1 |
| `DefinitionEdits.EditIsStored` | `clearml-server/apiserver/services/clearpipe.py:1747-1802` | a successful update stores the graph it came with, any other write keeps the stored one; at the new revision, in both places, with its digest; archived becomes true exactly by an archive, and the status stays |
| `DefinitionEdits.OnlyWritesChange` | `clearml-server/apiserver/services/clearpipe.py:1790-1802` | nothing but a successful write, a successful delete or an activation changes the definition, and an activation sets its flag only |
| `DefinitionEdits.WhoGoesOn` | `clearml-server/apiserver/services/clearpipe.py:2468-2535` | a call is told of a conflict, an archived definition, a graph that does not compile or a forbidden deletion exactly when it is so, against the number of writes so far; otherwise it goes on with what it read |
| `DefinitionEdits.NothingElseLanded` | `clearml-server/apiserver/services/clearpipe.py:1790-1791` | what a successful write replaces is what its call had read, but for activations in between |
| `DefinitionEdits.LosersMeetAConflict` | `clearml-server/apiserver/services/clearpipe.py:1790-1795` | of the calls that read one revision all but the first to write meet a conflict, whatever happens in between |
| `DefinitionEdits.ActivationSurvives` | `clearml-server/apiserver/services/clearpipe.py:1777-1785` | a successful write keeps the activation flag exactly when the graph is version 1 or the last activation since its read left the flag as it was read |
| `DefinitionEdits.ActivationLost` | `clearml-server/apiserver/services/clearpipe.py:2169-2174` | a run in which an activation is undone by a version 2 update that had read before it |
| `DefinitionEdits.ArchivedForGood` | `clearml-server/apiserver/services/clearpipe.py:2474-2476` | an archived definition stays archived and archiving it again changes nothing |
| `DefinitionEdits.WriteInStep` | `clearml-server/apiserver/services/clearpipe.py:1757-1802` | a successful write leaves the compiled configuration at the new revision exactly when it writes a version 2 graph that compiled; a version 2 write that does not is an archive's and leaves it one behind |
| `DefinitionEdits.LagsExactly` | `clearml-server/apiserver/services/clearpipe.py:2480-2497` | in every reachable state the compiled configuration of a version 2 definition is one revision behind exactly when the last write was an archive whose graph did not compile, and in step otherwise |
| `DefinitionEdits.ArchivedMayLag` | `clearml-server/apiserver/services/clearpipe.py:2480-2487` | archiving a version 2 graph that no longer compiles leaves its compiled configuration one revision behind |
| `EventPaging.PageCovers` | `clearml-server/apiserver/bll/event/events_iterator.py:105-157` | a page is every event past the cursor up to its last key, once each and in order, when that key's events fit in one answer or are in the page already |
| `EventPaging.CoversExactly` | `clearml-server/apiserver/bll/event/events_iterator.py:124-151` | whatever the second search answers the page is complete up to its last key, exactly when that key's events fit; with a batch of at most 10000, exactly when they number at most 10000 |
| `EventPaging.ListingIsComplete` | `clearml-server/apiserver/services/events.py:360-413` | following the cursor to an empty page yields every event exactly once in key order, for any batch sizes and either direction, if no request restarts and the keys that pages end on fit |
| `EventPaging.ListingEnds` | `clearml-server/apiserver/services/events.py:360-413` | such a listing has at most one page per event and the empty one |
| `EventPaging.UnfitPageMayLose` | `clearml-server/apiserver/bll/event/events_iterator.py:124-151` | a listing that reaches a page whose last key does not fit may, with the same requests answered another way, lose an event for good, however it goes on |
| `EventPaging.PagingIsCompleteExactly` | `clearml-server/apiserver/services/events.py:360-413` | all listings are complete up to where they got, exactly when no page of any listing ends on a key that does not fit |
| `EventPaging.CompleteExactlyWhenTiesFit` | `clearml-server/apiserver/bll/event/events_iterator.py:124-151` | over all batch sizes and answers that is exactly when no key has more events than one answer can hold |
| `EventPaging.RestartsAtZero` | `clearml-server/apiserver/bll/event/events_iterator.py:112-113` | with integer cursors a listing restarts exactly when a page before the last ends on key 0 |
| `EventPaging.SamePageBoundary` | `clearml-server/apiserver/bll/event/events_iterator.py:105-140` | equal cursors and sizes give pages with the same last key, whatever order the search gives equal keys |
| `EventPaging.NeverEndsAfterZero` | `clearml-server/apiserver/bll/event/events_iterator.py:112-113` | once a page ends on key 0, with one batch size, the listing repeats itself and never reaches an empty page |
| `EventPaging.DescendingToZeroNeverEnds` | `clearml-server/apiserver/services/events.py:360-413` | a descending listing of non-negative iterations that holds an event at iteration 0 never ends |
| `EventPaging.TooManyTiesLoseEvents` | `clearml-server/apiserver/bll/event/events_iterator.py:124-151` | a page that ends inside a key with more than size + 10000 events loses some of them for good |
| `EventPaging.OrderIs` | `clearml-server/apiserver/bll/event/events_iterator.py:105-140` | towards earlier events is from the highest key down, towards later ones from the lowest up |
| `EventPaging.Fetch` | `clearml-server/apiserver/services/events.py:1193-1208` | as many requests as the batch takes, each from the text of the last key before it, or fewer if one brings nothing |
| `EventPaging.ScalarMetricsIterRaw` | `clearml-server/apiserver/services/events.py:1186-1208` | one call starts right after its cursor, splits no key, and returns fewer events than the batch only when nothing is left; it makes one request for each 10000 events of the batch, or fewer if one brings nothing |
| `EventTopK.SortedIsSorted` | `clearml-server/apiserver/services/events.py:1099-1099` | the sort gives a permutation in which no event comes after a smaller one |
| `EventTopK.SortedIsStable` | `clearml-server/apiserver/services/events.py:1099-1099` | events with the same four fields keep their order in it |
| `EventTopK.TiesKeepTheirOrder` | `clearml-server/apiserver/services/events.py:1096-1102` | in a group, events of one iteration come in the order in which they were listed |
| `EventTopK.KeptPerGroup` | `clearml-server/apiserver/services/events.py:1096-1102` | of each run of the grouping the first max_iters are kept, or all of them |
| `EventTopK.KeptAreTheLatest` | `clearml-server/apiserver/services/events.py:1096-1102` | for each metric, variant and task the kept events are max_iters of those with the highest iterations, or all if there are fewer |
| `EventTopK.CollectHoldsEach` | `clearml-server/apiserver/services/events.py:1104-1111` | no group of the nested dictionaries is overwritten: under a path are all the events with its fields, in order |
| `EventTopK.NestedHoldsTheLatest` | `clearml-server/apiserver/services/events.py:1113-1117` | each kept event is found exactly once, under its own metric, variant, task and iteration, in the order listed |
| `EventTopK.FileByName` | `clearml-server/apiserver/services/events.py:1121-1126` | the loop files under each concatenated name its first max_iters events, the names in the order in which they come up |
| `EventTopK.TopUnique` | `clearml-server/apiserver/services/events.py:1120-1131` | under each concatenated name the first max_iters events, all together in descending order of iteration, those of one iteration by name and as they were listed; a plot keeps its own first max_iters exactly when those under its name are all its own or the rest has none of it |
| `EventTopK.KeepsItsOwnExactly` | `clearml-server/apiserver/services/events.py:1123-1126` | that condition, at one max_iters, for any result that holds the first max_iters of each name |
| `EventTopK.PlotsKeepTheirOwn` | `clearml-server/apiserver/services/events.py:1123-1126` | every plot keeps its own first events whatever max_iters is, exactly when no two plots share a concatenated name |
| `EventTopK.CollidingNames` | `clearml-server/apiserver/services/events.py:1123-1126` | where two plots share a name, one of them has events and keeps none with max_iters 1 |
| `EventTopK.SecondPlotIsLost` | `clearml-server/apiserver/services/events.py:1123-1126` | two plots and their events, one of which is in no result |
| `EventTopK.KeptUnderNameAreTheLatest` | `clearml-server/apiserver/services/events.py:681-691` | the callers pass the events latest first, and then those kept under a name are its latest |
| `UrlDeletion.UrlStore.MarkRetryFailed` | `clearml-server/apiserver/jobs/async_urls_delete.py:36-44` | a retry is charged to the given records, and those with none left are failed |
| `UrlDeletion.UrlStore.MarkFailed` | `clearml-server/apiserver/jobs/async_urls_delete.py:47-52` | the given records are failed and nothing else changes |
| `UrlDeletion.UrlStore.GetPaths` | `clearml-server/apiserver/jobs/async_urls_delete.py:119-133` | records without a path are failed one by one; the others are mapped from their paths |
| `UrlDeletion.UrlStore.ChargeErrors` | `clearml-server/apiserver/jobs/async_urls_delete.py:147-158` | each reason charges the records of its paths |
| `UrlDeletion.UrlStore.DeleteChunk` | `clearml-server/apiserver/jobs/async_urls_delete.py:118-173` | one chunk makes exactly the updates listed for it; an exception charges the whole group |
| `UrlDeletion.UrlStore.DeleteGroup` | `clearml-server/apiserver/jobs/async_urls_delete.py:97-173` | a group without a base is failed, one without a client charged, any other worked through chunk by chunk |
| `UrlDeletion.SelectionWaits` | `clearml-server/apiserver/jobs/async_urls_delete.py:92-92` | the query selects only records that wait, and all of them below its limit |
| `UrlDeletion.GroupUrls` | `clearml-server/apiserver/jobs/async_urls_delete.py:253-256` | each base once, with its records in their order |
| `UrlDeletion.UrlStore.DeleteBases` | `clearml-server/apiserver/jobs/async_urls_delete.py:97-173` | the groups are worked through one after the other, each record becoming what the updates make of it |
| `UrlDeletion.UrlStore.DeleteUrls` | `clearml-server/apiserver/jobs/async_urls_delete.py:91-173` | the selected records fall into groups by base, each in exactly one, and the call has the outcome of `UrlDeletion.CallHasOutcome` |
| `UrlDeletion.CallHasOutcome` | `clearml-server/apiserver/jobs/async_urls_delete.py:91-173` | what a call makes of every record: without a base failed and not charged; with a base without a client charged once; with a client charged per raising chunk, and then failed without a path, removed if reported deleted, or charged for its own answers; failed exactly when the retries are used up; any other record as it was |
| `UrlDeletion.ChunksAre` | `clearml-server/apiserver/jobs/async_urls_delete.py:118-118` | the chunks in order are the group, and all but the last are full |
| `UrlDeletion.PathsAre` | `clearml-server/apiserver/jobs/async_urls_delete.py:119-133` | the paths asked for are those of the chunk's records that have one, in order |
| `UrlDeletion.RestsAfterFailure` | `clearml-server/apiserver/jobs/async_urls_delete.py:573-580` | a record that a call has charged waits again exactly when it is not failed and the pause is over |
| `UrlDeletion.LeftAloneInPause` | `clearml-server/apiserver/jobs/async_urls_delete.py:573-580` | and no call up to then selects or changes it |
| `UrlDeletion.SelectionSelects` | `clearml-server/apiserver/jobs/async_urls_delete.py:570-600` | the groups of a call hold only records that wait, and some record exactly when one waits |
| `UrlDeletion.EffectIsCounted` | `clearml-server/apiserver/jobs/async_urls_delete.py:36-52` | what a call makes of a record in closed form, whatever the order of its updates |
| `UrlDeletion.CallTouches` | `clearml-server/apiserver/jobs/async_urls_delete.py:96-173` | a call touches exactly the selected records and removes exactly those whose own path was reported deleted |
| `UrlDeletion.CallSettles` | `clearml-server/apiserver/jobs/async_urls_delete.py:91-173` | each selected record is removed, failed or charged; every other record is left as it was |
| `UrlDeletion.CallKeepsSound` | `clearml-server/apiserver/jobs/async_urls_delete.py:42-44` | a record that is not failed always has a retry left |
| `UrlDeletion.ChargedPerRaisingChunk` | `clearml-server/apiserver/jobs/async_urls_delete.py:138-145` | a record is charged once for each raising chunk of its group, on top of its own answer |
| `UrlDeletion.OneCallUsesUpAllRetries` | `clearml-server/apiserver/jobs/async_urls_delete.py:140-141` | with as many raising chunks as retries one call fails every record of the group that it does not remove |
| `UrlDeletion.FailedExactly` | `clearml-server/apiserver/jobs/async_urls_delete.py:36-44` | a record with a path that is not removed is failed by a call exactly when its charges, those of raising chunks among them, use up its retries |
| `UrlDeletion.CallMakesProgress` | `clearml-server/apiserver/jobs/async_urls_delete.py:572-600` | a call with a selection strictly lowers the sum of the retries left |
| `UrlDeletion.CallsAreBounded` | `clearml-server/apiserver/jobs/async_urls_delete.py:570-600` | the records at hand are settled within as many calls as they have retries |
| `KeyEscaper.ParameterKeyEscaper.Escape` | `clearml-server/apiserver/utilities/parameter_key_escaper.py:18-33` | for a key given between spaces: blank is an error; otherwise the result is the escaped form of the key without the spaces, and reading it back gives that key exactly when it does not start with a percent sign and an underscore |
| `KeyEscaper.ParameterKeyEscaper.UnescapePart` | `clearml-server/apiserver/utilities/parameter_key_escaper.py:36-39` | the inverse replacements in their order |
| `KeyEscaper.ParameterKeyEscaper.Unescape` | `clearml-server/apiserver/utilities/parameter_key_escaper.py:42-49` | what it makes of any escaped key: the key, or without its percent sign if it starts with a percent sign and an underscore |
| `PyStrings.StripPadded` | `clearml-server/apiserver/utilities/parameter_key_escaper.py:20-20` | stripping takes the spaces off both ends and nothing else |
| `PyStrings.StripPads` | `clearml-server/apiserver/utilities/parameter_key_escaper.py:20-20` | every text is its stripped form between spaces |
| `PyStrings.SpacesAre` | `clearml-server/apiserver/utilities/parameter_key_escaper.py:20-20` | the characters that count as spaces, by their code points |
| `KeyEscaper.CodesAre` | `clearml-server/apiserver/utilities/parameter_key_escaper.py:15-33` | the codes of a dot, a dollar, a percent sign and underscores |
| `KeyEscaper.EscapedIsEncoded` | `clearml-server/apiserver/utilities/parameter_key_escaper.py:26-33` | the chain of replacements is one pass over the key |
| `KeyEscaper.SplitEncoded` | `clearml-server/apiserver/utilities/parameter_key_escaper.py:44-44` | splitting the escaped key at doubled percent signs is splitting the key at percent signs |
| `KeyEscaper.ReadBack` | `clearml-server/apiserver/utilities/parameter_key_escaper.py:26-49` | what reading back any escaped key gives: the key, or with a leading percent sign and underscore the key without the percent sign |
| `KeyEscaper.RoundTrip` | `clearml-server/apiserver/utilities/parameter_key_escaper.py:18-49` | the round trip holds exactly when the stripped key does not start with a percent sign and an underscore |
| `KeyEscaper.RoundTripFails` | `clearml-server/apiserver/utilities/parameter_key_escaper.py:46-47` | a key that does not come back |
| `KeyEscaper.EscapedIsInjective` | `clearml-server/apiserver/utilities/parameter_key_escaper.py:18-33` | different stripped keys have different escaped forms, even where the round trip fails |
| `KeyEscaper.EscapedIsSafe` | `clearml-server/apiserver/utilities/parameter_key_escaper.py:9-15` | an escaped key holds no dot and no dollar and does not start with an underscore |
| `KeyEscaper.EscapedDoubles` | `clearml-server/apiserver/utilities/parameter_key_escaper.py:9-15` | an escaped key holds a double underscore exactly when the key has an odd run of three or more underscores |
| `DistributedLock.MutualExclusion` | `clearml-server/apiserver/sync.py:23-31` | when every stay ends within its time to live, at most one process is inside, and its own key is in place, so leaving deletes no other's |
| `DistributedLock.OverstayLetsAnotherIn` | `clearml-server/apiserver/sync.py:23-31` | from any such state, a stay as long as the time to live lets the next process in beside it |
| `DistributedLock.LateLeaveFreesTheOthersLock` | `clearml-server/apiserver/sync.py:30-31` | a late unconditional delete frees the other holder's lock and lets a third process in |
| `DistributedLock.WhenTheNextComesIn` | `clearml-server/apiserver/sync.py:23-31` | after a process has left in time the next is let in at once, after a crash exactly when the key's time to live is over |
| `DistributedLock.Acquire` | `clearml-server/apiserver/sync.py:20-27` | the process enters with the first attempt that sets the key, gives up only after max_wait (timeout * 2 if 0), and tries boundedly often |
| `NestedDicts.DeepMerge` | `clearml-server/apiserver/utilities/dicts.py:22-35` | in place: on separate trees the source holds the merge afterwards, the override what it held, and only objects of the source change; where everything of the override is in the source already nothing changes, whatever objects they share |
| `NestedDicts.MergeShapeContent` | `clearml-server/apiserver/utilities/dicts.py:29-33` | the objects after merging hold the right-biased recursive override of the contents |
| `NestedDicts.MergedIsSettled` | `clearml-server/apiserver/utilities/dicts.py:29-33` | after a merge everything of the override is in the source, partly as the same objects: so merging it in place again changes nothing |
| `NestedDicts.MergeAgain` | `clearml-server/apiserver/utilities/dicts.py:22-35` | as values, merging the same override a second time gives the same |
| `NestedDicts.MergeReads` | `clearml-server/apiserver/utilities/dicts.py:29-33` | what is read from a merge at any path: the override's value, or the merge where both have dictionaries, or the source's past where the override's dictionaries go |
| `NestedDicts.MergeAssociates` | `clearml-server/apiserver/utilities/dicts.py:29-33` | merging is associative exactly where no plain value stands between two dictionaries that both matter |
| `NestedDicts.MergeDoesNotAssociate` | `clearml-server/apiserver/utilities/dicts.py:29-33` | three dictionaries for which it is not |
| `NestedDicts.NestedGet` | `clearml-server/apiserver/utilities/dicts.py:43-56` | the walk finds the value at the path, the default, or an error for a plain value on the way |
| `NestedDicts.GetOnward` | `clearml-server/apiserver/utilities/dicts.py:43-56` | reading goes on from what it has found: a dictionary has its elements, a plain value none |
| `NestedDicts.NestedSet` | `clearml-server/apiserver/utilities/dicts.py:75-86` | in place: the dictionary becomes what setting the path gives; an error leaves it as it was |
| `NestedDicts.NestedDelete` | `clearml-server/apiserver/utilities/dicts.py:59-72` | in place: the element is deleted and reported, or nothing changes |
| `NestedDicts.SetThenGet` | `clearml-server/apiserver/utilities/dicts.py:75-86` | what was set is read back, and everything under it |
| `NestedDicts.SetLeavesOthers` | `clearml-server/apiserver/utilities/dicts.py:75-86` | a path neither above nor below the one that was set reads as before |
| `NestedDicts.SetFails` | `clearml-server/apiserver/utilities/dicts.py:75-86` | setting fails exactly for an empty path or where a plain value stands on the way |
| `NestedDicts.SetTwice` | `clearml-server/apiserver/utilities/dicts.py:75-86` | setting again replaces what was set |
| `NestedDicts.DeleteThenGet` | `clearml-server/apiserver/utilities/dicts.py:59-72` | an element is deleted exactly when it can be read, and then no longer can |
| `NestedDicts.DeleteLeavesOthers` | `clearml-server/apiserver/utilities/dicts.py:59-72` | a path neither above nor below the deleted one reads as before |
| `PdfWriter.WriteObjects` | `clearml-server/apiserver/bll/clearpipe/controller_runner.py:180-184` | the objects in order, each framed by its number, and the byte offset at which each begins |
| `PdfWriter.Write` | `clearml-server/apiserver/bll/clearpipe/controller_runner.py:180-188` | the file: objects, cross-reference table, trailer and the offset of the table |
| `PdfWriter.TenDigitsDenote` | `clearml-server/apiserver/bll/clearpipe/controller_runner.py:187-187` | ten digits hold and denote any offset below 10 to the 10th |
| `PdfWriter.XrefFindsObject` | `clearml-server/apiserver/bll/clearpipe/controller_runner.py:182-187` | each entry has 20 bytes and gives the byte offset of its object (section 7.5.4 of ISO 32000-1), in files under 10 to the 10th bytes |
| `PdfWriter.XrefHasAnEntryForEach` | `clearml-server/apiserver/bll/clearpipe/controller_runner.py:185-186` | the table begins with the free entry and counts one entry more than there are objects |
| `PdfWriter.StartXrefFound` | `clearml-server/apiserver/bll/clearpipe/controller_runner.py:185-188` | the number before the end of the file is the byte offset of the table (section 7.5.5) |
| `PdfWriter.LengthIsStreamSize` | `clearml-server/apiserver/bll/clearpipe/controller_runner.py:177-177` | the stream's length entry is its size, so a reader gets exactly its bytes |
| `PdfWriter.EscapedIsCoded` | `clearml-server/apiserver/bll/clearpipe/controller_runner.py:171-172` | the four replacements and the encoding act on each character on its own |
| `PdfWriter.StreamShowsLines` | `clearml-server/apiserver/bll/clearpipe/controller_runner.py:170-172` | reading the literal strings of the stream (section 7.3.4.2) gives the lines of the text as shown: replaced outside Latin-1, carriage return as line feed |
| `PdfWriter.StreamRoundTrip` | `clearml-server/apiserver/bll/clearpipe/controller_runner.py:170-172` | the lines read back are those of the text exactly when it is in Latin-1 without carriage returns |
| `PdfWriter.ReportReadsBack` | `clearml-server/apiserver/bll/clearpipe/controller_runner.py:169-188` | a reader that goes from the trailer through the table to the catalog, the pages, the page and its contents finds those lines |
| `PdfWriter.ContentFound` | `clearml-server/apiserver/bll/clearpipe/controller_runner.py:173-188` | the references from the trailer to the page's contents lead, through the table, to the stream |
| `PdfWriter.StreamLayout` | `clearml-server/apiserver/bll/clearpipe/controller_runner.py:171-172` | the stream shows a line at a time, the first at (50, 760), each other 14 below |
| `PdfWriter.WholeReportShows` | `clearml-server/apiserver/bll/clearpipe/controller_runner.py:170-172` | lines read back so from a text that is not cut are the title and the sections exactly when each is one line of Latin-1 without carriage returns |
| `PdfWriter.Report` | `clearml-server/apiserver/bll/clearpipe/controller_runner.py:169-188` | the page of the file written shows the lines of title and sections, joined and cut at 2000 characters, and a report that is not cut shows its title and each section on a line of its own exactly when each is one line of Latin-1 without carriage returns |

## Left out

- DagRunner.DagRunner.Run: covers every finite number of passes, so every prefix of every run; an
  infinite run is not itself an object of the model. A graph in which an edge to a listed node comes
  from an unlisted one, on which the launch loop ends with a KeyError, is not run.
- DagRunner.ClearMLBackend.Launch: one atomic call; the queue, the parameters, whether the child is
  cloned or created, and the server calls inside `launch` are left out.
- DagRestart.InvHolds: `launch` is one atomic call here too, so a crash inside it, with the child
  created and not yet enqueued, is not told apart from one before or after it.
- DistributedLock.Acquire: other processes are seen only through the answers to its attempts; their
  interleaving is the state machine of the same module.
- NestedDicts.DeepMerge: proved on trees that share no object, and on any in which the source holds all
  of the override already, as after an earlier merge; other sharing is left out.
- NestedDicts.NestedSet: proved on trees in which no object occurs twice.
- NestedDicts.NestedDelete: proved on trees in which no object occurs twice.
- NestedDicts.NestedGet: a plain value on the way is an error if it is truthy and the default if it is
  not, as for numbers; strings and lists, which answer `in` themselves, are not told apart. Callable
  defaults and the short form with one key as the path are left out too.
- EventPaging.ListingIsComplete: the events do not change while they are listed.
- UrlDeletion.UrlStore.DeleteUrls: one time stands for all the failures a call records; the order of
  the records by URL and the base of each are given.
- UrlDeletion.CallsAreBounded: records added while the job runs are not counted.
- EventTopK.CollectHoldsEach: keys are the fields themselves, not their text; the task name beside each
  list of plots is left out.
- PdfWriter.Report: characters are single code points; what a report's sections look like before they
  are text is left out.
- Start of version 1 definitions, which has no idempotency key and creates a run per call.
- Signatures, hashes and key rotation: a signature is injective on the record it seals, a digest on the
  graph, under one key; company, user and key are fixed in `StartProtocol`.
- Queue, project and parameter handling of starts and launches; names, tags, description and
  visibility of definitions; name locks of `create`.
- Parsing, validation and code generation of graphs: whether a graph compiles is a choice of each call.
- Execution snapshots page over a fixed list by offset and limit: true but easy.
- Node ids and record ids are numbers, since they are only compared; the order in which a dictionary or
  a set is walked is arbitrary wherever the code does not depend on it.
- The storage clients, HTTP, MongoDB, Redis, Elasticsearch and the ClearML SDK beyond the operations
  used here; OIDC, the request layer, tag partitioning, version comparison and the cron scheduler.
