# Verified models of five RDK service plugins

This project models the parts of five plugins that hold state, loops or interleavings, and proves what they keep.
Each model follows its code branch by branch. Where the code changes fields step by step the model is a class or a
method with loops, proved against a function on values; what the plugin promises is then proved about that function,
over every input, every run or every interleaving.

* **ActivityMonitor** (`ProcessTree`, `Groups`, `ProcInfo`, `ReportLaws`, `MemoryCalls`, `Thresholds`, `MonitorLoop`, `MonitorRuns`,
  `MonitorNotices`, `Pacing`, `MonitorLifecycle`). `getProcInfo` charges every process to its topmost registered ancestor, groups by that
  leader and fills parallel vectors; the model shows which process gets which row and figure for every process table,
  cycles, missing parents and over-deep chains included. `monitoring` runs a memory latch and a CPU state machine per
  application; the CPU machine is proved equal to a reading of the samples alone (`Verdict`), from which the meaning of
  each event follows. The sleep between passes and the life of the monitor thread are models of their own.
* **DataCapture socket_adaptor** (`SocketAdaptor`, `SocketThreads`, `SocketSteps`, `SocketStop`, `SocketRuns`). The critical sections
  in place; the worker, registering, writing, terminating and stopping threads as interleaved steps; the steps tied to
  the methods; and the runs that show where the promises end.
* **AVOutput** (`Capabilities`, `PictureKeys`, `PictureStore`, `ZoomMode`). The comma-separated capability lists; the
  storage keys and value texts; set, reset and sync over source x picture mode x format; the zoom machine between the
  user, HDMI events and restarts.
* **ContinueWatching** (`Base64`, `TokenPipeline`, `TokenFile`). A token through base64 (section 4 of RFC 4648), digest,
  padding (section 6.3 of RFC 5652), cipher and base64 into a keyed list file, and back.
* **ControlService** (`Pairing`). The three-digit pairing handler as a refinement of a counter from 0 to 3.

Some promises do not hold on every input; for each of them the exact condition is proved:

* memory events alternate for all runs exactly when the memory threshold is positive
  (`Thresholds.MemAlternationCondition`), and what the clients hear about every pid alternates exactly when, besides, no
  pid is configured twice, which `enableMonitoring` does not check (`MonitorNotices.AlternatesExactly`);
* every wake-up of the monitor has something to check exactly when memory checks are enabled or the CPU interval is
  below 10000.01 seconds (`Pacing.WakeConditionExact`);
* the connection count follows the descriptor exactly when `accept` never yields descriptor 0
  (`SocketThreads.CountFollowsDescriptor`, with a failing run in `SocketRuns.ZeroBreaksCount`), and notifications are
  never lost exactly when it does so fewer than 2^32 - 1 times (`SocketRuns.NoLossExactly`);
* the callback is tested and then read again without the mutex, so it can be called through a null pointer
  (`SocketRuns.NullRun`); that never happens exactly when the callers never register null, or never register anything
  else (`SocketRuns.NullCallExactly`);
* for the same reason a callback can be called with another registration's data; it is only ever called with data it was
  registered with exactly when every callback is registered with all the data there is (`SocketRuns.CalledExactly`);
* a restart reports the persisted zoom label as it is exactly when it is one that can be chosen
  (`ZoomMode.RestartReports`);
* a stored token is read back exactly when the application's first entry in the file, if it has one, has data to replace
  (`TokenFile.GetAfterSet`, with the lost write in `TokenFile.LostWrite`); a deleted application is gone exactly when it
  had at most one entry (`TokenFile.DeleteExact`).

Where code and documentation disagree the model follows the code: ContinueWatching's README names the parameter
`token`, the code reads `application_token`.

The base64 definitions meet the vectors of section 10 of RFC 4648 (`Base64.TestVectors`).

To check everything: `dafny verify dfyconfig.toml`.

## Model

| member | source | states |
|---|---|---|
| `ProcessTree.BuildPidMap` | ActivityMonitor/ActivityMonitor.cpp:710-712 | looking any pid up in the map, a missing one reading as 0, gives the position the parent climb uses |
| `ProcessTree.Visit` | ActivityMonitor/ActivityMonitor.cpp:724-751 | a visited process becomes the best so far exactly when it is registered, or without a registry is a child of the framework with a callsign; the callsign cache stays truthful and holds the chosen process |
| `ProcessTree.Level` | ActivityMonitor/ActivityMonitor.cpp:722-759 | one level of the climb keeps what the whole climb decides; it stops after at most 100 further levels and then decides "none" |
| `ProcessTree.Climb` | ActivityMonitor/ActivityMonitor.cpp:720-759 | the climb terminates for every table and ends at the leader of the process, or at "none" when there is none |
| `ProcessTree.ClimbStep` | ActivityMonitor/ActivityMonitor.cpp:722-759 | going one parent up with the updated best candidate does not change the decision |
| `ProcessTree.LeaderMeaning` | ActivityMonitor/ActivityMonitor.cpp:718-763 | l leads i if and only if there is a path of at most 100 processes from i to a root on which l is marked and nothing beyond l is |
| `ProcessTree.LeaderLeadsItself` | ActivityMonitor/ActivityMonitor.cpp:718-763 | a leader is its own leader, so groups never chain |
| `ProcessTree.RootPathHasNoCycle` | ActivityMonitor/ActivityMonitor.cpp:722-759 | a parent chain that meets a process twice never reaches a root, so its processes are dropped |
| `ProcessTree.RootPathIsPath` | ActivityMonitor/ActivityMonitor.cpp:722-759 | the climb finds every root path that is short enough, and only that one |
| `ProcInfo.LeadersSelfLed` | ActivityMonitor/ActivityMonitor.cpp:718-763 | for every table all leaders lead themselves: the groups are disjoint and each leader is in its own group |
| `ProcInfo.AttributeOne` | ActivityMonitor/ActivityMonitor.cpp:718-763 | after the round for process n the map holds, per leader, exactly its members among the first n + 1 processes, in order |
| `ProcInfo.BuildGroups` | ActivityMonitor/ActivityMonitor.cpp:714-763 | the attribution loop puts every process into its leader's group and no other, and caches every leader's callsign |
| `ProcInfo.CountCommands` | ActivityMonitor/ActivityMonitor.cpp:765-770 | the count of every command is the number of processes that run it |
| `ProcInfo.MemoryOfProcess` | ActivityMonitor/ActivityMonitor.cpp:779-791 | a process is charged its private memory and its share of the shared memory, in MB, and the zero-count branch is never needed |
| `ProcInfo.MemoryOfGroup` | ActivityMonitor/ActivityMonitor.cpp:774-802 | the memory loop lists exactly the followers, with their own figures, when a registry is loaded, and totals the whole group |
| `ProcInfo.CpuOfGroup` | ActivityMonitor/ActivityMonitor.cpp:804-821 | likewise for CPU ticks; pids and commands are added here only when the memory loop did not add them |
| `ProcInfo.LeaderName` | ActivityMonitor/ActivityMonitor.cpp:825-838 | a leader is shown by its command, or without a registry by its callsign, which is always cached by then |
| `ProcInfo.ReportGroup` | ActivityMonitor/ActivityMonitor.cpp:772-842 | for every flag setting a group adds its followers and then its leader to all requested vectors in step |
| `ProcInfo.ReportGroups` | ActivityMonitor/ActivityMonitor.cpp:772-842 | the output loop produces the rows of all leaders in ascending order |
| `ProcInfo.GetProcInfo` | ActivityMonitor/ActivityMonitor.cpp:664-843 | for all four flag settings, with or without a registry, every requested vector has one entry per pid and entry k describes process k of the report |
| `ProcInfo.KeysAreLeaders` | ActivityMonitor/ActivityMonitor.cpp:761-772 | the keys of the group map are exactly the leaders |
| `ProcInfo.ReportedOnce` | ActivityMonitor/ActivityMonitor.cpp:772-842 | no pid is reported twice |
| `ProcInfo.ReportReadsRightProcess` | ActivityMonitor/ActivityMonitor.cpp:898-907 | reading a requested vector at the position of a pid gives that process's group total if it leads, its own figure if it follows and a registry is loaded, and 0 otherwise |
| `ProcInfo.UnknownPidReadsZero` | ActivityMonitor/ActivityMonitor.cpp:896-912 | a pid outside the table reads as 0 |
| `ProcInfo.ReportSumsToUse` | ActivityMonitor/ActivityMonitor.cpp:772-842 | memory and CPU are conserved: in every report the entries in the rows of leaders add up to the sum over exactly the processes that have a leader |
| `ProcInfo.SharedNeverOvercharged` | ActivityMonitor/ActivityMonitor.cpp:765-800 | for every command the shared memory charged to all its attributed processes stays within the largest shared figure of any one of them |
| `ReportLaws.MemoryEntries` | ActivityMonitor/ActivityMonitor.cpp:774-841 | every memory entry of a report: the figure of a follower, the sum over its group for a leader, where a process's figure is the whole megabytes in its private memory and an even share of its shared memory among all processes with its command |
| `ReportLaws.MemUseIsCharged` | ActivityMonitor/ActivityMonitor.cpp:784-791 | the figure charged satisfies the bounds n * share <= shared < n * (share + 1) and 1024 * u <= private + share < 1024 * (u + 1) |
| `ReportLaws.FiguresExist` | ActivityMonitor/ActivityMonitor.cpp:784-791 | every table has figures within these bounds, so the entries of every report are determined |
| `ReportLaws.ChargedOnce` | ActivityMonitor/ActivityMonitor.cpp:784-791 | these bounds fix the figure, so nothing is charged too much or too little |
| `ReportLaws.CpuEntries` | ActivityMonitor/ActivityMonitor.cpp:804-841 | every CPU entry of a report: a follower's own ticks, the sum over its group for a leader |
| `ReportLaws.NameEntries` | ActivityMonitor/ActivityMonitor.cpp:793-838 | every command entry: the process's own command with a registry, else its non-empty callsign |
| `ReportLaws.ReportedExactly` | ActivityMonitor/ActivityMonitor.cpp:718-763 | with a registry a process is reported if and only if a path of at most 100 processes leads from it to a root and meets a registered command; without one if and only if it is a child of the framework with a callsign and none of its ancestors on such a path is |
| `ReportLaws.ParentMeans` | ActivityMonitor/ActivityMonitor.cpp:722-724 | the parent is the process with the parent pid, and the first process when that pid is not listed |
| `ReportLaws.RowsInOrder` | ActivityMonitor/ActivityMonitor.cpp:772-842 | groups come by ascending leader, followers in table order, and the leader last |
| `Groups.RowsContents` | ActivityMonitor/ActivityMonitor.cpp:772-842 | a process has a row exactly when it leads a group, or is in one and followers are listed |
| `Groups.RowsDistinct` | ActivityMonitor/ActivityMonitor.cpp:772-842 | no process has two rows |
| `Groups.UsageConserved` | ActivityMonitor/ActivityMonitor.cpp:800-819 | for any attribution in which leaders lead themselves, the group totals sum to the attributed processes' sum |
| `Groups.EntriesAreTotals` | ActivityMonitor/ActivityMonitor.cpp:772-842 | in the rows of any attribution the leaders' entries add up to the group totals, whether followers are listed or not |
| `Groups.ColumnLookup` | ActivityMonitor/ActivityMonitor.cpp:900-907 | with distinct pids, looking one up by position finds its own entry, or 0 when it has no row |
| `MemoryCalls.ReportHoldsTold` | ActivityMonitor/ActivityMonitor.cpp:212-221 | a memory report holds at each index the pid, name and figure of one and the same process, each process once |
| `MemoryCalls.GetAllMemoryUsage` | ActivityMonitor/ActivityMonitor.cpp:197-226 | every reported process is listed once, under its own name and with its own figure |
| `MemoryCalls.GetApplicationMemoryUsage` | ActivityMonitor/ActivityMonitor.cpp:161-195 | the call answers exactly for the reported pids, with what belongs to that pid |
| `MemoryCalls.SearchReport` | ActivityMonitor/ActivityMonitor.cpp:179-191 | the search answers exactly when the pid is in the report and then with an entry of that pid |
| `Thresholds.Below95` | ActivityMonitor/ActivityMonitor.cpp:931 | the integer test against m - m / 20 means exactly 20u < 19m |
| `Thresholds.MemStepConsistent` | ActivityMonitor/ActivityMonitor.cpp:914-945 | with a positive threshold each check keeps: events alternate, figures are on their side, the latch is the unmatched exceeded figure |
| `Thresholds.MemRunMeaning` | ActivityMonitor/ActivityMonitor.cpp:898-946 | over every run with a positive threshold memory events alternate starting with exceeded, the latch equals the last unmatched exceeded figure m, and a receded figure u satisfies u < threshold and 20u < 19m |
| `Thresholds.MemRunReports` | ActivityMonitor/ActivityMonitor.cpp:914-945 | over every run with a positive threshold each check reports exceeded exactly when no episode is open and the figure is at or above the threshold, receded exactly when the open episode's figure m and the figure u satisfy u < threshold and 20u < 19m, and nothing otherwise |
| `Thresholds.MemAlternationCondition` | ActivityMonitor/ActivityMonitor.cpp:914-945 | the events of all runs alternate if and only if the threshold is positive |
| `Thresholds.CpuMachineIsVerdict` | ActivityMonitor/ActivityMonitor.cpp:979-1053 | at every sample of every run the machine reports exactly what the samples and earlier events call for, read without any state |
| `Thresholds.CpuExceededMeans` | ActivityMonitor/ActivityMonitor.cpp:979-1005 | an exceeded event is reported if and only if the machine left NORMAL at some sample, all samples since were at or above the threshold, over at least the configured seconds, and none of them has been reported |
| `Thresholds.CpuRecededMeans` | ActivityMonitor/ActivityMonitor.cpp:1011-1053 | a receded event is reported if and only if an episode that began at e was reported, nothing was reported since, the machine entered RECEDED at j, and all samples since j were below the threshold and strictly below 95 percent of the percentage captured at e, for at least the configured seconds |
| `Thresholds.CpuEventsAlternate` | ActivityMonitor/ActivityMonitor.cpp:948-1058 | over every run CPU events strictly alternate, starting with exceeded |
| `MonitorLoop.PercentsMeans` | ActivityMonitor/ActivityMonitor.cpp:965-977 | the evaluated figure is the whole part of the percentage of passed ticks that were used, at most 100 when no more were used than passed, and 0 when ticks went backwards or none passed |
| `MonitorLoop.AppConfig.constructor` | ActivityMonitor/ActivityMonitor.cpp:68-99 | a new configuration starts normal, with no open episode |
| `MonitorLoop.AppConfig.CheckMemory` | ActivityMonitor/ActivityMonitor.cpp:914-945 | the memory branch changes the latch and reports as the memory machine does, and nothing else |
| `MonitorLoop.AppConfig.Evaluate` | ActivityMonitor/ActivityMonitor.cpp:979-1053 | the CPU branch changes its four fields and reports as the CPU machine does, and nothing else |
| `MonitorLoop.AppConfig.CheckCpu` | ActivityMonitor/ActivityMonitor.cpp:948-1058 | the machine runs only when the previous total and the previous usage are known; the usage is remembered either way |
| `MonitorLoop.Find` | ActivityMonitor/ActivityMonitor.cpp:900-907 | the loop finds the entry at the first position that holds the pid, 0 if there is none |
| `MonitorLoop.FindReadsFigure` | ActivityMonitor/ActivityMonitor.cpp:898-907 | for every table and pid the position lookup is in bounds and reads the figure that belongs to that pid |
| `MonitorLoop.ReportIsReadable` | ActivityMonitor/ActivityMonitor.cpp:884-961 | every vector a pass asks for matches the pid vector in length and reads correctly for all pids |
| `MonitorLoop.Monitor.PassOne` | ActivityMonitor/ActivityMonitor.cpp:893-1059 | one application's share of a pass touches that application only and sends its notices in order |
| `MonitorLoop.Monitor.PassAll` | ActivityMonitor/ActivityMonitor.cpp:893-1059 | the loop gives every application its own pass, independent of the others |
| `MonitorLoop.Monitor.Pass` | ActivityMonitor/ActivityMonitor.cpp:879-1068 | one iteration up to the sleep: new contents of every application, notices sent, new total |
| `MonitorRuns.RunMeaning` | ActivityMonitor/ActivityMonitor.cpp:871-1068 | over every run an application's state and notices are those of the two machines run separately on the figures of its own pid |
| `MonitorRuns.RunAlternates` | ActivityMonitor/ActivityMonitor.cpp:893-1059 | over every run the notices of one application alternate, for CPU always and for memory with a positive threshold |
| `MonitorRuns.MemNoticesExactly` | ActivityMonitor/ActivityMonitor.cpp:898-946 | pass by pass an application is told about memory exactly what its figure and the events before call for |
| `MonitorRuns.CpuNoticesExactly` | ActivityMonitor/ActivityMonitor.cpp:948-1058 | pass by pass it is told about CPU exactly the verdict on the sample that is evaluated, if one is |
| `MonitorNotices.Monitoring` | ActivityMonitor/ActivityMonitor.cpp:871-1068 | the loop over a whole run leaves every application and the one list of notices as the passes say, in order |
| `MonitorNotices.SentOfPid` | ActivityMonitor/ActivityMonitor.cpp:893-1059 | with distinct pids the notices of a run that speak of a pid are exactly those of its application run alone |
| `MonitorNotices.ToldExactly` | ActivityMonitor/ActivityMonitor.cpp:893-1059 | the same for the loop's one list of notices and any pid that is configured once |
| `MonitorNotices.NothingForStrangers` | ActivityMonitor/ActivityMonitor.cpp:893-1059 | a pid that is not configured is never spoken of |
| `MonitorNotices.AlternatesExactly` | ActivityMonitor/ActivityMonitor.cpp:268-297 | what is told about each pid alternates in all runs if and only if no pid was configured twice and all memory thresholds are positive |
| `Pacing.EveryWakeWorks` | ActivityMonitor/ActivityMonitor.cpp:1070-1087 | after every wait that timed out at least one enabled check is due |
| `Pacing.WakeConditionExact` | ActivityMonitor/ActivityMonitor.cpp:1070-1083 | that holds in all schedules if and only if memory checks are enabled or the CPU interval is positive and below 10000.01 seconds |
| `Pacing.MemChecksApart` | ActivityMonitor/ActivityMonitor.cpp:873-874 | consecutive memory checks are more than the interval less 0.01 seconds apart |
| `Pacing.CpuChecksApart` | ActivityMonitor/ActivityMonitor.cpp:876-877 | consecutive CPU checks are more than the interval less 0.01 seconds apart |
| `Pacing.StampsArePast` | ActivityMonitor/ActivityMonitor.cpp:1061-1074 | a check's stamp never lies after a later reading |
| `Pacing.SleepNeverOvershoots` | ActivityMonitor/ActivityMonitor.cpp:1070-1083 | a wait never runs past the time an enabled check is due, except for its minimum of 0.01 seconds |
| `Pacing.MemNeverOverdue` | ActivityMonitor/ActivityMonitor.cpp:871-1087 | with memory checks enabled, at no wake-up has the last one been longer ago than the interval, one iteration and one wait's delay |
| `Pacing.CpuNeverOverdue` | ActivityMonitor/ActivityMonitor.cpp:871-1087 | likewise for CPU checks |
| `MonitorLifecycle.StepKeepsInv` | ActivityMonitor/ActivityMonitor.cpp:228-327 | every step of a request or of a thread keeps: a running thread is the one joined by the next request and its block is current, allocated and not empty |
| `MonitorLifecycle.MonitorSafety` | ActivityMonitor/ActivityMonitor.cpp:228-327 | in every interleaving at most one monitor runs, it never reads a deleted or empty block, and a new one is never assigned over a joinable handle |
| `MonitorLifecycle.NoDoubleDelete` | ActivityMonitor/ActivityMonitor.cpp:251-323 | only an allocated block is deleted, and no block changes while a monitor runs on it |
| `MonitorLifecycle.StopNeverLost` | ActivityMonitor/ActivityMonitor.cpp:850-861 | a stop being joined is seen by the thread without any timeout: it can always step, every step brings it nearer its exit, nothing else can happen, and then the join completes |
| `MonitorLifecycle.RequestEnds` | ActivityMonitor/ActivityMonitor.cpp:228-327 | a request that enables monitoring with at least one usable entry ends with a monitor started on just these entries, every other request with none running, a disabling one without a parameter block |
| `MonitorLifecycle.RequestAdvances` | ActivityMonitor/ActivityMonitor.cpp:228-327 | a request can always take its next step, except while it joins a monitor, and each step brings it nearer its end |
| `MonitorLifecycle.KeepsMonitoring` | ActivityMonitor/ActivityMonitor.cpp:871-1087 | a running monitor is never stuck and, unless it is to stop, passes again after each wait that timed out |
| `MonitorLifecycle.ExitsWhenAsked` | ActivityMonitor/ActivityMonitor.cpp:1083-1087 | a monitor exits only because a request asked for it |
| `MonitorLifecycle.NothingLeaks` | ActivityMonitor/ActivityMonitor.cpp:251-323 | the only parameter block allocated is the current one |
| `SocketAdaptor.SectionsKeepCount` | DataCapture/socket_adaptor.cpp:98-120 | trashing, failing and terminating keep the count equal to the number of open connections; accepting does exactly when it does not yield descriptor 0 |
| `SocketAdaptor.Adaptor.TerminateCurrentConnection` | DataCapture/socket_adaptor.cpp:385-396 | an open descriptor is dropped and counted out, any other state is left alone |
| `SocketAdaptor.Adaptor.ReplaceConnection` | DataCapture/socket_adaptor.cpp:299-322 | the old connection is dropped and the accepted one counted in, a failed accept is not |
| `SocketAdaptor.Adaptor.ProcessNewConnection` | DataCapture/socket_adaptor.cpp:296-329 | a new connection tells the installed callback, with its data, and a missing callback is not called |
| `SocketAdaptor.Adaptor.ProcessControlMessage` | DataCapture/socket_adaptor.cpp:409-424 | only a new-callback message with a callback and a connection invokes it |
| `SocketAdaptor.Adaptor.RegisterDataReadyCallback` | DataCapture/socket_adaptor.cpp:435-448 | callback and data are installed together and a message is sent unless the callback is null |
| `SocketSteps.ConnectionSteps` | DataCapture/socket_adaptor.cpp:296-329 | every undisturbed sequence of worker steps from an accept to the next select has the effect of ProcessNewConnection |
| `SocketSteps.MessageSteps` | DataCapture/socket_adaptor.cpp:409-424 | the undisturbed steps after a message have the effect of ProcessControlMessage |
| `SocketSteps.RegistrationSteps` | DataCapture/socket_adaptor.cpp:435-448 | the undisturbed steps of a registration have the effect of RegisterDataReadyCallback |
| `SocketThreads.CountFollowsDescriptor` | DataCapture/socket_adaptor.cpp:255-329 | over every interleaving the count is 1 while the descriptor is open and 0 otherwise, so it neither underflows nor exceeds one, if and only if accept never yields descriptor 0 |
| `SocketThreads.CountIsLawful` | DataCapture/socket_adaptor.cpp:98-329 | over every interleaving the count is, modulo 2^32, the number of accepts of descriptor 0 plus one for an open connection |
| `SocketRuns.ZeroBreaksCount` | DataCapture/socket_adaptor.cpp:311-321 | a run with one accept of descriptor 0 after which the count is 1 and nothing is open |
| `SocketThreads.NotifiedMeans` | DataCapture/socket_adaptor.cpp:296-329 | "notified" means an invocation after which no connection was accepted and no callback installed |
| `SocketThreads.WorkerStepLosesNothing` | DataCapture/socket_adaptor.cpp:331-383 | every worker step leaves each untold callback covered by a registration, a message or the worker itself |
| `SocketThreads.OtherStepsLoseNothing` | DataCapture/socket_adaptor.cpp:435-448 | so do registering, writing, terminating and stopping |
| `SocketThreads.NoLostNotification` | DataCapture/socket_adaptor.cpp:296-383 | in every interleaving with fewer than 2^32 - 1 accepts of descriptor 0, when the worker is idle with an empty pipe, no registration is under way, a connection is open and a callback is set, that callback has been invoked since both |
| `SocketRuns.NoLossExactly` | DataCapture/socket_adaptor.cpp:409-424 | no notification is lost in all runs with at most z accepts of descriptor 0 if and only if z < 2^32 - 1 |
| `SocketRuns.NullRun` | DataCapture/socket_adaptor.cpp:324-327 | a run in which the call after the unlocked test goes through a null pointer |
| `SocketRuns.NullCallExactly` | DataCapture/socket_adaptor.cpp:324-327 | for callers that register callbacks from a set, that never happens if and only if null is not in the set or nothing else is |
| `SocketRuns.CalledExactly` | DataCapture/socket_adaptor.cpp:324-327 | for callers that register pairs from a set, callbacks are only ever called with data they were registered with if and only if each is registered with all the data there is, the initial null included |
| `SocketStop.WorkerNears` | DataCapture/socket_adaptor.cpp:340-380 | once an exit message is due every worker step, reading other messages and accepting included, brings the worker nearer its end |
| `SocketStop.StopEnds` | DataCapture/socket_adaptor.cpp:255-294 | after stop_listening has sent its message the worker can step whenever the mutex is free, no other thread sets it back, and when it is gone the join completes |
| `SocketStop.StoppedForGood` | DataCapture/socket_adaptor.cpp:278-294 | once stop_listening is done the worker is gone and no connection is open, and that stays so |
| `Capabilities.SplitCapability` | AVOutput/AVOutputTVHelper.cpp:358-392 | a getline loop delivers the text between commas, an empty last piece excepted |
| `Capabilities.SplitWords` | AVOutput/AVOutputTVHelper.cpp:1149-1168 | a strtok_r loop delivers the non-empty pieces |
| `Capabilities.ConvertToString` | AVOutput/AVOutputTVHelper.cpp:700-707 | the fold joins with commas and puts none after an empty prefix |
| `Capabilities.ListArgument` | AVOutput/AVOutputTVHelper.cpp:442-464 | the argument loops put one comma between neighbours |
| `Capabilities.JoinIsCommas` | AVOutput/AVOutputTVHelper.cpp:700-707 | the fold is the plain join of the list without its leading empty entries |
| `Capabilities.SplitUndoesJoin` | AVOutput/AVOutputTVHelper.cpp:358-392 | on lists of non-empty comma-free tokens both joiners agree and both splitters give the list back |
| `Capabilities.SplitInventsNothing` | AVOutput/AVOutputTVHelper.cpp:515-536 | splitting a joined list never yields a token that was not in it |
| `Capabilities.GlobalPassesCheck` | AVOutput/AVOutputTVHelper.cpp:394-432 | whatever the capability texts say, what "Global" expands to passes the capability check in that position |
| `Capabilities.ListPassesIffListed` | AVOutput/AVOutputTVHelper.cpp:280-288 | a list passes exactly when each of its tokens is in the capability text |
| `Capabilities.CheckPassesExactly` | AVOutput/AVOutputTVHelper.cpp:394-432 | the check passes exactly when every mode, source and format asked for is in the respective capability text |
| `Capabilities.FetchedIsComplete` | AVOutput/AVOutputTVHelper.cpp:566-595 | splitting what "Global" expands to gives exactly the non-empty tokens of the capability text |
| `Capabilities.GlobalIsComplete` | AVOutput/AVOutputTVHelper.cpp:709-785 | so "Global" leaves nothing out |
| `PictureKeys.FindIndex` | AVOutput/AVOutputTVHelper.cpp:63-103 | the lookup gives the index of the name, -1 when there is none |
| `PictureKeys.TableLookup` | AVOutput/AVOutputTVHelper.cpp:788-825 | index and name lookups are inverse on the table |
| `PictureKeys.NameDeterminesIndex` | AVOutput/AVOutputTVHelper.cpp:788-825 | on every index the tables can produce, -1 included, the name is dot-free and determines the index |
| `PictureKeys.KeysDistinct` | AVOutput/AVOutputTVHelper.cpp:1105-1110 | storage keys are injective in the three dot-free names and the parameter |
| `PictureKeys.IntTextReads` | AVOutput/AVOutputTVHelper.cpp:1230-1233 | stoi reads the decimal text of every 32-bit integer back |
| `PictureKeys.ValueRoundTrip` | AVOutput/AVOutputTVHelper.cpp:859-869 | every value a parameter can be set to is read back from its stored text, prefix comparison included |
| `PictureKeys.LabelsRead` | AVOutput/AVOutputTVHelper.cpp:1187-1229 | exactly which texts are read as which enumerator |
| `PictureKeys.StoiReads` | AVOutput/AVOutputTVHelper.cpp:1230-1233 | white space, a sign, digits and anything after them read as the number, or throw exactly when it is not an int |
| `PictureKeys.StoiRejects` | AVOutput/AVOutputTVHelper.cpp:1230-1233 | a text without digits there throws |
| `PictureStore.KeyInjective` | AVOutput/AVOutputTVHelper.cpp:1105-1110 | different combinations or parameters never share a key |
| `PictureStore.PqStore.UpdateParamToHal` | AVOutput/AVOutputTVHelper.cpp:847-883 | one key is written with the value's text or cleared; a refused write changes nothing |
| `PictureStore.PqStore.GetLocalParam` | AVOutput/AVOutputTVHelper.cpp:1174-1243 | a read gives the override, else the shipped default, else the HAL default, or status 1 on sync; it throws exactly when the text it finds is not one that stoi accepts |
| `PictureStore.PqStore.UpdateOne` | AVOutput/AVOutputTVHelper.cpp:901-979 | set, reset and sync of one combination: its new override and HAL value, and nothing else touched |
| `PictureStore.PqStore.UpdateParam` | AVOutput/AVOutputTVHelper.cpp:898-988 | the call reports success exactly when no write was refused and nothing threw, and then it has done the action for exactly the product; whatever it reports, nothing outside the product has changed; it throws only on an unreadable text in the product and never when setting |
| `PictureStore.PqStore.SaveConfig` | AVOutput/AVOutputTVHelper.cpp:1138-1172 | a list of names, or "none" for all, becomes the list of their indices |
| `PictureStore.PqStore.UpdateNamed` | AVOutput/AVOutputTVHelper.cpp:885-988 | the same for a call on lists of names; besides, it fails exactly when a capability that is needed cannot be read |
| `PictureStore.CoveredIffNamed` | AVOutput/AVOutputTVHelper.cpp:1149-1168 | a known index is covered by a joined list exactly when its name is in it |
| `PictureStore.NamedCovers` | AVOutput/AVOutputTVHelper.cpp:1138-1172 | any mix of "none" and joined lists covers a known combination exactly when its three names are asked for, where "none" asks for every token of the capability text |
| `PictureStore.CoveredByNone` | AVOutput/AVOutputTVHelper.cpp:1510-1533 | "none" covers a known index exactly when its name is in the capability text |
| `PictureStore.BootSyncs` | AVOutput/AVOutputTVHelper.cpp:990-1061 | after a successful sync of everything each combination in the capability texts has in the HAL what a read returns, if an override or a shipped default exists or the HAL had its own default |
| `PictureStore.DefaultReads` | AVOutput/AVOutputTVHelper.cpp:1174-1243 | without an override a read returns the default shipped under the combination's key, and the HAL's own default if none is shipped |
| `PictureStore.PqStore.GetNamed` | AVOutput/AVOutputTV.cpp:714-747 | a get call reads the combination of the names given, or fails on an unknown name |
| `PictureStore.GetMeansName` | AVOutput/AVOutputTVHelper.cpp:189-237 | a known name means its own index, "none" and "Current" the one in use |
| `PictureStore.AfterBoth` | AVOutput/AVOutputTVHelper.cpp:898-988 | acting on some combinations and then on others, overlapping or not, acts on both |
| `PictureStore.OneCombination` | AVOutput/AVOutputTVHelper.cpp:1105-1110 | writing one key and saving one value touches one combination only |
| `PictureStore.ReadsLastWritten` | AVOutput/AVOutputTVHelper.cpp:885-988 | over every run of successful calls on any lists, a read returns the value of the last set or reset that covers the combination, otherwise its default |
| `PictureStore.CallKeepsCoherence` | AVOutput/AVOutputTVHelper.cpp:901-979 | every successful call makes the covered combinations coherent and keeps the others so |
| `PictureStore.HalFollowsStore` | AVOutput/AVOutputTVHelper.cpp:885-1061 | over every run of successful set, reset and sync calls the HAL has, for each combination reached or started so, the override if present and the effective default otherwise |
| `PictureStore.FromFreshHal` | AVOutput/AVOutputTVHelper.cpp:990-1061 | starting from a HAL with nothing saved, every combination that has been reached or that nothing is stored for has in the HAL what a read returns, whatever overrides persist |
| `ZoomMode.LabelsRoundTrip` | AVOutput/AVOutputTVHelper.cpp:1646-1679 | every label that can be chosen is restored as the mode it set and reported as it was given |
| `ZoomMode.RestartReports` | AVOutput/AVOutputTVHelper.cpp:1638-1706 | after a restart the persisted label is reported as it is if and only if it is one that can be chosen |
| `ZoomMode.ModesRoundTrip` | AVOutput/AVOutputTV.cpp:578-628 | reporting and restoring a mode gives it back exactly when it is not FULL |
| `ZoomMode.AVOutputTV.constructor` | AVOutput/AVOutputTV.cpp:265-268 | a restart forgets HDMI and resolution and restores the persisted label, old labels and unknown ones included |
| `ZoomMode.AVOutputTV.HdmiStatusEventHandler` | AVOutput/AVOutputTV.cpp:202-227 | a stop reapplies the user's mode, a start applies nothing |
| `ZoomMode.AVOutputTV.VideoModeEventHandler` | AVOutput/AVOutputTV.cpp:229-263 | a resolution is always remembered and acts only while HDMI is active |
| `ZoomMode.AVOutputTV.SetZoomMode` | AVOutput/AVOutputTV.cpp:499-576 | a choice is remembered before the TV is asked, and persisted only if everything succeeded |
| `ZoomMode.AVOutputTV.SetAspectRatioZoomSettings` | AVOutput/AVOutputTVHelper.cpp:1612-1636 | AUTO is asked for while HDMI is active at 4K or above, the user's mode otherwise |
| `ZoomMode.AVOutputTV.SetDefaultAspectRatio` | AVOutput/AVOutputTVHelper.cpp:1638-1706 | the persisted label becomes the user's mode and is applied; without one nothing changes |
| `ZoomMode.AVOutputTV.GetZoomMode` | AVOutput/AVOutputTV.cpp:578-628 | the user's mode is reported at 4K or above, the TV's otherwise; only a TV that does not answer gives no label |
| `ZoomMode.AppliedExactly` | AVOutput/AVOutputTV.cpp:200-262 | over every run, failed calls included, once the last request to the TV got through, the TV applies AUTO exactly when HDMI is active at 4K or above and something was handled since its start, and the user's mode otherwise |
| `ZoomMode.StateFollowsEvents` | AVOutput/AVOutputTV.cpp:212-240 | the HDMI state is that of the last status event and the resolution that of the last update, since the last restart |
| `ZoomMode.ConfirmedMeans` | AVOutput/AVOutputTV.cpp:212-262 | which events make a request to the TV, so that it gets through exactly when the TV accepts |
| `ZoomMode.ReportsUserMode` | AVOutput/AVOutputTVHelper.cpp:1586-1602 | then the applied ratio is the user's mode unless HDMI is active at 4K or above, and the reported label is always the user's |
| `ZoomMode.ReportsLastChoice` | AVOutput/AVOutputTV.cpp:527-573 | over every run of successful calls getZoomMode reports the user's last choice, across any number of restarts |
| `Base64.RoundTrip` | ContinueWatching/ContinueWatching.cpp:963-970 | decoding an encoding gives back every byte string |
| `Base64.Encode` | ContinueWatching/ContinueWatching.cpp:963-970 | the encoding fills exactly the size computed for it, with characters of the alphabet or padding |
| `Base64.DecodedFits` | ContinueWatching/ContinueWatching.cpp:887-892 | decoding never writes more than the size computed for it, whatever the text |
| `Base64.TextIsWhole` | ContinueWatching/ContinueWatching.cpp:575-586 | base64 text holds no NUL, so a C string keeps it whole |
| `TokenPipeline.PadRoundTrip` | ContinueWatching/ContinueWatching.cpp:984-987 | padding repeats its own length and can be taken off again whatever the data ends with |
| `TokenPipeline.EncryptRoundTrip` | ContinueWatching/ContinueWatching.cpp:983-993 | the cipher text fills exactly the buffer reserved for it, and decrypts to the clear text |
| `TokenPipeline.DecryptedFits` | ContinueWatching/ContinueWatching.cpp:894-903 | the output buffer is larger than anything decrypting can write |
| `TokenPipeline.Sha256` | ContinueWatching/ContinueWatching.cpp:768-784 | the digest as 64 lower-case hexadecimal characters |
| `TokenPipeline.HexInjective` | ContinueWatching/ContinueWatching.cpp:920-922 | comparing the two texts compares the digests |
| `TokenPipeline.EncryptData` | ContinueWatching/ContinueWatching.cpp:340-442 | on success exactly the cipher text is in the buffer; it fails when unavailable or the buffer is too small |
| `TokenPipeline.DecryptData` | ContinueWatching/ContinueWatching.cpp:455-527 | on success exactly the clear text is in the buffer; it also fails on bad blocks or padding |
| `TokenPipeline.Seal` | ContinueWatching/ContinueWatching.cpp:956-1013 | the buffers built byte by byte hold the sealed token, with no byte missing or left over |
| `TokenPipeline.Open` | ContinueWatching/ContinueWatching.cpp:875-947 | the buffers of the way back hold the token, or nothing when a stage fails |
| `TokenPipeline.SealedOpens` | ContinueWatching/ContinueWatching.cpp:875-1018 | opening a sealed token gives the exact token |
| `TokenPipeline.SealedIsWhole` | ContinueWatching/ContinueWatching.cpp:1008-1014 | sealed text is never empty and passes through C strings unchanged |
| `TokenPipeline.OpenedMeans` | ContinueWatching/ContinueWatching.cpp:917-926 | a token is only returned when the digest in front of its text is the digest of that text |
| `TokenFile.ContinueWatchingImpl.WriteToJson` | ContinueWatching/ContinueWatching.cpp:536-626 | the first entry of the application is updated or one is appended, a missing list is created, an unwritable file stays as it is |
| `TokenFile.ContinueWatchingImpl.ReadFromJson` | ContinueWatching/ContinueWatching.cpp:633-681 | the data of the first entry of the application, empty when it has none |
| `TokenFile.ContinueWatchingImpl.DeleteToken` | ContinueWatching/ContinueWatching.cpp:688-761 | the first entry of the application is removed; success says exactly that |
| `TokenFile.ContinueWatchingImpl.SetAppToken` | ContinueWatching/ContinueWatching.cpp:241-262 | success is reported exactly for a non-empty token of the known application when encryption and the file are available; otherwise the file stays as it was |
| `TokenFile.ContinueWatchingImpl.GetAppToken` | ContinueWatching/ContinueWatching.cpp:208-230 | the token held by the file for the application, or empty |
| `TokenFile.ContinueWatchingImpl.DeleteAppToken` | ContinueWatching/ContinueWatching.cpp:272-290 | success is reported exactly for the known application, enabled, on a writable file that has an entry of it; otherwise the file stays as it was |
| `TokenFile.WriteReads` | ContinueWatching/ContinueWatching.cpp:561-588 | on any file a write is read back exactly when the first entry of the application, if any, has data to replace; no other application sees it |
| `TokenFile.WriteUpdates` | ContinueWatching/ContinueWatching.cpp:561-588 | on a file with one complete entry per application a write keeps that and is a map update |
| `TokenFile.DeleteRemoves` | ContinueWatching/ContinueWatching.cpp:718-732 | and a deletion keeps that and is a map removal |
| `TokenFile.DeleteReads` | ContinueWatching/ContinueWatching.cpp:718-732 | on any file a deletion leaves the other applications alone |
| `TokenFile.DeleteExact` | ContinueWatching/ContinueWatching.cpp:718-732 | the application is gone exactly when it had at most one entry |
| `TokenFile.StoredAt` | ContinueWatching/ContinueWatching.cpp:659-674 | reading an application reads the map |
| `TokenFile.LostWrite` | ContinueWatching/ContinueWatching.cpp:569-575 | a file on which a successful write is lost |
| `TokenFile.GetAfterSet` | ContinueWatching/ContinueWatching.cpp:875-1018 | for every file and non-empty token, get after a successful set returns the exact token if and only if the set had an entry to replace or could add one |
| `TokenFile.AfterDeletion` | ContinueWatching/ContinueWatching.cpp:688-761 | on every file an enabled deletion removes the first entry exactly when there is one and changes nothing else; the token and every entry are gone if and only if there was at most one |
| `TokenFile.RunReads` | ContinueWatching/ContinueWatching.cpp:208-290 | over every run of set and delete calls, failed ones included, get returns the token last set and not deleted since, entries stay one per application, and other applications' data stay as they were |
| `Pairing.ThreeDigits.Size` | ControlService/ControlService.h:61-68 | the number of digits that are set |
| `Pairing.ThreeDigits.Clear` | ControlService/ControlService.h:60 | no digit is set |
| `Pairing.ThreeDigits.PrefixShown` | ControlService/ControlService.cpp:1064-1095 | a gap-free prefix is shown as that prefix of the code |
| `Pairing.Handler.constructor` | ControlService/ControlService.h:59 | before any pairing the code and the entered digits are unset |
| `Pairing.Handler.Handle` | ControlService/ControlService.cpp:519-690 | the entered digits are always a gap-free prefix of the code, and the handler does and sends what the counting automaton does |
| `Pairing.Handler.KeyDown` | ControlService/ControlService.cpp:579-632 | a right digit extends the prefix by one and is shown; a wrong or fourth one empties it and reports the wrong code; the branch for more than three presses is unreachable |
| `Pairing.EndStatus` | ControlService/ControlService.cpp:661-675 | success, timeout, the two aborts and a wrong code each have their own status and share it with nothing else |
| `Pairing.MatchedWereTyped` | ControlService/ControlService.cpp:579-632 | over every event sequence the matched digits are exactly the last events that counted, with nothing between them |
| `Pairing.LastNoticeShowsPrefix` | ControlService/ControlService.cpp:610-632 | what the clients were told last is what has been matched |
| `Pairing.UpdatesGrowByOne` | ControlService/ControlService.cpp:620-627 | over every event sequence each update shows one digit more than the notice before it and keeps those, three at most |
| `Pairing.TypedCodeMatches` | ControlService/ControlService.cpp:579-632 | typing the code matches it from any reset, and one more press of any key reports the wrong code and starts over |
| `Pairing.CodeShown` | ControlService/ControlService.cpp:535-546 | after any events a pairing code of digit keys is shown as these digits, in order |
| `Pairing.CodeIsShown` | ControlService/ControlService.cpp:535-546 | the code to enter is the one the clients were shown last |
| `Pairing.DigitPressed` | ControlService/ControlService.cpp:582-627 | after any events a digit is right exactly when it is the next one of the code shown; then the digits so far are shown with it, otherwise the wrong code is reported |
| `Pairing.OtherKeyPressed` | ControlService/ControlService.cpp:1694-1713 | a key that is not a digit counts as 0 |
| `Pairing.OtherKeysShown` | ControlService/ControlService.cpp:1694-1713 | a code of keys that are not digits is shown as zeros |
| `Pairing.ShownCodeTyped` | ControlService/ControlService.cpp:582-627 | typing the code that is shown, from no match, shows its first, first two and three digits |
| `Pairing.IgnoredExactly` | ControlService/ControlService.cpp:519-579 | exactly which events send nothing and change nothing |

## Left out

- JSON-RPC wrapping, parameter parsing, logging, registration and delivery of notifications; notices are a sequence in the model.
- Reading `/proc`, smaps, command lines, the token file, sockets and pipes: what they hold is an input, and pipe writes and short control reads succeed.
- `getCallSign`, `getProcStat`, `readSmaps` and `parseLine`: a call sees one callsign, one set of ticks and one pair of memory figures per process.
- A process table with a duplicate pid or pid 0: `Listing` excludes them, as the kernel does.
- Machine widths: counters, figures and products are unbounded, except the connection count and the stored values, which are 32 bits wide.
- Double rounding in the pacing arithmetic, which is done over reals; waits that return early (a spurious wake-up whose predicate is false is the library's own loop).
- `ActivityMonitor::Deinitialize`, which joins without asking the thread to stop.
- Requests to ActivityMonitor that overlap: they are served one at a time. The text-to-float parsing of the intervals is an input.
- `fetch_data` of the socket adaptor, and the descriptors' state in the kernel: "open" means a positive write descriptor field.
- Writing to and closing descriptor 0 as a connection; accepting it, and what that does to the count and to notifications, is modelled.
- A call through a null callback is a final state of the worker model; what the machine would do is not modelled.
- The mutex of the socket adaptor: a section under it is one step, except that a registration can be interrupted between its two stores by the worker's unlocked reads.
- The TV HAL and the TR181 library: maps with success or failure results; their headers are not part of this model, and only the distinctness of the enumerators matters.
- Local-dimming level, CMS and aspect-ratio branches of `updateAVoutputTVParam`, which keep no override; the live `SetBacklight` call beside the store; range validation of the value.
- `resetZoomMode`, the low-latency broadcast of `setPictureMode`, and builds with `HDMIIN_4K_ZOOM`.
- `setZoomMode`'s validation and capability check are one input; its save into the picture store is an outcome.
- Key provisioning, RFC gating and the crypto library in ContinueWatching: an abstract digest and an abstract cipher that inverts itself on whole blocks; the base64 library is modelled by its RFC.
- cJSON: the file is absent, without a list, or a list of entries whose two members are strings or missing; replacing a missing member does nothing. Other members of an entry, and of the document, are not followed.
- Allocation failures, and exceptions other than the one for text shorter than a digest.
- `onXRConfigurationComplete`, remote ids and types, and the rest of ControlService, AVInput, DTV, CompositeInput, Analytics, CloudStore and Bluetooth: tables, pass-through getters and forwarding.
