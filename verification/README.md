# Local Spark for Fabric: a verified model

A Dafny model of a local Spark runtime that stands in for Microsoft Fabric notebooks: tables
and files of OneLake lakehouses are used by name, and what a session writes stays local
unless it runs in writethrough. Each module follows one component of the runtime.

- `FirstTouch`: any number of threads call `loadTable` on tables that are not registered yet.
  A machine of their steps, with monitors, the re-entrancy flag and nested calls.
- `WritePolicy`: what touching, creating and writing tables may do to OneLake in each write mode.
- `LakehouseFs`: the Hadoop filesystem of one lakehouse, its paths and its guards.
- `OneSession`: everything that may write to OneLake, in one session.
- `Names`: the encodings between lakehouse, schema and table, session database, OneLake path
  and shadow directory.
- `Notices`: where the notice of each first touch goes when preload workers, explicit mounts
  and cells drain one queue.
- `Automount`: mounting what a failing statement names, and trying again.
- `ShadowLog`: rewinding a shadow table by truncating its Delta log.
- `Framing` and `Session`: frames over a byte stream, and the request and reply session above.
- `Contexts`: several REPLs in one shell, the notebooks run in them, forced drops, interrupts
  and their watchdogs.
- `NotebookFormat`, `NotebookMeaning`, `NotebookSyntax`, `NotebookRoundTrip`, `NotebookText`
  and `NotebookRunner`: the notebook source format, what files and single lines of it mean,
  its round trip, and the loop that runs its cells.
- `Scheduler` and `FileOps`: `notebookutils`: `runMultiple`, and `cp`, `mv`, `rm` and what they
  are made of.
- `Mirror` and `Push`: the local copy of a lakehouse's files as a cache of OneLake, and what
  goes back from it.
- `Text` and `Sets`: the string operations and the facts about sets that they share.

Methods and classes stand where the source changes state, each proved against a function of,
or a relation to, the old state; interleavings are machines whose runs are sequences of
steps; lemmas state what holds over all inputs and all runs. Spark, OneLake, the SQL engine, the interpreter and
JSON are whatever they answer: functions the model is given. `dafny verify dfyconfig.toml`
checks everything.

Where the sources do not do what a reader of them might expect:

- `mv(x, x, overwrite=True)`, and a move onto a directory that contains its source, delete the
  source; a move whose rename fails has already deleted the target it was to overwrite
  (`FileOps.FS.MvWithin`, `FileOps.MoveOntoItself`).
- A directory copied into itself is copied until Python's recursion limit ends it
  (`FileOps.FS.Cp`).
- A notebook whose cell METADATA is JSON but not an object makes the parser raise, and so does
  any METADATA on which `json.loads` fails with more than a syntax error, such as an integer
  of more than 4300 digits, although its documentation says parsing never refuses a file
  (`NotebookFormat.RefusedIff`, `NotebookRoundTrip.ListIsRefused`,
  `NotebookRoundTrip.HugeIntegerIsRefused`).
- In a text with LF line ends, a carriage return at the end of a source line is lost
  (`NotebookText.TextRoundTripIff`).
- A read-open serves the old bytes of a file rewritten with the same size and time
  (`Mirror.OldBytesAreServed`). A local edit that keeps the size of a newer OneLake file is
  not pushed, and the next pull overwrites it (`Push.EditSurvivesIff`). An append in
  writethrough whose first look at OneLake fails replaces the OneLake file by what was
  appended (`Push.AppendLosesFile`).
- A new table in a schema takes the place of its top-level namesake: in the sandbox it
  overwrites what that reads, and in writethrough the table on OneLake
  (`WritePolicy.NamesakeIsOverwrittenIff`, `WritePolicy.NamesakeOnOneLake`). With
  `persist_shadow`, a table in a schema that is replaced in the sandbox reads as it was before
  in the next session (`WritePolicy.ReplacedIsReadBackIff`), and so does a table that is
  spelled in another case then (`WritePolicy.OtherSpellingReads`).
- The parameters of a notebook go to the default context when its own is dropped by force
  during the parameters cell, or when that cell runs a notebook itself
  (`Contexts.ParametersLandIff`). A forced drop of a context whose cell runs a notebook is not
  carried out when that cell ends (`Contexts.ForcedDropAtCellEnd`).
- The notices that a notebook's SQL cell drains are dropped (`Notices.UnclaimedLostIff`). Two
  workers that claim one table can let its notice into a cell's result
  (`Notices.SharedClaimLeaks`).
- The operations of the lakehouse filesystem do not call `checkPath` and take a path of any
  other filesystem for their own of that name (`LakehouseFs.ToInnerIsInside`); `checkPath`
  itself would let another lakehouse's path through (`LakehouseFs.TakenElsewhereIff`).
- A restore can delete a file that is live at the restored version when a later commit adds
  it again (`ShadowLog.LiveFilesKeptIff`, `ShadowLog.ReAddedFileIsLost`).
- A reply object that has a "binary" key of its own and no blobs is not received as it was
  sent (`Framing.ReplyInvertsIff`); the worker builds none (src/local_spark_mcp/worker.py:203-236).
- `mount_tables` claims `lakehouse.schema/table`, which no notice says
  (`Notices.MountClaimCovers`); a new sandbox table in a schema goes to the directory of its
  top-level namesake (`Names.NewTableDropsSchema`).

## Model

| member | source | states |
|---|---|---|
| `FirstTouch.FirstTouchSafety` | token-provider/src/main/scala/OneLakeCatalog.scala:214-232 | over every interleaving of any threads: each table is materialized at most once and its notice queued at most once, no two threads are inside materialize for one table, no thread is inside two monitors |
| `FirstTouch.ResolvedCallReturns` | token-provider/src/main/scala/OneLakeCatalog.scala:225-230 | the `super.loadTable` after the monitor always finds the table, and whatever `loadTable` returned is in the session catalog |
| `FirstTouch.OneNoticePerMaterialization` | token-provider/src/main/scala/OneLakeCatalog.scala:208-211 | once nobody stands between the SQL and the queue, a table is queued exactly when it was materialized |
| `FirstTouch.NoDeadlock` | token-provider/src/main/scala/OneLakeCatalog.scala:225-228 | a thread waiting for a monitor is inside none; when it cannot enter, the thread inside that monitor has a next step of its own call (not merely a new statement to start), and every such step brings it closer to leaving |
| `FirstTouch.MonitorIsFreed` | token-provider/src/main/scala/OneLakeCatalog.scala:225-228 | over any run, whatever the others do, a thread inside a monitor has left it after a bounded number of steps of its own call, provided that the SQL it runs there starts no further call |
| `FirstTouch.CallThrowsOnlyIfSpoilt` | token-provider/src/main/scala/OneLakeCatalog.scala:214-232 | over every interleaving a call throws only when OneLake has no such table or its own SQL fails |
| `FirstTouch.FirstTouchSucceeds` | token-provider/src/main/scala/OneLakeCatalog.scala:171-232 | a touch of a table that OneLake has goes through from every reachable state in which the monitor is free: it materializes the table, queues one notice, frees the monitor and returns |
| `FirstTouch.RegisteredReturns` | token-provider/src/main/scala/OneLakeCatalog.scala:214-215 | a touch of a registered table returns at once |
| `FirstTouch.FailureThrows` | token-provider/src/main/scala/OneLakeCatalog.scala:205-212 | when the SQL fails the call throws, with the monitor free and nothing registered |
| `FirstTouch.InvStep` | token-provider/src/main/scala/OneLakeCatalog.scala:171-232 | one step of any thread keeps the whole invariant of stacks, monitors, catalog, history and queue |
| `FirstTouch.InvRun` | token-provider/src/main/scala/OneLakeCatalog.scala:171-232 | that invariant in every reachable state, and every materialization is queued or about to be |
| `FirstTouch.InvNested` | token-provider/src/main/scala/OneLakeCatalog.scala:135-136 | a `loadTable` nested in materialize never gets past `resolveOneLake` |
| `Notices.NoticeTableOfRender` | src/local_spark_mcp/engine.py:2067-2069 | the routing key of a rendered notice is its lower-cased table name exactly when the name has no space |
| `Notices.MountClaimCovers` | src/local_spark_mcp/engine.py:782-792 | the claim of `mount_tables` is the key of its own mount exactly for an entry without a schema |
| `Notices.Board.DrainJvm` | token-provider/src/main/scala/OneLakeCatalog.scala:364-369 | the drain returns the whole queue in order and leaves it empty |
| `Notices.Board.ConsumeMountNotices` | src/local_spark_mcp/engine.py:929-937 | parks exactly the unclaimed notices for a cell, in order, drops the claimed ones, releases the own claims |
| `Notices.Board.DrainMountNotices` | src/local_spark_mcp/engine.py:1355-1365 | a result gets the parked, then the unclaimed fresh, then the pending notices, and nothing is left |
| `Notices.UnclaimedIsFilter` | src/local_spark_mcp/engine.py:934-936 | the filter of the interleaving machine is the one the drains run |
| `Notices.NoticesConserved` | src/local_spark_mcp/engine.py:929-937 | over every interleaving of preload workers, `mount_tables` and cells, each queued notice is in exactly one of: queue, drain in progress, stray list, a result somebody gets, a result nobody gets, discarded |
| `Notices.OwnMountsStayInside` | src/local_spark_mcp/engine.py:851-890 | when no two workers claim one table, the notice of a claiming worker's own mount never reaches a result or the stray list |
| `Notices.SharedClaimLeaks` | src/local_spark_mcp/engine.py:929-937 | and whenever two do, some run reports one's own mount in a result |
| `Notices.UnclaimedLostIff` | src/local_spark_mcp/engine.py:1355-1365 | the notice of a table nobody ever claims is never discarded; it is reported exactly when a result that somebody gets takes it, and lost exactly when another does, such as that of a notebook's SQL cell; never both |
| `Notices.NextDrainDecides` | src/local_spark_mcp/engine.py:1478-1485 | the notice of a first touch is reported by the next result that somebody gets and lost by the next that nobody gets: a notebook whose only cell is a SQL query loses it |
| `Notices.ResultReportsAll` | src/local_spark_mcp/engine.py:1355-1365 | when a result is built, every such notice is in it or an earlier one, or in a result nobody gets, or came after its last poll |
| `ShadowLog.Table.Truncate` | src/local_spark_mcp/engine.py:2150-2189 | refuses exactly the versions before the first or after the last commit and then changes nothing; of a log of some history, leaves a log of the history up to the version that reads as before; leaves exactly the commits, checkpoints and checksums up to the version, unlinks exactly the local files that later commits add, and counts both |
| `ShadowLog.Table.DropCommits` | src/local_spark_mcp/engine.py:2159-2175 | the loop over later commits removes exactly those and the local files they add |
| `ShadowLog.Table.UnlinkAdds` | src/local_spark_mcp/engine.py:2163-2173 | unlinks exactly the local files one commit adds and counts those that were there |
| `ShadowLog.RestorePreservesSnapshot` | src/local_spark_mcp/engine.py:2150-2189 | after truncation to v the commits are those up to v, and a reader gets from the newest remaining checkpoint the original snapshot at v ("Action Reconciliation" of the Delta Transaction Log Protocol), whenever v could be read at all |
| `ShadowLog.ReadIsState` | src/local_spark_mcp/engine.py:2150-2189 | a reader of a log with correct checkpoints gets the state of the whole history, or nothing exactly when commits it needs are gone |
| `ShadowLog.LiveFilesKeptIff` | src/local_spark_mcp/engine.py:2163-2175 | the live files at v all survive exactly when no discarded commit adds one of them again |
| `ShadowLog.RestoreKeepsLiveFiles` | src/local_spark_mcp/engine.py:2163-2175 | when discarded commits add only paths no kept commit added, every local file live at v that existed still exists and every file they added is gone |
| `ShadowLog.ReAddedFileIsLost` | src/local_spark_mcp/engine.py:2163-2175 | without that condition a live file is lost: a concrete two-commit log |
| `ShadowLog.TruncateTwice` | src/local_spark_mcp/engine.py:2150-2189 | rewinding to v and then to an earlier w is rewinding to w |
| `ShadowLog.StateAfterRestore` | src/local_spark_mcp/engine.py:2192-2220 | after a restore the shadow reports the restored version, and counts as read-only exactly at its clone commit |
| `ShadowLog.StateOfLog` | src/local_spark_mcp/engine.py:2192-2220 | any shadow counts as read-only exactly while its log is one clone commit |
| `ShadowLog.OperationIs` | src/local_spark_mcp/engine.py:2201-2208 | a commit's operation is that of its first line that has one |
| `ShadowLog.LocalAddsAre` | src/local_spark_mcp/engine.py:2163-2171 | the files that a commit adds here are the paths of its add actions that are neither empty nor URLs |
| `Framing.Pipe.RecvExactly` | src/local_spark_mcp/protocol.py:40-49 | however `recv` cuts the stream, gets exactly the next n bytes, or reports the end when fewer are left |
| `Framing.Pipe.RecvMsg` | src/local_spark_mcp/protocol.py:52-61 | reads exactly one frame off the stream |
| `Framing.Pipe.RecvReply` | src/local_spark_mcp/protocol.py:73-84 | reads exactly one frame and the blobs it announces |
| `Framing.Pipe.SendReply` | src/local_spark_mcp/protocol.py:64-70 | writes one frame and its blobs, or nothing when the object is too long for the header |
| `Framing.Pipe.ReceiveAll` | src/local_spark_mcp/protocol.py:73-84 | repeated receiving yields exactly the replies the stream holds and how it ends |
| `Framing.ReplyInvertsIff` | src/local_spark_mcp/protocol.py:64-84 | a sent reply is received as it was, with the rest of the stream untouched, exactly when an object without blobs carries no "binary" list of its own |
| `Framing.DeliveredIs` | src/local_spark_mcp/protocol.py:64-84 | what arrives has the body and the blobs that were sent, and their lengths |
| `Framing.OwnListTakesMore` | src/local_spark_mcp/protocol.py:64-84 | a reply with a list of its own and no blobs takes a byte of what follows it: a concrete one |
| `Framing.CutReplyCloses` | src/local_spark_mcp/protocol.py:40-84 | a stream cut anywhere inside a reply reads as closed, never as a message |
| `Framing.StreamInverts` | src/local_spark_mcp/protocol.py:35-84 | the first n bytes of a stream of replies give exactly the replies that are whole in them, in order, and then the end |
| `Framing.WholeStreamInverts` | src/local_spark_mcp/protocol.py:35-84 | a whole stream gives back every reply in order with nothing left over |
| `Framing.UnpackPack` | src/local_spark_mcp/protocol.py:35-38 | the 4-byte big-endian length comes back, below 2^32 |
| `Framing.PackIsBigEndian` | src/local_spark_mcp/protocol.py:35-38 | the most significant byte comes first |
| `Session.Tee.Write` | src/local_spark_mcp/engine.py:2086-2093 | what was forwarded and what is pending together are everything written |
| `Session.Tee.Close` | src/local_spark_mcp/engine.py:2103-2107 | after closing, the events of the stream concatenate to everything written |
| `Session.RunCell` | src/local_spark_mcp/engine.py:2074-2110 | a streaming cell sends only events of its own request, and those of each stream concatenate to what its tee captured |
| `Session.ServeOne` | src/local_spark_mcp/worker.py:203-236 | one request is served by its own events and then one terminal reply |
| `Session.RunWorker` | src/local_spark_mcp/worker.py:196-236 | the worker serves every request up to shutdown by one such segment each, in order |
| `Session.WorkerProcess.Call` | src/local_spark_mcp/worker_client.py:197-240 | reads events up to the first terminal frame and hands them on in order; ends as timed out, closed or mismatched exactly when that is how reading ended |
| `Session.SessionInStep` | src/local_spark_mcp/worker_client.py:209-231 | without a timeout every call consumes exactly its own events and its own reply, the id-mismatch branch is never taken and nothing is left on the connection |
| `Session.NeverForeign` | src/local_spark_mcp/worker_client.py:216-231 | whatever calls time out between frames, no call reports the result or error of another request |
| `Session.TimeoutIsFinal` | src/local_spark_mcp/worker_client.py:216-231 | after the first timeout every later call on the connection times out or is a mismatch |
| `Session.BehindForever` | src/local_spark_mcp/worker_client.py:227-229 | once a terminal reply is left unread, no later call returns anything |
| `Session.ServesAnswersId` | src/local_spark_mcp/worker.py:203-236 | what the worker sends for a request carries that request's id throughout |
| `Session.OutputArrives` | src/local_spark_mcp/worker_client.py:197-240 | from end to end, when the worker serves the parent's requests and no call times out: a value is returned, one that says the JVM is gone is a fatal error, an exception, an interrupted query and an interrupt are the errors they should be, a shutdown returns nothing; and what a streamed cell's call is given puts together to exactly what the cell wrote to each stream |
| `Session.PatienceRunsOut` | src/local_spark_mcp/worker_client.py:209-218 | a call that times out has handed on exactly what came before |
| `Contexts.Engine.constructor` | src/local_spark_mcp/engine.py:131-276 | the engine starts with the default context registered and active |
| `Contexts.Engine.CreateContext` | src/local_spark_mcp/engine.py:395-430 | adds a fresh namespace under a new id, refusing blank and taken ids |
| `Contexts.Engine.StartCell` | src/local_spark_mcp/engine.py:960-983 | activates the context, bumps the generation and clears the interrupt request |
| `Contexts.Engine.RunCell` | src/local_spark_mcp/engine.py:1007-1087 | a cell changes the namespace of the active context, or of the one it began in, and nothing else |
| `Contexts.Engine.OpenNotebook` | src/local_spark_mcp/engine.py:1424-1426 | a notebook activates its context, or fails on an unknown one |
| `Contexts.Engine.WriteParameters` | src/local_spark_mcp/engine.py:1471-1507 | the parameters are put into the namespace of whatever context is active |
| `Contexts.Engine.EndCell` | src/local_spark_mcp/engine.py:985-1003 | ends the cell, carries out a pending drop of the active context, and reports interrupted for a KeyboardInterrupt or an exception under a request |
| `Contexts.Engine.DropContext` | src/local_spark_mcp/engine.py:432-456 | the whole decision of a drop: default, unknown, busy, scheduled, dropped |
| `Contexts.Engine.Unregister` | src/local_spark_mcp/engine.py:452-456 | removes exactly one context and falls back to the default one if it was active |
| `Contexts.Engine.InterruptCell` | src/local_spark_mcp/engine.py:1116-1156 | accepted exactly for a running cell of the named context; starts a watchdog for its generation |
| `Contexts.Engine.WatchdogTick` | src/local_spark_mcp/engine.py:1266-1277 | cancels only while the cell of its generation runs, else ends |
| `Contexts.ContextsSafe` | src/local_spark_mcp/engine.py:378-456 | over all runs the default context stays registered and the active one is registered |
| `Contexts.OnlyItsOwnCell` | src/local_spark_mcp/engine.py:384-393 | over all runs a context's variables change only by a cell's code or by a notebook's parameters; those of any context but the default one only by a cell that began in it or a notebook that was started in it |
| `Contexts.ParametersLandIff` | src/local_spark_mcp/engine.py:1471-1507 | the parameters of a notebook go to its own context exactly when, since it or its last cell began, no drop of the context took effect and that cell ran no notebook; otherwise they go to the default context |
| `Contexts.DefaultParametersLand` | src/local_spark_mcp/engine.py:1471-1507 | those of a notebook in the default context always go there |
| `Contexts.RemovesIff` | src/local_spark_mcp/engine.py:432-456 | a drop takes effect exactly at a drop request while no cell of the context is marked as running, or at the end of a cell while the context is active and a forced drop is pending |
| `Contexts.ForcedDropMisplaces` | src/local_spark_mcp/engine.py:1505-1507 | a forced drop during the parameters cell: the parameters end up in the default context, a concrete run |
| `Contexts.NestedRunMisplaces` | src/local_spark_mcp/engine.py:1505-1507 | so they do when the parameters cell runs a notebook itself, a concrete run |
| `Contexts.ForcedDropAtCellEnd` | src/local_spark_mcp/engine.py:442-456 | a forced drop accepted during a cell that runs no notebook leaves the context until that cell ends, and that end removes exactly it and makes the default one active; when the cell runs one, its end drops nothing and the drop stays pending |
| `Contexts.GenerationGrows` | src/local_spark_mcp/engine.py:970-971 | the cell generation only grows |
| `Contexts.InterruptBelongsToItsCell` | src/local_spark_mcp/engine.py:1116-1156 | over all runs a cell is reported interrupted exactly when it ended in a KeyboardInterrupt, or in another exception and an interrupt was accepted in its own generation or that of the last cell that began inside it; and a watchdog cancels only its own cell |
| `Contexts.InterruptIff` | src/local_spark_mcp/engine.py:1116-1156 | an interrupt is accepted exactly while a cell is marked as running and, if it names a context, that is the cell's |
| `Contexts.DropAnswers` | src/local_spark_mcp/engine.py:432-456 | what a drop of each kind of context answers |
| `Contexts.CreateAnswers` | src/local_spark_mcp/engine.py:395-430 | blank and taken ids are refused; a new context starts with eight names |
| `Contexts.StartAnswers` | src/local_spark_mcp/engine.py:378-393 | no name means the default context; one that is not registered is refused |
| `Contexts.TickAnswers` | src/local_spark_mcp/engine.py:1266-1277 | a watchdog cancels while its cell runs and is gone at its first turn after that |
| `Contexts.InvRun` | src/local_spark_mcp/engine.py:378-456 | the invariant behind these, in every reachable state |
| `Scheduler.Sorter.Visit` | src/local_spark_mcp/notebookutils_shim.py:293-304 | the depth-first visit keeps the order duplicate-free with dependencies first, terminates on every graph, and reports a cycle only when there is one |
| `Scheduler.ByNameIs` | src/local_spark_mcp/notebookutils_shim.py:288 | a name stands for the dependencies that the last activity of that name lists |
| `Scheduler.Sort` | src/local_spark_mcp/notebookutils_shim.py:287-307 | with all dependencies known, raises the cycle error exactly when a dependency cycle exists; otherwise lists each activity's name once, after everything that the last activity of that name lists |
| `Scheduler.OrderedIsAcyclic` | src/local_spark_mcp/notebookutils_shim.py:287-307 | a complete order leaves no room for a cycle |
| `Scheduler.ClosesCycle` | src/local_spark_mcp/notebookutils_shim.py:296-297 | a name met again while it is being visited lies on a cycle |
| `Scheduler.RunInOrder` | src/local_spark_mcp/notebookutils_shim.py:308-321 | each activity gets one entry; it is executed exactly when everything upstream of it succeeded |
| `Scheduler.UpstreamByDirect` | src/local_spark_mcp/notebookutils_shim.py:311 | looking at the direct dependencies is enough: all upstream activities succeeded exactly when no direct one carries an exception |
| `Scheduler.RunMultiple` | src/local_spark_mcp/notebookutils_shim.py:282-321 | an activity is skipped when one that it lists carries an exception, and otherwise executed, with what the engine answered as its result; it is executed exactly when every transitive dependency succeeded; one result each, and the call fails exactly when some result carries an exception |
| `FileOps.FS.MakeDirs` | src/local_spark_mcp/notebookutils_shim.py:181 | creates exactly the missing directories of a path, failing exactly when a file is in the way |
| `FileOps.FS.Mkdirs` | src/local_spark_mcp/notebookutils_shim.py:188-193 | as above under the write guard |
| `FileOps.FS.Write` | src/local_spark_mcp/notebookutils_shim.py:174-184 | succeeds exactly when writable, not blocked by an existing file, a directory or a file in the way; writes that file and its missing parents and nothing else |
| `FileOps.FS.Append` | src/local_spark_mcp/notebookutils_shim.py:220-231 | succeeds exactly when writable, there or to be created, and no directory and not below a file; what was there stays in front, and nothing else differs |
| `FileOps.FS.Rm` | src/local_spark_mcp/notebookutils_shim.py:195-211 | for any path, a root too: succeeds exactly when it exists, is writable, and is a file, empty or removed recursively; deletes exactly one subtree |
| `FileOps.FS.RmChildren` | src/local_spark_mcp/notebookutils_shim.py:206-208 | the loop over children removes everything below the directory and nothing else |
| `FileOps.FS.Cp` | src/local_spark_mcp/notebookutils_shim.py:233-245 | for any two paths: a copy that does not write into its own source succeeds exactly when the source exists (and is a file or recurse is set), the target is writable, the kinds agree and the tree is not deeper than the recursion limit, and then overlays exactly the source's kinds and bytes; a directory copied into itself always fails; whatever happens only the target and its missing parents differ |
| `FileOps.FS.CpChildren` | src/local_spark_mcp/notebookutils_shim.py:241-242 | the loop over children overlays the whole directory, fails exactly when some pair of kinds disagrees or the tree is too deep, and always fails inside its own source |
| `FileOps.UntangledIff` | src/local_spark_mcp/notebookutils_shim.py:233-245 | a copy stays out of its own source exactly when source and target are the same, or the target is neither inside the source nor above it at a distance at which the source has an entry again |
| `FileOps.ClearWayIff` | src/local_spark_mcp/notebookutils_shim.py:181 | the way to a directory is clear exactly when some tree has it and everything that there is |
| `FileOps.HasParentIff` | src/local_spark_mcp/notebookutils_shim.py:265 | a place has a parent exactly when everything above it is a directory |
| `FileOps.ClearAboveIff` | src/local_spark_mcp/notebookutils_shim.py:181 | what is above a path is clear exactly when the way to its parent is |
| `FileOps.FS.Rename` | src/local_spark_mcp/notebookutils_shim.py:265 | onto an absent path: succeeds exactly when writable, the source exists, the parent is a directory and the target is not inside the source; moves the tree |
| `FileOps.FS.MvWithin` | src/local_spark_mcp/notebookutils_shim.py:247-266 | for any two paths of one side: exact success condition and result; a failing overwrite has already lost its target, and a failing move has lost its source exactly when it overwrites an ancestor of the source or the source itself |
| `FileOps.MoveOntoItself` | src/local_spark_mcp/notebookutils_shim.py:247-266 | `mv(p, p, overwrite=True)` of a file fails and the file is gone |
| `FileOps.FS.MvAcross` | src/local_spark_mcp/notebookutils_shim.py:267-269 | exact success condition of a move between the sides, of a root too; merges into an existing target, and moves the whole tree to an absent one |
| `FileOps.FS.Mv` | src/local_spark_mcp/notebookutils_shim.py:247-269 | for any two paths, exactly when a move succeeds, on one side and across; an existing target is refused without overwrite; an absent target gets the whole tree; exactly when a failing move loses its source; outside writethrough OneLake is never changed |
| `FileOps.FS.Session` | src/local_spark_mcp/notebookutils_shim.py:174-269 | after any sequence of mkdirs, put, append, rm, cp and mv, each with its own guard, a OneLake that is not in writethrough is what it was |
| `FileOps.MoveBack` | src/local_spark_mcp/notebookutils_shim.py:247-269 | moving to an absent place and back restores every path |
| `FileOps.CopyTwice` | src/local_spark_mcp/notebookutils_shim.py:233-245 | copying twice is copying once, for every copy that stays out of its own source |
| `FileOps.RemoveCopy` | src/local_spark_mcp/notebookutils_shim.py:195-245 | removing a fresh copy restores the tree |
| `NotebookFormat.MarkerInverts` | src/local_spark_mcp/notebook.py:27 | a marker line is read as its kind and number of asterisks |
| `NotebookFormat.BlocksPartition` | src/local_spark_mcp/notebook.py:143-160 | for any lines, every line is before the first marker or in exactly one block |
| `NotebookFormat.ContentOf` | src/local_spark_mcp/notebook.py:155-159 | a block loses at most one line at either end, and only an empty one |
| `NotebookFormat.FindMarkers` | src/local_spark_mcp/notebook.py:143-149 | finds exactly the marker lines, in order, and warns of each without 20 asterisks |
| `NotebookFormat.CutBlocks` | src/local_spark_mcp/notebook.py:151-160 | cuts the file at exactly those lines |
| `NotebookFormat.ParseMeta` | src/local_spark_mcp/notebook.py:82-97 | the JSON of a METADATA block and the warnings about it |
| `NotebookFormat.DecodeMarkdown` | src/local_spark_mcp/notebook.py:125-134 | strips the prefix of each line |
| `NotebookFormat.ReadBlocks` | src/local_spark_mcp/notebook.py:162-203 | the loop over the blocks computes the fold of one block's step, and raises when that does |
| `NotebookFormat.ParseNotebook` | src/local_spark_mcp/notebook.py:137-203 | parsing a text is reading its lines, CR LF as LF |
| `NotebookFormat.CrLfReadsAsLf` | src/local_spark_mcp/notebook.py:138 | a file with CR LF line ends has the lines of the one with LF |
| `NotebookFormat.RefusedIff` | src/local_spark_mcp/notebook.py:82-203 | parsing raises exactly when `json.loads` fails with more than a syntax error on some METADATA, or the METADATA of some code cell is JSON but not an object; in every other case it yields a notebook |
| `NotebookMeaning.ParseIsLocal` | src/local_spark_mcp/notebook.py:137-203 | every file that does not make the parser raise is the notebook of its blocks taken one by one: a cell for each that is not METADATA, with the JSON of the METADATA right behind it if it is code, and for each block the warnings that it and the one before it give rise to |
| `NotebookSyntax.MarkersAreSpelled` | src/local_spark_mcp/notebook.py:27 | the four marker lines |
| `NotebookSyntax.HeaderIs` | src/local_spark_mcp/notebook.py:26 | the header line |
| `NotebookSyntax.StripIs` | src/local_spark_mcp/notebook.py:85-134 | stripping takes white space off both ends and leaves none there |
| `NotebookSyntax.LineMagicIff` | src/local_spark_mcp/notebook.py:31 | `!` or one `%` at the start of a line and then no white space: `!pip`, `%pip`, not `%%sql` |
| `NotebookSyntax.LineMagicsConcat` | src/local_spark_mcp/notebook.py:121 | the line magics of some lines are those of each |
| `NotebookSyntax.CellMagicIff` | src/local_spark_mcp/notebook.py:32 | a cell magic is the word right after `%%` at the start of a stripped line, in lower case |
| `NotebookSyntax.WordCharsAre` | src/local_spark_mcp/notebook.py:32 | the characters of that word |
| `NotebookSyntax.FirstMagicIs` | src/local_spark_mcp/notebook.py:110-120 | the first line that is not blank decides the magic, and only a magic is taken out |
| `NotebookSyntax.LanguagesAre` | src/local_spark_mcp/notebook.py:109-121 | the language of a cell, and that only python has line magics |
| `NotebookSyntax.UnprefixedIs` | src/local_spark_mcp/notebook.py:103-106 | what is under a MAGIC prefix |
| `NotebookSyntax.DecodedIs` | src/local_spark_mcp/notebook.py:102-108 | a cell is under it when each line that is not blank begins with it |
| `NotebookSyntax.UnmarkedIs` | src/local_spark_mcp/notebook.py:125-134 | a line of markdown |
| `NotebookSyntax.MetaLineIs` | src/local_spark_mcp/notebook.py:84-92 | a line of METADATA |
| `NotebookSyntax.ClashIs` | src/local_spark_mcp/notebook.py:171-176 | when a cell's metadata and its magic do not fit |
| `NotebookRoundTrip.RoundTripIff` | src/local_spark_mcp/notebook.py:3-17 | printing a notebook in the documented format and parsing it gives the same kinds, indices, sources, languages and metadata without a warning exactly when no printed line is a marker, no python source looks like a magic and each cell's metadata agrees with its magic |
| `NotebookRoundTrip.ListIsRefused` | src/local_spark_mcp/notebook.py:165-177 | a concrete file whose one cell has a JSON list for METADATA makes parsing raise |
| `NotebookRoundTrip.HugeIntegerIsRefused` | src/local_spark_mcp/notebook.py:95 | a concrete file whose own METADATA makes `json.loads` fail with more than a syntax error, such as an integer of more than 4300 digits, makes parsing raise |
| `NotebookText.TextRoundTripIff` | src/local_spark_mcp/notebook.py:137-203 | of the text with LF line ends, the same exactly when, in addition, no line of a source ends in a carriage return; with CR LF line ends, the same without that |
| `NotebookText.TextMeansTrimmed` | src/local_spark_mcp/notebook.py:137-138 | a printed text is read as the notebook whose source lines have lost a carriage return at their end |
| `NotebookText.TrailingCrIsLost` | src/local_spark_mcp/notebook.py:137-138 | a concrete notebook whose LF text is not read back |
| `NotebookRoundTrip.PlainReadsBackIff` | src/local_spark_mcp/notebook.py:100-122 | python source is decoded to itself exactly when it does not look like prefixed lines or start with a cell magic |
| `NotebookRoundTrip.MagicReadsBack` | src/local_spark_mcp/notebook.py:100-122 | a cell with a language magic is decoded to its own source and magic |
| `NotebookRoundTrip.MarkdownReadsBack` | src/local_spark_mcp/notebook.py:125-134 | markdown is decoded to itself |
| `NotebookRoundTrip.QuietTally` | src/local_spark_mcp/notebook.py:162-203 | a file that parses without a warning has one block of its own, one per markdown cell and two per code cell |
| `NotebookRoundTrip.ParsedIsOk` | src/local_spark_mcp/notebook.py:137-203 | whatever any text parses to has indices in order and languages and magics that follow from its sources |
| `NotebookRunner.Shell.RunCells` | src/local_spark_mcp/engine.py:1452-1519 | the results are a prefix of the selected cells in file order, cut right after the first that exits or, under stop_on_error, is an error or unsupported; each that is not skipped reports what the interpreter answered to its code, the first error and the exit value come from them; the parameters are written at most once, exactly when due, right after the first selected parameters cell that does not exit or before the first runnable cell of a notebook without one |
| `NotebookRunner.Shell.RunCell` | src/local_spark_mcp/engine.py:1474-1504 | one cell by language: what the interpreter answers to its code decides the status, the error text, the exit value and the namespace |
| `NotebookRunner.Shell.VisitCell` | src/local_spark_mcp/engine.py:1469-1510 | one turn of the loop visits the cell once, as the interpreter answers, and keeps the parameters in their place |
| `NotebookRunner.SeesParameters` | src/local_spark_mcp/engine.py:1469-1476 | the cell after the write sees every parameter with its value |
| `NotebookRunner.NoMagicLeft` | src/local_spark_mcp/notebook.py:237-242 | the code handed to the shell has no line magic left |
| `NotebookRunner.CodeIs` | src/local_spark_mcp/notebook.py:237-242 | the code handed to the shell is the source without its line magics |
| `NotebookRunner.KeptConcat` | src/local_spark_mcp/notebook.py:241 | line by line, and everything else stays in order |
| `Mirror.FilesMirror.OpenRead` | src/local_spark_mcp/lazy_files.py:177-194 | of a coherent file, a read-open returns bytes OneLake had at a contact during the call, or the local copy when it had no answer or no such file; of any file, when nothing changes meanwhile, its current bytes exactly when a copy that matches its size and is not older has them |
| `Mirror.FilesMirror.FetchFile` | src/local_spark_mcp/files.py:291-309 | keeps coherence, returns bytes seen at a contact, leaves an up-to-date copy when nothing changes, and then returns the current bytes unless a copy passed for up to date |
| `Mirror.FilesMirror.Session` | src/local_spark_mcp/lazy_files.py:177-209 | over any run of read-opens, fetches, pulls and clears on a mirror that starts empty, every read-open gets bytes OneLake had during it; or, without an answer or such a file, bytes it had had earlier in the session; or the current ones when nothing changes meanwhile |
| `Mirror.FilesMirror.Stale` | src/local_spark_mcp/lazy_files.py:204-209 | stale exactly when OneLake answers with a file whose size or time the copy does not match |
| `Mirror.FilesMirror.PullPath` | src/local_spark_mcp/files.py:183-216 | one path of a pull brings every file below it up to date unless there was an error, and transfers nothing when all were |
| `Mirror.FilesMirror.PullListed` | src/local_spark_mcp/files.py:196-215 | the loop over a listing: each file is skipped, transferred or an error; without errors all are up to date when nothing changes, and up-to-date files are not transferred |
| `Mirror.FilesMirror.Pull` | src/local_spark_mcp/files.py:174-216 | the same of all paths together, keeping coherence whatever happens in between |
| `Mirror.FilesMirror.PullTwice` | src/local_spark_mcp/files.py:174-216 | repeating a pull without errors, with no remote change, transfers nothing |
| `Mirror.FilesMirror.Clear` | src/local_spark_mcp/files.py:340-367 | drops exactly the copies below the paths and keeps coherence |
| `Mirror.CoherentLater` | src/local_spark_mcp/files.py:291-309 | no remote change with strictly increasing times breaks coherence |
| `Mirror.SameTimeIsMissed` | src/local_spark_mcp/lazy_files.py:204-209 | a rewrite with the same size and time is not seen as a change: a concrete pair of stores |
| `Mirror.OldBytesAreServed` | src/local_spark_mcp/lazy_files.py:177-209 | and a read-open then returns the old bytes |
| `Names.DbInvertsIff` | token-provider/src/main/scala/OneLakeCatalog.scala:70-75 | `lakehouseAndSchema` inverts `db` exactly when the schema cannot hide the separator and no lakehouse is named like the database |
| `Names.LakehouseDbInverts` | token-provider/src/main/scala/OneLakeCatalog.scala:70-71 | the database of a lakehouse itself is always inverted |
| `Names.DbInjective` | token-provider/src/main/scala/OneLakeSchemaCatalog.scala:44-48 | databases that differ in case at most belong to the same lakehouse and to schemas that differ in case at most; equal ones to the same schema |
| `Names.LowerLookup` | token-provider/src/main/scala/OneLakeCatalog.scala:70-75 | a database is looked up the same in any case |
| `Names.KnownIff` | token-provider/src/main/scala/OneLakeCatalog.scala:70-75 | a database is known exactly when it is a lakehouse, or a lakehouse, the separator and a rest without a later one |
| `Names.BackInvertsTranslate` | token-provider/src/main/scala/OneLakeSchemaCatalog.scala:49-55 | `back` inverts `translate` wherever that is defined |
| `Names.TranslateInvertsBackIff` | token-provider/src/main/scala/OneLakeSchemaCatalog.scala:49-55 | `translate` inverts `back` exactly for the lakehouse's own databases |
| `Names.ListedIsResolvedIff` | src/local_spark_mcp/engine.py:735-741 | a listed `schema/table` is looked up at the path it was listed from exactly when its database is inverted |
| `Names.TopLevelIsResolved` | src/local_spark_mcp/engine.py:735-741 | a listed top-level table always is |
| `Names.SchemaShadow` | token-provider/src/main/scala/OneLakeCatalog.scala:153-158 | the shadow directory of a schema's table |
| `Names.ShadowDecodesIff` | src/local_spark_mcp/engine.py:1842-1851 | a shadow directory is reported as the table it was made for exactly when the schema, or a top-level table's name, has no dot |
| `Names.ShadowsApart` | token-provider/src/main/scala/OneLakeCatalog.scala:153-158 | materialized tables whose directories decode have distinct directories unless they are the same table; directories that differ in case at most, only tables that do |
| `Names.DottedTableCollides` | token-provider/src/main/scala/OneLakeCatalog.scala:153-158 | a top-level table with a dotted name shares the directory of a schema's table |
| `Names.NewTableDropsSchema` | token-provider/src/main/scala/OneLakeCatalog.scala:253-255 | a new sandbox table is put where its top-level namesake goes; that is the directory of its materialized form only outside a schema |
| `Push.Uploader.Push` | src/local_spark_mcp/files.py:218-259 | refused exactly outside writethrough, with nothing changed; else only files below the paths differ, to the mirror's bytes; without an error each is there or was held back, and with every contact answered held back are exactly those whose size is the same and whose time is not older |
| `Push.Uploader.PushPath` | src/local_spark_mcp/files.py:236-258 | the loop over the files of one path |
| `Push.Uploader.PushEntry` | src/local_spark_mcp/files.py:236-258 | one file's turn: skipped, uploaded or an error |
| `Push.Uploader.PushTwice` | src/local_spark_mcp/files.py:218-259 | a second push transfers nothing exactly when, after the first, no file is older on OneLake than in the mirror; either way it changes no bytes |
| `Push.Uploader.PushFile` | src/local_spark_mcp/files.py:311-319 | refused exactly outside writethrough; uploads one file, and changes nothing when it does not |
| `Push.Uploader.WriteFile` | src/local_spark_mcp/lazy_files.py:195-215 | what the mirror holds after a lazily opened file is written and closed, exactly when that raises, and that OneLake then has it in writethrough unless the push failed; an appended file is the old one and what was appended exactly when the mirror had the same bytes, or the first look at OneLake was answered |
| `Push.Uploader.Session` | src/local_spark_mcp/files.py:218-319 | over any run of pushes and writes OneLake stays as it was outside writethrough, and in it nothing arrives that the mirror did not hold |
| `Push.EditSurvivesIff` | src/local_spark_mcp/files.py:174-259 | pushing and then pulling leaves an edit alone exactly when it was not held back by a newer file of the same size that says something else |
| `Push.PushThenPull` | src/local_spark_mcp/files.py:174-259 | the same of the two methods, run one after the other |
| `Push.HeldBackEdit` | src/local_spark_mcp/files.py:243-247 | an edit that keeps the size and is older than OneLake's file is not pushed: a concrete one |
| `Push.AppendLosesFile` | src/local_spark_mcp/lazy_files.py:195-199 | an append whose first look at OneLake fails replaces the file by what was appended: a concrete one |
| `LakehouseFs.ToInnerIsInside` | token-provider/src/main/scala/LakehouseFileSystem.scala:81-94 | every path, relative, absolute, inner or of another filesystem, goes inside the lakehouse and comes back as the path it meant |
| `LakehouseFs.ToInvertsFromIff` | token-provider/src/main/scala/LakehouseFileSystem.scala:81-94 | a path of the service comes back exactly when it is in the lakehouse, and not its root with a trailing slash |
| `LakehouseFs.TakenElsewhereIff` | token-provider/src/main/scala/LakehouseFileSystem.scala:74-87 | a path with a scheme is taken where it says exactly when it is in the lakehouse; one that `checkPath` accepts is not exactly when it is another lakehouse's |
| `LakehouseFs.Filesystem.CreateFile` | token-provider/src/main/scala/LakehouseFileSystem.scala:123-126 | refused with nothing changed exactly outside writethrough; in it the service is asked the same of the inner path that shows as the caller's, and nothing outside the lakehouse differs |
| `LakehouseFs.Filesystem.AppendFile` | token-provider/src/main/scala/LakehouseFileSystem.scala:127-128 | the same of append |
| `LakehouseFs.Filesystem.RenameFile` | token-provider/src/main/scala/LakehouseFileSystem.scala:129-130 | the same of rename, of both its paths |
| `LakehouseFs.Filesystem.DeleteFile` | token-provider/src/main/scala/LakehouseFileSystem.scala:131-132 | the same of delete |
| `LakehouseFs.Filesystem.MakeDirs` | token-provider/src/main/scala/LakehouseFileSystem.scala:133-134 | the same of mkdirs |
| `LakehouseFs.Filesystem.ChangePermission` | token-provider/src/main/scala/LakehouseFileSystem.scala:135-136 | the same of setPermission |
| `LakehouseFs.Filesystem.ChangeOwner` | token-provider/src/main/scala/LakehouseFileSystem.scala:137-138 | the same of setOwner |
| `LakehouseFs.Filesystem.ChangeTimes` | token-provider/src/main/scala/LakehouseFileSystem.scala:139-140 | the same of setTimes |
| `LakehouseFs.Filesystem.Session` | token-provider/src/main/scala/LakehouseFileSystem.scala:103-140 | over any sequence of operations: outside writethrough all are refused and nothing changes; in it each is the service's own, none is refused, and nothing outside the lakehouse differs |
| `LakehouseFs.OtherLakehousesKept` | token-provider/src/main/scala/LakehouseFileSystem.scala:12-22 | what stays in one lakehouse leaves every path of another as it was |
| `WritePolicy.NonInterference` | token-provider/src/main/scala/OneLakeCatalog.scala:171-333 | in sandbox and readonly, over any run of touches, creates and replaces without a OneLake location, table writes and changes to the local disk, OneLake is at every moment what it was and every registered table is local or a view |
| `WritePolicy.StepIsShielded` | token-provider/src/main/scala/OneLakeCatalog.scala:171-333 | each single operation keeps that |
| `WritePolicy.MaterializedIsShielded` | token-provider/src/main/scala/OneLakeCatalog.scala:181-206 | a materialized table can be written on OneLake exactly in writethrough, and materializing changes nothing there |
| `WritePolicy.RefusedChangesNothing` | token-provider/src/main/scala/OneLakeCatalog.scala:196-257 | whatever is refused, or names nothing, leaves what is stored as it was; and the catalog too, except that a refused write has registered the view that refuses it |
| `WritePolicy.WritethroughWrites` | token-provider/src/main/scala/OneLakeCatalog.scala:181-182 | in writethrough a first write to a table changes exactly that table on OneLake |
| `WritePolicy.SandboxKeepsWrites` | token-provider/src/main/scala/OneLakeCatalog.scala:184-206 | what is written to a table outside writethrough is what it reads as, in that session and in a later one that keeps the shadows and spells the table the same |
| `WritePolicy.OtherSpellingReads` | token-provider/src/main/scala/OneLakeCatalog.scala:153-206 | in a later session that spells it in another case it reads as that when the directory is the same, and otherwise as if it had not been written |
| `WritePolicy.SpelledOtherwise` | token-provider/src/main/scala/OneLakeCatalog.scala:153-206 | so `lh.T` does not read what was written to `lh.t`: a concrete run |
| `WritePolicy.CreateKeepsOtherIff` | token-provider/src/main/scala/OneLakeCatalog.scala:238-257 | a create leaves what another registered table reads alone exactly when that is at another location or says the same already |
| `WritePolicy.WriteKeepsOtherIff` | token-provider/src/main/scala/OneLakeCatalog.scala:181-206 | and so does a write |
| `WritePolicy.TouchKeepsOther` | token-provider/src/main/scala/OneLakeCatalog.scala:171-206 | a touch leaves what every other table reads alone |
| `WritePolicy.NamesakeIsOverwrittenIff` | token-provider/src/main/scala/OneLakeCatalog.scala:153-257 | a table created in the sandbox takes the place of one touched before exactly when both are of one lakehouse and its name is the other's, with the schema and a dot in front where the other has a schema; its own schema does not count |
| `WritePolicy.NamesakeIsOverwritten` | token-provider/src/main/scala/OneLakeCatalog.scala:153-257 | creating `lh__dbo.t` in the sandbox overwrites what `lh.t` reads: a concrete run |
| `WritePolicy.NamesakeOnOneLake` | token-provider/src/main/scala/OneLakeCatalog.scala:246-257 | and in writethrough the table `lh.t` on OneLake: a concrete run |
| `WritePolicy.Isolation` | token-provider/src/main/scala/OneLakeCatalog.scala:153-333 | over any run in sandbox and readonly, a registered lakehouse table reads as before whatever is done to tables that cannot be given its directory: those of other lakehouses, and those that share neither name nor schema-and-name with it |
| `WritePolicy.ReplacedIsReadBackIff` | token-provider/src/main/scala/OneLakeCatalog.scala:153-257 | a lakehouse table replaced in the sandbox reads as what was put in it; in a later session that keeps the shadows it still does exactly when its database has no schema, or the table it then reads says the same |
| `WritePolicy.ReplacedIsForgotten` | token-provider/src/main/scala/OneLakeCatalog.scala:153-257 | a replaced `lh__dbo.t` reads as before in the next session: a concrete run |
| `WritePolicy.Runtime.Materialize` | token-provider/src/main/scala/OneLakeCatalog.scala:171-212 | the table is registered as itself exactly in writethrough and as a view exactly where it must be one; it reads as its shadow where there was one and as the OneLake table otherwise; nothing stored is changed, and only the shadow is added |
| `WritePolicy.ResolveIs` | token-provider/src/main/scala/OneLakeCatalog.scala:80-150 | a table is looked up in its lakehouse's own workspace, below Tables/ and its schema: by the name as it is spelled, and if there is none by the name the listing of the same place has for it |
| `WritePolicy.PlacesAre` | token-provider/src/main/scala/OneLakeCatalog.scala:154-258 | a touched table of a schema is materialized below the shadow root in a directory named by the schema, a dot and the table; a create puts the table in a directory of its own name alone, in writethrough under Tables/ on OneLake, at the location given if there is one, and is refused in readonly |
| `WritePolicy.Runtime.LoadTable` | token-provider/src/main/scala/OneLakeCatalog.scala:214-232 | a touch gives back what is registered, materializes what resolves, and outside writethrough leaves OneLake and the shield as they were |
| `WritePolicy.Runtime.CreateTable` | token-provider/src/main/scala/OneLakeCatalog.scala:238-333 | refused exactly for a lakehouse table in readonly; otherwise it reads as what was put in it, only its entry and what is stored at its location differ, and it is on OneLake only where the caller's location is or in writethrough |
| `WritePolicy.Runtime.WriteTable` | token-provider/src/main/scala/OneLakeCatalog.scala:181-206 | a view refuses; any other table then reads as what was written, and only what is stored at its location differs |
| `WritePolicy.Runtime.Perform` | token-provider/src/main/scala/OneLakeCatalog.scala:171-333 | any operation does what its relation says and outside writethrough keeps OneLake and the shield |
| `OneSession.Session.Run` | README.md:108-113 | outside writethrough nothing reaches OneLake: after any interleaving of statements on tables, operations through the lakehouse filesystem, pushes and lazy writes, and `notebookutils` calls, every part of it is what it was |
| `OneSession.Session.Perform` | README.md:108-113 | the same of each single operation |
| `Automount.SparkEngine.SqlWithAutomount` | src/local_spark_mcp/engine.py:1717-1729 | stops on every SQL engine whose errors name finitely many tables: one answer more than mounts, at most as many mounts as known tables were left, each once and only when an error named it; the result is the last answer, or a mount failed |
| `Automount.SparkEngine.AutomountMissing` | src/local_spark_mcp/engine.py:1702-1715 | mounts the first mountable table the error names, gives up exactly when there is none |
| `Automount.MessageNamesTable` | src/local_spark_mcp/engine.py:1700 | a message that quotes one table names that table and no other |
| `Automount.MessageNamesNext` | src/local_spark_mcp/engine.py:1700 | and what follows the first pair is read on |
| `Automount.ResolveIff` | src/local_spark_mcp/engine.py:743-753 | a lakehouse is found by its very name or, when there is none, as the first whose name differs in case only |
| `Automount.NotFoundIff` | src/local_spark_mcp/engine.py:1707-1709 | either phrase anywhere in a message makes it a missing table |
| `Automount.MountableIff` | src/local_spark_mcp/engine.py:1710-1714 | what can be mounted is a pair of the error under the registered name of its lakehouse |

## Left out

- Strings are ASCII where case or white space matters (`lower`, `strip`, `\w`); Unicode mappings are not modelled.
- JSON, pickled results, Arrow and traceback texts are opaque; warnings of the notebook parser keep the line they name, not their wording.
- Spark, Delta and Azure internals: the session catalog is a map, a clone copies contents, a listing is an oracle.
- The py4j failure in `_drain_jvm_mounts`, which reads as an empty queue, and notices that do not have three fields.
- `Contexts`: `seeded` names, default lakehouses, temporary views and Spark session settings of a context; which statements of a cell write to its own namespace and which to the active one, once it has run a notebook; each request, cell start, cell end and watchdog check is one atomic step; the two-minute limit of a watchdog.
- `Session`: a thread that keeps writing to a tee after its cell ended; the control socket, whose replies are not matched by id; send failures.
- `ShadowLog`: lines that are JSON but no object; `"commitInfo"` inside other text; checkpoints of several parts or not in parquet, URL-encoded paths, names of commit and checksum files.
- `Scheduler`: Python's recursion limit in `visit`; exit values and arguments of activities.
- FileOps.FS.Cp: does not say what a directory copied onto an ancestor becomes when the copy writes into its own source (`FileOps.UntangledIff`): there the order of a listing decides. It still keeps everything but the target.
- FileOps.FS.Rm: does not model Python's recursion limit, which ends it on a tree that deep with part of it removed.
- `FileOps`: with `files_mode = lazy` and writethrough, closing a local file also pushes it, as `Push.Uploader.WriteFile` has it: `FileOps.FS.Write` and what rests on it are for `files_mode = mirror`; `head`, `ls` and mounts; merged listings of the lazy hooks; moves between workspaces; error messages.
- `NotebookFormat`: `select_cells` and `index_notebooks`; reading the file, where Python's `read_text` turns every carriage return into a line end before the parser sees it.
- NotebookRoundTrip.RoundTripIff: line numbers are not compared, because the printed notebook numbers its own lines.
- `NotebookRunner`: switching the default lakehouse around a run; previews and stdout of results; empty error texts count as no error, as in the source.
- `Mirror`: listings and `stat` of the lazy hooks; local writes to a mirrored file, after which a read-open may fetch over them; modification times of zero.
- `Push`: writes of others to OneLake meanwhile; files where OneLake has a directory; opening with `x` or `+`; an upload that fails halfway.
- `LakehouseFs`: which of Hadoop's own methods call `checkPath` before they reach an operation; what the storage service makes of a call, beyond that it stays around the paths it is given; reads.
- `WritePolicy`: statements that name an abfss:// path themselves; whether Spark accepts a create of a table that is there already; dropping and discarding shadows; a shadow root whose file system ignores case; first-touch interleavings are in `FirstTouch`.
- `OneSession`: each component has its own part of OneLake, so what one writes there in writethrough is not seen by another.
- `FirstTouch`: dropping tables; the caches of `resolveOneLake` are an oracle.
- `Names`: percent-encoding and `..` in paths; Hadoop's own normalization of paths.
- MCP tools, server, configuration, discovery, credentials, health checks and process set-up.
