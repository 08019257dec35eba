# DBCanvas, modelled and proved in Dafny

DBCanvas runs database servers in containers and lets people watch, drive and measure
them. This project models the parts of it that carry the hard logic and proves what they
promise, for every input and every run:

- **The view-only VNC filter.** A watcher's bytes arrive in arbitrary pieces; the filter
  forwards only what a viewer may send. `RfbProtocol` is the client side of RFB as a
  grammar, `ViewFilter` the incremental machine and the relay around it,
  `ViewFilterProofs` the proof that the machine parses exactly that grammar.
- **The All-in-One planner.** Many servers share one container. `AioCatalog`, `AioPlan` and
  `AioPlanProofs` cover slots, ports, member ids and Group Replication seed lists;
  `AioMongo` the sharded topology; `AioCtl` the order in which instances start and stop, and
  `AioStart` what that means for a planned cluster; `TlsConf` and `TlsBlocks` the rewriting
  of a mongod.conf.
- **Deep instrumentation.** `DeepInstrumentation` switches performance_schema on for a
  while and back; `DeepProofs` shows, over whole runs with failures, crashes, restarts and
  the timer, exactly which steps leave something on with nothing to put it back.
- **The benchmark engine.** `BenchLoader` loads data in batches, `BenchRun` is a run with
  its workers and stop requests as one state machine, `BenchStats` its bookkeeping.
- **Lock waits** (`MetadataLocks`) and two **decoders** (`Codecs`). `Prelude` holds what several modules share.

Integers are unbounded except where the width is the point: the clipboard length of a VNC
message is a Go int32 that wraps on negation, and device numbers are 64-bit words.
Randomness, failures, cancellations and the results of system calls are arbitrary inputs
or arbitrary choices, so what is proved holds for all of them.

Findings where the code does not do what one would first expect, each with the exact
condition proved:

- A clipboard message with the length field 0x80000000 gets a negative size, and cutting
  the buffer at it panics; what the same call had already let through is lost. How a
  stream is cut into pieces makes no difference exactly when the stream does not reach
  such a message (`CutsAgreeExactly`, `PoisonExample`).
- The filter waits for the rest of bytes that can no longer become an item: a version text
  that is already wrong, or a clipboard length that is already too large. Which those are
  is said exactly (`LeftoverIsUnfinished`, `HopelessLeftovers`).
- Declaring an instance id again moves ports that were already planned, unless the new
  declaration happens to begin at the same slot (`AddingMovesNothing`, `ReuseMoves`). When
  shared ids make ports collide is said exactly (`DisjointExactly`).
- Deep instrumentation can be left on with no record of it. The promise of
  app/activitydeep.go:14-22 holds all through a run if and only if every step is safe when
  it is taken (`AlwaysOnRecord`), and the unsafe steps are these:
  - a switch-off, or a look of the timer once the time is up, for which `dbConnFor` gives
    no connection while something is on. The comment on line 156 takes this to mean that the
    server restarted, but app/datagen.go:114-118 says no on any deployment that is not
    running or provisioning. During an All-in-One redeploy the deployment is pending and
    has no container id (app/aio.go:373) although the server goes on running; if the
    application dies then, app/main.go:104 marks the deployment failed just before the timer
    starts, so the restart that is meant to revert drops the record instead
    (`DisableExactly`, `RunsThatLeaveItOn`);
  - a look of the timer that fails to load the stack, for any reason (app/store.go:723-744,
    app/activitydeep.go:176-180), while something is on (`SweepExactly`, `RunsThatLeaveItOn`);
  - a switch-on that cannot read the record there is (app/activitydeep.go:35 ignores the
    error) while something is on: it records the instrumented server as the original
    (`OverwrittenExactly`, `RunsThatLeaveItOn`);
  - a script to switch on that fails after its first statement took effect, when the record
    is then deleted (`FailedApplyExactly`).
- Two metadata-lock waits can share the text they are remembered by, when a schema name
  begins with a digit; one of them is then lost (`ExactlyWhen`, `KeysCollideExactly`,
  `DigitNamesCollide`).

The comment on `do_units` in app/aio_ctl.go says that stop and restart walk the list in
reverse; the code reverses for stop only, and the model follows the code.

## Model

| member | source | states |
|---|---|---|
| `ViewFilter.Filter.Advance` | app/browsevnc.go:41-97 | one turn of the loop takes one whole item off the buffer, waits, refuses or crashes |
| `ViewFilter.Filter.Feed` | app/browsevnc.go:37-99 | feeding any bytes reaches exactly the state, verdict and output of the whole-stream run over everything buffered |
| `ViewFilter.Relay` | app/browsevnc.go:205-222 | the relay sends what feeding the pieces in turn lets through, and stops at the first refusal |
| `ViewFilterProofs.SizedIsMessage` | app/browsevnc.go:103-152 | a positive size cuts exactly one well-formed RFB message off the front, passed exactly if it is harmless |
| `ViewFilterProofs.MessageIsSized` | app/browsevnc.go:103-152 | every well-formed message is sized exactly, whatever follows it |
| `ViewFilterProofs.CutTextSizes` | app/browsevnc.go:131-142 | which clipboard length fields are sized, which one is negative, and that all others are refused |
| `ViewFilterProofs.RunIsParse` | app/browsevnc.go:38-99 | a run's input is a legal session stretch plus the leftover, and its output is the visible part of that stretch |
| `ViewFilterProofs.ParseIsRun` | app/browsevnc.go:38-99 | conversely every legal stretch is consumed whole, whatever follows |
| `ViewFilterProofs.StepStable` | app/browsevnc.go:103-109 | a decision on a message is never revised by later bytes |
| `ViewFilterProofs.DeliverIsRun` | app/browsevnc.go:30-39 | however the stream is cut, verdict, stage, leftover and output are those of the whole stream; after a crash the output is a prefix of it |
| `ViewFilterProofs.CrashIsPoison` | app/browsevnc.go:131-142 | the filter crashes exactly on streams that reach a clipboard message of length 0x80000000 |
| `ViewFilterProofs.CutsAgreeExactly` | app/browsevnc.go:30-99 | all ways to cut a stream agree on output and verdict if and only if it does not reach that message |
| `ViewFilterProofs.PoisonExample` | app/browsevnc.go:131-142 | a concrete stream that sends nothing in one piece and the handshake in two |
| `ViewFilterProofs.NoneLost` | app/browsevnc.go:30-99 | a run that did not crash sent the visible part of everything the client sent, up to a leftover that does not begin with an item |
| `ViewFilterProofs.FatalPiece` | app/browsevnc.go:131-142 | a run that crashed did so on one piece, and sent what the pieces before it let through |
| `ViewFilterProofs.DesktopSeesSession` | app/browsevnc.go:75-97 | for every run the desktop gets the visible part of a legal session the client sent (shared flag 1, harmless messages only, in order): all of it if the filter did not crash, all that came before the fatal piece if it did |
| `ViewFilterProofs.FilterTwice` | app/browsevnc.go:13-26 | filtering the output again, in any pieces, leaves it unchanged with nothing left over |
| `ViewFilterProofs.RefusalSticks` | app/browsevnc.go:48-50 | after a refusal every further feed refuses again and lets nothing through |
| `ViewFilterProofs.RefusalIsFinal` | app/browsevnc.go:139-151 | no continuation of refused bytes begins with a legal item |
| `ViewFilterProofs.TakenWhole` | app/browsevnc.go:83-97 | whatever continuation completes an item, the take ends at its last byte |
| `ViewFilterProofs.LeftoverIsUnfinished` | app/browsevnc.go:41-50 | what is held back is a strict beginning of some legal item if and only if a version still agrees with "RFB 003." and is not 3.3, and a clipboard length cut short does not already exceed 16 MiB |
| `ViewFilterProofs.HopelessLeftovers` | app/browsevnc.go:131-142 | concrete bytes that wait although no item begins with them |
| `ViewFilterProofs.StepExactly` | app/browsevnc.go:41-97 | said of the grammar alone: one turn takes exactly when an item is here, waits exactly while the header is not all here or an item is unfinished, crashes exactly on the fatal length, and refuses exactly everything else |
| `ViewFilterProofs.RefusedExactly` | app/browsevnc.go:47-70 | a stream is refused if and only if it comes, after a legal stretch of a session, to bytes whose header is here and that neither hold nor begin an item |
| `ViewFilterProofs.RelayClosesExactly` | app/browsevnc.go:205-222 | the relay closes on a watcher if and only if the watcher's stream comes to such bytes, however it is cut up |
| `ViewFilterProofs.VersionDecided` | app/browsevnc.go:42-54 | fewer than twelve bytes wait, and twelve or more of a version that is not accepted are refused at once |
| `ViewFilterProofs.ForwardedExactly` | app/browsevnc.go:103-152 | of a whole message all the bytes or none are forwarded, and its first byte alone decides which |
| `AioCatalog.MemberCount` | app/aio_ports.go:110-143 | at least one daemon, within the kind's bounds, and only the fixed totals for a sharded cluster |
| `AioCatalog.CountHonoured` | app/aio_ports.go:110-143 | an accepted count is taken as it is, others snap, between two fixed totals to the lower one, and snapping twice changes nothing |
| `AioCatalog.ListPorts` | app/aio_ports.go:330-341 | ascending, and every non-zero port as often as it is a field |
| `AioPlan.AssignSlots` | app/aio_ports.go:343-360 | the slot map, and running counters that end at the validator's own counts |
| `AioPlan.CountSlots` | app/aio_ports.go:362-372 | the slots a family's instances take |
| `AioPlan.Plan` | app/aio.go:161-204 | one daemon per member of every known instance, with its id, group, role and ports |
| `AioPlanProofs.SlotMapAt` | app/aio_ports.go:343-360 | an instance's slots begin right after those of the earlier instances of its family |
| `AioPlanProofs.SlotsAreDaemons` | app/aio_ports.go:362-372 | a family uses exactly as many slots as the plan has daemons of it |
| `AioPlanProofs.SlotsInOrder` | app/aio_ports.go:343-360 | with distinct ids the k-th daemon of a family, counted from zero in the plan, stands at the family's base plus ten times k |
| `AioPlanProofs.PortOffsets` | app/aio_ports.go:293-328 | which port stands where in a slot, family by family |
| `AioPlanProofs.SeedIsFirst` | app/aio.go:206-250 | the first member of a cluster and no other is its seed or router; who is a primary, a replica, a bootstrap member, part of a sharded topology or a standalone |
| `AioPlanProofs.MemberNames` | app/aio_layout.go:175-184 | a standalone goes by its name, a cluster's members by theirs with -n and their number from one in decimal |
| `AioPlanProofs.PortsDisjoint` | app/aio_ports.go:257-328 | with distinct ids and at most 100 slots a family, no two daemons share a port |
| `AioPlanProofs.PortsSound` | app/aio_layout.go:115-169 | a daemon's ports are distinct, inside its family's range, and none is a default port |
| `AioPlanProofs.DisjointExactly` | app/aio_ports.go:257-360 | for every list of instances, shared ids or not and of any size, no two daemons share a port if and only if the blocks of ten ports that the instances end up with do not overlap |
| `AioPlanProofs.SharedIdCollides` | app/aio_ports.go:343-360 | two instances of a family under one id always collide |
| `AioPlanProofs.SharedAcrossCollides` | app/aio_ports.go:343-360 | an id shared across families can put a server on an occupied slot |
| `AioPlanProofs.SharedAcrossHarmless` | app/aio_ports.go:343-360 | one server of each of two families can share an id without a collision |
| `AioPlanProofs.AddingMovesNothing` | app/aio_ports.go:343-360 | adding instances leaves the planned daemons as they were if and only if no id is declared again at another slot |
| `AioPlanProofs.ReuseMoves` | app/aio_ports.go:343-360 | a concrete design where adding an instance moves a planned port |
| `AioPlanProofs.MemberIdsDistinct` | app/aio_layout.go:175-184 | with distinct names, member ids are distinct if and only if no standalone is named like a cluster's member |
| `AioPlan.SelectGroup` | app/aio_mysql.go:254-263 | one group's members of a shape, in plan order |
| `AioPlan.ComputeSeeds` | app/aio_mysql.go:466-484 | the seed list recomputed from the design for a group |
| `AioPlanProofs.GroupIsInstance` | app/aio_mysql.go:451-460 | selecting a replicated, Group Replication or Galera group finds one instance's members, all of them, in order |
| `AioPlanProofs.SeedsAgree` | app/aio_mysql.go:466-503 | the seed list equals, in order, the group ports planned for the group's members, and holds the member's own |
| `AioMongo.ShardIndex` | app/aio_mongo.go:223-251 | a member's shard from its position among the shard members, and zero for one that is not among them |
| `AioMongo.ShardGroups` | app/aio_mongo.go:253-267 | shard members grouped by shard, no empty group, none left out |
| `AioMongo.ConfigPorts` | app/aio_mongo.go:351-362 | the client ports of the config servers, in order |
| `AioMongo.ShardPartition` | app/aio_mongo.go:223-267 | for every number n of members the groups are keyed 0 to min(n,3)-1, in order make up the member list, and have n/3 members each, the last one what is left |
| `AioMongo.PlannedRoles` | app/aio.go:234-247 | router, config servers and shards of a planned cluster are consecutive stretches of its instance |
| `AioMongo.ShardedLayout` | app/aio_mongo.go:183-203 | for both totals the roles add up to the total, and the config replica set is as large as each shard |
| `AioMongo.PlannedShards` | app/aio_mongo.go:198-267 | every planned cluster has three shards of equal, planned size |
| `AioCtl.InstsIn` | app/aio_ctl.go:172-181 | a group's instances, stably sorted by rank |
| `AioCtl.StableSortUnique` | app/aio_ctl.go:172-181 | sorted by rank with registry order inside each rank: there is only one such list |
| `AioCtl.GroupOrder` | app/aio_ctl.go:172-181 | bootstrap, primary and config members come before all others of a group and mongos after all others, each in registry order |
| `AioCtl.Resolve` | app/aio_ctl.go:196-209 | what a selector expands to, or that it is unknown |
| `AioCtl.ResolutionMeans` | app/aio_ctl.go:196-209 | a name stands for its group's instances if it has any, else for the instance of that name, and is unknown exactly if there is neither |
| `AioCtl.StartAllIsEverything` | app/aio_ctl.go:183-204 | resolving "all" is a permutation of the registry |
| `AioCtl.StartAllByGroup` | app/aio_ctl.go:184-204 | "all" starts each group in the group's own order and the ungrouped instances as registered |
| `AioCtl.StartAllInTurn` | app/aio_ctl.go:184-204 | "all" takes whole groups one after another in the order in which they first appear, the ungrouped instances last |
| `AioCtl.DoUnits` | app/aio_ctl.go:245-274 | every resolved instance is attempted once in start order, in exact reverse when stopping, failures or not |
| `AioStart.WriteRegistry` | app/aio.go:697-722 | the registry's instance, group and role columns are the plan row by row, an empty or blank group written as a dash |
| `AioStart.ClusterStartOrder` | app/aio_ctl.go:172-181 | a planned cluster starts in plan order with its seed first; a sharded one with its config servers, then its shards, its router last |
| `TlsConf.Rewrite` | app/aio_tls.go:226-256 | one pass writes the kept lines with a fresh block after each net: line |
| `TlsBlocks.KeptIsOutside` | app/aio_tls.go:231-247 | the lines kept are exactly those outside the old TLS blocks under net:, in order; a block is said by which lines are deeper than its opening, not by how the script walks |
| `TlsBlocks.NeverDropped` | app/aio_tls.go:231-247 | whatever the file looks like, no blank line and no line without indentation is dropped |
| `TlsBlocks.OnlySpacesStay` | app/aio_tls.go:239-243 | a block opens only on a line that begins with a space, and other text closes the section, a tab too |
| `TlsConf.WritingReplaces` | app/aio_tls.go:219-256 | writing d1 then d2 equals writing d2 alone if and only if the first line kept under each net: is blank or indented by two at most |
| `TlsConf.WritingOften` | app/aio_tls.go:219-256 | for every sequence of two or more writings only the last one shows, if and only if the same holds |
| `TlsConf.RenderedIsSafe` | app/aio_mongo.go:314-349 | configurations indented as rendered lose nothing, for every sequence of writings |
| `TlsConf.BlockSettings` | app/aio_tls.go:248-253 | looked up by name, the block's settings are preferTLS, the key file server.pem and the authority ca.pem in the directory |
| `TlsConf.OneBlockForEachNet` | app/aio_tls.go:231-253 | written into a rendered configuration there is exactly one block for every net: line |
| `DeepInstrumentation.Reverter.Probe` | app/activitydeep.go:84-102 | the record lists exactly what is switched off, with its present settings |
| `DeepInstrumentation.Reverter.Enable` | app/activitydeep.go:62-132 | the state after switching on, for every place it can fail or crash, with the record readable or not and deleted or not after a failed script; other nodes untouched |
| `DeepInstrumentation.Reverter.Disable` | app/activitydeep.go:134-158 | the state after switching off, for every place it can fail, with the record readable or not and a connection or not, whether or not the server is up |
| `DeepInstrumentation.Reverter.Sweep` | app/activitydeep.go:160-195 | one timer round deals with every key it could list on its own, with both reads of the record and the look-up of the stack failing or not; a node whose time is not up is left as it is |
| `DeepProofs.RevertRestores` | app/activitydeep.go:141-154 | the whole revert script restores whatever a truthful record covers, from any partly reverted state |
| `DeepProofs.OwedExactly` | app/activitydeep.go:19-22 | while the promise holds the server has its original setup if and only if every recorded row has its recorded setting |
| `DeepProofs.EnableExactly` | app/activitydeep.go:62-132 | a switch-on keeps the promise if and only if it stores no new record, or nothing is owed and no statement took effect before a deletion |
| `DeepProofs.DisableExactly` | app/activitydeep.go:134-158 | a switch-off keeps the promise if and only if it does not drop a record without a connection while something is owed |
| `DeepProofs.SweepExactly` | app/activitydeep.go:160-195 | a look of the timer keeps the promise if and only if, in addition, it does not drop one for a stack it failed to load while something is owed |
| `DeepProofs.AlwaysOnRecord` | app/activitydeep.go:14-22 | whatever differs from the original setup is on record with its original setting at every point of a run if and only if every step was safe, in the sense of the three rows above, when it was taken |
| `DeepProofs.SwitchOffRestores` | app/activitydeep.go:134-158 | after any safe run a completed switch-off with a connection to a running server restores the setup exactly, without a connection if and only if nothing was owed; a look of the timer once time is up does the same |
| `DeepProofs.OnUntilItsTime` | app/activitydeep.go:181-187 | after a completed switch-on everything deep is on and stays on, with its record, through any looks of the timer before its time, and a completed look from that time on restores the original setup |
| `DeepProofs.ExtendedUntilItsTime` | app/activitydeep.go:68-74 | switching on again moves only the time, sooner or later, and then the new time counts |
| `DeepProofs.RecordComesFirst` | app/activitydeep.go:119-130 | without a stored record nothing is changed, and right after storing it nothing else has been |
| `DeepProofs.StoppedRevert` | app/activitydeep.go:141-154 | a revert that stops after k statements has put back the first k instruments on record and nothing else |
| `DeepProofs.RecordsAlike` | app/activitydeep.go:19-21 | in a safe run every record there ever is lists exactly what the original setup had switched off |
| `DeepProofs.ListsChangeExactly` | app/activitydeep.go:68-74 | a step that leaves a record leaves what it lists, except exactly when a switch-on that could not read it overwrites it while something is owed |
| `DeepProofs.OverwrittenExactly` | app/activitydeep.go:34-44 | a switch-on that cannot read the record keeps the promise if and only if nothing is owed |
| `DeepProofs.DroppedExactly` | app/activitydeep.go:156-157 | dropping a record keeps the promise if and only if nothing is owed |
| `DeepProofs.RunsThatLeaveItOn` | app/activitydeep.go:140-180 | on every server with something to switch on: the runs with no connection, with no stack and with an unreadable record that leave it on without a record |
| `DeepProofs.LeftOnExample` | app/activitydeep.go:84-87 | a concrete server of that kind |
| `DeepProofs.FailedApplyExactly` | app/activitydeep.go:119-130 | after a script that failed having run k statements the promise holds if and only if k is zero or the record was not deleted |
| `BenchLoader.Loader.InsertBatch` | app/benchmark.go:468-474 | one statement, or none for no rows; it fails exactly if it is refused; the keys hold after it |
| `BenchLoader.Loader.Flush` | app/benchmark.go:523-535 | orders before items; the counter moves by exactly the rows inserted |
| `BenchLoader.Loader.Load` | app/benchmark.go:476-560 | foreign keys hold after every statement, all statements are within bounds and the counter is never ahead of the rows, however the load ends; it ends early only if a statement was refused or a cancellation was found; on completion the batches were full but for the last of each kind, every id is there once and in order, every order with the one to four items it says, and the counter is short by exactly the two remainders |
| `BenchLoader.LoadAtScale` | app/benchmark_run.go:175-180 | at every scale all four tables hold their ids once and in order, every order its items, and the progress counter ends at exactly the rows inserted |
| `BenchRun.IdsDistinct` | app/benchmark_run.go:350-365 | under every interleaving, order and item ids only increase, above every id found at the start, and every item belongs to an allocated order |
| `BenchRun.CountersStart` | app/benchmark_run.go:350-365 | the counters start at the largest ids found, for orders at the number loaded if that is larger |
| `BenchRun.FourItemsAtMost` | app/benchmark_run.go:452-470 | under every interleaving an order has the items asked for that are not still to come, and never more than four |
| `BenchRun.AlwaysSound` | app/benchmark_run.go:452-470 | after every schedule the ids handed out are consecutive from the start, and the phase agrees with where the run is |
| `BenchRun.EndIsFinal` | app/benchmark_run.go:189-201 | once the end is set the phase is done, error or stopped, and nothing changes it |
| `BenchRun.EndVerdict` | app/benchmark_run.go:189-201 | read off the schedule: error if it failed before it returned, else stopped if and only if a cancel is in it, else done |
| `BenchRun.StateOfSchedule` | app/benchmark_run.go:161-201 | whether a run is cancelled, at work or failed can be read off its schedule, and so can its phase until it fails or ends |
| `BenchRun.StopCanComeTooLate` | app/benchmark.go:238-252 | a stop that marks the phase before the run finishes, and cancels after, ends as done |
| `BenchStats.LatAcc.Rec` | app/benchmark_run.go:36-53 | recording one latency |
| `BenchStats.SampleSound` | app/benchmark_run.go:36-53 | the sample holds min(count, capacity) values, each from a different recording; count and sum are exact |
| `BenchStats.SlotHoldsLast` | app/benchmark_run.go:47-51 | each slot of the sample holds the last recording that filled it or drew it |
| `BenchStats.ExtremesSound` | app/benchmark_run.go:41-46 | the minimum is exact, and the maximum exactly when some latency is not negative |
| `BenchStats.Runs.Register` | app/benchmark_run.go:128-137 | registering a run and evicting the oldest |
| `BenchStats.RegisterKeeps` | app/benchmark_run.go:128-137 | keys and list stay in step if and only if the evicted run is not listed again |
| `BenchStats.RegistryIsRecent` | app/benchmark_run.go:122-137 | with fresh ids: the most recent 200, each key with its run |
| `BenchStats.PickOp` | app/benchmark_crud.go:191-214 | the weights are clamped in place, the draw chooses its stretch, the fallback is not reached |
| `BenchStats.ChoiceIsProportional` | app/benchmark_crud.go:191-214 | each operation is chosen by exactly as many draws as its clamped weight |
| `MetadataLocks.Collect` | app/activity.go:394-403 | granted and pending locks by table, in row order |
| `MetadataLocks.Blockers` | app/activity.go:418-439 | one pending request's waits: exactly those for its conflicting holders, else for the strong requests queued with it, with both modes and whether the blocker is queued |
| `MetadataLocks.MdlWaits` | app/activity.go:386-441 | in any map order: the waits of all pending requests in turn, the first under each key; each is of the relation and carries the modes of the two locks that make it one, and every key of the relation is there |
| `MetadataLocks.FirstIsKept` | app/activity.go:405-417 | of the waits under one key the first is the one that is kept |
| `MetadataLocks.PileUp` | app/activity.go:382-385 | an ALTER waits for the reader of its table, later readers wait for the ALTER, and nobody waits for anyone else |
| `MetadataLocks.ExactlyWhen` | app/activity.go:405-411 | the output is the relation, each wait once, if and only if the keys tell its waits apart |
| `MetadataLocks.KeysCollideExactly` | app/activity.go:405-411 | for numeric threads two waits share a key if and only if they have one waiter and one blocker extends the other by text that begins the other's object |
| `MetadataLocks.PlainNamesAreExact` | app/activity.go:405-417 | the output is exact for numeric threads and schema names that do not begin with a digit |
| `MetadataLocks.ShiftedCollide` | app/activity.go:405-411 | for every such pair of blockers and objects, a snapshot whose two waits share a key |
| `MetadataLocks.DigitNamesCollide` | app/activity.go:150 | a concrete one, with schema-qualified names |
| `Codecs.UnquoteSQL` | app/datagen_mysql.go:110-121 | pairs of quotes read as one |
| `Codecs.LoneQuotesStay` | app/datagen_mysql.go:110-121 | a string without two quotes in a row is left as it is |
| `Codecs.ParseEnumType` | app/datagen_mysql.go:98-108 | the unquoted bodies of all matches |
| `Codecs.ParsePrinted` | app/activitydeep.go:54-60 | parsing what was printed with doubled quotes returns the members, for every list of strings |
| `Codecs.DecodeDev` | app/blkio.go:200-209 | every 32-bit major is recovered, and the minor if and only if the major fits in twelve bits |

## Left out

- Containers, package installs, systemd, SQL scripts and the HTTP and WebSocket handlers: calls into other systems.
- The All-in-One redeploy (which members count as fresh, and when they are marked ready): it rests on stored state that is rewritten elsewhere.
- The validation messages, the form's catalog of labels and memory estimates, exports and web endpoints: lookups.
- Name sanitising: an instance carries its sanitised name, and distinct names means distinct after sanitising.
- The catalog's tables (families, member bounds, port bases, default ports, the patterns of the deep instruments) are taken over as they are; what is proved is about what is done with them.
- `markWaiting`, session wait times and the other parts of the activity snapshot: easy members.
- Counter overflow at 64 bits in `initCounters` and `insertOrder`: the counters are unbounded here.
- Floating-point latencies: reals, so sums are exact; the reservoir's draws are arbitrary, so nothing is said about their distribution.
- The regular expression of `parseEnumType` is modelled as the leftmost, greedy match with backtracking that it denotes; strings are sequences of characters.
- The mongod.conf rewriter works on lines: reading and writing the file, and white space outside ASCII, are not modelled.
- `BenchRun` lets the executing goroutine set any active phase at any time while it works, which covers the real order and more; the MongoDB path sets phases the same way.
- `DeepProofs.AlwaysOnRecord`: assumes that requests for one node are serialised (the code takes no lock; two switch-ons that overlap amount to one that cannot read the record), that each UPDATE takes effect as a whole or not at all, that a server that stops or restarts returns to its original setup, and that nobody else changes the setup.
- `AioStart.WriteRegistry`: keeps only instance, group and role of the twelve columns, because the control script orders instances by these; white space is the ASCII kind.
- `AioPlanProofs.PortsDisjoint`: distinct ids and the 100-slot limit are taken as given; the 100-slot limit is what validation enforces, distinct ids it does not check (`DisjointExactly` needs neither).
