# Cluster Nova Federation: migration, election and scheduling

A model, in Dafny 4.11, of how the federation agent moves a virtual machine from one OpenStack cluster to
another, how the agents elect a master, and how the master's scheduler drains loaded clusters. The theorems
are about all inputs, all interleavings and all points at which an external call can fail.
`dafny verify dfyconfig.toml` checks the whole project.

## The parts

**Outside world** (`Clusters.dfy`). Every call the engine makes to Ceph, OpenStack, FRR, the database, libvirt
or another agent goes through one function, `After`. It appends an entry to a trace and, if the call was
accepted, changes the explicit state: which images are primary at the source and at the destination, which
prefixes each side announces, the migration's database row, the event log, the volumes registered. An oracle
`Env` decides by position in the trace which calls raise, which calls to another agent are refused by a reply,
what text each mirror status prints, and how far behind each mirror really is. The engine sees only the text. A call that raises has no effect. A refused call has none either, and the caller
cannot tell it from a success, because the engine drops the reply.

**Migration protocol** (`Protocol.dfy`, `Engines.dfy`). A run is a sequence of commands executed until one
raises or asks to stop; then the failure path marks the row and unwinds the rollback stack. `ColdProgram` and
`LiveProgram` are the sequences of the two engines. `Interrupt` is a call to `abort` by somebody else. The
theorems allow any number of interrupts at any position of the sequence.

**The engine as written** (`Clients.dfy`, `Engine.dfy`). The classes carry the original's fields and loops, and
each method is proved to do exactly what its command sequence says, down to the state left behind when any one
call raises. `MigrationEngine.RunCold` and `RunLive` connect the two whole runs to `Run`.

**Discipline** (`Discipline.dfy`). What may follow what, stated once. The primary map, deletion safety, staleness and the
source's announcements are proved for every sequence that keeps the discipline, with aborts woven in at any place;
`Engines.EnginesFollow` shows that both engines keep it.

**Results about migrations.** `Primaries.dfy` (who holds each image), `Deletion.dfy` (when the source VM may be
deleted), `Staleness.dfy` (how far behind a mirror can be at its demote), `Journal.dfy` (event log and row),
`Routes.dfy` (announcements), `Volumes.dfy` (what cut-over registers), `Polling.dfy` (the wait loops) and
`Results.dfy` (all of it for the two engines themselves), `Compensation.dfy` (what a failure path calls), `Addresses.dfy`
(announcements over whole runs), `Requests.dfy` (what a run asks of the outside, how often and when) and `Aborts.dfy` (what
an abort stops and what it breaks). `Traces.dfy` is the shared tool: the world is a
function of its trace, so that what a run did can be read off the calls it made.

**Election** (`Election.dfy`, `RaftElection.dfy`). Any number of nodes and one etcd key. Starting an acquisition,
creating a lease, the compare-and-swap, recording its answer, refreshing, expiring, revoking, `force_elect`, stopping and
crashing are separate steps in any order, so a win in etcd that the node has not recorded yet is a reachable
state, and so is a compare-and-swap made by a thread whose loop has been cancelled. The class `RaftElection`
has the original's fields; each of its methods is one step of the system.

**Agents** (`Agent.dfy`). The election again, with an agent on top of every node. Its callback is invoked when the role
has already changed, awaits the database and only then sets the scheduler's flag, so invocation and completion are
separate steps; every run of the agents is shown to be a run of the election underneath.

**Scheduler and kernels** (`Scheduler.dfy`, `MirrorText.dfy`, `Text.dfy`, `Metrics.dfy`).

## Where the code differs from what it says

The model follows the code. These are proved, not assumed.

- The live cut-over comments "wait for zero lag", but `max_lag_bytes or default` reads zero as the default
  threshold, so the wait accepts any lag up to that (`Staleness.ZeroLimitMeansDefault`).
- The BGP rollback is handed the destination's stub where it wants the source's, so it announces the prefixes at
  the destination again. With the source's stub it restores what the hand-off found exactly if the prefixes were
  announced at the source and not at the destination; with the destination's, exactly if it was the other way round
  (`Routes.RollbackRestoresIff`). The live engine registers no BGP rollback. Over whole runs the source never gets
  an announcement back (`Routes.SourceRoutesOnlyShrink`), so after a cold run that fails once its routes are handed over
  they stay at the destination if it has a stub, and are announced by nobody if the source had agreed to withdraw them
  and the destination has none (`Compensation.EngineFailureRoutes`).
- A refused promote and a missing stub go unnoticed. The queue worker builds its engines without stubs; a run
  that completes that way has tried to delete the source VM with every image still primary at the source
  (`Results.EngineCompleted`, `Results.StublessRunMovesNothing`); with a destination that refuses every promote, with
  every image primary nowhere (`Aborts.RefusedPromotesUnnoticed`).
- The disk rollback is registered after the whole demote loop, so a failure inside the loop leaves the images
  demoted so far primary nowhere (`Results.ColdFailurePoints`, `Results.LiveFailurePoints`).
- The rollback force-promotes the source and never demotes the destination: the images primary twice after a
  failure are exactly those the destination had accepted (`Primaries.FailureMap`).
- If marking the row as failed raises, nothing is rolled back (`Primaries.FailureMap`, the escaped case).
- An abort is noticed only by the one check after preflight (`Aborts.EngineQuitsIff`). Once the disk rollback is
  registered it undoes the demotes while the run goes on. The images primary twice are at every point those of which a
  force-promote and a remote promote were both accepted (`Primaries.DoublyPrimaryExactly`); so there are none
  unless an abort arrives after that registration, and if nothing else goes wrong such an abort makes it every
  image of the job (`Aborts.SmoothRunDoublesIff`, with a run of either engine in `Aborts.LateAbortDoubles`).
- `force_elect` answers true whenever the node believes to be master, also with nothing left to revoke
  (`Election.LoserStillForces`); it frees the key exactly if the node holds a live lease
  (`Election.ForceElectFreesIff`).
- The scheduler's master flag is set by callbacks that run after the role has changed, can fail, and act on an object
  created after the election has started. It is the role exactly if the number of callbacks it has not heard of is
  even (`Agent.FlagAgreesIff`); each way to differ is reachable (`Agent.PendingDisagrees`, `Agent.StartupDisagrees`,
  `Agent.FailedWriteReached`). Among agents whose node is not on a dead lease and which have heard of their callbacks at
  most one scheduler acts (`Agent.AtMostOneActs`); without that, whenever one acts, the expiry of one lease lets any other
  resting agent's act beside it (`Agent.TwoSchedulersAct`, with a run from nothing in `Agent.TwoSchedulersReached`).
- A lag that cannot be parsed counts as no lag, and a wait looks at nothing else. When a printed count is read back, and
  when an image that is behind is reported synced, is stated exactly (`MirrorText.PrintedReadsBackIff`,
  `MirrorText.WronglySyncedIff`); the staleness bound needs readings that do not understate, and without them an image
  can be demoted at any lag (`Aborts.UnreadLagIsLost`).
- The monitor of a live migration swallows failing writes, so the engine's own phase can run ahead of its log by more
  than one transition: exactly if neither of its last two transitions was committed (`Journal.AtMostOneAheadIff`,
  `Journal.MonitorRunsAhead`).
- Searching an image name for a volume id is exact for UUIDs, but not for arbitrary ids
  (`Volumes.OwnVolumeIff`, `Volumes.ShortIdsCollide`).

## Hypotheses that are named where they are used

- `Fresh` and `AtSource`: an engine as its constructor leaves it, every image of the job primary at the source.
- `Quiet`: no mirror falls further behind once the source VM has stopped writing.
- `NeverUnderstated`: no reading is below what the mirror really lacks. `Truthful`, that every description tells the true
  count of entries at the client's 4096 bytes each, implies it (`Staleness.TruthfulSuffices`).
- `Unfailing`, `Smooth`: no call raises, mirrors read as within the limits, the VM stops when told, its status fits; for
  `Smooth` it is ACTIVE and the destination refuses nothing. Used to show that such runs complete and what an abort or a
  refusal alone does.
- `AllSucceed`, `ForcesSucceed`, `Readable`: the calls concerned do not fail.
- `strict`: refreshing a lease that etcd has ended raises. The etcd client library is not part of this model, and
  the code drops the library's reply; `Election.QuietRefreshKeepsStale` shows that the hypothesis is needed.

## Model

| member | source | states |
|---|---|---|
| Engine.MigrationEngine.Transition | cnf/migration/engine.py:91-113 | the engine's own phase moves first; row and event log follow only if the database call does not raise |
| Engine.MigrationEngine.RunRollbacks | cnf/migration/engine.py:141-147 | the calls made undo every registered step, last registered first: force-promotes for every image, a withdraw and an announce per prefix, one abort of the copy job; an exception in one handler does not stop the next |
| Engine.MigrationEngine.RollbackDisk | cnf/migration/engine.py:266-274 | the source is force-promoted image by image, past any failing one; the image list is read when the handler runs |
| Engine.MigrationEngine.FailAndUnwind | cnf/migration/engine.py:115-147 | marking the row comes first; if that raises, the exception escapes and it was the only call; otherwise everything registered is undone |
| Engine.MigrationEngine.Abort | cnf/migration/engine.py:136-139 | an abort sets the flag and takes the whole failure path, and does not end the run it interrupts |
| Engine.MigrationEngine.LoadVm | cnf/migration/engine.py:207-222 | image names are appended to whatever the context already lists, addresses prefer floating ones, a wrong status raises before any of that |
| Engine.MigrationEngine.StepPreflight | cnf/migration/engine.py:203-236 | preflight of either engine equals its commands at every failure point and leaves the context loaded |
| Engine.MigrationEngine.ColdStepDisk | cnf/migration/engine.py:238-264 | stop, wait for all, demote all, register the rollback, promote all, in that order, at every failure point |
| Engine.MigrationEngine.PromoteAll | cnf/migration/engine.py:257-262 | each promote goes to the destination's agent if there is a stub and to the local cluster otherwise; a refusal does not stop the loop |
| Engine.MigrationEngine.CopyOne | cnf/migration/engine.py:284-300 | the first volume whose id occurs in the image name gives the size; no match and a failing lookup both give 10 |
| Engine.MigrationEngine.ColdStepBgp | cnf/migration/engine.py:304-319 | the route rollback is registered only after a hand-off that returned, and not at all without addresses |
| Engine.MigrationEngine.StepCleanup | cnf/migration/engine.py:321-326 | the deletion comes after the committed transition and its failure is ignored |
| Engine.MigrationEngine.RunCold | cnf/migration/engine.py:165-199 | a whole cold run returns, escapes and leaves the world exactly as its command sequence says |
| Engine.MigrationEngine.LiveStepDiskSync | cnf/migration/engine.py:403-419 | lags are read and not judged; only a raising read stops the step |
| Engine.MigrationEngine.LiveStepMemory | cnf/migration/engine.py:421-448 | a missing host raises before the tunnel's rollback is registered |
| Engine.MigrationEngine.RunTunnel | cnf/migration/engine.py:537-613 | monitor transitions swallow their exceptions, the final one does not |
| Engine.MigrationEngine.LiveStepCutover | cnf/migration/engine.py:450-471 | per image a wait that asks for zero and a demote, then the registration, then the promotes, at every failure point |
| Engine.MigrationEngine.LiveStepBgp | cnf/migration/engine.py:482-492 | hands the routes off and registers no rollback |
| Engine.MigrationEngine.RunLive | cnf/migration/engine.py:342-378 | a whole live run returns, escapes and leaves the world exactly as its command sequence says |
| Clients.CephRbdClient.WaitForSync | cnf/storage/ceph.py:150-181 | the wait polls at most the rounded-up quotient of timeout by interval; success after less than the timeout's sleep, a timeout after all polls and a sleep between the timeout and one interval more |
| Clients.CephRbdClient.PreflightCheck | cnf/storage/ceph.py:223-251 | ok exactly if the image exists, is mirrored and lags no more than the limit, zero meaning the default |
| Clients.OpenStackClient.WaitVmStatus | cnf/openstack/client.py:193-206 | ends at the target, at an error status, at an exception, or after the rounded-up quotient of polls; sleeps less than the timeout in the first three cases, between it and one interval more in the last |
| Clients.OpenStackClient.StopVm | cnf/openstack/client.py:133-137 | stopping first asks for the stop and then waits; it raises unless the request was accepted and SHUTOFF was read after it |
| Clients.BgpManager.Handoff | cnf/network/bgp.py:175-208 | all announces before the first withdraw; a raising announce ends it, a raising withdraw does not |
| Clients.BgpManager.Rollback | cnf/network/bgp.py:210-222 | per prefix a withdraw here and at once an announce through the given stub; a raising withdraw is the last call and raises |
| Clients.PollsIsCeiling | cnf/storage/ceph.py:163-176 | the poll count is the rounded-up quotient of timeout by interval |
| Traces.RunReplaysItsTrace | cnf/migration/engine.py:165-199 | at the end of any run, failure path included, the world is what replaying the calls in its trace gives |
| Traces.StepGrows | cnf/migration/engine.py:157-499 | every command only adds calls, and only calls of its own kind |
| Discipline.WovenFollows | cnf/migration/engine.py:136-139 | aborts at any positions do not disturb the order the engine itself keeps |
| Engines.EnginesFollow | cnf/migration/engine.py:157-499 | both engines keep the discipline for every oracle and with any aborts woven in |
| Primaries.PrimariesFollowCalls | cnf/grpc/server.py:164-172 | the destination's primaries grow by exactly the accepted remote promotes; refused and raising calls move nothing |
| Primaries.UnwindIsLifo | cnf/migration/engine.py:141-147 | the handlers that ran are exactly the stack reversed, whichever of their calls fail |
| Primaries.ReclaimCalls | cnf/migration/engine.py:266-274 | the rollback calls a force-promote for every image and for no other |
| Primaries.FailForces | cnf/migration/engine.py:115-147 | the failure path never touches the destination's primaries and changes the source's by its accepted force-promotes only |
| Primaries.ReachedHolds | cnf/migration/engine.py:238-264 | at every reached command, aborts included: image list and stack are what the completed commands make them |
| Primaries.ReachedMap | cnf/migration/engine.py:238-274 | at every reached command, aborts included: the source's primaries are the initial ones without the demoted and with what was force-promoted or promoted locally since; nothing was force-promoted unless an abort came after the registration |
| Primaries.FailureMap | cnf/migration/engine.py:238-274 | the primary map after a failure at any command: nowhere for what was demoted before registration, back at the source after it, twice exactly where the destination had accepted |
| Primaries.DoublyPrimaryExactly | cnf/migration/engine.py:238-274 | with any aborts, at every reached command and after it whether it raises or not, the images primary twice are exactly those whose force-promote and remote promote were both accepted |
| Primaries.RunDoublyPrimaryExactly | cnf/migration/engine.py:165-199 | the same at the end of a run, its failure path included |
| Primaries.NeverDoublyPrimary | cnf/migration/engine.py:238-264 | no image is ever primary on both sides before, after or at the failure of any command, as long as no abort arrives after the disk rollback was registered |
| Primaries.CompletedMap | cnf/migration/engine.py:257-262 | after a completed run, aborts included, an image is primary at the destination exactly if its remote promote was accepted, and the source has lost all but what an abort force-promoted, or nothing if there is no stub |
| Deletion.DeletionSafety | cnf/migration/engine.py:321-326 | the source VM's deletion is attempted at most once, after every image was demoted, every promote answered and every prefix announced |
| Deletion.DeletionAttemptedIff | cnf/migration/engine.py:321-326 | the deletion is attempted by exactly the runs that reach its command |
| Staleness.SyncSample | cnf/storage/ceph.py:163-176 | a successful wait took a reading within its limit |
| Staleness.TruthfulSuffices | cnf/storage/ceph.py:123-148 | descriptions that tell the true count are read without loss, so readings never understate |
| Staleness.BoundedStaleness | cnf/migration/engine.py:209-253 | every demote comes after the engine saw the VM stop; if no mirror falls further behind then and readings never understate, what the image's mirror really lacks at its demote is at most the default threshold |
| Staleness.DemotedPassedPreflight | cnf/migration/engine.py:224-236 | no image is demoted that was not found mirrored and within the preflight limit earlier in the same run |
| Staleness.TotalStaleness | cnf/migration/engine.py:249-253 | under the same hypotheses, what the mirrors really lack at all demotes of a run adds up to at most the threshold per demote command |
| Staleness.ZeroLimitMeansDefault | cnf/storage/ceph.py:162 | with a steady lag and no errors the live cut-over's wait succeeds exactly if the lag is within the default threshold |
| Staleness.LimitMeans | cnf/storage/ceph.py:162 | with a steady lag and no errors a wait succeeds exactly if the lag is within the limit it was given, or within the default one if it was given none or zero |
| Staleness.CheckPassesIff | cnf/storage/ceph.py:223-251 | an image passes preflight exactly if it is found mirrored and then read within the preflight limit, zero meaning the default |
| Staleness.StoppedBeforeDemote | cnf/openstack/client.py:133-137 | in a cold run of an ACTIVE VM every demote comes after an accepted stop request and a later reading of SHUTOFF |
| Journal.ReachedLog | cnf/migration/engine.py:91-113 | at every reached command the committed events are the transitions so far, with any subset of the monitor's, and without aborts the row is the last of them |
| Journal.ColdLog | cnf/migration/engine.py:165-199 | the events of a cold run with any aborts are at every point, and at the end with its failure path, a prefix of PREFLIGHT DISK DISK CUTOVER BGP CLEANUP DONE with percentages rising to 100, all of them if it completes |
| Journal.LiveLogHolds | cnf/migration/engine.py:342-378 | the events of a live run with any aborts are at every point and at the end a prefix of PREFLIGHT DISK MEMORY, monitor events from 25 and below 75, MEMORY CUTOVER BGP CLEANUP DONE |
| Journal.PctRange | cnf/migration/engine.py:615-626 | the reported percentage is between 0 and 99 whatever libvirt answers |
| Journal.RowAgreesWithLog | cnf/migration/engine.py:91-134 | when a run without aborts ends early the row is the last committed event, or FAILED with its percentage if the row could be marked, and the engine's own phase is that of its last transition, committed or not |
| Journal.PhaseIsLastTransition | cnf/migration/engine.py:91-113 | at every reached command, aborts included, the engine's own phase and progress are those of its last transition, the monitor's and the failed ones included |
| Journal.PhaseAgreesIff | cnf/migration/engine.py:91-113 | the engine's own phase is the last committed event exactly if its last transition's write went through or repeats the event before it |
| Journal.ColdPhaseAgrees | cnf/migration/engine.py:165-199 | wherever a cold run gets, aborts included, its own phase is its last committed event |
| Journal.AheadTells | cnf/migration/engine.py:91-113 | at every reached command the last committed event is that many transitions behind the engine's own phase as have failed since the last one that was written |
| Journal.AtMostOneAheadIff | cnf/migration/engine.py:91-113 | the phase is at most one transition ahead of the log exactly if one of the last two transitions was written |
| Journal.MonitorRunsAhead | cnf/migration/engine.py:598-613 | a live run in which two swallowed monitor failures leave the engine two transitions ahead of log and row |
| Journal.CompletedRow | cnf/migration/engine.py:165-194 | a completed run of either engine, aborts included, ends with DONE and 100 as last event; an existing row says DONE too unless an abort came after that transition and could mark it |
| Routes.MakeBeforeBreak | cnf/network/bgp.py:175-208 | from prefixes announced at the source, each stays announced somewhere before, after and at the failure of every call, and a hand-off that returns has all of them at the destination |
| Routes.ReverseOutcome | cnf/network/bgp.py:210-222 | where a rollback whose calls succeed leaves the prefixes announced, for each kind of stub |
| Routes.HandoffSucceeds | cnf/network/bgp.py:189-208 | a hand-off whose calls succeed moves exactly its prefixes, duplicates allowed |
| Routes.RollbackRestoresIff | cnf/network/bgp.py:175-222 | for any start and prefix list, with all calls succeeding, hand-off then rollback restores both announcement sets exactly if the prefixes were announced only where the given stub announces them again, or nowhere for no stub |
| Routes.SourceRoutesOnlyShrink | cnf/migration/engine.py:318 | over whole runs, rollbacks and aborts included, the source's announcements only lose what it agreed to withdraw |
| Compensation.FailUndoes | cnf/migration/engine.py:115-147 | the calls of every failure path: the row is marked, and unless that raises everything on the stack is undone by its own calls, last first |
| Compensation.ReversingMeans | cnf/network/bgp.py:210-222 | undoing a hand-off starts with the first prefix; if no withdraw raises, every prefix is withdrawn and at once announced through the stub |
| Compensation.ReachedStack | cnf/migration/engine.py:149-150 | at every reached command, aborts included, the stack is what the completed commands registered, in order |
| Compensation.FailingRunUndoes | cnf/migration/engine.py:196-199 | a failing run, and every abort on the way, undoes exactly what was registered so far |
| Compensation.EngineCompensates | cnf/migration/engine.py:304-319 | both engines with any aborts: a failure path that could mark the row force-promotes the job's images if the disk rollback was registered, aborts the copy job exactly if the tunnel's rollback was, and withdraws routes exactly in a cold run with addresses that failed at its CLEANUP or DONE transition, where it reverses the whole hand-off |
| Compensation.EngineAbortsCopy | cnf/migration/engine.py:421-448 | a live run that asked libvirt to migrate and fails aborts the copy job after marking the row |
| Compensation.EngineFailureRoutes | cnf/network/bgp.py:215-218 | where a failing run leaves the addresses if every call from the failure on succeeds: unchanged, except after such a cold run, where they are announced at the destination if it has a stub and nowhere there if it has none |
| Addresses.RoutesAsked | cnf/migration/engine.py:308-316 | a run announces, and asks the source to withdraw, nothing but the floating addresses, or else the fixed ones, each as a /32; the source is asked through its stub or none, and only after all of them were announced here |
| Addresses.EngineMakesBeforeBreaking | cnf/network/bgp.py:189-208 | over whole runs of both engines, aborts and failure paths included: a prefix announced at the source at the start is announced on some side after every single call, unless a rollback has withdrawn it here |
| Addresses.LiveMakesBeforeBreaking | cnf/migration/engine.py:482-492 | in a live run, which registers no rollback of routes, without that exception |
| Addresses.CompletedWithdraws | cnf/network/bgp.py:193-203 | a completed run, aborts included, has asked the source to withdraw every moved address; the source has lost all of them if it agreed to all, and none if there is no stub |
| Addresses.CompletedAnnounces | cnf/network/bgp.py:189-191 | a completed run without aborts adds exactly the moved addresses to the destination's announcements |
| Polling.WaitSucceedsIff | cnf/storage/ceph.py:163-181 | a wait succeeds exactly if one of its allotted samples is within the limit before any reading raises, ends at that sample, and otherwise takes all its polls or stops at the reading that raised |
| Polling.WaitFailsIff | cnf/storage/ceph.py:163-181 | a wait without raising reads fails exactly if all its samples exceed the limit |
| Polling.FallingLagSyncs | cnf/storage/ceph.py:163-181 | a lag that falls by at least a rate per poll and starts within reach is always waited out |
| Polling.VmWaitSucceedsIff | cnf/openstack/client.py:193-206 | the wait for a status succeeds exactly if the target is read within the allotment before an error status or an exception, and otherwise takes all its polls or stops at what ended it |
| Text.UuidSearchIsExact | cnf/migration/engine.py:286-291 | for UUID text, one volume's image name contains another volume's id exactly if the ids are equal |
| Volumes.OwnVolumeIff | cnf/migration/engine.py:286-291 | for any ids, an image is matched with its own volume exactly if no earlier different id occurs in its name |
| Volumes.ShortIdsCollide | cnf/migration/engine.py:286-291 | a concrete pair of short ids for which an image is matched with the wrong volume |
| Volumes.CutoverRegisters | cnf/migration/engine.py:276-302 | with UUID ids and no preset images, the cut-over's copies register each image once, in order, with its own volume's size, or 10 where the lookup at that very tick raised |
| Volumes.ColdRunRegisters | cnf/migration/engine.py:276-302 | a completed cold run with any aborts, on the same conditions, has registered exactly one volume per volume of the VM, in order, rightly sized |
| Volumes.CopyCalls | cnf/migration/engine.py:284-300 | copying any image, whatever the ids: a lookup of the first volume whose id occurs in its name, then one registration with the size found, or with 10 if the lookup raised or no id occurs |
| Requests.RegisteredAfterPromotes | cnf/migration/engine.py:257-302 | a volume is registered only by a cold run, after every image was demoted and every promote of one answered |
| Requests.CopyOnce | cnf/migration/engine.py:403-448 | libvirt is asked to migrate at most once, only by a live engine with a host and an ACTIVE VM, and only after the lag of every image was read behind the transition to the disk phase |
| Requests.WrongStatusStops | cnf/migration/engine.py:207-213 | with a VM status that does not fit the engine, no run completes or makes a forward call beyond the transition to preflight and the look at the VM |
| Requests.GuardsHoldIff | cnf/migration/engine.py:430-432 | nothing else an engine tests stops it: all its own tests hold exactly if the status fits and a live one was given a host |
| Requests.EngineWaits | cnf/storage/ceph.py:163-181 | a cold wait for an image reads at most 60 times, a live one 12 times, the wait for the VM 40 times; one that fails without a raised reading has read that often, always above the default threshold, or for the VM seen an error status |
| Requests.ProgressReports | cnf/migration/engine.py:615-626 | the reported figure is the processed share in percent, 99 from there on, and zero without a job |
| Requests.MonitorReports | cnf/migration/engine.py:443-448 | before the copy returns every monitor reading has been written as 25 percent and half its figure |
| Results.ColdFailurePoints | cnf/migration/engine.py:238-274 | the cold engine's primary map for a failure at each command index: untouched, exactly the first images nowhere, or restored with the accepted ones twice |
| Results.LiveFailurePoints | cnf/migration/engine.py:450-480 | the same for the live engine, whose waits and demotes alternate |
| Results.EngineNeverDoublyPrimary | cnf/migration/engine.py:157-499 | both engines with any aborts, at every command and at the end: primary twice is exactly what was force-promoted and remotely promoted, nothing without an abort after the registration |
| Results.AbortThenFail | cnf/migration/engine.py:136-147 | any aborts before a failure leave the same source primaries as the failure alone, if the force-promotes succeed |
| Results.EngineDeletionSafety | cnf/migration/engine.py:321-326 | deletion safety for both engines with any aborts woven in |
| Results.EngineDeletionIff | cnf/migration/engine.py:494-499 | either engine with any aborts attempts the deletion exactly if it gets past its committed CLEANUP transition |
| Results.EngineStaleness | cnf/migration/engine.py:460-463 | bounded staleness of what the mirrors really lack, for both engines with any aborts woven in |
| Results.EngineTotalStaleness | cnf/migration/engine.py:249-253 | under the same hypotheses what is really unsynced at the demotes of a run adds up to at most image count times threshold |
| Results.EngineStopsVm | cnf/migration/engine.py:243-245 | both engines with any aborts: a cold run of an ACTIVE VM demotes only after an accepted stop request and a later reading of SHUTOFF; the VM's status is never polled before that request; a live run or a VM that is not ACTIVE is never asked to stop |
| Results.CompletedRunStopped | cnf/openstack/client.py:133-137 | a completed cold run of an ACTIVE VM has stopped it, also without images |
| Results.EngineCompleted | cnf/migration/engine.py:257-262 | the exact primary map after a completed run of either engine, aborts included |
| Results.StublessRunMovesNothing | cnf/tasks/migration_tasks.py:70-106 | a completed run without stubs, aborts included, leaves every image primary at the source and has attempted the deletion |
| Aborts.EngineIgnoresLateAbort | cnf/migration/engine.py:165-194 | each engine has one check; behind it a set abort flag changes nothing in what is executed |
| Aborts.EngineQuitsIff | cnf/migration/engine.py:172-176 | a run with any aborts stops quietly exactly if it reaches its check with an abort behind it |
| Aborts.SmoothRunDoublesIff | cnf/migration/engine.py:136-147 | with nothing else going wrong a run with aborts behind the check completes, and leaves every image of the job primary twice if an abort came after the registration, none otherwise |
| Aborts.UnfailingCompletes | cnf/migration/engine.py:165-194 | a run in whose way nothing stands completes, with aborts behind its check and whatever is refused, for a VM shut off as well |
| Aborts.RefusedPromotesUnnoticed | cnf/grpc/server.py:164-172 | with a destination that refuses every promote such a run returns success and has tried the deletion, every image primary on neither side |
| Aborts.LateAbortDoubles | cnf/migration/engine.py:136-147 | a run of either engine from a fresh start, with one abort and no failure, that returns success with an image primary on both sides |
| Aborts.UnreadLagIsLost | cnf/storage/ceph.py:163-174 | for any true lag, any threshold and any description not read as more than it, a run of either engine that demotes at that lag and completes |
| Aborts.EarlyAbortStops | cnf/migration/engine.py:165-176 | any abort before the check ends the run, unsuccessful, with every primary where it was |
| Raft.RaftElection.StartAttempt | cnf/agent/raft.py:150-161 | an attempt refreshes exactly if the node is master with a lease, otherwise an acquisition is handed to a thread |
| Raft.RaftElection.CreateLease | cnf/agent/raft.py:133-135 | creating the lease is one step of the system |
| Raft.RaftElection.CreateLeaseFails | cnf/agent/raft.py:133-135 | so is failing to, with the lease made or not |
| Raft.RaftElection.CompareAndSwap | cnf/agent/raft.py:136-142 | the transaction on an absent key, in the executor, is one step that records nothing at the node |
| Raft.RaftElection.ReadMaster | cnf/agent/raft.py:143-145 | having lost, the key is read in a step of its own |
| Raft.RaftElection.CompleteAttempt | cnf/agent/raft.py:150-196 | the rest of the attempt is the record step; only a raising lose callback reaches the loop |
| Raft.RaftElection.RevokeLease | cnf/agent/raft.py:198-208 | nothing without a lease, errors ignored, the local role untouched |
| Raft.RaftElection.ForceElect | cnf/agent/raft.py:235-245 | answers true exactly if the node names itself master, and revokes what lease it has |
| Raft.RaftElection.Stop | cnf/agent/raft.py:96-105 | stopping cancels the loop, whatever the attempt in progress was doing, and then the lease, if there is one and the call goes through, is dead |
| Election.NextKeeps | cnf/agent/raft.py:117-208 | every step of every node keeps the election invariant |
| Election.AtMostOneMaster | cnf/agent/raft.py:128-208 | in every reachable state at most one node is master on a live lease, and the key names that node and lease |
| Election.RolesAndTerms | cnf/agent/raft.py:150-196 | in every reachable state master means holding a lease, callbacks alternate from become, and terms add up to the recorded wins |
| Election.WonBeforeRecorded | cnf/agent/raft.py:158-165 | a reachable state in which etcd names a node that is not master yet |
| Election.StaleNodeLeaves | cnf/agent/raft.py:150-157 | if refreshing a dead lease raises, a node whose lease is gone stays master until exactly its next completed attempt (or the one after, if a refresh was already answered) and then has called its lose callback once |
| Election.ForcedNodeIsStale | cnf/agent/raft.py:235-245 | a successful forced election leaves its master on a dead lease |
| Election.ForceElectFreesIff | cnf/agent/raft.py:235-245 | a forced election frees the key exactly if this node is master on a live lease; it ends no other lease, and nothing at all if the call fails or the node names another master |
| Election.StopFreesIff | cnf/agent/raft.py:96-105 | after a stop the node does not run and its lease is dead; the key goes exactly if the node was master on a live lease, and no other lease ends |
| Election.UnrevokedStays | cnf/agent/raft.py:198-208 | a stop whose revocation fails, and a crash, leave key and leases as they were |
| Election.ExpiryFreesIff | cnf/agent/raft.py:133-141 | an expiry ends one lease and takes the key with it exactly if the key is attached to it |
| Election.StrayTakesKey | cnf/agent/raft.py:133-141 | the thread of a stopped attempt still swaps: the key then names a node that does not run |
| Election.LooseTakesKey | cnf/agent/raft.py:133-141 | the same for an attempt stopped before it had its lease |
| Election.LoserNamesHolder | cnf/agent/raft.py:165-169 | having lost, the node takes over the key holder's name exactly if it can be read; its role and lease stay |
| Election.RaisedSwapIsUnrecorded | cnf/agent/raft.py:158-171 | a swap that raises after taking effect is a win that nobody records |
| Election.RaisedGrantIsOrphan | cnf/agent/raft.py:158-171 | a lease creation that raises after taking effect leaves a lease related to no node |
| Election.LoserStillForces | cnf/agent/raft.py:190-196 | a master whose refresh failed steps down without revoking; it still names itself, so a forced election on it is accepted and changes nothing |
| Election.FreeKeyIsWon | cnf/agent/raft.py:128-188 | over any interleaving: the swap that finds the key absent and its lease alive wins, and if the lease lives until the record the node is then master with a live lease, named by the key, one term and one become callback on |
| Election.HeldKeyIsLost | cnf/agent/raft.py:128-171 | over any interleaving in which the key stands, a node that is not master and had not won stays so with its term and callbacks; it takes no other name for the master than the key's holder, or one it had read before, and keeps the holder's once it has it |
| Election.QuietRefreshKeepsStale | cnf/agent/raft.py:147-157 | without the hypothesis on refreshing, a stale node stays master |
| Election.LostLeaseIsOrphan | cnf/agent/raft.py:158-171 | losing an acquisition leaves its lease alive with no node related to it |
| Election.OrphanStays | cnf/agent/raft.py:158-208 | nothing but expiry ever ends such a lease, over any run |
| Election.LeaseGarbageBounded | cnf/agent/raft.py:117-142 | over any run with attempts a heartbeat apart, failed and stray ones included, the leases of one node that expiry has not removed are at most floor(ttl / heartbeat) + 1 |
| Agent.CnfAgent.OnBecomeMaster | cnf/agent/agent.py:138-145 | the row is written first; if that raises, the scheduler's flag stays |
| Agent.CnfAgent.OnLoseMaster | cnf/agent/agent.py:147-154 | the same on losing, so a failing write leaves an acting scheduler |
| Agent.FlagAgreesIff | cnf/agent/agent.py:138-154 | in every reachable state the scheduler's flag is the election role exactly if the number of callbacks since the last one that set it (failed, cancelled, too early or pending) is even; and it is set exactly if that last one was a become |
| Agent.FlagFollowsRole | cnf/agent/agent.py:46-89 | with every completed callback having set the flag, it is the role exactly while no callback is pending |
| Agent.RowAgreesIff | cnf/agent/agent.py:138-154 | in every reachable state the cluster's row says the election role exactly if the number of callbacks since the last one that wrote it is even, or, with none, if its first role does |
| Agent.StaleSchedulerStops | cnf/agent/agent.py:147-154 | if refreshing a dead lease raises, a node whose lease is gone has stepped down by its due attempt, and once its lose callback has completed its scheduler does not act |
| Agent.RunsElection | cnf/agent/agent.py:46-89 | every run of the agents is, underneath, a run of the election |
| Agent.PendingDisagrees | cnf/agent/raft.py:173-188 | with the scheduler first and nothing failing, role and flag differ while the callback awaits the database |
| Agent.StartupDisagrees | cnf/agent/agent.py:46-89 | in the agent's own start-up order a node can be master for good without an acting scheduler |
| Agent.FailedWriteDisagrees | cnf/agent/agent.py:147-154 | from any run that has made a node act, a failing write on losing leaves its scheduler acting |
| Agent.FailedWriteReached | cnf/agent/agent.py:147-154 | such a run from nothing |
| Agent.UpToDateActsIff | cnf/agent/agent.py:138-154 | in every reachable state an agent that has heard its callbacks and is on no dead lease acts exactly if its node is master on a live lease |
| Agent.AtMostOneActs | cnf/agent/raft.py:128-208 | in every reachable state at most one scheduler acts among agents on no dead lease that have heard their callbacks |
| Agent.TwoSchedulersAct | cnf/agent/raft.py:150-157 | from every reachable state in which a scheduler acts, the expiry of one lease lets any other resting agent act beside it with nothing failing, the first one being out of date |
| Agent.TwoSchedulersReached | cnf/agent/raft.py:150-157 | such a run from nothing, with two agents |
| MirrorText.LagReadsBack | cnf/storage/ceph.py:123-148 | parsing undoes printing for every natural number, every prefix without the key and every suffix that is empty or starts with a comma; synced exactly if replaying with none behind |
| MirrorText.IntOfDecimal | cnf/storage/ceph.py:125-138 | Python's integer parser, blanks, signs and underscores included, reads back every decimal |
| MirrorText.NumberReads | cnf/storage/ceph.py:125-138 | blanks around a number, a plus sign and underscores between its digits do not change what is read; a minus negates it |
| MirrorText.OnlyNumbersRead | cnf/storage/ceph.py:125-138 | whatever is read as a number has that form |
| MirrorText.EveryDescription | cnf/storage/ceph.py:123-148 | for every text: without the key a replaying image is synced; with it exactly if the number behind the first key is unreadable or zero, and the lag is negative exactly if that number is |
| MirrorText.PrintedReadsBackIff | cnf/storage/ceph.py:125-138 | for every printed count, whatever precedes its key and follows it, it is read back exactly if only blanks are left in its field, or if it is zero and what is left is unreadable or zeros |
| MirrorText.WronglySyncedIff | cnf/storage/ceph.py:125-138 | a replaying image that is behind is reported synced, and its lag understated, exactly if what is left in the field makes the number unreadable |
| MirrorText.NegativeCountReads | cnf/storage/ceph.py:125-138 | a count printed with a minus sign is a negative lag |
| Scheduling.Scheduler.TriggerRebalance | cnf/scheduler/scheduler.py:179-219 | one record exactly if the listing and the write go through and some server is active, for the first active one; raises exactly if the listing does, or the write for an active server |
| Scheduling.Scheduler.ApplyPolicyTo | cnf/scheduler/scheduler.py:118-152 | what a policy queues before it ends or raises |
| Scheduling.Scheduler.Evaluate | cnf/scheduler/scheduler.py:69-79 | an evaluation queues what its enabled policies queue, in order, past any that raises |
| Scheduling.Scheduler.Round | cnf/scheduler/scheduler.py:53-64 | only a master evaluates |
| Scheduling.PartitionByTrigger | cnf/scheduler/scheduler.py:130-136 | structural comparison splits the clusters exactly by the trigger, repeated ids included |
| Scheduling.FirstMinIsFirst | cnf/scheduler/scheduler.py:170-177 | the chosen element is better than all before it and at least as good as all after it |
| Scheduling.RebalanceQueues | cnf/scheduler/scheduler.py:179-219 | when one rebalance queues and when it raises, by the answers to it, and for which server |
| Scheduling.DestIsBest | cnf/scheduler/scheduler.py:170-177 | the destination minimises its strategy's own measure, ties to the first; an unknown strategy takes the first candidate |
| Scheduling.OneRecordPerSource | cnf/scheduler/scheduler.py:146-152 | with unique ids no two records of a policy drain the same cluster |
| Scheduling.PolicyRecords | cnf/scheduler/scheduler.py:118-152 | with unique ids all records of a policy go to one cluster, the best by its strategy of those that do not violate it, from clusters that do, so none chains, each cluster at most once; live exactly if the action says so |
| Scheduling.PolicyRecordsIff | cnf/scheduler/scheduler.py:118-152 | a violating cluster gets its record, for the first active server listed to it, exactly if some cluster does not violate, no earlier rebalance raised and its own one queues; the policy raises exactly if one of them does |
| Scheduling.PoliciesIsolated | cnf/scheduler/scheduler.py:69-79 | replacing one policy and everything answered to it leaves what the policies before it queue and what those after it queue exactly as it was |
| Scheduling.EnabledOnly | cnf/scheduler/scheduler.py:109-116 | an evaluation queues exactly what its enabled policies queue |
| Metrics.ClusterMetrics | cnf/openstack/client.py:165-191 | six running totals in one pass: each figure times the summed capacity of its resource is a hundred times the summed usage of that resource, and zero without capacity |
| Metrics.ClusterPctIsMean | cnf/openstack/client.py:169-181 | with positive capacities each of the three unrounded figures lies within any bounds that hold for every hypervisor |

## Left out

- Engine.MigrationEngine.Abort: an abort is one step between two commands of the run; on the event loop its own awaits can interleave with the run's.
- Engine.MigrationEngine.RunTunnel: the monitor's readings are placed before the libvirt call they accompany, in any number; their order against the end of that call is not modelled.
- Journal.RowAgreesWithLog: the row is stated for runs without aborts, because an abort marks the row while the run goes on and the next transition overwrites it.
- Clients.CephRbdClient.WaitForSync: needs a positive interval; the loop does not end otherwise.
- MirrorText.IntOfDecimal: blanks are space, tab, line feed and carriage return, digits are ASCII; Python accepts more of both, and from version 3.11 on refuses a number of more than 4300 digits, which then reads as no lag.
- Agent.StaleSchedulerStops: says nothing about a callback that was cancelled or failed; the scheduler may then go on acting, which `Agent.FailedWriteDisagrees` shows.
- Election.LeaseGarbageBounded: counts the leases of one election object, a restarted process being a new one; after an exception in its loop the original waits two seconds instead of the heartbeat, which the pacing hypothesis covers only for heartbeats up to that.
- Metrics.ClusterMetrics: arithmetic over reals, before rounding.
- REST handlers, request forwarding, the command-line plugin, gRPC transport and TLS: plumbing. An agent's failure arriving as a reply is kept.
- The API's abort request: it only rewrites the database row, and the engine does not read that row.
- Queue retries and the peer stubs for heartbeat, vote and append: constant replies, no algorithm.
- `rbd`, `vtysh`, `ip route`, OpenStack, libvirt and etcd themselves: abstract operations that change the model's state or raise. A call that raises after taking effect is modelled for etcd only.
- `wait_convergence`, clocks, logging, metrics labels, error texts and configuration loading: no effect on what is proved.
- Collecting snapshots and loading policies from the database: their results are inputs of an evaluation; an exception there ends the round with nothing queued.
- Keys missing from a stored rule: a rule is taken with its defaults filled in.
- Trigger expressions: an arbitrary predicate on the metrics, false where the expression raises.
