# NanoClaw host: a verified model

This project models the host process of NanoClaw and some self-contained algorithms around
it, and proves properties of the model with Dafny 4.11. `dafny verify dfyconfig.toml` checks
everything.

Code that changes state step by step is modelled as classes, or as methods with the loops of
the source, each proved against a specification function. Laws in plain terms, on fields,
numbers and inputs, say what one application of such a function does; the results about whole
runs are lemmas about it too. Where several activities interleave (the poll loops, wakes and
exits, sweeps, adapters on one database) the system is a state machine whose steps are the
segments between two awaits, and the lemmas quantify over every sequence of steps. A fan-out
takes the turns of other events, which run while it awaits a container, as a parameter.

| file | what it models |
|---|---|
| `StateKv`, `StateNamespaces`, `StateLocks`, `StateLists`, `StateAdapter` | the chat state store: rows with expiry, locks, capped lists used as queues, key prefixes, and the adapter class over the shared tables |
| `StuckDecision`, `HostSweep` | the kill decision, and the sweep of one session with its retries |
| `Delivery` | outbound delivery by any number of concurrent polls |
| `Containers` | wakes, spawns, kills, exits and restarts of session containers |
| `Sessions`, `Router` | session resolution, the fan-out of an event, and sticky wirings |
| `Bytes`, `Crc32`, `Png` | CRC-32 by table, chunk framing and scanlines, after RFC 2083 |
| `Whitespace`, `SplitForLimit`, `ButtonCodec`, `StatusBlocks` | splitting of long replies, button ids, status blocks |
| `UninstallPlan`, `UninstallExec` | the removal planner, and its executor under faults |
| `CircuitBreaker`, `Migrations` | startup backoff across boots, and migration selection |
| `Wrappers` | option and result types |

## Where the code falls short of a promise

These follow the code. Each has a lemma with an input that shows it, and a lemma that says
exactly when the promise holds.

- A row stamped to expire at time 0 reads as never expiring in `setIfNotExists`, so the moment
  of a purge shows (`StampedZeroShows`, `SetIfNotExistsAgreesIff`).
- On a list with both a cap and expiries the moment of a purge shows too, because trimming
  counts from the last index (`CappedAppendSeesPurge`, `CappedAppendAgreesIff`).
- The unprefixed default instance shares keys with a named one when a key spells out the name
  and a colon, and can overwrite its values (`DefaultDisturbsNamed`, `HarmlessIff`,
  `OwnOperationsIff`).
- An empty thread id is stored as such but looked up as no thread: resolution creates a
  duplicate each time, and such a thread never becomes sticky (`StableIff`,
  `EmptyThreadIsNotSticky`).
- While the delivered table cannot be written, a message is sent again and again, and the limit
  of three attempts does not hold (`UnwritableTableRepeats`, `AgainIff`).
- A process that reports both an error and a close, or an error while it still runs, can leave a
  session with two containers (`TwoEndsTwoContainers`, `SecondEndHarmlessIff`,
  `ErrorHarmlessIff`).
- `backupEnv` can destroy an older backup, by a copy within one second of it or by a copy that
  breaks off (`BackupsCanClobber`, `NeverClobbersIff`).
- Three kinds of field keep a printed status block from coming back as it was
  (`BlocksThatDoNotComeBack`, `RoundTripIff`).
- A question id with a colon is decoded as another question (`ColonMisroutes`,
  `DecodeEncodeIff`), and an option with an empty value is lost in the forwarded-interaction
  handler (`ClickRoundTrip`, `HandlersAgreeIff`).
- With a limit of zero the splitter does not end on a text with a visible character (`EndsIff`,
  `ProgressIff`). Its only caller guards against that limit.

## Assumptions

- Times are integers in milliseconds; clocks do not go back within a run. A clock that the
  source reads twice is two parameters. SQLite's `datetime()` keeps whole seconds.
- Queue keys are used by the queue operations alone. The database clock is read after the
  process clock, and object fields are printed in any order.
- Tokens, session ids and process ids are fresh; message ids belong to one session.
- Regular expressions, `deflate` and the outcome of commands, copies and removals are
  parameters. `deflate` has an inverse. External commands leave the checkout's files alone.
- The delivered table can be written whenever an attempt calls for a verdict, where a lemma
  says so; the others hold without.
- A container process reports its end once, and an error event means that it has ended, except
  where a lemma is about the contrary. A failed kill reports an error as well.
  The end of a spawn and the removal of its promise are one step.

## Model

| member | source | states |
|---|---|---|
| StateKv.RunRefinesEager | src/state-sqlite.ts:54-92 | in any run over the shared table, operations on a set of own keys get exactly the answers of an eagerly expiring map that sees those operations alone, wherever purges and foreign operations fall |
| StateKv.PurgesAreInvisible | src/state-sqlite.ts:211-216 | over the whole key space, a run with purges gives the answers of the eager map without them |
| StateKv.SetIfNotExistsAgreesIff | src/state-sqlite.ts:75-88 | setIfNotExists answers like the eager map exactly when the row it meets is not stamped to expire at 0 |
| StateKv.StampedZeroShows | src/state-sqlite.ts:68-88 | the two operations on which the lazy table and the eager map differ |
| StateKv.SetThenGet | src/state-sqlite.ts:54-73 | a value set at t with time-to-live d, with other keys written and purges run at any later moments, is read at u exactly when d is missing or 0 or u <= t + d |
| StateKv.SetIfNotExistsInserts | src/state-sqlite.ts:75-88 | setIfNotExists inserts exactly when there is no row, or one with an expiry before now other than 0; otherwise nothing changes |
| StateKv.SetIfNotExistsThenGet | src/state-sqlite.ts:54-88 | a value it inserted, stamped at t with time-to-live d, is read at u exactly when d is missing or 0 or u <= t + d |
| StateKv.SetThenSetIfNotExists | src/state-sqlite.ts:68-88 | after a set at t, a setIfNotExists at u inserts exactly when the time-to-live has passed, the one that stamps 0 excepted |
| StateKv.DeleteThenGet | src/state-sqlite.ts:90-92 | a deleted key reads as missing until it is written again |
| StateNamespaces.KeyInjective | src/state-sqlite.ts:41-43 | prefixed keys are equal only for the same name and the same key |
| StateNamespaces.KeyInSpace | src/channels/chat-sdk-bridge.ts:133-145 | names that the bridge accepts have disjoint key spaces |
| StateNamespaces.DefaultCollidesIff | src/state-sqlite.ts:41-43 | an unprefixed key is some key of a named space exactly when it spells out that name and a colon |
| StateNamespaces.OwnOperationsIff | src/state-sqlite.ts:41-92 | the table operations in a key space are exactly those of its own instance, if and only if the default instance uses no key that spells out the name |
| StateNamespaces.NamespacesAreIsolated | src/state-sqlite.ts:21-43 | among named instances and the unprefixed one, a named instance gets the answers of an eager map that only it uses, as long as no colliding operation of the default instance does harm |
| StateNamespaces.HarmlessIff | src/state-sqlite.ts:54-92 | a foreign operation leaves every later answer on the own keys alone, whatever the table, exactly when it reads, purges, has another key, or inserts a row that has already expired |
| StateNamespaces.UndisturbedIsIsolated | src/state-sqlite.ts:54-92 | an instance that keeps to its keys and meets only harmless foreign operations gets the answers of a map of its own |
| StateNamespaces.DefaultIsIsolated | src/state-sqlite.ts:31-38 | so does the default instance, as long as its keys spell out no name in use |
| StateNamespaces.DefaultDisturbsNamed | src/state-sqlite.ts:41-43 | the run in which the default instance overwrites a value of a named one |
| StateLocks.RunKeepsInv | src/state-sqlite.ts:113-148 | over every run, rows belong to held locks with the same expiry, and a held lock without its row has expired |
| StateLocks.AcquireExcludesEarlier | src/state-sqlite.ts:113-126 | when acquireLock succeeds at t, every earlier lock on the key was released, force-released or expired before t |
| StateLocks.AcquireFailsOnlyWhenHeld | src/state-sqlite.ts:113-126 | when it fails, some earlier lock on the key is held and unexpired |
| StateLocks.MutualExclusion | src/state-sqlite.ts:113-148 | no two held, unexpired locks share a key |
| StateLocks.SupersededHolderIsHarmless | src/state-sqlite.ts:128-144 | an old holder's release or extend changes neither the new holder's row nor any expiry |
| StateLocks.SupersededForever | src/state-sqlite.ts:113-148 | a lock that lost its key never gets it back in any later run |
| StateLists.EnqueueRefines | src/state-sqlite.ts:152-168 | after an append the queue is exactly the last cap entries of its content and the new one, with contiguous indices |
| StateLists.QueueRefinesFifo | src/state-sqlite.ts:182-207 | every run of enqueues, dequeues, depth queries and purges answers like a drop-oldest bounded FIFO, also after it empties |
| StateLists.PurgeInvisible | src/state-sqlite.ts:170-178 | a purge shows in no later reading of a list |
| StateLists.UncappedAppendIgnoresPurge | src/state-sqlite.ts:152-168 | without a cap, neither does it show through a later append |
| StateLists.CappedAppendSeesPurge | src/state-sqlite.ts:155-166 | a capped list with expiries on which the purge does show |
| StateLists.CappedAppendAgreesIff | src/state-sqlite.ts:152-178 | for any cap, a purge before an append shows in a later reading exactly when the cap is positive and a row still shown then has an index between the cutoffs computed with and without the purge |
| StateLists.AppendKeepsOrder | src/state-sqlite.ts:152-168 | appending keeps the indices of a list in order |
| StateLists.ViewGrows | src/state-sqlite.ts:170-178 | a reading shows, in order, the values with no expiry or one strictly ahead |
| StateLists.AppendThenRead | src/state-sqlite.ts:152-178 | an appended value is the last one read exactly while its expiry lies ahead, and the expiry makes no difference to the values before it |
| StateLists.AppendKeepsIff | src/state-sqlite.ts:152-168 | after an append exactly the new row and the rows within the last cap indices are there |
| StateLists.PurgeMember | src/state-sqlite.ts:211-216 | a purge removes exactly the rows whose expiry is past |
| StateAdapter.SqliteStateAdapter.Get | src/state-sqlite.ts:54-66 | purge, then look up; the value is missing exactly when there is no row or its expiry, by either clock reading, is past; no other table changes but by the purge |
| StateAdapter.SqliteStateAdapter.Set | src/state-sqlite.ts:68-73 | the row is replaced; its expiry is now plus the time-to-live, none when that is missing or 0 |
| StateAdapter.SqliteStateAdapter.SetIfNotExists | src/state-sqlite.ts:75-88 | the insert fails exactly on a row with no expiry, one of 0, or one not yet past; a new row expires at the second clock reading plus the time-to-live |
| StateAdapter.SqliteStateAdapter.Delete | src/state-sqlite.ts:90-92 | exactly the row of the key goes |
| StateAdapter.SqliteStateAdapter.AcquireLock | src/state-sqlite.ts:113-126 | a lock is returned, with the raw thread id, exactly when no unexpired row is in the way |
| StateAdapter.SqliteStateAdapter.ReleaseLock | src/state-sqlite.ts:128-132 | the row goes only if the token is its own |
| StateAdapter.SqliteStateAdapter.ExtendLock | src/state-sqlite.ts:134-144 | row and lock object get the new expiry together, or neither does |
| StateAdapter.SqliteStateAdapter.ForceReleaseLock | src/state-sqlite.ts:146-148 | the row of the key goes whoever holds it |
| StateAdapter.SqliteStateAdapter.AppendToList | src/state-sqlite.ts:152-168 | insert after the last index with the expiry now plus the time-to-live, then trim to the cap; other lists stay |
| StateAdapter.SqliteStateAdapter.GetList | src/state-sqlite.ts:170-178 | the unexpired values in index order |
| StateAdapter.SqliteStateAdapter.Enqueue | src/state-sqlite.ts:182-189 | the queue holds the last maxSize of its content and the entry, the answer is its size, other keys keep their rows |
| StateAdapter.SqliteStateAdapter.Dequeue | src/state-sqlite.ts:191-199 | the oldest entry is returned and removed, the rest keep their order |
| StateAdapter.SqliteStateAdapter.QueueDepth | src/state-sqlite.ts:201-207 | the number of queued entries |
| StateAdapter.SqliteStateAdapter.Cleanup | src/state-sqlite.ts:211-216 | expired rows leave all three tables; subscriptions stay |
| StateAdapter.AppendThenReadByTtl | src/state-sqlite.ts:152-178 | a value appended at t with time-to-live d is read at u exactly when d is missing or 0 or u < t + d |
| StuckDecision.KilledIff | src/host-sweep.ts:83-119 | a container is killed exactly when its heartbeat is past the ceiling, or some claim is older than the tolerance with no sign of life since |
| StuckDecision.FreshHeartbeatSpares | src/host-sweep.ts:83-119 | a heartbeat at most a minute old always spares |
| StuckDecision.KillIsMonotone | src/host-sweep.ts:83-119 | with other inputs fixed, a kill stays a kill as time passes |
| StuckDecision.SilentIsKilledInTime | src/host-sweep.ts:66-119 | with ticks at most a gap apart, a container silent since a claim is killed within the tolerance, stretched by a declared Bash timeout, plus one gap |
| StuckDecision.DecideInNumbers | src/host-sweep.ts:83-119 | the ceiling is 1 800 000 ms and the tolerance 60 000 ms, each stretched to a timeout that Bash has declared; the ceiling is tested first; spared exactly within both |
| StuckDecision.FirstStuckIsNamed | src/host-sweep.ts:108-116 | a kill for a claim names the first claim over the tolerance, its age and the tolerance |
| StuckDecision.DeclaredBashSpares | src/host-sweep.ts:240-243 | while heartbeat and claims are within a declared Bash timeout, however long, the container is spared |
| HostSweep.SweepsKillInTime | src/host-sweep.ts:191-210 | the same of sweep ticks that find the container running, can read its database and have not just woken it: one of them kills it in time |
| HostSweep.SessionDbs.SyncProcessingAcks | src/db/session-db.ts:169-182 | every message with a finished acknowledgement is completed, the others stay |
| HostSweep.SessionDbs.ResetStuckProcessingRows | src/host-sweep.ts:290-345 | claimed messages that are pending and due are retried later or failed; claims are dropped unless the outbound database cannot be written |
| HostSweep.SessionDbs.StartSweep | src/host-sweep.ts:158-190 | a tick up to the await on the wake: sync, count what is due, decide to wake |
| HostSweep.SessionDbs.FinishSweep | src/host-sweep.ts:191-229 | the rest of the tick on the tables as they are then: enforce the limits on a running container, or clean up after a crashed one, as SweepEndDoes says in fields |
| HostSweep.FreshlyWokenIsSpared | src/host-sweep.ts:191-210 | a tick never kills the container it has just woken |
| HostSweep.CleanupPreventsClaimKill | src/host-sweep.ts:328-336 | after a kill or crash cleanup no old claim can have the next container killed |
| HostSweep.RunKeepsRetryLaw | src/host-sweep.ts:290-345 | in every interleaving of half ticks, container writes, arrivals and edits, tries never decrease or pass five, a message fails only at five, and the delays granted are the first of 5, 10, 20, 40, 80 s |
| HostSweep.NextKeepsInv | src/host-sweep.ts:158-218 | one step raises tries by at most one and keeps the retry law |
| HostSweep.ResetTwice | src/host-sweep.ts:290-345 | a second reset shortly after the first changes no message, even with the claims still there |
| HostSweep.ResetIsIdempotent | src/host-sweep.ts:290-345 | so does one at the same instant |
| HostSweep.CrashLoopEnds | src/host-sweep.ts:303-318 | a message whose container keeps dying has failed exactly when it was reset more often than it had tries left |
| HostSweep.SweepStartDoes | src/host-sweep.ts:158-190 | the first half of a tick completes exactly the messages with a finished acknowledgement, when the outbound database opens, and wakes exactly when no container runs and some pending, triggering message has come due to the second |
| HostSweep.SweepEndDoes | src/host-sweep.ts:191-218 | by fields: when the second half kills or finds the container dead, each claimed, pending message that does not wait gets one more try and a time 5, 10, 20, 40 or 80 s after the database clock, or at five tries has failed; nothing else changes |
| HostSweep.SweepEndKills | src/host-sweep.ts:191-218 | it kills exactly a running container, not just woken, that is over the ceiling or the tolerance; kill and cleanup drop the claims in progress, each once and no other acknowledgement |
| HostSweep.RetriesAreCounted | src/host-sweep.ts:290-345 | in every run each tick that cleans up while the message is claimed and due spends one try, and nothing else does |
| HostSweep.SixCrashesFail | src/host-sweep.ts:303-318 | so a message has failed exactly when its tries and such ticks come to six |
| Delivery.DeliveryHost.Enter | src/delivery.ts:154-190 | re-entry into a session is refused; otherwise the guard is set and the snapshot is the due messages without a verdict, in order |
| Delivery.DeliveryHost.Finish | src/delivery.ts:190-229 | an attempt that was sent is recorded as delivered, a third failure as given up, others only count; no verdict when the table cannot be written, and giving up then ends the drain |
| Delivery.DrainGoesOn | src/delivery.ts:190-229 | after an attempt the drain goes on to the next message of its snapshot, unless it was the last or a third failure could not be recorded |
| Delivery.DeliveryHost.Leave | src/delivery.ts:154-165 | exactly the session's guard is removed |
| Delivery.DeliveryIsSafe | src/delivery.ts:32-50 | in every interleaving in which the verdicts called for can be recorded: one open drain per session, at most three attempts and one sending per message, and a sent message is recorded as delivered |
| Delivery.VerdictsTellTheTruth | src/delivery.ts:190-229 | over every recordable run, a message new to the table is recorded as delivered exactly when it was sent, once, and as given up exactly when three attempts were made, none is under way, and none was sent |
| Delivery.SnapshotKeepsOrder | src/delivery.ts:180-191 | the snapshot has the due messages without a verdict in the order they were read |
| Delivery.DecidedIsFinal | src/delivery.ts:167-229 | in every interleaving, whatever can be written, a message with a verdict keeps it and is never attempted or sent again |
| Delivery.RunKeepsBase | src/delivery.ts:154-165 | in every interleaving, whatever can be written, the guard set is that of the open drains, what is left of a snapshot is undecided, and a message under way is awaited by one drain |
| Delivery.RunKeepsInv | src/delivery.ts:167-229 | while verdicts can be recorded, attempts, sendings and verdicts of every message agree, and each drain lowers what it has done |
| Delivery.CompletedDrainLowers | src/delivery.ts:167-229 | a completed drain has lowered the attempts left by at least one for each message of its snapshot |
| Delivery.AgainIff | src/delivery.ts:190-229 | after an attempt ends in any reachable host, the message can be attempted again, and sent again, exactly when the table could not be written, or the attempt failed and was not the third |
| Delivery.DecidedIff | src/delivery.ts:190-229 | a message has a verdict after a run exactly when it had one before, or an attempt that was sent, or was the third, ended while the table could be written |
| Delivery.SnapshotIff | src/delivery.ts:167-190 | a due message is in the snapshot of the next drain exactly when none of this has happened |
| Delivery.UnwritableTableRepeats | src/delivery.ts:204-216 | with an unwritable table there are runs with any number of attempts, and of sendings, of one message |
| Containers.ContainerRunner.WakeContainer | src/container-runner.ts:87-108 | a wake starts a spawn only when the session is neither running nor being spawned |
| Containers.ContainerRunner.SpawnContainer | src/container-runner.ts:110-210 | the end of a spawn registers the process, or nothing, and removes the promise |
| Containers.ContainerRunner.KillContainer | src/container-runner.ts:213-227 | an onExit wake is registered on the running process; the maps stay until it exits |
| Containers.ContainerRunner.OnClose | src/container-runner.ts:193-203 | the close listeners of the process run in the order they were registered |
| Containers.ContainerRunner.OnError | src/container-runner.ts:205-210 | an error event removes the session from the active map without waking, whether or not the process has ended |
| Containers.ContainerRunner.RestartAgentGroupContainers | src/container-restart.ts:22-65 | the count is the number of listed sessions that are active and have a running container; exactly their containers are asked to stop; exactly those with something to process get an onExit wake |
| Containers.TargetsAre | src/container-restart.ts:23-27 | the sessions restarted are all those that are active and have a running container, as often as they are listed |
| Containers.RunKeepsInv | src/container-runner.ts:87-210 | in every interleaving the active map lists exactly the running processes, one per session and none that is being spawned, and every process has its removal as first close listener |
| Containers.AtMostOneContainer | src/container-runner.ts:87-108 | two running processes of one session are the same |
| Containers.ExitWakeStartsSpawn | src/container-restart.ts:48-58 | in every run, running the listeners of a process with an onExit wake finds the session gone and not being spawned, so it starts a spawn |
| Containers.RemovalRunsFirst | src/container-runner.ts:193-219 | with the removal registered first, the listeners come to a removal and then one wake |
| Containers.WakeStartsIff | src/container-runner.ts:193-219 | in whatever order they were registered, the listeners start a spawn exactly when a wake comes after a removal |
| Containers.RestartRespawns | src/container-restart.ts:22-65 | a process with an onExit wake keeps it until it closes, and then a spawn for its session is under way |
| Containers.SecondEndHarmlessIff | src/container-runner.ts:193-210 | a second end report is harmless exactly when its session has no container then |
| Containers.TwoEndsTwoContainers | src/container-runner.ts:193-210 | the run with two containers of one session |
| Containers.ErrorHarmlessIff | src/container-runner.ts:205-226 | an error event of a running process keeps the invariant exactly when the process has ended |
| Sessions.SessionManager.ResolveSession | src/session-manager.ts:92-133 | the found or created session, and the table after it |
| Sessions.FindForAgent | src/db/sessions.ts:36-53 | a session is found exactly when an active row matches agent, chat and looked-up thread |
| Sessions.FindByAgent | src/db/sessions.ts:56-60 | an active row of the agent is found whenever there is one |
| Sessions.ResolveKeepsUnique | src/session-manager.ts:92-133 | a sound call leaves active keys unique |
| Sessions.RunKeepsUnique | src/session-manager.ts:92-133 | so does any run of sound calls and closings |
| Sessions.StableIff | src/session-manager.ts:92-133 | asking again returns the same session exactly for the sound calls |
| Sessions.CreatesIff | src/session-manager.ts:92-133 | when a call creates, by mode: no active session of the agent, or none of agent and chat in the thread that the mode looks up |
| Sessions.ResolvesTo | src/session-manager.ts:110-133 | what a creation stores, and that a found session is active and of the agent and chat asked for |
| Sessions.AgentSharedAcrossChats | src/session-manager.ts:98-103 | an agent-shared wiring has one session across all chats and threads |
| Sessions.SharedAcrossThreads | src/session-manager.ts:104-117 | a shared wiring has one session across the threads of a chat |
| Sessions.PerThreadApart | src/session-manager.ts:104-128 | one session per thread keeps different threads and chats apart |
| Sessions.NewestIsFound | src/db/sessions.ts:56-60 | of several active sessions of an agent the newest is found |
| Router.RouterState.FanOut | src/router.ts:284-352 | each wiring has its turn on the sessions as the ones before it, and the turns of other events in between, left them; counts, the dropped verdict and the subscription are those of the outcomes |
| Router.FanOutIsIndependent | src/router.ts:284-352 | a wiring ends as if evaluated alone at the start, whatever other agents do before it |
| Router.OwnTurn | src/router.ts:375-406 | a sticky wiring engages exactly on a mention or in a thread with a session, and only a passed mention gives its thread one |
| Router.PlayKeepsStickyInv | src/router.ts:284-331 | in every interleaving of turns the sessions of the chat are exactly its passed mentions |
| Router.StickyLaw | src/router.ts:395-402 | a sticky wiring engages exactly on a mention, or after a mention that passed both gates in the thread the lookup asks for |
| Router.EmptyThreadIsNotSticky | src/session-manager.ts:104-128 | the follow-up in an empty thread id that is not picked up |
| Router.EngagesIff | src/router.ts:375-406 | when each kind of wiring engages: a missing, "." or invalid pattern always, another when it matches; mentions; sticky threads in groups; an unknown mode never |
| Router.OutcomeIs | src/router.ts:288-341 | delivered exactly when the agent exists, the wiring engages and both gates pass; stored exactly when it does not engage and accumulates |
| Router.DeliversTo | src/router.ts:408-425 | a threaded adapter in a group chat gives each thread its session, unless the wiring is agent-shared; other wirings keep their mode |
| Router.SubscribesIff | src/router.ts:303-320 | the platform carries a thread exactly for a sticky wiring on a threaded adapter in a group chat |
| Bytes.UInt32RoundTrip | setup/lib/teams-manifest.ts:137-144 | four big-endian bytes read back as the number written |
| Bytes.BigEndian | setup/lib/teams-manifest.ts:137-144 | the most significant byte comes first |
| Crc32.BuildTable | setup/lib/teams-manifest.ts:117-127 | entry n is the register after byte n has been clocked through it |
| Crc32.Compute | setup/lib/teams-manifest.ts:129-135 | the table-driven CRC of any buffer is the bit-serial CRC of section 3.4 of RFC 2083 |
| Crc32.ByteStep | setup/lib/teams-manifest.ts:129-135 | eight serial clocks are one lookup and one shift |
| Crc32.ShiftLinear | setup/lib/teams-manifest.ts:117-127 | the register step is linear over exclusive or |
| Crc32.ShiftInjective | setup/lib/teams-manifest.ts:117-127 | and invertible |
| Crc32.BurstDetected | setup/lib/teams-manifest.ts:129-135 | different buffers that agree outside a window of 32 bits have different CRCs |
| Crc32.FourByteErrorDetected | setup/lib/teams-manifest.ts:129-135 | the same for a window of four bytes |
| Crc32.PolynomialPowers | setup/lib/teams-manifest.ts:117-127 | the register is fed back through the generator of section 3.4 of RFC 2083, lowest power on top |
| Crc32.CrcOfEnd | setup/lib/teams-manifest.ts:129-135 | the CRC of the four bytes IEND is ae426082, as in every PNG file |
| Png.EncodeChunk | setup/lib/teams-manifest.ts:137-144 | the bytes are length, type, data and CRC of section 3.2 of RFC 2083, unless the length does not fit |
| Png.ParseInvertsFraming | setup/lib/teams-manifest.ts:137-144 | a reader that checks lengths and CRCs gives back any list of framed chunks |
| Png.FilterScanlines | setup/lib/teams-manifest.ts:150-178 | the filled buffer is a zero byte and the pixel bytes for each row |
| Png.FilteredAt | setup/lib/teams-manifest.ts:162-170 | row y starts at y (rowBytes + 1) with a zero byte, and byte x of it is pixel byte y rowBytes + x |
| Png.UnfilterFiltered | setup/lib/teams-manifest.ts:150-178 | undoing filter type 0 gives the rows back |
| Png.FlattenRows | setup/lib/teams-manifest.ts:150-178 | the rows laid end to end are the image |
| Png.EncodePng | setup/lib/teams-manifest.ts:150-178 | fails exactly when a number does not fit 32 bits; otherwise the file has the layout of LayoutOf, and a reference decoder gives back width, height and pixels |
| Png.LayoutOf | setup/lib/teams-manifest.ts:172-177 | the file byte by byte, but for two CRCs: signature, IHDR with width, height and 8, 6, 0, 0, 0, IDAT, and the twelve bytes of IEND |
| SplitForLimit.CutPrefersBreaks | src/channels/chat-sdk-bridge.ts:115-129 | the cut is the last paragraph break within the limit, else the last line break, else the last blank, else the limit |
| SplitForLimit.CutInNumbers | src/channels/chat-sdk-bridge.ts:115-129 | the same by code units: two 10s, then a 10, then a 32, each the last up to the limit |
| SplitForLimit.FirstChunkIs | src/channels/chat-sdk-bridge.ts:115-129 | the first chunk ends before the white space in front of the cut, and the split goes on after the white space behind it |
| SplitForLimit.Split | src/channels/chat-sdk-bridge.ts:115-129 | chunks within the limit, only the first can be empty, none but the last ends and none but the first starts with white space, every visible unit kept once and in order |
| SplitForLimit.PiecesAreSplit | src/channels/chat-sdk-bridge.ts:115-129 | the text is the chunks with white space between them |
| SplitForLimit.FittingWordsStayWhole | src/channels/chat-sdk-bridge.ts:115-129 | when words fit the limit, there is white space at every cut |
| SplitForLimit.ProgressIff | src/channels/chat-sdk-bridge.ts:115-129 | the loop shortens what remains exactly when the limit is positive or white space leads |
| SplitForLimit.EndsIff | src/channels/chat-sdk-bridge.ts:115-129 | the whole loop ends exactly when the limit is positive or the text is all white space |
| ButtonCodec.DecodersAgree | src/channels/chat-sdk-bridge.ts:298-303 | the splitting and the searching decoder agree on every id |
| ButtonCodec.SearchInverts | src/channels/chat-sdk-bridge.ts:654-664 | a click is decoded exactly from the id that encodes it, and only for colon-free questions |
| ButtonCodec.DecodeEncodeIff | src/channels/chat-sdk-bridge.ts:430-443 | encoding then decoding gives question and tail back exactly when the question has no colon |
| ButtonCodec.DecimalRoundTrip | src/channels/chat-sdk-bridge.ts:102-113 | a printed index is a numeral and reads back as itself |
| ButtonCodec.ClickRoundTrip | src/channels/chat-sdk-bridge.ts:298-328 | a click on button i answers with the value of option i in both handlers, but for an empty value in the second |
| ButtonCodec.HandlersAgreeIff | src/channels/chat-sdk-bridge.ts:654-700 | the handlers pass on the same answer exactly when the id encodes no click, or one with a question id that selects a non-empty value |
| ButtonCodec.OldCardsResolveIff | src/channels/chat-sdk-bridge.ts:94-113 | a literal value resolves to itself exactly unless it is the index of an option with another value |
| ButtonCodec.ColonMisroutes | src/channels/chat-sdk-bridge.ts:430-443 | with a colon in the question id, whatever either handler answers is for another question |
| ButtonCodec.ShowsOwnLabel | src/channels/chat-sdk-bridge.ts:312-314 | with distinct values the card shows the label of the option clicked |
| ButtonCodec.NormalizeOptions | src/channels/ask-question.ts:24-38 | one normalized option for each raw one, in order |
| ButtonCodec.NormalizedFields | src/channels/ask-question.ts:24-34 | a bare text is label, selected label and value; an option keeps what it gives and falls back to its label |
| ButtonCodec.ButtonIdExample | src/channels/chat-sdk-bridge.ts:430-443 | button 12 of question q7 has the id ncq:q7:12 |
| ButtonCodec.DecimalPlaces | src/channels/chat-sdk-bridge.ts:102-113 | numerals are read in base ten, digits from 0 to 9 |
| ButtonCodec.EchoedValueWins | src/channels/chat-sdk-bridge.ts:102-113 | a value that comes with the click goes before the tail of the id |
| StatusBlocks.StatusStream.Write | setup/lib/runner.ts:58-77 | searching the buffer for lines does what feeding the chunk character by character does; the transcript grows by the chunk, and every block is reported when it closes |
| StatusBlocks.StatusStream.ProcessOne | setup/lib/runner.ts:79-98 | the effect of one line on the open block, the finished ones and the callback |
| StatusBlocks.MatchStartIff | setup/lib/runner.ts:79-84 | a start line carries exactly the one word between the markers |
| StatusBlocks.LineDoes | setup/lib/runner.ts:79-98 | a start line opens a block even inside another, an end line closes the open one, and a line without a colon or outside a block does nothing |
| StatusBlocks.FieldLineDoes | setup/lib/runner.ts:90-98 | a field line sets the name before the first colon to the text after it, blanks around either left out; a nameless one does nothing |
| StatusBlocks.ChunkingIsInvisible | setup/lib/runner.ts:68-77 | the parse depends only on the concatenation of the chunks |
| StatusBlocks.EmitStatus | setup/status.ts:6-16 | the output is the start line, a line for each field and the end line |
| StatusBlocks.PrintedText | setup/status.ts:6-16 | the characters of a block with no field or one |
| StatusBlocks.StreamRoundTrip | setup/lib/runner.ts:58-98 | printed blocks among noise lines, in any chunks, give exactly those blocks |
| StatusBlocks.RoundTripIff | setup/status.ts:6-16 | a printed block comes back as itself exactly when type, keys and values are clean and no field line is a control line |
| StatusBlocks.FeedKeepsClean | setup/lib/runner.ts:79-98 | whatever the input, parsed types, keys and values are clean |
| StatusBlocks.BlocksThatDoNotComeBack | setup/lib/runner.ts:79-98 | three blocks that do not come back as printed |
| UninstallPlan.BuildRemovalPlan | setup/uninstall/plan.ts:54-130 | the five groups in order, and the plan is empty exactly when nothing is selected or found |
| UninstallPlan.PlanIsOrdered | setup/uninstall/plan.ts:4-13 | service, vault agents, the .env backup, paths, runtime, node_modules last |
| UninstallPlan.TailIsTheStableSort | setup/uninstall/plan.ts:120-126 | the runtime tail is the one stable sort with node_modules last |
| UninstallPlan.PlanCovers | setup/uninstall/plan.ts:54-130 | every item of the chosen groups is removed once, and no other path |
| UninstallPlan.HeadThenTailIsPlan | setup/uninstall/flow.ts:218-233 | the head filter followed by the tail filter is the plan |
| UninstallPlan.PlannedIff | setup/uninstall/plan.ts:54-130 | for every kind of action, when it is planned: for what was found, in a chosen group; with the service group host and containers are stopped whatever was found; the first .env is backed up and not deleted |
| UninstallPlan.OrderThatMatters | setup/uninstall/plan.ts:4-13 | the host is stopped first, vault agents go before data, the backup before every deletion, the runtime last and node_modules at its end |
| UninstallExec.Uninstaller.ExecutePlan | setup/uninstall/remove.ts:23-39 | actions run in order whatever fails, and the notes are those of the actions that failed |
| UninstallExec.TwoRunsAreOne | setup/uninstall/flow.ts:218-233 | running the head and then the tail has the files and notes of one run |
| UninstallExec.ExistingItems | setup/uninstall/scan.ts:262-279 | exactly the listed names that exist under the root |
| UninstallExec.ScanFindsData | setup/uninstall/scan.ts:98-104 | which names the scan looks for in the data group |
| UninstallExec.ScanFindsRuntime | setup/uninstall/scan.ts:106-109 | and in the runtime group |
| UninstallExec.ScanFindsUser | setup/uninstall/scan.ts:111-114 | and in the user group |
| UninstallExec.ScanFindsService | setup/uninstall/scan.ts:153-240 | which unit files, PID file, image and link it finds on which platform |
| UninstallExec.BenignActionDoes | setup/uninstall/remove.ts:41-190 | without faults each action leaves no note, removes exactly its target, and the backup holds what .env held |
| UninstallExec.NotedIff | setup/uninstall/remove.ts:41-190 | for every kind of action, the faults that leave a note |
| UninstallExec.TouchesOnlyItsTarget | setup/uninstall/remove.ts:41-190 | fault or not, an action changes nothing but its target |
| UninstallExec.SecretsSurvive | setup/uninstall/remove.ts:41-58 | for scanned inventories, whatever fails and wherever the run is broken off, the .env contents are in .env or a backup beside it |
| UninstallExec.NoSilentLeftovers | setup/uninstall/remove.ts:23-39 | a planned path that still exists at the end has its action in the notes |
| UninstallExec.NeverClobbersIff | setup/uninstall/remove.ts:41-58 | whatever becomes of the copy, a backup keeps every other file exactly unless the plain name is taken, the stamped name is a file, and what is written there differs from it |
| UninstallExec.BackupsCanClobber | setup/uninstall/remove.ts:45-58 | the files on which a whole or a torn copy destroys an older backup |
| CircuitBreaker.Breaker.EnforceStartupBackoff | src/circuit-breaker.ts:46-84 | the state written before the wait: now, and one attempt more than an hour-young state held, else the first; and the delay of that attempt |
| CircuitBreaker.Breaker.ResetCircuitBreaker | src/circuit-breaker.ts:39-44 | a clean shutdown leaves no state |
| CircuitBreaker.NextAttempt | src/circuit-breaker.ts:50-69 | the count restarts exactly without state or after an hour |
| CircuitBreaker.DelayIs | src/circuit-breaker.ts:8-37 | no wait at the first two attempts, then 10, 30, 120, 300 and 900 s |
| CircuitBreaker.WaitingNeverResets | src/circuit-breaker.ts:8-11 | a crash within 45 minutes after any wait is still counted |
| CircuitBreaker.DelayMonotone | src/circuit-breaker.ts:34-37 | later attempts never wait less, and none more than 900 s |
| CircuitBreaker.LoopTakesDelaySum | src/circuit-breaker.ts:46-84 | a crash loop takes at least the delays of as many consecutive attempts as it has boots that live through their wait |
| CircuitBreaker.CrashLoopRate | src/circuit-breaker.ts:46-84 | m such boots, m at least 6, take at least 460 + 900 (m - 6) seconds, however many others die waiting |
| CircuitBreaker.TightLoop | src/circuit-breaker.ts:46-84 | the bound is met by a loop that restarts at once |
| Migrations.CompareSemver | scripts/run-migrations.ts:6-14 | zero exactly for equal padded versions, otherwise the difference at the first part that differs |
| Migrations.CompareNegates | scripts/run-migrations.ts:6-14 | swapping the versions negates the result |
| Migrations.CompareTransitive | scripts/run-migrations.ts:6-14 | the order is transitive, strictly where a step is strict |
| Migrations.CompareCongruent | scripts/run-migrations.ts:6-14 | versions that compare equal compare alike with every other |
| Migrations.StableSortIsUnique | scripts/run-migrations.ts:60-67 | two stable sorts of one directory listing are the same |
| Migrations.SelectionIs | scripts/run-migrations.ts:53-67 | filtering and any stable sort give exactly the model's selection |
| Migrations.SelectedIff | scripts/run-migrations.ts:60-66 | a migration runs exactly when it is in the directory and compares above the first version and not above the second, as often as it is listed |
| Migrations.SelectedInOrder | scripts/run-migrations.ts:60-67 | the selected migrations run oldest version first |
| Migrations.UpgradesCompose | scripts/run-migrations.ts:60-67 | upgrading by way of a version in between runs the same migrations in the same order |

## Left out

- SQLite, Docker, the file system, sockets, HTTP and the platform SDKs: maps, event steps and parameters stand for them; transactions and lost database connections are not modelled.
- JSON encoding of stored values and of the breaker's file: values are texts, and the file either parses to what the breaker writes or counts as missing.
- The rest of `routeInbound` (sender resolution, interceptors, creation and registration of unknown chats) and of `deliverToAgent` (command gate, message writing, typing indicators): the model starts at the fan-out and ends at the session.
- What happens to an event nobody took beyond the dropped verdict.
- The message that a restart writes to each session for the fresh container to read; the model has its wake alone.
- `deliverMessage`: whether the adapter call returns is an input of the model; a message without an adapter counts as returned, as in the source.
- The loops of the two polls over sessions: in the model a poll may enter any session next, which includes every order of the loops.
- Recurring tasks and the task edits of the scheduling module beyond what they change in the message row.
- Container arguments, mounts, images and provider selection; `wakeContainer` returning true for a missing agent group is only its `SpawnNothing` step.
- `deflateSync`, icon drawing and the manifest itself.
- Key prefixes are on Dafny strings of Unicode characters; only the reply splitter works on UTF-16 code units.
- Posting of chunks and attachments, card layout and the editing of clicked cards.
- `spawnStep`'s choice of the last block with a STATUS field, and standard error, which reaches only the transcript.
- Display labels of uninstall items and all log texts; the confirmation dialogue and the split of vault agents.
- Version parts that are not integers, which compare as the source's number arithmetic has it; running the selected migrations.
- ButtonCodec.DecimalRoundTrip: indices are unbounded integers; rounding of numerals beyond 2^53 is not modelled, no option list is that long.
