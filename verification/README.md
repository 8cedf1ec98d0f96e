# A verified model of kape's event pipeline, session protocol and credential stamping

kape runs coding agents in sandboxes. A daemon in each sandbox spools what the agent
process prints; a controller pulls those records into a durable per-agent log, projects
the session state from that log, revives agents whose sandbox died, assesses running
turns, serves waiters, and carries credential bindings into the sandbox's network policy.
This project models that core in Dafny and proves what it keeps.

`dafny verify dfyconfig.toml` checks the whole project.

## Components

**Pull pipeline** (`spool_codec`, `spool`, `events`, `eventstore`, `eventhub`, `paging`,
`puller`, `pipeline`). The daemon's spool is a class over its file and its capped window;
the store and the hub are classes over their buckets and fields. `Pipeline` puts them into
one step relation with two independent crash domains: appends, crashes after any number of
written characters, polls and replies of any number of pull loops, single publishes that
commit, are refused, or commit just before the controller dies, lifecycle appends, hub
closes and restarts. Main results:

- `Pipeline.ExactlyOnce`: pulled records are logged with strictly increasing spool ids and
  seqs, each is the record durably spooled under its id, and stays so for the rest of the run.
- `Pipeline.LoggedUnlessJumped` and `Pipeline.MissingWasDropped`: an id at or below the
  watermark is in the log if and only if the watermark never jumped over it, and one that is
  missing had been dropped by the cap when a reply that skipped it was read.
- `Pipeline.DrainedBeforeMark`: when a poll comes back empty, a record the window holds is
  already in the log if and only if the watermark never jumped over it. One that is not was
  dropped by the cap and brought back by a later daemon start
  (`Pipeline.UndrainedWasBroughtBack`), because a recovered window is the whole file again; so
  without such a start a drain is complete (`Pipeline.DrainsCompletely`).
  `Pipeline.DrainCanMissARecord` is a run where it is not.
- `Pipeline.ServedSurvives`: a record once served stays on disk under its id through every
  later crash and recovery, and its id is never given out again.
- `Pipeline.CatchesUp`: from any point of any run with the daemon and an open hub up, a poll
  whose reply arrives and whose appends commit logs every window record above the watermark.
- `Spool.ParseOfFile`, `Spool.MalformedLineFails`, `Spool.CrashDuringAppend`: the recovery
  round trip for every list of entries and every torn tail, and its one error.
- `Paging.PagesAreExact`: pages read from the last returned seq concatenate to a prefix of
  the filtered log, whatever is appended between polls.

**Session protocol** (`session`, `revive`, `protocol`). The state machine's tables, the two
replay projections, the revive ledger, and one step relation over goroutines that interleave
between mutex-protected bodies, from the empty log of a new sandbox on, with refused appends
and restarts at any point. Main results:

- `Session.LiveEqualsReplay`: the cached state equals the replayed one at every point of a
  run if and only if every append outside a transition was harmless when it was made.
  `Session.SpoofedRecordDesyncs` shows a verbatim record with a controller type that is not.
- `Protocol.ProjectionsAgree`: the session and the liveness projection agree on every
  reachable log.
- `Protocol.RevivesArePaidIff`: revivals never outnumber consumptions, if and only if no
  re-arm is accepted before the startup revive has read the ledger. That read takes no lock,
  so a `Resume` that lands in the gap gives one attempt two holders (`Protocol.UnpaidRevive`).
  `Protocol.UnpaidHasCause`: any run with an unpaid revive has such a step.
- `Protocol.BudgetIff`, `Protocol.SpacingIff`: budget and cooldown hold if and only if log
  reads do not fail or the budget is at most 2^30, the count a failed read stands for (for
  spacing, also when there is no cooldown).
- `Revive.UsedIs`, `Protocol.ReadDecides`: the ledger counts exactly the consumptions since
  the last re-arm, and a read of it gives up, waits or goes on to an attempt exactly as that
  count and the time of the last one say. `Protocol.PausedRecovers`: with budget left, a
  paused session can be brought back to accept prompts once the cooldown has passed.
- `Protocol.ShutUntil`: after a failure, a delete or a refused start no prompt is accepted
  until a revive's or Create's status write or a restart. `Protocol.ClosedIsSilent`: a closed
  hub appends nothing until a restart.
- `Protocol.SinglePromptIff`: two accepted prompts have an observed settle or a completed
  revive between them, if and only if no acknowledgement is lost, no restart takes a busy
  agent for a ready one, and no revive writes its status after a prompt accepted since its
  `agent.revived`. That write happens outside the revive lock and looks at nothing, so with
  refused appends it can open the gate while a turn is in flight
  (`Protocol.StaleWriteDoubles`). `Protocol.DoubledPromptHasCause`: in any run, between a
  prompt and one accepted while it is unsettled lies one of these three steps.

**Monitor and waiters** (`monitor`, `wait`). Main results:

- `Monitor.GateCloses`, `Monitor.LateTicks`: in every interleaving of any number of settles,
  ticks and disarms a disarmed entry's ticks cannot append, and no tick lands after its
  entry's terminal assessment. `Monitor.TerminalBeforeSettled`: an entry a settle took is
  assessed on the log before that settle is.
- `Monitor.SettledIsFinalIff`: for one `agent.settled` in any run, no tick of an entry armed
  before its settle looked for one can follow it, whatever happens next, if and only if no
  such entry is at that moment out of the map with its gate still open. A disarm deletes the
  entry from the map before it bumps the generation, so a concurrent `fail`
  (`Monitor.SettledThenTick`) or an overlapping settle (`Monitor.OverlappingSettles`) leaves
  one in that state.
- `Wait.SuffixIff`, `Wait.NoLostWake`: what a waiter has folded and what its channel holds is
  the log since its snapshot if and only if the 256-slot channel never overflowed; and then a
  waiter blocks exactly when nothing since the snapshot was a wake, in which case the state
  and status it would report are still those of the snapshot. `Wait.WakeIsDelivered`: any
  wake since the snapshot is a trigger once the waiter has read its channel.

**Credential stamping** (`decimal`, `hostspec`, `lexicographic`, `credentials`). Main results:

- `Credentials.StampingIsSound`: on a policy without a stored `m1_credential_bindings` rule,
  the emitted operations bind every declaration of every bound host:port to its first-listed
  provider, leave every bound host:port declared, open every endpoint that gained a
  credential to the traffic it admitted before, and leave the rest alone.
- `Credentials.CompleteIff`, `Credentials.FramedIff`, `Credentials.FixpointIff`: the exact
  conditions when such a rule is stored. The fallback operation replaces it whole, so with
  keys still to add it drops what was declared only there.
- `Credentials.FailsClosedIff`, `HostSpec.SpecParsesIff`, `HostSpec.KeyRoundTrip`,
  `HostSpec.KeyIsExact`.

**Respawn backoff** (`backoff`) and **spawn tree** (`cascade`, `spawn`). Main results:

- `Backoff.ExactWhenSmall`, `Backoff.ExactIff`: the int64 shift with its guard is the capped
  doubling over the integers for every streak length under the stated bound, and in general
  if and only if sixty-four shifts are. `Backoff.StreakCounts`: the streak is the number of
  unexpected rapid exits since the last unexpected stable one. `Backoff.OnlyStableRunsReset`: only an unexpected exit
  after a stable run ever lowers the backoff.
- `Cascade.AgentManager.Delete`: on any parent map, cyclic or not and with gateway deletes
  failing, a delete terminates, unregisters exactly the agents reachable through child links,
  each once, children before parents and siblings in id order, and reports the first failure.
  `Cascade.BottomUpIff`: the root's own parent link keeps that order too if and only if the
  root is not its own descendant.
- `Spawn.CapIff`: every registered agent stays within the depth cap in every run, restarts
  included and although the cap is checked well before registration, if and only if no agent
  leaves the registry with its log still open and every rebuild reads every log, or the cap
  is zero. Otherwise an ancestor that was gone when a line was spawned below it comes back
  with the next rebuild. `Spawn.OverCapHasCause`: any run that passes the cap has such a step.

## Assumptions

- A store append commits or does not. A spool fault is a crash after some written prefix.
- Raw records carry no controller event type, except where that is the point
  (`Session.LiveEqualsReplay` and `Session.SpoofedRecordDesyncs`). Agent ids are fresh and
  never empty, and the clock does not go back. The controller never appends `agent.reviving`.
- A body held under one mutex is one step; everything else interleaves.
- I/O outcomes (store refusals, gateway failures, lost replies, sub-second timing) are
  parameters or nondeterministic steps.

Where code and comments disagree the model follows the code: `assessmentFromEvents` returns an
assessment when no turn was ever started, although its comment says it returns none; and the
window of a recovered spool is the whole file until the next append, whatever the cap.

## Model

| member | source | states |
|---|---|---|
| `SpoolCodec.UnescapeOfEscape` | daemon/spool.go:120-128 | decoding an escaped string gives the string back, control characters included |
| `SpoolCodec.EscapeHasNoNewline` | daemon/spool.go:120-128 | no encoded string contains a newline, so a line is one entry |
| `SpoolCodec.DecodeOfEncode` | daemon/spool.go:36-39 | decoding an encoded entry gives its id and data back |
| `SpoolCodec.EncodeHasNoNewline` | daemon/spool.go:120-128 | an encoded entry is one line |
| `Spool.Recover` | daemon/spool.go:50-118 | the recovery scan returns the entries of the terminated lines, cuts a torn final line, errors on a malformed one, and sets next above every id |
| `Spool.ParseOfFile` | daemon/spool.go:50-118 | for every list of entries and every newline-free torn tail the scan returns exactly those entries and their bytes |
| `Spool.MalformedLineFails` | daemon/spool.go:98-104 | a malformed line that a newline ends makes the open fail, whatever precedes and follows it |
| `Spool.ReopenedIsHealthy` | daemon/spool.go:50-118 | the reopened spool serves exactly the durable records, next is max+1, and the file is truncated to them |
| `Spool.AppendIsDurable` | daemon/spool.go:121-169 | an append keeps the spool well formed and extends the durable records by exactly what it wrote |
| `Spool.AppendBoundsWindow` | daemon/spool.go:141-169 | the window is a contiguous id suffix that grows by one while there is room and otherwise holds cap records and the notice, and holds the new record exactly when cap is at least 1 |
| `Spool.NewRecordIsDurable` | daemon/spool.go:141-169 | the new record is on disk and the window has exactly that size, for every cap |
| `Spool.PrefixOfFile` | daemon/spool.go:121-135 | any written prefix of some entries' lines is a whole number of lines and a newline-free rest |
| `Spool.CrashDuringAppend` | daemon/spool.go:50-169 | a crash anywhere in an append keeps every durable record and at most adds records of that append; the file reopens healthy |
| `Spool.AfterIsSuffix` | daemon/spool.go:199-206 | the records above a cursor are a suffix of a numbered window, cut exactly at the cursor |
| `Spool.Spool.AppendLocked` | daemon/spool.go:121-135 | file, next id and window move together |
| `Spool.Spool.Append` | daemon/spool.go:141-169 | the new state is the specified append under the cap and the record returned carries the next id |
| `Spool.Spool.Read` | daemon/spool.go:174-206 | a read returns exactly the window records with an id above the cursor |
| `EventStore.BoltEventStore.NextSeq` | controller/eventstore.go:86-103 | the highest stored seq, or none when the read fails |
| `EventStore.BoltEventStore.OriginWatermark` | controller/eventstore.go:133-146 | the stored watermark, or none when the read fails |
| `EventStore.BoltEventStore.Append` | controller/eventstore.go:107-167 | a committed append extends the log by one event and keeps the watermark; a refused one changes nothing |
| `EventStore.BoltEventStore.AppendWithOrigin` | controller/eventstore.go:115-130 | event and watermark commit together, the watermark never moving down |
| `EventStore.BoltEventStore.Replay` | controller/eventstore.go:170-192 | exactly the events after the cursor, in seq order, or none when the read fails |
| `EventStore.ReplayedIs` | controller/eventstore.go:170-192 | the replay has one event for each seq above the cursor, each at its place, and no other |
| `EventHub.EventHub.Open` | controller/events.go:41-51 | no hub exactly when a store read fails; otherwise counter and origin are recovered from the store |
| `EventHub.EventHub.PublishPulled` | controller/events.go:60-78 | a closed hub and a duplicate are silent no-ops, a refusal changes nothing; otherwise one event under the next seq, the spool id as the new watermark, and the event at the end of every channel that holds fewer than 256 |
| `EventHub.EventHub.Publish` | controller/events.go:93-129 | one event under the next seq, the watermark unchanged, and the event at the end of every channel that holds fewer than 256; or nothing |
| `EventHub.EventHub.Deliver` | controller/events.go:134-141 | the event goes to the end of every channel that holds fewer than 256, the others and the set of subscribers stay |
| `EventHub.EventHub.Subscribe` | controller/events.go:150-167 | replay after the cursor and an empty registered channel in one step, or nothing when the replay fails |
| `EventHub.EventHub.Close` | controller/events.go:171-175 | only the closed flag changes |
| `EventHub.PublishKeepsSynced` | controller/events.go:41-129 | the log stays seqs 1..n with the hub counter n and the hub's origin the watermark, across publishes and recovery |
| `Paging.FilterEvents` | controller/events.go:234-258 | the accumulating loop returns the first limit matching events after the cursor |
| `Paging.SelectedIff` | controller/events.go:234-258 | an event is selected exactly when it is in the log, above the cursor, its type not excluded, and its type asked for or none asked for |
| `Paging.PageIs` | controller/events.go:234-258 | a page holds only such events, at most limit of them, and all of them when there is no limit or it falls short |
| `Paging.SelectAscends` | controller/events.go:234-258 | the selection keeps the order of the log |
| `Paging.ResumeSelect` | controller/events.go:198-258 | resuming from any returned seq selects exactly the rest |
| `Paging.OnePage` | controller/events.go:198-258 | one page and what its last seq still selects are the whole selection of the grown log |
| `Paging.PagesAreExact` | controller/events.go:198-258 | pages concatenate to a prefix of the filtered final log with no gap or duplicate, for any growth between polls |
| `Paging.ShortPageIsTheEnd` | controller/events.go:198-258 | a page that is not full leaves nothing to read |
| `Puller.DrainSpool` | controller/puller.go:220-243 | terminates on a quiescent spool, publishes the window above the watermark in order up to the first refusal, and reports true exactly when nothing is left |
| `Puller.PublishAllMoves` | controller/puller.go:220-243 | publishing a reply logs each record once in order and moves the watermark to its last id |
| `Pipeline.ExactlyOnce` | controller/puller.go:107-150 | every run: gap-free log, counter equal to its length, pulled ids and seqs strictly increasing, each event the record spooled under its id, for good |
| `Pipeline.StepKeepsInv` | controller/eventstore.go:115-167 | every step of either side, crashes included, keeps that invariant and only grows log and durable records |
| `Pipeline.FetchedBatch` | daemon/spool.go:174-206 | a reply is gap-free, durable, and starts right after the cursor or at the window's first record |
| `Pipeline.StepPulls` | controller/events.go:60-78 | a step logs nothing, or one record above the watermark, which becomes the watermark |
| `Pipeline.PublishEffect` | controller/events.go:60-78 | the next record of a reply is logged under the next seq and becomes the watermark, ends the batch when refused, and is passed over when the hub is closed or it is at or below the watermark |
| `Pipeline.LifecycleEffect` | controller/events.go:93-129 | a lifecycle append takes the next seq and leaves the watermark; refused, or on a closed hub, it changes nothing |
| `Pipeline.ClosedHubIsSilent` | controller/events.go:171-175 | a closed hub stays closed and logs nothing while its controller lives |
| `Pipeline.PollEffect` | controller/puller.go:107-150 | a poll asks from the watermark and takes every window record above it |
| `Pipeline.CatchesUp` | controller/puller.go:107-150 | from any point of any run with both sides up and the hub open, a poll whose reply arrives and whose appends commit logs every window record above the watermark |
| `Pipeline.RunAccounts` | controller/puller.go:107-150 | everything below what a pull loop is about to publish is at or below the watermark or was skipped by its reply |
| `Pipeline.LoggedUnlessJumped` | controller/events.go:60-78 | an id at or below the watermark is logged if and only if the watermark never jumped over it |
| `Pipeline.WindowLosesOnlyToCap` | daemon/spool.go:141-169 | a durable id the window does not hold was dropped by the cap |
| `Pipeline.MissingWasDropped` | controller/puller.go:107-150 | a missing id at or below the watermark was dropped by the cap before the reply that skipped it was read |
| `Pipeline.DrainedBeforeMark` | controller/puller.go:58-86 | at an empty poll every window record is at or below the watermark, and is in the log if and only if the watermark never jumped over it |
| `Pipeline.UndrainedWasBroughtBack` | daemon/spool.go:50-118 | at an empty poll a window record missing from the log was dropped by the cap and brought back by a later daemon start |
| `Pipeline.DrainsCompletely` | controller/puller.go:220-243 | without a daemon start after an append over the cap, an empty poll means the whole window is in the log |
| `Pipeline.ServedSurvives` | daemon/spool.go:174-197 | every record a read served stays durable under its id for the rest of the run, and later daemons only assign higher ids |
| `Pipeline.DrainCanMissARecord` | controller/puller.go:220-243 | a run in which the drain ends while the window holds a record the log will never have |
| `Session.ReplaySession` | controller/fsm.go:91-99 | the loop computes the replay projection |
| `Session.ReplayAgentStatus` | controller/registry.go:298-320 | the loop computes the liveness projection |
| `Session.StatusIsTheLast` | controller/registry.go:298-320 | the status is that of the last status-carrying event, and creating when there is none |
| `Session.TerminatedIsTheEnd` | controller/fsm.go:70-86 | every state but terminated may terminate, and no edge leaves terminated or leads to provision or reviving |
| `Session.TurnEdges` | controller/fsm.go:70-86 | a turn starts only from ready, idle or paused; settles and pauses leave running only |
| `Session.TerminationIsFinal` | controller/fsm.go:91-99 | once a log holds agent.terminated, it replays to terminated whatever precedes and follows |
| `Session.SessionFSM.Transition` | controller/fsm.go:144-165 | succeeds exactly when the edge is legal and the append commits, then log and state move together; a synchronised machine stays so |
| `Session.LiveEqualsReplay` | controller/fsm.go:70-165 | over every run, live state equals replay throughout if and only if every other append was harmless |
| `Session.ControllerAppendsAreHarmless` | controller/fsm.go:40-99 | nothing the controller appends outside a transition can move the projection |
| `Session.SpoofedRecordDesyncs` | controller/events.go:284-292 | a verbatim record with a controller type desynchronises live state and replay |
| `Session.AppendKeepsAgreement` | controller/registry.go:298-320 | appends that are legal where they are made keep the two projections in agreement |
| `Revive.LedgerFromEvents` | controller/revive.go:70-96 | the loop computes the ledger fold |
| `Revive.LedgerCounts` | controller/revive.go:70-96 | the ledger counts every consumption of any stretch without a re-arm that ends now |
| `Revive.UsedIs` | controller/revive.go:70-96 | the budget spent is exactly the number of consumptions since the last re-arm |
| `Revive.LastIs` | controller/revive.go:70-96 | the last attempt is the time of the latest dated consumption since the last re-arm, and there is none exactly without one |
| `Revive.OpenIs` | controller/revive.go:70-96 | an attempt is open exactly when some consumption has no revival, abandonment or re-arm after it |
| `Revive.PaidAppend` | controller/revive.go:356-381 | an append keeps revivals at most consumptions in every prefix if a revival has an unused consumption |
| `Revive.BudgetAppend` | controller/revive.go:99-105 | a consumption the ledger leaves room for keeps every stretch within the cap |
| `Revive.SpacedAppend` | controller/revive.go:110-119 | a consumption the ledger finds cooled down keeps every stretch spaced |
| `Revive.TimedAppend` | controller/revive.go:70-96 | the ledger's last attempt is the latest of its stretch and not in the future |
| `Protocol.StepAppends` | controller/agent.go:666-711 | every step appends at most one event, those of transitions only where they are legal |
| `Protocol.ProjectionsAgree` | controller/registry.go:443-452 | on every reachable log, from the empty one on, live session equals replay, working implies running, paused implies failed, idle implies ready or failed |
| `Protocol.RevivesArePaidIff` | controller/revive.go:191-439 | in every prefix of every reachable log revivals are at most consumptions, if and only if no re-arm precedes the startup ledger read |
| `Protocol.RunFunded` | controller/revive.go:191-381 | up to the first re-arm taken before the startup ledger read, revivals plus attempts still held never exceed consumptions, at every point of every run |
| `Protocol.UnpaidHasCause` | controller/revive.go:255-263 | every run with an unpaid revive has a re-arm taken before the startup ledger read |
| `Protocol.UnpaidRevive` | controller/revive.go:255-263 | a run in which an early re-arm makes one consumption revive twice |
| `Protocol.BudgetIff` | controller/revive.go:221-246 | at most max(1, ReviveMax) consumptions between re-arms on every reachable log, if and only if failed reads are impossible or the budget is at most 2^30 |
| `Protocol.SpacingIff` | controller/revive.go:221-246 | consumptions without a re-arm between them are a cooldown apart on every reachable log, under exactly that condition or with no cooldown |
| `Protocol.ReadDecides` | controller/revive.go:221-246 | a ledger read gives up exactly when the consumptions since the last re-arm reach the budget, waits exactly while the last dated one is within the cooldown, and otherwise takes the lock for an attempt |
| `Protocol.PausedRecovers` | controller/revive.go:221-381 | with budget left, a paused session reaches a state that accepts prompts, at once or when the cooldown has passed, by one consumption, one revival and one settle |
| `Protocol.RunBudgeted` | controller/revive.go:395-426 | when reads are safe, what the lock holder checked stays true until it appends, so budget, spacing and lock exclusion hold at every point of every run |
| `Protocol.Overspend` | controller/revive.go:123-132 | failed reads with a larger budget allow any number of consumptions |
| `Protocol.SinglePromptIff` | controller/agent.go:666-711 | between any two accepted prompts lies an observed settle or a completed revive, if and only if no reply is lost, no restart takes a busy agent for a ready one, and no revive writes its status after a prompt accepted since its agent.revived |
| `Protocol.RunKeepsGuard` | controller/agent.go:986-1017 | from any point where an unsettled prompt keeps the status from ready, up to the next step of those kinds, it does, whatever appends and reads fail |
| `Protocol.PromptEffect` | controller/agent.go:666-711 | a rejected prompt changes nothing; an accepted one makes the agent working when its reply arrives, with the turn on the log if the store accepts it |
| `Protocol.PendingIsSpent` | controller/revive.go:356-381 | the pending flag is taken once; without a paused session nothing else changes, and a refused revive releases the lock and goes back to pulling |
| `Protocol.SettleReopens` | controller/agent.go:986-1017 | a settle record read during a turn ends it on the log and makes the agent accept prompts |
| `Protocol.FailureWrites` | controller/agent.go:1043-1066 | a failure writes failed over any status but terminated, records itself once when the store accepts it, and leaves no prompt accepted |
| `Protocol.ShutUntil` | controller/agent.go:599-711 | in every run, between a failure, a delete or a refused start and the next accepted prompt lies a revive's or Create's status write or a restart |
| `Protocol.DeathWantsAttempt` | controller/revive.go:169-195 | a death during a turn pauses the session, fails the agent and leaves its pull loop wanting an attempt |
| `Protocol.DeleteEnds` | controller/agent.go:599-639 | a delete ends the log with agent.terminated when the store accepts it, and closes the hub either way |
| `Protocol.ClosedIsSilent` | controller/events.go:93-175 | the end of a delete and a refused start close the hub, only a restart reopens it, and nothing is appended meanwhile |
| `Protocol.StoppedTakesNone` | controller/agent.go:599-639 | a stopped goroutine takes no further step |
| `Protocol.RunYoung` | controller/agent.go:350-401 | until Create has written its status no prompt was accepted, so that write is never stale |
| `Protocol.ExposedBetween` | controller/agent.go:666-711 | when a prompt is accepted while the last one is unsettled, a step of those kinds lies between it and any earlier accepted prompt |
| `Protocol.DoubledPromptHasCause` | controller/agent.go:666-711 | every run with two prompts in flight has two accepted prompts, the second while the first is unsettled, and a lost reply, a restart that hides the turn or a stale status write between them |
| `Protocol.StaleWriteDoubles` | controller/revive.go:373-379 | for every budget and cooldown, a run in which the status write of a revive lets a second prompt in |
| `Protocol.LostAckDoubles` | controller/agent.go:686-698 | a lost acknowledgement lets a second prompt in |
| `Protocol.BlindRestartDoubles` | controller/registry.go:375-455 | a restart after a refused turn start lets a second prompt in |
| `Monitor.AssessmentFromEvents` | controller/monitor.go:89-112 | the seq-comparing pass returns the latest decodable assessment with no turn start after it |
| `Monitor.LatestAssessmentIs` | controller/monitor.go:89-112 | there is none exactly when every decodable assessment has a later turn start |
| `Monitor.CurrentTurnWindow` | controller/monitor.go:125-143 | the back scan and filter return the current turn's events without assessments |
| `Monitor.ProjectionsOfAppend` | controller/monitor.go:89-143 | an assessment never changes the window, a turn start resets both projections |
| `Monitor.VerdictOfAppend` | controller/monitor.go:89-112 | a decodable assessment sets the verdict, a turn start clears it, nothing else touches it |
| `Monitor.StepKeepsInv` | controller/monitor.go:192-389 | every entry is armed, in one disarm's hands, or dead; ticks past the gate belong to live entries; what each of any number of settles knows stays true |
| `Monitor.GateCloses` | controller/monitor.go:224-237 | once an entry is disarmed none of its in-flight ticks can append |
| `Monitor.LateTicks` | controller/monitor.go:334-389 | no tick after its entry's terminal assessment; a tick after agent.settled belongs to an entry another disarm holds half-way |
| `Monitor.TerminalBeforeSettled` | controller/monitor.go:255-284 | in every interleaving in which the hub stays open and its appends commit, a settle that finds an armed entry takes it and records its terminal assessment before its agent.settled |
| `Monitor.ClosedHubIsSilent` | controller/events.go:171-175 | once the hub is closed no tick, terminal assessment or settle is logged |
| `Monitor.SettledIsFinalIff` | controller/agent.go:999-1015 | for each settle of each run: no earlier entry's tick can follow its agent.settled in any continuation if and only if none is out of the map with its gate open |
| `Monitor.SettledThenTick` | controller/agent.go:1043-1066 | the schedule in which a concurrent failure lets a tick land after agent.settled |
| `Monitor.OverlappingSettles` | controller/monitor.go:224-237 | the schedule in which a second settle does |
| `Wait.TriggersIff` | controller/wait.go:80-99 | a state trigger fires exactly when some event is a session event or a failure, an assessment trigger exactly when some verdict differs from its predecessor |
| `Wait.WakeOfIs` | controller/wait.go:80-99 | an event is a state wake exactly when it is a session event or a failure, and a verdict wake, with that verdict, exactly when it is a decodable assessment |
| `Wait.FoldOfSplit` | controller/wait.go:199-245 | folding events in any split gives the same triggers as one pass |
| `Wait.ConsumeWakeEvents` | controller/wait.go:199-216 | the loop reports a wake exactly when the slice holds a state change or a new verdict, and ends with the last verdict of the slice |
| `Wait.AwaitWake` | controller/wait.go:139-245 | replay, first wake and coalescing fold one contiguous stretch: up to the first event that wakes and the window after it, or everything when nothing does |
| `Wait.SuffixIff` | controller/events.go:134-167 | folded plus queued events are the log since the snapshot, once and in order, if and only if the channel never overflowed |
| `Wait.HubFeedsWaiter` | controller/events.go:134-141 | a waiter's queue moves exactly as its channel does in the hub's publish and pull |
| `Wait.NoLostWake` | controller/wait.go:107-192 | without overflow a drained waiter blocks exactly when nothing since its snapshot was a wake, and then state and status are unchanged |
| `Wait.WakeIsDelivered` | controller/wait.go:107-192 | without overflow, any wake since the snapshot is a trigger once the waiter has subscribed and read its channel |
| `Wait.SubscribeReplays` | controller/events.go:150-167 | subscribing hands over everything logged since the snapshot |
| `Wait.ReceivesDrain` | controller/wait.go:199-245 | receiving folds what the channel holds, in order |
| `HostSpec.KeyRoundTrip` | controller/credentials.go:83-176 | the printed key of a parsed pattern parses back to the folded host and the port |
| `HostSpec.SpecParsesIff` | controller/credentials.go:28-99 | exactly the hosts of allowed characters, globs included, with a port from 1 to 65535 are accepted, and read back as written |
| `HostSpec.FoldIgnoresCase` | controller/credentials.go:174-176 | two host names fold to one exactly when they differ in letter case only |
| `Decimal.NoLeadingZero` | controller/credentials.go:174-176 | a port is printed without leading zeros |
| `HostSpec.KeyIsExact` | controller/credentials.go:174-176 | two host:port pairs have one key exactly when they agree up to case |
| `Lexicographic.SortKeys` | controller/credentials.go:229-237 | the keys in ascending order, each once |
| `Lexicographic.ListingIsUnique` | controller/credentials.go:229-237 | a set has one such listing, so map order cannot show |
| `Credentials.MergePolicy` | controller/credentials.go:114-170 | the nested loops compute the additive merge, none on a malformed pattern |
| `Credentials.MergeIsAdditive` | controller/credentials.go:114-170 | existing endpoints stay in front unchanged, every bound pattern is declared, each addition is open REST over any method and path, carries its first-listed provider and is the first declaration of its key; it fails exactly on a malformed pattern |
| `Credentials.BinariesMerged` | controller/credentials.go:114-170 | the binaries keep their place, every missing path is added once, and nothing else |
| `Credentials.MergeIsIdempotent` | controller/credentials.go:114-170 | merging again changes nothing |
| `Credentials.BuildTable` | controller/credentials.go:210-227 | the loops compute the binding table |
| `Credentials.TableExists` | controller/credentials.go:210-227 | there is a table exactly when every pattern parses |
| `Credentials.TableKeys` | controller/credentials.go:210-227 | its keys are those of the patterns, each listed once |
| `Credentials.TableFirstWins` | controller/credentials.go:210-227 | each key is bound to its first-listed provider |
| `Credentials.RewriteRule` | controller/credentials.go:238-279 | clash exactly when a declared bound endpoint names another provider; otherwise bare bound endpoints gain the provider, uninspected ones any method and path over REST, all else is kept, and it reports whether anything changed and the bound keys declared |
| `Credentials.StampRules` | controller/credentials.go:229-301 | the loop over rules in key order emits exactly the changed rules and collects the declared keys |
| `Credentials.Fallback` | controller/credentials.go:303-322 | one additive rule for exactly the undeclared keys, or nothing |
| `Credentials.CredentialPolicyOps` | controller/credentials.go:202-324 | the whole call computes the specified outcome, the rules taken in key order |
| `Credentials.OpsApply` | controller/credentials.go:229-324 | upserting the emitted operations gives the stamped policy |
| `Credentials.StampedIsConflictFree` | controller/credentials.go:238-279 | every declaration of a bound key carries the table's provider |
| `Credentials.CompleteIff` | controller/credentials.go:303-324 | every bound key is declared if and only if the fallback rule orphans none |
| `Credentials.FramedIff` | controller/credentials.go:229-343 | everything else is unchanged, and a newly stamped endpoint keeps its L7 rules or gets any method and path over REST, if and only if the fallback replaces no stored rule |
| `Credentials.StampingIsSound` | controller/credentials.go:202-343 | without a stored fallback rule: first-listed provider everywhere, complete, framed, and every newly credentialed endpoint admits traffic |
| `Credentials.FixpointIff` | controller/credentials.go:202-324 | stamping its own result emits nothing if and only if no bound key was orphaned |
| `Credentials.FailsClosedIff` | controller/credentials.go:202-279 | with bindings it errors exactly on a nil policy, a malformed pattern or a conflicting provider |
| `Credentials.OutcomeIsDeterministic` | controller/credentials.go:229-237 | the outcome does not depend on map order |
| `Credentials.FallbackOrphans` | controller/credentials.go:303-322 | a stored fallback rule loses its only declaration of one key when another key is added, for any two keys |
| `Credentials.StampingCanOrphan` | controller/credentials.go:303-322 | a concrete policy and bindings for which that happens |
| `Backoff.OneStreak` | daemon/pi.go:313-319 | one streak's delay is exact if and only if the true value fits or the guard catches the wrap |
| `Backoff.WrappedIsLarge` | daemon/pi.go:315 | a wrapped multiple of 2^s is 0 from s = 64 on and never a positive number below 2^s |
| `Backoff.ExactWhenSmall` | daemon/pi.go:309-324 | delay equals min(initial·2^(n-1), max) for every n when initial·max < 2^(63+v), 2^v dividing initial |
| `Backoff.ExactIff` | daemon/pi.go:309-324 | it does for every n if and only if it does for the first sixty-four |
| `Backoff.WrapCanSlipThrough` | daemon/pi.go:316 | a policy outside the bound whose third delay wraps below its second |
| `Backoff.DefaultsAreExact` | daemon/pi.go:71-76 | the defaults 1 s and 30 s are exact |
| `Backoff.BackoffIsCappedDoubling` | daemon/pi.go:290-336 | after every run of launches, kills and exits the backoff is the capped doubling of the current streak, at most max, and 0 exactly with no streak |
| `Backoff.ExitStep` | daemon/pi.go:290-324 | an unexpected rapid exit adds one to the streak and sets its delay, an unexpected stable one clears both, any other leaves both |
| `Backoff.RapidExitBacksOff` | daemon/pi.go:309-324 | after an unexpected rapid exit the backoff is the capped doubling of the streak plus one |
| `Backoff.LaunchStep` | daemon/pi.go:124-175 | a launch of a stopped process clears the exit flags and, when it started, is the live generation, a restart unless the first; a running one is left; streak and backoff never move |
| `Backoff.StreakCounts` | daemon/pi.go:309-324 | in every run the streak is the number of unexpected rapid exits since the last unexpected stable one |
| `Backoff.OnlyStableRunsReset` | daemon/pi.go:309-324 | only an unexpected exit after a stable run lowers the backoff, and to 0 |
| `Backoff.DefaultBackoff` | daemon/pi.go:71-76 | the same bound for the defaults |
| `Backoff.Pi.RespawnDelay` | daemon/pi.go:138-149 | a launch is held for the backoff exactly after an unexpected exit |
| `Backoff.Pi.LaunchAfterDelay` | daemon/pi.go:150-175 | no-op when running; otherwise clears the exit flags and, if the process started, counts a generation and a restart |
| `Backoff.Pi.MarkIntentional` | daemon/pi.go:263-266 | only the intentional flag changes |
| `Backoff.Pi.AwaitExit` | daemon/pi.go:290-324 | a stale waiter keeps pi_running; streak and backoff move exactly as specified |
| `Cascade.AgentManager.DeleteOne` | controller/agent.go:599-639 | unregisters the id; fails on an unknown id or a refused sandbox delete |
| `Cascade.AgentManager.DeleteCascade` | controller/agent.go:562-595 | from any point of the walk: terminates, unregisters exactly the newly visited ids, children before parents, first error kept |
| `Cascade.AgentManager.Delete` | controller/agent.go:554-595 | unregisters exactly what is reachable through child links, each by one deleteOne, in bottom-up order with siblings sorted |
| `Cascade.WalkIsTeardown` | controller/agent.go:562-595 | a finished walk has visited exactly the reachable ids |
| `Cascade.ErrorIff` | controller/agent.go:562-639 | a delete fails exactly when the root is unknown or some reachable agent's sandbox delete is refused |
| `Cascade.BottomUpIff` | controller/agent.go:562-567 | every child precedes its parent if and only if the root is not its own descendant |
| `Spawn.WalkDepth` | controller/agent.go:486-503 | the link-chasing loop terminates on any linkage and computes the depth |
| `Spawn.DepthCountsAncestors` | controller/agent.go:486-503 | the depth is the length of a line of distinct registered ancestors that cannot be continued |
| `Spawn.LineIsUnique` | controller/agent.go:486-503 | any such line has that length |
| `Spawn.RegisteredDepth` | controller/agent.go:446-503 | a registration allowed by an earlier check stays within the cap and changes no other depth |
| `Spawn.CreateEndsOnce` | controller/agent.go:350-401 | after a create registered its agent or gave up, no later step of any run registers it again |
| `Spawn.RebuildRegisters` | controller/registry.go:375-455 | an agent whose log was written to is registered by exactly the rebuilds that read it |
| `Spawn.LogsCapped` | controller/registry.go:375-455 | under the invariant of the runs, what the logs would rebuild is within the cap as well |
| `Spawn.DepthStaysCapped` | controller/agent.go:446-457 | every registered agent stays within SpawnMaxDepth in every run from an empty registry, restarts included, in which no agent leaves the registry unrecorded |
| `Spawn.OverCapHasCause` | controller/agent.go:599-639 | every run that passes the cap has a removal its log does not record or a rebuild that could not read every log |
| `Spawn.CapIff` | controller/registry.go:375-455 | the cap holds in all runs exactly when neither can happen, or when it is zero |

## Left out

- gRPC, HTTP, SSE, MCP and TLS layers, daemon address resolution, the exec break-glass path, configuration parsing, kapeproxy, adapters, operator and dashboard: plumbing or single-branch checks that would only add easy members.
- Policy RPC sequencing in controller/policy.go and model calls in controller/slm.go: an assessment is a nondeterministic verdict or failure.
- Spool.Recover: a terminated line of valid JSON in another shape is an error here, because decoding covers the shape the encoder writes; ids are unbounded, not uint64.
- Spool.MalformedLineFails: malformed is every line not of the encoder's shape, as for Spool.Recover.
- Spool.Spool.AppendLocked: a Write or Sync that returns an error while the daemon lives on is not modelled; a spool fault is a crash.
- Spool.Spool.Append: for the same reason the failed-append and failed-notice returns are not modelled.
- Spool.Spool.Read: the blocking wait of a long poll is not modelled; a read answers at once.
- EventStore.BoltEventStore.Replay: a stored event that does not decode is a failed read, whichever event it is.
- SpoolCodec.DecodeOfEncode: decoding is modelled on the shape the encoder writes, not on every JSON text; the encoder's HTML escapes are kept, invalid UTF-8 is not modelled.
- HostSpec.KeyIsExact: lower-casing covers ASCII and the two other letters whose lower case is ASCII, because a valid host has no others.
- Credentials.StampedIsConflictFree: the endpoint's Ports list is not modelled, because the dedupe key reads the single port.
- Puller.DrainSpool: the effects of onPiRecord on a drained record are not part of this loop; Protocol has them as its own steps. Only a quiescent spool and an open hub are covered; appends during a drain are Pipeline steps.
- Pipeline.ExactlyOnce: the puller's backoff, boot-id comparison and degraded flag are not modelled; when a loop polls or gives up is nondeterministic.
- Protocol.SinglePromptIff: the timing of the replacement wait, the gateway calls inside Create, Steer and Abort are not modelled.
- Protocol.RevivesArePaidIff: at most one open attempt with a zero cooldown is not claimed; the code does not promise it under concurrency.
- Monitor.LateTicks: timers re-armed during RebuildFromLog and the telemetry fields are not modelled; a settle path may begin at any time, so the status test before it is not part of the model.
- Monitor.CurrentTurnWindow: the prompt read out of the turn start's payload is not modelled.
- Wait.AwaitWake: the timer, cancellation and the final snapshot read are not modelled; the coalescing window is a number of delivered events.
- Backoff.Pi.LaunchAfterDelay: argv assembly, the relays and the restart notice are not modelled.
- Backoff.Pi.AwaitExit: the exit notice and the reset of the queue tracker are not modelled.
- Cascade.AgentManager.DeleteOne: the terminal append, the monitor disarm, the hub close and the daemon withdrawal are not part of this model of the registry; Protocol and Monitor have the first two as steps.
- Cascade.AgentManager.DeleteCascade: sandboxes whose agent is not registered are not torn down here.
- Cascade.AgentManager.Delete: sandboxes whose agent is not registered, the daemon withdrawal and concurrent creates during a cascade are not modelled.
- Spawn.DepthStaysCapped: the children cap is not covered, because the code does not keep it under concurrent creates; the depth cap is at least 0.
- Liveness under fair scheduling (that a record is eventually pulled, that a revive eventually completes) is not stated; that the steps to either are there is (Pipeline.CatchesUp, Protocol.PausedRecovers), and termination is proved for the loops and the cascade.
