# Verified models of Heliograph

Heliograph polls targets from several vantages, keeps their rounds, raises alerts and edits its own
configuration. These Dafny modules model its stateful logic and prove what it is relied on for. Code that
changes things step by step is a class or a method with loops here; each such method is proved equal to
a function or a run of steps, and the theorems are about those.

**Store-and-forward of the agent** (`Frames`, `Overflow`, `SpoolDisk`, `SpoolRecovery`, `SpoolOpen`,
`SpoolSteps`, `SpoolObject`, `SegmentBounds`, `Delivery`, `AgentBuffer`, `StoreForward`, `RoundFates`,
`AgentRuntime`). A bounded FIFO of rounds is mirrored to a segmented, checksummed log with an atomically
replaced head watermark, and pushed to a hub with batches split on 413. `StoreForward` is the transition
system: make room, push, peek, send, commit, every system call of a flush with its failures, close, crash, an
interrupted recovery, restart. A history log gives each number its round, three history sets say what became
of it, and `RoundFates` where every entry comes from. `AgentRuntime` proves that the buffer and spool objects
only ever make runs of that system.

**Alerts** (`Matcher`, `AlertEngine`, `AlertStreams`, `AlertRuntime`, `AlertWindows`, `AlertReload`). Samples
are known reals or unknown. The memoised matcher, three-valued hysteresis, two-pass evaluation with
priority inhibition and the delivered bit, and the state transfer at a reload.

**Scheduler** (`Planning`, `Dispatching`). Grid arithmetic over runs of ticks, times before the epoch
included; the dispatcher as a protocol over the steps of its goroutines.

**Config** (`Identities`, `Staging`, `SiblingOrder`, `ConfigTree`, `ConfigMoves`, `ConfigEdits`,
`ConfigStage`). Id stamping and import, the shared staging session over the compare-and-set row, moves,
renames and staged edits of the target tree.

**Graph cache** (`GraphCache`, `GraphGrid`). The dashboard's incremental cache with its shared watermark.

`Wrappers` and `Sequences` hold the common helpers.

## Assumptions

- Crash model: a closed segment is complete (a roll syncs first); the active segment keeps everything
  fsynced and any byte prefix of later writes; the head file holds its old or new value; deletions and
  truncations are durable in the order issued; a segment created without a successful directory sync may or
  may not be there, which the failure settles.
- Checksum, JSON encoding of a round and its estimated size are parameters. Nothing is assumed of the
  checksum. Encoding is total, decodes back, and a round fits a segment (the writer does not check it, the
  reader rejects longer frames).
- `os.Remove` does not fail; sequence numbers stay below 2^63; each method that runs under a lock is atomic.
- The agent's buffer capacity is at least 1, as its options demand.
- Alerts are filed under their own names, and the names attached to the target that a theorem speaks of are
  distinct where it says so. Config trees and target lists have distinct keys, as maps do.
- Dashboard and hub read one clock in whole milliseconds, which does not run back; a target's rounds become
  visible in increasing time; no read is truncated. A target's metric does not change while its panel is
  cached: the hub drops rounds of another metric from every read, the cache keeps them.

## Where the code does less than it promises

- `migrate.go` promises an id for every host. A host below empty keys only has the empty path, is stamped
  with it, and stays without an id; every start then rewrites the row. `Identities.StampsAllIff` is the
  exact condition, `Identities.EmptyKeyNeverStamped` the input.
- The graph cache does not always show what a full bulk read of the window would. `GraphGrid.RefreshWholeIff`
  is the exact condition for every panel after every run. Apart from a new panel whose own read failed, it
  fails in four ways: a cached round that lies exactly on the cutoff is kept, a bulk read would not bring it
  (`GraphGrid.CutoffRoundStays`); the read of one panel alone does bring such a round
  (`GraphGrid.BackfillBringsCutoffRound`); a panel first filled by a bulk read that another panel's watermark
  cut off misses older rounds (`GraphGrid.LatePanelMissesRounds`); a panel that ran empty no longer holds the
  watermark back (`GraphGrid.EmptiedPanelMissesRounds`).

## Model

| member | source | states |
|---|---|---|
| Frames.DecodeEncode | internal/agent/spool.go:34-73 | decoding undoes encoding for every record that fits, whatever bytes follow the frame, and consumes exactly the frame |
| Frames.DecodePrefix | internal/agent/spool.go:51-73 | a frame cut short is a short frame, never a bad checksum; a complete one decodes the same however the bytes after it are cut |
| Frames.ReadSegment | internal/agent/spool.go:94-145 | the streaming reader (header, then payload, then decode) yields what decoding frame by frame from the front yields: records, bytes consumed, reason to stop |
| Frames.ScanConcat | internal/agent/spool.go:94-145 | reading a clean run of frames followed by more bytes reads both |
| Frames.ScanCut | internal/agent/spool.go:94-145 | a cut of an uncorrupted segment yields a prefix of its records, as long as the bytes allow, and never a bad frame |
| Frames.TornWriteTheorem | internal/agent/spool.go:94-145 | for any records and any byte cut of their frames there is exactly one count k of records wholly before the cut; the reader yields exactly those and their length, ends cleanly exactly on a frame boundary, else with a short frame, never with a bad checksum |
| Frames.DecodedIsEncoded | internal/agent/spool.go:51-73 | a decoded frame is byte for byte the encoding of its record, its length and the checksum of its payload little-endian in the first eight bytes; a frame with another checksum or a longer record is not decoded |
| Frames.ScannedIsEncoded | internal/agent/spool.go:94-145 | the bytes a reader consumed are exactly the frames of the records it returned |
| Overflow.RoomIffWithin | internal/agent/buffer.go:96-112 | a round finds room without eviction exactly when the longer list is within both bounds |
| Overflow.AdmitKeepsLongest | internal/agent/buffer.go:103-126 | if the rounds kept are the longest suffix within count and byte bounds, they still are after one more round |
| Overflow.AdmitAllKeepsLongest | internal/agent/buffer.go:103-126 | rounds arriving one after another leave exactly the longest suffix of all arrivals within both bounds, or the newest alone if oversized |
| Overflow.AdmitAllWithin | internal/agent/buffer.go:193-207 | a list within both bounds is admitted whole, without one eviction |
| Overflow.LongestWithinUnique | internal/agent/buffer.go:103-126 | the two bounds determine which suffix is kept |
| Overflow.ReloadKeepsAll | internal/agent/buffer.go:193-207 | what the policy kept is reloaded without one eviction, under any bounds |
| SpoolDisk.HeadRoundTrip | internal/agent/spool.go:181-222 | the watermark file reads back as the watermark written, for every checksum function |
| SpoolDisk.HeadOnlyWritten | internal/agent/spool.go:209-222 | a head file that is read holds exactly the twelve bytes written for its value; any other is an error |
| SpoolDisk.AppendRecord | internal/agent/spool.go:528-546 | a whole write extends a segment that mirrors the log by exactly the next log entry |
| SpoolDisk.AppendTorn | internal/agent/spool.go:528-546 | a write cut anywhere leaves the records before it and no other trace |
| SpoolDisk.CutFile | internal/agent/spool.go:94-145 | a crash that keeps any byte prefix beyond the fsynced bytes keeps every fsynced record |
| SpoolDisk.TruncateFile | internal/agent/spool.go:374-383 | cutting off a torn tail keeps every record, fsynced or not, and leaves a whole segment |
| SpoolRecovery.LiveClosedIsSuffix | internal/agent/spool.go:414-426 | the closed segments dead below a watermark are exactly a prefix of the list |
| SpoolRecovery.RemoveFirstOk | internal/agent/spool.go:414-426 | deleting a dead oldest segment leaves a directory that mirrors the same log with the same watermark |
| SpoolRecovery.OpenTheorem | internal/agent/spool.go:296-468 | opening any directory that mirrors a log succeeds, returns what the overflow policy keeps of the live entries under their own numbers, and leaves a directory that mirrors the same log, described by the new in-memory metadata and without a dead closed segment |
| SpoolRecovery.OpenAcceptsIff | internal/agent/spool.go:296-468 | openSpool accepts a directory exactly if the head file is absent or the one written for some value, every closed segment is complete, the last one holds no bad frame, all records together are numbered without a gap or a repetition, and every one at or above the watermark decodes |
| SpoolOpen.AdmitRound | internal/agent/spool.go:355-366 | the eviction loop of recovery is the overflow policy of the running buffer |
| SpoolOpen.ReplaySegment | internal/agent/spool.go:338-369 | the callback over one segment: a gap, a duplicate or an undecodable live record is an error; otherwise the bounded queue and the largest number |
| SpoolOpen.RecoverSegment | internal/agent/spool.go:330-403 | one segment: its records, then a torn tail forgiven in the last segment only, corruption nowhere; a failing truncation is an error |
| SpoolOpen.DropDead | internal/agent/spool.go:414-426 | the deletion loop keeps exactly the closed segments with a record at or above the durable head, with their metadata |
| SpoolOpen.OpenSpool | internal/agent/spool.go:296-468 | the whole of openSpool computes the function the recovery theorems are about; an unsound directory is an error and stays as it is; whichever system call fails it says so and leaves all of its deletions and truncations or none |
| SpoolSteps.SyncKeeps | internal/agent/spool.go:513-515 | an fsync moves the fsynced end to the end of the active segment and keeps the mirror |
| SpoolSteps.WriteKeeps | internal/agent/spool.go:528-546 | writing the next staged record keeps the mirror: memory, staged queue and files still make up one log |
| SpoolSteps.WriteFaultKeeps | internal/agent/spool.go:528-546 | a failed write of any length, whenever it comes, leaves a directory recovery accepts, with everything fsynced |
| SpoolSteps.RollKeeps | internal/agent/spool.go:548-574 | a roll, complete or failed at any call, leaves contiguous segments and everything fsynced |
| SpoolSteps.HeadKeeps | internal/agent/spool.go:516-522 | a watermark write, done or failed with either outcome, keeps the mirror: the durable head never passes what is fsynced |
| SpoolSteps.ReclaimKeeps | internal/agent/spool.go:576-587 | deleting a dead segment keeps the mirror, the log and everything fsynced |
| SpoolSteps.StepKeeps | internal/agent/spool.go:496-595 | every system call of a flush, successful or failed, keeps the invariant and loses nothing fsynced |
| SpoolSteps.RollsWhenFull | internal/agent/spool.go:528-546 | a roll closes a segment only if it holds something and the next frame would take it beyond the limit; a write only happens where the frame fits or is alone |
| SegmentBounds.SegmentsBounded | internal/agent/spool.go:528-546 | from the first start, over any run with any crashes and restarts, a segment file holds at most segmentMaxBytes, or at most one record and nothing behind it |
| SegmentBounds.ClosedWhenFull | internal/agent/spool.go:528-574 | at any point of such a run a segment is closed only if closed segment plus next frame exceed the limit, and a frame is written only where it fits or is alone, in bytes on disk |
| SpoolObject.LeadsSafely | internal/agent/spool.go:496-595 | any run of such calls keeps the mirror and everything fsynced |
| SpoolObject.Spool.Append | internal/agent/spool.go:470-477 | stages a round unless the spool is degraded or closed; touches nothing else |
| SpoolObject.Spool.AdvanceHead | internal/agent/spool.go:479-488 | moves the staged watermark forward only, unless degraded or closed |
| SpoolObject.Spool.RollSegment | internal/agent/spool.go:548-574 | its system calls, in order, are a run of spool steps that ends in a fresh segment, or in a fault exactly if one of them fails |
| SpoolObject.Spool.WriteRecord | internal/agent/spool.go:528-546 | afterwards the last segment is the old one with the frame behind it, or, exactly if something was in it and the frame would take it beyond segmentMaxBytes, a new one with that frame alone; fails exactly if a system call does; the whole is a run of spool steps |
| SpoolObject.Spool.WriteAll | internal/agent/spool.go:501-512 | writes the staged rounds in order as a run of spool steps, up to a failing call |
| SpoolObject.Spool.ReclaimDead | internal/agent/spool.go:576-587 | after it every closed segment left is live, and its deletions are spool steps on the oldest segment |
| SpoolObject.Spool.PersistHead | internal/agent/spool.go:516-522 | the watermark write and the deletions it allows are a run of spool steps; it fails exactly if its call does, and otherwise the durable head is the staged one |
| SpoolObject.Spool.Flush | internal/agent/spool.go:496-524 | a flush is a run of spool steps and fails exactly if one of its system calls does; when it succeeds the queue is empty, the whole log is fsynced and the watermark durable; when it fails the spool is degraded |
| SpoolObject.Spool.Close | internal/agent/spool.go:631-658 | a last flush, then closed; it fails exactly if a system call does, and otherwise the whole log and the watermark are on disk |
| Delivery.PostsInside | internal/agent/agent.go:257-284 | every post is a non-empty piece of the batch |
| Delivery.PostBound | internal/agent/agent.go:257-284 | at most 2n-1 posts for n rounds, whatever the hub answers |
| Delivery.SendSettles | internal/agent/agent.go:257-284 | without a transient failure every round of the batch was acknowledged or permanently refused, and not both |
| Delivery.SendFailsIff | internal/agent/agent.go:229-284 | a send fails exactly if some post got a transient answer, and that post was its last |
| Delivery.SendCounts | internal/agent/agent.go:257-284 | sent is the number of rounds acknowledged, sent + dropped = n; both are 0 after any transient failure |
| Delivery.SplitDeliversWhatFits | internal/agent/agent.go:229-284 | against a hub that answers 413 exactly above a cap on a monotone size: exactly the rounds that fit alone arrive, in order, the others are dropped |
| AgentBuffer.PackedUnique | internal/agent/buffer.go:134-152 | count and byte limits determine the peeked batch |
| AgentBuffer.Buffer.EvictToFit | internal/agent/buffer.go:103-112 | evicts the least number of oldest rounds that makes room, and counts them |
| AgentBuffer.Buffer.Add | internal/agent/buffer.go:114-126 | makes room, appends, keeps the byte count, and mirrors both to the spool under the right number |
| AgentBuffer.Buffer.PeekBatch | internal/agent/buffer.go:134-152 | the batch is the longest prefix within both limits, at least one round; upto is the number of its last round |
| AgentBuffer.Buffer.Commit | internal/agent/buffer.go:165-186 | removes the rounds numbered at most upto that are still there, whatever was evicted since, and tells the spool |
| AgentBuffer.RemovedIff | internal/agent/buffer.go:165-186 | of the rounds still there a commit removes exactly those numbered at most upto |
| AgentBuffer.Buffer.Reload | internal/agent/buffer.go:193-207 | holds what the policy keeps of the live rounds, numbers ending where they ended |
| StoreForward.CommitRemovesOnlyTheBatch | internal/agent/buffer.go:154-186 | whatever adds evicted since the peek, a commit removes only rounds of the peeked batch, each acknowledged or refused by the hub |
| StoreForward.StepSafe | internal/agent/agent.go:294-365 | every step of the system, crash and restart included, keeps its invariant and everything once fsynced |
| StoreForward.RunSafe | internal/agent/agent.go:294-365 | so does every run |
| StoreForward.FatedOrHeld | internal/agent/agent.go:294-365 | a fsynced round was acknowledged, refused or evicted, or recovery gives it back whatever a crash leaves, and a running buffer holds it |
| StoreForward.NoLoss | internal/agent/agent.go:294-365 | from the first start, over any run: a round once fsynced keeps its number and its content, and stops being buffered or recoverable only after an acknowledgement, a permanent refusal or an overflow eviction |
| RoundFates.FatesHaveCauses | internal/agent/agent.go:229-284 | from the first start, over any run: a number filed as acknowledged or refused is that of a round in a batch of which the hub accepted, or refused for good, a post with just that round; one filed as evicted is that of a round that together with all later ones left no room for a new one, or was older than what a restarted buffer could hold |
| StoreForward.CrashRecovery | internal/agent/spool.go:296-468 | after a crash at any point of any run openSpool succeeds and returns, in order and under their own numbers, the surviving records at or above the durable head, all fsynced ones among them; the next number continues the log |
| StoreForward.RecoveryKeepsLongestSuffix | internal/agent/spool.go:348-408 | under any capacity of at least one, recovery keeps exactly the longest suffix of the live records within the bounds, advances the head by exactly the number dropped, the reload then evicts nothing, and a second recovery gives the same answer |
| AgentRuntime.Agent.Start | internal/agent/agent.go:122-137 | on any stopped state a run can reach a start fails exactly if a system call does, and is then a run of the system that leaves it stopped; otherwise it is the restart step |
| AgentRuntime.Agent.Measure | internal/agent/buffer.go:114-126 | measuring a round is two steps of the system and gives it the next number |
| AgentRuntime.Agent.FlushSpool | internal/agent/spool.go:496-524 | a flusher tick is a run of the system and fails exactly if a system call does; otherwise every round measured so far is fsynced |
| AgentRuntime.Agent.Background | internal/agent/agent.go:139-144 | rounds measured and flusher ticks, in any order, are a run of the system that logs exactly those rounds |
| AgentRuntime.Agent.PushOnce | internal/agent/agent.go:330-363 | one turn of the push loop, with rounds measured and spool flushes before and during the push, is a run of the system; nothing is committed after a transient failure, refused rounds are counted |
| AgentRuntime.Agent.FinalFlush | internal/agent/agent.go:373-430 | the shutdown drain, with rounds still arriving and flushes at any point, is a run of the system; every push is a batch within both limits; it fails exactly if its last push got a transient answer, all earlier ones got none; drained means the buffer is empty; without arrivals the buffered rounds go in order, each in one batch, and more turns than rounds drain it unless the hub answers transiently |
| AgentRuntime.Agent.CloseSpool | internal/agent/spool.go:631-658 | closing is a run of the system and fails exactly if a system call does; otherwise every round measured is fsynced |
| AgentRuntime.SomeCodec | internal/agent/spool.go:34-73 | there are encodings that meet what is assumed of them |
| AgentRuntime.SomeRoundIsFsynced | internal/agent/agent.go:122-137 | from the first start, for every round, budget and segment size, some run leaves that round fsynced, so the no-loss theorem speaks of actual rounds |
| Matcher.TestHysteresis | internal/alert/matcher.go:76-104 | the loops over the tail: raise on x bad, clear on x good, hold on anything else and on any unknown |
| Matcher.ThresholdIs | internal/alert/matcher.go:74-104 | a threshold matcher raises exactly when the newest x samples of its own field are known and at or above the limit, and clears exactly when they are known and below it |
| Matcher.FiringIff | internal/alert/matcher.go:74-104 | from any window and state: firing exactly if some x consecutive samples were bad as the last of them came, or it was firing before, and no later x consecutive ones were all known and good |
| Matcher.UnknownHolds | internal/alert/matcher.go:76-92 | an unknown sample never changes the state |
| Matcher.ClearTakesX | internal/alert/matcher.go:74-104 | a clear comes at least x rounds after the raise |
| Matcher.MatchStep | internal/alert/matcher.go:193-225 | the newest token takes some stretch and the older ones match before it |
| Matcher.CompareLaws | internal/alert/matcher.go:227-246 | the six operators are those of the numbers, at, above and below the threshold |
| Matcher.UnknownAccepted | internal/alert/matcher.go:126-134 | an unknown sample meets no comparison, only ==U and the wildcard |
| Matcher.FieldOnly | internal/alert/matcher.go:170-184 | a matcher on loss does not depend on the rtt samples, nor the other way round |
| Matcher.PatternMatcher.MatchSteps | internal/alert/matcher.go:193-225 | the memoised recursion is true exactly if the tokens can be aligned, remembers only what cannot match, and passes the memo check at most once per state that fails |
| Matcher.TestPattern | internal/alert/matcher.go:170-184 | true exactly if some choice of skip lengths aligns the steps with the newest end; at most steps x (samples + 1) calls get past the memo check |
| Matcher.PatternLength | internal/alert/matcher.go:154-168 | the loop computes the largest number of samples the tokens can cover, at least 1 |
| Matcher.ReachBound | internal/alert/matcher.go:148-168 | no choice of skip lengths covers more samples |
| Matcher.ReachCovered | internal/alert/matcher.go:148-168 | and for every pattern some series is matched over all of them, so no smaller depth would do |
| Matcher.OldSamplesIrrelevant | internal/alert/matcher.go:148-168 | no sample older than that can change whether the pattern matches |
| Matcher.WindowEnough | internal/alert/engine.go:387-407 | no matcher can tell a window from its newest Length samples |
| AlertEngine.Engine.CapFor | internal/alert/engine.go:397-407 | the deepest window any attached alert needs |
| AlertEngine.CapIsNeeded | internal/alert/engine.go:397-407 | the windows are no deeper than some attached alert needs |
| AlertEngine.Engine.FirstPass | internal/alert/engine.go:280-305 | updates the matcher state of every attached alert and finds the highest firing priority |
| AlertEngine.Engine.SecondPass | internal/alert/engine.go:307-343 | derives the delivered bits and events from the verdicts and the inhibiting priority |
| AlertEngine.Engine.Evaluate | internal/alert/engine.go:261-343 | window, both passes and events of one round are the functions the stream theorems are about, and every event tells of the round and of an attached alert |
| AlertEngine.EventsTell | internal/alert/engine.go:261-343 | every event carries the vantage, loss and time of the round, its rtt in milliseconds, the display name or else the id, and name and comment of an attached alert |
| AlertEngine.EventsInOrder | internal/alert/engine.go:280-343 | the events of a round come in the order of the alert list |
| AlertEngine.Engine.SeedWindow | internal/alert/engine.go:409-430 | replaces the window by the newest part of the history and nothing else |
| AlertEngine.Engine.InheritStateFrom | internal/alert/engine.go:157-230 | in any order of the maps: exactly the entries the identity allows are taken over |
| AlertEngine.SplitKeyIff | internal/alert/engine.go:63-82 | a state key gives back its target and alert exactly if vantage and target hold no NUL |
| AlertStreams.RaiseIs | internal/alert/engine.go:280-305 | without a repeated name every alert is judged on its own state before the round |
| AlertStreams.SuppressedIff | internal/alert/engine.go:300-324 | an alert is suppressed exactly while one of strictly higher priority fires |
| AlertStreams.RoundFor | internal/alert/engine.go:307-343 | one round emits at most one event per alert: FIRING when it fires uninhibited (an edge alert only if none is open), RESOLVED when it stopped and one is open |
| AlertStreams.RoundOthers | internal/alert/engine.go:261-343 | a round leaves the streams of all other targets, vantages and alerts alone |
| AlertRuntime.RunStreams | internal/alert/engine.go:280-343 | on every run from any state, over any targets: the delivered bit is set exactly if the last event was FIRING, no RESOLVED is an orphan, edge-triggered streams alternate starting with FIRING; a FIRING open at the start counts as the first event |
| AlertRuntime.RunView | internal/alert/engine.go:280-343 | after every run delivered implies firing, and firing without a firing alert of higher priority implies delivered, if that held at the start or once a round concerned the alert |
| AlertRuntime.BootView | internal/alert/engine.go:409-421 | it holds at boot with any seeded windows, and no FIRING is open |
| AlertRuntime.StaleDropped | cmd/smoked/main.go:1203-1231 | a round measured under another definition than the live one, or of a target without alerts, changes nothing and sends nothing |
| AlertRuntime.CurrentJudged | cmd/smoked/main.go:1203-1231 | any other round is evaluated: its samples are the newest of the window |
| AlertRuntime.DeliveredTo | internal/alert/engine.go:345-368 | every event goes to exactly the recipients of its alert and those of the target itself, and tells of the round |
| AlertRuntime.DeliveredInOrder | internal/alert/engine.go:345-368 | what a round has to say is sent in the order of the alert list |
| AlertWindows.CappedIsFull | internal/alert/engine.go:387-407 | for any attached alerts and any rounds, from any state with capped windows, the engine delivers the same events in the same order as one that keeps the whole history |
| AlertWindows.EngineHysteresis | internal/alert/engine.go:261-305 | in the running engine, from any such state and whatever else it evaluates, a threshold alert fires exactly while the last verdict of x consecutive samples of its own target and vantage, seeded ones included, was bad |
| AlertReload.BuildIdentity | cmd/smoked/main.go:1353-1372 | the loops that fill the identity maps compute: present targets, unchanged fingerprints, attached alerts, unchanged recipients |
| AlertReload.Seed | cmd/smoked/main.go:1337-1346 | seeds no target whose fingerprint changed |
| AlertReload.SeededTrimmed | internal/alert/engine.go:409-430 | seeded windows are what the engine would keep of the whole histories |
| AlertReload.SwapRuntime | cmd/smoked/main.go:1307-1325 | seeding, then inheriting, gives the state the reload theorems are about |
| AlertReload.SwapKeepsLane | internal/alert/engine.go:157-230 | a target the reload leaves alone keeps window, firing and delivered bits for every vantage with a live window |
| AlertReload.ReloadTransparent | cmd/smoked/main.go:1307-1372 | for such a target every later run delivers the same events to the same recipients as the old runtime would have, however other targets and alerts changed and whatever was seeded |
| AlertReload.RedefinedStartsEmpty | cmd/smoked/main.go:1327-1346 | a target whose fingerprint changed starts with an empty window and nothing firing or delivered |
| AlertReload.RedefinedAlertDropped | internal/alert/engine.go:183-229 | an alert whose matcher differs in kind, field, limit, count or source text, that is missing on either side, or that is not attached any more, is neither firing nor delivered after the swap, for any vantage and target |
| AlertReload.AbsentTargetDropped | internal/alert/engine.go:157-230 | a target without alerts after the swap has an empty window and nothing firing or delivered |
| AlertReload.SwapKeepsView | internal/alert/engine.go:157-230 | no reload makes the delivered view claim more than the matchers say |
| AlertReload.RoutingEditClearsView | internal/alert/engine.go:183-229 | a detached alert or changed recipients never inherit a delivered FIRING |
| Planning.NextDelay | internal/scheduler/scheduler.go:303-313 | with the truncated remainder: lands on the least grid point strictly after now, before the epoch too |
| Planning.Planner.Reconcile | internal/scheduler/scheduler.go:251-268 | the loop over the jobs: due jobs in order, each re-armed at its next grid point |
| Planning.DueInOrder | internal/scheduler/scheduler.go:251-268 | each due job stands once in the result, in the order of the job list |
| Planning.Planner.Tick | internal/scheduler/scheduler.go:251-283 | due jobs, the new plan without the targets that left, and a sleep that oversleeps no firing |
| Planning.Planner.SleepToNext | internal/scheduler/scheduler.go:285-296 | the longest sleep within the cap that oversleeps no firing |
| Planning.TickedJob | internal/scheduler/scheduler.go:251-268 | among distinct names a tick decides about a job from that job's own entry |
| Planning.TickedGone | internal/scheduler/scheduler.go:269-281 | a target that is no longer there is forgotten |
| Planning.JoinsAfter | internal/scheduler/scheduler.go:251-279 | whatever the planner did before, a target joins at the first tick after one that did not list it with its step |
| Planning.PlanOnGrid | internal/scheduler/scheduler.go:251-283 | from the tick at which a target joins, into any plan, next is after every tick the least grid point strictly after now |
| Planning.DueIffGridPassed | internal/scheduler/scheduler.go:251-283 | due exactly at its first tick, whenever that is, and at every later tick that a grid point separates from the one before |
| Planning.ChangedStepRearms | internal/scheduler/scheduler.go:247-268 | a changed cadence is due at once and on the new grid |
| Planning.NoStepAlwaysDue | internal/scheduler/scheduler.go:245-268 | a job without a positive step is due at every tick from the one at which it joins |
| Planning.SleepPassesNoGridPoint | internal/scheduler/scheduler.go:285-296 | sleeping from any later time never passes a grid point of a target that joined and stayed |
| Dispatching.Dispatcher.Accept | internal/scheduler/scheduler.go:173-189 | the locked loop accepts the jobs not in flight, each key once, in order |
| Dispatching.AcceptedIs | internal/scheduler/scheduler.go:173-189 | the accepted keys are new and distinct; afterwards every requested key is in flight |
| Dispatching.AcceptedInOrder | internal/scheduler/scheduler.go:173-189 | they come in the order in which the call names them for the first time |
| Dispatching.StepKeeps | internal/scheduler/scheduler.go:173-222 | each step of any goroutine keeps: in-flight set = keys of unreleased jobs, one job per key, slots held = probes running <= workers, callback order |
| Dispatching.RunKeeps | internal/scheduler/scheduler.go:148-222 | so does every interleaving |
| Dispatching.WorkerBound | internal/scheduler/scheduler.go:159-164 | in every interleaving from NewDispatcher(workers) at most that many probes run at once, one if it is not positive, and while fewer run every waiting job can start |
| Dispatching.CallbacksSerial | internal/scheduler/scheduler.go:203-217 | callbacks of one target never overlap and run in acceptance order: when one starts, those of all earlier jobs of the target have ended |
| Dispatching.BatchAfterCallbacks | internal/scheduler/scheduler.go:217-221 | onBatch comes after the callbacks of all its jobs ended |
| Dispatching.Progress | internal/scheduler/scheduler.go:190-225 | until all accepted work is done and reported some goroutine can step |
| Dispatching.StepNearer | internal/scheduler/scheduler.go:190-225 | every step but Go brings that end exactly one step nearer, so it comes in any order |
| Dispatching.DrainEnds | internal/scheduler/scheduler.go:190-225 | a run without further Go takes at most the steps that are left, and ends all accepted work exactly when it takes them all |
| Dispatching.WaitingIs | internal/scheduler/scheduler.go:173-222 | the wait group counts a Go that accepts something, counts it off after its report, and nothing else |
| Dispatching.WaitReturns | internal/scheduler/scheduler.go:224-225 | on every interleaving the wait group is at zero exactly when all accepted work is done and reported; nothing is then in flight, no slot taken, no goroutine left |
| Staging.Store.Set | internal/configstore/configstore.go:60-86 | writes exactly if the expected version is the stored one (0: no row), and then increments it |
| Staging.WrittenIff | internal/configstore/configstore.go:60-86 | the compare-and-set writes exactly on the stored version, 0 standing for no row, and stores the document under the next one |
| Staging.Buffer.Ensure | internal/mcp/staging.go:57-75 | seeds document and version together, once per session; a hub that cannot be read seeds nothing |
| Staging.Buffer.Mutate | internal/mcp/staging.go:201-253 | applies the change to the current working document in one lock cycle, or changes nothing |
| Staging.Buffer.ResetIfUnchanged | internal/mcp/staging.go:187-195 | clears exactly if the session is the one snapshotted and nothing was written since |
| Staging.ApplyStaged | internal/mcp/config_write.go:86-104 | undisturbed, an apply stores the working document at the next version and ends the session; a conflict or a rejected document changes nothing; when the answer is lost the session stays |
| Staging.NoEditLost | internal/mcp/staging.go:162-261 | in every interleaving of staging, discarding, applying and other writers an edit is still staged, or was discarded, or was in a PUT that succeeded |
| Staging.ClearedOnlyBy | internal/mcp/config_write.go:86-104 | a session loses its edits only to a discard or to the apply whose successful PUT contained every one of them |
| Staging.EditsHaveEnds | internal/mcp/config_write.go:86-104 | an edit the model files as written was part of a PUT that stored, at the next version, the seeded document with its edits made; one filed as discarded was in a session at its discard |
| Staging.LostAnswerKeepsSession | internal/mcp/config_write.go:86-104 | an apply whose PUT was refused or whose answer was lost never clears the session, whatever happens later |
| Staging.PutSeesSeed | internal/mcp/config_write.go:86-104 | a PUT succeeds only while the hub holds the version and document the session was seeded from, and stores that document with exactly the staged edits made |
| Identities.IdentitiesAre | internal/config/config.go:713-738 | the identities are exactly those of the hosts at their places: the path is the keys from the first non-empty one, joined by slashes; the id is the own one, whatever the path, or else the path |
| Identities.StampIds | internal/configstore/migrate.go:22-72 | the walk stamps every host without an id and reports a change exactly if there was one |
| Identities.StampKeepsIdentities | internal/configstore/migrate.go:77-90 | birth-path stamping leaves the full list of (path, storage id) pairs of every tree unchanged |
| Identities.StampOnlyIds | internal/configstore/migrate.go:22-72 | whatever is minted, nothing but ids changes |
| Identities.StampKeepsIds | internal/configstore/migrate.go:22-72 | no existing id is altered and no group gets one |
| Identities.StampIdempotent | internal/configstore/migrate.go:77-90 | stamping twice is stamping once |
| Identities.StampsAllIff | internal/configstore/migrate.go:22-72 | every host ends up with an id, and a second run finds nothing to do, exactly if no host without an id sits below empty keys only |
| Identities.EmptyKeyNeverStamped | internal/configstore/migrate.go:22-72 | the input on which that promise fails |
| Identities.AppendImport | internal/config/config.go:384-459 | conflict exactly if some imported branch exists with other settings, and then nothing is merged; otherwise the new branches are added and counted |
| Identities.SameSettingsIff | internal/config/config.go:330-373 | two branches agree exactly if host, settings and, child by child, keys and what is below agree, whatever the ids; so a difference in any of these is a conflict |
| Identities.ImportMerges | internal/config/config.go:375-459 | no existing branch is touched and every imported one is there |
| Identities.ReimportChangesNothing | internal/config/config.go:331-459 | importing the same file again, after importing and any change of ids, adds nothing, conflicts with nothing and returns the document as it is |
| Identities.ImportMintReimport | internal/config/config.go:331-459 | so does importing it again after the merged document was stamped |
| SiblingOrder.OrderByWeight | web/dashboard.js:576-581 | every sibling stands once, lighter ones first, those of one weight by name |
| SiblingOrder.StrLessIs | web/dashboard.js:579 | names compare as their UTF-16 code units do: a proper prefix first, else by the first difference |
| SiblingOrder.SortedUnique | web/dashboard.js:576-581 | weight and name determine the visible order |
| SiblingOrder.SortSiblings | web/dashboard.js:576-581 | yields that order |
| SiblingOrder.SequenceSorts | web/dashboard.js:596-598 | sequential weights make any requested order the visible one |
| SiblingOrder.FewerSorted | web/dashboard.js:639-646 | losing siblings does not disturb the order of the others |
| ConfigTree.PruneEmptyGroups | web/dashboard.js:639-646 | bottom-up deletion removes exactly the host-less folders that hold nothing but such folders |
| ConfigTree.PrunedHas | web/dashboard.js:639-646 | a node goes exactly if it and everything below it are host-less folders |
| ConfigTree.PrunedNoneEmpty | web/dashboard.js:639-646 | no empty group is left |
| ConfigTree.PrunedTargets | web/dashboard.js:639-646 | pruning touches no target at any path, and nothing of a group that stays |
| ConfigEdits.Move | web/dashboard.js:717-749 | the step-by-step move, loops included, is the function the move theorems are about |
| ConfigMoves.MoveRefusedIff | web/dashboard.js:717-732 | exactly which of the refusals: at or below itself, no folder there, its name leads to another node; a stale source changes nothing |
| ConfigMoves.MoveKeepsTargets | web/dashboard.js:717-749 | every target is still there exactly once with host, id and settings, and its path changes only at and below the moved node; every group that is there has the settings it had; no empty group is left |
| ConfigMoves.MoveOrder | web/dashboard.js:734-741 | the (weight, name) order of the destination afterwards is the requested splice, up to pruned groups, and each weight is the place in it |
| ConfigMoves.SplicePlaces | web/dashboard.js:737-738 | the moved name stands at the requested index, clamped into the list, and the others keep their order |
| ConfigMoves.MoveSourceOrder | web/dashboard.js:742-748 | what is left of the source group keeps its order, up to pruned groups, and each weight is the place in it |
| ConfigEdits.Rename | web/dashboard.js:659-679 | the step-by-step rename is the function the rename theorems are about |
| ConfigEdits.RenameRefusedIff | web/dashboard.js:659-666 | refused exactly if another node has the new name; a stale path and the same name change nothing |
| ConfigEdits.RenameKeepsOrder | web/dashboard.js:653-679 | every sibling keeps its visible position |
| ConfigEdits.RenameKeepsWeights | web/dashboard.js:653-679 | no weight changes exactly if the new name, under the old weight, still sorts between the two neighbours; nothing but the key changes then |
| ConfigEdits.RenameTargets | web/dashboard.js:659-679 | host, id and settings of every target and group are those at its origin: paths change only at and below the renamed node |
| ConfigStage.FindById | internal/mcp/config_stage.go:57-77 | in any order of the maps: finds a target with the id, or there is none |
| ConfigStage.FindNode | internal/mcp/config_stage.go:57-94 | the id wins over the path; nothing else is returned |
| ConfigStage.EnsureGroupIs | internal/mcp/config_stage.go:39-54 | making groups changes nothing of any node, breaks no path, and adds only groups without settings on the way |
| ConfigStage.StageEdit | internal/mcp/config_stage.go:182-252 | refused exactly for a group, for its own subtree, for a malformed step and for a slot another node holds, in this order; otherwise every path shows the target that the edit puts there, each exactly once, every group is as it was or made on the way, and no empty one is left |
| GraphCache.MergeSeries | web/dashboard.js:53-62 | cached rounds, then the newer incoming ones, cut to the window if there is a cutoff, with their largest ping count |
| GraphCache.MergedRounds | web/dashboard.js:53-62 | a merged series holds exactly the cached rounds and the incoming ones newer than the last of them, none before the cutoff; its ping count is the largest among them |
| GraphCache.MaxPingsIs | web/dashboard.js:59-61 | the ping count of a series is the largest of its rounds |
| GraphCache.GridSince | web/dashboard.js:82-93 | the smallest frontier among the panels that hold data |
| GraphCache.SinceIsOldest | web/dashboard.js:76-93 | the shared watermark never runs ahead of a panel that holds data |
| GraphGrid.RunKeeps | web/dashboard.js:1345-1379 | after any run every panel is a contiguous stretch of its target's rounds; one that held data since a whole read filled it misses no older round of the window, and before the first bulk answer none on the cutoff either |
| GraphCache.RefreshIsRefetch | web/dashboard.js:53-74 | a panel with data equals, after a bulk read, a full read of the window exactly unless its cache holds a round on the cutoff itself or the window one older than the cache |
| GraphCache.BackfillMerged | web/dashboard.js:53-74 | merged into a cache that misses nothing of the window, a read of the panel alone gives exactly what it brings |
| GraphGrid.RefreshWholeIff | web/dashboard.js:1345-1379 | after any mix of failed and successful refreshes and arrivals, the exact condition under which a panel, filled, empty or new, equals a full read after an answered one |
| GraphGrid.RefreshEqualsRefetch | web/dashboard.js:1345-1379 | a panel that held data since a whole read filled it does so exactly unless a round on the cutoff itself is in its cache or comes with a read of the panel alone |
| GraphGrid.FailedReadBackfillsOnly | web/dashboard.js:1361-1375 | after a failed bulk read a panel is as before, or, if it was backfilled, exactly what that read brings: the window and a round on the cutoff |
| GraphGrid.CutoffRoundStays | web/dashboard.js:58 | the run after which a panel keeps a round on the cutoff |
| GraphGrid.BackfillBringsCutoffRound | internal/store/pgstore/pgstore.go:893-899 | the refresh whose backfill brings a round on the cutoff |
| GraphGrid.LatePanelMissesRounds | web/dashboard.js:1345-1376 | the run after which a late panel misses an older round |
| GraphGrid.EmptiedPanelMissesRounds | web/dashboard.js:82-93 | the run after which a panel that ran empty misses a late round |

## Left out

- StoreForward: sending a batch is one step; a crash between two of its posts is a send whose last post failed, followed by the crash.
- SpoolObject: files are byte sequences in a value, so file handles, locks, the flusher's ticker and the write-error hook for tests are not there; which system calls fail is a parameter, any function of their number.
- SpoolObject: the skip of a round that cannot be encoded, which would leave a gap in the numbers that recovery rejects.
- AgentRuntime: back-off delays, shutdown deadlines (a loop may stop at any turn) and the memory-only agent without a spool directory, whose buffer is `AgentBuffer.Buffer` with no spool.
- Matcher: parsing of patterns and matcher specifications; models start from compiled tokens and the pattern's source text.
- AlertEngine: state maps are keyed by tuples; `AlertEngine.SplitKeyIff` says when the string keys do the same.
- AlertEngine: notifiers, their queues and the warning about unknown ones; an event carries the set of its recipients.
- AlertReload: which history is fit for seeding is left open: any samples may be seeded for any target that may be seeded at all. A runtime without alerts is one whose engine never evaluates anything.
- Dispatching: probe results, error counts and durations; a callback that is absent is one that does nothing.
- Planning: 64-bit overflow of times.
- Staging: validation and minting are part of the change function; the advisory warnings, the diff and the 64-bit wrap of the session counter are not there.
- Identities: trees are values whose children stand in walking order; a mint is any function of the path, so that UUIDs are distinct is not stated. Round trips of JSON and YAML are not modelled.
- ConfigTree: trees are values, so aliasing between an edited tree and its clone is not there; ids and settings are strings; keys that collide with built-in object properties are not modelled; paths are lists of keys, not slash-joined strings; keys are made of whole characters, without lone surrogates.
- ConfigStage: a destination group of blanks only is the root; the model takes it as the empty path throughout.
- ConfigEdits: the add, remove and plain edit helpers, which would only add easy members.
- GraphCache.MergeSeries: does not cover rounds without a finite time, which the code keeps whatever the cutoff.
- GraphGrid: a round's ping count is one number; several vantages, each of which has its own watermark and cache; targets that come or go, whose panels are made or dropped; a refresh is one step, so no round arrives between the bulk answer and the read of one panel alone.
- Federation, TLS, sessions, the HTTP and MCP handlers, stores, importers, notifiers and all rendering.
