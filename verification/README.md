# Verified model of the gor runtime

gor is a virtual-actor runtime: named Grains are activated on demand on the nodes of a
cluster, one activation per Grain and node, with state kept under ETag compare-and-swap.
This project models the parts of it where concurrency, faults and order decide whether it
is correct, and proves what they promise over every input, every interleaving and every run.

| modules | part of the system | main results |
|---|---|---|
| `Members`, `ProbeRing`, `Votes`, `Detector`, `DetectorLaws`, `Membership` | membership table, probe ring, suspicion votes, failure detector, the steps of the cluster protocol | `NeighbourCount`, `SameIsEqualityIff`, `EveryCastIsBacked`, `DecisionIff`, `StepKeepsInv` |
| `MembershipLaws`, `Conduct`, `Provenance`, `ProbeRecords`, `VoteLaws` | what holds in every run of the cluster, and which steps caused it | `StatusOnlyAdvances`, `EveryDeathIsJustified`, `EveryVoteIsBacked`, `NoLiveVoteIsLost`, `EvidenceWasReceived` |
| `Obligations`, `NodeCourse` | what every event obliges a node to do: exactly what it writes, when it stops, whom it accuses | `WritesIff`, `DeclaredDeadIff`, `StopsIff`, `PursuesIff` |
| `FormerNeighbours`, `NeighbourRun` | votes on members that are no longer neighbours | `WithdrawnIffAnswered`, `FormerNeighbourKeepsVote` |
| `Ring` | consistent-hash ownership | `JoinMovesAddresses`, `LeaveMovesAddresses`, `SamePointsIffSameMembers` |
| `Mailbox`, `Engine`, `EngineLaws`, `EngineHistory`, `EngineEffects`, `EngineRuntime` | mailbox and local activation engine | `SingleActivation`, `NewFactoryWaits`, `HookRunsOnceAndLast`, `StoppedHadItsHook`, `ActivationBecomes`, `GracefulDoneMeansQuiet` |
| `CallAccounting`, `IdleEviction` | the call counter that idle eviction trusts | `CounterIsExact`, `EvictionHurtsIff`, `IdleEvictionIsSafe` |
| `RootLifecycle` | the root's admission gate | `SignalsCloseOnce`, `DrainedIsFinal` |
| `Persistence`, `UpdateChain` | ETag store and state write chain | `NoLostUpdate`, `UpdateCommitsIff`, `AddReturnsItsPrefixSum` |
| `Frames`, `Connection`, `ConnectionHistory` | frame codec and connection owner loop | `StreamRoundTrip`, `RequestsAreConserved`, `FramesStemFromEvents` |
| `DueTimes`, `Reminders`, `ReminderLaws` | Reminder arithmetic, table and poller | `NextDueAtExact`, `EachVersionIsWonOnce`, `WrongWinIffExposed` |
| `DecimalStrings`, `ImportNames`, `ImportLaws`, `ImportAllocator`, `ImportRule` | import aliases of generated files | `NamesAreDistinct`, `RenamedIffColliding`, `AliasesIgnoreOrder`, `AliasesFollowRule` |
| `ImportChurn`, `ImportNewcomer`, `ImportNewcomerLaws`, `ImportRejoin` | what one more import does to the names of the others | `NewImportChurnsIff`, `SameCourseIff`, `SoleBearerChurns`, `AddingChurnsIff` |
| `Basics`, `Orders` | types, orders, sorting and counting shared by the others | `SortedIsUnique` |

## How the model is built

- A protocol is a state, a `Next` function with one case per critical section or message, and
  runs over arbitrary sequences of steps. A step that is not ready changes nothing, so a run is
  any interleaving. In the cluster protocol a write is first put in flight and lands in a step of
  its own, at any later time or never; the writer may learn the outcome, an error, or nothing.
  This covers timed-out writes that land late and writes that fail after they were applied.
- Objects the program updates in place are classes (`MemberTable`, `NodeDetector`, `ReminderTable`,
  `RecordStore`, `Binder`, `MailBox`, `Runtime`, `RootGate`, `Owner`). Each method is proved to perform
  the corresponding step function; the laws are proved about runs of those functions.
- A law about a cluster run is stated on the run itself: a committed row is traced back to the step
  in which its author wrote it (`CommitWasIssued`), and the time it read, the listing it judged on and
  the evidence it had are those of that step, never a note the writer left about itself. The detector's
  log is tied to the answers and self-checks its process went through (`RepliesAreHeard`,
  `GoodCheckIsReal`, `BadCheckIsRecorded`, `ScheduleIsKeptIff`).
- Laws run both ways where the program promises both: beside what can only happen for a reason stands
  what must happen when there is one (`WritesIff`, `DeclaredDeadIff`, `StopsIff`, `PursuesIff`,
  `ActivationBecomes`, `HookStartsIff`, `UpdateCommitsIff`, `EveryEvent`). Methods also state their result
  field by field and name by name, beside the step function they perform.
- Loops of the program are loops here (`Search`, `BuildPoints`, `ActiveSuspectVotes`, `CountVotes`,
  `ReconcileProbeState`, `EvictLoop`, `StopLoop`, `Poll`, `RunRound`, `SearchSuffix` and others), proved against
  specification functions.
- The hash is an arbitrary function to 64-bit numbers, so collisions are included. Clocks, context
  cancellation, network answers, store faults and map iteration order are parameters. Go's zero time
  is the number zero; durations are 64-bit and wrap where the program's do.

## What came out

- Vote comparison: `sameSuspectVotes` is map equality for every right-hand side if and only if no
  stored vote carries the zero time (`SameIsEqualityIff`).
- Call counter: the counter is released a second time when a method's own error wraps a mailbox
  error. `CounterIsExact` gives the count in every run, `EvictionHurtsIff` says exactly when an idle
  eviction can turn an admitted call away, `IdleEvictionIsSafe` rules that out when no such error
  occurred, and `WrappedErrorLosesACall` is a run at whose end an admitted call is turned away.
- Import aliases: the generator means a new import never to change an existing name. It does not keep
  to that. `NewImportChurnsIff` says for every new import when it changes one: if it collides with
  nothing, when its own name is an alias in use (`AddingChurnsIff`; `NewcomerTakesAlias` is an input:
  `a/d` and `b/d`, both named `d`, then `q/z` named `ad`); if it takes a name that one import bore without
  an alias, always (`SoleBearerChurns`); otherwise when, judged by the allocation without it, it proposes
  in some round what another is served in that round, or is given, by a round or by number, a name that
  another gets. Followed round by round this is exact for all imports (`SameCourseIff`). For the
  names in the end there is one exception: an import that proposes the same name in two rounds, or one
  that is its own name with a number, can lose a contest and still end with the name
  (`ContestedYetUnchurned` is an input).
- Reminder ETags restart at one after a delete. `WrongWinIffExposed` says exactly when a copy that a
  poller holds can come to win a row it does not describe while that row is not removed again: if and only
  if the row is gone, or its ETag is below the copy's, or it has the copy's ETag and is another row; and
  that only happens to copies whose row was removed since they were listed. `RemovalExposesEveryCopy`
  adds that one delete followed by as many puts as the copy's ETag always gets it there, and
  `StaleCopyCanWin` is a run from the start.
- A stream cut right after a header is reported as a clean end of stream, because the payload read
  returns the plain end-of-file error when no byte arrived (`TruncationIsAnError` gives the exact error).
- The last fallback of `nextDueAt`, for a candidate that is not after `now`, is never taken (`NextDueAtExact`).
- The lookup's branch that removes a stopped activation from the table is never taken (`LookupKeepsInv`).
- `design/cluster.md:99` says that votes on former neighbours are retracted when the ring changes.
  The code cancels their probes and drops their counts but writes nothing (`cluster/probe.go:100-117`).
  `WithdrawnIffAnswered` says exactly when a vote is withdrawn, `TicksWriteNoVote` that view polls and
  self-checks never write one, and `FormerNeighbourKeepsVote` is a run in which a vote outlives the
  neighbourhood; it then expires.

## Model

| member | source | states |
|---|---|---|
| `Members.MemberTable.WriteMember` | store/member.go:144-160 | a write replaces the row exactly when its ETag is the stored one (zero for a new row), stamps the successor ETag, and otherwise changes nothing |
| `Members.MemberTable.ListMembers` | store/member.go:162-177 | a listing holds every row of the table once, in row order, with the table's time |
| `Members.ListedIdsDiffer` | store/member.go:164-177 | no two rows of a listing have the same member ID |
| `ProbeRing.TargetsAreAdjacent` | cluster/probe.go:57-82 | the targets of a member are exactly the members at the adjacent places of the sorted ring, both ways round |
| `ProbeRing.TargetsFollow` | cluster/probe.go:57-91 | the first target is the next member on the circle of hashes of address and generation, and this member is the next after the last target |
| `ProbeRing.NeighboursAreMutual` | cluster/probe.go:57-82 | the probe relation is symmetric and irreflexive: who I probe probes me and may vote on me |
| `ProbeRing.NeighbourCount` | cluster/vote.go:26-38 | a member has exactly as many distinct neighbours as votes are needed against it |
| `ProbeRing.TargetsIgnoreOrder` | cluster/probe.go:43-91 | probe targets do not depend on the order in which members are listed, hash collisions included |
| `ProbeRing.ModuloWalks` | cluster/probe.go:70-81 | the modular index arithmetic steps to the next and previous place of the cycle |
| `ProbeRing.ActiveMemberIds` | cluster/probe.go:43-55 | exactly the IDs of active rows, sorted |
| `ProbeRing.ProbeTargets` | cluster/probe.go:57-82 | the loop and index computation yield the next and the previous member on the circle ordered by the hash of address and generation, as many as the threshold, each of which has this member as its own target |
| `Votes.ActiveSuspectVotes` | cluster/vote.go:10-24 | keeps exactly the votes that expire after the table's time |
| `Votes.SameSuspectVotes` | cluster/vote.go:117-127 | the comparison, and that it is equality when no stored vote has the zero time |
| `Votes.SameIsEqualityIff` | cluster/vote.go:117-127 | it is equality for every right-hand side if and only if no stored vote has the zero time |
| `Votes.SkippedRewriteLosesNothing` | cluster/vote.go:82-97 | a vote write that is skipped as unchanged really would have written the stored votes |
| `Votes.MemberIndex` | cluster/node.go:534-545 | the first row of the member, or none exists |
| `Votes.CountVotes` | cluster/vote.go:52-61 | the count reaches the number of entitled voters exactly when each of them holds an unexpired vote |
| `Votes.ShouldMarkDead` | cluster/vote.go:40-62 | true exactly when the target is active, at least two members are, and every ring neighbour of the target has an unexpired vote |
| `Detector.RecoveredIffCounted` | cluster/node.go:439-453 | the running counter of good self-checks decides exactly whether every failed self-check so far was followed by three good ones |
| `Detector.TickKeepsInv` | cluster/node.go:275-301 | a probe tick keeps health, tokens and failure counts in agreement with the history |
| `Detector.PollKeepsInv` | cluster/node.go:265-274 | so does a view poll that changes the neighbours |
| `Detector.HandleKeepsInv` | cluster/vote.go:138-157 | so does a probe answer, stale or current |
| `Detector.CastIsBacked` | cluster/vote.go:138-157 | whenever the detector decides to vote, the history holds as many consecutive failed probes of the target as the limit asks for, each by its own latest token, all processed in health and since the last failed self-check |
| `Detector.EveryCastIsBacked` | cluster/vote.go:138-157 | the same for every run from a fresh detector |
| `DetectorLaws.LogIs` | cluster/node.go:263-301 | a poll and a self-check always log the neighbours of that moment, an answer exactly if its probe is awaited, and a self-check launches probes of exactly the neighbours that have none |
| `DetectorLaws.DecisionIff` | cluster/vote.go:138-157 | told from the log alone: the detector casts if and only if the answer is a failed one to the probe awaited, every failed self-check was followed by three good ones, and as many failed answers as the limit, processed in health, came since the last good answer, failed self-check, or moment at which the target was no neighbour; it withdraws if and only if the answer is a good one to the probe awaited |
| `Detector.NodeDetector.UpdateHealth` | cluster/node.go:439-453 | health and the tick counter after a self-check |
| `Detector.NodeDetector.ReconcileProbeState` | cluster/probe.go:100-117 | a task or a count is kept, with its value, exactly if its member is still a neighbour |
| `Detector.NodeDetector.ProbeTick` | cluster/node.go:275-301 | health, reconciliation and new probes with fresh tokens, for neighbours without a task only |
| `Detector.NodeDetector.RecordProbeEvent` | cluster/probe.go:119-131 | a current answer ends its task and resets or raises the count, and a good one is reported; a stale one changes nothing |
| `Detector.NodeDetector.HandleProbeEvent` | cluster/vote.go:138-157 | stale tokens change nothing; unhealthy nodes forget counts and do not vote; good answers withdraw; a full count votes |
| `Membership.StepKeepsInv` | cluster/node.go:194-512 | every step of every node and every landing write keeps the invariant that row versions form a chain of legal moves, each derived from the version before it, and that node-local copies are true copies |
| `MembershipLaws.StatusOnlyAdvances` | cluster/node.go:194-512 | in every run a row never disappears; it is created joining, is activated before anything else, becomes dead only from active, and a dead row never changes again |
| `MembershipLaws.DeclaredDeadIsTrue` | cluster/node.go:254-306 | a node that reports itself declared dead is dead in the table from then on |
| `MembershipLaws.OneProcessPerMember` | cluster/node.go:194-228 | at most one process ever runs as a given member |
| `Conduct.ReactConducts` | cluster/node.go:254-306 | whatever the event, a node keeps its configuration, writes only what that event warrants, logs at most the answer heard or the self-check ended, and changes phase only along the listed ways |
| `Provenance.ConfiguredOnce` | cluster/node.go:89-149 | identity, vote lifetime, failure limit and tick gap of a process are those it was started with |
| `Provenance.CommitWasIssued` | cluster/node.go:254-306 | every version of a row after the first was put in flight by one step of the process running as its author, and that step warranted it |
| `Provenance.PursuitBegan` | cluster/vote.go:138-157 | whoever casts or withdraws a vote was brought to it by an answer to a current probe of that member, and has done nothing else since |
| `Provenance.AwaitedVote` | cluster/vote.go:64-98 | a vote in flight was written on a listing of the table |
| `ProbeRecords.RepliesAreHeard` | cluster/probe.go:119-131 | the replies in a detector's log are exactly the answers its process received to probes current then, in order |
| `ProbeRecords.EvidenceWasReceived` | cluster/vote.go:138-157 | evidence for a vote is at least the limit's number of failed answers, received at different steps |
| `ProbeRecords.ScheduleIsKeptIff` | cluster/node.go:429-437 | the interval test passes exactly when the tick comes after the process's latest earlier tick and within the gap, or there is none, or that one carried the zero time |
| `ProbeRecords.GoodCheckIsReal` | cluster/node.go:322-437 | a good self-check in the log was one: its tick within the gap of the tick before it, listed in time, its write confirmed in time or refused in time and relisted in time, and nothing in between |
| `ProbeRecords.BadCheckIsRecorded` | cluster/node.go:322-453 | a self-check whose tick is outside the gap, or that is unlisted, in error or answered late, is in the log as failed before the node goes on |
| `VoteLaws.NoLiveVoteIsLost` | cluster/vote.go:10-24 | every committed version keeps every vote unexpired at the time of the listing its writing step worked on, except the author's own entry when it casts or withdraws |
| `VoteLaws.EveryVoteIsBacked` | cluster/vote.go:64-115 | every vote in any version of any row was cast at a step of a process running as that voter, which had listed the table, was a ring neighbour of the member in that listing, and whose own detector had the evidence its own limit asks for |
| `VoteLaws.JuryVerdict` | cluster/vote.go:40-62 | a judge's write replaces a version that holds an unexpired, backed vote of every neighbour, exactly as many as the threshold |
| `VoteLaws.JudgeHadListed` | cluster/vote.go:64-115 | the judge went by a listing of the table, or by that listing with its own committed vote, which is the version it replaces, filled in |
| `VoteLaws.EveryDeathIsJustified` | cluster/vote.go:64-115 | every dead row was active before and was written by the leaving member's own process, or by a judge on such a listing and such a jury |
| `Obligations.WritesIff` | cluster/node.go:194-512 | in every run a step of a process writes a row if and only if its event calls for exactly that row: activation, heartbeat, self-check, vote, withdrawal, verdict or departure, each told from what the listing shows |
| `Obligations.DeclaredDeadIff` | cluster/vote.go:64-115 | in every run a process declares a member dead, other than by leaving itself, if and only if it accuses it and, on a listing with nothing to change in the votes or on the confirmation of its own vote, every ring neighbour of the member holds an unexpired vote |
| `Obligations.LandsIff` | store/member.go:144-160 | a write takes effect when it lands if and only if the table still holds the version it was made from |
| `NodeCourse.StopsIff` | cluster/node.go:322-512 | a node stops as declared dead if and only if a heartbeat, a view poll or a self-check shows its row dead |
| `NodeCourse.AnswersLead` | cluster/vote.go:64-115 | where a confirmed, a refused and a lost write take the node; a refused vote or verdict is tried again |
| `NodeCourse.PeersAre` | cluster/node.go:263-299 | view polls and self-checks in time make exactly the active members of the listing the node's peers; nothing else changes them |
| `NodeCourse.FirstPeers` | cluster/node.go:194-228 | a process that joined starts with the active members of its listing and itself |
| `NodeCourse.DetectorIsExact` | cluster/node.go:254-306 | in every run a node's health, awaited probes and failure counts are what its log says |
| `NodeCourse.PursuesIff` | cluster/vote.go:138-157 | in every run an answer makes the node accuse, withdraw or go on exactly as its log requires |
| `FormerNeighbours.WithdrawnIffAnswered` | cluster/vote.go:64-98 | a step writes a withdrawal if and only if a good answer to a current probe of that member brought its process there and the listing shows the row active with votes to change |
| `FormerNeighbours.TicksWriteNoVote` | cluster/node.go:263-299 | view polls and self-checks write no vote and touch no row but the node's own |
| `NeighbourRun.FormerNeighbourKeepsVote` | cluster/probe.go:100-117 | a run in which a member is no longer a neighbour and no longer probed, and the unexpired vote on it is still in its active row |
| `NeighbourRun.Joins` | cluster/node.go:194-228 | any process can join as a member without a row, from any reachable state |
| `Ring.BuildPoints` | cluster/cluster.go:56-81 | the virtual points of all members, sorted |
| `Ring.NewView` | cluster/cluster.go:31-39 | points and members of exactly the active rows |
| `Ring.Search` | cluster/cluster.go:41-54 | binary search: the first place whose hash is not below the given one |
| `Ring.Owner` | cluster/cluster.go:41-54 | no owner exactly when nobody is active, otherwise the address of the member one of whose 128 points, by the hash of address, generation and number, is met first going clockwise from the hash of type and key |
| `Ring.OwningIsNearest` | cluster/cluster.go:41-81 | the owning point is one of 128 of an active member, and none of any active member is met sooner |
| `Ring.FirstIsUnique` | cluster/cluster.go:41-81 | the least point clockwise is unique, hash collisions included |
| `Ring.JoinMovesOnlyToNewcomer` | cluster/cluster.go:41-81 | adding a member changes an owner only to that member |
| `Ring.LeaveMovesOnlyItsOwn` | cluster/cluster.go:41-81 | removing a member changes only what it owned |
| `Ring.JoinMovesAddresses` | cluster/cluster.go:41-81 | for snapshots: one more active member changes an owner's address only to that member's |
| `Ring.LeaveMovesAddresses` | cluster/cluster.go:41-81 | for snapshots: one active member less moves only what its address owned |
| `Ring.SamePointsIffSameMembers` | cluster/node.go:522-532 | the point comparison holds exactly when the same members are active |
| `Ring.SameViewHidesNothing` | cluster/node.go:270-285 | a suppressed notification hides no change of ownership and no change of probe targets |
| `Ring.ViewIgnoresOrder` | cluster/cluster.go:31-39 | the view depends on the table, not on the order of the listing |
| `Ring.SameView` | cluster/node.go:522-532 | true exactly for equal points |
| `Mailbox.ExecutedThenRejected` | mail/mail.go:48-128 | in every run executed calls are a prefix of the accepted ones; when the worker is done the rest was rejected, and every accepted call got exactly one reply, in order |
| `Mailbox.OpenServesAll` | mail/mail.go:90-108 | an open mailbox left alone executes every call it accepted, in order, and rejects none |
| `Mailbox.ClosedStartsNothing` | mail/mail.go:90-128 | once closed no body starts: at most the one that runs is still executed |
| `Mailbox.AcceptedIff` | mail/mail.go:48-62 | a call is accepted exactly when the mailbox is open and has room or the worker waits for it |
| `Mailbox.DoneIsFinal` | mail/mail.go:90-128 | after the worker is done nothing is accepted, executed or rejected |
| `Mailbox.ClosedDrains` | mail/mail.go:90-128 | a closed mailbox comes closer to its end with every worker step |
| `Mailbox.MailBox.Call` | mail/mail.go:48-62 | refused when closed, accepted exactly when there is room or the worker waits, at the end of the queue or straight into the worker's hand |
| `Mailbox.MailBox.CloseBox` | mail/mail.go:72-80 | closing, once or again |
| `Mailbox.MailBox.WorkStep` | mail/mail.go:90-128 | the worker's next step, wherever it stands |
| `Mailbox.MailBox.RunAmong` | mail/mail.go:90-128 | the worker interleaved with any calls and closings ends in the state of that run |
| `Mailbox.MailBox.RejectQueued` | mail/mail.go:116-128 | everything queued is rejected in order and the queue ends empty |
| `Mailbox.MailBox.RunToEnd` | mail/mail.go:90-108 | from any point of the closed worker: a running body is finished, all others are rejected |
| `EngineLaws.StepKeepsInv` | runtime/runtime.go:272-628 | every critical section, mailbox step and waiter step keeps the engine's invariant |
| `EngineLaws.LookupKeepsInv` | runtime/runtime.go:391-435 | a lookup that finds the Grain in the table changes nothing: a stopped activation is never found there |
| `EngineHistory.SingleActivation` | runtime/runtime.go:391-480 | in every reachable state a Grain has at most one of a pending creation, an active and a deactivating activation, and the table points to the live one |
| `EngineHistory.NewFactoryWaits` | runtime/runtime.go:398-433 | when a factory starts, every earlier activation of the Grain has drained its mailbox and its hook has returned, and none of them runs anything afterwards |
| `EngineHistory.OneBodyAtATime` | runtime/runtime.go:391-628 | across all activations of a Grain at most one body runs, and no hook or factory beside it |
| `EngineHistory.HookRunsOnceAndLast` | runtime/runtime.go:569-586 | the hook runs at most once, with the recorded reason, after the last body |
| `EngineEffects.ActivationBecomes` | runtime/runtime.go:482-628 | in every run, exactly what every step makes of every activation: it leaves service if and only if its Grain is owned elsewhere, it has been idle long enough, a body failed or the engine stops, with that reason; so too for its waiter, mailbox, counter and done channel |
| `EngineEffects.FactoryStartsIff` | runtime/runtime.go:391-435 | a factory starts if and only if a lookup finds the engine running and neither a live activation nor a creation of the Grain |
| `EngineEffects.CreatedIff` | runtime/runtime.go:438-480 | an activation appears if and only if a factory under way returns an instance; it is fresh, and published exactly if the engine is still running |
| `EngineEffects.HookStartsIff` | runtime/runtime.go:569-586 | a hook is called if and only if the waiter finds the worker gone, there is a hook, and the engine was not killed |
| `EngineEffects.StoppedHadItsHook` | runtime/runtime.go:569-586 | without a kill every activation that has stopped had its hook called, once, with its reason |
| `EngineEffects.DoneClosesIff` | runtime/runtime.go:325-360 | once a stop has begun the drain closes done if and only if no deactivation is under way or the engine was killed |
| `EngineHistory.FirstReasonWins` | runtime/runtime.go:612-619 | the first reason recorded is the one the hook gets, whatever tries to stop the activation later |
| `EngineHistory.KillStopsHooks` | runtime/runtime.go:293-368 | after a kill no hook starts, on old activations or on late ones |
| `EngineHistory.ChannelsCloseOnce` | runtime/runtime.go:272-360 | the stop, killing, deactivations and done channels are closed at most once in every run, an activation's channel exactly when it stops |
| `EngineHistory.GracefulDoneMeansQuiet` | runtime/runtime.go:325-360 | when done closes without a kill, every activation is settled, the table is empty, and no later step changes that |
| `EngineHistory.KillDoesNotWait` | runtime/runtime.go:325-341 | after a kill done may close while a body still runs |
| `EngineRuntime.Runtime.ActivationFor` | runtime/runtime.go:391-435 | the lookup's critical section: refused, use, wait for the end, wait for the creation, or create, and at most one caller creates |
| `EngineRuntime.Runtime.CreationReturned` | runtime/runtime.go:438-458 | the end of a creation: published only while the engine runs |
| `EngineRuntime.Runtime.AdmitCall` | runtime/runtime.go:482-491 | admitted exactly while active, counting the call |
| `EngineRuntime.Runtime.CallFinished` | runtime/runtime.go:493-497 | one call less is counted, whatever the activation's state |
| `EngineRuntime.Runtime.StopActivation` | runtime/runtime.go:546-554 | a fault starts the deactivation from active only, and is then its reason |
| `EngineRuntime.Runtime.DeactivateLocked` | runtime/runtime.go:556-567 | deactivation starts only from active, with its reason and one more waiter |
| `EngineRuntime.Runtime.Deactivated` | runtime/runtime.go:217-229 | ownership loss starts the deactivation of the Grain's activation, if any |
| `EngineRuntime.Runtime.EvictIdle` | runtime/runtime.go:527-544 | exactly the idle activations without calls start to deactivate, and only while the engine runs |
| `EngineRuntime.Runtime.BeginStopDeactivations` | runtime/runtime.go:343-360 | every live activation is deactivating, and the drain channel is armed, or closed when nobody is waited for |
| `EngineRuntime.Runtime.StartClose` | runtime/runtime.go:272-291 | a graceful stop from running, otherwise nothing |
| `EngineRuntime.Runtime.StartKill` | runtime/runtime.go:293-323 | a kill from running, an escalation from closing, otherwise nothing |
| `EngineRuntime.Runtime.MarkSkipOnDeactivate` | runtime/runtime.go:362-368 | the hooks of all live activations are to be skipped |
| `EngineRuntime.Runtime.DecideHook` | runtime/runtime.go:569-583 | the hook is to run, with the recorded reason, exactly if there is one and it is not to be skipped |
| `EngineRuntime.Runtime.FinishDeactivation` | runtime/runtime.go:601-628 | the activation stops and leaves the table if the table still points to it |
| `EngineRuntime.Runtime.DeactivationFinished` | runtime/runtime.go:588-599 | one waiter less; the last one closes the armed drain channel |
| `CallAccounting.StepKeepsInv` | runtime/runtime.go:195-211 | every step of callers, worker and engine keeps the counter equal to the unfinished calls less the doubly released ones |
| `IdleEviction.CounterIsExact` | runtime/runtime.go:195-211 | that equation in every run, and exactness when no method error wraps a mailbox error |
| `IdleEviction.EvictionHurtsIff` | runtime/runtime.go:527-544 | an idle eviction can turn an admitted call away if and only if some admitted call has not started its body |
| `IdleEviction.IdleEvictionIsSafe` | runtime/runtime.go:527-544 | it never does when no method error so far wrapped a mailbox error |
| `IdleEviction.WrappedErrorLosesACall` | runtime/runtime.go:203-209 | a run in which one wrapped error makes the counter zero while a call is admitted, and the eviction then turns that call away |
| `IdleEviction.ClosedBoxRejects` | mail/mail.go:90-128 | what is queued in a closed mailbox is rejected |
| `RootLifecycle.SignalsCloseOnce` | gor.go:772-876 | in every run done and drained close at most once, done exactly when the root left running, drained exactly when in addition no admitted call is left |
| `RootLifecycle.DrainedIsFinal` | gor.go:830-876 | once drained no call is admitted again and every rejection carries the recorded code |
| `RootLifecycle.RootGate.LeaveRunning` | gor.go:830-838 | stage, code and done signal change once; the drain signal closes at once when nothing is admitted |
| `RootLifecycle.RootGate.Close` | gor.go:775-783 | begins a close from running only |
| `RootLifecycle.RootGate.Kill` | gor.go:787-800 | begins a kill from running or escalates a close |
| `RootLifecycle.RootGate.DeclareDead` | gor.go:805-813 | becomes dead from running only |
| `RootLifecycle.RootGate.Finish` | gor.go:817-824 | a close, kill or death ends as stopped |
| `RootLifecycle.RootGate.AdmitCall` | gor.go:845-855 | admitted exactly while running, otherwise rejected with the recorded code, also after the root has stopped |
| `RootLifecycle.RootGate.ReleaseCall` | gor.go:857-865 | the last release after a stop closes the drain signal |
| `Persistence.RecordStore.Read` | store/store.go:99-112 | the stored record, or ETag zero; a cancelled or failed read says so |
| `Persistence.RecordStore.Write` | store/store.go:117-132 | the record is replaced exactly when the expected ETag is current; faults may suppress the write or hide it; other records stay |
| `Persistence.Binder.Load` | state.go:136-164 | cells and ETag of the stored record, for the registered states; a cancelled or failed read or a value that cannot be decoded says so and leaves the ETag |
| `Persistence.Binder.BuildDocument` | state.go:166-187 | name by name: the changed state is in the document exactly if it was given a value, with that value, and every other present state as it is; none exactly when another present state cannot be encoded |
| `Persistence.Binder.Persist` | state.go:166-204 | the record becomes the whole document or stays; a conflict or failure marks the activation for discard, a cancellation does not |
| `Persistence.Binder.Set` | state.go:101-118 | a confirmed write leaves the value in the cell and in the record under the next ETag, and every other state as it was; otherwise the cells are unchanged |
| `Persistence.Binder.Clear` | state.go:80-88 | a confirmed clear leaves the state in neither the cells nor the record, and every other state as it was; otherwise the cells are unchanged |
| `UpdateChain.NoLostUpdate` | state.go:166-204 | over any number of concurrent activations and faults, every committed record was computed, by the update of one step and the states its activation had registered, from the record immediately before it, and every confirmed update stored what it computed |
| `UpdateChain.CommitIs` | state.go:166-187 | name by name, a committed record holds the updated state exactly when the update gave a value, with that value, and every other registered state as it was before |
| `UpdateChain.UpdateCommitsIff` | store/store.go:117-132 | an update commits if and only if the store performs its write and no other record was committed since its activation last saw one, and is confirmed if and only if the store says so |
| `UpdateChain.LateCommitsIff` | store/store.go:117-132 | a write that lands late commits under the same condition, and once |
| `UpdateChain.ActivationIsCurrent` | state.go:136-164 | a new activation holds the registered states of the current record |
| `UpdateChain.OtherStatesSurvive` | state.go:166-187 | when all activations register the same states, an update carries the other states over unchanged |
| `UpdateChain.CommitsAtMostOnce` | store/store.go:117-132 | no update commits twice, and each commit is the update of its own step |
| `UpdateChain.CounterIsSum` | sim/sim.go:69-75 | a counter's stored value is the sum of the committed deltas |
| `UpdateChain.AddReturnsItsPrefixSum` | sim/history.go:48-76 | a confirmed add returned the sum up to and including its own commit |
| `Frames.DecodeInvertsEncode` | transport/frame.go:56-103 | reading what was written yields the frame and leaves the rest |
| `Frames.AcceptedBytesAreCanonical` | transport/frame.go:56-80 | accepted bytes re-encode to the bytes consumed |
| `Frames.TruncationIsAnError` | transport/frame.go:56-80 | every strict prefix of a frame is an error, and which one |
| `Frames.StreamRoundTrip` | transport/frame.go:56-103 | a stream of written frames reads back as exactly that sequence |
| `Frames.CutStream` | transport/frame.go:56-80 | a stream cut anywhere yields a prefix of the frames and never another frame |
| `Frames.WriteFrame` | transport/frame.go:86-103 | an invalid frame writes nothing, a valid one its encoding; a sink that fails is left with a strict prefix, which decodes to an error |
| `Frames.ReadFrame` | transport/frame.go:56-80 | result and position are those of the decoder, told byte by byte: too large, of no valid type, short, or the frame; a source that fails instead of ending is reported as failed |
| `Frames.BuildHeader` | transport/frame.go:93-96 | thirteen bytes: size and correlation ID by their weights, the highest byte first, then the type |
| `Connection.RequestsAreConserved` | transport/connection.go:169-229 | accepted requests are those being handled, with a queued reply, or with a reply handed to the writer |
| `ConnectionHistory.FramesStemFromEvents` | transport/connection.go:169-272 | in every run the frames sent stem, one by one and in order, from the events: a request carries the payload of its send, a reply the ID and payload of its handler, as an error frame exactly if it failed; and no such event is passed over |
| `ConnectionHistory.EveryEvent` | transport/connection.go:169-272 | for every run and one more event: exactly what is sent, handed to the writer, accepted, delivered or given up, and that the loop ends gracefully if and only if it is closing and owes nothing |
| `Connection.GracefulFinishOwesNothing` | transport/connection.go:231-250 | a graceful finish happens only when every accepted request's reply was handed over, in order |
| `Connection.AtMostOneResult` | transport/connection.go:252-263 | an outgoing request gets at most one result, from a received frame with its own ID |
| `Connection.IdentifiersNeverRepeat` | transport/connection.go:169-229 | correlation IDs strictly increase |
| `Connection.Owner.Complete` | transport/connection.go:252-263 | the request leaves the pending map and gets its result, unknown IDs change nothing |
| `Connection.Owner.Receive` | transport/connection.go:169-229 | one event of the loop |
| `Connection.Owner.Turn` | transport/connection.go:169-229 | one turn with the exit test |
| `Connection.Owner.OwnerLoop` | transport/connection.go:169-229 | the loop over any events ends in the state of the run |
| `DueTimes.PeriodsIsLeast` | timer/timer.go:109-133 | the number of periods computed is the least that passes now |
| `DueTimes.NextDueAtExact` | timer/timer.go:109-141 | the next due time is the least tick after now when its offset fits 64 bits, otherwise one period from now; always after now and at most one period later; the product never overflows |
| `DueTimes.NextDueAtIs` | timer/timer.go:109-141 | for every period: a Reminder that does not repeat is never due again, one not due yet stays, any other is due after now, at most one period away, on its ticks unless they leave 64 bits |
| `Reminders.ReminderTable.ListDue` | store/schedule.go:73-88 | exactly the rows due, in due order, unless the context has ended |
| `Reminders.ReminderTable.Claim` | store/schedule.go:94-114 | won exactly when the context has not ended and the copy's ETag is the row's; the row is re-armed, or removed when it does not repeat |
| `Reminders.ReminderTable.Put` | store/schedule.go:117-132 | the row is replaced with the next ETag, or created with ETag one; nothing changes when the context has ended |
| `Reminders.ReminderTable.Delete` | store/schedule.go:135-144 | the row is gone, the others stay; nothing changes when the context has ended |
| `Reminders.Poll` | timer/timer.go:81-141 | delivers due rows it owns, once each and in due order; a delivered row that does not repeat is gone, any other is armed again after now and at most one period away; it misses only rows whose claim failed, or those after a failed listing or a cancellation |
| `ReminderLaws.EachVersionIsWonOnce` | store/schedule.go:94-114 | over any number of pollers each ETag version of a row's life is won at most once |
| `ReminderLaws.DeliveriesAdvance` | timer/timer.go:81-133 | delivered due times of a row strictly increase between puts |
| `ReminderLaws.PutDefeatsEarlierCopies` | store/schedule.go:117-132 | a put defeats every copy listed before it while the row lives |
| `ReminderLaws.OnlyOldLivesWinWrongly` | store/schedule.go:94-132 | a copy that wins a row it does not describe was listed before a delete |
| `ReminderLaws.WrongWinIffExposed` | store/schedule.go:94-132 | in every run, a held copy can come to win a row it does not describe, in a continuation of any clients that does not remove the row, if and only if the row is gone now, has a smaller ETag, or has the same ETag and is another row; and then the row was removed since the copy was listed |
| `ReminderLaws.RemovalExposesEveryCopy` | store/schedule.go:94-144 | after a delete and as many puts as its ETag, any held copy wins a row it does not describe |
| `ReminderLaws.StaleCopyCanWin` | store/schedule.go:94-144 | a run in which that happens |
| `ImportNames.FreeSuffix` | internal/codegen/load.go:302-312 | the numeric suffix is the least one from two on whose name is free |
| `ImportNames.AheadShrinks` | internal/codegen/load.go:303-307 | the suffix search ends: a taken name is left behind for good |
| `ImportLaws.WinsIffAlone` | internal/codegen/load.go:277-301 | in a round an import gets its candidate exactly when it is free and no other waiting import proposes it |
| `ImportLaws.AliasesAreFresh` | internal/codegen/load.go:234-314 | exactly the conflicting imports get aliases, which are distinct and none of which was taken |
| `ImportRule.CandidateIs` | internal/codegen/load.go:326-335 | a candidate is what stands after the slash of its depth from the end, without slashes |
| `ImportRule.AliasesFollowRule` | internal/codegen/load.go:266-314 | the aliases without rounds and order: each has a depth, the first at which its candidate is not in use, not the alias of one with a smaller depth and not proposed by another with no smaller depth; who has none gets the least free number, by path |
| `DecimalStrings.DecimalStandsFor` | internal/codegen/load.go:302-312 | numbers are rendered in decimal digits without leading zeros |
| `ImportLaws.RenamedIffColliding` | internal/codegen/load.go:224-263 | an import has an alias if and only if it shares its name with one it must yield to |
| `ImportLaws.NamesAreDistinct` | internal/codegen/load.go:224-314 | imports with distinct paths appear under distinct names, the template's fixed names included |
| `ImportLaws.AliasesIgnoreOrder` | internal/codegen/load.go:230-264 | the aliases do not depend on the order in which the map is enumerated |
| `ImportChurn.AddingChurnsIff` | internal/codegen/load.go:228-233 | adding an import that collides with nothing changes no existing name if and only if its own name is not an alias in use |
| `ImportChurn.NewcomerTakesAlias` | internal/codegen/load.go:228-233 | an input on which it does change one |
| `ImportNewcomer.SameCourseIff` | internal/codegen/load.go:266-314 | with one more waiting import the others have the same aliases after every round and in the end if and only if it contests no name served in a round while it waits and is given no name that another gets |
| `ImportNewcomer.SameEndIf` | internal/codegen/load.go:266-314 | under that condition the others end with the same aliases |
| `ImportNewcomer.SameEndOnlyIf` | internal/codegen/load.go:266-314 | and only under it, when no import that waits proposes a name twice |
| `ImportNewcomerLaws.SoleBearerChurns` | internal/codegen/load.go:224-233 | a new import whose name one import bore without an alias changes that one's name |
| `ImportNewcomerLaws.FixedLineNeverChurns` | internal/codegen/load.go:213-263 | one more entry for a template import or the source package changes no alias |
| `ImportNewcomerLaws.JoiningChurnsIff` | internal/codegen/load.go:228-314 | the condition of the allocation decides for the names of the generated file |
| `ImportNewcomerLaws.NewImportChurnsIff` | internal/codegen/load.go:228-314 | for every import list and every new import: a harmless one changes no existing name, and one that is not harmless changes some unless a colliding import proposes a name twice |
| `ImportRejoin.ContestedYetUnchurned` | internal/codegen/load.go:277-301 | an input on which a contested import gets its name in a later round, so nothing changes |
| `ImportAllocator.CountImportsNamed` | internal/codegen/load.go:316-324 | the number of imports with the name |
| `ImportAllocator.Collect` | internal/codegen/load.go:249-264 | the conflicting imports in path order |
| `ImportAllocator.TurnIsFair` | internal/codegen/load.go:288-299 | what a round handed out earlier never blocks a later candidate that is proposed once |
| `ImportAllocator.RunRound` | internal/codegen/load.go:277-301 | the sequential round equals a simultaneous one |
| `ImportAllocator.SearchSuffix` | internal/codegen/load.go:303-311 | the suffix loop ends with the least free suffix |
| `ImportAllocator.EffectiveImportNames` | internal/codegen/load.go:234-314 | exactly the imports whose name clashes get an alias, all different, none of them a name in use; they are the aliases the laws are about |

## Left out

- SQLite stores, schema migration, JSON encoding, request context and error envelopes: their meaning lies in drivers and libraries; a state value is either encodable or not.
- TCP dialling, listeners, goroutine start-up and the reader and writer loops of a connection: network plumbing; the owner loop sees their events.
- FNV-1a and the balance of the ring: the hash is arbitrary here.
- Liveness: the protocols promise no progress under an unfair schedule; only `Mailbox.ClosedDrains`, `IdleEviction.ClosedBoxRejects` and the termination of the loops are stated.
- Cross-chain deadlock and the occupied-chain check of nested calls.
- The node's event loop and `updateSuspectVote` (cluster/node.go:230-307, cluster/vote.go:64-115) are steps on values in `Membership`, because other nodes and late writes interleave with them; update in place is not captured there.
- `Runtime` and `MailBox` objects are proved section by section; that a mutex makes each section atomic is taken for granted, and the goroutines between sections are steps of `Engine` and `Mailbox`.
- Aliasing of values returned by `State.Get`: values are immutable here.
- Sanitizing a candidate into a Go identifier is a parameter of the alias allocation; that aliases are valid identifiers is not claimed.
- UTF-8 and byte order of strings: strings are sequences of characters compared character by character.
- Registration of Grain types, panics inside factories (an unsuccessful creation here) and the contents of method replies.
- Wrap-around of 64-bit correlation IDs, tokens and ETags: they are unbounded naturals.
- ProbeRecords.GoodCheckIsReal: whether a listing or a write answer came within the table latency is an input (`Slow`, `late`); the elapsed time is the difference of two clock readings and nothing else depends on it. The tick interval is computed.
- ProbeRecords.BadCheckIsRecorded: the same.
- ImportNewcomerLaws.NewImportChurnsIff: where an import that collided before proposes a name twice, or its own name with a number, the law for the names in the end is stated one way; `ImportNewcomer.SameCourseIff`, round by round, is exact for those too.
- Reminders.Poll: states the result of a round without other clients in between; interleaved pollers are covered by `ReminderLaws`.
- Mailbox.MailBox.RunToEnd: states the worker's end from a closed mailbox without interference; every interleaving is covered by `Mailbox.MailBox.RunAmong` and `Mailbox.ExecutedThenRejected`.
