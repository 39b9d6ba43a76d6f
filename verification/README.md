# NexusEdge: verified models of its stateful core

NexusEdge is a decentralised edge platform. Gateways discover each other, place sensor streams and apps on one another,
enforce time-based privacy policies, and recover when a peer dies. This project models the modules that carry that logic
and proves what they keep over all inputs and all runs. `dafny verify dfyconfig.toml` checks everything.

| files | what they model |
|---|---|
| `Allocation.dfy` | which gateway provides which required device: host table, pairwise set difference in place |
| `LinkGraphs.dfy`, `LinkGraphDistances.dfy` | the breadth-first link graph traversal over gateways that may not respond, and what distances say about its result |
| `RouteTables.dfy`, `HeartbeatKeys.dfy`, `RecoverySteps.dfy` | the route table, timer keys and recovery steps, as functions on the tables |
| `Failover.dfy`, `FailoverRuns.dfy` | stream failover as a timed message-passing system with crashes, heartbeats, timers, FIFO channels and recoveries, its invariant, and what holds in every run |
| `SensorStreams.dfy` | the sensor stream manager's tables and handlers as a class, proved against those functions |
| `PolicyRules.dfy`, `PolicyEnforcement.dfy`, `PolicyRuns.dfy` | what a policy means over time, the objects that compile and re-evaluate it, and whole runs that route data under it |
| `DeviceRegistration.dfy` | registration with buffered data, under every interleaving of callbacks |
| `Flattening.dfy`, `TelemetryPaths.dfy` | nested telemetry to flat payload and metadata fields, and what that means for the values that paths of keys lead to |
| `Watching.dfy`, `Scheduling.dfy`, `Lighting.dfy` | watching apps, choosing gateways for them, and the light command queue with its lock |

Main results, hardest first:

- **Failover** (`FailoverRuns.GatewaysHoldTheirShare`, `RecoveriesDoNotOverlap`, `OnlyCrashedAreSuspected`,
  `SilenceIsDetected`, `AwaitedGatewaysCanBeFoundOut`, `TimePasses`, `CoverageNeedsTheLocalShare`). In every run, with
  any number of crashes and recoveries and any link graphs, a live gateway to which nothing is in flight holds the
  topic exactly once for each sensor of its share, never otherwise, and runs one heartbeat interval iff it has a
  share. Recoveries never overlap, and no registration reply is outstanding when one starts. A live gateway is never
  suspected, because its intervals make it heard in time, and a silent one is found out after 65 s. The set-up and
  every recovery ask each remote gateway of the new mapping, and from each such request steps lead to monitoring and,
  after a crash, to detection. Time can always pass. Every assigned sensor is forwarded exactly once iff the
  requester's own new share was registered at the start.
- **Privacy over time** (`PolicyRuns.NothingBlockedIsEverPublished`, `MessagesFollowThePolicy`,
  `PublishedWasAllowedWithinAMinute`, `PublicationsKeepToSchedules`). With minute-aligned schedules no data leaves a
  gateway at an instant at which the current policy blocks it, over whole runs, and nothing allowed is withheld: what
  an entry blocks stays outside its schedule, what an entry only allows stays inside. Without alignment a publication
  was allowed less than a minute before. Behind it: the compiled rule skips entries without reading their schedules
  and is still right until the first change that it did read.
- **Placement** (`Allocation.AllocationIsExactPartition`, `LastLargestKeepsAll`, `AllocationIsStable`,
  `SweepFollowsRule`, `LinkGraphs.StreamsComeFromReachableGateways`). The traversal contacts exactly the reachable
  gateways once each, in the order of their distance (`LinkGraphDistances.NearerAreContactedFirst`); the allocation
  over its result is an exact partition of the hosted required devices and a fixed point.
- **No loss** (`DeviceRegistration.NothingIsLostOrReordered`, `EverythingGetsPublished`,
  `Flattening.NothingIsLostExactlyWhen`, `TelemetryPaths.EveryValueArrives`, `Lighting.CommandsAreCarriedOutInOrder`,
  `DispatchedCommandsAreKept`). What goes in, by the events or the telemetry alone, is what comes out, with what is
  still on its way.

Properties that are false of the code, with the exact condition under which the code does meet them:

- `deregisterFromLocalGateway` pushes the topic (line 44) before it removes one occurrence, so it removes nothing
  (`RouteTables.LiteralDeregisterConserves`, `LiteralUndoesOnlyNothing`). In a recovery a gateway then ends with its new
  share exactly iff it had none before (`FailoverRuns.LiteralRoundExactlyWhenIdle`), and copies pile up
  (`LiteralCopiesPileUp`). The protocol is proved for the intended step, without line 44.
- A recovery does not ask the suspected gateway to stop. If that gateway is alive after all, its share is right iff it was
  empty (`FailoverRuns.FalseSuspicionExactlyWhenIdle`).
- A timer key splits back to topic and gateway, and is used by no other pair, iff neither contains a '-'
  (`HeartbeatKeys.SplitsBackExactlyWhenDashFree`, `KeyIsSharedExactlyWhenDashed`).
- The next policy update is rounded up to a minute. When some schedule does turn at the first change, the rule is right
  until the update iff that change starts a minute (`PolicyRules.RightUntilUpdateExactlyWhenAligned`).
- The link graph has dangling edges iff a responding gateway lists one that was contacted, in vain, before it
  (`LinkGraphs.EdgeClosedExactlyWhen`, `DanglingEdgesHappen`). On the network itself: one does where a failing gateway is
  nearer than a responding one that lists it, and none does where all are farther
  (`LinkGraphDistances.NearerFailureDangles`, `FartherFailuresLeaveNone`).
- All reachable gateways are contacted iff no reachable gateway id comes with two addresses
  (`LinkGraphs.ContactsExactlyReachable`).
- A gateway whose registration is not answered with status 200 stays in the mapping and is not monitored
  (`FailoverRuns.MonitoredExactlyWhenAnswered`, `UnansweredStaysUnmonitored`).
- A stop of watching removes its own app and nothing else iff no other stop has spliced the list at or before its index
  since it began (`Watching.StopRemovesItsAppExactlyWhenUndisturbed`, `OverlappingStopsRemoveTheWrongApp`).
- Commands to lights are carried out in order iff no command in flight has been rejected
  (`Lighting.CommandsAreCarriedOutInOrder`); after such a rejection the lock stays taken (`RejectionStopsTheHandler`).
- Flattening publishes every value iff values that meet under one name are the same (`Flattening.NothingIsLostExactlyWhen`).
  A field name splits back into its path iff no key has an underscore and none above the last is empty
  (`NameSplitsBackExactlyWhen`, `UnderscoredKeysCollide`), and telemetry can replace the packet's own metadata
  (`OwnMetaSurvivesExactlyWhen`, `DeviceIdCanBeReplaced`).

## Conventions

Time is integer seconds and is a parameter. A schedule is abstract: whether it contains an instant, and a later instant
up to which that does not change. Requests to other gateways, publications and link graph requests are recorded in
fields; their completions are events that may come at any later time. JavaScript objects are maps walked in an arbitrary
order, or sequences of entries where key order matters (addresses are not integer-like keys, so that is insertion order).
Identifiers are non-empty strings; `Vocabulary.dfy` names them. Each class method ends in the state that a function of the
old state gives; what that function guarantees is proved as lemmas about all runs.

## Model

| member | source | states |
|---|---|---|
| FailoverRuns.GatewaysHoldTheirShare | platform/sensor-stream-manager/sensor-stream-manager.js:194-261 | In every state of every run, a live gateway with nothing in flight stores the topic exactly once for each sensor of its current share and zero times for others, and runs one heartbeat interval iff it has a share; nothing while a recovery is in progress |
| FailoverRuns.RecoveriesDoNotOverlap | platform/sensor-stream-manager/sensor-stream-manager.js:179-237 | At most one recovery is in progress at any time; when a timer fires none is, no registration reply is outstanding, the key names a crashed gateway, and no timer of the request is left armed |
| FailoverRuns.SilenceIsDetected | platform/sensor-stream-manager/sensor-stream-manager.js:76-136 | Completeness: in every run, when nothing is heard of a monitored gateway any more, by 65 s after it was last heard a timer has fired at its deadline and started a recovery; its own fires exactly then, unless another came first |
| FailoverRuns.AwaitedGatewaysCanBeFoundOut | platform/sensor-stream-manager/sensor-stream-manager.js:101-136 | From every state of every run in which a registration is awaited, steps lead at the same instant to the gateway being monitored and crashed, and from there, within 65 s, to a recovery |
| FailoverRuns.RegistrationsAreAwaitedOrSettled | platform/sensor-stream-manager/sensor-stream-manager.js:101-136 | In every run, outside of recoveries, a registration is awaited, answered or refused for exactly the remote gateways of the mapping |
| FailoverRuns.OnlyCrashedAreSuspected | platform/sensor-stream-manager/sensor-stream-manager.js:179-192 | Accuracy: in every run the timer of a live gateway is not due, because heartbeats sent every 60 s that arrive in under 5 s come before the 65 s are over |
| FailoverRuns.MonitoredExactlyWhenAnswered | platform/sensor-stream-manager/sensor-stream-manager.js:101-136 | Outside of recoveries a gateway has a timer iff its registration was answered with status 200 |
| FailoverRuns.UnansweredStaysUnmonitored | platform/sensor-stream-manager/sensor-stream-manager.js:125-136 | A gateway whose registration has failed has no timer at any time before the next recovery, so its crash goes unnoticed |
| FailoverRuns.TimersEndInRecovery | platform/sensor-stream-manager/sensor-stream-manager.js:107-114 | Only the start of a recovery takes a timer away, and only a successful registration reply creates one: late heartbeats never do |
| FailoverRuns.TimePasses | platform/sensor-stream-manager/sensor-stream-manager.js:101-192 | From every state of every run a sequence of steps leads to the next second: timers, overdue replies, due intervals and heartbeats can always be dealt with first |
| FailoverRuns.HeartbeatsComeAPeriodApart | platform/sensor-stream-manager/sensor-stream-manager.js:622-625 | In every run heartbeats of one gateway were sent at least 60 s apart |
| FailoverRuns.CoverageNeedsTheLocalShare | platform/sensor-stream-manager/sensor-stream-manager.js:247-254 | After any recoveries every assigned sensor is forwarded exactly once by its gateway iff each sensor now assigned to the requester was registered there, once, at the start |
| Failover.NextInv | platform/sensor-stream-manager/sensor-stream-manager.js:194-261 | Every step of the timed system keeps the invariant on mapping, replies, timers, recoveries, heartbeat intervals, heartbeats on their way, and what each forwarder will hold once its channel drains |
| Failover.InitialInv | platform/sensor-stream-manager/sensor-stream-manager.js:545-562 | Setting up a stream request establishes the invariant |
| Failover.InitialRequests | platform/sensor-stream-manager/sensor-stream-manager.js:545-562 | The set-up awaits a registration, sent now, of exactly the remote gateways of a mapping that partitions the hosted sensors, has no timer, and stores the topic here once per sensor of the local share |
| Failover.RecomputeRequests | platform/sensor-stream-manager/sensor-stream-manager.js:240-254 | A recovery ends with a partition of the sensors hosted in the link graph that came back, and awaits a registration, sent now, of exactly its remote gateways |
| Failover.TimeoutIsAccurate | platform/sensor-stream-manager/sensor-stream-manager.js:194-233 | A due timer is exactly at its deadline and means a crashed gateway, no outstanding reply, no recovery in progress, and all timers cleared by the recovery |
| Failover.LiveTimersAreNotDue | platform/sensor-stream-manager/sensor-stream-manager.js:179-192 | For a live gateway the next heartbeat, or one on its way, arrives before its timer is due |
| Failover.DrainedBeats | platform/sensor-stream-manager/sensor-stream-manager.js:620-625 | A live gateway whose channel is empty runs a heartbeat interval iff the mapping lists it |
| Failover.DrainsAfterDelivery | platform/sensor-stream-manager/sensor-stream-manager.js:605-654 | Receiving the head of a channel does not change what the gateway will hold in the end |
| Failover.DrainsAfterOtherTraffic | platform/sensor-stream-manager/sensor-stream-manager.js:605-654 | Requests of other gateways or topics do not change what is held for this one |
| FailoverRuns.LiteralRoundExactlyWhenIdle | platform/sensor-stream-manager/sensor-stream-manager.js:39-54 | With line 44, a stop and start leave a gateway with exactly its new share iff it had no share before |
| FailoverRuns.LiteralCopiesPileUp | platform/sensor-stream-manager/sensor-stream-manager.js:39-54 | With line 44, a gateway that keeps its share stores n + 1 copies of the topic after n recoveries |
| FailoverRuns.FalseSuspicionExactlyWhenIdle | platform/sensor-stream-manager/sensor-stream-manager.js:216-219 | A suspected gateway that is alive and gets a share again holds exactly that share iff it had none, and runs one heartbeat interval too many |
| RecoverySteps.SendStopsQueue | platform/sensor-stream-manager/sensor-stream-manager.js:213-219 | Step 1 sends one stop, with its old share, to every remote gateway of the mapping except the failed one, and nothing else |
| RecoverySteps.SendStartsQueue | platform/sensor-stream-manager/sensor-stream-manager.js:248-254 | Step 2 sends one start, with its new share, to every remote gateway of the new mapping, and nothing else |
| RecoverySteps.ClearTimersExact | platform/sensor-stream-manager/sensor-stream-manager.js:221-232 | Recovery deletes exactly the timers of the mapping's gateways and leaves other deadlines alone |
| RecoverySteps.OtherTopicsKeepTimers | platform/sensor-stream-manager/sensor-stream-manager.js:221-232 | A recovery never clears a timer of another topic |
| RecoverySteps.OnlyOneIntervalStops | platform/sensor-stream-manager/sensor-stream-manager.js:622-653 | After n registrations under one heartbeat topic, any number of deregistrations stops exactly one heartbeat interval, so n - 1 keep running |
| HeartbeatKeys.SplitsBackExactlyWhenDashFree | platform/sensor-stream-manager/sensor-stream-manager.js:196-198 | Splitting a timer key yields its topic and gateway iff neither contains a '-' |
| HeartbeatKeys.KeysAreDistinct | platform/sensor-stream-manager/sensor-stream-manager.js:91 | Distinct pairs of '-'-free topic and gateway have distinct timer keys |
| HeartbeatKeys.KeyIsSharedExactlyWhenDashed | platform/sensor-stream-manager/sensor-stream-manager.js:91 | Some other topic and gateway use the same timer key iff the topic or the gateway contains a '-' |
| RouteTables.RegisterAllCounts | platform/sensor-stream-manager/sensor-stream-manager.js:21-31 | Registration adds one occurrence of the topic per listed sensor at that gateway and changes no other count |
| RouteTables.DeregisterAllCounts | platform/sensor-stream-manager/sensor-stream-manager.js:39-54 | The intended deregistration removes one occurrence per listing, or all there are, and changes no other count |
| RouteTables.LiteralDeregisterConserves | platform/sensor-stream-manager/sensor-stream-manager.js:44-50 | As written, deregistration leaves every topic multiset unchanged |
| RouteTables.DeregisterUndoesRegister | platform/sensor-stream-manager/sensor-stream-manager.js:21-54 | Intended deregistration after registration restores every topic multiset |
| RouteTables.LiteralUndoesOnlyNothing | platform/sensor-stream-manager/sensor-stream-manager.js:21-54 | As written, deregistration undoes registration iff no sensor was registered |
| RouteTables.RegisterAllConnected | platform/sensor-stream-manager/sensor-stream-manager.js:620-621 | Registering at a connected gateway keeps every gateway of the table connected |
| RouteTables.DeregisterAllConnected | platform/sensor-stream-manager/sensor-stream-manager.js:643-644 | Deregistering keeps every gateway of the table connected |
| SensorStreams.SensorStreamManager.constructor | platform/sensor-stream-manager/sensor-stream-manager.js:380-411 | Starts with empty tables and the local MQTT client |
| SensorStreams.SensorStreamManager.RegisterToLocalGateway | platform/sensor-stream-manager/sensor-stream-manager.js:21-31 | The loop's effect on the route table |
| SensorStreams.SensorStreamManager.DeregisterFromLocalGateway | platform/sensor-stream-manager/sensor-stream-manager.js:39-54 | The loop's effect on the route table, with and without line 44 |
| SensorStreams.SensorStreamManager.IndexOf | platform/sensor-stream-manager/sensor-stream-manager.js:46-48 | The found index is the first occurrence, and splicing there removes it |
| SensorStreams.SensorStreamManager.RegisterSensor | platform/sensor-stream-manager/sensor-stream-manager.js:22-30 | One sensor: missing keys are created and the topic is appended |
| SensorStreams.SensorStreamManager.DeregisterSensor | platform/sensor-stream-manager/sensor-stream-manager.js:40-50 | One sensor: its first occurrence of the topic is spliced out, after line 44 has pushed one more if it is in place |
| SensorStreams.SensorStreamManager.StoreAllocation | platform/sensor-stream-manager/sensor-stream-manager.js:240-246 | Stores the allocation over a link graph as the topic's mapping |
| SensorStreams.SensorStreamManager.OnRegisterTopic | platform/sensor-stream-manager/sensor-stream-manager.js:605-626 | register-topic stores the topics, starts one more heartbeat interval and connects the requester |
| SensorStreams.SensorStreamManager.OnDeregisterTopic | platform/sensor-stream-manager/sensor-stream-manager.js:628-654 | deregister-topic removes the topics and clears the stored heartbeat interval if there is one |
| SensorStreams.SensorStreamManager.HandleHeartbeatMessage | platform/sensor-stream-manager/sensor-stream-manager.js:179-192 | A heartbeat puts off its own timer only, and creates none |
| SensorStreams.SensorStreamManager.StopStreams | platform/sensor-stream-manager/sensor-stream-manager.js:213-233 | The loop over the failed mapping sends the stops and clears the timers of the protocol's first step |
| SensorStreams.SensorStreamManager.RegisterAtRemoteGateways | platform/sensor-stream-manager/sensor-stream-manager.js:248-254 | The loop over the new mapping sends the starts of the protocol's second step, to remote gateways only |
| SensorStreams.SensorStreamManager.SetUpStreams | platform/sensor-stream-manager/sensor-stream-manager.js:550-562 | The loop over a first mapping registers the local share here and requests the others |
| SensorStreams.SensorStreamManager.HandleRemoteGatewayFailure | platform/sensor-stream-manager/sensor-stream-manager.js:194-237 | A known topic: stops sent, timers cleared, link graph requested, as the protocol's step; an unknown one: nothing changes |
| SensorStreams.SensorStreamManager.OnRecoveryLinkGraph | platform/sensor-stream-manager/sensor-stream-manager.js:237-256 | The reallocation replaces the mapping and starts its remote gateways, as the protocol's step; the local share is not registered |
| SensorStreams.SensorStreamManager.RequestStreams | platform/sensor-stream-manager/sensor-stream-manager.js:521-564 | The request's allocation is stored, its local share registered here and its remote shares requested |
| SensorStreams.SensorStreamManager.RouteToGateway | platform/sensor-stream-manager/sensor-stream-manager.js:349-361 | Publishes each stored topic of a gateway as often as it is stored, unless blocked |
| SensorStreams.SensorStreamManager.RouteSensorMessage | platform/sensor-stream-manager/sensor-stream-manager.js:344-365 | A sensor message is published to exactly the stored topics that the rule does not block |
| SensorStreams.SensorStreamManager.UpdatePolicy | platform/sensor-stream-manager/sensor-stream-manager.js:656-661 | A new policy is compiled at once |
| SensorStreams.SensorStreamManager.RouteToAll | platform/sensor-stream-manager/sensor-stream-manager.js:349-361 | Takes every gateway of the sensor once, in some order, and publishes what each is due |
| SensorStreams.RoutedInOrderRoutes | platform/sensor-stream-manager/sensor-stream-manager.js:349-361 | Whatever the order of the gateways, each stored topic is published as often as stored unless blocked, and nothing else is |
| PolicyRules.RuleIsValidUntilFirstChange | platform/sensor-stream-manager/policy.js:77-158 | A rule compiled at now agrees with direct evaluation of the policy at every instant before the first consulted change, although schedules of skipped entries are never read |
| PolicyRules.RuleIsValidUntilUpdate | platform/sensor-stream-manager/policy.js:316-333 | When the update is on a consulted change the rule is right at every instant before the update |
| PolicyRules.AlignedUpdatesAreOnTime | platform/sensor-stream-manager/policy.js:214-223 | With minute-aligned schedules the next update is exactly on the first consulted change |
| PolicyRules.RightUntilUpdateExactlyWhenAligned | platform/sensor-stream-manager/policy.js:214-223 | For any policy, when some schedule does turn at the first consulted change, the rule is right at every instant before the next update iff that change starts a minute |
| PolicyRules.RealChangeShows | platform/sensor-stream-manager/policy.js:316-333 | A consulted schedule cannot turn without the policy as a whole answering differently for some stream |
| PolicyRules.RuleIsAtMostAMinuteStale | platform/sensor-stream-manager/policy.js:214-223 | Without alignment the rule answers as the policy did less than a minute earlier |
| PolicyRules.UpdateTimeIsCeilingOfMinimum | platform/sensor-stream-manager/policy.js:214-223 | Over candidates in any order, comparing unrounded candidates with the rounded value found so far yields the minute-ceiling of the minimum, or none without candidates |
| PolicyRules.NextUpdateIsClose | platform/sensor-stream-manager/policy.js:214-223 | The update starts a minute, is never before the first change, less than 60 s after it, and on it iff the change starts a minute |
| PolicyRules.CompiledListsBarred | platform/sensor-stream-manager/policy.js:198-208 | An entry is listed iff it bars its stream at the compilation: one that blocks inside its schedule while the schedule contains that instant, one that only allows inside it while it does not; app-sensor entries only where neither the sensor nor the app is listed |
| PolicyRules.AllowedKeepsToEntries | platform/sensor-stream-manager/policy.js:198-208 | A policy lets a stream through iff none of the at most three entries for it bars it |
| PolicyRules.UnalignedRuleCanBeWrong | platform/sensor-stream-manager/policy.js:214-223 | A schedule that changes at second 30 leaves the rule wrong until second 60 |
| PolicyEnforcement.PrivacyRule.constructor | platform/sensor-stream-manager/policy.js:62-66 | Starts with empty lists and no update time |
| PolicyEnforcement.PrivacyRule.Update | platform/sensor-stream-manager/policy.js:77-91 | The three loops yield the lists of a rule compiled at now, listing entries that block iff now is in their schedule and entries that only allow iff it is not, and the minute-ceiling of the earliest consulted change |
| PolicyEnforcement.PrivacyRule.UpdateNextUpdateTime | platform/sensor-stream-manager/policy.js:214-223 | Accounts for one more entry in the update time |
| PolicyEnforcement.PrivacyRule.UpdateSensorSpecific | platform/sensor-stream-manager/policy.js:98-106 | Lists exactly the sensors whose entry bars them at now, by its block flag and schedule, and consults every sensor entry |
| PolicyEnforcement.PrivacyRule.ListApp | platform/sensor-stream-manager/policy.js:167-187 | Lists a topic under a gateway once |
| PolicyEnforcement.PrivacyRule.UpdateApp | platform/sensor-stream-manager/policy.js:115-121 | One app entry: listed iff it bars the app at now, by its block flag and schedule, and consulted |
| PolicyEnforcement.PrivacyRule.UpdateAppSpecific | platform/sensor-stream-manager/policy.js:112-123 | Lists exactly the apps blocked at now and consults every app entry |
| PolicyEnforcement.PrivacyRule.ListAppSensor | platform/sensor-stream-manager/policy.js:167-187 | Lists a topic under a sensor and gateway once |
| PolicyEnforcement.PrivacyRule.UpdateOneAppSensor | platform/sensor-stream-manager/policy.js:139-155 | One app-sensor entry: skipped when its app is blocked, otherwise consulted and listed iff it bars the stream, by its block flag and schedule |
| PolicyEnforcement.PrivacyRule.UpdateAppsOfSensor | platform/sensor-stream-manager/policy.js:136-156 | The loops over gateways and topics of one sensor consult exactly the entries whose app is not blocked |
| PolicyEnforcement.PrivacyRule.UpdateAppSensor | platform/sensor-stream-manager/policy.js:129-158 | Consults exactly the entries whose sensor and app are not blocked |
| PolicyEnforcement.TimesOfAll | platform/sensor-stream-manager/policy.js:98-158 | The entries looked at are those whose schedules count for the next update |
| PolicyEnforcement.PolicyEnforcer.constructor | platform/sensor-stream-manager/policy.js:298-303 | Starts with an empty policy, an empty rule and no timer |
| PolicyEnforcement.PolicyEnforcer.Update | platform/sensor-stream-manager/policy.js:304-307 | Takes over the policy, compiles it at now and arms the timer for the next update, keeping an old timer when there is none |
| PolicyEnforcement.PolicyEnforcer.TimerFires | platform/sensor-stream-manager/policy.js:369-385 | The timer recompiles the same policy and is armed again iff there is a next update |
| PolicyEnforcement.PolicyEnforcer.EnforcePolicy | platform/sensor-stream-manager/policy.js:346-352 | Recompiles and rearms |
| PolicyEnforcement.PolicyEnforcer.IsBlocked | platform/sensor-stream-manager/policy.js:316-333 | Answers whether one of the three lists has the stream |
| PolicyRuns.NothingBlockedIsEverPublished | platform/sensor-stream-manager/sensor-stream-manager.js:344-365 | Over whole runs of updates, timer firings, (de)registrations and messages with minute-aligned schedules, for each entry of the publication log: the policy in force at the very step that made it did not block it at that instant |
| PolicyRuns.PublicationsKeepToSchedules | platform/sensor-stream-manager/sensor-stream-manager.js:344-365 | With minute-aligned schedules, at the step that made a publication the schedule of each entry of the policy for its sensor, app or both contained that instant iff the entry only allows |
| PolicyRuns.StepsShow | platform/sensor-stream-manager/sensor-stream-manager.js:605-661 | Registrations and deregistrations change the counts of their own gateway, topic and listed sensors, updates set the policy, and no other step changes either |
| PolicyRuns.MessagesFollowThePolicy | platform/sensor-stream-manager/sensor-stream-manager.js:349-361 | In every run a message is published to each stored topic as often as stored iff the current policy does not block it at that instant |
| PolicyRuns.PublishedWasAllowedWithinAMinute | platform/sensor-stream-manager/policy.js:316-385 | Without alignment, what is published was allowed by the current policy less than a minute before |
| PolicyRuns.NextInv | platform/sensor-stream-manager/policy.js:304-385 | Every step keeps the rule compiled from the current policy, the timer on its next update and never in the past, and every gateway of the table connected |
| PolicyRuns.StoredGatewaysAreConnected | platform/sensor-stream-manager/sensor-stream-manager.js:305-310 | In every run each gateway that has topics stored is connected, so the branch that drops data for an unregistered gateway is never taken from routing |
| Allocation.GetHostGateways | platform/sensor-stream-manager/sensor-stream-manager.js:425-450 | The nested loops build the host table |
| Allocation.HostSharesExact | platform/sensor-stream-manager/sensor-stream-manager.js:429-448 | The host table lists exactly the hosted required devices, under distinct addresses, without empty lists |
| Allocation.HostSharesNoDuplicates | platform/sensor-stream-manager/sensor-stream-manager.js:429-448 | With one entry per address and no repeated requirement no list repeats a device |
| Allocation.HostSharesCount | platform/sensor-stream-manager/sensor-stream-manager.js:429-448 | With one entry per address and no repeated requirement a list is as long as the number of required devices that the gateway hosts |
| Allocation.Difference | platform/sensor-stream-manager/sensor-stream-manager.js:512-518 | Deleting the second set's elements one by one leaves the difference, in order and without repetitions |
| Allocation.ExclusiveShares | platform/sensor-stream-manager/sensor-stream-manager.js:464-475 | Collects what each remote gateway has and the local one does not, omitting gateways left with nothing |
| Allocation.SeparatePair | platform/sensor-stream-manager/sensor-stream-manager.js:483-489 | The longer list of a pair, or the second on a tie, is unchanged; the other loses exactly the devices that the longer one has, in order; no other list changes |
| Allocation.SeparatePairs | platform/sensor-stream-manager/sensor-stream-manager.js:478-491 | The two index loops, overwriting lists in place, perform the pairwise steps in order |
| Allocation.GetOptimalMapping | platform/sensor-stream-manager/sensor-stream-manager.js:458-504 | The loops that overwrite lists in place compute the allocation |
| Allocation.AllocationIsExactPartition | platform/sensor-stream-manager/sensor-stream-manager.js:425-504 | Each required device hosted somewhere is assigned to exactly one gateway, which hosts it; nothing else is assigned; the local gateway keeps all it hosts; no list is empty |
| Allocation.LastLargestKeepsAll | platform/sensor-stream-manager/sensor-stream-manager.js:478-491 | The last remote gateway with the most devices that the local one lacks keeps all of them |
| Allocation.AllocationIsStable | platform/sensor-stream-manager/sensor-stream-manager.js:458-504 | Allocating again from the result changes nothing, order included |
| Allocation.LocalKeepsAll | platform/sensor-stream-manager/sensor-stream-manager.js:459-462 | The local gateway's list is unchanged |
| Allocation.RemoteListsDoNotRepeat | platform/sensor-stream-manager/sensor-stream-manager.js:469 | Remote lists come out without repetitions |
| Allocation.NothingIsLost | platform/sensor-stream-manager/sensor-stream-manager.js:481-491 | Every device listed somewhere is listed somewhere in the result |
| Allocation.OneOwner | platform/sensor-stream-manager/sensor-stream-manager.js:481-491 | No device is assigned to two gateways |
| Allocation.SweepSeparates | platform/sensor-stream-manager/sensor-stream-manager.js:481-491 | After the two index loops the remote lists are pairwise disjoint |
| Allocation.SweepKeepsLastLargest | platform/sensor-stream-manager/sensor-stream-manager.js:485-489 | The loops never take from the last list of maximal size |
| Allocation.SweepKeepsUncontested | platform/sensor-stream-manager/sensor-stream-manager.js:483-490 | A list loses nothing in the loops when every other list has none of its devices or is smaller, where an earlier one may also be as large |
| Allocation.SweepFollowsRule | platform/sensor-stream-manager/sensor-stream-manager.js:479-491 | The loops treat each pair of positions once, in lexicographic order, each by the pair rule on the lists that the pair before left |
| LinkGraphs.GetLinkGraphData | platform/api-server/api/controllers/link-graph-controller.js:12-58 | For every network the traversal terminates and contacts reachable gateways only, each id once and in breadth-first order, and whatever they list; these are exactly the reachable gateways iff no reachable id comes with two addresses; both result objects are as the contacts determine |
| LinkGraphs.Record | platform/api-server/api/controllers/link-graph-controller.js:29-53 | What an answer, or the lack of one, does to both result objects |
| LinkGraphs.Dequeue | platform/api-server/api/controllers/link-graph-controller.js:23-47 | One turn of the loop keeps order, queue and visited set in step and brings the end nearer |
| LinkGraphs.ContactsExactlyReachable | platform/api-server/api/controllers/link-graph-controller.js:36-47 | Exactly the reachable gateways are contacted iff no reachable gateway id is reported with two addresses |
| LinkGraphDistances.DepthIsDistance | platform/api-server/api/controllers/link-graph-controller.js:23-47 | The depth at which a gateway is discovered is the length of a shortest path to it through responding gateways |
| LinkGraphDistances.NearerAreContactedFirst | platform/api-server/api/controllers/link-graph-controller.js:23-47 | Gateways are contacted in the order of that distance |
| LinkGraphDistances.NearerFailureDangles | platform/api-server/api/controllers/link-graph-controller.js:48-54 | A failing gateway leaves a dangling edge at every responding gateway that lists it and is farther away |
| LinkGraphDistances.FartherFailuresLeaveNone | platform/api-server/api/controllers/link-graph-controller.js:48-54 | When every failing gateway that is listed is farther away than its listers, no edge dangles |
| LinkGraphs.VisitNeighbors | platform/api-server/api/controllers/link-graph-controller.js:36-47 | Queues the neighbours not visited yet, each with this node as its discoverer |
| LinkGraphs.RemoveFromAll | platform/api-server/api/controllers/link-graph-controller.js:50-53 | Filters a failed gateway out of every entry built so far |
| LinkGraphs.EntriesAreReachableResponders | platform/api-server/api/controllers/link-graph-controller.js:29-34 | data and graph have an entry for a gateway iff it responds and is reachable through responding gateways, with what it reported |
| LinkGraphs.EdgeSurvives | platform/api-server/api/controllers/link-graph-controller.js:31-53 | An edge is in the result iff its end responds or was contacted in vain before its start was processed |
| LinkGraphs.EdgeClosedExactlyWhen | platform/api-server/api/controllers/link-graph-controller.js:48-54 | The graph has no dangling edge iff no responding gateway lists one contacted in vain before it |
| LinkGraphs.DanglingEdgesHappen | platform/api-server/api/controllers/link-graph-controller.js:48-54 | A three-gateway network whose graph has a dangling edge |
| LinkGraphs.StreamsComeFromReachableGateways | platform/sensor-stream-manager/sensor-stream-manager.js:237-242 | Allocation over a collected link graph assigns a device, to exactly one gateway, iff a reachable responding gateway has it |
| DeviceRegistration.NothingIsLostOrReordered | platform/device-manager/device-manager.js:80-146 | In every interleaving, the readings that the events deliver for a device are those published followed by those buffered; a buffer exists exactly while one insertion started by a delivery is outstanding; no callback fails |
| DeviceRegistration.EverythingGetsPublished | platform/device-manager/device-manager.js:80-146 | Every run can be continued by settling insertions alone, until all that its events delivered is published, in order for each device, and every announced device is cached |
| DeviceRegistration.AnnouncedDevicesAreTakenUp | platform/device-manager/device-manager.js:80-146 | A device that was registered or delivered for is cached or its insertion is under way |
| DeviceRegistration.CachedHandlersAnnounced | platform/device-manager/device-manager.js:80-146 | A device is cached with a handler that announced it, or the one that it was stored with |
| DeviceRegistration.DeliveriesAreRecorded | platform/device-manager/device-manager.js:99-146 | What the runs record as delivered for a device is what the events delivered for it |
| DeviceRegistration.PublishedDevicesAreStored | platform/device-manager/device-manager.js:120-143 | Cached devices, and devices whose data has been published, are in the database |
| DeviceRegistration.CompleteInv | platform/device-manager/device-manager.js:130-140 | The registration callback keeps the invariant whatever happened since it was started |
| DeviceRegistration.DeliverInv | platform/device-manager/device-manager.js:99-146 | A delivery keeps the invariant in each of its three branches |
| DeviceRegistration.DeviceManager.constructor | platform/device-manager/device-manager.js:45-50 | Starts with the registered devices cached |
| DeviceRegistration.DeviceManager.Register | platform/device-manager/device-manager.js:80-90 | Starts an insertion iff the device is not cached |
| DeviceRegistration.DeviceManager.Deliver | platform/device-manager/device-manager.js:99-146 | Buffers, starts a registration or publishes: the delivery step, of which NothingIsLostOrReordered proves that no reading is lost |
| DeviceRegistration.DeviceManager.OnStored | platform/dao/collections/devices-dao.js:20-31 | The insertion reaches the database |
| DeviceRegistration.DeviceManager.OnComplete | platform/device-manager/device-manager.js:130-140 | Caches the device and publishes its buffer in order |
| Flattening.GetConvertedFields | platform/data-publish-manager/publishers/linklab-influx/linklab-influx-publisher.js:70-122 | The nested map-merging recursion equals writing the depth-first leaves under their joined names, the last of a name winning; a value that is no object becomes the field of its kind |
| Flattening.ConvertSingle | platform/data-publish-manager/publishers/linklab-influx/linklab-influx-publisher.js:76-102 | The cases of the switch: one value that is no object becomes at most one field, of its kind |
| Flattening.SingleValueConverts | platform/data-publish-manager/publishers/linklab-influx/linklab-influx-publisher.js:76-102 | Writing a single value shows it by its kind, under its key and no other |
| Flattening.MergeFields | platform/data-publish-manager/publishers/linklab-influx/linklab-influx-publisher.js:109-116 | The copy loop overwrites by the renamed inner fields |
| Flattening.MergeIsWrite | platform/data-publish-manager/publishers/sif-cloud/sif-cloud-publisher.js:200-212 | Merging renamed inner results is writing the inner leaves with longer paths |
| Flattening.TelemetryIsRecoverable | platform/data-publish-manager/publishers/linklab-influx/linklab-influx-publisher.js:70-122 | With plain keys every value is shown by its kind (numbers as they are, true as 1 and false as 0, a text as the number it denotes or else as metadata, a microbit text as metadata but for manufacturer_data) under a name that splits back into its path, in payload or metadata and never both; there are no other fields |
| TelemetryPaths.EveryValueArrives | platform/data-publish-manager/publishers/linklab-influx/linklab-influx-publisher.js:70-122 | With plain keys, each value that a path of keys leads to in the telemetry is published, converted by its kind, under a name that splits back into that path |
| TelemetryPaths.NothingElseArrives | platform/data-publish-manager/publishers/linklab-influx/linklab-influx-publisher.js:70-122 | Every published field is named by a path that leads to a value of the telemetry |
| TelemetryPaths.LeavesAreLedTo | platform/data-publish-manager/publishers/linklab-influx/linklab-influx-publisher.js:103-118 | The leaves that the recursion visits are exactly the values that paths of keys lead to |
| Flattening.NameSplitsBackExactlyWhen | platform/data-publish-manager/publishers/linklab-influx/linklab-influx-publisher.js:110 | A field name splits back into the keys of its path iff none contains an underscore and none above the last is empty |
| Flattening.LastToPayloadWins | platform/data-publish-manager/publishers/linklab-influx/linklab-influx-publisher.js:109-112 | The payload has a field iff some leaf of that name goes there, with the value of the last such leaf |
| Flattening.LastToMetadataWins | platform/data-publish-manager/publishers/linklab-influx/linklab-influx-publisher.js:113-116 | The same for the metadata |
| Flattening.NothingIsLostExactlyWhen | platform/data-publish-manager/publishers/linklab-influx/linklab-influx-publisher.js:109-116 | Every leaf is published, in payload or metadata and not in both, and nothing else is, iff leaves of the same name have the same value to publish |
| Flattening.UnderscoredKeysCollide | platform/data-publish-manager/publishers/linklab-influx/linklab-influx-publisher.js:110 | A key a_b and a key b under a meet in one field, and only the later value is published |
| Flattening.GetFormattedData | platform/data-publish-manager/publishers/linklab-influx/linklab-influx-publisher.js:17-44 | The published object: device type overwritten by payload fields, own metadata by metadata fields, _meta last; the device type is kept unless a payload field is named device, and each of the five own entries unless a metadata field has its name |
| Flattening.OwnMetaSurvivesExactlyWhen | platform/data-publish-manager/publishers/linklab-influx/linklab-influx-publisher.js:27-41 | The packet's own metadata is published unchanged iff no text of the telemetry that comes last under one of its names differs from it |
| Flattening.DeviceIdCanBeReplaced | platform/data-publish-manager/publishers/linklab-influx/linklab-influx-publisher.js:38-40 | A text under device/id replaces the device's id, with plain keys throughout |
| Watching.TimerIsSetExactlyWhenWatching | platform/app-manager/watcher.js:36-39 | In every interleaving, stale indices included, the timer is set iff the watch list is non-empty |
| Watching.StopRemovesItsAppExactlyWhenUndisturbed | platform/app-manager/watcher.js:77-97 | A completing stop removes its own app and nothing else iff no stop has spliced the list at or before its index since it began |
| Watching.StopsThatDoNotOverlapAreExact | platform/app-manager/watcher.js:77-97 | When no two deletions are under way at once every stop removes exactly its own app |
| Watching.OverlappingStopsRemoveTheWrongApp | platform/app-manager/watcher.js:77-97 | Two overlapping stops remove a running app and leave one that is gone |
| Watching.CheckReschedulesExactly | platform/app-manager/watcher.js:44-59 | A check asks to reschedule exactly the watched apps whose gateway is missing from the link graph |
| Watching.CheckStopsExactly | platform/app-manager/watcher.js:60-66 | A check begins a stop, at the right index, for exactly the apps that are gone from a gateway that is there |
| Watching.RescheduledAppIsStopped | platform/app-manager/watcher.js:54-59 | A completed rescheduling begins the stop of that very app, at its index, when it is still watched, and nothing when it is not |
| Watching.WatchedAppsStay | platform/app-manager/watcher.js:29-33 | While nothing is deleted the list grows by exactly the apps newly watched, in order |
| Watching.RunInv | platform/app-manager/watcher.js:22-101 | With fresh ids, in every run, an undisturbed stop's index is right and a disturbed one's is past its app |
| Watching.Watcher.constructor | platform/app-manager/watcher.js:19-20 | Starts without apps and timer |
| Watching.Watcher.Watch | platform/app-manager/watcher.js:29-39 | Appends the app and makes sure that the timer is set |
| Watching.Watcher.StopWatchingApp | platform/app-manager/watcher.js:77-81 | Captures the index of the first app with the id |
| Watching.Watcher.OnLinkGraph | platform/app-manager/watcher.js:41-68 | Reschedules apps of missing gateways and stops watching apps that are gone |
| Watching.Watcher.OnRescheduled | platform/app-manager/watcher.js:54-59 | Stops watching a rescheduled app |
| Watching.Watcher.OnDeleted | platform/app-manager/watcher.js:83-97 | Splices at the captured index and clears the timer when the list is empty |
| Scheduling.Select | platform/app-manager/scheduler.js:133-178 | The executor is the first lexicographic maximum of devices, memory and CPU among gateways with enough resources; the watcher is another such gateway, absent iff there is none; an error iff no gateway has enough |
| Scheduling.FirstBestIsUnique | platform/app-manager/scheduler.js:32-42 | That maximum is unique, so the contract determines the executor |
| Scheduling.Best | platform/app-manager/scheduler.js:141 | Reducing by the comparison yields the first lexicographic maximum |
| Scheduling.ChooseWatcher | platform/app-manager/scheduler.js:160-166 | A candidate other than the executor, absent iff there is none |
| Scheduling.Filter | platform/app-manager/scheduler.js:134-135 | Keeps exactly the gateways above both thresholds, in order |
| Scheduling.AvailableGateways | platform/app-manager/scheduler.js:113-131 | Each gateway of the link graph with its usage and, when ids and addresses do not repeat, the number of required devices it hosts |
| Lighting.CommandsAreCarriedOutInOrder | platform/device-manager/handlers/leviton-lighting-handler/leviton-lighting-handler.js:39-140 | For each light accepted commands are those finished, then the one in flight, then those pending; at most one is in flight, exactly while the lock is taken; a free lock means non-empty pending lists; only supported commands are sent: all this holds after a run iff no command in flight has been rejected |
| Lighting.DispatchedCommandsAreKept | platform/device-manager/handlers/leviton-lighting-handler/leviton-lighting-handler.js:39-140 | For each light, the supported commands that the events dispatched are those finished, then the one in flight, then those pending, as long as none in flight is rejected |
| Lighting.FreeLockSendsHead | platform/device-manager/handlers/leviton-lighting-handler/leviton-lighting-handler.js:99-106 | A free lock and a pending list make an advertisement send the head of the list |
| Lighting.CanServe | platform/device-manager/handlers/leviton-lighting-handler/leviton-lighting-handler.js:83-140 | Every run without rejections can be continued until all commands dispatched to a light are finished |
| Lighting.RejectionStopsTheHandler | platform/device-manager/handlers/leviton-lighting-handler/leviton-lighting-handler.js:99-139 | After a rejected BLE step no command is ever sent or finished again |
| Lighting.IsValidData | platform/device-manager/handlers/leviton-lighting-handler/leviton-lighting-handler.js:57-81 | Accepts exactly on, off and the five brightness levels |
| Lighting.LightingHandler.constructor | platform/device-manager/handlers/leviton-lighting-handler/leviton-lighting-handler.js:18-26 | Starts idle |
| Lighting.LightingHandler.OnDispatch | platform/device-manager/handlers/leviton-lighting-handler/leviton-lighting-handler.js:39-55 | Queues a valid request, ignores others |
| Lighting.LightingHandler.HandlePeripheral | platform/device-manager/handlers/leviton-lighting-handler/leviton-lighting-handler.js:83-107 | Registers the light once and takes its next command iff the lock is free |
| Lighting.LightingHandler.OnDisconnected | platform/device-manager/handlers/leviton-lighting-handler/leviton-lighting-handler.js:127-139 | Finishes the command, drops an empty list and frees the lock |

## Left out

- MQTT, HTTP, IPC and BLE calls, files, processes and deployment: their requests and completions are recorded values and events.
- The cron library, time zones, daylight saving and the system clock: schedules are abstract and time is in whole seconds.
- `PrivacyPolicy.update` (platform/sensor-stream-manager/policy.js:226-295) copies the posted JSON into dictionaries; policies enter the model in that form, a missing part as an empty map.
- Empty strings as gateway ip or sensor id in a policy, which make `_updateRule` throw.
- Several topics and requesters in one failover run: `Failover` follows one stream request, and requests of others appear as traffic that cannot interfere; a second request for the same topic is not modelled.
- Gateways that come back after a crash, and requests that overtake each other on the way to one gateway.
- Line 44 inside whole failover runs: the protocol uses deregistration without it; what it does to a recovery is stated by the Literal lemmas.
- Link graphs that change while they are collected.
- Requests to a live gateway that get lost: in `Failover` each is handled some time, also when the requester has given up on its reply; the source does not retry a request that fails. Nor does the model lose heartbeats of live gateways.
- The order of reply and handling: the API server answers a registration as soon as it has passed it on, and the model has status 200 follow the handling.
- Heartbeat intervals whose handle was overwritten: `Failover` counts them, and lets only the stored interval send heartbeats.
- Number parsing of strings: an arbitrary partial function.
- Random choice of the watcher: any candidate other than the executor.
- What rescheduling an app does at other gateways, and requests to reschedule that fail.
- Byte-level packet parsers, command byte sequences of lights, AES advertisement names, database files, web views and example apps: fixed tables and wrappers that would only add easy members.
