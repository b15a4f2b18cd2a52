# Norma in Dafny

Norma drives a Sonic network through a scenario: it starts, stops, kills and heals client
processes, generates load, follows the client's logs and the event DAG, and keeps books of
validator ids and stakes. This project models the parts of Norma that hold invariants over
whole runs and proves those invariants for every input, schedule and interleaving.

`dafny verify dfyconfig.toml` checks everything.

| module | models |
|---|---|
| `NodeRecord`, `NodeLifecycle`, `NodeSafety`, `NodeHeals`, `NodeSignals`, `NodeTruth`, `NodeExits`, `NodeActions` | the lifecycle of a node: the lock-protected record as an object, the actions cut into atomic steps, clients, streams and exit watchers as an environment that may act between any two steps, and the actions as methods that run those steps in order, updating the record through the object's operations |
| `MovingAverage` | the ordered series with its binary-search range query, and the incremental moving average |
| `EventDag`, `Emissions` | the one-shot count of events per creator, and the walk whose visited set persists across polls of a growing DAG |
| `Samples` | the sample set that halves itself in place |
| `LoadShaper`, `WaveIntegral`, `LoadController` | the traffic shapes as integrals, the controller that turns credit into triggers, and the self-adjusting rate |
| `LineSplitter`, `LogBroadcast` | the splitting of a byte stream into lines, and their fan-out to readers |
| `ValidatorIds`, `Stakes` | the executor's books of validator ids and of delegated stakes, against an abstract chain |
| `Inclusions`, `ImageFlights` | the deduplicating block queue and the shared image provisioning |

## What is assumed of the outside

- **Nodes.** At most one action of a node is in flight, because scenario steps run one by one.
  A process scan that succeeds counts truthfully. A client that received SIGINT exits cleanly
  unless it is also killed; every other exit leaves the data directory dirty. RPC answers only
  while a client lives. An output stream may break while its client lives on. An exec may
  report failure although the client started (`PHANTOM_START`), which is then visible to the next
  scan, or although the heal it started runs on (`LOST_HEAL`). A heal that is reported as
  successful has ended, and so has every genesis import that was reported on.
- **Series** are positioned by block numbers, whose zero value is their least element, and the
  period of a moving average is at least one. Division is left abstract, as the series is generic
  in its number type.
- **DAGs** grow by events whose parents exist, and events do not change.
- **The chain** refuses to undelegate more than there is and to hold more than the supply, which
  is below 2^64 S; transactions may fail, or take effect without their receipt being seen.
  Distinct delegator names have distinct accounts. The genesis gives out ids 1 to the number of
  its validators, later ones follow in order, and others may register validators between two steps of a scenario.
- Clocks, RPC results, failures and cancellations are arguments or nondeterministic choices, so
  that every theorem holds for all of them. Floats are real numbers.

## Where the code and its promises differ

- An exec that reports failure but has started the client is rolled back to Ready. From there, for every
  configuration, a client can be launched on a dirty directory (`DirtyLaunchIff`), and for a lone
  bootstrapping genesis validator's first start a second client can run without doublesign protection
  (`SecondUnprotectedIff`); after any other outcome of the exec neither can happen. That two clients
  never share a directory holds even then.
- A heal whose exec loses its output is reported as failed although it runs on, and the process scan looks for
  clients only. The retried heal then runs beside it, and after that a client
  (`LostHealDefeatsExclusion`). Both remain possible exactly as long as a lost heal runs
  (`ClientBesideHealIff`, `TwoHealsIff`); without one, heals run alone.
- A SIGINT scan that fails rolls the node back to Running. If the client's watcher has already run, into
  Stopping, where it is ignored, nobody is left to report the client's end, whether it is over
  (`FailedInterruptCanHideACrash`) or still to come; otherwise the recorded state stays backed
  (`FailedInterruptIsBackedIff`).
- The unexpected-exit flag is meant for a client that exited without being asked to. It is also raised for a live
  client whose output stream broke (`BrokenStreamRaisesTheFlag`) and for one that exits after a SIGINT
  that was delivered but reported as failed (`UnreportedInterruptRaisesTheFlag`), and wrongly in
  no other case (`RaisedFlagIsRightIff`).
- `StopSonicd` promises to report success only once the process has exited. It sees the end of the output
  stream, which may break while the client lives (`BrokenStreamEndsAStopEarly`). While no stream breaks
  during the wait, success means that the client is gone if and only if its stream had not already
  ended before it when the wait began (`StopSuccessIsRealIff`).
- The table of states says that a failed action other than `ForceStopSonicd` returns to where it started. A failed
  action ends elsewhere if and only if it is a stop that signalled, which ends in Killed or stays in
  Stopping, or a wait for sync during which the client's exit was reported (`EndsElsewhere` of
  `Perform`). The arrow from Stopping to Killed is the only one any run takes that the table does not
  have (`RunsFollowTheTableIff`). The comments of the methods say so. The comment of `forceSetState`
  rules out its use in actions, yet the roll-backs use it; they only overwrite the state their own
  action claimed.
- The emission observer promises to read every event exactly once; it is at most once. A failed read drops what
  is still pending. A dropped event is visited by a later walk that succeeds if and only if it is one
  of its heads or reached from them through unvisited events only (`FreshIff`): polling the same heads
  does not bring it back, a new child of it does (`FailedReadLosesSibling`). The comment of the observer
  speaks of the heads of the previous epoch too, its code asks for the current one only.
- A bounded log reader promises to drain what is buffered before it reports the end. It leaves lines behind
  if and only if one was offered between its two selects (`GivesUp`, `DeadlineCanPreemptALine`).
- `weiToStake` is documented to round down. A stake of 2^64 S or more reads as nothing, which an expected stake
  of zero then agrees with; for everything below, a verification reports any shortfall and any excess of
  one S or more (`DifferencesAreSeen`).
- A slope is non-negative except for a constant negative frequency, which the configuration check
  excludes (`SlopeIsNonNegativeIff`).

## Model

| member | source | states |
|---|---|---|
| NodeActions.Node.RecordStep | driver/node/opera.go:786-856 | the operations under the state lock, taken in the order of the actions, roll-backs included, make exactly the record change of every step |
| NodeRecord.ClaimExcludes | driver/node/opera.go:782-788 | of two claims of one transition the second fails and changes nothing |
| NodeRecord.StartRetiresEarlierOnes | driver/node/opera.go:821-847 | once a start has begun, watchers and handles of earlier starts no longer change the record |
| NodeRecord.OperaNode.RecordUnexpectedClientExit | driver/node/node_actions.go:351-365 | Killed and flagged exactly if the generation is current and the state claims a client |
| NodeSignals.SignalsReachEveryClient | driver/node/node_actions.go:470-485 | wherever SIGINT or SIGKILL is sent, every client that is alive receives it and is otherwise as before, and clients that are gone are as before; a failing one did all of this or nothing |
| NodeSafety.SignalReachesTheLatest | driver/node/node_actions.go:475-485 | in every run a signal reaches the latest client if that is alive, and otherwise nobody |
| NodeSafety.OneClientPerDataDirectory | driver/node/node_actions.go:225-262 | in every run at most one client is alive, and none while HealSonicd waits for its heal |
| NodeHeals.HealRunsAlone | driver/node/node_actions.go:440-468 | in every run in which no heal is lost, a heal runs beside no client and no other heal |
| NodeHeals.ClientBesideHealIff | driver/node/node_actions.go:447-467 | from the end of any heal, a client can later run beside a heal, without another lost one, if and only if this heal is lost or an earlier lost one still runs |
| NodeHeals.TwoHealsIff | driver/node/node_actions.go:447-467 | and two heals beside each other in the same cases |
| NodeHeals.LostHealDefeatsExclusion | driver/docker/docker.go:569-606 | every node can get there: a lost heal, its retry, and a client beside the lost heal |
| NodeSafety.SoundStep | driver/node/node_actions.go:91-468 | every step of every action and of the environment, but an exec that fails after starting the client, keeps the invariant on states, generations, directory, handle and protection |
| NodeSafety.LaunchOnlyAfterHeal | driver/node/node_actions.go:225-468 | between an unclean exit and any later launch a heal has completed |
| NodeSafety.AtMostOneUnprotectedClient | driver/node/node_actions.go:187-208 | over a node's life only the first client of a lone bootstrapping genesis validator runs unprotected |
| NodeSafety.DirtyLaunchIff | driver/node/node_actions.go:255-261 | from the exec of a start, a client can later be launched on a dirty directory, without another such exec, if and only if this one started the client and reported a failure |
| NodeSafety.SecondUnprotectedIff | driver/node/node_actions.go:238-261 | and a second unprotected client can come if and only if, besides, the node bootstraps the network alone and has no client recorded |
| NodeSafety.PhantomStartDefeatsBoth | driver/node/node_actions.go:255-261 | every node can get there: its first start may end that way, and then in a dirty launch, and for a lone bootstrapping validator in a second unprotected client |
| NodeTruth.RunsFollowTheTableIff | driver/node/node_state.go:25-35 | a step of any run takes an arrow that the documented table does not have if and only if it is a graceful stop that finds no client |
| NodeActions.Perform | driver/node/node_state.go:33-35 | a failed action ends in another state than it started from if and only if it is a stop that signalled, a wait during which the client's exit was reported, or a kill |
| NodeTruth.RecordedStateIsBacked | driver/node/node_actions.go:333-365 | in every run in which no SIGINT fails after the client's watcher has run, Syncing or Running outside a start means the current client is alive or its watcher pending |
| NodeTruth.FailedInterruptIsBackedIff | driver/node/node_actions.go:392-396 | whenever a run comes to a failed SIGINT, all continuations stay backed if and only if the watcher has not yet run |
| NodeTruth.FailedInterruptCanHideACrash | driver/node/node_actions.go:392-396 | a run that ends Running with a dead client and no pending watcher |
| NodeExits.OnlyTheCurrentWatcherActs | driver/node/node_actions.go:333-365 | in every run a watcher of an older client never changes the record |
| NodeExits.FlagMeansUnaskedExit | driver/node/node_actions.go:367-374 | in every run in which no watcher reports a client that is alive or was sent SIGINT, the flag means that the current client exited unasked |
| NodeExits.RaisedFlagIsRightIff | driver/node/node_actions.go:351-365 | whenever in any run a watcher raises the flag, it is right if and only if the client is gone and was not sent SIGINT |
| NodeExits.MisjudgedOnlyIfConfused | driver/node/node_actions.go:333-365 | no watcher misjudges in runs without a broken stream and without a delivered SIGINT reported as failed |
| NodeExits.MisjudgementIsToComeIff | driver/node/node_actions.go:333-365 | at any point of any run a watcher can still misjudge, without another such step, if and only if the node runs its latest client, that client's watcher has not run, and its stream ended before it or it was sent SIGINT |
| NodeExits.ConfusingIsDoubtfulIff | driver/node/node_actions.go:351-365 | such a step brings this about if and only if the node runs that client and its watcher has not run |
| NodeExits.BrokenStreamRaisesTheFlag | driver/node/node_actions.go:333-365 | a run that ends Killed and flagged with the client alive |
| NodeExits.UnreportedInterruptRaisesTheFlag | driver/node/node_actions.go:392-396 | a run that ends Killed and flagged after a clean exit that was asked for |
| NodeTruth.BrokenStreamEndsAStopEarly | driver/node/node_actions.go:380-411 | a run in which a stop succeeds beside a live client |
| NodeTruth.StopSuccessIsRealIff | driver/node/node_actions.go:380-434 | whenever any run waits for the client to exit, the end it may see while no stream breaks is the client's exit if and only if the stream had not ended before the client |
| NodeActions.Node.Initialize | driver/node/node_actions.go:91-149 | ends Ready, or Uninitialized as before |
| NodeActions.Node.StartSonicd | driver/node/node_actions.go:225-270 | succeeds if and only if the node is Ready, the scan finds no client, the configuration is written and the client starts: one new client of this generation, in the role asked for, attached and watched, unprotected exactly if it is the first of a lone bootstrapping genesis validator; failure: Ready, and no client more unless the exec started one and reported a failure |
| NodeActions.Node.WaitForSync | driver/node/node_actions.go:276-305 | succeeds if and only if the node is Syncing, a live client answers and its exit is not reported meanwhile: Running; failure: Killed if the exit was reported, else Syncing |
| NodeActions.Node.StopSonicd | driver/node/node_actions.go:386-411 | SIGINT is sent to every live client; Running if signalling failed; Killed exactly if no client was alive there; else Ready if the exit was seen and Stopping if not; after success no client is alive unless its stream broke, and the directory is clean unless an exec started a client and reported a failure |
| NodeActions.Node.ForceStopSonicd | driver/node/node_actions.go:417-434 | SIGKILL is sent to every live client; Killed on every path; succeeds if and only if it was sent and the exit was seen, after which no client is alive unless its stream broke |
| NodeActions.Node.HealSonicd | driver/node/node_actions.go:440-468 | succeeds if and only if the node is Killed, the scan finds no client and the heal succeeds: Ready, clean, no client alive, and no heal running unless one was lost; failure: Killed |
| NodeActions.Execute | driver/executor/run.go:144-195 | every sequence of actions, with any interference, is a run with one client at most; unless an exec started a client and failed, Ready implies a clean directory and only the first client is unprotected; unless a heal was lost, heals run alone |
| MovingAverage.SyncedSeries.Search | driver/monitoring/synced_series.go:41-59 | the binary search finds the first position at or after the key |
| MovingAverage.SyncedSeries.GetRange | driver/monitoring/synced_series.go:41-59 | exactly the points positioned in [from, to), in order |
| MovingAverage.SyncedSeries.GetLatest | driver/monitoring/synced_series.go:62-70 | the last point, none for an empty series |
| MovingAverage.SyncedSeries.Append | driver/monitoring/synced_series.go:74-82 | appended if and only if positioned after the last point; the series stays ordered |
| MovingAverage.SmaSeries.Calculate | driver/monitoring/sma_series.go:50-87 | the output is the plain average of the window of every input index up to the latest point read, wherever the computation resumed and whatever is appended between its two reads of the input |
| MovingAverage.SmaSeries.GetRange | driver/monitoring/sma_series.go:90-93 | the range query over those averages |
| MovingAverage.SmaSeries.GetLatest | driver/monitoring/sma_series.go:96-99 | the average of the last window |
| MovingAverage.AverageIsMean | driver/monitoring/sma_series.go:74-78 | with exact division the plain average is the sum of the last min(j+1, period) values over their number |
| MovingAverage.ResumePoints | driver/monitoring/sma_series.go:50-60 | the resumed query returns exactly the points from the base of the window on |
| MovingAverage.EmissionGuard | driver/monitoring/sma_series.go:71-86 | the guard lets a point through exactly if it is new, or a lone point at position zero |
| MovingAverage.RunSchedule | driver/monitoring/sma_series.go:50-99 | every read of every interleaving with appends, also within a read, sees the plain moving average of what was fed before |
| EventDag.CountEventsFromHeads | driver/checking/event_throttled.go:366-405 | terminates; no event fetched twice; fetched are exactly the reachable ones and counted per creator; fails only at an unreadable reachable one, or when cancelled |
| EventDag.ReachableExists | driver/checking/event_throttled.go:311-319 | from the childless events of a grown DAG exactly its events are reachable |
| EventDag.SnapshotCounts | driver/checking/event_throttled.go:323-361 | a snapshot counts all events of the DAG per creator |
| EventDag.LaterSnapshotDominates | driver/checking/event_throttled.go:301-308 | a later snapshot has every creator of an earlier one with at least its count |
| EventDag.RatesAreNonNegative | driver/checking/event_throttled.go:257-309 | rates are non-negative and are the events added over the elapsed time |
| EventDag.SampleEmissionRates | driver/checking/event_throttled.go:257-309 | unless cancelled, there are rates if and only if both snapshots have heads and readable events, are of one epoch, and the second is later; they are the events each validator added per second, never negative |
| EventDag.VerifyThrottled | driver/checking/event_throttled.go:427-482 | for non-negative rates: succeeds if and only if there are listed and unlisted validators and every unlisted one emits, at least twice as fast as every listed one |
| EventDag.CheckThrottled | driver/checking/event_throttled.go:122-154 | one attempt of the check has such rates in these cases and passes if and only if the verdict holds of them |
| Emissions.EmissionObserver.Walk | driver/monitoring/transactions/emissions.go:123-160 | from any state: only fresh events are visited, each read once; of those that can be read, each is counted and every transaction marked at the event's creation time, and nothing else is; unless cancelled it succeeds if and only if no fresh event is unreadable, and has then visited all of them |
| Emissions.EmissionObserver.Poll | driver/monitoring/transactions/emissions.go:107-120 | if nothing was missing and it is not cancelled, it succeeds if and only if every unreadable event below the heads had been visited before, and then nothing is missing in the grown DAG |
| Emissions.PollAll | driver/monitoring/transactions/emissions.go:61-99 | over any number of polls of a growing DAG each event is read at most once; if all walks complete, everything below all heads seen is visited and marked |
| Emissions.BelowMeansReachable | driver/monitoring/transactions/emissions.go:37-43 | complete means visited are exactly the reachable events |
| Emissions.GrowthKeepsReachable | driver/monitoring/transactions/emissions.go:37-43 | growth adds nothing below events that were there |
| Emissions.FreshIff | driver/monitoring/transactions/emissions.go:129-158 | an unvisited event is fresh if and only if it is a head or a parent of a fresh event |
| Emissions.FreshWhereClosed | driver/monitoring/transactions/emissions.go:129-158 | where nothing was missed, fresh is what is below the heads and unvisited |
| Emissions.FailedReadLosesSibling | driver/monitoring/transactions/emissions.go:141-147 | a walk that drops an event: no walk from visited heads finds it, one from a new child of it does |
| Samples.SampleSet.Add | driver/monitoring/transactions/samples.go:43-67 | the stride is a power of two, the retained are seen/stride and below the bound, one from each full window of offers, the first offer among them |
| Samples.SampleSet.Compact | driver/monitoring/transactions/samples.go:59-65 | in the same array, every second sample is kept in order |
| Samples.EverySecondWindow | driver/monitoring/transactions/samples.go:57-66 | every second of one-per-window is one per window of the doubled stride |
| Samples.RetainedAreSpread | driver/monitoring/transactions/samples.go:30-33 | every offer covered by a full window has a retained one in its window |
| Samples.RetainedAreOrdered | driver/monitoring/transactions/samples.go:57-58 | the retained samples are distinct offers in offer order |
| LoadShaper.ConstantCountIs | load/shaper/constant.go:37-39 | frequency times seconds, nothing for a negative frequency |
| LoadShaper.ConstantIsAdditive | load/shaper/constant.go:37-39 | counts add up over adjacent intervals and are not negative |
| LoadShaper.SlopeIsAdditive | load/shaper/slope.go:46-86 | counts add up over adjacent intervals, wherever the zero point lies |
| LoadShaper.SlopeIsNonNegativeIff | load/shaper/slope.go:68-85 | not negative except for a constant negative frequency over a real interval |
| LoadShaper.CheckedSlopeIsNonNegative | driver/parser/rate.go:95-103 | every slope its check accepts has non-negative counts |
| LoadShaper.Trapezoid | load/shaper/slope.go:73-85 | the clamped formula is the trapezoid under the clamped frequency |
| LoadShaper.IntegralIsUnique | load/shaper/slope.go:47-62 | a frequency of bounded slope has at most one additive count between its bounds |
| LoadShaper.SlopeIsTheIntegral | load/shaper/slope.go:47-85 | the slope count is that one: the integral of the frequency cut off at zero |
| LoadShaper.WaveIsNonNegative | load/shaper/wave.go:49-68 | every wave its check accepts has non-negative counts, for any sine that changes no faster than its argument |
| LoadShaper.TangentShapesAgree | load/shaper/slope.go:47-62 | additive counts that differ to second order only are equal |
| WaveIntegral.WaveFollows | load/shaper/wave.go:58-64 | to first order the wave's count over an interval is its documented frequency times the width |
| WaveIntegral.WaveIsTheIntegral | load/shaper/wave.go:58-67 | it is the only additive count that does: the integral of that frequency |
| LoadController.AppController.Tick | load/controller/controller.go:107-115 | credit plus triggers is conserved, credit ends at most zero and above -1 if anything was sent; terminates |
| LoadController.AppController.Run | load/controller/controller.go:102-129 | for any shape: the triggers are the greatest credit ever granted, rounded up; the trigger channel is closed once at the end |
| LoadController.RunOnSchedule | load/controller/controller.go:102-115 | for additive non-negative shapes: exactly the rounded-up total since the start, whatever the wake-up times, credit in (-1, 0] |
| LoadController.RunSlope | load/shaper/slope.go:46-86 | the same for every accepted slope |
| LoadController.RunConstant | load/shaper/constant.go:37-39 | the same for every constant: frequency times seconds, rounded up |
| LoadController.RunWave | load/shaper/wave.go:49-68 | the same for every accepted wave |
| LoadController.AutoShaper.GetNumMessagesInInterval | load/shaper/auto.go:49-73 | adjusted if and only if a second has passed, by the documented rule; the rate stays between zero and increase times the number of adjustments; the count is not negative |
| LoadController.AdjustmentKeepsBounds | driver/parser/rate.go:133-148 | for all accepted parameters and any gap an adjustment keeps the rate non-negative and adds at most the increase |
| LineSplitter.NothingIsLost | driver/docker/logs.go:208-230 | lines and rest concatenate to the stream |
| LineSplitter.LinesAreWhole | driver/docker/logs.go:208-230 | every line has its only newline at the end, the rest has none |
| LineSplitter.DecompositionIsUnique | driver/docker/logs.go:208-230 | there is no other such decomposition |
| LineSplitter.SplitResumes | driver/docker/logs.go:217-230 | splitting resumed from the rest gives the same lines |
| LineSplitter.Splitter.Write | driver/docker/logs.go:217-230 | emitted and buffered depend on the bytes written alone and are together those bytes; new lines are whole |
| LineSplitter.Splitter.Flush | driver/docker/logs.go:234-242 | the tail is emitted if there is one; nothing is buffered |
| LineSplitter.SplitChunks | driver/docker/logs.go:212-242 | any chunking of a stream emits the same lines, which concatenate to the stream |
| LogBroadcast.LogBroadcaster.Publish | driver/docker/logs.go:65-81 | the replay is the last min(150, n) lines published; for exactly the subscribers the line is queued behind the others if fewer than 8192 are, and otherwise dropped and counted; nothing after close |
| LogBroadcast.LogBroadcaster.Close | driver/docker/logs.go:85-96 | each subscriber's channel is closed, once; later calls change nothing |
| LogBroadcast.LogBroadcaster.Subscribe | driver/docker/logs.go:105-124 | the whole replay is queued, none of it dropped; subscribed unless closed |
| LogBroadcast.LogBroadcaster.Unsubscribe | driver/docker/logs.go:191-197 | no longer offered anything; only the first call has an effect |
| LogBroadcast.LogBroadcaster.FinishClose | driver/docker/logs.go:203-205 | the done channel is closed, once |
| LogBroadcast.LogBroadcaster.Poll | driver/docker/logs.go:156-167 | takes a buffered line if there is one; end of stream only after everything accepted was delivered |
| LogBroadcast.LogBroadcaster.Await | driver/docker/logs.go:169-183 | a ready line is received; end by close only after everything accepted was delivered; giving up needs a deadline or a Close, comes after everything accepted at the last poll, and for non-empty lines misses nothing if and only if none was offered since |
| LogBroadcast.LogBroadcaster.Copy | driver/docker/logs.go:185-188 | as much of the pending line as fits, in order |
| LogBroadcast.WhatASubscriberSees | driver/docker/logs.go:98-149 | offered are the replay and the lines published while subscribed; accepted an in-order subsequence; accepted + dropped = offered; delivered a prefix of the accepted bytes |
| LogBroadcast.GivesUp | driver/docker/logs.go:151-183 | for non-empty lines, a waiting reader has everything if and only if no line was offered since its last poll |
| LogBroadcast.Interleave | driver/docker/logs.go:65-206 | every interleaving keeps all of this, and no channel is closed twice or sent to after closing |
| LogBroadcast.DeadlineCanPreemptALine | driver/docker/logs.go:151-183 | a bounded reader that ends with a line buffered |
| ValidatorIds.DecimalIsRead | driver/executor/run.go:439-444 | reading a printed instance number gives it back, so printing is injective |
| ValidatorIds.AtoiIff | driver/executor/run.go:609-612 | a suffix parses if and only if it is an optional sign and digits of a value that fits 64 bits |
| ValidatorIds.LabelsAreDistinct | driver/executor/run.go:439-444 | one instance has the bare name, more have numbered names, and no two share a label |
| ValidatorIds.StopReachesEveryInstance | driver/executor/run.go:602-616 | a stop by name matches every label a start by that name makes |
| ValidatorIds.SuffixIsStoppedIff | driver/executor/run.go:605-615 | of the names that begin with the base and a dash, a stop matches exactly those with a numeral behind it |
| ValidatorIds.ExtractGenesisIds | driver/norma/run.go:321-330 | exactly the labels of the first step, label j with id j+1 |
| ValidatorIds.ChooseIds | driver/executor/run.go:428-472 | recorded labels keep their ids, the others are registered in order with consecutive ids, none on a rejoin; the outcome shares no id although it is recorded later; succeeds if and only if every label is recorded or can be registered |
| ValidatorIds.MissingMembers | driver/executor/run.go:451-470 | the labels to register are exactly those of the step that have no recorded id |
| ValidatorIds.RegisterOnce | driver/executor/run.go:451-470 | registering an unrecorded label keeps every label registered at most once and no genesis label |
| ValidatorIds.NextIsUnshared | driver/network/validator.go:33-38 | the id after the last one is shared with no recorded label |
| ValidatorIds.Scenario.StartNode | driver/executor/run.go:381-541 | recorded ids are never changed; registered are exactly the missing labels; nothing on a rejoin, a restart in place or for observers; validators run with the ids of their labels, observers without, other nodes as before; succeeds if and only if every label has or gets an id, the nodes are created, and those that must become active do |
| ValidatorIds.Scenario.FirstStart | driver/executor/run.go:428-472 | the first step registers nothing and instance i runs with id i+1 |
| ValidatorIds.Scenario.StopNode | driver/executor/run.go:588-648 | removed are exactly the node of that name and those with a dash and a numeral behind it; ids are preserved; an error exactly if there is none or stopping fails |
| ValidatorIds.HasMultipleInstances | driver/executor/run.go:811-827 | true exactly if two distinct nodes carry the prefix |
| ValidatorIds.Scenario.ResolveValidatorId | driver/executor/run.go:788-807 | an id exactly if the name means one validator, and then the recorded one |
| ValidatorIds.RunScenario | driver/executor/run.go:124-199 | in every run, at any two moments the later books keep every id of the earlier; the first step registers nothing; after success ids are unshared and no label is registered twice or although in the genesis |
| Stakes.WeiRoundTrip | driver/network/validator.go:135-137 | converting to wei and back is exact for every stake |
| Stakes.ReadsAs | driver/network/delegation.go:219-228 | a positive stake is read if and only if the chain holds at least it and less than one more |
| Stakes.DelegationIsBooked | driver/executor/run.go:747-747 | an accepted delegation books exactly what the chain then holds, without wrap-around |
| Stakes.UndelegationIsBooked | driver/network/delegation.go:115-129 | an accepted undelegation is of a tracked pair, of at most what is booked, and leaves what is booked after it |
| Stakes.Executor.Delegate | driver/executor/run.go:722-748 | succeeds if and only if the validator is known, the stake positive and funded, within the supply, and the transaction done; book and chain then grow by the stake of that pair only, and agree |
| Stakes.Executor.Undelegate | driver/executor/run.go:660-709 | succeeds if and only if the chain holds what is asked for, of a known delegator or of the validator itself; the pair loses the asked amount, or all of it, and book and chain agree |
| Stakes.Executor.UndelegateAs | driver/executor/run.go:680-708 | the same with the effect on the chain |
| Stakes.Executor.Unregister | driver/network/validator.go:81-132 | the validator's own stake is reduced by what is asked for, or all of it, if it holds that; it is no tracked pair's |
| Stakes.DifferencesAreSeen | driver/network/delegation.go:219-228 | below 2^64 S a chain stake agrees with an expected one if and only if it is that stake or more by less than one S |
| Stakes.Executor.VerifyStakes | driver/executor/run.go:755-784 | a tracked pair is not reported if and only if its delegator is known, it can be queried, and the wei on chain are the expected stake or more by less than one S, or overflow to an expected zero; while book and chain agree only unreachable pairs are reported |
| Stakes.RunSteps | driver/executor/run.go:654-784 | after every successful sequence book and chain agree, and verifications on the way report only pairs that could not be queried |
| Inclusions.InclusionObserver.Announce | driver/monitoring/transactions/inclusions.go:77-84 | only the first announcement of a height goes on |
| Inclusions.InclusionObserver.Offer | driver/monitoring/transactions/inclusions.go:86-89 | queued, or dropped if and only if 1024 blocks are queued |
| Inclusions.InclusionObserver.CountDropped | driver/monitoring/transactions/inclusions.go:88-92 | the missed counter is the number of heights given up |
| Inclusions.InclusionObserver.Take | driver/monitoring/transactions/inclusions.go:111-111 | blocks are read in the order queued |
| Inclusions.InclusionObserver.Handle | driver/monitoring/transactions/inclusions.go:112-139 | marked if and only if a client was had and an attempt succeeded, otherwise counted as missed and the client dropped |
| Inclusions.ReadBlock | driver/monitoring/transactions/inclusions.go:170-188 | succeeds if and only if one of the three attempts not cancelled does |
| Inclusions.MarkedOnce | driver/monitoring/transactions/inclusions.go:77-142 | no height is marked twice, or marked and also missed or queued |
| Inclusions.HeightsAddUp | driver/monitoring/transactions/inclusions.go:77-142 | distinct heights = under way + queued + being read + marked + missed |
| Inclusions.Interleave | driver/monitoring/transactions/inclusions.go:77-142 | both in every interleaving |
| ImageFlights.ImageProvisioner.Begin | driver/node/opera.go:161-175 | joins the flight in progress, or starts a new one exactly if there is none; never joins one that is over |
| ImageFlights.ImageProvisioner.Complete | driver/node/opera.go:179-185 | the flight ends with the result, its channel closed once, the image free for a new flight |
| ImageFlights.ImageProvisioner.Wake | driver/node/opera.go:165-170 | a waiter wakes exactly if its flight is over, with the flight's result |
| ImageFlights.OneProvisioningPerImage | driver/node/opera.go:147-154 | at most one provisioning per image is in progress |
| ImageFlights.WaitersAreServed | driver/node/opera.go:156-160 | the flight of a waiter is over or its owner is at work |
| ImageFlights.ReturnsItsFlight | driver/node/opera.go:156-160 | a call that did not give up returned the result of its flight |
| ImageFlights.Interleave | driver/node/opera.go:161-186 | both in every interleaving of any number of callers |

## Left out

- NodeExits.FlagMeansUnaskedExit: holds in runs in which no watcher misjudges; when one does is said by RaisedFlagIsRightIff.
- NodeSafety.LaunchOnlyAfterHeal: excludes runs with an exec that started its client and reported a failure; what follows such an exec is said by DirtyLaunchIff and SecondUnprotectedIff.
- LoadShaper.WaveIsNonNegative: sine, cosine and pi are any functions and number with the stated properties, here and in WaveIntegral.
- LoadController.AppController.Run: the trigger channel never blocks, and the generators reading it are not part of this model.
- ValidatorIds.Scenario.StartNode: ids are unbounded integers, and whether CreateNode accepts a label that is already running is left to the network.
- Stakes.Executor.Delegate: the balance of the delegator's account and the gas it pays are not modelled; a funding that fails is.
- LogBroadcast.LogBroadcaster.Publish: the offers to all subscribers are one step, which is no restriction because each touches another subscriber's queue only.
- EventDag.CheckThrottled: one attempt; the retries of the checker, the dialling and the names of validators are not part of this model.
- Concurrent calculations of one moving average, which has no lock of its own.
- Fully concurrent actions on one node, and stopping or removing its container.
- The order of samples by time, and the cache of network rules: both are library sorting or a plain map.
- Real time, timeouts and context deadlines beyond a nondeterministic giving up; rounding of floats.
- Docker, RPC, contract bindings, keys, YAML, genesis files, reports, the other checkers and the load applications: calls into other systems or simpler loops.
