# Verified model of the Celestia workflow engine

Dafny modules that model the workflow engine of the Celestia gateway, and five smaller protocols beside it, and prove
what these parts promise. `dafny verify dfyconfig.toml` checks everything. Sources are cited by path and line in the
repository.

**The graph executor** (`WorkflowModel`, `NodeRules`, `ExecutorSpec`, `ExecutorInvariant`, `Executor`). A workflow is
an arbitrary directed graph of typed nodes, with cycles, dangling edges and repeated handles allowed. `Executor` is the
class with the maps `cache`, `active` and `results`; each of its methods is proved equal to a function on states in
`ExecutorSpec`. The outside world (LLM, search, feeds, weather, WeCom, devices, agent, clock) is an arbitrary function
from the number of calls so far, the node and the call to a reply, and every call is logged with its reply.
`ExecutorInvariant` holds in every state any sequence of evaluations reaches, whatever the world answers. On it rest

- `Wiring`: on which nodes a node depends, over the edges, the handles of its type and the triggers alone;
- `Behaviour` and `NodeTypes`: what executing a node of each type does, over the values of its sources;
- `Semantics` and `Cones`: the memoised evaluator equals the recursion without cache, cycle check or state, and a node
  has a value there if and only if its dependency cone has no cycle, no missing node and no node that fails by itself;
- `Suppression` and `TimerBlocks`: what a closed time window suppresses, and where each blocking mark comes from;
- `Gating`: what must be live before a feed is polled, a command run or the agent called;
- `Runs` and `RunRecords`: targets, status, errors and results, at-most-once delivery, and which nodes a triggered run may
  touch;
- `TriggerScope`: the breadth-first search that builds the trigger scopes computes exactly reachability.

**The timer scheduler** (`TimeSchedule`, `WindowGate`, `KeyedStates`, `Scheduler`, `DailyRuns`, `TimerService`).
`TimeSchedule` has the slot arithmetic, on instants in nanoseconds and zones of fixed offset, and what it means in real
time. `Scheduler` is a state machine of ticks, saves that succeed, fail or fail after writing, stops while enqueueing,
restarts, run appends and definition saves.
`TimerService` holds the loops of the Go code and the class that performs these steps on lists of timer states.
`DailyRuns` says exactly which jobs a daily timer gets over any run. `ScheduleExample` has one concrete schedule that
meets the hypotheses of the main theorem, and two concrete runs in which a day gets two jobs.

**Run history and RSS source states** (`SourceStates`): overlapping runs, each a snapshot and later an atomic append.

**Beside the engine**: paging through the vision history (`History`), the vision websocket protocol (`Socket`,
`SocketAccount`), vision rule ids and rule state (`RuleState`), the early-stopping search loop (`Search`) and CDATA
replies (`Cdata`).
`Graphs`, `Lists`, `Text` and `Outcomes` are shared.

Three properties one might expect do not hold of the code. Each is proved together with the exact condition:

- A daily timer can get two jobs for one day. The code compares the minute of the last firing, not the day
  (`TimeSchedule.DailyMatchesIffOtherMinute`), so it happens when the clock goes back past midnight
  (`ScheduleExample.ClockBackFiresTwice`) and, with a clock that only goes forward, when the time of the timer is edited
  to a later minute of a day on which it already fired (`ScheduleExample.EditedTimerFiresTwice`). Over every run, with
  any clock, saves, stops, restarts and edits, its jobs are exactly the passing ticks that open a new minute
  (`DailyRuns.JobsAreNewMinutes`), so a day gets two jobs if and only if two such ticks fall on it
  (`DailyRuns.TwoJobsForOneDayIff`); when the time is not edited, if and only if the clock comes back to the day after
  the timer passed on another (`DailyRuns.FixedTimeTwoJobsIff`). With a fixed schedule and a clock that does not go
  back there is at most one (`Scheduler.AtMostOneJobPerStamp`). Interval timers need neither condition
  (`Scheduler.AtMostOneJobPerSlot`).
- Of two overlapping runs of one feed, a later append answered "not modified" can put an old body back, or none when
  the feed had no state before (`SourceStates.OverlappingRunsRestoreTheOldBody`). It leaves the stored body alone
  exactly when that is still the body of the moment its run started (`SourceStates.NotModifiedKeepsBodyIff`), and that
  fails exactly when the last append in between that polled the feed left another body (`SourceStates.BodyChangesIff`).
- Slots follow the configured number of seconds only while the 64-bit duration does not wrap
  (`TimeSchedule.HugeIntervalWraps`, exact condition in `TimeSchedule.SlotsFollowTheConfiguredInterval`).

## Model

| member | source | states |
|---|---|---|
| Executor.WorkflowExecutor.constructor | internal/core/workflow/workflow_run.go:131-159 | a new executor has empty tables, and its trigger scopes are exactly reachability in the workflow graph |
| Executor.WorkflowExecutor.Evaluate | internal/core/workflow/workflow_run.go:191-222 | terminates on every finite graph and ends in the state and outcome of the functional evaluator, so all theorems about that evaluator hold of the tables it updates |
| Executor.WorkflowExecutor.Execute | internal/core/workflow/workflow_run.go:224-255 | the checks, the collected inputs, the decision, the call and the reply of one node, in that order, as the functional evaluator has them |
| NodeTypes.StartsIff | internal/core/workflow/workflow_run.go:224-255 | a node looks at its inputs exactly if its type is supported, its data decodes and the runtime it needs is there |
| NodeTypes.GroupNode | internal/core/workflow/workflow_run.go:226-227 | a group has an empty value and makes no call |
| NodeTypes.TimerNode | internal/core/workflow/workflow_timer.go:10-47 | executing a timer gives a signal exactly in the runs it fired and fails exactly on an unreadable schedule |
| NodeTypes.StateChangedNode | internal/core/workflow/workflow_trigger_nodes.go:49-66 | a state-change trigger signals exactly if it fired and its event still matches, else it is blocked |
| NodeTypes.StateIsNode | internal/core/workflow/workflow_trigger_nodes.go:68-130 | a state condition, over the values of its sources: blocked by a window, waiting for a live gate, or one device read that signals exactly if the matcher accepts |
| NodeTypes.WindowNode | internal/core/workflow/workflow_trigger_nodes.go:132-161 | a window, over real time and the values of its sources: failed, closed, waiting for a live gate, or passing on their texts |
| NodeTypes.RssNode | internal/core/workflow/workflow_rss.go:31-96 | a feed node polls exactly if no source is blocked by a window and, with trigger edges, some source triggers; no items block |
| NodeTypes.WeatherNode | internal/core/workflow/workflow_weather.go:44-100 | a weather node asks exactly if no source is blocked by a window and, with trigger edges, some source is live |
| NodeTypes.TextNode | internal/core/workflow/workflow_run.go:257-296 | a text node is the texts of its sources and then its own, with their items; without any text it is blocked if it waits and fails otherwise |
| NodeTypes.SearchNode | internal/core/workflow/workflow_run.go:298-328 | a search node searches for its own trimmed query, whatever its edges |
| NodeTypes.LlmNode | internal/core/workflow/workflow_run.go:330-417 | a model is asked with context, search results, text blocks and user prompt, in this order, unless a window, a reserved handle or a waiting gate stops it; its items are those of context and prompts |
| NodeTypes.WeComNode | internal/core/workflow/workflow_output_nodes.go:10-64 | a WeCom output sends the texts of its sources in order to its trimmed user, and its value is what it sent |
| NodeTypes.CommandNode | internal/core/workflow/workflow_action_nodes.go:31-67 | a command runs its action on its device with the texts of its sources, unless a window or a gate that is not live stops it |
| NodeTypes.AgentNode | internal/core/workflow/workflow_action_nodes.go:69-119 | an agent gets its own input or else the prompts and texts of its sources, and an empty answer fails |
| Executor.WorkflowExecutor.CollectHandles | internal/core/workflow/workflow_run.go:335-348 | the handles of a node are collected in order and the first error ends the collection |
| Executor.WorkflowExecutor.Collect | internal/core/workflow/workflow_inputs.go:40-74 | the loop over the incoming edges of a handle: state, inputs and first error are those of the recursive fold |
| Wiring.CollectsItsEdges | internal/core/workflow/workflow_inputs.go:76-88 | strictly increasing positions in the edge list of the workflow hit exactly the edges into the node on the handle (all handles for a blank one), and these edges are collected in that order |
| Wiring.ManualDependencyIff | internal/core/workflow/workflow_inputs.go:40-49 | in a manual run a node depends on exactly the sources of its edges on the handles of its type, which are listed type by type |
| Wiring.TriggeredDependencyIff | internal/core/workflow/workflow_timer_scope.go:60-85 | in a triggered run it depends on exactly those of them that a fired trigger reaches or that are text, group or window nodes which no trigger reaches |
| Behaviour.FoldIsSummary | internal/core/workflow/workflow_inputs.go:40-74 | what a node collects on a handle is the summary of the values of exactly these sources, in the order of the edges |
| Behaviour.SummarySays | internal/core/workflow/workflow_inputs.go:50-72 | texts, prompts, searches and items are those of the sources in order, and the counters say exactly whether some source is live, triggers, or is blocked by a window or timer |
| Text.OrderedStringsSelects | internal/core/workflow/workflow_helpers.go:139-149 | joined texts are exactly those that are not blank, trimmed, in their order |
| Text.TrimSpaceCuts | internal/core/workflow/workflow_helpers.go:141-146 | trimming takes away exactly the white space before and after |
| Executor.WorkflowExecutor.RecordFailure | internal/core/workflow/workflow_run.go:429-437 | changes the result of this node and nothing else |
| Executor.WorkflowExecutor.MakeCall | internal/core/workflow/workflow_output_nodes.go:48-51 | one call is logged with its reply, and exactly the fetch and delivery errors that the reply reports are added |
| Executor.WorkflowExecutor.Targets | internal/core/workflow/workflow_run.go:161-189 | the WeCom outputs taking part in the run, or the leaves taking part when there are none |
| Executor.WorkflowExecutor.EvaluateTargets | internal/core/workflow/workflow_run.go:108-116 | evaluates the targets in turn, skips failures, and gathers the texts and items of the others in order |
| Executor.WorkflowExecutor.Run | internal/core/workflow/workflow_run.go:104-129 | the final state and the record of a whole run, or no record when there is no target |
| Executor.Status | internal/core/workflow/workflow_run_helpers.go:45-60 | the counting loop agrees with the number of failed results |
| WorkflowModel.TableHoldsEveryNode | internal/core/workflow/workflow_run.go:132-137 | with distinct ids the node table holds each node under its id |
| ExecutorInvariant.EvaluateKeeps | internal/core/workflow/workflow_run.go:191-222 | evaluating any node in any reachable state restores `active`, only extends cache and log, keeps the invariant (cache closed and well founded under dependencies, cached values and logged calls exactly those of the node rules, results faithful, deliveries counted), and an error leaves the node uncached |
| ExecutorInvariant.GatherKeeps | internal/core/workflow/workflow_inputs.go:40-74 | when collecting succeeds every dependency is cached, and the inputs are the function of those values |
| ExecutorInvariant.CollectKeeps | internal/core/workflow/workflow_inputs.go:42-74 | the same for one handle: the accumulated inputs depend on the cached values only, not on the order of evaluation |
| ExecutorInvariant.EvaluateAllKeeps | internal/core/workflow/workflow_run.go:109-116 | the invariant over all targets of a run; each successful outcome is the cached value and each target is reported |
| ExecutorInvariant.SettleKeeps | internal/core/workflow/workflow_run.go:208-221 | caching and reporting a success, or only reporting a failure, keeps the invariant |
| ExecutorInvariant.CachingKeepsCalls | internal/core/workflow/workflow_run.go:192-214 | a logged call stays justified by its cached inputs when more nodes are cached |
| ExecutorInvariant.DeliveringRules | internal/core/workflow/workflow_output_nodes.go:22-64 | a WeCom or command node finishes without a call only blocked, and with a call exactly when the call is accepted |
| ExecutorInvariant.DeliveryCounts | internal/core/workflow/workflow_action_nodes.go:58-61 | after each evaluation step the number of accepted deliveries of a node is one if it is cached unblocked, else zero |
| Semantics.MemoisedEqualsMeaning | internal/core/workflow/workflow_run.go:191-222 | when the world answers a node's call always alike, then after any earlier evaluations a node evaluates to v if and only if v is its value in the recursion without memory |
| Semantics.TargetsGetTheirMeaning | internal/core/workflow/workflow_run.go:108-116 | each target's outcome is its memo-free value, whatever the order of the targets and the failures between them |
| Semantics.CachedIsMeaning | internal/core/workflow/workflow_run.go:192-194 | each cached value is the memo-free value of its node |
| Semantics.EvaluateSucceeds | internal/core/workflow/workflow_run.go:191-222 | a node with a memo-free value evaluates successfully, also while other nodes are active |
| Semantics.MeaningIsUnique | internal/core/workflow/workflow_inputs.go:40-74 | a node has at most one memo-free value |
| Semantics.MeaningMonotone | internal/core/workflow/workflow_run.go:191-222 | the memo-free value does not depend on the depth at which the recursion is cut off |
| Cones.GroundedIff | internal/core/workflow/workflow_run.go:195-205 | the recursion on a node is well founded if and only if no cycle and no missing node can be reached from it along dependencies |
| Cones.HasMeaningIff | internal/core/workflow/workflow_run.go:195-222 | a node has a value if and only if its cone is acyclic and complete and no node in it fails by its own check, rule or call |
| Cones.SucceededNodesHaveSoundCones | internal/core/workflow/workflow_run.go:195-221 | whatever the world answers, no node that leads into a cycle or to a missing node is ever cached or reported succeeded |
| Cones.BadConeAlwaysFails | internal/core/workflow/workflow_run.go:195-205 | such a node fails and is reported failed on every evaluation, wherever the cycle is entered, and `active` is restored |
| Suppression.WindowBlockDecides | internal/core/workflow/workflow_run.go:269-274 | for every node type but the window, some collected input is blocked by window if and only if the node finishes blocked by window, without a call |
| Suppression.CachedByWindowIff | internal/core/workflow/workflow_inputs.go:59-71 | a cached node that is no window is blocked by window if and only if one of its dependencies is |
| Suppression.CachedValuesAreClean | internal/core/workflow/workflow_trigger_nodes.go:83-96 | in every reachable state a blocked value carries no text, prompt, items, search or trigger, and an unblocked one no blocking mark |
| Suppression.ClosedWindowSuppresses | internal/core/workflow/workflow_action_nodes.go:167-175 | a node behind a closed window along collected edges through non-window nodes has made no call at all, and its value, if any, is blocked by window and empty |
| Suppression.EvaluationBehindClosedWindow | internal/core/workflow/workflow_output_nodes.go:22-27 | evaluating a node behind a closed window errs or yields the blocked value, and it still has made no call afterwards |
| Suppression.BlockedByWindowHasOrigin | internal/core/workflow/workflow_inputs.go:62-70 | behind every value blocked by window there is a chain from a window that evaluated as closed |
| Suppression.BlockedByWindowIff | internal/core/workflow/workflow_inputs.go:62-70 | a cached node is blocked by window if and only if it is behind a closed window: suppression is complete and never excessive |
| Suppression.WindowClosedIff | internal/core/workflow/workflow_trigger_nodes.go:132-171 | in a run that goes by the instant of its trigger or event, a cached window was readable and is closed if and only if that instant lies in no interval from start to end of a local day, which runs into the next day when the end is not later than the start; without bounds it is never closed |
| Suppression.ClockedWindowClosedIff | internal/core/workflow/workflow_trigger_nodes.go:163-171 | in a run without such an instant the same holds of the clock read for the node |
| Suppression.WindowFailsIff | internal/core/workflow/workflow_trigger_nodes.go:348-372 | once its inputs are collected a window node fails exactly if only one bound is given, a bound is malformed or the zone is unknown |
| TimerBlocks.DecidedTimerBlocks | internal/core/workflow/workflow_rss.go:49-55 | a node decides "blocked by timer" only as a feed node with trigger edges and no trigger, or because an input carries the mark |
| TimerBlocks.TimerBlockStep | internal/core/workflow/workflow_run.go:276-281 | the mark is passed on by a dependency, or the node is a feed node waiting for its trigger |
| TimerBlocks.WaitingFeedsAreNotPolled | internal/core/workflow/workflow_rss.go:36-71 | a feed node that waits for its trigger has polled nothing in the whole run |
| TimerBlocks.BlockedByTimerHasOrigin | internal/core/workflow/workflow_inputs.go:62-66 | every node blocked by timer depends, directly or not, on a feed node that waits for its trigger and polled nothing |
| Gating.FoldIsLive | internal/core/workflow/workflow_inputs.go:24-26 | collected inputs are active exactly when some collected source has text, prompt, search, items or a trigger, and count a trigger exactly when some source has one |
| Gating.PollsNeedATrigger | internal/core/workflow/workflow_rss.go:36-56 | in every reachable state feeds were polled only by nodes without trigger edges or with a dependency that gave a trigger |
| Gating.ActionsNeedLiveInput | internal/core/workflow/workflow_action_nodes.go:167-175 | commands, agent calls and device reads were made only by nodes without incoming edges or with a dependency that is live |
| Gating.MessagesAreNotBlank | internal/core/workflow/workflow_output_nodes.go:28-48 | every message sent has text and a receiver |
| Gating.ManualRunFiresNoTrigger | internal/core/workflow/workflow_trigger_nodes.go:54-56 | without fired triggers, timers and state-change nodes give no signal and no content |
| Gating.ManualRunLeavesTriggeredActionsAlone | internal/core/workflow/workflow_action_nodes.go:31-45 | so in a manual run, feeds, commands and agents wired only to such triggers do nothing |
| Runs.FinalStateIsSound | internal/core/workflow/workflow_run.go:108-118 | the final state of a run satisfies the invariant, nothing is active and every target is reported |
| Runs.CachedConeIsCached | internal/core/workflow/workflow_inputs.go:46-49 | the cache is closed under dependencies, transitively |
| Runs.FailuresShowInTargets | internal/core/workflow/workflow_run.go:429-447 | some node of the workflow ends reported failed if and only if some target is not cached |
| Runs.StatusIsFaithful | internal/core/workflow/workflow_run_helpers.go:45-60 | "succeeded" if and only if every target succeeded and there are no fetch or delivery errors; "failed" if and only if no evaluated node succeeded; a node is reported succeeded if and only if it is cached |
| RunRecords.StatusSays | internal/core/workflow/workflow_run_helpers.go:45-60 | the same in terms of the world: "succeeded" exactly if every target succeeded, no reply reports a fetch error and every message sent was delivered; the reported errors are those of the replies in order |
| RunRecords.TargetsAre | internal/core/workflow/workflow_run.go:161-189 | the targets are exactly the WeCom outputs that are manual or reached by a fired trigger, or if there are none the leaves of the other types that are, in the order of the nodes |
| RunRecords.ResultsAreInOrder | internal/core/workflow/workflow_run.go:439-447 | exactly the evaluated nodes are reported, in the order of the nodes |
| RunRecords.UniqueTexts | internal/core/workflow/workflow_helpers.go:122-137 | the output has every text that is not blank exactly once |
| RunRecords.UniqueNext | internal/core/workflow/workflow_helpers.go:122-137 | and at its first place |
| Runs.DeliveriesAreSingle | internal/core/workflow/workflow_run.go:192-213 | per run a WeCom or command node has at most one accepted delivery, and one exactly when it succeeded unblocked, for any world and any failures elsewhere |
| Runs.MatchingIsFiredReach | internal/core/workflow/workflow_timer_scope.go:36-51 | a node matches the fired triggers if and only if a fired trigger reaches it, and has a scope if and only if some trigger does |
| Runs.TriggeredRunStaysInReach | internal/core/workflow/workflow_timer_scope.go:53-85 | in a triggered run every evaluated node is reachable from a fired trigger, or is a text, group or window node reachable from no trigger, and every call but reading the clock is made by a node reachable from a fired trigger |
| Runs.CollectedMayTakePart | internal/core/workflow/workflow_timer_scope.go:60-85 | in a triggered run a source is collected if and only if a fired trigger reaches it or it is a text, group or window node that no trigger reaches |
| Runs.ShouldEvaluateIff | internal/core/workflow/workflow_timer_scope.go:53-58 | a node may be a target if and only if the run is manual or a fired trigger reaches it |
| TriggerScope.BuildTriggerScopes | internal/core/workflow/workflow_timer_scope.go:5-30 | t is in the scope of x if and only if t is an autonomous trigger node and x can be reached from t (t included), for any iteration order of the node map and on cyclic graphs |
| TriggerScope.SpreadTrigger | internal/core/workflow/workflow_timer_scope.go:11-27 | one search terminates and adds its trigger to the scopes of exactly the reachable nodes |
| TriggerScope.QueueUnseen | internal/core/workflow/workflow_timer_scope.go:20-26 | the targets not seen before are marked and queued, and no others |
| TimeSchedule.WindowImplementationsAgree | internal/core/timeschedule/timeschedule.go:143-171 | an instant is inside the interval bounds if and only if the minute test of the window node holds, for same-day, overnight and equal bounds |
| TimeSchedule.MinutesInWindowIff | internal/core/workflow/workflow_trigger_nodes.go:373-381 | the minute test holds if and only if the instant lies in an interval of real time from start to end of some local day |
| TimeSchedule.IntervalFitsIff | internal/core/timeschedule/timeschedule.go:124-139 | an interval schedule that never fired fits if and only if the instant is in its window, by the minute test and in real time, whatever the interval |
| TimeSchedule.DailyFitsIff | internal/core/timeschedule/timeschedule.go:104-116 | a daily schedule that never fired fits if and only if it is the minute of its time, counted from local midnight |
| TimeSchedule.UnreadableNeverFits | internal/core/timeschedule/timeschedule.go:82-106 | a schedule with an unreadable clock or zone never fits |
| TimeSchedule.StampIsSlotStart | internal/core/timeschedule/timeschedule.go:133-178 | a firing is for the slot that holds the instant: whole intervals after the opening of the window in real time |
| TimeSchedule.BoundsAreStable | internal/core/timeschedule/timeschedule.go:152-170 | all instants of one window compute the same bounds, across midnight too |
| TimeSchedule.SlotsTileTheWindow | internal/core/timeschedule/timeschedule.go:173-179 | an instant lies in its slot, slots start whole intervals after the window, and two instants share a slot start exactly when the second lies in the first one's slot |
| TimeSchedule.IntervalMatchesIffBeforeSlot | internal/core/timeschedule/timeschedule.go:124-141 | an interval timer fires if and only if it is inside its window and last fired before the current slot |
| TimeSchedule.IntervalDueIff | internal/core/timeschedule/timeschedule.go:124-178 | in real time: it fires if and only if the instant is in a slot, whole intervals after the opening of a window, and the last firing was before the start of that slot |
| TimeSchedule.MatchesIffNewStamp | internal/core/timeschedule/timeschedule.go:104-141 | when the clock did not go back since the last firing, either kind of timer fires if and only if it fits now and the last firing is not one of the same slot or day under the present schedule, whatever the schedule was then |
| TimeSchedule.StampMonotone | internal/core/timeschedule/timeschedule.go:143-179 | slots and days follow the clock, over all windows |
| TimeSchedule.DailyMatchesIffOtherMinute | internal/core/timeschedule/timeschedule.go:104-122 | at its minute a daily timer fires exactly when its last firing was in another minute, of any day before or after or of the same day |
| TimeSchedule.DailyRepeatsWhenTheClockGoesBack | internal/core/timeschedule/timeschedule.go:114-121 | a concrete daily timer that fires again for a day it already fired on, after the clock went back |
| TimeSchedule.SlotsFollowTheConfiguredInterval | internal/core/timeschedule/timeschedule.go:133-178 | slots are those of the configured seconds, at all instants of a window, if and only if the 64-bit duration did not wrap or wrapped to at most zero or at least the width of the window |
| TimeSchedule.HugeIntervalWraps | internal/core/timeschedule/timeschedule.go:133 | a concrete number of seconds whose duration wraps to a fraction of a second |
| WindowGate.WindowsForTrigger | internal/core/workflow/workflow_trigger_window_gates.go:20-56 | the collected windows are exactly those of readable window nodes that are a source, a target or a peer of a shared target of the trigger |
| WindowGate.TriggerWindowsMatch | internal/core/workflow/workflow_trigger_window_gates.go:9-18 | the gate is open if and only if the instant lies in an interval of real time of every such window, or the window has no bounds |
| WindowGate.ClaimedJobPassesItsWindows | internal/core/workflow/workflow_trigger_nodes.go:163-171 | a run whose trigger instant passed the gate never evaluates a window next to its trigger as closed |
| KeyedStates.Upsert | internal/core/workflow/workflow_rss_state.go:50-86 | the two passes over order and table give the list in which the last state of a key replaces the first in place, cut to the limit |
| KeyedStates.PutAllUpdates | internal/core/workflow/workflow_timer_state.go:45-82 | upserting a list of states is updating the map it stands for, one state after the other |
| KeyedStates.UpsertUpdates | internal/core/workflow/workflow_timer_state.go:73-81 | with at most as many allowed keys as the limit, nothing is cut off and every key keeps or gets its value |
| KeyedStates.Prune | internal/core/workflow/workflow_timer_state.go:24-43 | the loop keeps the first normalised state of each allowed key, cut to the limit |
| KeyedStates.LoadRestricts | internal/core/workflow/persistence.go:162-181 | loading keeps exactly the allowed part of the stored map, in a list with distinct keys |
| KeyedStates.TableIsLookup | internal/core/workflow/workflow_timer_state.go:12-22 | the table built from a list with distinct keys is the map the list stands for |
| Scheduler.TimerKeysIdentify | internal/core/workflow/workflow_timer_state.go:116-123 | different timers have different keys when workflow ids do not contain the separator |
| Scheduler.TimerFitsIff | internal/core/workflow/workflow_timer.go:38-47 | a timer node has a schedule that fits exactly in the minute of its time, or, as an interval timer with positive seconds and a known zone, at every instant |
| Scheduler.PassesIff | internal/core/workflow/workflow_scheduler.go:80-104 | but for its last firing, a timer is due if and only if an edge leaves it, the instant lies in the windows next to it and suits the node |
| Scheduler.DueIff | internal/core/workflow/workflow_scheduler.go:97-104 | and it is due if and only if its last firing, if any, was in another minute, or for an interval timer before the present slot |
| Scheduler.ClaimsAreDue | internal/core/workflow/workflow_scheduler.go:78-107 | a tick claims exactly the timers that are wired, whose windows are open and whose schedule matches |
| Scheduler.ClaimsAreDistinct | internal/core/workflow/workflow_scheduler_claim.go:15-22 | one tick claims a timer at most once |
| Scheduler.TickSetsLast | internal/core/workflow/workflow_scheduler_claim.go:20-22 | a stored tick sets the last firing of exactly the claimed timers; a failed save sets none |
| Scheduler.AtMostOneJobPerSlot | internal/core/workflow/workflow_scheduler_claim.go:10-28 | over every run of ticks, failing saves, stops, restarts, run appends and definition saves that keep the interval timer, even when the clock goes back, the slots of its jobs strictly increase: no slot gets two jobs |
| Scheduler.AtMostOneJobPerStamp | internal/core/workflow/workflow_scheduler_claim.go:10-28 | with ticks that do not go back and a schedule that no definition save changes, the same holds of daily timers and days, also for a timer with a history |
| Scheduler.ExactlyOneJob | internal/core/workflow/workflow_scheduler.go:16-27 | without stops and doubtful saves, with a fixed schedule and ticks that do not go back, every slot or day that the firing recorded before the run leaves open, in which a tick finds the timer due and is saved, gets exactly one job |
| Scheduler.FiredBeforeMeansNoJob | internal/core/workflow/workflow_scheduler.go:97-104 | and a slot or day of the firing recorded before the run, or an earlier one, gets none |
| DailyRuns.PassingIsDue | internal/core/timeschedule/timeschedule.go:104-122 | a daily timer that passes all other tests is due exactly in a minute other than that of its recorded firing, also after edits of its time and zone |
| DailyRuns.TickAddsFiredDays | internal/core/workflow/workflow_scheduler_claim.go:10-28 | one tick, however its save and its enqueueing end, adds exactly the job of a new minute and records the minute of every stored claim |
| DailyRuns.JobsAreNewMinutes | internal/core/workflow/workflow_scheduler_claim.go:10-28 | over every run that keeps a daily timer in place, with any clock, saves, stops, restarts and edits of its time, its jobs are the passing ticks that open a new minute and get through, in order |
| DailyRuns.TwoJobsForOneDayIff | internal/core/timeschedule/timeschedule.go:114-121 | a day gets two jobs if and only if the timer passes on it in two new minutes whose claims get through |
| DailyRuns.FixedTimeTwoJobsIff | internal/core/timeschedule/timeschedule.go:114-121 | when the schedule is not edited and nothing is disturbed, a day gets two jobs if and only if the timer fires on it, passes on another day, and passes on it again; for a timer without history it is enough that it passes three times like that |
| ScheduleExample.TwoTicksOneJob | internal/core/workflow/workflow_scheduler.go:16-27 | the hypotheses of ExactlyOneJob can be met: a daily timer wired to one node gets exactly one job from two ticks in its minute |
| ScheduleExample.EditedTimerFiresTwice | internal/core/timeschedule/timeschedule.go:118-121 | a concrete run with a forward clock: fired at nine, saved with ten as its time, the timer gets a second job for the day |
| ScheduleExample.ClockBackFiresTwice | internal/core/timeschedule/timeschedule.go:118-121 | a concrete run with a fixed schedule in which the clock goes back a day and the day gets a second job |
| Scheduler.QueuedJobPassesItsWindows | internal/core/workflow/workflow_scheduler_queue.go:85-89 | a claimed job is never stopped by a window next to its trigger, however long it is queued, on the definition it was claimed from |
| TimerService.IsDue | internal/core/workflow/workflow_scheduler.go:80-104 | the chain of tests on one node decides whether the timer is due |
| TimerService.DueTimerNodes | internal/core/workflow/workflow_scheduler.go:75-109 | the table has exactly the workflows with due timers, each with its due timers in the order of its nodes |
| TimerService.BuildScheduledRuns | internal/core/workflow/workflow_scheduler_queue.go:27-44 | the jobs are those of the claims, in the order of the definitions |
| TimerService.RecordClaims | internal/core/workflow/workflow_scheduler_claim.go:20-22 | for any iteration order of the table, exactly the due timers get the instant of the tick as last firing |
| TimerService.UpdatesSetLasts | internal/core/workflow/workflow_timer_state.go:58-72 | upserting the timers of one workflow sets their last firings and no others |
| TimerService.WorkflowTimers.constructor | internal/core/workflow/persistence.go:139-158 | the abstract state a stored list of timer states stands for |
| TimerService.WorkflowTimers.Load | internal/core/workflow/persistence.go:175-181 | a load finds exactly the last firings of the timers that still exist |
| TimerService.WorkflowTimers.ClaimDue | internal/core/workflow/workflow_scheduler_claim.go:13-26 | the jobs and the new timer states are those of the abstract claims |
| TimerService.WorkflowTimers.HandleTick | internal/core/workflow/workflow_scheduler.go:16-27 | a tick on the lists is the tick of the state machine: the claim is stored before anything is enqueued, and nothing is enqueued when the save reports an error |
| TimerService.WorkflowTimers.Restart | internal/core/workflow/service.go:61-63 | a restart loses the queue and keeps what is stored |
| TimerService.WorkflowTimers.TakeJob | internal/core/workflow/workflow_scheduler_queue.go:56-65 | jobs are taken in the order they were queued |
| TimerService.WorkflowTimers.AppendRun | internal/core/workflow/workflow_state.go:125-144 | appending a run stores the timer states it loaded and never changes a last firing of an existing timer |
| TimerService.WorkflowTimers.SaveDefinitions | internal/core/workflow/persistence.go:69-87 | definitions are written first, timer states second; after either failure the state is that of the state machine |
| SourceStates.CommitKeepsKey | internal/core/workflow/workflow_rss.go:147-173 | a commit is stored under the key of the feed it was polled for |
| SourceStates.SourceKeysIdentify | internal/core/workflow/workflow_rss_state.go:133-149 | equal keys are keys of one workflow, one node and one source id, or without ids one address |
| SourceStates.SchemeAndSlashDoNotMatter | internal/core/workflow/workflow_helpers.go:82-91 | the address of a feed is the same with or without http or https and a final slash |
| SourceStates.UnpolledIsUntouched | internal/core/workflow/workflow_rss_state.go:50-86 | over any interleaving of run starts, appends, other updates and edits of the definitions, a source that stays in the definitions and that no appended run polled keeps its state |
| SourceStates.NoCommitIsLost | internal/core/workflow/workflow_state.go:121-146 | over any such interleaving, a source that stays in the definitions holds the commit of the last appended run that polled it, built from the snapshot of that run |
| SourceStates.HistoryIsNewestFirst | internal/core/workflow/workflow_state.go:133-134 | the history is the appended runs, newest first, the last fifty |
| SourceStates.SnapshotIsStoreAtStart | internal/core/workflow/workflow_run.go:84-93 | whatever happens while a run is under way, its snapshot is what the store showed when it started |
| SourceStates.AppendedBody | internal/core/workflow/workflow_rss.go:147-173 | after an append the source has the body the run fetched, or, for "not modified", the body of the moment the run started, empty when it had none |
| SourceStates.AppendedState | internal/core/workflow/workflow_rss.go:147-173 | the rest of the state it leaves: the time of the request, and the validator of the reply or, for "not modified" without one, that of the moment the run started |
| SourceStates.NotModifiedKeepsBodyIff | internal/core/workflow/workflow_rss.go:156-160 | an append answered "not modified" leaves the stored body alone if and only if it is still that of the moment the run started, with or without a state then |
| SourceStates.BodyChangesIff | internal/core/workflow/workflow_state.go:121-146 | between two moments the body of a source changes if and only if the last append in between of a run that polled it left another body |
| SourceStates.OverlappingRunsRestoreTheOldBody | internal/core/workflow/workflow_rss.go:148-160 | of two overlapping runs, the later append answered "not modified" restores the body from before both, or none |
| SourceStates.CommitList | internal/core/workflow/workflow_rss_state.go:177-183 | in whatever order the map of staged updates is walked, upserting the list adds the same map |
| SourceStates.RunStore.Start | internal/core/workflow/service.go:69-76 | a run starts with the stored source states of that moment |
| SourceStates.RunStore.Append | internal/core/workflow/workflow_state.go:121-146 | the atomic append on lists is the append of the abstract store, also when the save fails and when the definitions dropped a polled source in the meantime |
| SourceStates.RunStore.Update | internal/core/workflow/service.go:78-95 | any other update stores what a load finds: the states of the sources in the definitions |
| SourceStates.RunStore.SaveDefinitions | internal/core/workflow/persistence.go:69-87 | definitions are written first, source states second; after either failure the store is that of the abstract step |
| SourceStates.RunStore.Merged | internal/core/workflow/workflow_rss_state.go:50-86 | merging the commits into a loaded list adds exactly the commits |
| History.ListEvents | internal/storage/sqlite/events.go:60-83 | a page is the first rows of the filtered table in (ts, id) descending order |
| History.CursorSelects | internal/storage/sqlite/events.go:68-77 | the cursor of a row selects exactly the selected rows strictly older in (ts, id) order |
| History.RowsAfterRow | internal/core/vision/history.go:140-143 | the rows after a row are the remaining rows, without skip or repetition, equal timestamps included |
| History.KeepMatching | internal/core/vision/history.go:122-135 | one page adds its matching events in order, and stops exactly when there are enough |
| History.ListHistory | internal/core/vision/history.go:82-147 | paging terminates and returns exactly the first `limit` matching events of the whole table, newest first |
| History.HistoryIsWhatWasAskedFor | internal/core/vision/history.go:98-135 | these are exactly the vision events of the rule from the first time, before the second and older than the cursor, newest first, all of them if there are no more than the limit |
| Socket.RunsKeepInvariant | internal/core/vision/socket.go:64-165 | every interleaving of requests, reader and shutdown keeps: fresh request numbers, replies with the number of their channel, and one drain that closes what is pending |
| Socket.RepliesReachTheirRequest | internal/core/vision/socket.go:129-143 | a reply in a channel, or with which a call returns, carries the number of that request |
| SocketAccount.ResultIff | internal/core/vision/socket.go:64-126 | over every interleaving a call ends with a result if and only if a step gave it that result: refused on a closed socket, write failed, cancelled, received when nothing was sent, or received the first message sent into its channel |
| SocketAccount.RepliedIff | internal/core/vision/socket.go:102-142 | a call is answered with a message if and only if that message was read while the request was pending, the next send put it into its channel, nothing was sent there before, and the call received after that |
| SocketAccount.ReadIsSentNext | internal/core/vision/socket.go:136-142 | what is read for a pending request the next send puts into the channel of that request and no other |
| SocketAccount.SentWasRead | internal/core/vision/socket.go:136-142 | and every send puts a message that was read for its pending request just before |
| SocketAccount.WaitingIff | internal/core/vision/socket.go:95-103 | a call waits if and only if its request was written and it has no result |
| SocketAccount.ReturnedIff | internal/core/vision/socket.go:77-81 | a call has returned if and only if it was refused or its request was unregistered |
| SocketAccount.ResultStays | internal/core/vision/socket.go:102-126 | a result never changes, not when the call returns either |
| SocketAccount.PendingIff | internal/core/vision/socket.go:70-81 | before the drain exactly the registered requests are pending |
| Socket.ChannelsCloseAtMostOnce | internal/core/vision/socket.go:151-161 | no channel is closed twice |
| Socket.DrainIsFinal | internal/core/vision/socket.go:70-76 | after the drain `pending` stays empty for ever, and every request still waiting has a channel closed once and can proceed unless the reader ended the process |
| Socket.DisconnectedMeansClosed | internal/core/vision/socket.go:105-108 | a call ends as disconnected only after a shutdown began |
| Socket.SendMeetsClosedChannelIff | internal/core/vision/socket.go:136-142 | the reader sends on a closed channel exactly when the drain came between its lookup and its send while the request was still registered |
| RuleState.SanitizeRuleID | internal/core/vision/state.go:168-188 | the builder loop with its dash flag computes the collapsed and trimmed text |
| RuleState.SanitizeFixesExactlyClean | internal/core/vision/state.go:168-188 | sanitising changes nothing exactly on lower-case words of letters and digits joined by single dashes, hence is idempotent |
| RuleState.SanitizeJoinsWords | internal/core/vision/state.go:168-188 | an id is the longest runs of letters and digits of the lower-case text, joined by single dashes |
| RuleState.KeysIdentify | internal/core/vision/state.go:109-119 | a state key determines its rule and its field |
| RuleState.DistinctRulesKeepApart | internal/core/vision/state.go:109-119 | different normalised ids have disjoint key sets |
| RuleState.ReportTouchesOwnKeys | internal/core/vision/state.go:133-150 | a reported event changes no key but those of its rule |
| RuleState.ReportCounts | internal/core/vision/state.go:141-144 | a reported event adds one to the match count of its rule |
| RuleState.ReportSets | internal/core/vision/state.go:140-149 | a reported event sets the six fields of its rule, under their literal keys, to what was reported |
| RuleState.ReconcileRestarts | internal/core/vision/config.go:218-228 | after a reconcile exactly the listed rules have vision state, all of it initial, and other keys are as before |
| RuleState.CountsOwnReportsSinceReconcile | internal/core/vision/config.go:197-239 | over any sequence of reconciles and reports, a rule's match count is the number of its reports since the last reconcile, and keys that are not vision keys keep their values |
| RuleState.NormalizeIds | internal/core/vision/config.go:61-73 | a configuration is accepted if and only if every rule has an id and no other fault and all ids differ, and then all ids are clean; otherwise the error is that of the first rule that cannot be accepted |
| RuleState.CameraStates.Reconcile | internal/core/vision/config.go:197-239 | every camera restarts its own rules and drops other vision keys; other devices are untouched |
| RuleState.CameraStates.ReportEvent | internal/core/vision/state.go:133-150 | a report changes the state of its own camera only |
| Search.DedupSearchItems | internal/core/search/helpers.go:65-77 | the loop with its seen map keeps the first titled item of each identity |
| Search.SameItemIff | internal/core/search/helpers.go:69 | when links have no bar, two items have one identity if and only if their trimmed titles agree but for case and their trimmed links agree |
| Search.DedupKeepsOneOfEach | internal/core/search/helpers.go:65-77 | exactly one item of every identity that occurs is kept, and none that was not found |
| Search.DedupGrows | internal/core/search/engine.go:171-173 | further results only add items at the end |
| Search.EnoughIsEnough | internal/core/search/engine.go:171-175 | once there are enough different items, running more plans cannot change the result |
| Search.GatherPlans | internal/core/search/engine.go:148-174 | the loop stops after the first plan that brings enough different items, and not before; items, errors and chain entries are those of the plans it ran |
| Search.RunPlans | internal/core/search/engine.go:135-178 | items and status of the early-stopping search are those of running every plan, for any results and failures; it fails exactly on a bad endpoint, and errors and source chain are those of the plans it ran |
| Cdata.CdataRoundTrip | internal/api/http/agent.go:168-170 | reading the written text as adjacent CDATA sections, each ending at its first end mark (section 2.7 of XML 1.0), gives back the value, for every value and whatever follows that is not another section |
| Cdata.ReplyRoundTrip | internal/api/http/agent.go:157-166 | a reply read back has the addresses and the content it was built from, each in its own element |

## Left out

- HTTP handlers, gateway clients, command line, admin UI, gRPC plugins and process launching: input and output only.
- Decoding of node data from JSON: configs are typed, and data that does not decode is a missing config.
- Replies of the LLM, search, weather, feeds, WeCom, devices and the agent: arbitrary replies of the world; polling all
  feeds of a node and asking all weather providers is one call each, and so is an agent call with its touchpoints.
- Runs.DeliveriesAreSingle: says nothing of agent touchpoints, because a touchpoint that fails after another one was
  delivered makes the node fail, so that it can be executed again.
- Suppression.ClosedWindowSuppresses: stops at the next window node, because a window node does not pass on the block of
  a window that feeds into it.
- Node metadata, summaries, labels, run ids and times of the run record, and the sent log.
- Time-zone databases and daylight saving: a zone is a fixed offset, and blank zones are the local offset.
- TimeSchedule.SlotsTileTheWindow: takes the interval as the 64-bit duration that the code computes; the two lemmas on
  wrapping relate it to the configured seconds.
- Duplicate workflow or timer ids, blank keys, and more than 1000 timers or source keys: preconditions of the scheduler
  and store theorems.
- Scheduler.AtMostOneJobPerStamp: asks for a fixed schedule and a clock that does not go back; without either a day can
  get two jobs, exactly as `DailyRuns.TwoJobsForOneDayIff` says.
- Scheduler.ExactlyOneJob: counts from a moment at which the schedule is what it stays; edits after it start a new count.
- DailyRuns.JobsAreNewMinutes: edits of the zone keep the fraction of a minute in its offset, which is zero in every zone
  in use today.
- The capacity of the job channel (a full channel only delays the tick) and the checks a worker makes before a job runs.
- Device state triggers (dueWorkflowStateTriggerNodes) and the matchers of device states: single tests of an event; the
  result of a matcher is part of the reply of the world or of the run options.
- selectWorkflow and the trimming of ids, labels and edges in SaveWorkflow: single-step normalisation.
- SourceStates.NoCommitIsLost: a source dropped from the definitions loses its state at the next save, so nothing is
  said about it after that.
- History.ListHistory: the retention cutoff is the caller's `fromTS`; rows do not change during the call; timestamps are
  any total order, since the query compares their text both for the order and for the cursor. Enriching is left out.
- Socket.RunsKeepInvariant: the 64-bit request counter does not wrap; the reader's wait on a full channel is a step that
  is not enabled.
- RuleState.CountsOwnReportsSinceReconcile: stored counts are whole numbers below 2^53, as they pass through JSON.
- RuleState.NormalizeIds: the outcome of the other checks of a rule (camera, stream, entities, zone) is a part of its
  input, and the ids come in the order of the rules, before they are sorted.
- Unicode tables: lower-casing and letter-or-digit are parameters with the laws that are used.
- Cdata.CdataRoundTrip: reads sections only; line-end normalisation and characters XML does not allow are left out.
- Search.RunPlans: the requests are left out, a plan either fails or brings items; so is the choice of the provider.
- Search.SameItemIff: with bars in links the identity can confuse two items, as the code joins title and link by one.
- Agent approvals, evolution goals, policy tables, media relay and encryption: not part of this model.
