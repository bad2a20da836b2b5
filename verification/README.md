# Verified models of Argo Events

Argo Events receives events from many kinds of event sources, publishes them on an event bus, and lets
sensors turn them into triggers. This project models the algorithms and protocols of that system that do
not depend on a particular broker or cloud API, and proves what they promise: for every input, for every
interleaving of concurrent steps, or over every history of the cluster.

Run `dafny verify dfyconfig.toml` to check it.

| module | what it models |
|---|---|
| `Calendar`, `CronSchedule` | the civil calendar in seconds, and the backward search for a schedule's previous activation |
| `DependencyExpression` | rewriting a trigger condition into an expression program and reading the renamed condition back |
| `EventFilter`, `TimeFilter` | the filters of a dependency, their combination, and the clock-time window |
| `TimeText`, `ExclusionDates` | reading date-times, and lists of excluded dates (sections 3.3.5 and 3.8.5.1 of RFC 5545) |
| `ConflictingKeys`, `LuaConversion`, `TriggerParams` | data transformations: dotted keys, JSON to Lua and back, trigger parameters |
| `EventPersistence` | concurrent saves to one ConfigMap with optimistic updates |
| `SubscriptionDaemon` | the per-trigger daemon that keeps one subscription alive |
| `ActionRetry` | attempts, dead-letter triggers and metrics of concurrently running actions |
| `DeploymentVolumes`, `EventSourceReconciler` | the volumes of an event source's Deployment, and the reconciler as a state machine over the cluster |
| `EventBusUpdates`, `EventSourceValidation` | admission of event bus updates, and what event source validation buys the running process |
| `Wrappers`, `Ranges`, `Strings`, `Sorting` | shared notions: options and results, integer ranges, replacing text, sorting by a key |

Code that loops or updates objects is written as methods with loops or as classes, proved against a
specification function or relation; the theorems are lemmas about those. Where Go leaves an order open
(map iteration, sorting of equal keys, API lists, scheduling), the model chooses arbitrarily. Failing API
calls, lost answers, execution outcomes and other goroutines' steps are arbitrary choices too.

## Findings

Places where the code does less than its name, its comment or its documentation says. Each is proved with
a concrete input, and with the exact condition under which the promise does hold.

- `PrevCronTime` drops the fraction of a second and one more second, so from inside a second the schedule fires at it skips that activation, or reports that there is none (`CronSchedule.PreviousActivationExactly`, `CronSchedule.SkipsTheCurrentSecond`, `CronSchedule.LeapDayMissed`).
- Dependency names that differ only in `-` against `_` shadow each other in conditions (`DependencyExpression.TranslateKeepsTokens`, `DependencyExpression.ShadowedName`).
- Removing conflicting keys looks at one neighbour in sorted order; a key continuing with a character below `.` hides the child (`ConflictingKeys.RemovalExactly`, `ConflictingKeys.HyphenShields`). The comment above the function gives an example result that the code does not produce.
- The documentation says any filter error counts as false; in or-mode an error in one group rejects an event that another group accepts (`EventFilter.DecisionExactly`, `EventFilter.ErrorOverridesAcceptance`; docs/sensors/filters/intro.md).
- The daemon can wait for ever on its close signal: when setting up the subscription fails at the wrong moment, when a subscription that took a signal shuts down slowly and the next connection is lost too, or when the cancellation reaches the subscription first, which also keeps the sensor from shutting down (`SubscriptionDaemon.SendingProceedsExactly`, `SubscriptionDaemon.StuckAfterFailedSetup`, `SubscriptionDaemon.StuckAfterSlowShutdown`, `SubscriptionDaemon.StuckAfterCancel`).
- An event source may name two secrets (or config maps) that get one volume name, for instance `a_b` and `a-b`. When two events of one kind name them, the order in which the map of events is visited decides which is mounted, the Deployment's hash follows it, and the reconciler rewrites the Deployment whenever the order changes (`DeploymentVolumes.BuildContentExactly`, `EventSourceReconciler.UnderscoreClashRebuilds`, `EventSourceReconciler.QuietExactly`). Kubernetes has no Secret with an underscore in its name, but nothing checks the selector.
- Building a payload dereferences the nil value of a silent dependency, where applying parameters skips it (`TriggerParams.PanicsExactly`, `TriggerParams.OneDanglingPanics`). The comment above `ResolveParamValue` says this case is an error; the code returns nil.
- Building a payload never looks at a parameter's operation, which validation accepts and the API documents: appending or prepending overwrites (`TriggerParams.PayloadIgnoresOperations`, `TriggerParams.PayloadAgreesExactly`, `TriggerParams.AppendOverwritesInPayload`; pkg/reconciler/sensor/validate.go:473-480, pkg/apis/events/v1alpha1/sensor_types.go:781-807).
- The implementation of an event bus "can not be changed", but an update may change it to any lower one the bus already lists, or to Kafka (`EventBusUpdates.ImplementationChangesExactly`, with the runs `EventBusUpdates.NatsBecomesKafka` and `EventBusUpdates.NatsBecomesJetStream`).

## Model

| member | source | states |
|---|---|---|
| `Calendar.FieldsOfDateTime` | pkg/shared/util/cronutil.go:44-108 | a date and clock time read back from their second give the same fields, for leap years and all month lengths |
| `Calendar.DateTimeOfFields` | pkg/shared/util/cronutil.go:44-108 | the fields of any second are a real date and clock time and lead back to that second |
| `Calendar.MonthBlock` | pkg/shared/util/cronutil.go:51-62 | the seconds back to the first of the month share year and month; the one before lies in the previous month |
| `Calendar.DayBlock` | pkg/shared/util/cronutil.go:64-87 | the seconds back to midnight share the day, and leaving the month backwards is seen by its number |
| `Calendar.WeekdaysRepeat` | pkg/shared/util/cronutil.go:125-134 | two seconds fall on the same weekday if and only if their days are a multiple of seven apart |
| `Calendar.WeekdayAdvances` | pkg/shared/util/cronutil.go:125-134 | a day later it is the next weekday, Sunday following Saturday |
| `Calendar.KnownMonday` | pkg/shared/util/cronutil.go:125-134 | 8 January 2024 is a Monday, so with the two above every date has the weekday it has |
| `CronSchedule.PrevCronTime` | pkg/shared/util/cronutil.go:17-121 | the search terminates and returns the greatest second below the whole second of `t` that matches month, day rule, hour, minute and second, or reports none exactly when none exists since 1 January five years before; the answer's day is in the day-of-month field or its weekday in the other, and in both if either is starred |
| `CronSchedule.OneAnswer` | pkg/shared/util/cronutil.go:39-118 | that contract leaves one answer |
| `CronSchedule.PreviousActivationExactly` | pkg/shared/util/cronutil.go:39-40 | the answer is the activation just before the instant `t`, or an error when there is none since the horizon, if and only if `t` is not inside a second the schedule fires at |
| `CronSchedule.LeapDayMissed` | pkg/shared/util/cronutil.go:39-46 | half a second into 29 February 2104 the search for the last leap day reports none |
| `CronSchedule.SkipsTheCurrentSecond` | pkg/shared/util/cronutil.go:39-40 | for a schedule firing every second the answer is one activation too early from inside any second |
| `CronSchedule.StableUntilNextActivation` | pkg/shared/util/cronutil.go:17-121 | asking again from any instant between the answer and `t` repeats the answer |
| `CronSchedule.DisplayZoneIrrelevant` | pkg/shared/util/cronutil.go:24-36 | with a zone of its own the schedule gives the same instant, or the same error, in whatever zone `t` is shown |
| `CronSchedule.WeeklyAnswer` | pkg/shared/util/cronutil.go:17-134 | a schedule for midnight on one weekday answers, at every instant, the last midnight of that weekday before its whole second, less than seven days back |
| `CronSchedule.LastMonday` | pkg/shared/util/cronutil.go:17-134 | on Wednesday 10 January 2024 at noon the last Monday midnight is that of 8 January |
| `CronSchedule.TuesdayThe13th` | pkg/shared/util/cronutil.go:123-134 | with a day of month and a weekday given and neither starred, either is enough |
| `DependencyExpression.RewritePiece` | pkg/sensors/listener.go:469-473 | on each piece of a condition the five chained replacements act as one, independently of what follows: no match straddles pieces and none touches inserted text |
| `DependencyExpression.LexRewrite` | pkg/sensors/listener.go:469-475 | the rewritten text of any condition reads as the program spelling the condition's tokens |
| `DependencyExpression.RunCodes` | pkg/sensors/listener.go:480-485 | the program runs exactly when operands and operators alternate, and yields the renamed tokens |
| `DependencyExpression.EnvLookup` | pkg/sensors/listener.go:498-502 | a key stands for the dependency itself exactly when no later one shares its key |
| `DependencyExpression.TranslateCondition` | pkg/sensors/listener.go:466-490 | translating a condition over declared dependencies succeeds exactly when its tokens alternate; the result is those tokens with each name replaced by the dependency its key stands for |
| `DependencyExpression.TranslateKeepsTokens` | pkg/sensors/listener.go:466-505 | the translated condition has the same tokens, hence the same boolean meaning, if and only if no name used is shadowed |
| `DependencyExpression.ShadowedName` | pkg/sensors/listener.go:498-502 | with dependencies `a-b` and `a_b` the condition `a-b` turns into the other one |
| `ConflictingKeys.RemoveConflicts` | pkg/shared/expr/eval.go:76-92 | the result keeps exactly the keys whose next key in sorted order is not a dotted child, with their values |
| `ConflictingKeys.NextIsChildExactly` | pkg/shared/expr/eval.go:85-89 | looking at the next key finds a parent exactly when some descendant is not shielded by a key sorting between |
| `ConflictingKeys.RemovalExactly` | pkg/shared/expr/eval.go:76-92 | the result is the entries without a descendant at any depth if and only if no key with a descendant is shielded from it |
| `ConflictingKeys.PlainKeysAreSafe` | pkg/shared/expr/eval.go:76-92 | if no key contains a character below `.`, the result is exactly the entries without a descendant, values unchanged |
| `ConflictingKeys.HyphenShields` | pkg/shared/expr/eval.go:76-92 | `a-b` hides `a.b` from `a`: nothing is removed |
| `LuaConversion.MapToTable` | pkg/sensors/dependencies/transform.go:121-168 | the recursive loops build the table of a JSON object |
| `LuaConversion.ToGoValue` | pkg/sensors/dependencies/transform.go:170-212 | the recursive loops build the JSON value of a table: an object when it has no array part, else an array |
| `LuaConversion.RoundTrip` | pkg/sensors/dependencies/transform.go:121-212 | there and back gives an explicit normal form: null members dropped, nulls and arrays inside arrays dropped, arrays left empty become empty objects |
| `LuaConversion.NormalIsClean` | pkg/sensors/dependencies/transform.go:121-212 | the normal form of any object has none of the shapes that get lost |
| `LuaConversion.NormalFixesClean` | pkg/sensors/dependencies/transform.go:121-212 | objects without those shapes come back unchanged |
| `LuaConversion.RoundTripStable` | pkg/sensors/dependencies/transform.go:121-212 | a round trip changes an object exactly when it has one of those shapes, and a second one changes nothing |
| `LuaConversion.ScriptsProduceExactly` | pkg/sensors/dependencies/transform.go:170-212 | the tables a script returns become exactly the objects and arrays without null members and without arrays ending in null; without the `__is_array` flag, exactly those of them without empty arrays |
| `EventPersistence.StepKeepsInv` | pkg/eventsources/persist/event_persist.go:73-105 | no API call of any save, answered, failed or answered in vain, breaks the invariant of the shared map |
| `EventPersistence.GivesUpAfterFive` | pkg/eventsources/persist/event_persist.go:78-100 | in every interleaving a save has failed if and only if five attempts of its own have |
| `EventPersistence.SavesUndisturbed` | pkg/eventsources/persist/event_persist.go:78-100 | a save that nobody disturbs stores its event in three calls at most, makes the map if there is none and it may, and leaves other keys alone |
| `EventPersistence.NeverCreated` | pkg/eventsources/persist/event_persist.go:79-89 | saves that may not make the map never do: without one, nothing is stored in any interleaving |
| `EventPersistence.MapIsReplayedLog` | pkg/eventsources/persist/event_persist.go:73-105 | in every interleaving of any number of saves the map is its initial data with the accepted Updates applied in order |
| `EventPersistence.LogIsSuccesses` | pkg/eventsources/persist/event_persist.go:76-104 | when no answer is lost, each successful save is exactly one accepted Update and a save that gave up is none |
| `EventPersistence.GetReturnsLast` | pkg/eventsources/persist/event_persist.go:107-120 | reading a key gives the payload of the last accepted Update to it |
| `EventPersistence.GetUntouched` | pkg/eventsources/persist/event_persist.go:107-120 | a key no Update names keeps its initial value, or stays absent |
| `EventPersistence.RealTimeOrder` | pkg/eventsources/persist/event_persist.go:73-105 | a save that succeeded before another began is applied before it |
| `SubscriptionDaemon.StepKeepsInv` | pkg/sensors/listener.go:244-352 | every step of daemon and goroutines keeps lock, wait group and live subscriptions in agreement |
| `SubscriptionDaemon.OneSubscription` | pkg/sensors/listener.go:46-53 | in every interleaving the lock is 1 exactly when one subscription is being launched or unreleased, and there are never two |
| `SubscriptionDaemon.ReturnsLast` | pkg/sensors/listener.go:300-352 | when the daemon has returned, every subscription goroutine has ended |
| `SubscriptionDaemon.EndsOnlyWhenCancelled` | pkg/sensors/listener.go:317-334 | in every run the daemon ends, or waits to, only when cancelled: a failed reconnection is tried again |
| `SubscriptionDaemon.ListensUntilTold` | pkg/eventbus/jetstream/sensor/trigger_conn.go:163-175 | a subscription goes on listening until the daemon signals it or everything is cancelled |
| `SubscriptionDaemon.SendingProceedsExactly` | pkg/sensors/listener.go:336-341 | a waiting close signal is taken in some continuation if and only if a subscription listens or has still to begin listening; one that took a signal does not count |
| `SubscriptionDaemon.StuckForever` | pkg/sensors/listener.go:317-350 | otherwise nothing ever releases the daemon, cancellation included |
| `SubscriptionDaemon.StuckAfterFailedSetup` | pkg/eventbus/jetstream/sensor/trigger_conn.go:143-146 | that state is reached from the start when setting up the subscription fails |
| `SubscriptionDaemon.StuckAfterSlowShutdown` | pkg/eventbus/jetstream/sensor/trigger_conn.go:163-188 | it is reached when a subscription that took a signal is still shutting down, the lock still held, at the next reconnection |
| `SubscriptionDaemon.StuckAfterCancel` | pkg/eventbus/jetstream/sensor/trigger_conn.go:163-175 | it is reached when the cancellation gets to the subscription before the signal |
| `TimeText.CompactRoundTrip` | pkg/shared/util/recurrence.go:10-10 | every UTC second of years 0 to 9999 printed as `YYYYMMDDThhmmssZ` reads back as itself |
| `TimeText.ImpossibleDate` | pkg/shared/util/recurrence.go:28-39 | a date no calendar has is never read |
| `TimeText.ClockRoundTrip` | pkg/shared/util/time.go:9-12 | every clock time printed as `hh:mm:ss` reads as that many hours, minutes and seconds |
| `TimeText.OneDigitHour` | pkg/shared/util/time.go:9-12 | an hour below ten may be written with one digit |
| `TimeText.ClockWithFraction` | pkg/shared/util/time.go:9-12 | a fraction of nine digits after the seconds reads as those nanoseconds |
| `TimeText.CommaForPoint` | pkg/shared/util/time.go:9-12 | also after a comma |
| `TimeText.TrailingZero` | pkg/shared/util/time.go:9-12 | a zero at the end of a fraction changes nothing, so shorter fractions read by place value |
| `ExclusionDates.ParseDateTimes` | pkg/shared/util/recurrence.go:28-39 | the comma-separated list is read in order, or fails with the error of its first unreadable text |
| `ExclusionDates.ParseExclusionDates` | pkg/shared/util/recurrence.go:14-26 | the loop reads all texts of all `EXDATE:` lines in order, or fails with the error of the first unreadable one |
| `ExclusionDates.PrintedDatesComeBack` | pkg/shared/util/recurrence.go:14-39 | dates printed in non-empty groups behind `EXDATE:`, among any other lines, come back as exactly those instants in order |
| `ExclusionDates.ImpossibleDateFails` | pkg/shared/util/recurrence.go:14-39 | one impossible date anywhere in a group makes the whole parse fail |
| `ExclusionDates.InstantsAll` | pkg/shared/util/recurrence.go:28-39 | a list is read if and only if each of its texts is; otherwise the first unreadable text gives the error |
| `TimeFilter.ClockOnDate` | pkg/shared/util/time.go:9-39 | a clock time put on a local date parses exactly when the clock time does and the year has four digits, and lands that far after local midnight |
| `TimeFilter.FilterTimeIsWindow` | pkg/sensors/dependencies/filter.go:469-506 | the filter accepts an event if and only if its local time of day, fraction included, is in the cyclic half-open window, and errs exactly when something cannot be read |
| `TimeFilter.SwappedIsComplement` | pkg/sensors/dependencies/filter.go:469-506 | swapping different start and stop accepts exactly the events rejected before |
| `TimeFilter.EqualIsWholeDay` | pkg/sensors/dependencies/filter.go:469-506 | equal start and stop accept every readable event |
| `TimeFilter.PrintedWindow` | pkg/sensors/dependencies/filter.go:469-506 | with start and stop printed as `hh:mm:ss` an event is accepted if and only if its local hour, minute and second lie from start up to before stop, round midnight when start is not before stop |
| `TimeFilter.QuarterPastTwo` | pkg/sensors/dependencies/filter.go:490-502 | between `02:30:00` and `04:30:00` every event in the minute 02:15 is rejected |
| `EventFilter.FilterExpr` | pkg/sensors/dependencies/filter.go:114-193 | the labelled loops compute the group verdict of the per-filter verdicts pass, fail, error, skip: and-mode stops at the first fail or error, or-mode accepts if any passes and otherwise reports every error in order |
| `EventFilter.FilterData` | pkg/sensors/dependencies/filter.go:198-420 | the same for data filters, each judged by path, value type, template and comparator |
| `EventFilter.CheckValues` | pkg/sensors/dependencies/filter.go:278-408 | the loop over expected values gives the first decisive comparison |
| `EventFilter.NumberFilterExactly` | pkg/sensors/dependencies/filter.go:306-360 | a number filter accepts an event if and only if the number found is, per comparator, greater than, at least, less than, at most, different from or equal to some listed number |
| `EventFilter.NaNFilter` | pkg/sensors/dependencies/filter.go:306-360 | where the number found or all those listed are not a number, only inequality accepts |
| `EventFilter.InfiniteFilter` | pkg/sensors/dependencies/filter.go:306-360 | an infinite number lies beyond all finite ones |
| `EventFilter.BoolFilterExactly` | pkg/sensors/dependencies/filter.go:279-305 | a boolean filter accepts if and only if some listed value is the truth value found, whatever the comparator |
| `EventFilter.StringFilterExactly` | pkg/sensors/dependencies/filter.go:361-400 | a string filter accepts if and only if some listed expression matches, or for inequality some does not; other comparators accept nothing |
| `EventFilter.NothingToCompare` | pkg/sensors/dependencies/filter.go:219-276 | a filter whose path is missing, that lists no value, or whose template fails or puts out nothing, rejects with an error |
| `EventFilter.ExprFilterExactly` | pkg/sensors/dependencies/filter.go:134-182 | an expression filter accepts if and only if every path is there and the expression compiles and evaluates to true |
| `EventFilter.ParameterOfName` | pkg/sensors/dependencies/filter.go:135-147 | a parameter is the value at the path of the last field of that name |
| `EventFilter.ContextFilterExactly` | pkg/sensors/dependencies/filter.go:425-447 | each of type, subject, source and content type is free or that of the event |
| `EventFilter.CombinesAsGroup` | pkg/sensors/dependencies/filter.go:114-193 | the outcome of the loops is that of scanning the verdicts in order: in and-mode the first that is not neutral decides, in or-mode any pass, else all errors |
| `EventFilter.FilterEvent` | pkg/sensors/dependencies/filter.go:59-109 | the five groups combine as a conjunction or disjunction of the configured ones, with the first or all messages |
| `EventFilter.GroupsExactly` | pkg/sensors/dependencies/filter.go:425-524 | the context group accepts iff every named field is the event's, the time group iff the clock-time filter does, the script group iff there is no data or the script returns true; errors are those of the last two |
| `EventFilter.Filter` | pkg/sensors/dependencies/filter.go:45-56 | an event passes exactly when that combination passes without an error |
| `EventFilter.DecisionExactly` | pkg/sensors/dependencies/filter.go:45-109 | counting errors as false, as documented, gives the code's decision if and only if not (or-mode, one group accepts, another errs) |
| `EventFilter.ErrorOverridesAcceptance` | pkg/sensors/dependencies/filter.go:45-109 | in or-mode an event that a data filter accepts is rejected when an expression names a missing path |
| `TriggerParams.ApplyParams` | pkg/sensors/triggers/params.go:114-159 | the loop applies the parameters one after another and stops at the first failure |
| `TriggerParams.ResolveExactly` | pkg/sensors/triggers/params.go:193-274 | a parameter resolves to nil exactly for a silent dependency without a default, and fails exactly when the selection yields nothing and there is no default |
| `TriggerParams.WritesFromEvent` | pkg/sensors/triggers/params.go:114-319 | an overwriting parameter writes the template's output, else what is found at the key (JSON form for blocks and null, raw if asked for and no string), else the default |
| `TriggerParams.WritesOtherwise` | pkg/sensors/triggers/params.go:114-274 | a silent dependency, data that cannot be had or no selection give the default; without one, nothing is written for the first and the whole event for the last |
| `TriggerParams.HoldsDataAtKey` | pkg/sensors/triggers/params.go:302-319 | the destination then holds the plain text found at the data key, or the JSON form of a block or of null |
| `TriggerParams.NameWithoutQuotes` | pkg/sensors/triggers/params.go:306-316 | the name in {"name":"bob"} is written without its quotes |
| `TriggerParams.AppendsAndPrepends` | pkg/sensors/triggers/params.go:114-159 | any interleaving of appends and prepends to one destination, among other parameters, leaves prepended texts in reverse order, the old text, appended texts in order |
| `TriggerParams.DisjointUntouched` | pkg/sensors/triggers/params.go:114-159 | destinations apart from those of all resolved parameters are untouched |
| `TriggerParams.UnresolvedChangeNothing` | pkg/sensors/triggers/params.go:116-123 | parameters that resolve to nil, anywhere among others, could as well not be there |
| `TriggerParams.ConstructPayload` | pkg/sensors/triggers/params.go:40-72 | the loop builds the payload, returns a raw value for an empty destination, fails, or crashes, as the parameters in order say |
| `TriggerParams.PanicsExactly` | pkg/sensors/triggers/params.go:40-72 | it crashes if and only if it gets as far as a parameter with a destination whose dependency is silent and has no default |
| `TriggerParams.OneDanglingPanics` | pkg/sensors/triggers/params.go:60-66 | one such parameter is enough, when another dependency has sent the event |
| `TriggerParams.PayloadIgnoresOperations` | pkg/sensors/triggers/params.go:40-72 | a payload is the same whatever the operations of its parameters |
| `TriggerParams.PayloadIsApplied` | pkg/sensors/triggers/params.go:40-159 | unless it crashes or a raw value is the whole of it, a payload is the parameters, each as one that overwrites, applied to the empty document |
| `TriggerParams.PayloadAgreesExactly` | pkg/sensors/triggers/params.go:40-159 | payload and application of the same parameters hold the same text at a destination if and only if all values at work there but the last are empty |
| `TriggerParams.AppendOverwritesInPayload` | pkg/sensors/triggers/params.go:57-70 | write `x`, append `y`: the payload holds `y`, applying the parameters gives `xy` |
| `ActionRetry.ActStepKeepsInv` | pkg/sensors/listener.go:214-242 | every step of an action keeps its executions within the resolved limit and its counts equal to what they deserve |
| `ActionRetry.LimitExactly` | pkg/shared/util/retry.go:73-77 | an at-least-once trigger is tried its configured number of steps, five for a non-positive one; without a strategy, or fire-and-forget, once |
| `ActionRetry.UsableExactly` | pkg/shared/util/retry.go:36-71 | a strategy can be read exactly when each text in it can |
| `ActionRetry.WaitExactly` | pkg/shared/util/retry.go:36-71 | duration, factor and jitter are those configured, or a second, one and one |
| `ActionRetry.RunKeepsInv` | pkg/sensors/listener.go:214-411 | in every interleaving of any number of actions the metrics are the sums of what each action did |
| `ActionRetry.MetricsBalance` | pkg/sensors/listener.go:396-411 | per trigger name, triggered plus failed equals executions at every moment |
| `ActionRetry.RetriesFailedExactly` | pkg/sensors/listener.go:214-394 | when all actions are over, retries-failed is one per level that came to nothing, as told by the execution outcomes alone |
| `ActionRetry.ActionDelivers` | pkg/sensors/listener.go:214-242 | a finished action of a validated trigger with readable back-offs was tried at most its step count and stopped at the first success, ran its dead-letter trigger iff every attempt failed, and counted once per failed level |
| `ActionRetry.FireAndForget` | pkg/sensors/listener.go:376-393 | a fire-and-forget action executes once and counts retries-failed iff that failed |
| `ActionRetry.DlqRunsExactly` | pkg/reconciler/sensor/validate.go:94-109 | why validation asks for at-least-once: "the dead-letter trigger ran iff the main level failed" holds exactly for at-least-once triggers or when nothing failed |
| `ActionRetry.SensorContext.DoWithRetry` | pkg/shared/util/retry.go:81-99 | the retry loop, among arbitrary steps of other goroutines, ends in success or after the last step, taking only steps of the machine |
| `ActionRetry.SensorContext.TriggerActions` | pkg/sensors/listener.go:363-394 | blocks for an at-least-once execution, leaves any other to a goroutine and reports success |
| `ActionRetry.SensorContext.TriggerWithRateLimit` | pkg/sensors/listener.go:396-411 | one execution counts once, as triggered or failed, and is that step of the machine |
| `ActionRetry.SensorContext.Action` | pkg/sensors/listener.go:214-242 | the action function returns with its action over or left to a goroutine; a validated at-least-once action has kept all of the promises above |
| `ActionRetry.SensorContext.RunInBackground` | pkg/sensors/listener.go:377-392 | the goroutine of a fire-and-forget execution ends its action |
| `DeploymentVolumes.FindTypes` | pkg/shared/util/util.go:296-341 | the reflective search meets the selectors in an order the structure allows: parts of structures and slices in turn, map entries in any order |
| `DeploymentVolumes.WalkTally` | pkg/shared/util/util.go:304-341 | every such order has each selector exactly as often as it occurs |
| `DeploymentVolumes.UniqueHolds` | pkg/shared/util/util.go:379-389 | a selector's volume is kept exactly when it is the first met of its volume name |
| `DeploymentVolumes.UniqueBy` | pkg/shared/util/util.go:379-401 | the loop keeps the first element of each name |
| `DeploymentVolumes.UniqueOrderExactly` | pkg/shared/util/util.go:379-401 | de-duplicating all orders of the same elements keeps the same set if and only if no two different ones share a name |
| `DeploymentVolumes.VolumesFromSecretsOrConfigMaps` | pkg/shared/util/util.go:264-294 | volumes and mounts are those of the selectors found, one per name |
| `DeploymentVolumes.MountCertificates` | pkg/reconciler/eventsource/resource.go:274-308 | each certificate secret gets one volume and one mount holding all its keys, whatever the map order |
| `DeploymentVolumes.BuildVolumes` | pkg/reconciler/eventsource/resource.go:206-327 | the lists are sorted by name and consist of the fixed, certificate, secret and config map volumes of some walk |
| `DeploymentVolumes.BuildSelectors` | pkg/shared/util/util.go:264-401 | the Secret and ConfigMap volumes of a build name only selectors occurring in its inputs of that kind, and every volume name such a selector gives is covered |
| `DeploymentVolumes.BuildOthers` | pkg/reconciler/eventsource/resource.go:206-308 | the other volumes are the one for temporary files, the access secret's, and one per certificate secret with all keys wanted of it in order |
| `DeploymentVolumes.BuildMounts` | pkg/shared/util/util.go:145-175 | every volume is mounted, once per name, at the path where the pod reads that selector, and nothing else is |
| `DeploymentVolumes.BuildContentExactly` | pkg/reconciler/eventsource/resource.go:274-319 | all builds from the same inputs have the same volumes, order apart, if and only if for each volume name one selector at most can be met first |
| `DeploymentVolumes.BuildIsDeterministicExactly` | pkg/reconciler/eventsource/resource.go:274-327 | all builds from the same inputs give identical lists of volumes and mounts if and only if moreover no two of the resulting volumes share a name, equal names being sorted in any order |
| `DeploymentVolumes.DistinctNamesDetermine` | pkg/reconciler/eventsource/resource.go:274-327 | distinct names of all candidate volumes are enough |
| `DeploymentVolumes.UnderscoreClash` | pkg/shared/util/util.go:304-389 | in an event source two of whose events name the secrets `a_b` and `a-b`, each can be met first |
| `EventSourceReconciler.ExpectedIsGood` | pkg/reconciler/common/util.go:28-54 | a built Deployment carries the owner, the selection labels whatever labels the user gave, and the hash of its own content |
| `EventSourceReconciler.ExpectedServiceIsGood` | pkg/reconciler/eventsource/resource.go:423-478 | the same for a built Service, over user labels and annotations |
| `EventSourceReconciler.Cluster.ListDeployments` | pkg/reconciler/eventsource/resource.go:145-153 | a list call fails, or gives exactly the Deployments with the labels, in any order |
| `EventSourceReconciler.GetDeployment` | pkg/reconciler/eventsource/resource.go:145-160 | finds a controlled Deployment with the labels if there is one |
| `EventSourceReconciler.GetService` | pkg/reconciler/eventsource/resource.go:406-421 | finds a controlled Service with the labels if there is one |
| `EventSourceReconciler.BuildDeployment` | pkg/reconciler/eventsource/resource.go:162-346 | builds an expected Deployment, for some map order; what that holds is in the three rows below |
| `EventSourceReconciler.SelectorsMounted` | pkg/reconciler/eventsource/resource.go:220-319 | its Secret volumes name only secrets of the event source, and for Kafka of the bus, its ConfigMap volumes only config maps of the event source, and every volume name these give is covered |
| `EventSourceReconciler.BusMounted` | pkg/reconciler/eventsource/resource.go:220-308 | its other volumes are the one for temporary files, the access secret of the bus and the certificate secrets of the bus with their keys |
| `EventSourceReconciler.AllMounted` | pkg/reconciler/eventsource/resource.go:206-327 | every volume is mounted where the running pod looks for it, and nothing else is mounted |
| `EventSourceReconciler.DeploymentLabels` | pkg/reconciler/eventsource/resource.go:333-343 | a label the reconciler finds its objects by wins over the event source's |
| `EventSourceReconciler.ServiceContent` | pkg/reconciler/eventsource/resource.go:423-478 | a Service is asked for if and only if ports are configured; its labels are, first to last, those it is found by, the event source's and its own, and its annotations are kept |
| `EventSourceReconciler.Reconcile` | pkg/reconciler/eventsource/resource.go:32-143 | one run takes the namespace to a state the relation of runs allows, whichever calls fail, and marks the status deployed iff it succeeds |
| `EventSourceReconciler.ReconcileKeepsInv` | pkg/reconciler/eventsource/resource.go:32-143 | however a run ends, at most one Deployment is controlled, owned objects keep the selection labels, and each carries the hash of its own content |
| `EventSourceReconciler.OthersUntouched` | pkg/reconciler/eventsource/resource.go:32-160 | objects the event source does not control are unchanged and none is created |
| `EventSourceReconciler.SuccessSettles` | pkg/reconciler/eventsource/resource.go:67-143 | after success the Deployment has the expected hash; a Service exists iff ports are given, with the expected hash |
| `EventSourceReconciler.SucceedsExactly` | pkg/reconciler/eventsource/resource.go:32-143 | a run succeeds if and only if the bus is usable and no API call failed |
| `EventSourceReconciler.WritesExactly` | pkg/reconciler/eventsource/resource.go:73-139 | in a settled namespace a run that builds the same hash writes nothing, even if its calls fail; one that builds another hash and succeeds does write |
| `EventSourceReconciler.BuildsAgreeExactly` | pkg/reconciler/eventsource/resource.go:162-346 | all Deployments that builds may come to for one event source and bus agree, hash included, if and only if the inputs determine the volumes |
| `EventSourceReconciler.QuietExactly` | pkg/reconciler/eventsource/resource.go:73-139 | with injective hashing, runs for the same edition and bus leave a settled namespace unwritten if and only if the inputs determine the volumes |
| `EventSourceReconciler.UnderscoreClashRebuilds` | pkg/reconciler/eventsource/resource.go:310-313 | such an event source has two builds that mount different volumes, with different hashes if hashing is injective |
| `EventSourceReconciler.SettledContent` | pkg/reconciler/eventsource/resource.go:73-85 | if hashing is injective the settled Deployment is the built one, other annotations apart |
| `EventSourceReconciler.HistoryKeepsInv` | pkg/reconciler/eventsource/resource.go:32-143 | over every history of edits, failing runs and other parties' actions, the invariant above holds |
| `EventSourceReconciler.EachSuccessSettles` | pkg/reconciler/eventsource/resource.go:32-143 | after any history, one run without a failing call settles that edition of the event source |
| `EventSourceReconciler.NextRunWritesNothing` | pkg/reconciler/eventsource/resource.go:32-143 | if the inputs determine the volumes, the next run for the same edition and bus writes nothing, whatever the map orders and whatever others did meanwhile |
| `EventBusUpdates.UpdateExactly` | pkg/webhook/validator/eventbus.go:38-87 | an update of a valid bus is admitted iff its generation is unchanged, or the result is valid and keeps what its implementation fixes |
| `EventBusUpdates.ValidExactly` | pkg/reconciler/eventbus/validate.go:10-50 | the valid specifications, spelt out: something is given, NATS is native or exotic but not both, URLs and the JetStream version are not empty, and so on |
| `EventBusUpdates.JetStreamReplicasExactly` | pkg/reconciler/eventbus/validate.go:31-37 | a JetStream bus may have one replica or at least three, and not two |
| `EventBusUpdates.RunValid` | pkg/webhook/validator/eventbus.go:30-87 | over every run of admitted updates the bus stays valid |
| `EventBusUpdates.NatsAllAlong` | pkg/webhook/validator/eventbus.go:46-64 | a bus that is NATS now was NATS at every earlier step, same kind and effective authentication |
| `EventBusUpdates.StreamConfigFixed` | pkg/webhook/validator/eventbus.go:65-78 | while NATS is absent, a JetStream bus was JetStream all along with the same stream configuration |
| `EventBusUpdates.ImplementationNeverRises` | pkg/webhook/validator/eventbus.go:45-84 | over every run the implementation only moves down the order NATS, JetStream, exotic JetStream, Kafka |
| `EventBusUpdates.ImplementationChangesExactly` | pkg/webhook/validator/eventbus.go:38-87 | an update that changes the implementation of a valid bus is admitted if and only if the result is valid and its implementation is Kafka, or one the bus already listed below its present one, with the same stream configuration for JetStream |
| `EventBusUpdates.KafkaAlwaysAdmitted` | pkg/webhook/validator/eventbus.go:45-84 | every valid bus may be replaced by any valid Kafka bus |
| `EventBusUpdates.NatsBecomesKafka` | pkg/webhook/validator/eventbus.go:45-84 | for example a NATS bus in one admitted update |
| `EventBusUpdates.NatsBecomesJetStream` | pkg/webhook/validator/eventbus.go:45-78 | a bus listing NATS and JetStream becomes a JetStream bus by dropping NATS |
| `EventSourceValidation.GetEventingServers` | pkg/eventsources/eventing.go:77-389 | every configured source gets one server, and the name-keyed filters map holds, per name, the filter of the last kind that gives one |
| `EventSourceValidation.ValidateEventSource` | pkg/reconciler/eventsource/validate.go:12-56 | accepts iff names are unique across kinds, every source is valid and strategies do not mix, in every map order; the status agrees |
| `EventSourceValidation.IsRecreateType` | pkg/eventsources/eventing.go:418-435 | the decision is that of some configured kind, or not to recreate when there is none |
| `EventSourceValidation.DecisionExactly` | pkg/eventsources/eventing.go:418-435 | the decision does not depend on the entry picked if and only if strategies do not mix; it is then to recreate iff some kind asks for it |
| `EventSourceValidation.OneKindDecides` | pkg/eventsources/eventing.go:418-435 | an event source of one kind gets the decision of that kind: with a calendar it recreates, with a webhook it rolls |
| `EventSourceValidation.KindsRecreated` | pkg/apis/events/v1alpha1/const.go:50-72 | the kinds whose Deployment is recreated, spelt out |
| `EventSourceValidation.OwnFiltersExactly` | pkg/eventsources/eventing.go:549-560 | each server is given its own filter if and only if sources sharing a name ask for the same filter |
| `EventSourceValidation.FilterUsed` | pkg/eventsources/eventing.go:77-389 | when names are unique a source runs with the filter configured for it, or none; those of the kinds Minio, StorageGrid, Stripe and Resource always with none |
| `EventSourceValidation.AcceptedRunsAsConfigured` | pkg/reconciler/eventsource/validate.go:12-56 | for every accepted event source the strategy decision is unique and each server gets its own filter |

## Left out

- Daylight saving and zone databases: zones have fixed offsets, so the hour adjustment at pkg/shared/util/cronutil.go:76-82 has no effect and is not modelled; parsing cron strings.
- Width of Go's 64-bit times and counters.
- Internals of the libraries for expressions, JSON paths, templates, scripts, regular expressions and Lua: functions with the laws stated beside them; the expression library is modelled for string literals and names joined by plus.
- The branch of getDependencyExpression without a condition, which joins the names with `&&`.
- Nil events given to the filters, and the text of log lines.
- Steps between data filters that call scripts: a script is an uninterpreted verdict.
- Lines such as `EXDATE;TZID=...`, which the parser skips like any other line.
- Lua tables that contain themselves, on which toGoValue does not return, and Lua numbers that are NaN or infinite.
- The order sort.Slice gives to volumes of one name: any order is allowed, as its documentation says, and so in the last part of the condition for equal builds; the API server refuses such a pod anyway.
- Values that JSON decoding never yields but mapToTable accepts (int64, byte slices, times).
- Liveness of the daemon beyond the stuck state, and which connection a subscription ends up using.
- Deleting the ConfigMap while saves run. The save loop is modelled as steps of a machine, not as a method, because saves interleave between their API calls.
- Waiting times: back-off delays, rate limits and tickers only order steps. An action's attempts follow the documented behaviour of wait.ExponentialBackoff without a cap.
- What a trigger execution does (fetching, parameters, policy): its outcome is arbitrary. Conditions reset, leader election and the sensor reconciler, which is the event source reconciler without the Service.
- Stale reads: list calls see earlier writes. Nobody else edits controlled objects, other annotations of a Deployment excepted.
- SetObjectMeta edits an object in place; cluster objects here are values, so it is a function and aliasing is not modelled. Errors of marshalling and hashing.
- ConvertToDNSLabel, the pod template and the Service ports are uninterpreted functions of the event source and its bus; statements about a Deployment's content assume, where they say so, that hashing is injective.
- The kinds Minio, StorageGrid, Stripe and Resource have no event filter, so their sources never register one; the per-kind validations are arbitrary verdicts.
- TLS options, artifact readers and the per-trigger field checks of sensor validation other than those of dead-letter triggers.
