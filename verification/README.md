# cronflux in Dafny

A model of cronflux, a scheduler for cron jobs and job graphs, and proofs of what its parts
promise together: cron expressions are parsed into masks, masks drive the search for the next
fire time, fire times drive the dispatcher, the dispatcher feeds a store of leased runs, and
leased runs advance retries and dependent jobs.

## Layout

| files | contents |
|---|---|
| `Calendar`, `CronSchedule`, `CronNext`, `CronTotality`, `CronMeaning` | the proleptic Gregorian calendar, schedules, the walk of `SpecSchedule.Next`, when it can give up, and what it answers in terms of masks and calendar fields alone |
| `Text`, `CronField`, `CronParser`, `CronRoundTrip`, `CronExpressions`, `CronDescriptors`, `CronExamples` | string operations, field terms to masks, parsing, the grammar of fields, which field of an expression says what, predefined descriptors and names, and expressions that behave unexpectedly |
| `CatchUp`, `Materialise`, `Dependents`, `Dispatcher`, `DispatchCount`, `DispatchHistory`, `DependentSteps` | the dispatcher: its catch-up loop, its caches, the runs it creates and counts, what a whole history of passes achieves, and enqueueing dependents as protocol steps |
| `Ordering`, `Counting`, `MemoryStore`, `ClaimOrder`, `ClaimSteps` | the in-memory store, the order runs are claimed in, and a claim as protocol steps |
| `Digraph`, `JobGraph` | directed graphs, and Kahn's algorithm as `internal/job/dag.go` runs it |
| `JobModel`, `Backoff`, `Worker` | jobs and runs, retry delays, handling one claimed run, manual triggers |
| `Protocol`, `ProtocolLeases`, `ProtocolDisciplines`, `ProtocolInvariant`, `ProtocolRuns`, `ProtocolSteps`, `ProtocolUnique`, `ProtocolSlots`, `ProtocolTheorems`, `ProtocolOutcomes`, `ProtocolDrain`, `ProtocolLimits` | the run lifecycle as a step system, what leases guarantee, the invariant of any number of scheduler processes, what one process adds, cron slots, what every run guarantees, what outcomes record and how long retries wait, that batches can be drained, and what fails without a discipline |

`dafny verify dfyconfig.toml` checks everything.

## How things are represented

- A time is the number of nanoseconds since Go's zero time (1 January of year 1, UTC) and is unbounded; zero is Go's zero `time.Time`.
- A 64-bit mask is the set of its bit positions, `starBit` being position 63. The arithmetic that can wrap, `i += step` in the step loop, is written out modulo 2^64.
- Errors are `Option` or a Boolean; their text is not modelled.
- `time.ParseDuration`, the random draw of the backoff, the clock, the IDs from `newID` and the results of executors are parameters or free choices.
- `Next` is a method with the source's five loops. The jump to `WRAP` is the next round of the outer loop in `Next`.
- Concurrency is a step system (`Protocol.Enabled` and `Protocol.Apply`): each step is one store operation or one local step of a goroutine, and all interleavings are runs of the system. A goroutine works on the copy of the run it claimed, and its outcome overwrites whatever the store then holds, as `UpdateRun` does. Any number of scheduler processes may share the store; each goroutine has an owner, and each process has its own mutex and its own dispatcher. `Worker.ProcessIsSteps`, `Worker.TriggerIsStep`, `ClaimSteps.CallIsSteps`, `Materialise.RootIsSteps` and `DependentSteps.EnqueueIsSteps` connect the imperative code with the steps.

## Hypotheses

- `newID` returns IDs that are not in use. Job IDs, dependency IDs and batch IDs are not empty, because an empty filter field means "any".
- In the protocol, job definitions are fixed and the clock does not go back; a claim may use a time that is past. Within a process `enqueueDependents` is serialised by the mutex; everything else interleaves. What holds for any number of scheduler processes is proved for any number; that attempts and slots are not doubled, and what rests on it, for one (`OneProcess`).
- In the protocol, no crash or store error comes between an outcome and the retry or the dependents that belong to it. `CreateRun` failures of the dispatcher are modelled, both those that stored the run and those that did not.
- Nothing in the store fences an outcome. Most protocol theorems hold for runs in which an outcome is only written while the run is as its claim left it (`Fencing`); two disciplines are proved to imply it: every outcome is written before its lease expires (`Timeliness`), or a claim starts only when the previous claim's goroutines are done (`DrainBarrier`, which is what one scheduler does, however late its outcomes). With neither, a final outcome can be overwritten: `ProtocolLimits.LateOutcomeOverwrites` gives such a run for every job without retries, and `ProtocolLimits.OutcomesFinalIff` and `ProtocolLimits.StatesFinalIff` say exactly when outcomes stay.
- A dispatcher pass needs its catch-up loops to end. They end exactly when `Next` does not give up in the interval to be crossed (`CatchUp.LoopEndsIff`); `0 0 30 2 *` makes them run forever (`CronExamples.ThirtiethLoopsForever`).
- Delays are computed over the reals.

## Where code and comments differ

The model follows the code.

- `normalizeDow` is meant to make 7 another spelling of Sunday, but the field bound for the day of week ends at 6, so 7 is rejected (`CronExamples.SevenRejected`) and `normalizeDow` never changes anything (`CronParser.DowAlreadyNormal`).
- A step close to 2^64 wraps and sets bits outside the arithmetic progression of its term (`CronExamples.WrappedStep`); the mask is the progression exactly when `lo + step` stays below 2^64 (`CronField.TermDenotesProgressionIff`).
- `terminalStates` leaves out `failed`, but the scheduler never changes a failed run either (`ProtocolTheorems.OutcomesAreFinal`).
- `dispatch` says it returns how many runs were created; it counts the slots walked, including those that had a run already (`DispatchCount.CountsTakenSlot`); it is the number of runs created exactly when no slot walked had one (`DispatchCount.CountsCreatedIff`).
- A cron or triggered run ignores the job's dependencies, and dependents are enqueued even when they are disabled.
- The HTTP API accepts cyclic dependencies, so the protocol does not assume an acyclic job set.

## Model

| member | source | states |
|---|---|---|
| `CronNext.Next` | cron/spec.go:40-112 | for every schedule and time, the result is the least whole second strictly after t whose month, day rule, hour, minute and second all match; it is zero exactly when there is none up to the end of the fifth year after that of the first candidate; the walk ends |
| `CronNext.ActivationIsLeast` | cron/spec.go:33-35 | the reference search meets the same description, so it determines the result |
| `CronMeaning.NextAnswers` | cron/spec.go:40-124 | stated with masks, `Day`, `Weekday` and the other calendar fields only, for every schedule the parser can produce: an answer is a later whole second within the window, in permitted month, hour, minute and second, on a permitted weekday if the day of month is unrestricted, on a permitted day if the day of week is, and on one of the two otherwise; no such second is before it, and it is zero only if there is none |
| `CronMeaning.MatchesIff` | cron/spec.go:114-124 | when such a schedule fires: an unrestricted day field leaves the day to the other one, and of two restricted ones either will do |
| `CronMeaning.MonthLengths` | cron/spec.go:59-76 | months have 31 and 30 days in turn up to July and again from August, February 28 or 29 |
| `CronMeaning.WeekdaysAdvance` | cron/spec.go:116-124 | weekdays follow one another in a cycle of seven |
| `CronMeaning.NewYearWeekday` | cron/spec.go:116-124 | the weekday of 1 January of every year by the Gregorian formula, Sunday being 0 |
| `Calendar.FieldsOfDate` | cron/spec.go:59-81 | every date that exists has the fields it was made from |
| `Calendar.YearStartClosedForm` | cron/spec.go:48-52 | the days before a year are those of the Gregorian rule: 365 a year, one more every 4, not every 100, but every 400 years |
| `CronNext.AdvanceMonth` | cron/spec.go:56-65 | a month step from an aligned position misses no match, restores the alignment of the lower fields and stays before the limit year's end |
| `CronNext.AdvanceDay` | cron/spec.go:67-76 | the same for a day step |
| `CronNext.AdvanceHour` | cron/spec.go:78-87 | the same for an hour step |
| `CronNext.AdvanceMinute` | cron/spec.go:89-98 | the same for a minute step |
| `CronNext.AdvanceSecond` | cron/spec.go:100-109 | the same for a second step |
| `CronNext.SeekMonth` | cron/spec.go:56-65 | the month loop ends at a matching month before the limit, or moves forward and reports a wrap, and skips no match |
| `CronNext.SeekDay` | cron/spec.go:67-76 | the day loop, likewise |
| `CronNext.SeekHour` | cron/spec.go:78-87 | the hour loop, likewise |
| `CronNext.SeekMinute` | cron/spec.go:89-98 | the minute loop, likewise |
| `CronNext.SeekSecond` | cron/spec.go:100-109 | the second loop, likewise |
| `CronNext.Pass` | cron/spec.go:51-111 | one pass from `WRAP` either finds the least match or moves strictly forward without passing one |
| `CronTotality.NeverZeroIff` | cron/spec.go:29-31 | a schedule the parser can produce never makes `Next` give up exactly when its day of week carries no star bit or it permits a date of a common year |
| `CronTotality.FiresAgain` | cron/spec.go:114-124 | under that condition there is a match within the horizon from every time |
| `CronTotality.RunsDry` | cron/spec.go:51-54 | otherwise `Next` answers zero from every time whose search window holds common years only |
| `CronTotality.GivesUpIff` | cron/spec.go:51-54 | for such a schedule and every time: `Next` answers zero exactly when its search reaches no permitted second of a 29 February |
| `CronField.StepLoop` | cron/field.go:82-85 | the step loop ends for every non-zero 64-bit step, wrapping included, and sets exactly the bits it visits |
| `CronField.TermDenotesProgressionIff` | cron/field.go:82-85 | a term's mask is its arithmetic progression exactly when its first step does not wrap, lo + step < 2^64 |
| `CronField.ParseTerm` | cron/field.go:30-90 | a term is accepted exactly when it reads as a range within bounds with a non-zero step, and gives the mask of that range and step |
| `CronField.ParseField` | cron/field.go:17-27 | the field loop computes the union of its terms' masks, or fails if one does |
| `CronField.FieldIsUnion` | cron/field.go:17-27 | a value is permitted exactly when some term of the field permits it |
| `CronField.FieldAcceptedIff` | cron/field.go:17-27 | a field is accepted exactly when each of its terms is |
| `CronField.AcceptedField` | cron/field.go:75-89 | an accepted mask permits a value of the field's range and none above it, and the star bit implies the full range |
| `CronRoundTrip.ReadRendered` | cron/field.go:30-105 | every term of the grammar (`*`, `?`, numerals, names in any case, ranges, steps), printed, is read back as what it means, and rejected exactly when that is out of bounds |
| `CronRoundTrip.PlainTermMeans` | cron/field.go:49-90 | without a step, `*` and `?` permit the whole range and set the star bit, a value permits itself, and a range its values |
| `CronRoundTrip.SteppedTermMeans` | cron/field.go:32-85 | with a step n that does not wrap at once, a term permits every n-th value of the whole range, from a value to the end of the range, or of a range, and no star bit |
| `CronRoundTrip.AcceptedIsTerm` | cron/field.go:30-105 | nothing else is accepted: every accepted text is a term of the grammar, read as what it means |
| `CronRoundTrip.FieldRoundTrip` | cron/field.go:17-27 | a printed list of terms is accepted exactly when all are within bounds, and then permits exactly what the terms mean |
| `CronRoundTrip.NamesAreProper` | cron/names.go:4-12 | every name of a month or weekday is made of letters and stands for a value of its field |
| `CronDescriptors.MonthTable` | cron/names.go:4-7 | jan to dec, in any mixture of small letters and capitals, are read as 1 to 12 in calendar order |
| `CronDescriptors.WeekdayTable` | cron/names.go:10-12 | sun to sat are read as 0 to 6 |
| `Text.LowerLetters` | cron/field.go:96 | lower case leaves small letters alone and makes capitals small |
| `CronExpressions.FieldRanges` | cron/bounds.go:14-19 | the smallest and largest value of each of the six fields |
| `CronExpressions.ExpressionRoundTrip` | cron/parser.go:17-85 | five or six lists of terms, printed and joined by blanks: `Parse` accepts the text exactly when every term is valid for the bounds of its position, and then minute, hour, day of month, month and day of week permit exactly what the terms of their own field mean, and so do the seconds, which are {0} with five fields |
| `CronDescriptors.DescriptorFires` | cron/parser.go:28-48 | `@hourly` fires at second and minute 0, `@daily` and `@midnight` also at hour 0, `@weekly` on Sundays, `@monthly` on the first, `@yearly` and `@annually` on 1 January, and at no other second |
| `CronDescriptors.UnknownDescriptor` | cron/parser.go:40-48 | any other text that begins with an at sign and is not `@every` is rejected |
| `CronDescriptors.EveryParsed` | cron/constant.go:31-42 | `@every` and a text is accepted exactly when that is a positive duration, and gives its interval |
| `CronParser.ParseSurrounded` | cron/parser.go:18 | white space around an expression does not matter |
| `Text.FieldsConcat` | cron/parser.go:25 | white space separates fields, however much there is of it |
| `CronExamples.ThirtiethLoopsForever` | cron/spec.go:29-31 | the accepted expression `0 0 30 2 *` never fires, and its catch-up loop never ends |
| `CronExamples.ThirtiethParsed` | cron/parser.go:12-26 | it is the schedule `Parse` gives for the string `0 0 30 2 *` |
| `CronExamples.SevenRejected` | cron/parser.go:87-94 | the day of week 7 is rejected |
| `CronExamples.WrappedStep` | cron/field.go:82-85 | the minute field `7/18446744073709551615` is accepted and permits 6, which is not in its progression |
| `CronParser.ParseFields` | cron/parser.go:51-85 | computes the schedule of five or six fields and rejects every other number of them; what that schedule is, `CronExpressions.ExpressionRoundTrip` says |
| `CronParser.DowAlreadyNormal` | cron/parser.go:87-94 | folding Sunday changes no mask the parser builds |
| `CronParser.ParsedIsAccepted` | cron/parser.go:51-85 | every field of a schedule the parser builds permits a value of its range, and an unrestricted day field all of them |
| `CronParser.ParsedNeverZeroIff` | cron/parser.go:51-85 | the exact condition on an accepted expression for `Next` never to give up |
| `CronParser.ParseGivesAccepted` | cron/parser.go:17-48 | the same for every cron schedule from an expression or a descriptor |
| `CronParser.ParseJoined` | cron/parser.go:17-26 | fields joined by blanks are read back field by field |
| `CronParser.Every` | cron/constant.go:18-24 | the interval is a whole number of seconds, at least one, and the largest such not above d |
| `CronParser.IntervalSpacing` | cron/constant.go:26-29 | the next activation is exactly one interval after the second t falls in, hence on a whole second and after t, and they are one interval apart |
| `CatchUp.LoopEndsIff` | internal/scheduler/dispatcher.go:62-68 | the catch-up loop ends exactly when the schedule has an answer from every time it has to cross |
| `CatchUp.CacheIsFresh` | internal/scheduler/dispatcher.go:56-69 | the fire time left in the cache is the one a fresh computation at `now` gives |
| `CatchUp.WalkIsActivations` | internal/scheduler/dispatcher.go:62-68 | the slots walked are exactly the activations since the cached instant up to now, ascending |
| `CatchUp.TickPartition` | internal/scheduler/dispatcher.go:39-72 | how the time line is cut into ticks does not matter |
| `CronCatchUp.CronLaws` | cron/spec.go:40-112 | cron schedules satisfy the laws the catch-up results rest on |
| `CronCatchUp.IntervalLaws` | cron/constant.go:26-29 | an interval schedule always has a later answer, and its catch-up loop always ends |
| `CronCatchUp.CronLoopEndsIff` | internal/scheduler/dispatcher.go:62-68 | the catch-up loop of a cron job ends exactly when no `Next` in between gives up |
| `CronCatchUp.AlwaysEndsIff` | internal/scheduler/dispatcher.go:62-68 | it ends from every cached time at every instant exactly when the schedule never runs dry |
| `CronCatchUp.TicksVisitActivations` | internal/scheduler/dispatcher.go:39-72 | any non-decreasing ticks walk exactly the activations after the first sighting, once each in order, and leave a fresh fire time |
| `Materialise.OnePerSlot` | internal/scheduler/dispatcher.go:87-112 | over any number of passes, from whatever caches and failures, and with other writers between them, at most one run is created for a slot of a job |
| `Materialise.GrowsTwice` | internal/scheduler/dispatcher.go:87-112 | what two consecutive steps create adds up, still with at most one run per slot and none where there was one |
| `Materialise.RootIsSteps` | internal/scheduler/dispatcher.go:91-112 | creating a root is a slot check and a write of the protocol, with the same effect on the runs |
| `Dispatcher.Dispatcher.ScheduleFor` | internal/scheduler/dispatcher.go:75-85 | a schedule is parsed once and then taken from the cache; failures are not cached |
| `Dispatcher.Dispatcher.EnqueueRoot` | internal/scheduler/dispatcher.go:91-112 | does nothing if the job has a run for the slot; otherwise at most one pending first attempt in a batch of its own is added, whether or not an error is reported; without error the slot has a run |
| `Dispatcher.Dispatcher.EnqueueDue` | internal/scheduler/dispatcher.go:62-68 | without error all slots up to now have runs and the next fire time is past now; new runs are for walked slots only |
| `Dispatcher.Dispatcher.Visit` | internal/scheduler/dispatcher.go:47-69 | one job's turn: first sighting seeds the next fire time, an error leaves it where it was, other jobs' entries do not change |
| `Dispatcher.Dispatcher.Dispatch` | internal/scheduler/dispatcher.go:39-72 | a pass in ID order up to the first error: jobs before it are caught up, all other cached fire times stay, runs are created only for walked slots; disabled jobs and jobs without an expression get no run and keep their cache entries, error or not; the count is of the slots walked, with an error of those enqueued before it |
| `Dispatcher.UnscheduledSkipped` | internal/scheduler/dispatcher.go:47-49 | whatever a pass does, with or without error, it adds no run of a listed job that is disabled or has no expression, and changes neither its cached fire time nor its cached schedule |
| `DispatchCount.CountConserved` | internal/scheduler/dispatcher.go:45-71 | an error-free pass returns the number of runs it created plus the number of walked slots that had a run already |
| `DispatchCount.CountsCreatedIff` | internal/scheduler/dispatcher.go:35-38 | so it returns the number of runs created exactly when no walked slot had a run before |
| `DispatchCount.CountsTakenSlot` | internal/scheduler/dispatcher.go:35-38 | a pass that returns one and creates no run |
| `Dispatcher.Dispatcher.DepsSatisfied` | internal/scheduler/dispatcher.go:158-178 | true exactly when every dependency has a succeeded run in the batch |
| `Dispatcher.Dispatcher.EnqueueDependents` | internal/scheduler/dispatcher.go:117-154 | creates one first attempt in the batch for each job that the completed run lets start and that has no run there, and nothing else |
| `Dependents.SuccessesStay` | internal/scheduler/dispatcher.go:117-154 | creating dependents makes no job succeed |
| `Dependents.OrderDoesNotMatter` | internal/scheduler/dispatcher.go:117-154 | whatever order the jobs are looked at in, the same ones get a run |
| `Dependents.NothingLeft` | internal/scheduler/dispatcher.go:114-116 | after an error-free call, a second one for the same run finds no job to start |
| `DependentSteps.EnqueueIsSteps` | internal/scheduler/scheduler.go:162-165 | an undisturbed, error-free call is a legal sequence of steps of its goroutine from taking the mutex to releasing it, with the same effect on the runs |
| `DispatchHistory.DispatchIsPass` | internal/scheduler/dispatcher.go:39-72 | what `Dispatch` ensures makes it a pass of a history, for every cron job it lists |
| `DispatchHistory.NothingMissed` | internal/scheduler/dispatcher.go:39-72 | over every history of passes with any failures, the cached fire time is the fresh one as of the last good pass and every activation from the first sighting up to then has a run |
| `DispatchHistory.WalksSinceLastGood` | internal/scheduler/dispatcher.go:56-68 | each pass of such a history walks exactly the activations since the last good pass before it |
| `DispatchHistory.WalkedOnce` | internal/scheduler/dispatcher.go:62-69 | what a good pass has walked is never walked again |
| `MemoryStore.Collect` | internal/store/memory/memory.go:114-132 | whatever order the map is iterated in, the result lists the selected values once each in the given order |
| `MemoryStore.ListingUnique` | internal/store/memory/memory.go:127-132 | two listings of the same runs or jobs are equal, so the order the map is iterated in does not show |
| `MemoryStore.OrdersAreStrict` | internal/store/memory/memory.go:161-166 | the three orders never tie two different runs or jobs |
| `MemoryStore.Store.PutJob` | internal/store/memory/memory.go:35-40 | inserts or replaces the job under its ID, keeping the store consistent |
| `MemoryStore.Store.CreateRun` | internal/store/memory/memory.go:80-85 | stores the run under its ID, overwriting a run that has it |
| `MemoryStore.Store.UpdateRun` | internal/store/memory/memory.go:99-107 | replaces an existing run with no check of who holds it, or reports that there is none |
| `MemoryStore.Store.ListJobs` | internal/store/memory/memory.go:54-63 | every job once, by ID |
| `MemoryStore.Store.ListRuns` | internal/store/memory/memory.go:110-144 | the requested page of the runs with the job, batch and state asked for, `createdAt` descending and then IDs descending; without offset and limit all of them |
| `MemoryStore.ListingMeans` | internal/store/memory/memory.go:114-132 | the full listing holds exactly the runs with the job, batch and state asked for, newest first and at equal times by descending ID |
| `MemoryStore.PageMeans` | internal/store/memory/memory.go:133-143 | a page is the part of the listing from a positive offset on, of at most a positive limit |
| `Ordering.LessMeans` | internal/store/memory/memory.go:165 | strings are compared at the first position where they differ, a prefix being smaller |
| `MemoryStore.Store.ClaimDue` | internal/store/memory/memory.go:148-185 | leases exactly the first runs of the ready ones in due order, returns them in the order of `ScheduledFor` and then ID, running under the worker until now + lease and started now unless earlier, and leaves all others unchanged |
| `ClaimOrder.ClaimedIff` | internal/store/memory/memory.go:161-169 | a call with a positive limit takes a run exactly when it is ready with fewer than limit ready runs ahead by (ScheduledFor, ID) |
| `ClaimOrder.TakesEarliest` | internal/store/memory/memory.go:161-169 | if a call takes a run and leaves a ready one, the taken one is due no later, and at equal times has the smaller ID |
| `ClaimOrder.TakenIsReady` | internal/store/memory/memory.go:152-160 | only pending runs that are due and running ones whose lease has expired are taken |
| `ClaimOrder.NoLimit` | internal/store/memory/memory.go:167-169 | without a positive limit every ready run is taken |
| `ClaimOrder.MovesUp` | internal/store/memory/memory.go:161-183 | a ready run that is not taken is unchanged and has limit fewer ready runs ahead |
| `ClaimOrder.BoundedWait` | internal/store/memory/memory.go:148-185 | a run with n ready runs ahead is taken by call floor(n / limit) + 1 unless a run ahead of it becomes newly ready |
| `ClaimSteps.CallIsSteps` | internal/store/memory/memory.go:171-183 | a `ClaimDue` call is a legal sequence of claim steps of the protocol with the same effect and one goroutine per run |
| `Worker.Process` | internal/scheduler/worker.go:25-101 | records success, failure with a retry, or death by the attempt number, field by field; the retry is the next attempt, pending, created at the finish and due the backoff's delay for the failed attempt after it; a shutdown leaves the run leased; a missing job or run changes nothing |
| `Worker.ProcessIsSteps` | internal/scheduler/worker.go:25-101 | handling a held run undisturbed is a legal sequence of protocol steps with the same effect |
| `Worker.Trigger` | internal/scheduler/scheduler.go:177-196 | a pending first attempt of a known job in the given batch, due now, is stored and returned; an unknown job changes nothing |
| `Worker.TriggerIsStep` | internal/scheduler/scheduler.go:177-196 | the same write is a legal step of the protocol |
| `JobGraph.Graph.AddNode` | internal/job/dag.go:32-40 | adds the node and changes no edge |
| `JobGraph.Graph.AddEdge` | internal/job/dag.go:44-49 | adds the edge and its ends; parents and children stay mirror images |
| `JobGraph.Kahn` | internal/job/dag.go:72-97 | always takes the smallest available node, until none is available, whatever the map order |
| `JobGraph.Release` | internal/job/dag.go:91-96 | the counts stay the numbers of unfinished parents and the queue stays the set of available nodes |
| `JobGraph.Graph.TopoSort` | internal/job/dag.go:72-103 | succeeds exactly when there is no directed cycle; the result is a topological order and the lexicographically smallest one |
| `Digraph.GreedyIsLeast` | internal/job/dag.go:69-71 | always taking the smallest available node gives an order no later than any topological order |
| `Digraph.NothingAvailable` | internal/job/dag.go:99-101 | if nodes are left and none is available, there is a cycle |
| `Digraph.TopologicalIsAcyclic` | internal/job/dag.go:99-102 | a graph with a topological order has no cycle |
| `JobGraph.BuildGraph` | internal/job/dag.go:108-127 | succeeds exactly when all dependencies are known and acyclic, says which of the two failed, and builds exactly the declared graph |
| `Backoff.GrowthRecurrence` | backoff/backoff.go:55-58 | d(n+1) is factor * d(n), the factor being 2 unless it exceeds 1, cut at Max when that is positive |
| `Backoff.FirstDelay` | backoff/backoff.go:46-73 | without jitter the first delay is the base, 100 ms if that is not positive, cut at a positive Max and the largest duration |
| `Backoff.DelayNearGrowth` | backoff/backoff.go:55-72 | a delay that cannot saturate is the growth in whole nanoseconds, shortened by at most the jitter's fraction of it |
| `Backoff.GrowthMonotone` | backoff/backoff.go:55-58 | the delay before jitter does not decrease with the attempt |
| `Backoff.JitterBounds` | backoff/backoff.go:59-66 | jitter stays between (1 - j) * d, which is not negative, and d |
| `Backoff.DelayMonotone` | backoff/backoff.go:42-73 | without jitter the delay in nanoseconds does not decrease with the attempt |
| `Backoff.DelayBounds` | backoff/backoff.go:67-72 | the delay is never negative, never above the largest duration and never above a positive Max |
| `ProtocolLeases.LeaseStep` | internal/store/memory/memory.go:148-185 | every step of every process keeps what holds of runs, claims and leases, with no discipline |
| `ProtocolSteps.StepKeepsInv` | internal/scheduler/scheduler.go:130-173 | every fenced step of any number of processes keeps the invariant |
| `ProtocolSteps.Reachable` | internal/scheduler/scheduler.go:120-173 | the invariant holds in every state that any number of fenced processes reach |
| `ProtocolUnique.UniqueStep` | internal/scheduler/scheduler.go:162-169 | every fenced step of one process keeps attempts unique: what a goroutine is about to create is not there yet, and the mutex is held once |
| `ProtocolUnique.UniqueReachable` | internal/scheduler/scheduler.go:120-173 | so they are in every state that one process reaches |
| `ProtocolDisciplines.TimelyIsFenced` | internal/scheduler/worker.go:51-80 | for any number of processes, if every outcome is written before its lease expires, every outcome write finds the run as its claim left it |
| `ProtocolDisciplines.BarrierIsFenced` | internal/scheduler/scheduler.go:141-172 | so it does if a claim starts only when the goroutines of the last one are done, as in one scheduler, however late they are |
| `ProtocolTheorems.LeaseSafety` | internal/store/memory/memory.go:148-185 | for any number of processes with timely outcomes, a live claim is the only one of its run, and the run is running as that claim left it |
| `ProtocolTheorems.TimelyOutcomesAreFinal` | internal/job/state.go:17-22 | and no run is lost, and succeeded, failed and dead are never left |
| `ProtocolTheorems.NoLostWakeUp` | internal/scheduler/scheduler.go:157-169 | for any number of processes, at every point: a job whose dependencies all succeeded in a batch has a run there or a goroutine that recorded one of those successes has yet to look at it |
| `ProtocolTheorems.NoDuplicates` | internal/scheduler/dispatcher.go:122-152 | with one process, a batch never has two runs of a job with the same attempt number |
| `ProtocolTheorems.DagSafety` | internal/scheduler/dispatcher.go:117-178 | for any number of processes, every run of another job than the batch's first one has all its dependencies succeeded in the batch |
| `ProtocolTheorems.RetryChain` | internal/scheduler/worker.go:62-101 | the runs of a job in a batch are attempts 0 to k once each, all before k failed, and k failed only while its retry is being created |
| `ProtocolTheorems.RetriesAreLater` | internal/scheduler/worker.go:85-96 | `ScheduledFor` never decreases along a retry chain |
| `ProtocolOutcomes.RetryIsDelayed` | internal/scheduler/worker.go:85-96 | with one process, of two consecutive attempts the earlier failed with a finish time, and the later is due a delay after it that the job's backoff gives for the earlier attempt |
| `ProtocolOutcomes.RetryAfterFailure` | internal/scheduler/worker.go:85-96 | with any number of processes, every attempt after the first was created when the attempt before it failed, and is due such a delay later |
| `ProtocolOutcomes.OutcomesRecorded` | internal/scheduler/worker.go:51-80 | every finished run has its finish time, a succeeded one no error, a failed one retries left and a dead one none |
| `ProtocolTheorems.OutcomesAreFinal` | internal/job/state.go:17-22 | the same for any number of processes whose outcomes are fenced |
| `ProtocolTheorems.ExecutedBeforeOver` | internal/scheduler/worker.go:38-80 | with any processes and no discipline, a run is over only after it was executed at least once |
| `ProtocolTheorems.Redelivery` | internal/store/memory/memory.go:152-160 | under every discipline, a run that is not over can be claimed by any process at every time past its due time and lease (behind the drain barrier, once the goroutines of the last claim are done) |
| `ProtocolSlots.SlotsUniqueIff` | internal/scheduler/dispatcher.go:91-112 | under every discipline and for any number of processes, each cron slot has at most one run throughout exactly when every dispatcher still finds its slot free when it writes |
| `ProtocolSlots.OneRunPerSlot` | internal/scheduler/dispatcher.go:91-112 | with one process and under every discipline, at most one run is created for a cron slot of a job, over any interleaving, failures and cache contents |
| `ProtocolTheorems.BatchBound` | internal/scheduler/worker.go:62-81 | a batch never has more runs than its jobs have attempts, even if dependencies form cycles |
| `ProtocolTheorems.CreationStops` | internal/scheduler/worker.go:62-81 | however long a run of the system, at most that many of its steps create a run in the batch |
| `ProtocolTheorems.DrainedBatch` | internal/scheduler/dispatcher.go:117-169 | for any number of processes, a drained batch ran exactly the least set of jobs closed under "all dependencies ran and succeed" that has its first job |
| `ProtocolTheorems.Confluence` | internal/scheduler/scheduler.go:143-172 | every two interleavings, of any numbers of processes, that drain a batch from the same first job with the same outcomes ran the same jobs |
| `ProtocolDrain.CanDrain` | internal/scheduler/scheduler.go:143-172 | from every state one process reaches, and however each job is to end, some continuation drains the batch: neither the mutex nor the retries block it |
| `ProtocolLimits.LateOutcomeOverwrites` | internal/store/memory/memory.go:98-107 | without a discipline a succeeded run can become dead |
| `ProtocolLimits.TwoDispatchersTwoRuns` | internal/scheduler/dispatcher.go:91-112 | under every discipline, two processes can create two runs for one slot, so uniqueness is promised for one process |
| `ProtocolLimits.OutcomesFinalIff` | internal/store/memory/memory.go:98-107 | without a discipline finished runs stay as they are throughout a run of the system exactly when no outcome is written to a run that has one |
| `ProtocolLimits.StatesFinalIff` | internal/job/state.go:17-22 | and succeeded, failed and dead are never left exactly when no outcome is written to a run that has a different one |

## Left out

- HTTP API, dashboard, health probes, logging, metrics and the backlog gauges: presentation and input/output only.
- The PostgreSQL store: its meaning lies in SQL and row locks.
- Configuration, JSON job files and build information.
- Executors and timeouts: an execution succeeds, fails or is abandoned, freely chosen.
- Locations other than UTC and daylight saving: the dispatcher parses in UTC, and the zone rules are outside the repository.
- Rounding, infinities and overflow of floating-point numbers in the backoff; overflow of `time.Time` and `time.Duration` additions.
- `time.ParseDuration` and the text of error messages.
- Several schedulers sharing one store in the dispatcher and in `enqueueDependents`: the check and the write are not atomic between processes, so uniqueness of roots and dependents is claimed for one scheduler process only (`ProtocolLimits.TwoDispatchersTwoRuns` shows two processes creating two runs for a slot).
- The `skipped` state: nothing in the scheduler assigns it.
- Crashes and store errors between an outcome and the retry or the dependents that belong to it, in the protocol; errors of `ListRuns` and `ListJobs`, which the in-memory store never reports, in the dispatcher.
- Changes to jobs while the scheduler runs: the cache of parsed schedules is never invalidated, so they would take effect only in part.
- `Graph.Dependencies`, `Graph.Dependents`, the store's `DeleteJob`, `GetRun` and `Close`, and cloning: they would only add easy members.
