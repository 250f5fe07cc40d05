# CPU-scheduling simulator: the scheduling engine in Dafny

This project models the deterministic core of a Java CPU-scheduling simulator. It
also proves what that core promises. The core is made of these parts:

- **Job reader.** It turns the lines of a job file (`id:burst:priority;memory`) into
  process control blocks in the job queue. It accepts at most 30 jobs and at most
  2048 MB of memory requests in total.
- **Loader.** It admits queued jobs to the ready queue once the memory manager has
  reserved their memory.
- **Three schedulers.** Each one runs the admitted jobs on a logical clock:
  - shortest job first;
  - round robin with a quantum of 7;
  - priority scheduling with starvation detection and aging.
- **Scheduling result.** A run ends in a result that yields:
  - per-process reports;
  - a starvation map;
  - an ASCII Gantt chart.

The model keeps the form of the Java code:

- **Classes.** Objects whose fields the Java code updates in place are Dafny classes
  with the same fields: the process control block, the memory manager, the clock, the
  loader, and the simulation context.
- **PcbView.** `ProcessControl.PcbView` is the value snapshot of a block's fields.
  Each mutator is specified by a pure transition function on that snapshot:
  `Readied`, `Dispatched`, `Consumed`, `Completed`, `Starved`, `Boosted`,
  `PriorityReset`.
- **Methods.** The loops of the schedulers, the loader, the reader, `boostPriority`,
  `applyAging` and the result builders are methods with loop invariants.
- **Policy functions.** Each scheduler's run is proved against a pure function that
  gives the whole schedule: `Sjf.SjfSchedule`, `RoundRobin.RrSchedule`,
  `Priority.PrioritySchedule`. The schedule is the slices, the completed blocks'
  fields in completion order, and the final clock time. The lemmas about these
  functions state the promised properties: selection order, permutation, timeline
  without overlaps, quantum bound, CPU time per process, and failure exactly on a
  negative remaining time.

### Modelling decisions

- **Admitted queue.** A scheduler run starts from an already-admitted ready queue,
  with the reader and the loader finished. Under that precondition `canTerminate`
  becomes "all jobs completed and the ready queue empty".
- **Blocking calls.** The waits of the Java code become preconditions or
  deterministic choices:
  - `allocateBlocking`'s wait becomes the precondition `used + requested <= total`.
  - `takeNextReady(timeout)` returns the head of the ready queue, or nothing when it
    is empty.
- **Java `int` values.** They are unbounded integers. The reader's memory sum is
  the one exception: Java's wrapping `int` sum is written out in
  `JobReading.IngestAsWritten`, a finding shows where it goes wrong (see
  "## Findings"), and the reader methods run the corrected, unbounded sum.
- **Exception or failure.** A negative remaining time makes `clock.advance` throw.
  The model returns `Failure(NegativeDelta)` from the run and from the policy
  function.
- **Line separator.** The platform line separator of the Gantt chart is a parameter.
- **Requeue degree.** Round robin passes the allocated-process count to
  `markRequeued`; `markReady` ignores it because `initialAdmission` is false
  (`RoundRobin.RequeueIgnoresDegree`).

## Model

| member | source | states |
|---|---|---|
| ProcessControl.Created | submission/src/simulator/core/ProcessControlBlock.java:51-60 | A new block is NEW, with dynamic priority equal to its base priority and remaining time equal to its burst. Start, completion, response and admission times are -1. remaining + executed == burst, and it has no starvation events. |
| ProcessControl.ProcessControlBlock.constructor | submission/src/simulator/core/ProcessControlBlock.java:51-60 | The fields of the object built are exactly `Created` of its arguments. |
| ProcessControl.Queued | submission/src/simulator/core/ProcessControlBlock.java:65-67 | Only the state changes, to JOB_QUEUED. |
| ProcessControl.ProcessControlBlock.MarkQueued | submission/src/simulator/core/ProcessControlBlock.java:65-67 | The new fields are `Queued` of the old fields. |
| ProcessControl.Readied | submission/src/simulator/core/ProcessControlBlock.java:72-79 | The state is READY and lastReadyTimestamp is t. The admission time and degree are set only on an initial admission of a block not yet admitted, and are kept otherwise. Nothing else changes. |
| ProcessControl.ProcessControlBlock.MarkReady | submission/src/simulator/core/ProcessControlBlock.java:72-79 | The new fields are `Readied` of the old fields and the arguments. |
| ProcessControl.Dispatched | submission/src/simulator/core/ProcessControlBlock.java:84-93 | The state is RUNNING and waitingTime grows by t - lastReadyTimestamp. Start time and response time (t - arrival) are set on the first dispatch only. Nothing else changes. |
| ProcessControl.ProcessControlBlock.MarkDispatched | submission/src/simulator/core/ProcessControlBlock.java:84-93 | The new fields are `Dispatched` of the old fields. |
| ProcessControl.Granted | submission/src/simulator/core/ProcessControlBlock.java:99 | The CPU time granted is the smaller of the request and the remaining time. |
| ProcessControl.Consumed | submission/src/simulator/core/ProcessControlBlock.java:98-103 | Remaining time falls and executed time rises by the grant, so their sum is kept. Remaining time that is not negative stays so, and is 0 once the request covers it. Nothing else changes. |
| ProcessControl.ProcessControlBlock.ConsumeCpu | submission/src/simulator/core/ProcessControlBlock.java:98-103 | It returns the grant, and the new fields are `Consumed` of the old fields. |
| ProcessControl.ProcessControlBlock.MarkRequeued | submission/src/simulator/core/ProcessControlBlock.java:108-110 | The new fields are `Readied` with initialAdmission false, so the admission metadata is unchanged. |
| ProcessControl.Completed | submission/src/simulator/core/ProcessControlBlock.java:115-119 | The state is TERMINATED, completionTime is t and turnaroundTime is t - arrival. Nothing else changes. |
| ProcessControl.ProcessControlBlock.MarkCompleted | submission/src/simulator/core/ProcessControlBlock.java:115-119 | The new fields are `Completed` of the old fields. |
| ProcessControl.Starved | submission/src/simulator/core/ProcessControlBlock.java:124-129 | The flag is set and exactly one event text is appended, on every call. Nothing else changes. |
| ProcessControl.StarvationEventText | submission/src/simulator/core/ProcessControlBlock.java:128 | The text of one starvation event, built from the process id and the time waited. Starved and AgeEffect state that each flagging appends exactly this text. |
| ProcessControl.ProcessControlBlock.MarkStarvation | submission/src/simulator/core/ProcessControlBlock.java:124-129 | The new fields are `Starved` of the old fields. |
| ProcessControl.Boosted | submission/src/simulator/core/ProcessControlBlock.java:134-144 | A delta of 0 or less changes nothing. Otherwise a priority at or below 128 ends at min(128, p + delta), and one above 128 is unchanged. The boost count grows by exactly the increments applied. Nothing else changes. |
| ProcessControl.ProcessControlBlock.BoostPriority | submission/src/simulator/core/ProcessControlBlock.java:134-144 | The counting loop leaves `Boosted` of the old fields. |
| ProcessControl.PriorityReset | submission/src/simulator/core/ProcessControlBlock.java:230-233 | The dynamic priority is back to the base priority and the boost count is 0. Nothing else changes. |
| ProcessControl.ProcessControlBlock.ResetDynamicPriority | submission/src/simulator/core/ProcessControlBlock.java:230-233 | The new fields are `PriorityReset` of the old fields. |
| ProcessControl.RunToCompletion | simulator/scheduler/SjfScheduler.java:54-61 | In a non-preemptive dispatch at `start`, the block ends TERMINATED with 0 remaining. Its completion time is start + remaining, and turnaround is completion - arrival. It waited start - lastReady more, and its response time is set on a first dispatch. A job never preempted has waiting == turnaround - burst, and its turnaround is at least its burst. |
| ProcessControl.CallsConserveCpu | submission/src/simulator/core/ProcessControlBlock.java:98-103 | Under any sequence of mutator calls, remaining + executed stays equal to the burst. The workload fields never change, and a remaining time that is not negative never becomes negative. |
| ProcessControl.CallsKeepSetOnceFields | submission/src/simulator/core/ProcessControlBlock.java:72-91 | Under any sequence of calls, start time, response time and admission time/degree never change once set. |
| ProcessControl.CallsKeepPriorityBounds | submission/src/simulator/core/ProcessControlBlock.java:134-144 | Under any sequence of calls, dynamic priority - boost count == base priority. The priority stays at most 128 when it and the base priority start there. |
| ProcessControl.CallsCountStarvationEvents | submission/src/simulator/core/ProcessControlBlock.java:124-129 | Every markStarvation call appends one event and earlier events are kept. The flag is set exactly when it was set before or some such call was made. |
| Memory.MemoryManager.constructor | simulator/memory/MemoryManager.java:19-22 | The manager starts with the given total, an empty table and 0 used. It is consistent when the total is not negative. |
| Memory.MemoryManager.AllocateBlocking | simulator/memory/MemoryManager.java:27-35 | Once the request fits, used grows by exactly the request and stays at most the total, and the table maps the pid to the request. The count grows by one for a fresh pid. Consistency (used == sum of the table) is kept for a fresh pid. |
| Memory.MemoryManager.Release | simulator/memory/MemoryManager.java:40-50 | An absent pid changes nothing. A present pid's entry is removed, the count falls by one, and used falls by its amount, clamped at 0. Consistency is kept. |
| Memory.MemoryManager.UsedMemory | simulator/memory/MemoryManager.java:52-54 | getUsedMemory: the memory now allocated. Reading it changes nothing; the manager's invariant keeps it the sum of the table's entries, within the total. |
| Memory.MemoryManager.AllocatedProcessCount | simulator/memory/MemoryManager.java:60-62 | getAllocatedProcessCount: the number of resident processes, the size of the allocation table. |
| Memory.SumRemove | simulator/memory/MemoryManager.java:41-43 | Removing an entry takes its amount off the sum of the table. |
| Memory.SumPut | simulator/memory/MemoryManager.java:32-33 | Adding an entry for a fresh pid adds its amount to the sum of the table. |
| Memory.SumNonNegative | simulator/memory/MemoryManager.java:40-50 | A table of amounts that are not negative has a sum that is not negative. |
| Clock.SimulationClock.constructor | simulator/core/SimulationClock.java:9 | Time starts at 0. |
| Clock.SimulationClock.Advance | simulator/core/SimulationClock.java:21-26 | A negative delta fails and leaves the time unchanged. Any other delta returns old + delta, which becomes the time. Time never decreases. |
| Clock.SimulationClock.GetTime | simulator/core/SimulationClock.java:14-16 | getTime: the current simulated time. Reading it changes nothing. |
| ExecutionSlices.TimelineAppend | submission/src/simulator/core/ExecutionSlice.java:11-31 | A slice that starts where a gap-free timeline ends extends it to its own end. |
| ExecutionSlices.TimelineConcat | submission/src/simulator/core/ExecutionSlice.java:11-31 | Two timelines that meet form one timeline. |
| ExecutionSlices.TimelineSpan | submission/src/simulator/core/ExecutionSlice.java:29-31 | A timeline from t0 to t1 has t0 <= t1, and its durations add up to t1 - t0. |
| ExecutionSlices.TimelineBounds | submission/src/simulator/core/ExecutionSlice.java:11-31 | Every slice of a timeline from t0 to t1 lies within [t0, t1] and does not run backwards. |
| ExecutionSlices.TimelineNoOverlap | submission/src/simulator/core/ExecutionSlice.java:11-31 | An earlier slice of a timeline ends no later than a later one starts. |
| ExecutionSlices.DurationOfAppend | submission/src/simulator/core/ExecutionSlice.java:29-31 | One more slice adds its duration to its own process's CPU time only. |
| Context.SimulationContext.constructor | simulator/app/SimulationContext.java:27-41 | The context holds the given memory, clock and loader, empty queues, zero jobs, and an unfinished reader. |
| Context.SimulationContext.CanTerminate | simulator/app/SimulationContext.java:96-107 | It holds exactly when at least totalJobs processes have completed, the reader and the loader have both finished, and the ready queue is empty. |
| Context.CanTerminateMonotone | simulator/app/SimulationContext.java:96-107 | If it holds for c completed processes, it holds for any c' >= c. |
| Context.SimulationContext.DrainReadyQueue | simulator/app/SimulationContext.java:58-60 | The target becomes its old contents followed by the whole ready queue in order. The ready queue ends empty and nothing else changes. |
| Context.SimulationContext.TakeNextReady | simulator/app/SimulationContext.java:65-67 | It returns the head of a non-empty ready queue and removes it, or returns nothing and changes nothing. |
| Context.SimulationContext.ShutdownLoader | simulator/app/SimulationContext.java:112-114 | The loader's shutdown flag is set, and its completion flag is unchanged. |
| ProcessLoaders.ProcessLoader.constructor | simulator/io/ProcessLoader.java:23-24 | Neither shutdown nor completion is set at the start. |
| ProcessLoaders.ProcessLoader.RequestShutdown | simulator/io/ProcessLoader.java:70-73 | The shutdown flag is set, and the completion flag is unchanged. |
| ProcessLoaders.ProcessLoader.IsLoadingComplete | simulator/io/ProcessLoader.java:75-77 | The completion flag. Context.SimulationContext.CanTerminate reads it through this function, and Loading.Run ensures it is set on exit. |
| Loading.AdmitJob | simulator/io/ProcessLoader.java:56-61 | Memory is reserved first, with used growing by the request and the table mapping the pid. The degree is the allocated count after that, so at least 1. The block is readied at the current time as an initial admission and joins the ready-queue tail. The clock and the job queue are unchanged. |
| Loading.Requests | simulator/io/ProcessLoader.java:56 | Position k holds the memory request of the k-th block. |
| Loading.Degrees | simulator/io/ProcessLoader.java:57 | There is one degree per admitted block. |
| Loading.AdmitHead | simulator/io/ProcessLoader.java:56-57 | Admitting the head keeps the rest of the queue fitting, and keeps the totals, the table and the degrees of the whole queue. |
| Loading.FitsInOrderTotal | simulator/memory/MemoryManager.java:29-32 | Requests that fit one after another add up to at most the free memory. |
| Loading.DegreesPositive | simulator/io/ProcessLoader.java:56-57 | Every admission degree is at least 1. |
| Loading.DegreesFresh | simulator/io/ProcessLoader.java:56-57 | With fresh distinct ids, the k-th admission's degree is the count before admission + k + 1. |
| Loading.AllocationsAfterSum | simulator/memory/MemoryManager.java:32-33 | With fresh ids, the table after all admissions sums to the old sum plus all requests. |
| Loading.Admitted | simulator/io/ProcessLoader.java:59 | The first `\|degrees\|` blocks are readied with their degrees at one time, and the rest are unchanged. |
| Loading.AdmitQueued | simulator/io/ProcessLoader.java:44-62 | With shutdown requested before the loop starts, the loop moves the whole job queue to the ready-queue tail in FIFO order. Each block is admitted with its degree, used grows by the total of the requests, and the table is updated in order. |
| Loading.Run | simulator/io/ProcessLoader.java:42-68 | When the reader is finished or shutdown was requested before the run starts, the run admits the whole job queue. It ends with loadingComplete set. Degrees are at least 1, the clock is unchanged, used stays within the total, and the manager stays consistent for fresh ids. |
| JavaLang.Trim | simulator/io/JobReader.java:46 | String.trim: the result is no longer than the input, neither end is a trimmable character, and a string with no trimmable end is left alone. |
| JavaLang.TrimKeepsMiddle | simulator/io/JobReader.java:46 | Trim removes exactly a run of trimmable characters at each end. |
| JavaLang.SplitAllRejoins | simulator/io/JobReader.java:73 | The pieces of a split, joined with the separator, give back the string. |
| JavaLang.SplitAllSeparatorFree | simulator/io/JobReader.java:73 | No piece of a split holds the separator. |
| JavaLang.DropTrailingEmptyKeepsPrefix | simulator/io/JobReader.java:73 | String.split drops exactly the trailing empty pieces and keeps the rest in order. |
| JavaLang.JavaSplitJoin | simulator/io/JobReader.java:77 | Splitting a join of at least two non-empty, separator-free pieces gives the pieces back. |
| JavaLang.JavaSplit | simulator/io/JobReader.java:73-77 | String.split on one ordinary character: the input alone when the separator is absent, otherwise the pieces with trailing empty ones dropped. SplitAllRejoins, SplitAllSeparatorFree, DropTrailingEmptyKeepsPrefix and JavaSplitJoin state its properties. |
| JavaLang.ParseInt | simulator/io/JobReader.java:81-84 | Integer.parseInt accepts only text that starts with a sign or a digit, and only values in int range. |
| JavaLang.ParseIntToString | simulator/io/JobReader.java:81-84 | parseInt reads the decimal text of every int back as that int. |
| JavaLang.Wrap32 | simulator/io/JobReader.java:55 | Java int addition wraps: the result is in int range, equals the input when that is in range, and differs from it by a multiple of 2^32. |
| JavaLang.TruncDiv | simulator/scheduler/PriorityScheduler.java:103 | Java int division by a positive divisor: for a non-negative dividend the remainder lies in [0, b), and for a negative one in (-b, 0], so the quotient rounds toward zero. Priority.ExpectedBoosts uses it for the boost count a wait is worth, and Priority.AgeEffect states the aging in its terms. |
| JobReading.ParseLine | simulator/io/JobReader.java:72-86 | A parsed job gets the arrival order passed in. |
| JobReading.ParseLineInRange | simulator/io/JobReader.java:81-84 | All four fields of a parsed job are in int range. |
| JobReading.ParseLineNeedsSemicolon | simulator/io/JobReader.java:73-76 | A line without ';' is an invalid job entry. |
| JobReading.ParseFieldsReadsEach | simulator/io/JobReader.java:81-84 | When the fields parse, each value is parseInt of its trimmed field. |
| JobReading.ParseFields | simulator/io/JobReader.java:81-84 | parseInt of each trimmed field: on success one value per field. ParseFieldsReadsEach, ParseFieldsFailsOnSome and ParseFieldsOfEach state that it succeeds exactly when every field parses, with each field's value. |
| JobReading.ParseFieldsFailsOnSome | simulator/io/JobReader.java:81-84 | When the fields do not parse, some trimmed field is not an int. |
| JobReading.ParseFieldsOfEach | simulator/io/JobReader.java:81-84 | When every trimmed field is an int, the fields parse to exactly those values. |
| JobReading.ParseFormatted | simulator/io/JobReader.java:72-86 | Round trip: the line `id:burst:priority;memory` written from in-range values parses back to those values. |
| JobReading.ParseLineKeepsArrivalOrder | simulator/io/JobReader.java:85 | parseLine always gives the job the arrival order it was passed. |
| JobReading.IngestWith | simulator/io/JobReader.java:45-64 | The pure description of the loop, with the job-line parser a parameter and an unbounded memory sum: blank and `#` lines are skipped; a job line past the 30th stops with the job-count error, a line that fails to parse stops with its error, a job that takes the sum past 2048 MB stops with the memory error, and any other job is accepted ahead of the rest. Its properties are IngestCharacterized, IngestArrivalOrder, IngestJobLimit and IngestMemoryFits. |
| JobReading.Ignored | simulator/io/JobReader.java:46-49 | A line is skipped when it is blank or starts with `#` after trimming. IngestSkip and IngestJobLinesOnly state that such lines add no job and are not counted. |
| JobReading.Rejection | simulator/io/JobReader.java:50-58 | The order of the checks on a job line: the 30-job limit before parsing, then the parse error, then the 2048 MB limit on the running sum. IngestJobLine and IngestCharacterized state that the reader stops with exactly this error at the first rejected line. |
| JobReading.Ingest | simulator/io/JobReader.java:45-64 | IngestWith with the job-line parser parseLine: the corrected reader of "## Findings", against which the reader methods are proved. |
| JobReading.IngestJobLine | simulator/io/JobReader.java:50-63 | On a job line, the reader does one of two things. It stops on too many jobs, a parse error or too much memory. Otherwise it accepts the job, counts it and adds its memory. |
| JobReading.IngestSkip | simulator/io/JobReader.java:46-49 | A blank or `#` line is skipped without counting. |
| JobReading.IngestJobLinesOnly | simulator/io/JobReader.java:46-49 | The outcome depends only on the trimmed job lines. |
| JobReading.IngestCharacterized | simulator/io/JobReader.java:45-64 | The jobs accepted are a prefix of the job lines, each parsed and within the limits. The run ends without error exactly when every job line was accepted. Otherwise the error is the rejection of the first line not accepted. |
| JobReading.IngestArrivalOrder | simulator/io/JobReader.java:50-54 | Each accepted job's arrival order is the number of jobs accepted before it. |
| JobReading.IngestJobLimit | simulator/io/JobReader.java:50-53 | At most 30 jobs are accepted in total. |
| JobReading.IngestMemoryFits | simulator/io/JobReader.java:55-58 | The accepted jobs' requests fit, one after another, within 2048 MB. |
| JobReading.IngestWrapping | simulator/io/JobReader.java:55-58 | The loop as written: as IngestWith, except that the running memory total is reduced to a 32-bit two's-complement `int` after each addition before it is compared with 2048. |
| JobReading.IngestAsWritten | simulator/io/JobReader.java:45-64 | IngestWrapping with parseLine: what the Java loop computes, overflow included. MemoryLimitOverflow shows a file on which it accepts more than 2048 MB. |
| JobReading.MemoryLimitOverflow | simulator/io/JobReader.java:55-58 | Two jobs of 2000 and 2147483647 MB: the wrapping sum accepts both, and the corrected reader stops at the second with TooMuchMemory. |
| JobReading.QueuedView | simulator/io/JobReader.java:85 | A queued job is JOB_QUEUED, with arrival time 0, the parsed fields, and remaining time equal to its burst. |
| JobReading.AcceptJob | simulator/io/JobReader.java:59-63 | A fresh block, marked queued, is put at the job-queue tail, and totalJobs grows by exactly 1. |
| JobReading.ReadLine | simulator/io/JobReader.java:45-64 | One iteration skips the line, stops with the error of the pure description, or accepts the next job. |
| JobReading.ReadLoop | simulator/io/JobReader.java:45-64 | The loop accepts exactly the jobs of the pure description and ends with its error. |
| JobReading.ReadAll | simulator/io/JobReader.java:45-64 | The job queue grows by fresh queued blocks for exactly the jobs of the pure description, in order. totalJobs grows by their number, and the earlier queue is kept. |
| JobReading.ReadJobs | simulator/io/JobReader.java:41-70 | As ReadAll with the job-line parser, and the finished flag is set on every exit, errors included. |
| Scheduling.Resume | simulator/scheduler/SjfScheduler.java:65-66 | Results so far, followed by the rest of the run, fail exactly when the rest fails, and with its error. |
| Scheduling.SliceOf | submission/src/simulator/core/ExecutionSlice.java:11-15 | The slice is the block's id with its start and a duration that equals the CPU time executed. |
| Scheduling.DispatchToCompletion | simulator/scheduler/SjfScheduler.java:54-63 | A negative remaining time fails. Otherwise the block ends as `RunToCompletion` from the start time, the clock advances by exactly the CPU executed, and its memory is released. |
| Scheduling.CompleteNext | simulator/scheduler/SjfScheduler.java:54-66 | The dispatched block is appended once to completed with `RunToCompletion` fields. The slice is its start and CPU time, other blocks are unchanged, and its memory is released. |
| Scheduling.RunInOrder | simulator/scheduler/SjfScheduler.java:54-66 | The non-preemptive run of blocks in a given order: each is dispatched at the current time, runs its whole remaining time as one slice, and completes when the clock has advanced by that much; a negative remaining time ends the run with the clock's error. RunInOrderShape and RunInOrderFails state its result. |
| Scheduling.RunInOrderFails | simulator/scheduler/SjfScheduler.java:58-59 | Running blocks to completion in a given order fails exactly when one has a negative remaining time. |
| Scheduling.RunInOrderShape | simulator/scheduler/SjfScheduler.java:54-66 | A successful run in order gives one slice and one completed block per job, in that order. The slices form a timeline from the start to the end time, each slice lasts its job's remaining time, and each job runs to completion at its slice's start. |
| Scheduling.Drain | simulator/scheduler/SjfScheduler.java:36 | Draining appends the ready queue to the working set and keeps the run's invariant. |
| Scheduling.LoopDone | simulator/scheduler/SjfScheduler.java:35-45 | When the loop stops with nothing left, the slices and completed blocks are the whole policy schedule. The freed pids are those of the initial queue. |
| Sjf.Pick | simulator/scheduler/SjfScheduler.java:47-51 | On a non-empty working set, the picked index is in range. PickMinimal states that it is the stream minimum. |
| Sjf.Before | simulator/scheduler/SjfScheduler.java:48-50 | The comparator as a strict order: less remaining time first, then the earlier arrival order. PickMinimal states that the pick is minimal under it and first among equals. |
| Sjf.SjfOrder | simulator/scheduler/SjfScheduler.java:47-52 | The dispatch order: the pick is removed and dispatched first, then the order of the rest. SjfOrderPermutes and SjfOrderSorted state that it is a permutation of the set, shortest first and earliest arrival among equals. |
| Sjf.SjfSchedule | simulator/scheduler/SjfScheduler.java:47-66 | The run of the working set from the given time: RunInOrder over SjfOrder. SjfScheduleFails and SjfStep state its result. |
| Sjf.PickMinimal | simulator/scheduler/SjfScheduler.java:47-51 | No block precedes the pick (less remaining time, then earlier arrival order), and the pick strictly precedes every block before it. |
| Sjf.SjfOrderPermutes | simulator/scheduler/SjfScheduler.java:47-52 | The dispatch order is a permutation of the working set. |
| Sjf.SjfOrderSorted | simulator/scheduler/SjfScheduler.java:47-51 | No block in the dispatch order precedes one dispatched before it. |
| Sjf.SjfScheduleFails | simulator/scheduler/SjfScheduler.java:58-59 | The run fails exactly when some block has a negative remaining time. |
| Sjf.SjfExample | simulator/scheduler/SjfScheduler.java:47-51 | Bursts 5, 3, 3 in arrival order 0, 1, 2 run as the 2nd, the 3rd, then the 1st. |
| Sjf.SjfStep | simulator/scheduler/SjfScheduler.java:47-66 | One dispatch of the pick extends the slices and completed blocks, and leaves the schedule of the rest. |
| Sjf.DispatchNext | simulator/scheduler/SjfScheduler.java:47-66 | The body after the drain removes the minimum and runs it to completion, and keeps the run's invariant. A failure is the policy's failure. |
| Sjf.Iterate | simulator/scheduler/SjfScheduler.java:35-66 | One iteration keeps the loop invariant, stops only with nothing left, and otherwise shrinks the working set. |
| Sjf.Run | simulator/scheduler/SjfScheduler.java:25-76 | From an admitted ready queue, the run fails exactly when `SjfSchedule` does. Otherwise the result holds its slices and completed blocks and the clock ends at its end time. The ready queue ends empty, every completed pid is freed, and the memory manager stays consistent. |
| Priority.Age | simulator/scheduler/PriorityScheduler.java:95-111 | One iteration of applyAging on a block at time now: flag a starving, unflagged block, then boost by the missing boosts. AgeEffect and AgeIdempotent state its effect. |
| Priority.AgeAll | simulator/scheduler/PriorityScheduler.java:92-112 | applyAging over the whole working set at one time `now`: Age applied to each block, in place and in order. AgeAllIdempotent and ApplyAging state its properties. |
| Priority.AgeEffect | simulator/scheduler/PriorityScheduler.java:95-111 | A block is flagged starved when admitted and waited > degree, appending one event only if not flagged before. The boost count catches up to waited / 5 unless capped. Priority never falls, never passes 128, and no other field changes. |
| Priority.AgeIdempotent | simulator/scheduler/PriorityScheduler.java:95-111 | Aging a block twice at the same moment equals aging it once. |
| Priority.AgeAllIdempotent | simulator/scheduler/PriorityScheduler.java:92-112 | Aging the working set twice at the same moment equals aging it once. |
| Priority.AgingStarvesAtMostOnce | simulator/scheduler/PriorityScheduler.java:97-101 | Over any sequence of agings, a block is flagged at most once and has at most one starvation event. |
| Priority.AgingExample | simulator/scheduler/PriorityScheduler.java:97-106 | With admission degree 3, a wait of 3 changes nothing. A wait of 4 flags starvation without a boost, and a wait of 5 gives the first boost. |
| Priority.Pick | simulator/scheduler/PriorityScheduler.java:60-65 | On a non-empty working set, the picked index is in range. PickMaximal states that it is the stream maximum. |
| Priority.Above | simulator/scheduler/PriorityScheduler.java:61-64 | The three-key comparator as a strict order: higher dynamic priority, then longer wait since the last ready time, then the earlier arrival order. PickMaximal states that the pick is maximal under it and first among equals. |
| Priority.PickMaximal | simulator/scheduler/PriorityScheduler.java:60-65 | No block ranks above the pick (higher priority, then longer wait, then earlier arrival), and the pick ranks strictly above every block before it. |
| Priority.PriorityOrder | simulator/scheduler/PriorityScheduler.java:48-80 | The dispatch order from a working set at time now: the set is aged, the maximum runs to completion, and the rest is aged again when it completes. PriorityOrderHead, PriorityOrderPermutes, PriorityOrderCapped and PriorityOrderStarvedOnce state its properties. |
| Priority.OrderAged | simulator/scheduler/PriorityScheduler.java:60-80 | The same order from a set that has just been aged: the maximum first, then the order of the rest from the time it completes. |
| Priority.PrioritySchedule | simulator/scheduler/PriorityScheduler.java:60-80 | The run of the working set from the given time: RunInOrder over PriorityOrder. PriorityScheduleFails, PriorityScheduleAged and PriorityStep state its result. |
| Priority.PriorityOrderHead | simulator/scheduler/PriorityScheduler.java:48-66 | The first block to run is the maximum of the set aged at the start time. |
| Priority.PriorityOrderPermutes | simulator/scheduler/PriorityScheduler.java:60-66 | The dispatch order holds the same ids and remaining times as the working set. |
| Priority.PriorityOrderCapped | simulator/scheduler/PriorityScheduler.java:104-106 | No block runs with a priority above 128 when none starts above it. |
| Priority.PriorityOrderStarvedOnce | simulator/scheduler/PriorityScheduler.java:97-101 | Every block runs with at most one starvation event. |
| Priority.PriorityScheduleFails | simulator/scheduler/PriorityScheduler.java:72-73 | The run fails exactly when some block has a negative remaining time. |
| Priority.PriorityScheduleAged | simulator/scheduler/PriorityScheduler.java:48 | Aging the working set before the run changes nothing in the schedule. |
| Priority.PriorityStep | simulator/scheduler/PriorityScheduler.java:60-80 | One dispatch of the pick of an aged set extends the slices and completed blocks, and leaves the schedule of the rest. |
| Priority.AgeOne | simulator/scheduler/PriorityScheduler.java:96-110 | One iteration of applyAging leaves `Age` of the block's fields. |
| Priority.ApplyAging | simulator/scheduler/PriorityScheduler.java:92-112 | Every block of the working set is aged at the same moment, and all other blocks are unchanged. |
| Priority.AddAbsent | simulator/scheduler/PriorityScheduler.java:42-46 | Each drained block is appended unless it is already present. |
| Priority.DrainIntoWorking | simulator/scheduler/PriorityScheduler.java:40-46 | The working set gains the drained blocks it lacked, and the ready queue ends empty. |
| Priority.DrainDeduplicated | simulator/scheduler/PriorityScheduler.java:40-46 | With distinct blocks, the deduplicating drain appends the whole ready queue and keeps the run's invariant. |
| Priority.DispatchNext | simulator/scheduler/PriorityScheduler.java:60-80 | The maximum of the aged set is removed and run to completion, and the run's invariant is kept. A failure is the policy's failure. |
| Priority.Iterate | simulator/scheduler/PriorityScheduler.java:39-81 | One iteration keeps the loop invariant, stops only with nothing left, and otherwise shrinks the working set. |
| Priority.Run | simulator/scheduler/PriorityScheduler.java:27-90 | From an admitted ready queue, the run fails exactly when `PrioritySchedule` does. Otherwise the result holds its slices and completed blocks, the clock ends at its end time, every completed pid is freed, and the manager stays consistent. |
| RoundRobin.RequeueKeepsAdmission | submission/src/simulator/scheduler/RoundRobinScheduler.java:64-67 | A requeued block is READY from now on, with its admission time and degree unchanged. |
| RoundRobin.RequeueIgnoresDegree | submission/src/simulator/scheduler/RoundRobinScheduler.java:66 | The degree passed to markRequeued has no effect. |
| RoundRobin.RanFacts | submission/src/simulator/scheduler/RoundRobinScheduler.java:60-64 | A dispatch grants min(7, remaining). The block stays runnable after it exactly when it had more than 7 left. |
| RoundRobin.Rotate | submission/src/simulator/scheduler/RoundRobinScheduler.java:55-73 | The queue after one quantum of its head: the head, still owing time, goes to the tail requeued at the new time, or otherwise leaves the queue. RotateShape, RotateWeight and RotatePids state its effect. |
| RoundRobin.Retired | submission/src/simulator/scheduler/RoundRobinScheduler.java:64-73 | What one quantum completes: nothing when the head was preempted, otherwise the head marked completed at the new time. |
| RoundRobin.RotateWeight | submission/src/simulator/scheduler/RoundRobinScheduler.java:55-73 | Every quantum lowers the work the queue still owes, so the rotation ends. |
| RoundRobin.RrSchedule | submission/src/simulator/scheduler/RoundRobinScheduler.java:55-73 | The run of the queue from the given time: each quantum records one slice of at most 7 units, then rotates the queue; a negative remaining time ends the run with the clock's error. RrTimeline, RrSliceBound, RrDurations, RrCompletesEach, RrCompletesTerminated and RrScheduleFails state its result. |
| RoundRobin.RrUnfold | submission/src/simulator/scheduler/RoundRobinScheduler.java:55-73 | The schedule is the head's slice of min(7, remaining), then its completion unless it is preempted, then the schedule of the rotated queue. |
| RoundRobin.RotateShape | submission/src/simulator/scheduler/RoundRobinScheduler.java:64-73 | A preempted head is requeued at the tail and none completes. Otherwise the head is completed and leaves the queue. |
| RoundRobin.RrTimeline | submission/src/simulator/scheduler/RoundRobinScheduler.java:56-62 | The slices form a gap-free, non-overlapping timeline from the start to the end time. |
| RoundRobin.RrSliceBound | submission/src/simulator/scheduler/RoundRobinScheduler.java:20-62 | No slice lasts longer than the quantum 7 or runs backwards. |
| RoundRobin.RrDurations | submission/src/simulator/scheduler/RoundRobinScheduler.java:60-62 | The durations of a process's slices sum to its remaining time in the initial queue. |
| RoundRobin.RotatePids | submission/src/simulator/scheduler/RoundRobinScheduler.java:64-73 | After one quantum, the ids still queued plus those completed are the ids queued before. |
| RoundRobin.RrCompletesEach | submission/src/simulator/scheduler/RoundRobinScheduler.java:68-73 | Every queued process is completed exactly once: the completed ids are a permutation of the queued ids. |
| RoundRobin.RrCompletesTerminated | submission/src/simulator/scheduler/RoundRobinScheduler.java:64-72 | A block completes only with 0 remaining, and ends TERMINATED. |
| RoundRobin.RrScheduleFails | submission/src/simulator/scheduler/RoundRobinScheduler.java:60-61 | The run fails exactly when some queued block has a negative remaining time. |
| RoundRobin.RrExample | submission/src/simulator/scheduler/RoundRobinScheduler.java:55-73 | Bursts 10 and 3 give slices P1 [0,7], P2 [7,10] and P1 [10,13], ending at 13. |
| RoundRobin.Quantum | submission/src/simulator/scheduler/RoundRobinScheduler.java:56-73 | A negative remaining time fails. Otherwise the clock advances by the grant. The block is requeued exactly when more than 7 was left, and it is otherwise completed with its memory released. |
| RoundRobin.RunQuantum | submission/src/simulator/scheduler/RoundRobinScheduler.java:55-73 | The queue after one quantum is `Rotate` of the queue before. Completed gains `Retired` of the head, the slice is the head's grant, and the head goes to the tail or to completed. |
| RoundRobin.AppendEach | submission/src/simulator/scheduler/RoundRobinScheduler.java:43-45 | The drained blocks are appended at the tail in drain order. |
| RoundRobin.DrainIntoQueue | submission/src/simulator/scheduler/RoundRobinScheduler.java:41-45 | The ready queue is appended to the deque and ends empty. |
| RoundRobin.DispatchHead | submission/src/simulator/scheduler/RoundRobinScheduler.java:55-73 | Dispatching the head keeps the run's invariant and lowers the queue's owed work. A failure is the policy's failure. |
| RoundRobin.AwaitReady | submission/src/simulator/scheduler/RoundRobinScheduler.java:46-53 | With the deque and the ready queue both empty, the poll finds nothing and the loop stops. |
| RoundRobin.Iterate | submission/src/simulator/scheduler/RoundRobinScheduler.java:40-75 | One iteration keeps the loop invariant, stops only with nothing left, and otherwise lowers the owed work. |
| RoundRobin.Run | submission/src/simulator/scheduler/RoundRobinScheduler.java:28-84 | From an admitted ready queue, the run fails exactly when `RrSchedule` does. Otherwise the result holds its slices and completed blocks, the clock ends at its end time, every completed pid is freed, and the manager stays consistent. |
| Results.BuildProcessReports | simulator/core/SchedulingResult.java:64-75 | There is one report per completed process, in order, holding its id and its waiting, turnaround and response times. |
| Results.StarvationEventsByProcess | simulator/core/SchedulingResult.java:105-109 | The map from the id of each starved completed block to its events; two starved blocks with one id make it fail, as `Collectors.toMap` throws. StarvationMapSpec, CollectStarvedContents and CollectStarvedFailsOnClash state its result. |
| Results.CollectStarved | simulator/core/SchedulingResult.java:106-108 | The filter-collect of starved blocks into a map keyed by id, failing on a key already present. CollectStarvedFailsOnClash and CollectStarvedClashFails state that it fails exactly on a clash, and CollectStarvedContents gives its keys and values on success. |
| Results.CollectStarvedFailsOnClash | simulator/core/SchedulingResult.java:105-109 | Collecting fails only when two starved blocks share an id, or a starved id is already a key. |
| Results.CollectStarvedClashFails | simulator/core/SchedulingResult.java:105-109 | Any such clash makes collecting fail. |
| Results.CollectStarvedContents | simulator/core/SchedulingResult.java:105-109 | A successful collection's keys are the old keys plus the starved ids. Old entries are kept, and each starved block maps to its events. |
| Results.StarvationMapSpec | simulator/core/SchedulingResult.java:105-109 | The map fails exactly on duplicate starved ids. Otherwise its keys are exactly the starved ids, each mapped to its event list. |
| Results.PadRight | simulator/core/SchedulingResult.java:89-94 | `%-Nd` padding keeps the text as a prefix, pads with spaces, and gives width N or the text's length. |
| Results.GanttChart | simulator/core/SchedulingResult.java:80-103 | The chart: `(no execution)` without slices; otherwise border, labels, border and times, joined by the line separator. GanttChartEmpty, GanttBorderShape and GanttColumns state its shape. |
| Results.GanttChartEmpty | simulator/core/SchedulingResult.java:81-83 | The chart is "(no execution)" exactly when there are no slices. |
| Results.GanttBorderShape | simulator/core/SchedulingResult.java:84-92 | The border is '+' followed by one 8-character "-------+" per slice. |
| Results.GanttColumns | simulator/core/SchedulingResult.java:88-95 | With ids below 100000 and times below 10^8, the label line is exactly as wide as the border, and the time line has 8 columns per slice plus one. |
| Results.GanttRows | simulator/core/SchedulingResult.java:84-95 | The loop builds the border, label and time lines slice by slice. |
| Results.BuildGanttChart | simulator/core/SchedulingResult.java:80-103 | The chart is the border, labels, border and times joined by the line separator, or "(no execution)" without slices. |

## Left out

- Threads, blocking and timeouts are not modelled:
  - `wait`/`notifyAll` in the memory manager becomes a precondition.
  - Poll timeouts and interrupts become deterministic choices: the head of the queue, or nothing.
  - The reader, the loader and the schedulers run one after another, not concurrently.
- RoundRobin.AwaitReady: a scheduler run starts with the reader and the loader finished and every job admitted. An empty queue then always means the end, so the wait for a job that arrives later is not modelled.
- Sjf.Run, Priority.Run, RoundRobin.Run: these require the ready queue to be duplicate-free. The Java code builds a fresh block per job line but never checks this.
- The system call log is not modelled, because it holds wall-clock timestamps and formatted text: create, enqueue, admit, dispatch, yield, complete, starvation and boost notices.
- The starvation-notice and system-call-log fields of the result are left out, because of that log.
- Exception message texts are left out. Errors are the values of `JobReading.ReadError` and `Clock.ClockError`.
- In the clock, a negative delta makes `advance` throw. The model returns a failure, and leaves out the state the Java program would be in after the exception propagates.
- `getAverageWaitingTime` and `getAverageTurnaroundTime` are left out, because they are `double` arithmetic.
- The `Scheduler` interface is left out, because it has no behaviour.
- `SimulationRunner` and `Main` are left out: thread orchestration, the menu and printing.
- `SystemCallHandler` is not part of this model.
- File I/O of the job reader is left out: the file is given as its sequence of lines.
- JavaLang.ParseInt: decimal text only. Non-ASCII digits are not accepted.
- Scheduling times, waiting times and aging arithmetic are unbounded integers, so Java `int` overflow there is not modelled. The reader's wrapping memory sum is modelled only by the pure `JobReading.IngestAsWritten` and the finding about it; the reader methods below do not run it.
- JobReading.ReadLine: runs the corrected, unbounded memory sum of "## Findings", not Java's wrapping `int` sum. Its ensures say only what the loop needs, namely the invariant of the next iteration.
- JobReading.ReadLoop: proved against `JobReading.Ingest`, the corrected, unbounded memory sum of "## Findings", not Java's wrapping `int` sum (`JobReading.IngestAsWritten`). On a file whose sum passes 2^31 - 1 it rejects a job that the Java loop accepts.
- JobReading.ReadAll: like ReadLoop, it follows the corrected, unbounded memory sum of "## Findings", not Java's wrapping `int` sum.
- JobReading.ReadJobs: like ReadLoop, it follows the corrected, unbounded memory sum of "## Findings", not Java's wrapping `int` sum.
- Loading.Run, Loading.AdmitQueued: shutdown is requested before the loader runs. In Java, `requestShutdown` also interrupts a running loader (simulator/io/ProcessLoader.java:72), which can end it before the job queue is drained; that interruption is not modelled, because the loader does not run beside the reader here.
- Results.BuildGanttChart: `System.lineSeparator()` is a parameter.
- The result's accessors, and the immutability of slices and reports, need no members: `SchedulingResult`, `ExecutionSlice` and `ProcessReport` are immutable datatypes, and the copies the Java constructor makes are implicit in value semantics.

## Findings

| source | as written | input that shows it | evidently intended | confidence | as-written member | corrected member |
|---|---|---|---|---|---|---|
| simulator/io/JobReader.java:55-58 | `cumulativeMemory += pcb.getMemoryRequired()` is an `int` sum, so it wraps around past 2^31 - 1, and the check `cumulativeMemory > 2048` then sees a negative total | a file with the lines `1:5:1;2000` and `2:5:1;2147483647`: the sum wraps to -2147481649 and both jobs are accepted, 2147485647 MB in all | the total of the accepted requests never exceeds 2048 MB, so the second job is rejected with the memory error | not executed | JobReading.MemoryLimitOverflow | JobReading.IngestMemoryFits |
