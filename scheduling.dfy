/**
 * What the three schedulers have in common. Each one runs jobs from a working
 * set of blocks already admitted to the ready queue, emits one execution slice
 * per dispatch, advances the clock by the CPU time it hands out, and releases the
 * memory of every job it completes.
 *
 * A policy is stated as a pure function from the fields of the working set and
 * the clock time to the whole schedule that follows: the slices, the completed
 * blocks' fields in completion order, and the clock time at the end, or the
 * error of the clock when a dispatch would move it backwards. Each scheduler's
 * run method is proved to produce what its policy function gives.
 */
module Scheduling {
  import opened Wrappers
  import opened Sequences
  import opened ProcessControl
  import opened ExecutionSlices
  import opened Clock
  import opened Memory
  import opened Context

  /** The outcome of a run: the timeline, the completed blocks in order, and the final clock time. */
  datatype Schedule = Schedule(slices: seq<ExecutionSlice>, completed: seq<PcbView>, endTime: int)

  /** A policy: the schedule that follows from a working set at a given time. */
  type Policy = (seq<PcbView>, int) -> Result<Schedule, ClockError>

  /** The slices and completed blocks so far, followed by what the rest of the run produces. */
  function Resume(slices: seq<ExecutionSlice>, completed: seq<PcbView>, rest: Result<Schedule, ClockError>)
    : (r: Result<Schedule, ClockError>)
    ensures r.Failure? <==> rest.Failure?
    ensures rest.Failure? ==> r.error == rest.error
  {
    match rest
    case Failure(e) => Failure(e)
    case Success(s) => Success(Schedule(slices + s.slices, completed + s.completed, s.endTime))
  }

  /** Resuming twice is resuming once with both prefixes. */
  lemma ResumeTwice(a: seq<ExecutionSlice>, b: seq<PcbView>, c: seq<ExecutionSlice>, d: seq<PcbView>,
                    x: Result<Schedule, ClockError>)
    ensures Resume(a, b, Resume(c, d, x)) == Resume(a + c, b + d, x)
  {
    if x.Success? {
      assert a + (c + x.value.slices) == (a + c) + x.value.slices;
      assert b + (d + x.value.completed) == (b + d) + x.value.completed;
    }
  }

  /** Nothing done yet: the rest of the run is the whole of it. */
  lemma ResumeNothing(x: Result<Schedule, ClockError>)
    ensures Resume([], [], x) == x
  {
    if x.Success? {
      assert [] + x.value.slices == x.value.slices && [] + x.value.completed == x.value.completed;
    }
  }

  /** The slice a dispatch at start produces for a block that runs for executed units. */
  function SliceOf(v: PcbView, start: int, executed: int): (s: ExecutionSlice)
    ensures s.processId == v.id && s.startTime == start && s.Duration() == executed
  {
    ExecutionSlice(v.id, start, start + executed)
  }

  /** Taking a block out of a list takes its fields out of the list's fields. */
  lemma {:induction false} ViewsRemoveAt(ps: seq<ProcessControlBlock>, i: nat)
    requires i < |ps|
    ensures Views(RemoveAt(ps, i)) == RemoveAt(Views(ps), i)
  {
    var l := Views(RemoveAt(ps, i));
    var r := RemoveAt(Views(ps), i);
    RemoveAtSpec(ps, i);
    RemoveAtSpec(Views(ps), i);
    forall k | 0 <= k < |l|
      ensures l[k] == r[k]
    {
      ViewsAt(RemoveAt(ps, i), k);
      if k < i {
        ViewsAt(ps, k);
      } else {
        ViewsAt(ps, k + 1);
      }
    }
  }

  // ------------------------------------------------------- run to completion

  /**
   * The non-preemptive pattern shared by the shortest-job-first and priority
   * schedulers, for blocks in the order they are picked: each one is dispatched
   * at the current time, consumes all its remaining time, and completes once
   * the clock has advanced by that much; a negative remaining time makes the
   * clock refuse the advance and ends the run.
   */
  function RunInOrder(order: seq<PcbView>, time: int): Result<Schedule, ClockError>
    decreases |order|
  {
    if order == [] then Success(Schedule([], [], time))
    else
      var v := order[0];
      if v.remainingTime < 0 then Failure(NegativeDelta)
      else Resume([SliceOf(v, time, v.remainingTime)], [RunToCompletion(v, time)],
                  RunInOrder(order[1..], time + v.remainingTime))
  }

  /** One step of running in order: the first block either ends the run or runs to completion first. */
  lemma RunInOrderUnfold(order: seq<PcbView>, time: int)
    requires order != []
    ensures order[0].remainingTime < 0 ==> RunInOrder(order, time) == Failure(NegativeDelta)
    ensures order[0].remainingTime >= 0 ==>
      RunInOrder(order, time) == Resume([SliceOf(order[0], time, order[0].remainingTime)], [RunToCompletion(order[0], time)],
                                        RunInOrder(order[1..], time + order[0].remainingTime))
  {
  }

  /** Running one block and then the others in order. */
  lemma RunInOrderCons(v: PcbView, rest: seq<PcbView>, time: int)
    ensures v.remainingTime < 0 ==> RunInOrder([v] + rest, time) == Failure(NegativeDelta)
    ensures v.remainingTime >= 0 ==>
      RunInOrder([v] + rest, time) == Resume([SliceOf(v, time, v.remainingTime)], [RunToCompletion(v, time)],
                                             RunInOrder(rest, time + v.remainingTime))
  {
    assert ([v] + rest)[0] == v && ([v] + rest)[1..] == rest;
    RunInOrderUnfold([v] + rest, time);
  }

  /**
   * The dispatch both non-preemptive schedulers perform on the block they pick:
   * it is dispatched at the clock time, consumes all its remaining time, and
   * the clock advances by the time consumed; once it has, the block is marked
   * completed at the new time and its memory released. A negative remaining
   * time is handed to the clock, which refuses it.
   */
  method DispatchToCompletion(next: ProcessControlBlock, clock: SimulationClock, memory: MemoryManager)
    returns (start: int, error: Option<ClockError>)
    modifies next, clock, memory
    ensures start == old(clock.time)
    ensures old(next.remainingTime) < 0 ==> error == Some(NegativeDelta)
    ensures old(next.remainingTime) >= 0 ==>
              && error == None
              && next.View() == RunToCompletion(old(next.View()), start)
              && clock.time == start + old(next.remainingTime)
              && memory.allocationByPid == old(memory.allocationByPid) - {next.id}
              && (old(memory.Valid()) ==> memory.Valid())
  {
    start := clock.GetTime();
    next.MarkDispatched(start);
    var executed := next.ConsumeCpu(next.remainingTime);
    var advanced := clock.Advance(executed);
    if advanced.Failure? {
      return start, Some(advanced.error);
    }
    next.MarkCompleted(clock.GetTime());
    memory.Release(next);
    error := None;
  }

  /**
   * The dispatch of a block taken out of the working set: the blocks left in it
   * and those completed before keep their fields, and on success the block joins
   * the completed ones, run to completion from the clock time of its dispatch,
   * with its slice covering the time it consumed.
   */
  method CompleteNext(next: ProcessControlBlock, rest: seq<ProcessControlBlock>, completed: seq<ProcessControlBlock>,
                      clock: SimulationClock, memory: MemoryManager, ghost v: PcbView, ghost time: int,
                      ghost others: seq<PcbView>, ghost done: seq<PcbView>)
    returns (slice: ExecutionSlice, error: Option<ClockError>)
    requires next !in rest && next !in completed
    requires v == next.View() && time == clock.time && others == Views(rest) && done == Views(completed)
    modifies next, clock, memory
    ensures error == None <==> v.remainingTime >= 0
    ensures error.Some? ==> error == Some(NegativeDelta)
    ensures error == None ==>
              && Views(rest) == others
              && Views(completed + [next]) == done + [RunToCompletion(v, time)]
              && slice == SliceOf(v, time, v.remainingTime)
              && clock.time == time + v.remainingTime
              && memory.allocationByPid == old(memory.allocationByPid) - {next.id}
              && (old(memory.Valid()) ==> memory.Valid())
  {
    var start;
    start, error := DispatchToCompletion(next, clock, memory);
    slice := ExecutionSlice(next.id, start, clock.GetTime());
    if error == None {
      ViewsAppend(completed, next);
    }
  }

  /** Running in order fails exactly when some block has a negative remaining time. */
  lemma {:induction false} RunInOrderFails(order: seq<PcbView>, time: int)
    ensures RunInOrder(order, time).Failure? <==> exists k :: 0 <= k < |order| && order[k].remainingTime < 0
    decreases |order|
  {
    if order != [] && order[0].remainingTime >= 0 {
      RunInOrderFails(order[1..], time + order[0].remainingTime);
      if exists k :: 0 <= k < |order| && order[k].remainingTime < 0 {
        var k :| 0 <= k < |order| && order[k].remainingTime < 0;
        assert order[1..][k - 1] == order[k];
      }
    }
  }

  /**
   * A successful run in order gives one slice and one completed block per block,
   * in that order: together the slices cover the clock from the start to the
   * end time without gaps or overlaps, slice k belongs to block k and lasts its
   * remaining time, and completed block k is block k run to completion from the
   * start of its slice.
   */
  lemma {:induction false} RunInOrderShape(order: seq<PcbView>, time: int)
    requires RunInOrder(order, time).Success?
    ensures var s := RunInOrder(order, time).value;
      && |s.slices| == |order| && |s.completed| == |order|
      && Timeline(s.slices, time, s.endTime)
      && forall k :: 0 <= k < |order| ==>
           && s.slices[k].processId == order[k].id
           && s.slices[k].Duration() == order[k].remainingTime
           && s.completed[k] == RunToCompletion(order[k], s.slices[k].startTime)
    decreases |order|
  {
    if order != [] {
      var v := order[0];
      var rest := RunInOrder(order[1..], time + v.remainingTime);
      RunInOrderShape(order[1..], time + v.remainingTime);
      var s := RunInOrder(order, time).value;
      assert s.slices == [SliceOf(v, time, v.remainingTime)] + rest.value.slices;
      assert s.completed == [RunToCompletion(v, time)] + rest.value.completed;
      assert s.slices[1..] == rest.value.slices;
      forall k | 1 <= k < |order|
        ensures s.slices[k] == rest.value.slices[k - 1] && s.completed[k] == rest.value.completed[k - 1]
        ensures order[k] == order[1..][k - 1]
      {
      }
    }
  }

  /** The process identifiers of the blocks (a block's id is fixed at construction). */
  function IdSet(ps: seq<ProcessControlBlock>): set<int> {
    set p | p in ps :: p.id
  }

  /** Releasing one more block's memory takes its identifier out of the table too. */
  lemma ReleasedAppend(alloc0: map<int, int>, ps: seq<ProcessControlBlock>, p: ProcessControlBlock)
    ensures alloc0 - IdSet(ps + [p]) == (alloc0 - IdSet(ps)) - {p.id}
  {
    assert forall q :: q in ps + [p] <==> q in ps || q == p;
    assert IdSet(ps + [p]) == IdSet(ps) + {p.id};
  }

  /**
   * The state of a scheduler's loop: the working set (the scheduler's own list
   * followed by what is still in the context's ready queue) and the completed
   * blocks are distinct objects; the run so far followed by what the policy makes
   * of the working set at the current time is the whole run goal; the completed
   * jobs' memory is released; and the memory books stay balanced if they were.
   */
  ghost predicate RunState(ctx: SimulationContext, policy: Policy, working: seq<ProcessControlBlock>,
                           completed: seq<ProcessControlBlock>, slices: seq<ExecutionSlice>,
                           goal: Result<Schedule, ClockError>, alloc0: map<int, int>, valid0: bool)
    reads ctx.clock, ctx.memory, set p | p in working, set p | p in completed
  {
    && Distinct(working + completed)
    && goal == Resume(slices, Views(completed), policy(Views(working), ctx.clock.time))
    && ctx.memory.allocationByPid == alloc0 - IdSet(completed)
    && (valid0 ==> ctx.memory.Valid())
  }

  /** Moving one block from the working set to the completed list keeps them distinct. */
  lemma DistinctComplete(ready: seq<ProcessControlBlock>, i: nat, completed: seq<ProcessControlBlock>)
    requires i < |ready| && Distinct(ready + completed)
    ensures Distinct(RemoveAt(ready, i) + (completed + [ready[i]]))
    ensures ready[i] !in RemoveAt(ready, i) && ready[i] !in completed
  {
    var s := ready + completed;
    var rest := RemoveAt(ready, i);
    var t := rest + (completed + [ready[i]]);
    RemoveAtSpec(ready, i);
    // where each element of t sits in s
    var pos := (a: int) => if a < i then a else if a < |rest| + |completed| then a + 1 else i;
    assert forall a :: 0 <= a < |t| ==> t[a] == s[pos(a)];
    forall a, b | 0 <= a < b < |t|
      ensures t[a] != t[b]
    {
      assert t[a] == s[pos(a)] && t[b] == s[pos(b)];
    }
    assert ready[i] == s[i];
    forall k | 0 <= k < |rest|
      ensures rest[k] != ready[i]
    {
      assert rest[k] == t[k];
    }
    forall k | 0 <= k < |completed|
      ensures completed[k] != ready[i]
    {
      assert completed[k] == s[|ready| + k];
    }
  }

  /** The blocks a run started with are exactly the working set and the completed ones. */
  ghost predicate Covers(q0: seq<ProcessControlBlock>, working: seq<ProcessControlBlock>, completed: seq<ProcessControlBlock>)
  {
    && (forall p :: p in q0 ==> p in working || p in completed)
    && (forall p :: p in working ==> p in q0)
    && (forall p :: p in completed ==> p in q0)
  }

  /**
   * drainReadyQueue as a step of a scheduler's loop: the ready queue moves to the
   * end of the scheduler's own list, which keeps the loop state as it was.
   */
  method Drain(ctx: SimulationContext, ghost policy: Policy, ready: seq<ProcessControlBlock>,
               ghost completed: seq<ProcessControlBlock>, ghost slices: seq<ExecutionSlice>,
               ghost goal: Result<Schedule, ClockError>, ghost alloc0: map<int, int>, ghost valid0: bool,
               ghost q0: seq<ProcessControlBlock>)
    returns (r: seq<ProcessControlBlock>)
    requires RunState(ctx, policy, ready + ctx.readyQueue, completed, slices, goal, alloc0, valid0)
    requires Covers(q0, ready + ctx.readyQueue, completed)
    modifies ctx
    ensures r == ready + old(ctx.readyQueue) && ctx.readyQueue == []
    ensures RunState(ctx, policy, r, completed, slices, goal, alloc0, valid0)
    ensures Covers(q0, r, completed)
    ensures ctx.jobQueue == old(ctx.jobQueue) && ctx.readerFinished == old(ctx.readerFinished)
    ensures ctx.totalJobs == old(ctx.totalJobs)
  {
    r := ctx.DrainReadyQueue(ready);
  }

  /**
   * The state of a scheduler's loop as a whole: RunState, the blocks the run started
   * with are the working set and the completed ones, enough of them are left for
   * the context to let the loop stop once the working set is empty, and the
   * reader's and loader's side of the context is left as it was.
   */
  ghost predicate LoopState(ctx: SimulationContext, policy: Policy, q0: seq<ProcessControlBlock>,
                            ready: seq<ProcessControlBlock>, completed: seq<ProcessControlBlock>,
                            slices: seq<ExecutionSlice>, goal: Result<Schedule, ClockError>,
                            alloc0: map<int, int>, valid0: bool, jobs0: seq<ProcessControlBlock>, total0: int)
    reads ctx, ctx.clock, ctx.memory, ctx.loader, set p | p in ready, set p | p in ctx.readyQueue, set p | p in completed
  {
    && RunState(ctx, policy, ready + ctx.readyQueue, completed, slices, goal, alloc0, valid0)
    && Covers(q0, ready + ctx.readyQueue, completed)
    && ctx.totalJobs <= |ready| + |ctx.readyQueue| + |completed|
    && ctx.jobQueue == jobs0 && ctx.totalJobs == total0 && ctx.readerFinished && ctx.loader.loadingComplete
  }

  /** The loop state at the start of a run: nothing done, everything still queued. */
  lemma LoopStart(ctx: SimulationContext, policy: Policy, alloc0: map<int, int>, valid0: bool)
    requires ctx.readerFinished && ctx.loader.loadingComplete && ctx.totalJobs <= |ctx.readyQueue|
    requires Distinct(ctx.readyQueue) && ctx.memory.allocationByPid == alloc0 && (valid0 ==> ctx.memory.Valid())
    ensures LoopState(ctx, policy, ctx.readyQueue, [], [], [], policy(Views(ctx.readyQueue), ctx.clock.time),
                      alloc0, valid0, ctx.jobQueue, ctx.totalJobs)
  {
    assert [] + ctx.readyQueue == ctx.readyQueue && ctx.readyQueue + [] == ctx.readyQueue;
    ResumeNothing(policy(Views(ctx.readyQueue), ctx.clock.time));
  }

  /**
   * Once nothing is left to schedule, the run so far is the whole run, and the memory
   * of every block the run started with is released.
   */
  lemma LoopDone(ctx: SimulationContext, policy: Policy, q0: seq<ProcessControlBlock>,
                 completed: seq<ProcessControlBlock>, slices: seq<ExecutionSlice>, goal: Result<Schedule, ClockError>,
                 alloc0: map<int, int>, valid0: bool, jobs0: seq<ProcessControlBlock>, total0: int)
    requires LoopState(ctx, policy, q0, [], completed, slices, goal, alloc0, valid0, jobs0, total0)
    requires ctx.readyQueue == []
    requires policy([], ctx.clock.time) == Success(Schedule([], [], ctx.clock.time))
    ensures goal == Success(Schedule(slices, Views(completed), ctx.clock.time))
    ensures ctx.memory.allocationByPid == alloc0 - IdSet(q0)
    ensures valid0 ==> ctx.memory.Valid()
  {
    assert [] + ctx.readyQueue == [];
    assert slices + [] == slices && Views(completed) + [] == Views(completed);
    assert IdSet(completed) == IdSet(q0);
  }
}
