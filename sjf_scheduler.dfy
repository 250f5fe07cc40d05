/**
 * Non-preemptive shortest job first: among the blocks ready, the one with the
 * least remaining time runs to completion, ties going to the earliest arrival.
 */
module Sjf {
  import opened Wrappers
  import opened Sequences
  import opened ProcessControl
  import opened ExecutionSlices
  import opened Clock
  import opened Memory
  import opened Context
  import opened Scheduling
  import opened Results

  /** getName. */
  const NAME: string := "Shortest Job First"

  /** The selection comparator: a comes strictly before b on remaining time, then arrival order. */
  predicate Before(a: PcbView, b: PcbView) {
    a.remainingTime < b.remainingTime || (a.remainingTime == b.remainingTime && a.arrivalOrder < b.arrivalOrder)
  }

  /**
   * The minimum search of the stream over ws[k..], having kept best so far: a
   * later element replaces the one kept only when it comes strictly before it.
   */
  function PickFrom(ws: seq<PcbView>, best: nat, k: nat): (i: nat)
    requires best < k <= |ws|
    ensures i < |ws|
    decreases |ws| - k
  {
    if k == |ws| then best
    else if Before(ws[k], ws[best]) then PickFrom(ws, k, k + 1)
    else PickFrom(ws, best, k + 1)
  }

  /** The index of the block the scheduler picks. */
  function Pick(ws: seq<PcbView>): (i: nat)
    requires ws != []
    ensures i < |ws|
  {
    PickFrom(ws, 0, 1)
  }

  /** An element that comes before the minimum of ws[..k] comes before all of them. */
  lemma BeforeAllAhead(ws: seq<PcbView>, best: nat, k: nat)
    requires best < k < |ws| && Before(ws[k], ws[best])
    requires forall j :: 0 <= j < k ==> !Before(ws[j], ws[best])
    ensures forall j :: 0 <= j < k ==> Before(ws[k], ws[j]) && !Before(ws[j], ws[k])
  {
    forall j | 0 <= j < k
      ensures Before(ws[k], ws[j]) && !Before(ws[j], ws[k])
    {
      assert !Before(ws[j], ws[best]);
    }
  }

  lemma {:induction false} PickFromMinimal(ws: seq<PcbView>, best: nat, k: nat)
    requires best < k <= |ws|
    requires forall j :: 0 <= j < k ==> !Before(ws[j], ws[best])
    requires forall j :: 0 <= j < best ==> Before(ws[best], ws[j])
    ensures var i := PickFrom(ws, best, k);
      && (forall j :: 0 <= j < |ws| ==> !Before(ws[j], ws[i]))
      && (forall j :: 0 <= j < i ==> Before(ws[i], ws[j]))
    decreases |ws| - k
  {
    if k < |ws| {
      if Before(ws[k], ws[best]) {
        BeforeAllAhead(ws, best, k);
        PickFromMinimal(ws, k, k + 1);
      } else {
        PickFromMinimal(ws, best, k + 1);
      }
    }
  }

  /**
   * The block picked is a minimum: no block comes before it; and it comes
   * strictly before every block ahead of it in the list, so among equal keys
   * the first is taken.
   */
  lemma PickMinimal(ws: seq<PcbView>)
    requires ws != []
    ensures forall j :: 0 <= j < |ws| ==> !Before(ws[j], ws[Pick(ws)])
    ensures forall j :: 0 <= j < Pick(ws) ==> Before(ws[Pick(ws)], ws[j])
  {
    PickFromMinimal(ws, 0, 1);
  }

  /** The order in which the blocks are picked: shortest first, the earliest arrival among equals. */
  function SjfOrder(ws: seq<PcbView>): seq<PcbView>
    decreases |ws|
  {
    if ws == [] then [] else var i := Pick(ws); [ws[i]] + SjfOrder(RemoveAt(ws, i))
  }

  /**
   * The rest of the run from a working set ws at the given time: each pick leaves
   * the set, is dispatched at the current time, consumes all its remaining time,
   * and completes when the clock has advanced by it, before the next pick is made;
   * the clock refuses a negative advance, which ends the run with that error.
   */
  function SjfSchedule(ws: seq<PcbView>, time: int): Result<Schedule, ClockError>
  {
    RunInOrder(SjfOrder(ws), time)
  }

  /** Every block of the working set is picked, exactly once. */
  lemma {:induction false} SjfOrderPermutes(ws: seq<PcbView>)
    ensures multiset(SjfOrder(ws)) == multiset(ws)
    decreases |ws|
  {
    if ws != [] {
      var i := Pick(ws);
      RemoveAtSpec(ws, i);
      SjfOrderPermutes(RemoveAt(ws, i));
    }
  }

  /** Blocks are picked shortest first: no block is picked after one that it comes before. */
  lemma {:induction false} SjfOrderSorted(ws: seq<PcbView>)
    ensures var order := SjfOrder(ws);
      forall a, b :: 0 <= a < b < |order| ==> !Before(order[b], order[a])
    decreases |ws|
  {
    if ws != [] {
      var i := Pick(ws);
      var rest := RemoveAt(ws, i);
      var order := SjfOrder(ws);
      PickMinimal(ws);
      SjfOrderSorted(rest);
      SjfOrderPermutes(rest);
      forall a, b | 0 <= a < b < |order|
        ensures !Before(order[b], order[a])
      {
        assert order[b] == SjfOrder(rest)[b - 1];
        if a == 0 {
          assert order[b] in multiset(rest);
          assert order[b] in multiset(ws);
        } else {
          assert order[a] == SjfOrder(rest)[a - 1];
        }
      }
    }
  }

  /** The run fails exactly when some block of the working set has a negative remaining time. */
  lemma SjfScheduleFails(ws: seq<PcbView>, time: int)
    ensures SjfSchedule(ws, time).Failure? <==> exists k :: 0 <= k < |ws| && ws[k].remainingTime < 0
  {
    var order := SjfOrder(ws);
    SjfOrderPermutes(ws);
    RunInOrderFails(order, time);
    if exists k :: 0 <= k < |ws| && ws[k].remainingTime < 0 {
      var k :| 0 <= k < |ws| && ws[k].remainingTime < 0;
      assert ws[k] in multiset(order);
    }
    if exists k :: 0 <= k < |order| && order[k].remainingTime < 0 {
      var k :| 0 <= k < |order| && order[k].remainingTime < 0;
      assert order[k] in multiset(ws);
    }
  }

  /**
   * Three ready jobs with bursts 5, 3 and 3 in arrival order 0, 1, 2 are
   * dispatched second, third, first.
   */
  lemma SjfExample(a: PcbView, b: PcbView, c: PcbView)
    requires a.remainingTime == 5 && b.remainingTime == 3 && c.remainingTime == 3
    requires a.arrivalOrder == 0 && b.arrivalOrder == 1 && c.arrivalOrder == 2
    ensures SjfOrder([a, b, c]) == [b, c, a]
  {
    var ws := [a, b, c];
    assert PickFrom(ws, 1, 3) == 1;
    assert PickFrom(ws, 1, 2) == 1;
    assert Pick(ws) == 1;
    assert RemoveAt(ws, 1) == [a, c];
    assert PickFrom([a, c], 1, 2) == 1;
    assert Pick([a, c]) == 1;
    assert RemoveAt([a, c], 1) == [a];
    assert SjfOrder([a]) == [a];
  }

  // ------------------------------------------------------------------ the run

  /** One step of the schedule: the picked block either ends the run or runs to completion first. */
  lemma {:induction false} SjfUnfold(ws: seq<PcbView>, i: nat, time: int)
    requires ws != [] && i == Pick(ws)
    ensures ws[i].remainingTime < 0 ==> SjfSchedule(ws, time) == Failure(NegativeDelta)
    ensures ws[i].remainingTime >= 0 ==>
      SjfSchedule(ws, time) == Resume([SliceOf(ws[i], time, ws[i].remainingTime)], [RunToCompletion(ws[i], time)],
                                      SjfSchedule(RemoveAt(ws, i), time + ws[i].remainingTime))
  {
    assert SjfOrder(ws) == [ws[i]] + SjfOrder(RemoveAt(ws, i));
    RunInOrderCons(ws[i], SjfOrder(RemoveAt(ws, i)), time);
  }

  /**
   * One dispatch, in terms of the schedule: a negative remaining time ends the
   * run with the clock's error; otherwise the rest of the run continues from the
   * remaining blocks.
   */
  lemma {:induction false} SjfStep(ws: seq<PcbView>, i: nat, time: int, slices: seq<ExecutionSlice>, done: seq<PcbView>,
                goal: Result<Schedule, ClockError>)
    requires ws != [] && i == Pick(ws) && goal == Resume(slices, done, SjfSchedule(ws, time))
    ensures ws[i].remainingTime < 0 ==> goal == Failure(NegativeDelta)
    ensures ws[i].remainingTime >= 0 ==>
              goal == Resume(slices + [SliceOf(ws[i], time, ws[i].remainingTime)], done + [RunToCompletion(ws[i], time)],
                             SjfSchedule(RemoveAt(ws, i), time + ws[i].remainingTime))
  {
    SjfUnfold(ws, i, time);
    ResumeTwice(slices, done, [SliceOf(ws[i], time, ws[i].remainingTime)], [RunToCompletion(ws[i], time)],
                SjfSchedule(RemoveAt(ws, i), time + ws[i].remainingTime));
  }

  /** SjfStep with the state after the step named by the caller. */
  lemma SjfAdvance(ws: seq<PcbView>, i: nat, time: int, slices: seq<ExecutionSlice>, done: seq<PcbView>,
                   goal: Result<Schedule, ClockError>, slices': seq<ExecutionSlice>, done': seq<PcbView>,
                   rest': seq<PcbView>, time': int)
    requires ws != [] && i == Pick(ws) && goal == Resume(slices, done, SjfSchedule(ws, time))
    requires ws[i].remainingTime >= 0 && slices' == slices + [SliceOf(ws[i], time, ws[i].remainingTime)]
    requires done' == done + [RunToCompletion(ws[i], time)]
    requires rest' == RemoveAt(ws, i) && time' == time + ws[i].remainingTime
    ensures goal == Resume(slices', done', SjfSchedule(rest', time'))
  {
    SjfStep(ws, i, time, slices, done, goal);
  }

  /**
   * The body of the loop once ready is not empty: the block picked is taken out
   * of ready, dispatched at the clock time, given all its remaining time, and,
   * once the clock has advanced by that much, marked completed, its memory
   * released and its slice recorded. A refused advance is returned as the error.
   */
  method DispatchNext(ctx: SimulationContext, ready: seq<ProcessControlBlock>, completed: seq<ProcessControlBlock>,
                      slices: seq<ExecutionSlice>, ghost goal: Result<Schedule, ClockError>,
                      ghost alloc0: map<int, int>, ghost valid0: bool, ghost q0: seq<ProcessControlBlock>)
    returns (next: ProcessControlBlock, rest: seq<ProcessControlBlock>, slice: ExecutionSlice, error: Option<ClockError>)
    requires ready != []
    requires RunState(ctx, SjfSchedule, ready, completed, slices, goal, alloc0, valid0)
    requires Covers(q0, ready, completed)
    modifies ctx.clock, ctx.memory, set p | p in ready
    ensures |rest| == |ready| - 1
    ensures error.Some? ==> goal == Failure(error.value)
    ensures error.None? ==> Covers(q0, rest, completed + [next])
    ensures error.None? ==> RunState(ctx, SjfSchedule, rest, completed + [next], slices + [slice], goal, alloc0, valid0)
  {
    ghost var ws := Views(ready);
    ghost var done := Views(completed);
    assert goal == Resume(slices, done, SjfSchedule(ws, ctx.clock.time));
    var i := Pick(Views(ready));
    next := ready[i];
    rest := RemoveAt(ready, i);
    ViewsAt(ready, i);
    ViewsRemoveAt(ready, i);
    RemoveAtMembers(ready, i);
    DistinctComplete(ready, i, completed);
    ReleasedAppend(alloc0, completed, next);
    ghost var v := ws[i];
    ghost var time := ctx.clock.time;
    slice, error := CompleteNext(next, rest, completed, ctx.clock, ctx.memory, v, time, RemoveAt(ws, i), done);
    if error == None {
      SjfAdvance(ws, i, time, slices, done, goal, slices + [slice], Views(completed + [next]),
                 Views(rest), ctx.clock.time);
    } else {
      SjfStep(ws, i, time, slices, done, goal);
    }
  }

  /**
   * One pass of run's loop: the ready queue is drained; with nothing to run the
   * loop goes on polling or, once the context allows, stops; otherwise the next
   * block is dispatched to completion. The loop state is kept, and a pass that
   * neither stops nor fails leaves less work.
   */
  method Iterate(ctx: SimulationContext, ready: seq<ProcessControlBlock>, completed: seq<ProcessControlBlock>,
                 slices: seq<ExecutionSlice>, ghost goal: Result<Schedule, ClockError>,
                 ghost alloc0: map<int, int>, ghost valid0: bool, ghost q0: seq<ProcessControlBlock>,
                 ghost jobs0: seq<ProcessControlBlock>, ghost total0: int)
    returns (ready': seq<ProcessControlBlock>, completed': seq<ProcessControlBlock>, slices': seq<ExecutionSlice>,
             stop: bool, error: Option<ClockError>)
    requires LoopState(ctx, SjfSchedule, q0, ready, completed, slices, goal, alloc0, valid0, jobs0, total0)
    modifies ctx, ctx.clock, ctx.memory, set p | p in q0
    ensures error.Some? ==> goal == Failure(error.value)
    ensures error.None? ==> LoopState(ctx, SjfSchedule, q0, ready', completed', slices', goal, alloc0, valid0, jobs0, total0)
    ensures error.None? && stop ==> ready' == [] && ctx.readyQueue == []
    ensures error.None? && !stop ==> |ready'| + |ctx.readyQueue| < old(|ready| + |ctx.readyQueue|)
    ensures ctx.jobQueue == jobs0 && ctx.totalJobs == total0 && ctx.readerFinished
  {
    ready', completed', slices', stop, error := ready, completed, slices, false, None;
    ready' := Drain(ctx, SjfSchedule, ready, completed, slices, goal, alloc0, valid0, q0);
    if ready' == [] {
      var pending := ctx.TakeNextReady();
      match pending {
        case Some(p) =>
          ready' := ready' + [p];
        case None =>
          if ctx.CanTerminate(|completed|) {
            stop := true;
          }
      }
      return;
    }
    var next, rest, slice;
    next, rest, slice, error := DispatchNext(ctx, ready', completed, slices, goal, alloc0, valid0, q0);
    if error.None? {
      ready', completed', slices' := rest, completed + [next], slices + [slice];
      assert ready' + ctx.readyQueue == ready';
    }
  }

  /**
   * run, for a working set already admitted: the reader and the loader are done
   * and every job the reader counted is in the ready queue. The loop drains the
   * ready queue, dispatches until nothing is left and stops once the context
   * says it may; the result is the schedule SjfSchedule gives for the blocks
   * queued at the clock time the run starts, or the error the clock raised.
   */
  method Run(ctx: SimulationContext) returns (r: Result<SchedulingResult, ClockError>)
    requires ctx.readerFinished && ctx.loader.loadingComplete
    requires ctx.totalJobs <= |ctx.readyQueue|
    requires Distinct(ctx.readyQueue)
    modifies ctx, ctx.clock, ctx.memory, set p | p in ctx.readyQueue
    ensures var goal := SjfSchedule(old(Views(ctx.readyQueue)), old(ctx.clock.time));
      && (r.Failure? <==> goal.Failure?)
      && (r.Failure? ==> r.error == goal.error)
      && (r.Success? ==>
            && r.value == SchedulingResult(NAME, goal.value.slices, goal.value.completed)
            && ctx.clock.time == goal.value.endTime
            && ctx.readyQueue == []
            && ctx.memory.allocationByPid == old(ctx.memory.allocationByPid) - IdSet(old(ctx.readyQueue))
            && (old(ctx.memory.Valid()) ==> ctx.memory.Valid()))
    ensures ctx.jobQueue == old(ctx.jobQueue) && ctx.totalJobs == old(ctx.totalJobs) && ctx.readerFinished
  {
    ghost var q0 := ctx.readyQueue;
    ghost var goal := SjfSchedule(Views(ctx.readyQueue), ctx.clock.time);
    ghost var alloc0 := ctx.memory.allocationByPid;
    ghost var valid0 := ctx.memory.Valid();
    ghost var jobs0, total0 := ctx.jobQueue, ctx.totalJobs;
    LoopStart(ctx, SjfSchedule, alloc0, valid0);
    var ready: seq<ProcessControlBlock> := [];
    var completed: seq<ProcessControlBlock> := [];
    var slices: seq<ExecutionSlice> := [];

    while !ctx.CanTerminate(|completed|) || ready != []
      invariant LoopState(ctx, SjfSchedule, q0, ready, completed, slices, goal, alloc0, valid0, jobs0, total0)
      decreases |ready| + |ctx.readyQueue|
    {
      var stop, error;
      ready, completed, slices, stop, error := Iterate(ctx, ready, completed, slices, goal, alloc0, valid0, q0, jobs0, total0);
      if error.Some? {
        return Failure(error.value);
      }
      if stop {
        break;
      }
    }
    LoopDone(ctx, SjfSchedule, q0, completed, slices, goal, alloc0, valid0, jobs0, total0);
    r := Success(SchedulingResult(NAME, slices, Views(completed)));
  }
}
