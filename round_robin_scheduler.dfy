/**
 * Preemptive round-robin scheduling with a fixed quantum. The scheduler keeps
 * its own FIFO queue: blocks drained from the ready queue join its tail, the
 * head is dispatched for at most one quantum, and a block with time left goes
 * back to the tail while one without is completed and its memory released.
 */
module RoundRobin {
  import opened Wrappers
  import opened Sequences
  import opened JavaLang
  import opened ProcessControl
  import opened ExecutionSlices
  import opened Clock
  import opened Memory
  import opened Context
  import opened Scheduling
  import opened Results

  /** The CPU time one dispatch asks for. */
  const TIME_QUANTUM: int := 7

  /** getName: the quantum written into the name. */
  const NAME: string := "Round Robin (q=7)"

  // --------------------------------------------------------------- one quantum

  /** The block after it is dispatched at time t and asks for one quantum. */
  function Ran(v: PcbView, t: int): PcbView {
    Consumed(Dispatched(v, t), TIME_QUANTUM)
  }

  /** The CPU time one dispatch of the block is granted: a quantum, or what it has left if that is less. */
  function Grant(v: PcbView): int {
    Granted(v, TIME_QUANTUM)
  }

  /**
   * markRequeued at time t: ready again, with its admission metadata as it was
   * (the degree passed along is not used for a block that is not newly admitted).
   */
  function Requeued(v: PcbView, t: int): PcbView {
    Readied(v, t, 0, false)
  }

  /** A requeued block is ready again from t on, and its admission metadata is as it was. */
  lemma RequeueKeepsAdmission(v: PcbView, t: int)
    ensures Requeued(v, t).state == Ready && Requeued(v, t).lastReadyTimestamp == t
    ensures Requeued(v, t).readyAdmissionTime == v.readyAdmissionTime
    ensures Requeued(v, t).admissionDegree == v.admissionDegree
  {
  }

  /** A dispatched block keeps time left after its quantum, and is requeued rather than completed. */
  predicate Preempted(v: PcbView) {
    v.remainingTime > TIME_QUANTUM
  }

  /** The fields of a dispatch that the policy and the run both depend on. */
  lemma RanFacts(v: PcbView, t: int)
    requires v.remainingTime >= 0
    ensures 0 <= Grant(v) <= TIME_QUANTUM
    ensures Grant(v) == if Preempted(v) then TIME_QUANTUM else v.remainingTime
    ensures Ran(v, t).remainingTime == v.remainingTime - Grant(v)
    ensures Ran(v, t).remainingTime > 0 <==> Preempted(v)
    ensures Ran(v, t).id == v.id
  {
    var d := Dispatched(v, t);
    assert d.remainingTime == v.remainingTime && d.id == v.id;
  }

  /** Requeueing or completing a block keeps its identifier and its remaining time. */
  lemma EndFacts(v: PcbView, t: int)
    ensures Requeued(v, t).id == v.id && Requeued(v, t).remainingTime == v.remainingTime
    ensures Completed(v, t).id == v.id && Completed(v, t).remainingTime == v.remainingTime
  {
  }

  /** The queue after one quantum of its head: the head goes to the tail when it was preempted. */
  function Rotate(q: seq<PcbView>, time: int): seq<PcbView>
    requires q != []
  {
    if Preempted(q[0]) then q[1..] + [Requeued(Ran(q[0], time), time + Grant(q[0]))] else q[1..]
  }

  /** What one quantum of a block completes: the block itself, unless it was preempted. */
  function Retired(v: PcbView, time: int): seq<PcbView> {
    if Preempted(v) then [] else [Completed(Ran(v, time), time + Grant(v))]
  }

  /** The work a block still owes the queue: its positive remaining time, plus one for its place. */
  function Cost(v: PcbView): nat {
    if v.remainingTime > 0 then v.remainingTime + 1 else 1
  }

  /** The work the whole queue still owes; every quantum lowers it. */
  function Weight(q: seq<PcbView>): nat
    decreases |q|
  {
    if q == [] then 0 else Cost(q[0]) + Weight(q[1..])
  }

  lemma {:induction false} WeightAppend(q: seq<PcbView>, v: PcbView)
    ensures Weight(q + [v]) == Weight(q) + Cost(v)
    decreases |q|
  {
    if q == [] {
      assert [v][1..] == [];
    } else {
      assert (q + [v])[1..] == q[1..] + [v];
      WeightAppend(q[1..], v);
    }
  }

  lemma RotateWeight(q: seq<PcbView>, time: int)
    requires q != [] && q[0].remainingTime >= 0
    ensures Weight(Rotate(q, time)) < Weight(q)
  {
    if Preempted(q[0]) {
      RanFacts(q[0], time);
      WeightAppend(q[1..], Requeued(Ran(q[0], time), time + Grant(q[0])));
    }
  }

  // ---------------------------------------------------------------- the policy

  /**
   * The rest of the run from queue q at the given time: the head is dispatched
   * and granted at most a quantum; the clock advances by the grant, which it
   * refuses when negative (exactly when the head's remaining time is); one slice
   * is recorded; a preempted block is requeued at the tail at the new time, any
   * other is completed.
   */
  function RrSchedule(q: seq<PcbView>, time: int): Result<Schedule, ClockError>
    decreases Weight(q)
  {
    if q == [] then Success(Schedule([], [], time))
    else if q[0].remainingTime < 0 then Failure(NegativeDelta)
    else
      RotateWeight(q, time);
      Resume([SliceOf(q[0], time, Grant(q[0]))], Retired(q[0], time), RrSchedule(Rotate(q, time), time + Grant(q[0])))
  }

  /** One quantum of the head, in terms of the schedule. */
  lemma RrUnfold(q: seq<PcbView>, time: int)
    requires q != [] && q[0].remainingTime >= 0
    ensures RrSchedule(q, time) ==
              Resume([SliceOf(q[0], time, Grant(q[0]))], Retired(q[0], time), RrSchedule(Rotate(q, time), time + Grant(q[0])))
  {
  }

  // ------------------------------------------------------------ its properties

  /**
   * A successful run is one quantum of the head followed by a successful run of
   * the rotated queue from the time the quantum ends.
   */
  lemma RrStep(q: seq<PcbView>, time: int)
    requires q != [] && RrSchedule(q, time).Success?
    ensures q[0].remainingTime >= 0 && 0 <= Grant(q[0]) <= TIME_QUANTUM
    ensures Weight(Rotate(q, time)) < Weight(q)
    ensures RrSchedule(Rotate(q, time), time + Grant(q[0])).Success?
    ensures var s, rest := RrSchedule(q, time).value, RrSchedule(Rotate(q, time), time + Grant(q[0])).value;
      && s.slices == [SliceOf(q[0], time, Grant(q[0]))] + rest.slices
      && s.completed == Retired(q[0], time) + rest.completed
      && s.endTime == rest.endTime
  {
    RanFacts(q[0], time);
    RotateWeight(q, time);
    RrUnfold(q, time);
  }

  /** A successful run covers the clock from the start to the end time with its slices, without gaps or overlaps. */
  lemma {:induction false} RrTimeline(q: seq<PcbView>, time: int)
    requires RrSchedule(q, time).Success?
    ensures Timeline(RrSchedule(q, time).value.slices, time, RrSchedule(q, time).value.endTime)
    decreases Weight(q)
  {
    if q != [] {
      RrStep(q, time);
      var t := time + Grant(q[0]);
      RrTimeline(Rotate(q, time), t);
      var rest := RrSchedule(Rotate(q, time), t).value;
      var s := RrSchedule(q, time).value;
      assert s.slices[0] == SliceOf(q[0], time, Grant(q[0]));
      assert s.slices[1..] == rest.slices;
    }
  }

  /** No slice of a successful run is longer than the quantum. */
  lemma {:induction false} RrSliceBound(q: seq<PcbView>, time: int)
    requires RrSchedule(q, time).Success?
    ensures var s := RrSchedule(q, time).value;
      forall k :: 0 <= k < |s.slices| ==> 0 <= s.slices[k].Duration() <= TIME_QUANTUM
    decreases Weight(q)
  {
    if q != [] {
      RrStep(q, time);
      var t := time + Grant(q[0]);
      RrSliceBound(Rotate(q, time), t);
      var rest := RrSchedule(Rotate(q, time), t).value;
      var s := RrSchedule(q, time).value;
      forall k | 0 <= k < |s.slices|
        ensures 0 <= s.slices[k].Duration() <= TIME_QUANTUM
      {
        if k > 0 {
          assert s.slices[k] == rest.slices[k - 1];
        }
      }
    }
  }

  /** The remaining time the queue holds for one process. */
  function RemainingOf(q: seq<PcbView>, pid: int): int
    decreases |q|
  {
    if q == [] then 0 else (if q[0].id == pid then q[0].remainingTime else 0) + RemainingOf(q[1..], pid)
  }

  lemma {:induction false} RemainingOfAppend(q: seq<PcbView>, v: PcbView, pid: int)
    ensures RemainingOf(q + [v], pid) == RemainingOf(q, pid) + (if v.id == pid then v.remainingTime else 0)
    decreases |q|
  {
    if q == [] {
      assert [v][1..] == [];
    } else {
      assert (q + [v])[1..] == q[1..] + [v];
      RemainingOfAppend(q[1..], v, pid);
    }
  }

  /** After one quantum the queue holds for each process what it held less what that quantum granted. */
  lemma RotateRemaining(q: seq<PcbView>, time: int, pid: int)
    requires q != [] && q[0].remainingTime >= 0
    ensures RemainingOf(Rotate(q, time), pid) == RemainingOf(q, pid) - (if q[0].id == pid then Grant(q[0]) else 0)
  {
    RanFacts(q[0], time);
    EndFacts(Ran(q[0], time), time + Grant(q[0]));
    if Preempted(q[0]) {
      RemainingOfAppend(q[1..], Requeued(Ran(q[0], time), time + Grant(q[0])), pid);
    }
  }

  /**
   * Conservation of CPU time: in a successful run the slices of each process
   * add up to the remaining time the queue held for it at the start (for a
   * block not yet run, its burst time).
   */
  lemma {:induction false} RrDurations(q: seq<PcbView>, time: int, pid: int)
    requires RrSchedule(q, time).Success?
    ensures DurationOf(RrSchedule(q, time).value.slices, pid) == RemainingOf(q, pid)
    decreases Weight(q)
  {
    if q != [] {
      RrStep(q, time);
      var t := time + Grant(q[0]);
      RotateRemaining(q, time, pid);
      RrDurations(Rotate(q, time), t, pid);
      var rest := RrSchedule(Rotate(q, time), t).value;
      var s := RrSchedule(q, time).value;
      assert s.slices[0] == SliceOf(q[0], time, Grant(q[0]));
      assert s.slices[1..] == rest.slices;
    }
  }

  /** The process identifier of a block. */
  function Pid(v: PcbView): int {
    v.id
  }

  /** After one quantum, the identifiers still queued and those it completed are those queued before. */
  lemma RotatePids(q: seq<PcbView>, time: int)
    requires q != [] && q[0].remainingTime >= 0
    ensures multiset(Map(Pid, Retired(q[0], time))) + multiset(Map(Pid, Rotate(q, time))) == multiset(Map(Pid, q))
  {
    var v := q[0];
    var r := Ran(v, time);
    var t := time + Grant(v);
    RanFacts(v, time);
    EndFacts(r, t);
    assert q == [v] + q[1..];
    MapCons(Pid, v, q[1..]);
    if Preempted(v) {
      MapConcat(Pid, q[1..], [Requeued(r, t)]);
      assert Map(Pid, [Requeued(r, t)]) == [v.id];
      assert Map(Pid, Retired(v, time)) == [];
    } else {
      assert Map(Pid, Retired(v, time)) == [v.id];
    }
  }

  /**
   * In a successful run every block of the queue is completed exactly once:
   * the completed list holds the same identifiers, each as often.
   */
  lemma {:induction false} RrCompletesEach(q: seq<PcbView>, time: int)
    requires RrSchedule(q, time).Success?
    ensures multiset(Map(Pid, RrSchedule(q, time).value.completed)) == multiset(Map(Pid, q))
    decreases Weight(q)
  {
    if q != [] {
      RrStep(q, time);
      var t := time + Grant(q[0]);
      RrCompletesEach(Rotate(q, time), t);
      RotatePids(q, time);
      var rest := RrSchedule(Rotate(q, time), t).value;
      MapConcat(Pid, Retired(q[0], time), rest.completed);
    }
  }

  /** Every block a successful run completes is terminated with no time left. */
  lemma {:induction false} RrCompletesTerminated(q: seq<PcbView>, time: int)
    requires RrSchedule(q, time).Success?
    ensures var s := RrSchedule(q, time).value;
      forall k :: 0 <= k < |s.completed| ==> s.completed[k].state == Terminated && s.completed[k].remainingTime == 0
    decreases Weight(q)
  {
    if q != [] {
      RrStep(q, time);
      var t := time + Grant(q[0]);
      RrCompletesTerminated(Rotate(q, time), t);
      var rest := RrSchedule(Rotate(q, time), t).value;
      var s := RrSchedule(q, time).value;
      var front := Retired(q[0], time);
      forall k | 0 <= k < |s.completed|
        ensures s.completed[k].state == Terminated && s.completed[k].remainingTime == 0
      {
        if k < |front| {
          RanFacts(q[0], time);
          EndFacts(Ran(q[0], time), t);
          assert s.completed[k] == Completed(Ran(q[0], time), t);
        } else {
          assert s.completed[k] == rest.completed[k - |front|];
        }
      }
    }
  }

  /** One quantum of a head with time left neither adds nor removes a block with negative remaining time. */
  lemma RotateNegative(q: seq<PcbView>, time: int)
    requires q != [] && q[0].remainingTime >= 0
    ensures (exists k :: 0 <= k < |Rotate(q, time)| && Rotate(q, time)[k].remainingTime < 0) <==>
            (exists k :: 0 <= k < |q| && q[k].remainingTime < 0)
  {
    var next := Rotate(q, time);
    RanFacts(q[0], time);
    EndFacts(Ran(q[0], time), time + Grant(q[0]));
    assert forall k :: 0 <= k < |q| - 1 ==> next[k] == q[k + 1];
    assert |next| == |q| || |next| == |q| - 1;
    assert |next| == |q| ==> next[|q| - 1].remainingTime > 0;
    if exists k :: 0 <= k < |q| && q[k].remainingTime < 0 {
      var k :| 0 <= k < |q| && q[k].remainingTime < 0;
      assert next[k - 1] == q[k];
    }
  }

  /** The run fails exactly when some block of the queue has a negative remaining time. */
  lemma {:induction false} RrScheduleFails(q: seq<PcbView>, time: int)
    ensures RrSchedule(q, time).Failure? <==> exists k :: 0 <= k < |q| && q[k].remainingTime < 0
    decreases Weight(q)
  {
    if q != [] && q[0].remainingTime >= 0 {
      RrUnfold(q, time);
      RotateWeight(q, time);
      RrScheduleFails(Rotate(q, time), time + Grant(q[0]));
      RotateNegative(q, time);
    }
  }

  /**
   * Two jobs queued at time 0, a needing 10 and b needing 3: a runs for a
   * quantum and goes to the tail, b runs to completion, then a finishes.
   */
  lemma RrExample(a: PcbView, b: PcbView)
    requires a.remainingTime == 10 && b.remainingTime == 3 && a.id == 1 && b.id == 2
    ensures RrSchedule([a, b], 0).Success?
    ensures RrSchedule([a, b], 0).value.slices ==
              [ExecutionSlice(1, 0, 7), ExecutionSlice(2, 7, 10), ExecutionSlice(1, 10, 13)]
    ensures RrSchedule([a, b], 0).value.endTime == 13
  {
    var a1 := Requeued(Ran(a, 0), 7);
    RanFacts(a, 0);
    EndFacts(Ran(a, 0), 7);
    RanFacts(b, 7);
    RanFacts(a1, 10);
    RrUnfold([a, b], 0);
    assert Rotate([a, b], 0) == [b, a1];
    RrUnfold([b, a1], 7);
    assert Rotate([b, a1], 7) == [a1];
    RrUnfold([a1], 10);
    assert Rotate([a1], 10) == [];
    ResumeTwice([SliceOf(a, 0, 7)], [], [SliceOf(b, 7, 3)], Retired(b, 7), RrSchedule([a1], 10));
  }

  // ------------------------------------------------------------------ the run

  /** One quantum of the head, in terms of the whole run's schedule. */
  lemma RrAdvance(ws: seq<PcbView>, time: int, slices: seq<ExecutionSlice>, done: seq<PcbView>,
                  goal: Result<Schedule, ClockError>, slices': seq<ExecutionSlice>, done': seq<PcbView>,
                  ws': seq<PcbView>, time': int)
    requires ws != [] && goal == Resume(slices, done, RrSchedule(ws, time))
    requires ws[0].remainingTime >= 0 && time' == time + Grant(ws[0])
    requires slices' == slices + [SliceOf(ws[0], time, Grant(ws[0]))]
    requires done' == done + Retired(ws[0], time) && ws' == Rotate(ws, time)
    ensures goal == Resume(slices', done', RrSchedule(ws', time'))
    ensures Weight(ws') < Weight(ws)
  {
    RrUnfold(ws, time);
    RotateWeight(ws, time);
    ResumeTwice(slices, done, [SliceOf(ws[0], time, Grant(ws[0]))], Retired(ws[0], time), RrSchedule(ws', time'));
  }

  /** A quantum the clock refuses ends the whole run with its error. */
  lemma RrFailStep(ws: seq<PcbView>, time: int, slices: seq<ExecutionSlice>, done: seq<PcbView>,
                   goal: Result<Schedule, ClockError>)
    requires ws != [] && goal == Resume(slices, done, RrSchedule(ws, time))
    requires ws[0].remainingTime < 0
    ensures goal == Failure(NegativeDelta)
  {
  }

  /** The queue after one quantum, for a head followed by the rest. */
  lemma RotateShape(ws: seq<PcbView>, time: int)
    requires ws != []
    ensures Preempted(ws[0]) ==> Rotate(ws, time) == ws[1..] + [Requeued(Ran(ws[0], time), time + Grant(ws[0]))]
    ensures Preempted(ws[0]) ==> Retired(ws[0], time) == []
    ensures !Preempted(ws[0]) ==> Rotate(ws, time) == ws[1..]
    ensures !Preempted(ws[0]) ==> Retired(ws[0], time) == [Completed(Ran(ws[0], time), time + Grant(ws[0]))]
  {
  }

  /**
   * One dispatch of the head for a quantum: it is dispatched at the clock time
   * and asks for a quantum, the clock advances by what it was granted, and the
   * slice covers that time. A preempted block goes to the tail of the queue; any
   * other joins the completed ones and its memory is released. The fields of
   * the queue and of the completed blocks become what one quantum of the policy
   * makes of them.
   */
  method RunQuantum(current: ProcessControlBlock, rest: seq<ProcessControlBlock>, completed: seq<ProcessControlBlock>,
                    clock: SimulationClock, memory: MemoryManager, ghost ws: seq<PcbView>, ghost time: int,
                    ghost done: seq<PcbView>)
    returns (rest': seq<ProcessControlBlock>, completed': seq<ProcessControlBlock>, slice: ExecutionSlice,
             error: Option<ClockError>)
    requires current !in rest && current !in completed
    requires ws != [] && ws[0] == current.View() && ws[1..] == Views(rest)
    requires time == clock.time && done == Views(completed)
    modifies current, clock, memory
    ensures error == None <==> ws[0].remainingTime >= 0
    ensures error.Some? ==> error == Some(NegativeDelta)
    ensures error == None ==>
              && slice == SliceOf(ws[0], time, Grant(ws[0]))
              && clock.time == time + Grant(ws[0])
              && Views(rest') == Rotate(ws, time)
              && Views(completed') == done + Retired(ws[0], time)
              && (old(memory.Valid()) ==> memory.Valid())
    ensures error == None && Preempted(ws[0]) ==>
              && rest' == rest + [current] && completed' == completed
              && memory.allocationByPid == old(memory.allocationByPid)
    ensures error == None && !Preempted(ws[0]) ==>
              && rest' == rest && completed' == completed + [current]
              && memory.allocationByPid == old(memory.allocationByPid) - {current.id}
  {
    var start, requeued;
    start, requeued, error := Quantum(current, clock, memory);
    slice := ExecutionSlice(current.id, start, clock.GetTime());
    rest', completed' := rest, completed;
    if error == None {
      RotateShape(ws, time);
      if requeued {
        rest' := rest + [current];
        ViewsAppend(rest, current);
      } else {
        completed' := completed + [current];
        ViewsAppend(completed, current);
      }
    }
  }

  /** markRequeued gives a block that is not newly admitted the same fields whatever degree it is told. */
  lemma RequeueIgnoresDegree(v: PcbView, t: int, degree: int)
    ensures Readied(v, t, degree, false) == Requeued(v, t)
  {
  }

  /**
   * The quantum itself: the block is dispatched at the clock time and asks for
   * a quantum, and the clock advances by what it was granted, refusing a
   * negative grant. A block with time left is marked requeued at the new time
   * (told the number of blocks holding memory, which it does not use); any other
   * is marked completed and its memory released.
   */
  method Quantum(current: ProcessControlBlock, clock: SimulationClock, memory: MemoryManager)
    returns (start: int, requeued: bool, error: Option<ClockError>)
    modifies current, clock, memory
    ensures start == old(clock.time)
    ensures old(current.remainingTime) < 0 ==> error == Some(NegativeDelta)
    ensures old(current.remainingTime) >= 0 ==>
              && error == None
              && requeued == Preempted(old(current.View()))
              && clock.time == start + Grant(old(current.View()))
              && current.View() == (if requeued then Requeued(Ran(old(current.View()), start), clock.time)
                                    else Completed(Ran(old(current.View()), start), clock.time))
              && memory.allocationByPid == (if requeued then old(memory.allocationByPid)
                                            else old(memory.allocationByPid) - {current.id})
              && (old(memory.Valid()) ==> memory.Valid())
  {
    ghost var v := current.View();
    start := clock.GetTime();
    current.MarkDispatched(start);
    var executed := current.ConsumeCpu(TIME_QUANTUM);
    var advanced := clock.Advance(executed);
    if advanced.Failure? {
      return start, false, Some(advanced.error);
    }
    error := None;
    RanFacts(v, start);
    if current.remainingTime > 0 {
      var count := memory.AllocatedProcessCount();
      current.MarkRequeued(clock.GetTime(), count);
      RequeueIgnoresDegree(Ran(v, start), clock.time, count);
      requeued := true;
    } else {
      current.MarkCompleted(clock.GetTime());
      memory.Release(current);
      requeued := false;
    }
  }

  /**
   * The head of the queue can move to its tail or to the completed ones: either
   * way the blocks stay distinct and the run still covers the blocks it started with.
   */
  lemma HeadMoves(q0: seq<ProcessControlBlock>, queue: seq<ProcessControlBlock>, completed: seq<ProcessControlBlock>)
    requires queue != [] && Distinct(queue + completed) && Covers(q0, queue, completed)
    ensures queue[0] !in queue[1..] && queue[0] !in completed
    ensures Distinct(queue[1..] + [queue[0]] + completed) && Covers(q0, queue[1..] + [queue[0]], completed)
    ensures Distinct(queue[1..] + (completed + [queue[0]])) && Covers(q0, queue[1..], completed + [queue[0]])
  {
    var s := queue + completed;
    var t := queue[1..] + [queue[0]] + completed;
    var n := |queue|;
    var pos := (a: int) => if a < n - 1 then a + 1 else if a == n - 1 then 0 else a;
    assert forall a :: 0 <= a < |t| ==> t[a] == s[pos(a)];
    forall a, b | 0 <= a < b < |t|
      ensures t[a] != t[b]
    {
      assert t[a] == s[pos(a)] && t[b] == s[pos(b)];
    }
    assert queue == [queue[0]] + queue[1..];
    assert RemoveAt(queue, 0) == queue[1..];
    DistinctComplete(queue, 0, completed);
  }

  /**
   * The body of the loop once the queue is not empty: the head is polled and
   * run for a quantum; it goes to the tail or joins the completed ones, and the
   * slice is recorded. A refused advance is returned as the error. The queue
   * then owes less work.
   */
  method DispatchHead(ctx: SimulationContext, queue: seq<ProcessControlBlock>, completed: seq<ProcessControlBlock>,
                      slices: seq<ExecutionSlice>, ghost goal: Result<Schedule, ClockError>,
                      ghost alloc0: map<int, int>, ghost valid0: bool, ghost q0: seq<ProcessControlBlock>)
    returns (queue': seq<ProcessControlBlock>, completed': seq<ProcessControlBlock>, slice: ExecutionSlice,
             error: Option<ClockError>)
    requires queue != []
    requires RunState(ctx, RrSchedule, queue, completed, slices, goal, alloc0, valid0)
    requires Covers(q0, queue, completed)
    modifies ctx.clock, ctx.memory, set p | p in queue
    ensures error.Some? ==> goal == Failure(error.value)
    ensures error.None? ==> Covers(q0, queue', completed') && |queue'| + |completed'| == |queue| + |completed|
    ensures error.None? ==> RunState(ctx, RrSchedule, queue', completed', slices + [slice], goal, alloc0, valid0)
    ensures error.None? ==> Weight(Views(queue')) < old(Weight(Views(queue)))
  {
    ghost var ws := Views(queue);
    ghost var done := Views(completed);
    ghost var time := ctx.clock.time;
    var current := queue[0];
    var rest := queue[1..];
    ViewsAt(queue, 0);
    assert Views(queue) == [current.View()] + Views(rest);
    assert Views(rest) == ws[1..];
    HeadMoves(q0, queue, completed);
    ReleasedAppend(alloc0, completed, current);
    queue', completed', slice, error := RunQuantum(current, rest, completed, ctx.clock, ctx.memory, ws, time, done);
    if error == None {
      RrAdvance(ws, time, slices, done, goal, slices + [slice], Views(completed'), Views(queue'), ctx.clock.time);
    } else {
      RrFailStep(ws, time, slices, done, goal);
    }
  }

  /** The loop over the drained buffer: each block is added at the tail, in drain order. */
  method AppendEach(queue: seq<ProcessControlBlock>, buffer: seq<ProcessControlBlock>) returns (r: seq<ProcessControlBlock>)
    ensures r == queue + buffer
  {
    r := queue;
    for k := 0 to |buffer|
      invariant r == queue + buffer[..k]
    {
      assert buffer[..k + 1] == buffer[..k] + [buffer[k]];
      r := r + [buffer[k]];
    }
    assert buffer[..|buffer|] == buffer;
  }

  /** The start of each pass: the ready queue is drained into a cleared buffer whose blocks join the tail. */
  method DrainIntoQueue(ctx: SimulationContext, queue: seq<ProcessControlBlock>) returns (r: seq<ProcessControlBlock>)
    modifies ctx
    ensures r == queue + old(ctx.readyQueue) && ctx.readyQueue == []
    ensures ctx.jobQueue == old(ctx.jobQueue) && ctx.readerFinished == old(ctx.readerFinished)
    ensures ctx.totalJobs == old(ctx.totalJobs)
  {
    var buffer := ctx.DrainReadyQueue([]);
    assert buffer == old(ctx.readyQueue);
    r := AppendEach(queue, buffer);
  }

  /** The drain step of run's loop, which keeps the loop state. */
  method DrainToTail(ctx: SimulationContext, ghost policy: Policy, queue: seq<ProcessControlBlock>,
                     ghost completed: seq<ProcessControlBlock>, ghost slices: seq<ExecutionSlice>,
                     ghost goal: Result<Schedule, ClockError>, ghost alloc0: map<int, int>, ghost valid0: bool,
                     ghost q0: seq<ProcessControlBlock>)
    returns (r: seq<ProcessControlBlock>)
    requires RunState(ctx, policy, queue + ctx.readyQueue, completed, slices, goal, alloc0, valid0)
    requires Covers(q0, queue + ctx.readyQueue, completed)
    modifies ctx
    ensures r == queue + old(ctx.readyQueue) && ctx.readyQueue == []
    ensures RunState(ctx, policy, r, completed, slices, goal, alloc0, valid0)
    ensures Covers(q0, r, completed)
    ensures ctx.jobQueue == old(ctx.jobQueue) && ctx.readerFinished == old(ctx.readerFinished)
    ensures ctx.totalJobs == old(ctx.totalJobs)
  {
    r := DrainIntoQueue(ctx, queue);
  }

  /**
   * The branch of run's loop for an empty queue: it waits for the next ready
   * block and adds it, or stops once the context allows. With every job already
   * admitted and completed, nothing arrives and the loop stops.
   */
  method AwaitReady(ctx: SimulationContext, ghost policy: Policy, completed: seq<ProcessControlBlock>,
                    ghost slices: seq<ExecutionSlice>, ghost goal: Result<Schedule, ClockError>,
                    ghost alloc0: map<int, int>, ghost valid0: bool, ghost q0: seq<ProcessControlBlock>,
                    ghost jobs0: seq<ProcessControlBlock>, ghost total0: int)
    returns (queue': seq<ProcessControlBlock>, stop: bool)
    requires LoopState(ctx, policy, q0, [], completed, slices, goal, alloc0, valid0, jobs0, total0)
    requires ctx.readyQueue == []
    modifies ctx
    ensures LoopState(ctx, policy, q0, queue', completed, slices, goal, alloc0, valid0, jobs0, total0)
    ensures stop && queue' == [] && ctx.readyQueue == []
  {
    queue', stop := [], false;
    var pending := ctx.TakeNextReady();
    match pending {
      case Some(p) =>
        queue' := [p];
      case None =>
        if ctx.CanTerminate(|completed|) {
          stop := true;
        }
    }
  }

  /**
   * One pass of run's loop: the ready queue is drained to the tail; with nothing
   * to run the loop goes on polling or, once the context allows, stops; otherwise
   * the head is run for a quantum. The loop state is kept, and a pass that
   * neither stops nor fails leaves less work.
   */
  method Iterate(ctx: SimulationContext, queue: seq<ProcessControlBlock>, completed: seq<ProcessControlBlock>,
                 slices: seq<ExecutionSlice>, ghost goal: Result<Schedule, ClockError>,
                 ghost alloc0: map<int, int>, ghost valid0: bool, ghost q0: seq<ProcessControlBlock>,
                 ghost jobs0: seq<ProcessControlBlock>, ghost total0: int)
    returns (queue': seq<ProcessControlBlock>, completed': seq<ProcessControlBlock>, slices': seq<ExecutionSlice>,
             stop: bool, error: Option<ClockError>)
    requires LoopState(ctx, RrSchedule, q0, queue, completed, slices, goal, alloc0, valid0, jobs0, total0)
    modifies ctx, ctx.clock, ctx.memory, set p | p in q0
    ensures error.Some? ==> goal == Failure(error.value)
    ensures error.None? ==> LoopState(ctx, RrSchedule, q0, queue', completed', slices', goal, alloc0, valid0, jobs0, total0)
    ensures error.None? && stop ==> queue' == [] && ctx.readyQueue == []
    ensures error.None? && !stop ==>
              Weight(Views(queue' + ctx.readyQueue)) < old(Weight(Views(queue + ctx.readyQueue)))
    ensures ctx.jobQueue == jobs0 && ctx.totalJobs == total0 && ctx.readerFinished
  {
    queue', completed', slices', stop, error := queue, completed, slices, false, None;
    queue' := DrainToTail(ctx, RrSchedule, queue, completed, slices, goal, alloc0, valid0, q0);
    if queue' == [] {
      queue', stop := AwaitReady(ctx, RrSchedule, completed, slices, goal, alloc0, valid0, q0, jobs0, total0);
      return;
    }
    var slice;
    queue', completed', slice, error := DispatchHead(ctx, queue', completed, slices, goal, alloc0, valid0, q0);
    if error.None? {
      slices' := slices + [slice];
      assert queue' + ctx.readyQueue == queue';
    }
  }

  /**
   * run, for a working set already admitted: the reader and the loader are done
   * and every job the reader counted is in the ready queue. The result is the
   * schedule RrSchedule gives for the blocks queued at the clock time the run
   * starts, or the error the clock raised.
   */
  method Run(ctx: SimulationContext) returns (r: Result<SchedulingResult, ClockError>)
    requires ctx.readerFinished && ctx.loader.loadingComplete
    requires ctx.totalJobs <= |ctx.readyQueue|
    requires Distinct(ctx.readyQueue)
    modifies ctx, ctx.clock, ctx.memory, set p | p in ctx.readyQueue
    ensures var goal := RrSchedule(old(Views(ctx.readyQueue)), old(ctx.clock.time));
      && (r.Failure? <==> goal.Failure?)
      && (r.Failure? ==> r.error == goal.error)
      && (r.Success? ==>
            && r.value == SchedulingResult(NAME, goal.value.slices, goal.value.completed)
            && ctx.clock.time == goal.value.endTime
            && ctx.readyQueue == []
            && ctx.memory.allocationByPid == old(ctx.memory.allocationByPid) - IdSet(old(ctx.readyQueue))
            && (old(ctx.memory.Valid()) ==> ctx.memory.Valid()))
    ensures ctx.jobQueue == old(ctx.jobQueue) && ctx.totalJobs == old(ctx.totalJobs) && ctx.readerFinished
  {
    ghost var q0 := ctx.readyQueue;
    ghost var goal := RrSchedule(Views(ctx.readyQueue), ctx.clock.time);
    ghost var alloc0 := ctx.memory.allocationByPid;
    ghost var valid0 := ctx.memory.Valid();
    ghost var jobs0, total0 := ctx.jobQueue, ctx.totalJobs;
    LoopStart(ctx, RrSchedule, alloc0, valid0);
    var queue: seq<ProcessControlBlock> := [];
    var completed: seq<ProcessControlBlock> := [];
    var slices: seq<ExecutionSlice> := [];

    while !ctx.CanTerminate(|completed|) || queue != []
      invariant LoopState(ctx, RrSchedule, q0, queue, completed, slices, goal, alloc0, valid0, jobs0, total0)
      decreases Weight(Views(queue + ctx.readyQueue))
    {
      var stop, error;
      queue, completed, slices, stop, error := Iterate(ctx, queue, completed, slices, goal, alloc0, valid0, q0, jobs0, total0);
      if error.Some? {
        return Failure(error.value);
      }
      if stop {
        break;
      }
    }
    LoopDone(ctx, RrSchedule, q0, completed, slices, goal, alloc0, valid0, jobs0, total0);
    r := Success(SchedulingResult(NAME, slices, Views(completed)));
  }
}
