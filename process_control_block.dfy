/**
 * The process control block: one simulated job, its lifecycle state
 * (New -> JobQueued -> Ready -> Running -> Ready | Terminated) and its timing
 * bookkeeping.
 *
 * The class ProcessControlBlock holds the Java fields and mutators. Each mutator
 * is specified by a pure transition on PcbView, a snapshot of all fields; the
 * transitions state what each call promises, and the lemmas at the end state what
 * any sequence of calls preserves.
 */
module ProcessControl {
  import opened JavaLang

  /** dynamicPriority is never raised above this value by aging. */
  const PRIORITY_CEILING: int := 128

  datatype ProcessState = New | JobQueued | Ready | Running | Terminated

  /** Every field of a process control block, immutable ones first. */
  datatype PcbView = PcbView(
    id: int, burstTime: int, basePriority: int, memoryRequired: int, arrivalTime: int, arrivalOrder: int,
    state: ProcessState, dynamicPriority: int, remainingTime: int, executedTime: int,
    waitingTime: int, turnaroundTime: int, responseTime: int,
    startTime: int, completionTime: int, readyAdmissionTime: int, admissionDegree: int,
    lastReadyTimestamp: int, priorityBoostCount: int,
    sufferedStarvation: bool, starvationEvents: seq<string>)

  /** The description markStarvation records. */
  function StarvationEventText(id: int, waited: int): string {
    "Process " + IntToString(id) + " waited " + IntToString(waited) + " units before aging"
  }

  // ------------------------------------------------------------ transitions

  /** The state of a freshly built block. */
  function Created(id: int, burstTime: int, basePriority: int, memoryRequired: int, arrivalTime: int, arrivalOrder: int): (v: PcbView)
    ensures v.state == New
    ensures v.dynamicPriority == basePriority && v.remainingTime == burstTime
    ensures v.startTime == -1 && v.completionTime == -1 && v.responseTime == -1 && v.readyAdmissionTime == -1
    ensures v.remainingTime + v.executedTime == v.burstTime
    ensures v.dynamicPriority - v.priorityBoostCount == v.basePriority
    ensures !v.sufferedStarvation && v.starvationEvents == []
  {
    PcbView(id, burstTime, basePriority, memoryRequired, arrivalTime, arrivalOrder,
            New, basePriority, burstTime, 0,
            0, 0, -1,
            -1, -1, -1, 0,
            0, 0,
            false, [])
  }

  /** markQueued: only the state changes. */
  function Queued(v: PcbView): (w: PcbView)
    ensures w.state == JobQueued && w.(state := v.state) == v
  {
    v.(state := JobQueued)
  }

  /**
   * markReady: the block becomes Ready as of time t; the admission time and degree
   * are recorded only on an initial admission of a block that has none yet.
   */
  function Readied(v: PcbView, t: int, degree: int, initialAdmission: bool): (w: PcbView)
    ensures w.state == Ready && w.lastReadyTimestamp == t
    ensures initialAdmission && v.readyAdmissionTime < 0 ==>
              w.readyAdmissionTime == t && w.admissionDegree == degree
    ensures !initialAdmission || v.readyAdmissionTime >= 0 ==>
              w.readyAdmissionTime == v.readyAdmissionTime && w.admissionDegree == v.admissionDegree
    ensures w.(state := v.state, lastReadyTimestamp := v.lastReadyTimestamp,
               readyAdmissionTime := v.readyAdmissionTime, admissionDegree := v.admissionDegree) == v
  {
    var first := initialAdmission && v.readyAdmissionTime < 0;
    v.(state := Ready, lastReadyTimestamp := t,
       readyAdmissionTime := if first then t else v.readyAdmissionTime,
       admissionDegree := if first then degree else v.admissionDegree)
  }

  /**
   * markDispatched: the block runs from time t; the wait since it last became
   * ready is added to its waiting time; start and response time are set on the
   * first dispatch only.
   */
  function Dispatched(v: PcbView, t: int): (w: PcbView)
    ensures w.state == Running
    ensures w.waitingTime == v.waitingTime + (t - v.lastReadyTimestamp)
    ensures v.startTime < 0 ==> w.startTime == t
    ensures v.startTime >= 0 ==> w.startTime == v.startTime
    ensures v.responseTime < 0 ==> w.responseTime == t - v.arrivalTime
    ensures v.responseTime >= 0 ==> w.responseTime == v.responseTime
    ensures w.(state := v.state, waitingTime := v.waitingTime,
               startTime := v.startTime, responseTime := v.responseTime) == v
  {
    v.(state := Running,
       startTime := if v.startTime < 0 then t else v.startTime,
       responseTime := if v.responseTime < 0 then t - v.arrivalTime else v.responseTime,
       waitingTime := v.waitingTime + (t - v.lastReadyTimestamp))
  }

  /** The CPU time consumeCpu(requested) grants: no more than what is left. */
  function Granted(v: PcbView, requested: int): (g: int)
    ensures g <= requested && g <= v.remainingTime
    ensures g == requested || g == v.remainingTime
  {
    Min(requested, v.remainingTime)
  }

  /**
   * consumeCpu: the granted time moves from remaining to executed, so their sum
   * is conserved and the remaining time cannot drop below zero.
   */
  function Consumed(v: PcbView, requested: int): (w: PcbView)
    ensures w.remainingTime == v.remainingTime - Granted(v, requested)
    ensures w.executedTime == v.executedTime + Granted(v, requested)
    ensures w.remainingTime + w.executedTime == v.remainingTime + v.executedTime
    ensures v.remainingTime >= 0 ==> w.remainingTime >= 0
    ensures requested >= v.remainingTime ==> w.remainingTime == 0
    ensures w.(remainingTime := v.remainingTime, executedTime := v.executedTime) == v
  {
    var g := Granted(v, requested);
    v.(remainingTime := v.remainingTime - g, executedTime := v.executedTime + g)
  }

  /** markCompleted: the block terminates at t and its turnaround is measured from arrival. */
  function Completed(v: PcbView, t: int): (w: PcbView)
    ensures w.state == Terminated && w.completionTime == t
    ensures w.turnaroundTime == w.completionTime - v.arrivalTime
    ensures w.(state := v.state, completionTime := v.completionTime, turnaroundTime := v.turnaroundTime) == v
  {
    v.(state := Terminated, completionTime := t, turnaroundTime := t - v.arrivalTime)
  }

  /** markStarvation: the flag is set and one event is appended on every call. */
  function Starved(v: PcbView, waited: int): (w: PcbView)
    ensures w.sufferedStarvation
    ensures w.starvationEvents == v.starvationEvents + [StarvationEventText(v.id, waited)]
    ensures w.(sufferedStarvation := v.sufferedStarvation, starvationEvents := v.starvationEvents) == v
  {
    v.(sufferedStarvation := true, starvationEvents := v.starvationEvents + [StarvationEventText(v.id, waited)])
  }

  /**
   * boostPriority: up to delta unit increments, each applied only while the
   * priority is below the ceiling; the boost count grows by the increments applied.
   */
  function Boosted(v: PcbView, delta: int): (w: PcbView)
    ensures delta <= 0 ==> w == v
    ensures delta > 0 && v.dynamicPriority <= PRIORITY_CEILING ==>
              w.dynamicPriority == Min(PRIORITY_CEILING, v.dynamicPriority + delta)
    ensures v.dynamicPriority >= PRIORITY_CEILING ==> w.dynamicPriority == v.dynamicPriority
    ensures v.dynamicPriority <= w.dynamicPriority
    ensures w.priorityBoostCount == v.priorityBoostCount + (w.dynamicPriority - v.dynamicPriority)
    ensures w.(dynamicPriority := v.dynamicPriority, priorityBoostCount := v.priorityBoostCount) == v
  {
    if delta <= 0 || v.dynamicPriority >= PRIORITY_CEILING then v
    else
      var n := Min(delta, PRIORITY_CEILING - v.dynamicPriority);
      v.(dynamicPriority := v.dynamicPriority + n, priorityBoostCount := v.priorityBoostCount + n)
  }

  /** resetDynamicPriority: back to the base priority with no boosts. */
  function PriorityReset(v: PcbView): (w: PcbView)
    ensures w.dynamicPriority == v.basePriority && w.priorityBoostCount == 0
    ensures w.(dynamicPriority := v.dynamicPriority, priorityBoostCount := v.priorityBoostCount) == v
  {
    v.(dynamicPriority := v.basePriority, priorityBoostCount := 0)
  }

  /**
   * What a non-preemptive scheduler does to the block it picks at time start:
   * dispatch, consume all remaining time, complete once the clock has advanced by it.
   */
  function RunToCompletion(v: PcbView, start: int): (w: PcbView)
    ensures w.state == Terminated && w.remainingTime == 0
    ensures w.executedTime == v.executedTime + v.remainingTime
    ensures w.completionTime == start + v.remainingTime
    ensures w.turnaroundTime == w.completionTime - v.arrivalTime
    ensures w.waitingTime == v.waitingTime + (start - v.lastReadyTimestamp)
    ensures v.responseTime < 0 ==> w.responseTime == start - v.arrivalTime
    ensures v.responseTime >= 0 ==> w.responseTime == v.responseTime
    ensures w.readyAdmissionTime == v.readyAdmissionTime && w.admissionDegree == v.admissionDegree
    // a job that was never preempted has waited exactly its turnaround minus its burst
    ensures v.waitingTime == 0 && v.lastReadyTimestamp == v.arrivalTime && v.remainingTime == v.burstTime ==>
              w.waitingTime == w.turnaroundTime - v.burstTime
    ensures v.lastReadyTimestamp >= v.arrivalTime && start >= v.lastReadyTimestamp && v.remainingTime == v.burstTime ==>
              w.turnaroundTime >= v.burstTime
  {
    var d := Dispatched(v, start);
    var c := Consumed(d, d.remainingTime);
    Completed(c, start + Granted(d, d.remainingTime))
  }

  // --------------------------------------------------------------- the class

  class ProcessControlBlock {
    const id: int
    const burstTime: int
    const basePriority: int
    const memoryRequired: int
    const arrivalTime: int
    const arrivalOrder: int

    var state: ProcessState
    var dynamicPriority: int
    var remainingTime: int
    var executedTime: int
    var waitingTime: int
    var turnaroundTime: int
    var responseTime: int
    var startTime: int
    var completionTime: int
    var readyAdmissionTime: int
    var admissionDegree: int
    var lastReadyTimestamp: int
    var priorityBoostCount: int
    var sufferedStarvation: bool
    var starvationEvents: seq<string>

    function View(): PcbView
      reads this
    {
      PcbView(id, burstTime, basePriority, memoryRequired, arrivalTime, arrivalOrder,
              state, dynamicPriority, remainingTime, executedTime,
              waitingTime, turnaroundTime, responseTime,
              startTime, completionTime, readyAdmissionTime, admissionDegree,
              lastReadyTimestamp, priorityBoostCount,
              sufferedStarvation, starvationEvents)
    }

    constructor (id: int, burstTime: int, basePriority: int, memoryRequired: int, arrivalTime: int, arrivalOrder: int)
      ensures View() == Created(id, burstTime, basePriority, memoryRequired, arrivalTime, arrivalOrder)
    {
      this.id := id;
      this.burstTime := burstTime;
      this.basePriority := basePriority;
      this.memoryRequired := memoryRequired;
      this.arrivalTime := arrivalTime;
      this.arrivalOrder := arrivalOrder;
      state := New;
      dynamicPriority := basePriority;
      remainingTime := burstTime;
      executedTime := 0;
      waitingTime := 0;
      turnaroundTime := 0;
      responseTime := -1;
      startTime := -1;
      completionTime := -1;
      readyAdmissionTime := -1;
      admissionDegree := 0;
      lastReadyTimestamp := 0;
      priorityBoostCount := 0;
      sufferedStarvation := false;
      starvationEvents := [];
    }

    method MarkQueued()
      modifies this
      ensures View() == Queued(old(View()))
    {
      state := JobQueued;
    }

    method MarkReady(currentTime: int, degreeOfMultiprogramming: int, initialAdmission: bool)
      modifies this
      ensures View() == Readied(old(View()), currentTime, degreeOfMultiprogramming, initialAdmission)
    {
      state := Ready;
      lastReadyTimestamp := currentTime;
      if initialAdmission && readyAdmissionTime < 0 {
        readyAdmissionTime := currentTime;
        admissionDegree := degreeOfMultiprogramming;
      }
    }

    method MarkDispatched(currentTime: int)
      modifies this
      ensures View() == Dispatched(old(View()), currentTime)
    {
      state := Running;
      if startTime < 0 {
        startTime := currentTime;
      }
      if responseTime < 0 {
        responseTime := currentTime - arrivalTime;
      }
      waitingTime := waitingTime + (currentTime - lastReadyTimestamp);
    }

    method ConsumeCpu(requested: int) returns (granted: int)
      modifies this
      ensures granted == Granted(old(View()), requested)
      ensures View() == Consumed(old(View()), requested)
    {
      granted := Min(requested, remainingTime);
      remainingTime := remainingTime - granted;
      executedTime := executedTime + granted;
    }

    method MarkRequeued(currentTime: int, degreeOfMultiprogramming: int)
      modifies this
      ensures View() == Readied(old(View()), currentTime, degreeOfMultiprogramming, false)
    {
      MarkReady(currentTime, degreeOfMultiprogramming, false);
    }

    method MarkCompleted(currentTime: int)
      modifies this
      ensures View() == Completed(old(View()), currentTime)
    {
      state := Terminated;
      completionTime := currentTime;
      turnaroundTime := completionTime - arrivalTime;
    }

    method MarkStarvation(waitingDuration: int)
      modifies this
      ensures View() == Starved(old(View()), waitingDuration)
    {
      if !sufferedStarvation {
        sufferedStarvation := true;
      }
      starvationEvents := starvationEvents + [StarvationEventText(id, waitingDuration)];
    }

    method BoostPriority(delta: int)
      modifies this
      ensures View() == Boosted(old(View()), delta)
    {
      if delta <= 0 {
        return;
      }
      for i := 0 to delta
        invariant dynamicPriority ==
                    if old(dynamicPriority) >= PRIORITY_CEILING then old(dynamicPriority)
                    else Min(PRIORITY_CEILING, old(dynamicPriority) + i)
        invariant priorityBoostCount == old(priorityBoostCount) + (dynamicPriority - old(dynamicPriority))
        invariant View() == old(View()).(dynamicPriority := dynamicPriority, priorityBoostCount := priorityBoostCount)
      {
        if dynamicPriority < PRIORITY_CEILING {
          dynamicPriority := dynamicPriority + 1;
          priorityBoostCount := priorityBoostCount + 1;
        }
      }
    }

    method ResetDynamicPriority()
      modifies this
      ensures View() == PriorityReset(old(View()))
    {
      dynamicPriority := basePriority;
      priorityBoostCount := 0;
    }
  }

  /** The current fields of each block, in order. */
  function Views(ps: seq<ProcessControlBlock>): (vs: seq<PcbView>)
    reads set p | p in ps
    ensures |vs| == |ps|
  {
    if ps == [] then [] else [ps[0].View()] + Views(ps[1..])
  }

  /** Entry k of Views is block k's fields. */
  lemma {:induction false} ViewsAt(ps: seq<ProcessControlBlock>, k: nat)
    requires k < |ps|
    ensures Views(ps)[k] == ps[k].View()
    decreases k
  {
    if k > 0 {
      ViewsAt(ps[1..], k - 1);
    }
  }

  /** A block appended adds its fields at the end. */
  lemma {:induction false} ViewsAppend(ps: seq<ProcessControlBlock>, p: ProcessControlBlock)
    ensures Views(ps + [p]) == Views(ps) + [p.View()]
    decreases |ps|
  {
    if ps == [] {
      assert [p][1..] == [];
    } else {
      assert (ps + [p])[1..] == ps[1..] + [p];
      ViewsAppend(ps[1..], p);
    }
  }

  // ------------------------------------------------- sequences of mutator calls

  /** A call of one of the mutators, with its arguments. */
  datatype PcbCall =
    | CallMarkQueued
    | CallMarkReady(currentTime: int, degree: int, initialAdmission: bool)
    | CallMarkDispatched(currentTime: int)
    | CallConsumeCpu(requested: int)
    | CallMarkRequeued(currentTime: int, degree: int)
    | CallMarkCompleted(currentTime: int)
    | CallMarkStarvation(waitingDuration: int)
    | CallBoostPriority(delta: int)
    | CallResetDynamicPriority

  function Apply(v: PcbView, c: PcbCall): PcbView {
    match c
    case CallMarkQueued => Queued(v)
    case CallMarkReady(t, d, initial) => Readied(v, t, d, initial)
    case CallMarkDispatched(t) => Dispatched(v, t)
    case CallConsumeCpu(r) => Consumed(v, r)
    case CallMarkRequeued(t, d) => Readied(v, t, d, false)
    case CallMarkCompleted(t) => Completed(v, t)
    case CallMarkStarvation(w) => Starved(v, w)
    case CallBoostPriority(delta) => Boosted(v, delta)
    case CallResetDynamicPriority => PriorityReset(v)
  }

  /** The block after the calls, in order. */
  function ApplyAll(v: PcbView, cs: seq<PcbCall>): PcbView
    decreases |cs|
  {
    if cs == [] then v else ApplyAll(Apply(v, cs[0]), cs[1..])
  }

  function StarvationCalls(cs: seq<PcbCall>): nat {
    if cs == [] then 0 else (if cs[0].CallMarkStarvation? then 1 else 0) + StarvationCalls(cs[1..])
  }

  /** No call changes the workload fields fixed at construction. */
  predicate SameWorkload(v: PcbView, w: PcbView) {
    w.id == v.id && w.burstTime == v.burstTime && w.basePriority == v.basePriority &&
    w.memoryRequired == v.memoryRequired && w.arrivalTime == v.arrivalTime && w.arrivalOrder == v.arrivalOrder
  }

  /**
   * CPU time is conserved by every sequence of calls: remaining + executed stays
   * equal to the burst, and remaining time that is not negative never becomes so.
   */
  lemma {:induction false} CallsConserveCpu(v: PcbView, cs: seq<PcbCall>)
    requires v.remainingTime + v.executedTime == v.burstTime
    ensures SameWorkload(v, ApplyAll(v, cs))
    ensures ApplyAll(v, cs).remainingTime + ApplyAll(v, cs).executedTime == v.burstTime
    ensures v.remainingTime >= 0 ==> ApplyAll(v, cs).remainingTime >= 0
    decreases |cs|
  {
    if cs != [] {
      CallsConserveCpu(Apply(v, cs[0]), cs[1..]);
    }
  }

  /**
   * Start time, response time and the admission time/degree, once set, are never
   * changed again by any sequence of calls.
   */
  lemma {:induction false} CallsKeepSetOnceFields(v: PcbView, cs: seq<PcbCall>)
    ensures v.startTime >= 0 ==> ApplyAll(v, cs).startTime == v.startTime
    ensures v.responseTime >= 0 ==> ApplyAll(v, cs).responseTime == v.responseTime
    ensures v.readyAdmissionTime >= 0 ==>
              ApplyAll(v, cs).readyAdmissionTime == v.readyAdmissionTime &&
              ApplyAll(v, cs).admissionDegree == v.admissionDegree
    decreases |cs|
  {
    if cs != [] {
      CallsKeepSetOnceFields(Apply(v, cs[0]), cs[1..]);
    }
  }

  /**
   * The dynamic priority stays at most the ceiling when it and the base priority
   * start there, and it always equals the base priority plus the boost count.
   */
  lemma {:induction false} CallsKeepPriorityBounds(v: PcbView, cs: seq<PcbCall>)
    requires v.dynamicPriority - v.priorityBoostCount == v.basePriority
    ensures ApplyAll(v, cs).dynamicPriority - ApplyAll(v, cs).priorityBoostCount == v.basePriority
    ensures v.dynamicPriority <= PRIORITY_CEILING && v.basePriority <= PRIORITY_CEILING ==>
              ApplyAll(v, cs).dynamicPriority <= PRIORITY_CEILING
    decreases |cs|
  {
    if cs != [] {
      CallsKeepPriorityBounds(Apply(v, cs[0]), cs[1..]);
    }
  }

  /**
   * Every markStarvation call appends exactly one event, repeat calls included,
   * and the flag is set exactly when it was set before or some such call was made.
   */
  lemma {:induction false} CallsCountStarvationEvents(v: PcbView, cs: seq<PcbCall>)
    ensures |ApplyAll(v, cs).starvationEvents| == |v.starvationEvents| + StarvationCalls(cs)
    ensures ApplyAll(v, cs).sufferedStarvation <==> v.sufferedStarvation || StarvationCalls(cs) > 0
    ensures ApplyAll(v, cs).starvationEvents[..|v.starvationEvents|] == v.starvationEvents
    decreases |cs|
  {
    if cs != [] {
      var u := Apply(v, cs[0]);
      CallsCountStarvationEvents(u, cs[1..]);
      assert u.starvationEvents[..|v.starvationEvents|] == v.starvationEvents;
    }
  }
}
