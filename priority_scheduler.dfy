/**
 * Non-preemptive priority scheduling with starvation detection and aging. Before
 * every pick the whole working set is aged: a block that has waited longer than
 * its admission degree since it last became ready is flagged as starved (once),
 * and its priority is raised by one for every AGING_INTERVAL units waited that
 * it has not been credited for yet. The block with the highest priority, then
 * the longest wait, then the earliest arrival runs to completion.
 */
module Priority {
  import opened Wrappers
  import opened Sequences
  import opened JavaLang
  import opened ProcessControl
  import opened ExecutionSlices
  import opened Clock
  import opened Memory
  import opened Context
  import opened Scheduling
  import opened Results

  /** getName. */
  const NAME: string := "Priority Scheduling"

  /** Waiting time credited with one priority boost. */
  const AGING_INTERVAL: int := 5

  // ------------------------------------------------------------------- aging

  /** How long the block has waited at time now since it last became ready. */
  function Waited(v: PcbView, now: int): int {
    now - v.lastReadyTimestamp
  }

  /** An admitted block that has waited longer than its admission degree is starving. */
  predicate Starving(v: PcbView, now: int) {
    v.readyAdmissionTime >= 0 && Waited(v, now) > v.admissionDegree
  }

  /** The number of boosts the wait is worth: Java's integer division, truncating toward zero. */
  function ExpectedBoosts(v: PcbView, now: int): int {
    TruncDiv(Waited(v, now), AGING_INTERVAL)
  }

  /** One iteration of applyAging for a block at time now; AgeEffect states what it does. */
  function Age(v: PcbView, now: int): PcbView {
    var waited := Waited(v, now);
    var s := if Starving(v, now) && !v.sufferedStarvation then Starved(v, waited) else v;
    var expected := TruncDiv(waited, AGING_INTERVAL);
    if expected > s.priorityBoostCount then Boosted(s, expected - s.priorityBoostCount) else s
  }

  /**
   * Aging a block at time now: a starving block not yet flagged is flagged, with
   * one event; if the wait is worth more boosts than the block has had, the
   * priority is boosted by the difference, up to the ceiling; nothing else changes.
   */
  lemma AgeEffect(v: PcbView, now: int)
    ensures var w := Age(v, now);
      && w.(dynamicPriority := v.dynamicPriority, priorityBoostCount := v.priorityBoostCount,
            sufferedStarvation := v.sufferedStarvation, starvationEvents := v.starvationEvents) == v
      && w.sufferedStarvation == (v.sufferedStarvation || Starving(v, now))
      && (!v.sufferedStarvation && Starving(v, now) ==>
            w.starvationEvents == v.starvationEvents + [StarvationEventText(v.id, Waited(v, now))])
      && (v.sufferedStarvation || !Starving(v, now) ==> w.starvationEvents == v.starvationEvents)
      && v.dynamicPriority <= w.dynamicPriority
      && (v.dynamicPriority <= PRIORITY_CEILING ==> w.dynamicPriority <= PRIORITY_CEILING)
      && w.priorityBoostCount - v.priorityBoostCount == w.dynamicPriority - v.dynamicPriority
      && (ExpectedBoosts(v, now) <= v.priorityBoostCount ==> w.dynamicPriority == v.dynamicPriority)
      && (ExpectedBoosts(v, now) > v.priorityBoostCount &&
          v.dynamicPriority + (ExpectedBoosts(v, now) - v.priorityBoostCount) <= PRIORITY_CEILING ==>
            w.priorityBoostCount == ExpectedBoosts(v, now))
  {
  }

  /** Aging a second time at the same moment changes nothing more. */
  lemma AgeIdempotent(v: PcbView, now: int)
    ensures Age(Age(v, now), now) == Age(v, now)
  {
    var w := Age(v, now);
    AgeEffect(v, now);
    assert Waited(w, now) == Waited(v, now) && ExpectedBoosts(w, now) == ExpectedBoosts(v, now);
    if ExpectedBoosts(v, now) > w.priorityBoostCount {
      assert w.dynamicPriority >= PRIORITY_CEILING;
    }
  }

  /** Aging at time now, as a function on views. */
  function Ager(now: int): PcbView -> PcbView {
    v => Age(v, now)
  }

  /** applyAging over the whole working set: each block is aged at the same moment. */
  function AgeAll(ws: seq<PcbView>, now: int): seq<PcbView> {
    Map(Ager(now), ws)
  }

  /** Aging the whole working set a second time at the same moment changes nothing more. */
  lemma AgeAllIdempotent(ws: seq<PcbView>, now: int)
    ensures AgeAll(AgeAll(ws, now), now) == AgeAll(ws, now)
  {
    var aged := AgeAll(ws, now);
    forall k | 0 <= k < |aged|
      ensures aged[k] == Ager(now)(aged[k])
    {
      MapAt(Ager(now), ws, k);
      AgeIdempotent(ws[k], now);
    }
    MapOfEach(Ager(now), aged, aged);
  }

  /** The blocks' flags after aging them at the given times in turn. */
  function AgeAt(v: PcbView, times: seq<int>): PcbView
    decreases |times|
  {
    if times == [] then v else AgeAt(Age(v, times[0]), times[1..])
  }

  /** A block is flagged exactly when it has its one starvation event. */
  predicate StarvedOnce(v: PcbView) {
    (!v.sufferedStarvation && v.starvationEvents == []) || (v.sufferedStarvation && |v.starvationEvents| == 1)
  }

  /**
   * However often a block is aged, it is flagged as starved at most once: a block
   * with no events that is aged at any sequence of moments ends with at most one,
   * and with one exactly when it is flagged.
   */
  lemma {:induction false} AgingStarvesAtMostOnce(v: PcbView, times: seq<int>)
    requires StarvedOnce(v)
    ensures StarvedOnce(AgeAt(v, times)) && |AgeAt(v, times).starvationEvents| <= 1
    decreases |times|
  {
    if times != [] {
      AgeEffect(v, times[0]);
      AgingStarvesAtMostOnce(Age(v, times[0]), times[1..]);
    }
  }

  /**
   * The aging of a block with admission degree 3 that became ready at time 0
   * with no boosts: at wait 3 nothing happens; at wait 4 it is flagged starved
   * but not boosted; at wait 5 it gets its first boost.
   */
  lemma AgingExample(v: PcbView)
    requires v.readyAdmissionTime == 0 && v.lastReadyTimestamp == 0 && v.admissionDegree == 3
    requires !v.sufferedStarvation && v.priorityBoostCount == 0 && v.dynamicPriority < PRIORITY_CEILING
    ensures Age(v, 3) == v
    ensures var w := Age(v, 4); w.sufferedStarvation && |w.starvationEvents| == |v.starvationEvents| + 1 &&
                                w.dynamicPriority == v.dynamicPriority
    ensures var w := Age(v, 5); w.dynamicPriority == v.dynamicPriority + 1 && w.priorityBoostCount == 1
  {
    assert ExpectedBoosts(v, 3) == 0 && ExpectedBoosts(v, 4) == 0 && ExpectedBoosts(v, 5) == 1;
    AgeEffect(v, 4);
    AgeEffect(v, 5);
  }

  // ---------------------------------------------------------------- selection

  /**
   * The selection comparator, as a strict order: a ranks above b on dynamic
   * priority, then on the time waited since it last became ready, then on the
   * earlier arrival.
   */
  predicate Above(a: PcbView, b: PcbView, now: int) {
    || a.dynamicPriority > b.dynamicPriority
    || (a.dynamicPriority == b.dynamicPriority &&
        (|| Waited(a, now) > Waited(b, now)
         || (Waited(a, now) == Waited(b, now) && a.arrivalOrder < b.arrivalOrder)))
  }

  /**
   * The maximum search of the stream over ws[k..], having kept best so far: a
   * later element replaces the one kept only when it ranks strictly above it.
   */
  function PickFrom(ws: seq<PcbView>, now: int, best: nat, k: nat): (i: nat)
    requires best < k <= |ws|
    ensures i < |ws|
    decreases |ws| - k
  {
    if k == |ws| then best
    else if Above(ws[k], ws[best], now) then PickFrom(ws, now, k, k + 1)
    else PickFrom(ws, now, best, k + 1)
  }

  /** The index of the block the scheduler picks at time now. */
  function Pick(ws: seq<PcbView>, now: int): (i: nat)
    requires ws != []
    ensures i < |ws|
  {
    PickFrom(ws, now, 0, 1)
  }

  /** An element above the maximum of ws[..k] is above all of them. */
  lemma AboveAllAhead(ws: seq<PcbView>, now: int, best: nat, k: nat)
    requires best < k < |ws| && Above(ws[k], ws[best], now)
    requires forall j :: 0 <= j < k ==> !Above(ws[j], ws[best], now)
    ensures forall j :: 0 <= j < k ==> Above(ws[k], ws[j], now) && !Above(ws[j], ws[k], now)
  {
    forall j | 0 <= j < k
      ensures Above(ws[k], ws[j], now) && !Above(ws[j], ws[k], now)
    {
      assert !Above(ws[j], ws[best], now);
    }
  }

  lemma {:induction false} PickFromMaximal(ws: seq<PcbView>, now: int, best: nat, k: nat)
    requires best < k <= |ws|
    requires forall j :: 0 <= j < k ==> !Above(ws[j], ws[best], now)
    requires forall j :: 0 <= j < best ==> Above(ws[best], ws[j], now)
    ensures var i := PickFrom(ws, now, best, k);
      && (forall j :: 0 <= j < |ws| ==> !Above(ws[j], ws[i], now))
      && (forall j :: 0 <= j < i ==> Above(ws[i], ws[j], now))
    decreases |ws| - k
  {
    if k < |ws| {
      if Above(ws[k], ws[best], now) {
        AboveAllAhead(ws, now, best, k);
        PickFromMaximal(ws, now, k, k + 1);
      } else {
        PickFromMaximal(ws, now, best, k + 1);
      }
    }
  }

  /**
   * The block picked is a maximum: no block ranks above it; and it ranks strictly
   * above every block ahead of it in the list, so among equal keys the first is taken.
   */
  lemma PickMaximal(ws: seq<PcbView>, now: int)
    requires ws != []
    ensures forall j :: 0 <= j < |ws| ==> !Above(ws[j], ws[Pick(ws, now)], now)
    ensures forall j :: 0 <= j < Pick(ws, now) ==> Above(ws[Pick(ws, now)], ws[j], now)
  {
    PickFromMaximal(ws, now, 0, 1);
  }

  // ---------------------------------------------------------------- the policy

  /**
   * The blocks in the order they run from working set ws at time now, as they are
   * when picked: the set is aged, the maximum is picked and runs to completion,
   * and the rest of the set is aged again at the time it completes.
   */
  function PriorityOrder(ws: seq<PcbView>, now: int): seq<PcbView>
    decreases |ws|, 1
  {
    if ws == [] then [] else OrderAged(AgeAll(ws, now), now)
  }

  /** The order from a working set that has just been aged at time now. */
  function OrderAged(aged: seq<PcbView>, now: int): seq<PcbView>
    requires aged != []
    decreases |aged|, 0
  {
    var i := Pick(aged, now);
    [aged[i]] + PriorityOrder(RemoveAt(aged, i), now + aged[i].remainingTime)
  }

  /**
   * The rest of the run from a working set ws at the given time: the blocks run to
   * completion one after another in priority order; the clock refuses a negative
   * advance, which ends the run with that error.
   */
  function PrioritySchedule(ws: seq<PcbView>, time: int): Result<Schedule, ClockError>
  {
    RunInOrder(PriorityOrder(ws, time), time)
  }

  /** One pick of the order: the aged maximum first, then the order of what is left. */
  lemma PriorityOrderUnfold(ws: seq<PcbView>, i: nat, time: int)
    requires ws != [] && i == Pick(AgeAll(ws, time), time)
    ensures PriorityOrder(ws, time) ==
              [AgeAll(ws, time)[i]] + PriorityOrder(RemoveAt(AgeAll(ws, time), i), time + AgeAll(ws, time)[i].remainingTime)
  {
    assert PriorityOrder(ws, time) == OrderAged(AgeAll(ws, time), time);
  }

  /** One step of the schedule: the picked block either ends the run or runs to completion first. */
  lemma PriorityUnfold(ws: seq<PcbView>, aged: seq<PcbView>, i: nat, time: int)
    requires ws != [] && aged == AgeAll(ws, time) && i == Pick(aged, time)
    ensures aged[i].remainingTime < 0 ==> PrioritySchedule(ws, time) == Failure(NegativeDelta)
    ensures aged[i].remainingTime >= 0 ==>
      PrioritySchedule(ws, time) == Resume([SliceOf(aged[i], time, aged[i].remainingTime)], [RunToCompletion(aged[i], time)],
                                           PrioritySchedule(RemoveAt(aged, i), time + aged[i].remainingTime))
  {
    var tail := PriorityOrder(RemoveAt(aged, i), time + aged[i].remainingTime);
    PriorityOrderUnfold(ws, i, time);
    assert PriorityOrder(ws, time) == [aged[i]] + tail;
    RunInOrderCons(aged[i], tail, time);
  }

  /** Aging the working set at the moment of a pick does not change the rest of the run. */
  lemma PriorityScheduleAged(ws: seq<PcbView>, time: int)
    ensures PrioritySchedule(AgeAll(ws, time), time) == PrioritySchedule(ws, time)
  {
    if ws != [] {
      AgeAllIdempotent(ws, time);
      assert PriorityOrder(AgeAll(ws, time), time) == OrderAged(AgeAll(ws, time), time);
    }
  }

  /**
   * One dispatch from an aged working set, in terms of the schedule: a negative
   * remaining time ends the run with the clock's error; otherwise the rest of the
   * run continues from the remaining blocks at the later time.
   */
  lemma PriorityStep(ws: seq<PcbView>, i: nat, time: int, slices: seq<ExecutionSlice>, done: seq<PcbView>,
                     goal: Result<Schedule, ClockError>)
    requires ws != [] && AgeAll(ws, time) == ws && i == Pick(ws, time)
    requires goal == Resume(slices, done, PrioritySchedule(ws, time))
    ensures ws[i].remainingTime < 0 ==> goal == Failure(NegativeDelta)
    ensures ws[i].remainingTime >= 0 ==>
              goal == Resume(slices + [SliceOf(ws[i], time, ws[i].remainingTime)], done + [RunToCompletion(ws[i], time)],
                             PrioritySchedule(RemoveAt(ws, i), time + ws[i].remainingTime))
  {
    PriorityUnfold(ws, ws, i, time);
    ResumeTwice(slices, done, [SliceOf(ws[i], time, ws[i].remainingTime)], [RunToCompletion(ws[i], time)],
                PrioritySchedule(RemoveAt(ws, i), time + ws[i].remainingTime));
  }

  /** PriorityStep with the state after the step named by the caller. */
  lemma PriorityAdvance(ws: seq<PcbView>, i: nat, time: int, slices: seq<ExecutionSlice>, done: seq<PcbView>,
                        goal: Result<Schedule, ClockError>, slices': seq<ExecutionSlice>, done': seq<PcbView>,
                        rest': seq<PcbView>, time': int)
    requires ws != [] && AgeAll(ws, time) == ws && i == Pick(ws, time)
    requires goal == Resume(slices, done, PrioritySchedule(ws, time))
    requires ws[i].remainingTime >= 0 && slices' == slices + [SliceOf(ws[i], time, ws[i].remainingTime)]
    requires done' == done + [RunToCompletion(ws[i], time)]
    requires rest' == RemoveAt(ws, i) && time' == time + ws[i].remainingTime
    ensures goal == Resume(slices', done', PrioritySchedule(rest', time'))
  {
    PriorityStep(ws, i, time, slices, done, goal);
  }

  /** What a block is owed by the run: its identifier and remaining CPU time. */
  function Work(v: PcbView): (int, int) {
    (v.id, v.remainingTime)
  }

  /** Aging changes neither identifier nor remaining time. */
  lemma AgeAllWork(ws: seq<PcbView>, now: int)
    ensures Map(Work, AgeAll(ws, now)) == Map(Work, ws)
  {
    var aged := AgeAll(ws, now);
    forall k | 0 <= k < |ws|
      ensures Map(Work, ws)[k] == Work(aged[k])
    {
      MapAt(Ager(now), ws, k);
      MapAt(Work, ws, k);
      AgeEffect(ws[k], now);
    }
    MapOfEach(Work, aged, Map(Work, ws));
  }

  /**
   * Every block of the working set runs exactly once: the order holds the same
   * identifiers with the same remaining times, each as often as the working set.
   */
  lemma {:induction false} PriorityOrderPermutes(ws: seq<PcbView>, now: int)
    ensures multiset(Map(Work, PriorityOrder(ws, now))) == multiset(Map(Work, ws))
    decreases |ws|
  {
    if ws != [] {
      var aged := AgeAll(ws, now);
      var i := Pick(aged, now);
      var later := now + aged[i].remainingTime;
      var rest := RemoveAt(aged, i);
      var tail := PriorityOrder(rest, later);
      PriorityOrderUnfold(ws, i, now);
      assert PriorityOrder(ws, now) == [aged[i]] + tail;
      PriorityOrderPermutes(rest, later);
      MapCons(Work, aged[i], tail);
      AgeAllWork(ws, now);
      MapRemoveAt(Work, aged, i);
      RemoveAtSpec(Map(Work, aged), i);
      MapAt(Work, aged, i);
      calc {
        multiset(Map(Work, PriorityOrder(ws, now)));
        multiset(Map(Work, [aged[i]] + tail));
        multiset([Work(aged[i])] + Map(Work, tail));
        multiset{Work(aged[i])} + multiset(Map(Work, rest));
        multiset{Map(Work, aged)[i]} + multiset(RemoveAt(Map(Work, aged), i));
        multiset(Map(Work, aged));
        multiset(Map(Work, ws));
      }
    }
  }

  /** The run fails exactly when some block of the working set has a negative remaining time. */
  lemma PriorityScheduleFails(ws: seq<PcbView>, time: int)
    ensures PrioritySchedule(ws, time).Failure? <==> exists k :: 0 <= k < |ws| && ws[k].remainingTime < 0
  {
    var order := PriorityOrder(ws, time);
    PriorityOrderPermutes(ws, time);
    RunInOrderFails(order, time);
    if exists k :: 0 <= k < |ws| && ws[k].remainingTime < 0 {
      var k :| 0 <= k < |ws| && ws[k].remainingTime < 0;
      MapPermutationHit(Work, ws, order, k);
    }
    if exists k :: 0 <= k < |order| && order[k].remainingTime < 0 {
      var k :| 0 <= k < |order| && order[k].remainingTime < 0;
      MapPermutationHit(Work, order, ws, k);
    }
  }

  /** The first block to run is a maximum of the working set aged at the start time. */
  lemma PriorityOrderHead(ws: seq<PcbView>, now: int)
    requires ws != []
    ensures var aged := AgeAll(ws, now);
      && PriorityOrder(ws, now) != [] && PriorityOrder(ws, now)[0] == aged[Pick(aged, now)]
      && forall j :: 0 <= j < |aged| ==> !Above(aged[j], PriorityOrder(ws, now)[0], now)
  {
    var aged := AgeAll(ws, now);
    PriorityOrderUnfold(ws, Pick(aged, now), now);
    PickMaximal(aged, now);
  }

  /**
   * A property of a block that aging never breaks, and that every block of the
   * working set has, holds of every block in the order as it is when picked.
   */
  lemma {:induction false} PriorityOrderKeeps(P: PcbView -> bool, ws: seq<PcbView>, now: int)
    requires forall v: PcbView, t: int :: P(v) ==> P(Age(v, t))
    requires forall k :: 0 <= k < |ws| ==> P(ws[k])
    ensures var order := PriorityOrder(ws, now); forall k :: 0 <= k < |order| ==> P(order[k])
    decreases |ws|
  {
    if ws != [] {
      var aged := AgeAll(ws, now);
      forall k | 0 <= k < |aged|
        ensures P(aged[k])
      {
        MapAt(Ager(now), ws, k);
      }
      var i := Pick(aged, now);
      var later := now + aged[i].remainingTime;
      var rest := RemoveAt(aged, i);
      RemoveAtSpec(aged, i);
      PriorityOrderUnfold(ws, i, now);
      PriorityOrderKeeps(P, rest, later);
      var order := PriorityOrder(ws, now);
      forall k | 0 <= k < |order|
        ensures P(order[k])
      {
        if k > 0 {
          assert order[k] == PriorityOrder(rest, later)[k - 1];
        }
      }
    }
  }

  /** The dynamic priority is at most the ceiling. */
  predicate Capped(v: PcbView) {
    v.dynamicPriority <= PRIORITY_CEILING
  }

  /** Aging never lifts a priority past the ceiling: no block runs with a priority above it. */
  lemma PriorityOrderCapped(ws: seq<PcbView>, now: int)
    requires forall k :: 0 <= k < |ws| ==> Capped(ws[k])
    ensures var order := PriorityOrder(ws, now); forall k :: 0 <= k < |order| ==> Capped(order[k])
  {
    forall v: PcbView, t: int | Capped(v)
      ensures Capped(Age(v, t))
    {
      AgeEffect(v, t);
    }
    PriorityOrderKeeps(Capped, ws, now);
  }

  /**
   * However long a block waits, it is flagged as starved at most once: blocks
   * that each have one event exactly when flagged keep it that way in the order.
   */
  lemma PriorityOrderStarvedOnce(ws: seq<PcbView>, now: int)
    requires forall k :: 0 <= k < |ws| ==> StarvedOnce(ws[k])
    ensures var order := PriorityOrder(ws, now); forall k :: 0 <= k < |order| ==> StarvedOnce(order[k])
  {
    forall v: PcbView, t: int | StarvedOnce(v)
      ensures StarvedOnce(Age(v, t))
    {
      AgeEffect(v, t);
    }
    PriorityOrderKeeps(StarvedOnce, ws, now);
  }

  // ---------------------------------------------------------------- the run

  /** One pass of applyAging's loop: the block is flagged and boosted as its wait demands. */
  method AgeOne(p: ProcessControlBlock, now: int)
    modifies p
    ensures p.View() == Age(old(p.View()), now)
  {
    ghost var v := p.View();
    var waited := now - p.lastReadyTimestamp;
    if p.readyAdmissionTime >= 0 && waited > p.admissionDegree {
      if !p.sufferedStarvation {
        p.MarkStarvation(waited);
      }
    }
    assert p.View() == if Starving(v, now) && !v.sufferedStarvation then Starved(v, waited) else v;
    var expectedBoosts := TruncDiv(waited, AGING_INTERVAL);
    if expectedBoosts > p.priorityBoostCount {
      var delta := expectedBoosts - p.priorityBoostCount;
      p.BoostPriority(delta);
    }
  }

  /**
   * applyAging: every block of the working set is aged at the clock time, in
   * list order; blocks outside the list keep their fields.
   */
  method ApplyAging(ready: seq<ProcessControlBlock>, clock: SimulationClock, ghost others: seq<ProcessControlBlock>)
    requires Distinct(ready)
    requires forall p :: p in ready ==> p !in others
    modifies set p | p in ready
    ensures Views(ready) == AgeAll(old(Views(ready)), clock.time)
    ensures Views(others) == old(Views(others))
  {
    var now := clock.time;
    ghost var ws0 := Views(ready);
    forall j | 0 <= j < |ready|
      ensures ws0[j] == ready[j].View()
    {
      ViewsAt(ready, j);
    }
    for k := 0 to |ready|
      invariant forall j :: 0 <= j < k ==> ready[j].View() == Age(ws0[j], now)
      invariant forall j :: k <= j < |ready| ==> ready[j].View() == ws0[j]
      invariant Views(others) == old(Views(others))
    {
      AgeOne(ready[k], now);
    }
    forall j | 0 <= j < |ready|
      ensures Views(ready)[j] == Ager(now)(ws0[j])
    {
      ViewsAt(ready, j);
    }
    MapOfEach(Ager(now), ws0, Views(ready));
  }

  /**
   * The aging step of run's loop: the working set is aged at the clock time; as
   * aging again at the same moment changes nothing, the loop state is kept.
   */
  method AgeWorking(ctx: SimulationContext, ready: seq<ProcessControlBlock>, ghost completed: seq<ProcessControlBlock>,
                    ghost slices: seq<ExecutionSlice>, ghost goal: Result<Schedule, ClockError>,
                    ghost alloc0: map<int, int>, ghost valid0: bool)
    requires RunState(ctx, PrioritySchedule, ready, completed, slices, goal, alloc0, valid0)
    modifies set p | p in ready
    ensures Views(ready) == AgeAll(old(Views(ready)), ctx.clock.time)
    ensures AgeAll(Views(ready), ctx.clock.time) == Views(ready)
    ensures RunState(ctx, PrioritySchedule, ready, completed, slices, goal, alloc0, valid0)
  {
    ghost var ws0 := Views(ready);
    DistinctPrefix(ready, completed);
    DistinctApart(ready, completed);
    ApplyAging(ready, ctx.clock, completed);
    AgeAllIdempotent(ws0, ctx.clock.time);
    PriorityScheduleAged(ws0, ctx.clock.time);
  }

  /** The loop over the drained buffer: a block is added to ready unless it is already there. */
  method AddAbsent(ready: seq<ProcessControlBlock>, buffer: seq<ProcessControlBlock>) returns (r: seq<ProcessControlBlock>)
    ensures r == AppendAbsent(ready, buffer)
  {
    r := ready;
    for k := 0 to |buffer|
      invariant AppendAbsent(r, buffer[k..]) == AppendAbsent(ready, buffer)
    {
      assert buffer[k..][1..] == buffer[k + 1..];
      if buffer[k] !in r {
        r := r + [buffer[k]];
      }
    }
    assert buffer[|buffer|..] == [];
  }

  /**
   * The start of each pass: the ready queue is drained into a cleared buffer,
   * whose blocks then join the working set unless it already holds them.
   */
  method DrainIntoWorking(ctx: SimulationContext, ready: seq<ProcessControlBlock>) returns (r: seq<ProcessControlBlock>)
    modifies ctx
    ensures r == AppendAbsent(ready, old(ctx.readyQueue)) && ctx.readyQueue == []
    ensures ctx.jobQueue == old(ctx.jobQueue) && ctx.readerFinished == old(ctx.readerFinished)
    ensures ctx.totalJobs == old(ctx.totalJobs)
  {
    var buffer := ctx.DrainReadyQueue([]);
    assert buffer == old(ctx.readyQueue);
    r := AddAbsent(ready, buffer);
  }

  /**
   * The drain step of run's loop: the ready queue is drained into a buffer whose
   * blocks join the working set unless already in it; none of them is (the loop
   * keeps all blocks distinct), so the working set is extended by the whole queue.
   */
  method DrainDeduplicated(ctx: SimulationContext, ghost policy: Policy,
                           ready: seq<ProcessControlBlock>,
                           ghost completed: seq<ProcessControlBlock>, ghost slices: seq<ExecutionSlice>,
                           ghost goal: Result<Schedule, ClockError>, ghost alloc0: map<int, int>, ghost valid0: bool,
                           ghost q0: seq<ProcessControlBlock>)
    returns (r: seq<ProcessControlBlock>)
    requires RunState(ctx, policy, ready + ctx.readyQueue, completed, slices, goal, alloc0, valid0)
    requires Covers(q0, ready + ctx.readyQueue, completed)
    modifies ctx
    ensures r == ready + old(ctx.readyQueue) && ctx.readyQueue == []
    ensures RunState(ctx, policy, r, completed, slices, goal, alloc0, valid0)
    ensures Covers(q0, r, completed)
    ensures ctx.jobQueue == old(ctx.jobQueue) && ctx.readerFinished == old(ctx.readerFinished)
    ensures ctx.totalJobs == old(ctx.totalJobs)
  {
    DistinctPrefix(ready + ctx.readyQueue, completed);
    AppendAbsentDistinct(ready, ctx.readyQueue);
    r := DrainIntoWorking(ctx, ready);
  }

  /**
   * The body of the loop once the aged ready list is not empty: the maximum is
   * taken out of ready, dispatched at the clock time, given all its remaining
   * time, and, once the clock has advanced by that much, marked completed, its
   * memory released and its slice recorded. A refused advance is returned as the error.
   */
  method DispatchNext(ctx: SimulationContext, ready: seq<ProcessControlBlock>, completed: seq<ProcessControlBlock>,
                      slices: seq<ExecutionSlice>, ghost goal: Result<Schedule, ClockError>,
                      ghost alloc0: map<int, int>, ghost valid0: bool, ghost q0: seq<ProcessControlBlock>)
    returns (next: ProcessControlBlock, rest: seq<ProcessControlBlock>, slice: ExecutionSlice, error: Option<ClockError>)
    requires ready != []
    requires RunState(ctx, PrioritySchedule, ready, completed, slices, goal, alloc0, valid0)
    requires AgeAll(Views(ready), ctx.clock.time) == Views(ready)
    requires Covers(q0, ready, completed)
    modifies ctx.clock, ctx.memory, set p | p in ready
    ensures |rest| == |ready| - 1
    ensures error.Some? ==> goal == Failure(error.value)
    ensures error.None? ==> Covers(q0, rest, completed + [next])
    ensures error.None? ==> RunState(ctx, PrioritySchedule, rest, completed + [next], slices + [slice], goal, alloc0, valid0)
  {
    ghost var ws := Views(ready);
    ghost var done := Views(completed);
    ghost var time := ctx.clock.time;
    assert goal == Resume(slices, done, PrioritySchedule(ws, time));
    var i := Pick(Views(ready), ctx.clock.time);
    next := ready[i];
    rest := RemoveAt(ready, i);
    ViewsAt(ready, i);
    ViewsRemoveAt(ready, i);
    RemoveAtMembers(ready, i);
    DistinctComplete(ready, i, completed);
    ReleasedAppend(alloc0, completed, next);
    ghost var v := ws[i];
    slice, error := CompleteNext(next, rest, completed, ctx.clock, ctx.memory, v, time, RemoveAt(ws, i), done);
    if error == None {
      PriorityAdvance(ws, i, time, slices, done, goal, slices + [slice], Views(completed + [next]),
                      Views(rest), ctx.clock.time);
    } else {
      PriorityStep(ws, i, time, slices, done, goal);
    }
  }

  /**
   * One pass of run's loop: the ready queue is drained into the working set, the
   * working set is aged; with nothing to run the loop goes on polling or, once
   * the context allows, stops; otherwise the maximum is dispatched to completion.
   * The loop state is kept, and a pass that neither stops nor fails leaves less work.
   */
  method Iterate(ctx: SimulationContext, ready: seq<ProcessControlBlock>, completed: seq<ProcessControlBlock>,
                 slices: seq<ExecutionSlice>, ghost goal: Result<Schedule, ClockError>,
                 ghost alloc0: map<int, int>, ghost valid0: bool, ghost q0: seq<ProcessControlBlock>,
                 ghost jobs0: seq<ProcessControlBlock>, ghost total0: int)
    returns (ready': seq<ProcessControlBlock>, completed': seq<ProcessControlBlock>, slices': seq<ExecutionSlice>,
             stop: bool, error: Option<ClockError>)
    requires LoopState(ctx, PrioritySchedule, q0, ready, completed, slices, goal, alloc0, valid0, jobs0, total0)
    modifies ctx, ctx.clock, ctx.memory, set p | p in q0
    ensures error.Some? ==> goal == Failure(error.value)
    ensures error.None? ==> LoopState(ctx, PrioritySchedule, q0, ready', completed', slices', goal, alloc0, valid0, jobs0, total0)
    ensures error.None? && stop ==> ready' == [] && ctx.readyQueue == []
    ensures error.None? && !stop ==> |ready'| + |ctx.readyQueue| < old(|ready| + |ctx.readyQueue|)
    ensures ctx.jobQueue == jobs0 && ctx.totalJobs == total0 && ctx.readerFinished
  {
    ready', completed', slices', stop, error := ready, completed, slices, false, None;
    ready' := DrainDeduplicated(ctx, PrioritySchedule, ready, completed, slices, goal, alloc0, valid0, q0);
    AgeWorking(ctx, ready', completed, slices, goal, alloc0, valid0);
    if ready' == [] {
      var pending := ctx.TakeNextReady();
      match pending {
        case Some(p) =>
          ready' := ready' + [p];
        case None =>
          if ctx.CanTerminate(|completed|) {
            stop := true;
          }
      }
      return;
    }
    var next, rest, slice;
    next, rest, slice, error := DispatchNext(ctx, ready', completed, slices, goal, alloc0, valid0, q0);
    if error.None? {
      ready', completed', slices' := rest, completed + [next], slices + [slice];
      assert ready' + ctx.readyQueue == ready';
    }
  }

  /**
   * run, for a working set already admitted: the reader and the loader are done
   * and every job the reader counted is in the ready queue. The result is the
   * schedule PrioritySchedule gives for the blocks queued at the clock time the
   * run starts, or the error the clock raised.
   */
  method Run(ctx: SimulationContext) returns (r: Result<SchedulingResult, ClockError>)
    requires ctx.readerFinished && ctx.loader.loadingComplete
    requires ctx.totalJobs <= |ctx.readyQueue|
    requires Distinct(ctx.readyQueue)
    modifies ctx, ctx.clock, ctx.memory, set p | p in ctx.readyQueue
    ensures var goal := PrioritySchedule(old(Views(ctx.readyQueue)), old(ctx.clock.time));
      && (r.Failure? <==> goal.Failure?)
      && (r.Failure? ==> r.error == goal.error)
      && (r.Success? ==>
            && r.value == SchedulingResult(NAME, goal.value.slices, goal.value.completed)
            && ctx.clock.time == goal.value.endTime
            && ctx.readyQueue == []
            && ctx.memory.allocationByPid == old(ctx.memory.allocationByPid) - IdSet(old(ctx.readyQueue))
            && (old(ctx.memory.Valid()) ==> ctx.memory.Valid()))
    ensures ctx.jobQueue == old(ctx.jobQueue) && ctx.totalJobs == old(ctx.totalJobs) && ctx.readerFinished
  {
    ghost var q0 := ctx.readyQueue;
    ghost var goal := PrioritySchedule(Views(ctx.readyQueue), ctx.clock.time);
    ghost var alloc0 := ctx.memory.allocationByPid;
    ghost var valid0 := ctx.memory.Valid();
    ghost var jobs0, total0 := ctx.jobQueue, ctx.totalJobs;
    LoopStart(ctx, PrioritySchedule, alloc0, valid0);
    var ready: seq<ProcessControlBlock> := [];
    var completed: seq<ProcessControlBlock> := [];
    var slices: seq<ExecutionSlice> := [];

    while !ctx.CanTerminate(|completed|) || ready != []
      invariant LoopState(ctx, PrioritySchedule, q0, ready, completed, slices, goal, alloc0, valid0, jobs0, total0)
      decreases |ready| + |ctx.readyQueue|
    {
      var stop, error;
      ready, completed, slices, stop, error := Iterate(ctx, ready, completed, slices, goal, alloc0, valid0, q0, jobs0, total0);
      if error.Some? {
        return Failure(error.value);
      }
      if stop {
        break;
      }
    }
    LoopDone(ctx, PrioritySchedule, q0, completed, slices, goal, alloc0, valid0, jobs0, total0);
    r := Success(SchedulingResult(NAME, slices, Views(completed)));
  }
}
