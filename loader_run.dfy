/**
 * The loader thread's loop: blocks leave the job queue in FIFO order, each gets
 * its memory reserved, is marked ready at the current clock time with the degree
 * of multiprogramming its admission produced, and joins the tail of the ready queue.
 */
module Loading {
  import opened Wrappers
  import opened Sequences
  import opened ProcessControl
  import opened Memory
  import opened Context

  /** The memory each block asks for, in order. */
  function Requests(ps: seq<ProcessControlBlock>): (r: seq<int>)
    ensures |r| == |ps|
    ensures forall k :: 0 <= k < |ps| ==> r[k] == ps[k].memoryRequired
  {
    if ps == [] then [] else [ps[0].memoryRequired] + Requests(ps[1..])
  }

  /** The memory all blocks ask for together. */
  function RequestTotal(ps: seq<ProcessControlBlock>): int {
    if ps == [] then 0 else ps[0].memoryRequired + RequestTotal(ps[1..])
  }

  /** The allocation table after reserving for each block, in order. */
  function AllocationsAfter(m: map<int, int>, ps: seq<ProcessControlBlock>): map<int, int>
    decreases |ps|
  {
    if ps == [] then m else AllocationsAfter(m[ps[0].id := ps[0].memoryRequired], ps[1..])
  }

  /**
   * The degree of multiprogramming each admission produces: the number of
   * processes holding memory once the block's reservation is made.
   */
  function Degrees(m: map<int, int>, ps: seq<ProcessControlBlock>): (r: seq<int>)
    ensures |r| == |ps|
    decreases |ps|
  {
    if ps == [] then []
    else
      var m' := m[ps[0].id := ps[0].memoryRequired];
      [|m'|] + Degrees(m', ps[1..])
  }

  /** The blocks have distinct identifiers, none of which already holds memory. */
  predicate FreshIds(m: map<int, int>, ps: seq<ProcessControlBlock>) {
    && (forall i, j :: 0 <= i < j < |ps| ==> ps[i].id != ps[j].id)
    && (forall k :: 0 <= k < |ps| ==> ps[k].id !in m)
  }

  /**
   * One admission, the body of the loader's loop for a polled block: the memory is
   * reserved first (allocateBlocking, whose wait has ended, so the request fits);
   * the degree is the number of resident processes counted after that, so at least
   * one; the block is marked ready at the current clock time as an initial
   * admission; then it joins the tail of the ready queue. The clock is only read.
   */
  method AdmitJob(ctx: SimulationContext, pcb: ProcessControlBlock) returns (degree: int)
    requires ctx.memory.usedMemory + pcb.memoryRequired <= ctx.memory.totalMemory
    modifies ctx, ctx.memory, pcb
    ensures ctx.memory.usedMemory == old(ctx.memory.usedMemory) + pcb.memoryRequired
    ensures ctx.memory.allocationByPid == old(ctx.memory.allocationByPid)[pcb.id := pcb.memoryRequired]
    ensures degree == |ctx.memory.allocationByPid| && degree >= 1
    ensures pcb.View() == Readied(old(pcb.View()), ctx.clock.time, degree, true)
    ensures ctx.readyQueue == old(ctx.readyQueue) + [pcb]
    ensures ctx.jobQueue == old(ctx.jobQueue)
    ensures ctx.readerFinished == old(ctx.readerFinished) && ctx.totalJobs == old(ctx.totalJobs)
    ensures ctx.clock.time == old(ctx.clock.time)
    ensures old(ctx.memory.Valid()) && pcb.id !in old(ctx.memory.allocationByPid) && pcb.memoryRequired >= 0 ==>
              ctx.memory.Valid()
  {
    ctx.memory.AllocateBlocking(pcb);
    degree := ctx.memory.AllocatedProcessCount();
    var readyTime := ctx.clock.GetTime();
    pcb.MarkReady(readyTime, degree, true);
    ctx.readyQueue := ctx.readyQueue + [pcb];
  }

  /** No block asks for a negative amount of memory. */
  predicate NonNegativeRequests(ps: seq<ProcessControlBlock>) {
    forall k :: 0 <= k < |ps| ==> ps[k].memoryRequired >= 0
  }

  /**
   * The bookkeeping of admitting the head of the queue: it fits, and the totals,
   * the table and the degrees over the admitted and the remaining blocks stay
   * what they were.
   */
  lemma AdmitHead(used: int, m: map<int, int>, q: seq<ProcessControlBlock>, total: int)
    requires q != [] && FitsInOrder(used, Requests(q), total)
    ensures used + q[0].memoryRequired <= total
    ensures FitsInOrder(used + q[0].memoryRequired, Requests(q[1..]), total)
    ensures used + q[0].memoryRequired + RequestTotal(q[1..]) == used + RequestTotal(q)
    ensures AllocationsAfter(m[q[0].id := q[0].memoryRequired], q[1..]) == AllocationsAfter(m, q)
    ensures [|m[q[0].id := q[0].memoryRequired]|] + Degrees(m[q[0].id := q[0].memoryRequired], q[1..]) == Degrees(m, q)
  {
    assert Requests(q)[1..] == Requests(q[1..]);
  }

  /** Requests that fit one after another fit together. */
  lemma {:induction false} FitsInOrderTotal(used: int, ps: seq<ProcessControlBlock>, total: int)
    requires ps != [] && FitsInOrder(used, Requests(ps), total)
    ensures used + RequestTotal(ps) <= total
    decreases |ps|
  {
    assert Requests(ps)[1..] == Requests(ps[1..]);
    if ps[1..] != [] {
      FitsInOrderTotal(used + ps[0].memoryRequired, ps[1..], total);
    }
  }

  /** Every admission leaves at least the admitted process resident. */
  lemma {:induction false} DegreesPositive(m: map<int, int>, ps: seq<ProcessControlBlock>)
    ensures forall k :: 0 <= k < |ps| ==> Degrees(m, ps)[k] >= 1
    decreases |ps|
  {
    if ps != [] {
      DegreesPositive(m[ps[0].id := ps[0].memoryRequired], ps[1..]);
    }
  }

  /** With fresh identifiers the k-th admission brings the count to k + 1 more than before. */
  lemma {:induction false} DegreesFresh(m: map<int, int>, ps: seq<ProcessControlBlock>)
    requires FreshIds(m, ps)
    ensures forall k :: 0 <= k < |ps| ==> Degrees(m, ps)[k] == |m| + k + 1
    decreases |ps|
  {
    if ps != [] {
      var m' := m[ps[0].id := ps[0].memoryRequired];
      assert FreshIds(m', ps[1..]);
      DegreesFresh(m', ps[1..]);
    }
  }

  /**
   * With fresh identifiers and non-negative requests the table stays non-negative
   * and its sum grows by exactly the requests.
   */
  lemma {:induction false} AllocationsAfterSum(m: map<int, int>, ps: seq<ProcessControlBlock>)
    requires FreshIds(m, ps) && NonNegativeRequests(ps)
    requires forall pid :: pid in m ==> m[pid] >= 0
    ensures forall pid :: pid in AllocationsAfter(m, ps) ==> AllocationsAfter(m, ps)[pid] >= 0
    ensures Sum(AllocationsAfter(m, ps)) == Sum(m) + RequestTotal(ps)
    decreases |ps|
  {
    if ps != [] {
      var m' := m[ps[0].id := ps[0].memoryRequired];
      assert FreshIds(m', ps[1..]);
      SumPut(m, ps[0].id, ps[0].memoryRequired);
      AllocationsAfterSum(m', ps[1..]);
    }
  }

  /**
   * The blocks' fields once the first |degrees| of them are admitted: those are
   * marked ready at time with their degrees, the rest are untouched.
   */
  function Admitted(views: seq<PcbView>, time: int, degrees: seq<int>): (r: seq<PcbView>)
    requires |degrees| <= |views|
    ensures |r| == |views|
    ensures forall k :: 0 <= k < |degrees| ==> r[k] == Readied(views[k], time, degrees[k], true)
    ensures forall k :: |degrees| <= k < |views| ==> r[k] == views[k]
  {
    seq(|views|, k requires 0 <= k < |views| => if k < |degrees| then Readied(views[k], time, degrees[k], true) else views[k])
  }

  /** Before the first admission every block is as it was. */
  lemma AdmittedNone(views: seq<PcbView>, time: int)
    ensures Admitted(views, time, []) == views
  {
  }

  /** Admitting one more block changes its entry and no other. */
  lemma AdmittedStep(views: seq<PcbView>, time: int, degrees: seq<int>, d: int)
    requires |degrees| < |views|
    ensures Admitted(views, time, degrees + [d]) ==
            Admitted(views, time, degrees)[|degrees| := Readied(views[|degrees|], time, d, true)]
  {
  }

  /**
   * The loader's books after the first n blocks of jobs are admitted, in terms of
   * the values before the first: what was booked and what remains to be booked add
   * up to the whole queue's, and the remaining blocks still fit.
   */
  predicate Booked(jobs: seq<ProcessControlBlock>, used0: int, alloc0: map<int, int>, total: int,
                   n: nat, used: int, alloc: map<int, int>, degrees: seq<int>)
  {
    && n <= |jobs|
    && used + RequestTotal(jobs[n..]) == used0 + RequestTotal(jobs)
    && AllocationsAfter(alloc, jobs[n..]) == AllocationsAfter(alloc0, jobs)
    && degrees + Degrees(alloc, jobs[n..]) == Degrees(alloc0, jobs)
    && FitsInOrder(used, Requests(jobs[n..]), total)
  }

  /** Admitting block n keeps the books: it fits, and the totals move by its request. */
  lemma BookedStep(jobs: seq<ProcessControlBlock>, used0: int, alloc0: map<int, int>, total: int,
                   n: nat, used: int, alloc: map<int, int>, degrees: seq<int>)
    requires Booked(jobs, used0, alloc0, total, n, used, alloc, degrees) && n < |jobs|
    ensures used + jobs[n].memoryRequired <= total
    ensures Booked(jobs, used0, alloc0, total, n + 1, used + jobs[n].memoryRequired,
                   alloc[jobs[n].id := jobs[n].memoryRequired],
                   degrees + [|alloc[jobs[n].id := jobs[n].memoryRequired]|])
  {
    var q := jobs[n..];
    assert q[1..] == jobs[n + 1..];
    AdmitHead(used, alloc, q, total);
  }

  /** With every block admitted the books hold the whole queue's totals. */
  lemma BookedAll(jobs: seq<ProcessControlBlock>, used0: int, alloc0: map<int, int>, total: int,
                  used: int, alloc: map<int, int>, degrees: seq<int>)
    requires Booked(jobs, used0, alloc0, total, |jobs|, used, alloc, degrees)
    ensures used == used0 + RequestTotal(jobs)
    ensures alloc == AllocationsAfter(alloc0, jobs)
    ensures degrees == Degrees(alloc0, jobs)
  {
    assert jobs[|jobs|..] == [];
  }

  /**
   * The loader's state after the first |degrees| of jobs are admitted: the rest are
   * still in the job queue, the admitted ones are marked ready at the current time
   * and follow ready0 in the ready queue, and the books are kept.
   */
  ghost predicate AdmissionState(ctx: SimulationContext, jobs: seq<ProcessControlBlock>, views: seq<PcbView>,
                                 ready0: seq<ProcessControlBlock>, used0: int, alloc0: map<int, int>, degrees: seq<int>)
    reads ctx, ctx.memory, ctx.clock, set p | p in jobs
  {
    && |degrees| <= |jobs| == |views| && ctx.jobQueue == jobs[|degrees|..]
    && Views(jobs) == Admitted(views, ctx.clock.time, degrees)
    && ctx.readyQueue == ready0 + jobs[..|degrees|]
    && Booked(jobs, used0, alloc0, ctx.memory.totalMemory, |degrees|,
              ctx.memory.usedMemory, ctx.memory.allocationByPid, degrees)
  }

  /**
   * AdmitJob on the next block of a queue without repeats, of which the first
   * |degrees| are already admitted: that block is admitted too, with the degree
   * AdmitJob returns, and every other block stays as it was.
   */
  method AdmitTracked(ctx: SimulationContext, pcb: ProcessControlBlock, ghost jobs: seq<ProcessControlBlock>,
                      ghost views: seq<PcbView>, ghost degrees: seq<int>)
    returns (degree: int)
    requires ctx.memory.usedMemory + pcb.memoryRequired <= ctx.memory.totalMemory
    requires |degrees| < |jobs| == |views| && jobs[|degrees|] == pcb && Distinct(jobs)
    requires Views(jobs) == Admitted(views, ctx.clock.time, degrees)
    modifies ctx, ctx.memory, pcb
    ensures ctx.memory.usedMemory == old(ctx.memory.usedMemory) + pcb.memoryRequired
    ensures ctx.memory.allocationByPid == old(ctx.memory.allocationByPid)[pcb.id := pcb.memoryRequired]
    ensures degree == |ctx.memory.allocationByPid|
    ensures Views(jobs) == Admitted(views, ctx.clock.time, degrees + [degree])
    ensures ctx.readyQueue == old(ctx.readyQueue) + [pcb]
    ensures ctx.jobQueue == old(ctx.jobQueue)
    ensures ctx.readerFinished == old(ctx.readerFinished) && ctx.totalJobs == old(ctx.totalJobs)
    ensures ctx.clock.time == old(ctx.clock.time)
  {
    ghost var n := |degrees|;
    ghost var before := Admitted(views, ctx.clock.time, degrees);
    forall k | 0 <= k < |jobs|
      ensures jobs[k].View() == before[k]
    {
      ViewsAt(jobs, k);
    }
    degree := AdmitJob(ctx, pcb);
    AdmittedStep(views, ctx.clock.time, degrees, degree);
    ghost var after := before[n := Readied(views[n], ctx.clock.time, degree, true)];
    forall k | 0 <= k < |jobs|
      ensures Views(jobs)[k] == after[k]
    {
      ViewsAt(jobs, k);
      if k != n {
        assert jobs[k] != jobs[n];
      }
    }
  }

  /** The loop body for a successful poll: block |degrees| leaves the job queue and is admitted. */
  method AdmitNext(ctx: SimulationContext, ghost jobs: seq<ProcessControlBlock>, ghost views: seq<PcbView>,
                   ghost ready0: seq<ProcessControlBlock>, ghost used0: int, ghost alloc0: map<int, int>,
                   ghost degrees: seq<int>)
    returns (ghost d: int)
    requires AdmissionState(ctx, jobs, views, ready0, used0, alloc0, degrees) && ctx.jobQueue != [] && Distinct(jobs)
    modifies ctx, ctx.memory, ctx.jobQueue[0]
    ensures AdmissionState(ctx, jobs, views, ready0, used0, alloc0, degrees + [d])
    ensures ctx.readerFinished == old(ctx.readerFinished) && ctx.totalJobs == old(ctx.totalJobs)
  {
    var pcb := ctx.jobQueue[0];
    ghost var n := |degrees|;
    BookedStep(jobs, used0, alloc0, ctx.memory.totalMemory, n, ctx.memory.usedMemory, ctx.memory.allocationByPid, degrees);
    ctx.jobQueue := ctx.jobQueue[1..];
    var degree := AdmitTracked(ctx, pcb, jobs, views, degrees);
    assert jobs[..n + 1] == jobs[..n] + [pcb];
    assert jobs[n + 1..] == jobs[n..][1..];
    d := degree;
  }

  /**
   * The loop of ProcessLoader.run. It polls the job queue; an empty poll ends it once
   * the reader has finished (the queue being empty), or once a shutdown was
   * requested; a polled block is admitted. With neither exit condition the Java
   * thread keeps polling for jobs still to come, so one of the two is required.
   * The blocks must fit one after another into memory (nothing is released while
   * the loader runs), and the queue holds each block once.
   */
  method AdmitQueued(ctx: SimulationContext) returns (ghost degrees: seq<int>)
    requires ctx.readerFinished || ctx.loader.shutdownRequested
    requires FitsInOrder(ctx.memory.usedMemory, Requests(ctx.jobQueue), ctx.memory.totalMemory)
    requires Distinct(ctx.jobQueue)
    modifies ctx, ctx.memory, set p | p in ctx.jobQueue
    ensures ctx.jobQueue == []
    ensures ctx.readyQueue == old(ctx.readyQueue) + old(ctx.jobQueue)
    ensures degrees == Degrees(old(ctx.memory.allocationByPid), old(ctx.jobQueue))
    ensures Views(old(ctx.jobQueue)) == Admitted(old(Views(ctx.jobQueue)), ctx.clock.time, degrees)
    ensures ctx.memory.usedMemory == old(ctx.memory.usedMemory) + RequestTotal(old(ctx.jobQueue))
    ensures ctx.memory.allocationByPid == AllocationsAfter(old(ctx.memory.allocationByPid), old(ctx.jobQueue))
    ensures ctx.readerFinished == old(ctx.readerFinished) && ctx.totalJobs == old(ctx.totalJobs)
  {
    ghost var jobs := ctx.jobQueue;
    ghost var views := Views(jobs);
    degrees := [];
    assert jobs[0..] == jobs;
    AdmittedNone(views, ctx.clock.time);
    while true
      invariant ctx.readerFinished == old(ctx.readerFinished) && ctx.totalJobs == old(ctx.totalJobs)
      invariant ctx.readerFinished || ctx.loader.shutdownRequested
      invariant AdmissionState(ctx, jobs, views, old(ctx.readyQueue), old(ctx.memory.usedMemory), old(ctx.memory.allocationByPid), degrees)
      decreases |ctx.jobQueue|
    {
      if ctx.jobQueue == [] {
        // the poll came back empty
        if ctx.readerFinished {
          break;
        }
        if ctx.loader.shutdownRequested {
          break;
        }
      } else {
        // the poll returned the head of the queue
        var d := AdmitNext(ctx, jobs, views, old(ctx.readyQueue), old(ctx.memory.usedMemory), old(ctx.memory.allocationByPid), degrees);
        degrees := degrees + [d];
      }
    }
    BookedAll(jobs, old(ctx.memory.usedMemory), old(ctx.memory.allocationByPid), ctx.memory.totalMemory,
              ctx.memory.usedMemory, ctx.memory.allocationByPid, degrees);
    assert jobs[..|jobs|] == jobs;
  }

  /**
   * ProcessLoader.run: the loop (AdmitQueued), then loadingComplete is raised (the
   * finally block). Every block of the job queue is admitted, in queue order, at the
   * clock time at which the loader runs, with the degree Degrees gives, and appended
   * to the ready queue; its memory is booked, and the books stay balanced when the
   * identifiers are new and the requests non-negative.
   */
  method Run(ctx: SimulationContext) returns (ghost degrees: seq<int>)
    requires ctx.readerFinished || ctx.loader.shutdownRequested
    requires FitsInOrder(ctx.memory.usedMemory, Requests(ctx.jobQueue), ctx.memory.totalMemory)
    requires Distinct(ctx.jobQueue)
    modifies ctx, ctx.memory, ctx.loader, set p | p in ctx.jobQueue
    ensures ctx.loader.loadingComplete
    ensures ctx.loader.shutdownRequested == old(ctx.loader.shutdownRequested)
    ensures ctx.jobQueue == []
    ensures ctx.readyQueue == old(ctx.readyQueue) + old(ctx.jobQueue)
    ensures degrees == Degrees(old(ctx.memory.allocationByPid), old(ctx.jobQueue))
    ensures forall k :: 0 <= k < |degrees| ==> degrees[k] >= 1
    ensures Views(old(ctx.jobQueue)) == Admitted(old(Views(ctx.jobQueue)), ctx.clock.time, degrees)
    ensures ctx.memory.usedMemory == old(ctx.memory.usedMemory) + RequestTotal(old(ctx.jobQueue))
    ensures ctx.memory.allocationByPid == AllocationsAfter(old(ctx.memory.allocationByPid), old(ctx.jobQueue))
    ensures old(ctx.jobQueue) != [] ==> ctx.memory.usedMemory <= ctx.memory.totalMemory
    ensures ctx.clock.time == old(ctx.clock.time)
    ensures ctx.readerFinished == old(ctx.readerFinished) && ctx.totalJobs == old(ctx.totalJobs)
    ensures FreshIds(old(ctx.memory.allocationByPid), old(ctx.jobQueue)) ==>
              forall k :: 0 <= k < |degrees| ==> degrees[k] == |old(ctx.memory.allocationByPid)| + k + 1
    ensures old(ctx.memory.Valid()) && FreshIds(old(ctx.memory.allocationByPid), old(ctx.jobQueue)) &&
            NonNegativeRequests(old(ctx.jobQueue)) ==>
              ctx.memory.Valid()
  {
    ghost var jobs := ctx.jobQueue;
    degrees := AdmitQueued(ctx);
    ctx.loader.loadingComplete := true;
    DegreesPositive(old(ctx.memory.allocationByPid), jobs);
    if FreshIds(old(ctx.memory.allocationByPid), jobs) {
      DegreesFresh(old(ctx.memory.allocationByPid), jobs);
    }
    if jobs != [] {
      FitsInOrderTotal(old(ctx.memory.usedMemory), jobs, ctx.memory.totalMemory);
    }
    if old(ctx.memory.Valid()) && FreshIds(old(ctx.memory.allocationByPid), jobs) && NonNegativeRequests(jobs) {
      AllocationsAfterSum(old(ctx.memory.allocationByPid), jobs);
    }
  }
}
