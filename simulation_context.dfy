/**
 * The environment a scheduler runs in: the ready queue it drains, the shared
 * clock and memory manager, the loader, and the reader's progress counters.
 *
 * The job queue that connects the reader to the loader is created by the runner
 * in the Java program and handed to both threads; here it is a field of the
 * context, so that the reader, the loader and the schedulers all work on one
 * shared object.
 */
module Context {
  import opened Wrappers
  import opened ProcessControl
  import opened Clock
  import opened Memory
  import opened ProcessLoaders

  class SimulationContext {
    var readyQueue: seq<ProcessControlBlock>
    var jobQueue: seq<ProcessControlBlock>
    var readerFinished: bool
    var totalJobs: int
    const memory: MemoryManager
    const clock: SimulationClock
    const loader: ProcessLoader

    constructor (memory: MemoryManager, clock: SimulationClock, loader: ProcessLoader)
      ensures this.memory == memory && this.clock == clock && this.loader == loader
      ensures readyQueue == [] && jobQueue == []
      ensures !readerFinished && totalJobs == 0
    {
      this.memory := memory;
      this.clock := clock;
      this.loader := loader;
      readyQueue := [];
      jobQueue := [];
      readerFinished := false;
      totalJobs := 0;
    }

    /**
     * canTerminate: all work is done once at least totalJobs processes have
     * completed, the reader and the loader have both finished, and nothing is
     * waiting in the ready queue.
     */
    function CanTerminate(completedProcesses: int): (r: bool)
      reads this, loader
      ensures r <==> completedProcesses >= totalJobs && readerFinished
                     && loader.loadingComplete && readyQueue == []
    {
      if completedProcesses < totalJobs then false
      else if !readerFinished then false
      else if !loader.IsLoadingComplete() then false
      else readyQueue == []
    }

    /**
     * drainReadyQueue: every queued block moves to the end of target, in queue
     * order; target's earlier contents stay in front and the queue is left empty.
     */
    method DrainReadyQueue(target: seq<ProcessControlBlock>) returns (r: seq<ProcessControlBlock>)
      modifies this
      ensures r == target + old(readyQueue)
      ensures readyQueue == []
      ensures jobQueue == old(jobQueue) && readerFinished == old(readerFinished) && totalJobs == old(totalJobs)
    {
      r := target + readyQueue;
      readyQueue := [];
    }

    /**
     * takeNextReady: the head of the queue is removed and returned, or nothing is
     * and the queue is left as it was. A poll returns at once when something is
     * queued, so a non-empty queue always yields its head.
     */
    method TakeNextReady() returns (r: Option<ProcessControlBlock>)
      modifies this
      ensures r.Some? ==> old(readyQueue) != [] && r.value == old(readyQueue)[0] && readyQueue == old(readyQueue)[1..]
      ensures r.None? ==> readyQueue == old(readyQueue)
      ensures old(readyQueue) != [] ==> r.Some?
      ensures jobQueue == old(jobQueue) && readerFinished == old(readerFinished) && totalJobs == old(totalJobs)
    {
      if readyQueue == [] {
        return None;
      }
      r := Some(readyQueue[0]);
      readyQueue := readyQueue[1..];
    }

    /** shutdownLoader: asks the loader to stop; the context itself is untouched. */
    method ShutdownLoader()
      modifies loader
      ensures loader.shutdownRequested
      ensures loader.loadingComplete == old(loader.loadingComplete)
    {
      loader.RequestShutdown();
    }

    /** getUsedMemory. */
    function UsedMemory(): int
      reads this, memory
    {
      memory.UsedMemory()
    }

    /** getTotalMemory. */
    function TotalMemory(): int
      reads this
    {
      memory.totalMemory
    }
  }

  /** Once it is time to stop, it stays time to stop however many more processes complete. */
  lemma CanTerminateMonotone(ctx: SimulationContext, c: int, c': int)
    requires c <= c' && ctx.CanTerminate(c)
    ensures ctx.CanTerminate(c')
  {
  }
}
