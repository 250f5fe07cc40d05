/**
 * The loader thread's own state: the two flags through which it is asked to
 * stop and reports that it has stopped. The loop that moves blocks from the job
 * queue to the ready queue is in module Loading.
 */
module ProcessLoaders {

  class ProcessLoader {
    var shutdownRequested: bool
    var loadingComplete: bool

    constructor ()
      ensures !shutdownRequested && !loadingComplete
    {
      shutdownRequested := false;
      loadingComplete := false;
    }

    /** requestShutdown: raises the stop flag and nothing else. */
    method RequestShutdown()
      modifies this
      ensures shutdownRequested
      ensures loadingComplete == old(loadingComplete)
    {
      shutdownRequested := true;
    }

    /** isLoadingComplete. */
    function IsLoadingComplete(): bool
      reads this
    {
      loadingComplete
    }
  }
}
