/** The logical clock: simulated CPU time, advanced only by work actually done. */
module Clock {
  import opened Wrappers

  /** advance was given a negative delta (Java: IllegalArgumentException). */
  datatype ClockError = NegativeDelta

  class SimulationClock {
    var time: int

    constructor ()
      ensures time == 0
    {
      time := 0;
    }

    /** getTime: reading the clock changes nothing. */
    function GetTime(): int
      reads this
    {
      time
    }

    /**
     * advance: a negative delta is refused and leaves the time as it was; any
     * other delta moves the clock forward by exactly that much and returns the
     * new time. Either way time never goes backwards.
     */
    method Advance(delta: int) returns (r: Result<int, ClockError>)
      modifies this
      ensures delta < 0 ==> r == Failure(NegativeDelta) && time == old(time)
      ensures delta >= 0 ==> r == Success(old(time) + delta) && time == old(time) + delta
      ensures time >= old(time)
    {
      if delta < 0 {
        return Failure(NegativeDelta);
      }
      time := time + delta;
      return Success(time);
    }
  }
}
