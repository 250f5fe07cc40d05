/**
 * One contiguous stretch of simulated CPU time given to a process, and the
 * facts about a run's sequence of slices (its timeline) that the schedulers rely on.
 */
module ExecutionSlices {

  /** An immutable dispatch record; the fields are the Java getters. */
  datatype ExecutionSlice = ExecutionSlice(processId: int, startTime: int, endTime: int) {
    /** getDuration(). */
    function Duration(): int {
      endTime - startTime
    }
  }

  /**
   * The slices cover the clock from t0 to t1 without gaps or overlaps: each one
   * starts where the previous one ended and none runs backwards.
   */
  predicate Timeline(s: seq<ExecutionSlice>, t0: int, t1: int)
    decreases |s|
  {
    if s == [] then t0 == t1
    else s[0].startTime == t0 && s[0].startTime <= s[0].endTime && Timeline(s[1..], s[0].endTime, t1)
  }

  /** The CPU time handed out by all slices together. */
  function TotalDuration(s: seq<ExecutionSlice>): int {
    if s == [] then 0 else s[0].Duration() + TotalDuration(s[1..])
  }

  /** The CPU time handed out to one process. */
  function DurationOf(s: seq<ExecutionSlice>, pid: int): int {
    if s == [] then 0
    else (if s[0].processId == pid then s[0].Duration() else 0) + DurationOf(s[1..], pid)
  }

  /** A slice that starts where the timeline ends extends it. */
  lemma {:induction false} TimelineAppend(s: seq<ExecutionSlice>, t0: int, t1: int, x: ExecutionSlice)
    requires Timeline(s, t0, t1)
    requires x.startTime == t1 <= x.endTime
    ensures Timeline(s + [x], t0, x.endTime)
  {
    if s == [] {
      assert ([x])[1..] == [];
    } else {
      assert (s + [x])[1..] == s[1..] + [x];
      TimelineAppend(s[1..], s[0].endTime, t1, x);
    }
  }

  /** Two timelines that meet form one. */
  lemma {:induction false} TimelineConcat(s: seq<ExecutionSlice>, u: seq<ExecutionSlice>, t0: int, t1: int, t2: int)
    requires Timeline(s, t0, t1) && Timeline(u, t1, t2)
    ensures Timeline(s + u, t0, t2)
  {
    if s != [] {
      assert (s + u)[1..] == s[1..] + u;
      TimelineConcat(s[1..], u, s[0].endTime, t1, t2);
    } else {
      assert s + u == u;
    }
  }

  /** A timeline never runs backwards, and its slices add up to its span. */
  lemma {:induction false} TimelineSpan(s: seq<ExecutionSlice>, t0: int, t1: int)
    requires Timeline(s, t0, t1)
    ensures t0 <= t1
    ensures TotalDuration(s) == t1 - t0
  {
    if s != [] {
      TimelineSpan(s[1..], s[0].endTime, t1);
    }
  }

  /** Every slice of a timeline lies between its ends. */
  lemma {:induction false} TimelineBounds(s: seq<ExecutionSlice>, t0: int, t1: int, i: int)
    requires Timeline(s, t0, t1)
    requires 0 <= i < |s|
    ensures t0 <= s[i].startTime <= s[i].endTime <= t1
  {
    TimelineSpan(s[1..], s[0].endTime, t1);
    if i > 0 {
      TimelineBounds(s[1..], s[0].endTime, t1, i - 1);
    }
  }

  /** Slices of a timeline never overlap: an earlier slice ends before a later one starts. */
  lemma {:induction false} TimelineNoOverlap(s: seq<ExecutionSlice>, t0: int, t1: int, i: int, j: int)
    requires Timeline(s, t0, t1)
    requires 0 <= i < j < |s|
    ensures s[i].endTime <= s[j].startTime
  {
    if i == 0 {
      TimelineBounds(s[1..], s[0].endTime, t1, j - 1);
    } else {
      TimelineNoOverlap(s[1..], s[0].endTime, t1, i - 1, j - 1);
    }
  }

  lemma {:induction false} DurationOfAppend(s: seq<ExecutionSlice>, x: ExecutionSlice, pid: int)
    ensures DurationOf(s + [x], pid) == DurationOf(s, pid) + (if x.processId == pid then x.Duration() else 0)
  {
    if s == [] {
      assert ([x])[1..] == [];
    } else {
      assert (s + [x])[1..] == s[1..] + [x];
      DurationOfAppend(s[1..], x, pid);
    }
  }
}
