/**
 * What a scheduler run returns: its name, the execution slices in order, and
 * the completed blocks in completion order; and the reports built from it.
 */
module Results {
  import opened Wrappers
  import opened JavaLang
  import opened ProcessControl
  import opened ExecutionSlices
  import opened ProcessReports

  /**
   * The constructor stores copies of the lists it is given, so the value is
   * fixed once built; the completed blocks are the fields they have at the end
   * of the run, which nothing changes afterwards.
   */
  datatype SchedulingResult = SchedulingResult(
    schedulerName: string, slices: seq<ExecutionSlice>, completedProcesses: seq<PcbView>)

  // ----------------------------------------------------------- process reports

  /**
   * buildProcessReports: one report per completed block, in completion order,
   * each copying the block's id, waiting, turnaround and response times.
   */
  method BuildProcessReports(result: SchedulingResult) returns (reports: seq<ProcessReport>)
    ensures |reports| == |result.completedProcesses|
    ensures forall k :: 0 <= k < |reports| ==>
              var v := result.completedProcesses[k];
              reports[k] == ProcessReport(v.id, v.waitingTime, v.turnaroundTime, v.responseTime)
  {
    reports := [];
    for k := 0 to |result.completedProcesses|
      invariant |reports| == k
      invariant forall j :: 0 <= j < k ==>
                  var v := result.completedProcesses[j];
                  reports[j] == ProcessReport(v.id, v.waitingTime, v.turnaroundTime, v.responseTime)
    {
      var pcb := result.completedProcesses[k];
      reports := reports + [ProcessReport(pcb.id, pcb.waitingTime, pcb.turnaroundTime, pcb.responseTime)];
    }
  }

  // ------------------------------------------------------ starvation by process

  /** Collectors.toMap refuses a key it has already stored. */
  datatype CollectError = DuplicateKey(id: int)

  /** The filter-collect over the blocks still to visit, into the map built so far. */
  function CollectStarved(ps: seq<PcbView>, acc: map<int, seq<string>>): Result<map<int, seq<string>>, CollectError>
    decreases |ps|
  {
    if ps == [] then Success(acc)
    else if !ps[0].sufferedStarvation then CollectStarved(ps[1..], acc)
    else if ps[0].id in acc then Failure(DuplicateKey(ps[0].id))
    else CollectStarved(ps[1..], acc[ps[0].id := ps[0].starvationEvents])
  }

  /**
   * getStarvationEventsByProcess: the completed blocks that suffered starvation,
   * keyed by process id, each with its list of events; a second starved block
   * with the same id makes the collector fail.
   */
  function StarvationEventsByProcess(result: SchedulingResult): Result<map<int, seq<string>>, CollectError> {
    CollectStarved(result.completedProcesses, map[])
  }

  /** Two starved blocks, at positions i < j, share an id. */
  predicate StarvedClash(ps: seq<PcbView>, i: int, j: int) {
    0 <= i < j < |ps| && ps[i].sufferedStarvation && ps[j].sufferedStarvation && ps[i].id == ps[j].id
  }

  /** A starved block whose id is already a key, or two starved blocks sharing an id. */
  ghost predicate CollectClash(ps: seq<PcbView>, acc: map<int, seq<string>>) {
    (exists k :: 0 <= k < |ps| && ps[k].sufferedStarvation && ps[k].id in acc) || (exists i, j :: StarvedClash(ps, i, j))
  }

  /** Collecting fails only on a clash. */
  lemma {:induction false} CollectStarvedFailsOnClash(ps: seq<PcbView>, acc: map<int, seq<string>>)
    requires CollectStarved(ps, acc).Failure?
    ensures CollectClash(ps, acc)
    decreases |ps|
  {
    if ps[0].sufferedStarvation && ps[0].id in acc {
      assert ps[0].sufferedStarvation && ps[0].id in acc;
    } else {
      var acc' := if ps[0].sufferedStarvation then acc[ps[0].id := ps[0].starvationEvents] else acc;
      var tail := ps[1..];
      CollectStarvedFailsOnClash(tail, acc');
      if exists k :: 0 <= k < |tail| && tail[k].sufferedStarvation && tail[k].id in acc' {
        var k :| 0 <= k < |tail| && tail[k].sufferedStarvation && tail[k].id in acc';
        assert tail[k] == ps[k + 1];
        if tail[k].id !in acc {
          assert StarvedClash(ps, 0, k + 1);
        }
      } else {
        var i, j :| StarvedClash(tail, i, j);
        assert StarvedClash(ps, i + 1, j + 1);
      }
    }
  }

  /** Every clash makes collecting fail. */
  lemma {:induction false} CollectStarvedClashFails(ps: seq<PcbView>, acc: map<int, seq<string>>)
    requires CollectClash(ps, acc)
    ensures CollectStarved(ps, acc).Failure?
    decreases |ps|
  {
    var tail := ps[1..];
    if !(ps[0].sufferedStarvation && ps[0].id in acc) {
      var acc' := if ps[0].sufferedStarvation then acc[ps[0].id := ps[0].starvationEvents] else acc;
      if exists k :: 0 <= k < |ps| && ps[k].sufferedStarvation && ps[k].id in acc {
        var k :| 0 <= k < |ps| && ps[k].sufferedStarvation && ps[k].id in acc;
        assert tail[k - 1] == ps[k];
      } else {
        var i, j :| StarvedClash(ps, i, j);
        if i > 0 {
          assert StarvedClash(tail, i - 1, j - 1);
        } else {
          assert tail[j - 1] == ps[j];
        }
      }
      CollectStarvedClashFails(tail, acc');
    }
  }

  /** The ids of the starved blocks. */
  function StarvedIds(ps: seq<PcbView>): set<int> {
    set k | 0 <= k < |ps| && ps[k].sufferedStarvation :: ps[k].id
  }

  /**
   * A successful collection keeps the map it started from and adds exactly the
   * starved blocks' ids, each mapped to that block's events.
   */
  lemma {:induction false} CollectStarvedContents(ps: seq<PcbView>, acc: map<int, seq<string>>)
    requires CollectStarved(ps, acc).Success?
    ensures var m := CollectStarved(ps, acc).value;
      && m.Keys == acc.Keys + StarvedIds(ps)
      && (forall key :: key in acc ==> m[key] == acc[key])
      && (forall k :: 0 <= k < |ps| && ps[k].sufferedStarvation ==> m[ps[k].id] == ps[k].starvationEvents)
    decreases |ps|
  {
    if ps != [] {
      var acc' := if ps[0].sufferedStarvation then acc[ps[0].id := ps[0].starvationEvents] else acc;
      CollectStarvedContents(ps[1..], acc');
      var tail := ps[1..];
      var m := CollectStarved(ps, acc).value;
      assert m == CollectStarved(tail, acc').value;
      assert StarvedIds(ps) == (if ps[0].sufferedStarvation then {ps[0].id} else {}) + StarvedIds(tail) by {
        forall key | key in StarvedIds(ps)
          ensures key in (if ps[0].sufferedStarvation then {ps[0].id} else {}) + StarvedIds(tail)
        {
          var k :| 0 <= k < |ps| && ps[k].sufferedStarvation && ps[k].id == key;
          if k > 0 {
            assert tail[k - 1] == ps[k];
          }
        }
        forall key | key in StarvedIds(tail)
          ensures key in StarvedIds(ps)
        {
          var k :| 0 <= k < |tail| && tail[k].sufferedStarvation && tail[k].id == key;
          assert ps[k + 1] == tail[k];
        }
      }
      forall k | 0 <= k < |ps| && ps[k].sufferedStarvation
        ensures m[ps[k].id] == ps[k].starvationEvents
      {
        if k > 0 {
          assert tail[k - 1] == ps[k];
        }
      }
    }
  }

  /**
   * The starvation map of a result is defined exactly when no two starved
   * completed blocks share an id; its keys are then exactly the starved blocks'
   * ids, each mapped to that block's events.
   */
  lemma StarvationMapSpec(result: SchedulingResult)
    ensures var ps := result.completedProcesses;
      StarvationEventsByProcess(result).Failure? <==> exists i, j :: StarvedClash(ps, i, j)
    ensures var ps, r := result.completedProcesses, StarvationEventsByProcess(result);
      r.Success? ==>
        && r.value.Keys == StarvedIds(ps)
        && forall k :: 0 <= k < |ps| && ps[k].sufferedStarvation ==> r.value[ps[k].id] == ps[k].starvationEvents
  {
    var ps := result.completedProcesses;
    if StarvationEventsByProcess(result).Failure? {
      CollectStarvedFailsOnClash(ps, map[]);
    }
    if exists i, j :: StarvedClash(ps, i, j) {
      CollectStarvedClashFails(ps, map[]);
    }
    if StarvationEventsByProcess(result).Success? {
      CollectStarvedContents(result.completedProcesses, map[]);
    }
  }

  // --------------------------------------------------------------- Gantt chart

  /** String.format("%-<width>s"): the text, padded with spaces on the right to at least the width. */
  function PadRight(s: string, width: nat): (r: string)
    ensures |r| == if |s| < width then width else |s|
    ensures r[..|s|] == s
    ensures forall k :: |s| <= k < |r| ==> r[k] == ' '
  {
    if |s| < width then s + seq(width - |s|, _ => ' ') else s
  }

  /** The border line for n slices: a corner, then seven dashes and a corner per slice. */
  function GanttBorder(n: nat): string {
    if n == 0 then "+" else GanttBorder(n - 1) + "-------+"
  }

  /** One label column: " P", the process id left-aligned in five columns, and a bar. */
  function LabelCell(processId: int): string {
    " P" + PadRight(IntToString(processId), 5) + "|"
  }

  /** One time column: the time left-aligned in eight columns. */
  function TimeCell(time: int): string {
    PadRight(IntToString(time), 8)
  }

  /** The label line: a bar, then a label column per slice. */
  function GanttLabels(s: seq<ExecutionSlice>): string
    decreases |s|
  {
    if s == [] then "|" else GanttLabels(s[..|s| - 1]) + LabelCell(s[|s| - 1].processId)
  }

  /** The time line: the start time, then each slice's end time, each in a time column. */
  function GanttTimes(start: int, s: seq<ExecutionSlice>): string
    decreases |s|
  {
    if s == [] then TimeCell(start) else GanttTimes(start, s[..|s| - 1]) + TimeCell(s[|s| - 1].endTime)
  }

  /** The four lines of a chart, joined by the line separator. */
  function GanttLines(border: string, labels: string, times: string, lineSeparator: string): string {
    border + lineSeparator + labels + lineSeparator + border + lineSeparator + times
  }

  /**
   * The chart of a result: a fixed text for a run without slices; otherwise the
   * border, the labels, the border again and the times (starting with the first
   * slice's start time), one per line.
   */
  function GanttChart(result: SchedulingResult, lineSeparator: string): string {
    var s := result.slices;
    if s == [] then "(no execution)"
    else GanttLines(GanttBorder(|s|), GanttLabels(s), GanttTimes(s[0].startTime, s), lineSeparator)
  }

  /** buildGanttChart, with the platform's line separator as a parameter. */
  method BuildGanttChart(result: SchedulingResult, lineSeparator: string) returns (chart: string)
    ensures chart == GanttChart(result, lineSeparator)
  {
    var s := result.slices;
    if |s| == 0 {
      return "(no execution)";
    }
    var border, labels, times := GanttRows(s, s[0].startTime);
    chart := GanttLines(border, labels, times, lineSeparator);
  }

  /** The loop of buildGanttChart: each slice adds a border, a label and a time column. */
  method GanttRows(s: seq<ExecutionSlice>, start: int) returns (border: string, labels: string, times: string)
    ensures border == GanttBorder(|s|) && labels == GanttLabels(s) && times == GanttTimes(start, s)
  {
    border, labels, times := "+", "|", TimeCell(start);
    for k := 0 to |s|
      invariant border == GanttBorder(k)
      invariant labels == GanttLabels(s[..k])
      invariant times == GanttTimes(start, s[..k])
    {
      assert s[..k + 1][..k] == s[..k] && s[..k + 1][k] == s[k];
      border := border + "-------+";
      labels := labels + LabelCell(s[k].processId);
      times := times + TimeCell(s[k].endTime);
    }
    assert s[..|s|] == s;
  }

  /** The fixed text is the chart of exactly the runs without slices. */
  lemma GanttChartEmpty(result: SchedulingResult, lineSeparator: string)
    ensures GanttChart(result, lineSeparator) == "(no execution)" <==> result.slices == []
  {
    if result.slices != [] {
      GanttBorderShape(|result.slices|);
      var c := GanttChart(result, lineSeparator);
      assert c[0] == GanttBorder(|result.slices|)[0];
    }
  }

  /** Every border is a corner followed by eight characters per slice. */
  lemma {:induction false} GanttBorderShape(n: nat)
    ensures |GanttBorder(n)| == 1 + 8 * n && GanttBorder(n)[0] == '+'
  {
    if n > 0 {
      GanttBorderShape(n - 1);
    }
  }

  /**
   * The columns line up: with process ids of at most five digits the label line
   * is as wide as the border, and with times of at most eight digits the time
   * line has an eight-character column for the start and for every slice.
   */
  lemma {:induction false} GanttColumns(start: int, s: seq<ExecutionSlice>)
    requires 0 <= start < 100000000
    requires forall k :: 0 <= k < |s| ==> 0 <= s[k].processId < 100000
    requires forall k :: 0 <= k < |s| ==> 0 <= s[k].endTime < 100000000
    ensures |GanttLabels(s)| == |GanttBorder(|s|)|
    ensures |GanttTimes(start, s)| == 8 * (|s| + 1)
    decreases |s|
  {
    GanttBorderShape(|s|);
    if s == [] {
      NatToStringLength(start, 8);
    } else {
      var init := s[..|s| - 1];
      assert forall k :: 0 <= k < |init| ==> init[k] == s[k];
      GanttColumns(start, init);
      GanttBorderShape(|init|);
      var last := s[|s| - 1];
      NatToStringLength(last.processId, 5);
      NatToStringLength(last.endTime, 8);
    }
  }
}
