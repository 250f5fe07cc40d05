/**
 * The job reader: turns the lines of the job file into process control blocks in
 * the job queue. A job line reads `id:burst:priority;memory`; blank lines and
 * lines starting with `#` are skipped; at most MAX_JOBS jobs are accepted and
 * their memory requests may add up to at most MAX_TOTAL_MEMORY.
 *
 * Ingest is the pure description of what a file yields (the jobs accepted before
 * the first error, and that error); ReadJobs is the reader thread's loop, proved
 * to put exactly Ingest's jobs into the job queue.
 */
module JobReading {
  import opened Wrappers
  import opened JavaLang
  import opened Sequences
  import opened ProcessControl
  import opened Memory
  import opened Context

  const MAX_JOBS: int := 30
  const MAX_TOTAL_MEMORY: int := 2048

  /** The exception that ends the reader (its message text is not modelled). */
  datatype ReadError =
    | InvalidJobEntry        // the line does not split on ';' into two parts
    | InvalidJobDefinition   // the first part does not split on ':' into three fields
    | NumberFormat           // a field is not a decimal int
    | TooManyJobs            // a job line after MAX_JOBS accepted jobs
    | TooMuchMemory          // the requests add up to more than MAX_TOTAL_MEMORY

  /** The constructor arguments parseLine passes for one job (its arrival time is always 0). */
  datatype JobSpec = JobSpec(id: int, burstTime: int, priority: int, memoryRequired: int, arrivalOrder: int)

  // ------------------------------------------------------------------ parseLine

  /**
   * parseLine: split on ';' into exactly two parts, the first on ':' into exactly
   * three fields, and read the four trimmed fields as ints.
   */
  function ParseLine(line: string, arrivalOrder: int): (r: Result<JobSpec, ReadError>)
    ensures r.Success? ==> r.value.arrivalOrder == arrivalOrder
  {
    var parts := JavaSplit(line, ';');
    if |parts| != 2 then Failure(InvalidJobEntry)
    else
      var fields := JavaSplit(parts[0], ':');
      if |fields| != 3 then Failure(InvalidJobDefinition)
      else
        match ParseFields(fields + [parts[1]])
        case None => Failure(NumberFormat)
        case Some(v) => Success(JobSpec(v[0], v[1], v[2], v[3], arrivalOrder))
  }

  /** Integer.parseInt of each trimmed field, or None when one of them is not an int. */
  function ParseFields(fields: seq<string>): (r: Option<seq<int>>)
    ensures r.Some? ==> |r.value| == |fields|
  {
    if fields == [] then Some([])
    else
      var first := ParseInt(Trim(fields[0]));
      var rest := ParseFields(fields[1..]);
      if first.None? || rest.None? then None
      else Some([first.value] + rest.value)
  }

  /** When ParseFields succeeds, each value is Integer.parseInt of its trimmed field. */
  lemma {:induction false} ParseFieldsReadsEach(fields: seq<string>)
    ensures var r := ParseFields(fields);
            r.Some? ==> forall k :: 0 <= k < |fields| ==> ParseInt(Trim(fields[k])) == Some(r.value[k])
  {
    if fields != [] {
      ParseFieldsReadsEach(fields[1..]);
      var r := ParseFields(fields);
      if r.Some? {
        var rest := ParseFields(fields[1..]);
        assert r.value == [ParseInt(Trim(fields[0])).value] + rest.value;
        forall k | 0 < k < |fields|
          ensures ParseInt(Trim(fields[k])) == Some(r.value[k])
        {
          assert fields[k] == fields[1..][k - 1];
          assert r.value[k] == rest.value[k - 1];
        }
      }
    }
  }

  /** ParseFields fails only when one of the fields is not an int. */
  lemma {:induction false} ParseFieldsFailsOnSome(fields: seq<string>)
    ensures ParseFields(fields).None? ==> exists k :: 0 <= k < |fields| && ParseInt(Trim(fields[k])).None?
  {
    if fields != [] && ParseFields(fields).None? && ParseInt(Trim(fields[0])).Some? {
      ParseFieldsFailsOnSome(fields[1..]);
      var k :| 0 <= k < |fields[1..]| && ParseInt(Trim(fields[1..][k])).None?;
      assert fields[k + 1] == fields[1..][k];
    }
  }

  /** Fields that each read as an int give those ints, in order. */
  lemma {:induction false} ParseFieldsOfEach(fields: seq<string>, values: seq<int>)
    requires |fields| == |values|
    requires forall k :: 0 <= k < |fields| ==> ParseInt(Trim(fields[k])) == Some(values[k])
    ensures ParseFields(fields) == Some(values)
  {
    if fields != [] {
      assert ParseInt(Trim(fields[0])) == Some(values[0]);
      forall k | 0 <= k < |fields[1..]|
        ensures ParseInt(Trim(fields[1..][k])) == Some(values[1..][k])
      {
        assert fields[1..][k] == fields[k + 1];
      }
      ParseFieldsOfEach(fields[1..], values[1..]);
      assert [values[0]] + values[1..] == values;
    }
  }

  /** The fields of a parsed job are ints. */
  lemma ParseLineInRange(line: string, arrivalOrder: int)
    ensures var r := ParseLine(line, arrivalOrder);
            r.Success? ==> InIntRange(r.value.id) && InIntRange(r.value.burstTime) &&
                           InIntRange(r.value.priority) && InIntRange(r.value.memoryRequired)
  {
    var parts := JavaSplit(line, ';');
    if |parts| == 2 {
      var fields := JavaSplit(parts[0], ':');
      if |fields| == 3 {
        ParseFieldsReadsEach(fields + [parts[1]]);
      }
    }
  }

  /** A line without ';' is not a job entry. */
  lemma ParseLineNeedsSemicolon(line: string, arrivalOrder: int)
    requires ';' !in line
    ensures ParseLine(line, arrivalOrder) == Failure(InvalidJobEntry)
  {
    assert JavaSplit(line, ';') == [line];
  }

  /** A job line in the file's own format: `id:burst:priority;memory`. */
  function FormatJobLine(j: JobSpec): string {
    Join([Join([IntToString(j.id), IntToString(j.burstTime), IntToString(j.priority)], ':'),
          IntToString(j.memoryRequired)], ';')
  }

  /** The text of an int holds no separator. */
  lemma IntTextHasNoSeparator(n: int, sep: char)
    requires sep != '-' && !IsDigit(sep)
    ensures sep !in IntToString(n)
  {
  }

  /** A separator-free piece that is not the whole text. */
  predicate Field(s: string) {
    s != [] && ':' !in s && ';' !in s
  }

  /** The text of an int is a field, left alone by trim. */
  lemma IntTextField(n: int)
    ensures Field(IntToString(n)) && Trim(IntToString(n)) == IntToString(n)
  {
    IntTextHasNoSeparator(n, ':');
    IntTextHasNoSeparator(n, ';');
  }

  /** A line `a:b:c;m` of fields splits into `a:b:c` and m, and its head into a, b and c. */
  lemma SplitJobText(a: string, b: string, c: string, m: string)
    requires Field(a) && Field(b) && Field(c) && Field(m)
    ensures JavaSplit(Join([Join([a, b, c], ':'), m], ';'), ';') == [Join([a, b, c], ':'), m]
    ensures JavaSplit(Join([a, b, c], ':'), ':') == [a, b, c]
  {
    var head := Join([a, b, c], ':');
    JoinThree(a, b, c, ':');
    assert ';' !in head;
    JavaSplitJoin([head, m], ';');
    JavaSplitJoin([a, b, c], ':');
  }

  /** Four fields holding the texts of ints parse to those ints. */
  lemma ParseIntFields(w: int, x: int, y: int, z: int)
    requires InIntRange(w) && InIntRange(x) && InIntRange(y) && InIntRange(z)
    ensures ParseFields([IntToString(w), IntToString(x), IntToString(y), IntToString(z)]) == Some([w, x, y, z])
  {
    var fields, values := [IntToString(w), IntToString(x), IntToString(y), IntToString(z)], [w, x, y, z];
    forall k | 0 <= k < 4
      ensures ParseInt(Trim(fields[k])) == Some(values[k])
    {
      IntTextField(values[k]);
      ParseIntToString(values[k]);
    }
    ParseFieldsOfEach(fields, values);
  }

  /** A line whose split pieces are known parses to the values of its fields. */
  lemma ParseLineOfPieces(line: string, arrivalOrder: int, head: string, a: string, b: string, c: string, m: string,
                          v: seq<int>)
    requires JavaSplit(line, ';') == [head, m] && JavaSplit(head, ':') == [a, b, c]
    requires |v| == 4 && ParseFields([a, b, c, m]) == Some(v)
    ensures ParseLine(line, arrivalOrder) == Success(JobSpec(v[0], v[1], v[2], v[3], arrivalOrder))
  {
    assert [a, b, c] + [m] == [a, b, c, m];
  }

  /** Parsing a formatted job line gives the job back, with the arrival order parseLine is given. */
  lemma ParseFormatted(j: JobSpec, arrivalOrder: int)
    requires InIntRange(j.id) && InIntRange(j.burstTime) && InIntRange(j.priority) && InIntRange(j.memoryRequired)
    ensures ParseLine(FormatJobLine(j), arrivalOrder) == Success(j.(arrivalOrder := arrivalOrder))
  {
    var a, b, c, m := IntToString(j.id), IntToString(j.burstTime), IntToString(j.priority), IntToString(j.memoryRequired);
    var v := [j.id, j.burstTime, j.priority, j.memoryRequired];
    IntTextField(j.id);
    IntTextField(j.burstTime);
    IntTextField(j.priority);
    IntTextField(j.memoryRequired);
    SplitJobText(a, b, c, m);
    ParseIntFields(j.id, j.burstTime, j.priority, j.memoryRequired);
    ParseLineOfPieces(FormatJobLine(j), arrivalOrder, Join([a, b, c], ':'), a, b, c, m, v);
  }

  // ---------------------------------------------------------------- the file

  /** run's filter: after trimming, a blank line or a comment is skipped. */
  predicate Ignored(line: string) {
    var t := Trim(line);
    t == [] || t[0] == '#'
  }

  /** The trimmed job lines, in file order. */
  function JobLines(lines: seq<string>): (r: seq<string>)
    ensures |r| <= |lines|
  {
    if lines == [] then []
    else if Ignored(lines[0]) then JobLines(lines[1..])
    else [Trim(lines[0])] + JobLines(lines[1..])
  }

  /** The memory requests of the jobs, in order. */
  function Memories(jobs: seq<JobSpec>): (r: seq<int>)
    ensures |r| == |jobs|
    ensures forall k :: 0 <= k < |jobs| ==> r[k] == jobs[k].memoryRequired
  {
    seq(|jobs|, k requires 0 <= k < |jobs| => jobs[k].memoryRequired)
  }

  /** The sum of the jobs' memory requests. */
  function MemorySum(jobs: seq<JobSpec>): int {
    if jobs == [] then 0 else jobs[0].memoryRequired + MemorySum(jobs[1..])
  }

  /** What a file yields: the jobs accepted, in order, and the error that stopped it, if any. */
  datatype Outcome = Outcome(jobs: seq<JobSpec>, error: Option<ReadError>)

  /** Jobs accepted before those of outcome o. */
  function Prepend(accepted: seq<JobSpec>, o: Outcome): Outcome {
    Outcome(accepted + o.jobs, o.error)
  }

  /**
   * A line parser, given a trimmed job line and the arrival order to assign. The
   * reader uses ParseLine; the facts about the loop below hold for any parser that
   * assigns the arrival order it is given.
   */
  type LineParser = (string, int) -> Result<JobSpec, ReadError>

  ghost predicate KeepsArrivalOrder(parse: LineParser) {
    forall line, order :: parse(line, order).Success? ==> parse(line, order).value.arrivalOrder == order
  }

  /** ParseLine is such a parser. */
  lemma ParseLineKeepsArrivalOrder()
    ensures KeepsArrivalOrder(ParseLine)
  {
  }

  /**
   * Why the reader stops at a job line seen when count jobs are accepted and
   * cumulative memory is requested, or None when it accepts the line: the count
   * limit is checked before the line is parsed, the memory limit after.
   */
  function Rejection(parse: LineParser, line: string, count: int, cumulative: int): Option<ReadError> {
    if count >= MAX_JOBS then Some(TooManyJobs)
    else match parse(line, count)
      case Failure(e) => Some(e)
      case Success(j) => if cumulative + j.memoryRequired > MAX_TOTAL_MEMORY then Some(TooMuchMemory) else None
  }

  /**
   * The loop of JobReader.run over the remaining lines, with count jobs accepted
   * so far (the totalJobs counter) and cumulative memory requested, each job line
   * read with parse. The running memory total is a mathematical integer here; see
   * IngestAsWritten for the Java int.
   */
  function IngestWith(parse: LineParser, lines: seq<string>, count: int, cumulative: int): (o: Outcome)
    decreases |lines|
  {
    if lines == [] then Outcome([], None)
    else if Ignored(lines[0]) then IngestWith(parse, lines[1..], count, cumulative)
    else
      var line := Trim(lines[0]);
      if count >= MAX_JOBS then Outcome([], Some(TooManyJobs))
      else match parse(line, count)
        case Failure(e) => Outcome([], Some(e))
        case Success(job) =>
          var total := cumulative + job.memoryRequired;
          if total > MAX_TOTAL_MEMORY then Outcome([], Some(TooMuchMemory))
          else Prepend([job], IngestWith(parse, lines[1..], count + 1, total))
  }

  /** A job line either stops the reader with its Rejection or is accepted ahead of the rest. */
  lemma IngestJobLine(parse: LineParser, lines: seq<string>, count: int, cumulative: int)
    requires lines != [] && !Ignored(lines[0])
    ensures var line := Trim(lines[0]);
            var rejection := Rejection(parse, line, count, cumulative);
            IngestWith(parse, lines, count, cumulative)
              == if rejection.Some? then Outcome([], rejection)
                 else Prepend([parse(line, count).value],
                              IngestWith(parse, lines[1..], count + 1, cumulative + parse(line, count).value.memoryRequired))
  {
  }

  /** What JobReader.run makes of the lines of the job file. */
  function Ingest(lines: seq<string>, count: int, cumulative: int): Outcome {
    IngestWith(ParseLine, lines, count, cumulative)
  }

  /**
   * jobs are the first job lines of j, in order, each parsed with its arrival
   * order and accepted by Rejection given the memory of the jobs before it.
   */
  predicate AcceptedPrefix(parse: LineParser, j: seq<string>, count: int, cumulative: int, jobs: seq<JobSpec>)
    decreases |jobs|
  {
    jobs != [] ==>
      && j != []
      && parse(j[0], count) == Success(jobs[0])
      && Rejection(parse, j[0], count, cumulative) == None
      && AcceptedPrefix(parse, j[1..], count + 1, cumulative + jobs[0].memoryRequired, jobs[1..])
  }

  /** Pointwise: job k is line k parsed with arrival order count + k, and accepted on top of the jobs before it. */
  lemma {:induction false} AcceptedPrefixAt(parse: LineParser, j: seq<string>, count: int, cumulative: int,
                                            jobs: seq<JobSpec>, k: int)
    requires AcceptedPrefix(parse, j, count, cumulative, jobs) && 0 <= k < |jobs|
    ensures |jobs| <= |j|
    ensures parse(j[k], count + k) == Success(jobs[k])
    ensures Rejection(parse, j[k], count + k, cumulative + MemorySum(jobs[..k])) == None
    decreases k
  {
    if k == 0 {
      assert jobs[..0] == [];
      AcceptedPrefixLength(parse, j, count, cumulative, jobs);
    } else {
      var rest := jobs[1..];
      AcceptedPrefixAt(parse, j[1..], count + 1, cumulative + jobs[0].memoryRequired, rest, k - 1);
      assert j[1..][k - 1] == j[k] && rest[k - 1] == jobs[k];
      assert jobs[..k][1..] == rest[..k - 1];
      assert MemorySum(jobs[..k]) == jobs[0].memoryRequired + MemorySum(rest[..k - 1]);
      assert count + 1 + (k - 1) == count + k;
    }
  }

  /** An accepted prefix is no longer than the job lines. */
  lemma {:induction false} AcceptedPrefixLength(parse: LineParser, j: seq<string>, count: int, cumulative: int,
                                                jobs: seq<JobSpec>)
    requires AcceptedPrefix(parse, j, count, cumulative, jobs)
    ensures |jobs| <= |j|
    decreases |jobs|
  {
    if jobs != [] {
      AcceptedPrefixLength(parse, j[1..], count + 1, cumulative + jobs[0].memoryRequired, jobs[1..]);
    }
  }

  /**
   * The independent description of what the loop makes of the job lines j: the
   * accepted jobs are the first job lines parsed in order, each passing Rejection;
   * the loop stops without error exactly when every job line is accepted, and
   * otherwise with the error Rejection gives for the first job line it did not
   * accept.
   */
  predicate Characterizes(parse: LineParser, j: seq<string>, count: int, cumulative: int, o: Outcome) {
    && |o.jobs| <= |j|
    && AcceptedPrefix(parse, j, count, cumulative, o.jobs)
    && (o.error.None? <==> |o.jobs| == |j|)
    && (o.error.Some? ==> o.error == Rejection(parse, j[|o.jobs|], count + |o.jobs|, cumulative + MemorySum(o.jobs)))
  }

  /** A job line the loop stops at. */
  lemma CharacterizesStop(parse: LineParser, j: seq<string>, count: int, cumulative: int, e: ReadError)
    requires j != [] && Rejection(parse, j[0], count, cumulative) == Some(e)
    ensures Characterizes(parse, j, count, cumulative, Outcome([], Some(e)))
  {
    assert MemorySum([]) == 0;
  }

  /** A job line the loop accepts, followed by what it makes of the rest. */
  lemma CharacterizesAccept(parse: LineParser, j: seq<string>, count: int, cumulative: int, job: JobSpec, rest: Outcome)
    requires j != [] && parse(j[0], count) == Success(job) && Rejection(parse, j[0], count, cumulative) == None
    requires Characterizes(parse, j[1..], count + 1, cumulative + job.memoryRequired, rest)
    ensures Characterizes(parse, j, count, cumulative, Prepend([job], rest))
  {
    var o := Prepend([job], rest);
    assert o.jobs[1..] == rest.jobs;
    if o.error.Some? {
      var n := |rest.jobs|;
      assert j[n + 1] == j[1..][n];
      assert count + |o.jobs| == count + 1 + n;
    }
  }

  /** The loop against the independent description. */
  lemma {:induction false} IngestCharacterized(parse: LineParser, lines: seq<string>, count: int, cumulative: int)
    ensures Characterizes(parse, JobLines(lines), count, cumulative, IngestWith(parse, lines, count, cumulative))
    decreases |lines|
  {
    if lines != [] {
      if Ignored(lines[0]) {
        assert JobLines(lines) == JobLines(lines[1..]);
        assert IngestWith(parse, lines, count, cumulative) == IngestWith(parse, lines[1..], count, cumulative);
        IngestCharacterized(parse, lines[1..], count, cumulative);
      } else {
        var line := Trim(lines[0]);
        var j := JobLines(lines);
        assert j == [line] + JobLines(lines[1..]);
        assert j[1..] == JobLines(lines[1..]);
        var rejection := Rejection(parse, line, count, cumulative);
        if rejection.Some? {
          assert IngestWith(parse, lines, count, cumulative) == Outcome([], rejection);
          CharacterizesStop(parse, j, count, cumulative, rejection.value);
        } else {
          var job := parse(line, count).value;
          var total := cumulative + job.memoryRequired;
          assert IngestWith(parse, lines, count, cumulative) == Prepend([job], IngestWith(parse, lines[1..], count + 1, total));
          IngestCharacterized(parse, lines[1..], count + 1, total);
          CharacterizesAccept(parse, j, count, cumulative, job, IngestWith(parse, lines[1..], count + 1, total));
        }
      }
    }
  }

  /** The jobs carry the arrival orders count, count + 1, and so on. */
  predicate NumberedFrom(jobs: seq<JobSpec>, count: int) {
    forall k :: 0 <= k < |jobs| ==> jobs[k].arrivalOrder == count + k
  }

  /** Every accepted job gets the number of jobs accepted before it as its arrival order. */
  lemma {:induction false} IngestArrivalOrder(parse: LineParser, lines: seq<string>, count: int, cumulative: int)
    requires KeepsArrivalOrder(parse)
    ensures NumberedFrom(IngestWith(parse, lines, count, cumulative).jobs, count)
    decreases |lines|
  {
    if lines != [] {
      if Ignored(lines[0]) {
        IngestArrivalOrder(parse, lines[1..], count, cumulative);
      } else if count < MAX_JOBS && parse(Trim(lines[0]), count).Success? {
        var job := parse(Trim(lines[0]), count).value;
        var total := cumulative + job.memoryRequired;
        if total <= MAX_TOTAL_MEMORY {
          IngestArrivalOrder(parse, lines[1..], count + 1, total);
          var rest := IngestWith(parse, lines[1..], count + 1, total).jobs;
          var jobs := IngestWith(parse, lines, count, cumulative).jobs;
          assert jobs == [job] + rest;
          forall k | 0 < k < |jobs|
            ensures jobs[k].arrivalOrder == count + k
          {
            assert jobs[k] == rest[k - 1];
          }
        }
      }
    }
  }

  /** No more than MAX_JOBS jobs are ever accepted, counting those accepted before. */
  lemma {:induction false} IngestJobLimit(parse: LineParser, lines: seq<string>, count: int, cumulative: int)
    ensures var o := IngestWith(parse, lines, count, cumulative);
            o.jobs != [] ==> count + |o.jobs| <= MAX_JOBS
    decreases |lines|
  {
    if lines != [] {
      if Ignored(lines[0]) {
        IngestJobLimit(parse, lines[1..], count, cumulative);
      } else if count < MAX_JOBS && parse(Trim(lines[0]), count).Success? {
        var job := parse(Trim(lines[0]), count).value;
        IngestJobLimit(parse, lines[1..], count + 1, cumulative + job.memoryRequired);
      }
    }
  }

  /**
   * The memory requests of the accepted jobs fit into MAX_TOTAL_MEMORY one after
   * another on top of cumulative: the loader, granting them in this order without
   * release, never has to wait.
   */
  lemma {:induction false} IngestMemoryFits(parse: LineParser, lines: seq<string>, count: int, cumulative: int)
    ensures var o := IngestWith(parse, lines, count, cumulative);
            FitsInOrder(cumulative, Memories(o.jobs), MAX_TOTAL_MEMORY)
    decreases |lines|
  {
    if lines != [] {
      if Ignored(lines[0]) {
        IngestMemoryFits(parse, lines[1..], count, cumulative);
      } else if count < MAX_JOBS && parse(Trim(lines[0]), count).Success? {
        var job := parse(Trim(lines[0]), count).value;
        var total := cumulative + job.memoryRequired;
        if total <= MAX_TOTAL_MEMORY {
          IngestMemoryFits(parse, lines[1..], count + 1, total);
          var rest := IngestWith(parse, lines[1..], count + 1, total);
          assert Memories([job] + rest.jobs)[1..] == Memories(rest.jobs);
        }
      }
    }
  }

  /** A skipped first line leaves the job lines of the rest. */
  lemma JobLinesSkip(lines: seq<string>)
    requires lines != [] && Ignored(lines[0])
    ensures JobLines(lines) == JobLines(lines[1..])
  {
  }

  /** A job line comes first among the job lines, already trimmed, and not skipped. */
  lemma JobLinesKeep(lines: seq<string>)
    requires lines != [] && !Ignored(lines[0])
    ensures var j := JobLines(lines);
            j != [] && j[0] == Trim(lines[0]) && !Ignored(j[0]) && j[1..] == JobLines(lines[1..])
  {
    var j := JobLines(lines);
    assert j == [Trim(lines[0])] + JobLines(lines[1..]);
    assert Trim(Trim(lines[0])) == Trim(lines[0]);
  }

  /** A skipped first line leaves the outcome of the rest. */
  lemma IngestSkip(parse: LineParser, lines: seq<string>, count: int, cumulative: int)
    requires lines != [] && Ignored(lines[0])
    ensures IngestWith(parse, lines, count, cumulative) == IngestWith(parse, lines[1..], count, cumulative)
  {
  }

  /** Skipped lines make no difference: a file yields what its job lines alone yield. */
  lemma {:induction false} IngestJobLinesOnly(parse: LineParser, lines: seq<string>, count: int, cumulative: int)
    ensures IngestWith(parse, lines, count, cumulative) == IngestWith(parse, JobLines(lines), count, cumulative)
    decreases |lines|
  {
    if lines != [] {
      if Ignored(lines[0]) {
        IngestJobLinesOnly(parse, lines[1..], count, cumulative);
        IngestSkip(parse, lines, count, cumulative);
        JobLinesSkip(lines);
      } else {
        var line := Trim(lines[0]);
        var j := JobLines(lines);
        JobLinesKeep(lines);
        IngestJobLine(parse, lines, count, cumulative);
        IngestJobLine(parse, j, count, cumulative);
        if Rejection(parse, line, count, cumulative).None? {
          IngestJobLinesOnly(parse, lines[1..], count + 1, cumulative + parse(line, count).value.memoryRequired);
        }
      }
    }
  }

  // ------------------------------------------------- the reader as written

  /**
   * The loop as the Java code computes it: cumulativeMemory is an int, so the sum
   * of requests wraps around at 2^31 and a wrapped, negative total passes the
   * MAX_TOTAL_MEMORY check.
   */
  function IngestWrapping(parse: LineParser, lines: seq<string>, count: int, cumulative: int): (o: Outcome)
    decreases |lines|
  {
    if lines == [] then Outcome([], None)
    else if Ignored(lines[0]) then IngestWrapping(parse, lines[1..], count, cumulative)
    else
      var line := Trim(lines[0]);
      if count >= MAX_JOBS then Outcome([], Some(TooManyJobs))
      else match parse(line, count)
        case Failure(e) => Outcome([], Some(e))
        case Success(job) =>
          var total := Wrap32(cumulative + job.memoryRequired);
          if total > MAX_TOTAL_MEMORY then Outcome([], Some(TooMuchMemory))
          else Prepend([job], IngestWrapping(parse, lines[1..], count + 1, total))
  }

  /** What JobReader.run, as written, makes of the lines of the job file. */
  function IngestAsWritten(lines: seq<string>, count: int, cumulative: int): Outcome {
    IngestWrapping(ParseLine, lines, count, cumulative)
  }

  /** The two-job file `1:5:1;2000`, `2:5:1;2147483647`. */
  function OverflowingFile(): seq<string> {
    [FormatJobLine(JobSpec(1, 5, 1, 2000, 0)), FormatJobLine(JobSpec(2, 5, 1, INT_MAX, 1))]
  }

  /** Formatted lines are job lines. */
  lemma FormattedLineIsJobLine(j: JobSpec)
    ensures !Ignored(FormatJobLine(j)) && Trim(FormatJobLine(j)) == FormatJobLine(j)
  {
    var a, b, c, m := IntToString(j.id), IntToString(j.burstTime), IntToString(j.priority), IntToString(j.memoryRequired);
    var head := Join([a, b, c], ':');
    JoinThree(a, b, c, ':');
    JoinTwo(head, m, ';');
    var s := FormatJobLine(j);
    assert s[0] == a[0];
    assert s[|s| - 1] == m[|m| - 1];
  }

  /** The two readings of a file of two job lines that parse to the jobs of OverflowingFile. */
  lemma OverflowReadings(parse: LineParser, l1: string, l2: string)
    requires !Ignored(l1) && Trim(l1) == l1 && !Ignored(l2) && Trim(l2) == l2
    requires parse(l1, 0) == Success(JobSpec(1, 5, 1, 2000, 0))
    requires parse(l2, 1) == Success(JobSpec(2, 5, 1, INT_MAX, 1))
    ensures IngestWrapping(parse, [l1, l2], 0, 0) ==
            Outcome([JobSpec(1, 5, 1, 2000, 0), JobSpec(2, 5, 1, INT_MAX, 1)], None)
    ensures IngestWith(parse, [l1, l2], 0, 0) == Outcome([JobSpec(1, 5, 1, 2000, 0)], Some(TooMuchMemory))
  {
    var j1, j2 := JobSpec(1, 5, 1, 2000, 0), JobSpec(2, 5, 1, INT_MAX, 1);
    assert [l1, l2][1..] == [l2] && [l2][1..] == [];
    assert Wrap32(0 + 2000) == 2000;
    var wrapped := Wrap32(2000 + INT_MAX);
    assert wrapped == 2000 + INT_MAX - TWO_TO_32;
    assert IngestWrapping(parse, [l2], 1, 2000) == Prepend([j2], IngestWrapping(parse, [], 2, wrapped));
    assert IngestWrapping(parse, [l1, l2], 0, 0) == Prepend([j1], IngestWrapping(parse, [l2], 1, 2000));
    assert IngestWith(parse, [l1, l2], 0, 0) == Prepend([j1], IngestWith(parse, [l2], 1, 2000));
  }

  /**
   * As written, the file asking for 2000 + 2147483647 units is accepted in full;
   * with the total kept exactly, the second job is refused for its memory.
   */
  lemma MemoryLimitOverflow()
    ensures IngestAsWritten(OverflowingFile(), 0, 0) ==
            Outcome([JobSpec(1, 5, 1, 2000, 0), JobSpec(2, 5, 1, INT_MAX, 1)], None)
    ensures Ingest(OverflowingFile(), 0, 0) == Outcome([JobSpec(1, 5, 1, 2000, 0)], Some(TooMuchMemory))
  {
    var j1, j2 := JobSpec(1, 5, 1, 2000, 0), JobSpec(2, 5, 1, INT_MAX, 1);
    FormattedLineIsJobLine(j1);
    FormattedLineIsJobLine(j2);
    ParseFormatted(j1, 0);
    ParseFormatted(j2, 1);
    OverflowReadings(ParseLine, FormatJobLine(j1), FormatJobLine(j2));
  }

  // ------------------------------------------------------------ the thread

  /** The fields of the block the reader creates and queues for job j. */
  function QueuedView(j: JobSpec): (v: PcbView)
    ensures v.state == JobQueued && v.id == j.id && v.burstTime == j.burstTime && v.remainingTime == j.burstTime
    ensures v.basePriority == j.priority && v.memoryRequired == j.memoryRequired
    ensures v.arrivalTime == 0 && v.arrivalOrder == j.arrivalOrder && v.readyAdmissionTime == -1
  {
    Queued(Created(j.id, j.burstTime, j.priority, j.memoryRequired, 0, j.arrivalOrder))
  }

  /**
   * The end of one iteration of run: the block parseLine built is marked queued,
   * put on the job queue and counted in totalJobs.
   */
  method AcceptJob(ctx: SimulationContext, job: JobSpec) returns (pcb: ProcessControlBlock)
    modifies ctx
    ensures fresh(pcb) && pcb.View() == QueuedView(job)
    ensures ctx.jobQueue == old(ctx.jobQueue) + [pcb]
    ensures ctx.totalJobs == old(ctx.totalJobs) + 1
    ensures ctx.readyQueue == old(ctx.readyQueue) && ctx.readerFinished == old(ctx.readerFinished)
  {
    pcb := new ProcessControlBlock(job.id, job.burstTime, job.priority, job.memoryRequired, 0, job.arrivalOrder);
    pcb.MarkQueued();
    ctx.jobQueue := ctx.jobQueue + [pcb];
    ctx.totalJobs := ctx.totalJobs + 1;
  }

  /** The fields of the blocks queued for the jobs, in order. */
  function QueuedViews(jobs: seq<JobSpec>): (vs: seq<PcbView>)
    ensures |vs| == |jobs|
    ensures forall k :: 0 <= k < |jobs| ==> vs[k] == QueuedView(jobs[k])
  {
    seq(|jobs|, k requires 0 <= k < |jobs| => QueuedView(jobs[k]))
  }

  /**
   * The reader's progress: the job queue holds the blocks it had, then the blocks
   * added for the accepted jobs, each with that job's fields, and the counter
   * counts the accepted jobs.
   */
  ghost predicate ReaderState(ctx: SimulationContext, queued: seq<ProcessControlBlock>, added: seq<ProcessControlBlock>,
                              accepted: seq<JobSpec>, count0: int)
    reads ctx, set p | p in added
  {
    && ctx.jobQueue == queued + added
    && Views(added) == QueuedViews(accepted)
    && ctx.totalJobs == count0 + |accepted|
    && (Distinct(queued) ==> Distinct(ctx.jobQueue))
  }

  /** AcceptJob as a step of the loop: one more block, for one more accepted job. */
  method AcceptTracked(ctx: SimulationContext, job: JobSpec, ghost queued: seq<ProcessControlBlock>,
                       ghost added: seq<ProcessControlBlock>, ghost accepted: seq<JobSpec>, ghost count0: int)
    returns (pcb: ProcessControlBlock)
    requires ReaderState(ctx, queued, added, accepted, count0)
    modifies ctx
    ensures fresh(pcb)
    ensures ReaderState(ctx, queued, added + [pcb], accepted + [job], count0)
    ensures ctx.readyQueue == old(ctx.readyQueue) && ctx.readerFinished == old(ctx.readerFinished)
  {
    ghost var before := Views(added);
    pcb := AcceptJob(ctx, job);
    assert Views(added) == before;
    ViewsAppend(added, pcb);
    assert ctx.jobQueue == queued + (added + [pcb]);
    assert QueuedViews(accepted + [job]) == QueuedViews(accepted) + [QueuedView(job)];
  }

  /** Jobs accepted before jobs accepted before o. */
  lemma PrependTwice(a: seq<JobSpec>, b: seq<JobSpec>, o: Outcome)
    ensures Prepend(a, Prepend(b, o)) == Prepend(a + b, o)
  {
    assert a + (b + o.jobs) == (a + b) + o.jobs;
  }

  /**
   * The steps of the loop, on the outcome of the whole file when the accepted
   * jobs come before the outcome of the lines from i on: a skipped line, a line
   * that stops the loop, and an accepted line.
   */
  lemma SkipStep(parse: LineParser, lines: seq<string>, i: int, accepted: seq<JobSpec>, count: int, cumulative: int,
                 outcome: Outcome)
    requires 0 <= i < |lines| && Ignored(lines[i])
    requires outcome == Prepend(accepted, IngestWith(parse, lines[i..], count, cumulative))
    ensures outcome == Prepend(accepted, IngestWith(parse, lines[i + 1..], count, cumulative))
  {
    assert lines[i..][1..] == lines[i + 1..];
  }

  lemma StopStep(parse: LineParser, lines: seq<string>, i: int, accepted: seq<JobSpec>, count: int, cumulative: int,
                 outcome: Outcome)
    requires 0 <= i < |lines| && !Ignored(lines[i]) && Rejection(parse, Trim(lines[i]), count, cumulative).Some?
    requires outcome == Prepend(accepted, IngestWith(parse, lines[i..], count, cumulative))
    ensures outcome.jobs == accepted && outcome.error == Rejection(parse, Trim(lines[i]), count, cumulative)
  {
    assert lines[i..][0] == lines[i];
  }

  lemma AcceptStep(parse: LineParser, lines: seq<string>, i: int, accepted: seq<JobSpec>, count: int, cumulative: int,
                   job: JobSpec, outcome: Outcome)
    requires 0 <= i < |lines| && !Ignored(lines[i]) && Rejection(parse, Trim(lines[i]), count, cumulative).None?
    requires parse(Trim(lines[i]), count) == Success(job)
    requires outcome == Prepend(accepted, IngestWith(parse, lines[i..], count, cumulative))
    ensures outcome == Prepend(accepted + [job], IngestWith(parse, lines[i + 1..], count + 1, cumulative + job.memoryRequired))
  {
    assert lines[i..][1..] == lines[i + 1..];
    PrependTwice(accepted, [job], IngestWith(parse, lines[i + 1..], count + 1, cumulative + job.memoryRequired));
  }

  /** How one line of the file is handled: skipped, the end of the reader, or accepted into a block. */
  datatype LineStep = Skipped | Stopped(error: ReadError) | Accepted(job: JobSpec, pcb: ProcessControlBlock)

  /**
   * The state of the loop before line i, with count jobs accepted and cumulative
   * memory requested so far: the outcome of the whole file is the accepted jobs
   * followed by the outcome of the lines from i on, and the queue and counter
   * reflect the accepted jobs.
   */
  ghost predicate Reading(ctx: SimulationContext, parse: LineParser, lines: seq<string>, i: int, cumulative: int,
                          outcome: Outcome, queued: seq<ProcessControlBlock>, added: seq<ProcessControlBlock>,
                          accepted: seq<JobSpec>, count0: int, count: int)
    reads ctx, set p | p in added
  {
    && 0 <= i <= |lines|
    && count == count0 + |accepted|
    && outcome == Prepend(accepted, IngestWith(parse, lines[i..], count, cumulative))
    && ReaderState(ctx, queued, added, accepted, count0)
  }

  /**
   * One iteration of run's loop, on line i, with parse for parseLine: a blank line
   * or comment is skipped; a job line that Rejection refuses (past MAX_JOBS,
   * rejected by the parser, or taking the total past MAX_TOTAL_MEMORY) ends the
   * reader with that error; any other is queued as a block. Each is the step the
   * outcome of the file takes at that line.
   */
  method ReadLine(ctx: SimulationContext, parse: LineParser, lines: seq<string>, i: int, cumulativeMemory: int,
                  ghost outcome: Outcome, ghost queued: seq<ProcessControlBlock>, ghost added: seq<ProcessControlBlock>,
                  ghost accepted: seq<JobSpec>, ghost count0: int, ghost count: int)
    returns (step: LineStep)
    requires i < |lines| && Reading(ctx, parse, lines, i, cumulativeMemory, outcome, queued, added, accepted, count0, count)
    modifies ctx
    ensures step.Skipped? ==> Reading(ctx, parse, lines, i + 1, cumulativeMemory, outcome, queued, added, accepted, count0, count)
    ensures step.Stopped? ==>
              && outcome.jobs == accepted && outcome.error == Some(step.error)
              && ReaderState(ctx, queued, added, accepted, count0)
    ensures step.Accepted? ==>
              && fresh(step.pcb)
              && Reading(ctx, parse, lines, i + 1, cumulativeMemory + step.job.memoryRequired, outcome,
                         queued, added + [step.pcb], accepted + [step.job], count0, count + 1)
    ensures ctx.readyQueue == old(ctx.readyQueue) && ctx.readerFinished == old(ctx.readerFinished)
  {
    var line := Trim(lines[i]);
    if line == [] || line[0] == '#' {
      SkipStep(parse, lines, i, accepted, count, cumulativeMemory, outcome);
      return Skipped;
    }
    var currentCount := ctx.totalJobs;
    if currentCount >= MAX_JOBS {
      StopStep(parse, lines, i, accepted, count, cumulativeMemory, outcome);
      return Stopped(TooManyJobs);
    }
    var parsed := parse(line, currentCount);
    if parsed.Failure? {
      StopStep(parse, lines, i, accepted, count, cumulativeMemory, outcome);
      return Stopped(parsed.error);
    }
    var job := parsed.value;
    if cumulativeMemory + job.memoryRequired > MAX_TOTAL_MEMORY {
      StopStep(parse, lines, i, accepted, count, cumulativeMemory, outcome);
      return Stopped(TooMuchMemory);
    }
    AcceptStep(parse, lines, i, accepted, count, cumulativeMemory, job, outcome);
    var pcb := AcceptTracked(ctx, job, queued, added, accepted, count0);
    return Accepted(job, pcb);
  }

  /**
   * The loop of run, with parse for parseLine: it ends with the error IngestWith
   * reports, having queued a new block for each job it accepts and counted them.
   */
  method ReadLoop(ctx: SimulationContext, parse: LineParser, lines: seq<string>)
    returns (error: Option<ReadError>, ghost added: seq<ProcessControlBlock>, ghost accepted: seq<JobSpec>)
    modifies ctx
    ensures accepted == IngestWith(parse, lines, old(ctx.totalJobs), 0).jobs
    ensures error == IngestWith(parse, lines, old(ctx.totalJobs), 0).error
    ensures ReaderState(ctx, old(ctx.jobQueue), added, accepted, old(ctx.totalJobs))
    ensures forall p :: p in added ==> fresh(p)
    ensures ctx.readyQueue == old(ctx.readyQueue) && ctx.readerFinished == old(ctx.readerFinished)
  {
    ghost var outcome := IngestWith(parse, lines, ctx.totalJobs, 0);
    ghost var queued := ctx.jobQueue;
    ghost var count0 := ctx.totalJobs;
    added := [];
    accepted := [];
    ghost var count := count0;
    var cumulativeMemory := 0;
    var i := 0;
    error := None;
    assert queued + added == queued;
    assert lines[0..] == lines && Prepend(accepted, outcome) == outcome;
    while i < |lines|
      invariant Reading(ctx, parse, lines, i, cumulativeMemory, outcome, queued, added, accepted, count0, count)
      invariant forall p :: p in added ==> fresh(p)
      invariant ctx.readyQueue == old(ctx.readyQueue) && ctx.readerFinished == old(ctx.readerFinished)
    {
      var step := ReadLine(ctx, parse, lines, i, cumulativeMemory, outcome, queued, added, accepted, count0, count);
      if step.Stopped? {
        error := Some(step.error);
        break;
      }
      if step.Accepted? {
        cumulativeMemory := cumulativeMemory + step.job.memoryRequired;
        added := added + [step.pcb];
        accepted := accepted + [step.job];
        count := count + 1;
      }
      i := i + 1;
    }
    assert i == |lines| ==> lines[i..] == [];
  }

  /**
   * The loop of run, with parse for parseLine, in terms of the queue: one new
   * block for each job IngestWith accepts, in order and with that job's fields.
   */
  method ReadAll(ctx: SimulationContext, parse: LineParser, lines: seq<string>) returns (error: Option<ReadError>)
    modifies ctx
    ensures error == IngestWith(parse, lines, old(ctx.totalJobs), 0).error
    ensures |ctx.jobQueue| == |old(ctx.jobQueue)| + |IngestWith(parse, lines, old(ctx.totalJobs), 0).jobs|
    ensures ctx.jobQueue[..|old(ctx.jobQueue)|] == old(ctx.jobQueue)
    ensures Views(ctx.jobQueue[|old(ctx.jobQueue)|..]) == QueuedViews(IngestWith(parse, lines, old(ctx.totalJobs), 0).jobs)
    ensures forall p :: p in ctx.jobQueue[|old(ctx.jobQueue)|..] ==> fresh(p)
    ensures ctx.totalJobs == old(ctx.totalJobs) + |IngestWith(parse, lines, old(ctx.totalJobs), 0).jobs|
    ensures Distinct(old(ctx.jobQueue)) ==> Distinct(ctx.jobQueue)
    ensures ctx.readyQueue == old(ctx.readyQueue) && ctx.readerFinished == old(ctx.readerFinished)
  {
    ghost var queued := ctx.jobQueue;
    ghost var added, accepted;
    error, added, accepted := ReadLoop(ctx, parse, lines);
    assert ctx.jobQueue[|queued|..] == added;
  }

  /**
   * JobReader.run over the lines of the job file: the loop reading each line with
   * parseLine, then the finished flag, raised on every path (the finally block).
   * The job queue gains one new block for each job Ingest accepts, in order and
   * with that job's fields, the counter counts them, and the error Ingest reports
   * is the one the thread ends with.
   */
  method ReadJobs(ctx: SimulationContext, lines: seq<string>) returns (error: Option<ReadError>)
    modifies ctx
    ensures ctx.readerFinished
    ensures error == Ingest(lines, old(ctx.totalJobs), 0).error
    ensures |ctx.jobQueue| == |old(ctx.jobQueue)| + |Ingest(lines, old(ctx.totalJobs), 0).jobs|
    ensures ctx.jobQueue[..|old(ctx.jobQueue)|] == old(ctx.jobQueue)
    ensures Views(ctx.jobQueue[|old(ctx.jobQueue)|..]) == QueuedViews(Ingest(lines, old(ctx.totalJobs), 0).jobs)
    ensures forall p :: p in ctx.jobQueue[|old(ctx.jobQueue)|..] ==> fresh(p)
    ensures ctx.totalJobs == old(ctx.totalJobs) + |Ingest(lines, old(ctx.totalJobs), 0).jobs|
    ensures Distinct(old(ctx.jobQueue)) ==> Distinct(ctx.jobQueue)
    ensures ctx.readyQueue == old(ctx.readyQueue)
  {
    error := ReadAll(ctx, ParseLine, lines);
    ctx.readerFinished := true;
  }
}
