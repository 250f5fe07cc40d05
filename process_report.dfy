/** The per-process statistics row of a scheduling report. */
module ProcessReports {

  /** An immutable record; the fields are the Java getters. */
  datatype ProcessReport = ProcessReport(processId: int, waitingTime: int, turnaroundTime: int, responseTime: int)
}
