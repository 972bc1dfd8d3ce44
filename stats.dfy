/** The metrics the transfer paths report (`stats.Report`,
    `stats.ReportDataSent`, `stats.ReportDataReceived`). Durations are
    wall-clock floats in the source; here a duration report records only
    which metric it was. */
module Stats {

  datatype Metric =
    | ObjPutTotal | ObjPutFails | ObjPutDuration
    | ObjGetTotal | ObjGetFails | ObjGetDuration

  datatype Report =
    | Counter(metric: Metric, value: nat)
    | Duration(metric: Metric)
    | DataSent(bytes: nat)
    | DataReceived(bytes: nat)

  /** How many times r occurs in a report log. */
  function Occurrences(log: seq<Report>, r: Report): (n: nat)
    ensures n <= |log|
    ensures n == 0 <==> r !in log
  {
    if log == [] then 0
    else (if log[0] == r then 1 else 0) + Occurrences(log[1..], r)
  }

  /** The collector the reports go to: it keeps them in order. */
  class Metrics {
    var log: seq<Report>

    constructor ()
      ensures log == []
    {
      log := [];
    }

    method Report(r: Report)
      modifies this
      ensures log == old(log) + [r]
    {
      log := log + [r];
    }
  }
}
