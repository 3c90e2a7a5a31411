/** The older progress screen (`components/ProgressTracker`): a list of logs kept in
    the order they were added, the summary figures computed from that order, the
    chart rows, and the history shown newest first. */
module ProgressTracker {
  import opened JsNumber

  /** A stored log; `date` is a day number. */
  datatype TrackerLog = TrackerLog(id: int, date: int, weight: real, energyLevel: real, adherenceScore: real, notes: string)

  function EnergyOf(l: TrackerLog): real { l.energyLevel }
  function AdherenceOf(l: TrackerLog): real { l.adherenceScore }

  /** `latestLog.weight - firstLog.weight` by position in the list, 0 for no logs. */
  function WeightChange(logs: seq<TrackerLog>): (d: real)
    ensures |logs| == 0 ==> d == 0.0
    ensures |logs| > 0 ==> logs[0].weight + d == logs[|logs| - 1].weight
  {
    if |logs| > 0 then logs[|logs| - 1].weight - logs[0].weight else 0.0
  }

  /** The sum of the changes between neighbouring logs. */
  function StepChanges(logs: seq<TrackerLog>): real
    decreases |logs|
  {
    if |logs| < 2 then 0.0 else (logs[1].weight - logs[0].weight) + StepChanges(logs[1..])
  }

  /** The overall change is the sum of the log-to-log changes: it depends only on the first
      and last positions, whatever their dates. */
  lemma {:induction false} WeightChangeTelescopes(logs: seq<TrackerLog>)
    ensures WeightChange(logs) == StepChanges(logs)
    decreases |logs|
  {
    if |logs| >= 2 {
      WeightChangeTelescopes(logs[1..]);
    }
  }

  /** The average energy (or adherence): the plain mean, 0 for no logs. */
  function AverageOf(logs: seq<TrackerLog>, f: TrackerLog -> real): (m: real)
    ensures |logs| == 0 ==> m == 0.0
    ensures |logs| > 0 ==> m * |logs| as real == Sum(logs, f)
  {
    if |logs| > 0 then Mean(logs, f) else 0.0
  }

  /** Energy levels within 1..10 average within 1..10; an empty list shows 0. */
  lemma AverageEnergyBounds(logs: seq<TrackerLog>)
    requires forall i :: 0 <= i < |logs| ==> 1.0 <= logs[i].energyLevel <= 10.0
    ensures |logs| > 0 ==> 1.0 <= AverageOf(logs, EnergyOf) <= 10.0
  {
    if |logs| > 0 {
      forall i | 0 <= i < |logs|
        ensures 1.0 <= EnergyOf(logs[i]) <= 10.0
      {
      }
      MeanBounds(logs, EnergyOf, 1.0, 10.0);
    }
  }

  /** `handleAddLog`: the new log goes at the end; the earlier ones are kept as they were. */
  function AddLog(logs: seq<TrackerLog>, log: TrackerLog): (r: seq<TrackerLog>)
    ensures |r| == |logs| + 1 && r[|logs|] == log
    ensures r[..|logs|] == logs
  {
    logs + [log]
  }

  /** After adding a log, the change shown is the new weight against the first one. */
  lemma AddLogWeightChange(logs: seq<TrackerLog>, log: TrackerLog)
    requires |logs| > 0
    ensures WeightChange(AddLog(logs, log)) == log.weight - logs[0].weight
  {
  }

  /** A row of the charts: the log's date (formatting left out) and its three values. */
  datatype ChartRow = ChartRow(date: int, weight: real, energy: real, adherence: real)

  function ChartRowOf(l: TrackerLog): ChartRow
  {
    ChartRow(l.date, l.weight, l.energyLevel, l.adherenceScore)
  }

  /** `progressLogs.map(...)`: one row per log, in the same order, carrying its values. */
  function ChartData(logs: seq<TrackerLog>): (rows: seq<ChartRow>)
    ensures |rows| == |logs|
    ensures forall i :: 0 <= i < |logs| ==>
      && rows[i].date == logs[i].date && rows[i].weight == logs[i].weight
      && rows[i].energy == logs[i].energyLevel && rows[i].adherence == logs[i].adherenceScore
  {
    seq(|logs|, i requires 0 <= i < |logs| => ChartRowOf(logs[i]))
  }

  /** Charting a list with a log added is charting the list, plus that log's row. */
  lemma ChartDataAddLog(logs: seq<TrackerLog>, log: TrackerLog)
    ensures ChartData(AddLog(logs, log)) == ChartData(logs) + [ChartRowOf(log)]
  {
  }

  /** `progressLogs.slice().reverse()`: the history, newest first, from a copy. */
  function History(logs: seq<TrackerLog>): (r: seq<TrackerLog>)
    ensures |r| == |logs|
    ensures forall i :: 0 <= i < |logs| ==> r[i] == logs[|logs| - 1 - i]
  {
    seq(|logs|, i requires 0 <= i < |logs| => logs[|logs| - 1 - i])
  }

  /** Reversing the history again gives the stored order back. */
  lemma HistoryInvolution(logs: seq<TrackerLog>)
    ensures History(History(logs)) == logs
  {
  }

  /** The history of a list with a log added starts with that log. */
  lemma HistoryAddLog(logs: seq<TrackerLog>, log: TrackerLog)
    ensures History(AddLog(logs, log)) == [log] + History(logs)
  {
  }

  /** The sign shown before the change: '+' only for a gain. */
  function SignPrefix(change: real): (p: string)
    ensures p == "+" <==> change > 0.0
    ensures p != "+" ==> p == ""
  {
    if change > 0.0 then "+" else ""
  }

  /** The colour of the change: green for no loss (zero included), red for a loss. */
  function ChangeIsGreen(change: real): (green: bool)
    ensures green <==> change >= 0.0
  {
    change >= 0.0
  }

  /** A change of zero is drawn green but without a '+' sign. */
  lemma ZeroChangeDisplay()
    ensures SignPrefix(0.0) == "" && ChangeIsGreen(0.0)
  {
  }
}
