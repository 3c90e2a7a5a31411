/** The pure part of `progressService`: `calculateProgressStats`, the weekly
    bucketing inside `getWeeklyProgressSummary`, and the inclusive date filter
    of `getProgressLogsInRange`. Dates are integer day numbers, which order
    the same way as the ISO `YYYY-MM-DD` strings the service stores. */
module ProgressService {
  import opened Options
  import opened JsNumber

  /** One row of `progress_logs`. Every measurement may be missing. */
  datatype Log = Log(date: int, weight: Option<real>, energyLevel: Option<int>, adherenceScore: Option<int>)

  datatype Trend = Stable | Decreasing | Increasing

  datatype Stats = Stats(
    currentWeight: Option<real>,
    weightChange: real,
    averageEnergyLevel: real,
    averageAdherence: int,
    progressTowardsGoal: int,
    trend: Trend)

  /** What an empty (or missing) log list produces. */
  const EmptyStats := Stats(None, 0.0, 0.0, 0, 0, Stable)

  /** The trend needs the newest and third-newest weights to differ by MORE than this. */
  const TrendThreshold := 0.5

  // `log.weight || 0`, `log.energy_level || 0`, `log.adherence_score || 0`
  function WeightOr0(l: Log): real { l.weight.GetOr(0.0) }
  function EnergyOr0(l: Log): real { l.energyLevel.GetOr(0) as real }
  function AdherenceOr0(l: Log): real { l.adherenceScore.GetOr(0) as real }

  // ---------------------------------------------------------------------------
  // Sorting a copy of the logs, newest first
  // ---------------------------------------------------------------------------

  predicate NewestFirstOrdered(s: seq<Log>) {
    forall i, j :: 0 <= i < j < |s| ==> s[i].date >= s[j].date
  }

  /** The logs of `s` dated `d`, in their order in `s`. */
  function WithDate(s: seq<Log>, d: int): seq<Log> {
    if |s| == 0 then []
    else (if s[0].date == d then [s[0]] else []) + WithDate(s[1..], d)
  }

  /** Inserts `x` before the first log that is not newer than it. */
  function Insert(x: Log, s: seq<Log>): (r: seq<Log>)
    ensures |r| == |s| + 1
    ensures multiset(r) == multiset{x} + multiset(s)
  {
    if |s| == 0 || x.date >= s[0].date then [x] + s
    else
      assert s == [s[0]] + s[1..];
      [s[0]] + Insert(x, s[1..])
  }

  lemma {:induction false} InsertOrdered(x: Log, s: seq<Log>)
    requires NewestFirstOrdered(s)
    ensures NewestFirstOrdered(Insert(x, s))
  {
    if |s| > 0 && x.date < s[0].date {
      var t := Insert(x, s[1..]);
      InsertOrdered(x, s[1..]);
      forall k | 0 <= k < |t|
        ensures t[k].date <= s[0].date
      {
        assert t[k] in multiset(t);
        assert t[k] == x || t[k] in multiset(s[1..]);
      }
    }
  }

  /** `[...progressLogs].sort((a, b) => new Date(b.log_date) - new Date(a.log_date))`:
      a stable sort by date, newest first, on a fresh sequence. */
  function NewestFirst(s: seq<Log>): (r: seq<Log>)
    ensures |r| == |s|
    ensures multiset(r) == multiset(s)
    ensures NewestFirstOrdered(r)
  {
    if |s| == 0 then []
    else
      assert s == [s[0]] + s[1..];
      InsertOrdered(s[0], NewestFirst(s[1..]));
      Insert(s[0], NewestFirst(s[1..]))
  }

  /** Logs already listed newest first come out of the sort unchanged. */
  lemma {:induction false} NewestFirstKeepsOrdered(s: seq<Log>)
    requires NewestFirstOrdered(s)
    ensures NewestFirst(s) == s
  {
    if |s| > 0 {
      NewestFirstKeepsOrdered(s[1..]);
      assert s == [s[0]] + s[1..];
    }
  }

  lemma {:induction false} InsertWithDate(x: Log, s: seq<Log>, d: int)
    ensures WithDate(Insert(x, s), d) == if x.date == d then [x] + WithDate(s, d) else WithDate(s, d)
  {
    if |s| == 0 || x.date >= s[0].date {
      assert ([x] + s)[1..] == s;
    } else {
      assert ([s[0]] + Insert(x, s[1..]))[1..] == Insert(x, s[1..]);
      InsertWithDate(x, s[1..], d);
    }
  }

  /** The sort is stable: logs sharing a date keep their input order. */
  lemma {:induction false} NewestFirstStable(s: seq<Log>, d: int)
    ensures WithDate(NewestFirst(s), d) == WithDate(s, d)
  {
    if |s| > 0 {
      NewestFirstStable(s[1..], d);
      InsertWithDate(s[0], NewestFirst(s[1..]), d);
    }
  }

  /** Index of the latest-dated log, the first such one when several share that date. */
  function LatestIndex(s: seq<Log>): (k: nat)
    requires |s| > 0
    ensures k < |s|
    ensures forall j :: 0 <= j < |s| ==> s[j].date <= s[k].date
    ensures forall j :: 0 <= j < k ==> s[j].date < s[k].date
  {
    if |s| == 1 then 0
    else
      var k := LatestIndex(s[1..]);
      if s[0].date >= s[1..][k].date then 0 else k + 1
  }

  /** Index of the earliest-dated log, the last such one when several share that date. */
  function EarliestIndex(s: seq<Log>): (k: nat)
    requires |s| > 0
    ensures k < |s|
    ensures forall j :: 0 <= j < |s| ==> s[k].date <= s[j].date
    ensures forall j :: k < j < |s| ==> s[k].date < s[j].date
  {
    if |s| == 1 then 0
    else
      var k := EarliestIndex(s[1..]);
      if s[1..][k].date <= s[0].date then k + 1 else 0
  }

  /** `sortedLogs[0]` is the first-listed of the latest-dated logs. */
  lemma {:induction false} NewestFirstHead(s: seq<Log>)
    requires |s| > 0
    ensures NewestFirst(s)[0] == s[LatestIndex(s)]
  {
    if |s| > 1 {
      NewestFirstHead(s[1..]);
    }
  }

  lemma {:induction false} InsertLast(x: Log, s: seq<Log>)
    requires |s| > 0 && NewestFirstOrdered(s)
    ensures Insert(x, s)[|s|] == if x.date < s[|s| - 1].date then x else s[|s| - 1]
  {
    if x.date < s[0].date && |s| > 1 {
      InsertLast(x, s[1..]);
    }
  }

  /** `sortedLogs[sortedLogs.length - 1]` is the last-listed of the earliest-dated logs. */
  lemma {:induction false} NewestFirstLast(s: seq<Log>)
    requires |s| > 0
    ensures NewestFirst(s)[|s| - 1] == s[EarliestIndex(s)]
  {
    if |s| > 1 {
      var t := s[1..];
      var sortedTail := NewestFirst(t);
      NewestFirstLast(t);
      InsertLast(s[0], sortedTail);
      var k := EarliestIndex(t);
      assert sortedTail[|t| - 1] == t[k];
      assert NewestFirst(s) == Insert(s[0], sortedTail);
      if t[k].date <= s[0].date {
        assert EarliestIndex(s) == k + 1;
        assert s[k + 1] == t[k];
      } else {
        assert EarliestIndex(s) == 0;
      }
    }
  }

  // ---------------------------------------------------------------------------
  // calculateProgressStats
  // ---------------------------------------------------------------------------

  /** `.map(log => log.weight).filter(Boolean)`. */
  function TruthyWeights(ws: seq<Option<real>>): (r: seq<real>)
    ensures |r| <= |ws|
  {
    if |ws| == 0 then []
    else (if Truthy(ws[0]) then [ws[0].value] else []) + TruthyWeights(ws[1..])
  }

  function Weights(s: seq<Log>): (r: seq<Option<real>>)
    ensures |r| == |s| && forall i :: 0 <= i < |s| ==> r[i] == s[i].weight
  {
    if |s| == 0 then [] else [s[0].weight] + Weights(s[1..])
  }

  /** The trend block of lines 167-175, given the sorted logs. */
  function RecentTrend(sorted: seq<Log>): (t: Trend)
    ensures t != Stable ==>
      |sorted| >= 3 && Truthy(sorted[0].weight) && Truthy(sorted[1].weight) && Truthy(sorted[2].weight)
    ensures t == Decreasing ==>
      |sorted| >= 3 && sorted[0].weight.Some? && sorted[2].weight.Some? &&
      sorted[0].weight.value < sorted[2].weight.value - TrendThreshold
    ensures t == Increasing ==>
      |sorted| >= 3 && sorted[0].weight.Some? && sorted[2].weight.Some? &&
      sorted[0].weight.value > sorted[2].weight.value + TrendThreshold
  {
    if |sorted| >= 3 then
      var ws := Weights(sorted[..3]);
      assert ws == [sorted[0].weight, sorted[1].weight, sorted[2].weight];
      TruthyWeightsOfThree(ws);
      var recent := TruthyWeights(ws);
      if |recent| >= 3 then
        var delta := recent[0] - recent[2];
        if Abs(delta) > TrendThreshold then (if delta < 0.0 then Decreasing else Increasing)
        else Stable
      else Stable
    else Stable
  }

  /** Latest minus earliest weight, or 0 unless both are truthy. */
  function NetChange(latest: Option<real>, earliest: Option<real>): (r: real)
    ensures r != 0.0 ==> Truthy(latest) && Truthy(earliest)
    ensures Truthy(latest) && Truthy(earliest) ==> earliest.value + r == latest.value
  {
    if Truthy(latest) && Truthy(earliest) then latest.value - earliest.value else 0.0
  }

  /** Lines 161-164: the share of the needed change already achieved, in percent,
      0 unless target, current and earliest weights are all truthy. */
  function GoalProgress(targetWeight: Option<real>, current: Option<real>, previous: Option<real>): (p: real)
    ensures p >= 0.0
    ensures p != 0.0 ==> Truthy(targetWeight) && Truthy(current) && Truthy(previous)
    ensures Truthy(targetWeight) && Truthy(current) && Truthy(previous) ==>
      if targetWeight.value == previous.value then p == 0.0
      else p * Abs(targetWeight.value - previous.value) == Abs(current.value - previous.value) * 100.0
  {
    if Truthy(targetWeight) && Truthy(current) && Truthy(previous) then
      var needed := Abs(targetWeight.value - previous.value);
      var actual := Abs(current.value - previous.value);
      if needed > 0.0 then actual / needed * 100.0 else 0.0
    else 0.0
  }

  /** Line 161 with lines 166-175: the trend, computed only under a truthy target,
      current and earliest weight. */
  function SortedTrend(sorted: seq<Log>, targetWeight: Option<real>): Trend
    requires |sorted| > 0
  {
    if Truthy(targetWeight) && Truthy(sorted[0].weight) && Truthy(sorted[|sorted| - 1].weight) then RecentTrend(sorted)
    else Stable
  }

  function CalculateProgressStats(logs: seq<Log>, targetWeight: Option<real>): (r: Stats)
    ensures |logs| == 0 ==> r == EmptyStats
    ensures |logs| > 0 ==> r.currentWeight == logs[LatestIndex(logs)].weight
    ensures |logs| > 0 ==> r.weightChange == NetChange(logs[LatestIndex(logs)].weight, logs[EarliestIndex(logs)].weight)
    ensures r.progressTowardsGoal >= 0
    ensures r.progressTowardsGoal != 0 ==>
      |logs| > 0 && Truthy(targetWeight) && Truthy(logs[LatestIndex(logs)].weight) && Truthy(logs[EarliestIndex(logs)].weight)
    ensures r.trend != Stable ==> Truthy(targetWeight) && |logs| >= 3
  {
    if |logs| == 0 then EmptyStats
    else
      var sorted := NewestFirst(logs);
      NewestFirstHead(logs);
      NewestFirstLast(logs);
      var current := sorted[0].weight;
      var previous := sorted[|sorted| - 1].weight;
      Stats(
        current,
        NetChange(current, previous),
        RoundTenth(Mean(logs, EnergyOr0)),
        Round(Mean(logs, AdherenceOr0)),
        Round(GoalProgress(targetWeight, current, previous)),
        SortedTrend(sorted, targetWeight))
  }

  // ---------------------------------------------------------------------------
  // Properties of calculateProgressStats
  // ---------------------------------------------------------------------------

  /** Everything line 161 and lines 167-169 require before a trend is computed:
      a truthy target, truthy current and earliest weights, at least three logs,
      and truthy weights on all three most recent logs. */
  predicate TrendComputed(logs: seq<Log>, targetWeight: Option<real>) {
    && Truthy(targetWeight)
    && |logs| >= 3
    && var sorted := NewestFirst(logs);
       && Truthy(sorted[0].weight)
       && Truthy(sorted[1].weight)
       && Truthy(sorted[2].weight)
       && Truthy(sorted[|sorted| - 1].weight)
  }

  /** Newest weight minus third-newest weight. */
  function RecentChange(logs: seq<Log>): real
    requires |logs| >= 3
    requires NewestFirst(logs)[0].weight.Some? && NewestFirst(logs)[2].weight.Some?
  {
    NewestFirst(logs)[0].weight.value - NewestFirst(logs)[2].weight.value
  }

  lemma TruthyWeightsOfThree(ws: seq<Option<real>>)
    requires |ws| == 3
    ensures |TruthyWeights(ws)| >= 3 <==> Truthy(ws[0]) && Truthy(ws[1]) && Truthy(ws[2])
    ensures |TruthyWeights(ws)| >= 3 ==> TruthyWeights(ws) == [ws[0].value, ws[1].value, ws[2].value]
  {
    assert ws[1..][1..] == [ws[2]];
    assert ws[1..][1..][1..] == [];
    assert TruthyWeights(ws[1..][1..][1..]) == [];
    assert TruthyWeights(ws[1..][1..]) == (if Truthy(ws[2]) then [ws[2].value] else []);
    assert TruthyWeights(ws[1..]) == (if Truthy(ws[1]) then [ws[1].value] else []) + TruthyWeights(ws[1..][1..]);
  }

  /** The trend is 'decreasing' or 'increasing' exactly when every guard holds and
      the newest and third-newest weights differ by strictly more than 0.5; the
      sign of that difference picks the direction. */
  lemma TrendCharacterization(logs: seq<Log>, targetWeight: Option<real>)
    ensures CalculateProgressStats(logs, targetWeight).trend == Decreasing <==>
      TrendComputed(logs, targetWeight) && RecentChange(logs) < -TrendThreshold
    ensures CalculateProgressStats(logs, targetWeight).trend == Increasing <==>
      TrendComputed(logs, targetWeight) && RecentChange(logs) > TrendThreshold
    ensures CalculateProgressStats(logs, targetWeight).trend == Stable <==>
      !TrendComputed(logs, targetWeight) || Abs(RecentChange(logs)) <= TrendThreshold
  {
    if |logs| >= 3 {
      var sorted := NewestFirst(logs);
      var ws := Weights(sorted[..3]);
      assert ws == [sorted[0].weight, sorted[1].weight, sorted[2].weight];
      TruthyWeightsOfThree(ws);
    }
  }

  /** The goal percentage is measured from the earliest-dated to the latest-dated log. */
  lemma GoalProgressFromEnds(logs: seq<Log>, targetWeight: Option<real>)
    requires |logs| > 0
    ensures CalculateProgressStats(logs, targetWeight).progressTowardsGoal ==
      Round(GoalProgress(targetWeight, logs[LatestIndex(logs)].weight, logs[EarliestIndex(logs)].weight))
  {
    NewestFirstHead(logs);
    NewestFirstLast(logs);
  }

  /** Line 164 does not clamp: overshooting the target reports more than 100%. */
  lemma GoalProgressNotClamped()
    ensures CalculateProgressStats([Log(2, Some(66.0), None, None), Log(1, Some(72.0), None, None)], Some(68.0))
              .progressTowardsGoal == 150
  {
    var logs := [Log(2, Some(66.0), None, None), Log(1, Some(72.0), None, None)];
    GoalProgressFromEnds(logs, Some(68.0));
    TwoLogEnds(logs[0], logs[1]);
    assert GoalProgress(Some(68.0), Some(66.0), Some(72.0)) == 6.0 / 4.0 * 100.0 by {
      assert Abs(68.0 - 72.0) == 4.0 && Abs(66.0 - 72.0) == 6.0;
    }
    RoundUnique(6.0 / 4.0 * 100.0, 150);
  }

  /** Of two logs, the later-dated is the latest and the other the earliest. */
  lemma TwoLogEnds(a: Log, b: Log)
    requires a.date > b.date
    ensures LatestIndex([a, b]) == 0 && EarliestIndex([a, b]) == 1
  {
    assert [a, b][1..] == [b];
  }

  /** Both averages divide the sum over every log, a missing score counting as 0, by the
      number of logs: energy to the nearest tenth, adherence to the nearest integer. */
  lemma AveragesOverAllLogs(logs: seq<Log>, targetWeight: Option<real>)
    requires |logs| > 0
    ensures var r := CalculateProgressStats(logs, targetWeight);
      var energy := Sum(logs, EnergyOr0) / |logs| as real;
      var adherence := Sum(logs, AdherenceOr0) / |logs| as real;
      && energy - 0.05 < r.averageEnergyLevel <= energy + 0.05
      && r.averageEnergyLevel == RoundTenth(energy)
      && adherence - 0.5 < r.averageAdherence as real <= adherence + 0.5
      && r.averageAdherence == Round(adherence)
  {
    var r := CalculateProgressStats(logs, targetWeight);
    var e := Mean(logs, EnergyOr0);
    assert r.averageEnergyLevel == RoundTenth(e);
    assert r.averageAdherence == Round(Mean(logs, AdherenceOr0));
  }

  /** The averages stay inside the self-report scales when every log carries
      both scores: energy within 1..10, adherence within 0..100. */
  lemma AveragesWithinScale(logs: seq<Log>, targetWeight: Option<real>)
    requires |logs| > 0
    requires forall i :: 0 <= i < |logs| ==> logs[i].energyLevel.Some? && 1 <= logs[i].energyLevel.value <= 10
    requires forall i :: 0 <= i < |logs| ==> logs[i].adherenceScore.Some? && 0 <= logs[i].adherenceScore.value <= 100
    ensures 1.0 <= CalculateProgressStats(logs, targetWeight).averageEnergyLevel <= 10.0
    ensures 0 <= CalculateProgressStats(logs, targetWeight).averageAdherence <= 100
  {
    MeanBounds(logs, EnergyOr0, 1.0, 10.0);
    MeanBounds(logs, AdherenceOr0, 0.0, 100.0);
    var e := Mean(logs, EnergyOr0);
    var k := Round(e * 10.0);
    assert 10 <= k <= 100;
    assert RoundTenth(e) == k as real / 10.0;
  }

  /** The log list of the service's own first test case: 71 -> 70.5 -> 70 on three consecutive days. */
  const ThreeDayLogs := [Log(15, Some(70.0), Some(8), Some(90)), Log(14, Some(70.5), Some(7), Some(85)), Log(13, Some(71.0), Some(9), Some(95))]

  /** Energies 8, 7, 9 average to 8.0; adherence 90, 85, 95 averages to 90. */
  lemma ExampleAverages(targetWeight: Option<real>)
    ensures CalculateProgressStats(ThreeDayLogs, targetWeight).averageEnergyLevel == 8.0
    ensures CalculateProgressStats(ThreeDayLogs, targetWeight).averageAdherence == 90
  {
    var logs := ThreeDayLogs;
    assert logs[1..][1..][1..] == [];
    assert Sum(logs, EnergyOr0) == 24.0;
    assert Sum(logs, AdherenceOr0) == 270.0;
    assert Mean(logs, EnergyOr0) == 24.0 / 3.0;
    assert Mean(logs, AdherenceOr0) == 270.0 / 3.0;
    RoundUnique(8.0 * 10.0, 80);
    RoundUnique(90.0, 90);
  }

  /** With target 68 the same logs give current weight 70 and net change -1 ... */
  lemma ExampleCurrentAndChange()
    ensures CalculateProgressStats(ThreeDayLogs, Some(68.0)).currentWeight == Some(70.0)
    ensures CalculateProgressStats(ThreeDayLogs, Some(68.0)).weightChange == -1.0
  {
    ThreeDayEnds();
  }

  lemma ThreeDaySorted()
    ensures NewestFirst(ThreeDayLogs) == ThreeDayLogs
  {
    assert NewestFirstOrdered(ThreeDayLogs);
    NewestFirstKeepsOrdered(ThreeDayLogs);
  }

  /** In the three-day list the newest log comes first and the oldest last. */
  lemma ThreeDayEnds()
    ensures LatestIndex(ThreeDayLogs) == 0 && EarliestIndex(ThreeDayLogs) == 2
  {
    var logs := ThreeDayLogs;
    assert LatestIndex(logs[1..][1..]) == 0 && LatestIndex(logs[1..]) == 0 && LatestIndex(logs) == 0;
    assert EarliestIndex(logs[1..][1..]) == 0 && EarliestIndex(logs[1..]) == 1 && EarliestIndex(logs) == 2;
  }

  /** ... a decreasing trend ... */
  lemma ExampleDecreasingTrend()
    ensures CalculateProgressStats(ThreeDayLogs, Some(68.0)).trend == Decreasing
  {
    var logs := ThreeDayLogs;
    ThreeDaySorted();
    assert TrendComputed(logs, Some(68.0));
    assert RecentChange(logs) == -1.0;
    TrendCharacterization(logs, Some(68.0));
  }

  /** ... and one of the three kilograms towards 68, which rounds to 33%. */
  lemma ExampleGoalThird(logs: seq<Log>)
    requires logs == ThreeDayLogs
    ensures CalculateProgressStats(logs, Some(68.0)).progressTowardsGoal == 33
  {
    GoalProgressFromEnds(logs, Some(68.0));
    ThreeDayEnds();
    OneOfThreeKilograms();
  }

  lemma OneOfThreeKilograms()
    ensures Round(GoalProgress(Some(68.0), Some(70.0), Some(71.0))) == 33
  {
    assert Abs(68.0 - 71.0) == 3.0 && Abs(70.0 - 71.0) == 1.0;
    assert GoalProgress(Some(68.0), Some(70.0), Some(71.0)) == 1.0 / 3.0 * 100.0;
    RoundUnique(1.0 / 3.0 * 100.0, 33);
  }

  /** Started at 72, now 69, target 68: three of the four kilograms, 75%. */
  lemma ExampleGoalProgress()
    ensures CalculateProgressStats(
              [Log(15, Some(69.0), Some(8), Some(90)), Log(10, Some(72.0), Some(7), Some(85))],
              Some(68.0)).progressTowardsGoal == 75
  {
    var logs := [Log(15, Some(69.0), Some(8), Some(90)), Log(10, Some(72.0), Some(7), Some(85))];
    GoalProgressFromEnds(logs, Some(68.0));
    TwoLogEnds(logs[0], logs[1]);
    assert GoalProgress(Some(68.0), Some(69.0), Some(72.0)) == 3.0 / 4.0 * 100.0 by {
      assert Abs(68.0 - 72.0) == 4.0 && Abs(69.0 - 72.0) == 3.0;
    }
    RoundUnique(3.0 / 4.0 * 100.0, 75);
  }

  /** A difference of exactly 0.5 between newest and third-newest stays 'stable'. */
  lemma ExampleThresholdIsStrict()
    ensures CalculateProgressStats(
              [Log(3, Some(70.5), None, None), Log(2, Some(70.2), None, None), Log(1, Some(70.0), None, None)],
              Some(65.0)).trend == Stable
  {
    var logs := [Log(3, Some(70.5), None, None), Log(2, Some(70.2), None, None), Log(1, Some(70.0), None, None)];
    assert NewestFirst(logs) == logs by {
      assert NewestFirstOrdered(logs);
      NewestFirstKeepsOrdered(logs);
    }
    assert RecentChange(logs) == 0.5;
    TrendCharacterization(logs, Some(65.0));
  }

  /** A weight of 0 counts as missing: it blocks the trend even with a large change. */
  lemma ExampleZeroWeightIsMissing()
    ensures CalculateProgressStats(
              [Log(3, Some(60.0), None, None), Log(2, Some(0.0), None, None), Log(1, Some(70.0), None, None)],
              Some(65.0)).trend == Stable
  {
    var logs := [Log(3, Some(60.0), None, None), Log(2, Some(0.0), None, None), Log(1, Some(70.0), None, None)];
    assert NewestFirst(logs) == logs by {
      assert NewestFirstOrdered(logs);
      NewestFirstKeepsOrdered(logs);
    }
    assert !TrendComputed(logs, Some(65.0));
    TrendCharacterization(logs, Some(65.0));
  }

  // ---------------------------------------------------------------------------
  // getProgressLogsInRange (mock branch) and getWeeklyProgressSummary
  // ---------------------------------------------------------------------------

  /** `logs.filter(log => logDate >= startDate && logDate <= endDate)`: both ends inclusive. */
  function LogsInRange(logs: seq<Log>, lo: int, hi: int): (r: seq<Log>)
    ensures |r| <= |logs|
  {
    if |logs| == 0 then []
    else (if lo <= logs[0].date <= hi then [logs[0]] else []) + LogsInRange(logs[1..], lo, hi)
  }

  /** The range filter keeps exactly the logs dated within [lo, hi]. */
  lemma {:induction false} LogsInRangeMembers(logs: seq<Log>, lo: int, hi: int, x: Log)
    ensures x in LogsInRange(logs, lo, hi) <==> x in logs && lo <= x.date <= hi
  {
    if |logs| > 0 {
      LogsInRangeMembers(logs[1..], lo, hi, x);
      assert logs == [logs[0]] + logs[1..];
    }
  }

  /** ... as many times as they occur: a log in range keeps its every copy, one out of
      range loses them all. */
  lemma {:induction false} LogsInRangeCounts(logs: seq<Log>, lo: int, hi: int, x: Log)
    ensures multiset(LogsInRange(logs, lo, hi))[x] == if lo <= x.date <= hi then multiset(logs)[x] else 0
  {
    if |logs| > 0 {
      LogsInRangeCounts(logs[1..], lo, hi, x);
      assert logs == [logs[0]] + logs[1..];
    }
  }

  /** Filtering twice, the second time with a range inside the first, is filtering once. */
  lemma {:induction false} LogsInRangeNested(logs: seq<Log>, lo: int, hi: int, lo': int, hi': int)
    requires lo <= lo' && hi' <= hi
    ensures LogsInRange(LogsInRange(logs, lo, hi), lo', hi') == LogsInRange(logs, lo', hi')
  {
    if |logs| > 0 {
      LogsInRangeNested(logs[1..], lo, hi, lo', hi');
      var head := if lo <= logs[0].date <= hi then [logs[0]] else [];
      var inner := LogsInRange(logs, lo, hi);
      assert inner == head + LogsInRange(logs[1..], lo, hi);
      if lo <= logs[0].date <= hi {
        assert inner[0] == logs[0] && inner[1..] == LogsInRange(logs[1..], lo, hi);
      } else {
        assert inner == LogsInRange(logs[1..], lo, hi);
      }
    }
  }

  /** One entry of `weeklyData`. */
  datatype WeekSummary = WeekSummary(week: int, weekStart: int, weekEnd: int, weight: real, energy: real, adherence: int)

  /** First day of week `i` (0-based) of the window opening on day `start`. */
  function WeekStart(start: int, i: int): int { start + 7 * i }

  /** The logs of week `i`: days WeekStart .. WeekStart + 6, both inclusive. */
  function WeekLogs(logs: seq<Log>, start: int, i: int): seq<Log>
  {
    LogsInRange(logs, WeekStart(start, i), WeekStart(start, i) + 6)
  }

  /** The averages pushed for one week's logs (lines 210-220); a missing value counts as 0. */
  function Summarize(week: int, weekStart: int, weekEnd: int, weekLogs: seq<Log>): (w: WeekSummary)
    requires |weekLogs| > 0
    ensures w.week == week && w.weekStart == weekStart && w.weekEnd == weekEnd
    ensures var weight := Sum(weekLogs, WeightOr0) / |weekLogs| as real;
      && weight - 0.05 < w.weight <= weight + 0.05
      && (w.weight * 10.0).Floor as real == w.weight * 10.0
    ensures var energy := Sum(weekLogs, EnergyOr0) / |weekLogs| as real;
      && energy - 0.05 < w.energy <= energy + 0.05
      && (w.energy * 10.0).Floor as real == w.energy * 10.0
    ensures var adherence := Sum(weekLogs, AdherenceOr0) / |weekLogs| as real;
      adherence - 0.5 < w.adherence as real <= adherence + 0.5
  {
    WeekSummary(
      week, weekStart, weekEnd,
      RoundTenth(Mean(weekLogs, WeightOr0)),
      RoundTenth(Mean(weekLogs, EnergyOr0)),
      Round(Mean(weekLogs, AdherenceOr0)))
  }

  /** The loop `for (let i = from; i < weeks; i++)` reduced to the indices of the weeks
      it pushes an entry for: those whose filtered log list is non-empty. */
  function OccupiedWeeks(logs: seq<Log>, start: int, from: int, weeks: int): (r: seq<int>)
    ensures |r| <= if weeks > from then weeks - from else 0
    ensures forall k :: 0 <= k < |r| ==> from <= r[k] < weeks && |WeekLogs(logs, start, r[k])| > 0
    ensures forall k, l :: 0 <= k < l < |r| ==> r[k] < r[l]
    decreases weeks - from
  {
    if from >= weeks then []
    else (if |WeekLogs(logs, start, from)| > 0 then [from] else []) + OccupiedWeeks(logs, start, from + 1, weeks)
  }

  /** A week in the loop's range is visited with an entry exactly when it holds a log. */
  lemma {:induction false} OccupiedWeeksMembers(logs: seq<Log>, start: int, from: int, weeks: int, i: int)
    ensures i in OccupiedWeeks(logs, start, from, weeks) <==> from <= i < weeks && |WeekLogs(logs, start, i)| > 0
    decreases weeks - from
  {
    if from < weeks {
      var head := if |WeekLogs(logs, start, from)| > 0 then [from] else [];
      var rest := OccupiedWeeks(logs, start, from + 1, weeks);
      assert OccupiedWeeks(logs, start, from, weeks) == head + rest;
      assert i in head + rest <==> i in head || i in rest;
      OccupiedWeeksMembers(logs, start, from + 1, weeks, i);
    }
  }

  /** The grouping loop of `getWeeklyProgressSummary` over a window of `weeks`
      seven-day weeks whose first day is `start`. */
  function WeeklySummary(logs: seq<Log>, start: int, weeks: int): (r: seq<WeekSummary>)
    ensures |r| <= if weeks > 0 then weeks else 0
    ensures forall k :: 0 <= k < |r| ==> 1 <= r[k].week <= weeks
    ensures forall k, l :: 0 <= k < l < |r| ==> r[k].week < r[l].week
  {
    var ws := OccupiedWeeks(logs, start, 0, weeks);
    seq(|ws|, k requires 0 <= k < |ws| =>
      Summarize(ws[k] + 1, WeekStart(start, ws[k]), WeekStart(start, ws[k]) + 6, WeekLogs(logs, start, ws[k])))
  }

  /** A week yields an entry exactly when some log is dated inside it. */
  lemma WeekLogsNonEmpty(logs: seq<Log>, start: int, i: int)
    ensures |WeekLogs(logs, start, i)| > 0 <==>
      exists x :: x in logs && WeekStart(start, i) <= x.date <= WeekStart(start, i) + 6
  {
    var lo := WeekStart(start, i);
    var weekLogs := WeekLogs(logs, start, i);
    if |weekLogs| > 0 {
      LogsInRangeMembers(logs, lo, lo + 6, weekLogs[0]);
    } else {
      forall x | x in logs && lo <= x.date <= lo + 6
        ensures false
      {
        LogsInRangeMembers(logs, lo, lo + 6, x);
      }
    }
  }

  /** Every emitted week covers its seven days and holds at least one log. */
  lemma WeeklySummaryEntries(logs: seq<Log>, start: int, weeks: int)
    ensures var r := WeeklySummary(logs, start, weeks);
      forall k :: 0 <= k < |r| ==>
        && r[k].weekStart == start + 7 * (r[k].week - 1)
        && r[k].weekEnd == r[k].weekStart + 6
        && exists x :: x in logs && r[k].weekStart <= x.date <= r[k].weekEnd
  {
    var r := WeeklySummary(logs, start, weeks);
    var ws := OccupiedWeeks(logs, start, 0, weeks);
    forall k | 0 <= k < |r|
      ensures r[k].weekStart == start + 7 * (r[k].week - 1)
      ensures r[k].weekEnd == r[k].weekStart + 6
      ensures exists x :: x in logs && r[k].weekStart <= x.date <= r[k].weekEnd
    {
      var i := ws[k];
      assert r[k] == Summarize(i + 1, WeekStart(start, i), WeekStart(start, i) + 6, WeekLogs(logs, start, i));
      WeekLogsNonEmpty(logs, start, i);
    }
  }

  /** The entries are numbered after the occupied week indexes, one entry per index. */
  lemma WeeklySummaryWeeks(logs: seq<Log>, start: int, weeks: int)
    ensures var r := WeeklySummary(logs, start, weeks); var ws := OccupiedWeeks(logs, start, 0, weeks);
      |r| == |ws| && forall k :: 0 <= k < |r| ==> r[k].week == ws[k] + 1
  {
  }

  /** Every week of the window holding a log is emitted, and no other. */
  lemma WeeklySummaryComplete(logs: seq<Log>, start: int, weeks: int, i: int)
    requires 0 <= i < weeks
    ensures var r := WeeklySummary(logs, start, weeks);
      (exists x :: x in logs && start + 7 * i <= x.date <= start + 7 * i + 6) <==>
      (exists k :: 0 <= k < |r| && r[k].week == i + 1)
  {
    OccupiedWeeksMembers(logs, start, 0, weeks, i);
    WeekLogsNonEmpty(logs, start, i);
    EmittedIffOccupied(logs, start, weeks, i);
  }

  lemma EmittedIffOccupied(logs: seq<Log>, start: int, weeks: int, i: int)
    ensures var r := WeeklySummary(logs, start, weeks);
      i in OccupiedWeeks(logs, start, 0, weeks) <==> exists k :: 0 <= k < |r| && r[k].week == i + 1
  {
    var r := WeeklySummary(logs, start, weeks);
    var ws := OccupiedWeeks(logs, start, 0, weeks);
    WeeklySummaryWeeks(logs, start, weeks);
    if i in ws {
      var k :| 0 <= k < |ws| && ws[k] == i;
      assert r[k].week == i + 1;
    }
  }

  /** Each week's figures average exactly the logs dated inside that week, over their count. */
  lemma WeekAveragesOverItsLogs(logs: seq<Log>, start: int, weeks: int, k: int)
    requires 0 <= k < |WeeklySummary(logs, start, weeks)|
    ensures var w := WeeklySummary(logs, start, weeks)[k];
      var inWeek := LogsInRange(logs, w.weekStart, w.weekEnd);
      && |inWeek| > 0
      && w == Summarize(w.week, w.weekStart, w.weekEnd, inWeek)
  {
  }

  /** `getWeeklyProgressSummary(userId, weeks)` with the window's first day passed in:
      the logs are first narrowed to the window [start, start + 7 * weeks], then grouped. */
  function GetWeeklyProgressSummary(logs: seq<Log>, start: int, weeks: int): (r: seq<WeekSummary>)
    ensures |r| <= if weeks > 0 then weeks else 0
    ensures forall k :: 0 <= k < |r| ==> 1 <= r[k].week <= weeks
    ensures forall k, l :: 0 <= k < l < |r| ==> r[k].week < r[l].week
  {
    WeeklySummary(LogsInRange(logs, start, start + 7 * weeks), start, weeks)
  }

  /** Narrowing to the window first changes nothing: every week lies inside it. */
  lemma {:induction false} WindowFilterIsRedundant(logs: seq<Log>, start: int, weeks: int)
    ensures GetWeeklyProgressSummary(logs, start, weeks) == WeeklySummary(logs, start, weeks)
  {
    var narrowed := LogsInRange(logs, start, start + 7 * weeks);
    forall i | 0 <= i < weeks
      ensures WeekLogs(narrowed, start, i) == WeekLogs(logs, start, i)
    {
      LogsInRangeNested(logs, start, start + 7 * weeks, WeekStart(start, i), WeekStart(start, i) + 6);
    }
    OccupiedWeeksAgree(narrowed, logs, start, 0, weeks);
  }

  /** The window runs seven days per week plus its closing day, so a log dated on
      that last day (the day of the call) passes the window filter yet lies in no
      week, and yields no entry. */
  lemma WindowLastDayInNoWeek(l: Log, start: int, weeks: int)
    requires weeks >= 0 && l.date == start + 7 * weeks
    ensures l in LogsInRange([l], start, start + 7 * weeks)
    ensures forall i :: 0 <= i < weeks ==> |WeekLogs([l], start, i)| == 0
    ensures GetWeeklyProgressSummary([l], start, weeks) == []
  {
    LogsInRangeMembers([l], start, start + 7 * weeks, l);
    forall i | 0 <= i < weeks
      ensures |WeekLogs([l], start, i)| == 0
    {
      WeekLogsNonEmpty([l], start, i);
    }
    OccupiedWeeksNone([l], start, 0, weeks);
    WindowFilterIsRedundant([l], start, weeks);
  }

  /** With every week of the range empty, the loop pushes nothing. */
  lemma {:induction false} OccupiedWeeksNone(logs: seq<Log>, start: int, from: int, weeks: int)
    requires forall i :: from <= i < weeks ==> |WeekLogs(logs, start, i)| == 0
    ensures OccupiedWeeks(logs, start, from, weeks) == []
    decreases weeks - from
  {
    if from < weeks {
      OccupiedWeeksNone(logs, start, from + 1, weeks);
    }
  }

  lemma {:induction false} OccupiedWeeksAgree(a: seq<Log>, b: seq<Log>, start: int, from: int, weeks: int)
    requires forall i :: from <= i < weeks ==> WeekLogs(a, start, i) == WeekLogs(b, start, i)
    ensures OccupiedWeeks(a, start, from, weeks) == OccupiedWeeks(b, start, from, weeks)
    decreases weeks - from
  {
    if from < weeks {
      OccupiedWeeksAgree(a, b, start, from + 1, weeks);
    }
  }

  // ---------------------------------------------------------------------------
  // The week boundaries as written
  // ---------------------------------------------------------------------------

  /** Milliseconds in a day. */
  const DayMs := 86_400_000

  /** The week filter of lines 199-207 on instants, as written: `startDate` is the
      call's instant `t0`, time of day included, so week `i` runs from `t0` plus
      `7 * i` days to six days later, while `new Date(log.log_date)` of a
      `YYYY-MM-DD` date is that day's midnight UTC. */
  predicate InWeekAsWritten(l: Log, t0: int, i: int) {
    t0 + 7 * i * DayMs <= l.date * DayMs <= t0 + (7 * i + 6) * DayMs
  }

  /** The logs week `i` collects as written. */
  function WeekLogsAsWritten(logs: seq<Log>, t0: int, i: int): (r: seq<Log>)
    ensures forall x :: x in r <==> x in logs && InWeekAsWritten(x, t0, i)
  {
    if |logs| == 0 then []
    else
      assert logs == [logs[0]] + logs[1..];
      (if InWeekAsWritten(logs[0], t0, i) then [logs[0]] else []) + WeekLogsAsWritten(logs[1..], t0, i)
  }

  /** Unless the service runs at exactly midnight UTC, a log dated on the first day
      of any week (the day its `weekStart` prints as) falls in no week at all, while
      the day-based week of `WeekLogs` holds it. */
  lemma FirstDayDroppedAsWritten(t0: int, i: int, l: Log, j: int)
    requires t0 % DayMs != 0
    requires l.date == WeekStart(t0 / DayMs, i)
    ensures !InWeekAsWritten(l, t0, j)
    ensures l in WeekLogs([l], t0 / DayMs, i)
  {
    var q := t0 / DayMs;
    assert t0 == q * DayMs + t0 % DayMs;
    assert l.date * DayMs == q * DayMs + 7 * i * DayMs;
    if j <= i - 1 {
      assert t0 + (7 * j + 6) * DayMs <= t0 + (7 * i - 1) * DayMs;
    } else {
      assert t0 + 7 * j * DayMs >= t0 + 7 * i * DayMs;
    }
    LogsInRangeMembers([l], WeekStart(q, i), WeekStart(q, i) + 6, l);
  }
}
