/** The progress page (`pages/Progress`): figures derived from the user's weekly
    entries, the achievements, the recent-entries list, and the numbering of a
    newly logged week. */
module ProgressPage {
  import opened Options
  import opened JsNumber
  import opened JsObject
  import UserContext

  /** One entry of `progress.weeklyProgress`, as the page reads it. */
  datatype Entry = Entry(week: int, weight: real, energy: real, adherence: real)

  function AdherenceOf(e: Entry): real { e.adherence }

  /** Change over the last week: the last weight minus the one before, or 0 with fewer
      than two entries. */
  function WeightChange(entries: seq<Entry>): (d: real)
    ensures |entries| < 2 ==> d == 0.0
    ensures |entries| >= 2 ==> entries[|entries| - 2].weight + d == entries[|entries| - 1].weight
  {
    if |entries| > 1 then entries[|entries| - 1].weight - entries[|entries| - 2].weight else 0.0
  }

  /** After a week is logged, the change shown is the new weight against the previous last one. */
  lemma WeightChangeAfterLog(entries: seq<Entry>, e: Entry)
    requires |entries| >= 1
    ensures WeightChange(entries + [e]) == e.weight - entries[|entries| - 1].weight
  {
  }

  /** `Math.round` of the mean adherence, or 0 with no entries. */
  function AverageAdherence(entries: seq<Entry>): (average: int)
    ensures |entries| == 0 ==> average == 0
    ensures |entries| > 0 ==> var m := Sum(entries, AdherenceOf) / |entries| as real;
      m - 0.5 < average as real <= m + 0.5
  {
    if |entries| > 0 then Round(Mean(entries, AdherenceOf)) else 0
  }

  /** With every score between 0 and 100, so is the rounded average. */
  lemma AverageAdherenceBounds(entries: seq<Entry>)
    requires forall i :: 0 <= i < |entries| ==> 0.0 <= entries[i].adherence <= 100.0
    ensures 0 <= AverageAdherence(entries) <= 100
  {
    if |entries| > 0 {
      forall i | 0 <= i < |entries|
        ensures 0.0 <= AdherenceOf(entries[i]) <= 100.0
      {
      }
      MeanBounds(entries, AdherenceOf, 0.0, 100.0);
      var m := Mean(entries, AdherenceOf);
      assert 0.0 <= m <= 100.0;
    }
  }

  /** The label under the average. */
  function AdherenceLabel(average: int): (text: string)
    ensures average >= 90 <==> text == "Excellent!"
    ensures 80 <= average < 90 <==> text == "Great job!"
    ensures average < 80 <==> text == "Keep going!"
  {
    if average >= 90 then "Excellent!" else if average >= 80 then "Great job!" else "Keep going!"
  }

  /** `weeklyProgress.filter(w => w.adherence >= 90).length`. */
  function CountHighAdherence(entries: seq<Entry>): (n: nat)
    ensures n <= |entries|
  {
    if |entries| == 0 then 0
    else (if entries[0].adherence >= 90.0 then 1 else 0) + CountHighAdherence(entries[1..])
  }

  /** "Consistency Champion": at least two weeks at 90% adherence or more. */
  function ConsistencyChampion(entries: seq<Entry>): (earned: bool)
    ensures earned ==> |entries| >= 2
  {
    CountHighAdherence(entries) >= 2
  }

  /** Earned exactly when two different weeks reach 90% adherence. */
  lemma {:induction false} ConsistencyChampionMeansTwoWeeks(entries: seq<Entry>)
    ensures ConsistencyChampion(entries) <==>
      exists i, j :: 0 <= i < j < |entries| && entries[i].adherence >= 90.0 && entries[j].adherence >= 90.0
  {
    if |entries| > 0 {
      var rest := entries[1..];
      ConsistencyChampionMeansTwoWeeks(rest);
      HasHighAdherenceIff(rest);
      if ConsistencyChampion(entries) {
        if entries[0].adherence >= 90.0 {
          var j :| 0 <= j < |rest| && rest[j].adherence >= 90.0;
          assert entries[j + 1] == rest[j];
        } else {
          var i, j :| 0 <= i < j < |rest| && rest[i].adherence >= 90.0 && rest[j].adherence >= 90.0;
          assert entries[i + 1] == rest[i] && entries[j + 1] == rest[j];
        }
      }
      if exists i, j :: 0 <= i < j < |entries| && entries[i].adherence >= 90.0 && entries[j].adherence >= 90.0 {
        var i, j :| 0 <= i < j < |entries| && entries[i].adherence >= 90.0 && entries[j].adherence >= 90.0;
        assert rest[j - 1] == entries[j];
        if i > 0 {
          assert rest[i - 1] == entries[i];
        }
      }
    }
  }

  /** One week at 90% or more is counted exactly when there is one. */
  lemma {:induction false} HasHighAdherenceIff(entries: seq<Entry>)
    ensures CountHighAdherence(entries) >= 1 <==> exists j :: 0 <= j < |entries| && entries[j].adherence >= 90.0
  {
    if |entries| > 0 {
      var rest := entries[1..];
      HasHighAdherenceIff(rest);
      if exists j :: 0 <= j < |rest| && rest[j].adherence >= 90.0 {
        var j :| 0 <= j < |rest| && rest[j].adherence >= 90.0;
        assert entries[j + 1] == rest[j];
      }
      if exists j :: 0 <= j < |entries| && entries[j].adherence >= 90.0 {
        var j :| 0 <= j < |entries| && entries[j].adherence >= 90.0;
        if j > 0 {
          assert rest[j - 1] == entries[j];
        }
      }
    }
  }

  /** `weeklyProgress.some(w => w.energy >= 8)`. */
  function EnergyBoost(entries: seq<Entry>): (earned: bool)
    ensures earned <==> exists i :: 0 <= i < |entries| && entries[i].energy >= 8.0
  {
    if |entries| == 0 then false
    else
      assert forall i :: 0 < i < |entries| ==> entries[i] == entries[1..][i - 1];
      entries[0].energy >= 8.0 || EnergyBoost(entries[1..])
  }

  /** `user?.progress?.currentWeight || 70` and the like: a missing or zero value shows the default. */
  function OrDefault(w: Option<real>, default: real): (shown: real)
    ensures Truthy(w) ==> shown == w.value
    ensures !Truthy(w) ==> shown == default
  {
    if Truthy(w) then w.value else default
  }

  const DefaultCurrentWeight := 70.0
  const DefaultTargetWeight := 65.0
  /** The fixed starting weight the page measures loss from. */
  const Baseline := 75.0

  /** "Weight Loss Warrior": at least 2 kg below the 75 kg baseline. */
  function WeightLossWarrior(currentWeight: real): (earned: bool)
    ensures earned <==> currentWeight <= 73.0
  {
    Baseline - currentWeight >= 2.0
  }

  /** Earned exactly at 73 kg or less, so a user with no recorded weight, shown at the
      70 kg default, has it already. */
  lemma WeightLossWarriorThreshold(w: Option<real>)
    ensures WeightLossWarrior(OrDefault(w, DefaultCurrentWeight)) <==> OrDefault(w, DefaultCurrentWeight) <= 73.0
    ensures !Truthy(w) ==> WeightLossWarrior(OrDefault(w, DefaultCurrentWeight))
  {
  }

  /** The "Goal Progress" figure, `Math.round(((75 - current) / (75 - target)) * 100)`;
      `None` when the target is the baseline itself and the division has no finite value. */
  function GoalPercent(current: real, target: real): (p: Option<int>)
    ensures p.None? <==> target == Baseline
    ensures p.Some? ==> var x := (Baseline - current) / (Baseline - target) * 100.0;
      x - 0.5 < p.value as real <= x + 0.5
  {
    if Baseline - target == 0.0 then None
    else Some(Round((Baseline - current) / (Baseline - target) * 100.0))
  }

  /** With the defaults, 5 kg of the 10 kg goal are lost: 50%. */
  lemma GoalPercentDefaults()
    ensures GoalPercent(DefaultCurrentWeight, DefaultTargetWeight) == Some(50)
  {
    RoundUnique(50.0, 50);
  }

  /** `weeklyProgress.slice(-3).reverse()`: the last three entries (or all, when fewer),
      newest first. */
  function RecentEntries(entries: seq<Entry>): (r: seq<Entry>)
    ensures |r| == if |entries| < 3 then |entries| else 3
    ensures forall i :: 0 <= i < |r| ==> r[i] == entries[|entries| - 1 - i]
  {
    var n := |entries|;
    var tail := if n < 3 then entries else entries[n - 3..];
    Reverse(tail)
  }

  function Reverse(s: seq<Entry>): (r: seq<Entry>)
    ensures |r| == |s|
    ensures forall i :: 0 <= i < |s| ==> r[i] == s[|s| - 1 - i]
  {
    if |s| == 0 then [] else Reverse(s[1..]) + [s[0]]
  }

  /** The object `handleLogSubmit` logs: numbered one past the current count. The inputs
      are the already-parsed form values and today's date string. */
  function NewEntry(count: nat, weight: real, energy: int, adherence: int, notes: string, date: string): (v: Value)
    ensures v.Obj? && Get(v.fields, "week") == Num((count + 1) as real)
  {
    Obj(map[
      "week" := Num((count + 1) as real),
      "weight" := Num(weight),
      "energy" := Num(energy as real),
      "adherence" := Num(adherence as real),
      "notes" := Str(notes),
      "date" := Str(date)])
  }

  /** Submitting the form through `logProgress` keeps the weeks numbered 1, 2, 3, ...:
      the new entry is numbered one past the existing count and lands at the end. */
  lemma SubmitKeepsWeeksConsecutive(user: Object, weight: real, energy: int, adherence: int, notes: string, date: string)
    requires UserContext.CanLog(Some(user))
    requires UserContext.ConsecutiveWeeks(UserContext.WeeklyProgress(user))
    ensures var entries := UserContext.WeeklyProgress(user);
      var r := UserContext.LogProgress(Some(user), NewEntry(|entries|, weight, energy, adherence, notes, date));
      && r.Success?
      && UserContext.CanLog(Some(r.value))
      && UserContext.ConsecutiveWeeks(UserContext.WeeklyProgress(r.value))
  {
    var entries := UserContext.WeeklyProgress(user);
    var e := NewEntry(|entries|, weight, energy, adherence, notes, date);
    UserContext.LogProgressAppends(user, e);
    var after := UserContext.WeeklyProgress(UserContext.LogProgress(Some(user), e).value);
    assert after == entries + [e];
    forall i | 0 <= i < |after|
      ensures after[i].Obj? && Get(after[i].fields, "week") == Num((i + 1) as real)
    {
      if i < |entries| {
        assert after[i] == entries[i];
      }
    }
  }
}
