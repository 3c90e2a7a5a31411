/** The user context: the `useUser` guard, the seeded demo user, and the two
    reducers the provider hands out, `updateUser` and `logProgress`. The state
    is the user object, `None` standing for `null`. */
module UserContext {
  import opened Options
  import opened JsObject

  const MissingProviderError := "useUser must be used within a UserContextProvider"

  /** `useUser`: the context value, or the thrown error when no provider supplies one. */
  function UseUser<T>(context: Option<T>): (r: Result<T, string>)
    ensures r.Failure? <==> context.None?
    ensures context.Some? ==> r.Success? && r.value == context.value
    ensures r.Failure? ==> r.error == MissingProviderError
  {
    match context
    case Some(c) => Success(c)
    case None => Failure(MissingProviderError)
  }

  /** `updateUser(updates)`: `{ ...prev, ...updates }`, a shallow merge. */
  function UpdateUser(prev: Option<Object>, updates: Object): (r: Object)
    ensures r.Keys == SpreadOf(prev).Keys + updates.Keys
    ensures forall k :: k in updates ==> r[k] == updates[k]
    ensures prev.Some? ==> forall k :: k in prev.value && k !in updates ==> r[k] == prev.value[k]
  {
    Merge(SpreadOf(prev), updates)
  }

  /** Two updates in a row equal one update by their merge. */
  lemma UpdateUserTwice(prev: Option<Object>, u1: Object, u2: Object)
    ensures UpdateUser(Some(UpdateUser(prev, u1)), u2) == UpdateUser(prev, Merge(u1, u2))
  {
    MergeAssociative(SpreadOf(prev), u1, u2);
  }

  /** The merge is shallow: an update carrying `progress` replaces the whole nested
      object, so nested keys it leaves out are gone rather than kept. */
  lemma UpdateUserIsShallow(prev: Object, nested: Object)
    requires "progress" in prev && prev["progress"].Obj?
    requires "weeklyProgress" in prev["progress"].fields && "weeklyProgress" !in nested
    ensures var r := UpdateUser(Some(prev), map["progress" := Obj(nested)]);
      "weeklyProgress" !in r["progress"].fields
  {
  }

  /** `[...v]` inside an array literal: an array's elements, a string's characters as
      one-character strings; any other value is not iterable and the spread throws. */
  function Iterate(v: Value): (r: Option<seq<Value>>)
    ensures r.Some? <==> v.Arr? || v.Str?
    ensures v.Arr? ==> r == Some(v.items)
    ensures v.Str? ==> |r.value| == |v.s| && forall i :: 0 <= i < |v.s| ==> r.value[i] == Str([v.s[i]])
  {
    match v
    case Arr(items) => Some(items)
    case Str(s) => Some(seq(|s|, i requires 0 <= i < |s| => Str([s[i]])))
    case _ => None
  }

  /** Whether `logProgress` gets through: a user whose `progress` is an object whose
      `weeklyProgress` can be spread. */
  predicate CanLog(prev: Option<Object>)
  {
    && prev.Some?
    && Get(prev.value, "progress").Obj?
    && Iterate(Get(Get(prev.value, "progress").fields, "weeklyProgress")).Some?
  }

  /** `logProgress(entry)`: a copy of the user whose `progress.weeklyProgress` has the entry
      appended; reading a field of `null` or `undefined`, or spreading a non-iterable,
      throws. */
  function LogProgress(prev: Option<Object>, entry: Value): (r: Result<Object, string>)
    ensures r.Success? <==> CanLog(prev)
    ensures r.Success? ==>
      var before := prev.value;
      var progress := before["progress"].fields;
      && r.value.Keys == before.Keys
      && (forall k :: k in before && k != "progress" ==> r.value[k] == before[k])
      && r.value["progress"].Obj?
      && var progress' := r.value["progress"].fields;
      && progress'.Keys == progress.Keys + {"weeklyProgress"}
      && (forall k :: k in progress && k != "weeklyProgress" ==> progress'[k] == progress[k])
      && progress'["weeklyProgress"] == Arr(Iterate(Get(progress, "weeklyProgress")).value + [entry])
  {
    if prev.None? then Failure("Cannot read properties of null (reading 'progress')")
    else
      var progress := Get(prev.value, "progress");
      if !progress.Obj? then Failure("Cannot read properties of progress (reading 'weeklyProgress')")
      else
        match Iterate(Get(progress.fields, "weeklyProgress"))
        case None => Failure("weeklyProgress is not iterable")
        case Some(items) =>
          var progress' := Merge(progress.fields, map["weeklyProgress" := Arr(items + [entry])]);
          Success(Merge(prev.value, map["progress" := Obj(progress')]))
  }

  /** The weekly entries of a user that can log. */
  function WeeklyProgress(user: Object): seq<Value>
    requires CanLog(Some(user))
  {
    Iterate(Get(Get(user, "progress").fields, "weeklyProgress")).value
  }

  /** Logging keeps a user able to log, grows the list by one and keeps what was there. */
  lemma LogProgressAppends(user: Object, entry: Value)
    requires CanLog(Some(user))
    ensures var r := LogProgress(Some(user), entry);
      && r.Success? && CanLog(Some(r.value))
      && WeeklyProgress(r.value) == WeeklyProgress(user) + [entry]
  {
  }

  /** Logging twice appends both entries, in the order they were logged. */
  lemma LogProgressTwice(user: Object, e1: Value, e2: Value)
    requires CanLog(Some(user))
    ensures var u1 := LogProgress(Some(user), e1).value;
      var u2 := LogProgress(Some(u1), e2).value;
      WeeklyProgress(u2) == WeeklyProgress(user) + [e1, e2]
  {
    LogProgressAppends(user, e1);
    LogProgressAppends(LogProgress(Some(user), e1).value, e2);
  }

  /** Week entries numbered 1, 2, 3, ... in list order. */
  predicate ConsecutiveWeeks(entries: seq<Value>)
  {
    forall i :: 0 <= i < |entries| ==> entries[i].Obj? && Get(entries[i].fields, "week") == Num((i + 1) as real)
  }

  function WeekEntry(week: real, weight: real, energy: real, adherence: real): Value
  {
    Obj(map["week" := Num(week), "weight" := Num(weight), "energy" := Num(energy), "adherence" := Num(adherence)])
  }

  /** The demo user the provider loads; `now` is the clock reading in milliseconds. */
  function MockUser(now: int): Object
  {
    map[
      "id" := Str("1"),
      "email" := Str("demo@nourishai.com"),
      "name" := Str("Demo User"),
      "healthGoals" := Arr([Str("weight_loss"), Str("muscle_gain")]),
      "dietaryPreferences" := Arr([Str("vegetarian")]),
      "allergies" := Arr([Str("nuts")]),
      "dislikedIngredients" := Arr([Str("mushrooms")]),
      "cookingTime" := Str("30_minutes"),
      "skillLevel" := Str("intermediate"),
      "subscriptionTier" := Str("premium"),
      "subscriptionExpiresAt" := Date(now + ThirtyDaysMs),
      "progress" := Obj(map[
        "currentWeight" := Num(70.0),
        "targetWeight" := Num(65.0),
        "weeklyProgress" := Arr([
          WeekEntry(1.0, 72.0, 7.0, 85.0),
          WeekEntry(2.0, 71.0, 8.0, 90.0),
          WeekEntry(3.0, 70.5, 8.0, 88.0),
          WeekEntry(4.0, 70.0, 9.0, 92.0)])])]
  }

  /** The demo user can log progress, and its four seeded weeks are numbered 1 to 4. */
  lemma MockUserWeeks(now: int)
    ensures CanLog(Some(MockUser(now)))
    ensures |WeeklyProgress(MockUser(now))| == 4
    ensures ConsecutiveWeeks(WeeklyProgress(MockUser(now)))
  {
    var entries := WeeklyProgress(MockUser(now));
    assert entries[0] == WeekEntry(1.0, 72.0, 7.0, 85.0);
  }
}
