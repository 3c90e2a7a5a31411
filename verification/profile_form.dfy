/** The four-step profile questionnaire (`UserProfileForm`): its form record,
    the list toggle, the step counter, per-step validity, the parsing of the
    disliked-ingredients text box, and the whole screen as an event machine
    whose buttons are enabled exactly as the rendered screen enables them. */
module ProfileForm {
  import opened Text
  import opened Lists
  import JsNumber

  datatype Form = Form(
    healthGoals: seq<string>,
    dietaryPreferences: seq<string>,
    allergies: seq<string>,
    dislikedIngredients: seq<string>,
    cookingTimeAvailability: string,
    cookingSkillLevel: string)

  const EmptyForm := Form([], [], [], [], "", "")

  /** The array-valued fields `handleArrayToggle` can be called with. */
  datatype ListField = HealthGoals | DietaryPreferences | Allergies | DislikedIngredients

  function Get(f: Form, field: ListField): seq<string>
  {
    match field
    case HealthGoals => f.healthGoals
    case DietaryPreferences => f.dietaryPreferences
    case Allergies => f.allergies
    case DislikedIngredients => f.dislikedIngredients
  }

  /** `{ ...prev, [field]: xs }`. */
  function Set(f: Form, field: ListField, xs: seq<string>): (r: Form)
    ensures Get(r, field) == xs
    ensures forall other :: other != field ==> Get(r, other) == Get(f, other)
    ensures r.cookingTimeAvailability == f.cookingTimeAvailability && r.cookingSkillLevel == f.cookingSkillLevel
  {
    match field
    case HealthGoals => f.(healthGoals := xs)
    case DietaryPreferences => f.(dietaryPreferences := xs)
    case Allergies => f.(allergies := xs)
    case DislikedIngredients => f.(dislikedIngredients := xs)
  }

  /** `handleArrayToggle(field, value)`: only the named list changes, and the value is in it
      afterwards exactly when it was not before. */
  function HandleArrayToggle(f: Form, field: ListField, value: string): (r: Form)
    ensures value in Get(r, field) <==> value !in Get(f, field)
    ensures forall x :: x != value ==> multiset(Get(r, field))[x] == multiset(Get(f, field))[x]
    ensures forall other :: other != field ==> Get(r, other) == Get(f, other)
    ensures r.cookingTimeAvailability == f.cookingTimeAvailability && r.cookingSkillLevel == f.cookingSkillLevel
  {
    Set(f, field, Toggle(Get(f, field), value))
  }

  /** Toggling an absent value twice gives back the form as it was. */
  lemma HandleArrayToggleTwice(f: Form, field: ListField, value: string)
    requires value !in Get(f, field)
    ensures HandleArrayToggle(HandleArrayToggle(f, field, value), field, value) == f
  {
    ToggleTwiceRestores(Get(f, field), value);
  }

  const FirstStep := 1
  const LastStep := 4

  /** `handleNext`: moves forward only while below the last step. */
  function HandleNext(step: int): (r: int)
    ensures FirstStep <= step <= LastStep ==> FirstStep <= r <= LastStep
    ensures step < LastStep ==> r == step + 1
    ensures step >= LastStep ==> r == step
  {
    if step < LastStep then step + 1 else step
  }

  /** `handlePrev`: moves back only while above the first step. */
  function HandlePrev(step: int): (r: int)
    ensures FirstStep <= step <= LastStep ==> FirstStep <= r <= LastStep
    ensures step > FirstStep ==> r == step - 1
    ensures step <= FirstStep ==> r == step
  {
    if step > FirstStep then step - 1 else step
  }

  /** Going back from a step reached by going forward returns to it. */
  lemma NextThenPrev(step: int)
    requires FirstStep <= step < LastStep
    ensures HandlePrev(HandleNext(step)) == step
  {
  }

  /** `isStepValid`: the JavaScript `&&` of two strings is truthy when both are non-empty. */
  function IsStepValid(step: int, f: Form): (valid: bool)
    ensures valid ==> FirstStep <= step <= LastStep
  {
    match step
    case 1 => |f.healthGoals| > 0
    case 2 => true
    case 3 => f.cookingTimeAvailability != "" && f.cookingSkillLevel != ""
    case 4 => true
    case _ => false
  }

  /** Which steps ask for what. */
  lemma IsStepValidCases(step: int, f: Form)
    ensures step == 1 ==> (IsStepValid(step, f) <==> |f.healthGoals| > 0)
    ensures step == 3 ==> (IsStepValid(step, f) <==> f.cookingTimeAvailability != "" && f.cookingSkillLevel != "")
    ensures step == 2 || step == 4 ==> IsStepValid(step, f)
    ensures !(FirstStep <= step <= LastStep) ==> !IsStepValid(step, f)
  {
  }

  /** The disliked-ingredients box: `value.split(',').map(item => item.trim()).filter(Boolean)`. */
  function ParseDisliked(text: string): (r: seq<string>)
    ensures forall k :: 0 <= k < |r| ==> |r[k]| > 0 && ',' !in r[k] && IsTrimmed(r[k])
  {
    var pieces := Split(text, ',');
    TrimAllNoComma(pieces);
    var trimmed := TrimAll(pieces);
    assert forall x :: x in trimmed ==> ',' !in x && IsTrimmed(x);
    KeepNonEmpty(trimmed)
  }

  /** `.map(item => item.trim())`. */
  function TrimAll(items: seq<string>): (r: seq<string>)
    ensures |r| == |items|
    ensures forall k :: 0 <= k < |r| ==> r[k] == Trim(items[k])
  {
    if |items| == 0 then [] else [Trim(items[0])] + TrimAll(items[1..])
  }

  /** `.filter(Boolean)` on strings: drops the empty ones and keeps the order of the rest. */
  function KeepNonEmpty(items: seq<string>): (r: seq<string>)
    ensures |r| <= |items|
    ensures forall k :: 0 <= k < |r| ==> |r[k]| > 0
    ensures forall x :: x in r ==> x in items
    ensures forall x {:trigger multiset(r)[x]} :: |x| > 0 ==> multiset(r)[x] == multiset(items)[x]
  {
    if |items| == 0 then []
    else
      assert items == [items[0]] + items[1..];
      (if |items[0]| > 0 then [items[0]] else []) + KeepNonEmpty(items[1..])
  }

  /** The filter distributes over concatenation, so the surviving entries keep their order. */
  lemma {:induction false} KeepNonEmptyAppend(a: seq<string>, b: seq<string>)
    ensures KeepNonEmpty(a + b) == KeepNonEmpty(a) + KeepNonEmpty(b)
  {
    if |a| == 0 {
      assert a + b == b;
    } else {
      var head := if |a[0]| > 0 then [a[0]] else [];
      assert KeepNonEmpty(a + b) == head + KeepNonEmpty(a[1..] + b) by {
        assert (a + b)[1..] == a[1..] + b;
      }
      assert KeepNonEmpty(a) == head + KeepNonEmpty(a[1..]);
      KeepNonEmptyAppend(a[1..], b);
    }
  }

  /** Every comma-separated piece that is not blank is read back, trimmed. */
  lemma ParseDislikedKeepsPieces(text: string, p: string)
    requires p in Split(text, ',') && |Trim(p)| > 0
    ensures Trim(p) in ParseDisliked(text)
  {
    var pieces := Split(text, ',');
    var trimmed := TrimAll(pieces);
    assert ParseDisliked(text) == KeepNonEmpty(trimmed);
    var k :| 0 <= k < |pieces| && pieces[k] == p;
    var t := trimmed[k];
    assert t == Trim(p);
    assert t in multiset(trimmed);
    assert multiset(KeepNonEmpty(trimmed))[t] == multiset(trimmed)[t];
  }

  /** The pieces a trim can produce from comma-free pieces are comma-free. */
  lemma TrimAllNoComma(items: seq<string>)
    requires forall k :: 0 <= k < |items| ==> ',' !in items[k]
    ensures forall k :: 0 <= k < |TrimAll(items)| ==> ',' !in TrimAll(items)[k]
  {
    forall k | 0 <= k < |items|
      ensures ',' !in Trim(items[k])
    {
      var t := Trim(items[k]);
      var lead := |items[k]| - |TrimStart(items[k])|;
      TrimSlice(items[k]);
      assert t == items[k][lead..lead + |t|];
      forall j | 0 <= j < |t|
        ensures t[j] != ','
      {
        assert t[j] == items[k][lead + j];
      }
    }
  }

  /** A list of clean entries (non-empty, trimmed, comma-free) typed in as a
      comma-separated line is read back as exactly that list. */
  lemma {:induction false} ParseDislikedRoundTrip(items: seq<string>)
    requires forall k :: 0 <= k < |items| ==> |items[k]| > 0 && ',' !in items[k] && IsTrimmed(items[k])
    ensures ParseDisliked(Join(items, ',')) == items
  {
    if |items| == 0 {
      assert Split("", ',') == [""];
      assert TrimAll([""]) == [Trim("")];
    } else {
      SplitJoin(items, ',');
      CleanItemsSurvive(items);
    }
  }

  lemma {:induction false} CleanItemsSurvive(items: seq<string>)
    requires forall k :: 0 <= k < |items| ==> |items[k]| > 0 && IsTrimmed(items[k])
    ensures KeepNonEmpty(TrimAll(items)) == items
  {
    if |items| > 0 {
      var t := TrimAll(items);
      CleanItemsSurvive(items[1..]);
      TrimKeepsTrimmed(items[0]);
      assert t[0] == items[0];
      assert t[1..] == TrimAll(items[1..]);
      assert KeepNonEmpty(t) == [t[0]] + KeepNonEmpty(t[1..]);
      assert items == [items[0]] + items[1..];
    }
  }

  /** Parsing the line that joins a parse result gives the same result. */
  lemma ParseDislikedIdempotent(text: string)
    ensures ParseDisliked(Join(ParseDisliked(text), ',')) == ParseDisliked(text)
  {
    ParseDislikedRoundTrip(ParseDisliked(text));
  }

  /** The "% Complete" label: `Math.round((step / 4) * 100)`. */
  function StepPercent(step: int): (p: int)
    ensures FirstStep <= step <= LastStep ==> p == 25 * step
  {
    var x := (step as real / 4.0) * 100.0;
    JsNumber.RoundUnique(x, 25 * step);
    JsNumber.Round(x)
  }

  // ---------------------------------------------------------------------------
  // The screen as an event machine
  // ---------------------------------------------------------------------------

  const HealthGoalOptions: seq<string> := [
    "Weight Loss", "Weight Gain", "Muscle Building", "Improved Energy",
    "Better Digestion", "Heart Health", "Diabetes Management", "General Wellness"]
  const DietaryPreferenceOptions: seq<string> := [
    "Vegetarian", "Vegan", "Keto", "Paleo", "Mediterranean",
    "Low Carb", "Gluten-Free", "Dairy-Free", "Intermittent Fasting"]
  const CommonAllergies: seq<string> := ["Nuts", "Shellfish", "Dairy", "Eggs", "Soy", "Gluten", "Fish", "Sesame"]
  const CookingTimeValues: seq<string> := ["15-min", "30-min", "45-min", "60-min"]
  const SkillLevelValues: seq<string> := ["beginner", "intermediate", "advanced"]

  datatype Screen = Screen(step: int, form: Form)

  const InitialScreen := Screen(FirstStep, EmptyForm)

  /** The user's actions: the option buttons, the text box, and the three navigation buttons. */
  datatype Event =
    | PickGoal(goal: string)
    | PickPreference(preference: string)
    | PickAllergy(allergy: string)
    | TypeDisliked(text: string)
    | PickCookingTime(time: string)
    | PickSkillLevel(level: string)
    | PressNext
    | PressPrevious
    | PressComplete

  /** Whether the control for `e` is on screen and not disabled: each step renders its own
      option buttons; "Previous" is disabled on step 1; step 4 shows "Complete Profile"
      instead of "Next"; "Next" is disabled while the step is invalid. */
  function Enabled(s: Screen, e: Event): (enabled: bool)
    ensures enabled && !e.PressPrevious? ==> FirstStep <= s.step <= LastStep
    ensures enabled && e.PressNext? ==> s.step < LastStep && IsStepValid(s.step, s.form)
    ensures enabled && e.PressPrevious? ==> s.step != FirstStep
  {
    match e
    case PickGoal(g) => s.step == 1 && g in HealthGoalOptions
    case PickPreference(p) => s.step == 2 && p in DietaryPreferenceOptions
    case PickAllergy(a) => s.step == 2 && a in CommonAllergies
    case TypeDisliked(_) => s.step == 2
    case PickCookingTime(t) => s.step == 3 && t in CookingTimeValues
    case PickSkillLevel(l) => s.step == 3 && l in SkillLevelValues
    case PressNext => s.step != LastStep && IsStepValid(s.step, s.form)
    case PressPrevious => s.step != FirstStep
    case PressComplete => s.step == LastStep
  }

  /** The effect of one event; a disabled control does nothing, and completing hands the
      form to the caller without changing the screen. */
  function Apply(s: Screen, e: Event): (r: Screen)
    ensures !Enabled(s, e) ==> r == s
    ensures r.step == s.step || (e.PressNext? && r.step == s.step + 1) || (e.PressPrevious? && r.step == s.step - 1)
    ensures r.step != s.step ==> r.form == s.form
    ensures e.PressNext? || e.PressPrevious? || e.PressComplete? ==> r.form == s.form
    ensures e.PressComplete? ==> r == s
  {
    if !Enabled(s, e) then s
    else match e
      case PickGoal(g) => s.(form := HandleArrayToggle(s.form, HealthGoals, g))
      case PickPreference(p) => s.(form := HandleArrayToggle(s.form, DietaryPreferences, p))
      case PickAllergy(a) => s.(form := HandleArrayToggle(s.form, Allergies, a))
      case TypeDisliked(t) => s.(form := s.form.(dislikedIngredients := ParseDisliked(t)))
      case PickCookingTime(t) => s.(form := s.form.(cookingTimeAvailability := t))
      case PickSkillLevel(l) => s.(form := s.form.(cookingSkillLevel := l))
      case PressNext => s.(step := HandleNext(s.step))
      case PressPrevious => s.(step := HandlePrev(s.step))
      case PressComplete => s
  }

  /** What holds on every reachable screen: the step is in range, every step already
      passed was valid when it was left, and the choices come from the offered options. */
  ghost predicate Reachable(s: Screen)
  {
    && FirstStep <= s.step <= LastStep
    && (s.step >= 2 ==> |s.form.healthGoals| > 0)
    && (s.step == LastStep ==> s.form.cookingTimeAvailability != "" && s.form.cookingSkillLevel != "")
    && (forall g :: g in s.form.healthGoals ==> g in HealthGoalOptions)
    && (s.form.cookingTimeAvailability == "" || s.form.cookingTimeAvailability in CookingTimeValues)
    && (s.form.cookingSkillLevel == "" || s.form.cookingSkillLevel in SkillLevelValues)
  }

  lemma InitialScreenReachable()
    ensures Reachable(InitialScreen)
  {
  }

  /** Every event keeps the screen reachable. */
  lemma ApplyKeepsReachable(s: Screen, e: Event)
    requires Reachable(s)
    ensures Reachable(Apply(s, e))
  {
    if Enabled(s, e) {
      match e
      case PickGoal(g) =>
        var r := Apply(s, e).form.healthGoals;
        forall x | x in r
          ensures x in HealthGoalOptions
        {
          if x != g {
            assert multiset(r)[x] == multiset(s.form.healthGoals)[x];
          }
        }
      case _ =>
    }
  }

  /** Any sequence of user actions, from the first event. */
  function Run(s: Screen, events: seq<Event>): Screen
    decreases |events|
  {
    if |events| == 0 then s else Run(Apply(s, events[0]), events[1..])
  }

  lemma {:induction false} RunKeepsReachable(s: Screen, events: seq<Event>)
    requires Reachable(s)
    ensures Reachable(Run(s, events))
    decreases |events|
  {
    if |events| > 0 {
      ApplyKeepsReachable(s, events[0]);
      RunKeepsReachable(Apply(s, events[0]), events[1..]);
    }
  }

  /** Whatever the user does, the form handed over by "Complete Profile" has a health goal,
      a cooking time and a skill level, all chosen among the offered options. */
  lemma CompletedFormIsValid(events: seq<Event>)
    ensures var s := Run(InitialScreen, events);
      Enabled(s, PressComplete) ==>
        && |s.form.healthGoals| > 0
        && (forall g :: g in s.form.healthGoals ==> g in HealthGoalOptions)
        && s.form.cookingTimeAvailability in CookingTimeValues
        && s.form.cookingSkillLevel in SkillLevelValues
  {
    RunKeepsReachable(InitialScreen, events);
  }
}
