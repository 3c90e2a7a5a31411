/** The five-step onboarding wizard (`pages/Onboarding`): its form, the
    multi-select toggle, the single-choice setters, the step counter, the
    progress percentage, and the user record built when the last step is left. */
module Onboarding {
  import opened Lists
  import opened JsObject
  import UserContext
  import JsNumber
  import opened Options

  datatype Form = Form(
    email: string,
    name: string,
    healthGoals: seq<string>,
    dietaryPreferences: seq<string>,
    allergies: seq<string>,
    dislikedIngredients: string,
    cookingTime: string,
    skillLevel: string,
    subscriptionTier: string)

  /** The initial form; the premium plan is preselected. */
  const InitialForm := Form("", "", [], [], [], "", "", "", "premium")

  /** The titles of the five steps, indexed by `currentStep`. */
  const StepTitles: seq<string> :=
    ["Basic Information", "Health Goals", "Dietary Preferences", "Cooking Preferences", "Choose Your Plan"]

  const LastStep := |StepTitles| - 1

  /** The array-valued fields `handleMultiSelect` is called with. */
  datatype MultiField = HealthGoals | DietaryPreferences | Allergies

  function Selected(f: Form, field: MultiField): seq<string>
  {
    match field
    case HealthGoals => f.healthGoals
    case DietaryPreferences => f.dietaryPreferences
    case Allergies => f.allergies
  }

  /** `handleMultiSelect(field, value)`: flips the value's membership in the named list
      and leaves every other field as it was. */
  function HandleMultiSelect(f: Form, field: MultiField, value: string): (r: Form)
    ensures value in Selected(r, field) <==> value !in Selected(f, field)
    ensures forall x :: x != value ==> multiset(Selected(r, field))[x] == multiset(Selected(f, field))[x]
    ensures forall other :: other != field ==> Selected(r, other) == Selected(f, other)
    ensures r.email == f.email && r.name == f.name && r.dislikedIngredients == f.dislikedIngredients
    ensures r.cookingTime == f.cookingTime && r.skillLevel == f.skillLevel && r.subscriptionTier == f.subscriptionTier
  {
    var xs := Toggle(Selected(f, field), value);
    match field
    case HealthGoals => f.(healthGoals := xs)
    case DietaryPreferences => f.(dietaryPreferences := xs)
    case Allergies => f.(allergies := xs)
  }

  /** Selecting a value that was not selected and then selecting it again undoes it. */
  lemma HandleMultiSelectTwice(f: Form, field: MultiField, value: string)
    requires value !in Selected(f, field)
    ensures HandleMultiSelect(HandleMultiSelect(f, field, value), field, value) == f
  {
    ToggleTwiceRestores(Selected(f, field), value);
  }

  /** The single-choice buttons: each click overwrites its field. */
  datatype Choice = CookingTime | SkillLevel | SubscriptionTier

  function Chosen(f: Form, c: Choice): string
  {
    match c
    case CookingTime => f.cookingTime
    case SkillLevel => f.skillLevel
    case SubscriptionTier => f.subscriptionTier
  }

  /** `setFormData(prev => ({ ...prev, [choice]: value }))`. */
  function Choose(f: Form, c: Choice, value: string): (r: Form)
    ensures Chosen(r, c) == value
    ensures forall other :: other != c ==> Chosen(r, other) == Chosen(f, other)
    ensures r.healthGoals == f.healthGoals && r.dietaryPreferences == f.dietaryPreferences && r.allergies == f.allergies
    ensures r.email == f.email && r.name == f.name && r.dislikedIngredients == f.dislikedIngredients
  {
    match c
    case CookingTime => f.(cookingTime := value)
    case SkillLevel => f.(skillLevel := value)
    case SubscriptionTier => f.(subscriptionTier := value)
  }

  /** Choices are overwritten, not accumulated: only the last click counts. */
  lemma ChooseLastWins(f: Form, c: Choice, first: string, second: string)
    ensures Choose(Choose(f, c, first), c, second) == Choose(f, c, second)
  {
  }

  /** The record `handleNext` builds when the last step is left:
      `{ id: '1', ...formData, subscriptionExpiresAt, progress }`. */
  function NewUser(f: Form, now: int): (u: Object)
    ensures u.Keys == {"id"} + FormKeys + StampedKeys
  {
    Merge(Merge(map["id" := Str("1")], FormFields(f)), Stamped(now))
  }

  /** No key of the record is written twice: each field has the value its source gives it. */
  lemma NewUserFields(f: Form, now: int)
    ensures Get(NewUser(f, now), "id") == Str("1")
    ensures forall k :: k in FormKeys ==> Get(NewUser(f, now), k) == FormField(f, k)
    ensures forall k :: k in StampedKeys ==> Get(NewUser(f, now), k) == Stamped(now)[k]
  {
    KeysApart();
  }

  /** The keys of `formData`. */
  const FormKeys: set<string> := {"email", "name", "healthGoals", "dietaryPreferences", "allergies",
    "dislikedIngredients", "cookingTime", "skillLevel", "subscriptionTier"}

  /** The keys added after the form's. */
  const StampedKeys: set<string> := {"subscriptionExpiresAt", "progress"}

  /** The id, the form's keys and the added keys are three disjoint sets. */
  lemma KeysApart()
    ensures "id" !in FormKeys && "id" !in StampedKeys && FormKeys !! StampedKeys
  {
  }

  /** The fields added after the form's: the expiry 30 days from `now`, and a
      starting progress of 70 kg, a 65 kg target and no weekly entries. */
  function Stamped(now: int): (m: Object)
    ensures m.Keys == StampedKeys
  {
    map[
      "subscriptionExpiresAt" := Date(now + ThirtyDaysMs),
      "progress" := StartingProgress]
  }

  /** 70 kg now, a 65 kg target, and no weekly entries. */
  const StartingProgress := Obj(map["currentWeight" := Num(70.0), "targetWeight" := Num(65.0), "weeklyProgress" := Arr([])])

  /** The new user's `progress` is the starting one. */
  lemma NewUserProgress(f: Form, now: int)
    ensures Get(NewUser(f, now), "progress") == StartingProgress
  {
    NewUserFields(f, now);
    assert "progress" in StampedKeys;
  }

  function StrArr(xs: seq<string>): Value
  {
    Arr(seq(|xs|, i requires 0 <= i < |xs| => Str(xs[i])))
  }

  /** One field of `formData` as a JavaScript value. */
  function FormField(f: Form, key: string): Value
  {
    if key == "email" then Str(f.email)
    else if key == "name" then Str(f.name)
    else if key == "healthGoals" then StrArr(f.healthGoals)
    else if key == "dietaryPreferences" then StrArr(f.dietaryPreferences)
    else if key == "allergies" then StrArr(f.allergies)
    else if key == "dislikedIngredients" then Str(f.dislikedIngredients)
    else if key == "cookingTime" then Str(f.cookingTime)
    else if key == "skillLevel" then Str(f.skillLevel)
    else if key == "subscriptionTier" then Str(f.subscriptionTier)
    else Undefined
  }

  /** `formData` as a JavaScript object. */
  function FormFields(f: Form): (m: Object)
    ensures m.Keys == FormKeys
  {
    map k | k in FormKeys :: FormField(f, k)
  }

  /** The completed record field by field: the form's answers, id '1', the expiry, and a
      progress of 70 kg now, 65 kg target and no weekly entries. */
  lemma NewUserRecord(f: Form, now: int)
    ensures var u := NewUser(f, now);
      && Get(u, "id") == Str("1")
      && Get(u, "email") == Str(f.email) && Get(u, "name") == Str(f.name)
      && Get(u, "healthGoals") == StrArr(f.healthGoals)
      && Get(u, "cookingTime") == Str(f.cookingTime) && Get(u, "skillLevel") == Str(f.skillLevel)
      && Get(u, "subscriptionTier") == Str(f.subscriptionTier)
      && Get(u, "subscriptionExpiresAt") == Date(now + ThirtyDaysMs)
      && Get(u, "progress") == StartingProgress
  {
    NewUserFields(f, now);
    NewUserProgress(f, now);
    FormFieldValues(f);
    assert "email" in FormKeys && "name" in FormKeys && "healthGoals" in FormKeys;
    assert "cookingTime" in FormKeys && "skillLevel" in FormKeys && "subscriptionTier" in FormKeys;
    assert "subscriptionExpiresAt" in StampedKeys;
  }

  lemma FormFieldValues(f: Form)
    ensures FormField(f, "email") == Str(f.email) && FormField(f, "name") == Str(f.name)
    ensures FormField(f, "healthGoals") == StrArr(f.healthGoals)
    ensures FormField(f, "cookingTime") == Str(f.cookingTime) && FormField(f, "skillLevel") == Str(f.skillLevel)
    ensures FormField(f, "subscriptionTier") == Str(f.subscriptionTier)
  {
  }

  /** A freshly onboarded user starts with an empty, loggable progress history. */
  lemma NewUserCanLog(f: Form, now: int)
    ensures UserContext.CanLog(Some(NewUser(f, now)))
    ensures UserContext.WeeklyProgress(NewUser(f, now)) == []
  {
    NewUserProgress(f, now);
    assert Get(StartingProgress.fields, "weeklyProgress") == Arr([]);
  }

  /** What pressing "Continue" or "Complete Setup" does. */
  datatype NextOutcome = Advanced(step: int) | Completed(user: Object)

  /** `handleNext`: not gated by the form's content; every step but the last advances
      by one, and the last one builds the user. */
  function HandleNext(step: int, f: Form, now: int): (r: NextOutcome)
    ensures step < LastStep ==> r == Advanced(step + 1)
    ensures step >= LastStep ==> r.Completed? && r.user == NewUser(f, now)
  {
    if step < LastStep then Advanced(step + 1) else Completed(NewUser(f, now))
  }

  /** `handleBack`: moves back only while above the first step. */
  function HandleBack(step: int): (r: int)
    ensures 0 <= step <= LastStep ==> 0 <= r <= LastStep
    ensures step > 0 ==> r == step - 1
    ensures step <= 0 ==> r == step
  {
    if step > 0 then step - 1 else step
  }

  /** Starting on step 0, every step index reached stays within the step list. */
  lemma HandleNextStaysInRange(step: int, f: Form, now: int)
    requires 0 <= step <= LastStep
    ensures var r := HandleNext(step, f, now); r.Advanced? ==> 0 <= r.step <= LastStep
  {
  }

  /** The title shown for the current step. */
  function StepTitle(step: int): (t: string)
    requires 0 <= step <= LastStep
    ensures t in StepTitles
  {
    StepTitles[step]
  }

  /** Pressing the forward button five times from the first step completes onboarding,
      whatever was (or was not) filled in. */
  lemma FivePressesComplete(f: Form, now: int)
    ensures HandleNext(0, f, now) == Advanced(1)
    ensures HandleNext(1, f, now) == Advanced(2)
    ensures HandleNext(2, f, now) == Advanced(3)
    ensures HandleNext(3, f, now) == Advanced(4)
    ensures HandleNext(4, f, now) == Completed(NewUser(f, now))
  {
  }

  /** The "% Complete" label: `Math.round(((currentStep + 1) / 5) * 100)`. */
  function StepPercent(step: int): (p: int)
    ensures 0 <= step <= LastStep ==> p == 20 * (step + 1)
  {
    var x := ((step + 1) as real / |StepTitles| as real) * 100.0;
    JsNumber.RoundUnique(x, 20 * (step + 1));
    JsNumber.Round(x)
  }
}
