/** The meal dashboard (`components/Dashboard`): the meal template picked from the
    first health goal, the day's calorie and completion figures, and the width of
    the progress bars. */
module Dashboard {
  import opened Options
  import opened Text
  import opened JsNumber

  const WeightLoss := "weight-loss"
  const MuscleBuilding := "muscle-building"

  /** The keys of `mealTemplates`. */
  const TemplateKeys: set<string> := {WeightLoss, MuscleBuilding}

  /** `profile?.healthGoals?.[0]?.toLowerCase().replace(' ', '-') || 'weight-loss'`:
      `None` stands for a missing profile or goal list. */
  function PrimaryGoal(healthGoals: Option<seq<string>>): (g: string)
    ensures g != ""
    ensures (healthGoals.None? || |healthGoals.value| == 0) ==> g == WeightLoss
  {
    if healthGoals.Some? && |healthGoals.value| > 0 then
      var key := ReplaceFirst(ToLower(healthGoals.value[0]), ' ', "-");
      if key != "" then key else WeightLoss
    else WeightLoss
  }

  /** `mealTemplates[primaryGoal] ? primaryGoal : 'weight-loss'`, with the lookup limited to
      the object's own keys. */
  function GoalKey(healthGoals: Option<seq<string>>): (key: string)
    ensures key in TemplateKeys
    ensures PrimaryGoal(healthGoals) in TemplateKeys ==> key == PrimaryGoal(healthGoals)
    ensures PrimaryGoal(healthGoals) !in TemplateKeys ==> key == WeightLoss
  {
    var goal := PrimaryGoal(healthGoals);
    if goal in TemplateKeys then goal else WeightLoss
  }

  /** Only the first goal matters: the goals after it never change the key. */
  lemma GoalKeyFromFirstGoalOnly(first: string, rest1: seq<string>, rest2: seq<string>)
    ensures GoalKey(Some([first] + rest1)) == GoalKey(Some([first] + rest2))
  {
  }

  /** The profile form's "Muscle Building", whatever goals follow it, selects the
      muscle-building meals. */
  lemma GoalKeyMuscleBuilding(goal: string, rest: seq<string>)
    requires goal == "Muscle Building"
    ensures GoalKey(Some([goal] + rest)) == MuscleBuilding
  {
    var lower := "muscle building";
    assert forall i :: 0 <= i < |goal| ==> ToLowerChar(goal[i]) == lower[i];
    assert lower[..6] + "-" + lower[7..] == MuscleBuilding;
    LowerThenHyphen(goal, lower, 6, MuscleBuilding);
  }

  /** "Weight Loss" selects the weight-loss meals, as do a missing or empty goal list. */
  lemma GoalKeyWeightLoss(goal: string, rest: seq<string>)
    requires goal == "Weight Loss"
    ensures GoalKey(Some([goal] + rest)) == WeightLoss
    ensures GoalKey(None) == WeightLoss && GoalKey(Some([])) == WeightLoss
  {
    var lower := "weight loss";
    assert forall i :: 0 <= i < |goal| ==> ToLowerChar(goal[i]) == lower[i];
    assert lower[..6] + "-" + lower[7..] == WeightLoss;
    LowerThenHyphen(goal, lower, 6, WeightLoss);
  }

  /** A first goal whose characters lower-case to `lower`, whose first space is at `i`,
      becomes `lower` with that space replaced by a hyphen. */
  lemma LowerThenHyphen(goal: string, lower: string, i: nat, key: string)
    requires |lower| == |goal| && forall j :: 0 <= j < |goal| ==> ToLowerChar(goal[j]) == lower[j]
    requires i < |lower| && lower[i] == ' ' && forall j :: 0 <= j < i ==> lower[j] != ' '
    requires key == lower[..i] + "-" + lower[i + 1..]
    ensures forall rest :: PrimaryGoal(Some([goal] + rest)) == key
  {
    assert ToLower(goal) == lower;
    assert IndexOf(lower, ' ') == i;
    assert ' ' in lower;
    assert key != "";
  }

  /** Only the first space becomes a hyphen: a goal of three words maps to no template. */
  lemma OnlyFirstSpaceReplaced(goal: string)
    requires goal == "Muscle Building Fast"
    ensures PrimaryGoal(Some([goal])) == "muscle-building fast"
    ensures GoalKey(Some([goal])) == WeightLoss
  {
    ThreeWordGoal(goal);
    assert [goal] + [] == [goal];
    var key := "muscle-building fast";
    assert |key| != |MuscleBuilding| && |key| != |WeightLoss|;
  }

  lemma ThreeWordGoal(goal: string)
    requires goal == "Muscle Building Fast"
    ensures forall rest :: PrimaryGoal(Some([goal] + rest)) == "muscle-building fast"
  {
    var lower := "muscle building fast";
    assert forall i :: 0 <= i < |goal| ==> ToLowerChar(goal[i]) == lower[i];
    assert lower[..6] + "-" + lower[7..] == "muscle-building fast";
    LowerThenHyphen(goal, lower, 6, "muscle-building fast");
  }

  // ---------------------------------------------------------------------------
  // The lookup as written
  // ---------------------------------------------------------------------------

  /** Keys an object literal inherits from `Object.prototype` that contain no upper-case
      letter, and so can be the result of `toLowerCase`. */
  const InheritedLowerCaseKeys: set<string> := {"constructor", "__proto__"}

  /** The test `mealTemplates[primaryGoal] ? ...` as written: a plain property read also
      finds inherited members, which are truthy. */
  function GoalKeyAsWritten(healthGoals: Option<seq<string>>): (key: string)
    ensures key in TemplateKeys + InheritedLowerCaseKeys
  {
    var goal := PrimaryGoal(healthGoals);
    if goal in TemplateKeys || goal in InheritedLowerCaseKeys then goal else WeightLoss
  }

  /** A first goal of "Constructor" picks the inherited `constructor` function instead of a
      template; the component then calls `.reduce` on it and throws. */
  lemma ConstructorGoalEscapesFallback(goal: string)
    requires goal == "Constructor"
    ensures GoalKeyAsWritten(Some([goal])) == "constructor"
    ensures GoalKeyAsWritten(Some([goal])) !in TemplateKeys
  {
    ConstructorLowered(goal);
  }

  lemma ConstructorLowered(goal: string)
    requires goal == "Constructor"
    ensures PrimaryGoal(Some([goal])) == "constructor"
  {
    var lower := "constructor";
    assert forall i :: 0 <= i < |goal| ==> ToLowerChar(goal[i]) == lower[i];
    LowerWithoutSpace(goal, lower);
  }

  /** A single-word first goal is just lower-cased. */
  lemma LowerWithoutSpace(goal: string, lower: string)
    requires |lower| == |goal| > 0 && forall j :: 0 <= j < |goal| ==> ToLowerChar(goal[j]) == lower[j]
    requires ' ' !in lower
    ensures PrimaryGoal(Some([goal])) == lower
  {
    assert ToLower(goal) == lower;
  }

  /** Apart from those inherited names, the lookup as written and the own-key lookup agree. */
  lemma GoalKeyAsWrittenAgrees(healthGoals: Option<seq<string>>)
    requires PrimaryGoal(healthGoals) !in InheritedLowerCaseKeys
    ensures GoalKeyAsWritten(healthGoals) == GoalKey(healthGoals)
  {
  }

  // ---------------------------------------------------------------------------
  // The day's meals and figures
  // ---------------------------------------------------------------------------

  datatype Meal = Meal(mealType: string, name: string, calories: int, completed: bool)

  /** `mealTemplates[goalKey]`; the templates carry no `completed` flag, which reads as false. */
  function Template(key: string): (meals: seq<Meal>)
    requires key in TemplateKeys
    ensures |meals| == 3
  {
    if key == MuscleBuilding then [
      Meal("Breakfast", "Protein Pancakes", 450, false),
      Meal("Lunch", "Chicken & Sweet Potato Bowl", 520, false),
      Meal("Dinner", "Lean Beef Stir-Fry", 480, false)]
    else [
      Meal("Breakfast", "Green Smoothie Bowl", 280, false),
      Meal("Lunch", "Mediterranean Quinoa Salad", 420, false),
      Meal("Dinner", "Grilled Salmon & Vegetables", 380, false)]
  }

  /** `generateMeals()`. */
  function GenerateMeals(healthGoals: Option<seq<string>>): (meals: seq<Meal>)
    ensures meals == Template(WeightLoss) || meals == Template(MuscleBuilding)
    ensures |meals| == 3 && forall i :: 0 <= i < |meals| ==> !meals[i].completed
  {
    Template(GoalKey(healthGoals))
  }

  /** `todayMeals.reduce((sum, meal) => sum + meal.calories, 0)`. */
  function TotalCalories(meals: seq<Meal>): (total: int)
    ensures (forall i :: 0 <= i < |meals| ==> meals[i].calories >= 0) ==>
      total >= 0 && forall i :: 0 <= i < |meals| ==> meals[i].calories <= total
  {
    if |meals| == 0 then 0 else meals[0].calories + TotalCalories(meals[1..])
  }

  /** Adding up a day split in two is adding up each part. */
  lemma {:induction false} TotalCaloriesAppend(a: seq<Meal>, b: seq<Meal>)
    ensures TotalCalories(a + b) == TotalCalories(a) + TotalCalories(b)
  {
    if |a| == 0 {
      assert a + b == b;
    } else {
      TotalCaloriesAppend(a[1..], b);
      assert (a + b)[1..] == a[1..] + b;
    }
  }

  /** The two days come to 1080 and 1450 kcal. */
  lemma TemplateCalories()
    ensures TotalCalories(Template(WeightLoss)) == 1080
    ensures TotalCalories(Template(MuscleBuilding)) == 1450
  {
    var w := Template(WeightLoss);
    assert TotalCalories(w[2..]) == 380 by { assert w[2..][1..] == []; }
    assert w[1..][1..] == w[2..];
    assert TotalCalories(w) == 280 + TotalCalories(w[1..]);
    var m := Template(MuscleBuilding);
    assert TotalCalories(m[2..]) == 480 by { assert m[2..][1..] == []; }
    assert m[1..][1..] == m[2..];
    assert TotalCalories(m) == 450 + TotalCalories(m[1..]);
  }

  /** `todayMeals.filter(meal => meal.completed).length`. */
  function CompletedMeals(meals: seq<Meal>): (n: nat)
    ensures n <= |meals|
    ensures n == 0 <==> forall i :: 0 <= i < |meals| ==> !meals[i].completed
    ensures n == |meals| <==> forall i :: 0 <= i < |meals| ==> meals[i].completed
  {
    if |meals| == 0 then 0
    else
      assert forall i :: 1 <= i < |meals| ==> meals[i] == meals[1..][i - 1];
      (if meals[0].completed then 1 else 0) + CompletedMeals(meals[1..])
  }

  /** A single meal counts once exactly when it is completed. */
  lemma CompletedMealsSingleton(m: Meal)
    ensures CompletedMeals([m]) == if m.completed then 1 else 0
  {
    assert [m][1..] == [];
  }

  /** Counting a day split in two is adding the parts' counts: with
      `CompletedMealsSingleton` this fixes the count on every list. */
  lemma {:induction false} CompletedMealsAppend(a: seq<Meal>, b: seq<Meal>)
    ensures CompletedMeals(a + b) == CompletedMeals(a) + CompletedMeals(b)
  {
    if |a| == 0 {
      assert a + b == b;
    } else {
      CompletedMealsAppend(a[1..], b);
      assert (a + b)[1..] == a[1..] + b;
    }
  }

  /** A freshly generated day has nothing completed. */
  lemma GeneratedMealsNotCompleted(healthGoals: Option<seq<string>>)
    ensures CompletedMeals(GenerateMeals(healthGoals)) == 0
  {
  }

  /** The "Progress" figure: `Math.round((completedMeals / 3) * 100)`. */
  function ProgressStat(completed: int): (p: int)
    ensures 0 <= completed <= 3 ==> 0 <= p <= 100
    ensures completed == 0 ==> p == 0
    ensures completed == 3 ==> p == 100
  {
    var x := (completed as real / 3.0) * 100.0;
    if completed == 0 then RoundUnique(x, 0); Round(x)
    else if completed == 3 then RoundUnique(x, 100); Round(x)
    else Round(x)
  }

  /** One and two meals out of three show 33% and 67%. */
  lemma ProgressStatThirds()
    ensures ProgressStat(1) == 33 && ProgressStat(2) == 67
  {
    RoundUnique((1 as real / 3.0) * 100.0, 33);
    RoundUnique((2 as real / 3.0) * 100.0, 67);
  }

  /** The bar width in percent, `Math.min((value / target) * 100, 100)`, for the cards'
      positive targets (1200 kcal, 3 meals, 100%). */
  function BarWidth(value: real, target: real): (w: real)
    requires target > 0.0
    ensures w <= 100.0
    ensures w == 100.0 <==> value >= target
    ensures value < target ==> w * target == value * 100.0
    ensures value >= 0.0 ==> w >= 0.0
  {
    var x := (value / target) * 100.0;
    if x < 100.0 then x else 100.0
  }
}
