/**
 * The meal-plan service (services/meal-generator.ts): the step that scales
 * a generated plan's meals towards the day's targets, and the
 * single-meal regeneration entry point, which is switched off.
 */
module MealGenerator {
  import opened Wrappers
  import opened JsBuiltins
  import opened NutritionTypes

  /** The factor that takes a current total to its target; totals below 1 are treated as 1. */
  function ScaleFactor(target: real, current: real): real {
    target / Max(current, 1.0)
  }

  /** One scale factor per nutrition field, computed from the current totals. */
  function Scales(current: Nutrition, targets: Nutrition): (s: Nutrition)
    ensures forall f :: s.Get(f) == ScaleFactor(targets.Get(f), current.Get(f))
  {
    Nutrition(
      ScaleFactor(targets.calories, current.calories),
      ScaleFactor(targets.protein, current.protein),
      ScaleFactor(targets.carbs, current.carbs),
      ScaleFactor(targets.fat, current.fat),
      ScaleFactor(targets.fiber, current.fiber))
  }

  /** A field's value after scaling: the value times its factor, rounded as `Math.round` does. */
  function ScaledValue(value: real, factor: real): real {
    Round(value * factor) as real
  }

  /**
   * The meal with every nutrition field scaled and rounded (a missing value
   * reads as 0); a meal without nutrition gets a record. Nothing else about
   * the meal changes.
   */
  function AdjustMeal(m: Meal, scales: Nutrition): (r: Meal)
    ensures r.nutrition.Some?
    ensures forall f :: r.Value(f) == ScaledValue(m.Value(f), scales.Get(f))
    ensures r == m.(nutrition := r.nutrition)
  {
    m.(nutrition := Some(Nutrition(
      ScaledValue(m.Value(Calories), scales.calories),
      ScaledValue(m.Value(Protein), scales.protein),
      ScaledValue(m.Value(Carbs), scales.carbs),
      ScaledValue(m.Value(Fat), scales.fat),
      ScaledValue(m.Value(Fiber), scales.fiber))))
  }

  /** Every meal adjusted with the same factors, in order. */
  function AdjustMeals(meals: seq<Meal>, scales: Nutrition): (r: seq<Meal>)
    ensures |r| == |meals|
  {
    if |meals| == 0 then []
    else AdjustMeals(meals[..|meals| - 1], scales) + [AdjustMeal(meals[|meals| - 1], scales)]
  }

  /** The i-th adjusted meal is the i-th meal adjusted. */
  lemma {:induction false} AdjustMealsAt(meals: seq<Meal>, scales: Nutrition, i: int)
    requires 0 <= i < |meals|
    ensures AdjustMeals(meals, scales)[i] == AdjustMeal(meals[i], scales)
  {
    var n := |meals| - 1;
    if i < n {
      AdjustMealsAt(meals[..n], scales, i);
    }
  }

  /** The factors `adjustMealPlanMacros` takes from a plan's current totals. */
  function PlanScales(plan: DailyMealPlan, targets: Nutrition): Nutrition {
    Scales(Totals(plan.meals), targets)
  }

  /**
   * `adjustMealPlanMacros`: an empty plan is returned as it is; otherwise
   * each meal is adjusted with the plan's factors, and the plan's totals are
   * recomputed from the adjusted meals. The input plan is not changed.
   */
  function AdjustMealPlanMacros(plan: DailyMealPlan, targets: Nutrition): (r: DailyMealPlan)
    ensures |plan.meals| == 0 ==> r == plan
    ensures r.id == plan.id && r.date == plan.date && |r.meals| == |plan.meals|
    ensures |plan.meals| > 0 ==> r.totalNutrition == Totals(r.meals)
  {
    if |plan.meals| == 0 then plan
    else
      var adjusted := AdjustMeals(plan.meals, PlanScales(plan, targets));
      plan.(meals := adjusted, totalNutrition := Totals(adjusted))
  }

  /** The i-th meal of the adjusted plan is the i-th meal adjusted with the plan's factors. */
  lemma PlanMealIsAdjusted(plan: DailyMealPlan, targets: Nutrition, i: int)
    requires 0 <= i < |plan.meals|
    ensures AdjustMealPlanMacros(plan, targets).meals[i] == AdjustMeal(plan.meals[i], PlanScales(plan, targets))
  {
    AdjustMealsAt(plan.meals, PlanScales(plan, targets), i);
  }

  /**
   * Every adjusted meal keeps its position and every field other than its
   * nutrition, and now carries a nutrition record.
   */
  lemma AdjustedMealKeepsOtherFields(plan: DailyMealPlan, targets: Nutrition, i: int)
    requires 0 <= i < |plan.meals|
    ensures var m := AdjustMealPlanMacros(plan, targets).meals[i];
      m.nutrition.Some? && m == plan.meals[i].(nutrition := m.nutrition)
  {
    PlanMealIsAdjusted(plan, targets, i);
  }

  // The lemmas below keep each step small: an adjusted meal unfolds into five
  // rounded products, and with several of them in view the solver loses its way.

  /** The i-th adjusted meal's field is its rounded scaled value. */
  lemma AdjustedMealsValue(meals: seq<Meal>, scales: Nutrition, f: Field, i: int)
    requires 0 <= i < |meals|
    ensures AdjustMeals(meals, scales)[i].Value(f) == ScaledValue(meals[i].Value(f), scales.Get(f))
  {
    AdjustMealsAt(meals, scales, i);
  }

  /** Each factor is its own field's target over that field's current total. */
  lemma ScalesAt(current: Nutrition, targets: Nutrition, f: Field)
    ensures Scales(current, targets).Get(f) == ScaleFactor(targets.Get(f), current.Get(f))
  {
  }

  /** A plan's factor for a field uses the sum of that field over the plan's meals. */
  lemma PlanFactorAt(plan: DailyMealPlan, targets: Nutrition, f: Field)
    ensures PlanScales(plan, targets).Get(f) == ScaleFactor(targets.Get(f), SumField(plan.meals, f))
  {
    ScalesAt(Totals(plan.meals), targets, f);
  }

  /**
   * Each adjusted field is the meal's value (0 when missing) times
   * target / max(current total of that field, 1), rounded; each field uses
   * its own factor.
   */
  lemma AdjustedFieldIsScaled(plan: DailyMealPlan, targets: Nutrition, i: int, f: Field)
    requires 0 <= i < |plan.meals|
    ensures AdjustMealPlanMacros(plan, targets).meals[i].Value(f)
      == ScaledValue(plan.meals[i].Value(f), ScaleFactor(targets.Get(f), SumField(plan.meals, f)))
  {
    AdjustedMealsValue(plan.meals, PlanScales(plan, targets), f, i);
    PlanFactorAt(plan, targets, f);
  }

  // The rounding-error bound is proved in two separate inductions, so that no
  // single step has to relate rounded values and products at the same time.

  /** The sum over the meals of each value times the field's factor, before rounding. */
  function ExactScaledSum(meals: seq<Meal>, scales: Nutrition, f: Field): real {
    if |meals| == 0 then 0.0
    else ExactScaledSum(meals[..|meals| - 1], scales, f) + meals[|meals| - 1].Value(f) * scales.Get(f)
  }

  /** Scaling each value and then summing is scaling the sum. */
  lemma {:induction false} ExactScaledSumFactors(meals: seq<Meal>, scales: Nutrition, f: Field)
    ensures ExactScaledSum(meals, scales, f) == scales.Get(f) * SumField(meals, f)
  {
    if |meals| > 0 {
      ExactScaledSumFactors(meals[..|meals| - 1], scales, f);
    }
  }

  /** One step of the exact scaled sum. */
  lemma ExactScaledSumStep(meals: seq<Meal>, scales: Nutrition, f: Field)
    requires |meals| > 0
    ensures ExactScaledSum(meals, scales, f)
      == ExactScaledSum(meals[..|meals| - 1], scales, f) + meals[|meals| - 1].Value(f) * scales.Get(f)
  {
  }

  /** One step of the adjusted meals' sum: the last meal contributes its rounded scaled value. */
  lemma AdjustedSumStep(meals: seq<Meal>, scales: Nutrition, f: Field)
    requires |meals| > 0
    ensures SumField(AdjustMeals(meals, scales), f)
      == SumField(AdjustMeals(meals[..|meals| - 1], scales), f) + ScaledValue(meals[|meals| - 1].Value(f), scales.Get(f))
  {
    SumFieldAppend(AdjustMeals(meals[..|meals| - 1], scales), AdjustMeal(meals[|meals| - 1], scales), f);
  }

  /**
   * The adjusted meals' total for a field is within n/2 of the exact scaled
   * sum: each of the n roundings moves its value by at most one half.
   */
  lemma {:induction false} AdjustedSumNearExact(meals: seq<Meal>, scales: Nutrition, f: Field)
    ensures -(|meals| as real / 2.0) <= SumField(AdjustMeals(meals, scales), f) - ExactScaledSum(meals, scales, f)
      <= |meals| as real / 2.0
  {
    if |meals| > 0 {
      AdjustedSumNearExact(meals[..|meals| - 1], scales, f);
      AdjustedSumStep(meals, scales, f);
      ExactScaledSumStep(meals, scales, f);
      ScaledValueWithinHalf(meals[|meals| - 1].Value(f), scales.Get(f));
    }
  }

  /** Rounding moves a scaled value by at most one half from the exact product. */
  lemma ScaledValueWithinHalf(value: real, factor: real)
    ensures -0.5 <= ScaledValue(value, factor) - value * factor <= 0.5
  {
  }

  /** The same bound, measured from the factor times the original total. */
  lemma AdjustedSumNearScaledTotal(meals: seq<Meal>, scales: Nutrition, f: Field)
    ensures -(|meals| as real / 2.0) <= SumField(AdjustMeals(meals, scales), f) - scales.Get(f) * SumField(meals, f)
      <= |meals| as real / 2.0
  {
    AdjustedSumNearExact(meals, scales, f);
    ExactScaledSumFactors(meals, scales, f);
  }

  /** With a current total of at least 1, the factor takes that total exactly to the target. */
  lemma FactorReachesTarget(s: real, target: real, current: real)
    requires current >= 1.0 && s == ScaleFactor(target, current)
    ensures s * current == target
  {
    assert Max(current, 1.0) == current;
  }

  /** The adjusted plan's recorded total for a field is the sum over its adjusted meals. */
  lemma PlanTotalIsAdjustedSum(plan: DailyMealPlan, targets: Nutrition, f: Field)
    requires |plan.meals| > 0
    ensures AdjustMealPlanMacros(plan, targets).totalNutrition.Get(f)
      == SumField(AdjustMeals(plan.meals, PlanScales(plan, targets)), f)
  {
  }

  /**
   * With a field's factor computed from a total of at least 1, the adjusted
   * sum for that field is within n/2 of the target.
   */
  lemma AdjustedSumNearTarget(meals: seq<Meal>, scales: Nutrition, target: real, f: Field)
    requires SumField(meals, f) >= 1.0 && scales.Get(f) == ScaleFactor(target, SumField(meals, f))
    ensures -(|meals| as real / 2.0) <= SumField(AdjustMeals(meals, scales), f) - target
      <= |meals| as real / 2.0
  {
    ExactScaledSumReachesTarget(meals, scales, target, f);
    AdjustedSumNearExact(meals, scales, f);
  }

  /** With a field's factor computed from a total of at least 1, the exact scaled sum is the target. */
  lemma ExactScaledSumReachesTarget(meals: seq<Meal>, scales: Nutrition, target: real, f: Field)
    requires SumField(meals, f) >= 1.0 && scales.Get(f) == ScaleFactor(target, SumField(meals, f))
    ensures ExactScaledSum(meals, scales, f) == target
  {
    ExactScaledSumFactors(meals, scales, f);
    FactorReachesTarget(scales.Get(f), target, SumField(meals, f));
  }

  /**
   * For a field whose current total is at least 1, the adjusted plan's total
   * for that field is within half the meal count of the target, not exactly
   * on it.
   */
  lemma AdjustedTotalNearTarget(plan: DailyMealPlan, targets: Nutrition, f: Field)
    requires |plan.meals| > 0 && SumField(plan.meals, f) >= 1.0
    ensures Abs(AdjustMealPlanMacros(plan, targets).totalNutrition.Get(f) - targets.Get(f))
      <= |plan.meals| as real / 2.0
  {
    PlanFactorAt(plan, targets, f);
    AdjustedSumNearTarget(plan.meals, PlanScales(plan, targets), targets.Get(f), f);
    PlanTotalIsAdjustedSum(plan, targets, f);
  }

  /** Zero scales to zero, whatever the factor. */
  lemma ScaledZero(factor: real)
    ensures ScaledValue(0.0, factor) == 0.0
  {
    assert 0.0 * factor == 0.0;
    assert Round(0.0) == 0;
  }

  /** A field that is zero or missing in every meal stays zero in every adjusted meal. */
  lemma ZeroFieldStaysZero(plan: DailyMealPlan, targets: Nutrition, f: Field)
    requires forall i :: 0 <= i < |plan.meals| ==> plan.meals[i].Value(f) == 0.0
    ensures var r := AdjustMealPlanMacros(plan, targets);
      forall i :: 0 <= i < |r.meals| ==> r.meals[i].Value(f) == 0.0
  {
    if |plan.meals| > 0 {
      var r := AdjustMealPlanMacros(plan, targets);
      forall i | 0 <= i < |plan.meals|
        ensures r.meals[i].Value(f) == 0.0
      {
        AdjustedMealsValue(plan.meals, PlanScales(plan, targets), f, i);
        ScaledZero(PlanScales(plan, targets).Get(f));
      }
    }
  }

  /** Every meal carries a nutrition record whose figures are whole numbers. */
  predicate HasWholeFigures(meals: seq<Meal>) {
    forall i :: 0 <= i < |meals| ==>
      meals[i].nutrition.Some? && forall f :: IsWhole(meals[i].Value(f))
  }

  /** A whole number scaled by 1 is itself. */
  lemma ScaledWholeByOne(value: real)
    requires IsWhole(value)
    ensures ScaledValue(value, 1.0) == value
  {
    assert value * 1.0 == value;
    RoundOfWhole(value);
  }

  /** Scaling whole-number figures by factors of 1 gives the same meal back. */
  lemma AdjustMealByOne(m: Meal, scales: Nutrition)
    requires m.nutrition.Some? && forall f :: IsWhole(m.Value(f))
    requires forall f :: scales.Get(f) == 1.0
    ensures AdjustMeal(m, scales) == m
  {
    var r := AdjustMeal(m, scales);
    forall f
      ensures r.Value(f) == m.Value(f)
    {
      ScaledWholeByOne(m.Value(f));
    }
    var n, n' := r.nutrition.value, m.nutrition.value;
    assert n.Get(Calories) == n'.Get(Calories) && n.Get(Protein) == n'.Get(Protein);
    assert n.Get(Carbs) == n'.Get(Carbs) && n.Get(Fat) == n'.Get(Fat) && n.Get(Fiber) == n'.Get(Fiber);
  }

  /** A total that already equals its target (at least 1) gets the factor 1. */
  lemma FactorOfMatchingTotal(s: real, target: real)
    requires target >= 1.0 && s == ScaleFactor(target, target)
    ensures s == 1.0
  {
    assert Max(target, 1.0) == target;
  }

  /**
   * A plan whose whole-number figures already add up to the targets (each
   * total at least 1) is a fixed point: its meals come back unchanged and its
   * totals are the targets.
   */
  lemma MatchingPlanIsFixedPoint(plan: DailyMealPlan, targets: Nutrition)
    requires |plan.meals| > 0 && HasWholeFigures(plan.meals)
    requires forall f :: SumField(plan.meals, f) == targets.Get(f) >= 1.0
    ensures AdjustMealPlanMacros(plan, targets).meals == plan.meals
    ensures AdjustMealPlanMacros(plan, targets).totalNutrition == targets
  {
    var scales := PlanScales(plan, targets);
    forall f
      ensures scales.Get(f) == 1.0
    {
      FactorOfMatchingTotal(scales.Get(f), targets.Get(f));
    }
    var adjusted := AdjustMeals(plan.meals, scales);
    forall i | 0 <= i < |plan.meals|
      ensures adjusted[i] == plan.meals[i]
    {
      AdjustMealsAt(plan.meals, scales, i);
      AdjustMealByOne(plan.meals[i], scales);
    }
    assert adjusted == plan.meals;
    var t := Totals(plan.meals);
    assert t.Get(Calories) == targets.Get(Calories) && t.Get(Protein) == targets.Get(Protein);
    assert t.Get(Carbs) == targets.Get(Carbs) && t.Get(Fat) == targets.Get(Fat) && t.Get(Fiber) == targets.Get(Fiber);
  }

  datatype RegenerationError = FeatureUnavailable(message: string)

  /** `regenerateMeal`: the feature is disabled and every call fails. */
  function RegenerateMeal(meal: Meal, targets: Nutrition, profile: UserProfile): (r: Result<Meal, RegenerationError>)
    ensures r.Failure?
  {
    Failure(FeatureUnavailable("هذه الميزة غير متاحة حالياً"))
  }
}
