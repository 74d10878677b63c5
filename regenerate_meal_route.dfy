/**
 * The single-meal regeneration endpoint
 * (backend/trpc/routes/meals/regenerate-meal/route.ts): the Arabic label of
 * each meal type, and the meal the endpoint rebuilds from the model's
 * untrusted answer, filling every gap with a fixed fallback. The model call
 * and its timeout are outside the model: the answer and the clock reading
 * are inputs.
 */
module RegenerateMealRoute {
  import opened Wrappers
  import opened JsBuiltins
  import opened NutritionTypes
  import GeneratePlanRoute

  /** The wire name of a meal type, as it appears in ids. */
  function MealTypeKey(t: MealType): string {
    match t
    case Breakfast => "breakfast"
    case Lunch => "lunch"
    case Dinner => "dinner"
    case Snack => "snack"
  }

  /** The Arabic label of a meal type; every type has one, and none is empty. */
  function MealTypeArabic(t: MealType): (name: string)
    ensures name != []
  {
    match t
    case Breakfast => "إفطار"
    case Lunch => "غداء"
    case Dinner => "عشاء"
    case Snack => "وجبة خفيفة"
  }

  /** Different meal types have different labels. */
  lemma MealTypeArabicDistinct(t: MealType, u: MealType)
    requires t != u
    ensures MealTypeArabic(t) != MealTypeArabic(u)
  {
  }

  /**
   * The model's answer as the endpoint reads it. A field is None when it is
   * missing; `ingredients` and `instructions` are None also when they are
   * not arrays.
   */
  datatype GeneratedMeal = GeneratedMeal(
    name: Option<string>,
    ingredients: Option<seq<string>>,
    instructions: Option<seq<string>>,
    nutrition: Option<Nutrition>,
    prepTime: Option<real>,
    servings: Option<real>)

  /** `value || fallback` for a string: a missing or empty string falls back. */
  function OrText(value: Option<string>, fallback: string): string {
    if value.Some? && value.value != [] then value.value else fallback
  }

  /** `value || fallback` for a number: a missing value or 0 falls back. */
  function OrNumber(value: Option<real>, fallback: real): real {
    if value.Some? && value.value != 0.0 then value.value else fallback
  }

  /** `Array.isArray(value) ? value : []`. */
  function OrEmpty(value: Option<seq<string>>): seq<string> {
    if value.Some? then value.value else []
  }

  /** The id of a regenerated meal: `${type}-${timestamp}`. */
  function RegeneratedId(t: MealType, stamp: nat): string {
    MealTypeKey(t) + "-" + NatToString(stamp)
  }

  /**
   * The meal the endpoint returns: the requested type, an id from the type
   * and the clock, and the answer's fields where they are usable. A missing
   * or empty name becomes the type's Arabic label, a missing list becomes
   * empty, missing nutrition becomes all zeros, and a missing or zero
   * preparation time or serving count becomes 30 minutes or one serving.
   */
  function RegeneratedMeal(mealType: MealType, answer: GeneratedMeal, stamp: nat): (m: Meal)
    ensures m.mealType == mealType && m.id == RegeneratedId(mealType, stamp)
    ensures m.name != []
    ensures answer.name.Some? && answer.name.value != [] ==> m.name == answer.name.value
    ensures answer.name.None? || answer.name.value == [] ==> m.name == MealTypeArabic(mealType)
    ensures answer.ingredients.Some? ==> m.ingredients == answer.ingredients.value
    ensures answer.ingredients.None? ==> m.ingredients == []
    ensures answer.instructions.Some? ==> m.instructions == answer.instructions.value
    ensures answer.instructions.None? ==> m.instructions == []
    ensures m.nutrition == Some(if answer.nutrition.Some? then answer.nutrition.value else ZeroNutrition)
    ensures m.prepTime != 0.0 && m.servings != 0.0
    ensures answer.prepTime.Some? && answer.prepTime.value != 0.0 ==> m.prepTime == answer.prepTime.value
    ensures answer.prepTime.None? || answer.prepTime.value == 0.0 ==> m.prepTime == 30.0
    ensures answer.servings.Some? && answer.servings.value != 0.0 ==> m.servings == answer.servings.value
    ensures answer.servings.None? || answer.servings.value == 0.0 ==> m.servings == 1.0
  {
    Meal(
      RegeneratedId(mealType, stamp),
      OrText(answer.name, MealTypeArabic(mealType)),
      mealType,
      OrEmpty(answer.ingredients),
      OrEmpty(answer.instructions),
      Some(if answer.nutrition.Some? then answer.nutrition.value else ZeroNutrition),
      OrNumber(answer.prepTime, 30.0),
      OrNumber(answer.servings, 1.0))
  }

  /** A meal read back as a complete answer. */
  function AsAnswer(m: Meal): GeneratedMeal {
    GeneratedMeal(Some(m.name), Some(m.ingredients), Some(m.instructions), m.nutrition,
                  Some(m.prepTime), Some(m.servings))
  }

  /**
   * The fallbacks leave nothing to fill: feeding a regenerated meal back
   * through the endpoint with the same type and clock reading returns it
   * unchanged.
   */
  lemma RegenerationIsStable(mealType: MealType, answer: GeneratedMeal, stamp: nat)
    ensures var m := RegeneratedMeal(mealType, answer, stamp);
            RegeneratedMeal(mealType, AsAnswer(m), stamp) == m
  {
  }

  /** Every nutrition figure of a regenerated meal is the answer's, or 0 when the answer has none. */
  lemma RegeneratedNutritionValues(mealType: MealType, answer: GeneratedMeal, stamp: nat, f: Field)
    ensures RegeneratedMeal(mealType, answer, stamp).Value(f)
            == (if answer.nutrition.Some? then answer.nutrition.value.Get(f) else 0.0)
  {
  }

  /** Meal-type keys contain no dash. */
  lemma KeyHasNoDash(t: MealType)
    ensures forall k :: 0 <= k < |MealTypeKey(t)| ==> MealTypeKey(t)[k] != '-'
  {
  }

  /** Two regenerations share an id only for the same meal type and clock reading. */
  lemma RegeneratedIdInjective(t1: MealType, s1: nat, t2: MealType, s2: nat)
    requires RegeneratedId(t1, s1) == RegeneratedId(t2, s2)
    ensures t1 == t2 && s1 == s2
  {
    KeyHasNoDash(t1);
    KeyHasNoDash(t2);
    SplitAtFirst(MealTypeKey(t1), NatToString(s1), MealTypeKey(t2), NatToString(s2), '-');
    NatToStringInjective(s1, s2);
  }

  /** A regenerated meal's id never equals the id of a meal from plan generation. */
  lemma RegeneratedIdIsNotPlanMealId(t: MealType, stamp: nat, planStamp: nat, index: nat)
    ensures RegeneratedId(t, stamp) != GeneratePlanRoute.MealId(planStamp, index)
  {
    var x := RegeneratedId(t, stamp);
    var y := GeneratePlanRoute.MealId(planStamp, index);
    KeyHasNoDash(t);
    IndexOfAfterPrefix(MealTypeKey(t), '-', NatToString(stamp));
    assert y == "meal" + "-" + (NatToString(planStamp) + "-" + NatToString(index));
    IndexOfAfterPrefix("meal", '-', NatToString(planStamp) + "-" + NatToString(index));
    assert |MealTypeKey(t)| != 4;
  }
}
