/**
 * The records the application passes around (types/nutrition.ts): the
 * user's profile, a set of daily nutrition figures, a meal and a day's meal
 * plan, together with the componentwise totals that a plan's
 * `totalNutrition` is meant to hold.
 */
module NutritionTypes {
  import opened Wrappers

  datatype Gender = Male | Female
  datatype ActivityLevel = Sedentary | Light | Moderate | Active | VeryActive
  datatype Goal = Lose | Maintain | Gain
  datatype MealType = Breakfast | Lunch | Dinner | Snack

  /**
   * A user's profile. `dietType` is an optional free string, not an
   * enumeration; `mealsPerDay` is a whole number.
   */
  datatype UserProfile = UserProfile(
    age: real,
    weight: real,
    height: real,
    gender: Gender,
    activityLevel: ActivityLevel,
    goal: Goal,
    mealsPerDay: int,
    dietaryRestrictions: seq<string>,
    allergies: seq<string>,
    healthConditions: seq<string>,
    dislikedFoods: seq<string>,
    preferredCuisines: seq<string>,
    dietType: Option<string>)

  /** The five nutrition figures, named so that one statement covers all of them. */
  datatype Field = Calories | Protein | Carbs | Fat | Fiber

  /** Daily targets, a meal's nutrition or a plan's totals: kcal and grams. */
  datatype Nutrition = Nutrition(calories: real, protein: real, carbs: real, fat: real, fiber: real)
  {
    function Get(f: Field): real {
      match f
      case Calories => calories
      case Protein => protein
      case Carbs => carbs
      case Fat => fat
      case Fiber => fiber
    }
  }

  const ZeroNutrition: Nutrition := Nutrition(0.0, 0.0, 0.0, 0.0, 0.0)

  /**
   * One dish. `nutrition` is optional because the meals come from an
   * untrusted generator; the field the source calls `type` is `mealType`.
   */
  datatype Meal = Meal(
    id: string,
    name: string,
    mealType: MealType,
    ingredients: seq<string>,
    instructions: seq<string>,
    nutrition: Option<Nutrition>,
    prepTime: real,
    servings: real)
  {
    /** `meal.nutrition?.<field> || 0`: a missing nutrition record reads as zero. */
    function Value(f: Field): real {
      match nutrition
      case None => 0.0
      case Some(n) => n.Get(f)
    }
  }

  datatype DailyMealPlan = DailyMealPlan(
    id: string,
    date: string,
    meals: seq<Meal>,
    totalNutrition: Nutrition)

  /** The running sum of one field over the meals, in `reduce` order. */
  function SumField(meals: seq<Meal>, f: Field): real {
    if |meals| == 0 then 0.0 else SumField(meals[..|meals| - 1], f) + meals[|meals| - 1].Value(f)
  }

  /** The componentwise totals of the meals' nutrition. */
  function Totals(meals: seq<Meal>): (t: Nutrition)
    ensures forall f :: t.Get(f) == SumField(meals, f)
  {
    Nutrition(SumField(meals, Calories), SumField(meals, Protein), SumField(meals, Carbs),
              SumField(meals, Fat), SumField(meals, Fiber))
  }

  /** Adding one meal at the end adds its value to the running sum. */
  lemma SumFieldAppend(meals: seq<Meal>, m: Meal, f: Field)
    ensures SumField(meals + [m], f) == SumField(meals, f) + m.Value(f)
  {
    assert (meals + [m])[..|meals|] == meals;
  }

  /** Summing no meals gives the all-zero record. */
  lemma TotalsOfNoMeals()
    ensures Totals([]) == ZeroNutrition
  {
  }
}
