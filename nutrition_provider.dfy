/**
 * The nutrition provider (providers/nutrition-provider.tsx): the daily
 * target calculator, the macro consistency check with its proportional
 * correction, and the provider's state (profile, targets, current plan and
 * the "generating" flag) with the setters that update it.
 */
module NutritionProvider {
  import opened Wrappers
  import opened JsBuiltins
  import opened NutritionTypes

  datatype ProfileError = InvalidProfileData

  /** A numeric field the source treats as falsy. Only 0 is falsy among reals. */
  predicate Falsy(x: real) {
    x == 0.0
  }

  /** The guard of the calculator: age, weight and height are all truthy. */
  predicate IsComplete(p: UserProfile) {
    !Falsy(p.age) && !Falsy(p.weight) && !Falsy(p.height)
  }

  // ---------------------------------------------------------------------
  // Reference definition of the targets, as tables and formulas.
  // ---------------------------------------------------------------------

  /** Mifflin-St Jeor basal metabolic rate; every gender other than male uses the -161 constant. */
  function Bmr(p: UserProfile): real {
    var base := 10.0 * p.weight + 6.25 * p.height - 5.0 * p.age;
    match p.gender
    case Male => base + 5.0
    case Female => base - 161.0
  }

  function ActivityMultiplier(a: ActivityLevel): real {
    match a
    case Sedentary => 1.2
    case Light => 1.375
    case Moderate => 1.55
    case Active => 1.725
    case VeryActive => 1.9
  }

  /** The flat kcal shift of a goal. */
  function GoalShift(g: Goal): real {
    match g
    case Lose => -500.0
    case Maintain => 0.0
    case Gain => 500.0
  }

  /** Fractions of the daily kcal that come from protein, fat and carbohydrate. */
  datatype MacroSplit = MacroSplit(protein: real, fat: real, carbs: real)

  const DefaultSplit: MacroSplit := MacroSplit(0.25, 0.30, 0.45)

  const KnownDietTypes: set<string> :=
    {"keto", "low_carb", "high_protein", "balanced", "intermittent_fasting",
     "mediterranean", "paleo", "vegan"}

  /** The diet table: every row splits the whole kcal; unknown or absent diets get 25/30/45. */
  function DietSplit(dietType: Option<string>): (s: MacroSplit)
    ensures s.protein + s.fat + s.carbs == 1.0 && s.protein > 0.0 && s.fat > 0.0 && s.carbs > 0.0
    ensures (dietType.None? || dietType.value !in KnownDietTypes) ==> s == DefaultSplit
  {
    match dietType
    case Some("keto") => MacroSplit(0.25, 0.70, 0.05)
    case Some("low_carb") => MacroSplit(0.30, 0.50, 0.20)
    case Some("high_protein") => MacroSplit(0.40, 0.25, 0.35)
    case Some("balanced") => MacroSplit(0.25, 0.30, 0.45)
    case Some("intermittent_fasting") => MacroSplit(0.30, 0.30, 0.40)
    case Some("mediterranean") => MacroSplit(0.20, 0.35, 0.45)
    case Some("paleo") => MacroSplit(0.30, 0.40, 0.30)
    case Some("vegan") => MacroSplit(0.20, 0.25, 0.55)
    case _ => DefaultSplit
  }

  function DailyCalories(p: UserProfile): real {
    Bmr(p) * ActivityMultiplier(p.activityLevel) + GoalShift(p.goal)
  }

  /** The targets before rounding: kcal split into grams at 4/4/9 kcal per gram. */
  function UnroundedTargets(p: UserProfile): Nutrition {
    var calories := DailyCalories(p);
    var split := DietSplit(p.dietType);
    Nutrition(calories, calories * split.protein / 4.0, calories * split.carbs / 4.0,
              calories * split.fat / 9.0, Max(25.0, calories / 1000.0 * 14.0))
  }

  function RoundAll(n: Nutrition): Nutrition {
    Nutrition(Round(n.calories) as real, Round(n.protein) as real, Round(n.carbs) as real,
              Round(n.fat) as real, Round(n.fiber) as real)
  }

  /** What `calculateNutritionTargets` returns or throws for a profile. */
  function Targets(p: UserProfile): (r: Result<Nutrition, ProfileError>)
    ensures r.Failure? <==> !IsComplete(p)
  {
    if IsComplete(p) then Success(RoundAll(UnroundedTargets(p))) else Failure(InvalidProfileData)
  }

  /**
   * `calculateNutritionTargets`, step by step as the source computes it:
   * the guard, the gendered BMR, the activity factor, the goal shift, the
   * diet-type chain over three percentages, the gram conversion and the
   * rounding of every field.
   */
  method CalculateNutritionTargets(profile: UserProfile) returns (r: Result<Nutrition, ProfileError>)
    ensures r == Targets(profile)
    ensures r.Failure? <==> (profile.age == 0.0 || profile.weight == 0.0 || profile.height == 0.0)
  {
    if Falsy(profile.age) || Falsy(profile.weight) || Falsy(profile.height) {
      return Failure(InvalidProfileData);
    }

    var bmr: real;
    if profile.gender == Male {
      bmr := 10.0 * profile.weight + 6.25 * profile.height - 5.0 * profile.age + 5.0;
    } else {
      bmr := 10.0 * profile.weight + 6.25 * profile.height - 5.0 * profile.age - 161.0;
    }
    assert bmr == Bmr(profile);

    var calories := bmr * ActivityMultiplier(profile.activityLevel);
    MaintenanceFromBmr(profile, bmr);
    if profile.goal == Lose {
      calories := calories - 500.0;
    } else if profile.goal == Gain {
      calories := calories + 500.0;
    }
    assert calories == DailyCalories(profile);

    var proteinPercent, fatPercent, carbsPercent := 0.25, 0.30, 0.45;
    if profile.dietType == Some("keto") {
      proteinPercent, fatPercent, carbsPercent := 0.25, 0.70, 0.05;
    } else if profile.dietType == Some("low_carb") {
      proteinPercent, fatPercent, carbsPercent := 0.30, 0.50, 0.20;
    } else if profile.dietType == Some("high_protein") {
      proteinPercent, fatPercent, carbsPercent := 0.40, 0.25, 0.35;
    } else if profile.dietType == Some("balanced") {
      proteinPercent, fatPercent, carbsPercent := 0.25, 0.30, 0.45;
    } else if profile.dietType == Some("intermittent_fasting") {
      proteinPercent, fatPercent, carbsPercent := 0.30, 0.30, 0.40;
    } else if profile.dietType == Some("mediterranean") {
      proteinPercent, fatPercent, carbsPercent := 0.20, 0.35, 0.45;
    } else if profile.dietType == Some("paleo") {
      proteinPercent, fatPercent, carbsPercent := 0.30, 0.40, 0.30;
    } else if profile.dietType == Some("vegan") {
      proteinPercent, fatPercent, carbsPercent := 0.20, 0.25, 0.55;
    }
    assert MacroSplit(proteinPercent, fatPercent, carbsPercent) == DietSplit(profile.dietType);

    var protein := calories * proteinPercent / 4.0;
    var fat := calories * fatPercent / 9.0;
    var carbs := calories * carbsPercent / 4.0;
    var fiber := Max(25.0, calories / 1000.0 * 14.0);
    GramsFromSplit(profile, calories, proteinPercent, fatPercent, carbsPercent);

    r := Success(Nutrition(Round(calories) as real, Round(protein) as real, Round(carbs) as real,
                           Round(fat) as real, Round(fiber) as real));
  }

  /** The activity factor applied to the step-by-step BMR is the reference maintenance figure. */
  lemma MaintenanceFromBmr(p: UserProfile, bmr: real)
    requires bmr == Bmr(p)
    ensures bmr * ActivityMultiplier(p.activityLevel) == DailyCalories(p) - GoalShift(p.goal)
  {
  }

  /** The gram conversion of the step-by-step calculation is the reference one. */
  lemma GramsFromSplit(p: UserProfile, calories: real, proteinPercent: real, fatPercent: real, carbsPercent: real)
    requires calories == DailyCalories(p)
    requires MacroSplit(proteinPercent, fatPercent, carbsPercent) == DietSplit(p.dietType)
    ensures UnroundedTargets(p) == Nutrition(calories, calories * proteinPercent / 4.0,
      calories * carbsPercent / 4.0, calories * fatPercent / 9.0, Max(25.0, calories / 1000.0 * 14.0))
  {
  }

  // ---------------------------------------------------------------------
  // Properties of the targets.
  // ---------------------------------------------------------------------

  /** Male and female BMR for otherwise equal profiles are exactly 166 kcal apart. */
  lemma BmrGenderGap(p: UserProfile)
    ensures Bmr(p.(gender := Male)) - Bmr(p.(gender := Female)) == 166.0
  {
  }

  /** Losing takes 500 kcal off the maintenance figure and gaining adds 500. */
  lemma GoalShiftsMaintenance(p: UserProfile)
    ensures DailyCalories(p.(goal := Maintain)) == Bmr(p) * ActivityMultiplier(p.activityLevel)
    ensures DailyCalories(p.(goal := Lose)) == DailyCalories(p.(goal := Maintain)) - 500.0
    ensures DailyCalories(p.(goal := Gain)) == DailyCalories(p.(goal := Maintain)) + 500.0
  {
  }

  /** Before rounding the macros account for exactly the daily kcal, and fiber is at least 25 g. */
  lemma UnroundedEnergyBalance(p: UserProfile)
    ensures var u := UnroundedTargets(p);
      4.0 * u.protein + 4.0 * u.carbs + 9.0 * u.fat == u.calories && u.fiber >= 25.0
  {
    var u := UnroundedTargets(p);
    var s := DietSplit(p.dietType);
    calc {
      4.0 * u.protein + 4.0 * u.carbs + 9.0 * u.fat;
      u.calories * s.protein + u.calories * s.carbs + u.calories * s.fat;
      u.calories * (s.protein + s.fat + s.carbs);
    }
  }

  /**
   * Each returned field is the rounding of its unrounded value: a whole
   * number within 1/2 of it. Fiber stays at least 25 g after rounding.
   */
  lemma TargetsRoundEachField(p: UserProfile)
    requires IsComplete(p)
    ensures Targets(p).Success?
    ensures forall f :: var t, u := Targets(p).value.Get(f), UnroundedTargets(p).Get(f);
              t == t.Floor as real && Abs(t - u) <= 0.5
    ensures Targets(p).value.fiber >= 25.0
  {
    var t, u := Targets(p).value, UnroundedTargets(p);
    forall f ensures t.Get(f) == t.Get(f).Floor as real && Abs(t.Get(f) - u.Get(f)) <= 0.5 {
      assert t.Get(f) == Round(u.Get(f)) as real by { match f case _ => }
    }
    UnroundedEnergyBalance(p);
  }

  // ---------------------------------------------------------------------
  // validateMacros
  // ---------------------------------------------------------------------

  /** The answer of `validateMacros`; the message text is not modelled. */
  datatype MacroCheck = Valid | Invalid(corrected: Nutrition)

  const Tolerance: real := 50.0

  /** The kcal implied by the macros at 4/4/9 kcal per gram. */
  function MacroCalories(t: Nutrition): real {
    t.protein * 4.0 + t.carbs * 4.0 + t.fat * 9.0
  }

  /** A check that fails must be able to divide by the macro kcal. */
  predicate CanValidate(t: Nutrition) {
    MacroCalories(t) != 0.0 || Abs(MacroCalories(t) - t.calories) <= Tolerance
  }

  /**
   * One macro's grams in the correction, before rounding: its share of the
   * macro kcal, applied to the stated kcal and converted back to grams.
   */
  function ShareGrams(calories: real, grams: real, kcalPerGram: real, totalMacroCals: real): real
    requires totalMacroCals != 0.0 && kcalPerGram > 0.0
  {
    var percent := grams * kcalPerGram / totalMacroCals;
    calories * percent / kcalPerGram
  }

  /** The correction `validateMacros` proposes: kcal and fiber kept, the three macros re-derived and rounded. */
  function Corrected(t: Nutrition): (c: Nutrition)
    requires MacroCalories(t) != 0.0
    ensures c.calories == t.calories && c.fiber == t.fiber
    ensures IsWhole(c.protein) && IsWhole(c.carbs) && IsWhole(c.fat)
  {
    var totalMacroCals := MacroCalories(t);
    Nutrition(
      t.calories,
      Round(ShareGrams(t.calories, t.protein, 4.0, totalMacroCals)) as real,
      Round(ShareGrams(t.calories, t.carbs, 4.0, totalMacroCals)) as real,
      Round(ShareGrams(t.calories, t.fat, 9.0, totalMacroCals)) as real,
      t.fiber)
  }

  /**
   * `validateMacros`: valid when the macro kcal lie within 50 kcal of the
   * stated kcal (a difference of exactly 50 is valid); otherwise the
   * correction, which keeps kcal and fiber.
   */
  function ValidateMacros(t: Nutrition): (r: MacroCheck)
    requires CanValidate(t)
    ensures r.Valid? <==> Abs(MacroCalories(t) - t.calories) <= Tolerance
    ensures r.Invalid? ==> r.corrected.calories == t.calories && r.corrected.fiber == t.fiber
  {
    var diff := Abs(MacroCalories(t) - t.calories);
    if diff > Tolerance then Invalid(Corrected(t)) else Valid
  }

  /** Taking a macro's share of the macro kcal and converting back to grams scales its grams by k = kcal / macro-kcal. */
  lemma ShareIsScaling(calories: real, grams: real, kcalPerGram: real, total: real, k: real)
    requires kcalPerGram > 0.0 && total != 0.0 && k * total == calories
    ensures ShareGrams(calories, grams, kcalPerGram, total) == grams * k
  {
    var q := grams * kcalPerGram / total;
    assert q * total == grams * kcalPerGram;
    assert calories * q == grams * kcalPerGram * k by {
      assert calories * q == k * total * q;
    }
  }

  lemma RoundedShareIsScaling(calories: real, grams: real, kcalPerGram: real, total: real, k: real)
    requires kcalPerGram > 0.0 && total != 0.0 && k * total == calories
    ensures Round(ShareGrams(calories, grams, kcalPerGram, total)) == Round(grams * k)
  {
    ShareIsScaling(calories, grams, kcalPerGram, total, k);
  }

  /**
   * The correction scales protein, carbohydrate and fat by one common
   * factor k, the one with k * macro-kcal = kcal, and rounds each result.
   */
  lemma CorrectionIsProportional(t: Nutrition, k: real)
    requires MacroCalories(t) != 0.0 && k * MacroCalories(t) == t.calories
    ensures var c := Corrected(t);
      && c.protein == Round(t.protein * k) as real
      && c.carbs == Round(t.carbs * k) as real
      && c.fat == Round(t.fat * k) as real
  {
    var m := MacroCalories(t);
    var c := Corrected(t);
    var p, p' := Round(ShareGrams(t.calories, t.protein, 4.0, m)), Round(t.protein * k);
    var h, h' := Round(ShareGrams(t.calories, t.carbs, 4.0, m)), Round(t.carbs * k);
    var f, f' := Round(ShareGrams(t.calories, t.fat, 9.0, m)), Round(t.fat * k);
    assert c.protein == p as real && c.carbs == h as real && c.fat == f as real;
    RoundedShareIsScaling(t.calories, t.protein, 4.0, m, k);
    RoundedShareIsScaling(t.calories, t.carbs, 4.0, m, k);
    RoundedShareIsScaling(t.calories, t.fat, 9.0, m, k);
    assert p == p' && h == h' && f == f';
  }

  /** Scaling every macro by kcal / macro-kcal makes the macros account for exactly the kcal. */
  lemma RescaledMacrosMeetCalories(t: Nutrition, k: real)
    requires k * MacroCalories(t) == t.calories
    ensures 4.0 * (t.protein * k) + 4.0 * (t.carbs * k) + 9.0 * (t.fat * k) == t.calories
  {
    calc {
      4.0 * (t.protein * k) + 4.0 * (t.carbs * k) + 9.0 * (t.fat * k);
      k * MacroCalories(t);
    }
  }

  /** Rounding each of three gram amounts moves their kcal by at most 4*0.5 + 4*0.5 + 9*0.5. */
  lemma RoundingErrorOfMacroCalories(p: real, c: real, f: real, p': real, c': real, f': real, kcal: real)
    requires Abs(p' - p) <= 0.5 && Abs(c' - c) <= 0.5 && Abs(f' - f) <= 0.5
    requires 4.0 * p + 4.0 * c + 9.0 * f == kcal
    ensures Abs(4.0 * p' + 4.0 * c' + 9.0 * f' - kcal) <= 8.5
  {
  }

  /** A corrected record passes the check it failed: rounding moves the macro kcal by at most 8.5. */
  lemma CorrectionPassesCheck(t: Nutrition)
    requires CanValidate(t) && ValidateMacros(t).Invalid?
    ensures CanValidate(ValidateMacros(t).corrected)
    ensures ValidateMacros(ValidateMacros(t).corrected).Valid?
  {
    var c := ValidateMacros(t).corrected;
    assert c == Corrected(t);
    var m := MacroCalories(t);
    var k := t.calories / m;
    assert k * m == t.calories;
    CorrectionIsProportional(t, k);
    RescaledMacrosMeetCalories(t, k);
    RoundingErrorOfMacroCalories(t.protein * k, t.carbs * k, t.fat * k, c.protein, c.carbs, c.fat, t.calories);
    assert Abs(MacroCalories(c) - c.calories) <= 8.5;
  }

  /** The calculator's own output always passes the macro check. */
  lemma TargetsPassMacroCheck(p: UserProfile)
    requires IsComplete(p)
    ensures CanValidate(Targets(p).value)
    ensures ValidateMacros(Targets(p).value).Valid?
  {
    var t, u := Targets(p).value, UnroundedTargets(p);
    UnroundedEnergyBalance(p);
    TargetsRoundEachField(p);
    assert Abs(t.Get(Protein) - u.Get(Protein)) <= 0.5;
    assert Abs(t.Get(Carbs) - u.Get(Carbs)) <= 0.5;
    assert Abs(t.Get(Fat) - u.Get(Fat)) <= 0.5;
    assert Abs(t.Get(Calories) - u.Get(Calories)) <= 0.5;
    assert Abs(MacroCalories(t) - t.calories) <= 9.0;
  }

  /**
   * A worked example: a 30-year-old, 70 kg, 175 cm man, moderately active,
   * keeping his weight on a balanced diet. Maintenance is 2555.5625 kcal,
   * so the targets are 2556 kcal, 160 g protein, 288 g carbohydrate, 85 g
   * fat and 36 g fiber (the carbohydrate figure, 287.5008 g, rounds up).
   */
  lemma BalancedMaleExample()
    ensures Targets(UserProfile(30.0, 70.0, 175.0, Male, Moderate, Maintain, 3, [], [], [], [], [],
                                Some("balanced")))
            == Success(Nutrition(2556.0, 160.0, 288.0, 85.0, 36.0))
  {
    var p := UserProfile(30.0, 70.0, 175.0, Male, Moderate, Maintain, 3, [], [], [], [], [], Some("balanced"));
    assert Bmr(p) == 1648.75;
    assert DailyCalories(p) == 2555.5625;
    assert DietSplit(p.dietType) == MacroSplit(0.25, 0.30, 0.45);
    var u := UnroundedTargets(p);
    assert u.protein == 159.72265625 && u.carbs == 287.50078125;
    assert u.fat == 766.66875 / 9.0 && u.fiber == 35.777875;
  }

  // ---------------------------------------------------------------------
  // The provider's state.
  // ---------------------------------------------------------------------

  /** The state the provider owns and its setters; storage writes are not modelled. */
  class NutritionStore {
    var userProfile: Option<UserProfile>
    var nutritionTargets: Option<Nutrition>
    var currentMealPlan: Option<DailyMealPlan>
    var isGenerating: bool

    /** The targets are the ones computed from the stored profile, or both are absent. */
    ghost predicate TargetsMatchProfile()
      reads this
    {
      match userProfile
      case None => nutritionTargets.None?
      case Some(p) => nutritionTargets.Some? && Targets(p) == Success(nutritionTargets.value)
    }

    constructor ()
      ensures userProfile.None? && nutritionTargets.None? && currentMealPlan.None? && !isGenerating
      ensures TargetsMatchProfile()
    {
      userProfile := None;
      nutritionTargets := None;
      currentMealPlan := None;
      isGenerating := false;
    }

    /**
     * `setUserProfile`: `null` clears profile and targets; a profile the
     * calculator rejects throws before anything changes; any other profile
     * is stored together with the targets computed from it.
     */
    method SetUserProfile(profile: Option<UserProfile>) returns (outcome: Outcome<ProfileError>)
      modifies this
      ensures currentMealPlan == old(currentMealPlan) && isGenerating == old(isGenerating)
      ensures profile.None? ==> outcome.Pass? && userProfile.None? && nutritionTargets.None?
      ensures profile.Some? && !IsComplete(profile.value) ==>
        && outcome == Fail(InvalidProfileData)
        && userProfile == old(userProfile) && nutritionTargets == old(nutritionTargets)
      ensures profile.Some? && IsComplete(profile.value) ==>
        && outcome.Pass?
        && userProfile == profile
        && nutritionTargets == Some(Targets(profile.value).value)
      ensures outcome.Pass? ==> TargetsMatchProfile()
    {
      if profile.None? {
        userProfile := None;
        nutritionTargets := None;
        return Pass;
      }
      var targets := CalculateNutritionTargets(profile.value);
      if targets.Failure? {
        return Fail(targets.error);
      }
      userProfile := profile;
      nutritionTargets := Some(targets.value);
      outcome := Pass;
    }

    /** `updateNutritionTargets`: replaces the targets and nothing else. */
    method UpdateNutritionTargets(targets: Nutrition)
      modifies this
      ensures nutritionTargets == Some(targets)
      ensures userProfile == old(userProfile) && currentMealPlan == old(currentMealPlan)
      ensures isGenerating == old(isGenerating)
    {
      nutritionTargets := Some(targets);
    }

    /** `setCurrentMealPlan`, without its storage write. */
    method SetCurrentMealPlan(plan: Option<DailyMealPlan>)
      modifies this
      ensures currentMealPlan == plan
      ensures userProfile == old(userProfile) && nutritionTargets == old(nutritionTargets)
      ensures isGenerating == old(isGenerating)
    {
      currentMealPlan := plan;
    }

    /** `setIsGenerating`. */
    method SetIsGenerating(generating: bool)
      modifies this
      ensures isGenerating == generating
      ensures userProfile == old(userProfile) && nutritionTargets == old(nutritionTargets)
      ensures currentMealPlan == old(currentMealPlan)
    {
      isGenerating := generating;
    }
  }
}
