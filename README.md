# Nutrition targets and meal-plan post-processing, modelled in Dafny

This project models the deterministic core of an Arabic meal-planning app, with these parts:

- **Daily nutrition targets.** The profile guard, the Mifflin-St Jeor BMR, the activity factor, the ±500 kcal goal shift, the eight-way diet table, the conversion to grams at 4/4/9 kcal per gram, the fiber floor and the rounding.
- **Macro check.** `validateMacros` and its proportional correction.
- **Provider state.** The profile, targets, current plan and "generating" flag, with their setters.
- **Plan macro scaler.** `adjustMealPlanMacros`.
- **Plan-generation endpoint, pure part.** The meal-type list, the per-meal figures, the fence stripping and object extraction on the model's raw reply, and the assembly of the plan with its ids and totals.
- **Regenerated-meal normaliser.** The single-meal endpoint's fallbacks.
- **Sign-in screen validators.** The e-mail and phone checks and the order of the sign-in checks.

Modelling conventions:

- Numbers are exact reals. `Math.round(x)` is `Floor(x + 1/2)`.
- A numeric field is falsy exactly when it is 0.
- Optional values (`x?.y || 0`, missing fields, `null`) are `Option`.
- Thrown errors are `Result` failures.
- Clock readings (`Date.now()`, `new Date().toISOString()`) are parameters.

Module layout, one file per module:

- `wrappers.dfy`: Option and Result.
- `js_builtins.dfy`: `Math.round`, `trim`, `indexOf` and the decimal rendering of integers.
- `nutrition_types.dfy`: the records of types/nutrition.ts and the componentwise totals.
- `nutrition_provider.dfy`, `meal_generator.dfy`, `generate_plan_route.dfy`, `regenerate_meal_route.dfy` and `login.dfy`: one per source file.

`calculateNutritionTargets` and the reply cleaning reassign local variables step by step, so they are methods. Each is proved equal to a reference function, and the properties are proved about that function. The provider's state is a class whose setters carry `modifies` clauses. Everything else is functions and lemmas.

## Model

| member | source | states |
|---|---|---|
| NutritionProvider.Targets | providers/nutrition-provider.tsx:13-17 | the calculation fails exactly when age, weight or height is falsy (0); negative values pass |
| NutritionProvider.CalculateNutritionTargets | providers/nutrition-provider.tsx:13-92 | the step-by-step calculation (guard, BMR branch, activity factor, goal shift, diet-type chain, grams, fiber, rounding) returns exactly the reference targets and fails exactly on a falsy age, weight or height |
| NutritionProvider.BmrGenderGap | providers/nutrition-provider.tsx:19-24 | male minus female BMR for the same body is exactly 166 kcal |
| NutritionProvider.GoalShiftsMaintenance | providers/nutrition-provider.tsx:34-40 | maintain is BMR times the activity factor; lose is 500 kcal below it and gain 500 kcal above |
| NutritionProvider.DietSplit | providers/nutrition-provider.tsx:42-78 | every row of the diet table has three positive percentages summing to 1; an absent or unknown diet type gets 0.25/0.30/0.45 |
| NutritionProvider.UnroundedEnergyBalance | providers/nutrition-provider.tsx:80-83 | before rounding, 4·protein + 4·carbs + 9·fat equals the kcal exactly, and fiber is at least 25 |
| NutritionProvider.TargetsRoundEachField | providers/nutrition-provider.tsx:85-91 | every returned field is a whole number within 1/2 of its unrounded value; fiber stays at least 25 |
| NutritionProvider.BalancedMaleExample | providers/nutrition-provider.tsx:13-92 | a 30-year-old, 70 kg, 175 cm moderately active man on a balanced diet who keeps his weight gets 2556/160/288/85/36 |
| NutritionProvider.ValidateMacros | providers/nutrition-provider.tsx:167-199 | valid exactly when the macro kcal are within 50 of the stated kcal (exactly 50 is valid); a correction keeps kcal and fiber |
| NutritionProvider.ShareIsScaling | providers/nutrition-provider.tsx:177-183 | a macro's kcal share applied to the stated kcal and converted back to grams is its grams times kcal/macro-kcal |
| NutritionProvider.Corrected | providers/nutrition-provider.tsx:177-194 | the proposed correction keeps kcal and fiber and gives whole gram figures for protein, carbs and fat |
| NutritionProvider.CorrectionIsProportional | providers/nutrition-provider.tsx:177-194 | the correction rounds protein, carbs and fat each scaled by the one factor k with k·macro-kcal = kcal |
| NutritionProvider.RescaledMacrosMeetCalories | providers/nutrition-provider.tsx:177-183 | before rounding, the rescaled macros give exactly the stated kcal |
| NutritionProvider.CorrectionPassesCheck | providers/nutrition-provider.tsx:176-198 | a correction that was proposed passes the same check |
| NutritionProvider.TargetsPassMacroCheck | providers/nutrition-provider.tsx:80-91 | the calculator's own targets always pass the macro check |
| NutritionProvider.NutritionStore.constructor | providers/nutrition-provider.tsx:8-11 | the provider starts with no profile, no targets, no plan and not generating |
| NutritionProvider.NutritionStore.SetUserProfile | providers/nutrition-provider.tsx:106-122 | null clears profile and targets; a profile the calculator rejects throws and changes nothing; any other profile is stored with the targets computed from it; plan and flag never change |
| NutritionProvider.NutritionStore.UpdateNutritionTargets | providers/nutrition-provider.tsx:201-203 | replaces the targets and nothing else |
| NutritionProvider.NutritionStore.SetCurrentMealPlan | providers/nutrition-provider.tsx:154-165 | replaces the current plan and nothing else |
| NutritionProvider.NutritionStore.SetIsGenerating | providers/nutrition-provider.tsx:11 | sets the generating flag and nothing else |
| NutritionTypes.Totals | services/meal-generator.ts:116-125 | each total is the running sum of that field over the meals, a missing nutrition record counting as 0 |
| NutritionTypes.TotalsOfNoMeals | backend/trpc/routes/meals/generate-plan/route.ts:196-205 | the totals of no meals are all zero |
| MealGenerator.Scales | services/meal-generator.ts:128-132 | each field's factor is its target over max(current total, 1) |
| MealGenerator.AdjustMeal | services/meal-generator.ts:135-144 | every field becomes round(old value × factor), a missing value reading as 0; the meal gets a nutrition record and nothing else about it changes |
| MealGenerator.AdjustMealPlanMacros | services/meal-generator.ts:111-163 | an empty plan comes back unchanged; id, date and meal count are kept; the new totals are the sums of the adjusted meals |
| MealGenerator.AdjustMealsAt | services/meal-generator.ts:135-144 | the i-th adjusted meal is the i-th meal adjusted: order is kept |
| MealGenerator.PlanMealIsAdjusted | services/meal-generator.ts:128-144 | each meal of the adjusted plan is that meal adjusted with the plan's factors |
| MealGenerator.AdjustedMealKeepsOtherFields | services/meal-generator.ts:135-137 | each adjusted meal equals the input meal except for its nutrition |
| MealGenerator.AdjustedFieldIsScaled | services/meal-generator.ts:116-142 | each adjusted field is round(old × target / max(current total, 1)), field by field |
| MealGenerator.AdjustedTotalNearTarget | services/meal-generator.ts:128-161 | for a field whose total is at least 1, the new total is within half the meal count of the target |
| MealGenerator.AdjustedSumNearScaledTotal | services/meal-generator.ts:135-156 | the sum of the rounded scaled values is within half the meal count of factor × old sum |
| MealGenerator.ZeroFieldStaysZero | services/meal-generator.ts:128-142 | a field that is 0 or missing in every meal is 0 in every adjusted meal |
| MealGenerator.MatchingPlanIsFixedPoint | services/meal-generator.ts:111-163 | a plan of whole figures whose totals (each at least 1) already equal the targets comes back with the same meals and totals equal to the targets |
| MealGenerator.RegenerateMeal | services/meal-generator.ts:165-170 | single-meal regeneration always fails |
| GeneratePlanRoute.MealsToGenerate | backend/trpc/routes/meals/generate-plan/route.ts:38-39 | a prefix of breakfast, lunch, dinner, snack; as many types as requested, up to four; a negative count drops types from the end |
| GeneratePlanRoute.MealsToGenerateDistinct | backend/trpc/routes/meals/generate-plan/route.ts:38-39 | no meal type is requested twice |
| GeneratePlanRoute.PerMealTargets | backend/trpc/routes/meals/generate-plan/route.ts:41-45 | each per-meal figure is the whole number nearest to target / meals, halves rounding up |
| GeneratePlanRoute.PerMealTargetsCoverDay | backend/trpc/routes/meals/generate-plan/route.ts:41-45 | meals × per-meal figure is within meals/2 of the daily target |
| GeneratePlanRoute.RemoveMarker | backend/trpc/routes/meals/generate-plan/route.ts:169-171 | the global replace never lengthens the text (which characters it keeps: RemoveMarkerOfFree, RemoveMarkerKeepsSurvivors; that every "```" goes: NoFenceSurvives) |
| GeneratePlanRoute.RemoveMarkerOfFree | backend/trpc/routes/meals/generate-plan/route.ts:169-171 | removing a marker that never occurs changes nothing |
| GeneratePlanRoute.NoFenceSurvives | backend/trpc/routes/meals/generate-plan/route.ts:169-171 | after the global removal of "```" no "```" occurs anywhere in the text, not even one formed by joining what was around a deleted marker |
| GeneratePlanRoute.FenceRemovalIdempotent | backend/trpc/routes/meals/generate-plan/route.ts:169-171 | removing "```" a second time changes nothing |
| GeneratePlanRoute.RemoveMarkerKeepsSurvivors | backend/trpc/routes/meals/generate-plan/route.ts:169-171 | marker removal deletes only marker characters and line feeds; everything else survives in order |
| GeneratePlanRoute.StripFences | backend/trpc/routes/meals/generate-plan/route.ts:167-172 | a reply not starting with a fence is kept; stripping never lengthens the text (that a fenced reply loses every "```": FencedStripLeavesNoFence) |
| GeneratePlanRoute.FencedStripLeavesNoFence | backend/trpc/routes/meals/generate-plan/route.ts:167-172 | a reply opening with a fence, JSON or plain, has no "```" left after stripping |
| GeneratePlanRoute.StripFencesKeepsSurvivors | backend/trpc/routes/meals/generate-plan/route.ts:168-172 | fence stripping deletes only backticks, the letters of "json" and line feeds |
| GeneratePlanRoute.ExtractObject | backend/trpc/routes/meals/generate-plan/route.ts:174-177 | when some `{` precedes some `}`, the text from the first `{` to the last `}` inclusive, which then opens with `{` and closes with `}`; otherwise the text unchanged; never longer than the input |
| GeneratePlanRoute.ExtractObjectIdempotent | backend/trpc/routes/meals/generate-plan/route.ts:174-177 | extracting twice gives what extracting once does |
| GeneratePlanRoute.CleanedReply | backend/trpc/routes/meals/generate-plan/route.ts:167-177 | the text handed to `JSON.parse` is never longer than the reply |
| GeneratePlanRoute.CleanedReplyBraced | backend/trpc/routes/meals/generate-plan/route.ts:167-177 | that text opens with `{` and closes with `}` whenever the trimmed, fence-stripped reply holds an object |
| GeneratePlanRoute.CleanReply | backend/trpc/routes/meals/generate-plan/route.ts:167-177 | the reassigned `jsonText` ends as the cleaned reply; an unfenced reply without an object stays trimmed and otherwise unchanged |
| GeneratePlanRoute.JsonFencedObjectRecovered | backend/trpc/routes/meals/generate-plan/route.ts:167-177 | a JSON object in a "```json" code block is cleaned down to exactly the object |
| GeneratePlanRoute.PlainFencedObjectRecovered | backend/trpc/routes/meals/generate-plan/route.ts:167-177 | a JSON object in a plain "```" code block is cleaned down to exactly the object |
| GeneratePlanRoute.MapMeals | backend/trpc/routes/meals/generate-plan/route.ts:185-194 | meals keep order and count, copy name through servings, and get the id "meal-" + clock + "-" + index |
| GeneratePlanRoute.BuildPlan | backend/trpc/routes/meals/generate-plan/route.ts:181-219 | fails, with the one generic message, exactly when `meals` is not an array or a meal lacks nutrition; otherwise the plan id, date, mapped meals and their componentwise totals |
| GeneratePlanRoute.EmptyReplyGivesEmptyPlan | backend/trpc/routes/meals/generate-plan/route.ts:196-212 | an empty meals array gives a plan with no meals and all-zero totals |
| GeneratePlanRoute.MealIdInjective | backend/trpc/routes/meals/generate-plan/route.ts:186 | two meal ids agree only for the same clock reading and the same index |
| GeneratePlanRoute.PlanMealIdsDistinct | backend/trpc/routes/meals/generate-plan/route.ts:185-194 | the meals of one plan have pairwise distinct ids, whatever the clock reads |
| RegenerateMealRoute.MealTypeArabic | backend/trpc/routes/meals/regenerate-meal/route.ts:59-64 | every meal type has a non-empty Arabic label |
| RegenerateMealRoute.MealTypeArabicDistinct | backend/trpc/routes/meals/regenerate-meal/route.ts:59-64 | different meal types have different labels |
| RegenerateMealRoute.RegeneratedMeal | backend/trpc/routes/meals/regenerate-meal/route.ts:123-132 | the input's type; id type + "-" + clock; a missing or empty name becomes the label; non-array lists become empty; missing nutrition becomes zeros; a falsy prepTime becomes 30 and a falsy servings 1; all else copied |
| RegenerateMealRoute.RegenerationIsStable | backend/trpc/routes/meals/regenerate-meal/route.ts:123-132 | feeding a regenerated meal back through the fallbacks returns it unchanged |
| RegenerateMealRoute.RegeneratedNutritionValues | backend/trpc/routes/meals/regenerate-meal/route.ts:129 | every nutrition figure is the answer's, or 0 when the answer has none |
| RegenerateMealRoute.RegeneratedIdInjective | backend/trpc/routes/meals/regenerate-meal/route.ts:124 | two regenerated ids agree only for the same type and clock reading |
| RegenerateMealRoute.RegeneratedIdIsNotPlanMealId | backend/trpc/routes/meals/regenerate-meal/route.ts:124 | a regenerated meal's id never equals a generated plan meal's id |
| Login.ValidateEmailMatchesPattern | app/login.tsx:28-31 | the e-mail test accepts exactly local@domain.tld with three non-empty runs free of whitespace and `@` |
| Login.ValidEmailHasOneAt | app/login.tsx:28-31 | an accepted address has exactly one `@` |
| Login.ValidEmailHasNoWhitespace | app/login.tsx:28-31 | an accepted address contains no whitespace |
| Login.PaddedEmailRejected | app/login.tsx:44-52 | an address with leading or trailing whitespace is rejected although it is not blank |
| Login.ValidateEmail | app/login.tsx:28-31 | an accepted address has at least five characters (the shortest has the form a@b.c) |
| Login.RemoveSeparators | app/login.tsx:35 | no whitespace or dash is left; a text without separators is kept as it is; a text of separators disappears; never longer than the input |
| Login.RemoveSeparatorsAppend | app/login.tsx:35 | separator removal works piecewise: removing from a + b is removing from a, then from b, and joining; with the cases above this fixes every result |
| Login.SeparatorDoesNotMatter | app/login.tsx:33-36 | inserting a space or dash anywhere does not change the phone test's answer |
| Login.ValidatePhone | app/login.tsx:33-36 | the phone test accepts exactly texts of digits, whitespace and dashes holding 10 to 15 digits |
| Login.TrimmedPhoneValidatesAlike | app/login.tsx:59-66 | the trimmed phone passed to login validates as the typed one does |
| Login.ValidPhoneIsNotBlank | app/login.tsx:54-62 | a phone that passes the test is never blank |
| Login.HandleLogin | app/login.tsx:39-66 | checks in order: name blank, e-mail blank, e-mail invalid (untrimmed), phone blank, phone invalid; the first failure stops; success hands over the three trimmed values |
| Login.LoginAcceptsExactly | app/login.tsx:39-66 | sign-in goes ahead exactly when the name is not blank and e-mail and phone pass their tests |
| Login.LoginCredentials | app/login.tsx:64-66 | on success, login receives the e-mail exactly as typed and a phone that passes the test |

## Left out

- The model calls are left out: `generateObject`, the Hugging Face `fetch` with its status and response-shape checks, and the 60-second `Promise.race` timeout. They are foreign and asynchronous. Their output, the raw reply text or the structured answer, is an input to the model.
- `JSON.parse` is a library call. `BuildPlan` takes the parsed object as input.
- Prompt texts, the diet-type description tables used only in prompts, and `console` logging are cosmetic.
- Storage is left out: `saveUserProfile`, `loadUserProfile`, and the storage write in `setCurrentMealPlan`.
- The rendering, alerts, navigation and loading flag of the sign-in screen are left out, as is what `login` itself does.
- IEEE-754 binary floating point is not modelled. Exact reals can round differently from JavaScript at exact halves; an example is 0.45, which is not exact in binary.
- NaN and undefined figures are not modelled, because only 0 is falsy among the reals. A nutrition record is either present with all five figures or absent (`Option`). A record that lacks only some figures is not modelled. The source treats such a record differently in each place:
  - services/meal-generator.ts:116-122 and 138-142 read a missing figure as 0 (`?.x || 0`), and the scaler writes a number back;
  - backend/trpc/routes/meals/generate-plan/route.ts:198-202 add `undefined` into the totals, which makes that total NaN;
  - backend/trpc/routes/meals/regenerate-meal/route.ts:129 passes the record through with the figure still missing.
- NutritionStore.SetUserProfile: the `typeof profile !== 'object'` branch is not modelled, because a typed profile is always an object.
- Values of the wrong JSON type in model output are not modelled (a non-string name, a meal type outside the four). Meal fields are typed.
- ValidateMacros: the Arabic `message` text of a failing check (the stated kcal, the rounded macro kcal and the corrected grams) is not part of `MacroCheck`; only the verdict and the correction are modelled, and the figures the message shows are those of the correction.
- ValidateMacros: requires that a failing check have non-zero macro kcal. With zero macro kcal the source divides by zero and produces NaN grams.
- PerMealTargets: requires a non-zero meal count. With zero meals per day the source's figures are Infinity or NaN.
- MealsToGenerate, PerMealTargets: the meal count is an integer. The request schema accepts any number, and a fractional count would be truncated by `slice`.
- The catch-and-rethrow in services/meal-generator.ts:101-107 is not modelled. It only rewraps the message of a failed model call.

## Notes on the code's behaviour

- **Plan reconciliation.** The only reconciliation of a generated plan is the proportional scaling of `adjustMealPlanMacros`, which only `generateDailyMealPlan` in services/meal-generator.ts applies; the plan-generation endpoint returns its plan unscaled. Each field of each meal is scaled by target / max(total, 1) and rounded. No residual is moved onto a meal, the meals are not reordered, and per-meal targets are equal shares of the day (`PerMealTargets`).
- **Empty plans.** `adjustMealPlanMacros` returns an empty plan untouched, totals included (`AdjustMealPlanMacros`).
- **Meals without nutrition.** `adjustMealPlanMacros` reads a meal without nutrition as zeros. The plan-generation endpoint's totals step instead reads a field of `undefined`, throws, and the request fails with the generic message (`BuildPlan`).
- **Macro check.** `validateMacros` keeps the stated kcal and rescales protein, carbs and fat to match them (`ValidateMacros`, `CorrectionIsProportional`).
- **Worked example.** For a 30-year-old, 70 kg, 175 cm, moderately active man on the balanced diet who wants to keep his weight, the exact figures are 2555.5625 kcal and 287.5008 g carbohydrate. `Math.round` takes them to 2556 and 288 (`BalancedMaleExample`).
- **Meal-type list.** `slice(0, mealsPerDay)` with a negative count counts back from the end of the list (`MealsToGenerate`).
