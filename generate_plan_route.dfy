/**
 * The deterministic part of the plan-generation endpoint
 * (backend/trpc/routes/meals/generate-plan/route.ts): which meal types are
 * asked for, the per-meal share of the day's targets, the cleaning of the
 * model's raw reply down to a JSON object, and the assembly of the plan
 * from the parsed reply. The model call and `JSON.parse` themselves are
 * outside the model: the raw reply and the parsed object are inputs.
 */
module GeneratePlanRoute {
  import opened Wrappers
  import opened JsBuiltins
  import opened NutritionTypes

  // ---------------------------------------------------------------------
  // Meal types and per-meal targets.

  /** The meal types in the order the endpoint offers them. */
  const MealTypeOrder: seq<MealType> := [Breakfast, Lunch, Dinner, Snack]

  /** Where `slice(0, end)` stops on a list of `len` items; a negative end counts back from the end. */
  function SliceEnd(len: nat, end: int): (k: nat)
    ensures k <= len
  {
    if end < 0 then (if len + end < 0 then 0 else len + end)
    else if end < len then end
    else len
  }

  /**
   * The meal types requested for a day of `mealsPerDay` meals: always a
   * prefix of breakfast, lunch, dinner, snack; as many as requested up to
   * four; and, for a negative count, four minus its magnitude (none once it
   * reaches -4).
   */
  function MealsToGenerate(mealsPerDay: int): (r: seq<MealType>)
    ensures r <= MealTypeOrder
    ensures 0 <= mealsPerDay <= 4 ==> |r| == mealsPerDay
    ensures mealsPerDay >= 4 ==> r == MealTypeOrder
    ensures mealsPerDay < 0 ==> |r| == (if mealsPerDay <= -4 then 0 else 4 + mealsPerDay)
  {
    MealTypeOrder[..SliceEnd(|MealTypeOrder|, mealsPerDay)]
  }

  /** No meal type is requested twice. */
  lemma MealsToGenerateDistinct(mealsPerDay: int, i: int, j: int)
    requires 0 <= i < j < |MealsToGenerate(mealsPerDay)|
    ensures MealsToGenerate(mealsPerDay)[i] != MealsToGenerate(mealsPerDay)[j]
  {
    var r := MealsToGenerate(mealsPerDay);
    assert r[i] == MealTypeOrder[i] && r[j] == MealTypeOrder[j];
  }

  /**
   * The per-meal figures quoted to the model: each day's target divided by
   * the number of meals, as the nearest whole number with halves rounded up.
   * A zero meal count divides by zero in the source (Infinity or NaN), which
   * has no counterpart among the reals.
   */
  function PerMealTargets(targets: Nutrition, mealsPerDay: int): (r: Nutrition)
    requires mealsPerDay != 0
    ensures forall f :: IsWhole(r.Get(f))
    ensures forall f :: -0.5 < r.Get(f) - targets.Get(f) / mealsPerDay as real <= 0.5
  {
    var n := mealsPerDay as real;
    Nutrition(
      Round(targets.calories / n) as real,
      Round(targets.protein / n) as real,
      Round(targets.carbs / n) as real,
      Round(targets.fat / n) as real,
      Round(targets.fiber / n) as real)
  }

  /**
   * A day of `mealsPerDay` meals at the per-meal figure lands within half a
   * unit per meal of the daily target.
   */
  lemma PerMealTargetsCoverDay(targets: Nutrition, mealsPerDay: int, f: Field)
    requires mealsPerDay > 0
    ensures var n := mealsPerDay as real;
            -n / 2.0 < PerMealTargets(targets, mealsPerDay).Get(f) * n - targets.Get(f) <= n / 2.0
  {
    NearestTimesCount(PerMealTargets(targets, mealsPerDay).Get(f), targets.Get(f), mealsPerDay as real);
  }

  /** A number within half of `t / n`, taken `n` times, is within `n / 2` of `t`. */
  lemma NearestTimesCount(r: real, t: real, n: real)
    requires n > 0.0 && -0.5 < r - t / n <= 0.5
    ensures -n / 2.0 < r * n - t <= n / 2.0
  {
    var d := r - t / n;
    assert (t / n) * n == t;
    assert r * n - t == d * n;
    assert (d + 0.5) * n > 0.0;
    assert (0.5 - d) * n >= 0.0;
  }

  // ---------------------------------------------------------------------
  // Cleaning the raw reply.

  /** The markdown fence, and the fence that opens a JSON code block. */
  const Fence: string := "```"
  const JsonFence: string := "```json"

  /** The characters fence stripping may delete. */
  const FenceChars: set<char> := {'`', 'j', 's', 'o', 'n', '\n'}

  /** `s.startsWith(prefix)`. */
  predicate StartsWith(s: string, prefix: string) {
    prefix <= s
  }

  /** `marker` occurs in `s` starting at position `k`. */
  predicate OccursAt(s: string, marker: string, k: int) {
    0 <= k && k + |marker| <= |s| && s[k..k + |marker|] == marker
  }

  ghost predicate Contains(s: string, marker: string) {
    exists k :: 0 <= k <= |s| && OccursAt(s, marker, k)
  }

  /**
   * A global `replace` of the pattern "marker, then an optional line feed"
   * by nothing: occurrences are found left to right without overlapping,
   * and each one goes together with a line feed right after it.
   */
  function RemoveMarker(s: string, marker: string): (r: string)
    requires marker != []
    ensures |r| <= |s|
    decreases |s|
  {
    if s == [] then []
    else if StartsWith(s, marker) then
      var rest := s[|marker|..];
      if rest != [] && rest[0] == '\n' then RemoveMarker(rest[1..], marker) else RemoveMarker(rest, marker)
    else [s[0]] + RemoveMarker(s[1..], marker)
  }

  /** A text in which the marker never occurs is left as it is. */
  lemma {:induction false} RemoveMarkerOfFree(s: string, marker: string)
    requires marker != [] && !Contains(s, marker)
    ensures RemoveMarker(s, marker) == s
  {
    if s != [] {
      assert !OccursAt(s, marker, 0);
      forall k | OccursAt(s[1..], marker, k)
        ensures false
      {
        assert s[k + 1..k + 1 + |marker|] == s[1..][k..k + |marker|];
        assert OccursAt(s, marker, k + 1);
      }
      RemoveMarkerOfFree(s[1..], marker);
    }
  }

  /** A text shorter than the marker is left as it is. */
  lemma RemoveMarkerOfShort(s: string, marker: string)
    requires 0 < |s| < |marker|
    ensures RemoveMarker(s, marker) == s
  {
    RemoveMarkerOfFree(s, marker);
  }

  /** A lead-in without the marker's first character passes through untouched. */
  lemma {:induction false} RemoveMarkerAfterPlain(a: string, b: string, marker: string)
    requires marker != []
    requires forall k :: 0 <= k < |a| ==> a[k] != marker[0]
    ensures RemoveMarker(a + b, marker) == a + RemoveMarker(b, marker)
  {
    if a != [] {
      assert (a + b)[0] == a[0];
      assert !StartsWith(a + b, marker);
      assert (a + b)[1..] == a[1..] + b;
      RemoveMarkerAfterPlain(a[1..], b, marker);
      assert a + RemoveMarker(b, marker) == [a[0]] + (a[1..] + RemoveMarker(b, marker));
    } else {
      assert a + b == b;
    }
  }

  /** A text whose first character is not a backtick keeps that character in front. */
  lemma PlainHeadKept(s: string)
    requires s != [] && s[0] != '`'
    ensures var r := RemoveMarker(s, Fence); r != [] && r[0] == s[0]
  {
    assert !StartsWith(s, Fence) by { assert Fence[0] == '`'; }
  }

  /** Putting a character in front makes a fence only from a backtick before two more. */
  lemma ConsKeepsFenceOut(c: char, tail: string)
    requires !Contains(tail, Fence)
    requires c == '`' ==> !(|tail| >= 2 && tail[0] == '`' && tail[1] == '`')
    ensures !Contains([c] + tail, Fence)
  {
    var r := [c] + tail;
    forall k | 0 <= k <= |r|
      ensures !OccursAt(r, Fence, k)
    {
      if k + 3 <= |r| {
        if k == 0 {
          assert r[k..k + 3] == [c, tail[0], tail[1]];
        } else {
          assert r[k..k + 3] == tail[k - 1..k + 2];
          assert !OccursAt(tail, Fence, k - 1);
        }
      }
    }
  }

  /**
   * Removing every "```" leaves no "```" behind: the scan deletes each run
   * of backticks three at a time from its start, so at most two of them
   * stay, and the character that ends the run stays after them.
   */
  lemma {:induction false} NoFenceSurvives(s: string)
    ensures !Contains(RemoveMarker(s, Fence), Fence)
    decreases |s|
  {
    if s == [] {
    } else if StartsWith(s, Fence) {
      var rest := s[|Fence|..];
      if rest != [] && rest[0] == '\n' {
        NoFenceSurvives(rest[1..]);
      } else {
        NoFenceSurvives(rest);
      }
    } else {
      NoFenceSurvives(s[1..]);
      if s[0] == '`' {
        BacktickHeadEndsRun(s);
      }
      ConsKeepsFenceOut(s[0], RemoveMarker(s[1..], Fence));
    }
  }

  /** Removing "```" a second time changes nothing. */
  lemma FenceRemovalIdempotent(s: string)
    ensures RemoveMarker(RemoveMarker(s, Fence), Fence) == RemoveMarker(s, Fence)
  {
    NoFenceSurvives(s);
    RemoveMarkerOfFree(RemoveMarker(s, Fence), Fence);
  }

  /**
   * A text that opens with a backtick but not with "```" is followed, after
   * removal, by fewer than two backticks.
   */
  lemma BacktickHeadEndsRun(s: string)
    requires s != [] && s[0] == '`' && !StartsWith(s, Fence)
    ensures var tail := RemoveMarker(s[1..], Fence); !(|tail| >= 2 && tail[0] == '`' && tail[1] == '`')
  {
    var t := s[1..];
    if t != [] {
      if t[0] != '`' {
        PlainHeadKept(t);
      } else {
        assert !StartsWith(t, Fence);
        assert RemoveMarker(t, Fence) == [t[0]] + RemoveMarker(t[1..], Fence);
        if t[1..] != [] {
          PlainHeadKept(t[1..]);
        }
      }
    }
  }

  /** A fenced reply has no "```" left once its fences are stripped. */
  lemma FencedStripLeavesNoFence(t: string)
    requires StartsWith(t, Fence)
    ensures !Contains(StripFences(t), Fence)
  {
    if StartsWith(t, JsonFence) {
      NoFenceSurvives(RemoveMarker(t, JsonFence));
    } else {
      NoFenceSurvives(t);
    }
  }

  /** The characters of `s` outside `drop`, in order. */
  function Survivors(s: string, drop: set<char>): string {
    if s == [] then [] else (if s[0] in drop then [] else [s[0]]) + Survivors(s[1..], drop)
  }

  lemma {:induction false} SurvivorsAppend(a: string, b: string, drop: set<char>)
    ensures Survivors(a + b, drop) == Survivors(a, drop) + Survivors(b, drop)
  {
    if a != [] {
      assert (a + b)[0] == a[0] && (a + b)[1..] == a[1..] + b;
      SurvivorsAppend(a[1..], b, drop);
    } else {
      assert a + b == b;
    }
  }

  lemma {:induction false} SurvivorsOfDropped(a: string, drop: set<char>)
    requires forall k :: 0 <= k < |a| ==> a[k] in drop
    ensures Survivors(a, drop) == []
  {
    if a != [] {
      SurvivorsOfDropped(a[1..], drop);
    }
  }

  /**
   * Removing a marker deletes only the marker's characters and line feeds:
   * every other character survives, in its order.
   */
  lemma {:induction false} RemoveMarkerKeepsSurvivors(s: string, marker: string, drop: set<char>)
    requires marker != [] && '\n' in drop
    requires forall k :: 0 <= k < |marker| ==> marker[k] in drop
    ensures Survivors(RemoveMarker(s, marker), drop) == Survivors(s, drop)
    decreases |s|
  {
    if s == [] {
    } else if StartsWith(s, marker) {
      var rest := s[|marker|..];
      assert s == marker + rest;
      SurvivorsAppend(marker, rest, drop);
      SurvivorsOfDropped(marker, drop);
      if rest != [] && rest[0] == '\n' {
        RemoveMarkerKeepsSurvivors(rest[1..], marker, drop);
      } else {
        RemoveMarkerKeepsSurvivors(rest, marker, drop);
      }
    } else {
      RemoveMarkerKeepsSurvivors(s[1..], marker, drop);
      var x := [s[0]] + RemoveMarker(s[1..], marker);
      assert x[0] == s[0] && x[1..] == RemoveMarker(s[1..], marker);
    }
  }

  /**
   * The fence stripping of the reply: a reply opening a JSON code block
   * loses every "```json" marker and then every "```" marker; a reply
   * opening a plain code block loses every "```" marker; any other reply is
   * kept. Each marker takes one following line feed with it.
   */
  function StripFences(t: string): (r: string)
    ensures !StartsWith(t, Fence) ==> r == t
    ensures |r| <= |t|
  {
    assert Fence <= JsonFence;
    if StartsWith(t, JsonFence) then RemoveMarker(RemoveMarker(t, JsonFence), Fence)
    else if StartsWith(t, Fence) then RemoveMarker(t, Fence)
    else t
  }

  /** Fence stripping deletes nothing but fence characters and line feeds. */
  lemma StripFencesKeepsSurvivors(t: string)
    ensures Survivors(StripFences(t), FenceChars) == Survivors(t, FenceChars)
  {
    assert forall k :: 0 <= k < |Fence| ==> Fence[k] in FenceChars;
    assert forall k :: 0 <= k < |JsonFence| ==> JsonFence[k] in FenceChars;
    if StartsWith(t, JsonFence) {
      RemoveMarkerKeepsSurvivors(t, JsonFence, FenceChars);
      RemoveMarkerKeepsSurvivors(RemoveMarker(t, JsonFence), Fence, FenceChars);
    } else if StartsWith(t, Fence) {
      RemoveMarkerKeepsSurvivors(t, Fence, FenceChars);
    }
  }

  /** Some `{` comes before some `}`. */
  predicate HasObject(s: string) {
    exists i, j :: 0 <= i < j < |s| && s[i] == '{' && s[j] == '}'
  }

  /** Positions `i` and `j` hold the first `{` and the last `}`, in that order. */
  predicate ObjectSpan(s: string, i: int, j: int) {
    && 0 <= i < j < |s| && s[i] == '{' && s[j] == '}'
    && (forall k :: 0 <= k < i ==> s[k] != '{')
    && (forall k :: j < k < |s| ==> s[k] != '}')
  }

  /**
   * The first match of `/\{[\s\S]*\}/`, when there is one: the text from
   * the first `{` to the last `}`, both included; otherwise the text itself.
   */
  function ExtractObject(s: string): (r: string)
    ensures HasObject(s) ==> exists i, j :: ObjectSpan(s, i, j) && r == s[i..j + 1]
    ensures HasObject(s) ==> |r| >= 2 && r[0] == '{' && r[|r| - 1] == '}'
    ensures !HasObject(s) ==> r == s
    ensures |r| <= |s|
  {
    var open, close := IndexOf(s, '{'), LastIndexOf(s, '}');
    if open.Some? && close.Some? && open.value < close.value then
      var r := s[open.value..close.value + 1];
      assert ObjectSpan(s, open.value, close.value);
      assert r[0] == s[open.value] && r[|r| - 1] == s[close.value];
      r
    else
      s
  }

  /** Extracting the object a second time changes nothing. */
  lemma ExtractObjectIdempotent(s: string)
    ensures ExtractObject(ExtractObject(s)) == ExtractObject(s)
  {
    if HasObject(s) {
      var r := ExtractObject(s);
      assert ObjectSpan(r, 0, |r| - 1);
      ExtractObjectOfSpan(r, 0, |r| - 1);
      assert r[0..|r|] == r;
    }
  }

  /** The reply text handed to `JSON.parse`: never longer than the reply. */
  function CleanedReply(response: string): (r: string)
    ensures |r| <= |response|
  {
    ExtractObject(StripFences(Trim(response)))
  }

  /** Whenever the unfenced reply holds an object, the cleaned text is braced at both ends. */
  lemma CleanedReplyBraced(response: string)
    ensures var r := CleanedReply(response);
      HasObject(StripFences(Trim(response))) ==> |r| >= 2 && r[0] == '{' && r[|r| - 1] == '}'
  {
    var s := StripFences(Trim(response));
    assert CleanedReply(response) == ExtractObject(s);
  }

  /**
   * The cleaning steps as the endpoint performs them on `jsonText`: trim,
   * strip the fences, then keep the first match of the object pattern, if
   * any.
   */
  method CleanReply(response: string) returns (jsonText: string)
    ensures jsonText == CleanedReply(response)
    ensures !StartsWith(Trim(response), Fence) && !HasObject(Trim(response)) ==> jsonText == Trim(response)
  {
    jsonText := Trim(response);
    if StartsWith(jsonText, JsonFence) {
      jsonText := RemoveMarker(jsonText, JsonFence);
      jsonText := RemoveMarker(jsonText, Fence);
    } else if StartsWith(jsonText, Fence) {
      jsonText := RemoveMarker(jsonText, Fence);
    }
    jsonText := ExtractObject(jsonText);
  }

  /** A JSON object's text with no backtick in it. */
  predicate IsObjectText(body: string) {
    && |body| >= 2 && body[0] == '{' && body[|body| - 1] == '}'
    && (forall k :: 0 <= k < |body| ==> body[k] != '`')
  }

  /** Removing a marker from a text with no backtick but a final fence keeps the text and drops the fence. */
  lemma ClosingFenceRemoved(body: string)
    requires IsObjectText(body)
    ensures RemoveMarker(body + "\n" + Fence, Fence) == body + "\n"
    ensures RemoveMarker(body + "\n" + Fence, JsonFence) == body + "\n" + Fence
  {
    var a := body + "\n";
    assert forall k :: 0 <= k < |a| ==> a[k] != '`';
    RemoveMarkerAfterPlain(a, Fence, Fence);
    RemoveMarkerAfterPlain(a, Fence, JsonFence);
    assert RemoveMarker(Fence, Fence) == [];
    RemoveMarkerOfShort(Fence, JsonFence);
  }

  /** The first `{` and the last `}`, when in that order, are what extraction keeps. */
  lemma ExtractObjectOfSpan(s: string, i: int, j: int)
    requires ObjectSpan(s, i, j)
    ensures ExtractObject(s) == s[i..j + 1]
  {
    IndexOfFirst(s, '{', i);
    LastIndexOfLast(s, '}', j);
    var open, close := IndexOf(s, '{'), LastIndexOf(s, '}');
    assert open.Some? && close.Some? && open.value < close.value;
  }

  /** The object is the whole of a text that is the object followed by a line feed. */
  lemma ObjectBeforeNewline(body: string)
    requires IsObjectText(body)
    ensures ExtractObject(body + "\n") == body
  {
    var x := body + "\n";
    assert ObjectSpan(x, 0, |body| - 1);
    ExtractObjectOfSpan(x, 0, |body| - 1);
    assert x[0..|body|] == body;
  }

  /** An opening marker and the line feed after it go together. */
  lemma OpeningMarkerRemoved(marker: string, t: string)
    requires marker != []
    ensures RemoveMarker(marker + "\n" + t, marker) == RemoveMarker(t, marker)
  {
    var s := marker + "\n" + t;
    assert StartsWith(s, marker);
    assert s[|marker|..] == "\n" + t;
    assert ("\n" + t)[1..] == t;
  }

  /** A reply between fences has no whitespace to trim, so cleaning it starts with the fences. */
  lemma FencedReplyIsTrimmed(opening: string, body: string)
    requires opening == Fence || opening == JsonFence
    ensures var s := opening + "\n" + body + "\n" + Fence;
      CleanedReply(s) == ExtractObject(StripFences(s))
  {
    var s := opening + "\n" + body + "\n" + Fence;
    assert s[0] == '`' && s[|s| - 1] == '`';
    TrimOfTrimmed(s);
  }

  /** Stripping a JSON code block leaves the object and a line feed. */
  lemma JsonFenceStripped(body: string)
    requires IsObjectText(body)
    ensures StripFences(JsonFence + "\n" + body + "\n" + Fence) == body + "\n"
  {
    var tail := body + "\n" + Fence;
    assert JsonFence + "\n" + body + "\n" + Fence == JsonFence + "\n" + tail;
    assert StartsWith(JsonFence + "\n" + tail, JsonFence);
    OpeningMarkerRemoved(JsonFence, tail);
    ClosingFenceRemoved(body);
  }

  /** Stripping a plain code block leaves the object and a line feed. */
  lemma PlainFenceStripped(body: string)
    requires IsObjectText(body)
    ensures StripFences(Fence + "\n" + body + "\n" + Fence) == body + "\n"
  {
    var tail := body + "\n" + Fence;
    var s := Fence + "\n" + tail;
    assert Fence + "\n" + body + "\n" + Fence == s;
    assert s[3] == '\n';
    assert !StartsWith(s, JsonFence);
    assert StartsWith(s, Fence);
    OpeningMarkerRemoved(Fence, tail);
    ClosingFenceRemoved(body);
  }

  /** A JSON object in a JSON code block is cleaned down to the object. */
  lemma JsonFencedObjectRecovered(body: string)
    requires IsObjectText(body)
    ensures CleanedReply(JsonFence + "\n" + body + "\n" + Fence) == body
  {
    FencedReplyIsTrimmed(JsonFence, body);
    JsonFenceStripped(body);
    ObjectBeforeNewline(body);
  }

  /** A JSON object in a plain code block is cleaned down to the object. */
  lemma PlainFencedObjectRecovered(body: string)
    requires IsObjectText(body)
    ensures CleanedReply(Fence + "\n" + body + "\n" + Fence) == body
  {
    FencedReplyIsTrimmed(Fence, body);
    PlainFenceStripped(body);
    ObjectBeforeNewline(body);
  }

  // ---------------------------------------------------------------------
  // Building the plan from the parsed reply.

  /** One meal as the parsed reply gives it. */
  datatype ReplyMeal = ReplyMeal(
    name: string,
    mealType: MealType,
    ingredients: seq<string>,
    instructions: seq<string>,
    nutrition: Option<Nutrition>,
    prepTime: real,
    servings: real)

  /** The parsed reply: `meals` is absent (None) unless it is an array. */
  datatype ParsedReply = ParsedReply(meals: Option<seq<ReplyMeal>>)

  /** The one error the endpoint reports, whatever went wrong inside. */
  const GenerationFailed: string := "فشل في توليد خطة الوجبات. يرجى المحاولة مرة أخرى."

  /** `meal-${timestamp}-${index}`. */
  function MealId(stamp: nat, index: nat): string {
    "meal-" + NatToString(stamp) + "-" + NatToString(index)
  }

  /** `plan-${timestamp}`. */
  function PlanId(stamp: nat): string {
    "plan-" + NatToString(stamp)
  }

  /**
   * The reply's meals mapped to plan meals, in order; the meal at index `i`
   * is stamped with the clock reading `stamp(i)` taken as it is mapped.
   */
  function MapMeals(items: seq<ReplyMeal>, stamp: nat -> nat): (r: seq<Meal>)
    ensures |r| == |items|
    ensures forall i :: 0 <= i < |items| ==>
      && r[i].id == MealId(stamp(i), i)
      && r[i].name == items[i].name && r[i].mealType == items[i].mealType
      && r[i].ingredients == items[i].ingredients && r[i].instructions == items[i].instructions
      && r[i].nutrition == items[i].nutrition
      && r[i].prepTime == items[i].prepTime && r[i].servings == items[i].servings
  {
    seq(|items|, i requires 0 <= i < |items| =>
      var m := items[i];
      Meal(MealId(stamp(i), i), m.name, m.mealType, m.ingredients, m.instructions,
           m.nutrition, m.prepTime, m.servings))
  }

  predicate AllHaveNutrition(items: seq<ReplyMeal>) {
    forall i :: 0 <= i < |items| ==> items[i].nutrition.Some?
  }

  /**
   * The plan built from the parsed reply. Without a `meals` array, or with a
   * meal lacking its nutrition record (the totals step then reads a field of
   * `undefined` and throws), the endpoint fails with its one message.
   * Otherwise the plan holds the mapped meals and their componentwise
   * totals, with the plan id and date from the clock.
   */
  function BuildPlan(parsed: ParsedReply, stamp: nat -> nat, planStamp: nat, date: string)
    : (r: Result<DailyMealPlan, string>)
    ensures r.Failure? <==> parsed.meals.None? || !AllHaveNutrition(parsed.meals.value)
    ensures r.Failure? ==> r.error == GenerationFailed
    ensures r.Success? ==>
      && r.value.id == PlanId(planStamp) && r.value.date == date
      && r.value.meals == MapMeals(parsed.meals.value, stamp)
      && forall f :: r.value.totalNutrition.Get(f) == SumField(r.value.meals, f)
  {
    match parsed.meals
    case None => Failure(GenerationFailed)
    case Some(items) =>
      if !AllHaveNutrition(items) then Failure(GenerationFailed)
      else
        var meals := MapMeals(items, stamp);
        Success(DailyMealPlan(PlanId(planStamp), date, meals, Totals(meals)))
  }

  /** An empty `meals` array gives a plan with no meals and all-zero totals. */
  lemma EmptyReplyGivesEmptyPlan(stamp: nat -> nat, planStamp: nat, date: string)
    ensures BuildPlan(ParsedReply(Some([])), stamp, planStamp, date)
            == Success(DailyMealPlan(PlanId(planStamp), date, [], ZeroNutrition))
  {
    assert MapMeals([], stamp) == [];
    TotalsOfNoMeals();
  }

  /** Two meal ids are equal only for the same clock reading and the same index. */
  lemma MealIdInjective(s1: nat, i1: nat, s2: nat, i2: nat)
    requires MealId(s1, i1) == MealId(s2, i2)
    ensures s1 == s2 && i1 == i2
  {
    var a, b := NatToString(s1), NatToString(s2);
    var t, u := NatToString(i1), NatToString(i2);
    MealIdParts(a, t);
    MealIdParts(b, u);
    SplitAtFirst(a, t, b, u, '-');
    NatToStringInjective(s1, s2);
    NatToStringInjective(i1, i2);
  }

  /** A meal id is "meal-" followed by the clock digits, a dash and the index digits. */
  lemma MealIdParts(stampDigits: string, indexDigits: string)
    ensures "meal-" + stampDigits + "-" + indexDigits == "meal-" + (stampDigits + ['-'] + indexDigits)
    ensures ("meal-" + (stampDigits + ['-'] + indexDigits))[5..] == stampDigits + ['-'] + indexDigits
  {
  }

  /** The meals of a built plan carry pairwise distinct ids, whatever the clock reads. */
  lemma PlanMealIdsDistinct(parsed: ParsedReply, stamp: nat -> nat, planStamp: nat, date: string, i: int, j: int)
    requires BuildPlan(parsed, stamp, planStamp, date).Success?
    requires 0 <= i < j < |BuildPlan(parsed, stamp, planStamp, date).value.meals|
    ensures BuildPlan(parsed, stamp, planStamp, date).value.meals[i].id
            != BuildPlan(parsed, stamp, planStamp, date).value.meals[j].id
  {
    var meals := BuildPlan(parsed, stamp, planStamp, date).value.meals;
    if meals[i].id == meals[j].id {
      assert MealId(stamp(i), i) == MealId(stamp(j), j);
      MealIdInjective(stamp(i), i, stamp(j), j);
    }
  }
}
