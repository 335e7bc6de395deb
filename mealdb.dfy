/** The TheMealDB normalisation inside search_recipes and get_recipe_details
    of skills.py: ingredient slots 1..20, instruction lines split and
    numbered, the cuisine filter and the not-found case. The HTTP fetch is
    not modelled: the decoded `meals` array is an input. */
module MealDb {
  import opened Text

  /** A JSON field value as TheMealDB sends it: a string or null. */
  datatype Value = Str(s: string) | Null

  /** One meal object. */
  type Meal = map<string, Value>

  /** `meal.get(key, default)`: a stored null stays null. */
  function Get(meal: Meal, key: string, default: Value): Value
  {
    if key in meal then meal[key] else default
  }

  /** The text of a field where a missing field, a null and "" all count as
      falsy and so behave alike (`x.strip() if x else ""`). */
  function FieldText(meal: Meal, key: string): string
  {
    if key in meal && meal[key].Str? then meal[key].s else ""
  }

  function IngredientKey(j: nat): string { "strIngredient" + NatToString(j) }
  function MeasureKey(j: nat): string { "strMeasure" + NatToString(j) }

  datatype Ingredient = Ingredient(name: string, amount: string, unit: string, original: string)

  /** What one reported ingredient looks like: a non-blank stripped name, a
      stripped measure, no unit, and the measure and name joined by a space
      (just the name when there is no measure). */
  predicate WellFormed(i: Ingredient)
  {
    i.name != "" && Stripped(i.name) && Stripped(i.amount) && i.unit == ""
    && i.original == Original(i.amount, i.name)
  }

  /** The `original` text: measure and name joined by a space, or just the
      name when there is no measure. */
  function Original(amount: string, name: string): string
  {
    if amount == "" then name else amount + " " + name
  }

  /** The closed form agrees with the source's `f"{measure} {name}".strip()`
      for stripped parts and a non-blank name. */
  lemma OriginalIsStrippedJoin(amount: string, name: string)
    requires Stripped(amount) && Stripped(name) && name != ""
    ensures Original(amount, name) == Strip(amount + " " + name)
  {
    StripJoin(amount, name);
  }

  /** Slot j of a meal: present when its ingredient field is non-blank. */
  function Slot(meal: Meal, j: nat): (r: Option<Ingredient>)
    ensures r.Some? ==> WellFormed(r.value)
  {
    var name := Strip(FieldText(meal, IngredientKey(j)));
    var amount := Strip(FieldText(meal, MeasureKey(j)));
    if name == "" then None else Some(Ingredient(name, amount, "", Original(amount, name)))
  }

  /** The ingredients of slots 1..n, in slot order. */
  function SlotIngredients(meal: Meal, n: nat): (r: seq<Ingredient>)
    ensures |r| <= n
  {
    if n == 0 then []
    else
      SlotIngredients(meal, n - 1) + Listed(Slot(meal, n))
  }

  /** An optional ingredient as a list of zero or one items. */
  function Listed(o: Option<Ingredient>): (r: seq<Ingredient>)
    ensures |r| <= 1
  {
    if o.Some? then [o.value] else []
  }

  /** Every reported ingredient is well formed. */
  lemma {:induction false} SlotIngredientsWellFormed(meal: Meal, n: nat)
    ensures forall k :: 0 <= k < |SlotIngredients(meal, n)| ==> WellFormed(SlotIngredients(meal, n)[k])
  {
    if n > 0 {
      SlotIngredientsWellFormed(meal, n - 1);
      var p := SlotIngredients(meal, n - 1);
      var r := SlotIngredients(meal, n);
      forall k | 0 <= k < |r|
        ensures WellFormed(r[k])
      {
        if k < |p| {
          assert r[k] == p[k];
        } else {
          assert r[k] == Slot(meal, n).value;
        }
      }
    }
  }

  /** TheMealDB has at most 20 ingredient slots. */
  const SlotCount: nat := 20

  function Ingredients(meal: Meal): (r: seq<Ingredient>)
    ensures |r| <= SlotCount
  {
    SlotIngredients(meal, SlotCount)
  }

  /** The `for j in range(1, 21)` loop. */
  method ExtractIngredients(meal: Meal) returns (ingredients: seq<Ingredient>)
    ensures ingredients == Ingredients(meal)
  {
    ingredients := [];
    var j := 1;
    while j <= SlotCount
      invariant 1 <= j <= SlotCount + 1
      invariant ingredients == SlotIngredients(meal, j - 1)
    {
      var slot := Slot(meal, j);
      if slot.Some? {
        ingredients := ingredients + [slot.value];
      }
      j := j + 1;
    }
  }

  lemma NatToStringInjective(a: nat, b: nat)
    requires NatToString(a) == NatToString(b)
    ensures a == b
  {
    DigitsValueOfNatToString(a);
    DigitsValueOfNatToString(b);
  }

  /** Distinct slots use distinct keys, and no measure key is an ingredient
      key. */
  lemma KeysDistinct(i: nat, j: nat)
    requires i != j
    ensures IngredientKey(i) != IngredientKey(j) && MeasureKey(i) != IngredientKey(j)
  {
    var p := "strIngredient";
    if IngredientKey(i) == IngredientKey(j) {
      assert IngredientKey(i)[|p|..] == NatToString(i);
      assert IngredientKey(j)[|p|..] == NatToString(j);
      NatToStringInjective(i, j);
    }
    assert MeasureKey(i)[3] == 'M' && IngredientKey(j)[3] == 'I';
  }

  /** A field outside slots 1..n does not change their ingredients. */
  lemma SlotIngredientsFrame(meal: Meal, n: nat, j: nat, v: Value)
    requires j > n
    ensures SlotIngredients(meal[IngredientKey(j) := v], n) == SlotIngredients(meal, n)
  {
    var key := IngredientKey(j);
    var m := meal[key := v];
    forall i | 1 <= i <= n
      ensures Slot(m, i) == Slot(meal, i)
    {
      KeysDistinct(i, j);
      SlotFrame(meal, i, key, v);
    }
    SlotsAgree(m, meal, n);
  }

  /** Meals whose slots 1..n agree report the same ingredients for them. */
  lemma {:induction false} SlotsAgree(a: Meal, b: Meal, n: nat)
    requires forall i :: 1 <= i <= n ==> Slot(a, i) == Slot(b, i)
    ensures SlotIngredients(a, n) == SlotIngredients(b, n)
  {
    if n > 0 {
      SlotsAgree(a, b, n - 1);
      var slot := Slot(a, n);
      assert Slot(b, n) == slot;
      assert SlotIngredients(a, n) == SlotIngredients(a, n - 1) + Listed(slot);
    }
  }

  /** A slot reads only its own two fields. */
  lemma SlotFrame(meal: Meal, n: nat, key: string, v: Value)
    requires key != IngredientKey(n) && key != MeasureKey(n)
    ensures Slot(meal[key := v], n) == Slot(meal, n)
  {
    var m := meal[key := v];
    assert FieldText(m, IngredientKey(n)) == FieldText(meal, IngredientKey(n));
    assert FieldText(m, MeasureKey(n)) == FieldText(meal, MeasureKey(n));
  }

  /** An ingredient beyond slot 20 is never reported. */
  lemma SlotsBeyondTwentyIgnored(meal: Meal, j: nat, v: Value)
    requires j > SlotCount
    ensures Ingredients(meal[IngredientKey(j) := v]) == Ingredients(meal)
  {
    SlotIngredientsFrame(meal, SlotCount, j, v);
  }

  // ------------------------------------------------------------ instructions

  datatype Step = Step(number: nat, text: string)

  /** Steps of the given lines: each line stripped, kept when longer than ten
      characters, and numbered from 1 without gaps. */
  function StepsOf(lines: seq<string>): (r: seq<Step>)
    ensures |r| <= |lines|
    ensures forall k :: 0 <= k < |r| ==> r[k].number == k + 1
    ensures forall k :: 0 <= k < |r| ==> |r[k].text| > 10 && Stripped(r[k].text)
  {
    if lines == [] then []
    else
      var p := StepsOf(lines[..|lines| - 1]);
      var s := Strip(lines[|lines| - 1]);
      if s != "" && |s| > 10 then p + [Step(|p| + 1, s)] else p
  }

  /** A character absent from every line is absent from every step. */
  lemma {:induction false} StepsAvoid(lines: seq<string>, c: char)
    requires forall i :: 0 <= i < |lines| ==> c !in lines[i]
    ensures forall k :: 0 <= k < |StepsOf(lines)| ==> c !in StepsOf(lines)[k].text
  {
    if lines != [] {
      var init := lines[..|lines| - 1];
      assert forall i :: 0 <= i < |init| ==> init[i] == lines[i];
      StepsAvoid(init, c);
      StripKeepsOut(lines[|lines| - 1], c);
    }
  }

  /** The instruction text's lines: CR LF turned into LF, then split. */
  function InstructionSteps(text: string): (r: seq<Step>)
    ensures forall k :: 0 <= k < |r| ==> '\n' !in r[k].text
    ensures text == "" ==> r == []
  {
    if text == "" then []
    else
      var lines := Split(ReplaceCrlf(text), '\n');
      StepsAvoid(lines, '\n');
      StepsOf(lines)
  }

  /** The step loop with its running `step_num`. */
  method ParseSteps(text: string) returns (steps: seq<Step>)
    ensures steps == InstructionSteps(text)
  {
    steps := [];
    if text != "" {
      var lines := Split(ReplaceCrlf(text), '\n');
      var stepNum := 1;
      var i := 0;
      while i < |lines|
        invariant 0 <= i <= |lines|
        invariant steps == StepsOf(lines[..i])
        invariant stepNum == |steps| + 1
      {
        assert lines[..i + 1][..i] == lines[..i];
        var step := Strip(lines[i]);
        if step != "" && |step| > 10 {
          steps := steps + [Step(stepNum, step)];
          stepNum := stepNum + 1;
        }
        i := i + 1;
      }
      assert lines[..i] == lines;
    }
  }

  // ----------------------------------------------------------------- recipes

  /** The fields of a recipe that carry logic; image, source URL, summary,
      fixed nutrition and the default times are left out. */
  datatype Recipe = Recipe(
    id: Value, title: Value, area: Value,
    ingredients: seq<Ingredient>, instructions: seq<Step>)

  function RecipeOf(meal: Meal, titleDefault: string): Recipe
  {
    Recipe(Get(meal, "idMeal", Null), Get(meal, "strMeal", Str(titleDefault)), Get(meal, "strArea", Str("")),
      Ingredients(meal), InstructionSteps(FieldText(meal, "strInstructions")))
  }

  /** `meals[:max_results]`, Python slicing: a negative bound counts from the
      end. */
  function SliceTo<T>(s: seq<T>, n: int): (r: seq<T>)
    ensures r <= s
    ensures n >= 0 ==> |r| == if n < |s| then n else |s|
    ensures n < 0 ==> |r| == if -n < |s| then |s| + n else 0
  {
    if n >= 0 then (if n < |s| then s[..n] else s)
    else if -n < |s| then s[..|s| + n] else []
  }

  /** The cuisine filter on one meal: None when the area is null and a
      cuisine was asked for (`None.lower()` raises), else whether to keep it. */
  function CuisineKeeps(meal: Meal, cuisine: string): (r: Option<bool>)
    ensures r.None? <==> cuisine != "" && Get(meal, "strArea", Str("")).Null?
    ensures cuisine == "" ==> r == Some(true)
    ensures r == Some(true) && cuisine != "" ==>
      Contains(ToLower(Get(meal, "strArea", Str("")).s), ToLower(cuisine))
    ensures r == Some(false) ==>
      !Contains(ToLower(Get(meal, "strArea", Str("")).s), ToLower(cuisine))
  {
    if cuisine == "" then Some(true)
    else
      match Get(meal, "strArea", Str(""))
      case Null => None
      case Str(area) => Some(Contains(ToLower(area), ToLower(cuisine)))
  }

  datatype SearchOutcome = Recipes(recipes: seq<Recipe>) | SearchFailed(message: string)

  const SearchFailedText := "Something went wrong while searching for recipes."

  /** The cuisine filter over a list of meals: the meals kept, in order, or
      None when some decision raises. */
  function KeptMeals(meals: seq<Meal>, cuisine: string): (r: Option<seq<Meal>>)
    ensures r.None? <==> exists k :: 0 <= k < |meals| && CuisineKeeps(meals[k], cuisine).None?
    ensures r.Some? ==> |r.value| <= |meals|
    ensures r.Some? ==> forall m :: m in r.value ==> m in meals && CuisineKeeps(m, cuisine) == Some(true)
    ensures r.Some? ==> forall m :: m in meals && CuisineKeeps(m, cuisine) == Some(true) ==> m in r.value
  {
    if meals == [] then Some([])
    else
      var init := meals[..|meals| - 1];
      var last := meals[|meals| - 1];
      assert forall k :: 0 <= k < |init| ==> meals[k] == init[k];
      assert meals == init + [last];
      match CuisineKeeps(last, cuisine)
      case None => None
      case Some(keep) =>
        var p := KeptMeals(init, cuisine);
        if p.None? then None
        else if keep then Some(p.value + [last])
        else p
  }

  /** Each kept meal normalised with the search's default title. */
  function RecipesOf(meals: seq<Meal>): (r: seq<Recipe>)
    ensures |r| == |meals|
  {
    if meals == [] then [] else RecipesOf(meals[..|meals| - 1]) + [RecipeOf(meals[|meals| - 1], "Unknown Recipe")]
  }

  lemma {:induction false} RecipesOfAt(meals: seq<Meal>, k: nat)
    requires k < |meals|
    ensures RecipesOf(meals)[k] == RecipeOf(meals[k], "Unknown Recipe")
  {
    if k < |meals| - 1 {
      var init := meals[..|meals| - 1];
      RecipesOfAt(init, k);
    }
  }

  function SearchOf(meals: seq<Meal>, cuisine: string, maxResults: int): SearchOutcome
  {
    match KeptMeals(SliceTo(meals, maxResults), cuisine)
    case None => SearchFailed(SearchFailedText)
    case Some(kept) => Recipes(RecipesOf(kept))
  }

  /** search_recipes after the fetch: the loop over `meals[:max_results]`. */
  method SearchRecipes(meals: seq<Meal>, cuisine: string, maxResults: int) returns (r: SearchOutcome)
    ensures r == SearchOf(meals, cuisine, maxResults)
  {
    var window := SliceTo(meals, maxResults);
    var recipes: seq<Recipe> := [];
    ghost var kept: seq<Meal> := [];
    var i := 0;
    while i < |window|
      invariant 0 <= i <= |window|
      invariant KeptMeals(window[..i], cuisine) == Some(kept)
      invariant recipes == RecipesOf(kept)
    {
      var meal := window[i];
      var recipe := BuildRecipe(meal);
      KeepStep(window, i, cuisine, kept);
      if cuisine != "" {
        var area := Get(meal, "strArea", Str(""));
        if area.Null? {
          r := SearchFailed(SearchFailedText);
          FailureStays(window, i + 1, cuisine);
          return;
        }
        if !Contains(ToLower(area.s), ToLower(cuisine)) {
          i := i + 1;
          continue;
        }
      }
      recipes := recipes + [recipe];
      kept := kept + [meal];
      i := i + 1;
    }
    assert window[..i] == window;
    r := Recipes(recipes);
  }

  /** The recipe dictionary the search builds for one meal. */
  method BuildRecipe(meal: Meal) returns (recipe: Recipe)
    ensures recipe == RecipeOf(meal, "Unknown Recipe")
  {
    var ingredients := ExtractIngredients(meal);
    var steps := ParseSteps(FieldText(meal, "strInstructions"));
    recipe := Recipe(Get(meal, "idMeal", Null), Get(meal, "strMeal", Str("Unknown Recipe")),
      Get(meal, "strArea", Str("")), ingredients, steps);
  }

  /** One more meal through the filter. */
  lemma KeepStep(meals: seq<Meal>, i: nat, cuisine: string, kept: seq<Meal>)
    requires i < |meals| && KeptMeals(meals[..i], cuisine) == Some(kept)
    ensures CuisineKeeps(meals[i], cuisine) == Some(true) ==> KeptMeals(meals[..i + 1], cuisine) == Some(kept + [meals[i]])
    ensures CuisineKeeps(meals[i], cuisine) == Some(false) ==> KeptMeals(meals[..i + 1], cuisine) == Some(kept)
    ensures RecipesOf(kept + [meals[i]]) == RecipesOf(kept) + [RecipeOf(meals[i], "Unknown Recipe")]
  {
    assert meals[..i + 1][..i] == meals[..i];
    assert (kept + [meals[i]])[..|kept|] == kept;
  }

  /** One meal is kept alone, dropped, or fails the filter. */
  lemma KeptMealsSingle(m: Meal, cuisine: string)
    ensures KeptMeals([m], cuisine) ==
      match CuisineKeeps(m, cuisine)
      case None => None
      case Some(keep) => Some(if keep then [m] else [])
  {
    assert [m][..0] == [] && [m][0] == m;
    assert KeptMeals([], cuisine) == Some([]);
    assert [] + [m] == [m];
  }

  /** The filter works meal by meal: on a concatenation it keeps the kept
      meals of each part, in order and with their repetitions, and fails
      when either part fails. */
  lemma {:induction false} KeptMealsAppend(a: seq<Meal>, b: seq<Meal>, cuisine: string)
    ensures KeptMeals(a + b, cuisine) ==
      if KeptMeals(a, cuisine).Some? && KeptMeals(b, cuisine).Some?
      then Some(KeptMeals(a, cuisine).value + KeptMeals(b, cuisine).value)
      else None
    decreases |b|
  {
    if b == [] {
      assert a + b == a;
      assert KeptMeals(b, cuisine) == Some([]);
      if KeptMeals(a, cuisine).Some? {
        assert KeptMeals(a, cuisine).value + [] == KeptMeals(a, cuisine).value;
      }
    } else {
      var init := b[..|b| - 1];
      var last := b[|b| - 1];
      KeptMealsAppend(a, init, cuisine);
      assert (a + b)[..|a + b| - 1] == a + init;
      assert (a + b)[|a + b| - 1] == last;
      match CuisineKeeps(last, cuisine)
      case None =>
      case Some(keep) =>
        if KeptMeals(a, cuisine).Some? && KeptMeals(init, cuisine).Some? && keep {
          var x := KeptMeals(a, cuisine).value;
          var y := KeptMeals(init, cuisine).value;
          assert x + y + [last] == x + (y + [last]);
        }
    }
  }

  /** Once a prefix fails, the whole list fails. */
  lemma FailureStays(meals: seq<Meal>, n: nat, cuisine: string)
    requires n <= |meals| && KeptMeals(meals[..n], cuisine).None?
    ensures KeptMeals(meals, cuisine).None?
  {
    var k :| 0 <= k < n && CuisineKeeps(meals[..n][k], cuisine).None?;
    assert meals[..n][k] == meals[k];
  }

  /** Without a cuisine every meal of the window is kept, in order. */
  lemma {:induction false} NoCuisineKeepsAll(meals: seq<Meal>)
    ensures KeptMeals(meals, "") == Some(meals)
  {
    if meals != [] {
      NoCuisineKeepsAll(meals[..|meals| - 1]);
      assert meals[..|meals| - 1] + [meals[|meals| - 1]] == meals;
    }
  }

  /** Without a cuisine the search reports one recipe per meal of the
      window, in order. */
  lemma NoCuisineReportsAll(meals: seq<Meal>, maxResults: int, k: nat)
    requires k < |SliceTo(meals, maxResults)|
    ensures SearchOf(meals, "", maxResults).Recipes?
    ensures |SearchOf(meals, "", maxResults).recipes| == |SliceTo(meals, maxResults)|
    ensures SearchOf(meals, "", maxResults).recipes[k] == RecipeOf(meals[k], "Unknown Recipe")
  {
    NoCuisineKeepsAll(SliceTo(meals, maxResults));
    RecipesOfAt(SliceTo(meals, maxResults), k);
  }

  /** Search results never exceed max_results. */
  lemma SearchBounded(meals: seq<Meal>, cuisine: string, maxResults: int)
    requires maxResults >= 0
    ensures SearchOf(meals, cuisine, maxResults).Recipes? ==> |SearchOf(meals, cuisine, maxResults).recipes| <= maxResults
  {
  }

  /** Every reported recipe's area contains the requested cuisine,
      case-insensitively. */
  lemma SearchMatchesCuisine(meals: seq<Meal>, cuisine: string, maxResults: int, k: nat)
    requires cuisine != "" && SearchOf(meals, cuisine, maxResults).Recipes?
    requires k < |SearchOf(meals, cuisine, maxResults).recipes|
    ensures var r := SearchOf(meals, cuisine, maxResults).recipes[k];
      r.area.Str? && Contains(ToLower(r.area.s), ToLower(cuisine))
  {
    var kept := KeptMeals(SliceTo(meals, maxResults), cuisine).value;
    RecipesOfAt(kept, k);
    assert kept[k] in kept;
  }

  /** A negative max_results drops meals from the end, as Python slicing
      does. */
  lemma NegativeMaxDropsFromEnd(meals: seq<Meal>)
    requires |meals| >= 1
    ensures SearchOf(meals, "", -1).Recipes? && |SearchOf(meals, "", -1).recipes| == |meals| - 1
  {
    NoCuisineKeepsAll(SliceTo(meals, -1));
  }

  // ----------------------------------------------------------------- details

  datatype DetailsOutcome = Details(recipe: Recipe) | NotFound(message: string)

  /** get_recipe_details after the fetch: no meals, or an empty first meal,
      is "not found"; otherwise the first meal is normalised with an empty
      default title. */
  function RecipeDetails(meals: seq<Meal>): (r: DetailsOutcome)
    ensures r.NotFound? <==> meals == [] || meals[0] == map[]
    ensures r.NotFound? ==> r.message == "Sorry, I couldn't find that recipe."
    ensures r.Details? ==> r.recipe.ingredients == Ingredients(meals[0])
    ensures r.Details? ==> r.recipe.instructions == InstructionSteps(FieldText(meals[0], "strInstructions"))
    ensures r.Details? ==> r.recipe.title == Get(meals[0], "strMeal", Str(""))
    ensures r.Details? ==> r.recipe.id == Get(meals[0], "idMeal", Null)
  {
    if meals == [] || meals[0] == map[] then NotFound("Sorry, I couldn't find that recipe.")
    else Details(RecipeOf(meals[0], ""))
  }
}
