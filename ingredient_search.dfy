/** recipe_by_ingredients of skills.py after the fetches: the per-ingredient
    TheMealDB filter results are an input, mapping each requested
    ingredient to the meal stubs returned for it; an ingredient missing from
    the map is a request that raised. */
module IngredientSearch {
  import opened Text
  import opened MealDb

  // ------------------------------------------------------------ the list

  function StripAll(pieces: seq<string>): (r: seq<string>)
    ensures |r| == |pieces|
    ensures forall k :: 0 <= k < |r| ==> r[k] == Strip(pieces[k])
  {
    if pieces == [] then [] else [Strip(pieces[0])] + StripAll(pieces[1..])
  }

  lemma StripAllAvoids(pieces: seq<string>, c: char)
    requires forall k :: 0 <= k < |pieces| ==> c !in pieces[k]
    ensures forall k :: 0 <= k < |pieces| ==> c !in StripAll(pieces)[k]
  {
    forall k | 0 <= k < |pieces|
      ensures c !in StripAll(pieces)[k]
    {
      StripKeepsOut(pieces[k], c);
    }
  }

  /** `[ing.strip() for ing in ingredients.split(',')]`: at least one
      entry, each stripped and free of commas; blank entries stay. */
  function IngredientList(ingredients: string): (r: seq<string>)
    ensures |r| >= 1
    ensures forall k :: 0 <= k < |r| ==> Stripped(r[k]) && ',' !in r[k]
  {
    var pieces := Split(ingredients, ',');
    StripAllAvoids(pieces, ',');
    StripAll(pieces)
  }

  // ------------------------------------------------------ recipes_by_id

  /** One value of `recipes_by_id`: the meal's id and title, the ingredients
      matched so far (`usedIngredients`, whose elements are also the
      `matchedIngredients` set) and `usedIngredientCount`. */
  datatype Entry = Entry(id: Value, title: Value, used: seq<string>, count: nat)

  /** The position of the entry with this id, if there is one. */
  function IndexOf(entries: seq<Entry>, id: Value): (r: Option<nat>)
    ensures r.Some? ==> r.value < |entries| && entries[r.value].id == id
    ensures r.None? ==> forall k :: 0 <= k < |entries| ==> entries[k].id != id
  {
    if entries == [] then None
    else if entries[0].id == id then Some(0)
    else
      match IndexOf(entries[1..], id)
      case None => None
      case Some(k) => Some(k + 1)
  }

  /** One meal of one ingredient's results: a first-seen id gets a new
      entry at the end (dictionary insertion order); then the ingredient is
      recorded unless that entry already has it. */
  function AbsorbMeal(entries: seq<Entry>, ingredient: string, meal: Meal): seq<Entry>
  {
    var id := Get(meal, "idMeal", Null);
    var found := IndexOf(entries, id);
    var es := if found.None? then entries + [Entry(id, Get(meal, "strMeal", Str("")), [], 0)] else entries;
    var k := if found.None? then |entries| else found.value;
    if ingredient in es[k].used then es
    else es[k := es[k].(used := es[k].used + [ingredient], count := es[k].count + 1)]
  }

  /** All meals of one ingredient, in the order returned. */
  function AbsorbMeals(entries: seq<Entry>, ingredient: string, meals: seq<Meal>): seq<Entry>
    decreases meals
  {
    if meals == [] then entries
    else AbsorbMeals(AbsorbMeal(entries, ingredient, meals[0]), ingredient, meals[1..])
  }

  /** The ingredient loop: blank entries are skipped, a failed request
      ends the whole search. */
  function AbsorbAll(entries: seq<Entry>, list: seq<string>, fetched: map<string, seq<Meal>>): Option<seq<Entry>>
    decreases list
  {
    if list == [] then Some(entries)
    else if list[0] == "" then AbsorbAll(entries, list[1..], fetched)
    else if list[0] !in fetched then None
    else AbsorbAll(AbsorbMeals(entries, list[0], fetched[list[0]]), list[1..], fetched)
  }

  predicate Distinct(s: seq<string>)
  {
    forall a, b :: 0 <= a < b < |s| ==> s[a] != s[b]
  }

  predicate DistinctIds(entries: seq<Entry>)
  {
    forall a, b :: 0 <= a < b < |entries| ==> entries[a].id != entries[b].id
  }

  /** What the aggregation keeps true of each entry: the count is the
      number of ingredients recorded, none twice, none blank, each from
      the list. */
  predicate EntryOk(e: Entry, list: seq<string>)
  {
    e.count == |e.used| && Distinct(e.used)
    && forall g :: g in e.used ==> g in list && g != ""
  }

  predicate Valid(entries: seq<Entry>, list: seq<string>)
  {
    DistinctIds(entries) && forall k :: 0 <= k < |entries| ==> EntryOk(entries[k], list)
  }

  lemma AbsorbMealValid(entries: seq<Entry>, ingredient: string, meal: Meal, list: seq<string>)
    requires Valid(entries, list) && ingredient in list && ingredient != ""
    ensures Valid(AbsorbMeal(entries, ingredient, meal), list)
  {
    var id := Get(meal, "idMeal", Null);
    var found := IndexOf(entries, id);
    var es := if found.None? then entries + [Entry(id, Get(meal, "strMeal", Str("")), [], 0)] else entries;
    var k := if found.None? then |entries| else found.value;
    assert Valid(es, list) by {
      if found.None? {
        assert forall j :: 0 <= j < |entries| ==> es[j] == entries[j];
      }
    }
    if ingredient !in es[k].used {
      var e := es[k].(used := es[k].used + [ingredient], count := es[k].count + 1);
      assert EntryOk(e, list) by {
        forall g | g in e.used
          ensures g in list && g != ""
        {
          if g != ingredient { assert g in es[k].used; }
        }
      }
    }
  }

  lemma {:induction false} AbsorbMealsValid(entries: seq<Entry>, ingredient: string, meals: seq<Meal>, list: seq<string>)
    requires Valid(entries, list) && ingredient in list && ingredient != ""
    ensures Valid(AbsorbMeals(entries, ingredient, meals), list)
    decreases meals
  {
    if meals != [] {
      AbsorbMealValid(entries, ingredient, meals[0], list);
      AbsorbMealsValid(AbsorbMeal(entries, ingredient, meals[0]), ingredient, meals[1..], list);
    }
  }

  /** Processing the rest of the list keeps every entry valid for the whole
      list. */
  lemma {:induction false} AbsorbAllValid(entries: seq<Entry>, list: seq<string>, rest: seq<string>, fetched: map<string, seq<Meal>>)
    requires Valid(entries, list) && forall g :: g in rest ==> g in list
    ensures AbsorbAll(entries, rest, fetched).Some? ==> Valid(AbsorbAll(entries, rest, fetched).value, list)
    decreases rest
  {
    if rest != [] {
      assert forall g :: g in rest[1..] ==> g in rest;
      if rest[0] == "" {
        AbsorbAllValid(entries, list, rest[1..], fetched);
      } else if rest[0] in fetched {
        AbsorbMealsValid(entries, rest[0], fetched[rest[0]], list);
        AbsorbAllValid(AbsorbMeals(entries, rest[0], fetched[rest[0]]), list, rest[1..], fetched);
      }
    }
  }

  /** The search fails exactly when some non-blank ingredient's request
      failed. */
  lemma {:induction false} AbsorbAllFails(entries: seq<Entry>, rest: seq<string>, fetched: map<string, seq<Meal>>)
    ensures AbsorbAll(entries, rest, fetched).None?
      <==> exists k :: 0 <= k < |rest| && rest[k] != "" && rest[k] !in fetched
    decreases rest
  {
    if rest != [] {
      var next := if rest[0] == "" || rest[0] !in fetched then entries else AbsorbMeals(entries, rest[0], fetched[rest[0]]);
      AbsorbAllFails(next, rest[1..], fetched);
      assert forall k :: 0 <= k < |rest[1..]| ==> rest[1..][k] == rest[k + 1];
      if exists k :: 0 <= k < |rest| && rest[k] != "" && rest[k] !in fetched {
        var k :| 0 <= k < |rest| && rest[k] != "" && rest[k] !in fetched;
        if k > 0 { assert rest[1..][k - 1] == rest[k]; }
      }
    }
  }

  // ------------------------------------------------------------ ranking

  /** Sorted by count, most matched first. */
  predicate SortedDesc(s: seq<Entry>)
  {
    forall a, b :: 0 <= a < b < |s| ==> s[a].count >= s[b].count
  }

  /** Insert e ahead of every entry with a count no greater than its own. */
  function Insert(e: Entry, sorted: seq<Entry>): (r: seq<Entry>)
    ensures |r| == |sorted| + 1
    ensures multiset(r) == multiset(sorted) + multiset{e}
  {
    if sorted == [] || sorted[0].count <= e.count then [e] + sorted
    else
      assert sorted == [sorted[0]] + sorted[1..];
      [sorted[0]] + Insert(e, sorted[1..])
  }

  /** `recipes.sort(key=count, reverse=True)`: Python's sort is stable, so
      entries with equal counts keep their first-seen order. */
  function SortByCount(s: seq<Entry>): (r: seq<Entry>)
    ensures |r| == |s|
    ensures multiset(r) == multiset(s)
  {
    if s == [] then []
    else
      assert s == [s[0]] + s[1..];
      Insert(s[0], SortByCount(s[1..]))
  }

  lemma {:induction false} InsertSorted(e: Entry, sorted: seq<Entry>)
    requires SortedDesc(sorted)
    ensures SortedDesc(Insert(e, sorted))
    ensures Insert(e, sorted)[0] == e || Insert(e, sorted)[0] == sorted[0]
  {
    if sorted != [] && sorted[0].count > e.count {
      InsertSorted(e, sorted[1..]);
      var t := Insert(e, sorted[1..]);
      assert Insert(e, sorted) == [sorted[0]] + t;
      assert t[0].count <= sorted[0].count by {
        if |sorted| > 1 { assert sorted[1..][0] == sorted[1]; }
      }
    }
  }

  /** The ranking is sorted, with the most matched recipe first. */
  lemma {:induction false} SortByCountSorted(s: seq<Entry>)
    ensures SortedDesc(SortByCount(s))
  {
    if s != [] {
      SortByCountSorted(s[1..]);
      InsertSorted(s[0], SortByCount(s[1..]));
    }
  }

  /** The entries of s with count c, in order. */
  function WithCount(s: seq<Entry>, c: nat): (r: seq<Entry>)
    ensures |r| <= |s|
  {
    if s == [] then []
    else (if s[0].count == c then [s[0]] else []) + WithCount(s[1..], c)
  }

  lemma WithCountCons(x: Entry, s: seq<Entry>, c: nat)
    ensures WithCount([x] + s, c) == (if x.count == c then [x] else []) + WithCount(s, c)
  {
    assert ([x] + s)[1..] == s;
  }

  lemma {:induction false} InsertWithCount(e: Entry, sorted: seq<Entry>, c: nat)
    ensures WithCount(Insert(e, sorted), c) == (if e.count == c then [e] else []) + WithCount(sorted, c)
  {
    var mine := if e.count == c then [e] else [];
    if sorted != [] && sorted[0].count > e.count {
      var first := sorted[0];
      var rest := sorted[1..];
      var head := if first.count == c then [first] else [];
      var t := Insert(e, rest);
      var w := WithCount(rest, c);
      InsertWithCount(e, rest, c);
      assert Insert(e, sorted) == [first] + t;
      WithCountCons(first, t, c);
      assert sorted == [first] + rest;
      WithCountCons(first, rest, c);
      if head == [] {
        assert head + (mine + w) == mine + w;
        assert head + w == w;
      } else {
        assert mine == [];
        assert mine + (head + w) == head + w;
        assert mine + w == w;
      }
    } else {
      WithCountCons(e, sorted, c);
    }
  }

  /** Stability: for every count, the entries with that count appear in
      the ranking in the same order as in the input. */
  lemma {:induction false} SortByCountStable(s: seq<Entry>, c: nat)
    ensures WithCount(SortByCount(s), c) == WithCount(s, c)
  {
    if s != [] {
      SortByCountStable(s[1..], c);
      InsertWithCount(s[0], SortByCount(s[1..]), c);
    }
  }

  // ------------------------------------------------------------- report

  /** One reported recipe, with its matched and missed ingredients. */
  datatype Suggestion = Suggestion(
    id: Value, title: Value,
    usedIngredients: seq<string>, usedIngredientCount: nat,
    missedIngredients: seq<string>)

  /** `[ing for ing in ingredient_list if ing not in matched]`: the list
      minus the matched ingredients, blank entries included, in order. */
  function Missed(list: seq<string>, used: seq<string>): (r: seq<string>)
    ensures |r| <= |list|
    ensures forall g :: g in r <==> g in list && g !in used
  {
    if list == [] then []
    else (if list[0] in used then [] else [list[0]]) + Missed(list[1..], used)
  }

  function Report(e: Entry, list: seq<string>): Suggestion
  {
    Suggestion(e.id, e.title, e.used, e.count, Missed(list, e.used))
  }

  function Reports(top: seq<Entry>, list: seq<string>): (r: seq<Suggestion>)
    ensures |r| == |top|
  {
    if top == [] then [] else Reports(top[..|top| - 1], list) + [Report(top[|top| - 1], list)]
  }

  lemma {:induction false} ReportsAt(top: seq<Entry>, list: seq<string>, k: nat)
    requires k < |top|
    ensures Reports(top, list)[k] == Report(top[k], list)
  {
    if k < |top| - 1 {
      ReportsAt(top[..|top| - 1], list, k);
    }
  }

  datatype Outcome = Suggestions(recipes: seq<Suggestion>) | Failed(message: string)

  const FailedText := "Sorry, I had trouble finding recipes with those ingredients."

  /** The ranked entries, before `[:max_results]`. */
  function Ranked(ingredients: string, fetched: map<string, seq<Meal>>): Option<seq<Entry>>
  {
    match AbsorbAll([], IngredientList(ingredients), fetched)
    case None => None
    case Some(entries) => Some(SortByCount(entries))
  }

  function ByIngredientsOf(ingredients: string, fetched: map<string, seq<Meal>>, maxResults: int): Outcome
  {
    match Ranked(ingredients, fetched)
    case None => Failed(FailedText)
    case Some(ranked) => Suggestions(Reports(SliceTo(ranked, maxResults), IngredientList(ingredients)))
  }

  /** recipe_by_ingredients: the ingredient loop filling recipes_by_id,
      the sort, then the loop over the first max_results adding the missed
      ingredients. */
  method RecipeByIngredients(ingredients: string, fetched: map<string, seq<Meal>>, maxResults: int) returns (r: Outcome)
    ensures r == ByIngredientsOf(ingredients, fetched, maxResults)
  {
    var list := IngredientList(ingredients);
    var aggregated := Aggregate(list, fetched);
    if aggregated.None? {
      return Failed(FailedText);
    }
    var ranked := SortByCount(aggregated.value);
    var top := SliceTo(ranked, maxResults);
    var recipes := AddMissed(top, list);
    r := Suggestions(recipes);
  }

  /** The ingredient loop: blank entries are skipped, and the first failed
      request ends the search. */
  method Aggregate(list: seq<string>, fetched: map<string, seq<Meal>>) returns (r: Option<seq<Entry>>)
    ensures r == AbsorbAll([], list, fetched)
  {
    var entries: seq<Entry> := [];
    var i := 0;
    while i < |list|
      invariant 0 <= i <= |list|
      invariant AbsorbAll([], list, fetched) == AbsorbAll(entries, list[i..], fetched)
    {
      assert list[i..][1..] == list[i + 1..];
      var ingredient := list[i];
      if ingredient == "" {
        i := i + 1;
        continue;
      }
      if ingredient !in fetched {
        return None;
      }
      entries := AddResults(entries, ingredient, fetched[ingredient]);
      i := i + 1;
    }
    r := Some(entries);
  }

  /** The inner loop over one ingredient's meals. */
  method AddResults(entries: seq<Entry>, ingredient: string, meals: seq<Meal>) returns (es: seq<Entry>)
    ensures es == AbsorbMeals(entries, ingredient, meals)
  {
    es := entries;
    var j := 0;
    while j < |meals|
      invariant 0 <= j <= |meals|
      invariant AbsorbMeals(entries, ingredient, meals) == AbsorbMeals(es, ingredient, meals[j..])
    {
      assert meals[j..][1..] == meals[j + 1..];
      ghost var before := es;
      var meal := meals[j];
      var id := Get(meal, "idMeal", Null);
      var found := IndexOf(es, id);
      var k;
      if found.None? {
        es := es + [Entry(id, Get(meal, "strMeal", Str("")), [], 0)];
        k := |es| - 1;
      } else {
        k := found.value;
      }
      if ingredient !in es[k].used {
        es := es[k := es[k].(used := es[k].used + [ingredient], count := es[k].count + 1)];
      }
      assert es == AbsorbMeal(before, ingredient, meal);
      j := j + 1;
    }
  }

  /** The loop over `recipes[:max_results]` that adds the missed
      ingredients and drops the matched set. */
  method AddMissed(top: seq<Entry>, list: seq<string>) returns (recipes: seq<Suggestion>)
    ensures recipes == Reports(top, list)
  {
    recipes := [];
    var n := 0;
    while n < |top|
      invariant 0 <= n <= |top|
      invariant recipes == Reports(top[..n], list)
    {
      assert top[..n + 1][..n] == top[..n];
      recipes := recipes + [Suggestion(top[n].id, top[n].title, top[n].used, top[n].count, Missed(list, top[n].used))];
      n := n + 1;
    }
    assert top[..n] == top;
  }

  // --------------------------------------------------------- properties

  /** The search fails exactly when a non-blank ingredient's request
      failed; the failure message is fixed. */
  lemma ByIngredientsFails(ingredients: string, fetched: map<string, seq<Meal>>, maxResults: int)
    ensures var list := IngredientList(ingredients);
      ByIngredientsOf(ingredients, fetched, maxResults).Failed?
      <==> exists k :: 0 <= k < |list| && list[k] != "" && list[k] !in fetched
    ensures ByIngredientsOf(ingredients, fetched, maxResults).Failed? ==>
      ByIngredientsOf(ingredients, fetched, maxResults).message == FailedText
  {
    AbsorbAllFails([], IngredientList(ingredients), fetched);
  }

  lemma {:induction false} InsertMembers(e: Entry, sorted: seq<Entry>)
    ensures forall x :: x in Insert(e, sorted) <==> x == e || x in sorted
  {
    assert forall x :: x in Insert(e, sorted) <==> x in multiset(Insert(e, sorted));
  }

  lemma {:induction false} InsertDistinctIds(e: Entry, sorted: seq<Entry>)
    requires DistinctIds(sorted) && forall x :: x in sorted ==> x.id != e.id
    ensures DistinctIds(Insert(e, sorted))
  {
    if sorted != [] && sorted[0].count > e.count {
      var rest := sorted[1..];
      assert forall x :: x in rest ==> x in sorted;
      InsertDistinctIds(e, rest);
      InsertMembers(e, rest);
      var t := Insert(e, rest);
      assert forall x :: x in t ==> x.id != sorted[0].id by {
        forall x | x in t
          ensures x.id != sorted[0].id
        {
          if x != e {
            var b :| 0 <= b < |rest| && rest[b] == x;
            assert sorted[b + 1] == x;
          }
        }
      }
    }
  }

  lemma {:induction false} SortByCountDistinctIds(s: seq<Entry>)
    requires DistinctIds(s)
    ensures DistinctIds(SortByCount(s))
  {
    if s != [] {
      var rest := s[1..];
      assert DistinctIds(rest);
      SortByCountDistinctIds(rest);
      assert forall x :: x in SortByCount(rest) ==> x in rest by {
        forall x | x in SortByCount(rest)
          ensures x in rest
        {
          assert x in multiset(SortByCount(rest));
        }
      }
      assert forall x :: x in rest ==> x.id != s[0].id by {
        forall x | x in rest
          ensures x.id != s[0].id
        {
          var b :| 0 <= b < |rest| && rest[b] == x;
          assert s[b + 1] == x;
        }
      }
      InsertDistinctIds(s[0], SortByCount(rest));
    }
  }

  /** What a reported list promises: each meal id at most once, sorted by
      count descending, every count the number of distinct non-blank listed
      ingredients matched, and the missed ingredients the list minus the
      matched ones. */
  ghost predicate SoundReport(rs: seq<Suggestion>, list: seq<string>)
  {
    && (forall a, b :: 0 <= a < b < |rs| ==> rs[a].id != rs[b].id)
    && (forall a, b :: 0 <= a < b < |rs| ==> rs[a].usedIngredientCount >= rs[b].usedIngredientCount)
    && (forall k :: 0 <= k < |rs| ==>
          rs[k].usedIngredientCount == |rs[k].usedIngredients| && Distinct(rs[k].usedIngredients))
    && (forall k, g :: 0 <= k < |rs| && g in rs[k].usedIngredients ==> g in list && g != "")
    && (forall k, g :: 0 <= k < |rs| ==>
          (g in rs[k].missedIngredients <==> g in list && g !in rs[k].usedIngredients))
  }

  /** A successful search reports a sound list of at most max_results
      recipes. */
  lemma ByIngredientsReport(ingredients: string, fetched: map<string, seq<Meal>>, maxResults: int)
    requires ByIngredientsOf(ingredients, fetched, maxResults).Suggestions?
    ensures SoundReport(ByIngredientsOf(ingredients, fetched, maxResults).recipes, IngredientList(ingredients))
    ensures maxResults >= 0 ==> |ByIngredientsOf(ingredients, fetched, maxResults).recipes| <= maxResults
  {
    var list := IngredientList(ingredients);
    var entries := AbsorbAll([], list, fetched).value;
    AbsorbAllValid([], list, list, fetched);
    RankingReport(entries, list, maxResults);
    assert ByIngredientsOf(ingredients, fetched, maxResults).recipes == Reports(SliceTo(SortByCount(entries), maxResults), list);
  }

  /** Ranking valid entries and cutting the ranking yields a sound report. */
  lemma RankingReport(entries: seq<Entry>, list: seq<string>, maxResults: int)
    requires Valid(entries, list)
    ensures SoundReport(Reports(SliceTo(SortByCount(entries), maxResults), list), list)
  {
    var ranked := SortByCount(entries);
    SortByCountDistinctIds(entries);
    SortByCountSorted(entries);
    assert Valid(ranked, list) by {
      forall k | 0 <= k < |ranked|
        ensures EntryOk(ranked[k], list)
      {
        assert ranked[k] in multiset(entries);
      }
    }
    var top := SliceTo(ranked, maxResults);
    assert forall k :: 0 <= k < |top| ==> top[k] == ranked[k];
    ReportsKeep(top, list);
  }

  /** The reports of a valid, sorted ranking keep its ids, counts and
      order, and add exactly the missed ingredients. */
  lemma ReportsKeep(top: seq<Entry>, list: seq<string>)
    requires Valid(top, list) && SortedDesc(top)
    ensures SoundReport(Reports(top, list), list)
  {
    var rs := Reports(top, list);
    forall k | 0 <= k < |top|
      ensures rs[k] == Report(top[k], list)
    {
      ReportsAt(top, list, k);
    }
  }

  // ------------------------------------------------- what was fetched

  /** g is a non-blank listed ingredient whose filter results held the
      meal with this id. */
  ghost predicate Returned(g: string, id: Value, list: seq<string>, fetched: map<string, seq<Meal>>)
  {
    g in list && g != "" && g in fetched && exists m :: m in fetched[g] && Get(m, "idMeal", Null) == id
  }

  /** The (ingredient, meal id) pairs that one ingredient's results hold. */
  function PairsOf(g: string, meals: seq<Meal>): set<(string, Value)>
    decreases meals
  {
    if meals == [] then {} else {(g, Get(meals[0], "idMeal", Null))} + PairsOf(g, meals[1..])
  }

  /** The pairs of every non-blank listed ingredient whose request
      returned. */
  function AllPairs(list: seq<string>, fetched: map<string, seq<Meal>>): set<(string, Value)>
    decreases list
  {
    if list == [] then {}
    else
      var own := if list[0] != "" && list[0] in fetched then PairsOf(list[0], fetched[list[0]]) else {};
      own + AllPairs(list[1..], fetched)
  }

  lemma {:induction false} PairsOfAt(g: string, meals: seq<Meal>, h: string, v: Value)
    ensures (h, v) in PairsOf(g, meals) <==> h == g && exists m :: m in meals && Get(m, "idMeal", Null) == v
    decreases meals
  {
    if meals != [] {
      PairsOfAt(g, meals[1..], h, v);
      assert forall m :: m in meals <==> m == meals[0] || m in meals[1..] by {
        assert meals == [meals[0]] + meals[1..];
      }
    }
  }

  lemma {:induction false} AllPairsAt(list: seq<string>, fetched: map<string, seq<Meal>>, g: string, v: Value)
    ensures (g, v) in AllPairs(list, fetched) <==> Returned(g, v, list, fetched)
    decreases list
  {
    if list != [] {
      AllPairsAt(list[1..], fetched, g, v);
      if list[0] in fetched {
        PairsOfAt(list[0], fetched[list[0]], g, v);
      }
      assert forall h :: h in list <==> h == list[0] || h in list[1..] by {
        assert list == [list[0]] + list[1..];
      }
    }
  }

  /** The entries record exactly the given pairs: an entry has ingredient g
      exactly when (g, its id) is a pair, and every pair's id has an entry. */
  ghost predicate Tracks(entries: seq<Entry>, pairs: set<(string, Value)>)
  {
    && DistinctIds(entries)
    && (forall k :: 0 <= k < |entries| ==> entries[k].used != [])
    && (forall k, g :: 0 <= k < |entries| ==> (g in entries[k].used <==> (g, entries[k].id) in pairs))
    && (forall p :: p in pairs ==> exists k :: 0 <= k < |entries| && entries[k].id == p.1)
  }

  lemma AbsorbMealTracks(entries: seq<Entry>, ingredient: string, meal: Meal, pairs: set<(string, Value)>)
    requires Tracks(entries, pairs)
    ensures Tracks(AbsorbMeal(entries, ingredient, meal), pairs + {(ingredient, Get(meal, "idMeal", Null))})
  {
    var id := Get(meal, "idMeal", Null);
    var found := IndexOf(entries, id);
    var after := pairs + {(ingredient, id)};
    var r := AbsorbMeal(entries, ingredient, meal);
    if found.None? {
      var blank := Entry(id, Get(meal, "strMeal", Str("")), [], 0);
      var added := Entry(id, Get(meal, "strMeal", Str("")), [ingredient], 1);
      assert ingredient !in (entries + [blank])[|entries|].used;
      assert [] + [ingredient] == [ingredient];
      assert (entries + [blank])[|entries| := added] == entries + [added];
      assert r == entries + [added];
      assert forall g :: (g, id) !in pairs;
      forall p | p in after
        ensures exists k :: 0 <= k < |r| && r[k].id == p.1
      {
        if p in pairs {
          var k :| 0 <= k < |entries| && entries[k].id == p.1;
          assert r[k] == entries[k];
        } else {
          assert r[|entries|].id == p.1;
        }
      }
    } else {
      var k := found.value;
      if ingredient in entries[k].used {
        assert after == pairs;
      } else {
        var e := entries[k].(used := entries[k].used + [ingredient], count := entries[k].count + 1);
        assert r == entries[k := e];
        forall j, g | 0 <= j < |r|
          ensures g in r[j].used <==> (g, r[j].id) in after
        {
          if j != k {
            assert r[j] == entries[j] && entries[j].id != id;
          }
        }
        forall p | p in after
          ensures exists j :: 0 <= j < |r| && r[j].id == p.1
        {
          if p in pairs {
            var j :| 0 <= j < |entries| && entries[j].id == p.1;
            assert r[j].id == entries[j].id;
          } else {
            assert r[k].id == p.1;
          }
        }
      }
    }
  }

  lemma {:induction false} AbsorbMealsTracks(entries: seq<Entry>, ingredient: string, meals: seq<Meal>, pairs: set<(string, Value)>)
    requires Tracks(entries, pairs)
    ensures Tracks(AbsorbMeals(entries, ingredient, meals), pairs + PairsOf(ingredient, meals))
    decreases meals
  {
    if meals != [] {
      var step := pairs + {(ingredient, Get(meals[0], "idMeal", Null))};
      AbsorbMealTracks(entries, ingredient, meals[0], pairs);
      AbsorbMealsTracks(AbsorbMeal(entries, ingredient, meals[0]), ingredient, meals[1..], step);
      assert step + PairsOf(ingredient, meals[1..]) == pairs + PairsOf(ingredient, meals);
    }
  }

  lemma {:induction false} AbsorbAllTracks(entries: seq<Entry>, rest: seq<string>, fetched: map<string, seq<Meal>>, pairs: set<(string, Value)>)
    requires Tracks(entries, pairs)
    ensures AbsorbAll(entries, rest, fetched).Some? ==>
      Tracks(AbsorbAll(entries, rest, fetched).value, pairs + AllPairs(rest, fetched))
    decreases rest
  {
    if rest != [] {
      if rest[0] == "" {
        AbsorbAllTracks(entries, rest[1..], fetched, pairs);
      } else if rest[0] in fetched {
        var step := pairs + PairsOf(rest[0], fetched[rest[0]]);
        AbsorbMealsTracks(entries, rest[0], fetched[rest[0]], pairs);
        AbsorbAllTracks(AbsorbMeals(entries, rest[0], fetched[rest[0]]), rest[1..], fetched, step);
        assert step + AllPairs(rest[1..], fetched) == pairs + AllPairs(rest, fetched);
      }
    }
  }

  /** After a successful ingredient loop, each entry holds exactly the
      non-blank listed ingredients whose filter results contained its meal
      and at least one of them (so every entry is a fetched meal), and every
      fetched meal has an entry. */
  lemma AbsorbAllMatches(list: seq<string>, fetched: map<string, seq<Meal>>)
    requires AbsorbAll([], list, fetched).Some?
    ensures var entries := AbsorbAll([], list, fetched).value;
      && (forall k, g :: 0 <= k < |entries| ==>
            (g in entries[k].used <==> Returned(g, entries[k].id, list, fetched)))
      && (forall k :: 0 <= k < |entries| ==> entries[k].used != [])
      && (forall g, m :: g in list && g != "" && g in fetched && m in fetched[g] ==>
            IndexOf(entries, Get(m, "idMeal", Null)).Some?)
  {
    var entries := AbsorbAll([], list, fetched).value;
    var all := AllPairs(list, fetched);
    AbsorbAllTracks([], list, fetched, {});
    assert {} + all == all;
    forall k, g | 0 <= k < |entries|
      ensures g in entries[k].used <==> Returned(g, entries[k].id, list, fetched)
    {
      AllPairsAt(list, fetched, g, entries[k].id);
    }
    forall g, m | g in list && g != "" && g in fetched && m in fetched[g]
      ensures IndexOf(entries, Get(m, "idMeal", Null)).Some?
    {
      AllPairsAt(list, fetched, g, Get(m, "idMeal", Null));
      assert (g, Get(m, "idMeal", Null)).1 == Get(m, "idMeal", Null);
    }
  }

  lemma SortByCountMembers(s: seq<Entry>)
    ensures forall x :: x in SortByCount(s) <==> x in s
  {
    forall x
      ensures x in SortByCount(s) <==> x in s
    {
      assert x in SortByCount(s) <==> x in multiset(SortByCount(s));
      assert x in s <==> x in multiset(s);
    }
  }

  /** Each entry holds exactly the non-blank listed ingredients whose
      results contained its meal, and at least one of them. */
  ghost predicate MatchedBy(entries: seq<Entry>, list: seq<string>, fetched: map<string, seq<Meal>>)
  {
    && (forall k, g :: 0 <= k < |entries| ==>
          (g in entries[k].used <==> Returned(g, entries[k].id, list, fetched)))
    && (forall k :: 0 <= k < |entries| ==> entries[k].used != [])
  }

  /** Entries drawn from matched entries are matched. */
  lemma MatchedByDrawn(entries: seq<Entry>, top: seq<Entry>, list: seq<string>, fetched: map<string, seq<Meal>>)
    requires MatchedBy(entries, list, fetched)
    requires forall x :: x in top ==> x in entries
    ensures MatchedBy(top, list, fetched)
  {
    forall k | 0 <= k < |top|
      ensures top[k].used != []
    {
      assert top[k] in top;
    }
    forall k, g | 0 <= k < |top|
      ensures g in top[k].used <==> Returned(g, top[k].id, list, fetched)
    {
      assert top[k] in top;
      var j :| 0 <= j < |entries| && entries[j] == top[k];
      assert g in entries[j].used <==> Returned(g, entries[j].id, list, fetched);
    }
  }

  /** The reports keep the ids and ingredients of their entries. */
  lemma {:induction false} ReportsMatched(top: seq<Entry>, list: seq<string>, fetched: map<string, seq<Meal>>)
    requires MatchedBy(top, list, fetched)
    ensures var rs := Reports(top, list);
      && (forall k, g :: 0 <= k < |rs| ==>
            (g in rs[k].usedIngredients <==> Returned(g, rs[k].id, list, fetched)))
      && (forall k :: 0 <= k < |rs| ==> rs[k].usedIngredients != [])
  {
    var rs := Reports(top, list);
    forall k | 0 <= k < |rs|
      ensures rs[k].usedIngredients != []
    {
      ReportsAt(top, list, k);
    }
    forall k, g | 0 <= k < |rs|
      ensures g in rs[k].usedIngredients <==> Returned(g, rs[k].id, list, fetched)
    {
      ReportsAt(top, list, k);
      assert g in top[k].used <==> Returned(g, top[k].id, list, fetched);
    }
  }

  /** A successful search reports, for each recipe, exactly the non-blank
      listed ingredients whose filter results contained that meal, and at
      least one of them, so only meals some such ingredient returned. */
  lemma ByIngredientsMatched(ingredients: string, fetched: map<string, seq<Meal>>, maxResults: int)
    requires ByIngredientsOf(ingredients, fetched, maxResults).Suggestions?
    ensures var list := IngredientList(ingredients);
      var rs := ByIngredientsOf(ingredients, fetched, maxResults).recipes;
      && (forall k, g :: 0 <= k < |rs| ==>
            (g in rs[k].usedIngredients <==> Returned(g, rs[k].id, list, fetched)))
      && (forall k :: 0 <= k < |rs| ==> rs[k].usedIngredients != [])
  {
    var list := IngredientList(ingredients);
    var entries := AbsorbAll([], list, fetched).value;
    var ranked := SortByCount(entries);
    var top := SliceTo(ranked, maxResults);
    assert ByIngredientsOf(ingredients, fetched, maxResults).recipes == Reports(top, list);
    AbsorbAllMatches(list, fetched);
    SortByCountMembers(entries);
    assert forall x :: x in top ==> x in ranked;
    MatchedByDrawn(entries, top, list, fetched);
    ReportsMatched(top, list, fetched);
  }

  /** Every meal some non-blank listed ingredient returned is ranked. */
  lemma RankedCoversFetched(list: seq<string>, fetched: map<string, seq<Meal>>)
    requires AbsorbAll([], list, fetched).Some?
    ensures var ranked := SortByCount(AbsorbAll([], list, fetched).value);
      forall g, m :: g in list && g != "" && g in fetched && m in fetched[g] ==>
        IndexOf(ranked, Get(m, "idMeal", Null)).Some?
  {
    var entries := AbsorbAll([], list, fetched).value;
    var ranked := SortByCount(entries);
    AbsorbAllMatches(list, fetched);
    SortByCountMembers(entries);
    forall g, m | g in list && g != "" && g in fetched && m in fetched[g]
      ensures IndexOf(ranked, Get(m, "idMeal", Null)).Some?
    {
      var k := IndexOf(entries, Get(m, "idMeal", Null)).value;
      assert entries[k] in ranked;
      var j :| 0 <= j < |ranked| && ranked[j] == entries[k];
    }
  }

  /** The reports of a cut ranking are its first entries, and every entry
      cut off has a count no greater than any reported one. */
  lemma CutRanking(ranked: seq<Entry>, list: seq<string>, maxResults: int)
    requires SortedDesc(ranked)
    ensures var rs := Reports(SliceTo(ranked, maxResults), list);
      && |rs| == |SliceTo(ranked, maxResults)|
      && (forall k :: 0 <= k < |rs| ==>
            rs[k].id == ranked[k].id && rs[k].usedIngredients == ranked[k].used
            && rs[k].usedIngredientCount == ranked[k].count)
      && (forall k, j :: 0 <= k < |rs| <= j < |ranked| ==>
            rs[k].usedIngredientCount >= ranked[j].count)
  {
    var top := SliceTo(ranked, maxResults);
    var rs := Reports(top, list);
    forall k | 0 <= k < |rs|
      ensures rs[k] == Report(ranked[k], list)
    {
      ReportsAt(top, list, k);
      assert top[k] == ranked[k];
    }
  }

  /** The report is the ranking of every fetched meal cut at max_results:
      every meal some non-blank listed ingredient returned is ranked,
      recipe k is ranked entry k, and a ranked meal left out matched no
      more ingredients than any reported one. */
  lemma ByIngredientsRanking(ingredients: string, fetched: map<string, seq<Meal>>, maxResults: int)
    requires ByIngredientsOf(ingredients, fetched, maxResults).Suggestions?
    ensures Ranked(ingredients, fetched).Some?
    ensures var list := IngredientList(ingredients);
      var ranked := Ranked(ingredients, fetched).value;
      var rs := ByIngredientsOf(ingredients, fetched, maxResults).recipes;
      && (forall g, m :: g in list && g != "" && g in fetched && m in fetched[g] ==>
            IndexOf(ranked, Get(m, "idMeal", Null)).Some?)
      && |rs| == |SliceTo(ranked, maxResults)|
      && (forall k :: 0 <= k < |rs| ==>
            rs[k].id == ranked[k].id && rs[k].usedIngredients == ranked[k].used)
      && (forall k, j :: 0 <= k < |rs| <= j < |ranked| ==>
            rs[k].usedIngredientCount >= ranked[j].count)
  {
    var list := IngredientList(ingredients);
    var entries := AbsorbAll([], list, fetched).value;
    var ranked := SortByCount(entries);
    assert Ranked(ingredients, fetched) == Some(ranked);
    assert ByIngredientsOf(ingredients, fetched, maxResults).recipes == Reports(SliceTo(ranked, maxResults), list);
    RankedCoversFetched(list, fetched);
    SortByCountSorted(entries);
    CutRanking(ranked, list, maxResults);
  }
}
