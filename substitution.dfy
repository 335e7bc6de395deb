/** recipe_substitution of skills.py: an ordered table of ingredients and
    their substitutes, searched by substring in either direction. */
module Substitution {
  import opened Text

  /** The substitution table, in the dictionary's insertion order. */
  const Table: seq<(string, seq<string>)> := [
    ("butter", [
      "Equal amount of vegetable oil or melted coconut oil",
      "3/4 the amount of applesauce (for baking)",
      "Equal amount of margarine"]),
    ("eggs", [
      "1/4 cup applesauce per egg (for baking)",
      "1 tbsp ground flaxseed + 3 tbsp water per egg (let sit 5 mins)",
      "1/4 cup mashed banana per egg (adds sweetness)"]),
    ("milk", [
      "Equal amount of plant-based milk (almond, soy, oat)",
      "Equal amount of water + 1 tbsp lemon juice or vinegar",
      "3/4 cup evaporated milk + 1/4 cup water"]),
    ("flour", [
      "Equal amount of almond flour (for gluten-free)",
      "3/4 amount of oat flour",
      "1:1 gluten-free flour blend"]),
    ("sugar", [
      "3/4 amount of honey (reduce liquid by 1/4 cup)",
      "3/4 amount of maple syrup (reduce liquid by 3 tbsp)",
      "Equal amount of stevia blend or monk fruit sweetener"]),
    ("heavy cream", [
      "3/4 cup milk + 1/4 cup melted butter",
      "Equal amount of coconut cream",
      "Equal amount of Greek yogurt (for non-whipped uses)"]),
    ("sour cream", [
      "Equal amount of Greek yogurt",
      "Equal amount of cottage cheese blended smooth",
      "1 cup milk + 1 tbsp lemon juice or vinegar"]),
    ("onion", [
      "Equal amount of shallots",
      "1 tbsp onion powder per medium onion",
      "Equal amount of leeks (white and light green parts)"]),
    ("garlic", [
      "1/8 tsp garlic powder per clove",
      "1/2 tsp garlic flakes per clove",
      "Equal amount of shallots (milder flavor)"])
  ]

  /** The partial-match test: the cleaned input lies inside the key, or the
      key inside the input. */
  predicate Matches(key: string, cleaned: string)
  {
    Contains(key, cleaned) || Contains(cleaned, key)
  }

  /** The indices of the matching entries, in table order. */
  function MatchingIndices(table: seq<(string, seq<string>)>, cleaned: string): (r: seq<nat>)
    ensures forall j :: 0 <= j < |r| ==> r[j] < |table| && Matches(table[r[j]].0, cleaned)
    ensures forall k :: 0 <= k < |table| && Matches(table[k].0, cleaned) ==> k in r
    ensures forall j, l :: 0 <= j < l < |r| ==> r[j] < r[l]
  {
    if table == [] then []
    else
      var prefix := MatchingIndices(table[..|table| - 1], cleaned);
      if Matches(table[|table| - 1].0, cleaned) then prefix + [|table| - 1] else prefix
  }

  datatype SubstitutionResult =
    | Found(ingredient: string, substitutions: seq<string>, quantity: string)
    | NoSubstitution(error: string)

  function NotFoundText(ingredient: string): string
  {
    "No substitutions found for '" + ingredient
      + "'. Try common ingredients like butter, eggs, milk, flour, sugar, etc."
  }

  /** What recipe_substitution returns when searching `table`: the entry of
      the first match, its key title-cased, and the quantity or "as
      needed". */
  function SubstitutionIn(table: seq<(string, seq<string>)>, ingredient: string, quantity: string): (r: SubstitutionResult)
    ensures var cleaned := Strip(ToLower(ingredient));
      r.NoSubstitution? <==> forall k :: 0 <= k < |table| ==> !Matches(table[k].0, cleaned)
    ensures r.NoSubstitution? ==> r.error == NotFoundText(ingredient)
    ensures r.Found? ==>
      exists k :: 0 <= k < |table| && FirstMatchAt(table, Strip(ToLower(ingredient)), k)
        && r.ingredient == Title(table[k].0) && r.substitutions == table[k].1
    ensures r.Found? ==> r.quantity == if quantity == "" then "as needed" else quantity
  {
    var cleaned := Strip(ToLower(ingredient));
    var matches := MatchingIndices(table, cleaned);
    if matches == [] then NoSubstitution(NotFoundText(ingredient))
    else
      var k := matches[0];
      FirstOfMatching(table, cleaned);
      Found(Title(table[k].0), table[k].1, if quantity == "" then "as needed" else quantity)
  }

  /** Entry k matches and no earlier entry does. */
  predicate FirstMatchAt(table: seq<(string, seq<string>)>, cleaned: string, k: nat)
    requires k < |table|
  {
    Matches(table[k].0, cleaned) && forall j :: 0 <= j < k ==> !Matches(table[j].0, cleaned)
  }

  lemma FirstOfMatching(table: seq<(string, seq<string>)>, cleaned: string)
    requires MatchingIndices(table, cleaned) != []
    ensures MatchingIndices(table, cleaned)[0] < |table|
    ensures FirstMatchAt(table, cleaned, MatchingIndices(table, cleaned)[0])
  {
  }

  function SubstitutionOf(ingredient: string, quantity: string): SubstitutionResult
  {
    SubstitutionIn(Table, ingredient, quantity)
  }

  /** recipe_substitution: the loop collects every match, then the first
      one is reported. */
  method RecipeSubstitution(ingredient: string, quantity: string) returns (r: SubstitutionResult)
    ensures r == SubstitutionOf(ingredient, quantity)
  {
    r := Search(Table, ingredient, quantity);
  }

  method Search(table: seq<(string, seq<string>)>, ingredient: string, quantity: string) returns (r: SubstitutionResult)
    ensures r == SubstitutionIn(table, ingredient, quantity)
  {
    var cleaned := Strip(ToLower(ingredient));
    var matches: seq<nat> := [];
    var i := 0;
    while i < |table|
      invariant 0 <= i <= |table|
      invariant matches == MatchingIndices(table[..i], cleaned)
    {
      assert table[..i + 1][..i] == table[..i];
      if Contains(table[i].0, cleaned) || Contains(cleaned, table[i].0) {
        matches := matches + [i];
      }
      i := i + 1;
    }
    assert table[..i] == table;
    if matches == [] {
      r := NoSubstitution(NotFoundText(ingredient));
    } else {
      var k := matches[0];
      r := Found(Title(table[k].0), table[k].1, if quantity == "" then "as needed" else quantity);
    }
  }

  /** When the first entry matches, it is the one reported. */
  lemma {:induction false} FirstEntryWins(table: seq<(string, seq<string>)>, ingredient: string, quantity: string)
    requires |table| > 0 && Matches(table[0].0, Strip(ToLower(ingredient)))
    ensures SubstitutionIn(table, ingredient, quantity).Found?
    ensures SubstitutionIn(table, ingredient, quantity).ingredient == Title(table[0].0)
    ensures SubstitutionIn(table, ingredient, quantity).substitutions == table[0].1
  {
    var r := SubstitutionIn(table, ingredient, quantity);
    var k :| 0 <= k < |table| && FirstMatchAt(table, Strip(ToLower(ingredient)), k)
      && r.ingredient == Title(table[k].0) && r.substitutions == table[k].1;
    assert k == 0;
  }

  /** An empty (or all-blank) ingredient is inside every key, so it gets
      the first entry's substitutes: butter. */
  lemma BlankIngredientMatchesButter(ingredient: string, quantity: string)
    requires Strip(ToLower(ingredient)) == ""
    ensures SubstitutionOf(ingredient, quantity).Found?
    ensures SubstitutionOf(ingredient, quantity).ingredient == Title("butter")
    ensures SubstitutionOf(ingredient, quantity).substitutions == Table[0].1
  {
    assert Table[0].0 == "butter";
    FirstEntryWins(Table, ingredient, quantity);
  }

  /** An input that contains a key finds a substitute: the cleaned input
      only has to mention some key, whatever else it says. */
  lemma MentioningAKeyFinds(ingredient: string, quantity: string, k: nat)
    requires k < |Table| && Contains(Strip(ToLower(ingredient)), Table[k].0)
    ensures SubstitutionOf(ingredient, quantity).Found?
  {
    assert Matches(Table[k].0, Strip(ToLower(ingredient)));
  }
}
