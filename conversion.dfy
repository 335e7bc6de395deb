/** convert_units of skills.py and the unit-name normalisation that app.py
    applies before calling it. Amounts are exact reals, so the ratios below
    are the table's decimal literals with no rounding. */
module Conversion {
  import opened Text

  /** skills.py's `to_ml` table, `to_ml.get(unit)`: the size of one unit
      in millilitres (volume) or grams (weight), for the 21 known names. */
  function Factor(unit: string): (r: Option<real>)
    ensures r.Some? ==> r.value > 0.0
  {
    match unit
    case "teaspoon" => Some(4.929)
    case "tsp" => Some(4.929)
    case "tablespoon" => Some(14.787)
    case "tbsp" => Some(14.787)
    case "fluid_ounce" => Some(29.574)
    case "fl_oz" => Some(29.574)
    case "cup" => Some(236.588)
    case "pint" => Some(473.176)
    case "quart" => Some(946.353)
    case "liter" => Some(1000.0)
    case "l" => Some(1000.0)
    case "milliliter" => Some(1.0)
    case "ml" => Some(1.0)
    case "ounce" => Some(28.35)
    case "oz" => Some(28.35)
    case "pound" => Some(453.592)
    case "lb" => Some(453.592)
    case "gram" => Some(1.0)
    case "g" => Some(1.0)
    case "kilogram" => Some(1000.0)
    case "kg" => Some(1000.0)
    case _ => None
  }

  /** The amount, given in a unit of size `from`, expressed in a unit of
      size `to`. */
  function Rescale(amount: real, from: real, to: real): (x: real)
    requires to > 0.0
    ensures x * to == amount * from
  {
    amount * from / to
  }

  lemma RescaleRoundTrip(amount: real, a: real, b: real)
    requires a > 0.0 && b > 0.0
    ensures Rescale(Rescale(amount, a, b), b, a) == amount
  {
    var x := Rescale(amount, a, b);
    assert Rescale(x, b, a) * a == amount * a;
  }

  lemma RescaleCompose(amount: real, a: real, b: real, c: real)
    requires a > 0.0 && b > 0.0 && c > 0.0
    ensures Rescale(Rescale(amount, a, b), b, c) == Rescale(amount, a, c)
  {
    var x := Rescale(amount, a, b);
    assert Rescale(x, b, c) * c == amount * a;
  }

  /** The unit list of the error message: the table's keys with '_' shown
      as ' ', de-duplicated and sorted. */
  const AvailableUnits: seq<string> := [
    "cup", "fl oz", "fluid ounce", "g", "gram", "kg", "kilogram", "l", "lb",
    "liter", "milliliter", "ml", "ounce", "oz", "pint", "pound", "quart",
    "tablespoon", "tbsp", "teaspoon", "tsp"
  ]

  /** `unit.lower().replace(" ", "_")`: as long as the name, with no
      capital and no space left. */
  function CleanUnit(unit: string): (r: string)
    ensures |r| == |unit|
    ensures forall i :: 0 <= i < |r| ==> !('A' <= r[i] <= 'Z') && r[i] != ' '
  {
    ReplaceChar(ToLower(unit), ' ', '_')
  }

  datatype Converted = Converted(amount: real, fromUnit: string, result: real, toUnit: string)
  datatype ConversionResult = Ok(value: Converted) | Unsupported(message: string)

  /** convert_units: both names are cleaned and looked up; either one
      unknown gives the error, otherwise the amount goes to the base unit
      and back out to the target unit. */
  function ConvertUnits(amount: real, fromUnit: string, toUnit: string): (r: ConversionResult)
    ensures r.Ok? <==> Factor(CleanUnit(fromUnit)).Some? && Factor(CleanUnit(toUnit)).Some?
    ensures r.Ok? ==> r.value.result * Factor(CleanUnit(toUnit)).value == amount * Factor(CleanUnit(fromUnit)).value
    ensures r.Ok? ==> r.value.amount == amount && r.value.fromUnit == fromUnit && r.value.toUnit == toUnit
    ensures r.Unsupported? ==> r.message == "Unit not supported. Available units: " + JoinComma(AvailableUnits)
  {
    var f := Factor(CleanUnit(fromUnit));
    var t := Factor(CleanUnit(toUnit));
    if f.None? || t.None? then
      Unsupported("Unit not supported. Available units: " + JoinComma(AvailableUnits))
    else
      Ok(Converted(amount, fromUnit, Rescale(amount, f.value, t.value), toUnit))
  }

  /** Converting to a unit that names the same table entry gives the amount
      back exactly. */
  lemma {:induction false} ConvertSameUnit(amount: real, u: string, v: string)
    requires Factor(CleanUnit(u)).Some? && CleanUnit(v) == CleanUnit(u)
    ensures ConvertUnits(amount, u, v).Ok? && ConvertUnits(amount, u, v).value.result == amount
  {
  }

  /** Converting A to B and the result back to A returns the amount. */
  lemma {:induction false} ConvertRoundTrip(amount: real, a: string, b: string)
    requires Factor(CleanUnit(a)).Some? && Factor(CleanUnit(b)).Some?
    ensures var there := ConvertUnits(amount, a, b);
      there.Ok? && ConvertUnits(there.value.result, b, a).Ok?
      && ConvertUnits(there.value.result, b, a).value.result == amount
  {
    RescaleRoundTrip(amount, Factor(CleanUnit(a)).value, Factor(CleanUnit(b)).value);
  }

  /** Conversions compose through any intermediate unit. */
  lemma {:induction false} ConvertCompose(amount: real, a: string, b: string, c: string)
    requires Factor(CleanUnit(a)).Some? && Factor(CleanUnit(b)).Some? && Factor(CleanUnit(c)).Some?
    ensures var ab := ConvertUnits(amount, a, b).value.result;
      ConvertUnits(ab, b, c).value.result == ConvertUnits(amount, a, c).value.result
  {
    RescaleCompose(amount, Factor(CleanUnit(a)).value, Factor(CleanUnit(b)).value, Factor(CleanUnit(c)).value);
  }

  /** Spelling does not matter: case and spaces versus underscores name the
      same entry, so "Fl Oz" converts like "fl_oz". */
  lemma CleanUnitSpelling()
    ensures CleanUnit("Fl Oz") == "fl_oz" && CleanUnit("fl oz") == "fl_oz"
  {
    CleanFlOz();
  }

  // Evaluation steps on literals, one per lemma to keep each proof small.

  lemma CleanFlOz()
    ensures ToLower("Fl Oz") == "fl oz" && ToLower("fl oz") == "fl oz"
    ensures ReplaceChar("fl oz", ' ', '_') == "fl_oz"
  {
  }

  lemma LowerPlurals()
    ensures ToLower("Cups") == "cups" && ToLower("Grams") == "grams"
  {
  }

  lemma LowerOunces()
    ensures ToLower("ounces") == "ounces" && ToLower("Ounce") == "ounce"
  {
  }

  lemma GallonUnknown()
    ensures Factor(CleanUnit("gallon")).None?
  {
    assert CleanUnit("gallon") == "gallon";
  }

  // ------------------------------------------------ app.py's unit_map

  /** app.py's `unit_map` of the convert_units tool branch: lower-cased
      spellings to the name passed on to convert_units. */
  function UnitAlias(lowered: string): Option<string>
  {
    match lowered
    case "cups" => Some("cup")
    case "cup" => Some("cup")
    case "tablespoons" => Some("tablespoon")
    case "tablespoon" => Some("tablespoon")
    case "teaspoons" => Some("teaspoon")
    case "teaspoon" => Some("teaspoon")
    case "ml" => Some("ml")
    case "milliliters" => Some("milliliter")
    case "milliliter" => Some("milliliter")
    case "liters" => Some("liter")
    case "liter" => Some("liter")
    case "gallons" => Some("gallon")
    case "gallon" => Some("gallon")
    case "fl oz" => Some("fl_oz")
    case "ounces" => Some("fl oz")
    case "ounce" => Some("fl oz")
    case "fluid_ounce" => Some("fluid_ounce")
    case "fluid ounce" => Some("fluid_ounce")
    case "pint" => Some("pint")
    case "pints" => Some("pint")
    case "quart" => Some("quart")
    case "quarts" => Some("quart")
    case "tsp" => Some("tsp")
    case "tbsp" => Some("tbsp")
    case "g" => Some("g")
    case "gram" => Some("gram")
    case "grams" => Some("gram")
    case "kg" => Some("kg")
    case "kilogram" => Some("kilogram")
    case "kilograms" => Some("kilogram")
    case "oz" => Some("oz")
    case "pound" => Some("pound")
    case "lb" => Some("lb")
    case "pounds" => Some("pound")
    case _ => None
  }

  /** A name without capitals or spaces is already clean. */
  lemma CleanUnitOfClean(t: string)
    requires forall i :: 0 <= i < |t| ==> !('A' <= t[i] <= 'Z') && t[i] != ' '
    ensures CleanUnit(t) == t
  {
    assert ToLower(t) == t;
  }

  /** Every name `unit_map` gives is a key of `to_ml` once convert_units
      cleans it, except "gallon", which the table lacks. */
  lemma UnitAliasReachesTable(lowered: string)
    requires UnitAlias(lowered).Some?
    ensures Factor(CleanUnit(UnitAlias(lowered).value)).Some? <==> UnitAlias(lowered).value != "gallon"
  {
    var t := UnitAlias(lowered).value;
    assert t in AliasNames;
    AliasNameKnown(t);
  }

  /** The names `unit_map` gives. */
  const AliasNames: set<string> := {
    "cup", "tablespoon", "teaspoon", "ml", "milliliter", "liter", "gallon", "fl_oz", "fl oz",
    "fluid_ounce", "pint", "quart", "tsp", "tbsp", "g", "gram", "kg", "kilogram", "oz", "pound", "lb"
  }

  lemma AliasNameKnown(t: string)
    requires t in AliasNames
    ensures Factor(CleanUnit(t)).Some? <==> t != "gallon"
  {
    if t == "gallon" {
      GallonUnknown();
    } else if t == "fl oz" {
      CleanFlOz();
    } else {
      assert Factor(t).Some?;
      AliasNameClean(t);
    }
  }

  /** Apart from "fl oz", the names `unit_map` gives have no capitals and no spaces. */
  lemma AliasNameClean(t: string)
    requires t in AliasNames && t != "fl oz"
    ensures CleanUnit(t) == t
  {
    assert forall i :: 0 <= i < |t| ==> !('A' <= t[i] <= 'Z') && t[i] != ' ';
    CleanUnitOfClean(t);
  }

  /** `unit_map.get(u.lower(), u.lower()) if u else ""`: only a missing
      unit normalises to the empty name; a spelling of the map gives its
      name, and any other spelling passes through lower-cased. */
  function NormalizeUnit(u: string): (r: string)
    ensures r == "" <==> u == ""
    ensures u != "" && UnitAlias(ToLower(u)).Some? ==> r == UnitAlias(ToLower(u)).value
    ensures u != "" && UnitAlias(ToLower(u)).None? ==> r == ToLower(u)
  {
    if u == "" then ""
    else
      match UnitAlias(ToLower(u))
      case Some(name) => name
      case None => ToLower(u)
  }

  /** Plural spellings reach the singular table entry. */
  lemma NormalizePlurals()
    ensures NormalizeUnit("Cups") == "cup" && NormalizeUnit("Grams") == "gram"
    ensures NormalizeUnit("fl oz") == "fl_oz"
  {
    LowerPlurals();
    CleanFlOz();
  }

  /** "ounces" and "ounce" are mapped to the fluid ounce, a volume, and not
      to the weight ounce of the table. */
  lemma OuncesMeanFluidOunces()
    ensures NormalizeUnit("ounces") == "fl oz" && NormalizeUnit("Ounce") == "fl oz"
    ensures CleanUnit("fl oz") == "fl_oz"
    ensures Factor("fl_oz") == Some(29.574) && Factor("oz") == Some(28.35)
  {
    LowerOunces();
    CleanFlOz();
    assert UnitAlias("ounces") == Some("fl oz") && UnitAlias("ounce") == Some("fl oz");
  }

  function ConvertRequest(amount: real, fromUnit: string, toUnit: string): ConversionResult
  {
    ConvertUnits(amount, NormalizeUnit(fromUnit), NormalizeUnit(toUnit))
  }

  /** "gallon" and "gallons" are normalised to "gallon", which the table
      lacks, so every request naming them on either side is refused. */
  lemma {:induction false} GallonsAlwaysUnsupported(amount: real, g: string, other: string, gallonFirst: bool)
    requires ToLower(g) == "gallon" || ToLower(g) == "gallons"
    ensures ConvertRequest(amount, if gallonFirst then g else other, if gallonFirst then other else g).Unsupported?
  {
    assert UnitAlias(ToLower(g)) == Some("gallon");
    GallonUnknown();
  }
}
