/**
 * The one-level resolver: how many production units of each direct
 * ingredient an item needs for a given unit count or rate.
 */
module Resolver {
  import opened Wrappers
  import opened Catalog
  import opened Requirements
  import opened Converter

  /** Python truthiness of an optional count: present and non-zero. */
  predicate Truthy(x: Option<real>): (t: bool)
    ensures t <==> x != None && x != Some(0.0)
  {
    x.Some? && x.value != 0.0
  }

  /** No later entry of the list repeats the name of entry `i`. */
  predicate LastListing(ings: seq<Ingredient>, i: nat)
    requires i < |ings|
  {
    forall j :: i < j < |ings| ==> ings[j].name != ings[i].name
  }

  /**
   * The units of ingredient `n` needed when `amount` of it is consumed per
   * cycle of a parent produced at `rate`: amount times rate times the
   * ingredient's crafting time, over its batch size.
   */
  function UnitsNeeded(c: ItemCatalog, n: string, amount: real, rate: real): (u: real)
    requires WellFormed(c)
    ensures IsRaw(c, n) ==> u == amount * rate
    ensures amount == 0.0 || rate == 0.0 ==> u == 0.0
  {
    amount * rate * GetCraftingTime(c, n) / OutputQuantity(c, n)
  }

  /** The unit count of every ingredient of a recipe, for a parent produced at `rate`. */
  function IngredientUnits(c: ItemCatalog, recipe: map<string, real>, rate: real): (units: RequirementMap)
    requires WellFormed(c)
    ensures units.Keys == recipe.Keys
  {
    map n | n in recipe :: UnitsNeeded(c, n, recipe[n], rate)
  }

  /**
   * An ingredient listed more than once takes the amount of its last
   * listing, and its count follows the per-cycle formula.
   */
  lemma IngredientUnitsLastWins(c: ItemCatalog, item: string, rate: real, i: nat)
    requires WellFormed(c) && item in c
    requires i < |c[item].ingredients.value| && LastListing(c[item].ingredients.value, i)
    ensures c[item].ingredients.value[i].name in IngredientUnits(c, CraftedRecipe(c, item), rate)
    ensures IngredientUnits(c, CraftedRecipe(c, item), rate)[c[item].ingredients.value[i].name]
      == UnitsNeeded(c, c[item].ingredients.value[i].name, c[item].ingredients.value[i].amount, rate)
  {
    RecipeLastWins(c[item].ingredients.value, i);
  }

  /** A recipe of one ingredient resolves to that ingredient's count alone. */
  lemma IngredientUnitsSingle(c: ItemCatalog, n: string, amount: real, rate: real)
    requires WellFormed(c)
    ensures IngredientUnits(c, map[n := amount], rate) == map[n := UnitsNeeded(c, n, amount, rate)]
  {
    var m := IngredientUnits(c, map[n := amount], rate);
    assert m.Keys == {n};
  }

  /** A recipe of two ingredients resolves to the count of each. */
  lemma IngredientUnitsPair(c: ItemCatalog, n1: string, a1: real, n2: string, a2: real, rate: real)
    requires WellFormed(c) && n1 != n2
    ensures IngredientUnits(c, map[n1 := a1, n2 := a2], rate)
         == map[n1 := UnitsNeeded(c, n1, a1, rate), n2 := UnitsNeeded(c, n2, a2, rate)]
  {
    var m := IngredientUnits(c, map[n1 := a1, n2 := a2], rate);
    assert m.Keys == {n1, n2};
  }

  /** With positive amounts and a non-zero rate no ingredient count is zero. */
  lemma IngredientUnitsNonZero(c: ItemCatalog, recipe: map<string, real>, rate: real)
    requires WellFormed(c) && rate != 0.0
    requires forall n :: n in recipe ==> recipe[n] > 0.0
    ensures forall n :: n in IngredientUnits(c, recipe, rate) ==> IngredientUnits(c, recipe, rate)[n] != 0.0
  {
    forall n | n in recipe
      ensures UnitsNeeded(c, n, recipe[n], rate) != 0.0
    {
      UnitsNeededNonZero(c, n, recipe[n], rate);
    }
  }

  lemma UnitsNeededNonZero(c: ItemCatalog, n: string, amount: real, rate: real)
    requires WellFormed(c) && amount > 0.0 && rate != 0.0
    ensures UnitsNeeded(c, n, amount, rate) != 0.0
  {
    var t, q := GetCraftingTime(c, n), OutputQuantity(c, n);
    assert t > 0.0;
    assert amount * rate != 0.0;
    assert amount * rate * t != 0.0;
  }

  /** The ingredient counts are linear in the rate. */
  lemma IngredientUnitsScale(c: ItemCatalog, recipe: map<string, real>, rate: real, factor: real)
    requires WellFormed(c)
    ensures IngredientUnits(c, recipe, factor * rate) == Scale(IngredientUnits(c, recipe, rate), factor)
  {
    var l := IngredientUnits(c, recipe, factor * rate);
    var r := Scale(IngredientUnits(c, recipe, rate), factor);
    forall n | n in l
      ensures l[n] == r[n]
    {
      IngredientUnitsScaleAt(c, recipe, rate, factor, n);
    }
  }

  /** The pointwise step of `IngredientUnitsScale`, for one ingredient. */
  lemma IngredientUnitsScaleAt(c: ItemCatalog, recipe: map<string, real>, rate: real, factor: real, n: string)
    requires WellFormed(c) && n in recipe
    ensures IngredientUnits(c, recipe, factor * rate)[n] == Scale(IngredientUnits(c, recipe, rate), factor)[n]
  {
    IngredientUnitsScaledEntry(c, recipe, rate, factor, n);
    ScaleEntry(IngredientUnits(c, recipe, rate), factor, n);
  }

  /** One ingredient's count at a scaled rate is its count scaled. */
  lemma IngredientUnitsScaledEntry(c: ItemCatalog, recipe: map<string, real>, rate: real, factor: real, n: string)
    requires WellFormed(c) && n in recipe
    ensures IngredientUnits(c, recipe, factor * rate)[n] == factor * IngredientUnits(c, recipe, rate)[n]
  {
    IngredientUnitsAt(c, recipe, rate, n);
    IngredientUnitsAt(c, recipe, factor * rate, n);
    UnitsNeededScale(c, n, recipe[n], rate, factor);
    MultiplyEqual(factor, UnitsNeeded(c, n, recipe[n], rate), IngredientUnits(c, recipe, rate)[n]);
  }

  lemma IngredientUnitsAt(c: ItemCatalog, recipe: map<string, real>, rate: real, n: string)
    requires WellFormed(c) && n in recipe
    ensures IngredientUnits(c, recipe, rate)[n] == UnitsNeeded(c, n, recipe[n], rate)
  {
  }

  lemma MultiplyEqual(factor: real, x: real, y: real)
    requires x == y
    ensures factor * x == factor * y
  {
  }

  lemma UnitsNeededScale(c: ItemCatalog, n: string, amount: real, rate: real, factor: real)
    requires WellFormed(c)
    ensures UnitsNeeded(c, n, amount, factor * rate) == factor * UnitsNeeded(c, n, amount, rate)
  {
    var t, q := GetCraftingTime(c, n), OutputQuantity(c, n);
    assert amount * (factor * rate) * t == factor * (amount * rate * t);
  }

  /**
   * ratio, as written: rejects a unit count given together with a rate,
   * returns a raw item's own demand, and otherwise resolves the item's rate
   * (by default that of one unit) into per-ingredient unit counts. Given
   * only a rate, a crafted item raises, because the rate branch converts the
   * absent unit count; when that count is 0 instead of absent, the
   * conversion yields 0 and the given rate is used.
   */
  function Ratio(c: ItemCatalog, item: string, factories: Option<real>, rate: Option<real>)
    : (res: Result<RequirementMap, Fault>)
    requires WellFormed(c)
    ensures res == Failure(BothTargetsGiven) <==> Truthy(factories) && Truthy(rate)
    ensures res == Failure(NoneOperand) <==> !IsRaw(c, item) && factories.None? && Truthy(rate)
    ensures res.Success? && IsRaw(c, item) ==>
      res.value == map[item := if Truthy(factories) then factories.value
                               else if Truthy(rate) then rate.value
                               else 1.0]
    ensures res.Success? && !IsRaw(c, item) ==>
      res.value == IngredientUnits(c, CraftedRecipe(c, item),
        if Truthy(rate) then rate.value
        else FactoriesToRate(c, item, if Truthy(factories) then factories.value else 1.0))
    ensures res.Success? ==> forall n :: n in res.value ==> res.value[n] != 0.0
  {
    if Truthy(factories) && Truthy(rate) then Failure(BothTargetsGiven)
    else if IsRaw(c, item) then
      if Truthy(factories) then Success(map[item := factories.value])
      else if Truthy(rate) then Success(map[item := rate.value])
      else Success(map[item := 1.0])
    else if !Truthy(factories) && !Truthy(rate) then
      IngredientUnitsNonZero(c, CraftedRecipe(c, item), FactoriesToRate(c, item, 1.0));
      Success(IngredientUnits(c, CraftedRecipe(c, item), FactoriesToRate(c, item, 1.0)))
    else if !Truthy(rate) then
      IngredientUnitsNonZero(c, CraftedRecipe(c, item), FactoriesToRate(c, item, factories.value));
      Success(IngredientUnits(c, CraftedRecipe(c, item), FactoriesToRate(c, item, factories.value)))
    else if factories.None? then
      Failure(NoneOperand)
    else
      IngredientUnitsNonZero(c, CraftedRecipe(c, item), rate.value);
      Success(IngredientUnits(c, CraftedRecipe(c, item), rate.value))
  }

  /**
   * ratio as evidently intended: given only a rate, a crafted item is
   * resolved at that rate; every other call behaves as written.
   */
  function RatioIntended(c: ItemCatalog, item: string, factories: Option<real>, rate: Option<real>)
    : (res: Result<RequirementMap, Fault>)
    requires WellFormed(c)
    ensures res.Failure? <==> Truthy(factories) && Truthy(rate)
    ensures !(!IsRaw(c, item) && !Truthy(factories) && Truthy(rate)) ==> res == Ratio(c, item, factories, rate)
    ensures res.Success? ==> forall n :: n in res.value ==> res.value[n] != 0.0
  {
    if !IsRaw(c, item) && !Truthy(factories) && Truthy(rate) then
      IngredientUnitsNonZero(c, CraftedRecipe(c, item), rate.value);
      Success(IngredientUnits(c, CraftedRecipe(c, item), rate.value))
    else Ratio(c, item, factories, rate)
  }

  /**
   * As written, asking a crafted item for a non-zero rate raises, although
   * asking for the equivalent unit count succeeds.
   */
  lemma RatioRateOnlyRaises(c: ItemCatalog, item: string, rate: real)
    requires WellFormed(c) && !IsRaw(c, item) && rate != 0.0
    ensures Ratio(c, item, None, Some(rate)) == Failure(NoneOperand)
    ensures Ratio(c, item, Some(RateToFactories(c, item, rate)), None).Success?
  {
  }

  /**
   * Corrected, asking for a rate gives the same requirements as asking for
   * the unit count that sustains it.
   */
  lemma {:induction false} RatioIntendedRateMatchesUnits(c: ItemCatalog, item: string, rate: real)
    requires WellFormed(c) && rate != 0.0
    ensures RatioIntended(c, item, None, Some(rate)).Success?
    ensures !IsRaw(c, item) ==>
      RatioIntended(c, item, None, Some(rate)) == RatioIntended(c, item, Some(RateToFactories(c, item, rate)), None)
  {
    ConvertersInverse(c, item, 0.0, rate);
  }

  /**
   * ratio, following the source step by step: argument check, raw item,
   * normalisation of the target to a rate, then one dictionary entry per
   * recipe ingredient.
   */
  method ComputeRatio(c: ItemCatalog, item: string, factories: Option<real>, rate: Option<real>)
    returns (res: Result<RequirementMap, Fault>)
    requires WellFormed(c)
    ensures res == Ratio(c, item, factories, rate)
  {
    if Truthy(factories) && Truthy(rate) {
      return Failure(BothTargetsGiven);
    }
    if IsRaw(c, item) {
      if Truthy(factories) {
        return Success(map[item := factories.value]);
      } else if Truthy(rate) {
        return Success(map[item := rate.value]);
      }
      return Success(map[item := 1.0]);
    }
    var outputRate: real;
    if !Truthy(factories) && !Truthy(rate) {
      outputRate := FactoriesToRate(c, item, 1.0);
    } else if !Truthy(rate) {
      outputRate := FactoriesToRate(c, item, factories.value);
    } else {
      if factories.None? {
        return Failure(NoneOperand);
      }
      outputRate := rate.value;
    }
    var recipe := GetRecipe(c, item);
    var required := ComputeIngredientUnits(c, recipe.value, outputRate);
    return Success(required);
  }

  /** The loop of ratio that fills in one entry per recipe ingredient. */
  method ComputeIngredientUnits(c: ItemCatalog, recipe: RequirementMap, outputRate: real)
    returns (required: RequirementMap)
    requires WellFormed(c)
    ensures required == IngredientUnits(c, recipe, outputRate)
  {
    required := map[];
    var todo := recipe.Keys;
    while todo != {}
      invariant todo <= recipe.Keys
      invariant required == map n | n in recipe.Keys - todo :: UnitsNeeded(c, n, recipe[n], outputRate)
      decreases todo
    {
      var n :| n in todo;
      required := required[n := UnitsNeeded(c, n, recipe[n], outputRate)];
      todo := todo - {n};
    }
  }
}
