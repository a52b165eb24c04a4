/**
 * The whole-tree aggregator: expands an item's requirement through every
 * ingredient down to the raw materials and sums the unit counts of items
 * reached along several paths.
 */
module Aggregator {
  import opened Wrappers
  import opened Catalog
  import opened Requirements
  import opened Converter
  import opened Resolver

  /** The ingredients of a crafted item in the order its ratio dictionary lists them: first listings first. */
  function Children(c: ItemCatalog, item: string): (names: seq<string>)
    requires WellFormed(c) && item in c
    ensures forall n :: n in names <==> n in CraftedRecipe(c, item)
    ensures forall i, j :: 0 <= i < j < |names| ==> names[i] != names[j]
  {
    Distinct(Names(c[item].ingredients.value))
  }

  /**
   * The children come in the order of their first listing, the key order of
   * the recipe dictionary that the ratio dictionary follows.
   */
  lemma ChildrenInListingOrder(c: ItemCatalog, item: string, i: nat, j: nat)
    requires WellFormed(c) && item in c && i < j < |Children(c, item)|
    ensures FirstIndex(Names(c[item].ingredients.value), Children(c, item)[i])
          < FirstIndex(Names(c[item].ingredients.value), Children(c, item)[j])
  {
    DistinctFirstOccurrenceOrder(Names(c[item].ingredients.value), i, j);
  }

  /** Every listed ingredient is one of the children. */
  lemma ChildrenListed(c: ItemCatalog, item: string, i: nat)
    requires WellFormed(c) && item in c && i < |c[item].ingredients.value|
    ensures c[item].ingredients.value[i].name in Children(c, item)
  {
    assert Names(c[item].ingredients.value)[i] == c[item].ingredients.value[i].name;
  }

  /** Every ingredient ranks below the item that lists it. */
  lemma ChildrenBelow(c: ItemCatalog, rank: map<string, nat>, item: string)
    requires Valid(c, rank) && item in c
    ensures forall n :: n in Children(c, item) ==> RankOf(rank, n) < RankOf(rank, item)
  {
    var ings := c[item].ingredients.value;
    assert IngredientsBelow(c, rank, item);
    forall n | n in Children(c, item)
      ensures RankOf(rank, n) < RankOf(rank, item)
    {
      var i :| 0 <= i < |ings| && Names(ings)[i] == n;
    }
  }

  /**
   * The unit counts the one-level resolution of `units` units of a crafted
   * item asks of its ingredients; a zero count resolves as one unit.
   */
  function ChildUnits(c: ItemCatalog, item: string, units: real): (child: RequirementMap)
    requires WellFormed(c) && item in c
    ensures forall n :: n in child <==> n in Children(c, item)
    ensures forall n :: n in child ==> child[n] != 0.0
  {
    var rate := FactoriesToRate(c, item, if units == 0.0 then 1.0 else units);
    IngredientUnitsNonZero(c, CraftedRecipe(c, item), rate);
    IngredientUnits(c, CraftedRecipe(c, item), rate)
  }

  /** The counts passed down are those ratio returns for the unit count, as written and as corrected. */
  lemma ChildUnitsIsRatio(c: ItemCatalog, item: string, units: real)
    requires WellFormed(c) && item in c
    ensures Ratio(c, item, Some(units), None) == Success(ChildUnits(c, item, units))
    ensures RatioIntended(c, item, Some(units), None) == Success(ChildUnits(c, item, units))
  {
  }

  /**
   * The requirement map of `units` production units of `item`: the item
   * itself, merged with the expansion of every ingredient at the count the
   * one-level resolution asks of it.
   */
  function Expand(c: ItemCatalog, rank: map<string, nat>, item: string, units: real): (r: RequirementMap)
    requires Valid(c, rank)
    ensures item in r
    decreases RankOf(rank, item), 1
  {
    if IsRaw(c, item) then map[item := units]
    else
      ChildrenBelow(c, rank, item);
      ExpandFold(c, rank, RankOf(rank, item), map[item := units], Children(c, item), ChildUnits(c, item, units))
  }

  /** Merges into `acc`, one after another, the expansions of `names` at the counts `units` gives them. */
  function ExpandFold(c: ItemCatalog, rank: map<string, nat>, bound: nat, acc: RequirementMap,
                      names: seq<string>, units: RequirementMap): (r: RequirementMap)
    requires Valid(c, rank)
    requires forall n :: n in names ==> n in units && RankOf(rank, n) < bound
    ensures acc.Keys <= r.Keys
    decreases bound, 0, |names|
  {
    if names == [] then acc
    else
      var last := names[|names| - 1];
      Merge(ExpandFold(c, rank, bound, acc, names[..|names| - 1], units), Expand(c, rank, last, units[last]))
  }

  /**
   * calculate_facotry: the requirement map for a unit count, or else for the
   * unit count a rate needs. A unit count given with a rate wins without
   * complaint; with neither (or a zero count and no rate) the conversion
   * multiplies the absent rate and raises.
   */
  function Calculate(c: ItemCatalog, rank: map<string, nat>, item: string,
                     factories: Option<real>, rate: Option<real>): (res: Result<RequirementMap, Fault>)
    requires Valid(c, rank)
    ensures res.Failure? <==> !Truthy(factories) && rate.None?
    ensures res.Failure? ==> res.error == NoneOperand
    ensures res.Success? ==> item in res.value
    ensures res.Success? ==>
      res.value[item] == if Truthy(factories) then factories.value else RateToFactories(c, item, rate.value)
    ensures res.Success? && IsRaw(c, item) ==>
      res.value == map[item := if Truthy(factories) then factories.value else rate.value]
  {
    if Truthy(factories) then
      ExpandRoot(c, rank, item, factories.value);
      Success(Expand(c, rank, item, factories.value))
    else if rate.None? then Failure(NoneOperand)
    else
      ExpandRoot(c, rank, item, RateToFactories(c, item, rate.value));
      Success(Expand(c, rank, item, RateToFactories(c, item, rate.value)))
  }

  /**
   * calculate_facotry, following the source: settle the item's own unit
   * count, then for a crafted item resolve one level and recurse into each
   * ingredient.
   */
  method CalculateFactory(c: ItemCatalog, rank: map<string, nat>, item: string,
                          factories: Option<real>, rate: Option<real>)
    returns (res: Result<RequirementMap, Fault>)
    requires Valid(c, rank)
    ensures res == Calculate(c, rank, item, factories, rate)
    decreases RankOf(rank, item), 2
  {
    var units: real;
    if !Truthy(factories) {
      if rate.None? {
        return Failure(NoneOperand);
      }
      units := RateToFactories(c, item, rate.value);
    } else {
      units := factories.value;
    }
    var factory: RequirementMap := map[item := units];
    if !IsRaw(c, item) {
      factory := ExpandIngredients(c, rank, item, units);
    }
    return Success(factory);
  }

  /**
   * The body of calculate_facotry for a crafted item: resolve one level with
   * ratio, then merge the requirement map of every ingredient, in the order
   * ratio lists them, into the running total.
   */
  method ExpandIngredients(c: ItemCatalog, rank: map<string, nat>, item: string, units: real)
    returns (factory: RequirementMap)
    requires Valid(c, rank) && !IsRaw(c, item)
    ensures factory == Expand(c, rank, item, units)
    decreases RankOf(rank, item), 1
  {
    var ratio := ComputeRatio(c, item, Some(units), None);
    ChildUnitsIsRatio(c, item, units);
    var required := ratio.value;
    var names := Children(c, item);
    ChildrenBelow(c, rank, item);
    factory := map[item := units];
    assert names[..0] == [];
    var i := 0;
    while i < |names|
      invariant 0 <= i <= |names|
      invariant factory == ExpandFold(c, rank, RankOf(rank, item), map[item := units], names[..i], required)
    {
      var ingredient := names[i];
      var sub := CalculateFactory(c, rank, ingredient, Some(required[ingredient]), None);
      factory := MergeDictionaries(factory, sub.value);
      FoldStep(c, rank, RankOf(rank, item), map[item := units], names, required, i);
      i := i + 1;
    }
    assert names[..|names|] == names;
  }

  /** Extending a fold by the next name merges in that name's expansion. */
  lemma FoldStep(c: ItemCatalog, rank: map<string, nat>, bound: nat, acc: RequirementMap,
                 names: seq<string>, units: RequirementMap, i: nat)
    requires Valid(c, rank) && i < |names|
    requires forall n :: n in names ==> n in units && RankOf(rank, n) < bound
    ensures ExpandFold(c, rank, bound, acc, names[..i + 1], units)
         == Merge(ExpandFold(c, rank, bound, acc, names[..i], units), Expand(c, rank, names[i], units[names[i]]))
  {
    assert names[..i + 1][..i] == names[..i];
  }

  /** Every key of an expansion is the item itself or ranks below it. */
  lemma {:induction false} ExpandKeysBelow(c: ItemCatalog, rank: map<string, nat>, item: string, units: real)
    requires Valid(c, rank)
    ensures item in Expand(c, rank, item, units)
    ensures forall x :: x in Expand(c, rank, item, units) ==> x == item || RankOf(rank, x) < RankOf(rank, item)
    decreases RankOf(rank, item), 1
  {
    if !IsRaw(c, item) {
      ChildrenBelow(c, rank, item);
      FoldKeysBelow(c, rank, RankOf(rank, item), map[item := units], Children(c, item), ChildUnits(c, item, units));
    }
  }

  lemma {:induction false} FoldKeysBelow(c: ItemCatalog, rank: map<string, nat>, bound: nat, acc: RequirementMap,
                                         names: seq<string>, units: RequirementMap)
    requires Valid(c, rank)
    requires forall n :: n in names ==> n in units && RankOf(rank, n) < bound
    ensures acc.Keys <= ExpandFold(c, rank, bound, acc, names, units).Keys
    ensures forall x :: x in ExpandFold(c, rank, bound, acc, names, units) ==> x in acc || RankOf(rank, x) < bound
    decreases bound, 0, |names|
  {
    if names != [] {
      var last := names[|names| - 1];
      FoldKeysBelow(c, rank, bound, acc, names[..|names| - 1], units);
      ExpandKeysBelow(c, rank, last, units[last]);
    }
  }

  /** The sum, over `names`, of what the expansion of each contributes to `x`. */
  function Contributions(c: ItemCatalog, rank: map<string, nat>, names: seq<string>,
                         units: RequirementMap, x: string): real
    requires Valid(c, rank)
    requires forall n :: n in names ==> n in units
  {
    if names == [] then 0.0
    else
      var last := names[|names| - 1];
      Contributions(c, rank, names[..|names| - 1], units, x) + Get0(Expand(c, rank, last, units[last]), x)
  }

  /** The count a fold records for `x` is the accumulator's plus every branch's contribution. */
  lemma {:induction false} FoldAt(c: ItemCatalog, rank: map<string, nat>, bound: nat, acc: RequirementMap,
                                  names: seq<string>, units: RequirementMap, x: string)
    requires Valid(c, rank)
    requires forall n :: n in names ==> n in units && RankOf(rank, n) < bound
    ensures Get0(ExpandFold(c, rank, bound, acc, names, units), x) == Get0(acc, x) + Contributions(c, rank, names, units, x)
  {
    if names != [] {
      var last := names[|names| - 1];
      FoldAt(c, rank, bound, acc, names[..|names| - 1], units, x);
      MergeAt(ExpandFold(c, rank, bound, acc, names[..|names| - 1], units), Expand(c, rank, last, units[last]), x);
    }
  }

  /**
   * Shared ingredients are summed: the total for any name is the requested
   * count if it is the item itself, plus the contribution of every
   * ingredient branch that reaches it.
   */
  lemma ExpandAt(c: ItemCatalog, rank: map<string, nat>, item: string, units: real, x: string)
    requires Valid(c, rank) && !IsRaw(c, item)
    ensures Get0(Expand(c, rank, item, units), x)
      == (if x == item then units else 0.0) + Contributions(c, rank, Children(c, item), ChildUnits(c, item, units), x)
  {
    ChildrenBelow(c, rank, item);
    FoldAt(c, rank, RankOf(rank, item), map[item := units], Children(c, item), ChildUnits(c, item, units), x);
  }

  /** No branch contributes to a name ranked at or above every branch's bound. */
  lemma {:induction false} ContributionsAbove(c: ItemCatalog, rank: map<string, nat>, bound: nat,
                                              names: seq<string>, units: RequirementMap, x: string)
    requires Valid(c, rank)
    requires forall n :: n in names ==> n in units && RankOf(rank, n) < bound
    requires RankOf(rank, x) >= bound
    ensures Contributions(c, rank, names, units, x) == 0.0
  {
    if names != [] {
      var last := names[|names| - 1];
      ContributionsAbove(c, rank, bound, names[..|names| - 1], units, x);
      ExpandKeysBelow(c, rank, last, units[last]);
    }
  }

  /** On an acyclic catalog the root is mapped to exactly the requested unit count. */
  lemma ExpandRoot(c: ItemCatalog, rank: map<string, nat>, item: string, units: real)
    requires Valid(c, rank)
    ensures item in Expand(c, rank, item, units)
    ensures Expand(c, rank, item, units)[item] == units
  {
    ExpandKeysBelow(c, rank, item, units);
    if !IsRaw(c, item) {
      ChildrenBelow(c, rank, item);
      ExpandAt(c, rank, item, units, item);
      ContributionsAbove(c, rank, RankOf(rank, item), Children(c, item), ChildUnits(c, item, units), item);
    }
  }

  /** `x` is `item` or is reached from it through a chain of ingredient listings. */
  ghost predicate DependsOn(c: ItemCatalog, rank: map<string, nat>, item: string, x: string)
    requires Valid(c, rank)
    decreases RankOf(rank, item)
  {
    || x == item
    || (item in c &&
        assert IngredientsBelow(c, rank, item);
        exists i :: 0 <= i < |c[item].ingredients.value| && DependsOn(c, rank, c[item].ingredients.value[i].name, x))
  }

  /** The keys of a fold: the accumulator's and those of every branch. */
  lemma {:induction false} FoldKeys(c: ItemCatalog, rank: map<string, nat>, bound: nat, acc: RequirementMap,
                                    names: seq<string>, units: RequirementMap, x: string)
    requires Valid(c, rank)
    requires forall n :: n in names ==> n in units && RankOf(rank, n) < bound
    ensures x in ExpandFold(c, rank, bound, acc, names, units) <==>
      x in acc || exists j :: 0 <= j < |names| && x in Expand(c, rank, names[j], units[names[j]])
  {
    if names != [] {
      var prefix := names[..|names| - 1];
      FoldKeys(c, rank, bound, acc, prefix, units, x);
      assert forall j :: 0 <= j < |prefix| ==> prefix[j] == names[j];
    }
  }

  /**
   * The keys of an expansion are exactly the root and every item reachable
   * from it through ingredient listings.
   */
  lemma ExpandKeys(c: ItemCatalog, rank: map<string, nat>, item: string, units: real, x: string)
    requires Valid(c, rank)
    ensures x in Expand(c, rank, item, units) <==> DependsOn(c, rank, item, x)
  {
    if x in Expand(c, rank, item, units) {
      ExpandKeysReached(c, rank, item, units, x);
    }
    if DependsOn(c, rank, item, x) {
      ExpandKeysReachable(c, rank, item, units, x);
    }
  }

  /** Every child of a crafted item is the name of one of its listings. */
  lemma ChildListing(c: ItemCatalog, item: string, n: string) returns (i: nat)
    requires WellFormed(c) && item in c && n in Children(c, item)
    ensures i < |c[item].ingredients.value| && c[item].ingredients.value[i].name == n
  {
    var ings := c[item].ingredients.value;
    assert n in Names(ings);
    var k :| 0 <= k < |Names(ings)| && Names(ings)[k] == n;
    i := k;
  }

  lemma {:induction false} ExpandKeysReached(c: ItemCatalog, rank: map<string, nat>, item: string, units: real, x: string)
    requires Valid(c, rank) && x in Expand(c, rank, item, units)
    ensures DependsOn(c, rank, item, x)
    decreases RankOf(rank, item)
  {
    if x != item {
      var names, child := Children(c, item), ChildUnits(c, item, units);
      ChildrenBelow(c, rank, item);
      FoldKeys(c, rank, RankOf(rank, item), map[item := units], names, child, x);
      var j :| 0 <= j < |names| && x in Expand(c, rank, names[j], child[names[j]]);
      ExpandKeysReached(c, rank, names[j], child[names[j]], x);
      var i := ChildListing(c, item, names[j]);
      assert IngredientsBelow(c, rank, item);
    }
  }

  lemma {:induction false} ExpandKeysReachable(c: ItemCatalog, rank: map<string, nat>, item: string, units: real, x: string)
    requires Valid(c, rank) && DependsOn(c, rank, item, x)
    ensures x in Expand(c, rank, item, units)
    decreases RankOf(rank, item)
  {
    ExpandKeysBelow(c, rank, item, units);
    if x != item {
      var ings := c[item].ingredients.value;
      assert IngredientsBelow(c, rank, item);
      var i :| 0 <= i < |ings| && DependsOn(c, rank, ings[i].name, x);
      var names, child := Children(c, item), ChildUnits(c, item, units);
      ChildrenListed(c, item, i);
      var j :| 0 <= j < |names| && names[j] == ings[i].name;
      ExpandKeysReachable(c, rank, names[j], child[names[j]], x);
      ChildrenBelow(c, rank, item);
      FoldKeys(c, rank, RankOf(rank, item), map[item := units], names, child, x);
    }
  }

  /** Resolving at a zero unit count falls back to one unit, like an absent count. */
  lemma ZeroUnitsResolveAsOne(c: ItemCatalog, item: string)
    requires WellFormed(c) && item in c
    ensures ChildUnits(c, item, 0.0) == ChildUnits(c, item, 1.0)
  {
  }

  /** The conversion to a rate is linear in the unit count. */
  lemma FactoriesToRateScale(c: ItemCatalog, item: string, units: real, factor: real)
    requires WellFormed(c)
    ensures FactoriesToRate(c, item, factor * units) == factor * FactoriesToRate(c, item, units)
  {
    QuotientScale(units, factor, GetCraftingTime(c, item), OutputQuantity(c, item));
  }

  lemma QuotientScale(x: real, factor: real, t: real, q: real)
    requires t > 0.0 && q > 0.0
    ensures factor * x / t / q == factor * (x / t / q)
  {
    assert factor * x / t == factor * (x / t);
  }

  /** For a non-zero count, scaling the count scales every ingredient count. */
  lemma ChildUnitsScale(c: ItemCatalog, item: string, units: real, factor: real)
    requires WellFormed(c) && item in c && units != 0.0 && factor != 0.0
    ensures ChildUnits(c, item, factor * units) == Scale(ChildUnits(c, item, units), factor)
  {
    var recipe, rate := CraftedRecipe(c, item), FactoriesToRate(c, item, units);
    var scaled := factor * units;
    assert scaled != 0.0;
    FactoriesToRateScale(c, item, units, factor);
    var scaledRate := FactoriesToRate(c, item, scaled);
    assert scaledRate == factor * rate;
    ChildUnitsAt(c, item, scaled);
    ChildUnitsAt(c, item, units);
    IngredientUnitsScale(c, recipe, rate, factor);
  }

  lemma ChildUnitsAt(c: ItemCatalog, item: string, units: real)
    requires WellFormed(c) && item in c && units != 0.0
    ensures ChildUnits(c, item, units) == IngredientUnits(c, CraftedRecipe(c, item), FactoriesToRate(c, item, units))
  {
  }

  /**
   * Linearity: expanding a non-zero unit count scaled by a non-zero factor
   * scales every count of the requirement map by that factor.
   */
  lemma {:induction false} ExpandScale(c: ItemCatalog, rank: map<string, nat>, item: string, units: real, factor: real)
    requires Valid(c, rank) && units != 0.0 && factor != 0.0
    ensures Expand(c, rank, item, factor * units) == Scale(Expand(c, rank, item, units), factor)
    decreases RankOf(rank, item), 1
  {
    ScaleSingleton(item, units, factor);
    if !IsRaw(c, item) {
      ChildrenBelow(c, rank, item);
      ChildUnitsScale(c, item, units, factor);
      FoldScale(c, rank, RankOf(rank, item), map[item := units], Children(c, item), ChildUnits(c, item, units), factor);
    }
  }

  lemma {:induction false} FoldScale(c: ItemCatalog, rank: map<string, nat>, bound: nat, acc: RequirementMap,
                                     names: seq<string>, units: RequirementMap, factor: real)
    requires Valid(c, rank) && factor != 0.0
    requires forall n :: n in names ==> n in units && RankOf(rank, n) < bound && units[n] != 0.0
    ensures forall n :: n in names ==> n in Scale(units, factor)
    ensures ExpandFold(c, rank, bound, Scale(acc, factor), names, Scale(units, factor))
         == Scale(ExpandFold(c, rank, bound, acc, names, units), factor)
    decreases bound, 0, |names|
  {
    if names != [] {
      var last, prefix := names[|names| - 1], names[..|names| - 1];
      var scaled := Scale(units, factor);
      var u, su := units[last], scaled[last];
      assert su == factor * u;
      FoldScale(c, rank, bound, acc, prefix, units, factor);
      ExpandScale(c, rank, last, u, factor);
      assert Expand(c, rank, last, su) == Scale(Expand(c, rank, last, u), factor);
      var front, back := ExpandFold(c, rank, bound, acc, prefix, units), Expand(c, rank, last, units[last]);
      var scaledFront := ExpandFold(c, rank, bound, Scale(acc, factor), prefix, scaled);
      var scaledBack := Expand(c, rank, last, scaled[last]);
      assert scaledFront == Scale(front, factor);
      assert scaledBack == Scale(back, factor);
      MergeScale(front, back, factor);
    }
  }

  /** A non-zero unit count is expanded as it stands. */
  lemma CalculateUnits(c: ItemCatalog, rank: map<string, nat>, item: string, units: real)
    requires Valid(c, rank) && units != 0.0
    ensures Calculate(c, rank, item, Some(units), None) == Success(Expand(c, rank, item, units))
  {
  }

  /**
   * Linearity of calculate_facotry: scaling a non-zero requested unit count
   * by a non-zero factor (doubling it, say) scales every count of the result.
   */
  lemma CalculateScale(c: ItemCatalog, rank: map<string, nat>, item: string, units: real, factor: real)
    requires Valid(c, rank) && units != 0.0 && factor != 0.0
    ensures Calculate(c, rank, item, Some(factor * units), None)
         == Success(Scale(Calculate(c, rank, item, Some(units), None).value, factor))
  {
    ExpandScale(c, rank, item, units, factor);
    CalculateUnits(c, rank, item, units);
    CalculateUnits(c, rank, item, factor * units);
  }

  /** For a raw item the whole expansion is the item's own demand. */
  lemma CalculateRaw(c: ItemCatalog, rank: map<string, nat>, item: string, units: real)
    requires Valid(c, rank) && IsRaw(c, item) && units != 0.0
    ensures Calculate(c, rank, item, Some(units), None) == Success(map[item := units])
    ensures Calculate(c, rank, item, None, Some(units)) == Success(map[item := units])
  {
  }
}
