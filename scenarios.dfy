/**
 * Small catalogs worked through the model: a single recipe, a diamond
 * whose shared ingredient is reached along two paths, and the rate-only
 * call to ratio.
 */
module Scenarios {
  import opened Wrappers
  import opened Catalog
  import opened Requirements
  import opened Converter
  import opened Resolver
  import opened Aggregator

  /** One gear takes two plates and half a time unit; plates are raw. */
  function GearCatalog(): ItemCatalog
  {
    map["gear" := ItemDef(Some([Ingredient("plate", 2.0)]), Some(0.5), Some(1.0))]
  }

  function GearRank(): map<string, nat>
  {
    map["gear" := 1]
  }

  lemma GearValid()
    ensures Valid(GearCatalog(), GearRank())
  {
    assert IngredientsBelow(GearCatalog(), GearRank(), "gear");
  }

  lemma GearResolves()
    ensures WellFormed(GearCatalog()) && "gear" in GearCatalog()
    ensures Children(GearCatalog(), "gear") == ["plate"]
    ensures ChildUnits(GearCatalog(), "gear", 1.0) == map["plate" := 4.0]
  {
    GearValid();
    var c := GearCatalog();
    var names := Names(c["gear"].ingredients.value);
    assert names == ["plate"];
    assert names[..0] == [];
    assert Distinct(names) == ["plate"];
    assert CraftedRecipe(c, "gear") == map["plate" := 2.0];
    assert FactoriesToRate(c, "gear", 1.0) == 2.0;
    assert UnitsNeeded(c, "plate", 2.0, 2.0) == 4.0;
    ChildUnitsAt(c, "gear", 1.0);
    IngredientUnitsSingle(c, "plate", 2.0, 2.0);
  }

  /**
   * One gear unit runs at rate 1 / 0.5 = 2, which consumes 2 * 2 plates per
   * time unit, so four plate units: the gear and the plates, nothing else.
   */
  lemma GearExample()
    ensures Valid(GearCatalog(), GearRank())
    ensures Calculate(GearCatalog(), GearRank(), "gear", Some(1.0), None)
         == Success(map["gear" := 1.0, "plate" := 4.0])
  {
    GearValid();
    GearResolves();
    var c, rank := GearCatalog(), GearRank();
    var child := ChildUnits(c, "gear", 1.0);
    assert ["plate"][..0] == [];
    assert ExpandFold(c, rank, 1, map["gear" := 1.0], [], child) == map["gear" := 1.0];
    assert Expand(c, rank, "plate", 4.0) == map["plate" := 4.0];
    assert Expand(c, rank, "gear", 1.0) == Merge(map["gear" := 1.0], map["plate" := 4.0]);
    assert Merge(map["gear" := 1.0], map["plate" := 4.0]) == map["gear" := 1.0, "plate" := 4.0];
  }

  /** Asking ratio for a gear by rate alone reaches the conversion of the absent unit count. */
  lemma GearRateOnlyRaises()
    ensures Ratio(GearCatalog(), "gear", None, Some(2.0)) == Failure(NoneOperand)
  {
    GearValid();
  }

  /** An item made of one unit of each of `ingredients`, in one time unit, one per batch. */
  predicate MadeOf(c: ItemCatalog, item: string, ingredients: seq<string>)
  {
    && item in c
    && c[item].energy.None? && c[item].mainProductAmount == Some(1.0)
    && c[item].ingredients.Some?
    && Names(c[item].ingredients.value) == ingredients
    && forall i :: 0 <= i < |c[item].ingredients.value| ==> c[item].ingredients.value[i].amount == 1.0
  }

  /** An item that takes one time unit per cycle and yields one unit per batch. */
  predicate UnitItem(c: ItemCatalog, n: string)
  {
    n in c ==> c[n].energy.None? && c[n].mainProductAmount == Some(1.0)
  }

  lemma UnitConversions(c: ItemCatalog, n: string)
    requires WellFormed(c) && UnitItem(c, n)
    ensures FactoriesToRate(c, n, 1.0) == 1.0
    ensures UnitsNeeded(c, n, 1.0, 1.0) == 1.0
  {
    assert GetCraftingTime(c, n) == 1.0;
    assert OutputQuantity(c, n) == 1.0;
  }

  lemma RecipeOfTwo(a: string, b: string)
    ensures RecipeOf([Ingredient(a, 1.0), Ingredient(b, 1.0)]) == map[a := 1.0, b := 1.0]
  {
    var ings := [Ingredient(a, 1.0), Ingredient(b, 1.0)];
    assert ings[..1] == [Ingredient(a, 1.0)] && ings[..1][..0] == [];
    assert RecipeOf(ings[..1]) == map[a := 1.0];
  }

  lemma DistinctOne(a: string)
    ensures Distinct([a]) == [a]
  {
    assert [a][..0] == [];
  }

  lemma DistinctTwo(a: string, b: string)
    requires a != b
    ensures Distinct([a, b]) == [a, b]
  {
    assert [a, b][..1] == [a];
    DistinctOne(a);
  }

  /** An item made of one raw ingredient expands to one unit of itself and one of the ingredient. */
  lemma LegExpansion(c: ItemCatalog, rank: map<string, nat>, leg: string, raw: string)
    requires Valid(c, rank) && MadeOf(c, leg, [raw]) && raw !in c
    ensures Expand(c, rank, leg, 1.0) == map[leg := 1.0, raw := 1.0]
  {
    var ings := c[leg].ingredients.value;
    assert ings == [Ingredient(raw, 1.0)];
    DistinctOne(raw);
    assert Children(c, leg) == [raw];
    assert ings[..0] == [];
    assert CraftedRecipe(c, leg) == map[raw := 1.0];
    UnitConversions(c, leg);
    UnitConversions(c, raw);
    ChildUnitsAt(c, leg, 1.0);
    IngredientUnitsSingle(c, raw, 1.0, 1.0);
    var child := ChildUnits(c, leg, 1.0);
    assert child == map[raw := 1.0];
    ChildrenBelow(c, rank, leg);
    assert ExpandFold(c, rank, RankOf(rank, leg), map[leg := 1.0], [], child) == map[leg := 1.0];
    assert Expand(c, rank, raw, 1.0) == map[raw := 1.0];
    assert Expand(c, rank, leg, 1.0) == Merge(map[leg := 1.0], map[raw := 1.0]);
  }

  /** A fold over two names merges their expansions into the accumulator in turn. */
  lemma FoldTwo(c: ItemCatalog, rank: map<string, nat>, bound: nat, acc: RequirementMap,
                a: string, b: string, units: RequirementMap)
    requires Valid(c, rank)
    requires a in units && b in units && RankOf(rank, a) < bound && RankOf(rank, b) < bound
    ensures ExpandFold(c, rank, bound, acc, [a, b], units)
         == Merge(Merge(acc, Expand(c, rank, a, units[a])), Expand(c, rank, b, units[b]))
  {
    var names := [a, b];
    assert names[..1] == [a] && names[..1][..0] == [];
    assert ExpandFold(c, rank, bound, acc, [], units) == acc;
    assert ExpandFold(c, rank, bound, acc, [a], units) == Merge(acc, Expand(c, rank, a, units[a]));
  }

  /** The top of the diamond resolves to one unit of each of its two legs. */
  lemma TopResolves(c: ItemCatalog, rank: map<string, nat>, top: string, left: string, right: string)
    requires Valid(c, rank) && MadeOf(c, top, [left, right]) && left != right
    requires UnitItem(c, left) && UnitItem(c, right)
    ensures top != left && top != right
    ensures Children(c, top) == [left, right]
    ensures ChildUnits(c, top, 1.0) == map[left := 1.0, right := 1.0]
  {
    var ings := c[top].ingredients.value;
    assert ings == [Ingredient(left, 1.0), Ingredient(right, 1.0)];
    assert IngredientsBelow(c, rank, top);
    assert RankOf(rank, ings[0].name) < RankOf(rank, top);
    assert RankOf(rank, ings[1].name) < RankOf(rank, top);
    DistinctTwo(left, right);
    RecipeOfTwo(left, right);
    assert CraftedRecipe(c, top) == map[left := 1.0, right := 1.0];
    UnitConversions(c, top);
    UnitConversions(c, left);
    UnitConversions(c, right);
    ChildUnitsAt(c, top, 1.0);
    IngredientUnitsPair(c, left, 1.0, right, 1.0, 1.0);
  }

  /**
   * The diamond: a top item made of two legs, each leg made of the same raw
   * ingredient. The raw ingredient is reached along both paths and its two
   * unit counts are summed.
   */
  lemma DiamondExpansion(c: ItemCatalog, rank: map<string, nat>, top: string, left: string, right: string, raw: string)
    requires Valid(c, rank) && left != right && raw !in c
    requires MadeOf(c, top, [left, right]) && MadeOf(c, left, [raw]) && MadeOf(c, right, [raw])
    ensures Expand(c, rank, top, 1.0) == map[top := 1.0, left := 1.0, right := 1.0, raw := 2.0]
  {
    LegExpansion(c, rank, left, raw);
    LegExpansion(c, rank, right, raw);
    TopResolves(c, rank, top, left, right);
    var child := ChildUnits(c, top, 1.0);
    ChildrenBelow(c, rank, top);
    FoldTwo(c, rank, RankOf(rank, top), map[top := 1.0], left, right, child);
    MergeDiamond(top, left, right, raw);
  }

  lemma MergeDiamond(top: string, left: string, right: string, raw: string)
    requires top != left && top != right && top != raw && left != right && left != raw && right != raw
    ensures Merge(Merge(map[top := 1.0], map[left := 1.0, raw := 1.0]), map[right := 1.0, raw := 1.0])
         == map[top := 1.0, left := 1.0, right := 1.0, raw := 2.0]
  {
    var first := Merge(map[top := 1.0], map[left := 1.0, raw := 1.0]);
    assert first.Keys == {top, left, raw};
    assert first == map[top := 1.0, left := 1.0, raw := 1.0];
    var whole := Merge(first, map[right := 1.0, raw := 1.0]);
    assert whole.Keys == {top, left, right, raw};
  }

  /** An engine needs a gear and a cable; the gear and the cable each need ore, which is raw. */
  function DiamondCatalog(): ItemCatalog
  {
    map[
      "engine" := ItemDef(Some([Ingredient("gear", 1.0), Ingredient("cable", 1.0)]), None, Some(1.0)),
      "gear" := ItemDef(Some([Ingredient("ore", 1.0)]), None, Some(1.0)),
      "cable" := ItemDef(Some([Ingredient("ore", 1.0)]), None, Some(1.0))
    ]
  }

  function DiamondRank(): map<string, nat>
  {
    map["engine" := 2, "gear" := 1, "cable" := 1]
  }

  lemma DiamondValid()
    ensures Valid(DiamondCatalog(), DiamondRank())
  {
    var c, rank := DiamondCatalog(), DiamondRank();
    assert IngredientsBelow(c, rank, "engine");
    assert IngredientsBelow(c, rank, "gear");
    assert IngredientsBelow(c, rank, "cable");
  }

  /** One engine unit needs one gear and one cable unit, and ore is counted once per path, twice in all. */
  lemma DiamondExample()
    ensures Valid(DiamondCatalog(), DiamondRank())
    ensures Calculate(DiamondCatalog(), DiamondRank(), "engine", Some(1.0), None)
         == Success(map["engine" := 1.0, "gear" := 1.0, "cable" := 1.0, "ore" := 2.0])
  {
    DiamondValid();
    var c, rank := DiamondCatalog(), DiamondRank();
    assert MadeOf(c, "engine", ["gear", "cable"]);
    assert MadeOf(c, "gear", ["ore"]);
    assert MadeOf(c, "cable", ["ore"]);
    DiamondExpansion(c, rank, "engine", "gear", "cable", "ore");
  }
}
