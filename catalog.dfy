/**
 * The recipe catalog and the accessors the calculator reads it through.
 *
 * The catalog maps an item name to its entry. An item is raw exactly when
 * it has no entry. The catalog is read-only: every operation takes it as a
 * parameter.
 */
module Catalog {
  import opened Wrappers

  /** One element of an entry's `ingredients` list. */
  datatype Ingredient = Ingredient(name: string, amount: real)

  /**
   * A catalog entry. A field is None when the entry does not carry it;
   * `mainProductAmount` is the `amount` of the entry's `main_product`.
   */
  datatype ItemDef = ItemDef(
    ingredients: Option<seq<Ingredient>>,
    energy: Option<real>,
    mainProductAmount: Option<real>)

  type ItemCatalog = map<string, ItemDef>

  /** The exceptions the calculator can raise. */
  datatype Fault =
    | BothTargetsGiven  // ValueError: a unit count and a rate were both given
    | NoneOperand       // TypeError: None was multiplied, iterated or subscripted
    | UnknownItem       // KeyError: the catalog was indexed with a name it lacks

  /** The parameters an entry can carry, and the values they hold. */
  datatype Parameter = IngredientsParam | EnergyParam | MainProductParam
  datatype ParamValue = IngredientList(list: seq<Ingredient>) | Number(number: real)

  /** An item is raw when the catalog has no parameter at all for it. */
  predicate IsRaw(c: ItemCatalog, item: string): (raw: bool)
    ensures raw ==> forall p: Parameter :: GetItemParameter(c, item, p) == None
    ensures !raw <==> item in c
  {
    item !in c
  }

  /**
   * Looks a parameter of an item up: None for an uncatalogued item and for
   * a parameter its entry does not carry, else the stored value.
   */
  function GetItemParameter(c: ItemCatalog, item: string, p: Parameter): (r: Option<ParamValue>)
    ensures p == IngredientsParam ==>
      r == if item in c && c[item].ingredients.Some? then Some(IngredientList(c[item].ingredients.value)) else None
    ensures p == EnergyParam ==>
      r == if item in c && c[item].energy.Some? then Some(Number(c[item].energy.value)) else None
    ensures p == MainProductParam ==>
      r == if item in c && c[item].mainProductAmount.Some? then Some(Number(c[item].mainProductAmount.value)) else None
  {
    if item !in c then None
    else
      var d := c[item];
      match p
      case IngredientsParam => if d.ingredients.Some? then Some(IngredientList(d.ingredients.value)) else None
      case EnergyParam => if d.energy.Some? then Some(Number(d.energy.value)) else None
      case MainProductParam => if d.mainProductAmount.Some? then Some(Number(d.mainProductAmount.value)) else None
  }

  /** The duration of one production cycle; 1 when the entry or its `energy` is missing. */
  function GetCraftingTime(c: ItemCatalog, item: string): (t: real)
    ensures item in c && c[item].energy.Some? ==> t == c[item].energy.value
    ensures item !in c || c[item].energy.None? ==> t == 1.0
  {
    if item in c && c[item].energy.Some? then c[item].energy.value else 1.0
  }

  /**
   * Units produced per cycle: 1 for a raw item, else the main product's
   * amount; subscripting the missing `main_product` raises.
   */
  function GetOutputQuantity(c: ItemCatalog, item: string): (q: Result<real, Fault>)
    ensures IsRaw(c, item) ==> q == Success(1.0)
    ensures !IsRaw(c, item) ==> (q.Success? <==> c[item].mainProductAmount.Some?)
    ensures q.Success? && !IsRaw(c, item) ==> q.value == c[item].mainProductAmount.value
    ensures WellFormed(c) ==> q.Success? && q.value > 0.0
  {
    if IsRaw(c, item) then Success(1.0)
    else
      match GetItemParameter(c, item, MainProductParam)
      case Some(Number(amount)) => Success(amount)
      case _ => Failure(NoneOperand)
  }

  /**
   * The catalog fields the arithmetic relies on: every entry lists its
   * ingredients and its main product, and every time, batch size and
   * ingredient amount is positive (a zero would divide by zero, or make a
   * later step read the count as absent).
   */
  predicate EntryWellFormed(d: ItemDef)
  {
    && d.ingredients.Some?
    && d.mainProductAmount.Some? && d.mainProductAmount.value > 0.0
    && (d.energy.Some? ==> d.energy.value > 0.0)
    && forall i :: 0 <= i < |d.ingredients.value| ==> d.ingredients.value[i].amount > 0.0
  }

  predicate WellFormed(c: ItemCatalog)
  {
    forall item :: item in c ==> EntryWellFormed(c[item])
  }

  /** The rank of a name; names the rank map does not list have rank 0. */
  function RankOf(rank: map<string, nat>, x: string): nat
  {
    if x in rank then rank[x] else 0
  }

  /** Every ingredient of `item` ranks strictly below `item`. */
  predicate IngredientsBelow(c: ItemCatalog, rank: map<string, nat>, item: string)
    requires item in c
  {
    c[item].ingredients.Some? ==>
      forall i :: 0 <= i < |c[item].ingredients.value| ==>
        RankOf(rank, c[item].ingredients.value[i].name) < RankOf(rank, item)
  }

  /**
   * `rank` witnesses that the ingredient graph is acyclic: along every
   * item-to-ingredient edge the rank strictly decreases.
   */
  predicate Ranked(c: ItemCatalog, rank: map<string, nat>)
  {
    forall item :: item in c ==> IngredientsBelow(c, rank, item)
  }

  /** The catalogs on which the calculator neither raises nor recurses forever. */
  predicate Valid(c: ItemCatalog, rank: map<string, nat>)
  {
    WellFormed(c) && Ranked(c, rank)
  }

  /** The ingredient names of a list, in list order. */
  function Names(ings: seq<Ingredient>): (names: seq<string>)
    ensures |names| == |ings|
    ensures forall i :: 0 <= i < |ings| ==> names[i] == ings[i].name
  {
    if ings == [] then [] else Names(ings[..|ings| - 1]) + [ings[|ings| - 1].name]
  }

  /** The names an entry lists as ingredients; none when it has no `ingredients`. */
  function IngredientNames(d: ItemDef): (names: seq<string>)
    ensures d.ingredients.None? ==> names == []
    ensures d.ingredients.Some? ==>
      |names| == |d.ingredients.value| && forall i :: 0 <= i < |names| ==> names[i] == d.ingredients.value[i].name
  {
    if d.ingredients.Some? then Names(d.ingredients.value) else []
  }

  /**
   * get_ingredients: the ingredient names of a catalogued item, in order;
   * indexing the catalog with an uncatalogued name raises.
   */
  method GetIngredients(c: ItemCatalog, item: string) returns (res: Result<seq<string>, Fault>)
    ensures item !in c ==> res == Failure(UnknownItem)
    ensures item in c && c[item].ingredients.None? ==> res == Success([])
    ensures item in c && c[item].ingredients.Some? ==>
      res.Success? && |res.value| == |c[item].ingredients.value| &&
      forall i :: 0 <= i < |res.value| ==> res.value[i] == c[item].ingredients.value[i].name
  {
    if item !in c {
      return Failure(UnknownItem);
    }
    var names: seq<string> := [];
    if c[item].ingredients.Some? {
      var ings := c[item].ingredients.value;
      for i := 0 to |ings|
        invariant |names| == i
        invariant forall j :: 0 <= j < i ==> names[j] == ings[j].name
      {
        names := names + [ings[i].name];
      }
    }
    return Success(names);
  }

  /**
   * The recipe dictionary built from an ingredient list: each entry in turn
   * updates the dictionary, so a later duplicate overwrites an earlier one.
   */
  function RecipeOf(ings: seq<Ingredient>): (recipe: map<string, real>)
    ensures forall n :: n in recipe <==> n in Names(ings)
  {
    if ings == [] then map[]
    else
      var last := ings[|ings| - 1];
      assert Names(ings) == Names(ings[..|ings| - 1]) + [last.name];
      RecipeOf(ings[..|ings| - 1])[last.name := last.amount]
  }

  /** The amount a recipe records for a name is that of its last listing. */
  lemma {:induction false} RecipeLastWins(ings: seq<Ingredient>, i: nat)
    requires i < |ings|
    requires forall j :: i < j < |ings| ==> ings[j].name != ings[i].name
    ensures ings[i].name in RecipeOf(ings)
    ensures RecipeOf(ings)[ings[i].name] == ings[i].amount
  {
    assert Names(ings)[i] == ings[i].name;
    if i < |ings| - 1 {
      var prefix := ings[..|ings| - 1];
      assert prefix[i] == ings[i];
      RecipeLastWins(prefix, i);
    }
  }

  /** Every recipe value is one of the listed amounts; so it is positive in a well-formed entry. */
  lemma {:induction false} RecipeAmountListed(ings: seq<Ingredient>, n: string)
    requires n in RecipeOf(ings)
    ensures exists i :: 0 <= i < |ings| && ings[i].name == n && ings[i].amount == RecipeOf(ings)[n]
  {
    var last := ings[|ings| - 1];
    if last.name != n {
      var prefix := ings[..|ings| - 1];
      RecipeAmountListed(prefix, n);
      var i :| 0 <= i < |prefix| && prefix[i].name == n && prefix[i].amount == RecipeOf(prefix)[n];
      assert ings[i] == prefix[i];
    }
  }

  /** The recipe of a catalogued item of a well-formed catalog: its names, with positive amounts. */
  function CraftedRecipe(c: ItemCatalog, item: string): (recipe: map<string, real>)
    requires WellFormed(c) && item in c
    ensures forall n :: n in recipe <==> n in Names(c[item].ingredients.value)
    ensures forall n :: n in recipe ==> recipe[n] > 0.0
  {
    var ings := c[item].ingredients.value;
    forall n | n in RecipeOf(ings)
      ensures RecipeOf(ings)[n] > 0.0
    {
      RecipeAmountListed(ings, n);
    }
    RecipeOf(ings)
  }

  /**
   * get_recipe: the recipe dictionary of an item; iterating the missing
   * `ingredients` of a raw item (or of an entry without them) raises.
   */
  method GetRecipe(c: ItemCatalog, item: string) returns (res: Result<map<string, real>, Fault>)
    ensures IsRaw(c, item) || c[item].ingredients.None? ==> res == Failure(NoneOperand)
    ensures !IsRaw(c, item) && c[item].ingredients.Some? ==> res == Success(RecipeOf(c[item].ingredients.value))
  {
    var p := GetItemParameter(c, item, IngredientsParam);
    if p.None? || !p.value.IngredientList? {
      return Failure(NoneOperand);
    }
    var ings := p.value.list;
    var recipe: map<string, real> := map[];
    for i := 0 to |ings|
      invariant recipe == RecipeOf(ings[..i])
    {
      assert ings[..i + 1][..i] == ings[..i];
      recipe := recipe[ings[i].name := ings[i].amount];
    }
    assert ings[..|ings|] == ings;
    return Success(recipe);
  }

  /** The position of the first occurrence of `x` in `s`. */
  function FirstIndex(s: seq<string>, x: string): (i: nat)
    requires x in s
    ensures i < |s| && s[i] == x
    ensures x !in s[..i]
  {
    var init := s[..|s| - 1];
    if x in init then
      var i := FirstIndex(init, x);
      assert s[..i] == init[..i];
      i
    else
      assert s[..|s| - 1] == init;
      |s| - 1
  }

  /** The distinct elements of a sequence, each at its first occurrence. */
  function Distinct(s: seq<string>): (d: seq<string>)
    ensures forall x :: x in d <==> x in s
    ensures forall i, j :: 0 <= i < j < |d| ==> d[i] != d[j]
  {
    if s == [] then []
    else
      var prefix := Distinct(s[..|s| - 1]);
      assert s == s[..|s| - 1] + [s[|s| - 1]];
      if s[|s| - 1] in prefix then prefix else prefix + [s[|s| - 1]]
  }

  /**
   * The distinct elements keep the order of their first occurrences: the key
   * order of a dictionary filled in the order of `s`.
   */
  lemma {:induction false} DistinctFirstOccurrenceOrder(s: seq<string>, i: nat, j: nat)
    requires i < j < |Distinct(s)|
    ensures FirstIndex(s, Distinct(s)[i]) < FirstIndex(s, Distinct(s)[j])
  {
    var init := s[..|s| - 1];
    var prefix, d := Distinct(init), Distinct(s);
    assert s == init + [s[|s| - 1]];
    assert d[i] == prefix[i];
    assert FirstIndex(s, d[i]) == FirstIndex(init, d[i]);
    if j < |prefix| {
      assert d[j] == prefix[j];
      DistinctFirstOccurrenceOrder(init, i, j);
    } else {
      assert d[j] == s[|s| - 1] && d[j] !in init;
    }
  }

  /** The inner loop of list_raw: the names of a list that the catalog lacks. */
  method RawAmong(c: ItemCatalog, names: seq<string>) returns (found: set<string>)
    ensures forall x :: x in found <==> x !in c && x in names
  {
    found := {};
    for i := 0 to |names|
      invariant forall x :: x in found <==> x !in c && x in names[..i]
    {
      assert names[..i + 1] == names[..i] + [names[i]];
      if IsRaw(c, names[i]) {
        found := found + {names[i]};
      }
    }
    assert names[..|names|] == names;
  }

  /** The names some catalogued item lists as an ingredient but the catalog lacks. */
  ghost predicate IsListedRaw(c: ItemCatalog, x: string)
  {
    x !in c && exists item :: item in c && x in IngredientNames(c[item])
  }

  /**
   * list_raw: the set of raw materials, found by scanning every entry's
   * ingredient names.
   */
  method ListRaw(c: ItemCatalog) returns (raws: set<string>)
    ensures forall x :: x in raws <==> IsListedRaw(c, x)
  {
    raws := {};
    var todo := c.Keys;
    while todo != {}
      invariant todo <= c.Keys
      invariant forall x :: x in raws <==>
        x !in c && exists item :: item in c.Keys - todo && x in IngredientNames(c[item])
      decreases todo
    {
      var item :| item in todo;
      var names := GetIngredients(c, item);
      assert names.value == IngredientNames(c[item]);
      var found := RawAmong(c, names.value);
      raws := raws + found;
      todo := todo - {item};
    }
  }
}
