# Factory calculator — a Dafny model

`facotry_calculator.py` is a bill-of-materials calculator for a factory-building
game. It reads a recipe catalog that maps each item to:

- its ingredients;
- its crafting time (`energy`);
- its batch size (`main_product.amount`).

From that catalog it computes how many production units (concurrent production
cycles, "factories") of every item a requested output needs. The result goes
all the way down to the raw materials, which are the names the catalog does
not list.

This project models the calculator's core in Dafny:

- the catalog accessors;
- the rate/unit converters;
- the one-level resolver `ratio`;
- the recursive aggregator `calculate_facotry` with its summing merge;
- the display sort;
- the set of raw materials.

The catalog is a `map<string, ItemDef>` passed to every operation. The
exceptions the code can raise become a `Fault` value in a `Result`:

- `ValueError` becomes `BothTargetsGiven`;
- the `TypeError` of using `None` becomes `NoneOperand`;
- the `KeyError` of an unknown item becomes `UnknownItem`.

Python truthiness of an optional count is `Resolver.Truthy`: the count is
present and non-zero.

Where the code loops while updating a dictionary or a list, the model is a
method with a loop. Each such method is proved equal to a specification
function, and the properties are lemmas about that function:

- `merge_dictionaries` is `MergeDictionaries`, specified by `Merge`;
- `get_recipe` is `GetRecipe`, specified by `RecipeOf`;
- `ratio` is `ComputeRatio`, specified by `Ratio`;
- `calculate_facotry` is `CalculateFactory`, specified by `Calculate`/`Expand`;
- `list_raw` is `ListRaw`.

The arithmetic operations need a catalog that satisfies `Catalog.Valid`:

- every entry lists its ingredients and its main product;
- times, batch sizes and amounts are positive;
- a rank map decreases along every item-to-ingredient edge. This is a witness
  that the ingredient graph is acyclic, which the recursion needs to terminate.

Modules:

- `Wrappers`: `Option`, `Result`.
- `Catalog`: catalog entries, `is_raw`, `get_item_parameter`, `get_ingredients`, `get_crafting_time`, `get_output_quantity`, `get_recipe`, `list_raw`.
- `Requirements`: requirement maps and `merge_dictionaries`.
- `Converter`: `convert_rate_to_factories`, `convert_factories_to_rate`.
- `Resolver`: `ratio`, as written and as corrected.
- `Aggregator`: `calculate_facotry`.
- `Sorting`: `sort_dict_alphabetically`.
- `Scenarios`: a one-level catalog and a diamond-shaped catalog, worked out completely.

## Model

| member | source | states |
|---|---|---|
| Catalog.IsRaw | facotry_calculator.py:45-49 | an item is raw exactly when the catalog has no entry for it, and then it has no parameter at all |
| Catalog.GetItemParameter | facotry_calculator.py:138-161 | None for an uncatalogued item or a parameter the entry lacks, otherwise the stored value, for each of the three parameters |
| Catalog.GetCraftingTime | facotry_calculator.py:82-92 | the entry's `energy` when present, otherwise 1 (also for a raw item) |
| Catalog.GetOutputQuantity | facotry_calculator.py:96-110 | 1 for a raw item; for a catalogued item, the main product's amount, or a fault exactly when the entry has no main product; positive and fault-free on a well-formed catalog |
| Catalog.Names | facotry_calculator.py:60-61 | the ingredient names of a list, position by position |
| Catalog.GetIngredients | facotry_calculator.py:53-66 | `UnknownItem` for an uncatalogued item, the empty list for an entry without ingredients, otherwise the ingredient names in list order |
| Catalog.RecipeOf | facotry_calculator.py:127-134 | the recipe's keys are exactly the listed ingredient names |
| Catalog.RecipeLastWins | facotry_calculator.py:131-132 | a name listed several times takes the amount of its last listing |
| Catalog.RecipeAmountListed | facotry_calculator.py:131-132 | every recipe amount is the amount of some listing of that name |
| Catalog.CraftedRecipe | facotry_calculator.py:114-134 | on a well-formed catalog the recipe has the listed names as keys and only positive amounts |
| Catalog.GetRecipe | facotry_calculator.py:114-134 | a `NoneOperand` fault when the item is raw or lists no ingredients; otherwise the recipe built by successive dictionary updates |
| Catalog.FirstIndex | facotry_calculator.py:131-132 | the position where a name is first listed: it holds the name, and no earlier position does (the position a dictionary key takes when the dictionary is filled in list order) |
| Catalog.Distinct | facotry_calculator.py:131-132 | the same elements, with no repeats |
| Catalog.DistinctFirstOccurrenceOrder | facotry_calculator.py:131-132 | the distinct elements come in the order of their first occurrences, which is the key order of a dictionary filled by successive updates |
| Catalog.IngredientNames | facotry_calculator.py:56-66 | what `get_ingredients` returns for a catalogued entry: the names of its ingredients in list order, or nothing when it has no `ingredients` |
| Catalog.RawAmong | facotry_calculator.py:74-76 | the inner loop of `list_raw`: exactly the names of one ingredient list that the catalog lacks |
| Catalog.ListRaw | facotry_calculator.py:71-78 | the result holds exactly the uncatalogued names that some catalogued item lists as an ingredient |
| Requirements.Scale | facotry_calculator.py:207-218 | not a step of the code: the pointwise scaling of a requirement map (same keys, each count multiplied) in which the linearity of `calculate_facotry` is stated (`Aggregator.ExpandScale`, `Aggregator.CalculateScale`) |
| Requirements.Get0 | facotry_calculator.py:34-39 | `dict.get(k, 0)`: the recorded count of a key, or 0 when the key is absent |
| Requirements.Merge | facotry_calculator.py:28-41 | the merged map's keys are the union of the two maps' keys; by definition each is mapped to `d1.get(k, 0) + d2.get(k, 0)` |
| Requirements.MergeDictionaries | facotry_calculator.py:28-41 | the keys are the union of both maps' keys, each mapped to the sum of its counts (0 where absent) |
| Requirements.MergeCommutative | facotry_calculator.py:28-41 | the order of the two arguments does not matter |
| Requirements.MergeAssociative | facotry_calculator.py:28-41 | successive merges may be regrouped |
| Requirements.MergeEmpty | facotry_calculator.py:28-41 | merging in an empty map changes nothing |
| Requirements.MergeScale | facotry_calculator.py:28-41 | scaling both maps scales their merge |
| Requirements.ScaleMergeAt | facotry_calculator.py:28-41 | for one key, the scaled counts of the two maps add up to the scaled merged count |
| Requirements.ScaleSingleton | facotry_calculator.py:210 | scaling the one-entry map `{item: units}` scales its count |
| Requirements.MergeAt | facotry_calculator.py:34-39 | a key's merged count is the sum of its counts in the two maps |
| Converter.OutputQuantity | facotry_calculator.py:96-110 | on a well-formed catalog the batch size is positive and reading it does not raise |
| Converter.RateToFactories | facotry_calculator.py:165-166 | a raw item's unit count equals its rate; a non-zero rate needs a non-zero unit count |
| Converter.FactoriesToRate | facotry_calculator.py:170-171 | a raw item's rate equals its unit count; a non-zero unit count gives a non-zero rate |
| Converter.DivideOutProduct | facotry_calculator.py:165-171 | dividing by positive time and batch size undoes multiplying by them |
| Converter.MultiplyOutQuotient | facotry_calculator.py:165-171 | multiplying by positive time and batch size undoes dividing by them |
| Converter.RateToFactoriesSustains | facotry_calculator.py:165-166 | the unit count for a rate, divided by the crafting time and the batch size, is that rate |
| Converter.FactoriesToRateSustained | facotry_calculator.py:170-171 | the rate of a unit count, multiplied by the crafting time and the batch size, is that count |
| Converter.ConvertersInverse | facotry_calculator.py:165-171 | the two conversions undo each other, in both orders |
| Converter.RawConversionsIdentity | facotry_calculator.py:165-171 | a raw item has time 1 and batch size 1, so both conversions are the identity |
| Resolver.Truthy | facotry_calculator.py:177-193 | `bool()` of an optional count: false exactly for `None` and for 0 |
| Resolver.UnitsNeeded | facotry_calculator.py:202 | the line-202 formula, amount × rate × the ingredient's crafting time ÷ its batch size; a raw ingredient needs amount × rate units, and a zero amount or rate needs none |
| Resolver.IngredientUnits | facotry_calculator.py:200-202 | exactly one count per recipe ingredient |
| Resolver.IngredientUnitsLastWins | facotry_calculator.py:131-132 | a duplicated ingredient is resolved with the amount of its last listing |
| Resolver.IngredientUnitsSingle | facotry_calculator.py:200-202 | a one-ingredient recipe resolves to that ingredient's count alone |
| Resolver.IngredientUnitsPair | facotry_calculator.py:200-202 | a two-ingredient recipe resolves to the count of each |
| Resolver.IngredientUnitsNonZero | facotry_calculator.py:202 | with positive amounts and a non-zero rate, no ingredient count is zero |
| Resolver.UnitsNeededNonZero | facotry_calculator.py:202 | one ingredient's count is non-zero for a positive amount and a non-zero rate |
| Resolver.IngredientUnitsScale | facotry_calculator.py:202 | the ingredient counts are linear in the parent's rate |
| Resolver.UnitsNeededScale | facotry_calculator.py:202 | one ingredient's count is linear in the parent's rate |
| Resolver.IngredientUnitsScaleAt | facotry_calculator.py:202 | at a scaled parent rate, one ingredient's count equals that ingredient's entry in the scaled count map |
| Resolver.IngredientUnitsScaledEntry | facotry_calculator.py:202 | at a scaled parent rate, one ingredient's count is its count at the original rate times the factor |
| Resolver.Ratio | facotry_calculator.py:175-203 | as written: `BothTargetsGiven` exactly when both targets are truthy; `NoneOperand` exactly for a crafted item given only a rate (line 196); a raw item maps to its own count, rate or 1; a crafted item resolves the given rate, or the rate of the given or default one unit; every count is non-zero |
| Resolver.RatioIntended | facotry_calculator.py:175-203 | corrected: fails exactly when both targets are truthy, and agrees with `Ratio` everywhere except a crafted item given only a rate |
| Resolver.RatioRateOnlyRaises | facotry_calculator.py:193-196 | as written, a crafted item asked for a non-zero rate raises, while the equivalent unit count succeeds |
| Resolver.RatioIntendedRateMatchesUnits | facotry_calculator.py:175-203 | corrected, a rate succeeds, and for a crafted item it gives the same requirements as the unit count that sustains it |
| Resolver.ComputeRatio | facotry_calculator.py:175-203 | the step-by-step procedure returns what `Ratio` specifies |
| Resolver.ComputeIngredientUnits | facotry_calculator.py:200-202 | the loop builds the per-ingredient counts that `IngredientUnits` specifies |
| Aggregator.Children | facotry_calculator.py:215 | the names iterated are exactly the recipe's keys, each once |
| Aggregator.ChildrenInListingOrder | facotry_calculator.py:215 | the ingredients are visited in the order of their first listing, the key order of the ratio dictionary |
| Aggregator.ChildrenListed | facotry_calculator.py:215 | every listed ingredient is iterated |
| Aggregator.ChildrenBelow | facotry_calculator.py:216 | every recursive call is on an ingredient ranked below the item, so the recursion terminates on a ranked catalog |
| Aggregator.ChildUnits | facotry_calculator.py:214 | one non-zero count per ingredient |
| Aggregator.ChildUnitsIsRatio | facotry_calculator.py:214 | the counts passed down are what `ratio(item, output_factories)` returns, both as written and as corrected |
| Aggregator.Expand | facotry_calculator.py:210-216 | the requirement map of a unit count: `{item: units}`, and for a crafted item the merge of the expansion of every ingredient at the count ratio gives it (a zero count resolving as one unit); the item is always a key |
| Aggregator.ExpandFold | facotry_calculator.py:215-216 | the loop over the ingredients: each ingredient's expansion merged into the running total in turn; no key of the running total is lost |
| Aggregator.Calculate | facotry_calculator.py:207-218 | fails (`NoneOperand`) exactly when the count is falsy and no rate is given; otherwise the root maps to the given count or to the rate's unit count, and a raw item's result is that single entry |
| Aggregator.CalculateFactory | facotry_calculator.py:207-218 | the recursive procedure returns what `Calculate` specifies |
| Aggregator.ExpandIngredients | facotry_calculator.py:213-216 | the loop that merges every ingredient's requirement map into the total computes the expansion |
| Aggregator.FoldStep | facotry_calculator.py:215-216 | one loop iteration merges the next ingredient's expansion |
| Aggregator.ExpandKeysBelow | facotry_calculator.py:210-216 | an expansion holds its root, and every other key ranks below the root |
| Aggregator.FoldKeysBelow | facotry_calculator.py:215-216 | merging ingredient expansions keeps the running total's keys and adds only keys ranked below the item |
| Aggregator.FoldAt | facotry_calculator.py:215-216 | a name's total is its count in the running total plus each branch's contribution |
| Aggregator.ExpandAt | facotry_calculator.py:207-218 | shared ingredients are summed: a name's total is the root's own count if it is the root, plus the contribution of every ingredient branch that reaches it |
| Aggregator.ContributionsAbove | facotry_calculator.py:215-216 | no branch contributes to a name ranked at or above the branches' bound |
| Aggregator.ExpandRoot | facotry_calculator.py:210 | on an acyclic catalog the root maps to exactly the requested count |
| Aggregator.FoldKeys | facotry_calculator.py:215-216 | the keys of the total are the item's and those of every branch |
| Aggregator.ExpandKeys | facotry_calculator.py:207-218 | the keys are exactly the root and every item reachable from it through ingredient listings |
| Aggregator.ChildListing | facotry_calculator.py:215 | every iterated name is the name of some listing |
| Aggregator.ExpandKeysReached | facotry_calculator.py:207-218 | every key of the result is reachable from the root |
| Aggregator.ExpandKeysReachable | facotry_calculator.py:207-218 | every reachable item is a key of the result |
| Aggregator.ZeroUnitsResolveAsOne | facotry_calculator.py:190-192 | a zero count is resolved like one unit, since ratio treats it as absent |
| Aggregator.FactoriesToRateScale | facotry_calculator.py:170-171 | the rate is linear in the unit count |
| Aggregator.QuotientScale | facotry_calculator.py:171 | dividing by time and batch size commutes with scaling |
| Aggregator.ChildUnitsScale | facotry_calculator.py:214 | scaling a non-zero count scales every ingredient count |
| Aggregator.ChildUnitsAt | facotry_calculator.py:193-194 | a non-zero count is resolved at the rate it sustains |
| Aggregator.ExpandScale | facotry_calculator.py:207-218 | linearity: scaling a non-zero count scales every count of the expansion |
| Aggregator.FoldScale | facotry_calculator.py:215-216 | linearity carries through the merge of the ingredient expansions |
| Aggregator.CalculateUnits | facotry_calculator.py:207-218 | a non-zero count is expanded as given |
| Aggregator.CalculateScale | facotry_calculator.py:207-218 | linearity of the whole calculation: a scaled request (doubled, say) scales every count of the result |
| Aggregator.CalculateRaw | facotry_calculator.py:207-213 | for a raw item the result is the single entry of its own demand, given as a count or a rate |
| Sorting.StrLess | facotry_calculator.py:23 | Python's `<` on `str`: lexicographic by code point, so a proper prefix sorts first and otherwise the first differing character decides |
| Sorting.IsDigits | facotry_calculator.py:23 | `str.isdigit()` for decimal digits: a non-empty string whose every character is '0'..'9' |
| Sorting.KeyBefore | facotry_calculator.py:23 | the order of the key `(not name.isdigit(), name)`: a digit-only name before any other, and names of the same kind by `<` |
| Sorting.StrLessIrreflexive | facotry_calculator.py:23 | no name sorts before itself |
| Sorting.StrLessTransitive | facotry_calculator.py:23 | string order is transitive |
| Sorting.StrLessTotal | facotry_calculator.py:23 | of two different names, one sorts first |
| Sorting.KeyBeforeIrreflexive | facotry_calculator.py:23 | the sort key never puts a name before itself |
| Sorting.KeyBeforeTransitive | facotry_calculator.py:23 | the sort key's order is transitive |
| Sorting.KeyBeforeTotal | facotry_calculator.py:23 | the sort key orders any two different names |
| Sorting.Insert | facotry_calculator.py:23 | inserting an entry into a sorted list gives a sorted permutation of both |
| Sorting.InsertFront | facotry_calculator.py:23 | an entry that precedes a sorted list's head may go in front |
| Sorting.InsertBehind | facotry_calculator.py:23 | an entry that precedes every element may go in front |
| Sorting.SortDictAlphabetically | facotry_calculator.py:22-24 | the result is a permutation of the items and is sorted by the key (digit-only name first, then the name) |
| Sorting.DistinctTail | facotry_calculator.py:22-24 | the tail of a dictionary's items has distinct keys |
| Sorting.HeadKeyFresh | facotry_calculator.py:22-24 | no rearrangement of the tail shares the head's key |
| Sorting.SortedGroups | facotry_calculator.py:23 | every digit-only name comes before every other name, and each group is in ascending order |
| Sorting.SortKeepsEntries | facotry_calculator.py:22-24 | sorting keeps exactly the original name-count pairs |
| Sorting.SortedUnique | facotry_calculator.py:22-24 | the sorted order is fully determined: two sorted arrangements of the same entries are equal |
| Sorting.SortedHeadsAgree | facotry_calculator.py:23 | two sorted arrangements of the same entries start with the same entry |
| Sorting.SortedTail | facotry_calculator.py:23 | the tail of a sorted list is sorted |
| Scenarios.GearValid | facotry_calculator.py:207-218 | the gear catalog is valid |
| Scenarios.GearResolves | facotry_calculator.py:199-203 | one gear unit (time 0.5, 2 plates) needs 4 units of plate |
| Scenarios.GearExample | facotry_calculator.py:207-218 | one gear unit expands to `{gear: 1, plate: 4}` |
| Scenarios.GearRateOnlyRaises | facotry_calculator.py:196 | asking `ratio` for the gear at rate 2 raises |
| Scenarios.UnitConversions | facotry_calculator.py:165-171 | an item with time 1 and batch size 1 converts one unit to rate 1 and needs one unit per unit |
| Scenarios.RecipeOfTwo | facotry_calculator.py:131-132 | a two-ingredient list gives the two-entry recipe |
| Scenarios.DistinctOne | facotry_calculator.py:215 | one name is iterated once |
| Scenarios.DistinctTwo | facotry_calculator.py:215 | two different names are iterated in order |
| Scenarios.LegExpansion | facotry_calculator.py:207-218 | one unit of an item made of one raw ingredient expands to one unit of each |
| Scenarios.FoldTwo | facotry_calculator.py:215-216 | a two-ingredient loop merges the two expansions in turn |
| Scenarios.TopResolves | facotry_calculator.py:199-203 | the diamond's top resolves to one unit of each leg |
| Scenarios.DiamondExpansion | facotry_calculator.py:207-218 | in any diamond (top → two legs → one shared raw item) the shared item's counts from the two paths are summed to 2 |
| Scenarios.MergeDiamond | facotry_calculator.py:28-41 | merging the two leg results sums the shared raw item |
| Scenarios.DiamondValid | facotry_calculator.py:207-218 | the engine catalog is valid |
| Scenarios.DiamondExample | facotry_calculator.py:207-218 | one engine (gear and cable, each made of ore) needs `{engine: 1, gear: 1, cable: 1, ore: 2}` |

## Left out

- Loading `recipe.json` and `config.yaml` (lines 7-18): the catalog is a parameter, and `raw_material_identifier` is never used by the core.
- The command-line front end (`main`, lines 222-264) and every `print`. `ListRaw` returns the set that `list_raw` prints.
- Floating point: counts are exact reals, so rounding is not modelled. Integer amounts from JSON are reals.
- Dictionary order: the order in which `calculate_facotry` visits the ratio's keys is modelled (`Aggregator.Children`, first listing first, proved by `Aggregator.ChildrenInListingOrder`), and so is the order of the sorted entries. The key order of the dictionaries that `merge_dictionaries`, `ratio` and `calculate_facotry` return is not: requirement maps are maps.
- `str.isdigit()` is modelled for the ASCII digits '0'..'9' only; other Unicode digits are not.
- Cyclic catalogs: the code recurses without end on them. The model requires a rank map that decreases along ingredient edges (`Catalog.Valid`).
- Aggregator.Calculate: requires `Catalog.Valid`, which excludes these catalogs:
  - a catalogued entry without `ingredients` or `main_product`. These faults are modelled one level down, in `Catalog.GetRecipe` and `Catalog.GetOutputQuantity`.
  - a zero time or batch size, which divides by zero.
  - a zero ingredient amount. The count at line 202 becomes 0; the recursive call reads it as absent at line 208 and multiplies the absent rate at line 209, which raises `TypeError`.
  - negative times, batch sizes or amounts. The code computes these without any fault; the model does not cover them.
- Resolver.Ratio: requires `Catalog.WellFormed`. The model therefore excludes a zero ingredient amount, which `ratio` itself accepts: line 202 gives that ingredient a count of 0 without fault (`Resolver.UnitsNeeded` yields 0 for it too). It also excludes a catalogued entry without `ingredients` or `main_product`, whose fault is modelled in `Catalog.GetRecipe` and `Catalog.GetOutputQuantity`.
- The bare `except` in `get_crafting_time` (lines 90-92) is the path of every raw item: indexing the catalog with an uncatalogued name raises there, and the function returns 1. `Catalog.GetCraftingTime` models it by its uncatalogued branch; only the message it prints is left out.
- The bare `except` in `get_item_parameter` (lines 156-157) sits inside the test that the item is catalogued, so only an entry that is not a dictionary reaches it. Entries are always records here, so that path cannot occur.
- Aggregator.CalculateScale: stated only for a non-zero count and factor. A zero count is kept at the root but its ingredients are resolved as for one unit (`Aggregator.ZeroUnitsResolveAsOne`), so linearity fails at zero.
- An item is raw only when the catalog has no entry for it. An entry without `ingredients` is not raw; `get_recipe` raises for it.
- `calculate_facotry` never raises the "only one of factories and rate" error: a truthy unit count silently wins over a rate (`Aggregator.Calculate`).
- A catalog entry with an empty body for an ingredient such as `plate` has no `main_product`, so resolving it raises. The worked examples therefore leave `plate` and `ore` out of the catalog, which makes them raw.

## Findings

| source | as written | input that shows it | evidently intended | confidence | as-written member | corrected member |
|---|---|---|---|---|---|---|
| facotry_calculator.py:196 | when only a rate is given, `output_factories = convert_rate_to_factories(item, output_factories)` converts the absent unit count (`None`) | `ratio(item, output_rate=2)` for any crafted item raises `TypeError` (`Scenarios.GearRateOnlyRaises`) | convert the given rate (`output_rate`) and resolve the ingredients at that rate | not executed | Resolver.RatioRateOnlyRaises | Resolver.RatioIntendedRateMatchesUnits |
