/**
 * Conversion between a number of production units (concurrent production
 * cycles) and a throughput rate, using an item's crafting time and batch
 * size.
 */
module Converter {
  import opened Wrappers
  import opened Catalog

  /** The batch size of an item in a well-formed catalog, where reading it cannot raise. */
  function OutputQuantity(c: ItemCatalog, item: string): (q: real)
    requires WellFormed(c)
    ensures q > 0.0
    ensures Success(q) == GetOutputQuantity(c, item)
  {
    GetOutputQuantity(c, item).value
  }

  /** convert_rate_to_factories: the unit count that sustains `rate`. */
  function RateToFactories(c: ItemCatalog, item: string, rate: real): (factories: real)
    requires WellFormed(c)
    ensures IsRaw(c, item) ==> factories == rate
    ensures rate != 0.0 ==> factories != 0.0
  {
    var t, q := GetCraftingTime(c, item), OutputQuantity(c, item);
    DivideOutProduct(rate, t, q);
    rate * t * q
  }

  /** convert_factories_to_rate: the rate that `factories` units sustain. */
  function FactoriesToRate(c: ItemCatalog, item: string, factories: real): (rate: real)
    requires WellFormed(c)
    ensures IsRaw(c, item) ==> rate == factories
    ensures factories != 0.0 ==> rate != 0.0
  {
    var t, q := GetCraftingTime(c, item), OutputQuantity(c, item);
    MultiplyOutQuotient(factories, t, q);
    factories / t / q
  }

  lemma DivideOutProduct(x: real, t: real, q: real)
    requires t > 0.0 && q > 0.0
    ensures x * t * q / t / q == x
    ensures x != 0.0 ==> x * t * q != 0.0
  {
    assert x * t * q / t == x * q;
  }

  lemma MultiplyOutQuotient(x: real, t: real, q: real)
    requires t > 0.0 && q > 0.0
    ensures x / t / q * t * q == x
    ensures x != 0.0 ==> x / t / q != 0.0
  {
    assert x / t / q * q == x / t;
  }

  /**
   * The unit count for a rate, run for one crafting time per cycle with one
   * batch per cycle, yields exactly that rate.
   */
  lemma RateToFactoriesSustains(c: ItemCatalog, item: string, rate: real)
    requires WellFormed(c)
    ensures RateToFactories(c, item, rate) / GetCraftingTime(c, item) / OutputQuantity(c, item) == rate
  {
    DivideOutProduct(rate, GetCraftingTime(c, item), OutputQuantity(c, item));
  }

  /** The rate of a unit count is what those units yield over one crafting time. */
  lemma FactoriesToRateSustained(c: ItemCatalog, item: string, factories: real)
    requires WellFormed(c)
    ensures FactoriesToRate(c, item, factories) * GetCraftingTime(c, item) * OutputQuantity(c, item) == factories
  {
    MultiplyOutQuotient(factories, GetCraftingTime(c, item), OutputQuantity(c, item));
  }

  /** The two conversions undo each other, in both orders. */
  lemma ConvertersInverse(c: ItemCatalog, item: string, factories: real, rate: real)
    requires WellFormed(c)
    ensures RateToFactories(c, item, FactoriesToRate(c, item, factories)) == factories
    ensures FactoriesToRate(c, item, RateToFactories(c, item, rate)) == rate
  {
    MultiplyOutQuotient(factories, GetCraftingTime(c, item), OutputQuantity(c, item));
    DivideOutProduct(rate, GetCraftingTime(c, item), OutputQuantity(c, item));
  }

  /** A raw item takes one time unit per cycle and yields one unit, so both conversions are the identity. */
  lemma RawConversionsIdentity(c: ItemCatalog, item: string, x: real)
    requires WellFormed(c) && IsRaw(c, item)
    ensures GetCraftingTime(c, item) == 1.0 && GetOutputQuantity(c, item) == Success(1.0)
    ensures RateToFactories(c, item, x) == x && FactoriesToRate(c, item, x) == x
  {
  }
}
