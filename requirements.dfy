/**
 * Requirement maps: item name to production-unit count, and the summing
 * merge that combines them.
 */
module Requirements {

  type RequirementMap = map<string, real>

  /** `d.get(k, 0)`: the count recorded for `k`, or 0. */
  function Get0(d: RequirementMap, k: string): (v: real)
    ensures k in d ==> v == d[k]
    ensures k !in d ==> v == 0.0
  {
    if k in d then d[k] else 0.0
  }

  /** The merge of two requirement maps: a key of either, mapped to the sum of its counts. */
  function Merge(d1: RequirementMap, d2: RequirementMap): (m: RequirementMap)
    ensures m.Keys == d1.Keys + d2.Keys
  {
    map k | k in d1.Keys + d2.Keys :: Get0(d1, k) + Get0(d2, k)
  }

  /** Every count multiplied by `factor`. */
  function Scale(d: RequirementMap, factor: real): (s: RequirementMap)
    ensures s.Keys == d.Keys
    ensures forall k :: k in s ==> s[k] == factor * d[k]
  {
    map k | k in d :: factor * d[k]
  }

  /**
   * merge_dictionaries: copies the first map and then adds each entry of the
   * second, summing the counts of a key both carry.
   */
  method MergeDictionaries(d1: RequirementMap, d2: RequirementMap) returns (merged: RequirementMap)
    ensures merged.Keys == d1.Keys + d2.Keys
    ensures forall k :: k in merged ==> merged[k] == Get0(d1, k) + Get0(d2, k)
    ensures merged == Merge(d1, d2)
  {
    merged := map[];
    var todo := d1.Keys;
    while todo != {}
      invariant todo <= d1.Keys
      invariant merged.Keys == d1.Keys - todo
      invariant forall k :: k in merged ==> merged[k] == d1[k]
      decreases todo
    {
      var k :| k in todo;
      merged := merged[k := Get0(merged, k) + d1[k]];
      todo := todo - {k};
    }
    todo := d2.Keys;
    while todo != {}
      invariant todo <= d2.Keys
      invariant merged.Keys == d1.Keys + (d2.Keys - todo)
      invariant forall k :: k in merged ==> merged[k] == Get0(d1, k) + (if k in todo then 0.0 else Get0(d2, k))
      decreases todo
    {
      var k :| k in todo;
      merged := merged[k := Get0(merged, k) + d2[k]];
      todo := todo - {k};
    }
  }

  /** Merging is commutative: the two maps may be given in either order. */
  lemma MergeCommutative(d1: RequirementMap, d2: RequirementMap)
    ensures Merge(d1, d2) == Merge(d2, d1)
  {
  }

  /** Merging is associative, so a fold of merges may be regrouped. */
  lemma MergeAssociative(d1: RequirementMap, d2: RequirementMap, d3: RequirementMap)
    ensures Merge(Merge(d1, d2), d3) == Merge(d1, Merge(d2, d3))
  {
    var l := Merge(Merge(d1, d2), d3);
    var r := Merge(d1, Merge(d2, d3));
    assert l.Keys == r.Keys;
    forall k | k in l
      ensures l[k] == r[k]
    {
      assert Get0(Merge(d1, d2), k) == Get0(d1, k) + Get0(d2, k);
      assert Get0(Merge(d2, d3), k) == Get0(d2, k) + Get0(d3, k);
    }
  }

  /** The empty map is the identity of merging. */
  lemma MergeEmpty(d: RequirementMap)
    ensures Merge(d, map[]) == d
  {
  }

  /** Scaling distributes over merging. */
  lemma MergeScale(d1: RequirementMap, d2: RequirementMap, factor: real)
    ensures Merge(Scale(d1, factor), Scale(d2, factor)) == Scale(Merge(d1, d2), factor)
  {
    var l := Merge(Scale(d1, factor), Scale(d2, factor));
    var r := Scale(Merge(d1, d2), factor);
    assert l.Keys == r.Keys;
    forall k | k in l
      ensures l[k] == r[k]
    {
      ScaleMergeAt(d1, d2, factor, k);
    }
  }

  lemma ScaleMergeAt(d1: RequirementMap, d2: RequirementMap, factor: real, k: string)
    requires k in d1 || k in d2
    ensures Get0(Scale(d1, factor), k) + Get0(Scale(d2, factor), k) == factor * Merge(d1, d2)[k]
  {
    ScaleAt(d1, factor, k);
    ScaleAt(d2, factor, k);
    MergeAt(d1, d2, k);
    Distribute(factor, Get0(d1, k), Get0(d2, k),
      Get0(Scale(d1, factor), k), Get0(Scale(d2, factor), k), Merge(d1, d2)[k]);
  }

  lemma ScaleAt(d: RequirementMap, factor: real, k: string)
    ensures Get0(Scale(d, factor), k) == factor * Get0(d, k)
  {
  }

  lemma ScaleEntry(d: RequirementMap, factor: real, k: string)
    requires k in d
    ensures Scale(d, factor)[k] == factor * d[k]
  {
  }

  lemma Distribute(factor: real, a: real, b: real, sa: real, sb: real, m: real)
    requires sa == factor * a && sb == factor * b && m == a + b
    ensures sa + sb == factor * m
  {
  }

  /** Scaling a one-entry map scales its one count. */
  lemma ScaleSingleton(k: string, x: real, factor: real)
    ensures Scale(map[k := x], factor) == map[k := factor * x]
  {
    var s := Scale(map[k := x], factor);
    assert s.Keys == {k};
    assert s[k] == factor * x;
  }

  /** The count of a key in a merge is the sum of its counts in the parts. */
  lemma MergeAt(d1: RequirementMap, d2: RequirementMap, k: string)
    ensures Get0(Merge(d1, d2), k) == Get0(d1, k) + Get0(d2, k)
  {
  }
}
