/**
 * Ordering of a requirement map's entries for display: names made only of
 * decimal digits come first, and each group is in ascending string order.
 */
module Sorting {

  /** A dictionary's items, in the dictionary's order; a dictionary holds each key once. */
  type Entry = (string, real)

  /** Python's `<` on strings: lexicographic by code point, a proper prefix first. */
  predicate StrLess(a: string, b: string): (less: bool)
    ensures |a| < |b| && a == b[..|a|] ==> less
    ensures FirstDifferenceSmaller(a, b) ==> less
  {
    if |a| == 0 then |b| > 0
    else if |b| == 0 then false
    else if a[0] != b[0] then a[0] < b[0]
    else
      FirstDifferenceShift(a, b);
      StrLess(a[1..], b[1..])
  }

  /** At the first position where the strings differ, `a` has the smaller character. */
  ghost predicate FirstDifferenceSmaller(a: string, b: string)
  {
    exists k :: 0 <= k < |a| && k < |b| && a[..k] == b[..k] && a[k] < b[k]
  }

  lemma FirstDifferenceShift(a: string, b: string)
    requires |a| > 0 && |b| > 0 && a[0] == b[0]
    ensures FirstDifferenceSmaller(a, b) ==> FirstDifferenceSmaller(a[1..], b[1..])
    ensures |a| < |b| && a == b[..|a|] ==> a[1..] == b[1..][..|a[1..]|]
  {
    if FirstDifferenceSmaller(a, b) {
      var k :| 0 <= k < |a| && k < |b| && a[..k] == b[..k] && a[k] < b[k];
      assert k > 0;
      assert a[1..][..k - 1] == a[..k][1..] && b[1..][..k - 1] == b[..k][1..];
      assert a[1..][k - 1] == a[k] && b[1..][k - 1] == b[k];
    }
  }

  /** `str.isdigit()` for decimal digits: a non-empty string of '0'..'9'. */
  predicate IsDigits(s: string): (digits: bool)
    ensures digits <==> s != [] && forall ch :: ch in s ==> '0' <= ch <= '9'
  {
    assert forall i :: 0 <= i < |s| ==> s[i] in s;
    |s| > 0 && forall i :: 0 <= i < |s| ==> '0' <= s[i] <= '9'
  }

  /** The order of the sort key `(not name.isdigit(), name)`: digit-only names first, then by name. */
  predicate KeyBefore(a: string, b: string): (before: bool)
    ensures IsDigits(a) && !IsDigits(b) ==> before
    ensures !IsDigits(a) && IsDigits(b) ==> !before
    ensures IsDigits(a) == IsDigits(b) ==> (before <==> StrLess(a, b))
  {
    (IsDigits(a) && !IsDigits(b)) || (IsDigits(a) == IsDigits(b) && StrLess(a, b))
  }

  predicate DistinctKeys(s: seq<Entry>)
  {
    forall i, j :: 0 <= i < j < |s| ==> s[i].0 != s[j].0
  }

  /** Every entry's key comes before every later entry's key. */
  predicate Sorted(s: seq<Entry>)
  {
    forall i, j :: 0 <= i < j < |s| ==> KeyBefore(s[i].0, s[j].0)
  }

  lemma {:induction false} StrLessIrreflexive(a: string)
    ensures !StrLess(a, a)
  {
    if |a| > 0 {
      StrLessIrreflexive(a[1..]);
    }
  }

  lemma {:induction false} StrLessTransitive(a: string, b: string, c: string)
    requires StrLess(a, b) && StrLess(b, c)
    ensures StrLess(a, c)
  {
    if |a| > 0 && a[0] == b[0] && b[0] == c[0] {
      StrLessTransitive(a[1..], b[1..], c[1..]);
    }
  }

  /** Two different strings are ordered one way or the other. */
  lemma {:induction false} StrLessTotal(a: string, b: string)
    requires a != b
    ensures StrLess(a, b) || StrLess(b, a)
  {
    if |a| > 0 && |b| > 0 && a[0] == b[0] {
      assert a == [a[0]] + a[1..] && b == [b[0]] + b[1..];
      StrLessTotal(a[1..], b[1..]);
    }
  }

  lemma KeyBeforeIrreflexive(a: string)
    ensures !KeyBefore(a, a)
  {
    StrLessIrreflexive(a);
  }

  lemma KeyBeforeTransitive(a: string, b: string, c: string)
    requires KeyBefore(a, b) && KeyBefore(b, c)
    ensures KeyBefore(a, c)
  {
    if IsDigits(a) == IsDigits(b) && IsDigits(b) == IsDigits(c) {
      StrLessTransitive(a, b, c);
    }
  }

  lemma KeyBeforeTotal(a: string, b: string)
    requires a != b
    ensures KeyBefore(a, b) || KeyBefore(b, a)
  {
    StrLessTotal(a, b);
  }

  /** `p` placed among the sorted entries `s` before the first entry whose key it precedes. */
  function Insert(p: Entry, s: seq<Entry>): (r: seq<Entry>)
    requires Sorted(s)
    requires forall q :: q in s ==> q.0 != p.0
    ensures multiset(r) == multiset(s) + multiset{p}
    ensures |r| == |s| + 1
    ensures Sorted(r)
    ensures r[0] == p || (|s| > 0 && r[0] == s[0])
  {
    if s == [] then [p]
    else if KeyBefore(p.0, s[0].0) then
      InsertFront(p, s);
      [p] + s
    else
      KeyBeforeTotal(p.0, s[0].0);
      var rest := Insert(p, s[1..]);
      assert s == [s[0]] + s[1..];
      forall q | q in rest
        ensures KeyBefore(s[0].0, q.0)
      {
        assert q in multiset(s[1..]) + multiset{p};
        if q != p {
          var j :| 0 <= j < |s[1..]| && s[1..][j] == q;
          assert s[j + 1] == q;
        }
      }
      InsertBehind(s[0], rest);
      [s[0]] + rest
  }

  /** A key that precedes a sorted run's first key precedes all of it. */
  lemma InsertFront(p: Entry, s: seq<Entry>)
    requires Sorted(s) && |s| > 0 && KeyBefore(p.0, s[0].0)
    ensures Sorted([p] + s)
  {
    forall j | 0 < j < |s|
      ensures KeyBefore(p.0, s[j].0)
    {
      KeyBeforeTransitive(p.0, s[0].0, s[j].0);
    }
  }

  lemma InsertBehind(p: Entry, s: seq<Entry>)
    requires Sorted(s) && forall q :: q in s ==> KeyBefore(p.0, q.0)
    ensures Sorted([p] + s)
  {
    assert forall j :: 0 <= j < |s| ==> s[j] in s;
  }

  /**
   * sort_dict_alphabetically: the same entries, with every digit-only key
   * before every other key and each group in ascending order.
   */
  function SortDictAlphabetically(items: seq<Entry>): (sorted: seq<Entry>)
    requires DistinctKeys(items)
    ensures multiset(sorted) == multiset(items)
    ensures Sorted(sorted)
  {
    if items == [] then []
    else
      DistinctTail(items);
      var rest := SortDictAlphabetically(items[1..]);
      HeadKeyFresh(items, rest);
      Insert(items[0], rest)
  }

  lemma DistinctTail(items: seq<Entry>)
    requires DistinctKeys(items) && |items| > 0
    ensures DistinctKeys(items[1..])
    ensures multiset(items) == multiset(items[1..]) + multiset{items[0]}
  {
    assert items == [items[0]] + items[1..];
  }

  /** No entry of an arrangement of the tail shares the head's key. */
  lemma HeadKeyFresh(items: seq<Entry>, rest: seq<Entry>)
    requires DistinctKeys(items) && |items| > 0 && multiset(rest) == multiset(items[1..])
    ensures forall q :: q in rest ==> q.0 != items[0].0
  {
    forall q | q in rest
      ensures q.0 != items[0].0
    {
      assert q in multiset(items[1..]);
      var j :| 0 <= j < |items[1..]| && items[1..][j] == q;
      assert items[j + 1] == q;
    }
  }

  /** The order of the result is the one the sort key promises: digit-only names, then the rest, each ascending. */
  lemma {:induction false} SortedGroups(items: seq<Entry>, i: nat, j: nat)
    requires DistinctKeys(items)
    requires i < j < |SortDictAlphabetically(items)|
    ensures var s := SortDictAlphabetically(items);
      (IsDigits(s[j].0) ==> IsDigits(s[i].0)) && (IsDigits(s[i].0) == IsDigits(s[j].0) ==> StrLess(s[i].0, s[j].0))
  {
  }

  /** Sorting keeps the entries: each key is paired with the same value as before. */
  lemma SortKeepsEntries(items: seq<Entry>, p: Entry)
    requires DistinctKeys(items)
    ensures p in SortDictAlphabetically(items) <==> p in items
  {
    var s := SortDictAlphabetically(items);
    assert p in s <==> p in multiset(s);
  }

  /** Two sorted arrangements of the same entries are the same sequence: the order is fully determined. */
  lemma {:induction false} SortedUnique(s: seq<Entry>, t: seq<Entry>)
    requires Sorted(s) && Sorted(t) && multiset(s) == multiset(t)
    ensures s == t
  {
    if s != [] {
      SortedHeadsAgree(s, t);
      SortedTail(s);
      SortedTail(t);
      SortedUnique(s[1..], t[1..]);
      assert s == [s[0]] + s[1..] && t == [t[0]] + t[1..];
    }
  }

  /** The first entry of a sorted arrangement is the one whose key precedes all others. */
  lemma SortedHeadsAgree(s: seq<Entry>, t: seq<Entry>)
    requires Sorted(s) && Sorted(t) && multiset(s) == multiset(t) && |s| > 0
    ensures |t| > 0 && s[0] == t[0]
  {
    assert s[0] in multiset(t) && t[0] in multiset(s);
    var i :| 0 <= i < |t| && t[i] == s[0];
    var j :| 0 <= j < |s| && s[j] == t[0];
    if i != 0 {
      assert KeyBefore(t[0].0, s[0].0);
      if j != 0 {
        KeyBeforeTransitive(s[0].0, t[0].0, s[0].0);
      }
      KeyBeforeIrreflexive(s[0].0);
      assert false;
    }
  }

  lemma SortedTail(s: seq<Entry>)
    requires Sorted(s) && |s| > 0
    ensures Sorted(s[1..])
    ensures multiset(s[1..]) == multiset(s) - multiset{s[0]}
  {
    assert s == [s[0]] + s[1..];
  }
}
