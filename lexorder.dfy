/** Go's LexOrder sort.Interface over strings, which
    src/create_tile_graph.go:542-545 and src/tileset2fj.go:126-129 define
    identically, and what sort.Sort makes of a slice under it. */
module LexOrder {
  import opened Text
  import opened Sorting

  /** LexOrder.Less: Go's string comparison. */
  predicate LexOrderLess(a: string, b: string)
  {
    LexLess(a, b)
  }

  /** sort.Sort(LexOrder(order)). */
  function SortLex(order: seq<string>): (sorted: seq<string>)
    ensures Sorted(sorted, LexOrderLess) && multiset(sorted) == multiset(order)
  {
    LexOrderIsStrictWeakOrder();
    SortBy(order, LexOrderLess)
  }

  lemma LexOrderIsStrictWeakOrder()
    ensures StrictWeakOrder(LexOrderLess)
  {
    forall a, b | LexOrderLess(a, b) ensures !LexOrderLess(b, a) {
      LexLessAsymmetric(a, b);
    }
    forall a, b, c ensures NegativelyTransitiveAt(LexOrderLess, a, b, c) {
      if LexLess(a, c) { LexLessNegativeTransitive(a, b, c); }
    }
  }

  lemma LexLessNegativeTransitive(a: string, b: string, c: string)
    requires LexLess(a, c)
    ensures LexLess(a, b) || LexLess(b, c)
  {
    if !LexLess(a, b) && a != b {
      LexLessTotal(a, b);
      LexLessTransitive(b, a, c);
    }
  }

  /** Sorting an enumeration of a set of keys lists every key once, in
      strictly increasing string order, whatever the enumeration. */
  lemma SortLexFacts(keys: set<string>, o1: seq<string>, o2: seq<string>)
    requires Enumerates(o1, keys) && Enumerates(o2, keys)
    ensures var s := SortLex(o1);
      && Enumerates(s, keys)
      && (forall i, j :: 0 <= i < j < |s| ==> LexLess(s[i], s[j]))
      && s == SortLex(o2)
  {
    LexOrderIsStrictWeakOrder();
    var s1 := SortLex(o1);
    var s2 := SortLex(o2);
    DistinctPermutation(o1, s1);
    forall k | 0 <= k < |s1| ensures s1[k] in keys {
      assert s1[k] in multiset(o1);
    }
    forall x | x in keys ensures x in s1 {
      assert x in multiset(o1);
    }
    forall i, j | 0 <= i < |s1| && 0 <= j < |s1| && s1[i] != s1[j]
      ensures LexOrderLess(s1[i], s1[j]) || LexOrderLess(s1[j], s1[i])
    {
      LexLessTotal(s1[i], s1[j]);
    }
    SortedStrict(s1, LexOrderLess);
    EnumerationsPermute(o1, o2, keys);
    SortedUnique(s1, s2, LexOrderLess);
  }
}
