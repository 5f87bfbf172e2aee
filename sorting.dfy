/** Go's sort.Sort, modelled as an insertion sort over any strict weak order
    (the shape of both LexOrder and TileFreqOrder's Less). */
module Sorting {

  /** lt is asymmetric and its incomparability is transitive. */
  ghost predicate StrictWeakOrder<T(!new)>(lt: (T, T) -> bool)
  {
    && (forall a, b :: lt(a, b) ==> !lt(b, a))
    && (forall a, b, c :: NegativelyTransitiveAt(lt, a, b, c))
  }

  /** One instance of negative transitivity: whatever b is, a < c puts b
      above a or below c.  Proofs name the instances they use. */
  predicate NegativelyTransitiveAt<T>(lt: (T, T) -> bool, a: T, b: T, c: T)
  {
    lt(a, c) ==> lt(a, b) || lt(b, c)
  }

  /** No element is strictly less than an earlier one. */
  predicate Sorted<T>(s: seq<T>, lt: (T, T) -> bool)
  {
    forall i, j :: 0 <= i < j < |s| ==> !lt(s[j], s[i])
  }

  predicate Distinct<T(==)>(s: seq<T>)
  {
    forall i, j :: 0 <= i < j < |s| ==> s[i] != s[j]
  }

  /** Any two different elements of s are ordered by lt. */
  predicate ConnectedOn<T(==)>(s: seq<T>, lt: (T, T) -> bool)
  {
    forall i, j :: 0 <= i < |s| && 0 <= j < |s| && s[i] != s[j] ==> lt(s[i], s[j]) || lt(s[j], s[i])
  }

  function Insert<T(!new)>(x: T, s: seq<T>, lt: (T, T) -> bool): (r: seq<T>)
    requires StrictWeakOrder(lt) && Sorted(s, lt)
    ensures Sorted(r, lt) && multiset(r) == multiset(s) + multiset{x} && |r| == |s| + 1
  {
    if |s| == 0 then [x]
    else if lt(s[0], x) then
      var r' := Insert(x, s[1..], lt);
      assert s == [s[0]] + s[1..];
      BoundSurvives(s[0], s[1..], x, r', lt);
      [s[0]] + r'
    else
      assert forall j :: 0 <= j < |s| ==> !lt(s[j], x) by {
        forall j | 0 <= j < |s| ensures !lt(s[j], x) {
          if j > 0 {
            assert !lt(s[j], s[0]);
            assert NegativelyTransitiveAt(lt, s[j], s[0], x);
          }
        }
      }
      [x] + s
  }

  /** Whatever is inserted among elements that are not below b stays
      not below b, if the new element is not below b either. */
  lemma BoundSurvives<T>(b: T, rest: seq<T>, x: T, r: seq<T>, lt: (T, T) -> bool)
    requires forall k :: 0 <= k < |rest| ==> !lt(rest[k], b)
    requires !lt(x, b) && multiset(r) == multiset(rest) + multiset{x}
    ensures forall j :: 0 <= j < |r| ==> !lt(r[j], b)
  {
    forall j | 0 <= j < |r| ensures !lt(r[j], b) {
      assert r[j] in multiset(r);
      if r[j] in multiset(rest) {
        var k :| 0 <= k < |rest| && rest[k] == r[j];
      }
    }
  }

  /** The sorted rearrangement of s. */
  function SortBy<T(!new)>(s: seq<T>, lt: (T, T) -> bool): (r: seq<T>)
    requires StrictWeakOrder(lt)
    ensures Sorted(r, lt) && multiset(r) == multiset(s) && |r| == |s|
  {
    if |s| == 0 then []
    else
      assert s == s[..|s| - 1] + [s[|s| - 1]];
      Insert(s[|s| - 1], SortBy(s[..|s| - 1], lt), lt)
  }

  // ---------------------------------------------------------------------
  // Lemmas

  /** Rearranging a sequence without duplicates leaves it without duplicates. */
  lemma {:induction false} DistinctPermutation<T>(a: seq<T>, b: seq<T>)
    requires multiset(a) == multiset(b) && Distinct(a)
    ensures Distinct(b)
  {
    forall x | x in multiset(a) ensures multiset(a)[x] == 1 {
      DistinctCount(a, x);
    }
    forall i, j | 0 <= i < j < |b| ensures b[i] != b[j] {
      if b[i] == b[j] {
        TwiceCount(b, i, j);
      }
    }
  }

  lemma {:induction false} DistinctCount<T>(a: seq<T>, x: T)
    requires Distinct(a) && x in multiset(a)
    ensures multiset(a)[x] == 1
  {
    var k :| 0 <= k < |a| && a[k] == x;
    assert a == a[..k] + [x] + a[k + 1..];
    assert multiset(a) == multiset(a[..k]) + multiset{x} + multiset(a[k + 1..]);
  }

  lemma TwiceCount<T>(b: seq<T>, i: int, j: int)
    requires 0 <= i < j < |b| && b[i] == b[j]
    ensures multiset(b)[b[i]] >= 2
  {
    assert b == b[..i] + [b[i]] + b[i + 1..j] + [b[j]] + b[j + 1..];
    assert multiset(b) == multiset(b[..i]) + multiset{b[i]} + multiset(b[i + 1..j]) + multiset{b[j]} + multiset(b[j + 1..]);
  }

  /** In a sorted sequence without duplicates over which lt is connected,
      every earlier element is strictly less than every later one. */
  lemma SortedStrict<T>(s: seq<T>, lt: (T, T) -> bool)
    requires Sorted(s, lt) && Distinct(s) && ConnectedOn(s, lt)
    ensures forall i, j :: 0 <= i < j < |s| ==> lt(s[i], s[j])
  {
  }

  /** Two sorted rearrangements of the same duplicate-free elements, over
      which lt is connected, are equal: the sorted order does not depend on
      the order the elements were supplied in. */
  lemma {:induction false} SortedUnique<T>(a: seq<T>, b: seq<T>, lt: (T, T) -> bool)
    requires Sorted(a, lt) && Sorted(b, lt) && multiset(a) == multiset(b)
    requires Distinct(a) && ConnectedOn(a, lt)
    ensures a == b
  {
    if |a| == 0 {
      assert |b| == 0 by { assert |multiset(b)| == |multiset(a)|; }
    } else {
      assert |b| > 0 by { assert |multiset(b)| == |multiset(a)|; }
      SortedHeads(a, b, lt);
      SortedTails(a, b, lt);
      SortedUnique(a[1..], b[1..], lt);
      assert a == [a[0]] + a[1..];
      assert b == [b[0]] + b[1..];
    }
  }

  /** Both sorted rearrangements start with the same element. */
  lemma SortedHeads<T>(a: seq<T>, b: seq<T>, lt: (T, T) -> bool)
    requires |a| > 0 && |b| > 0
    requires Sorted(a, lt) && Sorted(b, lt) && multiset(a) == multiset(b)
    requires ConnectedOn(a, lt)
    ensures a[0] == b[0]
  {
    NotBelowHead(a, b[0], lt);
    NotBelowHead(b, a[0], lt);
  }

  lemma NotBelowHead<T>(s: seq<T>, x: T, lt: (T, T) -> bool)
    requires |s| > 0 && Sorted(s, lt) && x in multiset(s)
    ensures x == s[0] || !lt(x, s[0])
  {
    var k :| 0 <= k < |s| && s[k] == x;
  }

  /** Dropping an equal head keeps the hypotheses of SortedUnique. */
  lemma SortedTails<T>(a: seq<T>, b: seq<T>, lt: (T, T) -> bool)
    requires |a| > 0 && |b| > 0 && a[0] == b[0]
    requires Sorted(a, lt) && Sorted(b, lt) && multiset(a) == multiset(b)
    requires Distinct(a) && ConnectedOn(a, lt)
    ensures Sorted(a[1..], lt) && Sorted(b[1..], lt) && multiset(a[1..]) == multiset(b[1..])
    ensures Distinct(a[1..]) && ConnectedOn(a[1..], lt)
  {
    TailKeeps(a, lt);
    TailKeeps(b, lt);
  }

  /** Dropping the head of a sequence keeps it sorted, duplicate-free and
      connected, and removes one occurrence of the head. */
  lemma TailKeeps<T>(s: seq<T>, lt: (T, T) -> bool)
    requires |s| > 0
    ensures Sorted(s, lt) ==> Sorted(s[1..], lt)
    ensures Distinct(s) ==> Distinct(s[1..])
    ensures ConnectedOn(s, lt) ==> ConnectedOn(s[1..], lt)
    ensures multiset(s[1..]) == multiset(s) - multiset{s[0]}
  {
    if Sorted(s, lt) { TailSorted(s, lt); }
    if Distinct(s) { TailDistinct(s); }
    if ConnectedOn(s, lt) { TailConnected(s, lt); }
    assert s == [s[0]] + s[1..];
  }

  lemma TailSorted<T>(s: seq<T>, lt: (T, T) -> bool)
    requires |s| > 0 && Sorted(s, lt)
    ensures Sorted(s[1..], lt)
  {
    var t := s[1..];
    forall i, j | 0 <= i < j < |t| ensures !lt(t[j], t[i]) {
      assert t[i] == s[i + 1] && t[j] == s[j + 1];
    }
  }

  lemma TailDistinct<T>(s: seq<T>)
    requires |s| > 0 && Distinct(s)
    ensures Distinct(s[1..])
  {
    var t := s[1..];
    forall i, j | 0 <= i < j < |t| ensures t[i] != t[j] {
      assert t[i] == s[i + 1] && t[j] == s[j + 1];
    }
  }

  lemma TailConnected<T>(s: seq<T>, lt: (T, T) -> bool)
    requires |s| > 0 && ConnectedOn(s, lt)
    ensures ConnectedOn(s[1..], lt)
  {
    var t := s[1..];
    forall i, j | 0 <= i < |t| && 0 <= j < |t| && t[i] != t[j] ensures lt(t[i], t[j]) || lt(t[j], t[i]) {
      assert t[i] == s[i + 1] && t[j] == s[j + 1];
    }
  }

  /** `order` lists every element of `keys` exactly once: what ranging over
      a Go map's keys yields, in some order. */
  predicate Enumerates<T(==)>(order: seq<T>, keys: set<T>)
  {
    && Distinct(order)
    && (forall k :: 0 <= k < |order| ==> order[k] in keys)
    && (forall x :: x in keys ==> x in order)
  }

  /** An enumeration is as long as the set it enumerates. */
  lemma {:induction false} EnumerationLength<T>(order: seq<T>, keys: set<T>)
    requires Enumerates(order, keys)
    ensures |order| == |keys|
  {
    if |order| == 0 {
      assert keys == {};
    } else {
      var rest := keys - {order[0]};
      assert Enumerates(order[1..], rest) by {
        forall k | 0 <= k < |order[1..]| ensures order[1..][k] in rest {
          assert order[1..][k] == order[k + 1] && order[k + 1] != order[0];
        }
        forall x | x in rest ensures x in order[1..] {
          assert x in order;
          var k :| 0 <= k < |order| && order[k] == x;
          assert k != 0;
          assert order[1..][k - 1] == x;
        }
      }
      EnumerationLength(order[1..], rest);
    }
  }

  /** Two enumerations of the same set are rearrangements of each other. */
  lemma EnumerationsPermute<T>(a: seq<T>, b: seq<T>, keys: set<T>)
    requires Enumerates(a, keys) && Enumerates(b, keys)
    ensures multiset(a) == multiset(b)
  {
    forall x ensures multiset(a)[x] == multiset(b)[x] {
      if x in keys {
        DistinctCount(a, x);
        DistinctCount(b, x);
      } else {
        assert x !in multiset(a) && x !in multiset(b);
      }
    }
  }
}
