/** rank_tile_lib's two orders (src/create_tile_graph.go:547-578): the
    variants of a position sorted by TileFreqOrder, and position keys sorted
    by LexOrder; a variant's rank is its index in its position's sorted
    list. */
module Rank {
  import opened Text
  import opened Sorting
  import opened LexOrder
  import opened TileLib

  /** TileFreqOrder.Less: higher frequency first, ties by md5sum ascending. */
  predicate FreqLess(a: TileInfo, b: TileInfo)
  {
    if a.freq < b.freq then false
    else if a.freq > b.freq then true
    else LexLess(a.md5Sum, b.md5Sum)
  }

  /** Each variant under its own md5sum. */
  predicate GroupValid(group: map<string, TileInfo>)
  {
    forall m :: m in group ==> group[m].md5Sum == m
  }

  /** freq_order: the variants of one position, in map order. */
  function GroupInfos(group: map<string, TileInfo>, mOrder: seq<string>): (infos: seq<TileInfo>)
    requires forall k :: 0 <= k < |mOrder| ==> mOrder[k] in group
    ensures |infos| == |mOrder| && forall k :: 0 <= k < |mOrder| ==> infos[k] == group[mOrder[k]]
  {
    seq(|mOrder|, k requires 0 <= k < |mOrder| => group[mOrder[k]])
  }

  /** sort.Sort(TileFreqOrder(freq_order)). */
  function SortedGroup(group: map<string, TileInfo>, mOrder: seq<string>): (sorted: seq<TileInfo>)
    requires forall k :: 0 <= k < |mOrder| ==> mOrder[k] in group
    ensures Sorted(sorted, FreqLess) && multiset(sorted) == multiset(GroupInfos(group, mOrder))
  {
    FreqLessIsStrictWeakOrder();
    SortBy(GroupInfos(group, mOrder), FreqLess)
  }

  /** The first index holding md5sum m, or -1. */
  function IndexOfMd5(sorted: seq<TileInfo>, m: string): (i: int)
    ensures -1 <= i < |sorted|
    ensures i >= 0 ==> sorted[i].md5Sum == m && forall j :: 0 <= j < i ==> sorted[j].md5Sum != m
    ensures i == -1 ==> forall j :: 0 <= j < |sorted| ==> sorted[j].md5Sum != m
  {
    if |sorted| == 0 then -1
    else if sorted[0].md5Sum == m then 0
    else
      var i := IndexOfMd5(sorted[1..], m);
      if i == -1 then -1 else i + 1
  }

  /** The position's variants after rank i was written to the i-th sorted
      one. */
  function RankedGroup(group: map<string, TileInfo>, mOrder: seq<string>): map<string, TileInfo>
    requires forall k :: 0 <= k < |mOrder| ==> mOrder[k] in group
  {
    RankBy(group, SortedGroup(group, mOrder))
  }

  /** Each variant with its index in `sorted` as its rank. */
  function RankBy(group: map<string, TileInfo>, sorted: seq<TileInfo>): map<string, TileInfo>
  {
    map m | m in group :: group[m].(rank := IndexOfMd5(sorted, m))
  }

  /** The md5sum of the variant at index r of the sorted list. */
  function RankHolder(group: map<string, TileInfo>, mOrder: seq<string>, r: int): string
    requires forall k :: 0 <= k < |mOrder| ==> mOrder[k] in group
  {
    HolderAt(SortedGroup(group, mOrder), r)
  }

  /** The md5sum at index r of a list of variants, or "". */
  function HolderAt(sorted: seq<TileInfo>, r: int): string
  {
    if 0 <= r < |sorted| then sorted[r].md5Sum else ""
  }

  /** The whole library after rank_tile_lib, given each position's map
      order. */
  function RankAll(tiles: Tiles, mOrders: map<string, seq<string>>): Tiles
    requires forall ps :: ps in tiles ==> ps in mOrders && Enumerates(mOrders[ps], tiles[ps].Keys)
  {
    map ps | ps in tiles :: (EnumeratesKeys(mOrders[ps], tiles[ps]); RankedGroup(tiles[ps], mOrders[ps]))
  }

  /** Each variant's index in the sorted list. */
  function SortedIndex(group: map<string, TileInfo>, sorted: seq<TileInfo>): map<string, int>
  {
    map m | m in group :: IndexOfMd5(sorted, m)
  }

  /** The position's variants while the rank loop runs: those whose index
      is below i already carry it as their rank. */
  function PartlyRanked(group: map<string, TileInfo>, index: map<string, int>, i: int): map<string, TileInfo>
  {
    map m | m in group :: if m in index && 0 <= index[m] < i then group[m].(rank := index[m]) else group[m]
  }

  /** The library while rank_tile_lib's outer loop runs: the positions in
      `done` already hold their entry of `ranked`, the others are as in
      `tiles`. */
  function RankSome(tiles: Tiles, ranked: Tiles, done: seq<string>): Tiles
  {
    map ps | ps in tiles :: if ps in done && ps in ranked then ranked[ps] else tiles[ps]
  }

  // ---------------------------------------------------------------------
  // Lemmas

  lemma EnumeratesKeys(order: seq<string>, group: map<string, TileInfo>)
    requires Enumerates(order, group.Keys)
    ensures forall k :: 0 <= k < |order| ==> order[k] in group
  {
  }

  lemma FreqLessIsStrictWeakOrder()
    ensures StrictWeakOrder(FreqLess)
  {
    forall a, b | FreqLess(a, b) ensures !FreqLess(b, a) {
      if a.freq == b.freq { LexLessAsymmetric(a.md5Sum, b.md5Sum); }
    }
    forall a, b, c ensures NegativelyTransitiveAt(FreqLess, a, b, c) {
      if FreqLess(a, c) && a.freq == b.freq == c.freq {
        LexLessNegativeTransitive(a.md5Sum, b.md5Sum, c.md5Sum);
      }
    }
  }

  /** Variants with different md5sums are always ordered one way or the
      other. */
  lemma FreqLessConnected(a: TileInfo, b: TileInfo)
    requires a.md5Sum != b.md5Sum
    ensures FreqLess(a, b) || FreqLess(b, a)
  {
    LexLessTotal(a.md5Sum, b.md5Sum);
  }

  lemma FreqLessIrreflexive(a: TileInfo)
    ensures !FreqLess(a, a)
  {
    LexLessIrreflexive(a.md5Sum);
  }

  /** What sorting one position's variants yields: exactly its variants,
      strictly increasing in TileFreqOrder, each md5sum once. */
  lemma SortedGroupFacts(group: map<string, TileInfo>, mOrder: seq<string>)
    requires GroupValid(group) && Enumerates(mOrder, group.Keys)
    ensures var sorted := SortedGroup(group, mOrder);
      && |sorted| == |group|
      && (forall j :: 0 <= j < |sorted| ==> sorted[j].md5Sum in group && group[sorted[j].md5Sum] == sorted[j])
      && (forall i, j :: 0 <= i < j < |sorted| ==> FreqLess(sorted[i], sorted[j]))
      && (forall m :: m in group ==> 0 <= IndexOfMd5(sorted, m) && sorted[IndexOfMd5(sorted, m)] == group[m])
      && (forall j :: 0 <= j < |sorted| ==> IndexOfMd5(sorted, sorted[j].md5Sum) == j)
  {
    var sorted := SortedGroup(group, mOrder);
    SortedGroupMembers(group, mOrder);
    FindsEveryVariant(group, mOrder, GroupInfos(group, mOrder), sorted);
    IndexOfMd5Exact(group, sorted);
  }

  /** A permutation of the variants listed in map order holds each
      variant, at the first index carrying its md5sum. */
  lemma FindsEveryVariant(group: map<string, TileInfo>, mOrder: seq<string>, infos: seq<TileInfo>, sorted: seq<TileInfo>)
    requires GroupValid(group) && Enumerates(mOrder, group.Keys)
    requires |infos| == |mOrder| && forall k :: 0 <= k < |mOrder| ==> infos[k] == group[mOrder[k]]
    requires multiset(sorted) == multiset(infos)
    requires forall j :: 0 <= j < |sorted| ==> sorted[j].md5Sum in group && group[sorted[j].md5Sum] == sorted[j]
    ensures forall m :: m in group ==> 0 <= IndexOfMd5(sorted, m) && sorted[IndexOfMd5(sorted, m)] == group[m]
  {
    forall m | m in group
      ensures 0 <= IndexOfMd5(sorted, m) && sorted[IndexOfMd5(sorted, m)] == group[m]
    {
      assert m in mOrder;
      var k :| 0 <= k < |mOrder| && mOrder[k] == m;
      assert infos[k] in multiset(sorted);
      var j :| 0 <= j < |sorted| && sorted[j] == infos[k];
      assert sorted[j].md5Sum == m;
    }
  }

  /** The sorted list holds the position's variants, each once, strictly
      increasing. */
  lemma SortedGroupMembers(group: map<string, TileInfo>, mOrder: seq<string>)
    requires GroupValid(group) && Enumerates(mOrder, group.Keys)
    ensures var sorted := SortedGroup(group, mOrder);
      && |sorted| == |group|
      && (forall j :: 0 <= j < |sorted| ==> sorted[j].md5Sum in group && group[sorted[j].md5Sum] == sorted[j])
      && (forall i, j :: 0 <= i < j < |sorted| ==> FreqLess(sorted[i], sorted[j]))
  {
    var infos := GroupInfos(group, mOrder);
    var sorted := SortedGroup(group, mOrder);
    EnumerationLength(mOrder, group.Keys);
    assert |sorted| == |infos| by { assert |multiset(sorted)| == |multiset(infos)|; }
    forall j | 0 <= j < |sorted|
      ensures sorted[j].md5Sum in group && group[sorted[j].md5Sum] == sorted[j]
    {
      assert sorted[j] in multiset(infos);
      var k :| 0 <= k < |infos| && infos[k] == sorted[j];
      assert infos[k] == group[mOrder[k]];
    }
    assert Distinct(infos) by {
      forall i, j | 0 <= i < j < |infos| ensures infos[i] != infos[j] {
        assert infos[i].md5Sum == mOrder[i] && infos[j].md5Sum == mOrder[j];
      }
    }
    DistinctPermutation(infos, sorted);
    StrictlySorted(sorted);
  }

  /** In a strictly increasing list of a position's variants, looking up
      the md5sum at index j finds j. */
  lemma IndexOfMd5Exact(group: map<string, TileInfo>, sorted: seq<TileInfo>)
    requires forall j :: 0 <= j < |sorted| ==> sorted[j].md5Sum in group && group[sorted[j].md5Sum] == sorted[j]
    requires forall i, j :: 0 <= i < j < |sorted| ==> FreqLess(sorted[i], sorted[j])
    ensures forall j :: 0 <= j < |sorted| ==> IndexOfMd5(sorted, sorted[j].md5Sum) == j
  {
    forall j | 0 <= j < |sorted| ensures IndexOfMd5(sorted, sorted[j].md5Sum) == j {
      var i := IndexOfMd5(sorted, sorted[j].md5Sum);
      assert sorted[i] == sorted[j];
      FreqLessIrreflexive(sorted[j]);
    }
  }

  /** A sorted list of variants without duplicates is strictly increasing. */
  lemma StrictlySorted(sorted: seq<TileInfo>)
    requires Sorted(sorted, FreqLess) && Distinct(sorted)
    requires forall i, j :: 0 <= i < j < |sorted| ==> sorted[i].md5Sum != sorted[j].md5Sum
    ensures forall i, j :: 0 <= i < j < |sorted| ==> FreqLess(sorted[i], sorted[j])
  {
    forall i, j | 0 <= i < j < |sorted| ensures FreqLess(sorted[i], sorted[j]) {
      FreqLessConnected(sorted[i], sorted[j]);
    }
  }

  /** After ranking, only the rank changed, and the ranks of a position are
      a permutation of 0..n-1: each in range, no two equal, every value
      taken. */
  lemma RankedGroupIsPermutation(group: map<string, TileInfo>, mOrder: seq<string>)
    requires GroupValid(group) && Enumerates(mOrder, group.Keys)
    ensures var ranked := RankedGroup(group, mOrder);
      && ranked.Keys == group.Keys
      && (forall m :: m in group ==> ranked[m] == group[m].(rank := ranked[m].rank))
      && (forall m :: m in group ==> 0 <= ranked[m].rank < |group|)
      && (forall m1, m2 :: m1 in group && m2 in group && m1 != m2 ==> ranked[m1].rank != ranked[m2].rank)
      && (forall r :: 0 <= r < |group| ==> RankHolder(group, mOrder, r) in group && ranked[RankHolder(group, mOrder, r)].rank == r)
  {
    SortedGroupFacts(group, mOrder);
    RanksOfSorted(group, SortedGroup(group, mOrder));
  }

  /** Ranking by index in a list holding each variant once makes the ranks
      a permutation of 0..n-1. */
  lemma RanksOfSorted(group: map<string, TileInfo>, sorted: seq<TileInfo>)
    requires |sorted| == |group|
    requires forall j :: 0 <= j < |sorted| ==> sorted[j].md5Sum in group && group[sorted[j].md5Sum] == sorted[j]
    requires forall m :: m in group ==> 0 <= IndexOfMd5(sorted, m) && sorted[IndexOfMd5(sorted, m)] == group[m]
    requires forall j :: 0 <= j < |sorted| ==> IndexOfMd5(sorted, sorted[j].md5Sum) == j
    ensures var ranked := RankBy(group, sorted);
      && ranked.Keys == group.Keys
      && (forall m :: m in group ==> ranked[m] == group[m].(rank := ranked[m].rank))
      && (forall m :: m in group ==> 0 <= ranked[m].rank < |group|)
      && (forall m1, m2 :: m1 in group && m2 in group && m1 != m2 ==> ranked[m1].rank != ranked[m2].rank)
      && (forall r :: 0 <= r < |group| ==> HolderAt(sorted, r) in group && ranked[HolderAt(sorted, r)].rank == r)
  {
    RankByFacts(group, sorted);
    RanksDistinct(group, sorted);
    RanksHeld(group, sorted);
  }

  lemma RankByFacts(group: map<string, TileInfo>, sorted: seq<TileInfo>)
    ensures var ranked := RankBy(group, sorted);
      && ranked.Keys == group.Keys
      && forall m :: m in group ==> ranked[m] == group[m].(rank := IndexOfMd5(sorted, m))
  {
  }

  lemma RanksDistinct(group: map<string, TileInfo>, sorted: seq<TileInfo>)
    requires forall m :: m in group ==> 0 <= IndexOfMd5(sorted, m) < |sorted| && sorted[IndexOfMd5(sorted, m)] == group[m]
    requires forall m :: m in group ==> group[m].md5Sum == m
    ensures var ranked := RankBy(group, sorted);
      forall m1, m2 :: m1 in group && m2 in group && m1 != m2 ==> ranked[m1].rank != ranked[m2].rank
  {
    var ranked := RankBy(group, sorted);
    forall m1, m2 | m1 in group && m2 in group && m1 != m2 ensures ranked[m1].rank != ranked[m2].rank {
      assert sorted[IndexOfMd5(sorted, m1)].md5Sum == m1;
      assert sorted[IndexOfMd5(sorted, m2)].md5Sum == m2;
    }
  }

  lemma RanksHeld(group: map<string, TileInfo>, sorted: seq<TileInfo>)
    requires forall j :: 0 <= j < |sorted| ==> sorted[j].md5Sum in group
    requires forall j :: 0 <= j < |sorted| ==> IndexOfMd5(sorted, sorted[j].md5Sum) == j
    ensures var ranked := RankBy(group, sorted);
      forall r :: 0 <= r < |sorted| ==> HolderAt(sorted, r) in group && ranked[HolderAt(sorted, r)].rank == r
  {
    var ranked := RankBy(group, sorted);
    forall r | 0 <= r < |sorted| ensures HolderAt(sorted, r) in group && ranked[HolderAt(sorted, r)].rank == r {
      assert HolderAt(sorted, r) == sorted[r].md5Sum;
    }
  }

  /** Ranks follow TileFreqOrder: one variant ranks before another exactly
      when it has the higher frequency, or the same frequency and the
      smaller md5sum. */
  lemma RankFollowsFreqOrder(group: map<string, TileInfo>, mOrder: seq<string>, m1: string, m2: string)
    requires GroupValid(group) && Enumerates(mOrder, group.Keys)
    requires m1 in group && m2 in group
    ensures var ranked := RankedGroup(group, mOrder);
      FreqLess(group[m1], group[m2]) <==> ranked[m1].rank < ranked[m2].rank
  {
    var sorted := SortedGroup(group, mOrder);
    SortedGroupFacts(group, mOrder);
    var ranked := RankedGroup(group, mOrder);
    assert ranked[m1].rank == IndexOfMd5(sorted, m1);
    assert ranked[m2].rank == IndexOfMd5(sorted, m2);
    StrictlySortedIff(sorted, IndexOfMd5(sorted, m1), IndexOfMd5(sorted, m2));
  }

  /** In a list strictly increasing under FreqLess, one element is less
      than another exactly when it comes first. */
  lemma StrictlySortedIff(s: seq<TileInfo>, i1: int, i2: int)
    requires 0 <= i1 < |s| && 0 <= i2 < |s|
    requires forall i, j :: 0 <= i < j < |s| ==> FreqLess(s[i], s[j])
    ensures FreqLess(s[i1], s[i2]) <==> i1 < i2
  {
    FreqLessIrreflexive(s[i1]);
    if i2 < i1 {
      FreqLessAsymmetric(s[i2], s[i1]);
    }
  }

  lemma FreqLessAsymmetric(a: TileInfo, b: TileInfo)
    requires FreqLess(a, b)
    ensures !FreqLess(b, a)
  {
    if a.freq == b.freq { LexLessAsymmetric(a.md5Sum, b.md5Sum); }
  }

  /** Ranks do not depend on the order the map handed the variants over. */
  lemma RankedGroupIndependentOfOrder(group: map<string, TileInfo>, o1: seq<string>, o2: seq<string>)
    requires GroupValid(group) && Enumerates(o1, group.Keys) && Enumerates(o2, group.Keys)
    ensures RankedGroup(group, o1) == RankedGroup(group, o2)
  {
    SortedGroupIndependentOfOrder(group, o1, o2);
  }

  lemma SortedGroupIndependentOfOrder(group: map<string, TileInfo>, o1: seq<string>, o2: seq<string>)
    requires GroupValid(group) && Enumerates(o1, group.Keys) && Enumerates(o2, group.Keys)
    ensures SortedGroup(group, o1) == SortedGroup(group, o2)
  {
    var s1 := SortedGroup(group, o1);
    var s2 := SortedGroup(group, o2);
    SortedGroupFacts(group, o1);
    GroupInfosPermute(group, o1, o2);
    assert multiset(s1) == multiset(s2);
    StrictImpliesConnected(s1);
    FreqLessIsStrictWeakOrder();
    SortedUnique(s1, s2, FreqLess);
  }

  lemma StrictImpliesConnected(s: seq<TileInfo>)
    requires forall i, j :: 0 <= i < j < |s| ==> FreqLess(s[i], s[j])
    ensures ConnectedOn(s, FreqLess)
  {
    forall i, j | 0 <= i < |s| && 0 <= j < |s| && s[i] != s[j]
      ensures FreqLess(s[i], s[j]) || FreqLess(s[j], s[i])
    {
    }
  }

  /** freq_order built from two enumerations holds the same variants. */
  lemma GroupInfosPermute(group: map<string, TileInfo>, o1: seq<string>, o2: seq<string>)
    requires GroupValid(group) && Enumerates(o1, group.Keys) && Enumerates(o2, group.Keys)
    ensures multiset(GroupInfos(group, o1)) == multiset(GroupInfos(group, o2))
  {
    GroupInfosEnumerate(group, o1);
    GroupInfosEnumerate(group, o2);
    EnumerationsPermute(GroupInfos(group, o1), GroupInfos(group, o2), group.Values);
  }

  lemma GroupInfosEnumerate(group: map<string, TileInfo>, o: seq<string>)
    requires GroupValid(group) && Enumerates(o, group.Keys)
    ensures Enumerates(GroupInfos(group, o), group.Values)
  {
    var infos := GroupInfos(group, o);
    forall x | x in group.Values ensures x in infos {
      var m :| m in group && group[m] == x;
      assert m in o;
      var k :| 0 <= k < |o| && o[k] == m;
      assert infos[k] == x;
    }
    forall i, j | 0 <= i < j < |infos| ensures infos[i] != infos[j] {
      assert infos[i].md5Sum == o[i] && infos[j].md5Sum == o[j];
    }
  }

  /** Before the rank loop nothing is ranked yet. */
  lemma PartlyRankedStart(group: map<string, TileInfo>, index: map<string, int>)
    ensures PartlyRanked(group, index, 0) == group
  {
  }

  /** Once the loop has passed every index, the position is ranked. */
  lemma PartlyRankedEnd(group: map<string, TileInfo>, mOrder: seq<string>)
    requires GroupValid(group) && Enumerates(mOrder, group.Keys)
    ensures var sorted := SortedGroup(group, mOrder);
      PartlyRanked(group, SortedIndex(group, sorted), |sorted|) == RankedGroup(group, mOrder)
  {
    var sorted := SortedGroup(group, mOrder);
    SortedGroupFacts(group, mOrder);
    var index := SortedIndex(group, sorted);
    PartlyRankedAll(group, index, |sorted|);
    RankedGroupByIndex(group, mOrder);
  }

  /** RankedGroup reads each rank from the index map. */
  lemma RankedGroupByIndex(group: map<string, TileInfo>, mOrder: seq<string>)
    requires forall k :: 0 <= k < |mOrder| ==> mOrder[k] in group
    ensures var index := SortedIndex(group, SortedGroup(group, mOrder));
      RankedGroup(group, mOrder) == map m | m in group :: group[m].(rank := index[m])
  {
  }

  lemma PartlyRankedAll(group: map<string, TileInfo>, index: map<string, int>, n: int)
    requires forall m :: m in group ==> m in index && 0 <= index[m] < n
    ensures PartlyRanked(group, index, n) == map m | m in group :: group[m].(rank := index[m])
  {
  }

  /** One round of the rank loop: z.Rank = i for the i-th sorted variant. */
  lemma PartlyRankedStep(group: map<string, TileInfo>, index: map<string, int>, m: string, i: int)
    requires 0 <= i && m in group && m in index && index[m] == i
    requires forall m' :: m' in index && index[m'] == i ==> m' == m
    ensures m in PartlyRanked(group, index, i)
    ensures PartlyRanked(group, index, i)[m] == group[m]
    ensures PartlyRanked(group, index, i)[m := group[m].(rank := i)] == PartlyRanked(group, index, i + 1)
  {
    var before := PartlyRanked(group, index, i)[m := group[m].(rank := i)];
    var after := PartlyRanked(group, index, i + 1);
    forall m' | m' in group ensures before[m'] == after[m'] {
      if m' != m && m' in index {
        assert index[m'] != i;
      }
    }
    assert before.Keys == after.Keys;
  }

  /** Ranking changes no key and no field but the rank, so the library
      invariant survives it. */
  lemma RankAllKeepsValid(tiles: Tiles, mOrders: map<string, seq<string>>, known: set<string>)
    requires TilesValid(tiles, known)
    requires forall ps :: ps in tiles ==> ps in mOrders && Enumerates(mOrders[ps], tiles[ps].Keys)
    ensures TilesValid(RankAll(tiles, mOrders), known)
  {
    var r: Tiles := RankAll(tiles, mOrders);
    forall ps: string, m: string | ps in r && m in r[ps]
      ensures r[ps][m].md5Sum == m && r[ps][m].pathStep == ps && r[ps][m].freq >= 1 && m in known
    {
      assert r[ps] == RankedGroup(tiles[ps], mOrders[ps]);
      assert m in tiles[ps];
    }
  }

  /** What the rank loop relies on: the i-th sorted variant is the
      position's variant under its md5sum, i is its index, and an index
      names the variant sitting there. */
  lemma RankIndexFacts(group: map<string, TileInfo>, mOrder: seq<string>)
    requires GroupValid(group) && Enumerates(mOrder, group.Keys)
    ensures var sorted := SortedGroup(group, mOrder);
      var index := SortedIndex(group, sorted);
      && (forall i :: 0 <= i < |sorted| ==>
            && sorted[i].md5Sum in group && group[sorted[i].md5Sum] == sorted[i]
            && sorted[i].md5Sum in index && index[sorted[i].md5Sum] == i)
      && (forall m :: m in index && 0 <= index[m] < |sorted| ==> sorted[index[m]].md5Sum == m)
  {
    SortedGroupMembers(group, mOrder);
    var sorted := SortedGroup(group, mOrder);
    IndexOfMd5Exact(group, sorted);
  }

  lemma RankSomeStart(tiles: Tiles, ranked: Tiles)
    ensures RankSome(tiles, ranked, []) == tiles
  {
  }

  /** Ranking one more, untouched, position. */
  lemma RankSomeStep(tiles: Tiles, ranked: Tiles, done: seq<string>, ps: string)
    requires ps in tiles && ps in ranked && ps !in done
    ensures ps in RankSome(tiles, ranked, done) && RankSome(tiles, ranked, done)[ps] == tiles[ps]
    ensures RankSome(tiles, ranked, done)[ps := ranked[ps]] == RankSome(tiles, ranked, done + [ps])
  {
    var before := RankSome(tiles, ranked, done)[ps := ranked[ps]];
    var after := RankSome(tiles, ranked, done + [ps]);
    forall p | p in tiles ensures before[p] == after[p] {
      assert p in done + [ps] <==> p in done || p == ps;
    }
    assert before.Keys == after.Keys;
  }

  /** Once every position is done, the library is ranked. */
  lemma RankSomeEnd(tiles: Tiles, ranked: Tiles, done: seq<string>)
    requires ranked.Keys == tiles.Keys
    requires forall ps :: ps in tiles ==> ps in done
    ensures RankSome(tiles, ranked, done) == ranked
  {
  }

  /** Every variant is filed under its own md5sum and position key: the
      part of the library invariant ranking relies on. */
  predicate Filed(tiles: Tiles)
  {
    forall ps, m {:trigger tiles[ps][m]} :: ps in tiles && m in tiles[ps] ==>
      tiles[ps][m].md5Sum == m && tiles[ps][m].pathStep == ps
  }

  lemma TilesValidFiled(tiles: Tiles, known: set<string>)
    requires TilesValid(tiles, known)
    ensures Filed(tiles)
  {
  }

  /** The facts about one position that ranking it needs. */
  lemma FiledGroup(tiles: Tiles, ps: string)
    requires Filed(tiles) && ps in tiles
    ensures GroupValid(tiles[ps]) && forall m :: m in tiles[ps] ==> tiles[ps][m].pathStep == ps
  {
  }
}
