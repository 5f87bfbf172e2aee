/** tileset2fj's reading of the tile set and the sequence, and its cutting
    of the sequence into FastJ tiles (src/tileset2fj.go), as functions over
    values: the specification the Tiler class is proved against. */
module Tileset {
  import opened Wrappers
  import opened Hex
  import opened Text
  import opened Md5
  import opened MapFold
  import opened LexOrder
  import opened Sorting
  import opened Fold

  /** Every tag is 24 bases long; the tile runs 24 bases into its end tag. */
  const TAG_LEN: nat := 24
  /** Each tile's bases are printed 50 to a line. */
  const FOLD_WIDTH: nat := 50

  // ---------------------------------------------------------------------
  // load_tagset (src/tileset2fj.go:80-96)

  /** What one line of the "path.step,tag_sequence" CSV contributes. */
  datatype TagLine = NoTag | TagPair(position: string, tag: string) | BadTag(lineNo: int)

  /** One line, numbered from 1 counting blank lines: an empty line is
      skipped, and a line that does not split into exactly two fields is an
      error. */
  function ParseTagLine(l: string, lineNo: int): TagLine
  {
    if |l| == 0 then NoTag
    else
      var fields := Split(l, ',');
      if |fields| != 2 then BadTag(lineNo) else TagPair(fields[0], fields[1])
  }

  function TagLines(lines: seq<string>): (tls: seq<TagLine>)
    ensures |tls| == |lines|
    ensures forall i :: 0 <= i < |lines| ==> tls[i] == ParseTagLine(lines[i], i + 1)
  {
    seq(|lines|, i requires 0 <= i < |lines| => ParseTagLine(lines[i], i + 1))
  }

  /** g_tagset (position to tag) and g_tagseq (tag to position). */
  datatype Tagset = Tagset(byPosition: map<string, string>, byTag: map<string, string>)

  /** The tag set after the load, and the error it returned, if any. */
  datatype TagLoad = TagLoad(tags: Tagset, stop: Option<Fault>)

  /** The load over the parsed lines, as a fold over prefixes: the first
      bad line stops it, keeping the entries before. */
  function LoadTags(ts: Tagset, tls: seq<TagLine>): TagLoad
    decreases |tls|
  {
    if |tls| == 0 then TagLoad(ts, None)
    else
      var r := LoadTags(ts, tls[..|tls| - 1]);
      if r.stop.Some? then r
      else
        match tls[|tls| - 1]
        case NoTag => r
        case TagPair(p, t) =>
          TagLoad(Tagset(r.tags.byPosition[p := t], r.tags.byTag[t := p]), None)
        case BadTag(n) => TagLoad(r.tags, Some(BadTagsetLine(n)))
  }

  /** load_tagset over the lines of the tile-set file. */
  function LoadTagset(ts: Tagset, lines: seq<string>): TagLoad
  {
    LoadTags(ts, TagLines(lines))
  }

  /** The index of the first bad line, or the number of lines when there is
      none. */
  function FirstBad(tls: seq<TagLine>): (j: nat)
    ensures j <= |tls|
    ensures forall i :: 0 <= i < j ==> !tls[i].BadTag?
    ensures j < |tls| ==> tls[j].BadTag?
    decreases |tls|
  {
    if |tls| == 0 then 0
    else
      var init := tls[..|tls| - 1];
      var j := FirstBad(init);
      if j < |init| then j
      else if tls[|tls| - 1].BadTag? then |init|
      else |tls|
  }

  /** The (position, tag) pairs of the lines, in order. */
  function PositionRows(tls: seq<TagLine>): seq<(string, string)>
    decreases |tls|
  {
    if |tls| == 0 then []
    else
      PositionRows(tls[..|tls| - 1]) +
      match tls[|tls| - 1]
      case TagPair(p, t) => [(p, t)]
      case _ => []
  }

  /** The (tag, position) pairs of the lines, in order. */
  function TagRows(tls: seq<TagLine>): seq<(string, string)>
    decreases |tls|
  {
    if |tls| == 0 then []
    else
      TagRows(tls[..|tls| - 1]) +
      match tls[|tls| - 1]
      case TagPair(p, t) => [(t, p)]
      case _ => []
  }

  // ---------------------------------------------------------------------
  // load_seq (src/tileset2fj.go:98-109)

  /** The index of the last non-empty line, or -1 when there is none. */
  function LastFull(lines: seq<string>): (k: int)
    ensures -1 <= k < |lines|
    ensures k >= 0 ==> |lines[k]| > 0
    ensures forall j :: k < j < |lines| ==> |lines[j]| == 0
    decreases |lines|
  {
    if |lines| == 0 then -1
    else if |lines[|lines| - 1]| > 0 then |lines| - 1
    else LastFull(lines[..|lines| - 1])
  }

  /** g_seq after the load: the last non-empty line (or g_seq as it was,
      when every line is empty), lower-cased. */
  function LoadSeq(g: string, lines: seq<string>): string
  {
    var k := LastFull(lines);
    ToLower(if k < 0 then g else lines[k])
  }

  // ---------------------------------------------------------------------
  // gen_tiling (src/tileset2fj.go:132-180)

  /** What a tile is cut from: g_seq, g_build_prefix and g_seq_start. */
  datatype Source = Source(bases: string, buildPrefix: string, seqStart: int)

  /** A FastJ tile as gen_tiling writes it: the header fields ("startSeq"
      and "endSeq" repeat the tags, "md5sum" is the digest of the bases)
      and the bases. */
  datatype Tile = Tile(
    tileId: string,
    build: string,
    locusStart: int,
    locusEnd: int,
    length: int,
    seedTileLength: int,
    startTag: string,
    endTag: string,
    bases: string)

  /** The tiles written, and the panic that ended the run, if one did. */
  datatype Run = Run(tiles: seq<Tile>, stop: Option<Fault>)

  /** tagpos_ind: where each position's tag first occurs in g_seq, or -1. */
  function IndexMap(g: string, tagset: map<string, string>): (ind: map<string, int>)
    ensures ind.Keys == tagset.Keys
    ensures forall p :: p in ind ==> ind[p] == Index(g, tagset[p])
  {
    map p | p in tagset :: Index(g, tagset[p])
  }

  /** tagpos_ind[p], with Go's zero value for a position that is absent. */
  function Ind(ind: map<string, int>, p: string): int
  {
    if p in ind then ind[p] else 0
  }

  /** tagpos_ind read along the sorted positions. */
  function Found(ind: map<string, int>, ps: seq<string>): (ix: seq<int>)
    ensures |ix| == |ps|
    ensures forall k :: 0 <= k < |ps| ==> ix[k] == Ind(ind, ps[k])
  {
    seq(|ps|, k requires 0 <= k < |ps| => Ind(ind, ps[k]))
  }

  /** The inner scan of gen_tiling from gap n: the first gap at or after n
      whose position's tag is found, or the gap that reaches the end. */
  function Gap(ix: seq<int>, i: nat, n: nat): (m: nat)
    requires i + n <= |ix|
    ensures n <= m && i + m <= |ix|
    ensures i + m < |ix| ==> ix[i + m] >= 0
    ensures forall k :: i + n <= k < i + m ==> ix[k] < 0
    decreases |ix| - i - n
  {
    if i + n == |ix| || ix[i + n] >= 0 then n else Gap(ix, i, n + 1)
  }

  /** Index i starts a tile: its tag is found and the scan reaches a later
      found one. */
  predicate Emits(ix: seq<int>, i: nat)
    requires i < |ix|
  {
    ix[i] >= 0 && i + Gap(ix, i, 1) < |ix|
  }

  /** "%03s.00.%04s.000" of the path and step parts of a position. */
  function TileIdOf(path: string, step: string): string
  {
    ZeroPad(path, 3) + ".00." + ZeroPad(step, 4) + ".000"
  }

  /** One tile (src/tileset2fj.go:155-171): from sp, the start of position
      p's tag, to ep, with seed length n. The slice g_seq[sp:ep], the
      missing '.' of the position and a tile shorter than a tag each panic,
      in that order. */
  function MakeTile(src: Source, p: string, sp: int, ep: int, n: int): Result<Tile, Fault>
  {
    if !(0 <= sp <= ep <= |src.bases|) then Err(SliceOutOfRange(sp, ep))
    else
      var s := src.bases[sp..ep];
      var parts := Split(p, '.');
      if |parts| < 2 then Err(MissingPartition(p))
      else if |s| < TAG_LEN then Err(TileTooShort(|s|))
      else
        Ok(Tile(TileIdOf(parts[0], parts[1]), src.buildPrefix,
                sp + src.seqStart, ep + src.seqStart - 1, |s|, n,
                s[..TAG_LEN], s[|s| - TAG_LEN..], s))
  }

  /** The tile started at sorted index i: it runs to 24 past the tag of the
      next found index i + n. */
  function TileAt(src: Source, ps: seq<string>, ix: seq<int>, i: nat): Result<Tile, Fault>
    requires |ps| == |ix| && i < |ix| && i + Gap(ix, i, 1) < |ix|
  {
    var n := Gap(ix, i, 1);
    MakeTile(src, ps[i], ix[i], ix[i + n] + TAG_LEN, n)
  }

  /** The main loop of gen_tiling from index i on. */
  function Tiling(src: Source, ps: seq<string>, ix: seq<int>, i: nat): Run
    requires |ps| == |ix| && i <= |ix|
    decreases |ix| - i
  {
    if i == |ix| then Run([], None)
    else if !Emits(ix, i) then Tiling(src, ps, ix, i + 1)
    else
      match TileAt(src, ps, ix, i)
      case Err(f) => Run([], Some(f))
      case Ok(t) =>
        var r := Tiling(src, ps, ix, i + 1);
        Run([t] + r.tiles, r.stop)
  }

  /** gen_tiling: the tag positions, enumerated in the map's order `order`,
      sorted with LexOrder and walked in that order. */
  function GenTiling(src: Source, tagset: map<string, string>, order: seq<string>): Run
  {
    var ps := SortLex(order);
    Tiling(src, ps, Found(IndexMap(src.bases, tagset), ps), 0)
  }

  /** The indices from i on that start a tile, in increasing order. */
  function Starts(ix: seq<int>, i: nat): (s: seq<nat>)
    requires i <= |ix|
    ensures forall k :: 0 <= k < |s| ==> i <= s[k] < |ix| && Emits(ix, s[k])
    ensures forall k, l :: 0 <= k < l < |s| ==> s[k] < s[l]
    decreases |ix| - i
  {
    if i == |ix| then []
    else if Emits(ix, i) then [i] + Starts(ix, i + 1)
    else Starts(ix, i + 1)
  }

  // ---------------------------------------------------------------------
  // The text written for a tile

  /** The header object of a tile, as gen_tiling formats it, with the
      digest m5 of its bases. */
  function HeaderText(t: Tile, m5: string): string
  {
    "{ \"tileID\" : \"" + t.tileId + "\", \"md5sum\":\"" + m5
    + "\", \"locus\":[{\"build\":\"" + t.build + " " + FmtDec(t.locusStart) + " " + FmtDec(t.locusEnd)
    + "\"}], \"n\":" + FmtDec(t.length) + ", \"seedTileLength\":" + FmtDec(t.seedTileLength)
    + ", \"startTile\":false, \"endTile\":false, \"startSeq\":\"" + t.startTag
    + "\", \"endSeq\":\"" + t.endTag + "\", \"startTag\":\"" + t.startTag
    + "\", \"endTag\":\"" + t.endTag + "\", \"nocallCount\":" + FmtDec(0) + ", \"notes\":[] }"
  }

  /** The header object of a tile. */
  function HeaderJson(md5: Md5Fn, t: Tile): string
  {
    HeaderText(t, Md5Sum(md5, t.bases))
  }

  /** The lines written for a tile: "> " and the header, the bases folded
      by print_fold, and an empty line. */
  function TileLines(md5: Md5Fn, t: Tile): seq<string>
  {
    ["> " + HeaderJson(md5, t)] + PrintFold(t.bases, FOLD_WIDTH) + [""]
  }

  /** The lines written for a sequence of tiles. */
  function Render(md5: Md5Fn, tiles: seq<Tile>): seq<string>
    decreases |tiles|
  {
    if |tiles| == 0 then [] else Render(md5, tiles[..|tiles| - 1]) + TileLines(md5, tiles[|tiles| - 1])
  }

  // ---------------------------------------------------------------------
  // Lemmas: load_tagset

  /** A line gives a pair exactly when it is non-empty and has exactly two
      comma-separated fields; the pair is those fields, which join back to
      the line. */
  lemma TagLineFacts(l: string, lineNo: int)
    ensures ParseTagLine(l, lineNo).TagPair? <==> |l| > 0 && |Split(l, ',')| == 2
    ensures ParseTagLine(l, lineNo).BadTag? <==> |l| > 0 && |Split(l, ',')| != 2
    ensures ParseTagLine(l, lineNo).BadTag? ==> ParseTagLine(l, lineNo).lineNo == lineNo
    ensures ParseTagLine(l, lineNo).TagPair? ==>
      var tl := ParseTagLine(l, lineNo);
      && l == tl.position + "," + tl.tag
      && ',' !in tl.position && ',' !in tl.tag
  {
    if |l| > 0 && |Split(l, ',')| == 2 {
      var f := Split(l, ',');
      SplitJoin(l, ',');
      assert JoinWith(f, ',') == f[0] + [','] + JoinWith(f[1..], ',');
      assert f[1..] == [f[1]];
    }
  }

  /** The load keeps the entries of the lines before the first bad line, a
      later line overwriting an earlier one in each map, and stops with the
      number of that line. */
  lemma {:induction false} LoadTagsIs(ts: Tagset, tls: seq<TagLine>)
    ensures var j := FirstBad(tls);
      var r := LoadTags(ts, tls);
      && r.tags.byPosition == Overwrite(ts.byPosition, PositionRows(tls[..j]))
      && r.tags.byTag == Overwrite(ts.byTag, TagRows(tls[..j]))
      && r.stop == if j < |tls| then Some(BadTagsetLine(tls[j].lineNo)) else None
    decreases |tls|
  {
    if |tls| > 0 {
      var n := |tls|;
      var init := tls[..n - 1];
      LoadTagsIs(ts, init);
      var j0 := FirstBad(init);
      if j0 < n - 1 {
        assert tls[..j0] == init[..j0];
        assert init[j0] == tls[j0];
        assert FirstBad(tls) == j0;
        assert LoadTags(ts, tls) == LoadTags(ts, init);
      } else {
        assert init[..j0] == init;
        assert tls[..n] == tls;
        var r0 := LoadTags(ts, init);
        match tls[n - 1]
        case NoTag =>
          assert PositionRows(tls) == PositionRows(init) + [];
          assert PositionRows(init) + [] == PositionRows(init);
          assert TagRows(tls) == TagRows(init) + [];
          assert TagRows(init) + [] == TagRows(init);
          assert FirstBad(tls) == n;
          assert LoadTags(ts, tls) == r0;
        case TagPair(p, t) =>
          PairRowsSnoc(init, tls, p, t);
          assert FirstBad(tls) == n;
        case BadTag(k) =>
          assert FirstBad(tls) == n - 1;
          assert LoadTags(ts, tls) == TagLoad(r0.tags, Some(BadTagsetLine(k)));
      }
    }
  }

  /** One more pair line inserts its pair into both maps. */
  lemma PairRowsSnoc(init: seq<TagLine>, tls: seq<TagLine>, p: string, t: string)
    requires |tls| > 0 && init == tls[..|tls| - 1] && tls[|tls| - 1] == TagPair(p, t)
    ensures PositionRows(tls) == PositionRows(init) + [(p, t)]
    ensures TagRows(tls) == TagRows(init) + [(t, p)]
    ensures forall m: map<string, string> ::
      Overwrite(m, PositionRows(tls)) == Overwrite(m, PositionRows(init))[p := t]
    ensures forall m: map<string, string> ::
      Overwrite(m, TagRows(tls)) == Overwrite(m, TagRows(init))[t := p]
  {
    var pr := PositionRows(tls);
    var tr := TagRows(tls);
    assert pr[..|pr| - 1] == PositionRows(init);
    assert tr[..|tr| - 1] == TagRows(init);
  }

  /** After the load, position p maps to a tag exactly when it did before
      or a line before the first bad one names it, and then to the tag of
      the last such line; in the same way tag t maps to a position. */
  lemma LoadTagsetLookup(ts: Tagset, lines: seq<string>, p: string, t: string)
    ensures var tls := TagLines(lines);
      var prs := PositionRows(tls[..FirstBad(tls)]);
      var trs := TagRows(tls[..FirstBad(tls)]);
      var r := LoadTagset(ts, lines).tags;
      && (p in r.byPosition <==> p in ts.byPosition || HasKey(prs, p))
      && (HasKey(prs, p) ==> r.byPosition[p] == prs[LastIndex(prs, p)].1)
      && (!HasKey(prs, p) && p in ts.byPosition ==> r.byPosition[p] == ts.byPosition[p])
      && (t in r.byTag <==> t in ts.byTag || HasKey(trs, t))
      && (HasKey(trs, t) ==> r.byTag[t] == trs[LastIndex(trs, t)].1)
      && (!HasKey(trs, t) && t in ts.byTag ==> r.byTag[t] == ts.byTag[t])
  {
    var tls := TagLines(lines);
    var j := FirstBad(tls);
    LoadTagsIs(ts, tls);
    OverwriteLookup(ts.byPosition, PositionRows(tls[..j]), p);
    OverwriteLookup(ts.byTag, TagRows(tls[..j]), t);
  }

  /** Each pair kept in the position map comes from a line "p,t" of the
      file, and its mirror image is kept in the tag map. */
  lemma {:induction false} PositionRowsFrom(tls: seq<TagLine>, i: int)
    requires 0 <= i < |PositionRows(tls)|
    ensures |TagRows(tls)| == |PositionRows(tls)|
    ensures TagRows(tls)[i] == (PositionRows(tls)[i].1, PositionRows(tls)[i].0)
    ensures exists j :: 0 <= j < |tls| && tls[j] == TagPair(PositionRows(tls)[i].0, PositionRows(tls)[i].1)
    decreases |tls|
  {
    var n := |tls|;
    var init := tls[..n - 1];
    assert forall j :: 0 <= j < n - 1 ==> init[j] == tls[j];
    RowsSameLength(init);
    if i < |PositionRows(init)| {
      assert PositionRows(tls)[i] == PositionRows(init)[i];
      assert TagRows(tls)[i] == TagRows(init)[i];
      PositionRowsFrom(init, i);
      RowsSameLength(tls);
    } else {
      assert tls[n - 1].TagPair?;
    }
  }

  lemma {:induction false} RowsSameLength(tls: seq<TagLine>)
    ensures |TagRows(tls)| == |PositionRows(tls)|
    decreases |tls|
  {
    if |tls| > 0 { RowsSameLength(tls[..|tls| - 1]); }
  }

  /** The load stops exactly when some non-empty line does not have two
      fields, and then with the number (from 1) of the first such line. */
  lemma LoadTagsetStops(ts: Tagset, lines: seq<string>)
    ensures var stop := LoadTagset(ts, lines).stop;
      && (stop.None? <==> forall i :: 0 <= i < |lines| ==> |lines[i]| == 0 || |Split(lines[i], ',')| == 2)
      && (stop.Some? ==>
            exists j :: 0 <= j < |lines|
              && stop == Some(BadTagsetLine(j + 1))
              && |lines[j]| > 0 && |Split(lines[j], ',')| != 2
              && (forall i :: 0 <= i < j ==> |lines[i]| == 0 || |Split(lines[i], ',')| == 2))
  {
    var tls := TagLines(lines);
    var j := FirstBad(tls);
    LoadTagsIs(ts, tls);
    forall i | 0 <= i < |lines|
      ensures tls[i].BadTag? <==> |lines[i]| > 0 && |Split(lines[i], ',')| != 2
    {
      TagLineFacts(lines[i], i + 1);
    }
    if j < |tls| {
      TagLineFacts(lines[j], j + 1);
    }
  }

  /** The load over one more line. */
  lemma LoadTagsStep(ts: Tagset, tls: seq<TagLine>, i: int)
    requires 0 <= i < |tls|
    ensures LoadTags(ts, tls[..i + 1]) ==
      var r := LoadTags(ts, tls[..i]);
      if r.stop.Some? then r
      else match tls[i]
        case NoTag => r
        case TagPair(p, t) => TagLoad(Tagset(r.tags.byPosition[p := t], r.tags.byTag[t := p]), None)
        case BadTag(n) => TagLoad(r.tags, Some(BadTagsetLine(n)))
  {
    assert tls[..i + 1][..i] == tls[..i];
  }

  /** Once the load has stopped, the later lines change nothing. */
  lemma {:induction false} LoadTagsSticks(ts: Tagset, tls: seq<TagLine>, i: int)
    requires 0 <= i <= |tls| && LoadTags(ts, tls[..i]).stop.Some?
    ensures LoadTags(ts, tls) == LoadTags(ts, tls[..i])
    decreases |tls|
  {
    if i < |tls| {
      var init := tls[..|tls| - 1];
      assert init[..i] == tls[..i];
      LoadTagsSticks(ts, init, i);
    } else {
      assert tls[..i] == tls;
    }
  }

  // ---------------------------------------------------------------------
  // Lemmas: load_seq

  /** The loaded sequence is the last non-empty line, lower-cased, or the
      old sequence lower-cased when there is no such line; it holds no
      upper-case letter and lowering it again changes nothing. */
  lemma LoadSeqFacts(g: string, lines: seq<string>, k: int)
    requires -1 <= k < |lines|
    requires k >= 0 ==> |lines[k]| > 0
    requires forall j :: k < j < |lines| ==> |lines[j]| == 0
    ensures LoadSeq(g, lines) == ToLower(if k < 0 then g else lines[k])
    ensures forall i :: 0 <= i < |LoadSeq(g, lines)| ==> !('A' <= LoadSeq(g, lines)[i] <= 'Z')
    ensures ToLower(LoadSeq(g, lines)) == LoadSeq(g, lines)
  {
    assert LastFull(lines) == k;
    ToLowerIdempotent(if k < 0 then g else lines[k]);
  }

  /** One more line for load_seq's loop. */
  lemma LastFullStep(lines: seq<string>, i: int)
    requires 0 <= i < |lines|
    ensures LastFull(lines[..i + 1]) == if |lines[i]| > 0 then i else LastFull(lines[..i])
  {
    assert lines[..i + 1][..i] == lines[..i];
  }

  // ---------------------------------------------------------------------
  // Lemmas: gen_tiling

  /** An index starts a tile exactly when its tag is found and the tag of
      some later index is found too: unfound positions and the last found
      one start none. */
  lemma EmitsIff(ix: seq<int>, i: nat)
    requires i < |ix|
    ensures Emits(ix, i) <==> ix[i] >= 0 && exists j :: i < j < |ix| && ix[j] >= 0
  {
    var m := Gap(ix, i, 1);
    if ix[i] >= 0 && exists j :: i < j < |ix| && ix[j] >= 0 {
      var j :| i < j < |ix| && ix[j] >= 0;
      assert i + m <= j;
    }
  }

  /** Every index from i on that starts a tile is one of the starts. */
  lemma {:induction false} StartsComplete(ix: seq<int>, i: nat, k: nat)
    requires i <= k < |ix| && Emits(ix, k)
    ensures k in Starts(ix, i)
    decreases k - i
  {
    if i < k {
      StartsComplete(ix, i + 1, k);
      if Emits(ix, i) {
        assert Starts(ix, i) == [i] + Starts(ix, i + 1);
      }
    }
  }

  /** The scan from a start reaches the next start. */
  lemma NextStart(ix: seq<int>, i: nat)
    requires i < |ix| && Emits(ix, i) && |Starts(ix, i + 1)| > 0
    ensures i + Gap(ix, i, 1) == Starts(ix, i + 1)[0]
  {
    var rest := Starts(ix, i + 1);
    var j := i + Gap(ix, i, 1);
    var h := rest[0];
    assert i < h && ix[h] >= 0;
    if j < h {
      EmitsIff(ix, j);
      StartsComplete(ix, i + 1, j);
      assert false;
    }
  }

  /** Each start after the first is where the scan from the previous start
      ends. */
  lemma {:induction false} StartsChain(ix: seq<int>, i: nat, k: nat)
    requires i <= |ix| && k + 1 < |Starts(ix, i)|
    ensures var s := Starts(ix, i); s[k] + Gap(ix, s[k], 1) == s[k + 1]
    decreases |ix| - i
  {
    var rest := Starts(ix, i + 1);
    if Emits(ix, i) {
      assert Starts(ix, i) == [i] + rest;
      if k == 0 {
        NextStart(ix, i);
      } else {
        StartsChain(ix, i + 1, k - 1);
      }
    } else {
      StartsChain(ix, i + 1, k);
    }
  }

  /** The tiles written from index i on are the tiles of the starts, in
      order, up to the first that panics; the run stops with that panic, or
      completes with one tile per start. */
  lemma {:induction false} TilingIs(src: Source, ps: seq<string>, ix: seq<int>, i: nat)
    requires |ps| == |ix| && i <= |ix|
    ensures var r := Tiling(src, ps, ix, i);
      var s := Starts(ix, i);
      && |r.tiles| <= |s|
      && (forall k :: 0 <= k < |r.tiles| ==> TileAt(src, ps, ix, s[k]) == Ok(r.tiles[k]))
      && (r.stop.None? <==> |r.tiles| == |s|)
      && (r.stop.Some? ==> TileAt(src, ps, ix, s[|r.tiles|]) == Err(r.stop.value))
    decreases |ix| - i
  {
    if i < |ix| {
      TilingIs(src, ps, ix, i + 1);
      if Emits(ix, i) {
        TilingStep(src, ps, ix, i);
      }
    }
  }

  /** The tiles of a run are those of the starts `s`, in order, up to the
      first that panics. */
  predicate TilesOf(src: Source, ps: seq<string>, ix: seq<int>, s: seq<nat>, r: Run)
    requires |ps| == |ix| && forall k :: 0 <= k < |s| ==> s[k] < |ix| && s[k] + Gap(ix, s[k], 1) < |ix|
  {
    && |r.tiles| <= |s|
    && (forall k :: 0 <= k < |r.tiles| ==> TileAt(src, ps, ix, s[k]) == Ok(r.tiles[k]))
    && (r.stop.None? <==> |r.tiles| == |s|)
    && (r.stop.Some? ==> TileAt(src, ps, ix, s[|r.tiles|]) == Err(r.stop.value))
  }

  /** The inductive step of TilingIs at a start. */
  lemma TilingStep(src: Source, ps: seq<string>, ix: seq<int>, i: nat)
    requires |ps| == |ix| && i < |ix| && Emits(ix, i)
    requires TilesOf(src, ps, ix, Starts(ix, i + 1), Tiling(src, ps, ix, i + 1))
    ensures TilesOf(src, ps, ix, Starts(ix, i), Tiling(src, ps, ix, i))
  {
    assert Starts(ix, i) == [i] + Starts(ix, i + 1);
    if TileAt(src, ps, ix, i).Err? {
      TilingStepErr(src, ps, ix, i);
    } else {
      TilingStepOk(src, ps, ix, i);
    }
  }

  lemma TilingStepErr(src: Source, ps: seq<string>, ix: seq<int>, i: nat)
    requires |ps| == |ix| && i < |ix| && Emits(ix, i) && TileAt(src, ps, ix, i).Err?
    ensures TilesOf(src, ps, ix, Starts(ix, i), Tiling(src, ps, ix, i))
  {
    var s := Starts(ix, i);
    assert s == [i] + Starts(ix, i + 1);
    var f := TileAt(src, ps, ix, i).error;
    assert Tiling(src, ps, ix, i) == Run([], Some(f));
  }

  lemma TilingStepOk(src: Source, ps: seq<string>, ix: seq<int>, i: nat)
    requires |ps| == |ix| && i < |ix| && Emits(ix, i) && TileAt(src, ps, ix, i).Ok?
    requires TilesOf(src, ps, ix, Starts(ix, i + 1), Tiling(src, ps, ix, i + 1))
    ensures TilesOf(src, ps, ix, Starts(ix, i), Tiling(src, ps, ix, i))
  {
    var s := Starts(ix, i);
    var rest := Starts(ix, i + 1);
    assert s == [i] + rest;
    var r := Tiling(src, ps, ix, i);
    var r1 := Tiling(src, ps, ix, i + 1);
    var t := TileAt(src, ps, ix, i).value;
    assert r == Run([t] + r1.tiles, r1.stop);
    forall k | 0 <= k < |r.tiles| ensures TileAt(src, ps, ix, s[k]) == Ok(r.tiles[k]) {
      if k > 0 { assert s[k] == rest[k - 1] && r.tiles[k] == r1.tiles[k - 1]; }
    }
    if r.stop.Some? { assert s[|r.tiles|] == rest[|r1.tiles|]; }
  }

  /** A tile panics exactly when g_seq[sp:ep] is out of range, the position
      has no '.', or the slice is shorter than a tag; the slice is checked
      first. */
  lemma MakeTileFaults(src: Source, p: string, sp: int, ep: int, n: int)
    ensures MakeTile(src, p, sp, ep, n).Ok? <==>
      0 <= sp <= ep <= |src.bases| && '.' in p && ep - sp >= TAG_LEN
    ensures MakeTile(src, p, sp, ep, n) == Err(SliceOutOfRange(sp, ep)) <==> !(0 <= sp <= ep <= |src.bases|)
  {
    SplitParts(p, '.');
  }

  /** Splitting yields at least two parts exactly when the separator
      occurs. */
  lemma SplitParts(s: string, sep: char)
    ensures |Split(s, sep)| >= 2 <==> sep in s
  {
    var i := IndexOfChar(s, sep);
    if i >= 0 {
      assert s[i] == sep;
      assert |Split(s, sep)| == 1 + |Split(s[i + 1..], sep)|;
    } else {
      assert Split(s, sep) == [s];
    }
  }

  /** A tile made from sp to ep holds exactly g_seq[sp:ep], at least a tag
      long; its tags are its first and last 24 bases and its locus spans
      exactly its bases. */
  lemma MakeTileFacts(src: Source, p: string, sp: int, ep: int, n: int)
    requires MakeTile(src, p, sp, ep, n).Ok?
    ensures var t := MakeTile(src, p, sp, ep, n).value;
      && 0 <= sp <= ep <= |src.bases|
      && t.bases == src.bases[sp..ep]
      && t.length == |t.bases| >= TAG_LEN
      && t.seedTileLength == n
      && t.startTag == src.bases[sp..sp + TAG_LEN]
      && t.endTag == src.bases[ep - TAG_LEN..ep]
      && t.locusStart == sp + src.seqStart
      && t.locusEnd == t.locusStart + t.length - 1
  {
    var s := src.bases[sp..ep];
    assert s[..TAG_LEN] == src.bases[sp..sp + TAG_LEN];
    assert s[|s| - TAG_LEN..] == src.bases[ep - TAG_LEN..ep];
  }

  /** A tile of gen_tiling runs from where its position's tag was found to
      24 bases past where the tag of the next found position was found,
      the seed length further on in sorted order; its start tag is its
      position's tag and its end tag the next position's when both are 24
      bases long. */
  lemma TileTags(src: Source, ps: seq<string>, ix: seq<int>, i: nat, tagI: string, tagJ: string)
    requires |ps| == |ix| && i < |ix| && i + Gap(ix, i, 1) < |ix| && TileAt(src, ps, ix, i).Ok?
    requires OccursAt(src.bases, tagI, ix[i]) && OccursAt(src.bases, tagJ, ix[i + Gap(ix, i, 1)])
    ensures var t := TileAt(src, ps, ix, i).value;
      var j := i + Gap(ix, i, 1);
      && t.seedTileLength == j - i
      && 0 <= ix[i] <= ix[j] + TAG_LEN <= |src.bases| && t.bases == src.bases[ix[i]..ix[j] + TAG_LEN]
      && (|tagI| == TAG_LEN ==> t.startTag == tagI)
      && (|tagJ| == TAG_LEN ==> t.endTag == tagJ)
  {
    TileAtFacts(src, ps, ix, i, Gap(ix, i, 1), i + Gap(ix, i, 1));
  }

  /** The tile at i, whose scan of length n reaches j: its bases run from
      the tag found at i to 24 past the tag found at j, and its tags and
      locus follow. */
  lemma TileAtFacts(src: Source, ps: seq<string>, ix: seq<int>, i: nat, n: nat, j: nat)
    requires |ps| == |ix| && i < |ix| && n == Gap(ix, i, 1) && j == i + n && j < |ix|
    requires TileAt(src, ps, ix, i).Ok?
    ensures var t := TileAt(src, ps, ix, i).value;
      && t.seedTileLength == n
      && 0 <= ix[i] <= ix[j] + TAG_LEN <= |src.bases|
      && ix[i] + TAG_LEN <= |src.bases|
      && t.bases == src.bases[ix[i]..ix[j] + TAG_LEN]
      && t.startTag == src.bases[ix[i]..ix[i] + TAG_LEN]
      && t.endTag == src.bases[ix[j]..ix[j] + TAG_LEN]
      && t.locusStart == ix[i] + src.seqStart
      && t.locusEnd == ix[j] + TAG_LEN + src.seqStart - 1
  {
    var m := MakeTile(src, ps[i], ix[i], ix[j] + TAG_LEN, n);
    assert TileAt(src, ps, ix, i) == m;
    MakeTileFacts(src, ps[i], ix[i], ix[j] + TAG_LEN, n);
  }

  /** The index read for a sorted position is the first place its tag
      occurs in g_seq, or -1 when it does not occur. */
  lemma FoundAt(g: string, tagset: map<string, string>, ps: seq<string>, k: nat)
    requires k < |ps| && ps[k] in tagset
    ensures var ix := Found(IndexMap(g, tagset), ps);
      && ix[k] == Index(g, tagset[ps[k]])
      && (ix[k] >= 0 ==> OccursAt(g, tagset[ps[k]], ix[k]))
      && (forall q :: 0 <= q && (ix[k] == -1 || q < ix[k]) ==> !OccursAt(g, tagset[ps[k]], q))
  {
  }

  /** Consecutive tiles overlap by one tag: a tile's end tag is the next
      tile's start tag, and the next tile's locus starts 23 before this
      tile's locus ends. */
  lemma TilesOverlap(src: Source, ps: seq<string>, ix: seq<int>, k: nat)
    requires |ps| == |ix| && k + 1 < |Tiling(src, ps, ix, 0).tiles|
    ensures var ts := Tiling(src, ps, ix, 0).tiles;
      && ts[k].endTag == ts[k + 1].startTag
      && ts[k + 1].locusStart == ts[k].locusEnd - (TAG_LEN - 1)
  {
    var ts := Tiling(src, ps, ix, 0).tiles;
    var s := Starts(ix, 0);
    TilingTile(src, ps, ix, k);
    TilingTile(src, ps, ix, k + 1);
    StartsChain(ix, 0, k);
    OverlapAt(src, ps, ix, s[k], s[k + 1], ts[k], ts[k + 1]);
  }

  /** The tile of a start ends with the start tag of the tile of the start
      its scan reaches. */
  lemma OverlapAt(src: Source, ps: seq<string>, ix: seq<int>, a: nat, b: nat, ta: Tile, tb: Tile)
    requires |ps| == |ix| && a < |ix| && a + Gap(ix, a, 1) == b < |ix| && b + Gap(ix, b, 1) < |ix|
    requires TileAt(src, ps, ix, a) == Ok(ta) && TileAt(src, ps, ix, b) == Ok(tb)
    ensures ta.endTag == tb.startTag && tb.locusStart == ta.locusEnd - (TAG_LEN - 1)
  {
    TileAtFacts(src, ps, ix, a, Gap(ix, a, 1), b);
    TileAtFacts(src, ps, ix, b, Gap(ix, b, 1), b + Gap(ix, b, 1));
  }

  /** The k-th tile written is the tile of the k-th start. */
  lemma TilingTile(src: Source, ps: seq<string>, ix: seq<int>, k: nat)
    requires |ps| == |ix| && k < |Tiling(src, ps, ix, 0).tiles|
    ensures k < |Starts(ix, 0)|
    ensures TileAt(src, ps, ix, Starts(ix, 0)[k]) == Ok(Tiling(src, ps, ix, 0).tiles[k])
  {
    TilingIs(src, ps, ix, 0);
  }

  /** Whatever order Go's map iteration lists the positions in, gen_tiling
      writes the same tiles and stops the same way. */
  lemma GenTilingOrderFree(src: Source, tagset: map<string, string>, o1: seq<string>, o2: seq<string>)
    requires Enumerates(o1, tagset.Keys) && Enumerates(o2, tagset.Keys)
    ensures GenTiling(src, tagset, o1) == GenTiling(src, tagset, o2)
  {
    SortLexFacts(tagset.Keys, o1, o2);
  }

  /** The tile id splits on '.' into the zero-padded path, "00", the
      zero-padded step and "000"; the padded parts are at least 3 and 4
      long and end with the path and the step. */
  lemma TileIdParts(path: string, step: string)
    requires '.' !in path && '.' !in step
    ensures Split(TileIdOf(path, step), '.') == [ZeroPad(path, 3), "00", ZeroPad(step, 4), "000"]
    ensures |ZeroPad(path, 3)| >= 3 && ZeroPad(path, 3)[|ZeroPad(path, 3)| - |path|..] == path
    ensures |ZeroPad(step, 4)| >= 4 && ZeroPad(step, 4)[|ZeroPad(step, 4)| - |step|..] == step
  {
    var parts := [ZeroPad(path, 3), "00", ZeroPad(step, 4), "000"];
    assert '.' !in ZeroPad(path, 3) && '.' !in ZeroPad(step, 4);
    assert JoinWith(parts[3..], '.') == "000";
    assert JoinWith(parts[2..], '.') == ZeroPad(step, 4) + ".000";
    assert JoinWith(parts[1..], '.') == "00." + ZeroPad(step, 4) + ".000";
    assert JoinWith(parts, '.') == TileIdOf(path, step);
    JoinSplit(parts, '.');
  }

  /** A tile is written as its header line, then lines of 1 to 50 bases
      that put back together give its bases, then an empty line. */
  lemma TileLinesFacts(md5: Md5Fn, t: Tile)
    ensures var ls := TileLines(md5, t);
      && |ls| >= 2
      && ls[0] == "> " + HeaderJson(md5, t)
      && ls[|ls| - 1] == ""
      && Concat(ls[1..|ls| - 1]) == t.bases
      && (forall i :: 1 <= i < |ls| - 1 ==> 0 < |ls[i]| <= FOLD_WIDTH)
  {
    var ls := TileLines(md5, t);
    var body := PrintFold(t.bases, FOLD_WIDTH);
    PrintFoldFacts(t.bases, FOLD_WIDTH);
    assert ls[1..|ls| - 1] == body;
  }

  /** One more tile adds its lines to the text. */
  lemma RenderSnoc(md5: Md5Fn, tiles: seq<Tile>, t: Tile)
    ensures Render(md5, tiles + [t]) == Render(md5, tiles) + TileLines(md5, t)
  {
    assert (tiles + [t])[..|tiles|] == tiles;
  }

  /** The main loop at index i: an index that starts no tile is skipped; a
      start writes its tile and goes on, or panics. */
  lemma TilingNext(src: Source, ps: seq<string>, ix: seq<int>, i: nat)
    requires |ps| == |ix| && i < |ix|
    ensures !Emits(ix, i) ==> Tiling(src, ps, ix, i) == Tiling(src, ps, ix, i + 1)
    ensures Emits(ix, i) && TileAt(src, ps, ix, i).Err? ==>
      Tiling(src, ps, ix, i) == Run([], Some(TileAt(src, ps, ix, i).error))
    ensures Emits(ix, i) && TileAt(src, ps, ix, i).Ok? ==>
      var r := Tiling(src, ps, ix, i + 1);
      Tiling(src, ps, ix, i) == Run([TileAt(src, ps, ix, i).value] + r.tiles, r.stop)
  {
  }

  /** The tiles written so far followed by the run from here give the
      whole run. */
  predicate Continues(tiles: seq<Tile>, rest: Run, goal: Run)
  {
    goal == Run(tiles + rest.tiles, rest.stop)
  }

  /** Writing one more tile keeps the run on course. */
  lemma ContinuesSnoc(tiles: seq<Tile>, t: Tile, rest: Run, goal: Run)
    requires Continues(tiles, Run([t] + rest.tiles, rest.stop), goal)
    ensures Continues(tiles + [t], rest, goal)
  {
    assert (tiles + [t]) + rest.tiles == tiles + ([t] + rest.tiles);
  }
}
