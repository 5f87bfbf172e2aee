/** tileset2fj's global state (src/tileset2fj.go:56-68 and _main at
    184-185) as one object, and the steps that change or read it:
    load_tagset, load_seq and gen_tiling. */
module Tileset2Fj {
  import opened Wrappers
  import opened Text
  import opened Md5
  import opened Sorting
  import opened LexOrder
  import opened Fold
  import opened Tileset

  class Tiler {
    /** The digest, fixed for a run. */
    const md5: Md5Fn
    /** g_build_prefix and g_seq_start, set from the command line. */
    const buildPrefix: string
    const seqStart: int

    /** g_tagset (position to tag), g_tagseq (tag to position) and g_seq. */
    var tagset: map<string, string>
    var tagseq: map<string, string>
    var gseq: string

    /** init() and the first two lines of _main: empty maps, an empty
        sequence, and the prefix and offset from the command line. */
    constructor(md5: Md5Fn, buildPrefix: string, seqStart: int)
      ensures this.md5 == md5 && this.buildPrefix == buildPrefix && this.seqStart == seqStart
      ensures tagset == map[] && tagseq == map[] && gseq == ""
    {
      this.md5 := md5;
      this.buildPrefix := buildPrefix;
      this.seqStart := seqStart;
      tagset := map[];
      tagseq := map[];
      gseq := "";
    }

    /** What gen_tiling cuts tiles from. */
    function Src(): Source
      reads this
    {
      Source(gseq, buildPrefix, seqStart)
    }

    /** load_tagset (src/tileset2fj.go:80-96): each non-empty line
        "position,tag" maps the position to the tag and the tag to the
        position; the first line without exactly two fields stops the load
        with the entries before it kept. */
    method LoadTagset(lines: seq<string>) returns (stop: Option<Fault>)
      modifies this`tagset, this`tagseq
      ensures Tileset.LoadTagset(Tagset(old(tagset), old(tagseq)), lines) == TagLoad(Tagset(tagset, tagseq), stop)
    {
      ghost var ts0 := Tagset(tagset, tagseq);
      ghost var tls := TagLines(lines);
      var lineNo := 0;
      var i := 0;
      while i < |lines|
        invariant 0 <= i <= |lines| && lineNo == i
        invariant LoadTags(ts0, tls[..i]) == TagLoad(Tagset(tagset, tagseq), None)
        decreases |lines| - i
      {
        lineNo := lineNo + 1;
        LoadTagsStep(ts0, tls, i);
        var l := lines[i];
        if |l| > 0 {
          var fields := Split(l, ',');
          if |fields| != 2 {
            LoadTagsSticks(ts0, tls, i + 1);
            return Some(BadTagsetLine(lineNo));
          }
          tagset := tagset[fields[0] := fields[1]];
          tagseq := tagseq[fields[1] := fields[0]];
        }
        i := i + 1;
      }
      assert tls[..i] == tls;
      stop := None;
    }

    /** load_seq (src/tileset2fj.go:98-109): every non-empty line replaces
        g_seq, which is then lower-cased. */
    method LoadSeq(lines: seq<string>)
      modifies this`gseq
      ensures gseq == Tileset.LoadSeq(old(gseq), lines)
    {
      ghost var g0 := gseq;
      var i := 0;
      while i < |lines|
        invariant 0 <= i <= |lines|
        invariant gseq == if LastFull(lines[..i]) < 0 then g0 else lines[LastFull(lines[..i])]
        decreases |lines| - i
      {
        LastFullStep(lines, i);
        var l := lines[i];
        if |l| > 0 {
          gseq := l;
        }
        i := i + 1;
      }
      assert lines[..i] == lines;
      gseq := ToLower(gseq);
    }

    /** gen_tiling (src/tileset2fj.go:132-180), given the order in which
        Go's map iteration lists the positions: the tiles written, the
        panic that ended the run, if any, and the lines written. */
    method GenTiling(order: seq<string>) returns (tiles: seq<Tile>, stop: Option<Fault>, lines: seq<string>)
      requires Enumerates(order, tagset.Keys)
      ensures Run(tiles, stop) == Tileset.GenTiling(Src(), tagset, order)
      ensures lines == Render(md5, tiles)
    {
      var tagposInd := IndexTags(order);
      var tagpos: seq<string> := [];
      for k := 0 to |order|
        invariant tagpos == order[..k]
      {
        tagpos := tagpos + [order[k]];
      }
      assert tagpos == order;
      tagpos := SortLex(tagpos);
      tiles, stop, lines := WalkTiles(tagposInd, tagpos);
    }

    /** The work of _main (src/tileset2fj.go:207-211): load the tile set,
        ignoring the error load_tagset returns, load the sequence, and cut
        the tiles. */
    method Convert(tilesetLines: seq<string>, seqLines: seq<string>, order: seq<string>)
      returns (tiles: seq<Tile>, stop: Option<Fault>, lines: seq<string>)
      modifies this`tagset, this`tagseq, this`gseq
      requires Enumerates(order, Tileset.LoadTagset(Tagset(tagset, tagseq), tilesetLines).tags.byPosition.Keys)
      ensures Tagset(tagset, tagseq) == Tileset.LoadTagset(Tagset(old(tagset), old(tagseq)), tilesetLines).tags
      ensures gseq == Tileset.LoadSeq(old(gseq), seqLines)
      ensures Run(tiles, stop) == Tileset.GenTiling(Src(), tagset, order)
      ensures lines == Render(md5, tiles)
    {
      var _ := LoadTagset(tilesetLines);
      LoadSeq(seqLines);
      tiles, stop, lines := GenTiling(order);
    }

    /** The main loop of gen_tiling over the sorted positions. */
    method WalkTiles(tagposInd: map<string, int>, tagpos: seq<string>)
      returns (tiles: seq<Tile>, stop: Option<Fault>, lines: seq<string>)
      ensures Run(tiles, stop) == Tiling(Src(), tagpos, Found(tagposInd, tagpos), 0)
      ensures lines == Render(md5, tiles)
    {
      ghost var ix := Found(tagposInd, tagpos);
      ghost var goal := Tiling(Src(), tagpos, ix, 0);
      tiles := [];
      lines := [];
      var i := 0;
      while i < |tagpos|
        invariant 0 <= i <= |tagpos|
        invariant Continues(tiles, Tiling(Src(), tagpos, ix, i), goal)
        invariant lines == Render(md5, tiles)
        decreases |tagpos| - i
      {
        var halt;
        tiles, lines, halt := WalkStep(tagposInd, tagpos, i, tiles, lines, goal);
        if halt.Some? {
          return tiles, halt, lines;
        }
        i := i + 1;
      }
      assert tiles + [] == tiles;
      stop := None;
    }

    /** One turn of the main loop at sorted index i, from the tiles and
        lines written so far: either it goes on, or it panics and the run
        ends as the goal says. */
    method WalkStep(tagposInd: map<string, int>, tagpos: seq<string>, i: nat,
                    tiles: seq<Tile>, lines: seq<string>, ghost goal: Run)
      returns (tiles': seq<Tile>, lines': seq<string>, halt: Option<Fault>)
      requires i < |tagpos|
      requires Continues(tiles, Tiling(Src(), tagpos, Found(tagposInd, tagpos), i), goal)
      requires lines == Render(md5, tiles)
      ensures lines' == Render(md5, tiles')
      ensures halt.None? ==> Continues(tiles', Tiling(Src(), tagpos, Found(tagposInd, tagpos), i + 1), goal)
      ensures halt.Some? ==> goal == Run(tiles', halt)
    {
      ghost var ix := Found(tagposInd, tagpos);
      TilingNext(Src(), tagpos, ix, i);
      var next := NextTile(tagposInd, tagpos, i);
      match next {
        case None =>
          return tiles, lines, None;
        case Some(Err(f)) =>
          assert tiles + [] == tiles;
          return tiles, lines, Some(f);
        case Some(Ok(t)) =>
          var out := TileText(t);
          RenderSnoc(md5, tiles, t);
          ContinuesSnoc(tiles, t, Tiling(Src(), tagpos, ix, i + 1), goal);
          return tiles + [t], lines + out, None;
      }
    }

    /** One turn of gen_tiling's main loop at sorted index i: nothing when
        the position's tag is not found or no later one is, otherwise the
        tile or the panic of cutting it. */
    method NextTile(tagposInd: map<string, int>, tagpos: seq<string>, i: nat) returns (r: Option<Result<Tile, Fault>>)
      requires i < |tagpos|
      ensures var ix := Found(tagposInd, tagpos);
        r == if Emits(ix, i) then Some(TileAt(Src(), tagpos, ix, i)) else None
    {
      if Ind(tagposInd, tagpos[i]) < 0 {
        return None;
      }
      var n := ScanGap(tagposInd, tagpos, i);
      if i + n == |tagpos| {
        return None;
      }
      var t := CutTile(tagpos[i], Ind(tagposInd, tagpos[i]), Ind(tagposInd, tagpos[i + n]) + TAG_LEN, n);
      return Some(t);
    }

    /** The inner scan of gen_tiling: how far on the next found position
        is. */
    static method ScanGap(tagposInd: map<string, int>, tagpos: seq<string>, i: nat) returns (n: nat)
      requires i < |tagpos|
      ensures n == Gap(Found(tagposInd, tagpos), i, 1)
    {
      ghost var ix := Found(tagposInd, tagpos);
      n := 1;
      while i + n < |tagpos|
        invariant 1 <= n && i + n <= |tagpos|
        invariant Gap(ix, i, n) == Gap(ix, i, 1)
        decreases |tagpos| - i - n
      {
        if Ind(tagposInd, tagpos[i + n]) >= 0 {
          break;
        }
        n := n + 1;
      }
    }

    /** The first loop of gen_tiling: tagpos_ind from g_tagset, visiting the
        positions in `order`. */
    method IndexTags(order: seq<string>) returns (ind: map<string, int>)
      requires Enumerates(order, tagset.Keys)
      ensures ind == IndexMap(gseq, tagset)
    {
      ind := map[];
      for k := 0 to |order|
        invariant ind == map p | p in order[..k] :: Index(gseq, tagset[p])
      {
        assert order[..k + 1] == order[..k] + [order[k]];
        ind := ind[order[k] := Index(gseq, tagset[order[k]])];
      }
      assert order[..|order|] == order;
    }

    /** One tile of gen_tiling's loop (src/tileset2fj.go:155-171): the
        slice, the tile id and the header fields. */
    method CutTile(p: string, sp: int, ep: int, n: int) returns (r: Result<Tile, Fault>)
      ensures r == MakeTile(Src(), p, sp, ep, n)
    {
      if !(0 <= sp <= ep <= |gseq|) {
        return Err(SliceOutOfRange(sp, ep));
      }
      var s := gseq[sp..ep];
      var tagposParts := Split(p, '.');
      if |tagposParts| < 2 {
        return Err(MissingPartition(p));
      }
      var tileId := TileIdOf(tagposParts[0], tagposParts[1]);
      var start := sp + seqStart;
      var end := ep + seqStart - 1;
      if |s| < TAG_LEN {
        return Err(TileTooShort(|s|));
      }
      return Ok(Tile(tileId, buildPrefix, start, end, |s|, n, s[..TAG_LEN], s[|s| - TAG_LEN..], s));
    }

    /** The text gen_tiling writes for a tile: the header with the digest
        of the bases, print_fold of the bases, and an empty line. */
    method TileText(t: Tile) returns (out: seq<string>)
      ensures out == TileLines(md5, t)
    {
      var m5 := Md5SumStr(md5, t.bases);
      var header := HeaderText(t, m5);
      var body := PrintFoldLines(t.bases, FOLD_WIDTH);
      out := ["> " + header] + body + [""];
    }
  }
}
