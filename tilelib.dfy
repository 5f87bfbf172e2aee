/** The tile library create_tile_graph builds while reading FastJ
    (import_fastj, src/create_tile_graph.go:163-311), as functions over a
    snapshot of its three maps. */
module TileLib {
  import opened Wrappers
  import opened Hex
  import opened Text
  import opened Md5
  import opened TagId
  import opened FastJ

  /** One variant of a tile position. */
  datatype TileInfo = TileInfo(md5Sum: string, pathStep: string, seedLen: Int64, freq: int, rank: int)

  type Tiles = map<string, map<string, TileInfo>>

  /** g_tile_lib (position key -> md5sum -> variant), g_md5sum_seq
      (md5sum -> whole tile sequence) and g_id_tag (tag id -> tag bases). */
  datatype Library = Library(tileLib: Tiles, md5SumSeq: map<string, string>, idTag: map<string, string>)

  /** The prev_* variables carried across headers; all zero before the
      first one. */
  datatype Prev = Prev(md5sum: string, tilePath: string, seedLen: Int64, path: Int64, step: Int64)

  const NoPrev: Prev := Prev("", "", 0, 0, 0)

  const EmptyLibrary: Library := Library(map[], map[], map[])

  /** `if _, ok := m[k]; !ok { m[k] = v }`. */
  function PutIfAbsent<K, V>(m: map<K, V>, k: K, v: V): (r: map<K, V>)
    ensures k in r && r.Keys == m.Keys + {k}
    ensures r[k] == (if k in m then m[k] else v)
    ensures forall j :: j in m ==> r[j] == m[j]
  {
    if k in m then m else m[k := v]
  }

  /** A position key "path.step" whose two hex tokens parse. */
  predicate PositionKey(ps: string)
  {
    var parts := Split(ps, '.');
    |parts| == 2 && ParseInt(parts[0], 16).Some? && ParseInt(parts[1], 16).Some?
  }

  /** Insert a new variant with frequency 1 and rank -1, or count one more
      sighting of a known one (src/create_tile_graph.go:235-245). */
  function AddTile(tiles: Tiles, ps: string, m: string, seedLen: Int64): (r: Tiles)
    ensures r.Keys == tiles.Keys + {ps}
    ensures forall p :: p in tiles && p != ps ==> r[p] == tiles[p]
    ensures r[ps].Keys == (if ps in tiles then tiles[ps].Keys else {}) + {m}
    ensures r[ps][m] == if ps in tiles && m in tiles[ps]
                        then tiles[ps][m].(freq := tiles[ps][m].freq + 1)
                        else TileInfo(m, ps, seedLen, 1, -1)
    ensures forall p, k :: p in tiles && k in tiles[p] && (p != ps || k != m) ==> p in r && k in r[p] && r[p][k] == tiles[p][k]
  {
    var group := if ps in tiles then tiles[ps] else map[];
    var z := if m in group then group[m].(freq := group[m].freq + 1) else TileInfo(m, ps, seedLen, 1, -1);
    tiles[ps := group[m := z]]
  }

  /** AddTile as the read-modify-write of one position's map. */
  lemma AddTileUnfold(tiles: Tiles, ps: string, m: string, seedLen: Int64, group: map<string, TileInfo>)
    requires var old_ := if ps in tiles then tiles[ps] else map[];
      group == if m in old_ then old_[m := old_[m].(freq := old_[m].freq + 1)] else old_[m := TileInfo(m, ps, seedLen, 1, -1)]
    ensures AddTile(tiles, ps, m, seedLen) == tiles[ps := group]
  {
  }

  /** The anchor ids import_fastj computes for the previous tile: the
      leading one under the tile's own position key, the trailing one under
      "%03x.%04x" of (path, step+seedlen) (src/create_tile_graph.go:222-229). */
  function PfxId(md5: Md5Fn, prev: Prev, tileSeq: string): string
    requires |tileSeq| >= TAG_LEN
  {
    TagIdOf(md5, prev.tilePath, tileSeq[..TAG_LEN])
  }

  function SfxId(md5: Md5Fn, prev: Prev, tileSeq: string): string
    requires |tileSeq| >= TAG_LEN
  {
    TagIdOf(md5, TrailingContext(prev.path, prev.step, prev.seedLen), tileSeq[|tileSeq| - TAG_LEN..])
  }

  /** Record a checked tile: its sequence, both tag ids and the variant,
      each only if new. */
  function Commit(md5: Md5Fn, lib: Library, prev: Prev, tileSeq: string): (r: Library)
    requires |tileSeq| >= TAG_LEN
    ensures r.tileLib == AddTile(lib.tileLib, prev.tilePath, prev.md5sum, prev.seedLen)
    ensures r.md5SumSeq.Keys == lib.md5SumSeq.Keys + {prev.md5sum}
    ensures forall m :: m in r.md5SumSeq ==>
              r.md5SumSeq[m] == if m in lib.md5SumSeq then lib.md5SumSeq[m] else tileSeq
    ensures r.idTag.Keys == lib.idTag.Keys + {PfxId(md5, prev, tileSeq), SfxId(md5, prev, tileSeq)}
    ensures forall id :: id in r.idTag ==>
              if id in lib.idTag then r.idTag[id] == lib.idTag[id] else |r.idTag[id]| == TAG_LEN
  {
    var pfxTag := tileSeq[..TAG_LEN];
    var sfxTag := tileSeq[|tileSeq| - TAG_LEN..];
    var tags := PutIfAbsent(PutIfAbsent(lib.idTag, PfxId(md5, prev, tileSeq), pfxTag), SfxId(md5, prev, tileSeq), sfxTag);
    Library(AddTile(lib.tileLib, prev.tilePath, prev.md5sum, prev.seedLen),
            PutIfAbsent(lib.md5SumSeq, prev.md5sum, tileSeq), tags)
  }

  /** The work done for one tile once its bases are complete
      (src/create_tile_graph.go:207-246 and 267-305): slice the two tags
      (a panic below 24 bases), check the declared md5sum, then record the
      sequence, both tag ids and the variant. */
  function Flush(md5: Md5Fn, lib: Library, prev: Prev, curseq: seq<string>): (r: Result<Library, Fault>)
    ensures r.Err? <==> |Concat(curseq)| < TAG_LEN || Md5Sum(md5, Concat(curseq)) != prev.md5sum
    ensures r.Ok? ==> r.value == Commit(md5, lib, prev, Concat(curseq))
  {
    var tileSeq := Concat(curseq);
    if |tileSeq| < TAG_LEN then Err(TileTooShort(|tileSeq|))
    else
      var h := Md5Sum(md5, tileSeq);
      if h != prev.md5sum then Err(HashMismatch(prev.md5sum, h))
      else Ok(Commit(md5, lib, prev, tileSeq))
  }

  lemma CommitIs(md5: Md5Fn, lib: Library, prev: Prev, tileSeq: string, pfxId: string, sfxId: string, lib': Library)
    requires |tileSeq| >= TAG_LEN
    requires pfxId == TagIdOf(md5, prev.tilePath, tileSeq[..TAG_LEN])
    requires sfxId == TagIdOf(md5, TrailingContext(prev.path, prev.step, prev.seedLen), tileSeq[|tileSeq| - TAG_LEN..])
    requires lib'.tileLib == AddTile(lib.tileLib, prev.tilePath, prev.md5sum, prev.seedLen)
    requires lib'.md5SumSeq == PutIfAbsent(lib.md5SumSeq, prev.md5sum, tileSeq)
    requires lib'.idTag == PutIfAbsent(PutIfAbsent(lib.idTag, pfxId, tileSeq[..TAG_LEN]),
                                       sfxId, tileSeq[|tileSeq| - TAG_LEN..])
    ensures Commit(md5, lib, prev, tileSeq) == lib'
  {
    assert pfxId == PfxId(md5, prev, tileSeq);
    assert sfxId == SfxId(md5, prev, tileSeq);
  }

  /** The prev_* values a header leaves behind. */
  function PrevOf(h: Header, k: TileKey): Prev
  {
    Prev(h.md5sum, TilePath(k), h.seedTileLength, k.path, k.step)
  }

  /** Flush when there are gathered bases, otherwise do nothing. */
  function FlushPending(md5: Md5Fn, lib: Library, prev: Prev, pending: seq<string>): Result<Library, Fault>
  {
    if |pending| > 0 then Flush(md5, lib, prev, pending) else Ok(lib)
  }

  /** import_fastj over the events of one file. */
  function Run(md5: Md5Fn, lib: Library, prev: Prev, evs: seq<Event>): Result<Library, Fault>
    decreases |evs|
  {
    if |evs| == 0 then Ok(lib)
    else
      match evs[0]
      case BadJson => Err(BadHeaderJson)
      case EndOfInput(pending) =>
        (match FlushPending(md5, lib, prev, pending)
         case Err(f) => Err(f)
         case Ok(lib') => Run(md5, lib', prev, evs[1..]))
      case HeaderLine(h, pending) =>
        match ParseTileId(h.tileId)
        case Err(f) => Err(f)
        case Ok(k) =>
          match FlushPending(md5, lib, prev, pending)
          case Err(f) => Err(f)
          case Ok(lib') => Run(md5, lib', PrevOf(h, k), evs[1..])
  }

  /** import_fastj over the lines of one file. */
  function Ingest(md5: Md5Fn, lib: Library, lines: seq<string>, parse: HeaderParser): Result<Library, Fault>
  {
    Run(md5, lib, NoPrev, Scan(lines, parse))
  }

  // ---------------------------------------------------------------------
  // The library invariant

  /** Every variant is filed under its own md5sum and position key, has been
      seen at least once and has its sequence recorded; every recorded
      sequence has at least 24 bases and hashes to its key; every tag is 24
      bases; every position key parses. */
  predicate LibValid(md5: Md5Fn, lib: Library)
  {
    && TilesValid(lib.tileLib, lib.md5SumSeq.Keys)
    && SeqsValid(md5, lib.md5SumSeq)
    && (forall id :: id in lib.idTag ==> |lib.idTag[id]| == TAG_LEN)
  }

  predicate TilesValid(tiles: Tiles, known: set<string>)
  {
    && (forall ps :: ps in tiles ==> PositionKey(ps))
    && (forall ps, m {:trigger tiles[ps][m]} :: ps in tiles && m in tiles[ps] ==>
          && tiles[ps][m].md5Sum == m && tiles[ps][m].pathStep == ps
          && tiles[ps][m].freq >= 1 && m in known)
  }

  predicate SeqsValid(md5: Md5Fn, seqs: map<string, string>)
  {
    forall m :: m in seqs ==> |seqs[m]| >= TAG_LEN && Md5Sum(md5, seqs[m]) == m
  }

  /** A prev that could pass the hash check was left by a parsed header. */
  predicate PrevValid(prev: Prev)
  {
    |prev.md5sum| == 32 ==> PositionKey(prev.tilePath)
  }

  // ---------------------------------------------------------------------
  // Lemmas

  /** Bases before the first header are always fatal: no md5sum text is
      empty. */
  lemma FlushWithoutHeaderFails(md5: Md5Fn, lib: Library, curseq: seq<string>)
    ensures Flush(md5, lib, NoPrev, curseq).Err?
  {
  }

  /** A header's position key parses, so the prev it leaves is valid. */
  lemma PrevOfValid(h: Header)
    requires ParseTileId(h.tileId).Ok?
    ensures PrevValid(PrevOf(h, ParseTileId(h.tileId).value))
  {
    TilePathReparse(h.tileId);
  }

  /** A successful flush keeps the library invariant. */
  lemma FlushKeepsValid(md5: Md5Fn, lib: Library, prev: Prev, curseq: seq<string>)
    requires LibValid(md5, lib) && PrevValid(prev)
    requires Flush(md5, lib, prev, curseq).Ok?
    ensures LibValid(md5, Flush(md5, lib, prev, curseq).value)
  {
    var lib' := Flush(md5, lib, prev, curseq).value;
    FlushValidParts(md5, lib, prev, curseq, lib');
  }

  lemma FlushValidParts(md5: Md5Fn, lib: Library, prev: Prev, curseq: seq<string>, lib': Library)
    requires LibValid(md5, lib) && PrevValid(prev)
    requires Flush(md5, lib, prev, curseq) == Ok(lib')
    ensures LibValid(md5, lib')
  {
    var tileSeq := Concat(curseq);
    assert |tileSeq| >= TAG_LEN && Md5Sum(md5, tileSeq) == prev.md5sum;
    AddTileValid(lib.tileLib, lib.md5SumSeq.Keys, lib'.md5SumSeq.Keys, prev.tilePath, prev.md5sum, prev.seedLen);
    assert SeqsValid(md5, lib'.md5SumSeq);
  }

  lemma AddTileValid(tiles: Tiles, known: set<string>, known': set<string>, ps: string, m: string, seedLen: Int64)
    requires TilesValid(tiles, known) && PositionKey(ps)
    requires known <= known' && m in known'
    ensures TilesValid(AddTile(tiles, ps, m, seedLen), known')
  {
    AddTileKeys(tiles, ps, m, seedLen);
    AddTileVariants(tiles, known, known', ps, m, seedLen);
  }

  lemma AddTileKeys(tiles: Tiles, ps: string, m: string, seedLen: Int64)
    requires forall p :: p in tiles ==> PositionKey(p)
    requires PositionKey(ps)
    ensures forall p :: p in AddTile(tiles, ps, m, seedLen) ==> PositionKey(p)
  {
  }

  lemma AddTileVariants(tiles: Tiles, known: set<string>, known': set<string>, ps: string, m: string, seedLen: Int64)
    requires forall p, k {:trigger tiles[p][k]} :: p in tiles && k in tiles[p] ==>
               && tiles[p][k].md5Sum == k && tiles[p][k].pathStep == p
               && tiles[p][k].freq >= 1 && k in known
    requires known <= known' && m in known'
    ensures var r := AddTile(tiles, ps, m, seedLen);
      forall p, k {:trigger r[p][k]} :: p in r && k in r[p] ==>
        && r[p][k].md5Sum == k && r[p][k].pathStep == p
        && r[p][k].freq >= 1 && k in known'
  {
    var r: Tiles := AddTile(tiles, ps, m, seedLen);
    forall p: string, k: string | p in r && k in r[p]
      ensures r[p][k].md5Sum == k && r[p][k].pathStep == p && r[p][k].freq >= 1 && k in known'
    {
      if p != ps {
        assert r[p] == tiles[p];
      } else if k != m {
        assert k in tiles[p];
      }
    }
  }

  /** One flush never forgets what the library knew. */
  lemma FlushPendingGrows(md5: Md5Fn, lib: Library, prev: Prev, pending: seq<string>)
    requires FlushPending(md5, lib, prev, pending).Ok?
    ensures Grows(lib, FlushPending(md5, lib, prev, pending).value)
  {
  }

  /** Reading a file keeps the library invariant. */
  lemma {:induction false} RunKeepsValid(md5: Md5Fn, lib: Library, prev: Prev, evs: seq<Event>)
    requires LibValid(md5, lib) && PrevValid(prev)
    requires Run(md5, lib, prev, evs).Ok?
    ensures LibValid(md5, Run(md5, lib, prev, evs).value)
    decreases |evs|
  {
    if |evs| > 0 {
      match evs[0]
      case BadJson =>
      case EndOfInput(pending) =>
        if |pending| > 0 { FlushKeepsValid(md5, lib, prev, pending); }
        RunKeepsValid(md5, FlushPending(md5, lib, prev, pending).value, prev, evs[1..]);
      case HeaderLine(h, pending) =>
        if |pending| > 0 { FlushKeepsValid(md5, lib, prev, pending); }
        PrevOfValid(h);
        RunKeepsValid(md5, FlushPending(md5, lib, prev, pending).value, PrevOf(h, ParseTileId(h.tileId).value), evs[1..]);
    }
  }

  lemma IngestKeepsValid(md5: Md5Fn, lib: Library, lines: seq<string>, parse: HeaderParser)
    requires LibValid(md5, lib)
    requires Ingest(md5, lib, lines, parse).Ok?
    ensures LibValid(md5, Ingest(md5, lib, lines, parse).value)
  {
    RunKeepsValid(md5, lib, NoPrev, Scan(lines, parse));
  }

  lemma EmptyLibraryValid(md5: Md5Fn)
    ensures LibValid(md5, EmptyLibrary)
  {
  }

  /** Every variant, sequence and tag id known in `lib` is still known in
      `lib'`, and no frequency has dropped. */
  predicate Grows(lib: Library, lib': Library)
  {
    && lib.md5SumSeq.Keys <= lib'.md5SumSeq.Keys && lib.idTag.Keys <= lib'.idTag.Keys
    && (forall ps, m :: ps in lib.tileLib && m in lib.tileLib[ps] ==>
          ps in lib'.tileLib && m in lib'.tileLib[ps] && lib'.tileLib[ps][m].freq >= lib.tileLib[ps][m].freq)
  }

  lemma GrowsTransitive(a: Library, b: Library, c: Library)
    requires Grows(a, b) && Grows(b, c)
    ensures Grows(a, c)
  {
  }

  /** Reading never forgets: every variant, sequence and tag id known before
      is still known afterwards, and a variant's frequency never drops. */
  lemma {:induction false} RunGrows(md5: Md5Fn, lib: Library, prev: Prev, evs: seq<Event>)
    requires Run(md5, lib, prev, evs).Ok?
    ensures Grows(lib, Run(md5, lib, prev, evs).value)
    decreases |evs|
  {
    if |evs| > 0 {
      match evs[0]
      case BadJson =>
      case EndOfInput(pending) =>
        var lib1 := FlushPending(md5, lib, prev, pending).value;
        FlushPendingGrows(md5, lib, prev, pending);
        RunGrows(md5, lib1, prev, evs[1..]);
        GrowsTransitive(lib, lib1, Run(md5, lib, prev, evs).value);
      case HeaderLine(h, pending) =>
        var lib1 := FlushPending(md5, lib, prev, pending).value;
        FlushPendingGrows(md5, lib, prev, pending);
        RunGrows(md5, lib1, PrevOf(h, ParseTileId(h.tileId).value), evs[1..]);
        GrowsTransitive(lib, lib1, Run(md5, lib, prev, evs).value);
    }
  }
}
