/** create_tile_graph's emitters (src/create_tile_graph.go:318-538) as
    functions over the library: the FASTA records, the Sequence rows with
    g_sequence_id, the GraphJoin rows with g_graphjoin_id_list, and the
    GraphJoin-VariantSet rows.  Each emitter ranges over the library's
    (position key, md5sum) pairs in an order the caller supplies. */
module Emit {
  import opened Wrappers
  import opened Hex
  import opened Text
  import opened Md5
  import opened TagId
  import opened TileLib
  import opened Sorting
  import opened Fold

  /** The width of a FASTA body line. */
  const FOLD: nat := 50

  /** A tile of the library: its position key and its md5sum. */
  type TilePair = (string, string)

  /** Every pair names a tile of the library. */
  predicate InLib(tiles: Tiles, pairs: seq<TilePair>)
  {
    forall k :: 0 <= k < |pairs| ==> pairs[k].0 in tiles && pairs[k].1 in tiles[pairs[k].0]
  }

  /** The pairs the nested ranges over g_tile_lib visit. */
  function TilePairs(tiles: Tiles): set<TilePair>
  {
    set ps, m | ps in tiles && m in tiles[ps] :: (ps, m)
  }

  /** g_md5sum_seq[m]: the empty string when m is absent. */
  function SeqOf(lib: Library, m: string): string
  {
    if m in lib.md5SumSeq then lib.md5SumSeq[m] else ""
  }

  /** tile_seq[24:len(tile_seq)-24]. */
  function Body(tileSeq: string): string
    requires |tileSeq| >= 2 * TAG_LEN
  {
    tileSeq[TAG_LEN..|tileSeq| - TAG_LEN]
  }

  /** A tile of at least 48 bases is its leading tag, its body and its
      trailing tag. */
  lemma TileSplits(tileSeq: string)
    requires |tileSeq| >= 2 * TAG_LEN
    ensures tileSeq[..TAG_LEN] + Body(tileSeq) + tileSeq[|tileSeq| - TAG_LEN..] == tileSeq
  {
    assert tileSeq == tileSeq[..TAG_LEN] + tileSeq[TAG_LEN..];
    assert tileSeq[TAG_LEN..] == Body(tileSeq) + tileSeq[|tileSeq| - TAG_LEN..];
  }

  /** "%s.%s.r%x+%0x" of the body's md5sum, the position key, the rank and
      the seed length. */
  function BodyId(md5: Md5Fn, ps: string, info: TileInfo, tileSeq: string): string
    requires |tileSeq| >= 2 * TAG_LEN
  {
    Md5Sum(md5, Body(tileSeq)) + "." + ps + ".r" + FmtHex(info.rank, 0) + "+" + FmtHex(info.seedLen, 0)
  }

  /** What emit_fasta and emit_graphjoin compute for one tile: the two
      tags, the body and the three ids. */
  datatype Names = Names(pfxTag: string, sfxTag: string, body: string, pfxId: string, sfxId: string, bodyId: string)

  /** The per-tile prologue of emit_fasta and emit_graphjoin
      (src/create_tile_graph.go:323-348, 463-489): look the sequence up,
      slice the two tags (a panic below 24 bases), name the leading anchor
      under the raw position key, parse the key's two hex parts (fatal when
      one does not parse, a panic when there is no second part), name the
      trailing anchor under "%03x.%04x" of (path, step+seedlen), and slice
      the body (a panic below 48 bases). */
  function TileNames(md5: Md5Fn, lib: Library, ps: string, m: string): (r: Result<Names, Fault>)
    requires ps in lib.tileLib && m in lib.tileLib[ps]
    ensures r.Ok? ==> && |r.value.pfxTag| == TAG_LEN && |r.value.sfxTag| == TAG_LEN
                      && r.value.pfxTag + r.value.body + r.value.sfxTag == SeqOf(lib, m)
  {
    var tileSeq := SeqOf(lib, m);
    if |tileSeq| < TAG_LEN then Err(TileTooShort(|tileSeq|))
    else
      var info := lib.tileLib[ps][m];
      var pfxTag := tileSeq[..TAG_LEN];
      var sfxTag := tileSeq[|tileSeq| - TAG_LEN..];
      var pfxId := TagIdOf(md5, ps, pfxTag);
      var parts := Split(ps, '.');
      match ParseInt(parts[0], 16)
      case None => Err(BadHexToken(parts[0]))
      case Some(path) =>
        if |parts| < 2 then Err(MissingPartition(ps))
        else
          match ParseInt(parts[1], 16)
          case None => Err(BadHexToken(parts[1]))
          case Some(step) =>
            var sfxId := TagIdOf(md5, TrailingContext(path, step, info.seedLen), sfxTag);
            if |tileSeq| < 2 * TAG_LEN then Err(TileTooShort(|tileSeq|))
            else
              TileSplits(tileSeq);
              Ok(Names(pfxTag, sfxTag, Body(tileSeq), pfxId, sfxId, BodyId(md5, ps, info, tileSeq)))
  }

  /** The names of every tile, in the order given. */
  function AllNames(md5: Md5Fn, lib: Library, pairs: seq<TilePair>): (rs: seq<Result<Names, Fault>>)
    requires InLib(lib.tileLib, pairs)
    ensures |rs| == |pairs|
  {
    seq(|pairs|, k requires 0 <= k < |pairs| => TileNames(md5, lib, pairs[k].0, pairs[k].1))
  }

  // ---------------------------------------------------------------------
  // emit_fasta

  /** One FASTA record: ">id", its lines, then a blank line. */
  datatype FastaRecord = FastaRecord(id: string, lines: seq<string>)

  /** The `seen` map and the records written so far. */
  datatype FastaState = FastaState(seen: set<string>, records: seq<FastaRecord>)

  /** `if !seen[id] { seen[id] = true; write the record }`. */
  function WriteOnce(st: FastaState, id: string, lines: seq<string>): FastaState
  {
    if id in st.seen then st else FastaState(st.seen + {id}, st.records + [FastaRecord(id, lines)])
  }

  /** The three records of one tile: leading tag, trailing tag, folded
      body, each only the first time its id comes up
      (src/create_tile_graph.go:350-389). */
  function FastaTile(st: FastaState, n: Names): FastaState
  {
    var st1 := WriteOnce(st, n.pfxId, [n.pfxTag]);
    var st2 := WriteOnce(st1, n.sfxId, [n.sfxTag]);
    WriteOnce(st2, n.bodyId, FoldLines(n.body, FOLD))
  }

  /** emit_fasta's loop over the tiles' names: the first fault stops it. */
  function FastaOver(rs: seq<Result<Names, Fault>>): Result<FastaState, Fault>
    decreases |rs|
  {
    if |rs| == 0 then Ok(FastaState({}, []))
    else
      match FastaOver(rs[..|rs| - 1])
      case Err(f) => Err(f)
      case Ok(st) =>
        match rs[|rs| - 1]
        case Err(f) => Err(f)
        case Ok(n) => Ok(FastaTile(st, n))
  }

  /** emit_fasta over the tiles in the order given. */
  function Fasta(md5: Md5Fn, lib: Library, pairs: seq<TilePair>): Result<FastaState, Fault>
    requires InLib(lib.tileLib, pairs)
  {
    FastaOver(AllNames(md5, lib, pairs))
  }

  // ---------------------------------------------------------------------
  // emit_sequences

  /** One Sequence row: "seq_id,fa_id,name,md5,length". */
  datatype SeqRow = SeqRow(seqId: int, fastaId: int, name: string, md5Sum: string, length: int)

  /** seq_id, g_sequence_id and the rows written so far. */
  datatype SeqState = SeqState(next: int, ids: map<string, int>, rows: seq<SeqRow>)

  /** What a visited tag id or tile asks to write: a name, its md5sum and
      its length. */
  datatype Entry = Entry(name: string, md5Sum: string, length: int)

  /** `if _, ok := g_sequence_id[name]; !ok { write; assign; seq_id++ }`. */
  function Assign(st: SeqState, fastaId: int, e: Entry): SeqState
  {
    if e.name in st.ids then st
    else SeqState(st.next + 1, st.ids[e.name := st.next], st.rows + [EntryRow(st.next, fastaId, e)])
  }

  /** The row an entry is written as under a given seq_id. */
  function EntryRow(seqId: int, fastaId: int, e: Entry): SeqRow
  {
    SeqRow(seqId, fastaId, e.name, e.md5Sum, e.length)
  }

  /** A tag id's entry in the tag loop of emit_sequences
      (src/create_tile_graph.go:409-419): the md5sum of its bases, length
      24. */
  function TagEntry(md5: Md5Fn, idTag: map<string, string>, id: string): Entry
    requires id in idTag
  {
    Entry(id, Md5Sum(md5, idTag[id]), TAG_LEN)
  }

  /** The tag ids' entries, in the order given. */
  function TagEntries(md5: Md5Fn, idTag: map<string, string>, tagOrder: seq<string>): (es: seq<Result<Entry, Fault>>)
    requires forall k :: 0 <= k < |tagOrder| ==> tagOrder[k] in idTag
    ensures |es| == |tagOrder|
  {
    seq(|tagOrder|, k requires 0 <= k < |tagOrder| => Ok(TagEntry(md5, idTag, tagOrder[k])))
  }

  /** A tile's entry in the tile loop of emit_sequences
      (src/create_tile_graph.go:421-445): fatal below 48 bases, otherwise
      the body id, the body's md5sum and length len-48. */
  function BodyEntry(md5: Md5Fn, lib: Library, p: TilePair): Result<Entry, Fault>
    requires p.0 in lib.tileLib && p.1 in lib.tileLib[p.0]
  {
    var tileSeq := SeqOf(lib, p.1);
    if |tileSeq| < 2 * TAG_LEN then Err(TileTooShort(|tileSeq|))
    else Ok(TileEntry(md5, p.0, lib.tileLib[p.0][p.1], tileSeq))
  }

  /** The entry of a tile of 48 bases or more. */
  function TileEntry(md5: Md5Fn, ps: string, info: TileInfo, tileSeq: string): Entry
    requires |tileSeq| >= 2 * TAG_LEN
  {
    Entry(BodyId(md5, ps, info, tileSeq), Md5Sum(md5, Body(tileSeq)), |tileSeq| - 2 * TAG_LEN)
  }

  /** The tiles' entries, in the order given. */
  function BodyEntries(md5: Md5Fn, lib: Library, pairs: seq<TilePair>): (es: seq<Result<Entry, Fault>>)
    requires InLib(lib.tileLib, pairs)
    ensures |es| == |pairs|
  {
    seq(|pairs|, k requires 0 <= k < |pairs| => BodyEntry(md5, lib, pairs[k]))
  }

  /** The guarded writes of emit_sequences over the entries in order; the
      first fault stops it. */
  function AssignOver(st: SeqState, fastaId: int, es: seq<Result<Entry, Fault>>): Result<SeqState, Fault>
    decreases |es|
  {
    if |es| == 0 then Ok(st)
    else
      match AssignOver(st, fastaId, es[..|es| - 1])
      case Err(f) => Err(f)
      case Ok(st') =>
        match es[|es| - 1]
        case Err(f) => Err(f)
        case Ok(e) => Ok(Assign(st', fastaId, e))
  }

  /** emit_sequences: g_sequence_id starts empty and seq_id at
      g_START_SEQUENCEID; the tag ids first, then the tiles. */
  function Sequences(md5: Md5Fn, lib: Library, fastaId: int, start: int, tagOrder: seq<string>, pairs: seq<TilePair>): Result<SeqState, Fault>
    requires forall k :: 0 <= k < |tagOrder| ==> tagOrder[k] in lib.idTag
    requires InLib(lib.tileLib, pairs)
  {
    AssignOver(SeqState(start, map[], []), fastaId, TagEntries(md5, lib.idTag, tagOrder) + BodyEntries(md5, lib, pairs))
  }

  // ---------------------------------------------------------------------
  // emit_graphjoin and emit_graphjoin_variantset

  /** One GraphJoin row: "gj_id,seqA,posA,'A-flag',seqB,posB,'B-flag'",
      the flags as booleans. */
  datatype JoinRow = JoinRow(id: int, seqA: int, posA: int, flagA: bool, seqB: int, posB: int, flagB: bool)

  /** gj_id, seen_hash, the keys in the order they were first seen, the
      rows and g_graphjoin_id_list. */
  datatype JoinState = JoinState(next: int, seen: set<string>, keys: seq<string>, rows: seq<JoinRow>, idList: seq<int>)

  /** g_sequence_id[name]: 0 when absent. */
  function SeqIdOf(ids: map<string, int>, name: string): int
  {
    if name in ids then ids[name] else 0
  }

  /** The dedup key "%x:%x" of an anchor's and a body's sequence ids. */
  function JoinKey(anchor: int, body: int): string
  {
    FmtHex(anchor, 0) + ":" + FmtHex(body, 0)
  }

  /** The leading anchor's edge (src/create_tile_graph.go:494-502): its
      layout depends on which id sorts first. */
  function PfxRow(pfxSeq: int, bodySeq: int, pfxId: string, bodyId: string): JoinRow
  {
    if LexLess(pfxId, bodyId) then JoinRow(0, pfxSeq, 23, false, bodySeq, 0, true)
    else JoinRow(0, bodySeq, 0, true, pfxSeq, 23, false)
  }

  /** The trailing anchor's edge (src/create_tile_graph.go:512-520), the
      body's offset being len-49. */
  function SfxRow(sfxSeq: int, bodySeq: int, bodyId: string, sfxId: string, len: int): JoinRow
  {
    if LexLess(bodyId, sfxId) then JoinRow(0, bodySeq, len - 49, false, sfxSeq, 0, true)
    else JoinRow(0, sfxSeq, 0, true, bodySeq, len - 49, false)
  }

  /** An edge is written, numbered and listed only when its key is new. */
  function AddEdge(st: JoinState, key: string, row: JoinRow): JoinState
  {
    if key in st.seen then st
    else JoinState(st.next + 1, st.seen + {key}, st.keys + [key], st.rows + [row.(id := st.next)], st.idList + [st.next])
  }

  /** Both edges of one tile. */
  function JoinTile(st: JoinState, ids: map<string, int>, n: Names): JoinState
  {
    var pfxSeq := SeqIdOf(ids, n.pfxId);
    var sfxSeq := SeqIdOf(ids, n.sfxId);
    var bodySeq := SeqIdOf(ids, n.bodyId);
    var len := |n.pfxTag| + |n.body| + |n.sfxTag|;
    var st1 := AddEdge(st, JoinKey(pfxSeq, bodySeq), PfxRow(pfxSeq, bodySeq, n.pfxId, n.bodyId));
    AddEdge(st1, JoinKey(sfxSeq, bodySeq), SfxRow(sfxSeq, bodySeq, n.bodyId, n.sfxId, len))
  }

  /** emit_graphjoin's loop over the tiles' names: gj_id starts at
      g_START_GRAPHJOINID and the id list empty; the first fault stops it. */
  function JoinsOver(ids: map<string, int>, start: int, rs: seq<Result<Names, Fault>>): Result<JoinState, Fault>
    decreases |rs|
  {
    if |rs| == 0 then Ok(JoinState(start, {}, [], [], []))
    else
      match JoinsOver(ids, start, rs[..|rs| - 1])
      case Err(f) => Err(f)
      case Ok(st) =>
        match rs[|rs| - 1]
        case Err(f) => Err(f)
        case Ok(n) => Ok(JoinTile(st, ids, n))
  }

  /** emit_graphjoin over the tiles in the order given. */
  function Joins(md5: Md5Fn, lib: Library, ids: map<string, int>, start: int, pairs: seq<TilePair>): Result<JoinState, Fault>
    requires InLib(lib.tileLib, pairs)
  {
    JoinsOver(ids, start, AllNames(md5, lib, pairs))
  }

  /** emit_graphjoin_variantset: one (join id, variant set id) row per
      listed id. */
  function VariantSetRows(idList: seq<int>, variantSetId: int): seq<(int, int)>
  {
    seq(|idList|, i requires 0 <= i < |idList| => (idList[i], variantSetId))
  }

  // ---------------------------------------------------------------------
  // What the outputs are made of

  /** The ids a tile's names contribute to the FASTA file. */
  function ResultIds(r: Result<Names, Fault>): set<string>
  {
    if r.Ok? then {r.value.pfxId, r.value.sfxId, r.value.bodyId} else {}
  }

  /** The two edge keys a tile's names contribute to the GraphJoin rows. */
  function ResultKeys(ids: map<string, int>, r: Result<Names, Fault>): set<string>
  {
    if r.Ok? then
      var bodySeq := SeqIdOf(ids, r.value.bodyId);
      {JoinKey(SeqIdOf(ids, r.value.pfxId), bodySeq), JoinKey(SeqIdOf(ids, r.value.sfxId), bodySeq)}
    else {}
  }

  /** The name a Sequence entry asks for. */
  function EntryNames(r: Result<Entry, Fault>): set<string>
  {
    if r.Ok? then {r.value.name} else {}
  }

  /** The body ids of the library's tiles of at least 48 bases. */
  function BodyIds(md5: Md5Fn, lib: Library): set<string>
  {
    set p | p in TilePairs(lib.tileLib) && p.0 in lib.tileLib && p.1 in lib.tileLib[p.0] && |SeqOf(lib, p.1)| >= 2 * TAG_LEN
      :: BodyId(md5, p.0, lib.tileLib[p.0][p.1], SeqOf(lib, p.1))
  }

  // ---------------------------------------------------------------------
  // Lemmas: when the emitters stop

  /** A fault in a prefix is the fault of the whole loop. */
  lemma {:induction false} FastaErrSticks(rs: seq<Result<Names, Fault>>, i: nat, f: Fault)
    requires i <= |rs| && FastaOver(rs[..i]) == Err(f)
    ensures FastaOver(rs) == Err(f)
    decreases |rs| - i
  {
    if i < |rs| {
      assert rs[..i + 1][..i] == rs[..i];
      FastaErrSticks(rs, i + 1, f);
    } else {
      assert rs[..i] == rs;
    }
  }

  lemma {:induction false} JoinsErrSticks(ids: map<string, int>, start: int, rs: seq<Result<Names, Fault>>, i: nat, f: Fault)
    requires i <= |rs| && JoinsOver(ids, start, rs[..i]) == Err(f)
    ensures JoinsOver(ids, start, rs) == Err(f)
    decreases |rs| - i
  {
    if i < |rs| {
      assert rs[..i + 1][..i] == rs[..i];
      JoinsErrSticks(ids, start, rs, i + 1, f);
    } else {
      assert rs[..i] == rs;
    }
  }

  lemma {:induction false} AssignErrSticks(st: SeqState, fastaId: int, es: seq<Result<Entry, Fault>>, i: nat, f: Fault)
    requires i <= |es| && AssignOver(st, fastaId, es[..i]) == Err(f)
    ensures AssignOver(st, fastaId, es) == Err(f)
    decreases |es| - i
  {
    if i < |es| {
      assert es[..i + 1][..i] == es[..i];
      AssignErrSticks(st, fastaId, es, i + 1, f);
    } else {
      assert es[..i] == es;
    }
  }

  /** emit_fasta gets through exactly when every tile's names can be
      computed, and then stops at the first tile whose names cannot. */
  lemma {:induction false} FastaOkIff(rs: seq<Result<Names, Fault>>)
    ensures FastaOver(rs).Ok? <==> forall k :: 0 <= k < |rs| ==> rs[k].Ok?
    ensures FastaOver(rs).Err? ==> exists k :: 0 <= k < |rs| && rs[k] == Err(FastaOver(rs).error)
    decreases |rs|
  {
    if |rs| > 0 {
      var init := rs[..|rs| - 1];
      FastaOkIff(init);
      assert forall k :: 0 <= k < |init| ==> init[k] == rs[k];
    }
  }

  /** emit_graphjoin likewise. */
  lemma {:induction false} JoinsOkIff(ids: map<string, int>, start: int, rs: seq<Result<Names, Fault>>)
    ensures JoinsOver(ids, start, rs).Ok? <==> forall k :: 0 <= k < |rs| ==> rs[k].Ok?
    ensures JoinsOver(ids, start, rs).Err? ==> exists k :: 0 <= k < |rs| && rs[k] == Err(JoinsOver(ids, start, rs).error)
    decreases |rs|
  {
    if |rs| > 0 {
      var init := rs[..|rs| - 1];
      JoinsOkIff(ids, start, init);
      assert forall k :: 0 <= k < |init| ==> init[k] == rs[k];
    }
  }

  /** emit_sequences likewise, over its entries. */
  lemma {:induction false} AssignOkIff(st: SeqState, fastaId: int, es: seq<Result<Entry, Fault>>)
    ensures AssignOver(st, fastaId, es).Ok? <==> forall k :: 0 <= k < |es| ==> es[k].Ok?
    ensures AssignOver(st, fastaId, es).Err? ==> exists k :: 0 <= k < |es| && es[k] == Err(AssignOver(st, fastaId, es).error)
    decreases |es|
  {
    if |es| > 0 {
      var init := es[..|es| - 1];
      AssignOkIff(st, fastaId, init);
      assert forall k :: 0 <= k < |init| ==> init[k] == es[k];
    }
  }

  /** Every tile of the enumeration has at least 48 bases. */
  predicate LongTiles(lib: Library, pairs: seq<TilePair>)
  {
    forall k :: 0 <= k < |pairs| ==> |SeqOf(lib, pairs[k].1)| >= 2 * TAG_LEN
  }

  /** Every entry can be written. */
  predicate AllOk(es: seq<Result<Entry, Fault>>)
  {
    forall k :: 0 <= k < |es| ==> es[k].Ok?
  }

  /** Some entry is the fault f. */
  predicate HasErr(es: seq<Result<Entry, Fault>>, f: Fault)
  {
    exists k :: 0 <= k < |es| && es[k] == Err(f)
  }

  lemma EntriesAppend(a: seq<Result<Entry, Fault>>, b: seq<Result<Entry, Fault>>)
    ensures AllOk(a + b) <==> AllOk(a) && AllOk(b)
    ensures forall f :: HasErr(a + b, f) ==> HasErr(a, f) || HasErr(b, f)
  {
    if AllOk(a) && AllOk(b) {
      forall k | 0 <= k < |a + b| ensures (a + b)[k].Ok? {
        if k >= |a| { assert (a + b)[k] == b[k - |a|]; }
      }
    }
    if AllOk(a + b) {
      forall k | 0 <= k < |a| ensures a[k].Ok? {
        assert (a + b)[k] == a[k];
      }
      forall k | 0 <= k < |b| ensures b[k].Ok? {
        assert (a + b)[|a| + k] == b[k];
      }
    }
    forall f | HasErr(a + b, f) ensures HasErr(a, f) || HasErr(b, f) {
      var k :| 0 <= k < |a + b| && (a + b)[k] == Err(f);
      if k >= |a| { assert b[k - |a|] == Err(f); }
    }
  }

  /** The tiles' entries can all be written exactly when every tile has at
      least 48 bases; a fault among them is a short tile's length. */
  lemma BodyEntriesOk(md5: Md5Fn, lib: Library, pairs: seq<TilePair>)
    requires InLib(lib.tileLib, pairs)
    ensures AllOk(BodyEntries(md5, lib, pairs)) <==> LongTiles(lib, pairs)
    ensures forall f :: HasErr(BodyEntries(md5, lib, pairs), f) ==>
      exists k :: 0 <= k < |pairs| && |SeqOf(lib, pairs[k].1)| < 2 * TAG_LEN && f == TileTooShort(|SeqOf(lib, pairs[k].1)|)
  {
    var bodies := BodyEntries(md5, lib, pairs);
    if !LongTiles(lib, pairs) {
      var k :| 0 <= k < |pairs| && |SeqOf(lib, pairs[k].1)| < 2 * TAG_LEN;
      assert bodies[k].Err?;
    }
    forall f | HasErr(bodies, f)
      ensures exists k :: 0 <= k < |pairs| && |SeqOf(lib, pairs[k].1)| < 2 * TAG_LEN && f == TileTooShort(|SeqOf(lib, pairs[k].1)|)
    {
      var k :| 0 <= k < |pairs| && bodies[k] == Err(f);
      assert BodyEntry(md5, lib, pairs[k]) == Err(f);
    }
  }

  /** emit_sequences gets through exactly when every tile has at least 48
      bases, and otherwise stops with a short tile's length. */
  lemma SequencesOkIff(md5: Md5Fn, lib: Library, fastaId: int, start: int, tagOrder: seq<string>, pairs: seq<TilePair>)
    requires forall k :: 0 <= k < |tagOrder| ==> tagOrder[k] in lib.idTag
    requires InLib(lib.tileLib, pairs)
    ensures Sequences(md5, lib, fastaId, start, tagOrder, pairs).Ok? <==> LongTiles(lib, pairs)
    ensures Sequences(md5, lib, fastaId, start, tagOrder, pairs).Err? ==>
      exists k :: 0 <= k < |pairs| && |SeqOf(lib, pairs[k].1)| < 2 * TAG_LEN
        && Sequences(md5, lib, fastaId, start, tagOrder, pairs).error == TileTooShort(|SeqOf(lib, pairs[k].1)|)
  {
    var tags := TagEntries(md5, lib.idTag, tagOrder);
    var bodies := BodyEntries(md5, lib, pairs);
    AssignOkIff(SeqState(start, map[], []), fastaId, tags + bodies);
    EntriesAppend(tags, bodies);
    BodyEntriesOk(md5, lib, pairs);
    assert AllOk(tags);
    if Sequences(md5, lib, fastaId, start, tagOrder, pairs).Err? {
      var f := Sequences(md5, lib, fastaId, start, tagOrder, pairs).error;
      assert HasErr(tags + bodies, f);
    }
  }

  /** In a valid library the position keys parse and every variant's
      sequence is recorded with at least 24 bases, so the only fault left is
      a tile shorter than 48 bases. */
  lemma TileNamesValid(md5: Md5Fn, lib: Library, ps: string, m: string)
    requires LibValid(md5, lib) && ps in lib.tileLib && m in lib.tileLib[ps]
    ensures m in lib.md5SumSeq
    ensures TileNames(md5, lib, ps, m).Err? <==> |lib.md5SumSeq[m]| < 2 * TAG_LEN
    ensures TileNames(md5, lib, ps, m).Err? ==> TileNames(md5, lib, ps, m).error == TileTooShort(|lib.md5SumSeq[m]|)
  {
    assert PositionKey(ps);
  }

  /** So on a valid library emit_fasta and emit_graphjoin fail exactly when
      some tile is shorter than 48 bases, and with that tile's length. */
  lemma AllNamesValid(md5: Md5Fn, lib: Library, pairs: seq<TilePair>)
    requires LibValid(md5, lib) && InLib(lib.tileLib, pairs)
    ensures forall k :: 0 <= k < |pairs| ==>
      var rs := AllNames(md5, lib, pairs);
      && pairs[k].1 in lib.md5SumSeq
      && (rs[k].Ok? <==> |lib.md5SumSeq[pairs[k].1]| >= 2 * TAG_LEN)
      && (rs[k].Err? ==> rs[k].error == TileTooShort(|lib.md5SumSeq[pairs[k].1]|))
  {
    forall k | 0 <= k < |pairs| {
      TileNamesValid(md5, lib, pairs[k].0, pairs[k].1);
    }
  }

  // ---------------------------------------------------------------------
  // Lemmas: emit_fasta

  /** The records so far carry distinct ids, all in `seen`, and `seen` has
      no more elements than there are records, so it holds exactly their
      ids; every record has at least one line, none longer than 50. */
  predicate FastaWellFormed(st: FastaState)
  {
    && (forall i, j :: 0 <= i < j < |st.records| ==> st.records[i].id != st.records[j].id)
    && (forall i :: 0 <= i < |st.records| ==> st.records[i].id in st.seen)
    && |st.seen| == |st.records|
    && (forall i :: 0 <= i < |st.records| ==> LinesFit(st.records[i].lines))
  }

  predicate LinesFit(lines: seq<string>)
  {
    |lines| >= 1 && forall j :: 0 <= j < |lines| ==> |lines[j]| <= FOLD
  }

  lemma WriteOnceKeeps(st: FastaState, id: string, lines: seq<string>)
    requires FastaWellFormed(st) && LinesFit(lines)
    ensures FastaWellFormed(WriteOnce(st, id, lines))
    ensures WriteOnce(st, id, lines).seen == st.seen + {id}
    ensures |st.records| <= |WriteOnce(st, id, lines).records|
    ensures WriteOnce(st, id, lines).records[..|st.records|] == st.records
  {
    if id !in st.seen {
      var st' := WriteOnce(st, id, lines);
      assert st'.records[|st.records|].id == id;
    }
  }

  lemma FastaTileKeeps(st: FastaState, n: Names)
    requires FastaWellFormed(st) && |n.pfxTag| == TAG_LEN && |n.sfxTag| == TAG_LEN
    ensures FastaWellFormed(FastaTile(st, n))
    ensures FastaTile(st, n).seen == st.seen + {n.pfxId, n.sfxId, n.bodyId}
    ensures FastaTile(st, n).records[..|st.records|] == st.records
  {
    var st1 := WriteOnce(st, n.pfxId, [n.pfxTag]);
    var st2 := WriteOnce(st1, n.sfxId, [n.sfxTag]);
    var st3 := WriteOnce(st2, n.bodyId, FoldLines(n.body, FOLD));
    WriteOnceKeeps(st, n.pfxId, [n.pfxTag]);
    WriteOnceKeeps(st1, n.sfxId, [n.sfxTag]);
    FoldLinesFacts(n.body, FOLD);
    WriteOnceKeeps(st2, n.bodyId, FoldLines(n.body, FOLD));
    assert st3.seen == st.seen + {n.pfxId, n.sfxId, n.bodyId};
    RecordsPrefix(st.records, st1.records, st2.records, st3.records);
  }

  /** Three extensions in a row extend the first sequence. */
  lemma RecordsPrefix(a: seq<FastaRecord>, b: seq<FastaRecord>, c: seq<FastaRecord>, d: seq<FastaRecord>)
    requires |a| <= |b| && b[..|a|] == a
    requires |b| <= |c| && c[..|b|] == b
    requires |c| <= |d| && d[..|c|] == c
    ensures |a| <= |d| && d[..|a|] == a
  {
    assert d[..|a|] == d[..|c|][..|b|][..|a|];
  }

  /** Names that came out of TileNames have 24-base tags. */
  predicate TagsFit(rs: seq<Result<Names, Fault>>)
  {
    forall k :: 0 <= k < |rs| && rs[k].Ok? ==> |rs[k].value.pfxTag| == TAG_LEN && |rs[k].value.sfxTag| == TAG_LEN
  }

  lemma AllNamesTagsFit(md5: Md5Fn, lib: Library, pairs: seq<TilePair>)
    requires InLib(lib.tileLib, pairs)
    ensures TagsFit(AllNames(md5, lib, pairs))
  {
  }

  /** Each id is written at most once, and the ids written are exactly the
      ids of the tiles visited: the leading anchor, the trailing anchor and
      the body of each. */
  lemma {:induction false} FastaFacts(rs: seq<Result<Names, Fault>>)
    requires TagsFit(rs) && FastaOver(rs).Ok?
    ensures FastaWellFormed(FastaOver(rs).value)
    ensures forall id :: id in FastaOver(rs).value.seen <==> exists k :: 0 <= k < |rs| && id in ResultIds(rs[k])
    decreases |rs|
  {
    if |rs| > 0 {
      var init := rs[..|rs| - 1];
      assert forall k :: 0 <= k < |init| ==> init[k] == rs[k];
      FastaFacts(init);
      var st := FastaOver(init).value;
      var n := rs[|rs| - 1].value;
      FastaTileKeeps(st, n);
      FastaSeenStep(rs, st.seen, FastaOver(rs).value.seen);
    }
  }

  /** The step of the id-set argument, apart from the fold itself. */
  lemma FastaSeenStep(rs: seq<Result<Names, Fault>>, seen: set<string>, seen': set<string>)
    requires |rs| > 0 && rs[|rs| - 1].Ok?
    requires forall id :: id in seen <==> exists k :: 0 <= k < |rs| - 1 && id in ResultIds(rs[k])
    requires seen' == seen + ResultIds(rs[|rs| - 1])
    ensures forall id :: id in seen' <==> exists k :: 0 <= k < |rs| && id in ResultIds(rs[k])
  {
    forall id ensures id in seen' <==> exists k :: 0 <= k < |rs| && id in ResultIds(rs[k]) {
      if id in seen' && id !in seen {
        assert id in ResultIds(rs[|rs| - 1]);
      }
    }
  }

  /** An enumeration of the library's pairs names tiles of the library. */
  lemma EnumeratesInLib(tiles: Tiles, pairs: seq<TilePair>)
    requires Enumerates(pairs, TilePairs(tiles))
    ensures InLib(tiles, pairs)
  {
    forall k | 0 <= k < |pairs| ensures pairs[k].0 in tiles && pairs[k].1 in tiles[pairs[k].0] {
      assert pairs[k] in TilePairs(tiles);
    }
  }

  /** Under two enumerations of the same tiles, every tile's names under the
      one occur under the other. */
  lemma NamesCorrespond(md5: Md5Fn, lib: Library, p1: seq<TilePair>, p2: seq<TilePair>, k1: int) returns (k2: int)
    requires Enumerates(p1, TilePairs(lib.tileLib)) && Enumerates(p2, TilePairs(lib.tileLib))
    requires InLib(lib.tileLib, p1) && InLib(lib.tileLib, p2) && 0 <= k1 < |p1|
    ensures 0 <= k2 < |p2| && p2[k2] == p1[k1]
    ensures AllNames(md5, lib, p2)[k2] == AllNames(md5, lib, p1)[k1]
  {
    assert p1[k1] in TilePairs(lib.tileLib);
    k2 :| 0 <= k2 < |p2| && p2[k2] == p1[k1];
  }

  /** Whatever order the map hands the tiles over in, emit_fasta fails or
      gets through alike, and when it gets through it writes the same set of
      ids and so the same number of records. */
  lemma FastaOrderIndependent(md5: Md5Fn, lib: Library, p1: seq<TilePair>, p2: seq<TilePair>)
    requires Enumerates(p1, TilePairs(lib.tileLib)) && Enumerates(p2, TilePairs(lib.tileLib))
    ensures InLib(lib.tileLib, p1) && InLib(lib.tileLib, p2)
    ensures Fasta(md5, lib, p1).Ok? <==> Fasta(md5, lib, p2).Ok?
    ensures Fasta(md5, lib, p1).Ok? ==>
      && Fasta(md5, lib, p1).value.seen == Fasta(md5, lib, p2).value.seen
      && |Fasta(md5, lib, p1).value.records| == |Fasta(md5, lib, p2).value.records|
  {
    EnumeratesInLib(lib.tileLib, p1);
    EnumeratesInLib(lib.tileLib, p2);
    FastaOrderOneWay(md5, lib, p1, p2);
    FastaOrderOneWay(md5, lib, p2, p1);
  }

  lemma FastaOrderOneWay(md5: Md5Fn, lib: Library, p1: seq<TilePair>, p2: seq<TilePair>)
    requires Enumerates(p1, TilePairs(lib.tileLib)) && Enumerates(p2, TilePairs(lib.tileLib))
    requires InLib(lib.tileLib, p1) && InLib(lib.tileLib, p2)
    ensures Fasta(md5, lib, p2).Ok? ==> Fasta(md5, lib, p1).Ok?
    ensures Fasta(md5, lib, p1).Ok? ==>
      |Fasta(md5, lib, p1).value.records| == |Fasta(md5, lib, p1).value.seen|
    ensures Fasta(md5, lib, p1).Ok? && Fasta(md5, lib, p2).Ok? ==>
      Fasta(md5, lib, p1).value.seen <= Fasta(md5, lib, p2).value.seen
  {
    var rs1 := AllNames(md5, lib, p1);
    var rs2 := AllNames(md5, lib, p2);
    FastaOkIff(rs1);
    FastaOkIff(rs2);
    if FastaOver(rs2).Ok? {
      forall k1 | 0 <= k1 < |rs1| ensures rs1[k1].Ok? {
        var k2 := NamesCorrespond(md5, lib, p1, p2, k1);
      }
    }
    if FastaOver(rs1).Ok? {
      AllNamesTagsFit(md5, lib, p1);
      FastaFacts(rs1);
    }
    if FastaOver(rs1).Ok? && FastaOver(rs2).Ok? {
      AllNamesTagsFit(md5, lib, p2);
      FastaFacts(rs2);
      forall id | id in FastaOver(rs1).value.seen ensures id in FastaOver(rs2).value.seen {
        var k1 :| 0 <= k1 < |rs1| && id in ResultIds(rs1[k1]);
        var k2 := NamesCorrespond(md5, lib, p1, p2, k1);
        assert id in ResultIds(rs2[k2]);
      }
    }
  }

  // ---------------------------------------------------------------------
  // Lemmas: emit_sequences

  /** seq_id counts the rows from `start`; the i-th row carries id start+i
      and is where its name's id points, so the rows' names are distinct;
      there are as many names with ids as rows, so those are exactly the
      rows' names, one row each, with ids in [start, next). */
  predicate Numbered(st: SeqState, start: int)
  {
    && st.next == start + |st.rows|
    && |st.ids| == |st.rows|
    && (forall i :: 0 <= i < |st.rows| ==>
          st.rows[i].seqId == start + i && st.rows[i].name in st.ids && st.ids[st.rows[i].name] == start + i)
    && (forall name :: name in st.ids ==> start <= st.ids[name] < st.next)
  }

  /** One guarded write keeps the numbering, adds its name, and appends a
      row exactly when the name is new. */
  lemma AssignKeeps(st: SeqState, start: int, fastaId: int, e: Entry)
    requires Numbered(st, start)
    ensures Numbered(Assign(st, fastaId, e), start)
    ensures Assign(st, fastaId, e).ids.Keys == st.ids.Keys + {e.name}
    ensures Assign(st, fastaId, e).rows[..|st.rows|] == st.rows
    ensures e.name !in st.ids ==>
      Assign(st, fastaId, e).rows == st.rows + [EntryRow(st.next, fastaId, e)]
  {
    if e.name !in st.ids {
      var r := Assign(st, fastaId, e);
      forall i | 0 <= i < |r.rows|
        ensures r.rows[i].seqId == start + i && r.rows[i].name in r.ids && r.ids[r.rows[i].name] == start + i
      {
        if i < |st.rows| {
          assert r.rows[i] == st.rows[i];
        }
      }
    }
  }

  /** A row written from one of the entries. */
  predicate RowOf(fastaId: int, es: seq<Result<Entry, Fault>>, row: SeqRow)
  {
    row.fastaId == fastaId && exists k :: 0 <= k < |es| && es[k] == Ok(Entry(row.name, row.md5Sum, row.length))
  }

  /** The guarded writes keep the numbering and the rows before them; the
      names they add are the entries' names, and every row they write is
      made from an entry. */
  lemma {:induction false} AssignOverFacts(st: SeqState, start: int, fastaId: int, es: seq<Result<Entry, Fault>>)
    requires Numbered(st, start) && AssignOver(st, fastaId, es).Ok?
    ensures var r := AssignOver(st, fastaId, es).value;
      && Numbered(r, start)
      && |st.rows| <= |r.rows| && r.rows[..|st.rows|] == st.rows
      && (forall i :: |st.rows| <= i < |r.rows| ==> RowOf(fastaId, es, r.rows[i]))
    decreases |es|
  {
    if |es| > 0 {
      var init := es[..|es| - 1];
      AssignOverFacts(st, start, fastaId, init);
      var mid := AssignOver(st, fastaId, init).value;
      var e := es[|es| - 1].value;
      AssignKeeps(mid, start, fastaId, e);
      var r := AssignOver(st, fastaId, es).value;
      assert r.rows[..|st.rows|] == mid.rows[..|st.rows|];
      RowsOfStep(fastaId, es, st.rows, mid.rows, r.rows);
    }
  }

  /** The names the guarded writes give ids to are those they had and the
      entries' names. */
  lemma {:induction false} AssignOverNames(st: SeqState, fastaId: int, es: seq<Result<Entry, Fault>>)
    requires AssignOver(st, fastaId, es).Ok?
    ensures AssignOver(st, fastaId, es).value.ids.Keys == st.ids.Keys + NameSet(es)
    decreases |es|
  {
    if |es| > 0 {
      AssignOverNames(st, fastaId, es[..|es| - 1]);
    }
  }

  /** The rows step of AssignOverFacts, apart from the fold itself. */
  lemma RowsOfStep(fastaId: int, es: seq<Result<Entry, Fault>>, rows0: seq<SeqRow>, rows: seq<SeqRow>, rows': seq<SeqRow>)
    requires |es| > 0 && es[|es| - 1].Ok? && |rows0| <= |rows| <= |rows'|
    requires forall i :: |rows0| <= i < |rows| ==> RowOf(fastaId, es[..|es| - 1], rows[i])
    requires rows'[..|rows|] == rows
    requires rows' == rows || rows' == rows + [EntryRow(rows'[|rows|].seqId, fastaId, es[|es| - 1].value)]
    ensures forall i :: |rows0| <= i < |rows'| ==> RowOf(fastaId, es, rows'[i])
  {
    var init := es[..|es| - 1];
    forall i | |rows0| <= i < |rows'| ensures RowOf(fastaId, es, rows'[i]) {
      if i < |rows| {
        assert rows'[i] == rows[i];
        var k :| 0 <= k < |init| && init[k] == Ok(Entry(rows[i].name, rows[i].md5Sum, rows[i].length));
        assert es[k] == init[k];
      } else {
        assert es[|es| - 1] == Ok(Entry(rows'[i].name, rows'[i].md5Sum, rows'[i].length));
      }
    }
  }

  /** The guarded writes over two runs of entries are the writes over the
      second started where the first left off. */
  lemma {:induction false} AssignOverAppend(st: SeqState, fastaId: int, a: seq<Result<Entry, Fault>>, b: seq<Result<Entry, Fault>>)
    ensures AssignOver(st, fastaId, a + b) ==
      match AssignOver(st, fastaId, a)
      case Err(f) => Err(f)
      case Ok(mid) => AssignOver(mid, fastaId, b)
    decreases |b|
  {
    if |b| == 0 {
      assert a + b == a;
    } else {
      assert (a + b)[..|a + b| - 1] == a + b[..|b| - 1];
      assert (a + b)[|a + b| - 1] == b[|b| - 1];
      AssignOverAppend(st, fastaId, a, b[..|b| - 1]);
    }
  }

  /** The names of the entries that can be written. */
  function NameSet(es: seq<Result<Entry, Fault>>): set<string>
    decreases |es|
  {
    if |es| == 0 then {} else NameSet(es[..|es| - 1]) + EntryNames(es[|es| - 1])
  }

  /** A name is in NameSet exactly when some entry carries it. */
  lemma {:induction false} NameSetMembers(es: seq<Result<Entry, Fault>>, name: string)
    ensures name in NameSet(es) <==> exists k :: 0 <= k < |es| && name in EntryNames(es[k])
    decreases |es|
  {
    if |es| > 0 {
      var init := es[..|es| - 1];
      NameSetMembers(init, name);
      if exists k :: 0 <= k < |init| && name in EntryNames(init[k]) {
        var k :| 0 <= k < |init| && name in EntryNames(init[k]);
        assert es[k] == init[k];
      }
      if exists k :: 0 <= k < |es| - 1 && name in EntryNames(es[k]) {
        var k :| 0 <= k < |es| - 1 && name in EntryNames(es[k]);
        assert es[k] == init[k];
      }
    }
  }

  lemma AllOkPrefix(es: seq<Result<Entry, Fault>>)
    requires AllOk(es) && |es| > 0
    ensures AllOk(es[..|es| - 1])
  {
    var init := es[..|es| - 1];
    assert forall k :: 0 <= k < |init| ==> init[k] == es[k];
  }

  /** Every entry can be written and none's name has an id yet or is an
      earlier entry's. */
  predicate FreshNames(ids: map<string, int>, es: seq<Result<Entry, Fault>>)
    decreases |es|
  {
    |es| == 0 ||
      (var e := es[|es| - 1];
       FreshNames(ids, es[..|es| - 1]) && e.Ok? && e.value.name !in ids && e.value.name !in NameSet(es[..|es| - 1]))
  }

  /** Entries whose names are new and distinct each get a row, in order,
      numbered on from seq_id, and each name gets an id. */
  lemma {:induction false} AssignOverFresh(st: SeqState, fastaId: int, es: seq<Result<Entry, Fault>>)
    requires AllOk(es) && FreshNames(st.ids, es)
    ensures AssignOver(st, fastaId, es).Ok?
    ensures var r := AssignOver(st, fastaId, es).value;
      && r.next == st.next + |es|
      && r.ids.Keys == st.ids.Keys + NameSet(es)
      && |r.rows| == |st.rows| + |es|
      && forall i :: 0 <= i < |es| ==>
           r.rows[|st.rows| + i] == EntryRow(st.next + i, fastaId, es[i].value)
    decreases |es|
  {
    if |es| == 0 {
      assert NameSet(es) == {};
    } else {
      var init := es[..|es| - 1];
      AllOkPrefix(es);
      AssignOverFresh(st, fastaId, init);
      var mid := AssignOver(st, fastaId, init).value;
      var e := es[|es| - 1].value;
      assert e.name !in mid.ids;
      var r := Assign(mid, fastaId, e);
      assert r == SeqState(mid.next + 1, mid.ids[e.name := mid.next], mid.rows + [EntryRow(mid.next, fastaId, e)]);
      assert AssignOver(st, fastaId, es) == Ok(r);
      assert NameSet(es) == NameSet(init) + {e.name};
      FreshRowsStep(st.rows, mid.rows, r.rows, st.next, fastaId, es, init);
    }
  }

  /** The rows step of AssignOverFresh, apart from the fold itself. */
  lemma FreshRowsStep(rows0: seq<SeqRow>, rows: seq<SeqRow>, rows': seq<SeqRow>, next0: int, fastaId: int,
                      es: seq<Result<Entry, Fault>>, init: seq<Result<Entry, Fault>>)
    requires AllOk(es) && |es| > 0 && init == es[..|es| - 1]
    requires |rows| == |rows0| + |init|
    requires forall i :: 0 <= i < |init| ==>
      rows[|rows0| + i] == EntryRow(next0 + i, fastaId, init[i].value)
    requires rows' == rows + [EntryRow(next0 + |init|, fastaId, es[|es| - 1].value)]
    ensures |rows'| == |rows0| + |es|
    ensures forall i :: 0 <= i < |es| ==>
      rows'[|rows0| + i] == EntryRow(next0 + i, fastaId, es[i].value)
  {
    forall i | 0 <= i < |es|
      ensures rows'[|rows0| + i] == EntryRow(next0 + i, fastaId, es[i].value)
    {
      if i < |init| {
        assert rows'[|rows0| + i] == rows[|rows0| + i];
        assert init[i] == es[i];
      }
    }
  }

  /** The tag loop writes one row per tag id, in the order visited, with
      the md5sum of its 24 bases, numbered from g_START_SEQUENCEID; the
      names it assigns are the tag ids. */
  lemma TagRowsFacts(md5: Md5Fn, idTag: map<string, string>, fastaId: int, start: int, tagOrder: seq<string>)
    requires forall k :: 0 <= k < |tagOrder| ==> tagOrder[k] in idTag
    requires Distinct(tagOrder)
    ensures AssignOver(SeqState(start, map[], []), fastaId, TagEntries(md5, idTag, tagOrder)).Ok?
    ensures var r := AssignOver(SeqState(start, map[], []), fastaId, TagEntries(md5, idTag, tagOrder)).value;
      && Numbered(r, start) && |r.rows| == |tagOrder|
      && (forall i :: 0 <= i < |tagOrder| ==> r.rows[i] == EntryRow(start + i, fastaId, TagEntry(md5, idTag, tagOrder[i])))
      && (forall name :: name in r.ids <==> name in tagOrder)
  {
    TagRowsShape(md5, idTag, fastaId, start, tagOrder);
    TagRowsContent(md5, idTag, fastaId, start, tagOrder);
  }

  /** The numbering and the names of the tag loop. */
  lemma TagRowsShape(md5: Md5Fn, idTag: map<string, string>, fastaId: int, start: int, tagOrder: seq<string>)
    requires forall k :: 0 <= k < |tagOrder| ==> tagOrder[k] in idTag
    requires Distinct(tagOrder)
    ensures AssignOver(SeqState(start, map[], []), fastaId, TagEntries(md5, idTag, tagOrder)).Ok?
    ensures var r := AssignOver(SeqState(start, map[], []), fastaId, TagEntries(md5, idTag, tagOrder)).value;
      && Numbered(r, start) && |r.rows| == |tagOrder|
      && (forall name :: name in r.ids <==> name in tagOrder)
  {
    var st := SeqState(start, map[], []);
    var es := TagEntries(md5, idTag, tagOrder);
    TagNames(md5, idTag, tagOrder);
    AllTagsOk(md5, idTag, tagOrder);
    AssignOverFresh(st, fastaId, es);
    AssignOverFacts(st, start, fastaId, es);
  }

  /** The rows of the tag loop, one per tag id in the order visited. */
  lemma TagRowsContent(md5: Md5Fn, idTag: map<string, string>, fastaId: int, start: int, tagOrder: seq<string>)
    requires forall k :: 0 <= k < |tagOrder| ==> tagOrder[k] in idTag
    requires Distinct(tagOrder)
    ensures AssignOver(SeqState(start, map[], []), fastaId, TagEntries(md5, idTag, tagOrder)).Ok?
    ensures var r := AssignOver(SeqState(start, map[], []), fastaId, TagEntries(md5, idTag, tagOrder)).value;
      && |r.rows| == |tagOrder|
      && (forall i :: 0 <= i < |tagOrder| ==> r.rows[i] == EntryRow(start + i, fastaId, TagEntry(md5, idTag, tagOrder[i])))
  {
    var st := SeqState(start, map[], []);
    var es := TagEntries(md5, idTag, tagOrder);
    TagNames(md5, idTag, tagOrder);
    AllTagsOk(md5, idTag, tagOrder);
    AssignOverFresh(st, fastaId, es);
    var r := AssignOver(st, fastaId, es).value;
    forall i | 0 <= i < |tagOrder| ensures r.rows[i] == EntryRow(start + i, fastaId, TagEntry(md5, idTag, tagOrder[i])) {
      assert r.rows[|st.rows| + i] == EntryRow(st.next + i, fastaId, es[i].value);
    }
  }

  lemma AllTagsOk(md5: Md5Fn, idTag: map<string, string>, tagOrder: seq<string>)
    requires forall k :: 0 <= k < |tagOrder| ==> tagOrder[k] in idTag
    ensures AllOk(TagEntries(md5, idTag, tagOrder))
  {
  }

  /** The tag ids' entries have fresh names: the tag ids themselves. */
  lemma {:induction false} TagNames(md5: Md5Fn, idTag: map<string, string>, tagOrder: seq<string>)
    requires forall k :: 0 <= k < |tagOrder| ==> tagOrder[k] in idTag
    requires Distinct(tagOrder)
    ensures FreshNames(map[], TagEntries(md5, idTag, tagOrder))
    ensures forall name :: name in NameSet(TagEntries(md5, idTag, tagOrder)) <==> name in tagOrder
    decreases |tagOrder|
  {
    if |tagOrder| > 0 {
      var init := tagOrder[..|tagOrder| - 1];
      var id := tagOrder[|tagOrder| - 1];
      assert forall k :: 0 <= k < |init| ==> init[k] == tagOrder[k];
      TagNames(md5, idTag, init);
      var es := TagEntries(md5, idTag, tagOrder);
      assert es[..|es| - 1] == TagEntries(md5, idTag, init);
      assert id !in init;
      SeqMembersSnoc(tagOrder);
    }
  }

  /** The members of a non-empty sequence are those before the last and
      the last. */
  lemma SeqMembersSnoc<T>(s: seq<T>)
    requires |s| > 0
    ensures forall x :: x in s <==> x in s[..|s| - 1] || x == s[|s| - 1]
  {
    forall x ensures x in s <==> x in s[..|s| - 1] || x == s[|s| - 1] {
      if x in s && x != s[|s| - 1] {
        var k :| 0 <= k < |s| && s[k] == x;
        assert s[..|s| - 1][k] == x;
      }
    }
  }

  /** The tiles' entries name exactly the body ids of the library's long
      tiles, whatever the order of the enumeration. */
  lemma BodyEntryNames(md5: Md5Fn, lib: Library, pairs: seq<TilePair>)
    requires Enumerates(pairs, TilePairs(lib.tileLib)) && InLib(lib.tileLib, pairs)
    ensures NameSet(BodyEntries(md5, lib, pairs)) == BodyIds(md5, lib)
  {
    var bodies := BodyEntries(md5, lib, pairs);
    forall name ensures name in NameSet(bodies) <==> name in BodyIds(md5, lib) {
      NameSetMembers(bodies, name);
      if exists k :: 0 <= k < |bodies| && name in EntryNames(bodies[k]) {
        var k :| 0 <= k < |bodies| && name in EntryNames(bodies[k]);
        BodyEntryIsBodyId(md5, lib, pairs, k);
      }
      if name in BodyIds(md5, lib) {
        BodyIdIsEntry(md5, lib, pairs, name);
      }
    }
  }

  /** The k-th tile's entry, when it can be written, names a body id. */
  lemma BodyEntryIsBodyId(md5: Md5Fn, lib: Library, pairs: seq<TilePair>, k: int)
    requires Enumerates(pairs, TilePairs(lib.tileLib)) && InLib(lib.tileLib, pairs) && 0 <= k < |pairs|
    ensures EntryNames(BodyEntries(md5, lib, pairs)[k]) <= BodyIds(md5, lib)
  {
    var p := pairs[k];
    assert p in TilePairs(lib.tileLib);
  }

  /** Every body id is named by some tile's entry. */
  lemma BodyIdIsEntry(md5: Md5Fn, lib: Library, pairs: seq<TilePair>, name: string)
    requires Enumerates(pairs, TilePairs(lib.tileLib)) && InLib(lib.tileLib, pairs) && name in BodyIds(md5, lib)
    ensures exists k :: 0 <= k < |pairs| && name in EntryNames(BodyEntries(md5, lib, pairs)[k])
  {
    var p :| p in TilePairs(lib.tileLib) && p.0 in lib.tileLib && p.1 in lib.tileLib[p.0] && |SeqOf(lib, p.1)| >= 2 * TAG_LEN
      && name == BodyId(md5, p.0, lib.tileLib[p.0][p.1], SeqOf(lib, p.1));
    var k :| 0 <= k < |pairs| && pairs[k] == p;
    assert name in EntryNames(BodyEntries(md5, lib, pairs)[k]);
  }

  /** The guarded writes over one run of entries and then another: the
      rows of the first stay in front and the rows after them are made from
      the second run's entries. */
  lemma AssignOverThen(st: SeqState, start: int, fastaId: int, a: seq<Result<Entry, Fault>>, b: seq<Result<Entry, Fault>>)
    requires Numbered(st, start) && AssignOver(st, fastaId, a).Ok?
    ensures var mid := AssignOver(st, fastaId, a).value;
      AssignOver(st, fastaId, a + b).Ok? ==>
        var r := AssignOver(st, fastaId, a + b).value;
        && Numbered(r, start) && |mid.rows| <= |r.rows|
        && (forall i :: 0 <= i < |mid.rows| ==> r.rows[i] == mid.rows[i])
        && (forall i :: |mid.rows| <= i < |r.rows| ==> RowOf(fastaId, b, r.rows[i]))
  {
    AssignOverAppend(st, fastaId, a, b);
    AssignOverFacts(st, start, fastaId, a);
    var mid := AssignOver(st, fastaId, a).value;
    if AssignOver(mid, fastaId, b).Ok? {
      AssignOverFacts(mid, start, fastaId, b);
      var r := AssignOver(mid, fastaId, b).value;
      assert forall i :: 0 <= i < |mid.rows| ==> r.rows[i] == r.rows[..|mid.rows|][i];
    }
  }

  /** What emit_sequences writes: the tag rows first, in the order
      visited, then the body rows, each made from a tile's entry. */
  lemma SequencesRows(md5: Md5Fn, lib: Library, fastaId: int, start: int, tagOrder: seq<string>, pairs: seq<TilePair>)
    requires Enumerates(tagOrder, lib.idTag.Keys) && Enumerates(pairs, TilePairs(lib.tileLib))
    ensures InLib(lib.tileLib, pairs)
    ensures Sequences(md5, lib, fastaId, start, tagOrder, pairs).Ok? ==>
      var r := Sequences(md5, lib, fastaId, start, tagOrder, pairs).value;
      && Numbered(r, start) && |tagOrder| <= |r.rows|
      && (forall i :: 0 <= i < |tagOrder| ==>
            r.rows[i] == EntryRow(start + i, fastaId, TagEntry(md5, lib.idTag, tagOrder[i])))
      && (forall i :: |tagOrder| <= i < |r.rows| ==> RowOf(fastaId, BodyEntries(md5, lib, pairs), r.rows[i]))
  {
    EnumeratesInLib(lib.tileLib, pairs);
    var st := SeqState(start, map[], []);
    TagRowsFacts(md5, lib.idTag, fastaId, start, tagOrder);
    AssignOverThen(st, start, fastaId, TagEntries(md5, lib.idTag, tagOrder), BodyEntries(md5, lib, pairs));
  }

  /** The names emit_sequences gives ids to are the tag ids and the long
      tiles' body ids. */
  lemma SequencesNames(md5: Md5Fn, lib: Library, fastaId: int, start: int, tagOrder: seq<string>, pairs: seq<TilePair>)
    requires Enumerates(tagOrder, lib.idTag.Keys) && Enumerates(pairs, TilePairs(lib.tileLib))
    ensures InLib(lib.tileLib, pairs)
    ensures Sequences(md5, lib, fastaId, start, tagOrder, pairs).Ok? ==>
      Sequences(md5, lib, fastaId, start, tagOrder, pairs).value.ids.Keys == lib.idTag.Keys + BodyIds(md5, lib)
  {
    EnumeratesInLib(lib.tileLib, pairs);
    var st := SeqState(start, map[], []);
    var tags := TagEntries(md5, lib.idTag, tagOrder);
    var bodies := BodyEntries(md5, lib, pairs);
    AssignOverAppend(st, fastaId, tags, bodies);
    TagRowsFacts(md5, lib.idTag, fastaId, start, tagOrder);
    var mid := AssignOver(st, fastaId, tags).value;
    if AssignOver(mid, fastaId, bodies).Ok? {
      AssignOverNames(mid, fastaId, bodies);
      BodyEntryNames(md5, lib, pairs);
      KeysOfOrder(mid.ids, lib.idTag.Keys, tagOrder);
    }
  }

  /** A map whose keys are the members of an enumeration of a set has that
      set as its keys. */
  lemma KeysOfOrder(ids: map<string, int>, keys: set<string>, order: seq<string>)
    requires forall name :: name in ids <==> name in order
    requires Enumerates(order, keys)
    ensures ids.Keys == keys
  {
  }

  /** Every tile of an enumeration is long exactly when every tile of the
      library is. */
  lemma LongTilesAll(lib: Library, pairs: seq<TilePair>)
    requires Enumerates(pairs, TilePairs(lib.tileLib))
    ensures LongTiles(lib, pairs) <==> forall p :: p in TilePairs(lib.tileLib) ==> |SeqOf(lib, p.1)| >= 2 * TAG_LEN
  {
    if LongTiles(lib, pairs) {
      forall p | p in TilePairs(lib.tileLib) ensures |SeqOf(lib, p.1)| >= 2 * TAG_LEN {
        var k :| 0 <= k < |pairs| && pairs[k] == p;
      }
    }
  }

  /** Whatever order the maps hand the tag ids and the tiles over in,
      emit_sequences fails or gets through alike, and when it gets through
      it assigns ids to the same names and writes the same number of rows. */
  lemma SequencesOrderIndependent(md5: Md5Fn, lib: Library, fastaId: int, start: int,
                                  t1: seq<string>, t2: seq<string>, p1: seq<TilePair>, p2: seq<TilePair>)
    requires Enumerates(t1, lib.idTag.Keys) && Enumerates(t2, lib.idTag.Keys)
    requires Enumerates(p1, TilePairs(lib.tileLib)) && Enumerates(p2, TilePairs(lib.tileLib))
    ensures InLib(lib.tileLib, p1) && InLib(lib.tileLib, p2)
    ensures Sequences(md5, lib, fastaId, start, t1, p1).Ok? <==> Sequences(md5, lib, fastaId, start, t2, p2).Ok?
    ensures Sequences(md5, lib, fastaId, start, t1, p1).Ok? ==>
      && Sequences(md5, lib, fastaId, start, t1, p1).value.ids.Keys == Sequences(md5, lib, fastaId, start, t2, p2).value.ids.Keys
      && |Sequences(md5, lib, fastaId, start, t1, p1).value.rows| == |Sequences(md5, lib, fastaId, start, t2, p2).value.rows|
  {
    EnumeratesInLib(lib.tileLib, p1);
    EnumeratesInLib(lib.tileLib, p2);
    SequencesOkIff(md5, lib, fastaId, start, t1, p1);
    SequencesOkIff(md5, lib, fastaId, start, t2, p2);
    LongTilesAll(lib, p1);
    LongTilesAll(lib, p2);
    SequencesRows(md5, lib, fastaId, start, t1, p1);
    SequencesRows(md5, lib, fastaId, start, t2, p2);
    SequencesNames(md5, lib, fastaId, start, t1, p1);
    SequencesNames(md5, lib, fastaId, start, t2, p2);
  }

  // ---------------------------------------------------------------------
  // Lemmas: emit_graphjoin and emit_graphjoin_variantset

  /** The "%x:%x" dedup key names its pair of sequence ids: two keys are
      equal only for the same anchor and the same body. */
  lemma JoinKeyInjective(a: int, b: int, c: int, d: int)
    requires JoinKey(a, b) == JoinKey(c, d)
    ensures a == c && b == d
  {
    FmtHexChars(a, ':');
    FmtHexChars(b, ':');
    FmtHexChars(c, ':');
    FmtHexChars(d, ':');
    var ab := [FmtHex(a, 0), FmtHex(b, 0)];
    var cd := [FmtHex(c, 0), FmtHex(d, 0)];
    assert ab[1..] == [FmtHex(b, 0)] && cd[1..] == [FmtHex(d, 0)];
    JoinSplit(ab, ':');
    JoinSplit(cd, ':');
    assert ab == cd;
    FmtHexInjective(a, c);
    FmtHexInjective(b, d);
  }

  /** Exactly one side of a GraphJoin row is flagged TRUE, and that side
      is at offset 0. */
  predicate EdgeShape(row: JoinRow)
  {
    row.flagA != row.flagB && (row.flagA ==> row.posA == 0) && (row.flagB ==> row.posB == 0)
  }

  /** A row joins the two sequence ids its key names, in one layout or the
      other. */
  predicate RowKeyed(key: string, row: JoinRow)
  {
    key == JoinKey(row.seqA, row.seqB) || key == JoinKey(row.seqB, row.seqA)
  }

  /** Both edges of a tile have that shape and join what their keys name. */
  lemma EdgeRowsShape(pfxSeq: int, sfxSeq: int, bodySeq: int, pfxId: string, sfxId: string, bodyId: string, len: int)
    ensures EdgeShape(PfxRow(pfxSeq, bodySeq, pfxId, bodyId)) && RowKeyed(JoinKey(pfxSeq, bodySeq), PfxRow(pfxSeq, bodySeq, pfxId, bodyId))
    ensures EdgeShape(SfxRow(sfxSeq, bodySeq, bodyId, sfxId, len)) && RowKeyed(JoinKey(sfxSeq, bodySeq), SfxRow(sfxSeq, bodySeq, bodyId, sfxId, len))
  {
  }

  /** gj_id counts the rows from `start` and g_graphjoin_id_list lists
      them; the keys, one per row, enumerate seen_hash, each row joins what
      its key names and has the edge shape. */
  predicate JoinNumbered(st: JoinState, start: int)
  {
    && st.next == start + |st.rows|
    && |st.keys| == |st.rows| && |st.idList| == |st.rows|
    && Enumerates(st.keys, st.seen)
    && (forall i :: 0 <= i < |st.rows| ==>
          && st.idList[i] == start + i && st.rows[i].id == start + i
          && RowKeyed(st.keys[i], st.rows[i]) && EdgeShape(st.rows[i]))
  }

  /** One guarded edge keeps the numbering, adds its key to seen_hash and
      writes at most one row. */
  lemma AddEdgeKeeps(st: JoinState, start: int, key: string, row: JoinRow)
    requires JoinNumbered(st, start) && RowKeyed(key, row) && EdgeShape(row)
    ensures JoinNumbered(AddEdge(st, key, row), start)
    ensures AddEdge(st, key, row).seen == st.seen + {key}
    ensures |st.rows| <= |AddEdge(st, key, row).rows| <= |st.rows| + 1
  {
    if key !in st.seen {
      KeysAfterAdd(st.keys, st.seen, key);
      RowsAfterAdd(st, start, key, row);
    }
  }

  /** Appending a new key to an enumeration enumerates the larger set. */
  lemma KeysAfterAdd(keys: seq<string>, seen: set<string>, key: string)
    requires Enumerates(keys, seen) && key !in seen
    ensures Enumerates(keys + [key], seen + {key})
  {
    var ks := keys + [key];
    assert key !in keys;
    forall i, j | 0 <= i < j < |ks| ensures ks[i] != ks[j] {
      if j == |keys| { assert ks[i] == keys[i]; }
      else { assert ks[i] == keys[i] && ks[j] == keys[j]; }
    }
    forall x | x in seen + {key} ensures x in ks {
      if x != key {
        var k :| 0 <= k < |keys| && keys[k] == x;
        assert ks[k] == x;
      }
    }
    forall k | 0 <= k < |ks| ensures ks[k] in seen + {key} {
      if k < |keys| { assert ks[k] == keys[k]; }
    }
  }

  /** The row added for a new key carries the next id and keeps the
      numbering of the rows before it. */
  lemma RowsAfterAdd(st: JoinState, start: int, key: string, row: JoinRow)
    requires JoinNumbered(st, start) && RowKeyed(key, row) && EdgeShape(row) && key !in st.seen
    ensures var r := AddEdge(st, key, row);
      forall i :: 0 <= i < |r.rows| ==>
        && r.idList[i] == start + i && r.rows[i].id == start + i
        && RowKeyed(r.keys[i], r.rows[i]) && EdgeShape(r.rows[i])
  {
    var r := AddEdge(st, key, row);
    forall i | 0 <= i < |r.rows|
      ensures && r.idList[i] == start + i && r.rows[i].id == start + i
              && RowKeyed(r.keys[i], r.rows[i]) && EdgeShape(r.rows[i])
    {
      if i < |st.rows| {
        assert r.rows[i] == st.rows[i] && r.keys[i] == st.keys[i] && r.idList[i] == st.idList[i];
      }
    }
  }

  /** One tile's two edges keep the numbering and add its two keys. */
  lemma JoinTileKeeps(st: JoinState, start: int, ids: map<string, int>, n: Names)
    requires JoinNumbered(st, start)
    ensures JoinNumbered(JoinTile(st, ids, n), start)
    ensures JoinTile(st, ids, n).seen == st.seen + ResultKeys(ids, Ok(n))
    ensures |st.rows| <= |JoinTile(st, ids, n).rows| <= |st.rows| + 2
  {
    var pfxSeq := SeqIdOf(ids, n.pfxId);
    var sfxSeq := SeqIdOf(ids, n.sfxId);
    var bodySeq := SeqIdOf(ids, n.bodyId);
    var len := |n.pfxTag| + |n.body| + |n.sfxTag|;
    EdgeRowsShape(pfxSeq, sfxSeq, bodySeq, n.pfxId, n.sfxId, n.bodyId, len);
    AddEdgesKeeps(st, start, JoinKey(pfxSeq, bodySeq), PfxRow(pfxSeq, bodySeq, n.pfxId, n.bodyId),
                  JoinKey(sfxSeq, bodySeq), SfxRow(sfxSeq, bodySeq, n.bodyId, n.sfxId, len));
  }

  /** Two guarded edges in a row, apart from how the tile makes them. */
  lemma AddEdgesKeeps(st: JoinState, start: int, key1: string, row1: JoinRow, key2: string, row2: JoinRow)
    requires JoinNumbered(st, start)
    requires RowKeyed(key1, row1) && EdgeShape(row1) && RowKeyed(key2, row2) && EdgeShape(row2)
    ensures JoinNumbered(AddEdge(AddEdge(st, key1, row1), key2, row2), start)
    ensures AddEdge(AddEdge(st, key1, row1), key2, row2).seen == st.seen + {key1, key2}
    ensures |st.rows| <= |AddEdge(AddEdge(st, key1, row1), key2, row2).rows| <= |st.rows| + 2
  {
    AddEdgeKeeps(st, start, key1, row1);
    AddEdgeKeeps(AddEdge(st, key1, row1), start, key2, row2);
  }

  /** The edge keys of the tiles whose names can be computed. */
  function KeySet(ids: map<string, int>, rs: seq<Result<Names, Fault>>): set<string>
    decreases |rs|
  {
    if |rs| == 0 then {} else KeySet(ids, rs[..|rs| - 1]) + ResultKeys(ids, rs[|rs| - 1])
  }

  /** A key is in KeySet exactly when some tile's names give it. */
  lemma {:induction false} KeySetMembers(ids: map<string, int>, rs: seq<Result<Names, Fault>>, key: string)
    ensures key in KeySet(ids, rs) <==> exists k :: 0 <= k < |rs| && key in ResultKeys(ids, rs[k])
    decreases |rs|
  {
    if |rs| > 0 {
      var init := rs[..|rs| - 1];
      KeySetMembers(ids, init, key);
      if exists k :: 0 <= k < |init| && key in ResultKeys(ids, init[k]) {
        var k :| 0 <= k < |init| && key in ResultKeys(ids, init[k]);
        assert rs[k] == init[k];
      }
      if exists k :: 0 <= k < |rs| - 1 && key in ResultKeys(ids, rs[k]) {
        var k :| 0 <= k < |rs| - 1 && key in ResultKeys(ids, rs[k]);
        assert rs[k] == init[k];
      }
    }
  }

  /** What emit_graphjoin writes: numbered rows, one per new key, each
      joining what its key names with one side flagged; seen_hash ends up
      holding the tiles' edge keys; at most two rows per tile. */
  lemma {:induction false} JoinsFacts(ids: map<string, int>, start: int, rs: seq<Result<Names, Fault>>)
    requires JoinsOver(ids, start, rs).Ok?
    ensures var r := JoinsOver(ids, start, rs).value;
      && JoinNumbered(r, start)
      && r.seen == KeySet(ids, rs)
      && |r.rows| <= 2 * |rs|
    decreases |rs|
  {
    if |rs| > 0 {
      JoinsFacts(ids, start, rs[..|rs| - 1]);
      var mid := JoinsOver(ids, start, rs[..|rs| - 1]).value;
      JoinTileKeeps(mid, start, ids, rs[|rs| - 1].value);
    }
  }

  /** A row is one of the two edges a tile's names give: the leading
      anchor's or the trailing anchor's, with the tile's length, whatever
      its id. */
  predicate EdgeOf(ids: map<string, int>, n: Names, row: JoinRow)
  {
    var pfxSeq := SeqIdOf(ids, n.pfxId);
    var sfxSeq := SeqIdOf(ids, n.sfxId);
    var bodySeq := SeqIdOf(ids, n.bodyId);
    var len := |n.pfxTag| + |n.body| + |n.sfxTag|;
    || row == PfxRow(pfxSeq, bodySeq, n.pfxId, n.bodyId).(id := row.id)
    || row == SfxRow(sfxSeq, bodySeq, n.bodyId, n.sfxId, len).(id := row.id)
  }

  /** One tile's step keeps the rows before it and adds only its own edges. */
  lemma JoinTileRows(st: JoinState, ids: map<string, int>, n: Names)
    ensures var r := JoinTile(st, ids, n);
      && |st.rows| <= |r.rows|
      && r.rows[..|st.rows|] == st.rows
      && forall i :: |st.rows| <= i < |r.rows| ==> EdgeOf(ids, n, r.rows[i])
  {
    var pfxSeq := SeqIdOf(ids, n.pfxId);
    var sfxSeq := SeqIdOf(ids, n.sfxId);
    var bodySeq := SeqIdOf(ids, n.bodyId);
    var len := |n.pfxTag| + |n.body| + |n.sfxTag|;
    var p := PfxRow(pfxSeq, bodySeq, n.pfxId, n.bodyId);
    var s := SfxRow(sfxSeq, bodySeq, n.bodyId, n.sfxId, len);
    var st1 := AddEdge(st, JoinKey(pfxSeq, bodySeq), p);
    var r := AddEdge(st1, JoinKey(sfxSeq, bodySeq), s);
    assert st1.rows == st.rows || st1.rows == st.rows + [p.(id := st.next)];
    assert r.rows == st1.rows || r.rows == st1.rows + [s.(id := st1.next)];
    forall i | |st.rows| <= i < |r.rows| ensures EdgeOf(ids, n, r.rows[i]) {
      if i < |st1.rows| {
        assert r.rows[i] == st1.rows[i] == p.(id := st.next);
      } else {
        assert r.rows[i] == s.(id := st1.next);
      }
    }
  }

  /** Every GraphJoin row emit_graphjoin writes is the leading or trailing
      edge of a tile visited before it, numbered by its place. */
  lemma {:induction false} JoinsRowsFrom(ids: map<string, int>, start: int, rs: seq<Result<Names, Fault>>)
    requires JoinsOver(ids, start, rs).Ok?
    ensures var r := JoinsOver(ids, start, rs).value;
      forall i :: 0 <= i < |r.rows| ==>
        && r.rows[i].id == start + i
        && exists k :: 0 <= k < |rs| && rs[k].Ok? && EdgeOf(ids, rs[k].value, r.rows[i])
    decreases |rs|
  {
    JoinsFacts(ids, start, rs);
    if |rs| > 0 {
      var init := rs[..|rs| - 1];
      JoinsRowsFrom(ids, start, init);
      var mid := JoinsOver(ids, start, init).value;
      var n := rs[|rs| - 1].value;
      JoinTileRows(mid, ids, n);
      var r := JoinsOver(ids, start, rs).value;
      forall i | 0 <= i < |r.rows|
        ensures exists k :: 0 <= k < |rs| && rs[k].Ok? && EdgeOf(ids, rs[k].value, r.rows[i])
      {
        if i < |mid.rows| {
          assert r.rows[i] == mid.rows[i];
          var k :| 0 <= k < |init| && init[k].Ok? && EdgeOf(ids, init[k].value, mid.rows[i]);
          assert rs[k] == init[k];
        } else {
          assert EdgeOf(ids, rs[|rs| - 1].value, r.rows[i]);
        }
      }
    }
  }

  /** emit_graphjoin_variantset writes one row per GraphJoin row written,
      pairing its id with the variant set id; the ids run from
      g_START_GRAPHJOINID upwards. */
  lemma VariantSetAfterJoins(ids: map<string, int>, start: int, rs: seq<Result<Names, Fault>>, variantSetId: int)
    requires JoinsOver(ids, start, rs).Ok?
    ensures var r := JoinsOver(ids, start, rs).value;
      var v := VariantSetRows(r.idList, variantSetId);
      && |v| == |r.rows|
      && forall i :: 0 <= i < |v| ==> v[i] == (r.rows[i].id, variantSetId) && v[i].0 == start + i
  {
    JoinsFacts(ids, start, rs);
    VariantSetOfNumbered(JoinsOver(ids, start, rs).value, start, variantSetId);
  }

  lemma VariantSetOfNumbered(r: JoinState, start: int, variantSetId: int)
    requires JoinNumbered(r, start)
    ensures var v := VariantSetRows(r.idList, variantSetId);
      && |v| == |r.rows|
      && forall i :: 0 <= i < |v| ==> v[i] == (r.rows[i].id, variantSetId) && v[i].0 == start + i
  {
    var v := VariantSetRows(r.idList, variantSetId);
    forall i | 0 <= i < |v| ensures v[i] == (r.rows[i].id, variantSetId) && v[i].0 == start + i {
      assert r.idList[i] == start + i && r.rows[i].id == start + i;
    }
  }

  /** The edge keys of the library's tiles. */
  function JoinKeysOf(md5: Md5Fn, lib: Library, ids: map<string, int>): set<string>
  {
    set p, key | p in TilePairs(lib.tileLib) && p.0 in lib.tileLib && p.1 in lib.tileLib[p.0]
                 && key in ResultKeys(ids, TileNames(md5, lib, p.0, p.1)) :: key
  }

  /** Whatever the enumeration, its tiles' edge keys are the library's. */
  lemma KeySetOfEnumeration(md5: Md5Fn, lib: Library, ids: map<string, int>, pairs: seq<TilePair>)
    requires Enumerates(pairs, TilePairs(lib.tileLib)) && InLib(lib.tileLib, pairs)
    ensures KeySet(ids, AllNames(md5, lib, pairs)) == JoinKeysOf(md5, lib, ids)
  {
    var rs := AllNames(md5, lib, pairs);
    forall key ensures key in KeySet(ids, rs) <==> key in JoinKeysOf(md5, lib, ids) {
      KeySetMembers(ids, rs, key);
      if exists k :: 0 <= k < |rs| && key in ResultKeys(ids, rs[k]) {
        var k :| 0 <= k < |rs| && key in ResultKeys(ids, rs[k]);
        KeyOfVisited(md5, lib, ids, pairs, k, key);
      }
      if key in JoinKeysOf(md5, lib, ids) {
        KeyOfLibrary(md5, lib, ids, pairs, key);
      }
    }
  }

  /** A key a visited tile gives is a key of the library. */
  lemma KeyOfVisited(md5: Md5Fn, lib: Library, ids: map<string, int>, pairs: seq<TilePair>, k: nat, key: string)
    requires Enumerates(pairs, TilePairs(lib.tileLib)) && InLib(lib.tileLib, pairs)
    requires k < |pairs| && key in ResultKeys(ids, AllNames(md5, lib, pairs)[k])
    ensures key in JoinKeysOf(md5, lib, ids)
  {
    var p := pairs[k];
    assert p in TilePairs(lib.tileLib);
    assert key in ResultKeys(ids, TileNames(md5, lib, p.0, p.1));
  }

  /** A key of the library is given by some visited tile. */
  lemma KeyOfLibrary(md5: Md5Fn, lib: Library, ids: map<string, int>, pairs: seq<TilePair>, key: string)
    requires Enumerates(pairs, TilePairs(lib.tileLib)) && InLib(lib.tileLib, pairs)
    requires key in JoinKeysOf(md5, lib, ids)
    ensures exists k :: 0 <= k < |pairs| && key in ResultKeys(ids, AllNames(md5, lib, pairs)[k])
  {
    var p :| p in TilePairs(lib.tileLib) && p.0 in lib.tileLib && p.1 in lib.tileLib[p.0]
             && key in ResultKeys(ids, TileNames(md5, lib, p.0, p.1));
    var k :| 0 <= k < |pairs| && pairs[k] == p;
    assert key in ResultKeys(ids, AllNames(md5, lib, pairs)[k]);
  }

  /** Whatever order the map hands the tiles over in, emit_graphjoin fails
      or gets through alike, and when it gets through it has seen the same
      keys and written the same number of rows. */
  lemma JoinsOrderIndependent(md5: Md5Fn, lib: Library, ids: map<string, int>, start: int, p1: seq<TilePair>, p2: seq<TilePair>)
    requires Enumerates(p1, TilePairs(lib.tileLib)) && Enumerates(p2, TilePairs(lib.tileLib))
    ensures InLib(lib.tileLib, p1) && InLib(lib.tileLib, p2)
    ensures Joins(md5, lib, ids, start, p1).Ok? <==> Joins(md5, lib, ids, start, p2).Ok?
    ensures Joins(md5, lib, ids, start, p1).Ok? ==>
      && Joins(md5, lib, ids, start, p1).value.seen == JoinKeysOf(md5, lib, ids)
      && Joins(md5, lib, ids, start, p1).value.seen == Joins(md5, lib, ids, start, p2).value.seen
      && |Joins(md5, lib, ids, start, p1).value.rows| == |Joins(md5, lib, ids, start, p2).value.rows|
  {
    EnumeratesInLib(lib.tileLib, p1);
    EnumeratesInLib(lib.tileLib, p2);
    JoinsOrderOneWay(md5, lib, ids, start, p1, p2);
    JoinsOrderOneWay(md5, lib, ids, start, p2, p1);
  }

  lemma JoinsOrderOneWay(md5: Md5Fn, lib: Library, ids: map<string, int>, start: int, p1: seq<TilePair>, p2: seq<TilePair>)
    requires Enumerates(p1, TilePairs(lib.tileLib)) && Enumerates(p2, TilePairs(lib.tileLib))
    requires InLib(lib.tileLib, p1) && InLib(lib.tileLib, p2)
    ensures Joins(md5, lib, ids, start, p2).Ok? ==> Joins(md5, lib, ids, start, p1).Ok?
    ensures Joins(md5, lib, ids, start, p1).Ok? ==>
      && Joins(md5, lib, ids, start, p1).value.seen == JoinKeysOf(md5, lib, ids)
      && |Joins(md5, lib, ids, start, p1).value.rows| == |JoinKeysOf(md5, lib, ids)|
  {
    var rs1 := AllNames(md5, lib, p1);
    var rs2 := AllNames(md5, lib, p2);
    JoinsOkIff(ids, start, rs1);
    JoinsOkIff(ids, start, rs2);
    if JoinsOver(ids, start, rs2).Ok? {
      forall k1 | 0 <= k1 < |rs1| ensures rs1[k1].Ok? {
        var k2 := NamesCorrespond(md5, lib, p1, p2, k1);
      }
    }
    if JoinsOver(ids, start, rs1).Ok? {
      JoinsFacts(ids, start, rs1);
      KeySetOfEnumeration(md5, lib, ids, p1);
      var r := JoinsOver(ids, start, rs1).value;
      EnumerationLength(r.keys, r.seen);
    }
  }

  // ---------------------------------------------------------------------
  // One step of each loop, for the methods that run them

  lemma FastaStep(rs: seq<Result<Names, Fault>>, k: int, st: FastaState)
    requires 0 <= k < |rs| && FastaOver(rs[..k]) == Ok(st)
    ensures rs[k].Ok? ==> FastaOver(rs[..k + 1]) == Ok(FastaTile(st, rs[k].value))
    ensures rs[k].Err? ==> FastaOver(rs) == Err(rs[k].error)
  {
    assert rs[..k + 1][..k] == rs[..k];
    if rs[k].Err? {
      FastaErrSticks(rs, k + 1, rs[k].error);
    }
  }

  lemma AssignStep(st0: SeqState, fastaId: int, es: seq<Result<Entry, Fault>>, k: int, st: SeqState)
    requires 0 <= k < |es| && AssignOver(st0, fastaId, es[..k]) == Ok(st)
    ensures es[k].Ok? ==> AssignOver(st0, fastaId, es[..k + 1]) == Ok(Assign(st, fastaId, es[k].value))
    ensures es[k].Err? ==> AssignOver(st0, fastaId, es) == Err(es[k].error)
  {
    assert es[..k + 1][..k] == es[..k];
    if es[k].Err? {
      AssignErrSticks(st0, fastaId, es, k + 1, es[k].error);
    }
  }

  lemma JoinsStep(ids: map<string, int>, start: int, rs: seq<Result<Names, Fault>>, k: int, st: JoinState)
    requires 0 <= k < |rs| && JoinsOver(ids, start, rs[..k]) == Ok(st)
    ensures rs[k].Ok? ==> JoinsOver(ids, start, rs[..k + 1]) == Ok(JoinTile(st, ids, rs[k].value))
    ensures rs[k].Err? ==> JoinsOver(ids, start, rs) == Err(rs[k].error)
  {
    assert rs[..k + 1][..k] == rs[..k];
    if rs[k].Err? {
      JoinsErrSticks(ids, start, rs, k + 1, rs[k].error);
    }
  }
}
