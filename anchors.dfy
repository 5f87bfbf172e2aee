/** The anchor ids a tile contributes, as import_fastj records them
    (src/create_tile_graph.go:222-229) and as emit_fasta, emit_sequences and
    emit_graphjoin recompute them (src/create_tile_graph.go:339-340,
    476-477): both use the raw position key for the leading anchor and
    "%03x.%04x" of (path, step+seedlen) for the trailing one, so every
    anchor an emitter names is one ingest recorded, and emit_sequences
    numbers it. */
module Anchors {
  import opened Wrappers
  import opened Hex
  import opened Text
  import opened Md5
  import opened TagId
  import opened FastJ
  import opened Sorting
  import opened TileLib
  import opened Rank
  import opened Emit

  /** Every tile whose names the emitters can compute has both of its
      anchor ids in g_id_tag. */
  predicate AnchorsRecorded(md5: Md5Fn, lib: Library)
  {
    forall ps, m :: ps in lib.tileLib && m in lib.tileLib[ps] && TileNames(md5, lib, ps, m).Ok? ==>
      TileNames(md5, lib, ps, m).value.pfxId in lib.idTag && TileNames(md5, lib, ps, m).value.sfxId in lib.idTag
  }

  /** Once a header has set prev, its position key splits back into the
      path and step it was made of. */
  predicate PrevParsed(prev: Prev)
  {
    |prev.md5sum| == 32 ==>
      var parts := Split(prev.tilePath, '.');
      |parts| == 2 && ParseInt(parts[0], 16) == Some(prev.path) && ParseInt(parts[1], 16) == Some(prev.step)
  }

  /** No two different strings of `s` share a digest. g_md5sum_seq keeps the
      first sequence filed under an md5sum, so a second, different sequence
      with the same digest would leave its anchors unnamed by the emitters;
      the hypothesis is local to the strings a run meets, since no function
      into 16 bytes is injective on all strings. */
  predicate DigestsDistinct(md5: Md5Fn, s: set<string>)
  {
    forall a, b :: a in s && b in s && Md5Sum(md5, a) == Md5Sum(md5, b) ==> a == b
  }

  /** The tile sequences a run may flush: the joined pending bases of each
      event. */
  function Flushed(evs: seq<Event>): set<string>
    decreases |evs|
  {
    if |evs| == 0 then {}
    else
      (match evs[0]
       case BadJson => {}
       case EndOfInput(pending) => {Concat(pending)}
       case HeaderLine(_, pending) => {Concat(pending)})
      + Flushed(evs[1..])
  }

  /** The emitters' names of a tile, unfolded: at least 48 bases, a key
      whose two hex parts parse, the leading anchor under the raw key, the
      trailing one under the context of (path, step+seedlen), and the body
      id. */
  lemma TileNamesAnchors(md5: Md5Fn, lib: Library, ps: string, m: string)
    requires ps in lib.tileLib && m in lib.tileLib[ps]
    ensures var r := TileNames(md5, lib, ps, m);
      var s := SeqOf(lib, m);
      var parts := Split(ps, '.');
      r.Ok? ==>
        && |s| >= 2 * TAG_LEN && |parts| >= 2
        && ParseInt(parts[0], 16).Some? && ParseInt(parts[1], 16).Some?
        && r.value.pfxId == TagIdOf(md5, ps, s[..TAG_LEN])
        && r.value.sfxId == TagIdOf(md5, TrailingContext(ParseInt(parts[0], 16).value, ParseInt(parts[1], 16).value,
                                                         lib.tileLib[ps][m].seedLen), s[|s| - TAG_LEN..])
        && r.value.bodyId == BodyId(md5, ps, lib.tileLib[ps][m], s)
  {
  }

  /** A tile's anchors depend only on its sequence and its seed length. */
  lemma TileNamesAnchorsFrame(md5: Md5Fn, lib: Library, lib': Library, ps: string, m: string)
    requires ps in lib.tileLib && m in lib.tileLib[ps] && ps in lib'.tileLib && m in lib'.tileLib[ps]
    requires SeqOf(lib', m) == SeqOf(lib, m) && lib'.tileLib[ps][m].seedLen == lib.tileLib[ps][m].seedLen
    ensures TileNames(md5, lib', ps, m).Ok? <==> TileNames(md5, lib, ps, m).Ok?
    ensures TileNames(md5, lib', ps, m).Ok? ==>
      && TileNames(md5, lib', ps, m).value.pfxId == TileNames(md5, lib, ps, m).value.pfxId
      && TileNames(md5, lib', ps, m).value.sfxId == TileNames(md5, lib, ps, m).value.sfxId
  {
  }

  /** A parsed header leaves a prev whose key parses back. */
  lemma PrevOfParsed(h: Header)
    requires ParseTileId(h.tileId).Ok?
    ensures PrevParsed(PrevOf(h, ParseTileId(h.tileId).value))
  {
    TilePathReparse(h.tileId);
  }

  /** Recording a checked tile keeps every emittable anchor recorded: an
      old variant keeps its sequence and seed length, and a new one is
      named by ingest exactly as the emitters will name it. */
  lemma CommitKeepsAnchors(md5: Md5Fn, lib: Library, prev: Prev, tileSeq: string)
    requires LibValid(md5, lib) && AnchorsRecorded(md5, lib) && PrevParsed(prev)
    requires |tileSeq| >= TAG_LEN && Md5Sum(md5, tileSeq) == prev.md5sum
    requires prev.md5sum in lib.md5SumSeq ==> lib.md5SumSeq[prev.md5sum] == tileSeq
    ensures AnchorsRecorded(md5, Commit(md5, lib, prev, tileSeq))
  {
    var lib' := Commit(md5, lib, prev, tileSeq);
    forall ps, m | ps in lib'.tileLib && m in lib'.tileLib[ps] && TileNames(md5, lib', ps, m).Ok?
      ensures TileNames(md5, lib', ps, m).value.pfxId in lib'.idTag
      ensures TileNames(md5, lib', ps, m).value.sfxId in lib'.idTag
    {
      if ps in lib.tileLib && m in lib.tileLib[ps] {
        CommitKeepsOldAnchors(md5, lib, prev, tileSeq, ps, m);
      } else {
        CommitNamesNewAnchors(md5, lib, prev, tileSeq, ps, m);
      }
    }
  }

  /** A variant known before the commit keeps its sequence and seed length,
      so its anchors are the ones already recorded. */
  lemma CommitKeepsOldAnchors(md5: Md5Fn, lib: Library, prev: Prev, tileSeq: string, ps: string, m: string)
    requires LibValid(md5, lib) && AnchorsRecorded(md5, lib)
    requires |tileSeq| >= TAG_LEN
    requires ps in lib.tileLib && m in lib.tileLib[ps]
    ensures var lib' := Commit(md5, lib, prev, tileSeq);
      && ps in lib'.tileLib && m in lib'.tileLib[ps]
      && (TileNames(md5, lib', ps, m).Ok? ==>
            TileNames(md5, lib', ps, m).value.pfxId in lib'.idTag && TileNames(md5, lib', ps, m).value.sfxId in lib'.idTag)
  {
    var lib' := Commit(md5, lib, prev, tileSeq);
    assert lib.tileLib[ps][m].md5Sum == m;
    assert m in lib.md5SumSeq;
    assert SeqOf(lib', m) == SeqOf(lib, m);
    assert lib'.tileLib[ps][m].seedLen == lib.tileLib[ps][m].seedLen;
    TileNamesAnchorsFrame(md5, lib, lib', ps, m);
  }

  /** The committed variant is named by the emitters exactly as ingest
      named its anchors. */
  lemma CommitNamesNewAnchors(md5: Md5Fn, lib: Library, prev: Prev, tileSeq: string, ps: string, m: string)
    requires PrevParsed(prev)
    requires |tileSeq| >= TAG_LEN && Md5Sum(md5, tileSeq) == prev.md5sum
    requires prev.md5sum in lib.md5SumSeq ==> lib.md5SumSeq[prev.md5sum] == tileSeq
    requires var lib' := Commit(md5, lib, prev, tileSeq);
      ps in lib'.tileLib && m in lib'.tileLib[ps] && !(ps in lib.tileLib && m in lib.tileLib[ps])
    ensures var lib' := Commit(md5, lib, prev, tileSeq);
      TileNames(md5, lib', ps, m).Ok? ==>
        && TileNames(md5, lib', ps, m).value.pfxId == PfxId(md5, prev, tileSeq)
        && TileNames(md5, lib', ps, m).value.sfxId == SfxId(md5, prev, tileSeq)
        && TileNames(md5, lib', ps, m).value.pfxId in lib'.idTag
        && TileNames(md5, lib', ps, m).value.sfxId in lib'.idTag
  {
    var lib' := Commit(md5, lib, prev, tileSeq);
    assert ps == prev.tilePath && m == prev.md5sum;
    assert SeqOf(lib', m) == tileSeq;
    assert lib'.tileLib[ps][m].seedLen == prev.seedLen;
    TileNamesAnchors(md5, lib', ps, m);
  }

  /** A commit files at most one new sequence. */
  lemma CommitSeqs(md5: Md5Fn, lib: Library, prev: Prev, tileSeq: string)
    requires |tileSeq| >= TAG_LEN
    ensures Commit(md5, lib, prev, tileSeq).md5SumSeq.Values <= lib.md5SumSeq.Values + {tileSeq}
  {
    var r := Commit(md5, lib, prev, tileSeq).md5SumSeq;
    forall v | v in r.Values ensures v in lib.md5SumSeq.Values + {tileSeq} {
      var m :| m in r && r[m] == v;
      if m in lib.md5SumSeq { assert lib.md5SumSeq[m] in lib.md5SumSeq.Values; }
    }
  }

  /** One flush of pending bases keeps the library invariant, the anchors
      recorded and the digests of what is left distinct. */
  lemma FlushPendingKeepsAnchors(md5: Md5Fn, lib: Library, prev: Prev, pending: seq<string>, rest: set<string>)
    requires LibValid(md5, lib) && AnchorsRecorded(md5, lib) && PrevParsed(prev)
    requires DigestsDistinct(md5, lib.md5SumSeq.Values + {Concat(pending)} + rest)
    requires FlushPending(md5, lib, prev, pending).Ok?
    ensures var lib1 := FlushPending(md5, lib, prev, pending).value;
      && LibValid(md5, lib1) && AnchorsRecorded(md5, lib1)
      && DigestsDistinct(md5, lib1.md5SumSeq.Values + rest)
  {
    if |pending| > 0 {
      var tileSeq := Concat(pending);
      FlushKeepsValid(md5, lib, prev, pending);
      if prev.md5sum in lib.md5SumSeq {
        var s := lib.md5SumSeq[prev.md5sum];
        assert s in lib.md5SumSeq.Values;
        assert Md5Sum(md5, s) == prev.md5sum;
      }
      CommitKeepsAnchors(md5, lib, prev, tileSeq);
      CommitSeqs(md5, lib, prev, tileSeq);
    }
  }

  /** import_fastj's event fold keeps every emittable anchor recorded,
      provided no two different sequences it meets share a digest. */
  lemma {:induction false} RunKeepsAnchors(md5: Md5Fn, lib: Library, prev: Prev, evs: seq<Event>)
    requires LibValid(md5, lib) && AnchorsRecorded(md5, lib) && PrevParsed(prev)
    requires DigestsDistinct(md5, lib.md5SumSeq.Values + Flushed(evs))
    requires Run(md5, lib, prev, evs).Ok?
    ensures AnchorsRecorded(md5, Run(md5, lib, prev, evs).value)
    decreases |evs|
  {
    if |evs| > 0 {
      match evs[0]
      case BadJson =>
      case EndOfInput(pending) =>
        assert Flushed(evs) == {Concat(pending)} + Flushed(evs[1..]);
        FlushPendingKeepsAnchors(md5, lib, prev, pending, Flushed(evs[1..]));
        RunKeepsAnchors(md5, FlushPending(md5, lib, prev, pending).value, prev, evs[1..]);
      case HeaderLine(h, pending) =>
        assert Flushed(evs) == {Concat(pending)} + Flushed(evs[1..]);
        FlushPendingKeepsAnchors(md5, lib, prev, pending, Flushed(evs[1..]));
        PrevOfParsed(h);
        RunKeepsAnchors(md5, FlushPending(md5, lib, prev, pending).value, PrevOf(h, ParseTileId(h.tileId).value), evs[1..]);
    }
  }

  /** import_fastj over a file's lines keeps every emittable anchor
      recorded, under the same hypothesis on the file's tile sequences. */
  lemma IngestKeepsAnchors(md5: Md5Fn, lib: Library, lines: seq<string>, parse: HeaderParser)
    requires LibValid(md5, lib) && AnchorsRecorded(md5, lib)
    requires DigestsDistinct(md5, lib.md5SumSeq.Values + Flushed(Scan(lines, parse)))
    requires Ingest(md5, lib, lines, parse).Ok?
    ensures AnchorsRecorded(md5, Ingest(md5, lib, lines, parse).value)
  {
    RunKeepsAnchors(md5, lib, NoPrev, Scan(lines, parse));
  }

  /** init()'s empty library has no tile and so no anchor to record. */
  lemma EmptyLibraryAnchors(md5: Md5Fn)
    ensures AnchorsRecorded(md5, EmptyLibrary)
  {
  }

  /** rank_tile_lib changes only ranks, so the anchors stay recorded. */
  lemma RankAllKeepsAnchors(md5: Md5Fn, lib: Library, mOrders: map<string, seq<string>>)
    requires AnchorsRecorded(md5, lib)
    requires forall ps :: ps in lib.tileLib ==> ps in mOrders && Enumerates(mOrders[ps], lib.tileLib[ps].Keys)
    ensures AnchorsRecorded(md5, lib.(tileLib := RankAll(lib.tileLib, mOrders)))
  {
    var lib' := lib.(tileLib := RankAll(lib.tileLib, mOrders));
    forall ps, m | ps in lib'.tileLib && m in lib'.tileLib[ps] && TileNames(md5, lib', ps, m).Ok?
      ensures TileNames(md5, lib', ps, m).value.pfxId in lib'.idTag
      ensures TileNames(md5, lib', ps, m).value.sfxId in lib'.idTag
    {
      EnumeratesKeys(mOrders[ps], lib.tileLib[ps]);
      assert lib'.tileLib[ps] == RankedGroup(lib.tileLib[ps], mOrders[ps]);
      assert m in lib.tileLib[ps];
      TileNamesAnchorsFrame(md5, lib, lib', ps, m);
    }
  }

  /** All three ids of a tile's names have a Sequence id. */
  predicate NamesNumbered(ids: map<string, int>, n: Names)
  {
    n.pfxId in ids && n.sfxId in ids && n.bodyId in ids
  }

  /** On such a library emit_sequences gives a Sequence id to both anchors
      and the body of every tile whose names compute. */
  lemma SequencesNumberAnchors(md5: Md5Fn, lib: Library, fastaId: int, start: int, tagOrder: seq<string>,
                               pairs: seq<TilePair>, ps: string, m: string)
    requires LibValid(md5, lib) && AnchorsRecorded(md5, lib)
    requires Enumerates(tagOrder, lib.idTag.Keys) && Enumerates(pairs, TilePairs(lib.tileLib))
    requires ps in lib.tileLib && m in lib.tileLib[ps] && TileNames(md5, lib, ps, m).Ok?
    ensures InLib(lib.tileLib, pairs)
    ensures Sequences(md5, lib, fastaId, start, tagOrder, pairs).Ok? ==>
      NamesNumbered(Sequences(md5, lib, fastaId, start, tagOrder, pairs).value.ids, TileNames(md5, lib, ps, m).value)
  {
    SequencesNames(md5, lib, fastaId, start, tagOrder, pairs);
    TileNamesAnchors(md5, lib, ps, m);
    assert (ps, m) in TilePairs(lib.tileLib);
    assert TileNames(md5, lib, ps, m).value.bodyId in BodyIds(md5, lib);
  }

  /** An edge of numbered names joins two Sequence ids. */
  lemma EdgeOfNumbered(ids: map<string, int>, n: Names, row: JoinRow)
    requires NamesNumbered(ids, n) && EdgeOf(ids, n, row)
    ensures row.seqA in ids.Values && row.seqB in ids.Values
  {
    assert ids[n.pfxId] in ids.Values && ids[n.sfxId] in ids.Values && ids[n.bodyId] in ids.Values;
  }

  /** After emit_sequences, every GraphJoin row is an edge of a visited
      tile whose three ids have Sequence ids, so both sides of the row are
      Sequence ids emit_sequences assigned and never the zero value of a
      missed lookup. */
  lemma JoinsUseSequenceIds(md5: Md5Fn, lib: Library, fastaId: int, start: int, tagOrder: seq<string>,
                            pairs: seq<TilePair>, gjStart: int, jpairs: seq<TilePair>)
    requires LibValid(md5, lib) && AnchorsRecorded(md5, lib)
    requires Enumerates(tagOrder, lib.idTag.Keys) && Enumerates(pairs, TilePairs(lib.tileLib))
    requires InLib(lib.tileLib, jpairs)
    ensures InLib(lib.tileLib, pairs)
    ensures Sequences(md5, lib, fastaId, start, tagOrder, pairs).Ok? ==>
      var ids := Sequences(md5, lib, fastaId, start, tagOrder, pairs).value.ids;
      var rs := AllNames(md5, lib, jpairs);
      Joins(md5, lib, ids, gjStart, jpairs).Ok? ==>
        forall i :: 0 <= i < |Joins(md5, lib, ids, gjStart, jpairs).value.rows| ==>
          && Joins(md5, lib, ids, gjStart, jpairs).value.rows[i].seqA in ids.Values
          && Joins(md5, lib, ids, gjStart, jpairs).value.rows[i].seqB in ids.Values
          && exists k :: 0 <= k < |rs| && rs[k].Ok? && NamesNumbered(ids, rs[k].value)
                         && EdgeOf(ids, rs[k].value, Joins(md5, lib, ids, gjStart, jpairs).value.rows[i])
  {
    EnumeratesInLib(lib.tileLib, pairs);
    if Sequences(md5, lib, fastaId, start, tagOrder, pairs).Ok? {
      var ids := Sequences(md5, lib, fastaId, start, tagOrder, pairs).value.ids;
      var rs := AllNames(md5, lib, jpairs);
      if Joins(md5, lib, ids, gjStart, jpairs).Ok? {
        var rows := Joins(md5, lib, ids, gjStart, jpairs).value.rows;
        JoinsRowsFrom(ids, gjStart, rs);
        forall i | 0 <= i < |rows|
          ensures rows[i].seqA in ids.Values && rows[i].seqB in ids.Values
          ensures exists k :: 0 <= k < |rs| && rs[k].Ok? && NamesNumbered(ids, rs[k].value) && EdgeOf(ids, rs[k].value, rows[i])
        {
          var k :| 0 <= k < |rs| && rs[k].Ok? && EdgeOf(ids, rs[k].value, rows[i]);
          assert rs[k] == TileNames(md5, lib, jpairs[k].0, jpairs[k].1);
          SequencesNumberAnchors(md5, lib, fastaId, start, tagOrder, pairs, jpairs[k].0, jpairs[k].1);
          EdgeOfNumbered(ids, rs[k].value, rows[i]);
        }
      }
    }
  }
}
