/** create_tile_graph's global state (src/create_tile_graph.go:84-110 and
    _main at 582-585) as one object, and the steps that change it:
    import_fastj, rank_tile_lib and the emitters. */
module TileGraph {
  import opened Wrappers
  import opened Hex
  import opened Text
  import opened Md5
  import opened TagId
  import opened FastJ
  import opened TileLib
  import opened Sorting
  import opened LexOrder
  import opened Rank
  import opened Fold
  import opened Emit

  class TileGraphBuilder {
    /** The digest, fixed for a run. */
    const md5: Md5Fn
    /** g_FASTAID, g_START_SEQUENCEID, g_START_GRAPHJOINID, g_VARIANTSETID. */
    const fastaId: int
    const startSequenceId: int
    const startGraphJoinId: int
    const variantSetId: int

    /** g_tile_lib, g_md5sum_seq, g_id_tag. */
    var tileLib: Tiles
    var md5SumSeq: map<string, string>
    var idTag: map<string, string>
    /** path_step_order, g_sequence_id, g_graphjoin_id_list. */
    var pathStepOrder: seq<string>
    var sequenceId: map<string, int>
    var graphJoinIdList: seq<int>

    /** The globals after init() and _main's flag reads. */
    constructor(md5: Md5Fn, fastaId: int, startSequenceId: int, startGraphJoinId: int, variantSetId: int)
      ensures this.md5 == md5 && this.fastaId == fastaId && this.startSequenceId == startSequenceId
      ensures this.startGraphJoinId == startGraphJoinId && this.variantSetId == variantSetId
      ensures Lib() == EmptyLibrary && Valid()
      ensures pathStepOrder == [] && sequenceId == map[] && graphJoinIdList == []
    {
      this.md5 := md5;
      this.fastaId := fastaId;
      this.startSequenceId := startSequenceId;
      this.startGraphJoinId := startGraphJoinId;
      this.variantSetId := variantSetId;
      tileLib := map[];
      md5SumSeq := map[];
      idTag := map[];
      pathStepOrder := [];
      sequenceId := map[];
      graphJoinIdList := [];
      new;
      EmptyLibraryValid(md5);
    }

    /** The three maps import_fastj fills. */
    function Lib(): Library
      reads this`tileLib, this`md5SumSeq, this`idTag
    {
      Library(tileLib, md5SumSeq, idTag)
    }

    /** The library invariant every import keeps. */
    predicate Valid()
      reads this`tileLib, this`md5SumSeq, this`idTag
    {
      LibValid(md5, Lib())
    }

    /** One tile's bases are complete (src/create_tile_graph.go:207-246 and
        267-305): slice the tags, check the md5sum, then record the
        sequence, the two tag ids and the variant. */
    method CommitTile(prev: Prev, curseq: seq<string>) returns (r: Outcome<Fault>)
      modifies this`tileLib, this`md5SumSeq, this`idTag
      ensures r.Pass? <==> Flush(md5, old(Lib()), prev, curseq).Ok?
      ensures r.Pass? ==> Lib() == Flush(md5, old(Lib()), prev, curseq).value
      ensures r.Fail? ==> Flush(md5, old(Lib()), prev, curseq) == Err(r.error)
      ensures r.Pass? && old(Valid()) && PrevValid(prev) ==> Valid()
    {
      ghost var v0 := Valid();
      ghost var lib0 := Lib();
      var tileSeq := Concat(curseq);
      if |tileSeq| < TAG_LEN {
        return Fail(TileTooShort(|tileSeq|));
      }
      var h := Md5SumStr(md5, tileSeq);
      if h != prev.md5sum {
        return Fail(HashMismatch(prev.md5sum, h));
      }
      StoreTile(prev, tileSeq);
      if v0 && PrevValid(prev) {
        FlushKeepsValid(md5, lib0, prev, curseq);
      }
      return Pass;
    }

    /** The recording half of one tile (src/create_tile_graph.go:218-246
        and 277-305), once the md5sum matched: the sequence, both tag ids
        and the variant. */
    method StoreTile(prev: Prev, tileSeq: string)
      modifies this`tileLib, this`md5SumSeq, this`idTag
      requires |tileSeq| >= TAG_LEN
      ensures Lib() == Commit(md5, old(Lib()), prev, tileSeq)
    {
      var pfxTag := tileSeq[..TAG_LEN];
      var sfxTag := tileSeq[|tileSeq| - TAG_LEN..];
      ghost var lib0 := Lib();
      md5SumSeq := PutIfAbsent(md5SumSeq, prev.md5sum, tileSeq);
      var pfxId := CreateTagId(md5, prev.tilePath, pfxTag);
      idTag := PutIfAbsent(idTag, pfxId, pfxTag);
      var ctx := TrailingContext(prev.path, prev.step, prev.seedLen);
      var sfxId := CreateTagId(md5, ctx, sfxTag);
      idTag := PutIfAbsent(idTag, sfxId, sfxTag);
      RecordVariant(prev.tilePath, prev.md5sum, prev.seedLen);
      CommitIs(md5, lib0, prev, tileSeq, pfxId, sfxId, Lib());
    }

    /** Insert a new variant with frequency 1 and rank -1, or count one more
        sighting of a known one (src/create_tile_graph.go:235-245). */
    method RecordVariant(ps: string, m: string, seedLen: Int64)
      modifies this`tileLib
      ensures tileLib == AddTile(old(tileLib), ps, m, seedLen)
    {
      var tiles := tileLib;
      if ps !in tiles {
        tiles := tiles[ps := map[]];
      }
      var group := tiles[ps];
      if m !in group {
        group := group[m := TileInfo(m, ps, seedLen, 1, -1)];
      } else {
        var z := group[m];
        z := z.(freq := z.freq + 1);
        group := group[m := z];
      }
      AddTileUnfold(old(tileLib), ps, m, seedLen, group);
      tileLib := tiles[ps := group];
    }

    /** import_fastj over the lines of one file
        (src/create_tile_graph.go:163-311): the library afterwards is what
        the event model computes, and the run fails exactly when it does,
        with the same fault. */
    method ImportFastj(lines: seq<string>, parse: HeaderParser) returns (r: Outcome<Fault>)
      modifies this`tileLib, this`md5SumSeq, this`idTag
      ensures r.Pass? <==> Ingest(md5, old(Lib()), lines, parse).Ok?
      ensures r.Pass? ==> Lib() == Ingest(md5, old(Lib()), lines, parse).value
      ensures r.Fail? ==> Ingest(md5, old(Lib()), lines, parse) == Err(r.error)
      ensures r.Pass? && old(Valid()) ==> Valid()
    {
      ghost var v0 := Valid();
      ghost var lib0 := Lib();
      ghost var goal := Ingest(md5, Lib(), lines, parse);
      var prev := NoPrev;
      var curseq: seq<string> := [];
      var i := 0;
      assert lines[0..] == lines;
      while i < |lines|
        invariant 0 <= i <= |lines|
        invariant Run(md5, Lib(), prev, ScanFrom(lines[i..], curseq, parse)) == goal
        decreases |lines| - i
      {
        var l := lines[i];
        assert lines[i..][1..] == lines[i + 1..];
        if |l| == 0 {
          i := i + 1;
          continue;
        }
        if l[0] == '>' {
          var ph := parse(l[1..]);
          if ph.None? {
            return Fail(BadHeaderJson);
          }
          var h := ph.value;
          var pk := ParseTileId(h.tileId);
          if pk.Err? {
            return Fail(pk.error);
          }
          if |curseq| > 0 {
            var c := CommitTile(prev, curseq);
            if c.Fail? {
              return c;
            }
          }
          curseq := [];
          prev := PrevOf(h, pk.value);
          i := i + 1;
          continue;
        }
        curseq := curseq + [l];
        i := i + 1;
      }
      if |curseq| > 0 {
        r := CommitTile(prev, curseq);
        if r.Fail? {
          return;
        }
      }
      if v0 {
        IngestKeepsValid(md5, lib0, lines, parse);
      }
      return Pass;
    }
  
    /** rank_tile_lib (src/create_tile_graph.go:556-578): list the position
        keys in map order, rank the variants of each position, then sort the
        position keys. */
    method RankTileLib(psOrder: seq<string>, mOrders: map<string, seq<string>>)
      modifies this`tileLib, this`pathStepOrder
      requires Valid()
      requires Enumerates(psOrder, tileLib.Keys)
      requires forall ps :: ps in tileLib ==> ps in mOrders && Enumerates(mOrders[ps], tileLib[ps].Keys)
      ensures tileLib == RankAll(old(tileLib), mOrders)
      ensures pathStepOrder == SortLex(psOrder)
      ensures Valid()
    {
      ghost var known := md5SumSeq.Keys;
      ghost var t0 := tileLib;
      TilesValidFiled(tileLib, known);
      RankPositions(psOrder, mOrders);
      pathStepOrder := SortLex(pathStepOrder);
      RankAllKeepsValid(t0, mOrders, known);
    }

    /** The loop of rank_tile_lib over the positions in map order
        (src/create_tile_graph.go:557-574): each key is appended to
        path_step_order and its variants ranked. */
    method RankPositions(psOrder: seq<string>, mOrders: map<string, seq<string>>)
      modifies this`tileLib, this`pathStepOrder
      requires Filed(tileLib)
      requires Enumerates(psOrder, tileLib.Keys)
      requires forall ps :: ps in tileLib ==> ps in mOrders && Enumerates(mOrders[ps], tileLib[ps].Keys)
      ensures tileLib == RankAll(old(tileLib), mOrders)
      ensures pathStepOrder == psOrder
    {
      ghost var t0 := tileLib;
      ghost var ranked := RankAll(t0, mOrders);
      pathStepOrder := [];
      RankSomeStart(t0, ranked);
      var k := 0;
      while k < |psOrder|
        invariant 0 <= k <= |psOrder| && pathStepOrder == psOrder[..k]
        invariant tileLib == RankSome(t0, ranked, pathStepOrder)
      {
        var ps := psOrder[k];
        assert ps !in pathStepOrder;
        assert psOrder[..k + 1] == pathStepOrder + [ps];
        RankNext(ps, mOrders[ps], t0, ranked, pathStepOrder);
        pathStepOrder := pathStepOrder + [ps];
        k := k + 1;
      }
      assert pathStepOrder == psOrder;
      RankSomeEnd(t0, ranked, pathStepOrder);
    }

    /** One turn of the loop over positions: ranking ps moves the library
        from having ranked `done` to having ranked `done + [ps]`. */
    method RankNext(ps: string, mOrder: seq<string>, ghost t0: Tiles, ghost ranked: Tiles, ghost done: seq<string>)
      modifies this`tileLib
      requires Filed(t0) && ps in t0 && ps in ranked && ps !in done
      requires Enumerates(mOrder, t0[ps].Keys) && ranked[ps] == RankedGroup(t0[ps], mOrder)
      requires tileLib == RankSome(t0, ranked, done)
      ensures tileLib == RankSome(t0, ranked, done + [ps])
    {
      RankSomeStep(t0, ranked, done, ps);
      FiledGroup(t0, ps);
      RankPosition(ps, mOrder);
    }

    /** One position of rank_tile_lib (src/create_tile_graph.go:561-572):
        collect its variants in map order, sort them by TileFreqOrder, and
        write rank i into the i-th one. */
    method RankPosition(ps: string, mOrder: seq<string>)
      modifies this`tileLib
      requires ps in tileLib && GroupValid(tileLib[ps]) && Enumerates(mOrder, tileLib[ps].Keys)
      requires forall m :: m in tileLib[ps] ==> tileLib[ps][m].pathStep == ps
      ensures tileLib == old(tileLib)[ps := RankedGroup(old(tileLib)[ps], mOrder)]
    {
      var group := tileLib[ps];
      EnumeratesKeys(mOrder, group);
      var freqOrder := CollectGroup(group, mOrder);
      FreqLessIsStrictWeakOrder();
      var sorted := SortBy(freqOrder, FreqLess);
      assert sorted == SortedGroup(group, mOrder);
      ghost var index := SortedIndex(group, sorted);
      RankIndexFacts(group, mOrder);
      WriteRanks(ps, group, sorted, index);
      PartlyRankedEnd(group, mOrder);
    }

    /** The collecting loop of rank_tile_lib (src/create_tile_graph.go:560-563):
        a position's variants in map order. */
    static method CollectGroup(group: map<string, TileInfo>, mOrder: seq<string>) returns (freqOrder: seq<TileInfo>)
      requires forall k :: 0 <= k < |mOrder| ==> mOrder[k] in group
      ensures freqOrder == GroupInfos(group, mOrder)
    {
      freqOrder := [];
      var j := 0;
      while j < |mOrder|
        invariant 0 <= j <= |mOrder| && |freqOrder| == j
        invariant forall i :: 0 <= i < j ==> freqOrder[i] == group[mOrder[i]]
      {
        freqOrder := freqOrder + [group[mOrder[j]]];
        j := j + 1;
      }
    }

    /** The write loop of rank_tile_lib (src/create_tile_graph.go:568-572):
        z.Rank = i for the i-th sorted variant, found by its own path step
        and md5sum. */
    method WriteRanks(ps: string, ghost group: map<string, TileInfo>, sorted: seq<TileInfo>,
                      ghost index: map<string, int>)
      modifies this`tileLib
      requires ps in tileLib && tileLib[ps] == group
      requires forall i :: 0 <= i < |sorted| ==>
                 && sorted[i].pathStep == ps && sorted[i].md5Sum in group
                 && sorted[i].md5Sum in index && index[sorted[i].md5Sum] == i
      requires forall m :: m in index && 0 <= index[m] < |sorted| ==> sorted[index[m]].md5Sum == m
      ensures tileLib == old(tileLib)[ps := PartlyRanked(group, index, |sorted|)]
    {
      PartlyRankedStart(group, index);
      var i := 0;
      while i < |sorted|
        invariant 0 <= i <= |sorted|
        invariant tileLib == old(tileLib)[ps := PartlyRanked(group, index, i)]
      {
        var info := sorted[i];
        PartlyRankedStep(group, index, info.md5Sum, i);
        var z := tileLib[info.pathStep][info.md5Sum];
        z := z.(rank := i);
        tileLib := tileLib[info.pathStep := tileLib[info.pathStep][info.md5Sum := z]];
        i := i + 1;
      }
    }

    /** The per-tile prologue emit_fasta and emit_graphjoin share
        (src/create_tile_graph.go:325-346, 462-485), step by step. */
    method ComputeNames(ps: string, m: string) returns (r: Result<Names, Fault>)
      requires ps in tileLib && m in tileLib[ps]
      ensures r == TileNames(md5, Lib(), ps, m)
    {
      var tileSeq := if m in md5SumSeq then md5SumSeq[m] else "";
      if |tileSeq| < TAG_LEN {
        return Err(TileTooShort(|tileSeq|));
      }
      var pfxTag := tileSeq[..TAG_LEN];
      var sfxTag := tileSeq[|tileSeq| - TAG_LEN..];
      var pfxId := CreateTagId(md5, ps, pfxTag);
      var info := tileLib[ps][m];
      var parts := Split(ps, '.');
      var path := ParseInt(parts[0], 16);
      if path.None? {
        return Err(BadHexToken(parts[0]));
      }
      if |parts| < 2 {
        return Err(MissingPartition(ps));
      }
      var step := ParseInt(parts[1], 16);
      if step.None? {
        return Err(BadHexToken(parts[1]));
      }
      var sfxId := CreateTagId(md5, TrailingContext(path.value, step.value, info.seedLen), sfxTag);
      if |tileSeq| < 2 * TAG_LEN {
        return Err(TileTooShort(|tileSeq|));
      }
      var body := tileSeq[TAG_LEN..|tileSeq| - TAG_LEN];
      var bodyMd5 := Md5SumStr(md5, body);
      var bodyId := bodyMd5 + "." + ps + ".r" + FmtHex(info.rank, 0) + "+" + FmtHex(info.seedLen, 0);
      TileSplits(tileSeq);
      return Ok(Names(pfxTag, sfxTag, body, pfxId, sfxId, bodyId));
    }

    /** emit_fasta (src/create_tile_graph.go:318-392): the records written,
        or the fault that stops the run. */
    method EmitFasta(pairs: seq<TilePair>) returns (r: Result<FastaState, Fault>)
      requires InLib(tileLib, pairs)
      ensures r == Fasta(md5, Lib(), pairs)
    {
      ghost var rs := AllNames(md5, Lib(), pairs);
      var seen: set<string> := {};
      var records: seq<FastaRecord> := [];
      var k := 0;
      while k < |pairs|
        invariant 0 <= k <= |pairs|
        invariant FastaOver(rs[..k]) == Ok(FastaState(seen, records))
      {
        var n := ComputeNames(pairs[k].0, pairs[k].1);
        assert n == rs[k];
        FastaStep(rs, k, FastaState(seen, records));
        if n.Err? {
          return Err(n.error);
        }
        seen, records := WriteTile(seen, records, n.value);
        k := k + 1;
      }
      assert rs[..k] == rs;
      return Ok(FastaState(seen, records));
    }

    /** The three writes of one tile in emit_fasta
        (src/create_tile_graph.go:350-389): each id not yet seen is marked
        and its sequence written. */
    static method WriteTile(seen0: set<string>, records0: seq<FastaRecord>, t: Names)
      returns (seen: set<string>, records: seq<FastaRecord>)
      ensures FastaState(seen, records) == FastaTile(FastaState(seen0, records0), t)
    {
      seen, records := seen0, records0;
      ghost var st := FastaState(seen, records);
      if t.pfxId !in seen {
        seen := seen + {t.pfxId};
        records := records + [FastaRecord(t.pfxId, [t.pfxTag])];
      }
      ghost var st1 := FastaState(seen, records);
      assert st1 == WriteOnce(st, t.pfxId, [t.pfxTag]);
      if t.sfxId !in seen {
        seen := seen + {t.sfxId};
        records := records + [FastaRecord(t.sfxId, [t.sfxTag])];
      }
      ghost var st2 := FastaState(seen, records);
      assert st2 == WriteOnce(st1, t.sfxId, [t.sfxTag]);
      if t.bodyId !in seen {
        seen := seen + {t.bodyId};
        var lines := FoldBody(t.body, FOLD);
        records := records + [FastaRecord(t.bodyId, lines)];
      }
      assert FastaState(seen, records) == WriteOnce(st2, t.bodyId, FoldLines(t.body, FOLD));
    }

    /** emit_sequences (src/create_tile_graph.go:398-447): the rows written
        and g_sequence_id afterwards, or the fault that stops the run. */
    method EmitSequences(tagOrder: seq<string>, pairs: seq<TilePair>) returns (r: Result<seq<SeqRow>, Fault>)
      modifies this`sequenceId
      requires forall k :: 0 <= k < |tagOrder| ==> tagOrder[k] in idTag
      requires InLib(tileLib, pairs)
      ensures r.Ok? <==> Sequences(md5, Lib(), fastaId, startSequenceId, tagOrder, pairs).Ok?
      ensures r.Ok? ==> && r.value == Sequences(md5, Lib(), fastaId, startSequenceId, tagOrder, pairs).value.rows
                        && sequenceId == Sequences(md5, Lib(), fastaId, startSequenceId, tagOrder, pairs).value.ids
      ensures r.Err? ==> Sequences(md5, Lib(), fastaId, startSequenceId, tagOrder, pairs) == Err(r.error)
    {
      ghost var st0 := SeqState(startSequenceId, map[], []);
      AssignOverAppend(st0, fastaId, TagEntries(md5, idTag, tagOrder), BodyEntries(md5, Lib(), pairs));
      sequenceId := map[];
      var seqId, rows := AssignTags(tagOrder, startSequenceId, []);
      r := AssignTiles(pairs, seqId, rows);
    }

    /** The tag loop of emit_sequences (src/create_tile_graph.go:409-419),
        from seq_id `seqId`, g_sequence_id and the rows so far. */
    method AssignTags(tagOrder: seq<string>, seqId: int, rows: seq<SeqRow>) returns (seqId': int, rows': seq<SeqRow>)
      modifies this`sequenceId
      requires forall k :: 0 <= k < |tagOrder| ==> tagOrder[k] in idTag
      ensures AssignOver(SeqState(seqId, old(sequenceId), rows), fastaId, TagEntries(md5, idTag, tagOrder))
           == Ok(SeqState(seqId', sequenceId, rows'))
    {
      ghost var st0 := SeqState(seqId, sequenceId, rows);
      ghost var tags := TagEntries(md5, idTag, tagOrder);
      seqId', rows' := seqId, rows;
      var k := 0;
      while k < |tagOrder|
        invariant 0 <= k <= |tagOrder|
        invariant AssignOver(st0, fastaId, tags[..k]) == Ok(SeqState(seqId', sequenceId, rows'))
      {
        var id := tagOrder[k];
        var m5 := Md5SumStr(md5, idTag[id]);
        var e := Entry(id, m5, TAG_LEN);
        assert tags[k] == Ok(e);
        AssignStep(st0, fastaId, tags, k, SeqState(seqId', sequenceId, rows'));
        seqId', rows' := AssignOne(e, seqId', rows');
        k := k + 1;
      }
      assert tags[..k] == tags;
    }

    /** The tile loop of emit_sequences (src/create_tile_graph.go:421-445),
        from seq_id `seqId`, g_sequence_id and the rows so far. */
    method AssignTiles(pairs: seq<TilePair>, seqId: int, rows: seq<SeqRow>) returns (r: Result<seq<SeqRow>, Fault>)
      modifies this`sequenceId
      requires InLib(tileLib, pairs)
      ensures r.Ok? <==> AssignOver(SeqState(seqId, old(sequenceId), rows), fastaId, BodyEntries(md5, Lib(), pairs)).Ok?
      ensures r.Ok? ==> exists next :: AssignOver(SeqState(seqId, old(sequenceId), rows), fastaId, BodyEntries(md5, Lib(), pairs))
                                        == Ok(SeqState(next, sequenceId, r.value))
      ensures r.Err? ==> AssignOver(SeqState(seqId, old(sequenceId), rows), fastaId, BodyEntries(md5, Lib(), pairs)) == Err(r.error)
    {
      ghost var mid := SeqState(seqId, sequenceId, rows);
      ghost var bodies := BodyEntries(md5, Lib(), pairs);
      var seqId', rows' := seqId, rows;
      var j := 0;
      while j < |pairs|
        invariant 0 <= j <= |pairs|
        invariant AssignOver(mid, fastaId, bodies[..j]) == Ok(SeqState(seqId', sequenceId, rows'))
      {
        var b := TileEntryOf(pairs[j].0, pairs[j].1);
        assert bodies[j] == b;
        AssignStep(mid, fastaId, bodies, j, SeqState(seqId', sequenceId, rows'));
        if b.Err? {
          return Err(b.error);
        }
        seqId', rows' := AssignOne(b.value, seqId', rows');
        j := j + 1;
      }
      assert bodies[..j] == bodies;
      assert AssignOver(mid, fastaId, bodies) == Ok(SeqState(seqId', sequenceId, rows'));
      return Ok(rows');
    }

    /** `if _, ok := g_sequence_id[name]; !ok { write; assign; seq_id++ }`
        for one entry. */
    method AssignOne(e: Entry, seqId: int, rows: seq<SeqRow>) returns (seqId': int, rows': seq<SeqRow>)
      modifies this`sequenceId
      ensures SeqState(seqId', sequenceId, rows') == Assign(SeqState(seqId, old(sequenceId), rows), fastaId, e)
    {
      seqId', rows' := seqId, rows;
      if e.name !in sequenceId {
        rows' := rows' + [SeqRow(seqId', fastaId, e.name, e.md5Sum, e.length)];
        sequenceId := sequenceId[e.name := seqId'];
        seqId' := seqId' + 1;
      }
    }

    /** One tile's row request in the tile loop of emit_sequences
        (src/create_tile_graph.go:421-436): fatal below 48 bases, otherwise
        the body id, the body's md5sum and the length less the two tags. */
    method TileEntryOf(ps: string, m: string) returns (r: Result<Entry, Fault>)
      requires ps in tileLib && m in tileLib[ps]
      ensures r == BodyEntry(md5, Lib(), (ps, m))
    {
      var tileSeq := if m in md5SumSeq then md5SumSeq[m] else "";
      if |tileSeq| < 2 * TAG_LEN {
        return Err(TileTooShort(|tileSeq|));
      }
      var bodyMd5 := Md5SumStr(md5, tileSeq[TAG_LEN..|tileSeq| - TAG_LEN]);
      var info := tileLib[ps][m];
      var bodyId := bodyMd5 + "." + ps + ".r" + FmtHex(info.rank, 0) + "+" + FmtHex(info.seedLen, 0);
      return Ok(Entry(bodyId, bodyMd5, |tileSeq| - 2 * TAG_LEN));
    }

    /** emit_graphjoin (src/create_tile_graph.go:451-531): the rows written
        and g_graphjoin_id_list afterwards, or the fault that stops the run. */
    method EmitGraphJoin(pairs: seq<TilePair>) returns (r: Result<seq<JoinRow>, Fault>)
      modifies this`graphJoinIdList
      requires InLib(tileLib, pairs)
      ensures r.Ok? <==> Joins(md5, Lib(), sequenceId, startGraphJoinId, pairs).Ok?
      ensures r.Ok? ==> && r.value == Joins(md5, Lib(), sequenceId, startGraphJoinId, pairs).value.rows
                        && graphJoinIdList == Joins(md5, Lib(), sequenceId, startGraphJoinId, pairs).value.idList
      ensures r.Err? ==> Joins(md5, Lib(), sequenceId, startGraphJoinId, pairs) == Err(r.error)
    {
      ghost var rs := AllNames(md5, Lib(), pairs);
      graphJoinIdList := [];
      var gjId := startGraphJoinId;
      var seen: set<string> := {};
      ghost var keys: seq<string> := [];
      var rows: seq<JoinRow> := [];
      var k := 0;
      while k < |pairs|
        invariant 0 <= k <= |pairs|
        invariant JoinsOver(sequenceId, startGraphJoinId, rs[..k]) == Ok(JoinState(gjId, seen, keys, rows, graphJoinIdList))
      {
        var n := ComputeNames(pairs[k].0, pairs[k].1);
        assert n == rs[k];
        ghost var st := JoinState(gjId, seen, keys, rows, graphJoinIdList);
        JoinsStep(sequenceId, startGraphJoinId, rs, k, st);
        if n.Err? {
          return Err(n.error);
        }
        gjId, seen, keys, rows := JoinTileEdges(n.value, gjId, seen, keys, rows);
        k := k + 1;
      }
      assert rs[..k] == rs;
      return Ok(rows);
    }

    /** Both edges of one tile (src/create_tile_graph.go:488-526): look up
        the three sequence ids (0 when absent) and make the guarded write
        for the leading anchor's edge, then for the trailing anchor's. */
    method JoinTileEdges(t: Names, gjId: int, seen: set<string>, ghost keys: seq<string>, rows: seq<JoinRow>)
      returns (gjId': int, seen': set<string>, ghost keys': seq<string>, rows': seq<JoinRow>)
      modifies this`graphJoinIdList
      ensures JoinState(gjId', seen', keys', rows', graphJoinIdList)
           == JoinTile(JoinState(gjId, seen, keys, rows, old(graphJoinIdList)), sequenceId, t)
    {
      var pfxSeq := if t.pfxId in sequenceId then sequenceId[t.pfxId] else 0;
      var sfxSeq := if t.sfxId in sequenceId then sequenceId[t.sfxId] else 0;
      var bodySeq := if t.bodyId in sequenceId then sequenceId[t.bodyId] else 0;
      var len := |t.pfxTag| + |t.body| + |t.sfxTag|;
      var row := if LexLess(t.pfxId, t.bodyId) then JoinRow(0, pfxSeq, 23, false, bodySeq, 0, true)
                 else JoinRow(0, bodySeq, 0, true, pfxSeq, 23, false);
      gjId', seen', keys', rows' := PutEdge(gjId, seen, keys, rows, FmtHex(pfxSeq, 0) + ":" + FmtHex(bodySeq, 0), row);
      row := if LexLess(t.bodyId, t.sfxId) then JoinRow(0, bodySeq, len - 49, false, sfxSeq, 0, true)
             else JoinRow(0, sfxSeq, 0, true, bodySeq, len - 49, false);
      gjId', seen', keys', rows' := PutEdge(gjId', seen', keys', rows', FmtHex(sfxSeq, 0) + ":" + FmtHex(bodySeq, 0), row);
    }

    /** The guarded write emit_graphjoin makes for each edge
        (src/create_tile_graph.go:493-508 and 511-526): when the key is new,
        write the row under gj_id, list gj_id, count on and mark the key. */
    method PutEdge(gjId: int, seen: set<string>, ghost keys: seq<string>, rows: seq<JoinRow>, key: string, row: JoinRow)
      returns (gjId': int, seen': set<string>, ghost keys': seq<string>, rows': seq<JoinRow>)
      modifies this`graphJoinIdList
      ensures JoinState(gjId', seen', keys', rows', graphJoinIdList)
           == AddEdge(JoinState(gjId, seen, keys, rows, old(graphJoinIdList)), key, row)
    {
      gjId', seen', keys', rows' := gjId, seen, keys, rows;
      if key !in seen {
        rows' := rows + [row.(id := gjId)];
        graphJoinIdList := graphJoinIdList + [gjId];
        gjId' := gjId + 1;
        seen' := seen + {key};
        keys' := keys + [key];
      }
    }

    /** emit_graphjoin_variantset (src/create_tile_graph.go:533-538): one
        row per listed GraphJoin id, in list order. */
    method EmitGraphJoinVariantSet() returns (rows: seq<(int, int)>)
      ensures rows == VariantSetRows(graphJoinIdList, variantSetId)
    {
      rows := [];
      var i := 0;
      while i < |graphJoinIdList|
        invariant 0 <= i <= |graphJoinIdList|
        invariant rows == VariantSetRows(graphJoinIdList[..i], variantSetId)
      {
        rows := rows + [(graphJoinIdList[i], variantSetId)];
        i := i + 1;
      }
      assert graphJoinIdList[..i] == graphJoinIdList;
    }
  }
}
