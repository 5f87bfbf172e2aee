/** fj2allele's global state (src/fj2allele.go:69-132) as one object, and
    the steps of _main that change it: import_sequence, the CallSet loop and
    import_fastj for each input. */
module Fj2Allele {
  import opened Wrappers
  import opened Hex
  import opened Text
  import opened Md5
  import opened TagId
  import opened FastJ
  import opened AllelePath
  import Emit

  class AlleleBuilder {
    /** The digest, fixed for a run. */
    const md5: Md5Fn
    /** The start-allele-id and start-callset-id flags. */
    const startAlleleId: int
    const startCallsetId: int

    /** g_md5_seqid_map and g_callset. */
    var md5SeqId: map<string, int>
    var callset: map<string, CallSet>
    /** g_ALLELE_ID, g_allele, g_allele_path_item and g_allele_call. */
    var alleleId: int
    var allele: map<string, AlleleRec>
    var allelePathItem: map<string, seq<PathItem>>
    var alleleCall: map<string, AlleleCall>

    /** The globals after init() and _main's flag reads. */
    constructor(md5: Md5Fn, startAlleleId: int, startCallsetId: int)
      ensures this.md5 == md5 && this.startAlleleId == startAlleleId && this.startCallsetId == startCallsetId
      ensures md5SeqId == map[] && callset == map[]
      ensures State() == NoAlleles(startAlleleId) && Valid()
    {
      this.md5 := md5;
      this.startAlleleId := startAlleleId;
      this.startCallsetId := startCallsetId;
      md5SeqId := map[];
      callset := map[];
      alleleId := startAlleleId;
      allele := map[];
      allelePathItem := map[];
      alleleCall := map[];
      new;
      NoAllelesValid(startAlleleId);
    }

    /** The four allele globals import_fastj changes. */
    function State(): Alleles
      reads this`alleleId, this`allele, this`allelePathItem, this`alleleCall
    {
      Alleles(alleleId, allele, allelePathItem, alleleCall)
    }

    /** The allele invariant every import keeps. */
    predicate Valid()
      reads this`alleleId, this`allele, this`allelePathItem, this`alleleCall
    {
      AllelesValid(State(), startAlleleId)
    }

    /** import_sequence (src/fj2allele.go:382-410): each non-empty line maps
        its md5sum column to its ID column; the first bad line stops the
        load with the rows before it kept. */
    method ImportSequence(lines: seq<string>) returns (stop: Option<Fault>)
      modifies this`md5SeqId
      ensures LoadSequence(old(md5SeqId), lines) == SeqLoad(md5SeqId, stop)
    {
      ghost var m0 := md5SeqId;
      ghost var pls := SeqLines(lines);
      var lineNo := -1;
      var i := 0;
      while i < |lines|
        invariant 0 <= i <= |lines| && lineNo == i - 1
        invariant LoadRows(m0, pls[..i]) == SeqLoad(md5SeqId, None)
        decreases |lines| - i
      {
        lineNo := lineNo + 1;
        LoadRowsStep(m0, pls, i);
        var pl := ReadSequenceLine(lines[i], lineNo);
        assert pl == pls[i];
        match pl {
          case Blank =>
          case BadSeqLine(f) =>
            LoadStopSticks(m0, pls, i + 1);
            return Some(f);
          case SeqIdRow(m5, id) =>
            md5SeqId := md5SeqId[m5 := id];
        }
        i := i + 1;
      }
      assert pls[..i] == pls;
      stop := None;
    }

    /** The body of import_sequence's loop for one line
        (src/fj2allele.go:390-404), up to the map update. */
    static method ReadSequenceLine(l: string, lineNo: int) returns (pl: SeqLine)
      ensures pl == ParseSeqLine(l, lineNo)
    {
      if |l| == 0 {
        return Blank;
      }
      var lineParts := Split(l, ',');
      var id := ParseInt(lineParts[0], 10);
      if id.None? {
        return BadSeqLine(BadDecimal(lineNo, lineParts[0]));
      }
      if |lineParts| < 5 {
        return BadSeqLine(MissingColumn(lineNo));
      }
      var m5 := lineParts[3];
      var seqlen := ParseInt(lineParts[4], 10);
      if seqlen.None? {
        return BadSeqLine(BadDecimal(lineNo, lineParts[4]));
      }
      return SeqIdRow(m5, id.value);
    }

    /** The CallSet loop of _main (src/fj2allele.go:556-563): input i, as
        "name,file" or a bare name, registers CallSet{start + i, name, name}. */
    method PopulateCallsets(inputs: seq<string>)
      modifies this`callset
      ensures callset == Callsets(old(callset), startCallsetId, inputs)
    {
      ghost var c0 := callset;
      for i := 0 to |inputs|
        invariant callset == Callsets(c0, startCallsetId, inputs[..i])
      {
        var name := inputs[i];
        if ',' in inputs[i] {
          var z := SplitN(inputs[i], ',', 2);
          name := z[0];
        }
        assert inputs[..i + 1][..i] == inputs[..i];
        callset := callset[name := CallSet(startCallsetId + i, name, name)];
      }
      assert inputs[..|inputs|] == inputs;
    }

    /** The first sighting of an allele key (src/fj2allele.go:212-226). */
    method InitAlleleAt(key: string, callSetId: int)
      modifies this`alleleId, this`allele, this`allelePathItem, this`alleleCall
      ensures State() == InitAllele(old(State()), key, callSetId)
    {
      if key !in allele {
        allele := allele[key := AlleleRec(alleleId, NO_VARIANT_SET, key, 0)];
        allelePathItem := allelePathItem[key := []];
        alleleCall := alleleCall[key := AlleleCall(alleleId, callSetId, PLOIDY)];
        alleleId := alleleId + 1;
      }
    }

    /** One tile's bases are complete (src/fj2allele.go:228-287 and
        308-366): slice, check the md5sum, look the three parts up and
        extend the previous header's path. */
    method AppendTileItems(prev: APrev, curseq: seq<string>) returns (r: Outcome<Fault>)
      modifies this`allelePathItem
      ensures r.Pass? <==> AppendTile(md5, md5SeqId, old(State()), prev, curseq).Ok?
      ensures r.Pass? ==> State() == AppendTile(md5, md5SeqId, old(State()), prev, curseq).value
      ensures r.Fail? ==> AppendTile(md5, md5SeqId, old(State()), prev, curseq) == Err(r.error)
    {
      var tileSeq := Concat(curseq);
      if |tileSeq| < 2 * TAG_LEN {
        return Fail(TileTooShort(|tileSeq|));
      }
      var pfxTag := tileSeq[..TAG_LEN];
      var sfxTag := tileSeq[|tileSeq| - TAG_LEN..];
      var bodySeq := tileSeq[TAG_LEN..|tileSeq| - TAG_LEN];
      ghost var hs := HashesOf(md5, tileSeq);
      assert bodySeq == Emit.Body(tileSeq);
      var md5TileSeq := Md5SumStr(md5, tileSeq);
      if md5TileSeq != prev.md5sum {
        return Fail(HashMismatch(prev.md5sum, md5TileSeq));
      }
      var aId := if prev.key in allele then allele[prev.key].id else 0;
      var allelePath := if prev.key in allelePathItem then allelePathItem[prev.key] else [];
      ghost var path0 := allelePath;
      var pfxMd5 := Md5SumStr(md5, pfxTag);
      if pfxMd5 !in md5SeqId {
        return Fail(LookupMiss(pfxMd5));
      }
      var pfxId := md5SeqId[pfxMd5];
      var bodyMd5 := Md5SumStr(md5, bodySeq);
      if bodyMd5 !in md5SeqId {
        return Fail(LookupMiss(bodyMd5));
      }
      var bodyId := md5SeqId[bodyMd5];
      var sfxMd5 := Md5SumStr(md5, sfxTag);
      if sfxMd5 !in md5SeqId {
        return Fail(LookupMiss(sfxMd5));
      }
      var sfxId := md5SeqId[sfxMd5];
      var path := AppendItems(allelePath, aId, pfxId, bodyId, sfxId);
      allelePathItem := allelePathItem[prev.key := path];
      return Pass;
    }

    /** A header line of import_fastj (src/fj2allele.go:190-307): parse
        the tileID and the allele index, initialise the header's allele,
        then append the previous tile if bases were gathered; the result is
        the new prev. */
    method HeaderStep(name: string, h: Header, prev: APrev, curseq: seq<string>) returns (r: Result<APrev, Fault>)
      modifies this`alleleId, this`allele, this`allelePathItem, this`alleleCall
      ensures var s := HeaderEvent(md5, md5SeqId, callset, name, old(State()), prev, h, curseq);
        && (r.Ok? <==> s.Ok?)
        && (r.Ok? ==> s.value == (State(), r.value))
        && (r.Err? ==> s == Err(r.error))
    {
      ghost var st0 := State();
      var pk := ReadHeaderKey(name, h);
      if pk.Err? {
        return Err(pk.error);
      }
      var key := pk.value;
      var callsetId := if name in callset then callset[name].id else 0;
      HeaderLineStep(md5, md5SeqId, callset, name, st0, prev, h, curseq, key);
      var c := StartAllele(key, callsetId, prev, curseq);
      if c.Fail? {
        return Err(c.error);
      }
      return Ok(APrev(h.md5sum, key));
    }

    /** The header's allele is initialised, then the bases gathered for the
        previous header are appended. */
    method StartAllele(key: string, callsetId: int, prev: APrev, curseq: seq<string>) returns (c: Outcome<Fault>)
      modifies this`alleleId, this`allele, this`allelePathItem, this`alleleCall
      ensures var a := AppendPending(md5, md5SeqId, InitAllele(old(State()), key, callsetId), prev, curseq);
        && (c.Pass? <==> a.Ok?)
        && (c.Pass? ==> State() == a.value)
        && (c.Fail? ==> a == Err(c.error))
    {
      InitAlleleAt(key, callsetId);
      c := AppendPendingItems(prev, curseq);
    }

    /** The tileID and allele index of a header (src/fj2allele.go:200-212)
        as the allele key "name:index". */
    static method ReadHeaderKey(name: string, h: Header) returns (r: Result<string, Fault>)
      ensures r == HeaderKey(name, h)
    {
      var pk := ParseTileId(h.tileId);
      if pk.Err? {
        return Err(pk.error);
      }
      var tileAllele := ParseInt(pk.value.variantToken, 16);
      if tileAllele.None? {
        return Err(BadHexToken(pk.value.variantToken));
      }
      return Ok(name + ":" + FmtDec(tileAllele.value));
    }

    /** The bases gathered since the previous header, if any, appended to
        its path. */
    method AppendPendingItems(prev: APrev, curseq: seq<string>) returns (r: Outcome<Fault>)
      modifies this`allelePathItem
      ensures r.Pass? <==> AppendPending(md5, md5SeqId, old(State()), prev, curseq).Ok?
      ensures r.Pass? ==> State() == AppendPending(md5, md5SeqId, old(State()), prev, curseq).value
      ensures r.Fail? ==> AppendPending(md5, md5SeqId, old(State()), prev, curseq) == Err(r.error)
    {
      r := Pass;
      if |curseq| > 0 {
        r := AppendTileItems(prev, curseq);
      }
    }

    /** import_fastj(name, file) over the file's lines
        (src/fj2allele.go:171-369): the allele maps afterwards are what the
        event model computes, and the run fails exactly when it does, with
        the same fault. */
    method ImportFastj(name: string, lines: seq<string>, parse: HeaderParser) returns (r: Outcome<Fault>)
      modifies this`alleleId, this`allele, this`allelePathItem, this`alleleCall
      ensures r.Pass? <==> ReplayFile(md5, md5SeqId, callset, name, old(State()), lines, parse).Ok?
      ensures r.Pass? ==> State() == ReplayFile(md5, md5SeqId, callset, name, old(State()), lines, parse).value
      ensures r.Fail? ==> ReplayFile(md5, md5SeqId, callset, name, old(State()), lines, parse) == Err(r.error)
      ensures r.Pass? && old(Valid()) ==> Valid()
    {
      ghost var st00 := State();
      ghost var goal := ReplayFile(md5, md5SeqId, callset, name, State(), lines, parse);
      var prev := NoAPrev;
      var curseq: seq<string> := [];
      var i := 0;
      assert lines[0..] == lines;
      while i < |lines|
        invariant 0 <= i <= |lines|
        invariant Replay(md5, md5SeqId, callset, name, State(), prev, ScanFrom(lines[i..], curseq, parse)) == goal
        decreases |lines| - i
      {
        var fail;
        prev, curseq, fail := ImportLine(name, lines, i, parse, prev, curseq, goal);
        if fail.Some? {
          return Fail(fail.value);
        }
        i := i + 1;
      }
      assert ScanFrom(lines[i..], curseq, parse) == [EndOfInput(curseq)];
      r := FinishFile(name, prev, curseq, goal);
      if r.Pass? && AllelesValid(st00, startAlleleId) {
        ReplayFileKeepsValid(md5, md5SeqId, callset, name, st00, startAlleleId, lines, parse);
      }
    }

    /** One turn of import_fastj's loop over line i: a blank line is
        skipped, a header line is handled by HeaderStep, any other line is
        gathered as bases; either the replay goes on from line i + 1 or it
        ends with the fault the goal says. */
    method ImportLine(name: string, lines: seq<string>, i: nat, parse: HeaderParser,
                      prev: APrev, curseq: seq<string>, ghost goal: Result<Alleles, Fault>)
      returns (prev': APrev, curseq': seq<string>, fail: Option<Fault>)
      modifies this`alleleId, this`allele, this`allelePathItem, this`alleleCall
      requires i < |lines|
      requires Replay(md5, md5SeqId, callset, name, State(), prev, ScanFrom(lines[i..], curseq, parse)) == goal
      ensures fail.None? ==> Replay(md5, md5SeqId, callset, name, State(), prev', ScanFrom(lines[i + 1..], curseq', parse)) == goal
      ensures fail.Some? ==> goal == Err(fail.value)
    {
      var l := lines[i];
      assert lines[i..][1..] == lines[i + 1..];
      if |l| == 0 {
        return prev, curseq, None;
      }
      if l[0] == '>' {
        var ph := parse(l[1..]);
        if ph.None? {
          return prev, curseq, Some(BadHeaderJson);
        }
        var h := ph.value;
        ghost var evs := ScanFrom(lines[i..], curseq, parse);
        assert evs == [HeaderLine(h, curseq)] + ScanFrom(lines[i + 1..], [], parse);
        assert evs[1..] == ScanFrom(lines[i + 1..], [], parse);
        var s := HeaderStep(name, h, prev, curseq);
        if s.Err? {
          return prev, curseq, Some(s.error);
        }
        return s.value, [], None;
      }
      return prev, curseq + [l], None;
    }

    /** The end of import_fastj: the bases gathered after the last header
        are appended to its path. */
    method FinishFile(name: string, prev: APrev, curseq: seq<string>, ghost goal: Result<Alleles, Fault>)
      returns (r: Outcome<Fault>)
      modifies this`allelePathItem
      requires Replay(md5, md5SeqId, callset, name, State(), prev, [EndOfInput(curseq)]) == goal
      ensures r.Pass? <==> goal.Ok?
      ensures r.Pass? ==> State() == goal.value
      ensures r.Fail? ==> goal == Err(r.error)
    {
      ghost var st0 := State();
      r := AppendPendingItems(prev, curseq);
      if r.Fail? {
        return;
      }
      assert Step(md5, md5SeqId, callset, name, st0, prev, EndOfInput(curseq)) == Ok((State(), prev));
    }
  }

  /** The appends of one tile to a path (src/fj2allele.go:244-285): the
      leading tag only at index 0, then the body and the trailing tag, each
      at the next index. */
  method AppendItems(allelePath: seq<PathItem>, aId: int, pfxId: int, bodyId: int, sfxId: int)
    returns (path: seq<PathItem>)
    ensures path == Extend(allelePath, aId, pfxId, bodyId, sfxId)
  {
    path := allelePath;
    var curIdx := |path|;
    if curIdx == 0 {
      path := path + [Item(aId, curIdx, pfxId)];
      curIdx := curIdx + 1;
    }
    path := path + [Item(aId, curIdx, bodyId)];
    curIdx := curIdx + 1;
    path := path + [Item(aId, curIdx, sfxId)];
    curIdx := curIdx + 1;
  }
}
