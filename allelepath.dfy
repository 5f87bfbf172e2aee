/** fj2allele's model of a sample (src/fj2allele.go): the Sequence table it
    reads (md5sum -> SequenceID), the CallSet per input, and the alleles it
    replays from FastJ, each a path of Sequence ids (leading tag, body,
    trailing tag, ...), as functions over snapshots of its global maps. */
module AllelePath {
  import opened Wrappers
  import opened Hex
  import opened Text
  import opened Md5
  import opened TagId
  import opened FastJ
  import opened MapFold
  import Emit

  /** The rows fj2allele writes (src/fj2allele.go:84-112). */
  datatype CallSet = CallSet(id: int, name: string, sampleId: string)
  datatype AlleleRec = AlleleRec(id: int, variantSetId: int, name: string, curPathIdx: int)
  datatype PathItem = PathItem(alleleId: int, pathItemIndex: int, sequenceId: int,
                               start: int, length: int, strandIsForward: string)
  datatype AlleleCall = AlleleCall(alleleId: int, callSetId: int, ploidy: int)

  /** The constant fields of every new allele, call and path item. */
  const NO_VARIANT_SET: int := -1
  const PLOIDY: int := 1
  const WHOLE_LENGTH: int := -1
  const STRAND_FORWARD: string := "'TRUE'"

  /** g_ALLELE_ID (the next allele id), g_allele, g_allele_path_item and
      g_allele_call, all keyed by "name:alleleIndex". */
  datatype Alleles = Alleles(nextId: int, alleles: map<string, AlleleRec>,
                             paths: map<string, seq<PathItem>>, calls: map<string, AlleleCall>)

  // ---------------------------------------------------------------------
  // import_sequence (src/fj2allele.go:382-411)

  /** What one line of the Sequence CSV "ID,fastaID,name,md5checksum,length"
      contributes. */
  datatype SeqLine = Blank | SeqIdRow(md5sum: string, id: Int64) | BadSeqLine(fault: Fault)

  /** One line, numbered from 0 counting blank lines: the ID must be
      decimal (a returned error), fields 1-4 must exist (an index panic), and
      the length must be decimal (a returned error). */
  function ParseSeqLine(l: string, lineNo: int): SeqLine
  {
    if |l| == 0 then Blank
    else
      var parts := Split(l, ',');
      match ParseInt(parts[0], 10)
      case None => BadSeqLine(BadDecimal(lineNo, parts[0]))
      case Some(id) =>
        if |parts| < 5 then BadSeqLine(MissingColumn(lineNo))
        else if ParseInt(parts[4], 10).None? then BadSeqLine(BadDecimal(lineNo, parts[4]))
        else SeqIdRow(parts[3], id)
  }

  /** A stop is a runtime panic (which ends the program) exactly when a
      column is missing; the other stops are the error import_sequence
      returns, which _main ignores (src/fj2allele.go:551). */
  predicate Panics(f: Fault)
  {
    f.MissingColumn?
  }

  /** What each line contributes, numbered as the loop counts them. */
  function SeqLines(lines: seq<string>): (pls: seq<SeqLine>)
    ensures |pls| == |lines|
    ensures forall i :: 0 <= i < |lines| ==> pls[i] == ParseSeqLine(lines[i], i)
  {
    seq(|lines|, i requires 0 <= i < |lines| => ParseSeqLine(lines[i], i))
  }

  /** g_md5_seqid_map after the load, and why it stopped early, if it did. */
  datatype SeqLoad = SeqLoad(ids: map<string, int>, stop: Option<Fault>)

  /** The load over the parsed lines, as a fold over prefixes: the first
      bad line stops it, keeping the rows before. */
  function LoadRows(m: map<string, int>, pls: seq<SeqLine>): SeqLoad
    decreases |pls|
  {
    if |pls| == 0 then SeqLoad(m, None)
    else
      var r := LoadRows(m, pls[..|pls| - 1]);
      if r.stop.Some? then r
      else
        match pls[|pls| - 1]
        case Blank => r
        case SeqIdRow(k, id) => SeqLoad(r.ids[k := id], None)
        case BadSeqLine(f) => SeqLoad(r.ids, Some(f))
  }

  /** import_sequence over the lines of the Sequence file. */
  function LoadSequence(m: map<string, int>, lines: seq<string>): SeqLoad
  {
    LoadRows(m, SeqLines(lines))
  }

  /** The index of the first bad line, or the number of lines when there
      is none. */
  function FirstStop(pls: seq<SeqLine>): (j: nat)
    ensures j <= |pls|
    ensures forall i :: 0 <= i < j ==> !pls[i].BadSeqLine?
    ensures j < |pls| ==> pls[j].BadSeqLine?
    decreases |pls|
  {
    if |pls| == 0 then 0
    else
      var init := pls[..|pls| - 1];
      var j := FirstStop(init);
      if j < |init| then j
      else if pls[|pls| - 1].BadSeqLine? then |init|
      else |pls|
  }

  /** The (md5sum, id) rows of the lines, in order. */
  function IdRows(pls: seq<SeqLine>): seq<(string, int)>
    decreases |pls|
  {
    if |pls| == 0 then []
    else
      IdRows(pls[..|pls| - 1]) +
      match pls[|pls| - 1]
      case SeqIdRow(k, id) => [(k, id as int)]
      case _ => []
  }

  // ---------------------------------------------------------------------
  // The CallSet loop of _main (src/fj2allele.go:556-563)

  /** The sample name of an input "name,file" (or of a bare file name). */
  function InputName(input: string): (name: string)
    ensures ',' !in name
    ensures ',' !in input ==> name == input
  {
    if ',' in input then SplitN(input, ',', 2)[0] else input
  }

  /** g_callset after inputs[0..] are registered: input i gets id start + i,
      and a later input with the same name overwrites an earlier one. */
  function Callsets(m: map<string, CallSet>, start: int, inputs: seq<string>): map<string, CallSet>
    decreases |inputs|
  {
    if |inputs| == 0 then m
    else
      var i := |inputs| - 1;
      var name := InputName(inputs[i]);
      Callsets(m, start, inputs[..i])[name := CallSet(start + i, name, name)]
  }

  /** The CallSet row input i would write. */
  function CallsetRow(start: int, inputs: seq<string>, i: int): (string, CallSet)
    requires 0 <= i < |inputs|
  {
    (InputName(inputs[i]), CallSet(start + i, InputName(inputs[i]), InputName(inputs[i])))
  }

  function CallsetRows(start: int, inputs: seq<string>): (rows: seq<(string, CallSet)>)
    ensures |rows| == |inputs|
    ensures forall i :: 0 <= i < |inputs| ==> rows[i] == CallsetRow(start, inputs, i)
  {
    seq(|inputs|, i requires 0 <= i < |inputs| => CallsetRow(start, inputs, i))
  }

  /** g_callset[name].Id: zero for a name without a CallSet. */
  function CallsetIdOf(callsets: map<string, CallSet>, name: string): int
  {
    if name in callsets then callsets[name].id else 0
  }

  // ---------------------------------------------------------------------
  // import_fastj (src/fj2allele.go:171-369)

  /** The allele key: the sample name, ':' and the variant in decimal. */
  function AlleleKey(name: string, variant: Int64): string
  {
    name + ":" + FmtDec(variant)
  }

  /** First sighting of an allele key (src/fj2allele.go:212-226): it gets the
      next allele id, an empty path and a call with ploidy 1 for the
      sample's CallSet; a key already known changes nothing. */
  function InitAllele(st: Alleles, key: string, callSetId: int): (r: Alleles)
  {
    if key in st.alleles then st
    else
      Alleles(st.nextId + 1,
              st.alleles[key := AlleleRec(st.nextId, NO_VARIANT_SET, key, 0)],
              st.paths[key := []],
              st.calls[key := AlleleCall(st.nextId, callSetId, PLOIDY)])
  }

  /** g_allele[key].Id and g_allele_path_item[key], zero values when absent. */
  function AlleleIdOf(st: Alleles, key: string): int
  {
    if key in st.alleles then st.alleles[key].id else 0
  }

  function PathOf(st: Alleles, key: string): seq<PathItem>
  {
    if key in st.paths then st.paths[key] else []
  }

  /** An item at position `index` of an allele's path. */
  function Item(alleleId: int, index: int, seqId: int): PathItem
  {
    PathItem(alleleId, index, seqId, 0, WHOLE_LENGTH, STRAND_FORWARD)
  }

  /** One tile appended to a path: the leading tag only when the path is
      empty, then the body and the trailing tag. */
  function Extend(path: seq<PathItem>, alleleId: int, pfx: int, body: int, sfx: int): seq<PathItem>
  {
    var p := if |path| == 0 then path + [Item(alleleId, |path|, pfx)] else path;
    p + [Item(alleleId, |p|, body), Item(alleleId, |p| + 1, sfx)]
  }

  /** The md5sums fj2allele compares and looks up for one tile. */
  datatype TileHashes = TileHashes(whole: string, pfx: string, body: string, sfx: string)

  function HashesOf(md5: Md5Fn, tileSeq: string): TileHashes
    requires |tileSeq| >= 2 * TAG_LEN
  {
    TileHashes(Md5Sum(md5, tileSeq), Md5Sum(md5, tileSeq[..TAG_LEN]),
               Md5Sum(md5, Emit.Body(tileSeq)), Md5Sum(md5, tileSeq[|tileSeq| - TAG_LEN..]))
  }

  /** The prev_* values fj2allele uses: the declared md5sum and the allele
      key of the last header; both empty before the first one. */
  datatype APrev = APrev(md5sum: string, key: string)

  const NoAPrev: APrev := APrev("", "")

  /** The work for one tile once its bases are complete
      (src/fj2allele.go:228-287 and 308-366): slice the tags and the body (a
      panic below 48 bases), check the declared md5sum, look up the leading
      tag, the body and the trailing tag in the Sequence map (a miss is
      fatal), and extend the path of the previous header's allele. */
  function AppendTile(md5: Md5Fn, ids: map<string, int>, st: Alleles, prev: APrev, curseq: seq<string>): Result<Alleles, Fault>
  {
    var tileSeq := Concat(curseq);
    if |tileSeq| < 2 * TAG_LEN then Err(TileTooShort(|tileSeq|))
    else
      var hs := HashesOf(md5, tileSeq);
      if hs.whole != prev.md5sum then Err(HashMismatch(prev.md5sum, hs.whole))
      else if hs.pfx !in ids then Err(LookupMiss(hs.pfx))
      else if hs.body !in ids then Err(LookupMiss(hs.body))
      else if hs.sfx !in ids then Err(LookupMiss(hs.sfx))
      else
        var path := Extend(PathOf(st, prev.key), AlleleIdOf(st, prev.key), ids[hs.pfx], ids[hs.body], ids[hs.sfx]);
        Ok(st.(paths := st.paths[prev.key := path]))
  }

  function AppendPending(md5: Md5Fn, ids: map<string, int>, st: Alleles, prev: APrev, pending: seq<string>): Result<Alleles, Fault>
  {
    if |pending| > 0 then AppendTile(md5, ids, st, prev, pending) else Ok(st)
  }

  /** fj2allele's import_fastj at one event for sample `name`.  At a
      header the tileID is parsed (its fourth part in hex is the allele
      index), the header's allele is initialised, and only then is the
      previous tile appended. */
  function Step(md5: Md5Fn, ids: map<string, int>, callsets: map<string, CallSet>, name: string,
                st: Alleles, prev: APrev, ev: Event): Result<(Alleles, APrev), Fault>
  {
    match ev
    case BadJson => Err(BadHeaderJson)
    case EndOfInput(pending) =>
      (match AppendPending(md5, ids, st, prev, pending)
       case Err(f) => Err(f)
       case Ok(st') => Ok((st', prev)))
    case HeaderLine(h, pending) => HeaderEvent(md5, ids, callsets, name, st, prev, h, pending)
  }

  /** A header line: its allele is initialised, then the bases gathered
      for the previous header are appended; the header becomes prev. */
  function HeaderEvent(md5: Md5Fn, ids: map<string, int>, callsets: map<string, CallSet>, name: string,
                       st: Alleles, prev: APrev, h: Header, pending: seq<string>): Result<(Alleles, APrev), Fault>
  {
    match HeaderKey(name, h)
    case Err(f) => Err(f)
    case Ok(key) =>
      var st1 := InitAllele(st, key, CallsetIdOf(callsets, name));
      match AppendPending(md5, ids, st1, prev, pending)
      case Err(f) => Err(f)
      case Ok(st2) => Ok((st2, APrev(h.md5sum, key)))
  }

  /** A header with a well-formed tileID initialises its allele, then
      appends the pending bases. */
  lemma HeaderLineStep(md5: Md5Fn, ids: map<string, int>, callsets: map<string, CallSet>, name: string,
                       st: Alleles, prev: APrev, h: Header, pending: seq<string>, key: string)
    requires HeaderKey(name, h) == Ok(key)
    ensures var st1 := InitAllele(st, key, CallsetIdOf(callsets, name));
      var a := AppendPending(md5, ids, st1, prev, pending);
      && (a.Err? ==> HeaderEvent(md5, ids, callsets, name, st, prev, h, pending) == Err(a.error))
      && (a.Ok? ==> HeaderEvent(md5, ids, callsets, name, st, prev, h, pending) == Ok((a.value, APrev(h.md5sum, key))))
  {
  }

  /** The allele key of a header: its tileID must split into four parts
      and the fourth must be hex. */
  function HeaderKey(name: string, h: Header): Result<string, Fault>
  {
    match ParseTileId(h.tileId)
    case Err(f) => Err(f)
    case Ok(k) =>
      match ParseInt(k.variantToken, 16)
      case None => Err(BadHexToken(k.variantToken))
      case Some(v) => Ok(AlleleKey(name, v))
  }

  /** import_fastj over the events of one file. */
  function Replay(md5: Md5Fn, ids: map<string, int>, callsets: map<string, CallSet>, name: string,
                  st: Alleles, prev: APrev, evs: seq<Event>): Result<Alleles, Fault>
    decreases |evs|
  {
    if |evs| == 0 then Ok(st)
    else
      match Step(md5, ids, callsets, name, st, prev, evs[0])
      case Err(f) => Err(f)
      case Ok(next) => Replay(md5, ids, callsets, name, next.0, next.1, evs[1..])
  }

  /** import_fastj(name, file) over the file's lines. */
  function ReplayFile(md5: Md5Fn, ids: map<string, int>, callsets: map<string, CallSet>, name: string,
                      st: Alleles, lines: seq<string>, parse: HeaderParser): Result<Alleles, Fault>
  {
    Replay(md5, ids, callsets, name, st, NoAPrev, Scan(lines, parse))
  }

  // ---------------------------------------------------------------------
  // The allele invariant

  /** Every item of an allele's path sits at its own index, belongs to the
      allele, starts at 0 with length -1 on the forward strand, and the path
      is empty or one leading tag followed by (body, trailing tag) pairs. */
  predicate PathValid(path: seq<PathItem>, alleleId: int)
  {
    && (|path| == 0 || |path| % 2 == 1)
    && forall i :: 0 <= i < |path| ==> path[i] == Item(alleleId, i, path[i].sequenceId)
  }

  /** The allele invariant: the three maps share their keys; allele ids are
      distinct, at least `start` and below the counter, and there are
      exactly as many alleles as ids handed out (so the ids are
      start .. nextId-1); each allele is named by its key with no
      VariantSet, its call has ploidy 1 and the allele's id, and its path
      is valid. */
  predicate AllelesValid(st: Alleles, start: int)
  {
    && KeysAgree(st)
    && |st.alleles.Keys| == st.nextId - start
    && RecordsValid(st.alleles, start, st.nextId)
    && IdsDistinct(st.alleles)
    && CallsValid(st.alleles, st.calls)
    && PathsValid(st.alleles, st.paths)
  }

  predicate KeysAgree(st: Alleles)
  {
    st.alleles.Keys == st.paths.Keys && st.alleles.Keys == st.calls.Keys
  }

  predicate RecordsValid(alleles: map<string, AlleleRec>, start: int, next: int)
  {
    forall k :: k in alleles ==>
      && alleles[k] == AlleleRec(alleles[k].id, NO_VARIANT_SET, k, 0)
      && start <= alleles[k].id < next
  }

  predicate IdsDistinct(alleles: map<string, AlleleRec>)
  {
    forall k1, k2 :: k1 in alleles && k2 in alleles && k1 != k2 ==> alleles[k1].id != alleles[k2].id
  }

  predicate CallsValid(alleles: map<string, AlleleRec>, calls: map<string, AlleleCall>)
  {
    forall k :: k in calls && k in alleles ==> calls[k] == AlleleCall(alleles[k].id, calls[k].callSetId, PLOIDY)
  }

  predicate PathsValid(alleles: map<string, AlleleRec>, paths: map<string, seq<PathItem>>)
  {
    forall k :: k in paths && k in alleles ==> PathValid(paths[k], alleles[k].id)
  }

  /** A prev that could pass the md5sum check names a known allele. */
  predicate PrevKnown(st: Alleles, prev: APrev)
  {
    |prev.md5sum| == 32 ==> prev.key in st.alleles
  }

  /** Nothing is forgotten or rewritten: every allele and call stays as it
      was, every path is a prefix of its later self, and the counter never
      goes down. */
  predicate Extends(st: Alleles, st': Alleles)
  {
    && st.nextId <= st'.nextId
    && (forall k :: k in st.alleles ==> k in st'.alleles && st'.alleles[k] == st.alleles[k])
    && (forall k :: k in st.calls ==> k in st'.calls && st'.calls[k] == st.calls[k])
    && (forall k :: k in st.paths ==> k in st'.paths && st.paths[k] <= st'.paths[k])
  }

  /** The allele maps before any file is read, with the counter at the
      first allele id. */
  function NoAlleles(start: int): Alleles
  {
    Alleles(start, map[], map[], map[])
  }

  // ---------------------------------------------------------------------
  // Lemmas: import_sequence

  /** A line gives a row exactly when it is non-empty, its ID is decimal, it
      has at least five fields and its length is decimal; the row maps
      field 3 (the md5sum) to the ID. */
  lemma SeqLineRow(l: string, lineNo: int)
    ensures ParseSeqLine(l, lineNo).SeqIdRow? <==>
      |l| > 0 && var parts := Split(l, ',');
      ParseInt(parts[0], 10).Some? && |parts| >= 5 && ParseInt(parts[4], 10).Some?
    ensures ParseSeqLine(l, lineNo).SeqIdRow? ==> var parts := Split(l, ',');
      ParseSeqLine(l, lineNo).md5sum == parts[3] && ParseInt(parts[0], 10) == Some(ParseSeqLine(l, lineNo).id)
  {
  }

  /** The load keeps the rows before the first bad line, a later row
      overwriting an earlier one with the same md5sum, and stops with that
      line's fault. */
  lemma {:induction false} LoadRowsIs(m: map<string, int>, pls: seq<SeqLine>)
    ensures var j := FirstStop(pls);
      && LoadRows(m, pls).ids == Overwrite(m, IdRows(pls[..j]))
      && LoadRows(m, pls).stop == if j < |pls| then Some(pls[j].fault) else None
    decreases |pls|
  {
    if |pls| > 0 {
      var init := pls[..|pls| - 1];
      LoadRowsIs(m, init);
      if FirstStop(init) < |init| {
        LoadRowsStopped(m, pls);
      } else {
        assert init[..FirstStop(init)] == init;
        LoadRowsLast(m, pls);
      }
    }
  }

  /** A load already stopped before the last line ignores it. */
  lemma LoadRowsStopped(m: map<string, int>, pls: seq<SeqLine>)
    requires |pls| > 0
    requires var init := pls[..|pls| - 1];
      var j := FirstStop(init);
      && j < |init|
      && LoadRows(m, init).ids == Overwrite(m, IdRows(init[..j]))
      && LoadRows(m, init).stop == Some(init[j].fault)
    ensures var j := FirstStop(pls);
      && LoadRows(m, pls).ids == Overwrite(m, IdRows(pls[..j]))
      && LoadRows(m, pls).stop == if j < |pls| then Some(pls[j].fault) else None
  {
    var init := pls[..|pls| - 1];
    var j0 := FirstStop(init);
    assert pls[..j0] == init[..j0];
    assert init[j0] == pls[j0];
    assert FirstStop(pls) == j0;
  }

  /** A load that reached the last line applies it. */
  lemma LoadRowsLast(m: map<string, int>, pls: seq<SeqLine>)
    requires |pls| > 0
    requires var init := pls[..|pls| - 1];
      && FirstStop(init) == |init|
      && LoadRows(m, init) == SeqLoad(Overwrite(m, IdRows(init)), None)
    ensures var j := FirstStop(pls);
      && LoadRows(m, pls).ids == Overwrite(m, IdRows(pls[..j]))
      && LoadRows(m, pls).stop == if j < |pls| then Some(pls[j].fault) else None
  {
    var n := |pls|;
    assert pls[..n] == pls;
    match pls[n - 1] {
      case Blank => LoadRowsBlank(m, pls);
      case SeqIdRow(k, id) => LoadRowsRow(m, pls, k, id);
      case BadSeqLine(f) =>
    }
  }

  lemma LoadRowsBlank(m: map<string, int>, pls: seq<SeqLine>)
    requires |pls| > 0 && pls[|pls| - 1] == Blank
    requires var init := pls[..|pls| - 1];
      && FirstStop(init) == |init|
      && LoadRows(m, init) == SeqLoad(Overwrite(m, IdRows(init)), None)
    ensures FirstStop(pls) == |pls|
    ensures LoadRows(m, pls) == SeqLoad(Overwrite(m, IdRows(pls)), None)
  {
    var init := pls[..|pls| - 1];
    assert IdRows(pls) == IdRows(init) + [];
    assert IdRows(init) + [] == IdRows(init);
  }

  lemma LoadRowsRow(m: map<string, int>, pls: seq<SeqLine>, k: string, id: Int64)
    requires |pls| > 0 && pls[|pls| - 1] == SeqIdRow(k, id)
    requires var init := pls[..|pls| - 1];
      && FirstStop(init) == |init|
      && LoadRows(m, init) == SeqLoad(Overwrite(m, IdRows(init)), None)
    ensures FirstStop(pls) == |pls|
    ensures LoadRows(m, pls) == SeqLoad(Overwrite(m, IdRows(pls)), None)
  {
    var init := pls[..|pls| - 1];
    var rows := IdRows(pls);
    assert rows == IdRows(init) + [(k, id as int)];
    assert rows[..|rows| - 1] == IdRows(init);
  }

  /** Every row comes from a line that gives that row. */
  lemma {:induction false} IdRowsFrom(pls: seq<SeqLine>, i: int)
    requires 0 <= i < |IdRows(pls)|
    ensures exists j :: 0 <= j < |pls| && pls[j].SeqIdRow?
              && pls[j].md5sum == IdRows(pls)[i].0 && pls[j].id as int == IdRows(pls)[i].1
    decreases |pls|
  {
    var n := |pls|;
    var init := pls[..n - 1];
    assert forall j :: 0 <= j < n - 1 ==> init[j] == pls[j];
    if i < |IdRows(init)| {
      assert IdRows(pls)[i] == IdRows(init)[i];
      IdRowsFrom(init, i);
    } else {
      assert pls[n - 1].SeqIdRow?;
    }
  }

  /** After the load, an md5sum is mapped exactly when it was before or a
      row before the first bad line has it, and then to the ID of the last
      such row. */
  lemma LoadSequenceLookup(m: map<string, int>, lines: seq<string>, k: string)
    ensures var pls := SeqLines(lines);
      var rows := IdRows(pls[..FirstStop(pls)]);
      var ids := LoadSequence(m, lines).ids;
      && (k in ids <==> k in m || HasKey(rows, k))
      && (HasKey(rows, k) ==> ids[k] == rows[LastIndex(rows, k)].1)
      && (!HasKey(rows, k) && k in m ==> ids[k] == m[k])
  {
    var pls := SeqLines(lines);
    LoadRowsIs(m, pls);
    OverwriteLookup(m, IdRows(pls[..FirstStop(pls)]), k);
  }

  /** The load ends in a runtime panic exactly when its first bad line has
      a decimal ID but fewer than five columns; any other stop is an error
      import_sequence returns. */
  lemma LoadSequencePanics(m: map<string, int>, lines: seq<string>)
    ensures var j := FirstStop(SeqLines(lines));
      var stop := LoadSequence(m, lines).stop;
      && (stop.Some? && Panics(stop.value) <==>
            j < |lines| && ParseInt(Split(lines[j], ',')[0], 10).Some? && |Split(lines[j], ',')| < 5)
      && (stop.Some? && Panics(stop.value) ==> stop.value == MissingColumn(j))
  {
    var pls := SeqLines(lines);
    LoadRowsIs(m, pls);
  }

  /** Once the load has stopped, later lines change nothing. */
  lemma {:induction false} LoadStopSticks(m: map<string, int>, pls: seq<SeqLine>, i: int)
    requires 0 <= i <= |pls| && LoadRows(m, pls[..i]).stop.Some?
    ensures LoadRows(m, pls) == LoadRows(m, pls[..i])
    decreases |pls|
  {
    if i < |pls| {
      var init := pls[..|pls| - 1];
      assert init[..i] == pls[..i];
      LoadStopSticks(m, init, i);
    } else {
      assert pls[..i] == pls;
    }
  }

  /** The load over one more line. */
  lemma LoadRowsStep(m: map<string, int>, pls: seq<SeqLine>, i: int)
    requires 0 <= i < |pls|
    ensures LoadRows(m, pls[..i + 1]) ==
      var r := LoadRows(m, pls[..i]);
      if r.stop.Some? then r
      else match pls[i]
        case Blank => r
        case SeqIdRow(k, id) => SeqLoad(r.ids[k := id], None)
        case BadSeqLine(f) => SeqLoad(r.ids, Some(f))
  {
    assert pls[..i + 1][..i] == pls[..i];
  }

  // ---------------------------------------------------------------------
  // Lemmas: CallSets

  /** Registering the inputs one by one is inserting their CallSet rows into
      the map in order. */
  lemma {:induction false} CallsetsOverwrite(m: map<string, CallSet>, start: int, inputs: seq<string>)
    ensures Callsets(m, start, inputs) == Overwrite(m, CallsetRows(start, inputs))
    decreases |inputs|
  {
    if |inputs| > 0 {
      var i := |inputs| - 1;
      CallsetsOverwrite(m, start, inputs[..i]);
      var rows := CallsetRows(start, inputs);
      assert rows[..i] == CallsetRows(start, inputs[..i]);
    }
  }

  /** After the loop a name has a CallSet exactly when it had one before or
      some input carries it; the last input i with that name decides its
      row: id start + i, name and sample id both the name. */
  lemma CallsetLookup(m: map<string, CallSet>, start: int, inputs: seq<string>, name: string)
    ensures var rows := CallsetRows(start, inputs);
      var cs := Callsets(m, start, inputs);
      && (name in cs <==> name in m || HasKey(rows, name))
      && (HasKey(rows, name) ==> cs[name] == CallSet(start + LastIndex(rows, name), name, name))
  {
    CallsetsOverwrite(m, start, inputs);
    OverwriteLookup(m, CallsetRows(start, inputs), name);
  }

  /** With distinct sample names, input i gets CallSet id start + i. */
  lemma CallsetOfInput(m: map<string, CallSet>, start: int, inputs: seq<string>, i: int)
    requires 0 <= i < |inputs|
    requires forall j :: i < j < |inputs| ==> InputName(inputs[j]) != InputName(inputs[i])
    ensures var name := InputName(inputs[i]);
      name in Callsets(m, start, inputs) && Callsets(m, start, inputs)[name] == CallSet(start + i, name, name)
  {
    var rows := CallsetRows(start, inputs);
    var name := InputName(inputs[i]);
    assert rows[i].0 == name;
    CallsetLookup(m, start, inputs, name);
    var li := LastIndex(rows, name);
    assert li >= i;
    assert rows[li].0 == InputName(inputs[li]);
  }

  // ---------------------------------------------------------------------
  // Lemmas: alleles

  /** A new key gets the counter's id, an empty path and a ploidy-1 call for
      the CallSet given, and the counter goes up by one; a known key leaves
      everything as it was. */
  lemma InitAlleleFacts(st: Alleles, key: string, callSetId: int)
    ensures var r := InitAllele(st, key, callSetId);
      && key in r.alleles
      && r.nextId == st.nextId + (if key in st.alleles then 0 else 1)
      && (key in st.alleles ==> r == st)
      && (key !in st.alleles ==>
            && r.alleles[key] == AlleleRec(st.nextId, NO_VARIANT_SET, key, 0)
            && key in r.paths && r.paths[key] == []
            && key in r.calls && r.calls[key] == AlleleCall(st.nextId, callSetId, PLOIDY))
  {
  }

  /** With the maps sharing their keys, initialising rewrites nothing. */
  lemma InitExtends(st: Alleles, key: string, callSetId: int)
    requires KeysAgree(st)
    ensures Extends(st, InitAllele(st, key, callSetId))
  {
  }

  /** Initialising an allele keeps the allele invariant. */
  lemma InitKeepsValid(st: Alleles, start: int, key: string, callSetId: int)
    requires AllelesValid(st, start)
    ensures AllelesValid(InitAllele(st, key, callSetId), start)
  {
    if key !in st.alleles {
      var rec := AlleleRec(st.nextId, NO_VARIANT_SET, key, 0);
      var call := AlleleCall(st.nextId, callSetId, PLOIDY);
      InitCount(st.alleles, key, rec);
      InitRecords(st.alleles, start, st.nextId, key, rec);
      InitDistinct(st.alleles, start, st.nextId, key, rec);
      InitCalls(st.alleles, st.calls, key, rec, call);
      InitPaths(st.alleles, st.paths, key, rec);
      assert InitAllele(st, key, callSetId) == Alleles(st.nextId + 1, st.alleles[key := rec], st.paths[key := []], st.calls[key := call]);
    }
  }

  lemma InitCount(a: map<string, AlleleRec>, key: string, rec: AlleleRec)
    requires key !in a
    ensures |a[key := rec].Keys| == |a.Keys| + 1
  {
    assert a[key := rec].Keys == a.Keys + {key};
  }

  lemma InitRecords(a: map<string, AlleleRec>, start: int, next: int, key: string, rec: AlleleRec)
    requires RecordsValid(a, start, next) && key !in a && next >= start
    requires rec == AlleleRec(next, NO_VARIANT_SET, key, 0)
    ensures RecordsValid(a[key := rec], start, next + 1)
  {
  }

  lemma InitDistinct(a: map<string, AlleleRec>, start: int, next: int, key: string, rec: AlleleRec)
    requires RecordsValid(a, start, next) && IdsDistinct(a) && key !in a && rec.id == next
    ensures IdsDistinct(a[key := rec])
  {
  }

  lemma InitCalls(a: map<string, AlleleRec>, c: map<string, AlleleCall>, key: string, rec: AlleleRec, call: AlleleCall)
    requires CallsValid(a, c) && call == AlleleCall(rec.id, call.callSetId, PLOIDY)
    ensures CallsValid(a[key := rec], c[key := call])
  {
  }

  lemma InitPaths(a: map<string, AlleleRec>, p: map<string, seq<PathItem>>, key: string, rec: AlleleRec)
    requires PathsValid(a, p)
    ensures PathsValid(a[key := rec], p[key := []])
  {
  }

  /** A path grows by three items for its first tile and by two for every
      later one; what was there stays; the new items carry the body's and
      the trailing tag's Sequence ids, after the leading tag's when the path
      was empty. */
  lemma ExtendGrows(path: seq<PathItem>, alleleId: int, pfx: int, body: int, sfx: int)
    ensures var r := Extend(path, alleleId, pfx, body, sfx);
      && |r| == |path| + (if |path| == 0 then 3 else 2)
      && path <= r
      && r[|r| - 2].sequenceId == body && r[|r| - 1].sequenceId == sfx
      && (|path| == 0 ==> r[0].sequenceId == pfx)
  {
  }

  /** Extending a valid path keeps it valid: each new item sits at its own
      index with start 0, length -1 and the forward strand. */
  lemma ExtendKeepsValid(path: seq<PathItem>, alleleId: int, pfx: int, body: int, sfx: int)
    requires PathValid(path, alleleId)
    ensures PathValid(Extend(path, alleleId, pfx, body, sfx), alleleId)
  {
  }

  /** Appending a tile fails exactly when it has fewer than 48 bases, its
      md5sum is not the declared one, or the leading tag, the body or the
      trailing tag is missing from the Sequence map. */
  lemma AppendTileFaults(md5: Md5Fn, ids: map<string, int>, st: Alleles, prev: APrev, curseq: seq<string>)
    ensures var t := Concat(curseq);
      var r := AppendTile(md5, ids, st, prev, curseq);
      && (|t| < 2 * TAG_LEN ==> r == Err(TileTooShort(|t|)))
      && (|t| >= 2 * TAG_LEN ==>
            && (r.Ok? <==> Md5Sum(md5, t) == prev.md5sum && Md5Sum(md5, t[..TAG_LEN]) in ids
                           && Md5Sum(md5, Emit.Body(t)) in ids && Md5Sum(md5, t[|t| - TAG_LEN..]) in ids)
            && (Md5Sum(md5, t) != prev.md5sum ==> r == Err(HashMismatch(prev.md5sum, Md5Sum(md5, t)))))
  {
  }

  /** Bases before the first header are always fatal: no md5sum is empty. */
  lemma AppendWithoutHeaderFails(md5: Md5Fn, ids: map<string, int>, st: Alleles, curseq: seq<string>)
    ensures AppendTile(md5, ids, st, NoAPrev, curseq).Err?
  {
  }

  /** A successful append only extends the previous header's path, with the
      Sequence ids of the tile's parts. */
  lemma AppendTileExtends(md5: Md5Fn, ids: map<string, int>, st: Alleles, prev: APrev, curseq: seq<string>)
    requires AppendTile(md5, ids, st, prev, curseq).Ok?
    ensures var t := Concat(curseq);
      var r := AppendTile(md5, ids, st, prev, curseq).value;
      && |t| >= 2 * TAG_LEN
      && r.nextId == st.nextId && r.alleles == st.alleles && r.calls == st.calls
      && r.paths.Keys == st.paths.Keys + {prev.key}
      && (forall k :: k in st.paths && k != prev.key ==> r.paths[k] == st.paths[k])
      && var old_ := PathOf(st, prev.key);
         var path := r.paths[prev.key];
         && |path| == |old_| + (if |old_| == 0 then 3 else 2) && old_ <= path
         && path[|path| - 2].sequenceId == ids[Md5Sum(md5, Emit.Body(t))]
         && path[|path| - 1].sequenceId == ids[Md5Sum(md5, t[|t| - TAG_LEN..])]
         && (|old_| == 0 ==> path[0].sequenceId == ids[Md5Sum(md5, t[..TAG_LEN])])
  {
    var t := Concat(curseq);
    var hs := HashesOf(md5, t);
    ExtendGrows(PathOf(st, prev.key), AlleleIdOf(st, prev.key), ids[hs.pfx], ids[hs.body], ids[hs.sfx]);
  }

  /** Appending to a known allele keeps the allele invariant. */
  lemma AppendKeepsValid(md5: Md5Fn, ids: map<string, int>, st: Alleles, start: int, prev: APrev, curseq: seq<string>)
    requires AllelesValid(st, start) && prev.key in st.alleles
    requires AppendTile(md5, ids, st, prev, curseq).Ok?
    ensures AllelesValid(AppendTile(md5, ids, st, prev, curseq).value, start)
  {
    var t := Concat(curseq);
    var hs := HashesOf(md5, t);
    var path := Extend(PathOf(st, prev.key), AlleleIdOf(st, prev.key), ids[hs.pfx], ids[hs.body], ids[hs.sfx]);
    assert AppendTile(md5, ids, st, prev, curseq).value == st.(paths := st.paths[prev.key := path]);
    ExtendKeepsValid(PathOf(st, prev.key), AlleleIdOf(st, prev.key), ids[hs.pfx], ids[hs.body], ids[hs.sfx]);
    PathsPut(st.alleles, st.paths, prev.key, path);
  }

  lemma PathsPut(a: map<string, AlleleRec>, p: map<string, seq<PathItem>>, key: string, path: seq<PathItem>)
    requires PathsValid(a, p) && key in a && PathValid(path, a[key].id)
    ensures PathsValid(a, p[key := path])
  {
  }

  lemma ExtendsTransitive(a: Alleles, b: Alleles, c: Alleles)
    requires Extends(a, b) && Extends(b, c)
    ensures Extends(a, c)
  {
  }

  lemma AppendPendingExtends(md5: Md5Fn, ids: map<string, int>, st: Alleles, prev: APrev, pending: seq<string>)
    requires AppendPending(md5, ids, st, prev, pending).Ok?
    ensures Extends(st, AppendPending(md5, ids, st, prev, pending).value)
  {
    if |pending| > 0 {
      AppendTileExtends(md5, ids, st, prev, pending);
    }
  }

  /** Keeping the invariant and rewriting nothing across one append. */
  lemma AppendPendingKeeps(md5: Md5Fn, ids: map<string, int>, st: Alleles, start: int, prev: APrev, pending: seq<string>)
    requires AllelesValid(st, start) && PrevKnown(st, prev)
    requires AppendPending(md5, ids, st, prev, pending).Ok?
    ensures AllelesValid(AppendPending(md5, ids, st, prev, pending).value, start)
    ensures Extends(st, AppendPending(md5, ids, st, prev, pending).value)
  {
    if |pending| > 0 {
      AppendKeepsValid(md5, ids, st, start, prev, pending);
    }
    AppendPendingExtends(md5, ids, st, prev, pending);
  }

  /** One event keeps the allele invariant, rewrites nothing, and leaves a
      prev that names a known allele. */
  lemma StepKeepsValid(md5: Md5Fn, ids: map<string, int>, callsets: map<string, CallSet>,
                       name: string, st: Alleles, start: int, prev: APrev, ev: Event)
    requires AllelesValid(st, start) && PrevKnown(st, prev)
    requires Step(md5, ids, callsets, name, st, prev, ev).Ok?
    ensures var next := Step(md5, ids, callsets, name, st, prev, ev).value;
      AllelesValid(next.0, start) && Extends(st, next.0) && PrevKnown(next.0, next.1)
  {
    match ev
    case BadJson =>
    case EndOfInput(pending) =>
      AppendPendingKeeps(md5, ids, st, start, prev, pending);
    case HeaderLine(h, pending) =>
      var key := HeaderKey(name, h).value;
      var cs := CallsetIdOf(callsets, name);
      var st1 := InitAllele(st, key, cs);
      InitKeepsValid(st, start, key, cs);
      InitExtends(st, key, cs);
      AppendPendingKeeps(md5, ids, st1, start, prev, pending);
      ExtendsTransitive(st, st1, AppendPending(md5, ids, st1, prev, pending).value);
  }

  /** Replaying a file keeps the allele invariant and is append-only: no
      allele or call is rewritten and no path loses an item. */
  lemma {:induction false} ReplayKeepsValid(md5: Md5Fn, ids: map<string, int>, callsets: map<string, CallSet>,
                                           name: string, st: Alleles, start: int, prev: APrev, evs: seq<Event>)
    requires AllelesValid(st, start) && PrevKnown(st, prev)
    requires Replay(md5, ids, callsets, name, st, prev, evs).Ok?
    ensures AllelesValid(Replay(md5, ids, callsets, name, st, prev, evs).value, start)
    ensures Extends(st, Replay(md5, ids, callsets, name, st, prev, evs).value)
    decreases |evs|
  {
    if |evs| > 0 {
      var next := Step(md5, ids, callsets, name, st, prev, evs[0]).value;
      StepKeepsValid(md5, ids, callsets, name, st, start, prev, evs[0]);
      ReplayKeepsValid(md5, ids, callsets, name, next.0, start, next.1, evs[1..]);
      ExtendsTransitive(st, next.0, Replay(md5, ids, callsets, name, st, prev, evs).value);
    }
  }

  lemma ReplayFileKeepsValid(md5: Md5Fn, ids: map<string, int>, callsets: map<string, CallSet>,
                             name: string, st: Alleles, start: int, lines: seq<string>, parse: HeaderParser)
    requires AllelesValid(st, start)
    requires ReplayFile(md5, ids, callsets, name, st, lines, parse).Ok?
    ensures AllelesValid(ReplayFile(md5, ids, callsets, name, st, lines, parse).value, start)
    ensures Extends(st, ReplayFile(md5, ids, callsets, name, st, lines, parse).value)
  {
    ReplayKeepsValid(md5, ids, callsets, name, st, start, NoAPrev, Scan(lines, parse));
  }

  lemma NoAllelesValid(start: int)
    ensures AllelesValid(NoAlleles(start), start)
  {
  }
}
