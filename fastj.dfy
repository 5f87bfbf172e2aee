/** The FastJ reading loop both import_fastj functions share: blank lines
    are skipped, a '>' line is a JSON header, and every other line is a piece
    of the current tile's bases.  The bases gathered since the last header
    are handed over ("flushed") when the next header arrives and at the end
    of the input. */
module FastJ {
  import opened Wrappers
  import opened Hex
  import opened Text

  /** The fields of a header that the programs read. */
  datatype Header = Header(md5sum: string, tileId: string, seedTileLength: Int64)

  /** sloppyjson.Loads followed by the field reads; None when the JSON is
      rejected. */
  type HeaderParser = string -> Option<Header>

  /** What one pass over the lines hands to the programs, in order.
      `pending` holds the base lines gathered before the event. */
  datatype Event =
    | HeaderLine(header: Header, pending: seq<string>)
    | BadJson
    | EndOfInput(pending: seq<string>)

  predicate IsHeaderLine(l: string)
  {
    |l| > 0 && l[0] == '>'
  }

  predicate IsBaseLine(l: string)
  {
    |l| > 0 && l[0] != '>'
  }

  predicate AllBaseLines(ls: seq<string>)
  {
    forall k :: 0 <= k < |ls| ==> IsBaseLine(ls[k])
  }

  /** The reading loop from some point on, with `curseq` the base lines
      gathered so far.  A rejected header ends the pass (import_fastj
      returns the error). */
  function ScanFrom(lines: seq<string>, curseq: seq<string>, parse: HeaderParser): (evs: seq<Event>)
    ensures |evs| >= 1
    decreases |lines|
  {
    if |lines| == 0 then [EndOfInput(curseq)]
    else
      var l := lines[0];
      if |l| == 0 then ScanFrom(lines[1..], curseq, parse)
      else if l[0] == '>' then
        match parse(l[1..])
        case None => [BadJson]
        case Some(h) => [HeaderLine(h, curseq)] + ScanFrom(lines[1..], [], parse)
      else ScanFrom(lines[1..], curseq + [l], parse)
  }

  function Scan(lines: seq<string>, parse: HeaderParser): seq<Event>
  {
    ScanFrom(lines, [], parse)
  }

  /** The base lines of the input, in order. */
  function BaseLines(lines: seq<string>): (ls: seq<string>)
    ensures AllBaseLines(ls)
  {
    if |lines| == 0 then []
    else (if IsBaseLine(lines[0]) then [lines[0]] else []) + BaseLines(lines[1..])
  }

  /** The header lines of the input. */
  function HeaderCount(lines: seq<string>): nat
  {
    if |lines| == 0 then 0
    else (if IsHeaderLine(lines[0]) then 1 else 0) + HeaderCount(lines[1..])
  }

  function PendingLines(evs: seq<Event>): seq<string>
  {
    if |evs| == 0 then []
    else (if evs[0].BadJson? then [] else evs[0].pending) + PendingLines(evs[1..])
  }

  function HeaderEvents(evs: seq<Event>): nat
  {
    if |evs| == 0 then 0
    else (if evs[0].HeaderLine? then 1 else 0) + HeaderEvents(evs[1..])
  }

  predicate Accepted(evs: seq<Event>)
  {
    forall k :: 0 <= k < |evs| ==> !evs[k].BadJson?
  }

  // ---------------------------------------------------------------------
  // The tileID "path.version.step.variant"

  /** The tileID tokens the programs use, and the two numbers parsed from
      them. */
  datatype TileKey = TileKey(pathToken: string, stepToken: string, variantToken: string,
                             path: Int64, step: Int64)

  /** The tile's position key, tile_parts[0] + "." + tile_parts[2]. */
  function TilePath(k: TileKey): string
  {
    k.pathToken + "." + k.stepToken
  }

  /** strings.SplitN(tileID, ".", 4), then the reads both programs make, in
      their order: tile_parts[2] (a panic when there are fewer than three
      parts), ParseInt of parts 0 and 2 in base 16, then tile_parts[3] (a
      panic when there are fewer than four). */
  function ParseTileId(tileId: string): (r: Result<TileKey, Fault>)
    ensures r.Ok? <==> var parts := SplitN(tileId, '.', 4);
      |parts| == 4 && ParseInt(parts[0], 16).Some? && ParseInt(parts[2], 16).Some?
    ensures r.Ok? ==> var parts := SplitN(tileId, '.', 4);
      && r.value.pathToken == parts[0] && r.value.stepToken == parts[2] && r.value.variantToken == parts[3]
      && ParseInt(parts[0], 16) == Some(r.value.path) && ParseInt(parts[2], 16) == Some(r.value.step)
    ensures r.Ok? ==> '.' !in r.value.pathToken && '.' !in r.value.stepToken
  {
    var parts := SplitN(tileId, '.', 4);
    if |parts| < 3 then Err(MissingTileIdPart(tileId))
    else
      match ParseInt(parts[0], 16)
      case None => Err(BadHexToken(parts[0]))
      case Some(path) =>
        match ParseInt(parts[2], 16)
        case None => Err(BadHexToken(parts[2]))
        case Some(step) =>
          if |parts| < 4 then Err(MissingTileIdPart(tileId))
          else Ok(TileKey(parts[0], parts[2], parts[3], path, step))
  }

  // ---------------------------------------------------------------------
  // Lemmas

  /** Scanning loses and invents no bases: the pending lines of all events,
      in order, are exactly the input's base lines. */
  lemma {:induction false} ScanFromKeepsBases(lines: seq<string>, curseq: seq<string>, parse: HeaderParser)
    requires AllBaseLines(curseq)
    requires Accepted(ScanFrom(lines, curseq, parse))
    ensures PendingLines(ScanFrom(lines, curseq, parse)) == curseq + BaseLines(lines)
    ensures HeaderEvents(ScanFrom(lines, curseq, parse)) == HeaderCount(lines)
    decreases |lines|, 1
  {
    if |lines| > 0 {
      var l := lines[0];
      var rest := lines[1..];
      assert BaseLines(lines) == (if IsBaseLine(l) then [l] else []) + BaseLines(rest);
      assert HeaderCount(lines) == (if IsHeaderLine(l) then 1 else 0) + HeaderCount(rest);
      if |l| == 0 {
        assert ScanFrom(lines, curseq, parse) == ScanFrom(rest, curseq, parse);
        ScanFromKeepsBases(rest, curseq, parse);
      } else if l[0] == '>' {
        HeaderStepKeepsBases(lines, curseq, parse);
      } else {
        BaseStepKeepsBases(lines, curseq, parse);
      }
    }
  }

  lemma {:induction false} BaseStepKeepsBases(lines: seq<string>, curseq: seq<string>, parse: HeaderParser)
    requires AllBaseLines(curseq) && |lines| > 0 && IsBaseLine(lines[0])
    requires Accepted(ScanFrom(lines, curseq, parse))
    ensures PendingLines(ScanFrom(lines, curseq, parse)) == curseq + ([lines[0]] + BaseLines(lines[1..]))
    ensures HeaderEvents(ScanFrom(lines, curseq, parse)) == HeaderCount(lines[1..])
    decreases |lines|, 0
  {
    var l := lines[0];
    var rest := lines[1..];
    assert ScanFrom(lines, curseq, parse) == ScanFrom(rest, curseq + [l], parse);
    ScanFromKeepsBases(rest, curseq + [l], parse);
    assert curseq + [l] + BaseLines(rest) == curseq + ([l] + BaseLines(rest));
  }

  lemma {:induction false} HeaderStepKeepsBases(lines: seq<string>, curseq: seq<string>, parse: HeaderParser)
    requires AllBaseLines(curseq) && |lines| > 0 && IsHeaderLine(lines[0])
    requires Accepted(ScanFrom(lines, curseq, parse))
    ensures PendingLines(ScanFrom(lines, curseq, parse)) == curseq + BaseLines(lines[1..])
    ensures HeaderEvents(ScanFrom(lines, curseq, parse)) == 1 + HeaderCount(lines[1..])
    decreases |lines|, 0
  {
    var l := lines[0];
    var rest := lines[1..];
    var evs := ScanFrom(lines, curseq, parse);
    assert !evs[0].BadJson?;
    assert parse(l[1..]).Some?;
    var h := parse(l[1..]).value;
    var tail := ScanFrom(rest, [], parse);
    assert evs == [HeaderLine(h, curseq)] + tail;
    assert evs[1..] == tail;
    assert Accepted(tail) by {
      forall k | 0 <= k < |tail| ensures !tail[k].BadJson? { assert evs[k + 1] == tail[k]; }
    }
    ScanFromKeepsBases(rest, [], parse);
    assert PendingLines(evs) == curseq + PendingLines(tail);
  }

  lemma ScanKeepsBases(lines: seq<string>, parse: HeaderParser)
    requires Accepted(Scan(lines, parse))
    ensures PendingLines(Scan(lines, parse)) == BaseLines(lines)
    ensures HeaderEvents(Scan(lines, parse)) == HeaderCount(lines)
  {
    ScanFromKeepsBases(lines, [], parse);
  }

  /** Base lines are never empty, so a flush has bases exactly when its
      joined sequence is non-empty. */
  lemma {:induction false} ConcatBaseLines(ls: seq<string>)
    requires AllBaseLines(ls)
    ensures |ls| > 0 <==> |Concat(ls)| > 0
  {
    if |ls| > 0 {
      assert |Concat(ls)| >= |ls[0]|;
    }
  }

  /** The position key of a parsed tileID splits back into the two tokens,
      and they parse back to the same path and step: the emitters' re-parse
      of the key (strings.Split on '.') agrees with ingest. */
  lemma TilePathReparse(tileId: string)
    requires ParseTileId(tileId).Ok?
    ensures var k := ParseTileId(tileId).value;
      && Split(TilePath(k), '.') == [k.pathToken, k.stepToken]
      && ParseInt(k.pathToken, 16) == Some(k.path)
      && ParseInt(k.stepToken, 16) == Some(k.step)
  {
    var k := ParseTileId(tileId).value;
    assert JoinWith([k.pathToken, k.stepToken], '.') == TilePath(k);
    JoinSplit([k.pathToken, k.stepToken], '.');
  }

  /** A tileID fails to parse when it has fewer than four parts. */
  lemma ShortTileIdRejected(tileId: string)
    requires |SplitN(tileId, '.', 4)| < 4
    ensures ParseTileId(tileId).Err?
  {
  }

  /** A canonical tileID round-trips: the tokens come back verbatim. */
  lemma TileIdRoundTrip(pathToken: string, versionToken: string, stepToken: string, variantToken: string)
    requires '.' !in pathToken && '.' !in versionToken && '.' !in stepToken && '.' !in variantToken
    requires ParseInt(pathToken, 16).Some? && ParseInt(stepToken, 16).Some?
    ensures var tileId := pathToken + "." + versionToken + "." + stepToken + "." + variantToken;
      && ParseTileId(tileId).Ok?
      && ParseTileId(tileId).value.pathToken == pathToken
      && ParseTileId(tileId).value.stepToken == stepToken
      && ParseTileId(tileId).value.variantToken == variantToken
  {
    var parts := [pathToken, versionToken, stepToken, variantToken];
    var tileId := pathToken + "." + versionToken + "." + stepToken + "." + variantToken;
    JoinFour(pathToken, versionToken, stepToken, variantToken, '.');
    JoinSplitN(parts, '.', 4);
    ParseTileIdOfParts(tileId, parts);
  }

  /** The dotted rendering of four tokens is their join. */
  lemma JoinFour(a: string, b: string, c: string, d: string, sep: char)
    ensures JoinWith([a, b, c, d], sep) == a + [sep] + b + [sep] + c + [sep] + d
  {
    var parts := [a, b, c, d];
    assert JoinWith(parts[3..], sep) == d;
    assert JoinWith(parts[2..], sep) == c + [sep] + d;
    assert JoinWith(parts[1..], sep) == b + [sep] + c + [sep] + d;
  }

  lemma ParseTileIdOfParts(tileId: string, parts: seq<string>)
    requires SplitN(tileId, '.', 4) == parts && |parts| == 4
    requires ParseInt(parts[0], 16).Some? && ParseInt(parts[2], 16).Some?
    ensures ParseTileId(tileId).Ok?
    ensures ParseTileId(tileId).value.pathToken == parts[0]
    ensures ParseTileId(tileId).value.stepToken == parts[2]
    ensures ParseTileId(tileId).value.variantToken == parts[3]
  {
  }
}
