# Tile graph pipeline, modelled in Dafny

This project models the batch tile-graph pipeline in `src/`. It has three programs.

- **create_tile_graph** (`src/create_tile_graph.go`) builds the tile library.
  - It reads FastJ tile records: a JSON header line, then lines of bases.
  - It checks each tile's declared md5sum.
  - It files every variant under its position key `path.step` and counts its frequency.
  - It ranks each position's variants by `TileFreqOrder`.
  - It writes the FASTA records, the Sequence rows (numbered from `g_START_SEQUENCEID`), the GraphJoin rows (numbered from `g_START_GRAPHJOINID`) and the GraphJoin-VariantSet rows.
  - A tile is split into a leading anchor, a body and a trailing anchor. Anchors are the first and last 24 bases.
  - Anchors are named by `create_tag_id`: md5sum, context key and a 24-bit no-call mask.
  - The trailing anchor's context key is the next tile's position.
- **fj2allele** (`src/fj2allele.go`) replays one sample's FastJ file as allele paths over a Sequence table.
  - It loads md5sum → sequence id from the Sequence CSV.
  - It registers one CallSet per input.
  - For every tile, it looks up the ids of the leading anchor, body and trailing anchor.
  - It appends those ids to the path of the allele `name:index`.
- **tileset2fj** (`src/tileset2fj.go`) cuts a reference sequence into FastJ tiles.
  - A tile runs from one found tag position to 24 bases past the next found tag, in lexical order of the positions.

## How it is modelled

- **Each program's globals are one class.**
  - `TileGraph.TileGraphBuilder`, `Fj2Allele.AlleleBuilder` and `Tileset2Fj.Tiler` hold them.
  - Methods update the fields in place, with loops as in the Go code.
  - Every method's `ensures` ties the new state and its results to a specification function of the old state. The specification functions are in `TileLib`, `Rank`, `Emit`, `AllelePath` and `Tileset`.
  - The properties are lemmas about those functions, proved for all inputs.
- **MD5 is a parameter.**
  - The digest is `md5: Md5Fn`, an arbitrary function from strings to 16 bytes.
  - Only the `%02x` rendering is concrete (`Md5.Md5Sum`).
  - Only `Anchors` depends on the digest being collision-free, and only on the sequences a run meets (`Anchors.DigestsDistinct`). g_md5sum_seq keeps the first sequence filed under an md5sum, so a second sequence with the same digest would have anchors recorded that the emitters never name.
- **Go map iteration order is a parameter.**
  - Every loop over a map takes an enumeration: a sequence listing each key exactly once (`Sorting.Enumerates`).
  - The order-independence lemmas hold for every such enumeration.
- **A FastJ file is a sequence of lines.**
  - The JSON header parser is a parameter, `FastJ.HeaderParser`. It returns the parsed md5sum, tileID and seedTileLength, or nothing when `sloppyjson` rejects the line.
  - `FastJ.Scan` turns the lines into events: a header with the base lines gathered before it, a rejected header, or the end of input with the remaining base lines.
  - Both `import_fastj` functions are folds over these events: `TileLib.Run` and `AllelePath.Replay`.
- **Every way a run can stop is a `Wrappers.Fault`.**
  - This covers `log.Fatal`, a returned error that `_main` turns into `log.Fatal`, and a runtime panic such as an index or slice out of range.
  - Operations return `Result`/`Outcome`, and each fault is checked in the same order as the Go code checks it.
- **Integers are unbounded.** Go's int64 wrap-around is written out only where it can decide an identifier: `step + seedlen` in the trailing anchor's context key (`Hex.Wrap64`).

Notes on what the code does:

- Sequence ids are assigned in map iteration order, not in a sorted order. The model proves instead that the run's success, the set of names given ids and the number of rows do not depend on the order.
- The GraphJoin deduplication key is the ordered pair "anchor sequence id : body sequence id" (`%x:%x`), not an unordered pair.
- The leading anchor's edge always puts the body at offset 0. Only the trailing anchor's edge uses `len-49` for the body.
- A tile of 24 to 47 bases is accepted at ingest. Only the emitters reject it.

## Model

| member | source | states |
|---|---|---|
| TagId.CreateTagId | src/create_tile_graph.go:148-154 | The loop that ORs bit i for a no-call at character 23-i builds exactly the anchor id `TagIdOf`: md5sum, '.', context, ".t", the mask in `%06x`. |
| TagId.NoCallMaskBits | src/create_tile_graph.go:149-152 | Bit i of the mask is set exactly when character 23-i is 'n' or 'N'. No bit at or above 24 is set, so the mask is below 2^24. |
| TagId.MaskHexWidth | src/create_tile_graph.go:153 | The mask is printed as exactly six lower-case hex digits. |
| TagId.TagIdLayout | src/create_tile_graph.go:153 | An id is the tag's 32-digit md5sum, '.', the context, ".t" and six digits that parse back to the mask. |
| TagId.TagIdKeepsNoCalls | src/create_tile_graph.go:148-154 | Two anchors with the same context and the same id have their no-calls at the same positions. |
| TagId.TrailingMeetsLeading | src/create_tile_graph.go:228-229 | Take a tile at (path, step) with seed length L, and a next tile whose tokens are the canonical `%03x`/`%04x` forms of (path, step+L) with int64 wrap. Then the trailing anchor of the first tile and the leading anchor of the next tile get the same id for the same tag. |
| TagId.NonCanonicalKeysDiffer | src/create_tile_graph.go:191 | Without canonical tokens the keys can differ: the raw key "a.1" and the formatted key "00a.0001" name the same (path, step). |
| Md5.Md5SumStr | src/create_tile_graph.go:116-123 | The loop that appends `%02x` of each digest byte, then joins, yields `Md5Sum`: 32 lower-case hex digits. |
| Md5.Md5Sum | src/create_tile_graph.go:116-123 | An md5sum is 32 lower-case hex digits. |
| Md5.HexBytesInjective | src/create_tile_graph.go:119-122 | Equal hex renderings come from equal byte strings. |
| Md5.Md5SumSameDigest | src/create_tile_graph.go:116-123 | Two strings have the same md5sum text exactly when their digests are equal. |
| Md5.Md5SumHasNoSeparator | src/create_tile_graph.go:153 | An md5sum never contains '.', ':' or ',', so the ids built from it split unambiguously. |
| Hex.Wrap64 | src/create_tile_graph.go:228 | Go's int64 addition: the result is congruent to the true sum modulo 2^64, and equal to it when the sum is in range. |
| Hex.FmtHexWidth | src/create_tile_graph.go:228 | `%0<w>x` of a value below 16^w is exactly w lower-case hex digits. |
| Hex.ParseFmtHex | src/create_tile_graph.go:335-339 | Formatting an int64 with `%0<w>x` and parsing it with `strconv.ParseInt(_, 16, 64)` gives the number back. |
| Hex.ParseFmtDec | src/fj2allele.go:396-397 | Formatting an int64 with `%d` and parsing it with `strconv.ParseInt(_, 10, 64)` gives the number back. |
| Hex.FmtHexInjective | src/create_tile_graph.go:492 | Plain `%x` tells integers apart. |
| Hex.FmtHexSign | src/create_tile_graph.go:492 | Plain `%x` starts with '-' exactly when the value is negative. |
| Text.Split | src/tileset2fj.go:87 | `strings.Split` yields at least one part, and no part contains the separator. |
| Text.SplitJoin | src/tileset2fj.go:87 | Joining the parts of `strings.Split` with the separator gives back the string. |
| Text.JoinSplit | src/create_tile_graph.go:334 | Splitting a join of separator-free parts gives back the parts. |
| Text.JoinSplitN | src/create_tile_graph.go:190 | `strings.SplitN` of a join of at most n separator-free parts gives back the parts. |
| Text.SplitN | src/create_tile_graph.go:190 | `strings.SplitN` yields between 1 and n parts. Only the last part may contain the separator, and only when there are n parts. |
| Text.Index | src/tileset2fj.go:137 | `strings.Index` is the first position where the substring occurs, or -1 when it never occurs. |
| Text.ToLowerIdempotent | src/tileset2fj.go:107 | The lowered string has no upper-case ASCII letter, and lowering it again changes nothing. |
| Text.ToLowerAt | src/tileset2fj.go:107 | Lowering changes each character independently: exactly the upper-case ASCII letters. |
| Text.LexLessTotal | src/tileset2fj.go:129 | Go's string `<` orders any two different strings one way or the other. |
| Text.LexLessTransitive | src/tileset2fj.go:129 | Go's string `<` is transitive. |
| Text.LexLessIrreflexive | src/tileset2fj.go:129 | No string sorts before itself. |
| Fold.FoldBody | src/create_tile_graph.go:371-388 | The loop that writes `s[p:p+fold]` while `p < len(s)-fold`, then `s[p:]`, writes exactly `FoldLines`. |
| Fold.FoldLinesFacts | src/create_tile_graph.go:371-388 | The folded lines concatenate back to the input. Each is at most `fold` long and all but the last are exactly `fold`. For a non-empty input none is empty. |
| Fold.PrintFoldLines | src/tileset2fj.go:115-124 | print_fold's early return for the empty string, then the fold loop, writes exactly `PrintFold`. |
| Fold.PrintFoldFacts | src/tileset2fj.go:115-124 | print_fold writes nothing exactly when the string is empty. Otherwise its lines are non-empty, at most `fold` long, and concatenate to the input. |
| Sorting.SortBy | src/create_tile_graph.go:565 | The model of `sort.Sort` under a strict weak order returns a sorted permutation of its input. |
| Sorting.SortedUnique | src/create_tile_graph.go:565 | Take two sorted rearrangements of the same duplicate-free elements, where any two different elements are ordered one way or the other. They are equal, so the sorted result does not depend on the input order. |
| Sorting.EnumerationsPermute | src/create_tile_graph.go:558 | Two iterations over the same map's keys are permutations of each other. |
| LexOrder.LexOrderIsStrictWeakOrder | src/create_tile_graph.go:545 | `LexOrder.Less` is a strict weak order, so `sort.Sort` under it is well defined. |
| LexOrder.SortLex | src/create_tile_graph.go:576 | `sort.Sort(LexOrder(_))` is sorted under `LexOrder.Less` and is a permutation of its input. |
| LexOrder.SortLexFacts | src/tileset2fj.go:140-144 | Sorting an enumeration of the keys lists every key once, in strictly increasing order, and the result is the same for every enumeration. |
| MapFold.OverwriteLookup | src/fj2allele.go:406 | After inserting rows in order, a key is present exactly when it was before or some row has it, and it holds the value of the last such row. |
| FastJ.ParseTileId | src/create_tile_graph.go:190-196 | The tileID is accepted exactly when it has four dot-parts and parts 0 and 2 are hex. The tokens and the parsed path and step are those parts, and neither token contains '.'. |
| FastJ.ShortTileIdRejected | src/create_tile_graph.go:191 | A tileID with fewer than four parts is rejected. |
| FastJ.TileIdRoundTrip | src/create_tile_graph.go:190 | Four dot-free tokens, with a path and step that parse, form a tileID that is accepted. Its path, step and variant tokens come back verbatim. |
| FastJ.TilePathReparse | src/create_tile_graph.go:334-338 | The emitters re-split the position key on '.' and re-parse it. This gives the two tokens back with the same path and step as ingest. |
| FastJ.ScanKeepsBases | src/create_tile_graph.go:178-265 | When every header parses, the reading loop loses and invents no bases. The bases handed over at the headers and at the end, in order, are exactly the file's base lines, and there is one header event per header line. |
| FastJ.ConcatBaseLines | src/create_tile_graph.go:207 | Base lines are never empty, so `len(curseq)>0` exactly when the joined sequence is non-empty. |
| TileLib.AddTile | src/create_tile_graph.go:235-245 | A new (position key, md5sum) pair is inserted as `{md5, path_step, seedlen, 1, -1}`. A known variant only has its frequency increased by one. Every other position and variant is unchanged. |
| TileLib.PutIfAbsent | src/create_tile_graph.go:218-220 | The guarded insert adds the key. The key holds the old value when it was present, otherwise the new value. Every other key keeps its value. |
| TileLib.Commit | src/create_tile_graph.go:218-245 | Recording a checked tile adds its sequence under its md5sum unless the md5sum is known. It adds both anchor ids: a new id holds 24 bases and a known id keeps its value. It files the variant with `AddTile`. |
| TileLib.Flush | src/create_tile_graph.go:207-246 | A tile's flush fails exactly when it has fewer than 24 bases (the tag slice panics) or its md5sum differs from the declared one. Otherwise it is `Commit`. |
| TileLib.FlushWithoutHeaderFails | src/create_tile_graph.go:213-216 | Bases before the first header are always fatal. |
| TileLib.FlushKeepsValid | src/create_tile_graph.go:207-246 | A flush keeps the library invariant. Each variant is filed under its own md5sum and position key, seen at least once, with its sequence recorded. Each recorded sequence has at least 24 bases and hashes to its key. |
| TileLib.RunKeepsValid | src/create_tile_graph.go:163-311 | Reading a whole file keeps the library invariant. |
| TileLib.IngestKeepsValid | src/create_tile_graph.go:163-311 | import_fastj over a file's lines keeps the library invariant. |
| TileLib.RunGrows | src/create_tile_graph.go:163-311 | Reading forgets nothing it knew before: no variant, sequence or tag id is lost, and no frequency drops. |
| TileLib.EmptyLibraryValid | src/create_tile_graph.go:126-134 | The maps as init() leaves them satisfy the invariant. |
| TileLib.PrevOfValid | src/create_tile_graph.go:250-257 | The prev_* values an accepted header leaves have a position key that parses. |
| Rank.FreqLessIsStrictWeakOrder | src/create_tile_graph.go:550-554 | `TileFreqOrder.Less` (higher frequency first, ties by smaller md5sum) is a strict weak order. |
| Rank.FreqLessConnected | src/create_tile_graph.go:550-554 | Variants with different md5sums are always ordered one way or the other. |
| Rank.SortedGroup | src/create_tile_graph.go:565 | `sort.Sort(TileFreqOrder(freq_order))` is sorted under `TileFreqOrder.Less` and is a permutation of the collected variants. |
| Rank.SortedGroupFacts | src/create_tile_graph.go:561-565 | Sorting a position's variants yields exactly its variants, each md5sum once, strictly increasing in `TileFreqOrder`. |
| Rank.RankedGroupIsPermutation | src/create_tile_graph.go:568-572 | After ranking, only the rank field changed. A position's ranks are a permutation of 0..n-1: each in range, no two equal, every value taken. |
| Rank.RankFollowsFreqOrder | src/create_tile_graph.go:550-572 | One variant ranks before another exactly when it has the higher frequency, or the same frequency and the smaller md5sum. |
| Rank.RankedGroupIndependentOfOrder | src/create_tile_graph.go:561-572 | The ranks do not depend on the order the map gives the variants in. |
| Rank.RanksOfSorted | src/create_tile_graph.go:568-572 | Ranking each variant by its index in a list holding each variant once makes the ranks a permutation of 0..n-1. |
| Rank.RankAllKeepsValid | src/create_tile_graph.go:556-578 | Ranking changes no key and no field but the rank, so the library invariant survives it. |
| Emit.TileSplits | src/create_tile_graph.go:327-342 | A tile of at least 48 bases is its leading tag, its body and its trailing tag. |
| Emit.TileNames | src/create_tile_graph.go:323-347 | The per-tile prologue of emit_fasta and emit_graphjoin yields two 24-base tags and a body that together are the tile's sequence. |
| Emit.TileNamesValid | src/create_tile_graph.go:325-347 | On a valid library the position key parses and the sequence has at least 24 bases, so the prologue fails only for a tile of fewer than 48 bases. |
| Emit.AllNamesValid | src/create_tile_graph.go:325-347 | On a valid library, a tile's names can be computed exactly when it has at least 48 bases. Otherwise the fault carries its length. |
| Emit.FastaOkIff | src/create_tile_graph.go:318-394 | emit_fasta gets through exactly when every tile's names can be computed. Otherwise it stops with the fault of one of the tiles. |
| Emit.FastaFacts | src/create_tile_graph.go:350-389 | Each FASTA id is written once. The ids written are exactly the anchor and body ids of the tiles visited. Every record has at least one line, and none is longer than 50. |
| Emit.FastaOrderIndependent | src/create_tile_graph.go:323-392 | For every map order, emit_fasta fails or succeeds alike. When it succeeds it writes the same set of ids and the same number of records. |
| Emit.BodyEntriesOk | src/create_tile_graph.go:421-427 | The tile loop of emit_sequences gets through exactly when every tile has at least 48 bases. A fault carries the length of a tile shorter than 48 bases. |
| Emit.AssignOkIff | src/create_tile_graph.go:409-445 | The guarded writes get through exactly when every entry is available. When they fail, the fault is that of one of the entries. |
| Emit.SequencesOkIff | src/create_tile_graph.go:400-447 | emit_sequences is fatal exactly when some tile is shorter than 48 bases, and then with the length of a tile shorter than 48 bases. |
| Emit.AssignKeeps | src/create_tile_graph.go:414-418 | One guarded write keeps the numbering and the rows before it, and adds its name. A name new to `g_sequence_id` gets one row, with the next seq_id. |
| Emit.AssignOverFresh | src/create_tile_graph.go:438-442 | Entries whose names are new and distinct each get one row, in order, numbered on from seq_id. |
| Emit.TagRowsFacts | src/create_tile_graph.go:409-419 | The tag loop writes one row per tag id, in the order visited, with the md5sum of its 24 bases and length 24. The rows are numbered from `g_START_SEQUENCEID`. |
| Emit.AssignOverFacts | src/create_tile_graph.go:409-445 | The guarded writes keep the numbering and the rows before them. Every row they add is made from one of the entries. |
| Emit.SequencesRows | src/create_tile_graph.go:400-447 | emit_sequences writes the tag rows first, in the order visited, then body rows made from the tiles' entries. Row i carries id start+i, and the names with ids are exactly the rows' names, one row each. |
| Emit.SequencesNames | src/create_tile_graph.go:400-447 | The names that get sequence ids are exactly the tag ids and the body ids of the library's tiles. |
| Emit.BodyEntryNames | src/create_tile_graph.go:421-445 | For every order, the tiles' entries name exactly the body ids of the library's long tiles. |
| Emit.SequencesOrderIndependent | src/create_tile_graph.go:409-445 | For every order of the two maps, emit_sequences fails or succeeds alike. When it succeeds it gives ids to the same names and writes the same number of rows. |
| Emit.JoinKeyInjective | src/create_tile_graph.go:492 | The `%x:%x` key names its pair: equal keys mean the same anchor id and the same body id. |
| Emit.EdgeRowsShape | src/create_tile_graph.go:494-520 | Each edge row of a tile joins the two sequence ids its `%x:%x` key names, in one layout or the other. Exactly one side is flagged TRUE, and that side is at offset 0. |
| Emit.AddEdgeKeeps | src/create_tile_graph.go:493-508 | One guarded edge keeps the numbering and adds its key to seen_hash. It writes at most one row. |
| Emit.JoinTileKeeps | src/create_tile_graph.go:488-526 | A tile's two edges keep the numbering and add its two keys to seen_hash. |
| Emit.JoinsFacts | src/create_tile_graph.go:451-531 | The rows are numbered consecutively from `g_START_GRAPHJOINID`, one per new key with no key twice, and `g_graphjoin_id_list` lists exactly their ids in order. seen_hash ends up holding the tiles' keys. There are at most two rows per tile. |
| Emit.JoinTileRows | src/create_tile_graph.go:494-522 | One tile's step keeps the rows written before it. Every row it adds is that tile's leading-anchor edge or its trailing-anchor edge, the latter with the tile's length. |
| Emit.JoinsRowsFrom | src/create_tile_graph.go:451-531 | Row i has id `g_START_GRAPHJOINID`+i. It is the leading-anchor edge (offset 23 on the anchor) or the trailing-anchor edge (offset len-49 on the body) of some visited tile, laid out by which id sorts first. |
| Emit.JoinsOkIff | src/create_tile_graph.go:451-531 | emit_graphjoin gets through exactly when every tile's names can be computed. Otherwise it stops with the fault of one of the tiles. |
| Emit.JoinsOrderIndependent | src/create_tile_graph.go:460-529 | For every map order, emit_graphjoin fails or succeeds alike. When it succeeds it has seen exactly the library's edge keys and written the same number of rows. |
| Emit.VariantSetAfterJoins | src/create_tile_graph.go:533-538 | emit_graphjoin_variantset writes one (join id, variant set id) row per GraphJoin row, in order, with ids running from `g_START_GRAPHJOINID`. |
| TileGraph.TileGraphBuilder.constructor | src/create_tile_graph.go:126-138 | The maps start empty and the ids come from the flags (`_main` lines 582-585). The library invariant holds. |
| TileGraph.TileGraphBuilder.RecordVariant | src/create_tile_graph.go:235-245 | The in-place update of `g_tile_lib` is `AddTile` of the old library. |
| TileGraph.TileGraphBuilder.StoreTile | src/create_tile_graph.go:218-245 | The in-place updates of the three maps are `Commit` of the old library. |
| TileGraph.TileGraphBuilder.CommitTile | src/create_tile_graph.go:207-246 | The flush succeeds exactly when `Flush` does, and leaves its library. A failure carries the same fault. A successful flush from a valid library and a well-formed previous tile keeps the library valid. |
| TileGraph.TileGraphBuilder.ImportFastj | src/create_tile_graph.go:163-311 | The line loop with its prev_* variables ends with the library the event fold `Ingest` computes. It fails exactly when `Ingest` does, with its fault. A successful import into a valid library leaves it valid, which is what ranking needs. |
| TileGraph.TileGraphBuilder.RankTileLib | src/create_tile_graph.go:556-578 | rank_tile_lib leaves every position ranked as `RankAll` says, `path_step_order` the sorted position keys, and the invariant intact. |
| TileGraph.TileGraphBuilder.RankPositions | src/create_tile_graph.go:557-574 | The loop over position keys appends each key to `path_step_order` in map order and ranks its variants. |
| TileGraph.TileGraphBuilder.RankNext | src/create_tile_graph.go:558-573 | One turn of the outer loop ranks one more position and leaves the others as they were. |
| TileGraph.TileGraphBuilder.RankPosition | src/create_tile_graph.go:561-572 | One position's variants are replaced by their ranked form; nothing else changes. |
| TileGraph.TileGraphBuilder.CollectGroup | src/create_tile_graph.go:561-564 | freq_order is the position's variants in map order. |
| TileGraph.TileGraphBuilder.WriteRanks | src/create_tile_graph.go:568-572 | `z.Rank = i` for the i-th sorted variant leaves each variant ranked by its sorted index. |
| TileGraph.TileGraphBuilder.ComputeNames | src/create_tile_graph.go:325-347 | The step-by-step prologue yields `TileNames` of the library, faults included. |
| TileGraph.TileGraphBuilder.EmitFasta | src/create_tile_graph.go:318-394 | The records written and the seen set are `Fasta` for the given order, or its fault. |
| TileGraph.TileGraphBuilder.WriteTile | src/create_tile_graph.go:350-389 | The three guarded writes of a tile are `FastaTile`. |
| TileGraph.TileGraphBuilder.EmitSequences | src/create_tile_graph.go:400-447 | The rows written and `g_sequence_id` afterwards are `Sequences` for the given orders. A failure is its fault. |
| TileGraph.TileGraphBuilder.AssignTags | src/create_tile_graph.go:409-419 | The tag loop is the guarded writes over the tag entries. |
| TileGraph.TileGraphBuilder.AssignTiles | src/create_tile_graph.go:421-445 | The tile loop is the guarded writes over the tiles' entries, fatal exactly when they are. |
| TileGraph.TileGraphBuilder.AssignOne | src/create_tile_graph.go:414-418 | One guarded write is `Assign`. |
| TileGraph.TileGraphBuilder.TileEntryOf | src/create_tile_graph.go:423-436 | A tile's row request is `BodyEntry`: fatal below 48 bases, otherwise the body id, its md5sum and len-48. |
| TileGraph.TileGraphBuilder.EmitGraphJoin | src/create_tile_graph.go:451-531 | The rows written and `g_graphjoin_id_list` afterwards are `Joins` for the given order. A failure is its fault. |
| TileGraph.TileGraphBuilder.JoinTileEdges | src/create_tile_graph.go:488-526 | The lookups (0 when absent) and the two guarded edges of a tile are `JoinTile`. |
| TileGraph.TileGraphBuilder.PutEdge | src/create_tile_graph.go:493-508 | One guarded edge is `AddEdge`. |
| TileGraph.TileGraphBuilder.EmitGraphJoinVariantSet | src/create_tile_graph.go:533-538 | One row per listed GraphJoin id, in list order. |
| AllelePath.SeqLineRow | src/fj2allele.go:392-406 | A line gives a row exactly when it is non-empty, its ID is decimal, it has at least five fields and its length is decimal. The row maps field 3 to the ID. |
| AllelePath.LoadRowsIs | src/fj2allele.go:389-407 | The load keeps the rows before the first bad line, a later row overwriting an earlier one, and stops with that line's fault. |
| AllelePath.LoadSequenceLookup | src/fj2allele.go:389-407 | After import_sequence, an md5sum is mapped exactly when it was before or a row before the first bad line has it. Its ID is then the one from the last such row. |
| AllelePath.LoadSequencePanics | src/fj2allele.go:394-404 | The load ends in a runtime panic exactly when its first bad line has a decimal ID but fewer than five columns. That panic is a `MissingColumn` at that line. Every other stop is an error that `import_sequence` returns, and line 551 ignores it. |
| AllelePath.LoadStopSticks | src/fj2allele.go:397-404 | Once the load has stopped, later lines change nothing. |
| AllelePath.InputName | src/fj2allele.go:557-561 | The sample name of "name,file" has no comma, and a bare name is itself. |
| AllelePath.CallsetsOverwrite | src/fj2allele.go:556-563 | Registering the inputs one by one inserts their CallSet rows into the map in order. |
| AllelePath.CallsetLookup | src/fj2allele.go:556-563 | A name has a CallSet exactly when it had one or some input carries it. The last such input i gives `{start+i, name, name}`. |
| AllelePath.CallsetOfInput | src/fj2allele.go:556-563 | With distinct sample names, input i gets CallSet id `g_START_CALLSET_ID + i`, with name and sample id the name. |
| AllelePath.InitAlleleFacts | src/fj2allele.go:216-226 | A new key gets the counter's Allele id, an empty path and a ploidy-1 call for the sample's CallSet, and the counter goes up by one. A known key changes nothing. |
| AllelePath.InitExtends | src/fj2allele.go:216-226 | When the maps share their keys, initialising rewrites no allele, shortens no path and changes no call. |
| AllelePath.InitKeepsValid | src/fj2allele.go:214-226 | Initialising keeps the allele invariant. The three maps share their keys, ids are distinct and dense from the start, and every path is valid. |
| AllelePath.ExtendGrows | src/fj2allele.go:262-285 | A path grows by three items for its first tile and by two after that, keeping what was there. The new items carry the body's and trailing tag's ids, after the leading tag's when the path was empty. |
| AllelePath.ExtendKeepsValid | src/fj2allele.go:246-287 | Every item's PathItemIndex equals its position, with Start 0, Length -1 and strand TRUE. The path is one leading tag followed by (body, trailing tag) pairs. |
| AllelePath.AppendTileFaults | src/fj2allele.go:230-280 | Appending a tile fails exactly when it has fewer than 48 bases, its md5sum is not the declared one, or one of the three parts is missing from the Sequence map. A short tile fails with its length, and a wrong md5sum with both md5sums. |
| AllelePath.AppendWithoutHeaderFails | src/fj2allele.go:235-238 | Bases before the first header are always fatal. |
| AllelePath.AppendTileExtends | src/fj2allele.go:244-287 | A successful append only extends the previous header's path, with the Sequence ids of the tile's parts. |
| AllelePath.AppendKeepsValid | src/fj2allele.go:228-287 | Appending to a known allele keeps the allele invariant. |
| AllelePath.AppendPendingKeeps | src/fj2allele.go:228-287 | Appending the pending bases, when there are any, keeps the invariant and rewrites nothing. |
| AllelePath.HeaderLineStep | src/fj2allele.go:193-303 | A header initialises its allele first, then appends the pending bases to the previous allele, and becomes prev. |
| AllelePath.StepKeepsValid | src/fj2allele.go:189-307 | One line event keeps the invariant, rewrites no allele or call, shortens no path, and leaves prev naming a known allele. |
| AllelePath.ReplayKeepsValid | src/fj2allele.go:172-373 | Replaying a file keeps the invariant and is append-only. |
| AllelePath.ReplayFileKeepsValid | src/fj2allele.go:172-373 | import_fastj over a file's lines keeps the invariant and is append-only. |
| AllelePath.NoAllelesValid | src/fj2allele.go:146-156 | The empty allele maps satisfy the invariant. |
| Fj2Allele.AlleleBuilder.constructor | src/fj2allele.go:146-156 | The maps start empty and the counters come from the flags. The allele invariant holds. |
| Fj2Allele.AlleleBuilder.ImportSequence | src/fj2allele.go:382-411 | The line loop leaves `g_md5_seqid_map` as `LoadSequence` says, and returns the same stop. |
| Fj2Allele.AlleleBuilder.ReadSequenceLine | src/fj2allele.go:390-404 | Reading one line is `ParseSeqLine`. |
| Fj2Allele.AlleleBuilder.PopulateCallsets | src/fj2allele.go:556-563 | The CallSet loop leaves `g_callset` as `Callsets` says. |
| Fj2Allele.AlleleBuilder.InitAlleleAt | src/fj2allele.go:214-226 | The in-place first sighting is `InitAllele`. |
| Fj2Allele.AlleleBuilder.AppendTileItems | src/fj2allele.go:228-287 | The in-place append succeeds exactly when `AppendTile` does, and leaves its state. A failure carries its fault. |
| Fj2Allele.AlleleBuilder.HeaderStep | src/fj2allele.go:193-304 | A header line does what `HeaderEvent` says: the state, the new prev, or the fault. |
| Fj2Allele.AlleleBuilder.ReadHeaderKey | src/fj2allele.go:200-212 | The allele key of a header is `HeaderKey`, faults included. |
| Fj2Allele.AlleleBuilder.StartAllele | src/fj2allele.go:214-287 | Initialising, then appending the pending bases, is `AppendPending` after `InitAllele`. |
| Fj2Allele.AlleleBuilder.AppendPendingItems | src/fj2allele.go:228-290 | Bases gathered since the last header, if any, are appended as `AppendPending` says. |
| Fj2Allele.AlleleBuilder.ImportFastj | src/fj2allele.go:172-373 | The line loop ends with the state `ReplayFile` computes, and a successful run keeps the allele invariant. It fails exactly when `ReplayFile` does, with its fault. |
| Fj2Allele.AlleleBuilder.ImportLine | src/fj2allele.go:189-308 | One turn of the line loop keeps the replay on course, or ends it with the fault the replay gives. |
| Fj2Allele.AlleleBuilder.FinishFile | src/fj2allele.go:311-368 | The final flush is the replay of the end-of-input event. |
| Fj2Allele.AppendItems | src/fj2allele.go:262-285 | The three appends of one tile are `Extend`. |
| Tileset.TagLineFacts | src/tileset2fj.go:86-88 | A line gives a pair exactly when it is non-empty and has exactly two comma fields. The pair is those fields, which join back to the line. |
| Tileset.LoadTagsIs | src/tileset2fj.go:83-93 | The load keeps the pairs before the first bad line in both maps, a later line overwriting an earlier one. It stops with that line's number. |
| Tileset.LoadTagsetLookup | src/tileset2fj.go:83-93 | Position p maps to a tag exactly when it did before or a line before the first bad one names it. It then maps to the tag of the last such line. The same holds for a tag and its position. |
| Tileset.PositionRowsFrom | src/tileset2fj.go:90-91 | Each kept position→tag pair comes from a line "p,t" of the file, and its mirror is kept tag→position. |
| Tileset.LoadTagsetStops | src/tileset2fj.go:84-88 | load_tagset stops exactly when some non-empty line does not have two fields. It stops with the 1-based number of the first such line. |
| Tileset.LoadSeqFacts | src/tileset2fj.go:98-109 | g_seq is the last non-empty line, lower-cased, or the old value lower-cased when there is none. It has no upper-case letter. |
| Tileset.IndexMap | src/tileset2fj.go:133-138 | tagpos_ind has exactly the tile set's positions, each mapped to the first index of its tag in g_seq, or -1. |
| Tileset.FoundAt | src/tileset2fj.go:135-137 | The index read for a sorted position is the first place its tag occurs in g_seq, or -1 when it does not occur. |
| Tileset.Gap | src/tileset2fj.go:148-151 | The inner scan ends at the first found position after the start, or at the end of the list. Every position it skips has an unfound tag. |
| Tileset.EmitsIff | src/tileset2fj.go:146-153 | A position starts a tile exactly when its tag is found and the tag of some later position is found. An unfound position and the last found one start none. |
| Tileset.Starts | src/tileset2fj.go:146-153 | The starts are strictly increasing and each one starts a tile. |
| Tileset.StartsComplete | src/tileset2fj.go:146-153 | Every position that starts a tile is among the starts. |
| Tileset.StartsChain | src/tileset2fj.go:148-153 | Each start after the first is where the scan from the previous start ends. |
| Tileset.TilingIs | src/tileset2fj.go:146-178 | The tiles written are the tiles of the starts, in order, up to the first that panics. The run stops with that panic, or completes with one tile per start. |
| Tileset.MakeTileFaults | src/tileset2fj.go:155-171 | A tile panics exactly when `g_seq[sp:ep]` is out of range, the position has no '.', or the slice is shorter than 24. A slice out of range is the fault reported, whatever else is wrong. |
| Tileset.MakeTileFacts | src/tileset2fj.go:155-171 | A tile holds exactly `g_seq[sp:ep]`, with seedTileLength n. Its tags are its first and last 24 bases, and its locus runs from sp+seq_start to ep+seq_start-1. |
| Tileset.TileTags | src/tileset2fj.go:155-171 | A tile runs from its position's found tag to 24 past the next found tag. seedTileLength is the gap in sorted indices. When those two tags are 24 bases long, they are its start and end tags. |
| Tileset.TileAtFacts | src/tileset2fj.go:155-158 | For a scan of gap n from i to j, the tile's bases run from the tag index at i to 24 past the tag index at j, with seedTileLength n. Its tags and locus are the matching slices and offsets. |
| Tileset.TilesOverlap | src/tileset2fj.go:146-178 | Consecutive tiles share a tag: one tile's end tag is the next tile's start tag, and the next locus starts 23 before this one ends. |
| Tileset.GenTilingOrderFree | src/tileset2fj.go:132-180 | gen_tiling writes the same tiles and stops the same way for every map order. |
| Tileset.TileIdParts | src/tileset2fj.go:160-161 | The tile id splits into the zero-padded path, "00", the zero-padded step and "000". The padded parts are at least 3 and 4 long and end with the path and the step. |
| Tileset.TileLinesFacts | src/tileset2fj.go:167-176 | A tile is written as "> " and its header, then lines of 1 to 50 bases that concatenate to its bases, then an empty line. |
| Tileset2Fj.Tiler.constructor | src/tileset2fj.go:64-68 | The maps and g_seq start empty. The build prefix and the offset come from the command line (lines 184-185). |
| Tileset2Fj.Tiler.LoadTagset | src/tileset2fj.go:80-96 | The line loop leaves g_tagset and g_tagseq as `LoadTagset` says, and returns the same stop. |
| Tileset2Fj.Tiler.LoadSeq | src/tileset2fj.go:98-109 | The line loop leaves g_seq as `LoadSeq` says. |
| Tileset2Fj.Tiler.IndexTags | src/tileset2fj.go:133-138 | tagpos_ind maps each position to the first index of its tag in g_seq. |
| Tileset2Fj.Tiler.GenTiling | src/tileset2fj.go:132-180 | The tiles written and the panic that ends the run are `GenTiling`, and the text written is their rendering. |
| Tileset2Fj.Tiler.WalkTiles | src/tileset2fj.go:146-178 | The main loop over the sorted positions writes the tiles of `Tiling` and their text. |
| Tileset2Fj.Tiler.WalkStep | src/tileset2fj.go:146-176 | One turn of the main loop keeps the run on course, or ends it with the panic the run gives. |
| Tileset2Fj.Tiler.NextTile | src/tileset2fj.go:147-171 | A turn gives nothing when the position starts no tile, otherwise that tile or its panic. |
| Tileset2Fj.Tiler.ScanGap | src/tileset2fj.go:148-151 | The inner scan finds the gap to the next found position, or reaches the end. |
| Tileset2Fj.Tiler.CutTile | src/tileset2fj.go:155-171 | The slice, the tile id and the header fields are `MakeTile`, faults included. |
| Tileset2Fj.Tiler.TileText | src/tileset2fj.go:162-176 | The text of a tile is the header with the md5sum of its bases, then print_fold of the bases, then an empty line. |
| Tileset2Fj.Tiler.Convert | src/tileset2fj.go:207-211 | _main's work loads the tile set, ignoring its error, then loads the sequence and cuts the tiles, each as specified. |
| Anchors.CommitKeepsAnchors | src/create_tile_graph.go:218-245 | Recording a checked tile keeps every emittable tile's two anchor ids in g_id_tag. An old variant keeps its sequence and seed length. The new one is named by the emitters exactly as lines 222-229 named it. This holds when the md5sum's sequence, if already filed, is this tile's. |
| Anchors.CommitNamesNewAnchors | src/create_tile_graph.go:222-229 | For the variant a commit adds, the emitters' leading id under the raw key equals the one ingest stored. So does the trailing id under `%03x.%04x` of (path, step+seedlen). Both are in g_id_tag. |
| Anchors.CommitKeepsOldAnchors | src/create_tile_graph.go:218-245 | A variant known before the commit keeps anchors that are already recorded. |
| Anchors.TileNamesAnchorsFrame | src/create_tile_graph.go:325-347 | A tile's anchor ids, and whether its names compute, depend only on its sequence and its seed length, not on its rank or frequency. |
| Anchors.RunKeepsAnchors | src/create_tile_graph.go:163-311 | The event fold of import_fastj keeps every emittable anchor recorded, provided no two different library or flushed sequences share a digest. |
| Anchors.IngestKeepsAnchors | src/create_tile_graph.go:163-311 | import_fastj over a file's lines keeps every emittable anchor recorded, under the same hypothesis on the file's tile sequences. |
| Anchors.EmptyLibraryAnchors | src/create_tile_graph.go:126-134 | init()'s empty library satisfies the anchor invariant. |
| Anchors.RankAllKeepsAnchors | src/create_tile_graph.go:547-578 | rank_tile_lib changes only ranks, so the anchors stay recorded. |
| Anchors.SequencesNumberAnchors | src/create_tile_graph.go:400-447 | On a valid library with its anchors recorded, emit_sequences gives a Sequence id to both anchors and the body of every tile whose names compute. |
| Anchors.JoinsUseSequenceIds | src/create_tile_graph.go:451-531 | After emit_sequences, both sides of every GraphJoin row are Sequence ids it assigned, never the zero value of a missed lookup. Each row is an edge of a visited tile whose three ids are all numbered. |

## Left out

- Files, `autoio` readers and writers, and `bufio` output are not modelled.
  - The programs' inputs are sequences of lines.
  - Their outputs are sequences of lines or rows.
- For create_tile_graph (`import_fastj` and the emitters) and for fj2allele's `import_fastj`, the model records only what a fault-free run writes, or the fault that stops it.
  - When one of these runs stops, the lines already written are not modelled.
  - Runs whose partial output matters keep it. tileset2fj's tiles and their text up to the first panic are modelled (`Tileset.Tiling`, `Tileset2Fj.Tiler.GenTiling`). So are the maps that load_tagset and import_sequence fill before their first bad line.
- Anchors.AnchorsRecorded: states only that the emitters' anchor ids are among those ingest recorded, not the converse. A second sighting of a variant with another seedTileLength records one more trailing id (src/create_tile_graph.go:229), but the variant keeps its first seed length (line 240), so no emitter names that id.
- The MD5 digest itself (`crypto/md5`) is a foreign call: it is the parameter `md5`.
- `sloppyjson.Loads` is a foreign library: it is the parameter `HeaderParser`.
- The command line, profiling (`pprof`) and `runtime.GOMAXPROCS` are not modelled: they do not affect the data.
  - The flag values appear as constructor parameters.
  - tileset2fj's init() sets `g_build_prefix` to "unknown". `_main` always overwrites it, so the constructor takes the prefix directly.
- `_main`'s loops over the input files (src/create_tile_graph.go:645-662, src/fj2allele.go:567-582) are not modelled.
  - They call `import_fastj` once per file and stop at its first error.
  - The model has one `ImportFastj` per file, and its invariant lemmas hold for any number of files in a row.
- `_main`'s sequence of calls (src/create_tile_graph.go:668-689) is not modelled as one method. Each call is modelled.
- `dump_raw`, `g_path_md5sum` and `g_path_md5sum_freq` (src/create_tile_graph.go:140-146, 198-205) are auxiliary output, not read by any other step.
  - The panic at line 204 for a tileID of fewer than four parts is kept, in `FastJ.ParseTileId`.
- `emit_fasta_sql_csv` (src/create_tile_graph.go:313-316) writes one constant line and is not modelled.
- These fj2allele outputs are only dumps of the maps the model computes, and are not modelled:
  - `emit_allele`, `emit_callset`, `emit_allele_call` and `emit_allele_path_item` (src/fj2allele.go:415-485);
  - their unreachable code after `return`.
- `find_tag_positions` (src/tileset2fj.go:111-113) has an empty body.
- Error message texts are not modelled. A fault carries only the values that identify it.
  - load_tagset's message formats the line number with `%s` (src/tileset2fj.go:88). `_main` ignores that error anyway.
- `strings.ToLower` is modelled on ASCII letters only. Unicode case mapping is not modelled.
- Go strings are modelled as sequences of characters, not UTF-8 bytes.
- `%03s` / `%04s` in the tile id is modelled as left padding with '0', which is what Go's `fmt` prints for a string under the `0` flag.
- Go `int` overflow is not modelled except in the trailing anchor's `step + seedlen`.
  - Examples: `sp + g_seq_start`, seq_id and gj_id.
  - All other arithmetic is on unbounded integers.
- `Text.LexLess` compares by code point. This is Go's byte order for valid UTF-8.
