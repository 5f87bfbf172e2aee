/** Folding a sequence into fixed-width lines: the body loop of emit_fasta
    (src/create_tile_graph.go:371-388) and print_fold
    (src/tileset2fj.go:115-124). Both write s[p:p+fold] while
    p < len(s)-fold, stepping p by fold, and then the remainder s[p:]. */
module Fold {
  import opened Text

  /** The lines written for s: full lines of `fold` characters while more
      than `fold` characters remain, then the rest (possibly empty) on a
      line of its own. */
  function FoldLines(s: string, fold: nat): (lines: seq<string>)
    requires fold > 0
    decreases |s|
  {
    if |s| <= fold then [s] else [s[..fold]] + FoldLines(s[fold..], fold)
  }

  /** The lines put back together give s; every line is at most `fold`
      long, every line but the last exactly `fold`, and when s is not empty
      no line is empty. */
  lemma {:induction false} FoldLinesFacts(s: string, fold: nat)
    requires fold > 0
    ensures var lines := FoldLines(s, fold);
      && |lines| >= 1
      && Concat(lines) == s
      && (forall i :: 0 <= i < |lines| ==> |lines[i]| <= fold)
      && (forall i :: 0 <= i < |lines| - 1 ==> |lines[i]| == fold)
      && (|s| > 0 ==> forall i :: 0 <= i < |lines| ==> |lines[i]| > 0)
    decreases |s|
  {
    if |s| > fold {
      FoldLinesFacts(s[fold..], fold);
      var lines := FoldLines(s, fold);
      var rest := FoldLines(s[fold..], fold);
      assert lines == [s[..fold]] + rest;
      assert lines[1..] == rest;
      assert s == s[..fold] + s[fold..];
      forall i | 1 <= i < |lines| ensures lines[i] == rest[i - 1] { }
    }
  }

  /** The fold loop itself. */
  method FoldBody(s: string, fold: nat) returns (lines: seq<string>)
    requires fold > 0
    ensures lines == FoldLines(s, fold)
  {
    lines := [];
    var p := 0;
    while p < |s| - fold
      invariant 0 <= p <= |s|
      invariant lines + FoldLines(s[p..], fold) == FoldLines(s, fold)
      decreases |s| - p
    {
      assert s[p..][fold..] == s[p + fold..];
      assert s[p..][..fold] == s[p..p + fold];
      lines := lines + [s[p..p + fold]];
      p := p + fold;
    }
    lines := lines + [s[p..]];
  }

  /** print_fold: nothing at all for an empty string, otherwise the folded
      lines. */
  function PrintFold(s: string, fold: nat): (lines: seq<string>)
    requires fold > 0
  {
    if |s| == 0 then [] else FoldLines(s, fold)
  }

  /** What print_fold promises: no output for the empty string; otherwise
      non-empty lines of at most `fold` characters that concatenate to the
      input. */
  lemma PrintFoldFacts(s: string, fold: nat)
    requires fold > 0
    ensures var lines := PrintFold(s, fold);
      && (|s| == 0 <==> |lines| == 0)
      && Concat(lines) == s
      && (forall i :: 0 <= i < |lines| ==> 0 < |lines[i]| <= fold)
  {
    FoldLinesFacts(s, fold);
  }

  /** The print_fold loop: the empty-string return, then the fold loop. */
  method PrintFoldLines(s: string, fold: nat) returns (lines: seq<string>)
    requires fold > 0
    ensures lines == PrintFold(s, fold)
  {
    if |s| == 0 {
      return [];
    }
    lines := FoldBody(s, fold);
  }
}
