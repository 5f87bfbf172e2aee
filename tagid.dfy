/** Anchor (tag) ids: create_tag_id, and the context keys written around it.
    An id is "<md5sum of the tag>.<context key>.t<no-call mask as %06x>". */
module TagId {
  import opened Wrappers
  import opened Hex
  import opened Text
  import opened Md5

  const TAG_LEN: nat := 24

  predicate IsNoCall(c: char)
  {
    c == 'n' || c == 'N'
  }

  /** Bit i of the mask stands for character 23 - i of the tag. */
  function NoCallBit(tag: string, i: nat): (b: nat)
    requires |tag| >= TAG_LEN && i < TAG_LEN
    ensures b <= 1 && (b == 1 <==> IsNoCall(tag[23 - i]))
  {
    if IsNoCall(tag[23 - i]) then 1 else 0
  }

  /** The mask bits lo..23 as a number (bit lo lowest). */
  function MaskFrom(tag: string, lo: nat): nat
    requires |tag| >= TAG_LEN && lo <= TAG_LEN
    decreases TAG_LEN - lo
  {
    if lo == TAG_LEN then 0 else NoCallBit(tag, lo) + 2 * MaskFrom(tag, lo + 1)
  }

  /** The 24-bit no-call mask of a tag. */
  function NoCallMask(tag: string): nat
    requires |tag| >= TAG_LEN
  {
    MaskFrom(tag, 0)
  }

  /** The mask bits 0..i-1: what the loop has accumulated after i rounds. */
  function LowMask(tag: string, i: nat): nat
    requires |tag| >= TAG_LEN && i <= TAG_LEN
  {
    if i == 0 then 0 else LowMask(tag, i - 1) + NoCallBit(tag, i - 1) * Pow(2, i - 1)
  }

  /** Bit i of n. */
  function Bit(n: nat, i: nat): nat
  {
    if i == 0 then n % 2 else Bit(n / 2, i - 1)
  }

  /** n | (1 << i). */
  function SetBit(n: nat, i: nat): nat
  {
    if Bit(n, i) == 1 then n else n + Pow(2, i)
  }

  /** create_tag_id as a value (src/create_tile_graph.go:148-154). */
  function TagIdOf(md5: Md5Fn, context: string, tag: string): string
    requires |tag| >= TAG_LEN
  {
    Md5Sum(md5, tag) + "." + context + ".t" + FmtHex(NoCallMask(tag), 6)
  }

  /** The context key "%03x.%04x" of (path, step). */
  function ContextKey(path: int, step: int): string
  {
    FmtHex(path, 3) + "." + FmtHex(step, 4)
  }

  /** The trailing anchor's context key: the tile's path with its step
      advanced by the seed length, in int64 arithmetic
      (src/create_tile_graph.go:228). */
  function TrailingContext(path: Int64, step: Int64, seedLen: Int64): string
  {
    ContextKey(path, Wrap64(step + seedLen))
  }

  /** A hex token is canonical for a width when it is exactly the %0<w>x
      rendering of its own value. */
  predicate Canonical(token: string, w: nat)
  {
    ParseInt(token, 16).Some? && token == FmtHex(ParseInt(token, 16).value, w)
  }

  // ---------------------------------------------------------------------
  // create_tag_id, as the loop the source runs

  /** create_tag_id (src/create_tile_graph.go:148-154,
      src/fj2allele.go:158-164): OR bit i into the mask when character 23 - i
      is a no-call, for i = 0..23, then format. */
  method CreateTagId(md5: Md5Fn, tilePath: string, tagSeq: string) returns (id: string)
    requires |tagSeq| >= TAG_LEN
    ensures id == TagIdOf(md5, tilePath, tagSeq)
  {
    var noCallBitvec: nat := 0;
    var i := 0;
    while i < 24
      invariant 0 <= i <= 24
      invariant noCallBitvec == LowMask(tagSeq, i)
    {
      LowMaskBound(tagSeq, i);
      BitAboveBound(noCallBitvec, i);
      if tagSeq[23 - i] == 'n' || tagSeq[23 - i] == 'N' {
        noCallBitvec := SetBit(noCallBitvec, i);
      }
      i := i + 1;
    }
    LowMaskComplete(tagSeq);
    var m5 := Md5SumStr(md5, tagSeq);
    id := m5 + "." + tilePath + ".t" + FmtHex(noCallBitvec, 6);
  }

  // ---------------------------------------------------------------------
  // Lemmas

  lemma {:induction false} LowMaskBound(tag: string, i: nat)
    requires |tag| >= TAG_LEN && i <= TAG_LEN
    ensures LowMask(tag, i) < Pow(2, i)
  {
    if i > 0 {
      LowMaskBound(tag, i - 1);
    }
  }

  /** Low bits plus the high bits shifted into place give the whole mask. */
  lemma {:induction false} LowMaskSplit(tag: string, i: nat)
    requires |tag| >= TAG_LEN && i <= TAG_LEN
    ensures LowMask(tag, i) + Pow(2, i) * MaskFrom(tag, i) == NoCallMask(tag)
  {
    if i > 0 {
      LowMaskSplit(tag, i - 1);
      var b := NoCallBit(tag, i - 1);
      var p := Pow(2, i - 1);
      var m1 := MaskFrom(tag, i);
      assert Pow(2, i) == 2 * p;
      MaskStep(LowMask(tag, i - 1), b, p, m1, MaskFrom(tag, i - 1), Pow(2, i), NoCallMask(tag));
    }
  }

  /** The arithmetic of one step of LowMaskSplit. */
  lemma MaskStep(low: nat, b: nat, p: nat, m1: nat, m: nat, q: nat, n: nat)
    requires low + p * m == n && m == b + 2 * m1 && q == 2 * p
    ensures (low + b * p) + q * m1 == n
  {
    Distribute(p, b, m1);
  }

  lemma LowMaskComplete(tag: string)
    requires |tag| >= TAG_LEN
    ensures LowMask(tag, TAG_LEN) == NoCallMask(tag)
  {
    LowMaskSplit(tag, TAG_LEN);
    MulZero(Pow(2, TAG_LEN), MaskFrom(tag, TAG_LEN));
  }

  lemma MulZero(p: nat, m: nat)
    requires m == 0
    ensures p * m == 0
  {
  }

  lemma Distribute(p: nat, b: nat, m: nat)
    ensures b * p + (2 * p) * m == p * (b + 2 * m)
  {
  }

  /** A number below 2^i has bit i clear, so OR-ing bit i adds 2^i. */
  lemma {:induction false} BitAboveBound(n: nat, i: nat)
    requires n < Pow(2, i)
    ensures Bit(n, i) == 0
  {
    if i > 0 {
      BitAboveBound(n / 2, i - 1);
    }
  }

  lemma {:induction false} MaskFromBound(tag: string, lo: nat)
    requires |tag| >= TAG_LEN && lo <= TAG_LEN
    ensures MaskFrom(tag, lo) < Pow(2, TAG_LEN - lo)
    decreases TAG_LEN - lo
  {
    if lo < TAG_LEN {
      MaskFromBound(tag, lo + 1);
    }
  }

  lemma {:induction false} MaskFromBits(tag: string, lo: nat, i: nat)
    requires |tag| >= TAG_LEN && lo <= TAG_LEN
    ensures Bit(MaskFrom(tag, lo), i) == (if lo + i < TAG_LEN then NoCallBit(tag, lo + i) else 0)
    decreases TAG_LEN - lo
  {
    if lo == TAG_LEN {
      BitOfZero(i);
    } else {
      var m := MaskFrom(tag, lo);
      assert m % 2 == NoCallBit(tag, lo) && m / 2 == MaskFrom(tag, lo + 1);
      if i > 0 {
        MaskFromBits(tag, lo + 1, i - 1);
      }
    }
  }

  lemma {:induction false} BitOfZero(i: nat)
    ensures Bit(0, i) == 0
  {
    if i > 0 {
      BitOfZero(i - 1);
    }
  }

  lemma {:induction false} Pow2Pow16(k: nat)
    ensures Pow(2, 4 * k) == Pow(16, k)
  {
    if k > 0 {
      Pow2Pow16(k - 1);
      var n := 4 * (k - 1);
      assert Pow(2, n + 4) == 2 * Pow(2, n + 3) == 4 * Pow(2, n + 2) == 8 * Pow(2, n + 1) == 16 * Pow(2, n);
    }
  }

  /** Bit i of the mask is set exactly when character 23 - i of the tag is a
      no-call ('n' or 'N'); no bit at or above 24 is set, so the mask is below
      2^24. */
  lemma NoCallMaskBits(tag: string, i: nat)
    requires |tag| >= TAG_LEN
    ensures i < TAG_LEN ==> (Bit(NoCallMask(tag), i) == 1 <==> IsNoCall(tag[23 - i]))
    ensures i >= TAG_LEN ==> Bit(NoCallMask(tag), i) == 0
    ensures NoCallMask(tag) < Pow(2, TAG_LEN)
  {
    MaskFromBits(tag, 0, i);
    MaskFromBound(tag, 0);
  }

  /** The mask is printed as exactly six lowercase hex digits. */
  lemma MaskHexWidth(tag: string)
    requires |tag| >= TAG_LEN
    ensures |FmtHex(NoCallMask(tag), 6)| == 6
    ensures forall i :: 0 <= i < 6 ==> IsLowerHexDigit(FmtHex(NoCallMask(tag), 6)[i])
  {
    MaskFromBound(tag, 0);
    Pow2Pow16(6);
    FmtHexWidth(NoCallMask(tag), 6);
  }

  /** An id starts with the tag's 32-digit md5sum and a '.', ends with ".t"
      and six hex digits, and those six digits parse back to the mask. */
  lemma TagIdLayout(md5: Md5Fn, context: string, tag: string)
    requires |tag| >= TAG_LEN
    ensures var id := TagIdOf(md5, context, tag);
      && |id| == 32 + 1 + |context| + 2 + 6
      && id[..32] == Md5Sum(md5, tag) && id[32] == '.'
      && id[|id| - 8..|id| - 6] == ".t"
      && ParseInt(id[|id| - 6..], 16) == Some(NoCallMask(tag))
  {
    MaskHexWidth(tag);
    MaskFromBound(tag, 0);
    Pow2Pow16(6);
    assert Pow(16, 6) == 16777216 by {
      assert Pow(16, 1) == 16 && Pow(16, 2) == 256 && Pow(16, 3) == 4096;
      assert Pow(16, 4) == 65536 && Pow(16, 5) == 1048576;
    }
    ParseFmtHex(NoCallMask(tag), 6);
    var id := TagIdOf(md5, context, tag);
    assert id[|id| - 6..] == FmtHex(NoCallMask(tag), 6);
  }

  /** Two anchors with the same context and the same id have their no-calls
      at the same positions: the id keeps the no-call pattern apart. */
  lemma TagIdKeepsNoCalls(md5: Md5Fn, context: string, t1: string, t2: string, i: nat)
    requires |t1| >= TAG_LEN && |t2| >= TAG_LEN && i < TAG_LEN
    requires TagIdOf(md5, context, t1) == TagIdOf(md5, context, t2)
    ensures IsNoCall(t1[23 - i]) <==> IsNoCall(t2[23 - i])
  {
    TagIdLayout(md5, context, t1);
    TagIdLayout(md5, context, t2);
    NoCallMaskBits(t1, i);
    NoCallMaskBits(t2, i);
  }

  /** The trailing anchor of a tile at (path, step) with seed length L and
      the leading anchor of the tile whose tileID tokens are the canonical
      %03x / %04x renderings of (path, step + L) get the same id for the
      same 24 bases: the two context keys agree. */
  lemma TrailingMeetsLeading(md5: Md5Fn, path: Int64, step: Int64, seedLen: Int64,
                             nextPathToken: string, nextStepToken: string, tag: string)
    requires |tag| >= TAG_LEN
    requires Canonical(nextPathToken, 3) && ParseInt(nextPathToken, 16) == Some(path)
    requires Canonical(nextStepToken, 4) && ParseInt(nextStepToken, 16) == Some(Wrap64(step + seedLen))
    ensures TagIdOf(md5, TrailingContext(path, step, seedLen), tag)
         == TagIdOf(md5, nextPathToken + "." + nextStepToken, tag)
  {
  }

  /** Without canonical tokens the keys need not agree: the leading key "a.1"
      and the trailing key "00a.0001" name the same (path, step). */
  lemma NonCanonicalKeysDiffer()
    ensures ParseInt("a", 16) == Some(10) && ParseInt("1", 16) == Some(1)
    ensures ContextKey(10, 1) == "00a.0001" && "a" + "." + "1" != ContextKey(10, 1)
  {
    assert DigitsValue("a", 16) == 10 by { assert "a"[..0] == ""; }
    assert DigitsValue("1", 16) == 1 by { assert "1"[..0] == ""; }
    assert Digits(10, 16) == "a";
    assert Digits(1, 16) == "1";
    assert ZeroPad("a", 3) == "00a";
    assert ZeroPad("1", 4) == "0001";
  }
}
