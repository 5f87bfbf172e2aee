/** md5sum_str: the MD5 digest of a string rendered as 32 lowercase hex
    digits.  The digest itself is a parameter; only its rendering is
    modelled. */
module Md5 {
  import opened Wrappers
  import opened Hex
  import opened Text

  newtype Byte = x: int | 0 <= x < 256

  /** md5.Sum's [16]byte. */
  type Digest = d: seq<Byte> | |d| == 16 witness seq(16, _ => 0 as Byte)

  /** crypto/md5's Sum over the string's bytes. */
  type Md5Fn = string -> Digest

  /** fmt.Sprintf("%02x", b). */
  function ByteHex(b: Byte): (h: string)
    ensures |h| == 2 && IsLowerHexDigit(h[0]) && IsLowerHexDigit(h[1])
  {
    assert Pow(16, 2) == 256 by { assert Pow(16, 1) == 16; }
    FmtHexWidth(b as nat, 2);
    FmtHex(b as int, 2)
  }

  /** "%02x" of every byte, joined without separator. */
  function HexBytes(bs: seq<Byte>): (h: string)
    ensures |h| == 2 * |bs|
    ensures forall i :: 0 <= i < |h| ==> IsLowerHexDigit(h[i])
  {
    if |bs| == 0 then "" else ByteHex(bs[0]) + HexBytes(bs[1..])
  }

  /** md5sum_str(s) as a value. */
  function Md5Sum(md5: Md5Fn, s: string): (h: string)
    ensures |h| == 32
    ensures forall i :: 0 <= i < |h| ==> IsLowerHexDigit(h[i])
  {
    HexBytes(md5(s))
  }

  /** md5sum_str (src/create_tile_graph.go:116-123): append "%02x" of each
      digest byte to a list, then join the list. */
  method Md5SumStr(md5: Md5Fn, s: string) returns (h: string)
    ensures h == Md5Sum(md5, s)
  {
    var sum := md5(s);
    var ta: seq<string> := [];
    var i := 0;
    while i < |sum|
      invariant 0 <= i <= |sum| && |ta| == i
      invariant Concat(ta) == HexBytes(sum[..i])
    {
      ConcatSnoc(ta, ByteHex(sum[i]));
      HexBytesSnoc(sum[..i], sum[i]);
      assert sum[..i + 1] == sum[..i] + [sum[i]];
      ta := ta + [ByteHex(sum[i])];
      i := i + 1;
    }
    assert sum[..i] == sum;
    h := Concat(ta);
  }

  lemma {:induction false} HexBytesSnoc(bs: seq<Byte>, b: Byte)
    ensures HexBytes(bs + [b]) == HexBytes(bs) + ByteHex(b)
  {
    if |bs| > 0 {
      assert (bs + [b])[1..] == bs[1..] + [b];
      HexBytesSnoc(bs[1..], b);
    }
  }

  /** The rendering loses nothing: equal renderings come from equal byte
      strings. */
  lemma {:induction false} HexBytesInjective(a: seq<Byte>, b: seq<Byte>)
    requires HexBytes(a) == HexBytes(b)
    ensures a == b
  {
    if |a| > 0 {
      var ha := HexBytes(a);
      assert ha[..2] == ByteHex(a[0]) && ha[2..] == HexBytes(a[1..]);
      assert ha[..2] == ByteHex(b[0]) && ha[2..] == HexBytes(b[1..]);
      ParseFmtHex(a[0] as int, 2);
      ParseFmtHex(b[0] as int, 2);
      HexBytesInjective(a[1..], b[1..]);
      assert a == [a[0]] + a[1..] && b == [b[0]] + b[1..];
    }
  }

  /** Two strings have the same md5sum text exactly when their digests are
      equal. */
  lemma Md5SumSameDigest(md5: Md5Fn, s: string, t: string)
    ensures Md5Sum(md5, s) == Md5Sum(md5, t) <==> md5(s) == md5(t)
  {
    if Md5Sum(md5, s) == Md5Sum(md5, t) {
      HexBytesInjective(md5(s), md5(t));
    }
  }

  /** An md5sum is never one of the separators the ids are built with. */
  lemma Md5SumHasNoSeparator(md5: Md5Fn, s: string)
    ensures '.' !in Md5Sum(md5, s) && ':' !in Md5Sum(md5, s) && ',' !in Md5Sum(md5, s)
  {
  }
}
