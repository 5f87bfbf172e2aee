/** Go's integer formatting (%x, %0Nx, %d) and strconv.ParseInt for bases 10
    and 16, with the 64-bit range the Go program works in. */
module Hex {
  import opened Wrappers

  const INT64_MIN: int := -0x8000_0000_0000_0000
  const INT64_MAX: int := 0x7fff_ffff_ffff_ffff

  type Int64 = x: int | -0x8000_0000_0000_0000 <= x <= 0x7fff_ffff_ffff_ffff

  /** Two's-complement wrap-around of Go's int64 addition. */
  function Wrap64(x: int): (r: Int64)
    ensures (r - x) % 0x1_0000_0000_0000_0000 == 0
    ensures INT64_MIN <= x <= INT64_MAX ==> r == x
  {
    var m := x % 0x1_0000_0000_0000_0000;
    if m <= INT64_MAX then m else m - 0x1_0000_0000_0000_0000
  }

  function Pow(base: nat, k: nat): (p: nat)
    requires base >= 2
    ensures p >= 1
  {
    if k == 0 then 1 else base * Pow(base, k - 1)
  }

  /** The lower-case digit for 0 <= d < 16. */
  function DigitChar(d: nat): (c: char)
    requires d < 16
  {
    if d < 10 then (('0' as int) + d) as char else (('a' as int) + d - 10) as char
  }

  predicate IsLowerHexDigit(c: char)
  {
    ('0' <= c <= '9') || ('a' <= c <= 'f')
  }

  /** A character strconv.ParseInt accepts as a digit in `base`. */
  predicate IsDigit(c: char, base: nat)
  {
    ('0' <= c <= '9' && (c as int) - ('0' as int) < base)
    || (base == 16 && (('a' <= c <= 'f') || ('A' <= c <= 'F')))
  }

  function DigitValue(c: char, base: nat): (d: nat)
    requires IsDigit(c, base)
    ensures d < base
  {
    if '0' <= c <= '9' then (c as int) - ('0' as int)
    else if 'a' <= c <= 'f' then (c as int) - ('a' as int) + 10
    else (c as int) - ('A' as int) + 10
  }

  predicate AllDigits(s: string, base: nat)
  {
    forall i :: 0 <= i < |s| ==> IsDigit(s[i], base)
  }

  /** The value of a digit string, most significant digit first. */
  function DigitsValue(s: string, base: nat): nat
    requires AllDigits(s, base)
  {
    if |s| == 0 then 0
    else DigitsValue(s[..|s| - 1], base) * base + DigitValue(s[|s| - 1], base)
  }

  /** The shortest digit string of n in `base` ("0" for zero). */
  function Digits(n: nat, base: nat): (s: string)
    requires base == 10 || base == 16
    decreases n
  {
    if n < base then [DigitChar(n)] else Digits(n / base, base) + [DigitChar(n % base)]
  }

  function Zeros(k: nat): (z: string)
    ensures |z| == k && forall i :: 0 <= i < k ==> z[i] == '0'
  {
    seq(k, _ => '0')
  }

  /** Left-pad with '0' up to width w. */
  function ZeroPad(s: string, w: int): string
  {
    if |s| >= w then s else Zeros(w - |s|) + s
  }

  /** Go's fmt "%0<w>x" of an int (w = 0 gives plain "%x"): a negative value
      prints its sign, and the sign takes one place of the width. */
  function FmtHex(n: int, w: int): string
  {
    if n < 0 then "-" + ZeroPad(Digits(-n, 16), w - 1) else ZeroPad(Digits(n, 16), w)
  }

  /** Go's fmt "%d" of an int. */
  function FmtDec(n: int): string
  {
    if n < 0 then "-" + Digits(-n, 10) else Digits(n, 10)
  }

  /** strconv.ParseInt(s, base, 64): an optional sign, then at least one
      digit of `base` (either letter case), and the value must fit in int64. */
  function ParseInt(s: string, base: nat): Option<Int64>
    requires base == 10 || base == 16
  {
    var signed := |s| > 0 && (s[0] == '+' || s[0] == '-');
    var body := if signed then s[1..] else s;
    if |body| == 0 || !AllDigits(body, base) then None
    else
      var v: int := if signed && s[0] == '-' then 0 - (DigitsValue(body, base) as int) else DigitsValue(body, base);
      if INT64_MIN <= v <= INT64_MAX then Some(v) else None
  }

  // ---------------------------------------------------------------------
  // Lemmas

  lemma DigitCharValue(d: nat, base: nat)
    requires d < base && (base == 10 || base == 16)
    ensures IsDigit(DigitChar(d), base) && DigitValue(DigitChar(d), base) == d
    ensures IsLowerHexDigit(DigitChar(d))
  {
  }

  /** Digits(n) is a non-empty string of lower-case digits of `base`. */
  lemma {:induction false} DigitsWellFormed(n: nat, base: nat)
    requires base == 10 || base == 16
    ensures |Digits(n, base)| >= 1 && AllDigits(Digits(n, base), base)
    ensures forall i :: 0 <= i < |Digits(n, base)| ==> IsLowerHexDigit(Digits(n, base)[i])
    decreases n
  {
    if n < base {
      DigitCharValue(n, base);
    } else {
      DigitsWellFormed(n / base, base);
      DigitCharValue(n % base, base);
    }
  }

  /** Parsing the digits back gives the number. */
  lemma {:induction false} DigitsRoundTrip(n: nat, base: nat)
    requires base == 10 || base == 16
    ensures AllDigits(Digits(n, base), base) && DigitsValue(Digits(n, base), base) == n
    decreases n
  {
    DigitsWellFormed(n, base);
    if n < base {
      DigitCharValue(n, base);
    } else {
      var s := Digits(n, base);
      DigitsRoundTrip(n / base, base);
      DigitCharValue(n % base, base);
      assert s[..|s| - 1] == Digits(n / base, base);
    }
  }

  /** The number of digits is at most w when n < base^w (and w >= 1). */
  lemma {:induction false} DigitsLength(n: nat, base: nat, w: nat)
    requires base == 10 || base == 16
    requires w >= 1 && n < Pow(base, w)
    ensures |Digits(n, base)| <= w
    decreases n
  {
    if n >= base {
      assert w >= 2;
      assert n / base < Pow(base, w - 1);
      DigitsLength(n / base, base, w - 1);
    }
  }

  /** Leading zeros do not change the value. */
  lemma {:induction false} LeadingZerosValue(k: nat, s: string, base: nat)
    requires base == 10 || base == 16
    requires AllDigits(s, base)
    ensures AllDigits(Zeros(k) + s, base) && DigitsValue(Zeros(k) + s, base) == DigitsValue(s, base)
    decreases k + |s|
  {
    var t := Zeros(k) + s;
    assert AllDigits(t, base) by {
      forall i | 0 <= i < |t| ensures IsDigit(t[i], base) {
        if i < k { assert t[i] == '0'; } else { assert t[i] == s[i - k]; }
      }
    }
    if |s| == 0 {
      if k > 0 {
        assert t == Zeros(k - 1) + ['0'];
        assert t[..|t| - 1] == Zeros(k - 1) + [];
        LeadingZerosValue(k - 1, [], base);
      }
    } else {
      var s' := s[..|s| - 1];
      assert t[..|t| - 1] == Zeros(k) + s';
      LeadingZerosValue(k, s', base);
    }
  }

  /** ZeroPad adds zeros only; padded digits still parse to the number. */
  lemma ZeroPadDigits(n: nat, base: nat, w: int)
    requires base == 10 || base == 16
    ensures var p := ZeroPad(Digits(n, base), w);
      |p| >= 1 && AllDigits(p, base) && DigitsValue(p, base) == n
      && (forall i :: 0 <= i < |p| ==> IsLowerHexDigit(p[i]))
  {
    DigitsRoundTrip(n, base);
    DigitsWellFormed(n, base);
    var s := Digits(n, base);
    if |s| < w {
      LeadingZerosValue(w - |s|, s, base);
      var p := Zeros(w - |s|) + s;
      forall i | 0 <= i < |p| ensures IsLowerHexDigit(p[i]) {
        if i < w - |s| { assert p[i] == '0'; } else { assert p[i] == s[i - (w - |s|)]; }
      }
    }
  }

  /** %0<w>x of a non-negative n below 16^w is exactly w lower-case hex digits. */
  lemma FmtHexWidth(n: nat, w: nat)
    requires w >= 1 && n < Pow(16, w)
    ensures |FmtHex(n, w)| == w
    ensures forall i :: 0 <= i < w ==> IsLowerHexDigit(FmtHex(n, w)[i])
  {
    DigitsLength(n, 16, w);
    ZeroPadDigits(n, 16, w);
  }

  /** Formatting an int64 in hex at any width and parsing it back with
      strconv.ParseInt(_, 16, 64) recovers the number. */
  lemma ParseFmtHex(n: Int64, w: int)
    ensures ParseInt(FmtHex(n, w), 16) == Some(n)
  {
    if n < 0 {
      ParseFmtHexNegative(n, w);
    } else {
      ParseFmtHexNonNegative(n, w);
    }
  }

  lemma ParseFmtHexNegative(n: Int64, w: int)
    requires n < 0
    ensures ParseInt(FmtHex(n, w), 16) == Some(n)
  {
    var m: nat := -(n as int);
    ZeroPadDigits(m, 16, w - 1);
    var s := FmtHex(n, w);
    assert s[1..] == ZeroPad(Digits(m, 16), w - 1);
    ParseNegative(s, 16);
  }

  lemma ParseFmtHexNonNegative(n: Int64, w: int)
    requires n >= 0
    ensures ParseInt(FmtHex(n, w), 16) == Some(n)
  {
    ZeroPadDigits(n, 16, w);
    var s := FmtHex(n, w);
    assert s[0] != '+' && s[0] != '-' by {
      assert IsLowerHexDigit(s[0]);
    }
    assert AllDigits(s, 16) && DigitsValue(s, 16) == n;
  }

  /** A minus sign followed by digits whose value fits parses to its
      negation. */
  lemma ParseNegative(s: string, base: nat)
    requires base == 10 || base == 16
    requires |s| >= 2 && s[0] == '-' && AllDigits(s[1..], base)
    requires DigitsValue(s[1..], base) <= 0x8000_0000_0000_0000
    ensures ParseInt(s, base) == Some(0 - DigitsValue(s[1..], base))
  {
  }

  /** Formatting an int64 with %d and parsing it back with
      strconv.ParseInt(_, 10, 64) recovers the number. */
  lemma ParseFmtDec(n: Int64)
    ensures ParseInt(FmtDec(n), 10) == Some(n)
  {
    if n < 0 {
      var m: nat := -(n as int);
      DigitsRoundTrip(m, 10);
      DigitsWellFormed(m, 10);
      assert FmtDec(n)[1..] == Digits(m, 10);
    } else {
      DigitsRoundTrip(n, 10);
      DigitsWellFormed(n, 10);
      assert IsLowerHexDigit(FmtDec(n)[0]);
    }
  }

  /** A token strconv.ParseInt accepts holds only a sign and digits. */
  lemma ParsedTokenChars(s: string, base: nat, c: char)
    requires base == 10 || base == 16
    requires ParseInt(s, base).Some?
    requires !IsDigit(c, base) && c != '+' && c != '-'
    ensures c !in s
  {
    var signed := |s| > 0 && (s[0] == '+' || s[0] == '-');
    var body := if signed then s[1..] else s;
    forall i | 0 <= i < |s| ensures s[i] != c {
      if signed && i > 0 { assert s[i] == body[i - 1]; }
      else if !signed { assert s[i] == body[i]; }
    }
  }

  /** Plain "%x" tells integers apart: a negative value starts with its
      sign, a non-negative one with a digit, and the digits give the
      magnitude back. */
  lemma FmtHexInjective(a: int, b: int)
    requires FmtHex(a, 0) == FmtHex(b, 0)
    ensures a == b
  {
    var ma: nat := if a < 0 then -a else a;
    var mb: nat := if b < 0 then -b else b;
    DigitsWellFormed(ma, 16);
    DigitsWellFormed(mb, 16);
    DigitsRoundTrip(ma, 16);
    DigitsRoundTrip(mb, 16);
    FmtHexSign(a);
    FmtHexSign(b);
    if a < 0 && b < 0 {
      assert Digits(ma, 16) == FmtHex(a, 0)[1..] == FmtHex(b, 0)[1..] == Digits(mb, 16);
    } else if a >= 0 && b >= 0 {
      assert Digits(ma, 16) == Digits(mb, 16);
    }
  }

  /** Plain "%x" starts with '-' exactly when the value is negative. */
  lemma FmtHexSign(n: int)
    ensures |FmtHex(n, 0)| > 0 && (FmtHex(n, 0)[0] == '-' <==> n < 0)
  {
    var m: nat := if n < 0 then -n else n;
    DigitsWellFormed(m, 16);
  }

  /** Plain "%x" writes only a sign and lower-case hex digits. */
  lemma FmtHexChars(n: int, c: char)
    requires !IsLowerHexDigit(c) && c != '-'
    ensures c !in FmtHex(n, 0)
  {
    var m: nat := if n < 0 then -n else n;
    DigitsWellFormed(m, 16);
    if n < 0 {
      forall i | 0 <= i < |FmtHex(n, 0)| ensures FmtHex(n, 0)[i] != c {
        if i > 0 { assert FmtHex(n, 0)[i] == Digits(m, 16)[i - 1]; }
      }
    }
  }
}
