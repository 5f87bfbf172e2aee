/** The Go string operations the programs rely on: strings.Split, SplitN,
    Join, Index, ToLower and the `<` comparison of strings. */
module Text {

  /** First position of c in s, or -1. */
  function IndexOfChar(s: string, c: char): (i: int)
    ensures -1 <= i < |s|
    ensures i >= 0 ==> s[i] == c && forall j :: 0 <= j < i ==> s[j] != c
    ensures i == -1 ==> c !in s
  {
    if |s| == 0 then -1
    else if s[0] == c then 0
    else
      var j := IndexOfChar(s[1..], c);
      assert j >= 0 ==> s[1..][..j] == s[1..j + 1];
      if j < 0 then -1 else j + 1
  }

  /** strings.Split(s, string(sep)). */
  function Split(s: string, sep: char): (parts: seq<string>)
    ensures |parts| >= 1
    ensures forall k :: 0 <= k < |parts| ==> sep !in parts[k]
    decreases |s|
  {
    var i := IndexOfChar(s, sep);
    if i < 0 then [s]
    else
      var head := s[..i];
      var rest := Split(s[i + 1..], sep);
      assert forall j :: 0 <= j < |head| ==> head[j] == s[j];
      assert sep !in head;
      var parts := [head] + rest;
      assert forall k :: 1 <= k < |parts| ==> parts[k] == rest[k - 1];
      parts
  }

  /** strings.SplitN(s, string(sep), n) for n >= 1: at most n parts, the last
      one keeping whatever separators remain. */
  function SplitN(s: string, sep: char, n: nat): (parts: seq<string>)
    requires n >= 1
    ensures 1 <= |parts| <= n
    ensures forall k :: 0 <= k < |parts| - 1 ==> sep !in parts[k]
    ensures |parts| < n ==> sep !in parts[|parts| - 1]
    decreases n
  {
    var i := IndexOfChar(s, sep);
    if n == 1 || i < 0 then [s]
    else
      var head := s[..i];
      var rest := SplitN(s[i + 1..], sep, n - 1);
      assert forall j :: 0 <= j < |head| ==> head[j] == s[j];
      assert sep !in head;
      var parts := [head] + rest;
      assert forall k :: 1 <= k < |parts| ==> parts[k] == rest[k - 1];
      parts
  }

  /** strings.Join(parts, string(sep)). */
  function JoinWith(parts: seq<string>, sep: char): string
  {
    if |parts| == 0 then ""
    else if |parts| == 1 then parts[0]
    else parts[0] + [sep] + JoinWith(parts[1..], sep)
  }

  /** strings.Join(parts, ""). */
  function Concat(parts: seq<string>): string
  {
    if |parts| == 0 then "" else parts[0] + Concat(parts[1..])
  }

  /** sub occurs in s at position i. */
  predicate OccursAt(s: string, sub: string, i: int)
  {
    0 <= i && i + |sub| <= |s| && s[i..i + |sub|] == sub
  }

  function IndexFrom(s: string, sub: string, from: nat): (i: int)
    requires from <= |s| + 1
    ensures i == -1 || (from <= i && OccursAt(s, sub, i))
    ensures forall j :: from <= j && (i == -1 || j < i) ==> !OccursAt(s, sub, j)
    decreases |s| + 1 - from
  {
    if from + |sub| > |s| then -1
    else if s[from..from + |sub|] == sub then from
    else IndexFrom(s, sub, from + 1)
  }

  /** strings.Index(s, sub): the first position at which sub occurs, or -1. */
  function Index(s: string, sub: string): (i: int)
    ensures i == -1 || OccursAt(s, sub, i)
    ensures forall j :: 0 <= j && (i == -1 || j < i) ==> !OccursAt(s, sub, j)
  {
    IndexFrom(s, sub, 0)
  }

  function LowerChar(c: char): char
  {
    if 'A' <= c <= 'Z' then ((c as int) - ('A' as int) + ('a' as int)) as char else c
  }

  /** strings.ToLower restricted to ASCII letters. */
  function ToLower(s: string): (r: string)
    ensures |r| == |s|
  {
    if |s| == 0 then "" else [LowerChar(s[0])] + ToLower(s[1..])
  }

  /** Go's s < t on strings: lexicographic, a proper prefix sorts first.
      Code-point order on chars is the byte order of their UTF-8 encodings. */
  predicate LexLess(a: string, b: string)
    decreases |a|
  {
    if |a| == 0 then |b| > 0
    else if |b| == 0 then false
    else if a[0] == b[0] then LexLess(a[1..], b[1..])
    else a[0] < b[0]
  }

  // ---------------------------------------------------------------------
  // Lemmas

  /** Joining the parts of a split with the separator gives back the string. */
  lemma {:induction false} SplitJoin(s: string, sep: char)
    ensures JoinWith(Split(s, sep), sep) == s
    decreases |s|
  {
    var i := IndexOfChar(s, sep);
    if i >= 0 {
      SplitJoin(s[i + 1..], sep);
      SplitJoinStep(s, sep, i, Split(s[i + 1..], sep));
    }
  }

  lemma SplitJoinStep(s: string, sep: char, i: nat, rest: seq<string>)
    requires i < |s| && |rest| >= 1
    requires Split(s, sep) == [s[..i]] + rest
    requires JoinWith(rest, sep) == s[i + 1..] && s[i] == sep
    ensures JoinWith(Split(s, sep), sep) == s
  {
    JoinCons(s[..i], rest, sep);
    assert s == s[..i] + [sep] + s[i + 1..];
  }

  lemma JoinCons(p: string, rest: seq<string>, sep: char)
    requires |rest| >= 1
    ensures JoinWith([p] + rest, sep) == p + [sep] + JoinWith(rest, sep)
  {
    assert ([p] + rest)[1..] == rest;
  }

  /** Splitting a join of separator-free parts gives back the parts. */
  lemma {:induction false} JoinSplit(parts: seq<string>, sep: char)
    requires |parts| >= 1
    requires forall k :: 0 <= k < |parts| ==> sep !in parts[k]
    ensures Split(JoinWith(parts, sep), sep) == parts
  {
    var s := JoinWith(parts, sep);
    if |parts| == 1 {
      assert IndexOfChar(s, sep) == -1;
    } else {
      JoinSplit(parts[1..], sep);
      assert parts == [parts[0]] + parts[1..];
      JoinSplitStep(parts[0], parts[1..], sep);
    }
  }

  /** Splitting a join of at most n separator-free parts with SplitN gives them back. */
  lemma {:induction false} JoinSplitN(parts: seq<string>, sep: char, n: nat)
    requires 1 <= |parts| <= n
    requires forall k :: 0 <= k < |parts| ==> sep !in parts[k]
    ensures SplitN(JoinWith(parts, sep), sep, n) == parts
    decreases n
  {
    var s := JoinWith(parts, sep);
    if |parts| == 1 {
      assert IndexOfChar(s, sep) == -1;
    } else {
      JoinSplitN(parts[1..], sep, n - 1);
      assert parts == [parts[0]] + parts[1..];
      JoinSplitNStep(parts[0], parts[1..], sep, n);
    }
  }

  lemma JoinSplitStep(p: string, tail: seq<string>, sep: char)
    requires |tail| >= 1 && sep !in p
    requires Split(JoinWith(tail, sep), sep) == tail
    ensures Split(JoinWith([p] + tail, sep), sep) == [p] + tail
  {
    var rest := JoinWith(tail, sep);
    JoinCons(p, tail, sep);
    var s := p + [sep] + rest;
    FirstSeparator(p, sep, rest);
    assert s[|p| + 1..] == rest;
    assert s[..|p|] == p;
  }

  lemma JoinSplitNStep(p: string, tail: seq<string>, sep: char, n: nat)
    requires |tail| >= 1 && n >= 2 && sep !in p
    requires SplitN(JoinWith(tail, sep), sep, n - 1) == tail
    ensures SplitN(JoinWith([p] + tail, sep), sep, n) == [p] + tail
  {
    var rest := JoinWith(tail, sep);
    JoinCons(p, tail, sep);
    var s := p + [sep] + rest;
    FirstSeparator(p, sep, rest);
    assert s[|p| + 1..] == rest;
    assert s[..|p|] == p;
  }

  lemma FirstSeparator(p: string, sep: char, rest: string)
    requires sep !in p
    ensures IndexOfChar(p + [sep] + rest, sep) == |p|
  {
    var s := p + [sep] + rest;
    assert s[|p|] == sep;
    assert s[..|p|] == p;
  }

  /** The result of ToLower holds no upper-case ASCII letter, and lowering
      twice is lowering once. */
  lemma {:induction false} ToLowerIdempotent(s: string)
    ensures forall i :: 0 <= i < |s| ==> !('A' <= ToLower(s)[i] <= 'Z')
    ensures ToLower(ToLower(s)) == ToLower(s)
  {
    if |s| > 0 {
      ToLowerIdempotent(s[1..]);
      assert ToLower(s) == [LowerChar(s[0])] + ToLower(s[1..]);
      assert ToLower(s)[1..] == ToLower(s[1..]);
    }
  }

  /** ToLower changes exactly the upper-case ASCII letters. */
  lemma {:induction false} ToLowerAt(s: string, i: int)
    requires 0 <= i < |s|
    ensures ToLower(s)[i] == LowerChar(s[i])
  {
    if i > 0 { ToLowerAt(s[1..], i - 1); }
  }

  lemma {:induction false} LexLessIrreflexive(a: string)
    ensures !LexLess(a, a)
  {
    if |a| > 0 { LexLessIrreflexive(a[1..]); }
  }

  lemma {:induction false} LexLessTransitive(a: string, b: string, c: string)
    requires LexLess(a, b) && LexLess(b, c)
    ensures LexLess(a, c)
    decreases |a|
  {
    if |a| > 0 && |b| > 0 && |c| > 0 && a[0] == b[0] && b[0] == c[0] {
      LexLessTransitive(a[1..], b[1..], c[1..]);
    }
  }

  /** Any two different strings are ordered one way or the other. */
  lemma {:induction false} LexLessTotal(a: string, b: string)
    requires a != b
    ensures LexLess(a, b) || LexLess(b, a)
    decreases |a|
  {
    if |a| > 0 && |b| > 0 && a[0] == b[0] {
      LexLessTotal(a[1..], b[1..]);
    }
  }

  lemma LexLessAsymmetric(a: string, b: string)
    requires LexLess(a, b)
    ensures !LexLess(b, a)
  {
    if LexLess(b, a) {
      LexLessTransitive(a, b, a);
      LexLessIrreflexive(a);
    }
  }

  /** Joining one more piece appends it. */
  lemma {:induction false} ConcatSnoc(parts: seq<string>, x: string)
    ensures Concat(parts + [x]) == Concat(parts) + x
  {
    if |parts| > 0 {
      assert (parts + [x])[1..] == parts[1..] + [x];
      ConcatSnoc(parts[1..], x);
    }
  }
}
