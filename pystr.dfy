/** The few Python string operations the pipeline relies on, with Python's semantics:
    `str.isspace`, `str.strip`, slicing with negative indices, `str.lower`,
    `str(int)`, zero-padded formatting and `str.join`. A Python `str` is a sequence of
    code points, which is what a Dafny `string` is. */
module PyStr {

  /** `c.isspace()` in Python 3: the ASCII separators and the Unicode space characters. */
  predicate IsSpace(c: char) {
    c in Whitespace
  }

  const Whitespace: set<char> := {' ', '\t', '\n', '\U{b}', '\U{c}', '\r', '\U{1c}', '\U{1d}', '\U{1e}', '\U{1f}',
    '\U{85}', '\U{a0}', '\U{1680}', '\U{2000}', '\U{2001}', '\U{2002}', '\U{2003}', '\U{2004}', '\U{2005}',
    '\U{2006}', '\U{2007}', '\U{2008}', '\U{2009}', '\U{200a}', '\U{2028}', '\U{2029}', '\U{202f}',
    '\U{205f}', '\U{3000}'}

  /** Every character is whitespace; for Python this is `not s.strip()`. */
  predicate Blank(s: string) {
    forall i :: 0 <= i < |s| ==> IsSpace(s[i])
  }

  /** No leading and no trailing whitespace. */
  predicate IsStripped(s: string) {
    s == [] || (!IsSpace(s[0]) && !IsSpace(s[|s| - 1]))
  }

  /** `t in s` for two Python strings: `t` occurs contiguously in `s`. */
  ghost predicate IsSubstring(t: string, s: string) {
    exists i :: OccursAt(t, s, i)
  }

  /** `t` occurs in `s` starting at index `i`. */
  predicate OccursAt(t: string, s: string, i: int) {
    0 <= i <= |s| - |t| && s[i..i + |t|] == t
  }

  /** `s.lstrip()`: the string without its leading whitespace. */
  function TrimLeft(s: string): string
    decreases |s|
  {
    if s != [] && IsSpace(s[0]) then TrimLeft(s[1..]) else s
  }

  /** `s.lstrip()` is the suffix of `s` left after a blank prefix, and starts with a
      non-space character unless it is empty. */
  lemma {:induction false} TrimLeftSpec(s: string)
    ensures var r := TrimLeft(s);
      && |r| <= |s| && r == s[|s| - |r|..]
      && Blank(s[..|s| - |r|])
      && (r == [] || !IsSpace(r[0]))
    decreases |s|
  {
    if s != [] && IsSpace(s[0]) {
      TrimLeftSpec(s[1..]);
      var r := TrimLeft(s[1..]);
      assert s[..|s| - |r|] == [s[0]] + s[1..][..|s[1..]| - |r|];
    }
  }

  /** `s.rstrip()`: the string without its trailing whitespace. */
  function TrimRight(s: string): string
    decreases |s|
  {
    if s != [] && IsSpace(s[|s| - 1]) then TrimRight(s[..|s| - 1]) else s
  }

  /** `s.rstrip()` is the prefix of `s` left before a blank suffix, and ends with a
      non-space character unless it is empty. */
  lemma {:induction false} TrimRightSpec(s: string)
    ensures var r := TrimRight(s);
      && |r| <= |s| && r == s[..|r|]
      && Blank(s[|r|..])
      && (r == [] || !IsSpace(r[|r| - 1]))
    decreases |s|
  {
    if s != [] && IsSpace(s[|s| - 1]) {
      TrimRightSpec(s[..|s| - 1]);
      var r := TrimRight(s[..|s| - 1]);
      assert s[|r|..] == s[..|s| - 1][|r|..] + [s[|s| - 1]];
    }
  }

  /** `s.strip()`: the result has no whitespace at either end, is empty exactly when `s`
      is blank, and is a piece of `s`. */
  function Strip(s: string): string {
    TrimRight(TrimLeft(s))
  }

  /** What `strip()` promises: no whitespace at either end, empty exactly when `s` is
      blank, and a piece of `s`. */
  lemma StripSpec(s: string)
    ensures IsStripped(Strip(s))
    ensures Strip(s) == [] <==> Blank(s)
    ensures |Strip(s)| <= |s| && IsSubstring(Strip(s), s)
  {
    var l := TrimLeft(s);
    var r := TrimRight(l);
    StripFacts(s, l, r);
  }

  lemma StripFacts(s: string, l: string, r: string)
    requires l == TrimLeft(s) && r == TrimRight(l)
    ensures IsStripped(r)
    ensures r == [] <==> Blank(s)
    ensures OccursAt(r, s, |s| - |l|)
  {
    TrimLeftSpec(s);
    TrimRightSpec(l);
    var k := |s| - |l|;
    assert k <= |s| && l == s[k..];
    assert Blank(s[..k]);
    assert |r| <= |l| && r == l[..|r|];
    assert Blank(l[|r|..]);
    assert l == [] || !IsSpace(l[0]);
    assert r == [] || !IsSpace(r[|r| - 1]);
    TrimmedPiece(s, |s| - |l|, l, r);
  }

  /** What stripping leaves: `s` is a blank prefix, then `l`; `l` is `r`, then a blank
      suffix; and `r` starts with a non-space character unless it is empty. */
  lemma TrimmedPiece(s: string, k: nat, l: string, r: string)
    requires k <= |s| && l == s[k..] && Blank(s[..k])
    requires |r| <= |l| && r == l[..|r|] && Blank(l[|r|..])
    requires l == [] || !IsSpace(l[0])
    requires r == [] || !IsSpace(r[|r| - 1])
    ensures IsStripped(r)
    ensures r == [] <==> Blank(s)
    ensures OccursAt(r, s, k)
  {
    assert s[k..k + |r|] == r;
    if r == [] {
      assert l[|r|..] == l;
      assert s == s[..k] + l;
      BlankConcat(s[..k], l);
    } else {
      assert r[0] == l[0];
      assert s[k] == r[0];
    }
  }

  lemma BlankConcat(a: string, b: string)
    requires Blank(a) && Blank(b)
    ensures Blank(a + b)
  {
    forall i | 0 <= i < |a + b| ensures IsSpace((a + b)[i]) {
      if i >= |a| {
        assert (a + b)[i] == b[i - |a|];
      }
    }
  }

  /** A string without whitespace at its ends is its own strip. */
  lemma StripFixpoint(s: string)
    requires IsStripped(s)
    ensures Strip(s) == s
  {
    assert TrimLeft(s) == s;
  }

  /** Stripping twice is stripping once. */
  lemma StripIdempotent(s: string)
    ensures Strip(Strip(s)) == Strip(s)
  {
    StripSpec(s);
    StripFixpoint(Strip(s));
  }

  /** A non-empty piece that has no whitespace at its ends survives `strip()`. */
  lemma SubstringOfStrip(t: string, s: string)
    requires IsSubstring(t, s) && t != [] && IsStripped(t)
    ensures IsSubstring(t, Strip(s))
  {
    var i :| OccursAt(t, s, i);
    var l := TrimLeft(s);
    var r := TrimRight(l);
    TrimLeftSpec(s);
    TrimRightSpec(l);
    PieceSurvivesTrim(t, s, i, |s| - |l|, l, r);
  }

  lemma PieceSurvivesTrim(t: string, s: string, i: int, k: nat, l: string, r: string)
    requires OccursAt(t, s, i) && t != [] && IsStripped(t)
    requires k <= |s| && l == s[k..] && Blank(s[..k])
    requires |r| <= |l| && r == l[..|r|] && Blank(l[|r|..])
    ensures OccursAt(t, r, i - k)
  {
    assert s[i] == t[0];
    var j := i - k;
    assert l[j..j + |t|] == t;
    assert l[j + |t| - 1] == t[|t| - 1];
    assert r[j..j + |t|] == t;
  }

  lemma SubstringRefl(t: string)
    ensures IsSubstring(t, t)
  {
    assert OccursAt(t, t, 0);
  }

  /** A piece of `a` is a piece of `a + b`. */
  lemma SubstringInPrefix(t: string, a: string, b: string)
    requires IsSubstring(t, a)
    ensures IsSubstring(t, a + b)
  {
    var i :| OccursAt(t, a, i);
    assert (a + b)[i..i + |t|] == t;
    assert OccursAt(t, a + b, i);
  }

  /** A piece of `b` is a piece of `a + b`. */
  lemma SubstringInSuffix(t: string, a: string, b: string)
    requires IsSubstring(t, b)
    ensures IsSubstring(t, a + b)
  {
    var i :| OccursAt(t, b, i);
    assert (a + b)[|a| + i..|a| + i + |t|] == t;
    assert OccursAt(t, a + b, |a| + i);
  }

  /** Python's normalisation of a slice bound `i` against a length `n`. */
  function ClipIndex(i: int, n: nat): (r: nat)
    ensures r <= n
  {
    if i < 0 then (if n + i < 0 then 0 else n + i) else if i > n then n else i
  }

  /** `s[i:j]` in Python, negative bounds counting from the end. */
  function PySlice(s: string, i: int, j: int): (r: string)
    ensures |r| <= |s|
  {
    var a, b := ClipIndex(i, |s|), ClipIndex(j, |s|);
    if a < b then s[a..b] else []
  }

  /** `s[i:j]` for `0 <= i <= j`: the characters from `i` up to `j`, both bounds cut at
      the end of `s`. */
  lemma NonNegativeSlice(s: string, i: int, j: int)
    requires 0 <= i <= j
    ensures PySlice(s, i, j) == s[(if i < |s| then i else |s|)..(if j < |s| then j else |s|)]
  {
  }

  /** `s[-n:]` for `n > 0`: the last `n` characters, the whole string when it is shorter. */
  lemma NegativeTailSlice(s: string, n: int)
    requires n > 0
    ensures var r := PySlice(s, -n, |s|);
            |r| == (if n < |s| then n else |s|) && r == s[|s| - |r|..]
  {
  }

  /** `s[:n]` for `n >= 0`: the first `n` characters, the whole string when it is shorter. */
  lemma HeadSlice(s: string, n: nat)
    ensures var r := PySlice(s, 0, n);
            |r| == (if n < |s| then n else |s|) && r == s[..|r|]
  {
  }

  function LowerChar(c: char): char {
    if 'A' <= c <= 'Z' then (c as int + 32) as char else c
  }

  /** `s.lower()`, restricted to the ASCII letters. */
  function Lower(s: string): (r: string)
    ensures |r| == |s|
    ensures forall i :: 0 <= i < |s| ==> r[i] == LowerChar(s[i])
  {
    seq(|s|, i requires 0 <= i < |s| => LowerChar(s[i]))
  }

  predicate IsDigit(c: char) {
    '0' <= c <= '9'
  }

  predicate AllDigits(s: string) {
    forall i :: 0 <= i < |s| ==> IsDigit(s[i])
  }

  function DigitChar(d: nat): (c: char)
    requires d < 10
    ensures IsDigit(c) && c as int - '0' as int == d
  {
    (d + '0' as int) as char
  }

  /** The number a string of decimal digits denotes (leading zeros allowed). */
  function DigitsValue(s: string): nat
    requires AllDigits(s)
  {
    if s == [] then 0 else DigitsValue(s[..|s| - 1]) * 10 + (s[|s| - 1] as int - '0' as int)
  }

  /** `str(n)` for a natural number: its decimal digits. */
  function NatToString(n: nat): string
    decreases n
  {
    if n < 10 then [DigitChar(n)] else NatToString(n / 10) + [DigitChar(n % 10)]
  }

  /** The decimal form of `n` is a non-empty run of digits, without a leading zero unless
      `n` is zero, that reads back as `n`. */
  lemma {:induction false} NatToStringSpec(n: nat)
    ensures var r := NatToString(n);
      && r != [] && AllDigits(r) && DigitsValue(r) == n
      && (n > 0 ==> r[0] != '0')
    decreases n
  {
    if n >= 10 {
      NatToStringSpec(n / 10);
      var p := NatToString(n / 10);
      var r := NatToString(n);
      assert r[..|r| - 1] == p;
    }
  }

  /** `str(i)` for any Python int: a minus sign before the digits when negative. */
  function IntToString(i: int): string {
    if i < 0 then "-" + NatToString(-i) else NatToString(i)
  }

  function Zeros(n: nat): (r: string)
    ensures |r| == n && forall i :: 0 <= i < n ==> r[i] == '0'
  {
    seq(n, _ => '0')
  }

  lemma {:induction false} LeadingZerosValue(z: nat, s: string)
    requires AllDigits(s)
    ensures AllDigits(Zeros(z) + s) && DigitsValue(Zeros(z) + s) == DigitsValue(s)
    decreases |s|
  {
    var t := Zeros(z) + s;
    if s == [] {
      assert t == Zeros(z);
      ZerosValue(z);
    } else {
      assert t[..|t| - 1] == Zeros(z) + s[..|s| - 1];
      LeadingZerosValue(z, s[..|s| - 1]);
    }
  }

  lemma {:induction false} ZerosValue(z: nat)
    ensures AllDigits(Zeros(z)) && DigitsValue(Zeros(z)) == 0
  {
    if z > 0 {
      assert Zeros(z)[..z - 1] == Zeros(z - 1);
      ZerosValue(z - 1);
    }
  }

  /** `f"{n:0{width}d}"`: the digits of `n`, left-padded with zeros to at least `width`
      characters. */
  function ZeroPad(n: nat, width: nat): string {
    var d := NatToString(n);
    Zeros(if |d| < width then width - |d| else 0) + d
  }

  /** The padded form is all digits, at least `width` long, and still reads back as `n`. */
  lemma ZeroPadSpec(n: nat, width: nat)
    ensures var r := ZeroPad(n, width);
      && AllDigits(r) && DigitsValue(r) == n
      && |r| == if |NatToString(n)| < width then width else |NatToString(n)|
  {
    var d := NatToString(n);
    NatToStringSpec(n);
    LeadingZerosValue(if |d| < width then width - |d| else 0, d);
  }

  /** Zero-padded formatting is injective: distinct numbers give distinct strings. */
  lemma ZeroPadInjective(i: nat, j: nat, width: nat)
    requires ZeroPad(i, width) == ZeroPad(j, width)
    ensures i == j
  {
    ZeroPadSpec(i, width);
    ZeroPadSpec(j, width);
  }

  /** `sep.join(parts)`. */
  function Join(parts: seq<string>, sep: string): string
    decreases |parts|
  {
    if |parts| == 0 then "" else if |parts| == 1 then parts[0] else parts[0] + sep + Join(parts[1..], sep)
  }

  /** Joining a concatenation of two non-empty lists puts one separator between the
      two joined halves. */
  lemma {:induction false} JoinAppend(a: seq<string>, b: seq<string>, sep: string)
    requires |a| > 0 && |b| > 0
    ensures Join(a + b, sep) == Join(a, sep) + sep + Join(b, sep)
    decreases |a|
  {
    if |a| == 1 {
      assert (a + b)[1..] == b;
    } else {
      assert (a + b)[1..] == a[1..] + b;
      JoinAppend(a[1..], b, sep);
    }
  }

  /** `"".join(parts)`: the parts concatenated in order. */
  function Concat(parts: seq<string>): string
    decreases |parts|
  {
    if parts == [] then "" else parts[0] + Concat(parts[1..])
  }

  /** Appending a part appends its text: what a loop collecting parts relies on. */
  lemma {:induction false} ConcatSnoc(parts: seq<string>, p: string)
    ensures Concat(parts + [p]) == Concat(parts) + p
    decreases |parts|
  {
    if parts == [] {
      assert [p][1..] == [];
    } else {
      assert (parts + [p])[1..] == parts[1..] + [p];
      ConcatSnoc(parts[1..], p);
    }
  }
}
