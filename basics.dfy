/** Value-level helpers shared by every module: an Option type, Go's 64-bit
    signed integers, and the few functions of Go's `strings`, `strconv` and
    `fmt` packages that the interpreter relies on.  Strings are sequences of
    characters, one character per Go byte. */
module Basics {

  datatype Option<T> = None | Some(value: T)

  // ---------------------------------------------------------------------
  // Go's int64 and uint64

  const TWO_63: int := 0x8000_0000_0000_0000
  const TWO_64: int := 0x1_0000_0000_0000_0000
  const MIN_INT64: int := -TWO_63
  const MAX_INT64: int := TWO_63 - 1

  type Int64 = x: int | MIN_INT64 <= x <= MAX_INT64
  type Uint64 = x: int | 0 <= x < TWO_64

  /** Two's-complement wrap-around of an unbounded integer into int64: the
      result Go's `+`, `-`, `*` and unary `-` give on int64 operands. */
  function Wrap64(x: int): (r: Int64)
    ensures (r - x) % TWO_64 == 0
    ensures MIN_INT64 <= x <= MAX_INT64 ==> r == x
  {
    ((x + TWO_63) % TWO_64) - TWO_63
  }

  /** Go's conversion `uint64(v)` of an int64: reinterprets the bits. */
  function ToUint64(v: Int64): (r: Uint64)
    ensures (r - v) % TWO_64 == 0
    ensures v >= 0 ==> r == v
  {
    if v >= 0 then v else v + TWO_64
  }

  lemma ToUint64Injective(a: Int64, b: Int64)
    requires ToUint64(a) == ToUint64(b)
    ensures a == b
  {
  }

  // ---------------------------------------------------------------------
  // Decimal text, as fmt's %d writes it and strconv.ParseInt(s, 10, 64) reads it

  predicate IsDigitChar(c: char) { '0' <= c <= '9' }

  function DigitValue(c: char): nat requires IsDigitChar(c) { c as int - '0' as int }

  function DigitChar(d: nat): (c: char)
    requires d < 10
    ensures IsDigitChar(c) && DigitValue(c) == d
  {
    ('0' as int + d) as char
  }

  /** Decimal digits of a natural number, most significant first, without
      leading zeros (a single "0" for zero). */
  function NatDigits(n: nat): (s: string)
    ensures |s| > 0
    ensures forall i :: 0 <= i < |s| ==> IsDigitChar(s[i])
    ensures |s| > 1 ==> s[0] != '0'
    decreases n
  {
    if n < 10 then [DigitChar(n)] else NatDigits(n / 10) + [DigitChar(n % 10)]
  }

  /** fmt.Sprintf("%d", i). */
  function IntString(i: int): string {
    if i < 0 then "-" + NatDigits(-i) else NatDigits(i)
  }

  /** The value of a non-empty string of decimal digits. */
  function DigitsValue(s: string): nat
    requires forall i :: 0 <= i < |s| ==> IsDigitChar(s[i])
    decreases |s|
  {
    if |s| == 0 then 0 else DigitsValue(s[..|s| - 1]) * 10 + DigitValue(s[|s| - 1])
  }

  predicate AllDigits(s: string) { forall i :: 0 <= i < |s| ==> IsDigitChar(s[i]) }

  /** strconv.ParseInt(s, 10, 64): an optional sign, one or more decimal
      digits, and a value inside int64; None is the error return. */
  function ParseInt64(s: string): (r: Option<Int64>)
    ensures r.Some? ==> |s| > 0
  {
    if |s| == 0 then None
    else
      var neg := s[0] == '-';
      var body := if s[0] == '-' || s[0] == '+' then s[1..] else s;
      if |body| == 0 || !AllDigits(body) then None
      else
        var d: int := DigitsValue(body);
        var v := if neg then -d else d;
        if MIN_INT64 <= v <= MAX_INT64 then Some(v) else None
  }

  lemma {:induction false} DigitsValueOfNatDigits(n: nat)
    ensures AllDigits(NatDigits(n)) && DigitsValue(NatDigits(n)) == n
    decreases n
  {
    var s := NatDigits(n);
    if n >= 10 {
      DigitsValueOfNatDigits(n / 10);
      assert s[..|s| - 1] == NatDigits(n / 10);
    }
  }

  /** Reading back what %d wrote gives the integer again: the Postfix
      evaluation relies on this to re-read integer token literals. */
  lemma ParseIntString(i: Int64)
    ensures ParseInt64(IntString(i)) == Some(i)
  {
    var m: nat := if i < 0 then -(i as int) else i;
    var digits := NatDigits(m);
    DigitsValueOfNatDigits(m);
    var s := IntString(i);
    if i < 0 {
      assert s == "-" + digits;
      assert s[1..] == digits;
    } else {
      assert s == digits;
      assert IsDigitChar(s[0]);
    }
  }

  // ---------------------------------------------------------------------
  // strings package

  /** strings.Join. */
  function Join(xs: seq<string>, sep: string): string
    decreases |xs|
  {
    if |xs| == 0 then "" else if |xs| == 1 then xs[0] else xs[0] + sep + Join(xs[1..], sep)
  }

  function SumLengths(xs: seq<string>): nat decreases |xs| {
    if |xs| == 0 then 0 else |xs[0]| + SumLengths(xs[1..])
  }

  /** The joined text holds every part and one separator between each two. */
  lemma {:induction false} JoinLength(xs: seq<string>, sep: string)
    requires |xs| > 0
    ensures |Join(xs, sep)| == SumLengths(xs) + (|xs| - 1) * |sep|
    decreases |xs|
  {
    if |xs| > 1 { JoinLength(xs[1..], sep); }
  }

  /** strings.Contains(s, sub). */
  predicate Contains(s: string, sub: string) decreases |s| {
    |sub| <= |s| && (s[..|sub|] == sub || Contains(s[1..], sub))
  }

  /** strings.ReplaceAll(s, pat, ""): removes the non-overlapping
      occurrences of pat, scanning left to right. An empty pat matches
      only empty text, so the result is s. */
  function RemoveAll(s: string, pat: string): (r: string)
    ensures |r| <= |s|
    ensures pat == "" ==> r == s
    decreases |s|
  {
    if pat == "" || |s| < |pat| then s
    else if s[..|pat|] == pat then RemoveAll(s[|pat|..], pat)
    else [s[0]] + RemoveAll(s[1..], pat)
  }

  /** pat occurs in s at position k. */
  predicate MatchAt(s: string, pat: string, k: int) {
    0 <= k && k + |pat| <= |s| && s[k..k + |pat|] == pat
  }

  /** The first occurrence of pat, found scanning from the left, is removed,
      and the scan goes on just after it: with `RemoveAllAbsent`, this says
      which occurrences `strings.ReplaceAll(s, pat, "")` removes. */
  lemma {:induction false} RemoveFirstMatch(u: string, pat: string, v: string)
    requires pat != ""
    requires forall k :: 0 <= k < |u| ==> !MatchAt(u + pat + v, pat, k)
    ensures RemoveAll(u + pat + v, pat) == u + RemoveAll(v, pat)
    decreases |u|
  {
    var s := u + pat + v;
    if |u| == 0 {
      assert s == pat + v;
      assert s[..|pat|] == pat;
      assert s[|pat|..] == v;
    } else {
      var t := u[1..] + pat + v;
      assert s[1..] == t;
      RemoveAllSkip(s, pat);
      NoMatchShift(u, pat, v);
      RemoveFirstMatch(u[1..], pat, v);
      var w := RemoveAll(v, pat);
      assert [s[0]] + (u[1..] + w) == u + w by {
        assert [s[0]] + u[1..] == u;
      }
    }
  }

  /** Where no match starts, the character is kept. */
  lemma RemoveAllSkip(s: string, pat: string)
    requires pat != "" && |s| >= |pat| && !MatchAt(s, pat, 0)
    ensures RemoveAll(s, pat) == [s[0]] + RemoveAll(s[1..], pat)
  {
  }

  lemma NoMatchShift(u: string, pat: string, v: string)
    requires |u| > 0
    requires forall k :: 0 <= k < |u| ==> !MatchAt(u + pat + v, pat, k)
    ensures forall k :: 0 <= k < |u| - 1 ==> !MatchAt(u[1..] + pat + v, pat, k)
  {
    var s := u + pat + v;
    var t := u[1..] + pat + v;
    assert t == s[1..];
    forall k | 0 <= k < |u| - 1
      ensures !MatchAt(t, pat, k)
    {
      assert !MatchAt(s, pat, k + 1);
      if k + |pat| <= |t| {
        assert t[k..k + |pat|] == s[k + 1..k + 1 + |pat|];
      }
    }
  }

  /** Text that does not contain pat is left alone. */
  lemma {:induction false} RemoveAllAbsent(s: string, pat: string)
    requires !Contains(s, pat)
    ensures RemoveAll(s, pat) == s
    decreases |s|
  {
    if pat != "" && |s| >= |pat| {
      RemoveAllAbsent(s[1..], pat);
    }
  }

  /** Go's `<` on strings: byte-wise lexicographic order. */
  predicate Less(a: string, b: string) decreases |a| {
    if |a| == 0 then |b| > 0
    else if |b| == 0 then false
    else if a[0] != b[0] then a[0] < b[0]
    else Less(a[1..], b[1..])
  }

  lemma {:induction false} LessIrreflexive(a: string)
    ensures !Less(a, a)
    decreases |a|
  {
    if |a| > 0 { LessIrreflexive(a[1..]); }
  }

  lemma {:induction false} LessTotal(a: string, b: string)
    ensures a == b || Less(a, b) || Less(b, a)
    decreases |a|
  {
    if |a| > 0 && |b| > 0 && a[0] == b[0] {
      LessTotal(a[1..], b[1..]);
      if a[1..] == b[1..] { assert a == [a[0]] + a[1..] && b == [b[0]] + b[1..]; }
    }
  }

  lemma {:induction false} LessAsymmetric(a: string, b: string)
    requires Less(a, b)
    ensures !Less(b, a)
    decreases |a|
  {
    if |a| > 0 && |b| > 0 && a[0] == b[0] { LessAsymmetric(a[1..], b[1..]); }
  }

  lemma {:induction false} LessTransitive(a: string, b: string, c: string)
    requires Less(a, b) && Less(b, c)
    ensures Less(a, c)
    decreases |a|
  {
    if |a| > 0 && |b| > 0 && |c| > 0 && a[0] == b[0] && b[0] == c[0] {
      LessTransitive(a[1..], b[1..], c[1..]);
    }
  }

  /** Go's `<=` on strings. */
  predicate LessEq(a: string, b: string) { a == b || Less(a, b) }

  /** strings.Trim(s, " ") == "": the text consists of spaces only. */
  predicate BlankAfterTrim(s: string) { forall i :: 0 <= i < |s| ==> s[i] == ' ' }

  /** strings.Trim(s, " "): drops leading and trailing spaces. */
  function TrimSpaces(s: string): (r: string)
    ensures |r| <= |s|
    ensures r == "" <==> BlankAfterTrim(s)
    ensures r != "" ==> r[0] != ' ' && r[|r| - 1] != ' '
    ensures exists i :: TrimmedAt(s, r, i)
    decreases |s|
  {
    if |s| == 0 then
      assert TrimmedAt(s, s, 0);
      s
    else if s[0] == ' ' then
      var r := TrimSpaces(s[1..]);
      var i :| TrimmedAt(s[1..], r, i);
      assert r == s[i + 1..i + 1 + |r|];
      assert SpacesOutside(s, i + 1, i + 1 + |r|) by {
        forall k | 0 <= k < |s| && !(i + 1 <= k < i + 1 + |r|) ensures s[k] == ' ' {
          if k > 0 { assert s[k] == s[1..][k - 1]; }
        }
      }
      assert TrimmedAt(s, r, i + 1);
      r
    else if s[|s| - 1] == ' ' then
      var r := TrimSpaces(s[..|s| - 1]);
      var i :| TrimmedAt(s[..|s| - 1], r, i);
      assert r == s[i..i + |r|];
      assert SpacesOutside(s, i, i + |r|) by {
        forall k | 0 <= k < |s| && !(i <= k < i + |r|) ensures s[k] == ' ' {
          if k < |s| - 1 { assert s[k] == s[..|s| - 1][k]; }
        }
      }
      assert TrimmedAt(s, r, i);
      r
    else
      assert TrimmedAt(s, s, 0);
      s
  }

  /** r is s[i..] with only spaces cut from either end. */
  predicate TrimmedAt(s: string, r: string, i: int) {
    0 <= i <= |s| - |r| && r == s[i..i + |r|] && SpacesOutside(s, i, i + |r|)
  }

  /** Every character of s outside [i, j) is a space. */
  predicate SpacesOutside(s: string, i: int, j: int) {
    forall k :: 0 <= k < |s| && !(i <= k < j) ==> s[k] == ' '
  }

  /** strings.ToUpper restricted to ASCII letters. */
  function ToUpper(s: string): (r: string)
    ensures |r| == |s|
    ensures forall i :: 0 <= i < |s| && 'a' <= s[i] <= 'z' ==> 'A' <= r[i] <= 'Z' && r[i] as int == s[i] as int - 32
    ensures forall i :: 0 <= i < |s| && !('a' <= s[i] <= 'z') ==> r[i] == s[i]
  {
    seq(|s|, i requires 0 <= i < |s| => if 'a' <= s[i] <= 'z' then (s[i] as int - 32) as char else s[i])
  }

  /** strings.Split(s, ""): the one-character strings of s. */
  function Chars(s: string): (r: seq<string>)
    ensures |r| == |s|
    ensures forall i :: 0 <= i < |s| ==> r[i] == [s[i]]
  {
    seq(|s|, i requires 0 <= i < |s| => [s[i]])
  }

  function Concat(xs: seq<string>): string decreases |xs| {
    if |xs| == 0 then "" else xs[0] + Concat(xs[1..])
  }

  /** strings.Join(strings.Split(s, ""), "") == s. */
  lemma {:induction false} ConcatChars(s: string)
    ensures Concat(Chars(s)) == s
    decreases |s|
  {
    if |s| > 0 {
      ConcatChars(s[1..]);
      assert Chars(s)[1..] == Chars(s[1..]);
    }
  }
}
