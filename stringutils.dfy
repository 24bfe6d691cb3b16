/** `StripWhitespace` (utils/string.go): `strings.Map` with a mapping that
    drops the four whitespace characters and keeps every other one. */
module StringUtils {

  /** The characters the mapping drops: space, tab, carriage return and
      newline. */
  predicate IsWhitespace(c: char) {
    c == ' ' || c == '\t' || c == '\r' || c == '\n'
  }

  function StripWhitespace(s: string): (r: string)
    ensures |r| <= |s|
    ensures forall i :: 0 <= i < |r| ==> !IsWhitespace(r[i])
    decreases |s|
  {
    if |s| == 0 then ""
    else if IsWhitespace(s[0]) then StripWhitespace(s[1..])
    else [s[0]] + StripWhitespace(s[1..])
  }

  /** Every non-whitespace character is kept: each occurs in the result
      as often as in s. */
  lemma {:induction false} StripKeepsOthers(s: string)
    ensures forall c :: !IsWhitespace(c) ==> multiset(StripWhitespace(s))[c] == multiset(s)[c]
    decreases |s|
  {
    if |s| > 0 {
      StripKeepsOthers(s[1..]);
      assert s == [s[0]] + s[1..];
      assert multiset(s) == multiset{s[0]} + multiset(s[1..]);
    }
  }

  /** The kept characters stay in their order: stripping a concatenation
      concatenates the stripped parts. */
  lemma {:induction false} StripConcat(a: string, b: string)
    ensures StripWhitespace(a + b) == StripWhitespace(a) + StripWhitespace(b)
    decreases |a|
  {
    if |a| > 0 {
      StripConcat(a[1..], b);
      assert (a + b)[1..] == a[1..] + b;
    } else {
      assert a + b == b;
    }
  }

  /** Text without whitespace is returned unchanged. */
  lemma {:induction false} StripNoWhitespace(s: string)
    requires forall i :: 0 <= i < |s| ==> !IsWhitespace(s[i])
    ensures StripWhitespace(s) == s
    decreases |s|
  {
    if |s| > 0 {
      StripNoWhitespace(s[1..]);
      assert s == [s[0]] + s[1..];
    }
  }

  /** Stripping twice strips nothing more. */
  lemma StripIdempotent(s: string)
    ensures StripWhitespace(StripWhitespace(s)) == StripWhitespace(s)
  {
    StripNoWhitespace(StripWhitespace(s));
  }
}
