/** Small text vocabulary shared by the models: ASCII white space, trimming,
    lower-casing and decimal numerals, as Python's `str` methods treat them. */
module Text {

  datatype Option<+T> = None | Some(value: T)

  newtype byte = x: int | 0 <= x < 256

  predicate IsSpace(c: char) {
    c == ' ' || c == '\t' || c == '\n' || c == '\r' || c == '\U{0B}' || c == '\U{0C}'
  }

  predicate IsDigit(c: char) { '0' <= c <= '9' }

  predicate AllDigits(s: string) { forall i | 0 <= i < |s| :: IsDigit(s[i]) }

  predicate AllSpace(s: string) { forall i | 0 <= i < |s| :: IsSpace(s[i]) }

  // No white space at either end.
  predicate Trimmed(s: string) {
    s != "" ==> !IsSpace(s[0]) && !IsSpace(s[|s| - 1])
  }

  function StripLeft(s: string): (r: string)
    ensures r != "" ==> !IsSpace(r[0])
    ensures EndsWithAfterSpace(s, r)
  {
    if s == "" || !IsSpace(s[0]) then s
    else
      var r := StripLeft(s[1..]);
      OneMoreSpaceAhead(s, r);
      r
  }

  // `r` is what follows some white space of `s`.
  predicate EndsWithAfterSpace(s: string, r: string) {
    |r| <= |s| && r == s[|s| - |r|..] && AllSpace(s[..|s| - |r|])
  }

  lemma OneMoreSpaceAhead(s: string, r: string)
    requires s != "" && IsSpace(s[0]) && EndsWithAfterSpace(s[1..], r)
    ensures EndsWithAfterSpace(s, r)
  {
    var n := |s| - |r|;
    assert s[1..][n - 1..] == s[n..] && s[..n] == [s[0]] + s[1..][..n - 1];
  }

  function StripRight(s: string): (r: string)
    ensures r != "" ==> !IsSpace(r[|r| - 1])
    ensures StartsBeforeSpace(s, r)
  {
    if s == "" || !IsSpace(s[|s| - 1]) then s
    else
      var r := StripRight(s[..|s| - 1]);
      OneMoreSpaceBehind(s, r);
      r
  }

  // `r` is what comes before some white space of `s`.
  predicate StartsBeforeSpace(s: string, r: string) {
    |r| <= |s| && r == s[..|r|] && AllSpace(s[|r|..])
  }

  lemma OneMoreSpaceBehind(s: string, r: string)
    requires s != "" && IsSpace(s[|s| - 1]) && StartsBeforeSpace(s[..|s| - 1], r)
    ensures StartsBeforeSpace(s, r)
  {
    var front := s[..|s| - 1];
    assert front[..|r|] == s[..|r|] && s[|r|..] == front[|r|..] + [s[|s| - 1]];
  }

  // str.strip(): what is dropped at both ends is white space and nothing more can be dropped.
  function Strip(s: string): (r: string)
    ensures Trimmed(r)
    ensures Trimmed(s) ==> r == s
    ensures r == "" <==> AllSpace(s)
  {
    var l := StripLeft(s);
    var r := StripRight(l);
    assert r == "" ==> AllSpace(s) by {
      if r == "" { assert l == l[|r|..]; assert s == s[..|s| - |l|] + l; }
    }
    r
  }

  // What strip drops, spelled out.
  lemma StripSplits(s: string) returns (left: string, right: string)
    ensures s == left + Strip(s) + right && AllSpace(left) && AllSpace(right)
  {
    hide StripLeft, StripRight;
    var l := StripLeft(s);
    left := s[..|s| - |l|];
    var r := StripRight(l);
    right := l[|r|..];
    assert l == r + right && s == left + l;
    assert Strip(s) == r;
  }

  function LowerChar(c: char): char {
    if 'A' <= c <= 'Z' then (c as int + 32) as char else c
  }

  function Lower(s: string): (r: string)
    ensures |r| == |s|
  {
    seq(|s|, i requires 0 <= i < |s| => LowerChar(s[i]))
  }

  lemma LowerTwice(s: string)
    ensures Lower(Lower(s)) == Lower(s)
  {}

  lemma LowerIsTrimmed(s: string)
    requires Trimmed(s)
    ensures Trimmed(Lower(s))
  {}

  // Stripping and lowering once is enough.
  lemma StripThenLower(s: string)
    ensures Lower(Strip(Lower(Strip(s)))) == Lower(Strip(s))
  {
    hide *;
    LowerIsTrimmed(Strip(s));
    LowerTwice(Strip(s));
  }

  // Python's ASCII white space and letters.
  lemma SpacesAndLetters()
    ensures AllSpace(" \t\n\r\U{0B}\U{0C}")
    ensures Lower("ABCDEFGHIJKLMNOPQRSTUVWXYZ") == "abcdefghijklmnopqrstuvwxyz"
  {}

  // Text without capitals and white space is neither lowered nor stripped any further.
  lemma PlainTextStays(s: string)
    requires forall i | 0 <= i < |s| :: !('A' <= s[i] <= 'Z') && !IsSpace(s[i])
    ensures Lower(s) == s && Strip(s) == s
  {
    hide Strip;
    assert Trimmed(s);
  }

  function DigitChar(d: nat): (c: char)
    requires d < 10
    ensures IsDigit(c) && DigitValue(c) == d
  {
    ('0' as int + d) as char
  }

  function DigitValue(c: char): (d: nat)
    requires IsDigit(c)
    ensures d < 10
  {
    c as int - '0' as int
  }

  // Decimal numeral without leading zeros: str(n).
  function Dec(n: nat): (s: string)
    ensures s != "" && AllDigits(s)
  {
    if n < 10 then [DigitChar(n)] else Dec(n / 10) + [DigitChar(n % 10)]
  }

  // Value of a digit string, leading zeros allowed: int(s).
  function DecValue(s: string): nat
    requires AllDigits(s)
  {
    if s == "" then 0 else 10 * DecValue(s[..|s| - 1]) + DigitValue(s[|s| - 1])
  }

  lemma {:induction false} DecValueOfDec(n: nat)
    ensures DecValue(Dec(n)) == n
  {
    var s := Dec(n);
    if n < 10 {
      assert s[..|s| - 1] == "";
    } else {
      DecValueOfDec(n / 10);
      assert s[..|s| - 1] == Dec(n / 10);
    }
  }
}
