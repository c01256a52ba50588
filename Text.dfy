/** String helpers shared by the crawler (Java) and the report script
    (Python): prefix and suffix tests, ASCII lower-casing, decimal printing
    of integers, integer parsing, and concatenation of written pieces. */
module Text {
  import opened Wrappers

  predicate StartsWith(s: string, prefix: string) {
    |prefix| <= |s| && s[..|prefix|] == prefix
  }

  predicate EndsWith(s: string, suffix: string) {
    |suffix| <= |s| && s[|s| - |suffix|..] == suffix
  }

  /** Lower-case mapping of one character (ASCII letters only). */
  function LowerChar(c: char): char {
    if 'A' <= c <= 'Z' then (c as int + 32) as char else c
  }

  /** `String.toLowerCase()`, restricted to the ASCII letters. */
  function ToLower(s: string): (r: string)
    ensures |r| == |s|
    ensures forall i :: 0 <= i < |s| ==> r[i] == LowerChar(s[i])
  {
    if s == [] then [] else [LowerChar(s[0])] + ToLower(s[1..])
  }

  lemma ToLowerAppend(a: string, b: string)
    ensures ToLower(a + b) == ToLower(a) + ToLower(b)
  {
    assert forall i :: 0 <= i < |a + b| ==> ToLower(a + b)[i] == (ToLower(a) + ToLower(b))[i];
  }

  /** Two strings that differ at most in the case of their letters. */
  predicate EqualIgnoringCase(a: string, b: string) {
    |a| == |b| && forall i :: 0 <= i < |a| ==> LowerChar(a[i]) == LowerChar(b[i])
  }

  lemma EqualIgnoringCaseLower(a: string, b: string)
    requires EqualIgnoringCase(a, b)
    ensures ToLower(a) == ToLower(b)
  {
    assert forall i :: 0 <= i < |a| ==> ToLower(a)[i] == ToLower(b)[i];
  }

  // ---------------------------------------------------------------------
  // Decimal integers: Java's String.valueOf(int), Python's f"{n}" and int()

  predicate IsDigit(c: char) {
    '0' <= c <= '9'
  }

  function DigitChar(d: int): (c: char)
    requires 0 <= d < 10
    ensures IsDigit(c)
  {
    ('0' as int + d) as char
  }

  function DigitValue(c: char): (d: nat)
    requires IsDigit(c)
    ensures d < 10
  {
    c as int - '0' as int
  }

  /** Decimal digits of a natural number, most significant first, no leading zero. */
  function NatString(n: nat): (r: string)
    decreases n
  {
    if n < 10 then [DigitChar(n)] else NatString(n / 10) + [DigitChar(n % 10)]
  }

  /** Decimal text of an integer, with a leading '-' when negative. */
  function DecimalString(n: int): string {
    if n < 0 then "-" + NatString(-n) else NatString(n)
  }

  predicate IsDigitString(s: string) {
    |s| > 0 && forall i :: 0 <= i < |s| ==> IsDigit(s[i])
  }

  /** Value of a string of decimal digits. */
  function DigitsValue(s: string): nat
    requires forall i :: 0 <= i < |s| ==> IsDigit(s[i])
  {
    if s == [] then 0 else DigitsValue(s[..|s| - 1]) * 10 + DigitValue(s[|s| - 1])
  }

  /** Python's `int(s)` on a field: an optional sign followed by decimal
      digits; anything else is a ValueError, modelled as None. */
  function ParseInt(s: string): (r: Option<int>)
    ensures r.Some? <==>
      && |s| > 0
      && (IsDigit(s[0]) || (|s| > 1 && (s[0] == '-' || s[0] == '+')))
      && forall k :: 1 <= k < |s| ==> IsDigit(s[k])
    ensures r.Some? && r.value < 0 ==> s[0] == '-'
  {
    assert |s| > 0 ==> forall k :: 1 <= k < |s| ==> s[k] == s[1..][k - 1];
    if |s| > 0 && (s[0] == '-' || s[0] == '+') then
      if IsDigitString(s[1..]) then
        Some(if s[0] == '-' then 0 - DigitsValue(s[1..]) as int else DigitsValue(s[1..]))
      else None
    else if IsDigitString(s) then Some(DigitsValue(s))
    else None
  }

  lemma {:induction false} NatStringDigits(n: nat)
    ensures IsDigitString(NatString(n))
    ensures DigitsValue(NatString(n)) == n
    decreases n
  {
    if n >= 10 {
      NatStringDigits(n / 10);
      var s := NatString(n / 10) + [DigitChar(n % 10)];
      assert s[..|s| - 1] == NatString(n / 10);
      assert DigitValue(DigitChar(n % 10)) == n % 10;
    } else {
      assert DigitValue(DigitChar(n)) == n;
      assert NatString(n)[..0] == [];
    }
  }

  /** Every integer printed in decimal parses back to itself: what the
      crawler writes, the report script reads. */
  lemma ParseDecimalString(n: int)
    ensures ParseInt(DecimalString(n)) == Some(n)
  {
    if n < 0 {
      NatStringDigits(-n);
      assert DecimalString(n)[1..] == NatString(-n);
    } else {
      NatStringDigits(n);
    }
  }

  /** A decimal integer starts with a digit or '-'. */
  lemma DecimalStringHead(n: int)
    ensures |DecimalString(n)| > 0
    ensures IsDigit(DecimalString(n)[0]) || DecimalString(n)[0] == '-'
  {
    if n < 0 {
    } else {
      NatStringDigits(n);
    }
  }

  /** Taking one more element of a sequence extends the prefix by it. */
  lemma PrefixExtend<T>(s: seq<T>, i: nat)
    requires i < |s|
    ensures s[..i + 1] == s[..i] + [s[i]]
  {
  }

  // ---------------------------------------------------------------------
  // Concatenation of the pieces handed to successive write() calls

  function Concat(ws: seq<string>): string {
    if ws == [] then "" else Concat(ws[..|ws| - 1]) + ws[|ws| - 1]
  }

  lemma {:induction false} ConcatAppend(a: seq<string>, b: seq<string>)
    ensures Concat(a + b) == Concat(a) + Concat(b)
    decreases |b|
  {
    if b == [] {
      assert a + b == a;
    } else {
      ConcatAppend(a, b[..|b| - 1]);
      assert (a + b)[..|a + b| - 1] == a + b[..|b| - 1];
    }
  }

  /** Two adjacent pieces appear side by side in the concatenation, right
      after the text of the pieces before them. */
  lemma ConcatAdjacent(w: seq<string>, j: nat)
    requires j + 1 < |w|
    ensures var p := |Concat(w[..j])|;
      && p + |w[j] + w[j + 1]| <= |Concat(w)|
      && Concat(w)[p..p + |w[j] + w[j + 1]|] == w[j] + w[j + 1]
  {
    var pair := [w[j], w[j + 1]];
    assert w == w[..j] + pair + w[j + 2..];
    ConcatAppend(w[..j] + pair, w[j + 2..]);
    ConcatAppend(w[..j], pair);
    assert pair[..1] == [w[j]];
    assert [w[j]][..0] == [];
  }
}
