/**
 * The string and number semantics of the Java and JavaScript library calls
 * that the web chat relies on: String.valueOf on a non-negative number,
 * String.trim, ASCII lower-casing, substring search and character search.
 */
module Strings {

  predicate IsDigit(c: char) {
    '0' <= c <= '9'
  }

  function DigitChar(d: nat): (c: char)
    requires d < 10
    ensures IsDigit(c) && c as int - '0' as int == d
  {
    ('0' as int + d) as char
  }

  /** The decimal rendering of `n` that String.valueOf produces: digits only, no leading zero. */
  function DecimalString(n: nat): (s: string)
    ensures |s| >= 1
    ensures forall i :: 0 <= i < |s| ==> IsDigit(s[i])
    ensures (s[0] == '0') == (n == 0)
  {
    if n < 10 then [DigitChar(n)] else DecimalString(n / 10) + [DigitChar(n % 10)]
  }

  /** Reads a string of decimal digits back as a number (the inverse of DecimalString). */
  function ParseDecimal(s: string): int {
    if s == [] then 0 else ParseDecimal(s[..|s| - 1]) * 10 + (s[|s| - 1] as int - '0' as int)
  }

  lemma {:induction false} DecimalRoundTrip(n: nat)
    ensures ParseDecimal(DecimalString(n)) == n
  {
    if n >= 10 {
      var s := DecimalString(n);
      assert s[..|s| - 1] == DecimalString(n / 10);
      DecimalRoundTrip(n / 10);
    }
  }

  function Pow10(k: nat): (p: nat)
    ensures p >= 1
  {
    if k == 0 then 1 else 10 * Pow10(k - 1)
  }

  /** A number with k + 1 significant digits renders as exactly k + 1 characters. */
  lemma {:induction false} DecimalLength(n: nat, k: nat)
    requires Pow10(k) <= n < Pow10(k + 1)
    ensures |DecimalString(n)| == k + 1
  {
    if k > 0 {
      DecimalLength(n / 10, k - 1);
    }
  }

  /** Java's String.trim strips every character whose code is at most U+0020. */
  predicate IsTrimmable(c: char) {
    c <= ' '
  }

  /** `s.trim().isEmpty()` */
  predicate IsBlank(s: string) {
    forall i :: 0 <= i < |s| ==> IsTrimmable(s[i])
  }

  function TrimLeading(s: string): (r: string)
    ensures |r| <= |s| && r == s[|s| - |r|..]
    ensures r == [] || !IsTrimmable(r[0])
    ensures forall i :: 0 <= i < |s| - |r| ==> IsTrimmable(s[i])
  {
    if s != [] && IsTrimmable(s[0]) then TrimLeading(s[1..]) else s
  }

  function TrimTrailing(s: string): (r: string)
    ensures |r| <= |s| && r == s[..|r|]
    ensures r == [] || !IsTrimmable(r[|r| - 1])
    ensures forall i :: |r| <= i < |s| ==> IsTrimmable(s[i])
  {
    if s != [] && IsTrimmable(s[|s| - 1]) then TrimTrailing(s[..|s| - 1]) else s
  }

  /** String.trim: the text between the first and the last character above U+0020. */
  function Trim(s: string): (r: string)
    ensures |r| <= |s|
    ensures r == [] || (!IsTrimmable(r[0]) && !IsTrimmable(r[|r| - 1]))
    ensures r == [] <==> IsBlank(s)
    ensures s != [] && !IsTrimmable(s[0]) && !IsTrimmable(s[|s| - 1]) ==> r == s
  {
    var lead := TrimLeading(s);
    var r := TrimTrailing(lead);
    r
  }

  /** Trimming only removes characters, and trimming twice changes nothing more. */
  lemma TrimKeepsChars(s: string)
    ensures forall c :: c in Trim(s) ==> c in s
    ensures Trim(Trim(s)) == Trim(s)
  {
    var lead := TrimLeading(s);
    var r := TrimTrailing(lead);
    forall c | c in r ensures c in s {
      var i :| 0 <= i < |r| && r[i] == c;
      assert lead[i] == c;
      assert s[|s| - |lead| + i] == c;
    }
  }

  function LowerChar(c: char): char {
    if 'A' <= c <= 'Z' then (c as int - 'A' as int + 'a' as int) as char else c
  }

  /** toLowerCase, on the ASCII letters. */
  function Lower(s: string): string {
    seq(|s|, i requires 0 <= i < |s| => LowerChar(s[i]))
  }

  predicate StartsWith(s: string, prefix: string) {
    |prefix| <= |s| && s[..|prefix|] == prefix
  }

  predicate OccursAt(s: string, t: string, i: int) {
    0 <= i && i + |t| <= |s| && s[i..i + |t|] == t
  }

  /** String.contains / String.prototype.includes. */
  predicate Contains(s: string, t: string) {
    exists i | 0 <= i <= |s| - |t| :: OccursAt(s, t, i)
  }

  /** indexOf on one character: the first position of `c`, or -1. */
  function IndexOf(s: string, c: char): (r: int)
    ensures -1 <= r < |s|
    ensures r >= 0 ==> s[r] == c && c !in s[..r]
    ensures r == -1 ==> c !in s
  {
    if s == [] then -1
    else if s[0] == c then 0
    else
      var k := IndexOf(s[1..], c);
      assert s[1..][..if k >= 0 then k else 0] == s[1..if k >= 0 then k + 1 else 1];
      if k == -1 then -1 else k + 1
  }

  /** lastIndexOf on one character: the last position of `c`, or -1. */
  function LastIndexOf(s: string, c: char): (r: int)
    ensures -1 <= r < |s|
    ensures r >= 0 ==> s[r] == c && c !in s[r + 1..]
    ensures r == -1 ==> c !in s
  {
    if s == [] then -1
    else if s[|s| - 1] == c then |s| - 1
    else
      var k := LastIndexOf(s[..|s| - 1], c);
      assert k >= 0 ==> s[k + 1..] == s[..|s| - 1][k + 1..] + [s[|s| - 1]];
      k
  }
}
