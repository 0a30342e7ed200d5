/**
  String helpers shared by the three utilities: the ASCII part of Python's
  `str.strip`, `str.startswith`, `str.capitalize`, and the decimal text of a
  non-negative `int` as an f-string writes it.
*/
module Text {

  /** The ASCII characters for which Python's `str.isspace` holds. */
  predicate IsSpace(c: char) {
    c == ' ' || c == '\t' || c == '\n' || c == '\r' || c == '\U{000B}' || c == '\U{000C}'
    || ('\U{001C}' <= c <= '\U{001F}')
  }

  predicate AllSpace(s: string) {
    forall i :: 0 <= i < |s| ==> IsSpace(s[i])
  }

  lemma AllSpaceConcat(a: string, b: string)
    requires AllSpace(a) && AllSpace(b)
    ensures AllSpace(a + b)
  {
    forall i | 0 <= i < |a + b| ensures IsSpace((a + b)[i]) {
      if i < |a| { assert (a + b)[i] == a[i]; } else { assert (a + b)[i] == b[i - |a|]; }
    }
  }

  /** The number of whitespace characters `s.lstrip()` drops. */
  function LeadingSpace(s: string): (n: nat)
    ensures n <= |s| && AllSpace(s[..n])
    ensures n < |s| ==> !IsSpace(s[n])
  {
    if s != [] && IsSpace(s[0]) then
      var m := LeadingSpace(s[1..]);
      assert s[..m + 1] == [s[0]] + s[1..][..m];
      AllSpaceConcat([s[0]], s[1..][..m]);
      1 + m
    else 0
  }

  /** The number of whitespace characters `s.rstrip()` drops. */
  function TrailingSpace(s: string): (n: nat)
    ensures n <= |s| && AllSpace(s[|s| - n..])
    ensures n < |s| ==> !IsSpace(s[|s| - n - 1])
  {
    if s != [] && IsSpace(s[|s| - 1]) then
      var t := s[..|s| - 1];
      var m := TrailingSpace(t);
      assert s[|s| - m - 1..] == t[|t| - m..] + [s[|s| - 1]];
      AllSpaceConcat(t[|t| - m..], [s[|s| - 1]]);
      1 + m
    else 0
  }

  /** `t.rstrip()`. */
  function RightStrip(t: string): string {
    t[..|t| - TrailingSpace(t)]
  }

  /** `s.strip()`: `s` without its leading and trailing whitespace. */
  function Strip(s: string): (r: string)
    ensures LeadingSpace(s) + |r| <= |s|
    ensures r == s[LeadingSpace(s)..LeadingSpace(s) + |r|]
    ensures AllSpace(s[..LeadingSpace(s)]) && AllSpace(s[LeadingSpace(s) + |r|..])
    ensures r == [] || (!IsSpace(r[0]) && !IsSpace(r[|r| - 1]))
  {
    var i := LeadingSpace(s);
    var t := s[i..];
    var j := TrailingSpace(t);
    var r := RightStrip(t);
    assert |r| == |t| - j;
    assert r == s[i..i + |r|];
    assert s[i + |r|..] == t[|t| - j..];
    assert r != [] ==> r[0] == t[0] == s[i] && !IsSpace(s[i]);
    assert r != [] ==> r[|r| - 1] == t[|t| - j - 1] && !IsSpace(t[|t| - j - 1]);
    r
  }

  /** `s.startswith(p)`. */
  predicate StartsWith(s: string, p: string) {
    |p| <= |s| && s[..|p|] == p
  }

  /** `s.startswith(start)` for a tuple `start`. */
  predicate StartsWithAny(s: string, start: seq<string>) {
    exists i :: 0 <= i < |start| && StartsWith(s, start[i])
  }

  /** Two prefixes of one string agree wherever both are defined. */
  lemma PrefixesAgree(s: string, p: string, q: string, i: nat)
    requires StartsWith(s, p) && StartsWith(s, q) && i < |p| && i < |q|
    ensures p[i] == q[i]
  {
    assert s[..|p|][i] == s[i] == s[..|q|][i];
  }

  /** `lstrip` drops leading whitespace added in front together with the string's own. */
  lemma {:induction false} LeadingSpaceConcat(ws: string, s: string)
    requires AllSpace(ws)
    ensures LeadingSpace(ws + s) == |ws| + LeadingSpace(s)
    decreases |ws|
  {
    if ws == [] {
      assert ws + s == s;
    } else {
      assert (ws + s)[0] == ws[0] && (ws + s)[1..] == ws[1..] + s;
      assert IsSpace(ws[0]);
      LeadingSpaceConcat(ws[1..], s);
    }
  }

  /** Leading whitespace does not change what `strip` returns. */
  lemma StripLeadingSpace(ws: string, s: string)
    requires AllSpace(ws)
    ensures Strip(ws + s) == Strip(s)
  {
    LeadingSpaceConcat(ws, s);
    assert (ws + s)[LeadingSpace(ws + s)..] == s[LeadingSpace(s)..];
  }

  predicate IsLower(c: char) { 'a' <= c <= 'z' }

  predicate IsUpper(c: char) { 'A' <= c <= 'Z' }

  function ToUpper(c: char): (u: char)
    ensures !IsLower(u)
    ensures IsLower(c) ==> IsUpper(u)
    ensures !IsLower(c) ==> u == c
  {
    if IsLower(c) then (c as int - 'a' as int + 'A' as int) as char else c
  }

  function ToLower(c: char): (l: char)
    ensures !IsUpper(l)
    ensures IsUpper(c) ==> IsLower(l)
    ensures !IsUpper(c) ==> l == c
  {
    if IsUpper(c) then (c as int - 'A' as int + 'a' as int) as char else c
  }

  /** `s.lower()` on ASCII letters. */
  function LowerAll(s: string): (r: string)
    ensures |r| == |s|
    ensures forall i :: 0 <= i < |s| ==> r[i] == ToLower(s[i])
  {
    if s == [] then [] else [ToLower(s[0])] + LowerAll(s[1..])
  }

  /** `s.capitalize()`: the first character upper-cased and the rest lower-cased. */
  function Capitalize(s: string): (r: string)
    ensures |r| == |s|
    ensures s != [] ==> r[0] == ToUpper(s[0])
    ensures forall i :: 0 < i < |s| ==> r[i] == ToLower(s[i])
  {
    if s == [] then [] else [ToUpper(s[0])] + LowerAll(s[1..])
  }

  /** A word already in lower case is capitalized by upper-casing its first letter alone. */
  lemma CapitalizeWord(s: string)
    requires s != [] && forall i :: 0 <= i < |s| ==> !IsUpper(s[i])
    ensures Capitalize(s) == [ToUpper(s[0])] + s[1..]
  {
    assert LowerAll(s[1..]) == s[1..];
  }

  predicate IsDigit(c: char) { '0' <= c <= '9' }

  function DigitChar(d: nat): (c: char)
    requires d < 10
    ensures IsDigit(c) && c as int - '0' as int == d
  {
    (d + '0' as int) as char
  }

  /** The decimal text of `n`, as `str(n)` or `f"{n}"` writes a non-negative int. */
  function NatToString(n: nat): (r: string)
    ensures r != [] && forall i :: 0 <= i < |r| ==> IsDigit(r[i])
    ensures |r| > 1 ==> r[0] != '0'
    decreases n
  {
    if n < 10 then [DigitChar(n)] else NatToString(n / 10) + [DigitChar(n % 10)]
  }

  /** The value of a string of decimal digits: the inverse of NatToString. */
  function DigitsValue(s: string): nat
    requires forall i :: 0 <= i < |s| ==> IsDigit(s[i])
  {
    if s == [] then 0
    else
      assert IsDigit(s[|s| - 1]);
      DigitsValue(s[..|s| - 1]) * 10 + (s[|s| - 1] as int - '0' as int)
  }

  lemma {:induction false} DigitsValueOfNatToString(n: nat)
    ensures DigitsValue(NatToString(n)) == n
    decreases n
  {
    if n >= 10 {
      var s := NatToString(n);
      assert s[..|s| - 1] == NatToString(n / 10);
      DigitsValueOfNatToString(n / 10);
    }
  }

  lemma NatToStringInjective(m: nat, n: nat)
    requires NatToString(m) == NatToString(n)
    ensures m == n
  {
    DigitsValueOfNatToString(m);
    DigitsValueOfNatToString(n);
  }
}
