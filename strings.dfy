/**
 * String helpers shared by the renderers: ASCII case conversion, repetition,
 * joining with a delimiter, Java's notion of a blank string, decimal rendering
 * of an int and filling a `%s` template.
 */
module Strings {

  /** Upper-cases an ASCII letter; every other character is kept. */
  function UpperChar(c: char): char {
    if 'a' <= c <= 'z' then (c as int - 32) as char else c
  }

  /** Lower-cases an ASCII letter; every other character is kept. */
  function LowerChar(c: char): char {
    if 'A' <= c <= 'Z' then (c as int + 32) as char else c
  }

  function ToUpper(s: string): (r: string)
    ensures |r| == |s|
    ensures forall i :: 0 <= i < |s| ==> r[i] == UpperChar(s[i])
  {
    seq(|s|, i requires 0 <= i < |s| => UpperChar(s[i]))
  }

  function ToLower(s: string): (r: string)
    ensures |r| == |s|
    ensures forall i :: 0 <= i < |s| ==> r[i] == LowerChar(s[i])
  {
    seq(|s|, i requires 0 <= i < |s| => LowerChar(s[i]))
  }

  predicate IsUpperWord(s: string) {
    forall i :: 0 <= i < |s| ==> 'A' <= s[i] <= 'Z'
  }

  /** Lower-casing a word of capital letters and upper-casing it again gives the word back. */
  lemma UpperOfLower(s: string)
    requires IsUpperWord(s)
    ensures ToUpper(ToLower(s)) == s
  {
    assert forall i :: 0 <= i < |s| ==> UpperChar(LowerChar(s[i])) == s[i];
  }

  /** Upper-casing is idempotent. */
  lemma UpperIdempotent(s: string)
    ensures ToUpper(ToUpper(s)) == ToUpper(s)
  {
    assert forall i :: 0 <= i < |s| ==> UpperChar(UpperChar(s[i])) == UpperChar(s[i]);
  }

  /** Java's `String.repeat`: `c` written `n` times. */
  function Repeat(c: char, n: nat): (r: string)
    ensures |r| == n
    ensures forall i :: 0 <= i < n ==> r[i] == c
  {
    seq(n, _ => c)
  }

  /** Java's `Collectors.joining(delimiter)`. */
  function Join(parts: seq<string>, delimiter: string): string
  {
    if |parts| == 0 then ""
    else if |parts| == 1 then parts[0]
    else parts[0] + delimiter + Join(parts[1..], delimiter)
  }

  /** `Character.isWhitespace` in Java. */
  predicate IsWhitespace(c: char) {
    c == ' ' || c == '\t' || c == '\n' || c == '\U{B}' || c == '\U{C}' || c == '\r'
    || ('\U{1C}' <= c <= '\U{1F}')
    || c == '\U{1680}' || ('\U{2000}' <= c <= '\U{2006}') || ('\U{2008}' <= c <= '\U{200A}')
    || c == '\U{2028}' || c == '\U{2029}' || c == '\U{205F}' || c == '\U{3000}'
  }

  /** `String.isBlank` in Java: empty or whitespace only. */
  predicate IsBlank(s: string) {
    forall i :: 0 <= i < |s| ==> IsWhitespace(s[i])
  }

  /** Keeps the strings that are not blank, in order (`filter(not(String::isBlank))`). */
  function NonBlank(parts: seq<string>): (r: seq<string>)
    ensures |r| <= |parts|
    ensures forall i :: 0 <= i < |r| ==> !IsBlank(r[i])
  {
    if |parts| == 0 then []
    else if IsBlank(parts[0]) then NonBlank(parts[1..])
    else [parts[0]] + NonBlank(parts[1..])
  }

  /** Keeps the strings that are not empty, in order (`filter(not(String::isEmpty))`). */
  function NonEmpty(parts: seq<string>): (r: seq<string>)
    ensures |r| <= |parts|
    ensures forall i :: 0 <= i < |r| ==> r[i] != ""
  {
    if |parts| == 0 then []
    else if parts[0] == "" then NonEmpty(parts[1..])
    else [parts[0]] + NonEmpty(parts[1..])
  }

  function DigitChar(d: nat): char
    requires d < 10
  {
    "0123456789"[d]
  }

  function NatToString(n: nat): (r: string)
    ensures |r| >= 1
    decreases n
  {
    if n < 10 then [DigitChar(n)] else NatToString(n / 10) + [DigitChar(n % 10)]
  }

  /** Decimal rendering of an int, as `%s` or `%d` prints it. */
  function IntToString(n: int): string {
    if n < 0 then "-" + NatToString(-n) else NatToString(n)
  }

  /**
   * Fills a template given as the literal pieces around its `%s` holes:
   * pieces[0] + args[0] + pieces[1] + ... + args[k-1] + pieces[k].
   */
  function Format(pieces: seq<string>, args: seq<string>): string
    requires |pieces| == |args| + 1
  {
    if |args| == 0 then pieces[0]
    else pieces[0] + args[0] + Format(pieces[1..], args[1..])
  }

  lemma FormatTwo(pieces: seq<string>, a: string, b: string)
    requires |pieces| == 3
    ensures Format(pieces, [a, b]) == pieces[0] + a + pieces[1] + b + pieces[2]
  {
    assert Format(pieces[2..], []) == pieces[2];
    assert Format(pieces[1..], [b]) == pieces[1] + b + pieces[2];
  }

  lemma Assoc(x: string, y: string, z: string)
    ensures x + (y + z) == (x + y) + z
  {
  }

  lemma Split(x: string, y: string)
    ensures (x + y)[..|x|] == x && (x + y)[|x|..] == y
  {
  }

  lemma SuffixOf(x: string, y: string, k: nat)
    requires k <= |y|
    ensures (x + y)[|x + y| - k..] == y[|y| - k..]
  {
  }

  lemma FormatFour(pieces: seq<string>, a: string, b: string, c: string, d: string)
    requires |pieces| == 5
    ensures Format(pieces, [a, b, c, d])
            == pieces[0] + a + pieces[1] + b + pieces[2] + c + pieces[3] + d + pieces[4]
  {
    var tail := pieces[2..];
    FormatTwo(tail, c, d);
    assert [a, b, c, d][1..] == [b, c, d] && [b, c, d][1..] == [c, d];
    assert pieces[1..][1..] == tail;
    var p0, p1, p2, p3, p4 := pieces[0], pieces[1], pieces[2], pieces[3], pieces[4];
    var rest := p2 + c + p3 + d + p4;
    assert Format(pieces[1..], [b, c, d]) == p1 + b + rest;
    assert Format(pieces, [a, b, c, d]) == (p0 + a) + ((p1 + b) + rest);
    Assoc(p0 + a, p1 + b, rest);
    Assoc(p0 + a, p1, b);
    var u := p0 + a + p1 + b;
    Assoc(u, p2 + c + p3 + d, p4);
    Assoc(u, p2 + c + p3, d);
    Assoc(u, p2 + c, p3);
    Assoc(u, p2, c);
  }

  /** A filled template ends with the template's last piece. */
  lemma {:induction false} FormatEnds(pieces: seq<string>, args: seq<string>)
    requires |pieces| == |args| + 1
    ensures var r := Format(pieces, args);
            var last := pieces[|pieces| - 1];
            |r| >= |last| && r[|r| - |last|..] == last
  {
    if |args| > 0 {
      FormatEnds(pieces[1..], args[1..]);
    }
  }
}
