/**
 * String helpers with the meaning of the Python string methods the crawler
 * uses (startswith, endswith, find, split, strip, rstrip, replace).
 */
module Strings {

  predicate StartsWith(s: string, prefix: string) {
    |prefix| <= |s| && s[..|prefix|] == prefix
  }

  predicate EndsWith(s: string, suffix: string) {
    |suffix| <= |s| && s[|s| - |suffix|..] == suffix
  }

  /** No element occurs twice. */
  predicate NoDuplicates<T(==)>(s: seq<T>) {
    forall i, j :: 0 <= i < j < |s| ==> s[i] != s[j]
  }

  /** An element equal to no entry of s is not in s. */
  lemma NotInSeq<T>(s: seq<T>, x: T)
    requires forall i :: 0 <= i < |s| ==> s[i] != x
    ensures x !in s
  {
  }

  /** The set of elements of a sequence, as Python's set(list). */
  function Elems<T>(s: seq<T>): set<T> {
    set x | x in s
  }

  lemma ElemsAppend<T>(s: seq<T>, x: T)
    ensures Elems(s + [x]) == Elems(s) + {x}
  {
    assert forall y :: y in s + [x] <==> y in s || y == x;
  }

  /** Index of the first character of s that is in cs, or |s| when none is. */
  function IndexOfAny(s: string, cs: set<char>): (i: nat)
    ensures i <= |s|
    ensures forall k :: 0 <= k < i ==> s[k] !in cs
    ensures i < |s| ==> s[i] in cs
  {
    if s == [] then 0
    else if s[0] in cs then 0
    else 1 + IndexOfAny(s[1..], cs)
  }

  /** Python's s.split(c)[0]: the part of s before the first c. */
  function Before(s: string, c: char): (r: string)
    ensures StartsWith(s, r)
    ensures c !in r
    ensures |r| == |s| || s[|r|] == c
  {
    s[..IndexOfAny(s, {c})]
  }

  /** Python's s.split(c, 1) when c occurs in s, and (s, "") when it does not. */
  function SplitAt(s: string, c: char): (r: (string, string))
    ensures r.0 == Before(s, c)
    ensures c !in s ==> r == (s, "")
    ensures c in s ==> s == r.0 + [c] + r.1
  {
    var i := IndexOfAny(s, {c});
    if i == |s| then (s, "") else (s[..i], s[i + 1..])
  }

  /** Python's s.rstrip(chars). */
  function TrimRight(s: string, cs: set<char>): (r: string)
    ensures StartsWith(s, r)
    ensures r == [] || r[|r| - 1] !in cs
    ensures forall i :: |r| <= i < |s| ==> s[i] in cs
  {
    if s == [] || s[|s| - 1] !in cs then s
    else TrimRight(s[..|s| - 1], cs)
  }

  /** Python's s.lstrip(chars). */
  function TrimLeft(s: string, cs: set<char>): (r: string)
    ensures EndsWith(s, r)
    ensures r == [] || r[0] !in cs
    ensures forall i :: 0 <= i < |s| - |r| ==> s[i] in cs
  {
    if s == [] || s[0] !in cs then s
    else TrimLeft(s[1..], cs)
  }

  /** Python's s.strip(chars). */
  function Trim(s: string, cs: set<char>): string {
    TrimRight(TrimLeft(s, cs), cs)
  }

  /** Python's s.replace(a, b) for single characters a and b. */
  function ReplaceChar(s: string, a: char, b: char): (r: string)
    ensures |r| == |s|
    ensures forall i :: 0 <= i < |s| ==> r[i] == if s[i] == a then b else s[i]
  {
    seq(|s|, i requires 0 <= i < |s| => if s[i] == a then b else s[i])
  }

  predicate IsAsciiLetter(c: char) {
    'a' <= c <= 'z' || 'A' <= c <= 'Z'
  }

  predicate IsAsciiDigit(c: char) {
    '0' <= c <= '9'
  }

  predicate IsAsciiAlnum(c: char) {
    IsAsciiLetter(c) || IsAsciiDigit(c)
  }

  /** ASCII lower-casing, as Python's str.lower() on ASCII text. */
  function AsciiLower(s: string): (r: string)
    ensures |r| == |s|
    ensures forall i :: 0 <= i < |s| ==> r[i] == if 'A' <= s[i] <= 'Z' then s[i] - 'A' + 'a' else s[i]
  {
    seq(|s|, i requires 0 <= i < |s| => if 'A' <= s[i] <= 'Z' then s[i] - 'A' + 'a' else s[i])
  }

  /** The ASCII characters Python's str.strip() removes: those for which str.isspace() holds. */
  const Whitespace: set<char> := {' ', '\t', '\n', '\r', '\U{B}', '\U{C}', '\U{1C}', '\U{1D}', '\U{1E}', '\U{1F}'}

  /** Python's s.strip() with no argument. */
  function Strip(s: string): string {
    Trim(s, Whitespace)
  }

  /** Trim removes exactly the characters of cs at both ends and keeps the middle. */
  lemma TrimIdentity(s: string, cs: set<char>)
    requires s == [] || (s[0] !in cs && s[|s| - 1] !in cs)
    ensures Trim(s, cs) == s
  {
  }

  /** A string made only of characters of cs strips to the empty string. */
  lemma TrimAll(s: string, cs: set<char>)
    ensures (forall i :: 0 <= i < |s| ==> s[i] in cs) ==> Trim(s, cs) == ""
  {
  }
}
