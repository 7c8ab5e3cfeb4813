/**
 * A simplified URL component split in the manner of Python's urlsplit, after
 * section 3 of RFC 3986: scheme ":" ["//" authority] path ["?" query] ["#" fragment].
 * The one failure it reports is one of those urlsplit raises ValueError for: an
 * authority holding a '[' without a ']' or a ']' without a '['.
 */
module Urls {
  import opened Wrappers
  import opened Strings

  /** scheme = ALPHA *( ALPHA / DIGIT / "+" / "-" / "." ), section 3.1 of RFC 3986. */
  predicate IsSchemeChar(c: char) {
    IsAsciiAlnum(c) || c == '+' || c == '-' || c == '.'
  }

  /** The characters that end the authority, section 3.2 of RFC 3986. */
  const AuthorityEnd: set<char> := {'/', '?', '#'}

  /** The components urlparse hands to the crawler (netloc is the authority). */
  datatype UrlParts = UrlParts(scheme: string, netloc: string, path: string, query: string, fragment: string)

  /** What every successful parse yields: each component free of the delimiters that end it. */
  predicate Shaped(p: UrlParts) {
    && SchemeShaped(p.scheme)
    && (forall i :: 0 <= i < |p.netloc| ==> p.netloc[i] !in AuthorityEnd)
    && '?' !in p.path && '#' !in p.path
    && '#' !in p.query
  }

  /** A scheme as urlsplit returns it: empty, or a lower-cased scheme that starts with a letter. */
  predicate SchemeShaped(scheme: string) {
    && (forall i :: 0 <= i < |scheme| ==> IsSchemeChar(scheme[i]) && !('A' <= scheme[i] <= 'Z'))
    && (scheme == [] || IsAsciiLetter(scheme[0]))
  }

  predicate BracketsMismatched(netloc: string) {
    ('[' in netloc) != (']' in netloc)
  }

  /**
   * The scheme is the text before the first ':' when that text is non-empty,
   * starts with an ASCII letter and holds only scheme characters; it is lower-cased.
   */
  function SplitScheme(url: string): (r: (string, string))
    ensures SchemeShaped(r.0)
  {
    var i := IndexOfAny(url, {':'});
    if 0 < i < |url| && IsAsciiLetter(url[0]) && (forall k :: 0 <= k < i ==> IsSchemeChar(url[k]))
    then (AsciiLower(url[..i]), url[i + 1..])
    else ("", url)
  }

  /** Splits what follows "//" into the authority and the rest. */
  function SplitAuthority(s: string): (r: (string, string))
    ensures s == r.0 + r.1
    ensures forall i :: 0 <= i < |r.0| ==> r.0[i] !in AuthorityEnd
    ensures r.1 == [] || r.1[0] in AuthorityEnd
  {
    var j := IndexOfAny(s, AuthorityEnd);
    (s[..j], s[j..])
  }

  function Parse(url: string): (r: Option<UrlParts>)
    ensures r.Some? ==> Shaped(r.value) && !BracketsMismatched(r.value.netloc)
  {
    var (scheme, rest) := SplitScheme(url);
    var (netloc, tail) := if StartsWith(rest, "//") then SplitAuthority(rest[2..]) else ("", rest);
    if BracketsMismatched(netloc) then None
    else
      var (beforeFragment, fragment) := SplitAt(tail, '#');
      var (path, query) := SplitAt(beforeFragment, '?');
      Some(UrlParts(scheme, netloc, path, query, fragment))
  }

  /** Component recomposition, section 5.3 of RFC 3986, for a URL with a scheme and an authority. */
  function Compose(p: UrlParts): string {
    p.scheme + "://" + p.netloc + PathQueryFragment(p)
  }

  /** What follows the authority in a recomposed URL. */
  function PathQueryFragment(p: UrlParts): string {
    p.path + QueryPart(p) + (if p.fragment == "" then "" else "#" + p.fragment)
  }

  function QueryPart(p: UrlParts): string {
    if p.query == "" then "" else "?" + p.query
  }

  /** The components for which Compose and Parse are inverse. */
  predicate WellFormed(p: UrlParts) {
    && Shaped(p)
    && p.scheme != []
    && !BracketsMismatched(p.netloc)
    && (p.path == [] || p.path[0] == '/')
  }

  /** The first index at which a character of cs occurs is determined by the characters before it. */
  lemma IndexOfAnyIs(s: string, cs: set<char>, i: nat)
    requires i <= |s|
    requires forall k :: 0 <= k < i ==> s[k] !in cs
    requires i == |s| || s[i] in cs
    ensures IndexOfAny(s, cs) == i
  {
  }

  lemma SplitAtIs(s: string, c: char, a: string, b: string)
    requires c !in a
    requires s == a + [c] + b
    ensures SplitAt(s, c) == (a, b)
  {
    IndexOfAnyIs(s, {c}, |a|);
    assert s[..|a|] == a;
    assert s[|a| + 1..] == b;
  }

  /** A shaped scheme is already lower-case. */
  lemma LowerShaped(scheme: string)
    requires SchemeShaped(scheme)
    ensures AsciiLower(scheme) == scheme
  {
  }

  /** A non-empty shaped scheme followed by ':' is split off as the scheme. */
  lemma SplitSchemeOf(scheme: string, rest: string)
    requires SchemeShaped(scheme) && scheme != []
    ensures SplitScheme(scheme + ":" + rest) == (scheme, rest)
  {
    var u := scheme + ":" + rest;
    IndexOfAnyIs(u, {':'}, |scheme|);
    assert u[..|scheme|] == scheme;
    assert u[|scheme| + 1..] == rest;
    LowerShaped(scheme);
  }

  lemma SplitSchemeCompose(p: UrlParts)
    requires WellFormed(p)
    ensures SplitScheme(Compose(p)) == (p.scheme, "//" + p.netloc + PathQueryFragment(p))
  {
    var rest := "//" + p.netloc + PathQueryFragment(p);
    assert Compose(p) == p.scheme + ":" + rest;
    SplitSchemeOf(p.scheme, rest);
  }

  lemma SplitAuthorityCompose(p: UrlParts)
    requires WellFormed(p)
    ensures SplitAuthority(p.netloc + PathQueryFragment(p)) == (p.netloc, PathQueryFragment(p))
  {
    var s := p.netloc + PathQueryFragment(p);
    var tail := PathQueryFragment(p);
    assert tail == [] || tail[0] in AuthorityEnd;
    IndexOfAnyIs(s, AuthorityEnd, |p.netloc|);
    assert s[..|p.netloc|] == p.netloc;
    assert s[|p.netloc|..] == tail;
  }

  /** Splitting at c undoes appending an optional c-prefixed part to text without c. */
  lemma SplitOptional(a: string, c: char, b: string)
    requires c !in a
    ensures SplitAt(a + (if b == "" then "" else [c] + b), c) == (a, b)
  {
    if b == "" {
      assert a + "" == a;
    } else {
      assert a + ([c] + b) == a + [c] + b;
      SplitAtIs(a + [c] + b, c, a, b);
    }
  }

  lemma SplitPathQueryFragment(p: UrlParts)
    requires WellFormed(p)
    ensures SplitAt(PathQueryFragment(p), '#') == (p.path + QueryPart(p), p.fragment)
    ensures SplitAt(p.path + QueryPart(p), '?') == (p.path, p.query)
  {
    var beforeFragment := p.path + QueryPart(p);
    assert '#' !in beforeFragment;
    assert PathQueryFragment(p) == beforeFragment + (if p.fragment == "" then "" else "#" + p.fragment);
    SplitOptional(beforeFragment, '#', p.fragment);
    assert QueryPart(p) == if p.query == "" then "" else "?" + p.query;
    SplitOptional(p.path, '?', p.query);
  }

  /** Parsing a recomposed URL gives back its components. */
  lemma {:induction false} ParseCompose(p: UrlParts)
    requires WellFormed(p)
    ensures Parse(Compose(p)) == Some(p)
  {
    var rest := "//" + p.netloc + PathQueryFragment(p);
    SplitSchemeCompose(p);
    assert StartsWith(rest, "//") && rest[2..] == p.netloc + PathQueryFragment(p);
    SplitAuthorityCompose(p);
    SplitPathQueryFragment(p);
  }
}
