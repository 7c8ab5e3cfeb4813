/**
 * extract_links_from_html over the href values of a page's anchors. The HTML
 * parser is outside the model: its output is the sequence of href values, or
 * None when parsing raises. urljoin is a parameter that returns None when it raises.
 */
module LinkExtraction {
  import opened Wrappers
  import opened Strings
  import opened Urls
  import opened DirectoryScope

  /** urljoin(base, href), section 5.2 of RFC 3986; None when it raises. */
  type Join = (string, string) -> Option<string>

  /** What one anchor contributes to the list the loop builds. */
  datatype Anchor = Ignored | Raised | Kept(url: string)

  /** hrefs the crawler does not follow. */
  predicate IsNonNavigable(href: string) {
    StartsWith(href, "javascript:") || StartsWith(href, "mailto:") || StartsWith(href, "tel:")
  }

  /** One pass of the loop: strip, skip, join with the page URL, normalize, keep if in the directory. */
  function Classify(scope: Scope, join: Join, base: string, href: string): (a: Anchor)
    requires scope.Valid()
    ensures a.Kept? ==> IsInTargetDirectory(scope, a.url) && '#' !in a.url
    ensures Strip(href) == "" || IsNonNavigable(Strip(href)) ==> a == Ignored
  {
    var h := Strip(href);
    if h == "" || IsNonNavigable(h) then Ignored
    else
      match join(base, h)
      case None => Raised
      case Some(full) =>
        var u := NormalizeUrl(scope, full);
        if IsInTargetDirectory(scope, u) then Kept(u) else Ignored
  }

  /** Classify applied to each href in turn. */
  function ClassifyAll(scope: Scope, join: Join, base: string, hrefs: seq<string>): (r: seq<Anchor>)
    requires scope.Valid()
    ensures |r| == |hrefs|
    ensures forall i :: 0 <= i < |hrefs| ==> r[i] == Classify(scope, join, base, hrefs[i])
  {
    seq(|hrefs|, i requires 0 <= i < |hrefs| => Classify(scope, join, base, hrefs[i]))
  }

  /** The list `links` after the loop over the classified anchors, or None once one of them raised. */
  function Collect(anchors: seq<Anchor>): (r: Option<seq<string>>)
    ensures r.Some? <==> Raised !in anchors
  {
    if anchors == [] then Some([])
    else
      var prefix := anchors[..|anchors| - 1];
      assert anchors == prefix + [anchors[|anchors| - 1]];
      match Collect(prefix)
      case None => None
      case Some(links) =>
        match anchors[|anchors| - 1]
        case Raised => None
        case Ignored => Some(links)
        case Kept(u) => Some(links + [u])
  }

  /** The list holds exactly the URLs of the anchors that were kept. */
  lemma {:induction false} CollectMembers(anchors: seq<Anchor>, x: string)
    requires Collect(anchors).Some?
    ensures x in Collect(anchors).value <==> Kept(x) in anchors
  {
    if anchors != [] {
      var prefix := anchors[..|anchors| - 1];
      assert anchors == prefix + [anchors[|anchors| - 1]];
      CollectMembers(prefix, x);
    }
  }

  /** list(set(links)), keeping each element where it first occurs. */
  function Dedup(s: seq<string>): (r: seq<string>)
    ensures NoDuplicates(r)
    ensures forall x :: x in r <==> x in s
  {
    if s == [] then []
    else
      var r := Dedup(s[..|s| - 1]);
      assert forall x :: x in s <==> x in s[..|s| - 1] || x == s[|s| - 1] by {
        assert s == s[..|s| - 1] + [s[|s| - 1]];
      }
      if s[|s| - 1] in r then r else r + [s[|s| - 1]]
  }

  /** The list extract_links_from_html returns; a parse failure or a raising urljoin gives []. */
  function ExtractedLinks(scope: Scope, join: Join, base: string, anchors: Option<seq<string>>): (r: seq<string>)
    requires scope.Valid()
    ensures NoDuplicates(r)
    ensures forall x :: x in r ==> IsInTargetDirectory(scope, x) && '#' !in x
    ensures anchors.None? ==> r == []
    ensures anchors.Some? && (exists i :: 0 <= i < |anchors.value| && Classify(scope, join, base, anchors.value[i]) == Raised)
      ==> r == []
    ensures anchors.Some? ==> forall x :: x in r <==>
      && (forall i :: 0 <= i < |anchors.value| ==> Classify(scope, join, base, anchors.value[i]) != Raised)
      && (exists i :: 0 <= i < |anchors.value| && Classify(scope, join, base, anchors.value[i]) == Kept(x))
  {
    match anchors
    case None => []
    case Some(hrefs) => LinksOf(ClassifyAll(scope, join, base, hrefs))
  }

  /** The de-duplicated list of kept URLs, or [] once an anchor raised. */
  function LinksOf(classified: seq<Anchor>): (r: seq<string>)
    ensures NoDuplicates(r)
    ensures forall x :: x in r <==> Raised !in classified && Kept(x) in classified
  {
    match Collect(classified)
    case None => []
    case Some(links) =>
      assert forall x :: x in links <==> Kept(x) in classified by {
        forall x ensures x in links <==> Kept(x) in classified {
          CollectMembers(classified, x);
        }
      }
      Dedup(links)
  }

  /** An href that is empty or non-navigable can be removed without changing the links found. */
  lemma {:induction false} IgnoredIsInert(a: seq<Anchor>, b: seq<Anchor>)
    ensures Collect(a + [Ignored] + b) == Collect(a + b)
    decreases |b|
  {
    if b == [] {
      assert (a + [Ignored] + b)[..|a + [Ignored] + b| - 1] == a;
      assert a + b == a;
    } else {
      var b' := b[..|b| - 1];
      IgnoredIsInert(a, b');
      assert (a + [Ignored] + b)[..|a + [Ignored] + b| - 1] == a + [Ignored] + b';
      assert (a + b)[..|a + b| - 1] == a + b';
    }
  }

  /** hrefs starting with javascript:, mailto: or tel: never contribute a link. */
  lemma NonNavigableNeverContributes(scope: Scope, join: Join, base: string, a: seq<string>, h: string, b: seq<string>)
    requires scope.Valid()
    requires IsNonNavigable(Strip(h))
    ensures ExtractedLinks(scope, join, base, Some(a + [h] + b)) == ExtractedLinks(scope, join, base, Some(a + b))
  {
    var ca := ClassifyAll(scope, join, base, a);
    var cb := ClassifyAll(scope, join, base, b);
    ClassifyAllSplit(scope, join, base, a, h, b);
    IgnoredIsInert(ca, cb);
    assert LinksOf(ca + [Ignored] + cb) == LinksOf(ca + cb);
  }

  lemma ClassifyAllSplit(scope: Scope, join: Join, base: string, a: seq<string>, h: string, b: seq<string>)
    requires scope.Valid()
    requires IsNonNavigable(Strip(h))
    ensures ClassifyAll(scope, join, base, a + [h] + b) ==
      ClassifyAll(scope, join, base, a) + [Ignored] + ClassifyAll(scope, join, base, b)
    ensures ClassifyAll(scope, join, base, a + b) == ClassifyAll(scope, join, base, a) + ClassifyAll(scope, join, base, b)
  {
  }

  /** An href on which urljoin raises empties the result. */
  lemma NoLinksWhenRaised(scope: Scope, join: Join, base: string, hrefs: seq<string>, i: nat)
    requires scope.Valid()
    requires i < |hrefs| && Classify(scope, join, base, hrefs[i]) == Raised
    ensures ExtractedLinks(scope, join, base, Some(hrefs)) == []
  {
    var classified := ClassifyAll(scope, join, base, hrefs);
    assert classified[i] == Raised;
  }

  lemma LinksWhenCollected(scope: Scope, join: Join, base: string, hrefs: seq<string>, found: seq<string>)
    requires scope.Valid()
    requires Collect(ClassifyAll(scope, join, base, hrefs)) == Some(found)
    ensures ExtractedLinks(scope, join, base, Some(hrefs)) == Dedup(found)
  {
  }

  /** One more anchor that did not raise: a kept URL is appended, an ignored href changes nothing. */
  lemma CollectStep(classified: seq<Anchor>, i: nat, found: seq<string>)
    requires i < |classified| && classified[i] != Raised
    requires Collect(classified[..i]) == Some(found)
    ensures Collect(classified[..i + 1]) == Some(if classified[i].Kept? then found + [classified[i].url] else found)
  {
    assert classified[..i + 1][..i] == classified[..i];
  }

  /** extract_links_from_html: the loop of lines 124-132, then the de-duplication of line 134. */
  method ExtractLinks(scope: Scope, join: Join, base: string, anchors: Option<seq<string>>) returns (links: seq<string>)
    requires scope.Valid()
    ensures links == ExtractedLinks(scope, join, base, anchors)
  {
    if anchors.None? {
      return [];
    }
    var hrefs := anchors.value;
    ghost var classified := ClassifyAll(scope, join, base, hrefs);
    var found: seq<string> := [];
    for i := 0 to |hrefs|
      invariant Collect(classified[..i]) == Some(found)
    {
      var anchor := Classify(scope, join, base, hrefs[i]);
      match anchor {
        case Raised =>
          NoLinksWhenRaised(scope, join, base, hrefs, i);
          return [];
        case Ignored =>
          CollectStep(classified, i, found);
        case Kept(u) =>
          CollectStep(classified, i, found);
          found := found + [u];
      }
    }
    assert classified[..|hrefs|] == classified;
    LinksWhenCollected(scope, join, base, hrefs, found);
    links := Dedup(found);
  }
}
