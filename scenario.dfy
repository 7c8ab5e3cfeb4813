/**
 * A worked example: the directory https://example.com/docs/ whose index
 * page links to /docs/a.html, /docs/b.html#frag, /other/c.html and
 * javascript:void(0). Link extraction keeps a.html and b.html, the latter
 * without its fragment, and drops the other two.
 *
 * The facts are proved for any site of the same shape (a scheme, a host, a
 * directory path, two pages inside it and one outside); the Example lemmas
 * show the URLs above have that shape. CrawlScenario runs the crawl.
 */
module Scenario {
  import opened Wrappers
  import opened Strings
  import opened Urls
  import opened DirectoryScope
  import opened LinkExtraction
  import opened Frontier
  import opened Report

  predicate HostShaped(h: string) {
    h != [] && (forall i :: 0 <= i < |h| ==> h[i] !in AuthorityEnd) && !BracketsMismatched(h)
  }

  /** A rooted path without query or fragment that ends in a non-blank character. */
  predicate PathShaped(p: string) {
    '?' !in p && '#' !in p && p != [] && p[0] == '/' && p[|p| - 1] !in Whitespace
  }

  /** The shape of the example: a directory path d, pages pa and pb below it, a path pc outside it. */
  predicate Site(s: string, h: string, d: string, pa: string, pb: string, pc: string) {
    && SchemeShaped(s) && s != []
    && HostShaped(h)
    && PathShaped(d) && |d| >= 2 && d[|d| - 1] == '/' && d[|d| - 2] != '/'
    && PathShaped(pa) && StartsWith(pa, d) && |pa| > |d|
    && PathShaped(pb) && StartsWith(pb, d) && |pb| > |d|
    && pa != pb
    && PathShaped(pc) && !StartsWith(pc, d)
  }

  /** scheme "://" host path, with components that Parse gives back. */
  lemma ParseSimple(scheme: string, host: string, path: string)
    requires SchemeShaped(scheme) && scheme != [] && HostShaped(host) && PathShaped(path)
    ensures Parse(scheme + "://" + host + path) == Some(UrlParts(scheme, host, path, "", ""))
  {
    var p := UrlParts(scheme, host, path, "", "");
    ParseCompose(p);
    assert Compose(p) == scheme + "://" + host + path;
  }

  /** Cutting at the first '#' removes a fragment appended to a URL without one. */
  lemma BeforeFragment(url: string, fragment: string)
    requires '#' !in url
    requires fragment == [] || fragment[0] == '#'
    ensures Before(url + fragment, '#') == url
  {
    var s := url + fragment;
    assert url == s[..|url|];
  }

  /** A navigable href with nothing to strip is classified by where its join normalizes to. */
  lemma ClassifyJoined(scope: Scope, join: Join, base: string, href: string, full: string)
    requires scope.Valid()
    requires Strip(href) == href && href != "" && !IsNonNavigable(href)
    requires join(base, href) == Some(full)
    ensures Classify(scope, join, base, href) ==
      var u := NormalizeUrl(scope, full);
      if IsInTargetDirectory(scope, u) then Kept(u) else Ignored
  {
  }

  /** A rooted path with an optional fragment is an href with nothing to strip and no skipped prefix. */
  lemma SiteHref(path: string, fragment: string)
    requires PathShaped(path)
    requires fragment == [] || (fragment[0] == '#' && fragment[|fragment| - 1] !in Whitespace)
    ensures Strip(path + fragment) == path + fragment && path + fragment != ""
    ensures !IsNonNavigable(path + fragment)
  {
    var href := path + fragment;
    assert href[0] == '/';
    assert href[|href| - 1] !in Whitespace;
    TrimIdentity(href, Whitespace);
    assert href[..1] == "/";
  }

  /** Normalizing an absolute URL of the site drops its fragment and nothing else. */
  lemma NormalizeSiteUrl(s: string, h: string, d: string, path: string, fragment: string)
    requires SchemeShaped(s) && s != [] && HostShaped(h) && PathShaped(path)
    requires fragment == [] || fragment[0] == '#'
    ensures Scope(s, h, d).Valid()
    ensures NormalizeUrl(Scope(s, h, d), s + "://" + h + path + fragment) == s + "://" + h + path
  {
    var url := s + "://" + h + path;
    assert url + fragment == s + "://" + h + path + fragment;
    BeforeFragment(url, fragment);
    assert url[0] != '/' by {
      assert url[0] == s[0];
    }
    NormalizeFixedPoints(Scope(s, h, d), url);
  }

  /** An absolute URL of the site is in the directory exactly when its path starts with the directory path. */
  lemma SiteUrlInScope(s: string, h: string, d: string, path: string)
    requires SchemeShaped(s) && s != [] && HostShaped(h) && PathShaped(path)
    ensures IsInTargetDirectory(Scope(s, h, d), s + "://" + h + path) <==> StartsWith(path, d)
  {
    ParseSimple(s, h, path);
  }

  /**
   * A site-relative href that urljoin resolves to an absolute URL of the
   * site (plus an optional fragment) is kept exactly when its path lies
   * inside the directory.
   */
  lemma ClassifySiteRelative(s: string, h: string, d: string, join: Join, base: string, path: string, fragment: string)
    requires SchemeShaped(s) && s != [] && HostShaped(h) && PathShaped(path)
    requires fragment == [] || (fragment[0] == '#' && fragment[|fragment| - 1] !in Whitespace)
    requires join(base, path + fragment) == Some(s + "://" + h + path + fragment)
    ensures Scope(s, h, d).Valid()
    ensures Classify(Scope(s, h, d), join, base, path + fragment) ==
      if StartsWith(path, d) then Kept(s + "://" + h + path) else Ignored
  {
    SiteHref(path, fragment);
    NormalizeSiteUrl(s, h, d, path, fragment);
    SiteUrlInScope(s, h, d, path);
    ClassifyJoined(Scope(s, h, d), join, base, path + fragment, s + "://" + h + path + fragment);
  }

  lemma JavascriptIgnored(scope: Scope, join: Join, base: string, href: string)
    requires scope.Valid()
    requires href == "javascript:void(0)"
    ensures Classify(scope, join, base, href) == Ignored
  {
    TrimIdentity(href, Whitespace);
    assert StartsWith(href, "javascript:");
  }

  /** urljoin against the index page resolves the three site-relative hrefs. */
  predicate JoinsSite(join: Join, s: string, h: string, d: string, pa: string, pb: string, fragment: string, pc: string) {
    var root := s + "://" + h + d;
    && join(root, pa) == Some(s + "://" + h + pa)
    && join(root, pb + fragment) == Some(s + "://" + h + pb + fragment)
    && join(root, pc) == Some(s + "://" + h + pc)
  }

  /** The four anchors classify as two kept pages and two ignored hrefs. */
  lemma SiteAnchors(s: string, h: string, d: string, pa: string, pb: string, fragment: string, pc: string, js: string, join: Join)
    requires Site(s, h, d, pa, pb, pc)
    requires fragment != [] && fragment[0] == '#' && fragment[|fragment| - 1] !in Whitespace
    requires js == "javascript:void(0)"
    requires JoinsSite(join, s, h, d, pa, pb, fragment, pc)
    ensures Scope(s, h, d).Valid()
    ensures ClassifyAll(Scope(s, h, d), join, s + "://" + h + d, [pa, pb + fragment, pc, js]) ==
      [Kept(s + "://" + h + pa), Kept(s + "://" + h + pb), Ignored, Ignored]
  {
    var root := s + "://" + h + d;
    var scope := Scope(s, h, d);
    var a := s + "://" + h + pa;
    var c := s + "://" + h + pc;
    assert pa + [] == pa && pc + [] == pc && a + [] == a && c + [] == c;
    var ka := Classify(scope, join, root, pa);
    var kb := Classify(scope, join, root, pb + fragment);
    var kc := Classify(scope, join, root, pc);
    var kj := Classify(scope, join, root, js);
    assert ka == Kept(a) by {
      ClassifySiteRelative(s, h, d, join, root, pa, []);
    }
    assert kb == Kept(s + "://" + h + pb) by {
      ClassifySiteRelative(s, h, d, join, root, pb, fragment);
    }
    assert kc == Ignored by {
      ClassifySiteRelative(s, h, d, join, root, pc, []);
    }
    assert kj == Ignored by {
      JavascriptIgnored(scope, join, root, js);
    }
    ClassifyFour(scope, join, root, pa, pb + fragment, pc, js);
  }

  lemma ClassifyFour(scope: Scope, join: Join, base: string, h0: string, h1: string, h2: string, h3: string)
    requires scope.Valid()
    ensures ClassifyAll(scope, join, base, [h0, h1, h2, h3]) == [
      Classify(scope, join, base, h0), Classify(scope, join, base, h1),
      Classify(scope, join, base, h2), Classify(scope, join, base, h3)]
  {
    var r := ClassifyAll(scope, join, base, [h0, h1, h2, h3]);
    SeqOfFour(r, r[0], r[1], r[2], r[3]);
  }

  lemma SeqOfFour<T>(r: seq<T>, a: T, b: T, c: T, d: T)
    requires |r| == 4 && r[0] == a && r[1] == b && r[2] == c && r[3] == d
    ensures r == [a, b, c, d]
  {
  }

  /** Two distinct kept URLs followed by two ignored anchors give both URLs, in order. */
  lemma TwoKept(a: string, b: string)
    requires a != b
    ensures LinksOf([Kept(a), Kept(b), Ignored, Ignored]) == [a, b]
  {
    var classified := [Kept(a), Kept(b), Ignored, Ignored];
    assert classified[..0] == [];
    assert Collect(classified[..1]) == Some([a]) by {
      assert classified[..1][..0] == [];
      assert Collect([]) == Some([]);
      assert [] + [a] == [a];
    }
    assert Collect(classified[..2]) == Some([a, b]) by {
      assert classified[..2][..1] == classified[..1];
      assert classified[..2][1] == Kept(b);
      assert [a] + [b] == [a, b];
    }
    assert Collect(classified[..3]) == Some([a, b]) by {
      assert classified[..3][..2] == classified[..2];
    }
    assert Collect(classified) == Some([a, b]) by {
      assert classified[..3] == classified[..|classified| - 1];
    }
    assert Dedup([a]) == [a] by {
      assert [a][..0] == [];
    }
    assert Dedup([a, b]) == [a, b] by {
      assert [a, b][..1] == [a];
    }
  }

  /** Distinct paths give distinct URLs on the same site. */
  lemma DistinctUrls(s: string, h: string, pa: string, pb: string)
    requires pa != pb
    ensures s + "://" + h + pa != s + "://" + h + pb
  {
    var prefix := s + "://" + h;
    assert (prefix + pa)[|prefix|..] == pa;
    assert (prefix + pb)[|prefix|..] == pb;
  }

  /** The index page yields its two in-directory pages, in the model's first-occurrence order. */
  lemma SiteLinks(s: string, h: string, d: string, pa: string, pb: string, fragment: string, pc: string, js: string, join: Join)
    requires Site(s, h, d, pa, pb, pc)
    requires fragment != [] && fragment[0] == '#' && fragment[|fragment| - 1] !in Whitespace
    requires js == "javascript:void(0)"
    requires JoinsSite(join, s, h, d, pa, pb, fragment, pc)
    ensures Scope(s, h, d).Valid()
    ensures ExtractedLinks(Scope(s, h, d), join, s + "://" + h + d, Some([pa, pb + fragment, pc, js])) ==
      [s + "://" + h + pa, s + "://" + h + pb]
  {
    SiteAnchors(s, h, d, pa, pb, fragment, pc, js, join);
    DistinctUrls(s, h, pa, pb);
    TwoKept(s + "://" + h + pa, s + "://" + h + pb);
  }

  lemma ExampleScheme(s: string)
    requires s == "https"
    ensures SchemeShaped(s) && s != []
  {
  }

  lemma ExampleHost(h: string)
    requires h == "example.com"
    ensures HostShaped(h)
  {
  }

  lemma ExamplePath(p: string)
    requires p == "/docs/" || p == "/docs/a.html" || p == "/docs/b.html" || p == "/other/c.html"
    ensures PathShaped(p)
  {
  }

  lemma ExampleDirectory(d: string, pa: string, pb: string, pc: string)
    requires d == "/docs/" && pa == "/docs/a.html" && pb == "/docs/b.html" && pc == "/other/c.html"
    ensures |d| >= 2 && d[|d| - 1] == '/' && d[|d| - 2] != '/'
    ensures StartsWith(pa, d) && |pa| > |d| && StartsWith(pb, d) && |pb| > |d| && pa != pb
    ensures !StartsWith(pc, d)
  {
    assert pa[|d|] != pb[|d|];
    assert pc[1] != d[1];
  }

  /** https://example.com/docs/ with a.html and b.html inside it and /other/c.html outside. */
  lemma ExampleSite(s: string, h: string, d: string, pa: string, pb: string, pc: string)
    requires s == "https" && h == "example.com"
    requires d == "/docs/" && pa == "/docs/a.html" && pb == "/docs/b.html" && pc == "/other/c.html"
    ensures Site(s, h, d, pa, pb, pc)
  {
    ExampleScheme(s);
    ExampleHost(h);
    ExamplePath(d);
    ExamplePath(pa);
    ExamplePath(pb);
    ExamplePath(pc);
    ExampleDirectory(d, pa, pb, pc);
  }

  /** The constructor's configuration for a directory URL of the example's shape. */
  lemma SiteConfigOf(s: string, h: string, d: string, pa: string, pb: string, pc: string, maxDepth: int, maxPages: int)
    requires Site(s, h, d, pa, pb, pc)
    ensures var c := NewConfig(s + "://" + h + d, maxDepth, maxPages, None);
      && c.Some?
      && c.value.directoryUrl == s + "://" + h + d
      && c.value.scope == Scope(s, h, d)
      && c.value.maxDepth == maxDepth
      && c.value.maxPages == maxPages
  {
    ParseSimple(s, h, d);
    SiteRootIsDirectoryUrl(s, h, d, pa, pb, pc);
  }

  /** The directory URL of the example already ends in exactly one '/'. */
  lemma SiteRootIsDirectoryUrl(s: string, h: string, d: string, pa: string, pb: string, pc: string)
    requires Site(s, h, d, pa, pb, pc)
    ensures DirectoryUrl(s + "://" + h + d) == s + "://" + h + d
  {
    var root := s + "://" + h + d;
    assert root[|root| - 2] == d[|d| - 2];
    DirectoryUrlFixedPoint(root);
  }
}
