/**
 * The string-level helpers of DirectoryCrawler: the derivations its
 * constructor makes from the directory URL, normalize_url,
 * is_in_target_directory, get_safe_filename and the path save_page_content
 * writes to.
 */
module DirectoryScope {
  import opened Wrappers
  import opened Strings
  import opened Urls

  /** base_scheme, base_domain and directory_path: the parts of the directory URL as given. */
  datatype Scope = Scope(scheme: string, domain: string, directoryPath: string) {
    /** What these parts satisfy when they come from a successful parse. */
    predicate Valid() {
      && SchemeShaped(scheme)
      && (forall i :: 0 <= i < |domain| ==> domain[i] !in AuthorityEnd)
      && !BracketsMismatched(domain)
    }
  }

  /** The crawler's configuration once its constructor has run. */
  datatype Config = Config(directoryUrl: string, maxDepth: int, maxPages: int, outputDir: string, scope: Scope)

  /** directory_url: the input with its trailing slashes replaced by exactly one. */
  function DirectoryUrl(url: string): (r: string)
    ensures EndsWith(r, "/")
    ensures |r| == 1 || r[|r| - 2] != '/'
    ensures StartsWith(url, r[..|r| - 1])
    ensures forall i :: |r| - 1 <= i < |url| ==> url[i] == '/'
  {
    TrimRight(url, {'/'}) + "/"
  }

  /** A URL already ending in exactly one '/' is its own directory URL, so DirectoryUrl is idempotent. */
  lemma DirectoryUrlFixedPoint(url: string)
    ensures DirectoryUrl(url) == url <==> EndsWith(url, "/") && (|url| == 1 || url[|url| - 2] != '/')
  {
    if EndsWith(url, "/") && (|url| == 1 || url[|url| - 2] != '/') {
      var n := |url|;
      assert url[n - 1] == '/';
      assert TrimRight(url, {'/'}) == TrimRight(url[..n - 1], {'/'});
      assert TrimRight(url[..n - 1], {'/'}) == url[..n - 1];
      assert url[..n - 1] + "/" == url;
    }
  }

  /** The default output directory: crawled_<netloc>_<path with slashes stripped, then turned into '_'>. */
  function OutputDirName(netloc: string, path: string): (r: string)
    ensures StartsWith(r, "crawled_" + netloc + "_")
    ensures |r| > |"crawled_" + netloc + "_"|
    ensures '/' !in netloc ==> '/' !in r
    ensures (forall i :: 0 <= i < |path| ==> path[i] == '/') ==> r == "crawled_" + netloc + "_root"
  {
    var d := ReplaceChar(Trim(path, {'/'}), '/', '_');
    TrimAll(path, {'/'});
    var tail := if d == "" then "root" else d;
    assert '/' !in tail by {
      NotInSeq(d, '/');
      assert "root" == ['r', 'o', 'o', 't'];
    }
    CrawledPrefix(netloc);
    RootName(netloc);
    PrefixedName("crawled_" + netloc + "_", tail);
    "crawled_" + netloc + "_" + tail
  }

  lemma RootName(netloc: string)
    ensures "crawled_" + netloc + "_" + "root" == "crawled_" + netloc + "_root"
  {
    assert "_" + "root" == "_root";
  }

  lemma CrawledPrefix(netloc: string)
    ensures '/' !in netloc ==> '/' !in "crawled_" + netloc + "_"
  {
    var c := "crawled_";
    assert forall i :: 0 <= i < |c| ==> c[i] != '/';
  }

  /** A non-empty name after a prefix: the prefix is kept, and no '/' appears unless one was there. */
  lemma PrefixedName(prefix: string, tail: string)
    requires tail != []
    ensures StartsWith(prefix + tail, prefix)
    ensures |prefix + tail| > |prefix|
    ensures '/' !in prefix && '/' !in tail ==> '/' !in prefix + tail
  {
    assert (prefix + tail)[..|prefix|] == prefix;
  }

  /**
   * The constructor's derivations. The URL is parsed twice in the source; a
   * malformed authority makes the parse raise, so no crawler is made.
   */
  function NewConfig(directoryUrl: string, maxDepth: int, maxPages: int, outputDir: Option<string>): (r: Option<Config>)
    ensures r.Some? <==> Parse(directoryUrl).Some?
    ensures r.Some? ==> r.value.scope.Valid()
    ensures r.Some? ==> EndsWith(r.value.directoryUrl, "/")
    ensures r.Some? && outputDir.None? ==> '/' !in r.value.outputDir
  {
    match Parse(directoryUrl)
    case None => None
    case Some(p) =>
      NotInSeq(p.netloc, '/');
      Some(Config(
        DirectoryUrl(directoryUrl), maxDepth, maxPages,
        if outputDir.Some? then outputDir.value else OutputDirName(p.netloc, p.path),
        Scope(p.scheme, p.netloc, p.path)))
  }

  /** normalize_url: drop the fragment, then make protocol- and root-relative references absolute. */
  function NormalizeUrl(scope: Scope, url: string): (r: string)
    requires scope.Valid()
    ensures '#' !in r
    ensures !StartsWith(r, "/")
    ensures EndsWith(r, Before(url, '#'))
  {
    var u := Before(url, '#');
    NotInSeq(scope.scheme, '#');
    NotInSeq(scope.scheme, '/');
    NotInSeq(scope.domain, '#');
    if StartsWith(u, "//") then
      PrefixedUrl(scope.scheme + ":", u);
      scope.scheme + ":" + u
    else if StartsWith(u, "/") then
      PrefixedUrl(scope.scheme + "://" + scope.domain, u);
      scope.scheme + "://" + scope.domain + u
    else u
  }

  /** A relative reference made absolute by a prefix keeps its text as a suffix. */
  lemma PrefixedUrl(prefix: string, u: string)
    requires '#' !in prefix && '#' !in u
    requires prefix != [] && prefix[0] != '/'
    ensures '#' !in prefix + u
    ensures !StartsWith(prefix + u, "/")
    ensures EndsWith(prefix + u, u)
  {
    var r := prefix + u;
    assert r[0] == prefix[0];
    assert r[|r| - |u|..] == u;
  }

  /** The URLs normalize_url leaves unchanged are exactly those without '#' that do not start with '/'. */
  lemma NormalizeFixedPoints(scope: Scope, url: string)
    requires scope.Valid()
    ensures NormalizeUrl(scope, url) == url <==> '#' !in url && !StartsWith(url, "/")
  {
    if '#' !in url {
      assert Before(url, '#') == url;
    }
  }

  /** Normalizing twice is normalizing once. */
  lemma NormalizeIdempotent(scope: Scope, url: string)
    requires scope.Valid()
    ensures NormalizeUrl(scope, NormalizeUrl(scope, url)) == NormalizeUrl(scope, url)
  {
    NormalizeFixedPoints(scope, NormalizeUrl(scope, url));
  }

  /** is_in_target_directory. A URL that does not parse is outside the directory. */
  function IsInTargetDirectory(scope: Scope, url: string): (r: bool)
    ensures Parse(url).None? ==> !r
    ensures r ==> StartsWith(Parse(url).value.path, scope.directoryPath)
  {
    match Parse(url)
    case None => false
    case Some(p) => p.netloc == scope.domain && StartsWith(p.path, scope.directoryPath)
  }

  /**
   * For a URL put together from its components, membership in the directory is
   * exact equality of the authority and a prefix test on the path.
   */
  lemma InTargetDirectoryIff(scope: Scope, p: UrlParts)
    requires WellFormed(p)
    ensures IsInTargetDirectory(scope, Compose(p)) <==>
      p.netloc == scope.domain && StartsWith(p.path, scope.directoryPath)
  {
    ParseCompose(p);
  }

  /**
   * A root-relative link normalizes to a URL on the crawl's own host, so it
   * is in the directory exactly when its path has directory_path as a prefix.
   */
  lemma RootRelativeInTargetDirectory(scope: Scope, path: string)
    requires scope.Valid() && scope.scheme != []
    requires StartsWith(path, "/") && !StartsWith(path, "//")
    requires '?' !in path && '#' !in path
    ensures IsInTargetDirectory(scope, NormalizeUrl(scope, path)) <==> StartsWith(path, scope.directoryPath)
  {
    var p := UrlParts(scope.scheme, scope.domain, path, "", "");
    assert Before(path, '#') == path;
    assert NormalizeUrl(scope, path) == Compose(p);
    InTargetDirectoryIff(scope, p);
  }

  /** The characters get_safe_filename keeps (str.isalnum taken on ASCII). */
  predicate IsSafeChar(c: char) {
    IsAsciiAlnum(c) || c == '_' || c == '-' || c == '.'
  }

  function Sanitize(s: string): (r: string)
    ensures |r| == |s|
    ensures forall i :: 0 <= i < |s| ==> r[i] == if IsSafeChar(s[i]) then s[i] else '_'
  {
    seq(|s|, i requires 0 <= i < |s| => if IsSafeChar(s[i]) then s[i] else '_')
  }

  /** The length get_safe_filename truncates to before adding the extension. */
  const MaxStemLength: nat := 100

  /** What get_safe_filename promises of its result. */
  predicate IsSafeFilename(f: string) {
    && EndsWith(f, ".md")
    && |f| <= MaxStemLength + 3
    && forall i :: 0 <= i < |f| ==> IsSafeChar(f[i])
  }

  /** The path with its slashes stripped, "index" when nothing is left, turned into safe characters. */
  function FilenameStem(path: string): (stem: string)
    ensures stem != []
    ensures forall i :: 0 <= i < |stem| ==> IsSafeChar(stem[i])
    ensures (forall i :: 0 <= i < |path| ==> path[i] == '/') ==> stem == "index"
  {
    var stripped := Trim(path, {'/'});
    TrimAll(path, {'/'});
    IndexStem();
    Sanitize(ReplaceChar(if stripped == "" then "index" else stripped, '/', '_'))
  }

  lemma IndexStem()
    ensures Sanitize(ReplaceChar("index", '/', '_')) == "index"
  {
    var r := ReplaceChar("index", '/', '_');
    assert r == "index";
    var t := Sanitize(r);
    assert t[0] == 'i' && t[1] == 'n' && t[2] == 'd' && t[3] == 'e' && t[4] == 'x';
  }

  /** get_safe_filename applied to the path of a parsed URL. */
  function SafeFilenameOfPath(path: string): (r: string)
    ensures IsSafeFilename(r)
    ensures (forall i :: 0 <= i < |path| ==> path[i] == '/') ==> r == "index.md"
  {
    var stem := FilenameStem(path);
    var cut := if |stem| > MaxStemLength then stem[..MaxStemLength] else stem;
    WithExtensionSafe(cut);
    IndexFilename();
    WithExtension(cut)
  }

  lemma IndexFilename()
    ensures WithExtension("index") == "index.md"
  {
    assert "index"[2..] != ".md";
  }

  /** The last step of get_safe_filename: add ".md" unless the name already ends with it. */
  function WithExtension(cut: string): string {
    if EndsWith(cut, ".md") then cut else cut + ".md"
  }

  lemma WithExtensionSafe(cut: string)
    requires |cut| <= MaxStemLength
    requires forall i :: 0 <= i < |cut| ==> IsSafeChar(cut[i])
    ensures IsSafeFilename(WithExtension(cut))
  {
    if !EndsWith(cut, ".md") {
      var r := cut + ".md";
      assert r[|r| - 3..] == ".md";
      forall i | 0 <= i < |r| ensures IsSafeChar(r[i]) {
        if i < |cut| {
          assert r[i] == cut[i];
        }
      }
    }
  }

  /** Every safe name of at most 100 characters is its own file name: the map is onto those names. */
  lemma SafeFilenameFixedPoint(name: string)
    requires IsSafeFilename(name) && |name| <= MaxStemLength
    ensures SafeFilenameOfPath(name) == name
  {
    assert name[0] != '/' && name[|name| - 1] != '/' by {
      assert IsSafeChar(name[0]) && IsSafeChar(name[|name| - 1]);
    }
    TrimIdentity(name, {'/'});
    assert ReplaceChar(name, '/', '_') == name by {
      forall i | 0 <= i < |name| ensures name[i] != '/' {
        assert IsSafeChar(name[i]);
      }
    }
    assert Sanitize(name) == name;
  }

  /**
   * Different pages can share a file name: a nested path names the same file
   * as its spelling with each inner '/' written as '_' ("/a/b" and "/a_b").
   */
  lemma {:induction false} NestedPathCollides(s: string)
    requires s != [] && s[0] != '/' && s[|s| - 1] != '/'
    ensures SafeFilenameOfPath("/" + s) == SafeFilenameOfPath(ReplaceChar(s, '/', '_'))
  {
    assert ("/" + s)[1..] == s;
    assert TrimLeft("/" + s, {'/'}) == s;
    assert Trim("/" + s, {'/'}) == s;
    var t := ReplaceChar(s, '/', '_');
    TrimIdentity(t, {'/'});
    assert ReplaceChar(t, '/', '_') == t;
  }

  /** get_safe_filename: the parse raises on a malformed authority. */
  function SafeFilename(url: string): (r: Option<string>)
    ensures r.Some? <==> Parse(url).Some?
    ensures r.Some? ==> IsSafeFilename(r.value)
  {
    match Parse(url)
    case None => None
    case Some(p) => Some(SafeFilenameOfPath(p.path))
  }

  /** os.path.join(directory, name). */
  function PathJoin(directory: string, name: string): (r: string)
    ensures EndsWith(r, name)
    ensures !StartsWith(name, "/") ==> StartsWith(r, directory)
  {
    assert (directory + name)[|directory + name| - |name|..] == name;
    assert (directory + "/" + name)[|directory + "/" + name| - |name|..] == name;
    assert (directory + name)[..|directory|] == directory;
    assert (directory + "/" + name)[..|directory|] == directory;
    if StartsWith(name, "/") then name
    else if directory == "" || EndsWith(directory, "/") then directory + name
    else directory + "/" + name
  }

  /** A safe file name does not start with '/', so os.path.join keeps the directory. */
  lemma SafeNameIsRelative(name: string)
    requires IsSafeFilename(name)
    ensures !StartsWith(name, "/")
  {
    assert IsSafeChar(name[0]);
    assert name[..1][0] == name[0];
  }

  /**
   * save_page_content: the path written, or None when naming the file raises
   * or the write fails; writable(path) is whether opening and writing path succeeds.
   */
  function SavePage(config: Config, url: string, writable: string -> bool): (r: Option<string>)
    ensures r.Some? ==> SafeFilename(url).Some? && writable(r.value)
    ensures r.Some? ==> StartsWith(r.value, config.outputDir) && EndsWith(r.value, SafeFilename(url).value)
    ensures SafeFilename(url).None? ==> r.None?
    ensures SafeFilename(url).Some? ==> (r.Some? <==> writable(PathJoin(config.outputDir, SafeFilename(url).value)))
  {
    match SafeFilename(url)
    case None => None
    case Some(name) =>
      SafeNameIsRelative(name);
      var path := PathJoin(config.outputDir, name);
      if writable(path) then Some(path) else None
  }

  lemma GitDirectoryParts()
    ensures WellFormed(UrlParts("https", "h", "/git", "", ""))
    ensures Compose(UrlParts("https", "h", "/git", "", "")) == "https://h/git"
  {
  }

  lemma SiblingUrlParts()
    ensures WellFormed(UrlParts("https", "h", "/gitx/a.html", "", ""))
    ensures Compose(UrlParts("https", "h", "/gitx/a.html", "", "")) == "https://h/gitx/a.html"
  {
    SiblingUrlShaped("/gitx/a.html");
  }

  lemma SiblingUrlShaped(path: string)
    requires path == "/gitx/a.html"
    ensures '?' !in path && '#' !in path && path[0] == '/'
  {
    assert forall i :: 0 <= i < |path| ==> path[i] != '?' && path[i] != '#';
  }

  /**
   * directory_path is the raw input path: for "https://h/git" the scope
   * prefix is "/git", so the sibling directory "/gitx/" is inside it.
   */
  lemma SiblingDirectoryInScope(directory: string, sibling: string)
    requires directory == "https://h/git" && sibling == "https://h/gitx/a.html"
    ensures var c := NewConfig(directory, 1, 30, None);
      c.Some? && c.value.scope.directoryPath == "/git" && c.value.directoryUrl == "https://h/git/" &&
      IsInTargetDirectory(c.value.scope, sibling)
  {
    ParseGitDirectory();
    ParseSiblingUrl();
    GitDirectoryUrl();
  }

  lemma GitDirectoryUrl()
    ensures DirectoryUrl("https://h/git") == "https://h/git/"
  {
  }

  lemma ParseGitDirectory()
    ensures Parse("https://h/git") == Some(UrlParts("https", "h", "/git", "", ""))
  {
    GitDirectoryParts();
    ParseCompose(UrlParts("https", "h", "/git", "", ""));
  }

  lemma ParseSiblingUrl()
    ensures Parse("https://h/gitx/a.html") == Some(UrlParts("https", "h", "/gitx/a.html", "", ""))
  {
    SiblingUrlParts();
    ParseCompose(UrlParts("https", "h", "/gitx/a.html", "", ""));
  }
}
