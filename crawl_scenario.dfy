/**
 * The crawl of the worked example in Scenario: three passes of the loop
 * record the index page and its two in-directory pages.
 */
module CrawlScenario {
  import opened Wrappers
  import opened Strings
  import opened DirectoryScope
  import opened LinkExtraction
  import opened Frontier
  import opened Report
  import opened Scenario

  /** Two distinct unvisited links queue in the order found. */
  lemma EnqueueTwo(pending: seq<WorkItem>, visited: set<string>, links: seq<string>, a: string, b: string, depth: nat)
    requires pending == [] && links == [a, b]
    requires a !in visited && b !in visited && a != b
    ensures Enqueue(pending, visited, links, depth) == [WorkItem(a, depth), WorkItem(b, depth)]
  {
    assert [a, b][..1] == [a];
    assert [a][..0] == [];
    assert Enqueue([], visited, [a], depth) == [WorkItem(a, depth)];
    assert UrlsOf([WorkItem(a, depth)]) == [a];
  }

  /** The collaborators of the example: urljoin as above, and fetches that succeed. */
  predicate SiteEnv(env: Env, s: string, h: string, d: string, pa: string, pb: string, fragment: string, pc: string, js: string) {
    && JoinsSite(env.join, s, h, d, pa, pb, fragment, pc)
    && env.fetch(s + "://" + h + d).success
    && env.fetch(s + "://" + h + d).html == Markup(Some([pa, pb + fragment, pc, js]))
    && env.fetch(s + "://" + h + pa).success
    && env.fetch(s + "://" + h + pb).success
  }

  /** The configuration of the example, whatever its output directory. */
  predicate SiteConfig(config: Config, s: string, h: string, d: string) {
    && config.directoryUrl == s + "://" + h + d
    && config.scope == Scope(s, h, d)
    && config.maxDepth == 1
    && config.maxPages >= 3
  }

  /** The index, a.html and b.html are three different URLs, none of them c.html. */
  lemma SiteUrlsDistinct(s: string, h: string, d: string, pa: string, pb: string, pc: string)
    requires Site(s, h, d, pa, pb, pc)
    ensures var prefix := s + "://" + h;
      && prefix + pa != prefix + d && prefix + pb != prefix + d && prefix + pa != prefix + pb
      && prefix + pc !in {prefix + d, prefix + pa, prefix + pb}
  {
    assert pa != d && pb != d;
    assert pc != d && pc != pa && pc != pb by {
      assert StartsWith(d, d);
    }
    DistinctUrls(s, h, pa, d);
    DistinctUrls(s, h, pb, d);
    DistinctUrls(s, h, pa, pb);
    DistinctUrls(s, h, pc, d);
    DistinctUrls(s, h, pc, pa);
    DistinctUrls(s, h, pc, pb);
  }

  /** What the crawl needs of the index page: its links, and two pages one level below it. */
  predicate TwoPageSite(config: Config, env: Env, root: string, a: string, b: string)
    requires config.scope.Valid()
  {
    && config.directoryUrl == root
    && config.maxDepth == 1
    && config.maxPages >= 3
    && a != root && b != root && a != b
    && Discovered(config, env, WorkItem(root, 0)) == [a, b]
  }

  /** The first pass records the index and queues its two links one level below it. */
  lemma IndexProcessed(s0: State, record: PageRecord, root: string, a: string, b: string)
    requires s0 == State([WorkItem(root, 0)], {}, [])
    requires a != root && b != root && a != b
    ensures Processed(s0, record, [a, b]) == State([WorkItem(a, 1), WorkItem(b, 1)], {root}, [record])
  {
    EnqueueTwo(s0.pending[1..], s0.visited + {root}, [a, b], a, b, 1);
  }

  /** An item at max_depth is recorded, and nothing is queued after it. */
  lemma LeafStep(config: Config, env: Env, s: State, url: string)
    requires config.scope.Valid()
    requires config.maxDepth == 1
    requires s.pending != [] && s.pending[0] == WorkItem(url, 1) && url !in s.visited
    ensures Step(config, env, s) ==
      State(s.pending[1..], s.visited + {url}, s.records + [RecordOf(config, env, WorkItem(url, 1))])
  {
    assert Discovered(config, env, WorkItem(url, 1)) == [];
  }

  /** The first pass: the index is recorded and its two links queued. */
  lemma FirstPass(config: Config, env: Env, s0: State, root: string, a: string, b: string)
    requires config.scope.Valid()
    requires TwoPageSite(config, env, root, a, b)
    requires s0 == State([WorkItem(root, 0)], {}, [])
    ensures Run(config, env, s0) ==
      Run(config, env, State([WorkItem(a, 1), WorkItem(b, 1)], {root}, [RecordOf(config, env, WorkItem(root, 0))]))
  {
    var r0 := RecordOf(config, env, WorkItem(root, 0));
    ProcessingStep(config, env, s0);
    IndexProcessed(s0, r0, root, a, b);
    RunUnfold(config, env, s0, State([WorkItem(a, 1), WorkItem(b, 1)], {root}, [r0]));
  }

  /** A pass over an unvisited item at max_depth, within the budget. */
  lemma LeafPass(config: Config, env: Env, item: WorkItem, rest: seq<WorkItem>, visited: set<string>, records: seq<PageRecord>)
    requires config.scope.Valid()
    requires config.maxDepth == 1 && |records| < config.maxPages
    requires item.depth == 1 && item.url !in visited
    ensures Run(config, env, State([item] + rest, visited, records)) ==
      Run(config, env, State(rest, visited + {item.url}, records + [RecordOf(config, env, item)]))
  {
    var s := State([item] + rest, visited, records);
    assert s.pending[1..] == rest;
    LeafStep(config, env, s, item.url);
    RunUnfold(config, env, s, State(rest, visited + {item.url}, records + [RecordOf(config, env, item)]));
  }

  /** After the first pass, the two queued leaves are recorded in turn and the queue runs dry. */
  lemma LeafPasses(config: Config, env: Env, root: string, a: string, b: string, r0: PageRecord)
    requires config.scope.Valid()
    requires config.maxDepth == 1 && config.maxPages >= 3
    requires a != root && b != root && a != b
    ensures var r := Run(config, env, State([WorkItem(a, 1), WorkItem(b, 1)], {root}, [r0]));
      && r.pending == []
      && r.visited == {root, a, b}
      && r.records == [r0, RecordOf(config, env, WorkItem(a, 1)), RecordOf(config, env, WorkItem(b, 1))]
  {
    var ra := RecordOf(config, env, WorkItem(a, 1));
    var rb := RecordOf(config, env, WorkItem(b, 1));
    assert [WorkItem(a, 1), WorkItem(b, 1)] == [WorkItem(a, 1)] + [WorkItem(b, 1)];
    LeafPass(config, env, WorkItem(a, 1), [WorkItem(b, 1)], {root}, [r0]);
    assert [WorkItem(b, 1)] == [WorkItem(b, 1)] + [];
    LeafPass(config, env, WorkItem(b, 1), [], {root} + {a}, [r0] + [ra]);
    var s3 := State([], {root} + {a} + {b}, [r0] + [ra] + [rb]);
    assert Run(config, env, s3) == s3;
    assert s3.visited == {root, a, b};
    assert s3.records == [r0, ra, rb];
  }

  lemma ThreeSuccesses(records: seq<PageRecord>)
    requires |records| == 3 && records[0].Fetched? && records[1].Fetched? && records[2].Fetched?
    ensures SuccessCount(records) == 3
  {
  }

  /**
   * Once the first pass has queued two pages below the index, the crawl
   * records them in turn: the index at depth 0, then the two pages at depth
   * 1, each once. No other URL is visited and, when the three fetches
   * succeed, the report counts three successes.
   */
  lemma TwoPageCrawl(config: Config, env: Env, root: string, a: string, b: string, other: string)
    requires config.scope.Valid()
    requires config.maxDepth == 1 && config.maxPages >= 3
    requires a != root && b != root && a != b
    requires Run(config, env, Seed(config)) ==
      Run(config, env, State([WorkItem(a, 1), WorkItem(b, 1)], {root}, [RecordOf(config, env, WorkItem(root, 0))]))
    requires other != root && other != a && other != b
    requires env.fetch(root).success && env.fetch(a).success && env.fetch(b).success
    ensures var r := Run(config, env, Seed(config));
      && r.pending == []
      && r.visited == {root, a, b}
      && other !in r.visited
      && r.records == [RecordOf(config, env, WorkItem(root, 0)), RecordOf(config, env, WorkItem(a, 1)), RecordOf(config, env, WorkItem(b, 1))]
      && ReportOf(config.directoryUrl, config.maxDepth, r.records).successCount == 3
  {
    var r := Run(config, env, Seed(config));
    var r0, ra, rb := RecordOf(config, env, WorkItem(root, 0)), RecordOf(config, env, WorkItem(a, 1)), RecordOf(config, env, WorkItem(b, 1));
    CrawlEnd(config, env, root, a, b);
    ThreeRecordsSucceed(config, env, root, a, b);
    FinishedCrawl(config, r, root, a, b, other, r0, ra, rb);
  }

  /**
   * A crawl that ends with the three pages visited and three successful
   * records has left every other URL unvisited, and its report counts three
   * successes.
   */
  lemma FinishedCrawl(config: Config, r: State, root: string, a: string, b: string, other: string, r0: PageRecord, ra: PageRecord, rb: PageRecord)
    requires r == State([], {root, a, b}, [r0, ra, rb])
    requires other != root && other != a && other != b
    requires r0.Fetched? && ra.Fetched? && rb.Fetched?
    ensures other !in r.visited
    ensures ReportOf(config.directoryUrl, config.maxDepth, r.records).successCount == 3
  {
    ThreeSuccesses(r.records);
  }

  /** The state the crawl ends in once the first pass has queued the two pages. */
  lemma CrawlEnd(config: Config, env: Env, root: string, a: string, b: string)
    requires config.scope.Valid()
    requires config.maxDepth == 1 && config.maxPages >= 3
    requires a != root && b != root && a != b
    requires Run(config, env, Seed(config)) ==
      Run(config, env, State([WorkItem(a, 1), WorkItem(b, 1)], {root}, [RecordOf(config, env, WorkItem(root, 0))]))
    ensures Run(config, env, Seed(config)) == State([], {root, a, b},
      [RecordOf(config, env, WorkItem(root, 0)), RecordOf(config, env, WorkItem(a, 1)), RecordOf(config, env, WorkItem(b, 1))])
  {
    LeafPasses(config, env, root, a, b, RecordOf(config, env, WorkItem(root, 0)));
  }

  /** Three successful fetches give three success records. */
  lemma ThreeRecordsSucceed(config: Config, env: Env, root: string, a: string, b: string)
    requires env.fetch(root).success && env.fetch(a).success && env.fetch(b).success
    ensures RecordOf(config, env, WorkItem(root, 0)).Fetched?
    ensures RecordOf(config, env, WorkItem(a, 1)).Fetched?
    ensures RecordOf(config, env, WorkItem(b, 1)).Fetched?
  {
  }

  /**
   * The worked example: c.html and the javascript: link are never queued,
   * b.html is recorded without its fragment.
   */
  lemma SiteCrawl(config: Config, env: Env, s: string, h: string, d: string, pa: string, pb: string, fragment: string, pc: string, js: string)
    requires Site(s, h, d, pa, pb, pc)
    requires fragment != [] && fragment[0] == '#' && fragment[|fragment| - 1] !in Whitespace
    requires js == "javascript:void(0)"
    requires SiteConfig(config, s, h, d)
    requires SiteEnv(env, s, h, d, pa, pb, fragment, pc, js)
    ensures config.scope.Valid()
    ensures var root := s + "://" + h + d;
      var a := s + "://" + h + pa;
      var b := s + "://" + h + pb;
      var r := Run(config, env, Seed(config));
      && r.pending == []
      && r.visited == {root, a, b}
      && s + "://" + h + pc !in r.visited
      && r.records == [RecordOf(config, env, WorkItem(root, 0)), RecordOf(config, env, WorkItem(a, 1)), RecordOf(config, env, WorkItem(b, 1))]
      && ReportOf(config.directoryUrl, config.maxDepth, r.records).successCount == 3
  {
    var root := s + "://" + h + d;
    var a := s + "://" + h + pa;
    var b := s + "://" + h + pb;
    SiteLinks(s, h, d, pa, pb, fragment, pc, js, env.join);
    SiteUrlsDistinct(s, h, d, pa, pb, pc);
    FirstPass(config, env, Seed(config), root, a, b);
    TwoPageCrawl(config, env, root, a, b, s + "://" + h + pc);
  }

  lemma ExampleFragment(fragment: string)
    requires fragment == "#frag"
    ensures fragment != [] && fragment[0] == '#' && fragment[|fragment| - 1] !in Whitespace
  {
  }

  /**
   * The crawl of https://example.com/docs/ with max_depth 1 and max_pages
   * 10: three records, and the report counts three successes.
   */
  lemma ExampleCrawl(config: Config, env: Env, s: string, h: string, d: string, pa: string, pb: string, fragment: string, pc: string, js: string)
    requires s == "https" && h == "example.com" && d == "/docs/"
    requires pa == "/docs/a.html" && pb == "/docs/b.html" && fragment == "#frag" && pc == "/other/c.html"
    requires js == "javascript:void(0)"
    requires NewConfig(s + "://" + h + d, 1, 10, None) == Some(config)
    requires SiteEnv(env, s, h, d, pa, pb, fragment, pc, js)
    ensures config.scope.Valid()
    ensures var root := s + "://" + h + d;
      var a := s + "://" + h + pa;
      var b := s + "://" + h + pb;
      var r := Run(config, env, Seed(config));
      && r.pending == []
      && r.visited == {root, a, b}
      && s + "://" + h + pc !in r.visited
      && r.records == [RecordOf(config, env, WorkItem(root, 0)), RecordOf(config, env, WorkItem(a, 1)), RecordOf(config, env, WorkItem(b, 1))]
      && ReportOf(config.directoryUrl, config.maxDepth, r.records).successCount == 3
  {
    ExampleSite(s, h, d, pa, pb, pc);
    SiteConfigOf(s, h, d, pa, pb, pc, 1, 10);
    ExampleFragment(fragment);
    SiteCrawl(config, env, s, h, d, pa, pb, fragment, pc, js);
  }
}
