/**
 * DirectoryCrawler as a class: the crawl state lives in fields that the
 * methods update in place, as pending_urls.pop(0)/append, visited_urls.add
 * and crawled_pages.append do. Each method is proved equal to the Frontier
 * function that specifies it; the properties are proved about those functions.
 */
module Crawler {
  import opened Wrappers
  import opened Strings
  import opened DirectoryScope
  import opened LinkExtraction
  import opened Frontier
  import opened Report

  class DirectoryCrawler {
    const config: Config
    var pending: seq<WorkItem>
    var visited: set<string>
    var records: seq<PageRecord>

    /** The crawl state as a value. */
    function Snapshot(): State
      reads this
    {
      State(pending, visited, records)
    }

    ghost predicate Valid()
      reads this
    {
      config.scope.Valid()
    }

    /** The state the constructor sets up (lines 40-42), for an already derived configuration. */
    constructor (config: Config)
      requires config.scope.Valid()
      ensures this.config == config
      ensures Valid()
      ensures Snapshot() == State([], {}, [])
    {
      this.config := config;
      pending := [];
      visited := {};
      records := [];
    }

    /** __init__: derive the configuration from the directory URL; None where the URL parse raises. */
    static method Create(directoryUrl: string, maxDepth: int, maxPages: int, outputDir: Option<string>)
      returns (c: Option<DirectoryCrawler>)
      ensures c.None? <==> NewConfig(directoryUrl, maxDepth, maxPages, outputDir).None?
      ensures c.Some? ==>
        && fresh(c.value)
        && c.value.config == NewConfig(directoryUrl, maxDepth, maxPages, outputDir).value
        && c.value.Valid()
        && c.value.Snapshot() == State([], {}, [])
    {
      var config := NewConfig(directoryUrl, maxDepth, maxPages, outputDir);
      if config.None? {
        return None;
      }
      var crawler := new DirectoryCrawler(config.value);
      return Some(crawler);
    }

    /** Lines 195-197: append each new link not visited and not already pending. */
    method EnqueueLinks(links: seq<string>, depth: nat)
      modifies this
      ensures pending == Enqueue(old(pending), visited, links, depth)
      ensures visited == old(visited) && records == old(records)
    {
      for i := 0 to |links|
        invariant pending == Enqueue(old(pending), visited, links[..i], depth)
        invariant visited == old(visited) && records == old(records)
      {
        assert links[..i + 1][..i] == links[..i];
        var link := links[i];
        if link !in visited && link !in UrlsOf(pending) {
          pending := pending + [WorkItem(link, depth)];
        }
      }
      assert links[..|links|] == links;
    }

    /** One pass of the while loop body, lines 158-209. */
    method ProcessNext(env: Env)
      requires Valid()
      requires pending != []
      modifies this
      ensures Snapshot() == Step(config, env, old(Snapshot()))
    {
      ghost var s := Snapshot();
      var item := pending[0];
      pending := pending[1..];
      if item.url in visited {
        return;
      }
      if item.depth > config.maxDepth {
        return;
      }
      visited := visited + {item.url};
      var record, links := FetchPage(env, item);
      records := records + [record];
      EnqueueLinks(links, item.depth + 1);
      VisitingStep(config, env, s, record, links, Snapshot());
    }

    /**
     * Lines 170-209 without the updates: fetch the page, save it and build its
     * record; on success above max_depth, extract its links.
     */
    method FetchPage(env: Env, item: WorkItem) returns (record: PageRecord, links: seq<string>)
      requires Valid()
      ensures record == RecordOf(config, env, item)
      ensures links == Discovered(config, env, item)
    {
      var result := env.fetch(item.url);
      links := [];
      if result.success {
        var filepath := SavePage(config, item.url, env.writable);
        record := Fetched(item.url, item.depth, filepath, MarkdownLength(result.markdown));
        if item.depth < config.maxDepth && result.html.Markup? {
          links := ExtractLinks(config.scope, env.join, item.url, result.html.anchors);
        }
      } else {
        record := Failed(item.url, item.depth, result.errorMessage);
      }
    }

    /**
     * crawl_directory on a fresh crawler: queue the directory URL at depth 0,
     * run the loop of lines 157-209, then produce the report.
     */
    method CrawlDirectory(env: Env) returns (report: Report)
      requires Valid()
      requires Snapshot() == State([], {}, [])
      modifies this
      ensures Snapshot() == Run(config, env, Seed(config))
      ensures Inv(config, Snapshot())
      ensures |records| <= Max0(config.maxPages)
      ensures pending == [] || |records| >= config.maxPages
      ensures report == ReportOf(config.directoryUrl, config.maxDepth, records)
    {
      pending := pending + [WorkItem(config.directoryUrl, 0)];
      SeedInv(config);
      while pending != [] && |records| < config.maxPages
        invariant Valid()
        invariant Inv(config, Snapshot())
        invariant Run(config, env, Snapshot()) == Run(config, env, Seed(config))
        decreases Max0(config.maxPages) - |records|, |pending|
      {
        StepPreservesInv(config, env, Snapshot());
        RunUnfold(config, env, Snapshot(), Step(config, env, Snapshot()));
        ProcessNext(env);
      }
      CrawlGuarantees(config, env);
      report := GenerateReport(config.directoryUrl, config.maxDepth, records);
    }
  }
}
