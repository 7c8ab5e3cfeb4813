/**
 * The frontier controller of crawl_directory as a state machine over values:
 * the queue of pending (url, depth) items, the set of visited URLs and the
 * log of page records. Step is one pass of the while loop, Run the loop.
 * The Crawler class runs the same loop on its fields and is proved equal to Run.
 */
module Frontier {
  import opened Wrappers
  import opened Strings
  import opened Urls
  import opened DirectoryScope
  import opened LinkExtraction

  datatype WorkItem = WorkItem(url: string, depth: nat)

  /** An entry of crawled_pages: a success dict (lines 182-188) or a failure dict (lines 203-209). */
  datatype PageRecord =
    | Fetched(url: string, depth: nat, filepath: Option<string>, markdownLength: nat)
    | Failed(url: string, depth: nat, error: string)

  /** result.html: absent or empty, or markup whose anchors' hrefs the HTML parser returns (None when it raises). */
  datatype Html = NoHtml | Markup(anchors: Option<seq<string>>)

  /** What crawler.arun returns, as far as the loop looks at it. */
  datatype FetchResult = FetchResult(success: bool, markdown: Option<string>, html: Html, errorMessage: string)

  /** The collaborators: the fetch, urljoin, and whether a page file can be written at a path. */
  datatype Env = Env(fetch: string -> FetchResult, join: Join, writable: string -> bool)

  /** pending_urls, visited_urls and crawled_pages. */
  datatype State = State(pending: seq<WorkItem>, visited: set<string>, records: seq<PageRecord>)

  function UrlsOf(items: seq<WorkItem>): (r: seq<string>)
    ensures |r| == |items|
    ensures forall k :: 0 <= k < |items| ==> r[k] == items[k].url
  {
    seq(|items|, k requires 0 <= k < |items| => items[k].url)
  }

  function RecordUrls(records: seq<PageRecord>): (r: seq<string>)
    ensures |r| == |records|
    ensures forall k :: 0 <= k < |records| ==> r[k] == records[k].url
  {
    seq(|records|, k requires 0 <= k < |records| => records[k].url)
  }

  function Max0(n: int): nat {
    if n < 0 then 0 else n
  }

  /** The state after line 155: the directory URL queued at depth 0. */
  function Seed(config: Config): State {
    State([WorkItem(config.directoryUrl, 0)], {}, [])
  }

  /** markdown_length: len(result.markdown.raw_markdown) if result.markdown else 0. */
  function MarkdownLength(markdown: Option<string>): nat {
    if markdown.Some? then |markdown.value| else 0
  }

  /**
   * The loop of lines 195-197: each link not yet visited and not yet queued is
   * appended at the given depth.
   */
  function Enqueue(pending: seq<WorkItem>, visited: set<string>, links: seq<string>, depth: nat): (r: seq<WorkItem>)
    ensures |pending| <= |r|
    ensures forall k :: 0 <= k < |pending| ==> r[k] == pending[k]
    ensures forall k :: |pending| <= k < |r| ==> r[k].depth == depth && r[k].url in links && r[k].url !in visited
    ensures NoDuplicates(UrlsOf(pending)) ==> NoDuplicates(UrlsOf(r))
    ensures forall l :: l in links ==> l in visited || l in UrlsOf(r)
    decreases |links|
  {
    if links == [] then pending
    else
      var prefix := links[..|links| - 1];
      var link := links[|links| - 1];
      assert links == prefix + [link];
      var q := Enqueue(pending, visited, prefix, depth);
      if link !in visited && link !in UrlsOf(q) then
        assert UrlsOf(q + [WorkItem(link, depth)]) == UrlsOf(q) + [link];
        q + [WorkItem(link, depth)]
      else q
  }

  /** The entry appended to crawled_pages for a fetched item (lines 179-189 and 203-209). */
  function RecordOf(config: Config, env: Env, item: WorkItem): (r: PageRecord)
    ensures r.url == item.url && r.depth == item.depth
    ensures r.Fetched? == env.fetch(item.url).success
  {
    var result := env.fetch(item.url);
    if result.success then
      Fetched(item.url, item.depth, SavePage(config, item.url, env.writable), MarkdownLength(result.markdown))
    else
      Failed(item.url, item.depth, result.errorMessage)
  }

  /**
   * new_links for a fetched item (lines 192-193): extracted only from a
   * successful fetch with markup, and only above max_depth; otherwise none.
   */
  function Discovered(config: Config, env: Env, item: WorkItem): (r: seq<string>)
    requires config.scope.Valid()
    ensures r != [] ==> env.fetch(item.url).success && item.depth < config.maxDepth
    ensures forall x :: x in r ==> IsInTargetDirectory(config.scope, x) && '#' !in x
  {
    var result := env.fetch(item.url);
    if result.success && item.depth < config.maxDepth && result.html.Markup? then
      ExtractedLinks(config.scope, env.join, item.url, result.html.anchors)
    else []
  }

  /** One pass of the while loop body, lines 158-209. */
  function Step(config: Config, env: Env, s: State): (r: State)
    requires config.scope.Valid()
    requires s.pending != []
    ensures s.records <= r.records
    ensures |r.records| == |s.records| + 1 || (r.records == s.records && |r.pending| == |s.pending| - 1)
  {
    var item := s.pending[0];
    var rest := s.pending[1..];
    if item.url in s.visited || item.depth > config.maxDepth then
      State(rest, s.visited, s.records)
    else
      var visited := s.visited + {item.url};
      State(Enqueue(rest, visited, Discovered(config, env, item), item.depth + 1),
            visited, s.records + [RecordOf(config, env, item)])
  }

  /** The while loop of lines 157-209: step until the queue is empty or the budget is spent. */
  function Run(config: Config, env: Env, s: State): (r: State)
    requires config.scope.Valid()
    ensures r.pending == [] || |r.records| >= config.maxPages
    ensures s.records <= r.records
    decreases Max0(config.maxPages) - |s.records|, |s.pending|
  {
    if s.pending == [] || |s.records| >= config.maxPages then s
    else Run(config, env, Step(config, env, s))
  }

  /** A pass within the budget leaves the rest of the loop to run from the state it makes. */
  lemma RunUnfold(config: Config, env: Env, s: State, next: State)
    requires config.scope.Valid()
    requires s.pending != [] && |s.records| < config.maxPages
    requires Step(config, env, s) == next
    ensures Run(config, env, s) == Run(config, env, next)
  {
  }

  /** Where an item of a given depth may come from: the root at depth 0, an in-scope link below it. */
  predicate Placed(config: Config, url: string, depth: nat) {
    if depth == 0 then url == config.directoryUrl
    else depth <= config.maxDepth && IsInTargetDirectory(config.scope, url) && '#' !in url
  }

  /**
   * Breadth-first order: the depths of the records and then of the queue form
   * a non-decreasing sequence, and no queued depth exceeds the first one by more than one.
   */
  predicate BreadthFirst(records: seq<PageRecord>, pending: seq<WorkItem>) {
    && (forall i, j :: 0 <= i < j < |records| ==> records[i].depth <= records[j].depth)
    && (forall i, j :: 0 <= i < j < |pending| ==> pending[i].depth <= pending[j].depth)
    && (forall i, j :: 0 <= i < |records| && 0 <= j < |pending| ==> records[i].depth <= pending[j].depth)
    && (forall j :: 0 <= j < |pending| ==> pending[j].depth <= pending[0].depth + 1)
  }

  /** The visited set is the set of recorded URLs, each recorded once; queued URLs are distinct and unvisited. */
  predicate Unique(s: State) {
    && s.visited == Elems(RecordUrls(s.records))
    && NoDuplicates(RecordUrls(s.records))
    && NoDuplicates(UrlsOf(s.pending))
    && (forall k :: 0 <= k < |s.pending| ==> s.pending[k].url !in s.visited)
  }

  /** Depths are bounded by max_depth, and everything below the root is inside the directory. */
  predicate Placement(config: Config, s: State) {
    && (forall k :: 0 <= k < |s.pending| ==> Placed(config, s.pending[k].url, s.pending[k].depth))
    && (forall i :: 0 <= i < |s.records| ==>
          s.records[i].depth <= config.maxDepth && Placed(config, s.records[i].url, s.records[i].depth))
  }

  /** The invariant of the while loop; the budget counts every record, failures included. */
  predicate Inv(config: Config, s: State) {
    && |s.records| <= Max0(config.maxPages)
    && Unique(s)
    && Placement(config, s)
    && BreadthFirst(s.records, s.pending)
  }

  /** The loop starts from a state that satisfies the invariant. */
  lemma {:induction false} SeedInv(config: Config)
    ensures Inv(config, Seed(config))
  {
    assert UrlsOf([WorkItem(config.directoryUrl, 0)]) == [config.directoryUrl];
    assert RecordUrls([]) == [];
  }

  /** Appending the popped item's record and its new links to the queue keeps breadth-first order. */
  lemma BreadthFirstStep(records: seq<PageRecord>, pending: seq<WorkItem>, record: PageRecord, next: seq<WorkItem>)
    requires BreadthFirst(records, pending)
    requires pending != [] && record.depth == pending[0].depth
    requires |pending| - 1 <= |next|
    requires forall k :: 0 <= k < |pending| - 1 ==> next[k] == pending[k + 1]
    requires forall k :: |pending| - 1 <= k < |next| ==> next[k].depth == pending[0].depth + 1
    ensures BreadthFirst(records + [record], next)
  {
    var d := pending[0].depth;
    var n := |pending| - 1;
    forall j | 0 <= j < |next| ensures d <= next[j].depth <= d + 1 {
      if j < n {
        assert next[j] == pending[j + 1];
      }
    }
    forall i, j | 0 <= i < j < |next| ensures next[i].depth <= next[j].depth {
      if j < n {
        assert next[i] == pending[i + 1] && next[j] == pending[j + 1];
      }
    }
    if n > 0 {
      assert next[0] == pending[1];
    }
  }

  /** The state after processing the first queued item into a record and a list of links. */
  function Processed(s: State, record: PageRecord, links: seq<string>): State
    requires s.pending != []
  {
    var visited := s.visited + {s.pending[0].url};
    State(Enqueue(s.pending[1..], visited, links, s.pending[0].depth + 1), visited, s.records + [record])
  }

  /** A pass that pops an unvisited item within max_depth. */
  lemma ProcessingStep(config: Config, env: Env, s: State)
    requires config.scope.Valid()
    requires s.pending != [] && s.pending[0].url !in s.visited && s.pending[0].depth <= config.maxDepth
    ensures Step(config, env, s) == Processed(s, RecordOf(config, env, s.pending[0]), Discovered(config, env, s.pending[0]))
  {
  }

  /** The state a pass over an unvisited item within max_depth leaves, given its record and its links. */
  lemma {:induction false} VisitingStep(config: Config, env: Env, s: State, record: PageRecord, links: seq<string>, next: State)
    requires config.scope.Valid()
    requires s.pending != [] && s.pending[0].url !in s.visited && s.pending[0].depth <= config.maxDepth
    requires record == RecordOf(config, env, s.pending[0]) && links == Discovered(config, env, s.pending[0])
    requires next.visited == s.visited + {s.pending[0].url}
    requires next.pending == Enqueue(s.pending[1..], next.visited, links, s.pending[0].depth + 1)
    requires next.records == s.records + [record]
    ensures Step(config, env, s) == next
  {
    ProcessingStep(config, env, s);
    ProcessedIs(s, record, links, next);
  }

  lemma ProcessedIs(s: State, record: PageRecord, links: seq<string>, next: State)
    requires s.pending != []
    requires next.visited == s.visited + {s.pending[0].url}
    requires next.pending == Enqueue(s.pending[1..], next.visited, links, s.pending[0].depth + 1)
    requires next.records == s.records + [record]
    ensures next == Processed(s, record, links)
  {
  }

  lemma UniqueStep(s: State, record: PageRecord, links: seq<string>)
    requires Unique(s) && s.pending != []
    requires record.url == s.pending[0].url
    ensures Unique(Processed(s, record, links))
  {
    var item := s.pending[0];
    var rest := s.pending[1..];
    var r := Processed(s, record, links);
    assert RecordUrls(r.records) == RecordUrls(s.records) + [item.url];
    ElemsAppend(RecordUrls(s.records), item.url);
    assert item.url !in RecordUrls(s.records);
    assert UrlsOf(rest) == UrlsOf(s.pending)[1..];
    forall k | 0 <= k < |r.pending| ensures r.pending[k].url !in r.visited {
      if k < |rest| {
        assert r.pending[k] == s.pending[k + 1];
        assert UrlsOf(s.pending)[0] != UrlsOf(s.pending)[k + 1];
      }
    }
  }

  lemma PlacementStep(config: Config, s: State, record: PageRecord, links: seq<string>)
    requires Placement(config, s) && s.pending != []
    requires s.pending[0].depth <= config.maxDepth
    requires record.url == s.pending[0].url && record.depth == s.pending[0].depth
    requires links != [] ==> s.pending[0].depth < config.maxDepth
    requires forall x :: x in links ==> IsInTargetDirectory(config.scope, x) && '#' !in x
    ensures Placement(config, Processed(s, record, links))
  {
    var r := Processed(s, record, links);
    forall k | 0 <= k < |r.pending| ensures Placed(config, r.pending[k].url, r.pending[k].depth) {
      if k < |s.pending| - 1 {
        assert r.pending[k] == s.pending[k + 1];
      } else {
        assert r.pending[k].url in links;
      }
    }
    forall i | 0 <= i < |r.records|
      ensures r.records[i].depth <= config.maxDepth && Placed(config, r.records[i].url, r.records[i].depth)
    {
      if i < |s.records| {
        assert r.records[i] == s.records[i];
      }
    }
  }

  /** One processed item: its record appended, its in-scope links queued one level deeper. */
  lemma ProcessPreservesInv(config: Config, s: State, record: PageRecord, links: seq<string>)
    requires Inv(config, s)
    requires s.pending != [] && |s.records| < config.maxPages
    requires s.pending[0].depth <= config.maxDepth
    requires record.url == s.pending[0].url && record.depth == s.pending[0].depth
    requires links != [] ==> s.pending[0].depth < config.maxDepth
    requires forall x :: x in links ==> IsInTargetDirectory(config.scope, x) && '#' !in x
    ensures Inv(config, Processed(s, record, links))
  {
    UniqueStep(s, record, links);
    PlacementStep(config, s, record, links);
    BreadthFirstStep(s.records, s.pending, record, Processed(s, record, links).pending);
  }

  /** Dropping the first queued item without a record keeps the invariant. */
  lemma SkipPreservesInv(config: Config, s: State)
    requires Inv(config, s) && s.pending != []
    ensures Inv(config, State(s.pending[1..], s.visited, s.records))
  {
    var r := State(s.pending[1..], s.visited, s.records);
    assert UrlsOf(r.pending) == UrlsOf(s.pending)[1..];
    forall k | 0 <= k < |r.pending| ensures Placed(config, r.pending[k].url, r.pending[k].depth) {
      assert r.pending[k] == s.pending[k + 1];
    }
  }

  /**
   * One pass of the loop keeps the invariant. Under it the skip at line 161
   * never fires, and when max_depth >= 0 neither does the one at line 165,
   * so every pass pops one item and appends exactly one record for it.
   */
  lemma StepPreservesInv(config: Config, env: Env, s: State)
    requires config.scope.Valid()
    requires Inv(config, s)
    requires s.pending != [] && |s.records| < config.maxPages
    ensures Inv(config, Step(config, env, s))
    ensures s.pending[0].url !in s.visited
    ensures config.maxDepth >= 0 ==> s.pending[0].depth <= config.maxDepth
    ensures s.pending[0].depth <= config.maxDepth ==>
      var r := Step(config, env, s);
      && |r.records| == |s.records| + 1
      && r.records[|s.records|].url == s.pending[0].url
      && r.records[|s.records|].depth == s.pending[0].depth
      && r.records[|s.records|].Fetched? == env.fetch(s.pending[0].url).success
      && r.visited == s.visited + {s.pending[0].url}
  {
    var item := s.pending[0];
    assert UrlsOf(s.pending)[0] == item.url;
    if item.depth > config.maxDepth {
      // only the root can be here, when max_depth < 0; nothing is recorded
      SkipPreservesInv(config, s);
    } else {
      ProcessPreservesInv(config, s, RecordOf(config, env, item), Discovered(config, env, item));
      assert Step(config, env, s) == Processed(s, RecordOf(config, env, item), Discovered(config, env, item));
    }
  }

  /**
   * A pass appends to the queue only links of the popped item's page, one
   * level below it, and only when that item is above max_depth.
   */
  lemma StepEnqueuesOneLevelDeeper(config: Config, env: Env, s: State)
    requires config.scope.Valid()
    requires s.pending != []
    ensures var r := Step(config, env, s);
      forall k :: |s.pending| - 1 <= k < |r.pending| ==>
        && r.pending[k].depth == s.pending[0].depth + 1
        && s.pending[0].depth < config.maxDepth
        && r.pending[k].url in Discovered(config, env, s.pending[0])
  {
  }

  /** The loop keeps the invariant to the end. */
  lemma {:induction false} RunPreservesInv(config: Config, env: Env, s: State)
    requires config.scope.Valid()
    requires Inv(config, s)
    ensures Inv(config, Run(config, env, s))
    decreases Max0(config.maxPages) - |s.records|, |s.pending|
  {
    if s.pending != [] && |s.records| < config.maxPages {
      StepPreservesInv(config, env, s);
      RunPreservesInv(config, env, Step(config, env, s));
    }
  }

  /**
   * What a whole crawl guarantees: at most max(0, max_pages) records; one
   * record per URL and the visited set equal to the recorded URLs; queued
   * URLs distinct and unvisited; depths bounded by max_depth, in breadth-first
   * order; everything below the root inside the directory; and the loop
   * stopped because the queue ran dry or the budget was spent.
   */
  lemma CrawlGuarantees(config: Config, env: Env)
    requires config.scope.Valid()
    ensures var r := Run(config, env, Seed(config));
      && Inv(config, r)
      && |r.records| <= Max0(config.maxPages)
      && (r.pending == [] || |r.records| >= config.maxPages)
  {
    SeedInv(config);
    RunPreservesInv(config, env, Seed(config));
  }
}
