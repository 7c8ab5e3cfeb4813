# DirectoryCrawler, modelled in Dafny

This project models `DirectoryCrawler` from `7-crawl_directory_pages.py`. The crawler fetches every page under one
directory of a web site, such as `https://www.runoob.com/git/`, breadth-first. It stops at a depth limit
(`max_depth`) and a page budget (`max_pages`). Pages are saved as Markdown files, and the crawler writes a report
of what it crawled.

The model covers:

- **Constructor derivations.** The directory URL with exactly one trailing `/`, the default output directory name,
  and the scope: scheme, host (`netloc`) and directory path.
- **URL helpers.**
  - `normalize_url`
  - `is_in_target_directory`
  - `get_safe_filename`
  - the path `save_page_content` writes to
- **Link filter.** The href filter of `extract_links_from_html`.
- **Crawl loop.** The frontier loop of `crawl_directory`, a FIFO queue of `(url, depth)` items plus a visited set and
  a log of page records.
- **Report.** The counts and the line structure of `generate_report`.

Modules, one per file:

| file | module | what it holds |
|---|---|---|
| `wrappers.dfy` | `Wrappers` | `Option` |
| `strings.dfy` | `Strings` | the Python string methods the crawler uses (`split`, `rstrip`, `strip`, `replace`, `startswith`) |
| `urls.dfy` | `Urls` | a component split in the manner of `urlparse`, after section 3 of RFC 3986, with its inverse `Compose` |
| `scope.dfy` | `DirectoryScope` | the constructor's derivations, URL normalization, the scope test, file naming |
| `links.dfy` | `LinkExtraction` | `extract_links_from_html` |
| `frontier.dfy` | `Frontier` | the crawl loop as a state machine over values (`Step`, `Run`) and its invariant |
| `crawler.dfy` | `Crawler` | the `DirectoryCrawler` class; its fields are updated in place, and each method is proved equal to the `Frontier` function that specifies it |
| `report.dfy` | `Report` | `generate_report` as a structured report value |
| `scenario.dfy`, `crawl_scenario.dfy` | `Scenario`, `CrawlScenario` | a worked crawl of `https://example.com/docs/` |

The collaborators are parameters of the model, gathered in `Frontier.Env`:

- `fetch`: the browser fetch, `crawler.arun`;
- `join`: `urljoin`, which returns `None` where it raises;
- `writable`: whether opening and writing a file at a path succeeds.

The HTML parser is replaced by what the crawler takes from it: the `href` values of the page's anchors, in document
order, or `None` where parsing raises.

Two consequences of the code are worth stating:

- The loop guard `len(self.crawled_pages) < self.max_pages` counts every record, failed fetches included, so the
  invariant bounds all records by `max(0, max_pages)`.
- `directory_path` is the raw path of the input URL, with no trailing `/` added. The scope test is therefore a plain
  string-prefix test. When the directory is given as `https://h/git`, the sibling directory `/gitx/` counts as in
  scope (`DirectoryScope.SiblingDirectoryInScope`).

## Model

| member | source | states |
|---|---|---|
| Urls.Parse | 7-crawl_directory_pages.py:45 | the simplified `urlparse` used at lines 33, 45, 58 and 83: a successful parse gives shaped components (a scheme that is empty or lower-case and starts with a letter, a netloc without `/`, `?` or `#`, a path without `?` or `#`, a query without `#`) and a netloc without mismatched `[`/`]` |
| Urls.ParseCompose | 7-crawl_directory_pages.py:45-48 | parsing a URL put together from well-formed components gives back those components (scheme, netloc, path, query, fragment) |
| DirectoryScope.DirectoryUrl | 7-crawl_directory_pages.py:27 | the directory URL ends in exactly one `/`; what comes before it is a prefix of the input, and everything the input has after that prefix is `/` |
| DirectoryScope.DirectoryUrlFixedPoint | 7-crawl_directory_pages.py:27 | a URL is its own directory URL exactly when it ends in a single `/`, so the derivation is idempotent |
| DirectoryScope.OutputDirName | 7-crawl_directory_pages.py:32-35 | the default output directory is `crawled_<netloc>_` plus a non-empty suffix; it has no `/` when the netloc has none; an all-slash path gives `_root` |
| DirectoryScope.NewConfig | 7-crawl_directory_pages.py:27-48 | the constructor yields a configuration exactly when the URL parses; its scope is valid (lower-case scheme, a host without delimiters); its directory URL ends in `/`; a default output directory has no `/` |
| DirectoryScope.NormalizeUrl | 7-crawl_directory_pages.py:70-79 | the result has no `#`, does not start with `/`, and ends with the input cut at its first `#` |
| DirectoryScope.NormalizeFixedPoints | 7-crawl_directory_pages.py:70-79 | normalization leaves a URL unchanged exactly when the URL has no `#` and does not start with `/` |
| DirectoryScope.NormalizeIdempotent | 7-crawl_directory_pages.py:70-79 | normalizing twice gives the same result as normalizing once |
| DirectoryScope.IsInTargetDirectory | 7-crawl_directory_pages.py:55-68 | a URL that fails to parse is out of scope; a URL in scope has a path that starts with the directory path |
| DirectoryScope.InTargetDirectoryIff | 7-crawl_directory_pages.py:55-68 | for a composed URL, being in scope is equivalent to an equal netloc and a path that starts with the directory path, in both directions |
| DirectoryScope.RootRelativeInTargetDirectory | 7-crawl_directory_pages.py:55-79 | for a scope with a non-empty scheme, a root-relative link (starting with one `/`, with no `?` or `#`), once normalized, is in scope exactly when its path starts with the directory path |
| DirectoryScope.SiblingDirectoryInScope | 7-crawl_directory_pages.py:27-66 | for the directory `https://h/git`, the directory path is `/git`, the directory URL is `https://h/git/`, and `https://h/gitx/a.html` is in scope |
| DirectoryScope.SafeFilenameOfPath | 7-crawl_directory_pages.py:84-97 | the file name ends in `.md`, has at most 103 characters, and uses only ASCII letters, digits, `_`, `-` and `.`; an all-slash path names `index.md` |
| DirectoryScope.SafeFilenameFixedPoint | 7-crawl_directory_pages.py:84-97 | every safe name of at most 100 characters is the file name of itself |
| DirectoryScope.NestedPathCollides | 7-crawl_directory_pages.py:84-88 | a path `/s` (with `s` non-empty, not starting or ending in `/`) gets the same file name as `s` with every `/` replaced by `_`: `/a/b` and `a_b` collide, so two pages can overwrite each other's file |
| DirectoryScope.SafeFilename | 7-crawl_directory_pages.py:81-97 | a file name exists exactly when the URL parses, and it is safe |
| DirectoryScope.PathJoin | 7-crawl_directory_pages.py:103 | the joined path ends with the file name, and begins with the directory when the name is relative |
| DirectoryScope.SavePage | 7-crawl_directory_pages.py:99-115 | a path is returned only when the name exists and the file is writable; it lies under the output directory and ends in the safe name; for a URL that has a name, a path is returned exactly when that file is writable |
| LinkExtraction.Classify | 7-crawl_directory_pages.py:125-132 | a kept href yields a URL in scope without `#`; an href that, once stripped, is empty or starts with `javascript:`, `mailto:` or `tel:` is ignored |
| LinkExtraction.Collect | 7-crawl_directory_pages.py:124-132 | the loop completes exactly when no href makes `urljoin` raise |
| LinkExtraction.CollectMembers | 7-crawl_directory_pages.py:124-132 | the collected list holds exactly the URLs of the kept hrefs |
| LinkExtraction.Dedup | 7-crawl_directory_pages.py:134 | the result has no duplicates and the same elements as the input |
| LinkExtraction.ExtractedLinks | 7-crawl_directory_pages.py:117-137 | the links are distinct, in scope and free of `#`; a parse failure or a raising `urljoin` gives `[]`; otherwise a URL is returned exactly when some href is kept as that URL |
| LinkExtraction.NonNavigableNeverContributes | 7-crawl_directory_pages.py:126 | adding a `javascript:`, `mailto:` or `tel:` href anywhere leaves the extracted links unchanged |
| LinkExtraction.ExtractLinks | 7-crawl_directory_pages.py:117-137 | the loop, with its early return on an exception, computes `ExtractedLinks` |
| Frontier.Enqueue | 7-crawl_directory_pages.py:195-197 | the queue keeps its prefix; each appended item has the given depth, comes from the links and is unvisited; a duplicate-free queue stays duplicate-free; every link ends up visited or queued |
| Frontier.RecordOf | 7-crawl_directory_pages.py:175-209 | the record carries the item's URL and depth, and it is a success record exactly when the fetch succeeded |
| Frontier.Discovered | 7-crawl_directory_pages.py:192-193 | links are taken only from a successful fetch of a page above `max_depth`; they are in scope and free of `#` |
| Frontier.Step | 7-crawl_directory_pages.py:158-209 | one pass keeps the existing records as a prefix; it either appends one record or drops one queued item |
| Frontier.SeedInv | 7-crawl_directory_pages.py:155 | the state with only the directory URL queued at depth 0, nothing visited and no records (`Seed`) satisfies the crawl invariant |
| Frontier.Run | 7-crawl_directory_pages.py:155-209 | the loop ends with an empty queue or the budget spent, and it keeps the earlier records |
| Frontier.StepPreservesInv | 7-crawl_directory_pages.py:157-209 | one pass under the budget keeps the invariant; under the invariant the skips of lines 161 and 165 never fire (the second one when `max_depth >= 0`); each pass appends exactly one record, for the popped URL and depth, with success equal to the fetch's, and adds that URL to the visited set |
| Frontier.StepEnqueuesOneLevelDeeper | 7-crawl_directory_pages.py:192-197 | items queued by a pass sit exactly one level below the popped item, come from its page, and appear only when that item is above `max_depth` |
| Frontier.RunPreservesInv | 7-crawl_directory_pages.py:157-209 | the whole loop keeps the invariant |
| Frontier.CrawlGuarantees | 7-crawl_directory_pages.py:155-209 | the final state satisfies the invariant; there are at most `max(0, max_pages)` records; the loop stopped on an empty queue or a spent budget. The invariant says each URL is recorded once; the visited set equals the recorded URLs; queued URLs are distinct and unvisited; depths stay within `max_depth` and are in breadth-first order; everything below the root is in scope and free of `#` |
| Report.SuccessCount | 7-crawl_directory_pages.py:221 | the success count is at most the number of records, equals it exactly when all records succeeded, and is 0 exactly when all failed |
| Report.OneStatusLinePerRecord | 7-crawl_directory_pages.py:232-236 | the listing has exactly one status line per record, in record order, each showing that record's success, depth and URL |
| Report.ReportOf | 7-crawl_directory_pages.py:221-229 | the page count and the total both equal the number of records, and successes never exceed the total |
| Report.GenerateReport | 7-crawl_directory_pages.py:217-236 | the listing loop computes `ReportOf` |
| Crawler.DirectoryCrawler.constructor | 7-crawl_directory_pages.py:39-42 | a new crawler carries the given configuration, satisfies the class invariant, and has an empty queue, an empty visited set and no records |
| Crawler.DirectoryCrawler.Create | 7-crawl_directory_pages.py:17-48 | a crawler is made exactly when the configuration can be derived; it is fresh and carries that configuration |
| Crawler.DirectoryCrawler.EnqueueLinks | 7-crawl_directory_pages.py:195-197 | the in-place loop leaves the queue equal to `Enqueue` of the old queue, and nothing else changes |
| Crawler.DirectoryCrawler.ProcessNext | 7-crawl_directory_pages.py:158-209 | the loop body, popping the queue (`pop(0)`), adding to `visited_urls`, appending to `crawled_pages` and enqueueing, leaves the fields equal to `Step` of the old state |
| Crawler.DirectoryCrawler.FetchPage | 7-crawl_directory_pages.py:170-209 | the fetch, save and extraction of one page give that page's record, `RecordOf`, and its links, `Discovered`; the crawler's fields are not touched |
| Crawler.DirectoryCrawler.CrawlDirectory | 7-crawl_directory_pages.py:139-212 | the fields end equal to `Run` from the seed; the invariant and the budget hold; the report is `ReportOf` the records |
| Scenario.SiteLinks | 7-crawl_directory_pages.py:117-137 | an index page linking to `/docs/a.html`, `/docs/b.html#frag`, `/other/c.html` and `javascript:void(0)` yields `a.html` and `b.html`, in that order, with the fragment stripped |
| CrawlScenario.TwoPageCrawl | 7-crawl_directory_pages.py:155-236 | after the index queues two pages at `max_depth` 1, the crawl records the index, then each page once, visits nothing else and reports three successes |
| CrawlScenario.ExampleCrawl | 7-crawl_directory_pages.py:17-236 | crawling `https://example.com/docs/` with `max_depth` 1 and `max_pages` 10 records the index, `a.html` and `b.html`; it never visits `/other/c.html`, and the report counts three successes |

## Left out

- The fetch, `crawler.arun` with the browser behind it, is the oracle `Env.fetch`. Page content, the browser
  configuration, `crawler.start` and `crawler.close` are not modelled.
- The HTML parser, BeautifulSoup, is not modelled. Its output is the sequence of `href` values, or `None` where
  parsing raises.
- `urljoin`, the merge of section 5.2 of RFC 3986, is the parameter `join`. It returns `None` where `urljoin` would
  raise.
- File I/O of `save_page_content` is reduced to the `writable` predicate: whether opening and writing the page file
  succeeds. The content written (header, depth, timestamp, Markdown) is not modelled.
- `os.makedirs` and the report write are assumed to succeed. Their failures, which raise out of `__init__` and
  `crawl_directory`, are not modelled: `Crawler.DirectoryCrawler.Create` fails only where the URL parse raises, and
  `Report.GenerateReport` always returns a report.
- `print`, the timestamp, `asyncio` and the `main()` configuration are left out. The crawl is strictly sequential.
- `str.isalnum` and `str.strip` are taken on ASCII. `Strip` removes the ten ASCII characters for which
  `str.isspace` holds, `\x1c` to `\x1f` included. Python also accepts Unicode letters and digits, and strips Unicode
  whitespace such as U+0085 and U+00A0.
- `urlparse` is simplified:
  - no stripping of leading C0 control characters and spaces;
  - no removal of tabs and newlines;
  - no split of `;params` from the last path segment;
  - no NFKC check of the netloc;
  - no check that a bracketed host (`[` ... `]`) is an IPv6 or IPvFuture address.
  The one parse failure modelled is the `[`/`]` mismatch in the authority. The port is never read, so its
  validation does not arise.
- `Dedup`: `list(set(links))` has an order Python leaves unspecified, and string hashing is randomised per process.
  The model keeps first-occurrence order. The invariants, `Frontier.CrawlGuarantees` and the `LinkExtraction`
  properties do not depend on that order; which new link is queued first does.
- `Scenario.SiteLinks`, `CrawlScenario.TwoPageCrawl` and `CrawlScenario.ExampleCrawl`: their `[a, b]` link list and
  their `[index, a, b]` record order hold for the model's first-occurrence order. The program may return `b.html`
  before `a.html` and then record it first.
- `Crawler.DirectoryCrawler.CrawlDirectory` is modelled on a fresh crawler only, with an empty queue, visited set
  and log. A second call on the same object, which would carry the old state over, is not modelled.
- The report is a structured value. It holds the counts, the directory URL, `max_depth` and one line per status or
  file entry. Its Markdown text and emoji are not.
- `Crawler.DirectoryCrawler.constructor` takes an already derived configuration. The derivation from the directory
  URL and the failure of the parse are in `Crawler.DirectoryCrawler.Create`.
