/**
 * generate_report: the counts in the report header and the listing of the
 * crawled pages. The text and file writing are outside the model; the report
 * is the sequence of its listing lines as values.
 */
module Report {
  import opened Wrappers
  import opened Frontier

  /** A line of the listing: a status line (line 234) or a file line below it (line 236). */
  datatype ReportLine =
    | StatusLine(success: bool, depth: nat, url: string)
    | FileLine(path: string, markdownLength: nat)

  /** The report: target directory, page count, success/total counts, max depth and the listing. */
  datatype Report = Report(
    directoryUrl: string, pageCount: nat, successCount: nat, totalCount: nat, maxDepth: int,
    lines: seq<ReportLine>)

  /** success_count: the number of success records (line 221). */
  function SuccessCount(records: seq<PageRecord>): (n: nat)
    ensures n <= |records|
    ensures n == |records| <==> forall i :: 0 <= i < |records| ==> records[i].Fetched?
    ensures n == 0 <==> forall i :: 0 <= i < |records| ==> records[i].Failed?
  {
    if records == [] then 0
    else
      var prefix := records[..|records| - 1];
      assert forall i :: 0 <= i < |prefix| ==> prefix[i] == records[i];
      SuccessCount(prefix) + (if records[|records| - 1].Fetched? then 1 else 0)
  }

  function StatusOf(record: PageRecord): ReportLine {
    StatusLine(record.Fetched?, record.depth, record.url)
  }

  /** The lines written for one record: its status, then its file when it succeeded and has a non-empty path. */
  function EntryLines(record: PageRecord): seq<ReportLine> {
    [StatusOf(record)]
      + if record.Fetched? && record.filepath.Some? && record.filepath.value != ""
        then [FileLine(record.filepath.value, record.markdownLength)]
        else []
  }

  /** The listing, record by record in processing order. */
  function PageLines(records: seq<PageRecord>): seq<ReportLine> {
    if records == [] then []
    else PageLines(records[..|records| - 1]) + EntryLines(records[|records| - 1])
  }

  /** The status lines of a listing, in order. */
  function StatusLines(lines: seq<ReportLine>): seq<ReportLine> {
    if lines == [] then []
    else StatusLines(lines[..|lines| - 1]) + if lines[|lines| - 1].StatusLine? then [lines[|lines| - 1]] else []
  }

  lemma {:induction false} StatusLinesAppend(a: seq<ReportLine>, b: seq<ReportLine>)
    ensures StatusLines(a + b) == StatusLines(a) + StatusLines(b)
    decreases |b|
  {
    if b != [] {
      var b' := b[..|b| - 1];
      assert (a + b)[..|a + b| - 1] == a + b';
      StatusLinesAppend(a, b');
    } else {
      assert a + b == a;
    }
  }

  /** There is exactly one status line per record, in processing order, and it shows that record. */
  lemma {:induction false} OneStatusLinePerRecord(records: seq<PageRecord>)
    ensures |StatusLines(PageLines(records))| == |records|
    ensures forall i :: 0 <= i < |records| ==> StatusLines(PageLines(records))[i] == StatusOf(records[i])
  {
    if records != [] {
      var prefix := records[..|records| - 1];
      var last := records[|records| - 1];
      OneStatusLinePerRecord(prefix);
      StatusLinesAppend(PageLines(prefix), EntryLines(last));
      EntryStatusLine(last);
      var before := StatusLines(PageLines(prefix));
      var lines := StatusLines(PageLines(records));
      assert lines == before + [StatusOf(last)];
      forall i | 0 <= i < |records| ensures lines[i] == StatusOf(records[i]) {
        if i < |prefix| {
          assert lines[i] == before[i] && prefix[i] == records[i];
        }
      }
    }
  }

  /** The lines of one record hold exactly one status line, its own. */
  lemma EntryStatusLine(record: PageRecord)
    ensures StatusLines(EntryLines(record)) == [StatusOf(record)]
  {
    var file := EntryLines(record)[1..];
    assert EntryLines(record) == [StatusOf(record)] + file;
    StatusLinesAppend([StatusOf(record)], file);
    assert StatusLines([StatusOf(record)]) == [StatusOf(record)] by {
      assert [StatusOf(record)][..0] == [];
    }
    assert StatusLines(file) == [] by {
      if file != [] {
        assert file == [file[0]] && file[..0] == [];
      }
    }
  }

  /** The report generate_report writes for a record log. */
  function ReportOf(directoryUrl: string, maxDepth: int, records: seq<PageRecord>): (r: Report)
    ensures r.pageCount == r.totalCount == |records|
    ensures r.successCount <= r.totalCount
  {
    Report(directoryUrl, |records|, SuccessCount(records), |records|, maxDepth, PageLines(records))
  }

  /** generate_report: the counts of lines 221-222 and the listing loop of lines 232-236. */
  method GenerateReport(directoryUrl: string, maxDepth: int, records: seq<PageRecord>) returns (report: Report)
    ensures report == ReportOf(directoryUrl, maxDepth, records)
  {
    var successCount := SuccessCount(records);
    var totalCount := |records|;
    var lines: seq<ReportLine> := [];
    for i := 0 to |records|
      invariant lines == PageLines(records[..i])
    {
      assert records[..i + 1][..i] == records[..i];
      lines := lines + EntryLines(records[i]);
    }
    assert records[..|records|] == records;
    report := Report(directoryUrl, |records|, successCount, totalCount, maxDepth, lines);
  }
}
