/** generate_crawl_report of static.py: one pass over each of the three
    crawl logs (fetches, visits, discovered URLs) into counters, then a
    fixed-layout text report. */
module CrawlReport {
  import opened Wrappers
  import opened Text
  import opened Tallies

  // ---------------------------------------------------------------------
  // Inputs: the rows csv.DictReader yields, reduced to the columns read

  datatype FetchRecord = FetchRecord(statusCode: string)
  datatype VisitRecord = VisitRecord(outlinks: string, contentType: string, size: string)
  datatype UrlRecord = UrlRecord(url: string, isInternal: string)

  /** A log as its `try` block sees it: FileNotFoundError, or the rows the
      file holds together with the row, if any, whose reading raises a
      UnicodeDecodeError. Either error is caught and the run goes on. */
  datatype Log<R> = NotFound | Opened(rows: seq<R>, decodeErrorAt: Option<nat>)

  /** The rows the `for row in reader` loop gets to see: all of them, or
      those before the row that cannot be decoded. */
  function RowsRead<R>(log: Log<R>): seq<R> {
    match log
    case NotFound => []
    case Opened(rows, None) => rows
    case Opened(rows, Some(i)) => if i < |rows| then rows[..i] else rows
  }

  /** The rows read are a prefix of the file: all of it unless a row cannot
      be decoded, and then exactly the rows before that one. */
  lemma RowsReadPrefix<R>(rows: seq<R>, decodeErrorAt: Option<nat>)
    ensures RowsRead(Opened(rows, decodeErrorAt)) <= rows
    ensures decodeErrorAt.Some? && decodeErrorAt.value < |rows| ==> |RowsRead(Opened(rows, decodeErrorAt))| == decodeErrorAt.value
    ensures decodeErrorAt.None? || decodeErrorAt.value >= |rows| ==> RowsRead(Opened(rows, decodeErrorAt)) == rows
  {
  }

  /** `int()` of every field, or None when some field is not an integer
      (the ValueError that is not caught and ends the run). */
  function ParseAll(fields: seq<string>): (r: Option<seq<int>>)
    ensures r.Some? ==> |r.value| == |fields| && forall k :: 0 <= k < |fields| ==> ParseInt(fields[k]) == Some(r.value[k])
    ensures r.None? ==> exists k :: 0 <= k < |fields| && ParseInt(fields[k]).None?
  {
    if fields == [] then Some([])
    else
      var init := ParseAll(fields[..|fields| - 1]);
      var last := ParseInt(fields[|fields| - 1]);
      if init.None? then
        var k :| 0 <= k < |fields| - 1 && ParseInt(fields[..|fields| - 1][k]).None?;
        assert ParseInt(fields[k]).None?;
        None
      else if last.None? then None
      else Some(init.value + [last.value])
  }

  lemma ParseAllValues(fields: seq<string>, values: seq<int>)
    requires |values| == |fields|
    requires forall k :: 0 <= k < |fields| ==> ParseInt(fields[k]) == Some(values[k])
    ensures ParseAll(fields) == Some(values)
  {
    var r := ParseAll(fields);
    assert r.Some?;
    assert r.value == values;
  }

  // ---------------------------------------------------------------------
  // Fetch log

  function StatusCodeFields(rows: seq<FetchRecord>): seq<string> {
    seq(|rows|, k requires 0 <= k < |rows| => rows[k].statusCode)
  }

  predicate IsSuccess(statusCode: int) {
    200 <= statusCode < 300
  }

  function CountSucceeded(codes: seq<int>): nat {
    if codes == [] then 0
    else CountSucceeded(codes[..|codes| - 1]) + (if IsSuccess(codes[|codes| - 1]) then 1 else 0)
  }

  function CountFailed(codes: seq<int>): nat {
    if codes == [] then 0
    else CountFailed(codes[..|codes| - 1]) + (if IsSuccess(codes[|codes| - 1]) then 0 else 1)
  }

  datatype FetchStats = FetchStats(attempted: nat, succeeded: nat, failedOrAborted: nat, statusCodes: Tally<int>)

  function FetchStatsOf(codes: seq<int>): FetchStats {
    FetchStats(|codes|, CountSucceeded(codes), CountFailed(codes), TallyOf(codes))
  }

  /** The fetch counters after the fetch log, or None when a status code
      is not an integer. */
  function FetchOutcome(rows: seq<FetchRecord>): Option<FetchStats> {
    match ParseAll(StatusCodeFields(rows))
    case None => None
    case Some(codes) => Some(FetchStatsOf(codes))
  }

  /** Every fetch counts as succeeded or as failed-or-aborted, never both. */
  lemma {:induction false} FetchCountsAddUp(codes: seq<int>)
    ensures CountSucceeded(codes) + CountFailed(codes) == |codes|
    decreases |codes|
  {
    if codes != [] {
      FetchCountsAddUp(codes[..|codes| - 1]);
    }
  }

  /** Only 2xx codes succeed: a log made only of other codes (1xx, 3xx,
      4xx, 5xx, ...) has no success at all. */
  lemma {:induction false} NonSuccessCodesAllFail(codes: seq<int>)
    requires forall k :: 0 <= k < |codes| ==> !IsSuccess(codes[k])
    ensures CountSucceeded(codes) == 0
    ensures CountFailed(codes) == |codes|
    decreases |codes|
  {
    if codes != [] {
      NonSuccessCodesAllFail(codes[..|codes| - 1]);
    }
  }

  predicate IsFailureOrAbort(statusCode: int) {
    !IsSuccess(statusCode)
  }

  /** The success counter is the sum of the per-code counts of the 2xx
      codes, and the failure counter that of all the other codes: the fetch
      lines and the status-code lines of the report agree. */
  lemma FetchCountsFromStatusTally(codes: seq<int>)
    ensures CountSucceeded(codes) == SumOver(TallyOf(codes).order, TallyOf(codes), IsSuccess)
    ensures CountFailed(codes) == SumOver(TallyOf(codes).order, TallyOf(codes), IsFailureOrAbort)
  {
    TallyOfSumOver(codes, IsSuccess);
    TallyOfSumOver(codes, IsFailureOrAbort);
    CountersAreCountWhere(codes);
  }

  lemma {:induction false} CountersAreCountWhere(codes: seq<int>)
    ensures CountSucceeded(codes) == CountWhere(codes, IsSuccess)
    ensures CountFailed(codes) == CountWhere(codes, IsFailureOrAbort)
    decreases |codes|
  {
    if codes != [] {
      CountersAreCountWhere(codes[..|codes| - 1]);
    }
  }

  /** The fetch statistics agree with each other and with the log: as many
      attempts as rows, each a success or a failure, and the per-code counts
      are the occurrences of each code and add up to the attempts. */
  lemma FetchCountersAgree(rows: seq<FetchRecord>)
    requires FetchOutcome(rows).Some?
    ensures var f := FetchOutcome(rows).value;
      var codes := ParseAll(StatusCodeFields(rows)).value;
      && f.attempted == |rows|
      && f.attempted == f.succeeded + f.failedOrAborted
      && Total(f.statusCodes) == f.attempted
      && Valid(f.statusCodes)
      && f.succeeded == SumOver(f.statusCodes.order, f.statusCodes, IsSuccess)
      && f.failedOrAborted == SumOver(f.statusCodes.order, f.statusCodes, IsFailureOrAbort)
      && (forall c :: CountOf(f.statusCodes, c) == multiset(codes)[c])
  {
    var codes := ParseAll(StatusCodeFields(rows)).value;
    FetchCountsAddUp(codes);
    TallyOfTotal(codes);
    TallyOfValid(codes);
    TallyOfCounts(codes);
    FetchCountsFromStatusTally(codes);
  }

  method ScanFetchLog(log: Log<FetchRecord>) returns (r: Option<FetchStats>)
    ensures r == FetchOutcome(RowsRead(log))
  {
    var fetchAttempted, fetchSucceeded, fetchFailedOrAborted := 0, 0, 0;
    var statusCodeCounts: Tally<int> := EmptyTally();
    var rows := RowsRead(log);
    ghost var codes: seq<int> := [];
    var i := 0;
    while i < |rows|
      invariant 0 <= i <= |rows|
      invariant |codes| == i
      invariant forall k :: 0 <= k < i ==> ParseInt(rows[k].statusCode) == Some(codes[k])
      invariant FetchStats(fetchAttempted, fetchSucceeded, fetchFailedOrAborted, statusCodeCounts) == FetchStatsOf(codes)
    {
      fetchAttempted := fetchAttempted + 1;
      var parsed := ParseInt(rows[i].statusCode);
      if parsed.None? {
        assert StatusCodeFields(rows)[i] == rows[i].statusCode;
        return None;
      }
      var statusCode := parsed.value;
      statusCodeCounts := Add(statusCodeCounts, statusCode);
      if 200 <= statusCode < 300 {
        fetchSucceeded := fetchSucceeded + 1;
      } else {
        fetchFailedOrAborted := fetchFailedOrAborted + 1;
      }
      assert (codes + [statusCode])[..|codes|] == codes;
      codes := codes + [statusCode];
      i := i + 1;
    }
    ParseAllValues(StatusCodeFields(rows), codes);
    r := Some(FetchStats(fetchAttempted, fetchSucceeded, fetchFailedOrAborted, statusCodeCounts));
  }

  // ---------------------------------------------------------------------
  // Visit log

  const KB: int := 1024
  const MB: int := 1024 * 1024

  /** The keys of file_size_ranges, in their order. */
  const SizeLabels: seq<string> := ["< 1KB", "1KB ~ <10KB", "10KB ~ <100KB", "100KB ~ <1MB", ">= 1MB"]

  /** One count per size range, in the order of SizeLabels. */
  type Histogram = h: seq<nat> | |h| == 5 witness [0, 0, 0, 0, 0]

  /** The size range of a page: a size equal to a bound goes to the higher range. */
  function SizeBucket(size: int): (b: nat)
    ensures b < 5
    ensures b == 0 <==> size < KB
    ensures b == 1 <==> KB <= size < 10 * KB
    ensures b == 2 <==> 10 * KB <= size < 100 * KB
    ensures b == 3 <==> 100 * KB <= size < MB
    ensures b == 4 <==> MB <= size
  {
    if size < 1024 then 0
    else if size < 10 * 1024 then 1
    else if size < 100 * 1024 then 2
    else if size < 1024 * 1024 then 3
    else 4
  }

  /** Larger pages never land in a lower range. */
  lemma SizeBucketMonotone(a: int, b: int)
    requires a <= b
    ensures SizeBucket(a) <= SizeBucket(b)
  {
  }

  function CountInBucket(sizes: seq<int>, b: nat): nat {
    if sizes == [] then 0
    else CountInBucket(sizes[..|sizes| - 1], b) + (if SizeBucket(sizes[|sizes| - 1]) == b then 1 else 0)
  }

  function SizeHistogram(sizes: seq<int>): Histogram {
    seq(5, b requires 0 <= b < 5 => CountInBucket(sizes, b))
  }

  function HistogramSum(h: Histogram): nat {
    h[0] + h[1] + h[2] + h[3] + h[4]
  }

  lemma HistogramAppend(sizes: seq<int>, size: int)
    ensures SizeHistogram(sizes + [size]) == SizeHistogram(sizes)[SizeBucket(size) := SizeHistogram(sizes)[SizeBucket(size)] + 1]
  {
    assert (sizes + [size])[..|sizes|] == sizes;
  }

  /** Every page lands in exactly one size range. */
  lemma {:induction false} HistogramCountsEveryPage(sizes: seq<int>)
    ensures HistogramSum(SizeHistogram(sizes)) == |sizes|
    decreases |sizes|
  {
    if sizes != [] {
      var init := sizes[..|sizes| - 1];
      HistogramCountsEveryPage(init);
      assert init + [sizes[|sizes| - 1]] == sizes;
      HistogramAppend(init, sizes[|sizes| - 1]);
    }
  }

  function Sum(xs: seq<int>): int {
    if xs == [] then 0 else Sum(xs[..|xs| - 1]) + xs[|xs| - 1]
  }

  function OutlinkFields(rows: seq<VisitRecord>): seq<string> {
    seq(|rows|, k requires 0 <= k < |rows| => rows[k].outlinks)
  }

  function ContentTypeFields(rows: seq<VisitRecord>): seq<string> {
    seq(|rows|, k requires 0 <= k < |rows| => rows[k].contentType)
  }

  function SizeFields(rows: seq<VisitRecord>): seq<string> {
    seq(|rows|, k requires 0 <= k < |rows| => rows[k].size)
  }

  datatype VisitStats = VisitStats(totalUrlsExtracted: int, contentTypes: Tally<string>, fileSizes: Histogram)

  /** The visit counters after the visit log, or None when an outlink count
      or a size is not an integer. */
  function VisitOutcome(rows: seq<VisitRecord>): Option<VisitStats> {
    var outlinks, sizes := ParseAll(OutlinkFields(rows)), ParseAll(SizeFields(rows));
    if outlinks.Some? && sizes.Some? then
      Some(VisitStats(Sum(outlinks.value), TallyOf(ContentTypeFields(rows)), SizeHistogram(sizes.value)))
    else None
  }

  /** The visit counters once both numeric columns have parsed. */
  lemma VisitOutcomeOfParsed(rows: seq<VisitRecord>, outlinks: seq<int>, sizes: seq<int>)
    requires ParseAll(OutlinkFields(rows)) == Some(outlinks)
    requires ParseAll(SizeFields(rows)) == Some(sizes)
    ensures VisitOutcome(rows) == Some(VisitStats(Sum(outlinks), TallyOf(ContentTypeFields(rows)), SizeHistogram(sizes)))
  {
  }

  /** As many content-type counts and as many size-range counts as visit
      rows, and the outlink total is the sum of the outlink fields. */
  lemma VisitCountersAgree(rows: seq<VisitRecord>)
    requires VisitOutcome(rows).Some?
    ensures var v := VisitOutcome(rows).value;
      && Total(v.contentTypes) == |rows|
      && Valid(v.contentTypes)
      && HistogramSum(v.fileSizes) == |rows|
      && (forall t :: CountOf(v.contentTypes, t) == multiset(ContentTypeFields(rows))[t])
      && v.totalUrlsExtracted == Sum(ParseAll(OutlinkFields(rows)).value)
  {
    TallyOfTotal(ContentTypeFields(rows));
    TallyOfCounts(ContentTypeFields(rows));
    TallyOfValid(ContentTypeFields(rows));
    HistogramCountsEveryPage(ParseAll(SizeFields(rows)).value);
  }

  /** The if-chain that raises the count of the range a size falls in. */
  method CategorizeFileSize(ranges: Histogram, fileSize: int) returns (r: Histogram)
    ensures r == ranges[SizeBucket(fileSize) := ranges[SizeBucket(fileSize)] + 1]
  {
    if fileSize < 1024 {
      r := ranges[0 := ranges[0] + 1];
    } else if fileSize < 10 * 1024 {
      r := ranges[1 := ranges[1] + 1];
    } else if fileSize < 100 * 1024 {
      r := ranges[2 := ranges[2] + 1];
    } else if fileSize < 1024 * 1024 {
      r := ranges[3 := ranges[3] + 1];
    } else {
      r := ranges[4 := ranges[4] + 1];
    }
  }

  lemma ParseAllAppend(fields: seq<string>, field: string)
    ensures ParseAll(fields + [field]) ==
      if ParseAll(fields).Some? && ParseInt(field).Some? then Some(ParseAll(fields).value + [ParseInt(field).value]) else None
  {
    assert (fields + [field])[..|fields|] == fields;
  }

  /** One more visit row, both of whose numbers parse, adds its outlinks to
      the total, counts its content type and raises its size range. */
  lemma VisitOutcomeAppend(rows: seq<VisitRecord>, row: VisitRecord)
    requires VisitOutcome(rows).Some?
    requires ParseInt(row.outlinks).Some? && ParseInt(row.size).Some?
    ensures var v := VisitOutcome(rows).value;
      var b := SizeBucket(ParseInt(row.size).value);
      VisitOutcome(rows + [row]) ==
        Some(VisitStats(v.totalUrlsExtracted + ParseInt(row.outlinks).value,
                        Add(v.contentTypes, row.contentType),
                        v.fileSizes[b := v.fileSizes[b] + 1]))
  {
    var rows' := rows + [row];
    var outs, sizes := ParseAll(OutlinkFields(rows)).value, ParseAll(SizeFields(rows)).value;
    var x, y := ParseInt(row.outlinks).value, ParseInt(row.size).value;
    var types := ContentTypeFields(rows);
    VisitFieldsAppend(rows, row);
    ParseAllAppend(OutlinkFields(rows), row.outlinks);
    ParseAllAppend(SizeFields(rows), row.size);
    VisitOutcomeOfParsed(rows, outs, sizes);
    VisitOutcomeOfParsed(rows', outs + [x], sizes + [y]);
    SumAppend(outs, x);
    TallyOfAppend(types, row.contentType);
    HistogramAppend(sizes, y);
  }

  lemma VisitFieldsAppend(rows: seq<VisitRecord>, row: VisitRecord)
    ensures OutlinkFields(rows + [row]) == OutlinkFields(rows) + [row.outlinks]
    ensures SizeFields(rows + [row]) == SizeFields(rows) + [row.size]
    ensures ContentTypeFields(rows + [row]) == ContentTypeFields(rows) + [row.contentType]
  {
  }

  lemma SumAppend(xs: seq<int>, x: int)
    ensures Sum(xs + [x]) == Sum(xs) + x
  {
    assert (xs + [x])[..|xs|] == xs;
  }

  /** A visit row whose outlink count or size is not an integer makes the
      whole visit log fail. */
  lemma MalformedVisitRow(rows: seq<VisitRecord>, i: nat)
    requires i < |rows|
    requires ParseInt(rows[i].outlinks).None? || ParseInt(rows[i].size).None?
    ensures VisitOutcome(rows).None?
  {
    assert OutlinkFields(rows)[i] == rows[i].outlinks;
    assert SizeFields(rows)[i] == rows[i].size;
  }

  method ScanVisitLog(log: Log<VisitRecord>) returns (r: Option<VisitStats>)
    ensures r == VisitOutcome(RowsRead(log))
  {
    var totalUrlsExtracted := 0;
    var contentTypes: Tally<string> := EmptyTally();
    var fileSizeRanges: Histogram := [0, 0, 0, 0, 0];
    var rows := RowsRead(log);
    assert rows[..0] == [];
    assert SizeHistogram([]) == [0, 0, 0, 0, 0];
    var i := 0;
    while i < |rows|
      invariant 0 <= i <= |rows|
      invariant VisitOutcome(rows[..i]) == Some(VisitStats(totalUrlsExtracted, contentTypes, fileSizeRanges))
    {
      var row := rows[i];
      var parsedOutlinks := ParseInt(row.outlinks);
      if parsedOutlinks.None? {
        MalformedVisitRow(rows, i);
        return None;
      }
      totalUrlsExtracted := totalUrlsExtracted + parsedOutlinks.value;
      contentTypes := Add(contentTypes, row.contentType);
      var parsedSize := ParseInt(row.size);
      if parsedSize.None? {
        MalformedVisitRow(rows, i);
        return None;
      }
      var fileSize := parsedSize.value;
      fileSizeRanges := CategorizeFileSize(fileSizeRanges, fileSize);
      VisitOutcomeAppend(rows[..i], row);
      PrefixExtend(rows, i);
      i := i + 1;
    }
    assert rows[..i] == rows;
    r := Some(VisitStats(totalUrlsExtracted, contentTypes, fileSizeRanges));
  }

  // ---------------------------------------------------------------------
  // Discovered-URL log

  /** The marker that makes a URL internal; any other value, "ok" included,
      makes it external. */
  const InternalMark: string := "OK"

  datatype UrlStats = UrlStats(unique: set<string>, internal: set<string>, external: set<string>)

  /** The three sets after the URL log. */
  function UrlStatsOf(rows: seq<UrlRecord>): (u: UrlStats)
    ensures u.unique == u.internal + u.external
    ensures forall r :: r in rows && r.isInternal == InternalMark ==> r.url in u.internal
    ensures forall r :: r in rows && r.isInternal != InternalMark ==> r.url in u.external
    ensures forall url :: url in u.internal ==> UrlRecord(url, InternalMark) in rows
    ensures forall url :: url in u.external ==> exists r :: r in rows && r.url == url && r.isInternal != InternalMark
  {
    UrlStats(
      set r | r in rows :: r.url,
      set r | r in rows && r.isInternal == InternalMark :: r.url,
      set r | r in rows && r.isInternal != InternalMark :: r.url)
  }

  /** A URL logged once with "OK" and once with another marker is counted
      both within and outside the site. */
  lemma UrlWithBothMarkers(rows: seq<UrlRecord>, url: string, other: string)
    requires UrlRecord(url, InternalMark) in rows
    requires UrlRecord(url, other) in rows
    requires other != InternalMark
    ensures url in UrlStatsOf(rows).internal && url in UrlStatsOf(rows).external
  {
  }

  lemma UrlStatsOfAppend(rows: seq<UrlRecord>, row: UrlRecord)
    ensures var u := UrlStatsOf(rows);
      UrlStatsOf(rows + [row]) == UrlStats(
        u.unique + {row.url},
        if row.isInternal == InternalMark then u.internal + {row.url} else u.internal,
        if row.isInternal == InternalMark then u.external else u.external + {row.url})
  {
    var u, v := UrlStatsOf(rows), UrlStatsOf(rows + [row]);
    assert forall r :: r in rows + [row] <==> r in rows || r == row;
    assert v.unique == u.unique + {row.url};
    if row.isInternal == InternalMark {
      assert v.internal == u.internal + {row.url};
      assert v.external == u.external;
    } else {
      assert v.internal == u.internal;
      assert v.external == u.external + {row.url};
    }
  }

  method ScanUrlLog(log: Log<UrlRecord>) returns (r: UrlStats)
    ensures r == UrlStatsOf(RowsRead(log))
  {
    var uniqueUrls: set<string> := {};
    var uniqueInternalUrls: set<string> := {};
    var uniqueExternalUrls: set<string> := {};
    var rows := RowsRead(log);
    var i := 0;
    while i < |rows|
      invariant 0 <= i <= |rows|
      invariant UrlStats(uniqueUrls, uniqueInternalUrls, uniqueExternalUrls) == UrlStatsOf(rows[..i])
    {
      var row := rows[i];
      var url := row.url;
      uniqueUrls := uniqueUrls + {url};
      if row.isInternal == "OK" {
        uniqueInternalUrls := uniqueInternalUrls + {url};
      } else {
        uniqueExternalUrls := uniqueExternalUrls + {url};
      }
      assert rows[..i + 1] == rows[..i] + [row];
      UrlStatsOfAppend(rows[..i], row);
      i := i + 1;
    }
    assert rows[..i] == rows;
    r := UrlStats(uniqueUrls, uniqueInternalUrls, uniqueExternalUrls);
  }

  // ---------------------------------------------------------------------
  // The report

  datatype CrawlStats = CrawlStats(fetch: FetchStats, visit: VisitStats, urls: UrlStats)

  const IdentityLines: seq<string> := [
    "Name: /\n", "USC ID: /\n", "News site crawled: foxnews.com\n", "Number of threads: 7\n"]

  const FetchTitle: string := "\nFetch Statistics\n"
  const OutgoingTitle: string := "\nOutgoing URLs:\n"
  const StatusTitle: string := "\nStatus Codes:\n"
  /** Written without a line break: the first status line follows it directly. */
  const StatusUnderline: string := "============="
  const SizeTitle: string := "\nFile Sizes:\n"
  const SizeUnderline: string := "===========\n"
  const ContentTitle: string := "\nContent Types:\n"
  const ContentUnderline: string := "==============\n"

  function FetchSection(f: FetchStats): seq<string> {
    [ FetchTitle,
      "================\n",
      "# fetches attempted: " + DecimalString(f.attempted) + "\n",
      "# fetches succeeded: " + DecimalString(f.succeeded) + "\n",
      "# fetches failed or aborted: " + DecimalString(f.failedOrAborted) + "\n" ]
  }

  function OutgoingSection(v: VisitStats, u: UrlStats): seq<string> {
    [ OutgoingTitle,
      "==============\n",
      "Total URLs extracted: " + DecimalString(v.totalUrlsExtracted) + "\n",
      "# unique URLs extracted: " + DecimalString(|u.unique|) + "\n",
      "# unique URLs within News Site: " + DecimalString(|u.internal|) + "\n",
      "# unique URLs outside News Site: " + DecimalString(|u.external|) + "\n" ]
  }

  function StatusLine(t: Tally<int>, code: int): string {
    DecimalString(code) + ": " + DecimalString(CountOf(t, code)) + "\n"
  }

  function StatusLines(t: Tally<int>): seq<string> {
    seq(|t.order|, k requires 0 <= k < |t.order| => StatusLine(t, t.order[k]))
  }

  function SizeLine(h: Histogram, b: nat): string
    requires b < 5
  {
    SizeLabels[b] + ": " + DecimalString(h[b]) + "\n"
  }

  function SizeLines(h: Histogram): seq<string> {
    seq(5, b requires 0 <= b < 5 => SizeLine(h, b))
  }

  function ContentTypeLine(t: Tally<string>, contentType: string): string {
    contentType + ": " + DecimalString(CountOf(t, contentType)) + "\n"
  }

  function ContentTypeLines(t: Tally<string>): seq<string> {
    seq(|t.order|, k requires 0 <= k < |t.order| => ContentTypeLine(t, t.order[k]))
  }

  /** Everything written before the first status line. */
  function ReportHead(s: CrawlStats): seq<string> {
    IdentityLines + FetchSection(s.fetch) + OutgoingSection(s.visit, s.urls) + [StatusTitle, StatusUnderline]
  }

  function SizeSection(h: Histogram): seq<string> {
    [SizeTitle, SizeUnderline] + SizeLines(h)
  }

  function ContentTypeSection(t: Tally<string>): seq<string> {
    [ContentTitle, ContentUnderline] + ContentTypeLines(t)
  }

  /** The arguments of the successive `report_file.write` calls. */
  function ReportWrites(s: CrawlStats): (w: seq<string>)
    ensures |w| == 26 + |s.fetch.statusCodes.order| + |s.visit.contentTypes.order|
  {
    ReportHead(s) + StatusLines(s.fetch.statusCodes) + SizeSection(s.visit.fileSizes) + ContentTypeSection(s.visit.contentTypes)
  }

  /** The text of CrawlReport_foxnews.txt. */
  function ReportText(s: CrawlStats): string {
    Concat(ReportWrites(s))
  }

  /** The sections come in a fixed order at fixed places: identity, fetch
      statistics, outgoing URLs, one line per status code, exactly five
      size-range lines in range order, one line per content type. */
  lemma ReportLayout(s: CrawlStats)
    ensures var w := ReportWrites(s);
      var n := |s.fetch.statusCodes.order|;
      var m := |s.visit.contentTypes.order|;
      && |w| == 26 + n + m
      && w[..4] == IdentityLines
      && w[4..9] == FetchSection(s.fetch)
      && w[9..15] == OutgoingSection(s.visit, s.urls)
      && w[15] == StatusTitle
      && w[16] == StatusUnderline
      && w[17..17 + n] == StatusLines(s.fetch.statusCodes)
      && w[17 + n] == SizeTitle
      && w[18 + n] == SizeUnderline
      && (forall b :: 0 <= b < 5 ==> w[19 + n + b] == SizeLabels[b] + ": " + DecimalString(s.visit.fileSizes[b]) + "\n")
      && w[24 + n] == ContentTitle
      && w[25 + n] == ContentUnderline
      && w[26 + n..] == ContentTypeLines(s.visit.contentTypes)
  {
    FrontLayout(s);
    BackLayout(s);
  }

  /** The part of ReportLayout up to the status lines. */
  lemma FrontLayout(s: CrawlStats)
    ensures var w := ReportWrites(s);
      var n := |s.fetch.statusCodes.order|;
      && w[..4] == IdentityLines
      && w[4..9] == FetchSection(s.fetch)
      && w[9..15] == OutgoingSection(s.visit, s.urls)
      && w[15] == StatusTitle
      && w[16] == StatusUnderline
      && w[17..17 + n] == StatusLines(s.fetch.statusCodes)
  {
    HeadLayout(s);
    FourParts(ReportHead(s), StatusLines(s.fetch.statusCodes), SizeSection(s.visit.fileSizes), ContentTypeSection(s.visit.contentTypes));
  }

  /** The part of ReportLayout after the status lines. */
  lemma BackLayout(s: CrawlStats)
    ensures var w := ReportWrites(s);
      var n := |s.fetch.statusCodes.order|;
      && w[17 + n] == SizeTitle
      && w[18 + n] == SizeUnderline
      && (forall b :: 0 <= b < 5 ==> w[19 + n + b] == SizeLabels[b] + ": " + DecimalString(s.visit.fileSizes[b]) + "\n")
      && w[24 + n] == ContentTitle
      && w[25 + n] == ContentUnderline
      && w[26 + n..] == ContentTypeLines(s.visit.contentTypes)
  {
    HeadLayout(s);
    SizeSectionLayout(s.visit.fileSizes);
    ContentTypeSectionLayout(s.visit.contentTypes);
    FourParts(ReportHead(s), StatusLines(s.fetch.statusCodes), SizeSection(s.visit.fileSizes), ContentTypeSection(s.visit.contentTypes));
  }

  /** Where each of four concatenated parts lands. */
  lemma FourParts<T>(a: seq<T>, b: seq<T>, c: seq<T>, d: seq<T>)
    ensures var w := a + b + c + d;
      && w[..|a|] == a
      && w[|a|..|a| + |b|] == b
      && (forall k :: 0 <= k < |c| ==> w[|a| + |b| + k] == c[k])
      && (forall k :: 0 <= k < |d| ==> w[|a| + |b| + |c| + k] == d[k])
      && (forall j :: 0 <= j <= |d| ==> w[|a| + |b| + |c| + j..] == d[j..])
  {
  }

  lemma SizeSectionLayout(h: Histogram)
    ensures var z := SizeSection(h);
      && |z| == 7
      && z[0] == SizeTitle
      && z[1] == SizeUnderline
      && forall b :: 0 <= b < 5 ==> z[2 + b] == SizeLabels[b] + ": " + DecimalString(h[b]) + "\n"
  {
  }

  lemma ContentTypeSectionLayout(t: Tally<string>)
    ensures var z := ContentTypeSection(t);
      && |z| == 2 + |t.order|
      && z[0] == ContentTitle
      && z[1] == ContentUnderline
      && z[2..] == ContentTypeLines(t)
  {
  }

  lemma HeadLayout(s: CrawlStats)
    ensures var h := ReportHead(s);
      && |h| == 17
      && h[..4] == IdentityLines
      && h[4..9] == FetchSection(s.fetch)
      && h[9..15] == OutgoingSection(s.visit, s.urls)
      && h[15] == StatusTitle
      && h[16] == StatusUnderline
  {
  }

  /** The status-code underline ends without a line break, so the first
      status line is joined onto it in the report text. */
  lemma StatusUnderlineJoinsFirstLine(s: CrawlStats)
    requires |s.fetch.statusCodes.order| > 0
    ensures var joined := StatusUnderline + StatusLine(s.fetch.statusCodes, s.fetch.statusCodes.order[0]);
      var p := |Concat(ReportWrites(s)[..16])|;
      && p + |joined| <= |ReportText(s)|
      && ReportText(s)[p..p + |joined|] == joined
  {
    UnderlineThenFirstStatusLine(s);
    ConcatAdjacent(ReportWrites(s), 16);
  }

  /** The seventeenth write is the status underline and the eighteenth the
      first status line. */
  lemma UnderlineThenFirstStatusLine(s: CrawlStats)
    requires |s.fetch.statusCodes.order| > 0
    ensures |ReportWrites(s)| > 17
    ensures ReportWrites(s)[16] == StatusUnderline
    ensures ReportWrites(s)[17] == StatusLine(s.fetch.statusCodes, s.fetch.statusCodes.order[0])
  {
    var head := ReportHead(s);
    var status := StatusLines(s.fetch.statusCodes);
    var rest := SizeSection(s.visit.fileSizes) + ContentTypeSection(s.visit.contentTypes);
    HeadLayout(s);
    assert ReportWrites(s) == head + (status + rest);
    assert (status + rest)[0] == status[0];
  }

  /** The loop over the status-code counter: one line per code, in the
      order the codes were first seen. */
  method WriteStatusLines(statusCodes: Tally<int>) returns (lines: seq<string>)
    ensures lines == StatusLines(statusCodes)
  {
    lines := [];
    var i := 0;
    while i < |statusCodes.order|
      invariant 0 <= i <= |statusCodes.order|
      invariant lines == StatusLines(statusCodes)[..i]
    {
      var statusCode := statusCodes.order[i];
      lines := lines + [DecimalString(statusCode) + ": " + DecimalString(CountOf(statusCodes, statusCode)) + "\n"];
      PrefixExtend(StatusLines(statusCodes), i);
      i := i + 1;
    }
  }

  /** The loop over the five size ranges, in range order. */
  method WriteSizeLines(fileSizeRanges: Histogram) returns (lines: seq<string>)
    ensures lines == SizeLines(fileSizeRanges)
  {
    lines := [];
    var b := 0;
    while b < 5
      invariant 0 <= b <= 5
      invariant lines == SizeLines(fileSizeRanges)[..b]
    {
      lines := lines + [SizeLabels[b] + ": " + DecimalString(fileSizeRanges[b]) + "\n"];
      PrefixExtend(SizeLines(fileSizeRanges), b);
      b := b + 1;
    }
  }

  /** The loop over the content-type counter, in first-seen order. */
  method WriteContentTypeLines(contentTypes: Tally<string>) returns (lines: seq<string>)
    ensures lines == ContentTypeLines(contentTypes)
  {
    lines := [];
    var i := 0;
    while i < |contentTypes.order|
      invariant 0 <= i <= |contentTypes.order|
      invariant lines == ContentTypeLines(contentTypes)[..i]
    {
      var contentType := contentTypes.order[i];
      lines := lines + [contentType + ": " + DecimalString(CountOf(contentTypes, contentType)) + "\n"];
      PrefixExtend(ContentTypeLines(contentTypes), i);
      i := i + 1;
    }
  }

  /** Writes the report section by section, as the script does. */
  method WriteReport(s: CrawlStats) returns (writes: seq<string>)
    ensures writes == ReportWrites(s)
  {
    writes := IdentityLines;
    writes := writes + FetchSection(s.fetch);
    writes := writes + OutgoingSection(s.visit, s.urls);
    writes := writes + [StatusTitle, StatusUnderline];
    var statusLines := WriteStatusLines(s.fetch.statusCodes);
    writes := writes + statusLines;
    writes := writes + [SizeTitle, SizeUnderline];
    var sizeLines := WriteSizeLines(s.visit.fileSizes);
    writes := writes + sizeLines;
    writes := writes + [ContentTitle, ContentUnderline];
    var contentTypeLines := WriteContentTypeLines(s.visit.contentTypes);
    writes := writes + contentTypeLines;
  }

  // ---------------------------------------------------------------------
  // The whole run

  /** The statistics of a run, or None when an uncaught ValueError ends it
      before the report is opened. */
  function CrawlOutcome(fetchLog: Log<FetchRecord>, visitLog: Log<VisitRecord>, urlLog: Log<UrlRecord>): Option<CrawlStats> {
    var fetch, visit := FetchOutcome(RowsRead(fetchLog)), VisitOutcome(RowsRead(visitLog));
    if fetch.Some? && visit.Some? then Some(CrawlStats(fetch.value, visit.value, UrlStatsOf(RowsRead(urlLog))))
    else None
  }

  /** generate_crawl_report: the report text, or None when the run aborts. */
  method GenerateCrawlReport(fetchLog: Log<FetchRecord>, visitLog: Log<VisitRecord>, urlLog: Log<UrlRecord>)
    returns (report: Option<string>)
    ensures CrawlOutcome(fetchLog, visitLog, urlLog).None? ==> report.None?
    ensures CrawlOutcome(fetchLog, visitLog, urlLog).Some? ==>
      report == Some(ReportText(CrawlOutcome(fetchLog, visitLog, urlLog).value))
  {
    var fetch := ScanFetchLog(fetchLog);
    if fetch.None? {
      return None;
    }
    var visit := ScanVisitLog(visitLog);
    if visit.None? {
      return None;
    }
    var urls := ScanUrlLog(urlLog);
    var stats := CrawlStats(fetch.value, visit.value, urls);
    assert CrawlOutcome(fetchLog, visitLog, urlLog) == Some(stats);
    var writes := WriteReport(stats);
    report := Some(Concat(writes));
  }

  /** A missing log contributes zero counters and the other logs are still
      read: the run behaves as if that log were empty. */
  lemma MissingLogsCountZero(fetchLog: Log<FetchRecord>, visitLog: Log<VisitRecord>, urlLog: Log<UrlRecord>)
    ensures FetchOutcome(RowsRead<FetchRecord>(NotFound)) == Some(FetchStats(0, 0, 0, EmptyTally()))
    ensures VisitOutcome(RowsRead<VisitRecord>(NotFound)) == Some(VisitStats(0, EmptyTally(), [0, 0, 0, 0, 0]))
    ensures UrlStatsOf(RowsRead<UrlRecord>(NotFound)) == UrlStats({}, {}, {})
    ensures CrawlOutcome(NotFound, visitLog, urlLog).Some? <==> VisitOutcome(RowsRead(visitLog)).Some?
    ensures VisitOutcome(RowsRead(visitLog)).Some? ==>
      CrawlOutcome(NotFound, visitLog, urlLog) ==
        Some(CrawlStats(FetchStats(0, 0, 0, EmptyTally()), VisitOutcome(RowsRead(visitLog)).value, UrlStatsOf(RowsRead(urlLog))))
    ensures CrawlOutcome(fetchLog, NotFound, urlLog).Some? <==> FetchOutcome(RowsRead(fetchLog)).Some?
    ensures FetchOutcome(RowsRead(fetchLog)).Some? ==>
      CrawlOutcome(fetchLog, NotFound, urlLog) ==
        Some(CrawlStats(FetchOutcome(RowsRead(fetchLog)).value, VisitStats(0, EmptyTally(), [0, 0, 0, 0, 0]), UrlStatsOf(RowsRead(urlLog))))
    ensures CrawlOutcome(fetchLog, visitLog, NotFound) ==
      match CrawlOutcome(fetchLog, visitLog, urlLog)
      case None => None
      case Some(s) => Some(CrawlStats(s.fetch, s.visit, UrlStats({}, {}, {})))
  {
    assert SizeHistogram([]) == [0, 0, 0, 0, 0];
  }

  /** A decode error keeps what was counted before it: the run goes on with
      the counters of the rows read, whatever the rest of the file holds and
      whatever the other logs hold, as if the log had ended there; an error
      on the very first row is as if the file were missing. */
  lemma DecodeErrorKeepsRowsRead(fetchLog: Log<FetchRecord>, visitLog: Log<VisitRecord>, urlLog: Log<UrlRecord>,
                                 fetches: seq<FetchRecord>, visits: seq<VisitRecord>, urls: seq<UrlRecord>,
                                 fetchesAfter: seq<FetchRecord>, visitsAfter: seq<VisitRecord>, urlsAfter: seq<UrlRecord>)
    ensures CrawlOutcome(Opened(fetches + fetchesAfter, Some(|fetches|)), visitLog, urlLog)
         == CrawlOutcome(Opened(fetches, None), visitLog, urlLog)
    ensures CrawlOutcome(fetchLog, Opened(visits + visitsAfter, Some(|visits|)), urlLog)
         == CrawlOutcome(fetchLog, Opened(visits, None), urlLog)
    ensures CrawlOutcome(fetchLog, visitLog, Opened(urls + urlsAfter, Some(|urls|)))
         == CrawlOutcome(fetchLog, visitLog, Opened(urls, None))
    ensures CrawlOutcome(Opened(fetchesAfter, Some(0)), visitLog, urlLog) == CrawlOutcome(NotFound, visitLog, urlLog)
    ensures CrawlOutcome(fetchLog, Opened(visitsAfter, Some(0)), urlLog) == CrawlOutcome(fetchLog, NotFound, urlLog)
    ensures CrawlOutcome(fetchLog, visitLog, Opened(urlsAfter, Some(0))) == CrawlOutcome(fetchLog, visitLog, NotFound)
  {
    RowsReadBeforeError(fetches, fetchesAfter);
    RowsReadBeforeError(visits, visitsAfter);
    RowsReadBeforeError(urls, urlsAfter);
    RowsReadBeforeError([], fetchesAfter);
    RowsReadBeforeError([], visitsAfter);
    RowsReadBeforeError([], urlsAfter);
    SameRowsSameOutcome(Opened(fetches + fetchesAfter, Some(|fetches|)), visitLog, urlLog, Opened(fetches, None), visitLog, urlLog);
    SameRowsSameOutcome(fetchLog, Opened(visits + visitsAfter, Some(|visits|)), urlLog, fetchLog, Opened(visits, None), urlLog);
    SameRowsSameOutcome(fetchLog, visitLog, Opened(urls + urlsAfter, Some(|urls|)), fetchLog, visitLog, Opened(urls, None));
    SameRowsSameOutcome(Opened(fetchesAfter, Some(0)), visitLog, urlLog, NotFound, visitLog, urlLog);
    SameRowsSameOutcome(fetchLog, Opened(visitsAfter, Some(0)), urlLog, fetchLog, NotFound, urlLog);
    SameRowsSameOutcome(fetchLog, visitLog, Opened(urlsAfter, Some(0)), fetchLog, visitLog, NotFound);
  }

  /** The run depends on each log only through the rows its loop reads. */
  lemma SameRowsSameOutcome(f: Log<FetchRecord>, v: Log<VisitRecord>, u: Log<UrlRecord>,
                            f': Log<FetchRecord>, v': Log<VisitRecord>, u': Log<UrlRecord>)
    requires RowsRead(f) == RowsRead(f') && RowsRead(v) == RowsRead(v') && RowsRead(u) == RowsRead(u')
    ensures CrawlOutcome(f, v, u) == CrawlOutcome(f', v', u')
  {
  }

  lemma RowsReadBeforeError<R>(rows: seq<R>, after: seq<R>)
    ensures RowsRead(Opened(rows + after, Some(|rows|))) == rows
    ensures rows == [] ==> RowsRead(Opened(after, Some(0))) == RowsRead<R>(NotFound)
  {
    assert (rows + after)[..|rows|] == rows;
    if rows == [] {
      assert rows + after == after;
    }
  }

  /** A status code, outlink count or size that is not an integer ends the
      run with no report, whatever the other logs hold. */
  lemma MalformedFieldAbortsRun(fetchLog: Log<FetchRecord>, visitLog: Log<VisitRecord>, urlLog: Log<UrlRecord>)
    requires || (exists k :: 0 <= k < |RowsRead(fetchLog)| && ParseInt(RowsRead(fetchLog)[k].statusCode).None?)
             || (exists k :: 0 <= k < |RowsRead(visitLog)| && ParseInt(RowsRead(visitLog)[k].outlinks).None?)
             || (exists k :: 0 <= k < |RowsRead(visitLog)| && ParseInt(RowsRead(visitLog)[k].size).None?)
    ensures CrawlOutcome(fetchLog, visitLog, urlLog).None?
  {
    var fetches, visits := RowsRead(fetchLog), RowsRead(visitLog);
    if exists k :: 0 <= k < |fetches| && ParseInt(fetches[k].statusCode).None? {
      var k :| 0 <= k < |fetches| && ParseInt(fetches[k].statusCode).None?;
      assert StatusCodeFields(fetches)[k] == fetches[k].statusCode;
    } else if exists k :: 0 <= k < |visits| && ParseInt(visits[k].outlinks).None? {
      var k :| 0 <= k < |visits| && ParseInt(visits[k].outlinks).None?;
      assert OutlinkFields(visits)[k] == visits[k].outlinks;
    } else {
      var k :| 0 <= k < |visits| && ParseInt(visits[k].size).None?;
      assert SizeFields(visits)[k] == visits[k].size;
    }
  }
}
