/** The two halves of the crawl joined: the rows NewsCrawler writes to its
    three CSV logs, read back column by column as csv.DictReader does in
    generate_crawl_report, give exactly the counters the report prints. */
module Pipeline {
  import opened Wrappers
  import opened Text
  import opened Tallies
  import NC = NewsCrawler
  import CR = CrawlReport

  // ---------------------------------------------------------------------
  // Reading the data rows (the rows after the header) by column name

  /** "Status Code" is the second column of fetch_foxnews.csv. */
  function FetchRecordsOf(data: seq<seq<string>>): seq<CR.FetchRecord>
    requires forall k :: 0 <= k < |data| ==> |data[k]| == |NC.FetchHeader|
  {
    seq(|data|, k requires 0 <= k < |data| => CR.FetchRecord(data[k][1]))
  }

  /** visit_foxnews.csv: "Size (bytes)", "Number of Outlinks" and
      "Content Type" are the second, third and fourth columns. */
  function VisitRecordsOf(data: seq<seq<string>>): seq<CR.VisitRecord>
    requires forall k :: 0 <= k < |data| ==> |data[k]| == |NC.VisitHeader|
  {
    seq(|data|, k requires 0 <= k < |data| => CR.VisitRecord(data[k][2], data[k][3], data[k][1]))
  }

  /** urls_foxnews.csv: "Discovered URL" and "Is Internal". */
  function UrlRecordsOf(data: seq<seq<string>>): seq<CR.UrlRecord>
    requires forall k :: 0 <= k < |data| ==> |data[k]| == |NC.UrlsHeader|
  {
    seq(|data|, k requires 0 <= k < |data| => CR.UrlRecord(data[k][0], data[k][1]))
  }

  // ---------------------------------------------------------------------
  // The crawler's data rows

  /** The fetch rows of a crawl that fetched `urls[k]` with `codes[k]`. */
  function FetchDataRows(urls: seq<string>, codes: seq<int>): (r: seq<seq<string>>)
    requires |urls| == |codes|
    ensures |r| == |codes|
    ensures forall k :: 0 <= k < |r| ==> r[k] == NC.FetchRow(urls[k], codes[k])
  {
    seq(|codes|, k requires 0 <= k < |codes| => NC.FetchRow(urls[k], codes[k]))
  }

  /** The visit rows of a crawl whose k-th visited HTML page is `urls[k]`,
      of `sizes[k]` bytes, with outgoing links `links[k]` and recorded
      content type `types[k]`. */
  function VisitDataRows(urls: seq<string>, sizes: seq<nat>, links: seq<seq<string>>, types: seq<string>): (r: seq<seq<string>>)
    requires |urls| == |sizes| == |links| == |types|
    ensures |r| == |urls|
    ensures forall k :: 0 <= k < |r| ==> r[k] == NC.VisitRow(urls[k], sizes[k], |links[k]|, types[k])
  {
    seq(|urls|, k requires 0 <= k < |urls| => NC.VisitRow(urls[k], sizes[k], |links[k]|, types[k]))
  }

  /** The number of outgoing links of each page. */
  function LinkCounts(links: seq<seq<string>>): (r: seq<int>)
    ensures |r| == |links|
    ensures forall k :: 0 <= k < |r| ==> r[k] == |links[k]|
  {
    seq(|links|, k requires 0 <= k < |links| => |links[k]|)
  }

  /** The outgoing links of all pages, page after page. */
  function Flatten(links: seq<seq<string>>): seq<string> {
    if links == [] then [] else Flatten(links[..|links| - 1]) + links[|links| - 1]
  }

  // ---------------------------------------------------------------------
  // Round trips

  /** Every status code the crawler logs parses back: the fetch counters are
      those of the codes fetched, in the order fetched. */
  lemma FetchLogRoundTrip(urls: seq<string>, codes: seq<int>)
    requires |urls| == |codes|
    ensures CR.FetchOutcome(FetchRecordsOf(FetchDataRows(urls, codes))) == Some(CR.FetchStatsOf(codes))
  {
    var records := FetchRecordsOf(FetchDataRows(urls, codes));
    var fields := CR.StatusCodeFields(records);
    assert forall k :: 0 <= k < |fields| ==> ParseInt(fields[k]) == Some(codes[k]);
    CR.ParseAllValues(fields, codes);
  }

  /** Hence the report's fetch lines: every fetched URL is attempted, and
      the successes are the 2xx codes. */
  lemma FetchReportCounts(urls: seq<string>, codes: seq<int>)
    requires |urls| == |codes|
    ensures var f := CR.FetchOutcome(FetchRecordsOf(FetchDataRows(urls, codes)));
      && f.Some?
      && f.value.attempted == |urls|
      && f.value.succeeded + f.value.failedOrAborted == |urls|
      && (forall c :: CountOf(f.value.statusCodes, c) == multiset(codes)[c])
  {
    FetchLogRoundTrip(urls, codes);
    CR.FetchCountsAddUp(codes);
    TallyOfCounts(codes);
  }

  /** Every outlink count and size the crawler logs parses back: the visit
      counters are those of the pages visited. */
  lemma VisitLogRoundTrip(urls: seq<string>, sizes: seq<nat>, links: seq<seq<string>>, types: seq<string>)
    requires |urls| == |sizes| == |links| == |types|
    ensures CR.VisitOutcome(VisitRecordsOf(VisitDataRows(urls, sizes, links, types))) ==
      Some(CR.VisitStats(CR.Sum(LinkCounts(links)), TallyOf(types), CR.SizeHistogram(sizes)))
  {
    var records := VisitRecordsOf(VisitDataRows(urls, sizes, links, types));
    VisitFieldsReadBack(records, urls, sizes, links, types);
    CR.VisitOutcomeOfParsed(records, LinkCounts(links), sizes);
  }

  /** The three columns the report reads, read back from the visit rows. */
  lemma VisitFieldsReadBack(records: seq<CR.VisitRecord>, urls: seq<string>, sizes: seq<nat>, links: seq<seq<string>>, types: seq<string>)
    requires |urls| == |sizes| == |links| == |types|
    requires records == VisitRecordsOf(VisitDataRows(urls, sizes, links, types))
    ensures CR.ParseAll(CR.OutlinkFields(records)) == Some(LinkCounts(links))
    ensures CR.ParseAll(CR.SizeFields(records)) == Some(sizes)
    ensures CR.ContentTypeFields(records) == types
  {
    var outlinkFields, sizeFields := CR.OutlinkFields(records), CR.SizeFields(records);
    assert forall k :: 0 <= k < |records| ==> ParseInt(outlinkFields[k]) == Some(LinkCounts(links)[k]);
    assert forall k :: 0 <= k < |records| ==> ParseInt(sizeFields[k]) == Some(sizes[k] as int);
    CR.ParseAllValues(outlinkFields, LinkCounts(links));
    CR.ParseAllValues(sizeFields, sizes);
  }

  lemma {:induction false} SumLinkCounts(links: seq<seq<string>>)
    ensures CR.Sum(LinkCounts(links)) == |Flatten(links)|
    decreases |links|
  {
    if links != [] {
      var init := links[..|links| - 1];
      SumLinkCounts(init);
      assert LinkCounts(links)[..|links| - 1] == LinkCounts(init);
    }
  }

  /** "Total URLs extracted" equals the number of rows the same visits add
      to urls_foxnews.csv. */
  lemma TotalUrlsExtractedIsUrlRows(urls: seq<string>, sizes: seq<nat>, links: seq<seq<string>>, types: seq<string>)
    requires |urls| == |sizes| == |links| == |types|
    ensures var v := CR.VisitOutcome(VisitRecordsOf(VisitDataRows(urls, sizes, links, types)));
      v.Some? && v.value.totalUrlsExtracted == |NC.UrlRows(Flatten(links))|
  {
    VisitLogRoundTrip(urls, sizes, links, types);
    SumLinkCounts(links);
  }

  /** The discovered-URL rows read back: the URLs within the site are
      exactly the discovered links that start with the site's address, and
      the ones outside are all the others. */
  lemma UrlLogRoundTrip(links: seq<string>)
    ensures var u := CR.UrlStatsOf(UrlRecordsOf(NC.UrlRows(links)));
      && u.unique == set l | l in links
      && u.internal == set l | l in links && StartsWith(l, NC.Domain)
      && u.external == set l | l in links && !StartsWith(l, NC.Domain)
  {
    var records := UrlRecordsOf(NC.UrlRows(links));
    var u := CR.UrlStatsOf(records);
    UrlRecordsRead(records, links);
    forall l | l in links
      ensures StartsWith(l, NC.Domain) ==> l in u.internal
      ensures !StartsWith(l, NC.Domain) ==> l in u.external
    {
      assert CR.UrlRecord(l, NC.InternalMarker(l)) in records;
    }
    forall l | l in u.internal
      ensures l in links && StartsWith(l, NC.Domain)
    {
      assert CR.UrlRecord(l, CR.InternalMark) in records;
    }
    forall l | l in u.external
      ensures l in links && !StartsWith(l, NC.Domain)
    {
      var r :| r in records && r.url == l && r.isInternal != CR.InternalMark;
      assert CR.UrlRecord(l, r.isInternal) in records;
    }
  }

  /** The records read back from the discovered-URL rows are the links,
      each with its marker. */
  lemma UrlRecordsRead(records: seq<CR.UrlRecord>, links: seq<string>)
    requires records == UrlRecordsOf(NC.UrlRows(links))
    ensures forall l, m :: CR.UrlRecord(l, m) in records <==> l in links && m == NC.InternalMarker(l)
    ensures CR.InternalMark == NC.InternalMark
  {
    forall l, m | CR.UrlRecord(l, m) in records
      ensures l in links && m == NC.InternalMarker(l)
    {
      var k :| 0 <= k < |records| && records[k] == CR.UrlRecord(l, m);
      assert links[k] == l;
    }
    forall l | l in links
      ensures CR.UrlRecord(l, NC.InternalMarker(l)) in records
    {
      var k :| 0 <= k < |links| && links[k] == l;
      assert records[k] == CR.UrlRecord(l, NC.InternalMarker(l));
    }
  }
}
