/** The crawler callbacks of NewsCrawler.java: which links are followed,
    and the rows appended to the three CSV logs (fetches, visits,
    discovered URLs) that the report script later reads. */
module NewsCrawler {
  import opened Wrappers
  import opened Text

  const Domain: string := "https://www.foxnews.com"

  /** The extensions listed in the EXCLUSIONS pattern. */
  const ExcludedExtensions: seq<string> := ["css", "js", "gif", "jpg", "png", "mp3", "mp4", "zip", "gz"]

  const FetchHeader: seq<string> := ["URL", "Status Code"]
  const VisitHeader: seq<string> := ["URL", "Size (bytes)", "Number of Outlinks", "Content Type"]
  const UrlsHeader: seq<string> := ["Discovered URL", "Is Internal"]

  const InternalMark: string := "OK"
  const ExternalMark: string := "N_OK"

  // ---------------------------------------------------------------------
  // shouldVisit

  /** EXCLUSIONS matches the whole (lower-cased) URL: it ends with a dot and
      one of the excluded extensions. */
  predicate IsExcludedResource(href: string) {
    exists i :: 0 <= i < |ExcludedExtensions| && EndsWith(href, "." + ExcludedExtensions[i])
  }

  /** Follow a link only when its lower-cased form is not an excluded
      resource and lies under the news site. */
  function ShouldVisit(url: string): (b: bool)
    ensures b ==> |url| >= |Domain| && ToLower(url)[..|Domain|] == Domain
    ensures b ==> forall i :: 0 <= i < |ExcludedExtensions| ==> !EndsWith(ToLower(url), "." + ExcludedExtensions[i])
  {
    var href := ToLower(url);
    !IsExcludedResource(href) && StartsWith(href, Domain)
  }

  /** A followed link always lies under the news site, up to letter case. */
  lemma ShouldVisitOnlyDomain(url: string)
    requires ShouldVisit(url)
    ensures |url| >= |Domain|
    ensures EqualIgnoringCase(url[..|Domain|], Domain)
  {
    var href := ToLower(url);
    forall i | 0 <= i < |Domain| ensures LowerChar(url[i]) == LowerChar(Domain[i]) {
      assert href[i] == Domain[i];
    }
  }

  /** Letter case never changes the decision. */
  lemma ShouldVisitIgnoresCase(u: string, v: string)
    requires EqualIgnoringCase(u, v)
    ensures ShouldVisit(u) == ShouldVisit(v)
  {
    EqualIgnoringCaseLower(u, v);
  }

  /** A URL whose ending lower-cases to an excluded suffix (".css", ".CSS",
      ".Gz", ...) is never followed, whatever comes before it. */
  lemma ExcludedSuffixNeverVisited(url: string, ending: string, i: nat)
    requires i < |ExcludedExtensions|
    requires EndsWith(url, ending)
    requires ToLower(ending) == "." + ExcludedExtensions[i]
    ensures !ShouldVisit(url)
  {
    var head := url[..|url| - |ending|];
    assert url == head + ending;
    ToLowerAppend(head, ending);
    assert EndsWith(ToLower(url), "." + ExcludedExtensions[i]);
  }

  /** A lower-case URL under the site without an excluded ending is followed. */
  lemma ShouldVisitSiteLink(url: string)
    requires ToLower(url) == url
    requires StartsWith(url, Domain)
    requires forall i :: 0 <= i < |ExcludedExtensions| ==> !EndsWith(url, "." + ExcludedExtensions[i])
    ensures ShouldVisit(url)
  {
  }

  // ---------------------------------------------------------------------
  // Content type: `getContentType() != null ? getContentType().split(";")[0] : "unknown"`

  /** The text before the first ';' of `s` (all of `s` when it has none). */
  predicate IsHeadBeforeSemicolon(s: string, head: string) {
    StartsWith(s, head) && ';' !in head && (|head| == |s| || s[|head|] == ';')
  }

  /** `s` split at every ';', keeping every piece (empty ones included). */
  function Pieces(s: string): (r: seq<string>)
    ensures |r| >= 1
    ensures IsHeadBeforeSemicolon(s, r[0])
    ensures (forall k :: 0 <= k < |r| ==> r[k] == "") <==> (forall k :: 0 <= k < |s| ==> s[k] == ';')
  {
    if s == [] then [""]
    else
      var rest := Pieces(s[1..]);
      if s[0] == ';' then
        assert (forall k :: 0 <= k < |s| ==> s[k] == ';') <==> (forall k :: 0 <= k < |s| - 1 ==> s[1..][k] == ';') by {
          assert forall k :: 1 <= k < |s| ==> s[k] == s[1..][k - 1];
        }
        var r := [""] + rest;
        assert (forall k :: 0 <= k < |r| ==> r[k] == "") <==> (forall k :: 0 <= k < |rest| ==> rest[k] == "") by {
          assert forall k :: 1 <= k < |r| ==> r[k] == rest[k - 1];
          assert forall k :: 0 <= k < |rest| ==> rest[k] == r[k + 1];
          assert r[0] == "";
        }
        r
      else
        [[s[0]] + rest[0]] + rest[1..]
  }

  /** Java's `split` drops the trailing empty pieces. */
  function DropTrailingEmpty(ps: seq<string>): (r: seq<string>)
    ensures |r| <= |ps| && r == ps[..|r|]
    ensures |r| == 0 <==> forall k :: 0 <= k < |ps| ==> ps[k] == ""
  {
    if ps == [] then []
    else if ps[|ps| - 1] == "" then DropTrailingEmpty(ps[..|ps| - 1])
    else ps
  }

  /** `s.split(";")`: the input itself when it holds no ';', otherwise the
      pieces without the trailing empty ones. */
  function SplitOnSemicolon(s: string): (r: seq<string>)
    ensures ';' !in s ==> r == [s]
    ensures |r| == 0 <==> |s| > 0 && forall k :: 0 <= k < |s| ==> s[k] == ';'
    ensures |r| > 0 ==> IsHeadBeforeSemicolon(s, r[0])
  {
    assert ';' !in s ==> |s| == 0 || s[0] != ';';
    if ';' !in s then [s] else DropTrailingEmpty(Pieces(s))
  }

  /** The content type written to the visit log, or None when `split(";")[0]`
      throws because the header holds nothing but ';' characters (the page
      is then not recorded). */
  function RecordedContentType(contentType: Option<string>): (r: Option<string>)
    ensures contentType.None? ==> r == Some("unknown")
    ensures contentType.Some? ==>
      (r.None? <==> |contentType.value| > 0 && forall k :: 0 <= k < |contentType.value| ==> contentType.value[k] == ';')
    ensures contentType.Some? && r.Some? ==> IsHeadBeforeSemicolon(contentType.value, r.value)
  {
    match contentType
    case None => Some("unknown")
    case Some(s) =>
      var parts := SplitOnSemicolon(s);
      if |parts| == 0 then None else Some(parts[0])
  }

  /** The recorded content type never holds a ';'. */
  lemma RecordedContentTypeHasNoSemicolon(contentType: Option<string>)
    requires RecordedContentType(contentType).Some?
    ensures ';' !in RecordedContentType(contentType).value
  {
  }

  // ---------------------------------------------------------------------
  // Internal / external marker of a discovered link

  /** "OK" for a link under the site (case-sensitive test on the link as
      found), "N_OK" otherwise. */
  function InternalMarker(link: string): (r: string)
    ensures r == InternalMark || r == ExternalMark
    ensures r == InternalMark <==> StartsWith(link, Domain)
  {
    if StartsWith(link, Domain) then InternalMark else ExternalMark
  }

  /** The marker's test is case-sensitive while shouldVisit's is not: the
      same followed link with its first letter capitalised is still
      followed, but is logged as outside the site. */
  lemma FollowedLinkMayBeMarkedExternal(url: string)
    requires ShouldVisit(url)
    ensures ShouldVisit("H" + url[1..])
    ensures InternalMarker("H" + url[1..]) == ExternalMark
  {
    var v := "H" + url[1..];
    assert ToLower(url)[0] == Domain[0];
    assert EqualIgnoringCase(url, v) by {
      assert forall i :: 1 <= i < |url| ==> v[i] == url[i];
    }
    ShouldVisitIgnoresCase(url, v);
    assert v[0] != Domain[0];
  }

  /** For a link already in lower case the two tests agree on the prefix. */
  lemma FollowedLowerCaseLinkIsInternal(link: string)
    requires ToLower(link) == link
    requires ShouldVisit(link)
    ensures InternalMarker(link) == InternalMark
  {
  }

  // ---------------------------------------------------------------------
  // The rows, as lists of fields

  /** One row per column of FetchHeader; the status code reads back. */
  function FetchRow(url: string, statusCode: int): (r: seq<string>)
    ensures |r| == |FetchHeader|
    ensures r[0] == url && ParseInt(r[1]) == Some(statusCode)
  {
    ParseDecimalString(statusCode);
    [url, DecimalString(statusCode)]
  }

  /** One row per column of VisitHeader; size and outlink count read back. */
  function VisitRow(url: string, size: nat, outlinks: nat, contentType: string): (r: seq<string>)
    ensures |r| == |VisitHeader|
    ensures r[0] == url && r[3] == contentType
    ensures ParseInt(r[1]) == Some(size as int) && ParseInt(r[2]) == Some(outlinks as int)
  {
    ParseDecimalString(size);
    ParseDecimalString(outlinks);
    [url, DecimalString(size), DecimalString(outlinks), contentType]
  }

  function UrlRow(link: string): seq<string> {
    [link, InternalMarker(link)]
  }

  /** One discovered-URL row per outgoing link, in iteration order. */
  function UrlRows(links: seq<string>): (r: seq<seq<string>>)
    ensures |r| == |links|
    ensures forall k :: 0 <= k < |links| ==> r[k] == UrlRow(links[k])
  {
    if links == [] then [] else UrlRows(links[..|links| - 1]) + [UrlRow(links[|links| - 1])]
  }

  /** What a file holds after an append that writes `header` first when the
      file was missing or empty, then `data`. */
  function AppendedRows(rows: seq<seq<string>>, header: seq<string>, data: seq<seq<string>>): (r: seq<seq<string>>)
    ensures |r| == |rows| + (if rows == [] then 1 else 0) + |data|
    ensures r[..|rows|] == rows
    ensures rows == [] ==> r[0] == header
    ensures r[|r| - |data|..] == data
  {
    if rows == [] then [header] + data else rows + data
  }

  /** A log whose header row is its first row and appears nowhere else. */
  predicate HeaderOnce(rows: seq<seq<string>>, header: seq<string>) {
    rows != [] ==> rows[0] == header && forall k :: 0 < k < |rows| ==> rows[k] != header
  }

  /** Appending data rows that differ from the header keeps the header once. */
  lemma AppendKeepsHeaderOnce(rows: seq<seq<string>>, header: seq<string>, data: seq<seq<string>>)
    requires HeaderOnce(rows, header)
    requires forall k :: 0 <= k < |data| ==> data[k] != header
    ensures HeaderOnce(AppendedRows(rows, header, data), header)
  {
    var r := AppendedRows(rows, header, data);
    forall k | 0 < k < |r| ensures r[k] != header {
      if k < |rows| {
        assert r[k] == rows[k];
      } else {
        assert r[k] == data[k - (|r| - |data|)];
      }
    }
  }

  /** No fetch row can be mistaken for the fetch header. */
  lemma FetchRowIsNotHeader(url: string, statusCode: int)
    ensures FetchRow(url, statusCode) != FetchHeader
  {
    DecimalStringHead(statusCode);
    assert FetchHeader[1][0] == 'S';
  }

  /** No visit row can be mistaken for the visit header. */
  lemma VisitRowIsNotHeader(url: string, size: nat, outlinks: nat, contentType: string)
    ensures VisitRow(url, size, outlinks, contentType) != VisitHeader
  {
    DecimalStringHead(size);
    assert VisitHeader[1][0] == 'S';
  }

  /** No discovered-URL row can be mistaken for its header. */
  lemma UrlRowsAreNotHeader(links: seq<string>)
    ensures forall k :: 0 <= k < |links| ==> UrlRows(links)[k] != UrlsHeader
  {
    forall k | 0 <= k < |links| ensures UrlRows(links)[k] != UrlsHeader {
      assert UrlRows(links)[k][1] == InternalMarker(links[k]);
    }
  }

  // ---------------------------------------------------------------------
  // The files and the two callbacks

  /** A CSV file opened for appending. `present` is File.exists(); `rows`
      are its lines, each a list of comma-separated fields. */
  class CsvFile {
    var present: bool
    var rows: seq<seq<string>>

    ghost predicate Valid()
      reads this
    {
      !present ==> rows == []
    }

    constructor Missing()
      ensures Valid() && !present && rows == []
    {
      present := false;
      rows := [];
    }

    /** `!file.exists() || file.length() == 0` */
    function IsMissingOrEmpty(): (b: bool)
      reads this
      requires Valid()
      ensures b <==> rows == []
    {
      !present || |rows| == 0
    }

    /** `new FileWriter(file, true)`: creates the file when it is missing. */
    method OpenForAppend()
      requires Valid()
      modifies this
      ensures Valid() && present && rows == old(rows)
    {
      present := true;
    }

    /** Appends one line. */
    method AppendRow(row: seq<string>)
      requires Valid() && present
      modifies this
      ensures Valid() && present && rows == old(rows) + [row]
    {
      rows := rows + [row];
    }
  }

  /** The data of a page the crawler hands to `visit`. */
  datatype ParseData = HtmlParseData(outgoingUrls: seq<string>) | OtherParseData

  datatype Page = Page(url: string, parseData: ParseData, contentType: Option<string>, contentLength: nat)

  /** handlePageStatusCode: one fetch row per fetched URL, after a header
      when the fetch log was missing or empty. */
  method HandlePageStatusCode(fetchFile: CsvFile, url: string, statusCode: int)
    requires fetchFile.Valid()
    modifies fetchFile
    ensures fetchFile.Valid() && fetchFile.present
    ensures fetchFile.rows == AppendedRows(old(fetchFile.rows), FetchHeader, [FetchRow(url, statusCode)])
  {
    var isFetchFileEmpty := fetchFile.IsMissingOrEmpty();
    fetchFile.OpenForAppend();
    if isFetchFileEmpty {
      fetchFile.AppendRow(FetchHeader);
    }
    fetchFile.AppendRow(FetchRow(url, statusCode));
  }

  /** visit: for an HTML page, one visit row (URL, size, outlink count,
      content type) and one discovered-URL row per outgoing link; each log
      gets its header first when it was missing or empty. Other pages, and
      pages whose content type makes `split` throw, write nothing. */
  method Visit(page: Page, visitFile: CsvFile, urlsFile: CsvFile)
    requires visitFile != urlsFile
    requires visitFile.Valid() && urlsFile.Valid()
    modifies visitFile, urlsFile
    ensures visitFile.Valid() && urlsFile.Valid()
    ensures page.parseData.OtherParseData? || RecordedContentType(page.contentType).None? ==>
      && visitFile.present == old(visitFile.present) && visitFile.rows == old(visitFile.rows)
      && urlsFile.present == old(urlsFile.present) && urlsFile.rows == old(urlsFile.rows)
    ensures page.parseData.HtmlParseData? && RecordedContentType(page.contentType).Some? ==>
      var links := page.parseData.outgoingUrls;
      && visitFile.present && urlsFile.present
      && visitFile.rows == AppendedRows(old(visitFile.rows), VisitHeader,
           [VisitRow(page.url, page.contentLength, |links|, RecordedContentType(page.contentType).value)])
      && urlsFile.rows == AppendedRows(old(urlsFile.rows), UrlsHeader, UrlRows(links))
  {
    if page.parseData.HtmlParseData? {
      var outgoingUrls := page.parseData.outgoingUrls;
      var outlinksCount := |outgoingUrls|;
      var contentType := RecordedContentType(page.contentType);
      if contentType.None? {
        return;
      }

      WriteVisitRow(visitFile, VisitRow(page.url, page.contentLength, outlinksCount, contentType.value));
      WriteUrlRows(urlsFile, outgoingUrls);
    }
  }

  /** The part of `visit` that writes the page's row to the visit log,
      after the header when the log was missing or empty. */
  method WriteVisitRow(visitFile: CsvFile, row: seq<string>)
    requires visitFile.Valid()
    modifies visitFile
    ensures visitFile.Valid() && visitFile.present
    ensures visitFile.rows == AppendedRows(old(visitFile.rows), VisitHeader, [row])
  {
    var isVisitFileEmpty := visitFile.IsMissingOrEmpty();
    visitFile.OpenForAppend();
    if isVisitFileEmpty {
      visitFile.AppendRow(VisitHeader);
    }
    visitFile.AppendRow(row);
  }

  /** The part of `visit` that writes the discovered-URL log: the header
      when the log was missing or empty, then one row per outgoing link, in
      iteration order. */
  method WriteUrlRows(urlsFile: CsvFile, outgoingUrls: seq<string>)
    requires urlsFile.Valid()
    modifies urlsFile
    ensures urlsFile.Valid() && urlsFile.present
    ensures urlsFile.rows == AppendedRows(old(urlsFile.rows), UrlsHeader, UrlRows(outgoingUrls))
  {
    var isUrlsFileEmpty := urlsFile.IsMissingOrEmpty();
    urlsFile.OpenForAppend();
    if isUrlsFileEmpty {
      urlsFile.AppendRow(UrlsHeader);
    }
    ghost var start := urlsFile.rows;
    assert start == (if old(urlsFile.rows) == [] then [UrlsHeader] else old(urlsFile.rows));
    var i := 0;
    while i < |outgoingUrls|
      invariant 0 <= i <= |outgoingUrls|
      invariant urlsFile.Valid() && urlsFile.present
      invariant urlsFile.rows == start + UrlRows(outgoingUrls[..i])
    {
      var link := outgoingUrls[i];
      urlsFile.AppendRow(UrlRow(link));
      UrlRowsExtend(outgoingUrls, i);
      i := i + 1;
    }
    assert outgoingUrls[..i] == outgoingUrls;
  }

  lemma UrlRowsExtend(links: seq<string>, i: nat)
    requires i < |links|
    ensures UrlRows(links[..i + 1]) == UrlRows(links[..i]) + [UrlRow(links[i])]
  {
    assert links[..i + 1][..i] == links[..i];
  }

  /** The outlink count of a visit row reads back as the number of
      discovered-URL rows written for the same page. */
  lemma OutlinkCountMatchesUrlRows(page: Page, contentType: string)
    requires page.parseData.HtmlParseData?
    ensures var links := page.parseData.outgoingUrls;
      ParseInt(VisitRow(page.url, page.contentLength, |links|, contentType)[2]) == Some(|UrlRows(links)|)
  {
  }
}
