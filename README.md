# Fox News crawl statistics, in Dafny

This project models the crawl-statistics side of a small web-crawler
repository. It has two halves.

- **The writer** is `NewsCrawler.java`, a crawler4j callback class. It decides
  which links to follow (`shouldVisit`). It appends one row per fetched URL to
  `fetch_foxnews.csv` (`handlePageStatusCode`). For each visited HTML page
  (`visit`) it appends one row to `visit_foxnews.csv` (URL, size, outlink
  count, content type cut at the first `;`, or `unknown`). It also appends one
  row per outgoing link to `urls_foxnews.csv`, marked `OK` when the link starts
  with `https://www.foxnews.com` and `N_OK` otherwise. A header row is written
  only when the file was missing or empty.
- **The reader** is `generate_crawl_report` in `static.py`. It scans the three
  logs once each, updating counters, and then writes `CrawlReport_foxnews.txt`
  with a fixed layout.

The modules:

| file | module | what it holds |
|---|---|---|
| `Wrappers.dfy` | `Wrappers` | `Option` |
| `Text.dfy` | `Text` | prefix and suffix tests, ASCII lower-casing, decimal printing (`String.valueOf`, f-strings), `int()` parsing, concatenation of the pieces handed to `write` |
| `Tallies.dfy` | `Tallies` | `defaultdict(int)` used as an insertion-ordered counter |
| `NewsCrawler.dfy` | `NewsCrawler` | `shouldVisit`, content-type derivation, the internal marker, the rows; the CSV files as a `CsvFile` class and the two callbacks as methods that append to it |
| `CrawlReport.dfy` | `CrawlReport` | the three scan loops as methods proved against specification functions, the report layout, and the whole run |
| `Pipeline.dfy` | `Pipeline` | the writer joined to the reader: the rows the crawler writes, read back by column, give the counters the report prints |

How the model reads the source:

- **The logs.** A log is `NotFound` (the caught `FileNotFoundError`) or
  `Opened(rows, decodeErrorAt)`: the rows the file holds, and the row, if any,
  whose reading raises a caught `UnicodeDecodeError`. The scan loops see the
  rows `csv.DictReader` yields before that row, or all of them (`RowsRead`).
  Each row is reduced to the columns the script reads.
- **The parse error.** `int()` on a field that is not an integer raises a
  `ValueError` that nothing catches, so the run ends with no report. The model
  shows this as a `None` outcome.
- **The dictionaries.** Each `defaultdict(int)` is a `Tally`: the keys in the
  order they were first counted, plus a map of counts. `items()` iterates in
  that order.
- **The report.** The report is the sequence of arguments of the successive
  `report_file.write` calls (`ReportWrites`). Its text is their concatenation.
- **The Java side.** Each CSV file is a `CsvFile` object. It has a `present`
  flag (`File.exists()`) and a list of rows, each a list of fields. The two
  callbacks are methods that append to it.

## Model

| member | source | states |
|---|---|---|
| Text.ToLower | src/main/java/org/example/NewsCrawler.java:22 | lower-casing keeps the length and maps every character by itself |
| Text.ParseInt | static.py:29 | `int()` accepts a field exactly when it is a digit, or a sign followed by at least one more character, and every character after the first is a digit; a negative result comes only from a leading `-` |
| Text.ParseDecimalString | static.py:29 | every integer the crawler prints with `String.valueOf` parses back to itself under `int()` |
| Tallies.AddCounts | static.py:30 | `d[k] += 1` raises the count of `k` by one and leaves every other count alone; a new key goes to the end of the iteration order, an old one keeps its place; the counter stays well formed |
| Tallies.TallyOfValid | static.py:30 | after counting a sequence, each key is listed once and exactly the counted keys are listed |
| Tallies.TallyOfCounts | static.py:29-30 | the count of every key is its number of occurrences in the input, and the keys are exactly the values that occur |
| Tallies.TallyOfTotal | static.py:30 | the counts add up to the number of values counted |
| Tallies.AddSumOver | static.py:30 | `d[k] += 1` adds one to the sum of the counts of any set of keys exactly when that set holds `k` |
| Tallies.TallyOfSumOver | static.py:29-30 | after counting a sequence, the counts of the keys a predicate selects add up to the number of values it selects |
| CrawlReport.ParseAll | static.py:29 | parsing a column gives one integer per field, each equal to that field's `int()`, or fails exactly when some field is not an integer |
| CrawlReport.FetchCountsAddUp | static.py:31-34 | every fetch counts as a success or as a failure, never both, so the two counts add up to the attempts |
| CrawlReport.NonSuccessCodesAllFail | static.py:31-34 | only codes in [200, 300) succeed: when no code is 2xx (1xx and 3xx included) there is no success and every fetch is a failure |
| CrawlReport.FetchCountsFromStatusTally | static.py:30-34 | the success count is the sum of the per-code counts of the 2xx codes, and the failure count that of all the other codes |
| CrawlReport.FetchCountersAgree | static.py:28-34 | attempts equal the number of rows and equal successes plus failures; the per-code counts are the occurrences of each code, list each code once and add up to the attempts; successes and failures are the per-code counts of the 2xx and of the other codes |
| CrawlReport.RowsReadPrefix | static.py:27-38 | the rows a scan loop sees are a prefix of the file: all of it, or exactly the rows before the one that cannot be decoded |
| CrawlReport.ScanFetchLog | static.py:24-38 | the fetch loop computes exactly the fetch counters of the rows read, or fails when a status code is not an integer |
| CrawlReport.SizeBucket | static.py:50-59 | each size falls in exactly one of five ranges with bounds 1024, 10·1024, 100·1024 and 1024·1024, a size equal to a bound going to the higher range |
| CrawlReport.SizeBucketMonotone | static.py:50-59 | a larger page never lands in a lower range |
| CrawlReport.HistogramCountsEveryPage | static.py:50-59 | the five range counts add up to the number of pages |
| CrawlReport.CategorizeFileSize | static.py:50-59 | the if-chain raises the count of the size's range by one and leaves the other four alone |
| CrawlReport.VisitCountersAgree | static.py:45-59 | content-type counts and range counts each add up to the number of visit rows; each content type counts its occurrences and is listed once; the outlink total is the sum of the outlink fields |
| CrawlReport.VisitOutcomeAppend | static.py:44-59 | one more visit row whose numbers parse adds its outlinks to the total, counts its content type and raises its size range |
| CrawlReport.MalformedVisitRow | static.py:45-47 | a visit row whose outlink count or size is not an integer makes the visit scan fail |
| CrawlReport.ScanVisitLog | static.py:41-63 | the visit loop computes exactly the visit counters of the rows read, or fails when an outlink count or a size is not an integer |
| CrawlReport.UrlStatsOf | static.py:70-75 | the unique URLs are the internal ones plus the external ones; a row marked exactly `OK` puts its URL among the internal ones, any other marker among the external ones, and nothing else does |
| CrawlReport.UrlWithBothMarkers | static.py:72-75 | a URL logged once with `OK` and once with another marker is in both subsets |
| CrawlReport.UrlStatsOfAppend | static.py:69-75 | one more row adds its URL to the unique set and to the subset its marker selects, and to nothing else |
| CrawlReport.ScanUrlLog | static.py:66-79 | the URL loop computes exactly the three sets of the rows read |
| CrawlReport.ReportWrites | static.py:82-114 | the report is 26 writes plus one per status code and one per content type |
| CrawlReport.ReportLayout | static.py:82-114 | the report's writes come in a fixed order: identity, fetch section, outgoing-URL section, status title and underline, one line per status code, size title and underline, exactly five range lines in range order, content-type title and underline, one line per content type |
| CrawlReport.HeadLayout | static.py:82-101 | the first 17 writes are the identity lines, the fetch section, the outgoing-URL section, the status title and the underline |
| CrawlReport.StatusUnderlineJoinsFirstLine | static.py:101-104 | the status underline has no line break, so in the report text the first status line follows `=============` directly |
| CrawlReport.WriteStatusLines | static.py:103-104 | the loop writes one line per status code, in first-seen order |
| CrawlReport.WriteSizeLines | static.py:108-109 | the loop writes the five range lines in range order |
| CrawlReport.WriteContentTypeLines | static.py:113-114 | the loop writes one line per content type, in first-seen order |
| CrawlReport.WriteReport | static.py:82-114 | the report is written as exactly the writes of the layout |
| CrawlReport.GenerateCrawlReport | static.py:4-114 | the run yields the report text of the counters of the three logs, or no report when a numeric field is not an integer |
| CrawlReport.MissingLogsCountZero | static.py:35-77 | a missing log leaves its counters at zero; with the fetch or the visit log missing, the run's statistics are those zero counters together with the other logs' own counters, and the run succeeds exactly when the other log parses; a missing URL log gives empty URL sets and changes nothing else |
| CrawlReport.DecodeErrorKeepsRowsRead | static.py:37-79 | a decode error in any one log keeps the counts of the rows read before it, whatever the rest of that file and the other two logs hold, as if the log had ended there; an error on the first row is as if the file were missing |
| CrawlReport.SameRowsSameOutcome | static.py:24-79 | the run depends on each log only through the rows its loop reads |
| CrawlReport.MalformedFieldAbortsRun | static.py:29-47 | a non-integer status code, outlink count or size in any row ends the run without a report, whatever the other logs hold |
| NewsCrawler.ShouldVisit | src/main/java/org/example/NewsCrawler.java:21-25 | a followed URL, lower-cased, starts with `https://www.foxnews.com` and ends with none of the excluded extensions |
| NewsCrawler.ShouldVisitOnlyDomain | src/main/java/org/example/NewsCrawler.java:22-24 | a followed URL starts with `https://www.foxnews.com` up to letter case |
| NewsCrawler.ShouldVisitIgnoresCase | src/main/java/org/example/NewsCrawler.java:22 | two URLs that differ only in letter case get the same answer |
| NewsCrawler.ExcludedSuffixNeverVisited | src/main/java/org/example/NewsCrawler.java:18-24 | a URL ending in `.` and one of the excluded extensions, in any letter case, is never followed |
| NewsCrawler.ShouldVisitSiteLink | src/main/java/org/example/NewsCrawler.java:18-24 | a lower-case URL under the site without an excluded ending is followed |
| NewsCrawler.Pieces | src/main/java/org/example/NewsCrawler.java:54 | splitting at every `;` gives at least one piece, the first is the text before the first `;`, and all pieces are empty exactly when the text is only `;` characters |
| NewsCrawler.DropTrailingEmpty | src/main/java/org/example/NewsCrawler.java:54 | `split` keeps a prefix of the pieces and ends up empty exactly when every piece is empty |
| NewsCrawler.SplitOnSemicolon | src/main/java/org/example/NewsCrawler.java:54 | `split(";")` gives the text itself when it holds no `;`, nothing at all exactly when the text is nonempty and made only of `;`, and otherwise begins with the text before the first `;` |
| NewsCrawler.RecordedContentType | src/main/java/org/example/NewsCrawler.java:54 | a missing content type is recorded as `unknown`; a present one as the text before its first `;`; the page is not recorded exactly when the content type is nonempty and made only of `;` (where `split(";")[0]` throws) |
| NewsCrawler.RecordedContentTypeHasNoSemicolon | src/main/java/org/example/NewsCrawler.java:54 | a recorded content type never holds a `;` |
| NewsCrawler.InternalMarker | src/main/java/org/example/NewsCrawler.java:84 | the marker is `OK` or `N_OK`, and `OK` exactly when the link as found starts with `https://www.foxnews.com` |
| NewsCrawler.FollowedLinkMayBeMarkedExternal | src/main/java/org/example/NewsCrawler.java:22-24 | the follow test ignores case and the marker does not: every followed URL has a followed variant, with its first letter capitalised, that is marked `N_OK` |
| NewsCrawler.FollowedLowerCaseLinkIsInternal | src/main/java/org/example/NewsCrawler.java:84 | a followed link already in lower case is marked `OK` |
| NewsCrawler.UrlRows | src/main/java/org/example/NewsCrawler.java:82-86 | one discovered-URL row per outgoing link, in iteration order, each the link and its marker |
| NewsCrawler.AppendedRows | src/main/java/org/example/NewsCrawler.java:31-37 | an append keeps the old rows, writes the header first exactly when the file was empty, and ends with the new data rows |
| NewsCrawler.AppendKeepsHeaderOnce | src/main/java/org/example/NewsCrawler.java:31-37 | appending data rows keeps a file whose first row is its only header row |
| NewsCrawler.FetchRow | src/main/java/org/example/NewsCrawler.java:37 | a fetch row has one field per header column: the URL, then the status code printed so that `int()` reads it back |
| NewsCrawler.VisitRow | src/main/java/org/example/NewsCrawler.java:63-70 | a visit row has one field per header column: the URL, the size and the outlink count printed so that `int()` reads them back, and the content type |
| NewsCrawler.FetchRowIsNotHeader | src/main/java/org/example/NewsCrawler.java:35-37 | no fetch row equals the fetch header |
| NewsCrawler.VisitRowIsNotHeader | src/main/java/org/example/NewsCrawler.java:61-70 | no visit row equals the visit header |
| NewsCrawler.UrlRowsAreNotHeader | src/main/java/org/example/NewsCrawler.java:80-85 | no discovered-URL row equals its header |
| NewsCrawler.CsvFile.IsMissingOrEmpty | src/main/java/org/example/NewsCrawler.java:32 | a file is missing or empty exactly when it holds no row |
| NewsCrawler.CsvFile.OpenForAppend | src/main/java/org/example/NewsCrawler.java:33 | opening for append creates a missing file and keeps its rows |
| NewsCrawler.CsvFile.AppendRow | src/main/java/org/example/NewsCrawler.java:37 | one append adds one row at the end |
| NewsCrawler.HandlePageStatusCode | src/main/java/org/example/NewsCrawler.java:28-41 | the fetch log gains the row (URL, status code), after the header when it was missing or empty |
| NewsCrawler.Visit | src/main/java/org/example/NewsCrawler.java:44-91 | an HTML page adds a visit row (URL, size, outlink count, content type) and one URL row per outgoing link, each file with a header when it was missing or empty, and both files exist afterwards; other pages, and pages whose content type makes `split` throw, change nothing, not even whether a file exists |
| NewsCrawler.WriteVisitRow | src/main/java/org/example/NewsCrawler.java:57-70 | the visit log gains the page's row, after the header when it was missing or empty, and exists afterwards |
| NewsCrawler.WriteUrlRows | src/main/java/org/example/NewsCrawler.java:76-86 | the discovered-URL log gains its header when it was missing or empty, then exactly the rows of the links, in order, and exists afterwards |
| NewsCrawler.OutlinkCountMatchesUrlRows | src/main/java/org/example/NewsCrawler.java:52-53 | the outlink count in a visit row reads back as the number of URL rows written for the page |
| Pipeline.FetchLogRoundTrip | static.py:26-34 | the fetch rows the crawler writes, read back, give the fetch counters of the codes fetched |
| Pipeline.FetchReportCounts | static.py:28-34 | hence every fetched URL is an attempt, successes plus failures are the attempts, and each code counts its occurrences |
| Pipeline.VisitFieldsReadBack | static.py:45-47 | the outlink, size and content-type columns of the crawler's visit rows read back as the page's outlink count, size and content type |
| Pipeline.VisitLogRoundTrip | static.py:43-59 | the visit rows the crawler writes, read back, give the outlink total, content-type counts and size ranges of the pages visited |
| Pipeline.TotalUrlsExtractedIsUrlRows | static.py:45 | "Total URLs extracted" equals the number of discovered-URL rows the same visits append |
| Pipeline.UrlRecordsRead | src/main/java/org/example/NewsCrawler.java:82-86 | the discovered-URL records read back are exactly the links, each with its marker |
| Pipeline.UrlLogRoundTrip | static.py:70-75 | read back from the crawler's rows, the internal URLs are exactly the links starting with the site address, the external ones are all the others, and the unique URLs are all the links |

## Left out

- `search engines comparison/hw1.py` (search-result overlap and Spearman correlation) is a separate script. It is not part of this model.
- `MainController.java` is not part of this model: it only configures crawler4j and starts seven crawler threads.
- The crawler threads run at the same time and append to the same files without synchronisation. The model performs one callback at a time.
- crawler4j's `Page`, `WebURL` and `HtmlParseData` are reduced to plain values (URL, parse data, content type, content length). When the framework calls the callbacks is not modelled.
- The `Set<WebURL>` of outgoing links is taken as the sequence in which it iterates.
- `IOException` and `printStackTrace` are not modelled, nor the console prints (`Visiting: ...` and the "not found" and encoding messages).
- CSV escaping is not modelled: rows are lists of fields. `csv.DictReader` reads a field back differently only when it holds a comma or a line break, or when it begins with a quote; a quote anywhere else in an unquoted field is kept as an ordinary character.
- Short rows are not modelled: each row is reduced to the columns the script reads, as strings. `DictReader` fills a missing trailing field with `None` and raises nothing. Blank lines are skipped, so the first field of every row is present. A URL row without its "Is Internal" field is then counted as external, and a visit row without its "Content Type" field counts `None` as a content type. A missing status code, outlink count or size makes `int(None)` raise a `TypeError` that nothing catches, which ends the run as a parse failure would. A header that lacks a column the script reads would raise an uncaught `KeyError` on the first row.
- Python's text-mode newline translation and the file's encoding are not modelled.
- `EXCLUSIONS` is modelled as a suffix test on the lower-cased URL. The regex's `.*` does not match line terminators, so a URL containing a line break is not modelled exactly.
- Text.ToLower: lower-cases only the ASCII letters, as `toLowerCase()` does in a default locale other than Turkish or Azeri. Non-ASCII letters are left alone, while Java lower-cases them by Unicode. In a Turkish or Azeri default locale Java maps ASCII `I` to the dotless `ı`, so a URL ending in `.GIF` or `.ZIP` would not be excluded there. `ShouldVisit`, `ExcludedSuffixNeverVisited` and `ShouldVisitIgnoresCase` hold only for the other locales.
- Text.ParseInt: accepts an optional sign followed by ASCII digits. Python's `int()` also accepts surrounding whitespace, underscores between digits and non-ASCII digits, so those fields are modelled as parse failures. From Python 3.11 on, `int()` also raises `ValueError` for a string of more than 4300 digits, which `ParseInt` accepts.
- Java's `int` is 32 bits wide and the model uses unbounded integers. This makes no difference here: the status code is printed as it comes, and the sizes and outlink counts are lengths.
