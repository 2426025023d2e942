/**
 * The bulk downloader (download.py): for every input URL it asks the CDX
 * index for the HTTP-200 captures, drops the JSON header row and submits one
 * raw-capture download per remaining row. The network, the file system and
 * the thread pool are not modelled: the index's answer, the HEAD probe and
 * the fetch are parameters, and the submitted tasks are a sequence.
 */
module Downloader {
  import opened Wrappers
  import opened Values
  import opened Text
  import opened UrlEncode
  import opened UrlPath

  const CdxApiUrl: string := "http://web.archive.org/cdx/search/cdx"
  const ReplayPrefix: string := "https://web.archive.org/web/"

  // ---------------------------------------------------------------------------
  // query_wayback_all

  /** The fixed query: JSON output, the two fields, HTTP-200 captures only. */
  function CaptureQueryParams(url: string): (p: seq<(string, string)>)
    ensures |p| == 4 && p[0] == ("url", url)
    ensures forall i, j :: 0 <= i < j < |p| ==> p[i].0 != p[j].0
  {
    [("url", url), ("output", "json"), ("fl", "timestamp,original"), ("filter", "statuscode:200")]
  }

  /** `urlencode(params)` of that dict (all values are strings, so no doseq). */
  function CaptureQueryString(url: string): (q: string)
    ensures "url=" + QuotePlus(url) + "&" <= q
  {
    QuotePlusUnreserved("url");
    EncodeQuery(CaptureQueryParams(url))
  }

  /** `f"{CDX_API_URL}?{query_string}"`. */
  function CaptureQueryUrl(url: string): (u: string)
    ensures CdxApiUrl + "?" <= u
  {
    CdxApiUrl + "?" + CaptureQueryString(url)
  }

  /** The query string carries the URL, untouched, and the three fixed parameters, in that order. */
  lemma CaptureQueryReadsBack(url: string)
    ensures ParseQuery(CaptureQueryString(url)) ==
      Some([("url", url), ("output", "json"), ("fl", "timestamp,original"), ("filter", "statuscode:200")])
  {
    QueryRoundTrip(CaptureQueryParams(url));
  }

  /** What follows the endpoint and `?` in the request URL reads back as the four parameters, in order. */
  lemma CaptureQueryUrlReadsBack(url: string)
    ensures var u := CaptureQueryUrl(url);
      ParseQuery(u[|CdxApiUrl| + 1..]) ==
        Some([("url", url), ("output", "json"), ("fl", "timestamp,original"), ("filter", "statuscode:200")])
  {
    CaptureQueryReadsBack(url);
    assert CaptureQueryUrl(url)[|CdxApiUrl| + 1..] == CaptureQueryString(url);
  }

  /** One row of the JSON array. */
  type CdxRow = seq<string>

  /** What the index request gives: the parsed JSON array, or an exception (network, HTTP, decoding, JSON). */
  datatype IndexResponse = Answered(data: seq<CdxRow>) | Failed

  /** `data[1:] if len(data) > 1 else []`: the rows after the header row. */
  function StripHeader(data: seq<CdxRow>): (rows: seq<CdxRow>)
    ensures |rows| == if |data| > 1 then |data| - 1 else 0
    ensures |data| > 0 ==> data == [data[0]] + rows || (|data| == 1 && rows == [])
  {
    if |data| > 1 then data[1..] else []
  }

  /** The captures query_wayback_all returns: none when the request failed. */
  function QueryResults(response: IndexResponse): (rows: seq<CdxRow>)
    ensures response.Failed? ==> rows == []
    ensures response.Answered? && |response.data| > 1 ==> response.data == [response.data[0]] + rows
    ensures response.Answered? && |response.data| <= 1 ==> rows == []
  {
    match response
    case Failed => []
    case Answered(data) => StripHeader(data)
  }

  /** A response with only a header row, or none at all, gives no capture. */
  lemma HeaderOnlyGivesNothing(data: seq<CdxRow>)
    requires |data| <= 1
    ensures QueryResults(Answered(data)) == []
  {
  }

  // ---------------------------------------------------------------------------
  // download_wayback_capture_raw

  /** `f"https://web.archive.org/web/{timestamp}id_/{original_url}"`: the raw (`id_`) replay URL. */
  function RawCaptureUrl(timestamp: string, originalUrl: string): (u: string)
    ensures ReplayPrefix + timestamp + "id_/" <= u
    ensures |u| >= |originalUrl| && u[|u| - |originalUrl|..] == originalUrl
    ensures |u| == |ReplayPrefix| + |timestamp| + 4 + |originalUrl|
  {
    ReplayPrefix + timestamp + "id_/" + originalUrl
  }

  predicate AllDigits(s: string)
  {
    forall i :: 0 <= i < |s| ==> IsDigit(s[i])
  }

  /** The length of the leading run of digits. */
  function DigitRun(s: string): (n: nat)
    ensures n <= |s|
  {
    if s == [] || !IsDigit(s[0]) then 0 else 1 + DigitRun(s[1..])
  }

  /** A digit string followed by a non-digit: the run is exactly the digit string. */
  lemma {:induction false} DigitRunPrefix(t: string, rest: string)
    requires AllDigits(t) && rest != [] && !IsDigit(rest[0])
    ensures DigitRun(t + rest) == |t|
  {
    if t == [] {
      assert t + rest == rest;
    } else {
      assert (t + rest)[1..] == t[1..] + rest;
      DigitRunPrefix(t[1..], rest);
    }
  }

  /** Digit timestamps and original URLs can be read back from the raw URL: different captures, different URLs. */
  lemma RawCaptureUrlInjective(t1: string, o1: string, t2: string, o2: string)
    requires AllDigits(t1) && AllDigits(t2)
    requires RawCaptureUrl(t1, o1) == RawCaptureUrl(t2, o2)
    ensures t1 == t2 && o1 == o2
  {
    var u := RawCaptureUrl(t1, o1);
    var p := |ReplayPrefix|;
    DigitRunPrefix(t1, "id_/" + o1);
    DigitRunPrefix(t2, "id_/" + o2);
    assert u[p..] == t1 + ("id_/" + o1) == t2 + ("id_/" + o2);
    assert t1 == u[p..p + |t1|] && t2 == u[p..p + |t2|];
    assert o1 == u[p + |t1| + 4..] && o2 == u[p + |t2| + 4..];
  }

  /** The file name for a basename: `{timestamp}_{base}`, with `file` appended when that is empty or ends in `_`. */
  function NameFor(timestamp: string, base: string): (name: string)
    ensures timestamp + "_" <= name
    ensures name[|name| - 1] != '_'
  {
    var name := timestamp + "_" + base;
    if name == "" || EndsWith(name, '_') then name + "file" else name
  }

  /** `f"{timestamp}_{basename(urlparse(original_url).path)}"`, with the `file` fallback. */
  function Filename(timestamp: string, originalUrl: string): (name: string)
    ensures timestamp + "_" <= name && !EndsWith(name, '_')
  {
    NameFor(timestamp, Basename(UrlParse(originalUrl).path))
  }

  /**
   * The three cases of the file name for a basename `b`: empty gives
   * `{timestamp}_file`, ending in `_` gets `file` appended, any other is kept.
   * The `not filename` guard never fires.
   */
  lemma NameCases(timestamp: string, b: string)
    ensures timestamp + "_" + b != ""
    ensures b == "" ==> NameFor(timestamp, b) == timestamp + "_file"
    ensures b != "" && b[|b| - 1] == '_' ==> NameFor(timestamp, b) == timestamp + "_" + b + "file"
    ensures b != "" && b[|b| - 1] != '_' ==> NameFor(timestamp, b) == timestamp + "_" + b
  {
    var name := timestamp + "_" + b;
    assert name[|timestamp|] == '_';
    if b == "" {
      assert name == timestamp + "_";
      assert name + "file" == timestamp + "_file";
    } else {
      assert name[|name| - 1] == b[|b| - 1];
    }
  }

  /** The file name cases, for the basename of the URL's path. */
  lemma FilenameCases(timestamp: string, originalUrl: string)
    ensures var b := Basename(UrlParse(originalUrl).path);
      && (b == "" ==> Filename(timestamp, originalUrl) == timestamp + "_file")
      && (b != "" && b[|b| - 1] == '_' ==> Filename(timestamp, originalUrl) == timestamp + "_" + b + "file")
      && (b != "" && b[|b| - 1] != '_' ==> Filename(timestamp, originalUrl) == timestamp + "_" + b)
  {
    NameCases(timestamp, Basename(UrlParse(originalUrl).path));
  }

  /** A URL whose path is empty or ends in `/` (a directory listing, a bare host) is saved as `{timestamp}_file`. */
  lemma DirectoryUrlFilename(timestamp: string, originalUrl: string)
    requires var p := UrlParse(originalUrl).path; p == "" || p[|p| - 1] == '/'
    ensures Filename(timestamp, originalUrl) == timestamp + "_file"
  {
    BasenameEmptyIff(UrlParse(originalUrl).path);
    FilenameCases(timestamp, originalUrl);
  }

  /** A bare host with a trailing `/` is saved as `{timestamp}_file`. */
  lemma BareHostFilename(timestamp: string, url: string)
    requires url == "http://example.com/"
    ensures Filename(timestamp, url) == timestamp + "_file"
  {
    BareHostPath();
    DirectoryUrlFilename(timestamp, url);
  }

  /**
   * A URL of the usual shape whose path ends in `/name`, with `name` not
   * ending in `_`, is saved as `{timestamp}_name`: the host, the directories
   * and any query or fragment do not reach the file name.
   */
  lemma FilenameOfShape(timestamp: string, scheme: string, netloc: string, dir: string, name: string, tail: string)
    requires scheme != [] && forall j :: 0 <= j < |scheme| ==> IsAsciiLetter(scheme[j])
    requires forall j :: 0 <= j < |netloc| ==> netloc[j] != '/' && netloc[j] != '?' && netloc[j] != '#'
    requires dir == [] || dir[0] == '/'
    requires forall j :: 0 <= j < |dir| ==> dir[j] != '?' && dir[j] != '#' && dir[j] != ';'
    requires forall j :: 0 <= j < |name| ==> name[j] != '/' && name[j] != '?' && name[j] != '#' && name[j] != ';'
    requires name != [] && name[|name| - 1] != '_'
    requires tail == [] || tail[0] == '?' || tail[0] == '#'
    ensures Filename(timestamp, scheme + "://" + netloc + (dir + "/" + name) + tail) == timestamp + "_" + name
  {
    var path := dir + "/" + name;
    assert path[0] == '/' by {
      if dir != [] { assert path[0] == dir[0]; }
    }
    assert forall j :: 0 <= j < |path| ==> path[j] != '?' && path[j] != '#' && path[j] != ';' by {
      assert forall j :: 0 <= j < |dir| ==> path[j] == dir[j];
      assert forall j :: |dir| < j < |path| ==> path[j] == name[j - |dir| - 1];
    }
    UrlParseOfShape(scheme, netloc, path, tail);
    BasenameOfLast(dir, name);
    NameCases(timestamp, name);
  }

  /** Different timestamps of one length never give the same name, whatever the basenames. */
  lemma NamesDistinct(t1: string, b1: string, t2: string, b2: string)
    requires |t1| == |t2| && t1 != t2
    ensures NameFor(t1, b1) != NameFor(t2, b2)
  {
    var n1, n2 := NameFor(t1, b1), NameFor(t2, b2);
    assert n1[..|t1|] == t1 && n2[..|t2|] == t2;
  }

  /** Captures with different timestamps of one length never share a file name. */
  lemma FilenamesDistinct(t1: string, o1: string, t2: string, o2: string)
    requires |t1| == |t2| && t1 != t2
    ensures Filename(t1, o1) != Filename(t2, o2)
  {
    NamesDistinct(t1, Basename(UrlParse(o1).path), t2, Basename(UrlParse(o2).path));
  }

  /** `os.path.join(download_dir, filename)`. */
  function DestPath(dir: string, timestamp: string, originalUrl: string): (path: string)
    ensures var name := Filename(timestamp, originalUrl); |path| >= |name| && path[|path| - |name|..] == name
    ensures timestamp == [] || timestamp[0] != '/' ==> dir <= path
  {
    var name := Filename(timestamp, originalUrl);
    assert name[0] == (timestamp + "_")[0];
    PathJoin(dir, name)
  }

  /** Digit timestamps of one length, all different, give different destination paths in one directory. */
  lemma DestPathsDistinct(dir: string, t1: string, o1: string, t2: string, o2: string)
    requires |t1| == |t2| && t1 != t2 && AllDigits(t1) && AllDigits(t2)
    ensures DestPath(dir, t1, o1) != DestPath(dir, t2, o2)
  {
    FilenamesDistinct(t1, o1, t2, o2);
    var n1, n2 := Filename(t1, o1), Filename(t2, o2);
    assert n1[0] != '/' && n2[0] != '/' by {
      assert n1[0] == t1[0] && n2[0] == t2[0];
    }
    if PathJoin(dir, n1) == PathJoin(dir, n2) {
      PathJoinInjective(dir, n1, n2);
    }
  }

  /** `'text/html' in content_type.lower()`: the probe says the capture is an HTML page. */
  predicate SkipsCapture(contentType: string)
    ensures SkipsCapture(contentType) <==>
      exists i :: 0 <= i <= |contentType| && "text/html" <= Lower(contentType)[i..]
  {
    ContainsIff(Lower(contentType), "text/html");
    Contains(Lower(contentType), "text/html")
  }

  /** The test ignores letter case: Content-Types that differ only in case are skipped alike. */
  lemma SkipsCaptureIgnoresCase(s: string, t: string)
    requires SameUpToCase(s, t)
    ensures SkipsCapture(s) <==> SkipsCapture(t)
  {
    LowerIgnoresCase(s, t);
  }

  /** A capitalised HTML Content-Type with parameters is skipped. */
  lemma CapitalisedHtmlSkipped()
    ensures SkipsCapture("Text/HTML; charset=UTF-8")
  {
    var l := Lower("Text/HTML; charset=UTF-8");
    assert l[..9] == "text/html";
    assert l[0..] == l;
  }

  /** A capture is skipped exactly when `text/html`, in any letter case, occurs in its Content-Type. */
  lemma SkipsCaptureIff(contentType: string)
    ensures SkipsCapture(contentType) <==>
      exists i :: 0 <= i <= |contentType| && "text/html" <= Lower(contentType[i..])
  {
    var l := Lower(contentType);
    ContainsIff(l, "text/html");
    if SkipsCapture(contentType) {
      var i :| 0 <= i <= |l| && "text/html" <= l[i..];
      assert Lower(contentType[i..]) == l[i..];
    }
    if exists i :: 0 <= i <= |contentType| && "text/html" <= Lower(contentType[i..]) {
      var i :| 0 <= i <= |contentType| && "text/html" <= Lower(contentType[i..]);
      assert Lower(contentType[i..]) == l[i..];
    }
  }

  /** A missing Content-Type (`''`) is never skipped. */
  lemma MissingContentTypeNotSkipped()
    ensures !SkipsCapture("")
  {
  }

  /** The HEAD probe's result. */
  datatype Probe =
    | Headers(contentType: Option<string>)   // the response's Content-Type header, if any
    | ProbeHttpError(code: int)
    | ProbeFailed                            // any other exception

  /** The GET's result. */
  datatype Fetch = Fetched | FetchHttpError(code: int) | FetchFailed

  /** How one download ends (each is a line of output in the script). */
  datatype Outcome =
    | Saved(path: string)
    | SkippedHtml
    | NotFound
    | HttpError(code: int)
    | DownloadFailed

  function HttpOutcome(code: int): Outcome
  {
    if code == 404 then NotFound else HttpError(code)
  }

  /**
   * download_wayback_capture_raw: create the directory, probe, skip HTML,
   * fetch to the destination path; HTTP errors and other exceptions are caught.
   */
  function DownloadOutcome(timestamp: string, originalUrl: string, dir: string,
                           dirCreated: bool, probe: Probe, fetch: Fetch): (out: Outcome)
    ensures out.Saved? ==> dirCreated && probe.Headers? && fetch.Fetched? && out.path == DestPath(dir, timestamp, originalUrl)
    ensures out == SkippedHtml ==> dirCreated && probe.Headers?
  {
    if !dirCreated then DownloadFailed
    else match probe
      case ProbeHttpError(code) => HttpOutcome(code)
      case ProbeFailed => DownloadFailed
      case Headers(contentType) =>
        if SkipsCapture(if contentType.Some? then contentType.value else "") then SkippedHtml
        else match fetch
          case Fetched => Saved(DestPath(dir, timestamp, originalUrl))
          case FetchHttpError(code) => HttpOutcome(code)
          case FetchFailed => DownloadFailed
  }

  /** A file is written exactly when the directory exists, the probe succeeds and is not HTML, and the GET succeeds; it goes to the destination path. */
  lemma SavedIff(timestamp: string, originalUrl: string, dir: string, dirCreated: bool, probe: Probe, fetch: Fetch)
    ensures var out := DownloadOutcome(timestamp, originalUrl, dir, dirCreated, probe, fetch);
      out.Saved? <==> dirCreated && probe.Headers? && fetch.Fetched?
                      && !SkipsCapture(if probe.contentType.Some? then probe.contentType.value else "")
    ensures var out := DownloadOutcome(timestamp, originalUrl, dir, dirCreated, probe, fetch);
      out.Saved? ==> out.path == DestPath(dir, timestamp, originalUrl)
  {
  }

  /** A capture whose Content-Type contains `text/html` is never written. */
  lemma HtmlNeverSaved(timestamp: string, originalUrl: string, dir: string, contentType: string, fetch: Fetch)
    requires SkipsCapture(contentType)
    ensures DownloadOutcome(timestamp, originalUrl, dir, true, Headers(Some(contentType)), fetch) == SkippedHtml
  {
  }

  /** A 404 on the probe, or on the GET after a passing probe, is reported as not found and writes nothing. */
  lemma NotFoundIff(timestamp: string, originalUrl: string, dir: string, dirCreated: bool, probe: Probe, fetch: Fetch)
    ensures var out := DownloadOutcome(timestamp, originalUrl, dir, dirCreated, probe, fetch);
      (out == NotFound <==>
        dirCreated && (probe == ProbeHttpError(404)
          || (probe.Headers? && !SkipsCapture(if probe.contentType.Some? then probe.contentType.value else "")
              && fetch == FetchHttpError(404))))
  {
  }

  // ---------------------------------------------------------------------------
  // main: the list of URLs

  /** `[line.strip() for line in lines if line.strip()]`. */
  function StrippedLines(lines: seq<string>): (urls: seq<string>)
    ensures |urls| <= |lines|
    ensures forall i :: 0 <= i < |urls| ==> urls[i] != ""
  {
    if lines == [] then []
    else StrippedLines(lines[..|lines| - 1]) + (if Strip(lines[|lines| - 1]) != "" then [Strip(lines[|lines| - 1])] else [])
  }

  /** Every collected line is non-empty and already stripped. */
  lemma {:induction false} StrippedLinesClean(lines: seq<string>)
    ensures forall u :: u in StrippedLines(lines) ==> u != "" && Strip(u) == u
  {
    if lines != [] {
      StrippedLinesClean(lines[..|lines| - 1]);
      StripIdempotent(lines[|lines| - 1]);
    }
  }

  /** Collection keeps the order of the lines: it distributes over concatenation. */
  lemma {:induction false} StrippedLinesAppend(a: seq<string>, b: seq<string>)
    ensures StrippedLines(a + b) == StrippedLines(a) + StrippedLines(b)
  {
    if b == [] {
      assert a + b == a;
    } else {
      var init := b[..|b| - 1];
      assert (a + b)[..|a + b| - 1] == a + init;
      assert (a + b)[|a + b| - 1] == b[|b| - 1];
      StrippedLinesAppend(a, init);
    }
  }

  /** A line is taken, stripped, exactly when it is not all whitespace. */
  lemma StrippedLine(line: string)
    ensures StrippedLines([line]) == if forall i :: 0 <= i < |line| ==> IsSpace(line[i]) then [] else [Strip(line)]
  {
    StripEmptyIff(line);
    assert [line][..0] == [];
  }

  /**
   * The stdin loop: strip every line and append it when it is not empty.
   */
  method ReadStdinUrls(lines: seq<string>) returns (urls: seq<string>)
    ensures urls == StrippedLines(lines)
  {
    urls := [];
    for i := 0 to |lines|
      invariant urls == StrippedLines(lines[..i])
    {
      var line := Strip(lines[i]);
      assert lines[..i + 1][..i] == lines[..i];
      if line != "" {
        urls := urls + [line];
      }
    }
    assert lines[..|lines|] == lines;
  }

  /** What `open(args.url_file)` and iterating over it give. */
  datatype UrlFile = FileLines(lines: seq<string>) | Unreadable

  datatype Collected =
    | Urls(urls: seq<string>)
    | ReadFailed     // "Failed to read URL file", the run ends
    | NoInput        // stdin is a terminal, the run ends

  /**
   * The URL sources in priority order: a non-empty positional argument as
   * given, else a non-empty `--url-file`, else standard input when it is not
   * a terminal.
   */
  method CollectUrls(url: Option<string>, urlFile: Option<string>, file: UrlFile,
                     stdinIsTty: bool, stdinLines: seq<string>) returns (c: Collected)
    ensures url.Some? && url.value != "" ==> c == Urls([url.value])
    ensures !(url.Some? && url.value != "") && urlFile.Some? && urlFile.value != "" ==>
      c == if file.Unreadable? then ReadFailed else Urls(StrippedLines(file.lines))
    ensures !(url.Some? && url.value != "") && !(urlFile.Some? && urlFile.value != "") ==>
      c == if stdinIsTty then NoInput else Urls(StrippedLines(stdinLines))
    ensures c.Urls? ==> forall u :: u in c.urls ==> u != ""
  {
    var urls: seq<string> := [];
    if url.Some? && url.value != "" {
      urls := urls + [url.value];
    } else if urlFile.Some? && urlFile.value != "" {
      match file
      case Unreadable =>
        return ReadFailed;
      case FileLines(lines) =>
        urls := StrippedLines(lines);
        StrippedLinesClean(lines);
    } else {
      if stdinIsTty {
        return NoInput;
      }
      urls := ReadStdinUrls(stdinLines);
      StrippedLinesClean(stdinLines);
    }
    c := Urls(urls);
  }

  // ---------------------------------------------------------------------------
  // main: the downloads

  /** One submitted call of download_wayback_capture_raw. */
  datatype Task = Task(timestamp: string, originalUrl: string, downloadDir: string)

  /** Where `for timestamp, original_url in results` first meets a row that is not a pair (|rows| if never). */
  function FirstMalformed(rows: seq<CdxRow>): (k: nat)
    ensures k <= |rows|
    ensures forall j :: 0 <= j < k ==> |rows[j]| == 2
    ensures k < |rows| ==> |rows[k]| != 2
  {
    if rows == [] || |rows[0]| != 2 then 0 else 1 + FirstMalformed(rows[1..])
  }

  /**
   * The submission loop: one task per row, with the row's timestamp and
   * original URL and the run's directory, in row order. A row that does not
   * unpack as a pair raises ValueError, which nothing catches: the loop stops
   * there (`unpacked` false) and the tasks already submitted still run.
   */
  method SubmitTasks(results: seq<CdxRow>, dir: string) returns (futures: seq<Task>, unpacked: bool)
    ensures unpacked <==> WellFormed(results)
    ensures futures == BatchOf(results, dir)
  {
    futures := [];
    var i := 0;
    while i < |results|
      invariant i <= FirstMalformed(results)
      invariant |futures| == i
      invariant forall j :: 0 <= j < i ==> futures[j] == Task(results[j][0], results[j][1], dir)
    {
      if |results[i]| != 2 {
        assert futures == BatchOf(results, dir);
        return futures, false;
      }
      futures := futures + [Task(results[i][0], results[i][1], dir)];
      i := i + 1;
    }
    unpacked := true;
    assert futures == BatchOf(results, dir);
  }

  /** The tasks for one URL's results. */
  function BatchOf(rows: seq<CdxRow>, dir: string): (tasks: seq<Task>)
    ensures |tasks| == FirstMalformed(rows)
    ensures forall j :: 0 <= j < |tasks| ==> tasks[j] == Task(rows[j][0], rows[j][1], dir)
  {
    var k := FirstMalformed(rows);
    seq(k, j requires 0 <= j < k => Task(rows[j][0], rows[j][1], dir))
  }

  predicate WellFormed(rows: seq<CdxRow>)
  {
    forall j :: 0 <= j < |rows| ==> |rows[j]| == 2
  }

  /** The captures the index lists for one input URL. */
  function CapturesOf(cdx: string -> IndexResponse, url: string): seq<CdxRow>
  {
    QueryResults(cdx(CaptureQueryUrl(url)))
  }

  /** What the run leaves: the batch submitted for each URL reached, and whether a malformed row ended it. */
  datatype Run = Run(batches: seq<seq<Task>>, crashed: bool)

  /** The captures of each input URL, in input order. */
  function CapturesOfAll(cdx: string -> IndexResponse, urls: seq<string>): (c: seq<seq<CdxRow>>)
    ensures |c| == |urls| && forall i :: 0 <= i < |urls| ==> c[i] == CapturesOf(cdx, urls[i])
  {
    seq(|urls|, i requires 0 <= i < |urls| => CapturesOf(cdx, urls[i]))
  }

  /**
   * The loop over the URLs, one at a time, given each URL's captures: skip a
   * URL with none, otherwise open a pool of `threads` workers, submit its batch
   * and wait for it. A malformed row ends the run after the batch of the URL
   * that had it. A pool size below 1 makes `ThreadPoolExecutor` raise
   * ValueError, which nothing catches: the run ends at the first URL with
   * captures, before any of its tasks is submitted.
   */
  function RunOf(captures: seq<seq<CdxRow>>, dir: string, threads: int): (r: Run)
    ensures |r.batches| <= |captures|
  {
    if captures == [] then Run([], false)
    else
      var before := RunOf(captures[..|captures| - 1], dir, threads);
      var rows := captures[|captures| - 1];
      if before.crashed then before
      else if rows == [] then Run(before.batches + [[]], false)
      else if threads <= 0 then Run(before.batches + [[]], true)
      else Run(before.batches + [BatchOf(rows, dir)], !WellFormed(rows))
  }

  /** Once the run has crashed, the URLs after that are never queried. */
  lemma {:induction false} CrashedRunStops(captures: seq<seq<CdxRow>>, dir: string, threads: int, i: nat)
    requires i <= |captures| && RunOf(captures[..i], dir, threads).crashed
    ensures RunOf(captures, dir, threads) == RunOf(captures[..i], dir, threads)
  {
    if i < |captures| {
      assert captures[..|captures| - 1][..i] == captures[..i];
      CrashedRunStops(captures[..|captures| - 1], dir, threads, i);
    } else {
      assert captures[..i] == captures;
    }
  }

  /** All URLs are reached unless the run crashed. */
  lemma {:induction false} RunReachesAll(captures: seq<seq<CdxRow>>, dir: string, threads: int)
    ensures !RunOf(captures, dir, threads).crashed ==> |RunOf(captures, dir, threads).batches| == |captures|
  {
    if captures != [] {
      RunReachesAll(captures[..|captures| - 1], dir, threads);
    }
  }

  /** Every URL reached gets the batch of its captures (none when it has none), or no task when the pool size is below 1. */
  lemma {:induction false} RunBatches(captures: seq<seq<CdxRow>>, dir: string, threads: int)
    ensures var r := RunOf(captures, dir, threads);
      forall i :: 0 <= i < |r.batches| ==> r.batches[i] == if threads > 0 then BatchOf(captures[i], dir) else []
  {
    if captures != [] {
      var init := captures[..|captures| - 1];
      RunBatches(init, dir, threads);
      RunReachesAll(init, dir, threads);
      var rows := captures[|captures| - 1];
      assert forall i :: 0 <= i < |init| ==> captures[i] == init[i];
      if !RunOf(init, dir, threads).crashed && rows == [] {
        assert BatchOf(rows, dir) == [];
      }
    }
  }

  /**
   * The run crashed exactly when the last URL it reached had captures and
   * either a malformed row or a pool size below 1; every URL before that one
   * had only well-formed rows, and none at all when the pool size is below 1.
   */
  lemma {:induction false} RunCrashes(captures: seq<seq<CdxRow>>, dir: string, threads: int)
    ensures var r := RunOf(captures, dir, threads);
      && (forall i :: 0 <= i < |r.batches| - 1 ==> WellFormed(captures[i]) && (threads > 0 || captures[i] == []))
      && (r.crashed <==> r.batches != [] && captures[|r.batches| - 1] != []
                         && (threads <= 0 || !WellFormed(captures[|r.batches| - 1])))
  {
    if captures != [] {
      RunCrashes(captures[..|captures| - 1], dir, threads);
      RunReachesAll(captures[..|captures| - 1], dir, threads);
    }
  }

  /** main's loop over the URLs, proved against RunOf on the index's answers for them. */
  method ProcessUrls(urls: seq<string>, cdx: string -> IndexResponse, dir: string, threads: int)
    returns (batches: seq<seq<Task>>, crashed: bool)
    ensures Run(batches, crashed) == RunOf(CapturesOfAll(cdx, urls), dir, threads)
  {
    ghost var all := CapturesOfAll(cdx, urls);
    batches := [];
    crashed := false;
    var i := 0;
    while i < |urls| && !crashed
      invariant i <= |urls|
      invariant Run(batches, crashed) == RunOf(all[..i], dir, threads)
    {
      assert all[..i + 1][..i] == all[..i];
      var results := CapturesOf(cdx, urls[i]);
      if results == [] {
        batches := batches + [[]];
      } else if threads <= 0 {
        batches := batches + [[]];
        crashed := true;
      } else {
        var futures, unpacked := SubmitTasks(results, dir);
        batches := batches + [futures];
        crashed := !unpacked;
      }
      i := i + 1;
    }
    if crashed {
      CrashedRunStops(all, dir, threads, i);
    } else {
      assert all[..i] == all;
    }
  }

  /** A URL with no capture gets no task in the run: the loop goes on to the next URL. */
  lemma NoCapturesNoTasks(captures: seq<seq<CdxRow>>, dir: string, threads: int, i: nat)
    requires i < |captures| && captures[i] == []
    ensures var r := RunOf(captures, dir, threads); i >= |r.batches| || r.batches[i] == []
  {
    RunBatches(captures, dir, threads);
    assert BatchOf(captures[i], dir) == [];
  }

  /** Well-formed results give exactly one task per row, with that row's capture and the run's directory. */
  lemma OneTaskPerRow(rows: seq<CdxRow>, dir: string)
    requires WellFormed(rows)
    ensures |BatchOf(rows, dir)| == |rows|
    ensures forall j :: 0 <= j < |rows| ==> BatchOf(rows, dir)[j] == Task(rows[j][0], rows[j][1], dir)
    ensures multiset(seq(|rows|, j requires 0 <= j < |rows| => [BatchOf(rows, dir)[j].timestamp, BatchOf(rows, dir)[j].originalUrl])) == multiset(rows)
  {
    var pairs := seq(|rows|, j requires 0 <= j < |rows| => [BatchOf(rows, dir)[j].timestamp, BatchOf(rows, dir)[j].originalUrl]);
    assert pairs == rows by {
      forall j | 0 <= j < |rows| ensures pairs[j] == rows[j] {
        assert |rows[j]| == 2;
        assert rows[j] == [rows[j][0], rows[j][1]];
      }
    }
  }

  /** In one batch of 14-digit (equal-length digit) distinct timestamps, no two downloads write the same path. */
  lemma BatchPathsDistinct(rows: seq<CdxRow>, dir: string)
    requires WellFormed(rows)
    requires forall j :: 0 <= j < |rows| ==> AllDigits(rows[j][0]) && |rows[j][0]| == 14
    requires forall a, b :: 0 <= a < b < |rows| ==> rows[a][0] != rows[b][0]
    ensures var tasks := BatchOf(rows, dir);
      forall a, b :: 0 <= a < b < |tasks| ==>
        DestPath(tasks[a].downloadDir, tasks[a].timestamp, tasks[a].originalUrl)
        != DestPath(tasks[b].downloadDir, tasks[b].timestamp, tasks[b].originalUrl)
  {
    OneTaskPerRow(rows, dir);
    var tasks := BatchOf(rows, dir);
    forall a, b | 0 <= a < b < |tasks|
      ensures DestPath(tasks[a].downloadDir, tasks[a].timestamp, tasks[a].originalUrl)
        != DestPath(tasks[b].downloadDir, tasks[b].timestamp, tasks[b].originalUrl)
    {
      DestPathsDistinct(dir, rows[a][0], rows[a][1], rows[b][0], rows[b][1]);
    }
  }
}
