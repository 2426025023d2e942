# osintarchive, modelled in Dafny

osintarchive is a pair of command-line scripts around the Wayback Machine's
CDX index:

- `osintarchive.py` turns its options into a CDX query and fetches it. A
  fixed base URL, three leading parameters (`url`, `limit`, `fl`) and three
  tables of optional parameters (direct values, boolean flags, repeatable
  lists) go through `urlencode(..., doseq=True)`. An optional API cookie
  becomes a `Cookie` header.
- `download.py` takes URLs from its argument, a file or standard input. For
  each URL it asks the index for every HTTP-200 capture, drops the JSON header
  row and downloads each capture's raw bytes (the `id_` replay URL) into a
  directory. It names each file `{timestamp}_{basename}` and skips captures
  whose Content-Type says HTML.

The model is organised as follows:

- `wrappers.dfy` defines `Option`.
- `values.dfy` holds the Python values the dict can hold: truthiness, and
  `str()` of an int written out as decimal digits.
- `text.dfy` has `str.strip`, ASCII `lower` and substring search.
- `urlencode.dfy` has `quote_plus` over UTF-8 and `urlencode` with and
  without `doseq`. It also has a decoder, used as their partner: every query
  string built here reads back as exactly the pairs it was built from.
- `urlpath.dfy` has `urlparse(...).path`, `posixpath.basename` and
  `posixpath.join`.
- `query_tool.dfy` models `osintarchive.py`. `BuildParams` runs the three
  loops over the tables and is proved equal to the spec function `ParamsOf`.
  The lemmas then state, key by key, what the server receives.
- `downloader.dfy` models `download.py`:
  - the fixed capture query and header-row slicing;
  - the raw URL, the file name and the HTML skip rule;
  - the outcome of one download;
  - `ReadStdinUrls` and `CollectUrls` for URL collection;
  - `SubmitTasks` and `ProcessUrls` for the fan-out, proved against
    `BatchOf` and `RunOf`.

Two facts about the scripts that the model keeps:

- The parameters go out as `url`, `limit`, `fl`, then the direct, flag and
  list entries in table order. For `example.com/* --output text` that is
  `url, limit, fl, output, collapse` (`QueryTool.OutputTextExample`).
- `download.py` uses its positional URL as given and strips only the lines
  it reads from a file or from standard input.

## Model

| member | source | states |
|---|---|---|
| Values.NatToDecimal | osintarchive.py:52 | `str()` of a non-negative int is a non-empty string of digits; it starts with `0` only when it is exactly `0` |
| Values.DecimalRoundTrip | osintarchive.py:52 | reading the decimal text of `n` back gives `n` |
| Values.IntToDecimal | osintarchive.py:52 | `str()` of an int is a `-` sign exactly for negatives, followed by the digits of its magnitude; the only text starting with `0` is `0` itself, and no digit after `-` is a leading `0` |
| Values.Str | osintarchive.py:93 | `str(v)` of a non-list value is empty exactly for the empty string |
| Values.Truthy | osintarchive.py:81 | `if v:` is false exactly for None, `''`, `0`, `False` and `[]` |
| Text.LStrip | download.py:84 | the result is a suffix of the input with no leading whitespace, and only whitespace was removed |
| Text.IsSpace | download.py:84 | `str.isspace()`: among ASCII characters, exactly space, tab, newline, carriage return, vertical tab, form feed and the four separators `\x1c`-`\x1f` are whitespace |
| Text.RStrip | download.py:84 | the result is a prefix of the input with no trailing whitespace, and only whitespace was removed |
| Text.StripShape | download.py:84 | a stripped line neither starts nor ends with whitespace |
| Text.StripEmptyIff | download.py:84 | a line strips to the empty string exactly when it is all whitespace |
| Text.StripIdempotent | download.py:84 | stripping twice is stripping once |
| Text.Strip | download.py:84 | `strip()` never lengthens a line, and leaves a line with no whitespace at either end unchanged |
| Text.Lower | download.py:50 | `lower()` keeps the length, moves each capital `A`-`Z` up 32 code points to its small letter, leaves every other character alone, and leaves no capital |
| Text.LowerIgnoresCase | download.py:50 | two strings that differ only in the case of ASCII letters lower-case to the same string |
| Text.Contains | download.py:50 | `needle in hay` holds when `hay` starts with `needle`, and only when `needle` is no longer than `hay` |
| Text.ContainsIff | download.py:50 | `needle in hay` holds exactly when `needle` starts at some index of `hay` |
| UrlEncode.PercentBytes | osintarchive.py:93 | every byte becomes three characters, none of them a small letter, in the quoted alphabet |
| UrlEncode.HexDigit | osintarchive.py:93 | a hex digit is `0`-`9` or an upper-case `A`-`F`, and reads back as its value |
| UrlEncode.PercentBytesAt | osintarchive.py:93 | byte `i` becomes the `i`-th triple: `%`, then the upper-case hex digits of its high and low halves |
| UrlEncode.Utf8 | osintarchive.py:93 | UTF-8 in its shortest form: 1, 2, 3 or 4 bytes for code points below 0x80, 0x800, 0x10000 and above. A single byte is the code point itself; otherwise there is a lead byte of at least 0xC0 and continuation bytes in 0x80-0xBF |
| UrlEncode.QuoteChar | osintarchive.py:93 | an unreserved character is kept, a space becomes `+`, and any other character becomes `%` escapes, three characters per UTF-8 byte, with no small letter; the output is in the quoted alphabet |
| UrlEncode.QuotePlus | osintarchive.py:93 | the quoted text is no shorter than the input and holds only unreserved characters, `+` and `%` |
| UrlEncode.QuotePlusAppend | osintarchive.py:93 | quote_plus distributes over concatenation |
| UrlEncode.QuotePlusUnreserved | osintarchive.py:93 | letters, digits and `_.-~` are left as they are |
| UrlEncode.EncodeQuery | osintarchive.py:93 | the query string is empty exactly when there are no pairs |
| UrlEncode.EncodePair | osintarchive.py:93 | one `key=value` item is at least as long as key, `=` and value together, and holds no `&` |
| UrlEncode.ExpandValue | osintarchive.py:93 | with `doseq`, a list value gives one item per element in order under its key; any other value gives the one item `str(value)` |
| UrlEncode.ExpandAppend | osintarchive.py:93 | expansion keeps the dict's order: it distributes over concatenation |
| UrlEncode.Expand | osintarchive.py:93 | with no list values, urlencode emits one item per dict entry |
| UrlEncode.UrlencodeDoseq | osintarchive.py:93 | `urlencode(params, doseq=True)` reads back as exactly the items the dict expands to |
| UrlEncode.QuotePlusRoundTrip | osintarchive.py:93 | unquoting a quote_plus result gives back the original text, for any Unicode string |
| UrlEncode.QueryRoundTrip | osintarchive.py:93 | parsing an encoded query gives back exactly the pairs, in order: the `&`-joined `k=v` items are unambiguous |
| QueryTool.AppendAction | osintarchive.py:35-38 | argparse `append`: with no occurrence the default stays; otherwise the value is the default followed by the occurrences in order |
| QueryTool.CollapseStartsWithUrlkey | osintarchive.py:37 | `collapse` is `["urlkey"]` followed by the user's values |
| QueryTool.FilterOnlyWhenGiven | osintarchive.py:35-36 | `filter` is None unless given, and then exactly the values given |
| QueryTool.Defaults | osintarchive.py:20-23 | with only the dork, `limit` is 10000, `fl` is `original` and `collapse` is `["urlkey"]` |
| QueryTool.DirectKeysRenamed | osintarchive.py:56-65 | every direct option's key is its own name except `from_date` (sent as `from`) and `to_date` (sent as `to`) |
| QueryTool.RowKeys | osintarchive.py:56-87 | the 17 table rows carry the keys after `url`, `limit` and `fl`, in table order |
| QueryTool.AllKeysDistinct | osintarchive.py:50-87 | no key appears twice across the leading parameters and the three tables |
| QueryTool.EntriesAvoidKey | osintarchive.py:66-91 | rows whose key differs from `k` never add an entry under `k` |
| QueryTool.EntriesAppend | osintarchive.py:66-91 | the entries of two runs of rows are the entries of each, one after the other |
| QueryTool.EntryOf | osintarchive.py:66-91 | one row adds at most one entry, under its own key and never None; a flag row adds `"true"` |
| QueryTool.Entries | osintarchive.py:66-91 | the table loops add at most one entry per row |
| QueryTool.EntriesNeverNone | osintarchive.py:66-91 | no entry the table loops add holds None: a row whose value is None is skipped |
| QueryTool.ParamsOf | osintarchive.py:50-91 | the dict starts with the three leading entries and adds at most one entry per table row |
| QueryTool.Initial | osintarchive.py:50-54 | the dict starts with the keys `url`, `limit`, `fl`, whose values are never None and never lists |
| QueryTool.GetAttr | osintarchive.py:66-91 | `getattr(args, name)`: exactly the `store_true` flags hold booleans; only `filter` and `collapse` can hold lists, and only `offset`, `page` and `pageSize` integers |
| QueryTool.EntriesNone | osintarchive.py:66-91 | rows that each add nothing add nothing together |
| QueryTool.EntriesOne | osintarchive.py:66-91 | a single row adds exactly its own entry |
| QueryTool.EntriesQuietSlice | osintarchive.py:66-91 | a slice of rows that each add nothing adds nothing |
| QueryTool.EntriesSecond | osintarchive.py:66-91 | of two rows where the first adds nothing, the second one's entry is all that is added |
| QueryTool.EntriesOfTwo | osintarchive.py:66-91 | of the seventeen rows, when only rows 1 and 16 add anything, the dict gets those two entries in that order |
| QueryTool.Put | osintarchive.py:69 | `params[key] = value` with a new key appends the entry at the end |
| QueryTool.PutExisting | osintarchive.py:69 | `params[key] = value` with a key the dict holds replaces that entry's value in place |
| QueryTool.RowsShape | osintarchive.py:56-87 | the rows are the direct table, then the flag table, then the list table |
| QueryTool.RowsFresh | osintarchive.py:50-87 | the tables' keys are all different, and none is `url`, `limit` or `fl` |
| QueryTool.RowKeyIsNew | osintarchive.py:66-91 | when a row runs, its key is not yet in the dict |
| QueryTool.RowStep | osintarchive.py:66-91 | one loop step: `params[key] = value` on the dict built so far appends the row's entry, if the row applies |
| QueryTool.BuildParams | osintarchive.py:50-91 | the three loops over the tables build exactly the dict `ParamsOf` describes |
| QueryTool.ValuesOfAppend | osintarchive.py:93 | the values under a key in two runs of items are those of each, one after the other |
| QueryTool.ValuesOfExpandValue | osintarchive.py:93 | an entry sends its texts under its own key and nothing under other keys |
| QueryTool.SplitAtRow | osintarchive.py:66-91 | the dict is the leading entries, the rows before row `n`, row `n`'s entry and the rows after |
| QueryTool.EntriesSplitAt | osintarchive.py:66-91 | the entries of the rows are those before row `n`, row `n`'s own and those after it |
| QueryTool.OtherRowsAvoidKey | osintarchive.py:66-91 | with fresh keys, nothing but row `n` adds an entry under row `n`'s key |
| QueryTool.OnlyEntryWithKey | osintarchive.py:93 | of four runs of entries, only the one holding a key sends anything under it |
| QueryTool.KeyOnlyInRow | osintarchive.py:66-93 | everything sent under a row's key comes from that row's entry |
| QueryTool.FreshRowSent | osintarchive.py:66-93 | with fresh keys, under a row's key the query carries exactly what that row contributes |
| QueryTool.RowSent | osintarchive.py:66-93 | under the key of each table row the query carries exactly what that row contributes |
| QueryTool.FixedParamsFirst | osintarchive.py:50-54 | the query always starts with `url`, `limit` and `fl`, in that order |
| QueryTool.DefaultLimitAndFields | osintarchive.py:20-23 | with no options the query starts `url=<dork>`, `limit=10000`, `fl=original` |
| QueryTool.DirectOptionSent | osintarchive.py:66-69 | a direct option is sent, once and as `str(value)`, exactly when it is not None |
| QueryTool.StringOptionSent | osintarchive.py:66-69 | a direct option holding an optional string sends that string, once, exactly when it is given |
| QueryTool.DatesRenamed | osintarchive.py:62-63 | `--from-date` goes out under `from` and `--to-date` under `to`, exactly when given |
| QueryTool.DateAttrNamesNotSent | osintarchive.py:62-63 | the keys `from_date` and `to_date` never occur in the query |
| QueryTool.NameNotSent | osintarchive.py:50-91 | a key outside the fixed parameters and the tables never occurs in the query |
| QueryTool.FlagsAreBools | osintarchive.py:27-44 | every flag attribute is a bool (`store_true` defaults to False) |
| QueryTool.FlagSent | osintarchive.py:80-82 | a flag sends exactly one `true` when set and nothing when unset; `false` is never sent |
| QueryTool.ListsAreListsOrNone | osintarchive.py:35-38 | the list attributes are lists or None |
| QueryTool.ListOptionSent | osintarchive.py:88-93 | a list option sends one item per element in order, and nothing when absent |
| QueryTool.ListMappingRows | osintarchive.py:84-87 | the list table is `filter`, then `collapse` |
| QueryTool.ListValueSent | osintarchive.py:88-91 | a list option holding an optional list sends its items in order, and nothing when it is None |
| QueryTool.FiltersSent | osintarchive.py:35-36 | the `filter` items are exactly the `--filter` values given, in order, and none without the option |
| QueryTool.CollapseSent | osintarchive.py:37 | `collapse=urlkey` always goes out first, followed by the user's `--collapse` values in order |
| QueryTool.ParamKeysDistinct | osintarchive.py:50-91 | with fresh row keys, no key occurs twice among the dict's entries at any step of the loops |
| QueryTool.DictKeysDistinct | osintarchive.py:50-91 | the finished dict holds no key twice |
| QueryTool.QueryReadsBack | osintarchive.py:93 | the query string reads back as exactly the items the dict expands to |
| QueryTool.PrepareRequest | osintarchive.py:93-100 | the URL is the base URL, `?` and the encoded query. There is at most one header: `Cookie` with the cookie's value, present exactly when the cookie is a non-empty string |
| QueryTool.ExpandInitial | osintarchive.py:50-54 | the three leading parameters expand to `url`, the decimal `limit` and `fl` |
| QueryTool.OutputTextQuietRows | osintarchive.py:56-91 | for `example.com/* --output text` every row except `output` and `collapse` adds nothing |
| QueryTool.OutputTextDirectNone | osintarchive.py:66-69 | for that example every direct option but `output` is None |
| QueryTool.OutputTextFlagsUnset | osintarchive.py:80-82 | for that example no flag is set |
| QueryTool.OutputTextSentRows | osintarchive.py:56-91 | for that example the `output` row adds `output=text` and the `collapse` row adds `["urlkey"]` |
| QueryTool.OutputTextParams | osintarchive.py:50-91 | for `example.com/* --output text` the dict is the three leading entries, then `output`, then `collapse` |
| QueryTool.OutputTextTail | osintarchive.py:93 | `output=text` and the one-element `collapse` list expand to two items |
| QueryTool.OutputTextExample | osintarchive.py:50-93 | `example.com/* --output text` sends exactly `url`, `limit=10000`, `fl=original`, `output=text`, `collapse=urlkey`, in that order |
| UrlPath.Find | download.py:40 | the first index of a character, or None when it does not occur |
| UrlPath.RFind | download.py:40 | the last index of a character, or None when it does not occur |
| UrlPath.PathPart | download.py:40 | the path is the prefix of the text before the first `?` or `#`: it holds neither, and it ends at the end of the text or at a `?` or `#` |
| UrlPath.UrlParse | download.py:40 | the path component contains no `?` and no `#`; UrlParseOfShape states which path a URL of the usual shape has |
| UrlPath.SplitSchemeParts | download.py:40 | the scheme step of urlsplit: the rest is the whole URL with no scheme, or what follows a `:` that closes a lower-cased scheme starting with a letter |
| UrlPath.SkipNetlocSkips | download.py:40 | the netloc step of urlsplit: without a leading `//` nothing is skipped; with one, the netloc is skipped up to the first `/`, `?` or `#`, none of which occurs in it |
| UrlPath.CutParams | download.py:40 | `_splitparams`: the path is cut, if at all, at a `;` with no `/` after it, and every `;` kept before the cut has a `/` after it |
| UrlPath.ParamsCut | download.py:40 | `;params` are split off by `_splitparams` exactly when the scheme uses them and the path holds a `;`; otherwise the path is kept whole |
| UrlPath.SchemeOfShape | download.py:40 | a scheme of letters followed by `:` is found and lower-cased, and what follows the `:` is kept |
| UrlPath.NetlocOfShape | download.py:40 | after `//`, a host free of `/?#` is skipped up to the path, query or fragment |
| UrlPath.PathPartOfShape | download.py:40 | a path free of `?#` followed by nothing, a query or a fragment is the path part |
| UrlPath.UrlParseOfShape | download.py:40 | for `scheme://host` + path + query-or-fragment, with a letter scheme, a host free of `/?#` and a path that is empty or starts with `/` and has no `?#;`, the parsed path is exactly that path |
| UrlPath.BareHostPath | download.py:40 | `urlparse('http://example.com/').path` is `/` |
| UrlPath.Basename | download.py:40 | the basename is the suffix after the last `/` (all of the path when there is none) and contains no `/` |
| UrlPath.BasenameEmptyIff | download.py:40-41 | the basename is empty exactly for an empty path or one ending in `/` |
| UrlPath.BasenameOfLast | download.py:40 | the basename of a path ending in `/name`, with no `/` in `name`, is `name` |
| UrlPath.PathJoin | download.py:44 | `os.path.join(a, b)` ends with `b`. A `b` starting with `/` replaces `a`. Otherwise the result starts with `a`, and adds exactly one `/` before `b` unless `a` is empty or already ends in `/` |
| UrlPath.PathJoinInjective | download.py:44 | in one directory, different names that do not start with `/` give different paths |
| Downloader.CaptureQueryReadsBack | download.py:15-22 | the capture query carries the URL untouched, then `output=json`, `fl=timestamp,original` and `filter=statuscode:200`, in that order |
| Downloader.CaptureQueryParams | download.py:15-20 | the capture query's dict has four distinct keys, `url` first with the looked-up URL |
| Downloader.CaptureQueryString | download.py:21 | the query string starts with `url=`, the quoted URL and `&` |
| Downloader.CaptureQueryUrl | download.py:21-22 | the request URL starts with the CDX endpoint and `?` |
| Downloader.CaptureQueryUrlReadsBack | download.py:15-22 | what follows the endpoint and `?` in the request URL reads back as the URL, `output=json`, `fl=timestamp,original` and `filter=statuscode:200`, in that order |
| Downloader.StripHeader | download.py:30 | all rows after the header row: one fewer than the data when there are at least two, otherwise none |
| Downloader.QueryResults | download.py:26-33 | a failed request gives no capture; otherwise the header row is dropped and the rest kept in order |
| Downloader.RawCaptureUrl | download.py:36 | the URL is the replay prefix, the timestamp and `id_/`, followed by the original URL, with nothing in between: prefix, suffix and total length fix it |
| Downloader.RawCaptureUrlInjective | download.py:36 | for digit timestamps, different captures have different raw URLs |
| Downloader.NameFor | download.py:40-42 | the file name starts with `timestamp_` and never ends in `_` |
| Downloader.Filename | download.py:40-42 | the file name for a capture starts with `timestamp_` and never ends in `_` |
| Downloader.NameCases | download.py:40-42 | an empty basename gives `timestamp_file`; a basename ending in `_` gets `file` appended; any other is kept; the name is never empty |
| Downloader.FilenameCases | download.py:40-42 | the same three cases for the basename of the URL's path |
| Downloader.DirectoryUrlFilename | download.py:40-42 | a URL whose path is empty or ends in `/` is saved as `timestamp_file` |
| Downloader.BareHostFilename | download.py:40-42 | `http://example.com/` is saved as `{timestamp}_file` |
| Downloader.FilenameOfShape | download.py:40-42 | a URL of the usual shape whose path ends in `/name` (not ending in `_`) is saved as `{timestamp}_name`, whatever the host, the directories and any query or fragment |
| Downloader.NamesDistinct | download.py:40 | different timestamps of one length give different names, whatever the basenames |
| Downloader.FilenamesDistinct | download.py:40 | different timestamps of one length give different file names, whatever the originals |
| Downloader.DestPath | download.py:44 | the destination path ends with the file name and, for a timestamp not starting with `/`, starts with the download directory |
| Downloader.DestPathsDistinct | download.py:40-44 | different digit timestamps of one length give different destination paths in one directory |
| Downloader.SkipsCaptureIff | download.py:49-50 | a capture is skipped exactly when `text/html`, in any ASCII letter case, occurs in its Content-Type |
| Downloader.MissingContentTypeNotSkipped | download.py:49-50 | a missing Content-Type (`''`) never causes a skip |
| Downloader.SkipsCapture | download.py:50 | a capture is skipped exactly when `text/html` starts at some index of the lower-cased Content-Type |
| Downloader.SkipsCaptureIgnoresCase | download.py:50 | Content-Types that differ only in ASCII letter case are skipped alike |
| Downloader.CapitalisedHtmlSkipped | download.py:50 | `Text/HTML; charset=UTF-8` is skipped |
| Downloader.DownloadOutcome | download.py:38-63 | a file is saved only when the directory exists, the probe answered and the fetch succeeded, and then at the destination path; an HTML skip needs an answered probe. For URLs that urlparse rejects, see Left out |
| Downloader.SavedIff | download.py:38-63 | a file is written exactly when the directory is created, the probe succeeds without HTML and the fetch succeeds. It goes to the destination path. This holds for original URLs that urlparse accepts |
| Downloader.HtmlNeverSaved | download.py:47-52 | a capture whose Content-Type has `text/html` is skipped, whatever the fetch would give |
| Downloader.NotFoundIff | download.py:57-59 | "not found" is reported exactly for a 404 on the probe, or on the fetch after a passing probe |
| Downloader.StrippedLinesClean | download.py:84 | every collected line is non-empty and already stripped |
| Downloader.StrippedLinesAppend | download.py:84 | collection keeps line order: it distributes over concatenation |
| Downloader.StrippedLine | download.py:84 | a line is taken, stripped, exactly when it is not all whitespace |
| Downloader.StrippedLines | download.py:84 | `[line.strip() for line in f if line.strip()]` has no more entries than lines, none of them empty |
| Downloader.ReadStdinUrls | download.py:93-96 | the stdin loop collects exactly the stripped non-blank lines, in order |
| Downloader.CollectUrls | download.py:77-96 | priority is the argument (as given), else the file, else stdin. An unreadable file or a terminal stdin ends the run. Every collected URL is non-empty |
| Downloader.FirstMalformed | download.py:113 | the index of the first row that is not a pair; every row before it is a pair |
| Downloader.BatchOf | download.py:113-116 | one task per well-formed leading row, carrying that row's timestamp and URL and the run's directory |
| Downloader.SubmitTasks | download.py:113-116 | the submission loop submits the tasks `BatchOf` describes, and returns normally exactly when every row is a pair |
| Downloader.CrashedRunStops | download.py:102-116 | after a malformed row or a pool size below 1, no further URL is processed |
| Downloader.RunReachesAll | download.py:102-116 | unless the run crashes, every URL is processed |
| Downloader.RunBatches | download.py:102-116 | each processed URL gets the batch of its own captures (empty when it has none). With a pool size below 1 no task is submitted |
| Downloader.RunCrashes | download.py:102-116 | the run ends early exactly when the last URL processed had captures and either a malformed row or a pool size below 1. Every earlier URL had only pairs, and none at all when the pool size is below 1 |
| Downloader.RunOf | download.py:102-116 | the run processes at most one batch per URL |
| Downloader.ProcessUrls | download.py:102-116 | the loop over the URLs, given `--threads`, produces exactly the run `RunOf` describes |
| Downloader.OneTaskPerRow | download.py:104-116 | for well-formed results there is exactly one task per row, in row order. The multiset of `(timestamp, original)` pairs equals the rows |
| Downloader.NoCapturesNoTasks | download.py:102-107 | in the run, a URL with no capture is either not reached or gets an empty batch: no task is submitted for it |
| Downloader.HeaderOnlyGivesNothing | download.py:30 | data with no row besides the header gives no capture |
| Downloader.BatchPathsDistinct | download.py:113-116 | within one batch of distinct 14-digit timestamps, no two downloads write the same path |

## Left out

- HTTP: `urlopen`, the HEAD probe and `urlretrieve` are parameters (`IndexResponse`, `Probe`, `Fetch`). The server, redirects, and partial files after a failed transfer are not modelled.
- `ThreadPoolExecutor` and `as_completed`: the tasks of a batch are a sequence. Completion order and the limit of `--threads` workers running at once are not modelled. A pool size below 1 is modelled: the pool raises ValueError and the run ends. Downloads never raise out of their worker, so the `future.result()` handler has no effect in the model.
- The file system: `os.makedirs` is a boolean parameter. Reading `--url-file` is a parameter giving its lines or `Unreadable`. `sys.stdin` and `isatty()` are parameters.
- argparse: `choices` validation, `type=int` coercion and error exits. The model starts from the parsed namespace `Options`.
- `json.loads` and UTF-8 decoding of responses: the model takes the parsed row array, as rows of strings. A row that is a JSON string of two characters would unpack in Python; this is not modelled.
- All `print` output, including the response body `osintarchive.py` prints.
- The early return on an empty URL list (download.py:98-100) only prints. `ProcessUrls` on no URLs does nothing either.
- Text.Lower: only ASCII letters are lower-cased, whereas Python's `lower()` covers all of Unicode. The `text/html` test depends only on ASCII letters, but a non-ASCII character whose lower-case form is ASCII is not modelled.
- UrlPath.UrlParse: does not model urlsplit's removal of leading C0 control characters and spaces, of tab and newline characters anywhere, the IPv6 checks on the netloc (unmatched `[` or `]`, invalid bracketed host), or the NFKC check of a non-ASCII netloc. Each of those checks raises ValueError in Python; the model parses every URL.
- Downloader.DownloadOutcome: a capture whose original URL urlparse rejects (for example `http://[::1/x`) raises ValueError at download.py:40. The source catches it at download.py:62-63 and saves nothing, while the model goes on and can return `Saved`. `SavedIff` holds only for URLs that urlparse accepts.
- Literal query strings: no escaped query text is worked out as a string literal. `QueryTool.OutputTextExample` states the example's pairs, and quote_plus is stated per character (`UrlEncode.QuoteChar`, `UrlEncode.PercentBytesAt`).
