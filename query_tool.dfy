/**
 * The query tool (osintarchive.py): turns its parsed command line into the
 * CDX search URL. `params` is a dict the script fills in place, first with
 * url/limit/fl, then from three tables: options copied when present (some
 * renamed), flags sent as "true" when set, and list options sent once per
 * element. The dict is then urlencoded with `doseq=True` and appended to the
 * endpoint after `?`. The HTTP request itself is not modelled; the request
 * value built here is what would be sent.
 */
module QueryTool {
  import opened Wrappers
  import opened Values
  import opened UrlEncode

  const BaseUrl: string := "http://web.archive.org/cdx/search/cdx"

  // argparse defaults
  const DefaultFl: string := "original"
  const DefaultLimit: int := 10000
  const DefaultCollapse: seq<string> := ["urlkey"]

  /** The namespace argparse returns (already type-coerced and choice-checked). */
  datatype Options = Options(
    dork: string,
    matchType: Option<string>,
    output: Option<string>,
    fl: string,
    limit: int,
    offset: Option<int>,
    page: Option<int>,
    pageSize: Option<int>,
    showNumPages: bool,
    showPagedIndex: bool,
    fromDate: Option<string>,
    toDate: Option<string>,
    filter: Option<seq<string>>,
    collapse: Option<seq<string>>,
    fastLatest: bool,
    showResumeKey: bool,
    resumeKey: Option<string>,
    showDupeCount: bool,
    showSkipCount: bool,
    lastSkipTimestamp: bool,
    cookie: Option<string>)

  /**
   * argparse's `action="append"`: with no occurrence the attribute keeps its
   * default; otherwise the occurrences are appended to a copy of the default
   * (an absent default counting as the empty list).
   */
  function AppendAction(default: Option<seq<string>>, occurrences: seq<string>): (r: Option<seq<string>>)
    ensures occurrences == [] ==> r == default
    ensures occurrences != [] ==> r.Some? && |r.value| >= |occurrences| && r.value[|r.value| - |occurrences|..] == occurrences
    ensures occurrences != [] && default.Some? ==> |r.value| == |default.value| + |occurrences| && r.value[..|default.value|] == default.value
  {
    if occurrences == [] then default
    else
      var start := if default.Some? then default.value else [];
      Some(start + occurrences)
  }

  /** `--collapse` always starts with "urlkey" and keeps the user's values after it, in order. */
  lemma CollapseStartsWithUrlkey(occurrences: seq<string>)
    ensures AppendAction(Some(DefaultCollapse), occurrences) == Some(["urlkey"] + occurrences)
  {
    if occurrences == [] {
      assert ["urlkey"] + occurrences == ["urlkey"];
    }
  }

  /** `--filter` stays None when not given and otherwise holds exactly the given values. */
  lemma FilterOnlyWhenGiven(occurrences: seq<string>)
    ensures AppendAction(None, occurrences) == if occurrences == [] then None else Some(occurrences)
  {
  }

  /** The namespace for `osintarchive.py DORK` with no other argument. */
  function Defaults(dork: string): (o: Options)
    ensures o.dork == dork && o.limit == 10000 && o.fl == "original" && o.collapse == Some(["urlkey"])
  {
    Options(dork, None, None, DefaultFl, DefaultLimit, None, None, None, false, false, None, None,
            AppendAction(None, []), AppendAction(Some(DefaultCollapse), []), false, false, None,
            false, false, false, None)
  }

  /** The attributes the three tables read with `getattr(args, ...)`. */
  datatype Attr =
    | MatchType | Output | Offset | Page | PageSize | FromDate | ToDate | ResumeKey
    | ShowNumPages | ShowPagedIndex | FastLatest | ShowResumeKey | ShowDupeCount | ShowSkipCount | LastSkipTimestamp
    | Filter | Collapse

  /** The attribute's Python name. */
  function AttrName(a: Attr): string
  {
    match a
    case MatchType => "matchType"
    case Output => "output"
    case Offset => "offset"
    case Page => "page"
    case PageSize => "pageSize"
    case FromDate => "from_date"
    case ToDate => "to_date"
    case ResumeKey => "resumeKey"
    case ShowNumPages => "showNumPages"
    case ShowPagedIndex => "showPagedIndex"
    case FastLatest => "fastLatest"
    case ShowResumeKey => "showResumeKey"
    case ShowDupeCount => "showDupeCount"
    case ShowSkipCount => "showSkipCount"
    case LastSkipTimestamp => "lastSkipTimestamp"
    case Filter => "filter"
    case Collapse => "collapse"
  }

  function StrOrNone(x: Option<string>): PyValue
  {
    if x.Some? then PyStr(x.value) else PyNone
  }

  function IntOrNone(x: Option<int>): PyValue
  {
    if x.Some? then PyInt(x.value) else PyNone
  }

  function ListOrNone(x: Option<seq<string>>): PyValue
  {
    if x.Some? then PyList(x.value) else PyNone
  }

  /** `getattr(args, name)`. */
  function GetAttr(o: Options, a: Attr): (r: PyValue)
    ensures r.PyBool? <==> a.ShowNumPages? || a.ShowPagedIndex? || a.FastLatest? || a.ShowResumeKey? ||
                           a.ShowDupeCount? || a.ShowSkipCount? || a.LastSkipTimestamp?
    ensures r.PyList? ==> a.Filter? || a.Collapse?
    ensures r.PyInt? ==> a.Offset? || a.Page? || a.PageSize?
  {
    match a
    case MatchType => StrOrNone(o.matchType)
    case Output => StrOrNone(o.output)
    case Offset => IntOrNone(o.offset)
    case Page => IntOrNone(o.page)
    case PageSize => IntOrNone(o.pageSize)
    case FromDate => StrOrNone(o.fromDate)
    case ToDate => StrOrNone(o.toDate)
    case ResumeKey => StrOrNone(o.resumeKey)
    case ShowNumPages => PyBool(o.showNumPages)
    case ShowPagedIndex => PyBool(o.showPagedIndex)
    case FastLatest => PyBool(o.fastLatest)
    case ShowResumeKey => PyBool(o.showResumeKey)
    case ShowDupeCount => PyBool(o.showDupeCount)
    case ShowSkipCount => PyBool(o.showSkipCount)
    case LastSkipTimestamp => PyBool(o.lastSkipTimestamp)
    case Filter => ListOrNone(o.filter)
    case Collapse => ListOrNone(o.collapse)
  }

  type Table = seq<(Attr, string)>

  /** Options copied when not None, two of them under a new key. */
  const DirectMapping: Table := [
    (MatchType, "matchType"), (Output, "output"), (Offset, "offset"), (Page, "page"),
    (PageSize, "pageSize"), (FromDate, "from"), (ToDate, "to"), (ResumeKey, "resumeKey")]

  /** Flags sent as "true" when set. */
  const BoolMapping: Table := [
    (ShowNumPages, "showNumPages"), (ShowPagedIndex, "showPagedIndex"), (FastLatest, "fastLatest"),
    (ShowResumeKey, "showResumeKey"), (ShowDupeCount, "showDupeCount"), (ShowSkipCount, "showSkipCount"),
    (LastSkipTimestamp, "lastSkipTimestamp")]

  /** List options, copied when not None and sent once per element. */
  const ListMapping: Table := [(Filter, "filter"), (Collapse, "collapse")]

  /** The keys the tool can send, in the order the script inserts them. */
  const AllKeys: seq<string> := [
    "url", "limit", "fl",
    "matchType", "output", "offset", "page", "pageSize", "from", "to", "resumeKey",
    "showNumPages", "showPagedIndex", "fastLatest", "showResumeKey", "showDupeCount", "showSkipCount", "lastSkipTimestamp",
    "filter", "collapse"]

  /** Every direct option keeps its Python name as its key, except from_date and to_date. */
  lemma DirectKeysRenamed()
    ensures forall i :: 0 <= i < |DirectMapping| && DirectMapping[i].0 !in {FromDate, ToDate} ==>
      DirectMapping[i].1 == AttrName(DirectMapping[i].0)
    ensures DirectMapping[5] == (FromDate, "from") && DirectMapping[6] == (ToDate, "to")
  {
  }

  /** How a table row decides whether it adds an entry. */
  datatype Rule =
    | IfNotNone   // `if value is not None: params[key] = value`
    | IfTruthy    // `if getattr(args, attr): params[key] = "true"`

  datatype Row = Row(attr: Attr, key: string, rule: Rule)

  function Tagged(t: Table, rule: Rule): (r: seq<Row>)
    ensures |r| == |t| && forall i :: 0 <= i < |t| ==> r[i] == Row(t[i].0, t[i].1, rule)
  {
    seq(|t|, i requires 0 <= i < |t| => Row(t[i].0, t[i].1, rule))
  }

  /** The rows of the three loops, in the order the script runs them. */
  const Rows: seq<Row> := Tagged(DirectMapping, IfNotNone) + Tagged(BoolMapping, IfTruthy) + Tagged(ListMapping, IfNotNone)

  lemma RowKeys()
    ensures |Rows| == |AllKeys| - 3 == 17
    ensures forall n :: 0 <= n < |Rows| ==> Rows[n].key == AllKeys[3 + n]
  {
  }

  /** No key is used twice. */
  lemma AllKeysDistinct()
    ensures forall a, b :: 0 <= a < b < |AllKeys| ==> AllKeys[a] != AllKeys[b]
  {
  }

  // ---------------------------------------------------------------------------
  // The dict, as the ordered list of its entries.

  type Params = seq<(string, PyValue)>

  function Keys(d: Params): (ks: seq<string>)
    ensures |ks| == |d| && forall j :: 0 <= j < |d| ==> ks[j] == d[j].0
  {
    seq(|d|, j requires 0 <= j < |d| => d[j].0)
  }

  /** `d[k] = v`: an existing key keeps its place and takes the new value; a new key goes last. */
  function Put(d: Params, k: string, v: PyValue): (r: Params)
    ensures k !in Keys(d) ==> r == d + [(k, v)]
  {
    if d == [] then [(k, v)]
    else if d[0].0 == k then [(k, v)] + d[1..]
    else
      assert k !in Keys(d) ==> k !in Keys(d[1..]);
      [d[0]] + Put(d[1..], k, v)
  }

  /** Setting a key the dict holds (first at index `i`) replaces that entry's value in place. */
  lemma {:induction false} PutExisting(d: Params, k: string, v: PyValue, i: nat)
    requires i < |d| && d[i].0 == k && forall j :: 0 <= j < i ==> d[j].0 != k
    ensures Put(d, k, v) == d[i := (k, v)]
  {
    if i == 0 {
      assert [(k, v)] + d[1..] == d[0 := (k, v)];
    } else {
      PutExisting(d[1..], k, v, i - 1);
      assert [d[0]] + d[1..][i - 1 := (k, v)] == d[i := (k, v)];
    }
  }

  /** What one row adds: at most one entry, under the row's key and never None; a flag row adds "true". */
  function EntryOf(o: Options, row: Row): (e: Params)
    ensures e == [] || (|e| == 1 && e[0].0 == row.key && e[0].1 != PyNone)
    ensures e != [] && row.rule.IfTruthy? ==> e[0].1 == PyStr("true")
  {
    var v := GetAttr(o, row.attr);
    match row.rule
    case IfNotNone => if v != PyNone then [(row.key, v)] else []
    case IfTruthy => if Truthy(v) then [(row.key, PyStr("true"))] else []
  }

  /** The entries a run of table rows adds, in row order. */
  function Entries(o: Options, rows: seq<Row>): (e: Params)
    ensures |e| <= |rows|
  {
    if rows == [] then [] else Entries(o, rows[..|rows| - 1]) + EntryOf(o, rows[|rows| - 1])
  }

  /** The loops never store None: a row whose value is None adds nothing. */
  lemma {:induction false} EntriesNeverNone(o: Options, rows: seq<Row>)
    ensures forall i :: 0 <= i < |Entries(o, rows)| ==> Entries(o, rows)[i].1 != PyNone
  {
    if rows != [] {
      EntriesNeverNone(o, rows[..|rows| - 1]);
    }
  }

  function Initial(o: Options): (d: Params)
    ensures Keys(d) == ["url", "limit", "fl"]
    ensures forall i :: 0 <= i < |d| ==> d[i].1 != PyNone && !d[i].1.PyList?
  {
    [("url", PyStr(o.dork)), ("limit", PyInt(o.limit)), ("fl", PyStr(o.fl))]
  }

  /** The dict after the three loops. */
  function ParamsOf(o: Options): (d: Params)
    ensures |Initial(o)| <= |d| <= |Initial(o)| + |Rows|
    ensures Initial(o) <= d
  {
    Initial(o) + Entries(o, Rows)
  }

  lemma KeysAppend(a: Params, b: Params)
    ensures Keys(a + b) == Keys(a) + Keys(b)
  {
  }

  /** Rows that do not use key `k` add no entry under `k`. */
  lemma {:induction false} EntriesAvoidKey(o: Options, rows: seq<Row>, k: string)
    requires forall m :: 0 <= m < |rows| ==> rows[m].key != k
    ensures k !in Keys(Entries(o, rows))
  {
    if rows != [] {
      EntriesAvoidKey(o, rows[..|rows| - 1], k);
      KeysAppend(Entries(o, rows[..|rows| - 1]), EntryOf(o, rows[|rows| - 1]));
    }
  }

  /** Dropping the last element of `a + b`, for a non-empty `b`, drops the last element of `b`. */
  lemma InitOfAppend(a: seq<Row>, b: seq<Row>)
    requires b != []
    ensures (a + b)[..|a + b| - 1] == a + b[..|b| - 1] && (a + b)[|a + b| - 1] == b[|b| - 1]
  {
    assert (a + b)[..|a + b| - 1] == a + b[..|b| - 1];
  }

  lemma {:induction false} EntriesAppend(o: Options, a: seq<Row>, b: seq<Row>)
    ensures Entries(o, a + b) == Entries(o, a) + Entries(o, b)
  {
    if b == [] {
      assert a + b == a;
    } else {
      InitOfAppend(a, b);
      EntriesAppend(o, a, b[..|b| - 1]);
    }
  }

  /** The keys of a run of rows are all different, and none is `url`, `limit` or `fl`. */
  predicate FreshKeys(rows: seq<Row>)
  {
    && (forall a, b :: 0 <= a < b < |rows| ==> rows[a].key != rows[b].key)
    && (forall m :: 0 <= m < |rows| ==> rows[m].key !in ["url", "limit", "fl"])
  }

  /** The three tables, one after the other. */
  lemma RowsShape()
    ensures |Rows| == 17
    ensures forall i :: 0 <= i < |DirectMapping| ==> Rows[i] == Row(DirectMapping[i].0, DirectMapping[i].1, IfNotNone)
    ensures forall i :: 0 <= i < |BoolMapping| ==> Rows[8 + i] == Row(BoolMapping[i].0, BoolMapping[i].1, IfTruthy)
    ensures forall i :: 0 <= i < |ListMapping| ==> Rows[15 + i] == Row(ListMapping[i].0, ListMapping[i].1, IfNotNone)
  {
  }

  /** The script's tables use every key once, and never one of the leading three. */
  lemma RowsFresh()
    ensures FreshKeys(Rows)
  {
    RowKeys();
    AllKeysDistinct();
  }

  /** Rows with fresh keys: the key of row `n` is not yet in the dict when row `n` runs. */
  lemma RowKeyIsNew(o: Options, rows: seq<Row>, n: nat)
    requires FreshKeys(rows) && n < |rows|
    ensures rows[n].key !in Keys(Initial(o) + Entries(o, rows[..n]))
  {
    EntriesAvoidKey(o, rows[..n], rows[n].key);
    KeysAppend(Initial(o), Entries(o, rows[..n]));
  }

  /** One loop step: row `n` sets its entry if it applies, and the dict has grown by that entry. */
  lemma RowStep(o: Options, rows: seq<Row>, params: Params, n: nat)
    requires FreshKeys(rows) && n < |rows| && params == Initial(o) + Entries(o, rows[..n])
    ensures var v := GetAttr(o, rows[n].attr);
      rows[n].rule == IfNotNone ==> (if v != PyNone then Put(params, rows[n].key, v) else params) == Initial(o) + Entries(o, rows[..n + 1])
    ensures rows[n].rule == IfTruthy ==>
      (if Truthy(GetAttr(o, rows[n].attr)) then Put(params, rows[n].key, PyStr("true")) else params) == Initial(o) + Entries(o, rows[..n + 1])
  {
    RowKeyIsNew(o, rows, n);
    var prefix := rows[..n + 1];
    assert prefix[..|prefix| - 1] == rows[..n] && prefix[|prefix| - 1] == rows[n];
    assert Entries(o, prefix) == Entries(o, rows[..n]) + EntryOf(o, rows[n]);
    assert Initial(o) + Entries(o, prefix) == params + EntryOf(o, rows[n]);
  }

  /**
   * The three loops of the script, each setting `params[key]` for the rows
   * of its table that apply. The result is the dict `ParamsOf` describes:
   * no key is ever overwritten, so every entry is appended in row order.
   */
  method BuildParams(o: Options) returns (params: Params)
    ensures params == ParamsOf(o)
  {
    RowsShape();
    RowsFresh();
    params := [("url", PyStr(o.dork)), ("limit", PyInt(o.limit)), ("fl", PyStr(o.fl))];
    for i := 0 to |DirectMapping|
      invariant params == Initial(o) + Entries(o, Rows[..i])
    {
      var (attr, key) := DirectMapping[i];
      var value := GetAttr(o, attr);
      RowStep(o, Rows, params, i);
      if value != PyNone {
        params := Put(params, key, value);
      }
    }
    for i := 0 to |BoolMapping|
      invariant params == Initial(o) + Entries(o, Rows[..8 + i])
    {
      var (attr, key) := BoolMapping[i];
      RowStep(o, Rows, params, 8 + i);
      if Truthy(GetAttr(o, attr)) {
        params := Put(params, key, PyStr("true"));
      }
    }
    for i := 0 to |ListMapping|
      invariant params == Initial(o) + Entries(o, Rows[..15 + i])
    {
      var (attr, key) := ListMapping[i];
      var value := GetAttr(o, attr);
      RowStep(o, Rows, params, 15 + i);
      if value != PyNone {
        params := Put(params, key, value);
      }
    }
    assert Rows[..17] == Rows;
  }

  // ---------------------------------------------------------------------------
  // What the server receives.

  /** The `(key, text)` items of the query, in order: `urlencode(params, doseq=True)` before quoting. */
  function Pairs(o: Options): seq<(string, string)>
  {
    Expand(ParamsOf(o))
  }

  function QueryString(o: Options): string
  {
    UrlencodeDoseq(ParamsOf(o))
  }

  /** The texts sent under key `k`, in order. */
  function ValuesOf(pairs: seq<(string, string)>, k: string): seq<string>
  {
    if pairs == [] then [] else (if pairs[0].0 == k then [pairs[0].1] else []) + ValuesOf(pairs[1..], k)
  }

  lemma {:induction false} ValuesOfAppend(a: seq<(string, string)>, b: seq<(string, string)>, k: string)
    ensures ValuesOf(a + b, k) == ValuesOf(a, k) + ValuesOf(b, k)
  {
    if a == [] {
      assert a + b == b;
    } else {
      var head := if a[0].0 == k then [a[0].1] else [];
      assert (a + b)[0] == a[0];
      assert (a + b)[1..] == a[1..] + b;
      ValuesOfAppend(a[1..], b, k);
      assert ValuesOf(a + b, k) == head + (ValuesOf(a[1..], k) + ValuesOf(b, k));
      assert ValuesOf(a, k) == head + ValuesOf(a[1..], k);
    }
  }

  /** The texts one dict entry contributes. */
  function ValueTexts(v: PyValue): seq<string>
  {
    match v
    case PyNone => []
    case PyList(items) => items
    case _ => [Str(v)]
  }

  lemma {:induction false} ValuesOfExpandValue(k: string, v: PyValue, k': string)
    ensures ValuesOf(ExpandValue(k, v), k') == if k == k' then ValueTexts(v) + (if v.PyNone? then [Str(v)] else []) else []
    decreases if v.PyList? then |v.items| else 0
  {
    if v.PyList? && v.items != [] {
      var e := ExpandValue(k, v);
      var rest := PyList(v.items[1..]);
      ValuesOfExpandValue(k, rest, k');
      assert e[1..] == ExpandValue(k, rest);
    }
  }

  /** A key the dict does not hold is not sent. */
  lemma {:induction false} ValuesOfAbsent(ps: Params, k: string)
    requires k !in Keys(ps)
    ensures ValuesOf(Expand(ps), k) == []
  {
    if ps != [] {
      assert Keys(ps[1..]) == Keys(ps)[1..];
      ValuesOfAbsent(ps[1..], k);
      ValuesOfExpandValue(ps[0].0, ps[0].1, k);
      ValuesOfAppend(ExpandValue(ps[0].0, ps[0].1), Expand(ps[1..]), k);
    }
  }

  /** What row `row` sends under its key. */
  function RowTexts(o: Options, row: Row): seq<string>
  {
    var v := GetAttr(o, row.attr);
    match row.rule
    case IfNotNone => ValueTexts(v)
    case IfTruthy => if Truthy(v) then ["true"] else []
  }

  lemma EntryTexts(o: Options, row: Row)
    ensures ValuesOf(Expand(EntryOf(o, row)), row.key) == RowTexts(o, row)
  {
    var e := EntryOf(o, row);
    if e != [] {
      assert e[1..] == [];
      ValuesOfExpandValue(e[0].0, e[0].1, row.key);
      ValuesOfAppend(ExpandValue(e[0].0, e[0].1), [], row.key);
    }
  }

  lemma ValuesOfFour(a: Params, b: Params, c: Params, d: Params, k: string)
    ensures ValuesOf(Expand(a + b + c + d), k) ==
      ValuesOf(Expand(a), k) + ValuesOf(Expand(b), k) + ValuesOf(Expand(c), k) + ValuesOf(Expand(d), k)
  {
    ExpandAppend(a + b + c, d);
    ExpandAppend(a + b, c);
    ExpandAppend(a, b);
    ValuesOfAppend(Expand(a) + Expand(b) + Expand(c), Expand(d), k);
    ValuesOfAppend(Expand(a) + Expand(b), Expand(c), k);
    ValuesOfAppend(Expand(a), Expand(b), k);
  }

  /** Of four runs of entries, only the one that holds `k` sends anything under `k`. */
  lemma OnlyEntryWithKey(a: Params, b: Params, c: Params, d: Params, k: string)
    requires k !in Keys(a) && k !in Keys(b) && k !in Keys(d)
    ensures ValuesOf(Expand(a + b + c + d), k) == ValuesOf(Expand(c), k)
  {
    ValuesOfFour(a, b, c, d, k);
    ValuesOfAbsent(a, k);
    ValuesOfAbsent(b, k);
    ValuesOfAbsent(d, k);
    assert ValuesOf(Expand(a + b + c + d), k) == [] + [] + ValuesOf(Expand(c), k) + [];
  }

  /** The entries of a run of rows split around row `n`: those before it, its own, those after. */
  lemma SplitAtRow(o: Options, rows: seq<Row>, n: nat)
    requires n < |rows|
    ensures Initial(o) + Entries(o, rows) == Initial(o) + Entries(o, rows[..n]) + EntryOf(o, rows[n]) + Entries(o, rows[n + 1..])
  {
    EntriesSplitAt(o, rows, n);
  }

  /** The entries of a run of rows are those before row `n`, row `n`'s own and those after it. */
  lemma EntriesSplitAt(o: Options, rows: seq<Row>, n: nat)
    requires n < |rows|
    ensures Entries(o, rows) == Entries(o, rows[..n]) + EntryOf(o, rows[n]) + Entries(o, rows[n + 1..])
  {
    var before, after := rows[..n], rows[n + 1..];
    assert rows == before + [rows[n]] + after;
    EntriesAppend(o, before + [rows[n]], after);
    EntriesAppend(o, before, [rows[n]]);
    assert [rows[n]][..0] == [];
  }

  /** With fresh keys, rows other than row `n` add nothing under its key. */
  lemma OtherRowsAvoidKey(o: Options, rows: seq<Row>, n: nat)
    requires FreshKeys(rows) && n < |rows|
    ensures rows[n].key !in Keys(Initial(o))
    ensures rows[n].key !in Keys(Entries(o, rows[..n]))
    ensures rows[n].key !in Keys(Entries(o, rows[n + 1..]))
  {
    var k, after := rows[n].key, rows[n + 1..];
    EntriesAvoidKey(o, rows[..n], k);
    forall m | 0 <= m < |after| ensures after[m].key != k {
      assert after[m] == rows[n + 1 + m];
    }
    EntriesAvoidKey(o, after, k);
  }

  /** With fresh keys, everything the query carries under the key of row `n` comes from row `n`'s entry. */
  lemma KeyOnlyInRow(o: Options, rows: seq<Row>, n: nat)
    requires FreshKeys(rows) && n < |rows|
    ensures ValuesOf(Expand(Initial(o) + Entries(o, rows)), rows[n].key) == ValuesOf(Expand(EntryOf(o, rows[n])), rows[n].key)
  {
    SplitAtRow(o, rows, n);
    OtherRowsAvoidKey(o, rows, n);
    OnlyEntryWithKey(Initial(o), Entries(o, rows[..n]), EntryOf(o, rows[n]), Entries(o, rows[n + 1..]), rows[n].key);
  }

  /** With fresh keys, under the key of row `n` the query carries exactly what that row contributes. */
  lemma FreshRowSent(o: Options, rows: seq<Row>, n: nat)
    requires FreshKeys(rows) && n < |rows|
    ensures ValuesOf(Expand(Initial(o) + Entries(o, rows)), rows[n].key) == RowTexts(o, rows[n])
  {
    KeyOnlyInRow(o, rows, n);
    EntryTexts(o, rows[n]);
  }

  /** Under the key of each table row the query carries exactly what that row contributes, and nothing else. */
  lemma RowSent(o: Options, n: nat)
    requires n < |Rows|
    ensures ValuesOf(Pairs(o), Rows[n].key) == RowTexts(o, Rows[n])
  {
    RowsFresh();
    FreshRowSent(o, Rows, n);
  }

  lemma ExpandInitial(o: Options)
    ensures Expand(Initial(o)) == [("url", o.dork), ("limit", IntToDecimal(o.limit)), ("fl", o.fl)]
  {
    var p0, p1, p2 := ("url", PyStr(o.dork)), ("limit", PyInt(o.limit)), ("fl", PyStr(o.fl));
    assert Expand([p2]) == [("fl", o.fl)] by {
      assert [p2][1..] == [];
    }
    assert Expand([p1, p2]) == [("limit", IntToDecimal(o.limit)), ("fl", o.fl)] by {
      assert [p1, p2][1..] == [p2];
    }
    assert [p0, p1, p2][1..] == [p1, p2];
  }

  /** The query starts with url, limit and fl, in that order, whatever else is given. */
  lemma FixedParamsFirst(o: Options)
    ensures |Pairs(o)| >= 3
    ensures Pairs(o)[..3] == [("url", o.dork), ("limit", IntToDecimal(o.limit)), ("fl", o.fl)]
  {
    ExpandAppend(Initial(o), Entries(o, Rows));
    ExpandInitial(o);
  }

  lemma DefaultLimitText()
    ensures IntToDecimal(DefaultLimit) == "10000"
  {
    assert NatToDecimal(1) == "1";
    assert NatToDecimal(10) == "10";
    assert NatToDecimal(100) == "100";
    assert NatToDecimal(1000) == "1000";
    assert NatToDecimal(10000) == "10000";
  }

  /** Without flags the query asks for 10000 results of the `original` field. */
  lemma DefaultLimitAndFields(dork: string)
    ensures |Pairs(Defaults(dork))| >= 3
    ensures Pairs(Defaults(dork))[..3] == [("url", dork), ("limit", "10000"), ("fl", "original")]
  {
    FixedParamsFirst(Defaults(dork));
    DefaultLimitText();
  }

  /** A direct option is sent, once and as `str(value)`, exactly when it is not None. */
  lemma DirectOptionSent(o: Options, i: nat)
    requires i < |DirectMapping|
    ensures var v := GetAttr(o, DirectMapping[i].0);
      ValuesOf(Pairs(o), DirectMapping[i].1) == if v == PyNone then [] else [Str(v)]
  {
    RowSent(o, i);
    RowsShape();
  }

  /** A direct option holding an optional string sends that string, once, exactly when it is given. */
  lemma StringOptionSent(o: Options, i: nat, v: Option<string>)
    requires i < |DirectMapping| && GetAttr(o, DirectMapping[i].0) == StrOrNone(v)
    ensures ValuesOf(Pairs(o), DirectMapping[i].1) == if v.Some? then [v.value] else []
  {
    DirectOptionSent(o, i);
  }

  /** `--from-date` goes out under `from` and `--to-date` under `to`. */
  lemma DatesRenamed(o: Options)
    ensures ValuesOf(Pairs(o), "from") == if o.fromDate.Some? then [o.fromDate.value] else []
    ensures ValuesOf(Pairs(o), "to") == if o.toDate.Some? then [o.toDate.value] else []
  {
    DirectKeysRenamed();
    StringOptionSent(o, 5, o.fromDate);
    StringOptionSent(o, 6, o.toDate);
  }

  /** The Python attribute names `from_date` and `to_date` are never sent as keys. */
  lemma DateAttrNamesNotSent(o: Options)
    ensures ValuesOf(Pairs(o), "from_date") == [] && ValuesOf(Pairs(o), "to_date") == []
  {
    assert "from_date" !in AllKeys && "to_date" !in AllKeys;
    NameNotSent(o, "from_date");
    NameNotSent(o, "to_date");
  }

  /** A name that is not one of the keys is never sent. */
  lemma NameNotSent(o: Options, k: string)
    requires k !in AllKeys
    ensures ValuesOf(Pairs(o), k) == []
  {
    RowKeys();
    EntriesAvoidKey(o, Rows, k);
    KeysAppend(Initial(o), Entries(o, Rows));
    ValuesOfAbsent(ParamsOf(o), k);
  }

  /** The flag attributes are always booleans: `store_true` defaults to False. */
  lemma FlagsAreBools(o: Options)
    ensures forall i :: 0 <= i < |BoolMapping| ==> GetAttr(o, BoolMapping[i].0).PyBool?
  {
  }

  /** A flag sends exactly one "true" when set and nothing when unset; "false" is never sent for it. */
  lemma FlagSent(o: Options, i: nat)
    requires i < |BoolMapping|
    ensures var isSet := GetAttr(o, BoolMapping[i].0) == PyBool(true);
      ValuesOf(Pairs(o), BoolMapping[i].1) == if isSet then ["true"] else []
    ensures "false" !in ValuesOf(Pairs(o), BoolMapping[i].1)
  {
    RowSent(o, 8 + i);
    RowsShape();
    FlagsAreBools(o);
  }

  /** A list option sends one item per element, in order; an absent one sends none. */
  lemma ListOptionSent(o: Options, i: nat)
    requires i < |ListMapping|
    ensures var v := GetAttr(o, ListMapping[i].0);
      ValuesOf(Pairs(o), ListMapping[i].1) == if v.PyList? then v.items else []
  {
    RowSent(o, 15 + i);
    RowsShape();
    ListsAreListsOrNone(o);
  }

  /** The list attributes are lists or None. */
  lemma ListsAreListsOrNone(o: Options)
    ensures forall i :: 0 <= i < |ListMapping| ==> GetAttr(o, ListMapping[i].0).PyList? || GetAttr(o, ListMapping[i].0).PyNone?
  {
  }

  /** The list table: `filter`, then `collapse`. */
  lemma ListMappingRows()
    ensures |ListMapping| == 2 && ListMapping[0] == (Filter, "filter") && ListMapping[1] == (Collapse, "collapse")
  {
  }

  /** A list option holding an optional list sends its items, in order, and nothing when it is None. */
  lemma ListValueSent(o: Options, i: nat, l: Option<seq<string>>)
    requires i < |ListMapping| && GetAttr(o, ListMapping[i].0) == ListOrNone(l)
    ensures ValuesOf(Pairs(o), ListMapping[i].1) == if l.Some? then l.value else []
  {
    ListOptionSent(o, i);
  }

  /** `--filter` values go out one per item in the order given; with no `--filter` none go out. */
  lemma FiltersSent(o: Options, occurrences: seq<string>)
    requires o.filter == AppendAction(None, occurrences)
    ensures ValuesOf(Pairs(o), "filter") == occurrences
  {
    ListMappingRows();
    ListValueSent(o, 0, o.filter);
    FilterOnlyWhenGiven(occurrences);
  }

  /** `collapse=urlkey` is always sent first, followed by the user's `--collapse` values in order. */
  lemma CollapseSent(o: Options, occurrences: seq<string>)
    requires o.collapse == AppendAction(Some(DefaultCollapse), occurrences)
    ensures ValuesOf(Pairs(o), "collapse") == ["urlkey"] + occurrences
  {
    CollapseStartsWithUrlkey(occurrences);
    ListMappingRows();
    ListValueSent(o, 1, o.collapse);
  }

  /** With fresh row keys, no key occurs twice at any step of the loops. */
  lemma {:induction false} ParamKeysDistinct(o: Options, rows: seq<Row>, n: nat)
    requires FreshKeys(rows) && n <= |rows|
    ensures var ks := Keys(Initial(o) + Entries(o, rows[..n])); forall a, b :: 0 <= a < b < |ks| ==> ks[a] != ks[b]
  {
    if n > 0 {
      ParamKeysDistinct(o, rows, n - 1);
      RowKeyIsNew(o, rows, n - 1);
      assert rows[..n][..n - 1] == rows[..n - 1];
      var p, e := Initial(o) + Entries(o, rows[..n - 1]), EntryOf(o, rows[n - 1]);
      assert Initial(o) + Entries(o, rows[..n]) == p + e;
      KeysAppend(p, e);
      var before, ks := Keys(p), Keys(p + e);
      assert |e| <= 1 && forall j :: 0 <= j < |e| ==> e[j].0 == rows[n - 1].key;
      forall a, b | 0 <= a < b < |ks| ensures ks[a] != ks[b] {
        if b >= |p| {
          assert ks[b] == rows[n - 1].key && ks[a] == before[a];
        }
      }
    }
  }

  /** `params` is a dict: no key occurs twice in it. */
  lemma DictKeysDistinct(o: Options)
    ensures var ks := Keys(ParamsOf(o)); forall a, b :: 0 <= a < b < |ks| ==> ks[a] != ks[b]
  {
    RowsFresh();
    ParamKeysDistinct(o, Rows, |Rows|);
    assert Rows[..|Rows|] == Rows;
    assert ParamsOf(o) == Initial(o) + Entries(o, Rows[..|Rows|]);
  }

  /** The query string reads back as exactly the items the dict expands to. */
  lemma QueryReadsBack(o: Options)
    ensures ParseQuery(QueryString(o)) == Some(Pairs(o))
  {
    QueryRoundTrip(Pairs(o));
  }

  // ---------------------------------------------------------------------------
  // The request.

  datatype Request = Request(url: string, headers: seq<(string, string)>)

  /**
   * `url = base_url + "?" + urlencode(params, doseq=True)`; a `Cookie`
   * header is added when `--cookie` is a non-empty string.
   */
  method PrepareRequest(o: Options) returns (req: Request)
    ensures req.url == BaseUrl + "?" + UrlencodeDoseq(ParamsOf(o))
    ensures |req.headers| <= 1
    ensures req.headers != [] <==> o.cookie.Some? && o.cookie.value != ""
    ensures forall h :: h in req.headers ==> h == ("Cookie", o.cookie.value)
  {
    var params := BuildParams(o);
    var queryString := UrlencodeDoseq(params);
    req := Request(BaseUrl + "?" + queryString, []);
    if Truthy(StrOrNone(o.cookie)) {
      req := req.(headers := req.headers + [("Cookie", o.cookie.value)]);
    }
  }
  // `osintarchive.py 'example.com/*' --output text`: the defaults plus `output`,
  // sent after url, limit and fl (the script's insertion order) and before
  // collapse.
  function OutputTextOptions(): Options
  {
    Defaults("example.com/*").(output := Some("text"))
  }

  /** Rows that all add nothing add nothing together. */
  lemma {:induction false} EntriesNone(o: Options, rows: seq<Row>)
    requires forall m :: 0 <= m < |rows| ==> EntryOf(o, rows[m]) == []
    ensures Entries(o, rows) == []
  {
    if rows != [] {
      EntriesNone(o, rows[..|rows| - 1]);
    }
  }

  /** The entries of a single row are its own. */
  lemma EntriesOne(o: Options, row: Row)
    ensures Entries(o, [row]) == EntryOf(o, row)
  {
    assert [row][..0] == [];
  }

  /** In the example every direct row but `output` sees None, and every flag is unset. */
  lemma OutputTextQuietRows()
    ensures forall m :: 0 <= m < |Rows| && m != 1 && m != 16 ==> EntryOf(OutputTextOptions(), Rows[m]) == []
  {
    RowsShape();
    OutputTextDirectNone();
    OutputTextFlagsUnset();
    var o := OutputTextOptions();
    assert GetAttr(o, ListMapping[0].0) == PyNone;
  }

  /** In the example every direct option but `output` is None. */
  lemma OutputTextDirectNone()
    ensures forall i :: 0 <= i < |DirectMapping| && i != 1 ==> GetAttr(OutputTextOptions(), DirectMapping[i].0) == PyNone
  {
  }

  /** In the example no flag is set. */
  lemma OutputTextFlagsUnset()
    ensures forall i :: 0 <= i < |BoolMapping| ==> GetAttr(OutputTextOptions(), BoolMapping[i].0) == PyBool(false)
  {
  }

  /** In the example the `output` row and the `collapse` row each add their entry. */
  lemma OutputTextSentRows()
    ensures EntryOf(OutputTextOptions(), Rows[1]) == [("output", PyStr("text"))]
    ensures EntryOf(OutputTextOptions(), Rows[16]) == [("collapse", PyList(["urlkey"]))]
  {
    RowsShape();
  }

  /** A slice of rows that all add nothing adds nothing. */
  lemma EntriesQuietSlice(o: Options, rows: seq<Row>, i: nat, j: nat)
    requires i <= j <= |rows|
    requires forall m :: i <= m < j ==> EntryOf(o, rows[m]) == []
    ensures Entries(o, rows[i..j]) == []
  {
    assert forall k :: 0 <= k < j - i ==> rows[i..j][k] == rows[i + k];
    EntriesNone(o, rows[i..j]);
  }

  /** Two rows of which the first adds nothing give the second one's entry. */
  lemma EntriesSecond(o: Options, rows: seq<Row>)
    requires |rows| == 2 && EntryOf(o, rows[0]) == []
    ensures Entries(o, rows) == EntryOf(o, rows[1])
  {
    EntriesOne(o, rows[0]);
    assert rows[..1] == [rows[0]];
  }

  /** Seventeen rows of which only rows 1 and 16 add anything give those two entries, in order. */
  lemma EntriesOfTwo(o: Options, rows: seq<Row>)
    requires |rows| == 17
    requires forall m :: 0 <= m < |rows| && m != 1 && m != 16 ==> EntryOf(o, rows[m]) == []
    ensures Entries(o, rows) == EntryOf(o, rows[1]) + EntryOf(o, rows[16])
  {
    var head, c, d := rows[..2], rows[2..16], rows[16..];
    assert rows == head + c + d;
    EntriesAppend(o, head + c, d);
    EntriesAppend(o, head, c);
    EntriesQuietSlice(o, rows, 2, 16);
    EntriesSecond(o, head);
    assert d == [rows[16]];
    EntriesOne(o, rows[16]);
  }

  /** The dict for the example: the three leading entries, then `output`, then `collapse`. */
  lemma OutputTextParams()
    ensures ParamsOf(OutputTextOptions()) ==
      Initial(OutputTextOptions()) + [("output", PyStr("text")), ("collapse", PyList(["urlkey"]))]
  {
    RowKeys();
    OutputTextQuietRows();
    EntriesOfTwo(OutputTextOptions(), Rows);
    OutputTextSentRows();
  }

  lemma OutputTextTail()
    ensures Expand([("output", PyStr("text")), ("collapse", PyList(["urlkey"]))]) == [("output", "text"), ("collapse", "urlkey")]
  {
    var tail := [("output", PyStr("text")), ("collapse", PyList(["urlkey"]))];
    assert tail[1..][1..] == [];
    assert ExpandValue("collapse", PyList(["urlkey"])) == [("collapse", "urlkey")];
  }

  /** The example's query items, in the order the script inserts them. */
  lemma OutputTextExample()
    ensures Pairs(OutputTextOptions()) ==
      [("url", "example.com/*"), ("limit", "10000"), ("fl", "original"), ("output", "text"), ("collapse", "urlkey")]
  {
    var o := OutputTextOptions();
    var tail := [("output", PyStr("text")), ("collapse", PyList(["urlkey"]))];
    OutputTextParams();
    ExpandAppend(Initial(o), tail);
    ExpandInitial(o);
    DefaultLimitText();
    OutputTextTail();
    assert o.dork == "example.com/*" && o.limit == DefaultLimit && o.fl == "original";
  }
}
