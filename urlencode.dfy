/**
 * `urllib.parse.quote_plus` and `urllib.parse.urlencode` as both scripts call
 * them (default `safe=''`, UTF-8), together with a decoder that serves as their
 * inverse: a query string built here can be read back into exactly the pairs
 * it was built from.
 */
module UrlEncode {
  import opened Wrappers
  import opened Values

  type Byte = b: int | 0 <= b < 256

  /** The characters quote_plus never escapes: ASCII letters, digits and `_.-~`. */
  predicate IsUnreserved(c: char)
  {
    ('A' <= c <= 'Z') || ('a' <= c <= 'z') || ('0' <= c <= '9') || c == '_' || c == '.' || c == '-' || c == '~'
  }

  /** The characters that can occur in quote_plus output. */
  predicate IsQuotedChar(c: char)
  {
    IsUnreserved(c) || c == '+' || c == '%'
  }

  /** `c.encode('utf-8')` for one Unicode scalar value. */
  function Utf8(c: char): (bs: seq<Byte>)
    ensures 1 <= |bs| <= 4
    ensures |bs| == (if c as int < 0x80 then 1 else if c as int < 0x800 then 2 else if c as int < 0x1_0000 then 3 else 4)
    ensures |bs| == 1 <==> c as int < 0x80
    ensures |bs| == 1 ==> bs[0] == c as int
    ensures |bs| > 1 ==> bs[0] >= 0xC0 && forall i :: 1 <= i < |bs| ==> 0x80 <= bs[i] < 0xC0
  {
    var n := c as int;
    if n < 0x80 then [n]
    else if n < 0x800 then [0xC0 + n / 64, 0x80 + n % 64]
    else if n < 0x1_0000 then [0xE0 + n / 4096, 0x80 + (n / 64) % 64, 0x80 + n % 64]
    else [0xF0 + n / 0x4_0000, 0x80 + (n / 4096) % 64, 0x80 + (n / 64) % 64, 0x80 + n % 64]
  }

  /** An upper-case hexadecimal digit, as quote writes them. */
  function HexDigit(d: nat): (c: char)
    requires d < 16
    ensures IsUnreserved(c)
    ensures ('0' <= c <= '9') || ('A' <= c <= 'F')
    ensures HexValue(c) == Some(d)
  {
    if d < 10 then (d + '0' as int) as char else (d - 10 + 'A' as int) as char
  }

  /** `%XX` for every byte. */
  function PercentBytes(bs: seq<Byte>): (r: string)
    ensures |r| == 3 * |bs|
    ensures forall i :: 0 <= i < |r| ==> IsQuotedChar(r[i]) && !('a' <= r[i] <= 'z')
  {
    if bs == [] then [] else ['%', HexDigit(bs[0] / 16), HexDigit(bs[0] % 16)] + PercentBytes(bs[1..])
  }

  /** Byte `i` of the input is the `i`-th triple of the output: `%`, then its two upper-case hex digits. */
  lemma {:induction false} PercentBytesAt(bs: seq<Byte>, i: nat)
    requires i < |bs|
    ensures 3 * i + 3 <= |PercentBytes(bs)|
    ensures PercentBytes(bs)[3 * i..3 * i + 3] == ['%', HexDigit(bs[i] / 16), HexDigit(bs[i] % 16)]
  {
    if i > 0 {
      PercentBytesAt(bs[1..], i - 1);
      var rest := PercentBytes(bs[1..]);
      assert PercentBytes(bs)[3..] == rest;
      assert PercentBytes(bs)[3 * i..3 * i + 3] == rest[3 * (i - 1)..3 * (i - 1) + 3];
    }
  }

  /** quote_plus of one character: kept, a space turned into `+`, or its UTF-8 bytes as `%XX`. */
  function QuoteChar(c: char): (r: string)
    ensures r != [] && forall i :: 0 <= i < |r| ==> IsQuotedChar(r[i])
    ensures IsUnreserved(c) ==> r == [c]
    ensures c == ' ' ==> r == "+"
    ensures !IsUnreserved(c) && c != ' ' ==>
      r[0] == '%' && |r| == 3 * |Utf8(c)| && forall i :: 0 <= i < |r| ==> !('a' <= r[i] <= 'z')
  {
    if IsUnreserved(c) then [c] else if c == ' ' then "+" else PercentBytes(Utf8(c))
  }

  /** `quote_plus(s)`, character by character. */
  function QuotePlus(s: string): (r: string)
    ensures forall i :: 0 <= i < |r| ==> IsQuotedChar(r[i])
    ensures |r| >= |s|
  {
    if s == [] then [] else QuoteChar(s[0]) + QuotePlus(s[1..])
  }

  /** One `k=v` item of urlencode. */
  function EncodePair(kv: (string, string)): (r: string)
    ensures |r| >= |kv.0| + 1 + |kv.1|
    ensures forall i :: 0 <= i < |r| ==> r[i] != '&'
  {
    QuotedJoinHasNoAmpersand(QuotePlus(kv.0), QuotePlus(kv.1));
    QuotePlus(kv.0) + "=" + QuotePlus(kv.1)
  }

  /** `'&'.join(k + '=' + v ...)`: urlencode of pairs whose values are already strings. */
  function EncodeQuery(pairs: seq<(string, string)>): (q: string)
    ensures q == [] <==> pairs == []
  {
    if pairs == [] then []
    else if |pairs| == 1 then EncodePair(pairs[0])
    else EncodePair(pairs[0]) + "&" + EncodeQuery(pairs[1..])
  }

  /**
   * The `(key, text)` items urlencode emits for one dict entry when `doseq=True`:
   * a list gives one item per element in order, everything else one item `str(v)`.
   */
  function ExpandValue(k: string, v: PyValue): (r: seq<(string, string)>)
    ensures v.PyList? ==> |r| == |v.items| && forall i :: 0 <= i < |r| ==> r[i] == (k, v.items[i])
    ensures !v.PyList? ==> r == [(k, Str(v))]
  {
    match v
    case PyList(items) => seq(|items|, i requires 0 <= i < |items| => (k, items[i]))
    case _ => [(k, Str(v))]
  }

  /** The items urlencode emits for a whole dict when `doseq=True`, in the dict's order. */
  function Expand(params: seq<(string, PyValue)>): (r: seq<(string, string)>)
    ensures (forall i :: 0 <= i < |params| ==> !params[i].1.PyList?) ==> |r| == |params|
  {
    if params == [] then [] else ExpandValue(params[0].0, params[0].1) + Expand(params[1..])
  }

  /** Expanding distributes over concatenation: the dict's order is kept. */
  lemma {:induction false} ExpandAppend(a: seq<(string, PyValue)>, b: seq<(string, PyValue)>)
    ensures Expand(a + b) == Expand(a) + Expand(b)
  {
    if a != [] {
      assert (a + b)[0] == a[0];
      assert (a + b)[1..] == a[1..] + b;
      ExpandAppend(a[1..], b);
    } else {
      assert a + b == b;
    }
  }

  /** quote_plus works character by character, so it distributes over concatenation. */
  lemma {:induction false} QuotePlusAppend(a: string, b: string)
    ensures QuotePlus(a + b) == QuotePlus(a) + QuotePlus(b)
  {
    if a == [] {
      assert a + b == b;
    } else {
      assert (a + b)[0] == a[0];
      assert (a + b)[1..] == a[1..] + b;
      QuotePlusAppend(a[1..], b);
    }
  }

  /** A string of unreserved characters is left as it is. */
  lemma {:induction false} QuotePlusUnreserved(s: string)
    requires forall i :: 0 <= i < |s| ==> IsUnreserved(s[i])
    ensures QuotePlus(s) == s
  {
    if s != [] {
      QuotePlusUnreserved(s[1..]);
    }
  }

  /** `urlencode(params, doseq=True)`. */
  function UrlencodeDoseq(params: seq<(string, PyValue)>): (q: string)
    ensures ParseQuery(q) == Some(Expand(params))
  {
    QueryRoundTrip(Expand(params));
    EncodeQuery(Expand(params))
  }

  // ---------------------------------------------------------------------------
  // Reading a query string back: the inverse that the round-trip lemma uses.

  function HexValue(c: char): Option<nat>
  {
    if '0' <= c <= '9' then Some(c as int - '0' as int)
    else if 'A' <= c <= 'F' then Some(c as int - 'A' as int + 10)
    else if 'a' <= c <= 'f' then Some(c as int - 'a' as int + 10)
    else None
  }

  /** The byte a leading `%XX` stands for. */
  function PercentByte(s: string): (r: Option<Byte>)
    ensures r.Some? ==> |s| >= 3
  {
    if |s| >= 3 && s[0] == '%' then
      match (HexValue(s[1]), HexValue(s[2]))
      case (Some(h), Some(l)) => if h < 16 && l < 16 then Some(h * 16 + l) else None
      case _ => None
    else None
  }

  /** The bytes of `n` leading `%XX` triples. */
  function ReadBytes(s: string, n: nat): (r: Option<seq<Byte>>)
    ensures r.Some? ==> |r.value| == n && |s| >= 3 * n
  {
    if n == 0 then Some([])
    else match PercentByte(s)
      case None => None
      case Some(b) =>
        match ReadBytes(s[3..], n - 1)
        case None => None
        case Some(bs) => Some([b] + bs)
  }

  /** How many bytes a UTF-8 sequence with this lead byte has (0: not a lead byte). */
  function Utf8Length(b: Byte): nat
  {
    if b < 0x80 then 1 else if 0xC0 <= b < 0xE0 then 2 else if 0xE0 <= b < 0xF0 then 3 else if 0xF0 <= b < 0xF8 then 4 else 0
  }

  function ToChar(n: int): Option<char>
  {
    if 0 <= n < 0xD800 || 0xE000 <= n < 0x11_0000 then Some(n as char) else None
  }

  predicate IsContinuation(b: Byte)
  {
    0x80 <= b < 0xC0
  }

  /** The character one UTF-8 sequence encodes. */
  function DecodeUtf8(bs: seq<Byte>): Option<char>
  {
    if |bs| == 1 && bs[0] < 0x80 then ToChar(bs[0])
    else if |bs| == 2 && 0xC0 <= bs[0] < 0xE0 && IsContinuation(bs[1]) then
      ToChar((bs[0] as int - 0xC0) * 64 + (bs[1] as int - 0x80))
    else if |bs| == 3 && 0xE0 <= bs[0] < 0xF0 && IsContinuation(bs[1]) && IsContinuation(bs[2]) then
      ToChar((bs[0] as int - 0xE0) * 4096 + (bs[1] as int - 0x80) * 64 + (bs[2] as int - 0x80))
    else if |bs| == 4 && 0xF0 <= bs[0] < 0xF8 && IsContinuation(bs[1]) && IsContinuation(bs[2]) && IsContinuation(bs[3]) then
      ToChar((bs[0] as int - 0xF0) * 0x4_0000 + (bs[1] as int - 0x80) * 4096 + (bs[2] as int - 0x80) * 64 + (bs[3] as int - 0x80))
    else None
  }

  function Prepend(c: char, r: Option<string>): Option<string>
  {
    match r
    case None => None
    case Some(t) => Some([c] + t)
  }

  /** `unquote_plus` on text that quote_plus could have produced (anything else: None). */
  function UnquotePlus(s: string): Option<string>
    decreases |s|
  {
    if s == [] then Some([])
    else if s[0] == '%' then
      match PercentByte(s)
      case None => None
      case Some(b0) =>
        var n := Utf8Length(b0);
        if n == 0 then None
        else match ReadBytes(s, n)
          case None => None
          case Some(bs) =>
            match DecodeUtf8(bs)
            case None => None
            case Some(c) => Prepend(c, UnquotePlus(s[3 * n..]))
    else if s[0] == '+' then Prepend(' ', UnquotePlus(s[1..]))
    else if IsUnreserved(s[0]) then Prepend(s[0], UnquotePlus(s[1..]))
    else None
  }

  /** `s.split(sep)`. */
  function SplitOn(s: string, sep: char): (parts: seq<string>)
    ensures |parts| >= 1
  {
    if s == [] then [[]]
    else
      var rest := SplitOn(s[1..], sep);
      if s[0] == sep then [[]] + rest else [[s[0]] + rest[0]] + rest[1..]
  }

  /** Reads one `k=v` item. */
  function ParsePair(item: string): Option<(string, string)>
  {
    var kv := SplitOn(item, '=');
    if |kv| != 2 then None
    else match (UnquotePlus(kv[0]), UnquotePlus(kv[1]))
      case (Some(k), Some(v)) => Some((k, v))
      case _ => None
  }

  function ParseItems(items: seq<string>): Option<seq<(string, string)>>
  {
    if items == [] then Some([])
    else match (ParsePair(items[0]), ParseItems(items[1..]))
      case (Some(kv), Some(rest)) => Some([kv] + rest)
      case _ => None
  }

  /** Reads a query string back into its `(key, value)` pairs. */
  function ParseQuery(q: string): Option<seq<(string, string)>>
  {
    if q == [] then Some([]) else ParseItems(SplitOn(q, '&'))
  }

  // ---------------------------------------------------------------------------
  // Round trip.

  lemma HexRoundTrip(d: nat)
    requires d < 16
    ensures HexValue(HexDigit(d)) == Some(d)
  {
  }

  lemma {:induction false} ReadPercentBytes(bs: seq<Byte>, rest: string)
    ensures ReadBytes(PercentBytes(bs) + rest, |bs|) == Some(bs)
  {
    if bs != [] {
      var s := PercentBytes(bs) + rest;
      var hi, lo := bs[0] / 16, bs[0] % 16;
      HexRoundTrip(hi);
      HexRoundTrip(lo);
      assert s[0] == '%' && s[1] == HexDigit(hi) && s[2] == HexDigit(lo);
      assert PercentByte(s) == Some(bs[0]);
      assert s[3..] == PercentBytes(bs[1..]) + rest;
      ReadPercentBytes(bs[1..], rest);
      assert [bs[0]] + bs[1..] == bs;
    }
  }

  lemma Utf8RoundTrip(c: char)
    ensures Utf8Length(Utf8(c)[0]) == |Utf8(c)|
    ensures DecodeUtf8(Utf8(c)) == Some(c)
  {
    var n := c as int;
    if 0x800 <= n < 0x1_0000 {
      assert n / 4096 == (n / 64) / 64;
    } else if n >= 0x1_0000 {
      assert n / 0x4_0000 == ((n / 64) / 64) / 64;
      assert n / 4096 == (n / 64) / 64;
    }
  }

  lemma UnquoteChar(c: char, rest: string)
    ensures UnquotePlus(QuoteChar(c) + rest) == Prepend(c, UnquotePlus(rest))
  {
    var s := QuoteChar(c) + rest;
    if IsUnreserved(c) || c == ' ' {
      assert s[1..] == rest;
    } else {
      var bs := Utf8(c);
      ReadPercentBytes(bs, rest);
      Utf8RoundTrip(c);
      assert s[3 * |bs|..] == rest;
    }
  }

  /** unquote_plus undoes quote_plus. */
  lemma {:induction false} QuotePlusRoundTrip(s: string)
    ensures UnquotePlus(QuotePlus(s)) == Some(s)
  {
    if s != [] {
      UnquoteChar(s[0], QuotePlus(s[1..]));
      QuotePlusRoundTrip(s[1..]);
      assert [s[0]] + s[1..] == s;
    }
  }

  lemma {:induction false} SplitNoSep(a: string, sep: char)
    requires forall i :: 0 <= i < |a| ==> a[i] != sep
    ensures SplitOn(a, sep) == [a]
  {
    if a != [] {
      SplitNoSep(a[1..], sep);
      assert [a[0]] + a[1..] == a;
    }
  }

  lemma {:induction false} SplitAtSep(a: string, sep: char, b: string)
    requires forall i :: 0 <= i < |a| ==> a[i] != sep
    ensures SplitOn(a + [sep] + b, sep) == [a] + SplitOn(b, sep)
  {
    if a == [] {
      assert a + [sep] + b == [sep] + b;
      assert ([sep] + b)[1..] == b;
    } else {
      SplitAtSep(a[1..], sep, b);
      assert (a + [sep] + b)[1..] == a[1..] + [sep] + b;
      assert [a[0]] + a[1..] == a;
    }
  }

  lemma ParseEncodedPair(kv: (string, string))
    ensures ParsePair(EncodePair(kv)) == Some(kv)
  {
    var qk, qv := QuotePlus(kv.0), QuotePlus(kv.1);
    assert EncodePair(kv) == qk + ['='] + qv;
    SplitAtSep(qk, '=', qv);
    SplitNoSep(qv, '=');
    QuotePlusRoundTrip(kv.0);
    QuotePlusRoundTrip(kv.1);
  }

  /** Two quoted texts joined by `=` hold no `&`. */
  lemma QuotedJoinHasNoAmpersand(qk: string, qv: string)
    requires forall i :: 0 <= i < |qk| ==> IsQuotedChar(qk[i])
    requires forall i :: 0 <= i < |qv| ==> IsQuotedChar(qv[i])
    ensures forall i :: 0 <= i < |qk + "=" + qv| ==> (qk + "=" + qv)[i] != '&'
  {
    var e := qk + "=" + qv;
    forall i | 0 <= i < |e| ensures e[i] != '&' {
      if i < |qk| {
        assert e[i] == qk[i];
      } else if i > |qk| {
        assert e[i] == qv[i - |qk| - 1];
      }
    }
  }

  lemma EncodedPairHasNoAmpersand(kv: (string, string))
    ensures forall i :: 0 <= i < |EncodePair(kv)| ==> EncodePair(kv)[i] != '&'
  {
    QuotedJoinHasNoAmpersand(QuotePlus(kv.0), QuotePlus(kv.1));
  }

  /**
   * The query string urlencode builds from `pairs` reads back as exactly
   * `pairs`: same keys, same values, same order, nothing lost to `&` or `=`
   * inside a key or value.
   */
  lemma {:induction false} QueryRoundTrip(pairs: seq<(string, string)>)
    ensures ParseQuery(EncodeQuery(pairs)) == Some(pairs)
  {
    if |pairs| == 1 {
      ParseEncodedPair(pairs[0]);
      var e := EncodePair(pairs[0]);
      EncodedPairHasNoAmpersand(pairs[0]);
      SplitNoSep(e, '&');
      assert [e][0] == e && [e][1..] == [];
      assert ParsePair([e][0]) == Some(pairs[0]) && ParseItems([e][1..]) == Some([]);
      assert [pairs[0]] + [] == pairs;
    } else if |pairs| > 1 {
      ParseEncodedPair(pairs[0]);
      var e := EncodePair(pairs[0]);
      EncodedPairHasNoAmpersand(pairs[0]);
      var rest := EncodeQuery(pairs[1..]);
      SplitAtSep(e, '&', rest);
      QueryRoundTrip(pairs[1..]);
      assert [pairs[0]] + pairs[1..] == pairs;
    }
  }
}
