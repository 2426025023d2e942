/**
 * The Python values both scripts hand to `urllib.parse.urlencode` or test
 * with `if v:`: None, str, int, bool and lists of str.
 */
module Values {

  datatype PyValue =
    | PyNone
    | PyStr(s: string)
    | PyInt(i: int)
    | PyBool(b: bool)
    | PyList(items: seq<string>)

  /** Python's truth test `if v:`. */
  predicate Truthy(v: PyValue)
    ensures !Truthy(v) <==> v in {PyNone, PyStr(""), PyInt(0), PyBool(false), PyList([])}
  {
    match v
    case PyNone => false
    case PyStr(s) => s != ""
    case PyInt(i) => i != 0
    case PyBool(b) => b
    case PyList(items) => items != []
  }

  predicate IsDigit(c: char)
  {
    '0' <= c <= '9'
  }

  function DigitChar(d: nat): (c: char)
    requires d < 10
    ensures IsDigit(c) && c as int - '0' as int == d
  {
    (d + '0' as int) as char
  }

  /** The decimal digits of `n`, most significant first, as `str(n)` writes them. */
  function NatToDecimal(n: nat): (r: string)
    ensures r != []
    ensures forall i :: 0 <= i < |r| ==> IsDigit(r[i])
    ensures r[0] == '0' ==> n == 0
    ensures r[0] == '0' ==> r == "0"
  {
    if n < 10 then [DigitChar(n)] else NatToDecimal(n / 10) + [DigitChar(n % 10)]
  }

  function DigitValue(c: char): nat
    requires IsDigit(c)
  {
    c as int - '0' as int
  }

  /** The number a string of decimal digits denotes. */
  function DecimalValue(s: string): nat
    requires forall i :: 0 <= i < |s| ==> IsDigit(s[i])
  {
    if s == [] then 0 else DecimalValue(s[..|s| - 1]) * 10 + DigitValue(s[|s| - 1])
  }

  /** Reading back the digits `str(n)` writes gives `n`. */
  lemma {:induction false} DecimalRoundTrip(n: nat)
    ensures DecimalValue(NatToDecimal(n)) == n
  {
    if n >= 10 {
      DecimalRoundTrip(n / 10);
      var s := NatToDecimal(n);
      assert s[..|s| - 1] == NatToDecimal(n / 10);
    }
  }

  /** `str(i)` for a Python int: an optional minus sign, then the digits. */
  function IntToDecimal(i: int): (r: string)
    ensures r != []
    ensures i >= 0 ==> (forall k :: 0 <= k < |r| ==> IsDigit(r[k])) && DecimalValue(r) == i
    ensures i < 0 ==> r[0] == '-' && (forall k :: 1 <= k < |r| ==> IsDigit(r[k])) && DecimalValue(r[1..]) == -i
    ensures i >= 0 && r[0] == '0' ==> i == 0
    ensures r[0] == '0' ==> r == "0"
    ensures i < 0 ==> |r| >= 2 && r[1] != '0'
  {
    if i < 0 then
      var d := NatToDecimal(-i);
      DecimalRoundTrip(-i);
      assert ("-" + d)[1..] == d;
      "-" + d
    else
      DecimalRoundTrip(i);
      NatToDecimal(i)
  }

  /**
   * `str(v)` for the values that urlencode turns into text one at a time
   * (lists are expanded element by element before this is reached).
   */
  function Str(v: PyValue): (r: string)
    requires !v.PyList?
    ensures r == [] <==> v == PyStr("")
  {
    match v
    case PyNone => "None"
    case PyStr(s) => s
    case PyInt(i) => IntToDecimal(i)
    case PyBool(b) => if b then "True" else "False"
  }
}
