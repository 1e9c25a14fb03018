/**
  Loosely typed values, as the JSON decoder hands candidates over from the
  generative-text collaborator, and the Python conversions the normalizer
  applies to them (`str`, `int`, `float`, `list`, truthiness, `dict.get`).
*/
module Values {
  import opened Options
  import Text

  /** A decoded JSON value. A dict keeps its keys in insertion order, as Python's does. */
  datatype Value =
    | VNull
    | VBool(b: bool)
    | VInt(i: int)
    | VFloat(x: real)
    | VStr(s: string)
    | VList(items: seq<Value>)
    | VDict(fields: seq<(string, Value)>)

  type Dict = seq<(string, Value)>

  /**
    Python's `float(text)` and `str(x)` for a float. Their digit-level
    behaviour is not part of this model; a caller supplies them.
  */
  datatype FloatText = FloatText(parse: string -> Option<real>, show: real -> string)

  /**
    The rendering of `x` reads back as `x` and is not empty, as `str` of a
    finite float is for `float`. It is a property of one value: a sum of
    reals need not be a float, so it is asked of the sums that are rendered.
  */
  predicate RoundTrips(ft: FloatText, x: real) {
    ft.parse(ft.show(x)) == Some(x) && ft.show(x) != ""
  }

  function Keys(d: Dict): set<string> {
    set i | 0 <= i < |d| :: d[i].0
  }

  lemma KeysCons(x: (string, Value), d: Dict)
    ensures Keys([x] + d) == {x.0} + Keys(d)
  {
    var e := [x] + d;
    forall k | k in Keys(d) ensures k in Keys(e) {
      var i :| 0 <= i < |d| && d[i].0 == k;
      assert e[i + 1] == d[i];
    }
    assert e[0] == x;
  }

  /** `d.get(k)`: the value stored under `k`. */
  function Get(d: Dict, k: string): (r: Option<Value>)
    ensures r.Some? <==> k in Keys(d)
  {
    if |d| == 0 then None
    else if d[0].0 == k then Some(d[0].1)
    else Get(d[1..], k)
  }

  /** The first entry with key `k` decides `d.get(k)`. */
  lemma {:induction false} GetAt(d: Dict, k: string, i: nat)
    requires i < |d| && d[i].0 == k
    requires forall j :: 0 <= j < i ==> d[j].0 != k
    ensures Get(d, k) == Some(d[i].1)
  {
    if i > 0 {
      GetAt(d[1..], k, i - 1);
    }
  }

  /** `d.get(k, default)`. */
  function GetOr(d: Dict, k: string, default: Value): Value {
    Get(d, k).GetOr(default)
  }

  /** `d[k] = v`: overwrite the entry in place, or add it at the end. */
  function SetKey(d: Dict, k: string, v: Value): (r: Dict)
    ensures Keys(r) == Keys(d) + {k}
    ensures Get(r, k) == Some(v)
    ensures forall k' :: k' != k ==> Get(r, k') == Get(d, k')
  {
    if |d| == 0 then
      KeysCons((k, v), d);
      assert [(k, v)] + d == [(k, v)];
      [(k, v)]
    else if d[0].0 == k then
      KeysCons(d[0], d[1..]);
      KeysCons((k, v), d[1..]);
      assert d == [d[0]] + d[1..];
      [(k, v)] + d[1..]
    else
      var rest := SetKey(d[1..], k, v);
      KeysCons(d[0], d[1..]);
      KeysCons(d[0], rest);
      assert d == [d[0]] + d[1..];
      [d[0]] + rest
  }

  /** Python truthiness: `None`, `False`, zero, and empty strings and containers are false. */
  predicate Truthy(v: Value) {
    match v
    case VNull => false
    case VBool(b) => b
    case VInt(i) => i != 0
    case VFloat(x) => x != 0.0
    case VStr(s) => s != ""
    case VList(items) => items != []
    case VDict(fields) => fields != []
  }

  function DigitChar(d: nat): char
    requires d < 10
  {
    "0123456789"[d]
  }

  predicate IsDigit(c: char) { '0' <= c <= '9' }

  function NatToString(n: nat): (r: string)
    ensures |r| > 0
    ensures forall i :: 0 <= i < |r| ==> IsDigit(r[i])
  {
    if n < 10 then [DigitChar(n)] else NatToString(n / 10) + [DigitChar(n % 10)]
  }

  /** `str(i)` for an int. */
  function IntToString(i: int): string {
    if i < 0 then "-" + NatToString(-i) else NatToString(i)
  }

  /** `str(v)`. Lists and dicts are rendered by a fixed placeholder (their `repr` is not modelled). */
  function Str(v: Value, ft: FloatText): string {
    match v
    case VNull => "None"
    case VBool(b) => if b then "True" else "False"
    case VInt(i) => IntToString(i)
    case VFloat(x) => ft.show(x)
    case VStr(s) => s
    case VList(_) => "[...]"
    case VDict(_) => "{...}"
  }

  function DigitsValue(ds: string): nat
    requires forall i :: 0 <= i < |ds| ==> IsDigit(ds[i])
    decreases |ds|
  {
    if |ds| == 0 then 0
    else
      assert IsDigit(ds[|ds| - 1]);
      DigitsValue(ds[..|ds| - 1]) * 10 + (ds[|ds| - 1] as int - '0' as int)
  }

  predicate AllDigits(ds: string) {
    |ds| > 0 && forall i :: 0 <= i < |ds| ==> IsDigit(ds[i])
  }

  /** `int(text)`: optional sign and ASCII digits, surrounded by optional white space. */
  function ParseInt(s: string): Option<int> {
    var t := Text.Strip(s);
    if |t| > 0 && (t[0] == '+' || t[0] == '-') then
      if AllDigits(t[1..]) then
        var n: int := DigitsValue(t[1..]);
        Some(if t[0] == '-' then -n else n)
      else None
    else if AllDigits(t) then Some(DigitsValue(t))
    else None
  }

  /** `int(x)` truncates a float toward zero. */
  function Truncate(x: real): int {
    if x >= 0.0 then x.Floor else -((-x).Floor)
  }

  /** `int(v)`; `None` where Python raises. */
  function ToInt(v: Value): Option<int> {
    match v
    case VBool(b) => Some(if b then 1 else 0)
    case VInt(i) => Some(i)
    case VFloat(x) => Some(Truncate(x))
    case VStr(s) => ParseInt(s)
    case _ => None
  }

  /** `float(v)`; `None` where Python raises. */
  function ToFloat(v: Value, ft: FloatText): Option<real> {
    match v
    case VBool(b) => Some(if b then 1.0 else 0.0)
    case VInt(i) => Some(i as real)
    case VFloat(x) => Some(x)
    case VStr(s) => ft.parse(s)
    case _ => None
  }

  /** `list(v)`: a list is copied, a string splits into characters, a dict gives its keys; `None` where Python raises. */
  function ToList(v: Value): Option<seq<Value>> {
    match v
    case VList(items) => Some(items)
    case VStr(s) => Some(seq(|s|, i requires 0 <= i < |s| => VStr([s[i]])))
    case VDict(fields) => Some(seq(|fields|, i requires 0 <= i < |fields| => VStr(fields[i].0)))
    case _ => None
  }
}
