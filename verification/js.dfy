/**
 * The few JavaScript run-time notions the application's logic depends on:
 * optional values (`null`/`undefined`), truthiness of strings, the `||`
 * fallback chain, and JSON values as sent over the wire.
 */
module Js {

  /** A value that may be `null` or `undefined` (both are `None`). */
  datatype Option<+T> = None | Some(value: T)

  /** A string is truthy in JavaScript when it is present and non-empty. */
  predicate Truthy(s: Option<string>)
  {
    s.Some? && s.value != ""
  }

  /** `a || b` on optional strings: the first truthy operand, else the second. */
  function Or(a: Option<string>, b: Option<string>): (r: Option<string>)
    ensures Truthy(r) <==> Truthy(a) || Truthy(b)
    ensures Truthy(a) ==> r == a
  {
    if Truthy(a) then a else b
  }

  /** `a || d` with a string literal `d` as the last resort. */
  function OrElse(a: Option<string>, d: string): (r: string)
    ensures Truthy(a) ==> r == a.value
    ensures !Truthy(a) ==> r == d
  {
    if Truthy(a) then a.value else d
  }

  /** `n || d` on optional numbers: `0`, `null` and `undefined` are falsy. */
  function OrNum(n: Option<int>, d: int): (r: int)
    ensures n.Some? && n.value != 0 ==> r == n.value
    ensures n.None? || n.value == 0 ==> r == d
  {
    if n.Some? && n.value != 0 then n.value else d
  }

  /** `n ?? d`: only `null` and `undefined` fall back; `0` is kept. */
  function Coalesce(n: Option<int>, d: int): (r: int)
    ensures n.Some? ==> r == n.value
    ensures n.None? ==> r == d
  {
    if n.Some? then n.value else d
  }

  /** JSON values, as request bodies and server payloads. */
  datatype Json =
    | JNull
    | JBool(b: bool)
    | JNum(n: int)
    | JStr(s: string)
    | JArr(items: seq<Json>)
    | JObj(fields: seq<(string, Json)>)

  /** The JSON form of an optional string: `null` when absent. */
  function StrOrNull(s: Option<string>): Json
  {
    if s.Some? then JStr(s.value) else JNull
  }

  /** Object keys in order. */
  function Keys(fields: seq<(string, Json)>): (ks: seq<string>)
    ensures |ks| == |fields|
    ensures forall i :: 0 <= i < |fields| ==> ks[i] == fields[i].0
  {
    if |fields| == 0 then [] else [fields[0].0] + Keys(fields[1..])
  }

  /** `({ k, ...rest }) => rest`: the object without every field named `k`, order kept. */
  function WithoutKey(fields: seq<(string, Json)>, k: string): (r: seq<(string, Json)>)
    ensures forall i :: 0 <= i < |r| ==> r[i].0 != k
    ensures forall p :: p in fields && p.0 != k ==> p in r
    ensures forall p :: p in r ==> p in fields
    ensures |r| <= |fields|
  {
    if |fields| == 0 then []
    else if fields[0].0 == k then WithoutKey(fields[1..], k)
    else [fields[0]] + WithoutKey(fields[1..], k)
  }

  /** `obj[key]` on an object's fields: the first field with that name. */
  function Get(fields: seq<(string, Json)>, key: string): (r: Option<Json>)
    ensures r.Some? ==> (key, r.value) in fields
    ensures r.None? ==> forall i :: 0 <= i < |fields| ==> fields[i].0 != key
  {
    if |fields| == 0 then None
    else if fields[0].0 == key then Some(fields[0].1)
    else Get(fields[1..], key)
  }

  /** `value.key` read as a truthy string; `None` when `value` is not an object or the field is missing, empty or not a string. */
  function StringField(value: Json, key: string): (r: Option<string>)
    ensures r.Some? ==> r.value != "" && value.JObj? && Get(value.fields, key) == Some(JStr(r.value))
  {
    if value.JObj? then
      match Get(value.fields, key)
      case Some(JStr(s)) => if s != "" then Some(s) else None
      case _ => None
    else None
  }

  /** `Math.round(a / b)` for a positive divisor: the nearest integer, halves rounded up. */
  function RoundDiv(a: int, b: int): (r: int)
    requires b > 0
    ensures 2 * b * r <= 2 * a + b < 2 * b * r + 2 * b
  {
    (2 * a + b) / (2 * b)
  }

  /** A rounded average lies between the smallest and largest values. */
  lemma RoundDivBetween(a: int, n: int, lo: int, hi: int)
    requires n > 0 && n * lo <= a <= n * hi
    ensures lo <= RoundDiv(a, n) <= hi
  {
    var r := RoundDiv(a, n);
    assert 2 * n * lo < 2 * n * (r + 1) by {
      assert 2 * n * lo == 2 * (n * lo);
      assert 2 * n * (r + 1) == 2 * n * r + 2 * n;
    }
    MulCancel(2 * n, lo, r + 1);
    assert 2 * n * r < 2 * n * (hi + 1) by {
      assert 2 * n * hi == 2 * (n * hi);
      assert 2 * n * (hi + 1) == 2 * n * hi + 2 * n;
    }
    MulCancel(2 * n, r, hi + 1);
  }

  /** Cancelling a positive factor from a strict inequality. */
  lemma MulCancel(k: int, x: int, y: int)
    requires k > 0 && k * x < k * y
    ensures x < y
  {
    if x >= y {
      MulMono(k, y, x);
    }
  }

  lemma MulMono(k: int, x: int, y: int)
    requires k >= 0 && x <= y
    ensures k * x <= k * y
  {
    assert k * y - k * x == k * (y - x);
  }
}
