/**
 * The few pieces of JavaScript semantics the application leans on:
 * truthiness of JSON request fields, `Array.prototype.slice`,
 * `String.prototype.substring`, the truncating `%` and `Math.ceil` of a
 * quotient of integers.
 */
module Js {

  /** A JSON request field as the route handlers see it after `request.json()`. */
  datatype Json =
    | JUndefined
    | JNull
    | JBool(b: bool)
    | JNumber(n: int)
    | JString(s: string)
    | JObject

  /** JavaScript truthiness (numbers are integers here, so NaN is not modelled). */
  predicate Truthy(j: Json) {
    match j
    case JUndefined => false
    case JNull => false
    case JBool(b) => b
    case JNumber(n) => n != 0
    case JString(s) => s != ""
    case JObject => true
  }

  /** Resolves a relative index of `slice`: negative counts from the end, then clamped to [0, len]. */
  function RelativeIndex(i: int, len: nat): (r: nat)
    ensures r <= len
    ensures 0 <= i <= len ==> r == i
    ensures i > len ==> r == len
    ensures i < 0 ==> r == if len + i < 0 then 0 else len + i
  {
    if i < 0 then (if len + i < 0 then 0 else len + i)
    else if i > len then len
    else i
  }

  /** `s.slice(start, end)` for arrays and strings. */
  function Slice<T>(s: seq<T>, start: int, end: int): (r: seq<T>)
    ensures |r| <= |s|
    ensures 0 <= start <= end <= |s| ==> r == s[start..end]
    ensures 0 <= start && 0 <= end ==> |r| <= (if end - start < 0 then 0 else end - start)
    ensures end <= start && start >= 0 && end >= 0 ==> r == []
  {
    var from := RelativeIndex(start, |s|);
    var to := RelativeIndex(end, |s|);
    if from < to then s[from..to] else []
  }

  /** A slice from a non-negative offset is the clamped window of at most `limit` elements there. */
  lemma SliceWindow<T>(s: seq<T>, offset: int, limit: int)
    requires 0 <= offset && 0 <= limit
    ensures var lo := if offset < |s| then offset else |s|;
      var hi := if offset + limit < |s| then offset + limit else |s|;
      && lo <= hi
      && Slice(s, offset, offset + limit) == s[lo..hi]
      && hi - lo <= limit
  {
  }

  /** Clamps an index of `substring` into [0, len] (negatives become 0). */
  function ClampIndex(i: int, len: nat): (r: nat)
    ensures r <= len
    ensures 0 <= i <= len ==> r == i
  {
    if i < 0 then 0 else if i > len then len else i
  }

  /** `s.substring(a, b)`: both ends clamped, and swapped when `a > b`. */
  function Substring(s: string, a: int, b: int): (r: string)
    ensures 0 <= a <= b <= |s| ==> r == s[a..b]
    ensures 0 <= b <= a <= |s| ==> r == s[b..a]
  {
    var x := ClampIndex(a, |s|);
    var y := ClampIndex(b, |s|);
    if x <= y then s[x..y] else s[y..x]
  }

  /** JavaScript `a % b` for a positive divisor: the remainder truncates toward zero and takes the sign of `a`. */
  function Rem(a: int, b: int): (r: int)
    requires b > 0
    ensures a >= 0 ==> r == a % b && 0 <= r < b
    ensures a < 0 ==> -b < r <= 0 && r == -((-a) % b)
  {
    if a >= 0 then a % b else -((-a) % b)
  }

  /** `Math.ceil(a / b)` for integers with `b != 0`. */
  function CeilDiv(a: int, b: int): (r: int)
    requires b != 0
    ensures b > 0 ==> r * b >= a && (r - 1) * b < a
    ensures b < 0 ==> r * b <= a && (r - 1) * b > a
  {
    if b > 0 then -((-a) / b) else -(a / (-b))
  }

  /** The decimal digits of a natural number. */
  function NatToString(n: nat): (s: string)
    ensures |s| >= 1
    ensures forall i :: 0 <= i < |s| ==> '0' <= s[i] <= '9'
    decreases n
  {
    var d := ['0' + (n % 10) as char];
    if n < 10 then d else NatToString(n / 10) + d
  }

  /** An integer as JavaScript prints it (`String(i)`, template-literal interpolation). */
  function IntToString(i: int): string {
    if i < 0 then "-" + NatToString(-i) else NatToString(i)
  }

  /** Reads a string of decimal digits back as a number: the inverse of `NatToString`. */
  function DigitsValue(s: string): nat
    requires forall i :: 0 <= i < |s| ==> '0' <= s[i] <= '9'
    decreases |s|
  {
    if s == [] then 0 else DigitsValue(s[..|s| - 1]) * 10 + (s[|s| - 1] - '0') as int
  }

  /** Printing a number and reading the digits back gives the number. */
  lemma {:induction false} DigitsRoundTrip(n: nat)
    ensures DigitsValue(NatToString(n)) == n
    decreases n
  {
    if n >= 10 {
      var s := NatToString(n);
      DigitsRoundTrip(n / 10);
      assert s[..|s| - 1] == NatToString(n / 10);
    }
  }
}
