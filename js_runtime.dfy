/**
  The parts of the JavaScript runtime that the headline client relies on:
  values produced by `JSON.parse`, truthiness, `typeof`, the `in` operator,
  property reads, `String(v)`, `String.prototype.trim` and
  `String.prototype.toUpperCase` (ASCII letters only).
 */
module JsRuntime {

  datatype Option<T> = None | Some(value: T)

  /** A value produced by `JSON.parse`. Numbers are modelled as integers. */
  datatype Json =
    | JNull
    | JBool(b: bool)
    | JNumber(n: int)
    | JString(s: string)
    | JArray(items: seq<Json>)
    | JObject(fields: map<string, Json>)

  /** JavaScript truthiness (`!!v`) of a JSON value. */
  predicate Truthy(v: Json) {
    match v
    case JNull => false
    case JBool(b) => b
    case JNumber(n) => n != 0
    case JString(s) => s != ""
    case JArray(_) => true
    case JObject(_) => true
  }

  /** Truthiness of a property read, where `None` stands for `undefined`. */
  predicate OptTruthy(v: Option<Json>) {
    v.Some? && Truthy(v.value)
  }

  /** The `typeof` operator; `null` and arrays are both "object". */
  function TypeOf(v: Json): (t: string)
    ensures t == "object" <==> (v.JNull? || v.JArray? || v.JObject?)
  {
    match v
    case JBool(_) => "boolean"
    case JNumber(_) => "number"
    case JString(_) => "string"
    case _ => "object"
  }

  /**
    The two property names the client reads from a parsed body. Neither is
    an array index, "length", or a member of any built-in prototype, so only
    an object's own field can supply them.
   */
  predicate ReadKey(key: string) {
    key == "message" || key == "status"
  }

  /** `key in v` for a non-null object-typed value. */
  predicate HasProperty(v: Json, key: string)
    requires ReadKey(key) && TypeOf(v) == "object" && !v.JNull?
  {
    v.JObject? && key in v.fields
  }

  /** `v[key]` on a non-null value; `None` stands for `undefined`. */
  function Get(v: Json, key: string): (r: Option<Json>)
    requires ReadKey(key) && !v.JNull?
    ensures r.Some? <==> v.JObject? && key in v.fields
    ensures r.Some? ==> r.value == v.fields[key]
  {
    match v
    case JObject(fields) => if key in fields then Some(fields[key]) else None
    case _ => None
  }

  /** The number a string of decimal digits denotes, most significant first. */
  function DigitsValue(s: string): int {
    if s == [] then 0 else 10 * DigitsValue(s[..|s| - 1]) + (s[|s| - 1] as int - 48)
  }

  /** The decimal digits of a natural number, most significant first, without leading zeros. */
  function Decimal(n: nat): (r: string)
    ensures r != []
    ensures forall k :: 0 <= k < |r| ==> '0' <= r[k] <= '9'
    ensures DigitsValue(r) == n
    ensures |r| > 1 ==> r[0] != '0'
  {
    var digit := (48 + n % 10) as char;
    if n < 10 then [digit]
    else
      var r := Decimal(n / 10) + [digit];
      assert r[..|r| - 1] == Decimal(n / 10);
      r
  }

  /** `parts.join(sep)`. */
  function Join(parts: seq<string>, sep: string): string {
    if |parts| == 0 then ""
    else if |parts| == 1 then parts[0]
    else parts[0] + sep + Join(parts[1..], sep)
  }

  /**
    `String(v)`: the string conversion used by `new Error(v)` and by `||`
    results shown as text. Array elements that are `null` print as empty.
   */
  function ToJsString(v: Json): (r: string)
    ensures v.JString? ==> r == v.s
    ensures v.JBool? || v.JNumber? || v.JNull? || v.JObject? ==> r != ""
  {
    match v
    case JNull => "null"
    case JBool(b) => if b then "true" else "false"
    case JNumber(n) => if n < 0 then "-" + Decimal(-n) else Decimal(n)
    case JString(s) => s
    case JArray(items) =>
      Join(seq(|items|, i requires 0 <= i < |items| => if items[i].JNull? then "" else ToJsString(items[i])), ",")
    case JObject(_) => "[object Object]"
  }

  /** The message of `new Error(x)`: empty when `x` is `undefined`, `String(x)` otherwise. */
  function ErrorMessage(x: Option<Json>): (m: string)
    ensures x.None? ==> m == ""
    ensures x.Some? && x.value.JString? ==> m == x.value.s
  {
    if x.None? then "" else ToJsString(x.value)
  }

  /** White space and line terminators as `String.prototype.trim` strips them. */
  predicate IsWhitespace(c: char) {
    var n := c as int;
    n == 0x09 || n == 0x0A || n == 0x0B || n == 0x0C || n == 0x0D || n == 0x20
    || n == 0xA0 || n == 0x1680 || (0x2000 <= n <= 0x200A) || n == 0x2028
    || n == 0x2029 || n == 0x202F || n == 0x205F || n == 0x3000 || n == 0xFEFF
  }

  predicate AllWhitespace(s: string) {
    forall k :: 0 <= k < |s| ==> IsWhitespace(s[k])
  }

  /** A string with no white space at either end. */
  predicate IsTrimmed(s: string) {
    s == [] || (!IsWhitespace(s[0]) && !IsWhitespace(s[|s| - 1]))
  }

  /** The index of the first character at or after `i` that is not white space, or `|s|` when there is none. */
  function SkipForward(s: string, i: nat): (r: nat)
    requires i <= |s|
    ensures i <= r <= |s|
    ensures forall k :: i <= k < r ==> IsWhitespace(s[k])
    ensures r < |s| ==> !IsWhitespace(s[r])
    decreases |s| - i
  {
    if i < |s| && IsWhitespace(s[i]) then SkipForward(s, i + 1) else i
  }

  /** The end of the last character before `j` that is not white space, or 0 when there is none. */
  function SkipBackward(s: string, j: nat): (r: nat)
    requires j <= |s|
    ensures r <= j
    ensures forall k :: r <= k < j ==> IsWhitespace(s[k])
    ensures r > 0 ==> !IsWhitespace(s[r - 1])
  {
    if j > 0 && IsWhitespace(s[j - 1]) then SkipBackward(s, j - 1) else j
  }

  /** `s.trim()`: the text between the first and the last character that is not white space. */
  function Trim(s: string): (r: string)
    ensures |r| <= |s|
    ensures IsTrimmed(r)
    ensures r == [] <==> AllWhitespace(s)
  {
    var start := SkipForward(s, 0);
    var end := SkipBackward(s, |s|);
    if start < end then s[start..end] else []
  }

  /** The contract of `SkipForward` determines its result. */
  lemma SkipForwardUnique(s: string, i: nat, p: nat)
    requires i <= p <= |s|
    requires forall k :: i <= k < p ==> IsWhitespace(s[k])
    requires p < |s| ==> !IsWhitespace(s[p])
    ensures SkipForward(s, i) == p
  {
  }

  /** The contract of `SkipBackward` determines its result. */
  lemma SkipBackwardUnique(s: string, j: nat, p: nat)
    requires p <= j <= |s|
    requires forall k :: p <= k < j ==> IsWhitespace(s[k])
    requires p > 0 ==> !IsWhitespace(s[p - 1])
    ensures SkipBackward(s, j) == p
  {
  }

  /** Trim is determined by its meaning: white space around a trimmed core is exactly what it removes. */
  lemma TrimOfPadded(lead: string, core: string, trail: string)
    requires AllWhitespace(lead) && AllWhitespace(trail) && IsTrimmed(core)
    ensures Trim(lead + core + trail) == core
  {
    var s := lead + core + trail;
    if core == [] {
      assert forall k :: 0 <= k < |s| ==> s[k] == if k < |lead| then lead[k] else trail[k - |lead|];
      assert AllWhitespace(s);
    } else {
      var e := |lead| + |core|;
      assert forall k :: 0 <= k < |lead| ==> s[k] == lead[k];
      assert forall k :: e <= k < |s| ==> s[k] == trail[k - e];
      assert s[|lead|] == core[0] && s[e - 1] == core[|core| - 1];
      SkipForwardUnique(s, 0, |lead|);
      SkipBackwardUnique(s, |s|, e);
      assert s[|lead|..e] == core;
    }
  }

  /** Every string is its trimmed form padded with white space on both sides. */
  lemma TrimSplits(s: string) returns (lead: string, trail: string)
    ensures s == lead + Trim(s) + trail
    ensures AllWhitespace(lead) && AllWhitespace(trail)
  {
    var start := SkipForward(s, 0);
    var end := SkipBackward(s, |s|);
    if start < end {
      lead, trail := s[..start], s[end..];
      assert s == lead + s[start..end] + trail;
    } else {
      lead, trail := s, [];
      assert s == lead + [] + trail;
    }
  }

  /** Trimming twice is trimming once. */
  lemma TrimIdempotent(s: string)
    ensures Trim(Trim(s)) == Trim(s)
  {
    TrimOfPadded([], Trim(s), []);
    assert [] + Trim(s) + [] == Trim(s);
  }

  /** `toUpperCase` restricted to ASCII letters. */
  function UpperChar(c: char): char {
    if 'a' <= c <= 'z' then (c as int - 32) as char else c
  }

  /** `s.toUpperCase()` for ASCII text: the same length, every lower-case letter replaced by its capital. */
  function ToUpperAscii(s: string): (r: string)
    ensures |r| == |s|
    ensures forall k :: 0 <= k < |r| ==> !('a' <= r[k] <= 'z')
    ensures forall k :: 0 <= k < |r| ==> if 'a' <= s[k] <= 'z' then r[k] as int == s[k] as int - 32 else r[k] == s[k]
  {
    seq(|s|, k requires 0 <= k < |s| => UpperChar(s[k]))
  }
}
