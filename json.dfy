/**
 * The JSON-like values that flow through the services: what `json.loads`
 * produces, what the model clients receive from a response body, and the
 * result dictionaries the agent returns.
 *
 * A finite float is kept as an exact decimal `mantissa * 10^exponent`, the
 * way its text denotes it; Python would round it to the nearest binary double.
 * The three non-finite floats the `json` module reads and writes by default
 * (`NaN`, `Infinity`, `-Infinity`) have a constructor of their own.
 */
module JsonValues {
  import opened Wrappers
  import opened Text

  /** The floats `nan`, `inf` and `-inf`. */
  datatype NonFinite = NaN | Infinity | NegInfinity

  datatype Json =
    | JNull
    | JBool(b: bool)
    | JInt(i: int)
    | JFloat(mantissa: int, exponent: int)
    | JNonFinite(kind: NonFinite)
    | JString(s: string)
    | JArray(items: seq<Json>)
    | JObject(fields: seq<(string, Json)>)

  /** A finite number, which denotes a real value. */
  predicate IsNumber(v: Json) {
    v.JInt? || v.JFloat?
  }

  // ---------------------------------------------------------------- dictionary lookup

  /** Looks `key` up among `fields[..n]`; the last binding wins, as when Python builds a dict from pairs. */
  function LookupBefore(fields: seq<(string, Json)>, key: string, n: nat): (r: Option<Json>)
    requires n <= |fields|
    ensures r.Some? <==> exists k | 0 <= k < n :: fields[k].0 == key
    ensures r.Some? ==> exists k | 0 <= k < n :: fields[k] == (key, r.value)
                          && forall m | k < m < n :: fields[m].0 != key
    decreases n
  {
    if n == 0 then None
    else if fields[n - 1].0 == key then Some(fields[n - 1].1)
    else LookupBefore(fields, key, n - 1)
  }

  /** `d.get(key)` on the dictionary whose items are `fields`. */
  function Lookup(fields: seq<(string, Json)>, key: string): Option<Json> {
    LookupBefore(fields, key, |fields|)
  }

  /** `key in d`. */
  predicate HasKey(fields: seq<(string, Json)>, key: string) {
    exists k | 0 <= k < |fields| :: fields[k].0 == key
  }

  lemma LookupHasKey(fields: seq<(string, Json)>, key: string)
    ensures Lookup(fields, key).Some? <==> HasKey(fields, key)
  {
  }

  /** A binding at the end of the pairs is the one that is found. */
  lemma LookupLast(fields: seq<(string, Json)>, key: string, v: Json)
    ensures Lookup(fields + [(key, v)], key) == Some(v)
  {
  }

  /** A key bound exactly once is found with its value. */
  lemma LookupUnique(fields: seq<(string, Json)>, key: string, k: nat)
    requires k < |fields| && fields[k].0 == key
    requires forall m | 0 <= m < |fields| && m != k :: fields[m].0 != key
    ensures Lookup(fields, key) == Some(fields[k].1)
  {
  }

  /** A binding for another key leaves a lookup unchanged. */
  lemma LookupOther(fields: seq<(string, Json)>, key: string, other: string, v: Json)
    requires other != key
    ensures Lookup(fields + [(other, v)], key) == Lookup(fields, key)
  {
    var fs := fields + [(other, v)];
    assert fs[|fs| - 1].0 != key;
    assert fs[..|fields|] == fields;
    LookupPrefix(fs, fields, key, |fields|);
  }

  /** A binding followed only by bindings of other keys is the one that is found. */
  lemma {:induction false} LookupLastBinding(fields: seq<(string, Json)>, key: string, v: Json, rest: seq<(string, Json)>)
    requires forall k | 0 <= k < |rest| :: rest[k].0 != key
    ensures Lookup(fields + [(key, v)] + rest, key) == Some(v)
    decreases |rest|
  {
    if rest == [] {
      assert fields + [(key, v)] + rest == fields + [(key, v)];
      LookupLast(fields, key, v);
    } else {
      var init, last := rest[..|rest| - 1], rest[|rest| - 1];
      LookupLastBinding(fields, key, v, init);
      assert fields + [(key, v)] + rest == (fields + [(key, v)] + init) + [last];
      LookupOther(fields + [(key, v)] + init, key, last.0, last.1);
    }
  }

  lemma {:induction false} LookupPrefix(fs: seq<(string, Json)>, fields: seq<(string, Json)>, key: string, n: nat)
    requires n <= |fields| <= |fs| && fs[..|fields|] == fields
    ensures LookupBefore(fs, key, n) == LookupBefore(fields, key, n)
    decreases n
  {
    if n > 0 {
      assert fs[n - 1] == fields[n - 1];
      LookupPrefix(fs, fields, key, n - 1);
    }
  }

  // ---------------------------------------------------------------- truthiness

  /** Python's `bool(v)`: false for None, False, zero, and empty strings, lists and dicts. */
  predicate Truthy(v: Json) {
    match v
    case JNull => false
    case JBool(b) => b
    case JInt(i) => i != 0
    case JFloat(m, _) => m != 0
    case JNonFinite(_) => true
    case JString(s) => s != ""
    case JArray(items) => items != []
    case JObject(fields) => fields != []
  }

  // ---------------------------------------------------------------- numbers

  function Pow10(e: nat): (r: nat)
    ensures r >= 1
  {
    if e == 0 then 1 else 10 * Pow10(e - 1)
  }

  function Scale(e: int): (r: real)
    ensures r > 0.0
  {
    if e >= 0 then Pow10(e) as real else 1.0 / (Pow10(-e) as real)
  }

  /** The number a JSON number denotes. */
  function NumValue(v: Json): real
    requires IsNumber(v)
  {
    if v.JInt? then v.i as real else v.mantissa as real * Scale(v.exponent)
  }

  // ---------------------------------------------------------------- str() and repr()

  /** Python's `str(v)`: a string is itself, anything else is its `repr`. */
  function Str(v: Json): (r: string)
    ensures v.JString? ==> r == v.s
  {
    if v.JString? then v.s else Repr(v)
  }

  /** The quote `repr` puts around a string: `"` when the text holds `'` but no `"`, else `'`. */
  function ReprQuote(s: string): char {
    if (exists k | 0 <= k < |s| :: s[k] == '\'') && (forall k | 0 <= k < |s| :: s[k] != '"') then '"' else '\''
  }

  function ReprChar(c: char, q: char): string {
    if c == '\\' then "\\\\"
    else if c == q then ['\\', q]
    else if c == '\n' then "\\n"
    else if c == '\r' then "\\r"
    else if c == '\t' then "\\t"
    else if c < ' ' || c == '\U{7F}' then "\\x" + [HexDigit(c as int / 16), HexDigit(c as int % 16)]
    else [c]
  }

  function HexDigit(d: nat): char
    requires d < 16
  {
    if d < 10 then ('0' as int + d) as char else ('a' as int + d - 10) as char
  }

  function ReprChars(s: string, q: char, k: nat): string
    requires k <= |s|
    decreases |s| - k
  {
    if k == |s| then "" else ReprChar(s[k], q) + ReprChars(s, q, k + 1)
  }

  function ReprString(s: string): string {
    var q := ReprQuote(s);
    [q] + ReprChars(s, q, 0) + [q]
  }

  /** `m * 10^e` in positional notation with at least one fraction digit and no trailing zeros after it. */
  function DecimalText(m: nat, e: int): string {
    var digits := NatToString(m);
    if e >= 0 then digits + Zeros(e) + ".0"
    else
      var padded := (if |digits| <= -e then Zeros(-e + 1 - |digits|) else []) + digits;
      var point := |padded| + e;
      padded[..point] + "." + TrimFractionZeros(padded[point..])
  }

  function Zeros(n: nat): (r: string)
    ensures |r| == n && forall k | 0 <= k < n :: r[k] == '0'
  {
    if n == 0 then [] else Zeros(n - 1) + "0"
  }

  function TrimFractionZeros(f: string): (r: string)
    ensures |r| >= 1 || f == []
    decreases |f|
  {
    if |f| > 1 && f[|f| - 1] == '0' then TrimFractionZeros(f[..|f| - 1]) else f
  }

  function Repr(v: Json): string
    decreases v, 1
  {
    match v
    case JNull => "None"
    case JBool(b) => if b then "True" else "False"
    case JInt(i) => IntToString(i)
    case JFloat(m, e) => (if m < 0 then "-" else "") + DecimalText(if m < 0 then -m else m, e)
    case JNonFinite(k) => if k == NaN then "nan" else if k == Infinity then "inf" else "-inf"
    case JString(s) => ReprString(s)
    case JArray(items) => "[" + ReprItems(v, items, 0) + "]"
    case JObject(fields) => "{" + ReprFields(v, fields, 0) + "}"
  }

  function ReprItems(ghost parent: Json, items: seq<Json>, k: nat): string
    requires parent.JArray? && parent.items == items && k <= |items|
    decreases parent, 0, |items| - k
  {
    if k == |items| then ""
    else (if k == 0 then "" else ", ") + Repr(items[k]) + ReprItems(parent, items, k + 1)
  }

  function ReprFields(ghost parent: Json, fields: seq<(string, Json)>, k: nat): string
    requires parent.JObject? && parent.fields == fields && k <= |fields|
    decreases parent, 0, |fields| - k
  {
    if k == |fields| then ""
    else (if k == 0 then "" else ", ") + ReprString(fields[k].0) + ": " + Repr(fields[k].1)
         + ReprFields(parent, fields, k + 1)
  }

  // ---------------------------------------------------------------- iteration

  /**
   * The items `for x in v` visits: a list's elements, a string's characters as
   * one-character strings, a dict's keys. Iterating anything else raises `TypeError`.
   */
  function Iterate(v: Json): (r: Result<seq<Json>>)
    ensures v.JArray? ==> r == Ok(v.items)
    ensures v.JString? ==> r.Ok? && |r.value| == |v.s|
    ensures IsNumber(v) || v.JNonFinite? || v.JBool? || v.JNull? ==> r.Err?
  {
    match v
    case JArray(items) => Ok(items)
    case JString(s) => Ok(seq(|s|, k requires 0 <= k < |s| => JString([s[k]])))
    case JObject(fields) => Ok(seq(|fields|, k requires 0 <= k < |fields| => JString(fields[k].0)))
    case _ => Err("TypeError: object is not iterable")
  }
}
