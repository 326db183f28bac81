/**
 * The decoding half of Python's `json` module as the services use it:
 * `JSONDecoder.raw_decode` (decode one value at the start of a text and report
 * where it ended) and `json.loads` (one value, surrounded only by whitespace).
 *
 * The scanner follows the C implementation in CPython's `_json` module: the
 * same whitespace set, the same number grammar and look-ahead, the constants
 * `NaN`, `Infinity` and `-Infinity` (read as floats, the default of
 * `parse_constant`), strict strings (a raw control character is an error),
 * objects and arrays with `, ` and `:` delimiters.  An index `i` walks over the text; every parser returns the
 * value found at `i` together with the index just past it.
 */
module JsonDecoder {
  import opened Wrappers
  import opened JsonValues

  /** The whitespace JSON allows between tokens (the `WHITESPACE` pattern of the `json` module). */
  predicate IsJsonSpace(c: char) {
    c == ' ' || c == '\t' || c == '\n' || c == '\r'
  }

  predicate IsDigit(c: char) {
    '0' <= c <= '9'
  }

  /** Characters that could extend a number that ends just before them. */
  predicate IsNumberContinuation(c: char) {
    IsDigit(c) || c == '.' || c == 'e' || c == 'E'
  }

  function SkipWs(s: string, i: nat): (j: nat)
    requires i <= |s|
    ensures i <= j <= |s|
    ensures j == |s| || !IsJsonSpace(s[j])
    decreases |s| - i
  {
    if i < |s| && IsJsonSpace(s[i]) then SkipWs(s, i + 1) else i
  }

  function DigitsEnd(s: string, i: nat): (j: nat)
    requires i <= |s|
    ensures i <= j <= |s|
    ensures j == |s| || !IsDigit(s[j])
    decreases |s| - i
  {
    if i < |s| && IsDigit(s[i]) then DigitsEnd(s, i + 1) else i
  }

  /** Everything `SkipWs` skips is whitespace. */
  lemma {:induction false} SkipWsSpaces(s: string, i: nat)
    requires i <= |s|
    ensures forall k | i <= k < SkipWs(s, i) :: IsJsonSpace(s[k])
    decreases |s| - i
  {
    if i < |s| && IsJsonSpace(s[i]) {
      SkipWsSpaces(s, i + 1);
    }
  }

  /** Everything `DigitsEnd` passes over is a digit. */
  lemma {:induction false} DigitsEndDigits(s: string, i: nat)
    requires i <= |s|
    ensures forall k | i <= k < DigitsEnd(s, i) :: IsDigit(s[k])
    decreases |s| - i
  {
    if i < |s| && IsDigit(s[i]) {
      DigitsEndDigits(s, i + 1);
    }
  }

  /** The number the decimal digits `s[i..j]` spell. */
  function DigitsValue(s: string, i: nat, j: nat): nat
    requires i <= j <= |s|
    decreases j - i
  {
    if i == j then 0 else DigitsValue(s, i, j - 1) * 10 + (if IsDigit(s[j - 1]) then s[j - 1] as int - '0' as int else 0)
  }

  // ---------------------------------------------------------------- numbers

  /** The end of the integer part `0|[1-9][0-9]*` that starts with the digit `s[p]`. */
  function IntPartEnd(s: string, p: nat): (e: nat)
    requires p < |s| && IsDigit(s[p])
    ensures p < e <= |s|
  {
    if s[p] == '0' then p + 1 else DigitsEnd(s, p + 1)
  }

  /** A fraction starts at `s[k]`: a point with a digit right after it. */
  predicate HasFraction(s: string, k: nat) {
    k + 1 < |s| && s[k] == '.' && IsDigit(s[k + 1])
  }

  function FractionEnd(s: string, k: nat): (e: nat)
    requires k <= |s|
    ensures k <= e <= |s|
  {
    if HasFraction(s, k) then DigitsEnd(s, k + 2) else k
  }

  /** Where the digits of an exponent whose `e` is `s[k]` start: after the sign, if one is there. */
  function ExpDigitsStart(s: string, k: nat): (d: nat)
    requires k + 1 < |s|
    ensures k + 1 <= d < |s|
  {
    if k + 2 < |s| && (s[k + 1] == '-' || s[k + 1] == '+') then k + 2 else k + 1
  }

  /** An exponent starts at `s[k]`: an `e` or `E`, an optional sign and at least one digit. */
  predicate HasExponent(s: string, k: nat) {
    k + 1 < |s| && (s[k] == 'e' || s[k] == 'E') && DigitsEnd(s, ExpDigitsStart(s, k)) > ExpDigitsStart(s, k)
  }

  function ExponentEnd(s: string, k: nat): (e: nat)
    requires k <= |s|
    ensures k <= e <= |s|
  {
    if HasExponent(s, k) then DigitsEnd(s, ExpDigitsStart(s, k)) else k
  }

  function ExponentValue(s: string, k: nat): int
    requires k <= |s|
  {
    if HasExponent(s, k) then
      var d := ExpDigitsStart(s, k);
      var n: int := DigitsValue(s, d, DigitsEnd(s, d));
      if s[k + 1] == '-' && d == k + 2 then -n else n
    else 0
  }

  /** Where the digits of a number that starts at `s[i]` start: after the minus sign, if there is one. */
  function NumberDigitsStart(s: string, i: nat): nat {
    if i < |s| && s[i] == '-' then i + 1 else i
  }

  predicate StartsNumber(s: string, i: nat) {
    NumberDigitsStart(s, i) < |s| && IsDigit(s[NumberDigitsStart(s, i)])
  }

  /** The index after the number that starts at `s[i]`. */
  function NumberEnd(s: string, i: nat): (e: nat)
    requires StartsNumber(s, i)
    ensures i < e <= |s|
  {
    ExponentEnd(s, FractionEnd(s, IntPartEnd(s, NumberDigitsStart(s, i))))
  }

  /** The digits `s[i..j]` appended to the number `acc`: `acc * 10^(j-i) + DigitsValue(s, i, j)`. */
  function DigitsAppend(acc: nat, s: string, i: nat, j: nat): nat
    requires i <= j <= |s|
    decreases j - i
  {
    if i == j then acc else DigitsAppend(acc * 10 + (if IsDigit(s[i]) then s[i] as int - '0' as int else 0), s, i + 1, j)
  }

  /**
   * The value of the number that starts at `s[i]`: an int without fraction and
   * exponent, a float otherwise, whose mantissa is the integer and fraction
   * digits read as one integer and whose exponent is lowered by the number of
   * fraction digits.
   */
  function NumberValue(s: string, i: nat): (v: Json)
    requires StartsNumber(s, i)
    ensures IsNumber(v)
  {
    var p := NumberDigitsStart(s, i);
    var negative := p == i + 1;
    var intEnd := IntPartEnd(s, p);
    var fracEnd := FractionEnd(s, intEnd);
    var intVal: int := DigitsValue(s, p, intEnd);
    if !HasFraction(s, intEnd) && !HasExponent(s, fracEnd) then JInt(if negative then -intVal else intVal)
    else
      var fracLen := if HasFraction(s, intEnd) then fracEnd - intEnd - 1 else 0;
      var digits: int := if HasFraction(s, intEnd) then DigitsAppend(intVal, s, intEnd + 1, fracEnd) else intVal;
      JFloat(if negative then -digits else digits, ExponentValue(s, fracEnd) - fracLen)
  }

  /**
   * The number at `s[i]`: `-?(0|[1-9][0-9]*)`, then a fraction `.[0-9]+` only
   * when a digit follows the point, then an exponent `[eE][-+]?[0-9]+` only when
   * at least one digit follows; otherwise the scanner backs off to before the
   * `e`.
   */
  function ParseNumber(s: string, i: nat): (r: Option<(Json, nat)>)
    ensures r.Some? ==> i < r.value.1 <= |s| && IsNumber(r.value.0)
  {
    if StartsNumber(s, i) then Some((NumberValue(s, i), NumberEnd(s, i))) else None
  }

  // ---------------------------------------------------------------- strings

  function HexValue(c: char): Option<nat> {
    if '0' <= c <= '9' then Some(c as int - '0' as int)
    else if 'a' <= c <= 'f' then Some(c as int - 'a' as int + 10)
    else if 'A' <= c <= 'F' then Some(c as int - 'A' as int + 10)
    else None
  }

  /** The four hexadecimal digits `s[i..i+4]` of a `\u` escape. */
  function Hex4(s: string, i: nat): (r: Option<nat>)
    ensures r.Some? ==> i + 4 <= |s| && r.value < 0x1_0000
  {
    if i + 4 > |s| then None
    else match (HexValue(s[i]), HexValue(s[i + 1]), HexValue(s[i + 2]), HexValue(s[i + 3]))
      case (Some(a), Some(b), Some(c), Some(d)) =>
        if a < 16 && b < 16 && c < 16 && d < 16 then Some(((a * 16 + b) * 16 + c) * 16 + d) else None
      case _ => None
  }

  predicate IsHighSurrogate(h: nat) { 0xD800 <= h <= 0xDBFF }
  predicate IsLowSurrogate(h: nat) { 0xDC00 <= h <= 0xDFFF }

  /**
   * The escape after a backslash at `s[i - 1]`: the character it stands for and
   * the index after it.  A high surrogate followed by `\u` and a low surrogate
   * is one character; a surrogate on its own is rejected, because a Dafny
   * `char` is a Unicode scalar value (Python would keep it).
   */
  function Escape(s: string, i: nat): (r: Option<(char, nat)>)
    ensures r.Some? ==> i < r.value.1 <= |s|
  {
    if i >= |s| then None
    else if s[i] == '"' then Some(('"', i + 1))
    else if s[i] == '\\' then Some(('\\', i + 1))
    else if s[i] == '/' then Some(('/', i + 1))
    else if s[i] == 'b' then Some(('\U{8}', i + 1))
    else if s[i] == 'f' then Some(('\U{C}', i + 1))
    else if s[i] == 'n' then Some(('\n', i + 1))
    else if s[i] == 'r' then Some(('\r', i + 1))
    else if s[i] == 't' then Some(('\t', i + 1))
    else if s[i] != 'u' then None
    else match Hex4(s, i + 1)
      case None => None
      case Some(h) =>
        if IsLowSurrogate(h) then None
        else if !IsHighSurrogate(h) then Some((h as char, i + 5))
        else if i + 6 < |s| && s[i + 5] == '\\' && s[i + 6] == 'u' then
          match Hex4(s, i + 7)
          case None => None
          case Some(lo) =>
            if IsLowSurrogate(lo) then Some(((0x1_0000 + (h - 0xD800) * 0x400 + (lo - 0xDC00)) as char, i + 11))
            else None
        else None
  }

  /** The contents of a string literal whose opening quote is `s[i - 1]`, and the index after its closing quote. */
  function ParseStringBody(s: string, i: nat): (r: Option<(string, nat)>)
    ensures r.Some? ==> i < r.value.1 <= |s|
    decreases |s| - i
  {
    if i >= |s| then None
    else if s[i] == '"' then Some(("", i + 1))
    else if s[i] < ' ' then None
    else if s[i] == '\\' then
      match Escape(s, i + 1)
      case None => None
      case Some((c, j)) =>
        match ParseStringBody(s, j)
        case None => None
        case Some((rest, e)) => Some(([c] + rest, e))
    else
      match ParseStringBody(s, i + 1)
      case None => None
      case Some((rest, e)) => Some(([s[i]] + rest, e))
  }

  // ---------------------------------------------------------------- values

  /** The word `Infinity` starts at `s[j]`. */
  predicate InfinityAt(s: string, j: nat) {
    j + 7 < |s| && s[j] == 'I' && s[j + 1] == 'n' && s[j + 2] == 'f' && s[j + 3] == 'i'
    && s[j + 4] == 'n' && s[j + 5] == 'i' && s[j + 6] == 't' && s[j + 7] == 'y'
  }

  /** The value that starts exactly at `s[i]` (no whitespace is skipped), and the index after it. */
  function ParseValue(s: string, i: nat): (r: Option<(Json, nat)>)
    requires i <= |s|
    ensures r.Some? ==> i < r.value.1 <= |s|
    decreases |s| - i, 2
  {
    if i >= |s| then None
    else if s[i] == '"' then
      match ParseStringBody(s, i + 1)
      case None => None
      case Some((t, e)) => Some((JString(t), e))
    else if s[i] == '{' then ParseObject(s, i)
    else if s[i] == '[' then ParseArray(s, i)
    else if s[i] == 'n' then
      if i + 3 < |s| && s[i + 1] == 'u' && s[i + 2] == 'l' && s[i + 3] == 'l' then Some((JNull, i + 4)) else None
    else if s[i] == 't' then
      if i + 3 < |s| && s[i + 1] == 'r' && s[i + 2] == 'u' && s[i + 3] == 'e' then Some((JBool(true), i + 4)) else None
    else if s[i] == 'f' then
      if i + 4 < |s| && s[i + 1] == 'a' && s[i + 2] == 'l' && s[i + 3] == 's' && s[i + 4] == 'e'
      then Some((JBool(false), i + 5)) else None
    else if s[i] == 'N' then
      if i + 2 < |s| && s[i + 1] == 'a' && s[i + 2] == 'N' then Some((JNonFinite(NaN), i + 3)) else None
    else if s[i] == 'I' then
      if InfinityAt(s, i) then Some((JNonFinite(Infinity), i + 8)) else None
    else if s[i] == '-' && InfinityAt(s, i + 1) then Some((JNonFinite(NegInfinity), i + 9))
    else ParseNumber(s, i)
  }

  /** The object whose `{` is `s[i]`. */
  function ParseObject(s: string, i: nat): (r: Option<(Json, nat)>)
    requires i < |s| && s[i] == '{'
    ensures r.Some? ==> i < r.value.1 <= |s| && r.value.0.JObject?
    decreases |s| - i, 1
  {
    var j := SkipWs(s, i + 1);
    if j < |s| && s[j] == '}' then Some((JObject([]), j + 1))
    else
      match ParseMembers(s, j)
      case None => None
      case Some((fields, e)) => Some((JObject(fields), e))
  }

  /** One `key: value` member whose key starts at `s[j]`, and the index after the value. */
  function ParseMember(s: string, j: nat): (r: Option<(string, Json, nat)>)
    requires j <= |s|
    ensures r.Some? ==> j < r.value.2 <= |s|
    decreases |s| - j, 3
  {
    if j >= |s| || s[j] != '"' then None
    else
      match ParseStringBody(s, j + 1)
      case None => None
      case Some((key, k)) => MemberValue(s, key, SkipWs(s, k))
  }

  /** The value of the member `key`, whose `:` should be `s[c]`. */
  function MemberValue(s: string, key: string, c: nat): (r: Option<(string, Json, nat)>)
    requires c <= |s|
    ensures r.Some? ==> c < r.value.2 <= |s|
    decreases |s| - c, 3
  {
    if c >= |s| || s[c] != ':' then None
    else
      match ParseValue(s, SkipWs(s, c + 1))
      case None => None
      case Some((v, e)) => Some((key, v, e))
  }

  /** The members of an object from the key that starts at `s[j]` up to and including the closing `}`. */
  function ParseMembers(s: string, j: nat): (r: Option<(seq<(string, Json)>, nat)>)
    requires j <= |s|
    ensures r.Some? ==> j < r.value.1 <= |s| && s[r.value.1 - 1] == '}'
    decreases |s| - j, 4
  {
    match ParseMember(s, j)
    case None => None
    case Some((key, v, e)) => MembersAfter(s, (key, v), SkipWs(s, e))
  }

  /** The members from the member `kv`, whose value is followed by the delimiter at `s[d]`. */
  function MembersAfter(s: string, kv: (string, Json), d: nat): (r: Option<(seq<(string, Json)>, nat)>)
    requires d <= |s|
    ensures r.Some? ==> d < r.value.1 <= |s| && s[r.value.1 - 1] == '}'
    decreases |s| - d, 4
  {
    if d < |s| && s[d] == '}' then Some(([kv], d + 1))
    else if d < |s| && s[d] == ',' then
      match ParseMembers(s, SkipWs(s, d + 1))
      case None => None
      case Some((rest, end)) => Some(([kv] + rest, end))
    else None
  }

  /** The array whose `[` is `s[i]`. */
  function ParseArray(s: string, i: nat): (r: Option<(Json, nat)>)
    requires i < |s| && s[i] == '['
    ensures r.Some? ==> i < r.value.1 <= |s| && r.value.0.JArray?
    decreases |s| - i, 1
  {
    var j := SkipWs(s, i + 1);
    if j < |s| && s[j] == ']' then Some((JArray([]), j + 1))
    else
      match ParseElements(s, j)
      case None => None
      case Some((items, e)) => Some((JArray(items), e))
  }

  /** The elements of an array from the one that starts at `s[j]` up to and including the closing `]`. */
  function ParseElements(s: string, j: nat): (r: Option<(seq<Json>, nat)>)
    requires j <= |s|
    ensures r.Some? ==> j < r.value.1 <= |s| && s[r.value.1 - 1] == ']'
    decreases |s| - j, 4
  {
    match ParseValue(s, j)
    case None => None
    case Some((v, e)) => ElementsAfter(s, v, SkipWs(s, e))
  }

  /** The elements from the element `v`, which is followed by the delimiter at `s[d]`. */
  function ElementsAfter(s: string, v: Json, d: nat): (r: Option<(seq<Json>, nat)>)
    requires d <= |s|
    ensures r.Some? ==> d < r.value.1 <= |s| && s[r.value.1 - 1] == ']'
    decreases |s| - d, 4
  {
    if d < |s| && s[d] == ']' then Some(([v], d + 1))
    else if d < |s| && s[d] == ',' then
      match ParseElements(s, SkipWs(s, d + 1))
      case None => None
      case Some((rest, end)) => Some(([v] + rest, end))
    else None
  }

  // ---------------------------------------------------------------- entry points

  /** `JSONDecoder().raw_decode(s)`: the value at the very start of `s` and the index where it ends. */
  function RawDecode(s: string): (r: Option<(Json, nat)>)
    ensures r.Some? ==> 0 < r.value.1 <= |s|
  {
    ParseValue(s, 0)
  }

  /**
   * `json.loads(s)`: a leading byte-order mark is refused, whitespace may
   * surround the value, and anything else after it is "Extra data".
   */
  function Loads(s: string): (r: Result<Json>)
  {
    if |s| > 0 && s[0] == '\U{FEFF}' then Err("Unexpected UTF-8 BOM")
    else
      var i := SkipWs(s, 0);
      match ParseValue(s, i)
      case None => Err("Expecting value")
      case Some((v, e)) => if SkipWs(s, e) == |s| then Ok(v) else Err("Extra data")
  }

  /** `json.loads` accepts exactly the texts that are one value with only whitespace around it. */
  lemma LoadsIff(s: string, v: Json)
    ensures Loads(s) == Ok(v) <==>
      (|s| == 0 || s[0] != '\U{FEFF}')
      && exists e :: ParseValue(s, SkipWs(s, 0)) == Some((v, e)) && forall k | e <= k < |s| :: IsJsonSpace(s[k])
  {
    if Loads(s) == Ok(v) {
      var e := ParseValue(s, SkipWs(s, 0)).value.1;
      SkipWsSpaces(s, e);
      assert forall k | e <= k < |s| :: IsJsonSpace(s[k]);
    }
    if (|s| == 0 || s[0] != '\U{FEFF}')
       && exists e :: ParseValue(s, SkipWs(s, 0)) == Some((v, e)) && forall k | e <= k < |s| :: IsJsonSpace(s[k]) {
      var e :| ParseValue(s, SkipWs(s, 0)) == Some((v, e)) && forall k | e <= k < |s| :: IsJsonSpace(s[k]);
      SkipWsAll(s, e);
    }
  }

  lemma {:induction false} SkipWsAll(s: string, i: nat)
    requires i <= |s|
    requires forall k | i <= k < |s| :: IsJsonSpace(s[k])
    ensures SkipWs(s, i) == |s|
    decreases |s| - i
  {
    if i < |s| {
      SkipWsAll(s, i + 1);
    }
  }

  /** The constants load as the non-finite floats. */
  lemma LoadsNaN()
    ensures Loads("NaN") == Ok(JNonFinite(NaN))
  {
  }

  lemma LoadsInfinity()
    ensures Loads("Infinity") == Ok(JNonFinite(Infinity))
  {
  }

  lemma LoadsNegInfinity()
    ensures Loads("-Infinity") == Ok(JNonFinite(NegInfinity))
  {
    assert InfinityAt("-Infinity", 1);
  }

  /** A cut-off or lower-case constant is no value. */
  lemma LoadsNotConstant()
    ensures Loads("-Inf").Err? && Loads("nan").Err?
  {
  }
}
