/**
 * The encoding half of Python's `json` module: `json.dumps(v)` with the
 * default separators `", "` and `": "`, and with `ensure_ascii` either on (the
 * default) or off.
 *
 * Strings: `"` and `\` are escaped, `\n \r \t \b \f` use their short escapes and
 * the other control characters become `\u00XX`; with `ensure_ascii` every
 * character outside `' '..'~'` is written as `\uXXXX` (lower-case hex), and a
 * character beyond the Basic Multilingual Plane as a surrogate pair.
 */
module JsonEncoder {
  import opened Text
  import opened JsonValues

  function Hex4Text(n: nat): (r: string)
    requires n < 0x1_0000
    ensures |r| == 4
  {
    [HexDigit(n / 0x1000), HexDigit(n / 0x100 % 16), HexDigit(n / 16 % 16), HexDigit(n % 16)]
  }

  /** How `c` is written inside a string literal. */
  function EscapeChar(c: char, ascii: bool): (r: string)
    ensures |r| >= 1
  {
    if c == '"' then "\\\""
    else if c == '\\' then "\\\\"
    else if c == '\n' then "\\n"
    else if c == '\r' then "\\r"
    else if c == '\t' then "\\t"
    else if c == '\U{8}' then "\\b"
    else if c == '\U{C}' then "\\f"
    else if c < ' ' then "\\u" + Hex4Text(c as int)
    else if ascii && c > '~' then
      if c as int < 0x1_0000 then "\\u" + Hex4Text(c as int)
      else
        var n := c as int - 0x1_0000;
        "\\u" + Hex4Text(0xD800 + n / 0x400) + "\\u" + Hex4Text(0xDC00 + n % 0x400)
    else [c]
  }

  /** The escaped form of `s[k..]`. */
  function EscapedFrom(s: string, k: nat, ascii: bool): string
    requires k <= |s|
    decreases |s| - k
  {
    if k == |s| then "" else EscapeChar(s[k], ascii) + EscapedFrom(s, k + 1, ascii)
  }

  /** A string literal: the escaped text between double quotes. */
  function Quote(s: string, ascii: bool): string {
    "\"" + EscapedFrom(s, 0, ascii) + "\""
  }

  /**
   * A float `m * 10^e` as positional digits when `e < 0` (exactly `-e` digits
   * after the point), and as `<digits>e<e>` when `e >= 0`.
   */
  function FloatText(m: int, e: int): string {
    (if m < 0 then "-" else "") + UnsignedFloatText(if m < 0 then -m else m, e)
  }

  function UnsignedFloatText(m: nat, e: int): string {
    if e >= 0 then ExponentNotation(m, e) else PointNotation(m, -e)
  }

  /** `m * 10^e` as `<digits>e<e>`. */
  function ExponentNotation(m: nat, e: nat): string {
    NatToString(m) + "e" + NatToString(e)
  }

  /** `m * 10^-f` with exactly `f` digits after the point. */
  function PointNotation(m: nat, f: nat): string {
    NatToString(DropDigits(m, f)) + "." + LastDigits(m, f)
  }

  /** `m` without its last `f` decimal digits: `m / 10^f`. */
  function DropDigits(m: nat, f: nat): nat
    decreases f
  {
    if f == 0 then m else DropDigits(m / 10, f - 1)
  }

  /** The last `f` decimal digits of `m`, with leading zeros where `m` has fewer. */
  function LastDigits(m: nat, f: nat): (r: string)
    ensures |r| == f
    decreases f
  {
    if f == 0 then "" else LastDigits(m / 10, f - 1) + [DigitChar(m % 10)]
  }

  /** How a non-finite float is written (`allow_nan` is on by default). */
  function ConstantText(k: NonFinite): string {
    if k == NaN then "NaN" else if k == Infinity then "Infinity" else "-Infinity"
  }

  /** `json.dumps(v, ensure_ascii=ascii)`. */
  function Dumps(v: Json, ascii: bool): (r: string)
    ensures |r| >= 1
    decreases v, 1
  {
    match v
    case JNull => "null"
    case JBool(b) => if b then "true" else "false"
    case JInt(i) => IntToString(i)
    case JFloat(m, e) => FloatText(m, e)
    case JNonFinite(k) => ConstantText(k)
    case JString(s) => Quote(s, ascii)
    case JArray(items) => if items == [] then "[]" else "[" + ItemsText(v, items, 0, ascii) + "]"
    case JObject(fields) => if fields == [] then "{}" else "{" + MembersText(v, fields, 0, ascii) + "}"
  }

  /** The elements `items[k..]`, separated by `", "`. */
  function ItemsText(ghost parent: Json, items: seq<Json>, k: nat, ascii: bool): string
    requires parent.JArray? && parent.items == items && k < |items|
    decreases parent, 0, |items| - k
  {
    Dumps(items[k], ascii) + (if k + 1 == |items| then "" else ", " + ItemsText(parent, items, k + 1, ascii))
  }

  /** The members `fields[k..]` as `"key": value`, separated by `", "`. */
  function MembersText(ghost parent: Json, fields: seq<(string, Json)>, k: nat, ascii: bool): string
    requires parent.JObject? && parent.fields == fields && k < |fields|
    decreases parent, 0, |fields| - k
  {
    Quote(fields[k].0, ascii) + ": " + Dumps(fields[k].1, ascii)
    + (if k + 1 == |fields| then "" else ", " + MembersText(parent, fields, k + 1, ascii))
  }

  // ---------------------------------------------------------------- texts of small values

  /** A character that `json.dumps(..., ensure_ascii=False)` copies unchanged into a string literal. */
  predicate IsPlain(c: char) {
    c >= ' ' && c != '"' && c != '\\'
  }

  lemma {:induction false} EscapedPlain(s: string, k: nat)
    requires k <= |s| && forall i | k <= i < |s| :: IsPlain(s[i])
    ensures EscapedFrom(s, k, false) == s[k..]
    decreases |s| - k
  {
    if k < |s| {
      EscapedPlain(s, k + 1);
      assert s[k..] == [s[k]] + s[k + 1..];
    }
  }

  /** Without `ensure_ascii`, a string of plain characters is written as itself between quotes. */
  lemma QuotePlain(s: string)
    requires forall i | 0 <= i < |s| :: IsPlain(s[i])
    ensures Quote(s, false) == "\"" + s + "\""
  {
    EscapedPlain(s, 0);
    assert s[0..] == s;
  }

  /** The text of one member, `"key": value`. */
  function MemberText(k: string, x: Json, ascii: bool): string {
    Quote(k, ascii) + ": " + Dumps(x, ascii)
  }

  lemma Braced(a: string, b: string)
    ensures "{" + (a + (", " + b)) + "}" == "{" + a + ", " + b + "}"
  {
  }

  /** The text of an object with one member. */
  lemma DumpsOneMember(v: Json, k1: string, x1: Json, ascii: bool)
    requires v == JObject([(k1, x1)])
    ensures Dumps(v, ascii) == "{" + MemberText(k1, x1, ascii) + "}"
  {
    var first := MemberText(k1, x1, ascii);
    assert first + "" == first;
  }

  /** The text of an object with two members. */
  lemma DumpsTwoMembers(v: Json, k1: string, x1: Json, k2: string, x2: Json, ascii: bool)
    requires v == JObject([(k1, x1), (k2, x2)])
    ensures Dumps(v, ascii) == "{" + MemberText(k1, x1, ascii) + ", " + MemberText(k2, x2, ascii) + "}"
  {
    var first := MemberText(k1, x1, ascii);
    var second := MemberText(k2, x2, ascii);
    assert second + "" == second;
    assert MembersText(v, v.fields, 1, ascii) == second;
    assert MembersText(v, v.fields, 0, ascii) == first + (", " + second);
    Braced(first, second);
  }

  // ---------------------------------------------------------------- ensure_ascii

  predicate IsPrintableAscii(c: char) {
    ' ' <= c <= '~'
  }

  predicate AllPrintableAscii(s: string) {
    forall k | 0 <= k < |s| :: IsPrintableAscii(s[k])
  }

  /** `AllPrintableAscii` character by character, which a literal unfolds. */
  predicate PrintableAsciiFrom(s: string, i: nat)
    decreases |s| - i
  {
    i >= |s| || (IsPrintableAscii(s[i]) && PrintableAsciiFrom(s, i + 1))
  }

  lemma {:induction false} PrintableAsciiFromAll(s: string, i: nat)
    requires PrintableAsciiFrom(s, i)
    ensures forall k | i <= k < |s| :: IsPrintableAscii(s[k])
    decreases |s| - i
  {
    if i < |s| {
      PrintableAsciiFromAll(s, i + 1);
    }
  }

  lemma ConstantAscii(k: NonFinite)
    ensures AllPrintableAscii(ConstantText(k))
  {
    match k
    case NaN => PrintableAsciiFromAll("NaN", 0);
    case Infinity => PrintableAsciiFromAll("Infinity", 0);
    case NegInfinity => PrintableAsciiFromAll("-Infinity", 0);
  }

  lemma AsciiAppend(a: string, b: string)
    requires AllPrintableAscii(a) && AllPrintableAscii(b)
    ensures AllPrintableAscii(a + b)
  {
    forall k | 0 <= k < |a + b|
      ensures IsPrintableAscii((a + b)[k])
    {
      if k >= |a| {
        assert (a + b)[k] == b[k - |a|];
      }
    }
  }

  lemma NatToStringAscii(n: nat)
    ensures AllPrintableAscii(NatToString(n))
  {
    NatToStringDigits(n);
  }

  lemma EscapeCharAscii(c: char)
    ensures AllPrintableAscii(EscapeChar(c, true))
  {
  }

  lemma {:induction false} EscapedAscii(s: string, k: nat)
    requires k <= |s|
    ensures AllPrintableAscii(EscapedFrom(s, k, true))
    decreases |s| - k
  {
    if k < |s| {
      EscapeCharAscii(s[k]);
      EscapedAscii(s, k + 1);
      AsciiAppend(EscapeChar(s[k], true), EscapedFrom(s, k + 1, true));
    }
  }

  lemma QuoteAscii(s: string)
    ensures AllPrintableAscii(Quote(s, true))
  {
    EscapedAscii(s, 0);
    AsciiAppend("\"", EscapedFrom(s, 0, true));
    AsciiAppend("\"" + EscapedFrom(s, 0, true), "\"");
  }

  lemma FloatAscii(m: int, e: int)
    ensures AllPrintableAscii(FloatText(m, e))
  {
    var a := if m < 0 then -m else m;
    if e >= 0 {
      NatToStringAscii(a);
      NatToStringAscii(e);
      AsciiAppend(NatToString(a), "e");
      AsciiAppend(NatToString(a) + "e", NatToString(e));
    } else {
      var i := NatToString(DropDigits(a, -e));
      NatToStringAscii(DropDigits(a, -e));
      LastDigitsAscii(a, -e);
      AsciiAppend(i, ".");
      AsciiAppend(i + ".", LastDigits(a, -e));
    }
    AsciiAppend(if m < 0 then "-" else "", UnsignedFloatText(a, e));
  }

  lemma {:induction false} LastDigitsAscii(m: nat, f: nat)
    ensures AllPrintableAscii(LastDigits(m, f))
    decreases f
  {
    if f > 0 {
      LastDigitsAscii(m / 10, f - 1);
      AsciiAppend(LastDigits(m / 10, f - 1), [DigitChar(m % 10)]);
    }
  }

  /** With `ensure_ascii`, the encoded text consists of printable ASCII characters only. */
  lemma {:induction false} DumpsAscii(v: Json)
    ensures AllPrintableAscii(Dumps(v, true))
    decreases v, 1
  {
    match v
    case JNull =>
    case JBool(_) =>
    case JInt(i) =>
      NatToStringAscii(if i < 0 then -i else i);
      AsciiAppend("-", NatToString(if i < 0 then -i else i));
    case JFloat(m, e) => FloatAscii(m, e);
    case JNonFinite(k) => ConstantAscii(k);
    case JString(s) => QuoteAscii(s);
    case JArray(items) =>
      if items != [] {
        ItemsAscii(v, items, 0);
        AsciiAppend("[", ItemsText(v, items, 0, true));
        AsciiAppend("[" + ItemsText(v, items, 0, true), "]");
      }
    case JObject(fields) =>
      if fields != [] {
        MembersAscii(v, fields, 0);
        AsciiAppend("{", MembersText(v, fields, 0, true));
        AsciiAppend("{" + MembersText(v, fields, 0, true), "}");
      }
  }

  lemma {:induction false} ItemsAscii(parent: Json, items: seq<Json>, k: nat)
    requires parent.JArray? && parent.items == items && k < |items|
    ensures AllPrintableAscii(ItemsText(parent, items, k, true))
    decreases parent, 0, |items| - k
  {
    DumpsAscii(items[k]);
    if k + 1 < |items| {
      ItemsAscii(parent, items, k + 1);
      AsciiAppend(", ", ItemsText(parent, items, k + 1, true));
    }
    AsciiAppend(Dumps(items[k], true), if k + 1 == |items| then "" else ", " + ItemsText(parent, items, k + 1, true));
  }

  lemma {:induction false} MembersAscii(parent: Json, fields: seq<(string, Json)>, k: nat)
    requires parent.JObject? && parent.fields == fields && k < |fields|
    ensures AllPrintableAscii(MembersText(parent, fields, k, true))
    decreases parent, 0, |fields| - k
  {
    var head := Quote(fields[k].0, true) + ": " + Dumps(fields[k].1, true);
    QuoteAscii(fields[k].0);
    DumpsAscii(fields[k].1);
    AsciiAppend(Quote(fields[k].0, true), ": ");
    AsciiAppend(Quote(fields[k].0, true) + ": ", Dumps(fields[k].1, true));
    if k + 1 < |fields| {
      MembersAscii(parent, fields, k + 1);
      AsciiAppend(", ", MembersText(parent, fields, k + 1, true));
    }
    AsciiAppend(head, if k + 1 == |fields| then "" else ", " + MembersText(parent, fields, k + 1, true));
  }
}
