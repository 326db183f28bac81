/**
 * Decoding inverts encoding: the text `json.dumps` writes for a value decodes
 * back to that value, wherever it sits in a larger text, provided a number is
 * not run on into further digits.  Consequently `json.loads(json.dumps(v)) == v`,
 * and `raw_decode` of an encoded object or array followed by anything at all
 * returns that object or array and the index where its text ends.
 */
module JsonRoundTrip {
  import opened Wrappers
  import opened Text
  import opened JsonValues
  import opened JsonDecoder
  import opened JsonEncoder
  import opened JsonStability

  /** The end of a number text: the end of the input, or a character that cannot continue the number. */
  predicate NumberBoundary(s: string, e: nat) {
    e == |s| || (e < |s| && !IsNumberContinuation(s[e]))
  }

  // ---------------------------------------------------------------- occurrences

  /** The text `t` occurs in `s` from index `j` on (stated character by character, without slices). */
  predicate At(s: string, t: string, j: nat) {
    j + |t| <= |s| && MatchesAt(s, j, t, 0)
  }

  // ---------------------------------------------------------------- plain views

  /*
   * Plain names for the recursive functions of the encoder and the decoder.
   * A proof step stated through one of them unfolds the recursive function
   * under it one level only, which keeps each inductive step small.
   */

  function ValueAt(s: string, p: nat): Option<(Json, nat)>
    requires p <= |s|
  {
    ParseValue(s, p)
  }

  function ElementsAt(s: string, j: nat): Option<(seq<Json>, nat)>
    requires j <= |s|
  {
    ParseElements(s, j)
  }

  function MemberAt(s: string, j: nat): Option<(string, Json, nat)>
    requires j <= |s|
  {
    ParseMember(s, j)
  }

  function MembersAt(s: string, j: nat): Option<(seq<(string, Json)>, nat)>
    requires j <= |s|
  {
    ParseMembers(s, j)
  }

  function BodyAt(s: string, p: nat): Option<(string, nat)> {
    ParseStringBody(s, p)
  }

  function DumpsAt(v: Json, ascii: bool): string {
    Dumps(v, ascii)
  }

  function ItemsAt(ghost parent: Json, items: seq<Json>, k: nat, ascii: bool): string
    requires parent.JArray? && parent.items == items && k < |items|
  {
    ItemsText(parent, items, k, ascii)
  }

  function FieldsAt(ghost parent: Json, fields: seq<(string, Json)>, k: nat, ascii: bool): string
    requires parent.JObject? && parent.fields == fields && k < |fields|
  {
    MembersText(parent, fields, k, ascii)
  }

  function EscapedAt(str: string, k: nat, ascii: bool): string
    requires k <= |str|
  {
    EscapedFrom(str, k, ascii)
  }

  lemma {:induction false} MatchBound(s: string, j: nat, t: string, k: nat)
    requires k <= |t| && MatchesAt(s, j, t, k)
    ensures j + |t| <= |s|
    decreases |t| - k
  {
    if k < |t| {
      MatchBound(s, j, t, k + 1);
    }
  }

  lemma {:induction false} MatchChar(s: string, j: nat, t: string, k: nat, m: nat)
    requires k <= m < |t| && j + |t| <= |s| && MatchesAt(s, j, t, k)
    ensures s[j + m] == t[m]
    decreases m - k
  {
    if k < m {
      MatchChar(s, j, t, k + 1, m);
    }
  }

  lemma {:induction false} MatchSplitLeft(s: string, j: nat, a: string, b: string, k: nat)
    requires k <= |a| && MatchesAt(s, j, a + b, k)
    ensures MatchesAt(s, j, a, k)
    decreases |a| - k
  {
    if k < |a| {
      assert (a + b)[k] == a[k];
      MatchSplitLeft(s, j, a, b, k + 1);
    } else {
      MatchBound(s, j, a + b, k);
    }
  }

  lemma {:induction false} MatchSplitRight(s: string, j: nat, a: string, b: string, m: nat)
    requires m <= |b| && MatchesAt(s, j, a + b, |a| + m)
    ensures MatchesAt(s, j + |a|, b, m)
    decreases |b| - m
  {
    if m < |b| {
      assert (a + b)[|a| + m] == b[m];
      MatchSplitRight(s, j, a, b, m + 1);
    }
  }

  lemma {:induction false} MatchSkip(s: string, j: nat, t: string, k: nat, m: nat)
    requires k <= m <= |t| && MatchesAt(s, j, t, k)
    ensures MatchesAt(s, j, t, m)
    decreases m - k
  {
    if k < m {
      MatchSkip(s, j, t, k + 1, m);
    }
  }

  lemma {:induction false} AtSplit(s: string, a: string, b: string, j: nat)
    requires At(s, a + b, j)
    ensures At(s, a, j) && At(s, b, j + |a|)
  {
    MatchSplitLeft(s, j, a, b, 0);
    MatchSkip(s, j, a + b, 0, |a|);
    MatchSplitRight(s, j, a, b, 0);
  }

  lemma {:induction false} AtChar(s: string, a: string, j: nat, k: nat)
    requires At(s, a, j) && k < |a|
    ensures s[j + k] == a[k]
  {
    MatchChar(s, j, a, 0, k);
  }

  lemma {:induction false} MatchStart(t: string, rest: string, k: nat)
    requires k <= |t|
    ensures MatchesAt(t + rest, 0, t, k)
    decreases |t| - k
  {
    if k < |t| {
      assert (t + rest)[k] == t[k];
      MatchStart(t, rest, k + 1);
    }
  }

  /** A text occurs at the start of itself followed by anything. */
  lemma {:induction false} AtStart(t: string, rest: string)
    ensures At(t + rest, t, 0)
  {
    MatchStart(t, rest, 0);
    assert |t + rest| == |t| + |rest|;
  }

  // ---------------------------------------------------------------- digits

  lemma {:induction false} DigitsEndAt(s: string, p: nat, q: nat)
    requires p <= q <= |s|
    requires forall k | p <= k < q :: IsDigit(s[k])
    requires q == |s| || !IsDigit(s[q])
    ensures DigitsEnd(s, p) == q
    decreases q - p
  {
    if p < q {
      DigitsEndAt(s, p + 1, q);
    }
  }

  /** `DigitsValue` depends only on the characters in its range. */
  lemma {:induction false} DigitsValueShift(s: string, a: nat, b: nat, w: string, c: nat)
    requires a <= b <= |s| && c + (b - a) <= |w|
    requires forall k | a <= k < b :: s[k] == w[c + (k - a)]
    ensures DigitsValue(s, a, b) == DigitsValue(w, c, c + (b - a))
    decreases b - a
  {
    if a < b {
      DigitsValueShift(s, a, b - 1, w, c);
    }
  }

  lemma {:induction false} DigitsAppendValue(s: string, a: nat, b: nat, c: nat)
    requires a <= b <= c <= |s|
    ensures DigitsAppend(DigitsValue(s, a, b), s, b, c) == DigitsValue(s, a, c)
    decreases c - b
  {
    if b < c {
      DigitsAppendValue(s, a, b + 1, c);
    }
  }

  lemma {:induction false} DigitsAppendShift(acc: nat, s: string, a: nat, b: nat, w: string, c: nat)
    requires a <= b <= |s| && c + (b - a) <= |w|
    requires forall k | a <= k < b :: s[k] == w[c + (k - a)]
    ensures DigitsAppend(acc, s, a, b) == DigitsAppend(acc, w, c, c + (b - a))
    decreases b - a
  {
    if a < b {
      assert s[a] == w[c];
      DigitsAppendShift(acc * 10 + (if IsDigit(s[a]) then s[a] as int - '0' as int else 0), s, a + 1, b, w, c + 1);
    }
  }

  /** The digits `str(n)` spell the number `n`. */
  lemma {:induction false} DigitsValueNat(n: nat, s: string, p: nat)
    requires At(s, NatToString(n), p)
    ensures DigitsValue(s, p, p + |NatToString(n)|) == n
    decreases n
  {
    var t := NatToString(n);
    AtChar(s, t, p, |t| - 1);
    if n >= 10 {
      var d := NatToString(n / 10);
      assert t == d + [DigitChar(n % 10)];
      AtSplit(s, d, [DigitChar(n % 10)], p);
      DigitsValueNat(n / 10, s, p);
    }
  }

  lemma {:induction false} NatDigits(n: nat, s: string, p: nat)
    requires At(s, NatToString(n), p)
    ensures forall k | p <= k < p + |NatToString(n)| :: IsDigit(s[k])
  {
    NatToStringDigits(n);
    forall k | p <= k < p + |NatToString(n)|
      ensures IsDigit(s[k])
    {
      AtChar(s, NatToString(n), p, k - p);
    }
  }

  /** The integer part of a number text is read back as the number. */
  lemma {:induction false} ParseNatText(n: nat, s: string, p: nat)
    requires At(s, NatToString(n), p)
    requires var q := p + |NatToString(n)|; q == |s| || !IsDigit(s[q])
    ensures p < |s| && IsDigit(s[p])
    ensures IntPartEnd(s, p) == p + |NatToString(n)|
    ensures DigitsValue(s, p, p + |NatToString(n)|) == n
  {
    var t := NatToString(n);
    NatDigits(n, s, p);
    AtChar(s, t, p, 0);
    if s[p] != '0' {
      DigitsEndAt(s, p + 1, p + |t|);
    }
    DigitsValueNat(n, s, p);
  }

  // ---------------------------------------------------------------- numbers, on the decoder's side

  /** A number with its sign flipped. */
  function Negate(v: Json): Json {
    match v
    case JInt(i) => JInt(-i)
    case JFloat(m, e) => JFloat(-m, e)
    case _ => v
  }

  lemma {:induction false} ValueIsNumber(s: string, p: nat)
    requires p < |s| && StartsNumber(s, p)
    ensures ValueAt(s, p) == ParseNumber(s, p)
  {
  }

  lemma {:induction false} NegatedNumber(s: string, p: nat, v: Json, e: nat)
    requires p + 1 < |s| && s[p] == '-' && IsDigit(s[p + 1]) && ParseNumber(s, p + 1) == Some((v, e))
    ensures ParseNumber(s, p) == Some((Negate(v), e))
  {
  }

  lemma {:induction false} IntForm(s: string, q: nat, k: nat)
    requires q < |s| && IsDigit(s[q]) && IntPartEnd(s, q) == k && NumberBoundary(s, k)
    ensures StartsNumber(s, q) && NumberEnd(s, q) == k && NumberValue(s, q) == JInt(DigitsValue(s, q, k))
  {
    assert !HasFraction(s, k);
    assert !HasExponent(s, k);
  }

  lemma {:induction false} ExponentForm(s: string, q: nat, k: nat, f: nat, a: nat, x: nat)
    requires q < |s| && IsDigit(s[q]) && IntPartEnd(s, q) == k && DigitsValue(s, q, k) == a
    requires k + 1 < |s| && s[k] == 'e' && IsDigit(s[k + 1]) && DigitsEnd(s, k + 1) == f && DigitsValue(s, k + 1, f) == x
    ensures ParseNumber(s, q) == Some((JFloat(a, x), f))
  {
    assert !HasFraction(s, k);
    assert ExpDigitsStart(s, k) == k + 1;
    assert HasExponent(s, k);
  }

  lemma {:induction false} PointForm(s: string, q: nat, k: nat, f: nat)
    requires q < |s| && IsDigit(s[q]) && IntPartEnd(s, q) == k
    requires HasFraction(s, k) && DigitsEnd(s, k + 2) == f && NumberBoundary(s, f)
    ensures f > k + 1
    ensures ParseNumber(s, q) == Some((JFloat(DigitsAppend(DigitsValue(s, q, k), s, k + 1, f), -(f - k - 1)), f))
  {
    assert !HasExponent(s, f);
  }

  // ---------------------------------------------------------------- numbers, from the encoder's text

  lemma {:induction false} ParseIntText(i: int, s: string, p: nat)
    requires At(s, IntToString(i), p) && NumberBoundary(s, p + |IntToString(i)|)
    ensures ParseNumber(s, p) == Some((JInt(i), p + |IntToString(i)|))
  {
    var a: nat := if i < 0 then -i else i;
    var t := NatToString(a);
    var q := if i < 0 then p + 1 else p;
    if i < 0 {
      AtSplit(s, "-", t, p);
      AtChar(s, "-", p, 0);
    }
    ParseNatText(a, s, q);
    IntForm(s, q, q + |t|);
    if i < 0 {
      NegatedNumber(s, p, JInt(a), q + |t|);
    }
  }

  /** The text `<a>e<x>` read character by character. */
  lemma {:induction false} ExponentDigits(a: nat, x: nat, s: string, q: nat)
    requires At(s, NatToString(a) + "e" + NatToString(x), q)
    requires var f := q + |NatToString(a)| + 1 + |NatToString(x)|; f == |s| || !IsDigit(s[f])
    ensures var k := q + |NatToString(a)|; var f := k + 1 + |NatToString(x)|;
      q < |s| && IsDigit(s[q]) && IntPartEnd(s, q) == k && DigitsValue(s, q, k) == a
      && k + 1 < |s| && s[k] == 'e' && IsDigit(s[k + 1]) && DigitsEnd(s, k + 1) == f && DigitsValue(s, k + 1, f) == x
  {
    var t := NatToString(a);
    var et := NatToString(x);
    var k := q + |t|;
    AtSplit(s, t + "e", et, q);
    AtSplit(s, t, "e", q);
    AtChar(s, "e", k, 0);
    ParseNatText(a, s, q);
    ParseNatText(x, s, k + 1);
    NatDigits(x, s, k + 1);
    DigitsEndAt(s, k + 1, k + 1 + |et|);
  }

  lemma {:induction false} ExponentText(a: nat, x: nat, s: string, q: nat, e: nat)
    requires At(s, ExponentNotation(a, x), q) && e == q + |ExponentNotation(a, x)| && NumberBoundary(s, e)
    ensures q < |s| && IsDigit(s[q])
    ensures ParseNumber(s, q) == Some((JFloat(a, x), e))
  {
    ExponentDigits(a, x, s, q);
    ExponentForm(s, q, q + |NatToString(a)|, e, a, x);
  }


  /** `t[k..]` consists of digits; stated recursively, so that it unfolds one character at a time. */
  predicate DigitRun(t: string, k: nat)
    requires k <= |t|
    decreases |t| - k
  {
    k == |t| || (IsDigit(t[k]) && DigitRun(t, k + 1))
  }

  lemma {:induction false} DigitRunAll(t: string, k: nat)
    requires k <= |t| && DigitRun(t, k)
    ensures forall i | k <= i < |t| :: IsDigit(t[i])
    decreases |t| - k
  {
    if k < |t| {
      DigitRunAll(t, k + 1);
    }
  }

  lemma {:induction false} RunOfDigits(t: string, k: nat)
    requires k <= |t| && forall i | k <= i < |t| :: IsDigit(t[i])
    ensures DigitRun(t, k)
    decreases |t| - k
  {
    if k < |t| {
      RunOfDigits(t, k + 1);
    }
  }

  /** A run of digits copied into `s` from `p` to `e`, followed by a non-digit. */
  lemma {:induction false} DigitsAt(t: string, s: string, p: nat, e: nat)
    requires At(s, t, p) && e == p + |t| && |t| > 0 && DigitRun(t, 0)
    requires e == |s| || !IsDigit(s[e])
    ensures IsDigit(s[p]) && DigitsEnd(s, p) == e
    ensures DigitsValue(s, p, e) == DigitsValue(t, 0, |t|)
    ensures forall acc: nat :: DigitsAppend(acc, s, p, e) == DigitsAppend(acc, t, 0, |t|)
  {
    DigitRunAll(t, 0);
    forall k | p <= k < e
      ensures s[k] == t[k - p] && IsDigit(s[k])
    {
      AtChar(s, t, p, k - p);
    }
    DigitsEndAt(s, p, e);
    DigitsValueShift(s, p, e, t, 0);
    forall acc: nat
      ensures DigitsAppend(acc, s, p, e) == DigitsAppend(acc, t, 0, |t|)
    {
      DigitsAppendShift(acc, s, p, e, t, 0);
    }
  }

  /** After a digit, the run goes on to the same end. */
  lemma {:induction false} DigitsNext(s: string, p: nat, e: nat)
    requires p < |s| && IsDigit(s[p]) && DigitsEnd(s, p) == e
    ensures DigitsEnd(s, p + 1) == e
  {
  }

  /** The fraction digits `r` of a point number. */
  lemma {:induction false} PointFracPart(r: string, s: string, k: nat, f: nat)
    requires |r| > 0 && DigitRun(r, 0)
    requires k < |s| && s[k] == '.' && At(s, r, k + 1) && f == k + 1 + |r| && NumberBoundary(s, f)
    ensures HasFraction(s, k) && DigitsEnd(s, k + 2) == f
    ensures forall acc: nat :: DigitsAppend(acc, s, k + 1, f) == DigitsAppend(acc, r, 0, |r|)
  {
    DigitsAt(r, s, k + 1, f);
    DigitsNext(s, k + 1, f);
  }

  /** `LastDigits` writes digits only. */
  lemma {:induction false} LastDigitsDigits(m: nat, f: nat)
    ensures forall k | 0 <= k < f :: IsDigit(LastDigits(m, f)[k])
    decreases f
  {
    if f > 0 {
      LastDigitsDigits(m / 10, f - 1);
      var r := LastDigits(m, f);
      forall k | 0 <= k < f
        ensures IsDigit(r[k])
      {
        if k < f - 1 {
          assert r[k] == LastDigits(m / 10, f - 1)[k];
        }
      }
    }
  }

  /** The digits `LastDigits(m, f)` and the digits `DropDigits(m, f)` before them make up `m`. */
  lemma {:induction false} LastDigitsValue(m: nat, f: nat)
    ensures DigitsValue(LastDigits(m, f), 0, f) + Pow10(f) * DropDigits(m, f) == m
    decreases f
  {
    if f > 0 {
      var r := LastDigits(m, f);
      var l := LastDigits(m / 10, f - 1);
      LastDigitsValue(m / 10, f - 1);
      DigitsValueShift(r, 0, f - 1, l, 0);
      assert DigitsValue(r, 0, f) == DigitsValue(l, 0, f - 1) * 10 + m % 10;
      TimesTen(Pow10(f - 1), DropDigits(m, f));
    }
  }

  lemma TimesTen(p: int, x: int)
    ensures (10 * p) * x == 10 * (p * x)
  {
  }

  lemma ShiftStep(acc: int, d: int, p: int)
    ensures (acc * 10 + d) * p == acc * (10 * p) + d * p
  {
  }

  /** Reading digits after a number `acc` shifts `acc` left by their count. */
  lemma {:induction false} DigitsAppendLinear(acc: nat, s: string, a: nat, c: nat)
    requires a <= c <= |s|
    ensures DigitsAppend(acc, s, a, c) == acc * Pow10(c - a) + DigitsAppend(0, s, a, c)
    decreases c - a
  {
    if a < c {
      var d := if IsDigit(s[a]) then s[a] as int - '0' as int else 0;
      DigitsAppendLinear(acc * 10 + d, s, a + 1, c);
      DigitsAppendLinear(d, s, a + 1, c);
      ShiftStep(acc, d, Pow10(c - a - 1));
    }
  }

  /** The integer part and the fraction digits of `PointNotation(a, f)` read back as `a`. */
  lemma {:induction false} PointValue(a: nat, f: nat)
    ensures DigitsAppend(DropDigits(a, f), LastDigits(a, f), 0, f) == a
  {
    var r := LastDigits(a, f);
    DigitsAppendLinear(DropDigits(a, f), r, 0, f);
    DigitsAppendValue(r, 0, 0, f);
    LastDigitsValue(a, f);
  }

  lemma {:induction false} PointText(a: nat, f: nat, s: string, q: nat, e: nat)
    requires f > 0
    requires At(s, PointNotation(a, f), q) && e == q + |PointNotation(a, f)| && NumberBoundary(s, e)
    ensures q < |s| && IsDigit(s[q])
    ensures ParseNumber(s, q) == Some((JFloat(a, -(f as int)), e))
  {
    var i := DropDigits(a, f);
    var t := NatToString(i);
    var r := LastDigits(a, f);
    var k := q + |t|;
    AtSplit(s, t + ".", r, q);
    AtSplit(s, t, ".", q);
    AtChar(s, ".", k, 0);
    ParseNatText(i, s, q);
    LastDigitsDigits(a, f);
    RunOfDigits(r, 0);
    PointFracPart(r, s, k, e);
    PointValue(a, f);
    PointForm(s, q, k, e);
  }

  lemma {:induction false} UnsignedText(a: nat, x: int, s: string, q: nat, e: nat)
    requires At(s, UnsignedFloatText(a, x), q) && e == q + |UnsignedFloatText(a, x)| && NumberBoundary(s, e)
    ensures q < |s| && IsDigit(s[q])
    ensures ParseNumber(s, q) == Some((JFloat(a, x), e))
  {
    if x >= 0 {
      assert UnsignedFloatText(a, x) == ExponentNotation(a, x);
      ExponentText(a, x, s, q, e);
    } else {
      assert UnsignedFloatText(a, x) == PointNotation(a, -x);
      PointText(a, -x, s, q, e);
    }
  }

  lemma {:induction false} ParseFloatText(m: int, x: int, s: string, p: nat)
    requires At(s, FloatText(m, x), p) && NumberBoundary(s, p + |FloatText(m, x)|)
    ensures ParseNumber(s, p) == Some((JFloat(m, x), p + |FloatText(m, x)|))
  {
    if m < 0 {
      NegativeFloatText(m, x, s, p);
    } else {
      PositiveFloatText(m, x, s, p);
    }
  }

  lemma {:induction false} PositiveFloatText(m: int, x: int, s: string, p: nat)
    requires m >= 0 && At(s, FloatText(m, x), p) && NumberBoundary(s, p + |FloatText(m, x)|)
    ensures ParseNumber(s, p) == Some((JFloat(m, x), p + |FloatText(m, x)|))
  {
    AtSplit(s, "", UnsignedFloatText(m, x), p);
    UnsignedText(m, x, s, p, p + |FloatText(m, x)|);
  }

  lemma {:induction false} NegativeFloatText(m: int, x: int, s: string, p: nat)
    requires m < 0 && At(s, FloatText(m, x), p) && NumberBoundary(s, p + |FloatText(m, x)|)
    ensures ParseNumber(s, p) == Some((JFloat(m, x), p + |FloatText(m, x)|))
  {
    AtSplit(s, "-", UnsignedFloatText(-m, x), p);
    NegatedUnsigned(-m, x, s, p, p + |FloatText(m, x)|);
  }

  lemma {:induction false} NegatedUnsigned(a: nat, x: int, s: string, p: nat, e: nat)
    requires At(s, "-", p) && At(s, UnsignedFloatText(a, x), p + 1)
    requires e == p + 1 + |UnsignedFloatText(a, x)| && NumberBoundary(s, e)
    ensures ParseNumber(s, p) == Some((JFloat(-(a as int), x), e))
  {
    if x >= 0 {
      assert UnsignedFloatText(a, x) == ExponentNotation(a, x);
      NegatedExponent(a, x, s, p, e);
    } else {
      assert UnsignedFloatText(a, x) == PointNotation(a, -x);
      NegatedPoint(a, -x, s, p, e);
    }
  }

  lemma {:induction false} NegatedExponent(a: nat, x: nat, s: string, p: nat, e: nat)
    requires At(s, "-", p) && At(s, ExponentNotation(a, x), p + 1)
    requires e == p + 1 + |ExponentNotation(a, x)| && NumberBoundary(s, e)
    ensures ParseNumber(s, p) == Some((JFloat(-(a as int), x), e))
  {
    ExponentText(a, x, s, p + 1, e);
    NegatedAt(JFloat(a, x), s, p, e);
  }

  lemma {:induction false} NegatedPoint(a: nat, f: nat, s: string, p: nat, e: nat)
    requires f > 0
    requires At(s, "-", p) && At(s, PointNotation(a, f), p + 1)
    requires e == p + 1 + |PointNotation(a, f)| && NumberBoundary(s, e)
    ensures ParseNumber(s, p) == Some((JFloat(-(a as int), -(f as int)), e))
  {
    PointText(a, f, s, p + 1, e);
    NegatedAt(JFloat(a, -(f as int)), s, p, e);
  }

  /** A minus sign before a number text negates the number. */
  lemma {:induction false} NegatedAt(v: Json, s: string, p: nat, e: nat)
    requires At(s, "-", p) && p + 1 < |s| && IsDigit(s[p + 1]) && ParseNumber(s, p + 1) == Some((v, e))
    ensures ParseNumber(s, p) == Some((Negate(v), e))
  {
    AtChar(s, "-", p, 0);
    NegatedNumber(s, p, v, e);
  }

  // ---------------------------------------------------------------- strings

  lemma {:induction false} HexDigitValue(d: nat)
    requires d < 16
    ensures HexValue(HexDigit(d)) == Some(d)
  {
  }

  lemma {:induction false} Hex4Arith(n: nat)
    requires n < 0x1_0000
    ensures ((n / 0x1000 * 16 + n / 0x100 % 16) * 16 + n / 16 % 16) * 16 + n % 16 == n
  {
    assert n / 0x100 == n / 0x1000 * 16 + n / 0x100 % 16;
    assert n / 16 == n / 0x100 * 16 + n / 16 % 16;
  }

  lemma {:induction false} ParseHex4Text(n: nat, s: string, p: nat)
    requires n < 0x1_0000 && At(s, Hex4Text(n), p)
    ensures Hex4(s, p) == Some(n)
  {
    var t := Hex4Text(n);
    AtChar(s, t, p, 0);
    AtChar(s, t, p, 1);
    AtChar(s, t, p, 2);
    AtChar(s, t, p, 3);
    HexDigitValue(n / 0x1000);
    HexDigitValue(n / 0x100 % 16);
    HexDigitValue(n / 16 % 16);
    HexDigitValue(n % 16);
    Hex4Arith(n);
  }

  /** An escape sequence written by the encoder decodes to the character it stands for. */
  lemma {:induction false} ParseEscapeText(c: char, ascii: bool, s: string, p: nat)
    requires At(s, EscapeChar(c, ascii), p) && EscapeChar(c, ascii)[0] == '\\'
    ensures Escape(s, p + 1) == Some((c, p + |EscapeChar(c, ascii)|))
  {
    var t := EscapeChar(c, ascii);
    if |t| == 6 {
      assert t == "\\u" + Hex4Text(c as int);
      UnicodeEscapeText(c as int, s, p);
    } else if |t| == 12 {
      var n := c as int - 0x1_0000;
      var hi := 0xD800 + n / 0x400;
      var lo := 0xDC00 + n % 0x400;
      assert t == "\\u" + Hex4Text(hi) + "\\u" + Hex4Text(lo);
      PairEscapeText(hi, lo, s, p);
    } else {
      AtChar(s, t, p, 1);
    }
  }

  /** `\uXXXX` for a character of the Basic Multilingual Plane. */
  lemma {:induction false} UnicodeEscapeText(n: nat, s: string, p: nat)
    requires n < 0x1_0000 && !IsHighSurrogate(n) && !IsLowSurrogate(n)
    requires At(s, "\\u" + Hex4Text(n), p)
    ensures Escape(s, p + 1) == Some((n as char, p + 6))
  {
    AtSplit(s, "\\u", Hex4Text(n), p);
    AtChar(s, "\\u", p, 1);
    ParseHex4Text(n, s, p + 2);
  }

  /** `\uXXXX\uXXXX` for a character beyond the Basic Multilingual Plane, as a surrogate pair. */
  lemma {:induction false} PairEscapeText(hi: nat, lo: nat, s: string, p: nat)
    requires IsHighSurrogate(hi) && IsLowSurrogate(lo)
    requires At(s, "\\u" + Hex4Text(hi) + "\\u" + Hex4Text(lo), p)
    ensures Escape(s, p + 1) == Some(((0x1_0000 + (hi - 0xD800) * 0x400 + (lo - 0xDC00)) as char, p + 12))
  {
    var t := "\\u" + Hex4Text(hi) + "\\u" + Hex4Text(lo);
    AtSplit(s, "\\u" + Hex4Text(hi) + "\\u", Hex4Text(lo), p);
    AtSplit(s, "\\u" + Hex4Text(hi), "\\u", p);
    AtSplit(s, "\\u", Hex4Text(hi), p);
    AtChar(s, t, p, 1);
    AtChar(s, t, p, 6);
    AtChar(s, t, p, 7);
    ParseHex4Text(hi, s, p + 2);
    ParseHex4Text(lo, s, p + 8);
  }

  lemma {:induction false} PlainChar(c: char, ascii: bool)
    requires EscapeChar(c, ascii)[0] != '\\'
    ensures EscapeChar(c, ascii) == [c] && c >= ' ' && c != '"' && c != '\\'
  {
  }

  lemma {:induction false} BodyEscapeStep(s: string, p: nat, c: char, j: nat, rest: string, e: nat)
    requires p < |s| && s[p] == '\\' && Escape(s, p + 1) == Some((c, j))
    requires ParseStringBody(s, j) == Some((rest, e))
    ensures ParseStringBody(s, p) == Some(([c] + rest, e))
  {
  }

  lemma {:induction false} BodyClose(s: string, p: nat)
    requires p < |s| && s[p] == '"'
    ensures ParseStringBody(s, p) == Some(("", p + 1))
  {
  }

  lemma {:induction false} BodyPlainStep(s: string, p: nat, rest: string, e: nat)
    requires p < |s| && s[p] >= ' ' && s[p] != '"' && s[p] != '\\'
    requires ParseStringBody(s, p + 1) == Some((rest, e))
    ensures ParseStringBody(s, p) == Some(([s[p]] + rest, e))
  {
  }

  /** One escaped character followed by the rest of a string body. */
  lemma {:induction false} EscapedCharStep(c: char, ascii: bool, s: string, p: nat, rest: string, e: nat)
    requires At(s, EscapeChar(c, ascii), p)
    requires ParseStringBody(s, p + |EscapeChar(c, ascii)|) == Some((rest, e))
    ensures ParseStringBody(s, p) == Some(([c] + rest, e))
  {
    var t := EscapeChar(c, ascii);
    AtChar(s, t, p, 0);
    if t[0] == '\\' {
      ParseEscapeText(c, ascii, s, p);
      BodyEscapeStep(s, p, c, p + |t|, rest, e);
    } else {
      PlainChar(c, ascii);
      BodyPlainStep(s, p, rest, e);
    }
  }

  lemma {:induction false} SliceCons<T>(xs: seq<T>, k: nat)
    requires k < |xs|
    ensures xs[k..] == [xs[k]] + xs[k + 1..]
  {
  }

  lemma {:induction false} SliceLast<T>(xs: seq<T>, k: nat)
    requires k + 1 == |xs|
    ensures xs[k..] == [xs[k]]
  {
  }

  /** The escape of `str[k]` followed by the decoded rest of the body. */
  lemma {:induction false} EscapedHead(str: string, k: nat, ascii: bool, s: string, p: nat, e: nat)
    requires k < |str| && At(s, EscapeChar(str[k], ascii), p)
    requires BodyAt(s, p + |EscapeChar(str[k], ascii)|) == Some((str[k + 1..], e))
    ensures BodyAt(s, p) == Some((str[k..], e))
  {
    EscapedCharStep(str[k], ascii, s, p, str[k + 1..], e);
    SliceCons(str, k);
  }

  lemma {:induction false} EscapedEnd(str: string, k: nat, ascii: bool, s: string, p: nat)
    requires k == |str| && p < |s| && s[p] == '"'
    ensures BodyAt(s, p) == Some((str[k..], p + |EscapedAt(str, k, ascii)| + 1))
  {
    BodyClose(s, p);
    assert str[k..] == "";
  }

  lemma {:induction false} EscapedCons(str: string, k: nat, ascii: bool)
    requires k < |str|
    ensures EscapedAt(str, k, ascii) == EscapeChar(str[k], ascii) + EscapedAt(str, k + 1, ascii)
  {
  }

  /** The escaped text of `str[k..]`, followed by a closing quote, decodes to `str[k..]`. */
  lemma {:induction false} ParseEscapedText(str: string, k: nat, ascii: bool, s: string, p: nat)
    requires k <= |str| && At(s, EscapedAt(str, k, ascii), p)
    requires p + |EscapedAt(str, k, ascii)| < |s| && s[p + |EscapedAt(str, k, ascii)|] == '"'
    ensures BodyAt(s, p) == Some((str[k..], p + |EscapedAt(str, k, ascii)| + 1))
    decreases |str| - k
  {
    if k == |str| {
      EscapedEnd(str, k, ascii, s, p);
    } else {
      var t := EscapeChar(str[k], ascii);
      EscapedCons(str, k, ascii);
      AtSplit(s, t, EscapedAt(str, k + 1, ascii), p);
      ParseEscapedText(str, k + 1, ascii, s, p + |t|);
      EscapedHead(str, k, ascii, s, p, p + |EscapedAt(str, k, ascii)| + 1);
    }
  }

  lemma {:induction false} QuoteText(str: string, ascii: bool)
    ensures Quote(str, ascii) == "\"" + EscapedAt(str, 0, ascii) + "\""
  {
  }

  lemma {:induction false} ParseQuoteText(str: string, ascii: bool, s: string, p: nat)
    requires At(s, Quote(str, ascii), p)
    ensures p < |s| && s[p] == '"'
    ensures BodyAt(s, p + 1) == Some((str, p + |Quote(str, ascii)|))
  {
    var e := EscapedAt(str, 0, ascii);
    QuoteText(str, ascii);
    AtSplit(s, "\"" + e, "\"", p);
    AtSplit(s, "\"", e, p);
    AtChar(s, "\"", p, 0);
    AtChar(s, "\"", p + 1 + |e|, 0);
    ParseEscapedText(str, 0, ascii, s, p + 1);
    assert str[0..] == str;
  }

  // ---------------------------------------------------------------- values, on the decoder's side

  lemma {:induction false} ValueLiteral(s: string, p: nat, lit: string, v: Json)
    requires (lit, v) == ("null", JNull) || (lit, v) == ("true", JBool(true)) || (lit, v) == ("false", JBool(false))
    requires At(s, lit, p)
    ensures ValueAt(s, p) == Some((v, p + |lit|))
  {
    AtChar(s, lit, p, 0);
    AtChar(s, lit, p, 1);
    AtChar(s, lit, p, 2);
    AtChar(s, lit, p, 3);
    if |lit| == 5 {
      AtChar(s, lit, p, 4);
    }
  }

  lemma {:induction false} ValueConstant(s: string, p: nat, k: NonFinite)
    requires At(s, ConstantText(k), p)
    ensures ValueAt(s, p) == Some((JNonFinite(k), p + |ConstantText(k)|))
  {
    var lit := ConstantText(k);
    AtChar(s, lit, p, 0);
    AtChar(s, lit, p, 1);
    AtChar(s, lit, p, 2);
    if k != NaN {
      AtChar(s, lit, p, 3);
      AtChar(s, lit, p, 4);
      AtChar(s, lit, p, 5);
      AtChar(s, lit, p, 6);
      AtChar(s, lit, p, 7);
    }
    if k == NegInfinity {
      AtChar(s, lit, p, 8);
    }
  }

  lemma {:induction false} ValueString(s: string, p: nat, str: string, e: nat)
    requires p < |s| && s[p] == '"' && BodyAt(s, p + 1) == Some((str, e))
    ensures ValueAt(s, p) == Some((JString(str), e))
  {
  }

  lemma {:induction false} ValueEmpty(s: string, p: nat)
    requires p + 1 < |s| && ((s[p] == '[' && s[p + 1] == ']') || (s[p] == '{' && s[p + 1] == '}'))
    ensures ValueAt(s, p) == Some((if s[p] == '[' then JArray([]) else JObject([]), p + 2))
  {
    NoSpaceAt(s, p + 1);
    if s[p] == '[' {
      assert ParseArray(s, p) == Some((JArray([]), p + 2));
    } else {
      assert ParseObject(s, p) == Some((JObject([]), p + 2));
    }
  }

  lemma {:induction false} ValueArray(s: string, p: nat, items: seq<Json>, e: nat)
    requires p + 1 < |s| && s[p] == '[' && !IsJsonSpace(s[p + 1]) && s[p + 1] != ']'
    requires ElementsAt(s, p + 1) == Some((items, e))
    ensures ValueAt(s, p) == Some((JArray(items), e))
  {
    NoSpaceAt(s, p + 1);
    assert ParseArray(s, p) == Some((JArray(items), e));
  }

  lemma {:induction false} ValueObject(s: string, p: nat, fields: seq<(string, Json)>, e: nat)
    requires p + 1 < |s| && s[p] == '{' && !IsJsonSpace(s[p + 1]) && s[p + 1] != '}'
    requires MembersAt(s, p + 1) == Some((fields, e))
    ensures ValueAt(s, p) == Some((JObject(fields), e))
  {
    NoSpaceAt(s, p + 1);
    assert ParseObject(s, p) == Some((JObject(fields), e));
  }

  lemma {:induction false} NoSpaceAt(s: string, i: nat)
    requires i < |s| && !IsJsonSpace(s[i])
    ensures SkipWs(s, i) == i
  {
  }

  lemma {:induction false} OneSpaceAt(s: string, i: nat)
    requires i + 1 < |s| && s[i] == ' ' && !IsJsonSpace(s[i + 1])
    ensures SkipWs(s, i) == i + 1
  {
    NoSpaceAt(s, i + 1);
  }

  lemma {:induction false} ElementsLast(s: string, j: nat, v: Json, e: nat)
    requires j <= |s| && ValueAt(s, j) == Some((v, e)) && e < |s| && s[e] == ']'
    ensures ElementsAt(s, j) == Some(([v], e + 1))
  {
    NoSpaceAt(s, e);
    assert ElementsAfter(s, v, e) == Some(([v], e + 1));
  }

  lemma {:induction false} ElementsMore(s: string, j: nat, v: Json, e: nat, rest: seq<Json>, end: nat)
    requires j <= |s| && ValueAt(s, j) == Some((v, e))
    requires e + 2 < |s| && s[e] == ',' && s[e + 1] == ' ' && !IsJsonSpace(s[e + 2])
    requires ElementsAt(s, e + 2) == Some((rest, end))
    ensures ElementsAt(s, j) == Some(([v] + rest, end))
  {
    NoSpaceAt(s, e);
    OneSpaceAt(s, e + 1);
    assert ElementsAfter(s, v, e) == Some(([v] + rest, end));
  }

  lemma {:induction false} MemberStep(s: string, j: nat, key: string, c: nat, v: Json, e: nat)
    requires j < |s| && s[j] == '"' && BodyAt(s, j + 1) == Some((key, c))
    requires c + 2 < |s| && s[c] == ':' && s[c + 1] == ' ' && !IsJsonSpace(s[c + 2])
    requires ValueAt(s, c + 2) == Some((v, e))
    ensures MemberAt(s, j) == Some((key, v, e))
  {
    NoSpaceAt(s, c);
    OneSpaceAt(s, c + 1);
    assert MemberValue(s, key, c) == Some((key, v, e));
  }

  lemma {:induction false} MembersLast(s: string, j: nat, kv: (string, Json), e: nat)
    requires j <= |s| && MemberAt(s, j) == Some((kv.0, kv.1, e)) && e < |s| && s[e] == '}'
    ensures MembersAt(s, j) == Some(([kv], e + 1))
  {
    NoSpaceAt(s, e);
    assert MembersAfter(s, kv, e) == Some(([kv], e + 1));
  }

  lemma {:induction false} MembersMore(s: string, j: nat, kv: (string, Json), e: nat, rest: seq<(string, Json)>, end: nat)
    requires j <= |s| && MemberAt(s, j) == Some((kv.0, kv.1, e))
    requires e + 2 < |s| && s[e] == ',' && s[e + 1] == ' ' && !IsJsonSpace(s[e + 2])
    requires MembersAt(s, e + 2) == Some((rest, end))
    ensures MembersAt(s, j) == Some(([kv] + rest, end))
  {
    NoSpaceAt(s, e);
    OneSpaceAt(s, e + 1);
    assert MembersAfter(s, kv, e) == Some(([kv] + rest, end));
  }

  // ---------------------------------------------------------------- values, from the encoder's text

  /** The characters an encoded value can start with; none of them is whitespace or a closing bracket. */
  predicate StartsValueText(c: char) {
    c == 'n' || c == 't' || c == 'f' || c == 'N' || c == 'I' || c == '-' || IsDigit(c) || c == '"' || c == '[' || c == '{'
  }

  lemma {:induction false} DumpsFirst(v: Json, ascii: bool)
    ensures StartsValueText(DumpsAt(v, ascii)[0])
  {
    match v
    case JInt(i) =>
      assert IntToString(i)[0] == '-' || IntToString(i)[0] == NatToString(i)[0];
    case JFloat(m, x) =>
      var a: nat := if m < 0 then -m else m;
      if m >= 0 {
        if x >= 0 {
          assert UnsignedFloatText(a, x)[0] == NatToString(a)[0];
        } else {
          assert UnsignedFloatText(a, x)[0] == NatToString(DropDigits(a, -x))[0];
        }
      }
    case _ =>
  }

  lemma {:induction false} ArrayText(v: Json, ascii: bool)
    requires v.JArray? && v.items != []
    ensures DumpsAt(v, ascii) == "[" + ItemsAt(v, v.items, 0, ascii) + "]"
  {
  }

  lemma {:induction false} ObjectText(v: Json, ascii: bool)
    requires v.JObject? && v.fields != []
    ensures DumpsAt(v, ascii) == "{" + FieldsAt(v, v.fields, 0, ascii) + "}"
  {
  }

  lemma {:induction false} ItemsLastText(parent: Json, items: seq<Json>, k: nat, ascii: bool)
    requires parent.JArray? && parent.items == items && k + 1 == |items|
    ensures ItemsAt(parent, items, k, ascii) == DumpsAt(items[k], ascii) + ""
  {
  }

  lemma {:induction false} ItemsMoreText(parent: Json, items: seq<Json>, k: nat, ascii: bool)
    requires parent.JArray? && parent.items == items && k + 1 < |items|
    ensures ItemsAt(parent, items, k, ascii) == DumpsAt(items[k], ascii) + (", " + ItemsAt(parent, items, k + 1, ascii))
  {
  }

  lemma {:induction false} FieldsLastText(parent: Json, fields: seq<(string, Json)>, k: nat, ascii: bool)
    requires parent.JObject? && parent.fields == fields && k + 1 == |fields|
    ensures FieldsAt(parent, fields, k, ascii) == Quote(fields[k].0, ascii) + ": " + DumpsAt(fields[k].1, ascii) + ""
  {
  }

  lemma {:induction false} FieldsMoreText(parent: Json, fields: seq<(string, Json)>, k: nat, ascii: bool)
    requires parent.JObject? && parent.fields == fields && k + 1 < |fields|
    ensures FieldsAt(parent, fields, k, ascii)
      == Quote(fields[k].0, ascii) + ": " + DumpsAt(fields[k].1, ascii) + (", " + FieldsAt(parent, fields, k + 1, ascii))
  {
  }

  lemma {:induction false} ItemsFirst(parent: Json, items: seq<Json>, k: nat, ascii: bool)
    requires parent.JArray? && parent.items == items && k < |items|
    ensures StartsValueText(ItemsAt(parent, items, k, ascii)[0])
  {
    DumpsFirst(items[k], ascii);
  }

  lemma {:induction false} FieldsFirst(parent: Json, fields: seq<(string, Json)>, k: nat, ascii: bool)
    requires parent.JObject? && parent.fields == fields && k < |fields|
    ensures FieldsAt(parent, fields, k, ascii)[0] == '"'
  {
  }

  lemma {:induction false} ParseScalarText(v: Json, ascii: bool, s: string, p: nat)
    requires v.JNull? || v.JBool?
    requires At(s, DumpsAt(v, ascii), p)
    ensures ValueAt(s, p) == Some((v, p + |DumpsAt(v, ascii)|))
  {
    ValueLiteral(s, p, Dumps(v, ascii), v);
  }

  lemma {:induction false} ParseConstantText(v: Json, ascii: bool, s: string, p: nat)
    requires v.JNonFinite? && At(s, DumpsAt(v, ascii), p)
    ensures ValueAt(s, p) == Some((v, p + |DumpsAt(v, ascii)|))
  {
    ValueConstant(s, p, v.kind);
  }

  lemma {:induction false} ParseNumberText(v: Json, ascii: bool, s: string, p: nat)
    requires IsNumber(v) && At(s, DumpsAt(v, ascii), p) && NumberBoundary(s, p + |DumpsAt(v, ascii)|)
    ensures ValueAt(s, p) == Some((v, p + |DumpsAt(v, ascii)|))
  {
    var t := DumpsAt(v, ascii);
    if v.JInt? {
      ParseIntText(v.i, s, p);
    } else {
      ParseFloatText(v.mantissa, v.exponent, s, p);
    }
    DumpsFirst(v, ascii);
    AtChar(s, t, p, 0);
    ValueIsNumber(s, p);
  }

  lemma {:induction false} ParseStringText(v: Json, ascii: bool, s: string, p: nat)
    requires v.JString? && At(s, DumpsAt(v, ascii), p)
    ensures ValueAt(s, p) == Some((v, p + |DumpsAt(v, ascii)|))
  {
    ParseQuoteText(v.s, ascii, s, p);
    ValueString(s, p, v.s, p + |DumpsAt(v, ascii)|);
  }

  lemma {:induction false} ParseEmptyText(v: Json, ascii: bool, s: string, p: nat)
    requires v == JArray([]) || v == JObject([])
    requires At(s, DumpsAt(v, ascii), p)
    ensures ValueAt(s, p) == Some((v, p + |DumpsAt(v, ascii)|))
  {
    var t := DumpsAt(v, ascii);
    AtChar(s, t, p, 0);
    AtChar(s, t, p, 1);
    ValueEmpty(s, p);
  }

  /** The text of a value decodes to that value, wherever it occurs, if a number is not run on. */
  lemma {:induction false} ParseDumps(v: Json, ascii: bool, s: string, p: nat)
    requires At(s, DumpsAt(v, ascii), p)
    requires IsNumber(v) ==> NumberBoundary(s, p + |DumpsAt(v, ascii)|)
    ensures ValueAt(s, p) == Some((v, p + |DumpsAt(v, ascii)|))
    decreases v, 3
  {
    if v.JNull? || v.JBool? {
      ParseScalarText(v, ascii, s, p);
    } else if v.JNonFinite? {
      ParseConstantText(v, ascii, s, p);
    } else if IsNumber(v) {
      ParseNumberText(v, ascii, s, p);
    } else if v.JString? {
      ParseStringText(v, ascii, s, p);
    } else if v == JArray([]) || v == JObject([]) {
      ParseEmptyText(v, ascii, s, p);
    } else if v.JArray? {
      ParseArrayText(v, ascii, s, p);
    } else {
      ParseObjectText(v, ascii, s, p);
    }
  }

  lemma {:induction false} ParseArrayText(v: Json, ascii: bool, s: string, p: nat)
    requires v.JArray? && v.items != [] && At(s, DumpsAt(v, ascii), p)
    ensures ValueAt(s, p) == Some((v, p + |DumpsAt(v, ascii)|))
    decreases v, 2
  {
    var body := ItemsAt(v, v.items, 0, ascii);
    ArrayText(v, ascii);
    AtSplit(s, "[" + body, "]", p);
    AtSplit(s, "[", body, p);
    AtChar(s, "[", p, 0);
    AtChar(s, "]", p + 1 + |body|, 0);
    ItemsFirst(v, v.items, 0, ascii);
    AtChar(s, body, p + 1, 0);
    ParseItemsText(v, v.items, 0, ascii, s, p + 1);
    assert v.items[0..] == v.items;
    ValueArray(s, p, v.items, p + 1 + |body| + 1);
  }

  lemma {:induction false} ParseObjectText(v: Json, ascii: bool, s: string, p: nat)
    requires v.JObject? && v.fields != [] && At(s, DumpsAt(v, ascii), p)
    ensures ValueAt(s, p) == Some((v, p + |DumpsAt(v, ascii)|))
    decreases v, 2
  {
    var body := FieldsAt(v, v.fields, 0, ascii);
    ObjectText(v, ascii);
    AtSplit(s, "{" + body, "}", p);
    AtSplit(s, "{", body, p);
    AtChar(s, "{", p, 0);
    AtChar(s, "}", p + 1 + |body|, 0);
    FieldsFirst(v, v.fields, 0, ascii);
    AtChar(s, body, p + 1, 0);
    ParseMembersText(v, v.fields, 0, ascii, s, p + 1);
    assert v.fields[0..] == v.fields;
    ValueObject(s, p, v.fields, p + 1 + |body| + 1);
  }

  /** The elements `items[k..]` and the closing bracket decode to `items[k..]`. */
  lemma {:induction false} ParseItemsText(parent: Json, items: seq<Json>, k: nat, ascii: bool, s: string, j: nat)
    requires parent.JArray? && parent.items == items && k < |items|
    requires At(s, ItemsAt(parent, items, k, ascii), j)
    requires j + |ItemsAt(parent, items, k, ascii)| < |s| && s[j + |ItemsAt(parent, items, k, ascii)|] == ']'
    ensures ElementsAt(s, j) == Some((items[k..], j + |ItemsAt(parent, items, k, ascii)| + 1))
    decreases parent, 1, |items| - k
  {
    var d := DumpsAt(items[k], ascii);
    var e := j + |d|;
    if k + 1 == |items| {
      ItemsLastText(parent, items, k, ascii);
      AtSplit(s, d, "", j);
      ParseDumps(items[k], ascii, s, j);
      ElementsLast(s, j, items[k], e);
      SliceLast(items, k);
    } else {
      var rest := ItemsAt(parent, items, k + 1, ascii);
      ItemsMoreText(parent, items, k, ascii);
      AtSplit(s, d, ", " + rest, j);
      AtSplit(s, ", ", rest, e);
      AtChar(s, ", ", e, 0);
      AtChar(s, ", ", e, 1);
      ParseDumps(items[k], ascii, s, j);
      ItemsFirst(parent, items, k + 1, ascii);
      AtChar(s, rest, e + 2, 0);
      ParseItemsText(parent, items, k + 1, ascii, s, e + 2);
      ElementsMore(s, j, items[k], e, items[k + 1..], e + 2 + |rest| + 1);
      SliceCons(items, k);
    }
  }

  /** A member's key, its `": "` and the start of its value. */
  lemma {:induction false} MemberHead(key: string, val: Json, ascii: bool, s: string, j: nat)
    requires At(s, Quote(key, ascii) + ": " + DumpsAt(val, ascii), j)
    ensures var c := j + |Quote(key, ascii)|;
      j < |s| && s[j] == '"' && BodyAt(s, j + 1) == Some((key, c))
      && c + 2 < |s| && s[c] == ':' && s[c + 1] == ' ' && !IsJsonSpace(s[c + 2])
      && At(s, DumpsAt(val, ascii), c + 2)
  {
    var qk := Quote(key, ascii);
    var d := DumpsAt(val, ascii);
    var c := j + |qk|;
    AtSplit(s, qk + ": ", d, j);
    AtSplit(s, qk, ": ", j);
    AtChar(s, ": ", c, 0);
    AtChar(s, ": ", c, 1);
    ParseQuoteText(key, ascii, s, j);
    DumpsFirst(val, ascii);
    AtChar(s, d, c + 2, 0);
  }

  /** One member `"key": value`, followed by a delimiter. */
  lemma {:induction false} ParseMemberText(key: string, val: Json, ascii: bool, s: string, j: nat)
    requires At(s, Quote(key, ascii) + ": " + DumpsAt(val, ascii), j)
    requires var e := j + |Quote(key, ascii) + ": " + DumpsAt(val, ascii)|; e < |s| && (s[e] == ',' || s[e] == '}')
    ensures MemberAt(s, j) == Some((key, val, j + |Quote(key, ascii) + ": " + DumpsAt(val, ascii)|))
    decreases val, 4
  {
    var c := j + |Quote(key, ascii)|;
    MemberHead(key, val, ascii, s, j);
    ParseDumps(val, ascii, s, c + 2);
    MemberStep(s, j, key, c, val, c + 2 + |DumpsAt(val, ascii)|);
  }

  /** The members `fields[k..]` and the closing brace decode to `fields[k..]`. */
  lemma {:induction false} ParseMembersText(parent: Json, fields: seq<(string, Json)>, k: nat, ascii: bool, s: string, j: nat)
    requires parent.JObject? && parent.fields == fields && k < |fields|
    requires At(s, FieldsAt(parent, fields, k, ascii), j)
    requires j + |FieldsAt(parent, fields, k, ascii)| < |s| && s[j + |FieldsAt(parent, fields, k, ascii)|] == '}'
    ensures MembersAt(s, j) == Some((fields[k..], j + |FieldsAt(parent, fields, k, ascii)| + 1))
    decreases parent, 1, |fields| - k
  {
    var key := fields[k].0;
    var val := fields[k].1;
    var head := Quote(key, ascii) + ": " + DumpsAt(val, ascii);
    var e := j + |head|;
    if k + 1 == |fields| {
      FieldsLastText(parent, fields, k, ascii);
      AtSplit(s, head, "", j);
      ParseMemberText(key, val, ascii, s, j);
      MembersLast(s, j, fields[k], e);
      SliceLast(fields, k);
    } else {
      var rest := FieldsAt(parent, fields, k + 1, ascii);
      FieldsMoreText(parent, fields, k, ascii);
      AtSplit(s, head, ", " + rest, j);
      AtSplit(s, ", ", rest, e);
      AtChar(s, ", ", e, 0);
      AtChar(s, ", ", e, 1);
      ParseMemberText(key, val, ascii, s, j);
      FieldsFirst(parent, fields, k + 1, ascii);
      AtChar(s, rest, e + 2, 0);
      ParseMembersText(parent, fields, k + 1, ascii, s, e + 2);
      MembersMore(s, j, fields[k], e, fields[k + 1..], e + 2 + |rest| + 1);
      SliceCons(fields, k);
    }
  }

  // ---------------------------------------------------------------- the round trips

  /** `json.loads(json.dumps(v)) == v`, with or without `ensure_ascii`. */
  lemma {:induction false} LoadsDumps(v: Json, ascii: bool)
    ensures Loads(Dumps(v, ascii)) == Ok(v)
  {
    LoadsDumpsAt(v, ascii);
  }

  lemma {:induction false} LoadsDumpsAt(v: Json, ascii: bool)
    ensures Loads(DumpsAt(v, ascii)) == Ok(v)
  {
    var t := DumpsAt(v, ascii);
    AtStart(t, []);
    assert t + [] == t;
    DumpsFirst(v, ascii);
    ParseDumps(v, ascii, t, 0);
    LoadsWhole(t, v);
  }

  /** A text that starts with a value and holds nothing after it is loaded as that value. */
  lemma {:induction false} LoadsWhole(t: string, v: Json)
    requires |t| > 0 && StartsValueText(t[0]) && ValueAt(t, 0) == Some((v, |t|))
    ensures Loads(t) == Ok(v)
  {
    NoSpaceAt(t, 0);
  }

  /** `raw_decode` of an encoded object or array followed by any text finds that value and where it ends. */
  lemma {:induction false} RawDecodeDumps(v: Json, ascii: bool, rest: string)
    requires v.JObject? || v.JArray?
    ensures RawDecode(Dumps(v, ascii) + rest) == Some((v, |Dumps(v, ascii)|))
  {
    var t := DumpsAt(v, ascii);
    var s := t + rest;
    AtStart(t, rest);
    ParseDumps(v, ascii, s, 0);
  }
}
