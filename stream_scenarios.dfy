/**
 * What the stream assembler does with the fragment sequences of the
 * repository's stream-parser tests: what each fragment adds to the buffer,
 * and what each `feed` call of those tests returns and leaves behind.
 */
module StreamScenarios {
  import opened Wrappers
  import opened Text
  import opened JsonValues
  import opened JsonDecoder
  import opened JsonEncoder
  import opened StreamParser
  import opened Slices

  // ---------------------------------------------------------------- draining the buffer

  /** A `feed('')` that returns a value consumes at least one character of the buffer. */
  lemma FeedEmptyShrinks(buffer: string, maxBuffer: int)
    requires FeedSpec(buffer, maxBuffer, "").0.Some?
    ensures |FeedSpec(buffer, maxBuffer, "").1| < |buffer|
  {
    var c := Capped(buffer, maxBuffer);
    assert |c| <= |buffer|;
    var start := FindJsonStart(c).value;
    var end := RawDecode(c[start..]).value.1;
    assert FeedSpec(buffer, maxBuffer, "").1 == c[start..][end..];
  }

  /** `while (obj := feed('')) is not None: results.append(obj)`: the values and the buffer left. */
  function DrainEmpty(buffer: string, maxBuffer: int): (seq<Json>, string)
    decreases |buffer|
  {
    var (r, next) := FeedSpec(buffer, maxBuffer, "");
    if r.None? then ([], next)
    else
      FeedEmptyShrinks(buffer, maxBuffer);
      var (later, rest) := DrainEmpty(next, maxBuffer);
      ([r.value] + later, rest)
  }

  // ---------------------------------------------------------------- one value spread over fragments

  /** What fragment `chunk` adds to whatever the buffer holds. */
  function Contribution(chunk: string): string {
    Appended("", chunk)
  }

  lemma AppendAssoc(a: string, b: string, c: string)
    ensures a + b + c == a + (b + c)
  {
  }

  lemma AppendEmpty(a: string)
    ensures a + "" == a
  {
  }

  lemma AppendedContribution(buffer: string, chunk: string)
    ensures Appended(buffer, chunk) == buffer + Contribution(chunk)
  {
    if chunk == "" {
      AppendEmpty(buffer);
    }
  }

  // ---------------------------------------------------------------- concatenated values

  /** The texts of `vs`, one after another with nothing between. */
  function DumpsAll(vs: seq<Json>, ascii: bool): string {
    if vs == [] then "" else Dumps(vs[0], ascii) + DumpsAll(vs[1..], ascii)
  }

  predicate AllContainers(vs: seq<Json>) {
    forall k | 0 <= k < |vs| :: vs[k].JObject? || vs[k].JArray?
  }

  /** Repeated `feed('')` takes concatenated objects out of the buffer one per call, in order. */
  lemma {:induction false} DrainConcatenated(vs: seq<Json>, ascii: bool, maxBuffer: int)
    requires AllContainers(vs)
    requires |DumpsAll(vs, ascii)| <= maxBuffer
    ensures DrainEmpty(DumpsAll(vs, ascii), maxBuffer) == (vs, "")
    decreases |vs|
  {
    if vs == [] {
      assert FeedSpec("", maxBuffer, "") == (None, "");
    } else {
      FeedDrainsFirst(vs[0], ascii, DumpsAll(vs[1..], ascii), maxBuffer);
      DrainConcatenated(vs[1..], ascii, maxBuffer);
      assert [vs[0]] + vs[1..] == vs;
    }
  }

  // ---------------------------------------------------------------- cleaned lines

  /** A payload a line carries unchanged: one line that starts with neither whitespace nor `[`. */
  predicate Payload(p: string) {
    p != "" && !IsSpace(p[0]) && p[0] != '[' && NoLineBreak(p)
  }

  /** `strip()` keeps the first character that is not whitespace. */
  lemma StripFirst(s: string)
    requires SkipSpaces(s, 0) < |s|
    ensures Strip(s) != "" && Strip(s)[0] == s[SkipSpaces(s, 0)]
  {
    TrimEndSpaces(s, |s|);
  }

  /** A line whose first character that is not whitespace is not `[` is not the end marker. */
  lemma NotDoneMarker(s: string)
    requires SkipSpaces(s, 0) < |s| && s[SkipSpaces(s, 0)] != '['
    ensures !IsDoneMarker(s)
  {
    StripFirst(s);
    DoneMarkerIff(s);
  }

  /** `data: <payload>` contributes the payload. */
  lemma LabelledContribution(p: string)
    requires Payload(p)
    ensures Contribution("data: " + p) == p
  {
    var line := "data: " + p;
    assert "" + "data:" + " " + p == line;
    StripDataLabel("", " ", p);
    NotDoneMarker(p);
    assert NoLineBreak(line) by {
      forall k | 0 <= k < |line| ensures !IsLineBreak(line[k]) {
        if k >= 6 {
          assert line[k] == p[k - 6];
        }
      }
    }
    AppendedOneLine("", line);
  }

  /** A payload after blanks and without a `data:` label contributes the whole line. */
  lemma PlainContribution(pad: string, p: string)
    requires forall k | 0 <= k < |pad| :: pad[k] == ' '
    requires Payload(p) && p[0] != 'd'
    ensures Contribution(pad + p) == pad + p
  {
    var line := pad + p;
    var i := |pad|;
    SkipSpacesOver(line, 0, i);
    assert line[i] == p[0];
    assert !(i + 5 <= |line| && line[i..i + 5] == "data:") by {
      if i + 5 <= |line| {
        assert line[i..i + 5][0] == p[0];
      }
    }
    NotDoneMarker(line);
    assert NoLineBreak(line) by {
      forall k | 0 <= k < |line| ensures !IsLineBreak(line[k]) {
        if k >= i {
          assert line[k] == p[k - i];
        }
      }
    }
    AppendedOneLine("", line);
  }

  /** `data: ` alone contributes nothing. */
  lemma SkippedEmptyLine()
    ensures Contribution("data: ") == ""
  {
    assert "" + "data:" + " " + "" == "data: ";
    StripDataLabel("", " ", "");
    AppendedOneLine("", "data: ");
  }

  /** `data: [DONE]` contributes nothing. */
  lemma SkippedDoneLine()
    ensures Contribution("data: [DONE]") == ""
  {
    var marker := "[DONE]";
    assert "" + "data:" + " " + marker == "data: [DONE]";
    StripDataLabel("", " ", marker);
    assert IsDoneMarker(marker);
    NoLineBreakFromAll("data: [DONE]", 0);
    AppendedOneLine("", "data: [DONE]");
  }

  /** `data: <payload>` ended by a line break contributes the payload. */
  lemma TerminatedContribution(p: string)
    requires Payload(p)
    ensures Contribution("data: " + p + "\n") == p
  {
    var line := "data: " + p;
    assert "" + "data:" + " " + p == line;
    StripDataLabel("", " ", p);
    NotDoneMarker(p);
    assert NoLineBreak(line) by {
      forall k | 0 <= k < |line| ensures !IsLineBreak(line[k]) {
        if k >= 6 {
          assert line[k] == p[k - 6];
        }
      }
    }
    AppendedOneTerminatedLine("", line);
  }

  // ---------------------------------------------------------------- the SSE test, call by call
  // The value `{"overview": "部分文本", "confidence": 0.9}` arrives in the
  // fragments `data: `, `data: {"overview": "部`, `data: 分文本", `,
  // `data: "confidence": 0.9}` and `data: [DONE]`; the buffer is 20000 by default.

  lemma SseFirstMember(k: string, s: string)
    requires k == "overview" && s == "部分文本"
    ensures MemberText(k, JString(s), false) == "\"overview\": \"部分文本\""
  {
    QuotePlain(k);
    QuotePlain(s);
  }

  lemma SseNumber(x: Json)
    requires x == JFloat(9, -1)
    ensures Dumps(x, false) == "0.9"
  {
    assert DropDigits(9, 1) == 0 && LastDigits(9, 1) == "9";
  }

  lemma SseSecondMember(k: string, x: Json)
    requires k == "confidence" && x == JFloat(9, -1)
    ensures MemberText(k, x, false) == "\"confidence\": 0.9"
  {
    QuotePlain(k);
    SseNumber(x);
  }

  lemma SseJoin(x: string, m1: string, m2: string, a: string, b: string, c: string)
    requires x == "{" + m1 + ", " + m2 + "}"
    requires m1 == "\"overview\": \"部分文本\"" && m2 == "\"confidence\": 0.9"
    requires a == "{\"overview\": \"部" && b == "分文本\", " && c == "\"confidence\": 0.9}"
    ensures x == a + (b + c)
  {
  }

  /** The test's value, written by `json.dumps`, is the three payloads one after another. */
  lemma SseText(v: Json, k1: string, s: string, k2: string, x2: Json, a: string, b: string, c: string)
    requires v == JObject([(k1, JString(s)), (k2, x2)])
    requires k1 == "overview" && s == "部分文本" && k2 == "confidence" && x2 == JFloat(9, -1)
    requires a == "{\"overview\": \"部" && b == "分文本\", " && c == "\"confidence\": 0.9}"
    ensures Dumps(v, false) == a + (b + c)
  {
    DumpsTwoMembers(v, k1, JString(s), k2, x2, false);
    SseFirstMember(k1, s);
    SseSecondMember(k2, x2);
    SseJoin(Dumps(v, false), MemberText(k1, JString(s), false), MemberText(k2, x2, false), a, b, c);
  }

  // Each labelled fragment of the test contributes its payload.

  lemma SseOpeningContribution(c: string, p: string)
    requires c == "data: {\"overview\": \"部" && p == "{\"overview\": \"部"
    ensures Contribution(c) == p
  {
    assert c == "data: " + p;
    LabelledContribution(p);
  }

  lemma SseMiddleContribution(c: string, p: string)
    requires c == "data: 分文本\", " && p == "分文本\", "
    ensures Contribution(c) == p
  {
    assert c == "data: " + p;
    LabelledContribution(p);
  }

  lemma SseClosingContribution(c: string, p: string)
    requires c == "data: \"confidence\": 0.9}" && p == "\"confidence\": 0.9}"
    ensures Contribution(c) == p
  {
    assert c == "data: " + p;
    LabelledContribution(p);
  }

  /** The fragments `data: ` and `data: [DONE]` leave an empty buffer empty and give nothing. */
  lemma SseSkipped(m: int, c: string)
    requires c == "data: " || c == "data: [DONE]"
    ensures FeedSpec("", m, c) == (None, "")
  {
    SkippedEmptyLine();
    SkippedDoneLine();
    AppendedContribution("", c);
  }

  /** The first half of the key-value pair: nothing yet, the fragment kept. */
  lemma SseFirst(v: Json, m: int, c: string, a: string, b: string, d: string)
    requires v.JObject? && Dumps(v, false) == a + (b + d) && m >= 100
    requires c == "data: {\"overview\": \"部" && a == "{\"overview\": \"部" && b == "分文本\", " && d == "\"confidence\": 0.9}"
    ensures FeedSpec("", m, c) == (None, a)
  {
    SseOpeningContribution(c, a);
    AppendedContribution("", c);
    ExtractPartial(v, false, a, b + d);
  }

  /** The rest of the string, with its trailing blank: still nothing, the text grows. */
  lemma SseSecond(v: Json, m: int, c: string, a: string, b: string, d: string, ab: string)
    requires v.JObject? && Dumps(v, false) == a + (b + d) && m >= 100
    requires c == "data: 分文本\", " && a == "{\"overview\": \"部" && b == "分文本\", " && d == "\"confidence\": 0.9}"
    requires ab == "{\"overview\": \"部分文本\", "
    ensures FeedSpec(a, m, c) == (None, ab)
  {
    SseMiddleContribution(c, b);
    AppendedContribution(a, c);
    Associative(a, b, d);
    assert a + b == ab;
    ExtractPartial(v, false, a + b, d);
  }

  /** The closing fragment completes the object: it is returned and the buffer is emptied. */
  lemma SseLast(v: Json, m: int, c: string, a: string, b: string, d: string, ab: string)
    requires v.JObject? && Dumps(v, false) == a + (b + d) && m >= 100
    requires c == "data: \"confidence\": 0.9}" && a == "{\"overview\": \"部" && b == "分文本\", " && d == "\"confidence\": 0.9}"
    requires ab == "{\"overview\": \"部分文本\", "
    ensures FeedSpec(ab, m, c) == (Some(v), "")
  {
    SseClosingContribution(c, d);
    AppendedContribution(ab, c);
    assert ab == a + b;
    Associative(a, b, d);
    AppendEmpty(Dumps(v, false));
    ExtractWhole(v, false, "");
  }

  // ---------------------------------------------------------------- objects one after another

  lemma OneIntMember(k: string, n: int, m: string)
    requires (k == "a" && n == 1 && m == "\"a\": 1") || (k == "b" && n == 2 && m == "\"b\": 2")
    ensures MemberText(k, JInt(n), false) == m
  {
    QuotePlain(k);
  }

  lemma OneIntText(v: Json, k: string, n: int, t: string)
    requires v == JObject([(k, JInt(n))])
    requires (k == "a" && n == 1 && t == "{\"a\": 1}") || (k == "b" && n == 2 && t == "{\"b\": 2}")
    ensures Dumps(v, false) == t
  {
    DumpsOneMember(v, k, JInt(n), false);
    var m := if k == "a" then "\"a\": 1" else "\"b\": 2";
    OneIntMember(k, n, m);
    assert t == "{" + m + "}";
  }

  /** `data: {"a": 1}` and a line break, into an empty buffer: `{"a": 1}` comes out, nothing is left. */
  lemma MultipleFirst(v: Json, m: int, c: string, p: string)
    requires v == JObject([("a", JInt(1))]) && m >= 100
    requires p == "{\"a\": 1}" && c == "data: " + p + "\n"
    ensures FeedSpec("", m, c) == (Some(v), "")
  {
    OneIntText(v, "a", 1, p);
    TerminatedContribution(p);
    AppendedContribution("", c);
    AppendEmpty(p);
    ExtractWhole(v, false, "");
  }

  /** Then `data: {"b": 2}`: `{"b": 2}` comes out, and a following `feed('')` gives nothing. */
  lemma MultipleSecond(v: Json, m: int, c: string, p: string)
    requires v == JObject([("b", JInt(2))]) && m >= 100
    requires p == "{\"b\": 2}" && c == "data: " + p
    ensures FeedSpec("", m, c) == (Some(v), "")
    ensures FeedSpec("", m, "") == (None, "")
  {
    OneIntText(v, "b", 2, p);
    LabelledContribution(p);
    AppendedContribution("", c);
    AppendEmpty(p);
    ExtractWhole(v, false, "");
  }

  lemma TwoInOneContribution(pa: string, pb: string)
    requires pa == "{\"a\": 1}" && pb == "{\"b\": 2}"
    ensures Contribution(pa + pb) == pa + pb
  {
    var p := pa + pb;
    assert "" + p == p;
    assert Payload(p) && p[0] != 'd';
    PlainContribution("", p);
  }

  /** One plain fragment `{"a": 1}{"b": 2}`: the first object comes out, the second stays. */
  lemma TwoInOneFeed(va: Json, m: int, pa: string, pb: string)
    requires va == JObject([("a", JInt(1))]) && m >= 100
    requires pa == "{\"a\": 1}" && pb == "{\"b\": 2}"
    ensures FeedSpec("", m, pa + pb) == (Some(va), pb)
  {
    OneIntText(va, "a", 1, pa);
    TwoInOneContribution(pa, pb);
    AppendedContribution("", pa + pb);
    ExtractWhole(va, false, pb);
  }

  /** Draining with `feed('')` then gives the second object, and the buffer ends empty. */
  lemma TwoInOneDrain(vb: Json, m: int, pb: string)
    requires vb == JObject([("b", JInt(2))]) && m >= 100
    requires pb == "{\"b\": 2}"
    ensures DrainEmpty(pb, m) == ([vb], "")
  {
    OneIntText(vb, "b", 2, pb);
    assert DumpsAll([vb], false) == pb;
    DrainConcatenated([vb], false, m);
  }

  // ---------------------------------------------------------------- a non-finite member

  lemma NaNObjectText(v: Json, p: string)
    requires v == JObject([("x", JNonFinite(NaN))]) && p == "{\"x\": NaN}"
    ensures Dumps(v, false) == p
  {
    DumpsOneMember(v, "x", JNonFinite(NaN), false);
    QuotePlain("x");
  }

  /** `{"x": NaN}` into an empty buffer: the object comes out with its `NaN` member, nothing is left. */
  lemma NaNObjectFeed(v: Json, m: int, p: string)
    requires v == JObject([("x", JNonFinite(NaN))]) && m >= 100
    requires p == "{\"x\": NaN}"
    ensures FeedSpec("", m, p) == (Some(v), "")
  {
    NaNObjectText(v, p);
    assert "" + p == p;
    assert Payload(p) && p[0] != 'd';
    PlainContribution("", p);
    AppendedContribution("", p);
    AppendEmpty(p);
    ExtractWhole(v, false, "");
  }

  // ---------------------------------------------------------------- one value split into fragments

  /** The fragments one after another. */
  function Concat(parts: seq<string>): string
    decreases |parts|
  {
    if parts == [] then "" else Concat(parts[..|parts| - 1]) + parts[|parts| - 1]
  }

  /** `feed` called on each fragment in turn, starting from an empty buffer: the results in order and the final buffer. */
  function FeedAll(parts: seq<string>, maxBuffer: int): (r: (seq<Option<Json>>, string))
    ensures |r.0| == |parts|
    decreases |parts|
  {
    if parts == [] then ([], "")
    else
      var before := FeedAll(parts[..|parts| - 1], maxBuffer);
      var step := FeedSpec(before.1, maxBuffer, parts[|parts| - 1]);
      (before.0 + [step.0], step.1)
  }

  /** One more fragment that still leaves the value incomplete gives nothing and is buffered. */
  lemma FeedPrefixStep(v: Json, ascii: bool, buffer: string, part: string, post: string, maxBuffer: int)
    requires v.JObject? || v.JArray?
    requires Contribution(part) == part
    requires Dumps(v, ascii) == buffer + part + post && post != ""
    requires |Dumps(v, ascii)| <= maxBuffer
    ensures FeedSpec(buffer, maxBuffer, part) == (None, buffer + part)
  {
    AppendedContribution(buffer, part);
    if buffer + part != "" {
      ExtractPartial(v, ascii, buffer + part, post);
    }
  }

  /** Fragments that spell a proper beginning of an encoded value give nothing, and the buffer holds exactly what they spell. */
  lemma {:induction false} SplitPrefix(v: Json, ascii: bool, parts: seq<string>, post: string, maxBuffer: int)
    requires v.JObject? || v.JArray?
    requires forall i | 0 <= i < |parts| :: Contribution(parts[i]) == parts[i]
    requires Dumps(v, ascii) == Concat(parts) + post && post != ""
    requires |Dumps(v, ascii)| <= maxBuffer
    ensures FeedAll(parts, maxBuffer).1 == Concat(parts)
    ensures forall i | 0 <= i < |parts| :: FeedAll(parts, maxBuffer).0[i] == None
    decreases |parts|
  {
    if parts != [] {
      var init, last := parts[..|parts| - 1], parts[|parts| - 1];
      AppendAssoc(Concat(init), last, post);
      SplitPrefix(v, ascii, init, last + post, maxBuffer);
      var before := FeedAll(init, maxBuffer);
      FeedPrefixStep(v, ascii, before.1, last, post, maxBuffer);
      var results := FeedAll(parts, maxBuffer).0;
      assert results == before.0 + [None];
      forall i | 0 <= i < |parts| ensures results[i] == None {
        if i < |parts| - 1 { assert results[i] == before.0[i]; }
      }
    }
  }

  /**
   * Split invariance: an encoded object or array fed in any fragments that
   * the cleaning leaves as they are gives nothing until the last fragment,
   * which returns the value and leaves the buffer empty, as feeding it whole does.
   */
  lemma SplitInvariant(v: Json, ascii: bool, parts: seq<string>, maxBuffer: int)
    requires v.JObject? || v.JArray?
    requires forall i | 0 <= i < |parts| :: Contribution(parts[i]) == parts[i]
    requires Concat(parts) == Dumps(v, ascii) && parts != [] && parts[|parts| - 1] != ""
    requires |Dumps(v, ascii)| <= maxBuffer
    ensures forall i | 0 <= i < |parts| - 1 :: FeedAll(parts, maxBuffer).0[i] == None
    ensures FeedAll(parts, maxBuffer).0[|parts| - 1] == Some(v)
    ensures FeedAll(parts, maxBuffer).1 == ""
  {
    var init, last := parts[..|parts| - 1], parts[|parts| - 1];
    assert Concat(parts) == Concat(init) + last;
    SplitPrefix(v, ascii, init, last, maxBuffer);
    var before := FeedAll(init, maxBuffer);
    AppendedContribution(before.1, last);
    assert Contribution(parts[|parts| - 1]) == last;
    AppendEmpty(Dumps(v, ascii));
    ExtractWhole(v, ascii, "");
  }
}
