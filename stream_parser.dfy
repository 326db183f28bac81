/**
 * The incremental JSON assembler of the streaming path (`StreamJSONBuilder`).
 *
 * Text fragments arrive one `feed` at a time. Each fragment is cleaned line by
 * line of its event-stream framing (`data:` prefixes, `[DONE]` markers) and
 * appended to a buffer; the buffer is capped to its most recent characters,
 * noise before the first `{` or `[` is dropped, and `raw_decode` is tried on
 * what is left. A decoded value is handed back and the text after it stays in
 * the buffer for the next call.
 *
 * `FeedSpec` states the whole effect of one `feed` on the buffer as a
 * function; `StreamJSONBuilder.Feed` is proved to have exactly that effect,
 * and the lemmas below state what the function promises.
 */
module StreamParser {
  import opened Wrappers
  import opened Text
  import opened JsonValues
  import opened JsonDecoder
  import opened JsonEncoder
  import opened JsonStability
  import opened JsonRoundTrip
  import opened Slices

  /** The default `max_buffer`. */
  const DefaultMaxBuffer: int := 20000

  // ---------------------------------------------------------------- cleaning a fragment

  /**
   * `re.sub(r'^\s*data:\s*', '', line)`: a `data:` label at the start of the
   * line, with the whitespace around it, is removed once; any other line is
   * kept as it is.
   */
  function StripDataPrefix(line: string): string {
    var i := SkipSpaces(line, 0);
    if i + 5 <= |line| && MatchesAt(line, i, "data:", 0) then line[SkipSpaces(line, i + 5)..] else line
  }

  /** The label test above is the slice comparison `line[i:i+5] == 'data:'`. */
  lemma StripDataPrefixSlice(line: string)
    ensures var i := SkipSpaces(line, 0);
      StripDataPrefix(line) == if i + 5 <= |line| && line[i..i + 5] == "data:" then line[SkipSpaces(line, i + 5)..] else line
  {
    MatchesAtIff(line, SkipSpaces(line, 0), "data:", 0);
  }

  /** `clean.strip() == '[DONE]'`, compared character by character. */
  predicate IsDoneMarker(clean: string) {
    var a := SkipSpaces(clean, 0);
    var b := TrimEnd(clean, |clean|);
    a + 6 == b && MatchesAt(clean, a, "[DONE]", 0)
  }

  lemma DoneMarkerIff(clean: string)
    ensures IsDoneMarker(clean) <==> Strip(clean) == "[DONE]"
  {
    var a := SkipSpaces(clean, 0);
    var b := TrimEnd(clean, |clean|);
    MatchesAtIff(clean, a, "[DONE]", 0);
    assert "[DONE]"[0..] == "[DONE]";
  }

  /** A cleaned line is appended unless it is empty or, once stripped, the `[DONE]` marker. */
  predicate Kept(clean: string) {
    clean != "" && !IsDoneMarker(clean)
  }

  /** What line `line` contributes to the buffer. */
  function Piece(line: string): string {
    var clean := StripDataPrefix(line);
    if Kept(clean) then clean else ""
  }

  /** The text the first `n` lines contribute, in order and with no separator. */
  function Cleaned(lines: seq<string>, n: nat): string
    requires n <= |lines|
  {
    if n == 0 then "" else Cleaned(lines, n - 1) + Piece(lines[n - 1])
  }

  /** The buffer after the new fragment is appended (`if chunk:` skips an empty fragment). */
  function Appended(buffer: string, chunk: string): string {
    if chunk == "" then buffer else buffer + Cleaned(SplitLines(chunk), |SplitLines(chunk)|)
  }

  // ---------------------------------------------------------------- the cap

  /** Python's `s[k:]` for any integer `k`: a negative `k` counts from the end. */
  function SliceFrom(s: string, k: int): (r: string)
    ensures |r| <= |s| && r == s[|s| - |r|..]
  {
    if k >= 0 then (if k <= |s| then s[k..] else "")
    else if |s| + k >= 0 then s[|s| + k..] else s
  }

  /** `if len(buffer) > max_buffer: buffer = buffer[-max_buffer:]`. */
  function Capped(buffer: string, maxBuffer: int): string {
    if |buffer| > maxBuffer then SliceFrom(buffer, -maxBuffer) else buffer
  }

  // ---------------------------------------------------------------- finding the value

  predicate IsOpening(c: char) {
    c == '{' || c == '['
  }

  /** `re.search(r'[\{\[]', s)`: the index of the first `{` or `[`, if there is one. */
  function FindJsonStart(s: string): (r: Option<nat>)
    ensures r.Some? ==> r.value < |s| && IsOpening(s[r.value]) && forall k | 0 <= k < r.value :: !IsOpening(s[k])
    ensures r.None? ==> forall k | 0 <= k < |s| :: !IsOpening(s[k])
  {
    FindOpeningFrom(s, 0)
  }

  function FindOpeningFrom(s: string, i: nat): (r: Option<nat>)
    requires i <= |s|
    requires forall k | 0 <= k < i :: !IsOpening(s[k])
    ensures r.Some? ==> i <= r.value < |s| && IsOpening(s[r.value]) && forall k | 0 <= k < r.value :: !IsOpening(s[k])
    ensures r.None? ==> forall k | 0 <= k < |s| :: !IsOpening(s[k])
    decreases |s| - i
  {
    if i == |s| then None else if IsOpening(s[i]) then Some(i) else FindOpeningFrom(s, i + 1)
  }

  /** Lines 53-69 on the capped buffer: drop the noise, try to decode, keep what follows the value. */
  function Extract(buffer: string): (Option<Json>, string) {
    match FindJsonStart(buffer)
    case None => (None, buffer)
    case Some(start) =>
      var text := buffer[start..];
      match RawDecode(text)
      case None => (None, text)
      case Some((v, end)) => (Some(v), text[end..])
  }

  /** One `feed(chunk)`: the value it returns and the buffer it leaves. */
  function FeedSpec(buffer: string, maxBuffer: int, chunk: string): (Option<Json>, string) {
    var appended := Appended(buffer, chunk);
    if appended == "" then (None, "") else Extract(Capped(appended, maxBuffer))
  }

  // ---------------------------------------------------------------- the assembler

  class StreamJSONBuilder {
    var buffer: string
    var maxBuffer: int

    constructor(maxBuffer: int)
      ensures buffer == "" && this.maxBuffer == maxBuffer
    {
      buffer := "";
      this.maxBuffer := maxBuffer;
    }

    /** Feeds one fragment; an empty fragment only retries extraction from what is buffered. */
    method Feed(chunk: string) returns (r: Option<Json>)
      modifies this
      ensures (r, buffer) == FeedSpec(old(buffer), old(maxBuffer), chunk)
      ensures maxBuffer == old(maxBuffer)
    {
      if chunk != "" {
        AppendLines(SplitLines(chunk));
      }
      ghost var appended := buffer;
      assert appended == Appended(old(buffer), chunk);
      if buffer == "" {
        return None;
      }
      if |buffer| > maxBuffer {
        buffer := SliceFrom(buffer, -maxBuffer);
      }
      assert buffer == Capped(appended, maxBuffer);
      assert FeedSpec(old(buffer), maxBuffer, chunk) == Extract(buffer);
      r := ExtractValue();
    }

    /** Lines 53-69: drops the noise before the first `{` or `[` and decodes what follows. */
    method ExtractValue() returns (r: Option<Json>)
      modifies this
      ensures (r, buffer) == Extract(old(buffer))
      ensures maxBuffer == old(maxBuffer)
    {
      var start := FindJsonStart(buffer);
      if start.None? {
        return None;
      }
      if start.value > 0 {
        buffer := buffer[start.value..];
      }
      match RawDecode(buffer)
      case Some((obj, end)) =>
        buffer := buffer[end..];
        r := Some(obj);
      case None =>
        r := None;
    }

    /** The loop of lines 35-42: appends each surviving cleaned line to the buffer. */
    method AppendLines(lines: seq<string>)
      modifies this
      ensures buffer == old(buffer) + Cleaned(lines, |lines|)
      ensures maxBuffer == old(maxBuffer)
    {
      var text := buffer;
      for k := 0 to |lines|
        invariant text == old(buffer) + Cleaned(lines, k)
        invariant buffer == old(buffer) && maxBuffer == old(maxBuffer)
      {
        var lineClean := StripDataPrefix(lines[k]);
        ghost var before := text;
        if lineClean != "" && Strip(lineClean) != "[DONE]" {
          text := text + lineClean;
        }
        CleanedNext(old(buffer), lines, k, before, text);
      }
      buffer := text;
    }

    /** Empties the buffer; the cap stays as it was. */
    method Reset()
      modifies this
      ensures buffer == "" && maxBuffer == old(maxBuffer)
    {
      buffer := "";
    }
  }

  /** One more line adds its cleaned text, unless it is empty or the end marker. */
  lemma CleanedNext(base: string, lines: seq<string>, k: nat, before: string, after: string)
    requires k < |lines| && before == base + Cleaned(lines, k)
    requires var clean := StripDataPrefix(lines[k]);
      after == if clean != "" && Strip(clean) != "[DONE]" then before + clean else before
    ensures after == base + Cleaned(lines, k + 1)
  {
    var clean := StripDataPrefix(lines[k]);
    DoneMarkerIff(clean);
    if Kept(clean) {
      Associative(base, Cleaned(lines, k), clean);
    } else {
      assert Cleaned(lines, k) + "" == Cleaned(lines, k);
    }
  }

  // ---------------------------------------------------------------- what one feed promises

  /**
   * The regular expression `^\s*data:\s*` removes a `data:` label together with
   * the whitespace before and after it, and nothing more.
   */
  lemma StripDataLabel(before: string, after: string, rest: string)
    requires forall k | 0 <= k < |before| :: IsSpace(before[k])
    requires forall k | 0 <= k < |after| :: IsSpace(after[k])
    requires rest == [] || !IsSpace(rest[0])
    ensures StripDataPrefix(before + "data:" + after + rest) == rest
  {
    var line := before + "data:" + after + rest;
    var i := |before|;
    SkipSpacesOver(line, 0, i);
    assert MatchesAt(line, i, "data:", 0) by {
      MatchesAtIff(line, i, "data:", 0);
      assert line[i..i + 5] == "data:";
    }
    SkipSpacesOver(line, i + 5, i + 5 + |after|);
    assert line[i + 5 + |after|..] == rest;
  }

  /** A fragment without line breaks contributes its one cleaned line. */
  lemma AppendedOneLine(buffer: string, chunk: string)
    requires chunk != "" && NoLineBreak(chunk)
    ensures Appended(buffer, chunk) == buffer + Piece(chunk)
  {
    SplitLinesNoBreak(chunk);
    assert Cleaned([chunk], 1) == "" + Piece(chunk);
  }

  /** A fragment whose one line ends in a line break contributes that line. */
  lemma AppendedOneTerminatedLine(buffer: string, line: string)
    requires line != "" && NoLineBreak(line)
    ensures Appended(buffer, line + "\n") == buffer + Piece(line)
  {
    SplitLinesTerminated(line);
    assert Cleaned([line], 1) == "" + Piece(line);
  }

  /** Nothing to decode: an empty buffer after appending gives `None` and stays empty. */
  lemma FeedEmpty(buffer: string, maxBuffer: int, chunk: string)
    requires Appended(buffer, chunk) == ""
    ensures FeedSpec(buffer, maxBuffer, chunk) == (None, "")
  {
  }

  /** The cap keeps the most recent `maxBuffer` characters, and a buffer within the cap whole. */
  lemma CapKeepsLatest(buffer: string, maxBuffer: int)
    requires maxBuffer >= 0
    ensures |buffer| <= maxBuffer ==> Capped(buffer, maxBuffer) == buffer
    ensures maxBuffer > 0 && |buffer| > maxBuffer ==>
      |Capped(buffer, maxBuffer)| == maxBuffer && Capped(buffer, maxBuffer) == buffer[|buffer| - maxBuffer..]
    ensures maxBuffer == 0 ==> Capped(buffer, maxBuffer) == buffer
  {
  }

  /** A negative cap drops that many characters from the front instead. */
  lemma CapNegative(buffer: string, maxBuffer: int)
    requires maxBuffer < 0
    ensures Capped(buffer, maxBuffer) == if -maxBuffer <= |buffer| then buffer[-maxBuffer..] else ""
  {
  }

  /** Without `{` or `[` in the capped buffer, nothing is returned and the buffer is the capped one. */
  lemma FeedNoOpening(buffer: string, maxBuffer: int, chunk: string)
    requires Appended(buffer, chunk) != ""
    requires forall k | 0 <= k < |Capped(Appended(buffer, chunk), maxBuffer)| ::
               !IsOpening(Capped(Appended(buffer, chunk), maxBuffer)[k])
    ensures FeedSpec(buffer, maxBuffer, chunk) == (None, Capped(Appended(buffer, chunk), maxBuffer))
  {
  }

  /**
   * Otherwise the text before the first `{` or `[` is dropped; a decoded value
   * is returned with the buffer set to exactly the text after it, and an
   * incomplete value leaves the buffer starting at its opening bracket.
   */
  lemma FeedDecodes(buffer: string, maxBuffer: int, chunk: string, start: nat)
    requires Appended(buffer, chunk) != ""
    requires var c := Capped(Appended(buffer, chunk), maxBuffer);
      start < |c| && IsOpening(c[start]) && forall k | 0 <= k < start :: !IsOpening(c[k])
    ensures var c := Capped(Appended(buffer, chunk), maxBuffer);
      var (r, rest) := FeedSpec(buffer, maxBuffer, chunk);
      match RawDecode(c[start..])
      case Some((v, end)) => r == Some(v) && rest == c[start + end..]
      case None => r == None && rest == c[start..] && IsOpening(rest[0])
  {
    ExtractFrom(Capped(Appended(buffer, chunk), maxBuffer), start);
  }

  /** `Extract` on a text whose first `{` or `[` is at `start`. */
  lemma ExtractFrom(c: string, start: nat)
    requires start < |c| && IsOpening(c[start]) && forall k | 0 <= k < start :: !IsOpening(c[k])
    ensures match RawDecode(c[start..])
      case Some((v, end)) => Extract(c) == (Some(v), c[start + end..])
      case None => Extract(c) == (None, c[start..])
  {
    assert FindJsonStart(c) == Some(start);
    match RawDecode(c[start..])
    case Some((v, end)) =>
      assert c[start..][end..] == c[start + end..];
    case None =>
  }

  /**
   * A `feed` that returned nothing can be repeated with an empty fragment to no
   * effect: it returns nothing again and leaves the buffer as it was.
   */
  lemma FeedRetryIdle(buffer: string, maxBuffer: int, chunk: string)
    requires maxBuffer >= 0
    requires FeedSpec(buffer, maxBuffer, chunk).0 == None
    ensures var rest := FeedSpec(buffer, maxBuffer, chunk).1;
      FeedSpec(rest, maxBuffer, "") == (None, rest)
  {
    var appended := Appended(buffer, chunk);
    var rest := FeedSpec(buffer, maxBuffer, chunk).1;
    if appended != "" {
      var c := Capped(appended, maxBuffer);
      assert |c| <= maxBuffer || maxBuffer == 0 || |c| == |appended|;
      assert Capped(rest, maxBuffer) == rest by {
        assert |rest| <= |c|;
      }
      match FindJsonStart(c)
      case None =>
      case Some(start) =>
        assert rest == c[start..];
        assert FindJsonStart(rest) == Some(0);
        assert rest[0..] == rest;
    }
  }

  // ---------------------------------------------------------------- encoded objects in the buffer

  /** An encoded object or array starts with its opening bracket. */
  lemma DumpsOpens(v: Json, ascii: bool)
    requires v.JObject? || v.JArray?
    ensures IsOpening(Dumps(v, ascii)[0])
  {
  }

  /** A buffer that begins with a complete encoded object or array yields it and keeps what follows. */
  lemma ExtractWhole(v: Json, ascii: bool, rest: string)
    requires v.JObject? || v.JArray?
    ensures Extract(Dumps(v, ascii) + rest) == (Some(v), rest)
  {
    var t := Dumps(v, ascii) + rest;
    DumpsOpens(v, ascii);
    assert FindJsonStart(t) == Some(0);
    assert t[0..] == t;
    RawDecodeDumps(v, ascii, rest);
    assert t[|Dumps(v, ascii)|..] == rest;
  }

  /** A buffer holding only the beginning of an encoded object or array yields nothing and is kept whole. */
  lemma ExtractPartial(v: Json, ascii: bool, pre: string, post: string)
    requires v.JObject? || v.JArray?
    requires Dumps(v, ascii) == pre + post && pre != "" && post != ""
    ensures Extract(pre) == (None, pre)
  {
    var t := Dumps(v, ascii);
    var k := |pre|;
    DumpsOpens(v, ascii);
    assert pre == t[..k];
    assert pre[0] == t[0];
    assert FindJsonStart(pre) == Some(0);
    assert pre[0..] == pre;
    RawDecodeDumps(v, ascii, "");
    assert t + "" == t;
    ProperPrefixFails(t, k);
  }

  /**
   * Feeding an empty fragment to a buffer that starts with an encoded object
   * or array returns that value and leaves exactly the text after it, so
   * concatenated objects come out one per call, in order.
   */
  lemma FeedDrainsFirst(v: Json, ascii: bool, rest: string, maxBuffer: int)
    requires v.JObject? || v.JArray?
    requires |Dumps(v, ascii) + rest| <= maxBuffer
    ensures FeedSpec(Dumps(v, ascii) + rest, maxBuffer, "") == (Some(v), rest)
  {
    ExtractWhole(v, ascii, rest);
  }
}
