/**
 * Prefix decoding is stable: once `raw_decode` has found a value in a text,
 * appending more text does not change what it finds, provided the value is not
 * a number that the appended text could extend.  This is what lets the stream
 * assembler decode a buffer that keeps growing: a complete object does not
 * change, and an incomplete one fails until its end arrives.
 */
module JsonStability {
  import opened Wrappers
  import opened JsonValues
  import opened JsonDecoder

  /** A decoded value whose end cannot move when text is appended after `s`. */
  predicate Settled(s: string, r: Option<(Json, nat)>) {
    r.Some? && r.value.1 <= |s|
    && (IsNumber(r.value.0) ==> r.value.1 < |s| && !IsNumberContinuation(s[r.value.1]))
  }

  lemma {:induction false} SkipWsStable(s: string, t: string, i: nat)
    requires i <= |s| && SkipWs(s, i) < |s|
    ensures SkipWs(s + t, i) == SkipWs(s, i)
    decreases |s| - i
  {
    if IsJsonSpace(s[i]) {
      SkipWsStable(s, t, i + 1);
    }
  }

  lemma {:induction false} DigitsEndStable(s: string, t: string, i: nat)
    requires i <= |s| && DigitsEnd(s, i) < |s|
    ensures DigitsEnd(s + t, i) == DigitsEnd(s, i)
    decreases |s| - i
  {
    if IsDigit(s[i]) {
      DigitsEndStable(s, t, i + 1);
    }
  }

  lemma {:induction false} DigitsValueStable(s: string, t: string, i: nat, j: nat)
    requires i <= j <= |s|
    ensures DigitsValue(s + t, i, j) == DigitsValue(s, i, j)
    decreases j - i
  {
    if i < j {
      DigitsValueStable(s, t, i, j - 1);
    }
  }

  lemma {:induction false} DigitsAppendStable(acc: nat, s: string, t: string, i: nat, j: nat)
    requires i <= j <= |s|
    ensures DigitsAppend(acc, s + t, i, j) == DigitsAppend(acc, s, i, j)
    decreases j - i
  {
    if i < j {
      assert (s + t)[i] == s[i];
      DigitsAppendStable(acc * 10 + (if IsDigit(s[i]) then s[i] as int - '0' as int else 0), s, t, i + 1, j);
    }
  }

  lemma FractionStable(s: string, t: string, k: nat)
    requires k < |s| && FractionEnd(s, k) < |s| && (HasFraction(s, k) || s[k] != '.')
    ensures HasFraction(s + t, k) == HasFraction(s, k)
    ensures FractionEnd(s + t, k) == FractionEnd(s, k)
  {
    if HasFraction(s, k) {
      DigitsEndStable(s, t, k + 2);
    }
  }

  lemma ExponentStable(s: string, t: string, k: nat)
    requires k < |s| && ExponentEnd(s, k) < |s| && (HasExponent(s, k) || (s[k] != 'e' && s[k] != 'E'))
    ensures HasExponent(s + t, k) == HasExponent(s, k)
    ensures ExponentEnd(s + t, k) == ExponentEnd(s, k)
    ensures ExponentValue(s + t, k) == ExponentValue(s, k)
  {
    if HasExponent(s, k) {
      var d := ExpDigitsStart(s, k);
      assert ExpDigitsStart(s + t, k) == d;
      DigitsEndStable(s, t, d);
      DigitsValueStable(s, t, d, DigitsEnd(s, d));
    }
  }

  lemma IntPartStable(s: string, t: string, p: nat)
    requires p < |s| && IsDigit(s[p]) && IntPartEnd(s, p) < |s|
    ensures IntPartEnd(s + t, p) == IntPartEnd(s, p)
    ensures DigitsValue(s + t, p, IntPartEnd(s, p)) == DigitsValue(s, p, IntPartEnd(s, p))
  {
    if s[p] != '0' {
      DigitsEndStable(s, t, p + 1);
    }
    DigitsValueStable(s, t, p, IntPartEnd(s, p));
  }

  lemma ParseNumberStable(s: string, t: string, i: nat)
    requires i <= |s| && Settled(s, ParseNumber(s, i))
    ensures ParseNumber(s + t, i) == ParseNumber(s, i)
  {
    var p := NumberDigitsStart(s, i);
    assert NumberDigitsStart(s + t, i) == p;
    var intEnd := IntPartEnd(s, p);
    var fracEnd := FractionEnd(s, intEnd);
    var e := ExponentEnd(s, fracEnd);
    IntPartStable(s, t, p);
    FractionStable(s, t, intEnd);
    if HasFraction(s, intEnd) {
      DigitsAppendStable(DigitsValue(s, p, intEnd), s, t, intEnd + 1, fracEnd);
    }
    ExponentStable(s, t, fracEnd);
    assert NumberEnd(s + t, i) == e;
    assert NumberValue(s + t, i) == NumberValue(s, i);
  }

  lemma Hex4Stable(s: string, t: string, i: nat)
    requires Hex4(s, i).Some?
    ensures Hex4(s + t, i) == Hex4(s, i)
  {
  }

  lemma EscapeStable(s: string, t: string, i: nat)
    requires Escape(s, i).Some?
    ensures Escape(s + t, i) == Escape(s, i)
  {
    if s[i] == 'u' {
      Hex4Stable(s, t, i + 1);
      var h := Hex4(s, i + 1).value;
      if IsHighSurrogate(h) {
        Hex4Stable(s, t, i + 7);
      }
    }
  }

  lemma {:induction false} StringBodyStable(s: string, t: string, i: nat)
    requires ParseStringBody(s, i).Some?
    ensures ParseStringBody(s + t, i) == ParseStringBody(s, i)
    decreases |s| - i
  {
    if s[i] == '"' {
    } else if s[i] == '\\' {
      EscapeStable(s, t, i + 1);
      StringBodyStable(s, t, Escape(s, i + 1).value.1);
    } else {
      StringBodyStable(s, t, i + 1);
    }
  }

  /** A settled value decodes the same way however the text goes on. */
  lemma {:induction false} ParseValueStable(s: string, t: string, i: nat)
    requires i <= |s| && Settled(s, ParseValue(s, i))
    ensures ParseValue(s + t, i) == ParseValue(s, i)
    decreases |s| - i, 2
  {
    if s[i] == '"' {
      StringBodyStable(s, t, i + 1);
    } else if s[i] == '{' {
      ParseObjectStable(s, t, i);
    } else if s[i] == '[' {
      ParseArrayStable(s, t, i);
    } else if s[i] == 'n' || s[i] == 't' || s[i] == 'f' || s[i] == 'N' || s[i] == 'I' {
    } else if s[i] == '-' && InfinityAt(s, i + 1) {
    } else {
      ParseNumberStable(s, t, i);
    }
  }

  lemma {:induction false} ParseObjectStable(s: string, t: string, i: nat)
    requires i < |s| && s[i] == '{' && ParseObject(s, i).Some?
    ensures ParseObject(s + t, i) == ParseObject(s, i)
    decreases |s| - i, 1
  {
    var j := SkipWs(s, i + 1);
    assert j < |s|;
    SkipWsStable(s, t, i + 1);
    if s[j] != '}' {
      ParseMembersStable(s, t, j);
    }
  }

  lemma {:induction false} ParseMemberStable(s: string, t: string, j: nat)
    requires j <= |s| && ParseMember(s, j).Some?
    requires var e := ParseMember(s, j).value.2; e < |s| && !IsNumberContinuation(s[e])
    ensures ParseMember(s + t, j) == ParseMember(s, j)
    decreases |s| - j, 3
  {
    StringBodyStable(s, t, j + 1);
    var (key, k) := ParseStringBody(s, j + 1).value;
    SkipWsStable(s, t, k);
    MemberValueStable(s, t, key, SkipWs(s, k));
  }

  lemma {:induction false} MemberValueStable(s: string, t: string, key: string, c: nat)
    requires c <= |s| && MemberValue(s, key, c).Some?
    requires var e := MemberValue(s, key, c).value.2; e < |s| && !IsNumberContinuation(s[e])
    ensures MemberValue(s + t, key, c) == MemberValue(s, key, c)
    decreases |s| - c, 3
  {
    assert (s + t)[c] == s[c];
    SkipWsStable(s, t, c + 1);
    ParseValueStable(s, t, SkipWs(s, c + 1));
  }

  /** What follows a value inside an object or array: whitespace, then a delimiter, so the value is settled. */
  lemma DelimiterAfter(s: string, e: nat)
    requires e <= |s| && SkipWs(s, e) < |s|
    requires var d := SkipWs(s, e); s[d] == ',' || s[d] == '}' || s[d] == ']'
    ensures e < |s| && !IsNumberContinuation(s[e])
  {
    if e < SkipWs(s, e) {
      assert IsJsonSpace(s[e]);
    }
  }

  lemma {:induction false} ParseMembersStable(s: string, t: string, j: nat)
    requires j <= |s| && ParseMembers(s, j).Some?
    ensures ParseMembers(s + t, j) == ParseMembers(s, j)
    decreases |s| - j, 4
  {
    var (key, v, e) := ParseMember(s, j).value;
    DelimiterAfter(s, e);
    ParseMemberStable(s, t, j);
    SkipWsStable(s, t, e);
    MembersAfterStable(s, t, (key, v), SkipWs(s, e));
  }

  lemma {:induction false} MembersAfterStable(s: string, t: string, kv: (string, Json), d: nat)
    requires d <= |s| && MembersAfter(s, kv, d).Some?
    ensures MembersAfter(s + t, kv, d) == MembersAfter(s, kv, d)
    decreases |s| - d, 4
  {
    assert (s + t)[d] == s[d];
    if s[d] == ',' {
      var n := SkipWs(s, d + 1);
      assert n < |s|;
      SkipWsStable(s, t, d + 1);
      ParseMembersStable(s, t, n);
    }
  }

  lemma {:induction false} ParseArrayStable(s: string, t: string, i: nat)
    requires i < |s| && s[i] == '[' && ParseArray(s, i).Some?
    ensures ParseArray(s + t, i) == ParseArray(s, i)
    decreases |s| - i, 1
  {
    var j := SkipWs(s, i + 1);
    assert j < |s|;
    SkipWsStable(s, t, i + 1);
    if s[j] != ']' {
      ParseElementsStable(s, t, j);
    }
  }

  lemma {:induction false} ParseElementsStable(s: string, t: string, j: nat)
    requires j <= |s| && ParseElements(s, j).Some?
    ensures ParseElements(s + t, j) == ParseElements(s, j)
    decreases |s| - j, 4
  {
    var (v, e) := ParseValue(s, j).value;
    DelimiterAfter(s, e);
    ParseValueStable(s, t, j);
    SkipWsStable(s, t, e);
    ElementsAfterStable(s, t, v, SkipWs(s, e));
  }

  lemma {:induction false} ElementsAfterStable(s: string, t: string, v: Json, d: nat)
    requires d <= |s| && ElementsAfter(s, v, d).Some?
    ensures ElementsAfter(s + t, v, d) == ElementsAfter(s, v, d)
    decreases |s| - d, 4
  {
    assert (s + t)[d] == s[d];
    if s[d] == ',' {
      var n := SkipWs(s, d + 1);
      assert n < |s|;
      SkipWsStable(s, t, d + 1);
      ParseElementsStable(s, t, n);
    }
  }

  /**
   * No proper prefix of a decodable text that opens with `{` or `[` decodes:
   * the value cannot be complete before its closing bracket has arrived.
   */
  lemma ProperPrefixFails(s: string, k: nat)
    requires RawDecode(s).Some? && k < RawDecode(s).value.1
    requires k > 0 && (s[0] == '{' || s[0] == '[')
    ensures RawDecode(s[..k]) == None
  {
    var pre := s[..k];
    assert pre + s[k..] == s;
    assert pre[0] == s[0];
    if RawDecode(pre).Some? {
      ParseValueStable(pre, s[k..], 0);
    }
  }

  /** Decoding at the start of `a + b` when `a` is exactly one settled value. */
  lemma DecodeConcat(a: string, b: string, v: Json)
    requires RawDecode(a) == Some((v, |a|)) && !IsNumber(v)
    ensures RawDecode(a + b) == Some((v, |a|))
  {
    ParseValueStable(a, b, 0);
  }
}
