/**
 * The compliance step: scan the recommendations for legal keywords, then
 * write the disclaimer and the review flag into the result dictionary.
 *
 * The source mutates the dictionary in place and returns it; every caller
 * rebinds its variable to the returned dictionary, so the model returns the
 * updated dictionary as a value.
 */
module Compliance {
  import opened Wrappers
  import opened Text
  import opened JsonValues
  import opened AgentOutput

  const LegalKeywords: seq<string> := ["起诉", "诉讼", "仲裁", "法律程序", "诉讼方案"]

  const Disclaimer: string := "本报告为信息性建议，不构成法律意见；如需法律意见，请咨询持牌律师。"

  const DisclaimerKey: string := "_disclaimer"
  const ReviewKey: string := "_needs_legal_review"

  /** A recommendation that names a legal action: one of the keywords occurs in it. */
  predicate MentionsLegal(r: string) {
    exists k | 0 <= k < |LegalKeywords| :: Contains(r, LegalKeywords[k])
  }

  /** `result.get('recommendations', []) or []`. */
  function Recommendations(result: Dict): Json {
    var v := if "recommendations" in result then result["recommendations"] else JArray([]);
    if Truthy(v) then v else JArray([])
  }

  /**
   * The scan of `items[i..]`: the first item that is not a string makes
   * `re.search` raise, the first string with a keyword ends the scan.
   */
  function Scan(items: seq<Json>, i: nat): Result<bool>
    requires i <= |items|
    decreases |items| - i
  {
    if i == |items| then Ok(false)
    else if !items[i].JString? then Err("TypeError: expected string or bytes-like object")
    else if MentionsLegal(items[i].s) then Ok(true)
    else Scan(items, i + 1)
  }

  /** The two keys written into the result; every other key is left as it was. */
  function Annotated(result: Dict, needsLegal: bool): (r: Dict)
    ensures r.Keys == result.Keys + {DisclaimerKey, ReviewKey}
    ensures r[DisclaimerKey] == JString(Disclaimer) && r[ReviewKey] == JBool(needsLegal)
    ensures forall k | k in result && k != DisclaimerKey && k != ReviewKey :: r[k] == result[k]
  {
    result[DisclaimerKey := JString(Disclaimer)][ReviewKey := JBool(needsLegal)]
  }

  /** What `check_compliance(result)` returns, or the exception it raises. */
  function Checked(result: Dict): Result<Dict> {
    match Iterate(Recommendations(result))
    case Err(e) => Err(e)
    case Ok(items) =>
      match Scan(items, 0)
      case Err(e) => Err(e)
      case Ok(b) => Ok(Annotated(result, b))
  }

  /** `check_compliance`: the nested keyword loops with their early exits. */
  method CheckCompliance(result: Dict) returns (r: Result<Dict>)
    ensures r == Checked(result)
  {
    var needsLegal := false;
    var recs := Iterate(Recommendations(result));
    if recs.Err? {
      return Err(recs.error);
    }
    var items := recs.value;
    var i := 0;
    while i < |items|
      invariant 0 <= i <= |items|
      invariant Scan(items, 0) == if needsLegal then Ok(true) else Scan(items, i)
    {
      var rec := items[i];
      var k := 0;
      while k < |LegalKeywords|
        invariant 0 <= k <= |LegalKeywords|
        invariant !needsLegal
        invariant rec.JString? ==> forall m | 0 <= m < k :: !Contains(rec.s, LegalKeywords[m])
      {
        if !rec.JString? {
          return Err("TypeError: expected string or bytes-like object");
        }
        if Contains(rec.s, LegalKeywords[k]) {
          needsLegal := true;
          break;
        }
        k := k + 1;
      }
      if needsLegal {
        break;
      }
      if !rec.JString? {
        return Err("TypeError: expected string or bytes-like object");
      }
      i := i + 1;
    }
    return Ok(Annotated(result, needsLegal));
  }

  /** For a list of strings the flag is set exactly when some recommendation mentions a keyword. */
  lemma {:induction false} ScanStrings(items: seq<Json>, i: nat)
    requires i <= |items| && forall k | i <= k < |items| :: items[k].JString?
    ensures Scan(items, i) == Ok(exists k | i <= k < |items| :: MentionsLegal(items[k].s))
    decreases |items| - i
  {
    if i < |items| {
      ScanStrings(items, i + 1);
    }
  }

  lemma NeedsLegalIff(result: Dict)
    requires IsStringList(Recommendations(result))
    ensures var items := Recommendations(result).items;
      Checked(result) == Ok(Annotated(result, exists k | 0 <= k < |items| :: MentionsLegal(items[k].s)))
  {
    ScanStrings(Recommendations(result).items, 0);
  }

  /** No recommendations, `None` or an empty list: no legal review. */
  lemma NoRecommendations(result: Dict)
    requires "recommendations" !in result || !Truthy(result["recommendations"])
    ensures Checked(result) == Ok(Annotated(result, false))
  {
  }

  /** Applying the check to its own output changes nothing. */
  lemma CheckedIdempotent(result: Dict)
    requires Checked(result).Ok?
    ensures Checked(Checked(result).value) == Checked(result)
  {
    var d := Checked(result).value;
    assert Recommendations(d) == Recommendations(result);
    var b := d[ReviewKey].b;
    assert d == Annotated(result, b);
    assert Annotated(d, b) == d;
  }

  /** A validated agent output passes the check without raising. */
  lemma ValidatedPasses(d: Dict)
    requires "recommendations" in d && IsStringList(d["recommendations"])
    ensures Checked(d).Ok?
  {
    NeedsLegalIff(d);
  }
}
