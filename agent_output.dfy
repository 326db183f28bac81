/**
 * The output schema of the agent, `AgentOutputModel`, as a validation over
 * decoded JSON values: `parse_obj` followed by `.dict()`.
 *
 * A dictionary result is a `map` from key to value.
 */
module AgentOutput {
  import opened Wrappers
  import opened JsonValues

  type Dict = map<string, Json>

  predicate IsStringList(v: Json) {
    v.JArray? && forall k | 0 <= k < |v.items| :: v.items[k].JString?
  }

  /** A number between 0 and 1, both ends included. */
  predicate IsConfidence(v: Json) {
    IsNumber(v) && 0.0 <= NumValue(v) <= 1.0
  }

  /** The four required fields are there, with the declared types and bounds. */
  predicate Conforms(fields: seq<(string, Json)>) {
    && Lookup(fields, "overview").Some? && Lookup(fields, "overview").value.JString?
    && Lookup(fields, "recommendations").Some? && IsStringList(Lookup(fields, "recommendations").value)
    && Lookup(fields, "risks").Some? && IsStringList(Lookup(fields, "risks").value)
    && Lookup(fields, "confidence").Some? && IsConfidence(Lookup(fields, "confidence").value)
  }

  /** A `float` field holds a float: an integer is converted. */
  function AsFloat(v: Json): (r: Json)
    requires IsNumber(v)
    ensures r.JFloat? && NumValue(r) == NumValue(v)
  {
    if v.JInt? then JFloat(v.i, 0) else v
  }

  function RequiredString(fields: seq<(string, Json)>, key: string): Result<Json> {
    match Lookup(fields, key)
    case None => Err("ValidationError: " + key + " field required")
    case Some(v) => if v.JString? then Ok(v) else Err("ValidationError: " + key + " str type expected")
  }

  function RequiredList(fields: seq<(string, Json)>, key: string): Result<Json> {
    match Lookup(fields, key)
    case None => Err("ValidationError: " + key + " field required")
    case Some(v) => if IsStringList(v) then Ok(v) else Err("ValidationError: " + key + " value is not a valid list of str")
  }

  function RequiredConfidence(fields: seq<(string, Json)>): Result<Json> {
    match Lookup(fields, "confidence")
    case None => Err("ValidationError: confidence field required")
    case Some(v) =>
      if v.JNonFinite? then Err("ValidationError: confidence out of range")
      else if !IsNumber(v) then Err("ValidationError: confidence value is not a valid float")
      else if !(0.0 <= NumValue(v) <= 1.0) then Err("ValidationError: confidence out of range")
      else Ok(AsFloat(v))
  }

  /**
   * `AgentOutputModel.parse_obj(v).dict()`: a dictionary with the four
   * fields, anything else is a `ValidationError`; other keys are dropped.
   */
  function Validate(v: Json): (r: Result<Dict>)
    ensures r.Ok? <==> v.JObject? && Conforms(v.fields)
    ensures r.Ok? ==> r.value.Keys == {"overview", "recommendations", "risks", "confidence"}
    ensures r.Ok? ==>
      && r.value["overview"] == Lookup(v.fields, "overview").value
      && r.value["recommendations"] == Lookup(v.fields, "recommendations").value
      && r.value["risks"] == Lookup(v.fields, "risks").value
      && r.value["confidence"].JFloat?
      && NumValue(r.value["confidence"]) == NumValue(Lookup(v.fields, "confidence").value)
  {
    if !v.JObject? then Err("ValidationError: value is not a valid dict")
    else
      var fields := v.fields;
      var o := RequiredString(fields, "overview");
      var rec := RequiredList(fields, "recommendations");
      var rs := RequiredList(fields, "risks");
      var c := RequiredConfidence(fields);
      if o.Err? then Err(o.error)
      else if rec.Err? then Err(rec.error)
      else if rs.Err? then Err(rs.error)
      else if c.Err? then Err(c.error)
      else Ok(map["overview" := o.value, "recommendations" := rec.value, "risks" := rs.value, "confidence" := c.value])
  }

  /** A value that lacks one of the four fields is refused. */
  lemma MissingFieldRefused(v: Json, key: string)
    requires v.JObject? && key in {"overview", "recommendations", "risks", "confidence"}
    requires !HasKey(v.fields, key)
    ensures Validate(v).Err?
  {
    LookupHasKey(v.fields, key);
  }

  /** An object with the four fields, well typed and in range, validates to exactly those fields. */
  lemma ValidateFour(o: Json, rec: Json, rs: Json, c: Json)
    requires o.JString? && IsStringList(rec) && IsStringList(rs) && IsConfidence(c)
    ensures Validate(JObject([("overview", o), ("recommendations", rec), ("risks", rs), ("confidence", c)]))
         == Ok(map["overview" := o, "recommendations" := rec, "risks" := rs, "confidence" := AsFloat(c)])
  {
    var fields := [("overview", o), ("recommendations", rec), ("risks", rs), ("confidence", c)];
    LookupUnique(fields, "overview", 0);
    LookupUnique(fields, "recommendations", 1);
    LookupUnique(fields, "risks", 2);
    LookupUnique(fields, "confidence", 3);
  }

  /**
   * The confidence is compared as an exact decimal: `1.00000000000000001`
   * lies above 1 and is refused, where the nearest double would be 1.0.
   */
  lemma ConfidenceJustAboveOne(o: Json, rec: Json, rs: Json)
    requires o.JString? && IsStringList(rec) && IsStringList(rs)
    ensures Validate(JObject([("overview", o), ("recommendations", rec), ("risks", rs),
                              ("confidence", JFloat(100000000000000001, -17))])).Err?
  {
    var c := JFloat(100000000000000001, -17);
    var fields := [("overview", o), ("recommendations", rec), ("risks", rs), ("confidence", c)];
    LookupUnique(fields, "confidence", 3);
    assert Pow10(8) == 100000000;
    assert Scale(-17) == 1.0 / 100000000000000000.0;
    assert NumValue(c) > 1.0;
  }

  /** A non-finite confidence (`nan`, `inf`, `-inf`) is refused. */
  lemma NonFiniteConfidenceRefused(v: Json, k: NonFinite)
    requires v.JObject? && Lookup(v.fields, "confidence") == Some(JNonFinite(k))
    ensures Validate(v).Err?
  {
  }

  /** A validated dictionary, written back as an object, passes again and gives itself. */
  lemma ValidateOwnOutput(v: Json)
    requires Validate(v).Ok?
    ensures var d := Validate(v).value;
      Validate(JObject([("overview", d["overview"]), ("recommendations", d["recommendations"]),
                        ("risks", d["risks"]), ("confidence", d["confidence"])])) == Ok(d)
  {
    var d := Validate(v).value;
    ValidateFour(d["overview"], d["recommendations"], d["risks"], d["confidence"]);
  }
}
