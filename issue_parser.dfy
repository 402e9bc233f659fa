/**
 * The strict validator for submission bodies posted as GitHub issues
 * (tools/parse_github_issue.py). A body is fence-stripped text holding one
 * JSON object with known keys only; each field is type-checked, length-checked
 * on its raw value and stored stripped. Every rejection is a ValidationError.
 */
module IssueParser {
  import opened Wrappers
  import opened Text
  import opened JsonData

  const MaxNameLen: nat := 200
  const MaxEquationLen: nat := 2000
  const MaxDescriptionLen: nat := 4000
  const MaxSourceLen: nat := 100
  const MaxSubmitterLen: nat := 100
  const MaxAssumptionLen: nat := 500
  const MaxEvidenceLen: nat := 500
  const MaxArrayItems: nat := 20
  const MaxUnitsLen: nat := 20
  const MaxTheoryLen: nat := 30

  const RequiredKeys: set<string> := {"name", "equation", "description"}
  const OptionalKeys: set<string> := {"source", "submitter", "units", "theory", "assumptions", "evidence"}
  const AllKeys: set<string> := RequiredKeys + OptionalKeys

  const ValidUnits: set<string> := {"OK", "TBD", "WARN"}
  const ValidTheory: set<string> := {"PASS", "PASS-WITH-ASSUMPTIONS", "TBD", "FAIL"}

  /** Why a body was rejected; the message text of each case is not modelled. */
  datatype ValidationError =
    | EmptyBody
    | InvalidJson
    | NotAnObject
    | UnknownKeys(keys: set<string>)
    | MissingKeys(keys: set<string>)
    | NotAString(field: string)
    | TooLong(field: string, maxLen: nat)
    | EmptyField(field: string)
    | NotInEnum(field: string, value: string)
    | NotAnArray(field: string)
    | TooManyItems(field: string, maxItems: nat)
    | ItemNotAString(field: string, index: nat)
    | ItemTooLong(field: string, index: nat, maxLen: nat)

  /** The clean record a successful parse returns (nine keys). */
  datatype ParsedSubmission = ParsedSubmission(
    name: string,
    equation: string,
    description: string,
    source: string,
    submitter: string,
    units: string,
    theory: string,
    assumptions: seq<string>,
    evidence: seq<string>)

  predicate ItemsOk(items: seq<string>, maxLen: nat) {
    |items| <= MaxArrayItems && forall k :: 0 <= k < |items| ==> |items[k]| <= maxLen && IsStripped(items[k])
  }

  /** What every successful parse guarantees about its record. */
  predicate Valid(p: ParsedSubmission) {
    && |p.name| <= MaxNameLen && p.name != [] && IsStripped(p.name)
    && |p.equation| <= MaxEquationLen && p.equation != [] && IsStripped(p.equation)
    && |p.description| <= MaxDescriptionLen && p.description != [] && IsStripped(p.description)
    && |p.source| <= MaxSourceLen && IsStripped(p.source)
    && |p.submitter| <= MaxSubmitterLen && IsStripped(p.submitter)
    && p.units in ValidUnits && IsStripped(p.units)
    && p.theory in ValidTheory && IsStripped(p.theory)
    && ItemsOk(p.assumptions, MaxAssumptionLen)
    && ItemsOk(p.evidence, MaxEvidenceLen)
  }

  /** A string value whose raw length is within the cap, stored stripped. */
  function CheckStr(val: Json, field: string, maxLen: nat): (r: Result<string, ValidationError>)
    ensures r.Success? <==> val.JStr? && |val.s| <= maxLen
    ensures r.Success? ==> r.value == Strip(val.s) && |r.value| <= maxLen && IsStripped(r.value)
    ensures !val.JStr? ==> r == Failure(NotAString(field))
    ensures val.JStr? && |val.s| > maxLen ==> r == Failure(TooLong(field, maxLen))
  {
    if !val.JStr? then Failure(NotAString(field))
    else if |val.s| > maxLen then Failure(TooLong(field, maxLen))
    else Success(Strip(val.s))
  }

  predicate ItemOk(item: Json, maxLen: nat) {
    item.JStr? && |item.s| <= maxLen
  }

  /** The items of a list from position `start` on, checked one by one in order. */
  function CheckItems(items: seq<Json>, field: string, maxLen: nat, start: nat): (r: Result<seq<string>, ValidationError>)
    ensures r.Success? <==> forall k :: 0 <= k < |items| ==> ItemOk(items[k], maxLen)
    ensures r.Success? ==> |r.value| == |items|
    ensures r.Success? ==> forall k :: 0 <= k < |items| ==> r.value[k] == Strip(items[k].s)
    ensures r.Failure? ==> r.error.ItemNotAString? || r.error.ItemTooLong?
    decreases |items|
  {
    if items == [] then Success([])
    else if !items[0].JStr? then Failure(ItemNotAString(field, start))
    else if |items[0].s| > maxLen then Failure(ItemTooLong(field, start, maxLen))
    else
      match CheckItems(items[1..], field, maxLen, start + 1)
      case Failure(e) => Failure(e)
      case Success(rest) => Success([Strip(items[0].s)] + rest)
  }

  /** A list of at most MaxArrayItems strings, each within the cap, stored stripped. */
  function CheckStrList(val: Json, field: string, maxItemLen: nat): (r: Result<seq<string>, ValidationError>)
    ensures !val.JArr? ==> r == Failure(NotAnArray(field))
    ensures val.JArr? && |val.items| > MaxArrayItems ==> r == Failure(TooManyItems(field, MaxArrayItems))
    ensures r.Success? ==> val.JArr? && |r.value| == |val.items| && ItemsOk(r.value, maxItemLen)
    ensures r.Success? ==> forall k :: 0 <= k < |val.items| ==> val.items[k].JStr? && r.value[k] == Strip(val.items[k].s)
    ensures val.JArr? && |val.items| <= MaxArrayItems ==>
      (r.Success? <==> forall k :: 0 <= k < |val.items| ==> ItemOk(val.items[k], maxItemLen))
  {
    if !val.JArr? then Failure(NotAnArray(field))
    else if |val.items| > MaxArrayItems then Failure(TooManyItems(field, MaxArrayItems))
    else
      CheckItems(val.items, field, maxItemLen, 0)
  }

  /** Python's data.get(key, default) for a string default. */
  function FieldOr(fields: map<string, Json>, key: string, default: string): Json {
    if key in fields then fields[key] else JStr(default)
  }

  /** The three required strings: type and length first, then non-emptiness. */
  function ParseRequired(fields: map<string, Json>): (r: Result<(string, string, string), ValidationError>)
    requires RequiredKeys <= fields.Keys
    ensures r.Success? ==>
      && fields["name"].JStr? && fields["equation"].JStr? && fields["description"].JStr?
      && r.value.0 == Strip(fields["name"].s) && r.value.0 != []
      && r.value.1 == Strip(fields["equation"].s) && r.value.1 != []
      && r.value.2 == Strip(fields["description"].s) && r.value.2 != []
      && |r.value.0| <= MaxNameLen && |r.value.1| <= MaxEquationLen && |r.value.2| <= MaxDescriptionLen
      && IsStripped(r.value.0) && IsStripped(r.value.1) && IsStripped(r.value.2)
    ensures r.Failure? && r.error.EmptyField? ==>
      Strip(StrOr(fields["name"], "")) == [] || Strip(StrOr(fields["equation"], "")) == []
      || Strip(StrOr(fields["description"], "")) == []
  {
    assert "name" in RequiredKeys && "equation" in RequiredKeys && "description" in RequiredKeys;
    var name :- CheckStr(fields["name"], "name", MaxNameLen);
    var equation :- CheckStr(fields["equation"], "equation", MaxEquationLen);
    var description :- CheckStr(fields["description"], "description", MaxDescriptionLen);
    if name == [] then Failure(EmptyField("name"))
    else if equation == [] then Failure(EmptyField("equation"))
    else if description == [] then Failure(EmptyField("description"))
    else Success((name, equation, description))
  }

  /** source, submitter, units and theory, with their defaults and enums. */
  function ParseMeta(fields: map<string, Json>): (r: Result<(string, string, string, string), ValidationError>)
    ensures r.Success? ==>
      && r.value.0 == Strip(StrOr(FieldOr(fields, "source", "github-issue"), ""))
      && r.value.1 == Strip(StrOr(FieldOr(fields, "submitter", "anonymous"), ""))
      && r.value.2 == Strip(StrOr(FieldOr(fields, "units", "TBD"), ""))
      && r.value.3 == Strip(StrOr(FieldOr(fields, "theory", "TBD"), ""))
      && |r.value.0| <= MaxSourceLen && IsStripped(r.value.0)
      && |r.value.1| <= MaxSubmitterLen && IsStripped(r.value.1)
      && r.value.2 in ValidUnits && r.value.3 in ValidTheory
      && IsStripped(r.value.2) && IsStripped(r.value.3)
    ensures r.Failure? && r.error.NotInEnum? ==>
      (r.error.field == "units" && r.error.value !in ValidUnits)
      || (r.error.field == "theory" && r.error.value !in ValidTheory)
  {
    var source :- CheckStr(FieldOr(fields, "source", "github-issue"), "source", MaxSourceLen);
    var submitter :- CheckStr(FieldOr(fields, "submitter", "anonymous"), "submitter", MaxSubmitterLen);
    var units :- CheckStr(FieldOr(fields, "units", "TBD"), "units", MaxUnitsLen);
    if units !in ValidUnits then Failure(NotInEnum("units", units))
    else
      var theory :- CheckStr(FieldOr(fields, "theory", "TBD"), "theory", MaxTheoryLen);
      if theory !in ValidTheory then Failure(NotInEnum("theory", theory))
      else Success((source, submitter, units, theory))
  }

  /** assumptions and evidence: checked lists, or [] when the key is absent. */
  function ParseLists(fields: map<string, Json>): (r: Result<(seq<string>, seq<string>), ValidationError>)
    ensures r.Success? ==> ItemsOk(r.value.0, MaxAssumptionLen) && ItemsOk(r.value.1, MaxEvidenceLen)
    ensures r.Success? && "assumptions" !in fields ==> r.value.0 == []
    ensures r.Success? && "evidence" !in fields ==> r.value.1 == []
    ensures r.Success? && "assumptions" in fields ==> r.value.0 == StrippedItems(fields["assumptions"])
    ensures r.Success? && "evidence" in fields ==> r.value.1 == StrippedItems(fields["evidence"])
  {
    var assumptions :- if "assumptions" in fields
      then CheckStrList(fields["assumptions"], "assumptions", MaxAssumptionLen)
      else Success([]);
    var evidence :- if "evidence" in fields
      then CheckStrList(fields["evidence"], "evidence", MaxEvidenceLen)
      else Success([]);
    Success((assumptions, evidence))
  }

  /** The stripped strings of a JSON array; other items contribute "". */
  function StrippedItems(j: Json): (r: seq<string>)
    ensures j.JArr? ==> |r| == |j.items|
    ensures j.JArr? ==> forall k :: 0 <= k < |j.items| ==> r[k] == Strip(StrOr(j.items[k], ""))
  {
    if j.JArr? then seq(|j.items|, k requires 0 <= k < |j.items| => Strip(StrOr(j.items[k], ""))) else []
  }

  /** The checks of parse_submission after the body has decoded to an object. */
  function ParseObject(fields: map<string, Json>): (r: Result<ParsedSubmission, ValidationError>)
    ensures fields.Keys - AllKeys != {} ==> r == Failure(UnknownKeys(fields.Keys - AllKeys))
    ensures fields.Keys <= AllKeys && RequiredKeys - fields.Keys != {} ==>
      r == Failure(MissingKeys(RequiredKeys - fields.Keys))
    ensures r.Success? ==> Valid(r.value)
    ensures r.Success? ==> fields.Keys <= AllKeys && RequiredKeys <= fields.Keys
    ensures r.Success? ==>
      && r.value.name == Strip(StrOr(fields["name"], ""))
      && r.value.equation == Strip(StrOr(fields["equation"], ""))
      && r.value.description == Strip(StrOr(fields["description"], ""))
      && r.value.source == Strip(StrOr(FieldOr(fields, "source", "github-issue"), ""))
      && r.value.submitter == Strip(StrOr(FieldOr(fields, "submitter", "anonymous"), ""))
      && r.value.units == Strip(StrOr(FieldOr(fields, "units", "TBD"), ""))
      && r.value.theory == Strip(StrOr(FieldOr(fields, "theory", "TBD"), ""))
      && r.value.assumptions == (if "assumptions" in fields then StrippedItems(fields["assumptions"]) else [])
      && r.value.evidence == (if "evidence" in fields then StrippedItems(fields["evidence"]) else [])
  {
    if fields.Keys - AllKeys != {} then Failure(UnknownKeys(fields.Keys - AllKeys))
    else if RequiredKeys - fields.Keys != {} then Failure(MissingKeys(RequiredKeys - fields.Keys))
    else
      var req :- ParseRequired(fields);
      var meta :- ParseMeta(fields);
      var lists :- ParseLists(fields);
      Success(ParsedSubmission(req.0, req.1, req.2, meta.0, meta.1, meta.2, meta.3, lists.0, lists.1))
  }

  /** A string value whose raw length is within the cap. */
  predicate StrOk(v: Json, maxLen: nat) {
    v.JStr? && |v.s| <= maxLen
  }

  /** An array of at most MaxArrayItems strings, each within the cap. */
  predicate ListOk(v: Json, maxLen: nat) {
    v.JArr? && |v.items| <= MaxArrayItems && forall k :: 0 <= k < |v.items| ==> ItemOk(v.items[k], maxLen)
  }

  /** Every condition parse_submission checks on a decoded object, written on the raw values. */
  predicate Acceptable(fields: map<string, Json>) {
    && fields.Keys <= AllKeys && RequiredKeys <= fields.Keys
    && StrOk(fields["name"], MaxNameLen) && Strip(fields["name"].s) != []
    && StrOk(fields["equation"], MaxEquationLen) && Strip(fields["equation"].s) != []
    && StrOk(fields["description"], MaxDescriptionLen) && Strip(fields["description"].s) != []
    && StrOk(FieldOr(fields, "source", "github-issue"), MaxSourceLen)
    && StrOk(FieldOr(fields, "submitter", "anonymous"), MaxSubmitterLen)
    && StrOk(FieldOr(fields, "units", "TBD"), MaxUnitsLen)
    && Strip(FieldOr(fields, "units", "TBD").s) in ValidUnits
    && StrOk(FieldOr(fields, "theory", "TBD"), MaxTheoryLen)
    && Strip(FieldOr(fields, "theory", "TBD").s) in ValidTheory
    && ("assumptions" in fields ==> ListOk(fields["assumptions"], MaxAssumptionLen))
    && ("evidence" in fields ==> ListOk(fields["evidence"], MaxEvidenceLen))
  }

  lemma RequiredAccepts(fields: map<string, Json>)
    requires RequiredKeys <= fields.Keys
    ensures ParseRequired(fields).Success? <==>
      && StrOk(fields["name"], MaxNameLen) && Strip(fields["name"].s) != []
      && StrOk(fields["equation"], MaxEquationLen) && Strip(fields["equation"].s) != []
      && StrOk(fields["description"], MaxDescriptionLen) && Strip(fields["description"].s) != []
  {
    assert "name" in RequiredKeys && "equation" in RequiredKeys && "description" in RequiredKeys;
  }

  lemma MetaAccepts(fields: map<string, Json>)
    ensures ParseMeta(fields).Success? <==>
      && StrOk(FieldOr(fields, "source", "github-issue"), MaxSourceLen)
      && StrOk(FieldOr(fields, "submitter", "anonymous"), MaxSubmitterLen)
      && StrOk(FieldOr(fields, "units", "TBD"), MaxUnitsLen)
      && Strip(FieldOr(fields, "units", "TBD").s) in ValidUnits
      && StrOk(FieldOr(fields, "theory", "TBD"), MaxTheoryLen)
      && Strip(FieldOr(fields, "theory", "TBD").s) in ValidTheory
  {
  }

  lemma ListsAccepts(fields: map<string, Json>)
    ensures ParseLists(fields).Success? <==>
      && ("assumptions" in fields ==> ListOk(fields["assumptions"], MaxAssumptionLen))
      && ("evidence" in fields ==> ListOk(fields["evidence"], MaxEvidenceLen))
  {
  }

  /**
   * The converse of ParseObject's contract: an object is accepted exactly
   * when it has known keys only, every required key, and every value
   * passes its type, raw-length, non-emptiness and enumeration check.
   */
  lemma ParseObjectAccepts(fields: map<string, Json>)
    ensures ParseObject(fields).Success? <==> Acceptable(fields)
  {
    if fields.Keys <= AllKeys && RequiredKeys <= fields.Keys {
      assert fields.Keys - AllKeys == {};
      assert RequiredKeys - fields.Keys == {};
      RequiredAccepts(fields);
      MetaAccepts(fields);
      ListsAccepts(fields);
    }
  }

  /**
   * parse_submission: fence-strip the body, reject an empty one, decode it
   * with `loads` (None stands for a JSONDecodeError) and check the object.
   */
  function ParseSubmission(raw: string, loads: string -> Option<Json>): (r: Result<ParsedSubmission, ValidationError>)
    ensures Unfence(raw) == "" ==> r == Failure(EmptyBody)
    ensures Unfence(raw) != "" && loads(Unfence(raw)).None? ==> r == Failure(InvalidJson)
    ensures Unfence(raw) != "" && loads(Unfence(raw)).Some? && !loads(Unfence(raw)).value.JObj? ==>
      r == Failure(NotAnObject)
    ensures Unfence(raw) != "" && loads(Unfence(raw)).Some? && loads(Unfence(raw)).value.JObj? ==>
      r == ParseObject(loads(Unfence(raw)).value.fields)
    ensures r.Success? ==> Valid(r.value)
  {
    var text := Unfence(raw);
    if text == "" then Failure(EmptyBody)
    else
      match loads(text)
      case None => Failure(InvalidJson)
      case Some(data) =>
        if !data.JObj? then Failure(NotAnObject) else ParseObject(data.fields)
  }

  /** A JSON array of the given strings. */
  function StrArray(items: seq<string>): (j: Json)
    ensures j.JArr? && |j.items| == |items|
    ensures forall k :: 0 <= k < |items| ==> j.items[k] == JStr(items[k])
  {
    JArr(seq(|items|, k requires 0 <= k < |items| => JStr(items[k])))
  }

  /** The record as the JSON object the parser prints. */
  function ToJson(p: ParsedSubmission): (j: Json)
    ensures j.JObj? && j.fields.Keys == AllKeys
  {
    JObj(map[
      "name" := JStr(p.name),
      "equation" := JStr(p.equation),
      "description" := JStr(p.description),
      "source" := JStr(p.source),
      "submitter" := JStr(p.submitter),
      "units" := JStr(p.units),
      "theory" := JStr(p.theory),
      "assumptions" := StrArray(p.assumptions),
      "evidence" := StrArray(p.evidence)])
  }

  /** A valid record survives serialisation and a second parse unchanged. */
  lemma ParseObjectFixpoint(p: ParsedSubmission)
    requires Valid(p)
    ensures ParseObject(ToJson(p).fields) == Success(p)
  {
    var fields := ToJson(p).fields;
    assert fields.Keys == AllKeys;
    RequiredFixpoint(p);
    MetaFixpoint(p);
    ListFixpoint(p.assumptions, MaxAssumptionLen, "assumptions");
    ListFixpoint(p.evidence, MaxEvidenceLen, "evidence");
    assert fields["assumptions"] == StrArray(p.assumptions) && fields["evidence"] == StrArray(p.evidence);
    assert ParseLists(fields) == Success((p.assumptions, p.evidence));
    ParseObjectOfParts(fields, (p.name, p.equation, p.description), (p.source, p.submitter, p.units, p.theory),
                       (p.assumptions, p.evidence));
  }

  /** With known keys, all required keys and three successful parts, the parse assembles the parts. */
  lemma ParseObjectOfParts(fields: map<string, Json>, req: (string, string, string),
                           meta: (string, string, string, string), lists: (seq<string>, seq<string>))
    requires fields.Keys == AllKeys
    requires ParseRequired(fields) == Success(req)
    requires ParseMeta(fields) == Success(meta)
    requires ParseLists(fields) == Success(lists)
    ensures ParseObject(fields) == Success(ParsedSubmission(req.0, req.1, req.2, meta.0, meta.1, meta.2, meta.3, lists.0, lists.1))
  {
    assert fields.Keys - AllKeys == {};
    assert RequiredKeys - fields.Keys == {};
  }

  lemma RequiredFixpoint(p: ParsedSubmission)
    requires Valid(p)
    ensures RequiredKeys <= ToJson(p).fields.Keys
    ensures ParseRequired(ToJson(p).fields) == Success((p.name, p.equation, p.description))
  {
    var fields := ToJson(p).fields;
    assert fields["name"] == JStr(p.name);
    assert fields["equation"] == JStr(p.equation);
    assert fields["description"] == JStr(p.description);
    CheckStrFixpoint(p.name, "name", MaxNameLen);
    CheckStrFixpoint(p.equation, "equation", MaxEquationLen);
    CheckStrFixpoint(p.description, "description", MaxDescriptionLen);
  }

  /** A stripped string within the cap is accepted as it is. */
  lemma CheckStrFixpoint(s: string, field: string, maxLen: nat)
    requires IsStripped(s) && |s| <= maxLen
    ensures CheckStr(JStr(s), field, maxLen) == Success(s)
  {
    StrippedFixed(s);
  }

  lemma MetaFixpoint(p: ParsedSubmission)
    requires Valid(p)
    ensures ParseMeta(ToJson(p).fields) == Success((p.source, p.submitter, p.units, p.theory))
  {
    var fields := ToJson(p).fields;
    assert FieldOr(fields, "source", "github-issue") == JStr(p.source);
    assert FieldOr(fields, "submitter", "anonymous") == JStr(p.submitter);
    assert FieldOr(fields, "units", "TBD") == JStr(p.units);
    assert FieldOr(fields, "theory", "TBD") == JStr(p.theory);
    CheckStrFixpoint(p.source, "source", MaxSourceLen);
    CheckStrFixpoint(p.submitter, "submitter", MaxSubmitterLen);
    assert |p.units| <= MaxUnitsLen && |p.theory| <= MaxTheoryLen;
    CheckStrFixpoint(p.units, "units", MaxUnitsLen);
    CheckStrFixpoint(p.theory, "theory", MaxTheoryLen);
  }

  lemma ListFixpoint(items: seq<string>, maxLen: nat, field: string)
    requires ItemsOk(items, maxLen)
    ensures CheckStrList(StrArray(items), field, maxLen) == Success(items)
  {
    var j := StrArray(items);
    assert forall k :: 0 <= k < |items| ==> ItemOk(j.items[k], maxLen);
    var r := CheckStrList(j, field, maxLen);
    assert |r.value| == |items|;
    forall k | 0 <= k < |items| ensures r.value[k] == items[k] {
      assert r.value[k] == Strip(items[k]);
      StrippedFixed(items[k]);
    }
    assert r.value == items;
  }

  /**
   * Whatever body parsed successfully, printing the record and parsing the
   * printed text again gives the same record, for any `loads` that decodes
   * that text back to the printed object.
   */
  lemma ParseSubmissionFixpoint(raw: string, loads: string -> Option<Json>, printed: string)
    requires ParseSubmission(raw, loads).Success?
    requires printed != [] && Strip(printed) == printed && !StartsWith(printed, "```")
    requires loads(printed) == Some(ToJson(ParseSubmission(raw, loads).value))
    ensures ParseSubmission(printed, loads) == ParseSubmission(raw, loads)
  {
    var p := ParseSubmission(raw, loads).value;
    ParseObjectFixpoint(p);
    assert Unfence(printed) == printed;
  }
}
