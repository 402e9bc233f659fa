/**
 * The advisory LLM scorer: the user prompt built from truncated fields of
 * a submission, the strict parsing of the model's reply into five clamped
 * integer scores and their total, and the wrapper that turns failures into
 * "no result". The HTTP call itself is an input: its outcome is either a
 * reply text or a raised error.
 */
module LlmScore {
  import opened Wrappers
  import opened Text
  import opened JsonData
  import opened Records

  const MaxName: nat := 200
  const MaxEquation: nat := 2000
  const MaxDescription: nat := 4000
  const MaxUnits: nat := 10
  const MaxTheory: nat := 30
  const MaxItems: nat := 20
  const MaxItem: nat := 500

  /** Python's str(v): the text of a string, `show(v)` for any other value. */
  function Str(v: Json, show: Json -> string): string {
    if v.JStr? then v.s else show(v)
  }

  /** str(entry.get(key, default)). */
  function FieldText(entry: map<string, Json>, key: string, default: string, show: Json -> string): string {
    Str(Get(entry, key, JStr(default)), show)
  }

  /** The list of `entry.get(key, []) or []`, and [] for a value that is not a list. */
  function ListField(entry: map<string, Json>, key: string): seq<Json> {
    var v := Get(entry, key, JArr([]));
    if v.JArr? then v.items else []
  }

  /** One evidence item as the prompt shows it: a dict by its label, anything else by str(). */
  function EvidenceText(e: Json, show: Json -> string): string {
    if e.JObj? then Str(Get(e.fields, "label", JStr("")), show) else Str(e, show)
  }

  /** The fields the prompt is built from, each already cut to its cap. */
  datatype PromptFields = PromptFields(
    name: string,
    equation: string,
    description: string,
    units: string,
    theory: string,
    assumptions: seq<string>,
    evidence: seq<string>)

  /** At most 20 items, each cut to 500 characters. */
  function CutAssumptions(items: seq<Json>, show: Json -> string): (r: seq<string>)
    ensures |r| == if |items| < MaxItems then |items| else MaxItems
    ensures forall i :: 0 <= i < |r| ==> r[i] == Take(Str(items[i], show), MaxItem)
  {
    var rest := if |items| > MaxItems then items[..MaxItems] else items;
    seq(|rest|, i requires 0 <= i < |rest| => Take(Str(rest[i], show), MaxItem))
  }

  function CutEvidence(items: seq<Json>, show: Json -> string): (r: seq<string>)
    ensures |r| == if |items| < MaxItems then |items| else MaxItems
    ensures forall i :: 0 <= i < |r| ==> r[i] == Take(EvidenceText(items[i], show), MaxItem)
  {
    var rest := if |items| > MaxItems then items[..MaxItems] else items;
    seq(|rest|, i requires 0 <= i < |rest| => Take(EvidenceText(rest[i], show), MaxItem))
  }

  /**
   * The sanitised fields: name <= 200, equation <= 2000, description <= 4000,
   * units <= 10 and theory <= 30 characters, at most 20 assumptions and 20
   * evidence items of at most 500 characters each.
   */
  function Sanitized(entry: map<string, Json>, show: Json -> string): (f: PromptFields)
    ensures |f.name| <= MaxName && |f.equation| <= MaxEquation && |f.description| <= MaxDescription
    ensures |f.units| <= MaxUnits && |f.theory| <= MaxTheory
    ensures |f.assumptions| <= MaxItems && |f.evidence| <= MaxItems
    ensures forall i :: 0 <= i < |f.assumptions| ==> |f.assumptions[i]| <= MaxItem
    ensures forall i :: 0 <= i < |f.evidence| ==> |f.evidence[i]| <= MaxItem
    ensures f.name == Take(FieldText(entry, "name", "", show), MaxName)
    ensures f.equation == Take(FieldText(entry, "equationLatex", "", show), MaxEquation)
    ensures f.description == Take(FieldText(entry, "description", "", show), MaxDescription)
    ensures f.units == Take(FieldText(entry, "units", "TBD", show), MaxUnits)
    ensures f.theory == Take(FieldText(entry, "theory", "TBD", show), MaxTheory)
    ensures |ListField(entry, "assumptions")| <= MaxItems ==> |f.assumptions| == |ListField(entry, "assumptions")|
    ensures |ListField(entry, "evidence")| <= MaxItems ==> |f.evidence| == |ListField(entry, "evidence")|
    ensures forall i :: 0 <= i < |f.assumptions| ==> f.assumptions[i] == Take(Str(ListField(entry, "assumptions")[i], show), MaxItem)
    ensures forall i :: 0 <= i < |f.evidence| ==> f.evidence[i] == Take(EvidenceText(ListField(entry, "evidence")[i], show), MaxItem)
  {
    PromptFields(
      Take(FieldText(entry, "name", "", show), MaxName),
      Take(FieldText(entry, "equationLatex", "", show), MaxEquation),
      Take(FieldText(entry, "description", "", show), MaxDescription),
      Take(FieldText(entry, "units", "TBD", show), MaxUnits),
      Take(FieldText(entry, "theory", "TBD", show), MaxTheory),
      CutAssumptions(ListField(entry, "assumptions"), show),
      CutEvidence(ListField(entry, "evidence"), show))
  }

  /** A JSON array of strings, as json.dumps receives the two lists. */
  function StrList(items: seq<string>): Json {
    JArr(seq(|items|, i requires 0 <= i < |items| => JStr(items[i])))
  }

  /** The user prompt, one labelled line per field; the lists go through `dumps` (json.dumps). */
  function Render(f: PromptFields, dumps: Json -> string): string {
    "Name: " + f.name + "\n"
    + "Equation: " + f.equation + "\n"
    + "Description: " + f.description + "\n"
    + "Units check: " + f.units + "\n"
    + "Theory check: " + f.theory + "\n"
    + "Assumptions: " + dumps(StrList(f.assumptions)) + "\n"
    + "Evidence: " + dumps(StrList(f.evidence)) + "\n"
  }

  function BuildUserPrompt(entry: map<string, Json>, show: Json -> string, dumps: Json -> string): string {
    Render(Sanitized(entry, show), dumps)
  }

  /** The prompt sees the entry only through its sanitised fields. */
  lemma PromptOnlySeesSanitized(e1: map<string, Json>, e2: map<string, Json>, show: Json -> string, dumps: Json -> string)
    requires Sanitized(e1, show) == Sanitized(e2, show)
    ensures BuildUserPrompt(e1, show, dumps) == BuildUserPrompt(e2, show, dumps)
  {
  }

  /** Extra keys, or a longer tail of either list, never reach the prompt. */
  lemma PromptIgnoresTails(entry: map<string, Json>, key: string, v: Json, show: Json -> string, dumps: Json -> string)
    requires key !in {"name", "equationLatex", "description", "units", "theory", "assumptions", "evidence"}
    ensures BuildUserPrompt(entry[key := v], show, dumps) == BuildUserPrompt(entry, show, dumps)
  {
    assert Sanitized(entry[key := v], show) == Sanitized(entry, show) by {
      assert forall k :: k != key ==> Get(entry[key := v], k, JNull) == Get(entry, k, JNull);
      assert ListField(entry[key := v], "assumptions") == ListField(entry, "assumptions");
      assert ListField(entry[key := v], "evidence") == ListField(entry, "evidence");
    }
  }

  // ---------------------------------------------------------------------
  // Reply parsing

  /** The exceptions the reply path can raise. */
  datatype PyError =
    | UrlError
    | JsonDecodeError
    | KeyError
    | ValueError
    | OverflowError
    | AttributeError
    | IndexError
    | TypeError

  /** The exceptions score_submission catches (JSONDecodeError is a ValueError). */
  predicate Caught(err: PyError) {
    err in {UrlError, JsonDecodeError, KeyError, ValueError}
  }

  /** Python's round() on a number: the nearest integer, ties to the even one. */
  function RoundHalfEven(x: real): (r: int)
    ensures (r as real) - 0.5 <= x <= (r as real) + 0.5
    ensures x - (x.Floor as real) != 0.5 ==> (r as real) - 0.5 < x < (r as real) + 0.5
    ensures x - (x.Floor as real) == 0.5 ==> r % 2 == 0
  {
    var fl := x.Floor;
    var frac := x - (fl as real);
    if frac < 0.5 then fl
    else if frac > 0.5 then fl + 1
    else if fl % 2 == 0 then fl
    else fl + 1
  }

  function ClampScore(v: int): (r: int)
    ensures 0 <= r <= 20
    ensures 0 <= v <= 20 ==> r == v
  {
    if v < 0 then 0 else if v > 20 then 20 else v
  }

  /**
   * One reply value: max(0, min(20, int(round(val)))) for a number (a bool
   * counts as 0 or 1), 0 for anything else; round() raises ValueError on
   * NaN and OverflowError on an infinity.
   */
  function ScoreValue(v: Json): (r: Result<int, PyError>)
    ensures r.Success? ==> 0 <= r.value <= 20
    ensures r.Failure? <==> v.JNaN? || v.JInf?
    ensures v.JNaN? ==> r == Failure(ValueError)
    ensures v.JInf? ==> r == Failure(OverflowError)
    ensures !(v.JBool? || v.JInt? || v.JFloat? || v.JNaN? || v.JInf?) ==> r == Success(0)
    ensures v.JInt? ==> r == Success(ClampScore(v.i))
    ensures v.JFloat? ==> r == Success(ClampScore(RoundHalfEven(v.f)))
    ensures v.JBool? ==> r == Success(if v.b then 1 else 0)
  {
    match v
    case JBool(b) => Success(if b then 1 else 0)
    case JInt(i) => Success(ClampScore(i))
    case JFloat(f) => Success(ClampScore(RoundHalfEven(f)))
    case JNaN => Failure(ValueError)
    case JInf(_) => Failure(OverflowError)
    case _ => Success(0)
  }

  const ExpectedKeys: seq<string> := ["physical_validity", "novelty", "clarity", "evidence_quality", "significance"]

  /** An order in which Python may walk the set of expected keys. */
  predicate IsKeyOrder(order: seq<string>) {
    multiset(order) == multiset(ExpectedKeys)
  }

  /** The reply value of `key`, 0 when it is missing. */
  function ReplyValue(fields: map<string, Json>, key: string): Json {
    Get(fields, key, JInt(0))
  }

  /** The loop over the expected keys in `order`; the first raising value stops it. */
  function ValuesInOrder(fields: map<string, Json>, order: seq<string>): (r: Result<map<string, int>, PyError>)
    ensures r.Success? <==> forall k :: k in order ==> ScoreValue(ReplyValue(fields, k)).Success?
    ensures r.Success? ==> r.value.Keys == set k | k in order
    ensures r.Success? ==> forall k :: k in order ==> r.value[k] == ScoreValue(ReplyValue(fields, k)).value
    ensures r.Failure? ==> exists k :: k in order && ScoreValue(ReplyValue(fields, k)) == Failure(r.error)
  {
    if order == [] then Success(map[])
    else
      var head := ScoreValue(ReplyValue(fields, order[0]));
      if head.Failure? then Failure(head.error)
      else
        var rest := ValuesInOrder(fields, order[1..]);
        if rest.Failure? then Failure(rest.error)
        else Success(rest.value[order[0] := head.value])
  }

  /** The six-key result: the five scores and their sum. */
  function ScoresOf(m: map<string, int>): (s: LlmScores)
    requires forall k :: k in ExpectedKeys ==> k in m
    ensures s.llmTotal == s.physicalValidity + s.novelty + s.clarity + s.evidenceQuality + s.significance
  {
    var pv, nv, cl, eq, sg := m["physical_validity"], m["novelty"], m["clarity"], m["evidence_quality"], m["significance"];
    LlmScores(pv, nv, cl, eq, sg, pv + nv + cl + eq + sg)
  }

  /** Each score in 0..20 and a total in 0..100. */
  predicate InBounds(s: LlmScores) {
    && 0 <= s.physicalValidity <= 20 && 0 <= s.novelty <= 20 && 0 <= s.clarity <= 20
    && 0 <= s.evidenceQuality <= 20 && 0 <= s.significance <= 20
    && s.llmTotal == s.physicalValidity + s.novelty + s.clarity + s.evidenceQuality + s.significance
    && 0 <= s.llmTotal <= 100
  }

  /**
   * The reply parser as written: unfence, decode (`loads` is json.loads,
   * None for a decode error), then read the five keys in `order`. A decoded
   * value that is not an object has no .get and raises AttributeError.
   */
  function ParseScoresAsWritten(raw: string, loads: string -> Option<Json>, order: seq<string>): (r: Result<LlmScores, PyError>)
    requires IsKeyOrder(order)
    ensures r.Success? ==> InBounds(r.value)
    ensures loads(Unfence(raw)).None? ==> r == Failure(JsonDecodeError)
    ensures loads(Unfence(raw)).Some? && !loads(Unfence(raw)).value.JObj? ==> r == Failure(AttributeError)
  {
    match loads(Unfence(raw))
    case None => Failure(JsonDecodeError)
    case Some(data) =>
      if !data.JObj? then Failure(AttributeError)
      else
        var vals := ValuesInOrder(data.fields, order);
        if vals.Failure? then Failure(vals.error)
        else
          assert forall k :: k in ExpectedKeys ==> k in order by {
            forall k | k in ExpectedKeys ensures k in order {
              assert k in multiset(ExpectedKeys);
            }
          }
          Success(ScoresOf(vals.value))
  }

  /** Each score is the clamped reading of its own key; every other key is ignored. */
  lemma ParsedScoresRead(raw: string, loads: string -> Option<Json>, order: seq<string>)
    requires IsKeyOrder(order)
    requires ParseScoresAsWritten(raw, loads, order).Success?
    ensures var s := ParseScoresAsWritten(raw, loads, order).value;
      var fields := loads(Unfence(raw)).value.fields;
      && s.physicalValidity == ScoreValue(ReplyValue(fields, "physical_validity")).value
      && s.novelty == ScoreValue(ReplyValue(fields, "novelty")).value
      && s.clarity == ScoreValue(ReplyValue(fields, "clarity")).value
      && s.evidenceQuality == ScoreValue(ReplyValue(fields, "evidence_quality")).value
      && s.significance == ScoreValue(ReplyValue(fields, "significance")).value
  {
    forall k | k in ExpectedKeys ensures k in order {
      assert k in multiset(ExpectedKeys);
    }
  }

  /** Reading the same keys in another order gives the same outcome, unless a value raises. */
  lemma ValuesOrderIrrelevant(fields: map<string, Json>, o1: seq<string>, o2: seq<string>)
    requires forall k :: k in o1 <==> k in o2
    ensures ValuesInOrder(fields, o1).Success? == ValuesInOrder(fields, o2).Success?
    ensures ValuesInOrder(fields, o1).Success? ==> ValuesInOrder(fields, o1) == ValuesInOrder(fields, o2)
  {
    var r1, r2 := ValuesInOrder(fields, o1), ValuesInOrder(fields, o2);
    if r1.Success? {
      assert r1.value.Keys == r2.value.Keys;
      assert forall k :: k in r1.value ==> r1.value[k] == r2.value[k];
      assert r1.value == r2.value;
    }
  }

  /** Whether parsing succeeds does not depend on the order the keys are read in, nor do the scores. */
  lemma ParseOrderIrrelevant(raw: string, loads: string -> Option<Json>, o1: seq<string>, o2: seq<string>)
    requires IsKeyOrder(o1) && IsKeyOrder(o2)
    ensures ParseScoresAsWritten(raw, loads, o1).Success? == ParseScoresAsWritten(raw, loads, o2).Success?
    ensures ParseScoresAsWritten(raw, loads, o1).Success? ==>
              ParseScoresAsWritten(raw, loads, o1) == ParseScoresAsWritten(raw, loads, o2)
  {
    forall k ensures k in o1 <==> k in o2 {
      assert k in o1 <==> k in multiset(o1);
      assert k in o2 <==> k in multiset(o2);
    }
    var data := loads(Unfence(raw));
    if data.Some? && data.value.JObj? {
      ValuesOrderIrrelevant(data.value.fields, o1, o2);
    }
  }

  // ---------------------------------------------------------------------
  // The wrapper

  /** The outcome of the HTTP call: the reply's content, or the error it raised. */
  datatype CallOutcome = Reply(content: string) | CallFailed(error: PyError)

  /** What score_submission does as written: return a result, or let an exception escape. */
  datatype Outcome = Returned(scores: Option<LlmScores>) | Propagated(error: PyError)

  /** score_submission as written: caught errors give None, any other escapes. */
  function ScoreSubmissionAsWritten(call: CallOutcome, loads: string -> Option<Json>, order: seq<string>): (r: Outcome)
    requires IsKeyOrder(order)
    ensures r.Returned? && r.scores.Some? ==> InBounds(r.scores.value)
    ensures r.Propagated? ==> !Caught(r.error)
  {
    match call
    case CallFailed(err) => if Caught(err) then Returned(None) else Propagated(err)
    case Reply(raw) =>
      match ParseScoresAsWritten(raw, loads, order)
      case Success(s) => Returned(Some(s))
      case Failure(err) => if Caught(err) then Returned(None) else Propagated(err)
  }

  /**
   * As written, a reply that decodes to something other than an object
   * (here "[]") makes the parser raise AttributeError, which escapes the
   * wrapper instead of giving None.
   */
  lemma ArrayReplyEscapes(loads: string -> Option<Json>, order: seq<string>)
    requires IsKeyOrder(order)
    requires loads("[]") == Some(JArr([]))
    ensures ScoreSubmissionAsWritten(Reply("[]"), loads, order) == Propagated(AttributeError)
  {
    StrippedFixed("[]");
    assert !StartsWith("[]", "```");
  }

  /** Likewise an infinite score value raises OverflowError from round(), which escapes too. */
  lemma InfiniteScoreEscapes(raw: string, loads: string -> Option<Json>)
    requires loads(Unfence(raw)) == Some(JObj(map["physical_validity" := JInf(false)]))
    ensures ScoreSubmissionAsWritten(Reply(raw), loads, ExpectedKeys) == Propagated(OverflowError)
  {
    var fields := map["physical_validity" := JInf(false)];
    assert ReplyValue(fields, "physical_validity") == JInf(false);
  }

  /**
   * score_submission as intended: any failure of the call or of the reply
   * gives None, never an escaping exception and never a partial result.
   */
  function ScoreSubmission(call: CallOutcome, loads: string -> Option<Json>): (r: Option<LlmScores>)
    ensures r.Some? ==> InBounds(r.value)
    ensures r.Some? <==> call.Reply? && ParseScoresAsWritten(call.content, loads, ExpectedKeys).Success?
  {
    match call
    case CallFailed(_) => None
    case Reply(raw) =>
      match ParseScoresAsWritten(raw, loads, ExpectedKeys)
      case Success(s) => Some(s)
      case Failure(_) => None
  }

  /** The corrected wrapper agrees with the original wherever the original returns. */
  lemma ScoreSubmissionAgrees(call: CallOutcome, loads: string -> Option<Json>, order: seq<string>)
    requires IsKeyOrder(order)
    ensures ScoreSubmissionAsWritten(call, loads, order).Returned? ==>
              ScoreSubmissionAsWritten(call, loads, order).scores == ScoreSubmission(call, loads)
  {
    if call.Reply? {
      ParseOrderIrrelevant(call.content, loads, order, ExpectedKeys);
    }
  }
}
