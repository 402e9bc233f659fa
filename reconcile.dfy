/**
 * The read-only consistency audit across the ranked board, the core and
 * famous lists, the certificate file and the submission queue: a list of
 * severity-tagged issues and a CLEAN/DRIFT verdict. The two freshness
 * checks compare file modification times and are inputs here.
 */
module Reconcile {
  import opened JsonData
  import opened Records
  import Export

  datatype Severity = Info | Warn | Error

  /** One reported issue with the ids it names. */
  datatype Issue =
    | MissingCertificates(missing: set<Json>)
    | OrphanCertificates(orphans: set<Json>)
    | PromotedButMissing(unranked: set<string>)
    | StaleSite
    | StaleCertificates
    | PendingSubmissions(pending: seq<string>)
    | MissingSubmitterHash(unsigned: seq<Json>)

  function SeverityOf(i: Issue): Severity {
    match i
    case MissingCertificates(_) => Warn
    case OrphanCertificates(_) => Info
    case PromotedButMissing(_) => Error
    case StaleSite => Warn
    case StaleCertificates => Warn
    case PendingSubmissions(_) => Info
    case MissingSubmitterHash(_) => Warn
  }

  /** The inputs: the five documents' entries and the two freshness comparisons. */
  datatype Inputs = Inputs(
    ranked: seq<RankedRecord>,
    core: seq<CoreRecord>,
    famous: seq<FamousRecord>,
    certs: seq<map<string, Json>>,
    subs: seq<Submission>,
    siteStale: bool,
    certsStale: bool)

  /** Python truthiness of a JSON value. */
  predicate Truthy(v: Json) {
    match v
    case JNull => false
    case JBool(b) => b
    case JInt(i) => i != 0
    case JFloat(f) => f != 0.0
    case JStr(s) => s != []
    case JArr(items) => items != []
    case JObj(fields) => fields != map[]
    case _ => true
  }

  /** Every equation id on the three boards, as JSON strings. */
  function AllEquationIds(inp: Inputs): (ids: set<Json>)
    ensures forall k :: 0 <= k < |inp.ranked| ==> JStr(inp.ranked[k].id) in ids
    ensures forall k :: 0 <= k < |inp.core| ==> JStr(inp.core[k].id) in ids
    ensures forall k :: 0 <= k < |inp.famous| ==> JStr(inp.famous[k].id) in ids
  {
    (set k | 0 <= k < |inp.ranked| :: JStr(inp.ranked[k].id))
    + (set k | 0 <= k < |inp.core| :: JStr(inp.core[k].id))
    + (set k | 0 <= k < |inp.famous| :: JStr(inp.famous[k].id))
  }

  /** A certificate's token_id, null when it has none. */
  function TokenId(c: map<string, Json>): Json {
    Get(c, "token_id", JNull)
  }

  function CertIds(certs: seq<map<string, Json>>): (ids: set<Json>)
    ensures forall k :: 0 <= k < |certs| ==> TokenId(certs[k]) in ids
    ensures forall id :: id in ids ==> exists k :: 0 <= k < |certs| && TokenId(certs[k]) == id
  {
    set k | 0 <= k < |certs| :: TokenId(certs[k])
  }

  /** The equationIds of promoted submissions (status exactly "promoted"), blanks excluded. */
  function PromotedIds(subs: seq<Submission>): (ids: set<string>)
    ensures forall id :: id in ids <==>
      id != [] && exists k :: 0 <= k < |subs| && subs[k].status == "promoted" && subs[k].review.equationId == id
  {
    set k | 0 <= k < |subs| && subs[k].status == "promoted" && subs[k].review.equationId != [] :: subs[k].review.equationId
  }

  /** The ids of entries awaiting review ("pending" or "needs-review"), in queue order. */
  function PendingIds(subs: seq<Submission>): (r: seq<string>)
    ensures |r| <= |subs|
    ensures forall k :: 0 <= k < |subs| && (subs[k].status == "pending" || subs[k].status == "needs-review") ==>
      subs[k].submissionId in r
    ensures forall x :: x in r ==>
      exists k :: 0 <= k < |subs| && (subs[k].status == "pending" || subs[k].status == "needs-review") && subs[k].submissionId == x
  {
    if subs == [] then []
    else
      var rest := PendingIds(subs[1..]);
      if subs[0].status == "pending" || subs[0].status == "needs-review" then [subs[0].submissionId] + rest else rest
  }

  /** One entry contributes its id exactly when it awaits review. */
  lemma PendingIdsOne(e: Submission)
    ensures PendingIds([e]) == if e.status == "pending" || e.status == "needs-review" then [e.submissionId] else []
  {
    assert [e][1..] == [];
  }

  /** Queue order is kept: the ids of a concatenation are the ids of its parts, in order. */
  lemma {:induction false} PendingIdsAppend(a: seq<Submission>, b: seq<Submission>)
    ensures PendingIds(a + b) == PendingIds(a) + PendingIds(b)
  {
    if a == [] {
      assert a + b == b;
    } else {
      assert (a + b)[1..] == a[1..] + b;
      PendingIdsAppend(a[1..], b);
    }
  }

  /** The token ids of certificates without a truthy submitter_hash, in file order. */
  function Unsigned(certs: seq<map<string, Json>>): (r: seq<Json>)
    ensures |r| <= |certs|
    ensures (forall k :: 0 <= k < |certs| ==> Truthy(Get(certs[k], "submitter_hash", JNull))) <==> r == []
  {
    if certs == [] then []
    else
      var rest := Unsigned(certs[1..]);
      if !Truthy(Get(certs[0], "submitter_hash", JNull)) then [TokenId(certs[0])] + rest
      else
        assert forall k :: 1 <= k < |certs| ==> certs[1..][k - 1] == certs[k];
        rest
  }

  /** The ranked ids alone, the set promoted submissions are checked against. */
  function RankedIds(inp: Inputs): set<string> {
    set k | 0 <= k < |inp.ranked| :: inp.ranked[k].id
  }

  /** `issue` appended to the list so far when its check has something to report. */
  function ReportIf(issues: seq<Issue>, present: bool, issue: Issue): seq<Issue> {
    if present then issues + [issue] else issues
  }

  /** The issue list in the audit's fixed order, each check contributing only when it has something to report. */
  function Assemble(missing: set<Json>, orphans: set<Json>, unranked: set<string>, siteStale: bool,
                    certsStale: bool, pending: seq<string>, unsigned: seq<Json>): seq<Issue> {
    var i1 := ReportIf([], missing != {}, MissingCertificates(missing));
    var i2 := ReportIf(i1, orphans != {}, OrphanCertificates(orphans));
    var i3 := ReportIf(i2, unranked != {}, PromotedButMissing(unranked));
    var i4 := ReportIf(i3, siteStale, StaleSite);
    var i5 := ReportIf(i4, certsStale, StaleCertificates);
    var i6 := ReportIf(i5, pending != [], PendingSubmissions(pending));
    ReportIf(i6, unsigned != [], MissingSubmitterHash(unsigned))
  }

  /** Appending a different issue does not change whether `x` is listed. */
  lemma ReportIfOther(issues: seq<Issue>, present: bool, issue: Issue, x: Issue)
    requires x != issue
    ensures x in ReportIf(issues, present, issue) <==> x in issues
  {
  }

  /** Only the missing-certificates check reports that kind of issue, and only when its set is non-empty. */
  lemma AssembleMissing(missing: set<Json>, orphans: set<Json>, unranked: set<string>, siteStale: bool,
                        certsStale: bool, pending: seq<string>, unsigned: seq<Json>)
    ensures var issues := Assemble(missing, orphans, unranked, siteStale, certsStale, pending, unsigned);
      && (missing != {} <==> MissingCertificates(missing) in issues)
      && (forall s :: MissingCertificates(s) in issues ==> s == missing)
  {
    var i1 := ReportIf([], missing != {}, MissingCertificates(missing));
    var i2 := ReportIf(i1, orphans != {}, OrphanCertificates(orphans));
    var i3 := ReportIf(i2, unranked != {}, PromotedButMissing(unranked));
    var i4 := ReportIf(i3, siteStale, StaleSite);
    var i5 := ReportIf(i4, certsStale, StaleCertificates);
    var i6 := ReportIf(i5, pending != [], PendingSubmissions(pending));
    var issues := ReportIf(i6, unsigned != [], MissingSubmitterHash(unsigned));
    forall s ensures MissingCertificates(s) in issues <==> MissingCertificates(s) in i1 {
      var x := MissingCertificates(s);
      ReportIfOther(i6, unsigned != [], MissingSubmitterHash(unsigned), x);
      ReportIfOther(i5, pending != [], PendingSubmissions(pending), x);
      ReportIfOther(i4, certsStale, StaleCertificates, x);
      ReportIfOther(i3, siteStale, StaleSite, x);
      ReportIfOther(i2, unranked != {}, PromotedButMissing(unranked), x);
      ReportIfOther(i1, orphans != {}, OrphanCertificates(orphans), x);
    }
  }

  /** With nothing missing, nothing unranked, nothing stale and every certificate signed, only informational issues remain. */
  lemma AssembleInfoOnly(orphans: set<Json>, pending: seq<string>)
    ensures var issues := Assemble({}, orphans, {}, false, false, pending, []);
      forall k :: 0 <= k < |issues| ==> SeverityOf(issues[k]) == Info
  {
  }

  /** An unsigned certificate always ends the list with a warning. */
  lemma AssembleUnsignedLast(missing: set<Json>, orphans: set<Json>, unranked: set<string>, siteStale: bool,
                             certsStale: bool, pending: seq<string>, unsigned: seq<Json>)
    requires unsigned != []
    ensures var issues := Assemble(missing, orphans, unranked, siteStale, certsStale, pending, unsigned);
      |issues| > 0 && issues[|issues| - 1] == MissingSubmitterHash(unsigned)
  {
  }

  /** The six checks over the inputs. */
  function Issues(inp: Inputs): seq<Issue> {
    var all := AllEquationIds(inp);
    var certIds := CertIds(inp.certs);
    Assemble(all - certIds, certIds - all, PromotedIds(inp.subs) - RankedIds(inp), inp.siteStale,
             inp.certsStale, PendingIds(inp.subs), Unsigned(inp.certs))
  }

  /** Only the promoted-but-missing check reports that kind of issue, and only when its set is non-empty. */
  lemma AssemblePromoted(missing: set<Json>, orphans: set<Json>, unranked: set<string>, siteStale: bool,
                         certsStale: bool, pending: seq<string>, unsigned: seq<Json>)
    ensures var issues := Assemble(missing, orphans, unranked, siteStale, certsStale, pending, unsigned);
      && (unranked != {} <==> PromotedButMissing(unranked) in issues)
      && (forall s :: PromotedButMissing(s) in issues ==> s == unranked)
  {
    var i1 := ReportIf([], missing != {}, MissingCertificates(missing));
    var i2 := ReportIf(i1, orphans != {}, OrphanCertificates(orphans));
    var i3 := ReportIf(i2, unranked != {}, PromotedButMissing(unranked));
    var i4 := ReportIf(i3, siteStale, StaleSite);
    var i5 := ReportIf(i4, certsStale, StaleCertificates);
    var i6 := ReportIf(i5, pending != [], PendingSubmissions(pending));
    var issues := ReportIf(i6, unsigned != [], MissingSubmitterHash(unsigned));
    forall s ensures PromotedButMissing(s) in issues <==> PromotedButMissing(s) in i3 {
      var x := PromotedButMissing(s);
      ReportIfOther(i6, unsigned != [], MissingSubmitterHash(unsigned), x);
      ReportIfOther(i5, pending != [], PendingSubmissions(pending), x);
      ReportIfOther(i4, certsStale, StaleCertificates, x);
      ReportIfOther(i3, siteStale, StaleSite, x);
    }
    forall s ensures PromotedButMissing(s) in i2 <==> false {
      var x := PromotedButMissing(s);
      ReportIfOther(i1, orphans != {}, OrphanCertificates(orphans), x);
      ReportIfOther([], missing != {}, MissingCertificates(missing), x);
    }
  }

  datatype Status = Clean | Drift

  datatype Report = Report(status: Status, issueCount: nat, issues: seq<Issue>)

  /** The report: CLEAN exactly when no issue is a warning or an error. */
  function Reconciled(inp: Inputs): (r: Report)
    ensures r.issues == Issues(inp) && r.issueCount == |r.issues|
    ensures r.status.Clean? <==> forall k :: 0 <= k < |r.issues| ==> SeverityOf(r.issues[k]) == Info
  {
    var issues := Issues(inp);
    var drift := exists k :: 0 <= k < |issues| && SeverityOf(issues[k]) != Info;
    Report(if drift then Drift else Clean, |issues|, issues)
  }

  /** The process exit code: 1 exactly on DRIFT. */
  function ExitCode(r: Report): (code: int)
    ensures code == 1 <==> r.status.Drift?
    ensures code == 0 <==> r.status.Clean?
  {
    if r.status.Drift? then 1 else 0
  }

  /** missing_certificates lists exactly the equation ids no certificate carries. */
  lemma MissingCertificatesExact(inp: Inputs)
    ensures var missing := AllEquationIds(inp) - CertIds(inp.certs);
      (missing != {} <==> MissingCertificates(missing) in Issues(inp))
    ensures forall s :: MissingCertificates(s) in Issues(inp) ==> s == AllEquationIds(inp) - CertIds(inp.certs)
  {
    var all := AllEquationIds(inp);
    var certIds := CertIds(inp.certs);
    AssembleMissing(all - certIds, certIds - all, PromotedIds(inp.subs) - RankedIds(inp), inp.siteStale,
                    inp.certsStale, PendingIds(inp.subs), Unsigned(inp.certs));
  }

  /**
   * promoted_but_missing names a promoted submission's equationId exactly
   * when it is non-empty and not on the ranked board; a promoted entry
   * with an empty equationId is never reported.
   */
  lemma PromotedButMissingExact(inp: Inputs, k: nat)
    requires k < |inp.subs| && inp.subs[k].status == "promoted"
    ensures var id := inp.subs[k].review.equationId;
      (exists s :: PromotedButMissing(s) in Issues(inp) && id in s) <==> id != [] && id !in RankedIds(inp)
  {
    var id := inp.subs[k].review.equationId;
    var all := AllEquationIds(inp);
    var certIds := CertIds(inp.certs);
    var unranked := PromotedIds(inp.subs) - RankedIds(inp);
    AssemblePromoted(all - certIds, certIds - all, unranked, inp.siteStale,
                     inp.certsStale, PendingIds(inp.subs), Unsigned(inp.certs));
    if id != [] && id !in RankedIds(inp) {
      assert id in unranked;
    }
  }

  /** Reports with only informational issues (orphans, pending work) are clean. */
  lemma InfoOnlyIsClean(inp: Inputs)
    requires AllEquationIds(inp) <= CertIds(inp.certs)
    requires PromotedIds(inp.subs) <= RankedIds(inp)
    requires !inp.siteStale && !inp.certsStale
    requires forall k :: 0 <= k < |inp.certs| ==> Truthy(Get(inp.certs[k], "submitter_hash", JNull))
    ensures Reconciled(inp).status.Clean?
    ensures ExitCode(Reconciled(inp)) == 0
  {
    var all := AllEquationIds(inp);
    var certIds := CertIds(inp.certs);
    assert all - certIds == {};
    assert PromotedIds(inp.subs) - RankedIds(inp) == {};
    assert Issues(inp) == Assemble({}, certIds - all, {}, false, false, PendingIds(inp.subs), []);
    AssembleInfoOnly(certIds - all, PendingIds(inp.subs));
  }

  /** One certificate without submitter_hash is enough for the audit to report DRIFT and exit 1. */
  lemma UnsignedDrift(inp: Inputs)
    requires Unsigned(inp.certs) != []
    ensures Reconciled(inp).status.Drift?
    ensures ExitCode(Reconciled(inp)) == 1
  {
    UnsignedWarnsLast(inp);
    var r := Reconciled(inp);
    assert SeverityOf(r.issues[|r.issues| - 1]) != Info;
  }

  /** ... because the unsigned-certificates warning then ends the issue list. */
  lemma UnsignedWarnsLast(inp: Inputs)
    requires Unsigned(inp.certs) != []
    ensures |Issues(inp)| > 0 && SeverityOf(Issues(inp)[|Issues(inp)| - 1]) == Warn
  {
    var all := AllEquationIds(inp);
    var certIds := CertIds(inp.certs);
    AssembleUnsignedLast(all - certIds, certIds - all, PromotedIds(inp.subs) - RankedIds(inp), inp.siteStale,
                         inp.certsStale, PendingIds(inp.subs), Unsigned(inp.certs));
  }

  /**
   * The exporter never writes submitter_hash, so any non-empty certificate
   * file it produced makes the audit report DRIFT, whatever else holds.
   */
  lemma ExportedCertificatesDrift(inp: Inputs, sealed: seq<Export.Sealed>)
    requires |sealed| > 0
    requires inp.certs == seq(|sealed|, i requires 0 <= i < |sealed| => Export.SealedJson(sealed[i]).fields)
    ensures Reconciled(inp).status.Drift?
    ensures ExitCode(Reconciled(inp)) == 1
  {
    Export.NoSubmitterHash(sealed[0]);
    UnsignedNonEmpty(inp.certs, 0);
    UnsignedDrift(inp);
  }

  /** A certificate without submitter_hash is always listed. */
  lemma UnsignedNonEmpty(certs: seq<map<string, Json>>, k: nat)
    requires k < |certs| && "submitter_hash" !in certs[k]
    ensures Unsigned(certs) != []
  {
    assert !Truthy(Get(certs[k], "submitter_hash", JNull));
  }
}
