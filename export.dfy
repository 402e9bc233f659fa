/**
 * The certificate export: one certificate per core, ranked ("derived") and
 * famous equation, in that order, each carrying the hash of its LaTeX and
 * the hash of its own canonical serialisation, plus a payload that hashes
 * the three source texts. The hash (sha256 as hex) and the canonical
 * serialisation (json.dumps with sorted keys and compact separators) are
 * parameters.
 */
module Export {
  import opened Wrappers
  import opened JsonData
  import opened Records

  datatype Tier = Core | Derived | Famous

  function TierName(t: Tier): string {
    match t
    case Core => "core"
    case Derived => "derived"
    case Famous => "famous"
  }

  /**
   * A certificate before sealing. The core and derived tiers carry
   * artifact_refs (animation and image paths), the famous tier carries
   * coreRefs instead.
   */
  datatype Cert = Cert(
    tokenId: string,
    name: string,
    equationLatex: string,
    equationHash: string,
    score: int,
    scores: Json,
    novelty: Json,
    source: string,
    date: string,
    description: string,
    units: string,
    theory: string,
    tier: Tier,
    artifactRefs: Option<(string, string)>,
    coreRefs: Option<seq<string>>)

  /** A certificate with its metadata_hash. */
  datatype Sealed = Sealed(cert: Cert, metadataHash: string)

  /** The field names of a written certificate. */
  const KeyTokenId := "token_id"
  const KeyName := "name"
  const KeyEquationLatex := "equation_latex"
  const KeyEquationHash := "equation_hash"
  const KeyScore := "score"
  const KeyScores := "scores"
  const KeyNovelty := "novelty"
  const KeySource := "source"
  const KeyDate := "date"
  const KeyDescription := "description"
  const KeyUnits := "units"
  const KeyTheory := "theory"
  const KeyTier := "tier"
  const KeyVersion := "version"
  const KeyArtifactRefs := "artifact_refs"
  const KeyAnimation := "animation"
  const KeyImage := "image"
  const KeyCoreRefs := "coreRefs"

  /** The certificate as the JSON object that is serialised and hashed (version 1, no metadata_hash). */
  function ToJson(c: Cert): (j: Json)
    ensures j.JObj? && "metadata_hash" !in j.fields && "submitter_hash" !in j.fields
  {
    var base := map[
      KeyTokenId := JStr(c.tokenId),
      KeyName := JStr(c.name),
      KeyEquationLatex := JStr(c.equationLatex),
      KeyEquationHash := JStr(c.equationHash),
      KeyScore := JInt(c.score),
      KeyScores := c.scores,
      KeyNovelty := c.novelty,
      KeySource := JStr(c.source),
      KeyDate := JStr(c.date),
      KeyDescription := JStr(c.description),
      KeyUnits := JStr(c.units),
      KeyTheory := JStr(c.theory),
      KeyTier := JStr(TierName(c.tier)),
      KeyVersion := JInt(1)];
    var withRefs := match c.artifactRefs
      case Some(refs) => base[KeyArtifactRefs := JObj(map[KeyAnimation := JStr(refs.0), KeyImage := JStr(refs.1)])]
      case None => base;
    var all := match c.coreRefs
      case Some(ids) => withRefs[KeyCoreRefs := JArr(seq(|ids|, i requires 0 <= i < |ids| => JStr(ids[i])))]
      case None => withRefs;
    JObj(all)
  }

  /** The sealed certificate as written to the output: the hashed object plus metadata_hash. */
  function SealedJson(s: Sealed): Json {
    JObj(ToJson(s.cert).fields["metadata_hash" := JStr(s.metadataHash)])
  }

  /** The exporter never writes a submitter_hash. */
  lemma NoSubmitterHash(s: Sealed)
    ensures "submitter_hash" !in SealedJson(s).fields
  {
  }

  /**
   * round(100 * s / 70) for the sum s of the four sub-scores, in exact
   * integers: 10s/7 is never halfway between two integers, so Python's
   * round and the nearest integer agree.
   */
  function NormalisedScore(s: int): (r: int)
    ensures (r as real) - 0.5 < (10 * s) as real / 7.0 < (r as real) + 0.5
    ensures 0 <= s <= 70 ==> 0 <= r <= 100
  {
    var q := (20 * s + 7) / 14;
    NearestFourteenth(s, q);
    WithinHalf(s, q);
    q
  }

  /** (20s + 7) div 14 lies strictly within 7 of 20s / 14: the remainder is odd, so never 0. */
  lemma NearestFourteenth(s: int, q: int)
    requires q == (20 * s + 7) / 14
    ensures 14 * q - 7 < 20 * s < 14 * q + 7
  {
    var m := 20 * s + 7 - 14 * q;
    assert 0 <= m < 14;
    assert m == 2 * (10 * s - 7 * q) + 7;
  }

  /** The integer bound in terms of 10s/7. */
  lemma WithinHalf(s: int, q: int)
    requires 14 * q - 7 < 20 * s < 14 * q + 7
    ensures (q as real) - 0.5 < (10 * s) as real / 7.0 < (q as real) + 0.5
  {
    assert (10 * s) as real / 7.0 == (20 * s) as real / 14.0;
  }

  function FourScores(t: int, p: int, v: int, a: int): Json {
    JObj(map["tractability" := JInt(t), "plausibility" := JInt(p), "validation" := JInt(v), "artifactCompleteness" := JInt(a)])
  }

  /** The path of an artifact slot given as an object; "" for a bare string or a missing slot. */
  function RefPath(ref: ArtifactRef): string {
    if ref.ArtifactDict? then ref.artifact.path else ""
  }

  /** A core certificate's score: the stored score, else the normalised sum. */
  function CoreScore(e: CoreRecord): (r: int)
    ensures e.score.Some? ==> r == e.score.value
    ensures e.score.None? ==> r == NormalisedScore(e.tractability + e.plausibility + e.validation + e.artifactCompleteness)
  {
    if e.score.Some? then e.score.value
    else NormalisedScore(e.tractability + e.plausibility + e.validation + e.artifactCompleteness)
  }

  function CoreCert(e: CoreRecord, hash: string -> string): (c: Cert)
    ensures c.tier == Core && c.tokenId == e.id && c.equationHash == hash(e.equationLatex)
    ensures c.score == CoreScore(e) && c.date == "core" && c.source == e.source
    ensures c.novelty == JObj(map["score" := JInt(e.novelty), "date" := JStr("core")])
    ensures c.name == e.name && c.equationLatex == e.equationLatex && c.description == e.description
    ensures c.units == e.units && c.theory == e.theory && c.coreRefs.None?
  {
    Cert(e.id, e.name, e.equationLatex, hash(e.equationLatex), CoreScore(e),
         FourScores(e.tractability, e.plausibility, e.validation, e.artifactCompleteness),
         JObj(map["score" := JInt(e.novelty), "date" := JStr("core")]),
         e.source, "core", e.description, e.units, e.theory, Core,
         Some((RefPath(e.animation), RefPath(e.image))), None)
  }

  /** A ranked record's "scores" object as stored, {} when it has none. */
  function ScoresJson(s: Option<Scores>): Json {
    match s
    case None => JObj(map[])
    case Some(sc) =>
      var four := FourScores(sc.tractability, sc.plausibility, sc.validation, sc.artifactCompleteness);
      if sc.novelty.Some? then JObj(four.fields["novelty" := JInt(sc.novelty.value)]) else four
  }

  function NoveltyJson(n: Option<NoveltyTag>): Json {
    match n
    case None => JObj(map[])
    case Some(tag) => JObj(map["score" := JInt(tag.score), "date" := JStr(tag.date)])
  }

  function DerivedCert(e: RankedRecord, hash: string -> string): (c: Cert)
    ensures c.tier == Derived && c.tokenId == e.id && c.equationHash == hash(e.equationLatex)
    ensures c.score == e.score && c.date == e.date && c.source == e.source
  {
    Cert(e.id, e.name, e.equationLatex, hash(e.equationLatex), e.score,
         ScoresJson(e.scores), NoveltyJson(e.tags.novelty),
         e.source, e.date, e.description, e.units, e.theory, Derived,
         Some((e.animation.path, e.image.path)), None)
  }

  function FamousCert(e: FamousRecord, hash: string -> string): (c: Cert)
    ensures c.tier == Famous && c.tokenId == e.id && c.equationHash == hash(e.equationLatex)
    ensures c.score == NormalisedScore(e.tractability + e.plausibility + e.validation + e.artifactCompleteness)
    ensures c.source == "famous-adjusted" && c.date == "famous"
    ensures c.novelty == JObj(map["score" := JInt(e.novelty), "date" := JStr("famous")])
    ensures c.name == e.name && c.equationLatex == e.equationLatex && c.description == e.description
    ensures c.units == e.units && c.theory == e.theory
    ensures c.artifactRefs.None? && c.coreRefs == Some(e.coreRefs)
  {
    Cert(e.id, e.name, e.equationLatex, hash(e.equationLatex),
         NormalisedScore(e.tractability + e.plausibility + e.validation + e.artifactCompleteness),
         FourScores(e.tractability, e.plausibility, e.validation, e.artifactCompleteness),
         JObj(map["score" := JInt(e.novelty), "date" := JStr("famous")]),
         "famous-adjusted", "famous", e.description, e.units, e.theory, Famous,
         None, Some(e.coreRefs))
  }

  /** Adds metadata_hash: the hash of the canonical serialisation of the certificate as it stands. */
  function Seal(c: Cert, hash: string -> string, canonical: Json -> string): (s: Sealed)
    ensures s.cert == c
  {
    Sealed(c, hash(canonical(ToJson(c))))
  }

  /**
   * The hash never covers itself: removing metadata_hash from the written
   * certificate gives back exactly the object that was hashed, so anyone
   * can recompute and check it.
   */
  lemma SealRoundTrip(c: Cert, hash: string -> string, canonical: Json -> string)
    ensures var out := SealedJson(Seal(c, hash, canonical));
      && "metadata_hash" in out.fields
      && out.fields - {"metadata_hash"} == ToJson(c).fields
      && out.fields["metadata_hash"] == JStr(hash(canonical(JObj(out.fields - {"metadata_hash"}))))
  {
    var out := SealedJson(Seal(c, hash, canonical));
    assert out.fields - {"metadata_hash"} == ToJson(c).fields;
  }

  function CoreCerts(core: seq<CoreRecord>, hash: string -> string, canonical: Json -> string): (r: seq<Sealed>)
    ensures |r| == |core|
  {
    seq(|core|, i requires 0 <= i < |core| => Seal(CoreCert(core[i], hash), hash, canonical))
  }

  function DerivedCerts(ranked: seq<RankedRecord>, hash: string -> string, canonical: Json -> string): (r: seq<Sealed>)
    ensures |r| == |ranked|
  {
    seq(|ranked|, i requires 0 <= i < |ranked| => Seal(DerivedCert(ranked[i], hash), hash, canonical))
  }

  function FamousCerts(famous: seq<FamousRecord>, hash: string -> string, canonical: Json -> string): (r: seq<Sealed>)
    ensures |r| == |famous|
  {
    seq(|famous|, i requires 0 <= i < |famous| => Seal(FamousCert(famous[i], hash), hash, canonical))
  }

  /** All certificates: core, then derived, then famous, each in source order. */
  function Certificates(core: seq<CoreRecord>, ranked: seq<RankedRecord>, famous: seq<FamousRecord>,
                        hash: string -> string, canonical: Json -> string): (r: seq<Sealed>)
    ensures |r| == |core| + |ranked| + |famous|
  {
    CoreCerts(core, hash, canonical) + DerivedCerts(ranked, hash, canonical) + FamousCerts(famous, hash, canonical)
  }

  /** The unsealed certificate at position `i`: core records first, then ranked, then famous. */
  function CertAt(core: seq<CoreRecord>, ranked: seq<RankedRecord>, famous: seq<FamousRecord>,
                  hash: string -> string, i: nat): Cert
    requires i < |core| + |ranked| + |famous|
  {
    if i < |core| then CoreCert(core[i], hash)
    else if i < |core| + |ranked| then DerivedCert(ranked[i - |core|], hash)
    else FamousCert(famous[i - |core| - |ranked|], hash)
  }

  /** The output is the three tiers' certificates, one after another. */
  lemma CertificatesSplit(core: seq<CoreRecord>, ranked: seq<RankedRecord>, famous: seq<FamousRecord>,
                          hash: string -> string, canonical: Json -> string, i: nat)
    requires i < |core| + |ranked| + |famous|
    ensures var all := Certificates(core, ranked, famous, hash, canonical);
      && (i < |core| ==> all[i] == CoreCerts(core, hash, canonical)[i])
      && (|core| <= i < |core| + |ranked| ==> all[i] == DerivedCerts(ranked, hash, canonical)[i - |core|])
      && (|core| + |ranked| <= i ==> all[i] == FamousCerts(famous, hash, canonical)[i - |core| - |ranked|])
  {
    var cs := CoreCerts(core, hash, canonical);
    var ds := DerivedCerts(ranked, hash, canonical);
    var fs := FamousCerts(famous, hash, canonical);
    assert Certificates(core, ranked, famous, hash, canonical) == (cs + ds) + fs;
  }

  /** Position `i` of the output seals the certificate of the record at that position. */
  lemma CertificatesAt(core: seq<CoreRecord>, ranked: seq<RankedRecord>, famous: seq<FamousRecord>,
                       hash: string -> string, canonical: Json -> string, i: nat)
    requires i < |core| + |ranked| + |famous|
    ensures Certificates(core, ranked, famous, hash, canonical)[i] == Seal(CertAt(core, ranked, famous, hash, i), hash, canonical)
  {
    CertificatesSplit(core, ranked, famous, hash, canonical, i);
  }

  /** Each certificate's tier, id and equation hash come from its own source record, tier by tier. */
  lemma CertificateLayout(core: seq<CoreRecord>, ranked: seq<RankedRecord>, famous: seq<FamousRecord>,
                          hash: string -> string, canonical: Json -> string, i: nat)
    requires i < |core| + |ranked| + |famous|
    ensures var c := Certificates(core, ranked, famous, hash, canonical)[i].cert;
      && (i < |core| ==> c.tier == Core && c.tokenId == core[i].id
                         && c.equationHash == hash(core[i].equationLatex))
      && (|core| <= i < |core| + |ranked| ==>
            c.tier == Derived && c.tokenId == ranked[i - |core|].id
            && c.equationHash == hash(ranked[i - |core|].equationLatex))
      && (|core| + |ranked| <= i ==>
            c.tier == Famous && c.tokenId == famous[i - |core| - |ranked|].id
            && c.equationHash == hash(famous[i - |core| - |ranked|].equationLatex)
            && c.source == "famous-adjusted")
  {
    CertificatesAt(core, ranked, famous, hash, canonical, i);
  }

  /** The equation hash depends on the LaTeX alone, whatever the tier. */
  lemma EquationHashOnlyLatex(core: seq<CoreRecord>, ranked: seq<RankedRecord>, famous: seq<FamousRecord>,
                              hash: string -> string, canonical: Json -> string, i: nat)
    requires i < |core| + |ranked| + |famous|
    ensures var c := Certificates(core, ranked, famous, hash, canonical)[i].cert;
      c.equationHash == hash(c.equationLatex)
  {
    CertificatesAt(core, ranked, famous, hash, canonical, i);
  }

  /** Every metadata_hash is the hash of its own certificate, without metadata_hash. */
  lemma MetadataHashes(core: seq<CoreRecord>, ranked: seq<RankedRecord>, famous: seq<FamousRecord>,
                       hash: string -> string, canonical: Json -> string, i: nat)
    requires i < |core| + |ranked| + |famous|
    ensures var s := Certificates(core, ranked, famous, hash, canonical)[i];
      s.metadataHash == hash(canonical(ToJson(s.cert)))
  {
    CertificatesAt(core, ranked, famous, hash, canonical, i);
  }

  /** The core loop: one sealed certificate per core record, in order. */
  method SealCore(core: seq<CoreRecord>, hash: string -> string, canonical: Json -> string) returns (r: seq<Sealed>)
    ensures r == CoreCerts(core, hash, canonical)
  {
    r := [];
    for i := 0 to |core|
      invariant |r| == i
      invariant forall k :: 0 <= k < i ==> r[k] == Seal(CoreCert(core[k], hash), hash, canonical)
    {
      r := r + [Seal(CoreCert(core[i], hash), hash, canonical)];
    }
  }

  /** The derived loop over the ranked board. */
  method SealDerived(ranked: seq<RankedRecord>, hash: string -> string, canonical: Json -> string) returns (r: seq<Sealed>)
    ensures r == DerivedCerts(ranked, hash, canonical)
  {
    r := [];
    for i := 0 to |ranked|
      invariant |r| == i
      invariant forall k :: 0 <= k < i ==> r[k] == Seal(DerivedCert(ranked[k], hash), hash, canonical)
    {
      r := r + [Seal(DerivedCert(ranked[i], hash), hash, canonical)];
    }
  }

  /** The famous loop. */
  method SealFamous(famous: seq<FamousRecord>, hash: string -> string, canonical: Json -> string) returns (r: seq<Sealed>)
    ensures r == FamousCerts(famous, hash, canonical)
  {
    r := [];
    for i := 0 to |famous|
      invariant |r| == i
      invariant forall k :: 0 <= k < i ==> r[k] == Seal(FamousCert(famous[k], hash), hash, canonical)
    {
      r := r + [Seal(FamousCert(famous[i], hash), hash, canonical)];
    }
  }

  /** The exported document; generatedAt is the clock reading, the only input that is not a file. */
  datatype Payload = Payload(
    schema: string,
    generatedAt: string,
    sourceFile: string,
    sourceSha256: string,
    count: nat,
    entries: seq<Sealed>)

  /**
   * The export run: the three loops append the certificates, and the
   * payload hashes the concatenated source texts (a missing core or famous
   * file reads as "" and has no entries).
   */
  method ExportCertificates(raw: string, ranked: seq<RankedRecord>,
                            coreRaw: Option<string>, core: seq<CoreRecord>,
                            famousRaw: Option<string>, famous: seq<FamousRecord>,
                            hash: string -> string, canonical: Json -> string,
                            sourceFile: string, now: string)
    returns (p: Payload)
    requires coreRaw.None? ==> core == []
    requires famousRaw.None? ==> famous == []
    ensures p.entries == Certificates(core, ranked, famous, hash, canonical)
    ensures p.count == |p.entries| == |core| + |ranked| + |famous|
    ensures p.sourceSha256 == hash(raw + coreRaw.GetOr("") + famousRaw.GetOr(""))
    ensures p.schema == "top-equations-certificate-v1" && p.generatedAt == now && p.sourceFile == sourceFile
  {
    var coreCerts := SealCore(core, hash, canonical);
    var derivedCerts := SealDerived(ranked, hash, canonical);
    var famousCerts := SealFamous(famous, hash, canonical);
    var entries := coreCerts + derivedCerts + famousCerts;
    p := Payload("top-equations-certificate-v1", now, sourceFile,
                 hash(raw + coreRaw.GetOr("") + famousRaw.GetOr("")), |entries|, entries);
  }
}
