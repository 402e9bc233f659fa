/**
 * The records the tools keep in their JSON documents, with the fields the
 * modelled code reads or writes, and the documents they update in place.
 *
 *  - data/submissions.json   entries are Submission records
 *  - data/equations.json     entries are RankedRecord records (the ranked board)
 *  - data/core.json          entries are CoreRecord records
 *  - data/famous_equations.json entries are FamousRecord records
 *  - the harvest documents   entries are HarvestEntry / ScoredEntry records
 */
module Records {
  import opened Wrappers
  import opened JsonData

  /** An animation or image slot: {"status": ..., "path": ...}. */
  datatype Artifact = Artifact(status: string, path: string)

  const Planned := Artifact("planned", "")

  /** An artifact slot of a core record, which may be an object or a bare string. */
  datatype ArtifactRef = ArtifactDict(artifact: Artifact) | ArtifactText(text: string) | NoArtifact

  /**
   * The "scores" object: four sub-scores; the harvest scorer also writes
   * its novelty score here.
   */
  datatype Scores = Scores(
    tractability: int,
    plausibility: int,
    validation: int,
    artifactCompleteness: int,
    novelty: Option<int>)

  /** tags.novelty of a ranked record. */
  datatype NoveltyTag = NoveltyTag(score: int, date: string)

  /** The six keys the LLM reply parser returns. */
  datatype LlmScores = LlmScores(
    physicalValidity: int,
    novelty: int,
    clarity: int,
    evidenceQuality: int,
    significance: int,
    llmTotal: int)

  /**
   * The "review" object of a submission. The scorer and the promoter write
   * different subsets of the keys; a missing key is None, and a missing
   * equationId is "" (the tools read it with a "" default).
   */
  datatype Review = Review(
    date: Option<string>,
    equationId: string,
    score: Option<int>,
    heuristicScore: Option<int>,
    scores: Option<Scores>,
    novelty: Option<int>,
    methodTag: Option<string>,
    llmScores: Option<LlmScores>,
    llmModel: Option<string>,
    blendedScore: Option<int>,
    manualScore: Option<int>)

  const EmptyReview := Review(None, "", None, None, None, None, None, None, None, None, None)

  /** One entry of data/submissions.json. */
  datatype Submission = Submission(
    submissionId: string,
    submittedAt: string,
    submitter: string,
    status: string,
    name: string,
    equationLatex: string,
    description: string,
    source: string,
    units: string,
    theory: string,
    assumptions: seq<string>,
    evidence: seq<string>,
    animation: Artifact,
    image: Artifact,
    review: Review)

  /** The "tags" object of a ranked record. */
  datatype Tags = Tags(novelty: Option<NoveltyTag>, llm: Option<LlmScores>)

  /** One entry of data/equations.json (the ranked board). */
  datatype RankedRecord = RankedRecord(
    id: string,
    name: string,
    firstSeen: string,
    source: string,
    submitter: Option<string>,
    repoUrl: Option<string>,
    score: int,
    scores: Option<Scores>,
    units: string,
    theory: string,
    animation: Artifact,
    image: Artifact,
    description: string,
    assumptions: seq<string>,
    date: string,
    equationLatex: string,
    tags: Tags)

  /** One entry of data/core.json. */
  datatype CoreRecord = CoreRecord(
    id: string,
    name: string,
    equationLatex: string,
    tractability: int,
    plausibility: int,
    validation: int,
    artifactCompleteness: int,
    score: Option<int>,
    novelty: int,
    source: string,
    description: string,
    units: string,
    theory: string,
    animation: ArtifactRef,
    image: ArtifactRef,
    derivativeCount: Option<int>)

  /** One entry of data/famous_equations.json. */
  datatype FamousRecord = FamousRecord(
    id: string,
    name: string,
    equationLatex: string,
    tractability: int,
    plausibility: int,
    validation: int,
    artifactCompleteness: int,
    novelty: int,
    description: string,
    units: string,
    theory: string,
    coreRefs: seq<string>)

  /** One entry of data/harvest/equation_harvest.json; a missing or null equation is None. */
  datatype HarvestEntry = HarvestEntry(
    equation: Option<string>,
    kind: string,
    source: string,
    lineStart: Option<int>,
    lineEnd: Option<int>,
    sha1: Option<string>)

  /**
   * The "stats" object of the harvest document; a key that is absent is
   * None, and an absent or null stats object has every key absent.
   */
  datatype HarvestStats = HarvestStats(
    raw: Option<int>,
    unique: Option<int>,
    byKind: Option<seq<(string, nat)>>,
    scanRoot: Option<string>)

  /** data/harvest/equation_harvest.json. */
  datatype HarvestDoc = HarvestDoc(stats: HarvestStats, entries: seq<HarvestEntry>)

  /** One entry of data/harvest/scored_candidates.json. */
  datatype ScoredEntry = ScoredEntry(
    equation: string,
    kind: string,
    source: string,
    lineStart: Option<int>,
    sha1: Option<string>,
    scoredAt: string,
    score: int,
    scores: Scores)

  /** The submissionId of every entry. */
  function SubmissionIds(entries: seq<Submission>): (ids: set<string>)
    ensures forall k :: 0 <= k < |entries| ==> entries[k].submissionId in ids
    ensures forall id :: id in ids ==> exists k :: 0 <= k < |entries| && entries[k].submissionId == id
  {
    set k | 0 <= k < |entries| :: entries[k].submissionId
  }

  /** The id of every ranked record. */
  function RowIds(rows: seq<RankedRecord>): (ids: set<string>)
    ensures forall k :: 0 <= k < |rows| ==> rows[k].id in ids
    ensures forall id :: id in ids ==> exists k :: 0 <= k < |rows| && rows[k].id == id
  {
    set k | 0 <= k < |rows| :: rows[k].id
  }

  /** data/submissions.json, which the scorer, the submitter and the promoter update in place. */
  class SubmissionStore {
    var entries: seq<Submission>
    var lastUpdated: string

    constructor (entries0: seq<Submission>, lastUpdated0: string)
      ensures entries == entries0 && lastUpdated == lastUpdated0
    {
      entries := entries0;
      lastUpdated := lastUpdated0;
    }
  }

  /** data/equations.json, the ranked board. */
  class RankedStore {
    var entries: seq<RankedRecord>
    var lastUpdated: string

    constructor (entries0: seq<RankedRecord>, lastUpdated0: string)
      ensures entries == entries0 && lastUpdated == lastUpdated0
    {
      entries := entries0;
      lastUpdated := lastUpdated0;
    }
  }

  /** data/core.json. */
  class CoreStore {
    var entries: seq<CoreRecord>

    constructor (entries0: seq<CoreRecord>)
      ensures entries == entries0
    {
      entries := entries0;
    }
  }

  /** data/harvest/scored_candidates.json: the candidates, the cursor into the harvest, and its stats. */
  class ScoredStore {
    var entries: seq<ScoredEntry>
    var cursor: nat
    var lastUpdated: string
    var statsCount: Option<int>

    constructor (entries0: seq<ScoredEntry>, cursor0: nat, lastUpdated0: string)
      ensures entries == entries0 && cursor == cursor0 && lastUpdated == lastUpdated0 && statsCount == None
    {
      entries := entries0;
      cursor := cursor0;
      lastUpdated := lastUpdated0;
      statsCount := None;
    }
  }
}
