# TopEquations submission lifecycle, modelled in Dafny

TopEquations keeps a leaderboard of equations. Contributors send a
submission, for example as a GitHub issue. It is validated, then scored by a
keyword heuristic, optionally blended with an LLM's advisory scores, and
promoted onto the ranked board. Ranked rows are exported as hashed
certificates. A reconciler reports drift between the documents. Harvested
LaTeX hits from the repository's own files are batch-scored and may be
auto-promoted. Core equations are rescored from the equations derived from
them.

This project models those tools, one Dafny module per Python file:

- `Records` holds the stored documents (submissions, ranked board, core
  entries, scored candidates). A document that a tool rewrites in place is a
  class whose `entries` sequence the tool's method reassigns.
- Pure helpers are functions. Loops that update documents are methods,
  proved against a specification function.
- Everything outside the process is a parameter of the model: the date, the
  SHA digests, JSON encoding and decoding, the LLM reply, the moderation
  reply, and the regular-expression matchers of the harvester.

Shared modules: `Wrappers` (Option and Result), `Text` (Python's
strip and split over the full Unicode white-space set, lower-casing on
ASCII only), `Slugs` (the slug every tool derives ids from)
and `Json` (an abstract JSON value).

## Behaviour of the code worth knowing

Each point below is read from the code itself. The model keeps each one,
except the two that are logged under Findings: there the rest of the
model uses the corrected behaviour, and the as-written code is modelled
by a separate member.

- tools/batch_import.py:42 offers to "auto-promote ready submissions", but
  tools/promote_submission.py:61-62 refuses only a submission that is
  already promoted. A `needs-review` submission is promoted too
  (`Promotion.NeedsReviewIsPromotable`).
- On an id collision, tools/promote_submission.py:95-96 appends the last 8
  characters of the submission's slug once and never checks the suffixed
  id again, so a duplicate ranked id is possible
  (`Promotion.SuffixedIdCanCollide`).
- `score_submission` documents "Returns scores dict or None on failure"
  (tools/llm_score_submission.py:140). A reply that decodes to a JSON value
  other than an object, or one holding an infinite number, raises an
  exception the wrapper does not catch (see Findings). `LlmScore.ScoreSubmission`
returns no result for these replies; the escape is modelled by
`LlmScore.ArrayReplyEscapes`.
- tools/score_submission.py records the manual score, when given, as the
  final score of the review. In the `--sync-equations` path it then writes
  the blend over the ranked row's score (lines 193-194), so the row and the
  review disagree (see Findings). The scoring loop
  of the model (`Scoring.SyncedRow`, `Scoring.SyncEquationScore` and so
  `Scoring.ScoreTargets` and `Scoring.ScoreMain`) uses the corrected
  `Scoring.SyncedScore`. The as-written sync is modelled only by
  `Scoring.SyncedScoreAsWritten`.
- The harvest batch scorer's default threshold is 68
  (tools/score_harvest_batch.py:117), but its heuristic total never exceeds
  64. With the default, nothing is auto-promoted
  (`HarvestBatch.DefaultThresholdPromotesNothing`).
- The certificate exporter never writes `submitter_hash`, which the
  reconciler requires of every certificate (tools/reconcile.py:102-108).
  So every exported certificate reads as drift
  (`Reconcile.ExportedCertificatesDrift`).
- The harvest id strips only command words written with two backslashes
  (the pattern on tools/score_harvest_batch.py:46). LaTeX read from JSON
  has single backslashes, so `\frac` stays and is slugged into the id
  (`HarvestBatch.DropCommandsKeepsSingle`).

## Model

| member | source | states |
|---|---|---|
| Text.StripTrims | tools/harvest_equations.py:51 | `str.strip()` removes white space at the two ends and nothing else: the result is a slice of the input with only white space outside it |
| Text.StripKeepsNonWs | tools/harvest_equations.py:51 | stripping keeps every character that is not white space, in order |
| Text.CollapseWsKeepsNonWs | tools/harvest_equations.py:52 | replacing each white-space run by one space keeps every other character, in order |
| Text.CollapseWsNoWs | tools/score_harvest_batch.py:47 | a text without white space is not changed by the run replacement |
| Text.StripCharTrims | tools/harvest_equations.py:53 | `str.strip(c)` removes copies of c at the two ends and nothing else |
| Slugs.RunsToDashWellFormed | tools/push_to_equation_repo.py:66-67 | replacing every run of characters outside [a-z0-9] by one '-' leaves only [a-z0-9-] with no two '-' in a row |
| Slugs.SlugBody | tools/submit_equation.py:19-20 | the lower-cased, dash-collapsed, dash-stripped body is made of [a-z0-9-] only, never starts or ends with '-', has no '--', and is no longer than its input |
| Slugs.SlugBodyShape | tools/score_harvest_batch.py:39-40 | the three steps (lower, collapse runs, strip '-') always yield a well-formed slug body |
| Slugs.SlugBodyIdempotent | tools/promote_submission.py:20-21 | slugging a slug changes nothing |
| Slugs.SlugBodyFixed | tools/push_to_equation_repo.py:66-67 | a text already made of [a-z0-9] and single dashes is left as it is by the run replacement |
| Slugs.Slug | tools/submit_equation.py:18-21 | the id slug is never empty and at most `cap` long (48 for submissions, 56 for promotions, 40 for harvest ids); it is the fallback word exactly when the body is empty; otherwise it is the whole body when that is shorter than `cap`, and the body's first `cap` characters when not, so it starts with a letter or digit |
| Slugs.SlugOfSlugBody | tools/promote_submission.py:19-22 | a non-empty slug body within the cap is its own slug |
| PushRepo.CollapseDashInvalid | tools/push_to_equation_repo.py:65-67 | the repository slug's two substitutions (each invalid character to '-', then runs of '-' to one) equal the single run-replacing substitution of the other tools |
| PushRepo.RepoSlugIsSlugBody | tools/push_to_equation_repo.py:65-67 | the repository name of an equation is the same slug body the other tools compute |
| PushRepo.RepoSlugShape | tools/push_to_equation_repo.py:65-67 | a repository name is a well-formed slug body no longer than the equation id |
| PushRepo.RepoSlugIdempotent | tools/push_to_equation_repo.py:65-67 | the repository name of a repository name is itself |
| PushRepo.TextExtensionsAllowed | tools/push_to_equation_repo.py:31-55 | every extension of the separately written text list is also in the allowlist |
| PushRepo.BannedPatternsDotted | tools/push_to_equation_repo.py:58-62 | every banned pattern is a '.' followed by at least one character and no further '.' |
| PushRepo.BannedPatternsShape | tools/push_to_equation_repo.py:31-62 | no banned pattern is itself an allowed extension |
| PushRepo.LastDot | tools/push_to_equation_repo.py:99 | the index found is the last '.' of the name, or -1 when there is none |
| PushRepo.Suffix | tools/push_to_equation_repo.py:99 | a path suffix is empty or a '.' followed by the name's tail, with no other '.' in it |
| PushRepo.CheckExtension | tools/push_to_equation_repo.py:97-105 | a name passes exactly when its lower-cased suffix is allowed and no banned pattern matches; a suffix outside the allowlist is reported with that suffix |
| PushRepo.BannedMatchIsSuffix | tools/push_to_equation_repo.py:102-104 | a banned pattern that matches the name (case-insensitively, at its end or before a final newline) is the name's suffix, or the suffix ends in a newline or is empty |
| PushRepo.BannedNeverAfterAllowed | tools/push_to_equation_repo.py:99-105 | once the suffix is allowed, no banned pattern can match the name |
| PushRepo.CheckExtensionIsAllowlist | tools/push_to_equation_repo.py:97-105 | the extension check passes exactly when the lower-cased suffix is in the allowlist: the banned patterns add nothing |
| PushRepo.FlaggedCategories | tools/push_to_equation_repo.py:149-150 | the reported categories are at most the categories given, and each of them has its flag set |
| PushRepo.ModerateTextFailsClosed | tools/push_to_equation_repo.py:108-156 | text passes moderation exactly when a key is set, the service replies, its result list is non-empty and the first result is not flagged; every other outcome blocks |
| PushRepo.ModerateTextSample | tools/push_to_equation_repo.py:121 | only the first 100000 characters are moderated: texts agreeing on them get the same verdict |
| PushRepo.ModerateFile | tools/push_to_equation_repo.py:159-169 | an extension failure is returned first, then a size over 50 MB |
| PushRepo.ModerateFilePasses | tools/push_to_equation_repo.py:159-183 | a file passes exactly when its extension is allowed, it is at most 50 MB and, for a text extension, it can be read and the service passes it |
| PushRepo.BinaryNotModerated | tools/push_to_equation_repo.py:172-183 | the outcome for a non-text file does not depend on its content, the key or the service |
| PushRepo.PushFile | tools/push_to_equation_repo.py:190-242 | a clone happens exactly when the equation is found, its repository exists, the folder is allowed, the file exists, moderation passes and it is not a dry run |
| PushRepo.BadFolderNeverCloned | tools/push_to_equation_repo.py:215-218 | a folder outside the allowed six stops the push at or before the folder check |
| IssueParser.CheckStr | tools/parse_github_issue.py:33-38 | a value is accepted exactly when it is a string within the length limit (measured before stripping); the result is the stripped string; a non-string and an over-long string are rejected with their own error |
| IssueParser.CheckItems | tools/parse_github_issue.py:47-53 | the items are accepted exactly when every one is a string within the item limit; the result keeps their number and order, each stripped; a failure names an item |
| IssueParser.CheckStrList | tools/parse_github_issue.py:41-53 | a non-array and an array of more than 20 items are rejected first; otherwise the list is accepted exactly when every item is, and the result is the items stripped, in order |
| IssueParser.ParseRequired | tools/parse_github_issue.py:96-105 | on success name, equation and description are strings, each is the stripped value, non-empty and within 200, 2000 and 4000 characters |
| IssueParser.ParseMeta | tools/parse_github_issue.py:107-118 | on success source and submitter are the stripped values (defaults "github-issue" and "anonymous") within 100 characters, units is one of OK/TBD/WARN and theory one of PASS/PASS-WITH-ASSUMPTIONS/TBD/FAIL (default TBD) |
| IssueParser.ParseLists | tools/parse_github_issue.py:120-128 | assumptions and evidence are the stripped items of the given arrays, or empty when the key is absent, each item within 500 characters |
| IssueParser.StrippedItems | tools/parse_github_issue.py:52 | the items of an array, each stripped, in order |
| IssueParser.ParseObject | tools/parse_github_issue.py:84-130 | unknown keys are rejected before missing required keys; a success has only known keys and every required key, satisfies every field limit and enumeration, and carries the stripped field values |
| IssueParser.ParseObjectAccepts | tools/parse_github_issue.py:84-130 | an object is accepted exactly when it has only known keys and every required key, each string is a string within its raw-length cap, the required ones are non-blank after stripping, units and theory are in their enumerations, and each list present is an array of at most 20 strings of at most 500 characters |
| IssueParser.RequiredAccepts | tools/parse_github_issue.py:96-105 | the required fields pass exactly when each is a string within its cap and non-blank after stripping |
| IssueParser.MetaAccepts | tools/parse_github_issue.py:107-118 | the optional scalars pass exactly when each (or its default) is a string within its cap and units and theory are in their enumerations |
| IssueParser.ListsAccepts | tools/parse_github_issue.py:120-128 | the lists pass exactly when each one present is an array of at most 20 strings within the item cap |
| IssueParser.ParseSubmission | tools/parse_github_issue.py:56-130 | an empty body (after removing code fences), invalid JSON and a non-object are rejected in that order; an object is validated field by field; every success is a valid submission |
| IssueParser.ParseObjectFixpoint | tools/parse_github_issue.py:84-130 | a valid submission written back as a JSON object parses to itself |
| IssueParser.RequiredFixpoint | tools/parse_github_issue.py:96-105 | the required fields of a valid submission pass their checks unchanged |
| IssueParser.CheckStrFixpoint | tools/parse_github_issue.py:33-38 | a stripped string within the limit passes the check unchanged |
| IssueParser.MetaFixpoint | tools/parse_github_issue.py:107-118 | the optional scalar fields of a valid submission pass their checks unchanged |
| IssueParser.ListFixpoint | tools/parse_github_issue.py:41-53 | a list of stripped items within the limits passes the list check unchanged |
| IssueParser.ParseSubmissionFixpoint | tools/parse_github_issue.py:133-146 | printing the parsed result as JSON and parsing that again gives the same result: parsing is idempotent |
| Submit.BaseSubmissionId | tools/submit_equation.py:80-81 | the id is "sub-", the date, "-", then the name's slug capped at 48 characters, which is "equation" when the name has no letter or digit |
| Submit.BaseSubmissionIdOfSlug | tools/submit_equation.py:80-81 | a name that is already a slug body of at most 48 characters appears in the id as it is |
| Submit.CandidateInjective | tools/submit_equation.py:96 | different counters give different alternative ids |
| Submit.FirstFreeUnique | tools/submit_equation.py:92-97 | at most one id is the base or the first free alternative from -2 on, so the choice is determined by the ids present |
| Submit.TriedSize | tools/submit_equation.py:93-97 | after trying the base and -2 .. -(n-1), n-1 distinct ids have been tried, which bounds the loop by the number of existing ids |
| Submit.FreeId | tools/submit_equation.py:92-97 | the loop ends with an id not already used: the base itself when free, otherwise the first of base-2, base-3, ... that is free |
| Submit.NonBlank | tools/submit_equation.py:110-111 | the kept items are stripped and non-empty; every item that strips to something non-empty is kept, and nothing else is |
| Submit.NonBlankKeepsClean | tools/submit_equation.py:110-111 | a list of stripped, non-empty items is kept as it is |
| Submit.NonBlankIdempotent | tools/submit_equation.py:110-111 | filtering a filtered list changes nothing |
| Submit.NewEntry | tools/submit_equation.py:99-115 | a new entry carries the given id, date and submitter, every text field is the stripped argument, the assumption and evidence lists are the arguments without blank items, and it is pending with an empty review and a planned animation and image |
| Submit.NewEntryKeepsCleanArgs | tools/submit_equation.py:99-115 | arguments that are already stripped, with clean lists, are stored exactly |
| Submit.SubmitEquation | tools/submit_equation.py:80-119 | the store gains exactly one entry at the end, with a submission id no earlier entry has (the first free one), and its lastUpdated becomes the submission date; earlier entries are unchanged |
| Promotion.FindSubmission | tools/promote_submission.py:53-57 | the search returns the first entry whose submission id matches, or none when no entry matches |
| Promotion.SettleComponents | tools/promote_submission.py:64-79 | under --from-review the components are the stored review scores (missing ones read as 0) and the stored novelty, each clamped to its range (20, 20, 20, 10, 30); otherwise a manual promotion fails exactly when one of the five arguments is missing (negative) and gives each argument clamped to its range |
| Promotion.ManualComponentsKept | tools/promote_submission.py:72-79 | a manual promotion with all five arguments in range keeps them exactly |
| Promotion.Total | tools/promote_submission.py:81-91 | a manual score wins, clamped to 0..100; otherwise under --from-review a truthy stored blend wins, else a truthy stored score; otherwise the total is the sum of the components |
| Promotion.TotalOutOfHundred | tools/promote_submission.py:81-85 | when no stored score is copied, the total is between 0 and 100 |
| Promotion.BaseId | tools/promote_submission.py:93 | the base id is the stripped --equation-id when one is given, else "eq-" and the name's slug capped at 56 characters ("submission" when empty); never empty |
| Promotion.BaseIdOfSlug | tools/promote_submission.py:93 | without --equation-id, a name that is already a slug body of at most 56 characters gives "eq-" and the name |
| Promotion.NewId | tools/promote_submission.py:94-96 | a free base id is kept; a taken one gets "-" and exactly the last 8 characters (all of them when shorter) of the submission id's slug |
| Promotion.Promote | tools/promote_submission.py:53-141 | an unknown id fails with not-found, an entry already promoted (status in any case) fails; otherwise promotion succeeds exactly when the components can be settled; on success the found entry becomes "promoted" and its review points at the new ranked id with the same score |
| Promotion.PromotedRecordShape | tools/promote_submission.py:100-128 | the appended record carries the clamped components and the novelty tag of the review, and a free base id is used unchanged |
| Promotion.FindAfterUpdate | tools/promote_submission.py:53-57 | writing back an entry with the same id at the found position keeps it the first match |
| Promotion.SecondPromotionRejected | tools/promote_submission.py:59-62 | after a successful promotion is written to both documents, promoting the same submission again is refused as already promoted |
| Promotion.RejectsAfterUpdate | tools/promote_submission.py:61-62 | an entry marked "promoted" at the first match makes promotion fail |
| Promotion.RejectsPromoted | tools/promote_submission.py:61-62 | a first match whose status is "promoted" in any case is refused |
| Promotion.NeedsReviewIsPromotable | tools/promote_submission.py:59-71 | a submission scored below the readiness threshold ("needs-review") is promoted all the same under --from-review: no readiness is required |
| Promotion.SuffixedIdCanCollide | tools/promote_submission.py:94-96 | the suffixed id is not checked again, so it can equal an id already on the board |
| Promotion.FromReviewPrefersBlend | tools/promote_submission.py:86-91 | under --from-review a stored blend is used even when a stored manual score differs |
| Promotion.PromoteSubmission | tools/promote_submission.py:50-144 | a refused promotion leaves both documents untouched; a successful one appends exactly the new record to the ranked board, replaces exactly the found entry, stamps both lastUpdated with the date and returns the new id |
| Scoring.Clamp | tools/score_submission.py:27-28 | a clamped value lies in the range, equals the input when the input is in range, and is the nearer bound otherwise |
| Scoring.LetterRun | tools/score_submission.py:45 | the run counted is the longest prefix of ASCII letters |
| Scoring.Commands | tools/score_submission.py:45 | every distinct LaTeX command found is a backslash followed by one or more ASCII letters |
| Scoring.CommandsComplete | tools/score_submission.py:45 | every backslash followed by a letter starts a found command: the backslash and its whole letter run |
| Scoring.Heuristic | tools/score_submission.py:116-130 | tractability, plausibility and validation lie in 0..20, artifact completeness in 0..10, novelty in 0..30, and the score is their sum |
| Scoring.HeuristicRange | tools/score_submission.py:31-122 | no clamp of the heuristic ever binds: tractability lies in 10..19, plausibility in 14..20, validation in 8..20, artifact completeness is 4, 7 or 10, novelty lies in 16..29, so every heuristic total lies in 52..98 |
| Scoring.TractabilityRange | tools/score_submission.py:35-47 | raw tractability, with the missing-'=' penalty, lies in 10..19 |
| Scoring.PlausibilityRange | tools/score_submission.py:49-56 | raw plausibility, with the missing-'=' penalty, lies in 14..20 |
| Scoring.ValidationRange | tools/score_submission.py:58-80 | raw validation lies in 8..20 |
| Scoring.NoveltyRange | tools/score_submission.py:96-114 | raw novelty lies in 16..29 |
| Scoring.Blend | tools/score_submission.py:156-158 | the blend is the integer nearest to 0.4 h + 0.6 l (never a tie) and lies between the two totals |
| Scoring.BlendOfFullMarks | tools/score_submission.py:156-158 | with a heuristic total of at least 52, an LLM total of 100 blends to at least 81 |
| Scoring.FullMarksClearThreshold | tools/score_submission.py:242-260 | an LLM reply of full marks takes any submission to a blended score of at least 81, above the default readiness threshold of 65 |
| Scoring.SelectionOf | tools/score_submission.py:225 | a non-blank --submission-id selects by id; otherwise --all-pending selects all pending entries; otherwise the latest entry is selected |
| Scoring.PickedBelow | tools/score_submission.py:136-140 | the picked indices below n are ascending and are exactly those whose entry matches the id, or is pending (any entry with --include-promoted) |
| Scoring.LastCandidate | tools/score_submission.py:141-147 | the index found is the last entry that is pending (or, with --include-promoted, pending, needs-review, ready or promoted), or none when there is no such entry |
| Scoring.PickEntries | tools/score_submission.py:133-147 | the targets are ascending indices; by id or all-pending they are exactly the matching entries; otherwise at most one, the last candidate, and none only when there is no candidate |
| Scoring.FinalScore | tools/score_submission.py:253-260 | a manual score wins, clamped to 0..100 (150 gives 100), otherwise the blend, otherwise the heuristic total |
| Scoring.Rescored | tools/score_submission.py:235-262 | the LLM reply is used only under --llm; a blend exists exactly when a reply does and is the blend of the heuristic and LLM totals; the final score follows the precedence rule and the sub-scores are the heuristic's |
| Scoring.NewStatus | tools/score_submission.py:288-289 | a promoted entry keeps its status; any other becomes "ready" exactly when the final score reaches the threshold and "needs-review" exactly when it does not |
| Scoring.RescoredEntryFacts | tools/score_submission.py:253-289 | the review keeps the prior stripped equationId and the heuristic total; its score and method name the winning rule (manual-override, blended-v1 with the model, heuristic-v2); the status moves only for an unpromoted entry |
| Scoring.EnergyMassHeuristic | tools/score_submission.py:31-130 | the bare submission "E=mc^2" with no assumptions, evidence or artifacts scores 17, 16, 8, 4, 16, total 61 |
| Scoring.EnergyMassText | tools/score_submission.py:32-45 | "E=mc^2" has six characters, lower-cases to "e=mc^2", holds an '=' and no LaTeX command |
| Scoring.EnergyMassTractability | tools/score_submission.py:35-47 | "E=mc^2" gets tractability 17 |
| Scoring.EnergyMassPlausibility | tools/score_submission.py:49-56 | "E=mc^2" gets plausibility 16 |
| Scoring.BareValidation | tools/score_submission.py:58-80 | without assumptions and evidence validation is the base 8 |
| Scoring.BareArtifact | tools/score_submission.py:82-89 | with neither artifact done, artifact completeness is the base 4 |
| Scoring.BareNovelty | tools/score_submission.py:96-114 | with no command, assumption or evidence, novelty is the base 16 |
| Scoring.PlannedNotDone | tools/score_submission.py:86 | a "planned" artifact does not count as done |
| Scoring.PromotedStatusIsPromoted | tools/score_submission.py:232-233 | the status "promoted" marks an entry as promoted |
| Scoring.PendingNotPromoted | tools/score_submission.py:232-233 | a pending entry is not promoted |
| Scoring.EnergyMassNeedsReview | tools/score_submission.py:288-289 | under the default threshold of 65, the heuristic alone leaves a pending "E=mc^2" at "needs-review" |
| Scoring.FindRow | tools/score_submission.py:169-172 | the row found is the first whose stripped name (or id) is the key, or none when no row has it |
| Scoring.ResolvedId | tools/score_submission.py:162-174 | the sync target id is the review's stripped equationId, else the id of the first row with the same stripped name, else blank |
| Scoring.ResolvedIdByName | tools/score_submission.py:162-174 | with no recorded equationId, the first row whose stripped name equals the submission's gives the resolved id |
| Scoring.SyncTarget | tools/score_submission.py:176-196 | the row the sync writes is the first whose stripped id is the resolved id; there is none when the id is blank or no row has it |
| Scoring.SyncedRowAgreesWithReview | tools/score_submission.py:191-194 | with the corrected sync, the ranked row's score equals the score the review records, whichever rule chose it |
| Scoring.SyncedScoreAsWrittenLosesManual | tools/score_submission.py:191-194 | as written, a manual score of 90 with an LLM reply of full marks on "E=mc^2" is recorded in the review but the ranked row gets the blend 84 |
| Scoring.SyncEquationScore | tools/score_submission.py:161-204 | a row is updated exactly when the sync target exists; then only that row changes, the board is stamped with the date and the submission's review records the resolved id; otherwise nothing changes |
| Scoring.ScoreOne | tools/score_submission.py:231-293 | one iteration keeps the number of submissions and of ranked rows |
| Scoring.Advance | tools/score_submission.py:286-293 | storing a rescored entry and syncing it keeps the number of submissions and of ranked rows |
| Scoring.ScoreAll | tools/score_submission.py:231-293 | the whole loop keeps the number of submissions and of ranked rows |
| Scoring.ScoreOneOthers | tools/score_submission.py:231-293 | an iteration changes no submission but its own |
| Scoring.ScoreOneSelf | tools/score_submission.py:231-293 | an iteration leaves its entry rescored, or untouched when it is a skipped promoted entry, apart from the equationId a sync may record |
| Scoring.ScoreAllLeavesOthers | tools/score_submission.py:231-293 | submissions that are not targets are unchanged by the loop |
| Scoring.ScoreAllOnTarget | tools/score_submission.py:231-293 | every target of a list without repeats ends rescored (or untouched when skipped), apart from the equationId a sync may record, whatever the other targets did |
| Scoring.ScoreAllKeepsBoard | tools/score_submission.py:290-292 | unless both --include-promoted and --sync-equations are given, the ranked board, its date and the sync count do not change |
| Scoring.ScoreStep | tools/score_submission.py:231-293 | the in-place iteration changes both stores exactly as one step of the loop specification |
| Scoring.AdvanceStep | tools/score_submission.py:286-293 | storing and syncing in place changes both stores exactly as the specification of that step |
| Scoring.ScoreTargets | tools/score_submission.py:229-297 | the in-place loop leaves both stores and both counters as the loop specification says, and stamps the submissions with the date |
| Scoring.ScoreMain | tools/score_submission.py:220-297 | --llm without an API key and an empty pick fail first and write nothing, both dates included; otherwise the run succeeds, both documents and the ranked board's date end as the loop specification over the picked targets says, the submissions' lastUpdated becomes today, and the two counters are returned |
| LlmScore.CutAssumptions | tools/llm_score_submission.py:62-66 | at most the first 20 assumptions are kept, in order, each as its text cut to 500 characters |
| LlmScore.CutEvidence | tools/llm_score_submission.py:68-78 | at most the first 20 evidence items are kept, in order, each as its label (for an object) or its text, cut to 500 characters |
| LlmScore.Sanitized | tools/llm_score_submission.py:54-78 | every prompt field is within its limit (200, 2000, 4000, 10, 30 characters; 20 items of 500); the equation and the description are the entry's text cut to 2000 and 4000, and each list item is the entry's item text cut to 500 |
| LlmScore.PromptOnlySeesSanitized | tools/llm_score_submission.py:54-88 | the prompt is a function of the sanitized fields alone |
| LlmScore.PromptIgnoresTails | tools/llm_score_submission.py:54-88 | changing any field other than the seven the prompt reads leaves the prompt unchanged |
| LlmScore.RoundHalfEven | tools/llm_score_submission.py:133 | the rounded value is within 0.5 of its argument, strictly unless the argument is halfway, and a halfway argument goes to the even neighbour |
| LlmScore.ClampScore | tools/llm_score_submission.py:133 | a score lies in 0..20 and an in-range score is kept |
| LlmScore.ScoreValue | tools/llm_score_submission.py:130-133 | a float becomes its half-to-even rounding clamped to 0..20, true and false become 1 and 0, an integer is clamped, a non-number becomes 0, NaN raises ValueError and an infinity raises OverflowError |
| LlmScore.ValuesInOrder | tools/llm_score_submission.py:128-133 | the loop over the expected keys succeeds exactly when every key's value converts, yields one score per key, and otherwise fails with the error of some key |
| LlmScore.ScoresOf | tools/llm_score_submission.py:135 | the LLM total is the sum of the five axis scores |
| LlmScore.ParseScoresAsWritten | tools/llm_score_submission.py:114-136 | every parsed reply has five scores in 0..20 and their sum as total; undecodable JSON raises the decode error and a non-object raises AttributeError |
| LlmScore.ParsedScoresRead | tools/llm_score_submission.py:126-135 | each axis score is the converted value of its key in the reply (missing keys read as 0) |
| LlmScore.ValuesOrderIrrelevant | tools/llm_score_submission.py:127-133 | iterating the expected keys in any order gives the same success and the same scores |
| LlmScore.ParseOrderIrrelevant | tools/llm_score_submission.py:127-133 | the parse's outcome on success does not depend on the set's iteration order |
| LlmScore.ScoreSubmissionAsWritten | tools/llm_score_submission.py:139-147 | any scores returned are in bounds; an error escapes only when the except clause does not name it |
| LlmScore.ArrayReplyEscapes | tools/llm_score_submission.py:126-147 | as written, the reply "[]" makes AttributeError escape the wrapper |
| LlmScore.InfiniteScoreEscapes | tools/llm_score_submission.py:131-147 | as written, an infinite axis value makes OverflowError escape the wrapper |
| LlmScore.ScoreSubmission | tools/llm_score_submission.py:139-147 | as intended, the wrapper returns scores exactly when the call replies and the reply parses, and None on any other outcome |
| LlmScore.ScoreSubmissionAgrees | tools/llm_score_submission.py:139-147 | wherever the original wrapper returns, the corrected one returns the same |
| Export.ToJson | tools/export_equation_certificates.py:49-73 | a certificate's fields form a JSON object that carries neither a metadata hash nor a submitter hash before sealing |
| Export.NoSubmitterHash | tools/export_equation_certificates.py:49-137 | no written certificate of any tier carries a submitter_hash field |
| Export.NormalisedScore | tools/export_equation_certificates.py:48 | the normalised score is the integer nearest to 100 s / 70 (never a tie), and a sub-score sum in 0..70 gives a score in 0..100 |
| Export.NearestFourteenth | tools/export_equation_certificates.py:112 | the integer computation (20 s + 7) div 14 lies within 7/14 of 20 s / 14 |
| Export.WithinHalf | tools/export_equation_certificates.py:112 | that quotient is within 0.5 of 100 s / 70 |
| Export.CoreScore | tools/export_equation_certificates.py:44-48 | a core entry's stored score is used when present, otherwise the normalised sum of its four sub-scores |
| Export.CoreCert | tools/export_equation_certificates.py:42-73 | a core certificate is tier core, carries the entry's id, name, LaTeX, description, units and theory, the hash of its LaTeX, the core score, date "core", the entry's source, and the novelty object {score: the entry's novelty, date: "core"} |
| Export.DerivedCert | tools/export_equation_certificates.py:79-100 | a derived certificate is tier derived, carries the row's id, the hash of its LaTeX, and the row's score, date and source |
| Export.FamousCert | tools/export_equation_certificates.py:106-134 | a famous certificate is tier famous, carries the entry's id, name, LaTeX, description, units, theory, core references and LaTeX hash, the normalised sum of its sub-scores, source "famous-adjusted", date "famous", and the novelty object {score: the entry's novelty, date: "famous"} |
| Export.Seal | tools/export_equation_certificates.py:74-75 | sealing keeps the certificate's fields |
| Export.SealRoundTrip | tools/export_equation_certificates.py:74-75 | the written object is the certificate's fields plus metadata_hash, and that hash is the hash of the canonical dump of the object without it: a verifier that drops the field and re-hashes gets it back |
| Export.CoreCerts | tools/export_equation_certificates.py:42-76 | one certificate per core entry |
| Export.DerivedCerts | tools/export_equation_certificates.py:79-103 | one certificate per ranked row |
| Export.FamousCerts | tools/export_equation_certificates.py:106-137 | one certificate per famous entry |
| Export.Certificates | tools/export_equation_certificates.py:39-137 | the export holds exactly one certificate per core, ranked and famous entry |
| Export.CertificatesSplit | tools/export_equation_certificates.py:39-137 | core certificates come first, then derived, then famous, each group in its document's order |
| Export.CertificatesAt | tools/export_equation_certificates.py:39-137 | position i of the export is the sealed certificate of the i-th entry across the three documents |
| Export.CertificateLayout | tools/export_equation_certificates.py:39-137 | position i carries the tier, the id and the LaTeX hash of the entry at that position of core, then ranked, then famous |
| Export.EquationHashOnlyLatex | tools/export_equation_certificates.py:53 | every certificate's equation hash is the hash of its own LaTeX |
| Export.MetadataHashes | tools/export_equation_certificates.py:74-75 | every certificate's metadata hash is the hash of the canonical dump of its other fields |
| Export.SealCore | tools/export_equation_certificates.py:42-76 | the core loop yields exactly the core certificates |
| Export.SealDerived | tools/export_equation_certificates.py:79-103 | the derived loop yields exactly the derived certificates |
| Export.SealFamous | tools/export_equation_certificates.py:106-137 | the famous loop yields exactly the famous certificates |
| Export.ExportCertificates | tools/export_equation_certificates.py:13-146 | the payload holds every certificate in order, its count is their number (core plus ranked plus famous), its source hash covers the three raw documents concatenated (a missing one as ""), and it names the schema, source file and time |
| Reconcile.AllEquationIds | tools/reconcile.py:31-34 | every ranked, core and famous id is among the equation ids |
| Reconcile.CertIds | tools/reconcile.py:36 | the certificate ids are exactly the token ids of the certificates |
| Reconcile.PromotedIds | tools/reconcile.py:56-61 | an id is collected exactly when it is non-blank and is the review equationId of some entry whose status is exactly "promoted" |
| Reconcile.PendingIds | tools/reconcile.py:93 | every pending or needs-review submission is listed, and only those |
| Reconcile.PendingIdsOne | tools/reconcile.py:93-99 | one submission is reported once when it is pending or needs review, and not at all otherwise |
| Reconcile.PendingIdsAppend | tools/reconcile.py:93-99 | the reported ids of two lists are those of the first followed by those of the second, so the report keeps queue order and counts each pending submission once |
| Reconcile.Unsigned | tools/reconcile.py:103 | the unsigned list is empty exactly when every certificate has a truthy submitter_hash |
| Reconcile.ReportIfOther | tools/reconcile.py:38-110 | a check only ever appends its own issue |
| Reconcile.AssembleMissing | tools/reconcile.py:37-44 | missing certificates are reported exactly when some equation id has no certificate, and always with that whole set |
| Reconcile.AssemblePromoted | tools/reconcile.py:62-69 | promoted-but-missing is reported exactly when some promoted id is not a ranked id, and always with that whole set |
| Reconcile.AssembleInfoOnly | tools/reconcile.py:46-53 | orphan certificates and pending submissions are informational only |
| Reconcile.AssembleUnsignedLast | tools/reconcile.py:102-110 | an unsigned certificate always puts the missing-submitter-hash warning last |
| Reconcile.Reconciled | tools/reconcile.py:113-117 | the report lists the issues with their count, and its status is CLEAN exactly when every issue is informational |
| Reconcile.ExitCode | tools/reconcile.py:121-122 | the process exits 1 exactly on DRIFT and 0 exactly on CLEAN |
| Reconcile.MissingCertificatesExact | tools/reconcile.py:30-44 | the missing-certificates issue appears exactly when an equation id has no certificate, and names exactly the ids without one |
| Reconcile.PromotedButMissingExact | tools/reconcile.py:55-69 | a promoted submission's equation id is reported missing exactly when it is non-blank and no ranked row has it |
| Reconcile.InfoOnlyIsClean | tools/reconcile.py:30-122 | with every equation certified, every promoted id ranked, nothing stale and every certificate signed, the report is CLEAN and the exit code 0 |
| Reconcile.UnsignedDrift | tools/reconcile.py:102-122 | a single certificate without a submitter hash makes the report DRIFT, exit code 1 |
| Reconcile.UnsignedWarnsLast | tools/reconcile.py:102-110 | with an unsigned certificate the last issue is a warning |
| Reconcile.ExportedCertificatesDrift | tools/reconcile.py:102-122 | since the exporter never writes submitter_hash, any non-empty set of exported certificates makes the audit report DRIFT and exit 1 |
| Reconcile.UnsignedNonEmpty | tools/reconcile.py:103 | a certificate without a submitter_hash field is listed as unsigned |
| CoreScoring.Keywords | tools/score_core.py:31-46 | a core id outside the keyword map has no keywords |
| CoreScoring.Pool | tools/score_core.py:103-112 | the derived pool starts with every ranked row, in order |
| CoreScoring.PromotedOnly | tools/score_core.py:108-112 | every submission added to the pool has status "promoted" in any case, and every promoted submission is added |
| CoreScoring.PromotedOnlyAppend | tools/score_core.py:108-112 | the pool of two submission lists is the pool of the first followed by the pool of the second, so the pool keeps submission order |
| CoreScoring.DerivCount | tools/score_core.py:65-79 | the derivative count is at most the pool's size, and 0 without keywords |
| CoreScoring.DerivCountAppend | tools/score_core.py:69-79 | the count over a pool extended by more entries is the sum of the two counts, so promoted submissions only add |
| CoreScoring.DerivCountFull | tools/score_core.py:69-79 | the count equals the pool's size exactly when every pool entry mentions a keyword |
| CoreScoring.CountDerivatives | tools/score_core.py:65-79 | the counting loop, with its inner any() over the keywords, yields exactly the number of pool entries whose joined, lower-cased text contains a lower-cased keyword |
| CoreScoring.SlotScore | tools/score_core.py:84-94 | one artifact slot scores at most 2; a missing slot scores 0 and a slot with a non-blank path scores 2 |
| CoreScoring.ArtifactScore | tools/score_core.py:82-95 | the artifact score lies in 0..4, so its clamp to 0..10 never binds |
| CoreScoring.BaseValidation | tools/score_core.py:121-127 | the theory and units part of validation is at most 6 |
| CoreScoring.Boost | tools/score_core.py:130 | the derivative boost is 2 per derivative up to 12 |
| CoreScoring.ValidationNeverClamped | tools/score_core.py:121-132 | the clamp of validation never binds: the raw value is at most 18 |
| CoreScoring.CoreTotal | tools/score_core.py:117-136 | the core total is the nearest integer to 100/70 of the clamped tractability and plausibility plus validation and artifact score, so it lies in 0..100 |
| CoreScoring.ScoredCore | tools/score_core.py:115-141 | validation is the base validation plus the derivative boost, completeness is the sum of the two artifact slot scores, the score is the core total, and the derivative count is the pool count for the entry's keywords; nothing else changes |
| CoreScoring.ScoredCoreIdempotent | tools/score_core.py:115-141 | scoring an already scored entry against the same pool changes nothing |
| CoreScoring.ScoreCore | tools/score_core.py:98-151 | every entry is counted; a dry run writes nothing; otherwise every entry is replaced by its scored form, in place and in order |
| Harvest.Normalize | tools/harvest_equations.py:50-54 | a normalised equation is no longer than its input and neither starts nor ends with '$' |
| Harvest.NormalizeContent | tools/harvest_equations.py:50-54 | stripping and collapsing keep every character that is not white space, in order, and the '$' strip then cuts only a run of '$' from each end |
| Harvest.NormalizeSpaces | tools/harvest_equations.py:51-52 | a normalised equation has only plain spaces as white space, never two in a row |
| Harvest.NormalizeAll | tools/harvest_equations.py:93-94 | every extracted body is normalised, in order |
| Harvest.KeepLong | tools/harvest_equations.py:93-97 | the LaTeX hits kept are at most the bodies found |
| Harvest.KeepLongShaped | tools/harvest_equations.py:95-97 | every LaTeX hit is of kind "latex", from its file, without line numbers or digest, with an equation of at least 8 characters |
| Harvest.KeepLongExact | tools/harvest_equations.py:93-97 | a normalised body becomes a hit exactly when it is at least 8 characters long |
| Harvest.LatexHitsExact | tools/harvest_equations.py:93-97 | a text n is a LaTeX hit of the file exactly when n is at least 8 long and is the normal form of some extracted body |
| Harvest.LatexHitsShaped | tools/harvest_equations.py:93-97 | all LaTeX hits of a file have the LaTeX hit shape |
| Harvest.AfterFirstEq | tools/harvest_equations.py:108 | the right-hand side is the part of the line after its first '=' |
| Harvest.Numbered | tools/harvest_equations.py:101 | the kept lines are at most the lines given |
| Harvest.NumberedExact | tools/harvest_equations.py:101-111 | a line appears with number first + j exactly when it is line j and passes the filter |
| Harvest.CodeHits | tools/harvest_equations.py:99-111 | the code hits are at most the lines of the file |
| Harvest.CodeHitsSound | tools/harvest_equations.py:101-111 | every code hit is the stripped text of a line that passes every filter, numbered from 1, as both start and end line |
| Harvest.CodeHitsComplete | tools/harvest_equations.py:101-111 | every line that passes the pattern, the "=="/"!=" exclusion, the hint and the right-hand-side length test becomes a code hit |
| Harvest.CodeHitsRaw | tools/harvest_equations.py:111 | code hits are of kind "code" and carry no digest yet |
| Harvest.FileHits | tools/harvest_equations.py:85-111 | a file with another suffix, or one that cannot be read, contributes nothing |
| Harvest.FileHitsRaw | tools/harvest_equations.py:85-111 | every hit of a file is a LaTeX or code hit without a digest |
| Harvest.HarvestFilesRaw | tools/harvest_equations.py:85-113 | every raw hit of the walk is a LaTeX or code hit without a digest |
| Harvest.CollectHits | tools/harvest_equations.py:85-113 | the loop over files yields the hits of each file in turn, in order |
| Harvest.KeysMember | tools/harvest_equations.py:119-123 | a digest is among a list's keys exactly when some entry has it |
| Harvest.Dedup | tools/harvest_equations.py:119-125 | the unique list is no longer than the raw list |
| Harvest.DedupKeys | tools/harvest_equations.py:119-125 | deduplication loses no digest: the unique hits have exactly the digests of the raw hits |
| Harvest.DedupDistinct | tools/harvest_equations.py:119-125 | the unique hits have pairwise distinct digests and each carries its own digest as sha1 |
| Harvest.DedupPrefix | tools/harvest_equations.py:119-125 | later hits only append: the unique list of a prefix is a prefix of the unique list |
| Harvest.StampedFirstGrows | tools/harvest_equations.py:119-123 | a hit that was first with its digest stays first when later hits arrive |
| Harvest.DedupKeepsFirst | tools/harvest_equations.py:119-125 | every unique hit is the first raw hit with its digest, stamped |
| Harvest.DedupHits | tools/harvest_equations.py:119-125 | the dictionary loop yields exactly the first-seen deduplication |
| Harvest.Bump | tools/harvest_equations.py:129 | adding one to a kind's count raises that kind by one, the total by one, and no other kind |
| Harvest.KindCounts | tools/harvest_equations.py:127-129 | the by_kind counts add up to the number of unique hits |
| Harvest.KindCountsExact | tools/harvest_equations.py:127-129 | each kind's count is the number of unique hits of that kind |
| Harvest.CountByKind | tools/harvest_equations.py:127-129 | the counting loop yields exactly the by_kind counts |
| Harvest.HarvestMain | tools/harvest_equations.py:116-139 | the document holds the deduplicated hits, raw is the number of raw hits, unique the number kept (never more than raw), by_kind is the per-kind count of the kept hits and adds up to unique, and the scan root is recorded |
| HarvestBatch.Slug40 | tools/score_harvest_batch.py:38-41 | the harvest slug has between 1 and 40 characters, only [a-z0-9-] with no '--', and does not start with '-' |
| HarvestBatch.DropCommands | tools/score_harvest_batch.py:46 | removing the doubled-backslash command words never lengthens the text |
| HarvestBatch.DropCommandsKeepsSingle | tools/score_harvest_batch.py:46 | a text with no two backslashes in a row, such as LaTeX with single-backslash commands, passes through unchanged |
| HarvestBatch.DropCommandsRemovesDouble | tools/score_harvest_batch.py:46 | two backslashes followed by a letter run up to the next non-letter are removed whole |
| HarvestBatch.SafeId | tools/score_harvest_batch.py:44-48 | the id is "eq-harvest-" followed by a slug of [a-z0-9-] without '--' that does not start with '-', 12 to 51 characters long |
| HarvestBatch.SafeIdOfSlug | tools/score_harvest_batch.py:44-48 | a non-empty slug body of at most 40 characters gives the id "eq-harvest-" followed by itself |
| HarvestBatch.Novelty | tools/score_harvest_batch.py:55-65 | novelty lies between its base 8 and 27, so the clamp to 0..30 never binds |
| HarvestBatch.Tractability | tools/score_harvest_batch.py:67-75 | tractability lies between 10 and 15 |
| HarvestBatch.Plausibility | tools/score_harvest_batch.py:77-83 | plausibility lies between 14 and 16 |
| HarvestBatch.HarvestValidation | tools/score_harvest_batch.py:85-90 | validation is 6 exactly when the equation contains '=', otherwise 4 |
| HarvestBatch.Heuristic | tools/score_harvest_batch.py:51-103 | the total is the sum of the five sub-scores, artifact completeness is 0, and the total lies between 36 and 64 |
| HarvestBatch.Already | tools/score_harvest_batch.py:130 | the sha1 of every scored candidate that has a non-empty one is in the seen set |
| HarvestBatch.SelectBounds | tools/score_harvest_batch.py:132-144 | at most `batch` picks; the cursor stays inside the harvest and stops before its end only on a full batch |
| HarvestBatch.SelectPicked | tools/score_harvest_batch.py:132-144 | every pick is a LaTeX entry not scored before, between the old and the new cursor, in increasing order |
| HarvestBatch.SelectComplete | tools/score_harvest_batch.py:132-144 | no eligible entry between the old and the new cursor is skipped |
| HarvestBatch.SelectBatch | tools/score_harvest_batch.py:132-144 | the while loop yields exactly the picks and cursor of the selection function |
| HarvestBatch.ScoredOf | tools/score_harvest_batch.py:152-171 | the scored candidate carries the stripped equation, the heuristic total (36 to 64) and the harvest entry's kind, sha1 and line |
| HarvestBatch.HarvestId | tools/score_harvest_batch.py:175-179 | a fresh id is kept; a taken one gets "-" and the first 8 characters of the sha1 (all of it when shorter, nothing when missing) |
| HarvestBatch.RankedOf | tools/score_harvest_batch.py:181-203 | the ranked row carries the id, the total, the equation, the "harvest: " source and planned artifacts |
| HarvestBatch.Candidates | tools/score_harvest_batch.py:151-171 | one scored candidate per pick, in order, none above 64 |
| HarvestBatch.PlaceOne | tools/score_harvest_batch.py:173-206 | below the threshold the candidate is appended to the scored list; at or above it a ranked row is appended and its id recorded, the rest unchanged |
| HarvestBatch.PlaceScored | tools/score_harvest_batch.py:173-206 | the scored list grows by exactly the candidates below the threshold, in order |
| HarvestBatch.PlaceRanked | tools/score_harvest_batch.py:173-206 | the board keeps its old rows as a prefix and grows by the number of candidates at or above the threshold |
| HarvestBatch.HighThresholdPromotesNothing | tools/score_harvest_batch.py:95-103 | a threshold above 64 promotes nothing and every pick goes to the scored list |
| HarvestBatch.DefaultThresholdPromotesNothing | tools/score_harvest_batch.py:117 | with the default threshold 68 no harvest candidate can ever be promoted |
| HarvestBatch.PromotedIdsRecorded | tools/score_harvest_batch.py:179 | every id on the board stays recorded in the taken-id set |
| HarvestBatch.PlaceAll | tools/score_harvest_batch.py:150-206 | the scoring loop yields the placement function's result and counts the promotions |
| HarvestBatch.ScoreBatch | tools/score_harvest_batch.py:114-216 | the cursor moves to the selection's end and never back; the scored list and, only when something was promoted, the board and its date take the placement's result; the stats count is the scored list's size |
| CleanHarvest.Kept | tools/clean_harvest.py:24-40 | no kept entry has a missing, blank, "none" or "null" equation, and no more entries are kept than there were |
| CleanHarvest.KeptAppend | tools/clean_harvest.py:40 | the filter works entry by entry: filtering a concatenation concatenates the filtered parts |
| CleanHarvest.KeptExact | tools/clean_harvest.py:40 | an entry is kept exactly when it was present and its equation is not bad |
| CleanHarvest.KeptAll | tools/clean_harvest.py:40 | nothing is removed exactly when no equation is bad |
| CleanHarvest.KeptIdempotent | tools/clean_harvest.py:40 | filtering twice is filtering once |
| CleanHarvest.Clean | tools/clean_harvest.py:35-48 | the document keeps the good entries, stats.unique becomes their number, and the number removed is the number of entries with a bad equation |
| CleanHarvest.RemovedIsBadCount | tools/clean_harvest.py:39-41 | the removed count is the number of entries whose equation is missing, blank, "none" or "null" |
| CleanHarvest.CleanIdempotent | tools/clean_harvest.py:35-48 | cleaning a cleaned document changes nothing and removes nothing |
| AutoAnimate.FirstWhere | tools/auto_animate_one.py:185-196 | the first position satisfying the test, with no earlier one satisfying it, or none when no entry does |
| AutoAnimate.PickFromSound | tools/auto_animate_one.py:176-198 | a picked position is inside the board and its entry has no animation path |
| AutoAnimate.PickFromNone | tools/auto_animate_one.py:176-198 | nothing is picked exactly when every entry already has an animation path |
| AutoAnimate.PickFromFallback | tools/auto_animate_one.py:192-198 | when no priority id is pending, the pick is the first unanimated entry |
| AutoAnimate.PriorityWins | tools/auto_animate_one.py:178-190 | when the phase-coupled law is on the board without an animation, it is picked, whatever comes before it |
| AutoAnimate.PickEntryFallback | tools/auto_animate_one.py:192-196 | otherwise the first unanimated entry in board order is picked |
| AutoAnimate.PickEntryExact | tools/auto_animate_one.py:176-198 | None exactly when every entry has an animation, and a picked entry is on the board and unanimated |
| AutoAnimate.SliceTo | tools/auto_animate_one.py:205 | Python's s[:n] is a prefix of s whose length follows the negative-index rule |
| AutoAnimate.PreparedShape | tools/auto_animate_one.py:202 | the prepared description has no line break, no white space at either end, and the stripped text's length |
| AutoAnimate.ClampDesc | tools/auto_animate_one.py:201-205 | the result has no line break and is stripped; a text that fits max_len is kept whole; a longer one is cut to max_len - 1 characters, right-stripped, and ends with an ellipsis |
| AutoAnimate.ClampFits | tools/auto_animate_one.py:203-204 | a stripped one-line text that fits is returned unchanged |
| AutoAnimate.ClampIdempotent | tools/auto_animate_one.py:201-205 | clamping a clamped description changes nothing |
| JsonEscapes.EscapeFrom | tools/fix_json_escapes.py:19-22 | the substitution keeps the first character of a non-empty text |
| JsonEscapes.EscapeIsPieces | tools/fix_json_escapes.py:22 | the left-to-right substitution equals the position-by-position reference: a lone backslash becomes two, every other character stays |
| JsonEscapes.PiecesLength | tools/fix_json_escapes.py:22 | the result grows by exactly one character per lone backslash |
| JsonEscapes.EscapeFixedIff | tools/fix_json_escapes.py:22 | the text is unchanged exactly when it has no lone backslash |
| JsonEscapes.EscapeNoLone | tools/fix_json_escapes.py:19-22 | after the repair no backslash is lone |
| JsonEscapes.EscapeIdempotent | tools/fix_json_escapes.py:19-22 | repairing twice is repairing once |
| JsonEscapes.EscapeKeepsOthers | tools/fix_json_escapes.py:22 | every character other than a backslash is kept, in order |

## Left out

- Network and subprocesses: the LLM HTTP call (`_call_llm`, tools/llm_score_submission.py:91-111), the moderation API call (tools/push_to_equation_repo.py:108-156) and every `gh`/`git` step of the repository push after the checks (cloning, committing, pushing). Their replies are inputs of the model. Whether a repository exists (`_repo_exists`) and where an equation is found (`_find_equation`) are inputs too.
- Files, clocks and hashing: reading and writing the JSON documents, today's date and `generated_at`, SHA-256/SHA-1 digests and canonical `json.dumps`/`json.loads`. The date is a parameter; digests, encoding and decoding are uninterpreted functions. The stale-export and stale-site checks of the reconciler compare file modification times; they are boolean inputs.
- The markdown daily-log append of tools/submit_equation.py:34-64 and the command-line `main` of tools/llm_score_submission.py:150-195 are file output only.
- Regular-expression extraction in the harvester: the directory walk with its skipped directories and extensions, `extract_from_text`, and the `CODE_EQ`/`MATH_HINT` patterns (tools/harvest_equations.py:61-113) are given as abstract predicates and lists. The field-locating pattern of tools/fix_json_escapes.py:29 is left out too: the model covers the repair of one field's content (line 22), not the finding of the fields in the file text.
- Harvest.KeepCodeLine: the `CODE_EQ` match is an input, so the model adds the '=' it guarantees as an explicit condition; which lines the pattern accepts beyond that is not modelled.
- Case mapping is ASCII-only: `str.lower` and `str.upper` of non-ASCII characters are not modelled. White space follows Python's full `str.isspace` set.
- Ordering of output lists: the reconciler's missing, orphan and promoted-but-missing id lists are sets, so their sorting is not modelled. The pending list keeps queue order, as tools/reconcile.py:93-99 does. The unsigned list keeps certificate order, with repeats, where tools/reconcile.py:109 sorts it. The TypeError that `sorted()` raises at tools/reconcile.py:43,52,109 on a mix of missing and present ids is not modelled. The harvester's per-kind summary does not model the sort order of its kinds.
- Floating point: Python's `round` on the blend and on the /70·100 normalisation never meets a tie on integer inputs, so they are exact integer formulas. LLM reply values are rationals (with NaN and the infinities as separate cases), not IEEE doubles.
- The Manim scene rendering and the `main` of tools/auto_animate_one.py:208 onwards are left out; only the choice of entry and the description clamp are modelled. An entry whose `animation` is missing or null is read as having the path "".
- Chain publishing, receipts, the site and leaderboard builders, the one-shot data-entry scripts, the simulations and the orchestration wrappers are not part of this model.
- Concurrency: each tool is a single run on whole documents; two tools writing the same document at once are not modelled.

## Findings

| source | as written | input that shows it | evidently intended | confidence | as-written member | corrected member |
|---|---|---|---|---|---|---|
| tools/llm_score_submission.py:126-147 | `_parse_scores` calls `.get` on whatever JSON the reply decodes to and `round` on every number; the wrapper catches only `URLError`, `JSONDecodeError`, `KeyError` and `ValueError` | the reply text `[]` (AttributeError), or a reply whose `physical_validity` is `Infinity` (OverflowError) | any reply that is not a well-formed score object makes `score_submission` return None, so the caller falls back to the heuristic | high, not executed | LlmScore.ArrayReplyEscapes | LlmScore.ScoreSubmission |
| tools/score_submission.py:191-194 | after writing the final score to the ranked row, the sync overwrites it with the blend whenever one exists | `--manual-score 90 --llm --sync-equations --include-promoted` on a promoted "E=mc^2" (no assumptions, evidence or artifacts) with an all-20 reply: the review records 90, the ranked row gets 84 | the ranked row carries the same final score as the review, manual override first | medium, not executed | Scoring.SyncedScoreAsWrittenLosesManual | Scoring.SyncedRowAgreesWithReview |
