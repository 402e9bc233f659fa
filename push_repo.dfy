/**
 * The gatekeeping in front of pushing a research artifact to an equation's
 * own repository: the repository name derived from the equation id, the
 * extension allowlist and banned-name patterns, the size limit and the text
 * moderation (which fails closed), and the order in which push checks its
 * arguments before it clones anything. The moderation service, the file
 * system and the git/gh commands are inputs.
 */
module PushRepo {
  import opened Wrappers
  import opened Text
  import Slugs

  // ---------------------------------------------------------------------
  // The repository name

  /** re.sub(r"[^a-z0-9-]", "-", s): every character outside [a-z0-9-] becomes '-'. */
  function DashInvalid(s: string): (r: string)
    ensures |r| == |s|
  {
    if s == [] then []
    else [if Slugs.IsAlnum(s[0]) || s[0] == '-' then s[0] else '-'] + DashInvalid(s[1..])
  }

  /** re.sub(r"-+", "-", s); `inRun` says a run of '-' has just been replaced. */
  function CollapseDashes(s: string, inRun: bool): (r: string)
    ensures |r| <= |s|
  {
    if s == [] then []
    else if s[0] != '-' then [s[0]] + CollapseDashes(s[1..], false)
    else if inRun then CollapseDashes(s[1..], true)
    else "-" + CollapseDashes(s[1..], true)
  }

  /** The repository name of an equation: lower-case, invalid characters to '-', runs of '-' to one, '-' stripped. */
  function RepoSlug(equationId: string): string {
    StripChar(CollapseDashes(DashInvalid(Lower(equationId)), false), '-')
  }

  /** Replacing then collapsing is the same as collapsing every run of non-[a-z0-9] at once. */
  lemma {:induction false} CollapseDashInvalid(s: string, inRun: bool)
    ensures CollapseDashes(DashInvalid(s), inRun) == Slugs.RunsToDash(s, inRun)
  {
    if s != [] {
      CollapseDashInvalid(s[1..], !Slugs.IsAlnum(s[0]));
      assert DashInvalid(s)[1..] == DashInvalid(s[1..]);
    }
  }

  /** The repository name is the common slug body of the id. */
  lemma RepoSlugIsSlugBody(equationId: string)
    ensures RepoSlug(equationId) == Slugs.SlugBody(equationId)
  {
    CollapseDashInvalid(Lower(equationId), false);
  }

  /** Only [a-z0-9-], no "--", no '-' at either end, and no longer than the id. */
  lemma RepoSlugShape(equationId: string)
    ensures Slugs.IsSlugBody(RepoSlug(equationId))
    ensures |RepoSlug(equationId)| <= |equationId|
  {
    RepoSlugIsSlugBody(equationId);
  }

  /** Slugging a repository name again gives the same name. */
  lemma RepoSlugIdempotent(equationId: string)
    ensures RepoSlug(RepoSlug(equationId)) == RepoSlug(equationId)
  {
    RepoSlugIsSlugBody(equationId);
    RepoSlugIsSlugBody(RepoSlug(equationId));
    Slugs.SlugBodyIdempotent(equationId);
  }

  // ---------------------------------------------------------------------
  // Extensions

  const AllowedFolders: set<string> := {"images", "derivations", "simulations", "data", "notes", "docs"}

  /** Text and documentation. */
  const TextDocExtensions: set<string> := {
    ".md", ".txt", ".tex", ".bib", ".rst", ".csv", ".tsv", ".json", ".yaml", ".yml",
    ".toml", ".xml", ".html", ".css"}

  /** Source code. */
  const CodeExtensions: set<string> := {
    ".py", ".jl", ".m", ".r", ".ipynb", ".nb", ".wl",
    ".c", ".cpp", ".h", ".hpp", ".f90", ".f",
    ".js", ".ts", ".sh", ".ps1"}

  /** Images. */
  const ImageExtensions: set<string> := {
    ".png", ".jpg", ".jpeg", ".gif", ".svg", ".webp", ".bmp", ".tiff", ".tif"}

  /** Data. */
  const DataExtensions: set<string> := {
    ".hdf5", ".h5", ".npy", ".npz", ".parquet", ".feather", ".arrow",
    ".fits", ".nc", ".mat"}

  /** Documents. */
  const DocumentExtensions: set<string> := {
    ".pdf", ".docx", ".pptx", ".xlsx"}

  /** The allowlist: every group above. */
  const AllowedExtensions: set<string> :=
    TextDocExtensions + CodeExtensions + ImageExtensions + DataExtensions + DocumentExtensions

  /** The extensions whose content is read and moderated as text, listed separately from the allowlist. */
  const TextExtensions: set<string> := {
    ".md", ".txt", ".tex", ".bib", ".rst", ".csv", ".tsv", ".json", ".yaml", ".yml",
    ".toml", ".xml", ".html", ".css",
    ".py", ".jl", ".m", ".r", ".ipynb", ".nb", ".wl",
    ".c", ".cpp", ".h", ".hpp", ".f90", ".f",
    ".js", ".ts", ".sh", ".ps1"}

  const ExecutablePatterns: seq<string> := [".exe", ".bat", ".cmd", ".msi"]
  const LibraryPatterns: seq<string> := [".dll", ".so", ".dylib"]
  const ArchivePatterns: seq<string> := [".zip", ".tar", ".gz", ".rar", ".7z"]
  const PackagePatterns: seq<string> := [".jar", ".war", ".apk", ".deb", ".rpm"]

  /** The banned name patterns, each an anchored, case-insensitive extension: the literal text before the '$'. */
  const BannedPatterns: seq<string> := ExecutablePatterns + LibraryPatterns + ArchivePatterns + PackagePatterns

  /** Every text extension is an allowed extension. */
  lemma TextExtensionsAllowed()
    ensures TextExtensions <= AllowedExtensions
  {
  }

  /** What each banned pattern looks like: one '.', at its start, and not an allowed extension. */
  predicate BannedShape(pat: string) {
    && |pat| >= 2 && pat[0] == '.'
    && (forall k :: 1 <= k < |pat| ==> pat[k] != '.')
    && pat !in AllowedExtensions
  }

  lemma BannedPatternsDotted()
    ensures forall i :: 0 <= i < |BannedPatterns| ==> |BannedPatterns[i]| >= 2 && BannedPatterns[i][0] == '.'
    ensures forall i, k :: 0 <= i < |BannedPatterns| && 1 <= k < |BannedPatterns[i]| ==> BannedPatterns[i][k] != '.'
  {
  }

  /**
   * Length, second and last character. Comparing these is enough to tell
   * every banned pattern from every allowed extension, and much cheaper for
   * the verifier than comparing whole strings.
   */
  datatype Fingerprint = Fingerprint(len: nat, second: char, last: char)

  function FingerprintOf(e: string): Fingerprint
    requires |e| >= 2
  {
    Fingerprint(|e|, e[1], e[|e| - 1])
  }

  const BannedFingerprints: set<Fingerprint> := {
    Fingerprint(4, 'e', 'e'),
    Fingerprint(4, 'b', 't'),
    Fingerprint(4, 'c', 'd'),
    Fingerprint(4, 'm', 'i'),
    Fingerprint(4, 'd', 'l'),
    Fingerprint(3, 's', 'o'),
    Fingerprint(6, 'd', 'b'),
    Fingerprint(4, 'z', 'p'),
    Fingerprint(4, 't', 'r'),
    Fingerprint(3, 'g', 'z'),
    Fingerprint(4, 'r', 'r'),
    Fingerprint(3, '7', 'z'),
    Fingerprint(4, 'j', 'r'),
    Fingerprint(4, 'w', 'r'),
    Fingerprint(4, 'a', 'k'),
    Fingerprint(4, 'd', 'b'),
    Fingerprint(4, 'r', 'm')}

  /** An extension no banned pattern can equal, and that does not end with a newline. */
  predicate Distinguished(e: string) {
    |e| >= 2 && e[|e| - 1] != '\n' && FingerprintOf(e) !in BannedFingerprints
  }

  lemma TextDocDistinguished()
    ensures forall e :: e in TextDocExtensions ==> Distinguished(e)
  {
  }

  lemma CodeDistinguished()
    ensures forall e :: e in CodeExtensions ==> Distinguished(e)
  {
  }

  lemma ImageDistinguished()
    ensures forall e :: e in ImageExtensions ==> Distinguished(e)
  {
  }

  lemma DataDistinguished()
    ensures forall e :: e in DataExtensions ==> Distinguished(e)
  {
  }

  lemma DocumentDistinguished()
    ensures forall e :: e in DocumentExtensions ==> Distinguished(e)
  {
  }

  lemma AllowedDistinguished(e: string)
    requires e in AllowedExtensions
    ensures Distinguished(e)
  {
    TextDocDistinguished();
    CodeDistinguished();
    ImageDistinguished();
    DataDistinguished();
    DocumentDistinguished();
  }

  lemma BannedFingerprinted()
    ensures forall i :: 0 <= i < |BannedPatterns| ==>
      |BannedPatterns[i]| >= 2 && FingerprintOf(BannedPatterns[i]) in BannedFingerprints
  {
  }

  lemma BannedPatternsShape()
    ensures forall i :: 0 <= i < |BannedPatterns| ==> BannedShape(BannedPatterns[i])
  {
    BannedPatternsDotted();
    BannedFingerprinted();
    forall i | 0 <= i < |BannedPatterns| ensures BannedPatterns[i] !in AllowedExtensions {
      if BannedPatterns[i] in AllowedExtensions {
        AllowedDistinguished(BannedPatterns[i]);
      }
    }
  }

  /** The index of the last '.', or -1 when there is none. */
  function LastDot(s: string): (i: int)
    ensures -1 <= i < |s|
    ensures i >= 0 ==> s[i] == '.'
    ensures forall k :: i < k < |s| ==> s[k] != '.'
  {
    if s == [] then -1
    else if s[|s| - 1] == '.' then |s| - 1
    else LastDot(s[..|s| - 1])
  }

  /** A name's suffix: from its last '.' on, unless that dot starts or ends the name. */
  function Suffix(name: string): (ext: string)
    ensures ext == [] || (|ext| >= 2 && ext[0] == '.' && EndsWith(name, ext))
    ensures forall k :: 1 <= k < |ext| ==> ext[k] != '.'
  {
    var i := LastDot(name);
    if 0 < i < |name| - 1 then name[i..] else []
  }

  /**
   * A banned pattern matches the name, ignoring case: the name ends with
   * the pattern's text, or with it followed by one final newline (where
   * '$' also matches).
   */
  predicate MatchesBanned(name: string, pat: string) {
    EndsWith(Lower(name), pat) || EndsWith(Lower(name), pat + "\n")
  }

  predicate AnyBanned(name: string) {
    exists i :: 0 <= i < |BannedPatterns| && MatchesBanned(name, BannedPatterns[i])
  }

  /** Why a file is refused before it is pushed. */
  datatype Block =
    | ExtensionNotAllowed(ext: string)
    | BannedFilename(name: string)
    | TooLarge(size: nat)
    | Unreadable
    | NoApiKey
    | ApiHttpError(code: int)
    | ApiUnreachable(reason: string)
    | NoResults
    | Flagged(filename: string, categories: seq<string>)

  /** The extension check: the allowlist first, then the banned patterns. */
  function CheckExtension(name: string): (err: Option<Block>)
    ensures err == None <==> Lower(Suffix(name)) in AllowedExtensions && !AnyBanned(name)
    ensures Lower(Suffix(name)) !in AllowedExtensions ==> err == Some(ExtensionNotAllowed(Lower(Suffix(name))))
  {
    var ext := Lower(Suffix(name));
    if ext !in AllowedExtensions then Some(ExtensionNotAllowed(ext))
    else if AnyBanned(name) then Some(BannedFilename(name))
    else None
  }

  /** Two endings of one text that each hold exactly one '.', at their start, are the same. */
  lemma SameDottedTail(s: string, a: string, b: string)
    requires EndsWith(s, a) && EndsWith(s, b) && |a| <= |b|
    requires a != [] && a[0] == '.'
    requires b != [] && b[0] == '.' && forall k :: 1 <= k < |b| ==> b[k] != '.'
    ensures a == b
  {
    var d := |b| - |a|;
    assert b[d] == s[|s| - |a|] == a[0];
  }

  lemma LowerKeepsDots(s: string)
    ensures forall k :: 0 <= k < |s| ==> (Lower(s)[k] == '.' <==> s[k] == '.')
  {
  }

  lemma LowerEndsWith(s: string, t: string)
    requires EndsWith(s, t)
    ensures EndsWith(Lower(s), Lower(t))
  {
    forall k | 0 <= k < |t| ensures Lower(s)[|s| - |t| + k] == Lower(t)[k] {
      assert s[|s| - |t|..][k] == t[k];
    }
    assert Lower(s)[|s| - |t|..] == Lower(t);
  }

  /** A pattern with one '.', at its start, matches only where the name's suffix is the pattern (or ends the line). */
  lemma BannedMatchIsSuffix(name: string, pat: string)
    requires |pat| >= 2 && pat[0] == '.' && forall k :: 1 <= k < |pat| ==> pat[k] != '.'
    requires MatchesBanned(name, pat)
    ensures var ext := Lower(Suffix(name));
      ext == [] || ext == pat || ext[|ext| - 1] == '\n'
  {
    var suffix := Suffix(name);
    var ext := Lower(suffix);
    if ext != [] {
      LowerEndsWith(name, suffix);
      LowerKeepsDots(suffix);
      if EndsWith(Lower(name), pat + "\n") {
        assert ext[|ext| - 1] == Lower(name)[|Lower(name)| - 1];
      } else if |pat| <= |ext| {
        SameDottedTail(Lower(name), pat, ext);
      } else {
        SameDottedTail(Lower(name), ext, pat);
      }
    }
  }

  /** No pattern of `pats` matches a name whose suffix is some other ordinary extension. */
  lemma {:induction false} NoPatternMatches(name: string, pats: seq<string>)
    requires forall i :: 0 <= i < |pats| ==>
      |pats[i]| >= 2 && pats[i][0] == '.' && (forall k :: 1 <= k < |pats[i]| ==> pats[i][k] != '.')
    requires forall i :: 0 <= i < |pats| ==> pats[i] != Lower(Suffix(name))
    requires Lower(Suffix(name)) != [] && Lower(Suffix(name))[|Lower(Suffix(name))| - 1] != '\n'
    ensures forall i :: 0 <= i < |pats| ==> !MatchesBanned(name, pats[i])
  {
    forall i | 0 <= i < |pats| ensures !MatchesBanned(name, pats[i]) {
      if MatchesBanned(name, pats[i]) {
        BannedMatchIsSuffix(name, pats[i]);
      }
    }
  }

  /**
   * Every banned pattern is an extension outside the allowlist, so the
   * banned-pattern loop never refuses a name the allowlist accepted.
   */
  lemma BannedNeverAfterAllowed(name: string)
    requires Lower(Suffix(name)) in AllowedExtensions
    ensures !AnyBanned(name)
  {
    var ext := Lower(Suffix(name));
    AllowedDistinguished(ext);
    BannedPatternsShape();
    assert forall i :: 0 <= i < |BannedPatterns| ==> BannedPatterns[i] != ext;
    NoPatternMatches(name, BannedPatterns);
  }

  /** The extension check accepts exactly the allowed extensions. */
  lemma CheckExtensionIsAllowlist(name: string)
    ensures CheckExtension(name) == None <==> Lower(Suffix(name)) in AllowedExtensions
  {
    if Lower(Suffix(name)) in AllowedExtensions {
      BannedNeverAfterAllowed(name);
    }
  }

  // ---------------------------------------------------------------------
  // Moderation

  /** One result of the moderation service: its flag and its category flags. */
  datatype ModResult = ModResult(flagged: bool, categories: seq<(string, bool)>)

  /** What the moderation request came back with. */
  datatype ApiReply =
    | HttpError(code: int)
    | Unreachable(reason: string)
    | Replied(results: seq<ModResult>)

  /** The most of a text that is sent for moderation. */
  const ModerationSample := 100000

  /** The largest file pushed: 50 MB. */
  const MaxSize := 50 * 1024 * 1024

  /** The names of the categories whose flag is set, in order. */
  function FlaggedCategories(cats: seq<(string, bool)>): (names: seq<string>)
    ensures |names| <= |cats|
    ensures forall n :: n in names ==> (n, true) in cats
  {
    if cats == [] then []
    else (if cats[0].1 then [cats[0].0] else []) + FlaggedCategories(cats[1..])
  }

  /**
   * Text moderation: no API key, an HTTP error, an unreachable service, no
   * results, or a flagged first result all block; `api` answers for the
   * first 100000 characters of the text.
   */
  function ModerateText(text: string, filename: string, apiKey: string, api: string -> ApiReply): Option<Block> {
    if apiKey == [] then Some(NoApiKey)
    else
      match api(Take(text, ModerationSample))
      case HttpError(code) => Some(ApiHttpError(code))
      case Unreachable(reason) => Some(ApiUnreachable(reason))
      case Replied(results) =>
        if results == [] then Some(NoResults)
        else if results[0].flagged then Some(Flagged(filename, FlaggedCategories(results[0].categories)))
        else None
  }

  /** The service's clean verdict on a text: a key, a reply, and an unflagged first result. */
  predicate CleanVerdict(text: string, apiKey: string, api: string -> ApiReply) {
    var reply := api(Take(text, ModerationSample));
    apiKey != [] && reply.Replied? && reply.results != [] && !reply.results[0].flagged
  }

  /** Moderation fails closed: it passes a text only on the service's clean verdict. */
  lemma ModerateTextFailsClosed(text: string, filename: string, apiKey: string, api: string -> ApiReply)
    ensures ModerateText(text, filename, apiKey, api) == None <==> CleanVerdict(text, apiKey, api)
  {
  }

  /** Only the sample is moderated: texts that agree on their first 100000 characters get the same verdict. */
  lemma ModerateTextSample(t1: string, t2: string, filename: string, apiKey: string, api: string -> ApiReply)
    requires Take(t1, ModerationSample) == Take(t2, ModerationSample)
    ensures ModerateText(t1, filename, apiKey, api) == ModerateText(t2, filename, apiKey, api)
  {
  }

  /**
   * All checks on a file, in order: extension, size, then moderation for
   * text extensions only. `text` is None when the file cannot be read.
   */
  function ModerateFile(name: string, size: nat, text: Option<string>, apiKey: string, api: string -> ApiReply): (err: Option<Block>)
    ensures CheckExtension(name).Some? ==> err == CheckExtension(name)
    ensures CheckExtension(name).None? && size > MaxSize ==> err == Some(TooLarge(size))
  {
    var extErr := CheckExtension(name);
    if extErr.Some? then extErr
    else if size > MaxSize then Some(TooLarge(size))
    else if Lower(Suffix(name)) in TextExtensions then
      if text.None? then Some(Unreadable) else ModerateText(text.value, name, apiKey, api)
    else None
  }

  /**
   * A file passes exactly when its extension is allowed, it is at most
   * 50 MB, and, for a text extension, it can be read and the service
   * gives its clean verdict.
   */
  lemma ModerateFilePasses(name: string, size: nat, text: Option<string>, apiKey: string, api: string -> ApiReply)
    ensures ModerateFile(name, size, text, apiKey, api) == None <==>
      && Lower(Suffix(name)) in AllowedExtensions
      && size <= MaxSize
      && (Lower(Suffix(name)) in TextExtensions ==> text.Some? && CleanVerdict(text.value, apiKey, api))
  {
    CheckExtensionIsAllowlist(name);
    if text.Some? {
      ModerateTextFailsClosed(text.value, name, apiKey, api);
    }
  }

  /** A file that is not text is never read nor sent for moderation. */
  lemma BinaryNotModerated(name: string, size: nat, t1: Option<string>, k1: string, a1: string -> ApiReply,
                           t2: Option<string>, k2: string, a2: string -> ApiReply)
    requires Lower(Suffix(name)) !in TextExtensions
    ensures ModerateFile(name, size, t1, k1, a1) == ModerateFile(name, size, t2, k2, a2)
  {
  }

  // ---------------------------------------------------------------------
  // Pushing

  /** How far a push got: the first failed check, the dry run, or the clone. */
  datatype PushStage =
    | EquationNotFound
    | NoRepo(repo: string)
    | BadFolder(folder: string)
    | NoFile
    | Blocked(reason: Block)
    | DryRun(repo: string)
    | Cloning(repo: string)

  /**
   * The checks before a push, in the order push_file makes them: the equation exists,
   * its repository exists, the folder is allowed, the file exists, and the
   * file passes moderation; a dry run stops there, otherwise the
   * repository is cloned. Lookup, existence tests and moderation are inputs.
   */
  function PushFile(found: bool, equationId: string, repoExists: string -> bool, folder: string,
                    isFile: bool, moderation: Option<Block>, dryRun: bool): (stage: PushStage)
    ensures stage.Cloning? <==>
      found && repoExists(RepoSlug(equationId)) && folder in AllowedFolders && isFile && moderation == None && !dryRun
  {
    var repo := RepoSlug(equationId);
    if !found then EquationNotFound
    else if !repoExists(repo) then NoRepo(repo)
    else if folder !in AllowedFolders then BadFolder(folder)
    else if !isFile then NoFile
    else if moderation.Some? then Blocked(moderation.value)
    else if dryRun then DryRun(repo)
    else Cloning(repo)
  }

  /** A folder outside the allowed six stops the push before the file is moderated or anything is cloned. */
  lemma BadFolderNeverCloned(found: bool, equationId: string, repoExists: string -> bool, folder: string,
                             isFile: bool, moderation: Option<Block>, dryRun: bool)
    requires folder !in AllowedFolders
    ensures var stage := PushFile(found, equationId, repoExists, folder, isFile, moderation, dryRun);
      stage == EquationNotFound || stage.NoRepo? || stage == BadFolder(folder)
  {
  }
}
