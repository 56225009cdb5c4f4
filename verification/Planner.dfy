/** The full-plan planner: one action per release path, the derived payload, and what a
    payload means as a change of the repository tree. */
module Planner {
  import opened Common
  import opened Policy

  datatype Mode = BootstrapEmpty | BootstrapChild | AdoptExisting | RepairPartial | UpgradeActive

  datatype Classification =
    CanonicalSource | ActiveProject | UninitializedChild | NotAnpos | PartialOrMalformed | EmptyRepository

  datatype ActionKind =
    | Unchanged | AddFromRelease | ReplaceFromRelease | BootstrapTransform
    | ManualMerge | PreserveProjectState | MigrationReview

  datatype Implementation =
    SandboxFullPlanV1 | GuardedEmptyRepositoryV1 | ConflictResolutionRequired | NoChanges

  /** One blob of a repository tree, and a tree as the paths it holds. */
  datatype Entry = Entry(mode: string, blob: string)
  type Tree = map<string, Entry>
  datatype ListedEntry = ListedEntry(path: string, entry: Entry)

  datatype ReleaseFile =
    ReleaseFile(path: string, gitObject: Option<string>, sha256: string, mode: string, size: nat)

  datatype ReleaseIdentity = ReleaseIdentity(
    repository: string, releaseRef: string, sourceRevision: string, sourceTree: string,
    fileCount: nat, totalBytes: nat)

  datatype Target = Target(
    repositoryId: string, fullName: string, defaultBranch: string, headSha: Option<string>,
    classification: Classification, protocolVersion: Option<string>)

  datatype BootstrapContext = BootstrapContext(
    projectName: string, githubOwner: string, securityCapability: string, instanceId: string, initializedAt: string)

  datatype PlannerAction = PlannerAction(
    path: string, kind: ActionKind, releaseObject: string, releaseSha256: string, releaseMode: string,
    releaseBytes: nat, targetObject: Option<string>, targetMode: Option<string>, confirmationRequired: bool)
  {
    predicate IsWrite() {
      kind.AddFromRelease? || kind.ReplaceFromRelease? || kind.BootstrapTransform?
    }

    predicate IsBlocker() {
      kind.ManualMerge? || kind.MigrationReview?
    }
  }

  datatype Counts = Counts(
    same: nat, add: nat, replace: nat, transform: nat, merge: nat, preserve: nat, review: nat)
  {
    function Writes(): nat { add + replace + transform }
    function Blockers(): nat { merge + review }
    function Total(): nat { same + Writes() + Blockers() + preserve }
  }

  datatype Summary = Summary(
    totalReleaseFiles: nat, counts: Counts, targetOnlyPreserved: nat, targetOnlyDigest: string)

  datatype Choice = KeepTarget | UseRelease
  datatype Decision = Decision(path: string, choice: Choice, expectedTarget: Option<string>, acknowledged: bool)
  datatype Resolution = Resolution(
    sourcePlanId: string, sourcePlanHash: string, resolvedBy: string, decisions: seq<Decision>)

  datatype Payload = Payload(
    mode: Mode, release: ReleaseIdentity, target: Target, context: Option<BootstrapContext>,
    actions: seq<PlannerAction>, summary: Summary, aiReverificationRequired: bool,
    resolution: Option<Resolution>, conflictFree: bool, safeToApply: bool, implementation: Implementation)

  datatype PlanError =
    | CanonicalSourcePlanningForbidden | ModeClassificationMismatch | ProtocolIdentityInvalid | ReleaseFileCountInvalid
    | ReleaseGitObjectRequired | ContextInvalid

  /** The planner's input. `sourceProtocol` is the version the service was packaged with; `context` is the validated bootstrap context, or the error its
      validation raises. */
  datatype PlanInput = PlanInput(
    mode: Mode, target: Target, sourceProtocol: string, release: ReleaseIdentity, files: seq<ReleaseFile>,
    targetTree: seq<ListedEntry>, context: Result<BootstrapContext, PlanError>)

  const MAX_RELEASE_FILES := 5000
  const SOURCE_PROTOCOL := "1.4.0"

  function ClassificationOf(mode: Mode): Classification {
    match mode
    case BootstrapEmpty => EmptyRepository
    case BootstrapChild => UninitializedChild
    case AdoptExisting => NotAnpos
    case RepairPartial => PartialOrMalformed
    case UpgradeActive => ActiveProject
  }

  predicate NeedsContext(mode: Mode) {
    mode.BootstrapEmpty? || mode.BootstrapChild? || mode.AdoptExisting?
  }

  function At(tree: Tree, path: string): Option<Entry> {
    if path in tree then Some(tree[path]) else None
  }

  /** The map a listing denotes; a repeated path keeps its last entry. */
  function TreeOf(listing: seq<ListedEntry>): Tree {
    if listing == [] then map[]
    else
      var last := listing[|listing| - 1];
      TreeOf(listing[..|listing| - 1])[last.path := last.entry]
  }

  function ActionFor(policy: PathPolicy, mode: Mode, path: string, releaseObject: string, target: Option<Entry>): ActionKind
  {
    var same := target.Some? && target.value.blob == releaseObject;
    match mode
    case BootstrapEmpty =>
      if policy.IsBootstrapTransform(path) then BootstrapTransform else AddFromRelease
    case BootstrapChild =>
      if policy.IsBootstrapTransform(path) then BootstrapTransform
      else if same then Unchanged
      else if target.None? then AddFromRelease
      else if policy.IsSharedMerge(path) then ManualMerge
      else ReplaceFromRelease
    case AdoptExisting =>
      if policy.IsBootstrapTransform(path) then
        if target.None? || same then BootstrapTransform else ManualMerge
      else if same then Unchanged
      else if target.None? then AddFromRelease
      else ManualMerge
    case RepairPartial =>
      if same then Unchanged
      else if path in policy.preserve then
        if target.None? then MigrationReview else PreserveProjectState
      else if target.Some? && policy.IsSharedMerge(path) then ManualMerge
      else if target.None? then AddFromRelease
      else ReplaceFromRelease
    case UpgradeActive =>
      if same then Unchanged
      else if path in policy.preserve then MigrationReview
      else if target.Some? && policy.IsSharedMerge(path) then ManualMerge
      else if target.None? then AddFromRelease
      else ReplaceFromRelease
  }

  function ActionRow(policy: PathPolicy, mode: Mode, file: ReleaseFile, tree: Tree): PlannerAction
    requires file.gitObject.Some?
  {
    var target := At(tree, file.path);
    var kind := ActionFor(policy, mode, file.path, file.gitObject.value, target);
    PlannerAction(
      file.path, kind, file.gitObject.value, file.sha256, file.mode, file.size,
      if target.Some? then Some(target.value.blob) else None,
      if target.Some? then Some(target.value.mode) else None,
      kind.ManualMerge? || kind.MigrationReview?)
  }

  predicate AllIdentified(files: seq<ReleaseFile>) {
    forall i :: 0 <= i < |files| ==> files[i].gitObject.Some? && IsHex(files[i].gitObject.value, 40)
  }

  function Rows(policy: PathPolicy, mode: Mode, files: seq<ReleaseFile>, tree: Tree): seq<PlannerAction>
    requires AllIdentified(files)
  {
    seq(|files|, i requires 0 <= i < |files| => ActionRow(policy, mode, files[i], tree))
  }

  function Bump(c: Counts, kind: ActionKind): Counts {
    match kind
    case Unchanged => c.(same := c.same + 1)
    case AddFromRelease => c.(add := c.add + 1)
    case ReplaceFromRelease => c.(replace := c.replace + 1)
    case BootstrapTransform => c.(transform := c.transform + 1)
    case ManualMerge => c.(merge := c.merge + 1)
    case PreserveProjectState => c.(preserve := c.preserve + 1)
    case MigrationReview => c.(review := c.review + 1)
  }

  const ZERO_COUNTS := Counts(0, 0, 0, 0, 0, 0, 0)

  function Tally(actions: seq<PlannerAction>): Counts {
    if actions == [] then ZERO_COUNTS
    else Bump(Tally(actions[..|actions| - 1]), actions[|actions| - 1].kind)
  }

  function PathsOf(files: seq<ReleaseFile>): set<string> {
    set i | 0 <= i < |files| :: files[i].path
  }

  /** The target entries at no release path, in listing order. */
  function TargetOnly(listing: seq<ListedEntry>, releasePaths: set<string>): seq<ListedEntry> {
    if listing == [] then []
    else
      var last := listing[|listing| - 1];
      TargetOnly(listing[..|listing| - 1], releasePaths) + (if last.path in releasePaths then [] else [last])
  }

  function TargetOnlyText(entries: seq<ListedEntry>): string {
    if entries == [] then ""
    else
      var last := entries[|entries| - 1];
      var line := last.path + "\0" + last.entry.mode + "\0" + last.entry.blob;
      if |entries| == 1 then line else TargetOnlyText(entries[..|entries| - 1]) + "\n" + line
  }

  predicate AiDrift(actions: seq<PlannerAction>) {
    exists i :: 0 <= i < |actions| && !actions[i].kind.Unchanged? && IsMaterialAiPath(actions[i].path)
  }

  function ImplementationOf(mode: Mode, counts: Counts): Implementation {
    if mode.BootstrapEmpty? then GuardedEmptyRepositoryV1
    else if counts.merge > 0 || counts.review > 0 then ConflictResolutionRequired
    else if counts.Writes() == 0 then NoChanges
    else SandboxFullPlanV1
  }

  /** The payload expression over what the passes found. */
  function Assemble(input: PlanInput, actions: seq<PlannerAction>, aiDrift: bool, targetOnly: seq<ListedEntry>,
                    counts: Counts, hash: string -> string): Payload
    requires NeedsContext(input.mode) ==> input.context.Ok?
  {
    Payload(
      input.mode, input.release, input.target,
      if NeedsContext(input.mode) then Some(input.context.value) else None,
      actions,
      Summary(input.release.fileCount, counts, |targetOnly|, hash(TargetOnlyText(targetOnly))),
      aiDrift && (input.mode.RepairPartial? || input.mode.UpgradeActive?),
      None,
      counts.merge == 0 && counts.review == 0,
      counts.merge == 0 && counts.review == 0 && counts.add + counts.replace + counts.transform > 0,
      ImplementationOf(input.mode, counts))
  }

  /** The payload `BuildFullPlannerPayload` computes, or the error it raises. */
  function PlanPayload(policy: PathPolicy, input: PlanInput, hash: string -> string): Result<Payload, PlanError> {
    if input.target.classification.CanonicalSource? then Err(CanonicalSourcePlanningForbidden)
    else if input.target.classification != ClassificationOf(input.mode) then Err(ModeClassificationMismatch)
    else if input.sourceProtocol != SOURCE_PROTOCOL then Err(ProtocolIdentityInvalid)
    else if input.release.fileCount != |input.files| || !(1 <= |input.files| <= MAX_RELEASE_FILES) then
      Err(ReleaseFileCountInvalid)
    else if !AllIdentified(input.files) then Err(ReleaseGitObjectRequired)
    else if NeedsContext(input.mode) && input.context.Err? then Err(input.context.error)
    else
      var actions := Rows(policy, input.mode, input.files, TreeOf(input.targetTree));
      Ok(Assemble(input, actions, AiDrift(actions), TargetOnly(input.targetTree, PathsOf(input.files)),
                  Tally(actions), hash))
  }

  method ScanTarget(listing: seq<ListedEntry>, releasePaths: set<string>)
    returns (targetByPath: Tree, targetOnly: seq<ListedEntry>)
    ensures targetByPath == TreeOf(listing)
    ensures targetOnly == TargetOnly(listing, releasePaths)
  {
    targetByPath, targetOnly := map[], [];
    for i := 0 to |listing|
      invariant targetByPath == TreeOf(listing[..i])
      invariant targetOnly == TargetOnly(listing[..i], releasePaths)
    {
      var row := listing[i];
      assert listing[..i + 1][..i] == listing[..i];
      targetByPath := targetByPath[row.path := row.entry];
      if row.path !in releasePaths { targetOnly := targetOnly + [row]; }
    }
    assert listing[..|listing|] == listing;
  }

  method BuildActions(policy: PathPolicy, mode: Mode, files: seq<ReleaseFile>, tree: Tree)
    returns (r: Option<seq<PlannerAction>>, aiDrift: bool)
    ensures r.Some? <==> AllIdentified(files)
    ensures r.Some? ==> r.value == Rows(policy, mode, files, tree) && aiDrift == AiDrift(r.value)
  {
    hide IsHex;
    var actions: seq<PlannerAction> := [];
    aiDrift := false;
    for i := 0 to |files|
      invariant |actions| == i && AllIdentified(files[..i])
      invariant forall k :: 0 <= k < i ==> actions[k] == ActionRow(policy, mode, files[k], tree)
      invariant aiDrift == AiDrift(actions)
    {
      var file := files[i];
      if file.gitObject.None? || !IsHex(file.gitObject.value, 40) { return None, aiDrift; }
      var action := ActionRow(policy, mode, file, tree);
      ghost var before := actions;
      actions := actions + [action];
      assert AiDrift(before) ==> AiDrift(actions) by {
        if AiDrift(before) {
          var k :| 0 <= k < |before| && !before[k].kind.Unchanged? && IsMaterialAiPath(before[k].path);
          assert actions[k] == before[k];
        }
      }
      if !action.kind.Unchanged? && IsMaterialAiPath(file.path) {
        assert actions[i] == action;
        aiDrift := true;
      }
    }
    assert actions == Rows(policy, mode, files, tree);
    r := Some(actions);
  }

  method CountActions(actions: seq<PlannerAction>) returns (counts: Counts)
    ensures counts == Tally(actions)
  {
    counts := ZERO_COUNTS;
    for i := 0 to |actions|
      invariant counts == Tally(actions[..i])
    {
      assert actions[..i + 1][..i] == actions[..i];
      counts := Bump(counts, actions[i].kind);
    }
    assert actions[..|actions|] == actions;
  }

  /** Builds the payload in passes over the target tree, the release files and the actions. */
  method BuildFullPlannerPayload(policy: PathPolicy, input: PlanInput, hash: string -> string)
    returns (r: Result<Payload, PlanError>)
    ensures r == PlanPayload(policy, input, hash)
  {
    if input.target.classification == CanonicalSource { return Err(CanonicalSourcePlanningForbidden); }
    if input.target.classification != ClassificationOf(input.mode) { return Err(ModeClassificationMismatch); }
    if input.sourceProtocol != SOURCE_PROTOCOL { return Err(ProtocolIdentityInvalid); }
    if input.release.fileCount != |input.files|
      || input.release.fileCount < 1 || input.release.fileCount > MAX_RELEASE_FILES {
      return Err(ReleaseFileCountInvalid);
    }
    var targetByPath, targetOnly := ScanTarget(input.targetTree, PathsOf(input.files));
    var built, aiDrift := BuildActions(policy, input.mode, input.files, targetByPath);
    if built.None? { return Err(ReleaseGitObjectRequired); }
    var actions := built.value;
    var counts := CountActions(actions);
    if NeedsContext(input.mode) && input.context.Err? { return Err(input.context.error); }
    r := Ok(Assemble(input, actions, aiDrift, targetOnly, counts, hash));
  }

  // ---- Counting ----

  function Occurrences(actions: seq<PlannerAction>, kind: ActionKind): set<nat> {
    set i: nat | i < |actions| && actions[i].kind == kind
  }

  function CountOf(c: Counts, kind: ActionKind): nat {
    match kind
    case Unchanged => c.same
    case AddFromRelease => c.add
    case ReplaceFromRelease => c.replace
    case BootstrapTransform => c.transform
    case ManualMerge => c.merge
    case PreserveProjectState => c.preserve
    case MigrationReview => c.review
  }

  lemma OccurrencesStep(actions: seq<PlannerAction>, kind: ActionKind)
    requires actions != []
    ensures var n := |actions| - 1;
      n !in Occurrences(actions[..n], kind) &&
      Occurrences(actions, kind) == Occurrences(actions[..n], kind) + (if actions[n].kind == kind then {n} else {})
  {
    var n := |actions| - 1;
    forall i: nat | i < n ensures i in Occurrences(actions, kind) <==> i in Occurrences(actions[..n], kind) {
      assert actions[..n][i] == actions[i];
    }
  }

  lemma BumpCounts(c: Counts, bumped: ActionKind, kind: ActionKind)
    ensures CountOf(Bump(c, bumped), kind) == CountOf(c, kind) + (if bumped == kind then 1 else 0)
  {
  }

  lemma {:induction false} TallyCounts(actions: seq<PlannerAction>, kind: ActionKind)
    ensures CountOf(Tally(actions), kind) == |Occurrences(actions, kind)|
  {
    if actions == [] {
      assert Occurrences(actions, kind) == {};
    } else {
      var n := |actions| - 1;
      hide Occurrences;
      hide CountOf;
      hide Bump;
      TallyCounts(actions[..n], kind);
      OccurrencesStep(actions, kind);
      BumpCounts(Tally(actions[..n]), actions[n].kind, kind);
    }
  }

  lemma BumpTotal(c: Counts, kind: ActionKind)
    ensures Bump(c, kind).Total() == c.Total() + 1
  {
  }

  lemma {:induction false} TallyTotal(actions: seq<PlannerAction>)
    ensures Tally(actions).Total() == |actions|
  {
    if actions != [] {
      TallyTotal(actions[..|actions| - 1]);
      BumpTotal(Tally(actions[..|actions| - 1]), actions[|actions| - 1].kind);
    }
  }

  lemma CountZero(actions: seq<PlannerAction>, kind: ActionKind)
    ensures CountOf(Tally(actions), kind) == 0 <==> forall i :: 0 <= i < |actions| ==> actions[i].kind != kind
  {
    TallyCounts(actions, kind);
    if CountOf(Tally(actions), kind) == 0 {
      forall i | 0 <= i < |actions| ensures actions[i].kind != kind {
        assert i !in Occurrences(actions, kind);
      }
    } else {
      var i :| i in Occurrences(actions, kind);
    }
  }

  predicate NoBlockers(actions: seq<PlannerAction>) {
    forall i :: 0 <= i < |actions| ==> !actions[i].IsBlocker()
  }

  predicate NoWrites(actions: seq<PlannerAction>) {
    forall i :: 0 <= i < |actions| ==> !actions[i].IsWrite()
  }

  lemma TallyVerdict(actions: seq<PlannerAction>)
    ensures Tally(actions).merge == 0 && Tally(actions).review == 0 <==> NoBlockers(actions)
    ensures Tally(actions).Writes() == 0 <==> NoWrites(actions)
  {
    CountZero(actions, ManualMerge);
    CountZero(actions, MigrationReview);
    CountZero(actions, AddFromRelease);
    CountZero(actions, ReplaceFromRelease);
    CountZero(actions, BootstrapTransform);
  }

  /** A plan is conflict free exactly when no action blocks, safe exactly when it also writes,
      and asks for confirmation exactly at its blockers; the counts sum to the release size. Which way it is to
      be applied follows from that and the mode, and AI must be verified again exactly when a repair or upgrade
      changes AI material. */
  lemma VerdictMeaning(policy: PathPolicy, input: PlanInput, hash: string -> string, p: Payload)
    requires PlanPayload(policy, input, hash) == Ok(p)
    ensures p.summary.counts.Total() == p.release.fileCount == |p.actions|
    ensures p.conflictFree <==> NoBlockers(p.actions)
    ensures p.safeToApply <==> NoBlockers(p.actions) && !NoWrites(p.actions)
    ensures forall i :: 0 <= i < |p.actions| ==> (p.actions[i].confirmationRequired <==> p.actions[i].IsBlocker())
    ensures p.implementation.GuardedEmptyRepositoryV1? <==> p.mode.BootstrapEmpty?
    ensures p.implementation.ConflictResolutionRequired? <==> !p.mode.BootstrapEmpty? && !p.conflictFree
    ensures p.implementation.NoChanges? <==> !p.mode.BootstrapEmpty? && p.conflictFree && NoWrites(p.actions)
    ensures p.implementation.SandboxFullPlanV1? <==> !p.mode.BootstrapEmpty? && p.safeToApply
    ensures p.aiReverificationRequired <==>
      (p.mode.RepairPartial? || p.mode.UpgradeActive?) &&
      exists i :: 0 <= i < |p.actions| && !p.actions[i].kind.Unchanged? && IsMaterialAiPath(p.actions[i].path)
    ensures p.mode == input.mode && p.release == input.release && p.target == input.target && p.resolution.None?
    ensures match p.mode
      case BootstrapEmpty => p.target.classification.EmptyRepository?
      case BootstrapChild => p.target.classification.UninitializedChild?
      case AdoptExisting => p.target.classification.NotAnpos?
      case RepairPartial => p.target.classification.PartialOrMalformed?
      case UpgradeActive => p.target.classification.ActiveProject?
    ensures p.context.Some? <==> p.mode.BootstrapEmpty? || p.mode.BootstrapChild? || p.mode.AdoptExisting?
  {
    TallyTotal(p.actions);
    TallyVerdict(p.actions);
  }

  // ---- The target-only digest ----

  /** One line of the hashed text, read back. */
  function EntryOfLine(line: string): Option<ListedEntry> {
    var fields := SplitOn(line, '\0');
    if |fields| == 3 then Some(ListedEntry(fields[0], Entry(fields[1], fields[2]))) else None
  }

  /** No separator of the text occurs in the entry. */
  predicate Plain(e: ListedEntry) {
    PlainText(e.path) && PlainText(e.entry.mode) && PlainText(e.entry.blob)
  }

  predicate PlainText(s: string) {
    '\0' !in s && '\n' !in s
  }

  predicate AllPlain(entries: seq<ListedEntry>) {
    forall i :: 0 <= i < |entries| ==> Plain(entries[i])
  }

  function LineOf(e: ListedEntry): string {
    e.path + "\0" + e.entry.mode + "\0" + e.entry.blob
  }

  lemma LineReadsBack(e: ListedEntry)
    requires Plain(e)
    ensures EntryOfLine(LineOf(e)) == Some(e) && '\n' !in LineOf(e) && LineOf(e) != ""
  {
    SplitWhole(e.path, '\0');
    SplitWhole(e.entry.mode, '\0');
    SplitWhole(e.entry.blob, '\0');
    SplitConcat(e.path, e.entry.mode, '\0');
    SplitConcat(e.path + "\0" + e.entry.mode, e.entry.blob, '\0');
    assert LineOf(e) == (e.path + "\0" + e.entry.mode) + ['\0'] + e.entry.blob;
  }

  /** The text has one line an entry, in order, and each line is its entry's path, mode and object. */
  lemma {:induction false} TextReadsBack(entries: seq<ListedEntry>)
    requires entries != [] && AllPlain(entries)
    ensures var lines := SplitOn(TargetOnlyText(entries), '\n');
      |lines| == |entries| && forall i :: 0 <= i < |entries| ==> EntryOfLine(lines[i]) == Some(entries[i])
  {
    hide EntryOfLine;
    hide Plain;
    var n := |entries| - 1;
    assert Plain(entries[n]);
    TextStep(entries);
    hide TargetOnlyText;
    LineReadsBack(entries[n]);
    hide LineOf;
    SplitWhole(LineOf(entries[n]), '\n');
    if n > 0 {
      TextReadsBack(entries[..n]);
      SplitConcat(TargetOnlyText(entries[..n]), LineOf(entries[n]), '\n');
    }
    hide SplitOn;
  }

  lemma TextStep(entries: seq<ListedEntry>)
    requires entries != []
    ensures var n := |entries| - 1;
      TargetOnlyText(entries) == if n == 0 then LineOf(entries[0]) else TargetOnlyText(entries[..n]) + ['\n'] + LineOf(entries[n])
  {
    assert "\n" == ['\n'];
  }

  /** Equal texts, and so with a collision-free digest equal digests, mean the same files outside the release. */
  lemma TargetOnlyTextBinds(a: seq<ListedEntry>, b: seq<ListedEntry>)
    requires AllPlain(a) && AllPlain(b)
    ensures TargetOnlyText(a) == TargetOnlyText(b) <==> a == b
  {
    if a != [] { TextReadsBack(a); TextNotEmpty(a); }
    if b != [] { TextReadsBack(b); TextNotEmpty(b); }
    hide TargetOnlyText;
    hide EntryOfLine;
    if TargetOnlyText(a) == TargetOnlyText(b) && a != [] && b != [] {
      var lines := SplitOn(TargetOnlyText(a), '\n');
      assert forall i :: 0 <= i < |a| ==> EntryOfLine(lines[i]) == Some(a[i]) == Some(b[i]);
    }
    if TargetOnlyText(a) == TargetOnlyText(b) { TextOfNothing(); }
  }

  lemma TextOfNothing()
    ensures TargetOnlyText([]) == ""
  {
  }

  lemma TextNotEmpty(entries: seq<ListedEntry>)
    requires entries != []
    ensures TargetOnlyText(entries) != ""
  {
    var last := entries[|entries| - 1];
    assert (last.path + "\0" + last.entry.mode + "\0" + last.entry.blob)[|last.path|] == '\0';
  }

  /** The entries outside the release, counted by their places in the listing. */
  function PlacesOutside(listing: seq<ListedEntry>, releasePaths: set<string>): set<nat> {
    set i: nat | i < |listing| && listing[i].path !in releasePaths
  }

  lemma {:induction false} TargetOnlyCount(listing: seq<ListedEntry>, releasePaths: set<string>)
    ensures |TargetOnly(listing, releasePaths)| == |PlacesOutside(listing, releasePaths)|
  {
    if listing == [] {
      assert PlacesOutside(listing, releasePaths) == {};
    } else {
      var n := |listing| - 1;
      TargetOnlyCount(listing[..n], releasePaths);
      PlacesStep(listing, releasePaths);
      hide PlacesOutside;
    }
  }

  lemma PlacesStep(listing: seq<ListedEntry>, releasePaths: set<string>)
    requires listing != []
    ensures var n := |listing| - 1;
      var front := PlacesOutside(listing[..n], releasePaths);
      n !in front && PlacesOutside(listing, releasePaths) == front + (if listing[n].path in releasePaths then {} else {n})
  {
    var n := |listing| - 1;
    var front := PlacesOutside(listing[..n], releasePaths);
    forall i: nat | i < n ensures i in front <==> i in PlacesOutside(listing, releasePaths) {
      assert listing[..n][i] == listing[i];
    }
  }

  /** What the plan says of the files outside the release: how many there are, and a digest that tells any two
      such sets of files apart as far as the hash does. */
  lemma TargetOnlySummary(policy: PathPolicy, input: PlanInput, other: PlanInput, hash: string -> string, p: Payload, q: Payload)
    requires PlanPayload(policy, input, hash) == Ok(p) && PlanPayload(policy, other, hash) == Ok(q)
    requires forall a, b :: hash(a) == hash(b) ==> a == b
    requires forall i :: 0 <= i < |input.targetTree| ==> Plain(input.targetTree[i])
    requires forall i :: 0 <= i < |other.targetTree| ==> Plain(other.targetTree[i])
    ensures p.summary.targetOnlyPreserved == |PlacesOutside(input.targetTree, PathsOf(input.files))|
    ensures p.summary.totalReleaseFiles == |input.files|
    ensures p.summary.targetOnlyDigest == q.summary.targetOnlyDigest
      <==> TargetOnly(input.targetTree, PathsOf(input.files)) == TargetOnly(other.targetTree, PathsOf(other.files))
  {
    TargetOnlyCount(input.targetTree, PathsOf(input.files));
    TargetOnlyPlain(input.targetTree, PathsOf(input.files));
    TargetOnlyPlain(other.targetTree, PathsOf(other.files));
    TargetOnlyTextBinds(TargetOnly(input.targetTree, PathsOf(input.files)), TargetOnly(other.targetTree, PathsOf(other.files)));
  }

  lemma {:induction false} TargetOnlyPlain(listing: seq<ListedEntry>, releasePaths: set<string>)
    requires AllPlain(listing)
    ensures AllPlain(TargetOnly(listing, releasePaths))
  {
    if listing != [] {
      TargetOnlyPlain(listing[..|listing| - 1], releasePaths);
    }
  }

  // ---- Which action a path gets ----

  /** The target has the path with other content than the release's, or with the same. */
  predicate Differs(file: ReleaseFile, tree: Tree)
    requires file.gitObject.Some?
  {
    file.path in tree && tree[file.path].blob != file.gitObject.value
  }

  predicate Matches(file: ReleaseFile, tree: Tree)
    requires file.gitObject.Some?
  {
    file.path in tree && tree[file.path].blob == file.gitObject.value
  }

  lemma EmptyBootstrapActions(policy: PathPolicy, file: ReleaseFile, tree: Tree)
    requires file.gitObject.Some?
    ensures var kind := ActionRow(policy, BootstrapEmpty, file, tree).kind;
      && (kind.BootstrapTransform? <==> policy.IsBootstrapTransform(file.path))
      && (kind.AddFromRelease? <==> !policy.IsBootstrapTransform(file.path))
  {
  }

  /** An uninitialised child: transform paths are transformed whatever the target holds, and of the others a
      differing file is overwritten unless it is shared, which a person merges. */
  lemma ChildActions(policy: PathPolicy, file: ReleaseFile, tree: Tree)
    requires file.gitObject.Some?
    ensures var kind, transform := ActionRow(policy, BootstrapChild, file, tree).kind, policy.IsBootstrapTransform(file.path);
      && (kind.BootstrapTransform? <==> transform)
      && (kind.Unchanged? <==> !transform && Matches(file, tree))
      && (kind.AddFromRelease? <==> !transform && file.path !in tree)
      && (kind.ManualMerge? <==> !transform && Differs(file, tree) && policy.IsSharedMerge(file.path))
      && (kind.ReplaceFromRelease? <==> !transform && Differs(file, tree) && !policy.IsSharedMerge(file.path))
  {
  }

  /** Adoption: every differing file is for a person to merge, transform path or not. */
  lemma AdoptActions(policy: PathPolicy, file: ReleaseFile, tree: Tree)
    requires file.gitObject.Some?
    ensures var kind, transform := ActionRow(policy, AdoptExisting, file, tree).kind, policy.IsBootstrapTransform(file.path);
      && (kind.ManualMerge? <==> Differs(file, tree))
      && (kind.BootstrapTransform? <==> transform && !Differs(file, tree))
      && (kind.Unchanged? <==> !transform && Matches(file, tree))
      && (kind.AddFromRelease? <==> !transform && file.path !in tree)
  {
  }

  /** A repair: missing project state is reviewed and differing project state preserved; of the others a
      differing file is overwritten unless it is shared. */
  lemma RepairActions(policy: PathPolicy, file: ReleaseFile, tree: Tree)
    requires file.gitObject.Some?
    ensures var kind, state := ActionRow(policy, RepairPartial, file, tree).kind, file.path in policy.preserve;
      && (kind.Unchanged? <==> Matches(file, tree))
      && (kind.MigrationReview? <==> state && file.path !in tree)
      && (kind.PreserveProjectState? <==> state && Differs(file, tree))
      && (kind.ManualMerge? <==> !state && Differs(file, tree) && policy.IsSharedMerge(file.path))
      && (kind.AddFromRelease? <==> !state && file.path !in tree)
      && (kind.ReplaceFromRelease? <==> !state && Differs(file, tree) && !policy.IsSharedMerge(file.path))
  {
  }

  /** An upgrade: missing and differing project state is reviewed; the rest is as in a repair. */
  lemma UpgradeActions(policy: PathPolicy, file: ReleaseFile, tree: Tree)
    requires file.gitObject.Some?
    ensures var kind, state := ActionRow(policy, UpgradeActive, file, tree).kind, file.path in policy.preserve;
      && (kind.Unchanged? <==> Matches(file, tree))
      && (kind.MigrationReview? <==> state && !Matches(file, tree))
      && (kind.ManualMerge? <==> !state && Differs(file, tree) && policy.IsSharedMerge(file.path))
      && (kind.AddFromRelease? <==> !state && file.path !in tree)
      && (kind.ReplaceFromRelease? <==> !state && Differs(file, tree) && !policy.IsSharedMerge(file.path))
  {
  }

  /** May a plan of this mode overwrite a differing file at the path without asking? */
  predicate Overwrites(policy: PathPolicy, mode: Mode, path: string) {
    match mode
    case BootstrapEmpty => true
    case BootstrapChild => policy.IsBootstrapTransform(path) || !policy.IsSharedMerge(path)
    case AdoptExisting => false
    case RepairPartial => path !in policy.preserve && !policy.IsSharedMerge(path)
    case UpgradeActive => path !in policy.preserve && !policy.IsSharedMerge(path)
  }

  /** What a plan writes, path by path. A differing file is written exactly where its mode overwrites it, and
      otherwise asked about, except that a repair keeps differing project state without asking. A missing file
      is written unless it is project state of a repair or upgrade, which is asked about. A file that is the
      release's already is written only by a bootstrap's transform and by a plan for an empty repository. */
  lemma ProtectedPaths(policy: PathPolicy, input: PlanInput, hash: string -> string, p: Payload, i: nat)
    requires PlanPayload(policy, input, hash) == Ok(p) && i < |input.files|
    ensures input.files[i].gitObject.Some? && i < |p.actions|
    ensures var f, a, tree, mode := input.files[i], p.actions[i], TreeOf(input.targetTree), input.mode;
      var repairs := mode.RepairPartial? || mode.UpgradeActive?;
      && a.path == f.path && a.releaseObject == f.gitObject.value && a.releaseSha256 == f.sha256
      && a.releaseMode == f.mode && a.releaseBytes == f.size
      && (if f.path in tree then a.targetObject == Some(tree[f.path].blob) && a.targetMode == Some(tree[f.path].mode)
          else a.targetObject.None? && a.targetMode.None?)
      && (Differs(f, tree) ==>
            (a.IsWrite() <==> Overwrites(policy, mode, f.path)) &&
            (a.kind.PreserveProjectState? <==> mode.RepairPartial? && f.path in policy.preserve) &&
            (a.confirmationRequired <==> !a.IsWrite() && !a.kind.PreserveProjectState?))
      && (f.path !in tree ==>
            (a.IsWrite() <==> !(repairs && f.path in policy.preserve)) &&
            (a.confirmationRequired <==> !a.IsWrite()))
      && (Matches(f, tree) ==>
            !a.confirmationRequired &&
            (a.IsWrite() <==> mode.BootstrapEmpty? || (!repairs && policy.IsBootstrapTransform(f.path))))
  {
    var f, tree := input.files[i], TreeOf(input.targetTree);
    EmptyBootstrapActions(policy, f, tree);
    ChildActions(policy, f, tree);
    AdoptActions(policy, f, tree);
    RepairActions(policy, f, tree);
    UpgradeActions(policy, f, tree);
    assert p.actions[i] == ActionRow(policy, input.mode, f, tree);
  }
}
