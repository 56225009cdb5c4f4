/** What applying a plan does to the repository tree, and planning again on the result. */
module PlanMeaning {
  import opened Common
  import opened Base64
  import A = Artifacts
  import opened Policy
  import opened Planner
  import R = Resolution

  /** One entry of a tree request; no object deletes the path. */
  datatype Change = Change(path: string, mode: string, blob: Option<string>)

  /** The tree made from a base tree and tree entries, later entries winning. */
  function Overlay(base: Tree, changes: seq<Change>): Tree {
    if changes == [] then base
    else
      var last := changes[|changes| - 1];
      var before := Overlay(base, changes[..|changes| - 1]);
      if last.blob.Some? then before[last.path := Entry(last.mode, last.blob.value)]
      else before - {last.path}
  }

  predicate DistinctChanges(changes: seq<Change>) {
    forall i, j :: 0 <= i < j < |changes| ==> changes[i].path != changes[j].path
  }

  predicate Touches(changes: seq<Change>, path: string) {
    exists i :: 0 <= i < |changes| && changes[i].path == path
  }

  lemma {:induction false} OverlayAt(base: Tree, changes: seq<Change>, path: string)
    requires DistinctChanges(changes)
    ensures !Touches(changes, path) ==> At(Overlay(base, changes), path) == At(base, path)
    ensures forall i :: 0 <= i < |changes| && changes[i].path == path ==>
      At(Overlay(base, changes), path)
        == (if changes[i].blob.Some? then Some(Entry(changes[i].mode, changes[i].blob.value)) else None)
  {
    if changes != [] {
      var n := |changes| - 1;
      OverlayAt(base, changes[..n], path);
      assert forall i :: 0 <= i < n ==> changes[..n][i] == changes[i];
    }
  }

  // ---- Verifying what the sandbox returned ----

  /** `outputBytes` is the size of what the run wrote to standard output and error. */
  datatype SandboxResult = SandboxResult(
    driverId: string, isolation: string, exitCode: int, timedOut: bool, outputTruncated: bool,
    durationMs: int, outputBytes: nat, outputs: Option<seq<A.Artifact>>)

  datatype VerifyError = ExecutionFailed | OutputSetMismatch | OutputModeMismatch | ReleaseOutputDrift

  function WritePaths(actions: seq<PlannerAction>): set<string> {
    set i | 0 <= i < |actions| && actions[i].IsWrite() :: actions[i].path
  }

  /** `file` is an acceptable output for the write action `a`. */
  predicate Produces(file: A.Artifact, a: PlannerAction) {
    a.IsWrite() && file.path == a.path && file.mode == a.releaseMode &&
    (!a.kind.BootstrapTransform? ==> file.sha256 == a.releaseSha256)
  }

  predicate ProducesSome(file: A.Artifact, actions: seq<PlannerAction>) {
    exists i :: 0 <= i < |actions| && Produces(file, actions[i])
  }

  predicate OutputsMatch(actions: seq<PlannerAction>, outputs: seq<A.Artifact>) {
    |outputs| == |WritePaths(actions)| &&
    forall k :: 0 <= k < |outputs| ==> ProducesSome(outputs[k], actions)
  }

  predicate Succeeded(result: SandboxResult) {
    result.exitCode == 0 && !result.timedOut && !result.outputTruncated && result.outputs.Some?
  }

  /** What a refusal of the outputs says is so of some output. */
  predicate OutputsRefusedWith(actions: seq<PlannerAction>, outputs: seq<A.Artifact>, e: VerifyError) {
    match e
    case OutputSetMismatch =>
      |outputs| != |WritePaths(actions)| || exists k :: 0 <= k < |outputs| && outputs[k].path !in WritePaths(actions)
    case OutputModeMismatch => exists k, i :: 0 <= k < |outputs| && 0 <= i < |actions| && WrongMode(outputs[k], actions[i])
    case ReleaseOutputDrift => exists k, i :: 0 <= k < |outputs| && 0 <= i < |actions| && Drifted(outputs[k], actions[i])
    case ExecutionFailed => false
  }

  predicate WrongMode(file: A.Artifact, a: PlannerAction) {
    a.IsWrite() && file.path == a.path && file.mode != a.releaseMode
  }

  predicate Drifted(file: A.Artifact, a: PlannerAction) {
    a.IsWrite() && file.path == a.path && !a.kind.BootstrapTransform? && file.sha256 != a.releaseSha256
  }

  method IndexWrites(actions: seq<PlannerAction>) returns (m: map<string, PlannerAction>)
    requires R.DistinctPaths(actions)
    ensures m.Keys == WritePaths(actions)
    ensures forall i :: 0 <= i < |actions| && actions[i].IsWrite() ==> m[actions[i].path] == actions[i]
  {
    m := map[];
    for i := 0 to |actions|
      invariant m.Keys == set k | 0 <= k < i && actions[k].IsWrite() :: actions[k].path
      invariant forall k :: 0 <= k < i && actions[k].IsWrite() ==> m[actions[k].path] == actions[k]
    {
      if actions[i].IsWrite() { m := m[actions[i].path := actions[i]]; }
    }
  }

  /** Accepts a result exactly when it succeeded and its outputs match the plan's writes. The final
      ordering by path is left out. */
  method VerifyFullApplySandboxOutputs(actions: seq<PlannerAction>, result: SandboxResult)
    returns (r: Result<seq<A.Artifact>, VerifyError>)
    requires R.DistinctPaths(actions)
    ensures r.Ok? <==> Succeeded(result) && OutputsMatch(actions, result.outputs.value)
    ensures r.Ok? ==> r.value == result.outputs.value
    ensures r == Err(ExecutionFailed) <==>
      result.exitCode != 0 || result.timedOut || result.outputTruncated || result.outputs.None?
    ensures r.Err? && !r.error.ExecutionFailed? ==> OutputsRefusedWith(actions, result.outputs.value, r.error)
  {
    if result.exitCode != 0 || result.timedOut || result.outputTruncated || result.outputs.None? {
      return Err(ExecutionFailed);
    }
    var files := result.outputs.value;
    var writes := IndexWrites(actions);
    assert |writes| == |writes.Keys|;
    if |files| != |writes| { return Err(OutputSetMismatch); }
    for i := 0 to |files|
      invariant forall k :: 0 <= k < i ==> ProducesSome(files[k], actions)
    {
      var file := files[i];
      if file.path !in writes {
        assert !ProducesSome(file, actions);
        return Err(OutputSetMismatch);
      }
      var action := writes[file.path];
      ghost var j :| 0 <= j < |actions| && actions[j].IsWrite() && actions[j].path == file.path;
      assert forall k :: 0 <= k < |actions| && actions[k].path == file.path ==> k == j;
      if file.mode != action.releaseMode {
        assert WrongMode(file, actions[j]);
        return Err(OutputModeMismatch);
      }
      if action.kind != BootstrapTransform && file.sha256 != action.releaseSha256 {
        assert Drifted(file, actions[j]);
        return Err(ReleaseOutputDrift);
      }
      assert Produces(file, actions[j]);
    }
    return Ok(files);
  }

  const MAX_ARTIFACT_BYTES := 32 * 1024 * 1024

  predicate OutputsGood(actions: seq<PlannerAction>, outputs: seq<A.Artifact>, hash: A.Digest) {
    A.Accepted(outputs, MAX_ARTIFACT_BYTES, Some(WritePaths(actions)), hash) && OutputsMatch(actions, outputs)
  }

  datatype Driver = Driver(id: string, isolation: string)

  const MAX_OUTPUT_BYTES := 512 * 1024

  /** The result comes from the driver that was asked and keeps to the output limit. */
  predicate FromDriver(driver: Driver, result: SandboxResult) {
    result.driverId == driver.id && result.isolation == driver.isolation && result.durationMs >= 0 &&
    result.outputBytes <= MAX_OUTPUT_BYTES
  }

  /** What the artifact checks and then the plan's require of a sandbox result. */
  predicate GoodResult(actions: seq<PlannerAction>, result: Option<SandboxResult>, hash: A.Digest) {
    result.Some? && Succeeded(result.value) && OutputsGood(actions, result.value.outputs.value, hash)
  }

  /** Matching outputs without repetition are exactly the plan's writes, one file each. */
  lemma OutputsAreTheWrites(actions: seq<PlannerAction>, outputs: seq<A.Artifact>)
    requires A.DistinctPaths(outputs) && OutputsMatch(actions, outputs)
    ensures A.Paths(outputs) == WritePaths(actions)
  {
    var names := seq(|outputs|, i requires 0 <= i < |outputs| => outputs[i].path);
    assert Elements(names) == A.Paths(outputs) by {
      assert forall i :: 0 <= i < |outputs| ==> names[i] == outputs[i].path;
    }
    forall i | 0 <= i < |names| ensures names[i] in WritePaths(actions) {
      assert ProducesSome(outputs[i], actions);
      var j :| 0 <= j < |actions| && Produces(outputs[i], actions[j]);
    }
    DistinctExhausts(names, WritePaths(actions));
  }

  // ---- The meaning of a plan ----

  /** The Git object id of file content. */
  type BlobId = Bytes -> string

  function ContentOf(file: A.Artifact): Bytes {
    var decoded := DecodeCanonical(file.contentBase64);
    if decoded.Ok? then decoded.value else []
  }

  function ChangeOf(file: A.Artifact, blobId: BlobId): Change {
    Change(file.path, file.mode, Some(blobId(ContentOf(file))))
  }

  function ChangesOf(outputs: seq<A.Artifact>, blobId: BlobId): seq<Change> {
    seq(|outputs|, i requires 0 <= i < |outputs| => ChangeOf(outputs[i], blobId))
  }

  /** The release manifest is honest: some content has both the digest and the object id it declares. */
  ghost predicate Declared(a: PlannerAction, hash: A.Digest, blobId: BlobId) {
    exists content: Bytes :: hash(content) == a.releaseSha256 && blobId(content) == a.releaseObject
  }

  /** `tree` is `base` with every write action's path holding the release blob and mode, and nothing else changed. */
  ghost predicate IsPlanTree(base: Tree, actions: seq<PlannerAction>, tree: Tree) {
    (forall i :: 0 <= i < |actions| && actions[i].IsWrite() ==>
      At(tree, actions[i].path) == Some(Entry(actions[i].releaseMode, actions[i].releaseObject))) &&
    (forall path :: path !in WritePaths(actions) ==> At(tree, path) == At(base, path))
  }

  /** What a Git tree can be: no file with another file beneath its path. */
  predicate GitTree(tree: Tree) {
    forall p, q :: p in tree && q in tree ==> !(p + "/" <= q)
  }

  /** No written path lies beneath a file that stays or is written, or has one beneath it. */
  predicate Fits(base: Tree, actions: seq<PlannerAction>) {
    forall p, q :: p in WritePaths(actions) && q in base.Keys + WritePaths(actions) ==> Apart(p, q)
  }

  predicate Apart(p: string, q: string) {
    !(p + "/" <= q) && !(q + "/" <= p)
  }

  /** The tree a plan means exists as a Git tree exactly when its writes fit the base. */
  lemma PlanTreeIsGitTree(base: Tree, actions: seq<PlannerAction>, tree: Tree)
    requires GitTree(base) && IsPlanTree(base, actions, tree)
    ensures tree.Keys == base.Keys + WritePaths(actions)
    ensures GitTree(tree) <==> Fits(base, actions)
  {
    forall path ensures path in tree <==> path in base.Keys + WritePaths(actions) {
      if path in WritePaths(actions) {
        var i :| 0 <= i < |actions| && actions[i].IsWrite() && actions[i].path == path;
        assert At(tree, actions[i].path).Some?;
      } else {
        assert At(tree, path) == At(base, path);
      }
    }
    if GitTree(tree) {
      forall p, q | p in WritePaths(actions) && q in base.Keys + WritePaths(actions) ensures Apart(p, q) {
        assert p in tree && q in tree;
      }
    }
    if Fits(base, actions) {
      forall p, q | p in tree && q in tree ensures !(p + "/" <= q) {
        if p in WritePaths(actions) {
          assert Apart(p, q);
        } else if q in WritePaths(actions) {
          assert Apart(q, p);
        } else {
          assert p in base && q in base;
        }
      }
    }
  }

  predicate CopiesOnly(actions: seq<PlannerAction>) {
    forall i :: 0 <= i < |actions| ==> !actions[i].kind.BootstrapTransform?
  }

  lemma OutputHoldsRelease(file: A.Artifact, a: PlannerAction, hash: A.Digest, blobId: BlobId)
    requires A.CollisionFree(hash) && Declared(a, hash, blobId)
    requires A.Genuine(file, hash) && Produces(file, a) && !a.kind.BootstrapTransform?
    ensures ChangeOf(file, blobId) == Change(a.path, a.releaseMode, Some(a.releaseObject))
  {
    var content: Bytes :| hash(content) == a.releaseSha256 && blobId(content) == a.releaseObject;
    assert hash(ContentOf(file)) == hash(content);
  }

  /** Each write has its one change. */
  lemma ChangeForWrite(actions: seq<PlannerAction>, outputs: seq<A.Artifact>, maxBytes: int,
                       allowed: Option<set<string>>, hash: A.Digest, blobId: BlobId, i: nat) returns (k: nat)
    requires R.DistinctPaths(actions) && A.CollisionFree(hash)
    requires A.Accepted(outputs, maxBytes, allowed, hash) && OutputsMatch(actions, outputs)
    requires i < |actions| && actions[i].IsWrite() && !actions[i].kind.BootstrapTransform?
    requires Declared(actions[i], hash, blobId)
    ensures k < |outputs|
    ensures ChangesOf(outputs, blobId)[k] == Change(actions[i].path, actions[i].releaseMode, Some(actions[i].releaseObject))
  {
    OutputsAreTheWrites(actions, outputs);
    assert actions[i].path in A.Paths(outputs);
    k :| 0 <= k < |outputs| && outputs[k].path == actions[i].path;
    assert ProducesSome(outputs[k], actions);
    var j :| 0 <= j < |actions| && Produces(outputs[k], actions[j]);
    assert j == i;
    assert A.Genuine(outputs[k], hash) by { A.EachGenuine(outputs, allowed, hash, k); }
    OutputHoldsRelease(outputs[k], actions[i], hash, blobId);
  }

  lemma ChangesTouchWrites(actions: seq<PlannerAction>, outputs: seq<A.Artifact>, blobId: BlobId, path: string)
    requires A.DistinctPaths(outputs) && OutputsMatch(actions, outputs)
    ensures DistinctChanges(ChangesOf(outputs, blobId))
    ensures Touches(ChangesOf(outputs, blobId), path) ==> path in WritePaths(actions)
  {
    var changes := ChangesOf(outputs, blobId);
    assert forall k :: 0 <= k < |changes| ==> changes[k].path == outputs[k].path;
    if Touches(changes, path) {
      var k :| 0 <= k < |changes| && changes[k].path == path;
      assert ProducesSome(outputs[k], actions);
    }
  }

  /** The commit made from verified outputs is the base tree with exactly the planned writes. */
  lemma CommitMeaning(actions: seq<PlannerAction>, base: Tree, outputs: seq<A.Artifact>, maxBytes: int,
                      allowed: Option<set<string>>, hash: A.Digest, blobId: BlobId)
    requires R.DistinctPaths(actions) && CopiesOnly(actions)
    requires forall i :: 0 <= i < |actions| && actions[i].IsWrite() ==> Declared(actions[i], hash, blobId)
    requires A.CollisionFree(hash)
    requires A.Accepted(outputs, maxBytes, allowed, hash) && OutputsMatch(actions, outputs)
    ensures IsPlanTree(base, actions, Overlay(base, ChangesOf(outputs, blobId)))
    ensures GitTree(base) ==> (GitTree(Overlay(base, ChangesOf(outputs, blobId))) <==> Fits(base, actions))
  {
    var changes := ChangesOf(outputs, blobId);
    forall i | 0 <= i < |actions| && actions[i].IsWrite()
      ensures At(Overlay(base, changes), actions[i].path) == Some(Entry(actions[i].releaseMode, actions[i].releaseObject))
    {
      var k := ChangeForWrite(actions, outputs, maxBytes, allowed, hash, blobId, i);
      ChangesTouchWrites(actions, outputs, blobId, actions[i].path);
      OverlayAt(base, changes, actions[i].path);
    }
    forall path | path !in WritePaths(actions) ensures At(Overlay(base, changes), path) == At(base, path) {
      ChangesTouchWrites(actions, outputs, blobId, path);
      OverlayAt(base, changes, path);
    }
    if GitTree(base) { PlanTreeIsGitTree(base, actions, Overlay(base, changes)); }
  }

  predicate KeepsProject(mode: Mode) {
    mode.RepairPartial? || mode.UpgradeActive?
  }

  predicate DistinctFiles(files: seq<ReleaseFile>) {
    forall i, j :: 0 <= i < j < |files| ==> files[i].path != files[j].path
  }

  /** What a plan tree holds at one release path. */
  predicate HoldsRelease(base: Tree, tree: Tree, f: ReleaseFile, a: PlannerAction)
    requires f.gitObject.Some?
  {
    a.path == f.path &&
    if a.kind.PreserveProjectState? then At(tree, f.path) == At(base, f.path)
    else At(tree, f.path).Some? && tree[f.path].blob == f.gitObject.value
  }

  // ---- Conflict-free plans ----

  /** The resolver makes `p` of the blocked plan `source`. */
  ghost predicate ResolvedFrom(policy: PathPolicy, source: Payload, p: Payload) {
    exists planId, planHash, raws, login :: ResolvedBy(policy, source, p, planId, planHash, raws, login)
  }

  predicate ResolvedBy(policy: PathPolicy, source: Payload, p: Payload, planId: string, planHash: string,
                       raws: seq<R.RawResolution>, login: string)
  {
    R.Resolvable(source, planId, planHash, raws, login) &&
    R.Resolved(policy, source, R.DecisionMap(raws), p, planId, planHash, login)
  }

  /** A conflict-free plan: planned so, or made by resolving a plan's conflicts. */
  ghost predicate SettledPlan(policy: PathPolicy, input: PlanInput, hash: string -> string, p: Payload) {
    PlanPayload(policy, input, hash).Ok? &&
    var planned := PlanPayload(policy, input, hash).value;
    (p == planned && p.conflictFree) || ResolvedFrom(policy, planned, p)
  }

  /** An action is the planned row or, where that blocks, what one of the two choices makes of it. */
  predicate Settles(policy: PathPolicy, mode: Mode, row: PlannerAction, a: PlannerAction) {
    if row.IsBlocker() then
      a == R.ResolvedAction(policy, mode, row, KeepTarget) || a == R.ResolvedAction(policy, mode, row, UseRelease)
    else a == row
  }

  predicate SettledActions(policy: PathPolicy, mode: Mode, files: seq<ReleaseFile>, base: Tree, actions: seq<PlannerAction>)
    requires AllIdentified(files)
  {
    |actions| == |files| && forall i :: 0 <= i < |files| ==> Settles(policy, mode, Rows(policy, mode, files, base)[i], actions[i])
  }

  /** What planned and resolved plans have in common. A plan for an empty repository is never resolved. */
  lemma SettledPlanIs(policy: PathPolicy, input: PlanInput, hash: string -> string, p: Payload)
    requires SettledPlan(policy, input, hash, p)
    ensures AllIdentified(input.files) && SettledActions(policy, input.mode, input.files, TreeOf(input.targetTree), p.actions)
    ensures p.mode == input.mode && p.target == input.target && p.conflictFree && NoBlockers(p.actions)
    ensures |p.actions| <= R.MAX_ACTIONS && (NeedsContext(p.mode) ==> p.context.Some?)
    ensures p.safeToApply && !p.mode.BootstrapEmpty? ==> p.implementation.SandboxFullPlanV1?
    ensures p.safeToApply ==> !NoWrites(p.actions)
  {
    var planned := PlanPayload(policy, input, hash).value;
    VerdictMeaning(policy, input, hash, planned);
    PlannedRows(policy, input, hash, planned);
    hide PlanPayload;
    if p != planned {
      var planId, planHash, raws, login :| ResolvedBy(policy, planned, p, planId, planHash, raws, login);
      R.ResolutionKeeps(policy, planned, R.DecisionMap(raws), p, planId, planHash, login);
      ResolvedSettles(policy, planned, p, R.DecisionMap(raws), planId, planHash, login);
      hide ResolvedBy;
      hide Settles;
    }
  }

  lemma PlannedRows(policy: PathPolicy, input: PlanInput, hash: string -> string, p: Payload)
    requires PlanPayload(policy, input, hash) == Ok(p)
    ensures AllIdentified(input.files) && p.actions == Rows(policy, input.mode, input.files, TreeOf(input.targetTree))
    ensures |p.actions| <= R.MAX_ACTIONS
  {
  }

  lemma ResolvedSettles(policy: PathPolicy, source: Payload, p: Payload, decisions: map<string, Decision>, planId: string,
                        planHash: string, login: string)
    requires R.Resolved(policy, source, decisions, p, planId, planHash, login)
    ensures NoBlockers(p.actions) && |p.actions| == |source.actions|
    ensures forall i :: 0 <= i < |p.actions| ==> Settles(policy, source.mode, source.actions[i], p.actions[i])
  {
    forall i | 0 <= i < |p.actions| ensures Settles(policy, source.mode, source.actions[i], p.actions[i]) {
      assert R.ResolvesTo(policy, source.mode, source.actions[i], p.actions[i], decisions);
    }
  }

  lemma SettledPaths(policy: PathPolicy, mode: Mode, files: seq<ReleaseFile>, base: Tree, actions: seq<PlannerAction>)
    requires AllIdentified(files) && SettledActions(policy, mode, files, base, actions)
    ensures forall i :: 0 <= i < |files| ==> actions[i].path == files[i].path
    ensures DistinctFiles(files) ==> R.DistinctPaths(actions)
  {
    forall i | 0 <= i < |files| ensures actions[i].path == files[i].path {
      assert Settles(policy, mode, Rows(policy, mode, files, base)[i], actions[i]);
    }
  }

  lemma SettledPathsDiffer(policy: PathPolicy, input: PlanInput, hash: string -> string, p: Payload)
    requires SettledPlan(policy, input, hash, p) && DistinctFiles(input.files)
    ensures R.DistinctPaths(p.actions)
  {
    SettledPlanIs(policy, input, hash, p);
    SettledPaths(policy, input.mode, input.files, TreeOf(input.targetTree), p.actions);
  }

  lemma SettledKeepingCopies(policy: PathPolicy, input: PlanInput, hash: string -> string, p: Payload)
    requires SettledPlan(policy, input, hash, p) && KeepsProject(p.mode)
    ensures CopiesOnly(p.actions)
  {
    SettledPlanIs(policy, input, hash, p);
    hide SettledPlan;
    hide Settles;
    forall i | 0 <= i < |p.actions| ensures !p.actions[i].kind.BootstrapTransform? {
      SettledKeepingRow(policy, input.mode, input.files[i], TreeOf(input.targetTree), p.actions[i]);
    }
  }

  lemma SettledKeepingRow(policy: PathPolicy, mode: Mode, f: ReleaseFile, base: Tree, a: PlannerAction)
    requires f.gitObject.Some? && Settles(policy, mode, ActionRow(policy, mode, f, base), a) && KeepsProject(mode)
    ensures !a.kind.BootstrapTransform?
  {
  }

  lemma HoldsAt(policy: PathPolicy, mode: Mode, files: seq<ReleaseFile>, base: Tree, actions: seq<PlannerAction>, tree: Tree, i: nat)
    requires KeepsProject(mode) && AllIdentified(files) && DistinctFiles(files) && i < |files|
    requires SettledActions(policy, mode, files, base, actions) && IsPlanTree(base, actions, tree)
    ensures HoldsRelease(base, tree, files[i], actions[i]) && !actions[i].kind.BootstrapTransform?
  {
    var row, a := Rows(policy, mode, files, base)[i], actions[i];
    assert Settles(policy, mode, row, a);
    SettledPaths(policy, mode, files, base, actions);
    assert !a.IsWrite() ==> a.path !in WritePaths(actions);
  }

  /** Reading a conflict-free repair or upgrade's tree path by path, whether its conflicts were never there
      or were resolved: files outside the release and preserved files are the base's; every written or
      unchanged path holds the release blob. */
  lemma PlanTreeContents(policy: PathPolicy, input: PlanInput, hash: string -> string, p: Payload, tree: Tree)
    requires KeepsProject(input.mode) && SettledPlan(policy, input, hash, p)
    requires DistinctFiles(input.files)
    requires IsPlanTree(TreeOf(input.targetTree), p.actions, tree)
    ensures CopiesOnly(p.actions) && R.DistinctPaths(p.actions) && |p.actions| == |input.files|
    ensures forall path :: path !in PathsOf(input.files) ==> At(tree, path) == At(TreeOf(input.targetTree), path)
    ensures forall i :: 0 <= i < |input.files| ==>
      input.files[i].gitObject.Some? && HoldsRelease(TreeOf(input.targetTree), tree, input.files[i], p.actions[i])
    ensures GitTree(TreeOf(input.targetTree)) ==> (GitTree(tree) <==> Fits(TreeOf(input.targetTree), p.actions))
  {
    var base := TreeOf(input.targetTree);
    SettledPlanIs(policy, input, hash, p);
    SettledPaths(policy, input.mode, input.files, base, p.actions);
    hide SettledPlan;
    hide PlanPayload;
    forall i | 0 <= i < |input.files|
      ensures HoldsRelease(base, tree, input.files[i], p.actions[i]) && !p.actions[i].kind.BootstrapTransform?
    {
      HoldsAt(policy, input.mode, input.files, base, p.actions, tree, i);
    }
    forall path | path !in PathsOf(input.files) ensures At(tree, path) == At(base, path) {
      assert path !in WritePaths(p.actions);
    }
    if GitTree(base) { PlanTreeIsGitTree(base, p.actions, tree); }
  }

  /** The planner does not look for clashes: on a repository that has a file where a release path needs a
      directory, that path is planned as an addition, and no Git tree is what the plan means. */
  lemma ClashIsPlanned(policy: PathPolicy, input: PlanInput, hash: string -> string, p: Payload, i: nat, dir: string, rest: string)
    requires KeepsProject(input.mode) && PlanPayload(policy, input, hash) == Ok(p) && i < |input.files|
    requires input.files[i].path == dir + "/" + rest && input.files[i].path !in policy.preserve
    requires GitTree(TreeOf(input.targetTree)) && dir in TreeOf(input.targetTree)
    ensures p.actions[i].kind.AddFromRelease? && !Fits(TreeOf(input.targetTree), p.actions)
    ensures forall tree :: IsPlanTree(TreeOf(input.targetTree), p.actions, tree) ==> !GitTree(tree)
  {
    var base, path := TreeOf(input.targetTree), dir + "/" + rest;
    assert dir + "/" <= path;
    assert path !in base;
    assert p.actions[i].path == path && p.actions[i].IsWrite();
    assert path in WritePaths(p.actions) && !Apart(path, dir);
    forall tree | IsPlanTree(base, p.actions, tree) ensures !GitTree(tree) {
      PlanTreeIsGitTree(base, p.actions, tree);
    }
  }

  /** A repair of a repository with a file `docs`, from a release that has `docs/x.md`. */
  function DocsInput(target: Target, docs: Entry, f: ReleaseFile, release: ReleaseIdentity): PlanInput {
    PlanInput(RepairPartial, target.(classification := PartialOrMalformed), SOURCE_PROTOCOL, release.(fileCount := 1),
              [f.(path := "docs/x.md")], [ListedEntry("docs", docs)], Err(ContextInvalid))
  }

  lemma DocsClash(policy: PathPolicy, target: Target, docs: Entry, f: ReleaseFile, release: ReleaseIdentity, hash: string -> string)
    returns (p: Payload)
    requires f.gitObject.Some? && IsHex(f.gitObject.value, 40) && "docs/x.md" !in policy.preserve
    ensures PlanPayload(policy, DocsInput(target, docs, f, release), hash) == Ok(p) && p.safeToApply
    ensures GitTree(map["docs" := docs]) && TreeOf(DocsInput(target, docs, f, release).targetTree) == map["docs" := docs]
    ensures forall tree :: IsPlanTree(map["docs" := docs], p.actions, tree) ==> !GitTree(tree)
  {
    var input := DocsInput(target, docs, f, release);
    p := PlanPayload(policy, input, hash).value;
    assert TreeOf(input.targetTree) == map["docs" := docs] by {
      assert input.targetTree[..0] == [];
    }
    assert "docs" + "/" + "x.md" == "docs/x.md";
    ClashIsPlanned(policy, input, hash, p, 0, "docs", "x.md");
    VerdictMeaning(policy, input, hash, p);
    assert p.actions[0].IsWrite() && !p.actions[0].IsBlocker();
  }

  // ---- Planning again on the result ----

  /** Planning a release path again on the plan's own tree finds nothing to write and nothing blocking. */
  lemma ReplanAt(policy: PathPolicy, mode: Mode, f: ReleaseFile, base: Tree, tree: Tree)
    requires KeepsProject(mode) && f.gitObject.Some? && !ActionRow(policy, mode, f, base).IsBlocker()
    requires HoldsRelease(base, tree, f, ActionRow(policy, mode, f, base))
    ensures var again := ActionRow(policy, mode, f, tree); !again.IsWrite() && !again.IsBlocker()
  {
  }

  /** Entries listed in the service's path order: strictly increasing under `before`. */
  ghost predicate Ordered(before: (string, string) -> bool, listing: seq<ListedEntry>) {
    forall i, j :: 0 <= i < j < |listing| ==> before(listing[i].path, listing[j].path)
  }

  ghost predicate StrictOrder(before: (string, string) -> bool) {
    (forall a, b :: before(a, b) ==> !before(b, a)) && (forall a :: !before(a, a))
  }

  lemma {:induction false} TargetOnlyMembers(listing: seq<ListedEntry>, release: set<string>)
    ensures forall e :: e in TargetOnly(listing, release) <==> e in listing && e.path !in release
  {
    if listing != [] {
      var n := |listing| - 1;
      TargetOnlyMembers(listing[..n], release);
      assert listing == listing[..n] + [listing[n]];
    }
  }

  lemma {:induction false} TargetOnlyOrdered(listing: seq<ListedEntry>, release: set<string>, before: (string, string) -> bool)
    requires Ordered(before, listing)
    ensures Ordered(before, TargetOnly(listing, release))
  {
    if listing != [] {
      var n := |listing| - 1;
      var front := TargetOnly(listing[..n], release);
      TargetOnlyOrdered(listing[..n], release, before);
      TargetOnlyMembers(listing[..n], release);
      forall i | 0 <= i < |front| ensures before(front[i].path, listing[n].path) {
        assert front[i] in listing[..n];
        var k :| 0 <= k < n && listing[..n][k] == front[i];
        assert listing[k] == front[i];
      }
    }
  }

  lemma {:induction false} TreeOfOrdered(listing: seq<ListedEntry>, before: (string, string) -> bool, e: ListedEntry)
    requires StrictOrder(before) && Ordered(before, listing)
    ensures At(TreeOf(listing), e.path) == Some(e.entry) <==> e in listing
  {
    if listing != [] {
      var n := |listing| - 1;
      TreeOfOrdered(listing[..n], before, e);
      assert listing == listing[..n] + [listing[n]];
      assert forall k :: 0 <= k < n ==> listing[k].path != listing[n].path;
    }
  }

  lemma LastIsGreatest(s: seq<ListedEntry>, before: (string, string) -> bool, e: ListedEntry)
    requires Ordered(before, s) && e in s
    ensures e == s[|s| - 1] || before(e.path, s[|s| - 1].path)
  {
    var i :| 0 <= i < |s| && s[i] == e;
    if i < |s| - 1 {
      assert before(s[i].path, s[|s| - 1].path);
    }
  }

  lemma SameLast(a: seq<ListedEntry>, b: seq<ListedEntry>, before: (string, string) -> bool)
    requires StrictOrder(before) && Ordered(before, a) && Ordered(before, b) && a != [] && b != []
    requires forall e :: e in a <==> e in b
    ensures a[|a| - 1] == b[|b| - 1]
  {
    assert a[|a| - 1] in b && b[|b| - 1] in a;
    LastIsGreatest(b, before, a[|a| - 1]);
    LastIsGreatest(a, before, b[|b| - 1]);
  }

  /** An ordered listing is determined by its entries. */
  lemma {:induction false} OrderedListingsAgree(a: seq<ListedEntry>, b: seq<ListedEntry>, before: (string, string) -> bool)
    requires StrictOrder(before) && Ordered(before, a) && Ordered(before, b)
    requires forall e :: e in a <==> e in b
    ensures a == b
  {
    assert |a| > 0 ==> a[0] in b;
    assert |b| > 0 ==> b[0] in a;
    if a != [] {
      var m, n := |a| - 1, |b| - 1;
      SameLast(a, b, before);
      FrontOrdered(a, before);
      FrontOrdered(b, before);
      hide Ordered;
      hide StrictOrder;
      forall e ensures e in a[..m] <==> e in b[..n] {
        FrontMembers(a, before, e);
        FrontMembers(b, before, e);
      }
      OrderedListingsAgree(a[..m], b[..n], before);
      assert a == a[..m] + [a[m]] && b == b[..n] + [b[n]];
    }
  }

  lemma FrontOrdered(s: seq<ListedEntry>, before: (string, string) -> bool)
    requires Ordered(before, s) && s != []
    ensures Ordered(before, s[..|s| - 1])
  {
  }

  lemma FrontMembers(s: seq<ListedEntry>, before: (string, string) -> bool, e: ListedEntry)
    requires StrictOrder(before) && Ordered(before, s) && s != []
    ensures e in s[..|s| - 1] <==> e in s && e != s[|s| - 1]
  {
    var n := |s| - 1;
    if e in s[..n] {
      var k :| 0 <= k < n && s[k] == e;
      assert before(s[k].path, s[n].path);
    }
    assert s == s[..n] + [s[n]];
  }

  /** The entries outside the release are the same before and after. */
  lemma SameTargetOnly(listing: seq<ListedEntry>, after: seq<ListedEntry>, release: set<string>, before: (string, string) -> bool)
    requires StrictOrder(before) && Ordered(before, listing) && Ordered(before, after)
    requires forall path :: path !in release ==> At(TreeOf(after), path) == At(TreeOf(listing), path)
    ensures TargetOnly(after, release) == TargetOnly(listing, release)
  {
    TargetOnlyMembers(listing, release);
    TargetOnlyMembers(after, release);
    TargetOnlyOrdered(listing, release, before);
    TargetOnlyOrdered(after, release, before);
    forall e ensures e in TargetOnly(after, release) <==> e in TargetOnly(listing, release) {
      TreeOfOrdered(listing, before, e);
      TreeOfOrdered(after, before, e);
    }
    OrderedListingsAgree(TargetOnly(after, release), TargetOnly(listing, release), before);
  }

  /** Planning again on the plan's own tree writes nothing and blocks nothing. */
  lemma ReplanIsQuiet(policy: PathPolicy, mode: Mode, files: seq<ReleaseFile>, base: Tree, tree: Tree)
    requires KeepsProject(mode) && AllIdentified(files) && NoBlockers(Rows(policy, mode, files, base))
    requires forall i :: 0 <= i < |files| ==> HoldsRelease(base, tree, files[i], Rows(policy, mode, files, base)[i])
    ensures NoWrites(Rows(policy, mode, files, tree)) && NoBlockers(Rows(policy, mode, files, tree))
  {
    var again := Rows(policy, mode, files, tree);
    forall i | 0 <= i < |again| ensures !again[i].IsWrite() && !again[i].IsBlocker() {
      assert !Rows(policy, mode, files, base)[i].IsBlocker();
      ReplanAt(policy, mode, files[i], base, tree);
    }
  }

  /** Convergence: planning again, in the same mode, on the tree a conflict-free repair or upgrade plan
      produces finds no writes and no conflicts and the same files outside the release. */
  lemma Convergence(policy: PathPolicy, input: PlanInput, hash: string -> string, p: Payload,
                    after: seq<ListedEntry>, before: (string, string) -> bool) returns (p2: Payload)
    requires KeepsProject(input.mode) && PlanPayload(policy, input, hash) == Ok(p) && p.conflictFree
    requires DistinctFiles(input.files)
    requires StrictOrder(before) && Ordered(before, input.targetTree) && Ordered(before, after)
    requires IsPlanTree(TreeOf(input.targetTree), p.actions, TreeOf(after))
    ensures PlanPayload(policy, input.(targetTree := after), hash) == Ok(p2)
    ensures NoWrites(p2.actions) && NoBlockers(p2.actions)
    ensures p2.conflictFree && !p2.safeToApply && p2.implementation == NoChanges
    ensures p2.summary.targetOnlyDigest == p.summary.targetOnlyDigest
    ensures p2.summary.targetOnlyPreserved == p.summary.targetOnlyPreserved
  {
    p2 := PlanPayload(policy, input.(targetTree := after), hash).value;
    var base, tree := TreeOf(input.targetTree), TreeOf(after);
    assert SettledPlan(policy, input, hash, p);
    PlanTreeContents(policy, input, hash, p, tree);
    TallyVerdict(p.actions);
    hide HoldsRelease;
    hide ActionRow;
    hide TreeOf;
    hide Ordered;
    ReplanIsQuiet(policy, input.mode, input.files, base, tree);
    TallyVerdict(p2.actions);
    SameTargetOnly(input.targetTree, after, PathsOf(input.files), before);
  }
}
