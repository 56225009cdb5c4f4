/** One full apply from lease to record, against a repository host, a sandbox and a database each of
    whose calls may fail, with the compensation that undoes or flags partial work. */
module FullApply {
  import opened Common
  import A = Artifacts
  import opened Policy
  import opened Planner
  import M = PlanMeaning
  import R = Resolution
  import L = Ledger

  type Sha = string

  datatype Commit = Commit(tree: Tree, parents: seq<Sha>)

  /** A request took effect and was seen to, did not take effect, or took effect with its reply lost. */
  datatype Outcome = Seen | NotDone | Unseen

  /** What looking at the default branch finds: its head at that moment, or no answer. */
  datatype View = Head(head: Option<Sha>) | NoAnswer

  /** The environment of one call: how every request ends and where others leave the default branch.
      Each request is made at most once, so one field each describes every sequence of failures.
      `clashTree` is what the host would make of tree entries that fit no Git tree, and `rival` a reply
      another plan's call records under the same key while this one runs. */
  datatype Environment = Environment(
    atStart: View, releaseMatches: bool, materialized: bool, driver: M.Driver, sandbox: Option<M.SandboxResult>,
    seedBefore: View, seedPut: Outcome, seedSha: Sha, seedParents: seq<Sha>, seedReadable: bool,
    seedFallback: View, seedLookup: bool, seedAfter: View,
    beforeCommit: View, baseLookup: bool, blobs: bool, treeAndCommit: Outcome, newCommit: Sha, clashTree: Tree,
    beforeBranch: View, createRef: Outcome, readRef: bool, afterBranch: View,
    earlyCleanup: Outcome, cleanup: Outcome,
    beginWorks: bool, rival: Option<L.Reply>, completeWorks: bool, resetWorks: bool, markWorks: bool, now: nat)

  datatype ApplyError =
    | HandedToBoundedApply | PayloadInvalid | StoredPlanInvalid
    | ConflictResolutionRequired | NoChanges | ConfirmationRequired | EmptyContractMismatch | ContractMismatch
    | TargetHeadChanged | ReleaseChanged
    | Lease(cause: L.LedgerError) | DatabaseFailed | SandboxFailed | SeedFailed | CommitFailed | DeletePathConflict
    | BranchExists | BranchFailed | InitializationRecoveryRequired | ApplyRecoveryRequired

  datatype ApplyInput = ApplyInput(payload: Payload, branch: string, key: string, operationId: string, confirmed: bool)

  /** What a successful apply reports. */
  datatype AppliedPlan = AppliedPlan(branch: string, head: Sha, base: Sha, seed: Option<Sha>, receipt: string)

  datatype ApplyReply = Fresh(plan: AppliedPlan) | Earlier(branch: Option<string>, head: Option<Sha>)

  /** The tree made from a base tree and entries: the entries laid over the base when that is a Git tree at
      all, and otherwise whatever the host answers. */
  function BuiltTree(base: Tree, changes: seq<M.Change>, clashTree: Tree): Tree {
    if M.GitTree(M.Overlay(base, changes)) then M.Overlay(base, changes) else clashTree
  }

  /** The repository host. */
  class Host {
    var defaultHead: Option<Sha>
    var branches: map<string, Sha>
    var commits: map<Sha, Commit>

    /** Others may move the default branch up to the moment it is looked at; the answer is then true. */
    method Look(view: View) returns (head: Option<Option<Sha>>)
      modifies this`defaultHead
      ensures view.NoAnswer? ==> head.None? && defaultHead == old(defaultHead)
      ensures view.Head? ==> head == Some(view.head) && defaultHead == view.head
    {
      match view
      case NoAnswer => head := None;
      case Head(h) =>
        defaultHead := h;
        head := Some(h);
    }

    /** Creating the seed file commits it on the default branch. */
    method PutSeed(outcome: Outcome, sha: Sha, seedTree: Tree, parents: seq<Sha>) returns (created: bool)
      modifies this`defaultHead, this`commits
      ensures created <==> outcome.Seen?
      ensures outcome.NotDone? ==> commits == old(commits) && defaultHead == old(defaultHead)
      ensures !outcome.NotDone? ==> commits == old(commits)[sha := Commit(seedTree, parents)] && defaultHead == Some(sha)
    {
      if !outcome.NotDone? {
        commits := commits[sha := Commit(seedTree, parents)];
        defaultHead := Some(sha);
      }
      created := outcome.Seen?;
    }

    /** Base lookup, blobs, tree and commit: the new commit has the base as its only parent. A path both
        produced and to be deleted stops it before the tree. */
    method CreateCommit(base: Sha, changes: seq<M.Change>, deleteConflict: bool, env: Environment)
      returns (e: Option<ApplyError>)
      requires env.newCommit !in commits
      modifies this`commits
      ensures e.None? <==> env.baseLookup && base in old(commits) && env.blobs && !deleteConflict && env.treeAndCommit.Seen?
      ensures e.Some? ==>
        e.value == if env.baseLookup && base in old(commits) && env.blobs && deleteConflict then DeletePathConflict else CommitFailed
      ensures e.None? ==>
        commits == old(commits)[env.newCommit := Commit(BuiltTree(old(commits)[base].tree, changes, env.clashTree), [base])]
      ensures forall sha :: sha in old(commits) ==> sha in commits && commits[sha] == old(commits)[sha]
      ensures forall sha :: sha in commits && sha != env.newCommit ==> sha in old(commits)
    {
      if !env.baseLookup || base !in commits || !env.blobs { return Some(CommitFailed); }
      if deleteConflict { return Some(DeletePathConflict); }
      if env.treeAndCommit.NotDone? { return Some(CommitFailed); }
      commits := commits[env.newCommit := Commit(BuiltTree(commits[base].tree, changes, env.clashTree), [base])];
      if env.treeAndCommit.Unseen? { return Some(CommitFailed); }
      return None;
    }

    method CreateRef(branch: string, sha: Sha, outcome: Outcome) returns (e: Option<ApplyError>, created: bool)
      modifies this`branches
      ensures created <==> branch !in old(branches) && !outcome.NotDone?
      ensures branches == if created then old(branches)[branch := sha] else old(branches)
      ensures e.None? <==> branch !in old(branches) && outcome.Seen?
      ensures e.Some? ==> e.value == if branch in old(branches) && !outcome.NotDone? then BranchExists else BranchFailed
    {
      if outcome.NotDone? { return Some(BranchFailed), false; }
      if branch in branches { return Some(BranchExists), false; }
      branches := branches[branch := sha];
      return if outcome.Seen? then None else Some(BranchFailed), true;
    }

    method ReadRef(branch: string, works: bool) returns (sha: Option<Sha>)
      ensures sha.Some? <==> works && branch in branches
      ensures sha.Some? ==> sha.value == branches[branch]
    {
      sha := if works && branch in branches then Some(branches[branch]) else None;
    }

    /** Deleting a branch that is already gone also counts as cleaned. */
    method CleanupBranch(branch: string, outcome: Outcome) returns (cleaned: bool)
      modifies this`branches
      ensures cleaned <==> outcome.Seen?
      ensures branches == if outcome.NotDone? then old(branches) else old(branches) - {branch}
    {
      if !outcome.NotDone? { branches := branches - {branch}; }
      cleaned := outcome.Seen?;
    }
  }

  /** The outputs of a good result: exactly the planned writes. */
  method SandboxOutputs(actions: seq<PlannerAction>, driver: M.Driver, result: Option<M.SandboxResult>, hash: A.Digest)
    returns (r: Option<seq<A.Artifact>>)
    requires R.DistinctPaths(actions)
    ensures r.Some? <==> M.GoodResult(actions, result, hash) && M.FromDriver(driver, result.value)
    ensures r.Some? ==> result.Some? && result.value.outputs == r
  {
    if result.None? { return None; }
    if result.value.driverId != driver.id || result.value.isolation != driver.isolation || result.value.durationMs < 0 { return None; }
    if result.value.outputBytes > M.MAX_OUTPUT_BYTES { return None; }
    var files := if result.value.outputs.Some? then result.value.outputs.value else [];
    var normalized := A.NormalizeSandboxFileArtifacts(files, M.MAX_ARTIFACT_BYTES, Some(M.WritePaths(actions)), hash);
    if normalized.Err? { return None; }
    var verified := M.VerifyFullApplySandboxOutputs(actions, result.value);
    if verified.Err? { return None; }
    return Some(verified.value);
  }

  function SeedTree(seedBlob: string): Tree {
    map[L.SEED_PATH := Entry("100644", seedBlob)]
  }

  // ---- What the environment lets a call do, as functions of its inputs ----

  predicate SeedMade(env: Environment) {
    env.seedBefore == Head(None) && !env.seedPut.NotDone?
  }

  /** The seed the call learns of, even when it then fails. */
  function SeedReport(env: Environment): Option<Sha> {
    if env.seedBefore != Head(None) || !env.seedPut.Seen? then None
    else if env.seedReadable then Some(env.seedSha)
    else if env.seedFallback.Head? then env.seedFallback.head
    else None
  }

  /** The seed passes every check: a root commit and the head. */
  predicate SeedHolds(env: Environment) {
    env.seedBefore == Head(None) && env.seedPut.Seen? && env.seedReadable && env.seedLookup && env.seedParents == [] &&
    env.seedAfter == Head(Some(env.seedSha))
  }

  /** The seed commit exists but the call did not learn of it. */
  predicate SeedLost(env: Environment) {
    SeedMade(env) && SeedReport(env).None?
  }

  function WithSeed(commits: map<Sha, Commit>, env: Environment, seedBlob: string): map<Sha, Commit> {
    if SeedMade(env) then commits[env.seedSha := Commit(SeedTree(seedBlob), env.seedParents)] else commits
  }

  /** The commit to build on: the seed of an empty repository, or the head the plan expects. */
  function BaseOf(expectedHead: Option<Sha>, env: Environment): Option<Sha> {
    if expectedHead.None? then if SeedHolds(env) then Some(env.seedSha) else None
    else if env.beforeCommit == Head(expectedHead) then expectedHead
    else None
  }

  predicate SeedPathProduced(expectedHead: Option<Sha>, outputs: seq<A.Artifact>) {
    expectedHead.None? && L.SEED_PATH in A.Paths(outputs)
  }

  predicate CommitMade(expectedHead: Option<Sha>, commits: map<Sha, Commit>, outputs: seq<A.Artifact>, env: Environment) {
    BaseOf(expectedHead, env).Some? && env.baseLookup && (expectedHead.Some? ==> expectedHead.value in commits) &&
    env.blobs && !SeedPathProduced(expectedHead, outputs) && env.treeAndCommit.Seen?
  }

  /** What the call finds. */
  datatype World = World(expectedHead: Option<Sha>, branches: map<string, Sha>, commits: map<Sha, Commit>)

  predicate GoodRun(input: ApplyInput, env: Environment, hash: A.Digest) {
    env.materialized && M.GoodResult(input.payload.actions, env.sandbox, hash) && M.FromDriver(env.driver, env.sandbox.value)
  }

  predicate ReachesPublish(w: World, input: ApplyInput, env: Environment, hash: A.Digest) {
    GoodRun(input, env, hash) && CommitMade(w.expectedHead, w.commits, env.sandbox.value.outputs.value, env)
  }

  predicate BranchMade(branches: map<string, Sha>, branch: string, base: Option<Sha>, env: Environment) {
    env.beforeBranch == Head(base) && branch !in branches && !env.createRef.NotDone?
  }

  predicate CreationSeen(env: Environment) {
    env.createRef.Seen? && env.readRef
  }

  /** The default branch was seen to have moved after the branch was verified. */
  predicate Moved(base: Option<Sha>, env: Environment) {
    env.afterBranch.Head? && env.afterBranch != Head(base)
  }

  predicate BranchVerified(w: World, input: ApplyInput, env: Environment, hash: A.Digest) {
    ReachesPublish(w, input, env, hash) && BranchMade(w.branches, input.branch, BaseOf(w.expectedHead, env), env) &&
    CreationSeen(env)
  }

  /** The branch was created and nothing that follows knows of it. */
  predicate BranchLeft(w: World, input: ApplyInput, env: Environment, hash: A.Digest) {
    ReachesPublish(w, input, env, hash) && BranchMade(w.branches, input.branch, BaseOf(w.expectedHead, env), env) &&
    !CreationSeen(env)
  }

  /** What the source's `branchCreated` says when the try block is left. */
  predicate MayRemain(w: World, input: ApplyInput, env: Environment, hash: A.Digest) {
    BranchVerified(w, input, env, hash) && !(Moved(BaseOf(w.expectedHead, env), env) && env.earlyCleanup.Seen?)
  }

  predicate Succeeds(w: World, input: ApplyInput, env: Environment, hash: A.Digest) {
    BranchVerified(w, input, env, hash) && env.afterBranch == Head(BaseOf(w.expectedHead, env))
  }

  /** The record: refused by the database, or by a reply another plan stored under the key. */
  predicate Records(w: World, input: ApplyInput, env: Environment, hash: A.Digest) {
    Succeeds(w, input, env, hash) && env.rival.None? && env.completeWorks
  }

  function SeedKnown(w: World, input: ApplyInput, env: Environment, hash: A.Digest): Option<Sha> {
    if w.expectedHead.None? && GoodRun(input, env, hash) then SeedReport(env) else None
  }

  predicate SeedThere(w: World, input: ApplyInput, env: Environment, hash: A.Digest) {
    w.expectedHead.None? && GoodRun(input, env, hash) && SeedMade(env)
  }

  predicate SeedLeft(w: World, input: ApplyInput, env: Environment, hash: A.Digest) {
    w.expectedHead.None? && GoodRun(input, env, hash) && SeedLost(env)
  }

  function WithBranch(w: World, input: ApplyInput, env: Environment): map<string, Sha> {
    w.branches[input.branch := env.newCommit]
  }

  /** The branches when the try block is left. */
  function BranchesTried(w: World, input: ApplyInput, env: Environment, hash: A.Digest): map<string, Sha> {
    if BranchLeft(w, input, env, hash) then WithBranch(w, input, env)
    else if !BranchVerified(w, input, env, hash) then w.branches
    else if Moved(BaseOf(w.expectedHead, env), env) && !env.earlyCleanup.NotDone? then w.branches
    else WithBranch(w, input, env)
  }

  /** The branches when the call ends. */
  function BranchesAfter(w: World, input: ApplyInput, env: Environment, hash: A.Digest): map<string, Sha> {
    if MayRemain(w, input, env, hash) && !Records(w, input, env, hash) && !env.cleanup.NotDone? then w.branches
    else BranchesTried(w, input, env, hash)
  }

  /** The branch is still believed to be there after the cleanup. */
  predicate Remains(w: World, input: ApplyInput, env: Environment, hash: A.Digest) {
    MayRemain(w, input, env, hash) && !env.cleanup.Seen?
  }

  /** The commit a branch made by this call points at, as far as the call learns of it. */
  function CommitKnown(w: World, input: ApplyInput, env: Environment, hash: A.Digest): Option<Sha> {
    if ReachesPublish(w, input, env, hash) then Some(env.newCommit) else None
  }

  // ---- The error a failing step answers with ----

  predicate CommitFails(expectedHead: Option<Sha>, commits: map<Sha, Commit>, outputs: seq<A.Artifact>, env: Environment, e: ApplyError) {
    var base := BaseOf(expectedHead, env);
    var found := base.Some? && env.baseLookup && (expectedHead.Some? ==> expectedHead.value in commits) && env.blobs;
    match e
    case SeedFailed => expectedHead.None? && base.None?
    case TargetHeadChanged => expectedHead.Some? && base.None?
    case DeletePathConflict => found && SeedPathProduced(expectedHead, outputs)
    case CommitFailed => base.Some? && if found then !SeedPathProduced(expectedHead, outputs) && !env.treeAndCommit.Seen? else true
    case _ => false
  }

  predicate PublishFails(branches: map<string, Sha>, branch: string, base: Option<Sha>, env: Environment, e: ApplyError) {
    var still := env.beforeBranch == Head(base);
    match e
    case TargetHeadChanged => !still || (BranchMade(branches, branch, base, env) && CreationSeen(env) && env.afterBranch != Head(base))
    case BranchExists => still && branch in branches && !env.createRef.NotDone?
    case BranchFailed => still && if env.createRef.NotDone? then true else branch !in branches && !CreationSeen(env)
    case _ => false
  }

  predicate TryFails(w: World, input: ApplyInput, env: Environment, hash: A.Digest, e: ApplyError) {
    if !GoodRun(input, env, hash) then e.SandboxFailed?
    else if !CommitMade(w.expectedHead, w.commits, env.sandbox.value.outputs.value, env) then
      CommitFails(w.expectedHead, w.commits, env.sandbox.value.outputs.value, env, e)
    else PublishFails(w.branches, input.branch, BaseOf(w.expectedHead, env), env, e)
  }

  /** What a started call that records nothing answers: that something needs recovery when it flags it, and
      otherwise the error of the step that failed. */
  predicate FailedWith(w: World, input: ApplyInput, env: Environment, hash: A.Digest, e: ApplyError) {
    if SeedKnown(w, input, env, hash).Some? then e.InitializationRecoveryRequired?
    else if Remains(w, input, env, hash) then e.ApplyRecoveryRequired?
    else if !Succeeds(w, input, env, hash) then TryFails(w, input, env, hash, e)
    else if !env.completeWorks then e.DatabaseFailed?
    else e == Lease(L.DuplicateKey)
  }

  function Leased(s: L.Store, input: ApplyInput, env: Environment): L.Store {
    L.Begin(s, input.key, input.operationId, env.now).0
  }

  function WithRival(s: L.Store, key: string, rival: Option<L.Reply>): L.Store {
    if rival.None? || key in s.replies then s else s.(replies := s.replies[key := rival.value])
  }

  function Receipt(env: Environment, receiptOf: M.SandboxResult -> string): string {
    if env.sandbox.Some? then receiptOf(env.sandbox.value) else ""
  }

  /** What compensation makes of the row. */
  function CompensatedStore(s: L.Store, w: World, input: ApplyInput, env: Environment, hash: A.Digest): L.Store {
    var seed, left := SeedKnown(w, input, env, hash), Remains(w, input, env, hash);
    if seed.Some? then
      if !env.markWorks then s
      else L.RecoverSeed(s, input.operationId, seed.value, if left then Some(input.branch) else None,
                         if left then Some(env.newCommit) else None)
    else if left then if env.markWorks then L.Recover(s, input.operationId, input.branch, env.newCommit) else s
    else if env.resetWorks then L.Reset(s, input.operationId) else s
  }

  /** The ledger when a started call ends. */
  function StoreAfter(s: L.Store, w: World, input: ApplyInput, env: Environment, hash: A.Digest,
                      receiptOf: M.SandboxResult -> string): L.Store
  {
    var held := WithRival(Leased(s, input, env), input.key, env.rival);
    if Records(w, input, env, hash) then
      L.Complete(held, input.operationId, input.key, input.branch, env.newCommit, Receipt(env, receiptOf),
                 SeedKnown(w, input, env, hash)).0
    else CompensatedStore(held, w, input, env, hash)
  }

  // ---- The apply ----

  /** Initialises an empty repository. */
  method InitializeEmptyRepositorySeed(host: Host, env: Environment, seedBlob: string)
    returns (seed: Option<Sha>, reported: Option<Sha>)
    modifies host`defaultHead, host`commits
    ensures seed == if SeedHolds(env) then Some(env.seedSha) else None
    ensures reported == SeedReport(env) && (seed.Some? ==> host.defaultHead == seed)
    ensures host.commits == WithSeed(old(host.commits), env, seedBlob)
  {
    var before := host.Look(env.seedBefore);
    if before != Some(None) { return None, None; }
    var created := host.PutSeed(env.seedPut, env.seedSha, SeedTree(seedBlob), env.seedParents);
    if !created { return None, None; }
    if !env.seedReadable {
      var observed := host.Look(env.seedFallback);
      return None, if observed.Some? then observed.value else None;
    }
    reported := Some(env.seedSha);
    if !env.seedLookup || env.seedParents != [] { return None, reported; }
    var after := host.Look(env.seedAfter);
    if after != Some(Some(env.seedSha)) { return None, reported; }
    return reported, reported;
  }

  predicate IsEmptyBootstrap(p: Payload) {
    p.mode.BootstrapEmpty?
  }

  /** The contract guards before the lease. */
  function Refusal(input: ApplyInput, expectedHead: Option<Sha>): Option<ApplyError> {
    var p := input.payload;
    if !p.conflictFree || p.implementation.ConflictResolutionRequired? then Some(ApplyError.ConflictResolutionRequired)
    else if p.implementation.NoChanges? then Some(ApplyError.NoChanges)
    else if IsEmptyBootstrap(p) then
      if !input.confirmed then Some(ConfirmationRequired)
      else if expectedHead.Some? || p.target.headSha.Some? || !p.safeToApply || !p.implementation.GuardedEmptyRepositoryV1? then
        Some(EmptyContractMismatch)
      else None
    else if expectedHead.None? || !p.safeToApply || !p.implementation.SandboxFullPlanV1? then Some(ContractMismatch)
    else None
  }

  function Changes(payload: Payload, outputs: seq<A.Artifact>, blobId: M.BlobId): seq<M.Change> {
    M.ChangesOf(outputs, blobId) +
    (if IsEmptyBootstrap(payload) then [M.Change(L.SEED_PATH, "100644", None)] else [])
  }

  /** The commit's one parent is the expected base, for an empty repository the seed's root commit, and its tree
      is built from the base's with the verified outputs laid over it. */
  predicate CommittedAsPlanned(input: ApplyInput, expectedHead: Option<Sha>, commits: map<Sha, Commit>, env: Environment,
                               base: Sha, head: Sha, seed: Option<Sha>, hash: A.Digest, blobId: M.BlobId, seedBlob: string)
  {
    M.GoodResult(input.payload.actions, env.sandbox, hash) &&
    (if IsEmptyBootstrap(input.payload) then seed == Some(base) else seed.None? && expectedHead == Some(base)) &&
    base in commits && head in commits &&
    (IsEmptyBootstrap(input.payload) ==>
      commits[base] == Commit(SeedTree(seedBlob), []) && L.SEED_PATH !in A.Paths(env.sandbox.value.outputs.value)) &&
    commits[head] == Commit(
      BuiltTree(commits[base].tree, Changes(input.payload, env.sandbox.value.outputs.value, blobId), env.clashTree), [base])
  }

  /** `applied` is the branch verified at such a commit while the default branch was still at the base,
      recorded with the receipt of that sandbox run. */
  predicate AppliedAsPlanned(input: ApplyInput, expectedHead: Option<Sha>, branches: map<string, Sha>,
                             commits: map<Sha, Commit>, defaultHead: Option<Sha>, env: Environment, applied: AppliedPlan,
                             hash: A.Digest, blobId: M.BlobId, seedBlob: string, receiptOf: M.SandboxResult -> string)
  {
    applied.branch == input.branch && Lookup(branches, applied.branch) == Some(applied.head) &&
    CommittedAsPlanned(input, expectedHead, commits, env, applied.base, applied.head, applied.seed, hash, blobId, seedBlob) &&
    applied.receipt == receiptOf(env.sandbox.value) &&
    defaultHead == Some(applied.base)
  }

  function Lookup(m: map<string, Sha>, k: string): Option<Sha> {
    if k in m then Some(m[k]) else None
  }

  method EstablishBase(host: Host, expectedHead: Option<Sha>, env: Environment, seedBlob: string)
    returns (base: Option<Sha>, seed: Option<Sha>)
    modifies host`defaultHead, host`commits
    ensures base == BaseOf(expectedHead, env)
    ensures seed == if expectedHead.None? then SeedReport(env) else None
    ensures host.commits == if expectedHead.None? then WithSeed(old(host.commits), env, seedBlob) else old(host.commits)
  {
    if expectedHead.None? {
      base, seed := InitializeEmptyRepositorySeed(host, env, seedBlob);
    } else {
      var beforeCommit := host.Look(env.beforeCommit);
      base, seed := if beforeCommit == Some(expectedHead) then expectedHead else None, None;
    }
  }

  /** Everything before the branch, once the sandbox has answered. */
  method MakeCommit(host: Host, expectedHead: Option<Sha>, outputs: seq<A.Artifact>, changes: seq<M.Change>, env: Environment,
                    seedBlob: string)
    returns (e: Option<ApplyError>, base: Option<Sha>, seed: Option<Sha>)
    requires env.newCommit !in host.commits && env.seedSha !in host.commits && env.newCommit != env.seedSha
    modifies host`defaultHead, host`commits
    ensures base == BaseOf(expectedHead, env)
    ensures seed == if expectedHead.None? then SeedReport(env) else None
    ensures e.None? <==> CommitMade(expectedHead, old(host.commits), outputs, env)
    ensures e.Some? ==> CommitFails(expectedHead, old(host.commits), outputs, env, e.value)
    ensures env.seedSha in host.commits <==> expectedHead.None? && SeedMade(env)
    ensures e.None? ==> base.value in host.commits && env.newCommit in host.commits
    ensures e.None? && expectedHead.None? ==> host.commits[base.value] == Commit(SeedTree(seedBlob), [])
    ensures e.None? ==>
      host.commits[env.newCommit] == Commit(BuiltTree(host.commits[base.value].tree, changes, env.clashTree), [base.value])
  {
    base, seed := EstablishBase(host, expectedHead, env, seedBlob);
    if base.None? { return Some(if expectedHead.None? then SeedFailed else TargetHeadChanged), base, seed; }
    e := host.CreateCommit(base.value, changes, SeedPathProduced(expectedHead, outputs), env);
  }

  /** Branch, verification and the last look at the default branch. */
  method PublishBranch(host: Host, branch: string, base: Sha, commit: Sha, env: Environment)
    returns (e: Option<ApplyError>, mayRemain: bool)
    modifies host`defaultHead, host`branches
    ensures var made, seen, gone := BranchMade(old(host.branches), branch, Some(base), env), CreationSeen(env), Moved(Some(base), env);
      (e.None? <==> made && seen && env.afterBranch == Head(Some(base))) &&
      (mayRemain <==> made && seen && !(gone && env.earlyCleanup.Seen?)) &&
      host.branches == (if made && !(seen && gone && !env.earlyCleanup.NotDone?) then old(host.branches)[branch := commit]
                        else old(host.branches))
    ensures e.None? ==> host.defaultHead == Some(base)
    ensures e.Some? ==> PublishFails(old(host.branches), branch, Some(base), env, e.value)
  {
    mayRemain := false;
    ghost var before := host.branches;
    var beforeBranch := host.Look(env.beforeBranch);
    if beforeBranch != Some(Some(base)) { return Some(TargetHeadChanged), mayRemain; }
    var created;
    e, created := host.CreateRef(branch, commit, env.createRef);
    if e.Some? { return e, mayRemain; }
    var read := host.ReadRef(branch, env.readRef);
    if read != Some(commit) { return Some(BranchFailed), mayRemain; }
    mayRemain := true;
    var afterBranch := host.Look(env.afterBranch);
    if afterBranch.None? { return Some(TargetHeadChanged), mayRemain; }
    if afterBranch != Some(Some(base)) {
      var cleaned := host.CleanupBranch(branch, env.earlyCleanup);
      assert before[branch := commit] - {branch} == before;
      mayRemain := !cleaned;
      return Some(TargetHeadChanged), mayRemain;
    }
    e := None;
  }

  /** The try block up to the ledger record. */
  method TryApply(host: Host, input: ApplyInput, expectedHead: Option<Sha>, env: Environment, hash: A.Digest,
                  blobId: M.BlobId, seedBlob: string, receiptOf: M.SandboxResult -> string)
    returns (r: Result<AppliedPlan, ApplyError>, mayRemain: bool, commit: Option<Sha>, seed: Option<Sha>)
    requires R.DistinctPaths(input.payload.actions)
    requires env.newCommit !in host.commits && env.seedSha !in host.commits && env.newCommit != env.seedSha
    requires IsEmptyBootstrap(input.payload) <==> expectedHead.None?
    modifies host
    ensures var w := World(expectedHead, old(host.branches), old(host.commits));
      commit == CommitKnown(w, input, env, hash) && seed == SeedKnown(w, input, env, hash) &&
      (mayRemain <==> MayRemain(w, input, env, hash)) && (r.Ok? <==> Succeeds(w, input, env, hash)) &&
      host.branches == BranchesTried(w, input, env, hash) &&
      (env.seedSha in host.commits <==> SeedThere(w, input, env, hash))
    ensures r.Err? ==> TryFails(World(expectedHead, old(host.branches), old(host.commits)), input, env, hash, r.error)
    ensures r.Ok? ==> r.value == AppliedPlan(input.branch, env.newCommit, r.value.base, seed, receiptOf(env.sandbox.value))
    ensures r.Ok? ==> AppliedAsPlanned(input, expectedHead, host.branches, host.commits, host.defaultHead, env, r.value,
                                       hash, blobId, seedBlob, receiptOf)
  {
    hide M.GoodResult;
    hide BuiltTree;
    mayRemain, commit, seed := false, None, None;
    if !env.materialized { return Err(SandboxFailed), mayRemain, commit, seed; }
    var outputs := SandboxOutputs(input.payload.actions, env.driver, env.sandbox, hash);
    if outputs.None? { return Err(SandboxFailed), mayRemain, commit, seed; }
    var failed, base;
    failed, base, seed := MakeCommit(host, expectedHead, outputs.value, Changes(input.payload, outputs.value, blobId), env, seedBlob);
    if failed.Some? { return Err(failed.value), mayRemain, commit, seed; }
    commit := Some(env.newCommit);
    failed, mayRemain := PublishBranch(host, input.branch, base.value, env.newCommit, env);
    if failed.Some? { return Err(failed.value), mayRemain, commit, seed; }
    r := Ok(AppliedPlan(input.branch, env.newCommit, base.value, seed, receiptOf(env.sandbox.value)));
  }

  /** The catch block: clean up, then flag or give back. */
  method Compensate(store: L.PlanStore, host: Host, input: ApplyInput, env: Environment, mayRemain: bool,
                    commit: Option<Sha>, seed: Option<Sha>, ghost w: World, ghost hash: A.Digest)
    returns (e: Option<ApplyError>)
    requires commit == CommitKnown(w, input, env, hash) && seed == SeedKnown(w, input, env, hash)
    requires mayRemain <==> MayRemain(w, input, env, hash)
    requires host.branches == BranchesTried(w, input, env, hash) && !Records(w, input, env, hash)
    modifies store, host`branches
    ensures store.Snapshot() == CompensatedStore(old(store.Snapshot()), w, input, env, hash)
    ensures host.branches == BranchesAfter(w, input, env, hash)
    ensures e == (if SeedKnown(w, input, env, hash).Some? then Some(InitializationRecoveryRequired)
                  else if Remains(w, input, env, hash) then Some(ApplyError.ApplyRecoveryRequired) else None)
  {
    var remains := mayRemain;
    if remains {
      var cleaned := host.CleanupBranch(input.branch, env.cleanup);
      assert WithBranch(w, input, env) - {input.branch} == w.branches && w.branches - {input.branch} == w.branches;
      remains := !cleaned;
    }
    if seed.Some? {
      if env.markWorks {
        store.MarkInitializationRecoveryRequired(
          input.operationId, seed.value, if remains then Some(input.branch) else None, if remains then commit else None);
      }
      return Some(InitializationRecoveryRequired);
    }
    if remains {
      if env.markWorks { store.MarkRecoveryRequired(input.operationId, input.branch, commit.value); }
      return Some(ApplyError.ApplyRecoveryRequired);
    }
    if env.resetWorks { store.ResetApplyLease(input.operationId); }
    return None;
  }

  /** The lease was taken and the try block entered. */
  predicate Started(before: L.Store, input: ApplyInput, env: Environment) {
    before.row.mode == L.FullPlan(input.payload.mode) &&
    R.ValidStored(input.payload) && Refusal(input, before.row.expectedHead).None? &&
    before.row.status.Planned? && input.key !in before.replies &&
    env.atStart == Head(before.row.expectedHead) && input.payload.target.headSha == before.row.expectedHead &&
    env.releaseMatches && env.beginWorks
  }

  // ---- What a call answers without starting ----

  /** A full plan whose row is still to be applied, loaded with the payload it was stored with. */
  predicate Unapplied(row: L.Row, input: ApplyInput) {
    row.mode == L.FullPlan(input.payload.mode) && !L.IsApplied(row.status)
  }

  /** What the contract asks of the plan: no conflict, something to write, and the implementation of its
      mode; of a plan for an empty repository also the confirmation and that no head was ever expected. */
  predicate Permitted(row: L.Row, input: ApplyInput) {
    var p := input.payload;
    p.conflictFree && p.safeToApply &&
    if p.mode.BootstrapEmpty? then
      input.confirmed && row.expectedHead.None? && p.target.headSha.None? && p.implementation.GuardedEmptyRepositoryV1?
    else row.expectedHead.Some? && p.implementation.SandboxFullPlanV1?
  }

  /** Head and release are still the planned ones. */
  predicate StillPlanned(row: L.Row, input: ApplyInput, env: Environment) {
    env.atStart == Head(row.expectedHead) && input.payload.target.headSha == row.expectedHead && env.releaseMatches
  }

  predicate ReachesLease(row: L.Row, input: ApplyInput, env: Environment) {
    Unapplied(row, input) && R.ValidStored(input.payload) && Permitted(row, input) && StillPlanned(row, input, env) && env.beginWorks
  }

  /** The key's stored reply is one of this plan's full apply. */
  predicate HasReply(before: L.Store, key: string) {
    key in before.replies && before.replies[key].planId == before.planId && before.replies[key].operation.FullApply?
  }

  /** The call is answered with what an earlier one recorded. */
  predicate AnsweredEarlier(before: L.Store, input: ApplyInput, env: Environment) {
    before.row.mode == L.FullPlan(input.payload.mode) &&
    (L.IsApplied(before.row.status) || (ReachesLease(before.row, input, env) && HasReply(before, input.key)))
  }

  /** Exactly when each guard before the try block refuses. */
  predicate RefusedWith(before: L.Store, input: ApplyInput, env: Environment, e: ApplyError) {
    var row, p := before.row, input.payload;
    var loaded := Unapplied(row, input) && R.ValidStored(p);
    var writes := loaded && p.conflictFree && !p.implementation.ConflictResolutionRequired? && !p.implementation.NoChanges?;
    var permitted := loaded && Permitted(row, input);
    var headHeld := env.atStart == Head(row.expectedHead) && p.target.headSha == row.expectedHead;
    match e
    case HandedToBoundedApply => row.mode.BoundedChange?
    case PayloadInvalid => row.mode.FullPlan? && row.mode.mode != p.mode
    case StoredPlanInvalid => Unapplied(row, input) && !R.ValidStored(p)
    case ConflictResolutionRequired => loaded && (!p.conflictFree || p.implementation.ConflictResolutionRequired?)
    case NoChanges => loaded && p.conflictFree && p.implementation.NoChanges?
    case ConfirmationRequired => writes && p.mode.BootstrapEmpty? && !input.confirmed
    case EmptyContractMismatch => writes && p.mode.BootstrapEmpty? && input.confirmed && !Permitted(row, input)
    case ContractMismatch => writes && !p.mode.BootstrapEmpty? && !Permitted(row, input)
    case TargetHeadChanged => permitted && !headHeld
    case ReleaseChanged => permitted && headHeld && !env.releaseMatches
    case DatabaseFailed => permitted && StillPlanned(row, input, env) && !env.beginWorks
    case Lease(cause) => ReachesLease(row, input, env) && LeaseRefusedWith(before, input.key, env.now, cause)
    case _ => false
  }

  predicate LeaseRefusedWith(before: L.Store, key: string, now: nat, cause: L.LedgerError) {
    var runs := before.row.leaseExpires.Some? && before.row.leaseExpires.value > now;
    match cause
    case IdempotencyKeyConflict => key in before.replies && !HasReply(before, key)
    case ApplyInProgress => key !in before.replies && before.row.status.Applying? && runs
    case ApplyRecoveryNeeded => key !in before.replies && before.row.status.Applying? && !runs
    case NotApplicable => key !in before.replies && before.row.status.ApplyRecoveryRequired?
    case _ => false
  }

  /** The answer of a call that is not started: the recorded branch and head, of the row once it is applied
      and before that of the key's reply, or the error of the guard that refused. */
  predicate AnswersEarly(before: L.Store, input: ApplyInput, env: Environment, r: Result<ApplyReply, ApplyError>) {
    match r
    case Ok(reply) =>
      AnsweredEarlier(before, input, env) &&
      reply == if L.IsApplied(before.row.status) then Earlier(before.row.branch, before.row.head)
               else Earlier(before.replies[input.key].branch, before.replies[input.key].head)
    case Err(e) => RefusedWith(before, input, env, e)
  }

  /** The contract guards let through exactly the permitted plans, and refuse with the first that fails. */
  lemma RefusalExactly(before: L.Store, input: ApplyInput, env: Environment)
    ensures Refusal(input, before.row.expectedHead).None? <==> Permitted(before.row, input)
    ensures Unapplied(before.row, input) && R.ValidStored(input.payload) && !Permitted(before.row, input) ==>
      RefusedWith(before, input, env, Refusal(input, before.row.expectedHead).value)
  {
    hide R.ValidStored;
  }

  /** A call is started, answered or refused, exactly one of them, and refused with exactly one error. */
  lemma EntryIsDetermined(before: L.Store, input: ApplyInput, env: Environment, r: Result<ApplyReply, ApplyError>, q: Result<ApplyReply, ApplyError>)
    requires AnswersEarly(before, input, env, r) && AnswersEarly(before, input, env, q)
    ensures r == q && !Started(before, input, env)
  {
    hide R.ValidStored;
    RefusalExactly(before, input, env);
    hide Refusal;
  }

  /** The call from the lease on: try, record, and otherwise compensate. */
  method ApplyLeased(store: L.PlanStore, host: Host, input: ApplyInput, env: Environment, hash: A.Digest,
                     blobId: M.BlobId, seedBlob: string, receiptOf: M.SandboxResult -> string, ghost before: L.Store)
    returns (r: Result<ApplyReply, ApplyError>)
    requires R.DistinctPaths(input.payload.actions) && (IsEmptyBootstrap(input.payload) <==> store.expectedHead.None?)
    requires env.newCommit !in host.commits && env.seedSha !in host.commits && env.newCommit != env.seedSha
    requires store.Snapshot() == Leased(before, input, env) && L.Owns(store.Snapshot().row, input.operationId)
    requires input.key !in store.replies
    modifies store, host
    ensures var w := World(store.expectedHead, old(host.branches), old(host.commits));
      store.Snapshot() == StoreAfter(before, w, input, env, hash, receiptOf) &&
      host.branches == BranchesAfter(w, input, env, hash) &&
      (env.seedSha in host.commits <==> SeedThere(w, input, env, hash)) &&
      (r.Ok? <==> Records(w, input, env, hash)) &&
      (r.Err? ==> FailedWith(w, input, env, hash, r.error))
    ensures r.Ok? ==>
      r.value.Fresh? &&
      AppliedAsPlanned(input, store.expectedHead, host.branches, host.commits, host.defaultHead, env, r.value.plan,
                       hash, blobId, seedBlob, receiptOf)
  {
    hide AppliedAsPlanned;
    hide Leased;
    hide MayRemain;
    hide BranchesTried;
    hide CompensatedStore;
    hide SeedThere;
    hide CommitKnown;
    ghost var w := World(store.expectedHead, host.branches, host.commits);
    var tried, mayRemain, commit, seed := TryApply(host, input, store.expectedHead, env, hash, blobId, seedBlob, receiptOf);
    if env.rival.Some? { store.RecordElsewhere(input.key, env.rival.value); }
    ghost var held := store.Snapshot();
    assert held == WithRival(Leased(before, input, env), input.key, env.rival);
    var failure: ApplyError;
    if tried.Ok? && env.completeWorks {
      var plan := tried.value;
      var e := store.CompleteApply(input.operationId, input.key, plan.branch, plan.head, plan.receipt, plan.seed);
      if e.None? {
        RecordedBranches(w, input, env, hash);
        return Ok(Fresh(plan));
      }
      failure := Lease(e.value);
    } else {
      failure := if tried.Err? then tried.error else DatabaseFailed;
    }
    assert store.Snapshot() == held && !Records(w, input, env, hash);
    var flagged := Compensate(store, host, input, env, mayRemain, commit, seed, w, hash);
    r := Err(if flagged.Some? then flagged.value else failure);
  }

  lemma RecordedBranches(w: World, input: ApplyInput, env: Environment, hash: A.Digest)
    requires Records(w, input, env, hash)
    ensures BranchesAfter(w, input, env, hash) == BranchesTried(w, input, env, hash) && env.sandbox.Some?
  {
  }

  /** Takes the lease and, when it was not already taken or applied, performs the plan. A call that was not
      started changes nothing. The ledger and the branches a started one leaves are those the functions of
      its inputs say, whatever failed; it answers with a plan exactly when it recorded one, and that plan
      was applied as planned. */
  method ApplyGithubSupervisorPlan(store: L.PlanStore, host: Host, input: ApplyInput, env: Environment, hash: A.Digest,
                                   blobId: M.BlobId, seedBlob: string, receiptOf: M.SandboxResult -> string)
    returns (r: Result<ApplyReply, ApplyError>)
    requires env.newCommit !in host.commits && env.seedSha !in host.commits && env.newCommit != env.seedSha
    modifies store, host
    ensures !Started(old(store.Snapshot()), input, env) ==>
      store.Snapshot() == old(store.Snapshot()) && host.branches == old(host.branches) && host.commits == old(host.commits) &&
      AnswersEarly(old(store.Snapshot()), input, env, r)
    ensures Started(old(store.Snapshot()), input, env) ==>
      var w := World(store.expectedHead, old(host.branches), old(host.commits));
      store.Snapshot() == StoreAfter(old(store.Snapshot()), w, input, env, hash, receiptOf) &&
      host.branches == BranchesAfter(w, input, env, hash) &&
      (env.seedSha in host.commits <==> SeedThere(w, input, env, hash)) &&
      (r.Ok? <==> Records(w, input, env, hash)) &&
      (r.Err? ==> FailedWith(w, input, env, hash, r.error))
    ensures Started(old(store.Snapshot()), input, env) && r.Ok? ==>
      r.value.Fresh? &&
      AppliedAsPlanned(input, store.expectedHead, host.branches, host.commits, host.defaultHead, env, r.value.plan,
                       hash, blobId, seedBlob, receiptOf)
  {
    hide R.ValidStored;
    hide Refusal;
    hide AppliedAsPlanned;
    hide M.GoodResult;
    hide StoreAfter;
    hide BranchesAfter;
    hide SeedThere;
    hide Records;
    hide FailedWith;
    if store.mode.BoundedChange? { return Err(HandedToBoundedApply); }
    if store.mode.mode != input.payload.mode { return Err(PayloadInvalid); }
    if L.IsApplied(store.status) { return Ok(Earlier(store.branch, store.head)); }
    var stored := R.ValidateStoredFullPlannerPayload(input.payload);
    if !stored { return Err(StoredPlanInvalid); }
    R.StoredPathsDiffer(input.payload);
    var refusal := Refusal(input, store.expectedHead);
    RefusalExactly(store.Snapshot(), input, env);
    if refusal.Some? { return Err(refusal.value); }
    NotRefused(input, store.expectedHead);
    if env.atStart != Head(store.expectedHead) || input.payload.target.headSha != store.expectedHead {
      return Err(TargetHeadChanged);
    }
    if !env.releaseMatches { return Err(ReleaseChanged); }
    if !env.beginWorks { return Err(DatabaseFailed); }
    var lease := store.BeginApplyLease(input.key, input.operationId, env.now);
    if lease.Err? { return Err(Lease(lease.error)); }
    if lease.value.Some? { return Ok(Earlier(lease.value.value.branch, lease.value.value.head)); }
    r := ApplyLeased(store, host, input, env, hash, blobId, seedBlob, receiptOf, old(store.Snapshot()));
  }

  lemma NotRefused(input: ApplyInput, expectedHead: Option<Sha>)
    requires Refusal(input, expectedHead).None?
    ensures IsEmptyBootstrap(input.payload) <==> expectedHead.None?
  {
  }

  // ---- What the outcome means ----

  /** What each status a started apply can end in guarantees. */
  predicate Guarantees(row: L.Row, after: map<string, Sha>, w: World, input: ApplyInput, env: Environment, hash: A.Digest) {
    match row.status
    // Given back only when no verified branch and no reported seed is left.
    case Planned =>
      (BranchVerified(w, input, env, hash) ==> after == w.branches) && SeedKnown(w, input, env, hash).None? && row.operationId.None?
    // Still owned: the database refused the update that would have said more.
    case Applying => L.Owns(row, input.operationId) && (!env.resetWorks || !env.markWorks)
    // Flagged: with the reported seed, and with the branch and its commit unless it was seen to be gone.
    case ApplyRecoveryRequired =>
      (SeedKnown(w, input, env, hash).Some? ==>
        row.seedSha == SeedKnown(w, input, env, hash) && row.seedPath == Some(L.SEED_PATH)) &&
      (SeedKnown(w, input, env, hash).None? ==> row.branch == Some(input.branch)) &&
      (row.branch.Some? ==>
        row.branch == Some(input.branch) && row.head == Some(env.newCommit) && BranchVerified(w, input, env, hash)) &&
      (row.branch.None? && BranchVerified(w, input, env, hash) ==> after == w.branches)
    case Applied =>
      Records(w, input, env, hash) && row.branch == Some(input.branch) && row.head == Some(env.newCommit) &&
      row.seedSha == SeedKnown(w, input, env, hash) && Lookup(after, input.branch) == Some(env.newCommit)
    case _ => false
  }

  /** Something is left that the row must tell of: a reported seed, or a branch not seen to be gone. */
  predicate ToFlag(w: World, input: ApplyInput, env: Environment, hash: A.Digest) {
    SeedKnown(w, input, env, hash).Some? || Remains(w, input, env, hash)
  }

  /** Compensation is complete: for every sequence of failures a started apply ends in one of the four
      statuses with what that status guarantees. It is given back exactly when nothing was recorded, nothing
      is to be told of and the database took the reset, flagged exactly when something is and the database
      took the flag, and still applying exactly when the database refused the one of the two it needed. */
  lemma CompensationIsComplete(before: L.Store, w: World, input: ApplyInput, env: Environment, hash: A.Digest,
                               receiptOf: M.SandboxResult -> string)
    requires Started(before, input, env)
    ensures Guarantees(StoreAfter(before, w, input, env, hash, receiptOf).row, BranchesAfter(w, input, env, hash), w, input, env, hash)
    ensures StoreAfter(before, w, input, env, hash, receiptOf).row.status.Planned? <==>
      !Records(w, input, env, hash) && SeedKnown(w, input, env, hash).None? && !Remains(w, input, env, hash) && env.resetWorks
    ensures StoreAfter(before, w, input, env, hash, receiptOf).row.status.Applied? <==> Records(w, input, env, hash)
    ensures StoreAfter(before, w, input, env, hash, receiptOf).row.status.ApplyRecoveryRequired? <==>
      !Records(w, input, env, hash) && ToFlag(w, input, env, hash) && env.markWorks
    ensures StoreAfter(before, w, input, env, hash, receiptOf).row.status.Applying? <==>
      !Records(w, input, env, hash) && !(if ToFlag(w, input, env, hash) then env.markWorks else env.resetWorks)
  {
    hide ReachesPublish;
    hide SeedReport;
    hide R.ValidStored;
    hide Refusal;
  }

  /** What a plan given back can leave behind: its branch exactly when the branch was created but its
      creation was not seen to the end, and a seed exactly when the seed was made without a report. */
  lemma GivenBackLeaves(before: L.Store, w: World, input: ApplyInput, env: Environment, hash: A.Digest,
                        receiptOf: M.SandboxResult -> string)
    requires Started(before, input, env) && StoreAfter(before, w, input, env, hash, receiptOf).row.status.Planned?
    ensures BranchesAfter(w, input, env, hash) != w.branches <==> BranchLeft(w, input, env, hash)
    ensures SeedThere(w, input, env, hash) <==> SeedLeft(w, input, env, hash)
  {
    CompensationIsComplete(before, w, input, env, hash, receiptOf);
    hide ReachesPublish;
    hide Started;
    if BranchLeft(w, input, env, hash) {
      assert input.branch in WithBranch(w, input, env);
    }
  }

  /** A sandbox run, and everything up to it, that the apply accepts. */
  predicate Startable(before: L.Store, input: ApplyInput, run: M.SandboxResult, hash: A.Digest) {
    before.row.mode == L.FullPlan(input.payload.mode) &&
    R.ValidStored(input.payload) && Refusal(input, before.row.expectedHead).None? &&
    before.row.status.Planned? && input.key !in before.replies &&
    input.payload.target.headSha == before.row.expectedHead &&
    M.GoodResult(input.payload.actions, Some(run), hash) && M.FromDriver(M.Driver(run.driverId, run.isolation), run)
  }

  // ---- Later calls ----

  /** After any continuation of an applied plan a later full apply of it is not started and is answered with
      the recorded branch and head, whatever it asks for. */
  lemma LaterCallsAnswered(s: L.State, steps: seq<L.Step>, input: ApplyInput, env: Environment)
    requires L.Inv(s) && L.Possible(s, steps) && L.IsApplied(s.store.row.status)
    requires s.store.row.mode == L.FullPlan(input.payload.mode)
    ensures !Started(L.Exec(s, steps).store, input, env)
    ensures forall r :: AnswersEarly(L.Exec(s, steps).store, input, env, r) <==> r == Ok(Earlier(s.store.row.branch, s.store.row.head))
  {
    L.AppliedOnce(s, steps);
    hide L.Inv;
    hide R.ValidStored;
    hide Refusal;
  }

  /** Nothing fails, except as the parameters say. */
  function Fair(expectedHead: Option<Sha>, run: M.SandboxResult, seedSha: Sha, newCommit: Sha, seedPut: Outcome,
                createRef: Outcome): Environment
  {
    var base := if expectedHead.None? then Some(seedSha) else expectedHead;
    Environment(
      Head(expectedHead), true, true, M.Driver(run.driverId, run.isolation), Some(run),
      Head(None), seedPut, seedSha, [], true, NoAnswer, true, Head(Some(seedSha)),
      Head(expectedHead), true, true, Seen, newCommit, map[],
      Head(base), createRef, true, Head(base), Seen, Seen,
      true, None, true, true, true, 0)
  }

  /** It happens to every startable plan with a known base and a free branch: the reply to creating the
      branch gets lost, the plan is given back, and the branch stays. */
  lemma BranchCanBeLeft(before: L.Store, w: World, input: ApplyInput, run: M.SandboxResult, newCommit: Sha, hash: A.Digest,
                        receiptOf: M.SandboxResult -> string) returns (env: Environment)
    requires Startable(before, input, run, hash) && before.row.expectedHead == w.expectedHead
    requires w.expectedHead.Some? && w.expectedHead.value in w.commits && input.branch !in w.branches
    ensures Started(before, input, env) && BranchLeft(w, input, env, hash) && env.newCommit == newCommit
    ensures StoreAfter(before, w, input, env, hash, receiptOf).row.status.Planned?
    ensures BranchesAfter(w, input, env, hash) == w.branches[input.branch := newCommit] != w.branches
  {
    env := Fair(w.expectedHead, run, "", newCommit, Seen, Unseen);
    hide R.ValidStored;
    hide Refusal;
    hide M.GoodResult;
    CompensationIsComplete(before, w, input, env, hash, receiptOf);
    assert input.branch in w.branches[input.branch := newCommit];
  }

  /** It happens to every startable plan for an empty repository: the reply to creating the seed gets
      lost, the plan is given back, and the seed commit stays. */
  lemma SeedCanBeLost(before: L.Store, w: World, input: ApplyInput, run: M.SandboxResult, seedSha: Sha, hash: A.Digest,
                      receiptOf: M.SandboxResult -> string) returns (env: Environment)
    requires Startable(before, input, run, hash) && before.row.expectedHead == w.expectedHead && w.expectedHead.None?
    ensures Started(before, input, env) && SeedLeft(w, input, env, hash) && env.seedSha == seedSha
    ensures StoreAfter(before, w, input, env, hash, receiptOf).row.status.Planned? && SeedThere(w, input, env, hash)
  {
    env := Fair(w.expectedHead, run, seedSha, seedSha + "'", Unseen, Seen);
    hide R.ValidStored;
    hide Refusal;
    hide M.GoodResult;
    CompensationIsComplete(before, w, input, env, hash, receiptOf);
  }

  // ---- An apply is a run of the ledger ----

  /** The call's last transaction. */
  function LastStep(w: World, input: ApplyInput, env: Environment, hash: A.Digest, id: nat): L.Step {
    var seed, left := SeedKnown(w, input, env, hash), Remains(w, input, env, hash);
    if Records(w, input, env, hash) then L.FinishFull(id, input.key, input.branch, env.newCommit, env.sandbox.value, seed)
    else if seed.Some? then
      if env.markWorks then
        L.LeaveSeed(id, seed.value, if left then Some(input.branch) else None, if left then Some(env.newCommit) else None)
      else L.Vanish(id)
    else if left then if env.markWorks then L.LeaveBranch(id, input.branch, env.newCommit) else L.Vanish(id)
    else if env.resetWorks then L.GiveUp(id) else L.Vanish(id)
  }

  function LedgerSteps(w: World, input: ApplyInput, env: Environment, hash: A.Digest, id: nat): seq<L.Step> {
    [L.StartFull(id, input.key, input.operationId)] +
    (if env.rival.Some? then [L.OtherPlan(input.key, env.rival.value)] else []) +
    [LastStep(w, input, env, hash, id)]
  }

  /** What the ledger's state machine demands of a full apply is what a full apply does: from any state of
      the ledger a started call is an enabled start followed by an enabled end, with nothing but another
      plan's reply in between, and leaves the ledger those steps lead to. */
  lemma ApplyIsALedgerRun(s: L.State, w: World, input: ApplyInput, env: Environment, hash: A.Digest,
                          receiptOf: M.SandboxResult -> string, id: nat)
    requires Started(s.store, input, env) && s.store.row.expectedHead == w.expectedHead
    requires s.plan == L.Plan(input.payload.actions, hash, receiptOf) && s.now == env.now
    requires id !in s.calls && input.operationId !in s.usedOps
    requires env.rival.Some? ==> env.rival.value.planId != s.store.planId
    ensures L.Possible(s, LedgerSteps(w, input, env, hash, id))
    ensures L.Exec(s, LedgerSteps(w, input, env, hash, id)).store == StoreAfter(s.store, w, input, env, hash, receiptOf)
  {
    hide R.ValidStored;
    hide M.GoodResult;
    NotRefused(input, w.expectedHead);
    var start := L.StartFull(id, input.key, input.operationId);
    var s1 := L.Next(s, start);
    assert s1.store == Leased(s.store, input, env) && L.Runs(s1, id, L.Applies(input.operationId));
    var steps, last := LedgerSteps(w, input, env, hash, id), LastStep(w, input, env, hash, id);
    if env.rival.Some? {
      var s2 := L.Next(s1, L.OtherPlan(input.key, env.rival.value));
      assert s2.store == WithRival(s1.store, input.key, env.rival);
      LastStepEnds(s2, s.store, w, input, env, hash, receiptOf, id);
      assert steps[1..] == [L.OtherPlan(input.key, env.rival.value), last] && steps[1..][1..] == [last];
      assert L.Possible(s2, [last]) && L.Possible(s1, steps[1..]);
      assert L.Exec(s1, steps[1..]) == L.Exec(s2, [last]);
    } else {
      LastStepEnds(s1, s.store, w, input, env, hash, receiptOf, id);
      assert steps[1..] == [last];
    }
  }

  /** From one apply to any later one: once a full apply has recorded its plan, every later call for the plan,
      whatever happens in between, is answered with the branch and the commit that apply made. */
  lemma RetriesAfterApply(s: L.State, w: World, input: ApplyInput, env: Environment, hash: A.Digest,
                          receiptOf: M.SandboxResult -> string, id: nat, more: seq<L.Step>, later: ApplyInput, again: Environment)
    requires L.Inv(s) && Started(s.store, input, env) && s.store.row.expectedHead == w.expectedHead
    requires s.plan == L.Plan(input.payload.actions, hash, receiptOf) && s.now == env.now
    requires id !in s.calls && input.operationId !in s.usedOps
    requires Records(w, input, env, hash) && later.payload.mode == input.payload.mode
    requires L.Possible(s, LedgerSteps(w, input, env, hash, id)) ==> L.Possible(L.Exec(s, LedgerSteps(w, input, env, hash, id)), more)
    ensures L.Possible(s, LedgerSteps(w, input, env, hash, id))
    ensures var end := L.Exec(L.Exec(s, LedgerSteps(w, input, env, hash, id)), more);
      !Started(end.store, later, again) &&
      forall r :: AnswersEarly(end.store, later, again, r) <==> r == Ok(Earlier(Some(input.branch), Some(env.newCommit)))
  {
    ApplyIsALedgerRun(s, w, input, env, hash, receiptOf, id);
    CompensationIsComplete(s.store, w, input, env, hash, receiptOf);
    var done := L.Exec(s, LedgerSteps(w, input, env, hash, id));
    L.RunKeepsInv(s, LedgerSteps(w, input, env, hash, id));
    assert done.store.row.mode == L.FullPlan(input.payload.mode) by { ModeStays(s.store, w, input, env, hash, receiptOf); }
    hide L.Inv;
    hide L.Exec;
    hide L.Possible;
    hide LedgerSteps;
    hide StoreAfter;
    hide Started;
    LaterCallsAnswered(done, more, later, again);
  }

  lemma ModeStays(before: L.Store, w: World, input: ApplyInput, env: Environment, hash: A.Digest, receiptOf: M.SandboxResult -> string)
    ensures StoreAfter(before, w, input, env, hash, receiptOf).row.mode == before.row.mode
  {
  }

  /** What a recorded apply had: a good run, and a seed exactly when the repository was empty. */
  lemma RecordedHad(w: World, input: ApplyInput, env: Environment, hash: A.Digest)
    requires Records(w, input, env, hash)
    ensures env.sandbox.Some? && M.GoodResult(input.payload.actions, Some(env.sandbox.value), hash)
    ensures SeedKnown(w, input, env, hash).Some? <==> w.expectedHead.None?
  {
  }

  lemma LastStepEnds(s: L.State, before: L.Store, w: World, input: ApplyInput, env: Environment, hash: A.Digest,
                     receiptOf: M.SandboxResult -> string, id: nat)
    requires s.store == WithRival(Leased(before, input, env), input.key, env.rival)
    requires L.Runs(s, id, L.Applies(input.operationId)) && L.Owns(s.store.row, input.operationId)
    requires s.plan == L.Plan(input.payload.actions, hash, receiptOf)
    requires s.store.row.mode == L.FullPlan(input.payload.mode)
    requires IsEmptyBootstrap(input.payload) <==> w.expectedHead.None?
    requires env.rival.None? ==> input.key !in s.store.replies
    ensures L.Possible(s, [LastStep(w, input, env, hash, id)])
    ensures L.Exec(s, [LastStep(w, input, env, hash, id)]).store == StoreAfter(before, w, input, env, hash, receiptOf)
  {
    hide M.GoodResult;
    hide Remains;
    hide Leased;
    if Records(w, input, env, hash) { RecordedHad(w, input, env, hash); }
    hide Records;
    hide SeedKnown;
    var last := LastStep(w, input, env, hash, id);
    assert L.Enabled(s, last);
    var next := L.Next(s, last);
    assert [last][1..] == [] && L.Possible(next, []) && L.Exec(next, []) == next;
  }

  // ---- The meaning of what was applied ----

  /** What an applied repair or upgrade left: on the base it was planned for, a branch whose tree is the
      base's with exactly the planned writes, each holding the release blob and mode, exactly when those
      writes fit the base; otherwise no Git tree is what the plan means. */
  lemma AppliedPlanMeaning(input: ApplyInput, expectedHead: Option<Sha>, branches: map<string, Sha>, commits: map<Sha, Commit>,
                           defaultHead: Option<Sha>, env: Environment, applied: AppliedPlan,
                           hash: A.Digest, blobId: M.BlobId, seedBlob: string, receiptOf: M.SandboxResult -> string)
    requires AppliedAsPlanned(input, expectedHead, branches, commits, defaultHead, env, applied, hash, blobId, seedBlob, receiptOf)
    requires !IsEmptyBootstrap(input.payload) && M.CopiesOnly(input.payload.actions) && R.DistinctPaths(input.payload.actions)
    requires A.CollisionFree(hash)
    requires forall i :: 0 <= i < |input.payload.actions| && input.payload.actions[i].IsWrite() ==>
      M.Declared(input.payload.actions[i], hash, blobId)
    requires M.GitTree(commits[applied.base].tree) && M.GitTree(env.clashTree)
    ensures expectedHead == Some(applied.base) && commits[applied.head].parents == [applied.base]
    ensures branches[applied.branch] == applied.head && M.GitTree(commits[applied.head].tree)
    ensures M.IsPlanTree(commits[applied.base].tree, input.payload.actions, commits[applied.head].tree)
      <==> M.Fits(commits[applied.base].tree, input.payload.actions)
  {
    var outputs := env.sandbox.value.outputs.value;
    var actions, base, tree := input.payload.actions, commits[applied.base].tree, commits[applied.head].tree;
    M.CommitMeaning(actions, base, outputs, M.MAX_ARTIFACT_BYTES, Some(M.WritePaths(actions)), hash, blobId);
    assert Changes(input.payload, outputs, blobId) == M.ChangesOf(outputs, blobId);
    hide M.GitTree;
    hide M.Fits;
    hide M.IsPlanTree;
    if M.IsPlanTree(base, actions, tree) {
      M.PlanTreeIsGitTree(base, actions, tree);
    }
  }

  /** What an applied plan for an empty repository left: a root commit with the seed file alone, and on it a
      commit that holds exactly the planned writes, in their modes and, where they are copies, at their release
      blobs. The seed file is gone again. */
  lemma AppliedBootstrap(input: ApplyInput, expectedHead: Option<Sha>, branches: map<string, Sha>, commits: map<Sha, Commit>,
                         defaultHead: Option<Sha>, env: Environment, applied: AppliedPlan,
                         hash: A.Digest, blobId: M.BlobId, seedBlob: string, receiptOf: M.SandboxResult -> string)
    requires AppliedAsPlanned(input, expectedHead, branches, commits, defaultHead, env, applied, hash, blobId, seedBlob, receiptOf)
    requires IsEmptyBootstrap(input.payload) && R.DistinctPaths(input.payload.actions) && A.CollisionFree(hash)
    requires forall p, q :: p in M.WritePaths(input.payload.actions) && q in M.WritePaths(input.payload.actions) ==> !(p + "/" <= q)
    ensures branches[applied.branch] == applied.head && applied.seed == Some(applied.base)
    ensures commits[applied.base].parents == [] && commits[applied.base].tree.Keys == {L.SEED_PATH}
    ensures commits[applied.head].parents == [applied.base]
    ensures commits[applied.head].tree.Keys == M.WritePaths(input.payload.actions)
    ensures L.SEED_PATH !in commits[applied.head].tree
    ensures forall i :: 0 <= i < |input.payload.actions| && input.payload.actions[i].IsWrite() ==>
      HoldsWrite(commits[applied.head].tree, input.payload.actions[i], hash, blobId)
  {
    var outputs, actions := env.sandbox.value.outputs.value, input.payload.actions;
    M.OutputsAreTheWrites(actions, outputs);
    hide M.GoodResult;
    var tree := M.Overlay(SeedTree(seedBlob), Changes(input.payload, outputs, blobId));
    forall path ensures path in tree <==> path in M.WritePaths(actions) {
      BootstrapAt(input.payload, outputs, seedBlob, hash, blobId, path);
    }
    assert tree.Keys == M.WritePaths(actions);
    assert M.GitTree(tree);
    forall i | 0 <= i < |actions| && actions[i].IsWrite() ensures HoldsWrite(tree, actions[i], hash, blobId) {
      BootstrapAt(input.payload, outputs, seedBlob, hash, blobId, actions[i].path);
    }
  }

  /** The path holds the write: in its mode, and for a copy with the release blob if the manifest is honest. */
  ghost predicate HoldsWrite(tree: Tree, a: PlannerAction, hash: A.Digest, blobId: M.BlobId) {
    At(tree, a.path).Some? && tree[a.path].mode == a.releaseMode &&
    (!a.kind.BootstrapTransform? && M.Declared(a, hash, blobId) ==> tree[a.path].blob == a.releaseObject)
  }

  /** The entries of an empty repository's commit: one an output, and the deletion of the seed file. */
  lemma BootstrapChanges(p: Payload, outputs: seq<A.Artifact>, blobId: M.BlobId)
    requires IsEmptyBootstrap(p) && A.DistinctPaths(outputs) && L.SEED_PATH !in A.Paths(outputs)
    ensures var changes := Changes(p, outputs, blobId);
      && |changes| == |outputs| + 1 && M.DistinctChanges(changes)
      && changes[|outputs|].path == L.SEED_PATH && changes[|outputs|].blob.None?
      && forall k :: 0 <= k < |outputs| ==>
        changes[k] == M.ChangeOf(outputs[k], blobId) && changes[k].path == outputs[k].path && changes[k].mode == outputs[k].mode &&
        changes[k].blob.Some?
  {
    var changes := Changes(p, outputs, blobId);
    forall k | 0 <= k < |outputs| ensures changes[k] == M.ChangeOf(outputs[k], blobId) && changes[k].path in A.Paths(outputs) {
      assert changes[k].path == outputs[k].path;
    }
  }

  /** The tree made from the seed's, read at one path. */
  lemma BootstrapAt(p: Payload, outputs: seq<A.Artifact>, seedBlob: string, hash: A.Digest, blobId: M.BlobId, path: string)
    requires IsEmptyBootstrap(p) && R.DistinctPaths(p.actions) && A.CollisionFree(hash) && M.OutputsGood(p.actions, outputs, hash)
    requires A.Paths(outputs) == M.WritePaths(p.actions) && L.SEED_PATH !in A.Paths(outputs)
    ensures var tree := M.Overlay(SeedTree(seedBlob), Changes(p, outputs, blobId));
      (path in tree <==> path in A.Paths(outputs)) &&
      forall i :: 0 <= i < |p.actions| && p.actions[i].IsWrite() && p.actions[i].path == path ==> HoldsWrite(tree, p.actions[i], hash, blobId)
  {
    var base, changes, n := SeedTree(seedBlob), Changes(p, outputs, blobId), |outputs|;
    BootstrapChanges(p, outputs, blobId);
    hide Changes;
    hide M.ChangeOf;
    M.OverlayAt(base, changes, path);
    hide M.Overlay;
    hide M.OutputsGood;
    hide M.Declared;
    hide A.CollisionFree;
    if path in A.Paths(outputs) {
      var k :| 0 <= k < n && outputs[k].path == path;
      assert changes[k].path == path;
      OutputWritten(p.actions, outputs, k, hash, blobId);
    } else if path == L.SEED_PATH {
      assert changes[n].path == path;
    } else {
      assert !M.Touches(changes, path);
    }
  }

  /** A good output is the write at its path. */
  lemma OutputWritten(actions: seq<PlannerAction>, outputs: seq<A.Artifact>, k: nat, hash: A.Digest, blobId: M.BlobId)
    requires R.DistinctPaths(actions) && A.CollisionFree(hash) && M.OutputsGood(actions, outputs, hash) && k < |outputs|
    ensures forall i :: 0 <= i < |actions| && actions[i].IsWrite() && actions[i].path == outputs[k].path ==>
      outputs[k].mode == actions[i].releaseMode &&
      (!actions[i].kind.BootstrapTransform? && M.Declared(actions[i], hash, blobId) ==>
        M.ChangeOf(outputs[k], blobId).blob == Some(actions[i].releaseObject))
  {
    hide A.Genuine;
    hide A.AllGenuine;
    hide M.ChangeOf;
    hide M.Declared;
    hide A.CollisionFree;
    assert M.ProducesSome(outputs[k], actions);
    var j :| 0 <= j < |actions| && M.Produces(outputs[k], actions[j]);
    assert forall i :: 0 <= i < |actions| && actions[i].path == actions[j].path ==> i == j;
    A.EachGenuine(outputs, Some(M.WritePaths(actions)), hash, k);
    if !actions[j].kind.BootstrapTransform? && M.Declared(actions[j], hash, blobId) {
      M.OutputHoldsRelease(outputs[k], actions[j], hash, blobId);
    }
  }

  /** What a conflict-free repair or upgrade, planned on the tree of the head it expects and applied, leaves
      path by path when its writes fit that tree: files outside the release and preserved files are as they
      were, every written or unchanged path holds the release blob. */
  lemma AppliedContents(
    policy: PathPolicy, plan: PlanInput, textHash: string -> string, input: ApplyInput, branches: map<string, Sha>,
    commits: map<Sha, Commit>, defaultHead: Option<Sha>, env: Environment, applied: AppliedPlan, hash: A.Digest,
    blobId: M.BlobId, seedBlob: string, receiptOf: M.SandboxResult -> string)
    requires M.SettledPlan(policy, plan, textHash, input.payload) && M.KeepsProject(plan.mode)
    requires M.DistinctFiles(plan.files)
    requires AppliedAsPlanned(input, plan.target.headSha, branches, commits, defaultHead, env, applied, hash, blobId, seedBlob, receiptOf)
    requires A.CollisionFree(hash)
    requires forall i :: 0 <= i < |input.payload.actions| && input.payload.actions[i].IsWrite() ==>
      M.Declared(input.payload.actions[i], hash, blobId)
    requires commits[applied.base].tree == TreeOf(plan.targetTree)
    requires M.GitTree(TreeOf(plan.targetTree)) && M.GitTree(env.clashTree)
    requires M.Fits(TreeOf(plan.targetTree), input.payload.actions)
    ensures M.IsPlanTree(TreeOf(plan.targetTree), input.payload.actions, commits[applied.head].tree)
    ensures forall path :: path !in PathsOf(plan.files) ==>
      At(commits[applied.head].tree, path) == At(TreeOf(plan.targetTree), path)
    ensures |input.payload.actions| == |plan.files|
    ensures forall i :: 0 <= i < |plan.files| ==>
      plan.files[i].gitObject.Some? &&
      M.HoldsRelease(TreeOf(plan.targetTree), commits[applied.head].tree, plan.files[i], input.payload.actions[i])
  {
    M.SettledPlanIs(policy, plan, textHash, input.payload);
    M.SettledPathsDiffer(policy, plan, textHash, input.payload);
    M.SettledKeepingCopies(policy, plan, textHash, input.payload);
    hide M.SettledPlan;
    AppliedPlanMeaning(input, plan.target.headSha, branches, commits, defaultHead, env, applied, hash, blobId, seedBlob, receiptOf);
    M.PlanTreeContents(policy, plan, textHash, input.payload, commits[applied.head].tree);
  }

  /** From plan to branch and back: a repair or upgrade planned on the tree of the head it expects, applied,
      and whose writes fit that tree, leaves a branch on which every file outside the release and every
      preserved file is as it was, every written or unchanged path holds the release blob, and planning again
      in the same mode finds nothing to do. */
  lemma PlanApplyReplan(
    policy: PathPolicy, plan: PlanInput, textHash: string -> string, input: ApplyInput, branches: map<string, Sha>,
    commits: map<Sha, Commit>, defaultHead: Option<Sha>, env: Environment, applied: AppliedPlan, hash: A.Digest,
    blobId: M.BlobId, seedBlob: string, receiptOf: M.SandboxResult -> string, after: seq<ListedEntry>, before: (string, string) -> bool)
    returns (again: Payload)
    requires PlanPayload(policy, plan, textHash) == Ok(input.payload) && M.KeepsProject(plan.mode) && input.payload.conflictFree
    requires M.DistinctFiles(plan.files)
    requires AppliedAsPlanned(input, plan.target.headSha, branches, commits, defaultHead, env, applied, hash, blobId, seedBlob, receiptOf)
    requires A.CollisionFree(hash)
    requires forall i :: 0 <= i < |input.payload.actions| && input.payload.actions[i].IsWrite() ==>
      M.Declared(input.payload.actions[i], hash, blobId)
    requires commits[applied.base].tree == TreeOf(plan.targetTree) && commits[applied.head].tree == TreeOf(after)
    requires M.GitTree(TreeOf(plan.targetTree)) && M.GitTree(env.clashTree)
    requires M.Fits(TreeOf(plan.targetTree), input.payload.actions)
    requires M.StrictOrder(before) && M.Ordered(before, plan.targetTree) && M.Ordered(before, after)
    ensures forall path :: path !in PathsOf(plan.files) ==> At(TreeOf(after), path) == At(TreeOf(plan.targetTree), path)
    ensures forall i :: 0 <= i < |plan.files| ==>
      M.HoldsRelease(TreeOf(plan.targetTree), TreeOf(after), plan.files[i], input.payload.actions[i])
    ensures PlanPayload(policy, plan.(targetTree := after), textHash) == Ok(again)
    ensures NoWrites(again.actions) && NoBlockers(again.actions) && again.implementation.NoChanges?
    ensures again.summary.targetOnlyDigest == input.payload.summary.targetOnlyDigest
  {
    assert M.SettledPlan(policy, plan, textHash, input.payload);
    AppliedContents(policy, plan, textHash, input, branches, commits, defaultHead, env, applied, hash, blobId, seedBlob, receiptOf);
    again := M.Convergence(policy, plan, textHash, input.payload, after, before);
  }
}
