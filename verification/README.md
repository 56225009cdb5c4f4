# ANPOS: verified models of the plan pipeline and the coordination protocol

A Dafny model of two parts of the ANPOS repository and of the small cores they lean on.

**The Repository Supervisor plan pipeline** (`commercial-service/lib`). A planner compares a release with a
repository tree and gives every release path an action; conflicts are resolved by explicit decisions; a full
apply takes a ledger lease, materialises release files, runs the plan in a sandbox, checks what comes out,
commits it, publishes a branch and records the result, undoing or flagging partial work when something fails;
the ledger then carries the plan through pull request and merge. The model covers all of it: the planner and
resolver (`Planner`, `Resolution`), what a plan means as a change of a tree and why planning again finds nothing
to do (`PlanMeaning`), the request and its limits (`SandboxRequest`, `Artifacts`, `Base64`), the program inside
the sandbox (`Runner`), the blob worker pool (`WorkerPool`), the apply with its compensation (`FullApply`), the
ledger and every interleaving of the calls on it (`Ledger`), and the canonical JSON under the plan hash
(`CanonicalJson`).

**The Supervisor/Worker coordination protocol** (`scripts`). Elections, heartbeats, releases and recovery over
"create a Git ref" as the one atomic primitive (`Elections`), and claims, dependencies and budgets over claim
refs and the queue file (`Claims`).

Besides these, seat allocation under row locks (`Seats`) and the fixed-window rate limiter (`RateLimit`).

Code that changes state is modelled as classes whose methods are proved against a function of the old state
(`Ledger.PlanStore`, `FullApply.Host`, `Runner.Workspace`, `WorkerPool.Pool`, `Elections.Coordination`,
`Claims.CoordinationDesk`, `Seats.SeatTable`, `RateLimit.RateLimiter`). Properties over every run are then
proved about those functions, with the steps of concurrent calls interleaved freely.

## How the environment enters

- GitHub is a default head, a map of branches and a map of commits. Every request of an apply can take effect
  and be seen to, not take effect, or take effect with its reply lost (`FullApply.Outcome`); others may move the
  default branch up to the moment it is looked at, and the answer is then true. Nobody else uses the feature
  branch of a call while the call runs. The sandbox answers anything at all.
- A database transaction is one atomic guarded update whose outcome is known.
- SHA-256 and Git object ids are function parameters; where it matters a lemma assumes they have no collisions.
  Ids and digests are lower-case hexadecimal, as the code makes them before comparing.
- The bootstrap script is an arbitrary function on the workspace. Where a lemma needs it, `Runner.Tame` says that
  it succeeds when its own files are present, changes only the transform paths, deletes nothing and keeps modes.
- The state file of the Supervisor is written by heartbeats and releases with compare-and-swap, as the scripts'
  own comments ask of a deployment; the election's own write is not, because the code overwrites. Commands on
  the queue file are single steps, except that a claim may die between creating its ref and writing the queue.

## What turned out to be false, and when it is true

- **A plan for an empty repository is never performed.** The planner gives it `guarded_empty_repository_v1`, the
  apply requires exactly that, and the runner refuses everything but `sandbox_full_plan_v1`
  (`Runner.EmptyBootstrapRefused`). Every other safe conflict-free plan runs, planned so or resolved, but for the next
  item (`Runner.PlannerRunnerVerifierAgree`).
- **A bootstrap whose own script was kept as the target's fails.** Adopting a repository whose
  `scripts/bootstrap_instance.py` differs from the release's blocks on that file
  (`Runner.AdoptionAsksForTheScript`). Answered with `keep_target` the resolved plan is called safe, and the runner
  stops on the missing script; a resolved plan runs exactly when that was not the answer (`Runner.ResolvedPlansRun`).
- **A plan given back as `planned` can leave a branch or a seed.** It leaves the branch exactly when the branch was
  created but its creation was not seen to the end (`FullApply.BranchLeft`), and a seed exactly when the seed commit
  was made without the call learning of it (`FullApply.SeedLeft`); both are conditions on the inputs alone
  (`FullApply.GivenBackLeaves`), and both happen to every plan that can get that far (`FullApply.BranchCanBeLeft`,
  `FullApply.SeedCanBeLost`; the latter needs a sandbox that accepts a plan for an empty repository).
- **A plan may mean a tree that cannot exist.** The planner does not look for a target file where a release path needs
  a directory, or the other way round: a file `docs` and a release path `docs/x.md` give an addition
  (`PlanMeaning.ClashIsPlanned`, `PlanMeaning.DocsClash`). What a plan means is a Git tree exactly when its writes fit the base
  (`PlanMeaning.PlanTreeIsGitTree`); what the host makes of the other case is left open.
- **`merged` is not final.** Opening a pull request does not look at the status again when it writes, so a second
  opening call brings a merged plan back to `pr_open`; this can happen exactly while an opening call is pending
  (`Ledger.MergedRegresses`, `Ledger.RegressionHappens`). GitHub keeps one open pull request per head branch, so it
  takes the late call's own pull request to have been closed before the merged one was opened.
- **A bounded apply that loses the race answers with the wrong branch**: the caller gets its own branch and head,
  which agree with the row exactly when its update took or they are the recorded ones
  (`Ledger.BoundedAnswerAgrees`, `Ledger.BoundedRaceMisreports`). A retry is answered from the row
  (`Ledger.RetriesAnswerTheRow`).
- **Deleting an election ref can undo fencing.** `supervisor-release --remote-unlock` and `recover-ref` on an
  election ref are safe exactly when no election is still under way for that ref
  (`Elections.DeletionIsSafeWhenIdle`, `Elections.DeletingStepIsSafe`); from any state file whose lease has run out
  a run gives the next epoch two winners (`Elections.UnlockDoublesAnEpoch`).
- **An election that dies after creating its ref blocks every later one** once the current lease has run out
  (`Elections.OrphanBlocksForever`), and one crash is enough (`Elections.OrphanHappens`). With nothing but elections
  under way somebody can still be elected exactly when the next epoch's ref is free
  (`Elections.ElectableWhenRefFree`).
- **A release that dies between deleting the claim ref and writing the queue** leaves a live lease without its
  ref, whenever such a release can happen (`Claims.CrashedReleaseUnbacks`, `Claims.CrashHappens`).
- **A slot reopened without the unlock stays locked** until its old ref is recovered or the epoch changes: every claim
  that picks it is lost meanwhile, and recovering the ref lets the claim through (`Claims.ReopenedSlotStaysLocked`,
  `Claims.RecoveryUnlocks`).
- **4999 or more selected release files never fit**, although 5000 are allowed in a plan, in a materialisation
  and in a request: the runner and the plan are two more input files (`SandboxRequest.LimitsCompose`,
  `SandboxRequest.StoredPlansFit`).

## Model

| member | source | states |
|---|---|---|
| `Planner.BuildFullPlannerPayload` | commercial-service/lib/repository-supervisor-planner.ts:358-484 | The guards and the passes over tree, release and actions give the payload the rules define, or the first error in the code's order. |
| `Planner.ScanTarget` | commercial-service/lib/repository-supervisor-planner.ts:386-391 | The target map is the listing with later entries winning; the target-only list is its entries outside the release, in order. |
| `Planner.BuildActions` | commercial-service/lib/repository-supervisor-planner.ts:393-415 | One action row per release file in order, a missing or malformed blob id stopping it, and AI drift noticed exactly when a material path changes. |
| `Planner.TallyCounts` | commercial-service/lib/repository-supervisor-planner.ts:417-426 | Each counter is the number of actions of its kind. |
| `Planner.VerdictMeaning` | commercial-service/lib/repository-supervisor-planner.ts:448-483 | Conflict free means no blocking action, safe means that and at least one write, confirmation is asked exactly at blockers, the counts sum to the release size; the way to apply, the AI flag, the context and the classification are each given exactly. |
| `Planner.ProtectedPaths` | commercial-service/lib/repository-supervisor-planner.ts:266-356 | What a plan writes, path by path: a differing file exactly where its mode overwrites it (never when adopting, no shared file or project state when repairing or upgrading, transform paths and unshared files of a child), otherwise it is asked about, but for project state a repair keeps; a missing file unless it is project state; an equal one only by a transform or into an empty repository. The row repeats the release's and the target's identities. |
| `Planner.EmptyBootstrapActions` | commercial-service/lib/repository-supervisor-planner.ts:274-279 | For an empty repository: transformed exactly on transform paths, added on all others. |
| `Planner.ChildActions` | commercial-service/lib/repository-supervisor-planner.ts:281-291 | For an uninitialised child: exactly when a path is transformed, unchanged, added, merged by hand or replaced; a differing shared file outside the transform paths is always merged by hand. |
| `Planner.AdoptActions` | commercial-service/lib/repository-supervisor-planner.ts:293-311 | For an adoption: every differing file is merged by hand, and exactly when the others are transformed, unchanged or added. |
| `Planner.RepairActions` | commercial-service/lib/repository-supervisor-planner.ts:313-336 | For a repair: a differing file is overwritten exactly when it is neither project state nor shared; exactly when a path is unchanged, reviewed, preserved, merged by hand or added. |
| `Planner.UpgradeActions` | commercial-service/lib/repository-supervisor-planner.ts:338-355 | For an upgrade: the same, with missing and differing project state both reviewed. |
| `Planner.TextReadsBack` | commercial-service/lib/repository-supervisor-planner.ts:389-391 | The hashed text of the files outside the release has one line a file, in order, that reads back as its path, mode and object. |
| `Planner.TargetOnlySummary` | commercial-service/lib/repository-supervisor-planner.ts:386-391 | The summary counts the files outside the release, and two plans have the same digest of them exactly when the files are the same, for a digest without collisions. |
| `Policy.PolicyPaths` | commercial-service/lib/repository-supervisor-planner.ts:206-220 | Which paths are transformed, shared or AI material: the listed ones and exactly what lies under the named directories. |
| `Resolution.ValidateStoredFullPlannerPayload` | commercial-service/lib/repository-supervisor-planner.ts:708-801 | Accepts exactly the stored payloads with well-formed identities, lineage and actions and no repeated path. |
| `Resolution.ValidateLineage` | commercial-service/lib/repository-supervisor-planner.ts:742-768 | Accepts exactly the lineages with well-formed ids and handle and distinct well-formed decisions. |
| `Resolution.NormalizeResolutions` | commercial-service/lib/repository-supervisor-planner.ts:536-567 | The loop finishes exactly when every resolution acceptably answers a blocker of its own, and otherwise stops at the first that does not, with its error. |
| `Resolution.DecisionsMatchBlockers` | commercial-service/lib/repository-supervisor-planner.ts:530-567 | Pigeonhole: as many answers as blockers, none repeated, so the decided paths are exactly the blocked paths. |
| `Resolution.DecisionAnswers` | commercial-service/lib/repository-supervisor-planner.ts:538-567 | Each blocker's decision is an acceptable answer given for that very blocker. |
| `Resolution.MapActions` | commercial-service/lib/repository-supervisor-planner.ts:569-594 | Replaces blockers as decided and keeps the rest; its guard fires exactly when a blocker has no decision. |
| `Resolution.SummarizeResolved` | commercial-service/lib/repository-supervisor-planner.ts:596-600 | Its guard fires exactly when a blocker is left. |
| `Resolution.ApplyDecisions` | commercial-service/lib/repository-supervisor-planner.ts:569-624 | With a decision for every blocker both later guards are unreachable and the result is the source with its blockers replaced. |
| `Resolution.BuildResolvedFullPlannerPayload` | commercial-service/lib/repository-supervisor-planner.ts:510-624 | Succeeds exactly on stored unresolved plans with one acceptable answer per blocker; the resolved plan follows the answers as they were given (`keep_target` preserves, `use_release` transforms, replaces or adds by mode, path and target object, the lineage lists the same choices); a refusal is the error of the first check that fails, and never a "still unresolved" one. |
| `Resolution.ResolvedFollows` | commercial-service/lib/repository-supervisor-planner.ts:538-619 | The mapping pass over the collected decisions gives what the raw answers say. |
| `Resolution.AnswerDecides` | commercial-service/lib/repository-supervisor-planner.ts:538-594 | Each blocker has exactly one raw answer at its path, given for the target object the plan knew; `keep_target` needs a file to keep, project state is overwritten only when that was acknowledged. |
| `Resolution.AnswersABlocker` | commercial-service/lib/repository-supervisor-planner.ts:536-543 | Each raw answer is at the path of a blocking action. |
| `Resolution.ChoiceRefusal` | commercial-service/lib/repository-supervisor-planner.ts:544-560 | Which fault of an answer each error names. |
| `Resolution.BlockedPlansNeedResolution` | commercial-service/lib/repository-supervisor-planner.ts:518-522 | Of planned payloads exactly those with a blocking action can be resolved. |
| `Resolution.BlockerAt` | commercial-service/lib/repository-supervisor-planner.ts:530-530 | The blockers are listed in the order of the plan. |
| `Common.HexDigitsAre` | commercial-service/lib/repository-supervisor-planner.ts:526-528 | Ids and digests are made of exactly the sixteen lower-case hexadecimal digits. |
| `Resolution.HandleMeans` | commercial-service/lib/repository-supervisor-planner.ts:233-239 | A handle is a letter or digit followed by at most 38 letters, digits or dashes. |
| `Resolution.ResolutionKeeps` | commercial-service/lib/repository-supervisor-planner.ts:569-624 | Non-blocking actions are untouched, no blocker remains, the counts still sum to the release size, safe means something is written. |
| `Resolution.ResolvedVerdict` | commercial-service/lib/repository-supervisor-planner.ts:596-624 | The resolved plan is conflict free and for the sandbox exactly when it writes; its lineage names the source plan and who resolved it, and everything else is the source. |
| `Resolution.ResolvedIsStoredOnce` | commercial-service/lib/repository-supervisor-planner.ts:510-529 | A resolved plan passes the stored-payload validation again and can never be resolved a second time. |
| `PlanMeaning.OverlayAt` | commercial-service/lib/repository-supervisor-full-apply.ts:491-503 | A tree made from a base tree and distinct entries holds the entries' blobs, lacks the deleted paths and is otherwise the base. |
| `PlanMeaning.VerifyFullApplySandboxOutputs` | commercial-service/lib/repository-supervisor-full-apply.ts:170-196 | Accepts exactly the clean runs whose files each match a write action in mode and, for copies, digest, as many as there are writes; a run that failed, timed out or was cut off is refused as such, and every other refusal names a fault some output has. |
| `PlanMeaning.OutputsAreTheWrites` | commercial-service/lib/repository-supervisor-full-apply.ts:170-196 | Accepted outputs are exactly the planned write paths, one file each. |
| `PlanMeaning.CommitMeaning` | commercial-service/lib/repository-supervisor-full-apply.ts:435-521 | The entries of verified outputs laid over the base give the base with exactly the planned writes, each at its release blob and mode; that is a Git tree exactly when the writes fit the base. |
| `PlanMeaning.PlanTreeIsGitTree` | commercial-service/lib/repository-supervisor-full-apply.ts:491-503 | The tree a plan means exists as a Git tree exactly when no written path is above or beneath another file. |
| `PlanMeaning.ClashIsPlanned` | commercial-service/lib/repository-supervisor-planner.ts:313-355 | A repair or upgrade plans a release path beneath an existing file as an addition, and no Git tree is what that plan means. |
| `PlanMeaning.DocsClash` | commercial-service/lib/repository-supervisor-planner.ts:358-484 | On a repository with a file `docs` and a release with `docs/x.md` the planner gives such a plan and calls it safe. |
| `PlanMeaning.PlanTreeContents` | commercial-service/lib/repository-supervisor-planner.ts:313-355 | In a conflict-free repair or upgrade, planned so or resolved, files outside the release and preserved files stay the base's, every written or unchanged path holds the release blob, and the result is a Git tree exactly when the writes fit. |
| `PlanMeaning.SettledPlanIs` | commercial-service/lib/repository-supervisor-planner.ts:569-624 | Planned and resolved conflict-free plans alike: every action is the planned row or what one of the two choices makes of a blocking one, and a safe one names the sandbox implementation. |
| `PlanMeaning.Convergence` | commercial-service/lib/repository-supervisor-planner.ts:386-484 | Planning again on that tree in the same mode gives no writes, no conflicts, `no_changes` and the same target-only digest. |
| `Base64.AcceptedTexts` | commercial-service/lib/execution-sandbox.ts:127-134 | Accepted are exactly the texts of the right shape whose unused bits are zero. |
| `Base64.RoundTrip` | commercial-service/lib/execution-sandbox.ts:127-134 | Decoding inverts encoding on all bytes, and a text decodes to given bytes exactly when it is their encoding. |
| `Artifacts.NormalizeSandboxFileArtifacts` | commercial-service/lib/execution-sandbox.ts:136-170 | Accepts exactly the lists of at most 5000 genuine, permitted, distinct files whose total size is within the limit, and returns them as they are; otherwise it stops at the first file that is not, with its error. |
| `Artifacts.AcceptedFile` | commercial-service/lib/execution-sandbox.ts:136-170 | An accepted file is at a safe permitted path, has one of two modes, and decodes to content of the declared size and digest. |
| `Artifacts.OutputSetIsExact` | commercial-service/lib/execution-sandbox.ts:254-258 | As many accepted outputs as requested paths are exactly the requested set. |
| `SandboxRequest.NormalizeOutputPaths` | commercial-service/lib/execution-sandbox.ts:172-183 | Accepts exactly the lists of at most 5000 safe distinct paths. |
| `SandboxRequest.NormalizeSandboxRequest` | commercial-service/lib/execution-sandbox.ts:185-231 | Accepts exactly the requests with a safe workspace id, bounds in range, acceptable inputs and outputs; each error is given exactly when its check is the first to fail. |
| `SandboxRequest.CheckMaterialization` | commercial-service/lib/embedded-release.ts:78-110 | The validation pass succeeds exactly when all requests are well formed, distinct, identical to the release's entries and within 24 MiB together; an error names the first request that fails and how. |
| `SandboxRequest.MaterializeTemplateReleaseFiles` | commercial-service/lib/embedded-release.ts:71-125 | Gives the files exactly when in addition every one is on disk with its declared size and digest; each then has the path, digest, size and mode of the release's entry. |
| `SandboxRequest.OutputPathsAre` | commercial-service/lib/repository-supervisor-full-apply.ts:143-168 | The requested output paths are the write paths, each once. |
| `SandboxRequest.WriteAt` | commercial-service/lib/repository-supervisor-full-apply.ts:143-168 | The write actions are requested in the order of the plan. |
| `SandboxRequest.StoredActionsMaterialize` | commercial-service/lib/embedded-release.ts:78-95 | A stored action is a well-formed release request exactly when its path holds no carriage return, line feed or NUL. |
| `SandboxRequest.RequestAllowsWhatIsAccepted` | commercial-service/lib/repository-supervisor-full-apply.ts:149-167 | The output and artifact bounds of the request are those its result is held to; no request is built exactly when nothing is written. |
| `SandboxRequest.CharacterSize` | commercial-service/lib/execution-sandbox.ts:98-108 | A character counts as many bytes as its UTF-8 encoding has. |
| `SandboxRequest.LimitsCompose` | commercial-service/lib/repository-supervisor-full-apply.ts:149-167 | A materialised plan gives an acceptable request exactly when it selects at most 4998 files with paths of at most 1003 bytes; 24 MiB of files, 4 MiB of plan and the runner always fit. |
| `SandboxRequest.ReleasePathSafe` | commercial-service/lib/execution-sandbox.ts:100-110 | Under the input prefix a release path stays acceptable exactly up to 1003 bytes. |
| `SandboxRequest.AsciiPathsFit` | commercial-service/lib/embedded-release.ts:41-44 | Release paths in ASCII always fit under the input prefix. |
| `SandboxRequest.StoredPlanFits` | commercial-service/lib/repository-supervisor-write.ts:382-391 | The size check on the stable rendering at storing time bounds the payload's plain rendering. |
| `SandboxRequest.StoredPlansFit` | commercial-service/lib/repository-supervisor-write.ts:382-391 | Every plan that passed the storing-time check, with ASCII paths and a write, gives an acceptable request exactly when it selects at most 4998 release files. |
| `Runner.SafeRelativeAgrees` | commercial-service/lib/full-plan-sandbox-runner.ts:22-28 | On paths the service accepts, the runner reads exactly that path. |
| `Runner.SafeRelativeStaysInside` | commercial-service/lib/full-plan-sandbox-runner.ts:22-28 | The runner accepts exactly the paths that are not absolute and hold no control character, backslash, `..` or `.git` part, and reads them as real names only. |
| `Runner.InputsPlaced` | commercial-service/lib/repository-supervisor-full-apply.ts:143-168 | On the workspace the program and the plan lie at their own paths and every selected file under the release directory with its content, and nothing else. |
| `Runner.RoomMeans` | commercial-service/lib/full-plan-sandbox-runner.ts:61-79 | A copy has room exactly when no file comes to lie beneath a file. |
| `Runner.CopyingKeepsFileSystem` | commercial-service/lib/full-plan-sandbox-runner.ts:49-79 | A finished copy loop leaves a workspace a file system can hold. |
| `Runner.CopiesAreGenuine` | commercial-service/lib/full-plan-sandbox-runner.ts:49-79 | On any workspace a finished copy loop met no blocker and left at every copied path content of the declared digest in the declared mode. |
| `Runner.FinishedRun` | commercial-service/lib/full-plan-sandbox-runner.ts:36-126 | A run that finishes was of a safe conflict-free sandbox plan and left a file at every write path; an unsafe plan is refused on every workspace. |
| `Runner.Workspace.CopyRow` | commercial-service/lib/full-plan-sandbox-runner.ts:50-79 | One row: the guards in order, the source's digest, and the file written with its mode. |
| `Runner.Workspace.CopyRelease` | commercial-service/lib/full-plan-sandbox-runner.ts:49-79 | The copy loop stops with the first row's error or leaves all copies made and lists the write paths. |
| `Runner.Workspace.Run` | commercial-service/lib/full-plan-sandbox-runner.ts:36-126 | The whole program as a function of the workspace: guards, copies, bootstrap script, expected outputs. |
| `Runner.CopiesSucceed` | commercial-service/lib/full-plan-sandbox-runner.ts:50-79 | On paths that stay out of the input directory and out of each other's way, supplied rows copy without an error and end up as release content and mode. |
| `Runner.RunnableRuns` | commercial-service/lib/full-plan-sandbox-runner.ts:36-126 | On its own request's workspace a runnable plan runs exactly when a bootstrap's script is copied, producing exactly the planned writes; otherwise it fails on the missing script. |
| `Runner.EmptyBootstrapRefused` | commercial-service/lib/full-plan-sandbox-runner.ts:42-43 | Every planned `bootstrap_empty` payload is safe and is refused by the runner on every workspace. |
| `Runner.SettledPlansRun` | commercial-service/lib/repository-supervisor-planner.ts:266-356 | Safe conflict-free plans in the other modes, planned so or resolved, are runnable, and a bootstrap copies exactly the files not kept as the target's. |
| `Runner.KeptByAnswer` | commercial-service/lib/repository-supervisor-planner.ts:569-594 | A resolved bootstrap keeps the target's script exactly when `keep_target` was answered for its path. |
| `Runner.ScriptCopied` | commercial-service/lib/full-plan-sandbox-runner.ts:61-79 | A bootstrap's script is copied exactly when it was not kept. |
| `Runner.AdoptionAsksForTheScript` | commercial-service/lib/repository-supervisor-planner.ts:293-311 | Adoption blocks on the script exactly when the target has a different one, and keeping it is then an acceptable answer. |
| `Runner.ResolvedPlansRun` | commercial-service/lib/full-plan-sandbox-runner.ts:36-126 | A safe resolved plan runs and passes the verifier exactly when, for a bootstrap, `keep_target` was not answered for the script; otherwise it fails on the missing file. |
| `Runner.OutputsVerify` | commercial-service/lib/repository-supervisor-full-apply.ts:170-196 | What a finished run leaves passes the verifier, and the artifact checks exactly when its size allows. |
| `Runner.PlannerRunnerVerifierAgree` | commercial-service/lib/full-plan-sandbox-runner.ts:36-126 | Every safe conflict-free plan not for an empty repository, planned so or resolved, runs exactly when it keeps no bootstrap script, produces exactly the requested paths and is accepted by the verifier; for repairs and upgrades without any condition. |
| `WorkerPool.Pool.Step` | commercial-service/lib/repository-supervisor-full-apply.ts:461-483 | One uninterrupted turn of a worker on the shared cursor and entries. |
| `WorkerPool.StepKeepsInv` | commercial-service/lib/repository-supervisor-full-apply.ts:461-483 | Every turn keeps: each taken index has its own entry or exactly one worker holding it. |
| `WorkerPool.TurnDecreases` | commercial-service/lib/github.ts:457-496 | Every turn brings the pool closer to its end. |
| `WorkerPool.ScheduleIndependence` | commercial-service/lib/github.ts:452-496 | For any number of workers and any schedule no more requests than that are under way, each index is requested once and in order, the run is bounded, a pool that cannot go on has finished or failed, and a successful finish leaves entry i built from file i. |
| `Ledger.PlanStore.BeginApplyLease` | commercial-service/lib/repository-supervisor-full-apply.ts:215-261 | The transaction that answers a known key, refuses a running or stuck apply or takes the lease. |
| `Ledger.PlanStore.CompleteApply` | commercial-service/lib/repository-supervisor-full-apply.ts:304-348 | Records the applied plan and its reply exactly when the operation still owns the row and the key is new. |
| `Ledger.PlanStore.MarkInitializationRecoveryRequired` | commercial-service/lib/repository-supervisor-full-apply.ts:287-302 | Flags the owner's row with the seed and what is left of the branch, and changes nobody else's. |
| `Ledger.PlanStore.CommitBoundedApply` | commercial-service/lib/repository-supervisor-write.ts:681-692 | For a new key records a bounded apply only on a planned row and stores its reply in any case; answers with the call's own branch and head unless the key is another call's. |
| `Ledger.PlanStore.CommitOpenPullRequest` | commercial-service/lib/repository-supervisor-write.ts:748-756 | Sets `pr_open` and the number whatever the status, unless the key is known. |
| `Ledger.PlanStore.CommitMerge` | commercial-service/lib/repository-supervisor-write.ts:895-902 | Sets `merged` and the merge commit, unless the key is known. |
| `Ledger.LeaseKeepsOthersOut` | commercial-service/lib/repository-supervisor-full-apply.ts:234-249 | For twenty minutes a second call is told that an apply is in progress, afterwards that the plan needs recovery; it never gets the lease. |
| `Ledger.WritesItsOwn` | commercial-service/lib/repository-supervisor-write.ts:748-756 | The recorded pull request number is that of the last opening call, the merge commit that of the last merging call; a new key stores its own reply and no stored reply is ever replaced. |
| `Ledger.UsedKeys` | commercial-service/lib/repository-supervisor-write.ts:468-488 | A used key changes nothing and conflicts exactly when it was used for another plan or operation. |
| `Ledger.StepKeepsInv` | commercial-service/lib/repository-supervisor-full-apply.ts:215-348 | Every transaction of every concurrent call keeps the ledger invariant, among it that an applied full plan's receipt is that of a good run. |
| `Ledger.OnlyTheOwnerMovesOn` | commercial-service/lib/repository-supervisor-full-apply.ts:236-239 | No other call and no expired lease changes a row that is being applied. |
| `Ledger.Handover` | commercial-service/lib/repository-supervisor-full-apply.ts:215-348 | Over any run, applying passes to another operation only through an exit of the first. |
| `Ledger.AppliedOnce` | commercial-service/lib/repository-supervisor-write.ts:681-691 | Over any run an applied plan stays applied, open or merged, and its mode, expected head, branch, head, receipt and seed are never rewritten. |
| `Ledger.ReceiptChain` | commercial-service/lib/repository-supervisor-write.ts:836-847 | In every reachable state an open plan passes the merge's row guards; an applied full plan carries the 64-hex receipt of a run that exited cleanly, was not timed out or cut off, and whose outputs are exactly the plan's writes, and an empty-repository one its seed pair. |
| `Ledger.RetryAgrees` | commercial-service/lib/repository-supervisor-full-apply.ts:222-232 | A retried full apply gets the branch and head the row records and changes nothing. |
| `Ledger.MergedRegresses` | commercial-service/lib/repository-supervisor-write.ts:748-756 | A merged plan can go back to `pr_open` in one step exactly when an opening call is pending. |
| `Ledger.MergedIsFinal` | commercial-service/lib/repository-supervisor-write.ts:702-709 | With none pending, merged is final. |
| `Ledger.RegressionHappens` | commercial-service/lib/repository-supervisor-write.ts:695-757 | From any applied plan two overlapping opening calls lead there. |
| `Ledger.BoundedAnswerAgrees` | commercial-service/lib/repository-supervisor-write.ts:672-692 | A bounded apply's answer tells the branch and head recorded after it exactly when its update took or they were recorded already. |
| `Ledger.BoundedRaceMisreports` | commercial-service/lib/repository-supervisor-write.ts:568-693 | Two overlapping bounded applies: the second is answered with a branch the plan does not record, and a retry with the recorded one. |
| `Ledger.PlanStore.LoadForBoundedApply` | commercial-service/lib/repository-supervisor-write.ts:574-592 | The guards on the loaded row: an applied plan is answered from the row, any other unplanned one refused. |
| `Ledger.RetriesAnswerTheRow` | commercial-service/lib/repository-supervisor-write.ts:577-585 | After every continuation of an applied plan a later call is answered with the recorded branch and head. |
| `FullApply.Host.CreateCommit` | commercial-service/lib/repository-supervisor-full-apply.ts:435-521 | The commit's one parent is the base; its tree is the base's with the entries laid over it whenever that is a Git tree. |
| `FullApply.SandboxOutputs` | commercial-service/lib/repository-supervisor-full-apply.ts:648-656 | Outputs are handed on exactly when the driver's identity and limits, the artifact checks and the plan's checks all hold. |
| `FullApply.InitializeEmptyRepositorySeed` | commercial-service/lib/repository-supervisor-full-apply.ts:366-433 | Which seed is returned, reported and committed, as functions of the answers; a returned seed is the root commit at the head. |
| `FullApply.PublishBranch` | commercial-service/lib/repository-supervisor-full-apply.ts:688-701 | When the branch is created, verified, withdrawn and left, each exactly, as functions of the answers; success has the default branch still at the base. |
| `FullApply.TryApply` | commercial-service/lib/repository-supervisor-full-apply.ts:647-726 | Commit, seed, branches, the source's `branchCreated` and the error of a failing step are what the inputs say; success means the plan was applied as planned. |
| `FullApply.Compensate` | commercial-service/lib/repository-supervisor-full-apply.ts:727-748 | Cleans up, then flags the row with the reported seed and what remains of the branch, or gives it back, and says which, as the inputs say. |
| `FullApply.ApplyGithubSupervisorPlan` | commercial-service/lib/repository-supervisor-full-apply.ts:564-749 | Unstarted calls change nothing and are answered with the recorded branch and head, of the row once applied and otherwise of the key's own reply, or with the error of the guard that refused, each exactly when; for every sequence of failures the ledger row, the branches, the seed commit and the error are what the inputs say; it answers with a plan exactly when it recorded one, and that one was applied as planned. |
| `FullApply.EntryIsDetermined` | commercial-service/lib/repository-supervisor-full-apply.ts:577-641 | A call is started, answered from the record or refused with one error, never two of them. |
| `FullApply.RefusalExactly` | commercial-service/lib/repository-supervisor-full-apply.ts:594-619 | The contract guards let through exactly the permitted plans and otherwise refuse with the error of the first that fails. |
| `FullApply.LaterCallsAnswered` | commercial-service/lib/repository-supervisor-full-apply.ts:585-592 | After any continuation of an applied plan a later full apply is not started and is answered with the recorded branch and head. |
| `FullApply.RetriesAfterApply` | commercial-service/lib/repository-supervisor-full-apply.ts:585-592 | From one recorded apply, over whatever follows, every later call is answered with the branch and commit that apply made. |
| `FullApply.CompensationIsComplete` | commercial-service/lib/repository-supervisor-full-apply.ts:643-748 | A started apply ends `planned`, `applying`, `applied` or flagged, each exactly in its stated case and with its guarantee: given back only with no verified branch and no reported seed left, applied only when the branch stands at the recorded commit. |
| `FullApply.GivenBackLeaves` | commercial-service/lib/repository-supervisor-full-apply.ts:531-549 | A plan given back leaves its branch exactly when the branch was created but not seen to the end, and a seed exactly when it was made unreported. |
| `FullApply.BranchCanBeLeft` | commercial-service/lib/repository-supervisor-full-apply.ts:531-549 | To every startable plan with a known base and a free branch it happens that the plan is given back and the branch stays. |
| `FullApply.SeedCanBeLost` | commercial-service/lib/repository-supervisor-full-apply.ts:399-414 | To every startable plan for an empty repository it happens that the plan is given back and the seed commit stays. |
| `FullApply.ApplyIsALedgerRun` | commercial-service/lib/repository-supervisor-full-apply.ts:640-748 | From any state of the ledger a started apply is an enabled start and an enabled end of the ledger's state machine, and leaves the ledger those steps lead to. |
| `FullApply.AppliedPlanMeaning` | commercial-service/lib/repository-supervisor-full-apply.ts:647-726 | An applied repair or upgrade left a branch at a commit whose only parent is the expected base; its tree is the plan's exactly when the writes fit the base. |
| `FullApply.AppliedBootstrap` | commercial-service/lib/repository-supervisor-full-apply.ts:647-726 | An applied plan for an empty repository left a root commit with the seed file alone and on it a commit with exactly the planned writes, the seed file gone. |
| `FullApply.AppliedContents` | commercial-service/lib/repository-supervisor-full-apply.ts:435-521 | A conflict-free repair or upgrade, planned so or resolved, on the expected head's tree and applied leaves other and preserved files as they were and the release everywhere else. |
| `FullApply.PlanApplyReplan` | commercial-service/lib/repository-supervisor-planner.ts:386-484 | After an unresolved one planning again finds nothing to do. |
| `CanonicalJson.RoundTrip` | commercial-service/lib/repository-supervisor-write.ts:193-200 | Parsing a rendered value gives it back and leaves what followed it. |
| `CanonicalJson.CharsRoundTrip` | commercial-service/lib/repository-supervisor-write.ts:197-199 | String escaping, with lone surrogates escaped, is undone by the parser (RFC 8259, section 7). |
| `CanonicalJson.CanonAgrees` | commercial-service/lib/crypto.ts:17-22 | Sorting keys identifies exactly the values that are the same up to key order. |
| `CanonicalJson.KeysAscend` | commercial-service/lib/repository-supervisor-write.ts:193-200 | Sorting keeps the members and leaves the keys ascending by code units. |
| `CanonicalJson.BeforeMeans` | commercial-service/lib/repository-supervisor-write.ts:193-200 | Keys compare by their first differing code unit, a proper prefix coming first. |
| `CanonicalJson.StableJsonInjective` | commercial-service/lib/repository-supervisor-write.ts:193-200 | Two values render alike exactly when they are the same up to key order, and parsing the rendering gives such a value. |
| `CanonicalJson.StableLength` | commercial-service/lib/repository-supervisor-full-apply.ts:59-66 | The stable rendering is as long in bytes as the plain one. |
| `CanonicalJson.RenderedBytes` | commercial-service/lib/repository-supervisor-write.ts:389-391 | A rendered value is well-formed UTF-16, so its UTF-8 bytes are as many as its text counts. |
| `CanonicalJson.Utf8RoundTrip` | commercial-service/lib/repository-supervisor-write.ts:189-191 | UTF-8 encoding loses nothing of a well-formed text, such as every rendered value. |
| `CanonicalJson.LoneSurrogatesCollide` | commercial-service/lib/repository-supervisor-write.ts:189-191 | It does lose lone surrogates, which is why the rendering must escape them. |
| `CanonicalJson.PlanHashBinds` | commercial-service/lib/repository-supervisor-write.ts:382-392 | With a digest of bytes that has no collisions, equal plan hashes mean the same repository, branch, head and payload, and conversely. |
| `Elections.Coordination.Elect` | scripts/supervisor_lease.py:93-151 | An undisturbed election, as one function of the board: it wins exactly when the lease has run out, the next ref is free and the state is persisted; a failed write gives the ref back or reports the orphan. The winner alone verifies, for the minutes asked and at least five, and until then nobody else is electable. |
| `Elections.Coordination.SupervisorHeartbeat` | scripts/lease_control.py:126-134 | Taken exactly when the caller verifies and nobody wrote in between; then the same epoch, token and agent, and nobody else, verify exactly until the heartbeat's instant plus the minutes asked, at least five, and no election is let in before. Otherwise the others' state stands. |
| `Elections.Coordination.SupervisorRelease` | scripts/lease_control.py:137-149 | Relinquishes exactly when the caller verifies, the asked-for deletion works and nobody wrote in between; then nobody verifies any more and an election is let in at once. The deletion stands either way. |
| `Elections.AloneElects` | scripts/supervisor_lease.py:93-151 | The steps of an election run alone do what the election as a whole does, whatever its end. |
| `Elections.ElectedHolds` | scripts/supervisor_lease.py:105-141 | An elected record verifies for exactly its agent and token until the minutes asked, at least five, are over. |
| `Elections.BeatenHolds` | scripts/lease_control.py:126-149 | A heartbeat keeps epoch, token, agent and election ref and moves the end; a release ends the authority at once. |
| `Elections.LiveIsHeld` | scripts/anpos_guard.py:206-214 | A live Supervisor's token verifies, and nobody else's, exactly until its lease ends. |
| `Elections.NobodyTakesOver` | scripts/supervisor_lease.py:96-101 | Over every careful run without its own writes and with no election of the next epoch under way a Supervisor stays in charge until its lease ends. |
| `Elections.RecoveryAloneSpares` | scripts/lease_control.py:152-168 | An undisturbed recovery takes exactly the ref it names, never the active election's. |
| `Elections.StepKeepsInv` | scripts/supervisor_lease.py:93-148 | Every step of every command keeps: a ref holder aims at the next epoch and is alone, a late election is bound to lose. |
| `Elections.ElectionsAreFenced` | scripts/anpos_guard.py:206-214 | Over every careful interleaving with crashes the written epochs strictly increase and a superseded token never verifies again. |
| `Elections.OneWinnerPerEpoch` | scripts/supervisor_lease.py:93-148 | Over every careful run from any state file each epoch is written at most once. |
| `Elections.DeletionIsSafeWhenIdle` | scripts/lease_control.py:137-168 | Deleting an election ref is safe exactly when no election is under way for it. |
| `Elections.DeletingStepIsSafe` | scripts/lease_control.py:137-168 | An unlock or recovery step that can happen is safe exactly when it is harmless. |
| `Elections.UnlockDoublesAnEpoch` | scripts/lease_control.py:137-149 | From any state file whose lease has run out a run with one remote unlock gives the next epoch two winners. |
| `Elections.StalledElectorWins` | scripts/lease_control.py:137-149 | After a remote unlock a stalled election wins an old epoch and overwrites the state. |
| `Elections.HolderDoubled` | scripts/lease_control.py:152-168 | Recovering a ref that an election holds gives its epoch a second winner. |
| `Elections.OrphanBlocksForever` | scripts/supervisor_lease.py:123-148 | An election that died after creating its ref, with no live Supervisor, leaves a state nothing ever changes again. |
| `Elections.OrphanHappens` | scripts/supervisor_lease.py:123-148 | From any such state file one crash leads there. |
| `Elections.ElectableWhenRefFree` | scripts/supervisor_lease.py:93-148 | With only elections under way and no lease left, some run elects a Supervisor exactly when the next epoch's ref is free. |
| `Claims.PickedIsFirst` | scripts/claim_slot.py:101-112 | The picked slot is free with all its dependencies merged or completed; no candidate has a higher priority, and none of its priority an id that comes before in string order. |
| `Claims.CoordinationDesk.EnforceBudgets` | scripts/claim_slot.py:80-98 | Passes exactly with cost limits set, room under the parallel limit and a permitted depth. |
| `Claims.CoordinationDesk.ClaimSlot` | scripts/claim_slot.py:151-202 | The claim command with its three endings: persisted, rolled back, ref left behind. |
| `Claims.ClaimWinsExactly` | scripts/claim_slot.py:151-202 | A claim that is written wins exactly with a slot to pick, cost limits, room, a permitted depth, a live Supervisor, handoff and authorization, and a free ref. |
| `Claims.WonClaimIsHeld` | scripts/claim_slot.py:165-194 | A won claim's slot, and no other, takes heartbeats exactly from the claiming agent with the issued token and the identity evidence it claimed with, under a live Supervisor of that epoch, until the minutes asked, at least five, are over. |
| `Claims.BeatMovesTheEnd` | scripts/lease_control.py:70-94 | A taken heartbeat moves that end to its own instant plus the minutes asked, at least five, and changes nothing else. |
| `Claims.ReleaseEndsTheLease` | scripts/lease_control.py:97-123 | After a release nobody beats for the slot; it is canceled, or free and unclaimed, and its ref is gone exactly when the unlock was asked for. |
| `Claims.ActiveCountMeans` | scripts/claim_slot.py:80-98 | The parallel budget counts every slot from its claim to its merge. |
| `Claims.StringBeforeMeans` | scripts/claim_slot.py:101-112 | Ids compare by their first differing character, a proper prefix coming first. |
| `Claims.CoordinationDesk.WorkerHeartbeat` | scripts/lease_control.py:70-94 | Extends the lease of exactly the slot whose owner, token, epoch, live lease and identity all match. |
| `Claims.CoordinationDesk.WorkerRelease` | scripts/lease_control.py:97-123 | Ends a live lease, frees or cancels the slot and deletes the ref when asked, for the verified Supervisor only. |
| `Claims.CoordinationDesk.RecoverRef` | scripts/lease_control.py:152-168 | Deletes a coordination ref unless it is the active election's or a live lease holds it. |
| `Claims.CoordinationDesk.MutateQueue` | scripts/coordination_mutation.py:59-106 | Replaces the queue exactly for the verified Supervisor, on the expected content, by allowed transitions. |
| `Claims.ValidateQueueTransitions` | scripts/coordination_mutation.py:38-56 | Accepts exactly the replacements that drop no slot, take only listed transitions and keep an active slot's claim. |
| `Claims.EnteredFrom` | config/protocol/state-machine.json:3-14 | From which statuses each slot status is entered. |
| `Claims.GatewayKeepsHolders` | scripts/coordination_mutation.py:52-56 | The gateway leaves claimant, claim id, epoch and token of every active slot as they are. |
| `Claims.ApprovalWasReviewed` | scripts/coordination_mutation.py:38-56 | Over every run a slot that becomes approved was submitted for review. |
| `Claims.MergedWasReviewed` | scripts/coordination_mutation.py:38-56 | Over every run and whatever the commands, a slot that ends merged or completed was submitted for review and afterwards approved. |
| `Claims.StepKeepsInv` | scripts/claim_slot.py:165-199 | Every command keeps refs backing live leases, the claim order and the budget. |
| `Claims.ClaimsAreBacked` | scripts/lease_control.py:70-168 | From an unclaimed queue, over every run: live leases have their refs, refs are distinct, active slots stay within the budget, units are claimed after what they depend on. |
| `Claims.CyclesNeverStart` | scripts/claim_slot.py:68-77 | Work that waits for itself, also counting slots added meanwhile, never becomes active or done. |
| `Claims.RecoverySpares` | scripts/lease_control.py:152-168 | Recovery removes at most the ref it names, refuses the active election's, and never removes a ref whose lease is active, expired or orphaned. |
| `Claims.CrashedReleaseUnbacks` | scripts/lease_control.py:97-108 | Whenever a release with the unlock can happen, dying after its deletion leaves a live lease without its ref. |
| `Claims.CrashHappens` | scripts/lease_control.py:97-108 | It can happen after any claim that is won on an unclaimed queue. |
| `Claims.ReopenedSlotStaysLocked` | scripts/lease_control.py:111-119 | Over every run in which its old ref is not recovered, a claim that passes every other guard and picks a slot reopened without the unlock is lost while the epoch is the old one; it is lost exactly when the ref it needs exists. |
| `Claims.StepKeepsStanding` | scripts/lease_control.py:152-168 | A ref no slot claims goes on standing through every step except exactly its own recovery. |
| `Claims.RecoveryUnlocks` | scripts/lease_control.py:152-168 | Recovering the ref turns the lost claim into a won one. |
| `Seats.SeatTable.AssignSeat` | commercial-service/lib/seats.ts:45-89 | Assigns exactly when the entitlement is an active organization's and seats are left, and reports the count after it. |
| `Seats.SeatTable.RevokeSeat` | commercial-service/lib/seats.ts:91-126 | Revokes the seat, its grants and queues reconciliation exactly when the seat was active. |
| `Seats.AssignExactly` | commercial-service/lib/seats.ts:45-89 | Exactly when an assignment seats the user, finds the seat taken, or is refused and with which error. |
| `Seats.StepKeepsInv` | commercial-service/lib/seats.ts:45-89 | Under the row locks every statement keeps a counted assignment's knowledge true. |
| `Seats.CommitWithinCapacity` | commercial-service/lib/seats.ts:63-73 | No assignment commits with the entitlement not an active organization's or the seats at the recorded capacity. |
| `Seats.SeatsStayWithin` | commercial-service/lib/seats.ts:45-126 | Over every interleaving the active seats stay within the larger of the capacity and the initial number. |
| `Seats.AloneLikeWhole` | commercial-service/lib/seats.ts:45-89 | The statements run alone seat the user exactly when the assignment as a whole does, and stop without a change where it is refused or finds the seat taken. |
| `Seats.AloneRevokes` | commercial-service/lib/seats.ts:91-126 | The statements of a revocation run alone take exactly the user's seat. |
| `RateLimit.RateLimiter.ConsumeRateLimit` | commercial-service/lib/rate-limit.ts:10-54 | Accepts exactly the arguments within the stated bounds and rejects others unchanged; otherwise counts the call in its window and decides from the count. |
| `RateLimit.RateLimiter.Serve` | commercial-service/lib/rate-limit.ts:22-46 | Over a whole trace, a call is allowed exactly when its window held fewer than the limit before it. |
| `RateLimit.PerWindow` | commercial-service/lib/rate-limit.ts:22-46 | A window allows at most the limit. |
| `RateLimit.RemainingIsLeft` | commercial-service/lib/rate-limit.ts:38-46 | The remaining number is how many more calls of the window are allowed. |
| `RateLimit.RemainingInTrace` | commercial-service/lib/rate-limit.ts:22-46 | In a trace a later call of the window is allowed exactly when no more than the told number have come since. |
| `RateLimit.FixedWindowBound` | commercial-service/lib/rate-limit.ts:22-46 | Any half-open stretch of a window's length has at most twice the limit allowed. |
| `RateLimit.BoundIsAttained` | commercial-service/lib/rate-limit.ts:22-46 | Two bursts around a window's edge attain that bound. |
| `RateLimit.RetryLeavesWindow` | commercial-service/lib/rate-limit.ts:33-36 | Waiting as told leaves the window that refused, and no hint above one second is longer than that takes. |

## Left out

- The response texts and the listing and preview views: wording without a decision.
- Normalising input before it is checked: trimming and lower-casing paths, handles, tokens and object ids.
- Planner.BuildFullPlannerPayload: leaves out the reasons of the actions and the requirements block, which is the mode and the AI drift flag in other words plus a summary passed through; the three path lists of the policy are parameters.
- The expiry of a stored plan, the plan's owner and billing account, and sealing of the payload.
- Repository identity and default-branch name checks: folded into a look at the default branch that gives no answer.
- A COMMIT whose outcome is unknown, and a clock that differs between hosts.
- FullApply.ApplyGithubSupervisorPlan: a bounded plan is only handed on to the bounded apply, whose ledger steps are in `Ledger` and whose blob and tree requests are not modelled.
- FullApply.Host.CreateCommit: takes tree and commit as one request outcome and the blobs as another; the worker pool that posts the blobs is `WorkerPool`, the commit message is not modelled, and what the host makes of entries that fit no Git tree is arbitrary.
- PlanMeaning.OverlayAt: is about trees as maps from paths; when such a map is a Git tree is `PlanMeaning.PlanTreeIsGitTree`.
- PlanMeaning.VerifyFullApplySandboxOutputs: does not sort the accepted outputs by path, and `SandboxRequest.OutputPathsAre` lists output paths in plan order; no check looks at the order.
- PlanMeaning.Convergence: is about unresolved plans, since what was resolved by keeping the target's file blocks again; takes the order of tree listings as any strict order both listings follow.
- Resolution.ValidateStoredFullPlannerPayload: does not model fields of the wrong JSON type, since payloads are typed.
- Resolution.ValidateLineage: path lengths count characters, not UTF-16 code units; the same holds for every 512-character limit.
- Runner.Workspace.Run: the plan is a value, `plan.json` being its rendering, which a parser undoes (`CanonicalJson.RoundTrip`); the guards against an unknown mode, action or row shape cannot fire on a typed payload; symbolic links do not exist in the workspace; the receipt it prints is not modelled.
- Runner.SafeRelativeAgrees: the runner also accepts `.` parts and doubled slashes, which the service refuses before it.
- Runner.PlannerRunnerVerifierAgree: for bootstraps it is relative to a script that behaves as `Runner.Tame` says on the copied files; what the script writes is not modelled.
- SandboxRequest.StoredPlansFit: takes the payload's JSON value as a function of the payload.
- SandboxRequest.NormalizeSandboxRequest: the command, working directory, environment names and source identity are constants of this caller and are not modelled.
- CanonicalJson.StableJsonInjective: number rendering is taken as the literal text; values outside JSON such as undefined members are not modelled.
- Ledger.StepKeepsInv: calls to GitHub between the guards and the transaction are the freedom of the interleaving, not modelled requests; checks of pull request state and CI before a merge only make fewer runs possible.
- Elections.ElectionsAreFenced: identity and authorization checks only make fewer runs possible and are left out.
- Claims.StepKeepsInv: assumes of a gateway mutation that it leaves claims to the claim command (`Claims.LeavesClaims`): it may reorder slots and add unclaimed ones, but not mark a free slot as claimed, as the shipped transition table would let it, nor add one already done.
- Claims.CoordinationDesk.ClaimSlot: eligibility, capability, path, tool and scope authorization are one verdict given as input, and so is the handoff envelope apart from the work unit.
- Seats.SeatsStayWithin: the environment's seat limits are part of the locked entitlement's recorded capacity.
- RateLimit.RateLimiter.ConsumeRateLimit: the database's failure to return a row is not modelled.
- Marketplace, OAuth, entitlement reconciliation, vendor export, marker checks and artwork: thin branching, byte comparison or drawing, which would only add easy members.
