/** Explicit conflict resolution: a blocked plan and one decision per blocker give a resolved plan. */
module Resolution {
  import opened Common
  import opened Policy
  import opened Planner

  const MAX_ACTIONS := 5000

  /** A resolution as received: `path` is already trimmed ("" when it was not text) and
      `expectedTarget` is None when it was absent or empty. */
  datatype RawResolution =
    RawResolution(path: string, resolution: string, expectedTarget: Option<string>, acknowledge: bool)

  datatype ResolveError =
    | PayloadInvalid | DoesNotRequireResolution | SourcePlanIdInvalid | SourcePlanHashInvalid | ResolverInvalid
    | NoResolvableConflicts | ExactResolutionRequired | PathInvalidOrDuplicate | PathNotBlocking | ChoiceInvalid
    | ExpectedTargetInvalid | TargetObjectChanged | KeepTargetMissing | AcknowledgementRequired
    | StillUnresolved | StillContainsConflicts

  // ---- Stored payloads ----

  predicate IsPlanId(s: string) {
    |s| == 36 && forall i :: 0 <= i < |s| ==> IsHexDigit(s[i]) || s[i] == '-'
  }

  predicate IsHandle(s: string) {
    1 <= |s| <= 39 && s[0] != '-' &&
    forall i :: 0 <= i < |s| ==> 'A' <= s[i] <= 'Z' || 'a' <= s[i] <= 'z' || '0' <= s[i] <= '9' || s[i] == '-'
  }

  /** A handle is a letter or digit and at most 38 more letters, digits or dashes. */
  lemma HandleMeans(s: string)
    ensures IsHandle(s) <==>
      exists first, rest :: s == [first] + rest && IsAlphanumeric(first) && |rest| <= 38 &&
        forall i :: 0 <= i < |rest| ==> IsAlphanumeric(rest[i]) || rest[i] == '-'
  {
    if s != "" {
      assert s == [s[0]] + s[1..];
    }
  }

  predicate IsAlphanumeric(c: char) {
    'A' <= c <= 'Z' || 'a' <= c <= 'z' || '0' <= c <= '9'
  }

  predicate ValidDecision(d: Decision) {
    0 < |d.path| <= 512 && (d.expectedTarget.Some? ==> IsHex(d.expectedTarget.value, 40))
  }

  predicate ValidLineage(r: Resolution) {
    IsPlanId(r.sourcePlanId) && IsHex(r.sourcePlanHash, 64) && IsHandle(r.resolvedBy) &&
    1 <= |r.decisions| <= MAX_ACTIONS &&
    (forall i :: 0 <= i < |r.decisions| ==> ValidDecision(r.decisions[i])) &&
    forall i, j :: 0 <= i < j < |r.decisions| ==> r.decisions[i].path != r.decisions[j].path
  }

  predicate ValidAction(a: PlannerAction) {
    0 < |a.path| <= 512 && a.path[0] != '/' && '\\' !in a.path && SafeParts(a.path) &&
    IsHex(a.releaseObject, 40) && IsHex(a.releaseSha256, 64) &&
    (a.releaseMode == "100644" || a.releaseMode == "100755") &&
    (a.targetObject.Some? ==> IsHex(a.targetObject.value, 40))
  }

  predicate DistinctPaths(actions: seq<PlannerAction>) {
    forall i, j :: 0 <= i < j < |actions| ==> actions[i].path != actions[j].path
  }

  predicate ValidStored(p: Payload) {
    IsHex(p.release.releaseRef, 40) && IsHex(p.release.sourceRevision, 40) && IsHex(p.release.sourceTree, 40) &&
    |p.actions| <= MAX_ACTIONS &&
    (p.resolution.Some? ==> ValidLineage(p.resolution.value)) &&
    (forall i :: 0 <= i < |p.actions| ==> ValidAction(p.actions[i])) &&
    DistinctPaths(p.actions)
  }

  lemma StoredPathsDiffer(p: Payload)
    requires ValidStored(p)
    ensures DistinctPaths(p.actions)
  {
  }

  method ValidateLineage(r: Resolution) returns (ok: bool)
    ensures ok <==> ValidLineage(r)
  {
    if !IsPlanId(r.sourcePlanId) || !IsHex(r.sourcePlanHash, 64) || !IsHandle(r.resolvedBy)
      || |r.decisions| < 1 || |r.decisions| > MAX_ACTIONS { return false; }
    var seen: set<string> := {};
    for i := 0 to |r.decisions|
      invariant seen == set k | 0 <= k < i :: r.decisions[k].path
      invariant forall k :: 0 <= k < i ==> ValidDecision(r.decisions[k])
      invariant forall j, k :: 0 <= j < k < i ==> r.decisions[j].path != r.decisions[k].path
    {
      var d := r.decisions[i];
      if !ValidDecision(d) || d.path in seen { return false; }
      seen := seen + {d.path};
    }
    return true;
  }

  /** The checks every stored payload passes before it is resolved or applied. */
  method ValidateStoredFullPlannerPayload(p: Payload) returns (ok: bool)
    ensures ok <==> ValidStored(p)
  {
    if !IsHex(p.release.releaseRef, 40) || !IsHex(p.release.sourceRevision, 40) || !IsHex(p.release.sourceTree, 40)
      || |p.actions| > MAX_ACTIONS { return false; }
    if p.resolution.Some? {
      var lineage := ValidateLineage(p.resolution.value);
      if !lineage { return false; }
    }
    var seen: set<string> := {};
    for i := 0 to |p.actions|
      invariant seen == set k | 0 <= k < i :: p.actions[k].path
      invariant forall k :: 0 <= k < i ==> ValidAction(p.actions[k])
      invariant DistinctPaths(p.actions[..i])
    {
      var a := p.actions[i];
      if !ValidAction(a) || a.path in seen {
        if a.path in seen {
          var k :| 0 <= k < i && p.actions[k].path == a.path;
        }
        return false;
      }
      seen := seen + {a.path};
    }
    assert p.actions[..|p.actions|] == p.actions;
    return true;
  }

  // ---- Resolving ----

  function Blockers(actions: seq<PlannerAction>): seq<PlannerAction> {
    if actions == [] then []
    else
      var last := actions[|actions| - 1];
      Blockers(actions[..|actions| - 1]) + (if last.IsBlocker() then [last] else [])
  }

  predicate NeedsResolution(p: Payload) {
    p.implementation.ConflictResolutionRequired? && !p.conflictFree && !p.safeToApply
  }

  /** One resolution answers the blocker at its path. */
  predicate Answers(raw: RawResolution, b: PlannerAction) {
    raw.path == b.path && 0 < |raw.path| <= 512 &&
    (raw.resolution == "keep_target" || raw.resolution == "use_release") &&
    (raw.expectedTarget.Some? ==> IsHex(raw.expectedTarget.value, 40)) &&
    raw.expectedTarget == b.targetObject &&
    (raw.resolution == "keep_target" ==> b.targetObject.Some?) &&
    (raw.resolution == "use_release" && b.kind.MigrationReview? ==> raw.acknowledge)
  }

  function DecisionOf(raw: RawResolution): Decision {
    Decision(raw.path, if raw.resolution == "keep_target" then KeepTarget else UseRelease,
             raw.expectedTarget, raw.acknowledge)
  }

  /** Each resolution answers some blocker and no two name the same path. */
  predicate AllAnswered(blockers: seq<PlannerAction>, raws: seq<RawResolution>) {
    (forall i :: 0 <= i < |raws| ==> AnswersSome(raws[i], blockers)) && DistinctRaws(raws)
  }

  predicate AnswersSome(raw: RawResolution, blockers: seq<PlannerAction>) {
    exists j :: 0 <= j < |blockers| && Answers(raw, blockers[j])
  }

  predicate DistinctRaws(raws: seq<RawResolution>) {
    forall i, j :: 0 <= i < j < |raws| ==> raws[i].path != raws[j].path
  }

  /** What a decision makes of the blocker it answers. */
  function ResolvedAction(policy: PathPolicy, mode: Mode, a: PlannerAction, choice: Choice): PlannerAction {
    var kind :=
      if choice.KeepTarget? then PreserveProjectState
      else if (mode.BootstrapChild? || mode.AdoptExisting?) && policy.IsBootstrapTransform(a.path) then BootstrapTransform
      else if a.targetObject.Some? then ReplaceFromRelease
      else AddFromRelease;
    a.(kind := kind, confirmationRequired := false)
  }

  predicate ResolvesTo(policy: PathPolicy, mode: Mode, before: PlannerAction, after: PlannerAction,
                       decisions: map<string, Decision>)
  {
    if before.IsBlocker() then
      before.path in decisions && after == ResolvedAction(policy, mode, before, decisions[before.path].choice)
    else after == before
  }

  /** The resolved payload expression. */
  function AssembleResolved(source: Payload, actions: seq<PlannerAction>, counts: Counts, lineage: Resolution): Payload {
    source.(
      actions := actions,
      summary := source.summary.(counts := counts),
      resolution := Some(lineage),
      conflictFree := true,
      safeToApply := counts.add + counts.replace + counts.transform > 0,
      implementation := if counts.add + counts.replace + counts.transform > 0 then SandboxFullPlanV1 else NoChanges)
  }

  predicate ResolvedActions(policy: PathPolicy, mode: Mode, before: seq<PlannerAction>, after: seq<PlannerAction>,
                            decisions: map<string, Decision>)
  {
    |after| == |before| &&
    forall i :: 0 <= i < |before| ==> ResolvesTo(policy, mode, before[i], after[i], decisions)
  }

  predicate Lists(listed: seq<Decision>, blockers: seq<PlannerAction>, decisions: map<string, Decision>) {
    |listed| == |blockers| &&
    forall i :: 0 <= i < |blockers| ==> blockers[i].path in decisions && listed[i] == decisions[blockers[i].path]
  }

  /** `result` is `source` with its blockers replaced as decided and its verdict recomputed. */
  predicate Resolved(policy: PathPolicy, source: Payload, decisions: map<string, Decision>, result: Payload,
                     planId: string, planHash: string, login: string)
  {
    ResolvedActions(policy, source.mode, source.actions, result.actions, decisions) &&
    NoBlockers(result.actions) &&
    result.resolution.Some? &&
    Lists(result.resolution.value.decisions, Blockers(source.actions), decisions) &&
    result == AssembleResolved(source, result.actions, Tally(result.actions),
                               Resolution(planId, planHash, login, result.resolution.value.decisions))
  }

  /** The decisions a list of resolutions stands for. */
  function DecisionMap(raws: seq<RawResolution>): map<string, Decision> {
    if raws == [] then map[]
    else
      var last := raws[|raws| - 1];
      DecisionMap(raws[..|raws| - 1])[last.path := DecisionOf(last)]
  }

  function RawPaths(raws: seq<RawResolution>): set<string> {
    set i | 0 <= i < |raws| :: raws[i].path
  }

  lemma {:induction false} DecisionMapKeys(raws: seq<RawResolution>)
    ensures DecisionMap(raws).Keys == RawPaths(raws)
  {
    if raws != [] {
      DecisionMapKeys(raws[..|raws| - 1]);
      assert RawPaths(raws) == RawPaths(raws[..|raws| - 1]) + {raws[|raws| - 1].path};
    }
  }

  lemma {:induction false} DecisionMapAt(raws: seq<RawResolution>, i: nat)
    requires DistinctRaws(raws) && i < |raws|
    ensures raws[i].path in DecisionMap(raws) && DecisionMap(raws)[raws[i].path] == DecisionOf(raws[i])
  {
    var n := |raws| - 1;
    if i < n {
      DecisionMapAt(raws[..n], i);
      assert raws[..n][i] == raws[i];
    }
  }

  lemma {:induction false} RawPathCount(raws: seq<RawResolution>)
    requires DistinctRaws(raws)
    ensures |RawPaths(raws)| == |raws|
  {
    if raws != [] {
      RawPathCount(raws[..|raws| - 1]);
      assert RawPaths(raws) == RawPaths(raws[..|raws| - 1]) + {raws[|raws| - 1].path};
    }
  }

  lemma {:induction false} BlockersAre(actions: seq<PlannerAction>)
    ensures forall i :: 0 <= i < |Blockers(actions)| ==> Blockers(actions)[i] in actions && Blockers(actions)[i].IsBlocker()
    ensures |Blockers(actions)| <= |actions|
    ensures DistinctPaths(actions) ==> DistinctPaths(Blockers(actions))
  {
    if actions != [] {
      BlockersAre(actions[..|actions| - 1]);
    }
  }

  function PathsOfActions(actions: seq<PlannerAction>): set<string> {
    set i | 0 <= i < |actions| :: actions[i].path
  }

  lemma PathsOfNext(actions: seq<PlannerAction>)
    requires actions != []
    ensures var n := |actions| - 1; PathsOfActions(actions) == PathsOfActions(actions[..n]) + {actions[n].path}
  {
    var n := |actions| - 1;
    assert forall k :: 0 <= k < n ==> actions[..n][k] == actions[k];
  }

  lemma {:induction false} PathCount(actions: seq<PlannerAction>)
    requires DistinctPaths(actions)
    ensures |PathsOfActions(actions)| == |actions|
  {
    if actions != [] {
      var n := |actions| - 1;
      PathCount(actions[..n]);
      PathsOfNext(actions);
    }
  }

  /** Pigeonhole: when every resolution answers a blocker, no path repeats and the numbers agree,
      the decisions and the blockers are in bijection by path. */
  lemma DecisionsMatchBlockers(blockers: seq<PlannerAction>, raws: seq<RawResolution>)
    requires DistinctPaths(blockers) && |raws| == |blockers| && AllAnswered(blockers, raws)
    ensures DecisionMap(raws).Keys == PathsOfActions(blockers)
  {
    DecisionMapKeys(raws);
    RawPathCount(raws);
    PathCount(blockers);
    forall path | path in RawPaths(raws) ensures path in PathsOfActions(blockers) {
      var i :| 0 <= i < |raws| && raws[i].path == path;
      assert AnswersSome(raws[i], blockers);
      var j :| 0 <= j < |blockers| && Answers(raws[i], blockers[j]);
      assert blockers[j].path == path;
    }
    SubsetOfSameSize(RawPaths(raws), PathsOfActions(blockers));
  }

  /** Each blocker's decision is the one acceptable answer given for it. */
  lemma DecisionAnswers(blockers: seq<PlannerAction>, raws: seq<RawResolution>, j: nat) returns (i: nat)
    requires DistinctPaths(blockers) && |raws| == |blockers| && AllAnswered(blockers, raws) && j < |blockers|
    ensures i < |raws| && Answers(raws[i], blockers[j])
    ensures blockers[j].path in DecisionMap(raws) && DecisionMap(raws)[blockers[j].path] == DecisionOf(raws[i])
  {
    DecisionsMatchBlockers(blockers, raws);
    DecisionMapKeys(raws);
    assert blockers[j].path in PathsOfActions(blockers);
    i :| 0 <= i < |raws| && raws[i].path == blockers[j].path;
    DecisionMapAt(raws, i);
    assert AnswersSome(raws[i], blockers);
    var k :| 0 <= k < |blockers| && Answers(raws[i], blockers[k]);
    assert k == j;
  }

  method IndexByPath(blockers: seq<PlannerAction>) returns (m: map<string, PlannerAction>)
    requires DistinctPaths(blockers)
    ensures m.Keys == PathsOfActions(blockers)
    ensures forall j :: 0 <= j < |blockers| ==> m[blockers[j].path] == blockers[j]
  {
    m := map[];
    for i := 0 to |blockers|
      invariant m.Keys == set k | 0 <= k < i :: blockers[k].path
      invariant forall j :: 0 <= j < i ==> m[blockers[j].path] == blockers[j]
    {
      m := m[blockers[i].path := blockers[i]];
    }
  }

  /** The checks on one resolution once its blocker is found. */
  function CheckChoice(raw: RawResolution, b: PlannerAction): Option<ResolveError> {
    if raw.resolution != "keep_target" && raw.resolution != "use_release" then Some(ChoiceInvalid)
    else if raw.expectedTarget.Some? && !IsHex(raw.expectedTarget.value, 40) then Some(ExpectedTargetInvalid)
    else if raw.expectedTarget != b.targetObject then Some(TargetObjectChanged)
    else if raw.resolution == "keep_target" && b.targetObject.None? then Some(KeepTargetMissing)
    else if raw.resolution == "use_release" && b.kind.MigrationReview? && !raw.acknowledge then
      Some(AcknowledgementRequired)
    else None
  }

  /** The errors of the answers themselves. */
  predicate IsAnswerError(e: ResolveError) {
    e.PathInvalidOrDuplicate? || e.PathNotBlocking? || e.ChoiceInvalid? || e.ExpectedTargetInvalid? ||
    e.TargetObjectChanged? || e.KeepTargetMissing? || e.AcknowledgementRequired?
  }

  predicate IsResolveGuard(e: ResolveError) {
    !e.StillUnresolved? && !e.StillContainsConflicts?
  }

  lemma AnswersTheIndexed(blockers: seq<PlannerAction>, index: map<string, PlannerAction>, raw: RawResolution)
    requires DistinctPaths(blockers) && index.Keys == PathsOfActions(blockers)
    requires forall j :: 0 <= j < |blockers| ==> index[blockers[j].path] == blockers[j]
    ensures AnswersSome(raw, blockers)
      <==> 0 < |raw.path| <= 512 && raw.path in index && CheckChoice(raw, index[raw.path]).None?
  {
    if raw.path in index {
      var j :| 0 <= j < |blockers| && blockers[j].path == raw.path;
      assert forall k :: 0 <= k < |blockers| && blockers[k].path == raw.path ==> k == j;
      assert Answers(raw, blockers[j]) <==> 0 < |raw.path| <= 512 && CheckChoice(raw, blockers[j]).None?;
    }
  }

  lemma AnsweredPrefix(blockers: seq<PlannerAction>, raws: seq<RawResolution>, i: nat)
    requires i < |raws|
    ensures AllAnswered(blockers, raws[..i + 1])
      <==> AllAnswered(blockers, raws[..i]) && AnswersSome(raws[i], blockers) && raws[i].path !in RawPaths(raws[..i])
    ensures AllAnswered(blockers, raws) ==> AllAnswered(blockers, raws[..i + 1])
    ensures DecisionMap(raws[..i + 1]) == DecisionMap(raws[..i])[raws[i].path := DecisionOf(raws[i])]
  {
    hide Answers;
    var front, next := raws[..i], raws[..i + 1];
    assert next[..i] == front && next[i] == raws[i];
    assert forall k :: 0 <= k < i ==> next[k] == front[k] == raws[k];
    if AllAnswered(blockers, next) {
      forall k | 0 <= k < i ensures AnswersSome(front[k], blockers) && front[k].path != raws[i].path {
        assert AnswersSome(next[k], blockers);
      }
    }
    if AllAnswered(blockers, raws) {
      forall k | 0 <= k < i + 1 ensures AnswersSome(next[k], blockers) { assert next[k] == raws[k]; }
    }
  }

  /** The normalising loop: finishes exactly when every resolution answers a blocker of its own. */
  method NormalizeResolutions(blockers: seq<PlannerAction>, raws: seq<RawResolution>)
    returns (r: Result<map<string, Decision>, ResolveError>)
    requires DistinctPaths(blockers)
    ensures r.Ok? <==> AllAnswered(blockers, raws)
    ensures r.Ok? ==> r.value == DecisionMap(raws)
    ensures r.Err? ==> IsAnswerError(r.error) && SomeRefused(blockers, raws, r.error)
  {
    var blockerByPath := IndexByPath(blockers);
    var normalized: map<string, Decision> := map[];
    for i := 0 to |raws|
      invariant normalized == DecisionMap(raws[..i])
      invariant AllAnswered(blockers, raws[..i])
    {
      var raw := raws[i];
      AnsweredPrefix(blockers, raws, i);
      DecisionMapKeys(raws[..i]);
      AnswersTheIndexed(blockers, blockerByPath, raw);
      if raw.path == "" || |raw.path| > 512 || raw.path in normalized {
        assert RefusedAt(blockers, raws, i, PathInvalidOrDuplicate);
        return Err(PathInvalidOrDuplicate);
      }
      if raw.path !in blockerByPath {
        assert RefusedAt(blockers, raws, i, PathNotBlocking);
        return Err(PathNotBlocking);
      }
      var problem := CheckChoice(raw, blockerByPath[raw.path]);
      if problem.Some? {
        ghost var j :| 0 <= j < |blockers| && blockers[j].path == raw.path;
        assert blockers[j] == blockerByPath[raw.path];
        ChoiceRefusal(raw, blockers[j]);
        assert RefusedAt(blockers, raws, i, problem.value);
        return Err(problem.value);
      }
      normalized := normalized[raw.path := DecisionOf(raw)];
    }
    assert raws[..|raws|] == raws;
    return Ok(normalized);
  }

  /** The mapping pass over the actions; its guard fires when a blocker has no decision. */
  method MapActions(policy: PathPolicy, mode: Mode, actions: seq<PlannerAction>, decisions: map<string, Decision>)
    returns (r: Result<seq<PlannerAction>, ResolveError>)
    ensures r.Ok? <==> forall i :: 0 <= i < |actions| && actions[i].IsBlocker() ==> actions[i].path in decisions
    ensures r.Ok? ==> ResolvedActions(policy, mode, actions, r.value, decisions)
    ensures r.Err? ==> r.error == StillUnresolved
  {
    var out: seq<PlannerAction> := [];
    for i := 0 to |actions|
      invariant |out| == i
      invariant forall k :: 0 <= k < i && actions[k].IsBlocker() ==> actions[k].path in decisions
      invariant forall k :: 0 <= k < i ==> ResolvesTo(policy, mode, actions[k], out[k], decisions)
    {
      var a := actions[i];
      if !a.IsBlocker() {
        out := out + [a];
      } else {
        if a.path !in decisions { return Err(StillUnresolved); }
        out := out + [ResolvedAction(policy, mode, a, decisions[a.path].choice)];
      }
    }
    return Ok(out);
  }

  method SummarizeResolved(actions: seq<PlannerAction>) returns (r: Result<Counts, ResolveError>)
    ensures r.Ok? <==> NoBlockers(actions)
    ensures r.Ok? ==> r.value == Tally(actions)
    ensures r.Err? ==> r.error == StillContainsConflicts
  {
    var counts := CountActions(actions);
    TallyVerdict(actions);
    if counts.merge != 0 || counts.review != 0 { return Err(StillContainsConflicts); }
    return Ok(counts);
  }

  /** The passes after the loop: with a decision for every blocker, neither of their guards can fire. */
  method ApplyDecisions(policy: PathPolicy, source: Payload, planId: string, planHash: string,
                        decisions: map<string, Decision>, login: string)
    returns (result: Payload)
    requires decisions.Keys == PathsOfActions(Blockers(source.actions))
    ensures Resolved(policy, source, decisions, result, planId, planHash, login)
  {
    hide ResolvesTo;
    var blockers := Blockers(source.actions);
    BlockersCovered(source.actions, decisions);
    var mapped := MapActions(policy, source.mode, source.actions, decisions);
    var actions := mapped.value;
    ResolvedHasNoBlockers(policy, source.mode, source.actions, actions, decisions);
    var counted := SummarizeResolved(actions);
    assert forall i :: 0 <= i < |blockers| ==> blockers[i].path in PathsOfActions(blockers);
    var listed := seq(|blockers|, i requires 0 <= i < |blockers| => decisions[blockers[i].path]);
    result := AssembleResolved(source, actions, counted.value, Resolution(planId, planHash, login, listed));
  }

  /** The blockers keep the plan's order: each stands behind exactly the blockers that come before it. */
  lemma {:induction false} BlockerAt(actions: seq<PlannerAction>, k: nat)
    requires k < |actions| && actions[k].IsBlocker()
    ensures |Blockers(actions[..k])| < |Blockers(actions)| && Blockers(actions)[|Blockers(actions[..k])|] == actions[k]
  {
    var n := |actions| - 1;
    if k < n {
      BlockerAt(actions[..n], k);
      assert actions[..n][..k] == actions[..k];
    }
  }

  /** Of the planner's own plans exactly those with a blocking action ask to be resolved. */
  lemma BlockedPlansNeedResolution(policy: PathPolicy, input: PlanInput, hash: string -> string, p: Payload)
    requires PlanPayload(policy, input, hash) == Ok(p)
    ensures NeedsResolution(p) <==> !NoBlockers(p.actions)
  {
    VerdictMeaning(policy, input, hash, p);
    if p.mode.BootstrapEmpty? {
      forall i | 0 <= i < |p.actions| ensures !p.actions[i].IsBlocker() {
        EmptyBootstrapActions(policy, input.files[i], TreeOf(input.targetTree));
      }
    }
  }

  // ---- From the answers as given to the resolved plan ----

  /** `after` is what the answer makes of the blocker `before`: `keep_target` preserves the target's file,
      `use_release` transforms a bootstrap's transform path and otherwise replaces or adds the file. */
  predicate Carries(policy: PathPolicy, mode: Mode, raw: RawResolution, before: PlannerAction, after: PlannerAction) {
    var transform := (mode.BootstrapChild? || mode.AdoptExisting?) && policy.IsBootstrapTransform(before.path);
    Answers(raw, before) && after == before.(kind := after.kind, confirmationRequired := false) &&
    (after.kind.PreserveProjectState? <==> raw.resolution == "keep_target") &&
    (after.kind.BootstrapTransform? <==> raw.resolution == "use_release" && transform) &&
    (after.kind.ReplaceFromRelease? <==> raw.resolution == "use_release" && !transform && before.targetObject.Some?) &&
    (after.kind.AddFromRelease? <==> raw.resolution == "use_release" && !transform && before.targetObject.None?)
  }

  /** The decision says what the answer said. */
  predicate Tells(d: Decision, raw: RawResolution) {
    d.path == raw.path && d.expectedTarget == raw.expectedTarget && d.acknowledged == raw.acknowledge &&
    (d.choice.KeepTarget? <==> raw.resolution == "keep_target") &&
    (d.choice.UseRelease? <==> raw.resolution == "use_release")
  }

  predicate Carried(policy: PathPolicy, mode: Mode, raws: seq<RawResolution>, before: PlannerAction, after: PlannerAction) {
    exists i :: 0 <= i < |raws| && Carries(policy, mode, raws[i], before, after)
  }

  predicate Told(d: Decision, raws: seq<RawResolution>) {
    exists i :: 0 <= i < |raws| && Tells(d, raws[i])
  }

  /** The resolved plan follows the answers: each blocking action became what the one answer at its path makes
      of it, every other action stayed, and the lineage lists the blockers' answers in the plan's order. */
  predicate FollowsAnswers(policy: PathPolicy, source: Payload, raws: seq<RawResolution>, result: Payload) {
    |result.actions| == |source.actions| && DistinctRaws(raws) &&
    (forall k :: 0 <= k < |source.actions| ==>
      if source.actions[k].IsBlocker() then Carried(policy, source.mode, raws, source.actions[k], result.actions[k])
      else result.actions[k] == source.actions[k]) &&
    result.resolution.Some? && |result.resolution.value.decisions| == |Blockers(source.actions)| &&
    forall j :: 0 <= j < |Blockers(source.actions)| ==>
      result.resolution.value.decisions[j].path == Blockers(source.actions)[j].path &&
      Told(result.resolution.value.decisions[j], raws)
  }

  lemma CarriedAt(policy: PathPolicy, mode: Mode, raw: RawResolution, before: PlannerAction)
    requires before.IsBlocker() && Answers(raw, before)
    ensures Carries(policy, mode, raw, before, ResolvedAction(policy, mode, before, DecisionOf(raw).choice))
    ensures Tells(DecisionOf(raw), raw)
  {
    assert "keep_target"[0] != "use_release"[0];
  }

  lemma ResolvedFollows(policy: PathPolicy, source: Payload, raws: seq<RawResolution>, result: Payload, planId: string,
                        planHash: string, login: string)
    requires Resolvable(source, planId, planHash, raws, login)
    requires Resolved(policy, source, DecisionMap(raws), result, planId, planHash, login)
    ensures FollowsAnswers(policy, source, raws, result)
  {
    var blockers, decisions := Blockers(source.actions), DecisionMap(raws);
    BlockersAre(source.actions);
    StoredPathsDiffer(source);
    hide ValidStored;
    hide Answers;
    hide DecisionOf;
    hide ResolvedAction;
    forall k | 0 <= k < |source.actions| && source.actions[k].IsBlocker()
      ensures Carried(policy, source.mode, raws, source.actions[k], result.actions[k])
    {
      BlockerListed(source.actions, k);
      var j :| 0 <= j < |blockers| && blockers[j].path == source.actions[k].path;
      var m :| 0 <= m < |source.actions| && source.actions[m] == blockers[j];
      assert m == k;
      var i := DecisionAnswers(blockers, raws, j);
      assert ResolvesTo(policy, source.mode, source.actions[k], result.actions[k], decisions);
      CarriedAt(policy, source.mode, raws[i], source.actions[k]);
    }
    forall k | 0 <= k < |source.actions| && !source.actions[k].IsBlocker() ensures result.actions[k] == source.actions[k] {
      assert ResolvesTo(policy, source.mode, source.actions[k], result.actions[k], decisions);
    }
    forall j | 0 <= j < |blockers|
      ensures result.resolution.value.decisions[j].path == blockers[j].path
      ensures Told(result.resolution.value.decisions[j], raws)
    {
      var i := DecisionAnswers(blockers, raws, j);
      assert blockers[j].IsBlocker();
      CarriedAt(policy, source.mode, raws[i], blockers[j]);
      assert Answers(raws[i], blockers[j]) ==> raws[i].path == blockers[j].path by { AnswersItsPath(raws[i], blockers[j]); }
    }
  }

  lemma AnswersItsPath(raw: RawResolution, b: PlannerAction)
    ensures Answers(raw, b) ==> raw.path == b.path
  {
  }

  /** Each answer is about a blocking action of the plan. */
  lemma AnswersABlocker(source: Payload, planId: string, planHash: string, raws: seq<RawResolution>, login: string, i: nat)
    returns (k: nat)
    requires Resolvable(source, planId, planHash, raws, login) && i < |raws|
    ensures k < |source.actions| && source.actions[k].IsBlocker() && source.actions[k].path == raws[i].path
  {
    var blockers := Blockers(source.actions);
    BlockersAre(source.actions);
    hide ValidStored;
    assert AnswersSome(raws[i], blockers);
    var j :| 0 <= j < |blockers| && Answers(raws[i], blockers[j]);
    k :| 0 <= k < |source.actions| && source.actions[k] == blockers[j];
  }

  /** The one answer at a blocker's path and what became of the blocker. It was given for the target's file as
      the plan knew it, kept only a file that is there, and replaced project state only when acknowledged. */
  lemma AnswerDecides(policy: PathPolicy, source: Payload, raws: seq<RawResolution>, result: Payload, k: nat) returns (i: nat)
    requires FollowsAnswers(policy, source, raws, result) && k < |source.actions| && source.actions[k].IsBlocker()
    ensures i < |raws| && Carries(policy, source.mode, raws[i], source.actions[k], result.actions[k])
    ensures forall j :: 0 <= j < |raws| && raws[j].path == source.actions[k].path ==> j == i
    ensures raws[i].expectedTarget == source.actions[k].targetObject
    ensures result.actions[k].kind.PreserveProjectState? ==> source.actions[k].targetObject.Some?
    ensures source.actions[k].kind.MigrationReview? && result.actions[k].IsWrite() ==> raws[i].acknowledge
  {
    assert Carried(policy, source.mode, raws, source.actions[k], result.actions[k]);
    i :| 0 <= i < |raws| && Carries(policy, source.mode, raws[i], source.actions[k], result.actions[k]);
  }

  predicate Resolvable(source: Payload, planId: string, planHash: string, raws: seq<RawResolution>, login: string) {
    ValidStored(source) && NeedsResolution(source) && IsPlanId(planId) && IsHex(planHash, 64) && IsHandle(login) &&
    0 < |Blockers(source.actions)| == |raws| && AllAnswered(Blockers(source.actions), raws)
  }

  /** The checks before the answers are looked at have all passed. */
  predicate ReachesAnswers(source: Payload, planId: string, planHash: string, raws: seq<RawResolution>, login: string) {
    ValidStored(source) && NeedsResolution(source) && IsPlanId(planId) && IsHex(planHash, 64) && IsHandle(login) &&
    0 < |Blockers(source.actions)| == |raws|
  }

  /** Exactly when each of those checks refuses, and what a refused answer is like: its path is empty, too long
      or given twice, no blocker's, or the blocker's and the check on the choice says why. */
  predicate RefusedWith(source: Payload, planId: string, planHash: string, raws: seq<RawResolution>, login: string, e: ResolveError) {
    var stored, blockers := ValidStored(source), Blockers(source.actions);
    var open := stored && NeedsResolution(source);
    match e
    case PayloadInvalid => !stored
    case DoesNotRequireResolution => stored && !NeedsResolution(source)
    case SourcePlanIdInvalid => open && !IsPlanId(planId)
    case SourcePlanHashInvalid => open && IsPlanId(planId) && !IsHex(planHash, 64)
    case ResolverInvalid => open && IsPlanId(planId) && IsHex(planHash, 64) && !IsHandle(login)
    case NoResolvableConflicts => open && IsPlanId(planId) && IsHex(planHash, 64) && IsHandle(login) && blockers == []
    case ExactResolutionRequired =>
      open && IsPlanId(planId) && IsHex(planHash, 64) && IsHandle(login) && blockers != [] && |raws| != |blockers|
    case _ => ReachesAnswers(source, planId, planHash, raws, login) && SomeRefused(blockers, raws, e)
  }

  predicate SomeRefused(blockers: seq<PlannerAction>, raws: seq<RawResolution>, e: ResolveError) {
    exists i :: 0 <= i < |raws| && RefusedAt(blockers, raws, i, e)
  }

  /** The answer at `i` is the first that is refused, and why. */
  predicate RefusedAt(blockers: seq<PlannerAction>, raws: seq<RawResolution>, i: nat, e: ResolveError)
    requires i < |raws|
  {
    AllAnswered(blockers, raws[..i]) &&
    var raw := raws[i];
    var named := 0 < |raw.path| <= 512 && raw.path !in RawPaths(raws[..i]);
    match e
    case PathInvalidOrDuplicate => !named
    case PathNotBlocking => named && raw.path !in PathsOfActions(blockers)
    case _ => named && exists j :: 0 <= j < |blockers| && blockers[j].path == raw.path && ChoiceRefused(raw, blockers[j], e)
  }

  /** What each error about an answer to a blocker says of it. */
  predicate ChoiceRefused(raw: RawResolution, b: PlannerAction, e: ResolveError) {
    var chosen := raw.resolution == "keep_target" || raw.resolution == "use_release";
    var wellFormed := raw.expectedTarget.Some? ==> IsHex(raw.expectedTarget.value, 40);
    var current := chosen && wellFormed && raw.expectedTarget == b.targetObject;
    match e
    case ChoiceInvalid => !chosen
    case ExpectedTargetInvalid => chosen && !wellFormed
    case TargetObjectChanged => chosen && wellFormed && raw.expectedTarget != b.targetObject
    case KeepTargetMissing => current && raw.resolution == "keep_target" && b.targetObject.None?
    case AcknowledgementRequired => current && raw.resolution == "use_release" && b.kind.MigrationReview? && !raw.acknowledge
    case _ => false
  }

  lemma ChoiceRefusal(raw: RawResolution, b: PlannerAction)
    ensures CheckChoice(raw, b).Some? ==> ChoiceRefused(raw, b, CheckChoice(raw, b).value)
  {
    hide IsHex;
    assert "keep_target"[0] != "use_release"[0];
  }

  /** Resolution succeeds exactly when every blocker gets one acceptable answer, and then the two
      guards after the loop cannot fire. */
  method BuildResolvedFullPlannerPayload(policy: PathPolicy, source: Payload, planId: string, planHash: string,
                                         raws: seq<RawResolution>, login: string)
    returns (r: Result<Payload, ResolveError>)
    ensures r.Ok? <==> Resolvable(source, planId, planHash, raws, login)
    ensures r.Ok? ==> Resolved(policy, source, DecisionMap(raws), r.value, planId, planHash, login)
    ensures r.Ok? ==> FollowsAnswers(policy, source, raws, r.value)
    ensures r.Err? ==> IsResolveGuard(r.error) && RefusedWith(source, planId, planHash, raws, login, r.error)
  {
    hide IsHex;
    hide IsHandle;
    hide IsPlanId;
    hide ValidAction;
    hide AllAnswered;
    hide FollowsAnswers;
    hide Resolved;
    hide SomeRefused;
    hide ValidStored;
    hide Blockers;
    hide DecisionMap;
    hide NeedsResolution;
    var stored := ValidateStoredFullPlannerPayload(source);
    if !stored { return Err(PayloadInvalid); }
    StoredPathsDiffer(source);
    if !NeedsResolution(source) { return Err(DoesNotRequireResolution); }
    if !IsPlanId(planId) { return Err(SourcePlanIdInvalid); }
    if !IsHex(planHash, 64) { return Err(SourcePlanHashInvalid); }
    if !IsHandle(login) { return Err(ResolverInvalid); }
    var blockers := Blockers(source.actions);
    BlockersAre(source.actions);
    if blockers == [] { return Err(NoResolvableConflicts); }
    if |raws| != |blockers| { return Err(ExactResolutionRequired); }
    var normalized := NormalizeResolutions(blockers, raws);
    if normalized.Err? { return Err(normalized.error); }
    DecisionsMatchBlockers(blockers, raws);
    var resolved := ApplyDecisions(policy, source, planId, planHash, normalized.value, login);
    ResolvedFollows(policy, source, raws, resolved, planId, planHash, login);
    r := Ok(resolved);
  }

  lemma {:induction false} BlockerListed(actions: seq<PlannerAction>, i: nat)
    requires i < |actions| && actions[i].IsBlocker()
    ensures actions[i].path in PathsOfActions(Blockers(actions))
  {
    var n := |actions| - 1;
    var listed, front := Blockers(actions), Blockers(actions[..n]);
    if i < n {
      assert actions[..n][i] == actions[i];
      BlockerListed(actions[..n], i);
      var j :| 0 <= j < |front| && front[j].path == actions[i].path;
      assert listed[j] == front[j];
    } else {
      assert listed[|front|] == actions[n];
    }
  }

  lemma BlockersCovered(actions: seq<PlannerAction>, decisions: map<string, Decision>)
    requires decisions.Keys == PathsOfActions(Blockers(actions))
    ensures forall i :: 0 <= i < |actions| && actions[i].IsBlocker() ==> actions[i].path in decisions
  {
    forall i | 0 <= i < |actions| && actions[i].IsBlocker() ensures actions[i].path in decisions {
      BlockerListed(actions, i);
    }
  }

  lemma ResolvedHasNoBlockers(policy: PathPolicy, mode: Mode, before: seq<PlannerAction>, after: seq<PlannerAction>,
                              decisions: map<string, Decision>)
    requires ResolvedActions(policy, mode, before, after, decisions)
    ensures NoBlockers(after)
  {
    forall i | 0 <= i < |after| ensures !after[i].IsBlocker() {
      assert ResolvesTo(policy, mode, before[i], after[i], decisions);
    }
  }

  // ---- What resolving keeps ----

  /** The resolved plan is conflict free, goes to the sandbox exactly when it writes, names the plan it came from
      and who resolved it, and is otherwise the source. */
  lemma ResolvedVerdict(policy: PathPolicy, source: Payload, decisions: map<string, Decision>, result: Payload,
                        planId: string, planHash: string, login: string)
    requires Resolved(policy, source, decisions, result, planId, planHash, login)
    ensures result.conflictFree && (result.safeToApply <==> !NoWrites(result.actions))
    ensures result.implementation == if NoWrites(result.actions) then NoChanges else SandboxFullPlanV1
    ensures result == source.(actions := result.actions, summary := result.summary, resolution := result.resolution,
                              conflictFree := true, safeToApply := result.safeToApply, implementation := result.implementation)
    ensures result.summary == source.summary.(counts := result.summary.counts)
    ensures result.resolution == Some(Resolution(planId, planHash, login, result.resolution.value.decisions))
  {
    hide ResolvedActions;
    hide Lists;
    TallyVerdict(result.actions);
    hide Tally;
  }

  /** Resolving leaves every other action alone, clears every blocker, and the counts still cover the release. */
  lemma ResolutionKeeps(policy: PathPolicy, source: Payload, decisions: map<string, Decision>, result: Payload,
                        planId: string, planHash: string, login: string)
    requires Resolved(policy, source, decisions, result, planId, planHash, login)
    ensures forall i :: 0 <= i < |source.actions| && !source.actions[i].IsBlocker() ==> result.actions[i] == source.actions[i]
    ensures forall i :: 0 <= i < |source.actions| ==>
      result.actions[i].path == source.actions[i].path && !result.actions[i].IsBlocker()
    ensures result.summary.counts.Total() == |source.actions|
    ensures result.safeToApply <==> !NoWrites(result.actions)
  {
    forall i | 0 <= i < |source.actions|
      ensures !source.actions[i].IsBlocker() ==> result.actions[i] == source.actions[i]
      ensures result.actions[i].path == source.actions[i].path
    {
      assert ResolvesTo(policy, source.mode, source.actions[i], result.actions[i], decisions);
    }
    TallyTotal(result.actions);
    TallyVerdict(result.actions);
  }

  /** A resolved plan can be stored and read back, and can never be resolved again. */
  lemma ResolvedIsStoredOnce(policy: PathPolicy, source: Payload, raws: seq<RawResolution>, result: Payload,
                             planId: string, planHash: string, login: string)
    requires Resolvable(source, planId, planHash, raws, login)
    requires Resolved(policy, source, DecisionMap(raws), result, planId, planHash, login)
    ensures ValidStored(result)
    ensures forall id, h, more, who :: !Resolvable(result, id, h, more, who)
  {
    var blockers := Blockers(source.actions);
    var listed := result.resolution.value.decisions;
    BlockersAre(source.actions);
    forall i | 0 <= i < |listed| ensures ValidDecision(listed[i]) && listed[i].path == blockers[i].path {
      var k := DecisionAnswers(blockers, raws, i);
    }
    assert ValidLineage(result.resolution.value);
    forall i | 0 <= i < |result.actions|
      ensures ValidAction(result.actions[i]) && result.actions[i].path == source.actions[i].path
    {
      assert ResolvesTo(policy, source.mode, source.actions[i], result.actions[i], DecisionMap(raws));
      assert ValidAction(source.actions[i]);
    }
  }
}
