/** The sandbox request of a full apply: what it carries, what the request checks accept, and how the
    limits along the way fit together. */
module SandboxRequest {
  import opened Common
  import opened Base64
  import A = Artifacts
  import opened Planner
  import M = PlanMeaning
  import R = Resolution
  import J = CanonicalJson

  const INPUT_ROOT := ".anpos-input"
  const RUNNER_NAME := "apply.py"
  const PLAN_NAME := "plan.json"
  const RELEASE_NAME := "release"
  const RUNNER_PATH := INPUT_ROOT + "/" + RUNNER_NAME
  const PLAN_PATH := INPUT_ROOT + "/" + PLAN_NAME
  const RELEASE_ROOT := INPUT_ROOT + "/" + RELEASE_NAME
  const SCRIPT_DIRECTORY := "scripts"
  const SCRIPT_NAME := "bootstrap_instance.py"
  const BOOTSTRAP_SCRIPT := SCRIPT_DIRECTORY + "/" + SCRIPT_NAME

  const MIB := 1024 * 1024
  const MAX_MATERIALIZED_FILES := 5000
  const MAX_MATERIALIZED_BYTES := 24 * MIB
  const MAX_PLAN_BYTES := 4 * MIB
  const MAX_REQUEST_BYTES := 32 * MIB
  const MAX_TIMEOUT_SECONDS := 900
  const MAX_OUTPUT_BYTES := 2 * MIB

  ghost predicate HexDigest(hash: A.Digest) {
    forall b: Bytes :: IsHex(hash(b), 64)
  }

  // ---- The request checks ----

  datatype Request = Request(
    workspaceId: string, timeoutSeconds: int, maxOutputBytes: int, maxArtifactBytes: int,
    inputs: seq<A.Artifact>, outputPaths: seq<string>)

  datatype RequestError =
    | InvalidWorkspaceId | InvalidTimeout | InvalidMaxOutputBytes | InvalidMaxArtifactBytes
    | InvalidInput(cause: A.ArtifactError) | InvalidOutputPaths | InvalidOutputPath

  predicate IsWordChar(c: char) {
    'A' <= c <= 'Z' || 'a' <= c <= 'z' || '0' <= c <= '9'
  }

  predicate SafeWorkspaceId(s: string) {
    1 <= |s| <= 128 && IsWordChar(s[0]) &&
    forall i :: 0 <= i < |s| ==> IsWordChar(s[i]) || s[i] == '.' || s[i] == '_' || s[i] == '-'
  }

  predicate OutputPathsAccepted(paths: seq<string>) {
    |paths| <= A.MAX_ARTIFACT_FILES && Distinct(paths) && forall i :: 0 <= i < |paths| ==> A.SafeArtifactPath(paths[i])
  }

  predicate Acceptable(q: Request, hash: A.Digest) {
    SafeWorkspaceId(q.workspaceId) && 1 <= q.timeoutSeconds <= MAX_TIMEOUT_SECONDS &&
    1024 <= q.maxOutputBytes <= MAX_OUTPUT_BYTES && 1024 <= q.maxArtifactBytes <= MAX_REQUEST_BYTES &&
    A.Accepted(q.inputs, q.maxArtifactBytes, None, hash) && OutputPathsAccepted(q.outputPaths)
  }

  method NormalizeOutputPaths(paths: seq<string>) returns (r: Result<seq<string>, RequestError>)
    ensures r.Ok? <==> OutputPathsAccepted(paths)
    ensures r.Ok? ==> r.value == paths
    ensures r.Err? ==> r.error == if |paths| > A.MAX_ARTIFACT_FILES then InvalidOutputPaths else InvalidOutputPath
  {
    if |paths| > A.MAX_ARTIFACT_FILES { return Err(InvalidOutputPaths); }
    var seen: set<string> := {};
    for i := 0 to |paths|
      invariant seen == set k | 0 <= k < i :: paths[k]
      invariant forall k :: 0 <= k < i ==> A.SafeArtifactPath(paths[k])
      invariant forall j, k :: 0 <= j < k < i ==> paths[j] != paths[k]
    {
      if !A.SafeArtifactPath(paths[i]) || paths[i] in seen { return Err(InvalidOutputPath); }
      seen := seen + {paths[i]};
    }
    return Ok(paths);
  }

  method NormalizeSandboxRequest(q: Request, hash: A.Digest) returns (r: Result<Request, RequestError>)
    ensures r.Ok? <==> Acceptable(q, hash)
    ensures r.Ok? ==> r.value == q
    ensures r == Err(InvalidWorkspaceId) <==> !SafeWorkspaceId(q.workspaceId)
    ensures r == Err(InvalidTimeout) <==> SafeWorkspaceId(q.workspaceId) && !(1 <= q.timeoutSeconds <= 900)
    ensures r == Err(InvalidMaxOutputBytes) <==>
      SafeWorkspaceId(q.workspaceId) && 1 <= q.timeoutSeconds <= 900 && !(1024 <= q.maxOutputBytes <= 2 * MIB)
    ensures r == Err(InvalidMaxArtifactBytes) <==>
      SafeWorkspaceId(q.workspaceId) && 1 <= q.timeoutSeconds <= 900 && 1024 <= q.maxOutputBytes <= 2 * MIB &&
      !(1024 <= q.maxArtifactBytes <= 32 * MIB)
    ensures r.Err? && r.error.InvalidInput? ==> !A.Accepted(q.inputs, q.maxArtifactBytes, None, hash)
    ensures r.Err? && (r.error.InvalidOutputPaths? || r.error.InvalidOutputPath?) ==>
      A.Accepted(q.inputs, q.maxArtifactBytes, None, hash) && !OutputPathsAccepted(q.outputPaths)
  {
    if !SafeWorkspaceId(q.workspaceId) { return Err(InvalidWorkspaceId); }
    if q.timeoutSeconds < 1 || q.timeoutSeconds > MAX_TIMEOUT_SECONDS { return Err(InvalidTimeout); }
    if q.maxOutputBytes < 1024 || q.maxOutputBytes > MAX_OUTPUT_BYTES { return Err(InvalidMaxOutputBytes); }
    if q.maxArtifactBytes < 1024 || q.maxArtifactBytes > MAX_REQUEST_BYTES { return Err(InvalidMaxArtifactBytes); }
    var inputs := A.NormalizeSandboxFileArtifacts(q.inputs, q.maxArtifactBytes, None, hash);
    if inputs.Err? { return Err(InvalidInput(inputs.error)); }
    var outputs := NormalizeOutputPaths(q.outputPaths);
    if outputs.Err? { return Err(outputs.error); }
    return Ok(q);
  }

  // ---- Materialising the release ----

  datatype ReleaseEntry = ReleaseEntry(gitObject: string, sha256: string, size: int, mode: string)

  datatype MaterializeError =
    | InvalidFiles | InvalidFile | BytesExceeded | IdentityMismatch | BlobDigestMismatch

  predicate MaterialPath(path: string) {
    0 < |path| <= 512 && path[0] != '/' && '\\' !in path && '\r' !in path && '\n' !in path && '\0' !in path && SafeParts(path)
  }

  predicate ValidRequest(a: PlannerAction) {
    MaterialPath(a.path) && IsHex(a.releaseObject, 40) && IsHex(a.releaseSha256, 64) &&
    (a.releaseMode == "100644" || a.releaseMode == "100755")
  }

  predicate Listed(a: PlannerAction, manifest: map<string, ReleaseEntry>) {
    a.path in manifest && manifest[a.path] == ReleaseEntry(a.releaseObject, a.releaseSha256, a.releaseBytes, a.releaseMode)
  }

  function ContentOf(path: string, disk: map<string, Bytes>): Bytes {
    if path in disk then disk[path] else []
  }

  predicate OnDisk(a: PlannerAction, disk: map<string, Bytes>, hash: A.Digest) {
    a.path in disk && |disk[a.path]| == a.releaseBytes && hash(disk[a.path]) == a.releaseSha256
  }

  function TotalSize(actions: seq<PlannerAction>): nat {
    if actions == [] then 0 else TotalSize(actions[..|actions| - 1]) + actions[|actions| - 1].releaseBytes
  }

  lemma {:induction false} PrefixSize(actions: seq<PlannerAction>, n: nat)
    requires n <= |actions|
    ensures TotalSize(actions[..n]) <= TotalSize(actions)
  {
    if n < |actions| {
      PrefixSize(actions[..|actions| - 1], n);
      assert actions[..|actions| - 1][..n] == actions[..n];
    } else {
      assert actions[..n] == actions;
    }
  }

  predicate Materializable(requests: seq<PlannerAction>, manifest: map<string, ReleaseEntry>, disk: map<string, Bytes>, hash: A.Digest) {
    1 <= |requests| <= MAX_MATERIALIZED_FILES && InRelease(requests, manifest) &&
    forall i :: 0 <= i < |requests| ==> OnDisk(requests[i], disk, hash)
  }

  predicate InRelease(requests: seq<PlannerAction>, manifest: map<string, ReleaseEntry>) {
    R.DistinctPaths(requests) && TotalSize(requests) <= MAX_MATERIALIZED_BYTES &&
    forall i :: 0 <= i < |requests| ==> ValidRequest(requests[i]) && Listed(requests[i], manifest)
  }

  function FileOf(a: PlannerAction, disk: map<string, Bytes>): A.Artifact {
    A.Artifact(a.path, a.releaseMode, Encode(ContentOf(a.path, disk)), a.releaseSha256, a.releaseBytes)
  }

  function FilesOf(requests: seq<PlannerAction>, disk: map<string, Bytes>): seq<A.Artifact> {
    seq(|requests|, i requires 0 <= i < |requests| => FileOf(requests[i], disk))
  }

  /** The error of the validation pass, at the first request that fails it. */
  predicate CheckFailsAt(requests: seq<PlannerAction>, manifest: map<string, ReleaseEntry>, i: nat, e: MaterializeError)
    requires i < |requests|
  {
    var repeated := requests[i].path in R.PathsOfActions(requests[..i]);
    var fits := TotalSize(requests[..i + 1]) <= MAX_MATERIALIZED_BYTES;
    match e
    case InvalidFile => !ValidRequest(requests[i]) || repeated
    case BytesExceeded => ValidRequest(requests[i]) && !repeated && !fits
    case IdentityMismatch => ValidRequest(requests[i]) && !repeated && fits && !Listed(requests[i], manifest)
    case _ => false
  }

  /** One turn of the validation pass. */
  lemma NextInRelease(requests: seq<PlannerAction>, manifest: map<string, ReleaseEntry>, i: nat)
    requires i < |requests| && InRelease(requests[..i], manifest)
    ensures InRelease(requests[..i + 1], manifest) <==>
      ValidRequest(requests[i]) && requests[i].path !in R.PathsOfActions(requests[..i]) &&
      TotalSize(requests[..i + 1]) <= MAX_MATERIALIZED_BYTES && Listed(requests[i], manifest)
    ensures InRelease(requests, manifest) ==> InRelease(requests[..i + 1], manifest)
    ensures R.PathsOfActions(requests[..i + 1]) == R.PathsOfActions(requests[..i]) + {requests[i].path}
    ensures TotalSize(requests[..i + 1]) == TotalSize(requests[..i]) + requests[i].releaseBytes
  {
    hide ValidRequest;
    hide Listed;
    var front, next := requests[..i], requests[..i + 1];
    assert next[..i] == front && next[i] == requests[i];
    R.PathsOfNext(next);
    PrefixSize(requests, i + 1);
    assert forall k :: 0 <= k < i ==> next[k] == front[k];
    if requests[i].path in R.PathsOfActions(front) {
      var k :| 0 <= k < i && front[k].path == requests[i].path;
      assert next[k].path == next[i].path;
    }
  }

  /** The validation pass: identities, limits and the running byte total. */
  method CheckMaterialization(requests: seq<PlannerAction>, manifest: map<string, ReleaseEntry>)
    returns (e: Option<MaterializeError>)
    ensures e.None? <==> InRelease(requests, manifest)
    ensures e.Some? ==> exists i :: 0 <= i < |requests| && CheckFailsAt(requests, manifest, i, e.value)
  {
    hide ValidRequest;
    hide Listed;
    hide InRelease;
    var seen: set<string> := {};
    var expectedBytes := 0;
    NothingInRelease(requests, manifest);
    for i := 0 to |requests|
      invariant seen == R.PathsOfActions(requests[..i])
      invariant expectedBytes == TotalSize(requests[..i])
      invariant InRelease(requests[..i], manifest)
    {
      var file := requests[i];
      NextInRelease(requests, manifest, i);
      if !ValidRequest(file) || file.path in seen {
        assert CheckFailsAt(requests, manifest, i, InvalidFile);
        return Some(InvalidFile);
      }
      seen := seen + {file.path};
      expectedBytes := expectedBytes + file.releaseBytes;
      if expectedBytes > MAX_MATERIALIZED_BYTES {
        assert CheckFailsAt(requests, manifest, i, BytesExceeded);
        return Some(BytesExceeded);
      }
      if !Listed(file, manifest) {
        assert CheckFailsAt(requests, manifest, i, IdentityMismatch);
        return Some(IdentityMismatch);
      }
    }
    assert requests[..|requests|] == requests;
    return None;
  }

  lemma NothingInRelease(requests: seq<PlannerAction>, manifest: map<string, ReleaseEntry>)
    ensures InRelease(requests[..0], manifest) && R.PathsOfActions(requests[..0]) == {} && TotalSize(requests[..0]) == 0
  {
    assert requests[..0] == [];
  }

  /** Gives the requested files exactly when every one is in the release, on disk, genuine and within the limits. */
  method MaterializeTemplateReleaseFiles(requests: seq<PlannerAction>, manifest: map<string, ReleaseEntry>,
                                         disk: map<string, Bytes>, hash: A.Digest)
    returns (r: Result<seq<A.Artifact>, MaterializeError>)
    ensures r.Ok? <==> Materializable(requests, manifest, disk, hash)
    ensures r.Ok? ==> r.value == FilesOf(requests, disk)
    ensures r.Ok? ==> forall i :: 0 <= i < |requests| ==>
      r.value[i].path == requests[i].path && requests[i].path in manifest &&
      requests[i].releaseObject == manifest[requests[i].path].gitObject && r.value[i].sha256 == manifest[requests[i].path].sha256 &&
      r.value[i].bytes == manifest[requests[i].path].size && r.value[i].mode == manifest[requests[i].path].mode &&
      requests[i].path in disk && |disk[requests[i].path]| == manifest[requests[i].path].size
    ensures r == Err(InvalidFiles) <==> !(1 <= |requests| <= 5000)
    ensures r == Err(BlobDigestMismatch) <==> 1 <= |requests| <= 5000 && InRelease(requests, manifest) && !Materializable(requests, manifest, disk, hash)
  {
    if |requests| < 1 || |requests| > MAX_MATERIALIZED_FILES { return Err(InvalidFiles); }
    var problem := CheckMaterialization(requests, manifest);
    if problem.Some? { return Err(problem.value); }
    for i := 0 to |requests|
      invariant forall k :: 0 <= k < i ==> OnDisk(requests[k], disk, hash)
    {
      if !OnDisk(requests[i], disk, hash) { return Err(BlobDigestMismatch); }
    }
    return Ok(FilesOf(requests, disk));
  }

  // ---- Building the request ----

  predicate IsBootstrapMode(mode: Mode) {
    NeedsContext(mode)
  }

  function WriteActions(actions: seq<PlannerAction>): seq<PlannerAction> {
    if actions == [] then []
    else
      var last := actions[|actions| - 1];
      WriteActions(actions[..|actions| - 1]) + (if last.IsWrite() then [last] else [])
  }

  predicate HasScript(actions: seq<PlannerAction>) {
    exists i :: 0 <= i < |actions| && actions[i].path == BOOTSTRAP_SCRIPT
  }

  /** The release files an apply needs; None when a bootstrap has no runner script to call. */
  function MaterializationRequests(p: Payload): Option<seq<PlannerAction>> {
    if !IsBootstrapMode(p.mode) then Some(WriteActions(p.actions))
    else if HasScript(p.actions) then Some(p.actions)
    else None
  }

  function Utf8Artifact(path: string, content: Bytes, hash: A.Digest): A.Artifact {
    A.Artifact(path, "100644", Encode(content), hash(content), |content|)
  }

  function ReleaseInput(file: A.Artifact): A.Artifact {
    file.(path := RELEASE_ROOT + "/" + file.path)
  }

  function Inputs(files: seq<A.Artifact>, runner: Bytes, planText: Bytes, hash: A.Digest): seq<A.Artifact> {
    [Utf8Artifact(RUNNER_PATH, runner, hash), Utf8Artifact(PLAN_PATH, planText, hash)] +
    seq(|files|, i requires 0 <= i < |files| => ReleaseInput(files[i]))
  }

  function OutputPaths(actions: seq<PlannerAction>): seq<string> {
    var writes := WriteActions(actions);
    seq(|writes|, i requires 0 <= i < |writes| => writes[i].path)
  }

  function BuildFullApplySandboxRequest(planId: string, p: Payload, files: seq<A.Artifact>, runner: Bytes,
                                        planText: Bytes, hash: A.Digest): Option<Request>
  {
    if WriteActions(p.actions) == [] then None
    else Some(Request("anpos-" + planId, 240, 512 * 1024, 32 * MIB, Inputs(files, runner, planText, hash), OutputPaths(p.actions)))
  }

  lemma {:induction false} WritesAre(actions: seq<PlannerAction>)
    ensures forall i :: 0 <= i < |WriteActions(actions)| ==> WriteActions(actions)[i] in actions && WriteActions(actions)[i].IsWrite()
    ensures forall a :: a in actions && a.IsWrite() ==> a in WriteActions(actions)
    ensures |WriteActions(actions)| <= |actions|
    ensures R.DistinctPaths(actions) ==> R.DistinctPaths(WriteActions(actions))
  {
    if actions != [] {
      var n := |actions| - 1;
      WritesAre(actions[..n]);
      assert actions == actions[..n] + [actions[n]];
    }
  }

  /** The writes keep the plan's order. */
  lemma {:induction false} WriteAt(actions: seq<PlannerAction>, k: nat)
    requires k < |actions| && actions[k].IsWrite()
    ensures |WriteActions(actions[..k])| < |WriteActions(actions)| && WriteActions(actions)[|WriteActions(actions[..k])|] == actions[k]
  {
    var n := |actions| - 1;
    if k < n {
      WriteAt(actions[..n], k);
      assert actions[..n][..k] == actions[..k];
    }
  }

  /** What was stored can be materialised: a stored action is a well-formed release request exactly when its
      path holds no control character that the storing checks let through. */
  lemma StoredActionsMaterialize(a: PlannerAction)
    requires R.ValidAction(a)
    ensures ValidRequest(a) <==> '\r' !in a.path && '\n' !in a.path && '\0' !in a.path
    ensures A.IsRelative(a.path) <==> ValidRequest(a)
  {
    hide SafeParts;
    hide IsHex;
  }

  /** The request allows a run what the service later accepts of its result. */
  lemma RequestAllowsWhatIsAccepted(planId: string, p: Payload, files: seq<A.Artifact>, runner: Bytes, planText: Bytes, hash: A.Digest)
    ensures var q := BuildFullApplySandboxRequest(planId, p, files, runner, planText, hash);
      && (q.None? <==> forall i :: 0 <= i < |p.actions| ==> !p.actions[i].IsWrite())
      && (q.Some? ==> q.value.maxOutputBytes == M.MAX_OUTPUT_BYTES && q.value.maxArtifactBytes == M.MAX_ARTIFACT_BYTES)
  {
    WritesAre(p.actions);
    if WriteActions(p.actions) == [] {
      forall i | 0 <= i < |p.actions| ensures !p.actions[i].IsWrite() {
        assert p.actions[i] in p.actions;
      }
    } else {
      assert WriteActions(p.actions)[0] in p.actions;
    }
  }

  lemma OutputPathsAre(actions: seq<PlannerAction>)
    requires R.DistinctPaths(actions)
    ensures Distinct(OutputPaths(actions)) && Elements(OutputPaths(actions)) == M.WritePaths(actions)
  {
    WritesAre(actions);
    var writes, paths := WriteActions(actions), OutputPaths(actions);
    forall path | path in M.WritePaths(actions) ensures path in Elements(paths) {
      var i :| 0 <= i < |actions| && actions[i].IsWrite() && actions[i].path == path;
      assert actions[i] in writes;
      var k :| 0 <= k < |writes| && writes[k] == actions[i];
      assert paths[k] == path;
    }
    forall path | path in Elements(paths) ensures path in M.WritePaths(actions) {
      var k :| 0 <= k < |paths| && paths[k] == path;
      var i :| 0 <= i < |actions| && actions[i] == writes[k];
    }
  }

  // ---- Paths under the input root ----

  /** The three names under the input root. */
  lemma InputNames()
    ensures A.IsName(INPUT_ROOT) && A.IsName(RUNNER_NAME) && A.IsName(PLAN_NAME) && A.IsName(RELEASE_NAME)
    ensures RUNNER_NAME[0] != RELEASE_NAME[0] && PLAN_NAME[0] != RELEASE_NAME[0] && RUNNER_NAME[0] != PLAN_NAME[0]
    ensures |INPUT_ROOT| == 12 && |RELEASE_NAME| == 7 && |RUNNER_NAME| == 8 && |PLAN_NAME| == 9
  {
  }

  lemma InputSafe(root: string, name: string)
    requires A.IsName(root) && A.IsName(name) && |root| + |name| <= 100
    ensures A.SafeArtifactPath(root + "/" + name)
    ensures Split(root + "/" + name) == [root, name] && A.Utf8Length(root + "/" + name) == |root| + 1 + |name|
  {
    A.NameIsRelative(root);
    A.NameIsRelative(name);
    A.RelativeConcat(root, name);
    A.JoinedLength(root, name);
    SplitConcat(root, name, '/');
  }

  lemma FixedPathsSafe()
    ensures A.SafeArtifactPath(RUNNER_PATH) && A.SafeArtifactPath(PLAN_PATH) && A.SafeArtifactPath(RELEASE_ROOT)
    ensures A.Utf8Length(RELEASE_ROOT) == 20
    ensures Split(RELEASE_ROOT) == [INPUT_ROOT, RELEASE_NAME]
    ensures Split(RUNNER_PATH) == [INPUT_ROOT, RUNNER_NAME] && Split(PLAN_PATH) == [INPUT_ROOT, PLAN_NAME]
  {
    InputNames();
    InputSafe(INPUT_ROOT, RUNNER_NAME);
    InputSafe(INPUT_ROOT, PLAN_NAME);
    InputSafe(INPUT_ROOT, RELEASE_NAME);
  }

  const MAX_RELEASE_PATH_BYTES := A.MAX_ARTIFACT_PATH_BYTES - 21

  /** A release path keeps its prefix within the path limit exactly up to 1003 bytes. */
  lemma ReleasePathSafe(path: string)
    requires MaterialPath(path)
    ensures A.SafeArtifactPath(RELEASE_ROOT + "/" + path) <==> A.Utf8Length(path) <= MAX_RELEASE_PATH_BYTES
  {
    FixedPathsSafe();
    A.JoinedLength(RELEASE_ROOT, path);
    A.RelativeConcat(RELEASE_ROOT, path);
  }

  /** Paths under different or the same directory are told apart by their tails. */
  lemma TailsDiffer(dir: string, p: string, q: string)
    ensures dir + "/" + p == dir + "/" + q <==> p == q
  {
    var n := |dir + "/"|;
    assert (dir + "/" + p)[n..] == p && (dir + "/" + q)[n..] == q;
  }

  lemma ReleasePathsDiffer(p: string)
    ensures RELEASE_ROOT + "/" + p != RUNNER_PATH && RELEASE_ROOT + "/" + p != PLAN_PATH && RUNNER_PATH != PLAN_PATH
  {
    InputNames();
    var n := |INPUT_ROOT + "/"|;
    var tail := RELEASE_NAME + "/" + p;
    assert RELEASE_ROOT + "/" + p == INPUT_ROOT + "/" + tail;
    TailsDiffer(INPUT_ROOT, tail, RUNNER_NAME);
    TailsDiffer(INPUT_ROOT, tail, PLAN_NAME);
    TailsDiffer(INPUT_ROOT, RUNNER_NAME, PLAN_NAME);
    assert tail[0] == RELEASE_NAME[0];
  }

  // ---- The limits fit together ----

  predicate WithinLimits(selected: seq<PlannerAction>) {
    |selected| + 2 <= A.MAX_ARTIFACT_FILES &&
    forall i :: 0 <= i < |selected| ==> A.Utf8Length(selected[i].path) <= MAX_RELEASE_PATH_BYTES
  }

  lemma {:induction false} InputBytes(selected: seq<PlannerAction>, disk: map<string, Bytes>, runner: Bytes, planText: Bytes, hash: A.Digest)
    ensures A.TotalBytes(Inputs(FilesOf(selected, disk), runner, planText, hash)) == |runner| + |planText| + TotalSize(selected)
  {
    hide Encode;
    var inputs := Inputs(FilesOf(selected, disk), runner, planText, hash);
    if selected == [] {
      assert inputs[..1][..0] == [] && inputs == inputs[..1] + [inputs[1]];
      assert A.TotalBytes(inputs[..1]) == |runner| by { assert inputs[..1] == [inputs[0]]; }
    } else {
      var n := |selected| - 1;
      InputBytes(selected[..n], disk, runner, planText, hash);
      assert inputs[..|inputs| - 1] == Inputs(FilesOf(selected[..n], disk), runner, planText, hash);
      assert inputs[|inputs| - 1].bytes == selected[n].releaseBytes;
    }
  }

  lemma TextGenuine(path: string, content: Bytes, hash: A.Digest)
    requires A.SafeArtifactPath(path) && IsHex(hash(content), 64)
    ensures A.Genuine(Utf8Artifact(path, content, hash), hash)
  {
    RoundTrip(content, "");
  }

  lemma ReleaseGenuine(a: PlannerAction, disk: map<string, Bytes>, hash: A.Digest)
    requires ValidRequest(a) && OnDisk(a, disk, hash)
    ensures A.Genuine(ReleaseInput(FileOf(a, disk)), hash) <==> A.Utf8Length(a.path) <= MAX_RELEASE_PATH_BYTES
  {
    RoundTrip(disk[a.path], "");
    ReleasePathSafe(a.path);
  }

  lemma InputsGenuine(selected: seq<PlannerAction>, manifest: map<string, ReleaseEntry>, disk: map<string, Bytes>,
                      runner: Bytes, planText: Bytes, hash: A.Digest, k: nat)
    requires Materializable(selected, manifest, disk, hash) && HexDigest(hash)
    requires k < |selected| + 2
    ensures A.Genuine(Inputs(FilesOf(selected, disk), runner, planText, hash)[k], hash)
      <==> k < 2 || A.Utf8Length(selected[k - 2].path) <= MAX_RELEASE_PATH_BYTES
  {
    var input := Inputs(FilesOf(selected, disk), runner, planText, hash)[k];
    if k >= 2 {
      assert input == ReleaseInput(FileOf(selected[k - 2], disk));
      ReleaseGenuine(selected[k - 2], disk, hash);
    } else {
      assert A.Genuine(input, hash) by {
        FixedPathsSafe();
        if k == 0 { TextGenuine(RUNNER_PATH, runner, hash); } else { TextGenuine(PLAN_PATH, planText, hash); }
      }
    }
  }

  lemma InputsDistinct(selected: seq<PlannerAction>, disk: map<string, Bytes>, runner: Bytes, planText: Bytes, hash: A.Digest)
    requires R.DistinctPaths(selected)
    ensures A.DistinctPaths(Inputs(FilesOf(selected, disk), runner, planText, hash))
  {
    hide Encode;
    var inputs := Inputs(FilesOf(selected, disk), runner, planText, hash);
    assert inputs[0].path == RUNNER_PATH && inputs[1].path == PLAN_PATH && |inputs| == |selected| + 2;
    forall k | 2 <= k < |inputs| ensures inputs[k].path == RELEASE_ROOT + "/" + selected[k - 2].path {}
    hide Inputs;
    hide FilesOf;
    forall i, j | 0 <= i < j < |inputs| ensures inputs[i].path != inputs[j].path {
      ReleasePathsDiffer(if j >= 2 then selected[j - 2].path else "");
      if i >= 2 { TailsDiffer(RELEASE_ROOT, selected[i - 2].path, selected[j - 2].path); }
    }
  }

  lemma InputsAccepted(selected: seq<PlannerAction>, manifest: map<string, ReleaseEntry>, disk: map<string, Bytes>,
                       runner: Bytes, planText: Bytes, hash: A.Digest)
    requires Materializable(selected, manifest, disk, hash) && HexDigest(hash)
    requires |runner| <= MAX_REQUEST_BYTES - MAX_MATERIALIZED_BYTES - MAX_PLAN_BYTES && |planText| <= MAX_PLAN_BYTES
    ensures A.Accepted(Inputs(FilesOf(selected, disk), runner, planText, hash), MAX_REQUEST_BYTES, None, hash)
      <==> WithinLimits(selected)
  {
    hide A.Genuine;
    hide A.AllGenuine;
    hide A.TotalBytes;
    hide A.DistinctPaths;
    hide A.Utf8Length;
    hide Encode;
    var inputs := Inputs(FilesOf(selected, disk), runner, planText, hash);
    InputBytes(selected, disk, runner, planText, hash);
    InputsDistinct(selected, disk, runner, planText, hash);
    forall k | 0 <= k < |inputs|
      ensures A.Genuine(inputs[k], hash) <==> k < 2 || A.Utf8Length(selected[k - 2].path) <= MAX_RELEASE_PATH_BYTES
    {
      InputsGenuine(selected, manifest, disk, runner, planText, hash, k);
    }
    if WithinLimits(selected) {
      A.AllGenuineFrom(inputs, None, hash);
    }
    if A.AllGenuine(inputs, None, hash) {
      forall i: nat | i < |selected| ensures A.Utf8Length(selected[i].path) <= MAX_RELEASE_PATH_BYTES {
        A.EachGenuine(inputs, None, hash, i + 2);
      }
    }
  }

  lemma OutputsAccepted(p: Payload, selected: seq<PlannerAction>, manifest: map<string, ReleaseEntry>,
                        disk: map<string, Bytes>, hash: A.Digest)
    requires MaterializationRequests(p) == Some(selected) && Materializable(selected, manifest, disk, hash)
    requires R.DistinctPaths(p.actions) && WithinLimits(selected)
    ensures OutputPathsAccepted(OutputPaths(p.actions))
  {
    var paths, writes := OutputPaths(p.actions), WriteActions(p.actions);
    WritesAre(p.actions);
    OutputPathsAre(p.actions);
    forall i | 0 <= i < |paths| ensures A.SafeArtifactPath(paths[i]) {
      assert writes[i] in selected;
      var k :| 0 <= k < |selected| && selected[k] == writes[i];
      assert ValidRequest(selected[k]);
    }
  }

  /** A plan whose release files were materialised gives a request the sandbox accepts exactly when it
      selects at most 4998 of them (the runner and the plan are two more input files) and each path
      fits under the input prefix; the byte limits are then never in the way. */
  lemma LimitsCompose(planId: string, p: Payload, selected: seq<PlannerAction>, manifest: map<string, ReleaseEntry>,
                      disk: map<string, Bytes>, runner: Bytes, planText: Bytes, hash: A.Digest)
    requires R.IsPlanId(planId) && R.DistinctPaths(p.actions) && WriteActions(p.actions) != []
    requires MaterializationRequests(p) == Some(selected) && Materializable(selected, manifest, disk, hash)
    requires |runner| <= 4 * MIB && |planText| <= MAX_PLAN_BYTES && HexDigest(hash)
    ensures var q := BuildFullApplySandboxRequest(planId, p, FilesOf(selected, disk), runner, planText, hash);
      q.Some? && (Acceptable(q.value, hash)
        <==> |selected| <= 4998 && forall i :: 0 <= i < |selected| ==> A.Utf8Length(selected[i].path) <= 1003)
  {
    hide A.Accepted;
    hide Encode;
    hide A.Utf8Length;
    InputsAccepted(selected, manifest, disk, runner, planText, hash);
    if WithinLimits(selected) {
      OutputsAccepted(p, selected, manifest, disk, hash);
    }
  }

  /** A character's share of the byte length is the size of its UTF-8 encoding. */
  lemma CharacterSize(c: char)
    ensures c as int < 0x1_0000 ==> A.Utf8Size(c) == |J.UnitUtf8(c as int)|
    ensures c as int >= 0x1_0000 ==> A.Utf8Size(c) == |J.FourBytes(c as int)|
  {
  }

  /** Release paths in ASCII always fit: they are at most 512 characters. */
  lemma AsciiPathsFit(a: PlannerAction)
    requires ValidRequest(a) && forall i :: 0 <= i < |a.path| ==> a.path[i] < '\U{80}'
    ensures A.Utf8Length(a.path) <= MAX_RELEASE_PATH_BYTES
  {
    A.AsciiLength(a.path);
  }

  /** The plan file stays under its limit: the size check at storing time measured the stable rendering
      of an object that contains the payload, and the plan file is the payload's plain rendering. */
  lemma StoredPlanFits(k: J.PlanKeys, plan: J.PlanIdentity, limit: nat)
    requires J.ByteLength(J.StableJson(J.HashedObject(k, plan))) <= limit
    ensures J.ByteLength(J.Render(plan.payload)) <= limit
  {
    var ms := J.HashedObject(k, plan).members;
    J.StableLength(J.HashedObject(k, plan));
    J.BracketedLength(J.OPEN_OBJECT, J.RenderMembers(ms), J.CLOSE_OBJECT);
    J.MembersLength(ms);
    J.MemberLength(ms[4]);
    MembersSizeAt(ms, 4);
  }

  lemma {:induction false} MembersSizeAt(ms: seq<J.Member>, i: nat)
    requires i < |ms|
    ensures J.ByteLength(J.RenderMember(ms[i])) < J.MembersSize(ms)
  {
    if i > 0 {
      MembersSizeAt(ms[1..], i - 1);
      assert ms[1..][i - 1] == ms[i];
    }
  }

  /** The size check when a plan is stored: on the stable rendering of the hashed object. */
  predicate PassesStoring(k: J.PlanKeys, plan: J.PlanIdentity) {
    J.ByteLength(J.StableJson(J.HashedObject(k, plan))) <= MAX_PLAN_BYTES
  }

  /** The bytes of the plan file: the stored payload as it was stored, read back and rendered again. */
  function PlanFile(stored: J.Json): Bytes {
    var read := J.ParseJson(J.Render(stored));
    if read.Some? then J.Utf8(J.Render(read.value)) else []
  }

  predicate IsAscii(path: string) {
    forall i :: 0 <= i < |path| ==> path[i] < '\U{80}'
  }

  lemma PlanFileFits(k: J.PlanKeys, plan: J.PlanIdentity)
    requires J.WellFormed(plan.payload) && PassesStoring(k, plan)
    ensures |PlanFile(plan.payload)| <= MAX_PLAN_BYTES
  {
    J.ParseOfRender(plan.payload);
    J.RenderedBytes(plan.payload);
    StoredPlanFits(k, plan, MAX_PLAN_BYTES);
  }

  /** Every plan that could be stored, with ASCII paths and at least one write, gives a request the sandbox
      accepts exactly when it selects at most 4998 release files. `json` is the payload as a JSON value. */
  lemma StoredPlansFit(
    planId: string, p: Payload, k: J.PlanKeys, plan: J.PlanIdentity, json: Payload -> J.Json, selected: seq<PlannerAction>,
    manifest: map<string, ReleaseEntry>, disk: map<string, Bytes>, runner: Bytes, hash: A.Digest)
    requires R.IsPlanId(planId) && R.DistinctPaths(p.actions) && WriteActions(p.actions) != []
    requires plan.payload == json(p) && J.WellFormed(json(p)) && PassesStoring(k, plan)
    requires MaterializationRequests(p) == Some(selected) && Materializable(selected, manifest, disk, hash)
    requires forall i :: 0 <= i < |selected| ==> IsAscii(selected[i].path)
    requires |runner| <= 4 * MIB && HexDigest(hash)
    ensures var q := BuildFullApplySandboxRequest(planId, p, FilesOf(selected, disk), runner, PlanFile(json(p)), hash);
      q.Some? && (Acceptable(q.value, hash) <==> |selected| <= 4998)
  {
    hide A.Accepted;
    hide Encode;
    hide A.Utf8Length;
    PlanFileFits(k, plan);
    hide PlanFile;
    forall i | 0 <= i < |selected| ensures A.Utf8Length(selected[i].path) <= 1003 {
      assert ValidRequest(selected[i]);
      AsciiPathsFit(selected[i]);
    }
    LimitsCompose(planId, p, selected, manifest, disk, runner, PlanFile(json(p)), hash);
  }
}
