/** The program inside the sandbox that performs a plan, and its agreement with the planner that wrote
    the plan and the verifier that checks what comes out. */
module Runner {
  import opened Common
  import opened Base64
  import opened Policy
  import opened Planner
  import A = Artifacts
  import M = PlanMeaning
  import R = Resolution
  import Q = SandboxRequest

  datatype File = File(content: Bytes, mode: string)

  /** The regular files of a workspace; a directory exists where some file lies beneath it. */
  type Files = map<string, File>

  datatype RunnerError =
    | UnsafeFullPlan | FullApplyContractMismatch | InvalidPlanActions | InvalidPlanPath | UnresolvedPlanConflict
    | ReleasePathEscape | ExpectedRegularFile | ReleaseInputDigestMismatch | FileSystemClash
    | BootstrapContextRequired | BootstrapFailed

  // ---- Paths as the runner reads them ----

  /** The parts `pathlib` keeps. */
  function Kept(parts: seq<string>): seq<string> {
    if parts == [] then []
    else (if parts[0] == "" || parts[0] == "." then [] else [parts[0]]) + Kept(parts[1..])
  }

  function SafeRelative(value: string): Option<seq<string>> {
    if value == "" || '\0' in value || '\r' in value || '\n' in value || '\\' in value then None
    else if value[0] == '/' then None
    else
      var parts := Kept(Split(value));
      if ".." in parts || ".git" in parts then None else Some(parts)
  }

  /** The relative path as text; `.` when no part is left. */
  function Posix(parts: seq<string>): string {
    if parts == [] then "." else Slashed(parts)
  }

  lemma {:induction false} KeptAll(parts: seq<string>)
    requires forall i :: 0 <= i < |parts| ==> parts[i] != "" && parts[i] != "."
    ensures Kept(parts) == parts
  {
    if parts != [] {
      KeptAll(parts[1..]);
      assert [parts[0]] + parts[1..] == parts;
    }
  }

  /** On the paths the service accepts, the runner's reading is the path itself. */
  lemma SafeRelativeAgrees(path: string)
    requires A.IsRelative(path)
    ensures SafeRelative(path) == Some(Split(path)) && Posix(Split(path)) == path && Split(path) != []
  {
    var parts := Split(path);
    assert forall i :: 0 <= i < |parts| ==> parts[i] in parts;
    KeptAll(parts);
    SlashedSplit(path);
  }

  lemma {:induction false} KeptMembers(parts: seq<string>, part: string)
    ensures part in Kept(parts) <==> part in parts && part != "" && part != "."
  {
    if parts != [] {
      KeptMembers(parts[1..], part);
      assert parts == [parts[0]] + parts[1..];
    }
  }

  /** What the runner reads stays inside the workspace: it accepts exactly the texts that are not absolute, hold
      no control character or backslash and no `..` or `.git` part, and what it keeps of them are real names. */
  lemma SafeRelativeStaysInside(value: string)
    ensures SafeRelative(value).Some? <==>
      value != "" && value[0] != '/' && '\0' !in value && '\r' !in value && '\n' !in value && '\\' !in value &&
      ".." !in Split(value) && ".git" !in Split(value)
    ensures SafeRelative(value).Some? ==>
      forall part :: part in SafeRelative(value).value ==>
        part in Split(value) && part != "" && part != "." && part != ".." && part != ".git"
  {
    KeptMembers(Split(value), "..");
    KeptMembers(Split(value), ".git");
    hide SplitOn;
    forall part ensures part in Kept(Split(value)) <==> part in Split(value) && part != "" && part != "." {
      KeptMembers(Split(value), part);
    }
  }

  // ---- The run, as a function of the workspace ----

  predicate Copies(mode: Mode, a: PlannerAction) {
    a.IsWrite() || (Q.IsBootstrapMode(mode) && a.kind.Unchanged?)
  }

  /** No file stands where `path` needs a directory, and no directory where it needs a file. */
  predicate HasRoom(files: Files, path: string) {
    forall q :: q in files ==> !(q + "/" <= path) && !(path + "/" <= q)
  }

  function ModeBits(releaseMode: string): string {
    if releaseMode == "100755" then "100755" else "100644"
  }

  function CopyOne(files: Files, mode: Mode, a: PlannerAction, hash: A.Digest): Result<Files, RunnerError> {
    var parts := SafeRelative(a.path);
    if parts.None? then Err(InvalidPlanPath)
    else if a.IsBlocker() then Err(UnresolvedPlanConflict)
    else if !Copies(mode, a) then Ok(files)
    else if parts.value == [] then Err(ReleasePathEscape)
    else
      var source := Q.RELEASE_ROOT + "/" + Slashed(parts.value);
      if source !in files then Err(ExpectedRegularFile)
      else if hash(files[source].content) != a.releaseSha256 then Err(ReleaseInputDigestMismatch)
      else if !HasRoom(files, Slashed(parts.value)) then Err(FileSystemClash)
      else Ok(files[Slashed(parts.value) := File(files[source].content, ModeBits(a.releaseMode))])
  }

  function CopyAll(files: Files, mode: Mode, actions: seq<PlannerAction>, hash: A.Digest): Result<Files, RunnerError> {
    if actions == [] then Ok(files)
    else
      var before := CopyAll(files, mode, actions[..|actions| - 1], hash);
      if before.Err? then before else CopyOne(before.value, mode, actions[|actions| - 1], hash)
  }

  /** What a file system can hold: nothing lies beneath a file. */
  predicate NoneBeneath(files: Files) {
    forall p, q :: p in files && q in files ==> !(p + "/" <= q)
  }

  /** There is room for a file exactly when a file system can hold it as well. */
  lemma RoomMeans(files: Files, path: string, file: File)
    requires NoneBeneath(files)
    ensures HasRoom(files, path) <==> NoneBeneath(files[path := file])
  {
    var next := files[path := file];
    if HasRoom(files, path) {
      forall p, q | p in next && q in next ensures !(p + "/" <= q) {
        assert p != path ==> p in files;
        assert q != path ==> q in files;
      }
    } else if NoneBeneath(next) {
      forall q | q in files ensures !(q + "/" <= path) && !(path + "/" <= q) {
        assert q in next && path in next;
      }
    }
  }

  /** The copy loop never asks a file system for what it cannot hold. */
  lemma {:induction false} CopyingKeepsFileSystem(files: Files, mode: Mode, actions: seq<PlannerAction>, hash: A.Digest)
    requires NoneBeneath(files) && CopyAll(files, mode, actions, hash).Ok?
    ensures NoneBeneath(CopyAll(files, mode, actions, hash).value)
  {
    if actions != [] {
      var n := |actions| - 1;
      CopyingKeepsFileSystem(files, mode, actions[..n], hash);
      var before := CopyAll(files, mode, actions[..n], hash).value;
      CopyOneKeeps(before, mode, actions[n], hash);
    }
  }

  /** Whatever the workspace holds: when the copy loop finishes, no row blocked, and every copied row's file has
      the digest and the mode the plan declares. */
  lemma {:induction false} CopiesAreGenuine(files: Files, mode: Mode, actions: seq<PlannerAction>, hash: A.Digest, i: nat)
    requires CopyAll(files, mode, actions, hash).Ok? && R.DistinctPaths(actions) && i < |actions|
    requires forall k :: 0 <= k < |actions| ==> A.IsRelative(actions[k].path)
    ensures !actions[i].IsBlocker()
    ensures Copies(mode, actions[i]) ==>
      GenuineCopy(CopyAll(files, mode, actions, hash).value, actions[i], hash)
  {
    hide CopyOne;
    var n := |actions| - 1;
    var before := CopyAll(files, mode, actions[..n], hash).value;
    CopyOneWrites(before, mode, actions[n], hash);
    if i < n {
      CopiesAreGenuine(files, mode, actions[..n], hash, i);
      assert actions[i].path != actions[n].path;
    }
  }

  predicate GenuineCopy(files: Files, a: PlannerAction, hash: A.Digest) {
    a.path in files && hash(files[a.path].content) == a.releaseSha256 && files[a.path].mode == ModeBits(a.releaseMode)
  }

  /** One row touches no other path. */
  lemma CopyOneWrites(files: Files, mode: Mode, a: PlannerAction, hash: A.Digest)
    requires A.IsRelative(a.path) && CopyOne(files, mode, a, hash).Ok?
    ensures !a.IsBlocker()
    ensures var next := CopyOne(files, mode, a, hash).value;
      (Copies(mode, a) ==> GenuineCopy(next, a, hash)) &&
      forall path :: path != a.path ==> (path in next <==> path in files) && (path in files ==> next[path] == files[path])
  {
    SafeRelativeAgrees(a.path);
  }

  lemma CopyOneKeeps(files: Files, mode: Mode, a: PlannerAction, hash: A.Digest)
    requires NoneBeneath(files) && CopyOne(files, mode, a, hash).Ok?
    ensures NoneBeneath(CopyOne(files, mode, a, hash).value)
  {
    hide NoneBeneath;
    hide HasRoom;
    var parts := SafeRelative(a.path);
    if Copies(mode, a) {
      var source := Q.RELEASE_ROOT + "/" + Slashed(parts.value);
      RoomMeans(files, Slashed(parts.value), File(files[source].content, ModeBits(a.releaseMode)));
    }
  }

  /** The bootstrap script run on the workspace; None when it fails. */
  type Transform = Files -> Option<Files>

  function Bootstrap(plan: Payload, files: Files, transform: Transform): Result<Files, RunnerError> {
    if plan.context.None? then Err(BootstrapContextRequired)
    else if Q.BOOTSTRAP_SCRIPT !in files then Err(ExpectedRegularFile)
    else if transform(files).None? then Err(BootstrapFailed)
    else Ok(transform(files).value)
  }

  function PosixOf(path: string): string {
    if SafeRelative(path).Some? then Posix(SafeRelative(path).value) else ""
  }

  function ExpectedOutputs(actions: seq<PlannerAction>): set<string> {
    set i | 0 <= i < |actions| && actions[i].IsWrite() :: PosixOf(actions[i].path)
  }

  datatype Done = Done(files: Files, outputs: set<string>)

  function Finish(files: Files, actions: seq<PlannerAction>): Result<Done, RunnerError> {
    if ExpectedOutputs(actions) <= files.Keys then Ok(Done(files, ExpectedOutputs(actions))) else Err(ExpectedRegularFile)
  }

  function Perform(files: Files, plan: Payload, transform: Transform, hash: A.Digest): Result<Done, RunnerError> {
    if !plan.conflictFree || !plan.safeToApply then Err(UnsafeFullPlan)
    else if !plan.implementation.SandboxFullPlanV1? then Err(FullApplyContractMismatch)
    else if |plan.actions| > R.MAX_ACTIONS then Err(InvalidPlanActions)
    else
      var copied := CopyAll(files, plan.mode, plan.actions, hash);
      if copied.Err? then Err(copied.error)
      else
        var booted := if Q.IsBootstrapMode(plan.mode) then Bootstrap(plan, copied.value, transform) else copied;
        if booted.Err? then Err(booted.error) else Finish(booted.value, plan.actions)
  }

  /** A run that finishes was of a plan that is safe, without conflicts and meant for the sandbox, and left a file
      at every path it reports, which are the plan's writes; a plan that is not safe is refused on every
      workspace. */
  lemma FinishedRun(files: Files, plan: Payload, transform: Transform, hash: A.Digest)
    ensures var r := Perform(files, plan, transform, hash);
      && (r == Err(UnsafeFullPlan) <==> !(plan.conflictFree && plan.safeToApply))
      && (r.Ok? ==> plan.implementation.SandboxFullPlanV1? && |plan.actions| <= 5000)
      && (r.Ok? && Q.IsBootstrapMode(plan.mode) ==> plan.context.Some?)
      && (r.Ok? ==> forall path :: path in r.value.outputs ==> path in r.value.files)
      && (r.Ok? ==> forall i :: 0 <= i < |plan.actions| && plan.actions[i].IsWrite() ==> PosixOf(plan.actions[i].path) in r.value.outputs)
  {
    hide PosixOf;
    CopyErrors(files, plan.mode, plan.actions, hash);
    hide CopyAll;
  }

  lemma {:induction false} CopyErrors(files: Files, mode: Mode, actions: seq<PlannerAction>, hash: A.Digest)
    ensures CopyAll(files, mode, actions, hash).Err? ==> !CopyAll(files, mode, actions, hash).error.UnsafeFullPlan?
  {
    if actions != [] { CopyErrors(files, mode, actions[..|actions| - 1], hash); }
  }

  lemma {:induction false} ErrorStays(files: Files, mode: Mode, actions: seq<PlannerAction>, hash: A.Digest, n: nat)
    requires n <= |actions| && CopyAll(files, mode, actions[..n], hash).Err?
    ensures CopyAll(files, mode, actions, hash) == CopyAll(files, mode, actions[..n], hash)
  {
    if n < |actions| {
      var front := actions[..|actions| - 1];
      assert front[..n] == actions[..n];
      ErrorStays(files, mode, front, hash, n);
    } else {
      assert actions[..n] == actions;
    }
  }

  /** The runner's workspace. */
  class Workspace {
    var files: Files

    constructor (inputs: seq<A.Artifact>)
      ensures files == Place(inputs)
    {
      files := Place(inputs);
    }

    /** The copy loop over the plan's rows. */
    method CopyRelease(mode: Mode, actions: seq<PlannerAction>, hash: A.Digest)
      returns (e: Option<RunnerError>, outputPaths: set<string>)
      modifies this
      ensures e.None? ==> CopyAll(old(files), mode, actions, hash) == Ok(files) && outputPaths == ExpectedOutputs(actions)
      ensures e.Some? ==> CopyAll(old(files), mode, actions, hash) == Err(e.value)
    {
      hide CopyOne;
      hide PosixOf;
      outputPaths := {};
      ghost var start := files;
      for i := 0 to |actions|
        invariant CopyAll(start, mode, actions[..i], hash) == Ok(files)
        invariant outputPaths == set k | 0 <= k < i && actions[k].IsWrite() :: PosixOf(actions[k].path)
      {
        var row := actions[i];
        assert actions[..i + 1][..i] == actions[..i];
        assert CopyAll(start, mode, actions[..i + 1], hash) == CopyOne(files, mode, row, hash);
        var problem := CopyRow(mode, row, hash);
        if problem.Some? {
          ErrorStays(start, mode, actions, hash, i + 1);
          return problem, outputPaths;
        }
        if row.IsWrite() { outputPaths := outputPaths + {PosixOf(row.path)}; }
      }
      assert actions[..|actions|] == actions;
      e := None;
    }

    method CopyRow(mode: Mode, row: PlannerAction, hash: A.Digest) returns (e: Option<RunnerError>)
      modifies this
      ensures e.None? ==> CopyOne(old(files), mode, row, hash) == Ok(files)
      ensures e.Some? ==> CopyOne(old(files), mode, row, hash) == Err(e.value)
    {
      var rel := SafeRelative(row.path);
      if rel.None? { return Some(InvalidPlanPath); }
      if row.IsBlocker() { return Some(UnresolvedPlanConflict); }
      if !Copies(mode, row) { return None; }
      if rel.value == [] { return Some(ReleasePathEscape); }
      var destination := Slashed(rel.value);
      var source := Q.RELEASE_ROOT + "/" + destination;
      if source !in files { return Some(ExpectedRegularFile); }
      var data := files[source].content;
      if hash(data) != row.releaseSha256 { return Some(ReleaseInputDigestMismatch); }
      if !HasRoom(files, destination) { return Some(FileSystemClash); }
      files := files[destination := File(data, ModeBits(row.releaseMode))];
      return None;
    }

    method Run(plan: Payload, transform: Transform, hash: A.Digest) returns (r: Result<set<string>, RunnerError>)
      modifies this
      ensures r.Ok? ==> Perform(old(files), plan, transform, hash) == Ok(Done(files, r.value))
      ensures r.Err? ==> Perform(old(files), plan, transform, hash) == Err(r.error)
    {
      if !plan.conflictFree || !plan.safeToApply { return Err(UnsafeFullPlan); }
      if plan.implementation != SandboxFullPlanV1 { return Err(FullApplyContractMismatch); }
      if |plan.actions| > R.MAX_ACTIONS { return Err(InvalidPlanActions); }
      var e, outputPaths := CopyRelease(plan.mode, plan.actions, hash);
      if e.Some? { return Err(e.value); }
      if Q.IsBootstrapMode(plan.mode) {
        if plan.context.None? { return Err(BootstrapContextRequired); }
        if Q.BOOTSTRAP_SCRIPT !in files { return Err(ExpectedRegularFile); }
        var after := transform(files);
        if after.None? { return Err(BootstrapFailed); }
        files := after.value;
      }
      if !(outputPaths <= files.Keys) { return Err(ExpectedRegularFile); }
      return Ok(outputPaths);
    }
  }

  // ---- The workspace a request sets up ----

  function Place(inputs: seq<A.Artifact>): Files {
    if inputs == [] then map[]
    else
      var last := inputs[|inputs| - 1];
      Place(inputs[..|inputs| - 1])[last.path := File(M.ContentOf(last), last.mode)]
  }

  lemma {:induction false} PlaceAt(inputs: seq<A.Artifact>, i: nat)
    requires A.DistinctPaths(inputs) && i < |inputs|
    ensures inputs[i].path in Place(inputs) && Place(inputs)[inputs[i].path] == File(M.ContentOf(inputs[i]), inputs[i].mode)
  {
    if i < |inputs| - 1 {
      PlaceAt(inputs[..|inputs| - 1], i);
    }
  }

  lemma {:induction false} PlaceKeys(inputs: seq<A.Artifact>)
    ensures Place(inputs).Keys == A.Paths(inputs)
  {
    hide M.ContentOf;
    if inputs == [] {
      assert A.Paths(inputs) == {};
    } else {
      var n := |inputs| - 1;
      PlaceKeys(inputs[..n]);
      A.PathsStep(inputs[..n], inputs[n]);
      assert inputs[..n] + [inputs[n]] == inputs;
    }
  }

  predicate Under(root: string, path: string) {
    path == root || root + "/" <= path
  }

  predicate UnderInput(path: string) {
    Under(Q.INPUT_ROOT, path)
  }

  /** Release paths that keep out of the input directory and out of each other's way. */
  predicate Separate(actions: seq<PlannerAction>) {
    (forall i :: 0 <= i < |actions| ==> !UnderInput(actions[i].path)) &&
    (forall i, j :: 0 <= i < |actions| && 0 <= j < |actions| ==> !(actions[i].path + "/" <= actions[j].path))
  }

  /** What lies beneath a file of a top directory, or has such a file beneath it, is in the directory too. */
  lemma RootSpreads(root: string, inside: string, path: string)
    requires '/' !in root && Under(root, inside)
    ensures inside + "/" <= path ==> Under(root, path)
    ensures path + "/" <= inside ==> Under(root, path)
  {
    var n := |root|;
    assert inside[..n] == root;
    if inside + "/" <= path {
      assert path[..n + 1] == (inside + "/")[..n + 1] == root + "/";
    }
    if path + "/" <= inside {
      assert path + "/" == inside[..|path| + 1];
      assert |path| >= n by { assert inside[|path|] == '/'; }
      assert path[..n] == root;
    }
  }

  function CopiedPaths(mode: Mode, actions: seq<PlannerAction>): set<string> {
    set i | 0 <= i < |actions| && Copies(mode, actions[i]) :: actions[i].path
  }

  /** The input files, and every copied row's file on top. */
  predicate Laid(base: Files, files: Files, mode: Mode, actions: seq<PlannerAction>, disk: map<string, Bytes>) {
    files.Keys == base.Keys + CopiedPaths(mode, actions) &&
    (forall q :: q in base && UnderInput(q) ==> q in files && files[q] == base[q]) &&
    (forall i :: 0 <= i < |actions| && Copies(mode, actions[i]) ==>
      actions[i].path in files && files[actions[i].path] == File(Q.ContentOf(actions[i].path, disk), actions[i].releaseMode))
  }

  /** What a row needs of the input files. */
  predicate Supplied(base: Files, mode: Mode, a: PlannerAction, disk: map<string, Bytes>, hash: A.Digest) {
    A.IsRelative(a.path) && !a.IsBlocker() && (a.releaseMode == "100644" || a.releaseMode == "100755") &&
    (Copies(mode, a) ==>
      Q.RELEASE_ROOT + "/" + a.path in base &&
      base[Q.RELEASE_ROOT + "/" + a.path].content == Q.ContentOf(a.path, disk) &&
      hash(Q.ContentOf(a.path, disk)) == a.releaseSha256)
  }

  lemma RoomLeft(base: Files, files: Files, mode: Mode, actions: seq<PlannerAction>, a: PlannerAction)
    requires files.Keys == base.Keys + CopiedPaths(mode, actions) && Separate(actions + [a])
    requires forall q :: q in base ==> UnderInput(q)
    ensures HasRoom(files, a.path)
  {
    var all := actions + [a];
    assert all[|actions|] == a;
    forall q | q in files ensures !(q + "/" <= a.path) && !(a.path + "/" <= q) {
      if q in base {
        Q.InputNames();
        RootSpreads(Q.INPUT_ROOT, q, a.path);
      } else {
        var i :| 0 <= i < |actions| && Copies(mode, actions[i]) && actions[i].path == q;
        assert all[i] == actions[i];
      }
    }
  }

  lemma Beneath(root: string, rest: string)
    ensures Under(root, root + "/" + rest)
  {
  }

  lemma SourceUnderInput(path: string)
    ensures UnderInput(Q.RELEASE_ROOT + "/" + path)
  {
    Beneath(Q.INPUT_ROOT, Q.RELEASE_NAME + "/" + path);
    assert Q.INPUT_ROOT + "/" + (Q.RELEASE_NAME + "/" + path) == Q.RELEASE_ROOT + "/" + path;
  }

  lemma FixedUnderInput()
    ensures UnderInput(Q.RUNNER_PATH) && UnderInput(Q.PLAN_PATH)
  {
    Beneath(Q.INPUT_ROOT, Q.RUNNER_NAME);
    Beneath(Q.INPUT_ROOT, Q.PLAN_NAME);
  }

  lemma CopiedPathsStep(mode: Mode, actions: seq<PlannerAction>, a: PlannerAction)
    ensures CopiedPaths(mode, actions + [a]) == CopiedPaths(mode, actions) + (if Copies(mode, a) then {a.path} else {})
  {
    var all := actions + [a];
    assert all[|actions|] == a && forall i :: 0 <= i < |actions| ==> all[i] == actions[i];
    forall path | path in CopiedPaths(mode, actions) ensures path in CopiedPaths(mode, all) {
      var i :| 0 <= i < |actions| && Copies(mode, actions[i]) && actions[i].path == path;
      assert all[i].path == path;
    }
  }

  /** One row of a supplied plan copies without an error. */
  lemma CopySupplied(base: Files, files: Files, mode: Mode, actions: seq<PlannerAction>, a: PlannerAction,
                     disk: map<string, Bytes>, hash: A.Digest)
    requires Laid(base, files, mode, actions, disk) && Supplied(base, mode, a, disk, hash)
    requires Separate(actions + [a]) && forall q :: q in base ==> UnderInput(q)
    ensures CopyOne(files, mode, a, hash)
      == Ok(if Copies(mode, a) then files[a.path := File(Q.ContentOf(a.path, disk), a.releaseMode)] else files)
  {
    SafeRelativeAgrees(a.path);
    if Copies(mode, a) {
      SourceUnderInput(a.path);
      RoomLeft(base, files, mode, actions, a);
    }
  }

  lemma LaidStep(base: Files, files: Files, mode: Mode, actions: seq<PlannerAction>, a: PlannerAction, disk: map<string, Bytes>)
    requires Laid(base, files, mode, actions, disk) && !UnderInput(a.path) && R.DistinctPaths(actions + [a])
    ensures Laid(base, if Copies(mode, a) then files[a.path := File(Q.ContentOf(a.path, disk), a.releaseMode)] else files,
                 mode, actions + [a], disk)
  {
    var all, n := actions + [a], |actions|;
    var file := File(Q.ContentOf(a.path, disk), a.releaseMode);
    var next := if Copies(mode, a) then files[a.path := file] else files;
    CopiedPathsStep(mode, actions, a);
    forall i | 0 <= i < |all| && Copies(mode, all[i])
      ensures all[i].path in next && next[all[i].path] == File(Q.ContentOf(all[i].path, disk), all[i].releaseMode)
    {
      if i < n {
        assert all[i] == actions[i];
        assert all[i].path != all[n].path;
      } else {
        assert all[i] == a;
      }
    }
  }

  lemma LaidEmpty(base: Files, mode: Mode, disk: map<string, Bytes>)
    ensures Laid(base, base, mode, [], disk)
  {
    assert CopiedPaths(mode, []) == {};
  }

  /** The whole copy loop on a supplied plan. */
  lemma {:induction false} CopiesSucceed(base: Files, mode: Mode, actions: seq<PlannerAction>, disk: map<string, Bytes>, hash: A.Digest)
    requires Separate(actions) && R.DistinctPaths(actions) && forall q :: q in base ==> UnderInput(q)
    requires forall i :: 0 <= i < |actions| ==> Supplied(base, mode, actions[i], disk, hash)
    ensures CopyAll(base, mode, actions, hash).Ok?
    ensures Laid(base, CopyAll(base, mode, actions, hash).value, mode, actions, disk)
  {
    hide CopyOne;
    hide Laid;
    hide Supplied;
    if actions == [] {
      LaidEmpty(base, mode, disk);
    } else {
      var n := |actions| - 1;
      var front, a := actions[..n], actions[n];
      CopiesSucceed(base, mode, front, disk, hash);
      assert front + [a] == actions;
      CopySupplied(base, CopyAll(base, mode, front, hash).value, mode, front, a, disk, hash);
      LaidStep(base, CopyAll(base, mode, front, hash).value, mode, front, a, disk);
    }
  }

  // ---- Agreement ----

  /** A bootstrap script that succeeds wherever its own files are present, changes only the transform
      paths, deletes nothing and keeps modes. */
  ghost predicate Tame(transform: Transform, policy: PathPolicy, needed: set<string>) {
    forall files: Files :: needed <= files.Keys ==> transform(files).Some? && Touches(files, transform(files).value, policy)
  }

  predicate Touches(before: Files, after: Files, policy: PathPolicy) {
    forall q :: q in before ==>
      q in after && after[q].mode == before[q].mode && (!policy.IsBootstrapTransform(q) ==> after[q] == before[q])
  }

  /** A plan the runner's guards let through, on paths that do not collide. */
  predicate Runnable(policy: PathPolicy, plan: Payload) {
    plan.conflictFree && plan.safeToApply && plan.implementation.SandboxFullPlanV1? &&
    |plan.actions| <= R.MAX_ACTIONS && NoBlockers(plan.actions) && R.DistinctPaths(plan.actions) && Separate(plan.actions) &&
    (forall i :: 0 <= i < |plan.actions| ==> Q.ValidRequest(plan.actions[i])) &&
    (Q.IsBootstrapMode(plan.mode) ==> plan.context.Some? && TransformsNamed(policy, plan.actions))
  }

  predicate TransformsNamed(policy: PathPolicy, actions: seq<PlannerAction>) {
    forall i :: 0 <= i < |actions| && actions[i].IsWrite() && !actions[i].kind.BootstrapTransform? ==>
      !policy.IsBootstrapTransform(actions[i].path)
  }

  /** What the run leaves at every write path. */
  predicate Written(files: Files, actions: seq<PlannerAction>, disk: map<string, Bytes>) {
    forall i :: 0 <= i < |actions| && actions[i].IsWrite() ==> WrittenAt(files, actions[i], disk)
  }

  predicate WrittenAt(files: Files, a: PlannerAction, disk: map<string, Bytes>) {
    a.path in files && files[a.path].mode == a.releaseMode &&
    (!a.kind.BootstrapTransform? ==> files[a.path].content == Q.ContentOf(a.path, disk))
  }

  lemma ReleaseInputContent(a: PlannerAction, disk: map<string, Bytes>)
    ensures M.ContentOf(Q.ReleaseInput(Q.FileOf(a, disk))) == Q.ContentOf(a.path, disk)
  {
    RoundTrip(Q.ContentOf(a.path, disk), "");
  }

  /** Each selected file waits under the release directory. */
  lemma SourcePlaced(selected: seq<PlannerAction>, disk: map<string, Bytes>, runner: Bytes, planText: Bytes, hash: A.Digest, k: nat)
    requires R.DistinctPaths(selected) && k < |selected|
    ensures var base := Place(Q.Inputs(Q.FilesOf(selected, disk), runner, planText, hash));
      Q.RELEASE_ROOT + "/" + selected[k].path in base &&
      base[Q.RELEASE_ROOT + "/" + selected[k].path].content == Q.ContentOf(selected[k].path, disk)
  {
    hide M.ContentOf;
    hide Encode;
    hide Place;
    var inputs := Q.Inputs(Q.FilesOf(selected, disk), runner, planText, hash);
    assert inputs[k + 2] == Q.ReleaseInput(Q.FileOf(selected[k], disk));
    ReleaseInputContent(selected[k], disk);
    Q.InputsDistinct(selected, disk, runner, planText, hash);
    PlaceAt(inputs, k + 2);
  }

  /** What the request puts where: the program and the plan at their two paths and each selected file under the
      release directory at its own path, with nothing else in the workspace. */
  lemma InputsPlaced(selected: seq<PlannerAction>, disk: map<string, Bytes>, runner: Bytes, planText: Bytes, hash: A.Digest)
    requires R.DistinctPaths(selected)
    ensures var base := Place(Q.Inputs(Q.FilesOf(selected, disk), runner, planText, hash));
      && Q.RUNNER_PATH in base && base[Q.RUNNER_PATH] == File(runner, "100644")
      && Q.PLAN_PATH in base && base[Q.PLAN_PATH] == File(planText, "100644")
      && (forall k :: 0 <= k < |selected| ==> HoldsContent(base, Q.RELEASE_ROOT + "/" + selected[k].path, Q.ContentOf(selected[k].path, disk)))
      && |base.Keys| == |selected| + 2
    ensures Q.RUNNER_PATH == ".anpos-input/apply.py" && Q.PLAN_PATH == ".anpos-input/plan.json" && Q.RELEASE_ROOT == ".anpos-input/release"
  {
    hide M.ContentOf;
    hide Encode;
    hide Place;
    var inputs := Q.Inputs(Q.FilesOf(selected, disk), runner, planText, hash);
    Q.InputsDistinct(selected, disk, runner, planText, hash);
    PlaceAt(inputs, 0);
    PlaceAt(inputs, 1);
    TextContent(Q.RUNNER_PATH, runner, hash);
    TextContent(Q.PLAN_PATH, planText, hash);
    forall k | 0 <= k < |selected|
      ensures HoldsContent(Place(inputs), Q.RELEASE_ROOT + "/" + selected[k].path, Q.ContentOf(selected[k].path, disk))
    {
      SourcePlaced(selected, disk, runner, planText, hash, k);
    }
    PlacedSize(inputs);
  }

  predicate HoldsContent(files: Files, path: string, content: Bytes) {
    path in files && files[path].content == content
  }

  lemma PlacedSize(inputs: seq<A.Artifact>)
    requires A.DistinctPaths(inputs)
    ensures |Place(inputs).Keys| == |inputs|
  {
    hide Place;
    PlaceKeys(inputs);
    var paths := seq(|inputs|, i requires 0 <= i < |inputs| => inputs[i].path);
    assert Elements(paths) == A.Paths(inputs) by {
      assert forall i :: 0 <= i < |inputs| ==> paths[i] == inputs[i].path;
    }
    DistinctSize(paths);
  }

  lemma TextContent(path: string, content: Bytes, hash: A.Digest)
    ensures M.ContentOf(Q.Utf8Artifact(path, content, hash)) == content
  {
    RoundTrip(content, "");
  }

  lemma BaseSupplies(plan: Payload, selected: seq<PlannerAction>, manifest: map<string, Q.ReleaseEntry>,
                     disk: map<string, Bytes>, runner: Bytes, planText: Bytes, hash: A.Digest, i: nat)
    requires Q.MaterializationRequests(plan) == Some(selected) && Q.Materializable(selected, manifest, disk, hash)
    requires i < |plan.actions| && Q.ValidRequest(plan.actions[i]) && !plan.actions[i].IsBlocker()
    ensures Supplied(Place(Q.Inputs(Q.FilesOf(selected, disk), runner, planText, hash)), plan.mode, plan.actions[i], disk, hash)
  {
    var a := plan.actions[i];
    if Copies(plan.mode, a) {
      Q.WritesAre(plan.actions);
      assert a in selected;
      var k :| 0 <= k < |selected| && selected[k] == a;
      SourcePlaced(selected, disk, runner, planText, hash, k);
      assert Q.OnDisk(selected[k], disk, hash);
    }
  }

  lemma BaseUnderInput(selected: seq<PlannerAction>, disk: map<string, Bytes>, runner: Bytes, planText: Bytes, hash: A.Digest, q: string)
    requires q in Place(Q.Inputs(Q.FilesOf(selected, disk), runner, planText, hash))
    ensures UnderInput(q)
  {
    hide UnderInput;
    hide Encode;
    hide Place;
    var inputs := Q.Inputs(Q.FilesOf(selected, disk), runner, planText, hash);
    PlaceKeys(inputs);
    var i :| 0 <= i < |inputs| && inputs[i].path == q;
    FixedUnderInput();
    if i >= 2 {
      SourceUnderInput(selected[i - 2].path);
    }
  }

  lemma ExpectedAre(actions: seq<PlannerAction>)
    requires forall i :: 0 <= i < |actions| ==> A.IsRelative(actions[i].path)
    ensures ExpectedOutputs(actions) == M.WritePaths(actions)
  {
    forall i | 0 <= i < |actions| ensures PosixOf(actions[i].path) == actions[i].path {
      SafeRelativeAgrees(actions[i].path);
    }
  }

  /** Copying, then the script: what a runnable plan leaves, whether or not the script is there to run. */
  lemma RunOutcome(policy: PathPolicy, plan: Payload, base: Files, disk: map<string, Bytes>, transform: Transform, hash: A.Digest)
    requires Runnable(policy, plan) && forall q :: q in base ==> UnderInput(q)
    requires forall i :: 0 <= i < |plan.actions| ==> Supplied(base, plan.mode, plan.actions[i], disk, hash)
    requires Q.IsBootstrapMode(plan.mode) ==> Tame(transform, policy, CopiedPaths(plan.mode, plan.actions))
    ensures Perform(base, plan, transform, hash).Ok?
      <==> (Q.IsBootstrapMode(plan.mode) ==> Q.BOOTSTRAP_SCRIPT in CopiedPaths(plan.mode, plan.actions))
    ensures Perform(base, plan, transform, hash).Err? ==> Perform(base, plan, transform, hash).error == ExpectedRegularFile
    ensures Perform(base, plan, transform, hash).Ok? ==>
      Perform(base, plan, transform, hash).value.outputs == M.WritePaths(plan.actions) &&
      Written(Perform(base, plan, transform, hash).value.files, plan.actions, disk)
  {
    hide CopyAll;
    hide Separate;
    hide Written;
    hide Touches;
    ExpectedAre(plan.actions);
    hide Supplied;
    hide Q.ValidRequest;
    CopiesSucceed(base, plan.mode, plan.actions, disk, hash);
    var copied := CopyAll(base, plan.mode, plan.actions, hash).value;
    ScriptOutside(base);
    if Q.IsBootstrapMode(plan.mode) {
      assert CopiedPaths(plan.mode, plan.actions) <= copied.Keys;
      WrittenAfter(policy, plan, base, copied, transform(copied).value, disk);
    } else {
      WrittenAfter(policy, plan, base, copied, copied, disk);
    }
  }

  lemma ScriptOutside(base: Files)
    requires forall q :: q in base ==> UnderInput(q)
    ensures Q.BOOTSTRAP_SCRIPT !in base
  {
    assert Q.BOOTSTRAP_SCRIPT[0] != Q.INPUT_ROOT[0];
  }

  lemma WrittenAfter(policy: PathPolicy, plan: Payload, base: Files, copied: Files, after: Files, disk: map<string, Bytes>)
    requires Laid(base, copied, plan.mode, plan.actions, disk)
    requires after == copied || (Touches(copied, after, policy) && TransformsNamed(policy, plan.actions))
    ensures Written(after, plan.actions, disk) && M.WritePaths(plan.actions) <= after.Keys
  {
    forall i | 0 <= i < |plan.actions| && plan.actions[i].IsWrite() ensures WrittenAt(after, plan.actions[i], disk) {
      assert Copies(plan.mode, plan.actions[i]);
    }
    forall path | path in M.WritePaths(plan.actions) ensures path in after {
      var i :| 0 <= i < |plan.actions| && plan.actions[i].IsWrite() && plan.actions[i].path == path;
      assert WrittenAt(after, plan.actions[i], disk);
    }
  }

  /** On the workspace its own request sets up, a runnable plan runs exactly when a bootstrap's script
      is among the copied files; it then produces exactly the planned writes, and a bootstrap whose
      script was kept out fails on the missing file. */
  lemma RunnableRuns(policy: PathPolicy, plan: Payload, selected: seq<PlannerAction>, manifest: map<string, Q.ReleaseEntry>,
                     disk: map<string, Bytes>, runner: Bytes, planText: Bytes, transform: Transform, hash: A.Digest)
    requires Runnable(policy, plan)
    requires Q.MaterializationRequests(plan) == Some(selected) && Q.Materializable(selected, manifest, disk, hash)
    requires Q.IsBootstrapMode(plan.mode) ==> Tame(transform, policy, CopiedPaths(plan.mode, plan.actions))
    ensures var r := Perform(Place(Q.Inputs(Q.FilesOf(selected, disk), runner, planText, hash)), plan, transform, hash);
      (r.Ok? <==> (Q.IsBootstrapMode(plan.mode) ==> Q.BOOTSTRAP_SCRIPT in CopiedPaths(plan.mode, plan.actions))) &&
      (r.Err? ==> r.error == ExpectedRegularFile) &&
      (r.Ok? ==> r.value.outputs == M.WritePaths(plan.actions) && Written(r.value.files, plan.actions, disk))
  {
    var base := Place(Q.Inputs(Q.FilesOf(selected, disk), runner, planText, hash));
    forall q | q in base ensures UnderInput(q) { BaseUnderInput(selected, disk, runner, planText, hash, q); }
    forall i | 0 <= i < |plan.actions| ensures Supplied(base, plan.mode, plan.actions[i], disk, hash) {
      BaseSupplies(plan, selected, manifest, disk, runner, planText, hash, i);
    }
    RunOutcome(policy, plan, base, disk, transform, hash);
  }

  // ---- What the planner's own plans do ----

  /** Every plan for an empty repository names an implementation the runner does not know: the run is
      refused before it touches a file, on every workspace. */
  lemma EmptyBootstrapRefused(policy: PathPolicy, input: PlanInput, textHash: string -> string, p: Payload,
                              files: Files, transform: Transform, hash: A.Digest)
    requires PlanPayload(policy, input, textHash) == Ok(p) && p.mode.BootstrapEmpty?
    ensures p.conflictFree && p.safeToApply
    ensures Perform(files, p, transform, hash) == Err(FullApplyContractMismatch)
  {
    VerdictMeaning(policy, input, textHash, p);
    assert p.actions[0].IsWrite();
    forall i | 0 <= i < |p.actions| ensures !p.actions[i].IsBlocker() {}
  }

  /** The row at one settled action: what the runner does with it and what the script may do to it. */
  lemma SettledRow(policy: PathPolicy, mode: Mode, f: ReleaseFile, base: Tree, a: PlannerAction)
    requires f.gitObject.Some? && M.Settles(policy, mode, ActionRow(policy, mode, f, base), a) && Q.IsBootstrapMode(mode)
    requires !mode.BootstrapEmpty?
    ensures Copies(mode, a) <==> !a.kind.PreserveProjectState?
    ensures a.IsWrite() && !a.kind.BootstrapTransform? ==> !policy.IsBootstrapTransform(a.path)
  {
  }

  /** A conflict-free plan the code calls safe is runnable in every mode but the one for an empty repository,
      resolved or not; a bootstrap copies exactly the files that were not kept as the target's. */
  lemma SettledPlansRun(policy: PathPolicy, input: PlanInput, textHash: string -> string, p: Payload)
    requires M.SettledPlan(policy, input, textHash, p) && p.safeToApply && !p.mode.BootstrapEmpty?
    requires M.DistinctFiles(input.files) && Separate(p.actions)
    requires forall i :: 0 <= i < |p.actions| ==> Q.ValidRequest(p.actions[i])
    ensures Runnable(policy, p)
    ensures Q.IsBootstrapMode(p.mode) ==>
      forall i :: 0 <= i < |p.actions| ==> (Copies(p.mode, p.actions[i]) <==> !p.actions[i].kind.PreserveProjectState?)
  {
    hide Separate;
    hide Q.ValidRequest;
    var base := TreeOf(input.targetTree);
    M.SettledPlanIs(policy, input, textHash, p);
    M.SettledPaths(policy, input.mode, input.files, base, p.actions);
    if Q.IsBootstrapMode(p.mode) {
      forall i | 0 <= i < |p.actions|
        ensures Copies(p.mode, p.actions[i]) <==> !p.actions[i].kind.PreserveProjectState?
        ensures p.actions[i].IsWrite() && !p.actions[i].kind.BootstrapTransform? ==> !policy.IsBootstrapTransform(p.actions[i].path)
      {
        assert M.Settles(policy, input.mode, Rows(policy, input.mode, input.files, base)[i], p.actions[i]);
        SettledRow(policy, p.mode, input.files[i], base, p.actions[i]);
      }
    }
  }

  /** The plan keeps the target's own bootstrap script. */
  predicate KeepsScript(actions: seq<PlannerAction>) {
    exists i :: 0 <= i < |actions| && actions[i].path == Q.BOOTSTRAP_SCRIPT && actions[i].kind.PreserveProjectState?
  }

  /** A bootstrap's script is copied exactly when it was not kept. */
  lemma ScriptCopied(policy: PathPolicy, input: PlanInput, textHash: string -> string, p: Payload)
    requires M.SettledPlan(policy, input, textHash, p) && p.safeToApply && !p.mode.BootstrapEmpty?
    requires M.DistinctFiles(input.files) && Separate(p.actions)
    requires forall i :: 0 <= i < |p.actions| ==> Q.ValidRequest(p.actions[i])
    requires Q.IsBootstrapMode(p.mode) && Q.HasScript(p.actions)
    ensures Q.BOOTSTRAP_SCRIPT in CopiedPaths(p.mode, p.actions) <==> !KeepsScript(p.actions)
  {
    SettledPlansRun(policy, input, textHash, p);
    hide M.SettledPlan;
    hide Copies;
    var i :| 0 <= i < |p.actions| && p.actions[i].path == Q.BOOTSTRAP_SCRIPT;
    assert forall k :: 0 <= k < |p.actions| && p.actions[k].path == Q.BOOTSTRAP_SCRIPT ==> k == i;
  }

  /** The planner itself preserves nothing in a bootstrap. */
  lemma BootstrapsPreserveNothing(policy: PathPolicy, input: PlanInput, textHash: string -> string, p: Payload)
    requires PlanPayload(policy, input, textHash) == Ok(p) && Q.IsBootstrapMode(p.mode)
    ensures forall k :: 0 <= k < |p.actions| ==> !p.actions[k].kind.PreserveProjectState?
  {
  }

  /** The answers keep the target's file at the path. */
  predicate AnsweredKeep(raws: seq<R.RawResolution>, path: string) {
    exists i :: 0 <= i < |raws| && raws[i].path == path && raws[i].resolution == "keep_target"
  }

  /** Only an answer keeps the script: a plan the planner calls safe never does, and a resolved one does
      exactly when `keep_target` was answered for the script's path. */
  lemma KeptByAnswer(policy: PathPolicy, input: PlanInput, textHash: string -> string, source: Payload, p: Payload,
                     planId: string, planHash: string, raws: seq<R.RawResolution>, login: string)
    requires PlanPayload(policy, input, textHash) == Ok(source) && Q.IsBootstrapMode(source.mode)
    requires M.ResolvedBy(policy, source, p, planId, planHash, raws, login)
    ensures KeepsScript(p.actions) <==> AnsweredKeep(raws, Q.BOOTSTRAP_SCRIPT)
  {
    BootstrapsPreserveNothing(policy, input, textHash, source);
    R.ResolvedFollows(policy, source, raws, p, planId, planHash, login);
    hide PlanPayload;
    if KeepsScript(p.actions) {
      var k :| 0 <= k < |p.actions| && p.actions[k].path == Q.BOOTSTRAP_SCRIPT && p.actions[k].kind.PreserveProjectState?;
      var i := R.AnswerDecides(policy, source, raws, p, k);
      assert raws[i].path == Q.BOOTSTRAP_SCRIPT && raws[i].resolution == "keep_target";
    }
    if AnsweredKeep(raws, Q.BOOTSTRAP_SCRIPT) {
      var i :| 0 <= i < |raws| && raws[i].path == Q.BOOTSTRAP_SCRIPT && raws[i].resolution == "keep_target";
      var k := R.AnswersABlocker(source, planId, planHash, raws, login, i);
      var j := R.AnswerDecides(policy, source, raws, p, k);
      assert p.actions[k].kind.PreserveProjectState?;
    }
  }

  /** The planner asks for that decision: adopting a repository whose script differs from the release's
      blocks on the script, and then keeping it is one of the acceptable answers. */
  lemma AdoptionAsksForTheScript(policy: PathPolicy, input: PlanInput, textHash: string -> string, p: Payload, i: nat)
    requires PlanPayload(policy, input, textHash) == Ok(p) && p.mode.AdoptExisting? && i < |input.files|
    requires input.files[i].path == Q.BOOTSTRAP_SCRIPT
    ensures p.actions[i].IsBlocker() <==>
      At(TreeOf(input.targetTree), Q.BOOTSTRAP_SCRIPT).Some? &&
      TreeOf(input.targetTree)[Q.BOOTSTRAP_SCRIPT].blob != input.files[i].gitObject.value
    ensures p.actions[i].IsBlocker() && IsHex(TreeOf(input.targetTree)[Q.BOOTSTRAP_SCRIPT].blob, 40) ==>
      R.Answers(R.RawResolution(Q.BOOTSTRAP_SCRIPT, "keep_target", Some(TreeOf(input.targetTree)[Q.BOOTSTRAP_SCRIPT].blob), false),
                p.actions[i])
  {
  }

  // ---- What the sandbox hands back ----

  function FileAt(files: Files, path: string): File {
    if path in files then files[path] else File([], "100644")
  }

  function CollectedFile(files: Files, path: string, hash: A.Digest): A.Artifact {
    var f := FileAt(files, path);
    A.Artifact(path, f.mode, Encode(f.content), hash(f.content), |f.content|)
  }

  function Collect(files: Files, paths: seq<string>, hash: A.Digest): seq<A.Artifact> {
    seq(|paths|, i requires 0 <= i < |paths| => CollectedFile(files, paths[i], hash))
  }

  lemma CollectedProduces(files: Files, a: PlannerAction, disk: map<string, Bytes>, hash: A.Digest)
    requires a.IsWrite() && WrittenAt(files, a, disk) && hash(Q.ContentOf(a.path, disk)) == a.releaseSha256
    ensures M.Produces(CollectedFile(files, a.path, hash), a)
  {
  }

  lemma CollectedGenuine(files: Files, a: PlannerAction, disk: map<string, Bytes>, hash: A.Digest)
    requires WrittenAt(files, a, disk) && A.SafeArtifactPath(a.path) && Q.HexDigest(hash)
    requires a.releaseMode == "100644" || a.releaseMode == "100755"
    ensures A.Genuine(CollectedFile(files, a.path, hash), hash)
  {
    RoundTrip(files[a.path].content, "");
  }

  /** The files of a finished run satisfy the verifier, and the artifact checks as far as their size allows. */
  lemma OutputsVerify(plan: Payload, files: Files, disk: map<string, Bytes>, hash: A.Digest)
    requires R.DistinctPaths(plan.actions) && Written(files, plan.actions, disk) && Q.HexDigest(hash)
    requires Q.OutputPathsAccepted(Q.OutputPaths(plan.actions))
    requires forall i :: 0 <= i < |plan.actions| && plan.actions[i].IsWrite() ==>
      Q.ValidRequest(plan.actions[i]) && hash(Q.ContentOf(plan.actions[i].path, disk)) == plan.actions[i].releaseSha256
    ensures var outputs := Collect(files, Q.OutputPaths(plan.actions), hash);
      M.OutputsMatch(plan.actions, outputs) && A.Paths(outputs) == M.WritePaths(plan.actions) &&
      (M.OutputsGood(plan.actions, outputs, hash) <==> A.TotalBytes(outputs) <= M.MAX_ARTIFACT_BYTES)
  {
    var actions, paths := plan.actions, Q.OutputPaths(plan.actions);
    hide Encode;
    hide A.Genuine;
    var outputs := Collect(files, paths, hash);
    Q.WritesAre(actions);
    Q.OutputPathsAre(actions);
    DistinctSize(paths);
    forall k | 0 <= k < |outputs|
      ensures M.ProducesSome(outputs[k], actions) && A.Genuine(outputs[k], hash) && outputs[k].path in M.WritePaths(actions)
    {
      var a := Q.WriteActions(actions)[k];
      var i :| 0 <= i < |actions| && actions[i] == a;
      assert A.SafeArtifactPath(paths[k]) && paths[k] == a.path;
      CollectedProduces(files, a, disk, hash);
      CollectedGenuine(files, a, disk, hash);
    }
    A.AllGenuineFrom(outputs, Some(M.WritePaths(actions)), hash);
    M.OutputsAreTheWrites(actions, outputs);
  }

  predicate Sized(files: Files, a: PlannerAction, disk: map<string, Bytes>) {
    WrittenAt(files, a, disk) && !a.kind.BootstrapTransform? && |Q.ContentOf(a.path, disk)| == a.releaseBytes
  }

  lemma CollectedSize(files: Files, a: PlannerAction, disk: map<string, Bytes>, hash: A.Digest)
    requires Sized(files, a, disk)
    ensures CollectedFile(files, a.path, hash).bytes == a.releaseBytes
  {
  }

  lemma {:induction false} CopiedBytes(files: Files, writes: seq<PlannerAction>, disk: map<string, Bytes>, hash: A.Digest)
    requires forall i :: 0 <= i < |writes| ==> Sized(files, writes[i], disk)
    ensures A.TotalBytes(Collect(files, seq(|writes|, i requires 0 <= i < |writes| => writes[i].path), hash))
      == Q.TotalSize(writes)
  {
    hide Sized;
    hide CollectedFile;
    var paths := seq(|writes|, i requires 0 <= i < |writes| => writes[i].path);
    if writes != [] {
      var n := |writes| - 1;
      CopiedBytes(files, writes[..n], disk, hash);
      assert seq(n, i requires 0 <= i < n => writes[..n][i].path) == paths[..n];
      assert Collect(files, paths, hash)[..n] == Collect(files, paths[..n], hash);
      CollectedSize(files, writes[n], disk, hash);
    }
  }

  /** A run that exited cleanly with these files. */
  function CleanExit(outputs: seq<A.Artifact>): M.SandboxResult {
    M.SandboxResult("remote", "remote_ephemeral", 0, false, false, 0, 0, Some(outputs))
  }

  /** Planner, runner and verifier agree. Every safe conflict-free plan that is not for an empty repository,
      planned so or resolved, runs on the workspace its request sets up exactly when it does not keep the
      target's own script for a bootstrap, and otherwise fails on the missing file. What the sandbox collects
      passes every check up to its size; a repair's or an upgrade's passes them all. */
  lemma PlannerRunnerVerifierAgree(
    policy: PathPolicy, input: PlanInput, textHash: string -> string, p: Payload, selected: seq<PlannerAction>,
    manifest: map<string, Q.ReleaseEntry>, disk: map<string, Bytes>, runner: Bytes, planText: Bytes,
    transform: Transform, hash: A.Digest)
    requires M.SettledPlan(policy, input, textHash, p) && p.safeToApply && !p.mode.BootstrapEmpty?
    requires M.DistinctFiles(input.files) && Separate(p.actions) && Q.HexDigest(hash)
    requires forall i :: 0 <= i < |p.actions| ==> Q.ValidRequest(p.actions[i])
    requires Q.MaterializationRequests(p) == Some(selected) && Q.Materializable(selected, manifest, disk, hash)
    requires Q.WithinLimits(selected)
    requires Q.IsBootstrapMode(p.mode) ==> Tame(transform, policy, CopiedPaths(p.mode, p.actions))
    ensures var r := Perform(Place(Q.Inputs(Q.FilesOf(selected, disk), runner, planText, hash)), p, transform, hash);
      (r.Ok? <==> (Q.IsBootstrapMode(p.mode) ==> !KeepsScript(p.actions))) &&
      (r.Err? ==> r.error == ExpectedRegularFile) &&
      (r.Ok? ==> r.value.outputs == M.WritePaths(p.actions) && OutputsPass(p.actions, r.value.files, hash)) &&
      (r.Ok? && M.KeepsProject(p.mode) ==>
        A.TotalBytes(Collect(r.value.files, Q.OutputPaths(p.actions), hash)) <= M.MAX_ARTIFACT_BYTES)
    ensures PlanPayload(policy, input, textHash) == Ok(p) && Q.IsBootstrapMode(p.mode) ==> !KeepsScript(p.actions)
  {
    hide Perform;
    hide Place;
    hide Encode;
    hide Runnable;
    hide Tame;
    hide Separate;
    hide Q.ValidRequest;
    hide M.SettledPlan;
    hide PlanPayload;
    hide Q.Materializable;
    SettledPlansRun(policy, input, textHash, p);
    if Q.IsBootstrapMode(p.mode) { ScriptCopied(policy, input, textHash, p); }
    RunnableRuns(policy, p, selected, manifest, disk, runner, planText, transform, hash);
    if PlanPayload(policy, input, textHash) == Ok(p) && Q.IsBootstrapMode(p.mode) {
      BootstrapsPreserveNothing(policy, input, textHash, p);
    }
    var r := Perform(Place(Q.Inputs(Q.FilesOf(selected, disk), runner, planText, hash)), p, transform, hash);
    if r.Ok? {
      M.SettledPathsDiffer(policy, input, textHash, p);
      RunVerifies(p, selected, manifest, disk, hash, r.value.files);
      if M.KeepsProject(p.mode) {
        M.SettledKeepingCopies(policy, input, textHash, p);
        CopyingFits(p, selected, manifest, disk, hash, r.value.files);
      }
    }
  }

  /** The collected files of a clean exit are a good result exactly when they are not too large. */
  predicate OutputsPass(actions: seq<PlannerAction>, files: Files, hash: A.Digest) {
    var outputs := Collect(files, Q.OutputPaths(actions), hash);
    M.GoodResult(actions, Some(CleanExit(outputs)), hash) <==> A.TotalBytes(outputs) <= M.MAX_ARTIFACT_BYTES
  }

  /** The same for a resolved plan in terms of what was answered: it runs exactly when, for a bootstrap, no
      answer keeps the target's own script, and otherwise fails on the missing file. */
  lemma ResolvedPlansRun(
    policy: PathPolicy, input: PlanInput, textHash: string -> string, source: Payload, p: Payload, planId: string,
    planHash: string, raws: seq<R.RawResolution>, login: string, selected: seq<PlannerAction>,
    manifest: map<string, Q.ReleaseEntry>, disk: map<string, Bytes>, runner: Bytes, planText: Bytes,
    transform: Transform, hash: A.Digest)
    requires PlanPayload(policy, input, textHash) == Ok(source)
    requires M.ResolvedBy(policy, source, p, planId, planHash, raws, login) && p.safeToApply
    requires M.DistinctFiles(input.files) && Separate(p.actions) && Q.HexDigest(hash)
    requires forall i :: 0 <= i < |p.actions| ==> Q.ValidRequest(p.actions[i])
    requires Q.MaterializationRequests(p) == Some(selected) && Q.Materializable(selected, manifest, disk, hash)
    requires Q.WithinLimits(selected)
    requires Q.IsBootstrapMode(p.mode) ==> Tame(transform, policy, CopiedPaths(p.mode, p.actions))
    ensures var r := Perform(Place(Q.Inputs(Q.FilesOf(selected, disk), runner, planText, hash)), p, transform, hash);
      (r.Ok? <==> (Q.IsBootstrapMode(p.mode) ==> !AnsweredKeep(raws, Q.BOOTSTRAP_SCRIPT))) &&
      (r.Err? ==> r.error == ExpectedRegularFile) &&
      (r.Ok? ==> r.value.outputs == M.WritePaths(p.actions) && OutputsPass(p.actions, r.value.files, hash))
  {
    assert M.ResolvedFrom(policy, source, p);
    assert M.SettledPlan(policy, input, textHash, p);
    assert !p.mode.BootstrapEmpty?;
    if Q.IsBootstrapMode(p.mode) {
      KeptByAnswer(policy, input, textHash, source, p, planId, planHash, raws, login);
    }
    hide M.ResolvedBy;
    hide Perform;
    PlannerRunnerVerifierAgree(policy, input, textHash, p, selected, manifest, disk, runner, planText, transform, hash);
  }

  lemma RunVerifies(p: Payload, selected: seq<PlannerAction>, manifest: map<string, Q.ReleaseEntry>,
                    disk: map<string, Bytes>, hash: A.Digest, files: Files)
    requires Q.MaterializationRequests(p) == Some(selected) && Q.Materializable(selected, manifest, disk, hash)
    requires R.DistinctPaths(p.actions) && Q.WithinLimits(selected) && Q.HexDigest(hash) && Written(files, p.actions, disk)
    requires forall i :: 0 <= i < |p.actions| ==> Q.ValidRequest(p.actions[i])
    ensures var outputs := Collect(files, Q.OutputPaths(p.actions), hash);
      M.OutputsGood(p.actions, outputs, hash) <==> A.TotalBytes(outputs) <= M.MAX_ARTIFACT_BYTES
  {
    forall i | 0 <= i < |p.actions| && p.actions[i].IsWrite()
      ensures hash(Q.ContentOf(p.actions[i].path, disk)) == p.actions[i].releaseSha256
    {
      SelectedOnDisk(p, selected, manifest, disk, hash, i);
    }
    Q.OutputsAccepted(p, selected, manifest, disk, hash);
    OutputsVerify(p, files, disk, hash);
  }

  lemma SelectedOnDisk(p: Payload, selected: seq<PlannerAction>, manifest: map<string, Q.ReleaseEntry>,
                       disk: map<string, Bytes>, hash: A.Digest, i: nat)
    requires Q.MaterializationRequests(p) == Some(selected) && Q.Materializable(selected, manifest, disk, hash)
    requires i < |p.actions| && p.actions[i].IsWrite()
    ensures Q.OnDisk(p.actions[i], disk, hash)
  {
    Q.WritesAre(p.actions);
    assert p.actions[i] in selected;
    var k :| 0 <= k < |selected| && selected[k] == p.actions[i];
  }

  lemma CopyingFits(p: Payload, selected: seq<PlannerAction>,
                    manifest: map<string, Q.ReleaseEntry>, disk: map<string, Bytes>, hash: A.Digest, files: Files)
    requires M.CopiesOnly(p.actions) && !Q.IsBootstrapMode(p.mode)
    requires Q.MaterializationRequests(p) == Some(selected) && Q.Materializable(selected, manifest, disk, hash)
    requires Written(files, p.actions, disk)
    ensures A.TotalBytes(Collect(files, Q.OutputPaths(p.actions), hash)) <= Q.MAX_MATERIALIZED_BYTES
  {
    hide CollectedFile;
    hide WrittenAt;
    Q.WritesAre(p.actions);
    forall k | 0 <= k < |selected| ensures Sized(files, selected[k], disk) {
      var i :| 0 <= i < |p.actions| && p.actions[i] == selected[k];
      assert WrittenAt(files, p.actions[i], disk);
      assert Q.OnDisk(selected[k], disk, hash);
    }
    CopiedBytes(files, selected, disk, hash);
  }
}
