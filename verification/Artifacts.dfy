/** Files going into and coming out of the sandbox, and the checks on them. */
module Artifacts {
  import opened Common
  import opened Base64

  datatype Artifact = Artifact(path: string, mode: string, contentBase64: string, sha256: string, bytes: int)

  datatype ArtifactError =
    | InvalidArtifactFiles | InvalidArtifactPath | UnexpectedOutputPath | InvalidArtifactMode | InvalidArtifactDigest
    | InvalidArtifactSize | InvalidArtifactBase64 | IntegrityMismatch | BytesLimitExceeded

  const MAX_ARTIFACT_FILES := 5000
  const MAX_ARTIFACT_PATH_BYTES := 1024

  /** The SHA-256 of file content, as lower-case hexadecimal text. */
  type Digest = Bytes -> string

  ghost predicate CollisionFree(hash: Digest) {
    forall a: Bytes, b: Bytes :: hash(a) == hash(b) ==> a == b
  }

  function Utf8Size(c: char): nat {
    var code := c as int;
    if code < 0x80 then 1 else if code < 0x800 then 2 else if code < 0x10000 then 3 else 4
  }

  function Utf8Length(s: string): nat {
    if s == "" then 0 else Utf8Size(s[0]) + Utf8Length(s[1..])
  }

  predicate IsRelative(path: string) {
    path != "" && path[0] != '/' && '\\' !in path && '\r' !in path && '\n' !in path && '\0' !in path && SafeParts(path)
  }

  predicate SafeArtifactPath(path: string) {
    IsRelative(path) && Utf8Length(path) <= MAX_ARTIFACT_PATH_BYTES
  }

  lemma RelativeConcat(dir: string, rest: string)
    requires IsRelative(dir) && IsRelative(rest)
    ensures IsRelative(dir + "/" + rest)
  {
    SplitConcat(dir, rest, '/');
    assert dir + ['/'] + rest == dir + "/" + rest;
    assert Split(dir + "/" + rest) == Split(dir) + Split(rest);
    hide SplitOn;
    hide Split;
  }

  /** A plain file or directory name in ASCII. */
  predicate IsName(s: string) {
    s != "" && s != "." && s != ".." && s != ".git" &&
    forall i :: 0 <= i < |s| ==> ' ' <= s[i] <= '~' && s[i] != '/' && s[i] != '\\'
  }

  lemma NameIsRelative(s: string)
    requires IsName(s)
    ensures IsRelative(s) && Split(s) == [s] && Utf8Length(s) == |s|
  {
    NameSplits(s);
    hide SafeParts;
    hide Split;
    AsciiLength(s);
  }

  lemma NameSplits(s: string)
    requires IsName(s)
    ensures Split(s) == [s] && SafeParts(s)
  {
    SplitWhole(s, '/');
    hide SplitOn;
  }

  lemma {:induction false} JoinedLength(dir: string, rest: string)
    ensures Utf8Length(dir + "/" + rest) == Utf8Length(dir) + 1 + Utf8Length(rest)
  {
    Utf8Concat(dir + "/", rest);
    Utf8Concat(dir, "/");
    AsciiLength("/");
  }

  /** What one artifact must satisfy; its content is then the decoded base64. */
  predicate Genuine(a: Artifact, hash: Digest) {
    SafeArtifactPath(a.path) && (a.mode == "100644" || a.mode == "100755") && IsHex(a.sha256, 64) && a.bytes >= 0 &&
    DecodeCanonical(a.contentBase64).Ok? && |DecodeCanonical(a.contentBase64).value| == a.bytes &&
    hash(DecodeCanonical(a.contentBase64).value) == a.sha256
  }

  function TotalBytes(files: seq<Artifact>): int {
    if files == [] then 0 else TotalBytes(files[..|files| - 1]) + files[|files| - 1].bytes
  }

  predicate DistinctPaths(files: seq<Artifact>) {
    forall i, j :: 0 <= i < j < |files| ==> files[i].path != files[j].path
  }

  function Paths(files: seq<Artifact>): set<string> {
    set i | 0 <= i < |files| :: files[i].path
  }

  predicate Permitted(path: string, allowed: Option<set<string>>) {
    allowed.Some? ==> path in allowed.value
  }

  predicate AllGenuine(files: seq<Artifact>, allowed: Option<set<string>>, hash: Digest) {
    files == [] ||
    (AllGenuine(files[..|files| - 1], allowed, hash) &&
     Genuine(files[|files| - 1], hash) && Permitted(files[|files| - 1].path, allowed))
  }

  lemma {:induction false} EachGenuine(files: seq<Artifact>, allowed: Option<set<string>>, hash: Digest, i: nat)
    requires AllGenuine(files, allowed, hash) && i < |files|
    ensures Genuine(files[i], hash) && Permitted(files[i].path, allowed)
  {
    if i < |files| - 1 {
      EachGenuine(files[..|files| - 1], allowed, hash, i);
    }
  }

  lemma {:induction false} AllGenuineFrom(files: seq<Artifact>, allowed: Option<set<string>>, hash: Digest)
    requires forall i :: 0 <= i < |files| ==> Genuine(files[i], hash) && Permitted(files[i].path, allowed)
    ensures AllGenuine(files, allowed, hash)
  {
    if files != [] {
      AllGenuineFrom(files[..|files| - 1], allowed, hash);
    }
  }

  lemma {:induction false} Utf8Concat(a: string, b: string)
    ensures Utf8Length(a + b) == Utf8Length(a) + Utf8Length(b)
  {
    if a == "" {
      assert a + b == b;
    } else {
      assert (a + b)[1..] == a[1..] + b;
      Utf8Concat(a[1..], b);
    }
  }

  lemma {:induction false} AsciiLength(s: string)
    requires forall i :: 0 <= i < |s| ==> s[i] < '\U{80}'
    ensures Utf8Length(s) == |s|
  {
    if s != "" {
      AsciiLength(s[1..]);
    }
  }

  predicate Accepted(files: seq<Artifact>, maxBytes: int, allowed: Option<set<string>>, hash: Digest) {
    |files| <= MAX_ARTIFACT_FILES && TotalBytes(files) <= maxBytes && DistinctPaths(files) &&
    AllGenuine(files, allowed, hash)
  }

  /** What an accepted file is: at a safe path that was asked for, in one of the two file modes, and with content
      of the declared size and digest, its size part of a total within the limit. */
  lemma AcceptedFile(files: seq<Artifact>, maxBytes: int, allowed: Option<set<string>>, hash: Digest, i: nat) returns (content: Bytes)
    requires Accepted(files, maxBytes, allowed, hash) && i < |files|
    ensures files[i].mode == "100644" || files[i].mode == "100755"
    ensures SafeArtifactPath(files[i].path) && (allowed.Some? ==> files[i].path in allowed.value)
    ensures DecodeCanonical(files[i].contentBase64) == Ok(content)
    ensures |content| == files[i].bytes <= maxBytes && hash(content) == files[i].sha256
  {
    EachGenuine(files, allowed, hash, i);
    content := DecodeCanonical(files[i].contentBase64).value;
    OneOfTotal(files, allowed, hash, i);
  }

  lemma {:induction false} OneOfTotal(files: seq<Artifact>, allowed: Option<set<string>>, hash: Digest, i: nat)
    requires AllGenuine(files, allowed, hash) && i < |files|
    ensures 0 <= files[i].bytes <= TotalBytes(files)
  {
    hide SafeArtifactPath;
    hide DecodeCanonical;
    var n := |files| - 1;
    if i < n {
      OneOfTotal(files[..n], allowed, hash, i);
    } else if n > 0 {
      OneOfTotal(files[..n], allowed, hash, n - 1);
    }
  }

  function CheckArtifact(a: Artifact, seen: set<string>, allowed: Option<set<string>>, hash: Digest): Option<ArtifactError> {
    if !SafeArtifactPath(a.path) || a.path in seen then Some(InvalidArtifactPath)
    else if !Permitted(a.path, allowed) then Some(UnexpectedOutputPath)
    else if a.mode != "100644" && a.mode != "100755" then Some(InvalidArtifactMode)
    else if !IsHex(a.sha256, 64) then Some(InvalidArtifactDigest)
    else if a.bytes < 0 then Some(InvalidArtifactSize)
    else
      var decoded := DecodeCanonical(a.contentBase64);
      if decoded.Err? then Some(ArtifactError.InvalidArtifactBase64)
      else if |decoded.value| != a.bytes || hash(decoded.value) != a.sha256 then Some(IntegrityMismatch)
      else None
  }

  lemma CheckIsComplete(a: Artifact, seen: set<string>, allowed: Option<set<string>>, hash: Digest)
    ensures CheckArtifact(a, seen, allowed, hash).None?
      <==> Genuine(a, hash) && Permitted(a.path, allowed) && a.path !in seen
    ensures CheckArtifact(a, seen, allowed, hash) != Some(InvalidArtifactFiles)
    ensures CheckArtifact(a, seen, allowed, hash) != Some(BytesLimitExceeded)
  {
  }

  /** The running total only grows, so stopping at the first overflow rejects exactly the lists whose sum overflows. */
  lemma {:induction false} PrefixAccepted(files: seq<Artifact>, n: nat, maxBytes: int, allowed: Option<set<string>>, hash: Digest)
    requires n <= |files| && Accepted(files, maxBytes, allowed, hash)
    ensures Accepted(files[..n], maxBytes, allowed, hash)
  {
    if n < |files| {
      var front := files[..|files| - 1];
      PrefixAccepted(front, n, maxBytes, allowed, hash);
      assert front[..n] == files[..n];
    } else {
      assert files[..n] == files;
    }
  }

  lemma PathsStep(front: seq<Artifact>, file: Artifact)
    ensures Paths(front + [file]) == Paths(front) + {file.path}
  {
    var next := front + [file];
    assert next[|front|] == file && forall k :: 0 <= k < |front| ==> next[k] == front[k];
    forall path | path in Paths(front) ensures path in Paths(next) {
      var k :| 0 <= k < |front| && front[k].path == path;
      assert next[k].path == path;
    }
  }

  lemma DistinctStep(front: seq<Artifact>, file: Artifact)
    requires DistinctPaths(front)
    ensures DistinctPaths(front + [file]) <==> file.path !in Paths(front)
  {
    var next := front + [file];
    assert next[|front|] == file && forall k :: 0 <= k < |front| ==> next[k] == front[k];
    if file.path in Paths(front) {
      var k :| 0 <= k < |front| && front[k].path == file.path;
      assert next[k].path == next[|front|].path;
    }
  }

  lemma GenuineStep(front: seq<Artifact>, file: Artifact, seen: set<string>, allowed: Option<set<string>>, hash: Digest)
    requires AllGenuine(front, allowed, hash)
    ensures AllGenuine(front + [file], allowed, hash) && file.path !in seen
      <==> CheckArtifact(file, seen, allowed, hash).None?
  {
    assert (front + [file])[..|front|] == front;
    CheckIsComplete(file, seen, allowed, hash);
  }

  lemma AcceptedStep(front: seq<Artifact>, file: Artifact, maxBytes: int, allowed: Option<set<string>>, hash: Digest)
    requires Accepted(front, maxBytes, allowed, hash) && |front| < MAX_ARTIFACT_FILES
    ensures Accepted(front + [file], maxBytes, allowed, hash)
      <==> CheckArtifact(file, Paths(front), allowed, hash).None? && TotalBytes(front) + file.bytes <= maxBytes
    ensures Paths(front + [file]) == Paths(front) + {file.path}
    ensures TotalBytes(front + [file]) == TotalBytes(front) + file.bytes
  {
    hide Genuine;
    hide CheckArtifact;
    assert (front + [file])[..|front|] == front;
    DistinctStep(front, file);
    PathsStep(front, file);
    GenuineStep(front, file, Paths(front), allowed, hash);
  }

  /** One turn of the loop below. */
  lemma NextAccepted(files: seq<Artifact>, i: nat, maxBytes: int, allowed: Option<set<string>>, hash: Digest)
    requires i < |files| <= MAX_ARTIFACT_FILES && Accepted(files[..i], maxBytes, allowed, hash)
    ensures Accepted(files[..i + 1], maxBytes, allowed, hash)
      <==> CheckArtifact(files[i], Paths(files[..i]), allowed, hash).None? && TotalBytes(files[..i + 1]) <= maxBytes
    ensures Accepted(files, maxBytes, allowed, hash) ==> Accepted(files[..i + 1], maxBytes, allowed, hash)
    ensures Paths(files[..i + 1]) == Paths(files[..i]) + {files[i].path}
    ensures TotalBytes(files[..i + 1]) == TotalBytes(files[..i]) + files[i].bytes
  {
    hide Genuine;
    hide CheckArtifact;
    hide Paths;
    assert files[..i + 1] == files[..i] + [files[i]];
    AcceptedStep(files[..i], files[i], maxBytes, allowed, hash);
    if Accepted(files, maxBytes, allowed, hash) {
      PrefixAccepted(files, i + 1, maxBytes, allowed, hash);
    }
  }

  /** The first file that is not accepted, and why. */
  predicate FailsAt(files: seq<Artifact>, maxBytes: int, allowed: Option<set<string>>, hash: Digest, i: nat, e: ArtifactError)
    requires i < |files|
  {
    Accepted(files[..i], maxBytes, allowed, hash) &&
    match CheckArtifact(files[i], Paths(files[..i]), allowed, hash)
    case Some(problem) => e == problem
    case None => e.BytesLimitExceeded? && TotalBytes(files[..i + 1]) > maxBytes
  }

  method NormalizeSandboxFileArtifacts(files: seq<Artifact>, maxBytes: int, allowed: Option<set<string>>, hash: Digest)
    returns (r: Result<seq<Artifact>, ArtifactError>)
    requires maxBytes >= 0
    ensures r.Ok? <==> Accepted(files, maxBytes, allowed, hash)
    ensures r.Ok? ==> r.value == files
    ensures r == Err(InvalidArtifactFiles) <==> |files| > 5000
    ensures r.Err? && !r.error.InvalidArtifactFiles? ==>
      exists i :: 0 <= i < |files| && FailsAt(files, maxBytes, allowed, hash, i, r.error)
  {
    hide Genuine;
    hide CheckArtifact;
    if |files| > MAX_ARTIFACT_FILES { return Err(InvalidArtifactFiles); }
    var seen: set<string> := {};
    var total := 0;
    for i := 0 to |files|
      invariant seen == Paths(files[..i])
      invariant total == TotalBytes(files[..i])
      invariant Accepted(files[..i], maxBytes, allowed, hash)
    {
      NextAccepted(files, i, maxBytes, allowed, hash);
      var problem := CheckArtifact(files[i], seen, allowed, hash);
      if problem.Some? {
        CheckIsComplete(files[i], seen, allowed, hash);
        assert FailsAt(files, maxBytes, allowed, hash, i, problem.value);
        return Err(problem.value);
      }
      seen := seen + {files[i].path};
      total := total + files[i].bytes;
      if total > maxBytes {
        assert FailsAt(files, maxBytes, allowed, hash, i, BytesLimitExceeded);
        return Err(BytesLimitExceeded);
      }
    }
    assert files[..|files|] == files;
    return Ok(files);
  }

  /** An accepted output list of the requested length is exactly the requested set. */
  lemma OutputSetIsExact(files: seq<Artifact>, requested: seq<string>, maxBytes: int, hash: Digest)
    requires Distinct(requested) && |files| == |requested|
    requires Accepted(files, maxBytes, Some(Elements(requested)), hash)
    ensures Paths(files) == Elements(requested)
  {
    DistinctSize(requested);
    var names := seq(|files|, i requires 0 <= i < |files| => files[i].path);
    forall i | 0 <= i < |names| ensures names[i] in Elements(requested) {
      EachGenuine(files, Some(Elements(requested)), hash, i);
    }
    assert Elements(names) == Paths(files) by {
      assert forall i :: 0 <= i < |files| ==> names[i] == files[i].path;
    }
    DistinctExhausts(names, Elements(requested));
  }
}
