/** The path policy the planner consults: three lists of paths, whatever they are, and the prefixes that
    go with them. */
module Policy {

  datatype PathPolicy = PathPolicy(preserve: set<string>, transform: set<string>, shared: set<string>)
  {
    predicate IsBootstrapTransform(path: string) {
      path in transform || ".github/workflows/" <= path
    }

    predicate IsSharedMerge(path: string) {
      path in shared || ".github/" <= path
    }
  }

  predicate IsMaterialAiPath(path: string) {
    ".ai/" <= path || "config/ai/" <= path
  }

  /** The prefixes: everything under `.github/workflows/` is transformed, everything under `.github/` shared,
      and AI material is exactly what lies under its two directories. */
  lemma PolicyPaths(policy: PathPolicy, path: string)
    ensures policy.IsBootstrapTransform(path) <==> path in policy.transform || exists rest :: path == ".github/workflows/" + rest
    ensures policy.IsSharedMerge(path) <==> path in policy.shared || exists rest :: path == ".github/" + rest
    ensures IsMaterialAiPath(path) <==> (exists rest :: path == ".ai/" + rest) || exists rest :: path == "config/ai/" + rest
    ensures (exists rest :: path == ".github/workflows/" + rest) ==> policy.IsSharedMerge(path)
  {
    PrefixMeans(".github/workflows/", path);
    PrefixMeans(".github/", path);
    PrefixMeans(".ai/", path);
    PrefixMeans("config/ai/", path);
    assert ".github/workflows/" <= path ==> ".github/" <= path by { assert ".github/" <= ".github/workflows/"; }
  }

  lemma PrefixMeans(prefix: string, path: string)
    ensures prefix <= path <==> exists rest :: path == prefix + rest
  {
    if prefix <= path { assert path == prefix + path[|prefix|..]; }
  }
}
