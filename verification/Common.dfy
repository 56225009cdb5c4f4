/** Small types and text predicates shared by the other modules. */
module Common {

  datatype Option<+T> = None | Some(value: T)

  datatype Result<+T, +E> = Ok(value: T) | Err(error: E)

  predicate IsHexDigit(c: char) {
    '0' <= c <= '9' || 'a' <= c <= 'f'
  }

  lemma HexDigitsAre(c: char)
    ensures IsHexDigit(c) <==> c in "0123456789abcdef"
  {
  }

  /** `s` is `n` lower-case hexadecimal digits: a Git object id for 40, a SHA-256 for 64. */
  predicate IsHex(s: string, n: nat) {
    |s| == n && forall i :: 0 <= i < |s| ==> IsHexDigit(s[i])
  }

  /** The parts of `s` between separators, as `String.prototype.split` gives them. */
  function SplitOn(s: string, sep: char): (parts: seq<string>)
    ensures |parts| > 0
  {
    if s == "" then [""]
    else
      var rest := SplitOn(s[1..], sep);
      if s[0] == sep then [""] + rest else [[s[0]] + rest[0]] + rest[1..]
  }

  /** The parts of a path. */
  function Split(s: string): seq<string> {
    SplitOn(s, '/')
  }

  lemma {:induction false} SplitConcat(s: string, t: string, sep: char)
    ensures SplitOn(s + [sep] + t, sep) == SplitOn(s, sep) + SplitOn(t, sep)
  {
    if s == "" {
      assert ("" + [sep] + t)[1..] == t;
    } else {
      assert (s + [sep] + t)[1..] == s[1..] + [sep] + t;
      SplitConcat(s[1..], t, sep);
    }
  }

  lemma {:induction false} SplitWhole(s: string, sep: char)
    requires sep !in s
    ensures SplitOn(s, sep) == [s]
  {
    if s != "" {
      SplitWhole(s[1..], sep);
      assert [s[0]] + s[1..] == s;
    }
  }

  /** The parts joined by slashes again. */
  function Slashed(parts: seq<string>): string {
    if parts == [] then "" else if |parts| == 1 then parts[0] else parts[0] + "/" + Slashed(parts[1..])
  }

  lemma {:induction false} SlashedSplit(s: string)
    ensures Slashed(Split(s)) == s
  {
    if s != "" {
      var rest := Split(s[1..]);
      SlashedSplit(s[1..]);
      if s[0] == '/' {
        assert ([""] + rest)[1..] == rest;
        assert Slashed([""] + rest) == "" + "/" + s[1..];
      } else {
        var first := [s[0]] + rest[0];
        assert ([first] + rest[1..])[1..] == rest[1..];
        if |rest| > 1 {
          assert first + "/" + Slashed(rest[1..]) == [s[0]] + (rest[0] + "/" + Slashed(rest[1..]));
        }
      }
    }
  }

  /** No empty, `.`, `..` or `.git` part. */
  predicate SafeParts(path: string) {
    forall part :: part in Split(path) ==> part != "" && part != "." && part != ".." && part != ".git"
  }

  predicate Distinct<T(==)>(s: seq<T>) {
    forall i, j :: 0 <= i < j < |s| ==> s[i] != s[j]
  }

  function Elements<T>(s: seq<T>): set<T> {
    set i | 0 <= i < |s| :: s[i]
  }

  lemma ElementsStep<T>(s: seq<T>, n: nat)
    requires |s| == n + 1
    ensures Elements(s) == Elements(s[..n]) + {s[n]}
  {
    forall x | x in Elements(s[..n]) ensures x in Elements(s) {
      var i :| 0 <= i < n && s[..n][i] == x;
      assert s[i] == x;
    }
    forall x | x in Elements(s) ensures x in Elements(s[..n]) + {s[n]} {
      var i :| 0 <= i < |s| && s[i] == x;
      assert i < n ==> s[..n][i] == x;
    }
  }

  /** A sequence without repetition has as many elements as positions. */
  lemma {:induction false} DistinctSize<T>(s: seq<T>)
    requires Distinct(s)
    ensures |Elements(s)| == |s|
  {
    if s == [] {
      assert Elements(s) == {};
    } else {
      var n := |s| - 1;
      DistinctSize(s[..n]);
      ElementsStep(s, n);
    }
  }

  /** Pigeonhole: distinct elements drawn from a set of the same size exhaust it. */
  lemma DistinctExhausts<T>(s: seq<T>, whole: set<T>)
    requires Distinct(s) && Elements(s) <= whole && |s| == |whole|
    ensures Elements(s) == whole
  {
    DistinctSize(s);
    SubsetOfSameSize(Elements(s), whole);
  }

  lemma {:induction false} SubsetOfSameSize<T>(a: set<T>, b: set<T>)
    requires a <= b && |a| == |b|
    ensures a == b
  {
    if a != {} {
      var x :| x in a;
      SubsetOfSameSize(a - {x}, b - {x});
    } else {
      assert b == {};
    }
  }

  lemma {:induction false} SubsetSize<T>(a: set<T>, b: set<T>)
    requires a <= b
    ensures |a| <= |b|
  {
    if a != {} {
      var x :| x in a;
      SubsetSize(a - {x}, b - {x});
    }
  }
}
