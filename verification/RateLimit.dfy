/** The fixed-window rate limiter: a counter per window, and what it promises over any stretch of time. */
module RateLimit {
  import opened Common

  /** One call: the instant it was counted at, and the instant its retry hint was computed. */
  datatype Request = Request(scope: string, subject: string, limit: int, window: int, at: real, answered: real)

  datatype Decision = Decision(allowed: bool, limit: int, remaining: int, retryAfterSeconds: int)

  datatype RateError = InvalidScope | InvalidSubject | InvalidLimit | InvalidWindow

  /** A row of the counter table. */
  datatype Key = Key(scope: string, subject: string, start: int)

  predicate IsScopeChar(c: char) {
    'A' <= c <= 'Z' || 'a' <= c <= 'z' || '0' <= c <= '9' || c == '.' || c == '_' || c == ':' || c == '-'
  }

  function Problem(q: Request): Option<RateError> {
    if !(1 <= |q.scope| <= 80 && forall i :: 0 <= i < |q.scope| ==> IsScopeChar(q.scope[i])) then Some(InvalidScope)
    else if !(1 <= |q.subject| <= 200) then Some(InvalidSubject)
    else if !(1 <= q.limit <= 100_000) then Some(InvalidLimit)
    else if !(1 <= q.window <= 86_400) then Some(InvalidWindow)
    else None
  }

  function WindowIndex(at: real, window: int): int
    requires window > 0
  {
    (at / window as real).Floor
  }

  function WindowStart(at: real, window: int): int
    requires window > 0
  {
    WindowIndex(at, window) * window
  }

  function Ceil(x: real): int {
    -((-x).Floor)
  }

  function RetryAfter(start: int, window: int, answered: real): int {
    var seconds := Ceil((start + window) as real - answered);
    if seconds > 1 then seconds else 1
  }

  function KeyOf(q: Request): Key
    requires q.window > 0
  {
    Key(q.scope, q.subject, WindowStart(q.at, q.window))
  }

  function Stored(counts: map<Key, nat>, key: Key): nat {
    if key in counts then counts[key] else 0
  }

  function DecisionFor(q: Request, count: nat): Decision
    requires q.window > 0
  {
    Decision(count <= q.limit, q.limit, if q.limit > count then q.limit - count else 0,
             RetryAfter(WindowStart(q.at, q.window), q.window, q.answered))
  }

  /** What `remaining` promises: of the calls that follow in the same window under the same limit, exactly that
      many more are allowed. */
  lemma RemainingIsLeft(q: Request, count: nat, later: nat)
    requires q.window > 0 && later > count
    ensures DecisionFor(q, later).allowed <==> later - count <= DecisionFor(q, count).remaining
    ensures DecisionFor(q, count).limit == q.limit
  {
  }

  class RateLimiter {
    var counts: map<Key, nat>

    constructor ()
      ensures counts == map[]
    {
      counts := map[];
    }

    /** Counts the call in its window and decides from the count. */
    method ConsumeRateLimit(q: Request) returns (r: Result<Decision, RateError>)
      modifies this
      ensures r.Ok? <==>
        1 <= |q.scope| <= 80 && (forall i :: 0 <= i < |q.scope| ==> IsScopeChar(q.scope[i])) &&
        1 <= |q.subject| <= 200 && 1 <= q.limit <= 100_000 && 1 <= q.window <= 86_400
      ensures r.Err? ==> Problem(q) == Some(r.error) && counts == old(counts)
      ensures r.Ok? ==> counts == old(counts)[KeyOf(q) := Stored(old(counts), KeyOf(q)) + 1]
      ensures r.Ok? ==> r.value == DecisionFor(q, Stored(old(counts), KeyOf(q)) + 1)
    {
      var problem := Problem(q);
      if problem.Some? { return Err(problem.value); }
      var start := WindowStart(q.at, q.window);
      var key := Key(q.scope, q.subject, start);
      var count := if key in counts then counts[key] + 1 else 1;
      counts := counts[key := count];
      return Ok(Decision(count <= q.limit, q.limit, if q.limit - count > 0 then q.limit - count else 0,
                         RetryAfter(start, q.window, q.answered)));
    }

    /** A whole trace, call after call. */
    method Serve(trace: seq<Request>) returns (allowed: seq<bool>)
      requires counts == map[] && forall i :: 0 <= i < |trace| ==> Problem(trace[i]).None?
      modifies this
      ensures |allowed| == |trace|
      ensures forall i :: 0 <= i < |trace| ==> allowed[i] == Allowed(trace, i)
      ensures forall key :: Stored(counts, key) == CountOf(trace, key)
    {
      allowed := [];
      for i := 0 to |trace|
        invariant |allowed| == i
        invariant forall k :: 0 <= k < i ==> allowed[k] == Allowed(trace, k)
        invariant forall key :: Stored(counts, key) == CountOf(trace[..i], key)
      {
        assert trace[..i + 1][..i] == trace[..i];
        var r := ConsumeRateLimit(trace[i]);
        allowed := allowed + [r.value.allowed];
      }
      assert trace[..|trace|] == trace;
    }
  }

  // ---- Traces ----

  /** How many calls of the trace fell into the key's window. */
  function CountOf(trace: seq<Request>, key: Key): nat {
    if trace == [] then 0
    else
      var last := trace[|trace| - 1];
      CountOf(trace[..|trace| - 1], key) + (if last.window > 0 && KeyOf(last) == key then 1 else 0)
  }

  predicate Allowed(trace: seq<Request>, i: nat)
    requires i < |trace|
  {
    trace[i].window > 0 && CountOf(trace[..i + 1], KeyOf(trace[i])) <= trace[i].limit
  }

  /** All calls for this scope and subject use the same limit and window. */
  predicate Uniform(trace: seq<Request>, scope: string, subject: string, limit: nat, window: nat) {
    window > 0 && forall i :: 0 <= i < |trace| ==> Fits(trace[i], scope, subject, limit, window)
  }

  predicate Fits(q: Request, scope: string, subject: string, limit: nat, window: nat) {
    q.window > 0 && (q.scope == scope && q.subject == subject ==> q.limit == limit && q.window == window)
  }

  /** In a trace: after a call that was told how many remain, a later call in its window is allowed exactly when
      no more than that many have come since. */
  lemma RemainingInTrace(trace: seq<Request>, i: nat, j: nat)
    requires i < j < |trace| && Problem(trace[i]).None? && Problem(trace[j]).None?
    requires KeyOf(trace[j]) == KeyOf(trace[i]) && trace[j].limit == trace[i].limit
    ensures var key := KeyOf(trace[i]);
      var told, since := DecisionFor(trace[i], CountOf(trace[..i + 1], key)).remaining, CountOf(trace[..j + 1], key) - CountOf(trace[..i + 1], key);
      since > 0 && (Allowed(trace, j) <==> since <= told)
  {
    var key := KeyOf(trace[i]);
    CountGrows(trace[..j], i + 1, key);
    assert trace[..j][..i + 1] == trace[..i + 1];
    assert trace[..j + 1][..j] == trace[..j];
  }

  lemma {:induction false} CountGrows(trace: seq<Request>, n: nat, key: Key)
    requires n <= |trace|
    ensures CountOf(trace[..n], key) <= CountOf(trace, key)
  {
    if n < |trace| {
      CountGrows(trace[..|trace| - 1], n, key);
      assert trace[..|trace| - 1][..n] == trace[..n];
    } else {
      assert trace[..n] == trace;
    }
  }

  predicate AllowedAt(trace: seq<Request>, key: Key, i: nat) {
    i < |trace| && trace[i].window > 0 && KeyOf(trace[i]) == key && Allowed(trace, i)
  }

  function AllowedInWindow(trace: seq<Request>, key: Key): set<nat> {
    set i: nat | i < |trace| && AllowedAt(trace, key, i)
  }

  lemma WindowGrows(trace: seq<Request>, key: Key)
    requires trace != []
    ensures var n := |trace| - 1;
      AllowedInWindow(trace, key) == AllowedInWindow(trace[..n], key) + (if AllowedAt(trace, key, n) then {n} else {})
  {
    var n := |trace| - 1;
    forall i: nat | i < n ensures AllowedAt(trace, key, i) <==> AllowedAt(trace[..n], key, i) {
      assert trace[..i + 1] == trace[..n][..i + 1];
    }
  }

  lemma LastAllowed(trace: seq<Request>, key: Key, limit: nat, window: nat)
    requires trace != [] && Uniform(trace, key.scope, key.subject, limit, window)
    ensures var n := |trace| - 1;
      CountOf(trace[..n], key) <= CountOf(trace, key) &&
      (AllowedAt(trace, key, n) ==> CountOf(trace, key) == CountOf(trace[..n], key) + 1 <= limit)
  {
    var n := |trace| - 1;
    assert trace[..n + 1] == trace;
    assert Fits(trace[n], key.scope, key.subject, limit, window);
  }

  /** Each window allows at most `limit` calls, whatever order and instants they come in. */
  lemma {:induction false} PerWindow(trace: seq<Request>, key: Key, limit: nat, window: nat)
    requires Uniform(trace, key.scope, key.subject, limit, window)
    ensures |AllowedInWindow(trace, key)| <= limit && |AllowedInWindow(trace, key)| <= CountOf(trace, key)
  {
    if trace == [] {
      assert AllowedInWindow(trace, key) == {};
    } else {
      PerWindow(trace[..|trace| - 1], key, limit, window);
      WindowGrows(trace, key);
      LastAllowed(trace, key, limit, window);
    }
  }

  /** The calls allowed at instants from `from` on and before `from + length`. */
  function AllowedBetween(trace: seq<Request>, scope: string, subject: string, from: real, length: real): set<nat> {
    set i: nat | i < |trace| && AllowedDuring(trace, scope, subject, from, length, i)
  }

  predicate AllowedDuring(trace: seq<Request>, scope: string, subject: string, from: real, length: real, i: nat) {
    i < |trace| && trace[i].window > 0 && trace[i].scope == scope && trace[i].subject == subject &&
    from <= trace[i].at < from + length && Allowed(trace, i)
  }

  lemma Scale(x: real, y: real, w: real)
    requires x <= y && w > 0.0
    ensures x * w <= y * w
  {
  }

  lemma StrictScale(x: real, y: real, w: real)
    requires x < y && w > 0.0
    ensures x * w < y * w
  {
  }

  /** An instant lies in its window. */
  lemma WindowHolds(at: real, window: int)
    requires window > 0
    ensures WindowStart(at, window) as real <= at < (WindowStart(at, window) + window) as real
  {
    var w := window as real;
    var q := at / w;
    var k := q.Floor;
    assert q * w == at;
    Scale(k as real, q, w);
    StrictScale(q, (k + 1) as real, w);
    assert (k * window) as real == k as real * w;
    assert (k * window + window) as real == (k + 1) as real * w;
  }

  lemma IndexOrder(i: int, j: int, window: int)
    requires window > 0 && i * window < j * window
    ensures i < j
  {
  }

  /** A stretch of one window's length meets at most two windows. */
  lemma TwoWindows(from: real, at: real, window: int)
    requires window > 0 && from <= at < from + window as real
    ensures WindowIndex(at, window) == WindowIndex(from, window) || WindowIndex(at, window) == WindowIndex(from, window) + 1
  {
    WindowHolds(from, window);
    WindowHolds(at, window);
    var k, j := WindowIndex(from, window), WindowIndex(at, window);
    assert j * window < k * window + 2 * window;
    assert j * window < (k + 2) * window;
    IndexOrder(j, k + 2, window);
    assert k * window < j * window + window;
    assert k * window < (j + 1) * window;
    IndexOrder(k, j + 1, window);
  }

  lemma SmallUnion(whole: set<nat>, a: set<nat>, b: set<nat>)
    requires whole <= a + b
    ensures |whole| <= |a| + |b|
  {
    SubsetSize(whole, a + b);
    assert |a + b| <= |a| + |b|;
  }

  /** The bound: in any half-open stretch of one window's length at most twice the limit is allowed. */
  lemma FixedWindowBound(trace: seq<Request>, scope: string, subject: string, limit: nat, window: nat, from: real)
    requires Uniform(trace, scope, subject, limit, window)
    ensures |AllowedBetween(trace, scope, subject, from, window as real)| <= 2 * limit
  {
    var k := WindowIndex(from, window);
    var first, second := Key(scope, subject, k * window), Key(scope, subject, (k + 1) * window);
    PerWindow(trace, first, limit, window);
    PerWindow(trace, second, limit, window);
    var whole := AllowedBetween(trace, scope, subject, from, window as real);
    forall i | i in whole ensures i in AllowedInWindow(trace, first) + AllowedInWindow(trace, second) {
      TwoWindows(from, trace[i].at, window);
      assert AllowedAt(trace, first, i) || AllowedAt(trace, second, i);
    }
    SmallUnion(whole, AllowedInWindow(trace, first), AllowedInWindow(trace, second));
  }

  /** Waiting as told leaves the window that refused: any later call is counted in another one. And no
      hint above one second asks for longer than that takes. */
  lemma RetryLeavesWindow(q: Request, later: real)
    requires q.window > 0 && q.at <= q.answered
    requires later >= q.answered + RetryAfter(WindowStart(q.at, q.window), q.window, q.answered) as real
    ensures WindowStart(later, q.window) > WindowStart(q.at, q.window)
    ensures var wait := RetryAfter(WindowStart(q.at, q.window), q.window, q.answered);
      wait > 1 ==> q.answered + (wait - 1) as real < (WindowStart(q.at, q.window) + q.window) as real
  {
    var start := WindowStart(q.at, q.window);
    WindowHolds(q.at, q.window);
    WindowHolds(later, q.window);
    var left := (start + q.window) as real - q.answered;
    assert Ceil(left) as real >= left && left > (Ceil(left) - 1) as real;
    assert later >= (start + q.window) as real;
  }

  // ---- The bound is attained ----

  function Repeat(q: Request, n: nat): seq<Request> {
    seq(n, i => q)
  }

  lemma {:induction false} CountRepeat(before: seq<Request>, q: Request, n: nat, key: Key)
    requires q.window > 0
    ensures CountOf(before + Repeat(q, n), key) == CountOf(before, key) + (if KeyOf(q) == key then n else 0)
  {
    if n == 0 {
      assert before + Repeat(q, n) == before;
    } else {
      CountRepeat(before, q, n - 1, key);
      assert (before + Repeat(q, n))[..|before| + n - 1] == before + Repeat(q, n - 1);
    }
  }

  /** A burst at the end of one window and another at the start of the next: twice the limit within
      half a second. */
  lemma BoundIsAttained(scope: string, subject: string, limit: nat, window: nat)
    returns (trace: seq<Request>, from: real, length: real)
    requires window > 0
    ensures |trace| == 2 * limit && Uniform(trace, scope, subject, limit, window)
    ensures from == window as real - 0.5 && length == window as real
    ensures forall i: nat :: i < |trace| ==> AllowedDuring(trace, scope, subject, from, length, i)
  {
    from, length := window as real - 0.5, window as real;
    var late := Request(scope, subject, limit, window, from, length);
    var early := late.(at := length);
    trace := Repeat(late, limit) + Repeat(early, limit);
    WindowsOfBursts(window);
    forall i: nat | i < |trace| ensures AllowedDuring(trace, scope, subject, from, length, i) {
      if i < limit {
        assert trace[..i + 1] == [] + Repeat(late, i + 1);
        CountRepeat([], late, i + 1, KeyOf(late));
      } else {
        var n := i + 1 - limit;
        assert trace[..i + 1] == Repeat(late, limit) + Repeat(early, n);
        CountRepeat(Repeat(late, limit), early, n, KeyOf(early));
        CountRepeat([], late, limit, KeyOf(early));
        assert [] + Repeat(late, limit) == Repeat(late, limit);
      }
    }
  }

  lemma WindowsOfBursts(window: nat)
    requires window > 0
    ensures WindowStart(window as real - 0.5, window) != WindowStart(window as real, window)
  {
    WindowHolds(window as real - 0.5, window);
    WindowHolds(window as real, window);
    var j, k := WindowIndex(window as real - 0.5, window), WindowIndex(window as real, window);
    assert j * window < window == 1 * window;
    IndexOrder(j, 1, window);
    assert window < k * window + window;
    assert 1 * window < (k + 1) * window;
    IndexOrder(1, k + 1, window);
  }
}
