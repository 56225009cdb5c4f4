/** The shared-cursor worker pool that turns files into tree entries (and release blobs into files). */
module WorkerPool {
  import opened Common

  /** A worker is about to take an index, awaits the reply for one, has returned, or has thrown. */
  datatype Worker = Ready | Awaiting(index: nat) | Returned | Threw(index: nat)

  /** `posted` is the indices requested so far, in request order. */
  datatype State<E> = State(cursor: nat, posted: seq<nat>, results: seq<Option<E>>, workers: seq<Worker>)

  datatype Turn = Turn(worker: nat, ok: bool)

  predicate Enabled<E>(s: State<E>, t: Turn) {
    t.worker < |s.workers| && (s.workers[t.worker].Ready? || s.workers[t.worker].Awaiting?)
  }

  predicate Holds(w: Worker) {
    w.Awaiting? || w.Threw?
  }

  predicate WellFormed<F, E>(files: seq<F>, s: State<E>) {
    |s.results| == |files| &&
    forall w :: 0 <= w < |s.workers| && Holds(s.workers[w]) ==> s.workers[w].index < |files|
  }

  /** One uninterrupted turn of one worker, up to its next await. */
  function Advance<F, E>(files: seq<F>, entry: F -> E, s: State<E>, t: Turn): State<E>
    requires WellFormed(files, s) && Enabled(s, t)
  {
    match s.workers[t.worker]
    case Ready =>
      if s.cursor >= |files| then
        s.(cursor := s.cursor + 1, workers := s.workers[t.worker := Returned])
      else
        s.(cursor := s.cursor + 1, posted := s.posted + [s.cursor],
           workers := s.workers[t.worker := Awaiting(s.cursor)])
    case Awaiting(i) =>
      if t.ok then s.(results := s.results[i := Some(entry(files[i]))], workers := s.workers[t.worker := Ready])
      else s.(workers := s.workers[t.worker := Threw(i)])
  }

  function Start<F, E>(files: seq<F>, width: nat): State<E> {
    State(0, [], seq(|files|, i => None), seq(if width < |files| then width else |files|, i => Ready))
  }

  /** The pool itself: workers advance the cursor and fill the entries in place. */
  class Pool<F, E(0)> {
    const files: seq<F>
    var cursor: nat
    var posted: seq<nat>
    var results: array<Option<E>>
    var workers: seq<Worker>

    function Snapshot(): State<E>
      reads this, results
    {
      State(cursor, posted, results[..], workers)
    }

    constructor (files: seq<F>, width: nat)
      ensures this.files == files && Snapshot() == Start(files, width) && fresh(results)
    {
      this.files := files;
      cursor, posted := 0, [];
      results := new Option<E>[|files|](i => None);
      workers := seq(if width < |files| then width else |files|, i => Ready);
    }

    method Step(entry: F -> E, t: Turn)
      requires WellFormed(files, Snapshot()) && Enabled(Snapshot(), t)
      modifies this`cursor, this`posted, this`workers, results
      ensures Snapshot() == Advance(files, entry, old(Snapshot()), t)
    {
      match workers[t.worker]
      case Ready =>
        var index := cursor;
        cursor := cursor + 1;
        if index >= |files| {
          workers := workers[t.worker := Returned];
        } else {
          posted := posted + [index];
          workers := workers[t.worker := Awaiting(index)];
        }
      case Awaiting(index) =>
        if t.ok {
          results[index] := Some(entry(files[index]));
          workers := workers[t.worker := Ready];
        } else {
          workers := workers[t.worker := Threw(index)];
        }
    }
  }

  // ---- Every schedule ----

  predicate Holding<E>(s: State<E>, i: nat) {
    exists w :: 0 <= w < |s.workers| && (s.workers[w] == Awaiting(i) || s.workers[w] == Threw(i))
  }

  ghost predicate Inv<F, E>(files: seq<F>, entry: F -> E, s: State<E>) {
    && WellFormed(files, s)
    && s.posted == seq(if s.cursor < |files| then s.cursor else |files|, i => i)
    && (forall w :: 0 <= w < |s.workers| && Holds(s.workers[w]) ==>
          s.workers[w].index < s.cursor && s.results[s.workers[w].index].None?)
    && (forall v, w :: 0 <= v < w < |s.workers| && Holds(s.workers[v]) && Holds(s.workers[w]) ==>
          s.workers[v].index != s.workers[w].index)
    && (forall i :: 0 <= i < |files| && s.results[i].Some? ==> i < s.cursor && s.results[i] == Some(entry(files[i])))
    && (forall i: nat :: i < |files| && i < s.cursor && s.results[i].None? ==> Holding(s, i))
    && (forall w :: 0 <= w < |s.workers| && s.workers[w].Returned? ==> s.cursor >= |files|)
  }

  lemma StepKeepsInv<F, E>(files: seq<F>, entry: F -> E, s: State<E>, t: Turn)
    requires Inv(files, entry, s) && Enabled(s, t)
    ensures Inv(files, entry, Advance(files, entry, s, t))
  {
    if s.workers[t.worker].Ready? { TakeKeepsInv(files, entry, s, t); } else { ReplyKeepsInv(files, entry, s, t); }
  }

  lemma TakeKeepsInv<F, E>(files: seq<F>, entry: F -> E, s: State<E>, t: Turn)
    requires Inv(files, entry, s) && Enabled(s, t) && s.workers[t.worker].Ready?
    ensures Inv(files, entry, Advance(files, entry, s, t))
  {
    NothingDropped(files, entry, s, t);
  }

  lemma ReplyKeepsInv<F, E>(files: seq<F>, entry: F -> E, s: State<E>, t: Turn)
    requires Inv(files, entry, s) && Enabled(s, t) && s.workers[t.worker].Awaiting?
    ensures Inv(files, entry, Advance(files, entry, s, t))
  {
    NothingDropped(files, entry, s, t);
  }

  /** An index that was taken and has no entry yet is still held by some worker. */
  lemma NothingDropped<F, E>(files: seq<F>, entry: F -> E, s: State<E>, t: Turn)
    requires Inv(files, entry, s) && Enabled(s, t)
    ensures var s' := Advance(files, entry, s, t);
      forall i: nat :: i < |files| && i < s'.cursor && s'.results[i].None? ==> Holding(s', i)
  {
    var s' := Advance(files, entry, s, t);
    forall i: nat | i < |files| && i < s'.cursor && s'.results[i].None? ensures Holding(s', i) {
      if i == s.cursor {
        assert s'.workers[t.worker] == Awaiting(i);
      } else {
        assert s.results[i].None?;
        var w :| 0 <= w < |s.workers| && (s.workers[w] == Awaiting(i) || s.workers[w] == Threw(i));
        assert w == t.worker ==> s'.workers[w] == Threw(i);
        assert w != t.worker ==> s'.workers[w] == s.workers[w];
      }
    }
  }

  /** A schedule every turn of which is possible. */
  predicate Possible<F, E>(files: seq<F>, entry: F -> E, s: State<E>, schedule: seq<Turn>)
    requires WellFormed(files, s)
    decreases |schedule|
  {
    schedule == [] ||
    (Enabled(s, schedule[0]) && Possible(files, entry, Advance(files, entry, s, schedule[0]), schedule[1..]))
  }

  function Run<F, E>(files: seq<F>, entry: F -> E, s: State<E>, schedule: seq<Turn>): State<E>
    requires WellFormed(files, s) && Possible(files, entry, s, schedule)
    decreases |schedule|
  {
    if schedule == [] then s
    else Run(files, entry, Advance(files, entry, s, schedule[0]), schedule[1..])
  }

  /** Work left: two turns an index not yet taken, and one or two for a worker still running. */
  function Left(workers: seq<Worker>): nat {
    if workers == [] then 0
    else
      var last := workers[|workers| - 1];
      Left(workers[..|workers| - 1]) + (if last.Awaiting? then 2 else if last.Ready? then 1 else 0)
  }

  function Measure<F, E>(files: seq<F>, s: State<E>): nat {
    (if s.cursor < |files| then 2 * (|files| - s.cursor) else 0) + Left(s.workers)
  }

  lemma {:induction false} LeftAfter(workers: seq<Worker>, w: nat, next: Worker)
    requires w < |workers|
    ensures Left(workers[w := next]) + Left([workers[w]]) == Left(workers) + Left([next])
  {
    var n := |workers| - 1;
    if w < n {
      LeftAfter(workers[..n], w, next);
      assert workers[w := next][..n] == workers[..n][w := next];
    } else {
      assert workers[w := next][..n] == workers[..n];
      assert Left([next]) == Left([]) + (if next.Awaiting? then 2 else if next.Ready? then 1 else 0);
    }
  }

  /** Every turn brings the pool closer to its end. */
  lemma TurnDecreases<F, E>(files: seq<F>, entry: F -> E, s: State<E>, t: Turn)
    requires WellFormed(files, s) && Enabled(s, t)
    ensures Measure(files, Advance(files, entry, s, t)) < Measure(files, s)
  {
    LeftAfter(s.workers, t.worker, Advance(files, entry, s, t).workers[t.worker]);
  }

  lemma {:induction false} RunKeepsInv<F, E>(files: seq<F>, entry: F -> E, s: State<E>, schedule: seq<Turn>)
    requires Inv(files, entry, s) && Possible(files, entry, s, schedule)
    ensures Inv(files, entry, Run(files, entry, s, schedule))
    ensures |schedule| <= Measure(files, s)
    ensures |Run(files, entry, s, schedule).workers| == |s.workers|
    decreases |schedule|
  {
    if schedule != [] {
      StepKeepsInv(files, entry, s, schedule[0]);
      TurnDecreases(files, entry, s, schedule[0]);
      RunKeepsInv(files, entry, Advance(files, entry, s, schedule[0]), schedule[1..]);
    }
  }

  predicate AllReturned<E>(s: State<E>) {
    forall w :: 0 <= w < |s.workers| ==> s.workers[w].Returned?
  }

  predicate SomeThrew<E>(s: State<E>) {
    exists w :: 0 <= w < |s.workers| && s.workers[w].Threw?
  }

  lemma StartInv<F, E>(files: seq<F>, entry: F -> E, width: nat)
    ensures Inv(files, entry, Start<F, E>(files, width))
  {
  }

  /** For any number of workers and any schedule: no more requests than that are ever under way, the run is bounded, every index is requested once and
      in order, and if all workers return then entry `i` was built from file `i`, for every `i`. */
  lemma ScheduleIndependence<F, E>(files: seq<F>, entry: F -> E, width: nat, schedule: seq<Turn>)
    requires width > 0 && Possible(files, entry, Start<F, E>(files, width), schedule)
    ensures |schedule| <= Measure(files, Start<F, E>(files, width))
    ensures var s := Run(files, entry, Start<F, E>(files, width), schedule);
      && |s.workers| <= width && |s.workers| <= |files| && |s.posted| <= |files| && (forall i :: 0 <= i < |s.posted| ==> s.posted[i] == i)
      && ((exists t: Turn :: Enabled(s, t)) || AllReturned(s) || SomeThrew(s))
      && (AllReturned(s) ==> s.results == seq(|files|, i requires 0 <= i < |files| => Some(entry(files[i]))))
  {
    var s0 := Start<F, E>(files, width);
    StartInv(files, entry, width);
    RunKeepsInv(files, entry, s0, schedule);
    var s := Run(files, entry, s0, schedule);
    if !AllReturned(s) && !SomeThrew(s) {
      var w :| 0 <= w < |s.workers| && !s.workers[w].Returned?;
      assert !s.workers[w].Threw?;
      assert Enabled(s, Turn(w, true));
    }
    if AllReturned(s) {
      forall i: nat | i < |files| ensures s.results[i] == Some(entry(files[i])) {
        assert s.workers[0].Returned?;
        assert !Holding(s, i);
      }
    }
  }
}
