/** Supervisor elections: creating the epoch's Git ref decides, the state file records. Every command is
    split where another can come between, and any of them may stop anywhere. */
module Elections {
  import opened Common

  /** A fencing token, `supervisor:<epoch>:<lease id>`. */
  datatype Token = Token(epoch: nat, lease: string)

  datatype SupervisorStatus = Active | Relinquished | Vacant

  /** The Supervisor state file. */
  datatype Record = Record(
    epoch: nat, status: SupervisorStatus, leaseActive: bool, expires: Option<nat>, token: Token, agent: string,
    electionRef: Option<nat>)

  /** What everyone shares: the election refs, each named by its epoch, and the state file. */
  datatype Board = Board(refs: set<nat>, record: Record)

  function LeaseMinutes(requested: int): nat {
    if requested < 5 then 5 else requested
  }

  predicate Unexpired(record: Record, now: nat) {
    record.expires.Some? && record.expires.value > now
  }

  /** The guard of the election. */
  predicate Electable(record: Record, now: nat) {
    !(record.status.Active? && Unexpired(record, now))
  }

  predicate Live(record: Record, now: nat) {
    record.status.Active? && record.leaseActive && Unexpired(record, now)
  }

  predicate Verifies(record: Record, now: nat, epoch: nat, token: Token, agent: string) {
    Live(record, now) && record.epoch == epoch && record.token == token && record.agent == agent
  }

  function Elected(target: nat, lease: string, agent: string, expires: nat): Record {
    Record(target, Active, true, Some(expires), Token(target, lease), agent, Some(target))
  }

  function Beaten(record: Record, at: nat, minutes: int): Record {
    record.(expires := Some(at + LeaseMinutes(minutes)), leaseActive := true)
  }

  function Released(record: Record, at: nat): Record {
    record.(status := Relinquished, leaseActive := false, expires := Some(at))
  }

  // ---- What the three writes of the state file mean ----

  /** Exactly this epoch, token and agent pass verification, and exactly before `end`; from then on, and not
      before, an election is let in. */
  ghost predicate HeldUntil(record: Record, epoch: nat, token: Token, agent: string, end: int) {
    (forall t: nat, e, k, a :: Verifies(record, t, e, k, a) <==> e == epoch && k == token && a == agent && t < end) &&
    (forall t: nat :: Electable(record, t) <==> t >= end)
  }

  /** Nobody passes verification any more, and an election is let in at any time. */
  ghost predicate GivenUp(record: Record) {
    (forall t: nat, e, k, a :: !Verifies(record, t, e, k, a)) && (forall t: nat :: Electable(record, t))
  }

  /** A live Supervisor's authority ends when its lease does. */
  lemma LiveIsHeld(record: Record, now: nat)
    requires Live(record, now)
    ensures record.status.Active? && record.leaseActive && record.expires.value > now
    ensures HeldUntil(record, record.epoch, record.token, record.agent, record.expires.value)
  {
  }

  /** An election hands the next epoch to the elected agent for the minutes asked, and at least five. */
  lemma ElectedHolds(target: nat, lease: string, agent: string, now: nat, minutes: int)
    ensures var end := if minutes < 5 then now + 5 else now + minutes;
      HeldUntil(Elected(target, lease, agent, now + LeaseMinutes(minutes)), target, Token(target, lease), agent, end)
    ensures Elected(target, lease, agent, now + LeaseMinutes(minutes)).electionRef == Some(target)
  {
  }

  /** A heartbeat keeps the Supervisor and moves the end of its lease; a release ends its authority at once. */
  lemma BeatenHolds(record: Record, now: nat, at: nat, minutes: int)
    requires Live(record, now)
    ensures var end := if minutes < 5 then at + 5 else at + minutes;
      HeldUntil(Beaten(record, at, minutes), record.epoch, record.token, record.agent, end)
    ensures Beaten(record, at, minutes).electionRef == record.electionRef
    ensures GivenUp(Released(record, at)) && Released(record, at).epoch == record.epoch
    ensures Released(record, at).electionRef == record.electionRef
  {
  }

  /** A compare-and-swap write of the state file. */
  function Swap(b: Board, read: Record, next: Record): Board {
    if b.record == read then b.(record := next) else b
  }

  datatype ElectionError = LeaseStillValid | ElectionLost | PersistenceFailed(rolledBack: bool)

  /** The shared refs and state file, and one whole election on them. */
  class Coordination {
    var refs: set<nat>
    var record: Record

    function Snapshot(): Board
      reads this
    {
      Board(refs, record)
    }

    method AcquireRemote(target: nat) returns (won: bool)
      modifies this`refs
      ensures won <==> target !in old(refs)
      ensures refs == old(refs) + {target}
    {
      won := target !in refs;
      if won { refs := refs + {target}; }
    }

    method DeleteRemote(target: nat, works: bool)
      modifies this`refs
      ensures refs == if works then old(refs) - {target} else old(refs)
    {
      if works { refs := refs - {target}; }
    }

    method CompareAndSwap(read: Record, next: Record) returns (ok: bool)
      modifies this`record
      ensures Snapshot() == Swap(old(Snapshot()), read, next)
      ensures ok <==> old(record) == read
    {
      ok := record == read;
      if ok { record := next; }
    }

    /** An election no other command comes between. */
    method Elect(agent: string, lease: string, minutes: int, now: nat, persists: bool, rollbackWorks: bool)
      returns (r: Result<Token, ElectionError>)
      modifies this
      ensures (Snapshot(), r) == Election(old(Snapshot()), agent, lease, minutes, now, persists, rollbackWorks)
      ensures r.Ok? ==>
        r.value == Token(old(record).epoch + 1, lease) && refs == old(refs) + {old(record).epoch + 1} &&
        HeldUntil(record, old(record).epoch + 1, r.value, agent, if minutes < 5 then now + 5 else now + minutes)
    {
      if record.status == Active && Unexpired(record, now) { return Err(LeaseStillValid); }
      var epoch := record.epoch + 1;
      ghost var before := refs;
      var won := AcquireRemote(epoch);
      if !won {
        assert refs == before;
        return Err(ElectionLost);
      }
      if !persists {
        DeleteRemote(epoch, rollbackWorks);
        assert before + {epoch} - {epoch} == before;
        return Err(PersistenceFailed(rollbackWorks));
      }
      ElectedHolds(epoch, lease, agent, now, minutes);
      record := Elected(epoch, lease, agent, now + LeaseMinutes(minutes));
      return Ok(Token(epoch, lease));
    }

    /** A heartbeat that takes leaves the same Supervisor in charge until the end it asked for, and nobody else
        electable before. What it read and verified is what it compares with; `meanwhile` is what another command
        writes in between. */
    method SupervisorHeartbeat(now: nat, epoch: nat, token: Token, agent: string, meanwhile: Option<Record>, at: nat, minutes: int)
      returns (ok: bool)
      modifies this`record
      ensures ok <==> Verifies(old(record), now, epoch, token, agent) && (meanwhile.Some? ==> meanwhile.value == old(record))
      ensures record == if ok then Beaten(old(record), at, minutes) else AfterOthers(old(record), now, epoch, token, agent, meanwhile)
      ensures ok ==> HeldUntil(record, epoch, token, agent, if minutes < 5 then at + 5 else at + minutes)
      ensures ok ==> record.electionRef == old(record).electionRef
    {
      if !Verifies(record, now, epoch, token, agent) { return false; }
      var read := record;
      BeatenHolds(read, now, at, minutes);
      if meanwhile.Some? { record := meanwhile.value; }
      ok := CompareAndSwap(read, Beaten(read, at, minutes));
    }

    /** A release that takes ends the Supervisor's authority at once. It comes with or without deleting the
        election ref between reading and writing; a deletion that fails ends it before the write. */
    method SupervisorRelease(now: nat, epoch: nat, token: Token, agent: string, unlock: bool, deletionWorks: bool,
                             meanwhile: Option<Record>, at: nat)
      returns (ok: bool)
      modifies this
      ensures ok <==> Verifies(old(record), now, epoch, token, agent) && !DeletionFails(old(record), unlock, deletionWorks) && (meanwhile.Some? ==> meanwhile.value == old(record))
      ensures record == if ok then Released(old(record), at) else AfterOthers(old(record), now, epoch, token, agent, meanwhile)
      ensures ok ==> GivenUp(record)
      ensures refs == (if unlock && deletionWorks && Verifies(old(record), now, epoch, token, agent) && old(record).electionRef.Some?
                       then old(refs) - {old(record).electionRef.value} else old(refs))
    {
      if !Verifies(record, now, epoch, token, agent) { return false; }
      var read := record;
      BeatenHolds(read, now, at, 0);
      if unlock && read.electionRef.Some? { DeleteRemote(read.electionRef.value, deletionWorks); }
      if meanwhile.Some? { record := meanwhile.value; }
      if unlock && read.electionRef.Some? && !deletionWorks { return false; }
      ok := CompareAndSwap(read, Released(read, at));
    }
  }

  predicate DeletionFails(record: Record, unlock: bool, deletionWorks: bool) {
    unlock && record.electionRef.Some? && !deletionWorks
  }

  /** The state file after a command whose own write did not take. */
  function AfterOthers(record: Record, now: nat, epoch: nat, token: Token, agent: string, meanwhile: Option<Record>): Record {
    if Verifies(record, now, epoch, token, agent) && meanwhile.Some? then meanwhile.value else record
  }

  /** One whole election: it wins exactly when the lease has run out, the next epoch's ref is free and the
      state is persisted; a failed write gives the ref back, or leaves it when that fails too. */
  function Election(b: Board, agent: string, lease: string, minutes: int, now: nat, persists: bool, rollbackWorks: bool):
    (Board, Result<Token, ElectionError>)
  {
    var epoch := b.record.epoch + 1;
    if !Electable(b.record, now) then (b, Err(LeaseStillValid))
    else if epoch in b.refs then (b, Err(ElectionLost))
    else if !persists then
      (if rollbackWorks then b else b.(refs := b.refs + {epoch}), Err(PersistenceFailed(rollbackWorks)))
    else
      (Board(b.refs + {epoch}, Elected(epoch, lease, agent, now + LeaseMinutes(minutes))), Ok(Token(epoch, lease)))
  }

  // ---- Interleavings ----

  /** A command between two of its steps: an election before and after it has created its ref, a
      heartbeat or release that has read and verified, a recovery that has passed its checks. */
  datatype Proc =
    | Electing(target: nat, lease: string, agent: string, until: nat)
    | Holding(target: nat, lease: string, agent: string, until: nat)
    | Beating(read: Record)
    | Releasing(read: Record)
    | Recovering(stale: nat)

  /** `history` is the tokens the state file has held, oldest first. */
  datatype State = State(board: Board, procs: map<nat, Proc>, history: seq<Token>, now: nat)

  datatype Step =
    | Tick(now: nat)
    | Read(id: nat, lease: string, agent: string, minutes: int)
    | CreateRef(id: nat)
    | WriteState(id: nat)
    | RollBack(id: nat)
    | StartBeat(id: nat, epoch: nat, token: Token, agent: string)
    | FinishBeat(id: nat, at: nat, minutes: int)
    | StartRelease(id: nat, epoch: nat, token: Token, agent: string)
    | Unlock(id: nat)
    | FinishRelease(id: nat, at: nat)
    | StartRecover(id: nat, epoch: nat, token: Token, agent: string, stale: nat)
    | FinishRecover(id: nat)
    | Vanish(id: nat)

  predicate Enabled(s: State, step: Step) {
    var record := s.board.record;
    match step
    case Tick(now) => now >= s.now
    case Read(id, _, _, _) => id !in s.procs && Electable(record, s.now)
    case CreateRef(id) => id in s.procs && s.procs[id].Electing?
    case WriteState(id) => id in s.procs && s.procs[id].Holding?
    case RollBack(id) => id in s.procs && s.procs[id].Holding?
    case StartBeat(id, epoch, token, agent) => id !in s.procs && Verifies(record, s.now, epoch, token, agent)
    case FinishBeat(id, at, _) => id in s.procs && s.procs[id].Beating? && at <= s.now
    case StartRelease(id, epoch, token, agent) => id !in s.procs && Verifies(record, s.now, epoch, token, agent)
    case Unlock(id) => id in s.procs && s.procs[id].Releasing? && s.procs[id].read.electionRef.Some?
    case FinishRelease(id, at) => id in s.procs && s.procs[id].Releasing? && at <= s.now
    case StartRecover(id, epoch, token, agent, stale) =>
      id !in s.procs && Verifies(record, s.now, epoch, token, agent) && record.electionRef != Some(stale)
    case FinishRecover(id) => id in s.procs && s.procs[id].Recovering?
    case Vanish(id) => id in s.procs
  }

  function Forget(s: State, id: nat): map<nat, Proc> {
    s.procs - {id}
  }

  function DeleteRef(s: State, epoch: nat): State {
    s.(board := s.board.(refs := s.board.refs - {epoch}))
  }

  function Next(s: State, step: Step): State
    requires Enabled(s, step)
  {
    match step
    case Tick(now) => s.(now := now)
    case Read(id, lease, agent, minutes) =>
      s.(procs := s.procs[id := Electing(s.board.record.epoch + 1, lease, agent, s.now + LeaseMinutes(minutes))])
    case CreateRef(id) =>
      var p := s.procs[id];
      if p.target in s.board.refs then s.(procs := Forget(s, id))
      else s.(board := s.board.(refs := s.board.refs + {p.target}),
              procs := s.procs[id := Holding(p.target, p.lease, p.agent, p.until)])
    case WriteState(id) =>
      var p := s.procs[id];
      s.(board := s.board.(record := Elected(p.target, p.lease, p.agent, p.until)), procs := Forget(s, id),
         history := s.history + [Token(p.target, p.lease)])
    case RollBack(id) => DeleteRef(s, s.procs[id].target).(procs := Forget(s, id))
    case StartBeat(id, _, _, _) => s.(procs := s.procs[id := Beating(s.board.record)])
    case FinishBeat(id, at, minutes) =>
      s.(board := Swap(s.board, s.procs[id].read, Beaten(s.procs[id].read, at, minutes)), procs := Forget(s, id))
    case StartRelease(id, _, _, _) => s.(procs := s.procs[id := Releasing(s.board.record)])
    case Unlock(id) => DeleteRef(s, s.procs[id].read.electionRef.value)
    case FinishRelease(id, at) =>
      s.(board := Swap(s.board, s.procs[id].read, Released(s.procs[id].read, at)), procs := Forget(s, id))
    case StartRecover(id, _, _, _, stale) => s.(procs := s.procs[id := Recovering(stale)])
    case FinishRecover(id) => DeleteRef(s, s.procs[id].stale).(procs := Forget(s, id))
    case Vanish(id) => s.(procs := Forget(s, id))
  }

  // ---- Safety ----

  predicate Increasing(history: seq<Token>) {
    forall i, j :: 0 <= i < j < |history| ==> history[i].epoch < history[j].epoch
  }

  /** An election still to create its ref either aims at the next epoch or is bound to lose. */
  predicate PendingFits(b: Board, p: Proc) {
    p.Electing? ==> p.target <= b.record.epoch + 1 && (p.target <= b.record.epoch ==> p.target in b.refs)
  }

  predicate HolderFits(b: Board, p: Proc) {
    p.Holding? ==> p.target == b.record.epoch + 1 && p.target in b.refs
  }

  predicate Inv(s: State) {
    && (forall id :: id in s.procs ==> PendingFits(s.board, s.procs[id]) && HolderFits(s.board, s.procs[id]))
    && (forall i, j :: i in s.procs && j in s.procs && s.procs[i].Holding? && s.procs[j].Holding? ==> i == j)
    && s.history != [] && s.history[|s.history| - 1] == s.board.record.token
    && s.board.record.token.epoch == s.board.record.epoch
    && Increasing(s.history)
  }

  /** The election ref a step deletes, other than an election undoing its own. */
  function Deletes(s: State, step: Step): Option<nat>
    requires Enabled(s, step)
  {
    match step
    case Unlock(id) => s.procs[id].read.electionRef
    case FinishRecover(id) => Some(s.procs[id].stale)
    case _ => None
  }

  /** Nobody is still electing to this epoch's ref: no election of the epoch or an earlier one waits to
      create it and none holds it. */
  predicate Idle(s: State, epoch: nat) {
    forall id :: id in s.procs ==>
      !(s.procs[id].Holding? && s.procs[id].target == epoch) &&
      !(s.procs[id].Electing? && s.procs[id].target == epoch && epoch <= s.board.record.epoch)
  }

  predicate Harmless(s: State, step: Step)
    requires Enabled(s, step)
  {
    Deletes(s, step).Some? ==> Idle(s, Deletes(s, step).value)
  }

  lemma StepKeepsInv(s: State, step: Step)
    requires Inv(s) && Enabled(s, step) && Harmless(s, step)
    ensures Inv(Next(s, step))
  {
    match step
    case WriteState(id) => assert Increasing(Next(s, step).history);
    case CreateRef(id) =>
    case _ =>
  }

  predicate Possible(s: State, steps: seq<Step>)
    decreases |steps|
  {
    steps == [] || (Enabled(s, steps[0]) && Possible(Next(s, steps[0]), steps[1..]))
  }

  /** A run whose deletions of election refs are all harmless, such as one that never unlocks and never
      recovers an election ref. */
  predicate Careful(s: State, steps: seq<Step>)
    requires Possible(s, steps)
    decreases |steps|
  {
    steps == [] || (Harmless(s, steps[0]) && Careful(Next(s, steps[0]), steps[1..]))
  }

  function Exec(s: State, steps: seq<Step>): State
    requires Possible(s, steps)
    decreases |steps|
  {
    if steps == [] then s else Exec(Next(s, steps[0]), steps[1..])
  }

  /** The token has been overtaken: another one is, or was later, in the state file. */
  predicate Superseded(s: State, t: Token) {
    t.epoch <= s.board.record.epoch && t != s.board.record.token
  }

  lemma StepKeepsSuperseded(s: State, step: Step, t: Token)
    requires Inv(s) && Enabled(s, step) && Superseded(s, t)
    ensures Superseded(Next(s, step), t)
  {
  }

  /** Fencing: over every careful interleaving, with crashes anywhere, the epochs written strictly
      increase, so each epoch has at most one winner, and a superseded token never passes
      verification again. */
  lemma {:induction false} ElectionsAreFenced(s: State, steps: seq<Step>, t: Token)
    requires Inv(s) && Possible(s, steps) && Careful(s, steps)
    ensures var end := Exec(s, steps);
      Inv(end) && s.history <= end.history &&
      (Superseded(s, t) ==> forall epoch, agent :: !Verifies(end.board.record, end.now, epoch, t, agent))
    decreases |steps|
  {
    if steps != [] {
      var next := Next(s, steps[0]);
      StepKeepsInv(s, steps[0]);
      if Superseded(s, t) { StepKeepsSuperseded(s, steps[0], t); }
      ElectionsAreFenced(next, steps[1..], t);
      assert s.history <= next.history;
    }
  }

  function Start(record: Record, refs: set<nat>, now: nat): State {
    State(Board(refs, record), map[], [record.token], now)
  }

  lemma OneWinnerPerEpoch(record: Record, refs: set<nat>, now: nat, steps: seq<Step>, i: nat, j: nat)
    requires record.token.epoch == record.epoch
    requires var s := Start(record, refs, now); Possible(s, steps) && Careful(s, steps)
    requires var end := Exec(Start(record, refs, now), steps);
      i < |end.history| && j < |end.history| && end.history[i].epoch == end.history[j].epoch
    ensures i == j
  {
    ElectionsAreFenced(Start(record, refs, now), steps, record.token);
  }

  /** No election of the next epoch is under way; later ones are bound to lose. */
  predicate NoneUnderWay(s: State) {
    forall id :: id in s.procs ==> !s.procs[id].Holding? && (s.procs[id].Electing? ==> s.procs[id].target <= s.board.record.epoch)
  }

  /** Steps other than the end of a heartbeat or a release. */
  predicate OnlyOthers(steps: seq<Step>) {
    forall i :: 0 <= i < |steps| ==> !steps[i].FinishBeat? && !steps[i].FinishRelease?
  }

  lemma {:induction false} TimeGoesOn(s: State, steps: seq<Step>)
    requires Possible(s, steps)
    ensures Exec(s, steps).now >= s.now
    decreases |steps|
  {
    if steps != [] { TimeGoesOn(Next(s, steps[0]), steps[1..]); }
  }

  /** Until its lease runs out nobody takes over from a Supervisor: over every careful run in which it neither
      beats nor releases, and with no election of the next epoch under way at the start, the state file stays
      what it was as long as the clock is before the end. */
  lemma {:induction false} NobodyTakesOver(s: State, steps: seq<Step>, epoch: nat, token: Token, agent: string, end: int)
    requires Inv(s) && Possible(s, steps) && Careful(s, steps) && NoneUnderWay(s) && OnlyOthers(steps)
    requires HeldUntil(s.board.record, epoch, token, agent, end) && Exec(s, steps).now < end
    ensures Exec(s, steps).board.record == s.board.record
    ensures Verifies(Exec(s, steps).board.record, Exec(s, steps).now, epoch, token, agent)
    decreases |steps|
  {
    if steps != [] {
      var next := Next(s, steps[0]);
      TimeGoesOn(next, steps[1..]);
      StepKeepsInv(s, steps[0]);
      assert !Electable(s.board.record, s.now);
      assert next.board.record == s.board.record && NoneUnderWay(next);
      NobodyTakesOver(next, steps[1..], epoch, token, agent, end);
    }
  }

  // ---- When deleting an election ref does harm ----

  lemma FreshId(ids: set<nat>) returns (id: nat)
    ensures id !in ids
  {
    var bound := UpperBound(ids);
    id := bound;
  }

  lemma {:induction false} UpperBound(ids: set<nat>) returns (bound: nat)
    ensures forall i :: i in ids ==> i < bound
  {
    if ids == {} {
      bound := 0;
    } else {
      var i :| i in ids;
      var rest := UpperBound(ids - {i});
      assert forall k :: k in ids ==> k == i || k in ids - {i};
      bound := if rest > i then rest else i + 1;
    }
  }

  /** An election that waits to create a ref of this epoch or an earlier one wins again once the ref is
      gone, and writes its old epoch over the current state. */
  lemma StalledElectorWins(s: State, epoch: nat, id: nat) returns (steps: seq<Step>)
    requires Inv(s) && id in s.procs && s.procs[id].Electing? && s.procs[id].target == epoch <= s.board.record.epoch
    ensures Possible(DeleteRef(s, epoch), steps) && Careful(DeleteRef(s, epoch), steps)
    ensures !Increasing(Exec(DeleteRef(s, epoch), steps).history)
  {
    var s0 := DeleteRef(s, epoch);
    var s1 := Next(s0, CreateRef(id));
    steps := [CreateRef(id), WriteState(id)];
    assert steps[1..] == [WriteState(id)] && steps[1..][1..] == [];
    assert s1.procs[id].Holding?;
    var s2 := Next(s1, WriteState(id));
    assert Possible(s2, []) && Possible(s1, steps[1..]);
    assert Exec(s2, []) == s2 && Exec(s1, steps[1..]) == s2 && Exec(s0, steps) == s2;
    assert s2.history[|s.history| - 1].epoch >= s2.history[|s.history|].epoch;
  }

  /** Taking the ref from under an election that holds it lets a second one win the same epoch. */
  lemma HolderDoubled(s: State, epoch: nat, id: nat) returns (steps: seq<Step>)
    requires Inv(s) && id in s.procs && s.procs[id].Holding? && s.procs[id].target == epoch
    ensures Possible(DeleteRef(s, epoch), steps) && Careful(DeleteRef(s, epoch), steps)
    ensures !Increasing(Exec(DeleteRef(s, epoch), steps).history)
  {
    var s0 := DeleteRef(s, epoch);
    var expires := if s.board.record.expires.Some? then s.board.record.expires.value else 0;
    var later := if expires > s.now then expires else s.now;
    var q := FreshId(s.procs.Keys);
    steps := [Tick(later), Read(q, "", "", 5), CreateRef(q), WriteState(id), WriteState(q)];
    var s1 := Next(s0, steps[0]);
    var s2 := Next(s1, steps[1]);
    var s3 := Next(s2, steps[2]);
    var s4 := Next(s3, steps[3]);
    var s5 := Next(s4, steps[4]);
    assert s3.procs[q].Holding?;
    RunOfFive(s0, s1, s2, s3, s4, s5, steps);
    var n := |s.history|;
    assert s5.history == s.history + [Token(epoch, s.procs[id].lease)] + [Token(epoch, "")];
    assert s5.history[n].epoch == s5.history[n + 1].epoch;
  }

  lemma RunOfFive(s0: State, s1: State, s2: State, s3: State, s4: State, s5: State, steps: seq<Step>)
    requires |steps| == 5 && forall k :: 0 <= k < 5 ==> !steps[k].Unlock? && !steps[k].FinishRecover?
    requires Enabled(s0, steps[0]) && s1 == Next(s0, steps[0])
    requires Enabled(s1, steps[1]) && s2 == Next(s1, steps[1])
    requires Enabled(s2, steps[2]) && s3 == Next(s2, steps[2])
    requires Enabled(s3, steps[3]) && s4 == Next(s3, steps[3])
    requires Enabled(s4, steps[4]) && s5 == Next(s4, steps[4])
    ensures Possible(s0, steps) && Careful(s0, steps) && Exec(s0, steps) == s5
  {
    var t1 := steps[1..];
    var t2 := t1[1..];
    var t3 := t2[1..];
    var t4 := t3[1..];
    assert t4[1..] == [];
    assert Possible(s5, []) && Possible(s4, t4) && Possible(s3, t3) && Possible(s2, t2) && Possible(s1, t1);
    assert Careful(s5, []) && Careful(s4, t4) && Careful(s3, t3) && Careful(s2, t2) && Careful(s1, t1);
    assert Exec(s4, t4) == s5 && Exec(s3, t3) == s5 && Exec(s2, t2) == s5 && Exec(s1, t1) == s5;
  }

  lemma DeletionKeepsInv(s: State, epoch: nat)
    requires Inv(s) && Idle(s, epoch)
    ensures Inv(DeleteRef(s, epoch))
  {
  }

  /** Releasing with the remote unlock, or recovering an election ref, is safe exactly when nobody is
      still electing to that ref: otherwise some careful continuation gives an epoch a second winner
      or takes the state file back to an earlier one. */
  lemma DeletionIsSafeWhenIdle(s: State, epoch: nat)
    requires Inv(s)
    ensures Idle(s, epoch) <==>
      forall steps :: Possible(DeleteRef(s, epoch), steps) && Careful(DeleteRef(s, epoch), steps) ==>
        Increasing(Exec(DeleteRef(s, epoch), steps).history)
  {
    var s0 := DeleteRef(s, epoch);
    if Idle(s, epoch) {
      DeletionKeepsInv(s, epoch);
      forall steps | Possible(s0, steps) && Careful(s0, steps) ensures Increasing(Exec(s0, steps).history) {
        ElectionsAreFenced(s0, steps, s.board.record.token);
      }
    } else {
      var id :| id in s.procs &&
        ((s.procs[id].Holding? && s.procs[id].target == epoch) ||
         (s.procs[id].Electing? && s.procs[id].target == epoch && epoch <= s.board.record.epoch));
      var steps;
      if s.procs[id].Holding? { steps := HolderDoubled(s, epoch, id); } else { steps := StalledElectorWins(s, epoch, id); }
    }
  }

  /** The same of the steps themselves: an unlock or a recovery that can happen is safe exactly when it is
      harmless. */
  lemma DeletingStepIsSafe(s: State, step: Step)
    requires Inv(s) && Enabled(s, step) && Deletes(s, step).Some?
    ensures Harmless(s, step) <==>
      forall steps :: Possible(Next(s, step), steps) && Careful(Next(s, step), steps) ==>
        Increasing(Exec(Next(s, step), steps).history)
  {
    var epoch := Deletes(s, step).value;
    if step.FinishRecover? {
      var rest := s.(procs := Forget(s, step.id));
      assert Next(s, step) == DeleteRef(rest, epoch);
      assert Idle(rest, epoch) <==> Idle(s, epoch) by { RecoveringIsIdle(s, step.id, epoch); }
      DeletionIsSafeWhenIdle(rest, epoch);
    } else {
      assert Next(s, step) == DeleteRef(s, epoch);
      DeletionIsSafeWhenIdle(s, epoch);
    }
  }

  lemma RecoveringIsIdle(s: State, id: nat, epoch: nat)
    requires id in s.procs && s.procs[id].Recovering?
    ensures Idle(s.(procs := Forget(s, id)), epoch) <==> Idle(s, epoch)
  {
    var rest := s.(procs := Forget(s, id));
    forall k | k in s.procs && k != id ensures k in rest.procs && rest.procs[k] == s.procs[k] {}
  }

  /** A recovery nothing comes between takes exactly the ref it names, and that is never the active election's. */
  lemma RecoveryAloneSpares(s: State, id: nat, epoch: nat, token: Token, agent: string, stale: nat)
    requires Enabled(s, StartRecover(id, epoch, token, agent, stale))
    ensures Enabled(Next(s, StartRecover(id, epoch, token, agent, stale)), FinishRecover(id))
    ensures var t := Next(Next(s, StartRecover(id, epoch, token, agent, stale)), FinishRecover(id));
      t == s.(board := s.board.(refs := s.board.refs - {stale})) &&
      (s.board.record.electionRef.Some? && s.board.record.electionRef.value in s.board.refs ==>
        t.board.record.electionRef.value in t.board.refs)
  {
    var s1 := Next(s, StartRecover(id, epoch, token, agent, stale));
    assert s1.procs - {id} == s.procs;
  }

  // ---- Runs from the beginning ----

  ghost predicate Reaches(s: State, t: State) {
    exists steps :: Possible(s, steps) && Exec(s, steps) == t
  }

  lemma ReachesItself(s: State)
    ensures Reaches(s, s)
  {
    assert Possible(s, []) && Exec(s, []) == s;
  }

  lemma {:induction false} ExecAppend(s: State, steps: seq<Step>, step: Step)
    requires Possible(s, steps) && Enabled(Exec(s, steps), step)
    ensures Possible(s, steps + [step]) && Exec(s, steps + [step]) == Next(Exec(s, steps), step)
    decreases |steps|
  {
    if steps == [] {
      assert Possible(Next(s, step), []);
    } else {
      ExecAppend(Next(s, steps[0]), steps[1..], step);
      assert (steps + [step])[1..] == steps[1..] + [step];
    }
  }

  lemma ReachesNext(s: State, t: State, step: Step)
    requires Reaches(s, t) && Enabled(t, step)
    ensures Reaches(s, Next(t, step))
  {
    var steps :| Possible(s, steps) && Exec(s, steps) == t;
    ExecAppend(s, steps, step);
  }

  /** Two elections read, the second wins, works and releases with the unlock, and the first then wins the
      same epoch: from any state file whose lease has run out. */
  lemma UnlockDoublesAnEpoch(record: Record, now: nat, lease: string, other: string, agent: string) returns (t: State)
    requires record.token.epoch == record.epoch && Electable(record, now)
    ensures Reaches(Start(record, {}, now), t)
    ensures t.history == [record.token, Token(record.epoch + 1, other), Token(record.epoch + 1, lease)]
  {
    hide Reaches;
    var s, epoch := Start(record, {}, now), record.epoch + 1;
    var won := SecondWins(record, now, lease, other, agent);
    var s5 := Next(won, StartRelease(3, epoch, Token(epoch, other), agent));
    ReachesNext(s, won, StartRelease(3, epoch, Token(epoch, other), agent));
    var s6 := Next(s5, Unlock(3));
    ReachesNext(s, s5, Unlock(3));
    var s7 := Next(s6, CreateRef(1));
    ReachesNext(s, s6, CreateRef(1));
    t := Next(s7, WriteState(1));
    ReachesNext(s, s7, WriteState(1));
  }

  lemma SecondWins(record: Record, now: nat, lease: string, other: string, agent: string) returns (t: State)
    requires record.token.epoch == record.epoch && Electable(record, now)
    ensures Reaches(Start(record, {}, now), t) && t.now == now
    ensures t.board == Board({record.epoch + 1}, Elected(record.epoch + 1, other, agent, now + 30))
    ensures t.procs == map[1 := Electing(record.epoch + 1, lease, agent, now + 30)]
    ensures t.history == [record.token, Token(record.epoch + 1, other)]
  {
    hide Reaches;
    var s := Start(record, {}, now);
    ReachesItself(s);
    var s1 := Next(s, Read(1, lease, agent, 30));
    ReachesNext(s, s, Read(1, lease, agent, 30));
    var s2 := Next(s1, Read(2, other, agent, 30));
    ReachesNext(s, s1, Read(2, other, agent, 30));
    var s3 := Next(s2, CreateRef(2));
    ReachesNext(s, s2, CreateRef(2));
    t := Next(s3, WriteState(2));
    ReachesNext(s, s3, WriteState(2));
    assert t.procs == map[1 := Electing(record.epoch + 1, lease, agent, now + 30)];
  }

  /** Run alone, an election's steps do what the election as a whole does. */
  lemma AloneElects(s: State, id: nat, agent: string, lease: string, minutes: int, persists: bool, rollbackWorks: bool)
    returns (t: State)
    requires id !in s.procs
    ensures Reaches(s, t) && t.procs == s.procs && t.now == s.now
    ensures t.board == Election(s.board, agent, lease, minutes, s.now, persists, rollbackWorks).0
    ensures t.history == s.history +
      (if Election(s.board, agent, lease, minutes, s.now, persists, rollbackWorks).1.Ok?
       then [Election(s.board, agent, lease, minutes, s.now, persists, rollbackWorks).1.value] else [])
  {
    hide Reaches;
    ReachesItself(s);
    t := s;
    if Electable(s.board.record, s.now) {
      var s1 := Next(s, Read(id, lease, agent, minutes));
      ReachesNext(s, s, Read(id, lease, agent, minutes));
      var s2 := Next(s1, CreateRef(id));
      ReachesNext(s, s1, CreateRef(id));
      t := s2;
      if s.board.record.epoch + 1 !in s.board.refs {
        var end := if persists then WriteState(id) else if rollbackWorks then RollBack(id) else Vanish(id);
        t := Next(s2, end);
        ReachesNext(s, s2, end);
      }
    }
    assert t.procs == s.procs;
  }

  // ---- An election lost to a crash ----

  /** The next epoch's ref exists but its creator is gone, the lease has run out, and nothing but
      elections is under way. */
  predicate Orphaned(s: State) {
    s.board.record.epoch + 1 in s.board.refs && Electable(s.board.record, s.now) &&
    forall id :: id in s.procs ==> s.procs[id].Electing?
  }

  /** From there no run, whatever anyone does, ever elects a Supervisor or changes the state again:
      recovering the orphan would itself need a live Supervisor. */
  lemma {:induction false} OrphanBlocksForever(s: State, steps: seq<Step>)
    requires Inv(s) && Orphaned(s) && Possible(s, steps)
    ensures Exec(s, steps).board == s.board && Exec(s, steps).history == s.history
    decreases |steps|
  {
    if steps != [] {
      var next := Next(s, steps[0]);
      StepKeepsInv(s, steps[0]);
      assert next.board == s.board && next.history == s.history;
      OrphanBlocksForever(next, steps[1..]);
    }
  }

  /** And such a state is one crash away from every start whose lease has run out. */
  lemma OrphanHappens(record: Record, now: nat, lease: string, agent: string) returns (t: State)
    requires record.token.epoch == record.epoch && Electable(record, now)
    ensures Reaches(Start(record, {}, now), t) && Inv(t) && Orphaned(t)
  {
    t := AloneElects(Start(record, {}, now), 1, agent, lease, 30, false, false);
  }

  /** A run in which somebody wins. */
  predicate Elects(s: State, steps: seq<Step>) {
    Possible(s, steps) && Exec(s, steps).history != s.history
  }

  lemma FreeRefElects(s: State) returns (steps: seq<Step>)
    requires Electable(s.board.record, s.now) && s.board.record.epoch + 1 !in s.board.refs
    ensures Elects(s, steps)
  {
    var id := FreshId(s.procs.Keys);
    var t := AloneElects(s, id, "", "", 30, true, true);
    steps :| Possible(s, steps) && Exec(s, steps) == t;
    assert |t.history| == |s.history| + 1;
  }

  /** With nothing but elections under way and no lease left, somebody can still be elected exactly when
      the next epoch's ref is free. */
  lemma ElectableWhenRefFree(s: State)
    requires Inv(s) && Electable(s.board.record, s.now) && forall id :: id in s.procs ==> s.procs[id].Electing?
    ensures s.board.record.epoch + 1 !in s.board.refs <==> exists steps :: Elects(s, steps)
  {
    hide Inv;
    if s.board.record.epoch + 1 !in s.board.refs {
      var steps := FreeRefElects(s);
      hide Elects;
      assert Elects(s, steps);
    } else {
      forall steps ensures !Elects(s, steps) {
        if Possible(s, steps) { OrphanBlocksForever(s, steps); }
      }
    }
  }
}
