/** Worker claims: a claim ref decides who has a slot, the queue file records it. Claim, heartbeat, release,
    recovery and the mutation gateway on the shared refs and queue, and what every run of them keeps. */
module Claims {
  import opened Common
  import E = Elections

  datatype SlotStatus =
    | Free | Claimed | InProgress | Blocked | SubmittedForReview | ChangesRequested | Approved
    | Merged | Completed | Canceled

  datatype LeaseStatus = NotAcquired | ActiveLease | Expired | Orphaned | ReleasedLease | Revoked | Recovered

  /** The Git ref `claims/epoch-<epoch>/<slot id>`. */
  datatype ClaimRef = ClaimRef(epoch: nat, slotId: string)

  datatype WorkerToken = WorkerToken(epoch: nat, lease: string)

  datatype Slot = Slot(
    id: string, workUnit: Option<string>, dependencies: set<string>, priority: int, depth: int,
    status: SlotStatus, leaseStatus: LeaseStatus, claimRef: Option<ClaimRef>, claimant: Option<string>,
    identity: Option<string>, claimId: Option<string>, epoch: Option<nat>, token: Option<WorkerToken>, expires: Option<nat>)

  /** The budget file. */
  datatype Limits = Limits(maxParallel: int, maxDepth: int, costLimitsSet: bool)

  /** One claim as it was made: the work unit and what it depended on. */
  datatype Claim = Claim(unit: string, dependencies: set<string>)

  datatype Desk = Desk(claimRefs: set<ClaimRef>, slots: seq<Slot>, supervisor: E.Record, limits: Limits, history: seq<Claim>)

  predicate IsActive(status: SlotStatus) {
    status.Claimed? || status.InProgress? || status.Blocked? || status.SubmittedForReview? ||
    status.ChangesRequested? || status.Approved?
  }

  predicate IsDone(status: SlotStatus) {
    status.Merged? || status.Completed?
  }

  predicate IsLive(lease: LeaseStatus) {
    lease.ActiveLease? || lease.Expired? || lease.Orphaned?
  }

  function Transitions(status: SlotStatus): set<SlotStatus> {
    match status
    case Free => {Claimed, Canceled}
    case Claimed => {InProgress, Free, Blocked, Canceled}
    case InProgress => {Blocked, SubmittedForReview, Canceled}
    case Blocked => {InProgress, Free, Canceled}
    case SubmittedForReview => {ChangesRequested, Approved, Canceled}
    case ChangesRequested => {InProgress, SubmittedForReview, Canceled}
    case Approved => {Merged, ChangesRequested}
    case Merged => {Completed}
    case Completed => {}
    case Canceled => {}
  }

  // ---- Picking a slot ----

  predicate StringBefore(a: string, b: string) {
    b != "" && (a == "" || a[0] < b[0] || (a[0] == b[0] && StringBefore(a[1..], b[1..])))
  }

  lemma {:induction false} StringOrder(a: string, b: string, c: string)
    ensures !StringBefore(a, a)
    ensures StringBefore(a, b) && StringBefore(b, c) ==> StringBefore(a, c)
    ensures !StringBefore(a, b) && !StringBefore(b, c) ==> !StringBefore(a, c)
    decreases |a| + |b| + |c|
  {
    if a != "" {
      StringOrder(a[1..], if b != "" then b[1..] else "", if c != "" then c[1..] else "");
    }
  }

  function CompletedUnits(slots: seq<Slot>): set<string> {
    set i | 0 <= i < |slots| && IsDone(slots[i].status) && slots[i].workUnit.Some? :: slots[i].workUnit.value
  }

  predicate DependencyReady(slot: Slot, slots: seq<Slot>) {
    slot.dependencies <= CompletedUnits(slots)
  }

  predicate IsCandidate(slot: Slot, slots: seq<Slot>, requested: Option<string>) {
    slot.status.Free? && DependencyReady(slot, slots) && (requested.None? || slot.id == requested.value)
  }

  /** Higher priority first, then the smaller id. */
  predicate Precedes(a: Slot, b: Slot) {
    a.priority > b.priority || (a.priority == b.priority && StringBefore(a.id, b.id))
  }

  lemma PrecedesOrder(a: Slot, b: Slot, c: Slot)
    ensures !Precedes(a, a)
    ensures !Precedes(a, b) && !Precedes(b, c) ==> !Precedes(a, c)
    ensures Precedes(a, b) && Precedes(b, c) ==> Precedes(a, c)
  {
    StringOrder(a.id, b.id, c.id);
    StringOrder(a.id, a.id, a.id);
  }

  /** The first of the candidates among `slots[..n]` in claim order. */
  function BestSlot(slots: seq<Slot>, requested: Option<string>, n: nat): (r: Option<nat>)
    requires n <= |slots|
    ensures r.Some? ==> r.value < n && IsCandidate(slots[r.value], slots, requested)
    ensures r.None? ==> forall k :: 0 <= k < n ==> !IsCandidate(slots[k], slots, requested)
  {
    if n == 0 then None
    else
      var before := BestSlot(slots, requested, n - 1);
      if !IsCandidate(slots[n - 1], slots, requested) then before
      else if before.None? || Precedes(slots[n - 1], slots[before.value]) then Some(n - 1)
      else before
  }

  /** `a` is a proper prefix of `b`, or the first character in which they differ is the smaller one. */
  ghost predicate FirstDifferenceSmaller(a: string, b: string) {
    exists n: nat :: n <= |a| && n < |b| && a[..n] == b[..n] && (n == |a| || a[n] < b[n])
  }

  lemma {:induction false} StringBeforeMeans(a: string, b: string)
    ensures StringBefore(a, b) <==> FirstDifferenceSmaller(a, b)
    decreases |a|
  {
    if a != "" && b != "" && a[0] == b[0] {
      var s, t := a[1..], b[1..];
      StringBeforeMeans(s, t);
      if FirstDifferenceSmaller(s, t) {
        var n: nat :| n <= |s| && n < |t| && s[..n] == t[..n] && (n == |s| || s[n] < t[n]);
        assert a[..n + 1] == [a[0]] + s[..n] && b[..n + 1] == [b[0]] + t[..n];
        assert n + 1 == |a| || a[n + 1] < b[n + 1];
      }
      if FirstDifferenceSmaller(a, b) {
        var n: nat :| n <= |a| && n < |b| && a[..n] == b[..n] && (n == |a| || a[n] < b[n]);
        assert n > 0;
        assert s[..n - 1] == a[..n][1..] && t[..n - 1] == b[..n][1..];
        assert n - 1 == |s| || s[n - 1] < t[n - 1];
      }
    } else if StringBefore(a, b) {
      assert a[..0] == b[..0];
    } else {
      assert forall n: nat :: 0 < n <= |a| && n < |b| ==> a[..n][0] == a[0] && b[..n][0] == b[0];
    }
  }

  /** The unit's work is merged. */
  predicate DoneFor(slot: Slot, unit: string) {
    slot.workUnit == Some(unit) && (slot.status.Merged? || slot.status.Completed?)
  }

  /** The slot that is picked is a dependency-satisfied free slot that no other has a higher priority than, and
      no other of its priority a smaller id. */
  lemma PickedIsFirst(slots: seq<Slot>, requested: Option<string>, k: nat)
    requires k < |slots| && IsCandidate(slots[k], slots, requested)
    ensures BestSlot(slots, requested, |slots|).Some?
    ensures var best := slots[BestSlot(slots, requested, |slots|).value];
      best.status.Free? && best.priority >= slots[k].priority &&
      (forall unit :: unit in best.dependencies ==> exists m :: 0 <= m < |slots| && DoneFor(slots[m], unit)) &&
      (best.priority == slots[k].priority ==> !FirstDifferenceSmaller(slots[k].id, best.id))
  {
    BestIsFirst(slots, requested, |slots|, k);
    var best := slots[BestSlot(slots, requested, |slots|).value];
    StringBeforeMeans(slots[k].id, best.id);
    forall unit | unit in best.dependencies ensures exists m :: 0 <= m < |slots| && DoneFor(slots[m], unit) {
      assert unit in CompletedUnits(slots);
      var m :| 0 <= m < |slots| && IsDone(slots[m].status) && slots[m].workUnit.Some? && slots[m].workUnit.value == unit;
      assert DoneFor(slots[m], unit);
    }
  }

  lemma {:induction false} BestIsFirst(slots: seq<Slot>, requested: Option<string>, n: nat, k: nat)
    requires n <= |slots| && k < n && IsCandidate(slots[k], slots, requested)
    ensures BestSlot(slots, requested, n).Some? && !Precedes(slots[k], slots[BestSlot(slots, requested, n).value])
  {
    var best := BestSlot(slots, requested, n).value;
    if k == n - 1 {
      PrecedesOrder(slots[k], slots[k], slots[k]);
    } else {
      BestIsFirst(slots, requested, n - 1, k);
      var before := BestSlot(slots, requested, n - 1).value;
      PrecedesOrder(slots[best], slots[k], slots[before]);
      PrecedesOrder(slots[k], slots[best], slots[before]);
    }
  }

  function ActiveCount(slots: seq<Slot>): nat {
    if slots == [] then 0
    else ActiveCount(slots[..|slots| - 1]) + (if IsActive(slots[|slots| - 1].status) then 1 else 0)
  }

  // ---- Commands, as functions of the shared state ----

  /** How the part of a claim after its ref ends: the queue is written, the write fails and the ref is
      given back, or the ref stays behind (the rollback fails, or the process dies). */
  datatype Ending = Persisted | RolledBack | LeftBehind

  datatype ClaimInput =
    ClaimInput(requested: Option<string>, agent: string, identity: Option<string>, lease: string, minutes: int, handoffValid: bool, authorized: bool)

  datatype CommandError =
    | NoValidSlot | CostLimitsUnset | ParallelBudgetReached | DepthExceeded | NoLiveSupervisor | HandoffInvalid
    | NotAuthorized | ClaimLost | PersistenceFailed
    | UnknownSlot | NotOwner | TokenMismatch | StaleEpoch | LeaseNotActive | LeaseExpired | IdentityChanged
    | FencingFailed | NotReleasable | DeletionFailed | NotCoordinationRef | ActiveElectionRef | RefStillHeld
    | CasMismatch | IllegalTransition

  /** The guards of a claim before its ref. */
  function ClaimGuards(d: Desk, now: nat, input: ClaimInput): (r: Result<nat, CommandError>)
    ensures r.Ok? ==> r.value < |d.slots| && d.slots[r.value].workUnit.Some? && IsCandidate(d.slots[r.value], d.slots, input.requested)
  {
    var picked := BestSlot(d.slots, input.requested, |d.slots|);
    if picked.None? then Err(NoValidSlot)
    else
      var slot := d.slots[picked.value];
      if !d.limits.costLimitsSet then Err(CostLimitsUnset)
      else if ActiveCount(d.slots) >= d.limits.maxParallel then Err(ParallelBudgetReached)
      else if slot.depth > d.limits.maxDepth then Err(DepthExceeded)
      else if !E.Live(d.supervisor, now) then Err(NoLiveSupervisor)
      else if slot.workUnit.None? || !input.handoffValid then Err(HandoffInvalid)
      else if !input.authorized then Err(NotAuthorized)
      else Ok(picked.value)
  }

  /** A claim gets past its ref exactly when the guards pass and nobody holds the ref. */
  function ClaimCheck(d: Desk, now: nat, input: ClaimInput): Result<nat, CommandError> {
    var guarded := ClaimGuards(d, now, input);
    if guarded.Ok? && ClaimRef(d.supervisor.epoch, d.slots[guarded.value].id) in d.claimRefs then Err(ClaimLost) else guarded
  }

  function ClaimedSlot(slot: Slot, epoch: nat, now: nat, input: ClaimInput): Slot {
    slot.(status := Claimed, leaseStatus := ActiveLease, claimRef := Some(ClaimRef(epoch, slot.id)),
          claimant := Some(input.agent), identity := input.identity, claimId := Some(input.lease), epoch := Some(epoch),
          token := Some(WorkerToken(epoch, input.lease)), expires := Some(now + E.LeaseMinutes(input.minutes)))
  }

  function AfterClaim(d: Desk, now: nat, input: ClaimInput, ending: Ending): (Desk, Option<CommandError>) {
    var checked := ClaimCheck(d, now, input);
    if checked.Err? then (d, Some(checked.error))
    else
      var slot := d.slots[checked.value];
      var held := d.claimRefs + {ClaimRef(d.supervisor.epoch, slot.id)};
      match ending
      case RolledBack => (d, Some(PersistenceFailed))
      case LeftBehind => (d.(claimRefs := held), Some(PersistenceFailed))
      case Persisted =>
        (d.(claimRefs := held, slots := d.slots[checked.value := ClaimedSlot(slot, d.supervisor.epoch, now, input)],
            history := d.history + [Claim(slot.workUnit.value, slot.dependencies)]), None)
  }

  /** `find_slot`: the first slot of that id. */
  function FindSlot(slots: seq<Slot>, id: string): (r: Option<nat>)
    ensures r.Some? ==> r.value < |slots| && slots[r.value].id == id
    ensures r.None? ==> forall k :: 0 <= k < |slots| ==> slots[k].id != id
  {
    if slots == [] then None
    else if slots[0].id == id then Some(0)
    else
      var later := FindSlot(slots[1..], id);
      if later.None? then None else Some(later.value + 1)
  }

  datatype Beat = Beat(slotId: string, agent: string, identity: Option<string>, token: WorkerToken, minutes: int)

  function BeatCheck(slot: Slot, supervisor: E.Record, now: nat, beat: Beat): Option<CommandError> {
    if !E.Live(supervisor, now) then Some(NoLiveSupervisor)
    else if slot.claimant != Some(beat.agent) then Some(NotOwner)
    else if slot.token != Some(beat.token) then Some(TokenMismatch)
    else if slot.epoch != Some(supervisor.epoch) then Some(StaleEpoch)
    else if !slot.leaseStatus.ActiveLease? then Some(LeaseNotActive)
    else if slot.expires.None? || slot.expires.value <= now then Some(LeaseExpired)
    else if slot.identity != beat.identity then Some(IdentityChanged)
    else None
  }

  function AfterBeat(d: Desk, now: nat, beat: Beat): (Desk, Option<CommandError>) {
    var found := FindSlot(d.slots, beat.slotId);
    if found.None? then (d, Some(UnknownSlot))
    else
      var slot := d.slots[found.value];
      var problem := BeatCheck(slot, d.supervisor, now, beat);
      if problem.Some? then (d, problem)
      else (d.(slots := d.slots[found.value := slot.(expires := Some(now + E.LeaseMinutes(beat.minutes)))]), None)
  }

  /** Who commands, as the fencing check sees it. */
  datatype Fence = Fence(epoch: nat, token: E.Token, agent: string)

  predicate Passes(d: Desk, now: nat, fence: Fence) {
    E.Verifies(d.supervisor, now, fence.epoch, fence.token, fence.agent)
  }

  datatype Disposition = Release | Reopen

  function ReleasedSlot(slot: Slot, disposition: Disposition): Slot {
    match disposition
    case Release => slot.(status := Canceled, leaseStatus := ReleasedLease)
    case Reopen =>
      slot.(status := Free, leaseStatus := Recovered, claimRef := None, claimant := None, identity := None, claimId := None,
            epoch := None, token := None, expires := None)
  }

  function AfterRelease(d: Desk, now: nat, fence: Fence, slotId: string, disposition: Disposition, unlock: bool,
                        deletionWorks: bool): (Desk, Option<CommandError>)
  {
    var found := FindSlot(d.slots, slotId);
    if !Passes(d, now, fence) then (d, Some(FencingFailed))
    else if found.None? then (d, Some(UnknownSlot))
    else if !IsLive(d.slots[found.value].leaseStatus) then (d, Some(NotReleasable))
    else
      var slot := d.slots[found.value];
      if unlock && slot.claimRef.Some? && !deletionWorks then (d, Some(DeletionFailed))
      else
        (d.(claimRefs := if unlock && slot.claimRef.Some? then d.claimRefs - {slot.claimRef.value} else d.claimRefs,
            slots := d.slots[found.value := ReleasedSlot(slot, disposition)]), None)
  }

  /** A ref name as recovery is given it. */
  datatype NamedRef = ClaimsRef(ref: ClaimRef) | SupervisorRef(epoch: nat) | OtherRef(text: string)

  predicate HeldBySome(slots: seq<Slot>, ref: ClaimRef) {
    exists i :: 0 <= i < |slots| && slots[i].claimRef == Some(ref) && IsLive(slots[i].leaseStatus)
  }

  function AfterRecover(d: Desk, now: nat, fence: Fence, named: NamedRef, deletionWorks: bool): (Desk, Option<CommandError>) {
    if !Passes(d, now, fence) then (d, Some(FencingFailed))
    else if named.OtherRef? then (d, Some(NotCoordinationRef))
    else if named.SupervisorRef? && d.supervisor.electionRef == Some(named.epoch) then (d, Some(ActiveElectionRef))
    else if named.ClaimsRef? && HeldBySome(d.slots, named.ref) then (d, Some(RefStillHeld))
    else if !deletionWorks then (d, Some(DeletionFailed))
    else (if named.ClaimsRef? then d.(claimRefs := d.claimRefs - {named.ref}) else d, None)
  }

  // ---- The mutation gateway ----

  /** The queue by slot id, the last entry of an id winning. */
  function ById(slots: seq<Slot>): map<string, Slot> {
    if slots == [] then map[]
    else ById(slots[..|slots| - 1])[slots[|slots| - 1].id := slots[|slots| - 1]]
  }

  predicate RowAllowed(before: Slot, after: Slot) {
    (before.status != after.status ==> after.status in Transitions(before.status)) &&
    (IsActive(before.status) ==>
      before.claimant == after.claimant && before.claimId == after.claimId && before.epoch == after.epoch &&
      before.token == after.token)
  }

  predicate TransitionsAllowed(before: map<string, Slot>, after: map<string, Slot>) {
    forall id :: id in before ==> id in after && RowAllowed(before[id], after[id])
  }

  function AfterMutation(d: Desk, now: nat, fence: Fence, expected: seq<Slot>, slots: seq<Slot>): (Desk, Option<CommandError>) {
    if !Passes(d, now, fence) then (d, Some(FencingFailed))
    else if d.slots != expected then (d, Some(CasMismatch))
    else if !TransitionsAllowed(ById(d.slots), ById(slots)) then (d, Some(IllegalTransition))
    else (d.(slots := slots), None)
  }

  // ---- The commands ----

  /** The shared refs and files. `history` is only for stating properties. */
  class CoordinationDesk {
    var claimRefs: set<ClaimRef>
    var slots: seq<Slot>
    var supervisor: E.Record
    const limits: Limits
    ghost var history: seq<Claim>

    ghost function Snapshot(): Desk
      reads this
    {
      Desk(claimRefs, slots, supervisor, limits, history)
    }

    method CreateRef(ref: ClaimRef) returns (won: bool)
      modifies this`claimRefs
      ensures won <==> ref !in old(claimRefs)
      ensures claimRefs == old(claimRefs) + {ref}
    {
      won := ref !in claimRefs;
      if won { claimRefs := claimRefs + {ref}; }
    }

    method EnforceBudgets(slot: Slot) returns (e: Option<CommandError>)
      ensures e.None? <==> limits.costLimitsSet && ActiveCount(slots) < limits.maxParallel && slot.depth <= limits.maxDepth
      ensures e.Some? ==> e.value == (if !limits.costLimitsSet then CostLimitsUnset
        else if ActiveCount(slots) >= limits.maxParallel then ParallelBudgetReached else DepthExceeded)
    {
      if !limits.costLimitsSet { return Some(CostLimitsUnset); }
      if ActiveCount(slots) >= limits.maxParallel { return Some(ParallelBudgetReached); }
      if slot.depth > limits.maxDepth { return Some(DepthExceeded); }
      return None;
    }

    method ClaimSlot(now: nat, input: ClaimInput, ending: Ending) returns (e: Option<CommandError>)
      modifies this
      ensures (Snapshot(), e) == AfterClaim(old(Snapshot()), now, input, ending)
    {
      var picked := BestSlot(slots, input.requested, |slots|);
      if picked.None? { return Some(NoValidSlot); }
      var slot := slots[picked.value];
      var budget := EnforceBudgets(slot);
      if budget.Some? { return budget; }
      if !E.Live(supervisor, now) { return Some(NoLiveSupervisor); }
      if slot.workUnit.None? || !input.handoffValid { return Some(HandoffInvalid); }
      if !input.authorized { return Some(NotAuthorized); }
      var epoch := supervisor.epoch;
      var before := claimRefs;
      var won := CreateRef(ClaimRef(epoch, slot.id));
      if !won {
        assert claimRefs == before;
        return Some(ClaimLost);
      }
      match ending
      case RolledBack =>
        claimRefs := claimRefs - {ClaimRef(epoch, slot.id)};
        assert claimRefs == before;
        return Some(PersistenceFailed);
      case LeftBehind => return Some(PersistenceFailed);
      case Persisted =>
        slots := slots[picked.value := ClaimedSlot(slot, epoch, now, input)];
        history := history + [Claim(slot.workUnit.value, slot.dependencies)];
        return None;
    }

    method WorkerHeartbeat(now: nat, beat: Beat) returns (e: Option<CommandError>)
      modifies this`slots
      ensures (Snapshot(), e) == AfterBeat(old(Snapshot()), now, beat)
    {
      var found := FindSlot(slots, beat.slotId);
      if found.None? { return Some(UnknownSlot); }
      var slot := slots[found.value];
      if !E.Live(supervisor, now) { return Some(NoLiveSupervisor); }
      if slot.claimant != Some(beat.agent) { return Some(NotOwner); }
      if slot.token != Some(beat.token) { return Some(TokenMismatch); }
      if slot.epoch != Some(supervisor.epoch) { return Some(StaleEpoch); }
      if slot.leaseStatus != ActiveLease { return Some(LeaseNotActive); }
      if slot.expires.None? || slot.expires.value <= now { return Some(LeaseExpired); }
      if slot.identity != beat.identity { return Some(IdentityChanged); }
      slots := slots[found.value := slot.(expires := Some(now + E.LeaseMinutes(beat.minutes)))];
      return None;
    }

    method WorkerRelease(now: nat, fence: Fence, slotId: string, disposition: Disposition, unlock: bool, deletionWorks: bool)
      returns (e: Option<CommandError>)
      modifies this`slots, this`claimRefs
      ensures (Snapshot(), e) == AfterRelease(old(Snapshot()), now, fence, slotId, disposition, unlock, deletionWorks)
    {
      if !E.Verifies(supervisor, now, fence.epoch, fence.token, fence.agent) { return Some(FencingFailed); }
      var found := FindSlot(slots, slotId);
      if found.None? { return Some(UnknownSlot); }
      var slot := slots[found.value];
      if !IsLive(slot.leaseStatus) { return Some(NotReleasable); }
      if unlock && slot.claimRef.Some? {
        if !deletionWorks { return Some(DeletionFailed); }
        claimRefs := claimRefs - {slot.claimRef.value};
      }
      slots := slots[found.value := ReleasedSlot(slot, disposition)];
      return None;
    }

    method RecoverRef(now: nat, fence: Fence, named: NamedRef, deletionWorks: bool) returns (e: Option<CommandError>)
      modifies this`claimRefs
      ensures (Snapshot(), e) == AfterRecover(old(Snapshot()), now, fence, named, deletionWorks)
    {
      if !E.Verifies(supervisor, now, fence.epoch, fence.token, fence.agent) { return Some(FencingFailed); }
      if named.OtherRef? { return Some(NotCoordinationRef); }
      if named.SupervisorRef? && supervisor.electionRef == Some(named.epoch) { return Some(ActiveElectionRef); }
      if named.ClaimsRef? {
        for i := 0 to |slots|
          invariant claimRefs == old(claimRefs)
          invariant forall k :: 0 <= k < i ==> !(slots[k].claimRef == Some(named.ref) && IsLive(slots[k].leaseStatus))
        {
          if slots[i].claimRef == Some(named.ref) && IsLive(slots[i].leaseStatus) { return Some(RefStillHeld); }
        }
      }
      if !deletionWorks { return Some(DeletionFailed); }
      if named.ClaimsRef? { claimRefs := claimRefs - {named.ref}; }
      return None;
    }

    /** The gateway's replacement of the queue file. */
    method MutateQueue(now: nat, fence: Fence, expected: seq<Slot>, replacement: seq<Slot>) returns (e: Option<CommandError>)
      modifies this`slots
      ensures (Snapshot(), e) == AfterMutation(old(Snapshot()), now, fence, expected, replacement)
    {
      if !E.Verifies(supervisor, now, fence.epoch, fence.token, fence.agent) { return Some(FencingFailed); }
      if slots != expected { return Some(CasMismatch); }
      var allowed := ValidateQueueTransitions(slots, replacement);
      if !allowed { return Some(IllegalTransition); }
      slots := replacement;
      return None;
    }
  }

  method IndexById(slots: seq<Slot>) returns (m: map<string, Slot>)
    ensures m == ById(slots)
  {
    m := map[];
    for i := 0 to |slots|
      invariant m == ById(slots[..i])
    {
      assert slots[..i + 1][..i] == slots[..i];
      m := m[slots[i].id := slots[i]];
    }
    assert slots[..|slots|] == slots;
  }

  method ValidateQueueTransitions(previous: seq<Slot>, current: seq<Slot>) returns (ok: bool)
    ensures ok <==> TransitionsAllowed(ById(previous), ById(current))
  {
    var before := IndexById(previous);
    var after := IndexById(current);
    if !(before.Keys <= after.Keys) { return false; }
    var left := before.Keys;
    while left != {}
      invariant left <= before.Keys
      invariant forall id :: id in before && id !in left ==> RowAllowed(before[id], after[id])
      decreases |left|
    {
      var id :| id in left;
      if !RowAllowed(before[id], after[id]) { return false; }
      left := left - {id};
    }
    return true;
  }

  // ---- Whose a slot is ----

  lemma {:induction false} FindSlotKept(slots: seq<Slot>, i: nat, slot: Slot, id: string)
    requires i < |slots| && slot.id == slots[i].id
    ensures FindSlot(slots[i := slot], id) == FindSlot(slots, id)
  {
    if i > 0 {
      FindSlotKept(slots[1..], i - 1, slot, id);
      assert slots[i := slot][1..] == slots[1..][i - 1 := slot];
    } else {
      assert slots[i := slot][1..] == slots[1..];
    }
  }

  lemma {:induction false} FindSlotAt(slots: seq<Slot>, i: nat)
    requires DistinctIds(slots) && i < |slots|
    ensures FindSlot(slots, slots[i].id) == Some(i)
  {
    if i > 0 { FindSlotAt(slots[1..], i - 1); }
  }

  /** At whatever time and under whatever Supervisor, a heartbeat for the slot is taken exactly from this agent
      with this identity evidence and token, under a live Supervisor of this epoch, before `end`. */
  ghost predicate HeldBy(d: Desk, slotId: string, agent: string, identity: Option<string>, token: WorkerToken, epoch: nat, end: int) {
    forall supervisor, t: nat, beat: Beat :: beat.slotId == slotId ==>
      (AfterBeat(d.(supervisor := supervisor), t, beat).1.None? <==>
        E.Live(supervisor, t) && supervisor.epoch == epoch && beat.agent == agent && beat.token == token &&
        beat.identity == identity && t < end)
  }

  /** Nobody's heartbeat for the slot is taken. */
  ghost predicate HeldByNobody(d: Desk, slotId: string) {
    forall supervisor, t: nat, beat: Beat :: beat.slotId == slotId ==> AfterBeat(d.(supervisor := supervisor), t, beat).1.Some?
  }

  /** A won claim leaves a candidate slot, and only that, to the claiming agent under the token of the lease it
      was given, for the minutes asked and at least five; its ref is the epoch's for that slot. The token is
      good for no other slot. */
  lemma WonClaimIsHeld(d: Desk, now: nat, input: ClaimInput) returns (i: nat)
    requires DistinctIds(d.slots) && AfterClaim(d, now, input, Persisted).1.None?
    ensures i < |d.slots| && d.slots[i].status.Free? && (input.requested.Some? ==> d.slots[i].id == input.requested.value)
    ensures var after, token := AfterClaim(d, now, input, Persisted).0, WorkerToken(d.supervisor.epoch, input.lease);
      HeldBy(after, d.slots[i].id, input.agent, input.identity, token, d.supervisor.epoch, if input.minutes < 5 then now + 5 else now + input.minutes)
    ensures var after, ref := AfterClaim(d, now, input, Persisted).0, ClaimRef(d.supervisor.epoch, d.slots[i].id);
      && ref !in d.claimRefs && after.claimRefs == d.claimRefs + {ref} && |after.slots| == |d.slots|
      && (forall k :: 0 <= k < |d.slots| && k != i ==> after.slots[k] == d.slots[k])
      && after.slots[i].status.Claimed? && after.slots[i].leaseStatus.ActiveLease? && after.slots[i].claimRef == Some(ref)
      && after.slots[i].claimId == Some(input.lease) && SameWork(d.slots[i], after.slots[i])
    ensures var after, token := AfterClaim(d, now, input, Persisted).0, WorkerToken(d.supervisor.epoch, input.lease);
      (forall k :: 0 <= k < |d.slots| ==> d.slots[k].token != Some(token)) ==>
        forall supervisor, t: nat, beat: Beat :: beat.token == token && beat.slotId != d.slots[i].id ==>
          AfterBeat(after.(supervisor := supervisor), t, beat).1.Some?
  {
    i := ClaimCheck(d, now, input).value;
    ClaimIsHeld(d, now, input, i);
  }

  lemma ClaimIsHeld(d: Desk, now: nat, input: ClaimInput, i: nat)
    requires DistinctIds(d.slots) && ClaimCheck(d, now, input) == Ok(i) && i < |d.slots|
    requires AfterClaim(d, now, input, Persisted).1.None?
    ensures var after, token := AfterClaim(d, now, input, Persisted).0, WorkerToken(d.supervisor.epoch, input.lease);
      HeldBy(after, d.slots[i].id, input.agent, input.identity, token, d.supervisor.epoch, if input.minutes < 5 then now + 5 else now + input.minutes)
    ensures var after, token := AfterClaim(d, now, input, Persisted).0, WorkerToken(d.supervisor.epoch, input.lease);
      (forall k :: 0 <= k < |d.slots| ==> d.slots[k].token != Some(token)) ==>
        forall supervisor, t: nat, beat: Beat :: beat.token == token && beat.slotId != d.slots[i].id ==>
          AfterBeat(after.(supervisor := supervisor), t, beat).1.Some?
  {
    hide ClaimCheck;
    var after := AfterClaim(d, now, input, Persisted).0;
    FindSlotAt(d.slots, i);
    forall id ensures FindSlot(after.slots, id) == FindSlot(d.slots, id) {
      FindSlotKept(d.slots, i, after.slots[i], id);
    }
    hide FindSlot;
  }

  /** Exactly when a claim that is written wins: there is a free slot to pick, the budgets leave room, a
      Supervisor is live, the handoff and the authorization hold, and nobody has the epoch's ref for the slot. */
  lemma ClaimWinsExactly(d: Desk, now: nat, input: ClaimInput)
    ensures AfterClaim(d, now, input, Persisted).1.None? <==>
      var best := BestSlot(d.slots, input.requested, |d.slots|);
      best.Some? && d.limits.costLimitsSet && ActiveCount(d.slots) < d.limits.maxParallel &&
      d.slots[best.value].depth <= d.limits.maxDepth && E.Live(d.supervisor, now) && d.slots[best.value].workUnit.Some? &&
      input.handoffValid && input.authorized && ClaimRef(d.supervisor.epoch, d.slots[best.value].id) !in d.claimRefs
    ensures AfterClaim(d, now, input, RolledBack).0 == d
    ensures var left := AfterClaim(d, now, input, LeftBehind).0; left == d.(claimRefs := left.claimRefs)
  {
  }

  /** What the slot is for. */
  predicate SameWork(a: Slot, b: Slot) {
    a.id == b.id && a.workUnit == b.workUnit && a.dependencies == b.dependencies && a.priority == b.priority && a.depth == b.depth
  }

  /** A heartbeat that is taken moves the end of that lease and changes nothing else. */
  lemma BeatMovesTheEnd(d: Desk, now: nat, beat: Beat) returns (i: nat)
    requires AfterBeat(d, now, beat).1.None?
    ensures var after := AfterBeat(d, now, beat).0;
      && i < |d.slots| && d.slots[i].id == beat.slotId
      && HeldBy(after, beat.slotId, beat.agent, beat.identity, beat.token, d.supervisor.epoch, if beat.minutes < 5 then now + 5 else now + beat.minutes)
      && after == d.(slots := after.slots) && after.slots == d.slots[i := d.slots[i].(expires := after.slots[i].expires)]
  {
    i := FindSlot(d.slots, beat.slotId).value;
    var after := AfterBeat(d, now, beat).0;
    FindSlotKept(d.slots, i, after.slots[i], beat.slotId);
    hide FindSlot;
  }

  /** A release ends the lease at once: the slot is canceled, or free again and claimed by nobody; its ref is
      gone exactly when the unlock was asked for. */
  lemma ReleaseEndsTheLease(d: Desk, now: nat, fence: Fence, slotId: string, disposition: Disposition, unlock: bool, works: bool)
    returns (i: nat)
    requires AfterRelease(d, now, fence, slotId, disposition, unlock, works).1.None?
    ensures var after := AfterRelease(d, now, fence, slotId, disposition, unlock, works).0;
      && i < |d.slots| && d.slots[i].id == slotId && |after.slots| == |d.slots|
      && HeldByNobody(after, slotId) && !IsLive(after.slots[i].leaseStatus) && SameWork(d.slots[i], after.slots[i])
      && (forall k :: 0 <= k < |d.slots| && k != i ==> after.slots[k] == d.slots[k])
      && (disposition.Release? ==> after.slots[i].status.Canceled?)
      && (disposition.Reopen? ==> after.slots[i].status.Free? && after.slots[i].claimRef.None? && after.slots[i].claimant.None?)
      && (forall ref :: ref in after.claimRefs <==> ref in d.claimRefs && !(unlock && d.slots[i].claimRef == Some(ref)))
  {
    i := FindSlot(d.slots, slotId).value;
    var after := AfterRelease(d, now, fence, slotId, disposition, unlock, works).0;
    FindSlotKept(d.slots, i, after.slots[i], slotId);
    hide FindSlot;
  }

  // ---- What every run keeps ----

  datatype Step =
    | DoClaim(now: nat, input: ClaimInput, ending: Ending)
    | DoBeat(now: nat, beat: Beat)
    | DoRelease(now: nat, fence: Fence, slotId: string, disposition: Disposition, unlock: bool, deletionWorks: bool)
    | DoRecover(now: nat, fence: Fence, named: NamedRef, deletionWorks: bool)
    | DoMutate(now: nat, fence: Fence, expected: seq<Slot>, replacement: seq<Slot>)
    | Supervise(record: E.Record)

  /** A gateway replacement that leaves claims to the claim command: every slot, in whatever order, is an
      earlier one with the same work, not activated and with no live lease or claim ref made up, or is new
      and unclaimed. */
  predicate LeavesClaims(previous: seq<Slot>, current: seq<Slot>) {
    DistinctIds(current) && forall i :: 0 <= i < |current| ==> NewOrLeft(previous, current[i])
  }

  predicate NewOrLeft(previous: seq<Slot>, slot: Slot) {
    Unclaimed(slot) || exists j :: 0 <= j < |previous| && SlotLeavesClaims(previous[j], slot)
  }

  predicate Unclaimed(slot: Slot) {
    !IsActive(slot.status) && !IsDone(slot.status) && !IsLive(slot.leaseStatus) && slot.claimRef.None?
  }

  predicate SlotLeavesClaims(a: Slot, b: Slot) {
    b.id == a.id && b.workUnit == a.workUnit && b.dependencies == a.dependencies &&
    (IsActive(b.status) ==> IsActive(a.status)) &&
    (b.claimRef.Some? ==> b.claimRef == a.claimRef) &&
    (IsLive(b.leaseStatus) ==> IsLive(a.leaseStatus) && b.claimRef == a.claimRef)
  }

  predicate Admissible(d: Desk, step: Step) {
    step.DoMutate? ==> LeavesClaims(step.expected, step.replacement)
  }

  function Next(d: Desk, step: Step): Desk {
    match step
    case DoClaim(now, input, ending) => AfterClaim(d, now, input, ending).0
    case DoBeat(now, beat) => AfterBeat(d, now, beat).0
    case DoRelease(now, fence, slotId, disposition, unlock, works) => AfterRelease(d, now, fence, slotId, disposition, unlock, works).0
    case DoRecover(now, fence, named, works) => AfterRecover(d, now, fence, named, works).0
    case DoMutate(now, fence, expected, replacement) => AfterMutation(d, now, fence, expected, replacement).0
    case Supervise(record) => d.(supervisor := record)
  }

  predicate DistinctIds(slots: seq<Slot>) {
    forall i, j :: 0 <= i < j < |slots| ==> slots[i].id != slots[j].id
  }

  /** A slot's claim ref is its own, and while its lease is live the ref exists. */
  predicate Backed(slot: Slot, claimRefs: set<ClaimRef>) {
    (slot.claimRef.Some? ==> slot.claimRef.value.slotId == slot.id) &&
    (IsLive(slot.leaseStatus) ==> slot.claimRef.Some? && slot.claimRef.value in claimRefs)
  }

  predicate AllBacked(slots: seq<Slot>, claimRefs: set<ClaimRef>) {
    forall i :: 0 <= i < |slots| ==> Backed(slots[i], claimRefs)
  }

  predicate WasClaimed(history: seq<Claim>, unit: string) {
    exists k :: 0 <= k < |history| && history[k].unit == unit
  }

  /** A slot that is or was active has its work unit in the history. */
  predicate Recorded(slot: Slot, history: seq<Claim>) {
    IsActive(slot.status) || IsDone(slot.status) ==> slot.workUnit.Some? && WasClaimed(history, slot.workUnit.value)
  }

  predicate AllRecorded(slots: seq<Slot>, history: seq<Claim>) {
    forall i :: 0 <= i < |slots| ==> Recorded(slots[i], history)
  }

  /** Every claim came after claims of all its dependencies. */
  predicate InOrder(history: seq<Claim>) {
    forall k :: 0 <= k < |history| ==> DependenciesBefore(history, k)
  }

  predicate DependenciesBefore(history: seq<Claim>, k: nat)
    requires k < |history|
  {
    forall unit :: unit in history[k].dependencies ==> WasClaimed(history[..k], unit)
  }

  predicate WithinBudget(d: Desk) {
    ActiveCount(d.slots) <= if d.limits.maxParallel > 0 then d.limits.maxParallel else 0
  }

  predicate Inv(d: Desk) {
    DistinctIds(d.slots) && AllBacked(d.slots, d.claimRefs) && AllRecorded(d.slots, d.history) && InOrder(d.history) &&
    WithinBudget(d)
  }

  lemma {:induction false} CountAfter(slots: seq<Slot>, i: nat, slot: Slot)
    requires i < |slots|
    ensures ActiveCount(slots[i := slot]) + (if IsActive(slots[i].status) then 1 else 0)
      == ActiveCount(slots) + (if IsActive(slot.status) then 1 else 0)
  {
    var n := |slots| - 1;
    if i < n {
      CountAfter(slots[..n], i, slot);
      assert slots[i := slot][..n] == slots[..n][i := slot];
    } else {
      assert slots[i := slot][..n] == slots[..n];
    }
  }

  function ActiveIds(slots: seq<Slot>): set<string> {
    set i | 0 <= i < |slots| && IsActive(slots[i].status) :: slots[i].id
  }

  lemma ActiveIdsStep(slots: seq<Slot>, n: nat)
    requires |slots| == n + 1
    ensures ActiveIds(slots) == ActiveIds(slots[..n]) + (if IsActive(slots[n].status) then {slots[n].id} else {})
  {
    forall id | id in ActiveIds(slots[..n]) ensures id in ActiveIds(slots) {
      var i :| 0 <= i < n && IsActive(slots[..n][i].status) && slots[..n][i].id == id;
      assert slots[i].id == id;
    }
    forall id | id in ActiveIds(slots)
      ensures id in ActiveIds(slots[..n]) + (if IsActive(slots[n].status) then {slots[n].id} else {})
    {
      var i :| 0 <= i < |slots| && IsActive(slots[i].status) && slots[i].id == id;
      assert i < n ==> slots[..n][i] == slots[i];
    }
  }

  lemma {:induction false} CountIsIds(slots: seq<Slot>)
    requires DistinctIds(slots)
    ensures ActiveCount(slots) == |ActiveIds(slots)|
  {
    if slots == [] {
      assert ActiveIds(slots) == {};
    } else {
      var n := |slots| - 1;
      CountIsIds(slots[..n]);
      ActiveIdsStep(slots, n);
    }
  }

  lemma CountShrinks(previous: seq<Slot>, current: seq<Slot>)
    requires DistinctIds(previous) && LeavesClaims(previous, current)
    ensures ActiveCount(current) <= ActiveCount(previous)
  {
    CountIsIds(previous);
    CountIsIds(current);
    forall id | id in ActiveIds(current) ensures id in ActiveIds(previous) {
      var i :| 0 <= i < |current| && IsActive(current[i].status) && current[i].id == id;
      assert NewOrLeft(previous, current[i]);
      var j :| 0 <= j < |previous| && SlotLeavesClaims(previous[j], current[i]);
      assert previous[j].id == id;
    }
    SubsetSize(ActiveIds(current), ActiveIds(previous));
  }

  lemma {:induction false} ByIdAt(slots: seq<Slot>, i: nat)
    requires DistinctIds(slots) && i < |slots|
    ensures slots[i].id in ById(slots) && ById(slots)[slots[i].id] == slots[i]
  {
    if i < |slots| - 1 {
      ByIdAt(slots[..|slots| - 1], i);
    }
  }

  lemma HistoryGrows(history: seq<Claim>, claim: Claim, unit: string)
    ensures WasClaimed(history + [claim], unit) <==> WasClaimed(history, unit) || claim.unit == unit
  {
    var longer := history + [claim];
    assert longer[|history|] == claim;
    if WasClaimed(history, unit) {
      var k :| 0 <= k < |history| && history[k].unit == unit;
      assert longer[k].unit == unit;
    }
  }

  lemma OrderGrows(history: seq<Claim>, claim: Claim)
    requires InOrder(history) && forall unit :: unit in claim.dependencies ==> WasClaimed(history, unit)
    ensures InOrder(history + [claim])
  {
    var longer := history + [claim];
    forall k | 0 <= k < |longer| ensures DependenciesBefore(longer, k) {
      if k < |history| {
        assert longer[..k] == history[..k] && DependenciesBefore(history, k);
      } else {
        assert longer[..k] == history;
      }
    }
  }

  /** What counts against the budget: every slot from its claim to its merge. */
  lemma ActiveCountMeans(slots: seq<Slot>)
    requires DistinctIds(slots)
    ensures ActiveCount(slots) == |set i | 0 <= i < |slots| && !slots[i].status.Free? && !slots[i].status.Merged? &&
                                      !slots[i].status.Completed? && !slots[i].status.Canceled? :: slots[i].id|
  {
    CountIsIds(slots);
    forall i | 0 <= i < |slots|
      ensures IsActive(slots[i].status) <==> !slots[i].status.Free? && !slots[i].status.Merged? && !slots[i].status.Completed? && !slots[i].status.Canceled?
    {
    }
    assert ActiveIds(slots) == set i | 0 <= i < |slots| && !slots[i].status.Free? && !slots[i].status.Merged? &&
                                 !slots[i].status.Completed? && !slots[i].status.Canceled? :: slots[i].id;
  }

  lemma ClaimKeepsInv(d: Desk, now: nat, input: ClaimInput, ending: Ending)
    requires Inv(d)
    ensures Inv(AfterClaim(d, now, input, ending).0)
  {
    var checked := ClaimCheck(d, now, input);
    if checked.Ok? {
      var i := checked.value;
      var slot := d.slots[i];
      assert IsCandidate(slot, d.slots, input.requested);
      var claim := Claim(slot.workUnit.value, slot.dependencies);
      forall unit | unit in slot.dependencies ensures WasClaimed(d.history, unit) {
        assert unit in CompletedUnits(d.slots);
        var k :| 0 <= k < |d.slots| && IsDone(d.slots[k].status) && d.slots[k].workUnit == Some(unit);
        assert Recorded(d.slots[k], d.history);
      }
      OrderGrows(d.history, claim);
      CountAfter(d.slots, i, ClaimedSlot(slot, d.supervisor.epoch, now, input));
      var slots := d.slots[i := ClaimedSlot(slot, d.supervisor.epoch, now, input)];
      forall k | 0 <= k < |slots| ensures Recorded(slots[k], d.history + [claim]) {
        assert Recorded(d.slots[k], d.history);
        if d.slots[k].workUnit.Some? { HistoryGrows(d.history, claim, d.slots[k].workUnit.value); }
      }
    }
  }

  lemma BeatKeepsInv(d: Desk, now: nat, beat: Beat)
    requires Inv(d)
    ensures Inv(AfterBeat(d, now, beat).0)
  {
    var found := FindSlot(d.slots, beat.slotId);
    if found.Some? {
      CountAfter(d.slots, found.value, d.slots[found.value].(expires := Some(now + E.LeaseMinutes(beat.minutes))));
    }
  }

  lemma ReleaseKeepsInv(d: Desk, now: nat, fence: Fence, slotId: string, disposition: Disposition, unlock: bool, works: bool)
    requires Inv(d)
    ensures Inv(AfterRelease(d, now, fence, slotId, disposition, unlock, works).0)
  {
    hide E.Verifies;
    hide InOrder;
    var found := FindSlot(d.slots, slotId);
    if found.Some? {
      var i := found.value;
      var slot := d.slots[i];
      var d' := AfterRelease(d, now, fence, slotId, disposition, unlock, works).0;
      CountAfter(d.slots, i, ReleasedSlot(slot, disposition));
      forall k | 0 <= k < |d.slots| ensures Backed(d'.slots[k], d'.claimRefs) {
        assert Backed(d.slots[k], d.claimRefs) && Backed(slot, d.claimRefs);
      }
      forall k | 0 <= k < |d.slots| ensures Recorded(d'.slots[k], d'.history) {
        assert Recorded(d.slots[k], d.history);
      }
    }
  }

  lemma RecoverKeepsInv(d: Desk, now: nat, fence: Fence, named: NamedRef, works: bool)
    requires Inv(d)
    ensures Inv(AfterRecover(d, now, fence, named, works).0)
  {
    var d' := AfterRecover(d, now, fence, named, works).0;
    forall k | 0 <= k < |d.slots| ensures Backed(d'.slots[k], d'.claimRefs) {
      assert Backed(d.slots[k], d.claimRefs);
    }
  }

  lemma MutationKeepsInv(d: Desk, now: nat, fence: Fence, expected: seq<Slot>, replacement: seq<Slot>)
    requires Inv(d) && LeavesClaims(expected, replacement)
    ensures Inv(AfterMutation(d, now, fence, expected, replacement).0)
  {
    var d' := AfterMutation(d, now, fence, expected, replacement).0;
    if d'.slots != d.slots {
      CountShrinks(d.slots, replacement);
      forall k | 0 <= k < |replacement|
        ensures Backed(replacement[k], d.claimRefs) && Recorded(replacement[k], d.history)
      {
        assert NewOrLeft(d.slots, replacement[k]);
        if !Unclaimed(replacement[k]) {
          var j :| 0 <= j < |d.slots| && SlotLeavesClaims(d.slots[j], replacement[k]);
          assert Backed(d.slots[j], d.claimRefs) && Recorded(d.slots[j], d.history);
          ByIdAt(d.slots, j);
          ByIdAt(replacement, k);
          assert RowAllowed(d.slots[j], replacement[k]);
        }
      }
    }
  }

  lemma StepKeepsInv(d: Desk, step: Step)
    requires Inv(d) && Admissible(d, step)
    ensures Inv(Next(d, step))
  {
    match step
    case DoClaim(now, input, ending) => ClaimKeepsInv(d, now, input, ending);
    case DoBeat(now, beat) => BeatKeepsInv(d, now, beat);
    case DoRelease(now, fence, slotId, disposition, unlock, works) =>
      ReleaseKeepsInv(d, now, fence, slotId, disposition, unlock, works);
    case DoRecover(now, fence, named, works) => RecoverKeepsInv(d, now, fence, named, works);
    case DoMutate(now, fence, expected, replacement) => MutationKeepsInv(d, now, fence, expected, replacement);
    case Supervise(_) =>
  }

  predicate AllAdmissible(d: Desk, steps: seq<Step>)
    decreases |steps|
  {
    steps == [] || (Admissible(d, steps[0]) && AllAdmissible(Next(d, steps[0]), steps[1..]))
  }

  function Exec(d: Desk, steps: seq<Step>): Desk
    decreases |steps|
  {
    if steps == [] then d else Exec(Next(d, steps[0]), steps[1..])
  }

  /** A queue nobody has claimed from, with whatever refs are left from earlier. */
  predicate AllFree(d: Desk) {
    DistinctIds(d.slots) && d.history == [] &&
    forall i :: 0 <= i < |d.slots| ==>
      d.slots[i].status.Free? && d.slots[i].leaseStatus.NotAcquired? && d.slots[i].claimRef.None?
  }

  lemma {:induction false} NoneActive(slots: seq<Slot>)
    requires forall i :: 0 <= i < |slots| ==> !IsActive(slots[i].status)
    ensures ActiveCount(slots) == 0
  {
    if slots != [] {
      NoneActive(slots[..|slots| - 1]);
    }
  }

  lemma {:induction false} RunKeepsInv(d: Desk, steps: seq<Step>)
    requires Inv(d) && AllAdmissible(d, steps)
    ensures Inv(Exec(d, steps)) && Exec(d, steps).limits == d.limits
    decreases |steps|
  {
    if steps != [] {
      StepKeepsInv(d, steps[0]);
      RunKeepsInv(Next(d, steps[0]), steps[1..]);
    }
  }

  /** From an unclaimed queue, over every run and whatever elections do meanwhile: a slot with a live
      lease has its claim ref in existence, no two slots share one, the active slots stay within the
      budget, and every unit is claimed after all it depends on. */
  lemma ClaimsAreBacked(d: Desk, steps: seq<Step>)
    requires AllFree(d) && AllAdmissible(d, steps)
    ensures var end := Exec(d, steps);
      (forall i :: 0 <= i < |end.slots| && IsLive(end.slots[i].leaseStatus) ==>
        end.slots[i].claimRef.Some? && end.slots[i].claimRef.value in end.claimRefs) &&
      (forall i, j :: 0 <= i < j < |end.slots| && end.slots[i].claimRef.Some? ==> end.slots[i].claimRef != end.slots[j].claimRef) &&
      ActiveCount(end.slots) <= (if d.limits.maxParallel > 0 then d.limits.maxParallel else 0) &&
      InOrder(end.history)
  {
    NoneActive(d.slots);
    RunKeepsInv(d, steps);
    var end := Exec(d, steps);
    assert forall i :: 0 <= i < |end.slots| ==> Backed(end.slots[i], end.claimRefs);
  }

  /** Work units each of which waits for another of them. */
  predicate Deadlocked(units: set<string>, history: seq<Claim>) {
    forall k :: 0 <= k < |history| && history[k].unit in units ==> history[k].dependencies * units != {}
  }

  /** Nothing on a dependency cycle is ever claimed: if every claim of a unit of the set depends on
      another unit of the set, there is no such claim. */
  lemma {:induction false} CycleNeverClaimed(history: seq<Claim>, units: set<string>, k: nat)
    requires InOrder(history) && Deadlocked(units, history) && k < |history|
    ensures history[k].unit !in units
  {
    if history[k].unit in units {
      var unit :| unit in history[k].dependencies * units;
      assert DependenciesBefore(history, k);
      assert WasClaimed(history[..k], unit);
      var j :| 0 <= j < k && history[..k][j].unit == unit;
      CycleNeverClaimed(history, units, j);
    }
  }

  /** Every slot of a unit of the set waits for some unit of the set. */
  predicate Cyclic(slots: seq<Slot>, units: set<string>) {
    forall i :: 0 <= i < |slots| ==> WaitsWithin(slots[i], units)
  }

  predicate WaitsWithin(slot: Slot, units: set<string>) {
    slot.workUnit.Some? && slot.workUnit.value in units ==> slot.dependencies * units != {}
  }

  /** The slots that gateway replacements add are no way out of the cycle. */
  predicate KeepCyclic(steps: seq<Step>, units: set<string>) {
    forall i :: 0 <= i < |steps| && steps[i].DoMutate? ==> Cyclic(steps[i].replacement, units)
  }

  lemma StepKeepsCycle(d: Desk, step: Step, units: set<string>)
    requires Cyclic(d.slots, units) && Deadlocked(units, d.history)
    requires step.DoMutate? ==> Cyclic(step.replacement, units)
    ensures Cyclic(Next(d, step).slots, units) && Deadlocked(units, Next(d, step).history)
  {
    match step
    case DoClaim(now, input, ending) =>
      var checked := ClaimCheck(d, now, input);
      if checked.Ok? { assert WaitsWithin(d.slots[checked.value], units); }
    case _ =>
  }

  lemma {:induction false} RunKeepsCycle(d: Desk, steps: seq<Step>, units: set<string>)
    requires Cyclic(d.slots, units) && Deadlocked(units, d.history) && KeepCyclic(steps, units)
    ensures Deadlocked(units, Exec(d, steps).history)
    decreases |steps|
  {
    if steps != [] {
      StepKeepsCycle(d, steps[0], units);
      RunKeepsCycle(Next(d, steps[0]), steps[1..], units);
    }
  }

  /** Work that waits for itself is never started: over every run from an unclaimed queue no slot of such
      a unit ever becomes active or done. */
  lemma CyclesNeverStart(d: Desk, steps: seq<Step>, units: set<string>, i: nat)
    requires AllFree(d) && AllAdmissible(d, steps) && Cyclic(d.slots, units) && KeepCyclic(steps, units)
    requires i < |Exec(d, steps).slots|
    requires Exec(d, steps).slots[i].workUnit.Some? && Exec(d, steps).slots[i].workUnit.value in units
    ensures !IsActive(Exec(d, steps).slots[i].status) && !IsDone(Exec(d, steps).slots[i].status)
  {
    var end := Exec(d, steps);
    NoneActive(d.slots);
    RunKeepsInv(d, steps);
    RunKeepsCycle(d, steps, units);
    assert Recorded(end.slots[i], end.history);
    if WasClaimed(end.history, end.slots[i].workUnit.value) {
      var k :| 0 <= k < |end.history| && end.history[k].unit == end.slots[i].workUnit.value;
      CycleNeverClaimed(end.history, units, k);
    }
  }

  // ---- No merge without review ----

  /** From which statuses each one is entered. */
  lemma EnteredFrom(before: SlotStatus, after: SlotStatus)
    ensures after in Transitions(before) <==> match after
      case Free => before.Claimed? || before.Blocked?
      case Claimed => before.Free?
      case InProgress => before.Claimed? || before.Blocked? || before.ChangesRequested?
      case Blocked => before.Claimed? || before.InProgress?
      case SubmittedForReview => before.InProgress? || before.ChangesRequested?
      case ChangesRequested => before.SubmittedForReview? || before.Approved?
      case Approved => before.SubmittedForReview?
      case Merged => before.Approved?
      case Completed => before.Merged?
      case Canceled => !before.Approved? && !IsDone(before) && !before.Canceled?
  {
  }

  function StatusOf(d: Desk, id: string): Option<SlotStatus> {
    if id in ById(d.slots) then Some(ById(d.slots)[id].status) else None
  }

  lemma {:induction false} ByIdFrom(slots: seq<Slot>, id: string) returns (j: nat)
    requires id in ById(slots)
    ensures j < |slots| && slots[j].id == id && ById(slots)[id] == slots[j]
  {
    var n := |slots| - 1;
    if slots[n].id == id { j := n; } else { j := ByIdFrom(slots[..n], id); }
  }

  /** The statuses from approval on. */
  predicate IsPassed(status: Option<SlotStatus>) {
    status == Some(Approved) || status == Some(Merged) || status == Some(Completed)
  }

  predicate Enters(before: Option<SlotStatus>, after: Option<SlotStatus>) {
    before == after ||
    (after == Some(Approved) && before == Some(SubmittedForReview)) ||
    (after == Some(Merged) && before == Some(Approved)) ||
    (after == Some(Completed) && before == Some(Merged))
  }

  lemma StepEnters(d: Desk, step: Step, id: string)
    requires Inv(d) && Admissible(d, step) && IsPassed(StatusOf(Next(d, step), id))
    ensures Enters(StatusOf(d, id), StatusOf(Next(d, step), id))
  {
    var next := Next(d, step);
    StepKeepsInv(d, step);
    var j := ByIdFrom(next.slots, id);
    if next.slots != d.slots && step.DoMutate? {
      hide Enters;
      hide IsPassed;
      hide Inv;
      MutationEnters(d.slots, step.replacement, id, j);
    } else {
      assert next.slots[j].status == d.slots[j].status && d.slots[j].id == id;
      ByIdAt(d.slots, j);
    }
  }

  lemma MutationEnters(previous: seq<Slot>, current: seq<Slot>, id: string, j: nat)
    requires DistinctIds(previous) && LeavesClaims(previous, current) && TransitionsAllowed(ById(previous), ById(current))
    requires j < |current| && current[j].id == id && IsPassed(Some(current[j].status))
    ensures id in ById(previous) && id in ById(current)
    ensures Enters(Some(ById(previous)[id].status), Some(ById(current)[id].status))
  {
    hide ById;
    assert NewOrLeft(previous, current[j]);
    var m :| 0 <= m < |previous| && SlotLeavesClaims(previous[m], current[j]);
    ByIdAt(previous, m);
    ByIdAt(current, j);
    assert RowAllowed(ById(previous)[id], ById(current)[id]);
  }

  /** The state after the first `i` steps. */
  function After(d: Desk, steps: seq<Step>, i: nat): Desk
    requires i <= |steps|
    decreases |steps|
  {
    if i == 0 then d else After(Next(d, steps[0]), steps[1..], i - 1)
  }

  /** Approval comes from review: a run that approves a slot not approved before had it submitted. */
  lemma {:induction false} ApprovalWasReviewed(d: Desk, steps: seq<Step>, n: nat, id: string) returns (i: nat)
    requires Inv(d) && AllAdmissible(d, steps) && n <= |steps|
    requires !IsPassed(StatusOf(d, id)) && IsPassed(StatusOf(After(d, steps, n), id))
    ensures i < n && StatusOf(After(d, steps, i), id) == Some(SubmittedForReview)
    decreases |steps|
  {
    hide Inv;
    hide Next;
    hide Admissible;
    hide StatusOf;
    var next := Next(d, steps[0]);
    if IsPassed(StatusOf(next, id)) {
      StepEnters(d, steps[0], id);
      i := 0;
    } else {
      StepKeepsInv(d, steps[0]);
      var k := ApprovalWasReviewed(next, steps[1..], n - 1, id);
      i := k + 1;
    }
  }

  /** Over every run, whatever the commands: a slot that ends merged or completed and was neither merged,
      completed nor approved at the start was submitted for review and, after that, approved. */
  lemma MergedWasReviewed(d: Desk, steps: seq<Step>, n: nat, id: string) returns (i: nat, j: nat)
    requires Inv(d) && AllAdmissible(d, steps) && n <= |steps| && !IsPassed(StatusOf(d, id))
    requires StatusOf(After(d, steps, n), id) == Some(Merged) || StatusOf(After(d, steps, n), id) == Some(Completed)
    ensures i < j < n
    ensures StatusOf(After(d, steps, i), id) == Some(SubmittedForReview) && StatusOf(After(d, steps, j), id) == Some(Approved)
  {
    j := ApprovalBeforeMerge(d, steps, n, id);
    i := ApprovalWasReviewed(d, steps, j, id);
  }

  lemma {:induction false} ApprovalBeforeMerge(d: Desk, steps: seq<Step>, n: nat, id: string) returns (j: nat)
    requires Inv(d) && AllAdmissible(d, steps) && n <= |steps|
    requires StatusOf(d, id) != Some(Merged) && StatusOf(d, id) != Some(Completed)
    requires StatusOf(After(d, steps, n), id) == Some(Merged) || StatusOf(After(d, steps, n), id) == Some(Completed)
    ensures j < n && StatusOf(After(d, steps, j), id) == Some(Approved)
    decreases |steps|
  {
    hide Inv;
    hide Next;
    hide Admissible;
    hide StatusOf;
    var next := Next(d, steps[0]);
    if StatusOf(next, id) == Some(Merged) || StatusOf(next, id) == Some(Completed) {
      StepEnters(d, steps[0], id);
      j := 0;
    } else {
      StepKeepsInv(d, steps[0]);
      var k := ApprovalBeforeMerge(next, steps[1..], n - 1, id);
      j := k + 1;
    }
  }

  /** Recovery takes at most the ref it names, refuses the active election's, and never takes a claim ref whose
      lease has not ended, be it active, expired or orphaned. */
  lemma RecoverySpares(d: Desk, now: nat, fence: Fence, named: NamedRef, works: bool, i: nat)
    requires Inv(d) && i < |d.slots|
    requires d.slots[i].leaseStatus.ActiveLease? || d.slots[i].leaseStatus.Expired? || d.slots[i].leaseStatus.Orphaned?
    ensures d.slots[i].claimRef.Some? && d.slots[i].claimRef.value in AfterRecover(d, now, fence, named, works).0.claimRefs
    ensures var (after, e) := AfterRecover(d, now, fence, named, works);
      && after == d.(claimRefs := after.claimRefs) && after.claimRefs <= d.claimRefs
      && (forall ref :: ref in d.claimRefs && ref !in after.claimRefs ==> named == ClaimsRef(ref) && e.None?)
      && (named.SupervisorRef? && d.supervisor.electionRef == Some(named.epoch) ==> e.Some?)
  {
    assert Backed(d.slots[i], d.claimRefs);
  }

  /** The gateway leaves the holder of an active slot alone: who claimed it, under which lease, epoch and token. */
  lemma GatewayKeepsHolders(d: Desk, now: nat, fence: Fence, expected: seq<Slot>, replacement: seq<Slot>, i: nat)
    requires DistinctIds(d.slots) && DistinctIds(replacement) && i < |d.slots| && AfterMutation(d, now, fence, expected, replacement).1.None?
    requires !d.slots[i].status.Free? && !IsDone(d.slots[i].status) && !d.slots[i].status.Canceled?
    ensures exists j :: 0 <= j < |replacement| && SameHolder(d.slots[i], replacement[j])
  {
    ByIdAt(d.slots, i);
    var id := d.slots[i].id;
    assert id in ById(replacement) && RowAllowed(d.slots[i], ById(replacement)[id]);
    var j := ByIdFrom(replacement, id);
    assert SameHolder(d.slots[i], replacement[j]);
  }

  predicate SameHolder(a: Slot, b: Slot) {
    a.id == b.id && a.claimant == b.claimant && a.claimId == b.claimId && a.epoch == b.epoch && a.token == b.token
  }

  // ---- Where the protocol falls short ----

  /** A release with the unlock that dies between deleting the ref and writing the queue. */
  function CrashedRelease(d: Desk, slotId: string): Desk {
    var found := FindSlot(d.slots, slotId);
    if found.None? || d.slots[found.value].claimRef.None? then d
    else d.(claimRefs := d.claimRefs - {d.slots[found.value].claimRef.value})
  }

  /** Whenever such a release can happen, dying there leaves a live lease without its ref. */
  lemma CrashedReleaseUnbacks(d: Desk, now: nat, fence: Fence, slotId: string, disposition: Disposition)
    requires Inv(d) && AfterRelease(d, now, fence, slotId, disposition, true, true).1.None?
    ensures var slot := d.slots[FindSlot(d.slots, slotId).value];
      slot.claimRef.Some? && IsLive(slot.leaseStatus) && !Backed(slot, CrashedRelease(d, slotId).claimRefs)
    ensures !AllBacked(CrashedRelease(d, slotId).slots, CrashedRelease(d, slotId).claimRefs)
  {
    var i := FindSlot(d.slots, slotId).value;
    assert Backed(d.slots[i], d.claimRefs);
    assert !Backed(CrashedRelease(d, slotId).slots[i], CrashedRelease(d, slotId).claimRefs);
  }

  /** And it can happen after any claim that is won on an unclaimed queue: the Supervisor releases the slot
      and dies there. */
  lemma CrashHappens(d: Desk, now: nat, input: ClaimInput) returns (claimed: Desk, slotId: string, fence: Fence)
    requires AllFree(d) && ClaimCheck(d, now, input).Ok?
    ensures claimed == Exec(d, [DoClaim(now, input, Persisted)]) && AllAdmissible(d, [DoClaim(now, input, Persisted)])
    ensures Inv(claimed) && AfterRelease(claimed, now, fence, slotId, Release, true, true).1.None?
    ensures !AllBacked(CrashedRelease(claimed, slotId).slots, CrashedRelease(claimed, slotId).claimRefs)
  {
    var step := DoClaim(now, input, Persisted);
    var i := ClaimCheck(d, now, input).value;
    slotId := d.slots[i].id;
    fence := Fence(d.supervisor.epoch, d.supervisor.token, d.supervisor.agent);
    claimed := Next(d, step);
    assert [step][1..] == [] && Exec(claimed, []) == claimed;
    NoneActive(d.slots);
    StepKeepsInv(d, step);
    assert claimed.slots[i].id == slotId;
    assert FindSlot(claimed.slots, slotId) == Some(i);
    CrashedReleaseUnbacks(claimed, now, fence, slotId, Release);
  }

  /** The ref exists and no slot claims it. */
  predicate StandsAlone(d: Desk, ref: ClaimRef) {
    ref in d.claimRefs && forall i :: 0 <= i < |d.slots| ==> d.slots[i].claimRef != Some(ref)
  }

  /** The step recovers the ref. */
  predicate Recovers(d: Desk, step: Step, ref: ClaimRef) {
    step.DoRecover? && step.named == ClaimsRef(ref) && AfterRecover(d, step.now, step.fence, step.named, step.deletionWorks).1.None?
  }

  predicate NeverRecovers(d: Desk, steps: seq<Step>, ref: ClaimRef)
    decreases |steps|
  {
    steps == [] || (!Recovers(d, steps[0], ref) && NeverRecovers(Next(d, steps[0]), steps[1..], ref))
  }

  lemma StepKeepsStanding(d: Desk, step: Step, ref: ClaimRef)
    requires StandsAlone(d, ref) && Admissible(d, step)
    ensures StandsAlone(Next(d, step), ref) <==> !Recovers(d, step, ref)
  {
    match step
    case DoMutate(now, fence, expected, replacement) =>
      forall k | 0 <= k < |replacement| ensures d.slots == expected ==> replacement[k].claimRef != Some(ref) {
        assert NewOrLeft(expected, replacement[k]);
      }
    case _ =>
  }

  lemma {:induction false} StandsUntilRecovered(d: Desk, steps: seq<Step>, ref: ClaimRef)
    requires StandsAlone(d, ref) && AllAdmissible(d, steps) && NeverRecovers(d, steps, ref)
    ensures StandsAlone(Exec(d, steps), ref)
    decreases |steps|
  {
    if steps != [] {
      StepKeepsStanding(d, steps[0], ref);
      StandsUntilRecovered(Next(d, steps[0]), steps[1..], ref);
    }
  }

  /** Reopening a slot without the unlock leaves its ref standing alone. */
  lemma ReopenLeavesRef(d: Desk, now: nat, fence: Fence, slotId: string)
    requires Inv(d) && AfterRelease(d, now, fence, slotId, Reopen, false, true).1.None?
    ensures var slot := d.slots[FindSlot(d.slots, slotId).value];
      slot.claimRef.Some? && StandsAlone(AfterRelease(d, now, fence, slotId, Reopen, false, true).0, slot.claimRef.value)
  {
    var i := FindSlot(d.slots, slotId).value;
    assert Backed(d.slots[i], d.claimRefs);
    forall k | 0 <= k < |d.slots| && k != i ensures d.slots[k].claimRef != d.slots[i].claimRef {
      assert Backed(d.slots[k], d.claimRefs);
    }
  }

  /** So a slot reopened without the unlock stays locked under its epoch until the ref is recovered: over
      every run without that recovery, a claim that passes every other guard and picks the slot is lost
      while the Supervisor's epoch is the old ref's; in any epoch it is lost exactly when the ref it would
      create exists. */
  lemma ReopenedSlotStaysLocked(d: Desk, now: nat, fence: Fence, slotId: string, steps: seq<Step>, later: nat, input: ClaimInput)
    requires Inv(d) && AfterRelease(d, now, fence, slotId, Reopen, false, true).1.None?
    requires var d1, ref := AfterRelease(d, now, fence, slotId, Reopen, false, true).0, d.slots[FindSlot(d.slots, slotId).value].claimRef;
      ref.Some? && AllAdmissible(d1, steps) && NeverRecovers(d1, steps, ref.value)
    requires var end := Exec(AfterRelease(d, now, fence, slotId, Reopen, false, true).0, steps);
      ClaimGuards(end, later, input).Ok? && end.slots[ClaimGuards(end, later, input).value].id == slotId
    ensures var end, ref := Exec(AfterRelease(d, now, fence, slotId, Reopen, false, true).0, steps), d.slots[FindSlot(d.slots, slotId).value].claimRef.value;
      (end.supervisor.epoch == ref.epoch ==> ClaimCheck(end, later, input) == Err(ClaimLost)) &&
      (ClaimCheck(end, later, input) == Err(ClaimLost) <==> ClaimRef(end.supervisor.epoch, slotId) in end.claimRefs)
  {
    var i := FindSlot(d.slots, slotId).value;
    assert Backed(d.slots[i], d.claimRefs);
    ReopenLeavesRef(d, now, fence, slotId);
    StandsUntilRecovered(AfterRelease(d, now, fence, slotId, Reopen, false, true).0, steps, d.slots[i].claimRef.value);
  }

  /** Recovering the ref unlocks the slot: the claim that was lost is then won. */
  lemma RecoveryUnlocks(d: Desk, now: nat, fence: Fence, works: bool, later: nat, input: ClaimInput)
    requires ClaimCheck(d, later, input) == Err(ClaimLost) && ClaimGuards(d, later, input).Ok?
    requires var ref := ClaimRef(d.supervisor.epoch, d.slots[ClaimGuards(d, later, input).value].id);
      AfterRecover(d, now, fence, ClaimsRef(ref), works).1.None?
    ensures var ref := ClaimRef(d.supervisor.epoch, d.slots[ClaimGuards(d, later, input).value].id);
      ClaimCheck(AfterRecover(d, now, fence, ClaimsRef(ref), works).0, later, input) == ClaimGuards(d, later, input)
  {
    var ref := ClaimRef(d.supervisor.epoch, d.slots[ClaimGuards(d, later, input).value].id);
    assert ClaimGuards(AfterRecover(d, now, fence, ClaimsRef(ref), works).0, later, input) == ClaimGuards(d, later, input);
  }
}
