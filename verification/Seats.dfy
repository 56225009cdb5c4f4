/** Organization seats: transactions that assign and revoke them, split into their statements and
    interleaved under the locks they take. */
module Seats {
  import opened Common

  type UserId = nat

  /** The locked entitlement row; `capacity` is None when no seat capacity is configured. */
  datatype Entitlement = Entitlement(organization: bool, active: bool, capacity: Option<nat>)

  datatype SeatError =
    | EntitlementNotFound | OrganizationAccountRequired | EntitlementNotActive | CapacityNotConfigured | CapacityExceeded

  /** An assignment's answer. */
  datatype Assigned = AlreadyActive | NewSeat(activeAfter: nat)

  function EntitlementCheck(e: Option<Entitlement>): Option<SeatError> {
    if e.None? then Some(EntitlementNotFound)
    else if !e.value.organization then Some(OrganizationAccountRequired)
    else if !e.value.active then Some(EntitlementNotActive)
    else None
  }

  /** One assignment with nothing in between. */
  function Assign(active: set<UserId>, e: Option<Entitlement>, user: UserId): Result<Assigned, SeatError> {
    if EntitlementCheck(e).Some? then Err(EntitlementCheck(e).value)
    else if user in active then Ok(AlreadyActive)
    else if e.value.capacity.None? then Err(CapacityNotConfigured)
    else if |active| >= e.value.capacity.value then Err(CapacityExceeded)
    else Ok(NewSeat(|active| + 1))
  }

  /** Exactly when an assignment seats the user, finds the seat taken or is refused, and why. */
  lemma AssignExactly(active: set<UserId>, e: Option<Entitlement>, user: UserId)
    ensures var r, held := Assign(active, e, user), e.Some? && e.value.organization && e.value.active;
      && (r.Ok? && r.value.AlreadyActive? <==> held && user in active)
      && (r.Ok? && r.value.NewSeat? <==>
            held && user !in active && e.value.capacity.Some? && |active + {user}| <= e.value.capacity.value)
      && (r.Ok? && r.value.NewSeat? ==> r.value.activeAfter == |active + {user}|)
      && (r == Err(EntitlementNotFound) <==> e.None?)
      && (r == Err(OrganizationAccountRequired) <==> e.Some? && !e.value.organization)
      && (r == Err(EntitlementNotActive) <==> e.Some? && e.value.organization && !e.value.active)
      && (r == Err(CapacityNotConfigured) <==> held && user !in active && e.value.capacity.None?)
      && (r == Err(CapacityExceeded) <==> held && user !in active && e.value.capacity.Some? && |active| >= e.value.capacity.value)
  {
    assert user !in active ==> |active + {user}| == |active| + 1;
  }

  /** The account's seat rows, its template grants and the queue of access jobs. */
  class SeatTable {
    var entitlement: Option<Entitlement>
    var active: set<UserId>
    var grants: set<UserId>
    var jobs: set<UserId>

    method AssignSeat(user: UserId) returns (r: Result<Assigned, SeatError>)
      modifies this`active
      ensures r == Assign(old(active), entitlement, user)
      ensures active == if r.Ok? && r.value.NewSeat? then old(active) + {user} else old(active)
      ensures r.Ok? && r.value.NewSeat? ==> r.value.activeAfter == |active| <= entitlement.value.capacity.value
      ensures r.Ok? ==> user in active
    {
      if entitlement.None? { return Err(EntitlementNotFound); }
      if !entitlement.value.organization { return Err(OrganizationAccountRequired); }
      if !entitlement.value.active { return Err(EntitlementNotActive); }
      if user in active { return Ok(AlreadyActive); }
      if entitlement.value.capacity.None? { return Err(CapacityNotConfigured); }
      var count := |active|;
      if count >= entitlement.value.capacity.value { return Err(CapacityExceeded); }
      active := active + {user};
      return Ok(NewSeat(count + 1));
    }

    /** Revoking a seat also revokes the grants it carried and asks for the user's access to be reconciled. */
    method RevokeSeat(user: UserId) returns (revoked: bool)
      modifies this`active, this`grants, this`jobs
      ensures revoked <==> user in old(active)
      ensures active == old(active) - {user}
      ensures grants == if revoked then old(grants) - {user} else old(grants)
      ensures jobs == if revoked then old(jobs) + {user} else old(jobs)
    {
      if user !in active { return false; }
      active := active - {user};
      grants := grants - {user};
      jobs := jobs + {user};
      return true;
    }
  }

  // ---- Interleaved transactions ----

  /** A transaction between two statements. An assignment holds the entitlement row from `Locked` on; a
      revocation holds the seat row it has updated. */
  datatype Tx =
    | Locked(user: UserId)
    | Checked(user: UserId)
    | Counted(user: UserId, count: nat)
    | Inserted(user: UserId, count: nat)
    | Revoking(user: UserId)

  /** Committed rows and the open transactions. */
  datatype State = State(entitlement: Option<Entitlement>, active: set<UserId>, open: map<nat, Tx>)

  datatype Step =
    | Lock(id: nat, user: UserId)
    | Check(id: nat)
    | Count(id: nat)
    | Insert(id: nat)
    | StartRevoke(id: nat, user: UserId)
    | Commit(id: nat)
    | Abort(id: nat)
    | ChangeEntitlement(entitlement: Option<Entitlement>)

  predicate IsAssign(tx: Tx) {
    !tx.Revoking?
  }

  predicate EntitlementFree(s: State) {
    forall id :: id in s.open ==> !IsAssign(s.open[id])
  }

  predicate SeatRowFree(s: State, user: UserId) {
    forall id :: id in s.open ==> s.open[id] != Revoking(user)
  }

  predicate At(s: State, id: nat) {
    id in s.open
  }

  /** A statement that needs a lock waits until the lock is free. */
  predicate Enabled(s: State, step: Step) {
    match step
    case Lock(id, _) => id !in s.open && EntitlementFree(s)
    case Check(id) => At(s, id) && s.open[id].Locked? && SeatRowFree(s, s.open[id].user)
    case Count(id) => At(s, id) && s.open[id].Checked?
    case Insert(id) => At(s, id) && s.open[id].Counted?
    case StartRevoke(id, user) => id !in s.open && SeatRowFree(s, user)
    case Commit(id) => At(s, id) && (s.open[id].Inserted? || s.open[id].Revoking?)
    case Abort(id) => At(s, id)
    case ChangeEntitlement(_) => EntitlementFree(s)
  }

  function Next(s: State, step: Step): State
    requires Enabled(s, step)
  {
    match step
    case Lock(id, user) => if EntitlementCheck(s.entitlement).Some? then s else s.(open := s.open[id := Locked(user)])
    case Check(id) =>
      if s.open[id].user in s.active then s.(open := s.open - {id}) else s.(open := s.open[id := Checked(s.open[id].user)])
    case Count(id) =>
      if s.entitlement.None? || s.entitlement.value.capacity.None? || |s.active| >= s.entitlement.value.capacity.value
      then s.(open := s.open - {id})
      else s.(open := s.open[id := Counted(s.open[id].user, |s.active|)])
    case Insert(id) => s.(open := s.open[id := Inserted(s.open[id].user, s.open[id].count)])
    case StartRevoke(id, user) => if user !in s.active then s else s.(open := s.open[id := Revoking(user)])
    case Commit(id) =>
      var tx := s.open[id];
      s.(active := if tx.Revoking? then s.active - {tx.user} else s.active + {tx.user}, open := s.open - {id})
    case Abort(id) => s.(open := s.open - {id})
    case ChangeEntitlement(e) => s.(entitlement := e)
  }

  predicate HasCapacity(s: State) {
    s.entitlement.Some? && s.entitlement.value.capacity.Some?
  }

  /** What a counted assignment knows: seats can only have been given up since, and the capacity it
      compared with is still the recorded one. */
  predicate CountFits(s: State, tx: Tx) {
    (tx.Counted? || tx.Inserted?) ==>
      HasCapacity(s) && |s.active| <= tx.count < s.entitlement.value.capacity.value
  }

  predicate Inv(s: State) {
    (forall i, j :: i in s.open && j in s.open && IsAssign(s.open[i]) && IsAssign(s.open[j]) ==> i == j) &&
    (forall id :: id in s.open ==> CountFits(s, s.open[id]) && (IsAssign(s.open[id]) ==> Entitled(s)))
  }

  /** The entitlement row is an active organization's. */
  predicate Entitled(s: State) {
    s.entitlement.Some? && s.entitlement.value.organization && s.entitlement.value.active
  }

  lemma Shrinks(active: set<UserId>, user: UserId)
    ensures |active - {user}| <= |active| && |active + {user}| <= |active| + 1
  {
    if user in active {
      assert active + {user} == active;
    } else {
      assert active - {user} == active;
    }
  }

  lemma StepKeepsInv(s: State, step: Step)
    requires Inv(s) && Enabled(s, step)
    ensures Inv(Next(s, step))
  {
    if step.Commit? {
      Shrinks(s.active, s.open[step.id].user);
      assert s.open[step.id].Inserted? ==> forall id :: id in Next(s, step).open ==> Next(s, step).open[id].Revoking?;
    }
  }

  /** No assignment commits unless the entitlement is an active organization's, or when the seats are already at
      the recorded capacity; after it they are within it, and at most what it reports. */
  lemma CommitWithinCapacity(s: State, id: nat)
    requires Inv(s) && Enabled(s, Commit(id)) && s.open[id].Inserted?
    ensures Entitled(s) && HasCapacity(s) && |s.active| < s.entitlement.value.capacity.value
    ensures |Next(s, Commit(id)).active| <= s.open[id].count + 1 <= s.entitlement.value.capacity.value
  {
    assert CountFits(s, s.open[id]);
    Shrinks(s.active, s.open[id].user);
  }

  predicate Possible(s: State, steps: seq<Step>)
    decreases |steps|
  {
    steps == [] || (Enabled(s, steps[0]) && Possible(Next(s, steps[0]), steps[1..]))
  }

  function Exec(s: State, steps: seq<Step>): State
    requires Possible(s, steps)
    decreases |steps|
  {
    if steps == [] then s else Exec(Next(s, steps[0]), steps[1..])
  }

  predicate CapacityStays(steps: seq<Step>, capacity: nat) {
    forall i :: 0 <= i < |steps| && steps[i].ChangeEntitlement? ==>
      (steps[i].entitlement.Some? && steps[i].entitlement.value.capacity.Some? ==>
        steps[i].entitlement.value.capacity.value <= capacity)
  }

  function Max(a: nat, b: nat): nat {
    if a > b then a else b
  }

  /** Over every interleaving in which the recorded capacity never exceeds `capacity`, the active seats
      never exceed it either, beyond what was already assigned. */
  lemma {:induction false} SeatsStayWithin(s: State, steps: seq<Step>, capacity: nat)
    requires Inv(s) && Possible(s, steps) && CapacityStays(steps, capacity)
    requires HasCapacity(s) ==> s.entitlement.value.capacity.value <= capacity
    ensures |Exec(s, steps).active| <= Max(capacity, |s.active|)
    decreases |steps|
  {
    if steps != [] {
      var next := Next(s, steps[0]);
      StepKeepsInv(s, steps[0]);
      if steps[0].Commit? {
        if s.open[steps[0].id].Inserted? {
          CommitWithinCapacity(s, steps[0].id);
        } else {
          Shrinks(s.active, s.open[steps[0].id].user);
        }
      }
      assert CapacityStays(steps[1..], capacity);
      SeatsStayWithin(next, steps[1..], capacity);
    }
  }

  /** Run alone, the statements of an assignment do what the assignment as a whole does: they stop where it
      is refused or finds the seat taken, and otherwise seat the user. */
  lemma AloneLikeWhole(s: State, id: nat, user: UserId) returns (steps: seq<Step>)
    requires s.open == map[]
    ensures Possible(s, steps)
    ensures var r := Assign(s.active, s.entitlement, user);
      Exec(s, steps) == s.(active := if r.Ok? && r.value.NewSeat? then s.active + {user} else s.active) &&
      (r.Ok? && r.value.NewSeat? <==> Commit(id) in steps)
  {
    var lock := Lock(id, user);
    var s1 := Next(s, lock);
    if EntitlementCheck(s.entitlement).Some? {
      steps := [lock];
      OneStep(s, lock);
      return;
    }
    var s2 := Next(s1, Check(id));
    OneStep(s1, Check(id));
    if user in s.active {
      steps := [lock, Check(id)];
      MoreSteps(s, lock, [Check(id)]);
      assert s2.open == map[];
      return;
    }
    var s3 := Next(s2, Count(id));
    OneStep(s2, Count(id));
    if Assign(s.active, s.entitlement, user).Err? {
      MoreSteps(s1, Check(id), [Count(id)]);
      MoreSteps(s, lock, [Check(id)] + [Count(id)]);
      steps := [lock] + ([Check(id)] + [Count(id)]);
      assert s3.open == map[];
      return;
    }
    var s4 := Next(s3, Insert(id));
    OneStep(s4, Commit(id));
    MoreSteps(s3, Insert(id), [Commit(id)]);
    MoreSteps(s2, Count(id), [Insert(id)] + [Commit(id)]);
    MoreSteps(s1, Check(id), [Count(id)] + ([Insert(id)] + [Commit(id)]));
    MoreSteps(s, lock, [Check(id)] + ([Count(id)] + ([Insert(id)] + [Commit(id)])));
    steps := [lock] + ([Check(id)] + ([Count(id)] + ([Insert(id)] + [Commit(id)])));
    assert steps[4] == Commit(id);
    assert Next(s4, Commit(id)).open == map[];
  }

  /** Run alone, a revocation takes exactly the user's seat. */
  lemma AloneRevokes(s: State, id: nat, user: UserId) returns (steps: seq<Step>)
    requires s.open == map[]
    ensures Possible(s, steps) && Exec(s, steps) == s.(active := s.active - {user})
  {
    OneStep(s, StartRevoke(id, user));
    if user in s.active {
      var s1 := Next(s, StartRevoke(id, user));
      OneStep(s1, Commit(id));
      MoreSteps(s, StartRevoke(id, user), [Commit(id)]);
      steps := [StartRevoke(id, user)] + [Commit(id)];
      assert Next(s1, Commit(id)).open == map[];
    } else {
      steps := [StartRevoke(id, user)];
      assert s.active - {user} == s.active;
    }
  }

  lemma OneStep(s: State, step: Step)
    requires Enabled(s, step)
    ensures Possible(s, [step]) && Exec(s, [step]) == Next(s, step)
  {
    assert [step][1..] == [] && Possible(Next(s, step), []);
  }

  lemma MoreSteps(s: State, step: Step, rest: seq<Step>)
    requires Enabled(s, step) && Possible(Next(s, step), rest)
    ensures Possible(s, [step] + rest) && Exec(s, [step] + rest) == Exec(Next(s, step), rest)
  {
    assert ([step] + rest)[1..] == rest;
  }
}
