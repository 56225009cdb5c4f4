/** The plan ledger: one plan's row, the idempotency table, the transactions on them, and every
    interleaving of the calls that use them. */
module Ledger {
  import opened Common
  import opened Planner
  import A = Artifacts
  import M = PlanMeaning

  datatype PlanMode = BoundedChange | FullPlan(mode: Mode)
  datatype Status = Planned | Applying | Applied | PrOpen | Merged | ApplyRecoveryRequired
  datatype Operation = FullApply | BoundedApply | OpenPr | Merge

  /** A row of the plan table: the plan's fixed columns, then those its life cycle updates. */
  datatype Row = Row(
    mode: PlanMode, expectedHead: Option<string>,
    status: Status, operationId: Option<string>, leaseExpires: Option<nat>,
    branch: Option<string>, head: Option<string>, receipt: Option<string>,
    seedSha: Option<string>, seedPath: Option<string>,
    pullRequest: Option<nat>, mergeCommit: Option<string>)

  /** A stored reply: the plan and operation it belongs to and the branch and head it reports. */
  datatype Reply = Reply(planId: string, operation: Operation, branch: Option<string>, head: Option<string>)

  datatype Store = Store(planId: string, row: Row, replies: map<string, Reply>)

  datatype LedgerError =
    | IdempotencyKeyConflict | ApplyInProgress | ApplyRecoveryNeeded | NotApplicable | LeaseLost | DuplicateKey

  const APPLY_LEASE_MINUTES := 20
  const SEED_PATH := ".anpos-bootstrap-seed"

  predicate IsApplied(status: Status) {
    status.Applied? || status.PrOpen? || status.Merged?
  }

  // ---- Transactions, as functions of the store ----

  function Begin(s: Store, key: string, op: string, now: nat): (Store, Result<Option<Reply>, LedgerError>) {
    if key in s.replies then
      if s.replies[key].planId != s.planId || s.replies[key].operation != FullApply then (s, Err(IdempotencyKeyConflict))
      else (s, Ok(Some(s.replies[key])))
    else if s.row.status.Applying? then
      if s.row.leaseExpires.Some? && s.row.leaseExpires.value > now then (s, Err(ApplyInProgress))
      else (s, Err(ApplyRecoveryNeeded))
    else if !s.row.status.Planned? then (s, Err(NotApplicable))
    else
      (s.(row := s.row.(status := Applying, operationId := Some(op), leaseExpires := Some(now + APPLY_LEASE_MINUTES))),
       Ok(None))
  }

  predicate Owns(row: Row, op: string) {
    row.status.Applying? && row.operationId == Some(op)
  }

  function Reset(s: Store, op: string): Store {
    if !Owns(s.row, op) then s
    else s.(row := s.row.(status := Planned, operationId := None, leaseExpires := None))
  }

  function Recover(s: Store, op: string, branch: string, head: string): Store {
    if !Owns(s.row, op) then s
    else s.(row := s.row.(status := ApplyRecoveryRequired, branch := Some(branch), head := Some(head), leaseExpires := None))
  }

  function RecoverSeed(s: Store, op: string, seed: string, branch: Option<string>, head: Option<string>): Store {
    if !Owns(s.row, op) then s
    else s.(row := s.row.(status := ApplyRecoveryRequired, branch := branch, head := head,
                          seedSha := Some(seed), seedPath := Some(SEED_PATH), leaseExpires := None))
  }

  function Complete(s: Store, op: string, key: string, branch: string, head: string, receipt: string,
                    seed: Option<string>): (Store, Option<LedgerError>)
  {
    if !Owns(s.row, op) then (s, Some(LeaseLost))
    else if key in s.replies then (s, Some(DuplicateKey))
    else
      (s.(row := s.row.(status := Applied, branch := Some(branch), head := Some(head), receipt := Some(receipt),
                        seedSha := seed, seedPath := if seed.Some? then Some(SEED_PATH) else None,
                        operationId := None, leaseExpires := None),
          replies := s.replies[key := Reply(s.planId, FullApply, Some(branch), Some(head))]), None)
  }

  /** The lease: for twenty minutes another call is told that an apply is in progress, and from then on that the
      plan needs recovery; it never takes the plan over. */
  lemma LeaseKeepsOthersOut(s: Store, key: string, op: string, now: nat, other: string, otherOp: string, t: nat)
    requires Begin(s, key, op, now).1 == Ok(None) && other !in s.replies
    ensures Begin(s, key, op, now).0 == s.(row := Begin(s, key, op, now).0.row) && Owns(Begin(s, key, op, now).0.row, op)
    ensures Begin(Begin(s, key, op, now).0, other, otherOp, t)
      == (Begin(s, key, op, now).0, Err(if t < now + 20 then ApplyInProgress else ApplyRecoveryNeeded))
  {
  }

  /** The shared shape of the remaining transactions: a known key changes nothing. */
  function Recorded(s: Store, key: string, operation: Operation, row: Row, reply: Reply): (Store, Option<LedgerError>) {
    if key in s.replies then
      if s.replies[key].planId != s.planId || s.replies[key].operation != operation then (s, Some(IdempotencyKeyConflict))
      else (s, None)
    else (s.(row := row, replies := s.replies[key := reply]), None)
  }

  /** What a bounded apply answers: a branch and its head. */
  datatype Answer = Answer(branch: Option<string>, head: Option<string>)

  /** The guards of a bounded apply on the row it loaded: an applied plan is answered from the row, and None
      means that the call goes on. */
  function BoundedEntry(row: Row): Result<Option<Answer>, LedgerError> {
    if !row.status.Planned? then if IsApplied(row.status) then Ok(Some(Answer(row.branch, row.head))) else Err(NotApplicable)
    else if !row.mode.BoundedChange? || row.expectedHead.None? then Err(NotApplicable)
    else Ok(None)
  }

  /** What the call answers once it has run its transaction: its own branch and head, whatever the
      transaction found. */
  function BoundedAnswer(s: Store, key: string, branch: string, head: string): Result<Answer, LedgerError> {
    var e := BoundedCommit(s, key, branch, head).1;
    if e.Some? then Err(e.value) else Ok(Answer(Some(branch), Some(head)))
  }

  function BoundedCommit(s: Store, key: string, branch: string, head: string): (Store, Option<LedgerError>) {
    var row := if s.row.status.Planned? then s.row.(status := Applied, branch := Some(branch), head := Some(head)) else s.row;
    Recorded(s, key, BoundedApply, row, Reply(s.planId, BoundedApply, Some(branch), Some(head)))
  }

  function OpenCommit(s: Store, key: string, number: nat): (Store, Option<LedgerError>) {
    Recorded(s, key, OpenPr, s.row.(status := PrOpen, pullRequest := Some(number)),
             Reply(s.planId, OpenPr, None, s.row.head))
  }

  function MergeCommit(s: Store, key: string, sha: string): (Store, Option<LedgerError>) {
    Recorded(s, key, Merge, s.row.(status := Merged, mergeCommit := Some(sha)), Reply(s.planId, Merge, None, Some(sha)))
  }

  /** The database rows, updated in place. Each method is one transaction. */
  class PlanStore {
    const planId: string
    const mode: PlanMode
    const expectedHead: Option<string>
    var status: Status
    var operationId: Option<string>
    var leaseExpires: Option<nat>
    var branch: Option<string>
    var head: Option<string>
    var receipt: Option<string>
    var seedSha: Option<string>
    var seedPath: Option<string>
    var pullRequest: Option<nat>
    var mergeCommit: Option<string>
    var replies: map<string, Reply>

    function Snapshot(): Store
      reads this
    {
      Store(planId,
            Row(mode, expectedHead, status, operationId, leaseExpires, branch, head, receipt, seedSha, seedPath,
                pullRequest, mergeCommit),
            replies)
    }

    constructor (planId: string, mode: PlanMode, expectedHead: Option<string>)
      ensures Snapshot() == NewPlan(planId, mode, expectedHead)
    {
      this.planId, this.mode, this.expectedHead := planId, mode, expectedHead;
      status, operationId, leaseExpires := Planned, None, None;
      branch, head, receipt, seedSha, seedPath := None, None, None, None, None;
      pullRequest, mergeCommit, replies := None, None, map[];
    }

    method BeginApplyLease(key: string, op: string, now: nat) returns (r: Result<Option<Reply>, LedgerError>)
      modifies this`status, this`operationId, this`leaseExpires
      ensures (Snapshot(), r) == Begin(old(Snapshot()), key, op, now)
    {
      if key in replies {
        var row := replies[key];
        if row.planId != planId || row.operation != FullApply { return Err(IdempotencyKeyConflict); }
        return Ok(Some(row));
      }
      if status == Applying {
        var lease := if leaseExpires.Some? then leaseExpires.value else 0;
        if lease > now { return Err(ApplyInProgress); }
        return Err(ApplyRecoveryNeeded);
      }
      if status != Planned { return Err(NotApplicable); }
      status, operationId, leaseExpires := Applying, Some(op), Some(now + APPLY_LEASE_MINUTES);
      return Ok(None);
    }

    method ResetApplyLease(op: string)
      modifies this`status, this`operationId, this`leaseExpires
      ensures Snapshot() == Reset(old(Snapshot()), op)
    {
      if status == Applying && operationId == Some(op) {
        status, operationId, leaseExpires := Planned, None, None;
      }
    }

    method MarkRecoveryRequired(op: string, newBranch: string, newHead: string)
      modifies this`status, this`leaseExpires, this`branch, this`head
      ensures Snapshot() == Recover(old(Snapshot()), op, newBranch, newHead)
    {
      if status == Applying && operationId == Some(op) {
        status, branch, head, leaseExpires := ApplyRecoveryRequired, Some(newBranch), Some(newHead), None;
      }
    }

    method MarkInitializationRecoveryRequired(op: string, seed: string, newBranch: Option<string>, newHead: Option<string>)
      modifies this`status, this`leaseExpires, this`branch, this`head, this`seedSha, this`seedPath
      ensures Snapshot() == RecoverSeed(old(Snapshot()), op, seed, newBranch, newHead)
    {
      if status == Applying && operationId == Some(op) {
        status, branch, head, leaseExpires := ApplyRecoveryRequired, newBranch, newHead, None;
        seedSha, seedPath := Some(seed), Some(SEED_PATH);
      }
    }

    method CompleteApply(op: string, key: string, newBranch: string, newHead: string, newReceipt: string,
                         seed: Option<string>)
      returns (e: Option<LedgerError>)
      modifies this
      ensures (Snapshot(), e) == Complete(old(Snapshot()), op, key, newBranch, newHead, newReceipt, seed)
    {
      if status != Applying || operationId != Some(op) { return Some(LeaseLost); }
      if key in replies { return Some(DuplicateKey); }
      status, branch, head, receipt := Applied, Some(newBranch), Some(newHead), Some(newReceipt);
      seedSha, seedPath := seed, if seed.Some? then Some(SEED_PATH) else None;
      operationId, leaseExpires := None, None;
      replies := replies[key := Reply(planId, FullApply, Some(newBranch), Some(newHead))];
      return None;
    }

    /** Another plan's transaction on the shared idempotency table. */
    method RecordElsewhere(key: string, reply: Reply)
      modifies this`replies
      ensures replies == if key in old(replies) then old(replies) else old(replies)[key := reply]
    {
      if key !in replies { replies := replies[key := reply]; }
    }

    /** What `idempotentResult` decides: the call proceeds, stops with its earlier reply, or conflicts. */
    method PriorReply(key: string, operation: Operation) returns (proceed: bool, e: Option<LedgerError>)
      ensures proceed <==> key !in replies
      ensures e == (if proceed || (replies[key].planId == planId && replies[key].operation == operation) then None
                    else Some(IdempotencyKeyConflict))
    {
      if key !in replies { return true, None; }
      var prior := replies[key];
      if prior.planId != planId || prior.operation != operation { return false, Some(IdempotencyKeyConflict); }
      return false, None;
    }

    method LoadForBoundedApply() returns (r: Result<Option<Answer>, LedgerError>)
      ensures r == BoundedEntry(Snapshot().row)
    {
      if status != Planned {
        if status == Applied || status == PrOpen || status == Merged { return Ok(Some(Answer(branch, head))); }
        return Err(NotApplicable);
      }
      if mode != BoundedChange || expectedHead.None? { return Err(NotApplicable); }
      return Ok(None);
    }

    method CommitBoundedApply(key: string, newBranch: string, newHead: string) returns (r: Result<Answer, LedgerError>)
      modifies this`status, this`branch, this`head, this`replies
      ensures Snapshot() == BoundedCommit(old(Snapshot()), key, newBranch, newHead).0
      ensures r == BoundedAnswer(old(Snapshot()), key, newBranch, newHead)
    {
      var proceed, e := PriorReply(key, BoundedApply);
      if e.Some? { return Err(e.value); }
      if proceed {
        if status == Planned { status, branch, head := Applied, Some(newBranch), Some(newHead); }
        replies := replies[key := Reply(planId, BoundedApply, Some(newBranch), Some(newHead))];
      }
      return Ok(Answer(Some(newBranch), Some(newHead)));
    }

    method CommitOpenPullRequest(key: string, number: nat) returns (e: Option<LedgerError>)
      modifies this`status, this`pullRequest, this`replies
      ensures (Snapshot(), e) == OpenCommit(old(Snapshot()), key, number)
    {
      var proceed;
      proceed, e := PriorReply(key, OpenPr);
      if proceed {
        status, pullRequest := PrOpen, Some(number);
        replies := replies[key := Reply(planId, OpenPr, None, head)];
      }
    }

    method CommitMerge(key: string, sha: string) returns (e: Option<LedgerError>)
      modifies this`status, this`mergeCommit, this`replies
      ensures (Snapshot(), e) == MergeCommit(old(Snapshot()), key, sha)
    {
      var proceed;
      proceed, e := PriorReply(key, Merge);
      if proceed {
        status, mergeCommit := Merged, Some(sha);
        replies := replies[key := Reply(planId, Merge, None, Some(sha))];
      }
    }
  }

  function NewPlan(planId: string, mode: PlanMode, expectedHead: Option<string>): Store {
    Store(planId,
          Row(mode, expectedHead, Planned, None, None, None, None, None, None, None, None, None),
          map[])
  }

  // ---- Interleavings ----

  /** A call between the guards it passed and the transaction it will run. */
  datatype Call = Applies(op: string) | AppliesBounded | Opens | Merges

  /** What is fixed with the plan: its actions, the digest of file content and that of a run's receipt. */
  datatype Plan = Plan(actions: seq<PlannerAction>, hash: A.Digest, receiptOf: M.SandboxResult -> string)

  datatype State = State(store: Store, calls: map<nat, Call>, usedOps: set<string>, now: nat, plan: Plan)

  datatype Step =
    | Tick(now: nat)
    | StartFull(id: nat, key: string, op: string)
    | FinishFull(id: nat, key: string, branch: string, head: string, run: M.SandboxResult, seed: Option<string>)
    | GiveUp(id: nat)
    | LeaveBranch(id: nat, branch: string, head: string)
    | LeaveSeed(id: nat, seedSha: string, left: Option<string>, leftHead: Option<string>)
    | ReadBounded(id: nat)
    | FinishBounded(id: nat, key: string, branch: string, head: string)
    | ReadOpen(id: nat)
    | FinishOpen(id: nat, key: string, number: nat)
    | ReadMerge(id: nat)
    | FinishMerge(id: nat, key: string, sha: string)
    | Vanish(id: nat)
    | OtherPlan(key: string, reply: Reply)

  /** The contract a full plan meets before it may be applied. */
  predicate ContractHolds(row: Row) {
    row.mode.FullPlan? && (row.mode.mode.BootstrapEmpty? <==> row.expectedHead.None?)
  }

  /** The row guards of opening a pull request and of merging it. */
  predicate OpenGuard(row: Row) {
    (row.status.Applied? || row.status.PrOpen?) && row.branch.Some? && row.head.Some?
  }

  function BaseHead(row: Row): Option<string> {
    if row.expectedHead.Some? then row.expectedHead
    else if row.mode == FullPlan(BootstrapEmpty) then row.seedSha
    else None
  }

  predicate MergeGuard(row: Row) {
    BaseHead(row).Some? && row.status.PrOpen? && row.pullRequest.Some? && row.head.Some? &&
    (row.mode.FullPlan? ==> row.receipt.Some? && IsHex(row.receipt.value, 64)) &&
    (row.mode == FullPlan(BootstrapEmpty) ==> row.seedPath == Some(SEED_PATH))
  }

  predicate Runs(s: State, id: nat, call: Call) {
    id in s.calls && s.calls[id] == call
  }

  predicate RunsFull(s: State, id: nat) {
    id in s.calls && s.calls[id].Applies?
  }

  /** When a step can happen. A full apply completes after a run whose outputs were good, and with a seed
      exactly when the plan bootstraps an empty repository; `FullApply.ApplyGithubSupervisorPlan` is proved
      to start and to end only by steps enabled here. */
  predicate Enabled(s: State, step: Step) {
    match step
    case Tick(now) => now >= s.now
    case StartFull(id, key, op) => id !in s.calls && op !in s.usedOps && ContractHolds(s.store.row)
    case FinishFull(id, _, _, _, run, seed) =>
      RunsFull(s, id) && M.GoodResult(s.plan.actions, Some(run), s.plan.hash) && (seed.Some? <==> s.store.row.mode == FullPlan(BootstrapEmpty))
    case GiveUp(id) => RunsFull(s, id)
    case LeaveBranch(id, _, _) => RunsFull(s, id)
    case LeaveSeed(id, _, _, _) => RunsFull(s, id)
    case ReadBounded(id) =>
      id !in s.calls && BoundedEntry(s.store.row) == Ok(None)
    case FinishBounded(id, _, _, _) => Runs(s, id, AppliesBounded)
    case ReadOpen(id) => id !in s.calls && OpenGuard(s.store.row) && s.store.row.pullRequest.None?
    case FinishOpen(id, _, _) => Runs(s, id, Opens)
    case ReadMerge(id) => id !in s.calls && MergeGuard(s.store.row)
    case FinishMerge(id, _, _) => Runs(s, id, Merges)
    case Vanish(id) => id in s.calls
    case OtherPlan(key, reply) => key !in s.store.replies && reply.planId != s.store.planId
  }

  function Next(s: State, step: Step): State
    requires Enabled(s, step)
  {
    match step
    case Tick(now) => s.(now := now)
    case StartFull(id, key, op) =>
      var (store, r) := Begin(s.store, key, op, s.now);
      if r == Ok(None) then State(store, s.calls[id := Applies(op)], s.usedOps + {op}, s.now, s.plan) else s
    case FinishFull(id, key, branch, head, run, seed) =>
      var (store, e) := Complete(s.store, s.calls[id].op, key, branch, head, s.plan.receiptOf(run), seed);
      State(store, if e.None? then s.calls - {id} else s.calls, s.usedOps, s.now, s.plan)
    case GiveUp(id) => State(Reset(s.store, s.calls[id].op), s.calls - {id}, s.usedOps, s.now, s.plan)
    case LeaveBranch(id, branch, head) =>
      State(Recover(s.store, s.calls[id].op, branch, head), s.calls - {id}, s.usedOps, s.now, s.plan)
    case LeaveSeed(id, seed, left, leftHead) =>
      State(RecoverSeed(s.store, s.calls[id].op, seed, left, leftHead), s.calls - {id}, s.usedOps, s.now, s.plan)
    case ReadBounded(id) => s.(calls := s.calls[id := AppliesBounded])
    case FinishBounded(id, key, branch, head) => State(BoundedCommit(s.store, key, branch, head).0, s.calls - {id}, s.usedOps, s.now, s.plan)
    case ReadOpen(id) => s.(calls := s.calls[id := Opens])
    case FinishOpen(id, key, number) => State(OpenCommit(s.store, key, number).0, s.calls - {id}, s.usedOps, s.now, s.plan)
    case ReadMerge(id) => s.(calls := s.calls[id := Merges])
    case FinishMerge(id, key, sha) => State(MergeCommit(s.store, key, sha).0, s.calls - {id}, s.usedOps, s.now, s.plan)
    case Vanish(id) => s.(calls := s.calls - {id})
    case OtherPlan(key, reply) => s.(store := s.store.(replies := s.store.replies[key := reply]))
  }

  predicate Possible(s: State, steps: seq<Step>)
    decreases |steps|
  {
    steps == [] || (Enabled(s, steps[0]) && Possible(Next(s, steps[0]), steps[1..]))
  }

  function Exec(s: State, steps: seq<Step>): State
    requires Possible(s, steps)
    decreases |steps|
  {
    if steps == [] then s else Exec(Next(s, steps[0]), steps[1..])
  }

  function Initial(planId: string, mode: PlanMode, expectedHead: Option<string>, plan: Plan): State {
    State(NewPlan(planId, mode, expectedHead), map[], {}, 0, plan)
  }

  // ---- What every run keeps ----

  /** The receipt is the digest of a clean run whose outputs match the plan's writes. */
  ghost predicate MadeByRun(plan: Plan, receipt: string) {
    exists run: M.SandboxResult :: IsReceiptOf(plan, run, receipt)
  }

  predicate IsReceiptOf(plan: Plan, run: M.SandboxResult, receipt: string) {
    M.GoodResult(plan.actions, Some(run), plan.hash) && receipt == plan.receiptOf(run)
  }

  /** Receipts are SHA-256 digests in hexadecimal. */
  ghost predicate HexReceipts(plan: Plan) {
    forall run: M.SandboxResult :: IsHex(plan.receiptOf(run), 64)
  }

  /** What an applied row carries. */
  ghost predicate CarriesAll(row: Row, plan: Plan) {
    row.branch.Some? && row.head.Some? &&
    (row.mode.FullPlan? ==> ContractHolds(row) && row.receipt.Some? && MadeByRun(plan, row.receipt.value)) &&
    (row.mode.BoundedChange? ==> row.expectedHead.Some?) &&
    (row.mode == FullPlan(BootstrapEmpty) ==> row.seedSha.Some? && row.seedPath == Some(SEED_PATH)) &&
    (row.status.PrOpen? || row.status.Merged? ==> row.pullRequest.Some?) &&
    (row.status.Merged? ==> row.mergeCommit.Some?)
  }

  /** What a call knows of the row from the guards it passed. */
  predicate CallFits(s: State, call: Call) {
    match call
    case Applies(op) => op in s.usedOps && ContractHolds(s.store.row)
    case AppliesBounded => s.store.row.mode.BoundedChange? && s.store.row.expectedHead.Some?
    case Opens => IsApplied(s.store.row.status)
    case Merges => IsApplied(s.store.row.status) && s.store.row.pullRequest.Some?
  }

  /** A stored full-apply reply of this plan reports the branch and head the row records. */
  predicate ReplyFits(store: Store, reply: Reply) {
    reply.planId == store.planId && reply.operation.FullApply? ==>
      IsApplied(store.row.status) && reply.branch == store.row.branch && reply.head == store.row.head
  }

  ghost predicate Inv(s: State) {
    && HexReceipts(s.plan)
    && (IsApplied(s.store.row.status) ==> CarriesAll(s.store.row, s.plan))
    && (s.store.row.status.Applying? || s.store.row.status.ApplyRecoveryRequired? ==> ContractHolds(s.store.row))
    && (s.store.row.status.Applying? ==> s.store.row.operationId.Some? && s.store.row.operationId.value in s.usedOps)
    && (forall id :: id in s.calls ==> CallFits(s, s.calls[id]))
    && (forall i, j :: i in s.calls && j in s.calls && s.calls[i].Applies? && s.calls[i] == s.calls[j] ==> i == j)
    && (forall key :: key in s.store.replies ==> ReplyFits(s.store, s.store.replies[key]))
  }

  /** The columns that say what was applied, and to what. */
  predicate SameApplication(a: Row, b: Row) {
    a.mode == b.mode && a.expectedHead == b.expectedHead &&
    a.branch == b.branch && a.head == b.head && a.receipt == b.receipt && a.seedSha == b.seedSha && a.seedPath == b.seedPath
  }

  predicate IsLeaseStep(step: Step) {
    step.StartFull? || step.GiveUp? || step.LeaveBranch? || step.LeaveSeed?
  }

  lemma FinishKeepsInv(s: State, step: Step)
    requires Inv(s) && Enabled(s, step) && step.FinishFull?
    ensures Inv(Next(s, step))
  {
    hide IsHex;
    hide M.GoodResult;
    assert IsReceiptOf(s.plan, step.run, s.plan.receiptOf(step.run));
    hide IsReceiptOf;
  }

  lemma LeaseKeepsInv(s: State, step: Step)
    requires Inv(s) && Enabled(s, step) && IsLeaseStep(step)
    ensures Inv(Next(s, step))
  {
    hide MadeByRun;
    hide HexReceipts;
  }

  lemma ReadsKeepInv(s: State, step: Step)
    requires Inv(s) && Enabled(s, step) && (step.ReadBounded? || step.ReadOpen? || step.ReadMerge?)
    ensures Inv(Next(s, step))
  {
    hide MadeByRun;
    hide HexReceipts;
  }

  lemma OthersKeepInv(s: State, step: Step)
    requires Inv(s) && Enabled(s, step) && !step.FinishFull? && !IsLeaseStep(step)
    requires !step.ReadBounded? && !step.ReadOpen? && !step.ReadMerge?
    ensures Inv(Next(s, step))
  {
    hide MadeByRun;
    hide HexReceipts;
  }

  /** A carried receipt has the form the merge asks for. */
  lemma CarriedReceipt(s: State)
    requires Inv(s) && IsApplied(s.store.row.status) && s.store.row.mode.FullPlan?
    ensures IsHex(s.store.row.receipt.value, 64)
  {
    var run :| IsReceiptOf(s.plan, run, s.store.row.receipt.value);
  }

  lemma StepKeepsInv(s: State, step: Step)
    requires Inv(s) && Enabled(s, step)
    ensures Inv(Next(s, step))
  {
    hide Inv;
    hide Next;
    if step.FinishFull? {
      FinishKeepsInv(s, step);
    } else if IsLeaseStep(step) {
      LeaseKeepsInv(s, step);
    } else if step.ReadBounded? || step.ReadOpen? || step.ReadMerge? {
      ReadsKeepInv(s, step);
    } else {
      OthersKeepInv(s, step);
    }
  }

  /** Once applied, the row stays applied and its branch, head, receipt and seed never change. */
  lemma StepKeepsApplication(s: State, step: Step)
    requires Inv(s) && Enabled(s, step) && IsApplied(s.store.row.status)
    ensures IsApplied(Next(s, step).store.row.status) && SameApplication(s.store.row, Next(s, step).store.row)
  {
  }

  /** A key that is already used: the transaction changes nothing, and it is a conflict unless the key was used
      for the same operation of the same plan. */
  lemma UsedKeys(s: Store, key: string, branch: string, head: string, number: nat, sha: string)
    requires key in s.replies
    ensures var own := s.replies[key].planId == s.planId;
      && BoundedCommit(s, key, branch, head)
        == (s, if own && s.replies[key].operation.BoundedApply? then None else Some(IdempotencyKeyConflict))
      && OpenCommit(s, key, number) == (s, if own && s.replies[key].operation.OpenPr? then None else Some(IdempotencyKeyConflict))
      && MergeCommit(s, key, sha) == (s, if own && s.replies[key].operation.Merge? then None else Some(IdempotencyKeyConflict))
  {
  }

  /** Who writes the columns after application: the number is that of the last opening call to write, the merge
      commit that of the last merging call, and nothing else touches either; what a step stores under a new key
      is its own reply, and no stored reply is ever replaced. */
  lemma WritesItsOwn(s: State, step: Step)
    requires Enabled(s, step)
    ensures var row, next := s.store.row, Next(s, step).store.row;
      && next.pullRequest == (if step.FinishOpen? && step.key !in s.store.replies then Some(step.number) else row.pullRequest)
      && next.mergeCommit == (if step.FinishMerge? && step.key !in s.store.replies then Some(step.sha) else row.mergeCommit)
      && (step.FinishOpen? && step.key !in s.store.replies ==> next.status.PrOpen?)
      && (step.FinishMerge? && step.key !in s.store.replies ==> next.status.Merged?)
    ensures forall key :: key in s.store.replies ==>
      key in Next(s, step).store.replies && Next(s, step).store.replies[key] == s.store.replies[key]
    ensures forall key :: key in Next(s, step).store.replies && key !in s.store.replies ==>
      var reply := Next(s, step).store.replies[key];
      match step
      case FinishFull(_, k, branch, head, _, _) => key == k && reply == Reply(s.store.planId, FullApply, Some(branch), Some(head))
      case FinishBounded(_, k, branch, head) => key == k && reply == Reply(s.store.planId, BoundedApply, Some(branch), Some(head))
      case FinishOpen(_, k, _) => key == k && reply == Reply(s.store.planId, OpenPr, None, s.store.row.head)
      case FinishMerge(_, k, sha) => key == k && reply == Reply(s.store.planId, Merge, None, Some(sha))
      case OtherPlan(k, other) => key == k && reply == other
      case _ => false
  {
  }

  /** The owner's own transactions. */
  predicate IsExit(s: State, step: Step, op: string) {
    (step.FinishFull? || step.GiveUp? || step.LeaveBranch? || step.LeaveSeed?) && Runs(s, step.id, Applies(op))
  }

  /** Whatever the clock says, nobody but the owner changes a row that is being applied. */
  lemma OnlyTheOwnerMovesOn(s: State, step: Step, op: string)
    requires Inv(s) && Enabled(s, step) && Owns(s.store.row, op) && !IsExit(s, step, op)
    ensures Next(s, step).store.row == s.store.row
  {
  }

  lemma {:induction false} RunKeepsInv(s: State, steps: seq<Step>)
    requires Inv(s) && Possible(s, steps)
    ensures Inv(Exec(s, steps))
    decreases |steps|
  {
    if steps != [] {
      StepKeepsInv(s, steps[0]);
      RunKeepsInv(Next(s, steps[0]), steps[1..]);
    }
  }

  /** Reachable from a freshly stored plan by some interleaving. */
  ghost predicate Reachable(s: State) {
    exists planId, mode, expectedHead, plan, steps ::
      HexReceipts(plan) && Possible(Initial(planId, mode, expectedHead, plan), steps) &&
      s == Exec(Initial(planId, mode, expectedHead, plan), steps)
  }

  lemma ReachableInv(s: State)
    requires Reachable(s)
    ensures Inv(s)
  {
    var planId, mode, expectedHead, plan, steps :|
      HexReceipts(plan) && Possible(Initial(planId, mode, expectedHead, plan), steps) &&
      s == Exec(Initial(planId, mode, expectedHead, plan), steps);
    RunKeepsInv(Initial(planId, mode, expectedHead, plan), steps);
  }

  /** Applied for good: over every continuation an applied plan stays applied, open or merged and
      what was applied is never rewritten. */
  lemma {:induction false} AppliedOnce(s: State, steps: seq<Step>)
    requires Inv(s) && Possible(s, steps) && IsApplied(s.store.row.status)
    ensures IsApplied(Exec(s, steps).store.row.status)
    ensures SameApplication(s.store.row, Exec(s, steps).store.row)
    decreases |steps|
  {
    if steps != [] {
      StepKeepsInv(s, steps[0]);
      StepKeepsApplication(s, steps[0]);
      AppliedOnce(Next(s, steps[0]), steps[1..]);
    }
  }

  /** A state along a run. */
  function StateAt(s: State, steps: seq<Step>, i: nat): State
    requires Possible(s, steps) && i <= |steps|
    decreases |steps|
  {
    if i == 0 then s else StateAt(Next(s, steps[0]), steps[1..], i - 1)
  }

  /** Applying passes from one operation to another only through an exit of the first: no expired
      lease, restart or second caller takes the plan over. */
  lemma {:induction false} Handover(s: State, steps: seq<Step>, first: string, second: string) returns (i: nat)
    requires Inv(s) && Possible(s, steps)
    requires first != second && Owns(s.store.row, first) && Owns(Exec(s, steps).store.row, second)
    ensures i < |steps| && IsExit(StateAt(s, steps, i), steps[i], first)
    decreases |steps|
  {
    var next := Next(s, steps[0]);
    if IsExit(s, steps[0], first) {
      i := 0;
    } else {
      OnlyTheOwnerMovesOn(s, steps[0], first);
      StepKeepsInv(s, steps[0]);
      var j := Handover(next, steps[1..], first, second);
      i := j + 1;
    }
  }

  /** The receipt chain: in every reachable state an open pull request's row passes every row guard of
      the merge, so the receipt and seed checks there never fire. An applied full plan carries the receipt
      of a clean run that produced exactly the plan's writes and, when it bootstrapped an empty repository,
      its seed. */
  lemma ReceiptChain(s: State) returns (run: Option<M.SandboxResult>)
    requires Reachable(s) && IsApplied(s.store.row.status)
    ensures s.store.row.status.PrOpen? ==> MergeGuard(s.store.row)
    ensures s.store.row.mode.FullPlan? ==>
      run.Some? && run.value.exitCode == 0 && !run.value.timedOut && !run.value.outputTruncated && run.value.outputs.Some? &&
      s.store.row.receipt == Some(s.plan.receiptOf(run.value)) &&
      A.Paths(run.value.outputs.value) == M.WritePaths(s.plan.actions) &&
      M.OutputsMatch(s.plan.actions, run.value.outputs.value)
    ensures s.store.row.mode.FullPlan? ==> IsHex(s.store.row.receipt.value, 64)
    ensures s.store.row.mode == FullPlan(BootstrapEmpty) ==>
      s.store.row.seedSha.Some? && s.store.row.seedPath == Some(SEED_PATH)
  {
    ReachableInv(s);
    RowsAreReady(s);
    run := None;
    if s.store.row.mode.FullPlan? {
      CarriedReceipt(s);
      var r :| IsReceiptOf(s.plan, r, s.store.row.receipt.value);
      M.OutputsAreTheWrites(s.plan.actions, r.outputs.value);
      run := Some(r);
    }
  }

  /** A retried apply: a key already used for this plan gets the branch and head the row records. */
  lemma RetryAgrees(s: State, key: string, op: string)
    requires Reachable(s) && Begin(s.store, key, op, s.now).1.Ok? && Begin(s.store, key, op, s.now).1.value.Some?
    ensures var reply := Begin(s.store, key, op, s.now).1.value.value;
      IsApplied(s.store.row.status) && reply.branch == s.store.row.branch && reply.head == s.store.row.head
    ensures Begin(s.store, key, op, s.now).0 == s.store
  {
    ReachableInv(s);
  }

  // ---- Where merged is not final ----

  predicate OpenPending(s: State) {
    exists id :: id in s.calls && s.calls[id].Opens?
  }

  lemma {:induction false} FreshKey(keys: set<string>) returns (key: string)
    ensures key !in keys
    ensures forall k :: k in keys ==> |k| < |key|
  {
    if keys == {} {
      key := "";
    } else {
      var k :| k in keys;
      var longer := FreshKey(keys - {k});
      key := seq(|longer| + |k| + 1, i => 'k');
    }
  }

  /** Opening a pull request updates the row without looking at its status again, so a merged plan
      goes back to `pr_open` in one step exactly when an opening call is still pending. */
  lemma MergedRegresses(s: State)
    requires Inv(s) && s.store.row.status.Merged?
    ensures OpenPending(s) <==> exists step :: Enabled(s, step) && !Next(s, step).store.row.status.Merged?
  {
    hide CarriesAll;
    hide HexReceipts;
    hide ReplyFits;
    if OpenPending(s) {
      var id :| id in s.calls && s.calls[id].Opens?;
      var key := FreshKey(s.store.replies.Keys);
      assert Enabled(s, FinishOpen(id, key, 1)) && !Next(s, FinishOpen(id, key, 1)).store.row.status.Merged?;
    }
    if step :| Enabled(s, step) && !Next(s, step).store.row.status.Merged? {
      assert step.FinishOpen?;
      assert s.calls[step.id].Opens?;
    }
  }

  /** With no opening call pending, merged is final. */
  lemma {:induction false} MergedIsFinal(s: State, steps: seq<Step>)
    requires Inv(s) && Possible(s, steps) && s.store.row.status.Merged? && !OpenPending(s)
    ensures Exec(s, steps).store.row.status.Merged?
    decreases |steps|
  {
    if steps != [] {
      StepKeepsInv(s, steps[0]);
      assert Next(s, steps[0]).store.row.status.Merged?;
      assert !OpenPending(Next(s, steps[0]));
      MergedIsFinal(Next(s, steps[0]), steps[1..]);
    }
  }

  ghost predicate Reaches(s: State, t: State) {
    exists steps :: Possible(s, steps) && Exec(s, steps) == t
  }

  lemma {:induction false} ExecAppend(s: State, steps: seq<Step>, step: Step)
    requires Possible(s, steps) && Enabled(Exec(s, steps), step)
    ensures Possible(s, steps + [step]) && Exec(s, steps + [step]) == Next(Exec(s, steps), step)
    decreases |steps|
  {
    if steps != [] {
      ExecAppend(Next(s, steps[0]), steps[1..], step);
      assert (steps + [step])[1..] == steps[1..] + [step];
    } else {
      assert Possible(Next(s, step), []);
    }
  }

  lemma ReachesItself(s: State)
    ensures Reaches(s, s)
  {
    assert Possible(s, []) && Exec(s, []) == s;
  }

  lemma ReachesNext(s: State, t: State, step: Step, u: State)
    requires Reaches(s, t) && Enabled(t, step) && u == Next(t, step)
    ensures Reaches(s, u)
  {
    var steps :| Possible(s, steps) && Exec(s, steps) == t;
    ExecAppend(s, steps, step);
  }

  /** From any applied plan, two opening calls let in before either writes bring a merged plan back to
      `pr_open`: one opens and is merged, then the other writes. */
  lemma RegressionHappens(s: State, one: string, two: string, three: string) returns (t: State)
    requires Inv(s) && s.calls == map[] && s.store.row.status.Applied? && s.store.row.pullRequest.None?
    requires one != two && one != three && two != three
    requires {one, two, three} !! s.store.replies.Keys
    ensures Reaches(s, t) && t.store.row.status.PrOpen? && t.store.row.mergeCommit == Some("merge")
  {
    var open := OpenTwice(s, one);
    t := MergeThenOpen(s, open, two, three);
  }

  lemma RowsAreReady(s: State)
    requires Inv(s)
    ensures s.store.row.status.Applied? ==> OpenGuard(s.store.row)
    ensures s.store.row.status.PrOpen? ==> MergeGuard(s.store.row)
  {
    if s.store.row.status.PrOpen? && s.store.row.mode.FullPlan? { CarriedReceipt(s); }
  }

  /** Two calls pass the opening guard; the first of them opens the pull request. */
  lemma OpenTwice(s: State, one: string) returns (t: State)
    requires Inv(s) && s.calls == map[] && s.store.row.status.Applied? && s.store.row.pullRequest.None?
    requires one !in s.store.replies
    ensures Reaches(s, t) && Inv(t) && t.calls == map[2 := Opens] && t.store.row.status.PrOpen?
    ensures t.store.planId == s.store.planId && t.store.replies.Keys == s.store.replies.Keys + {one}
  {
    RowsAreReady(s);
    hide Inv;
    hide Reaches;
    ReachesItself(s);
    var s1 := Next(s, ReadOpen(1));
    ReachesNext(s, s, ReadOpen(1), s1);
    StepKeepsInv(s, ReadOpen(1));
    var s2 := Next(s1, ReadOpen(2));
    ReachesNext(s, s1, ReadOpen(2), s2);
    StepKeepsInv(s1, ReadOpen(2));
    t := Next(s2, FinishOpen(1, one, 1));
    ReachesNext(s, s2, FinishOpen(1, one, 1), t);
    StepKeepsInv(s2, FinishOpen(1, one, 1));
    assert t.calls == map[2 := Opens];
  }

  /** The pull request is merged. */
  lemma MergeOpen(s: State, open: State, two: string) returns (t: State)
    requires Reaches(s, open) && Inv(open) && open.calls == map[2 := Opens] && open.store.row.status.PrOpen?
    requires two !in open.store.replies
    ensures Reaches(s, t) && t.calls == map[2 := Opens] && t.store.row.status.Merged?
    ensures t.store.row.mergeCommit == Some("merge") && t.store.replies.Keys == open.store.replies.Keys + {two}
  {
    RowsAreReady(open);
    hide Inv;
    hide Reaches;
    hide MergeGuard;
    var s1 := Next(open, ReadMerge(3));
    ReachesNext(s, open, ReadMerge(3), s1);
    t := Next(s1, FinishMerge(3, two, "merge"));
    ReachesNext(s, s1, FinishMerge(3, two, "merge"), t);
    assert t.calls == map[2 := Opens];
  }

  /** And then the second opening call writes. */
  lemma MergeThenOpen(s: State, open: State, two: string, three: string) returns (t: State)
    requires Reaches(s, open) && Inv(open) && open.calls == map[2 := Opens] && open.store.row.status.PrOpen?
    requires two != three && two !in open.store.replies && three !in open.store.replies
    ensures Reaches(s, t) && t.store.row.status.PrOpen? && t.store.row.mergeCommit == Some("merge")
  {
    hide Inv;
    hide Reaches;
    var merged := MergeOpen(s, open, two);
    t := Next(merged, FinishOpen(2, three, 2));
    ReachesNext(s, merged, FinishOpen(2, three, 2), t);
  }

  /** A bounded apply that answers tells what the row records after it exactly when its own update took, or
      the row already recorded the same branch and head. */
  lemma BoundedAnswerAgrees(s: Store, key: string, branch: string, head: string)
    requires BoundedAnswer(s, key, branch, head).Ok?
    ensures var row, answer := BoundedCommit(s, key, branch, head).0.row, BoundedAnswer(s, key, branch, head).value;
      answer == Answer(row.branch, row.head) <==>
      (key !in s.replies && s.row.status.Planned?) || (s.row.branch == Some(branch) && s.row.head == Some(head))
  {
  }

  /** A later call is answered from the row: after every continuation of an applied plan the branch and the
      head that were recorded. */
  lemma RetriesAnswerTheRow(s: State, steps: seq<Step>)
    requires Inv(s) && Possible(s, steps) && IsApplied(s.store.row.status)
    ensures BoundedEntry(Exec(s, steps).store.row) == Ok(Some(Answer(s.store.row.branch, s.store.row.head)))
  {
    AppliedOnce(s, steps);
  }

  /** Two bounded applies let in before either writes: the plan records the first one's branch, and the
      second is answered with its own, which the plan does not record. A retry is answered with the first. */
  lemma BoundedRaceMisreports(s: State, one: string, two: string) returns (before: State, t: State)
    requires Inv(s) && s.calls == map[] && s.store.row.status.Planned? && s.store.row.mode.BoundedChange?
    requires s.store.row.expectedHead.Some? && one != two && one !in s.store.replies && two !in s.store.replies
    ensures Reaches(s, before) && Enabled(before, FinishBounded(2, two, "second", "b"))
    ensures t == Next(before, FinishBounded(2, two, "second", "b")) && Reaches(s, t)
    ensures BoundedAnswer(before.store, two, "second", "b") == Ok(Answer(Some("second"), Some("b")))
    ensures t.store.row.branch == Some("first") && t.store.row.head == Some("a")
    ensures BoundedEntry(t.store.row) == Ok(Some(Answer(Some("first"), Some("a"))))
  {
    hide Inv;
    hide Reaches;
    ReachesItself(s);
    var s1 := Next(s, ReadBounded(1));
    ReachesNext(s, s, ReadBounded(1), s1);
    var s2 := Next(s1, ReadBounded(2));
    ReachesNext(s, s1, ReadBounded(2), s2);
    before := Next(s2, FinishBounded(1, one, "first", "a"));
    ReachesNext(s, s2, FinishBounded(1, one, "first", "a"), before);
    t := Next(before, FinishBounded(2, two, "second", "b"));
    ReachesNext(s, before, FinishBounded(2, two, "second", "b"), t);
  }
}
