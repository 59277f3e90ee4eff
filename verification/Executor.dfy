/** Any number of executor workers racing on one compare-and-swap ledger, beside
    clients that may issue any command at any time. Each worker is a program
    counter that takes the atomic steps of one attempt: claim, withhold or enter
    the Connector, hear its answer, settle. */
module Executor {
  import opened Support
  import opened Effects
  import opened Coordinator

  const MAX_RETRY_AFTER_MS := 604_800_000

  datatype ExecutionOutcome =
    | OutcomeApplied(receipt: Receipt)
    | OutcomeNotApplied(reason: string, retryAfter: Option<nat>)
    | OutcomeUnknown(reason: string)

  /** What came back from the Connector boundary. */
  datatype Answer = Returned(outcome: ExecutionOutcome) | FailedOrPanicked | TimedOut | CancelledAfterDispatch

  /** Why a claimed Effect is not dispatched after all. */
  datatype Cause =
    | CancelledBeforeDispatch
    | GovernorRateLimited(retryAt: u64) | GovernorCircuitOpen(retryAt: u64) | GovernorUnavailable(retryAt: u64)

  function CauseReason(cause: Cause): string {
    match cause
    case CancelledBeforeDispatch => "executor.cancelled_before_dispatch"
    case GovernorRateLimited(_) => "governor.rate_limited"
    case GovernorCircuitOpen(_) => "governor.circuit_open"
    case GovernorUnavailable(_) => "governor.unavailable"
  }

  function CauseRetry(cause: Cause): Option<u64> {
    if cause.CancelledBeforeDispatch? then None else Some(cause.retryAt)
  }

  /** How a claim was used: not at all yet, withheld from the Connector, or
      answered by it, and when that was established. */
  datatype Dealing = NoDealing | Withheld(cause: Cause, at: u64) | Heard(answer: Answer, at: u64)

  function RawOutcome(answer: Answer): ExecutionOutcome {
    match answer
    case Returned(outcome) => outcome
    case FailedOrPanicked => OutcomeUnknown("connector.failed")
    case TimedOut => OutcomeUnknown("connector.timeout")
    case CancelledAfterDispatch => OutcomeUnknown("executor.cancelled_after_dispatch")
  }

  predicate ValidOutcome(outcome: ExecutionOutcome, at: u64) {
    match outcome
    case OutcomeApplied(receipt) => ValidReceipt(receipt, at)
    case OutcomeNotApplied(reason, retryAfter) =>
      ValidName(reason) && (retryAfter.Some? ==> retryAfter.value <= MAX_RETRY_AFTER_MS)
    case OutcomeUnknown(reason) => ValidName(reason)
  }

  function Normalized(outcome: ExecutionOutcome, at: u64): ExecutionOutcome {
    if ValidOutcome(outcome, at) then outcome else OutcomeUnknown("connector.invalid_outcome")
  }

  /** The outcome that is settled: a retry delay that overflows is malformed. */
  function Settleable(outcome: ExecutionOutcome, absolute: Option<u64>, at: u64): ExecutionOutcome {
    if outcome.OutcomeNotApplied? && absolute.None? && outcome.retryAfter.Some? && at + outcome.retryAfter.value > U64_MAX
    then OutcomeUnknown("connector.invalid_outcome")
    else outcome
  }

  function SettlementOf(leaseId: string, outcome: ExecutionOutcome, absolute: Option<u64>, at: u64): CommandKind {
    match Settleable(outcome, absolute, at)
    case OutcomeApplied(receipt) => RecordApplied(leaseId, receipt)
    case OutcomeUnknown(reason) => RecordUnknown(leaseId, reason)
    case OutcomeNotApplied(reason, retryAfter) =>
      RecordNotApplied(leaseId, reason,
        match absolute
        case Some(retryAt) => Some(if retryAt < at then at else retryAt)
        case None => if retryAfter.Some? then Some(at + retryAfter.value) else None)
  }

  datatype Report =
    | NotClaimed | ClaimFenced(actual: int) | ClaimFailed | ClaimAlreadyCommitted | ClockUnavailableAfterClaim
    | ReportApplied | ReportRejected(reason: string) | RetryScheduled(reason: string, retryAt: u64)
    | ReportUnknown(reason: string) | SettlementFenced(actual: int) | SettlementFailed

  function ReportSettlement(outcome: ExecutionOutcome, status: Status): Report {
    match (outcome, status)
    case (OutcomeApplied(_), Applied(_, _)) => ReportApplied
    case (OutcomeNotApplied(reason, None), Rejected(_, durable)) =>
      if reason == durable then ReportRejected(reason) else SettlementFailed
    case (OutcomeNotApplied(reason, Some(_)), Pending(_, notBefore)) => RetryScheduled(reason, notBefore)
    case (OutcomeUnknown(reason), Unknown(_, _, durable)) =>
      if reason == durable then ReportUnknown(reason) else SettlementFailed
    case _ => SettlementFailed
  }

  // ------------------------------------------------------------------ worlds

  datatype Phase =
    | Prepared
    | Holding                                     // the claim is committed, nothing was dispatched
    | Dispatched                                  // inside the Connector
    | Settling(outcome: ExecutionOutcome, absolute: Option<u64>, at: u64)
    | Finished(report: Report)

  /** `claimed` is the revision the worker's own claim produced, if it committed
      freshly; `entered` and `dealing` record its use of the Connector. */
  datatype Worker = Worker(
    authority: Authority, id: string, observed: int, attempt: int, leaseId: string,
    claimed: Option<int>, entered: bool, dealing: Dealing, phase: Phase)
  {
    function Key(): EffectKey { KeyFor(authority, id) }
  }

  datatype Author = ByWorker(worker: nat) | ByClient

  datatype Revision = Revision(key: EffectKey, number: int)

  datatype Entry = Entry(worker: nat, revision: Revision)

  /** The ledger, the workers, who wrote each revision, and the Connector
      entries so far. */
  datatype World = World(
    ledger: Ledger, workers: map<nat, Worker>, authors: map<Revision, Author>, entries: seq<Entry>)

  datatype Step =
    | Create(id: string, request: CreateRequest, at: u64, authority: Authority)
    | Client(id: string, expected: int, command: Command, at: u64, authority: Authority)
    | Spawn(w: nat, authority: Authority, id: string, leaseId: string, scannedAt: u64)
    | GiveUp(w: nat)
    | TryClaim(w: nat, commandId: string, duration: int, at: u64)
    | Withhold(w: nat, cause: Cause, at: u64)
    | Enter(w: nat)
    | Hear(w: nat, answer: Answer, at: u64)
    | LoseClock(w: nat)
    | Settle(w: nat, commandId: string)

  function Wrote(authors: map<Revision, Author>, key: EffectKey, reply: Reply, author: Author): map<Revision, Author> {
    if reply.Committed? then authors[Revision(key, reply.snapshot.revision) := author] else authors
  }

  /** The world after one command was sent to the ledger. */
  function Issued(world: World, id: string, expected: int, command: Command, at: u64, authority: Authority, author: Author)
    : (World, Reply)
  {
    var (ledger, reply) := ApplyStep(world.ledger, id, expected, command, at, authority);
    (world.(ledger := ledger, authors := Wrote(world.authors, KeyFor(authority, id), reply, author)), reply)
  }

  function ClaimResult(worker: Worker, reply: Reply): Worker {
    match reply
    case Committed(snapshot) =>
      if && snapshot.effect.status.Claimed?
         && snapshot.effect.status.lease.id == worker.leaseId
         && snapshot.effect.status.lease.owner == worker.authority.actor
         && snapshot.effect.status.lease.attempt == worker.attempt
         && snapshot.revision == worker.observed + 1
      then worker.(claimed := Some(snapshot.revision), phase := Holding)
      else worker.(phase := Finished(ClaimFailed))
    case AlreadyCommitted(_) => worker.(phase := Finished(ClaimAlreadyCommitted))
    case Conflict(actual) => worker.(phase := Finished(ClaimFenced(actual)))
    case _ => worker.(phase := Finished(ClaimFailed))
  }

  function SettleReport(worker: Worker, reply: Reply): Report
    requires worker.phase.Settling?
  {
    var outcome := Settleable(worker.phase.outcome, worker.phase.absolute, worker.phase.at);
    match reply
    case Committed(snapshot) => ReportSettlement(outcome, snapshot.effect.status)
    case AlreadyCommitted(snapshot) => ReportSettlement(outcome, snapshot.effect.status)
    case Conflict(actual) => SettlementFenced(actual)
    case _ => SettlementFailed
  }

  function ClaimIssued(world: World, w: nat, worker: Worker, commandId: string, duration: int, at: u64): (World, Reply) {
    var command := Command(commandId, Claim(worker.leaseId, duration));
    Issued(world, worker.id, worker.observed, command, at, worker.authority, ByWorker(w))
  }

  /** The settlement is sent against the revision the worker's claim produced. */
  function SettlementIssued(world: World, w: nat, worker: Worker, commandId: string): (World, Reply)
    requires worker.phase.Settling? && worker.claimed.Some?
  {
    var Settling(outcome, absolute, at) := worker.phase;
    var command := Command(commandId, SettlementOf(worker.leaseId, outcome, absolute, at));
    Issued(world, worker.id, worker.claimed.value, command, at, worker.authority, ByWorker(w))
  }

  function Created(world: World, id: string, request: CreateRequest, at: u64, authority: Authority): World {
    var key := KeyFor(authority, id);
    var created := NewEffect(request, at, authority);
    if !ValidAuthority(authority) || key in world.ledger || created.Err? then world
    else world.(ledger := world.ledger[key := Snapshot(id, authority.tenant, 1, created.value)],
                authors := world.authors[Revision(key, 1) := ByClient])
  }

  /** A new worker for an Effect that a scan found pending and due. */
  function Spawned(world: World, w: nat, authority: Authority, id: string, leaseId: string, scannedAt: u64): World {
    var key := KeyFor(authority, id);
    if w in world.workers || !ValidAuthority(authority) || key !in world.ledger then world
    else
      var status := world.ledger[key].effect.status;
      if !status.Pending? || scannedAt < status.notBefore then world
      else world.(workers := world.workers[w :=
             Worker(authority, id, world.ledger[key].revision, status.nextAttempt, leaseId, None, false, NoDealing, Prepared)])
  }

  /** One atomic step; a step that is not enabled changes nothing. */
  function Do(world: World, step: Step): World {
    match step
    case Create(id, request, at, authority) => Created(world, id, request, at, authority)
    case Client(id, expected, command, at, authority) =>
      Issued(world, id, expected, command, at, authority, ByClient).0
    case Spawn(w, authority, id, leaseId, scannedAt) => Spawned(world, w, authority, id, leaseId, scannedAt)
    case _ =>
      if step.w !in world.workers then world else WorkerStep(world, step, step.w, world.workers[step.w])
  }

  function WorkerStep(world: World, step: Step, w: nat, worker: Worker): World
    requires !step.Create? && !step.Client? && !step.Spawn?
  {
    match (step, worker.phase)
    case (GiveUp(_), Prepared) => Moved(world, w, worker.(phase := Finished(NotClaimed)))
    case (TryClaim(_, commandId, duration, at), Prepared) =>
      var (next, reply) := ClaimIssued(world, w, worker, commandId, duration, at);
      Moved(next, w, ClaimResult(worker, reply))
    case (Withhold(_, cause, at), Holding) =>
      Moved(world, w, worker.(dealing := Withheld(cause, at),
                              phase := Settling(OutcomeNotApplied(CauseReason(cause), Some(0)), CauseRetry(cause), at)))
    case (Enter(_), Holding) =>
      if worker.claimed.None? then world
      else Moved(world, w, worker.(entered := true, phase := Dispatched))
             .(entries := world.entries + [Entry(w, Revision(worker.Key(), worker.claimed.value))])
    case (LoseClock(_), Holding) => Moved(world, w, worker.(phase := Finished(ClockUnavailableAfterClaim)))
    case (LoseClock(_), Dispatched) => Moved(world, w, worker.(phase := Finished(ClockUnavailableAfterClaim)))
    case (Hear(_, answer, at), Dispatched) =>
      Moved(world, w, worker.(dealing := Heard(answer, at), phase := Settling(Normalized(RawOutcome(answer), at), None, at)))
    case (Settle(_, commandId), Settling(outcome, absolute, at)) =>
      if worker.claimed.None? then world
      else
        var (next, reply) := SettlementIssued(world, w, worker, commandId);
        Moved(next, w, worker.(phase := Finished(SettleReport(worker, reply))))
    case _ => world
  }

  function Moved(world: World, w: nat, worker: Worker): World {
    world.(workers := world.workers[w := worker])
  }

  // --------------------------------------------------------------- invariant

  function KindAt(world: World, r: Revision): TransitionKind
    requires r.key in world.ledger && 1 <= r.number <= |world.ledger[r.key].effect.transitions|
  {
    world.ledger[r.key].effect.transitions[r.number - 1].kind
  }

  ghost predicate Exists(world: World, r: Revision) {
    r.key in world.ledger && 1 <= r.number <= |world.ledger[r.key].effect.transitions|
  }

  /** The Connector itself gave a valid "not applied" with a delay. */
  predicate ReturnedNotApplied(answer: Answer) {
    && answer.Returned? && answer.outcome.OutcomeNotApplied? && answer.outcome.retryAfter.Some?
    && ValidName(answer.outcome.reason) && answer.outcome.retryAfter.value <= MAX_RETRY_AFTER_MS
  }

  /** The transition gives up certainty for this reason. */
  predicate IsUnknown(kind: TransitionKind, leaseId: string, reason: string) {
    kind.BecameUnknown? && kind.leaseId == leaseId && kind.reason == reason && !kind.expired
  }

  /** The transition is the lease owner's own "not applied". */
  predicate IsNotApplied(kind: TransitionKind, leaseId: string, reason: string, retryAt: Option<u64>) {
    kind.NotAppliedOutcome? && kind.leaseId == leaseId && kind.reason == reason && kind.retryAt == retryAt && !kind.reconciled
  }

  /** The one thing a worker may write after its claim. A withheld dispatch is
      retried, not before the time the governor gave. A valid outcome that the
      Connector returned is recorded as it is, a delay counting from the time it was
      heard. Everything else is recorded as unknown: errors and panics, timeouts,
      cancellation, and outcomes that are malformed or whose delay has no end. */
  predicate MustRecord(dealing: Dealing, leaseId: string, kind: TransitionKind) {
    match dealing
    case NoDealing => false
    case Withheld(CancelledBeforeDispatch, at) =>
      IsNotApplied(kind, leaseId, "executor.cancelled_before_dispatch", Some(at))
    case Withheld(GovernorRateLimited(t), at) =>
      IsNotApplied(kind, leaseId, "governor.rate_limited", Some(if t < at then at else t))
    case Withheld(GovernorCircuitOpen(t), at) =>
      IsNotApplied(kind, leaseId, "governor.circuit_open", Some(if t < at then at else t))
    case Withheld(GovernorUnavailable(t), at) =>
      IsNotApplied(kind, leaseId, "governor.unavailable", Some(if t < at then at else t))
    case Heard(FailedOrPanicked, _) => IsUnknown(kind, leaseId, "connector.failed")
    case Heard(TimedOut, _) => IsUnknown(kind, leaseId, "connector.timeout")
    case Heard(CancelledAfterDispatch, _) => IsUnknown(kind, leaseId, "executor.cancelled_after_dispatch")
    case Heard(Returned(OutcomeApplied(receipt)), at) =>
      if ValidReceipt(receipt, at)
      then kind.AppliedOutcome? && kind.leaseId == leaseId && kind.receipt == receipt && !kind.reconciled
      else IsUnknown(kind, leaseId, "connector.invalid_outcome")
    case Heard(Returned(OutcomeNotApplied(reason, None)), at) =>
      if ValidName(reason) then IsNotApplied(kind, leaseId, reason, None)
      else IsUnknown(kind, leaseId, "connector.invalid_outcome")
    case Heard(Returned(OutcomeNotApplied(reason, Some(delay))), at) =>
      if ValidName(reason) && delay <= MAX_RETRY_AFTER_MS && at + delay <= U64_MAX
      then IsNotApplied(kind, leaseId, reason, Some(at + delay))
      else IsUnknown(kind, leaseId, "connector.invalid_outcome")
    case Heard(Returned(OutcomeUnknown(reason)), at) =>
      IsUnknown(kind, leaseId, if ValidName(reason) then reason else "connector.invalid_outcome")
  }

  ghost predicate Justified(worker: Worker, kind: TransitionKind) {
    (worker.entered <==> worker.dealing.Heard?) && MustRecord(worker.dealing, worker.leaseId, kind)
  }

  /** The phase agrees with what the worker has done. */
  ghost predicate PhaseOk(worker: Worker) {
    && ValidAuthority(worker.authority)
    && (worker.entered ==> worker.claimed.Some?)
    && match worker.phase
       case Prepared => worker.claimed.None?
       case Holding => worker.claimed.Some? && !worker.entered
       case Dispatched => worker.claimed.Some? && worker.entered
       case Settling(outcome, absolute, at) =>
         && worker.claimed.Some?
         && worker.dealing != NoDealing && worker.dealing.at == at
         && (if worker.entered then
               && worker.dealing.Heard? && absolute.None?
               && outcome == Normalized(RawOutcome(worker.dealing.answer), at)
             else
               && worker.dealing.Withheld? && absolute == CauseRetry(worker.dealing.cause)
               && outcome == OutcomeNotApplied(CauseReason(worker.dealing.cause), Some(0)))
       case Finished(_) => true
  }

  /** The observed revision was pending at the observed attempt. */
  ghost predicate ObservedOk(world: World, worker: Worker) {
    && Exists(world, Revision(worker.Key(), worker.observed))
    && var observed := Replay(world.ledger[worker.Key()].effect.transitions[..worker.observed]);
       observed.At? && observed.projection.status.Pending? && observed.projection.status.nextAttempt == worker.attempt
  }

  /** A worker holds only a claim that it wrote itself, right after what it
      observed. */
  ghost predicate ClaimOk(world: World, w: nat, worker: Worker) {
    worker.claimed.Some? ==>
      var r := Revision(worker.Key(), worker.claimed.value);
      && r.number == worker.observed + 1
      && Exists(world, r) && r in world.authors && world.authors[r] == ByWorker(w)
      && KindAt(world, r).ClaimedLease? && KindAt(world, r).leaseId == worker.leaseId
  }

  ghost predicate WorkerOk(world: World, w: nat, worker: Worker) {
    PhaseOk(worker) && ObservedOk(world, worker) && ClaimOk(world, w, worker)
  }

  /** A revision written by a worker is the claim it holds, or the one settlement
      that directly follows that claim. */
  ghost predicate AuthorOk(world: World, r: Revision) {
    && Exists(world, r)
    && (r in world.authors && world.authors[r].ByWorker? ==>
          var w := world.authors[r].worker;
          w in world.workers && WroteIt(world.workers[w], r, KindAt(world, r)))
  }

  ghost predicate WroteIt(worker: Worker, r: Revision, kind: TransitionKind) {
    && worker.Key() == r.key && worker.claimed.Some?
    && (worker.claimed.value == r.number
        || (worker.claimed.value == r.number - 1 && worker.phase.Finished? && Justified(worker, kind)))
  }

  ghost predicate EntryOk(world: World, entry: Entry) {
    && entry.worker in world.workers
    && world.workers[entry.worker].entered
    && entry.revision.key == world.workers[entry.worker].Key()
    && world.workers[entry.worker].claimed == Some(entry.revision.number)
  }

  ghost predicate WorkersOk(world: World) {
    forall w :: w in world.workers ==> WorkerOk(world, w, world.workers[w])
  }

  ghost predicate AuthorsOk(world: World) {
    forall r :: r in world.authors ==> AuthorOk(world, r)
  }

  ghost predicate EntriesOk(world: World) {
    && (forall i :: 0 <= i < |world.entries| ==> EntryOk(world, world.entries[i]))
    && (forall i, j :: 0 <= i < j < |world.entries| ==> world.entries[i].worker != world.entries[j].worker)
  }

  ghost predicate WorldOk(world: World) {
    LedgerOk(world.ledger) && WorkersOk(world) && AuthorsOk(world) && EntriesOk(world)
  }

  // ------------------------------------------------------------- preservation

  /** Histories only grow, and nobody rewrites who wrote a revision. */
  ghost predicate Grows(a: World, b: World) {
    && (forall key :: key in a.ledger ==> key in b.ledger && Longer(a.ledger[key].effect, b.ledger[key].effect))
    && (forall r :: r in a.authors ==> r in b.authors && b.authors[r] == a.authors[r])
  }

  ghost predicate Longer(a: Effect, b: Effect) {
    |a.transitions| <= |b.transitions| && b.transitions[..|a.transitions|] == a.transitions
  }

  lemma RevisionPersists(a: World, b: World, r: Revision)
    requires Grows(a, b) && Exists(a, r)
    ensures Exists(b, r) && KindAt(a, r) == KindAt(b, r)
    ensures a.ledger[r.key].effect.transitions[..r.number] == b.ledger[r.key].effect.transitions[..r.number]
  {
    var n := |a.ledger[r.key].effect.transitions|;
    assert Longer(a.ledger[r.key].effect, b.ledger[r.key].effect);
    assert b.ledger[r.key].effect.transitions[..n][..r.number] == b.ledger[r.key].effect.transitions[..r.number];
    assert b.ledger[r.key].effect.transitions[..n][r.number - 1] == b.ledger[r.key].effect.transitions[r.number - 1];
  }

  lemma WorkerPersists(a: World, b: World, w: nat, worker: Worker)
    requires Grows(a, b) && WorkerOk(a, w, worker)
    ensures WorkerOk(b, w, worker)
  {
    hide Replay, PhaseOk;
    RevisionPersists(a, b, Revision(worker.Key(), worker.observed));
    if worker.claimed.Some? {
      RevisionPersists(a, b, Revision(worker.Key(), worker.claimed.value));
    }
  }

  /** A worker that is not finished moves on without giving up its claim. */
  ghost predicate Advances(a: Worker, b: Worker) {
    && a.Key() == b.Key() && !a.phase.Finished?
    && (a.claimed.Some? ==> b.claimed == a.claimed)
    && (a.entered ==> b.entered)
  }

  ghost predicate WorkersAdvance(a: World, b: World) {
    && (forall w :: w in a.workers ==>
          w in b.workers && (b.workers[w] == a.workers[w] || Advances(a.workers[w], b.workers[w])))
    && (forall w :: w in b.workers ==> (w in a.workers && b.workers[w] == a.workers[w]) || WorkerOk(b, w, b.workers[w]))
  }

  ghost predicate NewAuthorsOk(a: World, b: World) {
    forall r :: r in b.authors && r !in a.authors ==> AuthorOk(b, r)
  }

  ghost predicate NewEntryOk(a: World, b: World) {
    b.entries != a.entries ==>
      && |b.entries| == |a.entries| + 1 && b.entries[..|a.entries|] == a.entries
      && var entry := b.entries[|a.entries|];
         EntryOk(b, entry) && entry.worker in a.workers && !a.workers[entry.worker].entered
  }

  lemma AuthorsKept(a: World, b: World)
    requires AuthorsOk(a) && Grows(a, b) && WorkersAdvance(a, b) && NewAuthorsOk(a, b)
    ensures AuthorsOk(b)
  {
    hide WorkerOk, Justified;
    forall r | r in b.authors ensures AuthorOk(b, r) {
      if r in a.authors {
        assert AuthorOk(a, r);
        RevisionPersists(a, b, r);
      }
    }
  }

  lemma EntriesKept(a: World, b: World)
    requires EntriesOk(a) && WorkersAdvance(a, b) && NewEntryOk(a, b)
    ensures EntriesOk(b)
  {
    hide WorkerOk;
    forall i | 0 <= i < |b.entries| ensures EntryOk(b, b.entries[i]) {
      if i < |a.entries| {
        assert b.entries[i] == a.entries[i] && EntryOk(a, a.entries[i]);
      }
    }
    forall i, j | 0 <= i < j < |b.entries| ensures b.entries[i].worker != b.entries[j].worker {
      assert b.entries[i] == a.entries[i] && EntryOk(a, a.entries[i]);
      if j < |a.entries| {
        assert b.entries[j] == a.entries[j];
      }
    }
  }

  lemma Kept(a: World, b: World)
    requires WorldOk(a) && Grows(a, b) && LedgerOk(b.ledger)
    requires WorkersAdvance(a, b) && NewAuthorsOk(a, b) && NewEntryOk(a, b)
    ensures WorldOk(b)
  {
    AuthorsKept(a, b);
    EntriesKept(a, b);
    hide LedgerOk, AuthorOk, WorkerOk, Grows;
    forall w | w in b.workers ensures WorkerOk(b, w, b.workers[w]) {
      if w in a.workers && b.workers[w] == a.workers[w] {
        WorkerPersists(a, b, w, a.workers[w]);
      }
    }
  }

  /** Revision `r` is new in `b`, written by `author` with such a command. */
  ghost predicate Added(a: World, b: World, r: Revision, author: Author, kind: CommandKind) {
    && r.key in a.ledger && a.ledger[r.key].revision == r.number - 1
    && r !in a.authors && b.authors == a.authors[r := author]
    && Exists(b, r) && !KindAt(b, r).Created? && CommandKindOf(KindAt(b, r)) == kind
  }

  lemma Unwritten(world: World, r: Revision)
    requires AuthorsOk(world) && !Exists(world, r)
    ensures r !in world.authors
  {
  }

  /** A command changes nothing, or adds one revision that nobody wrote yet. */
  lemma IssuedGrows(a: World, id: string, expected: int, command: Command, at: u64, authority: Authority, author: Author)
    requires LedgerOk(a.ledger) && AuthorsOk(a)
    ensures var (b, reply) := Issued(a, id, expected, command, at, authority, author);
      var r := Revision(KeyFor(authority, id), expected + 1);
      && LedgerOk(b.ledger) && Grows(a, b)
      && (!reply.Committed? ==> b == a)
      && (reply.Committed? ==> reply.snapshot.revision == expected + 1 && Added(a, b, r, author, command.kind))
  {
    hide ApplyStep, ValidEffect, AuthorOk;
    ApplyKeepsLedger(a.ledger, id, expected, command, at, authority);
    var (b, reply) := Issued(a, id, expected, command, at, authority, author);
    var r := Revision(KeyFor(authority, id), expected + 1);
    if reply.Committed? {
      assert SnapshotOk(r.key, b.ledger[r.key]) && SnapshotOk(r.key, a.ledger[r.key]);
      Unwritten(a, r);
      assert Longer(a.ledger[r.key].effect, b.ledger[r.key].effect);
    }
  }

  lemma CreateGrows(a: World, id: string, request: CreateRequest, at: u64, authority: Authority)
    requires LedgerOk(a.ledger) && AuthorsOk(a)
    ensures var b := Created(a, id, request, at, authority);
      && LedgerOk(b.ledger) && Grows(a, b) && NewAuthorsOk(a, b) && b.workers == a.workers && b.entries == a.entries
  {
    hide ValidEffect, NewEffect, ValidAuthority;
    var b := Created(a, id, request, at, authority);
    if b != a {
      var key := KeyFor(authority, id);
      NewEffectIsValid(request, at, authority);
      NewEffectIsOwned(request, at, authority);
      assert SnapshotOk(key, b.ledger[key]);
      Unwritten(a, Revision(key, 1));
    }
  }

  lemma NewEffectIsOwned(request: CreateRequest, at: u64, authority: Authority)
    requires NewEffect(request, at, authority).Ok? && ValidAuthority(authority)
    ensures NewEffect(request, at, authority).value.tenant == authority.tenant
    ensures authority.tenant.Some? ==> authority.tenant.value != ""
  {
  }

  /** Clients write revisions but move no worker. */
  lemma ClientsKeep(a: World, b: World)
    requires WorldOk(a) && LedgerOk(b.ledger) && Grows(a, b) && NewAuthorsOk(a, b)
    requires b.workers == a.workers && b.entries == a.entries
    ensures WorldOk(b)
  {
    assert WorkersAdvance(a, b) && NewEntryOk(a, b) by {
      hide LedgerOk, WorkerOk, Grows, NewAuthorsOk, AuthorOk, EntryOk, Advances;
    }
    hide *;
    Kept(a, b);
  }

  lemma CreateKeeps(a: World, id: string, request: CreateRequest, at: u64, authority: Authority)
    requires WorldOk(a)
    ensures WorldOk(Created(a, id, request, at, authority))
  {
    hide LedgerOk, WorkersOk, AuthorsOk, EntriesOk, Created, Grows, NewAuthorsOk;
    CreateGrows(a, id, request, at, authority);
    ClientsKeep(a, Created(a, id, request, at, authority));
  }

  lemma ClientKeeps(a: World, id: string, expected: int, command: Command, at: u64, authority: Authority)
    requires WorldOk(a)
    ensures WorldOk(Issued(a, id, expected, command, at, authority, ByClient).0)
  {
    hide LedgerOk, WorkersOk, AuthorsOk, EntriesOk, ApplyStep, Grows, KindAt;
    var b := Issued(a, id, expected, command, at, authority, ByClient).0;
    IssuedGrows(a, id, expected, command, at, authority, ByClient);
    assert NewAuthorsOk(a, b);
    hide NewAuthorsOk, Added;
    ClientsKeep(a, b);
  }

  /** A worker observes the revision and the attempt that are current. */
  lemma SpawnedWorkerOk(a: World, w: nat, authority: Authority, id: string, leaseId: string, scannedAt: u64)
    requires LedgerOk(a.ledger)
    ensures var b := Spawned(a, w, authority, id, leaseId, scannedAt);
      && b.ledger == a.ledger && b.authors == a.authors && b.entries == a.entries
      && (b == a || (w !in a.workers && w in b.workers && b.workers == a.workers[w := b.workers[w]]
                     && WorkerOk(b, w, b.workers[w])))
  {
    hide Replay;
    var b := Spawned(a, w, authority, id, leaseId, scannedAt);
    if b != a {
      var key := KeyFor(authority, id);
      assert SnapshotOk(key, a.ledger[key]);
      var transitions := a.ledger[key].effect.transitions;
      assert transitions[..|transitions|] == transitions;
    }
  }

  lemma UntouchedBooks(a: World, b: World)
    requires b.ledger == a.ledger && b.authors == a.authors && b.entries == a.entries
    ensures Grows(a, b) && NewAuthorsOk(a, b) && NewEntryOk(a, b)
  {
  }

  lemma NewWorkerKeeps(a: World, b: World, w: nat)
    requires WorldOk(a) && LedgerOk(b.ledger) && Grows(a, b) && NewAuthorsOk(a, b) && NewEntryOk(a, b)
    requires w !in a.workers && w in b.workers && b.workers == a.workers[w := b.workers[w]] && WorkerOk(b, w, b.workers[w])
    ensures WorldOk(b)
  {
    hide LedgerOk, WorkerOk, WorkersOk, AuthorsOk, EntriesOk, Grows, NewAuthorsOk, NewEntryOk, Advances;
    Kept(a, b);
  }

  lemma SpawnKeeps(a: World, w: nat, authority: Authority, id: string, leaseId: string, scannedAt: u64)
    requires WorldOk(a)
    ensures WorldOk(Spawned(a, w, authority, id, leaseId, scannedAt))
  {
    hide LedgerOk, WorkerOk, WorkersOk, AuthorsOk, EntriesOk, Spawned, Grows, NewAuthorsOk, NewEntryOk;
    var b := Spawned(a, w, authority, id, leaseId, scannedAt);
    SpawnedWorkerOk(a, w, authority, id, leaseId, scannedAt);
    UntouchedBooks(a, b);
    if b != a {
      NewWorkerKeeps(a, b, w);
    }
  }

  /** A worker's books stay right while neither it nor the ledger touches them. */
  lemma BooksUntouched(a: World, b: World, w: nat, before: Worker, now: Worker)
    requires b.ledger == a.ledger && b.authors == a.authors
    requires now == before.(entered := now.entered, dealing := now.dealing, phase := now.phase)
    requires WorkerOk(a, w, before) && PhaseOk(now)
    ensures WorkerOk(b, w, now)
  {
    hide Replay, PhaseOk;
  }

  /** Steps of a worker that do not touch the ledger. */
  lemma QuietPhase(a: World, step: Step, w: nat)
    requires w in a.workers && PhaseOk(a.workers[w])
    requires step.GiveUp? || step.Withhold? || step.Enter? || step.Hear? || step.LoseClock?
    ensures var b := WorkerStep(a, step, w, a.workers[w]);
      && b.ledger == a.ledger && b.authors == a.authors
      && w in b.workers && b.workers == a.workers[w := b.workers[w]] && PhaseOk(b.workers[w])
      && var before, now := a.workers[w], b.workers[w];
         && now == before.(entered := now.entered, dealing := now.dealing, phase := now.phase)
         && (b == a || (Advances(before, now) && NewEntryOk(a, b)))
  {
    hide Normalized, RawOutcome, ClaimIssued, SettlementIssued, ValidAuthority;
  }

  lemma QuietWorkerOk(a: World, step: Step, w: nat)
    requires w in a.workers && WorkerOk(a, w, a.workers[w])
    requires step.GiveUp? || step.Withhold? || step.Enter? || step.Hear? || step.LoseClock?
    ensures var b := WorkerStep(a, step, w, a.workers[w]);
      && w in b.workers && WorkerOk(b, w, b.workers[w])
      && b.ledger == a.ledger && b.authors == a.authors && b.workers == a.workers[w := b.workers[w]]
      && Grows(a, b) && NewAuthorsOk(a, b)
      && (b == a || (Advances(a.workers[w], b.workers[w]) && NewEntryOk(a, b)))
  {
    hide WorkerStep, PhaseOk, ObservedOk, ClaimOk, Advances, NewEntryOk, AuthorOk;
    var b := WorkerStep(a, step, w, a.workers[w]);
    QuietPhase(a, step, w);
    BooksUntouched(a, b, w, a.workers[w], b.workers[w]);
  }

  lemma OneWorkerMoves(a: World, b: World, w: nat)
    requires WorldOk(a) && LedgerOk(b.ledger) && Grows(a, b) && NewAuthorsOk(a, b)
    requires w in a.workers && w in b.workers && b.workers == a.workers[w := b.workers[w]]
    requires WorkerOk(b, w, b.workers[w]) && Advances(a.workers[w], b.workers[w]) && NewEntryOk(a, b)
    ensures WorldOk(b)
  {
    hide LedgerOk, AuthorsOk, EntriesOk, WorkersOk, WorkerOk, NewEntryOk, Advances, Grows, NewAuthorsOk;
    Kept(a, b);
  }

  lemma QuietStepKeeps(a: World, step: Step, w: nat)
    requires WorldOk(a) && w in a.workers
    requires step.GiveUp? || step.Withhold? || step.Enter? || step.Hear? || step.LoseClock?
    ensures WorldOk(WorkerStep(a, step, w, a.workers[w]))
  {
    hide WorkerStep, WorkerOk, NewEntryOk, Advances, LedgerOk, AuthorsOk, EntriesOk, Grows, NewAuthorsOk;
    var b := WorkerStep(a, step, w, a.workers[w]);
    QuietWorkerOk(a, step, w);
    if b != a {
      OneWorkerMoves(a, b, w);
    }
  }

  /** A claim that commits freshly always holds the lease it asked for, at the
      attempt it observed: the defensive re-check never fails. */
  lemma CommittedClaimIsHeld(a: World, w: nat, commandId: string, duration: int, at: u64)
    requires LedgerOk(a.ledger) && w in a.workers && WorkerOk(a, w, a.workers[w])
    ensures var worker := a.workers[w];
      var command := Command(commandId, Claim(worker.leaseId, duration));
      var reply := ApplyStep(a.ledger, worker.id, worker.observed, command, at, worker.authority).1;
      reply.Committed? ==> ClaimResult(worker, reply).phase == Holding
  {
    hide Replay, ValidIdentity;
    var worker := a.workers[w];
    if worker.Key() in a.ledger {
      var current := a.ledger[worker.Key()];
      assert SnapshotOk(worker.Key(), current);
      assert current.effect.transitions[..|current.effect.transitions|] == current.effect.transitions;
    }
  }

  /** What a worker and its books say does not depend on the other workers. */
  lemma MovingKeepsBooks(next: World, w: nat, moved: Worker)
    requires WorkerOk(next, w, moved)
    ensures WorkerOk(Moved(next, w, moved), w, moved)
  {
    hide PhaseOk, Replay;
  }

  lemma MovingKeepsGrowth(a: World, next: World, w: nat, moved: Worker)
    requires Grows(a, next) && next.entries == a.entries
    ensures var b := Moved(next, w, moved);
      && Grows(a, b) && NewEntryOk(a, b)
      && b.ledger == next.ledger && b.workers == next.workers[w := moved]
  {
  }

  lemma NewAuthorIsMover(a: World, next: World, w: nat, moved: Worker, r: Revision, kind: CommandKind)
    requires next.authors == a.authors || (Added(a, next, r, ByWorker(w), kind) && WroteIt(moved, r, KindAt(next, r)))
    ensures NewAuthorsOk(a, Moved(next, w, moved))
  {
    hide WroteIt;
  }

  /** A worker that wrote revision `r`, or nothing, keeps the invariant. */
  lemma WriterKeeps(a: World, next: World, w: nat, moved: Worker, r: Revision, kind: CommandKind)
    requires WorldOk(a) && LedgerOk(next.ledger) && Grows(a, next)
    requires next.workers == a.workers && next.entries == a.entries
    requires w in a.workers && Advances(a.workers[w], moved) && WorkerOk(next, w, moved)
    requires next == a || (Added(a, next, r, ByWorker(w), kind) && WroteIt(moved, r, KindAt(next, r)))
    ensures WorldOk(Moved(next, w, moved))
  {
    hide *;
    MovingKeepsBooks(next, w, moved);
    MovingKeepsGrowth(a, next, w, moved);
    NewAuthorIsMover(a, next, w, moved, r, kind);
    OneWorkerMoves(a, Moved(next, w, moved), w);
  }

  lemma HolderOk(a: World, next: World, w: nat, worker: Worker, r: Revision, duration: int)
    requires WorkerOk(next, w, worker) && worker.phase.Prepared? && r == Revision(worker.Key(), worker.observed + 1)
    requires Added(a, next, r, ByWorker(w), Claim(worker.leaseId, duration))
    ensures var holder := worker.(claimed := Some(r.number), phase := Holding);
      WorkerOk(next, w, holder) && WroteIt(holder, r, KindAt(next, r))
  {
    hide Replay;
  }

  lemma FinisherOk(world: World, w: nat, worker: Worker, report: Report)
    requires WorkerOk(world, w, worker)
    ensures WorkerOk(world, w, worker.(phase := Finished(report)))
  {
    hide Replay;
  }

  /** Whatever the ledger replies, the claimant holds a claim exactly when it
      wrote one. */
  lemma ClaimantOk(a: World, w: nat, worker: Worker, commandId: string, duration: int, at: u64)
    requires LedgerOk(a.ledger) && AuthorsOk(a)
    requires w in a.workers && a.workers[w] == worker && WorkerOk(a, w, worker) && worker.phase.Prepared?
    ensures var (next, reply) := ClaimIssued(a, w, worker, commandId, duration, at);
      var r := Revision(worker.Key(), worker.observed + 1);
      && LedgerOk(next.ledger) && Grows(a, next) && next.workers == a.workers && next.entries == a.entries
      && WorkerOk(next, w, ClaimResult(worker, reply))
      && (next == a || Added(a, next, r, ByWorker(w), Claim(worker.leaseId, duration)))
      && (next == a || WroteIt(ClaimResult(worker, reply), r, KindAt(next, r)))
  {
    hide LedgerOk, AuthorsOk, ApplyStep, Grows, ObservedOk, ClaimOk, KindAt, Exists, WroteIt;
    var command := Command(commandId, Claim(worker.leaseId, duration));
    IssuedGrows(a, worker.id, worker.observed, command, at, worker.authority, ByWorker(w));
    CommittedClaimIsHeld(a, w, commandId, duration, at);
    var (next, reply) := ClaimIssued(a, w, worker, commandId, duration, at);
    WorkerPersists(a, next, w, worker);
    if reply.Committed? {
      HolderOk(a, next, w, worker, Revision(worker.Key(), worker.observed + 1), duration);
    } else {
      FinisherOk(next, w, worker, ClaimResult(worker, reply).phase.report);
    }
  }

  lemma ConnectorReasonsAreValid()
    ensures ValidName("connector.failed") && ValidName("connector.timeout") && ValidName("connector.invalid_outcome")
  {
  }

  lemma CancellationReasonsAreValid()
    ensures ValidName("executor.cancelled_after_dispatch") && ValidName("executor.cancelled_before_dispatch")
  {
  }

  lemma GovernorReasonsAreValid()
    ensures ValidName("governor.rate_limited") && ValidName("governor.circuit_open") && ValidName("governor.unavailable")
  {
  }

  /** The executor's own reasons are valid names. */
  lemma OwnReasonsAreValid()
    ensures ValidName("connector.failed") && ValidName("connector.timeout")
    ensures ValidName("executor.cancelled_after_dispatch") && ValidName("connector.invalid_outcome")
    ensures ValidName("executor.cancelled_before_dispatch") && ValidName("governor.rate_limited")
    ensures ValidName("governor.circuit_open") && ValidName("governor.unavailable")
  {
    hide ValidName;
    ConnectorReasonsAreValid();
    CancellationReasonsAreValid();
    GovernorReasonsAreValid();
  }

  lemma HeardIsJustified(worker: Worker, kind: TransitionKind)
    requires PhaseOk(worker) && worker.phase.Settling? && worker.entered && !kind.Created?
    requires CommandKindOf(kind)
          == SettlementOf(worker.leaseId, worker.phase.outcome, worker.phase.absolute, worker.phase.at)
    ensures Justified(worker, kind)
  {
    OwnReasonsAreValid();
    hide ValidName, ValidReceipt, ValidAuthority;
  }

  lemma WithheldIsJustified(worker: Worker, kind: TransitionKind)
    requires PhaseOk(worker) && worker.phase.Settling? && !worker.entered && !kind.Created?
    requires CommandKindOf(kind)
          == SettlementOf(worker.leaseId, worker.phase.outcome, worker.phase.absolute, worker.phase.at)
    ensures Justified(worker, kind)
  {
    hide ValidName, ValidReceipt, ValidAuthority;
  }

  /** What a settlement writes is what the worker's dealings demand. */
  lemma SettlementIsJustified(worker: Worker, kind: TransitionKind)
    requires PhaseOk(worker) && worker.phase.Settling? && !kind.Created?
    requires CommandKindOf(kind)
          == SettlementOf(worker.leaseId, worker.phase.outcome, worker.phase.absolute, worker.phase.at)
    ensures Justified(worker, kind)
  {
    hide PhaseOk, SettlementOf, Justified;
    if worker.entered { HeardIsJustified(worker, kind); } else { WithheldIsJustified(worker, kind); }
  }

  lemma SettlerOk(a: World, w: nat, worker: Worker, commandId: string, report: Report)
    requires LedgerOk(a.ledger) && AuthorsOk(a) && WorkerOk(a, w, worker) && worker.phase.Settling?
    ensures var (next, reply) := SettlementIssued(a, w, worker, commandId);
      var Settling(outcome, absolute, at) := worker.phase;
      var r := Revision(worker.Key(), worker.claimed.value + 1);
      var finished := worker.(phase := Finished(report));
      && LedgerOk(next.ledger) && Grows(a, next) && next.workers == a.workers && next.entries == a.entries
      && WorkerOk(next, w, finished)
      && (next == a || Added(a, next, r, ByWorker(w), SettlementOf(worker.leaseId, outcome, absolute, at)))
      && (next == a || WroteIt(finished, r, KindAt(next, r)))
  {
    hide LedgerOk, AuthorsOk, ApplyStep, Grows, SettlementOf, Justified, ObservedOk, ClaimOk, KindAt, Exists;
    var Settling(outcome, absolute, at) := worker.phase;
    var command := Command(commandId, SettlementOf(worker.leaseId, outcome, absolute, at));
    IssuedGrows(a, worker.id, worker.claimed.value, command, at, worker.authority, ByWorker(w));
    var (next, reply) := SettlementIssued(a, w, worker, commandId);
    WorkerPersists(a, next, w, worker);
    FinisherOk(next, w, worker, report);
    if reply.Committed? {
      SettledOk(a, next, w, worker, Revision(worker.Key(), worker.claimed.value + 1), report);
    }
  }

  lemma SettledOk(a: World, next: World, w: nat, worker: Worker, r: Revision, report: Report)
    requires PhaseOk(worker) && worker.phase.Settling? && r == Revision(worker.Key(), worker.claimed.value + 1)
    requires Added(a, next, r, ByWorker(w),
                   SettlementOf(worker.leaseId, worker.phase.outcome, worker.phase.absolute, worker.phase.at))
    ensures WroteIt(worker.(phase := Finished(report)), r, KindAt(next, r))
  {
    SettlementIsJustified(worker, KindAt(next, r));
  }

  /** A command that commits leaves the status that the live lifecycle gives it. */
  lemma CommittedStatus(ledger: Ledger, id: string, expected: int, command: Command, at: u64, authority: Authority)
    ensures var reply := ApplyStep(ledger, id, expected, command, at, authority).1;
      var key := KeyFor(authority, id);
      reply.Committed? ==>
        && key in ledger
        && var step := ApplyKind(ledger[key].effect.status, ledger[key].effect.transitions, command.kind, at, authority.actor);
           step.Ok? && reply.snapshot.effect.status == step.value.0
  {
    hide ApplyKind, ValidEffect, Recognizes, ValidAuthority, ValidIdentity;
  }

  /** A settlement that commits is reported as what became durable. */
  lemma CommittedSettlementIsReported(a: World, w: nat, worker: Worker, commandId: string)
    requires PhaseOk(worker) && worker.phase.Settling?
    ensures var reply := SettlementIssued(a, w, worker, commandId).1;
      reply.Committed? ==>
        match SettleReport(worker, reply)
        case ReportApplied => reply.snapshot.effect.status.Applied?
        case ReportRejected(reason) => reply.snapshot.effect.status.Rejected? && reply.snapshot.effect.status.reason == reason
        case RetryScheduled(_, retryAt) =>
          reply.snapshot.effect.status.Pending? && reply.snapshot.effect.status.notBefore == retryAt
        case ReportUnknown(reason) => reply.snapshot.effect.status.Unknown? && reply.snapshot.effect.status.reason == reason
        case _ => false
  {
    hide ApplyStep, ValidIdentity, ValidOutcome, ValidAuthority, ValidName, ClaimedBefore;
    var Settling(outcome, absolute, at) := worker.phase;
    var command := Command(commandId, SettlementOf(worker.leaseId, outcome, absolute, at));
    CommittedStatus(a.ledger, worker.id, worker.claimed.value, command, at, worker.authority);
  }

  lemma WritingStepKeeps(a: World, step: Step, w: nat)
    requires WorldOk(a) && w in a.workers && (step.TryClaim? || step.Settle?)
    ensures WorldOk(WorkerStep(a, step, w, a.workers[w]))
  {
    hide LedgerOk, AuthorsOk, EntriesOk, Grows, Added, WroteIt, ClaimIssued, SettlementIssued, SettlementOf, SettleReport;
    hide ObservedOk, ClaimOk;
    var worker := a.workers[w];
    assert WorkerOk(a, w, worker);
    hide WorkersOk;
    if step.TryClaim? && worker.phase.Prepared? {
      var (next, reply) := ClaimIssued(a, w, worker, step.commandId, step.duration, step.at);
      ClaimantOk(a, w, worker, step.commandId, step.duration, step.at);
      WriterKeeps(a, next, w, ClaimResult(worker, reply), Revision(worker.Key(), worker.observed + 1),
                  Claim(worker.leaseId, step.duration));
    } else if step.Settle? && worker.phase.Settling? {
      var Settling(outcome, absolute, at) := worker.phase;
      var (next, reply) := SettlementIssued(a, w, worker, step.commandId);
      var report := SettleReport(worker, reply);
      SettlerOk(a, w, worker, step.commandId, report);
      WriterKeeps(a, next, w, worker.(phase := Finished(report)), Revision(worker.Key(), worker.claimed.value + 1),
                  SettlementOf(worker.leaseId, outcome, absolute, at));
    }
  }

  lemma StepKeepsWorld(a: World, step: Step)
    requires WorldOk(a)
    ensures WorldOk(Do(a, step))
  {
    hide WorldOk, WorkerStep, Created, Spawned, Issued;
    if step.Create? {
      CreateKeeps(a, step.id, step.request, step.at, step.authority);
    } else if step.Client? {
      ClientKeeps(a, step.id, step.expected, step.command, step.at, step.authority);
    } else if step.Spawn? {
      SpawnKeeps(a, step.w, step.authority, step.id, step.leaseId, step.scannedAt);
    } else if step.w in a.workers {
      if step.TryClaim? || step.Settle? {
        WritingStepKeeps(a, step, step.w);
      } else {
        QuietStepKeeps(a, step, step.w);
      }
    }
  }

  // ------------------------------------------------------------- over all runs

  /** The world after these steps, from an empty ledger with no workers. */
  function Run(steps: seq<Step>): World {
    if steps == [] then World(map[], map[], map[], [])
    else Do(Run(steps[..|steps| - 1]), steps[|steps| - 1])
  }

  lemma {:induction false} RunKeepsWorld(steps: seq<Step>)
    ensures WorldOk(Run(steps))
  {
    if steps != [] {
      RunKeepsWorld(steps[..|steps| - 1]);
      hide WorldOk, Do;
      StepKeepsWorld(Run(steps[..|steps| - 1]), steps[|steps| - 1]);
    }
  }

  /** The Connector is entered at most once per Effect revision, and only by the
      worker that wrote the claim at that revision. */
  lemma EnteredAtMostOnce(steps: seq<Step>, i: nat, j: nat)
    requires i < |Run(steps).entries| && j < |Run(steps).entries|
    ensures var world := Run(steps); var r := world.entries[i].revision;
      && Exists(world, r) && KindAt(world, r).ClaimedLease?
      && r in world.authors && world.authors[r] == ByWorker(world.entries[i].worker)
    ensures Run(steps).entries[i].revision == Run(steps).entries[j].revision ==> i == j
  {
    var world := Run(steps);
    RunKeepsWorld(steps);
    hide Run, LedgerOk, AuthorsOk;
    EntryIsOwnClaim(world, i);
    EntryIsOwnClaim(world, j);
  }

  lemma EntryIsOwnClaim(world: World, i: nat)
    requires WorkersOk(world) && EntriesOk(world) && i < |world.entries|
    ensures var entry := world.entries[i]; var r := entry.revision;
      && entry.worker in world.workers
      && Exists(world, r) && r in world.authors && world.authors[r] == ByWorker(entry.worker)
      && KindAt(world, r).ClaimedLease? && KindAt(world, r).leaseId == world.workers[entry.worker].leaseId
  {
    var entry := world.entries[i];
    assert EntryOk(world, entry);
    assert WorkerOk(world, entry.worker, world.workers[entry.worker]);
  }

  /** Whatever a worker writes is the claim it holds or lands on the revision that
      claim produced, and is exactly what its dealings with the Connector demand.
      In particular, if that write makes the Effect pending again, the worker never
      entered the Connector for this claim, or the Connector itself returned a valid
      "not applied" with a delay. */
  lemma NoBlindRetry(steps: seq<Step>, r: Revision)
    requires r in Run(steps).authors && Run(steps).authors[r].ByWorker?
    ensures var world := Run(steps); var w := world.authors[r].worker;
      && Exists(world, r) && w in world.workers && world.workers[w].Key() == r.key
      && var worker := world.workers[w]; var kind := KindAt(world, r);
         || (worker.claimed == Some(r.number) && kind.ClaimedLease? && kind.leaseId == worker.leaseId)
         || (&& worker.claimed == Some(r.number - 1)
             && (worker.entered <==> worker.dealing.Heard?) && MustRecord(worker.dealing, worker.leaseId, kind)
             && (ReturnsToPending(kind) ==>
                   !worker.entered || (worker.dealing.Heard? && ReturnedNotApplied(worker.dealing.answer))))
  {
    var world := Run(steps);
    RunKeepsWorld(steps);
    hide Run, LedgerOk, EntriesOk, MustRecord;
    assert AuthorOk(world, r);
    var w := world.authors[r].worker;
    assert WorkerOk(world, w, world.workers[w]);
    RetriesAreReturned(world.workers[w], KindAt(world, r));
  }

  /** Of what must be recorded, only a valid delayed "not applied" is a retry after
      a dispatch. */
  lemma RetriesAreReturned(worker: Worker, kind: TransitionKind)
    ensures Justified(worker, kind) && ReturnsToPending(kind) ==>
      !worker.entered || (worker.dealing.Heard? && ReturnedNotApplied(worker.dealing.answer))
  {
    hide ValidName, ValidReceipt;
  }

  /** Between two entries for one Effect the transition right before the second
      claim made the Effect pending again, with an explicit retry time. If a
      worker wrote it, that worker withheld its dispatch or heard a valid
      "not applied"; otherwise a client decided it. The two entries carry
      different lease identities. */
  lemma BetweenEntries(steps: seq<Step>, i: nat, j: nat)
    requires i < |Run(steps).entries| && j < |Run(steps).entries|
    requires Run(steps).entries[i].revision.key == Run(steps).entries[j].revision.key
    requires Run(steps).entries[i].revision.number < Run(steps).entries[j].revision.number
    ensures var world := Run(steps); var first := world.entries[i]; var second := world.entries[j];
      var before := Revision(second.revision.key, second.revision.number - 1);
      && first.worker in world.workers && second.worker in world.workers
      && world.workers[first.worker].leaseId != world.workers[second.worker].leaseId
      && first.revision.number < before.number
      && Exists(world, before) && ReturnsToPending(KindAt(world, before))
      && (before in world.authors && world.authors[before].ByWorker? ==>
            && world.authors[before].worker in world.workers
            && var worker := world.workers[world.authors[before].worker];
               !worker.entered || (worker.dealing.Heard? && ReturnedNotApplied(worker.dealing.answer)))
  {
    hide *;
    var world := Run(steps);
    RunKeepsWorld(steps);
    var second := world.entries[j].revision;
    var before := Revision(second.key, second.number - 1);
    EntriesAreSeparated(world, i, j);
    if before in world.authors && world.authors[before].ByWorker? {
      RetryIsJustified(world, before);
    }
  }

  lemma RetryIsJustified(world: World, r: Revision)
    requires WorldOk(world) && r in world.authors && world.authors[r].ByWorker?
    requires Exists(world, r) && ReturnsToPending(KindAt(world, r))
    ensures world.authors[r].worker in world.workers
    ensures var worker := world.workers[world.authors[r].worker];
      !worker.entered || (worker.dealing.Heard? && ReturnedNotApplied(worker.dealing.answer))
  {
    hide LedgerOk, EntriesOk, MustRecord;
    assert AuthorOk(world, r);
    var w := world.authors[r].worker;
    assert WorkerOk(world, w, world.workers[w]);
    RetriesAreReturned(world.workers[w], KindAt(world, r));
  }

  lemma EntriesAreSeparated(world: World, i: nat, j: nat)
    requires WorldOk(world) && i < |world.entries| && j < |world.entries|
    requires world.entries[i].revision.key == world.entries[j].revision.key
    requires world.entries[i].revision.number < world.entries[j].revision.number
    ensures var first := world.entries[i]; var second := world.entries[j];
      var before := Revision(second.revision.key, second.revision.number - 1);
      && first.worker in world.workers && second.worker in world.workers
      && world.workers[first.worker].leaseId != world.workers[second.worker].leaseId
      && first.revision.number < before.number
      && Exists(world, before) && ReturnsToPending(KindAt(world, before))
  {
    hide LedgerOk, WorkersOk, AuthorsOk, EntriesOk, KindAt, Exists, ReturnsToPending;
    EntryIsOwnClaim(world, i);
    EntryIsOwnClaim(world, j);
    ClaimedRevisionsAreSeparated(world, world.entries[i].revision, world.entries[j].revision);
  }

  lemma ClaimedRevisionsAreSeparated(world: World, first: Revision, second: Revision)
    requires LedgerOk(world.ledger) && Exists(world, first) && Exists(world, second)
    requires first.key == second.key && first.number < second.number
    requires KindAt(world, first).ClaimedLease? && KindAt(world, second).ClaimedLease?
    ensures var before := Revision(second.key, second.number - 1);
      first.number < before.number && Exists(world, before) && ReturnsToPending(KindAt(world, before))
    ensures KindAt(world, first).leaseId != KindAt(world, second).leaseId
  {
    hide Replay;
    assert SnapshotOk(first.key, world.ledger[first.key]);
    ClaimsAreSeparated(world.ledger[first.key].effect.transitions, first.number - 1, second.number - 1);
  }

  // ------------------------------------------------------------------ progress

  /** A claim of this pending Effect meets every condition of the lifecycle. */
  predicate Claimable(effect: Effect, leaseId: string, commandId: string, duration: int, at: u64) {
    && effect.status.Pending? && effect.status.notBefore <= at && 1 <= effect.status.nextAttempt <= MAX_EFFECT_ATTEMPTS
    && 0 < |effect.transitions| < MAX_EFFECT_TRANSITIONS && 0 < at
    && effect.transitions[|effect.transitions| - 1].appliedAt <= at
    && ValidIdentity(leaseId) && !ClaimedBefore(effect.transitions, leaseId)
    && ValidLeaseDuration(duration) && at + duration <= U64_MAX
    && ValidIdentity(commandId) && FirstWithId(effect.transitions, commandId).None?
  }

  lemma ClaimCommits(ledger: Ledger, id: string, authority: Authority, leaseId: string, commandId: string, duration: int, at: u64)
    requires LedgerOk(ledger) && ValidAuthority(authority) && ValidIdentity(id) && KeyFor(authority, id) in ledger
    requires Claimable(ledger[KeyFor(authority, id)].effect, leaseId, commandId, duration, at)
    ensures ApplyStep(ledger, id, ledger[KeyFor(authority, id)].revision, Command(commandId, Claim(leaseId, duration)), at, authority).1.Committed?
  {
    hide Replay, ValidIdentity, ClaimedBefore, ValidAuthority;
    var key := KeyFor(authority, id);
    assert SnapshotOk(key, ledger[key]);
    SameTenant(ledger[key].tenant, authority);
    LiveLifecycleReplays(ledger[key].effect, Command(commandId, Claim(leaseId, duration)), at, authority);
  }

  /** Any settlement is allowed to the holder of an unexpired lease. */
  lemma SettlementIsAllowed(worker: Worker, status: Status, transitions: seq<Transition>)
    requires PhaseOk(worker) && worker.phase.Settling? && 0 < worker.phase.at
    requires Holds(status, worker.leaseId, worker.authority.actor, worker.phase.at) && status.lease.attempt < 1_000_000
    ensures exists next :: Lifecycle(status, transitions,
      SettlementOf(worker.leaseId, worker.phase.outcome, worker.phase.absolute, worker.phase.at),
      worker.phase.at, worker.authority.actor, next)
  {
    OwnReasonsAreValid();
    hide ValidName, ValidReceipt, ValidAuthority;
    var Settling(outcome, absolute, at) := worker.phase;
    var attempt := status.lease.attempt;
    var kind := SettlementOf(worker.leaseId, outcome, absolute, at);
    var next := match kind
      case RecordApplied(_, receipt) => Applied(attempt, receipt)
      case RecordUnknown(leaseId, reason) => Unknown(attempt, leaseId, reason)
      case RecordNotApplied(_, reason, retryAt) => if retryAt.Some? then Pending(attempt + 1, retryAt.value) else Rejected(attempt, reason)
      case _ => status;
    assert Lifecycle(status, transitions, kind, at, worker.authority.actor, next);
  }

  /** A settlement that reaches the ledger in time is committed, and is what the
      worker's dealings demand: while the claim is the latest revision and the lease
      has not run out, no answer of the Connector is lost. */
  lemma SettlementCommits(a: World, w: nat, worker: Worker, commandId: string)
    requires LedgerOk(a.ledger) && AuthorsOk(a) && PhaseOk(worker) && worker.phase.Settling? && ValidIdentity(worker.id)
    requires worker.Key() in a.ledger && worker.claimed == Some(a.ledger[worker.Key()].revision)
    requires var e := a.ledger[worker.Key()].effect;
      && Holds(e.status, worker.leaseId, worker.authority.actor, worker.phase.at) && e.status.lease.attempt < 1_000_000
      && 0 < worker.phase.at && |e.transitions| < 4_096
      && ValidIdentity(commandId) && FirstWithId(e.transitions, commandId).None?
      && (e.transitions != [] ==> e.transitions[|e.transitions| - 1].appliedAt <= worker.phase.at)
    ensures var (next, reply) := SettlementIssued(a, w, worker, commandId);
      var r := Revision(worker.Key(), worker.claimed.value + 1);
      reply.Committed? && Exists(next, r) && MustRecord(worker.dealing, worker.leaseId, KindAt(next, r))
  {
    var Settling(outcome, absolute, at) := worker.phase;
    var e := a.ledger[worker.Key()].effect;
    var command := Command(commandId, SettlementOf(worker.leaseId, outcome, absolute, at));
    assert SnapshotOk(worker.Key(), a.ledger[worker.Key()]);
    HistoryIsNotEmpty(e);
    SettlementIsAllowed(worker, e.status, e.transitions);
    hide ValidEffect, ValidIdentity, ApplyStep, Lifecycle, SettlementOf, LedgerOk, AuthorsOk, Holds, MustRecord;
    CommandsAreAnswered(a.ledger, worker.id, worker.claimed.value, command, at, worker.authority);
    IssuedGrows(a, worker.id, worker.claimed.value, command, at, worker.authority, ByWorker(w));
    var (next, reply) := SettlementIssued(a, w, worker, commandId);
    SettlementIsJustified(worker, KindAt(next, Revision(worker.Key(), worker.claimed.value + 1)));
  }

  /** From any world that satisfies the invariant, a new worker can take any due
      Effect through its claim into the Connector. */
  lemma DueEffectCanBeEntered(a: World, w: nat, id: string, authority: Authority, leaseId: string, commandId: string,
                              duration: int, at: u64)
    requires WorldOk(a) && w !in a.workers
    requires ValidAuthority(authority) && ValidIdentity(id) && KeyFor(authority, id) in a.ledger
    requires Claimable(a.ledger[KeyFor(authority, id)].effect, leaseId, commandId, duration, at)
    ensures var key := KeyFor(authority, id);
      var b := Do(Do(Do(a, Spawn(w, authority, id, leaseId, at)), TryClaim(w, commandId, duration, at)), Enter(w));
      b.entries == a.entries + [Entry(w, Revision(key, a.ledger[key].revision + 1))]
  {
    hide LedgerOk, WorkerOk, AuthorsOk, EntriesOk, ApplyStep, ValidAuthority, ValidIdentity;
    var spawned := Do(a, Spawn(w, authority, id, leaseId, at));
    SpawnKeeps(a, w, authority, id, leaseId, at);
    assert WorkerOk(spawned, w, spawned.workers[w]);
    ClaimCommits(a.ledger, id, authority, leaseId, commandId, duration, at);
    CommittedClaimIsHeld(spawned, w, commandId, duration, at);
  }

  /** A scan prepares a worker only for an Effect that is pending and due, and the
      worker observes the current revision and attempt. */
  lemma OnlyDueEffectsArePrepared(a: World, w: nat, authority: Authority, id: string, leaseId: string, scannedAt: u64)
    ensures var b := Spawned(a, w, authority, id, leaseId, scannedAt);
      var key := KeyFor(authority, id);
      b != a ==>
        && w !in a.workers && key in a.ledger && a.ledger[key].effect.status.Pending?
        && a.ledger[key].effect.status.notBefore <= scannedAt
        && w in b.workers && b.workers[w].Key() == key && b.workers[w].leaseId == leaseId
        && b.workers[w].observed == a.ledger[key].revision
        && b.workers[w].attempt == a.ledger[key].effect.status.nextAttempt
  {
  }

  /** A claim attempt is reported as what the ledger did with it: fenced with the
      revision that moved on, already committed when the history holds the very
      command, held when it committed, and failed otherwise. */
  lemma ClaimsAreReported(a: World, w: nat, commandId: string, duration: int, at: u64)
    requires LedgerOk(a.ledger) && w in a.workers && WorkerOk(a, w, a.workers[w]) && a.workers[w].phase.Prepared?
    requires ValidIdentity(a.workers[w].id) && ValidIdentity(commandId)
    ensures var worker := a.workers[w];
      var command := Command(commandId, Claim(worker.leaseId, duration));
      var e := a.ledger[worker.Key()].effect;
      var after := ClaimResult(worker, ClaimIssued(a, w, worker, commandId, duration, at).1);
      && (after.phase == Holding <==> a.ledger[worker.Key()].revision == worker.observed && Committable(e, command, at, worker.authority))
      && (after.phase == Finished(ClaimAlreadyCommitted) <==> exists i: nat :: Recorded(e, i, command, worker.authority))
      && (after.phase.Finished? && after.phase.report.ClaimFenced? <==>
            FirstWithId(e.transitions, commandId).None? && a.ledger[worker.Key()].revision != worker.observed)
      && (after.phase.Finished? && after.phase.report.ClaimFenced? ==> after.phase.report.actual == a.ledger[worker.Key()].revision)
      && (after.phase == Holding || (after.phase.Finished? && (after.phase.report.ClaimFenced?
            || after.phase.report == ClaimAlreadyCommitted || after.phase.report == ClaimFailed)))
  {
    var worker := a.workers[w];
    var command := Command(commandId, Claim(worker.leaseId, duration));
    CommittedClaimIsHeld(a, w, commandId, duration, at);
    hide ApplyStep, Committable, Recorded, LedgerOk, Replay, ValidIdentity;
    CommandsAreAnswered(a.ledger, worker.id, worker.observed, command, at, worker.authority);
  }
}
