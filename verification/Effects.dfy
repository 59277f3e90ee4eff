/** The durable Effect aggregate. Its lifecycle is written down twice, as in the
    program: `ApplyKind` moves a live aggregate, and `Replay` rebuilds the status
    from the immutable transition history when an aggregate is validated. */
module Effects {
  import opened Support

  const MAX_EFFECT_TRANSITIONS := 4_096
  const MAX_EFFECT_ATTEMPTS := 1_000_000
  const MIN_EFFECT_LEASE_MS := 1_000
  const MAX_EFFECT_LEASE_MS := 604_800_000

  datatype Receipt = Receipt(source: string, externalId: string, observedAt: u64, responseSha256: string)

  datatype Lease = Lease(id: string, owner: string, attempt: int, claimedAt: u64, expiresAt: u64)

  datatype Status =
    | Pending(nextAttempt: int, notBefore: u64)
    | Claimed(lease: Lease)
    | Unknown(attempt: int, leaseId: string, reason: string)
    | Applied(attempt: int, receipt: Receipt)
    | Rejected(attempt: int, reason: string)
    | Cancelled(reason: string)
  {
    predicate Terminal() { Applied? || Rejected? || Cancelled? }
  }

  datatype CreateRequest = CreateRequest(
    commandId: string, operation: Operation, idempotencyKey: string, input: string, notBefore: u64)

  datatype CommandKind =
    | Claim(leaseId: string, duration: int)
    | RenewLease(leaseId: string, duration: int)
    | RecordApplied(leaseId: string, receipt: Receipt)
    | RecordNotApplied(leaseId: string, reason: string, retryAt: Option<u64>)
    | RecordUnknown(leaseId: string, reason: string)
    | ExpireLease(leaseId: string)
    | ReconcileApplied(leaseId: string, attempt: int, receipt: Receipt)
    | ReconcileNotApplied(leaseId: string, attempt: int, reason: string, retryAt: Option<u64>)
    | Cancel(reason: string)

  datatype Command = Command(id: string, kind: CommandKind)

  /** The attributed command digest, represented by what it hashes: it is taken
      to be collision-free. */
  datatype Digest =
    | OfCreate(actor: string, tenant: Option<string>, request: CreateRequest)
    | OfCommand(actor: string, tenant: Option<string>, command: Command)

  datatype TransitionKind =
    | Created(tenant: Option<string>, operation: Operation, idempotencyKey: string, input: string, notBefore: u64)
    | ClaimedLease(leaseId: string, attempt: int, duration: int)
    | LeaseRenewed(leaseId: string, duration: int, previousExpiresAt: u64)
    | AppliedOutcome(leaseId: string, attempt: int, receipt: Receipt, reconciled: bool)
    | NotAppliedOutcome(leaseId: string, attempt: int, reason: string, retryAt: Option<u64>, reconciled: bool)
    | BecameUnknown(leaseId: string, attempt: int, reason: string, expired: bool)
    | CancelledIntent(reason: string)

  datatype Transition = Transition(
    sequence: int, commandId: string, digest: Digest, appliedAt: u64, actor: string, kind: TransitionKind)

  datatype Effect = Effect(
    tenant: Option<string>, operation: Operation, idempotencyKey: string, input: string, createdAt: u64,
    status: Status, transitions: seq<Transition>)

  datatype EffectError =
    | InvalidTime | InvalidIdentity | InvalidOperation | InvalidReason | InvalidReceipt | InvalidLeaseDuration
    | InvalidRetryTime | NotPending | NotEligible | LeaseReused | AttemptOutOfRange | LeaseOverflow
    | NotActivelyLeased | DoesNotExtend | NotExpired | NotUncertain | NotCancellable
    | CommandReused | TooManyTransitions | TimeMovedBackwards | InconsistentHistory

  // --------------------------------------------------------------- validators

  predicate ValidReceipt(receipt: Receipt, at: u64) {
    && ValidName(receipt.source)
    && ValidIdentity(receipt.externalId)
    && 0 < receipt.observedAt <= at
    && ValidSha256(receipt.responseSha256)
  }

  predicate ValidLeaseDuration(duration: int) {
    MIN_EFFECT_LEASE_MS <= duration <= MAX_EFFECT_LEASE_MS
  }

  predicate ValidRetryTime(retryAt: Option<u64>, at: u64) {
    retryAt.Some? ==> at <= retryAt.value && 0 < retryAt.value
  }

  predicate ActivelyLeased(status: Status, leaseId: string, actor: string, at: u64) {
    status.Claimed? && status.lease.id == leaseId && status.lease.owner == actor && at < status.lease.expiresAt
  }

  predicate Uncertain(status: Status, leaseId: string, attempt: int) {
    status.Unknown? && status.attempt == attempt && status.leaseId == leaseId
  }

  /** Status after an authoritative "not applied": pending again only when a
      retry time is given. */
  function NotAppliedStatus(attempt: int, reason: string, retryAt: Option<u64>): Option<Status> {
    match retryAt
    case None => Some(Rejected(attempt, reason))
    case Some(at) => if attempt + 1 <= MAX_EFFECT_ATTEMPTS then Some(Pending(attempt + 1, at)) else None
  }

  // ----------------------------------------------------------- live lifecycle

  type StepResult = Result<(Status, TransitionKind), EffectError>

  predicate ClaimedBefore(transitions: seq<Transition>, leaseId: string) {
    exists i :: 0 <= i < |transitions| && transitions[i].kind.ClaimedLease? && transitions[i].kind.leaseId == leaseId
  }

  function ApplyKind(status: Status, transitions: seq<Transition>, kind: CommandKind, at: u64, actor: string): StepResult {
    match kind
    case Claim(leaseId, duration) =>
      if !status.Pending? then Err(NotPending)
      else if at < status.notBefore then Err(NotEligible)
      else if !ValidIdentity(leaseId) then Err(InvalidIdentity)
      else if ClaimedBefore(transitions, leaseId) then Err(LeaseReused)
      else if !ValidLeaseDuration(duration) then Err(InvalidLeaseDuration)
      else if !(1 <= status.nextAttempt <= MAX_EFFECT_ATTEMPTS) then Err(AttemptOutOfRange)
      else if at + duration > U64_MAX then Err(LeaseOverflow)
      else Ok((Claimed(Lease(leaseId, actor, status.nextAttempt, at, at + duration)),
               ClaimedLease(leaseId, status.nextAttempt, duration)))
    case RenewLease(leaseId, duration) =>
      if !ValidLeaseDuration(duration) then Err(InvalidLeaseDuration)
      else if !ActivelyLeased(status, leaseId, actor, at) then Err(NotActivelyLeased)
      else if at + duration > U64_MAX then Err(LeaseOverflow)
      else if at + duration <= status.lease.expiresAt then Err(DoesNotExtend)
      else Ok((Claimed(status.lease.(expiresAt := at + duration)),
               LeaseRenewed(leaseId, duration, status.lease.expiresAt)))
    case RecordApplied(leaseId, receipt) =>
      if !ValidReceipt(receipt, at) then Err(InvalidReceipt)
      else if !ActivelyLeased(status, leaseId, actor, at) then Err(NotActivelyLeased)
      else Ok((Applied(status.lease.attempt, receipt), AppliedOutcome(leaseId, status.lease.attempt, receipt, false)))
    case RecordNotApplied(leaseId, reason, retryAt) =>
      if !ValidName(reason) then Err(InvalidReason)
      else if !ValidRetryTime(retryAt, at) then Err(InvalidRetryTime)
      else if !ActivelyLeased(status, leaseId, actor, at) then Err(NotActivelyLeased)
      else
        var next := NotAppliedStatus(status.lease.attempt, reason, retryAt);
        if next.None? then Err(AttemptOutOfRange)
        else Ok((next.value, NotAppliedOutcome(leaseId, status.lease.attempt, reason, retryAt, false)))
    case RecordUnknown(leaseId, reason) =>
      if !ValidName(reason) then Err(InvalidReason)
      else if !ActivelyLeased(status, leaseId, actor, at) then Err(NotActivelyLeased)
      else Ok((Unknown(status.lease.attempt, leaseId, reason), BecameUnknown(leaseId, status.lease.attempt, reason, false)))
    case ExpireLease(leaseId) =>
      if !status.Claimed? || status.lease.id != leaseId then Err(NotActivelyLeased)
      else if at < status.lease.expiresAt then Err(NotExpired)
      else Ok((Unknown(status.lease.attempt, leaseId, "lease.expired"),
               BecameUnknown(leaseId, status.lease.attempt, "lease.expired", true)))
    case ReconcileApplied(leaseId, attempt, receipt) =>
      if !ValidReceipt(receipt, at) then Err(InvalidReceipt)
      else if !Uncertain(status, leaseId, attempt) then Err(NotUncertain)
      else Ok((Applied(attempt, receipt), AppliedOutcome(leaseId, attempt, receipt, true)))
    case ReconcileNotApplied(leaseId, attempt, reason, retryAt) =>
      if !ValidName(reason) then Err(InvalidReason)
      else if !ValidRetryTime(retryAt, at) then Err(InvalidRetryTime)
      else if !Uncertain(status, leaseId, attempt) then Err(NotUncertain)
      else
        var next := NotAppliedStatus(attempt, reason, retryAt);
        if next.None? then Err(AttemptOutOfRange)
        else Ok((next.value, NotAppliedOutcome(leaseId, attempt, reason, retryAt, true)))
    case Cancel(reason) =>
      if !ValidName(reason) then Err(InvalidReason)
      else if !(status.Pending? && status.nextAttempt == 1) then Err(NotCancellable)
      else Ok((Cancelled(reason), CancelledIntent(reason)))
  }

  /** A new aggregate. */
  function NewEffect(request: CreateRequest, at: u64, authority: Authority): Result<Effect, EffectError> {
    if !ValidIdentity(request.commandId) || !ValidIdentity(request.idempotencyKey) then Err(InvalidIdentity)
    else if !ValidOperation(request.operation) then Err(InvalidOperation)
    else if request.notBefore == 0 || at == 0 then Err(InvalidTime)
    else
      var created := Created(authority.tenant, request.operation, request.idempotencyKey, request.input, request.notBefore);
      var first := Transition(1, request.commandId, OfCreate(authority.actor, authority.tenant, request), at,
                              authority.actor, created);
      Ok(Effect(authority.tenant, request.operation, request.idempotencyKey, request.input, at,
                Pending(1, request.notBefore), [first]))
  }

  /** Whether the exact command was committed before; an identity reused for
      something else is an error. */
  function Recognizes(e: Effect, command: Command, authority: Authority): Result<bool, EffectError> {
    if !ValidIdentity(command.id) then Err(InvalidIdentity)
    else if e.tenant != authority.tenant then Ok(false)
    else
      match FirstWithId(e.transitions, command.id)
      case None => Ok(false)
      case Some(existing) =>
        if existing.digest == OfCommand(authority.actor, authority.tenant, command) then Ok(true) else Err(CommandReused)
  }

  function FirstWithId(transitions: seq<Transition>, id: string): (r: Option<Transition>)
    ensures r.Some? ==> r.value in transitions && r.value.commandId == id
    ensures r.None? ==> forall i :: 0 <= i < |transitions| ==> transitions[i].commandId != id
  {
    if transitions == [] then None
    else if transitions[0].commandId == id then Some(transitions[0])
    else FirstWithId(transitions[1..], id)
  }

  /** The aggregate that a fresh command proposes, before it is validated. */
  function Proposed(e: Effect, command: Command, at: u64, authority: Authority): Result<Effect, EffectError> {
    if at == 0 then Err(InvalidTime)
    else if |e.transitions| >= MAX_EFFECT_TRANSITIONS then Err(TooManyTransitions)
    else if e.transitions != [] && at < e.transitions[|e.transitions| - 1].appliedAt then Err(TimeMovedBackwards)
    else
      match ApplyKind(e.status, e.transitions, command.kind, at, authority.actor)
      case Err(error) => Err(error)
      case Ok((status, kind)) =>
        var t := Transition(|e.transitions| + 1, command.id, OfCommand(authority.actor, authority.tenant, command), at,
                            authority.actor, kind);
        Ok(e.(status := status, transitions := e.transitions + [t]))
  }

  datatype Outcome = Fresh(effect: Effect) | Duplicate | Failed(error: EffectError)

  /** One command: recognised, refused, or applied and validated as a whole. */
  function ApplyCommand(e: Effect, command: Command, at: u64, authority: Authority): Outcome {
    match Recognizes(e, command, authority)
    case Err(error) => Failed(error)
    case Ok(true) => Duplicate
    case Ok(false) =>
      match Proposed(e, command, at, authority)
      case Err(error) => Failed(error)
      case Ok(next) => if ValidEffect(next) then Fresh(next) else Failed(InconsistentHistory)
  }

  // ------------------------------------------------------------------- replay

  datatype Projection = Projection(
    tenant: Option<string>, operation: Operation, idempotencyKey: string, input: string, createdAt: u64,
    status: Status, leaseIds: set<string>)

  function ReplayKind(p: Projection, t: Transition): Option<Projection> {
    match t.kind
    case Created(_, _, _, _, _) => None
    case ClaimedLease(leaseId, attempt, duration) =>
      if && p.status.Pending? && p.status.notBefore <= t.appliedAt && attempt == p.status.nextAttempt
         && ValidIdentity(leaseId) && ValidLeaseDuration(duration) && leaseId !in p.leaseIds
         && t.appliedAt + duration <= U64_MAX
      then Some(p.(status := Claimed(Lease(leaseId, t.actor, attempt, t.appliedAt, t.appliedAt + duration)),
                   leaseIds := p.leaseIds + {leaseId}))
      else None
    case LeaseRenewed(leaseId, duration, previous) =>
      if && ValidLeaseDuration(duration) && ActivelyLeased(p.status, leaseId, t.actor, t.appliedAt)
         && p.status.lease.expiresAt == previous && previous < t.appliedAt + duration <= U64_MAX
      then Some(p.(status := Claimed(p.status.lease.(expiresAt := t.appliedAt + duration))))
      else None
    case AppliedOutcome(leaseId, attempt, receipt, reconciled) =>
      if && ValidReceipt(receipt, t.appliedAt)
         && (if reconciled then Uncertain(p.status, leaseId, attempt)
             else ActivelyLeased(p.status, leaseId, t.actor, t.appliedAt) && p.status.lease.attempt == attempt)
      then Some(p.(status := Applied(attempt, receipt)))
      else None
    case NotAppliedOutcome(leaseId, attempt, reason, retryAt, reconciled) =>
      if && ValidName(reason) && ValidRetryTime(retryAt, t.appliedAt)
         && (if reconciled then Uncertain(p.status, leaseId, attempt)
             else ActivelyLeased(p.status, leaseId, t.actor, t.appliedAt) && p.status.lease.attempt == attempt)
         && NotAppliedStatus(attempt, reason, retryAt).Some?
      then Some(p.(status := NotAppliedStatus(attempt, reason, retryAt).value))
      else None
    case BecameUnknown(leaseId, attempt, reason, expired) =>
      if && ValidName(reason) && p.status.Claimed? && p.status.lease.id == leaseId && p.status.lease.attempt == attempt
         && (if expired then reason == "lease.expired" && p.status.lease.expiresAt <= t.appliedAt
             else p.status.lease.owner == t.actor && t.appliedAt < p.status.lease.expiresAt)
      then Some(p.(status := Unknown(attempt, leaseId, reason)))
      else None
    case CancelledIntent(reason) =>
      if ValidName(reason) && p.status.Pending? && p.status.nextAttempt == 1
      then Some(p.(status := Cancelled(reason)))
      else None
  }

  /** How far a history has been read: nothing yet, a projection, or evidence
      that does not follow from what precedes it. */
  datatype Replayed = NotStarted | Broken | At(projection: Projection)

  function ReplayOne(r: Replayed, t: Transition): Replayed {
    match r
    case Broken => Broken
    case NotStarted =>
      var c := t.kind;
      if && c.Created? && t.sequence == 1 && ValidOperation(c.operation) && ValidIdentity(c.idempotencyKey)
         && 0 < c.notBefore
      then At(Projection(c.tenant, c.operation, c.idempotencyKey, c.input, t.appliedAt, Pending(1, c.notBefore), {}))
      else Broken
    case At(p) =>
      var next := ReplayKind(p, t);
      if next.Some? then At(next.value) else Broken
  }

  /** The projection of a whole history. */
  function Replay(transitions: seq<Transition>): Replayed {
    if transitions == [] then NotStarted
    else ReplayOne(Replay(transitions[..|transitions| - 1]), transitions[|transitions| - 1])
  }

  function CommandKindOf(kind: TransitionKind): CommandKind
    requires !kind.Created?
  {
    match kind
    case ClaimedLease(leaseId, _, duration) => Claim(leaseId, duration)
    case LeaseRenewed(leaseId, duration, _) => RenewLease(leaseId, duration)
    case AppliedOutcome(leaseId, attempt, receipt, reconciled) =>
      if reconciled then ReconcileApplied(leaseId, attempt, receipt) else RecordApplied(leaseId, receipt)
    case NotAppliedOutcome(leaseId, attempt, reason, retryAt, reconciled) =>
      if reconciled then ReconcileNotApplied(leaseId, attempt, reason, retryAt)
      else RecordNotApplied(leaseId, reason, retryAt)
    case BecameUnknown(leaseId, _, reason, expired) =>
      if expired then ExpireLease(leaseId) else RecordUnknown(leaseId, reason)
    case CancelledIntent(reason) => Cancel(reason)
  }

  function DigestOf(t: Transition, tenant: Option<string>): Option<Digest> {
    match t.kind
    case Created(created, operation, idempotencyKey, input, notBefore) =>
      if created != tenant then None
      else Some(OfCreate(t.actor, tenant, CreateRequest(t.commandId, operation, idempotencyKey, input, notBefore)))
    case _ => Some(OfCommand(t.actor, tenant, Command(t.commandId, CommandKindOf(t.kind))))
  }

  /** Everything a single transition must satisfy besides following its prefix. */
  predicate TransitionOk(e: Effect, i: int)
    requires 0 <= i < |e.transitions|
  {
    var t := e.transitions[i];
    && t.sequence == i + 1
    && ValidIdentity(t.commandId)
    && 0 < t.appliedAt
    && (0 < i ==> e.transitions[i - 1].appliedAt <= t.appliedAt)
    && DigestOf(t, e.tenant) == Some(t.digest)
    && (forall j :: 0 <= j < i ==> e.transitions[j].commandId != t.commandId)
  }

  predicate ProjectionMatches(e: Effect, p: Projection) {
    && p.tenant == e.tenant && p.operation == e.operation && p.idempotencyKey == e.idempotencyKey
    && p.input == e.input && p.createdAt == e.createdAt && p.status == e.status
  }

  predicate ValidEffect(e: Effect) {
    && 1 <= |e.transitions| <= MAX_EFFECT_TRANSITIONS
    && (forall i :: 0 <= i < |e.transitions| ==> TransitionOk(e, i))
    && Replay(e.transitions).At?
    && ProjectionMatches(e, Replay(e.transitions).projection)
  }

  ghost predicate HistoryOk(e: Effect, n: int)
    requires n <= |e.transitions|
  {
    forall i :: 0 <= i < n ==> TransitionOk(e, i)
  }

  function SeenIds(e: Effect, n: int): set<string>
    requires 0 <= n <= |e.transitions|
  {
    set j | 0 <= j < n :: e.transitions[j].commandId
  }

  /** One pass over the history that carries the projection, the command
      identities seen so far and the previous time. */
  method ReadHistory(e: Effect) returns (read: Replayed)
    ensures !read.Broken? <==> HistoryOk(e, |e.transitions|) && !Replay(e.transitions).Broken?
    ensures !read.Broken? ==> read == Replay(e.transitions)
  {
    hide ReplayOne, DigestOf, ValidIdentity;
    read := NotStarted;
    var commandIds: set<string> := {};
    var previousTime := 0;
    var i := 0;
    while i < |e.transitions|
      invariant 0 <= i <= |e.transitions|
      invariant read == Replay(e.transitions[..i]) && !read.Broken?
      invariant commandIds == SeenIds(e, i)
      invariant previousTime == if i == 0 then 0 else e.transitions[i - 1].appliedAt
      invariant HistoryOk(e, i)
    {
      var t := e.transitions[i];
      var sound := t.sequence == i + 1 && ValidIdentity(t.commandId) && t.appliedAt != 0 && previousTime <= t.appliedAt
                && DigestOf(t, e.tenant) == Some(t.digest) && t.commandId !in commandIds;
      ChecksTransition(e, i, commandIds, previousTime);
      if !sound {
        return Broken;
      }
      ReplayExtends(e.transitions, i);
      read := ReplayOne(read, t);
      if read.Broken? {
        BrokenStaysBroken(e.transitions, i + 1);
        return;
      }
      commandIds := commandIds + {t.commandId};
      previousTime := t.appliedAt;
      i := i + 1;
    }
    assert e.transitions[..i] == e.transitions;
  }

  /** Validation: the history reads without a break and ends in this aggregate. */
  method Validate(e: Effect) returns (ok: bool)
    ensures ok == ValidEffect(e)
  {
    if |e.transitions| == 0 || |e.transitions| > MAX_EFFECT_TRANSITIONS {
      return false;
    }
    var read := ReadHistory(e);
    if read.Broken? {
      return false;
    }
    ReplayStarts(e.transitions);
    var p := read.projection;
    return p.tenant == e.tenant && p.operation == e.operation && p.idempotencyKey == e.idempotencyKey
        && p.input == e.input && p.createdAt == e.createdAt && p.status == e.status;
  }

  /** The carried set and time decide what `TransitionOk` says with quantifiers. */
  lemma ChecksTransition(e: Effect, i: int, commandIds: set<string>, previousTime: int)
    requires 0 <= i < |e.transitions|
    requires commandIds == SeenIds(e, i)
    requires previousTime == if i == 0 then 0 else e.transitions[i - 1].appliedAt
    ensures var t := e.transitions[i];
      TransitionOk(e, i) ==
        (&& t.sequence == i + 1 && ValidIdentity(t.commandId) && t.appliedAt != 0 && previousTime <= t.appliedAt
         && DigestOf(t, e.tenant) == Some(t.digest) && t.commandId !in commandIds)
  {
  }

  lemma ReplayExtends(transitions: seq<Transition>, i: int)
    requires 0 <= i < |transitions|
    ensures Replay(transitions[..i + 1]) == ReplayOne(Replay(transitions[..i]), transitions[i])
  {
    assert transitions[..i + 1][..i] == transitions[..i];
  }

  lemma ReplayStarts(transitions: seq<Transition>)
    requires transitions != []
    ensures !Replay(transitions).NotStarted?
  {
  }

  lemma {:induction false} BrokenStaysBroken(transitions: seq<Transition>, n: int)
    requires 0 <= n <= |transitions| && Replay(transitions[..n]).Broken?
    ensures Replay(transitions).Broken?
    decreases |transitions|
  {
    if n < |transitions| {
      var m := |transitions| - 1;
      assert transitions[..m][..n] == transitions[..n];
      BrokenStaysBroken(transitions[..m], n);
    } else {
      assert transitions[..n] == transitions;
    }
  }

  lemma ReplayNeedsPrefixes(transitions: seq<Transition>, n: int)
    requires 0 < n <= |transitions| && Replay(transitions).At?
    ensures Replay(transitions[..n]).At?
  {
    if Replay(transitions[..n]).Broken? { BrokenStaysBroken(transitions, n); }
    ReplayStarts(transitions[..n]);
  }

  // ---------------------------------------- the two lifecycles are one lifecycle

  /** The lease identities a replay has collected are those ever claimed. */
  lemma {:induction false} ReplayCollectsLeases(transitions: seq<Transition>, leaseId: string)
    requires Replay(transitions).At?
    ensures leaseId in Replay(transitions).projection.leaseIds <==> ClaimedBefore(transitions, leaseId)
  {
    var n := |transitions| - 1;
    if 0 < n {
      ReplayCollectsLeases(transitions[..n], leaseId);
    }
  }

  /** One step of the live lifecycle is one step of the replay, and the recorded
      transition gives back the command it was made from. */
  lemma LiveStepReplays(p: Projection, transitions: seq<Transition>, kind: CommandKind, t: Transition)
    requires forall leaseId :: leaseId in p.leaseIds <==> ClaimedBefore(transitions, leaseId)
    requires ApplyKind(p.status, transitions, kind, t.appliedAt, t.actor).Ok?
    requires t.kind == ApplyKind(p.status, transitions, kind, t.appliedAt, t.actor).value.1
    ensures !t.kind.Created? && CommandKindOf(t.kind) == kind
    ensures ReplayKind(p, t).Some?
    ensures ReplayKind(p, t).value.status == ApplyKind(p.status, transitions, kind, t.appliedAt, t.actor).value.0
    ensures ReplayKind(p, t).value.(status := p.status, leaseIds := p.leaseIds) == p
  {
  }

  lemma ProposalReplays(e: Effect, command: Command, at: u64, authority: Authority)
    requires ValidEffect(e) && Proposed(e, command, at, authority).Ok?
    ensures var next := Proposed(e, command, at, authority).value;
      Replay(next.transitions).At? && ProjectionMatches(next, Replay(next.transitions).projection)
    ensures DigestOf(Proposed(e, command, at, authority).value.transitions[|e.transitions|], authority.tenant)
         == Some(OfCommand(authority.actor, authority.tenant, command))
  {
    var next := Proposed(e, command, at, authority).value;
    var p := Replay(e.transitions).projection;
    var t := next.transitions[|e.transitions|];
    forall leaseId ensures leaseId in p.leaseIds <==> ClaimedBefore(e.transitions, leaseId) {
      ReplayCollectsLeases(e.transitions, leaseId);
    }
    LiveStepReplays(p, e.transitions, command.kind, t);
    assert next.transitions[..|e.transitions|] == e.transitions;
  }

  /** Applying a fresh command to a valid aggregate yields a valid aggregate: the
      final validation of `ApplyCommand` never refuses what the lifecycle allowed,
      and the history grows by exactly one transition. */
  lemma LiveLifecycleReplays(e: Effect, command: Command, at: u64, authority: Authority)
    requires ValidEffect(e) && e.tenant == authority.tenant
    ensures var outcome := ApplyCommand(e, command, at, authority);
      && outcome != Failed(InconsistentHistory)
      && (outcome.Fresh? ==>
            && ValidEffect(outcome.effect)
            && outcome.effect.tenant == e.tenant
            && |outcome.effect.transitions| == |e.transitions| + 1
            && outcome.effect.transitions[..|e.transitions|] == e.transitions
            && !outcome.effect.transitions[|e.transitions|].kind.Created?
            && CommandKindOf(outcome.effect.transitions[|e.transitions|].kind) == command.kind)
  {
    hide ReplayOne;
    if Recognizes(e, command, authority) == Ok(false) && Proposed(e, command, at, authority).Ok? {
      var next := Proposed(e, command, at, authority).value;
      ProposalReplays(e, command, at, authority);
      forall i | 0 <= i < |next.transitions| ensures TransitionOk(next, i) {
        if i < |e.transitions| {
          assert TransitionOk(e, i);
        } else {
          assert FirstWithId(e.transitions, command.id).None?;
        }
      }
    }
  }

  lemma NewEffectIsValid(request: CreateRequest, at: u64, authority: Authority)
    requires NewEffect(request, at, authority).Ok?
    ensures ValidEffect(NewEffect(request, at, authority).value)
    ensures |NewEffect(request, at, authority).value.transitions| == 1
  {
    var e := NewEffect(request, at, authority).value;
    assert TransitionOk(e, 0);
    assert e.transitions[..0] == [] && Replay(e.transitions) == ReplayOne(NotStarted, e.transitions[0]);
  }

  /** What the replay accepts is what the live lifecycle would have done: conversely
      to `LiveStepReplays`, with the same status and the same transition. */
  lemma ReplayedStepIsLive(p: Projection, transitions: seq<Transition>, t: Transition)
    requires forall leaseId :: leaseId in p.leaseIds <==> ClaimedBefore(transitions, leaseId)
    requires p.status.Pending? ==> 1 <= p.status.nextAttempt <= MAX_EFFECT_ATTEMPTS
    requires ReplayKind(p, t).Some?
    ensures !t.kind.Created?
    ensures ApplyKind(p.status, transitions, CommandKindOf(t.kind), t.appliedAt, t.actor)
         == Ok((ReplayKind(p, t).value.status, t.kind))
  {
  }

  lemma {:induction false} AttemptsStayInRange(transitions: seq<Transition>)
    requires Replay(transitions).At?
    ensures var status := Replay(transitions).projection.status;
      && (status.Pending? ==> 1 <= status.nextAttempt <= MAX_EFFECT_ATTEMPTS)
      && (status.Claimed? ==> 1 <= status.lease.attempt <= MAX_EFFECT_ATTEMPTS)
      && (status.Unknown? ==> 1 <= status.attempt <= MAX_EFFECT_ATTEMPTS)
  {
    var n := |transitions| - 1;
    if 0 < n { AttemptsStayInRange(transitions[..n]); }
  }

  /** The aggregate as it was after its first `n` transitions. */
  function Former(e: Effect, n: nat): Effect
    requires 1 <= n <= |e.transitions| && Replay(e.transitions[..n]).At?
  {
    e.(status := Replay(e.transitions[..n]).projection.status, transitions := e.transitions[..n])
  }

  /** Creation as it must have been requested. */
  function CreationOf(t: Transition): CreateRequest
    requires t.kind.Created?
  {
    CreateRequest(t.commandId, t.kind.operation, t.kind.idempotencyKey, t.kind.input, t.kind.notBefore)
  }

  lemma FormerIsValid(e: Effect, n: nat)
    requires ValidEffect(e) && 1 <= n <= |e.transitions|
    ensures Replay(e.transitions[..n]).At? && ValidEffect(Former(e, n))
  {
    hide ValidIdentity, ReplayKind;
    ReplayNeedsPrefixes(e.transitions, n);
    ProjectionKeepsOrigin(e.transitions, n);
    var former := Former(e, n);
    forall i | 0 <= i < n ensures TransitionOk(former, i) { assert TransitionOk(e, i); }
  }

  lemma {:induction false} ProjectionKeepsOrigin(transitions: seq<Transition>, n: nat)
    requires Replay(transitions).At? && 1 <= n <= |transitions| && Replay(transitions[..n]).At?
    ensures var p, q := Replay(transitions).projection, Replay(transitions[..n]).projection;
      p.(status := q.status, leaseIds := q.leaseIds) == q
    decreases |transitions|
  {
    var m := |transitions| - 1;
    if n <= m {
      assert transitions[..m][..n] == transitions[..n];
      ProjectionKeepsOrigin(transitions[..m], n);
    } else {
      assert transitions[..n] == transitions;
    }
  }

  /** Validation accepts nothing but histories of live commands: every valid
      aggregate began as the creation it records, and each later transition is what
      its command did to the aggregate before it. */
  lemma ValidIsCreated(e: Effect)
    requires ValidEffect(e)
    ensures e.transitions[0].kind.Created? && Replay(e.transitions[..1]).At?
    ensures NewEffect(CreationOf(e.transitions[0]), e.transitions[0].appliedAt, Authority(e.transitions[0].actor, e.tenant))
         == Ok(Former(e, 1))
  {
    hide ValidIdentity, ReplayKind;
    FormerIsValid(e, 1);
    assert TransitionOk(e, 0);
    var t := e.transitions[0];
    assert e.transitions[..1][..0] == [] && Replay(e.transitions[..1]) == ReplayOne(NotStarted, t);
    assert e.transitions[..1] == [t];
    assert ProjectionMatches(Former(e, 1), Replay(e.transitions[..1]).projection);
  }

  lemma ValidIsLive(e: Effect, n: nat)
    requires ValidEffect(e) && 1 <= n < |e.transitions|
    ensures Replay(e.transitions[..n]).At? && Replay(e.transitions[..n + 1]).At? && !e.transitions[n].kind.Created?
    ensures var t := e.transitions[n];
      ApplyCommand(Former(e, n), Command(t.commandId, CommandKindOf(t.kind)), t.appliedAt, Authority(t.actor, e.tenant))
        == Fresh(Former(e, n + 1))
  {
    hide ValidIdentity, ReplayKind, ApplyKind;
    FormerIsValid(e, n);
    FormerIsValid(e, n + 1);
    var before, t := e.transitions[..n], e.transitions[n];
    var p := Replay(before).projection;
    assert e.transitions[..n + 1][..n] == before;
    assert e.transitions[..n + 1] == before + [t];
    forall leaseId ensures leaseId in p.leaseIds <==> ClaimedBefore(before, leaseId) {
      ReplayCollectsLeases(before, leaseId);
    }
    AttemptsStayInRange(before);
    ReplayedStepIsLive(p, before, t);
    assert TransitionOk(e, n);
    assert FirstWithId(before, t.commandId).None?;
    if 0 < n { assert before[n - 1] == e.transitions[n - 1]; }
  }

  // ------------------------------------------------------- what histories say

  predicate ReturnsToPending(kind: TransitionKind) {
    kind.NotAppliedOutcome? && kind.retryAt.Some?
  }

  /** Once claimed, an Effect is pending again only right after an authoritative
      "not applied" with an explicit retry time. */
  lemma PendingAgain(transitions: seq<Transition>, i: int)
    requires Replay(transitions).At? && 0 <= i < |transitions| && transitions[i].kind.ClaimedLease?
    requires Replay(transitions).projection.status.Pending?
    ensures i < |transitions| - 1 && ReturnsToPending(transitions[|transitions| - 1].kind)
  {
  }

  /** A claim is replayed on a pending Effect with a lease identity never used. */
  lemma ClaimsReplayOnPending(transitions: seq<Transition>, j: int)
    requires Replay(transitions).At? && 0 <= j < |transitions| && transitions[j].kind.ClaimedLease?
    ensures 0 < j && Replay(transitions[..j]).At? && Replay(transitions[..j]).projection.status.Pending?
    ensures !ClaimedBefore(transitions[..j], transitions[j].kind.leaseId)
  {
    ReplayNeedsPrefixes(transitions, j + 1);
    ReplayExtends(transitions, j);
    if 0 < j {
      ReplayNeedsPrefixes(transitions, j);
      ReplayCollectsLeases(transitions[..j], transitions[j].kind.leaseId);
    }
  }

  /** Two claims of one history are separated by such a transition, and no lease
      identity is ever claimed twice. */
  lemma ClaimsAreSeparated(transitions: seq<Transition>, i: int, j: int)
    requires Replay(transitions).At? && 0 <= i < j < |transitions|
    requires transitions[i].kind.ClaimedLease? && transitions[j].kind.ClaimedLease?
    ensures i < j - 1 && ReturnsToPending(transitions[j - 1].kind)
    ensures transitions[i].kind.leaseId != transitions[j].kind.leaseId
  {
    hide ReplayOne;
    ClaimsReplayOnPending(transitions, j);
    assert transitions[..j][i] == transitions[i];
    PendingAgain(transitions[..j], i);
  }

  /** Nothing follows a terminal status. */
  lemma TerminalIsFinal(e: Effect, command: Command, at: u64, authority: Authority)
    requires e.status.Terminal()
    ensures !ApplyCommand(e, command, at, authority).Fresh?
  {
  }

  // --------------------------------------------------- the lifecycle, as a table

  /** The actor holds this unexpired lease. */
  predicate Holds(status: Status, leaseId: string, actor: string, at: u64) {
    && status.Claimed? && status.lease.id == leaseId && status.lease.owner == actor
    && at < status.lease.expiresAt
  }

  /** An authoritative "not applied" rejects the Effect, or makes it pending for the
      next attempt, not before the given time. */
  predicate AfterNotApplied(attempt: int, reason: string, retryAt: Option<u64>, at: u64, next: Status) {
    && ValidName(reason)
    && match retryAt
       case None => next == Rejected(attempt, reason)
       case Some(t) => 0 < t && at <= t && attempt < 1_000_000 && next == Pending(attempt + 1, t)
  }

  /** What a command does to a status, and when it may: the whole lifecycle from
      the old status and the command alone. */
  ghost predicate Lifecycle(was: Status, transitions: seq<Transition>, kind: CommandKind, at: u64, actor: string, next: Status) {
    match kind
    case Claim(leaseId, duration) =>
      && was.Pending? && was.notBefore <= at && 1 <= was.nextAttempt <= 1_000_000
      && ValidIdentity(leaseId)
      && (forall i :: 0 <= i < |transitions| && transitions[i].kind.ClaimedLease? ==> transitions[i].kind.leaseId != leaseId)
      && 1_000 <= duration <= 604_800_000 && at + duration <= U64_MAX
      && next == Claimed(Lease(leaseId, actor, was.nextAttempt, at, at + duration))
    case RenewLease(leaseId, duration) =>
      && Holds(was, leaseId, actor, at)
      && 1_000 <= duration <= 604_800_000 && was.lease.expiresAt < at + duration <= U64_MAX
      && next == Claimed(Lease(leaseId, actor, was.lease.attempt, was.lease.claimedAt, at + duration))
    case RecordApplied(leaseId, receipt) =>
      Holds(was, leaseId, actor, at) && ValidReceipt(receipt, at) && next == Applied(was.lease.attempt, receipt)
    case RecordNotApplied(leaseId, reason, retryAt) =>
      Holds(was, leaseId, actor, at) && AfterNotApplied(was.lease.attempt, reason, retryAt, at, next)
    case RecordUnknown(leaseId, reason) =>
      Holds(was, leaseId, actor, at) && ValidName(reason) && next == Unknown(was.lease.attempt, leaseId, reason)
    case ExpireLease(leaseId) =>
      && was.Claimed? && was.lease.id == leaseId && was.lease.expiresAt <= at
      && next == Unknown(was.lease.attempt, leaseId, "lease.expired")
    case ReconcileApplied(leaseId, attempt, receipt) =>
      && was.Unknown? && was.leaseId == leaseId && was.attempt == attempt
      && ValidReceipt(receipt, at) && next == Applied(attempt, receipt)
    case ReconcileNotApplied(leaseId, attempt, reason, retryAt) =>
      && was.Unknown? && was.leaseId == leaseId && was.attempt == attempt
      && AfterNotApplied(attempt, reason, retryAt, at, next)
    case Cancel(reason) =>
      was.Pending? && was.nextAttempt == 1 && ValidName(reason) && next == Cancelled(reason)
  }

  lemma LifecycleIsExact(was: Status, transitions: seq<Transition>, kind: CommandKind, at: u64, actor: string, next: Status)
    ensures var step := ApplyKind(was, transitions, kind, at, actor);
      step.Ok? && step.value.0 == next <==> Lifecycle(was, transitions, kind, at, actor, next)
  {
    hide ValidName, ValidIdentity, ValidReceipt;
  }

  /** A command commits a new status if and only if its identity is new, its time is
      in order, the history has room and the lifecycle leads to that status. */
  lemma CommandCommitsIff(e: Effect, command: Command, at: u64, authority: Authority, next: Status)
    requires ValidEffect(e) && e.tenant == authority.tenant
    ensures var outcome := ApplyCommand(e, command, at, authority);
      outcome.Fresh? && outcome.effect.status == next <==>
        && ValidIdentity(command.id) && FirstWithId(e.transitions, command.id).None?
        && 0 < at && |e.transitions| < 4_096 && e.transitions[|e.transitions| - 1].appliedAt <= at
        && Lifecycle(e.status, e.transitions, command.kind, at, authority.actor, next)
  {
    LifecycleIsExact(e.status, e.transitions, command.kind, at, authority.actor, next);
    LiveLifecycleReplays(e, command, at, authority);
    hide ApplyKind, Lifecycle, ValidIdentity, Replay, ReplayOne;
  }

  /** Transition `i` is what this command left behind. */
  predicate Recorded(e: Effect, i: nat, command: Command, authority: Authority) {
    && e.tenant == authority.tenant
    && i < |e.transitions| && e.transitions[i].commandId == command.id && e.transitions[i].actor == authority.actor
    && !e.transitions[i].kind.Created? && CommandKindOf(e.transitions[i].kind) == command.kind
  }

  lemma DigestsName(e: Effect, i: nat, command: Command, authority: Authority)
    requires ValidEffect(e) && e.tenant == authority.tenant && i < |e.transitions| && e.transitions[i].commandId == command.id
    ensures e.transitions[i].digest == OfCommand(authority.actor, authority.tenant, command)
      <==> Recorded(e, i, command, authority)
  {
    hide Replay, ValidIdentity;
    assert TransitionOk(e, i);
  }

  lemma OneTransitionPerId(e: Effect, i: nat, j: nat)
    requires ValidEffect(e) && i < |e.transitions| && j < |e.transitions|
    requires e.transitions[i].commandId == e.transitions[j].commandId
    ensures i == j
  {
    hide Replay, ValidIdentity;
    assert TransitionOk(e, i) && TransitionOk(e, j);
  }

  /** A command is recognised if and only if the history holds its own transition:
      the same tenant, identity, actor and content. Its identity with anything else is
      refused, unless the Effect is another tenant's. */
  lemma RecognizedIff(e: Effect, command: Command, authority: Authority)
    requires ValidEffect(e) && ValidIdentity(command.id)
    ensures Recognizes(e, command, authority) == Ok(true) <==> exists i: nat :: Recorded(e, i, command, authority)
    ensures Recognizes(e, command, authority) == Ok(false) <==>
      e.tenant != authority.tenant || forall i :: 0 <= i < |e.transitions| ==> e.transitions[i].commandId != command.id
    ensures Recognizes(e, command, authority).Err? ==> Recognizes(e, command, authority).error == CommandReused
  {
    hide ValidEffect, ValidIdentity, Recorded;
    if e.tenant == authority.tenant && FirstWithId(e.transitions, command.id).Some? {
      FoundHasIdAt(e.transitions, command.id);
      var i :| 0 <= i < |e.transitions| && e.transitions[i] == FirstWithId(e.transitions, command.id).value;
      DigestsName(e, i, command, authority);
      forall j: nat | Recorded(e, j, command, authority) ensures j == i {
        RecordedHasId(e, j, command, authority);
        OneTransitionPerId(e, i, j);
      }
    } else {
      forall j: nat | Recorded(e, j, command, authority) ensures false {
        RecordedHasId(e, j, command, authority);
      }
    }
  }

  lemma RecordedHasId(e: Effect, j: nat, command: Command, authority: Authority)
    requires Recorded(e, j, command, authority)
    ensures e.tenant == authority.tenant && j < |e.transitions| && e.transitions[j].commandId == command.id
  {
  }

  lemma FoundHasIdAt(transitions: seq<Transition>, id: string)
    requires FirstWithId(transitions, id).Some?
    ensures exists i :: 0 <= i < |transitions| && transitions[i] == FirstWithId(transitions, id).value
  {
  }

  // ------------------------------------------------------ attempts and waiting

  function ClaimCount(transitions: seq<Transition>): nat {
    if transitions == [] then 0
    else ClaimCount(transitions[..|transitions| - 1]) + if transitions[|transitions| - 1].kind.ClaimedLease? then 1 else 0
  }

  /** The attempt of a status. */
  function AttemptOf(status: Status): Option<int> {
    match status
    case Pending(nextAttempt, _) => Some(nextAttempt - 1)
    case Claimed(lease) => Some(lease.attempt)
    case Unknown(attempt, _, _) => Some(attempt)
    case Applied(attempt, _) => Some(attempt)
    case Rejected(attempt, _) => Some(attempt)
    case Cancelled(_) => None
  }

  /** Attempt numbers count claims. */
  lemma {:induction false} AttemptsCountClaims(transitions: seq<Transition>)
    requires Replay(transitions).At?
    ensures var attempt := AttemptOf(Replay(transitions).projection.status);
      attempt.Some? ==> attempt.value == ClaimCount(transitions)
  {
    var n := |transitions| - 1;
    if 0 < n {
      AttemptsCountClaims(transitions[..n]);
    } else {
      assert ClaimCount(transitions[..0]) == 0;
    }
  }

  /** What made an Effect pending, and until when: its creation or a "not applied"
      with a retry time. */
  lemma PendingSince(transitions: seq<Transition>)
    requires Replay(transitions).At? && Replay(transitions).projection.status.Pending?
    ensures var last := transitions[|transitions| - 1].kind; var notBefore := Replay(transitions).projection.status.notBefore;
      || (last.Created? && last.notBefore == notBefore)
      || (last.NotAppliedOutcome? && last.retryAt == Some(notBefore))
  {
  }

  /** No claim comes before its time: it follows directly on the creation or on the
      outcome that made the Effect pending, not before the time given there, and its
      attempt is the number of claims so far plus one. */
  lemma ClaimsAwaitTheirTime(transitions: seq<Transition>, j: int)
    requires Replay(transitions).At? && 0 <= j < |transitions| && transitions[j].kind.ClaimedLease?
    ensures 0 < j && transitions[j].kind.attempt == ClaimCount(transitions[..j]) + 1
    ensures var before := transitions[j - 1].kind;
      || (before.Created? && before.notBefore <= transitions[j].appliedAt)
      || (before.NotAppliedOutcome? && before.retryAt.Some? && before.retryAt.value <= transitions[j].appliedAt)
  {
    ClaimsReplayOnPending(transitions, j);
    ReplayNeedsPrefixes(transitions, j + 1);
    ReplayExtends(transitions, j);
    AttemptsCountClaims(transitions[..j]);
    PendingSince(transitions[..j]);
    assert transitions[..j][j - 1] == transitions[j - 1];
  }
}
