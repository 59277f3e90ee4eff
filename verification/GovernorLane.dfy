/** One execution lane of the dispatch governor: a fixed-window rate limiter, a
    circuit breaker with epochs, and a single leased half-open probe.

    `Decide` and `ApplySettlement` update a lane field by field, in the order the
    program does. Each is tied to a specification (`Decided`, `Settled`) that
    classifies the lane once and names the whole successor state. */
module GovernorLane {
  import opened Support

  const MAX_RATE_LIMIT := 1_000_000
  const MAX_WINDOW_MS := 86_400_000
  const MAX_FAILURE_THRESHOLD := 1_000_000
  const MAX_OPEN_DURATION_MS := 604_800_000
  const MAX_PROBE_LEASE_MS := 86_400_000
  const MIN_ADMISSION_RETENTION_MS := 604_800_000
  const MAX_ADMISSION_RETENTION_MS := 31_536_000_000

  datatype Policy = Policy(
    policyId: string,
    maxDispatches: nat,
    windowMs: nat,
    failureThreshold: nat,
    openDurationMs: nat,
    probeLeaseMs: nat,
    retentionMs: nat)

  predicate ValidPolicy(p: Policy) {
    && ValidName(p.policyId)
    && 1 <= p.maxDispatches <= MAX_RATE_LIMIT
    && 1 <= p.windowMs <= MAX_WINDOW_MS
    && 1 <= p.failureThreshold <= MAX_FAILURE_THRESHOLD
    && 1 <= p.openDurationMs <= MAX_OPEN_DURATION_MS
    && 1 <= p.probeLeaseMs <= MAX_PROBE_LEASE_MS
    && MIN_ADMISSION_RETENTION_MS <= p.retentionMs <= MAX_ADMISSION_RETENTION_MS
    && Max(p.windowMs, Max(p.openDurationMs, p.probeLeaseMs)) <= p.retentionMs
  }

  /** The policy digest. Two digests are equal exactly when the policies are:
      the hash is taken to be collision-free and is represented by its input. */
  datatype PolicyDigest = PolicyDigest(of: Policy)

  datatype Decision =
    | Allow
    | AllowProbe
    | RateLimited(retryAt: u64)
    | CircuitOpen(retryAt: u64)
  {
    predicate Admits() { Allow? || AllowProbe? }
  }

  datatype Settlement = Healthy | AvailabilityFailure | Abandoned

  datatype GovernorError =
    | InvalidRequest
    | ClockMovedBackwards
    | ProbeLeaseOverflow
    | RateRetryOverflow
    | WindowCounterOverflow
    | EpochOverflow
    | CircuitRetryOverflow
    | FailureCounterOverflow
    | RetentionOverflow
    | BoundToDifferentContent
    | AdmissionCapacity
    | LaneCapacity
    | PolicyRebound
    | UnknownAdmission
    | DeniedAdmission
    | SettledBeforeAdmission
    | SettledDifferently
    | MissingLane
    | TimeExceedsSqlite
    | CorruptRow

  datatype LaneState = LaneState(
    digest: PolicyDigest,
    lastObserved: u64,
    windowStarted: u64,
    windowCount: int,
    failures: int,
    epoch: u64,
    openUntil: Option<u64>,
    probeId: Option<string>,
    probeExpires: Option<u64>)

  datatype Admission = Admission(id: string, operation: Operation, policy: Policy, at: u64)

  datatype AdmissionRecord = AdmissionRecord(
    operation: Operation,
    policy: Policy,
    digest: PolicyDigest,
    admittedAt: u64,
    expiresAt: u64,
    epoch: u64,
    decision: Decision,
    settlement: Option<Settlement>)

  // ---------------------------------------------------------------- windows

  /** The multiple of the window at or before `now`. */
  function WindowStart(now: int, window: int): (w: int)
    requires 0 <= now && 0 < window
    ensures w <= now < w + window && 0 <= w
    ensures exists n: nat :: w == n * window
  {
    assert now - now % window == (now / window) * window && 0 <= now / window;
    now - now % window
  }

  lemma MultiplesAreApart(p: int, q: int, window: int)
    requires p < q && 0 < window
    ensures p * window + window <= q * window
  {
    var gap := q - p - 1;
    assert gap * window >= 0;
    assert q * window == (p + 1 + gap) * window == p * window + window + gap * window;
  }

  /** Windows partition time: a later instant is in the same window or in one
      that begins at least a whole window later. */
  lemma WindowsPartition(a: int, b: int, window: int)
    requires 0 <= a <= b && 0 < window
    ensures WindowStart(a, window) == WindowStart(b, window)
         || WindowStart(a, window) + window <= WindowStart(b, window)
  {
    var p, q := a / window, b / window;
    assert WindowStart(a, window) == p * window && WindowStart(b, window) == q * window;
    if p < q {
      MultiplesAreApart(p, q, window);
    } else if q < p {
      MultiplesAreApart(q, p, window);
    }
  }

  lemma WindowStartIdempotent(a: int, window: int)
    requires 0 <= a && 0 < window
    ensures WindowStart(WindowStart(a, window), window) == WindowStart(a, window)
  {
    WindowsPartition(WindowStart(a, window), a, window);
  }

  // ----------------------------------------------------------- specification

  /** What a request at `now` meets. */
  datatype Phase =
    | Blocked(until: u64)            // the open duration is still running
    | ProbeBusy(until: u64)          // another half-open probe holds its lease
    | ProbeFree                      // the open duration is over, no probe is leased
    | Window(start: int, used: int)  // closed: the window and its consumed slots

  function PhaseAt(lane: LaneState, policy: Policy, now: u64): Phase
    requires 0 < policy.windowMs
  {
    match lane.openUntil
    case Some(until) =>
      if now < until then Blocked(until)
      else if lane.probeExpires.Some? && now < lane.probeExpires.value then ProbeBusy(lane.probeExpires.value)
      else ProbeFree
    case None =>
      var start := WindowStart(now, policy.windowMs);
      Window(start, if start == lane.windowStarted then lane.windowCount else 0)
  }

  /** The clock moves on and an expired probe lease is dropped. */
  function Observed(lane: LaneState, now: u64): LaneState {
    if lane.probeExpires.Some? && lane.probeExpires.value <= now
    then lane.(lastObserved := now, probeId := None, probeExpires := None)
    else lane.(lastObserved := now)
  }

  type Verdict = Result<(Decision, u64), GovernorError>

  /** Successor lane and verdict of one admission request. A lane touched before
      an overflow is detected stays touched, as in the program. */
  function Decided(lane: LaneState, request: Admission): (LaneState, Verdict)
    requires ValidPolicy(request.policy)
  {
    var now, policy := request.at, request.policy;
    if now < lane.lastObserved then (lane, Err(ClockMovedBackwards))
    else
      var seen := Observed(lane, now);
      match PhaseAt(lane, policy, now)
      case Blocked(until) => (seen, Ok((CircuitOpen(until), lane.epoch)))
      case ProbeBusy(until) => (seen, Ok((CircuitOpen(until), lane.epoch)))
      case ProbeFree =>
        if now + policy.probeLeaseMs > U64_MAX then (seen, Err(ProbeLeaseOverflow))
        else (seen.(probeId := Some(request.id), probeExpires := Some(now + policy.probeLeaseMs)),
              Ok((AllowProbe, lane.epoch)))
      case Window(start, used) =>
        var rolled := seen.(windowStarted := start, windowCount := used);
        if used >= policy.maxDispatches then
          if start + policy.windowMs > U64_MAX then (rolled, Err(RateRetryOverflow))
          else (rolled, Ok((RateLimited(start + policy.windowMs), lane.epoch)))
        else if used + 1 > U32_MAX then (rolled, Err(WindowCounterOverflow))
        else (rolled.(windowCount := used + 1), Ok((Allow, lane.epoch)))
  }

  /** Settlement evidence counts only for the circuit generation it was issued
      in, and for a probe only while that probe still owns the lane. */
  predicate Counts(lane: LaneState, id: string, record: AdmissionRecord) {
    && record.epoch == lane.epoch
    && (record.decision.AllowProbe? ==> lane.probeId == Some(id))
  }

  /** A settlement that opens (or reopens) the circuit. */
  predicate Trips(lane: LaneState, record: AdmissionRecord, settlement: Settlement) {
    && settlement.AvailabilityFailure?
    && (record.decision.AllowProbe? || lane.failures + 1 >= record.policy.failureThreshold)
  }

  function EffectiveAt(lane: LaneState, at: u64): u64 {
    if at < lane.lastObserved then lane.lastObserved else at
  }

  function Settled(lane: LaneState, id: string, record: AdmissionRecord, settlement: Settlement, at: u64)
    : (LaneState, Result<(), GovernorError>)
  {
    if !Counts(lane, id, record) then (lane, Ok(()))
    else
      var time := EffectiveAt(lane, at);
      var seen := lane.(lastObserved := time);
      var probe := record.decision.AllowProbe?;
      match settlement
      case Abandoned =>
        (if probe then seen.(probeId := None, probeExpires := None) else seen, Ok(()))
      case Healthy =>
        (if probe then seen.(openUntil := None, probeId := None, probeExpires := None, failures := 0)
         else seen.(failures := 0), Ok(()))
      case AvailabilityFailure =>
        var until := time + record.policy.openDurationMs;
        if !probe && lane.failures + 1 > U32_MAX then (seen, Err(FailureCounterOverflow))
        else
          var counted := if probe then seen else seen.(failures := lane.failures + 1);
          if !Trips(lane, record, settlement) then (counted, Ok(()))
          else if lane.epoch == U64_MAX then (counted, Err(EpochOverflow))
          else if until > U64_MAX then (counted.(epoch := lane.epoch + 1), Err(CircuitRetryOverflow))
          else (counted.(epoch := lane.epoch + 1, openUntil := Some(until), probeId := None, probeExpires := None,
                         failures := if probe then record.policy.failureThreshold else lane.failures + 1), Ok(()))
  }

  function InitialLane(request: Admission): LaneState
    requires 0 < request.policy.windowMs
  {
    LaneState(PolicyDigest(request.policy), request.at, WindowStart(request.at, request.policy.windowMs),
              0, 0, 1, None, None, None)
  }

  // ---------------------------------------------------------- in-place forms

  /** The admission decision, one field update at a time. */
  method Decide(lane0: LaneState, request: Admission) returns (lane: LaneState, verdict: Verdict)
    requires ValidPolicy(request.policy)
    ensures (lane, verdict) == Decided(lane0, request)
  {
    lane := lane0;
    var now := request.at;
    if now < lane.lastObserved {
      return lane, Err(ClockMovedBackwards);
    }
    lane := lane.(lastObserved := now);
    if lane.probeExpires.Some? && lane.probeExpires.value <= now {
      lane := lane.(probeId := None);
      lane := lane.(probeExpires := None);
    }
    if lane.openUntil.Some? {
      if lane.openUntil.value > now {
        return lane, Ok((CircuitOpen(lane.openUntil.value), lane.epoch));
      }
      if lane.probeExpires.Some? {
        return lane, Ok((CircuitOpen(lane.probeExpires.value), lane.epoch));
      }
      var probeUntil := now + request.policy.probeLeaseMs;
      if probeUntil > U64_MAX {
        return lane, Err(ProbeLeaseOverflow);
      }
      lane := lane.(probeId := Some(request.id));
      lane := lane.(probeExpires := Some(probeUntil));
      return lane, Ok((AllowProbe, lane.epoch));
    }
    var started := WindowStart(now, request.policy.windowMs);
    if lane.windowStarted != started {
      lane := lane.(windowStarted := started);
      lane := lane.(windowCount := 0);
    }
    if lane.windowCount >= request.policy.maxDispatches {
      var retryAt := started + request.policy.windowMs;
      if retryAt > U64_MAX {
        return lane, Err(RateRetryOverflow);
      }
      return lane, Ok((RateLimited(retryAt), lane.epoch));
    }
    if lane.windowCount + 1 > U32_MAX {
      return lane, Err(WindowCounterOverflow);
    }
    lane := lane.(windowCount := lane.windowCount + 1);
    return lane, Ok((Allow, lane.epoch));
  }

  /** The settlement transition, one field update at a time. */
  method ApplySettlement(lane0: LaneState, id: string, record: AdmissionRecord, settlement: Settlement, at: u64)
    returns (lane: LaneState, outcome: Result<(), GovernorError>)
    ensures (lane, outcome) == Settled(lane0, id, record, settlement, at)
  {
    lane := lane0;
    if record.epoch != lane.epoch {
      return lane, Ok(());
    }
    var probe := record.decision.AllowProbe?;
    if probe && lane.probeId != Some(id) {
      return lane, Ok(());
    }
    var effectiveAt: u64 := if at < lane.lastObserved then lane.lastObserved else at;
    lane := lane.(lastObserved := effectiveAt);
    match (probe, settlement) {
      case (true, Healthy) =>
        lane := lane.(openUntil := None);
        lane := lane.(probeId := None);
        lane := lane.(probeExpires := None);
        lane := lane.(failures := 0);
      case (true, AvailabilityFailure) =>
        if lane.epoch + 1 > U64_MAX {
          return lane, Err(EpochOverflow);
        }
        lane := lane.(epoch := lane.epoch + 1);
        if effectiveAt + record.policy.openDurationMs > U64_MAX {
          return lane, Err(CircuitRetryOverflow);
        }
        lane := lane.(openUntil := Some(effectiveAt + record.policy.openDurationMs));
        lane := lane.(probeId := None);
        lane := lane.(probeExpires := None);
        lane := lane.(failures := record.policy.failureThreshold);
      case (true, Abandoned) =>
        lane := lane.(probeId := None);
        lane := lane.(probeExpires := None);
      case (false, Healthy) =>
        lane := lane.(failures := 0);
      case (false, AvailabilityFailure) =>
        if lane.failures + 1 > U32_MAX {
          return lane, Err(FailureCounterOverflow);
        }
        lane := lane.(failures := lane.failures + 1);
        if lane.failures >= record.policy.failureThreshold {
          if lane.epoch + 1 > U64_MAX {
            return lane, Err(EpochOverflow);
          }
          lane := lane.(epoch := lane.epoch + 1);
          if effectiveAt + record.policy.openDurationMs > U64_MAX {
            return lane, Err(CircuitRetryOverflow);
          }
          lane := lane.(openUntil := Some(effectiveAt + record.policy.openDurationMs));
          lane := lane.(probeId := None);
          lane := lane.(probeExpires := None);
        }
      case (false, Abandoned) =>
    }
    return lane, Ok(());
  }

  // --------------------------------------------------------------- invariant

  /** What every lane satisfies after any calls at all. */
  ghost predicate LaneCore(lane: LaneState) {
    var p := lane.digest.of;
    && ValidPolicy(p)
    && 0 < lane.lastObserved
    && 1 <= lane.epoch
    && 0 <= lane.failures
    && (lane.openUntil.Some? ==> 0 < lane.openUntil.value)
    && (lane.probeId.Some? <==> lane.probeExpires.Some?)
    && (lane.probeExpires.Some? ==>
          && lane.openUntil.Some?
          && lane.openUntil.value + p.probeLeaseMs <= lane.probeExpires.value
          && lane.probeExpires.value <= lane.lastObserved + p.probeLeaseMs)
    && 0 <= lane.windowCount <= p.maxDispatches
    && lane.windowStarted == WindowStart(lane.windowStarted, p.windowMs)
    && lane.windowStarted <= lane.lastObserved
  }

  /** The circuit is open exactly when the failure counter stands at the
      threshold, which it never passes. */
  predicate CircuitOk(lane: LaneState) {
    && lane.failures <= lane.digest.of.failureThreshold
    && (lane.openUntil.Some? <==> lane.failures == lane.digest.of.failureThreshold)
  }

  ghost predicate LaneOk(lane: LaneState) {
    LaneCore(lane) && CircuitOk(lane)
  }

  /** How an issued admission relates to the lane it was issued by. An open
      circuit has already moved past every normal admission. */
  ghost predicate RecordFits(lane: LaneState, record: AdmissionRecord) {
    && record.digest == lane.digest
    && record.policy == lane.digest.of
    && 0 < record.admittedAt <= lane.lastObserved
    && 1 <= record.epoch <= lane.epoch
    && (lane.openUntil.Some? && record.decision.Allow? ==> record.epoch < lane.epoch)
  }

  lemma InitialLaneOk(request: Admission)
    requires ValidPolicy(request.policy) && 0 < request.at
    ensures LaneOk(InitialLane(request))
  {
    WindowStartIdempotent(request.at, request.policy.windowMs);
  }

  /** Every admission decision keeps the lane invariant, even one that reports
      an overflow; it leaves the circuit alone, and everything issued before still
      fits the lane. */
  lemma DecideKeepsLane(lane: LaneState, request: Admission, record: AdmissionRecord)
    requires LaneCore(lane) && request.policy == lane.digest.of
    requires 0 < request.at
    ensures LaneCore(Decided(lane, request).0)
    ensures CircuitOk(lane) <==> CircuitOk(Decided(lane, request).0)
    ensures RecordFits(lane, record) ==> RecordFits(Decided(lane, request).0, record)
    ensures Decided(lane, request).0.digest == lane.digest
    ensures Decided(lane, request).0.epoch == lane.epoch
    ensures lane.lastObserved <= Decided(lane, request).0.lastObserved
  {
    WindowStartIdempotent(request.at, request.policy.windowMs);
  }

  /** The evidence would trip the circuit and there is no room for the new epoch
      or the new deadline. Both halves are known before the call. */
  predicate TripsWithoutRoom(lane: LaneState, id: string, record: AdmissionRecord, settlement: Settlement, at: u64) {
    && Counts(lane, id, record)
    && Trips(lane, record, settlement)
    && (lane.epoch == U64_MAX || EffectiveAt(lane, at) + record.policy.openDurationMs > U64_MAX)
  }

  /** A settlement keeps the lane and the fit of every record, whatever comes of
      it. */
  lemma SettleKeepsLane(lane: LaneState, id: string, record: AdmissionRecord, settlement: Settlement, at: u64,
                        other: AdmissionRecord)
    requires LaneCore(lane) && RecordFits(lane, record) && RecordFits(lane, other)
    requires record.decision.Admits()
    ensures var (next, outcome) := Settled(lane, id, record, settlement, at);
            && LaneCore(next) && RecordFits(next, other)
            && next.digest == lane.digest
            && lane.epoch <= next.epoch
            && lane.lastObserved <= next.lastObserved
  {
  }

  /** On a healthy lane a settlement succeeds exactly when the circuit does not
      have to trip without room. The circuit stays healthy in every other case,
      and for a probe even then, because a probe finds it open: the one branch
      that damages it is a normal admission that trips without room. */
  lemma SettleKeepsCircuitIff(lane: LaneState, id: string, record: AdmissionRecord, settlement: Settlement, at: u64)
    requires LaneOk(lane) && RecordFits(lane, record) && record.decision.Admits()
    ensures var (next, outcome) := Settled(lane, id, record, settlement, at);
            && (outcome.Ok? <==> !TripsWithoutRoom(lane, id, record, settlement, at))
            && (LaneOk(next) <==> !(record.decision.Allow? && TripsWithoutRoom(lane, id, record, settlement, at)))
  {
    SettleKeepsLane(lane, id, record, settlement, at, record);
  }

  // --------------------------------------------------------- what is decided

  /** The slots of the window of `at` that the lane has given out. */
  function UsedSlots(lane: LaneState, at: u64): int
    requires 0 < lane.digest.of.windowMs
  {
    if lane.windowStarted == WindowStart(at, lane.digest.of.windowMs) then lane.windowCount else 0
  }

  /** A closed lane grants its whole quota and no more: a request is allowed if and
      only if its window has a slot left, and then takes it; otherwise it is told to
      come back when the window ends, and the call fails if that is never. */
  lemma ClosedLaneDecides(lane: LaneState, request: Admission)
    requires LaneCore(lane) && request.policy == lane.digest.of && lane.openUntil.None?
    requires lane.lastObserved <= request.at
    ensures var (next, verdict) := Decided(lane, request);
      var used, start := UsedSlots(lane, request.at), WindowStart(request.at, request.policy.windowMs);
      var later := start + request.policy.windowMs;
      && (verdict == Ok((Allow, lane.epoch)) <==> used < request.policy.maxDispatches)
      && (used == request.policy.maxDispatches && later <= U64_MAX ==> verdict == Ok((RateLimited(later), lane.epoch)))
      && (verdict.Err? <==> used == request.policy.maxDispatches && later > U64_MAX)
      && next.windowStarted == start && next.openUntil.None?
      && next.windowCount == used + if used < request.policy.maxDispatches then 1 else 0
  {
  }

  /** An open lane refuses until its deadline, then grants one leased probe at a
      time: a probe is granted if and only if the open duration is over and no
      earlier probe still holds its lease; the call fails if its own lease would not
      end in range. */
  lemma OpenLaneDecides(lane: LaneState, request: Admission)
    requires LaneCore(lane) && request.policy == lane.digest.of && lane.openUntil.Some?
    requires lane.lastObserved <= request.at
    ensures var (next, verdict) := Decided(lane, request);
      var busy := lane.probeExpires.Some? && request.at < lane.probeExpires.value;
      var free := lane.openUntil.value <= request.at && !busy;
      && (verdict == Ok((CircuitOpen(lane.openUntil.value), lane.epoch)) <== request.at < lane.openUntil.value)
      && (verdict == Ok((AllowProbe, lane.epoch)) <==> free && request.at + request.policy.probeLeaseMs <= U64_MAX)
      && (verdict.Err? <==> free && request.at + request.policy.probeLeaseMs > U64_MAX)
      && (lane.openUntil.value <= request.at && busy ==> verdict == Ok((CircuitOpen(lane.probeExpires.value), lane.epoch)))
      && (verdict == Ok((AllowProbe, lane.epoch)) ==>
            next.probeId == Some(request.id) && next.probeExpires == Some(request.at + request.policy.probeLeaseMs))
      && next.openUntil == lane.openUntil
  {
  }

  /** Evidence of a normal admission that counts: a healthy result starts the count
      of failures over, an abandoned one leaves it, a failure adds one, and the
      circuit opens if and only if that reaches the threshold. */
  lemma NormalEvidenceDecides(lane: LaneState, id: string, record: AdmissionRecord, settlement: Settlement, at: u64)
    requires LaneCore(lane) && RecordFits(lane, record) && record.decision.Allow? && record.epoch == lane.epoch
    requires Settled(lane, id, record, settlement, at).1.Ok?
    ensures var next := Settled(lane, id, record, settlement, at).0;
      var failed := if settlement.AvailabilityFailure? then lane.failures + 1 else if settlement.Healthy? then 0 else lane.failures;
      && lane.openUntil.None? && next.failures == failed
      && (next.openUntil.Some? <==> settlement.AvailabilityFailure? && failed >= lane.digest.of.failureThreshold)
      && (next.openUntil.Some? ==> next.openUntil.value == EffectiveAt(lane, at) + lane.digest.of.openDurationMs)
      && next.epoch == lane.epoch + if next.openUntil.Some? then 1 else 0
  {
  }

  /** Evidence of the probe that holds the lease ends the lease. A healthy result
      closes the circuit with no failure counted, a failure opens it anew in a new
      generation, an abandoned probe leaves it as it was. */
  lemma ProbeEvidenceDecides(lane: LaneState, id: string, record: AdmissionRecord, settlement: Settlement, at: u64)
    requires LaneCore(lane) && RecordFits(lane, record) && record.decision.AllowProbe?
    requires record.epoch == lane.epoch && lane.probeId == Some(id)
    requires Settled(lane, id, record, settlement, at).1.Ok?
    ensures var next := Settled(lane, id, record, settlement, at).0;
      && next.probeId.None? && next.probeExpires.None? && lane.openUntil.Some?
      && (settlement.Healthy? ==> next.openUntil.None? && next.failures == 0 && next.epoch == lane.epoch)
      && (settlement.Abandoned? ==>
            next.openUntil == lane.openUntil && next.failures == lane.failures && next.epoch == lane.epoch)
      && (settlement.AvailabilityFailure? ==>
            && next.openUntil == Some(EffectiveAt(lane, at) + lane.digest.of.openDurationMs)
            && next.failures == lane.digest.of.failureThreshold && next.epoch == lane.epoch + 1)
  {
  }

  /** Evidence that should open the circuit but finds no room for it: a failure of a
      normal admission stays counted (as long as the counter has room), nothing opens,
      and the generation moves on if there is a next one. */
  lemma FailedEvidenceDecides(lane: LaneState, id: string, record: AdmissionRecord, settlement: Settlement, at: u64)
    requires LaneCore(lane) && RecordFits(lane, record) && record.decision.Admits()
    ensures var (next, outcome) := Settled(lane, id, record, settlement, at);
      var full := record.decision.Allow? && lane.failures >= U32_MAX;
      && (outcome.Err? <==>
            || TripsWithoutRoom(lane, id, record, settlement, at)
            || (full && Counts(lane, id, record) && settlement.AvailabilityFailure?))
      && (outcome.Err? ==>
            && next.openUntil == lane.openUntil && next.probeId == lane.probeId && next.probeExpires == lane.probeExpires
            && next.failures == lane.failures + (if record.decision.Allow? && !full then 1 else 0)
            && next.epoch == lane.epoch + (if full || lane.epoch == U64_MAX then 0 else 1)
            && next.lastObserved == Max(at, lane.lastObserved))
  {
  }

  /** Evidence from another generation, or of a probe that lost its lease, changes
      nothing. */
  lemma StaleEvidenceDecides(lane: LaneState, id: string, record: AdmissionRecord, settlement: Settlement, at: u64)
    requires record.epoch != lane.epoch || (record.decision.AllowProbe? && lane.probeId != Some(id))
    ensures Settled(lane, id, record, settlement, at) == (lane, Ok(()))
  {
  }

  // ------------------------------------------------------------- retry times

  function RetryAt(decision: Decision): u64
    requires !decision.Admits()
  {
    decision.retryAt
  }

  /** Retry times are exact. A denial moves nothing but the observed clock, its
      retry time lies ahead, the lane keeps answering with the same denial at
      every instant up to it, and at the retry time it admits, unless the clock
      is so late that a probe lease has no representable end. */
  lemma RetryTimesAreExact(lane: LaneState, request: Admission, later: Admission)
    requires LaneCore(lane) && request.policy == later.policy == lane.digest.of
    requires 0 < request.at
    requires Decided(lane, request).1.Ok? && !Decided(lane, request).1.value.0.Admits()
    requires request.at <= later.at
    ensures var (denied, verdict) := Decided(lane, request);
            var retry := RetryAt(verdict.value.0);
            && denied == lane.(lastObserved := request.at)
            && request.at < retry
            && (later.at < retry ==> Decided(denied, later) == (denied.(lastObserved := later.at), verdict))
            && (later.at == retry ==>
                 if lane.openUntil.None? then
                   Decided(denied, later).1 == Ok((Allow, lane.epoch))
                 else
                   if later.at + later.policy.probeLeaseMs <= U64_MAX
                   then Decided(denied, later).1 == Ok((AllowProbe, lane.epoch))
                   else Decided(denied, later).1 == Err(ProbeLeaseOverflow))
  {
    var window := lane.digest.of.windowMs;
    WindowsPartition(request.at, later.at, window);
    WindowsPartition(lane.windowStarted, request.at, window);
  }
}
