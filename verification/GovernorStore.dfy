/** The process-local governor: lanes and admission records of every tenant, and
    what holds over whole runs of admission and settlement calls. */
module GovernorStore {
  import opened Support
  import opened GovernorLane

  const MAX_ADMISSIONS := 1_000_000
  const MAX_LANES := 1_000_000

  datatype LaneKey = LaneKey(tenant: string, capability: string, operation: string, policyId: string)

  datatype AdmissionKey = AdmissionKey(tenant: string, id: string)

  datatype Store = Store(lanes: map<LaneKey, LaneState>, admissions: map<AdmissionKey, AdmissionRecord>)

  datatype Call =
    | Admit(tenant: string, request: Admission)
    | Settle(tenant: string, id: string, settlement: Settlement, at: u64)

  datatype Response = Admitted(decision: Decision) | Recorded | Refused(error: GovernorError)

  function KeyOf(tenant: string, operation: Operation, policy: Policy): LaneKey {
    LaneKey(tenant, operation.capability, operation.operation, policy.policyId)
  }

  function LaneOf(key: AdmissionKey, record: AdmissionRecord): LaneKey {
    KeyOf(key.tenant, record.operation, record.policy)
  }

  predicate ValidRequest(request: Admission) {
    ValidOperation(request.operation) && ValidPolicy(request.policy) && 0 < request.at
  }

  function Pruned(admissions: map<AdmissionKey, AdmissionRecord>, at: u64): map<AdmissionKey, AdmissionRecord> {
    map key | key in admissions && admissions[key].expiresAt > at :: admissions[key]
  }

  function RecordFor(request: Admission, epoch: u64, decision: Decision): Result<AdmissionRecord, GovernorError>
    requires ValidPolicy(request.policy)
  {
    if request.at + request.policy.retentionMs > U64_MAX then Err(RetentionOverflow)
    else Ok(AdmissionRecord(request.operation, request.policy, PolicyDigest(request.policy), request.at,
                            request.at + request.policy.retentionMs, epoch, decision, None))
  }

  predicate SameContent(record: AdmissionRecord, request: Admission) {
    && record.operation == request.operation
    && record.policy.policyId == request.policy.policyId
    && record.digest == PolicyDigest(request.policy)
  }

  function SettlementError(record: AdmissionRecord, settlement: Settlement, at: u64): Option<GovernorError> {
    if !record.decision.Admits() then Some(DeniedAdmission)
    else if at < record.admittedAt then Some(SettledBeforeAdmission)
    else if record.settlement.Some? && record.settlement.value != settlement then Some(SettledDifferently)
    else None
  }

  // ----------------------------------------------------------- specification

  /** The lane a request is decided on: its own, or a new one. */
  function LaneFor(lanes: map<LaneKey, LaneState>, key: LaneKey, request: Admission): LaneState
    requires ValidPolicy(request.policy)
  {
    if key in lanes then lanes[key] else InitialLane(request)
  }

  function AdmitStep(s: Store, tenant: string, request: Admission): (Store, Response) {
    if !ValidRequest(request) then (s, Refused(InvalidRequest))
    else
      var kept := Pruned(s.admissions, request.at);
      var key := AdmissionKey(tenant, request.id);
      var laneKey := KeyOf(tenant, request.operation, request.policy);
      var pruned := s.(admissions := kept);
      if key in kept then
        (pruned, if SameContent(kept[key], request) then Admitted(kept[key].decision)
                 else Refused(BoundToDifferentContent))
      else if |kept| >= MAX_ADMISSIONS then (pruned, Refused(AdmissionCapacity))
      else if laneKey !in s.lanes && |s.lanes| >= MAX_LANES then (pruned, Refused(LaneCapacity))
      else
        var lane := LaneFor(s.lanes, laneKey, request);
        if lane.digest != PolicyDigest(request.policy) then (pruned, Refused(PolicyRebound))
        else
          var (next, verdict) := Decided(lane, request);
          var lanes := s.lanes[laneKey := next];
          match verdict
          case Err(error) => (Store(lanes, kept), Refused(error))
          case Ok((decision, epoch)) =>
            match RecordFor(request, epoch, decision)
            case Err(error) => (Store(lanes, kept), Refused(error))
            case Ok(record) => (Store(lanes, kept[key := record]), Admitted(decision))
  }

  function SettleStep(s: Store, tenant: string, id: string, settlement: Settlement, at: u64): (Store, Response) {
    var key := AdmissionKey(tenant, id);
    if at == 0 then (s, Refused(InvalidRequest))
    else if key !in s.admissions then (s, Refused(UnknownAdmission))
    else
      var record := s.admissions[key];
      var error := SettlementError(record, settlement, at);
      if error.Some? then (s, Refused(error.value))
      else if record.settlement.Some? then (s, Recorded)
      else if LaneOf(key, record) !in s.lanes then (s, Refused(MissingLane))
      else
        var (next, outcome) := Settled(s.lanes[LaneOf(key, record)], id, record, settlement, at);
        var lanes := s.lanes[LaneOf(key, record) := next];
        match outcome
        case Err(error) => (s.(lanes := lanes), Refused(error))
        case Ok(_) => (Store(lanes, s.admissions[key := record.(settlement := Some(settlement))]), Recorded)
  }

  function Step(s: Store, call: Call): (Store, Response) {
    match call
    case Admit(tenant, request) => AdmitStep(s, tenant, request)
    case Settle(tenant, id, settlement, at) => SettleStep(s, tenant, id, settlement, at)
  }

  // ----------------------------------------------------------------- history

  /** What a call adds to the history of the store: a freshly issued admission
      or the first settlement of one. `counted` tells whether the lane heeded it,
      `probe` whether it is evidence of a probe. */
  datatype Event =
    | Issued(lane: LaneKey, id: string, at: u64, decision: Decision, epoch: u64, policy: Policy)
    | Evidence(lane: LaneKey, id: string, settlement: Settlement, at: u64, counted: bool, probe: bool)

  predicate IssuesFreshly(s: Store, call: Call) {
    && call.Admit?
    && Step(s, call).1.Admitted?
    && AdmissionKey(call.tenant, call.request.id) !in Pruned(s.admissions, call.request.at)
  }

  predicate SettlesFirst(s: Store, call: Call) {
    && call.Settle?
    && Step(s, call).1.Recorded?
    && AdmissionKey(call.tenant, call.id) in s.admissions
    && s.admissions[AdmissionKey(call.tenant, call.id)].settlement.None?
  }

  function NewEvents(s: Store, call: Call): seq<Event> {
    if IssuesFreshly(s, call) then
      var key := AdmissionKey(call.tenant, call.request.id);
      var record := Step(s, call).0.admissions[key];
      [Issued(LaneOf(key, record), key.id, record.admittedAt, record.decision, record.epoch, record.policy)]
    else if SettlesFirst(s, call) then
      var key := AdmissionKey(call.tenant, call.id);
      var record := s.admissions[key];
      var lane := LaneOf(key, record);
      [Evidence(lane, call.id, call.settlement, call.at, Counts(s.lanes[lane], call.id, record), record.decision.AllowProbe?)]
    else []
  }

  datatype History = History(store: Store, log: seq<Event>)

  function Next(h: History, call: Call): History {
    History(Step(h.store, call).0, h.log + NewEvents(h.store, call))
  }

  function Run(h: History, calls: seq<Call>): History
    decreases |calls|
  {
    if calls == [] then h else Run(Next(h, calls[0]), calls[1..])
  }

  const EMPTY := History(Store(map[], map[]), [])

  // ------------------------------------------------------- in-place governor

  class MemoryGovernor {
    var lanes: map<LaneKey, LaneState>
    var admissions: map<AdmissionKey, AdmissionRecord>
    ghost var log: seq<Event>

    ghost function Contents(): History
      reads this
    {
      History(Store(lanes, admissions), log)
    }

    constructor ()
      ensures Contents() == EMPTY
    {
      lanes, admissions, log := map[], map[], [];
    }

    /** Atomically admits or denies one lease. */
    method AdmitAs(tenant: string, request: Admission) returns (response: Response)
      modifies this
      ensures Contents() == Next(old(Contents()), Admit(tenant, request))
      ensures response == Step(old(Contents()).store, Admit(tenant, request)).1
      ensures StoreCore(old(Contents()).store) ==> StoreCore(Contents().store)
      ensures StoreOk(old(Contents()).store) ==> StoreOk(Contents().store)
    {
      hide AdmitStep, NewEvents, StoreOk, StoreCore, HasRoom;
      ghost var before := Contents();
      ghost var call := Admit(tenant, request);
      if StoreCore(before.store) { StepKeepsCore(before.store, call); }
      if StoreOk(before.store) {
        StepKeepsStoreIff(before.store, call);
        AdmissionsHaveRoom(before.store, call);
      }
      response := AdmitLocked(tenant, request);
    }

    /** The admission itself, with the state locked. */
    method AdmitLocked(tenant: string, request: Admission) returns (response: Response)
      modifies this
      ensures Contents() == Next(old(Contents()), Admit(tenant, request))
      ensures response == Step(old(Contents()).store, Admit(tenant, request)).1
    {
      hide SameContent, RecordFor, Decided, NewEvents;
      ghost var before := Contents();
      ghost var call := Admit(tenant, request);
      log := log + NewEvents(before.store, call);
      if !ValidRequest(request) {
        return Refused(InvalidRequest);
      }
      admissions := map key | key in admissions && admissions[key].expiresAt > request.at :: admissions[key];
      var key := AdmissionKey(tenant, request.id);
      if key in admissions {
        if !SameContent(admissions[key], request) {
          return Refused(BoundToDifferentContent);
        }
        return Admitted(admissions[key].decision);
      }
      if |admissions| >= MAX_ADMISSIONS {
        return Refused(AdmissionCapacity);
      }
      var laneKey := KeyOf(tenant, request.operation, request.policy);
      if laneKey !in lanes && |lanes| >= MAX_LANES {
        return Refused(LaneCapacity);
      }
      if laneKey !in lanes {
        lanes := lanes[laneKey := InitialLane(request)];
      }
      if lanes[laneKey].digest != PolicyDigest(request.policy) {
        assert lanes == before.store.lanes;
        return Refused(PolicyRebound);
      }
      var lane, verdict := Decide(lanes[laneKey], request);
      lanes := lanes[laneKey := lane];
      assert lanes == before.store.lanes[laneKey := lane];
      if verdict.Err? {
        return Refused(verdict.error);
      }
      var record := RecordFor(request, verdict.value.1, verdict.value.0);
      if record.Err? {
        return Refused(record.error);
      }
      admissions := admissions[key := record.value];
      return Admitted(verdict.value.0);
    }

    /** Idempotently settles one previously allowed admission. */
    method SettleAs(tenant: string, id: string, settlement: Settlement, at: u64) returns (response: Response)
      modifies this
      ensures Contents() == Next(old(Contents()), Settle(tenant, id, settlement, at))
      ensures response == Step(old(Contents()).store, Settle(tenant, id, settlement, at)).1
      ensures StoreCore(old(Contents()).store) ==> StoreCore(Contents().store)
      ensures StoreOk(old(Contents()).store) ==>
        (StoreOk(Contents().store) <==> HasRoom(old(Contents()).store, Settle(tenant, id, settlement, at)))
    {
      ghost var before := Contents();
      ghost var call := Settle(tenant, id, settlement, at);
      if StoreCore(before.store) { StepKeepsCore(before.store, call); }
      if StoreOk(before.store) { StepKeepsStoreIff(before.store, call); }
      log := log + NewEvents(before.store, call);
      if at == 0 {
        return Refused(InvalidRequest);
      }
      var key := AdmissionKey(tenant, id);
      if key !in admissions {
        return Refused(UnknownAdmission);
      }
      var record := admissions[key];
      var error := SettlementError(record, settlement, at);
      if error.Some? {
        return Refused(error.value);
      }
      if record.settlement.Some? {
        return Recorded;
      }
      var laneKey := LaneOf(key, record);
      if laneKey !in lanes {
        return Refused(MissingLane);
      }
      var lane, outcome := ApplySettlement(lanes[laneKey], id, record, settlement, at);
      lanes := lanes[laneKey := lane];
      if outcome.Err? {
        return Refused(outcome.error);
      }
      admissions := admissions[key := record.(settlement := Some(settlement))];
      return Recorded;
    }
  }

  // --------------------------------------------------------- store invariant

  ghost predicate RecordOk(s: Store, key: AdmissionKey, record: AdmissionRecord) {
    && ValidOperation(record.operation)
    && LaneOf(key, record) in s.lanes
    && RecordFits(s.lanes[LaneOf(key, record)], record)
    && record.expiresAt == record.admittedAt + record.policy.retentionMs
    && (!record.decision.Admits() ==> record.admittedAt < RetryAt(record.decision))
    && (record.settlement.Some? ==> record.decision.Admits())
  }

  /** Every lane satisfies its invariant and every admission fits its lane; in
      particular no normal admission carries the epoch of an open circuit. */
  ghost predicate StoreCore(s: Store) {
    && (forall k :: k in s.lanes ==> LaneCore(s.lanes[k]) && s.lanes[k].digest.of.policyId == k.policyId)
    && (forall key :: key in s.admissions ==> RecordOk(s, key, s.admissions[key]))
  }

  /** Besides, every circuit is open exactly when its failure counter stands at
      the threshold. */
  ghost predicate StoreOk(s: Store) {
    StoreCore(s) && CircuitsOk(s)
  }

  ghost predicate CircuitsOk(s: Store) {
    forall k :: k in s.lanes ==> CircuitOk(s.lanes[k])
  }

  /** The call is not the evidence of a normal admission that has to trip its
      circuit at the very end of time. */
  predicate HasRoom(s: Store, call: Call) {
    call.Settle? && SettlesUnsettled(s, call) ==>
      var record := s.admissions[AdmissionKey(call.tenant, call.id)];
      var lane := s.lanes[LaneOf(AdmissionKey(call.tenant, call.id), record)];
      !(record.decision.Allow? && TripsWithoutRoom(lane, call.id, record, call.settlement, call.at))
  }

  predicate SettlesUnsettled(s: Store, call: Call)
    requires call.Settle?
  {
    var key := AdmissionKey(call.tenant, call.id);
    && 0 < call.at
    && key in s.admissions
    && SettlementError(s.admissions[key], call.settlement, call.at).None?
    && s.admissions[key].settlement.None?
    && LaneOf(key, s.admissions[key]) in s.lanes
  }

  /** No call of the run finds its circuit without room to trip. */
  predicate Clean(s: Store, calls: seq<Call>)
    decreases |calls|
  {
    calls != [] ==> HasRoom(s, calls[0]) && Clean(Step(s, calls[0]).0, calls[1..])
  }

  lemma PruneKeepsCore(s: Store, at: u64)
    requires StoreCore(s)
    ensures StoreCore(s.(admissions := Pruned(s.admissions, at)))
  {
    var t := s.(admissions := Pruned(s.admissions, at));
    forall key | key in t.admissions ensures RecordOk(t, key, t.admissions[key]) {
      assert RecordOk(s, key, s.admissions[key]);
    }
  }

  lemma RecordKeepsCore(s: Store, key: AdmissionKey, record: AdmissionRecord)
    requires StoreCore(s) && RecordOk(s, key, record)
    ensures StoreCore(s.(admissions := s.admissions[key := record]))
  {
    var t := s.(admissions := s.admissions[key := record]);
    forall other | other in t.admissions ensures RecordOk(t, other, t.admissions[other]) {
      assert other != key ==> RecordOk(s, other, s.admissions[other]);
    }
  }

  lemma LaneUpdateKeepsCore(s: Store, k: LaneKey, next: LaneState)
    requires StoreCore(s) && LaneCore(next) && next.digest.of.policyId == k.policyId
    requires forall key :: key in s.admissions && LaneOf(key, s.admissions[key]) == k
               ==> RecordFits(next, s.admissions[key])
    ensures StoreCore(s.(lanes := s.lanes[k := next]))
  {
    var t := s.(lanes := s.lanes[k := next]);
    forall key | key in t.admissions ensures RecordOk(t, key, t.admissions[key]) {
      assert RecordOk(s, key, s.admissions[key]);
    }
  }

  lemma DecisionKeepsCore(s: Store, k: LaneKey, request: Admission)
    requires StoreCore(s) && ValidRequest(request) && k.policyId == request.policy.policyId
    requires LaneFor(s.lanes, k, request).digest == PolicyDigest(request.policy)
    ensures StoreCore(s.(lanes := s.lanes[k := Decided(LaneFor(s.lanes, k, request), request).0]))
  {
    InitialLaneOk(request);
    var lane := LaneFor(s.lanes, k, request);
    DecisionIsRecordable(lane, request);
    var next := Decided(lane, request).0;
    forall key | key in s.admissions && LaneOf(key, s.admissions[key]) == k
      ensures RecordFits(next, s.admissions[key])
    {
      assert RecordOk(s, key, s.admissions[key]);
      DecideKeepsLane(lane, request, s.admissions[key]);
    }
    DecideKeepsLane(lane, request, AdmissionRecord(request.operation, request.policy, lane.digest, 0, 0, 0, Allow, None));
    LaneUpdateKeepsCore(s, k, next);
  }

  /** The record written for a successful decision fits the decided lane. */
  lemma IssuedRecordOk(s: Store, tenant: string, request: Admission)
    requires StoreCore(s) && ValidRequest(request)
    requires var k := KeyOf(tenant, request.operation, request.policy);
             LaneFor(s.lanes, k, request).digest == PolicyDigest(request.policy)
    ensures var k := KeyOf(tenant, request.operation, request.policy);
            var (next, verdict) := Decided(LaneFor(s.lanes, k, request), request);
            verdict.Ok? ==>
              var record := RecordFor(request, verdict.value.1, verdict.value.0);
              record.Ok? ==> RecordOk(s.(lanes := s.lanes[k := next]), AdmissionKey(tenant, request.id), record.value)
  {
    InitialLaneOk(request);
    DecisionIsRecordable(LaneFor(s.lanes, KeyOf(tenant, request.operation, request.policy), request), request);
  }

  lemma AdmitKeepsCore(s: Store, tenant: string, request: Admission)
    requires StoreCore(s)
    ensures StoreCore(AdmitStep(s, tenant, request).0)
  {
    if ValidRequest(request) {
      PruneKeepsCore(s, request.at);
      var pruned := s.(admissions := Pruned(s.admissions, request.at));
      var k := KeyOf(tenant, request.operation, request.policy);
      var lane := LaneFor(s.lanes, k, request);
      if AdmitStep(s, tenant, request).0 != pruned {
        DecisionKeepsCore(pruned, k, request);
        IssuedRecordOk(pruned, tenant, request);
        var (next, verdict) := Decided(lane, request);
        var moved := pruned.(lanes := s.lanes[k := next]);
        if verdict.Ok? {
          var record := RecordFor(request, verdict.value.1, verdict.value.0);
          if record.Ok? {
            RecordKeepsCore(moved, AdmissionKey(tenant, request.id), record.value);
          }
        }
      }
    }
  }

  /** What a decision promises about the record that is written for it. */
  lemma DecisionIsRecordable(lane: LaneState, request: Admission)
    requires LaneCore(lane) && ValidRequest(request)
    requires lane.digest == PolicyDigest(request.policy)
    ensures LaneCore(Decided(lane, request).0)
    ensures Decided(lane, request).1.Ok? ==>
      var (decision, epoch) := Decided(lane, request).1.value;
      && Decided(lane, request).0.lastObserved == request.at
      && lane.lastObserved <= request.at
      && epoch == lane.epoch == Decided(lane, request).0.epoch
      && (decision.Allow? ==> Decided(lane, request).0.openUntil.None?)
      && (!decision.Admits() ==> request.at < RetryAt(decision))
  {
    WindowStartIdempotent(request.at, request.policy.windowMs);
  }

  lemma SettleKeepsCore(s: Store, tenant: string, id: string, settlement: Settlement, at: u64)
    requires StoreCore(s)
    ensures StoreCore(SettleStep(s, tenant, id, settlement, at).0)
  {
    var key := AdmissionKey(tenant, id);
    if SettlesUnsettled(s, Settle(tenant, id, settlement, at)) {
      var record := s.admissions[key];
      assert RecordOk(s, key, record);
      var k := LaneOf(key, record);
      var next := Settled(s.lanes[k], id, record, settlement, at).0;
      SettleKeepsLane(s.lanes[k], id, record, settlement, at, record);
      forall other | other in s.admissions && LaneOf(other, s.admissions[other]) == k
        ensures RecordFits(next, s.admissions[other])
      {
        assert RecordOk(s, other, s.admissions[other]);
        SettleKeepsLane(s.lanes[k], id, record, settlement, at, s.admissions[other]);
      }
      LaneUpdateKeepsCore(s, k, next);
      var t := s.(lanes := s.lanes[k := next]);
      assert RecordOk(t, key, record.(settlement := Some(settlement)));
      RecordKeepsCore(t, key, record.(settlement := Some(settlement)));
    }
  }

  /** Every call keeps the store, whatever it is and whatever comes of it. */
  lemma StepKeepsCore(s: Store, call: Call)
    requires StoreCore(s)
    ensures StoreCore(Step(s, call).0)
  {
    match call
    case Admit(tenant, request) => AdmitKeepsCore(s, tenant, request);
    case Settle(tenant, id, settlement, at) => SettleKeepsCore(s, tenant, id, settlement, at);
  }

  /** An admission call leaves all lanes alone or decides on one of them. */
  lemma AdmitOnOneLane(s: Store, tenant: string, request: Admission)
    ensures var next := AdmitStep(s, tenant, request).0; var k := KeyOf(tenant, request.operation, request.policy);
      || next.lanes == s.lanes
      || (&& ValidRequest(request) && LaneFor(s.lanes, k, request).digest == PolicyDigest(request.policy)
          && next.lanes == s.lanes[k := Decided(LaneFor(s.lanes, k, request), request).0])
  {
    hide Decided, RecordFor, SameContent;
  }

  lemma AdmitKeepsCircuits(s: Store, tenant: string, request: Admission)
    requires StoreOk(s)
    ensures CircuitsOk(AdmitStep(s, tenant, request).0)
  {
    hide AdmitStep, RecordOk;
    AdmitOnOneLane(s, tenant, request);
    if AdmitStep(s, tenant, request).0.lanes != s.lanes {
      InitialLaneOk(request);
      var lane := LaneFor(s.lanes, KeyOf(tenant, request.operation, request.policy), request);
      DecideKeepsLane(lane, request, AdmissionRecord(request.operation, request.policy, lane.digest, 0, 0, 0, Allow, None));
    }
  }

  lemma CircuitsAfterOneLane(s: Store, next: Store, k: LaneKey, lane: LaneState)
    requires CircuitsOk(s) && next.lanes == s.lanes[k := lane]
    ensures CircuitsOk(next) <==> CircuitOk(lane)
  {
    hide CircuitOk;
    assert k in next.lanes && next.lanes[k] == lane;
  }

  lemma SettleKeepsCircuitsIff(s: Store, tenant: string, id: string, settlement: Settlement, at: u64)
    requires StoreOk(s)
    ensures CircuitsOk(SettleStep(s, tenant, id, settlement, at).0) <==> HasRoom(s, Settle(tenant, id, settlement, at))
  {
    var key := AdmissionKey(tenant, id);
    if SettlesUnsettled(s, Settle(tenant, id, settlement, at)) {
      var record := s.admissions[key];
      assert RecordOk(s, key, record);
      hide CircuitOk, Settled, LaneCore, RecordFits, TripsWithoutRoom;
      var k := LaneOf(key, record);
      var lane := Settled(s.lanes[k], id, record, settlement, at).0;
      SettleKeepsCircuitIff(s.lanes[k], id, record, settlement, at);
      SettleKeepsLane(s.lanes[k], id, record, settlement, at, record);
      CircuitsAfterOneLane(s, SettleStep(s, tenant, id, settlement, at).0, k, lane);
    }
  }

  /** From a healthy store, a call leads to a healthy store if and only if it has
      room. */
  lemma StepKeepsStoreIff(s: Store, call: Call)
    requires StoreOk(s)
    ensures StoreOk(Step(s, call).0) <==> HasRoom(s, call)
  {
    hide AdmitStep, SettleStep, CircuitsOk, StoreCore, HasRoom;
    StepKeepsCore(s, call);
    match call
    case Admit(tenant, request) =>
      AdmitKeepsCircuits(s, tenant, request);
      AdmissionsHaveRoom(s, call);
    case Settle(tenant, id, settlement, at) => SettleKeepsCircuitsIff(s, tenant, id, settlement, at);
  }

  lemma AdmissionsHaveRoom(s: Store, call: Call)
    requires call.Admit?
    ensures HasRoom(s, call)
  {
  }

  /** The store that a run of calls leads to. */
  function After(s: Store, calls: seq<Call>): Store
    decreases |calls|
  {
    if calls == [] then s else After(Step(s, calls[0]).0, calls[1..])
  }

  /** A run passes only through healthy stores if and only if every one of its
      calls has room: the condition of the theorems about healthy stores is exact. */
  lemma {:induction false} CleanIffHealthy(s: Store, calls: seq<Call>)
    requires StoreOk(s)
    ensures Clean(s, calls) <==> forall n :: 0 <= n <= |calls| ==> StoreOk(After(s, calls[..n]))
    decreases |calls|
  {
    hide StoreOk, Step, HasRoom;
    assert calls[..0] == [];
    if calls != [] {
      var next := Step(s, calls[0]).0;
      StepKeepsStoreIff(s, calls[0]);
      assert calls[..1][1..] == [] && After(s, calls[..1]) == next;
      forall n | 0 < n <= |calls| ensures After(s, calls[..n]) == After(next, calls[1..][..n - 1]) {
        assert calls[..n][1..] == calls[1..][..n - 1];
      }
      if StoreOk(next) {
        CleanIffHealthy(next, calls[1..]);
        assert forall n :: 0 <= n <= |calls[1..]| ==> After(next, calls[1..][..n]) == After(s, calls[..n + 1]);
      }
    }
  }

  /** The first admission of all opens a lane and takes one slot of it. */
  lemma FirstAdmission(start: Store, tenant: string, request: Admission)
    requires start == Store(map[], map[]) && ValidRequest(request) && request.at + request.policy.retentionMs <= U64_MAX
    ensures var key := AdmissionKey(tenant, request.id);
      var k := KeyOf(tenant, request.operation, request.policy);
      var (issued, response) := AdmitStep(start, tenant, request);
      && response == Admitted(Allow)
      && key in issued.admissions && LaneOf(key, issued.admissions[key]) == k
      && issued.admissions[key] == RecordFor(request, 1, Allow).value
      && k in issued.lanes && issued.lanes[k] == InitialLane(request).(windowCount := 1)
  {
    var kept := Pruned(start.admissions, request.at);
    assert kept == map[] && |kept| == 0 && |start.lanes| == 0;
  }

  lemma NoRoomAtTheEnd(issued: Store, tenant: string, request: Admission)
    requires ValidRequest(request) && request.policy.failureThreshold == 1
    requires request.at + request.policy.retentionMs <= U64_MAX
    requires var key := AdmissionKey(tenant, request.id);
      var k := KeyOf(tenant, request.operation, request.policy);
      && key in issued.admissions && LaneOf(key, issued.admissions[key]) == k
      && issued.admissions[key] == RecordFor(request, 1, Allow).value
      && k in issued.lanes && issued.lanes[k] == InitialLane(request).(windowCount := 1)
    ensures !HasRoom(issued, Settle(tenant, request.id, AvailabilityFailure, U64_MAX))
  {
  }

  /** The condition is not idle. After any admission on a fresh store with a
      threshold of one, an availability failure at the end of time leaves the
      failure counter at the threshold with the circuit still closed. */
  lemma FailureAtTheEndOfTime(start: Store, tenant: string, request: Admission)
    requires start == Store(map[], map[]) && ValidRequest(request)
    requires request.policy.failureThreshold == 1 && request.at + request.policy.retentionMs <= U64_MAX
    ensures var calls := [Admit(tenant, request), Settle(tenant, request.id, AvailabilityFailure, U64_MAX)];
      && AdmitStep(start, tenant, request).1 == Admitted(Allow)
      && StoreCore(After(start, calls)) && !StoreOk(After(start, calls))
  {
    var admit, settle := Admit(tenant, request), Settle(tenant, request.id, AvailabilityFailure, U64_MAX);
    var issued := Step(start, admit).0;
    assert StoreOk(start);
    hide AdmitStep, SettleStep, StoreOk, HasRoom, StoreCore, ValidRequest, InitialLane;
    FirstAdmission(start, tenant, request);
    StepKeepsStoreIff(start, admit);
    AdmissionsHaveRoom(start, admit);
    NoRoomAtTheEnd(issued, tenant, request);
    StepKeepsStoreIff(issued, settle);
    OkIsCore(issued);
    StepKeepsCore(issued, settle);
    TwoSteps(start, admit, settle);
  }

  lemma OkIsCore(s: Store)
    requires StoreOk(s)
    ensures StoreCore(s)
  {
  }

  lemma TwoSteps(s: Store, first: Call, second: Call)
    ensures After(s, [first, second]) == Step(Step(s, first).0, second).0
  {
    hide Step;
    var next := Step(s, first).0;
    assert [first, second][1..] == [second] && [second][1..] == [];
    assert After(s, [first, second]) == After(next, [second]);
    assert After(next, [second]) == After(Step(next, second).0, []);
  }
}
