/** Properties of whole governor runs: dispatch quotas, circuits that stay open,
    probes that never overlap, evidence that can no longer change a lane. */
module GovernorRuns {
  import opened Support
  import opened GovernorLane
  import opened GovernorStore

  // ---------------------------------------------------------------- counting

  predicate Takes(e: Event, k: LaneKey) {
    e.Issued? && e.lane == k && e.decision.Allow?
  }

  predicate TakesSlot(e: Event, k: LaneKey, w: int) {
    Takes(e, k) && 0 < e.policy.windowMs && WindowStart(e.at, e.policy.windowMs) == w
  }

  /** Normal dispatches issued on lane `k` in the window that starts at `w`. */
  function Slots(log: seq<Event>, k: LaneKey, w: int): nat {
    if log == [] then 0
    else Slots(log[..|log| - 1], k, w) + if TakesSlot(log[|log| - 1], k, w) then 1 else 0
  }

  /** Normal dispatches issued on lane `k` at times in [from, to). */
  function Dispatches(log: seq<Event>, k: LaneKey, from: int, to: int): nat {
    if log == [] then 0
    else
      var e := log[|log| - 1];
      Dispatches(log[..|log| - 1], k, from, to) + if Takes(e, k) && from <= e.at < to then 1 else 0
  }

  lemma SlotsExtend(log: seq<Event>, e: Event, k: LaneKey, w: int)
    ensures Slots(log + [e], k, w) == Slots(log, k, w) + if TakesSlot(e, k, w) then 1 else 0
  {
    assert (log + [e])[..|log|] == log;
  }

  // ------------------------------------------------------- lane-log relation

  predicate IsProbe(e: Event, k: LaneKey) {
    e.Issued? && e.lane == k && e.decision.AllowProbe?
  }

  predicate HeedsProbe(e: Event, k: LaneKey, id: string) {
    e.Evidence? && e.counted && e.lane == k && e.id == id
  }

  /** The probe issued at position `i` was settled, effectively, before `j`. */
  ghost predicate SettledBetween(log: seq<Event>, k: LaneKey, i: int, j: int)
    requires 0 <= i < j <= |log| && log[i].Issued?
  {
    exists m :: i < m < j && HeedsProbe(log[m], k, log[i].id)
  }

  /** Two probes of one lane are separated by an effective settlement of the
      first or by its full lease. */
  ghost predicate ProbesApart(log: seq<Event>, k: LaneKey) {
    forall i, j :: 0 <= i < j < |log| && IsProbe(log[i], k) && IsProbe(log[j], k) ==>
      SettledBetween(log, k, i, j) || log[i].at + log[i].policy.probeLeaseMs <= log[j].at
  }

  ghost predicate ProbeLog(lane: LaneState, k: LaneKey, log: seq<Event>) {
    && ProbesApart(log, k)
    && forall i :: 0 <= i < |log| && IsProbe(log[i], k) ==>
         || (lane.probeId == Some(log[i].id) && lane.probeExpires == Some(log[i].at + lane.digest.of.probeLeaseMs))
         || SettledBetween(log, k, i, |log|)
         || log[i].at + lane.digest.of.probeLeaseMs <= lane.lastObserved
  }

  ghost predicate WindowLog(lane: LaneState, k: LaneKey, log: seq<Event>) {
    && (forall w :: Slots(log, k, w) <= lane.digest.of.maxDispatches)
    && (forall w :: lane.windowStarted < w ==> Slots(log, k, w) == 0)
    && Slots(log, k, lane.windowStarted) <= lane.windowCount
  }

  ghost predicate ClockLog(lane: LaneState, k: LaneKey, log: seq<Event>) {
    forall i :: 0 <= i < |log| && log[i].Issued? && log[i].lane == k ==>
      log[i].at <= lane.lastObserved && log[i].policy == lane.digest.of
  }

  /** While admissions can be recorded, every slot given out is in the log. */
  ghost predicate CountLog(lane: LaneState, k: LaneKey, log: seq<Event>) {
    lane.lastObserved + lane.digest.of.retentionMs <= U64_MAX ==> Slots(log, k, lane.windowStarted) == lane.windowCount
  }

  /** Failures of normal admissions that counted since the last healthy result that
      counted, or since the lane began. */
  function Streak(log: seq<Event>, k: LaneKey): nat {
    if log == [] then 0
    else
      var e, before := log[|log| - 1], Streak(log[..|log| - 1], k);
      if !(e.Evidence? && e.lane == k && e.counted) then before
      else
        match e.settlement
        case Healthy => 0
        case Abandoned => before
        case AvailabilityFailure => if e.probe then before else before + 1
  }

  /** There is no room for another generation of the circuit, now or ever. */
  predicate NoRoomLeft(lane: LaneState) {
    lane.epoch == U64_MAX || lane.lastObserved + lane.digest.of.openDurationMs > U64_MAX
  }

  /** The failure counter counts failures in a row, and the circuit is open exactly
      when they reach the threshold, except on a closed lane that can never open
      again. */
  ghost predicate FailureLog(lane: LaneState, k: LaneKey, log: seq<Event>) {
    && Streak(log, k) <= lane.failures
    && ((Streak(log, k) == lane.failures && CircuitOk(lane)) || (lane.openUntil.None? && NoRoomLeft(lane)))
  }

  ghost predicate LaneLog(lane: LaneState, k: LaneKey, log: seq<Event>) {
    && WindowLog(lane, k, log) && ProbeLog(lane, k, log) && ClockLog(lane, k, log)
    && CountLog(lane, k, log) && FailureLog(lane, k, log)
  }

  ghost predicate HistoryOk(h: History) {
    && StoreCore(h.store)
    && (forall i :: 0 <= i < |h.log| ==> h.log[i].lane in h.store.lanes)
    && (forall k :: k in h.store.lanes ==> LaneLog(h.store.lanes[k], k, h.log))
  }

  // ------------------------------------------------------ one lane, one step

  lemma SettledBetweenExtends(log: seq<Event>, e: Event, k: LaneKey, i: int, j: int)
    requires 0 <= i < j <= |log| && log[i].Issued? && SettledBetween(log, k, i, j)
    ensures SettledBetween(log + [e], k, i, j) && SettledBetween(log + [e], k, i, |log| + 1)
  {
    var m :| i < m < j && HeedsProbe(log[m], k, log[i].id);
    assert HeedsProbe((log + [e])[m], k, (log + [e])[i].id);
  }

  lemma ProbesApartExtends(log: seq<Event>, e: Event, k: LaneKey)
    requires ProbesApart(log, k)
    requires IsProbe(e, k) ==> forall i :: 0 <= i < |log| && IsProbe(log[i], k) ==>
               SettledBetween(log, k, i, |log|) || log[i].at + log[i].policy.probeLeaseMs <= e.at
    ensures ProbesApart(log + [e], k)
  {
    var next := log + [e];
    forall i, j | 0 <= i < j < |next| && IsProbe(next[i], k) && IsProbe(next[j], k)
      ensures SettledBetween(next, k, i, j) || next[i].at + next[i].policy.probeLeaseMs <= next[j].at
    {
      assert next[i] == log[i];
      if j < |log| {
        assert next[j] == log[j];
        if SettledBetween(log, k, i, j) { SettledBetweenExtends(log, e, k, i, j); }
      } else if SettledBetween(log, k, i, |log|) {
        SettledBetweenExtends(log, e, k, i, |log|);
      }
    }
  }

  lemma StreakExtends(log: seq<Event>, e: Event, k: LaneKey)
    ensures Streak(log + [e], k) ==
      if !(e.Evidence? && e.lane == k && e.counted) then Streak(log, k)
      else if e.settlement.Healthy? then 0
      else if e.settlement.Abandoned? || e.probe then Streak(log, k) else Streak(log, k) + 1
  {
    assert (log + [e])[..|log|] == log;
  }

  /** Events of other lanes do not matter. */
  lemma ForeignEvent(lane: LaneState, k: LaneKey, log: seq<Event>, e: Event)
    requires LaneLog(lane, k, log) && e.lane != k
    ensures LaneLog(lane, k, log + [e])
  {
    forall w ensures Slots(log + [e], k, w) == Slots(log, k, w) { SlotsExtend(log, e, k, w); }
    StreakExtends(log, e, k);
    ProbesApartExtends(log, e, k);
    forall i | 0 <= i < |log| && IsProbe(log[i], k) && SettledBetween(log, k, i, |log|)
      ensures SettledBetween(log + [e], k, i, |log| + 1)
    {
      SettledBetweenExtends(log, e, k, i, |log|);
    }
  }

  /** A decision leaves every probe of the log settled, expired or still leased. */
  lemma DecisionAndProbes(lane: LaneState, k: LaneKey, log: seq<Event>, request: Admission, i: int)
    requires LaneCore(lane) && ProbeLog(lane, k, log) && request.policy == lane.digest.of && 0 < request.at
    requires 0 <= i < |log| && IsProbe(log[i], k)
    ensures var (next, verdict) := Decided(lane, request);
            && (|| (next.probeId == Some(log[i].id) && next.probeExpires == Some(log[i].at + lane.digest.of.probeLeaseMs))
                || SettledBetween(log, k, i, |log|)
                || log[i].at + lane.digest.of.probeLeaseMs <= next.lastObserved)
            && (verdict.Ok? && verdict.value.0.AllowProbe? ==>
                 SettledBetween(log, k, i, |log|) || log[i].at + lane.digest.of.probeLeaseMs <= request.at)
  {
  }

  /** The event of a request that was decided with `verdict`. */
  function IssueOf(k: LaneKey, request: Admission, verdict: Verdict): Event
    requires verdict.Ok?
  {
    Issued(k, request.id, request.at, verdict.value.0, verdict.value.1, request.policy)
  }

  /** The event of a settlement that was recorded. */
  function EvidenceOf(lane: LaneState, k: LaneKey, id: string, record: AdmissionRecord, settlement: Settlement, at: u64): Event {
    Evidence(k, id, settlement, at, Counts(lane, id, record), record.decision.AllowProbe?)
  }

  lemma DecisionAndWindows(lane: LaneState, k: LaneKey, log: seq<Event>, request: Admission)
    requires LaneCore(lane) && WindowLog(lane, k, log) && request.policy == lane.digest.of && 0 < request.at
    ensures var (next, verdict) := Decided(lane, request);
            && WindowLog(next, k, log)
            && (verdict.Ok? ==> WindowLog(next, k, log + [IssueOf(k, request, verdict)]))
  {
    var window := lane.digest.of.windowMs;
    var start := WindowStart(request.at, window);
    var (next, verdict) := Decided(lane, request);
    if lane.lastObserved <= request.at {
      WindowsPartition(lane.windowStarted, request.at, window);
    }
    assert WindowLog(next, k, log);
    if verdict.Ok? {
      var e := IssueOf(k, request, verdict);
      forall w ensures Slots(log + [e], k, w) == Slots(log, k, w) + if TakesSlot(e, k, w) then 1 else 0 {
        SlotsExtend(log, e, k, w);
      }
    }
  }

  lemma DecisionKeepsProbeLog(lane: LaneState, k: LaneKey, log: seq<Event>, request: Admission)
    requires LaneCore(lane) && ProbeLog(lane, k, log) && request.policy == lane.digest.of && 0 < request.at
    ensures ProbeLog(Decided(lane, request).0, k, log)
  {
    var next := Decided(lane, request).0;
    forall i | 0 <= i < |log| && IsProbe(log[i], k) ensures
      || (next.probeId == Some(log[i].id) && next.probeExpires == Some(log[i].at + lane.digest.of.probeLeaseMs))
      || SettledBetween(log, k, i, |log|)
      || log[i].at + lane.digest.of.probeLeaseMs <= next.lastObserved
    {
      DecisionAndProbes(lane, k, log, request, i);
    }
  }

  lemma IssueKeepsProbeLog(lane: LaneState, k: LaneKey, log: seq<Event>, request: Admission)
    requires LaneCore(lane) && ProbeLog(lane, k, log) && ClockLog(lane, k, log)
    requires request.policy == lane.digest.of && 0 < request.at && Decided(lane, request).1.Ok?
    ensures ProbeLog(Decided(lane, request).0, k, log + [IssueOf(k, request, Decided(lane, request).1)])
  {
    var next := Decided(lane, request).0;
    var e := IssueOf(k, request, Decided(lane, request).1);
    forall i | 0 <= i < |log| && IsProbe(log[i], k) ensures
      && (IsProbe(e, k) ==> SettledBetween(log, k, i, |log|) || log[i].at + log[i].policy.probeLeaseMs <= e.at)
      && (|| (next.probeId == Some(log[i].id) && next.probeExpires == Some(log[i].at + lane.digest.of.probeLeaseMs))
          || SettledBetween(log + [e], k, i, |log| + 1)
          || log[i].at + lane.digest.of.probeLeaseMs <= next.lastObserved)
    {
      DecisionAndProbes(lane, k, log, request, i);
      if SettledBetween(log, k, i, |log|) { SettledBetweenExtends(log, e, k, i, |log|); }
    }
    ProbesApartExtends(log, e, k);
  }

  lemma DecisionKeepsClockLog(lane: LaneState, k: LaneKey, log: seq<Event>, request: Admission)
    requires ClockLog(lane, k, log) && ValidPolicy(request.policy) && request.policy == lane.digest.of
    ensures var (next, verdict) := Decided(lane, request);
            && ClockLog(next, k, log)
            && (verdict.Ok? ==> ClockLog(next, k, log + [IssueOf(k, request, verdict)]))
  {
  }

  lemma DecisionKeepsFailures(lane: LaneState, k: LaneKey, log: seq<Event>, request: Admission)
    requires FailureLog(lane, k, log) && ValidPolicy(request.policy) && request.policy == lane.digest.of
    ensures var (next, verdict) := Decided(lane, request);
            && FailureLog(next, k, log)
            && (verdict.Ok? ==> FailureLog(next, k, log + [IssueOf(k, request, verdict)]))
  {
    var verdict := Decided(lane, request).1;
    if verdict.Ok? { StreakExtends(log, IssueOf(k, request, verdict), k); }
  }

  lemma DecisionKeepsCounts(lane: LaneState, k: LaneKey, log: seq<Event>, request: Admission)
    requires LaneCore(lane) && WindowLog(lane, k, log) && CountLog(lane, k, log)
    requires request.policy == lane.digest.of && 0 < request.at
    ensures var (next, verdict) := Decided(lane, request);
            && (verdict.Err? || request.at + request.policy.retentionMs > U64_MAX ==> CountLog(next, k, log))
            && (verdict.Ok? ==> CountLog(next, k, log + [IssueOf(k, request, verdict)]))
  {
    var (next, verdict) := Decided(lane, request);
    if lane.lastObserved <= request.at {
      WindowsPartition(lane.windowStarted, request.at, lane.digest.of.windowMs);
    }
    if verdict.Ok? {
      SlotsExtend(log, IssueOf(k, request, verdict), k, next.windowStarted);
    }
  }

  /** A decision that is recorded adds its event to the log; one that is not, adds
      nothing. */
  lemma DecisionKeepsLog(lane: LaneState, k: LaneKey, log: seq<Event>, request: Admission)
    requires LaneCore(lane) && LaneLog(lane, k, log) && request.policy == lane.digest.of && 0 < request.at
    ensures var (next, verdict) := Decided(lane, request);
            && (verdict.Err? || request.at + request.policy.retentionMs > U64_MAX ==> LaneLog(next, k, log))
            && (verdict.Ok? ==> LaneLog(next, k, log + [IssueOf(k, request, verdict)]))
  {
    hide Decided, WindowLog, ProbeLog, ClockLog, CountLog, FailureLog;
    DecisionAndWindows(lane, k, log, request);
    DecisionKeepsProbeLog(lane, k, log, request);
    DecisionKeepsClockLog(lane, k, log, request);
    DecisionKeepsCounts(lane, k, log, request);
    DecisionKeepsFailures(lane, k, log, request);
    if Decided(lane, request).1.Ok? { IssueKeepsProbeLog(lane, k, log, request); }
  }

  /** An effective settlement clears the probe it settles and nothing else does. */
  lemma EvidenceKeepsProbeLog(lane: LaneState, k: LaneKey, log: seq<Event>, id: string, record: AdmissionRecord,
                              settlement: Settlement, at: u64)
    requires LaneCore(lane) && ProbeLog(lane, k, log) && RecordFits(lane, record) && record.decision.Admits()
    requires Settled(lane, id, record, settlement, at).1.Ok?
    ensures ProbeLog(Settled(lane, id, record, settlement, at).0, k,
                     log + [EvidenceOf(lane, k, id, record, settlement, at)])
  {
    var next := Settled(lane, id, record, settlement, at).0;
    var e := EvidenceOf(lane, k, id, record, settlement, at);
    ProbesApartExtends(log, e, k);
    forall i | 0 <= i < |log| && IsProbe(log[i], k) ensures
      || (next.probeId == Some(log[i].id) && next.probeExpires == Some(log[i].at + lane.digest.of.probeLeaseMs))
      || SettledBetween(log + [e], k, i, |log| + 1)
      || log[i].at + lane.digest.of.probeLeaseMs <= next.lastObserved
    {
      if SettledBetween(log, k, i, |log|) {
        SettledBetweenExtends(log, e, k, i, |log|);
      } else if lane.probeId == Some(log[i].id) && next.probeId != lane.probeId {
        assert HeedsProbe((log + [e])[|log|], k, (log + [e])[i].id);
      }
    }
  }

  /** Recorded evidence moves the counter as it moves the streak. */
  lemma EvidenceKeepsFailureLog(lane: LaneState, k: LaneKey, log: seq<Event>, id: string, record: AdmissionRecord,
                                settlement: Settlement, at: u64)
    requires LaneCore(lane) && FailureLog(lane, k, log) && RecordFits(lane, record) && record.decision.Admits()
    requires Settled(lane, id, record, settlement, at).1.Ok?
    ensures FailureLog(Settled(lane, id, record, settlement, at).0, k, log + [EvidenceOf(lane, k, id, record, settlement, at)])
  {
    StreakExtends(log, EvidenceOf(lane, k, id, record, settlement, at), k);
  }

  lemma SettlementKeepsLog(lane: LaneState, k: LaneKey, log: seq<Event>, id: string, record: AdmissionRecord,
                           settlement: Settlement, at: u64)
    requires LaneCore(lane) && LaneLog(lane, k, log) && RecordFits(lane, record) && record.decision.Admits()
    requires Settled(lane, id, record, settlement, at).1.Ok?
    ensures LaneLog(Settled(lane, id, record, settlement, at).0, k,
                    log + [EvidenceOf(lane, k, id, record, settlement, at)])
  {
    var e := EvidenceOf(lane, k, id, record, settlement, at);
    forall w ensures Slots(log + [e], k, w) == Slots(log, k, w) { SlotsExtend(log, e, k, w); }
    EvidenceKeepsProbeLog(lane, k, log, id, record, settlement, at);
    EvidenceKeepsFailureLog(lane, k, log, id, record, settlement, at);
  }

  /** A settlement that fails neither frees nor takes a probe. */
  lemma FailureKeepsLog(lane: LaneState, k: LaneKey, log: seq<Event>, id: string, record: AdmissionRecord,
                        settlement: Settlement, at: u64)
    requires LaneCore(lane) && LaneLog(lane, k, log) && RecordFits(lane, record) && record.decision.Admits()
    requires Settled(lane, id, record, settlement, at).1.Err?
    ensures LaneLog(Settled(lane, id, record, settlement, at).0, k, log)
  {
  }

  // ------------------------------------------------------- the store, one step

  ghost predicate Untouched(s: Store, call: Call, k: LaneKey) {
    && k in s.lanes && k in Step(s, call).0.lanes && Step(s, call).0.lanes[k] == s.lanes[k]
    && forall e :: e in NewEvents(s, call) ==> e.lane != k
  }

  ghost predicate DecidedOn(s: Store, call: Call, k: LaneKey) {
    && call.Admit? && ValidRequest(call.request)
    && k in Step(s, call).0.lanes
    && k == KeyOf(call.tenant, call.request.operation, call.request.policy)
    && LaneFor(s.lanes, k, call.request).digest == PolicyDigest(call.request.policy)
    && var (next, verdict) := Decided(LaneFor(s.lanes, k, call.request), call.request);
       && Step(s, call).0.lanes[k] == next
       && (Unrecorded(s, call, k) || IssuedEvent(s, call, k))
  }

  ghost predicate SettledOn(s: Store, call: Call, k: LaneKey) {
    && call.Settle? && k in s.lanes && k in Step(s, call).0.lanes && SettlesUnsettled(s, call)
    && var record := s.admissions[AdmissionKey(call.tenant, call.id)];
       && k == LaneOf(AdmissionKey(call.tenant, call.id), record)
       && LaneCore(s.lanes[k]) && RecordFits(s.lanes[k], record)
       && Settled(s.lanes[k], call.id, record, call.settlement, call.at) == (Step(s, call).0.lanes[k], Ok(()))
       && NewEvents(s, call) == [EvidenceOf(s.lanes[k], k, call.id, record, call.settlement, call.at)]
  }

  /** A settlement that must trip without room moves its lane but records nothing. */
  ghost predicate FailedOn(s: Store, call: Call, k: LaneKey) {
    && call.Settle? && k in s.lanes && k in Step(s, call).0.lanes && SettlesUnsettled(s, call)
    && var record := s.admissions[AdmissionKey(call.tenant, call.id)];
       && k == LaneOf(AdmissionKey(call.tenant, call.id), record)
       && LaneCore(s.lanes[k]) && RecordFits(s.lanes[k], record)
       && Settled(s.lanes[k], call.id, record, call.settlement, call.at).0 == Step(s, call).0.lanes[k]
       && Settled(s.lanes[k], call.id, record, call.settlement, call.at).1.Err?
       && Step(s, call).1.Refused? && NewEvents(s, call) == []
  }

  /** An admission call either leaves all lanes alone or decides on one lane,
      and it issues an admission only in the second case. */
  lemma AdmitShape(s: Store, call: Call)
    requires call.Admit?
    ensures var (next, response) := Step(s, call);
      var k := KeyOf(call.tenant, call.request.operation, call.request.policy);
      || (next.lanes == s.lanes && NewEvents(s, call) == [])
      || (&& ValidRequest(call.request)
          && LaneFor(s.lanes, k, call.request).digest == PolicyDigest(call.request.policy)
          && next.lanes == s.lanes[k := Decided(LaneFor(s.lanes, k, call.request), call.request).0]
          && (Unrecorded(s, call, k) || IssuedEvent(s, call, k)))
  {
    var key := AdmissionKey(call.tenant, call.request.id);
    if ValidRequest(call.request) && key in Pruned(s.admissions, call.request.at) {
      assert !IssuesFreshly(s, call);
    }
  }

  /** The decision failed, or its record would outlive the clock. */
  predicate Unrecorded(s: Store, call: Call, k: LaneKey)
    requires call.Admit? && ValidRequest(call.request)
  {
    && NewEvents(s, call) == []
    && (Decided(LaneFor(s.lanes, k, call.request), call.request).1.Err?
        || call.request.at + call.request.policy.retentionMs > U64_MAX)
  }

  predicate IssuedEvent(s: Store, call: Call, k: LaneKey)
    requires call.Admit? && ValidRequest(call.request)
  {
    var verdict := Decided(LaneFor(s.lanes, k, call.request), call.request).1;
    verdict.Ok? && NewEvents(s, call) == [IssueOf(k, call.request, verdict)]
  }

  lemma AdmitOnLane(s: Store, call: Call, k: LaneKey)
    requires call.Admit? && k in Step(s, call).0.lanes
    ensures Untouched(s, call, k) || DecidedOn(s, call, k)
  {
    AdmitShape(s, call);
  }

  lemma SettleOnLane(s: Store, call: Call, k: LaneKey)
    requires StoreCore(s) && call.Settle? && k in Step(s, call).0.lanes
    ensures Untouched(s, call, k) || SettledOn(s, call, k) || FailedOn(s, call, k)
  {
    if SettlesUnsettled(s, call) {
      var key := AdmissionKey(call.tenant, call.id);
      var record := s.admissions[key];
      assert RecordOk(s, key, record);
      SettleKeepsLane(s.lanes[LaneOf(key, record)], call.id, record, call.settlement, call.at, record);
    }
  }

  /** How a call reaches lane `k`, and the only event it can add there. */
  lemma StepOnLane(s: Store, call: Call, k: LaneKey)
    requires StoreCore(s) && k in Step(s, call).0.lanes
    ensures Untouched(s, call, k) || DecidedOn(s, call, k) || SettledOn(s, call, k) || FailedOn(s, call, k)
  {
    if call.Admit? { AdmitOnLane(s, call, k); } else { SettleOnLane(s, call, k); }
  }

  lemma NoLogYet(lane: LaneState, k: LaneKey, log: seq<Event>)
    requires LaneOk(lane) && lane.windowCount == 0 && lane.failures == 0
    requires forall i :: 0 <= i < |log| ==> log[i].lane != k
    ensures LaneLog(lane, k, log)
  {
    forall w ensures Slots(log, k, w) == 0 { NoSlots(log, k, w); }
    NoStreak(log, k);
  }

  lemma {:induction false} NoStreak(log: seq<Event>, k: LaneKey)
    requires forall i :: 0 <= i < |log| ==> log[i].lane != k
    ensures Streak(log, k) == 0
  {
    if log != [] { NoStreak(log[..|log| - 1], k); }
  }

  lemma {:induction false} NoSlots(log: seq<Event>, k: LaneKey, w: int)
    requires forall i :: 0 <= i < |log| ==> log[i].lane != k
    ensures Slots(log, k, w) == 0
  {
    if log != [] { NoSlots(log[..|log| - 1], k, w); }
  }

  lemma StepKeepsLaneLog(h: History, call: Call, k: LaneKey)
    requires HistoryOk(h) && k in Step(h.store, call).0.lanes
    ensures LaneLog(Step(h.store, call).0.lanes[k], k, Next(h, call).log)
  {
    var s, events := h.store, NewEvents(h.store, call);
    StepOnLane(s, call, k);
    if DecidedOn(s, call, k) {
      InitialLaneOk(call.request);
      var lane := LaneFor(s.lanes, k, call.request);
      if k !in s.lanes { NoLogYet(lane, k, h.log); }
      DecisionKeepsLog(lane, k, h.log, call.request);
    } else if SettledOn(s, call, k) {
      var record := s.admissions[AdmissionKey(call.tenant, call.id)];
      SettlementKeepsLog(s.lanes[k], k, h.log, call.id, record, call.settlement, call.at);
    } else if FailedOn(s, call, k) {
      var record := s.admissions[AdmissionKey(call.tenant, call.id)];
      FailureKeepsLog(s.lanes[k], k, h.log, call.id, record, call.settlement, call.at);
    } else if events != [] {
      ForeignEvent(s.lanes[k], k, h.log, events[0]);
    }
    assert events == [] ==> Next(h, call).log == h.log;
  }

  lemma LanesRemain(s: Store, call: Call)
    requires StoreCore(s)
    ensures s.lanes.Keys <= Step(s, call).0.lanes.Keys
    ensures forall e :: e in NewEvents(s, call) ==> e.lane in Step(s, call).0.lanes
  {
    if call.Admit? { AdmitShape(s, call); }
  }

  lemma StepKeepsHistory(h: History, call: Call)
    requires HistoryOk(h)
    ensures HistoryOk(Next(h, call))
  {
    StepKeepsCore(h.store, call);
    LanesRemain(h.store, call);
    var next := Next(h, call);
    forall i | 0 <= i < |next.log| ensures next.log[i].lane in next.store.lanes {
      if i >= |h.log| { assert next.log[i] in NewEvents(h.store, call); }
    }
    forall k | k in next.store.lanes ensures LaneLog(next.store.lanes[k], k, next.log) {
      StepKeepsLaneLog(h, call, k);
    }
  }

  // -------------------------------------------------------------- whole runs

  lemma {:induction false} RunKeepsHistory(h: History, calls: seq<Call>)
    requires HistoryOk(h)
    ensures HistoryOk(Run(h, calls))
    decreases |calls|
  {
    if calls != [] {
      StepKeepsHistory(h, calls[0]);
      RunKeepsHistory(Next(h, calls[0]), calls[1..]);
    }
  }

  /** States a governor can be in after a run of calls on an empty store. */
  ghost predicate Reachable(h: History) {
    exists calls :: h == Run(EMPTY, calls)
  }

  lemma ReachableIsOk(h: History)
    requires Reachable(h)
    ensures HistoryOk(h)
  {
    var calls :| h == Run(EMPTY, calls);
    RunKeepsHistory(EMPTY, calls);
  }

  lemma ReachableLaneLog(h: History, k: LaneKey)
    requires Reachable(h)
    ensures k in h.store.lanes ==> 0 < h.store.lanes[k].digest.of.windowMs && LaneLog(h.store.lanes[k], k, h.log)
    ensures forall i :: 0 <= i < |h.log| ==> h.log[i].lane in h.store.lanes
  {
    ReachableIsOk(h);
  }

  /** Late evidence of a normal admission leaves an open lane as it is. */
  lemma LateEvidenceIsInert(s: Store, key: AdmissionKey, settlement: Settlement, at: u64)
    requires StoreCore(s) && key in s.admissions && s.admissions[key].decision.Allow?
    requires LaneOf(key, s.admissions[key]) in s.lanes && s.lanes[LaneOf(key, s.admissions[key])].openUntil.Some?
    ensures s.admissions[key].epoch < s.lanes[LaneOf(key, s.admissions[key])].epoch
    ensures SettleStep(s, key.tenant, key.id, settlement, at).0.lanes == s.lanes
  {
    assert RecordOk(s, key, s.admissions[key]);
    assert AdmissionKey(key.tenant, key.id) == key;
  }

  /** In every state that any run reaches, no normal admission carries the epoch
      of an open circuit, so that a late settlement of one changes no lane at all. */
  lemma ReachableLanes(h: History, k: LaneKey)
    requires Reachable(h) && k in h.store.lanes
    ensures var s := h.store;
      forall key, settlement, at: u64 ::
        && key in s.admissions && LaneOf(key, s.admissions[key]) == k
        && s.lanes[k].openUntil.Some? && s.admissions[key].decision.Allow? ==>
          && s.admissions[key].epoch < s.lanes[k].epoch
          && SettleStep(s, key.tenant, key.id, settlement, at).0.lanes == s.lanes
  {
    ReachableIsOk(h);
    var s := h.store;
    forall key, settlement, at: u64 |
      && key in s.admissions && LaneOf(key, s.admissions[key]) == k
      && s.lanes[k].openUntil.Some? && s.admissions[key].decision.Allow?
      ensures s.admissions[key].epoch < s.lanes[k].epoch
      ensures SettleStep(s, key.tenant, key.id, settlement, at).0.lanes == s.lanes
    {
      LateEvidenceIsInert(s, key, settlement, at);
    }
  }

  /** Along every run whose calls all have room, every circuit is open exactly
      when its failure counter stands at the threshold, and never beyond it. */
  lemma {:induction false} CleanRunsKeepCircuits(h: History, calls: seq<Call>, k: LaneKey)
    requires StoreOk(h.store) && Clean(h.store, calls) && k in Run(h, calls).store.lanes
    ensures var lane := Run(h, calls).store.lanes[k];
      && (lane.openUntil.Some? <==> lane.failures == lane.digest.of.failureThreshold)
      && lane.failures <= lane.digest.of.failureThreshold
    decreases |calls|
  {
    if calls != [] {
      hide StoreOk, HasRoom, Step;
      StepKeepsStoreIff(h.store, calls[0]);
      CleanRunsKeepCircuits(Next(h, calls[0]), calls[1..], k);
    }
  }

  /** Each fixed window of a lane sees at most the policy's quota of normal
      dispatches over the whole run, however its circuit opens and closes; any
      span as long as a window sees at most twice the quota. */
  lemma DispatchQuota(h: History, k: LaneKey, w: int, from: nat)
    requires Reachable(h) && k in h.store.lanes
    ensures var policy := h.store.lanes[k].digest.of;
      && Slots(h.log, k, w) <= policy.maxDispatches
      && Dispatches(h.log, k, from, from + policy.windowMs) <= 2 * policy.maxDispatches
  {
    hide Reachable;
    ReachableLaneLog(h, k);
    SpanTouchesTwoWindows(h.log, k, h.store.lanes[k].digest.of, from);
  }

  lemma {:induction false} SpanTouchesTwoWindows(log: seq<Event>, k: LaneKey, policy: Policy, from: nat)
    requires 0 < policy.windowMs
    requires forall i :: 0 <= i < |log| && log[i].Issued? && log[i].lane == k ==> log[i].policy == policy
    ensures var w := WindowStart(from, policy.windowMs);
      Dispatches(log, k, from, from + policy.windowMs) <= Slots(log, k, w) + Slots(log, k, w + policy.windowMs)
  {
    if log != [] {
      var e := log[|log| - 1];
      SpanTouchesTwoWindows(log[..|log| - 1], k, policy, from);
      if Takes(e, k) && from <= e.at < from + policy.windowMs {
        WindowsPartition(from, e.at, policy.windowMs);
        var w := WindowStart(from, policy.windowMs);
        if WindowStart(e.at, policy.windowMs) != w {
          WindowsPartition(w + policy.windowMs, e.at, policy.windowMs);
          NextWindowStarts(from, policy.windowMs);
        }
      }
    }
  }

  lemma NextWindowStarts(from: nat, window: int)
    requires 0 < window
    ensures WindowStart(WindowStart(from, window) + window, window) == WindowStart(from, window) + window
  {
    var w := WindowStart(from, window);
    WindowsPartition(w, w + window, window);
    WindowStartIdempotent(from, window);
  }

  /** Over the whole run, two probes of one lane are separated by an effective
      settlement of the first or by its full lease. */
  lemma ProbesNeverOverlap(h: History, k: LaneKey, i: int, j: int)
    requires Reachable(h) && 0 <= i < j < |h.log|
    requires IsProbe(h.log[i], k) && IsProbe(h.log[j], k)
    ensures SettledBetween(h.log, k, i, j) || h.log[i].at + h.log[i].policy.probeLeaseMs <= h.log[j].at
  {
    ReachableLaneLog(h, k);
  }

  lemma {:induction false} LogGrows(h: History, calls: seq<Call>)
    ensures h.log <= Run(h, calls).log
    decreases |calls|
  {
    if calls != [] { LogGrows(Next(h, calls[0]), calls[1..]); }
  }

  /** Neither transition turns a lane's clock back, and only a decision not
      earlier than the clock succeeds. */
  lemma DecisionKeepsClock(lane: LaneState, request: Admission)
    requires ValidPolicy(request.policy)
    ensures lane.lastObserved <= Decided(lane, request).0.lastObserved
    ensures Decided(lane, request).1.Ok? ==> lane.lastObserved <= request.at
  {
  }

  lemma SettlementKeepsClock(lane: LaneState, id: string, record: AdmissionRecord, settlement: Settlement, at: u64)
    ensures lane.lastObserved <= Settled(lane, id, record, settlement, at).0.lastObserved
  {
  }

  lemma LaneClock(s: Store, call: Call, k: LaneKey)
    requires StoreCore(s) && k in s.lanes
    ensures k in Step(s, call).0.lanes
    ensures s.lanes[k].lastObserved <= Step(s, call).0.lanes[k].lastObserved
    ensures forall e :: e in NewEvents(s, call) && e.Issued? && e.lane == k ==> s.lanes[k].lastObserved <= e.at
  {
    hide StoreCore, Step, NewEvents, Decided, Settled, RecordFits, LaneOk;
    LanesRemain(s, call);
    StepOnLane(s, call, k);
    if DecidedOn(s, call, k) {
      DecisionKeepsClock(s.lanes[k], call.request);
    } else if SettledOn(s, call, k) {
      var record := s.admissions[AdmissionKey(call.tenant, call.id)];
      SettlementKeepsClock(s.lanes[k], call.id, record, call.settlement, call.at);
    } else if FailedOn(s, call, k) {
      var record := s.admissions[AdmissionKey(call.tenant, call.id)];
      SettlementKeepsClock(s.lanes[k], call.id, record, call.settlement, call.at);
    }
  }

  lemma NewestEvent(h: History, calls: seq<Call>, i: int)
    requires calls != [] && |h.log| <= i < |Next(h, calls[0]).log|
    ensures i < |Run(h, calls).log| && Run(h, calls).log[i] in NewEvents(h.store, calls[0])
  {
    LogGrows(Next(h, calls[0]), calls[1..]);
    assert Run(h, calls).log[i] == Next(h, calls[0]).log[i] == NewEvents(h.store, calls[0])[i - |h.log|];
  }

  /** A lane's clock never runs backwards: what is issued later is issued later. */
  lemma {:induction false} LaterIssuesAreLater(h: History, calls: seq<Call>, k: LaneKey, i: int)
    requires HistoryOk(h) && k in h.store.lanes
    requires |h.log| <= i < |Run(h, calls).log|
    requires var e := Run(h, calls).log[i]; e.Issued? && e.lane == k
    ensures h.store.lanes[k].lastObserved <= Run(h, calls).log[i].at
    decreases |calls|
  {
    if calls != [] {
      LaneClock(h.store, calls[0], k);
      if i < |Next(h, calls[0]).log| {
        NewestEvent(h, calls, i);
      } else {
        StepKeepsHistory(h, calls[0]);
        LaterIssuesAreLater(Next(h, calls[0]), calls[1..], k, i);
      }
    }
  }

  /** Before its deadline nothing but the clock of an open lane moves. */
  lemma OpenLaneIsFrozen(s: Store, call: Call, k: LaneKey, until: u64)
    requires StoreCore(s) && k in s.lanes
    requires s.lanes[k].openUntil == Some(until) && s.lanes[k].lastObserved < until
    requires k in Step(s, call).0.lanes
    ensures var next := Step(s, call).0.lanes[k];
      && (next.openUntil == Some(until) || until <= next.lastObserved)
      && forall e :: e in NewEvents(s, call) && e.Issued? && e.lane == k && e.at < until ==> e.decision == CircuitOpen(until)
  {
    StepOnLane(s, call, k);
  }

  /** Whatever calls follow, every admission an open circuit issues before its
      deadline is refused with that deadline. */
  lemma {:induction false} OpenCircuitHolds(h: History, calls: seq<Call>, k: LaneKey, until: u64, i: int)
    requires HistoryOk(h) && k in h.store.lanes
    requires h.store.lanes[k].openUntil == Some(until) && h.store.lanes[k].lastObserved < until
    requires |h.log| <= i < |Run(h, calls).log|
    requires var e := Run(h, calls).log[i]; e.Issued? && e.lane == k && e.at < until
    ensures Run(h, calls).log[i].decision == CircuitOpen(until)
    decreases |calls|
  {
    if calls != [] {
      var next := Next(h, calls[0]);
      LaneClock(h.store, calls[0], k);
      OpenLaneIsFrozen(h.store, calls[0], k, until);
      if i < |next.log| {
        NewestEvent(h, calls, i);
      } else {
        StepKeepsHistory(h, calls[0]);
        if next.store.lanes[k].lastObserved < until {
          OpenCircuitHolds(next, calls[1..], k, until, i);
        } else {
          LaterIssuesAreLater(next, calls[1..], k, i);
        }
      }
    }
  }

  /** A recorded settlement changed the epoch of lane `k`. */
  ghost predicate OpensCircuit(s: Store, trip: Call, k: LaneKey, next: Store) {
    && trip.Settle? && k in s.lanes && k in next.lanes && s.lanes[k].epoch != next.lanes[k].epoch
    && StoreCore(s) && next == Step(s, trip).0 && Step(s, trip).1.Recorded?
  }

  /** A change of epoch opens the circuit for exactly the open duration. */
  lemma TripDeadline(s: Store, trip: Call, k: LaneKey, next: Store)
    requires OpensCircuit(s, trip, k, next)
    ensures var until := EffectiveAt(s.lanes[k], trip.at) + s.lanes[k].digest.of.openDurationMs;
      next.lanes[k].openUntil == Some(until) && next.lanes[k].lastObserved < until
  {
    SettleOnLane(s, trip, k);
  }

  /** Entry `i` of the log is an admission issued on lane `k` by these calls. */
  ghost predicate IssuedBy(h: History, calls: seq<Call>, k: LaneKey, i: int, e: Event) {
    |h.log| <= i < |Run(h, calls).log| && Run(h, calls).log[i] == e && e.Issued? && e.lane == k
  }

  /** The effective time of a settlement plus the open duration of its lane. */
  function OpenUntil(s: Store, trip: Call, k: LaneKey): int {
    if trip.Settle? && k in s.lanes then EffectiveAt(s.lanes[k], trip.at) + s.lanes[k].digest.of.openDurationMs else 0
  }

  predicate DeniedUntil(e: Event, until: int) {
    e.Issued? && e.decision.CircuitOpen? && e.decision.retryAt == until
  }

  /** Once a settlement opens a circuit at effective time t, every admission
      issued on the lane before t plus the open duration is refused, whatever
      settlements and admissions arrive in between. */
  lemma TrippedCircuitDenies(s: Store, trip: Call, tripped: History, calls: seq<Call>, k: LaneKey, i: int, e: Event)
    requires OpensCircuit(s, trip, k, tripped.store) && HistoryOk(tripped) && IssuedBy(tripped, calls, k, i, e)
    ensures e.at < OpenUntil(s, trip, k) ==> DeniedUntil(e, OpenUntil(s, trip, k))
  {
    hide Run, Step, StoreCore, HistoryOk;
    TripDeadline(s, trip, k, tripped.store);
    var until := tripped.store.lanes[k].openUntil.value;
    if e.at < until {
      OpenCircuitHolds(tripped, calls, k, until, i);
    }
  }

  /** The probe `key` was granted on its lane but the lane has moved on. */
  ghost predicate Superseded(s: Store, key: AdmissionKey) {
    && key in s.admissions && s.admissions[key].decision.AllowProbe?
    && LaneOf(key, s.admissions[key]) in s.lanes
    && !Counts(s.lanes[LaneOf(key, s.admissions[key])], key.id, s.admissions[key])
  }

  lemma DecisionKeepsSuperseded(lane: LaneState, request: Admission, id: string, record: AdmissionRecord)
    requires LaneCore(lane) && RecordFits(lane, record) && request.policy == lane.digest.of && 0 < request.at
    requires record.decision.AllowProbe? && !Counts(lane, id, record) && request.id != id
    ensures !Counts(Decided(lane, request).0, id, record)
  {
  }

  lemma SettlementKeepsSuperseded(lane: LaneState, settled: string, evidence: AdmissionRecord, settlement: Settlement,
                                  at: u64, id: string, record: AdmissionRecord)
    requires LaneCore(lane) && RecordFits(lane, record) && RecordFits(lane, evidence)
    requires record.decision.AllowProbe? && !Counts(lane, id, record)
    ensures !Counts(Settled(lane, settled, evidence, settlement, at).0, id, record)
  {
  }

  lemma LaneKeepsSuperseded(s: Store, call: Call, key: AdmissionKey, k: LaneKey)
    requires StoreCore(s) && Superseded(s, key) && key in Step(s, call).0.admissions
    requires !Reissues(s, call, key) && k == LaneOf(key, s.admissions[key])
    ensures k in Step(s, call).0.lanes
    ensures !Counts(Step(s, call).0.lanes[k], key.id, s.admissions[key])
  {
    var record := s.admissions[key];
    assert RecordOk(s, key, record);
    LaneClock(s, call, k);
    StepOnLane(s, call, k);
    if DecidedOn(s, call, k) {
      if call.request.id == key.id {
        SameLeaseIsNotDecided(s, call, k, key);
      } else {
        DecisionKeepsSuperseded(s.lanes[k], call.request, key.id, record);
      }
    } else if SettledOn(s, call, k) {
      SettlementKeepsSuperseded(s.lanes[k], call.id, s.admissions[AdmissionKey(call.tenant, call.id)],
                                call.settlement, call.at, key.id, record);
    } else if FailedOn(s, call, k) {
      SettlementKeepsSuperseded(s.lanes[k], call.id, s.admissions[AdmissionKey(call.tenant, call.id)],
                                call.settlement, call.at, key.id, record);
    }
  }

  lemma StepKeepsSuperseded(s: Store, call: Call, key: AdmissionKey)
    requires StoreCore(s) && Superseded(s, key) && key in Step(s, call).0.admissions
    requires !Reissues(s, call, key)
    ensures Superseded(Step(s, call).0, key)
  {
    RecordPersists(s, call, key);
    LaneKeepsSuperseded(s, call, key, LaneOf(key, s.admissions[key]));
  }

  /** The call issues the identity `key` anew, which takes a pruned record. */
  predicate Reissues(s: Store, call: Call, key: AdmissionKey) {
    IssuesFreshly(s, call) && AdmissionKey(call.tenant, call.request.id) == key
  }

  /** A lease that is still on record is never decided on a second time. */
  lemma SameLeaseIsNotDecided(s: Store, call: Call, k: LaneKey, key: AdmissionKey)
    requires call.Admit? && key == AdmissionKey(call.tenant, call.request.id)
    requires key in s.admissions && key in Step(s, call).0.admissions && !Reissues(s, call, key)
    ensures Step(s, call).0.lanes == s.lanes
  {
  }

  /** A superseded probe stays superseded for as long as its record is kept, in
      any run: no settlement of it can change a lane again. */
  lemma {:induction false} SupersededProbeIsInert(s: Store, calls: seq<Call>, key: AdmissionKey,
                                                  settlement: Settlement, at: u64)
    requires StoreCore(s) && Superseded(s, key) && Retained(s, calls, key)
    ensures Superseded(Run(History(s, []), calls).store, key)
    ensures var t := Run(History(s, []), calls).store;
      SettleStep(t, key.tenant, key.id, settlement, at).0.lanes == t.lanes
    decreases |calls|
  {
    assert AdmissionKey(key.tenant, key.id) == key;
    if calls != [] {
      StepKeepsCore(s, calls[0]);
      StepKeepsSuperseded(s, calls[0], key);
      SupersededProbeIsInert(Step(s, calls[0]).0, calls[1..], key, settlement, at);
      RunIgnoresLog(Next(History(s, []), calls[0]), History(Step(s, calls[0]).0, []), calls[1..]);
    }
  }

  /** The record of `key` is neither pruned nor issued anew during the run. */
  predicate Retained(s: Store, calls: seq<Call>, key: AdmissionKey)
    decreases |calls|
  {
    calls != [] ==>
      && key in Step(s, calls[0]).0.admissions && !Reissues(s, calls[0], key)
      && Retained(Step(s, calls[0]).0, calls[1..], key)
  }

  lemma {:induction false} RunIgnoresLog(g: History, h: History, calls: seq<Call>)
    requires g.store == h.store
    ensures Run(g, calls).store == Run(h, calls).store
    decreases |calls|
  {
    if calls != [] { RunIgnoresLog(Next(g, calls[0]), Next(h, calls[0]), calls[1..]); }
  }

  /** Between issue and pruning a record changes only by being settled once. */
  lemma RecordPersists(s: Store, call: Call, key: AdmissionKey)
    requires key in s.admissions && key in Step(s, call).0.admissions
    requires !Reissues(s, call, key)
    ensures Step(s, call).0.admissions[key].(settlement := None) == s.admissions[key].(settlement := None)
    ensures s.admissions[key].settlement.Some? ==> Step(s, call).0.admissions[key] == s.admissions[key]
  {
  }

  /** Admissions are idempotent over any run that keeps the record: asking again
      for the same lease returns the decision first given and moves no lane. */
  lemma {:induction false} AdmissionReplay(s: Store, calls: seq<Call>, key: AdmissionKey, request: Admission)
    requires key in s.admissions && Retained(s, calls, key) && key.id == request.id
    requires ValidRequest(request) && request.at < s.admissions[key].expiresAt && SameContent(s.admissions[key], request)
    ensures var t := Run(History(s, []), calls).store;
      && AdmitStep(t, key.tenant, request).0.lanes == t.lanes
      && AdmitStep(t, key.tenant, request).1 == Admitted(s.admissions[key].decision)
    decreases |calls|
  {
    assert AdmissionKey(key.tenant, key.id) == key;
    if calls != [] {
      RecordPersists(s, calls[0], key);
      AdmissionReplay(Step(s, calls[0]).0, calls[1..], key, request);
      RunIgnoresLog(Next(History(s, []), calls[0]), History(Step(s, calls[0]).0, []), calls[1..]);
    }
  }

  /** A settlement is final: after any run that keeps the record it is still the one
      recorded, every further settlement leaves the whole store alone, and it is
      accepted if and only if it says the same at a time not before the admission. */
  lemma {:induction false} SettlementIsFinal(s: Store, settle: Call, calls: seq<Call>, again: Settlement, later: u64)
    requires settle.Settle? && Step(s, settle).1.Recorded? && 0 < later
    requires Retained(Step(s, settle).0, calls, AdmissionKey(settle.tenant, settle.id))
    ensures var key := AdmissionKey(settle.tenant, settle.id);
      var t := Run(History(Step(s, settle).0, []), calls).store;
      && key in t.admissions && t.admissions[key].settlement == Some(settle.settlement)
      && SettleStep(t, settle.tenant, settle.id, again, later).0 == t
      && (SettleStep(t, settle.tenant, settle.id, again, later).1.Recorded? <==>
            again == settle.settlement && t.admissions[key].admittedAt <= later)
  {
    var key := AdmissionKey(settle.tenant, settle.id);
    SettledRecordPersists(Step(s, settle).0, calls, key);
  }

  lemma {:induction false} SettledRecordPersists(s: Store, calls: seq<Call>, key: AdmissionKey)
    requires key in s.admissions && s.admissions[key].settlement.Some? && Retained(s, calls, key)
    ensures var t := Run(History(s, []), calls).store; key in t.admissions && t.admissions[key] == s.admissions[key]
    decreases |calls|
  {
    if calls != [] {
      RecordPersists(s, calls[0], key);
      SettledRecordPersists(Step(s, calls[0]).0, calls[1..], key);
      RunIgnoresLog(Next(History(s, []), calls[0]), History(Step(s, calls[0]).0, []), calls[1..]);
    }
  }

  // --------------------------------------------- what a run answers, and when

  /** The slots the lane counts are the slots in the log. */
  lemma SlotsAreUsed(h: History, k: LaneKey, at: u64)
    requires HistoryOk(h) && k in h.store.lanes && h.store.lanes[k].lastObserved <= at
    requires at + h.store.lanes[k].digest.of.retentionMs <= U64_MAX
    ensures var lane := h.store.lanes[k];
      0 < lane.digest.of.windowMs && Slots(h.log, k, WindowStart(at, lane.digest.of.windowMs)) == UsedSlots(lane, at)
  {
    var lane := h.store.lanes[k];
    assert LaneLog(lane, k, h.log);
    WindowsPartition(lane.windowStarted, at, lane.digest.of.windowMs);
  }

  /** The request is new, finds room in the store and is not before its lane. */
  ghost predicate Decidable(s: Store, tenant: string, request: Admission) {
    var k := KeyOf(tenant, request.operation, request.policy);
    && ValidRequest(request) && request.at + request.policy.retentionMs <= U64_MAX
    && AdmissionKey(tenant, request.id) !in Pruned(s.admissions, request.at)
    && |Pruned(s.admissions, request.at)| < MAX_ADMISSIONS
    && (if k in s.lanes then s.lanes[k].digest == PolicyDigest(request.policy) && s.lanes[k].lastObserved <= request.at
        else |s.lanes| < MAX_LANES)
  }

  lemma DecidableIsDecided(s: Store, tenant: string, request: Admission)
    requires Decidable(s, tenant, request)
    ensures var lane := LaneFor(s.lanes, KeyOf(tenant, request.operation, request.policy), request);
      var verdict := Decided(lane, request).1;
      AdmitStep(s, tenant, request).1 == if verdict.Ok? then Admitted(verdict.value.0) else Refused(verdict.error)
  {
    hide Decided;
  }

  /** On a closed lane a new request is allowed if and only if fewer than the quota
      of dispatches were issued in its window, over the whole run; otherwise it is
      told to come back when the window ends. */
  lemma QuotaIsGranted(h: History, tenant: string, request: Admission)
    requires HistoryOk(h) && Decidable(h.store, tenant, request)
    requires var k := KeyOf(tenant, request.operation, request.policy);
      k in h.store.lanes && h.store.lanes[k].openUntil.None?
    ensures var k := KeyOf(tenant, request.operation, request.policy);
      var start := WindowStart(request.at, request.policy.windowMs);
      var answer := AdmitStep(h.store, tenant, request).1;
      && (answer == Admitted(Allow) <==> Slots(h.log, k, start) < request.policy.maxDispatches)
      && (answer == Admitted(RateLimited(start + request.policy.windowMs)) <==>
            Slots(h.log, k, start) == request.policy.maxDispatches)
  {
    var k := KeyOf(tenant, request.operation, request.policy);
    var lane := h.store.lanes[k];
    assert LaneCore(lane);
    SlotsAreUsed(h, k, request.at);
    hide HistoryOk, AdmitStep, Decided, Slots, LaneCore;
    DecidableIsDecided(h.store, tenant, request);
    ClosedLaneDecides(lane, request);
  }

  /** A lane's first request is allowed. */
  lemma FirstRequestIsAllowed(s: Store, tenant: string, request: Admission)
    requires Decidable(s, tenant, request) && KeyOf(tenant, request.operation, request.policy) !in s.lanes
    ensures AdmitStep(s, tenant, request).1 == Admitted(Allow)
  {
    DecidableIsDecided(s, tenant, request);
    InitialLaneOk(request);
    hide AdmitStep;
    ClosedLaneDecides(InitialLane(request), request);
  }

  /** On an open lane a new request is granted a probe if and only if the open
      duration is over and no probe holds its lease. */
  lemma ProbeIsGranted(s: Store, tenant: string, request: Admission)
    requires StoreCore(s) && Decidable(s, tenant, request)
    requires var k := KeyOf(tenant, request.operation, request.policy); k in s.lanes && s.lanes[k].openUntil.Some?
    ensures var lane := s.lanes[KeyOf(tenant, request.operation, request.policy)];
      var busy := lane.probeExpires.Some? && request.at < lane.probeExpires.value;
      var answer := AdmitStep(s, tenant, request).1;
      && (answer == Admitted(AllowProbe) <==> lane.openUntil.value <= request.at && !busy)
      && (request.at < lane.openUntil.value ==> answer == Admitted(CircuitOpen(lane.openUntil.value)))
      && (lane.openUntil.value <= request.at && busy ==> answer == Admitted(CircuitOpen(lane.probeExpires.value)))
  {
    var k := KeyOf(tenant, request.operation, request.policy);
    assert LaneCore(s.lanes[k]);
    hide AdmitStep, StoreCore;
    DecidableIsDecided(s, tenant, request);
    OpenLaneDecides(s.lanes[k], request);
  }

  /** On every run, the failure counter of a lane that can still open, or is open,
      is the number of failures in a row, and the circuit is open exactly when they
      reach the threshold. */
  lemma FailuresAreInARow(h: History, k: LaneKey)
    requires HistoryOk(h) && k in h.store.lanes
    requires h.store.lanes[k].openUntil.Some? || !NoRoomLeft(h.store.lanes[k])
    ensures h.store.lanes[k].failures == Streak(h.log, k) && CircuitOk(h.store.lanes[k])
  {
    assert LaneLog(h.store.lanes[k], k, h.log);
  }

  /** A recorded settlement of a normal admission that counts opens the circuit if
      and only if it is a failure and completes a row of the threshold's length. */
  lemma CircuitOpensAtThreshold(h: History, call: Call, k: LaneKey)
    requires HistoryOk(h) && SettledOn(h.store, call, k)
    requires var record := h.store.admissions[AdmissionKey(call.tenant, call.id)];
      record.decision.Allow? && record.epoch == h.store.lanes[k].epoch
    ensures h.store.lanes[k].openUntil.None?
    ensures var lane, next := h.store.lanes[k], Step(h.store, call).0.lanes[k];
      next.openUntil.Some? <==>
        call.settlement.AvailabilityFailure? && Streak(h.log, k) + 1 == lane.digest.of.failureThreshold
  {
    var lane, record := h.store.lanes[k], h.store.admissions[AdmissionKey(call.tenant, call.id)];
    assert LaneLog(lane, k, h.log);
    hide HistoryOk, Step, NewEvents;
    NormalEvidenceDecides(lane, call.id, record, call.settlement, call.at);
  }

  /** A new admission carries the generation of its lane, so that its evidence
      counts as long as the circuit does not trip and, for a probe, the lease is
      its own. */
  lemma NewAdmissionCounts(s: Store, call: Call)
    requires IssuesFreshly(s, call) && StoreCore(s)
    ensures var (next, response) := Step(s, call);
      var key := AdmissionKey(call.tenant, call.request.id);
      var k := KeyOf(call.tenant, call.request.operation, call.request.policy);
      && key in next.admissions && LaneOf(key, next.admissions[key]) == k && k in next.lanes
      && next.admissions[key].decision == response.decision && next.admissions[key].settlement.None?
      && next.admissions[key].admittedAt == call.request.at
      && next.admissions[key].epoch == next.lanes[k].epoch
      && (response.decision.Admits() ==> Counts(next.lanes[k], call.request.id, next.admissions[key]))
  {
    var k := KeyOf(call.tenant, call.request.operation, call.request.policy);
    InitialLaneOk(call.request);
    var lane := LaneFor(s.lanes, k, call.request);
    assert LaneCore(lane);
    if lane.digest == PolicyDigest(call.request.policy) {
      DecisionIsRecordable(lane, call.request);
      DecisionTakesLease(lane, call.request);
    }
    hide Decided, LaneCore, StoreCore;
  }

  lemma DecisionTakesLease(lane: LaneState, request: Admission)
    requires ValidPolicy(request.policy)
    ensures var (next, verdict) := Decided(lane, request);
      verdict.Ok? && verdict.value.0.AllowProbe? ==> next.probeId == Some(request.id)
  {
  }

  /** An admission stays on record for exactly as long as no later request reaches
      its expiry. */
  lemma RecordsLastUntilExpiry(s: Store, call: Call, key: AdmissionKey)
    requires key in s.admissions && !Reissues(s, call, key)
    ensures key in Step(s, call).0.admissions <==>
      (call.Admit? && ValidRequest(call.request) ==> call.request.at < s.admissions[key].expiresAt)
  {
  }

  /** How a settlement is answered. */
  lemma SettlementsAreAnswered(s: Store, tenant: string, id: string, settlement: Settlement, at: u64)
    requires StoreCore(s)
    ensures var key := AdmissionKey(tenant, id);
      var answer := SettleStep(s, tenant, id, settlement, at).1;
      answer.Recorded? <==>
        && 0 < at && key in s.admissions && s.admissions[key].decision.Admits() && s.admissions[key].admittedAt <= at
        && (s.admissions[key].settlement == Some(settlement)
            || (s.admissions[key].settlement.None?
                && LaneOf(key, s.admissions[key]) in s.lanes
                && Settled(s.lanes[LaneOf(key, s.admissions[key])], id, s.admissions[key], settlement, at).1.Ok?))
  {
    hide Settled;
    var key := AdmissionKey(tenant, id);
    if key in s.admissions { assert RecordOk(s, key, s.admissions[key]); }
  }

  /** Lanes are separate by tenant, operation and policy identity. */
  lemma LanesAreSeparate(a: string, b: string, x: Operation, y: Operation, p: Policy, q: Policy)
    ensures KeyOf(a, x, p) == KeyOf(b, y, q) <==> a == b && x == y && p.policyId == q.policyId
  {
  }

  /** How a request is answered that repeats the lease of a recorded admission: with
      the recorded decision if and only if operation and policy are the same, and
      with a refusal otherwise; no lane moves either way. */
  lemma RepeatedRequestsAreAnswered(s: Store, tenant: string, request: Admission)
    requires StoreCore(s) && ValidRequest(request)
    requires var key := AdmissionKey(tenant, request.id); key in s.admissions && request.at < s.admissions[key].expiresAt
    ensures var record := s.admissions[AdmissionKey(tenant, request.id)];
      var (next, answer) := AdmitStep(s, tenant, request);
      && next.lanes == s.lanes
      && (answer == Admitted(record.decision) <==> record.operation == request.operation && record.policy == request.policy)
      && (!answer.Admitted? ==> answer == Refused(BoundToDifferentContent))
  {
    var key := AdmissionKey(tenant, request.id);
    assert RecordOk(s, key, s.admissions[key]);
  }

  /** How a new request is refused without a decision. */
  lemma RefusalsAreAnswered(s: Store, tenant: string, request: Admission)
    requires ValidRequest(request) && AdmissionKey(tenant, request.id) !in Pruned(s.admissions, request.at)
    ensures var k := KeyOf(tenant, request.operation, request.policy);
      var (next, answer) := AdmitStep(s, tenant, request);
      && (if |Pruned(s.admissions, request.at)| >= MAX_ADMISSIONS then
            answer == Refused(AdmissionCapacity) && next.lanes == s.lanes
          else if k !in s.lanes then
            |s.lanes| >= MAX_LANES ==> answer == Refused(LaneCapacity) && next.lanes == s.lanes
          else if s.lanes[k].digest.of != request.policy then
            answer == Refused(PolicyRebound) && next.lanes == s.lanes
          else
            request.at < s.lanes[k].lastObserved ==> answer == Refused(ClockMovedBackwards) && next.lanes == s.lanes)
  {
    var k := KeyOf(tenant, request.operation, request.policy);
    if k in s.lanes { assert s.lanes[k := s.lanes[k]] == s.lanes; }
  }
}
