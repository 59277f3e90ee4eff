/** Executors that ask the dispatch governor before they enter the Connector: what
    the governor's quota means for the Connector. */
module GovernedExecutor {
  import opened Support
  import opened Effects
  import opened Coordinator
  import opened Executor
  import GovernorLane
  import GovernorStore
  import GovernorRuns

  type LaneKey = GovernorStore.LaneKey
  type Event = GovernorStore.Event

  /** Executors, clients and one governor. `permits` says which issued admission
      a worker was answered with. */
  datatype Governed = Governed(world: World, governor: GovernorStore.History, permits: map<nat, nat>)

  datatype GovernedStep =
    | Plain(step: Step)                                    // anything but entering the Connector
    | Ask(w: nat, policy: GovernorLane.Policy, at: u64)    // a worker that holds its claim asks for admission
    | Dispatch(w: nat)                                     // a worker that was admitted enters
    | Govern(call: GovernorStore.Call)                     // any other use of the governor

  function AdmissionFor(world: World, w: nat, policy: GovernorLane.Policy, at: u64): Option<GovernorLane.Admission> {
    if w !in world.workers || world.workers[w].Key() !in world.ledger then None
    else
      var worker := world.workers[w];
      Some(GovernorLane.Admission(worker.leaseId, world.ledger[worker.Key()].effect.operation, policy, at))
  }

  /** The latest admission issued on a lane for a lease. */
  function LastIssue(log: seq<Event>, k: LaneKey, id: string): (r: Option<nat>)
    ensures r.Some? ==> r.value < |log| && log[r.value].Issued? && log[r.value].lane == k && log[r.value].id == id
  {
    if log == [] then None
    else
      var e := log[|log| - 1];
      if e.Issued? && e.lane == k && e.id == id then Some(|log| - 1) else LastIssue(log[..|log| - 1], k, id)
  }

  /** Lease identities are digests of what they are for, taken to be collision-free:
      one is never derived for two different observations. */
  predicate LeaseIsFree(world: World, authority: Authority, id: string, leaseId: string) {
    forall u :: u in world.workers && world.workers[u].leaseId == leaseId ==>
      && KeyFor(authority, id) in world.ledger
      && world.workers[u].Key() == KeyFor(authority, id)
      && world.workers[u].observed == world.ledger[KeyFor(authority, id)].revision
  }

  function GovernedDo(g: Governed, step: GovernedStep): Governed {
    match step
    case Plain(plain) =>
      if plain.Enter? || (plain.Spawn? && !LeaseIsFree(g.world, plain.authority, plain.id, plain.leaseId)) then g
      else g.(world := Do(g.world, plain))
    case Ask(w, policy, at) => Asked(g, w, policy, at)
    case Dispatch(w) => if w in g.permits then g.(world := Do(g.world, Enter(w))) else g
    case Govern(call) => g.(governor := GovernorStore.Next(g.governor, call))
  }

  function Asked(g: Governed, w: nat, policy: GovernorLane.Policy, at: u64): Governed {
    match AdmissionFor(g.world, w, policy, at)
    case None => g
    case Some(request) =>
      var tenant := TenantKey(g.world.workers[w].authority.tenant);
      var call := GovernorStore.Admit(tenant, request);
      var response := GovernorStore.Step(g.governor.store, call).1;
      var next := GovernorStore.Next(g.governor, call);
      var issue := LastIssue(next.log, GovernorStore.KeyOf(tenant, request.operation, policy), request.id);
      if g.world.workers[w].phase.Holding? && w !in g.permits
         && response.Admitted? && response.decision.Admits() && issue.Some?
      then g.(governor := next, permits := g.permits[w := issue.value])
      else g.(governor := next)
  }

  function GovernedRun(steps: seq<GovernedStep>): Governed {
    if steps == [] then Governed(World(map[], map[], map[], []), GovernorStore.History(GovernorStore.Store(map[], map[]), []), map[])
    else GovernedDo(GovernedRun(steps[..|steps| - 1]), steps[|steps| - 1])
  }

  // ------------------------------------------------- every record has its event

  function IssueFor(key: GovernorStore.AdmissionKey, record: GovernorLane.AdmissionRecord): Event {
    GovernorStore.Issued(GovernorStore.LaneOf(key, record), key.id, record.admittedAt, record.decision, record.epoch, record.policy)
  }

  ghost predicate RecordLogged(log: seq<Event>, key: GovernorStore.AdmissionKey, record: GovernorLane.AdmissionRecord) {
    var issue := LastIssue(log, GovernorStore.LaneOf(key, record), key.id);
    issue.Some? && log[issue.value] == IssueFor(key, record)
  }

  /** Every admission on record is the latest one issued for its lease. */
  ghost predicate Logged(h: GovernorStore.History) {
    forall key :: key in h.store.admissions ==> RecordLogged(h.log, key, h.store.admissions[key])
  }

  lemma LastIssueExtends(log: seq<Event>, e: Event, k: LaneKey, id: string)
    ensures LastIssue(log + [e], k, id) ==
      if e.Issued? && e.lane == k && e.id == id then Some(|log|) else LastIssue(log, k, id)
  {
    assert (log + [e])[..|log|] == log;
  }

  /** A record that survives a call was there before, up to its settlement, or was
      issued by it. */
  lemma RecordOrigin(s: GovernorStore.Store, call: GovernorStore.Call, key: GovernorStore.AdmissionKey)
    requires key in GovernorStore.Step(s, call).0.admissions
    ensures var record := GovernorStore.Step(s, call).0.admissions[key];
      if GovernorRuns.Reissues(s, call, key) then GovernorStore.NewEvents(s, call) == [IssueFor(key, record)]
      else key in s.admissions && record.(settlement := None) == s.admissions[key].(settlement := None)
  {
    hide GovernorLane.Decided, GovernorLane.Settled, GovernorStore.SameContent;
  }

  lemma IssuedByReissue(s: GovernorStore.Store, call: GovernorStore.Call, key: GovernorStore.AdmissionKey, e: Event)
    requires e in GovernorStore.NewEvents(s, call) && e.Issued? && e.lane.tenant == key.tenant && e.id == key.id
    ensures GovernorRuns.Reissues(s, call, key)
  {
    hide GovernorStore.Step, GovernorLane.Counts;
  }

  lemma AtMostOneEvent(s: GovernorStore.Store, call: GovernorStore.Call)
    ensures |GovernorStore.NewEvents(s, call)| <= 1
  {
    hide GovernorStore.Step, GovernorLane.Counts;
  }

  lemma StepKeepsLogged(h: GovernorStore.History, call: GovernorStore.Call)
    requires Logged(h)
    ensures Logged(GovernorStore.Next(h, call))
  {
    hide GovernorStore.Step, GovernorStore.NewEvents, GovernorRuns.Reissues, LastIssue;
    var next, events := GovernorStore.Next(h, call), GovernorStore.NewEvents(h.store, call);
    AtMostOneEvent(h.store, call);
    forall key | key in next.store.admissions ensures RecordLogged(next.log, key, next.store.admissions[key]) {
      RecordOrigin(h.store, call, key);
      var record := next.store.admissions[key];
      var k := GovernorStore.LaneOf(key, record);
      if events == [] {
        assert next.log == h.log;
      } else {
        assert events == [events[0]];
        LastIssueExtends(h.log, events[0], k, key.id);
        if !GovernorRuns.Reissues(h.store, call, key) && events[0].Issued? && events[0].lane == k && events[0].id == key.id {
          IssuedByReissue(h.store, call, key, events[0]);
        }
      }
    }
  }

  /** An answer is on record, on the lane that was asked for. */
  lemma AnswerIsRecorded(s: GovernorStore.Store, tenant: string, request: GovernorLane.Admission)
    requires GovernorStore.AdmitStep(s, tenant, request).1.Admitted?
    ensures var (next, response) := GovernorStore.AdmitStep(s, tenant, request);
      var key := GovernorStore.AdmissionKey(tenant, request.id);
      && key in next.admissions && next.admissions[key].decision == response.decision
      && GovernorStore.LaneOf(key, next.admissions[key]) == GovernorStore.KeyOf(tenant, request.operation, request.policy)
  {
    hide GovernorLane.Decided;
  }

  // ---------------------------------------------------------------- invariant

  /** The worker was admitted under its own lease. */
  ghost predicate PermitOk(world: World, log: seq<Event>, w: nat, i: nat) {
    && w in world.workers && i < |log| && log[i].Issued? && log[i].decision.Admits()
    && log[i].id == world.workers[w].leaseId
    && log[i].lane.tenant == world.workers[w].Key().tenant
  }

  ghost predicate PermitsOk(g: Governed) {
    forall w :: w in g.permits ==> PermitOk(g.world, g.governor.log, w, g.permits[w])
  }

  ghost predicate EntriesPermitted(g: Governed) {
    forall i :: 0 <= i < |g.world.entries| ==> g.world.entries[i].worker in g.permits
  }

  /** One lease identity, one observation. */
  ghost predicate LeasesOk(world: World) {
    forall u, w :: u in world.workers && w in world.workers && world.workers[u].leaseId == world.workers[w].leaseId ==>
      world.workers[u].Key() == world.workers[w].Key() && world.workers[u].observed == world.workers[w].observed
  }

  ghost predicate GovernedOk(g: Governed) {
    && WorldOk(g.world) && GovernorRuns.HistoryOk(g.governor) && Logged(g.governor)
    && PermitsOk(g) && EntriesPermitted(g) && LeasesOk(g.world)
  }

  predicate SameCoordinates(a: Worker, b: Worker) {
    a.Key() == b.Key() && a.observed == b.observed && a.leaseId == b.leaseId
  }

  ghost predicate CoordinatesKept(a: World, b: World) {
    forall w :: w in a.workers ==> w in b.workers && SameCoordinates(a.workers[w], b.workers[w])
  }

  /** New workers come from a spawn and observe what is current. */
  ghost predicate NewcomersOk(a: World, b: World, step: Step) {
    forall w :: w in b.workers && w !in a.workers ==>
      && step.Spawn? && w == step.w && b.workers[w].leaseId == step.leaseId
      && KeyFor(step.authority, step.id) in a.ledger
      && b.workers[w].Key() == KeyFor(step.authority, step.id)
      && b.workers[w].observed == a.ledger[KeyFor(step.authority, step.id)].revision
  }

  /** Only entering adds an entry. */
  ghost predicate EntriesFrom(a: World, b: World, step: Step) {
    b.entries != a.entries ==> step.Enter? && exists r :: b.entries == a.entries + [Entry(step.w, r)]
  }

  /** A worker's own step moves that worker only. */
  lemma WorkerStepMovesOne(a: World, step: Step, w: nat)
    requires !step.Create? && !step.Client? && !step.Spawn? && w == step.w && w in a.workers
    ensures var b := WorkerStep(a, step, w, a.workers[w]);
      && w in b.workers && b.workers == a.workers[w := b.workers[w]] && SameCoordinates(a.workers[w], b.workers[w])
      && EntriesFrom(a, b, step)
  {
    hide ApplyStep, SettleReport, SettlementOf, Normalized, RawOutcome;
  }

  lemma WorkersKeepCoordinates(a: World, step: Step)
    ensures CoordinatesKept(a, Do(a, step)) && NewcomersOk(a, Do(a, step), step) && EntriesFrom(a, Do(a, step), step)
  {
    hide ApplyStep, NewEffect, ValidAuthority, WorkerStep;
    if !step.Create? && !step.Client? && !step.Spawn? && step.w in a.workers {
      WorkerStepMovesOne(a, step, step.w);
    }
  }

  lemma LeasesKept(a: World, b: World, step: Step)
    requires LeasesOk(a) && CoordinatesKept(a, b) && NewcomersOk(a, b, step)
    requires step.Spawn? ==> LeaseIsFree(a, step.authority, step.id, step.leaseId)
    ensures LeasesOk(b)
  {
    forall u, w | u in b.workers && w in b.workers && b.workers[u].leaseId == b.workers[w].leaseId
      ensures b.workers[u].Key() == b.workers[w].Key() && b.workers[u].observed == b.workers[w].observed
    {
      if u in a.workers { assert SameCoordinates(a.workers[u], b.workers[u]); }
      if w in a.workers { assert SameCoordinates(a.workers[w], b.workers[w]); }
    }
  }

  lemma EntriesStayPermitted(g: Governed, b: World, step: Step)
    requires EntriesPermitted(g) && EntriesFrom(g.world, b, step) && (step.Enter? ==> step.w in g.permits)
    ensures EntriesPermitted(g.(world := b))
  {
    forall i | 0 <= i < |b.entries| ensures b.entries[i].worker in g.permits {
      if i < |g.world.entries| { assert b.entries[i] == g.world.entries[i]; }
    }
  }

  lemma PermitsSurviveWorld(g: Governed, world: World)
    requires PermitsOk(g) && CoordinatesKept(g.world, world)
    ensures PermitsOk(g.(world := world))
  {
    forall w | w in g.permits ensures PermitOk(world, g.governor.log, w, g.permits[w]) {
      assert PermitOk(g.world, g.governor.log, w, g.permits[w]);
    }
  }

  lemma WorldStepKeepsGoverned(g: Governed, step: Step)
    requires GovernedOk(g)
    requires step.Enter? ==> step.w in g.permits
    requires step.Spawn? ==> LeaseIsFree(g.world, step.authority, step.id, step.leaseId)
    ensures GovernedOk(g.(world := Do(g.world, step)))
  {
    hide Do, WorldOk, GovernorRuns.HistoryOk, Logged, PermitsOk, EntriesPermitted, LeasesOk, CoordinatesKept, NewcomersOk,
         EntriesFrom, LeaseIsFree;
    var b := Do(g.world, step);
    StepKeepsWorld(g.world, step);
    WorkersKeepCoordinates(g.world, step);
    PermitsSurviveWorld(g, b);
    LeasesKept(g.world, b, step);
    EntriesStayPermitted(g, b, step);
  }

  lemma PermitsSurviveLog(g: Governed, next: GovernorStore.History)
    requires PermitsOk(g) && g.governor.log <= next.log
    ensures PermitsOk(g.(governor := next))
  {
    forall w | w in g.permits ensures PermitOk(g.world, next.log, w, g.permits[w]) {
      assert PermitOk(g.world, g.governor.log, w, g.permits[w]);
    }
  }

  lemma GovernorStepKeepsGoverned(g: Governed, call: GovernorStore.Call)
    requires GovernedOk(g)
    ensures GovernedOk(g.(governor := GovernorStore.Next(g.governor, call)))
  {
    hide WorldOk, GovernorRuns.HistoryOk, Logged, PermitsOk, LeasesOk, GovernorStore.Step, GovernorStore.NewEvents;
    GovernorRuns.StepKeepsHistory(g.governor, call);
    StepKeepsLogged(g.governor, call);
    PermitsSurviveLog(g, GovernorStore.Next(g.governor, call));
  }

  /** An admitted worker gets the index of its own, admitting issue. */
  lemma NewPermitOk(g: Governed, w: nat, request: GovernorLane.Admission, tenant: string, issue: nat)
    requires w in g.world.workers && Logged(g.governor)
    requires tenant == g.world.workers[w].Key().tenant && request.id == g.world.workers[w].leaseId
    requires var call := GovernorStore.Admit(tenant, request);
      var response := GovernorStore.Step(g.governor.store, call).1;
      && response.Admitted? && response.decision.Admits()
      && LastIssue(GovernorStore.Next(g.governor, call).log, GovernorStore.KeyOf(tenant, request.operation, request.policy), request.id)
         == Some(issue)
    ensures PermitOk(g.world, GovernorStore.Next(g.governor, GovernorStore.Admit(tenant, request)).log, w, issue)
  {
    hide GovernorStore.AdmitStep, GovernorStore.NewEvents, LastIssue;
    var call := GovernorStore.Admit(tenant, request);
    var next := GovernorStore.Next(g.governor, call);
    var key := GovernorStore.AdmissionKey(tenant, request.id);
    StepKeepsLogged(g.governor, call);
    AnswerIsRecorded(g.governor.store, tenant, request);
    assert RecordLogged(next.log, key, next.store.admissions[key]);
  }

  lemma AskKeepsGoverned(g: Governed, w: nat, policy: GovernorLane.Policy, at: u64)
    requires GovernedOk(g)
    ensures GovernedOk(Asked(g, w, policy, at))
  {
    hide WorldOk, GovernorRuns.HistoryOk, LeasesOk, Logged, GovernorStore.Step, GovernorStore.Next, LastIssue;
    var b := Asked(g, w, policy, at);
    if AdmissionFor(g.world, w, policy, at).Some? {
      var request := AdmissionFor(g.world, w, policy, at).value;
      var tenant := TenantKey(g.world.workers[w].authority.tenant);
      var call := GovernorStore.Admit(tenant, request);
      var asked := g.(governor := GovernorStore.Next(g.governor, call));
      GovernorStepKeepsGoverned(g, call);
      if b != asked {
        NewPermitOk(g, w, request, tenant, b.permits[w]);
        hide PermitOk;
        assert b == asked.(permits := g.permits[w := b.permits[w]]);
        assert PermitsOk(b) && EntriesPermitted(b);
      }
    }
  }

  lemma GovernedStepKeeps(g: Governed, step: GovernedStep)
    requires GovernedOk(g)
    ensures GovernedOk(GovernedDo(g, step))
  {
    hide GovernedOk, Do, Asked, GovernorStore.Next, LeaseIsFree;
    match step
    case Plain(plain) =>
      if !plain.Enter? && (plain.Spawn? ==> LeaseIsFree(g.world, plain.authority, plain.id, plain.leaseId)) {
        WorldStepKeepsGoverned(g, plain);
      }
    case Ask(w, policy, at) => AskKeepsGoverned(g, w, policy, at);
    case Dispatch(w) => if w in g.permits { WorldStepKeepsGoverned(g, Enter(w)); }
    case Govern(call) => GovernorStepKeepsGoverned(g, call);
  }

  lemma {:induction false} GovernedRunKeeps(steps: seq<GovernedStep>)
    ensures GovernedOk(GovernedRun(steps))
  {
    if steps != [] {
      hide GovernedOk, GovernedDo;
      GovernedRunKeeps(steps[..|steps| - 1]);
      GovernedStepKeeps(GovernedRun(steps[..|steps| - 1]), steps[|steps| - 1]);
    }
  }

  // ----------------------------------------------------------------- counting

  predicate TakesProbeSlot(e: Event, k: LaneKey, window: int) {
    GovernorRuns.IsProbe(e, k) && 0 < e.policy.windowMs && GovernorLane.WindowStart(e.at, e.policy.windowMs) == window
  }

  /** Probes issued on lane `k` in the window that starts at `window`. */
  function ProbeSlots(log: seq<Event>, k: LaneKey, window: int): nat {
    if log == [] then 0
    else ProbeSlots(log[..|log| - 1], k, window) + if TakesProbeSlot(log[|log| - 1], k, window) then 1 else 0
  }

  predicate AdmitsIn(e: Event, k: LaneKey, window: int) {
    GovernorRuns.TakesSlot(e, k, window) || TakesProbeSlot(e, k, window)
  }

  ghost function IssueSet(log: seq<Event>, k: LaneKey, window: int): set<nat> {
    set j: nat | j < |log| && AdmitsIn(log[j], k, window)
  }

  lemma {:induction false} IssuesAreCounted(log: seq<Event>, k: LaneKey, window: int)
    ensures |IssueSet(log, k, window)| == GovernorRuns.Slots(log, k, window) + ProbeSlots(log, k, window)
  {
    if log != [] {
      hide GovernorRuns.TakesSlot, TakesProbeSlot;
      var n := |log| - 1;
      var front := log[..n];
      IssuesAreCounted(front, k, window);
      SlotsAreApart(log[n], k, window);
      if AdmitsIn(log[n], k, window) {
        assert IssueSet(log, k, window) == IssueSet(front, k, window) + {n};
      } else {
        assert IssueSet(log, k, window) == IssueSet(front, k, window);
      }
    } else {
      assert IssueSet(log, k, window) == {};
    }
  }

  lemma SlotsAreApart(e: Event, k: LaneKey, window: int)
    ensures !(GovernorRuns.TakesSlot(e, k, window) && TakesProbeSlot(e, k, window))
  {
  }

  /** The entry of the Connector was permitted on lane `k` in this window. */
  ghost predicate PermittedIn(g: Governed, i: nat, k: LaneKey, window: int) {
    && i < |g.world.entries| && g.world.entries[i].worker in g.permits
    && g.permits[g.world.entries[i].worker] < |g.governor.log|
    && AdmitsIn(g.governor.log[g.permits[g.world.entries[i].worker]], k, window)
  }

  ghost function EntrySet(g: Governed, k: LaneKey, window: int): set<nat> {
    set i: nat | i < |g.world.entries| && PermittedIn(g, i, k, window)
  }

  /** No two entries use one issued admission. */
  lemma PermitsAreUsedOnce(g: Governed, i: nat, j: nat)
    requires GovernedOk(g) && i < |g.world.entries| && j < |g.world.entries|
    requires g.world.entries[i].worker in g.permits && g.world.entries[j].worker in g.permits
    requires g.permits[g.world.entries[i].worker] == g.permits[g.world.entries[j].worker]
    ensures i == j
  {
    hide LedgerOk, AuthorsOk, GovernorRuns.HistoryOk, Logged, PhaseOk, ObservedOk;
    var u, w := g.world.entries[i].worker, g.world.entries[j].worker;
    assert PermitOk(g.world, g.governor.log, u, g.permits[u]) && PermitOk(g.world, g.governor.log, w, g.permits[w]);
    assert EntryOk(g.world, g.world.entries[i]) && EntryOk(g.world, g.world.entries[j]);
    assert WorkerOk(g.world, u, g.world.workers[u]) && WorkerOk(g.world, w, g.world.workers[w]);
    assert g.world.workers[u].claimed == g.world.workers[w].claimed;
    assert u == w;
  }

  /** A set that maps one-to-one into another is no larger. */
  lemma {:induction false} InjectionBounds(s: set<nat>, f: map<nat, nat>, t: set<nat>)
    requires forall i :: i in s ==> i in f && f[i] in t
    requires forall i, j :: i in s && j in s && f[i] == f[j] ==> i == j
    ensures |s| <= |t|
    decreases s
  {
    if s != {} {
      var i :| i in s;
      InjectionBounds(s - {i}, f, t - {f[i]});
    }
  }

  ghost function PermitOf(g: Governed): map<nat, nat> {
    map i: nat | i < |g.world.entries| && g.world.entries[i].worker in g.permits :: g.permits[g.world.entries[i].worker]
  }

  lemma EntriesUseIssues(g: Governed, k: LaneKey, window: int)
    requires GovernedOk(g)
    ensures |EntrySet(g, k, window)| <= |IssueSet(g.governor.log, k, window)|
  {
    hide AdmitsIn, GovernedOk;
    var f := PermitOf(g);
    forall i, j | i in EntrySet(g, k, window) && j in EntrySet(g, k, window) && f[i] == f[j] ensures i == j {
      PermitsAreUsedOnce(g, i, j);
    }
    InjectionBounds(EntrySet(g, k, window), f, IssueSet(g.governor.log, k, window));
  }

  lemma GovernedQuota(g: Governed, k: LaneKey, window: int)
    requires GovernedOk(g) && k in g.governor.store.lanes
    ensures |EntrySet(g, k, window)| <= g.governor.store.lanes[k].digest.of.maxDispatches + ProbeSlots(g.governor.log, k, window)
  {
    hide WorldOk, GovernorRuns.HistoryOk, Logged, PermitsOk, EntriesPermitted, LeasesOk, EntrySet, IssueSet, GovernorRuns.Slots,
         ProbeSlots;
    EntriesUseIssues(g, k, window);
    IssuesAreCounted(g.governor.log, k, window);
    QuotaHolds(g.governor, k, window);
  }

  /** Over any interleaving of executors, clients and users of the governor, the
      Connector is entered, with admissions of one lane and one fixed window, at
      most as often as the lane's quota plus the probes issued there. */
  lemma ConnectorQuota(steps: seq<GovernedStep>, k: LaneKey, window: int)
    requires k in GovernedRun(steps).governor.store.lanes
    ensures var g := GovernedRun(steps);
      |EntrySet(g, k, window)| <= g.governor.store.lanes[k].digest.of.maxDispatches + ProbeSlots(g.governor.log, k, window)
  {
    hide *;
    GovernedRunKeeps(steps);
    GovernedQuota(GovernedRun(steps), k, window);
  }

  lemma QuotaHolds(h: GovernorStore.History, k: LaneKey, window: int)
    requires GovernorRuns.HistoryOk(h) && k in h.store.lanes
    ensures GovernorRuns.Slots(h.log, k, window) <= h.store.lanes[k].digest.of.maxDispatches
  {
    assert GovernorRuns.LaneLog(h.store.lanes[k], k, h.log);
  }

  /** Every entry of the Connector was permitted on the lane of some admission. */
  lemma EntriesAreGoverned(steps: seq<GovernedStep>, i: nat)
    requires i < |GovernedRun(steps).world.entries|
    ensures var g := GovernedRun(steps); var entry := g.world.entries[i];
      && entry.worker in g.permits && entry.worker in g.world.workers && g.permits[entry.worker] < |g.governor.log|
      && var e := g.governor.log[g.permits[entry.worker]];
         e.Issued? && e.decision.Admits() && e.id == g.world.workers[entry.worker].leaseId
  {
    GovernedRunKeeps(steps);
    var g := GovernedRun(steps);
    hide GovernedRun, WorldOk, GovernorRuns.HistoryOk, Logged, LeasesOk;
    var w := g.world.entries[i].worker;
    assert PermitOk(g.world, g.governor.log, w, g.permits[w]);
  }

  /** A worker that holds its claim and is admitted can enter. */
  lemma AdmittedWorkerEnters(g: Governed, w: nat, request: GovernorLane.Admission)
    requires GovernedOk(g) && w in g.world.workers && g.world.workers[w].phase.Holding? && w !in g.permits
    requires AdmissionFor(g.world, w, request.policy, request.at) == Some(request)
    requires var response := GovernorStore.AdmitStep(g.governor.store, g.world.workers[w].Key().tenant, request).1;
      response.Admitted? && response.decision.Admits()
    ensures var b := GovernedDo(GovernedDo(g, Ask(w, request.policy, request.at)), Dispatch(w));
      && g.world.workers[w].claimed.Some?
      && b.world.entries == g.world.entries + [Entry(w, Revision(g.world.workers[w].Key(), g.world.workers[w].claimed.value))]
  {
    hide GovernorStore.AdmitStep, GovernorStore.NewEvents, LastIssue, LedgerOk, AuthorsOk, EntriesOk, GovernorRuns.HistoryOk;
    var tenant := g.world.workers[w].Key().tenant;
    var call := GovernorStore.Admit(tenant, request);
    var next := GovernorStore.Next(g.governor, call);
    var key := GovernorStore.AdmissionKey(tenant, request.id);
    StepKeepsLogged(g.governor, call);
    AnswerIsRecorded(g.governor.store, tenant, request);
    assert RecordLogged(next.log, key, next.store.admissions[key]);
    assert WorkerOk(g.world, w, g.world.workers[w]);
  }

  /** The whole way: from any governed state in which the governor would admit the
      lease, a new worker can take any due Effect through its claim and its admission
      into the Connector. */
  lemma DueEffectCanBeDispatched(g: Governed, w: nat, id: string, authority: Authority, leaseId: string, commandId: string,
                                 duration: int, at: u64, policy: GovernorLane.Policy, admittedAt: u64)
    requires GovernedOk(g) && w !in g.world.workers && LeaseIsFree(g.world, authority, id, leaseId)
    requires ValidAuthority(authority) && ValidIdentity(id) && KeyFor(authority, id) in g.world.ledger
    requires Claimable(g.world.ledger[KeyFor(authority, id)].effect, leaseId, commandId, duration, at)
    requires var key := KeyFor(authority, id);
      var request := GovernorLane.Admission(leaseId, g.world.ledger[key].effect.operation, policy, admittedAt);
      var response := GovernorStore.AdmitStep(g.governor.store, key.tenant, request).1;
      response.Admitted? && response.decision.Admits()
    ensures var key := KeyFor(authority, id);
      var prepared := GovernedDo(g, Plain(Spawn(w, authority, id, leaseId, at)));
      var holding := GovernedDo(prepared, Plain(TryClaim(w, commandId, duration, at)));
      var b := GovernedDo(GovernedDo(holding, Ask(w, policy, admittedAt)), Dispatch(w));
      b.world.entries == g.world.entries + [Entry(w, Revision(key, g.world.ledger[key].revision + 1))]
  {
    hide *;
    var key := KeyFor(authority, id);
    var spawn, claim := Spawn(w, authority, id, leaseId, at), TryClaim(w, commandId, duration, at);
    var prepared := GovernedDo(g, Plain(spawn));
    var holding := GovernedDo(prepared, Plain(claim));
    GovernedStepKeeps(g, Plain(spawn));
    GovernedStepKeeps(prepared, Plain(claim));
    PlainStepIsPlain(g, spawn);
    PlainStepIsPlain(prepared, claim);
    GovernedOkHasWorld(g);
    NewWorkerHasNoPermit(g, w);
    DueEffectCanBeEntered(g.world, w, id, authority, leaseId, commandId, duration, at);
    ClaimedWorkerHolds(g.world, w, id, authority, leaseId, commandId, duration, at);
    var request := GovernorLane.Admission(leaseId, g.world.ledger[key].effect.operation, policy, admittedAt);
    HolderAsks(holding.world, w, key, request);
    AdmittedWorkerEnters(holding, w, request);
    DispatchEnters(holding, w, policy, admittedAt);
  }

  lemma PlainStepIsPlain(g: Governed, step: Step)
    requires !step.Enter? && (step.Spawn? ==> LeaseIsFree(g.world, step.authority, step.id, step.leaseId))
    ensures GovernedDo(g, Plain(step)) == g.(world := Do(g.world, step))
  {
  }

  lemma GovernedOkHasWorld(g: Governed)
    requires GovernedOk(g)
    ensures WorldOk(g.world)
  {
  }

  lemma NewWorkerHasNoPermit(g: Governed, w: nat)
    requires GovernedOk(g) && w !in g.world.workers
    ensures w !in g.permits
  {
    hide WorldOk, GovernorRuns.HistoryOk, Logged, LeasesOk, EntriesPermitted;
    forall u | u in g.permits ensures u in g.world.workers {
      assert PermitOk(g.world, g.governor.log, u, g.permits[u]);
    }
  }

  lemma ClaimedWorkerHolds(a: World, w: nat, id: string, authority: Authority, leaseId: string, commandId: string,
                           duration: int, at: u64)
    requires WorldOk(a) && w !in a.workers
    requires ValidAuthority(authority) && ValidIdentity(id) && KeyFor(authority, id) in a.ledger
    requires Claimable(a.ledger[KeyFor(authority, id)].effect, leaseId, commandId, duration, at)
    ensures var key := KeyFor(authority, id);
      var b := Do(Do(a, Spawn(w, authority, id, leaseId, at)), TryClaim(w, commandId, duration, at));
      && w in b.workers && b.workers[w].phase.Holding? && b.workers[w].Key() == key && b.workers[w].leaseId == leaseId
      && key in b.ledger && b.ledger[key].effect.operation == a.ledger[key].effect.operation
  {
    hide LedgerOk, WorkerOk, AuthorsOk, EntriesOk, ApplyCommand, Recognizes, ValidAuthority, ValidIdentity;
    var spawned := Do(a, Spawn(w, authority, id, leaseId, at));
    SpawnKeeps(a, w, authority, id, leaseId, at);
    assert WorkerOk(spawned, w, spawned.workers[w]);
    ClaimCommits(a.ledger, id, authority, leaseId, commandId, duration, at);
    CommittedClaimIsHeld(spawned, w, commandId, duration, at);
    CommandsKeepCoordinate(a.ledger[KeyFor(authority, id)].effect, Command(commandId, Claim(leaseId, duration)), at, authority);
  }

  lemma HolderAsks(world: World, w: nat, key: EffectKey, request: GovernorLane.Admission)
    requires w in world.workers && world.workers[w].Key() == key && world.workers[w].leaseId == request.id
    requires key in world.ledger && world.ledger[key].effect.operation == request.operation
    ensures AdmissionFor(world, w, request.policy, request.at) == Some(request)
  {
  }

  /** A dispatch that adds an entry is an entry of the plain protocol. */
  lemma DispatchEnters(g: Governed, w: nat, policy: GovernorLane.Policy, at: u64)
    requires w in g.world.workers
    ensures var b := GovernedDo(GovernedDo(g, Ask(w, policy, at)), Dispatch(w));
      b.world == g.world || b.world == Do(g.world, Enter(w))
  {
    hide Do, GovernorStore.Next, LastIssue, GovernorStore.Step;
  }
}
