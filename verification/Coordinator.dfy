/** The Effect ledger: compare-and-swap commands on stored aggregates, keyset
    pages over them, and the consumer-side check of such pages. */
module Coordinator {
  import opened Support
  import opened Effects
  import opened Identities

  const MAX_EFFECT_PAGE := 256

  datatype EffectKey = EffectKey(tenant: string, id: string)

  datatype Snapshot = Snapshot(id: string, tenant: Option<string>, revision: int, effect: Effect)

  type Ledger = map<EffectKey, Snapshot>

  datatype Coordinate = Coordinate(tenant: string, operation: Operation, idempotencyKey: string)

  datatype Reply =
    | Committed(snapshot: Snapshot)
    | AlreadyCommitted(snapshot: Snapshot)
    | Conflict(actual: int)
    | Missing
    | Denied(error: EffectError)

  /** The unscoped tenant is stored under the empty string, which is no tenant. */
  function TenantKey(tenant: Option<string>): string {
    if tenant.Some? then tenant.value else ""
  }

  function KeyFor(authority: Authority, id: string): EffectKey {
    EffectKey(TenantKey(authority.tenant), id)
  }

  // ----------------------------------------------------------- specification

  /** A recognised duplicate changes nothing, a wrong revision conflicts, and
      anything else adds exactly one revision or is refused. */
  function ApplyStep(ledger: Ledger, id: string, expected: int, command: Command, at: u64, authority: Authority)
    : (Ledger, Reply)
  {
    var key := KeyFor(authority, id);
    if !ValidAuthority(authority) || !ValidIdentity(id) || expected <= 0 then (ledger, Denied(InvalidIdentity))
    else if key !in ledger then (ledger, Missing)
    else
      var current := ledger[key];
      match Recognizes(current.effect, command, authority)
      case Err(error) => (ledger, Denied(error))
      case Ok(true) => (ledger, AlreadyCommitted(current))
      case Ok(false) =>
        if current.revision != expected then (ledger, Conflict(current.revision))
        else
          match ApplyCommand(current.effect, command, at, authority)
          case Failed(error) => (ledger, Denied(error))
          case Duplicate => (ledger, AlreadyCommitted(current))
          case Fresh(effect) =>
            var next := Snapshot(id, current.tenant, current.revision + 1, effect);
            (ledger[key := next], Committed(next))
  }

  /** Stored snapshots are valid aggregates whose revision counts transitions. */
  ghost predicate SnapshotOk(key: EffectKey, snapshot: Snapshot) {
    && snapshot.id == key.id
    && snapshot.tenant == snapshot.effect.tenant
    && TenantKey(snapshot.tenant) == key.tenant
    && (snapshot.tenant.Some? ==> snapshot.tenant.value != "")
    && ValidEffect(snapshot.effect)
    && snapshot.revision == |snapshot.effect.transitions|
  }

  ghost predicate LedgerOk(ledger: Ledger) {
    forall key :: key in ledger ==> SnapshotOk(key, ledger[key])
  }

  /** What one command can do to a healthy ledger. */
  lemma ApplyKeepsLedger(ledger: Ledger, id: string, expected: int, command: Command, at: u64, authority: Authority)
    requires LedgerOk(ledger)
    ensures var (next, reply) := ApplyStep(ledger, id, expected, command, at, authority);
      var key := KeyFor(authority, id);
      && LedgerOk(next)
      && reply != Denied(InconsistentHistory)
      && (!reply.Committed? ==> next == ledger)
      && (reply.Committed? ==>
            && key in ledger && ledger[key].revision == expected
            && next == ledger[key := reply.snapshot]
            && reply.snapshot.revision == expected + 1
            && reply.snapshot.effect.transitions[..expected] == ledger[key].effect.transitions
            && !reply.snapshot.effect.transitions[expected].kind.Created?
            && CommandKindOf(reply.snapshot.effect.transitions[expected].kind) == command.kind)
  {
    hide ReplayOne, ApplyKind;
    var key := KeyFor(authority, id);
    if key in ledger && ValidAuthority(authority) {
      assert SnapshotOk(key, ledger[key]);
      SameTenant(ledger[key].tenant, authority);
      LiveLifecycleReplays(ledger[key].effect, command, at, authority);
    }
  }

  /** How a command is answered: if its coordinates are malformed it is denied, and
      otherwise as already committed if and only if the
      history holds its own transition, as a conflict if and only if it is new and
      the revision has moved, and as committed if and only if it is new, the revision
      is the expected one, its time is in order, the history has room and the
      lifecycle allows it; the new status is then the lifecycle's. */
  lemma CommandsAreAnswered(ledger: Ledger, id: string, expected: int, command: Command, at: u64, authority: Authority)
    requires LedgerOk(ledger)
    ensures var reply := ApplyStep(ledger, id, expected, command, at, authority).1;
      var key := KeyFor(authority, id);
      var named := ValidAuthority(authority) && ValidIdentity(id) && 0 < expected;
      && (!named ==> reply.Denied?)
      && (reply.Missing? <==> named && key !in ledger)
      && (named && key in ledger && !ValidIdentity(command.id) ==> reply.Denied?)
      && (named && key in ledger && ValidIdentity(command.id) ==>
            var e := ledger[key].effect;
            && (reply.AlreadyCommitted? <==> exists i: nat :: Recorded(e, i, command, authority))
            && (reply.AlreadyCommitted? ==> reply.snapshot == ledger[key])
            && (reply.Conflict? <==> FirstWithId(e.transitions, command.id).None? && ledger[key].revision != expected)
            && (reply.Conflict? ==> reply.actual == ledger[key].revision)
            && (reply.Committed? <==> ledger[key].revision == expected && Committable(e, command, at, authority))
            && (reply.Committed? ==>
                  Lifecycle(e.status, e.transitions, command.kind, at, authority.actor, reply.snapshot.effect.status)))
  {
    var key := KeyFor(authority, id);
    if ValidAuthority(authority) && key in ledger {
      assert SnapshotOk(key, ledger[key]);
      SameTenant(ledger[key].tenant, authority);
      var e := ledger[key].effect;
      hide ValidEffect, Lifecycle, Recorded, ApplyKind, ValidAuthority, ValidIdentity, Proposed, LedgerOk;
      if ValidIdentity(command.id) { RecognizedIff(e, command, authority); }
      CommittableIff(e, command, at, authority);
      var outcome := ApplyCommand(e, command, at, authority);
      if outcome.Fresh? {
        CommandCommitsIff(e, command, at, authority, outcome.effect.status);
      }
    }
  }

  /** The command is new, in order, and the lifecycle leads somewhere. */
  ghost predicate Committable(e: Effect, command: Command, at: u64, authority: Authority) {
    && ValidIdentity(command.id) && FirstWithId(e.transitions, command.id).None?
    && 0 < at && 0 < |e.transitions| < 4_096 && e.transitions[|e.transitions| - 1].appliedAt <= at
    && exists next :: Lifecycle(e.status, e.transitions, command.kind, at, authority.actor, next)
  }

  lemma CommittableIff(e: Effect, command: Command, at: u64, authority: Authority)
    requires ValidEffect(e) && e.tenant == authority.tenant
    ensures ApplyCommand(e, command, at, authority).Fresh? <==> Committable(e, command, at, authority)
  {
    var outcome := ApplyCommand(e, command, at, authority);
    HistoryIsNotEmpty(e);
    hide ApplyCommand, Lifecycle, ValidEffect, ValidIdentity;
    if outcome.Fresh? {
      CommandCommitsIff(e, command, at, authority, outcome.effect.status);
    }
    if Committable(e, command, at, authority) {
      var next :| Lifecycle(e.status, e.transitions, command.kind, at, authority.actor, next);
      CommandCommitsIff(e, command, at, authority, next);
    }
  }

  lemma HistoryIsNotEmpty(e: Effect)
    requires ValidEffect(e)
    ensures 0 < |e.transitions|
  {
  }

  lemma SameTenant(tenant: Option<string>, authority: Authority)
    requires ValidAuthority(authority) && TenantKey(tenant) == TenantKey(authority.tenant)
    requires tenant.Some? ==> tenant.value != ""
    ensures tenant == authority.tenant
  {
  }

  // ----------------------------------------------------------------- paging

  function StatusName(status: Status): string {
    match status
    case Pending(_, _) => "pending"
    case Claimed(_) => "claimed"
    case Unknown(_, _, _) => "unknown"
    case Applied(_, _) => "applied"
    case Rejected(_, _) => "rejected"
    case Cancelled(_) => "cancelled"
  }

  /** Every status has its own name. */
  lemma NamesTellStatuses(status: Status)
    ensures status.Pending? <==> StatusName(status) == "pending"
    ensures status.Claimed? <==> StatusName(status) == "claimed"
    ensures status.Unknown? <==> StatusName(status) == "unknown"
    ensures status.Applied? <==> StatusName(status) == "applied"
    ensures status.Rejected? <==> StatusName(status) == "rejected"
    ensures status.Cancelled? <==> StatusName(status) == "cancelled"
  {
    assert "pending"[0] == 'p' && "claimed"[0] == 'c' && "unknown"[0] == 'u' && "applied"[0] == 'a' && "rejected"[0] == 'r';
    assert "claimed"[1] == 'l' && "cancelled"[1] == 'a';
  }

  datatype Page = Page(effects: seq<Snapshot>, nextCursor: Option<string>, hasMore: bool)

  predicate Matches(snapshot: Snapshot, status: Option<string>) {
    status.Some? ==> StatusName(snapshot.effect.status) == status.value
  }

  predicate Beyond(id: string, after: Option<string>) {
    after.Some? ==> Less(after.value, id)
  }

  /** The stored Effect is one a page after `after` is about. */
  predicate Wanted(ledger: Ledger, tenant: string, status: Option<string>, after: Option<string>, id: string) {
    && EffectKey(tenant, id) in ledger
    && Beyond(id, after)
    && Matches(ledger[EffectKey(tenant, id)], status)
  }

  function Ids(effects: seq<Snapshot>): seq<string> {
    seq(|effects|, i requires 0 <= i < |effects| => effects[i].id)
  }

  /** Snapshots of wanted Effects in identity order, none of them skipped. */
  ghost predicate LeadingRun(ledger: Ledger, tenant: string, status: Option<string>, after: Option<string>,
                             effects: seq<Snapshot>)
  {
    && Ascending(Ids(effects))
    && (forall i :: 0 <= i < |effects| ==>
          Wanted(ledger, tenant, status, after, effects[i].id) && effects[i] == ledger[EffectKey(tenant, effects[i].id)])
    && (forall id :: Wanted(ledger, tenant, status, after, id) ==>
          id in Ids(effects) || forall i :: 0 <= i < |effects| ==> Less(effects[i].id, id))
  }

  /** The page promised by a listing: the leading run of at most `limit`, cut only
      when there is more, with its last identity as cursor. */
  ghost predicate IsPage(ledger: Ledger, tenant: string, status: Option<string>, after: Option<string>, limit: nat,
                         page: Page)
  {
    && LeadingRun(ledger, tenant, status, after, page.effects)
    && |page.effects| <= limit
    && (page.hasMore ==> |page.effects| == limit)
    && (page.hasMore <==> exists id :: Wanted(ledger, tenant, status, after, id) && id !in Ids(page.effects))
    && page.nextCursor == if page.effects == [] then None else Some(page.effects[|page.effects| - 1].id)
  }

  method PageFromCandidates(candidates: seq<Snapshot>, limit: nat) returns (page: Page)
    ensures page.effects == if |candidates| > limit then candidates[..limit] else candidates
    ensures page.hasMore == (|candidates| > limit)
    ensures page.nextCursor == if page.effects == [] then None else Some(page.effects[|page.effects| - 1].id)
  {
    var hasMore := |candidates| > limit;
    var kept := if |candidates| > limit then candidates[..limit] else candidates;
    var nextCursor := if kept == [] then None else Some(kept[|kept| - 1].id);
    page := Page(kept, nextCursor, hasMore);
  }

  lemma LeadingRunExtends(ledger: Ledger, tenant: string, status: Option<string>, after: Option<string>,
                          effects: seq<Snapshot>, visited: set<string>, id: string)
    requires Ascending(Ids(effects)) && id !in visited
    requires forall e :: e in effects ==> e.id in visited
    requires forall v :: v in visited ==> Less(v, id)
    requires EffectKey(tenant, id) in ledger && ledger[EffectKey(tenant, id)].id == id
    ensures Ascending(Ids(effects + [ledger[EffectKey(tenant, id)]]))
  {
    var next := effects + [ledger[EffectKey(tenant, id)]];
    forall i, j | 0 <= i < j < |Ids(next)| ensures Less(Ids(next)[i], Ids(next)[j]) {
      if j < |effects| {
        assert Ids(effects)[i] == Ids(next)[i] && Ids(effects)[j] == Ids(next)[j];
      } else {
        assert effects[i] in effects;
      }
    }
  }

  /** In-order walk of the tenant's Effects, filtered, cut at one more than the
      limit. */
  method Candidates(ledger: Ledger, tenant: string, status: Option<string>, after: Option<string>, count: nat)
    returns (candidates: seq<Snapshot>, rest: set<string>)
    requires LedgerOk(ledger) && 0 < count
    ensures |candidates| <= count
    ensures rest != {} ==> |candidates| == count
    ensures Ascending(Ids(candidates))
    ensures forall i :: 0 <= i < |candidates| ==>
      && Wanted(ledger, tenant, status, after, candidates[i].id)
      && candidates[i] == ledger[EffectKey(tenant, candidates[i].id)]
      && forall id :: id in rest ==> Less(candidates[i].id, id)
    ensures forall id :: Wanted(ledger, tenant, status, after, id) ==> id in Ids(candidates) || id in rest
  {
    hide ValidEffect, Less, Beyond, Matches;
    var all := set key | key in ledger && key.tenant == tenant :: key.id;
    rest := all;
    candidates := [];
    while rest != {} && |candidates| < count
      invariant rest <= all && |candidates| <= count
      invariant Ascending(Ids(candidates))
      invariant forall i :: 0 <= i < |candidates| ==>
        && candidates[i].id in all - rest
        && Wanted(ledger, tenant, status, after, candidates[i].id)
        && candidates[i] == ledger[EffectKey(tenant, candidates[i].id)]
      invariant forall v, id :: v in all - rest && id in rest ==> Less(v, id)
      invariant forall id :: id in all - rest && Wanted(ledger, tenant, status, after, id) ==> id in Ids(candidates)
      decreases rest
    {
      var id := Least(rest);
      assert EffectKey(tenant, id) in ledger;
      assert SnapshotOk(EffectKey(tenant, id), ledger[EffectKey(tenant, id)]);
      var snapshot := ledger[EffectKey(tenant, id)];
      ghost var before := candidates;
      if Beyond(id, after) && Matches(snapshot, status) {
        LeadingRunExtends(ledger, tenant, status, after, candidates, all - rest, id);
        candidates := candidates + [snapshot];
        assert Ids(candidates)[|before|] == id;
      }
      assert forall k :: 0 <= k < |before| ==> Ids(candidates)[k] == Ids(before)[k];
      rest := rest - {id};
    }
  }

  // ------------------------------------------------------------- the memory store

  type Index = map<Coordinate, string>

  function CoordinateOf(key: EffectKey, effect: Effect): Coordinate {
    Coordinate(key.tenant, effect.operation, effect.idempotencyKey)
  }

  /** The index names, for every coordinate, the one Effect stored under it. */
  ghost predicate IndexOk(ledger: Ledger, index: Index) {
    && (forall c :: c in index ==>
          var key := EffectKey(c.tenant, index[c]); key in ledger && CoordinateOf(key, ledger[key].effect) == c)
    && (forall key :: key in ledger ==>
          var c := CoordinateOf(key, ledger[key].effect); c in index && index[c] == key.id)
  }

  /** Two stored Effects with the same tenant, operation and idempotency key are
      the same Effect. */
  lemma OneEffectPerCoordinate(ledger: Ledger, index: Index, a: EffectKey, b: EffectKey)
    requires IndexOk(ledger, index) && a in ledger && b in ledger
    requires a.tenant == b.tenant
    requires ledger[a].effect.operation == ledger[b].effect.operation
    requires ledger[a].effect.idempotencyKey == ledger[b].effect.idempotencyKey
    ensures a == b
  {
    assert CoordinateOf(a, ledger[a].effect) == CoordinateOf(b, ledger[b].effect);
  }

  /** Commands never change the coordinate of an Effect. */
  lemma CommandsKeepCoordinate(e: Effect, command: Command, at: u64, authority: Authority)
    ensures var outcome := ApplyCommand(e, command, at, authority);
      outcome.Fresh? ==> outcome.effect.operation == e.operation && outcome.effect.idempotencyKey == e.idempotencyKey
  {
    hide ApplyKind, Recognizes, ValidEffect;
  }

  lemma UpdateKeepsIndex(ledger: Ledger, index: Index, key: EffectKey, snapshot: Snapshot)
    requires IndexOk(ledger, index) && key in ledger
    requires CoordinateOf(key, snapshot.effect) == CoordinateOf(key, ledger[key].effect)
    ensures IndexOk(ledger[key := snapshot], index)
  {
  }

  lemma ApplyKeepsIndex(ledger: Ledger, index: Index, id: string, expected: int, command: Command, at: u64, authority: Authority)
    requires IndexOk(ledger, index)
    ensures IndexOk(ApplyStep(ledger, id, expected, command, at, authority).0, index)
  {
    hide ApplyCommand, Recognizes, IndexOk;
    var key := KeyFor(authority, id);
    if key in ledger {
      CommandsKeepCoordinate(ledger[key].effect, command, at, authority);
      var next := ApplyStep(ledger, id, expected, command, at, authority).0;
      if next != ledger {
        UpdateKeepsIndex(ledger, index, key, next[key]);
      }
    }
  }

  lemma InsertKeepsIndex(ledger: Ledger, index: Index, key: EffectKey, snapshot: Snapshot)
    requires IndexOk(ledger, index) && key !in ledger && CoordinateOf(key, snapshot.effect) !in index
    ensures IndexOk(ledger[key := snapshot], index[CoordinateOf(key, snapshot.effect) := key.id])
  {
  }

  lemma NewEffectCoordinates(request: CreateRequest, at: u64, authority: Authority)
    requires NewEffect(request, at, authority).Ok?
    ensures var e := NewEffect(request, at, authority).value;
      && e.tenant == authority.tenant && e.operation == request.operation && e.idempotencyKey == request.idempotencyKey
      && e.input == request.input && e.createdAt == at && e.status == Pending(1, request.notBefore)
  {
  }

  /** A request is creatable when it is well formed. */
  predicate Creatable(id: string, request: CreateRequest, at: u64, authority: Authority) {
    ValidAuthority(authority) && ValidIdentity(id) && NewEffect(request, at, authority).Ok?
  }

  /** The stored Effect was created by this very request. */
  predicate CreatedBy(effect: Effect, request: CreateRequest, authority: Authority) {
    effect.transitions != [] && effect.transitions[0].digest == OfCreate(authority.actor, authority.tenant, request)
  }

  /** That is, its history begins with the creation this request asks for, by the
      same actor and tenant. */
  lemma CreatedByIff(effect: Effect, request: CreateRequest, authority: Authority)
    requires ValidEffect(effect)
    ensures CreatedBy(effect, request, authority) <==>
      var t := effect.transitions[0];
      && effect.tenant == authority.tenant && t.actor == authority.actor
      && t.kind.Created? && CreationOf(t) == request
  {
    hide ValidIdentity, Replay, ReplayKind;
    ValidIsCreated(effect);
    assert TransitionOk(effect, 0);
  }

  /** The reply to a request that meets a stored Effect. */
  function Repeated(existing: Snapshot, request: CreateRequest, authority: Authority): Reply {
    if CreatedBy(existing.effect, request, authority) then AlreadyCommitted(existing) else Denied(CommandReused)
  }

  function CreateStep(ledger: Ledger, index: Index, id: string, request: CreateRequest, at: u64, authority: Authority)
    : (Ledger, Index, Reply)
  {
    var key := KeyFor(authority, id);
    var coordinate := Coordinate(key.tenant, request.operation, request.idempotencyKey);
    if !ValidAuthority(authority) || !ValidIdentity(id) then (ledger, index, Denied(InvalidIdentity))
    else
      match NewEffect(request, at, authority)
      case Err(error) => (ledger, index, Denied(error))
      case Ok(effect) =>
        if key in ledger then (ledger, index, Repeated(ledger[key], request, authority))
        else if coordinate in index && EffectKey(key.tenant, index[coordinate]) in ledger then
          (ledger, index, Repeated(ledger[EffectKey(key.tenant, index[coordinate])], request, authority))
        else
          var snapshot := Snapshot(id, authority.tenant, 1, effect);
          (ledger[key := snapshot], index[coordinate := id], Committed(snapshot))
  }

  /** Creation keeps ledger and index. It commits exactly when the request is
      creatable and neither its identity nor its coordinate is taken, and then
      stores the new Effect at revision one; otherwise nothing changes. */
  lemma CreateKeepsStore(ledger: Ledger, index: Index, id: string, request: CreateRequest, at: u64, authority: Authority)
    requires LedgerOk(ledger) && IndexOk(ledger, index)
    ensures var (next, nextIndex, reply) := CreateStep(ledger, index, id, request, at, authority);
      var key := KeyFor(authority, id);
      && LedgerOk(next) && IndexOk(next, nextIndex)
      && (reply.Committed? <==>
            && Creatable(id, request, at, authority) && key !in ledger
            && Coordinate(key.tenant, request.operation, request.idempotencyKey) !in index)
      && (reply.Committed? ==>
            && reply.snapshot.revision == 1 && next == ledger[key := reply.snapshot]
            && reply.snapshot.id == id && reply.snapshot.tenant == authority.tenant
            && reply.snapshot.effect.operation == request.operation && reply.snapshot.effect.input == request.input
            && reply.snapshot.effect.idempotencyKey == request.idempotencyKey
            && reply.snapshot.effect.status == Pending(1, request.notBefore))
      && (!reply.Committed? ==> next == ledger && nextIndex == index)
      && (reply.AlreadyCommitted? ==>
            && CreatedBy(reply.snapshot.effect, request, authority)
            && KeyFor(authority, reply.snapshot.id) in ledger
            && ledger[KeyFor(authority, reply.snapshot.id)] == reply.snapshot)
      && (Creatable(id, request, at, authority) && key in ledger ==>
            (reply.AlreadyCommitted? <==> CreatedBy(ledger[key].effect, request, authority)))
  {
    hide ValidEffect, NewEffect, ValidAuthority, ValidIdentity, CreatedBy;
    var key := KeyFor(authority, id);
    if Creatable(id, request, at, authority) {
      NewEffectIsValid(request, at, authority);
      NewEffectCoordinates(request, at, authority);
      ValidTenants(authority);
      var snapshot := Snapshot(id, authority.tenant, 1, NewEffect(request, at, authority).value);
      assert SnapshotOk(key, snapshot);
      if key !in ledger && CoordinateOf(key, snapshot.effect) !in index {
        InsertKeepsIndex(ledger, index, key, snapshot);
      }
      hide IndexOk;
    }
  }

  lemma ValidTenants(authority: Authority)
    requires ValidAuthority(authority)
    ensures authority.tenant.Some? ==> authority.tenant.value != ""
  {
  }

  class MemoryCoordinator {
    var effects: Ledger
    var idempotency: Index

    ghost predicate Valid()
      reads this
    {
      LedgerOk(effects) && IndexOk(effects, idempotency)
    }

    constructor ()
      ensures Valid() && effects == map[] && idempotency == map[]
    {
      effects, idempotency := map[], map[];
    }

    /** Creates an Effect once per identity and once per idempotency coordinate;
        an exact repetition returns what is stored, anything else is refused. */
    method CreateAs(id: string, request: CreateRequest, at: u64, authority: Authority) returns (reply: Reply)
      requires Valid()
      modifies this
      ensures Valid()
      ensures (effects, idempotency, reply) == CreateStep(old(effects), old(idempotency), id, request, at, authority)
    {
      CreateKeepsStore(effects, idempotency, id, request, at, authority);
      hide NewEffect, ValidAuthority, ValidIdentity, LedgerOk;
      if !ValidAuthority(authority) || !ValidIdentity(id) {
        return Denied(InvalidIdentity);
      }
      var proposed := NewEffect(request, at, authority);
      if proposed.Err? {
        return Denied(proposed.error);
      }
      var key := KeyFor(authority, id);
      var coordinate := Coordinate(TenantKey(authority.tenant), request.operation, request.idempotencyKey);
      if key in effects {
        if !CreatedBy(effects[key].effect, request, authority) {
          return Denied(CommandReused);
        }
        return AlreadyCommitted(effects[key]);
      }
      if coordinate in idempotency {
        var existing := effects[EffectKey(coordinate.tenant, idempotency[coordinate])];
        if !CreatedBy(existing.effect, request, authority) {
          return Denied(CommandReused);
        }
        return AlreadyCommitted(existing);
      }
      var snapshot := Snapshot(id, authority.tenant, 1, proposed.value);
      idempotency := idempotency[coordinate := id];
      effects := effects[key := snapshot];
      return Committed(snapshot);
    }

    method ApplyAs(id: string, expected: int, command: Command, at: u64, authority: Authority) returns (reply: Reply)
      requires Valid()
      modifies this`effects
      ensures Valid()
      ensures (effects, reply) == ApplyStep(old(effects), id, expected, command, at, authority)
    {
      hide ApplyCommand, Recognizes, LedgerOk, IndexOk, ValidAuthority, ValidIdentity;
      ApplyKeepsLedger(effects, id, expected, command, at, authority);
      ApplyKeepsIndex(effects, idempotency, id, expected, command, at, authority);
      if !ValidAuthority(authority) || !ValidIdentity(id) || expected <= 0 {
        return Denied(InvalidIdentity);
      }
      var key := KeyFor(authority, id);
      if key !in effects {
        return Missing;
      }
      var current := effects[key];
      var known := Recognizes(current.effect, command, authority);
      if known.Err? {
        return Denied(known.error);
      }
      if known.value {
        return AlreadyCommitted(current);
      }
      if current.revision != expected {
        return Conflict(current.revision);
      }
      var outcome := ApplyCommand(current.effect, command, at, authority);
      if outcome.Failed? {
        return Denied(outcome.error);
      }
      if outcome.Duplicate? {
        return AlreadyCommitted(current);
      }
      var snapshot := Snapshot(id, current.tenant, current.revision + 1, outcome.effect);
      effects := effects[key := snapshot];
      return Committed(snapshot);
    }

    /** One keyset page; `None` for a request outside the documented bounds. */
    method ListAs(status: Option<string>, after: Option<string>, limit: nat, authority: Authority)
      returns (page: Option<Page>)
      requires Valid()
      ensures page.Some? <==>
        && ValidAuthority(authority) && 1 <= limit <= MAX_EFFECT_PAGE
        && (status.Some? ==> status.value in {"pending", "claimed", "unknown", "applied", "rejected", "cancelled"})
        && (after.Some? ==> ValidIdentity(after.value))
      ensures page.Some? ==> IsPage(effects, TenantKey(authority.tenant), status, after, limit, page.value)
    {
      if !ValidAuthority(authority) || !(1 <= limit <= MAX_EFFECT_PAGE)
         || (status.Some? && status.value !in {"pending", "claimed", "unknown", "applied", "rejected", "cancelled"})
         || (after.Some? && !ValidIdentity(after.value)) {
        return None;
      }
      var tenant := TenantKey(authority.tenant);
      var candidates, rest := Candidates(effects, tenant, status, after, limit + 1);
      var cut := PageFromCandidates(candidates, limit);
      PageIsComplete(effects, tenant, status, after, limit, candidates, rest, cut);
      return Some(cut);
    }
  }

  /** Of an ordered list, what is not among the first `n` comes after them. */
  lemma KeptOrLater(candidates: seq<Snapshot>, n: nat, id: string)
    requires n <= |candidates| && Ascending(Ids(candidates)) && id in Ids(candidates)
    ensures id in Ids(candidates[..n]) || forall i :: 0 <= i < n ==> Less(candidates[i].id, id)
  {
    hide Less;
    var k :| 0 <= k < |candidates| && Ids(candidates)[k] == id;
    if k < n {
      assert Ids(candidates[..n])[k] == id;
    } else {
      forall i | 0 <= i < n ensures Less(candidates[i].id, id) {
        assert Less(Ids(candidates)[i], Ids(candidates)[k]);
      }
    }
  }

  lemma NextIsNotKept(candidates: seq<Snapshot>, n: nat)
    requires n < |candidates| && Ascending(Ids(candidates))
    ensures candidates[n].id !in Ids(candidates[..n])
  {
    hide Less, Ascending;
    var ids := Ids(candidates[..n]);
    forall k | 0 <= k < n ensures ids[k] != candidates[n].id {
      if ids[k] == candidates[n].id { AscendingHasNoRepeats(Ids(candidates), k, n); }
    }
  }

  lemma LeadingIdsAscend(candidates: seq<Snapshot>, n: nat)
    requires n <= |candidates| && Ascending(Ids(candidates))
    ensures Ascending(Ids(candidates[..n]))
  {
    hide Less;
    assert Ids(candidates[..n]) == Ids(candidates)[..n];
  }

  lemma PageIsComplete(ledger: Ledger, tenant: string, status: Option<string>, after: Option<string>, limit: nat,
                       candidates: seq<Snapshot>, rest: set<string>, page: Page)
    requires 0 < limit && |candidates| <= limit + 1
    requires rest != {} ==> |candidates| == limit + 1
    requires Ascending(Ids(candidates))
    requires forall i :: 0 <= i < |candidates| ==>
      && Wanted(ledger, tenant, status, after, candidates[i].id)
      && candidates[i] == ledger[EffectKey(tenant, candidates[i].id)]
      && forall id :: id in rest ==> Less(candidates[i].id, id)
    requires forall id :: Wanted(ledger, tenant, status, after, id) ==> id in Ids(candidates) || id in rest
    requires page.effects == if |candidates| > limit then candidates[..limit] else candidates
    requires page.hasMore == (|candidates| > limit)
    requires page.nextCursor == if page.effects == [] then None else Some(page.effects[|page.effects| - 1].id)
    ensures IsPage(ledger, tenant, status, after, limit, page)
  {
    hide Less, Wanted, Ascending;
    var kept := page.effects;
    assert kept == candidates[..|kept|];
    LeadingIdsAscend(candidates, |kept|);
    forall id | Wanted(ledger, tenant, status, after, id)
      ensures id in Ids(kept) || forall i :: 0 <= i < |kept| ==> Less(kept[i].id, id)
    {
      if id in Ids(candidates) { KeptOrLater(candidates, |kept|, id); }
    }
    if page.hasMore {
      var id := candidates[limit].id;
      NextIsNotKept(candidates, limit);
      assert Wanted(ledger, tenant, status, after, id) && id !in Ids(kept);
    } else {
      assert rest == {};
    }
  }
}
