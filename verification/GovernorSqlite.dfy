/** The SQLite governor: rows instead of records, a settlement column beside an
    immutable document, counters kept by increments, and roll-back on error. It
    simulates the process-local governor call by call. */
module GovernorSqlite {
  import opened Support
  import opened GovernorLane
  import opened GovernorStore
  import opened GovernorRuns

  datatype LaneRow = LaneRow(digest: PolicyDigest, state: LaneState)

  /** `document` is written once; later settlements only fill the column. */
  datatype AdmissionRow = AdmissionRow(expiresAt: int, settlement: Option<string>, document: AdmissionRecord)

  datatype Database = Database(
    laneRows: map<LaneKey, LaneRow>,
    admissionRows: map<AdmissionKey, AdmissionRow>,
    laneCount: int,
    admissionCount: int)

  const EMPTY_DATABASE := Database(map[], map[], 0, 0)

  function SettlementName(settlement: Settlement): string {
    match settlement
    case Healthy => "healthy"
    case AvailabilityFailure => "availability_failure"
    case Abandoned => "abandoned"
  }

  function ParseSettlement(name: string): Option<Settlement> {
    if name == "healthy" then Some(Healthy)
    else if name == "availability_failure" then Some(AvailabilityFailure)
    else if name == "abandoned" then Some(Abandoned)
    else None
  }

  lemma NamesParseBack(settlement: Settlement)
    ensures ParseSettlement(SettlementName(settlement)) == Some(settlement)
  {
    assert |"healthy"| == 7 && |"abandoned"| == 9 && |"availability_failure"| == 20;
  }

  // -------------------------------------------------------------- load checks

  predicate LoadableLane(lane: LaneState) {
    && lane.lastObserved != 0
    && lane.epoch != 0
    && lane.failures <= MAX_FAILURE_THRESHOLD
    && (lane.probeId.Some? <==> lane.probeExpires.Some?)
    && lane.openUntil != Some(0)
    && lane.probeExpires != Some(0)
  }

  predicate LoadableRecord(record: AdmissionRecord) {
    && ValidOperation(record.operation)
    && ValidPolicy(record.policy)
    && record.digest == PolicyDigest(record.policy)
    && 0 < record.admittedAt < record.expiresAt
    && record.epoch != 0
    && (!record.decision.Admits() ==> record.admittedAt <= RetryAt(record.decision))
  }

  function LoadLane(db: Database, key: LaneKey): Result<Option<LaneState>, GovernorError> {
    if key !in db.laneRows then Ok(None)
    else
      var row := db.laneRows[key];
      if row.digest == row.state.digest && LoadableLane(row.state) then Ok(Some(row.state)) else Err(CorruptRow)
  }

  /** The settlement column overlays the document. */
  function LoadAdmission(db: Database, key: AdmissionKey): Result<Option<AdmissionRecord>, GovernorError> {
    if key !in db.admissionRows then Ok(None)
    else
      var row := db.admissionRows[key];
      if !LoadableRecord(row.document) then Err(CorruptRow)
      else if row.document.expiresAt > I64_MAX then Err(TimeExceedsSqlite)
      else if row.expiresAt != row.document.expiresAt then Err(CorruptRow)
      else if row.settlement.Some? && ParseSettlement(row.settlement.value).None? then Err(CorruptRow)
      else
        var column := if row.settlement.Some? then ParseSettlement(row.settlement.value) else None;
        if row.document.settlement.Some? && row.document.settlement != column then Err(CorruptRow)
        else Ok(Some(row.document.(settlement := column)))
  }

  // ------------------------------------------------------- in-place governor

  class SqliteGovernor {
    var db: Database

    constructor ()
      ensures db == EMPTY_DATABASE
    {
      db := EMPTY_DATABASE;
    }

    /** One immediate transaction; every early return rolls it back. */
    method AdmitAs(tenant: string, request: Admission) returns (response: Response)
      modifies this
      ensures (db, response) == SqlStep(old(db), Admit(tenant, request))
    {
      hide LoadAdmission, LoadLane, SameContent, SqlIssue, InitialLane;
      if !ValidRequest(request) {
        return Refused(InvalidRequest);
      }
      var tx := db;
      if request.at > I64_MAX {
        return Refused(TimeExceedsSqlite);
      }
      var kept := map key | key in tx.admissionRows && tx.admissionRows[key].expiresAt > request.at :: tx.admissionRows[key];
      var deleted := |tx.admissionRows| - |kept|;
      tx := tx.(admissionRows := kept);
      if deleted != 0 {
        tx := tx.(admissionCount := tx.admissionCount - deleted);
      }
      var key := AdmissionKey(tenant, request.id);
      var existing := LoadAdmission(tx, key);
      if existing.Err? {
        return Refused(existing.error);
      }
      if existing.value.Some? {
        if !SameContent(existing.value.value, request) {
          return Refused(BoundToDifferentContent);
        }
        db := tx;
        return Admitted(existing.value.value.decision);
      }
      if tx.admissionCount >= MAX_ADMISSIONS {
        return Refused(AdmissionCapacity);
      }
      var laneKey := KeyOf(tenant, request.operation, request.policy);
      var loaded := LoadLane(tx, laneKey);
      if loaded.Err? {
        return Refused(loaded.error);
      }
      if loaded.value.None? && tx.laneCount >= MAX_LANES {
        return Refused(LaneCapacity);
      }
      var lane := if loaded.value.Some? then loaded.value.value else InitialLane(request);
      response := Issue(tx, key, laneKey, lane, loaded.value.None?, request);
    }

    /** Decides on the loaded lane and writes both rows, or rolls back. */
    method Issue(before: Database, key: AdmissionKey, laneKey: LaneKey, loaded: LaneState, isNew: bool, request: Admission)
      returns (response: Response)
      requires ValidPolicy(request.policy)
      modifies this
      ensures (db, response) == SqlIssue(old(db), before, key, laneKey, loaded, isNew, request)
    {
      hide Decided, RecordFor;
      if loaded.digest != PolicyDigest(request.policy) {
        return Refused(PolicyRebound);
      }
      var lane, verdict := Decide(loaded, request);
      if verdict.Err? {
        return Refused(verdict.error);
      }
      var tx := before.(laneRows := before.laneRows[laneKey := LaneRow(lane.digest, lane)]);
      if isNew {
        tx := tx.(laneCount := tx.laneCount + 1);
      }
      var record := RecordFor(request, verdict.value.1, verdict.value.0);
      if record.Err? {
        return Refused(record.error);
      }
      if record.value.expiresAt > I64_MAX {
        return Refused(TimeExceedsSqlite);
      }
      tx := tx.(admissionRows := tx.admissionRows[key := AdmissionRow(record.value.expiresAt, None, record.value)]);
      tx := tx.(admissionCount := tx.admissionCount + 1);
      db := tx;
      return Admitted(verdict.value.0);
    }

    method SettleAs(tenant: string, id: string, settlement: Settlement, at: u64) returns (response: Response)
      modifies this
      ensures (db, response) == SqlStep(old(db), Settle(tenant, id, settlement, at))
    {
      if at == 0 {
        return Refused(InvalidRequest);
      }
      var key := AdmissionKey(tenant, id);
      var loaded := LoadAdmission(db, key);
      if loaded.Err? {
        return Refused(loaded.error);
      }
      if loaded.value.None? {
        return Refused(UnknownAdmission);
      }
      var record := loaded.value.value;
      var error := SettlementError(record, settlement, at);
      if error.Some? {
        return Refused(error.value);
      }
      if record.settlement.Some? {
        return Recorded;
      }
      var laneKey := LaneOf(key, record);
      var stored := LoadLane(db, laneKey);
      if stored.Err? {
        return Refused(stored.error);
      }
      if stored.value.None? {
        return Refused(MissingLane);
      }
      var lane, outcome := ApplySettlement(stored.value.value, id, record, settlement, at);
      if outcome.Err? {
        return Refused(outcome.error);
      }
      var tx := db;
      tx := tx.(laneRows := tx.laneRows[laneKey := LaneRow(lane.digest, lane)]);
      tx := tx.(admissionRows :=
        tx.admissionRows[key := tx.admissionRows[key].(settlement := Some(SettlementName(settlement)))]);
      db := tx;
      return Recorded;
    }
  }

  // ----------------------------------------------------------- specification

  function PrunedRows(db: Database, at: u64): Database {
    var kept := map key | key in db.admissionRows && db.admissionRows[key].expiresAt > at :: db.admissionRows[key];
    db.(admissionRows := kept, admissionCount := db.admissionCount - (|db.admissionRows| - |kept|))
  }

  function SqlAdmit(db: Database, tenant: string, request: Admission): (Database, Response) {
    if !ValidRequest(request) then (db, Refused(InvalidRequest))
    else if request.at > I64_MAX then (db, Refused(TimeExceedsSqlite))
    else
      var tx := PrunedRows(db, request.at);
      var key := AdmissionKey(tenant, request.id);
      var laneKey := KeyOf(tenant, request.operation, request.policy);
      match LoadAdmission(tx, key)
      case Err(error) => (db, Refused(error))
      case Ok(Some(existing)) =>
        if SameContent(existing, request) then (tx, Admitted(existing.decision))
        else (db, Refused(BoundToDifferentContent))
      case Ok(None) =>
        if tx.admissionCount >= MAX_ADMISSIONS then (db, Refused(AdmissionCapacity))
        else
          match LoadLane(tx, laneKey)
          case Err(error) => (db, Refused(error))
          case Ok(loaded) =>
            if loaded.None? && tx.laneCount >= MAX_LANES then (db, Refused(LaneCapacity))
            else SqlIssue(db, tx, key, laneKey, if loaded.Some? then loaded.value else InitialLane(request), loaded.None?, request)
  }

  function SqlIssue(db: Database, tx: Database, key: AdmissionKey, laneKey: LaneKey, lane: LaneState, isNew: bool,
                    request: Admission): (Database, Response)
    requires ValidPolicy(request.policy)
  {
    if lane.digest != PolicyDigest(request.policy) then (db, Refused(PolicyRebound))
    else
      var (next, verdict) := Decided(lane, request);
      match verdict
      case Err(error) => (db, Refused(error))
      case Ok((decision, epoch)) =>
        match RecordFor(request, epoch, decision)
        case Err(error) => (db, Refused(error))
        case Ok(record) =>
          if record.expiresAt > I64_MAX then (db, Refused(TimeExceedsSqlite))
          else (WithIssue(tx, key, laneKey, next, isNew, record), Admitted(decision))
  }

  /** A saved lane, an inserted admission, and the counters moved accordingly. */
  function WithIssue(tx: Database, key: AdmissionKey, laneKey: LaneKey, lane: LaneState, isNew: bool,
                     record: AdmissionRecord): Database
  {
    Database(tx.laneRows[laneKey := LaneRow(lane.digest, lane)],
             tx.admissionRows[key := AdmissionRow(record.expiresAt, None, record)],
             tx.laneCount + (if isNew then 1 else 0),
             tx.admissionCount + 1)
  }

  /** A saved lane and a filled settlement column. */
  function WithSettlement(db: Database, key: AdmissionKey, laneKey: LaneKey, lane: LaneState, settlement: Settlement)
    : Database
    requires key in db.admissionRows
  {
    var row := db.admissionRows[key].(settlement := Some(SettlementName(settlement)));
    db.(laneRows := db.laneRows[laneKey := LaneRow(lane.digest, lane)], admissionRows := db.admissionRows[key := row])
  }

  function SqlSettle(db: Database, tenant: string, id: string, settlement: Settlement, at: u64): (Database, Response) {
    var key := AdmissionKey(tenant, id);
    if at == 0 then (db, Refused(InvalidRequest))
    else
      match LoadAdmission(db, key)
      case Err(error) => (db, Refused(error))
      case Ok(None) => (db, Refused(UnknownAdmission))
      case Ok(Some(record)) =>
        var error := SettlementError(record, settlement, at);
        if error.Some? then (db, Refused(error.value))
        else if record.settlement.Some? then (db, Recorded)
        else
          match LoadLane(db, LaneOf(key, record))
          case Err(error) => (db, Refused(error))
          case Ok(None) => (db, Refused(MissingLane))
          case Ok(Some(lane)) =>
            var (next, outcome) := Settled(lane, id, record, settlement, at);
            match outcome
            case Err(error) => (db, Refused(error))
            case Ok(_) =>
              (WithSettlement(db, key, LaneOf(key, record), next, settlement), Recorded)
  }

  function SqlStep(db: Database, call: Call): (Database, Response) {
    match call
    case Admit(tenant, request) => SqlAdmit(db, tenant, request)
    case Settle(tenant, id, settlement, at) => SqlSettle(db, tenant, id, settlement, at)
  }

  // -------------------------------------------------------------- simulation

  function Overlaid(row: AdmissionRow): AdmissionRecord {
    row.document.(settlement := if row.settlement.Some? then ParseSettlement(row.settlement.value) else None)
  }

  /** The process-local store these rows stand for. */
  function View(db: Database): Store {
    Store(map k | k in db.laneRows :: db.laneRows[k].state,
          map key | key in db.admissionRows :: Overlaid(db.admissionRows[key]))
  }

  ghost predicate RowOk(row: AdmissionRow) {
    && row.expiresAt == row.document.expiresAt <= I64_MAX
    && row.document.settlement.None?
    && (row.settlement.Some? ==> ParseSettlement(row.settlement.value).Some?)
  }

  /** The counters are the row counts and every row agrees with itself. */
  ghost predicate Tidy(db: Database) {
    && db.laneCount == |db.laneRows|
    && db.admissionCount == |db.admissionRows|
    && (forall k :: k in db.laneRows ==> db.laneRows[k].digest == db.laneRows[k].state.digest)
    && (forall key :: key in db.admissionRows ==> RowOk(db.admissionRows[key]))
  }

  /** A tidy database whose rows describe a healthy store. */
  ghost predicate Intact(db: Database) {
    Tidy(db) && StoreOk(View(db))
  }

  /** A call that commits does what the process-local governor does; one that is
      refused changes nothing, and is refused there too or carries a time that
      does not fit a signed 64-bit column. */
  ghost predicate Simulates(db: Database, call: Call) {
    var (next, response) := SqlStep(db, call);
    var (store, expected) := Step(View(db), call);
    && (!response.Refused? ==> response == expected && View(next) == store && HasRoom(View(db), call))
    && (response.Refused? ==> next == db && (response == expected || response.error == TimeExceedsSqlite))
  }

  /** Whatever was written passes the load checks and loads as it was meant. */
  lemma WrittenRowsLoad(db: Database, key: AdmissionKey, k: LaneKey)
    requires Intact(db)
    ensures LoadLane(db, k) == Ok(if k in View(db).lanes then Some(View(db).lanes[k]) else None)
    ensures LoadAdmission(db, key) == Ok(if key in View(db).admissions then Some(View(db).admissions[key]) else None)
  {
    if key in db.admissionRows {
      assert RecordOk(View(db), key, View(db).admissions[key]);
    }
  }

  lemma MapSizes(db: Database)
    ensures |View(db).lanes| == |db.laneRows| && |View(db).admissions| == |db.admissionRows|
  {
    assert View(db).lanes.Keys == db.laneRows.Keys;
    assert View(db).admissions.Keys == db.admissionRows.Keys;
  }

  lemma PruneView(db: Database, at: u64)
    requires Tidy(db)
    ensures Tidy(PrunedRows(db, at))
    ensures View(PrunedRows(db, at)) == View(db).(admissions := Pruned(View(db).admissions, at))
  {
    var left, right := View(PrunedRows(db, at)).admissions, Pruned(View(db).admissions, at);
    forall key ensures key in left <==> key in right {
      if key in db.admissionRows { assert RowOk(db.admissionRows[key]); }
    }
    assert left == right;
  }

  lemma PruneSimulates(db: Database, at: u64)
    requires Intact(db)
    ensures Intact(PrunedRows(db, at))
    ensures View(PrunedRows(db, at)) == View(db).(admissions := Pruned(View(db).admissions, at))
  {
    PruneView(db, at);
    PruneKeepsCore(View(db), at);
  }

  lemma InsertSize<K, V>(m: map<K, V>, k: K, v: V)
    ensures |m[k := v]| == |m| + if k in m then 0 else 1
  {
    assert m[k := v].Keys == m.Keys + {k};
    assert |m[k := v]| == |m[k := v].Keys| && |m| == |m.Keys|;
  }

  lemma IssueView(tx: Database, key: AdmissionKey, k: LaneKey, lane: LaneState, record: AdmissionRecord)
    requires Tidy(tx) && key !in tx.admissionRows && record.settlement.None? && record.expiresAt <= I64_MAX
    ensures var next := WithIssue(tx, key, k, lane, k !in tx.laneRows, record);
      Tidy(next) && View(next) == Store(View(tx).lanes[k := lane], View(tx).admissions[key := record])
  {
    hide LoadableRecord, LoadableLane, ParseSettlement;
    var next := WithIssue(tx, key, k, lane, k !in tx.laneRows, record);
    assert View(next).lanes == View(tx).lanes[k := lane];
    assert View(next).admissions == View(tx).admissions[key := record];
    InsertSize(tx.laneRows, k, LaneRow(lane.digest, lane));
    InsertSize(tx.admissionRows, key, AdmissionRow(record.expiresAt, None, record));
  }

  lemma SettlementView(db: Database, key: AdmissionKey, k: LaneKey, lane: LaneState, settlement: Settlement)
    requires Tidy(db) && key in db.admissionRows && k in db.laneRows
    ensures var next := WithSettlement(db, key, k, lane, settlement);
      && Tidy(next)
      && View(next) == Store(View(db).lanes[k := lane],
                             View(db).admissions[key := View(db).admissions[key].(settlement := Some(settlement))])
  {
    NamesParseBack(settlement);
    var next := WithSettlement(db, key, k, lane, settlement);
    assert View(next).lanes == View(db).lanes[k := lane];
    assert View(next).admissions == View(db).admissions[key := View(db).admissions[key].(settlement := Some(settlement))];
    InsertSize(db.laneRows, k, LaneRow(lane.digest, lane));
    InsertSize(db.admissionRows, key, next.admissionRows[key]);
  }

  /** Issuing on the pruned rows is issuing on the pruned store. */
  lemma IssueSimulates(db: Database, tx: Database, s: Store, tenant: string, request: Admission)
    requires Tidy(tx) && ValidRequest(request) && View(tx) == s.(admissions := Pruned(s.admissions, request.at))
    requires AdmissionKey(tenant, request.id) !in tx.admissionRows
    requires |s.lanes| < MAX_LANES || KeyOf(tenant, request.operation, request.policy) in s.lanes
    requires |Pruned(s.admissions, request.at)| < MAX_ADMISSIONS
    ensures var k := KeyOf(tenant, request.operation, request.policy);
      var (next, response) := SqlIssue(db, tx, AdmissionKey(tenant, request.id), k, LaneFor(s.lanes, k, request),
                                       k !in tx.laneRows, request);
      var (store, expected) := AdmitStep(s, tenant, request);
      && (!response.Refused? ==> response == expected && View(next) == store && Tidy(next))
      && (response.Refused? ==> next == db && (response == expected || response.error == TimeExceedsSqlite))
  {
    var k := KeyOf(tenant, request.operation, request.policy);
    var lane := LaneFor(s.lanes, k, request);
    var (after, verdict) := Decided(lane, request);
    assert AdmissionKey(tenant, request.id) !in View(tx).admissions;
    hide Decided, View, Tidy, WithIssue, Pruned, ValidPolicy;
    if verdict.Ok? {
      var record := RecordFor(request, verdict.value.1, verdict.value.0);
      if record.Ok? && record.value.expiresAt <= I64_MAX {
        IssueView(tx, AdmissionKey(tenant, request.id), k, after, record.value);
      }
    }
  }

  /** With the load checks out of the way, an admission is one of four cases. */
  lemma AdmitCases(db: Database, tenant: string, request: Admission)
    requires Intact(db) && ValidRequest(request) && request.at <= I64_MAX
    ensures var tx := PrunedRows(db, request.at);
      var key, k := AdmissionKey(tenant, request.id), KeyOf(tenant, request.operation, request.policy);
      var kept, lanes := View(tx).admissions, View(tx).lanes;
      SqlAdmit(db, tenant, request) ==
        if key in kept then
          if SameContent(kept[key], request) then (tx, Admitted(kept[key].decision)) else (db, Refused(BoundToDifferentContent))
        else if |kept| >= MAX_ADMISSIONS then (db, Refused(AdmissionCapacity))
        else if k !in lanes && |lanes| >= MAX_LANES then (db, Refused(LaneCapacity))
        else SqlIssue(db, tx, key, k, LaneFor(lanes, k, request), k !in tx.laneRows, request)
  {
    var tx := PrunedRows(db, request.at);
    PruneSimulates(db, request.at);
    WrittenRowsLoad(tx, AdmissionKey(tenant, request.id), KeyOf(tenant, request.operation, request.policy));
    MapSizes(tx);
  }

  lemma AdmitSimulates(db: Database, tenant: string, request: Admission)
    requires Intact(db)
    ensures Simulates(db, Admit(tenant, request)) && Intact(SqlAdmit(db, tenant, request).0)
  {
    if ValidRequest(request) && request.at <= I64_MAX {
      AdmitCases(db, tenant, request);
      PruneSimulates(db, request.at);
      StepKeepsStoreIff(View(db), Admit(tenant, request));
      AdmissionsHaveRoom(View(db), Admit(tenant, request));
      var kept := Pruned(View(db).admissions, request.at);
      var k := KeyOf(tenant, request.operation, request.policy);
      if AdmissionKey(tenant, request.id) !in kept && |kept| < MAX_ADMISSIONS
         && (k in View(db).lanes || |View(db).lanes| < MAX_LANES) {
        IssueSimulates(db, PrunedRows(db, request.at), View(db), tenant, request);
      }
    }
  }

  lemma SettleSimulates(db: Database, tenant: string, id: string, settlement: Settlement, at: u64)
    requires Intact(db)
    ensures Simulates(db, Settle(tenant, id, settlement, at)) && Intact(SqlSettle(db, tenant, id, settlement, at).0)
  {
    var key := AdmissionKey(tenant, id);
    if key in View(db).admissions {
      SettleKnownSimulates(db, key, settlement, at);
    } else {
      WrittenRowsLoad(db, key, LaneKey(tenant, "", "", ""));
    }
  }

  /** With the load checks out of the way, a settlement of a known admission is
      one of three cases. */
  lemma SettleCases(db: Database, key: AdmissionKey, settlement: Settlement, at: u64)
    requires Intact(db) && key in View(db).admissions && 0 < at
    ensures var s, record := View(db), View(db).admissions[key];
      var k := LaneOf(key, record);
      && key in db.admissionRows && k in s.lanes && k in db.laneRows
      && SqlSettle(db, key.tenant, key.id, settlement, at) ==
        var error := SettlementError(record, settlement, at);
        if error.Some? then (db, Refused(error.value))
        else if record.settlement.Some? then (db, Recorded)
        else
          var (next, outcome) := Settled(s.lanes[k], key.id, record, settlement, at);
          if outcome.Err? then (db, Refused(outcome.error))
          else (WithSettlement(db, key, k, next, settlement), Recorded)
  {
    hide LoadAdmission, LoadLane, WithSettlement;
    assert AdmissionKey(key.tenant, key.id) == key;
    var s, record := View(db), View(db).admissions[key];
    var k := LaneOf(key, record);
    assert key in db.admissionRows && (k in s.lanes <==> k in db.laneRows);
    WrittenRowsLoad(db, key, k);
    RecordFitsLane(s, key);
  }

  lemma SettleKnownSimulates(db: Database, key: AdmissionKey, settlement: Settlement, at: u64)
    requires Intact(db) && key in View(db).admissions
    ensures Simulates(db, Settle(key.tenant, key.id, settlement, at))
    ensures Intact(SqlSettle(db, key.tenant, key.id, settlement, at).0)
  {
    assert AdmissionKey(key.tenant, key.id) == key;
    var s, record := View(db), View(db).admissions[key];
    var k := LaneOf(key, record);
    if 0 < at {
      SettleCases(db, key, settlement, at);
      hide SqlSettle, View, Settled, WithSettlement, LaneCore, RecordFits, Tidy, StoreCore, CircuitsOk, CircuitOk;
      RecordFitsLane(s, key);
      if SettlesUnsettled(s, Settle(key.tenant, key.id, settlement, at)) {
        SettleKeepsCircuitIff(s.lanes[k], key.id, record, settlement, at);
        if !TripsWithoutRoom(s.lanes[k], key.id, record, settlement, at) {
          StepKeepsStoreIff(s, Settle(key.tenant, key.id, settlement, at));
          SettlementView(db, key, k, Settled(s.lanes[k], key.id, record, settlement, at).0, settlement);
        }
      }
    }
  }

  lemma RecordFitsLane(s: Store, key: AdmissionKey)
    requires StoreOk(s) && key in s.admissions
    ensures var k := LaneOf(key, s.admissions[key]);
      k in s.lanes && LaneOk(s.lanes[k]) && RecordFits(s.lanes[k], s.admissions[key])
    ensures s.admissions[key].settlement.Some? ==> s.admissions[key].decision.Admits()
  {
    assert RecordOk(s, key, s.admissions[key]);
  }

  lemma SqlStepSimulates(db: Database, call: Call)
    requires Intact(db)
    ensures Simulates(db, call) && Intact(SqlStep(db, call).0)
  {
    match call
    case Admit(tenant, request) => AdmitSimulates(db, tenant, request);
    case Settle(tenant, id, settlement, at) => SettleSimulates(db, tenant, id, settlement, at);
  }

  // -------------------------------------------------------------- whole runs

  function SqlRun(db: Database, calls: seq<Call>): Database
    decreases |calls|
  {
    if calls == [] then db else SqlRun(SqlStep(db, calls[0]).0, calls[1..])
  }

  /** The calls of a run that committed. */
  function Committed(db: Database, calls: seq<Call>): seq<Call>
    decreases |calls|
  {
    if calls == [] then []
    else
      var rest := Committed(SqlStep(db, calls[0]).0, calls[1..]);
      if SqlStep(db, calls[0]).1.Refused? then rest else [calls[0]] + rest
  }

  /** Any SQLite run is the process-local run of its committed calls, and that
      run never trips without room, so that everything proved of process-local
      runs holds of every SQLite run without a condition. */
  lemma {:induction false} SqlRunIsMemoryRun(db: Database, calls: seq<Call>)
    requires Intact(db)
    ensures Intact(SqlRun(db, calls))
    ensures Clean(View(db), Committed(db, calls))
    ensures View(SqlRun(db, calls)) == Run(History(View(db), []), Committed(db, calls)).store
    decreases |calls|
  {
    if calls != [] {
      var (next, response) := SqlStep(db, calls[0]);
      SqlStepSimulates(db, calls[0]);
      SqlRunIsMemoryRun(next, calls[1..]);
      if !response.Refused? {
        var committed := Committed(db, calls);
        assert committed[0] == calls[0] && committed[1..] == Committed(next, calls[1..]);
        RunIgnoresLog(Next(History(View(db), []), calls[0]), History(View(next), []), committed[1..]);
      }
    }
  }

  lemma IntactRowsLoad(db: Database)
    requires Intact(db)
    ensures forall k :: LoadLane(db, k).Ok?
    ensures forall key :: LoadAdmission(db, key).Ok?
  {
    forall k ensures LoadLane(db, k).Ok? {
      WrittenRowsLoad(db, AdmissionKey("", ""), k);
    }
    forall key ensures LoadAdmission(db, key).Ok? {
      WrittenRowsLoad(db, key, LaneKey("", "", "", ""));
    }
  }

  /** From an empty database: counters equal row counts, every row loads, and the
      rows are those of a reachable process-local governor. */
  lemma EveryDatabaseIsIntact(start: Database, calls: seq<Call>, db: Database, h: History)
    requires start == EMPTY_DATABASE
    requires db == SqlRun(start, calls) && h == Run(EMPTY, Committed(start, calls))
    ensures db.laneCount == |db.laneRows| && db.admissionCount == |db.admissionRows|
    ensures forall k :: LoadLane(db, k).Ok?
    ensures forall key :: LoadAdmission(db, key).Ok?
    ensures Reachable(h) && View(db) == h.store && StoreOk(h.store)
  {
    assert View(start) == EMPTY.store;
    SqlRunIsMemoryRun(start, calls);
    IntactRowsLoad(db);
  }
}
