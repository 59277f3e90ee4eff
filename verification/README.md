# Durable effects, evidence logs and bounded selection: a verified model

The harness lets an agent runtime touch the outside world without losing track of
what it did. This project models the parts where that promise is hardest to keep
and proves it in Dafny, for every input, every interleaving or every reachable
state.

**Durable effects.** An Effect is an intent with an immutable transition history.
Its lifecycle is written twice in the program, once for live commands and once for
replay; `Effects` proves that the two are one lifecycle. `Coordinator` is the
compare-and-swap ledger of such aggregates, and `Pages` the keyset sweeps over it.
`Executor` lets any number of workers race on one ledger beside clients that may
send any command at any time: each worker is a program counter that claims, may
withhold, enters the Connector, hears an answer (or an error, a panic, a timeout, a
cancellation) and settles. `ExecutorPool` is the bounded pool of one sweep, and
`GovernedExecutor` puts executors and governor together.

**Dispatch governor.** `GovernorLane` holds the two transitions of a lane (fixed
window, circuit breaker with epochs, single leased probe), `GovernorStore` the
process-local store around them, `GovernorRuns` what holds over whole runs, and
`GovernorSqlite` the second store, which keeps rows, a settlement column and
incremental counters and is proved to simulate the first.

**Evidence logs.** Two independently written readers judge the same append-only
item log (`Items`). `Completion` is a one-pass automaton over two maps, proved equal
to a declarative language of three words; `Compensation` is a set of index searches,
proved to agree with it and to protect providers over every append-only history.
`Receipts` pins a completed Turn to its log through digests of canonical JSON, and
`Canonical` shows that this form is the same for two values exactly when they are
equal up to the order of object members.

**Bounded selection.** `Selection` and `Handoff` pick whole Turns under turn, token
and byte budgets; `JsonShape` checks trees with an explicit stack and bounds
writers; `ApprovalInbox` fills a bounded page by binary-search insertion.

The model follows the program's form: loops are methods with invariants, objects
with mutable state are classes (`MemoryGovernor`, `SqliteGovernor`,
`MemoryCoordinator`, `BoundedVecWriter`), each proved against a specification
function or predicate about which the theorems are stated.

Conventions, stated once. SHA-256 digests are represented by what they hash, that is,
as collision-free functions with separate domains; lease identities derived from such
digests are never derived for two different observations. Integers are unbounded and every
`u64` or `usize` bound where the program can overflow is written out. Identities are
compared character by character. Clocks, the completion order of workers, panics,
token counters and encoders are inputs or arbitrary choices.

Where the program does not do what one might expect:

- The process-local governor updates a lane field by field, so a settlement that must
  open a circuit but finds the epoch or the deadline out of the 64-bit range reports an
  error and leaves the failure counter at its threshold with the circuit closed. Two
  calls on an empty store get there (`GovernorStore.FailureAtTheEndOfTime`). Circuits are
  open exactly at the threshold along a run if and only if none of its calls is the
  evidence of a normal admission in that branch (`GovernorStore.StepKeepsStoreIff`,
  `GovernorStore.CleanIffHealthy`); a probe in the same position does no damage. Quotas,
  probe leases, open circuits, late evidence and replays do not depend on that and are
  proved for every run. The SQLite store rolls the call back and needs no condition
  (`GovernorSqlite.EveryDatabaseIsIntact`).
- A decision whose record would outlive the 64-bit clock uses up its window slot or probe
  lease before the call fails, and nothing is recorded. The slots of a lane are
  the dispatches issued for every request whose retention ends in range
  (`GovernorRuns.QuotaIsGranted`). Likewise a closed lane that can never open
  again, for want of epochs or time, no longer counts failures in a row
  (`GovernorRuns.FailuresAreInARow`).
- A lane denied with an open circuit admits a probe at its retry time unless the probe
  lease itself would end beyond the 64-bit range (`GovernorLane.RetryTimesAreExact`).
- The compactor's input budget may be configured below the two bytes of an empty JSON
  array, while the handoff's may not; selection is proved for both.

Run `dafny verify dfyconfig.toml` to check the whole project.

## Model

| member | source | states |
|---|---|---|
| GovernorLane.Decide | src/effect/governor.rs:510-573 | the field-by-field decision yields exactly the successor lane and verdict of the phase-by-phase specification, including a lane touched before an error |
| GovernorLane.ApplySettlement | src/effect/governor.rs:575-641 | the in-place settlement yields exactly the specified successor, including partial updates on overflow |
| GovernorLane.WindowStart | src/effect/governor.rs:808-810 | the multiple of the window that starts the window an instant lies in |
| GovernorLane.WindowsPartition | src/effect/governor.rs:808-810 | a later instant lies in the same window or in one that starts after this one ends |
| GovernorLane.InitialLaneOk | src/effect/governor.rs:643-656 | a fresh lane satisfies the lane invariant |
| GovernorLane.DecideKeepsLane | src/effect/governor.rs:510-573 | every decision, even a failing one, keeps the lane (probe fields paired, only on an open circuit and within their lease, quota respected), leaves circuit and epoch alone and keeps the fit of every issued record |
| GovernorLane.SettleKeepsLane | src/effect/governor.rs:575-641 | every settlement, even a failing one, keeps the lane and the fit of every record; epoch and clock only grow |
| GovernorLane.SettleKeepsCircuitIff | src/effect/governor.rs:575-641 | a settlement succeeds exactly when it need not trip without room, and the circuit stays open exactly at the threshold if and only if it is not a normal admission that trips without room |
| GovernorLane.RetryTimesAreExact | src/effect/governor.rs:510-573 | a denial changes only the observed clock, its retry time lies ahead, the same denial is given at every earlier instant, and at the retry time the lane admits |
| GovernorLane.ClosedLaneDecides | src/effect/governor.rs:554-573 | a closed lane allows a request if and only if fewer slots of its window are used than the quota, and then takes one; once the quota is used up it answers rate-limited until the end of the window, or fails exactly when that end is out of range |
| GovernorLane.OpenLaneDecides | src/effect/governor.rs:519-552 | an open lane grants a probe if and only if its deadline has passed, no probe holds its lease and the new lease ends in range, records the new lease, and otherwise refuses with the deadline or with the end of that lease |
| GovernorLane.NormalEvidenceDecides | src/effect/governor.rs:616-641 | counted evidence of a normal admission: a healthy result sets the failure count to zero, an abandoned one leaves it, a failure adds one, and the circuit opens if and only if that reaches the threshold |
| GovernorLane.ProbeEvidenceDecides | src/effect/governor.rs:586-615 | evidence of the probe that holds the lease ends the lease and closes the circuit, opens it anew in the next generation, or leaves it, according to the result |
| GovernorLane.FailedEvidenceDecides | src/effect/governor.rs:596-641 | when evidence that should open the circuit fails, and what it leaves behind: the failure counted, nothing opened, the generation moved on if there is a next one |
| GovernorLane.StaleEvidenceDecides | src/effect/governor.rs:582-590 | evidence of another generation, or of a probe that does not hold the lease, changes nothing |
| GovernorStore.MemoryGovernor.AdmitAs | src/effect/governor.rs:249-284 | the call moves both maps as the store step says and keeps the store, with healthy circuits healthy |
| GovernorStore.MemoryGovernor.AdmitLocked | src/effect/governor.rs:256-284 | pruning, duplicate check, capacities and decision in the program's order, keeping pruning and lane changes on errors |
| GovernorStore.MemoryGovernor.SettleAs | src/effect/governor.rs:286-320 | the settlement call moves both maps as the store step says; circuits stay healthy if and only if it has room |
| GovernorStore.StepKeepsCore | src/effect/governor.rs:248-320 | every call, whatever comes of it, keeps every lane's invariant and the fit of every retained admission |
| GovernorStore.StepKeepsStoreIff | src/effect/governor.rs:248-320 | from a store whose circuits are open exactly at the threshold, a call leads to such a store if and only if it has room |
| GovernorStore.CleanIffHealthy | src/effect/governor.rs:248-320 | a run passes only through such stores if and only if all its calls have room |
| GovernorStore.FailureAtTheEndOfTime | src/effect/governor.rs:619-641 | on an empty store, any first admission with threshold one followed by an availability failure at the last instant leaves the counter at the threshold and the circuit closed |
| GovernorStore.DecisionIsRecordable | src/effect/governor.rs:657-675 | a successful decision gives an admission record that fits the decided lane |
| GovernorStore.PruneKeepsCore | src/effect/governor.rs:829-833 | dropping expired admissions keeps the store invariant |
| GovernorRuns.RunKeepsHistory | src/effect/governor.rs:248-320 | over any run of any calls, lanes, admissions and the log of decisions and settlements stay consistent with one another |
| GovernorRuns.ReachableLanes | src/effect/governor.rs:510-641 | in every state any run reaches, no normal admission carries the epoch of an open circuit, and a late settlement of one changes no lane |
| GovernorRuns.CleanRunsKeepCircuits | src/effect/governor.rs:510-641 | along every run whose calls have room, a circuit is open exactly when its counter stands at the threshold, and the counter never passes it |
| GovernorRuns.LateEvidenceIsInert | src/effect/governor.rs:582-584 | settling a normal admission against an open circuit leaves every lane as it was |
| GovernorRuns.DispatchQuota | src/effect/governor.rs:510-573 | over any run at all each fixed window of a lane returns at most its quota of fresh Allow decisions, and any span as long as a window at most twice that |
| GovernorRuns.SpanTouchesTwoWindows | src/effect/governor.rs:808-810 | the dispatches of any span as long as a window fall into two adjacent windows |
| GovernorRuns.ProbesNeverOverlap | src/effect/governor.rs:519-552 | over any run at all two probes granted on one lane are separated by an effective settlement of the first or by its full lease |
| GovernorRuns.LaterIssuesAreLater | src/effect/governor.rs:510-517 | what is issued later on a lane carries a time not before the lane's clock |
| GovernorRuns.OpenCircuitHolds | src/effect/governor.rs:519-552 | while a circuit is open, every admission issued before its deadline, in any run of calls, is refused with that deadline |
| GovernorRuns.TripDeadline | src/effect/governor.rs:588-641 | a change of epoch opens the circuit for exactly the open duration from the effective time |
| GovernorRuns.TrippedCircuitDenies | src/effect/governor.rs:519-641 | after a settlement opened a circuit at effective time t, everything issued on the lane before t plus the open duration is CircuitOpen, whatever arrives in between |
| GovernorRuns.SupersededProbeIsInert | src/effect/governor.rs:582-615 | once a probe is superseded it stays so over every run, and its settlement changes no lane |
| GovernorRuns.RecordPersists | src/effect/governor.rs:248-320 | while it is retained, an admission record changes only by gaining its one settlement |
| GovernorRuns.SettlementIsFinal | src/effect/governor.rs:286-320 | after any run that keeps the record a settlement is still the recorded one; settling again changes nothing and is accepted if and only if it says the same |
| GovernorRuns.AdmissionReplay | src/effect/governor.rs:677-690 | repeating an admission after any run of calls returns the decision first recorded |
| GovernorRuns.QuotaIsGranted | src/effect/governor.rs:510-573 | after any run, a new request on a closed lane is allowed if and only if fewer than the quota of dispatches were issued in its window over that whole run, and told to return when the window ends if and only if all of them were |
| GovernorRuns.FirstRequestIsAllowed | src/effect/governor.rs:256-284 | the first request of a lane is allowed |
| GovernorRuns.ProbeIsGranted | src/effect/governor.rs:519-552 | a new request on an open lane is granted a probe if and only if the open duration is over and no probe holds its lease, and is otherwise refused with the exact time |
| GovernorRuns.FailuresAreInARow | src/effect/governor.rs:575-641 | after any run, the failure counter of a lane that is open or can still open is the number of counted failures since the last counted healthy result or the creation of the lane, and the circuit is open exactly at the threshold |
| GovernorRuns.CircuitOpensAtThreshold | src/effect/governor.rs:616-641 | after any run, a counted settlement of a normal admission opens the circuit if and only if it is the failure that completes a row of the threshold's length |
| GovernorRuns.NewAdmissionCounts | src/effect/governor.rs:657-675 | a new admission is on record with its decision, its time and the generation of its lane, so that its evidence counts |
| GovernorRuns.RecordsLastUntilExpiry | src/effect/governor.rs:829-833 | an admission stays on record exactly as long as no valid request reaches its expiry |
| GovernorRuns.SettlementsAreAnswered | src/effect/governor.rs:692-726 | a settlement is accepted if and only if its admission is on record and admitted something, its time is not before the admission, and it repeats the recorded settlement or is the first and its lane can take it |
| GovernorRuns.RepeatedRequestsAreAnswered | src/effect/governor.rs:677-690 | a repeated lease identity is answered with the recorded decision if and only if operation and policy are the same and refused otherwise, and no lane moves |
| GovernorRuns.RefusalsAreAnswered | src/effect/governor.rs:256-284 | which refusal a new request meets when admissions or lanes are full, the policy identity is bound to other content or the clock is behind the lane, and that no lane moves then |
| GovernorSqlite.SqliteGovernor.AdmitAs | src/effect/governor.rs:359-421 | the transaction commits or rolls back exactly as the row-level step says |
| GovernorSqlite.SqliteGovernor.Issue | src/effect/governor.rs:386-421 | deciding on the loaded lane writes the lane, the admission and both counters, or nothing |
| GovernorSqlite.SqliteGovernor.SettleAs | src/effect/governor.rs:423-473 | the settlement transaction fills the column and saves the lane, or leaves everything as it was |
| GovernorSqlite.NamesParseBack | src/effect/governor.rs:1240-1255 | every settlement name is parsed back to its settlement |
| GovernorSqlite.WrittenRowsLoad | src/effect/governor.rs:1087-1196 | in a healthy database every load succeeds and returns what the process-local store would hold |
| GovernorSqlite.PruneSimulates | src/effect/governor.rs:1035-1051 | deleting expired rows and lowering the counter is pruning the map |
| GovernorSqlite.SqlStepSimulates | src/effect/governor.rs:359-473 | from related states a call that succeeds gives the same decision and related states, a refusal leaves the database alone, and the database stays healthy |
| GovernorSqlite.SqlRunIsMemoryRun | src/effect/governor.rs:359-473 | a whole run of the database is a run of the process-local store on the calls that committed |
| GovernorSqlite.EveryDatabaseIsIntact | src/effect/governor.rs:1035-1225 | after any calls at all, both counters equal the row counts, every row passes its own load checks and every lane its invariant |
| Effects.ReadHistory | src/effect/mod.rs:826-960 | the one-pass reader accepts exactly the histories whose transitions are sound and replay without a break, and returns the replayed projection |
| Effects.Validate | src/effect/mod.rs:826-907 | validation accepts exactly the aggregates whose history replays to them |
| Effects.LiveStepReplays | src/effect/mod.rs:615-824 | one live step equals one replay step and its transition gives back its command; what that step is, is stated by `Effects.LifecycleIsExact` |
| Effects.LifecycleIsExact | src/effect/mod.rs:615-824 | a command leads from one status to another if and only if the lifecycle table, written per command without naming the code's branches, has that entry: exact leases for claim and renewal, and after "not applied" either pending at the next attempt and exactly the retry time or rejected |
| Effects.CommandCommitsIff | src/effect/mod.rs:569-613 | a command on a valid aggregate commits a status if and only if its identity is new, its time in order, the history has room and the table leads there |
| Effects.RecognizedIff | src/effect/mod.rs:541-567 | a command is recognised if and only if the history holds a transition with its identity, actor, tenant and content; it is unknown if and only if no transition has its identity, and refused as reused otherwise |
| Effects.AttemptsCountClaims | src/effect/mod.rs:962-1119 | over every history that replays, the attempt number is the number of claims |
| Effects.PendingSince | src/effect/mod.rs:962-1119 | a pending Effect waits for exactly the time given by its creation or by the "not applied" that came last |
| Effects.ClaimsAwaitTheirTime | src/effect/mod.rs:962-1119 | no claim of a history is applied before the creation's start time or the retry time that directly precedes it, and its attempt is the number of claims before it plus one |
| Effects.LiveLifecycleReplays | src/effect/mod.rs:569-613 | a fresh command on a valid aggregate yields a valid one with exactly one more transition; the final validation never refuses it |
| Effects.ReplayedStepIsLive | src/effect/mod.rs:962-1119 | conversely, whatever one replay step accepts is what the live lifecycle would have done, with the same status and transition |
| Effects.ValidIsCreated | src/effect/mod.rs:826-960 | every valid aggregate began as the creation its first transition records |
| Effects.ValidIsLive | src/effect/mod.rs:826-960 | validation accepts nothing but histories of live commands: every later transition of a valid aggregate is what its command does to the aggregate before it |
| Effects.NewEffectIsValid | src/effect/mod.rs:423-466 | a new aggregate is valid with one transition |
| Effects.PendingAgain | src/effect/mod.rs:962-1119 | once claimed, an Effect is pending again only right after an authoritative "not applied" with a retry time |
| Effects.ClaimsAreSeparated | src/effect/mod.rs:962-1119 | two claims of one history have such a transition right before the second and different lease identities |
| Effects.TerminalIsFinal | src/effect/mod.rs:615-824 | no command moves a terminal Effect |
| Coordinator.ApplyKeepsLedger | src/effect/coordinator.rs:397-446 | a command leaves the ledger alone or adds exactly one revision with the transition of that command to the expected revision; stored aggregates stay valid |
| Coordinator.CommandsAreAnswered | src/effect/coordinator.rs:397-446 | the answer to every well-formed command, each case if and only if: missing, already committed (the history holds this very command), conflict (new, but the revision moved), committed (new, expected revision, allowed by the lifecycle table, whose status becomes current) |
| Coordinator.CreateKeepsStore | src/effect/coordinator.rs:275-324 | creation commits exactly when the request is well formed and neither its identity nor its coordinate is taken; a repetition returns the Effect it created; ledger and index stay in step, and refusals change nothing |
| Coordinator.CreatedByIff | src/effect/coordinator.rs:275-324 | a creation repeats a stored one if and only if the history of the Effect begins with exactly this request by the same actor and tenant |
| Coordinator.OneEffectPerCoordinate | src/effect/coordinator.rs:275-324 | two stored Effects with equal tenant, operation and idempotency key are the same Effect |
| Coordinator.ApplyKeepsIndex | src/effect/coordinator.rs:397-446 | no command moves an Effect to another coordinate |
| Coordinator.MemoryCoordinator.CreateAs | src/effect/coordinator.rs:275-324 | the method moves both maps as the creation step says and keeps them in step |
| Coordinator.MemoryCoordinator.ApplyAs | src/effect/coordinator.rs:397-446 | the method moves the map as the ledger step says and keeps the ledger valid |
| Coordinator.MemoryCoordinator.ListAs | src/effect/coordinator.rs:344-370 | the page is the leading run of matching Effects after the cursor, cut only when more follow |
| Coordinator.NamesTellStatuses | src/effect/coordinator.rs:1203-1212 | the name a listing filters by tells the six statuses apart |
| Coordinator.Candidates | src/effect/coordinator.rs:344-370 | the in-order filtered walk yields the least matching Effects and nothing before them is missed |
| Pages.ValidateEffectPage | src/effect/page.rs:28-75 | the loop with its remembered identity accepts exactly the pages that are bounded, ordered, beyond the cursor, valid, in tenant and in state |
| Pages.ListedPagesAreAccepted | src/effect/page.rs:28-75 | every page the ledger lists passes the consumer's check |
| Pages.SweepIsExact | src/effect/coordinator.rs:344-370 | a sweep that follows cursors to the end returns every Effect that matches throughout exactly once, in order, whatever happens to other Effects between pages |
| Executor.StepKeepsWorld | src/effect/executor.rs:811-1195 | every atomic step of any worker or client keeps the protocol invariant |
| Executor.CommittedClaimIsHeld | src/effect/executor.rs:887-937 | a claim that commits freshly always holds the lease it asked for at the attempt it observed, so the defensive re-check never fails |
| Executor.SettlementIsJustified | src/effect/executor.rs:1235-1304 | the settlement command is exactly what the worker's dealings demand: a valid "applied" with its receipt, a valid "not applied" with its reason and the settlement time plus its delay, an "unknown" with its reason; anything malformed, an error, a timeout and a cancellation become unknown with their own reasons; a withheld dispatch becomes "not applied" with its reason and a retry time not before the settlement |
| Executor.EnteredAtMostOnce | src/effect/executor.rs:887-937 | over any interleaving the Connector is entered at most once per Effect revision, and only by the worker whose claim wrote that revision |
| Executor.NoBlindRetry | src/effect/executor.rs:939-1165 | over any interleaving a worker writes only its claim and one settlement on the revision that claim produced, and that settlement is exactly what its dealings demand; hence it returns the Effect to pending only if it never entered the Connector or was given a valid "not applied" with a delay |
| Executor.BetweenEntries | src/effect/executor.rs:939-1165 | between two entries for one Effect lies an explicit return to pending by a client or a justified worker, and the entries carry different lease identities |
| Executor.CommittedSettlementIsReported | src/effect/executor.rs:1651-1692 | a settlement that commits is reported as the status that became durable |
| Executor.SettlementCommits | src/effect/executor.rs:1235-1341 | while the claim is the latest revision and the lease has not run out, a settlement commits and the ledger then holds exactly what the dealings demand: no valid answer is lost |
| Executor.ClaimsAreReported | src/effect/executor.rs:887-937 | a claim attempt ends as held, fenced with the actual revision, already committed or failed, each exactly when the ledger answered so |
| Executor.OnlyDueEffectsArePrepared | src/effect/executor.rs:695-717 | a worker is prepared only for an Effect that is pending and due, and observes its current revision and attempt |
| Executor.DueEffectCanBeEntered | src/effect/executor.rs:811-937 | from any world that satisfies the protocol invariant a new worker can take any due, claimable Effect through its claim into the Connector |
| GovernedExecutor.ConnectorQuota | src/effect/executor.rs:953-1042 | over any interleaving of governed executors, clients and users of the governor, Connector entries admitted on one lane in one fixed window are at most the lane's quota plus the probes issued there |
| GovernedExecutor.EntriesAreGoverned | src/effect/executor.rs:953-1042 | every Connector entry was admitted by the governor under the worker's own lease |
| GovernedExecutor.AdmittedWorkerEnters | src/effect/executor.rs:953-1098 | a worker that holds its claim and is admitted can enter the Connector |
| GovernedExecutor.DueEffectCanBeDispatched | src/effect/executor.rs:811-1098 | from any governed state in which the governor would admit the lease, a new worker can take any due Effect through claim and admission into the Connector |
| GovernedExecutor.PermitsAreUsedOnce | src/effect/executor.rs:1554-1574 | no two Connector entries use one issued admission |
| GovernedExecutor.StepKeepsLogged | src/effect/governor.rs:248-320 | every admission on record is the latest one issued for its lease |
| GovernedExecutor.AnswerIsRecorded | src/effect/governor.rs:249-284 | an answer is on record, with its decision, on the lane that was asked for |
| ExecutorPool.RunOnce | src/effect/executor.rs:718-776 | the sweep reports exactly one attempt per eligible Effect in source order, each with its Effect's identity, revision and attempt and with what its worker reported; the states it went through start with the full queue, differ by one started or ended worker, never hold more workers than allowed and end drained |
| ExecutorPool.EveryOrderIsBounded | src/effect/executor.rs:718-776 | in whatever order workers end, by returning or panicking, the pool never exceeds its limit, always has a worker left until every Effect is collected, and then reports one attempt per Effect in source order |
| ExecutorPool.Prepare | src/effect/executor.rs:695-717 | the eligible Effects are those due at the scan time, in order |
| ExecutorPool.SpawnKeepsPool | src/effect/executor.rs:778-809 | starting the head of the queue keeps every Effect queued, running or collected exactly once |
| ExecutorPool.JoinKeepsPool | src/effect/executor.rs:740-754 | collecting a finished or panicked worker keeps that, with its result or its fallback |
| ExecutorPool.SortedIsSourceOrder | src/effect/executor.rs:765-766 | sorting by index puts every attempt at its source position |
| ExecutorPool.EligibleIsTheDuePart | src/effect/executor.rs:695-717 | the eligible Effects are all the due ones and only those, in the order they were listed |
| Completion.ReadItem | src/completion.rs:864-1005 | each item updates its own call as that call's automaton does, and is refused exactly when the automaton breaks or an approval identity repeats |
| Completion.CheckCall | src/completion.rs:1006-1041 | after the first pass only a missing result can be found |
| Completion.TrackReads | src/completion.rs:845-1043 | a call that reached its result has lived one of the three words |
| Completion.WordTracks | src/completion.rs:845-1043 | each of the three words drives the automaton to a result |
| Completion.ValidateSettledToolsAndApprovals | src/completion.rs:845-1043 | the validator accepts a log if and only if every call's items form one of the three words and approval identities are globally distinct; a rejection comes from the first pass or is a missing result |
| Receipts.ReadVerifiers | src/completion.rs:736-768 | the loop accepts exactly the strictly ordered, attributed, passing results for the candidate and returns their bindings |
| Receipts.CanonicalJsonSha256 | src/completion.rs:1090-1121 | what is hashed is the canonical form, exactly when value and form are within the byte, node and depth limits |
| Receipts.EqualDigestsMeanEquivalent | src/completion.rs:1090-1136 | equal digests mean equal values up to the order of object members |
| Receipts.DeriveTurnEvidence | src/completion.rs:697-790 | evidence exists exactly when the candidate is attributed, only ordered passing verifier results follow and all three parts can be hashed; it covers the whole log |
| Receipts.EvidenceIsAboutTheLog | src/completion.rs:697-790 | the evidence is about the first item of the candidate identity: it hashes that item, the log up to it and everything after it, binds name, origin and binding digest of every verifier result after it in order, and names the model request the item carries |
| Receipts.ValidateExecutionAssurance | src/completion.rs:792-827 | the generation's assurance agrees with the one binding item of the log, or with there being none |
| Receipts.ValidateReceiptAgainstItems | src/completion.rs:592-691 | accepts exactly the receipts that are well shaped and attest this Turn |
| Receipts.ValidateTurnCompletionReceipt | src/completion.rs:539-550 | accepts exactly the receipts valid for a running Turn |
| Receipts.ValidateProjectedTurnCompletionReceipt | src/completion.rs:553-584 | accepts exactly the receipts valid for a completed Turn, in place or inherited |
| Receipts.BuildCompletionReceipt | src/completion.rs:511-536 | builds the one valid receipt for these coordinates and fails only when there is none |
| Receipts.ReceiptSurvivesCompletion | src/completion.rs:539-584 | a receipt valid on the running Turn is valid once it is completed and, as inherited, under any thread; directly only under its own |
| Receipts.ReceiptPinsTurn | src/completion.rs:592-645 | two Turns attested by one receipt have the same identity and tenant, and logs that are equal item by item up to the order of JSON members, hence identical when the encoding is faithful |
| Canonical.CanonicalFormDecides | src/completion.rs:1123-1136 | two values have the same canonical form if and only if they are equal up to the order of object members |
| Canonical.CanonicalIsStable | src/completion.rs:1123-1136 | a canonical form is well formed and its own canonical form |
| Canonical.CanonicalIsEquivalent | src/completion.rs:1123-1136 | a canonical form is equivalent to the value it was made from |
| Canonical.SortIsOrdered | src/completion.rs:1131-1132 | sorting members with distinct keys orders them strictly |
| Compensation.UniqueToolCall | src/execution/compensation.rs:476-503 | finds the one call item of an identity; fails as absent exactly when there is none and as ambiguous exactly when there are two |
| Compensation.UniqueToolResult | src/execution/compensation.rs:505-531 | finds the one result item of a call, nothing exactly when there is none, and fails exactly when there are two |
| Compensation.AuthorizationOfWord | src/execution/compensation.rs:365-457 | on each of the three words the authorization search lands on the item right before the result, or on nothing for a call without a policy decision |
| Compensation.SettledCallsAreAuthorized | src/execution/compensation.rs:365-457 | on every Turn the completion check accepts the search is never ambiguous and finds an index strictly between call and result exactly for the calls with a policy decision |
| Compensation.SettledEffectsResolve | src/execution/compensation.rs:267-300 | on such a Turn a call resolves exactly when its tool matches and its result is no error, with the recorded input and output |
| Compensation.AuthorizationPersists | src/execution/compensation.rs:365-457 | an authorization found on a prefix stays at its index or becomes an error on every extension of the log |
| Compensation.AuthorizationIsExact | src/execution/compensation.rs:365-457 | the search finds an index if and only if it is the allow decision of the call's only policy item after the call, or the approving resolution of the only approval request that matches the ask decision |
| Compensation.UnauthorizedIsExact | src/execution/compensation.rs:365-457 | it finds nothing if and only if there is no policy item, or a denial, or an ask without a granted approval |
| Compensation.CurrentCallIsExact | src/execution/compensation.rs:232-265 | the current call is validated if and only if the one Turn of its context is running and its one call item carries this tool and this request and is authorized |
| Compensation.ResolutionIsExact | src/execution/compensation.rs:267-300 | a target resolves if and only if the one Turn and call item it names carry the target tool and the one result after an authorization is no error, and then with that input and output |
| Compensation.JudgementsAreExact | src/execution/compensation.rs:302-363 | an earlier call succeeded with an output if and only if it is another call of this tool for this target under the same key whose only result item is no error, stands after its authorization and holds that output; it objects exactly for another key, a result without or before an authorization, or an ambiguous log |
| Compensation.AnswerIsRecordedSuccess | src/execution/compensation.rs:302-363 | of several recorded successes the last one answers |
| Compensation.EntersProviderIff | src/execution/compensation.rs:152-191 | the condition for entering the provider in terms of the items of the thread alone |
| Compensation.JudgeCall | src/execution/compensation.rs:309-360 | the in-place reading of one earlier call equals the specified judgement, whose meaning `Compensation.JudgementsAreExact` states on items |
| Compensation.PriorSuccessfulCompensation | src/execution/compensation.rs:302-363 | the nested scan fails exactly when some earlier call is an objection, and otherwise answers with the recorded output of the last recorded success, or with nothing exactly when there is none |
| Compensation.Execute | src/execution/compensation.rs:152-191 | the provider is entered exactly when the current call is validated, the target resolves and no earlier call objects or succeeded; a replay returns the output in the one result item of the last earlier call that succeeded under the same key |
| Compensation.SettledEffectIsCompensable | src/execution/compensation.rs:152-191 | the first validated request for a successful effect of a Turn that the completion check accepts enters the provider |
| Compensation.EntriesShareTheKey | src/execution/compensation.rs:302-363 | over any append-only history all provider entries of one adapter for one target carry the same idempotency key |
| Compensation.RecordedSuccessIsFinal | src/execution/compensation.rs:302-363 | once a success of one compensation call is recorded, no other call for the target reaches the provider |
| Selection.VisibleMeansShown | src/context/mod.rs:916-1005 | the visibility test and the visible projection agree on every item list |
| Selection.ShownItemsAreExact | src/context/mod.rs:933-1005 | the projection shows each visible item in order and drops the others; a shown item keeps its identity and everything but what the projection is meant to remove |
| Selection.VisibleTurnsAreExact | src/context/mod.rs:391-404 | the visible Turns are, in order, all those that show something, each with its identity and its shown items |
| Selection.ShowingIsIdempotent | src/context/mod.rs:933-1005 | the visible projection is a fixed point |
| Selection.MessagesOfWholeLog | src/context/mod.rs:837-842 | deriving messages from prior and current items equals showing the whole log |
| Selection.CountVisible | src/context/mod.rs:391-395 | counts exactly the Turns that show something |
| Selection.Consider | src/context/mod.rs:405-427 | takes a Turn exactly when the window with it still fits, and fails exactly when that cannot be decided |
| Selection.SelectWindow | src/context/mod.rs:397-429 | retained is the longest suffix of visible Turns within the turn, token and byte budgets; it fails exactly when it reaches a Turn it cannot measure |
| Selection.ConsiderForBlock | src/context/mod.rs:627-663 | takes a Turn exactly when the block's JSON array with it still fits, and keeps the running total equal to that array's length |
| Selection.SelectBlock | src/context/mod.rs:616-666 | covered is the longest bounded block just before the retained Turns, never empty, and the running total is its exact encoded size |
| Selection.PrepareConversationCompaction | src/context/mod.rs:602-682 | the prepared input is that block with the exact count of older Turns; the final bounded encode cannot fail |
| Selection.VisibleTurnsSplit | src/context/mod.rs:602-682 | visible Turns split as older ++ covered ++ retained with exact counts |
| Selection.WindowIsUnique | src/context/mod.rs:397-429 | there is only one such window |
| Selection.CompileConversation | src/context/mod.rs:383-454 | the whole compilation: longest window, exact totals and dropped count, and the compaction block when configured; it fails exactly for an invalid configuration, a Turn the window cannot measure, or a block before that very window that cannot be selected |
| Handoff.ValidateThread | src/context/handoff.rs:356-378 | accepts exactly the threads with valid distinct Turn identities, all their own and none running |
| Handoff.SharedPrefix | src/context/handoff.rs:95-104 | the length of the longest common prefix |
| Handoff.HandoffSourceSha256 | src/context/handoff.rs:328-354 | the digest of the exact slice and its binding, or nothing when either exceeds its bound |
| Handoff.DigestPinsHandoff | src/context/handoff.rs:328-354 | equal digests mean the same threads, shared prefix, counts and encoded Turns |
| Handoff.Validate | src/context/handoff.rs:200-256 | accepts exactly the requests a consumer may rely on |
| Handoff.Prepare | src/context/handoff.rs:81-171 | the longest bounded block of newest source-only Turns with exact counts; every prepared request passes Validate; it fails exactly for invalid input, an unselectable block or a binding that is too large |
| Handoff.PreparedIsValid | src/context/handoff.rs:95-171 | any such block of a valid thread gives a valid request |
| JsonShape.ValidateValueShape | src/json.rs:18-60 | accepts a tree if and only if it has at most 65,536 nodes and none deeper than 64; visited plus pending stays within the node limit |
| JsonShape.VisitStep | src/json.rs:18-42 | replacing the top of the stack by its children keeps the number of unvisited nodes and whether any is too deep |
| JsonShape.BoundedVecWriter.Write | src/json.rs:176-198 | appends exactly while the total stays within the maximum and records an excess |
| JsonShape.ToBoundedJsonVec | src/json.rs:77-92 | however the output is cut into writes, the result is the whole output if it fits and a limit error otherwise |
| ApprovalInbox.Position | src/approval/mod.rs:265-270 | binary search finds where the record belongs |
| ApprovalInbox.InsertionKeepsFirst | src/approval/mod.rs:271-276 | inserting and cutting back keeps the first records in order |
| ApprovalInbox.PendingAs | src/approval/mod.rs:251-280 | returns the first `limit` pending records of the tenant by time and identity, for every store, visiting order and limit in range |
| ApprovalInbox.FirstIsCutListing | src/approval/mod.rs:563-573 | that page is the complete ordered listing cut at the limit, as the SQL query states it |
| ApprovalInbox.ListingExists | src/approval/mod.rs:563-573 | every store has such a listing |

## Left out

- Text-shape rules of actors, byte lengths of Unicode text, and schema versions of stored documents: single-branch facts.
- SQL text, WAL, locking retries, opening and migrating databases, and the encoded-size bounds of stored rows: each SQLite transaction is one atomic step on maps.
- The SQLite coordinator and the SQLite approval inbox: the ledger and page laws are proved for the process-local forms and stated so that ordered, filtered queries satisfy them.
- The refinement of failed governor calls: the process-local store keeps its pruning and partial lane updates after an error while SQLite rolls back, so only successful calls are related.
- Whether a lease outlasts dispatch when a governor is installed, the size reserve for settling approvals, and the equality of reported and durable retry times after a governor denial: the program does not promise them.
- In `Executor` lease and command identities are arbitrary strings, the policy gate is a worker that gives up, and the governor's answer is an arbitrary choice between withholding and dispatching; `GovernedExecutor` adds the governor and collision-free lease identities. The time a worker spends between admission and entry is not modelled: entries are counted in the window of their admission.
- Executor.Run: waiting, timeouts, cancellation and panic isolation are arbitrary answers; fairness and progress are not modelled.
- The due-lease scan, the reconciler, load and the engine wrapper: they add easy members over the same ledger.
- Submission, settlement, orphaning and per-turn capacity of approvals: single-record updates.
- Receipts.ValidateReceiptAgainstItems: the shape of actors and of execution-binding coordinates is not modelled; how items and receipts are encoded, and how many bytes that takes, are parameters.
- Canonical.Canonicalized: rewriting in place is modelled on values.
- Selection.SelectWindow: the token counter and the encoder are parameters, so nothing is said about how they count.
- Handoff.HandoffSourceSha256: the encoded size of the binding record is a parameter.
- Memory search, compactor output, capability registries, isolation, the command line and re-exports.
