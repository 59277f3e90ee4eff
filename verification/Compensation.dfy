/** Compensation of recorded tool effects: index searches over the same item logs
    that the completion check reads, and what they guarantee over every
    append-only history of a thread. */
module Compensation {
  import opened Support
  import opened Items
  import opened Completion

  datatype Descriptor = Descriptor(name: string, targetTool: string)

  /** The tool call on whose behalf an adapter runs. */
  datatype Context = Context(turnId: string, callId: string)

  type Thread = seq<Turn>

  datatype Fault =
    | MalformedRequest | ThreadAbsent | TurnAbsent | TurnDuplicated | NotRunning | CallAbsent | CallAmbiguous
    | ResultAmbiguous | AuthorizationAmbiguous | RequestAmbiguous | RequestDiffers | SettlementAmbiguous
    | WrongTool | NotAuthorized | RecordedRequestDiffers | NoResult | NotCompensable
    | ResultWithoutAuthorization | DifferentKey | ResultBeforeAuthorization

  // ----------------------------------------------------------------- searches

  datatype Query =
    | CallsTo(callId: string) | PoliciesOf(callId: string) | RequestsOf(callId: string)
    | DecisionsOf(callId: string, approvalId: string) | ResultsOf(callId: string)

  predicate Selects(q: Query, kind: ItemKind) {
    match q
    case CallsTo(c) => kind.ToolCall? && kind.callId == c
    case PoliciesOf(c) => kind.PolicyDecision? && kind.callId == c
    case RequestsOf(c) => kind.ApprovalRequested? && kind.callId == c
    case DecisionsOf(c, a) => kind.ApprovalDecision? && kind.callId == c && kind.approvalId == a
    case ResultsOf(c) => kind.ToolResult? && kind.callId == c
  }

  /** Where the selected items stand, in order. */
  function Positions(items: seq<Item>, q: Query): (r: seq<nat>)
    ensures forall k :: 0 <= k < |r| ==> r[k] < |items| && Selects(q, items[r[k]].kind)
  {
    if items == [] then []
    else
      var n := |items| - 1;
      Positions(items[..n], q) + (if Selects(q, items[n].kind) then [n] else [])
  }

  lemma {:induction false} PositionsAreComplete(items: seq<Item>, q: Query, i: nat)
    requires i < |items| && Selects(q, items[i].kind)
    ensures i in Positions(items, q)
  {
    if i < |items| - 1 { PositionsAreComplete(items[..|items| - 1], q, i); }
  }

  lemma {:induction false} PositionsAscend(items: seq<Item>, q: Query)
    ensures forall j, k :: 0 <= j < k < |Positions(items, q)| ==> Positions(items, q)[j] < Positions(items, q)[k]
  {
    if items != [] { PositionsAscend(items[..|items| - 1], q); }
  }

  lemma {:induction false} PositionsOfPrefix(items: seq<Item>, more: seq<Item>, q: Query)
    requires items <= more
    ensures Positions(items, q) <= Positions(more, q)
    decreases |more|
  {
    if |items| < |more| {
      PositionsOfPrefix(items, more[..|more| - 1], q);
    } else {
      assert items == more;
    }
  }

  /** Only item `i` is selected. */
  ghost predicate OnlyAt(items: seq<Item>, q: Query, i: nat) {
    i < |items| && Selects(q, items[i].kind) && forall j :: 0 <= j < |items| && Selects(q, items[j].kind) ==> j == i
  }

  ghost predicate Nowhere(items: seq<Item>, q: Query) {
    forall j :: 0 <= j < |items| ==> !Selects(q, items[j].kind)
  }

  ghost predicate Twice(items: seq<Item>, q: Query) {
    exists i, j :: 0 <= i < j < |items| && Selects(q, items[i].kind) && Selects(q, items[j].kind)
  }

  lemma PositionsInclude(items: seq<Item>, q: Query)
    ensures forall i: nat :: i < |items| && Selects(q, items[i].kind) ==> i in Positions(items, q)
  {
    hide Selects, Positions;
    forall i: nat | i < |items| && Selects(q, items[i].kind) ensures i in Positions(items, q) { PositionsAreComplete(items, q, i); }
  }

  lemma TwoPositions(items: seq<Item>, q: Query)
    ensures |Positions(items, q)| > 1 <==> Twice(items, q)
  {
    var found := Positions(items, q);
    PositionsAscend(items, q);
    PositionsInclude(items, q);
    hide Selects, Positions;
    if |found| > 1 {
      assert found[0] < found[1] && Selects(q, items[found[0]].kind) && Selects(q, items[found[1]].kind);
    }
    if Twice(items, q) {
      var i, j :| 0 <= i < j < |items| && Selects(q, items[i].kind) && Selects(q, items[j].kind);
      assert i in found && j in found;
    }
  }

  /** The number of positions tells absence, uniqueness and ambiguity apart. */
  lemma PositionsCount(items: seq<Item>, q: Query)
    ensures Positions(items, q) == [] <==> Nowhere(items, q)
    ensures |Positions(items, q)| == 1 ==> OnlyAt(items, q, Positions(items, q)[0])
    ensures |Positions(items, q)| > 1 <==> Twice(items, q)
  {
    var found := Positions(items, q);
    assert forall k :: 0 <= k < |found| ==> found[k] < |items| && Selects(q, items[found[k]].kind);
    PositionsInclude(items, q);
    TwoPositions(items, q);
    hide Selects, Positions, Twice;
  }

  /** Finds the one call item of an identity. */
  function UniqueToolCall(items: seq<Item>, c: string): (r: Result<nat, Fault>)
    ensures r.Ok? ==> OnlyAt(items, CallsTo(c), r.value)
    ensures r == Err(CallAbsent) <==> Nowhere(items, CallsTo(c))
    ensures r == Err(CallAmbiguous) <==> Twice(items, CallsTo(c))
    ensures r.Err? ==> r.error == CallAbsent || r.error == CallAmbiguous
  {
    PositionsCount(items, CallsTo(c));
    var calls := Positions(items, CallsTo(c));
    if calls == [] then Err(CallAbsent) else if |calls| > 1 then Err(CallAmbiguous) else Ok(calls[0])
  }

  /** Finds the one result item of a call, if there is one. */
  function UniqueToolResult(items: seq<Item>, c: string): (r: Result<Option<nat>, Fault>)
    ensures r.Ok? && r.value.Some? ==> OnlyAt(items, ResultsOf(c), r.value.value)
    ensures r == Ok(None) <==> Nowhere(items, ResultsOf(c))
    ensures r.Err? <==> Twice(items, ResultsOf(c))
    ensures r.Err? ==> r.error == ResultAmbiguous
  {
    PositionsCount(items, ResultsOf(c));
    var results := Positions(items, ResultsOf(c));
    if |results| > 1 then Err(ResultAmbiguous) else Ok(if results == [] then None else Some(results[0]))
  }

  /** The last item that authorizes execution of a call, if it is authorized. */
  function AuthorizationIndex(items: seq<Item>, c: string, tool: string, callIndex: nat): Result<Option<nat>, Fault> {
    var policies := Positions(items, PoliciesOf(c));
    if policies == [] then Ok(None)
    else if |policies| > 1 || policies[0] <= callIndex then Err(AuthorizationAmbiguous)
    else
      match items[policies[0]].kind.policy
      case Allow => Ok(Some(policies[0]))
      case Deny(_) => Ok(None)
      case Ask(reason, risk) => ApprovalIndex(items, c, tool, policies[0], reason, risk)
  }

  function ApprovalIndex(items: seq<Item>, c: string, tool: string, policyIndex: nat, reason: string, risk: Risk)
    : Result<Option<nat>, Fault>
  {
    var requests := Positions(items, RequestsOf(c));
    if requests == [] then Ok(None)
    else if |requests| > 1 || requests[0] <= policyIndex then Err(RequestAmbiguous)
    else
      var request := items[requests[0]].kind;
      if request.tool != tool || request.reason != reason || request.risk != risk then Err(RequestDiffers)
      else
        var decisions := Positions(items, DecisionsOf(c, request.approvalId));
        if decisions == [] then Ok(None)
        else if |decisions| > 1 || decisions[0] <= requests[0] then Err(SettlementAmbiguous)
        else Ok(if items[decisions[0]].kind.approve then Some(decisions[0]) else None)
  }

  // ----------------------------------- what the completion check lets through

  /** The same search, done on the items of one call only. */
  function Chosen(p: seq<Located>, q: Query): seq<nat> {
    if p == [] then []
    else
      var n := |p| - 1;
      Chosen(p[..n], q) + (if Selects(q, p[n].kind) then [p[n].index] else [])
  }

  lemma {:induction false} SearchesOneCall(items: seq<Item>, q: Query)
    ensures Positions(items, q) == Chosen(Projection(items, q.callId), q)
  {
    if items != [] {
      var n := |items| - 1;
      SearchesOneCall(items[..n], q);
      if CallOf(items[n].kind) == Some(q.callId) {
        var p := Projection(items, q.callId);
        assert p[..|p| - 1] == Projection(items[..n], q.callId);
      } else {
        assert Projection(items, q.callId) == Projection(items[..n], q.callId);
      }
    }
  }

  lemma ChosenOfTwo(p: seq<Located>, q: Query)
    requires |p| == 2
    ensures Chosen(p, q) == (if Selects(q, p[0].kind) then [p[0].index] else [])
                          + (if Selects(q, p[1].kind) then [p[1].index] else [])
  {
    hide Selects;
    assert p[..1][..0] == [];
    assert Chosen(p[..1], q) == Chosen([], q) + (if Selects(q, p[0].kind) then [p[0].index] else []);
  }

  lemma ChosenExtends(p: seq<Located>, q: Query)
    requires p != []
    ensures Chosen(p, q) == Chosen(p[..|p| - 1], q) + (if Selects(q, p[|p| - 1].kind) then [p[|p| - 1].index] else [])
  {
  }

  lemma ChosenOfThree(p: seq<Located>, q: Query)
    requires |p| == 3
    ensures Chosen(p, q) == (if Selects(q, p[0].kind) then [p[0].index] else [])
                          + (if Selects(q, p[1].kind) then [p[1].index] else [])
                          + (if Selects(q, p[2].kind) then [p[2].index] else [])
  {
    hide Selects;
    ChosenExtends(p, q);
    ChosenOfTwo(p[..2], q);
  }

  lemma ChosenOfFive(p: seq<Located>, q: Query)
    requires |p| == 5
    ensures Chosen(p, q) == (if Selects(q, p[0].kind) then [p[0].index] else [])
                          + (if Selects(q, p[1].kind) then [p[1].index] else [])
                          + (if Selects(q, p[2].kind) then [p[2].index] else [])
                          + (if Selects(q, p[3].kind) then [p[3].index] else [])
                          + (if Selects(q, p[4].kind) then [p[4].index] else [])
  {
    hide Selects;
    ChosenExtends(p, q);
    ChosenExtends(p[..4], q);
    assert p[..4][..3] == p[..3];
    ChosenOfThree(p[..3], q);
  }

  ghost predicate OfCall(p: seq<Located>, c: string) {
    forall k :: 0 <= k < |p| ==> CallOf(p[k].kind) == Some(c)
  }

  lemma ChosenOfWord(p: seq<Located>, q: Query)
    requires Word(p) && OfCall(p, q.callId) && (q.CallsTo? || q.PoliciesOf? || q.ResultsOf?)
    ensures Chosen(p, q) == if q.CallsTo? then [p[0].index]
                            else if q.ResultsOf? then [p[|p| - 1].index]
                            else if |p| == 2 then [] else [p[1].index]
  {
    hide Chosen;
    if |p| == 2 {
      ChosenOfTwo(p, q);
    } else if |p| == 3 {
      ChosenOfThree(p, q);
    } else {
      ChosenOfFive(p, q);
    }
  }

  /** Where each search lands on a call that lived one of the three lives. */
  lemma WordPositions(items: seq<Item>, c: string)
    requires Word(Projection(items, c))
    ensures var p := Projection(items, c);
      && Positions(items, CallsTo(c)) == [p[0].index]
      && Positions(items, ResultsOf(c)) == [p[|p| - 1].index]
      && Positions(items, PoliciesOf(c)) == if |p| == 2 then [] else [p[1].index]
  {
    hide Word, Positions, Projection, Chosen;
    var p := Projection(items, c);
    ProjectionIsFaithful(items, c);
    assert OfCall(p, c);
    SearchesOneCall(items, CallsTo(c));
    SearchesOneCall(items, PoliciesOf(c));
    SearchesOneCall(items, ResultsOf(c));
    ChosenOfWord(p, CallsTo(c));
    ChosenOfWord(p, PoliciesOf(c));
    ChosenOfWord(p, ResultsOf(c));
  }

  lemma AskWordPositions(items: seq<Item>, c: string)
    requires AskWord(Projection(items, c))
    ensures var p := Projection(items, c);
      && Positions(items, RequestsOf(c)) == [p[2].index]
      && Positions(items, DecisionsOf(c, p[2].kind.approvalId)) == [p[3].index]
  {
    var p := Projection(items, c);
    ProjectionIsFaithful(items, c);
    SearchesOneCall(items, RequestsOf(c));
    SearchesOneCall(items, DecisionsOf(c, p[2].kind.approvalId));
    hide Projection, Positions;
    ChosenOfFive(p, RequestsOf(c));
    ChosenOfFive(p, DecisionsOf(c, p[2].kind.approvalId));
  }

  /** On every Turn the completion check accepts, each call has one call item and
      one result; the authorization search is never ambiguous and finds an index
      strictly between the two exactly when the call had a policy decision. Every
      successful result is therefore authorized. */
  lemma SettledCallsAreAuthorized(items: seq<Item>, c: string)
    requires SettledTurn(items) && Projection(items, c) != []
    ensures UniqueToolCall(items, c).Ok? && UniqueToolResult(items, c).Ok? && UniqueToolResult(items, c).value.Some?
    ensures var call := UniqueToolCall(items, c).value; var result := UniqueToolResult(items, c).value.value;
      var authorized := AuthorizationIndex(items, c, items[call].kind.name, call);
      && authorized.Ok?
      && (authorized.value.Some? <==> Positions(items, PoliciesOf(c)) != [])
      && (authorized.value.Some? ==> call < authorized.value.value < result)
      && (!items[result].kind.isError ==> authorized.value.Some?)
  {
    var p := Projection(items, c);
    assert Word(p);
    hide SettledTurn, Projection, Positions, AuthorizationIndex;
    WordPositions(items, c);
    Standing(items, c, 0);
    Standing(items, c, |p| - 1);
    AuthorizationOfWord(items, c);
    if |p| > 2 {
      Before(items, c, 0, |p| - 2);
      Before(items, c, |p| - 2, |p| - 1);
    }
  }

  lemma Standing(items: seq<Item>, c: string, k: nat)
    requires k < |Projection(items, c)|
    ensures Projection(items, c)[k].index < |items|
    ensures items[Projection(items, c)[k].index].kind == Projection(items, c)[k].kind
  {
    ProjectionIsFaithful(items, c);
  }

  lemma Before(items: seq<Item>, c: string, j: nat, k: nat)
    requires j < k < |Projection(items, c)|
    ensures Projection(items, c)[j].index < Projection(items, c)[k].index
  {
    ProjectionIsFaithful(items, c);
  }

  lemma AuthorizationOfWord(items: seq<Item>, c: string)
    requires Word(Projection(items, c))
    ensures var p := Projection(items, c);
      AuthorizationIndex(items, c, p[0].kind.name, p[0].index) == Ok(if |p| == 2 then None else Some(p[|p| - 2].index))
  {
    hide Projection, Positions;
    var p := Projection(items, c);
    WordPositions(items, c);
    if |p| > 2 {
      Standing(items, c, 1);
      Before(items, c, 0, 1);
    }
    if |p| == 5 {
      AskWordPositions(items, c);
      Standing(items, c, 2);
      Standing(items, c, 3);
      Before(items, c, 1, 2);
      Before(items, c, 2, 3);
    }
  }

  // ------------------------------------------------------------- persistence

  /** An authorization found on a prefix of the log stays where it is, or turns
      into an error, however the log grows. */
  lemma AuthorizationPersists(items: seq<Item>, more: seq<Item>, c: string, tool: string, callIndex: nat)
    requires items <= more
    requires AuthorizationIndex(items, c, tool, callIndex).Ok? && AuthorizationIndex(items, c, tool, callIndex).value.Some?
    ensures var later := AuthorizationIndex(more, c, tool, callIndex);
      later.Err? || later == AuthorizationIndex(items, c, tool, callIndex)
  {
    var policies := Positions(items, PoliciesOf(c));
    PositionsOfPrefix(items, more, PoliciesOf(c));
    PositionsOfPrefix(items, more, RequestsOf(c));
    if items[policies[0]].kind.policy.Ask? {
      var requests := Positions(items, RequestsOf(c));
      PositionsOfPrefix(items, more, DecisionsOf(c, items[requests[0]].kind.approvalId));
    }
    hide Positions;
  }

  lemma CallPersists(items: seq<Item>, more: seq<Item>, c: string)
    requires items <= more && UniqueToolCall(items, c).Ok?
    ensures UniqueToolCall(more, c).Err? || UniqueToolCall(more, c) == UniqueToolCall(items, c)
  {
    PositionsOfPrefix(items, more, CallsTo(c));
  }

  // ----------------------------------------------------------------- threads

  function TurnsWith(thread: Thread, id: string): (r: seq<nat>)
    ensures forall k :: 0 <= k < |r| ==> r[k] < |thread| && thread[r[k]].id == id
  {
    if thread == [] then []
    else
      var n := |thread| - 1;
      TurnsWith(thread[..n], id) + (if thread[n].id == id then [n] else [])
  }

  function FindTurn(thread: Thread, id: string): (r: Result<nat, Fault>)
    ensures r.Ok? ==> r.value < |thread| && thread[r.value].id == id
  {
    var turns := TurnsWith(thread, id);
    if turns == [] then Err(TurnAbsent) else if |turns| > 1 then Err(TurnDuplicated) else Ok(turns[0])
  }

  /** The running call exists, belongs to this adapter, is authorized and was
      recorded with this very request. */
  function ValidateCurrentCall(thread: Thread, context: Context, tool: string, request: CompensationRequest): Option<Fault> {
    match FindTurn(thread, context.turnId)
    case Err(fault) => Some(fault)
    case Ok(t) =>
      var items := thread[t].items;
      if !thread[t].status.Running? then Some(NotRunning)
      else
        match UniqueToolCall(items, context.callId)
        case Err(fault) => Some(fault)
        case Ok(call) =>
          if items[call].kind.name != tool then Some(WrongTool)
          else
            match AuthorizationIndex(items, context.callId, tool, call)
            case Err(fault) => Some(fault)
            case Ok(None) => Some(NotAuthorized)
            case Ok(Some(_)) =>
              if items[call].kind.input != RequestValue(request) then Some(RecordedRequestDiffers) else None
  }

  function ResolveOriginalEffect(thread: Thread, descriptor: Descriptor, request: CompensationRequest)
    : Result<(Value, Value), Fault>
  {
    match FindTurn(thread, request.targetTurn)
    case Err(fault) => Err(fault)
    case Ok(t) =>
      var items := thread[t].items;
      match UniqueToolCall(items, request.targetCall)
      case Err(fault) => Err(fault)
      case Ok(call) =>
        if items[call].kind.name != descriptor.targetTool then Err(WrongTool)
        else
          match AuthorizationIndex(items, request.targetCall, items[call].kind.name, call)
          case Err(fault) => Err(fault)
          case Ok(None) => Err(NotAuthorized)
          case Ok(Some(authorized)) =>
            match UniqueToolResult(items, request.targetCall)
            case Err(fault) => Err(fault)
            case Ok(None) => Err(NoResult)
            case Ok(Some(result)) =>
              if result <= authorized || items[result].kind.isError then Err(NotCompensable)
              else Ok((items[call].kind.input, items[result].kind.output))
  }

  /** Every successful call of a settled Turn can be resolved as a compensable
      effect, with the input and output that were recorded. */
  lemma SettledEffectsResolve(thread: Thread, t: nat, request: CompensationRequest, descriptor: Descriptor)
    requires FindTurn(thread, request.targetTurn) == Ok(t) && SettledTurn(thread[t].items)
    requires Projection(thread[t].items, request.targetCall) != []
    ensures UniqueToolCall(thread[t].items, request.targetCall).Ok?
    ensures UniqueToolResult(thread[t].items, request.targetCall).Ok?
         && UniqueToolResult(thread[t].items, request.targetCall).value.Some?
    ensures var items := thread[t].items;
      var call := items[UniqueToolCall(items, request.targetCall).value].kind;
      var result := items[UniqueToolResult(items, request.targetCall).value.value].kind;
      ResolveOriginalEffect(thread, descriptor, request).Ok? <==> call.name == descriptor.targetTool && !result.isError
    ensures var items := thread[t].items;
      var call := items[UniqueToolCall(items, request.targetCall).value].kind;
      var result := items[UniqueToolResult(items, request.targetCall).value.value].kind;
      ResolveOriginalEffect(thread, descriptor, request).Ok? ==>
        ResolveOriginalEffect(thread, descriptor, request).value == (call.input, result.output)
  {
    hide SettledTurn, Projection, Positions, AuthorizationIndex, FindTurn;
    SettledCallsAreAuthorized(thread[t].items, request.targetCall);
  }

  // -------------------------------------------------- one adapter on one thread

  datatype Judgement = Irrelevant | Undecided | Refused(fault: Fault) | Succeeded(output: Value)

  datatype Inquiry = Inquiry(context: Context, tool: string, request: CompensationRequest)

  /** Another call of the same adapter for the same target. */
  predicate SameTarget(turn: Turn, kind: ItemKind, q: Inquiry) {
    && kind.ToolCall? && kind.name == q.tool
    && !(turn.id == q.context.turnId && kind.callId == q.context.callId)
    && kind.input.RequestValue?
    && kind.input.request.targetTurn == q.request.targetTurn && kind.input.request.targetCall == q.request.targetCall
  }

  /** What such a call means for the current request. */
  function Judge(turn: Turn, i: nat, q: Inquiry): Judgement
    requires i < |turn.items|
  {
    var items := turn.items;
    if !SameTarget(turn, items[i].kind, q) then Irrelevant
    else
      var c := items[i].kind.callId;
      var result := UniqueToolResult(items, c);
      var authorized := AuthorizationIndex(items, c, q.tool, i);
      if result.Err? then Refused(result.error)
      else if authorized.Err? then Refused(authorized.error)
      else if authorized.value.None? then
        if result.value.Some? then Refused(ResultWithoutAuthorization) else Irrelevant
      else if items[i].kind.input.request.key != q.request.key then Refused(DifferentKey)
      else if result.value.None? then Undecided
      else if result.value.value <= authorized.value.value then Refused(ResultBeforeAuthorization)
      else if items[result.value.value].kind.isError then Undecided
      else Succeeded(items[result.value.value].kind.output)
  }

  predicate InThread(thread: Thread, u: int, i: int) {
    0 <= u < |thread| && 0 <= i < |thread[u].items|
  }

  function JudgeAt(thread: Thread, u: int, i: int, q: Inquiry): Judgement {
    if InThread(thread, u, i) then Judge(thread[u], i, q) else Irrelevant
  }

  predicate Earlier(u: int, i: int, t: int, n: int) {
    u < t || (u == t && i < n)
  }

  /** Before position (t, n) nothing refuses the request. */
  ghost predicate Unrefused(thread: Thread, q: Inquiry, t: int, n: int) {
    forall u, i :: Earlier(u, i, t, n) ==> !JudgeAt(thread, u, i, q).Refused?
  }

  ghost predicate Unanswered(thread: Thread, q: Inquiry, t: int, n: int) {
    forall u, i :: Earlier(u, i, t, n) ==> !JudgeAt(thread, u, i, q).Succeeded?
  }

  /** Some call before (t, n) succeeded with this output and none did after it. */
  ghost predicate LastAnswer(thread: Thread, q: Inquiry, t: int, n: int, output: Value) {
    exists u, i :: AnswersAt(thread, q, u, i, output) && Earlier(u, i, t, n)
      && forall v, j :: Earlier(u, i, v, j) && Earlier(v, j, t, n) ==> !JudgeAt(thread, v, j, q).Succeeded?
  }

  ghost predicate AnswersAt(thread: Thread, q: Inquiry, u: int, i: int, output: Value) {
    JudgeAt(thread, u, i, q) == Succeeded(output)
  }

  ghost predicate Answer(thread: Thread, q: Inquiry, t: int, n: int, settled: Option<Value>) {
    match settled
    case None => Unanswered(thread, q, t, n)
    case Some(output) => LastAnswer(thread, q, t, n, output)
  }

  /** One call of the scan. */
  method JudgeCall(turn: Turn, i: nat, q: Inquiry) returns (judgement: Judgement)
    requires i < |turn.items|
    ensures judgement == Judge(turn, i, q)
  {
    hide Positions, AuthorizationIndex;
    match turn.items[i].kind
    case ToolCall(callId, name, input) =>
      if name != q.tool || (turn.id == q.context.turnId && callId == q.context.callId) { return Irrelevant; }
      if !input.RequestValue? { return Irrelevant; }
      var prior := input.request;
      if prior.targetTurn != q.request.targetTurn || prior.targetCall != q.request.targetCall { return Irrelevant; }
      var result := UniqueToolResult(turn.items, callId);
      if result.Err? { return Refused(result.error); }
      var authorized := AuthorizationIndex(turn.items, callId, name, i);
      if authorized.Err? { return Refused(authorized.error); }
      if authorized.value.None? {
        return if result.value.Some? then Refused(ResultWithoutAuthorization) else Irrelevant;
      }
      if prior.key != q.request.key { return Refused(DifferentKey); }
      if result.value.None? { return Undecided; }
      if result.value.value <= authorized.value.value { return Refused(ResultBeforeAuthorization); }
      var settled := turn.items[result.value.value].kind;
      return if settled.isError then Undecided else Succeeded(settled.output);
    case _ => return Irrelevant;
  }

  /** The scan over all turns: any refusal wins, and otherwise the last recorded
      success is the answer. */
  method PriorSuccessfulCompensation(thread: Thread, q: Inquiry) returns (r: Result<Option<Value>, Fault>)
    ensures r.Ok? <==> Unrefused(thread, q, |thread|, 0)
    ensures r.Ok? ==> Answer(thread, q, |thread|, 0, r.value)
    ensures r.Ok? <==> NoObjection(thread, q)
    ensures r == Ok(None) <==> NoObjection(thread, q) && NoSuccess(thread, q)
    ensures r.Ok? && r.value.Some? ==> exists u, i :: LastSuccess(thread, q, u, i, r.value.value)
  {
    hide Judge, Unrefused, Answer, NoObjection, NoSuccess, LastSuccess;
    ScanIsExact(thread, q);
    var settled: Option<Value> := None;
    NothingSaid(thread, q);
    var t := 0;
    while t < |thread|
      invariant 0 <= t <= |thread|
      invariant Unrefused(thread, q, t, 0) && Answer(thread, q, t, 0, settled)
    {
      var i := 0;
      while i < |thread[t].items|
        invariant 0 <= i <= |thread[t].items|
        invariant Unrefused(thread, q, t, i) && Answer(thread, q, t, i, settled)
      {
        var judgement := JudgeCall(thread[t], i, q);
        Heard(thread, q, t, i, settled, judgement);
        if judgement.Refused? {
          return Err(judgement.fault);
        }
        if judgement.Succeeded? {
          settled := Some(judgement.output);
        }
        i := i + 1;
      }
      TurnDone(thread, q, t, settled);
      t := t + 1;
    }
    AnswerTells(thread, q, settled);
    return Ok(settled);
  }

  lemma AnswerTells(thread: Thread, q: Inquiry, settled: Option<Value>)
    requires Unrefused(thread, q, |thread|, 0) && Answer(thread, q, |thread|, 0, settled)
    ensures settled.None? <==> Unanswered(thread, q, |thread|, 0)
    ensures settled.Some? ==> exists u, i :: LastSuccess(thread, q, u, i, settled.value)
  {
    hide Judge, Unrefused, LastSuccess;
    if settled.Some? {
      AnsweredIsNotUnanswered(thread, q, settled.value);
      AnswerIsRecordedSuccess(thread, q, settled.value);
    }
  }

  lemma NothingSaid(thread: Thread, q: Inquiry)
    ensures Unrefused(thread, q, 0, 0) && Answer(thread, q, 0, 0, None)
  {
  }

  lemma Heard(thread: Thread, q: Inquiry, t: nat, i: nat, settled: Option<Value>, judgement: Judgement)
    requires t < |thread| && i < |thread[t].items| && judgement == Judge(thread[t], i, q)
    requires Unrefused(thread, q, t, i) && Answer(thread, q, t, i, settled)
    ensures judgement.Refused? ==> !Unrefused(thread, q, |thread|, 0)
    ensures !judgement.Refused? ==> Unrefused(thread, q, t, i + 1)
    ensures !judgement.Refused? ==>
      Answer(thread, q, t, i + 1, if judgement.Succeeded? then Some(judgement.output) else settled)
  {
    hide Judge;
    assert JudgeAt(thread, t, i, q) == judgement && Earlier(t, i, |thread|, 0);
    if judgement.Succeeded? {
      assert AnswersAt(thread, q, t, i, judgement.output) && Earlier(t, i, t, i + 1);
    } else if settled.Some? && !judgement.Refused? {
      var u, k :| AnswersAt(thread, q, u, k, settled.value) && Earlier(u, k, t, i)
        && forall v, j :: Earlier(u, k, v, j) && Earlier(v, j, t, i) ==> !JudgeAt(thread, v, j, q).Succeeded?;
      assert Earlier(u, k, t, i + 1);
    }
  }

  lemma TurnDone(thread: Thread, q: Inquiry, t: nat, settled: Option<Value>)
    requires t < |thread|
    requires Unrefused(thread, q, t, |thread[t].items|) && Answer(thread, q, t, |thread[t].items|, settled)
    ensures Unrefused(thread, q, t + 1, 0) && Answer(thread, q, t + 1, 0, settled)
  {
    hide Judge;
    var n := |thread[t].items|;
    forall u, i | Earlier(u, i, t + 1, 0) && !Earlier(u, i, t, n) ensures JudgeAt(thread, u, i, q).Irrelevant? {
    }
    if settled.Some? {
      var u, k :| AnswersAt(thread, q, u, k, settled.value) && Earlier(u, k, t, n)
        && forall v, j :: Earlier(u, k, v, j) && Earlier(v, j, t, n) ==> !JudgeAt(thread, v, j, q).Succeeded?;
      assert Earlier(u, k, t + 1, 0);
    }
  }

  // --------------------------------------------------------------- execution

  datatype Execution =
    | Replayed(output: Value)                                    // a recorded success answers
    | Entered(originalInput: Value, originalOutput: Value, key: string)
    | Failed(fault: Fault)

  predicate ValidRequest(request: CompensationRequest) {
    ValidIdentity(request.targetCall) && ValidIdentity(request.key)
  }

  /** The adapter calls the provider for this call on this state of the thread. */
  ghost predicate EntersProvider(thread: Thread, descriptor: Descriptor, context: Context, request: CompensationRequest) {
    var q := Inquiry(context, descriptor.name, request);
    && ValidRequest(request)
    && ValidateCurrentCall(thread, context, descriptor.name, request).None?
    && ResolveOriginalEffect(thread, descriptor, request).Ok?
    && Unrefused(thread, q, |thread|, 0) && Unanswered(thread, q, |thread|, 0)
  }

  method Execute(thread: Option<Thread>, descriptor: Descriptor, input: Value, context: Context) returns (r: Execution)
    ensures r.Entered? <==> thread.Some? && input.RequestValue? && EntersProvider(thread.value, descriptor, context, input.request)
    ensures r.Entered? ==> r.key == input.request.key && exists t: nat, i: nat, j: nat ::
      EffectRecorded(thread.value, descriptor, input.request, t, i, j, r.originalInput, r.originalOutput)
    ensures r.Replayed? ==>
      && thread.Some? && input.RequestValue?
      && exists u, i :: LastSuccess(thread.value, Inquiry(context, descriptor.name, input.request), u, i, r.output)
  {
    hide ValidateCurrentCall, ResolveOriginalEffect, Unrefused, Judge, LastSuccess, EffectRecorded;
    if !input.RequestValue? || !ValidRequest(input.request) { return Failed(MalformedRequest); }
    if thread.None? { return Failed(ThreadAbsent); }
    var request := input.request;
    var current := ValidateCurrentCall(thread.value, context, descriptor.name, request);
    if current.Some? { return Failed(current.value); }
    var original := ResolveOriginalEffect(thread.value, descriptor, request);
    if original.Err? { return Failed(original.error); }
    var prior := PriorSuccessfulCompensation(thread.value, Inquiry(context, descriptor.name, request));
    if prior.Err? { return Failed(prior.error); }
    if prior.value.Some? {
      AnsweredIsNotUnanswered(thread.value, Inquiry(context, descriptor.name, request), prior.value.value);
      AnswerIsRecordedSuccess(thread.value, Inquiry(context, descriptor.name, request), prior.value.value);
      return Replayed(prior.value.value);
    }
    ResolutionIsExact(thread.value, descriptor, request, original.value.0, original.value.1);
    return Entered(original.value.0, original.value.1, request.key);
  }

  lemma AnsweredIsNotUnanswered(thread: Thread, q: Inquiry, output: Value)
    requires LastAnswer(thread, q, |thread|, 0, output)
    ensures !Unanswered(thread, q, |thread|, 0)
  {
    hide Judge;
  }

  // ------------------------------------------------------------ over histories

  /** Turns are appended, items are appended to Turns, nothing is rewritten. */
  ghost predicate Extends(a: Thread, b: Thread) {
    && |a| <= |b|
    && forall t :: 0 <= t < |a| ==> a[t].id == b[t].id && a[t].items <= b[t].items
  }

  ghost predicate AppendOnly(history: seq<Thread>) {
    forall i :: 0 < i < |history| ==> Extends(history[i - 1], history[i])
  }

  lemma {:induction false} HistoryExtends(history: seq<Thread>, i: nat, j: nat)
    requires AppendOnly(history) && i <= j < |history|
    ensures Extends(history[i], history[j])
  {
    if i < j {
      HistoryExtends(history, i, j - 1);
      assert Extends(history[j - 1], history[j]);
    }
  }

  /** The recorded call behind an entry: authorized, with this very request. */
  lemma EntryIsRecorded(thread: Thread, descriptor: Descriptor, context: Context, request: CompensationRequest)
    returns (t: nat, call: nat)
    requires EntersProvider(thread, descriptor, context, request)
    ensures FindTurn(thread, context.turnId) == Ok(t)
    ensures UniqueToolCall(thread[t].items, context.callId) == Ok(call)
    ensures thread[t].items[call].kind == ToolCall(context.callId, descriptor.name, RequestValue(request))
    ensures var authorized := AuthorizationIndex(thread[t].items, context.callId, descriptor.name, call);
      authorized.Ok? && authorized.value.Some?
  {
    hide ResolveOriginalEffect, Unrefused, Unanswered, AuthorizationIndex, Positions, TurnsWith;
    t := FindTurn(thread, context.turnId).value;
    call := UniqueToolCall(thread[t].items, context.callId).value;
  }

  /** How a later scan sees a call that was authorized before. */
  lemma LaterScanSeesCall(a: Thread, b: Thread, t: nat, call: nat, q: Inquiry)
    requires Extends(a, b) && t < |a| && call < |a[t].items|
    requires SameTarget(a[t], a[t].items[call].kind, q)
    requires var authorized := AuthorizationIndex(a[t].items, a[t].items[call].kind.callId, q.tool, call);
      authorized.Ok? && authorized.value.Some?
    requires Unrefused(b, q, |b|, 0)
    ensures t < |b| && call < |b[t].items| && b[t].items[call] == a[t].items[call]
    ensures a[t].items[call].kind.input.request.key == q.request.key
    ensures UniqueToolResult(b[t].items, a[t].items[call].kind.callId).Ok?
    ensures var result := UniqueToolResult(b[t].items, a[t].items[call].kind.callId).value;
      result.Some? && !b[t].items[result.value].kind.isError ==> !Unanswered(b, q, |b|, 0)
  {
    var c := a[t].items[call].kind.callId;
    AuthorizationPersists(a[t].items, b[t].items, c, q.tool, call);
    hide AuthorizationIndex, Positions;
    assert b[t].items[call] == a[t].items[call];
    assert Earlier(t, call, |b|, 0);
    assert !JudgeAt(b, t, call, q).Refused?;
  }

  /** All provider entries of one adapter for one target carry the same
      idempotency key, whenever and for whichever call they happen. */
  lemma EntriesShareTheKey(history: seq<Thread>, i: nat, j: nat, descriptor: Descriptor,
                           first: Context, second: Context, a: CompensationRequest, b: CompensationRequest)
    requires AppendOnly(history) && i <= j < |history|
    requires EntersProvider(history[i], descriptor, first, a) && EntersProvider(history[j], descriptor, second, b)
    requires a.targetTurn == b.targetTurn && a.targetCall == b.targetCall
    ensures a.key == b.key
    ensures first == second ==> a == b
  {
    hide EntersProvider, AuthorizationIndex, UniqueToolCall, FindTurn, Unrefused;
    var t, call := EntryIsRecorded(history[i], descriptor, first, a);
    HistoryExtends(history, i, j);
    if first == second {
      var u, again := EntryIsRecorded(history[j], descriptor, second, b);
      SameTurnLater(history[i], history[j], first.turnId);
      CallPersists(history[i][t].items, history[j][t].items, first.callId);
    } else {
      FoundTurn(history[i], first.turnId);
      EntryIsUnrefused(history[j], descriptor, second, b);
      LaterScanSeesCall(history[i], history[j], t, call, Inquiry(second, descriptor.name, b));
    }
  }

  lemma EntryIsUnrefused(thread: Thread, descriptor: Descriptor, context: Context, request: CompensationRequest)
    requires EntersProvider(thread, descriptor, context, request)
    ensures Unrefused(thread, Inquiry(context, descriptor.name, request), |thread|, 0)
    ensures Unanswered(thread, Inquiry(context, descriptor.name, request), |thread|, 0)
  {
  }

  lemma FoundTurn(thread: Thread, id: string)
    requires FindTurn(thread, id).Ok?
    ensures FindTurn(thread, id).value < |thread| && thread[FindTurn(thread, id).value].id == id
  {
  }

  lemma {:induction false} TurnsOfPrefix(a: Thread, b: Thread, id: string)
    requires Extends(a, b)
    ensures TurnsWith(a, id) <= TurnsWith(b, id)
    ensures |a| == |b| ==> TurnsWith(a, id) == TurnsWith(b, id)
    decreases |b|
  {
    if |a| < |b| {
      TurnsOfPrefix(a, b[..|b| - 1], id);
    } else if b != [] {
      TurnsOfPrefix(a[..|a| - 1], b[..|b| - 1], id);
    }
  }

  lemma SameTurnLater(a: Thread, b: Thread, id: string)
    requires Extends(a, b) && FindTurn(a, id).Ok? && FindTurn(b, id).Ok?
    ensures FindTurn(a, id) == FindTurn(b, id)
  {
    TurnsOfPrefix(a, b, id);
  }

  /** Once the success of one compensation call is recorded, no other call for the
      same target reaches the provider. */
  lemma RecordedSuccessIsFinal(history: seq<Thread>, i: nat, j: nat, k: nat, descriptor: Descriptor,
                               first: Context, second: Context, a: CompensationRequest, b: CompensationRequest, r: nat)
    requires AppendOnly(history) && i <= j <= k < |history|
    requires EntersProvider(history[i], descriptor, first, a)
    requires FindTurn(history[i], first.turnId).Ok?
    requires var t := FindTurn(history[i], first.turnId).value;
      && t < |history[j]| && r < |history[j][t].items|
      && Selects(ResultsOf(first.callId), history[j][t].items[r].kind) && !history[j][t].items[r].kind.isError
    requires first != second && a.targetTurn == b.targetTurn && a.targetCall == b.targetCall
    ensures !EntersProvider(history[k], descriptor, second, b)
  {
    if EntersProvider(history[k], descriptor, second, b) {
      hide EntersProvider, AuthorizationIndex, UniqueToolCall, FindTurn, Unrefused, Unanswered;
      var t, call := EntryIsRecorded(history[i], descriptor, first, a);
      FoundTurn(history[i], first.turnId);
      HistoryExtends(history, i, k);
      HistoryExtends(history, j, k);
      var q := Inquiry(second, descriptor.name, b);
      OnlyResult(history[k][t].items, first.callId, r);
      EntryIsUnrefused(history[k], descriptor, second, b);
      LaterScanSeesCall(history[i], history[k], t, call, q);
    }
  }

  lemma OnlyResult(items: seq<Item>, c: string, r: nat)
    requires r < |items| && Selects(ResultsOf(c), items[r].kind)
    ensures UniqueToolResult(items, c).Ok? ==> UniqueToolResult(items, c) == Ok(Some(r))
  {
  }

  /** No other call of the adapter asks for this target. */
  ghost predicate FirstRequest(thread: Thread, q: Inquiry) {
    forall u, i :: InThread(thread, u, i) ==> !SameTarget(thread[u], thread[u].items[i].kind, q)
  }

  /** The target tool made the call, and it did not fail. */
  ghost predicate Succeeds(items: seq<Item>, c: string, tool: string) {
    forall i :: 0 <= i < |items| && CallOf(items[i].kind) == Some(c) ==>
      && (items[i].kind.ToolCall? ==> items[i].kind.name == tool)
      && (items[i].kind.ToolResult? ==> !items[i].kind.isError)
  }

  /** Every successful effect of a Turn that the completion check accepts can be
      compensated: the first validated request for it enters the provider. */
  lemma SettledEffectIsCompensable(thread: Thread, t: nat, descriptor: Descriptor, context: Context, request: CompensationRequest)
    requires ValidRequest(request) && ValidateCurrentCall(thread, context, descriptor.name, request).None?
    requires FindTurn(thread, request.targetTurn) == Ok(t) && SettledTurn(thread[t].items)
    requires Projection(thread[t].items, request.targetCall) != []
    requires Succeeds(thread[t].items, request.targetCall, descriptor.targetTool)
    requires FirstRequest(thread, Inquiry(context, descriptor.name, request))
    ensures EntersProvider(thread, descriptor, context, request)
  {
    hide SettledTurn, ValidateCurrentCall, Projection, ResolveOriginalEffect, FindTurn, ValidRequest, AuthorizationIndex;
    var q := Inquiry(context, descriptor.name, request);
    var items := thread[t].items;
    SettledEffectsResolve(thread, t, request, descriptor);
    var call := UniqueToolCall(items, request.targetCall).value;
    var result := UniqueToolResult(items, request.targetCall).value.value;
    assert Selects(ResultsOf(request.targetCall), items[result].kind);
    forall u, i ensures JudgeAt(thread, u, i, q).Irrelevant? {
    }
  }

  // ------------------------------------------------- in terms of the items alone

  /** Item `a` is what authorizes the call at `callIndex`: its one policy decision,
      which allows it, or the approval of the one request that repeats what the
      policy asked for. */
  ghost predicate Authorizes(items: seq<Item>, c: string, tool: string, callIndex: nat, a: nat) {
    exists p: nat :: OnlyAt(items, PoliciesOf(c), p) && callIndex < p && PolicyAuthorizes(items, c, tool, p, a)
  }

  ghost predicate PolicyAuthorizes(items: seq<Item>, c: string, tool: string, p: nat, a: nat)
    requires OnlyAt(items, PoliciesOf(c), p)
  {
    match items[p].kind.policy
    case Allow => a == p
    case Deny(_) => false
    case Ask(reason, risk) =>
      exists r: nat :: OnlyAt(items, RequestsOf(c), r) && p < r && ApprovalAuthorizes(items, c, tool, reason, risk, r, a)
  }

  ghost predicate ApprovalAuthorizes(items: seq<Item>, c: string, tool: string, reason: string, risk: Risk, r: nat, a: nat)
    requires OnlyAt(items, RequestsOf(c), r)
  {
    && items[r].kind.tool == tool && items[r].kind.reason == reason && items[r].kind.risk == risk
    && OnlyAt(items, DecisionsOf(c, items[r].kind.approvalId), a) && r < a
    && items[a].kind == ApprovalDecision(items[r].kind.approvalId, c, true)
  }

  lemma DecisionIsNamed(items: seq<Item>, c: string, approval: string, a: nat)
    requires OnlyAt(items, DecisionsOf(c, approval), a)
    ensures items[a].kind == ApprovalDecision(approval, c, items[a].kind.approve)
  {
  }

  lemma OnlyPosition(items: seq<Item>, q: Query, i: nat)
    ensures OnlyAt(items, q, i) <==> Positions(items, q) == [i]
  {
    PositionsCount(items, q);
    hide Positions, Selects;
    var found := Positions(items, q);
    if OnlyAt(items, q, i) {
      assert !Nowhere(items, q) && !Twice(items, q);
    }
  }

  lemma ApprovalIsExact(items: seq<Item>, c: string, tool: string, policyIndex: nat, reason: string, risk: Risk, a: nat)
    ensures ApprovalIndex(items, c, tool, policyIndex, reason, risk) == Ok(Some(a)) <==>
      exists r: nat :: OnlyAt(items, RequestsOf(c), r) && policyIndex < r && ApprovalAuthorizes(items, c, tool, reason, risk, r, a)
  {
    hide Positions, OnlyAt;
    forall r: nat ensures OnlyAt(items, RequestsOf(c), r) <==> Positions(items, RequestsOf(c)) == [r] {
      OnlyPosition(items, RequestsOf(c), r);
    }
    if |Positions(items, RequestsOf(c))| == 1 {
      var r := Positions(items, RequestsOf(c))[0];
      assert OnlyAt(items, RequestsOf(c), r);
      OnlyPosition(items, DecisionsOf(c, items[r].kind.approvalId), a);
      if OnlyAt(items, DecisionsOf(c, items[r].kind.approvalId), a) {
        DecisionIsNamed(items, c, items[r].kind.approvalId, a);
      }
    }
  }

  /** The search finds `a` if and only if `a` authorizes the call. */
  lemma AuthorizationIsExact(items: seq<Item>, c: string, tool: string, callIndex: nat, a: nat)
    ensures AuthorizationIndex(items, c, tool, callIndex) == Ok(Some(a)) <==> Authorizes(items, c, tool, callIndex, a)
  {
    hide Positions, OnlyAt, ApprovalIndex;
    forall p: nat ensures OnlyAt(items, PoliciesOf(c), p) <==> Positions(items, PoliciesOf(c)) == [p] {
      OnlyPosition(items, PoliciesOf(c), p);
    }
    if |Positions(items, PoliciesOf(c))| == 1 {
      var p := Positions(items, PoliciesOf(c))[0];
      assert OnlyAt(items, PoliciesOf(c), p);
      if items[p].kind.policy.Ask? {
        ApprovalIsExact(items, c, tool, p, items[p].kind.policy.reason, items[p].kind.policy.risk, a);
      }
    }
  }

  /** Nothing authorizes the call yet: there is no policy decision, it denies, or
      what it asks for is not requested, not decided or not approved. */
  ghost predicate Unauthorized(items: seq<Item>, c: string, tool: string, callIndex: nat) {
    || Nowhere(items, PoliciesOf(c))
    || exists p: nat :: OnlyAt(items, PoliciesOf(c), p) && callIndex < p
         && (items[p].kind.policy.Deny? || (items[p].kind.policy.Ask? && Unapproved(items, c, tool, p)))
  }

  ghost predicate Unapproved(items: seq<Item>, c: string, tool: string, p: nat)
    requires p < |items| && items[p].kind.PolicyDecision? && items[p].kind.policy.Ask?
  {
    || Nowhere(items, RequestsOf(c))
    || exists r: nat :: OnlyAt(items, RequestsOf(c), r) && p < r
         && items[r].kind.tool == tool && Ask(items[r].kind.reason, items[r].kind.risk) == items[p].kind.policy
         && NotApproved(items, c, r)
  }

  ghost predicate NotApproved(items: seq<Item>, c: string, r: nat)
    requires r < |items| && items[r].kind.ApprovalRequested?
  {
    var q := DecisionsOf(c, items[r].kind.approvalId);
    Nowhere(items, q) || exists d: nat :: OnlyAt(items, q, d) && r < d && !items[d].kind.approve
  }

  lemma PositionsTell(items: seq<Item>, q: Query)
    ensures Positions(items, q) == [] <==> Nowhere(items, q)
    ensures forall i: nat :: OnlyAt(items, q, i) <==> Positions(items, q) == [i]
  {
    PositionsCount(items, q);
    hide Positions, OnlyAt, Nowhere;
    forall i: nat ensures OnlyAt(items, q, i) <==> Positions(items, q) == [i] { OnlyPosition(items, q, i); }
  }

  lemma UnapprovedIsExact(items: seq<Item>, c: string, tool: string, p: nat)
    requires p < |items| && items[p].kind.PolicyDecision? && items[p].kind.policy.Ask?
    ensures ApprovalIndex(items, c, tool, p, items[p].kind.policy.reason, items[p].kind.policy.risk) == Ok(None) <==>
      Unapproved(items, c, tool, p)
  {
    hide Positions, OnlyAt, Nowhere;
    PositionsTell(items, RequestsOf(c));
    if |Positions(items, RequestsOf(c))| == 1 {
      var r := Positions(items, RequestsOf(c))[0];
      assert OnlyAt(items, RequestsOf(c), r);
      var q := DecisionsOf(c, items[r].kind.approvalId);
      PositionsTell(items, q);
      if |Positions(items, q)| == 1 { assert OnlyAt(items, q, Positions(items, q)[0]); }
    }
  }

  lemma UnauthorizedIsExact(items: seq<Item>, c: string, tool: string, callIndex: nat)
    ensures AuthorizationIndex(items, c, tool, callIndex) == Ok(None) <==> Unauthorized(items, c, tool, callIndex)
  {
    hide Positions, OnlyAt, Nowhere, ApprovalIndex, Unapproved;
    PositionsTell(items, PoliciesOf(c));
    if |Positions(items, PoliciesOf(c))| == 1 {
      var p := Positions(items, PoliciesOf(c))[0];
      assert OnlyAt(items, PoliciesOf(c), p);
      if items[p].kind.policy.Ask? { UnapprovedIsExact(items, c, tool, p); }
    }
  }

  /** Only turn `t` has this identity. */
  ghost predicate OnlyTurn(thread: Thread, id: string, t: nat) {
    t < |thread| && thread[t].id == id && forall u :: 0 <= u < |thread| && thread[u].id == id ==> u == t
  }

  lemma {:induction false} TurnsAreComplete(thread: Thread, id: string, t: nat)
    requires t < |thread| && thread[t].id == id
    ensures t in TurnsWith(thread, id)
  {
    if t < |thread| - 1 { TurnsAreComplete(thread[..|thread| - 1], id, t); }
  }

  lemma {:induction false} TurnsAscend(thread: Thread, id: string)
    ensures forall j, k :: 0 <= j < k < |TurnsWith(thread, id)| ==> TurnsWith(thread, id)[j] < TurnsWith(thread, id)[k]
  {
    if thread != [] { TurnsAscend(thread[..|thread| - 1], id); }
  }

  lemma FindTurnIsExact(thread: Thread, id: string, t: nat)
    ensures FindTurn(thread, id) == Ok(t) <==> OnlyTurn(thread, id, t)
  {
    var turns := TurnsWith(thread, id);
    TurnsAscend(thread, id);
    forall u: nat | u < |thread| && thread[u].id == id ensures u in turns { TurnsAreComplete(thread, id, u); }
    hide TurnsWith;
    if |turns| > 1 { assert thread[turns[0]].id == id && thread[turns[1]].id == id && turns[0] < turns[1]; }
  }

  /** The call that runs: the one call of the one running turn of the context, made
      by this tool with this very request, and authorized. */
  ghost predicate CurrentCall(thread: Thread, context: Context, tool: string, request: CompensationRequest, t: nat, i: nat) {
    && OnlyTurn(thread, context.turnId, t) && thread[t].status.Running?
    && OnlyAt(thread[t].items, CallsTo(context.callId), i)
    && thread[t].items[i].kind == ToolCall(context.callId, tool, RequestValue(request))
    && exists a: nat :: Authorizes(thread[t].items, context.callId, tool, i, a)
  }

  lemma CurrentCallIsExact(thread: Thread, context: Context, tool: string, request: CompensationRequest)
    ensures ValidateCurrentCall(thread, context, tool, request).None? <==>
      exists t: nat, i: nat :: CurrentCall(thread, context, tool, request, t, i)
  {
    hide FindTurn, OnlyTurn, UniqueToolCall, OnlyAt, AuthorizationIndex, Authorizes;
    forall t: nat ensures FindTurn(thread, context.turnId) == Ok(t) <==> OnlyTurn(thread, context.turnId, t) {
      FindTurnIsExact(thread, context.turnId, t);
    }
    if FindTurn(thread, context.turnId).Ok? {
      var t := FindTurn(thread, context.turnId).value;
      var items := thread[t].items;
      forall i: nat ensures UniqueToolCall(items, context.callId) == Ok(i) <==> OnlyAt(items, CallsTo(context.callId), i) {
        UniqueCallIsExact(items, context.callId, i);
      }
      if UniqueToolCall(items, context.callId).Ok? {
        var i := UniqueToolCall(items, context.callId).value;
        UniqueCallIsExact(items, context.callId, i);
        AuthorizedExactly(items, context.callId, tool, i);
        assert ValidateCurrentCall(thread, context, tool, request).None? ==> CurrentCall(thread, context, tool, request, t, i);
      }
    }
  }

  lemma UniqueCallIsExact(items: seq<Item>, c: string, i: nat)
    ensures UniqueToolCall(items, c) == Ok(i) <==> OnlyAt(items, CallsTo(c), i)
    ensures OnlyAt(items, CallsTo(c), i) ==> i < |items| && items[i].kind.ToolCall? && items[i].kind.callId == c
  {
  }

  lemma UniqueResultIsExact(items: seq<Item>, c: string, i: nat)
    ensures UniqueToolResult(items, c) == Ok(Some(i)) <==> OnlyAt(items, ResultsOf(c), i)
    ensures OnlyAt(items, ResultsOf(c), i) ==> i < |items| && items[i].kind.ToolResult? && items[i].kind.callId == c
  {
  }

  lemma AuthorizedExactly(items: seq<Item>, c: string, tool: string, i: nat)
    ensures var found := AuthorizationIndex(items, c, tool, i);
      && (found.Ok? && found.value.Some? <==> exists a: nat :: Authorizes(items, c, tool, i, a))
      && (found.Ok? && found.value.Some? ==> Authorizes(items, c, tool, i, found.value.value))
  {
    hide AuthorizationIndex, Authorizes;
    forall a: nat ensures AuthorizationIndex(items, c, tool, i) == Ok(Some(a)) <==> Authorizes(items, c, tool, i, a) {
      AuthorizationIsExact(items, c, tool, i, a);
    }
  }

  /** The effect to be compensated: the one call of the one target turn, made by the
      target tool and authorized, with one result after that, which is no error. */
  ghost predicate OriginalEffect(thread: Thread, descriptor: Descriptor, request: CompensationRequest, t: nat, i: nat, r: nat) {
    && OnlyTurn(thread, request.targetTurn, t)
    && OnlyAt(thread[t].items, CallsTo(request.targetCall), i) && thread[t].items[i].kind.name == descriptor.targetTool
    && OnlyAt(thread[t].items, ResultsOf(request.targetCall), r) && !thread[t].items[r].kind.isError
    && exists a: nat :: Authorizes(thread[t].items, request.targetCall, descriptor.targetTool, i, a) && a < r
  }

  /** That effect, with what was recorded of it. */
  ghost predicate EffectRecorded(thread: Thread, descriptor: Descriptor, request: CompensationRequest, t: nat, i: nat, r: nat,
                                 input: Value, output: Value)
  {
    && OriginalEffect(thread, descriptor, request, t, i, r)
    && input == thread[t].items[i].kind.input && output == thread[t].items[r].kind.output
  }

  lemma ResolutionIsExact(thread: Thread, descriptor: Descriptor, request: CompensationRequest, input: Value, output: Value)
    ensures ResolveOriginalEffect(thread, descriptor, request) == Ok((input, output)) <==>
      exists t: nat, i: nat, r: nat :: EffectRecorded(thread, descriptor, request, t, i, r, input, output)
  {
    hide FindTurn, OnlyTurn, UniqueToolCall, UniqueToolResult, OnlyAt, AuthorizationIndex, Authorizes;
    var c := request.targetCall;
    forall t: nat ensures FindTurn(thread, request.targetTurn) == Ok(t) <==> OnlyTurn(thread, request.targetTurn, t) {
      FindTurnIsExact(thread, request.targetTurn, t);
    }
    if FindTurn(thread, request.targetTurn).Ok? {
      var t := FindTurn(thread, request.targetTurn).value;
      var items := thread[t].items;
      forall i: nat ensures UniqueToolCall(items, c) == Ok(i) <==> OnlyAt(items, CallsTo(c), i) { UniqueCallIsExact(items, c, i); }
      forall r: nat ensures UniqueToolResult(items, c) == Ok(Some(r)) <==> OnlyAt(items, ResultsOf(c), r) {
        UniqueResultIsExact(items, c, r);
      }
      if UniqueToolCall(items, c).Ok? {
        var i := UniqueToolCall(items, c).value;
        UniqueCallIsExact(items, c, i);
        if items[i].kind.name == descriptor.targetTool {
          ResolutionOnItems(thread, descriptor, request, t, i, input, output);
        }
      }
    }
  }

  lemma ResolutionOnItems(thread: Thread, descriptor: Descriptor, request: CompensationRequest, t: nat, i: nat, input: Value, output: Value)
    requires FindTurn(thread, request.targetTurn) == Ok(t) && UniqueToolCall(thread[t].items, request.targetCall) == Ok(i)
    requires thread[t].items[i].kind.name == descriptor.targetTool
    ensures ResolveOriginalEffect(thread, descriptor, request) == Ok((input, output)) <==>
      exists r: nat :: EffectRecorded(thread, descriptor, request, t, i, r, input, output)
  {
    hide FindTurn, OnlyTurn, UniqueToolCall, UniqueToolResult, OnlyAt, AuthorizationIndex, Authorizes;
    var items, c := thread[t].items, request.targetCall;
    FindTurnIsExact(thread, request.targetTurn, t);
    UniqueCallIsExact(items, c, i);
    AuthorizedOnce(items, c, descriptor.targetTool, i);
    forall r: nat ensures UniqueToolResult(items, c) == Ok(Some(r)) <==> OnlyAt(items, ResultsOf(c), r) {
      UniqueResultIsExact(items, c, r);
    }
    if UniqueToolResult(items, c).Ok? && UniqueToolResult(items, c).value.Some? {
      var r := UniqueToolResult(items, c).value.value;
      assert OnlyAt(items, ResultsOf(c), r);
      UniqueResultIsExact(items, c, r);
      assert ResolveOriginalEffect(thread, descriptor, request) == Ok((input, output)) ==>
        EffectRecorded(thread, descriptor, request, t, i, r, input, output);
    }
  }

  lemma AuthorizedOnce(items: seq<Item>, c: string, tool: string, i: nat)
    ensures forall a: nat :: AuthorizationIndex(items, c, tool, i) == Ok(Some(a)) <==> Authorizes(items, c, tool, i, a)
  {
    hide AuthorizationIndex, Authorizes;
    forall a: nat ensures AuthorizationIndex(items, c, tool, i) == Ok(Some(a)) <==> Authorizes(items, c, tool, i, a) {
      AuthorizationIsExact(items, c, tool, i, a);
    }
  }

  /** Item `i` of turn `u` is another call of this tool for the same target. */
  ghost predicate Rival(thread: Thread, q: Inquiry, u: int, i: int) {
    && 0 <= u < |thread| && 0 <= i < |thread[u].items|
    && var kind := thread[u].items[i].kind;
       && kind.ToolCall? && kind.name == q.tool && kind.input.RequestValue?
       && kind.input.request.targetTurn == q.request.targetTurn && kind.input.request.targetCall == q.request.targetCall
       && (thread[u].id != q.context.turnId || kind.callId != q.context.callId)
  }

  /** A rival with the same key whose one result is recorded after its
      authorization and is no error. */
  ghost predicate RecordedSuccess(thread: Thread, q: Inquiry, u: int, i: int, output: Value) {
    && Rival(thread, q, u, i)
    && var items, c := thread[u].items, thread[u].items[i].kind.callId;
       && items[i].kind.input.request.key == q.request.key
       && exists a: nat, r: nat :: Authorizes(items, c, q.tool, i, a) && OnlyAt(items, ResultsOf(c), r) && a < r
            && !items[r].kind.isError && items[r].kind.output == output
  }

  /** A rival that forbids any new compensation: its results or its authorization
      are ambiguous, it has a result without being authorized or not after that, or
      it used another key. */
  ghost predicate Objection(thread: Thread, q: Inquiry, u: int, i: int) {
    && Rival(thread, q, u, i)
    && var items, c := thread[u].items, thread[u].items[i].kind.callId;
       || Twice(items, ResultsOf(c))
       || (!Unauthorized(items, c, q.tool, i) && forall a: nat :: !Authorizes(items, c, q.tool, i, a))
       || (Unauthorized(items, c, q.tool, i) && !Nowhere(items, ResultsOf(c)))
       || (exists a: nat :: Authorizes(items, c, q.tool, i, a)
             && (items[i].kind.input.request.key != q.request.key
                 || exists r: nat :: OnlyAt(items, ResultsOf(c), r) && r <= a))
  }

  /** The scan's judgements, in terms of the items alone. */
  lemma JudgementsAreExact(thread: Thread, q: Inquiry, u: int, i: int)
    ensures JudgeAt(thread, u, i, q).Refused? <==> Objection(thread, q, u, i)
    ensures forall output :: JudgeAt(thread, u, i, q) == Succeeded(output) <==>
      !Objection(thread, q, u, i) && RecordedSuccess(thread, q, u, i, output)
  {
    hide UniqueToolResult, OnlyAt, AuthorizationIndex, Authorizes, Unauthorized, Nowhere, Twice;
    if Rival(thread, q, u, i) {
      var items, c := thread[u].items, thread[u].items[i].kind.callId;
      AuthorizedOnce(items, c, q.tool, i);
      UnauthorizedIsExact(items, c, q.tool, i);
      forall r: nat ensures UniqueToolResult(items, c) == Ok(Some(r)) <==> OnlyAt(items, ResultsOf(c), r) {
        UniqueResultIsExact(items, c, r);
      }
      ResultCases(items, c);
      if UniqueToolResult(items, c).Ok? && UniqueToolResult(items, c).value.Some? {
        var r := UniqueToolResult(items, c).value.value;
        assert OnlyAt(items, ResultsOf(c), r);
      }
    }
  }

  lemma ResultCases(items: seq<Item>, c: string)
    ensures UniqueToolResult(items, c) == Ok(None) <==> Nowhere(items, ResultsOf(c))
    ensures UniqueToolResult(items, c).Err? <==> Twice(items, ResultsOf(c))
  {
  }

  /** The last recorded success for the target: no rival after it has one. */
  ghost predicate LastSuccess(thread: Thread, q: Inquiry, u: int, i: int, output: Value) {
    && RecordedSuccess(thread, q, u, i, output)
    && forall v, j, other :: Earlier(u, i, v, j) ==> !RecordedSuccess(thread, q, v, j, other)
  }

  /** What the scan answers with is the output of the last recorded success. */
  lemma AnswerIsRecordedSuccess(thread: Thread, q: Inquiry, output: Value)
    requires Unrefused(thread, q, |thread|, 0) && LastAnswer(thread, q, |thread|, 0, output)
    ensures exists u, i :: LastSuccess(thread, q, u, i, output)
  {
    hide Judge, Objection, RecordedSuccess;
    var u, i :| AnswersAt(thread, q, u, i, output) && Earlier(u, i, |thread|, 0)
      && forall v, j :: Earlier(u, i, v, j) && Earlier(v, j, |thread|, 0) ==> !JudgeAt(thread, v, j, q).Succeeded?;
    JudgementsAreExact(thread, q, u, i);
    forall v, j, other | Earlier(u, i, v, j) ensures !RecordedSuccess(thread, q, v, j, other) {
      JudgementsAreExact(thread, q, v, j);
      if v < |thread| {
        assert Earlier(v, j, |thread|, 0);
        assert !JudgeAt(thread, v, j, q).Refused?;
      } else {
        SuccessIsInThread(thread, q, v, j, other);
      }
    }
    assert LastSuccess(thread, q, u, i, output);
  }

  lemma SuccessIsInThread(thread: Thread, q: Inquiry, v: int, j: int, output: Value)
    ensures RecordedSuccess(thread, q, v, j, output) ==> v < |thread|
  {
  }

  ghost predicate NoObjection(thread: Thread, q: Inquiry) {
    forall u, i :: !Objection(thread, q, u, i)
  }

  ghost predicate NoSuccess(thread: Thread, q: Inquiry) {
    forall u, i, output :: !RecordedSuccess(thread, q, u, i, output)
  }

  lemma ScanIsExact(thread: Thread, q: Inquiry)
    ensures Unrefused(thread, q, |thread|, 0) <==> NoObjection(thread, q)
    ensures NoObjection(thread, q) ==> (Unanswered(thread, q, |thread|, 0) <==> NoSuccess(thread, q))
  {
    hide Judge, Objection, RecordedSuccess;
    forall u, i
      ensures JudgeAt(thread, u, i, q).Refused? <==> Objection(thread, q, u, i)
      ensures JudgeAt(thread, u, i, q).Irrelevant? || Earlier(u, i, |thread|, 0)
    {
      JudgementsAreExact(thread, q, u, i);
    }
    if NoObjection(thread, q) {
      forall u, i, output ensures JudgeAt(thread, u, i, q) == Succeeded(output) <==> RecordedSuccess(thread, q, u, i, output) {
        JudgementsAreExact(thread, q, u, i);
      }
      if Unanswered(thread, q, |thread|, 0) {
        forall u, i, output ensures !RecordedSuccess(thread, q, u, i, output) {
          assert !JudgeAt(thread, u, i, q).Succeeded?;
        }
      }
    }
  }

  lemma ResolvesIff(thread: Thread, descriptor: Descriptor, request: CompensationRequest)
    ensures ResolveOriginalEffect(thread, descriptor, request).Ok? <==>
      exists t: nat, i: nat, r: nat :: OriginalEffect(thread, descriptor, request, t, i, r)
  {
    hide ResolveOriginalEffect, OriginalEffect;
    var found := ResolveOriginalEffect(thread, descriptor, request);
    if found.Ok? {
      ResolutionIsExact(thread, descriptor, request, found.value.0, found.value.1);
    }
    if t: nat, i: nat, r: nat :| OriginalEffect(thread, descriptor, request, t, i, r) {
      EffectParts(thread, descriptor, request, t, i, r);
      var input, output := thread[t].items[i].kind.input, thread[t].items[r].kind.output;
      assert EffectRecorded(thread, descriptor, request, t, i, r, input, output);
      ResolutionIsExact(thread, descriptor, request, input, output);
    }
  }

  lemma EffectParts(thread: Thread, descriptor: Descriptor, request: CompensationRequest, t: nat, i: nat, r: nat)
    requires OriginalEffect(thread, descriptor, request, t, i, r)
    ensures t < |thread| && i < |thread[t].items| && thread[t].items[i].kind.ToolCall?
    ensures r < |thread[t].items| && thread[t].items[r].kind.ToolResult?
  {
  }

  /** The provider is entered if and only if the request is well formed, the current
      call is the authorized call it was recorded with, the target is an effect that
      happened, and no other call for the target objects or has succeeded. */
  lemma EntersProviderIff(thread: Thread, descriptor: Descriptor, context: Context, request: CompensationRequest)
    ensures EntersProvider(thread, descriptor, context, request) <==>
      && ValidRequest(request)
      && (exists t: nat, i: nat :: CurrentCall(thread, context, descriptor.name, request, t, i))
      && (exists t: nat, i: nat, r: nat :: OriginalEffect(thread, descriptor, request, t, i, r))
      && NoObjection(thread, Inquiry(context, descriptor.name, request))
      && NoSuccess(thread, Inquiry(context, descriptor.name, request))
  {
    hide ValidateCurrentCall, ResolveOriginalEffect, Unrefused, Unanswered, CurrentCall, OriginalEffect, NoObjection, NoSuccess,
         ValidRequest;
    CurrentCallIsExact(thread, context, descriptor.name, request);
    ResolvesIff(thread, descriptor, request);
    ScanIsExact(thread, Inquiry(context, descriptor.name, request));
  }
}
