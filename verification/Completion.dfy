/** When a Turn may complete: the one-pass check of its tool and approval evidence
    against a declarative language, and the completion receipt that pins it. */
module Completion {
  import opened Support
  import opened Items

  // ------------------------------------------------------------- the language

  /** The three lives of a settled tool call: refused before any policy with an
      error; allowed; or asked about, requested exactly so, approved. */
  predicate ErrorWord(p: seq<Located>) {
    && |p| == 2 && p[0].kind.ToolCall?
    && p[1].kind.ToolResult? && p[1].kind.isError
  }

  predicate AllowWord(p: seq<Located>) {
    && |p| == 3 && p[0].kind.ToolCall?
    && p[1].kind.PolicyDecision? && p[1].kind.policy.Allow?
    && p[2].kind.ToolResult?
  }

  predicate AskWord(p: seq<Located>) {
    && |p| == 5 && p[0].kind.ToolCall?
    && p[1].kind.PolicyDecision? && p[1].kind.policy.Ask?
    && p[2].kind.ApprovalRequested? && p[2].kind.tool == p[0].kind.name
    && p[2].kind.reason == p[1].kind.policy.reason && p[2].kind.risk == p[1].kind.policy.risk
    && p[3].kind.ApprovalDecision? && p[3].kind.approvalId == p[2].kind.approvalId && p[3].kind.approve
    && p[4].kind.ToolResult?
  }

  predicate Word(p: seq<Located>) {
    ErrorWord(p) || AllowWord(p) || AskWord(p)
  }

  ghost predicate ApprovalsDistinct(items: seq<Item>) {
    forall i, j :: 0 <= i < j < |items| && items[i].kind.ApprovalRequested? && items[j].kind.ApprovalRequested? ==>
      items[i].kind.approvalId != items[j].kind.approvalId
  }

  /** Every mentioned call lives one of the three lives, and no approval identity
      is requested twice. */
  ghost predicate SettledTurn(items: seq<Item>) {
    && (forall c :: Projection(items, c) == [] || Word(Projection(items, c)))
    && ApprovalsDistinct(items)
  }

  // ------------------------------------------------------------ the automaton

  datatype CallSettlement = CallSettlement(
    tool: string, policy: Option<Policy>, approvalId: Option<string>, approved: bool, resultIsError: Option<bool>)

  datatype Rejection =
    | DuplicateCall | OrphanPolicy | MisplacedPolicy | OrphanRequest | MismatchedRequest | DuplicateApproval
    | OrphanDecision | DuplicateDecision | DeniedApproval | OrphanResult | DuplicateResult | DeniedPolicy | UnsettledResult
    | MissingResult | AllowWithApproval | AskWithoutApproval | DeniedCompletion | SuccessWithoutPolicy

  datatype Verdict = Accepted | Rejected(why: Rejection)

  /** A result closes its call only once policy and approval are settled. */
  predicate MayClose(call: CallSettlement, isError: bool) {
    match call.policy
    case Some(Allow) => call.approvalId.None?
    case Some(Ask(_, _)) => call.approvalId.Some? && call.approved
    case Some(Deny(_)) => false
    case None => isError && call.approvalId.None?
  }

  /** What one call has been through: the automaton restricted to that call. */
  datatype Track = Untouched | Tracked(call: CallSettlement) | Broken

  function Follow(track: Track, kind: ItemKind): Track {
    match kind
    case ToolCall(_, name, _) =>
      if track.Untouched? then Tracked(CallSettlement(name, None, None, false, None)) else Broken
    case PolicyDecision(_, policy) =>
      if track.Tracked? && track.call.policy.None? && track.call.resultIsError.None?
      then Tracked(track.call.(policy := Some(policy))) else Broken
    case ApprovalRequested(approvalId, _, tool, reason, risk) =>
      if track.Tracked? && track.call.policy == Some(Ask(reason, risk)) && track.call.tool == tool
         && track.call.approvalId.None? && track.call.resultIsError.None?
      then Tracked(track.call.(approvalId := Some(approvalId))) else Broken
    case ApprovalDecision(approvalId, _, approve) =>
      if track.Tracked? && track.call.approvalId == Some(approvalId) && !track.call.approved
         && track.call.resultIsError.None? && approve
      then Tracked(track.call.(approved := true)) else Broken
    case ToolResult(_, _, isError, _) =>
      if track.Tracked? && track.call.resultIsError.None? && MayClose(track.call, isError)
      then Tracked(track.call.(resultIsError := Some(isError))) else Broken
    case _ => track
  }

  function TrackOf(p: seq<Located>): Track {
    if p == [] then Untouched else Follow(TrackOf(p[..|p| - 1]), p[|p| - 1].kind)
  }

  lemma {:induction false} BrokenForever(p: seq<Located>, q: seq<Located>)
    requires p <= q && TrackOf(p).Broken?
    requires forall k :: 0 <= k < |q| ==> CallOf(q[k].kind).Some?
    ensures TrackOf(q).Broken?
  {
    if |p| < |q| {
      BrokenForever(p, q[..|q| - 1]);
    } else {
      assert p == q;
    }
  }

  // ------------------------------------ the automaton accepts exactly the words

  /** What an unfinished track has read. */
  predicate Reads(p: seq<Located>, call: CallSettlement) {
    && 1 <= |p| && p[0].kind.ToolCall? && call.tool == p[0].kind.name
    && (call.approvalId.None? ==> !call.approved)
    && (call.policy.None? ==> |p| == 1 && call.approvalId.None?)
    && (call.policy.Some? ==>
          && |p| == (if call.approvalId.None? then 2 else if call.approved then 4 else 3)
          && p[1].kind.PolicyDecision? && p[1].kind.policy == call.policy.value)
    && (call.approvalId.Some? ==>
          && call.policy.Some? && call.policy.value.Ask?
          && p[2].kind.ApprovalRequested? && p[2].kind.approvalId == call.approvalId.value
          && p[2].kind.tool == call.tool && Ask(p[2].kind.reason, p[2].kind.risk) == call.policy.value)
    && (call.approved ==>
          p[3].kind.ApprovalDecision? && p[3].kind.approvalId == call.approvalId.value && p[3].kind.approve)
  }

  lemma {:induction false} TrackReads(p: seq<Located>)
    requires forall k :: 0 <= k < |p| ==> CallOf(p[k].kind).Some?
    ensures TrackOf(p).Untouched? <==> p == []
    ensures TrackOf(p).Tracked? && TrackOf(p).call.resultIsError.None? ==> Reads(p, TrackOf(p).call)
    ensures TrackOf(p).Tracked? && TrackOf(p).call.resultIsError.Some? ==> Word(p)
  {
    if p != [] { TrackReads(p[..|p| - 1]); }
  }

  lemma WordTracks(p: seq<Located>)
    requires Word(p)
    ensures TrackOf(p).Tracked? && TrackOf(p).call.resultIsError.Some?
  {
    assert p[..1][..0] == [] && p[..2][..1] == p[..1];
    assert TrackOf(p[..1]) == Follow(Untouched, p[0].kind);
    assert TrackOf(p[..2]) == Follow(TrackOf(p[..1]), p[1].kind);
    if |p| == 2 {
      assert p[..2] == p;
    } else {
      assert p[..3][..2] == p[..2];
      assert TrackOf(p[..3]) == Follow(TrackOf(p[..2]), p[2].kind);
      if |p| == 3 {
        assert p[..3] == p;
      } else {
        assert p[..4][..3] == p[..3];
        assert TrackOf(p[..4]) == Follow(TrackOf(p[..3]), p[3].kind);
        assert p[..|p| - 1] == p[..4];
      }
    }
  }

  // ------------------------------------------------- the one-pass validator

  type Calls = map<string, CallSettlement>

  function TrackIn(calls: Calls, c: string): Track {
    if c in calls then Tracked(calls[c]) else Untouched
  }

  /** The map of calls is the automaton run on every projection at once. */
  ghost predicate CallsFollow(calls: Calls, items: seq<Item>) {
    forall c :: TrackOf(Projection(items, c)) == TrackIn(calls, c)
  }

  ghost predicate Requested(items: seq<Item>, a: string) {
    exists i :: 0 <= i < |items| && items[i].kind.ApprovalRequested? && items[i].kind.approvalId == a
  }

  /** A finished call that the first pass let through. */
  predicate Finished(call: CallSettlement) {
    call.resultIsError.Some? ==> MayClose(call, call.resultIsError.value)
  }

  lemma {:induction false} TrackedIsFinished(p: seq<Located>)
    requires forall k :: 0 <= k < |p| ==> CallOf(p[k].kind).Some?
    ensures TrackOf(p).Tracked? ==> Finished(TrackOf(p).call)
  {
    if p != [] { TrackedIsFinished(p[..|p| - 1]); }
  }

  /** The two maps point at each other. */
  ghost predicate Paired(approvals: map<string, string>, calls: Calls) {
    && (forall a :: a in approvals ==> approvals[a] in calls && calls[approvals[a]].approvalId == Some(a))
    && (forall c :: c in calls && calls[c].approvalId.Some? ==>
          calls[c].approvalId.value in approvals && approvals[calls[c].approvalId.value] == c)
  }

  /** One item of the first pass. It updates the entry of its own call as the
      automaton of that call does, and refuses exactly when that automaton breaks
      or an approval identity comes again. */
  method ReadItem(calls: Calls, approvals: map<string, string>, kind: ItemKind)
    returns (verdict: Verdict, nextCalls: Calls, nextApprovals: map<string, string>)
    requires Paired(approvals, calls)
    ensures CallOf(kind).None? ==> verdict.Accepted? && nextCalls == calls && nextApprovals == approvals
    ensures CallOf(kind).Some? ==>
      var c := CallOf(kind).value; var track := Follow(TrackIn(calls, c), kind);
      && (verdict.Accepted? <==> track.Tracked? && !(kind.ApprovalRequested? && kind.approvalId in approvals))
      && (verdict.Accepted? ==>
            && nextCalls == calls[c := track.call]
            && nextApprovals == if kind.ApprovalRequested? then approvals[kind.approvalId := c] else approvals)
    ensures verdict.Rejected? ==> FirstPass(verdict.why)
  {
    verdict, nextCalls, nextApprovals := Accepted, calls, approvals;
    match kind
    case ToolCall(callId, name, _) =>
      if callId in calls { verdict := Rejected(DuplicateCall); }
      else { nextCalls := calls[callId := CallSettlement(name, None, None, false, None)]; }
    case PolicyDecision(callId, policy) =>
      if callId !in calls { verdict := Rejected(OrphanPolicy); }
      else if calls[callId].policy.Some? || calls[callId].resultIsError.Some? { verdict := Rejected(MisplacedPolicy); }
      else { nextCalls := calls[callId := calls[callId].(policy := Some(policy))]; }
    case ApprovalRequested(approvalId, callId, tool, reason, risk) =>
      if callId !in calls { verdict := Rejected(OrphanRequest); }
      else if calls[callId].policy != Some(Ask(reason, risk)) || calls[callId].tool != tool
           || calls[callId].approvalId.Some? || calls[callId].resultIsError.Some? { verdict := Rejected(MismatchedRequest); }
      else if approvalId in approvals { verdict := Rejected(DuplicateApproval); }
      else {
        nextApprovals := approvals[approvalId := callId];
        nextCalls := calls[callId := calls[callId].(approvalId := Some(approvalId))];
      }
    case ApprovalDecision(approvalId, callId, approve) =>
      if approvalId !in approvals || approvals[approvalId] != callId { verdict := Rejected(OrphanDecision); }
      else if calls[callId].approvalId != Some(approvalId) || calls[callId].approved
           || calls[callId].resultIsError.Some? { verdict := Rejected(DuplicateDecision); }
      else if !approve { verdict := Rejected(DeniedApproval); }
      else { nextCalls := calls[callId := calls[callId].(approved := true)]; }
    case ToolResult(callId, _, isError, _) =>
      if callId !in calls { verdict := Rejected(OrphanResult); }
      else if calls[callId].resultIsError.Some? { verdict := Rejected(DuplicateResult); }
      else if calls[callId].policy.Some? && calls[callId].policy.value.Deny? { verdict := Rejected(DeniedPolicy); }
      else if !MayClose(calls[callId], isError) { verdict := Rejected(UnsettledResult); }
      else { nextCalls := calls[callId := calls[callId].(resultIsError := Some(isError))]; }
    case _ =>
  }

  predicate FirstPass(why: Rejection) {
    !(why.MissingResult? || why.AllowWithApproval? || why.AskWithoutApproval? || why.DeniedCompletion?
      || why.SuccessWithoutPolicy?)
  }

  /** One call of the second pass. */
  method CheckCall(call: CallSettlement) returns (verdict: Verdict)
    ensures Finished(call) ==> verdict == if call.resultIsError.None? then Rejected(MissingResult) else Accepted
  {
    if call.resultIsError.None? {
      return Rejected(MissingResult);
    }
    match call.policy
    case Some(Allow) => return if call.approvalId.None? then Accepted else Rejected(AllowWithApproval);
    case Some(Ask(_, _)) =>
      return if call.approvalId.Some? && call.approved then Accepted else Rejected(AskWithoutApproval);
    case Some(Deny(_)) => return Rejected(DeniedCompletion);
    case None =>
      return if call.resultIsError.value && call.approvalId.None? then Accepted else Rejected(SuccessWithoutPolicy);
  }

  // ------------------------------------------------------ steps of the first pass

  lemma ProjectionGrows(items: seq<Item>, i: nat, c: string)
    requires i < |items|
    ensures TrackOf(Projection(items[..i + 1], c)) ==
      if CallOf(items[i].kind) == Some(c) then Follow(TrackOf(Projection(items[..i], c)), items[i].kind)
      else TrackOf(Projection(items[..i], c))
  {
    assert items[..i + 1][..i] == items[..i];
    if CallOf(items[i].kind) == Some(c) {
      var p := Projection(items[..i + 1], c);
      assert p[..|p| - 1] == Projection(items[..i], c);
    } else {
      assert Projection(items[..i + 1], c) == Projection(items[..i], c);
    }
  }

  lemma CallsKeepFollowing(calls: Calls, next: Calls, items: seq<Item>, i: nat)
    requires i < |items| && CallsFollow(calls, items[..i])
    requires CallOf(items[i].kind).None? ==> next == calls
    requires CallOf(items[i].kind).Some? ==>
      var c := CallOf(items[i].kind).value;
      Follow(TrackIn(calls, c), items[i].kind).Tracked? && next == calls[c := Follow(TrackIn(calls, c), items[i].kind).call]
    ensures CallsFollow(next, items[..i + 1])
  {
    hide Follow, CallOf;
    forall c ensures TrackOf(Projection(items[..i + 1], c)) == TrackIn(next, c) {
      ProjectionGrows(items, i, c);
      assert TrackOf(Projection(items[..i], c)) == TrackIn(calls, c);
    }
  }

  /** A call whose automaton breaks on a prefix is no word of the whole log. */
  lemma BrokenCallIsNoWord(items: seq<Item>, i: nat, c: string)
    requires i < |items| && TrackOf(Projection(items[..i + 1], c)).Broken?
    ensures !SettledTurn(items)
  {
    ProjectionOfPrefix(items, c, i + 1);
    ProjectionIsFaithful(items, c);
    BrokenForever(Projection(items[..i + 1], c), Projection(items, c));
    if Word(Projection(items, c)) { WordTracks(Projection(items, c)); }
  }

  ghost predicate ApprovalsKnown(approvals: map<string, string>, items: seq<Item>) {
    && (forall i :: 0 <= i < |items| && items[i].kind.ApprovalRequested? ==> items[i].kind.approvalId in approvals)
    && (forall a :: a in approvals ==> Requested(items, a))
  }

  lemma ApprovalsKeepKnown(approvals: map<string, string>, next: map<string, string>, items: seq<Item>, i: nat)
    requires i < |items| && ApprovalsKnown(approvals, items[..i]) && ApprovalsDistinct(items[..i])
    requires !items[i].kind.ApprovalRequested? ==> next == approvals
    requires items[i].kind.ApprovalRequested? ==>
      items[i].kind.approvalId !in approvals && next == approvals[items[i].kind.approvalId := items[i].kind.callId]
    ensures ApprovalsKnown(next, items[..i + 1]) && ApprovalsDistinct(items[..i + 1])
  {
    assert items[..i + 1] == items[..i] + [items[i]];
    forall a | a in next ensures Requested(items[..i + 1], a) {
      if a in approvals {
        var k :| 0 <= k < i && items[..i][k].kind.ApprovalRequested? && items[..i][k].kind.approvalId == a;
        assert items[..i + 1][k].kind.approvalId == a;
      } else {
        assert items[..i + 1][i].kind.approvalId == a;
      }
    }
  }

  lemma RepeatedApproval(approvals: map<string, string>, items: seq<Item>, i: nat)
    requires i < |items| && ApprovalsKnown(approvals, items[..i])
    requires items[i].kind.ApprovalRequested? && items[i].kind.approvalId in approvals
    ensures !SettledTurn(items)
  {
    var a := items[i].kind.approvalId;
    assert Requested(items[..i], a);
    var k :| 0 <= k < i && items[..i][k].kind.ApprovalRequested? && items[..i][k].kind.approvalId == a;
    assert items[k].kind.ApprovalRequested? && items[k].kind.approvalId == items[i].kind.approvalId;
  }

  lemma PairsStayPaired(approvals: map<string, string>, calls: Calls, kind: ItemKind)
    requires Paired(approvals, calls) && CallOf(kind).Some?
    requires Follow(TrackIn(calls, CallOf(kind).value), kind).Tracked?
    requires !(kind.ApprovalRequested? && kind.approvalId in approvals)
    ensures Paired(if kind.ApprovalRequested? then approvals[kind.approvalId := kind.callId] else approvals,
                   calls[CallOf(kind).value := Follow(TrackIn(calls, CallOf(kind).value), kind).call])
  {
  }

  lemma AllFinished(calls: Calls, items: seq<Item>, c: string)
    requires CallsFollow(calls, items) && c in calls
    ensures Finished(calls[c])
    ensures Word(Projection(items, c)) <==> calls[c].resultIsError.Some?
    ensures Projection(items, c) != []
  {
    var p := Projection(items, c);
    ProjectionIsFaithful(items, c);
    TrackedIsFinished(p);
    TrackReads(p);
    if Word(p) { WordTracks(p); }
  }

  lemma UnmentionedIsEmpty(calls: Calls, items: seq<Item>, c: string)
    requires CallsFollow(calls, items) && c !in calls
    ensures Projection(items, c) == []
  {
    ProjectionIsFaithful(items, c);
    TrackReads(Projection(items, c));
  }

  /** Accepts exactly the settled Turns. After the first pass only a missing result
      is left to find. */
  method ValidateSettledToolsAndApprovals(items: seq<Item>) returns (verdict: Verdict)
    ensures verdict.Accepted? <==> SettledTurn(items)
    ensures verdict.Rejected? ==> FirstPass(verdict.why) || verdict.why == MissingResult
  {
    hide Follow, SettledTurn, Word, FirstPass, Projection, TrackOf, CallsFollow, Paired, ApprovalsKnown, ApprovalsDistinct;
    hide Finished, CallOf;
    var calls: Calls, approvals: map<string, string> := map[], map[];
    NothingFollows(items);
    var i := 0;
    while i < |items|
      invariant 0 <= i <= |items|
      invariant CallsFollow(calls, items[..i]) && Paired(approvals, calls)
      invariant ApprovalsKnown(approvals, items[..i]) && ApprovalsDistinct(items[..i])
    {
      var kind := items[i].kind;
      ghost var before := calls;
      var read, nextCalls, nextApprovals := ReadItem(calls, approvals, kind);
      if read.Rejected? {
        RejectionIsSound(calls, approvals, items, i);
        return read;
      }
      ReadingKeeps(calls, approvals, nextCalls, nextApprovals, items, i);
      calls, approvals := nextCalls, nextApprovals;
      i := i + 1;
    }
    assert items[..i] == items;
    var rest := calls.Keys;
    while rest != {}
      invariant rest <= calls.Keys
      invariant forall c :: c in calls.Keys - rest ==> Word(Projection(items, c))
      decreases rest
    {
      var c :| c in rest;
      AllFinished(calls, items, c);
      verdict := CheckCall(calls[c]);
      if verdict.Rejected? {
        MissingIsUnsettled(items, c);
        return;
      }
      rest := rest - {c};
    }
    AllWordsSettle(calls, items);
    verdict := Accepted;
  }

  lemma NothingFollows(items: seq<Item>)
    ensures CallsFollow(map[], items[..0]) && Paired(map[], map[])
    ensures ApprovalsKnown(map[], items[..0]) && ApprovalsDistinct(items[..0])
  {
  }

  lemma RejectionIsSound(calls: Calls, approvals: map<string, string>, items: seq<Item>, i: nat)
    requires i < |items| && CallsFollow(calls, items[..i]) && ApprovalsKnown(approvals, items[..i])
    requires CallOf(items[i].kind).Some?
    requires var kind := items[i].kind;
      !Follow(TrackIn(calls, CallOf(kind).value), kind).Tracked? || (kind.ApprovalRequested? && kind.approvalId in approvals)
    ensures !SettledTurn(items)
  {
    var kind := items[i].kind;
    var c := CallOf(kind).value;
    if kind.ApprovalRequested? && kind.approvalId in approvals {
      RepeatedApproval(approvals, items, i);
    } else {
      ProjectionGrows(items, i, c);
      assert TrackOf(Projection(items[..i], c)) == TrackIn(calls, c);
      BrokenCallIsNoWord(items, i, c);
    }
  }

  lemma ReadingKeeps(calls: Calls, approvals: map<string, string>, nextCalls: Calls, nextApprovals: map<string, string>,
                     items: seq<Item>, i: nat)
    requires i < |items| && CallsFollow(calls, items[..i]) && Paired(approvals, calls)
    requires ApprovalsKnown(approvals, items[..i]) && ApprovalsDistinct(items[..i])
    requires CallOf(items[i].kind).None? ==> nextCalls == calls && nextApprovals == approvals
    requires CallOf(items[i].kind).Some? ==>
      var kind := items[i].kind; var c := CallOf(kind).value; var track := Follow(TrackIn(calls, c), kind);
      && track.Tracked? && !(kind.ApprovalRequested? && kind.approvalId in approvals)
      && nextCalls == calls[c := track.call]
      && nextApprovals == if kind.ApprovalRequested? then approvals[kind.approvalId := c] else approvals
    ensures CallsFollow(nextCalls, items[..i + 1]) && Paired(nextApprovals, nextCalls)
    ensures ApprovalsKnown(nextApprovals, items[..i + 1]) && ApprovalsDistinct(items[..i + 1])
  {
    hide Follow, CallsFollow, Paired, ApprovalsKnown, ApprovalsDistinct;
    CallsKeepFollowing(calls, nextCalls, items, i);
    ApprovalsKeepKnown(approvals, nextApprovals, items, i);
    if CallOf(items[i].kind).Some? {
      PairsStayPaired(approvals, calls, items[i].kind);
    }
  }

  lemma MissingIsUnsettled(items: seq<Item>, c: string)
    requires Projection(items, c) != [] && !Word(Projection(items, c))
    ensures !SettledTurn(items)
  {
  }

  lemma AllWordsSettle(calls: Calls, items: seq<Item>)
    requires CallsFollow(calls, items) && ApprovalsDistinct(items)
    requires forall c :: c in calls ==> Word(Projection(items, c))
    ensures SettledTurn(items)
  {
    hide CallsFollow, Word, Projection;
    forall c ensures Projection(items, c) == [] || Word(Projection(items, c)) {
      if c !in calls { UnmentionedIsEmpty(calls, items, c); }
    }
  }
}
