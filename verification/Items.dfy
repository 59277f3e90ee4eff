/** The records of the kernel that several readers share: the append-only item log
    of a Turn, the Turn with its completion receipt, and the part of a log that
    concerns one tool call. */
module Items {
  import opened Support
  import JsonShape

  datatype CompensationRequest = CompensationRequest(targetTurn: string, targetCall: string, key: string)

  /** A JSON value, as far as it is looked into: either it decodes as a
      compensation request, or it does not. */
  datatype Value = RequestValue(request: CompensationRequest) | OtherValue(text: string)

  datatype Origin = BuiltIn | TrustedExtension(id: string) | External(id: string)

  predicate ValidOrigin(origin: Origin) {
    origin.BuiltIn? || ValidIdentity(origin.id)
  }

  datatype Risk = Low | Medium | High | Critical

  datatype Policy = Allow | Deny(reason: string) | Ask(reason: string, risk: Risk)

  datatype ItemKind =
    | UserMessage(content: string)
    | SteeringQueued(steeringId: string, content: string)
    | SteeringApplied(steeringId: string, content: string)
    | AssistantMessage(modelId: Option<string>, modelOrigin: Option<Origin>, requestSha256: Option<string>, content: string)
    | ProviderContinuation(capsule: string)
    | ToolCall(callId: string, name: string, input: Value)
    | PolicyDecision(callId: string, policy: Policy)
    | ApprovalRequested(approvalId: string, callId: string, tool: string, reason: string, risk: Risk)
    | ApprovalDecision(approvalId: string, callId: string, approve: bool)
    | ToolResult(callId: string, output: Value, isError: bool, evidence: seq<string>)
    | VerificationResult(verifier: string, candidate: Option<string>, origin: Option<Origin>,
                         bindingSha256: Option<string>, passed: bool)
    | ExecutionBinding(boundBy: string, tenant: Option<string>, coordinate: string)
    | RuntimeRecord(text: string)          // waits, memory, context, errors and stops

  datatype Item = Item(id: string, createdAt: u64, kind: ItemKind)

  // -------------------------------------------------------------------- Turns

  datatype VerifierBinding = VerifierBinding(name: string, origin: Origin, bindingSha256: string)

  /** Domain-separated SHA-256 digests, represented by the canonical JSON they
      hash: they are taken to be collision-free. */
  datatype Digest =
    | OfCandidate(json: JsonShape.Json)
    | OfEvidence(json: JsonShape.Json)
    | OfVerifiers(json: JsonShape.Json)
    | OfManifest(bindings: seq<VerifierBinding>)
    | OfBinding(json: JsonShape.Json)

  datatype Assurance = RuntimeMeasured | DeploymentBound

  datatype GenerationParts = GenerationParts(
    modelRequestSha256: string, modelRouteSha256: string, toolViewSha256: string, verifierManifest: Digest,
    governanceSha256: string, executionBinding: Option<Digest>, assurance: Assurance)

  /** `selfDigest` is represented by what it hashes, too. */
  datatype Generation = Generation(formatVersion: int, parts: GenerationParts, selfDigest: GenerationParts)

  datatype Contract = Contract(artifactRequired: bool, effectRequired: bool, deliveryRequired: bool)

  datatype Receipt = Receipt(
    formatVersion: int, authority: Authority, sourceThread: string, turnId: string, candidateId: string,
    candidate: Digest, evidence: Digest, verifierResults: Digest, verifierCount: u32,
    generation: Generation, contract: Contract)

  datatype TurnStatus = Running | Completed | OtherStatus(name: string)

  datatype Turn = Turn(id: string, threadId: string, status: TurnStatus, items: seq<Item>, receipt: Option<Receipt>)

  // ------------------------------------------------------ the items of one call

  /** The tool call an item belongs to. */
  function CallOf(kind: ItemKind): Option<string> {
    match kind
    case ToolCall(callId, _, _) => Some(callId)
    case PolicyDecision(callId, _) => Some(callId)
    case ApprovalRequested(_, callId, _, _, _) => Some(callId)
    case ApprovalDecision(_, callId, _) => Some(callId)
    case ToolResult(callId, _, _, _) => Some(callId)
    case _ => None
  }

  datatype Located = Located(index: nat, kind: ItemKind)

  /** The items of one call with their positions, in order. */
  function Projection(items: seq<Item>, c: string): seq<Located> {
    if items == [] then []
    else
      var n := |items| - 1;
      Projection(items[..n], c) + (if CallOf(items[n].kind) == Some(c) then [Located(n, items[n].kind)] else [])
  }

  lemma {:induction false} ProjectionIsFaithful(items: seq<Item>, c: string)
    ensures forall k :: 0 <= k < |Projection(items, c)| ==>
      && Projection(items, c)[k].index < |items|
      && items[Projection(items, c)[k].index].kind == Projection(items, c)[k].kind
      && CallOf(Projection(items, c)[k].kind) == Some(c)
    ensures forall j, k :: 0 <= j < k < |Projection(items, c)| ==> Projection(items, c)[j].index < Projection(items, c)[k].index
  {
    if items != [] { ProjectionIsFaithful(items[..|items| - 1], c); }
  }

  lemma {:induction false} ProjectionIsComplete(items: seq<Item>, c: string, i: nat)
    requires i < |items| && CallOf(items[i].kind) == Some(c)
    ensures Located(i, items[i].kind) in Projection(items, c)
  {
    if i < |items| - 1 { ProjectionIsComplete(items[..|items| - 1], c, i); }
  }

  lemma {:induction false} ProjectionOfPrefix(items: seq<Item>, c: string, n: nat)
    requires n <= |items|
    ensures Projection(items[..n], c) <= Projection(items, c)
    decreases |items|
  {
    if n < |items| {
      var m := |items| - 1;
      assert items[..m][..n] == items[..n];
      ProjectionOfPrefix(items[..m], c, n);
    } else {
      assert items[..n] == items;
    }
  }
}
