/** Completion receipts: what a completed Turn is pinned to. */
module Receipts {
  import opened Support
  import opened Identities
  import opened Items
  import opened Completion
  import opened JsonShape
  import opened Canonical

  const COMPLETION_FORMAT_VERSION := 1
  const MAX_COMPLETION_RECEIPT_BYTES := 4_096
  const MAX_COMPLETION_HASH_INPUT_BYTES := 67_108_864

  datatype Refusal =
    | WrongLifecycle | UnsupportedFormat | WrongTenant | WrongTurn | WrongThread | Unsettled | WrongAssurance
    | NoCandidate | ForeignSuffix | UnattributedCandidate | BadVerifierResult | TooManyVerifiers
    | EvidenceDiffers | RequestDiffers | ManifestDiffers | MalformedReceipt | Unhashable

  datatype Evidence = Evidence(
    candidate: Digest, evidence: Digest, verifierResults: Digest, manifest: Digest, verifierCount: nat,
    modelRequestSha256: string)

  // ------------------------------------------------------------------ hashing

  /** How items become JSON and how many bytes JSON and receipts take when they
      are encoded. */
  datatype Codec = Codec(encode: Item -> Json, size: Json -> nat, receiptSize: Receipt -> nat)

  function Encoded(items: seq<Item>, codec: Codec): Json {
    Array(seq(|items|, i requires 0 <= i < |items| => codec.encode(items[i])))
  }

  /** What is hashed for a value: its canonical form, if the value and the form
      are within the byte bound and the value within the shape limits. */
  ghost function HashInput(json: Json, codec: Codec): Option<Json> {
    if && codec.size(json) <= MAX_COMPLETION_HASH_INPUT_BYTES
       && Nodes(json) <= MAX_JSON_NODES && Within(json, MAX_JSON_DEPTH)
       && codec.size(Canonicalized(json)) <= MAX_COMPLETION_HASH_INPUT_BYTES
    then Some(Canonicalized(json)) else None
  }

  method CanonicalJsonSha256(json: Json, codec: Codec) returns (r: Option<Json>)
    ensures r == HashInput(json, codec)
  {
    if codec.size(json) > MAX_COMPLETION_HASH_INPUT_BYTES { return None; }
    var shaped := ValidateValueShape(json);
    if !shaped { return None; }
    var canonical := Canonicalized(json);
    return if codec.size(canonical) <= MAX_COMPLETION_HASH_INPUT_BYTES then Some(canonical) else None;
  }

  /** Equal digests mean equal values, up to the order of object members. */
  lemma EqualDigestsMeanEquivalent(a: Json, b: Json, codec: Codec)
    requires WellFormed(a) && WellFormed(b)
    requires HashInput(a, codec).Some? && HashInput(a, codec) == HashInput(b, codec)
    ensures Equivalent(a, b)
  {
    CanonicalFormDecides(a, b);
  }

  // ----------------------------------------------------------------- evidence

  function PositionFrom(items: seq<Item>, id: string, start: nat): (r: Option<nat>)
    requires start <= |items|
    ensures r.Some? ==> start <= r.value < |items| && items[r.value].id == id
    ensures forall k :: start <= k < (if r.Some? then r.value else |items|) ==> items[k].id != id
    decreases |items| - start
  {
    if start == |items| then None
    else if items[start].id == id then Some(start)
    else PositionFrom(items, id, start + 1)
  }

  predicate PassingFor(kind: ItemKind, candidate: string) {
    && kind.VerificationResult? && kind.candidate == Some(candidate)
    && kind.origin.Some? && kind.bindingSha256.Some? && kind.passed
    && ValidName(kind.verifier) && ValidOrigin(kind.origin.value) && ValidSha256(kind.bindingSha256.value)
  }

  /** Attributed passing results for this candidate, strictly ordered by name. */
  ghost predicate VerifierSuffix(suffix: seq<Item>, candidate: string) {
    && (forall k :: 0 <= k < |suffix| ==> PassingFor(suffix[k].kind, candidate))
    && (forall j, k :: 0 <= j < k < |suffix| ==> Less(suffix[j].kind.verifier, suffix[k].kind.verifier))
  }

  function BindingOf(kind: ItemKind, candidate: string): VerifierBinding
    requires PassingFor(kind, candidate)
  {
    VerifierBinding(kind.verifier, kind.origin.value, kind.bindingSha256.value)
  }

  /** The ordered pass over the verifier results that follow the candidate. */
  method ReadVerifiers(suffix: seq<Item>, candidate: string) returns (r: Result<seq<VerifierBinding>, Refusal>)
    ensures r.Ok? <==> VerifierSuffix(suffix, candidate)
    ensures r.Ok? ==> |r.value| == |suffix| && forall k :: 0 <= k < |suffix| ==> r.value[k] == BindingOf(suffix[k].kind, candidate)
    ensures r.Err? ==> r.error == BadVerifierResult
  {
    hide Less, ValidName, ValidSha256, ValidOrigin;
    var bindings: seq<VerifierBinding> := [];
    var previous: Option<string> := None;
    var i := 0;
    while i < |suffix|
      invariant 0 <= i == |bindings| <= |suffix|
      invariant VerifierSuffix(suffix[..i], candidate)
      invariant previous == if i == 0 then None else Some(suffix[i - 1].kind.verifier)
      invariant forall k :: 0 <= k < i ==> PassingFor(suffix[k].kind, candidate) && bindings[k] == BindingOf(suffix[k].kind, candidate)
    {
      var kind := suffix[i].kind;
      if !PassingFor(kind, candidate) {
        return Err(BadVerifierResult);
      }
      if previous.Some? && !Less(previous.value, kind.verifier) {
        return Err(BadVerifierResult);
      }
      SuffixExtends(suffix, candidate, i);
      bindings := bindings + [BindingOf(kind, candidate)];
      previous := Some(kind.verifier);
      i := i + 1;
    }
    assert suffix[..i] == suffix;
    return Ok(bindings);
  }

  lemma SuffixExtends(suffix: seq<Item>, candidate: string, i: nat)
    requires i < |suffix| && VerifierSuffix(suffix[..i], candidate) && PassingFor(suffix[i].kind, candidate)
    requires 0 < i ==> suffix[i - 1].kind.VerificationResult? && Less(suffix[i - 1].kind.verifier, suffix[i].kind.verifier)
    ensures VerifierSuffix(suffix[..i + 1], candidate)
  {
    hide Less, ValidName, ValidSha256, ValidOrigin;
    var longer := suffix[..i + 1];
    assert longer[..i] == suffix[..i];
    forall j | 0 <= j < i ensures Less(suffix[j].kind.verifier, suffix[i].kind.verifier) {
      assert suffix[..i][j] == suffix[j] && suffix[..i][i - 1] == suffix[i - 1];
      if j < i - 1 {
        LessTransitive(suffix[j].kind.verifier, suffix[i - 1].kind.verifier, suffix[i].kind.verifier);
      }
    }
    forall j, k | 0 <= j < k < |longer| ensures Less(longer[j].kind.verifier, longer[k].kind.verifier) {
      if k < i { assert longer[j] == suffix[..i][j] && longer[k] == suffix[..i][k]; }
    }
    assert forall k :: 0 <= k < i ==> longer[k] == suffix[..i][k];
  }

  ghost function Bindings(suffix: seq<Item>, candidate: string): seq<VerifierBinding>
    requires VerifierSuffix(suffix, candidate)
  {
    seq(|suffix|, k requires 0 <= k < |suffix| && PassingFor(suffix[k].kind, candidate) => BindingOf(suffix[k].kind, candidate))
  }

  /** An assistant message that names a valid model, its origin and the request. */
  predicate Attributed(kind: ItemKind) {
    && kind.AssistantMessage?
    && kind.modelId.Some? && kind.modelOrigin.Some? && kind.requestSha256.Some?
    && PortableId(kind.modelId.value, false) && ValidOrigin(kind.modelOrigin.value) && ValidSha256(kind.requestSha256.value)
  }

  /** What a Turn proves about its candidate: the log up to it, the verifier
      results after it and nothing else. */
  ghost function EvidenceOf(items: seq<Item>, candidate: string, codec: Codec): Option<Evidence> {
    match PositionFrom(items, candidate, 0)
    case None => None
    case Some(at) =>
      var item, log, suffix := codec.encode(items[at]), Encoded(items[..at + 1], codec), Encoded(items[at + 1..], codec);
      if !Attributed(items[at].kind) || !VerifierSuffix(items[at + 1..], candidate) then None
      else if HashInput(item, codec).None? || HashInput(log, codec).None? || HashInput(suffix, codec).None? then None
      else Some(Evidence(OfCandidate(HashInput(item, codec).value), OfEvidence(HashInput(log, codec).value),
                         OfVerifiers(HashInput(suffix, codec).value), OfManifest(Bindings(items[at + 1..], candidate)),
                         |items| - at - 1, items[at].kind.requestSha256.value))
  }

  method DeriveTurnEvidence(items: seq<Item>, candidate: string, codec: Codec) returns (r: Result<Evidence, Refusal>)
    ensures r.Ok? <==> EvidenceOf(items, candidate, codec).Some?
    ensures r.Ok? ==> r.value == EvidenceOf(items, candidate, codec).value
  {
    hide Less, ValidName, ValidSha256, ValidOrigin, PortableId, HashInput;
    var at := PositionFrom(items, candidate, 0);
    if at.None? {
      return Err(NoCandidate);
    }
    var suffix := items[at.value + 1..];
    var i := 0;
    while i < |suffix|
      invariant 0 <= i <= |suffix|
    {
      if !suffix[i].kind.VerificationResult? {
        return Err(ForeignSuffix);
      }
      i := i + 1;
    }
    var candidateItem := items[at.value];
    if !Attributed(candidateItem.kind) {
      return Err(UnattributedCandidate);
    }
    var bindings := ReadVerifiers(suffix, candidate);
    if bindings.Err? {
      return Err(bindings.error);
    }
    assert bindings.value == Bindings(suffix, candidate);
    var candidateHash := CanonicalJsonSha256(codec.encode(candidateItem), codec);
    var logHash := CanonicalJsonSha256(Encoded(items[..at.value + 1], codec), codec);
    var suffixHash := CanonicalJsonSha256(Encoded(suffix, codec), codec);
    if candidateHash.None? || logHash.None? || suffixHash.None? {
      return Err(Unhashable);
    }
    return Ok(Evidence(OfCandidate(candidateHash.value), OfEvidence(logHash.value), OfVerifiers(suffixHash.value),
                       OfManifest(bindings.value), |suffix|, candidateItem.kind.requestSha256.value));
  }

  /** The evidence is about item `at`, the first with the candidate's identity: it
      hashes that item, the log up to it and everything after it, lists the binding of
      every result after it, and names the request the item carries. */
  ghost predicate EvidenceAbout(evidence: Evidence, items: seq<Item>, candidate: string, codec: Codec, at: nat) {
    && at < |items| && items[at].id == candidate && (forall k :: 0 <= k < at ==> items[k].id != candidate)
    && items[at].kind.AssistantMessage? && items[at].kind.requestSha256 == Some(evidence.modelRequestSha256)
    && evidence.candidate == OfCandidate(Canonicalized(codec.encode(items[at])))
    && evidence.evidence == OfEvidence(Canonicalized(Encoded(items[..at + 1], codec)))
    && evidence.verifierResults == OfVerifiers(Canonicalized(Encoded(items[at + 1..], codec)))
    && evidence.verifierCount == |items| - at - 1
    && evidence.manifest.OfManifest? && |evidence.manifest.bindings| == evidence.verifierCount
    && forall k :: 0 <= k < evidence.verifierCount ==> BindsResult(evidence.manifest.bindings[k], items[at + 1 + k].kind, candidate)
  }

  predicate BindsResult(binding: VerifierBinding, kind: ItemKind, candidate: string) {
    && kind.VerificationResult? && kind.passed && kind.candidate == Some(candidate)
    && binding.name == kind.verifier && kind.origin == Some(binding.origin) && kind.bindingSha256 == Some(binding.bindingSha256)
  }

  lemma EvidenceIsAboutTheLog(items: seq<Item>, candidate: string, codec: Codec)
    requires EvidenceOf(items, candidate, codec).Some?
    ensures exists at: nat :: EvidenceAbout(EvidenceOf(items, candidate, codec).value, items, candidate, codec, at)
  {
    hide Less, ValidName, ValidSha256, ValidOrigin, PortableId, Canonicalized, Encoded, Nodes, Within;
    var at := PositionFrom(items, candidate, 0).value;
    var evidence := EvidenceOf(items, candidate, codec).value;
    var suffix := items[at + 1..];
    forall k | 0 <= k < |suffix| ensures BindsResult(evidence.manifest.bindings[k], items[at + 1 + k].kind, candidate) {
      assert suffix[k] == items[at + 1 + k] && PassingFor(suffix[k].kind, candidate);
    }
    assert EvidenceAbout(evidence, items, candidate, codec, at);
  }

  function ExecutionBindings(items: seq<Item>): seq<Item> {
    if items == [] then []
    else
      var n := |items| - 1;
      ExecutionBindings(items[..n]) + (if items[n].kind.ExecutionBinding? then [items[n]] else [])
  }

  /** The log has one binding item, at `i`. */
  ghost predicate OnlyBinding(items: seq<Item>, i: nat) {
    && i < |items| && items[i].kind.ExecutionBinding?
    && forall k :: 0 <= k < |items| && items[k].kind.ExecutionBinding? ==> k == i
  }

  ghost predicate Unbound(items: seq<Item>) {
    forall k :: 0 <= k < |items| ==> !items[k].kind.ExecutionBinding?
  }

  /** The generation's assurance agrees with the binding items of the log: there is
      none, or there is exactly one, made by this actor for this tenant, and the
      generation carries its digest. */
  ghost predicate Assured(items: seq<Item>, tenant: Option<string>, authority: Authority, parts: GenerationParts, codec: Codec) {
    match parts.assurance
    case RuntimeMeasured => Unbound(items)
    case DeploymentBound => exists i: nat :: OnlyBinding(items, i) && BindsGeneration(items[i], tenant, authority, parts, codec)
  }

  ghost predicate BindsGeneration(item: Item, tenant: Option<string>, authority: Authority, parts: GenerationParts, codec: Codec)
    requires item.kind.ExecutionBinding?
  {
    && item.kind.boundBy == authority.actor && item.kind.tenant == tenant
    && HashInput(codec.encode(item), codec).Some?
    && parts.executionBinding == Some(OfBinding(HashInput(codec.encode(item), codec).value))
  }

  /** Filtering the log finds nothing if and only if there is no binding item. */
  lemma {:induction false} NoBindings(items: seq<Item>)
    ensures ExecutionBindings(items) == [] <==> Unbound(items)
  {
    if items != [] {
      var n := |items| - 1;
      NoBindings(items[..n]);
      assert Unbound(items) <==> Unbound(items[..n]) && !items[n].kind.ExecutionBinding?;
    }
  }

  lemma {:induction false} OneBinding(items: seq<Item>, i: nat)
    requires OnlyBinding(items, i)
    ensures ExecutionBindings(items) == [items[i]]
  {
    var n := |items| - 1;
    if i == n { NoBindings(items[..n]); } else { OneBinding(items[..n], i); }
  }

  lemma {:induction false} FoundBinding(items: seq<Item>) returns (i: nat)
    requires |ExecutionBindings(items)| == 1
    ensures OnlyBinding(items, i)
  {
    var n := |items| - 1;
    var front := items[..n];
    assert items == front + [items[n]];
    hide OnlyBinding;
    if items[n].kind.ExecutionBinding? {
      NoBindings(front);
      i := n;
    } else {
      i := FoundBinding(front);
    }
    BindingOfFront(front, items[n], i);
  }

  lemma BindingOfFront(front: seq<Item>, item: Item, i: nat)
    requires if item.kind.ExecutionBinding? then Unbound(front) && i == |front| else OnlyBinding(front, i)
    ensures OnlyBinding(front + [item], i)
  {
  }

  method ValidateExecutionAssurance(items: seq<Item>, tenant: Option<string>, authority: Authority, parts: GenerationParts,
                                    codec: Codec)
    returns (ok: bool)
    ensures ok == Assured(items, tenant, authority, parts, codec)
  {
    hide HashInput, ExecutionBindings, Unbound;
    var bindings := ExecutionBindings(items);
    NoBindings(items);
    forall i: nat | OnlyBinding(items, i) ensures bindings == [items[i]] { OneBinding(items, i); }
    if |bindings| == 1 {
      var i := FoundBinding(items);
      assert bindings[0] == items[i];
    }
    if parts.assurance.RuntimeMeasured? { return bindings == []; }
    if |bindings| != 1 || !bindings[0].kind.ExecutionBinding? { return false; }
    if bindings[0].kind.boundBy != authority.actor || bindings[0].kind.tenant != tenant { return false; }
    var actual := CanonicalJsonSha256(codec.encode(bindings[0]), codec);
    return actual.Some? && parts.executionBinding == Some(OfBinding(actual.value));
  }

  predicate ValidGeneration(generation: Generation) {
    && generation.formatVersion == COMPLETION_FORMAT_VERSION
    && ValidSha256(generation.parts.modelRequestSha256) && ValidSha256(generation.parts.modelRouteSha256)
    && ValidSha256(generation.parts.toolViewSha256) && ValidSha256(generation.parts.governanceSha256)
    && (generation.parts.assurance.DeploymentBound? <==> generation.parts.executionBinding.Some?)
    && generation.selfDigest == generation.parts
  }

  /** What is checked of a receipt alone. */
  predicate ReceiptShape(receipt: Receipt, codec: Codec) {
    && receipt.formatVersion == COMPLETION_FORMAT_VERSION
    && ValidAuthority(receipt.authority)
    && PortableId(receipt.sourceThread, true) && PortableId(receipt.turnId, true) && PortableId(receipt.candidateId, true)
    && ValidGeneration(receipt.generation)
    && receipt.contract == Contract(false, false, false)
    && codec.receiptSize(receipt) <= MAX_COMPLETION_RECEIPT_BYTES
  }

  datatype Placement = Direct | Inherited

  /** The receipt speaks of exactly this Turn. */
  ghost predicate Attests(receipt: Receipt, turn: Turn, tenant: Option<string>, placement: Placement, codec: Codec) {
    && ReceiptShape(receipt, codec)
    && receipt.authority.tenant == tenant
    && receipt.turnId == turn.id
    && (placement.Direct? ==> receipt.sourceThread == turn.threadId)
    && SettledTurn(turn.items)
    && Assured(turn.items, tenant, receipt.authority, receipt.generation.parts, codec)
    && EvidenceOf(turn.items, receipt.candidateId, codec).Some?
    && var evidence := EvidenceOf(turn.items, receipt.candidateId, codec).value;
       && evidence.candidate == receipt.candidate && evidence.evidence == receipt.evidence
       && evidence.verifierResults == receipt.verifierResults && evidence.verifierCount == receipt.verifierCount
       && evidence.modelRequestSha256 == receipt.generation.parts.modelRequestSha256
       && evidence.manifest == receipt.generation.parts.verifierManifest
  }

  method ValidateReceiptAgainstItems(turn: Turn, tenant: Option<string>, receipt: Receipt, placement: Placement, codec: Codec)
    returns (refusal: Option<Refusal>)
    ensures refusal.None? <==> Attests(receipt, turn, tenant, placement, codec)
  {
    hide SettledTurn, EvidenceOf, Assured, ReceiptShape;
    if !ReceiptShape(receipt, codec) { return Some(MalformedReceipt); }
    if receipt.authority.tenant != tenant { return Some(WrongTenant); }
    if receipt.turnId != turn.id { return Some(WrongTurn); }
    if placement.Direct? && receipt.sourceThread != turn.threadId { return Some(WrongThread); }
    var settled := ValidateSettledToolsAndApprovals(turn.items);
    if settled.Rejected? { return Some(Unsettled); }
    var assured := ValidateExecutionAssurance(turn.items, tenant, receipt.authority, receipt.generation.parts, codec);
    if !assured { return Some(WrongAssurance); }
    var derived := DeriveTurnEvidence(turn.items, receipt.candidateId, codec);
    if derived.Err? { return Some(derived.error); }
    var evidence := derived.value;
    if evidence.candidate != receipt.candidate || evidence.evidence != receipt.evidence
       || evidence.verifierResults != receipt.verifierResults || evidence.verifierCount != receipt.verifierCount {
      return Some(EvidenceDiffers);
    }
    if evidence.modelRequestSha256 != receipt.generation.parts.modelRequestSha256 { return Some(RequestDiffers); }
    if evidence.manifest != receipt.generation.parts.verifierManifest { return Some(ManifestDiffers); }
    return None;
  }

  ghost predicate ValidOnRunning(receipt: Receipt, turn: Turn, tenant: Option<string>, codec: Codec) {
    turn.status.Running? && turn.receipt.None? && Attests(receipt, turn, tenant, Direct, codec)
  }

  ghost predicate ValidOnCompleted(receipt: Receipt, turn: Turn, tenant: Option<string>, placement: Placement, codec: Codec) {
    turn.status.Completed? && turn.receipt == Some(receipt) && Attests(receipt, turn, tenant, placement, codec)
  }

  method ValidateTurnCompletionReceipt(turn: Turn, tenant: Option<string>, receipt: Receipt, codec: Codec)
    returns (refusal: Option<Refusal>)
    ensures refusal.None? <==> ValidOnRunning(receipt, turn, tenant, codec)
  {
    hide Attests;
    if !turn.status.Running? || turn.receipt.Some? { return Some(WrongLifecycle); }
    refusal := ValidateReceiptAgainstItems(turn, tenant, receipt, Direct, codec);
  }

  method ValidateProjectedTurnCompletionReceipt(turn: Turn, tenant: Option<string>, receipt: Receipt, placement: Placement,
                                                codec: Codec)
    returns (refusal: Option<Refusal>)
    ensures refusal.None? <==> ValidOnCompleted(receipt, turn, tenant, placement, codec)
  {
    hide Attests;
    if !turn.status.Completed? || turn.receipt != Some(receipt) { return Some(WrongLifecycle); }
    refusal := ValidateReceiptAgainstItems(turn, tenant, receipt, placement, codec);
  }

  /** Builds the one receipt that is valid for this running Turn, authority,
      candidate, generation and contract, and fails only when there is none. */
  method BuildCompletionReceipt(turn: Turn, authority: Authority, candidate: string, generation: Generation,
                                contract: Contract, codec: Codec)
    returns (r: Result<Receipt, Refusal>)
    ensures r.Ok? ==> ValidOnRunning(r.value, turn, authority.tenant, codec)
    ensures r.Ok? ==> Names(r.value, authority, candidate, generation, contract)
    ensures forall q :: ValidOnRunning(q, turn, authority.tenant, codec) && Names(q, authority, candidate, generation, contract) ==>
      r == Ok(q)
  {
    hide EvidenceOf, SettledTurn, Assured, ReceiptShape;
    var derived := DeriveTurnEvidence(turn.items, candidate, codec);
    if derived.Err? { return Err(derived.error); }
    var evidence := derived.value;
    if evidence.verifierCount > U32_MAX { return Err(TooManyVerifiers); }
    var receipt := Receipt(COMPLETION_FORMAT_VERSION, authority, turn.threadId, turn.id, candidate, evidence.candidate,
                           evidence.evidence, evidence.verifierResults, evidence.verifierCount, generation, contract);
    forall q | ValidOnRunning(q, turn, authority.tenant, codec) && Names(q, authority, candidate, generation, contract)
      ensures q == receipt
    {
      ShapeHasVersion(q, codec);
    }
    var refusal := ValidateTurnCompletionReceipt(turn, authority.tenant, receipt, codec);
    if refusal.Some? { return Err(refusal.value); }
    return Ok(receipt);
  }

  lemma ShapeHasVersion(receipt: Receipt, codec: Codec)
    requires ReceiptShape(receipt, codec)
    ensures receipt.formatVersion == COMPLETION_FORMAT_VERSION
  {
  }

  predicate Names(receipt: Receipt, authority: Authority, candidate: string, generation: Generation, contract: Contract) {
    && receipt.authority == authority && receipt.candidateId == candidate
    && receipt.generation == generation && receipt.contract == contract
  }

  // ----------------------------------------------------------- what they pin

  /** A receipt valid on the running Turn stays valid on the same Turn once it is
      completed, and on a copy of it under any other thread. */
  lemma ReceiptSurvivesCompletion(receipt: Receipt, turn: Turn, tenant: Option<string>, thread: string, codec: Codec)
    requires ValidOnRunning(receipt, turn, tenant, codec)
    ensures var completed := turn.(status := Completed, receipt := Some(receipt));
      && ValidOnCompleted(receipt, completed, tenant, Direct, codec)
      && ValidOnCompleted(receipt, completed.(threadId := thread), tenant, Inherited, codec)
      && (ValidOnCompleted(receipt, completed.(threadId := thread), tenant, Direct, codec) <==> thread == turn.threadId)
  {
    hide SettledTurn, EvidenceOf, Assured, ReceiptShape;
  }

  /** Encodings never name a member twice. */
  ghost predicate EncodesWell(codec: Codec) {
    forall item :: WellFormed(codec.encode(item))
  }

  /** Different items have different encodings, whatever the order of members. */
  ghost predicate EncodesFaithfully(codec: Codec) {
    forall a, b :: Equivalent(codec.encode(a), codec.encode(b)) ==> a == b
  }

  ghost predicate SameLog(a: seq<Item>, b: seq<Item>, codec: Codec) {
    |a| == |b| && forall i :: 0 <= i < |a| ==> Equivalent(codec.encode(a[i]), codec.encode(b[i]))
  }

  lemma EqualDigestsMeanSameLog(a: seq<Item>, b: seq<Item>, codec: Codec)
    requires EncodesWell(codec)
    requires HashInput(Encoded(a, codec), codec).Some? && HashInput(Encoded(a, codec), codec) == HashInput(Encoded(b, codec), codec)
    ensures SameLog(a, b, codec)
  {
    hide HashInput;
    var x, y := Encoded(a, codec), Encoded(b, codec);
    EqualDigestsMeanEquivalent(x, y, codec);
    forall i | 0 <= i < |a| && |a| == |b| ensures Equivalent(codec.encode(a[i]), codec.encode(b[i])) {
      assert x.values[i] == codec.encode(a[i]) && y.values[i] == codec.encode(b[i]);
    }
  }

  lemma SameLogsJoin(a: seq<Item>, i: nat, b: seq<Item>, j: nat, codec: Codec)
    requires i <= |a| && j <= |b| && SameLog(a[..i], b[..j], codec) && SameLog(a[i..], b[j..], codec)
    ensures SameLog(a, b, codec)
  {
    hide Equivalent;
    forall k | 0 <= k < |a| ensures Equivalent(codec.encode(a[k]), codec.encode(b[k])) {
      if k < i {
        assert a[..i][k] == a[k] && b[..j][k] == b[k];
      } else {
        assert a[i..][k - i] == a[k] && b[j..][k - j] == b[k];
      }
    }
  }

  /** Two Turns that one receipt attests are the same Turn in the same tenant, and
      their logs are equal item by item up to the order of JSON members; every call
      in them is settled. With a faithful encoding the logs are identical. */
  lemma ReceiptPinsTurn(receipt: Receipt, a: Turn, b: Turn, tenantA: Option<string>, tenantB: Option<string>,
                        placeA: Placement, placeB: Placement, codec: Codec)
    requires EncodesWell(codec)
    requires Attests(receipt, a, tenantA, placeA, codec) && Attests(receipt, b, tenantB, placeB, codec)
    ensures a.id == b.id && tenantA == tenantB && SettledTurn(a.items)
    ensures SameLog(a.items, b.items, codec)
    ensures EncodesFaithfully(codec) ==> a.items == b.items
    ensures placeA.Direct? && placeB.Direct? ==> a.threadId == b.threadId
  {
    hide SettledTurn, Assured, VerifierSuffix, HashInput, Encoded, ReceiptShape, Attributed;
    var i := PositionFrom(a.items, receipt.candidateId, 0).value + 1;
    var j := PositionFrom(b.items, receipt.candidateId, 0).value + 1;
    EqualDigestsMeanSameLog(a.items[..i], b.items[..j], codec);
    EqualDigestsMeanSameLog(a.items[i..], b.items[j..], codec);
    SameLogsJoin(a.items, i, b.items, j, codec);
  }
}
