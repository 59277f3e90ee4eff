/** Preparation of a cross-Thread handoff: the shared prefix, the bounded slice of
    source-only Turns and the check that every prepared request passes. */
module Handoff {
  import opened Support
  import opened JsonShape
  import opened Selection
  import opened Items

  const THREAD_HANDOFF_FORMAT_VERSION := 1
  const MAX_TURN_CONTEXT_REFERENCE_BYTES := 4_096

  datatype Thread = Thread(id: string, turns: seq<Turn>)

  /** The handoff digest, represented by what it hashes: it is taken to be
      collision-free. */
  datatype SourceDigest = SourceDigest(source: string, target: string, sharedPrefix: nat, included: nat,
                                       encodedTurns: seq<byte>, older: nat)

  /** The encoded size of the binding record that is hashed last. */
  type BindingSize = SourceDigest -> nat

  datatype Request = Request(formatVersion: int, source: string, target: string, sharedPrefix: nat,
                             turns: seq<Shown>, olderSourceTurns: nat, digest: SourceDigest)

  datatype HandoffError =
    | InvalidId | ForeignTurn | DuplicateTurn | RunningTurn | SameThread | BadConfig | Unselectable(why: SelectionError)
    | UnsupportedFormat | TurnCount | EmptyTurn | Unencodable | DigestDiffers

  predicate ValidId(id: string) {
    0 < |id| <= 256 && forall i :: 0 <= i < |id| ==> ' ' <= id[i] && !('\U{7f}' <= id[i] <= '\U{9f}')
  }

  // --------------------------------------------------------------- validators

  ghost predicate ValidThread(thread: Thread) {
    && ValidId(thread.id)
    && (forall i :: 0 <= i < |thread.turns| ==>
          ValidId(thread.turns[i].id) && thread.turns[i].threadId == thread.id && !thread.turns[i].status.Running?)
    && (forall i, j :: 0 <= i < j < |thread.turns| ==> thread.turns[i].id != thread.turns[j].id)
  }

  method ValidateThread(thread: Thread) returns (error: Option<HandoffError>)
    ensures error.None? <==> ValidThread(thread)
  {
    hide ValidId;
    if !ValidId(thread.id) {
      return Some(InvalidId);
    }
    var ids: set<string> := {};
    var i := 0;
    while i < |thread.turns|
      invariant 0 <= i <= |thread.turns|
      invariant ids == set k | 0 <= k < i :: thread.turns[k].id
      invariant forall k :: 0 <= k < i ==>
        ValidId(thread.turns[k].id) && thread.turns[k].threadId == thread.id && !thread.turns[k].status.Running?
      invariant forall j, k :: 0 <= j < k < i ==> thread.turns[j].id != thread.turns[k].id
    {
      var turn := thread.turns[i];
      if !ValidId(turn.id) { return Some(InvalidId); }
      if turn.threadId != thread.id { return Some(ForeignTurn); }
      if turn.id in ids { return Some(DuplicateTurn); }
      if turn.status.Running? { return Some(RunningTurn); }
      ids := ids + {turn.id};
      i := i + 1;
    }
    return None;
  }

  /** What a consumer demands of a request. */
  ghost predicate ValidHandoff(request: Request, encode: Encoder, bindingSize: BindingSize) {
    && request.formatVersion == THREAD_HANDOFF_FORMAT_VERSION
    && ValidId(request.source) && ValidId(request.target) && request.source != request.target
    && 0 < |request.turns| <= MAX_COMPACTION_INPUT_TURNS
    && ValidSlice(request.turns, encode, |request.turns|)
    && |request.turns| + request.olderSourceTurns <= USIZE_MAX
    && |ArrayText(request.turns, encode)| <= MAX_COMPACTION_INPUT_BYTES
    && request.digest == DigestOf(request.source, request.target, request.sharedPrefix, request.turns, encode, request.olderSourceTurns)
    && bindingSize(request.digest) <= MAX_TURN_CONTEXT_REFERENCE_BYTES
  }

  ghost predicate ValidSlice(turns: seq<Shown>, encode: Encoder, n: nat)
    requires n <= |turns|
  {
    && (forall i :: 0 <= i < n ==> ValidId(turns[i].turnId) && turns[i].items != [] && encode(turns[i]).Some?)
    && (forall i, j :: 0 <= i < j < n ==> turns[i].turnId != turns[j].turnId)
  }

  function DigestOf(source: string, target: string, sharedPrefix: nat, turns: seq<Shown>, encode: Encoder, older: nat): SourceDigest {
    SourceDigest(source, target, sharedPrefix, |turns|, ArrayText(turns, encode), older)
  }

  /** Encodes the slice and then its binding, each within its bound, before they
      are hashed. */
  method HandoffSourceSha256(source: string, target: string, sharedPrefix: nat, turns: seq<Shown>, encode: Encoder,
                             bindingSize: BindingSize, older: nat)
    returns (r: Option<SourceDigest>)
    ensures var digest := DigestOf(source, target, sharedPrefix, turns, encode, older);
      r == if |ArrayText(turns, encode)| <= MAX_COMPACTION_INPUT_BYTES && bindingSize(digest) <= MAX_TURN_CONTEXT_REFERENCE_BYTES
           then Some(digest) else None
  {
    WholeText(ArrayText(turns, encode));
    var encoded := ToBoundedJsonVec([ArrayText(turns, encode)], MAX_COMPACTION_INPUT_BYTES);
    if encoded.Err? {
      return None;
    }
    var digest := SourceDigest(source, target, sharedPrefix, |turns|, encoded.value, older);
    return if bindingSize(digest) <= MAX_TURN_CONTEXT_REFERENCE_BYTES then Some(digest) else None;
  }

  method Validate(request: Request, encode: Encoder, bindingSize: BindingSize) returns (error: Option<HandoffError>)
    ensures error.None? <==> ValidHandoff(request, encode, bindingSize)
  {
    hide ValidId, ArrayText;
    if request.formatVersion != THREAD_HANDOFF_FORMAT_VERSION { return Some(UnsupportedFormat); }
    if !ValidId(request.source) || !ValidId(request.target) { return Some(InvalidId); }
    if request.source == request.target { return Some(SameThread); }
    var turns := request.turns;
    if turns == [] || |turns| > MAX_COMPACTION_INPUT_TURNS { return Some(TurnCount); }
    var ids: set<string> := {};
    var i := 0;
    while i < |turns|
      invariant 0 <= i <= |turns|
      invariant ids == set k | 0 <= k < i :: turns[k].turnId
      invariant ValidSlice(turns, encode, i)
    {
      if !ValidId(turns[i].turnId) { return Some(InvalidId); }
      if turns[i].turnId in ids { return Some(DuplicateTurn); }
      if turns[i].items == [] { return Some(EmptyTurn); }
      if encode(turns[i]).None? { return Some(Unencodable); }
      ids := ids + {turns[i].turnId};
      i := i + 1;
    }
    if |turns| + request.olderSourceTurns > USIZE_MAX { return Some(TurnCount); }
    var expected := HandoffSourceSha256(request.source, request.target, request.sharedPrefix, turns, encode,
                                        bindingSize, request.olderSourceTurns);
    if expected.None? { return Some(Unencodable); }
    if request.digest != expected.value { return Some(DigestDiffers); }
    return None;
  }

  // -------------------------------------------------------------- preparation

  predicate SameTurn(a: Turn, b: Turn) {
    a.id == b.id && a.status == b.status && a.items == b.items
  }

  /** `n` is the length of the longest prefix of turns with the same identities,
      statuses and items. */
  ghost predicate IsSharedPrefix(source: seq<Turn>, target: seq<Turn>, n: nat) {
    && n <= |source| && n <= |target|
    && (forall i :: 0 <= i < n ==>
          source[i].id == target[i].id && source[i].status == target[i].status && source[i].items == target[i].items)
    && (n < |source| && n < |target| ==>
          source[n].id != target[n].id || source[n].status != target[n].status || source[n].items != target[n].items)
  }

  method SharedPrefix(source: seq<Turn>, target: seq<Turn>) returns (n: nat)
    ensures IsSharedPrefix(source, target, n)
  {
    n := 0;
    while n < |source| && n < |target| && SameTurn(source[n], target[n])
      invariant n <= |source| && n <= |target|
      invariant forall i :: 0 <= i < n ==> SameTurn(source[i], target[i])
    {
      n := n + 1;
    }
  }

  ghost predicate DistinctIds(turns: seq<Turn>) {
    forall i, j :: 0 <= i < j < |turns| ==> turns[i].id != turns[j].id
  }

  ghost predicate HasId(turns: seq<Turn>, id: string) {
    exists i :: 0 <= i < |turns| && turns[i].id == id
  }

  /** Shown Turns are not empty and keep their identities. */
  lemma {:induction false} ShownTurnsAreNamed(turns: seq<Turn>, k: nat)
    requires k < |VisibleTurns(turns)|
    ensures VisibleTurns(turns)[k].items != [] && HasId(turns, VisibleTurns(turns)[k].turnId)
  {
    hide ModelVisibleItems;
    var first, rest := ShownIf(turns[0]), VisibleTurns(turns[1..]);
    if k < |first| {
      assert turns[0].id == VisibleTurns(turns)[k].turnId;
    } else {
      ShownTurnsAreNamed(turns[1..], k - |first|);
      var i :| 0 <= i < |turns[1..]| && turns[1..][i].id == rest[k - |first|].turnId;
      assert turns[i + 1].id == VisibleTurns(turns)[k].turnId;
    }
  }

  lemma {:induction false} ShownTurnsAreDistinct(turns: seq<Turn>, j: nat, k: nat)
    requires DistinctIds(turns) && j < k < |VisibleTurns(turns)|
    ensures VisibleTurns(turns)[j].turnId != VisibleTurns(turns)[k].turnId
  {
    hide ModelVisibleItems;
    var first := |ShownIf(turns[0])|;
    if j < first {
      ShownTurnsAreNamed(turns[1..], k - first);
      var i :| 0 <= i < |turns[1..]| && turns[1..][i].id == VisibleTurns(turns[1..])[k - first].turnId;
      assert turns[i + 1].id != turns[0].id;
    } else {
      ShownTurnsAreDistinct(turns[1..], j - first, k - first);
    }
  }

  /** The request names exactly the longest bounded block of newest source-only
      Turns, and how many older ones it leaves out. */
  ghost predicate IsPrepared(source: Thread, target: Thread, config: BlockConfig, encode: Encoder, request: Request) {
    && request.source == source.id && request.target == target.id
    && IsSharedPrefix(source.turns, target.turns, request.sharedPrefix)
    && var all := VisibleTurns(source.turns[request.sharedPrefix..]);
       && IsBlock(all, encode, config, request.turns)
       && request.olderSourceTurns + |request.turns| == |all|
       && all == all[..request.olderSourceTurns] + request.turns
  }

  predicate ValidHandoffConfig(config: BlockConfig) {
    1 <= config.maxTurns <= MAX_COMPACTION_INPUT_TURNS && 2 <= config.budgetBytes <= MAX_COMPACTION_INPUT_BYTES
  }

  /** With these shared Turns no block can be selected, or the binding of the one
      that is selected is too large. */
  ghost predicate CannotPrepare(source: Thread, target: Thread, config: BlockConfig, encode: Encoder,
                                bindingSize: BindingSize, shared: nat)
  {
    && IsSharedPrefix(source.turns, target.turns, shared)
    && var all := VisibleTurns(source.turns[shared..]);
       || (exists at :: BlockStuck(all, encode, config, at))
       || (exists turns :: IsBlock(all, encode, config, turns) && BindingTooLarge(source, target, encode, bindingSize, shared, turns))
  }

  ghost predicate BindingTooLarge(source: Thread, target: Thread, encode: Encoder, bindingSize: BindingSize, shared: nat,
                                  turns: seq<Shown>)
  {
    && shared <= |source.turns| && |turns| <= |VisibleTurns(source.turns[shared..])|
    && var older := |VisibleTurns(source.turns[shared..])| - |turns|;
       bindingSize(DigestOf(source.id, target.id, shared, turns, encode, older)) > MAX_TURN_CONTEXT_REFERENCE_BYTES
  }

  lemma SharedPrefixIsUnique(source: seq<Turn>, target: seq<Turn>, m: nat, n: nat)
    requires IsSharedPrefix(source, target, m) && IsSharedPrefix(source, target, n)
    ensures m == n
  {
  }

  lemma BlockIsUnique(all: seq<Shown>, encode: Encoder, config: BlockConfig, a: seq<Shown>, b: seq<Shown>)
    requires IsBlock(all, encode, config, a) && IsBlock(all, encode, config, b)
    ensures a == b
  {
    hide BlockFits, BlockStuck;
  }

  predicate Askable(source: Thread, target: Thread, config: BlockConfig) {
    ValidHandoffConfig(config) && source.id != target.id
  }

  /** Selects the newest source-only Turns for a handoff. A thread's length is a
      machine word, as every vector's is. */
  method Prepare(source: Thread, target: Thread, config: BlockConfig, encode: Encoder, bindingSize: BindingSize)
    returns (r: Result<Option<Request>, HandoffError>)
    requires |source.turns| <= USIZE_MAX
    ensures r.Err? <==>
      || !Askable(source, target, config) || !ValidThread(source) || !ValidThread(target)
      || exists shared :: CannotPrepare(source, target, config, encode, bindingSize, shared)
    ensures r.Ok? && r.value.None? ==> exists shared: nat ::
      IsSharedPrefix(source.turns, target.turns, shared) && VisibleTurns(source.turns[shared..]) == []
    ensures r.Ok? && r.value.Some? ==>
      IsPrepared(source, target, config, encode, r.value.value) && ValidHandoff(r.value.value, encode, bindingSize)
  {
    hide VisibleTurns, ValidThread, BlockStuck, ArrayText, IsSharedPrefix, LongestBlock, ValidHandoff, DigestOf;
    if !ValidHandoffConfig(config) { return Err(BadConfig); }
    var sourceError := ValidateThread(source);
    if sourceError.Some? { return Err(sourceError.value); }
    var targetError := ValidateThread(target);
    if targetError.Some? { return Err(targetError.value); }
    if source.id == target.id { return Err(SameThread); }
    var shared := SharedPrefix(source.turns, target.turns);
    SharedIsWithin(source.turns, target.turns, shared);
    forall n: nat | IsSharedPrefix(source.turns, target.turns, n) ensures n == shared {
      SharedPrefixIsUnique(source.turns, target.turns, n, shared);
    }
    var delta := source.turns[shared..];
    var candidates := CountVisible(delta);
    if candidates == 0 {
      NothingToSelect(encode, config);
      return Ok(None);
    }
    OmitsNothing(delta);
    var block := SelectBlock(delta, 0, encode, config);
    if block.Err? {
      assert CannotPrepare(source, target, config, encode, bindingSize, shared);
      return Err(Unselectable(block.error));
    }
    var turns := block.value.turns;
    var older := candidates - |turns|;
    ghost var all := VisibleTurns(delta);
    assert all == all[..older] + turns;
    forall other | IsBlock(all, encode, config, other) ensures other == turns {
      BlockIsUnique(all, encode, config, other, turns);
    }
    PreparedIsValid(source, target, config, encode, bindingSize, shared, turns);
    var digest := HandoffSourceSha256(source.id, target.id, shared, turns, encode, bindingSize, older);
    if digest.None? {
      assert CannotPrepare(source, target, config, encode, bindingSize, shared);
      return Err(Unencodable);
    }
    var request := Request(THREAD_HANDOFF_FORMAT_VERSION, source.id, target.id, shared, turns, older, digest.value);
    return Ok(Some(request));
  }

  lemma NothingToSelect(encode: Encoder, config: BlockConfig)
    ensures forall at :: !BlockStuck([], encode, config, at)
    ensures forall turns :: !IsBlock([], encode, config, turns)
  {
  }

  lemma SharedIsWithin(source: seq<Turn>, target: seq<Turn>, n: nat)
    requires IsSharedPrefix(source, target, n)
    ensures n <= |source|
  {
  }

  lemma OmitsNothing(turns: seq<Turn>)
    ensures Omitted(turns, 0) == VisibleTurns(turns)
  {
  }

  ghost predicate ValidIds(turns: seq<Turn>) {
    DistinctIds(turns) && forall i :: 0 <= i < |turns| ==> ValidId(turns[i].id)
  }

  lemma SuffixHasValidIds(thread: Thread, shared: nat)
    requires ValidThread(thread) && shared <= |thread.turns|
    ensures ValidIds(thread.turns[shared..])
  {
    hide ValidId;
    var delta := thread.turns[shared..];
    assert forall i :: 0 <= i < |delta| ==> delta[i] == thread.turns[shared + i];
  }

  /** A selected block is a slice that a consumer accepts. */
  lemma BlockIsValidSlice(delta: seq<Turn>, turns: seq<Shown>, encode: Encoder, config: BlockConfig)
    requires ValidIds(delta) && IsBlock(VisibleTurns(delta), encode, config, turns) && ValidHandoffConfig(config)
    ensures 0 < |turns| <= MAX_COMPACTION_INPUT_TURNS && ValidSlice(turns, encode, |turns|)
    ensures |ArrayText(turns, encode)| <= MAX_COMPACTION_INPUT_BYTES
  {
    hide VisibleTurns, ArrayText, BlockStuck, ValidId;
    var older := |VisibleTurns(delta)| - |turns|;
    assert BlockFits(turns, encode, config);
    forall k | 0 <= k < |turns| ensures turns[k].items != [] && ValidId(turns[k].turnId) {
      ShownTurnsAreNamed(delta, older + k);
    }
    forall j, k | 0 <= j < k < |turns| ensures turns[j].turnId != turns[k].turnId {
      ShownTurnsAreDistinct(delta, older + j, older + k);
    }
  }

  /** Every request that `Prepare` assembles passes `Validate`. */
  lemma PreparedIsValid(source: Thread, target: Thread, config: BlockConfig, encode: Encoder, bindingSize: BindingSize,
                        shared: nat, turns: seq<Shown>)
    requires ValidHandoffConfig(config) && ValidThread(source) && ValidThread(target) && source.id != target.id
    requires shared <= |source.turns| <= USIZE_MAX
    requires IsBlock(VisibleTurns(source.turns[shared..]), encode, config, turns)
    ensures var all := VisibleTurns(source.turns[shared..]);
      var older := |all| - |turns|;
      && 0 <= older && |ArrayText(turns, encode)| <= MAX_COMPACTION_INPUT_BYTES
      && (!BindingTooLarge(source, target, encode, bindingSize, shared, turns) ==>
            ValidHandoff(Request(THREAD_HANDOFF_FORMAT_VERSION, source.id, target.id, shared, turns, older,
                                 DigestOf(source.id, target.id, shared, turns, encode, older)), encode, bindingSize))
  {
    hide VisibleTurns, ArrayText, BlockStuck, ValidId, ValidSlice, LongestBlock, ValidIds, DigestOf;
    SuffixHasValidIds(source, shared);
    BlockIsValidSlice(source.turns[shared..], turns, encode, config);
    ShownAreFewer(source.turns[shared..]);
  }

  lemma {:induction false} ShownAreFewer(turns: seq<Turn>)
    ensures |VisibleTurns(turns)| <= |turns|
  {
    if turns != [] { ShownAreFewer(turns[1..]); }
  }

  /** Two requests that a consumer accepts under one digest hand off the same
      encoded Turns between the same threads, with the same counts. */
  lemma DigestPinsHandoff(a: Request, b: Request, encode: Encoder, bindingSize: BindingSize)
    requires ValidHandoff(a, encode, bindingSize) && ValidHandoff(b, encode, bindingSize) && a.digest == b.digest
    ensures a.source == b.source && a.target == b.target && a.sharedPrefix == b.sharedPrefix
    ensures |a.turns| == |b.turns| && a.olderSourceTurns == b.olderSourceTurns
    ensures ArrayText(a.turns, encode) == ArrayText(b.turns, encode)
  {
    hide ArrayText, ValidId, ValidSlice;
  }
}
