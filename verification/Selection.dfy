/** Bounded selection of previous Turns: the conversation window, the block that is
    handed to a compactor, and the bytes both may take. */
module Selection {
  import opened Support
  import opened JsonShape
  import opened Items

  const USIZE_MAX := U64_MAX
  const MAX_CONVERSATION_TURNS := 256
  const MAX_CONVERSATION_BUDGET_TOKENS := 1_048_576
  const MAX_CONVERSATION_BUDGET_BYTES := 8_388_608
  const MAX_COMPACTION_INPUT_TURNS := 256
  const MAX_COMPACTION_INPUT_BYTES := 8_388_608

  // --------------------------------------------------------------- visibility

  predicate IsModelVisible(item: Item) {
    match item.kind
    case UserMessage(_) => true
    case SteeringApplied(_, _) => true
    case AssistantMessage(_, _, _, _) => true
    case ProviderContinuation(_) => true
    case ToolCall(_, _, _) => true
    case ToolResult(_, _, _, _) => true
    case VerificationResult(_, _, _, _, _) => true
    case _ => false
  }

  /** What the Model is shown of an item: bindings, digests and evidence are
      dropped, steering reads as user input. */
  function ModelVisibleItem(item: Item): Option<Item> {
    match item.kind
    case SteeringApplied(_, content) => Some(item.(kind := UserMessage(content)))
    case ToolResult(callId, output, isError, _) => Some(item.(kind := ToolResult(callId, output, isError, [])))
    case AssistantMessage(modelId, origin, _, content) => Some(item.(kind := AssistantMessage(modelId, origin, None, content)))
    case VerificationResult(verifier, _, _, _, passed) =>
      Some(item.(kind := VerificationResult(verifier, None, None, None, passed)))
    case UserMessage(_) => Some(item)
    case ProviderContinuation(_) => Some(item)
    case ToolCall(_, _, _) => Some(item)
    case _ => None
  }

  function ItemIfVisible(item: Item): seq<Item> {
    var shown := ModelVisibleItem(item);
    if shown.Some? then [shown.value] else []
  }

  function ModelVisibleItems(items: seq<Item>): seq<Item> {
    if items == [] then [] else ItemIfVisible(items[0]) + ModelVisibleItems(items[1..])
  }

  predicate HasModelVisibleItems(items: seq<Item>) {
    exists i :: 0 <= i < |items| && IsModelVisible(items[i])
  }

  /** The test and the projection name the same kinds. */
  lemma {:induction false} VisibleMeansShown(items: seq<Item>)
    ensures HasModelVisibleItems(items) <==> ModelVisibleItems(items) != []
  {
    if items != [] { VisibleMeansShown(items[1..]); }
  }

  /** Showing items twice shows nothing new: what the Model sees is a fixed point. */
  lemma {:induction false} ShowingIsIdempotent(items: seq<Item>)
    ensures ModelVisibleItems(ModelVisibleItems(items)) == ModelVisibleItems(items)
  {
    if items != [] {
      ShowingIsIdempotent(items[1..]);
      var shown := ModelVisibleItem(items[0]);
      if shown.Some? {
        assert ModelVisibleItem(shown.value) == shown;
        assert ([shown.value] + ModelVisibleItems(items[1..]))[1..] == ModelVisibleItems(items[1..]);
      } else {
        assert ModelVisibleItems(items) == ModelVisibleItems(items[1..]);
      }
    }
  }

  /** A shown item is the item itself without bindings, digests and evidence; what
      was said, asked and answered is kept. */
  ghost predicate ShowsAs(item: Item, shown: Item) {
    && shown.id == item.id && shown.createdAt == item.createdAt
    && (item.kind.UserMessage? || item.kind.ProviderContinuation? || item.kind.ToolCall? ==> shown == item)
    && (item.kind.SteeringApplied? ==> shown.kind == UserMessage(item.kind.content))
    && (item.kind.AssistantMessage? ==>
          && shown.kind.AssistantMessage? && shown.kind.content == item.kind.content
          && shown.kind.modelId == item.kind.modelId && shown.kind.modelOrigin == item.kind.modelOrigin
          && shown.kind.requestSha256.None?)
    && (item.kind.ToolResult? ==>
          && shown.kind.ToolResult? && shown.kind.callId == item.kind.callId && shown.kind.output == item.kind.output
          && shown.kind.isError == item.kind.isError && shown.kind.evidence == [])
    && (item.kind.VerificationResult? ==>
          && shown.kind.VerificationResult? && shown.kind.verifier == item.kind.verifier && shown.kind.passed == item.kind.passed
          && shown.kind.candidate.None? && shown.kind.origin.None? && shown.kind.bindingSha256.None?)
  }

  /** What is shown are the visible items, all of them, in order, each as itself. */
  lemma {:induction false} ShownItemsAreExact(items: seq<Item>) returns (indexes: seq<nat>)
    ensures Increasing(indexes)
    ensures forall i: nat :: i in indexes <==> i < |items| && IsModelVisible(items[i])
    ensures |ModelVisibleItems(items)| == |indexes|
    ensures forall k :: 0 <= k < |indexes| ==>
      indexes[k] < |items| && ShowsAs(items[indexes[k]], ModelVisibleItems(items)[k])
  {
    hide ModelVisibleItems, ShowsAs, IsModelVisible;
    if items == [] {
      NothingIsShown();
      return [];
    }
    var n := |items| - 1;
    var front := items[..n];
    indexes := ShownItemsAreExact(front);
    assert forall k :: 0 <= k < |indexes| ==> indexes[k] in indexes;
    assert items == front + [items[n]];
    MessagesOfWholeLog(front, [items[n]]);
    OneShown(items[n]);
    ghost var before := indexes;
    if IsModelVisible(items[n]) {
      indexes := indexes + [n];
    }
    forall i: nat ensures i in indexes <==> i < |items| && IsModelVisible(items[i]) {
      if i < n { assert front[i] == items[i] && (i in indexes <==> i in before); }
    }
  }

  lemma NothingIsShown()
    ensures ModelVisibleItems([]) == []
  {
  }

  lemma OneShown(item: Item)
    ensures |ModelVisibleItems([item])| == if IsModelVisible(item) then 1 else 0
    ensures IsModelVisible(item) ==> ShowsAs(item, ModelVisibleItems([item])[0])
  {
    assert [item][1..] == [];
  }

  /** The messages of an invocation: showing prior and current items apart or
      together is the same. */
  function DeriveMessages(prior: seq<Item>, current: seq<Item>): seq<Item> {
    ModelVisibleItems(prior) + ModelVisibleItems(current)
  }

  lemma {:induction false} MessagesOfWholeLog(prior: seq<Item>, current: seq<Item>)
    ensures DeriveMessages(prior, current) == ModelVisibleItems(prior + current)
  {
    hide ItemIfVisible;
    if prior == [] {
      assert prior + current == current;
    } else {
      var first, rest := ItemIfVisible(prior[0]), prior[1..];
      MessagesOfWholeLog(rest, current);
      assert (prior + current)[1..] == rest + current && (prior + current)[0] == prior[0];
      assert first + (ModelVisibleItems(rest) + ModelVisibleItems(current)) == (first + ModelVisibleItems(rest)) + ModelVisibleItems(current);
    }
  }

  /** A Turn as shown to a compactor. */
  datatype Shown = Shown(turnId: string, items: seq<Item>)

  function ShownIf(turn: Turn): seq<Shown> {
    var items := ModelVisibleItems(turn.items);
    if items == [] then [] else [Shown(turn.id, items)]
  }

  function VisibleTurns(turns: seq<Turn>): seq<Shown> {
    if turns == [] then [] else ShownIf(turns[0]) + VisibleTurns(turns[1..])
  }

  lemma {:induction false} VisibleSplits(turns: seq<Turn>, i: nat)
    requires i <= |turns|
    ensures VisibleTurns(turns) == VisibleTurns(turns[..i]) + VisibleTurns(turns[i..])
  {
    hide ShownIf;
    if i == 0 {
      assert turns[0..] == turns && turns[..0] == [];
    } else {
      assert VisibleTurns(turns[..i]) == ShownIf(turns[0]) + VisibleTurns(turns[..i][1..]);
      VisibleSplits(turns[1..], i - 1);
      assert turns[..i][1..] == turns[1..][..i - 1] && turns[i..] == turns[1..][i - 1..];
    }
  }

  /** These are the positions of the Turns that show something, in order. */
  ghost predicate PicksVisible(turns: seq<Turn>, indexes: seq<nat>) {
    Increasing(indexes) && forall i: nat :: i in indexes <==> i < |turns| && ModelVisibleItems(turns[i].items) != []
  }

  ghost predicate ShowsTurn(shown: Shown, turn: Turn) {
    shown.turnId == turn.id && shown.items == ModelVisibleItems(turn.items)
  }

  ghost predicate ShowsPicked(turns: seq<Turn>, indexes: seq<nat>, shown: seq<Shown>) {
    |shown| == |indexes| && forall k :: 0 <= k < |indexes| ==> indexes[k] < |turns| && ShowsTurn(shown[k], turns[indexes[k]])
  }

  lemma PickExtends(front: seq<Turn>, last: Turn, indexes: seq<nat>)
    requires PicksVisible(front, indexes)
    ensures PicksVisible(front + [last], if ModelVisibleItems(last.items) == [] then indexes else indexes + [|front|])
  {
    hide ModelVisibleItems;
    var turns := front + [last];
    forall k | 0 <= k < |indexes| ensures indexes[k] < |front| { assert indexes[k] in indexes; }
    forall i: nat
      ensures i in indexes <==> i < |front| && i < |turns| && ModelVisibleItems(turns[i].items) != []
    {
      if i < |front| { assert turns[i] == front[i]; }
    }
    assert turns[|front|] == last;
  }

  lemma ShowExtends(front: seq<Turn>, last: Turn, indexes: seq<nat>, shown: seq<Shown>)
    requires ShowsPicked(front, indexes, shown)
    ensures ShowsPicked(front + [last], indexes, shown)
    ensures ShowsPicked(front + [last], indexes + [|front|], shown + [Shown(last.id, ModelVisibleItems(last.items))])
  {
    hide ModelVisibleItems;
  }

  lemma NothingToPick()
    ensures PicksVisible([], []) && ShowsPicked([], [], VisibleTurns([]))
  {
  }

  /** The visible Turns are those that show something, all of them, in order. */
  lemma {:induction false} VisibleTurnsAreExact(turns: seq<Turn>) returns (indexes: seq<nat>)
    ensures PicksVisible(turns, indexes) && ShowsPicked(turns, indexes, VisibleTurns(turns))
  {
    hide VisibleTurns, ModelVisibleItems, PicksVisible, ShowsPicked;
    if turns == [] {
      NothingToPick();
      return [];
    }
    var front, last := turns[..|turns| - 1], turns[|turns| - 1];
    indexes := VisibleTurnsAreExact(front);
    assert turns == front + [last];
    LastVisible(front, last);
    PickExtends(front, last, indexes);
    ShowExtends(front, last, indexes, VisibleTurns(front));
    if ModelVisibleItems(last.items) == [] {
      assert VisibleTurns(turns) == VisibleTurns(front);
    } else {
      indexes := indexes + [|front|];
    }
  }

  method CountVisible(turns: seq<Turn>) returns (count: nat)
    ensures count == |VisibleTurns(turns)|
  {
    count := 0;
    var i := |turns|;
    assert turns[i..] == [];
    while 0 < i
      invariant 0 <= i <= |turns| && count == |VisibleTurns(turns[i..])|
    {
      i := i - 1;
      VisibleMeansShown(turns[i].items);
      assert turns[i..][1..] == turns[i + 1..];
      if HasModelVisibleItems(turns[i].items) {
        count := count + 1;
      }
    }
    assert turns[0..] == turns;
  }

  function Reversed<T>(s: seq<T>): seq<T> {
    if s == [] then [] else [s[|s| - 1]] + Reversed(s[..|s| - 1])
  }

  lemma {:induction false} ReversedLength<T>(s: seq<T>)
    ensures |Reversed(s)| == |s|
  {
    if s != [] { ReversedLength(s[..|s| - 1]); }
  }

  lemma ReversedPush<T>(s: seq<T>, x: T)
    ensures Reversed(s + [x]) == [x] + Reversed(s)
  {
    assert (s + [x])[..|s|] == s;
  }

  // ------------------------------------------------------ the retained window

  datatype Cost = Cost(tokens: nat, bytes: nat)

  /** Token counter and encoder together; an item may fail to encode. */
  type Measure = seq<Item> -> Option<Cost>

  datatype WindowConfig = WindowConfig(maxTurns: nat, budgetTokens: nat, budgetBytes: nat)

  predicate ValidWindow(config: WindowConfig) {
    && 1 <= config.maxTurns <= MAX_CONVERSATION_TURNS
    && 1 <= config.budgetTokens <= MAX_CONVERSATION_BUDGET_TOKENS
    && 1 <= config.budgetBytes <= MAX_CONVERSATION_BUDGET_BYTES
  }

  function CostOf(measure: Measure, turn: Shown): Cost {
    var cost := measure(turn.items);
    if cost.Some? then cost.value else Cost(0, 0)
  }

  function Total(measure: Measure, turns: seq<Shown>): Cost {
    if turns == [] then Cost(0, 0)
    else
      var first, rest := CostOf(measure, turns[0]), Total(measure, turns[1..]);
      Cost(first.tokens + rest.tokens, first.bytes + rest.bytes)
  }

  /** All of these Turns can be measured and fit the three budgets. */
  ghost predicate Fits(turns: seq<Shown>, measure: Measure, config: WindowConfig) {
    && |turns| <= config.maxTurns
    && (forall i :: 0 <= i < |turns| ==> measure(turns[i].items).Some?)
    && Total(measure, turns).tokens <= config.budgetTokens && Total(measure, turns).bytes <= config.budgetBytes
  }

  /** Adding `turn` in front cannot be decided: it does not encode, or a running
      total leaves the machine's range before its budget is compared. */
  predicate Undecidable(turn: Shown, rest: seq<Shown>, measure: Measure, config: WindowConfig) {
    var total, cost := Total(measure, rest), CostOf(measure, turn);
    || measure(turn.items).None?
    || total.tokens + cost.tokens > USIZE_MAX
    || (total.tokens + cost.tokens <= config.budgetTokens && total.bytes + cost.bytes > USIZE_MAX)
  }

  /** The selection comes to a Turn it cannot decide about. */
  ghost predicate Stuck(turns: seq<Shown>, measure: Measure, config: WindowConfig, at: int) {
    && 0 < at <= |turns| && Fits(turns[at..], measure, config) && |turns| - at < config.maxTurns
    && Undecidable(turns[at - 1], turns[at..], measure, config)
  }

  /** `turns[at..]` is the longest suffix that fits. */
  ghost predicate LongestFit(turns: seq<Shown>, measure: Measure, config: WindowConfig, at: int) {
    && 0 <= at <= |turns| && Fits(turns[at..], measure, config)
    && forall m :: 0 <= m < at ==> !Fits(turns[m..], measure, config)
  }

  lemma FitsExtends(turn: Shown, rest: seq<Shown>, measure: Measure, config: WindowConfig)
    ensures var total, cost := Total(measure, rest), CostOf(measure, turn);
      Fits([turn] + rest, measure, config) <==>
        && Fits(rest, measure, config) && |rest| < config.maxTurns && measure(turn.items).Some?
        && total.tokens + cost.tokens <= config.budgetTokens && total.bytes + cost.bytes <= config.budgetBytes
  {
    assert ([turn] + rest)[1..] == rest;
    assert ([turn] + rest)[0] == turn;
    if Fits([turn] + rest, measure, config) {
      assert forall i :: 0 <= i < |rest| ==> ([turn] + rest)[i + 1] == rest[i];
    }
  }

  lemma {:induction false} FitsShrinks(turns: seq<Shown>, measure: Measure, config: WindowConfig, m: nat, at: nat)
    requires m <= at <= |turns| && Fits(turns[m..], measure, config)
    ensures Fits(turns[at..], measure, config)
    decreases at - m
  {
    if m < at {
      assert turns[m..] == [turns[m]] + turns[m + 1..];
      FitsExtends(turns[m], turns[m + 1..], measure, config);
      FitsShrinks(turns, measure, config, m + 1, at);
    }
  }

  /** A suffix that stops growing is the longest, and nothing got stuck. */
  lemma StopIsLongest(turns: seq<Shown>, measure: Measure, config: WindowConfig, at: nat)
    requires ValidWindow(config) && at <= |turns| && Fits(turns[at..], measure, config)
    requires 0 < at ==> !Fits(turns[at - 1..], measure, config) && !Stuck(turns, measure, config, at)
    ensures LongestFit(turns, measure, config, at)
    ensures forall k :: !Stuck(turns, measure, config, k)
  {
    hide Undecidable;
    forall m | 0 <= m < at ensures !Fits(turns[m..], measure, config) {
      if Fits(turns[m..], measure, config) { FitsShrinks(turns, measure, config, m, at - 1); }
    }
    forall k ensures !Stuck(turns, measure, config, k) {
      if at < k <= |turns| {
        FitsShrinks(turns, measure, config, at, k - 1);
        FittingIsDecidable(turns, measure, config, k);
      }
    }
  }

  lemma FittingIsDecidable(turns: seq<Shown>, measure: Measure, config: WindowConfig, k: nat)
    requires ValidWindow(config) && 0 < k <= |turns| && Fits(turns[k - 1..], measure, config)
    ensures !Undecidable(turns[k - 1], turns[k..], measure, config)
  {
    assert turns[k - 1..] == [turns[k - 1]] + turns[k..];
    FitsExtends(turns[k - 1], turns[k..], measure, config);
  }

  datatype SelectionError = InvalidConfig | CannotMeasure | BudgetOverflow | NewestTooLarge

  datatype Choice = Take(total: Cost) | Stop | Fail(error: SelectionError)

  /** Whether the next older Turn joins the window. */
  method Consider(turn: Shown, ghost kept: seq<Shown>, count: nat, total: Cost, measure: Measure, config: WindowConfig)
    returns (choice: Choice)
    requires ValidWindow(config) && Fits(kept, measure, config) && count == |kept| && total == Total(measure, kept)
    ensures choice.Take? <==> Fits([turn] + kept, measure, config)
    ensures choice.Take? ==> choice.total == Total(measure, [turn] + kept)
    ensures choice.Fail? <==> count < config.maxTurns && Undecidable(turn, kept, measure, config)
  {
    FitsExtends(turn, kept, measure, config);
    TotalExtends(turn, kept, measure);
    hide Fits, Total;
    if count >= config.maxTurns {
      return Stop;
    }
    var cost := measure(turn.items);
    if cost.None? {
      return Fail(CannotMeasure);
    }
    var tokens := total.tokens + cost.value.tokens;
    if tokens > USIZE_MAX {
      return Fail(BudgetOverflow);
    }
    if tokens > config.budgetTokens {
      return Stop;
    }
    var bytes := total.bytes + cost.value.bytes;
    if bytes > USIZE_MAX {
      return Fail(BudgetOverflow);
    }
    if bytes > config.budgetBytes {
      return Stop;
    }
    return Take(Cost(tokens, bytes));
  }

  /** The window is the longest fitting suffix, and no Turn was undecidable. */
  ghost predicate IsWindow(all: seq<Shown>, measure: Measure, config: WindowConfig, kept: seq<Shown>) {
    && |kept| <= |all| && kept == all[|all| - |kept|..]
    && LongestFit(all, measure, config, |all| - |kept|)
    && forall k :: !Stuck(all, measure, config, k)
  }

  lemma Stopped(older: seq<Shown>, turn: Shown, kept: seq<Shown>, measure: Measure, config: WindowConfig)
    requires ValidWindow(config) && Fits(kept, measure, config) && !Fits([turn] + kept, measure, config)
    requires |kept| == config.maxTurns || !Undecidable(turn, kept, measure, config)
    ensures IsWindow(older + [turn] + kept, measure, config, kept)
  {
    hide Fits, Undecidable;
    var all := older + [turn] + kept;
    assert all[|older| + 1..] == kept && all[|older|..] == [turn] + kept && all[|older|] == turn;
    StopIsLongest(all, measure, config, |older| + 1);
  }

  lemma GotStuck(older: seq<Shown>, turn: Shown, kept: seq<Shown>, measure: Measure, config: WindowConfig)
    requires Fits(kept, measure, config) && |kept| < config.maxTurns && Undecidable(turn, kept, measure, config)
    ensures Stuck(older + [turn] + kept, measure, config, |older| + 1)
  {
    hide Fits, Undecidable;
    var all := older + [turn] + kept;
    assert all[|older| + 1..] == kept && all[|older|] == turn;
  }

  lemma AllFit(all: seq<Shown>, measure: Measure, config: WindowConfig)
    requires ValidWindow(config) && Fits(all, measure, config)
    ensures IsWindow(all, measure, config, all)
  {
    hide Fits, Undecidable;
    assert all[0..] == all;
    StopIsLongest(all, measure, config, 0);
  }

  datatype Window = Window(turns: seq<Shown>, total: Cost)

  /** Walks the Turns from the newest to the oldest and keeps what fits. */
  method SelectWindow(turns: seq<Turn>, measure: Measure, config: WindowConfig) returns (r: Result<Window, SelectionError>)
    requires ValidWindow(config)
    ensures r.Err? <==> exists at :: Stuck(VisibleTurns(turns), measure, config, at)
    ensures r.Ok? ==> IsWindow(VisibleTurns(turns), measure, config, r.value.turns)
    ensures r.Ok? ==> r.value.total == Total(measure, r.value.turns)
  {
    hide Fits, Total, Undecidable, ModelVisibleItems, VisibleTurns, Reversed, Stuck, LongestFit;
    var selected: seq<Shown> := [];
    var total := Cost(0, 0);
    var i := |turns|;
    assert turns[..i] == turns;
    EmptyFits(measure, config);
    while 0 < i
      invariant 0 <= i <= |turns|
      invariant VisibleTurns(turns) == VisibleTurns(turns[..i]) + Reversed(selected)
      invariant Fits(Reversed(selected), measure, config) && total == Total(measure, Reversed(selected))
    {
      i := i - 1;
      assert turns[..i + 1] == turns[..i] + [turns[i]];
      LastVisible(turns[..i], turns[i]);
      var items := ModelVisibleItems(turns[i].items);
      if items == [] {
        continue;
      }
      var turn := Shown(turns[i].id, items);
      ReversedLength(selected);
      var choice := Consider(turn, Reversed(selected), |selected|, total, measure, config);
      match choice
      case Take(next) =>
        ReversedPush(selected, turn);
        assert VisibleTurns(turns[..i]) + [turn] + Reversed(selected) == VisibleTurns(turns[..i]) + ([turn] + Reversed(selected));
        selected := selected + [turn];
        total := next;
      case Stop =>
        FitIsBounded(Reversed(selected), measure, config);
        Stopped(VisibleTurns(turns[..i]), turn, Reversed(selected), measure, config);
        return Ok(Window(Reversed(selected), total));
      case Fail(error) =>
        GotStuck(VisibleTurns(turns[..i]), turn, Reversed(selected), measure, config);
        return Err(error);
    }
    NoTurns(turns);
    assert VisibleTurns(turns) == Reversed(selected);
    AllFit(Reversed(selected), measure, config);
    return Ok(Window(Reversed(selected), total));
  }

  lemma NoTurns(turns: seq<Turn>)
    ensures VisibleTurns(turns[..0]) == []
  {
  }

  lemma EmptyFits(measure: Measure, config: WindowConfig)
    ensures Fits(Reversed([]), measure, config) && Total(measure, Reversed([])) == Cost(0, 0) && Reversed<Shown>([]) == []
  {
  }

  lemma FitIsBounded(turns: seq<Shown>, measure: Measure, config: WindowConfig)
    requires Fits(turns, measure, config)
    ensures |turns| <= config.maxTurns
  {
  }

  lemma TotalExtends(turn: Shown, rest: seq<Shown>, measure: Measure)
    ensures var total, cost := Total(measure, rest), CostOf(measure, turn);
      Total(measure, [turn] + rest) == Cost(cost.tokens + total.tokens, cost.bytes + total.bytes)
  {
    assert ([turn] + rest)[1..] == rest;
  }

  lemma LastVisible(front: seq<Turn>, last: Turn)
    ensures var items := ModelVisibleItems(last.items);
      VisibleTurns(front + [last]) == VisibleTurns(front) + (if items == [] then [] else [Shown(last.id, items)])
  {
    hide ModelVisibleItems;
    VisibleSplits(front + [last], |front|);
    assert (front + [last])[..|front|] == front && (front + [last])[|front|..] == [last];
    assert [last][1..] == [];
  }

  // --------------------------------------------------- the block to be compacted

  /** Compact JSON of one Turn, if it encodes. */
  type Encoder = Shown -> Option<seq<byte>>

  datatype BlockConfig = BlockConfig(maxTurns: nat, budgetBytes: nat)

  predicate ValidBlockConfig(config: BlockConfig) {
    1 <= config.maxTurns <= MAX_COMPACTION_INPUT_TURNS && 1 <= config.budgetBytes <= MAX_COMPACTION_INPUT_BYTES
  }

  function TextOf(turn: Shown, encode: Encoder): seq<byte> {
    var text := encode(turn);
    if text.Some? then text.value else []
  }

  predicate Encodes(turn: Shown, encode: Encoder) {
    encode(turn).Some? && |TextOf(turn, encode)| <= MAX_COMPACTION_INPUT_BYTES
  }

  const COMMA: byte := 0x2C
  const OPEN: byte := 0x5B
  const CLOSE: byte := 0x5D

  /** The elements of a compact JSON array, with their separators. */
  function Elements(turns: seq<Shown>, encode: Encoder): seq<byte> {
    if turns == [] then []
    else TextOf(turns[0], encode) + (if |turns| == 1 then [] else [COMMA]) + Elements(turns[1..], encode)
  }

  /** The compact JSON array (section 5 of RFC 8259). */
  function ArrayText(turns: seq<Shown>, encode: Encoder): seq<byte> {
    [OPEN] + Elements(turns, encode) + [CLOSE]
  }

  ghost predicate BlockFits(turns: seq<Shown>, encode: Encoder, config: BlockConfig) {
    && |turns| <= config.maxTurns
    && (forall i :: 0 <= i < |turns| ==> Encodes(turns[i], encode))
    && (turns != [] ==> |ArrayText(turns, encode)| <= config.budgetBytes)
  }

  lemma TextExtends(turn: Shown, rest: seq<Shown>, encode: Encoder)
    ensures |ArrayText([turn] + rest, encode)|
         == |ArrayText(rest, encode)| + (if rest == [] then 0 else 1) + |TextOf(turn, encode)|
  {
    assert ([turn] + rest)[1..] == rest;
  }

  lemma BlockExtends(turn: Shown, rest: seq<Shown>, encode: Encoder, config: BlockConfig)
    ensures BlockFits([turn] + rest, encode, config) <==>
      && BlockFits(rest, encode, config) && |rest| < config.maxTurns && Encodes(turn, encode)
      && |ArrayText([turn] + rest, encode)| <= config.budgetBytes
  {
    hide Encodes, ArrayText;
    TextExtends(turn, rest, encode);
    assert ([turn] + rest)[0] == turn;
    assert forall i :: 0 <= i < |rest| ==> ([turn] + rest)[i + 1] == rest[i];
  }

  lemma {:induction false} BlockShrinks(turns: seq<Shown>, encode: Encoder, config: BlockConfig, m: nat, at: nat)
    requires m <= at <= |turns| && BlockFits(turns[m..], encode, config)
    ensures BlockFits(turns[at..], encode, config)
    decreases at - m
  {
    if m < at {
      hide BlockFits;
      assert turns[m..] == [turns[m]] + turns[m + 1..];
      BlockExtends(turns[m], turns[m + 1..], encode, config);
      BlockShrinks(turns, encode, config, m + 1, at);
    }
  }

  /** `turns[at..]` is the longest suffix that fits; it is not empty. */
  ghost predicate LongestBlock(turns: seq<Shown>, encode: Encoder, config: BlockConfig, at: int) {
    && 0 <= at < |turns| && BlockFits(turns[at..], encode, config)
    && forall m :: 0 <= m < at ==> !BlockFits(turns[m..], encode, config)
  }

  /** The selection comes to a Turn that does not encode, or the newest Turn alone
      is over the budget. */
  ghost predicate BlockStuck(turns: seq<Shown>, encode: Encoder, config: BlockConfig, at: int) {
    && 0 < at <= |turns| && BlockFits(turns[at..], encode, config) && |turns| - at < config.maxTurns
    && (!Encodes(turns[at - 1], encode) || (at == |turns| && !BlockFits(turns[at - 1..], encode, config)))
  }

  ghost predicate IsBlock(all: seq<Shown>, encode: Encoder, config: BlockConfig, block: seq<Shown>) {
    && |block| <= |all| && block == all[|all| - |block|..]
    && LongestBlock(all, encode, config, |all| - |block|)
    && forall k :: !BlockStuck(all, encode, config, k)
  }

  lemma BlockStopped(all: seq<Shown>, encode: Encoder, config: BlockConfig, at: nat)
    requires at < |all| && BlockFits(all[at..], encode, config)
    requires 0 < at ==> !BlockFits(all[at - 1..], encode, config) && !BlockStuck(all, encode, config, at)
    ensures IsBlock(all, encode, config, all[at..])
  {
    hide BlockFits, Encodes;
    forall m | 0 <= m < at ensures !BlockFits(all[m..], encode, config) {
      if BlockFits(all[m..], encode, config) { BlockShrinks(all, encode, config, m, at - 1); }
    }
    forall k ensures !BlockStuck(all, encode, config, k) {
      if at < k <= |all| {
        BlockShrinks(all, encode, config, at, k - 1);
        assert all[k - 1..] == [all[k - 1]] + all[k..];
        BlockExtends(all[k - 1], all[k..], encode, config);
      }
    }
  }

  datatype BlockChoice = TakeTurn(encodedBytes: nat) | StopBlock | FailBlock(error: SelectionError)

  method ConsiderForBlock(turn: Shown, ghost kept: seq<Shown>, count: nat, encodedBytes: nat, encode: Encoder, config: BlockConfig)
    returns (choice: BlockChoice)
    requires ValidBlockConfig(config) && BlockFits(kept, encode, config)
    requires count == |kept| && encodedBytes == |ArrayText(kept, encode)|
    ensures choice.TakeTurn? <==> BlockFits([turn] + kept, encode, config)
    ensures choice.TakeTurn? ==> choice.encodedBytes == |ArrayText([turn] + kept, encode)|
    ensures choice.FailBlock? <==>
      && count < config.maxTurns
      && (!Encodes(turn, encode) || (kept == [] && !BlockFits([turn] + kept, encode, config)))
  {
    BlockExtends(turn, kept, encode, config);
    TextExtends(turn, kept, encode);
    hide BlockFits, ArrayText;
    if count >= config.maxTurns {
      return StopBlock;
    }
    var text := encode(turn);
    if text.None? || |text.value| > MAX_COMPACTION_INPUT_BYTES {
      return FailBlock(CannotMeasure);
    }
    var next := encodedBytes + (if count == 0 then 0 else 1) + |text.value|;
    if next > config.budgetBytes {
      return if count == 0 then FailBlock(NewestTooLarge) else StopBlock;
    }
    return TakeTurn(next);
  }

  lemma BlockStop(older: seq<Shown>, turn: Shown, kept: seq<Shown>, encode: Encoder, config: BlockConfig)
    requires BlockFits(kept, encode, config) && !BlockFits([turn] + kept, encode, config) && kept != []
    requires |kept| == config.maxTurns || Encodes(turn, encode)
    ensures IsBlock(older + [turn] + kept, encode, config, kept)
  {
    hide BlockFits, Encodes;
    var all := older + [turn] + kept;
    assert all[|older| + 1..] == kept && all[|older|..] == [turn] + kept && all[|older|] == turn;
    BlockStopped(all, encode, config, |older| + 1);
  }

  lemma BlockGotStuck(older: seq<Shown>, turn: Shown, kept: seq<Shown>, encode: Encoder, config: BlockConfig)
    requires BlockFits(kept, encode, config) && |kept| < config.maxTurns
    requires !Encodes(turn, encode) || (kept == [] && !BlockFits([turn] + kept, encode, config))
    ensures BlockStuck(older + [turn] + kept, encode, config, |older| + 1)
  {
    hide BlockFits, Encodes;
    var all := older + [turn] + kept;
    assert all[|older| + 1..] == kept && all[|older|] == turn && all[|older|..] == [turn] + kept;
  }

  lemma AllInBlock(all: seq<Shown>, encode: Encoder, config: BlockConfig)
    requires all != [] && BlockFits(all, encode, config)
    ensures IsBlock(all, encode, config, all)
  {
    hide BlockFits, Encodes;
    assert all[0..] == all;
    BlockStopped(all, encode, config, 0);
  }

  lemma EmptyBlock(encode: Encoder, config: BlockConfig)
    requires ValidBlockConfig(config)
    ensures BlockFits(Reversed([]), encode, config) && |ArrayText(Reversed([]), encode)| == 2 && Reversed<Shown>([]) == []
  {
  }

  /** The visible Turns without the newest `skip`. */
  function Omitted(turns: seq<Turn>, skip: nat): seq<Shown>
    requires skip <= |VisibleTurns(turns)|
  {
    VisibleTurns(turns)[..|VisibleTurns(turns)| - skip]
  }

  lemma Omits(turns: seq<Turn>, front: seq<Shown>, passed: seq<Shown>)
    requires VisibleTurns(turns) == front + passed
    ensures Omitted(turns, |passed|) == front
  {
  }

  datatype Block = Block(turns: seq<Shown>, encodedBytes: nat)

  /** Walks from the newest Turn, passes over `skip` visible ones and then collects
      the bounded block that lies just before them. The running total is the exact
      size of the block's JSON array. */
  method SelectBlock(turns: seq<Turn>, skip: nat, encode: Encoder, config: BlockConfig)
    returns (r: Result<Block, SelectionError>)
    requires ValidBlockConfig(config) && skip < |VisibleTurns(turns)|
    ensures r.Err? <==> exists at :: BlockStuck(Omitted(turns, skip), encode, config, at)
    ensures r.Ok? ==> IsBlock(Omitted(turns, skip), encode, config, r.value.turns)
    ensures r.Ok? ==> r.value.encodedBytes == |ArrayText(r.value.turns, encode)|
  {
    hide BlockFits, ArrayText, Encodes, ModelVisibleItems, VisibleTurns, Reversed, BlockStuck, LongestBlock, Omitted;
    var selected: seq<Shown> := [];
    var encodedBytes := 2;
    var skipped := 0;
    ghost var passed: seq<Shown> := [];
    var i := |turns|;
    assert turns[..i] == turns;
    EmptyBlock(encode, config);
    while 0 < i
      invariant 0 <= i <= |turns|
      invariant VisibleTurns(turns) == VisibleTurns(turns[..i]) + Reversed(selected) + passed
      invariant |passed| == skipped <= skip && (selected != [] ==> skipped == skip)
      invariant BlockFits(Reversed(selected), encode, config) && encodedBytes == |ArrayText(Reversed(selected), encode)|
    {
      i := i - 1;
      assert turns[..i + 1] == turns[..i] + [turns[i]];
      LastVisible(turns[..i], turns[i]);
      var items := ModelVisibleItems(turns[i].items);
      if items == [] {
        continue;
      }
      var turn := Shown(turns[i].id, items);
      ghost var older, kept := VisibleTurns(turns[..i]), Reversed(selected);
      ReversedLength(selected);
      if skipped < skip {
        assert older + [turn] + kept + passed == older + kept + ([turn] + passed);
        passed := [turn] + passed;
        skipped := skipped + 1;
        continue;
      }
      Omits(turns, older + [turn] + kept, passed);
      var choice := ConsiderForBlock(turn, kept, |selected|, encodedBytes, encode, config);
      match choice
      case TakeTurn(next) =>
        ReversedPush(selected, turn);
        assert older + [turn] + kept == older + ([turn] + kept);
        selected := selected + [turn];
        encodedBytes := next;
      case StopBlock =>
        BlockIsBounded(kept, encode, config);
        BlockStop(older, turn, kept, encode, config);
        return Ok(Block(Reversed(selected), encodedBytes));
      case FailBlock(error) =>
        BlockGotStuck(older, turn, kept, encode, config);
        return Err(error);
    }
    NoTurns(turns);
    ReversedLength(selected);
    assert VisibleTurns(turns) == Reversed(selected) + passed;
    Omits(turns, Reversed(selected), passed);
    AllInBlock(Reversed(selected), encode, config);
    return Ok(Block(Reversed(selected), encodedBytes));
  }

  lemma BlockIsBounded(turns: seq<Shown>, encode: Encoder, config: BlockConfig)
    requires BlockFits(turns, encode, config)
    ensures |turns| <= config.maxTurns && (turns != [] ==> |ArrayText(turns, encode)| <= config.budgetBytes)
  {
  }

  // ------------------------------------------------------------- conversation

  /** `source` is what the recorded digest hashes. */
  datatype Compaction = Compaction(covered: seq<Shown>, olderOmitted: nat, source: seq<byte>)

  datatype Conversation = Conversation(retained: seq<Shown>, droppedTurns: nat, total: Cost, compaction: Option<Compaction>)

  /** The compaction input: the longest bounded block just before the retained
      Turns, encoded exactly, with the number of still-older Turns. */
  ghost predicate IsCompaction(turns: seq<Turn>, retained: nat, encode: Encoder, config: BlockConfig, c: Compaction)
    requires retained < |VisibleTurns(turns)|
  {
    && c.covered != [] && IsBlock(Omitted(turns, retained), encode, config, c.covered)
    && c.olderOmitted == |VisibleTurns(turns)| - retained - |c.covered|
    && c.source == ArrayText(c.covered, encode) && |c.source| <= config.budgetBytes
  }

  method PrepareConversationCompaction(turns: seq<Turn>, retained: nat, dropped: nat, encode: Encoder, config: Option<BlockConfig>)
    returns (r: Result<Option<Compaction>, SelectionError>)
    requires config.Some? ==> ValidBlockConfig(config.value)
    requires retained + dropped == |VisibleTurns(turns)|
    ensures config.None? || dropped == 0 ==> r == Ok(None)
    ensures config.Some? && 0 < dropped ==>
      && (r.Err? <==> exists at :: BlockStuck(Omitted(turns, retained), encode, config.value, at))
      && (r.Ok? ==> r.value.Some? && IsCompaction(turns, retained, encode, config.value, r.value.value))
  {
    hide BlockFits, ArrayText, Encodes, VisibleTurns, BlockStuck;
    if config.None? || dropped == 0 {
      return Ok(None);
    }
    var block := SelectBlock(turns, retained, encode, config.value);
    if block.Err? {
      return Err(block.error);
    }
    BlockIsBounded(block.value.turns, encode, config.value);
    WholeText(ArrayText(block.value.turns, encode));
    var encoded := ToBoundedJsonVec([ArrayText(block.value.turns, encode)], config.value.budgetBytes);
    return Ok(Some(Compaction(block.value.turns, dropped - |block.value.turns|, encoded.value)));
  }

  lemma WholeText(text: seq<byte>)
    ensures Joined([text]) == text
  {
    assert [text][1..] == [];
  }

  /** The visible Turns are split as older ++ covered ++ retained with exact
      counts. */
  lemma VisibleTurnsSplit(turns: seq<Turn>, retained: seq<Shown>, measure: Measure, window: WindowConfig,
                          encode: Encoder, config: BlockConfig, c: Compaction)
    requires IsWindow(VisibleTurns(turns), measure, window, retained) && |retained| < |VisibleTurns(turns)|
    requires IsCompaction(turns, |retained|, encode, config, c)
    ensures c.olderOmitted <= |VisibleTurns(turns)|
    ensures VisibleTurns(turns) == VisibleTurns(turns)[..c.olderOmitted] + c.covered + retained
  {
    hide VisibleTurns, LongestBlock, LongestFit, ArrayText, Stuck, BlockStuck;
    var all := VisibleTurns(turns);
    var front := Omitted(turns, |retained|);
    assert all == front + retained;
    assert front == front[..c.olderOmitted] + c.covered;
  }

  /** There is one window. */
  lemma WindowIsUnique(all: seq<Shown>, measure: Measure, config: WindowConfig, a: seq<Shown>, b: seq<Shown>)
    requires IsWindow(all, measure, config, a) && IsWindow(all, measure, config, b)
    ensures a == b
  {
    hide Fits, Stuck;
  }

  /** The window is `retained`, Turns are left out of it, and the block just before
      it cannot be selected. */
  ghost predicate CompactionStuck(turns: seq<Turn>, retained: seq<Shown>, measure: Measure, window: WindowConfig,
                                  encode: Encoder, config: BlockConfig)
  {
    && IsWindow(VisibleTurns(turns), measure, window, retained) && |retained| < |VisibleTurns(turns)|
    && exists at :: BlockStuck(Omitted(turns, |retained|), encode, config, at)
  }

  /** The newest whole Turns within three budgets and, when a compactor is
      configured and Turns were dropped, the block just before them. */
  method CompileConversation(turns: seq<Turn>, measure: Measure, window: WindowConfig,
                             encode: Encoder, compaction: Option<BlockConfig>)
    returns (r: Result<Conversation, SelectionError>)
    ensures r.Ok? ==> ValidWindow(window) && (compaction.Some? ==> ValidBlockConfig(compaction.value))
    ensures r.Ok? ==>
      && IsWindow(VisibleTurns(turns), measure, window, r.value.retained)
      && r.value.total == Total(measure, r.value.retained)
      && r.value.droppedTurns == |VisibleTurns(turns)| - |r.value.retained|
      && (r.value.compaction.Some? <==> compaction.Some? && 0 < r.value.droppedTurns)
    ensures r.Ok? && r.value.compaction.Some? ==>
      && |r.value.retained| < |VisibleTurns(turns)|
      && IsCompaction(turns, |r.value.retained|, encode, compaction.value, r.value.compaction.value)
    ensures r.Err? <==>
      || !ValidWindow(window) || (compaction.Some? && !ValidBlockConfig(compaction.value))
      || (exists at :: Stuck(VisibleTurns(turns), measure, window, at))
      || (compaction.Some? && exists retained :: CompactionStuck(turns, retained, measure, window, encode, compaction.value))
  {
    hide VisibleTurns, LongestFit, Stuck, BlockStuck, IsCompaction, Total, Omitted;
    if !ValidWindow(window) || (compaction.Some? && !ValidBlockConfig(compaction.value)) {
      return Err(InvalidConfig);
    }
    var candidates := CountVisible(turns);
    var selected := SelectWindow(turns, measure, window);
    if selected.Err? {
      return Err(selected.error);
    }
    var retained := selected.value.turns;
    forall other | IsWindow(VisibleTurns(turns), measure, window, other) ensures other == retained {
      WindowIsUnique(VisibleTurns(turns), measure, window, other, retained);
    }
    var dropped := if candidates < |retained| then 0 else candidates - |retained|;
    var prepared := PrepareConversationCompaction(turns, |retained|, dropped, encode, compaction);
    if prepared.Err? {
      assert CompactionStuck(turns, retained, measure, window, encode, compaction.value);
      return Err(prepared.error);
    }
    return Ok(Conversation(retained, dropped, selected.value.total, prepared.value));
  }
}
