/** The explicit-stack check of a JSON tree against its node and depth limits, and
    the bounded writers that a streaming encoder writes into. */
module JsonShape {
  import opened Support

  const MAX_JSON_DEPTH := 64
  const MAX_JSON_NODES := 65_536

  datatype Json =
    | Scalar(text: string)
    | Array(values: seq<Json>)
    | Object(members: seq<Member>)

  datatype Member = Member(key: string, value: Json)

  function Children(value: Json): seq<Json> {
    match value
    case Scalar(_) => []
    case Array(values) => values
    case Object(members) => seq(|members|, i requires 0 <= i < |members| => members[i].value)
  }

  // ----------------------------------------------------------- specification

  function Nodes(value: Json): (n: nat)
    ensures 1 <= n
  {
    match value
    case Scalar(_) => 1
    case Array(values) => 1 + NodesOf(values)
    case Object(members) => 1 + NodesOfMembers(members)
  }

  function NodesOf(values: seq<Json>): nat {
    if values == [] then 0 else Nodes(values[0]) + NodesOf(values[1..])
  }

  function NodesOfMembers(members: seq<Member>): nat {
    if members == [] then 0 else Nodes(members[0].value) + NodesOfMembers(members[1..])
  }

  /** Every node of the tree lies at most `budget` levels below its root. */
  ghost predicate Within(value: Json, budget: int) {
    && 0 <= budget
    && match value
       case Scalar(_) => true
       case Array(values) => forall i :: 0 <= i < |values| ==> Within(values[i], budget - 1)
       case Object(members) => forall i :: 0 <= i < |members| ==> Within(members[i].value, budget - 1)
  }

  lemma {:induction false} MembersAreValues(members: seq<Member>)
    ensures NodesOfMembers(members) == NodesOf(Children(Object(members)))
  {
    if members != [] {
      MembersAreValues(members[1..]);
      assert Children(Object(members))[1..] == Children(Object(members[1..]));
    }
  }

  lemma ParentCountsChildren(value: Json)
    ensures Nodes(value) == 1 + NodesOf(Children(value))
  {
    if value.Object? { MembersAreValues(value.members); }
  }

  lemma ParentBoundsChildren(value: Json, budget: int)
    requires 0 <= budget
    ensures Within(value, budget) <==> forall child :: child in Children(value) ==> Within(child, budget - 1)
  {
    var children := Children(value);
    assert forall i :: 0 <= i < |children| ==> children[i] in children;
    if value.Object? {
      assert forall i :: 0 <= i < |children| ==> children[i] == value.members[i].value;
    }
  }

  // ------------------------------------------------------------ pending stack

  datatype Visit = Visit(value: Json, depth: nat)

  function PendingNodes(pending: seq<Visit>): nat {
    if pending == [] then 0
    else PendingNodes(pending[..|pending| - 1]) + Nodes(pending[|pending| - 1].value)
  }

  ghost predicate PendingWithin(pending: seq<Visit>) {
    forall i :: 0 <= i < |pending| ==> Within(pending[i].value, MAX_JSON_DEPTH - pending[i].depth)
  }

  function Visits(values: seq<Json>, depth: nat): seq<Visit> {
    seq(|values|, i requires 0 <= i < |values| => Visit(values[i], depth))
  }

  lemma {:induction false} PendingCountsAppended(pending: seq<Visit>, values: seq<Json>, depth: nat)
    ensures PendingNodes(pending + Visits(values, depth)) == PendingNodes(pending) + NodesOf(values)
    decreases |values|
  {
    if values == [] {
      assert pending + Visits(values, depth) == pending;
    } else {
      assert pending + Visits(values, depth) == (pending + [Visit(values[0], depth)]) + Visits(values[1..], depth);
      PendingCountsAppended(pending + [Visit(values[0], depth)], values[1..], depth);
      assert (pending + [Visit(values[0], depth)])[..|pending|] == pending;
    }
  }

  lemma {:induction false} EachPendingIsANode(pending: seq<Visit>)
    ensures |pending| <= PendingNodes(pending)
  {
    if pending != [] { EachPendingIsANode(pending[..|pending| - 1]); }
  }

  lemma ChildrenReplaceParent(rest: seq<Visit>, top: Visit)
    requires top.depth <= MAX_JSON_DEPTH
    ensures var next := rest + Visits(Children(top.value), top.depth + 1);
      PendingWithin(next) <==> PendingWithin(rest + [top])
  {
    var children := Children(top.value);
    var visits := Visits(children, top.depth + 1);
    var next := rest + visits;
    ParentBoundsChildren(top.value, MAX_JSON_DEPTH - top.depth);
    if PendingWithin(next) {
      forall child | child in children ensures Within(child, MAX_JSON_DEPTH - top.depth - 1) {
        var i :| 0 <= i < |children| && children[i] == child;
        assert next[|rest| + i] == visits[i];
      }
      assert forall i :: 0 <= i < |rest| ==> next[i] == rest[i];
    }
    if PendingWithin(rest + [top]) {
      assert (rest + [top])[|rest|] == top;
      forall i | 0 <= i < |next| ensures Within(next[i].value, MAX_JSON_DEPTH - next[i].depth) {
        if i < |rest| {
          assert (rest + [top])[i] == rest[i];
        } else {
          assert children[i - |rest|] in children;
        }
      }
    }
  }

  ghost predicate DepthsOk(pending: seq<Visit>) {
    forall i :: 0 <= i < |pending| ==> pending[i].depth <= MAX_JSON_DEPTH
  }

  lemma PendingPush(rest: seq<Visit>, top: Visit)
    ensures PendingNodes(rest + [top]) == PendingNodes(rest) + Nodes(top.value)
  {
    assert (rest + [top])[..|rest|] == rest;
  }

  lemma VisitDepths(rest: seq<Visit>, top: Visit, children: seq<Json>)
    requires DepthsOk(rest + [top])
    ensures var next := rest + Visits(children, top.depth + 1);
      && (children == [] || top.depth < MAX_JSON_DEPTH ==> DepthsOk(next))
      && (children != [] && top.depth >= MAX_JSON_DEPTH ==> !PendingWithin(next))
  {
    var next := rest + Visits(children, top.depth + 1);
    assert forall i :: 0 <= i < |rest| ==> next[i] == (rest + [top])[i];
    if children != [] && top.depth >= MAX_JSON_DEPTH {
      assert next[|rest|] == Visit(children[0], top.depth + 1);
    }
  }

  /** Visiting the top of the stack replaces it by its children. */
  lemma VisitStep(rest: seq<Visit>, top: Visit)
    requires DepthsOk(rest + [top])
    ensures var children := Children(top.value);
      var next := rest + Visits(children, top.depth + 1);
      && PendingNodes(rest + [top]) == 1 + PendingNodes(next)
      && |rest| + |children| <= PendingNodes(next)
      && (PendingWithin(next) <==> PendingWithin(rest + [top]))
      && (children == [] || top.depth < MAX_JSON_DEPTH ==> DepthsOk(next))
      && (children != [] && top.depth >= MAX_JSON_DEPTH ==> !PendingWithin(next))
  {
    hide Nodes, NodesOf, Within, Children, PendingNodes, PendingWithin;
    var children := Children(top.value);
    assert (rest + [top])[|rest|] == top;
    PendingPush(rest, top);
    ParentCountsChildren(top.value);
    ChildrenReplaceParent(rest, top);
    PendingCountsAppended(rest, children, top.depth + 1);
    EachPendingIsANode(rest + Visits(children, top.depth + 1));
    VisitDepths(rest, top, children);
  }

  function SaturatingSub(a: nat, b: nat): nat {
    if a < b then 0 else a - b
  }

  predicate ChildrenFit(visited: nat, pending: nat, depth: nat, children: nat) {
    !(children > 0 && depth >= MAX_JSON_DEPTH)
    && children <= SaturatingSub(SaturatingSub(MAX_JSON_NODES, visited), pending)
  }

  lemma OneVisit(value: Json)
    ensures PendingNodes([Visit(value, 0)]) == Nodes(value) && DepthsOk([Visit(value, 0)])
    ensures PendingWithin([Visit(value, 0)]) <==> Within(value, MAX_JSON_DEPTH)
  {
    assert [Visit(value, 0)][..0] == [];
  }

  lemma NoVisit()
    ensures PendingNodes([]) == 0 && PendingWithin([])
  {
  }

  /** Accepts exactly the trees within both limits. The stack and the visited
      count together never exceed the node limit. */
  method ValidateValueShape(value: Json) returns (ok: bool)
    ensures ok <==> Nodes(value) <= MAX_JSON_NODES && Within(value, MAX_JSON_DEPTH)
  {
    hide Nodes, Children, Within, PendingNodes, PendingWithin;
    var pending := [Visit(value, 0)];
    var visited := 0;
    OneVisit(value);
    while pending != []
      invariant visited + |pending| <= MAX_JSON_NODES
      invariant visited + PendingNodes(pending) == Nodes(value)
      invariant PendingWithin(pending) <==> Within(value, MAX_JSON_DEPTH)
      invariant DepthsOk(pending)
      decreases PendingNodes(pending)
    {
      var top := pending[|pending| - 1];
      var rest := pending[..|pending| - 1];
      assert pending == rest + [top];
      pending := rest;
      visited := visited + 1;
      if top.depth > MAX_JSON_DEPTH || visited > MAX_JSON_NODES {
        return false;
      }
      var children := Children(top.value);
      VisitStep(rest, top);
      if !ChildrenFit(visited, |pending|, top.depth, |children|) {
        return false;
      }
      pending := rest + Visits(children, top.depth + 1);
    }
    NoVisit();
    ok := true;
  }

  // ---------------------------------------------------------- bounded writers

  type byte = x: int | 0 <= x < 256

  datatype BoundedJsonError = LimitExceeded | CannotEncode

  function Joined(chunks: seq<seq<byte>>): seq<byte> {
    if chunks == [] then [] else chunks[0] + Joined(chunks[1..])
  }

  /** Accepts writes while the total stays within `maximum`. */
  class BoundedVecWriter {
    var bytes: seq<byte>
    const maximum: nat
    var exceeded: bool

    constructor (maximum: nat)
      ensures bytes == [] && this.maximum == maximum && !exceeded
    {
      bytes, exceeded := [], false;
      this.maximum := maximum;
    }

    method Write(buffer: seq<byte>) returns (ok: bool)
      modifies this
      ensures ok <==> old(|bytes|) + |buffer| <= maximum
      ensures bytes == if ok then old(bytes) + buffer else old(bytes)
      ensures exceeded == (old(exceeded) || !ok)
    {
      ok := |bytes| + |buffer| <= maximum;
      if ok {
        bytes := bytes + buffer;
      } else {
        exceeded := true;
      }
    }
  }

  lemma {:induction false} JoinedExtends(chunks: seq<seq<byte>>, i: nat)
    requires i < |chunks|
    ensures Joined(chunks[..i + 1]) == Joined(chunks[..i]) + chunks[i]
    ensures |Joined(chunks[..i + 1])| <= |Joined(chunks)|
  {
    if i == 0 {
      assert chunks[..1][1..] == [] && Joined(chunks[..1]) == chunks[0];
    } else {
      JoinedExtends(chunks[1..], i - 1);
      assert chunks[..i][1..] == chunks[1..][..i - 1] && chunks[..i + 1][1..] == chunks[1..][..i];
    }
  }

  /** However an encoder cuts its output into writes, the bounded encoding is the
      whole output if that fits, and an explicit limit error otherwise. */
  method ToBoundedJsonVec(chunks: seq<seq<byte>>, maximum: nat) returns (r: Result<seq<byte>, BoundedJsonError>)
    ensures r == if |Joined(chunks)| <= maximum then Ok(Joined(chunks)) else Err(LimitExceeded)
  {
    var writer := new BoundedVecWriter(maximum);
    var i := 0;
    while i < |chunks|
      invariant 0 <= i <= |chunks|
      invariant writer.maximum == maximum && !writer.exceeded
      invariant writer.bytes == Joined(chunks[..i]) && |writer.bytes| <= maximum
    {
      JoinedExtends(chunks, i);
      var ok := writer.Write(chunks[i]);
      if !ok {
        return Err(if writer.exceeded then LimitExceeded else CannotEncode);
      }
      i := i + 1;
    }
    assert chunks[..i] == chunks;
    return Ok(writer.bytes);
  }
}
