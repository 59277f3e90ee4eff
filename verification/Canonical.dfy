/** Canonical JSON, the form that is hashed: object members sorted by key at every
    level. It is the same for two values exactly when they differ at most in the
    order of their members. */
module Canonical {
  import opened Identities
  import opened JsonShape

  /** No object names a member twice, at any level. */
  ghost predicate WellFormed(value: Json) {
    match value
    case Scalar(_) => true
    case Array(values) => forall i :: 0 <= i < |values| ==> WellFormed(values[i])
    case Object(members) =>
      && DistinctKeys(members)
      && forall i :: 0 <= i < |members| ==> WellFormed(members[i].value)
  }

  ghost predicate DistinctKeys(members: seq<Member>) {
    forall i, j :: 0 <= i < j < |members| ==> members[i].key != members[j].key
  }

  /** The same value up to the order of members. */
  ghost predicate Equivalent(a: Json, b: Json)
    decreases a
  {
    match (a, b)
    case (Scalar(s), Scalar(t)) => s == t
    case (Array(s), Array(t)) => |s| == |t| && forall i :: 0 <= i < |s| ==> Equivalent(s[i], t[i])
    case (Object(s), Object(t)) =>
      |s| == |t| && forall i :: 0 <= i < |s| ==> HasMatch(s[i], t)
    case _ => false
  }

  /** Some member of `t` has the same name and an equivalent value. */
  ghost predicate HasMatch(m: Member, t: seq<Member>)
    decreases m
  {
    exists j :: 0 <= j < |t| && m.key == t[j].key && Equivalent(m.value, t[j].value)
  }

  // ------------------------------------------------------------------ sorting

  ghost predicate ByKey(members: seq<Member>) {
    forall i, j :: 0 <= i < j < |members| ==> Less(members[i].key, members[j].key)
  }

  function InsertMember(members: seq<Member>, m: Member): (r: seq<Member>)
    ensures multiset(r) == multiset(members) + multiset{m}
  {
    if members == [] then [m]
    else if Less(m.key, members[0].key) then [m] + members
    else
      assert members == [members[0]] + members[1..];
      [members[0]] + InsertMember(members[1..], m)
  }

  function SortMembers(members: seq<Member>): (r: seq<Member>)
    ensures multiset(r) == multiset(members)
  {
    if members == [] then []
    else
      assert members == [members[0]] + members[1..];
      InsertMember(SortMembers(members[1..]), members[0])
  }

  function Canonicalized(value: Json): Json {
    match value
    case Scalar(_) => value
    case Array(values) => Array(CanonicalValues(values))
    case Object(members) => Object(SortMembers(CanonicalMembers(members)))
  }

  function CanonicalValues(values: seq<Json>): seq<Json> {
    if values == [] then [] else [Canonicalized(values[0])] + CanonicalValues(values[1..])
  }

  function CanonicalMembers(members: seq<Member>): seq<Member> {
    if members == [] then []
    else [Member(members[0].key, Canonicalized(members[0].value))] + CanonicalMembers(members[1..])
  }

  lemma {:induction false} CanonicalValuesAt(values: seq<Json>)
    ensures |CanonicalValues(values)| == |values|
    ensures forall i :: 0 <= i < |values| ==> CanonicalValues(values)[i] == Canonicalized(values[i])
  {
    if values != [] { CanonicalValuesAt(values[1..]); }
  }

  lemma {:induction false} CanonicalMembersAt(members: seq<Member>)
    ensures |CanonicalMembers(members)| == |members|
    ensures forall i :: 0 <= i < |members| ==>
      CanonicalMembers(members)[i] == Member(members[i].key, Canonicalized(members[i].value))
  {
    if members != [] { CanonicalMembersAt(members[1..]); }
  }

  lemma {:induction false} InsertKeepsOrder(members: seq<Member>, m: Member)
    requires ByKey(members) && forall i :: 0 <= i < |members| ==> members[i].key != m.key
    ensures ByKey(InsertMember(members, m))
  {
    if members != [] {
      if Less(m.key, members[0].key) {
        forall i | 0 < i < |members| ensures Less(m.key, members[i].key) {
          LessTransitive(m.key, members[0].key, members[i].key);
        }
      } else {
        LessTotal(m.key, members[0].key);
        var rest := InsertMember(members[1..], m);
        InsertKeepsOrder(members[1..], m);
        forall i | 0 <= i < |rest| ensures Less(members[0].key, rest[i].key) {
          assert rest[i] in multiset(rest);
          assert rest[i] == m || rest[i] in members[1..];
        }
      }
    }
  }

  lemma {:induction false} SortIsOrdered(members: seq<Member>)
    requires DistinctKeys(members)
    ensures ByKey(SortMembers(members))
  {
    if members != [] {
      var sorted := SortMembers(members[1..]);
      SortIsOrdered(members[1..]);
      forall i | 0 <= i < |sorted| ensures sorted[i].key != members[0].key {
        assert sorted[i] in multiset(sorted);
        assert sorted[i] in members[1..];
      }
      InsertKeepsOrder(sorted, members[0]);
    }
  }

  lemma SameHead(s: seq<Member>, t: seq<Member>)
    requires ByKey(s) && ByKey(t) && s != [] && t != [] && s[0] in t && t[0] in s
    ensures s[0] == t[0]
  {
    hide Less;
    var i :| 0 <= i < |t| && t[i] == s[0];
    var j :| 0 <= j < |s| && s[j] == t[0];
    if i > 0 && j > 0 {
      LessTransitive(s[0].key, t[0].key, s[0].key);
      LessIrreflexive(s[0].key);
    }
  }

  lemma TailCounts(s: seq<Member>)
    requires s != []
    ensures multiset(s[1..]) == multiset(s) - multiset{s[0]}
  {
    assert s == [s[0]] + s[1..];
  }

  lemma TailIsOrdered(s: seq<Member>)
    requires ByKey(s) && s != []
    ensures ByKey(s[1..])
  {
    hide Less;
  }

  lemma SameLength(s: seq<Member>, t: seq<Member>)
    requires multiset(s) == multiset(t)
    ensures |s| == |t| && forall m :: m in s <==> m in t
  {
    assert |s| == |multiset(s)| && |t| == |multiset(t)|;
    assert forall m :: m in s <==> m in multiset(s);
    assert forall m :: m in t <==> m in multiset(t);
  }

  /** Two ordered lists of the same members are the same list. */
  lemma {:induction false} OrderedListsAgree(s: seq<Member>, t: seq<Member>)
    requires ByKey(s) && ByKey(t) && multiset(s) == multiset(t)
    ensures s == t
  {
    hide ByKey;
    SameLength(s, t);
    if s != [] {
      SameHead(s, t);
      TailIsOrdered(s);
      TailIsOrdered(t);
      TailCounts(s);
      TailCounts(t);
      OrderedListsAgree(s[1..], t[1..]);
      assert s == [s[0]] + s[1..] && t == [t[0]] + t[1..];
    }
  }

  /** A list of distinct members contained in another of the same length is a
      rearrangement of it. */
  lemma {:induction false} ContainedIsRearranged(s: seq<Member>, t: seq<Member>)
    requires DistinctKeys(s) && |s| == |t| && forall i :: 0 <= i < |s| ==> s[i] in t
    ensures multiset(s) == multiset(t)
  {
    if s != [] {
      var m := s[0];
      var j :| 0 <= j < |t| && t[j] == m;
      var rest := t[..j] + t[j + 1..];
      assert t == t[..j] + [m] + t[j + 1..];
      forall i | 0 <= i < |s[1..]| ensures s[1..][i] in rest {
        assert s[1..][i] == s[i + 1] && s[i + 1] in t && s[i + 1] != m;
      }
      ContainedIsRearranged(s[1..], rest);
      assert s == [m] + s[1..];
      assert multiset(t) == multiset(rest) + multiset{m};
    }
  }

  // ---------------------------------------------------------- complete invariant

  ghost predicate SameMembers(s: seq<Member>, t: seq<Member>) {
    && |s| == |t|
    && forall i :: 0 <= i < |s| ==> Member(s[i].key, Canonicalized(s[i].value)) in CanonicalMembers(t)
  }

  lemma SameMembersSortAlike(s: seq<Member>, t: seq<Member>)
    requires DistinctKeys(s) && DistinctKeys(t)
    ensures SameMembers(s, t) <==> SortMembers(CanonicalMembers(s)) == SortMembers(CanonicalMembers(t))
  {
    hide SortMembers, CanonicalMembers, Canonicalized;
    var a, b := CanonicalMembers(s), CanonicalMembers(t);
    CanonicalMembersAt(s);
    CanonicalMembersAt(t);
    assert DistinctKeys(a) && DistinctKeys(b);
    if SameMembers(s, t) {
      ContainedIsRearranged(a, b);
      SortIsOrdered(a);
      SortIsOrdered(b);
      OrderedListsAgree(SortMembers(a), SortMembers(b));
    }
    if SortMembers(a) == SortMembers(b) {
      assert multiset(a) == multiset(b);
      assert |a| == |multiset(a)| == |multiset(b)| == |b|;
      forall i | 0 <= i < |s| ensures Member(s[i].key, Canonicalized(s[i].value)) in b {
        assert a[i] in multiset(a);
      }
    }
  }

  ghost predicate Decided(a: Json, b: Json) {
    Canonicalized(a) == Canonicalized(b) <==> Equivalent(a, b)
  }

  lemma ArraysDecided(s: seq<Json>, t: seq<Json>)
    requires forall i :: 0 <= i < |s| && i < |t| ==> Decided(s[i], t[i])
    ensures Decided(Array(s), Array(t))
  {
    hide CanonicalValues;
    CanonicalValuesAt(s);
    CanonicalValuesAt(t);
    var a, b := CanonicalValues(s), CanonicalValues(t);
    if |s| == |t| {
      assert a == b <==> forall i :: 0 <= i < |s| ==> a[i] == b[i];
    }
  }

  /** The member of `t` that `s[i]` corresponds to. */
  lemma MembersDecided(m: Member, t: seq<Member>)
    requires forall j :: 0 <= j < |t| ==> Decided(m.value, t[j].value)
    ensures Member(m.key, Canonicalized(m.value)) in CanonicalMembers(t) <==> HasMatch(m, t)
  {
    hide CanonicalMembers, Canonicalized, Equivalent;
    CanonicalMembersAt(t);
  }

  lemma ObjectsDecided(s: seq<Member>, t: seq<Member>)
    requires DistinctKeys(s) && DistinctKeys(t)
    requires forall i, j :: 0 <= i < |s| && 0 <= j < |t| ==> Decided(s[i].value, t[j].value)
    ensures Decided(Object(s), Object(t))
  {
    hide CanonicalMembers, SortMembers;
    SameMembersSortAlike(s, t);
    forall i | 0 <= i < |s|
      ensures Member(s[i].key, Canonicalized(s[i].value)) in CanonicalMembers(t) <==> HasMatch(s[i], t)
    {
      MembersDecided(s[i], t);
    }
    assert SameMembers(s, t) <==> Equivalent(Object(s), Object(t));
    assert Canonicalized(Object(s)) == Object(SortMembers(CanonicalMembers(s)));
    assert Canonicalized(Object(t)) == Object(SortMembers(CanonicalMembers(t)));
  }

  /** Equal canonical forms mean the same value, and nothing else does. */
  lemma {:induction false} CanonicalFormDecides(a: Json, b: Json)
    requires WellFormed(a) && WellFormed(b)
    ensures Canonicalized(a) == Canonicalized(b) <==> Equivalent(a, b)
    decreases a
  {
    assert Decided(a, b) by {
      if a.Array? && b.Array? {
        forall i | 0 <= i < |a.values| && i < |b.values| ensures Decided(a.values[i], b.values[i]) {
          CanonicalFormDecides(a.values[i], b.values[i]);
        }
        ArraysDecided(a.values, b.values);
      } else if a.Object? && b.Object? {
        forall i, j | 0 <= i < |a.members| && 0 <= j < |b.members| ensures Decided(a.members[i].value, b.members[j].value) {
          CanonicalFormDecides(a.members[i].value, b.members[j].value);
        }
        ObjectsDecided(a.members, b.members);
      }
    }
  }

  lemma OrderedHasDistinctKeys(members: seq<Member>)
    requires ByKey(members)
    ensures DistinctKeys(members)
  {
    hide Less;
    forall i, j | 0 <= i < j < |members| ensures members[i].key != members[j].key {
      LessIrreflexive(members[i].key);
    }
  }

  /** An ordered object of canonical values is canonical. */
  lemma OrderedObjectIsCanonical(members: seq<Member>)
    requires ByKey(members) && forall i :: 0 <= i < |members| ==> Canonicalized(members[i].value) == members[i].value
    ensures Canonicalized(Object(members)) == Object(members)
  {
    hide SortMembers, CanonicalMembers;
    CanonicalMembersAt(members);
    assert CanonicalMembers(members) == members;
    OrderedHasDistinctKeys(members);
    SortIsOrdered(members);
    OrderedListsAgree(SortMembers(members), members);
  }

  /** A member of the sorted canonical list is the canonical form of a member. */
  lemma SortedMemberOrigin(members: seq<Member>, k: nat) returns (i: nat)
    requires k < |SortMembers(CanonicalMembers(members))|
    ensures i < |members|
    ensures SortMembers(CanonicalMembers(members))[k] == Member(members[i].key, Canonicalized(members[i].value))
  {
    hide SortMembers, CanonicalMembers, Canonicalized;
    var sorted := SortMembers(CanonicalMembers(members));
    CanonicalMembersAt(members);
    assert sorted[k] in multiset(sorted);
    i :| 0 <= i < |members| && CanonicalMembers(members)[i] == sorted[k];
  }

  /** The canonical form is well formed and its own canonical form. */
  lemma {:induction false} CanonicalIsStable(value: Json)
    requires WellFormed(value)
    ensures WellFormed(Canonicalized(value)) && Canonicalized(Canonicalized(value)) == Canonicalized(value)
    decreases value
  {
    match value
    case Scalar(_) =>
    case Array(values) =>
      CanonicalValuesAt(values);
      forall i | 0 <= i < |values|
        ensures WellFormed(Canonicalized(values[i])) && Canonicalized(Canonicalized(values[i])) == Canonicalized(values[i])
      {
        CanonicalIsStable(values[i]);
      }
      var canonical := CanonicalValues(values);
      CanonicalValuesAt(canonical);
      assert CanonicalValues(canonical) == canonical;
    case Object(members) =>
      hide SortMembers, CanonicalMembers;
      CanonicalMembersAt(members);
      var sorted := SortMembers(CanonicalMembers(members));
      assert DistinctKeys(CanonicalMembers(members));
      SortIsOrdered(CanonicalMembers(members));
      OrderedHasDistinctKeys(sorted);
      forall k | 0 <= k < |sorted|
        ensures WellFormed(sorted[k].value) && Canonicalized(sorted[k].value) == sorted[k].value
      {
        var i := SortedMemberOrigin(members, k);
        CanonicalIsStable(members[i].value);
      }
      OrderedObjectIsCanonical(sorted);
  }

  lemma CanonicalIsEquivalent(value: Json)
    requires WellFormed(value)
    ensures Equivalent(value, Canonicalized(value))
  {
    CanonicalIsStable(value);
    CanonicalFormDecides(value, Canonicalized(value));
  }
}
