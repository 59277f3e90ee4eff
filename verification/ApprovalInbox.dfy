/** The pending page of the approval inbox: a bounded vector filled by binary-search
    insertion, against the complete ordered listing cut at the limit. */
module ApprovalInbox {
  import opened Support
  import opened Identities

  const MAX_APPROVAL_PAGE := 16

  datatype Status = Pending | Settled(approved: bool, decidedBy: string) | Orphaned(reason: string)

  datatype Record = Record(id: string, tenant: Option<string>, status: Status, revision: u64, requestedAt: u64)

  type Inbox = map<string, Record>

  datatype PageError = InvalidLimit

  /** Records are stored under their own identity. */
  ghost predicate Keyed(inbox: Inbox) {
    forall id :: id in inbox ==> inbox[id].id == id
  }

  predicate Matching(record: Record, tenant: Option<string>) {
    record.tenant == tenant && record.status.Pending?
  }

  /** Oldest first; the identity breaks ties. */
  predicate Before(a: Record, b: Record) {
    a.requestedAt < b.requestedAt || (a.requestedAt == b.requestedAt && Less(a.id, b.id))
  }

  lemma BeforeIrreflexive(a: Record)
    ensures !Before(a, a)
  {
    LessIrreflexive(a.id);
  }

  lemma BeforeTransitive(a: Record, b: Record, c: Record)
    requires Before(a, b) && Before(b, c)
    ensures Before(a, c)
  {
    if a.requestedAt == b.requestedAt == c.requestedAt { LessTransitive(a.id, b.id, c.id); }
  }

  lemma BeforeTotal(a: Record, b: Record)
    requires a.id != b.id
    ensures Before(a, b) || Before(b, a)
  {
    LessTotal(a.id, b.id);
  }

  ghost predicate Ordered(records: seq<Record>) {
    forall i, j :: 0 <= i < j < |records| ==> Before(records[i], records[j])
  }

  lemma OrderedHasNoRepeats(records: seq<Record>, i: nat, j: nat)
    requires Ordered(records) && i < |records| && j < |records| && records[i] == records[j]
    ensures i == j
  {
    BeforeIrreflexive(records[i]);
  }

  // ----------------------------------------------------------- specification

  /** What ORDER BY requested_at_ms, approval_id lists: every matching record
      once, in order. */
  ghost predicate IsListing(all: set<Record>, listing: seq<Record>) {
    Ordered(listing) && forall r :: r in listing <==> r in all
  }

  /** The first `limit` of `all`: in order, and everything left out comes after a
      full page. */
  ghost predicate IsFirst(all: set<Record>, limit: nat, selected: seq<Record>) {
    && Ordered(selected) && |selected| <= limit
    && (forall i :: 0 <= i < |selected| ==> selected[i] in all)
    && (forall r :: r in all ==> r in selected || LeftOut(selected, limit, r))
  }

  ghost predicate LeftOut(selected: seq<Record>, limit: nat, r: Record) {
    |selected| == limit && forall i :: 0 <= i < |selected| ==> Before(selected[i], r)
  }

  lemma {:induction false} FirstAgrees(all: set<Record>, limit: nat, selected: seq<Record>, listing: seq<Record>, n: nat)
    requires IsFirst(all, limit, selected) && IsListing(all, listing)
    requires n <= |selected| && n <= |listing|
    ensures selected[..n] == listing[..n]
  {
    if 0 < n {
      var m := n - 1;
      FirstAgrees(all, limit, selected, listing, m);
      assert forall i :: 0 <= i < m ==> selected[i] == selected[..m][i] == listing[..m][i] == listing[i];
      assert selected[m] in all && listing[m] in listing;
      var k :| 0 <= k < |listing| && listing[k] == selected[m];
      if k < m {
        OrderedHasNoRepeats(selected, k, m);
      } else if k > m {
        NotPassedOver(all, limit, selected, listing, m, k);
      }
      assert selected[..n] == selected[..m] + [selected[m]] && listing[..n] == listing[..m] + [listing[m]];
    }
  }

  /** The page cannot skip `listing[m]` for a later record. */
  lemma NotPassedOver(all: set<Record>, limit: nat, selected: seq<Record>, listing: seq<Record>, m: nat, k: nat)
    requires IsFirst(all, limit, selected) && IsListing(all, listing)
    requires m < k < |listing| && m < |selected|
    requires forall i :: 0 <= i < m ==> selected[i] == listing[i]
    ensures selected[m] != listing[k]
  {
    var r := listing[m];
    assert r in listing && Before(r, listing[k]);
    if selected[m] != listing[k] {
    } else if r in selected {
      var j :| 0 <= j < |selected| && selected[j] == r;
      if j < m {
        OrderedHasNoRepeats(listing, j, m);
      } else if j == m {
        BeforeIrreflexive(r);
      } else {
        BeforeTransitive(r, selected[m], r);
        BeforeIrreflexive(r);
      }
    } else {
      BeforeTransitive(r, selected[m], r);
      BeforeIrreflexive(r);
    }
  }

  /** The page is the complete ordered listing cut at the limit, as the SQL query
      states it; in particular there is only one such page. */
  lemma FirstIsCutListing(all: set<Record>, limit: nat, selected: seq<Record>, listing: seq<Record>)
    requires IsFirst(all, limit, selected) && IsListing(all, listing)
    ensures selected == if |listing| <= limit then listing else listing[..limit]
  {
    var n := if |selected| < |listing| then |selected| else |listing|;
    FirstAgrees(all, limit, selected, listing, n);
    if n < |listing| && n < limit {
      var r := listing[n];
      assert r in listing;
      var j :| 0 <= j < |selected| && selected[j] == r;
      assert selected[..n][j] == listing[..n][j];
      OrderedHasNoRepeats(listing, j, n);
    }
    if n < |selected| {
      assert selected[n] in all;
      var j :| 0 <= j < |listing| && listing[j] == selected[n];
      assert selected[..n][j] == listing[..n][j];
      OrderedHasNoRepeats(selected, j, n);
    }
    assert selected[..|selected|] == selected && listing[..|listing|] == listing;
  }

  // ---------------------------------------------------------------- selection

  method Position(selected: seq<Record>, record: Record) returns (position: nat)
    requires Ordered(selected)
    ensures position <= |selected|
    ensures forall i :: 0 <= i < position ==> Before(selected[i], record)
    ensures forall i :: position <= i < |selected| ==> !Before(selected[i], record)
  {
    var low, high := 0, |selected|;
    while low < high
      invariant 0 <= low <= high <= |selected|
      invariant forall i :: 0 <= i < low ==> Before(selected[i], record)
      invariant forall i :: high <= i < |selected| ==> !Before(selected[i], record)
    {
      var middle := low + (high - low) / 2;
      if Before(selected[middle], record) {
        forall i | 0 <= i < middle ensures Before(selected[i], record) {
          BeforeTransitive(selected[i], selected[middle], record);
        }
        low := middle + 1;
      } else {
        forall i | middle < i < |selected| ensures !Before(selected[i], record) {
          if Before(selected[i], record) { BeforeTransitive(selected[middle], selected[i], record); }
        }
        high := middle;
      }
    }
    position := low;
  }

  /** Insertion at the found position, cut back to the limit. */
  function Inserted(selected: seq<Record>, limit: nat, record: Record, position: nat): seq<Record>
    requires position <= |selected|
  {
    if position >= limit then selected
    else
      var grown := selected[..position] + [record] + selected[position..];
      if |grown| > limit then grown[..|grown| - 1] else grown
  }

  lemma InsertionStaysOrdered(selected: seq<Record>, record: Record, position: nat)
    requires Ordered(selected) && position <= |selected|
    requires forall i :: 0 <= i < position ==> Before(selected[i], record)
    requires forall i :: position <= i < |selected| ==> Before(record, selected[i])
    ensures Ordered(selected[..position] + [record] + selected[position..])
  {
    var grown := selected[..position] + [record] + selected[position..];
    assert forall i :: 0 <= i < |grown| ==>
      grown[i] == if i < position then selected[i] else if i == position then record else selected[i - 1];
  }

  /** A record that was covered before the insertion is covered after it. */
  lemma StillCovered(selected: seq<Record>, limit: nat, record: Record, position: nat, r: Record)
    requires Ordered(selected) && position <= |selected| <= limit && position < limit
    requires forall i :: 0 <= i < position ==> Before(selected[i], record)
    requires forall i :: position <= i < |selected| ==> Before(record, selected[i])
    requires r == record || r in selected || LeftOut(selected, limit, r)
    ensures var next := Inserted(selected, limit, record, position); r in next || LeftOut(next, limit, r)
  {
    hide Before;
    InsertionStaysOrdered(selected, record, position);
    var grown := selected[..position] + [record] + selected[position..];
    var next := Inserted(selected, limit, record, position);
    assert forall i :: 0 <= i < |grown| ==>
      grown[i] == if i < position then selected[i] else if i == position then record else selected[i - 1];
    if r == record {
      assert next[position] == r;
    } else if r in selected {
      var i :| 0 <= i < |selected| && selected[i] == r;
      var k := if i < position then i else i + 1;
      if k < |next| {
        assert next[k] == r;
      } else {
        assert grown[k] == r && k == |next|;
      }
    } else {
      forall i | 0 <= i < |next| ensures Before(next[i], r) {
        if i == position {
          BeforeTransitive(record, selected[position], r);
        }
      }
    }
  }

  lemma InsertedIsOrdered(selected: seq<Record>, limit: nat, record: Record, position: nat)
    requires Ordered(selected) && position <= |selected| <= limit && position < limit
    requires forall i :: 0 <= i < position ==> Before(selected[i], record)
    requires forall i :: position <= i < |selected| ==> Before(record, selected[i])
    ensures var next := Inserted(selected, limit, record, position);
      Ordered(next) && |next| <= limit && forall i :: 0 <= i < |next| ==> next[i] == record || next[i] in selected
  {
    hide Before;
    InsertionStaysOrdered(selected, record, position);
  }

  lemma InsertionKeepsFirst(all: set<Record>, limit: nat, selected: seq<Record>, record: Record, position: nat)
    requires IsFirst(all, limit, selected) && position <= |selected| && 0 < limit
    requires forall r :: r in all ==> r.id != record.id
    requires forall i :: 0 <= i < position ==> Before(selected[i], record)
    requires forall i :: position <= i < |selected| ==> !Before(selected[i], record)
    ensures IsFirst(all + {record}, limit, Inserted(selected, limit, record, position))
  {
    hide Before, Ordered;
    if position < limit {
      hide Inserted;
      var next := Inserted(selected, limit, record, position);
      forall i | position <= i < |selected| ensures Before(record, selected[i]) {
        assert selected[i] in all;
        BeforeTotal(selected[i], record);
      }
      InsertedIsOrdered(selected, limit, record, position);
      forall r | r in all + {record} ensures r in next || LeftOut(next, limit, r) {
        StillCovered(selected, limit, record, position, r);
      }
    } else {
      assert LeftOut(selected, limit, record);
    }
  }

  ghost function MatchingIn(inbox: Inbox, ids: set<string>, tenant: Option<string>): set<Record> {
    set id | id in ids && id in inbox && Matching(inbox[id], tenant) :: inbox[id]
  }

  /** The oldest `limit` pending records of the tenant, whatever order the records
      are visited in. */
  method PendingAs(inbox: Inbox, limit: nat, tenant: Option<string>) returns (page: Result<seq<Record>, PageError>)
    requires Keyed(inbox)
    ensures page.Ok? <==> 1 <= limit <= MAX_APPROVAL_PAGE
    ensures page.Ok? ==> IsFirst(MatchingIn(inbox, inbox.Keys, tenant), limit, page.value)
  {
    hide Before, IsFirst;
    if !(1 <= limit <= MAX_APPROVAL_PAGE) {
      return Err(InvalidLimit);
    }
    var selected: seq<Record> := [];
    var rest := inbox.Keys;
    NothingIsFirst(limit);
    assert MatchingIn(inbox, inbox.Keys - rest, tenant) == {};
    while rest != {}
      invariant rest <= inbox.Keys
      invariant IsFirst(MatchingIn(inbox, inbox.Keys - rest, tenant), limit, selected)
      decreases rest
    {
      var id :| id in rest;
      var record := inbox[id];
      ghost var visited := inbox.Keys - rest;
      ghost var all := MatchingIn(inbox, visited, tenant);
      assert inbox.Keys - (rest - {id}) == visited + {id};
      if Matching(record, tenant) {
        FirstIsOrdered(all, limit, selected);
        var position := Position(selected, record);
        InsertionKeepsFirst(all, limit, selected, record, position);
        if position < limit {
          selected := selected[..position] + [record] + selected[position..];
          if |selected| > limit {
            selected := selected[..|selected| - 1];
          }
        }
        assert MatchingIn(inbox, visited + {id}, tenant) == all + {record};
      } else {
        assert MatchingIn(inbox, visited + {id}, tenant) == all;
      }
      rest := rest - {id};
    }
    assert inbox.Keys - rest == inbox.Keys;
    page := Ok(selected);
  }

  lemma NothingIsFirst(limit: nat)
    ensures IsFirst({}, limit, [])
  {
  }

  lemma FirstIsOrdered(all: set<Record>, limit: nat, selected: seq<Record>)
    requires IsFirst(all, limit, selected)
    ensures Ordered(selected)
  {
  }

  /** Every store has a complete ordered listing, so the law above is never empty. */
  lemma {:induction false} ListingExists(inbox: Inbox, ids: set<string>, tenant: Option<string>) returns (listing: seq<Record>)
    requires Keyed(inbox) && ids <= inbox.Keys
    ensures IsListing(MatchingIn(inbox, ids, tenant), listing)
    decreases ids
  {
    if ids == {} {
      return [];
    }
    var id :| id in ids;
    var before := ListingExists(inbox, ids - {id}, tenant);
    var all := MatchingIn(inbox, ids - {id}, tenant);
    if !Matching(inbox[id], tenant) {
      assert MatchingIn(inbox, ids, tenant) == all;
      return before;
    }
    assert MatchingIn(inbox, ids, tenant) == all + {inbox[id]};
    assert forall i :: 0 <= i < |before| ==> before[i] in before;
    var p := Place(before, inbox[id]);
    InsertionStaysOrdered(before, inbox[id], p);
    listing := before[..p] + [inbox[id]] + before[p..];
    forall r ensures r in listing <==> r in all + {inbox[id]} {
      assert before == before[..p] + before[p..];
    }
  }

  lemma {:induction false} Place(records: seq<Record>, record: Record) returns (p: nat)
    requires Ordered(records)
    requires forall i :: 0 <= i < |records| ==> records[i].id != record.id
    ensures p <= |records|
    ensures forall i :: 0 <= i < p ==> Before(records[i], record)
    ensures forall i :: p <= i < |records| ==> Before(record, records[i])
  {
    if records == [] { return 0; }
    var n := |records| - 1;
    BeforeTotal(records[n], record);
    if Before(records[n], record) {
      forall i | 0 <= i < n ensures Before(records[i], record) { BeforeTransitive(records[i], records[n], record); }
      return |records|;
    }
    p := Place(records[..n], record);
  }
}
