/** Consumers of keyset pages: the check each page has to pass, and what a sweep
    that follows the cursors has seen when it ends. */
module Pages {
  import opened Support
  import opened Effects
  import opened Identities
  import opened Coordinator

  // ------------------------------------------------------------- page check

  datatype PageState = ExpectPending | ExpectUnknown

  function StateName(expected: PageState): string {
    match expected
    case ExpectPending => "pending"
    case ExpectUnknown => "unknown"
  }

  predicate StateMatches(expected: PageState, status: Status) {
    match expected
    case ExpectPending => status.Pending?
    case ExpectUnknown => status.Unknown?
  }

  predicate SnapshotAccepted(snapshot: Snapshot, authority: Authority, expected: PageState) {
    && ValidEffect(snapshot.effect)
    && snapshot.tenant == authority.tenant
    && snapshot.effect.tenant == authority.tenant
    && snapshot.revision == |snapshot.effect.transitions|
    && StateMatches(expected, snapshot.effect.status)
  }

  /** A page a consumer may rely on: within the limit, continued by its last
      identity, strictly ascending beyond the cursor, and every Effect a valid
      one of this tenant in the expected state. */
  ghost predicate PageAccepted(page: Page, after: Option<string>, limit: nat, authority: Authority, expected: PageState) {
    && |page.effects| <= limit
    && page.nextCursor == (if page.effects == [] then None else Some(page.effects[|page.effects| - 1].id))
    && (page.hasMore ==> |page.effects| == limit)
    && (forall i :: 0 <= i < |page.effects| ==> SnapshotAccepted(page.effects[i], authority, expected))
    && (forall i :: 0 <= i < |page.effects| ==> Beyond(page.effects[i].id, after))
    && Ascending(Ids(page.effects))
  }

  method ValidateEffectPage(page: Page, after: Option<string>, limit: nat, authority: Authority, expected: PageState)
    returns (ok: bool)
    ensures ok <==> PageAccepted(page, after, limit, authority, expected)
  {
    hide ValidEffect, Less;
    if |page.effects| > limit {
      return false;
    }
    var cursor := if page.effects == [] then None else Some(page.effects[|page.effects| - 1].id);
    if page.nextCursor != cursor || (page.hasMore && |page.effects| != limit) {
      return false;
    }
    var previous := after;
    var i := 0;
    while i < |page.effects|
      invariant 0 <= i <= |page.effects|
      invariant previous == if i == 0 then after else Some(page.effects[i - 1].id)
      invariant forall j :: 0 <= j < i ==> SnapshotAccepted(page.effects[j], authority, expected)
      invariant forall j :: 0 <= j < i ==> Beyond(page.effects[j].id, after)
      invariant Ascending(Ids(page.effects[..i]))
    {
      var snapshot := page.effects[i];
      var valid := Validate(snapshot.effect);
      if !valid {
        return false;
      }
      if snapshot.tenant != authority.tenant || snapshot.effect.tenant != authority.tenant
         || snapshot.revision != |snapshot.effect.transitions| || !StateMatches(expected, snapshot.effect.status) {
        return false;
      }
      if !Beyond(snapshot.id, previous) {
        NotOrdered(page.effects, after, i);
        return false;
      }
      StillOrdered(page.effects, after, i);
      previous := Some(snapshot.id);
      i := i + 1;
    }
    assert page.effects[..i] == page.effects;
    return true;
  }

  lemma NotOrdered(effects: seq<Snapshot>, after: Option<string>, i: int)
    requires 0 <= i < |effects| && !Beyond(effects[i].id, if i == 0 then after else Some(effects[i - 1].id))
    ensures !(Ascending(Ids(effects)) && forall j :: 0 <= j < |effects| ==> Beyond(effects[j].id, after))
  {
    if 0 < i { assert Ids(effects)[i - 1] == effects[i - 1].id && Ids(effects)[i] == effects[i].id; }
  }

  /** Comparing with the previous identity is comparing with all of them. */
  lemma StillOrdered(effects: seq<Snapshot>, after: Option<string>, i: int)
    requires 0 <= i < |effects| && Beyond(effects[i].id, if i == 0 then after else Some(effects[i - 1].id))
    requires Ascending(Ids(effects[..i])) && forall j :: 0 <= j < i ==> Beyond(effects[j].id, after)
    ensures Ascending(Ids(effects[..i + 1])) && Beyond(effects[i].id, after)
  {
    var ids := Ids(effects[..i + 1]);
    assert forall k :: 0 <= k < i ==> ids[k] == Ids(effects[..i])[k];
    if 0 < i && after.Some? { LessTransitive(after.value, effects[i - 1].id, effects[i].id); }
    forall j, k | 0 <= j < k < |ids| ensures Less(ids[j], ids[k]) {
      if k == i && j < i - 1 {
        assert Less(Ids(effects[..i])[j], Ids(effects[..i])[i - 1]);
        LessTransitive(ids[j], ids[i - 1], ids[i]);
      }
    }
  }

  /** Every page that a healthy ledger lists passes its consumer's check. */
  lemma ListedPagesAreAccepted(ledger: Ledger, authority: Authority, expected: PageState, after: Option<string>,
                               limit: nat, page: Page)
    requires LedgerOk(ledger) && ValidAuthority(authority)
    requires IsPage(ledger, TenantKey(authority.tenant), Some(StateName(expected)), after, limit, page)
    ensures PageAccepted(page, after, limit, authority, expected)
  {
    hide ValidEffect, Less;
    forall i | 0 <= i < |page.effects| ensures SnapshotAccepted(page.effects[i], authority, expected) {
      var key := EffectKey(TenantKey(authority.tenant), page.effects[i].id);
      assert SnapshotOk(key, ledger[key]);
      SameTenant(ledger[key].tenant, authority);
      NamesAreDistinct(ledger[key].effect.status, expected);
    }
  }

  lemma NamesAreDistinct(status: Status, expected: PageState)
    requires StatusName(status) == StateName(expected)
    ensures StateMatches(expected, status)
  {
    assert "pending"[0] == 'p' && "unknown"[0] == 'u' && "claimed"[0] == 'c' && "applied"[0] == 'a'
        && "rejected"[0] == 'r' && "cancelled"[0] == 'c';
  }

  // ------------------------------------------------------------------ sweeps

  function CursorBefore(pages: seq<Page>, i: nat): Option<string>
    requires i <= |pages|
  {
    if i == 0 then None else pages[i - 1].nextCursor
  }

  ghost predicate ListedAt(ledgers: seq<Ledger>, pages: seq<Page>, tenant: string, status: Option<string>, limit: nat, i: nat)
    requires i < |pages| == |ledgers|
  {
    IsPage(ledgers[i], tenant, status, CursorBefore(pages, i), limit, pages[i])
  }

  /** Page `i` was listed on `ledgers[i]`, whatever happened since page `i - 1`,
      continuing at its cursor; only the last page reports no more. */
  ghost predicate IsSweep(ledgers: seq<Ledger>, pages: seq<Page>, tenant: string, status: Option<string>, limit: nat) {
    && 0 < |pages| == |ledgers| && 0 < limit
    && (forall i :: 0 <= i < |pages| ==> ListedAt(ledgers, pages, tenant, status, limit, i))
    && (forall i :: 0 <= i < |pages| ==> (pages[i].hasMore <==> i < |pages| - 1))
  }

  function Swept(pages: seq<Page>): seq<string> {
    if pages == [] then [] else Swept(pages[..|pages| - 1]) + Ids(pages[|pages| - 1].effects)
  }

  ghost predicate UpTo(seen: seq<string>, cursor: Option<string>) {
    forall k :: 0 <= k < |seen| ==> cursor.Some? && (seen[k] == cursor.value || Less(seen[k], cursor.value))
  }

  /** After `n` full pages everything seen lies up to the cursor, and everything
      that was always there and was not seen lies beyond it. */
  ghost predicate SweptUpTo(ledgers: seq<Ledger>, pages: seq<Page>, tenant: string, status: Option<string>, n: nat)
    requires n <= |pages| == |ledgers|
  {
    var seen, cursor := Swept(pages[..n]), CursorBefore(pages, n);
    && Ascending(seen)
    && UpTo(seen, cursor)
    && (forall id :: Steady(ledgers, tenant, status, id) ==> id in seen || Beyond(id, cursor))
  }

  ghost predicate Steady(ledgers: seq<Ledger>, tenant: string, status: Option<string>, id: string) {
    forall i :: 0 <= i < |ledgers| ==> Wanted(ledgers[i], tenant, status, None, id)
  }

  lemma AscendingAppend(seen: seq<string>, cursor: Option<string>, more: seq<string>)
    requires Ascending(seen) && Ascending(more)
    requires UpTo(seen, cursor)
    requires forall k :: 0 <= k < |more| ==> Beyond(more[k], cursor)
    ensures Ascending(seen + more)
  {
    var both := seen + more;
    forall i, j | 0 <= i < j < |both| ensures Less(both[i], both[j]) {
      if i < |seen| <= j {
        var s, m := seen[i], more[j - |seen|];
        assert cursor.Some? && Beyond(m, cursor);
        if s != cursor.value { LessTransitive(s, cursor.value, m); }
      }
    }
  }

  lemma PageIdsBeyondCursor(ledger: Ledger, tenant: string, status: Option<string>, after: Option<string>, limit: nat, page: Page)
    requires IsPage(ledger, tenant, status, after, limit, page)
    ensures forall k :: 0 <= k < |Ids(page.effects)| ==> Beyond(Ids(page.effects)[k], after)
  {
    hide Less;
    forall k | 0 <= k < |Ids(page.effects)| ensures Beyond(Ids(page.effects)[k], after) {
      assert Wanted(ledger, tenant, status, after, page.effects[k].id);
    }
  }

  lemma SweepGrows(ledgers: seq<Ledger>, pages: seq<Page>, tenant: string, status: Option<string>, limit: nat, n: nat)
    requires IsSweep(ledgers, pages, tenant, status, limit) && n < |pages|
    requires SweptUpTo(ledgers, pages, tenant, status, n)
    ensures Ascending(Swept(pages[..n + 1]))
    ensures Swept(pages[..n + 1]) == Swept(pages[..n]) + Ids(pages[n].effects)
  {
    hide Less;
    assert pages[..n + 1][..n] == pages[..n];
    assert ListedAt(ledgers, pages, tenant, status, limit, n);
    PageIdsBeyondCursor(ledgers[n], tenant, status, CursorBefore(pages, n), limit, pages[n]);
    AscendingAppend(Swept(pages[..n]), CursorBefore(pages, n), Ids(pages[n].effects));
  }

  /** A page that reports more ends in its cursor, which everything seen precedes. */
  lemma SeenUpToCursor(ledgers: seq<Ledger>, pages: seq<Page>, tenant: string, status: Option<string>, limit: nat, m: nat)
    requires IsSweep(ledgers, pages, tenant, status, limit) && m < |pages| - 1
    requires Ascending(Swept(pages[..m + 1]))
    requires Swept(pages[..m + 1]) == Swept(pages[..m]) + Ids(pages[m].effects)
    ensures UpTo(Swept(pages[..m + 1]), pages[m].nextCursor)
    ensures pages[m].effects != [] && pages[m].nextCursor == Some(pages[m].effects[|pages[m].effects| - 1].id)
  {
    hide Less, LeadingRun, Wanted, Swept;
    var page, seen := pages[m], Swept(pages[..m + 1]);
    assert ListedAt(ledgers, pages, tenant, status, limit, m);
    var cursor := page.effects[|page.effects| - 1].id;
    assert seen[|seen| - 1] == Ids(page.effects)[|page.effects| - 1] == cursor;
    forall k | 0 <= k < |seen| ensures seen[k] == cursor || Less(seen[k], cursor) {
      if k < |seen| - 1 { assert Less(seen[k], seen[|seen| - 1]); }
    }
  }

  lemma {:induction false} SweepInvariant(ledgers: seq<Ledger>, pages: seq<Page>, tenant: string,
                                          status: Option<string>, limit: nat, n: nat)
    requires IsSweep(ledgers, pages, tenant, status, limit) && n < |pages|
    ensures SweptUpTo(ledgers, pages, tenant, status, n)
    decreases n
  {
    hide Less, ListedAt;
    if n == 0 {
      assert pages[..0] == [];
    } else {
      var m := n - 1;
      SweepInvariant(ledgers, pages, tenant, status, limit, m);
      SweepGrows(ledgers, pages, tenant, status, limit, m);
      SeenUpToCursor(ledgers, pages, tenant, status, limit, m);
      forall id | Steady(ledgers, tenant, status, id)
        ensures id in Swept(pages[..n]) || Beyond(id, CursorBefore(pages, n))
      {
        StillAhead(ledgers, pages, tenant, status, limit, m, id);
      }
    }
  }

  /** An Effect that is always there and not yet seen is on the next page or
      beyond all of it. */
  lemma StillAhead(ledgers: seq<Ledger>, pages: seq<Page>, tenant: string, status: Option<string>, limit: nat, m: nat, id: string)
    requires IsSweep(ledgers, pages, tenant, status, limit) && m < |pages|
    requires SweptUpTo(ledgers, pages, tenant, status, m) && Steady(ledgers, tenant, status, id)
    ensures || id in Swept(pages[..m])
            || id in Ids(pages[m].effects)
            || (pages[m].hasMore && forall i :: 0 <= i < |pages[m].effects| ==> Less(pages[m].effects[i].id, id))
  {
    hide Less;
    if id !in Swept(pages[..m]) {
      assert Wanted(ledgers[m], tenant, status, None, id);
      assert Wanted(ledgers[m], tenant, status, CursorBefore(pages, m), id);
      assert ListedAt(ledgers, pages, tenant, status, limit, m);
    }
  }

  /** A finished sweep returns identities in strictly ascending order, so none
      twice, and every Effect that matched throughout, whatever commands ran on
      the ledger between its pages. */
  lemma SweepIsExact(ledgers: seq<Ledger>, pages: seq<Page>, tenant: string, status: Option<string>, limit: nat)
    requires IsSweep(ledgers, pages, tenant, status, limit)
    ensures Ascending(Swept(pages))
    ensures forall i, j :: 0 <= i < |Swept(pages)| && 0 <= j < |Swept(pages)| && Swept(pages)[i] == Swept(pages)[j] ==> i == j
    ensures forall id :: Steady(ledgers, tenant, status, id) ==> id in Swept(pages)
  {
    hide Less;
    var last := |pages| - 1;
    SweepInvariant(ledgers, pages, tenant, status, limit, last);
    SweepGrows(ledgers, pages, tenant, status, limit, last);
    assert pages[..last + 1] == pages;
    forall i, j | 0 <= i < |Swept(pages)| && 0 <= j < |Swept(pages)| && Swept(pages)[i] == Swept(pages)[j]
      ensures i == j
    {
      AscendingHasNoRepeats(Swept(pages), i, j);
    }
    forall id | Steady(ledgers, tenant, status, id) ensures id in Swept(pages) {
      StillAhead(ledgers, pages, tenant, status, limit, last, id);
    }
  }
}
