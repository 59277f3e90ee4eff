/** Identities are compared the way ordered maps and SQL indexes compare them:
    character by character. */
module Identities {

  predicate Less(a: string, b: string) {
    if b == "" then false
    else if a == "" then true
    else a[0] < b[0] || (a[0] == b[0] && Less(a[1..], b[1..]))
  }

  lemma {:induction false} LessIrreflexive(a: string)
    ensures !Less(a, a)
  {
    if a != "" { LessIrreflexive(a[1..]); }
  }

  lemma {:induction false} LessTransitive(a: string, b: string, c: string)
    requires Less(a, b) && Less(b, c)
    ensures Less(a, c)
  {
    if a != "" && a[0] == b[0] == c[0] { LessTransitive(a[1..], b[1..], c[1..]); }
  }

  lemma {:induction false} LessTotal(a: string, b: string)
    ensures a == b || Less(a, b) || Less(b, a)
  {
    if a != "" && b != "" && a[0] == b[0] {
      LessTotal(a[1..], b[1..]);
      assert a == [a[0]] + a[1..] && b == [b[0]] + b[1..];
    }
  }

  ghost predicate Ascending(ids: seq<string>) {
    forall i, j :: 0 <= i < j < |ids| ==> Less(ids[i], ids[j])
  }

  lemma AscendingHasNoRepeats(ids: seq<string>, i: int, j: int)
    requires Ascending(ids) && 0 <= i < |ids| && 0 <= j < |ids| && ids[i] == ids[j]
    ensures i == j
  {
    LessIrreflexive(ids[i]);
  }

  /** The least identity of a set. */
  method Least(ids: set<string>) returns (least: string)
    requires ids != {}
    ensures least in ids
    ensures forall id :: id in ids ==> id == least || Less(least, id)
  {
    least :| least in ids;
    var rest := ids - {least};
    while rest != {}
      invariant rest <= ids && least in ids
      invariant forall id :: id in ids - rest ==> id == least || Less(least, id)
      decreases rest
    {
      var id :| id in rest;
      LessTotal(least, id);
      if Less(id, least) {
        forall other | other in ids - rest && other != least ensures Less(id, other) {
          LessTransitive(id, least, other);
        }
        least := id;
      }
      rest := rest - {id};
    }
  }
}
