/** The order of document identifiers, and pages of an ordered set. */
module Ordering {

  /** Go's and SQLite's order of strings: by their first difference, a proper prefix first. */
  predicate Less(a: string, b: string) {
    if b == "" then false
    else if a == "" then true
    else if a[0] != b[0] then a[0] < b[0]
    else Less(a[1..], b[1..])
  }

  lemma {:induction false} LessTransitive(a: string, b: string, c: string)
    requires Less(a, b) && Less(b, c)
    ensures Less(a, c)
  {
    if a != "" && b != "" && c != "" && a[0] == b[0] == c[0] {
      LessTransitive(a[1..], b[1..], c[1..]);
    }
  }

  lemma {:induction false} LessIrreflexive(a: string)
    ensures !Less(a, a)
  {
    if a != "" {
      LessIrreflexive(a[1..]);
    }
  }

  lemma {:induction false} LessTotal(a: string, b: string)
    ensures a == b || Less(a, b) || Less(b, a)
  {
    if a != "" && b != "" && a[0] == b[0] {
      LessTotal(a[1..], b[1..]);
      assert a == [a[0]] + a[1..] && b == [b[0]] + b[1..];
    }
  }

  predicate Smallest(ids: set<string>, id: string) {
    id in ids && forall other :: other in ids ==> other == id || Less(id, other)
  }

  lemma {:induction false} SmallestExists(ids: set<string>)
    requires ids != {}
    ensures exists id :: Smallest(ids, id)
  {
    var some :| some in ids;
    var rest := ids - {some};
    assert ids == rest + {some};
    if rest == {} {
      assert Smallest(ids, some);
    } else {
      SmallestExists(rest);
      var id :| Smallest(rest, id);
      LessTotal(some, id);
      if Less(some, id) {
        forall other | other in ids ensures other == some || Less(some, other) {
          if other in rest && other != id {
            LessTransitive(some, id, other);
          }
        }
        assert Smallest(ids, some);
      } else {
        assert Smallest(ids, id);
      }
    }
  }

  /** The members of a set above a bound. */
  function Above(ids: set<string>, after: string): set<string> {
    set id | id in ids && Less(after, id)
  }

  ghost predicate Ascending(s: seq<string>) {
    forall i, j :: 0 <= i < j < |s| ==> Less(s[i], s[j])
  }

  /** The page holds, in ascending order, the first `limit` members above the bound. */
  ghost predicate IsPage(ids: set<string>, after: string, limit: nat, page: seq<string>) {
    && Ascending(page) && |page| <= limit
    && (forall id :: id in page ==> id in Above(ids, after))
    && (forall id :: id in Above(ids, after) && id !in page ==>
          |page| == limit && forall k :: 0 <= k < |page| ==> Less(page[k], id))
  }

  /** A page starts with the smallest member above the bound and goes on with the page after it. */
  lemma PageHead(ids: set<string>, after: string, limit: nat, page: seq<string>)
    requires IsPage(ids, after, limit, page)
    ensures page == [] <==> limit == 0 || Above(ids, after) == {}
    ensures page != [] ==> Smallest(Above(ids, after), page[0]) && IsPage(ids, page[0], limit - 1, page[1..])
  {
    if page != [] {
      var rest := page[1..];
      assert page[0] in page;
      forall id | id in Above(ids, after) ensures id == page[0] || Less(page[0], id) {
        if id in page {
          var k :| 0 <= k < |page| && page[k] == id;
        }
      }
      forall id | id in rest ensures id in Above(ids, page[0]) {
        var k :| 0 <= k < |rest| && rest[k] == id;
        assert page[k + 1] == id && id in page;
      }
      forall id | id in Above(ids, page[0]) && id !in rest
        ensures |rest| == limit - 1 && forall k :: 0 <= k < |rest| ==> Less(rest[k], id)
      {
        LessTransitive(after, page[0], id);
        LessIrreflexive(id);
        assert id !in page;
      }
    }
  }

  /** A page is determined by the set, the bound and the limit. */
  lemma {:induction false} PageUnique(ids: set<string>, after: string, limit: nat, a: seq<string>, b: seq<string>)
    requires IsPage(ids, after, limit, a) && IsPage(ids, after, limit, b)
    ensures a == b
    decreases limit
  {
    PageHead(ids, after, limit, a);
    PageHead(ids, after, limit, b);
    if a != [] {
      if a[0] != b[0] {
        LessTransitive(a[0], b[0], a[0]);
        LessIrreflexive(a[0]);
      }
      PageUnique(ids, a[0], limit - 1, a[1..], b[1..]);
      assert a == [a[0]] + a[1..] && b == [b[0]] + b[1..];
    }
  }

  /** Sorting a set and keeping the first `limit` elements. */
  method TakeInOrder(ids: set<string>, limit: nat) returns (page: seq<string>)
    ensures Ascending(page) && |page| <= limit
    ensures forall id :: id in page ==> id in ids
    ensures forall id :: id in ids && id !in page ==>
              |page| == limit && forall k :: 0 <= k < |page| ==> Less(page[k], id)
  {
    page := [];
    var left := ids;
    while left != {} && |page| < limit
      invariant left <= ids && Ascending(page) && |page| <= limit
      invariant forall id :: id in page ==> id in ids
      invariant forall id :: id in ids && id !in page ==> id in left
      invariant forall k, id :: 0 <= k < |page| && id in left ==> Less(page[k], id)
    {
      SmallestExists(left);
      var id :| Smallest(left, id);
      page := page + [id];
      left := left - {id};
    }
  }
}
