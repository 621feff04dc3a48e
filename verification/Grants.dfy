/** Grants: normalising and comparing them, authorising a request with them, attenuating them for a child run. */
module Grants {
  import opened Common
  import opened Ordering

  /** An instant; zero is Go's zero time, and there are instants before it. */
  type Time = int

  datatype Resource = Resource(kind: string, ids: seq<string>, relation: string)

  datatype Grant = Grant(id: string, app: string, principal: string, capability: string, resource: Resource,
                         notBefore: Time, expiresAt: Time, maxCalls: nat, maxCost: nat, audience: string,
                         delegable: bool, maxDepth: nat, revision: string)

  // ---- normalising ----

  function InsertId(id: string, s: seq<string>): (r: seq<string>)
    ensures |r| == |s| + 1 && forall x :: x in r <==> x == id || x in s
  {
    if s == [] then [id]
    else if Less(s[0], id) then
      assert s == [s[0]] + s[1..];
      [s[0]] + InsertId(id, s[1..])
    else [id] + s
  }

  function SortIds(s: seq<string>): (r: seq<string>)
    ensures |r| == |s| && forall x :: x in r <==> x in s
  {
    if s == [] then []
    else
      assert s == s[..|s| - 1] + [s[|s| - 1]];
      InsertId(s[|s| - 1], SortIds(s[..|s| - 1]))
  }

  lemma {:induction false} InsertAscending(id: string, s: seq<string>)
    requires Ascending(s) && id !in s
    ensures Ascending(InsertId(id, s))
  {
    if s != [] {
      LessTotal(s[0], id);
      if Less(s[0], id) {
        InsertAscending(id, s[1..]);
        var r := InsertId(id, s[1..]);
        forall i | 0 <= i < |r| ensures Less(s[0], r[i]) {
          assert r[i] in r;
        }
      } else {
        forall i | 0 <= i < |s| ensures Less(id, s[i]) {
          if i > 0 {
            LessTransitive(id, s[0], s[i]);
          }
        }
      }
    }
  }

  /** Sorting identifiers that are all different gives a strictly ascending sequence. */
  lemma {:induction false} SortAscending(s: seq<string>)
    requires Distinct(s)
    ensures Ascending(SortIds(s))
  {
    if s != [] {
      SortAscending(s[..|s| - 1]);
      InsertAscending(s[|s| - 1], SortIds(s[..|s| - 1]));
    }
  }

  /** What a grant has to have apart from its resource ids. */
  ghost predicate ValidShape(g: Grant) {
    && IsStableId(g.id) && IsStableId(g.app) && g.principal != "" && IsStableId(g.capability)
       && IsStableId(g.resource.kind)
    && g.expiresAt != 0 && g.maxCalls != 0 && (g.notBefore != 0 ==> g.notBefore < g.expiresAt)
    && (g.audience != "" ==> IsStableId(g.audience)) && (g.resource.relation != "" ==> IsStableId(g.resource.relation))
  }

  /** The grants that NormalizeGrant accepts. */
  ghost predicate Valid(g: Grant) {
    ValidShape(g) && Distinct(g.resource.ids) && forall id :: id in g.resource.ids ==> IsStableId(id)
  }

  function Normal(g: Grant): Grant {
    g.(resource := g.resource.(ids := SortIds(g.resource.ids)))
  }

  /** Normalising gives a valid grant with the same resources in ascending order, and changes it no further. */
  lemma NormalIsNormal(g: Grant)
    requires Valid(g)
    ensures Ascending(Normal(g).resource.ids) && Valid(Normal(g))
    ensures forall id :: id in Normal(g).resource.ids <==> id in g.resource.ids
  {
    SortAscending(g.resource.ids);
    var ids := SortIds(g.resource.ids);
    forall i, j | 0 <= i < j < |ids| ensures ids[i] != ids[j] {
      LessIrreflexive(ids[i]);
    }
  }

  method NormalizeGrant(g: Grant) returns (r: Option<Grant>)
    ensures r == if Valid(g) then Some(Normal(g)) else None
  {
    if !IsStableId(g.id) || !IsStableId(g.app) || g.principal == "" || !IsStableId(g.capability)
       || !IsStableId(g.resource.kind) || g.expiresAt == 0 || g.maxCalls == 0
       || (g.notBefore != 0 && g.notBefore >= g.expiresAt) {
      return None;
    }
    if g.audience != "" && !IsStableId(g.audience) {
      return None;
    }
    if g.resource.relation != "" && !IsStableId(g.resource.relation) {
      return None;
    }
    var ids := SortIds(g.resource.ids);
    var i := 0;
    while i < |ids|
      invariant i <= |ids|
      invariant forall k :: 0 <= k < i ==> IsStableId(ids[k])
      invariant forall k :: 0 < k < i ==> ids[k - 1] != ids[k]
    {
      if !IsStableId(ids[i]) || (i > 0 && ids[i - 1] == ids[i]) {
        NotNormal(g, i);
        return None;
      }
      i := i + 1;
    }
    SortedIsDistinct(g.resource.ids);
    assert forall id :: id in g.resource.ids ==> id in ids;
    r := Some(g.(resource := g.resource.(ids := ids)));
  }

  lemma NotNormal(g: Grant, i: nat)
    requires i < |SortIds(g.resource.ids)|
    requires var ids := SortIds(g.resource.ids); !IsStableId(ids[i]) || (i > 0 && ids[i - 1] == ids[i])
    ensures !Valid(g)
  {
    var ids := SortIds(g.resource.ids);
    if Distinct(g.resource.ids) {
      SortAscending(g.resource.ids);
      LessIrreflexive(ids[i]);
    }
    assert ids[i] in ids;
  }

  ghost predicate WeaklyAscending(s: seq<string>) {
    forall i, j :: 0 <= i < j < |s| ==> s[i] == s[j] || Less(s[i], s[j])
  }

  lemma {:induction false} InsertCounts(id: string, s: seq<string>)
    ensures multiset(InsertId(id, s)) == multiset(s) + multiset{id}
  {
    if s != [] {
      assert s == [s[0]] + s[1..];
      if Less(s[0], id) {
        InsertCounts(id, s[1..]);
      }
    }
  }

  lemma {:induction false} InsertWeakly(id: string, s: seq<string>)
    requires WeaklyAscending(s)
    ensures WeaklyAscending(InsertId(id, s))
  {
    if s != [] {
      LessTotal(s[0], id);
      if Less(s[0], id) {
        InsertWeakly(id, s[1..]);
        var r := InsertId(id, s[1..]);
        forall i | 0 <= i < |r| ensures s[0] == r[i] || Less(s[0], r[i]) {
          assert r[i] in r;
          assert r[i] == id || r[i] in s[1..];
        }
      } else {
        forall i | 0 <= i < |s| ensures id == s[i] || Less(id, s[i]) {
          if i > 0 && id != s[0] && s[0] != s[i] {
            LessTransitive(id, s[0], s[i]);
          }
        }
      }
    }
  }

  lemma {:induction false} SortWeakly(s: seq<string>)
    ensures WeaklyAscending(SortIds(s)) && multiset(SortIds(s)) == multiset(s)
  {
    if s != [] {
      SortWeakly(s[..|s| - 1]);
      assert s == s[..|s| - 1] + [s[|s| - 1]];
      InsertWeakly(s[|s| - 1], SortIds(s[..|s| - 1]));
      InsertCounts(s[|s| - 1], SortIds(s[..|s| - 1]));
    }
  }

  /** A sorted sequence without equal neighbours comes from one without equal elements. */
  lemma SortedIsDistinct(s: seq<string>)
    requires forall k :: 0 < k < |SortIds(s)| ==> SortIds(s)[k - 1] != SortIds(s)[k]
    ensures Distinct(s)
  {
    var t := SortIds(s);
    SortWeakly(s);
    forall i, j | 0 <= i < j < |t| ensures t[i] != t[j] {
      if j > i + 1 {
        assert t[i] != t[i + 1] && (t[i + 1] == t[j] || Less(t[i + 1], t[j]));
        if t[i] == t[j] {
          LessTransitive(t[i], t[i + 1], t[i]);
          LessIrreflexive(t[i]);
        }
      }
    }
    DistinctByMultiset(t, s);
  }

  lemma {:induction false} DistinctCounts(s: seq<string>)
    ensures Distinct(s) <==> forall x :: multiset(s)[x] <= 1
  {
    if s != [] {
      var before, last := s[..|s| - 1], s[|s| - 1];
      DistinctCounts(before);
      assert s == before + [last];
      assert last in before <==> multiset(before)[last] > 0;
      if forall x :: multiset(s)[x] <= 1 {
        assert forall x :: multiset(before)[x] <= multiset(s)[x];
        assert multiset(s)[last] == multiset(before)[last] + 1;
      }
    }
  }

  lemma DistinctByMultiset(a: seq<string>, b: seq<string>)
    requires multiset(a) == multiset(b) && Distinct(a)
    ensures Distinct(b)
  {
    DistinctCounts(a);
    DistinctCounts(b);
  }
}
