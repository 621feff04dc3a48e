/** Attenuating grants for a child run, and what a child run may then do. */
module ChildGrants {
  import opened Common
  import opened Ordering
  import opened Grants
  import opened GrantOrder
  import opened Authorization

  // ---- attenuating for a child run ----

  const CREATE_CHILD: string := "run.create_child"

  /** The request's candidate as it is tried: bound to the child, with an id. */
  ghost function Candidate(g: Grant, audience: string, defaultId: string): Grant {
    g.(audience := audience, id := if g.id == "" then defaultId else g.id)
  }

  /** The grant is what was asked for, bound to the child, with an id of its own and its resources in order. */
  ghost predicate Issued(q: Grant, g: Grant, audience: string, defaultId: string) {
    && g.audience == audience && g.id == (if q.id == "" then defaultId else q.id)
    && g.app == q.app && g.principal == q.principal && g.capability == q.capability && g.revision == q.revision
    && g.resource.kind == q.resource.kind && g.resource.relation == q.resource.relation
    && Ascending(g.resource.ids) && (forall id :: id in g.resource.ids <==> id in q.resource.ids)
    && g.notBefore == q.notBefore && g.expiresAt == q.expiresAt && g.maxCalls == q.maxCalls && g.maxCost == q.maxCost
    && g.delegable == q.delegable && g.maxDepth == q.maxDepth
  }

  /** Every request has its grant, and every grant its request. */
  ghost predicate AllIssued(requested: seq<Grant>, grants: seq<Grant>, audience: string, defaultIds: seq<string>)
    requires |defaultIds| == |requested|
  {
    && (forall i :: 0 <= i < |requested| ==> HasGrant(requested[i], grants, audience, defaultIds[i]))
    && (forall g :: g in grants ==> WasRequested(g, requested, audience, defaultIds))
  }

  ghost predicate HasGrant(q: Grant, grants: seq<Grant>, audience: string, defaultId: string) {
    exists g :: g in grants && Issued(q, g, audience, defaultId)
  }

  ghost predicate WasRequested(g: Grant, requested: seq<Grant>, audience: string, defaultIds: seq<string>)
    requires |defaultIds| == |requested|
  {
    exists i :: 0 <= i < |requested| && Issued(requested[i], g, audience, defaultIds[i])
  }

  lemma NormalIssued(q: Grant, audience: string, defaultId: string)
    requires Valid(Candidate(q, audience, defaultId))
    ensures Issued(q, Normal(Candidate(q, audience, defaultId)), audience, defaultId)
  {
    NormalIsNormal(Candidate(q, audience, defaultId));
  }

  lemma CandidatesIssued(requested: seq<Grant>, grants: seq<Grant>, audience: string, defaultIds: seq<string>,
                         parents: seq<Grant>, policy: seq<Grant>)
    requires |defaultIds| == |requested|
    requires forall c :: c in Candidates(requested, audience, defaultIds) ==> Acceptable(c, parents, policy)
    requires forall g :: g in grants <==>
               exists c :: c in Candidates(requested, audience, defaultIds) && g == Normal(c)
    ensures AllIssued(requested, grants, audience, defaultIds)
  {
    var candidates := Candidates(requested, audience, defaultIds);
    forall i | 0 <= i < |requested|
      ensures Issued(requested[i], Normal(candidates[i]), audience, defaultIds[i])
      ensures HasGrant(requested[i], grants, audience, defaultIds[i])
    {
      assert candidates[i] in candidates && Acceptable(candidates[i], parents, policy);
      assert candidates[i] == Candidate(requested[i], audience, defaultIds[i]);
      NormalIssued(requested[i], audience, defaultIds[i]);
    }
    hide Issued, Normal;
    forall g | g in grants ensures WasRequested(g, requested, audience, defaultIds) {
      var c :| c in candidates && g == Normal(c);
      var i :| 0 <= i < |candidates| && candidates[i] == c;
      assert Issued(requested[i], g, audience, defaultIds[i]);
    }
  }

  /** Some grant in the list is for the same capability and covers the candidate. */
  ghost predicate Covered(c: Grant, gs: seq<Grant>) {
    exists i :: 0 <= i < |gs| && gs[i].capability == c.capability && Valid(gs[i]) && Subset(c, gs[i])
  }

  ghost predicate Acceptable(c: Grant, parents: seq<Grant>, policy: seq<Grant>) {
    Valid(c) && Covered(c, parents) && Covered(c, policy) && c.capability != CREATE_CHILD
  }

  method FindCover(c: Grant, gs: seq<Grant>) returns (narrowed: Option<Grant>)
    requires Valid(c)
    ensures narrowed.Some? <==> Covered(c, gs)
    ensures narrowed.Some? ==> narrowed.value == Normal(c)
  {
    var i := 0;
    while i < |gs|
      invariant i <= |gs|
      invariant forall k :: 0 <= k < i ==> !(gs[k].capability == c.capability && Valid(gs[k]) && Subset(c, gs[k]))
    {
      if gs[i].capability == c.capability {
        narrowed := NarrowGrant(gs[i], c);
        if narrowed.Some? {
          return;
        }
      }
      i := i + 1;
    }
    narrowed := None;
  }

  /** The two inner loops of attenuateGrants for one candidate. */
  method Attenuate(c: Grant, parents: seq<Grant>, policy: seq<Grant>) returns (r: Option<Grant>)
    ensures r.Some? <==> Acceptable(c, parents, policy)
    ensures r.Some? ==> r.value == Normal(c)
  {
    var valid := NormalizeGrant(c);
    if valid.None? {
      return None;
    }
    var underParent := FindCover(c, parents);
    if underParent.None? {
      return None;
    }
    CoveredNormal(c, policy);
    NormalIsNormal(c);
    var underPolicy := FindCover(underParent.value, policy);
    if underPolicy.None? || c.capability == CREATE_CHILD {
      return None;
    }
    r := underParent;
  }

  lemma CoveredNormal(c: Grant, gs: seq<Grant>)
    requires Valid(c)
    ensures Covered(Normal(c), gs) <==> Covered(c, gs)
  {
    NormalIsNormal(c);
    assert forall p :: Subset(Normal(c), p) <==> Subset(c, p);
  }

  function InsertGrant(g: Grant, s: seq<Grant>): (r: seq<Grant>)
    ensures |r| == |s| + 1 && forall x :: x in r <==> x == g || x in s
  {
    if s == [] then [g]
    else if Less(s[0].id, g.id) then
      assert s == [s[0]] + s[1..];
      [s[0]] + InsertGrant(g, s[1..])
    else [g] + s
  }

  ghost predicate IdsAscending(s: seq<Grant>) {
    forall i, j :: 0 <= i < j < |s| ==> Less(s[i].id, s[j].id)
  }

  lemma {:induction false} InsertGrantAscending(g: Grant, s: seq<Grant>)
    requires IdsAscending(s) && forall x :: x in s ==> x.id != g.id
    ensures IdsAscending(InsertGrant(g, s))
  {
    if s != [] {
      LessTotal(s[0].id, g.id);
      if Less(s[0].id, g.id) {
        InsertGrantAscending(g, s[1..]);
        var r := InsertGrant(g, s[1..]);
        forall i | 0 <= i < |r| ensures Less(s[0].id, r[i].id) {
          assert r[i] in r;
        }
      } else {
        forall i | 0 <= i < |s| ensures Less(g.id, s[i].id) {
          if i > 0 {
            LessTransitive(g.id, s[0].id, s[i].id);
          }
        }
      }
    }
  }

  ghost predicate DistinctIds(s: seq<Grant>) {
    forall i, j :: 0 <= i < j < |s| ==> s[i].id != s[j].id
  }

  /** The candidates with their bindings; `defaultIds` are the generated ids by position. */
  ghost function Candidates(requested: seq<Grant>, audience: string, defaultIds: seq<string>): (r: seq<Grant>)
    requires |defaultIds| == |requested|
    ensures |r| == |requested|
    ensures forall i :: 0 <= i < |r| ==> r[i] == Candidate(requested[i], audience, defaultIds[i])
  {
    seq(|requested|, i requires 0 <= i < |requested| => Candidate(requested[i], audience, defaultIds[i]))
  }

  /** The grants, in strictly ascending order of their ids; refused when two ids are equal. */
  method SortGrants(s: seq<Grant>) returns (r: Option<seq<Grant>>)
    ensures r.Some? <==> DistinctIds(s)
    ensures r.Some? ==> |r.value| == |s| && IdsAscending(r.value) && forall g :: g in r.value <==> g in s
  {
    var sorted: seq<Grant> := [];
    var i := 0;
    while i < |s|
      invariant i <= |s| && |sorted| == i && IdsAscending(sorted)
      invariant forall g :: g in sorted <==> g in s[..i]
      invariant DistinctIds(s[..i])
    {
      var k := 0;
      while k < |sorted|
        invariant k <= |sorted| && forall m :: 0 <= m < k ==> sorted[m].id != s[i].id
      {
        if sorted[k].id == s[i].id {
          assert sorted[k] in s[..i];
          return None;
        }
        k := k + 1;
      }
      assert forall m :: 0 <= m < i ==> s[..i][m] in sorted;
      InsertGrantAscending(s[i], sorted);
      sorted := InsertGrant(s[i], sorted);
      assert s[..i + 1] == s[..i] + [s[i]];
      i := i + 1;
    }
    assert s[..i] == s;
    r := Some(sorted);
  }

  /**
   attenuateGrants. It succeeds exactly when the policy is enabled, there are at most 64 requests, every
   candidate is valid and covered by a parent grant and by a policy grant, none would create children,
   and no two ids are equal. The result is exactly the candidates, normalised, in strict id order.
   */
  method AttenuateGrants(enabled: bool, parents: seq<Grant>, policy: seq<Grant>, requested: seq<Grant>,
                         audience: string, defaultIds: seq<string>)
    returns (r: Option<seq<Grant>>)
    requires |defaultIds| == |requested|
    ensures r.Some? <==>
              && enabled && |requested| <= 64
              && (forall c :: c in Candidates(requested, audience, defaultIds) ==> Acceptable(c, parents, policy))
              && DistinctIds(Candidates(requested, audience, defaultIds))
    ensures r.Some? ==> |r.value| == |requested| && IdsAscending(r.value)
    ensures r.Some? ==> forall g :: g in r.value <==>
              exists c :: c in Candidates(requested, audience, defaultIds) && g == Normal(c)
    ensures r.Some? ==> AllIssued(requested, r.value, audience, defaultIds)
    ensures r.Some? ==> Attenuated(r.value, parents, policy)
    ensures r.Some? ==> AdmitsNoMore(r.value, parents) && AdmitsNoMore(r.value, policy)
  {
    hide Acceptable, Normal, Attenuated, AdmitsNoMore, AllIssued;
    ghost var candidates := Candidates(requested, audience, defaultIds);
    if !enabled || |requested| > 64 {
      return None;
    }
    var grants: seq<Grant> := [];
    while |grants| < |requested|
      invariant |grants| <= |requested|
      invariant forall i :: 0 <= i < |grants| ==>
                  Acceptable(candidates[i], parents, policy) && grants[i] == Normal(candidates[i])
    {
      var i := |grants|;
      var c := requested[i].(audience := audience);
      if c.id == "" {
        c := c.(id := defaultIds[i]);
      }
      assert c == candidates[i] && candidates[i] in candidates;
      var narrowed := Attenuate(c, parents, policy);
      if narrowed.None? {
        return None;
      }
      grants := grants + [narrowed.value];
    }
    NormalKeepsIds(candidates, grants);
    assert forall c :: c in candidates ==> Acceptable(c, parents, policy);
    r := SortGrants(grants);
    if r.Some? {
      CandidatesIssued(requested, r.value, audience, defaultIds, parents, policy);
      AttenuatedLiesUnder(candidates, r.value, parents, policy);
      AttenuationIsSound(r.value, parents, policy);
    }
  }

  lemma NormalKeepsIds(candidates: seq<Grant>, grants: seq<Grant>)
    requires |grants| == |candidates| && forall i :: 0 <= i < |grants| ==> grants[i] == Normal(candidates[i])
    ensures DistinctIds(grants) <==> DistinctIds(candidates)
    ensures forall g :: g in grants <==> exists c :: c in candidates && g == Normal(c)
  {
    forall g | g in grants ensures exists c :: c in candidates && g == Normal(c) {
      var i :| 0 <= i < |grants| && grants[i] == g;
      assert candidates[i] in candidates;
    }
    forall g, c | c in candidates && g == Normal(c) ensures g in grants {
      var i :| 0 <= i < |candidates| && candidates[i] == c;
      assert grants[i] == g;
    }
    assert forall i :: 0 <= i < |grants| ==> grants[i].id == candidates[i].id;
  }

  /**
   Every grant of the list lies under one of the parent's grants and under a policy grant, and none
   creates children.
   */
  ghost predicate Attenuated(grants: seq<Grant>, parents: seq<Grant>, policy: seq<Grant>) {
    forall g :: g in grants ==> Valid(g) && g.capability != CREATE_CHILD && Under(g, parents) && Under(g, policy)
  }

  lemma CoveredUnder(c: Grant, gs: seq<Grant>)
    requires Valid(c) && Covered(c, gs)
    ensures Under(Normal(c), gs)
  {
    CoveredNormal(c, gs);
    NormalIsNormal(c);
    var i :| 0 <= i < |gs| && gs[i].capability == Normal(c).capability && Valid(gs[i]) && Subset(Normal(c), gs[i]);
    assert gs[i] in gs;
  }

  lemma AttenuatedLiesUnder(candidates: seq<Grant>, grants: seq<Grant>, parents: seq<Grant>, policy: seq<Grant>)
    requires forall c :: c in candidates ==> Acceptable(c, parents, policy)
    requires forall g :: g in grants ==> exists c :: c in candidates && g == Normal(c)
    ensures Attenuated(grants, parents, policy)
  {
    hide Valid, Covered, Under;
    forall g | g in grants ensures Valid(g) && g.capability != CREATE_CHILD && Under(g, parents) && Under(g, policy) {
      var c :| c in candidates && g == Normal(c);
      assert Acceptable(c, parents, policy);
      NormalIsNormal(c);
      CoveredUnder(c, parents);
      CoveredUnder(c, policy);
    }
  }

  // ---- what a child run may do ----

  /**
   Every request that is not dated before Go's zero time, for every capability, is authorised with the
   grants only if the others authorise it too, as long as relationship lookups answer.
   */
  ghost predicate AdmitsNoMore(grants: seq<Grant>, others: seq<Grant>) {
    forall spec, r, clock, lookup ::
      Dated(r, clock).now >= 0 && Answers(lookup) && Authorized(grants, spec, r, clock, lookup) ==>
        Authorized(others, spec, r, clock, lookup)
  }

  /** A child run can do nothing that its parent's grants or the current policy would not allow. */
  lemma AttenuationIsSound(grants: seq<Grant>, parents: seq<Grant>, policy: seq<Grant>)
    requires Attenuated(grants, parents, policy)
    ensures AdmitsNoMore(grants, parents) && AdmitsNoMore(grants, policy)
  {
    hide Authorized, Answers;
    forall spec, r, clock, lookup |
      Dated(r, clock).now >= 0 && Answers(lookup) && Authorized(grants, spec, r, clock, lookup)
      ensures Authorized(parents, spec, r, clock, lookup) && Authorized(policy, spec, r, clock, lookup)
    {
      NarrowingIsSound(grants, parents, spec, r, clock, lookup);
      NarrowingIsSound(grants, policy, spec, r, clock, lookup);
    }
  }

  /**
   However deep the tree of child runs: the grants of a descendant admit no more than those of every
   ancestor, although GrantSubset itself is not transitive, and no more than any policy on the way.
   */
  lemma {:induction false} DescendantsAreSound(chain: seq<seq<Grant>>, policies: seq<seq<Grant>>, i: nat, j: nat)
    requires i <= j < |chain| && |policies| == |chain|
    requires forall k :: 0 < k < |chain| ==> Attenuated(chain[k], chain[k - 1], policies[k])
    ensures AdmitsNoMore(chain[j], chain[i])
    ensures forall k :: i < k <= j ==> AdmitsNoMore(chain[j], policies[k])
    decreases j
  {
    hide Attenuated, AdmitsNoMore;
    AdmitsReflexive(chain[i]);
    if i < j {
      AttenuationIsSound(chain[j], chain[j - 1], policies[j]);
      DescendantsAreSound(chain, policies, i, j - 1);
      AdmitsTransitive(chain[j], chain[j - 1], chain[i]);
      forall k | i < k <= j ensures AdmitsNoMore(chain[j], policies[k]) {
        if k < j {
          AdmitsTransitive(chain[j], chain[j - 1], policies[k]);
        }
      }
    }
  }

  lemma AdmitsReflexive(a: seq<Grant>)
    ensures AdmitsNoMore(a, a)
  {
  }

  lemma AdmitsTransitive(a: seq<Grant>, b: seq<Grant>, c: seq<Grant>)
    requires AdmitsNoMore(a, b) && AdmitsNoMore(b, c)
    ensures AdmitsNoMore(a, c)
  {
  }
}
