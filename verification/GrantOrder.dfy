/** GrantSubset as a relation on grants, and when it is transitive. */
module GrantOrder {
  import opened Common
  import opened Grants

  predicate IdsWithin(child: seq<string>, parent: seq<string>) {
    parent != [] ==> child != [] && forall id :: id in child ==> id in parent
  }

  /** The child does not widen the parent, field by field, as GrantSubset decides it. */
  predicate Subset(c: Grant, p: Grant) {
    && c.app == p.app && c.principal == p.principal && c.capability == p.capability
    && c.resource.kind == p.resource.kind && c.resource.relation == p.resource.relation
    && (p.audience != "" ==> c.audience == p.audience)
    && c.maxCalls <= p.maxCalls && c.expiresAt <= p.expiresAt
    && (p.notBefore != 0 ==> c.notBefore >= p.notBefore)
    && (c.delegable ==> p.delegable) && c.maxDepth <= p.maxDepth
    && (p.maxCost != 0 ==> 0 < c.maxCost <= p.maxCost)
    && IdsWithin(c.resource.ids, p.resource.ids)
  }

  method GrantSubset(c: Grant, p: Grant) returns (ok: bool)
    ensures ok <==> Subset(c, p)
  {
    if c.app != p.app || c.principal != p.principal || c.capability != p.capability
       || c.resource.kind != p.resource.kind || c.resource.relation != p.resource.relation
       || (p.audience != "" && c.audience != p.audience)
       || p.maxCalls < c.maxCalls || c.expiresAt > p.expiresAt
       || (p.notBefore != 0 && c.notBefore < p.notBefore)
       || (!p.delegable && c.delegable) || c.maxDepth > p.maxDepth
       || (p.maxCost != 0 && (c.maxCost == 0 || c.maxCost > p.maxCost)) {
      return false;
    }
    if |p.resource.ids| > 0 {
      if |c.resource.ids| == 0 {
        return false;
      }
      var allowed: set<string> := {};
      var i := 0;
      while i < |p.resource.ids|
        invariant i <= |p.resource.ids| && forall id :: id in allowed <==> id in p.resource.ids[..i]
      {
        allowed := allowed + {p.resource.ids[i]};
        i := i + 1;
      }
      assert p.resource.ids[..i] == p.resource.ids;
      i := 0;
      while i < |c.resource.ids|
        invariant i <= |c.resource.ids| && forall k :: 0 <= k < i ==> c.resource.ids[k] in p.resource.ids
      {
        if c.resource.ids[i] !in allowed {
          return false;
        }
        i := i + 1;
      }
    }
    ok := true;
  }

  lemma SubsetReflexive(g: Grant)
    ensures Subset(g, g)
  {
  }

  /** The lower bound of the parent is lost: the child has none, and the parent's lies before Go's zero time. */
  predicate LosesStart(c: Grant, p: Grant) {
    c.notBefore == 0 && p.notBefore < 0
  }

  lemma SubsetTransitive(a: Grant, b: Grant, c: Grant)
    requires Subset(a, b) && Subset(b, c) && !LosesStart(b, c)
    ensures Subset(a, c)
  {
  }

  /**
   GrantSubset is not transitive in general: a time before Go's zero time is a bound that a child without
   a bound passes. What lies under b lies under c exactly when b itself does and c's lower bound is not lost.
   */
  lemma TransitiveExactly(b: Grant, c: Grant)
    requires Valid(b) && Valid(c)
    ensures (forall a :: Valid(a) && Subset(a, b) ==> Subset(a, c)) <==> Subset(b, c) && !LosesStart(b, c)
  {
    SubsetReflexive(b);
    if Subset(b, c) && LosesStart(b, c) {
      var a := b.(notBefore := Min(c.notBefore - 1, b.expiresAt - 1));
      assert Valid(a) && Subset(a, b) && !Subset(a, c);
    } else if Subset(b, c) {
      forall a | Valid(a) && Subset(a, b) ensures Subset(a, c) {
        SubsetTransitive(a, b, c);
      }
    }
  }

  const BOUNDED: Grant := Grant("g", "a", "any", "x", Resource("any", [], ""), -5, 10, 1, 0, "", false, 0, "r")
  const UNBOUNDED: Grant := BOUNDED.(notBefore := 0)
  const EARLIER: Grant := BOUNDED.(notBefore := -6)

  /** The failing side is not empty: three valid grants between which transitivity fails. */
  lemma NotTransitive()
    ensures Valid(EARLIER) && Valid(UNBOUNDED) && Valid(BOUNDED) && LosesStart(UNBOUNDED, BOUNDED)
    ensures Subset(EARLIER, UNBOUNDED) && Subset(UNBOUNDED, BOUNDED) && !Subset(EARLIER, BOUNDED)
  {
  }

  /** Normalising does not change which grants lie under which. */
  lemma SubsetNormal(c: Grant, p: Grant)
    requires Valid(c) && Valid(p)
    ensures Subset(Normal(c), Normal(p)) <==> Subset(c, p)
  {
    NormalIsNormal(c);
    NormalIsNormal(p);
  }

  method NarrowGrant(parent: Grant, requested: Grant) returns (r: Option<Grant>)
    ensures r.Some? <==> Valid(parent) && Valid(requested) && Subset(requested, parent)
    ensures r.Some? ==> r.value == Normal(requested)
  {
    var p := NormalizeGrant(parent);
    if p.None? {
      return None;
    }
    var c := NormalizeGrant(requested);
    if c.None? {
      return None;
    }
    SubsetNormal(requested, parent);
    var within := GrantSubset(c.value, p.value);
    r := if within then c else None;
  }
}
