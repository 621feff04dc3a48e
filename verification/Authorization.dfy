/** Authorising one capability call: the checks on the capability's declaration, then the first grant that decides. */
module Authorization {
  import opened Common
  import opened Grants
  import opened GrantOrder
  import opened Pointer

  const ANY: string := "any"
  const CURRENT_USER: string := "current_user"
  const PUBLIC: string := "public"

  // ---- what a capability declares ----

  datatype AuthorizationSpec = AuthorizationSpec(resourceType: string, resourceIdFrom: string, principal: string)

  datatype ExecutionSpec = ExecutionSpec(effectTarget: string, replay: string, confirmationFloor: string)

  datatype Spec = Spec(authorization: AuthorizationSpec, execution: ExecutionSpec)

  ghost predicate ValidAuthorization(a: AuthorizationSpec) {
    && IsStableId(a.resourceType) && a.resourceType != ANY
    && (a.resourceIdFrom != "" ==> |a.resourceIdFrom| <= 256 && a.resourceIdFrom[0] == '/' && '\0' !in a.resourceIdFrom)
    && (a.principal == "" || a.principal == ANY || a.principal == CURRENT_USER)
  }

  ghost predicate ValidExecution(e: ExecutionSpec) {
    && e.effectTarget in ["none", "governed_state", "external"]
    && e.replay in ["safe", "idempotency_key", "never"]
    && e.confirmationFloor in ["policy", "required"]
  }

  lemma ReplayPolicies(e: ExecutionSpec)
    requires ValidExecution(e)
    ensures e.replay != "safe" <==> e.replay == "idempotency_key" || e.replay == "never"
    ensures e.confirmationFloor != "policy" <==> e.confirmationFloor == "required"
  {
  }

  method ValidateAuthorization(a: AuthorizationSpec) returns (ok: bool)
    ensures ok <==> ValidAuthorization(a)
  {
    if !IsStableId(a.resourceType) || a.resourceType == ANY {
      return false;
    }
    if a.resourceIdFrom != ""
       && (|a.resourceIdFrom| > 256 || a.resourceIdFrom[0] != '/' || '\0' in a.resourceIdFrom) {
      return false;
    }
    ok := a.principal == "" || a.principal == ANY || a.principal == CURRENT_USER;
  }

  method ValidateExecution(e: ExecutionSpec) returns (ok: bool)
    ensures ok <==> ValidExecution(e)
  {
    if e.effectTarget != "none" && e.effectTarget != "governed_state" && e.effectTarget != "external" {
      return false;
    }
    if e.replay != "safe" && e.replay != "idempotency_key" && e.replay != "never" {
      return false;
    }
    ok := e.confirmationFloor == "policy" || e.confirmationFloor == "required";
  }

  // ---- requests ----

  /** `payload` is None when the bytes are not JSON. */
  datatype Request = Request(app: string, principal: string, runId: string, capability: string, payload: Option<Json>,
                             now: Time, callsUsed: nat, costUsed: nat)

  datatype LookupResult = Allowed | NotAllowed | LookupFailed

  /** The relationship checker: principal, relation, resource type, resource id. */
  type Lookup = (string, string, string, string) -> LookupResult

  /** The capability asks for a user, and the caller is the public. */
  ghost predicate Anonymous(spec: Spec, r: Request) {
    spec.authorization.principal == CURRENT_USER && r.principal == PUBLIC
  }

  /** The resource the call is about: none is named, or the one the declared pointer leads to in the payload. */
  ghost function ResourceOf(spec: Spec, r: Request): Option<string> {
    var pointer := spec.authorization.resourceIdFrom;
    if pointer == "" then Some("")
    else if r.payload.Some? then Named(r.payload.value, Tokens(pointer))
    else None
  }

  /** Everything that is checked before a grant is looked at. */
  ghost predicate Callable(spec: Spec, r: Request) {
    ValidAuthorization(spec.authorization) && !Anonymous(spec, r) && ResourceOf(spec, r).Some?
      && ValidExecution(spec.execution)
  }

  /** A request without a time is dated by the clock. */
  ghost function Dated(r: Request, clock: Time): Request {
    if r.now == 0 then r.(now := clock) else r
  }

  // ---- one grant ----

  datatype Verdict = Skip | Admit | Unavailable

  /** The part of a grant's check that needs no relationship. */
  ghost predicate Matches(g: Grant, r: Request, kind: string, resourceId: string) {
    && g.app == r.app && g.capability == r.capability && (g.principal == r.principal || g.principal == ANY)
    && (g.notBefore != 0 ==> g.notBefore <= r.now) && r.now <= g.expiresAt
    && (g.audience != "" ==> g.audience == r.runId)
    && (g.resource.kind == kind || g.resource.kind == ANY)
    && (g.resource.ids != [] ==> resourceId in g.resource.ids)
  }

  ghost predicate WithinBudget(g: Grant, r: Request) {
    r.callsUsed < g.maxCalls && (g.maxCost != 0 ==> r.costUsed < g.maxCost)
  }

  /** What the loop of Authorize makes of one grant. */
  ghost function Judge(g: Grant, r: Request, kind: string, resourceId: string, lookup: Option<Lookup>): Verdict {
    if !Valid(g) || !Matches(g, r, kind, resourceId) then Skip
    else if g.resource.relation == "" then if WithinBudget(g, r) then Admit else Skip
    else if lookup.None? then Unavailable
    else if resourceId == "" then Skip
    else
      match lookup.value(r.principal, g.resource.relation, g.resource.kind, resourceId)
      case LookupFailed => Unavailable
      case NotAllowed => Skip
      case Allowed => if WithinBudget(g, r) then Admit else Skip
  }

  lemma NormalMatches(g: Grant, r: Request, kind: string, resourceId: string)
    requires Valid(g)
    ensures Matches(Normal(g), r, kind, resourceId) <==> Matches(g, r, kind, resourceId)
    ensures WithinBudget(Normal(g), r) <==> WithinBudget(g, r)
  {
    NormalIsNormal(g);
    assert g.resource.ids != [] <==> Normal(g).resource.ids != [];
  }

  /** Everything a grant has to have for a dated request, apart from its relation and its budget. */
  ghost predicate Covers(g: Grant, r: Request, kind: string, resourceId: string) {
    && Valid(g) && g.app == r.app && g.capability == r.capability
    && (g.principal == r.principal || g.principal == "any")
    && (g.notBefore == 0 || g.notBefore <= r.now) && r.now <= g.expiresAt
    && (g.audience == "" || g.audience == r.runId)
    && (g.resource.kind == kind || g.resource.kind == "any")
    && (g.resource.ids == [] || resourceId in g.resource.ids)
  }

  /** The grant entitles to the request: it covers it, a relation it needs is there, and it is not used up. */
  ghost predicate Entitles(g: Grant, r: Request, kind: string, resourceId: string, lookup: Option<Lookup>) {
    && Covers(g, r, kind, resourceId)
    && r.callsUsed < g.maxCalls && (g.maxCost == 0 || r.costUsed < g.maxCost)
    && (g.resource.relation == ""
        || (resourceId != "" && lookup.Some?
            && lookup.value(r.principal, g.resource.relation, g.resource.kind, resourceId) == Allowed))
  }

  /** The grant covers the request but needs a relation that cannot be looked up. */
  ghost predicate Stops(g: Grant, r: Request, kind: string, resourceId: string, lookup: Option<Lookup>) {
    && Covers(g, r, kind, resourceId) && g.resource.relation != ""
    && (lookup.None?
        || (resourceId != ""
            && lookup.value(r.principal, g.resource.relation, g.resource.kind, resourceId) == LookupFailed))
  }

  lemma JudgeIs(g: Grant, r: Request, kind: string, resourceId: string, lookup: Option<Lookup>)
    ensures Judge(g, r, kind, resourceId, lookup) == Admit <==> Entitles(g, r, kind, resourceId, lookup)
    ensures Judge(g, r, kind, resourceId, lookup) == Unavailable <==> Stops(g, r, kind, resourceId, lookup)
  {
    hide Valid;
  }

  /** The turn of Authorize's loop for one grant. */
  method JudgeGrant(candidate: Grant, r: Request, kind: string, resourceId: string, lookup: Option<Lookup>)
    returns (verdict: Verdict, g: Grant)
    ensures verdict == Judge(candidate, r, kind, resourceId, lookup)
    ensures verdict == Admit ==> Valid(candidate) && g == Normal(candidate)
    ensures verdict == Admit ==> Entitles(g, r, kind, resourceId, lookup)
  {
    var normal := NormalizeGrant(candidate);
    if normal.None? {
      return Skip, candidate;
    }
    NormalMatches(candidate, r, kind, resourceId);
    NormalIsNormal(candidate);
    hide Valid, Normal;
    g := normal.value;
    if g.app != r.app || g.capability != r.capability || (g.principal != r.principal && g.principal != ANY)
       || (g.notBefore != 0 && r.now < g.notBefore) || r.now > g.expiresAt
       || (g.audience != "" && g.audience != r.runId)
       || (g.resource.kind != kind && g.resource.kind != ANY) {
      return Skip, g;
    }
    if |g.resource.ids| > 0 && resourceId !in g.resource.ids {
      return Skip, g;
    }
    if g.resource.relation != "" {
      if lookup.None? {
        return Unavailable, g;
      }
      if resourceId == "" {
        return Skip, g;
      }
      var answer := lookup.value(r.principal, g.resource.relation, g.resource.kind, resourceId);
      if answer == LookupFailed {
        return Unavailable, g;
      }
      if answer == NotAllowed {
        return Skip, g;
      }
    }
    if r.callsUsed >= g.maxCalls || (g.maxCost != 0 && r.costUsed >= g.maxCost) {
      return Skip, g;
    }
    verdict := Admit;
  }

  // ---- the first grant that decides ----

  /** The first grant that is not skipped is the i-th one. */
  ghost predicate FirstAt(gs: seq<Grant>, i: nat, r: Request, kind: string, resourceId: string,
                          lookup: Option<Lookup>) {
    && i < |gs| && Judge(gs[i], r, kind, resourceId, lookup) != Skip
    && forall k :: 0 <= k < i ==> Judge(gs[k], r, kind, resourceId, lookup) == Skip
  }

  /** The first grant that is not skipped judges so. */
  ghost predicate Decides(verdict: Verdict, gs: seq<Grant>, i: nat, spec: Spec, r: Request, clock: Time,
                          lookup: Option<Lookup>) {
    && Callable(spec, r)
    && FirstAt(gs, i, Dated(r, clock), spec.authorization.resourceType, ResourceOf(spec, r).value, lookup)
    && Judge(gs[i], Dated(r, clock), spec.authorization.resourceType, ResourceOf(spec, r).value, lookup) == verdict
  }

  ghost predicate Authorized(gs: seq<Grant>, spec: Spec, r: Request, clock: Time, lookup: Option<Lookup>) {
    exists i: nat :: Decides(Admit, gs, i, spec, r, clock, lookup)
  }

  /** A grant that needs a relationship decides, and the relationship cannot be looked up. */
  ghost predicate Blocked(gs: seq<Grant>, spec: Spec, r: Request, clock: Time, lookup: Option<Lookup>) {
    exists i: nat :: Decides(Unavailable, gs, i, spec, r, clock, lookup)
  }

  /** The call may be made, and no grant says anything about it. */
  ghost predicate Exhausted(gs: seq<Grant>, spec: Spec, r: Request, clock: Time, lookup: Option<Lookup>) {
    && Callable(spec, r)
    && forall k :: 0 <= k < |gs| ==>
         Judge(gs[k], Dated(r, clock), spec.authorization.resourceType, ResourceOf(spec, r).value, lookup) == Skip
  }

  datatype Denial =
    | InvalidAuthorization
    | PrincipalRequired
    | InvalidResource
    | InvalidExecution
    | RelationshipUnavailable
    | Denied

  /** Some grant of the list entitles to the dated request, and none before it stops the search. */
  ghost predicate EntitledFirst(gs: seq<Grant>, r: Request, kind: string, resourceId: string, lookup: Option<Lookup>) {
    exists i ::
      && 0 <= i < |gs| && Entitles(gs[i], r, kind, resourceId, lookup)
      && forall k :: 0 <= k < i ==> !Stops(gs[k], r, kind, resourceId, lookup)
  }

  lemma EntitledExactly(gs: seq<Grant>, r: Request, kind: string, resourceId: string, lookup: Option<Lookup>)
    ensures EntitledFirst(gs, r, kind, resourceId, lookup) <==>
              exists i: nat ::
                FirstAt(gs, i, r, kind, resourceId, lookup) && Judge(gs[i], r, kind, resourceId, lookup) == Admit
  {
    forall k | 0 <= k < |gs|
      ensures Judge(gs[k], r, kind, resourceId, lookup) == Admit <==> Entitles(gs[k], r, kind, resourceId, lookup)
      ensures Judge(gs[k], r, kind, resourceId, lookup) == Unavailable <==> Stops(gs[k], r, kind, resourceId, lookup)
    {
      JudgeIs(gs[k], r, kind, resourceId, lookup);
    }
    hide Judge, Entitles, Stops;
    if EntitledFirst(gs, r, kind, resourceId, lookup) {
      var i :| 0 <= i < |gs| && Entitles(gs[i], r, kind, resourceId, lookup)
               && forall k :: 0 <= k < i ==> !Stops(gs[k], r, kind, resourceId, lookup);
      var j := SomeFirst(gs, i, r, kind, resourceId, lookup);
    }
  }

  datatype Decision = Decision(grant: Grant, requireIdempotency: bool, requireConfirmation: bool)

  /**
   Authorize: a call is admitted exactly when its declaration is good, its caller and its resource are
   known and the first grant that is not skipped admits it. The decision carries that grant, normalised,
   and the duties of the capability: every replay policy but "safe" asks for idempotency.
   */
  method Authorize(spec: Spec, r: Request, gs: seq<Grant>, clock: Time, lookup: Option<Lookup>)
    returns (decision: Result<Decision, Denial>)
    ensures decision.Ok? <==> Authorized(gs, spec, r, clock, lookup)
    ensures var dated := if r.now == 0 then r.(now := clock) else r;
      decision.Ok? <==>
        && Callable(spec, r)
        && EntitledFirst(gs, dated, spec.authorization.resourceType, ResourceOf(spec, r).value, lookup)
    ensures var dated := if r.now == 0 then r.(now := clock) else r;
      decision.Ok? ==>
        Entitles(decision.value.grant, dated, spec.authorization.resourceType, ResourceOf(spec, r).value, lookup)
    ensures decision.Ok? ==>
              exists i: nat :: Decides(Admit, gs, i, spec, r, clock, lookup) && decision.value.grant == Normal(gs[i])
    ensures decision.Ok? ==> (decision.value.requireIdempotency <==> spec.execution.replay != "safe")
    ensures decision.Ok? ==> (decision.value.requireConfirmation <==> spec.execution.confirmationFloor != "policy")
    ensures decision == Err(InvalidAuthorization) <==> !ValidAuthorization(spec.authorization)
    ensures decision == Err(PrincipalRequired) <==> ValidAuthorization(spec.authorization) && Anonymous(spec, r)
    ensures decision == Err(InvalidResource) <==>
              ValidAuthorization(spec.authorization) && !Anonymous(spec, r) && ResourceOf(spec, r).None?
    ensures decision == Err(RelationshipUnavailable) <==> Blocked(gs, spec, r, clock, lookup)
    ensures decision == Err(InvalidExecution) <==>
              && ValidAuthorization(spec.authorization) && !Anonymous(spec, r) && ResourceOf(spec, r).Some?
              && !ValidExecution(spec.execution)
    ensures decision == Err(Denied) <==> Exhausted(gs, spec, r, clock, lookup)
  {
    hide Judge, Entitles, EntitledFirst, Valid, Normal, ValidAuthorization, ValidExecution, Tokens, Named;
    var ok := ValidateAuthorization(spec.authorization);
    if !ok {
      return Err(InvalidAuthorization);
    }
    if spec.authorization.principal == CURRENT_USER && r.principal == PUBLIC {
      return Err(PrincipalRequired);
    }
    var resource := ResourceId(spec.authorization.resourceIdFrom, r.payload);
    assert resource == ResourceOf(spec, r);
    if resource.None? {
      return Err(InvalidResource);
    }
    ok := ValidateExecution(spec.execution);
    if !ok {
      return Err(InvalidExecution);
    }
    hide ResourceOf, Anonymous;
    var kind, dated := spec.authorization.resourceType, r;
    if dated.now == 0 {
      dated := r.(now := clock);
    }
    EntitledExactly(gs, dated, kind, resource.value, lookup);
    var i := 0;
    while i < |gs|
      invariant i <= |gs|
      invariant forall k :: 0 <= k < i ==> Judge(gs[k], dated, kind, resource.value, lookup) == Skip
    {
      var verdict, g := JudgeGrant(gs[i], dated, kind, resource.value, lookup);
      if verdict != Skip {
        assert FirstAt(gs, i, dated, kind, resource.value, lookup);
        assert Decides(verdict, gs, i, spec, r, clock, lookup);
        if verdict == Unavailable {
          return Err(RelationshipUnavailable);
        }
        assert Callable(spec, r);
        var replay := spec.execution.replay;
        ReplayPolicies(spec.execution);
        return Ok(Decision(g, replay == "idempotency_key" || replay == "never",
                           spec.execution.confirmationFloor == "required"));
      }
      i := i + 1;
    }
    decision := Err(Denied);
  }

  // ---- narrowed grants admit no more ----

  /**
   A request that a grant admits is admitted by every grant above it, except exactly for one that comes
   before a lower bound the grant has lost. Such a bound lies before Go's zero time.
   */
  lemma AdmittedAboveExactly(c: Grant, p: Grant, r: Request, kind: string, resourceId: string, lookup: Option<Lookup>)
    requires Valid(c) && Valid(p) && Subset(c, p)
    requires Judge(c, r, kind, resourceId, lookup) == Admit
    ensures Judge(p, r, kind, resourceId, lookup) == Admit <==> !(LosesStart(c, p) && r.now < p.notBefore)
    ensures Judge(p, r, kind, resourceId, lookup) == Admit || r.now < 0
  {
  }

  /** Such a request exists for every grant that has lost a bound: it comes just before it. */
  lemma EarlyRequestAdmitted(c: Grant, p: Grant) returns (r: Request, kind: string, resourceId: string)
    requires Valid(c) && Valid(p) && Subset(c, p) && LosesStart(c, p)
    ensures r.now < p.notBefore
    ensures var lookup := Some((a: string, b: string, k: string, d: string) => Allowed);
      Judge(c, r, kind, resourceId, lookup) == Admit && Judge(p, r, kind, resourceId, lookup) == Skip
  {
    r := Request(c.app, c.principal, c.audience, c.capability, None, Min(c.expiresAt, p.notBefore - 1), 0, 0);
    kind := c.resource.kind;
    resourceId := if c.resource.ids == [] then "x" else c.resource.ids[0];
    assert c.resource.ids != [] ==> IsStableId(c.resource.ids[0]);
  }

  /** Some grant of the list, as it is used, covers the grant. */
  ghost predicate Under(c: Grant, gs: seq<Grant>) {
    exists p :: p in gs && Valid(p) && Subset(c, p)
  }

  /** A relationship lookup that always answers. */
  ghost predicate Answers(lookup: Option<Lookup>) {
    lookup.Some? && forall p, relation, kind, id :: lookup.value(p, relation, kind, id) != LookupFailed
  }

  /**
   Narrowing is sound: a request that is not dated before Go's zero time and is authorised with grants
   that all lie under others is authorised with those too, or a failed relationship lookup for one of
   them stops it; it is never just denied.
   */
  lemma NarrowingIsSound(narrowed: seq<Grant>, parents: seq<Grant>, spec: Spec, r: Request, clock: Time,
                         lookup: Option<Lookup>)
    requires forall c :: c in narrowed ==> Under(c, parents)
    requires Dated(r, clock).now >= 0 && Authorized(narrowed, spec, r, clock, lookup)
    ensures Authorized(parents, spec, r, clock, lookup) || Blocked(parents, spec, r, clock, lookup)
    ensures Answers(lookup) ==> Authorized(parents, spec, r, clock, lookup)
  {
    hide ResourceOf, Judge, Under, Valid;
    var i: nat :| Decides(Admit, narrowed, i, spec, r, clock, lookup);
    var kind, resourceId := spec.authorization.resourceType, ResourceOf(spec, r).value;
    assert narrowed[i] in narrowed;
    var k := FirstAbove(narrowed[i], parents, Dated(r, clock), kind, resourceId, lookup);
    assert Decides(Judge(parents[k], Dated(r, clock), kind, resourceId, lookup), parents, k, spec, r, clock, lookup);
  }

  /**
   Some grant of the parents is not skipped; only a lookup that does not answer keeps the first one
   from admitting.
   */
  lemma FirstAbove(c: Grant, parents: seq<Grant>, r: Request, kind: string, resourceId: string, lookup: Option<Lookup>)
    returns (k: nat)
    requires Under(c, parents) && r.now >= 0 && Judge(c, r, kind, resourceId, lookup) == Admit
    ensures FirstAt(parents, k, r, kind, resourceId, lookup)
    ensures Judge(parents[k], r, kind, resourceId, lookup) == Admit
      || (Judge(parents[k], r, kind, resourceId, lookup) == Unavailable && !Answers(lookup))
  {
    var p :| p in parents && Valid(p) && Subset(c, p);
    AdmittedAboveExactly(c, p, r, kind, resourceId, lookup);
    var n :| 0 <= n < |parents| && parents[n] == p;
    hide Matches, WithinBudget, Subset, Valid;
    k := SomeFirst(parents, n, r, kind, resourceId, lookup);
  }

  lemma {:induction false} SomeFirst(gs: seq<Grant>, n: nat, r: Request, kind: string, resourceId: string,
                                     lookup: Option<Lookup>)
    returns (i: nat)
    requires n < |gs| && Judge(gs[n], r, kind, resourceId, lookup) != Skip
    ensures i <= n && FirstAt(gs, i, r, kind, resourceId, lookup)
    decreases n
  {
    if k: nat :| k < n && Judge(gs[k], r, kind, resourceId, lookup) != Skip {
      i := SomeFirst(gs, k, r, kind, resourceId, lookup);
    } else {
      i := n;
    }
  }
}
