/** The scheduler's two levels of slots: one channel for all workers and one for each App. */
module Slots {
  import opened Common

  type App = string

  // ---- sums over a map ----

  ghost function Sum(m: map<App, nat>): nat {
    if m == map[] then 0
    else
      var k :| k in m;
      m[k] + Sum(m - {k})
  }

  lemma {:induction false} SumOut(m: map<App, nat>, k: App)
    requires k in m
    ensures Sum(m) == m[k] + Sum(m - {k})
    decreases |m|
  {
    var j :| j in m && Sum(m) == m[j] + Sum(m - {j});
    if j != k {
      SumOut(m - {j}, k);
      SumOut(m - {k}, j);
      assert m - {j} - {k} == m - {k} - {j};
    }
  }

  lemma SumUpdate(m: map<App, nat>, k: App, n: nat)
    ensures Sum(m[k := n]) == Sum(m) - Taken(m, k) + n
  {
    SumOut(m[k := n], k);
    assert m[k := n] - {k} == m - {k};
    if k in m {
      SumOut(m, k);
    } else {
      assert m - {k} == m;
    }
  }

  function Taken(m: map<App, nat>, app: App): nat {
    if app in m then m[app] else 0
  }

  // ---- the state machine ----

  /**
   A claim's way through poll, dispatch and execute. Each channel operation is one step: HalfTaken is
   between the two sends of acquireSlots, HalfReleased between the two receives of releaseSlots.
   */
  datatype Stage = HalfTaken | Claiming | Dispatching | Executing | Releasing | HalfReleased

  datatype Holder = Holder(app: App, stage: Stage)

  datatype Limits = Limits(maxConcurrent: nat, appCapacity: nat)

  /** `taken` and `released` record which claims acquired their pair of slots and which gave it back. */
  datatype State = State(workers: nat, apps: map<App, nat>, holders: map<nat, Holder>, taken: set<nat>,
                         released: seq<nat>)

  datatype Action =
    | TakeWorker(claim: nat, app: App)
    | TakeApp(claim: nat)
    | BackOff(claim: nat)
    | ClaimFails(claim: nat)
    | ClaimSucceeds(claim: nat)
    | DeadlinePassed(claim: nat)
    | Execute(claim: nat)
    | ExecuteReturns(claim: nat)
    | ReleaseApp(claim: nat)
    | ReleaseWorker(claim: nat)

  const INIT := State(0, map[], map[], {}, [])

  predicate At(s: State, claim: nat, stage: Stage) {
    claim in s.holders && s.holders[claim].stage == stage
  }

  /** What the code is about to do; whether a channel lets it through is a separate question. */
  predicate Ready(s: State, a: Action) {
    match a
    case TakeWorker(c, app) => c !in s.holders && c !in s.taken
    case TakeApp(c) => At(s, c, HalfTaken)
    case BackOff(c) => At(s, c, HalfTaken)
    case ClaimFails(c) => At(s, c, Claiming)
    case ClaimSucceeds(c) => At(s, c, Claiming)
    case DeadlinePassed(c) => At(s, c, Dispatching)
    case Execute(c) => At(s, c, Dispatching)
    case ExecuteReturns(c) => At(s, c, Executing)
    case ReleaseApp(c) => At(s, c, Releasing)
    case ReleaseWorker(c) => At(s, c, HalfReleased)
  }

  /** A send needs room in the channel, a receive something in it; acquireSlots backs off when the App is full. */
  predicate Passes(limits: Limits, s: State, a: Action)
    requires Ready(s, a)
  {
    match a
    case TakeWorker(c, app) => s.workers < limits.maxConcurrent
    case TakeApp(c) => Taken(s.apps, s.holders[c].app) < limits.appCapacity
    case BackOff(c) => Taken(s.apps, s.holders[c].app) >= limits.appCapacity && s.workers > 0
    case ReleaseApp(c) => Taken(s.apps, s.holders[c].app) > 0
    case ReleaseWorker(c) => s.workers > 0
    case _ => true
  }

  predicate Enabled(limits: Limits, s: State, a: Action) {
    Ready(s, a) && Passes(limits, s, a)
  }

  function Goto(s: State, c: nat, stage: Stage): State
    requires c in s.holders
  {
    s.(holders := s.holders[c := s.holders[c].(stage := stage)])
  }

  function Apply(limits: Limits, s: State, a: Action): State
    requires Enabled(limits, s, a)
  {
    match a
    case TakeWorker(c, app) => s.(workers := s.workers + 1, holders := s.holders[c := Holder(app, HalfTaken)])
    case TakeApp(c) =>
      var app := s.holders[c].app;
      Goto(s, c, Claiming).(apps := s.apps[app := Taken(s.apps, app) + 1], taken := s.taken + {c})
    case BackOff(c) => s.(workers := s.workers - 1, holders := s.holders - {c})
    case ClaimFails(c) => Goto(s, c, Releasing)
    case ClaimSucceeds(c) => Goto(s, c, Dispatching)
    case DeadlinePassed(c) => Goto(s, c, Releasing)
    case Execute(c) => Goto(s, c, Executing)
    case ExecuteReturns(c) => Goto(s, c, Releasing)
    case ReleaseApp(c) =>
      var app := s.holders[c].app;
      Goto(s, c, HalfReleased).(apps := s.apps[app := Taken(s.apps, app) - 1])
    case ReleaseWorker(c) =>
      s.(workers := s.workers - 1, holders := s.holders - {c}, released := s.released + [c])
  }

  ghost predicate Step(limits: Limits, s: State, a: Action, s': State) {
    Enabled(limits, s, a) && s' == Apply(limits, s, a)
  }

  ghost predicate Behaviour(limits: Limits, states: seq<State>, acts: seq<Action>) {
    && |states| == |acts| + 1 && states[0] == INIT
    && forall i {:trigger Step(limits, states[i], acts[i], states[i + 1])} :: 0 <= i < |acts| ==>
         Step(limits, states[i], acts[i], states[i + 1])
  }

  lemma StepAt(limits: Limits, states: seq<State>, acts: seq<Action>, i: nat)
    requires Behaviour(limits, states, acts) && i < |acts|
    ensures Step(limits, states[i], acts[i], states[i + 1])
  {
  }

  ghost predicate Reachable(limits: Limits, s: State) {
    exists states, acts :: Behaviour(limits, states, acts) && states[|acts|] == s
  }

  // ---- the invariant ----

  /** The stages at which a claim has both of its slots. */
  predicate Full(stage: Stage) {
    stage == Claiming || stage == Dispatching || stage == Executing || stage == Releasing
  }

  ghost function HoldersOf(s: State, app: App): set<nat> {
    set c | c in s.holders && s.holders[c].app == app && Full(s.holders[c].stage)
  }

  ghost function HalfWay(s: State): set<nat> {
    set c | c in s.holders && !Full(s.holders[c].stage)
  }

  ghost predicate CountInv(limits: Limits, s: State) {
    && s.workers == |s.holders| && s.workers <= limits.maxConcurrent
    && (forall app :: Taken(s.apps, app) == |HoldersOf(s, app)| && Taken(s.apps, app) <= limits.appCapacity)
    && s.workers == Sum(s.apps) + |HalfWay(s)|
  }

  ghost predicate HistoryInv(s: State) {
    && Distinct(s.released)
    && (forall c :: c in s.released ==> c in s.taken && c !in s.holders)
    && (forall c :: c in s.taken ==> c in s.released || (c in s.holders && s.holders[c].stage != HalfTaken))
    && (forall c :: c in s.holders ==> (c in s.taken <==> s.holders[c].stage != HalfTaken))
  }

  ghost predicate Inv(limits: Limits, s: State) {
    CountInv(limits, s) && HistoryInv(s)
  }

  /** Two holder maps that agree except on claim c, which belongs to the given App. */
  ghost predicate DifferAt(s: State, s': State, c: nat, app: App) {
    && (forall d :: d != c ==> (d in s.holders <==> d in s'.holders))
    && (forall d :: d != c && d in s.holders ==> s'.holders[d] == s.holders[d])
    && (c in s.holders ==> s.holders[c].app == app) && (c in s'.holders ==> s'.holders[c].app == app)
  }

  predicate IsFull(s: State, c: nat) {
    c in s.holders && Full(s.holders[c].stage)
  }

  predicate IsHalf(s: State, c: nat) {
    c in s.holders && !Full(s.holders[c].stage)
  }

  lemma Split(a: set<nat>, b: set<nat>, c: nat)
    requires a - {c} == b - {c}
    ensures |b| == |a| - (if c in a then 1 else 0) + (if c in b then 1 else 0)
  {
    assert a == (a - {c}) + (if c in a then {c} else {});
    assert b == (b - {c}) + (if c in b then {c} else {});
  }

  lemma RecountFull(s: State, s': State, c: nat, app: App)
    requires DifferAt(s, s', c, app)
    ensures forall other :: other != app ==> HoldersOf(s', other) == HoldersOf(s, other)
    ensures |HoldersOf(s', app)| ==
            |HoldersOf(s, app)| - (if IsFull(s, c) then 1 else 0) + (if IsFull(s', c) then 1 else 0)
  {
    assert HoldersOf(s, app) - {c} == HoldersOf(s', app) - {c};
    Split(HoldersOf(s, app), HoldersOf(s', app), c);
  }

  lemma RecountHalf(s: State, s': State, c: nat, app: App)
    requires DifferAt(s, s', c, app)
    ensures |HalfWay(s')| == |HalfWay(s)| - (if IsHalf(s, c) then 1 else 0) + (if IsHalf(s', c) then 1 else 0)
    ensures |s'.holders| == |s.holders| - (if c in s.holders then 1 else 0) + (if c in s'.holders then 1 else 0)
  {
    assert HalfWay(s) - {c} == HalfWay(s') - {c};
    Split(HalfWay(s), HalfWay(s'), c);
    assert s.holders.Keys - {c} == s'.holders.Keys - {c};
    Split(s.holders.Keys, s'.holders.Keys, c);
  }

  /** The counts follow the holders when one claim moves. */
  lemma CountKeeps(limits: Limits, s: State, s': State, c: nat, app: App)
    requires CountInv(limits, s) && DifferAt(s, s', c, app)
    requires s'.apps == s.apps || s'.apps == s.apps[app := Taken(s'.apps, app)]
    requires Taken(s'.apps, app) ==
             Taken(s.apps, app) - (if IsFull(s, c) then 1 else 0) + (if IsFull(s', c) then 1 else 0)
    requires s'.workers == s.workers - (if c in s.holders then 1 else 0) + (if c in s'.holders then 1 else 0)
    requires s'.workers <= limits.maxConcurrent && Taken(s'.apps, app) <= limits.appCapacity
    ensures CountInv(limits, s')
  {
    RecountFull(s, s', c, app);
    RecountHalf(s, s', c, app);
    SumUpdate(s.apps, app, Taken(s'.apps, app));
    hide HoldersOf, HalfWay, Sum, DifferAt;
    assert Taken(s.apps, app) == |HoldersOf(s, app)|;
  }

  lemma StepCounts(limits: Limits, s: State, a: Action)
    requires CountInv(limits, s) && Enabled(limits, s, a)
    ensures CountInv(limits, Apply(limits, s, a))
  {
    hide CountInv, HoldersOf, HalfWay, Sum;
    var s' := Apply(limits, s, a);
    var c := a.claim;
    var app := if a.TakeWorker? then a.app else s.holders[c].app;
    Limited(limits, s, app);
    assert DifferAt(s, s', c, app);
    hide DifferAt;
    CountKeeps(limits, s, s', c, app);
  }

  lemma Limited(limits: Limits, s: State, app: App)
    requires CountInv(limits, s)
    ensures s.workers <= limits.maxConcurrent && Taken(s.apps, app) <= limits.appCapacity
  {
  }

  lemma StepHistory(limits: Limits, s: State, a: Action)
    requires HistoryInv(s) && Enabled(limits, s, a)
    ensures HistoryInv(Apply(limits, s, a))
  {
  }

  lemma {:induction false} InvAlong(limits: Limits, states: seq<State>, acts: seq<Action>, k: nat)
    requires Behaviour(limits, states, acts) && k < |states|
    ensures Inv(limits, states[k])
  {
    hide Apply, Enabled;
    if k == 0 {
      assert forall app :: HoldersOf(INIT, app) == {};
      assert HalfWay(INIT) == {};
    } else {
      InvAlong(limits, states, acts, k - 1);
      StepAt(limits, states, acts, k - 1);
      StepCounts(limits, states[k - 1], acts[k - 1]);
      StepHistory(limits, states[k - 1], acts[k - 1]);
    }
  }

  lemma ReachableInv(limits: Limits, s: State)
    requires Reachable(limits, s)
    ensures Inv(limits, s)
  {
    hide Inv;
    var states, acts :| Behaviour(limits, states, acts) && states[|acts|] == s;
    InvAlong(limits, states, acts, |acts|);
  }

  // ---- the guarantees ----

  /**
   At every point between two channel operations the global slots taken are the App slots taken plus
   the claims that are half way, and no limit is exceeded.
   */
  lemma SlotsConserved(limits: Limits, s: State, app: App)
    requires Reachable(limits, s)
    ensures s.workers == Sum(s.apps) + |HalfWay(s)| <= limits.maxConcurrent
    ensures Taken(s.apps, app) == |HoldersOf(s, app)| <= limits.appCapacity
  {
    ReachableInv(limits, s);
  }

  /** A release never blocks, and neither does the back-off: what they take out of a channel is there. */
  lemma ReleaseNeverBlocks(limits: Limits, s: State, a: Action)
    requires Reachable(limits, s) && Ready(s, a)
    requires a.ReleaseApp? || a.ReleaseWorker?
             || (a.BackOff? && Taken(s.apps, s.holders[a.claim].app) >= limits.appCapacity)
    ensures Enabled(limits, s, a)
  {
    ReachableInv(limits, s);
    assert a.claim in s.holders;
    assert |s.holders| > 0 by {
      assert a.claim in s.holders.Keys;
    }
    assert a.ReleaseApp? ==> a.claim in HoldersOf(s, s.holders[a.claim].app);
  }

  /** Every pair of slots is given back at most once, and exactly once by every claim that has left. */
  lemma ReleasedExactlyOnce(limits: Limits, s: State, c: nat)
    requires Reachable(limits, s) && c in s.taken
    ensures Distinct(s.released)
    ensures c in s.released <==> c !in s.holders
  {
    ReachableInv(limits, s);
  }

  // ---- the way of one claim ----

  /** What has happened to a claim by the end of a run. */
  datatype Past = Past(claimed: bool, failed: bool, late: bool, ran: bool, returned: bool)

  ghost function PastOf(acts: seq<Action>, c: nat): Past {
    Past(ClaimSucceeds(c) in acts, ClaimFails(c) in acts, DeadlinePassed(c) in acts, Execute(c) in acts,
         ExecuteReturns(c) in acts)
  }

  const NOTHING := Past(false, false, false, false, false)
  const CLAIMED := Past(true, false, false, false, false)
  const RUNNING := Past(true, false, false, true, false)

  /** A claim that gives its slots back failed, came too late, or was executed to the end: one of them only. */
  predicate Ended(past: Past) {
    || past == Past(false, true, false, false, false)
    || past == Past(true, false, true, false, false)
    || past == Past(true, false, false, true, true)
  }

  ghost predicate OnItsWay(past: Past, s: State, c: nat) {
    if c in s.holders then
      match s.holders[c].stage
      case HalfTaken => past == NOTHING
      case Claiming => past == NOTHING
      case Dispatching => past == CLAIMED
      case Executing => past == RUNNING
      case _ => Ended(past)
    else if c in s.taken then Ended(past)
    else past == NOTHING
  }

  lemma PastNext(acts: seq<Action>, k: nat, c: nat)
    requires k < |acts|
    ensures var was, now := PastOf(acts[..k], c), PastOf(acts[..k + 1], c);
      && now.claimed == (was.claimed || acts[k] == ClaimSucceeds(c))
      && now.failed == (was.failed || acts[k] == ClaimFails(c))
      && now.late == (was.late || acts[k] == DeadlinePassed(c))
      && now.ran == (was.ran || acts[k] == Execute(c))
      && now.returned == (was.returned || acts[k] == ExecuteReturns(c))
  {
    assert acts[..k + 1] == acts[..k] + [acts[k]];
  }

  lemma WayNext(limits: Limits, s: State, a: Action, c: nat, was: Past, now: Past)
    requires HistoryInv(s) && Enabled(limits, s, a) && OnItsWay(was, s, c)
    requires now == Past(was.claimed || a == ClaimSucceeds(c), was.failed || a == ClaimFails(c),
                         was.late || a == DeadlinePassed(c), was.ran || a == Execute(c),
                         was.returned || a == ExecuteReturns(c))
    ensures OnItsWay(now, Apply(limits, s, a), c)
  {
    if a.claim != c {
      assert now == was;
    }
  }

  /**
   A handler runs only for a claim that succeeded in time, once, and a claim ends in exactly one of
   three ways: it failed, its deadline had passed, or its handler ran and returned.
   */
  lemma {:induction false} ClaimsGoOneWay(limits: Limits, states: seq<State>, acts: seq<Action>, k: nat, c: nat)
    requires Behaviour(limits, states, acts) && k < |states|
    ensures OnItsWay(PastOf(acts[..k], c), states[k], c)
    ensures At(states[k], c, Executing) ==> ClaimSucceeds(c) in acts[..k] && DeadlinePassed(c) !in acts[..k]
  {
    if k > 0 {
      hide Apply, Enabled, CountInv, HistoryInv;
      ClaimsGoOneWay(limits, states, acts, k - 1, c);
      InvAlong(limits, states, acts, k - 1);
      StepAt(limits, states, acts, k - 1);
      PastNext(acts, k - 1, c);
      WayNext(limits, states[k - 1], acts[k - 1], c, PastOf(acts[..k - 1], c), PastOf(acts[..k], c));
    }
  }

  ghost predicate Leads(limits: Limits, s: State, acts: seq<Action>, end: State)
    decreases |acts|
  {
    if acts == [] then s == end
    else Enabled(limits, s, acts[0]) && Leads(limits, Apply(limits, s, acts[0]), acts[1..], end)
  }

  /** From a claim's slots back to where it began. */
  function WayOut(s: State, c: nat): seq<Action>
    requires c in s.holders
  {
    match s.holders[c].stage
    case HalfTaken => []
    case Claiming => [ClaimFails(c), ReleaseApp(c), ReleaseWorker(c)]
    case Dispatching => [Execute(c), ExecuteReturns(c), ReleaseApp(c), ReleaseWorker(c)]
    case Executing => [ExecuteReturns(c), ReleaseApp(c), ReleaseWorker(c)]
    case Releasing => [ReleaseApp(c), ReleaseWorker(c)]
    case HalfReleased => [ReleaseWorker(c)]
  }

  /** Back where it was but for one claim, which has left and given back one slot on each level it held. */
  ghost predicate LeftBy(s: State, end: State, c: nat)
    requires c in s.holders
  {
    && end.holders == s.holders - {c} && end.workers == s.workers - 1 && end.released == s.released + [c]
    && forall app :: Taken(end.apps, app) ==
         Taken(s.apps, app) - if app == s.holders[c].app && s.holders[c].stage != HalfReleased then 1 else 0
  }

  lemma LeaveStep(limits: Limits, s: State, a: Action, c: nat)
    requires Inv(limits, s) && c in s.holders && s.holders[c].stage != HalfTaken
    requires WayOut(s, c) != [] && a == WayOut(s, c)[0] && !a.ReleaseWorker?
    ensures Enabled(limits, s, a) && Inv(limits, Apply(limits, s, a))
    ensures var next := Apply(limits, s, a);
      && c in next.holders && next.holders[c].app == s.holders[c].app && next.holders[c].stage != HalfTaken
      && WayOut(next, c) == WayOut(s, c)[1..] && next.holders - {c} == s.holders - {c}
      && next.workers == s.workers && next.released == s.released
      && (forall app :: Taken(next.apps, app) == Taken(s.apps, app) -
            if app == s.holders[c].app && s.holders[c].stage != HalfReleased
               && next.holders[c].stage == HalfReleased then 1 else 0)
  {
    assert a.ReleaseApp? ==> c in HoldersOf(s, s.holders[c].app);
    StepCounts(limits, s, a);
    StepHistory(limits, s, a);
    hide CountInv, HistoryInv;
  }

  /** Every claim that has its slots can leave and give them back, whatever the other claims do. */
  lemma {:induction false} CanLeave(limits: Limits, s: State, c: nat) returns (end: State)
    requires Inv(limits, s) && c in s.holders && s.holders[c].stage != HalfTaken
    ensures Leads(limits, s, WayOut(s, c), end) && LeftBy(s, end, c)
    decreases |WayOut(s, c)|
  {
    var a := WayOut(s, c)[0];
    if a.ReleaseWorker? {
      assert s.workers > 0 by {
        assert c in s.holders.Keys;
      }
      end := Apply(limits, s, a);
      assert Leads(limits, end, [], end);
    } else {
      LeaveStep(limits, s, a, c);
      end := CanLeave(limits, Apply(limits, s, a), c);
      hide Apply, Enabled, Inv;
    }
  }

  // ---- the slots as an object ----

  class SlotPool {
    const limits: Limits
    var workers: nat
    var apps: map<App, nat>

    constructor (limits: Limits)
      ensures this.limits == limits && workers == 0 && apps == map[]
    {
      this.limits := limits;
      workers, apps := 0, map[];
    }

    /** Takes both slots or neither. */
    method AcquireSlots(app: App) returns (ok: bool)
      modifies this
      ensures ok <==> old(workers) < limits.maxConcurrent && Taken(old(apps), app) < limits.appCapacity
      ensures ok ==> workers == old(workers) + 1 && Taken(apps, app) == Taken(old(apps), app) + 1
      ensures !ok ==> workers == old(workers) && Taken(apps, app) == Taken(old(apps), app)
      ensures forall other :: other != app ==> Taken(apps, other) == Taken(old(apps), other)
    {
      if workers >= limits.maxConcurrent {
        return false;
      }
      workers := workers + 1;
      if app !in apps {
        apps := apps[app := 0];
      }
      if apps[app] < limits.appCapacity {
        apps := apps[app := apps[app] + 1];
        ok := true;
      } else {
        workers := workers - 1;
        ok := false;
      }
    }

    method ReleaseSlots(app: App)
      requires workers > 0 && Taken(apps, app) > 0
      modifies this
      ensures workers == old(workers) - 1 && Taken(apps, app) == Taken(old(apps), app) - 1
      ensures forall other :: other != app ==> Taken(apps, other) == Taken(old(apps), other)
    {
      apps := apps[app := Taken(apps, app) - 1];
      workers := workers - 1;
    }
  }
}
