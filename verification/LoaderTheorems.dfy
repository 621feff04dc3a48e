/** What holds in every state the loader can reach. */
module LoaderTheorems {
  import opened Common
  import opened LoaderEntry
  import opened LoaderSystem
  import opened LoaderInvariant
  import PackageSwap

  function SumInFlight(retired: seq<Retired>): int {
    if retired == [] then 0
    else SumInFlight(retired[..|retired| - 1]) + retired[|retired| - 1].inFlight
  }

  /** The live leases on the first k retired versions of an entry. */
  ghost function OnRetired(s: State, id: EntryId, k: nat): set<nat>
    requires id in s.entries && k <= |s.entries[id].retired|
  {
    set l | l in s.leases && s.leases[l].entry == id &&
            exists i :: 0 <= i < k && s.leases[l].generation == s.entries[id].retired[i].generation
  }

  lemma {:induction false} SumIsCard(s: State, id: EntryId, k: nat)
    requires EntriesInv(s) && CountersInv(s)
    requires id in s.entries && k <= |s.entries[id].retired|
    ensures SumInFlight(s.entries[id].retired[..k]) == |OnRetired(s, id, k)|
  {
    var retired := s.entries[id].retired;
    if k == 0 {
      assert OnRetired(s, id, 0) == {};
    } else {
      SumIsCard(s, id, k - 1);
      assert retired[..k][..k - 1] == retired[..k - 1];
      assert EntryOk(s.entries[id]);
      assert HasSlot(s, Member(id, k - 1));
      var last := Holders(s, id, retired[k - 1].generation);
      assert OnRetired(s, id, k) == OnRetired(s, id, k - 1) + last;
      assert OnRetired(s, id, k - 1) !! last;
    }
  }

  lemma ConservedBy(s: State, id: EntryId)
    requires EntriesInv(s) && LeasesInv(s) && CountersInv(s) && id in s.entries
    ensures s.entries[id].inFlight == s.entries[id].currentInFlight + SumInFlight(s.entries[id].retired)
  {
    var e := s.entries[id];
    SumIsCard(s, id, |e.retired|);
    assert e.retired[..|e.retired|] == e.retired;
    var current, replaced := Holders(s, id, e.generation), OnRetired(s, id, |e.retired|);
    assert EntryOk(e);
    assert current !! replaced;
    forall l | l in LeasesOn(s, id) ensures l in current + replaced {
      var x := s.leases[l];
      assert LeaseOk(s, x);
      if !LeaseOnCurrent(s, x) {
        var slot: nat :| LeaseOnRetired(s, x, slot);
        assert e.retired[slot].generation == x.generation;
      }
    }
    assert LeasesOn(s, id) == current + replaced;
  }

  /**
   Conservation: in every reachable state an entry's in-flight count is its current version's count
   plus those of its retired versions, and each counts the live leases of that generation.
   */
  lemma InFlightConserved(s: State, id: EntryId)
    requires Reachable(s) && id in s.entries
    ensures var e := s.entries[id];
      && e.inFlight == |LeasesOn(s, id)|
      && e.currentInFlight == |Holders(s, id, e.generation)|
      && (forall i :: 0 <= i < |e.retired| ==> e.retired[i].inFlight == |Holders(s, id, e.retired[i].generation)|)
      && e.inFlight == e.currentInFlight + SumInFlight(e.retired)
  {
    ReachableInv(s);
    InvParts(s);
    ConservedBy(s, id);
    var e := s.entries[id];
    forall i | 0 <= i < |e.retired| ensures e.retired[i].inFlight == |Holders(s, id, e.retired[i].generation)| {
      assert HasSlot(s, Member(id, i));
    }
  }

  lemma UnstoppedBy(s: State, l: nat)
    requires LeasesInv(s) && CountersInv(s) && CurrentStops(s) && MemberStops(s) && l in s.leases
    ensures s.leases[l].runtime !in s.stopLog
  {
    var x := s.leases[l];
    assert LeaseOk(s, x);
    assert l in Holders(s, x.entry, x.generation);
    if LeaseOnCurrent(s, x) {
      assert s.entries[x.entry].currentInFlight > 0;
    } else {
      var slot: nat :| LeaseOnRetired(s, x, slot);
      assert MemberStopOk(s, Member(x.entry, slot));
      CountZero(s.stopLog, x.runtime);
    }
  }

  /** No runtime is stopped while a live lease holds it, through loads, failures, unloads, upgrades and shutdown. */
  lemma LeasedRuntimeNeverStopped(s: State, l: nat)
    requires Reachable(s) && l in s.leases
    ensures s.leases[l].runtime !in s.stopLog
  {
    ReachableInv(s);
    InvParts(s);
    UnstoppedBy(s, l);
  }

  // ---- retired groups ----

  /** The stops of a group's members, in the order they happened. */
  ghost function StopsOf(s: State, g: nat): seq<RuntimeId>
    requires g < |s.groups|
  {
    Filter(s.stopLog, set rt | rt in s.groups[g].runtimes)
  }

  ghost predicate Drained(s: State, g: nat)
    requires g < |s.groups|
  {
    forall m :: m in s.groups[g].order ==> HasSlot(s, m) && OldOf(s, m).inFlight == 0
  }

  /** No thread is between its steps on this group. */
  ghost predicate Quiet(s: State, g: nat)
    requires g < |s.groups|
  {
    && s.groups[g].pendingDrains == 0 && s.groups[g].pendingChecks == 0
    && (s.groups[g].triggered ==> s.groups[g].stopped == |s.groups[g].order|)
  }

  /** The k-th runtime to stop is the old version of the k-th component counted from the last declared. */
  lemma StopOrderIsReverseDeclaration(s: State, g: nat, k: nat)
    requires Reachable(s) && g < |s.groups| && k < |s.groups[g].declared|
    ensures var group := s.groups[g]; var n := |group.declared|;
      && |group.order| == n && |group.runtimes| == n
      && HasSlot(s, group.order[k])
      && group.order[k].entry == group.declared[n - 1 - k]
      && OldOf(s, group.order[k]).runtime == group.runtimes[k]
  {
    ReachableInv(s);
    InvParts(s);
    assert GroupOk(s, g);
  }

  lemma PrefixBy(s: State, g: nat)
    requires GroupsInv(s) && DrainInv(s) && CountersInv(s) && GroupStops(s) && s.accepting && g < |s.groups|
    ensures |StopsOf(s, g)| <= |s.groups[g].runtimes|
    ensures StopsOf(s, g) == s.groups[g].runtimes[..|StopsOf(s, g)|]
    ensures |StopsOf(s, g)| == s.groups[g].stopped
    ensures StopsOf(s, g) != [] ==> Drained(s, g)
  {
    assert GroupStopsOk(s, g) && GroupOk(s, g) && DrainOk(s, g);
    if s.groups[g].stopped > 0 {
      NoneBusy(s, g);
    }
  }

  /**
   Before any shutdown, a group's stops are a prefix of its stop order and begin only when every
   member has drained.
   */
  lemma StopsInOrderAfterDrain(s: State, g: nat)
    requires Reachable(s) && s.accepting && g < |s.groups|
    ensures StopsOf(s, g) <= s.groups[g].runtimes
      && (StopsOf(s, g) != [] ==> Drained(s, g))
  {
    ReachableInv(s);
    InvParts(s);
    PrefixBy(s, g);
  }

  lemma CompleteBy(s: State, g: nat)
    requires GroupsInv(s) && DrainInv(s) && CountersInv(s) && GroupStops(s) && MemberStops(s)
    requires s.accepting && g < |s.groups| && Drained(s, g) && Quiet(s, g)
    ensures StopsOf(s, g) == s.groups[g].runtimes
    ensures forall m :: m in s.groups[g].order ==> HasSlot(s, m) && Count(s.stopLog, OldOf(s, m).runtime) == 1
  {
    PrefixBy(s, g);
    assert GroupStopsOk(s, g) && GroupOk(s, g) && DrainOk(s, g);
    assert Busy(s, g) == {};
    assert s.groups[g].triggered;
    assert s.groups[g].runtimes[..|s.groups[g].runtimes|] == s.groups[g].runtimes;
    forall m | m in s.groups[g].order ensures HasSlot(s, m) && Count(s.stopLog, OldOf(s, m).runtime) == 1 {
      assert MemberStopOk(s, m);
    }
  }

  /**
   Exactly once and in order: when every member of a group has drained and no thread is between its
   steps on the group, the stops of its members are the whole stop order, each of them one stop.
   */
  lemma DrainedGroupStoppedOnce(s: State, g: nat)
    requires Reachable(s) && s.accepting && g < |s.groups|
    requires Drained(s, g) && Quiet(s, g)
    ensures StopsOf(s, g) == s.groups[g].runtimes
      && forall m :: m in s.groups[g].order ==> HasSlot(s, m) && Count(s.stopLog, OldOf(s, m).runtime) == 1
  {
    ReachableInv(s);
    InvParts(s);
    CompleteBy(s, g);
  }

  /** Even with a shutdown in the run, a retired version is stopped at most once and only when drained. */
  lemma RetiredStoppedAtMostOnce(s: State, m: Member)
    requires Reachable(s) && HasSlot(s, m)
    ensures Count(s.stopLog, OldOf(s, m).runtime) <= 1
      && (Count(s.stopLog, OldOf(s, m).runtime) == 1 ==> Holders(s, m.entry, OldOf(s, m).generation) == {})
  {
    ReachableInv(s);
    InvParts(s);
    assert MemberStopOk(s, m);
    assert OldOf(s, m).inFlight == |Holders(s, m.entry, OldOf(s, m).generation)|;
  }

  // ---- a replaced version takes no new calls ----

  /** The retired version is still there and no lease has been added to it. */
  ghost predicate OnlyShrinks(s: State, s': State, m: Member)
    requires HasSlot(s, m)
  {
    && HasSlot(s', m) && SameIdentity(OldOf(s, m), OldOf(s', m))
    && Holders(s', m.entry, OldOf(s, m).generation) <= Holders(s, m.entry, OldOf(s, m).generation)
  }

  lemma ReleaseShrinks(s: State, lease: nat, m: Member)
    requires Enabled(s, Release(lease)) && HasSlot(s, m)
    ensures OnlyShrinks(s, AfterRelease(s, lease), m)
  {
  }

  lemma AcquireShrinks(s: State, id: EntryId, lease: nat, m: Member)
    requires EntriesInv(s) && Enabled(s, Acquire(id, lease)) && HasSlot(s, m)
    ensures OnlyShrinks(s, AfterAcquire(s, id, lease), m)
  {
    assert EntryOk(s.entries[m.entry]);
  }

  lemma StopShrinks(s: State, m': Member, m: Member)
    requires HasSlot(s, m') && HasSlot(s, m)
    ensures OnlyShrinks(s, AfterStopRetired(s, m'), m)
  {
  }

  lemma UpgradeShrinks(s: State, pkg: string, targets: map<EntryId, Target>, m: Member)
    requires CanUpgrade(s, pkg, targets) && HasSlot(s, m)
    ensures OnlyShrinks(s, AfterUpgrade(s, pkg, targets), m)
  {
    UpgradeInstalls(s, pkg, targets);
    UpgradeSlots(s, AfterUpgrade(s, pkg, targets), s.packages[pkg], targets);
  }

  lemma SameRetiredShrinks(s: State, s': State, m: Member)
    requires HasSlot(s, m) && s'.leases == s.leases
    requires m.entry in s'.entries && s'.entries[m.entry].retired == s.entries[m.entry].retired
    ensures OnlyShrinks(s, s', m)
  {
  }

  /** The actions that leave leases and retired versions alone. */
  predicate KeepsRetired(a: Action) {
    || a.FinishLoading? || a.InvokeError? || a.FinishUnloading? || a.Register? || a.Rollback?
    || a.StartLoading? || a.StartUnloading? || a.RecoverEmpty?
  }

  lemma LoadingShrinks(s: State, id: EntryId, outcome: LoadOutcome, m: Member)
    requires Enabled(s, FinishLoading(id, outcome)) && HasSlot(s, m)
    ensures OnlyShrinks(s, AfterLoading(s, id, outcome), m)
  {
    hide OnlyShrinks;
    SameRetiredShrinks(s, AfterLoading(s, id, outcome), m);
  }

  lemma UnloadingShrinks(s: State, id: EntryId, ok: bool, m: Member)
    requires Enabled(s, FinishUnloading(id, ok)) && HasSlot(s, m)
    ensures OnlyShrinks(s, AfterFinishUnloading(s, id, ok), m)
  {
    hide OnlyShrinks;
    SameRetiredShrinks(s, AfterFinishUnloading(s, id, ok), m);
  }

  lemma StartUnloadingShrinks(s: State, id: EntryId, m: Member)
    requires Enabled(s, StartUnloading(id)) && HasSlot(s, m)
    ensures OnlyShrinks(s, AfterStartUnloading(s, id), m)
  {
    hide OnlyShrinks;
    SameRetiredShrinks(s, AfterStartUnloading(s, id), m);
  }

  lemma EntryShrinks(s: State, id: EntryId, e: EntryView, m: Member)
    requires HasSlot(s, m) && (id in s.entries ==> e.retired == s.entries[id].retired)
    ensures OnlyShrinks(s, WithEntry(s, id, e), m)
  {
    hide OnlyShrinks;
    SameRetiredShrinks(s, WithEntry(s, id, e), m);
  }

  lemma KeptShrinks(s: State, a: Action, m: Member)
    requires Enabled(s, a) && HasSlot(s, m) && KeepsRetired(a)
    ensures OnlyShrinks(s, Apply(s, a), m)
  {
    hide OnlyShrinks, WithEntry, AfterLoading, AfterFinishUnloading;
    match a
    case FinishLoading(id, outcome) => LoadingShrinks(s, id, outcome, m);
    case FinishUnloading(id, ok) => UnloadingShrinks(s, id, ok, m);
    case InvokeError(lease) =>
      var l := s.leases[lease];
      EntryShrinks(s, l.entry, AfterInvokeError(s.entries[l.entry], l.generation), m);
    case Register(id, manifest, host) => EntryShrinks(s, id, NewEntry(manifest, host), m);
    case Rollback(pkgs, ids) => SameRetiredShrinks(s, Apply(s, a), m);
    case StartLoading(id) => EntryShrinks(s, id, s.entries[id].(phase := Loading), m);
    case StartUnloading(id) => StartUnloadingShrinks(s, id, m);
    case RecoverEmpty(id) => EntryShrinks(s, id, s.entries[id].(phase := Registered), m);
  }

  lemma NextStopShrinks(s: State, g: nat, m: Member)
    requires Enabled(s, StopNextMember(g)) && HasSlot(s, m)
    ensures OnlyShrinks(s, AfterStopNextMember(s, g), m)
  {
    hide OnlyShrinks;
    var m' := s.groups[g].order[s.groups[g].stopped];
    StopShrinks(s, m', m);
    RegroupShrinks(s, AfterStopRetired(s, m'), AfterStopNextMember(s, g), m);
  }

  lemma RetiredOnlyShrinks(s: State, a: Action, m: Member)
    requires EntriesInv(s) && Enabled(s, a) && HasSlot(s, m)
    ensures OnlyShrinks(s, Apply(s, a), m)
  {
    if KeepsRetired(a) {
      KeptShrinks(s, a, m);
    } else {
      hide OnlyShrinks, EntriesInv;
      match a
      case Release(lease) => ReleaseShrinks(s, lease, m);
      case Acquire(id, lease) => AcquireShrinks(s, id, lease, m);
      case StopNextMember(g) => NextStopShrinks(s, g, m);
      case ForceStop(m') => StopShrinks(s, m', m);
      case Upgrade(pkg, targets) => UpgradeShrinks(s, pkg, targets, m);
      case _ => SameEntriesShrinks(s, a, m);
    }
  }

  lemma SameEntriesShrinks(s: State, a: Action, m: Member)
    requires Enabled(s, a) && HasSlot(s, m)
    requires a.RegisterPackage? || a.LoadCandidate? || a.StopCandidate? || a.BeginShutdown? ||
             a.MemberDrained? || a.StopIfDrained?
    ensures OnlyShrinks(s, Apply(s, a), m)
  {
    SameRetiredShrinks(s, Apply(s, a), m);
  }

  lemma ShrinksTransitive(s: State, s': State, s'': State, m: Member)
    requires HasSlot(s, m) && OnlyShrinks(s, s', m) && OnlyShrinks(s', s'', m)
    ensures OnlyShrinks(s, s'', m)
  {
  }

  lemma RegroupShrinks(s: State, s': State, s'': State, m: Member)
    requires HasSlot(s, m) && OnlyShrinks(s, s', m) && s''.entries == s'.entries && s''.leases == s'.leases
    ensures OnlyShrinks(s, s'', m)
  {
  }

  /** A replaced version takes no new calls: from any point of a run to any later one its leases only go away. */
  lemma {:induction false} LeasesOnRetiredOnlyShrink(states: seq<State>, acts: seq<Action>, i: nat, j: nat, m: Member)
    requires Behaviour(states, acts) && i <= j < |states| && HasSlot(states[i], m)
    ensures OnlyShrinks(states[i], states[j], m)
    decreases j
  {
    hide Apply, Enabled, EntriesInv;
    if i < j {
      LeasesOnRetiredOnlyShrink(states, acts, i, j - 1, m);
      InvAlong(states, acts, j - 1);
      InvParts(states[j - 1]);
      StepAt(states, acts, j - 1);
      RetiredOnlyShrinks(states[j - 1], acts[j - 1], m);
      ShrinksTransitive(states[i], states[j - 1], states[j], m);
    }
  }

  // ---- shutdown ----

  /** The manager does not accept, and has no entry, package or lease that it did not have before. */
  ghost predicate LetsNothingIn(s: State, s': State) {
    && !s'.accepting && s'.entries.Keys <= s.entries.Keys && s'.packages.Keys <= s.packages.Keys
    && forall l :: l in s'.leases ==> l in s.leases && s'.leases[l] == s.leases[l]
  }

  lemma ShutRelease(s: State, lease: nat)
    requires !s.accepting && Enabled(s, Release(lease))
    ensures LetsNothingIn(s, AfterRelease(s, lease))
  {
  }

  lemma ShutLoading(s: State, id: EntryId, outcome: LoadOutcome)
    requires !s.accepting && Enabled(s, FinishLoading(id, outcome))
    ensures LetsNothingIn(s, AfterLoading(s, id, outcome))
  {
  }

  lemma ShutUpgrade(s: State, pkg: string, targets: map<EntryId, Target>)
    requires !s.accepting && CanUpgrade(s, pkg, targets)
    ensures LetsNothingIn(s, AfterUpgrade(s, pkg, targets))
  {
    hide NewGroup, SwappedPlaces;
  }

  lemma ShutStop(s: State, m: Member)
    requires !s.accepting && HasSlot(s, m)
    ensures LetsNothingIn(s, AfterStopRetired(s, m))
  {
  }

  lemma StaysShut(s: State, a: Action)
    requires !s.accepting && Enabled(s, a)
    ensures LetsNothingIn(s, Apply(s, a))
  {
    hide AfterRelease, AfterLoading, AfterUpgrade, AfterStopRetired;
    match a
    case Release(lease) => ShutRelease(s, lease);
    case FinishLoading(id, outcome) => ShutLoading(s, id, outcome);
    case Upgrade(pkg, targets) => ShutUpgrade(s, pkg, targets);
    case ForceStop(m) => ShutStop(s, m);
    case StopNextMember(g) => ShutStop(s, s.groups[g].order[s.groups[g].stopped]);
    case _ =>
  }

  /** Once a shutdown has begun no call is let in and nothing is registered; what is in flight can only end. */
  lemma {:induction false} ShutdownLetsNothingIn(states: seq<State>, acts: seq<Action>, i: nat, j: nat)
    requires Behaviour(states, acts) && i < |acts| && acts[i] == BeginShutdown && i < j < |states|
    ensures LetsNothingIn(states[i], states[j])
    decreases j
  {
    assert j <= |acts|;
    hide Apply, Enabled, Behaviour, LetsNothingIn;
    StepAt(states, acts, j - 1);
    if i + 1 < j {
      ShutdownLetsNothingIn(states, acts, i, j - 1);
      NotAccepting(states[i], states[j - 1]);
      StaysShut(states[j - 1], acts[j - 1]);
      ShutTwice(states[i], states[j - 1], states[j]);
    } else {
      ShutsDown(states[i]);
    }
  }

  lemma NotAccepting(s: State, s': State)
    requires LetsNothingIn(s, s')
    ensures !s'.accepting
  {
  }

  lemma ShutTwice(s: State, s': State, s'': State)
    requires LetsNothingIn(s, s') && LetsNothingIn(s', s'')
    ensures LetsNothingIn(s, s'')
  {
  }

  lemma ShutsDown(s: State)
    ensures LetsNothingIn(s, Apply(s, BeginShutdown))
  {
  }

  // ---- the switch at the granularity of locks ----

  lemma {:induction false} SwapRunKeeps(s: PackageSwap.State, epoch: nat, acts: seq<PackageSwap.Action>,
                                        s': PackageSwap.State)
    requires PackageSwap.Inv(s, epoch) && PackageSwap.Run(s, acts, s')
    ensures PackageSwap.Monotone(s'.log)
    decreases |acts|
  {
    if acts != [] {
      PackageSwap.StepKeeps(s, epoch, acts[0]);
      SwapRunKeeps(PackageSwap.Apply(s, acts[0]), if acts[0].SwapDone? then epoch + 1 else epoch, acts[1..], s');
    }
  }

  /**
   In every run, whatever the interleaving of lock steps with acquisitions and however many upgrades
   run or abort, once some component was leased at a version no sibling is leased at an older one.
   */
  lemma NoOldLeaseAfterNewSibling(n: nat, acts: seq<PackageSwap.Action>, s: PackageSwap.State)
    requires PackageSwap.Run(PackageSwap.Init(n), acts, s)
    ensures PackageSwap.Monotone(s.log)
  {
    SwapRunKeeps(PackageSwap.Init(n), 0, acts, s);
  }
}
