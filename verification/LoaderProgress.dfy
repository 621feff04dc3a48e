/** What the loader can always still do: no retired group gets stuck, and a registered component can serve calls. */
module LoaderProgress {
  import opened Common
  import opened LoaderEntry
  import opened LoaderSystem
  import opened LoaderInvariant
  import opened LoaderTheorems

  /** The actions can be taken one after the other, and lead from the one state to the other. */
  ghost predicate Leads(s: State, acts: seq<Action>, end: State)
    decreases |acts|
  {
    if acts == [] then s == end
    else Enabled(s, acts[0]) && Leads(Apply(s, acts[0]), acts[1..], end)
  }

  lemma LeadsFirst(s: State, a: Action, acts: seq<Action>, next: State, end: State)
    requires Step(s, a, next) && Leads(next, acts, end)
    ensures Leads(s, [a] + acts, end)
  {
    assert ([a] + acts)[1..] == acts;
  }

  // ---- stopping a retired group ----

  /** Calls that end, and the steps of the threads that stop the group. */
  predicate Drains(a: Action, g: nat) {
    a.Release? || a == MemberDrained(g) || a == StopIfDrained(g) || a == StopNextMember(g)
  }

  ghost predicate SameGroup(s: State, s': State, g: nat)
    requires g < |s.groups|
  {
    && |s'.groups| == |s.groups| && s'.accepting == s.accepting
    && s'.groups[g].declared == s.groups[g].declared && s'.groups[g].order == s.groups[g].order
    && s'.groups[g].runtimes == s.groups[g].runtimes
  }

  lemma ReleaseNext(s: State, g: nat, l: nat) returns (next: State)
    requires LeasesInv(s) && g < |s.groups| && l in s.leases
    ensures Step(s, Release(l), next) && SameGroup(s, next, g) && |next.leases| < |s.leases|
  {
    assert LeaseOk(s, s.leases[l]);
    next := AfterRelease(s, l);
    FewerLeases(s.leases, l);
  }

  lemma FewerLeases(leases: map<nat, Lease>, l: nat)
    requires l in leases
    ensures |leases - {l}| < |leases|
  {
    assert (leases - {l}).Keys == leases.Keys - {l};
    assert |(leases - {l}).Keys| == |leases - {l}|;
    assert |leases.Keys| == |leases|;
  }

  lemma HeldBy(s: State, g: nat) returns (l: nat)
    requires CountersInv(s) && g < |s.groups| && Busy(s, g) != {}
    ensures l in s.leases
  {
    var m :| m in Busy(s, g);
    assert OldOf(s, m).inFlight == |Holders(s, m.entry, OldOf(s, m).generation)|;
    assert Holders(s, m.entry, OldOf(s, m).generation) != {};
    l :| l in Holders(s, m.entry, OldOf(s, m).generation);
  }

  lemma SignalNext(s: State, g: nat) returns (next: State)
    requires g < |s.groups| && s.groups[g].pendingDrains > 0
    ensures Step(s, MemberDrained(g), next) && SameGroup(s, next, g) && next.leases == s.leases
    ensures next.groups[g].pendingDrains == s.groups[g].pendingDrains - 1
  {
    next := AfterMemberDrained(s, g);
  }

  lemma CheckNext(s: State, g: nat) returns (next: State)
    requires g < |s.groups| && s.groups[g].pendingChecks > 0
    ensures Step(s, StopIfDrained(g), next) && SameGroup(s, next, g) && next.leases == s.leases
    ensures next.groups[g].pendingDrains == s.groups[g].pendingDrains
    ensures next.groups[g].pendingChecks == s.groups[g].pendingChecks - 1
  {
    next := AfterStopIfDrained(s, g);
  }

  lemma StopNext(s: State, g: nat) returns (next: State)
    requires GroupsInv(s) && g < |s.groups| && s.groups[g].triggered && s.groups[g].stopped < |s.groups[g].order|
    ensures Step(s, StopNextMember(g), next) && SameGroup(s, next, g) && next.leases == s.leases
    ensures next.groups[g].pendingDrains == s.groups[g].pendingDrains
    ensures next.groups[g].pendingChecks == s.groups[g].pendingChecks
    ensures next.groups[g].stopped == s.groups[g].stopped + 1
  {
    assert GroupOk(s, g);
    next := AfterStopNextMember(s, g);
  }

  /** One step towards the end of a group that is not there yet. */
  lemma DrainStep(s: State, g: nat) returns (a: Action, next: State)
    requires Inv(s) && g < |s.groups| && !(Busy(s, g) == {} && Quiet(s, g))
    ensures Drains(a, g) && Step(s, a, next) && SameGroup(s, next, g)
    ensures Inv(next) && next.groups[g].stopped <= |next.groups[g].order|
    ensures || |next.leases| < |s.leases|
            || (next.leases == s.leases &&
                (|| next.groups[g].pendingDrains < s.groups[g].pendingDrains
                 || (next.groups[g].pendingDrains == s.groups[g].pendingDrains &&
                     (|| next.groups[g].pendingChecks < s.groups[g].pendingChecks
                      || (next.groups[g].pendingChecks == s.groups[g].pendingChecks
                          && next.groups[g].stopped == s.groups[g].stopped + 1)))))
  {
    InvParts(s);
    assert GroupOk(s, g) && DrainOk(s, g);
    hide Inv, Apply, Enabled, GroupsInv, EntriesInv, PlacesInv, MemberStops, GroupStops;
    if Busy(s, g) != {} {
      var l := HeldBy(s, g);
      a := Release(l);
      next := ReleaseNext(s, g, l);
    } else if s.groups[g].pendingDrains > 0 {
      a := MemberDrained(g);
      next := SignalNext(s, g);
    } else if s.groups[g].pendingChecks > 0 {
      a := StopIfDrained(g);
      next := CheckNext(s, g);
    } else {
      a := StopNextMember(g);
      next := StopNext(s, g);
    }
    StepKeeps(s, a);
    InvParts(next);
    assert GroupOk(next, g);
  }

  /**
   No retired group gets stuck: from every state of the invariant its calls can end and its threads can
   go on until no member has a call, no thread is in between, and each member was stopped.
   */
  lemma {:induction false} CanStopGroup(s: State, g: nat) returns (acts: seq<Action>, end: State)
    requires Inv(s) && g < |s.groups|
    ensures Leads(s, acts, end) && SameGroup(s, end, g) && forall a :: a in acts ==> Drains(a, g)
    ensures Inv(end) && Drained(end, g) && Quiet(end, g) && end.groups[g].stopped == |end.groups[g].order|
    ensures end.accepting ==> StopsOf(end, g) == end.groups[g].runtimes
    decreases |s.leases|, s.groups[g].pendingDrains, s.groups[g].pendingChecks,
              |s.groups[g].order| - s.groups[g].stopped
  {
    hide Inv, Apply, Enabled;
    InvParts(s);
    assert GroupOk(s, g) && DrainOk(s, g);
    if Busy(s, g) == {} && Quiet(s, g) {
      acts, end := [], s;
      StoppedWhole(s, g);
    } else {
      var a, next := DrainStep(s, g);
      var rest;
      rest, end := CanStopGroup(next, g);
      acts := [a] + rest;
      LeadsFirst(s, a, rest, next, end);
    }
  }

  lemma StoppedWhole(s: State, g: nat)
    requires Inv(s) && g < |s.groups| && Busy(s, g) == {} && Quiet(s, g)
    ensures Drained(s, g) && s.groups[g].stopped == |s.groups[g].order|
    ensures s.accepting ==> StopsOf(s, g) == s.groups[g].runtimes
  {
    InvParts(s);
    assert GroupOk(s, g) && DrainOk(s, g);
    NoneBusy(s, g);
    forall m | m in s.groups[g].order ensures HasSlot(s, m) && OldOf(s, m).inFlight == 0 {
      assert OldOf(s, m).inFlight == |Holders(s, m.entry, OldOf(s, m).generation)|;
    }
    if s.accepting {
      CompleteBy(s, g);
    }
  }

  // ---- serving a call ----

  /** A call to a component nobody has loaded yet. */
  function FirstCall(id: EntryId, lease: nat): seq<Action> {
    [StartLoading(id), FinishLoading(id, LoadOk), Acquire(id, lease), Release(lease)]
  }

  lemma LoadSteps(s: State, id: EntryId) returns (loading: State, ready: State)
    requires id in s.entries && s.entries[id].phase == Registered
    ensures Step(s, StartLoading(id), loading) && Step(loading, FinishLoading(id, LoadOk), ready)
    ensures ready.entries == s.entries[id := s.entries[id].(phase := Ready, runtime := Some(s.nextRuntime),
                                                            generation := s.entries[id].generation + 1)]
    ensures ready.leases == s.leases && ready.accepting == s.accepting && ready.groups == s.groups
  {
    loading := WithEntry(s, id, s.entries[id].(phase := Loading));
    ready := AfterLoading(loading, id, LoadOk);
  }

  lemma CallSteps(s: State, id: EntryId, lease: nat) returns (held: State, end: State)
    requires s.accepting && id in s.entries && CanLease(s.entries[id]) && lease !in s.leases
    ensures Step(s, Acquire(id, lease), held) && Step(held, Release(lease), end)
    ensures held.leases == s.leases[lease := Lease(id, s.entries[id].runtime.value, s.entries[id].generation)]
    ensures id in held.entries && held.entries[id].inFlight == s.entries[id].inFlight + 1
    ensures end.leases == s.leases && end.accepting && end.groups == s.groups && end.entries == s.entries
  {
    held := AfterAcquire(s, id, lease);
    end := AfterRelease(held, lease);
    assert held.leases - {lease} == s.leases;
  }

  /**
   While the manager accepts, a registered component can be loaded and called. The call gets the new
   runtime in the next generation, and after it the entry is ready, with the counts it had before.
   */
  lemma CanServe(s: State, id: EntryId, lease: nat) returns (held: State, end: State)
    requires s.accepting && id in s.entries && s.entries[id].phase == Registered && lease !in s.leases
    ensures Leads(s, FirstCall(id, lease)[..3], held) && Leads(s, FirstCall(id, lease), end)
    ensures held.leases == s.leases[lease := Lease(id, s.nextRuntime, s.entries[id].generation + 1)]
    ensures id in held.entries && held.entries[id].inFlight == s.entries[id].inFlight + 1
    ensures end.leases == s.leases && end.accepting && end.groups == s.groups
    ensures end.entries == s.entries[id := s.entries[id].(phase := Ready, runtime := Some(s.nextRuntime),
                                                          generation := s.entries[id].generation + 1)]
  {
    var calls := FirstCall(id, lease);
    var loading, ready := LoadSteps(s, id);
    held, end := CallSteps(ready, id, lease);
    hide Apply, Enabled;
    assert Leads(held, [], held) && Leads(end, [], end);
    LeadsFirst(held, calls[3], [], end, end);
    LeadsFirst(ready, calls[2], [calls[3]], held, end);
    LeadsFirst(loading, calls[1], [calls[2], calls[3]], ready, end);
    LeadsFirst(s, calls[0], [calls[1], calls[2], calls[3]], loading, end);
    assert [calls[0]] + [calls[1], calls[2], calls[3]] == calls;
    LeadsFirst(ready, calls[2], [], held, held);
    LeadsFirst(loading, calls[1], [calls[2]], ready, held);
    LeadsFirst(s, calls[0], [calls[1], calls[2]], loading, held);
    assert calls[..3] == [calls[0]] + [calls[1], calls[2]];
  }
}
