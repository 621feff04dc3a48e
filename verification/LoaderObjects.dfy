/** The loader's mutable objects; each method is one locked region or one loop of the source. */
module LoaderObjects {
  import opened Common
  import opened LoaderEntry

  class RuntimeEntry {
    var manifest: Manifest
    var host: nat
    var phase: Phase
    var runtime: Option<RuntimeId>
    var generation: nat
    var inFlight: int
    var currentInFlight: int
    var retired: seq<Retired>

    function View(): EntryView
      reads this
    {
      EntryView(manifest, host, phase, runtime, generation, inFlight, currentInFlight, retired)
    }

    constructor (manifest: Manifest, host: nat)
      ensures View() == NewEntry(manifest, host)
    {
      this.manifest, this.host := manifest, host;
      phase, runtime, generation := Registered, None, 0;
      inFlight, currentInFlight, retired := 0, 0, [];
    }

    /** The locked part of ensureLoaded: decide, and claim the load if it is ours to do. */
    method BeginLoad() returns (d: LoadDecision)
      modifies this
      ensures d == DecideLoad(old(View()))
      ensures View() == if d == StartLoad then old(View()).(phase := Loading) else old(View())
      ensures d == StartLoad <==> old(phase) == Registered
      ensures d == AlreadyReady <==> old(phase) == Ready
      ensures d == PreviouslyFailed <==> old(phase) == Failed
    {
      match phase {
        case Ready => d := AlreadyReady;
        case Failed => d := PreviouslyFailed;
        case Loading => d := WaitForTransition;
        case Unloading => d := WaitForTransition;
        case Registered =>
          phase := Loading;
          d := StartLoad;
      }
    }

    method FinishLoad(r: LoadResult)
      modifies this
      ensures View() == EndLoad(old(View()), r)
      ensures r.Loaded? ==> phase == Ready && runtime == Some(r.runtime) && generation == old(generation) + 1
      ensures r.NotLoaded? ==>
                phase == Failed && runtime == r.kept && generation == old(generation) + if r.kept.Some? then 1 else 0
      ensures manifest == old(manifest) && host == old(host) && retired == old(retired)
      ensures inFlight == old(inFlight) && currentInFlight == old(currentInFlight)
    {
      match r {
        case Loaded(rt) =>
          phase, runtime := Ready, Some(rt);
          generation := generation + 1;
        case NotLoaded(kept) =>
          phase, runtime := Failed, kept;
          if kept.Some? {
            generation := generation + 1;
          }
      }
    }

    method TryAcquire() returns (lease: Option<(RuntimeId, nat)>)
      modifies this
      ensures lease.Some? <==> CanLease(old(View()))
      ensures lease.Some? ==> lease.value == (old(runtime).value, old(generation)) && View() == AddLease(old(View()))
      ensures lease.None? ==> View() == old(View())
      ensures lease.Some? ==> inFlight == old(inFlight) + 1 && currentInFlight == old(currentInFlight) + 1
      ensures lease.Some? <==> old(phase) == Ready && old(runtime).Some?
    {
      if phase != Ready || runtime.None? {
        return None;
      }
      inFlight := inFlight + 1;
      currentInFlight := currentInFlight + 1;
      lease := Some((runtime.value, generation));
    }

    method InvokeFailed(leaseGeneration: nat)
      modifies this
      ensures View() == AfterInvokeError(old(View()), leaseGeneration)
      ensures phase == if old(phase) == Ready && old(generation) == leaseGeneration then Failed else old(phase)
    {
      if phase == Ready && generation == leaseGeneration {
        phase := Failed;
      }
    }

    /** The locked part of Release; the result is the retired version this release drained. */
    method Release(leaseGeneration: nat) returns (drained: Option<nat>)
      modifies this
      ensures View() == DropLease(old(View()), leaseGeneration)
      ensures drained == DrainedBy(old(View()), leaseGeneration)
      ensures inFlight == old(inFlight) - 1
      ensures currentInFlight == old(currentInFlight) - if leaseGeneration == old(generation) then 1 else 0
      ensures drained.Some? ==> drained.value < |retired| && retired[drained.value].generation == leaseGeneration
                                && retired[drained.value].inFlight <= 0
      ensures |retired| == |old(retired)| && forall i :: 0 <= i < |retired| ==>
                retired[i] == old(retired)[i]
                || (leaseGeneration != old(generation) && retired[i].generation == leaseGeneration
                    && retired[i] == old(retired)[i].(inFlight := old(retired)[i].inFlight - 1)
                    && (drained == Some(i) <==> retired[i].inFlight <= 0))
      ensures leaseGeneration != old(generation)
              && (exists i :: 0 <= i < |retired| && retired[i].generation == leaseGeneration) ==>
                exists i :: 0 <= i < |retired| && retired[i].inFlight == old(retired)[i].inFlight - 1
    {
      inFlight := inFlight - 1;
      drained := None;
      if leaseGeneration == generation {
        currentInFlight := currentInFlight - 1;
      } else {
        var i := 0;
        while i < |retired| && retired[i].generation != leaseGeneration
          invariant 0 <= i <= |retired|
          invariant forall j :: 0 <= j < i ==> retired[j].generation != leaseGeneration
        {
          i := i + 1;
        }
        FirstIsFound(retired, leaseGeneration, i);
        if i < |retired| {
          retired := retired[i := retired[i].(inFlight := retired[i].inFlight - 1)];
          if retired[i].inFlight <= 0 {
            drained := Some(i);
          }
        }
      }
    }

    /** The locked check of unload; only an entry whose runtime is to be stopped changes. */
    method BeginUnload() returns (d: UnloadDecision)
      modifies this
      ensures d == DecideUnload(old(View())) && (d.StopRuntime? <==> CanUnload(old(View())))
      ensures View() == if d.StopRuntime? then old(View()).(phase := Unloading) else old(View())
      ensures d == StillInFlight <==> old(inFlight) > 0
      ensures d == AlreadyUnloaded <==> old(inFlight) <= 0 && old(phase) == Registered
      ensures d.StopRuntime? ==> Some(d.runtime) == old(runtime) && (old(phase) == Ready || old(phase) == Failed)
    {
      if inFlight > 0 {
        return StillInFlight;
      }
      if phase == Registered {
        return AlreadyUnloaded;
      }
      if runtime.None? || (phase != Ready && phase != Failed) {
        return NotUnloadable;
      }
      phase := Unloading;
      d := StopRuntime(runtime.value);
    }

    /** One turn of the switching loop; the result says whether the replaced version still has calls. */
    method SwapTo(target: Target, group: nat) returns (busy: bool)
      requires View().runtime.Some?
      modifies this
      ensures Swapped(old(View()), View(), target, group)
      ensures busy <==> old(View()).currentInFlight > 0
    {
      busy := currentInFlight > 0;
      retired := retired + [Retired(runtime.value, generation, currentInFlight, group, false)];
      manifest, host, runtime := target.manifest, target.host, Some(target.runtime);
      generation := generation + 1;
      currentInFlight := 0;
    }

    method FinishUnload(stopped: bool)
      modifies this
      ensures View() == EndUnload(old(View()), stopped)
      ensures if stopped then phase == Registered && runtime == None else phase == Failed && runtime == old(runtime)
    {
      if stopped {
        phase, runtime := Registered, None;
      } else {
        phase := Failed;
      }
    }
  }

  lemma {:induction false} FirstIsFound(retired: seq<Retired>, generation: nat, i: nat)
    requires i <= |retired|
    requires forall j :: 0 <= j < i ==> retired[j].generation != generation
    requires i < |retired| ==> retired[i].generation == generation
    ensures FindRetired(retired, generation) == i
  {
  }

  /** The Stop calls made so far, in order. */
  class StopLog {
    var calls: seq<RuntimeId>

    constructor ()
      ensures calls == []
    {
      calls := [];
    }

    method Stop(rt: RuntimeId)
      modifies this
      ensures calls == old(calls) + [rt]
    {
      calls := calls + [rt];
    }
  }

  /** A retired runtime with its stop-once flag. */
  class RetiredRuntime {
    const runtime: RuntimeId
    var stopped: bool

    constructor (runtime: RuntimeId)
      ensures this.runtime == runtime && !stopped
    {
      this.runtime := runtime;
      stopped := false;
    }

    method StopOnce(log: StopLog)
      modifies this, log
      ensures stopped
      ensures log.calls == old(log.calls) + (if old(stopped) then [] else [runtime])
    {
      if !stopped {
        log.Stop(runtime);
        stopped := true;
      }
    }
  }

  /** The stop calls a loop over these members makes. */
  ghost function PendingStops(members: seq<RetiredRuntime>): seq<RuntimeId>
    reads members
  {
    if members == [] then []
    else PendingStops(members[..|members| - 1]) +
         (if members[|members| - 1].stopped then [] else [members[|members| - 1].runtime])
  }

  class RetiredGroup {
    var draining: int
    var triggered: bool
    var order: seq<RetiredRuntime>

    ghost predicate Valid()
      reads this
    {
      Distinct(order)
    }

    constructor (draining: int, order: seq<RetiredRuntime>)
      requires Distinct(order)
      ensures Valid() && this.draining == draining && !triggered && this.order == order
    {
      this.draining, this.triggered, this.order := draining, false, order;
    }

    /** memberDrained up to its call of stopIfDrained. */
    method CountDown()
      modifies this`draining
      ensures draining == old(draining) - 1
    {
      draining := draining - 1;
    }

    /** The first trigger after the group has drained stops every member that is not stopped yet, in order. */
    method StopIfDrained(log: StopLog)
      requires Valid()
      modifies this`triggered, order, log
      ensures Valid()
      ensures triggered == (old(triggered) || draining <= 0)
      ensures old(triggered) || draining > 0 ==>
                log.calls == old(log.calls) && forall m :: m in order ==> m.stopped == old(m.stopped)
      ensures !old(triggered) && draining <= 0 ==>
                log.calls == old(log.calls) + old(PendingStops(order)) && forall m :: m in order ==> m.stopped
    {
      if triggered || draining > 0 {
        return;
      }
      triggered := true;
      var i := 0;
      while i < |order|
        invariant 0 <= i <= |order| && triggered
        invariant forall k :: 0 <= k < i ==> order[k].stopped
        invariant forall k :: i <= k < |order| ==> order[k].stopped == old(order[k].stopped)
        invariant log.calls == old(log.calls) + old(PendingStops(order[..i]))
      {
        assert order[..i + 1][..i] == order[..i];
        assert forall k :: i < k < |order| ==> order[k] != order[i];
        order[i].StopOnce(log);
        i := i + 1;
      }
      assert order[..|order|] == order;
    }

    /** The count-down by the release that drained a member; the last one stops the group. */
    method MemberDrained(log: StopLog)
      requires Valid()
      modifies this`draining, this`triggered, order, log
      ensures Valid() && draining == old(draining) - 1
      ensures triggered == (old(triggered) || old(draining) <= 1)
      ensures log.calls ==
                old(log.calls) + if !old(triggered) && old(draining) <= 1 then old(PendingStops(order)) else []
    {
      CountDown();
      assert PendingStops(order) == old(PendingStops(order));
      StopIfDrained(log);
    }
  }

  // ---- upgrading a package ----

  datatype UpgradeError = InvalidManifest | ShuttingDown | NotFound | NoHost | LoadFailed | Unavailable

  datatype PackageSpec = PackageSpec(id: string, components: seq<Manifest>)

  /** The requests that are well-formed; `valid` is the check of a single manifest. */
  ghost predicate ValidSpec(spec: PackageSpec, valid: Manifest -> bool) {
    spec.id != "" && 0 < |spec.components| <= 64 && forall m :: m in spec.components ==> valid(m)
  }

  method ValidateSpec(spec: PackageSpec, valid: Manifest -> bool) returns (ok: bool)
    ensures ok <==> ValidSpec(spec, valid)
  {
    if spec.id == "" || |spec.components| == 0 || |spec.components| > 64 {
      return false;
    }
    var n := 0;
    while n < |spec.components|
      invariant n <= |spec.components| && forall k :: 0 <= k < n ==> valid(spec.components[k])
    {
      if !valid(spec.components[n]) {
        return false;
      }
      n := n + 1;
    }
    ok := true;
  }

  /** The package's components in declaration order; a package that is not registered has none. */
  function ComponentsOf(packages: map<string, seq<RuntimeEntry>>, id: string): seq<RuntimeEntry> {
    if id in packages then packages[id] else []
  }

  /** The i-th component's candidate can be loaded: same identity, one serving host, and a good load. */
  predicate Loadable(e: EntryView, m: Manifest, host: Option<nat>, load: LoadResult) {
    && m.id == e.manifest.id && m.mode == e.manifest.mode && m.role == e.manifest.role
    && host.Some? && load.Loaded?
  }

  /** The checks made on a component once every lock is held. */
  predicate Switchable(e: EntryView, m: Manifest) {
    CanLease(e) && e.manifest.version != m.version
  }

  ghost function Views(entries: seq<RuntimeEntry>): (r: seq<EntryView>)
    reads entries
    ensures |r| == |entries|
    ensures forall i :: 0 <= i < |entries| ==> r[i] == entries[i].View()
  {
    if entries == [] then [] else [entries[0].View()] + Views(entries[1..])
  }

  function BusyCount(views: seq<EntryView>): nat {
    if views == [] then 0
    else BusyCount(views[..|views| - 1]) + (if views[|views| - 1].currentInFlight > 0 then 1 else 0)
  }

  method StopCandidates(candidates: seq<RuntimeId>, log: StopLog)
    modifies log
    ensures log.calls == old(log.calls) + candidates
  {
    var i := 0;
    while i < |candidates|
      invariant 0 <= i <= |candidates|
      invariant log.calls == old(log.calls) + candidates[..i]
    {
      log.Stop(candidates[i]);
      i := i + 1;
    }
  }

  lemma LoadableIs(e: EntryView, m: Manifest, host: Option<nat>, load: LoadResult)
    ensures Loadable(e, m, host, load) <==>
              m.id == e.manifest.id && m.mode == e.manifest.mode && m.role == e.manifest.role && host.Some?
                && load.Loaded?
  {
  }

  /** Candidates are loaded up to the first component that cannot be. */
  ghost predicate LoadedUpTo(views: seq<EntryView>, specs: seq<Manifest>, hosts: seq<Option<nat>>,
                             loads: seq<LoadResult>, candidates: seq<RuntimeId>) {
    && |views| == |specs| == |hosts| == |loads| && |candidates| <= |specs|
    && forall i :: 0 <= i < |candidates| ==>
         Loadable(views[i], specs[i], hosts[i], loads[i]) && loads[i] == Loaded(candidates[i])
  }

  /** Why the k-th candidate is not loaded: another identity, no host that serves it, or a failed load. */
  ghost predicate LoadRefused(error: UpgradeError, views: seq<EntryView>, specs: seq<Manifest>,
                              hosts: seq<Option<nat>>, loads: seq<LoadResult>, k: nat) {
    && k < |specs| == |views| == |hosts| == |loads| && !Loadable(views[k], specs[k], hosts[k], loads[k])
    && var current := views[k].manifest;
       error == if current.id != specs[k].id || current.mode != specs[k].mode || current.role != specs[k].role
                then InvalidManifest
                else if hosts[k].None? then NoHost
                else LoadFailed
  }

  /** Why the k-th component, the first that cannot be, is not switched: it is not ready, or keeps its version. */
  ghost predicate SwitchRefused(error: UpgradeError, views: seq<EntryView>, specs: seq<Manifest>, k: nat) {
    && k < |specs| == |views| && !Switchable(views[k], specs[k])
    && (forall i :: 0 <= i < k ==> Switchable(views[i], specs[i]))
    && error == if views[k].phase != Ready || views[k].runtime.None? then Unavailable else InvalidManifest
  }

  /** Loads candidates in declaration order and stops at the first component that fails. */
  method LoadCandidates(entries: seq<RuntimeEntry>, specs: seq<Manifest>, hosts: seq<Option<nat>>,
                        loads: seq<LoadResult>, ghost views: seq<EntryView>)
    returns (error: Option<UpgradeError>, candidates: seq<RuntimeId>)
    requires |entries| == |specs| == |hosts| == |loads| == |views|
    requires forall i :: 0 <= i < |entries| ==> entries[i].View() == views[i]
    ensures LoadedUpTo(views, specs, hosts, loads, candidates)
    ensures error.None? <==> |candidates| == |specs|
    ensures error.Some? ==> var k := |candidates|; !Loadable(views[k], specs[k], hosts[k], loads[k])
    ensures error.Some? ==> LoadRefused(error.value, views, specs, hosts, loads, |candidates|)
  {
    hide Loadable;
    error, candidates := None, [];
    while |candidates| < |specs|
      invariant LoadedUpTo(views, specs, hosts, loads, candidates)
      decreases |specs| - |candidates|
    {
      var i := |candidates|;
      LoadableIs(views[i], specs[i], hosts[i], loads[i]);
      assert entries[i].View() == views[i];
      var e, m := entries[i], specs[i];
      if m.id != e.manifest.id || m.mode != e.manifest.mode || m.role != e.manifest.role {
        error := Some(InvalidManifest);
        return;
      }
      if hosts[i].None? {
        error := Some(NoHost);
        return;
      }
      if !loads[i].Loaded? {
        error := Some(LoadFailed);
        return;
      }
      candidates := candidates + [loads[i].runtime];
    }
  }

  ghost predicate AllSwitchable(views: seq<EntryView>, specs: seq<Manifest>) {
    && |views| == |specs|
    && forall i :: 0 <= i < |views| ==> Switchable(views[i], specs[i])
  }

  /** The first n components have moved to their targets and the others are as they were. */
  ghost predicate Moved(before: seq<EntryView>, after: seq<EntryView>, targets: seq<Target>, group: nat, n: nat) {
    && |before| == |after| == |targets| && n <= |before|
    && (forall i :: 0 <= i < n ==> Swapped(before[i], after[i], targets[i], group))
    && (forall i :: n <= i < |before| ==> after[i] == before[i])
  }

  lemma SwitchableIs(e: EntryView, m: Manifest)
    ensures Switchable(e, m) <==> e.phase == Ready && e.runtime.Some? && e.manifest.version != m.version
  {
  }

  method CheckSwitchable(entries: seq<RuntimeEntry>, specs: seq<Manifest>, ghost views: seq<EntryView>)
    returns (error: Option<UpgradeError>)
    requires |entries| == |specs| == |views| && forall i :: 0 <= i < |entries| ==> entries[i].View() == views[i]
    ensures error.None? <==> AllSwitchable(views, specs)
    ensures error.Some? ==> exists k: nat :: SwitchRefused(error.value, views, specs, k)
  {
    hide Switchable;
    var i := 0;
    while i < |entries|
      invariant 0 <= i <= |entries|
      invariant forall k :: 0 <= k < i ==> Switchable(views[k], specs[k])
    {
      SwitchableIs(views[i], specs[i]);
      assert entries[i].View() == views[i];
      if entries[i].phase != Ready || entries[i].runtime.None? {
        assert SwitchRefused(Unavailable, views, specs, i);
        return Some(Unavailable);
      }
      if entries[i].manifest.version == specs[i].version {
        assert SwitchRefused(InvalidManifest, views, specs, i);
        return Some(InvalidManifest);
      }
      i := i + 1;
    }
    error := None;
  }

  lemma MovedOne(before: seq<EntryView>, now: seq<EntryView>, targets: seq<Target>, group: nat, i: nat)
    requires i < |targets| && Moved(before, now, targets, group, i)
    requires before[i].runtime.Some?
    ensures |now| == |before| && now[i] == before[i]
    ensures forall v :: Swapped(before[i], v, targets[i], group) ==> Moved(before, now[i := v], targets, group, i + 1)
    ensures BusyCount(before[..i + 1]) == BusyCount(before[..i]) + if before[i].currentInFlight > 0 then 1 else 0
  {
    assert before[..i + 1][..i] == before[..i];
  }

  /** One component is switched over; no other entry changes. */
  method SwapOne(entries: seq<RuntimeEntry>, i: nat, target: Target, group: nat) returns (busy: bool)
    requires i < |entries| && Distinct(entries) && Views(entries)[i].runtime.Some?
    modifies entries[i]
    ensures Swapped(old(Views(entries))[i], Views(entries)[i], target, group)
    ensures Views(entries) == old(Views(entries))[i := Views(entries)[i]]
    ensures busy <==> old(Views(entries))[i].currentInFlight > 0
  {
    hide Swapped, RuntimeEntry.View, Views;
    assert forall k :: 0 <= k < |entries| && k != i ==> entries[k] != entries[i];
    busy := entries[i].SwapTo(target, group);
  }

  /** Replaces every component and counts the replaced versions that still have calls. */
  method SwapAll(entries: seq<RuntimeEntry>, targets: seq<Target>, group: nat) returns (draining: nat)
    requires |entries| == |targets| && Distinct(entries)
    requires forall i :: 0 <= i < |entries| ==> Views(entries)[i].runtime.Some?
    modifies entries
    ensures Moved(old(Views(entries)), Views(entries), targets, group, |entries|)
    ensures draining == BusyCount(old(Views(entries)))
  {
    hide Swapped, RuntimeEntry.View, Distinct, Moved, BusyCount, Views;
    ghost var before := Views(entries);
    MovedNone(before, targets, group);
    draining := 0;
    var i := 0;
    while i < |entries|
      invariant 0 <= i <= |entries|
      invariant Moved(before, Views(entries), targets, group, i)
      invariant draining == BusyCount(before[..i])
    {
      MovedOne(before, Views(entries), targets, group, i);
      var busy := SwapOne(entries, i, targets[i], group);
      draining := draining + (if busy then 1 else 0);
      i := i + 1;
    }
    assert before[..|entries|] == before;
  }

  lemma MovedNone(before: seq<EntryView>, targets: seq<Target>, group: nat)
    requires |targets| == |before|
    ensures Moved(before, before, targets, group, 0) && BusyCount(before[..0]) == 0
  {
  }

  function Targets(specs: seq<Manifest>, hosts: seq<Option<nat>>, loads: seq<LoadResult>): (r: seq<Target>)
    requires |specs| == |hosts| == |loads|
    requires forall i :: 0 <= i < |specs| ==> hosts[i].Some? && loads[i].Loaded?
    ensures |r| == |specs|
    ensures forall i :: 0 <= i < |r| ==> r[i] == Target(specs[i], hosts[i].value, loads[i].runtime)
  {
    seq(|specs|, i requires 0 <= i < |specs| => Target(specs[i], hosts[i].value, loads[i].runtime))
  }

  ghost predicate AllLoadable(views: seq<EntryView>, specs: seq<Manifest>, hosts: seq<Option<nat>>,
                              loads: seq<LoadResult>) {
    && |views| == |specs| == |hosts| == |loads|
    && forall i :: 0 <= i < |views| ==> Loadable(views[i], specs[i], hosts[i], loads[i])
  }

  lemma LoadableParts(views: seq<EntryView>, specs: seq<Manifest>, hosts: seq<Option<nat>>, loads: seq<LoadResult>)
    requires AllLoadable(views, specs, hosts, loads)
    ensures forall i :: 0 <= i < |views| ==> hosts[i].Some? && loads[i].Loaded?
  {
    assert forall i :: 0 <= i < |views| ==> Loadable(views[i], specs[i], hosts[i], loads[i]);
  }

  lemma SwitchableParts(views: seq<EntryView>, specs: seq<Manifest>)
    requires AllSwitchable(views, specs)
    ensures forall i :: 0 <= i < |views| ==> views[i].runtime.Some?
  {
    assert forall i :: 0 <= i < |views| ==> Switchable(views[i], specs[i]);
  }

  /** Every component can be loaded and switched. */
  ghost predicate CanSwitch(views: seq<EntryView>, specs: seq<Manifest>, hosts: seq<Option<nat>>,
                            loads: seq<LoadResult>) {
    |specs| == |views| && AllLoadable(views, specs, hosts, loads) && AllSwitchable(views, specs)
  }

  /** Every component has moved to its new manifest, host, runtime and generation. */
  ghost predicate Upgraded(before: seq<EntryView>, after: seq<EntryView>, specs: seq<Manifest>, hosts: seq<Option<nat>>,
                           loads: seq<LoadResult>, group: nat) {
    && |before| == |after| == |specs| == |hosts| == |loads|
    && forall i :: 0 <= i < |specs| ==>
         && hosts[i].Some? && loads[i].Loaded?
         && Swapped(before[i], after[i], Target(specs[i], hosts[i].value, loads[i].runtime), group)
  }

  /** Exactly the candidates that were loaded, up to the first that cannot be, are the ones stopped. */
  ghost predicate CandidatesStopped(views: seq<EntryView>, specs: seq<Manifest>, hosts: seq<Option<nat>>,
                                    loads: seq<LoadResult>, stops: seq<RuntimeId>) {
    if |specs| == |views| then
      && LoadedUpTo(views, specs, hosts, loads, stops)
      && (|stops| < |specs| ==> var k := |stops|; !Loadable(views[k], specs[k], hosts[k], loads[k]))
    else stops == []
  }

  /** The cause of a failed upgrade of a registered package, and the candidates it had loaded by then. */
  ghost predicate FailsFor(error: UpgradeError, views: seq<EntryView>, specs: seq<Manifest>, hosts: seq<Option<nat>>,
                           loads: seq<LoadResult>, stops: seq<RuntimeId>) {
    if |specs| != |views| then error == InvalidManifest
    else if !AllLoadable(views, specs, hosts, loads) then LoadRefused(error, views, specs, hosts, loads, |stops|)
    else exists k: nat :: SwitchRefused(error, views, specs, k)
  }

  /** The group holds the runtimes that were replaced, last component first, and knows how many still have calls. */
  ghost predicate Retires(g: RetiredGroup, before: seq<EntryView>)
    reads g
  {
    && g.Valid() && g.draining == BusyCount(before) && |g.order| == |before|
    && forall k :: 0 <= k < |before| ==> before[|before| - 1 - k].runtime == Some(g.order[k].runtime)
  }

  /** The runtimes in the order of the group. */
  ghost function InOrder(order: seq<RetiredRuntime>): (r: seq<RuntimeId>)
    ensures |r| == |order| && forall k :: 0 <= k < |r| ==> r[k] == order[k].runtime
  {
    seq(|order|, k requires 0 <= k < |order| => order[k].runtime)
  }

  /**
   UpgradePackage is all or nothing. It succeeds exactly when the request is good, the loader accepts
   it, the package is registered, every candidate loads and every component can be switched; then
   every component moves to its new manifest, host, runtime and generation, and the old runtimes form a
   group that is stopped at once, in its order, if none of them has calls left, and not yet otherwise.
   On a failure no component changes and exactly the candidates that had been loaded are stopped.
   */
  method UpgradePackage(packages: map<string, seq<RuntimeEntry>>, accepting: bool, valid: Manifest -> bool,
                        spec: PackageSpec, hosts: seq<Option<nat>>, loads: seq<LoadResult>, group: nat, log: StopLog)
    returns (r: Result<RetiredGroup, UpgradeError>, ghost stops: seq<RuntimeId>)
    requires Distinct(ComponentsOf(packages, spec.id)) && |hosts| == |loads| == |spec.components|
    modifies ComponentsOf(packages, spec.id), log
    ensures !ValidSpec(spec, valid) ==> r == Err(InvalidManifest) && stops == []
    ensures ValidSpec(spec, valid) && !accepting ==> r == Err(ShuttingDown) && stops == []
    ensures ValidSpec(spec, valid) && accepting && spec.id !in packages ==> r == Err(NotFound) && stops == []
    ensures r.Ok? <==> ValidSpec(spec, valid) && accepting && spec.id in packages
                       && CanSwitch(old(Views(ComponentsOf(packages, spec.id))), spec.components, hosts, loads)
    ensures r.Ok? ==> Upgraded(old(Views(ComponentsOf(packages, spec.id))), Views(ComponentsOf(packages, spec.id)),
                               spec.components, hosts, loads, group)
    ensures r.Ok? ==> Retires(r.value, old(Views(ComponentsOf(packages, spec.id))))
    ensures r.Ok? ==> r.value.triggered == (r.value.draining == 0)
                      && stops == if r.value.draining == 0 then InOrder(r.value.order) else []
    ensures r.Err? ==> Views(ComponentsOf(packages, spec.id)) == old(Views(ComponentsOf(packages, spec.id)))
    ensures r.Err? && ValidSpec(spec, valid) && accepting && spec.id in packages ==>
              && CandidatesStopped(old(Views(ComponentsOf(packages, spec.id))), spec.components, hosts, loads, stops)
              && FailsFor(r.error, old(Views(ComponentsOf(packages, spec.id))), spec.components, hosts, loads, stops)
    ensures log.calls == old(log.calls) + stops
  {
    hide Swapped, RuntimeEntry.View, BusyCount, Loadable, Switchable, Moved;
    hide AllSwitchable, AllLoadable, LoadedUpTo, Views;
    stops := [];
    var ok := ValidateSpec(spec, valid);
    if !ok {
      return Err(InvalidManifest), stops;
    }
    if !accepting {
      return Err(ShuttingDown), stops;
    }
    if spec.id !in packages {
      return Err(NotFound), stops;
    }
    r, stops := UpgradeComponents(packages[spec.id], spec.components, hosts, loads, group, log);
  }

  /** The upgrade of a registered package's components. */
  method UpgradeComponents(entries: seq<RuntimeEntry>, specs: seq<Manifest>, hosts: seq<Option<nat>>,
                           loads: seq<LoadResult>, group: nat, log: StopLog)
    returns (r: Result<RetiredGroup, UpgradeError>, ghost stops: seq<RuntimeId>)
    requires Distinct(entries) && |hosts| == |loads| == |specs|
    modifies entries, log
    ensures r.Ok? <==> CanSwitch(old(Views(entries)), specs, hosts, loads)
    ensures r.Ok? ==> Upgraded(old(Views(entries)), Views(entries), specs, hosts, loads, group)
    ensures r.Ok? ==> Retires(r.value, old(Views(entries))) && r.value.triggered == (r.value.draining == 0)
    ensures r.Ok? ==> stops == if r.value.draining == 0 then InOrder(r.value.order) else []
    ensures r.Err? ==>
              Views(entries) == old(Views(entries))
                && CandidatesStopped(old(Views(entries)), specs, hosts, loads, stops)
    ensures r.Err? ==> FailsFor(r.error, old(Views(entries)), specs, hosts, loads, stops)
    ensures log.calls == old(log.calls) + stops
  {
    hide Swapped, RuntimeEntry.View, BusyCount, Loadable, Switchable, Moved;
    hide AllSwitchable, AllLoadable, LoadedUpTo, Views;
    ghost var before := Views(entries);
    stops := [];
    if |specs| != |entries| {
      return Err(InvalidManifest), stops;
    }
    var unloaded, candidates := LoadCandidates(entries, specs, hosts, loads, before);
    LoadedAll(before, specs, hosts, loads, candidates);
    if unloaded.Some? {
      StopCandidates(candidates, log);
      return Err(unloaded.value), candidates;
    }
    LoadableParts(before, specs, hosts, loads);
    r := SwitchOver(entries, specs, Targets(specs, hosts, loads), group);
    if r.Err? {
      StopCandidates(candidates, log);
      stops := candidates;
    } else {
      MovedUpgrades(before, Views(entries), specs, hosts, loads, group);
      stops := FirstCheck(r.value, log);
      assert Upgraded(before, Views(entries), specs, hosts, loads, group);
    }
  }

  lemma MovedUpgrades(before: seq<EntryView>, after: seq<EntryView>, specs: seq<Manifest>, hosts: seq<Option<nat>>,
                      loads: seq<LoadResult>, group: nat)
    requires |specs| == |before| && AllLoadable(before, specs, hosts, loads)
    requires (forall i :: 0 <= i < |specs| ==> hosts[i].Some? && loads[i].Loaded?)
    requires Moved(before, after, Targets(specs, hosts, loads), group, |specs|)
    ensures Upgraded(before, after, specs, hosts, loads, group)
  {
    hide Swapped, Loadable;
  }

  /** The check of a new group: it is stopped at once if nothing has to drain. */
  method FirstCheck(g: RetiredGroup, log: StopLog) returns (ghost stops: seq<RuntimeId>)
    requires g.Valid() && !g.triggered && forall m :: m in g.order ==> !m.stopped
    modifies g`triggered, g.order, log
    ensures g.Valid() && g.triggered == (g.draining <= 0)
    ensures stops == (if g.draining <= 0 then InOrder(g.order) else []) && log.calls == old(log.calls) + stops
  {
    NoneStopped(g.order);
    stops := if g.draining <= 0 then InOrder(g.order) else [];
    g.StopIfDrained(log);
  }

  /** The stop calls of a group of which nothing was stopped yet. */
  lemma {:induction false} NoneStopped(order: seq<RetiredRuntime>)
    requires forall m :: m in order ==> !m.stopped
    ensures PendingStops(order) == InOrder(order)
  {
    if order != [] {
      var n := |order| - 1;
      NoneStopped(order[..n]);
      assert order[n] in order;
      assert InOrder(order) == InOrder(order[..n]) + [order[n].runtime];
    }
  }

  /** The retired group: the version each component replaced last, from the last component to the first. */
  method Retire(entries: seq<RuntimeEntry>, draining: nat) returns (g: RetiredGroup)
    requires forall e :: e in entries ==> e.retired != []
    ensures fresh(g) && g.Valid() && g.draining == draining && !g.triggered && |g.order| == |entries|
    ensures fresh(g.order) && forall m :: m in g.order ==> !m.stopped
    ensures forall k :: 0 <= k < |entries| ==> g.order[k].runtime == Replaced(entries[|entries| - 1 - k])
  {
    hide Replaced;
    var order: seq<RetiredRuntime> := [];
    var i := |entries|;
    while i > 0
      invariant 0 <= i <= |entries| && |order| == |entries| - i && Distinct(order)
      invariant fresh(order) && forall m :: m in order ==> !m.stopped
      invariant forall k :: 0 <= k < |order| ==> order[k].runtime == Replaced(entries[|entries| - 1 - k])
    {
      i := i - 1;
      var member := new RetiredRuntime(Replaced(entries[i]));
      order := order + [member];
    }
    g := new RetiredGroup(draining, order);
  }

  /** The runtime of the version that the entry replaced last. */
  function Replaced(e: RuntimeEntry): RuntimeId
    reads e
    requires e.retired != []
  {
    e.retired[|e.retired| - 1].runtime
  }

  /**
   The region under all entry locks: check every component, then replace every component and retire
   what was there.
   */
  method SwitchOver(entries: seq<RuntimeEntry>, specs: seq<Manifest>, targets: seq<Target>, group: nat)
    returns (r: Result<RetiredGroup, UpgradeError>)
    requires |entries| == |specs| == |targets| && Distinct(entries)
    modifies entries
    ensures r.Ok? <==> AllSwitchable(old(Views(entries)), specs)
    ensures r.Ok? ==> Moved(old(Views(entries)), Views(entries), targets, group, |entries|)
    ensures r.Ok? ==> fresh(r.value) && fresh(r.value.order)
    ensures r.Ok? ==> Retires(r.value, old(Views(entries))) && !r.value.triggered
    ensures r.Ok? ==> forall m :: m in r.value.order ==> !m.stopped
    ensures r.Err? ==> Views(entries) == old(Views(entries))
    ensures r.Err? ==> exists k: nat :: SwitchRefused(r.error, old(Views(entries)), specs, k)
  {
    hide SwitchRefused;
    hide Swapped, RuntimeEntry.View, BusyCount, Switchable, Moved, AllSwitchable, Views;
    ghost var before := Views(entries);
    var failed := CheckSwitchable(entries, specs, before);
    if failed.Some? {
      return Err(failed.value);
    }
    SwitchableParts(before, specs);
    var draining := SwapAll(entries, targets, group);
    ReplacedBy(entries, before, targets, group);
    hide Replaced;
    var retired := Retire(entries, draining);
    r := Ok(retired);
  }

  lemma ReplacedBy(entries: seq<RuntimeEntry>, before: seq<EntryView>, targets: seq<Target>, group: nat)
    requires |targets| == |entries| && Moved(before, Views(entries), targets, group, |entries|)
    ensures |before| == |entries|
    ensures forall i ::
              0 <= i < |entries| ==> entries[i].retired != [] && before[i].runtime == Some(Replaced(entries[i]))
  {
    hide Views;
    forall i | 0 <= i < |entries| ensures entries[i].retired != [] && before[i].runtime == Some(Replaced(entries[i])) {
      ReplacedOne(entries[i], before[i], targets[i], group);
    }
  }

  lemma ReplacedOne(e: RuntimeEntry, before: EntryView, target: Target, group: nat)
    requires Swapped(before, e.View(), target, group)
    ensures e.retired != [] && before.runtime == Some(Replaced(e))
  {
  }

  lemma LoadedAll(views: seq<EntryView>, specs: seq<Manifest>, hosts: seq<Option<nat>>, loads: seq<LoadResult>,
                  candidates: seq<RuntimeId>)
    requires LoadedUpTo(views, specs, hosts, loads, candidates)
    requires |candidates| < |specs| ==> var k := |candidates|; !Loadable(views[k], specs[k], hosts[k], loads[k])
    ensures |candidates| <= |specs| && (|candidates| == |specs| <==> AllLoadable(views, specs, hosts, loads))
  {
    hide Loadable;
  }
}
