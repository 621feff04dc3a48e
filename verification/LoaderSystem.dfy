/**
 The loader as a state machine. Every region the source runs under one lock is one action;
 a release is split at the point where it leaves the entry lock, and stopping a retired group
 is one action per member, so every interleaving of releases, upgrades, loads, unloads and
 shutdown is a sequence of these actions.
 */
module LoaderSystem {
  import opened Common
  import opened LoaderEntry

  datatype Lease = Lease(entry: EntryId, runtime: RuntimeId, generation: nat)

  /** A retired version: the entry it belongs to and its position in that entry's retired list. */
  datatype Member = Member(entry: EntryId, slot: nat)

  /**
   `declared` is the package's component order, `order` the stop order. `pendingDrains` counts the
   releases that drained a member but have not yet called memberDrained; `pendingChecks` counts the
   threads about to enter stopIfDrained; `stopped` is how far the triggering thread's loop is.
   */
  datatype Group = Group(declared: seq<EntryId>, order: seq<Member>, runtimes: seq<RuntimeId>,
                         draining: int, triggered: bool,
                         pendingDrains: nat, pendingChecks: nat, stopped: nat)

  /** Where a loaded runtime is: bookkeeping that makes every runtime belong to one place. */
  datatype Place = Candidate | Current(entry: EntryId) | Old(member: Member) | Gone

  datatype State = State(
    accepting: bool,
    entries: map<EntryId, EntryView>,
    packages: map<string, seq<EntryId>>,
    leases: map<nat, Lease>,
    groups: seq<Group>,
    nextRuntime: nat,
    places: map<RuntimeId, Place>,
    stopLog: seq<RuntimeId>)

  datatype LoadOutcome = LoadOk | LoadFailedNoRuntime | LoadFailedStopped | LoadFailedKept

  datatype Action =
    | Register(id: EntryId, manifest: Manifest, host: nat)
    | RegisterPackage(pkg: string, ids: seq<EntryId>)
    | Rollback(pkgs: set<string>, removed: set<EntryId>)
    | StartLoading(id: EntryId)
    | FinishLoading(id: EntryId, outcome: LoadOutcome)
    | Acquire(id: EntryId, lease: nat)
    | InvokeError(lease: nat)
    | Release(lease: nat)
    | MemberDrained(group: nat)
    | StopIfDrained(group: nat)
    | StopNextMember(group: nat)
    | StartUnloading(id: EntryId)
    | FinishUnloading(id: EntryId, stopOk: bool)
    | RecoverEmpty(id: EntryId)
    | LoadCandidate
    | StopCandidate(rt: RuntimeId)
    | Upgrade(pkg: string, targets: map<EntryId, Target>)
    | BeginShutdown
    | ForceStop(member: Member)

  const INIT := State(true, map[], map[], map[], [], 0, map[], [])

  predicate HasSlot(s: State, m: Member) {
    m.entry in s.entries && m.slot < |s.entries[m.entry].retired|
  }

  function OldOf(s: State, m: Member): Retired
    requires HasSlot(s, m)
  {
    s.entries[m.entry].retired[m.slot]
  }

  // ---- what each action does ----

  predicate Enabled(s: State, a: Action) {
    match a
    case Register(id, manifest, host) => s.accepting && id !in s.entries
    case RegisterPackage(pkg, ids) =>
      s.accepting && pkg !in s.packages && ids != [] && forall id :: id in ids ==> id in s.entries
    case Rollback(pkgs, ids) => CanRollBack(s, pkgs, ids)
    case StartLoading(id) => id in s.entries && DecideLoad(s.entries[id]) == StartLoad
    case FinishLoading(id, outcome) => id in s.entries && s.entries[id].phase == Loading
    case Acquire(id, lease) => s.accepting && id in s.entries && CanLease(s.entries[id]) && lease !in s.leases
    case InvokeError(lease) => lease in s.leases && s.leases[lease].entry in s.entries
    case Release(lease) => lease in s.leases && s.leases[lease].entry in s.entries
    case MemberDrained(g) => g < |s.groups| && s.groups[g].pendingDrains > 0
    case StopIfDrained(g) => g < |s.groups| && s.groups[g].pendingChecks > 0
    case StopNextMember(g) =>
      g < |s.groups| && s.groups[g].triggered && s.groups[g].stopped < |s.groups[g].order| &&
      HasSlot(s, s.groups[g].order[s.groups[g].stopped])
    case StartUnloading(id) => id in s.entries && CanUnload(s.entries[id])
    case FinishUnloading(id, ok) => id in s.entries && s.entries[id].phase == Unloading
    case RecoverEmpty(id) => id in s.entries && s.entries[id].phase == Failed && s.entries[id].runtime == None
    case LoadCandidate => true
    case StopCandidate(rt) => rt in s.places && s.places[rt] == Candidate
    case Upgrade(pkg, targets) => CanUpgrade(s, pkg, targets)
    case BeginShutdown => true
    case ForceStop(m) => !s.accepting && HasSlot(s, m) && OldOf(s, m).inFlight <= 0
  }

  /**
   The checks of a registration's rollback: its entries are not loaded, have no calls and were never
   upgraded, and no package that stays has one of them.
   */
  predicate CanRollBack(s: State, pkgs: set<string>, ids: set<EntryId>) {
    && (forall id :: id in ids ==> id in s.entries && s.entries[id].phase == Registered
                                   && s.entries[id].inFlight == 0 && s.entries[id].retired == [])
    && (forall p :: p in s.packages && p !in pkgs ==> forall id :: id in s.packages[p] ==> id !in ids)
  }

  /** The checks UpgradePackage makes once it holds every component's lock. */
  predicate CanUpgrade(s: State, pkg: string, targets: map<EntryId, Target>) {
    && pkg in s.packages
    && var ids := s.packages[pkg];
    && targets.Keys == (set id | id in ids)
    && (forall i, j :: 0 <= i < j < |ids| ==> ids[i] != ids[j])
    && (forall id :: id in ids ==> id in s.entries && CanLease(s.entries[id]))
    && (forall id :: id in ids ==> s.entries[id].manifest.version != targets[id].manifest.version)
    && (forall id :: id in ids ==> targets[id].runtime in s.places && s.places[targets[id].runtime] == Candidate)
    && (forall id, id' :: id in ids && id' in ids && id != id' ==> targets[id].runtime != targets[id'].runtime)
  }

  function WithEntry(s: State, id: EntryId, e: EntryView): State {
    s.(entries := s.entries[id := e])
  }

  function WithGroup(s: State, g: nat, group: Group): State
    requires g < |s.groups|
  {
    s.(groups := s.groups[g := group])
  }

  function AfterLoading(s: State, id: EntryId, outcome: LoadOutcome): State
    requires id in s.entries
  {
    var e := s.entries[id];
    var rt := s.nextRuntime;
    match outcome
    case LoadOk =>
      WithEntry(s, id, EndLoad(e, Loaded(rt))).(nextRuntime := rt + 1, places := s.places[rt := Current(id)])
    case LoadFailedNoRuntime =>
      WithEntry(s, id, EndLoad(e, NotLoaded(None)))
    case LoadFailedStopped =>
      WithEntry(s, id, EndLoad(e, NotLoaded(None)))
      .(nextRuntime := rt + 1, places := s.places[rt := Gone], stopLog := s.stopLog + [rt])
    case LoadFailedKept =>
      WithEntry(s, id, EndLoad(e, NotLoaded(Some(rt))))
      .(nextRuntime := rt + 1, places := s.places[rt := Current(id)], stopLog := s.stopLog + [rt])
  }

  function AfterAcquire(s: State, id: EntryId, lease: nat): State
    requires id in s.entries && CanLease(s.entries[id])
  {
    var e := s.entries[id];
    WithEntry(s, id, AddLease(e)).(leases := s.leases[lease := Lease(id, e.runtime.value, e.generation)])
  }

  function AfterRelease(s: State, lease: nat): State
    requires lease in s.leases && s.leases[lease].entry in s.entries
  {
    var l := s.leases[lease];
    var e := s.entries[l.entry];
    var s' := WithEntry(s, l.entry, DropLease(e, l.generation)).(leases := s.leases - {lease});
    match DrainedBy(e, l.generation)
    case None => s'
    case Some(i) =>
      var g := e.retired[i].group;
      if g < |s'.groups| then
        WithGroup(s', g, s'.groups[g].(pendingDrains := s'.groups[g].pendingDrains + 1))
      else s'
  }

  function AfterMemberDrained(s: State, g: nat): State
    requires g < |s.groups| && s.groups[g].pendingDrains > 0
  {
    var group := s.groups[g];
    WithGroup(s, g, group.(draining := group.draining - 1, pendingDrains := group.pendingDrains - 1,
                           pendingChecks := group.pendingChecks + 1))
  }

  function AfterStopIfDrained(s: State, g: nat): State
    requires g < |s.groups| && s.groups[g].pendingChecks > 0
  {
    var group := s.groups[g];
    WithGroup(s, g, group.(pendingChecks := group.pendingChecks - 1,
                           triggered := group.triggered || group.draining <= 0))
  }

  /** stopRetiredRuntime: the stop-once flag decides whether Stop is called. */
  function AfterStopRetired(s: State, m: Member): State
    requires HasSlot(s, m)
  {
    var was := OldOf(s, m);
    if was.stopped then s
    else WithEntry(s, m.entry, MarkStopped(s.entries[m.entry], m.slot)).(stopLog := s.stopLog + [was.runtime])
  }

  function AfterStopNextMember(s: State, g: nat): State
    requires Enabled(s, StopNextMember(g))
  {
    var group := s.groups[g];
    WithGroup(AfterStopRetired(s, group.order[group.stopped]), g, group.(stopped := group.stopped + 1))
  }

  function AfterStartUnloading(s: State, id: EntryId): State
    requires id in s.entries && CanUnload(s.entries[id])
  {
    var e := s.entries[id];
    WithEntry(s, id, e.(phase := Unloading)).(stopLog := s.stopLog + [e.runtime.value])
  }

  function AfterFinishUnloading(s: State, id: EntryId, ok: bool): State
    requires id in s.entries
  {
    var e := s.entries[id];
    var s' := WithEntry(s, id, EndUnload(e, ok));
    if ok && e.runtime.Some? then s'.(places := s.places[e.runtime.value := Gone]) else s'
  }

  function Reversed(ids: seq<EntryId>): (r: seq<EntryId>)
    ensures |r| == |ids|
    ensures forall k :: 0 <= k < |r| ==> r[k] == ids[|ids| - 1 - k]
  {
    if ids == [] then [] else Reversed(ids[1..]) + [ids[0]]
  }

  function Members(s: State, ids: seq<EntryId>): (r: seq<Member>)
    requires forall id :: id in ids ==> id in s.entries
    ensures |r| == |ids|
    ensures forall k :: 0 <= k < |ids| ==> r[k] == Member(ids[k], |s.entries[ids[k]].retired|)
  {
    if ids == [] then [] else [Member(ids[0], |s.entries[ids[0]].retired|)] + Members(s, ids[1..])
  }

  function Runtimes(s: State, ids: seq<EntryId>): (r: seq<RuntimeId>)
    requires forall id :: id in ids ==> id in s.entries && s.entries[id].runtime.Some?
    ensures |r| == |ids|
    ensures forall k :: 0 <= k < |ids| ==> r[k] == s.entries[ids[k]].runtime.value
  {
    if ids == [] then [] else [s.entries[ids[0]].runtime.value] + Runtimes(s, ids[1..])
  }

  /** How many components still have calls in flight when they are swapped out. */
  function CountBusy(s: State, ids: seq<EntryId>): nat
    requires forall id :: id in ids ==> id in s.entries
  {
    if ids == [] then 0
    else (if s.entries[ids[0]].currentInFlight > 0 then 1 else 0) + CountBusy(s, ids[1..])
  }

  function NewGroup(s: State, ids: seq<EntryId>): Group
    requires forall id :: id in ids ==> id in s.entries && s.entries[id].runtime.Some?
  {
    Group(ids, Members(s, Reversed(ids)), Runtimes(s, Reversed(ids)), CountBusy(s, ids), false, 0, 1, 0)
  }

  function SwappedEntries(s: State, targets: map<EntryId, Target>): map<EntryId, EntryView>
    requires forall id :: id in targets ==> id in s.entries && s.entries[id].runtime.Some?
  {
    map id | id in s.entries ::
      if id in targets then SwapIn(s.entries[id], targets[id], |s.groups|) else s.entries[id]
  }

  ghost function SwappedPlaces(s: State, targets: map<EntryId, Target>): map<RuntimeId, Place>
    requires forall id :: id in targets ==> id in s.entries && s.entries[id].runtime.Some?
  {
    map rt | rt in s.places ::
      if exists id :: id in targets && targets[id].runtime == rt then
        Current(var id :| id in targets && targets[id].runtime == rt; id)
      else if s.places[rt].Current? && s.places[rt].entry in targets
              && s.entries[s.places[rt].entry].runtime == Some(rt) then
        Old(Member(s.places[rt].entry, |s.entries[s.places[rt].entry].retired|))
      else s.places[rt]
  }

  ghost function AfterUpgrade(s: State, pkg: string, targets: map<EntryId, Target>): State
    requires CanUpgrade(s, pkg, targets)
  {
    assert forall id :: id in targets ==> id in s.packages[pkg];
    s.(entries := SwappedEntries(s, targets),
       groups := s.groups + [NewGroup(s, s.packages[pkg])],
       places := SwappedPlaces(s, targets))
  }

  ghost function Apply(s: State, a: Action): State
    requires Enabled(s, a)
  {
    match a
    case Register(id, manifest, host) => WithEntry(s, id, NewEntry(manifest, host))
    case RegisterPackage(pkg, ids) => s.(packages := s.packages[pkg := ids])
    case Rollback(pkgs, ids) => s.(entries := s.entries - ids, packages := s.packages - pkgs)
    case StartLoading(id) => WithEntry(s, id, s.entries[id].(phase := Loading))
    case FinishLoading(id, outcome) => AfterLoading(s, id, outcome)
    case Acquire(id, lease) => AfterAcquire(s, id, lease)
    case InvokeError(lease) =>
      var l := s.leases[lease];
      WithEntry(s, l.entry, AfterInvokeError(s.entries[l.entry], l.generation))
    case Release(lease) => AfterRelease(s, lease)
    case MemberDrained(g) => AfterMemberDrained(s, g)
    case StopIfDrained(g) => AfterStopIfDrained(s, g)
    case StopNextMember(g) => AfterStopNextMember(s, g)
    case StartUnloading(id) => AfterStartUnloading(s, id)
    case FinishUnloading(id, ok) => AfterFinishUnloading(s, id, ok)
    case RecoverEmpty(id) => WithEntry(s, id, s.entries[id].(phase := Registered))
    case LoadCandidate =>
      s.(nextRuntime := s.nextRuntime + 1, places := s.places[s.nextRuntime := Candidate])
    case StopCandidate(rt) => s.(places := s.places[rt := Gone], stopLog := s.stopLog + [rt])
    case Upgrade(pkg, targets) => AfterUpgrade(s, pkg, targets)
    case BeginShutdown => s.(accepting := false)
    case ForceStop(m) => AfterStopRetired(s, m)
  }

  ghost predicate Step(s: State, a: Action, s': State) {
    Enabled(s, a) && s' == Apply(s, a)
  }

  /** A run: it starts with an empty loader, and each action takes one state to the next. */
  ghost predicate Behaviour(states: seq<State>, acts: seq<Action>) {
    && |states| == |acts| + 1 && states[0] == INIT
    && forall i {:trigger Step(states[i], acts[i], states[i + 1])} :: 0 <= i < |acts| ==>
         Step(states[i], acts[i], states[i + 1])
  }

  lemma StepAt(states: seq<State>, acts: seq<Action>, i: nat)
    requires Behaviour(states, acts) && i < |acts|
    ensures Step(states[i], acts[i], states[i + 1])
  {
  }

  ghost predicate Reachable(s: State) {
    exists states, acts :: Behaviour(states, acts) && states[|acts|] == s
  }
}
