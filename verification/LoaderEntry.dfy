/** One runtime entry of the loader: what each region under the entry's lock does to it. */
module LoaderEntry {
  import opened Common

  type RuntimeId = nat
  type EntryId = string

  datatype Phase = Registered | Loading | Ready | Unloading | Failed

  datatype Mode = Hosted | Isolated

  datatype Role = Provider | Executor

  datatype CapabilitySpec = CapabilitySpec(id: string, version: string)

  datatype Manifest = Manifest(id: EntryId, packageId: string, version: string, mode: Mode, role: Role,
                               capabilities: seq<CapabilitySpec>)

  /** A version replaced by an upgrade. `stopped` is its stop-once flag, `group` its retired group. */
  datatype Retired = Retired(runtime: RuntimeId, generation: nat, inFlight: int, group: nat, stopped: bool)

  datatype EntryView = EntryView(
    manifest: Manifest, host: nat, phase: Phase, runtime: Option<RuntimeId>, generation: nat,
    inFlight: int, currentInFlight: int, retired: seq<Retired>)

  /** Outcome of loading: a usable runtime, or a failure that may keep a runtime whose stop failed. */
  datatype LoadResult = Loaded(runtime: RuntimeId) | NotLoaded(kept: Option<RuntimeId>)

  datatype LoadDecision = AlreadyReady | PreviouslyFailed | WaitForTransition | StartLoad

  function NewEntry(manifest: Manifest, host: nat): EntryView {
    EntryView(manifest, host, Registered, None, 0, 0, 0, [])
  }

  function DecideLoad(e: EntryView): LoadDecision {
    match e.phase
    case Ready => AlreadyReady
    case Failed => PreviouslyFailed
    case Loading => WaitForTransition
    case Unloading => WaitForTransition
    case Registered => StartLoad
  }

  function EndLoad(e: EntryView, r: LoadResult): EntryView {
    match r
    case Loaded(rt) => e.(phase := Ready, runtime := Some(rt), generation := e.generation + 1)
    case NotLoaded(Some(rt)) => e.(phase := Failed, runtime := Some(rt), generation := e.generation + 1)
    case NotLoaded(None) => e.(phase := Failed, runtime := None)
  }

  predicate CanLease(e: EntryView) {
    e.phase == Ready && e.runtime.Some?
  }

  function AddLease(e: EntryView): EntryView {
    e.(inFlight := e.inFlight + 1, currentInFlight := e.currentInFlight + 1)
  }

  function AfterInvokeError(e: EntryView, generation: nat): EntryView {
    if e.phase == Ready && e.generation == generation then e.(phase := Failed) else e
  }

  /** Position of the first retired version of the given generation, or the length if there is none. */
  function FindRetired(retired: seq<Retired>, generation: nat): (i: nat)
    ensures i <= |retired|
    ensures i < |retired| ==> retired[i].generation == generation
    ensures forall j :: 0 <= j < i ==> retired[j].generation != generation
  {
    if retired == [] then 0
    else if retired[0].generation == generation then 0
    else 1 + FindRetired(retired[1..], generation)
  }

  function DropLease(e: EntryView, generation: nat): EntryView {
    if generation == e.generation then
      e.(inFlight := e.inFlight - 1, currentInFlight := e.currentInFlight - 1)
    else
      var i := FindRetired(e.retired, generation);
      if i < |e.retired| then
        var r := e.retired[i];
        e.(inFlight := e.inFlight - 1, retired := e.retired[i := r.(inFlight := r.inFlight - 1)])
      else
        e.(inFlight := e.inFlight - 1)
  }

  /** The retired version that this release drains, if any. */
  function DrainedBy(e: EntryView, generation: nat): Option<nat> {
    if generation == e.generation then None
    else
      var i := FindRetired(e.retired, generation);
      if i < |e.retired| && e.retired[i].inFlight - 1 <= 0 then Some(i) else None
  }

  predicate CanUnload(e: EntryView) {
    e.inFlight <= 0 && e.runtime.Some? && (e.phase == Ready || e.phase == Failed)
  }

  datatype UnloadDecision = StillInFlight | AlreadyUnloaded | NotUnloadable | StopRuntime(runtime: RuntimeId)

  /** Calls in flight come first, and an entry that is registered again needs nothing. */
  function DecideUnload(e: EntryView): UnloadDecision {
    if e.inFlight > 0 then StillInFlight
    else if CanUnload(e) then StopRuntime(e.runtime.value)
    else if e.phase == Registered then AlreadyUnloaded
    else NotUnloadable
  }

  function EndUnload(e: EntryView, stopped: bool): EntryView {
    if stopped then e.(phase := Registered, runtime := None) else e.(phase := Failed)
  }

  datatype Target = Target(manifest: Manifest, host: nat, runtime: RuntimeId)

  function SwapIn(e: EntryView, t: Target, group: nat): EntryView
    requires e.runtime.Some?
  {
    var previous := Retired(e.runtime.value, e.generation, e.currentInFlight, group, false);
    e.(manifest := t.manifest, host := t.host, runtime := Some(t.runtime),
       generation := e.generation + 1, currentInFlight := 0, retired := e.retired + [previous])
  }

  /** What an upgrade makes of an entry, field by field: the target takes over, the old version is retired. */
  ghost predicate Swapped(before: EntryView, after: EntryView, t: Target, group: nat) {
    && before.runtime.Some?
    && after.manifest == t.manifest && after.host == t.host && after.runtime == Some(t.runtime)
    && after.generation == before.generation + 1 && after.phase == before.phase
    && after.inFlight == before.inFlight && after.currentInFlight == 0
    && |after.retired| == |before.retired| + 1
    && (forall k :: 0 <= k < |before.retired| ==> after.retired[k] == before.retired[k])
    && var was := after.retired[|before.retired|];
       && was.runtime == before.runtime.value && was.generation == before.generation
       && was.inFlight == before.currentInFlight && was.group == group && !was.stopped
  }

  lemma SwapInIs(before: EntryView, after: EntryView, t: Target, group: nat)
    requires before.runtime.Some?
    ensures Swapped(before, after, t, group) <==> after == SwapIn(before, t, group)
  {
    if Swapped(before, after, t, group) {
      assert after.retired == SwapIn(before, t, group).retired;
    }
  }

  function MarkStopped(e: EntryView, slot: nat): EntryView
    requires slot < |e.retired|
  {
    e.(retired := e.retired[slot := e.retired[slot].(stopped := true)])
  }
}
