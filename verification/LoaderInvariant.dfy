/** The inductive invariant of the loader, and its preservation by every action. */
module LoaderInvariant {
  import opened Common
  import opened LoaderEntry
  import opened LoaderSystem

  /** The live leases on an entry. */
  ghost function LeasesOn(s: State, id: EntryId): set<nat> {
    set l | l in s.leases && s.leases[l].entry == id
  }

  /** The live leases on one generation of an entry. */
  ghost function Holders(s: State, id: EntryId, generation: nat): set<nat> {
    set l | l in s.leases && s.leases[l].entry == id && s.leases[l].generation == generation
  }

  /** The members of a retired group that still have calls in flight. */
  ghost function Busy(s: State, g: nat): set<Member>
    requires g < |s.groups|
  {
    set m | m in s.groups[g].order && HasSlot(s, m) && OldOf(s, m).inFlight > 0
  }

  ghost predicate EntryOk(e: EntryView) {
    && (e.phase == Registered || e.phase == Loading ==> e.runtime == None)
    && (e.phase == Ready || e.phase == Unloading ==> e.runtime.Some?)
    && (forall i :: 0 <= i < |e.retired| ==> e.retired[i].generation < e.generation)
    && (forall i, j :: 0 <= i < j < |e.retired| ==> e.retired[i].generation != e.retired[j].generation)
  }

  ghost predicate EntriesInv(s: State) {
    && (forall id :: id in s.entries ==> EntryOk(s.entries[id]))
    && (forall p :: p in s.packages ==> forall id :: id in s.packages[p] ==> id in s.entries)
  }

  ghost predicate LeaseOnCurrent(s: State, l: Lease) {
    && l.entry in s.entries
    && l.generation == s.entries[l.entry].generation
    && s.entries[l.entry].runtime == Some(l.runtime)
    && (s.entries[l.entry].phase == Ready || s.entries[l.entry].phase == Failed)
  }

  ghost predicate LeaseOnRetired(s: State, l: Lease, slot: nat) {
    && HasSlot(s, Member(l.entry, slot))
    && OldOf(s, Member(l.entry, slot)).generation == l.generation
    && OldOf(s, Member(l.entry, slot)).runtime == l.runtime
  }

  ghost predicate LeaseOk(s: State, l: Lease) {
    LeaseOnCurrent(s, l) || exists slot: nat :: LeaseOnRetired(s, l, slot)
  }

  ghost predicate LeasesInv(s: State) {
    forall l :: l in s.leases ==> LeaseOk(s, s.leases[l])
  }

  /** Every counter is the number of live leases it stands for. */
  ghost predicate CountersInv(s: State) {
    && (forall id :: id in s.entries ==> s.entries[id].inFlight == |LeasesOn(s, id)|)
    && (forall id :: id in s.entries ==>
          s.entries[id].currentInFlight == |Holders(s, id, s.entries[id].generation)|)
    && (forall m :: HasSlot(s, m) ==>
          OldOf(s, m).inFlight == |Holders(s, m.entry, OldOf(s, m).generation)|)
  }

  ghost predicate GroupOk(s: State, g: nat)
    requires g < |s.groups|
  {
    var group := s.groups[g];
    && |group.order| == |group.declared| == |group.runtimes|
    && group.stopped <= |group.order|
    && (forall k :: 0 <= k < |group.order| ==>
          && HasSlot(s, group.order[k])
          && OldOf(s, group.order[k]).group == g
          && OldOf(s, group.order[k]).runtime == group.runtimes[k]
          && group.order[k].entry == group.declared[|group.order| - 1 - k])
    && (forall i, j :: 0 <= i < j < |group.order| ==> group.order[i] != group.order[j])
  }

  ghost predicate GroupsInv(s: State) {
    && (forall g: nat :: g < |s.groups| ==> GroupOk(s, g))
    && (forall m :: HasSlot(s, m) ==>
          OldOf(s, m).group < |s.groups| && m in s.groups[OldOf(s, m).group].order)
  }

  ghost predicate DrainOk(s: State, g: nat)
    requires g < |s.groups|
  {
    var group := s.groups[g];
    && group.draining == |Busy(s, g)| + group.pendingDrains
    && (group.triggered ==> group.draining == 0)
    && (!group.triggered && group.draining == 0 ==> group.pendingChecks > 0)
    && (group.stopped > 0 ==> group.triggered)
  }

  ghost predicate DrainInv(s: State) {
    forall g: nat :: g < |s.groups| ==> DrainOk(s, g)
  }

  /** Every loaded runtime is in exactly one place. */
  ghost predicate PlacesInv(s: State) {
    && (forall rt :: rt in s.places ==> rt < s.nextRuntime)
    && (forall rt :: rt in s.stopLog ==> rt in s.places)
    && (forall id :: id in s.entries && s.entries[id].runtime.Some? ==>
          s.entries[id].runtime.value in s.places && s.places[s.entries[id].runtime.value] == Current(id))
    && (forall m :: HasSlot(s, m) ==>
          OldOf(s, m).runtime in s.places && s.places[OldOf(s, m).runtime] == Old(m))
  }

  ghost predicate MemberStopOk(s: State, m: Member)
    requires HasSlot(s, m)
  {
    && (OldOf(s, m).stopped ==> OldOf(s, m).inFlight <= 0)
    && Count(s.stopLog, OldOf(s, m).runtime) == (if OldOf(s, m).stopped then 1 else 0)
  }

  /** While no shutdown has begun, a group's stops are a prefix of its stop order. */
  ghost predicate GroupStopsOk(s: State, g: nat)
    requires g < |s.groups| && GroupOk(s, g)
  {
    var group := s.groups[g];
    && (forall k :: 0 <= k < |group.order| ==> (OldOf(s, group.order[k]).stopped <==> k < group.stopped))
    && Filter(s.stopLog, (set rt | rt in group.runtimes)) == group.runtimes[..group.stopped]
  }

  ghost predicate CandidateStops(s: State) {
    forall rt :: rt in s.places && s.places[rt] == Candidate ==> rt !in s.stopLog
  }

  ghost predicate CurrentStops(s: State) {
    forall id :: id in s.entries && s.entries[id].runtime.Some? && s.entries[id].runtime.value in s.stopLog ==>
      s.entries[id].phase != Ready && s.entries[id].currentInFlight == 0
  }

  ghost predicate MemberStops(s: State) {
    forall m :: HasSlot(s, m) ==> MemberStopOk(s, m)
  }

  ghost predicate GroupStops(s: State)
    requires GroupsInv(s)
  {
    s.accepting ==> forall g: nat :: g < |s.groups| ==> GroupStopsOk(s, g)
  }

  /** The parts of the invariant. */
  datatype Part =
    | Entries
    | Leases
    | Counters
    | Groups
    | Drains
    | RuntimePlaces
    | CandidateRuntimes
    | CurrentRuntimes
    | RetiredRuntimes
    | GroupOrders

  ghost predicate Holds(s: State, part: Part) {
    match part
    case Entries => EntriesInv(s)
    case Leases => LeasesInv(s)
    case Counters => CountersInv(s)
    case Groups => GroupsInv(s)
    case Drains => DrainInv(s)
    case RuntimePlaces => PlacesInv(s)
    case CandidateRuntimes => CandidateStops(s)
    case CurrentRuntimes => CurrentStops(s)
    case RetiredRuntimes => MemberStops(s)
    case GroupOrders => GroupsInv(s) && GroupStops(s)
  }

  ghost predicate Inv(s: State) {
    forall part :: Holds(s, part)
  }

  lemma InvParts(s: State)
    requires Inv(s)
    ensures EntriesInv(s) && LeasesInv(s) && CountersInv(s) && GroupsInv(s) && DrainInv(s)
    ensures PlacesInv(s) && CandidateStops(s) && CurrentStops(s) && MemberStops(s) && GroupStops(s)
  {
    hide EntriesInv, LeasesInv, CountersInv, GroupsInv, DrainInv, PlacesInv;
    hide CandidateStops, CurrentStops, MemberStops, GroupStops;
    assert Holds(s, Entries) && Holds(s, Leases) && Holds(s, Counters) && Holds(s, Groups) && Holds(s, Drains);
    assert Holds(s, RuntimePlaces) && Holds(s, CandidateRuntimes) && Holds(s, CurrentRuntimes)
           && Holds(s, RetiredRuntimes);
    assert Holds(s, GroupOrders);
  }

  lemma InvOf(s: State)
    requires EntriesInv(s) && LeasesInv(s) && CountersInv(s) && GroupsInv(s) && DrainInv(s)
    requires PlacesInv(s) && CandidateStops(s) && CurrentStops(s) && MemberStops(s) && GroupStops(s)
    ensures Inv(s)
  {
    hide EntriesInv, LeasesInv, CountersInv, GroupsInv, DrainInv, PlacesInv;
    hide CandidateStops, CurrentStops, MemberStops, GroupStops;
  }

  // ---- framing ----

  /** The two states have the same retired versions. */
  ghost predicate SameSlots(s: State, s': State) {
    forall m :: HasSlot(s, m) == HasSlot(s', m) && (HasSlot(s, m) ==> OldOf(s, m) == OldOf(s', m))
  }

  /** The same, up to the counters and the stop-once flags. */
  ghost predicate SameShape(s: State, s': State) {
    forall m :: HasSlot(s, m) == HasSlot(s', m) && (HasSlot(s, m) ==> SameIdentity(OldOf(s, m), OldOf(s', m)))
  }

  ghost predicate SameIdentity(r: Retired, r': Retired) {
    r'.runtime == r.runtime && r'.generation == r.generation && r'.group == r.group
  }

  ghost predicate SameFlags(s: State, s': State)
    requires SameShape(s, s')
  {
    forall m :: HasSlot(s, m) ==> OldOf(s, m).stopped == OldOf(s', m).stopped
  }

  lemma SameSlotsByEntries(s: State, s': State)
    requires s'.entries.Keys == s.entries.Keys
    requires forall id :: id in s.entries ==> s'.entries[id].retired == s.entries[id].retired
    ensures SameSlots(s, s') && SameShape(s, s') && SameFlags(s, s')
  {
  }

  /** The groups agree on everything but their counters and their trigger. */
  ghost predicate SameOrders(s: State, s': State) {
    && |s'.groups| == |s.groups|
    && forall g: nat :: g < |s.groups| ==>
      && s'.groups[g].declared == s.groups[g].declared
      && s'.groups[g].order == s.groups[g].order
      && s'.groups[g].runtimes == s.groups[g].runtimes
      && s'.groups[g].stopped == s.groups[g].stopped
  }

  lemma FrameGroups(s: State, s': State)
    requires GroupsInv(s) && SameShape(s, s') && SameOrders(s, s')
    ensures GroupsInv(s')
  {
    forall g: nat | g < |s'.groups| ensures GroupOk(s', g) {
      assert GroupOk(s, g);
    }
  }

  lemma FrameDrain(s: State, s': State)
    requires DrainInv(s) && SameSlots(s, s') && s'.groups == s.groups
    ensures DrainInv(s')
  {
    forall g: nat | g < |s'.groups| ensures DrainOk(s', g) {
      assert DrainOk(s, g);
      assert Busy(s, g) == Busy(s', g);
    }
  }

  ghost predicate SameCounters(s: State, s': State) {
    && s'.entries.Keys == s.entries.Keys
    && forall id :: id in s.entries ==>
      && s'.entries[id].inFlight == s.entries[id].inFlight
      && s'.entries[id].currentInFlight == s.entries[id].currentInFlight
      && s'.entries[id].generation == s.entries[id].generation
  }

  lemma FrameCounters(s: State, s': State)
    requires CountersInv(s) && SameSlots(s, s') && SameCounters(s, s') && s'.leases == s.leases
    ensures CountersInv(s')
  {
    forall id ensures LeasesOn(s, id) == LeasesOn(s', id) {}
    forall id, gen: nat ensures Holders(s, id, gen) == Holders(s', id, gen) {}
  }

  lemma FrameMemberStops(s: State, s': State)
    requires MemberStops(s) && SameSlots(s, s') && s'.stopLog == s.stopLog
    ensures MemberStops(s')
  {
    forall m | HasSlot(s', m) ensures MemberStopOk(s', m) {
      assert MemberStopOk(s, m);
    }
  }

  lemma FrameGroupStops(s: State, s': State)
    requires GroupsInv(s) && GroupStops(s) && SameShape(s, s') && SameFlags(s, s') && SameOrders(s, s')
    requires s'.stopLog == s.stopLog && (s'.accepting ==> s.accepting)
    ensures GroupsInv(s') && GroupStops(s')
  {
    FrameGroups(s, s');
    if s'.accepting {
      forall g: nat | g < |s'.groups| ensures GroupStopsOk(s', g) {
        assert GroupStopsOk(s, g);
        assert GroupOk(s, g);
      }
    }
  }

  /** Stopping a runtime that is not a retired version leaves the retired versions' stops alone. */
  lemma StopOfOther(s: State, s': State, rt: RuntimeId)
    requires GroupsInv(s) && GroupsInv(s') && MemberStops(s) && GroupStops(s) && SameSlots(s, s')
    requires s'.groups == s.groups && s'.stopLog == s.stopLog + [rt] && (s'.accepting ==> s.accepting)
    requires forall m :: HasSlot(s, m) ==> OldOf(s, m).runtime != rt
    ensures MemberStops(s') && GroupStops(s')
  {
    forall m | HasSlot(s', m) ensures MemberStopOk(s', m) {
      assert MemberStopOk(s, m);
      CountSnoc(s.stopLog, rt, OldOf(s, m).runtime);
    }
    if s'.accepting {
      forall g: nat | g < |s'.groups| ensures GroupStopsOk(s', g) {
        assert GroupStopsOk(s, g);
        assert GroupOk(s, g);
        var keep := set x | x in s.groups[g].runtimes;
        assert forall k :: 0 <= k < |s.groups[g].order| ==>
          HasSlot(s, s.groups[g].order[k]) && OldOf(s, s.groups[g].order[k]).runtime == s.groups[g].runtimes[k];
        FilterSnoc(s.stopLog, rt, keep);
      }
    }
  }

  // ---- phase changes and bookkeeping ----

  /** What only depends on the retired versions, the groups and the counters is kept when these are. */
  lemma FrameAll(s: State, s': State)
    requires GroupsInv(s) && DrainInv(s) && CountersInv(s)
    requires SameSlots(s, s') && SameCounters(s, s') && s'.leases == s.leases && s'.groups == s.groups
    ensures GroupsInv(s') && DrainInv(s') && CountersInv(s')
  {
    FrameGroups(s, s');
    FrameDrain(s, s');
    FrameCounters(s, s');
  }

  lemma FrameStops(s: State, s': State)
    requires GroupsInv(s) && MemberStops(s) && GroupStops(s)
    requires SameSlots(s, s') && s'.groups == s.groups
    requires s'.stopLog == s.stopLog && (s'.accepting ==> s.accepting)
    ensures GroupsInv(s') && MemberStops(s') && GroupStops(s')
  {
    FrameMemberStops(s, s');
    FrameGroupStops(s, s');
  }

  /** Leases stay good when retired versions stay and every current lease stays current. */
  lemma LeasesAfter(s: State, s': State)
    requires LeasesInv(s) && SameShape(s, s')
    requires s'.leases.Keys <= s.leases.Keys && forall l :: l in s'.leases ==> s'.leases[l] == s.leases[l]
    requires forall l :: l in s'.leases && LeaseOnCurrent(s, s.leases[l]) ==> LeaseOnCurrent(s', s.leases[l])
    ensures LeasesInv(s')
  {
    forall l | l in s'.leases ensures LeaseOk(s', s'.leases[l]) {
      var x := s.leases[l];
      assert LeaseOk(s, x);
      if !LeaseOnCurrent(s, x) {
        var slot: nat :| LeaseOnRetired(s, x, slot);
        assert LeaseOnRetired(s', x, slot);
      }
    }
  }

  lemma NoLeasesOn(s: State, id: EntryId)
    requires CountersInv(s) && id in s.entries && s.entries[id].inFlight <= 0
    ensures forall l :: l in s.leases ==> s.leases[l].entry != id
    ensures forall gen: nat :: Holders(s, id, gen) == {}
  {
    assert LeasesOn(s, id) == {};
    assert forall l :: l in s.leases && s.leases[l].entry == id ==> l in LeasesOn(s, id);
  }

  /** Places stay right when no runtime moves. */
  lemma FramePlaces(s: State, s': State)
    requires PlacesInv(s) && SameShape(s, s') && s'.places == s.places && s'.nextRuntime == s.nextRuntime
    requires s'.entries.Keys == s.entries.Keys
    requires forall id :: id in s.entries ==> s'.entries[id].runtime == s.entries[id].runtime
    requires forall rt :: rt in s'.stopLog ==> rt in s.places
    ensures PlacesInv(s')
  {
  }

  /** What holds of leases, counters and groups is kept when entries change neither counters nor retired versions. */
  lemma FrameCore(s: State, s': State)
    requires LeasesInv(s) && CountersInv(s) && GroupsInv(s) && DrainInv(s) && MemberStops(s) && GroupStops(s)
    requires SameSlots(s, s') && SameShape(s, s') && SameCounters(s, s') && s'.leases == s.leases
             && s'.groups == s.groups
    requires s'.stopLog == s.stopLog && (s'.accepting ==> s.accepting)
    requires forall l :: l in s'.leases && LeaseOnCurrent(s, s.leases[l]) ==> LeaseOnCurrent(s', s.leases[l])
    ensures LeasesInv(s') && CountersInv(s') && GroupsInv(s') && DrainInv(s') && MemberStops(s') && GroupStops(s')
  {
    hide LeasesInv, CountersInv, GroupsInv, DrainInv, MemberStops, GroupStops;
    hide SameSlots, SameShape, SameCounters, LeaseOnCurrent;
    FrameAll(s, s');
    FrameStops(s, s');
    LeasesAfter(s, s');
  }

  lemma PhasePlaces(s: State, s': State, id: EntryId, p: Phase)
    requires EntriesInv(s) && PlacesInv(s) && CandidateStops(s) && CurrentStops(s)
    requires id in s.entries && EntryOk(s.entries[id].(phase := p))
             && s' == WithEntry(s, id, s.entries[id].(phase := p))
    requires p == Ready ==> s.entries[id].phase == Ready
    ensures EntriesInv(s') && PlacesInv(s') && CandidateStops(s') && CurrentStops(s')
    ensures SameSlots(s, s') && SameShape(s, s')
  {
    SameSlotsByEntries(s, s');
    FramePlaces(s, s');
    hide PlacesInv, SameSlots, SameShape;
  }

  lemma PhaseChange(s: State, id: EntryId, p: Phase)
    requires Inv(s) && id in s.entries && EntryOk(s.entries[id].(phase := p))
    requires p == Ready ==> s.entries[id].phase == Ready
    requires p == Ready || p == Failed ||
             forall l :: l in s.leases && s.leases[l].entry == id ==> !LeaseOnCurrent(s, s.leases[l])
    ensures Inv(WithEntry(s, id, s.entries[id].(phase := p)))
  {
    hide Inv;
    InvParts(s);
    hide LeasesInv, CountersInv, GroupsInv, DrainInv, MemberStops, GroupStops, SameSlots, SameShape;
    hide EntriesInv, PlacesInv, CandidateStops, CurrentStops, EntryOk;
    var s' := WithEntry(s, id, s.entries[id].(phase := p));
    PhasePlaces(s, s', id, p);
    PhaseFrame(s, s', id, p);
    hide WithEntry, SameCounters, LeaseOnCurrent;
    FrameCore(s, s');
    InvOf(s');
  }

  lemma PhaseFrame(s: State, s': State, id: EntryId, p: Phase)
    requires id in s.entries && s' == WithEntry(s, id, s.entries[id].(phase := p))
    requires p == Ready ==> s.entries[id].phase == Ready
    requires p == Ready || p == Failed ||
             forall l :: l in s.leases && s.leases[l].entry == id ==> !LeaseOnCurrent(s, s.leases[l])
    ensures SameCounters(s, s') && s'.leases == s.leases && s'.groups == s.groups
    ensures s'.stopLog == s.stopLog && s'.accepting == s.accepting
    ensures forall l :: l in s'.leases && LeaseOnCurrent(s, s.leases[l]) ==> LeaseOnCurrent(s', s.leases[l])
  {
  }

  lemma StartLoadingKeeps(s: State, id: EntryId)
    requires Inv(s) && Enabled(s, StartLoading(id))
    ensures Inv(Apply(s, StartLoading(id)))
  {
    hide Inv;
    InvParts(s);
    PhaseChange(s, id, Loading);
  }

  lemma FailedEntryOk(s: State, id: EntryId)
    requires EntriesInv(s) && id in s.entries && s.entries[id].phase == Ready
    ensures EntryOk(s.entries[id].(phase := Failed))
  {
    assert EntryOk(s.entries[id]);
  }

  lemma InvokeErrorKeeps(s: State, lease: nat)
    requires Inv(s) && Enabled(s, InvokeError(lease))
    ensures Inv(Apply(s, InvokeError(lease)))
  {
    hide Inv, EntryOk;
    hide EntriesInv, LeasesInv, CountersInv, GroupsInv, DrainInv, PlacesInv;
    hide CandidateStops, CurrentStops, MemberStops, GroupStops;
    InvParts(s);
    var l := s.leases[lease];
    var e := s.entries[l.entry];
    if e.phase == Ready && e.generation == l.generation {
      FailedEntryOk(s, l.entry);
      PhaseChange(s, l.entry, Failed);
    } else {
      WithSameEntry(s, l.entry);
    }
  }

  lemma WithSameEntry(s: State, id: EntryId)
    requires id in s.entries
    ensures WithEntry(s, id, s.entries[id]) == s
  {
    assert s.entries[id := s.entries[id]] == s.entries;
  }

  lemma RecoverEmptyKeeps(s: State, id: EntryId)
    requires Inv(s) && Enabled(s, RecoverEmpty(id))
    ensures Inv(Apply(s, RecoverEmpty(id)))
  {
    hide Inv;
    InvParts(s);
    PhaseChange(s, id, Registered);
  }

  lemma RegisteredCounters(s: State, s': State, id: EntryId, e: EntryView)
    requires LeasesInv(s) && CountersInv(s) && SameSlots(s, s')
    requires id !in s.entries && s' == WithEntry(s, id, e)
    requires e.inFlight == 0 && e.currentInFlight == 0
    ensures CountersInv(s')
  {
    forall x ensures LeasesOn(s, x) == LeasesOn(s', x) {}
    forall x, gen: nat ensures Holders(s, x, gen) == Holders(s', x, gen) {}
    forall l | l in s.leases ensures s.leases[l].entry != id {
      assert LeaseOk(s, s.leases[l]);
    }
    assert LeasesOn(s', id) == {} && Holders(s', id, e.generation) == {};
  }

  lemma RegisteredPlaces(s: State, s': State, id: EntryId, e: EntryView)
    requires PlacesInv(s) && EntriesInv(s) && CurrentStops(s) && CandidateStops(s) && SameSlots(s, s')
    requires id !in s.entries && s' == WithEntry(s, id, e) && e.runtime == None && EntryOk(e)
    ensures PlacesInv(s') && EntriesInv(s') && CurrentStops(s') && CandidateStops(s')
  {
  }

  lemma RegisterKeeps(s: State, id: EntryId, manifest: Manifest, host: nat)
    requires Inv(s) && Enabled(s, Register(id, manifest, host))
    ensures Inv(Apply(s, Register(id, manifest, host)))
  {
    hide Inv;
    InvParts(s);
    var e := NewEntry(manifest, host);
    var s' := WithEntry(s, id, e);
    assert SameSlots(s, s');
    FrameGroups(s, s');
    FrameDrain(s, s');
    FrameStops(s, s');
    LeasesAfter(s, s');
    RegisteredCounters(s, s', id, e);
    RegisteredPlaces(s, s', id, e);
    InvOf(Apply(s, Register(id, manifest, host)));
  }

  /** Removed entries have no leases and no retired versions. */
  lemma RolledBackCounters(s: State, s': State, pkgs: set<string>, ids: set<EntryId>)
    requires LeasesInv(s) && CountersInv(s) && CanRollBack(s, pkgs, ids) && SameSlots(s, s')
    requires s' == s.(entries := s.entries - ids, packages := s.packages - pkgs)
    ensures LeasesInv(s') && CountersInv(s')
  {
    forall id ensures LeasesOn(s, id) == LeasesOn(s', id) {}
    forall id, gen: nat ensures Holders(s, id, gen) == Holders(s', id, gen) {}
    forall id | id in ids ensures forall l :: l in s.leases ==> s.leases[l].entry != id {
      NoLeasesOn(s, id);
    }
    hide CanRollBack;
    LeasesAfter(s, s');
  }

  lemma RolledBackEntries(s: State, s': State, pkgs: set<string>, ids: set<EntryId>)
    requires EntriesInv(s) && PlacesInv(s) && CurrentStops(s) && CandidateStops(s) && CanRollBack(s, pkgs, ids)
    requires s' == s.(entries := s.entries - ids, packages := s.packages - pkgs) && SameSlots(s, s')
    ensures EntriesInv(s') && PlacesInv(s') && CurrentStops(s') && CandidateStops(s')
  {
    hide EntryOk;
  }

  lemma RollbackKeeps(s: State, pkgs: set<string>, ids: set<EntryId>)
    requires Inv(s) && Enabled(s, Rollback(pkgs, ids))
    ensures Inv(Apply(s, Rollback(pkgs, ids)))
  {
    hide Inv;
    InvParts(s);
    var s' := s.(entries := s.entries - ids, packages := s.packages - pkgs);
    assert SameSlots(s, s');
    RolledBackCounters(s, s', pkgs, ids);
    RolledBackEntries(s, s', pkgs, ids);
    hide LeasesInv, CountersInv, GroupsInv, DrainInv, MemberStops, GroupStops, CanRollBack;
    hide EntriesInv, PlacesInv, CandidateStops, CurrentStops;
    FrameGroups(s, s');
    FrameDrain(s, s');
    FrameStops(s, s');
    InvOf(s');
  }

  /** Registering a package, loading an upgrade candidate and beginning a shutdown. */
  lemma BookkeepingKeeps(s: State, s': State)
    requires Inv(s)
    requires s'.entries == s.entries && s'.leases == s.leases && s'.groups == s.groups
    requires EntriesInv(s') && PlacesInv(s') && CandidateStops(s')
    requires s'.stopLog == s.stopLog && (s'.accepting ==> s.accepting)
    ensures Inv(s')
  {
    hide Inv;
    InvParts(s);
    hide LeasesInv, CountersInv, GroupsInv, DrainInv, MemberStops, GroupStops;
    hide EntriesInv, PlacesInv, CandidateStops;
    SameSlotsByEntries(s, s');
    FrameCore(s, s');
    InvOf(s');
  }

  lemma SameLeaseSets(s: State, s': State)
    requires s'.leases == s.leases
    ensures forall x :: LeasesOn(s, x) == LeasesOn(s', x)
    ensures forall x, gen: nat :: Holders(s, x, gen) == Holders(s', x, gen)
  {
    forall x ensures LeasesOn(s, x) == LeasesOn(s', x) {}
    forall x, gen: nat ensures Holders(s, x, gen) == Holders(s', x, gen) {}
  }

  /** While an entry is loading nobody holds its current version, or a later one. */
  lemma NoneSince(s: State, id: EntryId)
    requires EntriesInv(s) && LeasesInv(s) && id in s.entries && s.entries[id].phase == Loading
    ensures forall gen: nat :: s.entries[id].generation <= gen ==> Holders(s, id, gen) == {}
  {
    forall l | l in s.leases && s.leases[l].entry == id ensures s.leases[l].generation < s.entries[id].generation {
      assert LeaseOk(s, s.leases[l]);
    }
  }

  lemma LoadedCounters(s: State, s': State, id: EntryId)
    requires EntriesInv(s) && LeasesInv(s) && CountersInv(s) && SameSlots(s, s')
    requires id in s.entries && s.entries[id].phase == Loading && s'.leases == s.leases
    requires s'.entries.Keys == s.entries.Keys
    requires forall x :: x in s.entries && x != id ==> s'.entries[x] == s.entries[x]
    requires s'.entries[id].inFlight == s.entries[id].inFlight
    requires s'.entries[id].currentInFlight == s.entries[id].currentInFlight
    requires s.entries[id].generation <= s'.entries[id].generation
    ensures CountersInv(s')
    ensures s'.entries[id].currentInFlight == 0
  {
    SameLeaseSets(s, s');
    NoneSince(s, id);
    hide LeasesOn, Holders, EntriesInv, LeasesInv;
  }

  lemma LoadedPlacesOnly(s: State, s': State, id: EntryId, outcome: LoadOutcome)
    requires PlacesInv(s) && SameSlots(s, s')
    requires id in s.entries && s.entries[id].phase == Loading && s' == AfterLoading(s, id, outcome)
    requires s.entries[id].runtime == None
    ensures PlacesInv(s')
    ensures s.nextRuntime !in s.places && s.nextRuntime !in s.stopLog
    ensures forall x :: x in s.entries && s.entries[x].runtime.Some? ==>
              s.entries[x].runtime.value in s.places && s.places[s.entries[x].runtime.value] == Current(x)
    ensures forall m :: HasSlot(s, m) ==> OldOf(s, m).runtime != s.nextRuntime
  {
  }

  lemma LoadedPlaces(s: State, s': State, id: EntryId, outcome: LoadOutcome)
    requires PlacesInv(s) && EntriesInv(s) && CurrentStops(s) && CandidateStops(s) && SameSlots(s, s')
    requires id in s.entries && s.entries[id].phase == Loading && s' == AfterLoading(s, id, outcome)
    requires s'.entries[id].currentInFlight == 0
    ensures PlacesInv(s') && EntriesInv(s') && CurrentStops(s') && CandidateStops(s')
  {
    LoadedPlacesOnly(s, s', id, outcome);
    LoadedEntries(s, s', id, outcome);
    hide PlacesInv, EntriesInv, EntryOk;
  }

  lemma LoadedEntries(s: State, s': State, id: EntryId, outcome: LoadOutcome)
    requires EntriesInv(s) && id in s.entries && s.entries[id].phase == Loading && s' == AfterLoading(s, id, outcome)
    ensures EntriesInv(s') && s.entries[id].runtime == None
  {
    assert EntryOk(s.entries[id]);
  }

  /** What finishing a load leaves as it was. */
  lemma LoadingStep(s: State, s': State, id: EntryId, outcome: LoadOutcome)
    requires id in s.entries && s.entries[id].phase == Loading && s' == AfterLoading(s, id, outcome)
    ensures s'.entries.Keys == s.entries.Keys && s'.leases == s.leases && s'.groups == s.groups
            && s'.accepting == s.accepting
    ensures forall x :: x in s.entries && x != id ==> s'.entries[x] == s.entries[x]
    ensures s'.entries[id].retired == s.entries[id].retired && s'.entries[id].inFlight == s.entries[id].inFlight
    ensures s'.entries[id].currentInFlight == s.entries[id].currentInFlight
    ensures s.entries[id].generation <= s'.entries[id].generation
    ensures SameSlots(s, s') && SameShape(s, s') && SameOrders(s, s')
  {
    SameSlotsByEntries(s, s');
  }

  lemma LoadingLeases(s: State, s': State, id: EntryId, outcome: LoadOutcome)
    requires LeasesInv(s) && id in s.entries && s.entries[id].phase == Loading && s' == AfterLoading(s, id, outcome)
    ensures LeasesInv(s')
  {
    LoadingStep(s, s', id, outcome);
    hide AfterLoading, SameSlots, SameShape, SameOrders, LeasesInv;
    LeasesAfter(s, s');
  }

  lemma LoadedCore(s: State, s': State, id: EntryId, outcome: LoadOutcome)
    requires EntriesInv(s) && LeasesInv(s) && CountersInv(s) && GroupsInv(s) && DrainInv(s)
    requires id in s.entries && s.entries[id].phase == Loading && s' == AfterLoading(s, id, outcome)
    ensures LeasesInv(s') && CountersInv(s') && GroupsInv(s') && DrainInv(s') && SameSlots(s, s')
    ensures s'.entries[id].currentInFlight == 0
  {
    hide GroupsInv, DrainInv, LeasesInv, EntriesInv, CountersInv;
    LoadingStep(s, s', id, outcome);
    LoadingLeases(s, s', id, outcome);
    hide AfterLoading, SameSlots, SameShape, SameOrders;
    FrameGroups(s, s');
    FrameDrain(s, s');
    LoadedCounters(s, s', id);
  }

  lemma LoadedStops(s: State, s': State, id: EntryId, outcome: LoadOutcome)
    requires GroupsInv(s) && GroupsInv(s') && MemberStops(s) && GroupStops(s) && SameSlots(s, s')
    requires id in s.entries && s' == AfterLoading(s, id, outcome)
    requires forall m :: HasSlot(s, m) ==> OldOf(s, m).runtime != s.nextRuntime
    ensures MemberStops(s') && GroupStops(s')
  {
    if s'.stopLog == s.stopLog {
      FrameStops(s, s');
    } else {
      StopOfOther(s, s', s.nextRuntime);
    }
  }

  lemma FinishLoadingKeeps(s: State, id: EntryId, outcome: LoadOutcome)
    requires Inv(s) && Enabled(s, FinishLoading(id, outcome))
    ensures Inv(Apply(s, FinishLoading(id, outcome)))
  {
    hide Inv;
    InvParts(s);
    assert s.entries[id].runtime == None by { assert EntryOk(s.entries[id]); }
    hide EntriesInv, LeasesInv, CountersInv, GroupsInv, DrainInv, PlacesInv;
    hide CandidateStops, CurrentStops, MemberStops, GroupStops;
    var s' := AfterLoading(s, id, outcome);
    LoadedCore(s, s', id, outcome);
    LoadedPlacesOnly(s, s', id, outcome);
    LoadedPlaces(s, s', id, outcome);
    LoadedStops(s, s', id, outcome);
    InvOf(Apply(s, FinishLoading(id, outcome)));
  }

  lemma UnloadingPlaces(s: State, s': State, id: EntryId)
    requires PlacesInv(s) && EntriesInv(s) && CurrentStops(s) && CandidateStops(s) && SameSlots(s, s')
    requires id in s.entries && CanUnload(s.entries[id]) && s' == AfterStartUnloading(s, id)
    requires s.entries[id].currentInFlight == 0
    ensures PlacesInv(s') && EntriesInv(s') && CurrentStops(s') && CandidateStops(s')
  {
  }

  lemma UnloadingStep(s: State, s': State, id: EntryId)
    requires PlacesInv(s) && CountersInv(s) && id in s.entries && CanUnload(s.entries[id])
             && s' == AfterStartUnloading(s, id)
    ensures SameSlots(s, s') && SameShape(s, s') && SameCounters(s, s')
    ensures forall m :: HasSlot(s, m) ==> OldOf(s, m).runtime != s.entries[id].runtime.value
    ensures forall l :: l in s'.leases && LeaseOnCurrent(s, s.leases[l]) ==> LeaseOnCurrent(s', s.leases[l])
    ensures s.entries[id].currentInFlight == 0
  {
    NoLeasesOn(s, id);
    assert Holders(s, id, s.entries[id].generation) == {};
    SameSlotsByEntries(s, s');
    hide Holders, LeasesOn, SameSlots, SameShape;
  }

  lemma StartUnloadingKeeps(s: State, id: EntryId)
    requires Inv(s) && Enabled(s, StartUnloading(id))
    ensures Inv(Apply(s, StartUnloading(id)))
  {
    hide Inv;
    InvParts(s);
    hide LeasesInv, CountersInv, GroupsInv, DrainInv, MemberStops, GroupStops;
    hide SameSlots, SameShape, SameCounters, LeaseOnCurrent;
    hide EntriesInv, PlacesInv, CandidateStops, CurrentStops;
    var s' := AfterStartUnloading(s, id);
    UnloadingStep(s, s', id);
    UnloadingPlaces(s, s', id);
    StoppedCore(s, s', s.entries[id].runtime.value);
    InvOf(Apply(s, StartUnloading(id)));
  }

  lemma UnloadedPlaces(s: State, s': State, id: EntryId, ok: bool)
    requires PlacesInv(s) && EntriesInv(s) && CurrentStops(s) && CandidateStops(s) && SameSlots(s, s')
    requires id in s.entries && s.entries[id].phase == Unloading && s' == AfterFinishUnloading(s, id, ok)
    ensures PlacesInv(s') && EntriesInv(s') && CurrentStops(s') && CandidateStops(s')
  {
  }

  lemma UnloadedCore(s: State, s': State, id: EntryId, ok: bool)
    requires LeasesInv(s) && CountersInv(s) && GroupsInv(s) && DrainInv(s) && MemberStops(s) && GroupStops(s)
    requires id in s.entries && s.entries[id].phase == Unloading && s' == AfterFinishUnloading(s, id, ok)
    ensures LeasesInv(s') && CountersInv(s') && GroupsInv(s') && DrainInv(s') && MemberStops(s') && GroupStops(s')
    ensures SameSlots(s, s')
  {
    hide GroupsInv, DrainInv, MemberStops, GroupStops, CountersInv, LeasesInv;
    SameSlotsByEntries(s, s');
    FrameAll(s, s');
    LeasesAfter(s, s');
    FrameStops(s, s');
  }

  lemma FinishUnloadingKeeps(s: State, id: EntryId, ok: bool)
    requires Inv(s) && Enabled(s, FinishUnloading(id, ok))
    ensures Inv(Apply(s, FinishUnloading(id, ok)))
  {
    InvParts(s);
    hide EntriesInv, LeasesInv, CountersInv, GroupsInv, DrainInv, PlacesInv;
    hide CandidateStops, CurrentStops, MemberStops, GroupStops;
    var s' := AfterFinishUnloading(s, id, ok);
    UnloadedCore(s, s', id, ok);
    UnloadedPlaces(s, s', id, ok);
  }

  /** FrameCore for a step that also stops a runtime which is no retired version. */
  lemma StoppedCore(s: State, s': State, rt: RuntimeId)
    requires LeasesInv(s) && CountersInv(s) && GroupsInv(s) && DrainInv(s) && MemberStops(s) && GroupStops(s)
    requires SameSlots(s, s') && SameShape(s, s') && SameCounters(s, s') && s'.leases == s.leases
             && s'.groups == s.groups
    requires s'.stopLog == s.stopLog + [rt] && (s'.accepting ==> s.accepting)
    requires forall m :: HasSlot(s, m) ==> OldOf(s, m).runtime != rt
    requires forall l :: l in s'.leases && LeaseOnCurrent(s, s.leases[l]) ==> LeaseOnCurrent(s', s.leases[l])
    ensures LeasesInv(s') && CountersInv(s') && GroupsInv(s') && DrainInv(s') && MemberStops(s') && GroupStops(s')
  {
    hide LeasesInv, CountersInv, GroupsInv, DrainInv, MemberStops, GroupStops;
    hide SameSlots, SameShape, SameCounters, LeaseOnCurrent;
    FrameAll(s, s');
    LeasesAfter(s, s');
    StopOfOther(s, s', rt);
  }

  lemma CandidateGone(s: State, s': State, rt: RuntimeId)
    requires EntriesInv(s) && PlacesInv(s) && CandidateStops(s) && CurrentStops(s)
    requires rt in s.places && s.places[rt] == Candidate
    requires s' == s.(places := s.places[rt := Gone], stopLog := s.stopLog + [rt])
    ensures EntriesInv(s') && PlacesInv(s') && CandidateStops(s') && CurrentStops(s')
    ensures SameSlots(s, s') && SameShape(s, s')
    ensures forall m :: HasSlot(s, m) ==> OldOf(s, m).runtime != rt
  {
    hide EntryOk;
    SameSlotsByEntries(s, s');
  }

  lemma StopCandidateKeeps(s: State, rt: RuntimeId)
    requires Inv(s) && Enabled(s, StopCandidate(rt))
    ensures Inv(Apply(s, StopCandidate(rt)))
  {
    hide Inv;
    InvParts(s);
    hide LeasesInv, CountersInv, GroupsInv, DrainInv, MemberStops, GroupStops, SameSlots, SameShape;
    hide EntriesInv, PlacesInv, CandidateStops, CurrentStops;
    var s' := Apply(s, StopCandidate(rt));
    CandidateGone(s, s', rt);
    StoppedCore(s, s', rt);
    InvOf(Apply(s, StopCandidate(rt)));
  }

  // ---- acquiring and releasing ----

  lemma LeasesOnAfterAdd(s: State, s': State, l: nat, x: Lease, id: EntryId)
    requires l !in s.leases && s'.leases == s.leases[l := x]
    ensures |LeasesOn(s', id)| == |LeasesOn(s, id)| + (if x.entry == id then 1 else 0)
  {
    assert LeasesOn(s', id) == if x.entry == id then LeasesOn(s, id) + {l} else LeasesOn(s, id);
  }

  lemma AddedCard(a: set<nat>, b: set<nat>, l: nat, added: bool)
    requires l !in a && forall x :: x in b <==> x in a || (added && x == l)
    ensures |b| == |a| + if added then 1 else 0
  {
    assert b == if added then a + {l} else a;
  }

  lemma HoldersAfterAddOn(s: State, s': State, l: nat, x: Lease, id: EntryId, gen: nat)
    requires l !in s.leases && s'.leases == s.leases[l := x]
    ensures |Holders(s', id, gen)| == |Holders(s, id, gen)| + (if x.entry == id && x.generation == gen then 1 else 0)
  {
    AddedCard(Holders(s, id, gen), Holders(s', id, gen), l, x.entry == id && x.generation == gen);
  }

  lemma HoldersAfterAdd(s: State, s': State, l: nat, x: Lease)
    requires l !in s.leases && s'.leases == s.leases[l := x]
    ensures forall id :: |LeasesOn(s', id)| == |LeasesOn(s, id)| + (if x.entry == id then 1 else 0)
    ensures forall id, gen: nat ::
              |Holders(s', id, gen)| == |Holders(s, id, gen)| + (if x.entry == id && x.generation == gen then 1 else 0)
  {
    hide LeasesOn, Holders;
    forall id ensures |LeasesOn(s', id)| == |LeasesOn(s, id)| + (if x.entry == id then 1 else 0) {
      LeasesOnAfterAdd(s, s', l, x, id);
    }
    forall id, gen: nat
      ensures |Holders(s', id, gen)| == |Holders(s, id, gen)| + (if x.entry == id && x.generation == gen then 1 else 0)
    {
      HoldersAfterAddOn(s, s', l, x, id, gen);
    }
  }

  lemma HoldersAfterDrop(s: State, s': State, l: nat)
    requires l in s.leases && s'.leases == s.leases - {l}
    ensures var x := s.leases[l];
      forall id :: |LeasesOn(s', id)| == |LeasesOn(s, id)| - (if x.entry == id then 1 else 0)
    ensures var x := s.leases[l]; forall id, gen: nat ::
              |Holders(s', id, gen)| == |Holders(s, id, gen)| - (if x.entry == id && x.generation == gen then 1 else 0)
  {
    var x := s.leases[l];
    assert s.leases == s'.leases[l := x];
    HoldersAfterAdd(s', s, l, x);
  }

  lemma RetiredGenerationsOlder(s: State)
    requires EntriesInv(s)
    ensures forall m :: HasSlot(s, m) ==> OldOf(s, m).generation < s.entries[m.entry].generation
  {
    forall m | HasSlot(s, m) ensures OldOf(s, m).generation < s.entries[m.entry].generation {
      assert EntryOk(s.entries[m.entry]);
    }
  }

  lemma AcquiredCounters(s: State, s': State, id: EntryId, lease: nat)
    requires EntriesInv(s) && CountersInv(s)
    requires id in s.entries && CanLease(s.entries[id]) && lease !in s.leases && s' == AfterAcquire(s, id, lease)
    ensures CountersInv(s')
  {
    hide Holders, LeasesOn;
    SameSlotsByEntries(s, s');
    HoldersAfterAdd(s, s', lease, s'.leases[lease]);
    RetiredGenerationsOlder(s);
  }

  lemma AcquiredLeases(s: State, s': State, id: EntryId, lease: nat)
    requires LeasesInv(s)
    requires id in s.entries && CanLease(s.entries[id]) && lease !in s.leases && s' == AfterAcquire(s, id, lease)
    ensures LeasesInv(s')
  {
    SameSlotsByEntries(s, s');
    forall l | l in s'.leases ensures LeaseOk(s', s'.leases[l]) {
      var x := s'.leases[l];
      if l == lease {
        assert LeaseOnCurrent(s', x);
      } else {
        assert LeaseOk(s, x);
        if LeaseOnCurrent(s, x) {
          assert LeaseOnCurrent(s', x);
        } else {
          var slot: nat :| LeaseOnRetired(s, x, slot);
          assert LeaseOnRetired(s', x, slot);
        }
      }
    }
  }

  lemma AcquiredPlaces(s: State, s': State, id: EntryId, lease: nat)
    requires PlacesInv(s) && EntriesInv(s) && CurrentStops(s) && CandidateStops(s)
    requires id in s.entries && CanLease(s.entries[id]) && s' == AfterAcquire(s, id, lease)
    ensures PlacesInv(s') && EntriesInv(s') && CurrentStops(s') && CandidateStops(s')
  {
    SameSlotsByEntries(s, s');
    FramePlaces(s, s');
  }

  lemma AcquireKeeps(s: State, id: EntryId, lease: nat)
    requires Inv(s) && Enabled(s, Acquire(id, lease))
    ensures Inv(Apply(s, Acquire(id, lease)))
  {
    hide Inv;
    InvParts(s);
    hide EntriesInv, LeasesInv, CountersInv, GroupsInv, DrainInv, PlacesInv;
    hide CandidateStops, CurrentStops, MemberStops, GroupStops;
    var s' := AfterAcquire(s, id, lease);
    AcquiredCounters(s, s', id, lease);
    AcquiredLeases(s, s', id, lease);
    AcquiredPlaces(s, s', id, lease);
    SameSlotsByEntries(s, s');
    FrameGroups(s, s');
    FrameDrain(s, s');
    FrameStops(s, s');
    InvOf(s');
  }

  /** A release on the current version: no retired version changes. */
  lemma ReleasedCurrentCounters(s: State, s': State, lease: nat)
    requires EntriesInv(s) && CountersInv(s)
    requires lease in s.leases && s.leases[lease].entry in s.entries && s' == AfterRelease(s, lease)
    requires s.leases[lease].generation == s.entries[s.leases[lease].entry].generation
    ensures CountersInv(s')
  {
    hide Holders, LeasesOn;
    SameSlotsByEntries(s, s');
    HoldersAfterDrop(s, s', lease);
    RetiredGenerationsOlder(s);
  }

  /** What a release leaves as it was. */
  ghost predicate ReleaseFrames(s: State, s': State) {
    && s'.entries.Keys == s.entries.Keys && s'.places == s.places && s'.nextRuntime == s.nextRuntime
    && s'.stopLog == s.stopLog && s'.packages == s.packages
    && (forall id :: id in s.entries ==>
      && s'.entries[id].runtime == s.entries[id].runtime && s'.entries[id].phase == s.entries[id].phase
      && s'.entries[id].generation == s.entries[id].generation
      && |s'.entries[id].retired| == |s.entries[id].retired|)
    && (forall id :: id in s.entries && s.entries[id].currentInFlight == 0 ==> s'.entries[id].currentInFlight == 0)
  }

  lemma ReleasedPlaces(s: State, s': State)
    requires PlacesInv(s) && EntriesInv(s) && CurrentStops(s) && CandidateStops(s)
    requires ReleaseFrames(s, s') && SameShape(s, s')
    ensures PlacesInv(s') && EntriesInv(s') && CurrentStops(s') && CandidateStops(s')
  {
    FramePlaces(s, s');
    forall id | id in s'.entries ensures EntryOk(s'.entries[id]) {
      assert EntryOk(s.entries[id]);
      forall i | 0 <= i < |s.entries[id].retired|
        ensures s'.entries[id].retired[i].generation == s.entries[id].retired[i].generation
      {
        assert HasSlot(s, Member(id, i)) && SameIdentity(OldOf(s, Member(id, i)), OldOf(s', Member(id, i)));
      }
    }
  }

  lemma CurrentReleaseFrames(s: State, s': State, lease: nat)
    requires lease in s.leases && s.leases[lease].entry in s.entries && s' == AfterRelease(s, lease)
    requires s.leases[lease].generation == s.entries[s.leases[lease].entry].generation
    requires s.entries[s.leases[lease].entry].currentInFlight > 0
    ensures ReleaseFrames(s, s')
  {
  }

  lemma RetiredReleaseFrames(s: State, s': State, lease: nat, m: Member)
    requires RetiredReleased(s, s', lease, m)
    ensures ReleaseFrames(s, s') && SameShape(s, s')
  {
    RetiredReleasedSlots(s, s', lease, m);
    hide SameShape;
  }

  lemma IsRetiredReleased(s: State, lease: nat, m: Member)
    requires lease in s.leases && s.leases[lease].entry in s.entries
    requires s.leases[lease].generation != s.entries[s.leases[lease].entry].generation
    requires m.entry == s.leases[lease].entry && HasSlot(s, m)
    requires OldOf(s, m).generation == s.leases[lease].generation && OldOf(s, m).inFlight > 0
             && OldOf(s, m).group < |s.groups|
    requires DrainedBy(s.entries[m.entry], s.leases[lease].generation) ==
             if OldOf(s, m).inFlight == 1 then Some(m.slot) else None
    requires DropLease(s.entries[m.entry], s.leases[lease].generation) ==
             s.entries[m.entry].(inFlight := s.entries[m.entry].inFlight - 1,
               retired := s.entries[m.entry].retired[m.slot := OldOf(s, m).(inFlight := OldOf(s, m).inFlight - 1)])
    ensures RetiredReleased(s, AfterRelease(s, lease), lease, m)
  {
    hide DropLease, DrainedBy;
  }

  lemma ReleasedCurrentCore(s: State, s': State, lease: nat)
    requires EntriesInv(s) && LeasesInv(s) && CountersInv(s) && GroupsInv(s) && DrainInv(s) && MemberStops(s)
             && GroupStops(s)
    requires lease in s.leases && s.leases[lease].entry in s.entries && s' == AfterRelease(s, lease)
    requires s.leases[lease].generation == s.entries[s.leases[lease].entry].generation
    ensures LeasesInv(s') && CountersInv(s') && GroupsInv(s') && DrainInv(s') && MemberStops(s') && GroupStops(s')
    ensures SameShape(s, s')
    ensures s.entries[s.leases[lease].entry].currentInFlight > 0
  {
    assert lease in Holders(s, s.leases[lease].entry, s.leases[lease].generation);
    SameSlotsByEntries(s, s');
    ReleasedCurrentCounters(s, s', lease);
    hide EntriesInv, CountersInv, GroupsInv, DrainInv, MemberStops, GroupStops;
    LeasesAfter(s, s');
    FrameGroups(s, s');
    FrameDrain(s, s');
    FrameStops(s, s');
  }

  lemma ReleaseCurrentKeeps(s: State, lease: nat)
    requires Inv(s) && Enabled(s, Release(lease))
    requires s.leases[lease].generation == s.entries[s.leases[lease].entry].generation
    ensures Inv(Apply(s, Release(lease)))
  {
    hide Inv, ReleaseFrames, SameShape;
    hide EntriesInv, LeasesInv, CountersInv, GroupsInv, DrainInv, PlacesInv;
    hide CandidateStops, CurrentStops, MemberStops, GroupStops;
    InvParts(s);
    var s' := AfterRelease(s, lease);
    ReleasedCurrentCore(s, s', lease);
    CurrentReleaseFrames(s, s', lease);
    hide AfterRelease;
    ReleasedPlaces(s, s');
    InvOf(s');
  }

  /** A release of a call on a replaced version: the retired version it leaves behind. */
  lemma ReleasedMember(s: State, lease: nat) returns (m: Member)
    requires EntriesInv(s) && LeasesInv(s) && CountersInv(s) && GroupsInv(s) && MemberStops(s)
    requires lease in s.leases && s.leases[lease].entry in s.entries
    requires s.leases[lease].generation != s.entries[s.leases[lease].entry].generation
    ensures m.entry == s.leases[lease].entry && HasSlot(s, m)
    ensures OldOf(s, m).generation == s.leases[lease].generation && OldOf(s, m).runtime == s.leases[lease].runtime
    ensures OldOf(s, m).inFlight > 0 && !OldOf(s, m).stopped && OldOf(s, m).group < |s.groups|
    ensures DrainedBy(s.entries[m.entry], s.leases[lease].generation) ==
            if OldOf(s, m).inFlight == 1 then Some(m.slot) else None
    ensures DropLease(s.entries[m.entry], s.leases[lease].generation) ==
            s.entries[m.entry].(inFlight := s.entries[m.entry].inFlight - 1,
              retired := s.entries[m.entry].retired[m.slot := OldOf(s, m).(inFlight := OldOf(s, m).inFlight - 1)])
  {
    var x := s.leases[lease];
    assert LeaseOk(s, x);
    var slot: nat :| LeaseOnRetired(s, x, slot);
    var e := s.entries[x.entry];
    m := Member(x.entry, slot);
    assert EntryOk(e) && MemberStopOk(s, m);
    assert OldOf(s, m).group < |s.groups|;
    hide GroupsInv, MemberStops, LeasesInv, EntriesInv;
    assert FindRetired(e.retired, x.generation) == slot;
    assert lease in Holders(s, x.entry, x.generation);
  }

  /** The state after a release on a replaced version, spelled out. */
  ghost predicate RetiredReleased(s: State, s': State, lease: nat, m: Member) {
    && lease in s.leases && m.entry == s.leases[lease].entry && HasSlot(s, m)
    && OldOf(s, m).generation == s.leases[lease].generation
    && OldOf(s, m).inFlight > 0 && OldOf(s, m).group < |s.groups|
    && s'.leases == s.leases - {lease}
    && s'.entries == s.entries[m.entry := s.entries[m.entry].(
         inFlight := s.entries[m.entry].inFlight - 1,
         retired := s.entries[m.entry].retired[m.slot := OldOf(s, m).(inFlight := OldOf(s, m).inFlight - 1)])]
    && (var g := OldOf(s, m).group;
        s'.groups == if OldOf(s, m).inFlight == 1
                     then s.groups[g := s.groups[g].(pendingDrains := s.groups[g].pendingDrains + 1)]
                     else s.groups)
    && s'.places == s.places && s'.nextRuntime == s.nextRuntime && s'.stopLog == s.stopLog
    && s'.packages == s.packages && s'.accepting == s.accepting
  }

  lemma RetiredReleasedSlots(s: State, s': State, lease: nat, m: Member)
    requires RetiredReleased(s, s', lease, m)
    ensures SameShape(s, s') && SameFlags(s, s') && SameOrders(s, s')
    ensures HasSlot(s', m) && OldOf(s', m).inFlight == OldOf(s, m).inFlight - 1
    ensures forall n :: n != m && HasSlot(s, n) ==> OldOf(s', n) == OldOf(s, n)
  {
  }

  lemma RetiredReleasedCounters(s: State, s': State, lease: nat, m: Member)
    requires EntriesInv(s) && CountersInv(s) && RetiredReleased(s, s', lease, m)
    ensures CountersInv(s')
  {
    RetiredReleasedSlots(s, s', lease, m);
    HoldersAfterDrop(s, s', lease);
    RetiredGenerationsOlder(s);
    assert EntryOk(s.entries[m.entry]);
    hide Holders, LeasesOn;
    forall n | HasSlot(s', n)
      ensures OldOf(s', n).inFlight == |Holders(s', n.entry, OldOf(s', n).generation)|
    {
      assert HasSlot(s, n);
      if n.entry == m.entry && n != m {
        assert OldOf(s, n).generation != OldOf(s, m).generation;
      }
    }
  }

  /** The release takes the member out of its group's busy members exactly when it drains it. */
  lemma RetiredReleasedBusy(s: State, s': State, lease: nat, m: Member, g: nat)
    requires RetiredReleased(s, s', lease, m) && g < |s.groups| && g < |s'.groups| && GroupOk(s, g)
    ensures OldOf(s, m).group == g && OldOf(s, m).inFlight == 1 && m in s.groups[g].order ==>
              m in Busy(s, g) && Busy(s', g) == Busy(s, g) - {m}
    ensures !(OldOf(s, m).group == g && OldOf(s, m).inFlight == 1) ==> Busy(s', g) == Busy(s, g)
  {
    RetiredReleasedSlots(s, s', lease, m);
    assert s'.groups[g].order == s.groups[g].order;
    assert OldOf(s, m).group != g ==> m !in s.groups[g].order;
    hide GroupOk, RetiredReleased;
    forall n ensures n in Busy(s', g) <==> n in Busy(s, g) && !(n == m && OldOf(s, m).inFlight == 1) {
    }
  }

  lemma RetiredReleasedGroup(s: State, s': State, lease: nat, m: Member, g: nat)
    requires RetiredReleased(s, s', lease, m) && g < |s.groups| && g < |s'.groups| && GroupOk(s, g) && DrainOk(s, g)
    requires OldOf(s, m).group == g ==> m in s.groups[g].order
    ensures DrainOk(s', g)
  {
    RetiredReleasedBusy(s, s', lease, m, g);
    hide Busy, GroupOk;
  }

  lemma RetiredReleasedDrain(s: State, s': State, lease: nat, m: Member)
    requires GroupsInv(s) && DrainInv(s) && RetiredReleased(s, s', lease, m)
    ensures DrainInv(s')
  {
    forall g: nat | g < |s'.groups| ensures DrainOk(s', g) {
      assert DrainOk(s, g) && GroupOk(s, g);
      assert OldOf(s, m).group == g ==> m in s.groups[g].order;
      hide GroupOk, DrainOk;
      RetiredReleasedGroup(s, s', lease, m, g);
    }
  }

  lemma RetiredReleasedStops(s: State, s': State, lease: nat, m: Member)
    requires MemberStops(s) && RetiredReleased(s, s', lease, m)
    ensures MemberStops(s')
  {
    RetiredReleasedSlots(s, s', lease, m);
    forall n | HasSlot(s', n) ensures MemberStopOk(s', n) {
      assert HasSlot(s, n) && MemberStopOk(s, n);
    }
  }

  lemma RetiredReleasedCore(s: State, s': State, lease: nat, m: Member)
    requires EntriesInv(s) && LeasesInv(s) && CountersInv(s) && GroupsInv(s) && DrainInv(s) && MemberStops(s)
             && GroupStops(s)
    requires RetiredReleased(s, s', lease, m)
    ensures LeasesInv(s') && CountersInv(s') && GroupsInv(s') && DrainInv(s') && MemberStops(s') && GroupStops(s')
    ensures SameShape(s, s')
  {
    RetiredReleasedSlots(s, s', lease, m);
    RetiredReleasedCounters(s, s', lease, m);
    RetiredReleasedDrain(s, s', lease, m);
    RetiredReleasedStops(s, s', lease, m);
    hide EntriesInv, CountersInv, GroupsInv, DrainInv, MemberStops, GroupStops;
    LeasesAfter(s, s');
    FrameGroups(s, s');
    FrameGroupStops(s, s');
  }

  lemma ReleaseRetiredKeeps(s: State, lease: nat)
    requires Inv(s) && Enabled(s, Release(lease))
    requires s.leases[lease].generation != s.entries[s.leases[lease].entry].generation
    ensures Inv(Apply(s, Release(lease)))
  {
    hide Inv, RetiredReleased, ReleaseFrames, SameShape;
    hide EntriesInv, LeasesInv, CountersInv, GroupsInv, DrainInv, PlacesInv;
    hide CandidateStops, CurrentStops, MemberStops, GroupStops;
    InvParts(s);
    var s' := AfterRelease(s, lease);
    var m := ReleasedMember(s, lease);
    IsRetiredReleased(s, lease, m);
    hide AfterRelease, DropLease, DrainedBy;
    RetiredReleasedCore(s, s', lease, m);
    RetiredReleaseFrames(s, s', lease, m);
    ReleasedPlaces(s, s');
    InvOf(s');
  }

  lemma ReleaseKeeps(s: State, lease: nat)
    requires Inv(s) && Enabled(s, Release(lease))
    ensures Inv(Apply(s, Release(lease)))
  {
    hide Inv;
    InvParts(s);
    hide Inv;
    if s.leases[lease].generation == s.entries[s.leases[lease].entry].generation {
      ReleaseCurrentKeeps(s, lease);
    } else {
      ReleaseRetiredKeeps(s, lease);
    }
  }

  // ---- draining and stopping a retired group ----

  /** Steps that change one group's counters and trigger only. */
  lemma GroupStepKeeps(s: State, g: nat, group: Group)
    requires Inv(s) && g < |s.groups|
    requires group == s.groups[g].(draining := group.draining, pendingDrains := group.pendingDrains,
                                   pendingChecks := group.pendingChecks, triggered := group.triggered)
    requires group.draining - group.pendingDrains == s.groups[g].draining - s.groups[g].pendingDrains
    requires group.triggered ==> group.draining == 0
    requires !group.triggered && group.draining == 0 ==> group.pendingChecks > 0
    requires s.groups[g].triggered ==> group.triggered
    ensures Inv(WithGroup(s, g, group))
  {
    hide Inv;
    InvParts(s);
    var s' := WithGroup(s, g, group);
    SameSlotsByEntries(s, s');
    GroupStepDrain(s, s', g, group);
    hide EntriesInv, LeasesInv, CountersInv, GroupsInv, DrainInv, PlacesInv;
    hide CandidateStops, CurrentStops, MemberStops, GroupStops;
    FrameGroups(s, s');
    FrameCounters(s, s');
    FramePlaces(s, s');
    LeasesAfter(s, s');
    FrameMemberStops(s, s');
    FrameGroupStops(s, s');
    GroupStepRest(s, s', g, group);
    InvOf(WithGroup(s, g, group));
  }

  lemma GroupStepRest(s: State, s': State, g: nat, group: Group)
    requires EntriesInv(s) && CandidateStops(s) && CurrentStops(s)
    requires g < |s.groups| && s' == WithGroup(s, g, group)
    ensures EntriesInv(s') && CandidateStops(s') && CurrentStops(s')
  {
  }

  lemma GroupStepDrain(s: State, s': State, g: nat, group: Group)
    requires DrainInv(s) && SameSlots(s, s') && g < |s.groups| && s' == WithGroup(s, g, group)
    requires group.order == s.groups[g].order && group.stopped == s.groups[g].stopped
    requires group.draining - group.pendingDrains == s.groups[g].draining - s.groups[g].pendingDrains
    requires group.triggered ==> group.draining == 0
    requires !group.triggered && group.draining == 0 ==> group.pendingChecks > 0
    requires s.groups[g].triggered ==> group.triggered
    ensures DrainInv(s')
  {
    forall h: nat | h < |s'.groups| ensures DrainOk(s', h) {
      assert DrainOk(s, h);
      assert Busy(s, h) == Busy(s', h);
    }
  }

  lemma DrainFacts(s: State, g: nat)
    requires DrainInv(s) && g < |s.groups|
    ensures s.groups[g].draining >= s.groups[g].pendingDrains
    ensures s.groups[g].triggered ==> s.groups[g].draining == 0
    ensures !s.groups[g].triggered && s.groups[g].draining == 0 ==> s.groups[g].pendingChecks > 0
  {
    assert DrainOk(s, g);
  }

  lemma MemberDrainedKeeps(s: State, g: nat)
    requires Inv(s) && Enabled(s, MemberDrained(g))
    ensures Inv(Apply(s, MemberDrained(g)))
  {
    hide Inv;
    InvParts(s);
    hide DrainInv;
    DrainFacts(s, g);
    hide Inv;
    var group := s.groups[g];
    GroupStepKeeps(s, g, group.(draining := group.draining - 1, pendingDrains := group.pendingDrains - 1,
                                pendingChecks := group.pendingChecks + 1));
  }

  lemma StopIfDrainedKeeps(s: State, g: nat)
    requires Inv(s) && Enabled(s, StopIfDrained(g))
    ensures Inv(Apply(s, StopIfDrained(g)))
  {
    InvParts(s);
    hide DrainInv;
    DrainFacts(s, g);
    hide Inv;
    var group := s.groups[g];
    GroupStepKeeps(s, g, group.(pendingChecks := group.pendingChecks - 1,
                                triggered := group.triggered || group.draining <= 0));
  }

  /** A call of stopRetiredRuntime on a drained member, and the group position after it. */
  ghost predicate RetiredStopped(s: State, s': State, m: Member) {
    && HasSlot(s, m) && OldOf(s, m).inFlight <= 0
    && SameShape(s, s') && HasSlot(s', m) && OldOf(s', m) == OldOf(s, m).(stopped := true)
    && (forall n :: n != m && HasSlot(s, n) ==> OldOf(s', n) == OldOf(s, n))
    && s'.stopLog == (if OldOf(s, m).stopped then s.stopLog else s.stopLog + [OldOf(s, m).runtime])
    && s'.leases == s.leases && SameCounters(s, s')
    && s'.places == s.places && s'.nextRuntime == s.nextRuntime
    && s'.packages == s.packages && s'.accepting == s.accepting
    && (forall id :: id in s.entries ==>
          && s'.entries[id].runtime == s.entries[id].runtime && s'.entries[id].phase == s.entries[id].phase
          && |s'.entries[id].retired| == |s.entries[id].retired|)
  }

  lemma StoppedCounters(s: State, s': State, m: Member)
    requires CountersInv(s) && RetiredStopped(s, s', m)
    ensures CountersInv(s')
  {
    forall id ensures LeasesOn(s, id) == LeasesOn(s', id) {}
    forall id, gen: nat ensures Holders(s, id, gen) == Holders(s', id, gen) {}
    hide LeasesOn, Holders;
    forall n | HasSlot(s', n)
      ensures OldOf(s', n).inFlight == |Holders(s', n.entry, OldOf(s', n).generation)|
    {
      assert HasSlot(s, n);
    }
  }

  lemma StoppedDrain(s: State, s': State, m: Member)
    requires DrainInv(s) && GroupsInv(s) && RetiredStopped(s, s', m)
    requires |s'.groups| == |s.groups|
    requires forall h: nat :: h < |s.groups| ==> s'.groups[h] == s.groups[h].(stopped := s'.groups[h].stopped)
    requires forall h: nat :: h < |s.groups| && s'.groups[h].stopped > 0 ==> s.groups[h].triggered
    ensures DrainInv(s')
  {
    forall h: nat | h < |s'.groups| ensures DrainOk(s', h) {
      assert DrainOk(s, h);
      assert Busy(s, h) == Busy(s', h);
    }
  }

  lemma StoppedMembers(s: State, s': State, m: Member)
    requires PlacesInv(s) && MemberStops(s) && RetiredStopped(s, s', m)
    ensures MemberStops(s')
  {
    forall n | HasSlot(s', n) ensures MemberStopOk(s', n) {
      assert HasSlot(s, n) && MemberStopOk(s, n) && MemberStopOk(s, m);
      DistinctRuntimes(s, m, n);
      StoppedMember(s, s', m, n);
    }
  }

  lemma DistinctRuntimes(s: State, m: Member, n: Member)
    requires PlacesInv(s) && HasSlot(s, m) && HasSlot(s, n)
    ensures m != n ==> OldOf(s, m).runtime != OldOf(s, n).runtime
  {
    assert s.places[OldOf(s, m).runtime] == Old(m) && s.places[OldOf(s, n).runtime] == Old(n);
  }

  lemma StoppedMember(s: State, s': State, m: Member, n: Member)
    requires RetiredStopped(s, s', m) && HasSlot(s, n) && MemberStopOk(s, n) && MemberStopOk(s, m) && HasSlot(s', n)
    requires m != n ==> OldOf(s, m).runtime != OldOf(s, n).runtime
    ensures MemberStopOk(s', n)
  {
    CountSnoc(s.stopLog, OldOf(s, m).runtime, OldOf(s, n).runtime);
  }

  lemma StoppedRest(s: State, s': State, m: Member)
    requires EntriesInv(s) && PlacesInv(s) && CandidateStops(s) && CurrentStops(s) && RetiredStopped(s, s', m)
    ensures EntriesInv(s') && PlacesInv(s') && CandidateStops(s') && CurrentStops(s')
  {
    FramePlaces(s, s');
    assert s.places[OldOf(s, m).runtime] == Old(m);
    forall id | id in s'.entries ensures EntryOk(s'.entries[id]) {
      assert EntryOk(s.entries[id]);
      forall i | 0 <= i < |s.entries[id].retired|
        ensures s'.entries[id].retired[i].generation == s.entries[id].retired[i].generation
      {
        assert HasSlot(s, Member(id, i)) && SameIdentity(OldOf(s, Member(id, i)), OldOf(s', Member(id, i)));
      }
    }
  }

  lemma StopRetiredIs(s: State, m: Member)
    requires MemberStops(s) && HasSlot(s, m) && OldOf(s, m).inFlight <= 0
    ensures RetiredStopped(s, AfterStopRetired(s, m), m)
  {
    var s' := AfterStopRetired(s, m);
    if OldOf(s, m).stopped {
      assert s' == s;
    } else {
      assert s'.entries == s.entries[m.entry := MarkStopped(s.entries[m.entry], m.slot)];
      forall n ensures HasSlot(s, n) == HasSlot(s', n) {}
    }
  }

  lemma ForceStopKeeps(s: State, m: Member)
    requires Inv(s) && Enabled(s, ForceStop(m))
    ensures Inv(Apply(s, ForceStop(m)))
  {
    InvParts(s);
    hide EntriesInv, LeasesInv, CountersInv, GroupsInv, DrainInv, PlacesInv;
    hide CandidateStops, CurrentStops, MemberStops, GroupStops;
    var s' := AfterStopRetired(s, m);
    StopRetiredIs(s, m);
    StoppedCounters(s, s', m);
    StoppedMembers(s, s', m);
    StoppedRest(s, s', m);
    LeasesAfter(s, s');
    FrameGroups(s, s');
    ForceStopDrain(s, s', m);
    ForceStopGroups(s, s');
  }

  lemma ForceStopGroups(s: State, s': State)
    requires GroupsInv(s') && !s'.accepting
    ensures GroupStops(s')
  {
  }

  lemma ForceStopDrain(s: State, s': State, m: Member)
    requires DrainInv(s) && GroupsInv(s) && RetiredStopped(s, s', m) && s'.groups == s.groups
    ensures DrainInv(s')
  {
    forall h: nat | h < |s.groups| && s'.groups[h].stopped > 0 ensures s.groups[h].triggered {
      assert DrainOk(s, h);
    }
    StoppedDrain(s, s', m);
  }

  lemma NoneBusy(s: State, g: nat)
    requires g < |s.groups| && |Busy(s, g)| == 0
    ensures forall m :: m in s.groups[g].order && HasSlot(s, m) ==> OldOf(s, m).inFlight <= 0
  {
    assert forall m :: m in s.groups[g].order && HasSlot(s, m) && OldOf(s, m).inFlight > 0 ==> m in Busy(s, g);
  }

  /** The next member in stop order of a triggered group has drained, and the source's loop stops it next. */
  lemma NextMemberReady(s: State, g: nat) returns (m: Member)
    requires GroupsInv(s) && DrainInv(s) && MemberStops(s) && CountersInv(s) && Enabled(s, StopNextMember(g))
    ensures m == s.groups[g].order[s.groups[g].stopped]
    ensures HasSlot(s, m) && OldOf(s, m).inFlight == 0 && OldOf(s, m).group == g
  {
    m := s.groups[g].order[s.groups[g].stopped];
    assert GroupOk(s, g) && DrainOk(s, g);
    NoneBusy(s, g);
  }

  lemma NextStopGroupsInv(s: State, s': State, g: nat, m: Member)
    requires GroupsInv(s) && RetiredStopped(s, s', m) && g < |s.groups| && s.groups[g].stopped < |s.groups[g].order|
    requires s'.groups == s.groups[g := s.groups[g].(stopped := s.groups[g].stopped + 1)]
    ensures GroupsInv(s')
  {
    forall h: nat | h < |s'.groups| ensures GroupOk(s', h) {
      assert GroupOk(s, h);
    }
  }

  lemma NextStopGroups(s: State, s': State, g: nat, m: Member)
    requires GroupsInv(s) && GroupStops(s) && PlacesInv(s) && RetiredStopped(s, s', m)
    requires Enabled(s, StopNextMember(g)) && m == s.groups[g].order[s.groups[g].stopped]
    requires OldOf(s, m).group == g
    requires s'.groups == s.groups[g := s.groups[g].(stopped := s.groups[g].stopped + 1)]
    ensures GroupsInv(s') && GroupStops(s')
  {
    NextStopGroupsInv(s, s', g, m);
    if s'.accepting {
      forall h: nat | h < |s'.groups| ensures GroupStopsOk(s', h) {
        assert GroupStopsOk(s, h) && GroupOk(s, h) && GroupOk(s, g) && GroupOk(s', h);
        NextStopOfGroup(s, s', g, m, h);
      }
    }
  }

  lemma NextStopOfGroup(s: State, s': State, g: nat, m: Member, h: nat)
    requires PlacesInv(s) && RetiredStopped(s, s', m)
    requires g < |s.groups| && h < |s.groups| && GroupOk(s, g) && GroupOk(s, h)
    requires Enabled(s, StopNextMember(g)) && m == s.groups[g].order[s.groups[g].stopped]
    requires GroupStopsOk(s, g) && GroupStopsOk(s, h) && OldOf(s, m).group == g
    requires s'.groups == s.groups[g := s.groups[g].(stopped := s.groups[g].stopped + 1)]
    requires h < |s'.groups| && GroupOk(s', h)
    ensures GroupStopsOk(s', h)
  {
    var pos := s.groups[g].stopped;
    assert !OldOf(s, m).stopped && OldOf(s, m).runtime == s.groups[g].runtimes[pos];
    if h == g {
      NextStopSame(s, s', g, m);
    } else {
      NextStopOther(s, s', m, h);
    }
  }

  lemma NextStopFlags(s: State, s': State, g: nat, m: Member, pos: nat)
    requires RetiredStopped(s, s', m) && g < |s.groups| && GroupOk(s, g) && pos < |s.groups[g].order|
             && m == s.groups[g].order[pos]
    requires forall k :: 0 <= k < |s.groups[g].order| ==> (OldOf(s, s.groups[g].order[k]).stopped <==> k < pos)
    ensures forall k :: 0 <= k < |s.groups[g].order| ==>
              HasSlot(s', s.groups[g].order[k]) && (OldOf(s', s.groups[g].order[k]).stopped <==> k < pos + 1)
  {
    var order := s.groups[g].order;
    forall k | 0 <= k < |order| ensures HasSlot(s', order[k]) && (OldOf(s', order[k]).stopped <==> k < pos + 1) {
      assert HasSlot(s, order[k]);
      if k != pos {
        assert order[k] != order[pos];
      }
    }
  }

  lemma NextStopLog(s: State, s': State, g: nat, m: Member, pos: nat)
    requires RetiredStopped(s, s', m) && g < |s.groups| && pos < |s.groups[g].runtimes|
    requires !OldOf(s, m).stopped && OldOf(s, m).runtime == s.groups[g].runtimes[pos]
    ensures var keep := set x | x in s.groups[g].runtimes;
      Filter(s'.stopLog, keep) == Filter(s.stopLog, keep) + [s.groups[g].runtimes[pos]]
    ensures s.groups[g].runtimes[..pos + 1] == s.groups[g].runtimes[..pos] + [s.groups[g].runtimes[pos]]
  {
    var keep := set x | x in s.groups[g].runtimes;
    FilterSnoc(s.stopLog, s.groups[g].runtimes[pos], keep);
    assert s.groups[g].runtimes[pos] in keep;
  }

  lemma NextStopSame(s: State, s': State, g: nat, m: Member)
    requires RetiredStopped(s, s', m) && g < |s.groups| && GroupOk(s, g) && GroupStopsOk(s, g)
    requires Enabled(s, StopNextMember(g)) && m == s.groups[g].order[s.groups[g].stopped]
    requires !OldOf(s, m).stopped && OldOf(s, m).runtime == s.groups[g].runtimes[s.groups[g].stopped]
    requires g < |s'.groups| && s'.groups[g] == s.groups[g].(stopped := s.groups[g].stopped + 1) && GroupOk(s', g)
    ensures GroupStopsOk(s', g)
  {
    var pos := s.groups[g].stopped;
    NextStopFlags(s, s', g, m, pos);
    NextStopLog(s, s', g, m, pos);
    hide RetiredStopped, GroupOk;
  }

  lemma NextStopOther(s: State, s': State, m: Member, h: nat)
    requires PlacesInv(s) && RetiredStopped(s, s', m) && h < |s.groups| && GroupOk(s, h) && GroupStopsOk(s, h)
    requires OldOf(s, m).group != h
    requires !OldOf(s, m).stopped && h < |s'.groups| && s'.groups[h] == s.groups[h] && GroupOk(s', h)
    ensures GroupStopsOk(s', h)
  {
    var group, rt := s.groups[h], OldOf(s, m).runtime;
    var keep := set x | x in group.runtimes;
    FilterSnoc(s.stopLog, rt, keep);
    forall k | 0 <= k < |group.order| ensures group.runtimes[k] != rt && group.order[k] != m {
      assert HasSlot(s, group.order[k]) && OldOf(s, group.order[k]).group == h;
      DistinctRuntimes(s, m, group.order[k]);
    }
    assert rt !in keep;
  }

  lemma NextStopDrain(s: State, s': State, g: nat, m: Member)
    requires DrainInv(s) && GroupsInv(s) && RetiredStopped(s, s', m) && Enabled(s, StopNextMember(g))
    requires s'.groups == s.groups[g := s.groups[g].(stopped := s.groups[g].stopped + 1)]
    ensures DrainInv(s')
  {
    forall h: nat | h < |s.groups| && s'.groups[h].stopped > 0 ensures s.groups[h].triggered {
      assert DrainOk(s, h);
    }
    StoppedDrain(s, s', m);
  }

  lemma NextStopIs(s: State, g: nat, m: Member)
    requires MemberStops(s) && Enabled(s, StopNextMember(g)) && m == s.groups[g].order[s.groups[g].stopped]
    requires HasSlot(s, m) && OldOf(s, m).inFlight <= 0
    ensures var s' := AfterStopNextMember(s, g);
      && RetiredStopped(s, s', m) && s'.leases == s.leases && SameShape(s, s')
      && s'.groups == s.groups[g := s.groups[g].(stopped := s.groups[g].stopped + 1)]
  {
    StopRetiredIs(s, m);
    hide AfterStopRetired, MemberStops;
  }

  lemma StoppedLeases(s: State, s': State, m: Member)
    requires LeasesInv(s) && RetiredStopped(s, s', m)
    ensures LeasesInv(s')
  {
    hide LeasesInv;
    LeasesAfter(s, s');
  }

  lemma StopNextMemberKeeps(s: State, g: nat)
    requires Inv(s) && Enabled(s, StopNextMember(g))
    ensures Inv(Apply(s, StopNextMember(g)))
  {
    hide Inv, RetiredStopped, SameShape;
    InvParts(s);
    hide EntriesInv, LeasesInv, CountersInv, GroupsInv, DrainInv, PlacesInv;
    hide CandidateStops, CurrentStops, MemberStops, GroupStops;
    var m := NextMemberReady(s, g);
    var s' := AfterStopNextMember(s, g);
    NextStopIs(s, g, m);
    hide AfterStopNextMember;
    StoppedCounters(s, s', m);
    StoppedMembers(s, s', m);
    StoppedRest(s, s', m);
    StoppedLeases(s, s', m);
    NextStopDrain(s, s', g, m);
    NextStopGroups(s, s', g, m);
    InvOf(s');
  }

  // ---- upgrading a package ----

  /** What an upgrade does to the entries, the retired versions and the groups. */
  ghost predicate Upgraded(s: State, s': State, ids: seq<EntryId>, targets: map<EntryId, Target>) {
    && Distinct(ids) && (forall id :: id in ids <==> id in targets)
    && (forall id :: id in ids ==> id in s.entries && CanLease(s.entries[id]))
    && s'.leases == s.leases && s'.stopLog == s.stopLog && s'.accepting == s.accepting
    && s'.packages == s.packages && s'.nextRuntime == s.nextRuntime
    && s'.entries.Keys == s.entries.Keys
    && (forall id :: id in s.entries ==>
          s'.entries[id] == if id in ids then SwapIn(s.entries[id], targets[id], |s.groups|) else s.entries[id])
    && s'.groups == s.groups + [NewGroup(s, ids)]
  }

  /** The retired version an upgrade creates for a component. */
  ghost function FreshMember(s: State, id: EntryId): Member
    requires id in s.entries
  {
    Member(id, |s.entries[id].retired|)
  }

  lemma UpgradeSlots(s: State, s': State, ids: seq<EntryId>, targets: map<EntryId, Target>)
    requires Upgraded(s, s', ids, targets)
    ensures forall m :: HasSlot(s, m) ==> HasSlot(s', m) && OldOf(s', m) == OldOf(s, m)
    ensures forall m :: HasSlot(s', m) && !HasSlot(s, m) ==> m.entry in ids && m == FreshMember(s, m.entry)
    ensures forall id :: id in ids ==>
      && HasSlot(s', FreshMember(s, id)) && !HasSlot(s, FreshMember(s, id))
      && OldOf(s', FreshMember(s, id)) ==
           Retired(s.entries[id].runtime.value, s.entries[id].generation, s.entries[id].currentInFlight, |s.groups|,
             false)
  {
  }

  lemma UpgradedEntryOk(s: State, s': State, ids: seq<EntryId>, targets: map<EntryId, Target>, id: EntryId)
    requires Upgraded(s, s', ids, targets) && id in s.entries && EntryOk(s.entries[id])
    ensures EntryOk(s'.entries[id])
  {
  }

  lemma UpgradedEntries(s: State, s': State, ids: seq<EntryId>, targets: map<EntryId, Target>)
    requires EntriesInv(s) && Upgraded(s, s', ids, targets)
    ensures EntriesInv(s')
  {
    hide EntryOk;
    forall id | id in s'.entries ensures EntryOk(s'.entries[id]) {
      UpgradedEntryOk(s, s', ids, targets, id);
    }
  }

  lemma UpgradedLeases(s: State, s': State, ids: seq<EntryId>, targets: map<EntryId, Target>)
    requires LeasesInv(s) && Upgraded(s, s', ids, targets)
    ensures LeasesInv(s')
  {
    UpgradeSlots(s, s', ids, targets);
    forall l | l in s'.leases ensures LeaseOk(s', s'.leases[l]) {
      var x := s.leases[l];
      assert LeaseOk(s, x);
      if LeaseOnCurrent(s, x) {
        if x.entry in ids {
          assert LeaseOnRetired(s', x, FreshMember(s, x.entry).slot);
        } else {
          assert LeaseOnCurrent(s', x);
        }
      } else {
        var slot: nat :| LeaseOnRetired(s, x, slot);
        assert LeaseOnRetired(s', x, slot);
      }
    }
  }

  lemma NoNewerHolders(s: State, id: EntryId)
    requires EntriesInv(s) && LeasesInv(s) && id in s.entries
    ensures Holders(s, id, s.entries[id].generation + 1) == {}
  {
    RetiredGenerationsOlder(s);
    forall l | l in s.leases && s.leases[l].entry == id
      ensures s.leases[l].generation <= s.entries[id].generation
    {
      var x := s.leases[l];
      assert LeaseOk(s, x);
      if !LeaseOnCurrent(s, x) {
        var slot: nat :| LeaseOnRetired(s, x, slot);
        assert HasSlot(s, Member(x.entry, slot));
      }
    }
  }

  lemma UpgradedEntryCounters(s: State, s': State, ids: seq<EntryId>, targets: map<EntryId, Target>, id: EntryId)
    requires EntriesInv(s) && LeasesInv(s) && CountersInv(s) && Upgraded(s, s', ids, targets) && id in s'.entries
    ensures s'.entries[id].inFlight == |LeasesOn(s', id)|
    ensures s'.entries[id].currentInFlight == |Holders(s', id, s'.entries[id].generation)|
  {
    assert LeasesOn(s, id) == LeasesOn(s', id);
    assert Holders(s, id, s'.entries[id].generation) == Holders(s', id, s'.entries[id].generation);
    NoNewerHolders(s, id);
  }

  lemma UpgradedSlotCounters(s: State, s': State, ids: seq<EntryId>, targets: map<EntryId, Target>, m: Member)
    requires CountersInv(s) && Upgraded(s, s', ids, targets) && HasSlot(s', m)
    ensures OldOf(s', m).inFlight == |Holders(s', m.entry, OldOf(s', m).generation)|
  {
    UpgradeSlots(s, s', ids, targets);
    assert Holders(s, m.entry, OldOf(s', m).generation) == Holders(s', m.entry, OldOf(s', m).generation);
    hide Holders, Upgraded;
    if !HasSlot(s, m) {
      assert m == FreshMember(s, m.entry);
    }
  }

  lemma UpgradedCounters(s: State, s': State, ids: seq<EntryId>, targets: map<EntryId, Target>)
    requires EntriesInv(s) && LeasesInv(s) && CountersInv(s) && Upgraded(s, s', ids, targets)
    ensures CountersInv(s')
  {
    hide Holders, LeasesOn, EntriesInv, LeasesInv, Upgraded;
    forall id | id in s'.entries
      ensures s'.entries[id].inFlight == |LeasesOn(s', id)|
      ensures s'.entries[id].currentInFlight == |Holders(s', id, s'.entries[id].generation)|
    {
      UpgradedEntryCounters(s, s', ids, targets, id);
    }
    forall m | HasSlot(s', m)
      ensures OldOf(s', m).inFlight == |Holders(s', m.entry, OldOf(s', m).generation)|
    {
      UpgradedSlotCounters(s, s', ids, targets, m);
    }
  }

  lemma KeptGroupOk(s: State, s': State, ids: seq<EntryId>, targets: map<EntryId, Target>, g: nat)
    requires Upgraded(s, s', ids, targets) && g < |s.groups| && GroupOk(s, g)
    ensures g < |s'.groups| && GroupOk(s', g)
  {
    UpgradeSlots(s, s', ids, targets);
  }

  lemma UpgradedSlotGroup(s: State, s': State, ids: seq<EntryId>, targets: map<EntryId, Target>, m: Member)
    requires GroupsInv(s) && Upgraded(s, s', ids, targets) && HasSlot(s', m)
    ensures OldOf(s', m).group < |s'.groups| && m in s'.groups[OldOf(s', m).group].order
  {
    UpgradeSlots(s, s', ids, targets);
    if HasSlot(s, m) {
      assert s'.groups[OldOf(s, m).group] == s.groups[OldOf(s, m).group];
    } else {
      FreshInOrder(s, ids, m.entry);
    }
  }

  lemma UpgradedGroups(s: State, s': State, ids: seq<EntryId>, targets: map<EntryId, Target>)
    requires GroupsInv(s) && Upgraded(s, s', ids, targets)
    ensures GroupsInv(s')
  {
    hide GroupOk;
    assert |s'.groups| == |s.groups| + 1;
    forall g: nat | g < |s'.groups| ensures GroupOk(s', g) {
      if g < |s.groups| {
        KeptGroupOk(s, s', ids, targets, g);
      } else {
        NewGroupOk(s, s', ids, targets);
      }
    }
    forall m | HasSlot(s', m)
      ensures OldOf(s', m).group < |s'.groups| && m in s'.groups[OldOf(s', m).group].order
    {
      UpgradedSlotGroup(s, s', ids, targets, m);
    }
  }

  lemma FreshInOrder(s: State, ids: seq<EntryId>, id: EntryId)
    requires forall x :: x in ids ==> x in s.entries && s.entries[x].runtime.Some?
    requires id in ids
    ensures FreshMember(s, id) in NewGroup(s, ids).order
  {
    var k :| 0 <= k < |ids| && ids[k] == id;
    assert NewGroup(s, ids).order[|ids| - 1 - k] == FreshMember(s, id);
  }

  lemma NewGroupAt(s: State, s': State, ids: seq<EntryId>, targets: map<EntryId, Target>, k: nat)
    requires Upgraded(s, s', ids, targets) && k < |ids|
    ensures var group := s'.groups[|s.groups|];
      && |group.order| == |group.runtimes| == |ids| && group.order[k] == FreshMember(s, ids[|ids| - 1 - k])
      && HasSlot(s', group.order[k]) && OldOf(s', group.order[k]).group == |s.groups|
      && OldOf(s', group.order[k]).runtime == group.runtimes[k]
  {
    UpgradeSlots(s, s', ids, targets);
    assert ids[|ids| - 1 - k] in ids;
    assert Reversed(ids)[k] == ids[|ids| - 1 - k];
  }

  lemma NewGroupOk(s: State, s': State, ids: seq<EntryId>, targets: map<EntryId, Target>)
    requires Upgraded(s, s', ids, targets)
    ensures GroupOk(s', |s.groups|)
  {
    var group := s'.groups[|s.groups|];
    assert group == NewGroup(s, ids);
    forall k | 0 <= k < |ids|
      ensures group.order[k] == FreshMember(s, ids[|ids| - 1 - k])
      ensures HasSlot(s', group.order[k]) && OldOf(s', group.order[k]).group == |s.groups|
      ensures OldOf(s', group.order[k]).runtime == group.runtimes[k]
    {
      NewGroupAt(s, s', ids, targets, k);
    }
  }

  /** The counter the swap loop computes is the number of busy members of the new group. */
  lemma {:induction false} CountBusyIsCard(s: State, ids: seq<EntryId>)
    requires Distinct(ids) && forall id :: id in ids ==> id in s.entries
    ensures CountBusy(s, ids) == |set id | id in ids && s.entries[id].currentInFlight > 0|
  {
    var busy := set id | id in ids && s.entries[id].currentInFlight > 0;
    if ids == [] {
      assert busy == {};
    } else {
      CountBusyIsCard(s, ids[1..]);
      var rest := set id | id in ids[1..] && s.entries[id].currentInFlight > 0;
      assert forall id :: id in ids <==> id == ids[0] || id in ids[1..];
      assert ids[0] !in ids[1..];
      assert busy == if s.entries[ids[0]].currentInFlight > 0 then rest + {ids[0]} else rest;
    }
  }

  lemma SameCard(s: State, a: set<EntryId>, b: set<Member>)
    requires forall id :: id in a ==> id in s.entries
    requires forall id :: id in a ==> FreshMember(s, id) in b
    requires forall m :: m in b ==> m.entry in a && m == FreshMember(s, m.entry)
    ensures |a| == |b|
    decreases |a|
  {
    if a != {} {
      var id :| id in a;
      SameCard(s, a - {id}, b - {FreshMember(s, id)});
    } else {
      assert b == {};
    }
  }

  lemma NewGroupBusy(s: State, s': State, ids: seq<EntryId>, targets: map<EntryId, Target>)
    requires Upgraded(s, s', ids, targets)
    ensures |Busy(s', |s.groups|)| == CountBusy(s, ids)
  {
    hide GroupOk;
    UpgradeSlots(s, s', ids, targets);
    CountBusyIsCard(s, ids);
    NewGroupOk(s, s', ids, targets);
    var a := set id | id in ids && s.entries[id].currentInFlight > 0;
    var b := Busy(s', |s.groups|);
    forall id | id in a ensures FreshMember(s, id) in b {
      FreshInOrder(s, ids, id);
    }
    forall m | m in b ensures m.entry in a && m == FreshMember(s, m.entry) {
      var k :| 0 <= k < |ids| && s'.groups[|s.groups|].order[k] == m;
      assert m == Member(Reversed(ids)[k], |s.entries[Reversed(ids)[k]].retired|);
      assert Reversed(ids)[k] in ids;
    }
    SameCard(s, a, b);
  }

  lemma UpgradedDrain(s: State, s': State, ids: seq<EntryId>, targets: map<EntryId, Target>)
    requires DrainInv(s) && GroupsInv(s) && Upgraded(s, s', ids, targets)
    ensures DrainInv(s')
  {
    UpgradeSlots(s, s', ids, targets);
    forall g: nat | g < |s'.groups| ensures DrainOk(s', g) {
      if g < |s.groups| {
        assert DrainOk(s, g) && GroupOk(s, g);
        assert Busy(s', g) == Busy(s, g);
      } else {
        NewGroupBusy(s, s', ids, targets);
      }
    }
  }

  /** Candidate runtimes, one for each component, become current; the current ones become retired. */
  ghost predicate Installs(s: State, s': State, ids: seq<EntryId>, targets: map<EntryId, Target>) {
    && Upgraded(s, s', ids, targets)
    && s'.places == SwappedPlaces(s, targets)
    && (forall id :: id in ids ==> targets[id].runtime in s.places && s.places[targets[id].runtime] == Candidate)
    && (forall id, id' :: id in ids && id' in ids && id != id' ==> targets[id].runtime != targets[id'].runtime)
  }

  lemma InstalledPlace(s: State, s': State, ids: seq<EntryId>, targets: map<EntryId, Target>, id: EntryId)
    requires PlacesInv(s) && Installs(s, s', ids, targets) && id in ids
    ensures targets[id].runtime in s'.places && s'.places[targets[id].runtime] == Current(id)
    ensures s.entries[id].runtime.value in s'.places
    ensures s'.places[s.entries[id].runtime.value] == Old(FreshMember(s, id))
  {
  }

  lemma KeptPlace(s: State, s': State, ids: seq<EntryId>, targets: map<EntryId, Target>, rt: RuntimeId)
    requires PlacesInv(s) && Installs(s, s', ids, targets) && rt in s.places && s.places[rt] != Candidate
    requires forall id :: id in ids ==> s.entries[id].runtime != Some(rt)
    ensures rt in s'.places && s'.places[rt] == s.places[rt]
  {
  }

  lemma UpgradedPlaces(s: State, s': State, ids: seq<EntryId>, targets: map<EntryId, Target>)
    requires PlacesInv(s) && Installs(s, s', ids, targets)
    ensures PlacesInv(s')
  {
    UpgradeSlots(s, s', ids, targets);
    forall id | id in s'.entries && s'.entries[id].runtime.Some?
      ensures s'.entries[id].runtime.value in s'.places && s'.places[s'.entries[id].runtime.value] == Current(id)
    {
      if id in ids {
        InstalledPlace(s, s', ids, targets, id);
      } else {
        KeptPlace(s, s', ids, targets, s.entries[id].runtime.value);
      }
    }
    forall m | HasSlot(s', m)
      ensures OldOf(s', m).runtime in s'.places && s'.places[OldOf(s', m).runtime] == Old(m)
    {
      if HasSlot(s, m) {
        KeptPlace(s, s', ids, targets, OldOf(s, m).runtime);
      } else {
        InstalledPlace(s, s', ids, targets, m.entry);
      }
    }
  }

  lemma UpgradedCandidates(s: State, s': State, ids: seq<EntryId>, targets: map<EntryId, Target>)
    requires PlacesInv(s) && CandidateStops(s) && CurrentStops(s) && Installs(s, s', ids, targets)
    ensures CandidateStops(s') && CurrentStops(s')
  {
    hide EntryOk;
  }

  lemma UpgradedMemberStops(s: State, s': State, ids: seq<EntryId>, targets: map<EntryId, Target>)
    requires MemberStops(s) && CurrentStops(s) && Upgraded(s, s', ids, targets)
    ensures MemberStops(s')
  {
    UpgradeSlots(s, s', ids, targets);
    forall m | HasSlot(s', m) ensures MemberStopOk(s', m) {
      if HasSlot(s, m) {
        assert MemberStopOk(s, m);
      } else {
        assert m == FreshMember(s, m.entry);
        CountZero(s.stopLog, s.entries[m.entry].runtime.value);
      }
    }
  }

  lemma UpgradedGroupStops(s: State, s': State, ids: seq<EntryId>, targets: map<EntryId, Target>)
    requires GroupsInv(s) && GroupsInv(s') && GroupStops(s) && CurrentStops(s) && Upgraded(s, s', ids, targets)
    ensures GroupStops(s')
  {
    UpgradeSlots(s, s', ids, targets);
    if s'.accepting {
      forall g: nat | g < |s'.groups| ensures GroupStopsOk(s', g) {
        if g < |s.groups| {
          assert GroupStopsOk(s, g) && GroupOk(s, g);
        } else {
          assert GroupOk(s', g);
          NewGroupStops(s, s', ids, targets);
        }
      }
    }
  }

  lemma NewGroupStops(s: State, s': State, ids: seq<EntryId>, targets: map<EntryId, Target>)
    requires CurrentStops(s) && Upgraded(s, s', ids, targets) && GroupOk(s', |s.groups|)
    ensures GroupStopsOk(s', |s.groups|)
  {
    UpgradeSlots(s, s', ids, targets);
    var group := s'.groups[|s.groups|];
    var n := |ids|;
    forall k | 0 <= k < n
      ensures group.runtimes[k] !in s.stopLog && !OldOf(s', group.order[k]).stopped
    {
      assert Reversed(ids)[k] in ids;
      assert group.order[k] == FreshMember(s, Reversed(ids)[k]);
    }
    FilterNone(s.stopLog, (set rt | rt in group.runtimes));
  }

  lemma UpgradeKeeps(s: State, pkg: string, targets: map<EntryId, Target>)
    requires Inv(s) && Enabled(s, Upgrade(pkg, targets))
    ensures Inv(Apply(s, Upgrade(pkg, targets)))
  {
    InvParts(s);
    hide EntriesInv, LeasesInv, CountersInv, GroupsInv, DrainInv, PlacesInv;
    hide CandidateStops, CurrentStops, MemberStops, GroupStops;
    var s' := AfterUpgrade(s, pkg, targets);
    var ids := s.packages[pkg];
    UpgradeInstalls(s, pkg, targets);
    UpgradedEntries(s, s', ids, targets);
    UpgradedLeases(s, s', ids, targets);
    UpgradedCounters(s, s', ids, targets);
    UpgradedGroups(s, s', ids, targets);
    UpgradedDrain(s, s', ids, targets);
    UpgradedPlaces(s, s', ids, targets);
    UpgradedCandidates(s, s', ids, targets);
    UpgradedMemberStops(s, s', ids, targets);
    UpgradedGroupStops(s, s', ids, targets);
  }

  lemma UpgradeInstalls(s: State, pkg: string, targets: map<EntryId, Target>)
    requires CanUpgrade(s, pkg, targets)
    ensures Installs(s, AfterUpgrade(s, pkg, targets), s.packages[pkg], targets)
  {
    assert forall id :: id in targets <==> id in s.packages[pkg];
  }

  // ---- every reachable state ----

  lemma StepKeeps(s: State, a: Action)
    requires Inv(s) && Enabled(s, a)
    ensures Inv(Apply(s, a))
  {
    hide Inv;
    match a
    case Register(id, manifest, host) => RegisterKeeps(s, id, manifest, host);
    case RegisterPackage(pkg, ids) => PlainStepKeeps(s, a);
    case Rollback(pkgs, ids) => RollbackKeeps(s, pkgs, ids);
    case StartLoading(id) => StartLoadingKeeps(s, id);
    case FinishLoading(id, outcome) => FinishLoadingKeeps(s, id, outcome);
    case Acquire(id, lease) => AcquireKeeps(s, id, lease);
    case InvokeError(lease) => InvokeErrorKeeps(s, lease);
    case Release(lease) => ReleaseKeeps(s, lease);
    case MemberDrained(g) => MemberDrainedKeeps(s, g);
    case StopIfDrained(g) => StopIfDrainedKeeps(s, g);
    case StopNextMember(g) => StopNextMemberKeeps(s, g);
    case StartUnloading(id) => StartUnloadingKeeps(s, id);
    case FinishUnloading(id, ok) => FinishUnloadingKeeps(s, id, ok);
    case RecoverEmpty(id) => RecoverEmptyKeeps(s, id);
    case LoadCandidate => PlainStepKeeps(s, a);
    case StopCandidate(rt) => StopCandidateKeeps(s, rt);
    case Upgrade(pkg, targets) => UpgradeKeeps(s, pkg, targets);
    case BeginShutdown => PlainStepKeeps(s, a);
    case ForceStop(m) => ForceStopKeeps(s, m);
  }

  /** Entries, places and stops are as they were. */
  lemma SamePlaces(s: State, s': State)
    requires PlacesInv(s) && CandidateStops(s)
    requires s'.entries == s.entries && s'.places == s.places && s'.nextRuntime == s.nextRuntime
             && s'.stopLog == s.stopLog
    ensures PlacesInv(s') && CandidateStops(s')
  {
    SameSlotsByEntries(s, s');
    FramePlaces(s, s');
    hide PlacesInv;
  }

  lemma CandidatePlaces(s: State, s': State)
    requires PlacesInv(s) && CandidateStops(s)
    requires s' == s.(nextRuntime := s.nextRuntime + 1, places := s.places[s.nextRuntime := Candidate])
    ensures PlacesInv(s') && CandidateStops(s')
  {
    SameSlotsByEntries(s, s');
  }

  lemma PlainEntries(s: State, a: Action)
    requires EntriesInv(s) && Enabled(s, a) && (a.RegisterPackage? || a.LoadCandidate? || a.BeginShutdown?)
    ensures EntriesInv(Apply(s, a))
  {
    hide EntryOk;
  }

  lemma PlainStepKeeps(s: State, a: Action)
    requires Inv(s) && Enabled(s, a) && (a.RegisterPackage? || a.LoadCandidate? || a.BeginShutdown?)
    ensures Inv(Apply(s, a))
  {
    hide Inv;
    InvParts(s);
    hide EntriesInv, LeasesInv, CountersInv, GroupsInv, DrainInv, PlacesInv;
    hide CandidateStops, CurrentStops, MemberStops, GroupStops;
    PlainEntries(s, a);
    if a.LoadCandidate? {
      CandidatePlaces(s, Apply(s, a));
    } else {
      SamePlaces(s, Apply(s, a));
    }
    BookkeepingKeeps(s, Apply(s, a));
  }

  lemma InvInit()
    ensures Inv(INIT)
  {
    assert forall g, m :: 0 <= g < |INIT.groups| ==> m !in INIT.groups[g].order;
  }

  lemma {:induction false} InvAlong(states: seq<State>, acts: seq<Action>, k: nat)
    requires Behaviour(states, acts) && k < |states|
    ensures Inv(states[k])
  {
    hide Inv, Apply, Enabled;
    if k == 0 {
      InvInit();
    } else {
      InvAlong(states, acts, k - 1);
      StepAt(states, acts, k - 1);
      StepKeeps(states[k - 1], acts[k - 1]);
    }
  }

  lemma ReachableInv(s: State)
    requires Reachable(s)
    ensures Inv(s)
  {
    hide Inv;
    var states, acts :| Behaviour(states, acts) && states[|acts|] == s;
    InvAlong(states, acts, |acts|);
  }
}
