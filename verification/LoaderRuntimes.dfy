/** No runtime is lost: each one ever loaded is held somewhere or has been stopped. */
module LoaderRuntimes {
  import opened Common
  import opened LoaderEntry
  import opened LoaderSystem
  import opened LoaderInvariant

  /** A runtime waits for its upgrade, is an entry's current one or one of its old ones, or was stopped. */
  ghost predicate Placed(s: State, rt: RuntimeId) {
    && rt in s.places
    && match s.places[rt]
       case Candidate => true
       case Current(id) => id in s.entries && s.entries[id].runtime == Some(rt)
       case Old(m) => HasSlot(s, m) && OldOf(s, m).runtime == rt
       case Gone => rt in s.stopLog
  }

  /** An entry that is unloading has its stop behind it. */
  ghost predicate StopsFirst(s: State, id: EntryId)
    requires id in s.entries
  {
    s.entries[id].phase == Unloading ==> s.entries[id].runtime.Some? && s.entries[id].runtime.value in s.stopLog
  }

  ghost predicate NoneLost(s: State) {
    && (forall rt: nat :: rt < s.nextRuntime ==> Placed(s, rt))
    && (forall id :: id in s.entries ==> StopsFirst(s, id))
  }

  /** No runtime moves, and stops only come on top. */
  ghost predicate NothingMoves(s: State, s': State) {
    && s'.places == s.places && s'.nextRuntime == s.nextRuntime
    && (forall rt :: rt in s.stopLog ==> rt in s'.stopLog)
    && (forall id :: id in s.entries && (s.entries[id].runtime.Some? || s.entries[id].retired != []) ==>
          id in s'.entries && s'.entries[id].runtime == s.entries[id].runtime)
    && (forall m :: HasSlot(s, m) ==> HasSlot(s', m) && OldOf(s', m).runtime == OldOf(s, m).runtime)
    && (forall id :: id in s'.entries && s'.entries[id].phase == Unloading ==>
          s'.entries[id].runtime.Some? &&
          (s'.entries[id].runtime.value in s'.stopLog ||
           (id in s.entries && s.entries[id].phase == Unloading && s'.entries[id].runtime == s.entries[id].runtime)))
  }

  lemma NothingMovesKeeps(s: State, s': State)
    requires NoneLost(s) && NothingMoves(s, s')
    ensures NoneLost(s')
  {
    forall rt: nat | rt < s'.nextRuntime ensures Placed(s', rt) {
      assert Placed(s, rt);
    }
    forall id | id in s'.entries ensures StopsFirst(s', id) {
      assert id in s.entries ==> StopsFirst(s, id);
    }
  }

  lemma EntryStays(s: State, id: EntryId, e: EntryView)
    requires EntriesInv(s) && NoneLost(s)
    requires if id in s.entries then e.runtime == s.entries[id].runtime && e.retired == s.entries[id].retired else true
    requires e.phase == Unloading ==> id in s.entries && s.entries[id].phase == Unloading
    ensures NoneLost(WithEntry(s, id, e))
  {
    assert id in s.entries ==> EntryOk(s.entries[id]);
    NothingMovesKeeps(s, WithEntry(s, id, e));
  }

  lemma LoadingLoses(s: State, id: EntryId, outcome: LoadOutcome)
    requires EntriesInv(s) && PlacesInv(s) && NoneLost(s) && Enabled(s, FinishLoading(id, outcome))
    ensures NoneLost(AfterLoading(s, id, outcome))
  {
    assert EntryOk(s.entries[id]);
    var s' := AfterLoading(s, id, outcome);
    forall rt: nat | rt < s'.nextRuntime ensures Placed(s', rt) {
      assert rt < s.nextRuntime ==> Placed(s, rt);
    }
    forall other | other in s'.entries ensures StopsFirst(s', other) {
      assert StopsFirst(s, other);
    }
  }

  /** A step on one entry that keeps its runtimes. */
  lemma EntryKept(s: State, id: EntryId, e: EntryView)
    requires NoneLost(s) && id in s.entries
    requires e.runtime == s.entries[id].runtime && e.phase == s.entries[id].phase
    requires |e.retired| == |s.entries[id].retired|
    requires forall k :: 0 <= k < |e.retired| ==> e.retired[k].runtime == s.entries[id].retired[k].runtime
    ensures NoneLost(WithEntry(s, id, e))
  {
    hide NoneLost;
    EntryMovesNothing(s, id, e);
    hide NothingMoves, WithEntry;
    NothingMovesKeeps(s, WithEntry(s, id, e));
  }

  lemma EntryMovesNothing(s: State, id: EntryId, e: EntryView)
    requires NoneLost(s) && id in s.entries
    requires e.runtime == s.entries[id].runtime && e.phase == s.entries[id].phase
    requires |e.retired| == |s.entries[id].retired|
    requires forall k :: 0 <= k < |e.retired| ==> e.retired[k].runtime == s.entries[id].retired[k].runtime
    ensures NothingMoves(s, WithEntry(s, id, e))
  {
    assert forall other :: other in s.entries ==> StopsFirst(s, other);
  }

  lemma ReleaseLoses(s: State, lease: nat)
    requires NoneLost(s) && Enabled(s, Release(lease))
    ensures NoneLost(AfterRelease(s, lease))
  {
    var l := s.leases[lease];
    var e := DropLease(s.entries[l.entry], l.generation);
    EntryKept(s, l.entry, e);
    hide NoneLost, DropLease;
    SameLost(WithEntry(s, l.entry, e), AfterRelease(s, lease));
  }

  lemma AcquireLoses(s: State, id: EntryId, lease: nat)
    requires EntriesInv(s) && NoneLost(s) && Enabled(s, Acquire(id, lease))
    ensures NoneLost(AfterAcquire(s, id, lease))
  {
    assert forall other :: other in s.entries ==> EntryOk(s.entries[other]);
    NothingMovesKeeps(s, AfterAcquire(s, id, lease));
  }

  lemma StopLoses(s: State, m: Member)
    requires NoneLost(s) && HasSlot(s, m)
    ensures NoneLost(AfterStopRetired(s, m))
  {
    if !OldOf(s, m).stopped {
      var e := MarkStopped(s.entries[m.entry], m.slot);
      EntryKept(s, m.entry, e);
      hide NoneLost, MarkStopped;
      SameLost(WithEntry(s, m.entry, e), AfterStopRetired(s, m));
    }
  }

  lemma NextStopLoses(s: State, g: nat)
    requires NoneLost(s) && Enabled(s, StopNextMember(g))
    ensures NoneLost(AfterStopNextMember(s, g))
  {
    var stopped := AfterStopRetired(s, s.groups[g].order[s.groups[g].stopped]);
    StopLoses(s, s.groups[g].order[s.groups[g].stopped]);
    hide AfterStopRetired;
    SameLost(stopped, AfterStopNextMember(s, g));
  }

  lemma SameLost(s: State, s': State)
    requires NoneLost(s)
    requires s'.entries == s.entries && s'.places == s.places && s'.nextRuntime == s.nextRuntime
    requires forall rt :: rt in s.stopLog ==> rt in s'.stopLog
    ensures NoneLost(s')
  {
    forall rt: nat | rt < s'.nextRuntime ensures Placed(s', rt) {
      assert Placed(s, rt);
    }
    forall id | id in s'.entries ensures StopsFirst(s', id) {
      assert StopsFirst(s, id);
    }
  }

  lemma StartUnloadingLoses(s: State, id: EntryId)
    requires EntriesInv(s) && NoneLost(s) && Enabled(s, StartUnloading(id))
    ensures NoneLost(AfterStartUnloading(s, id))
  {
    assert forall other :: other in s.entries ==> EntryOk(s.entries[other]);
    NothingMovesKeeps(s, AfterStartUnloading(s, id));
  }

  lemma FinishUnloadingLoses(s: State, id: EntryId, ok: bool)
    requires PlacesInv(s) && NoneLost(s) && Enabled(s, FinishUnloading(id, ok))
    ensures NoneLost(AfterFinishUnloading(s, id, ok))
  {
    assert StopsFirst(s, id);
    var s' := AfterFinishUnloading(s, id, ok);
    forall rt: nat | rt < s'.nextRuntime ensures Placed(s', rt) {
      assert Placed(s, rt);
    }
    forall other | other in s'.entries ensures StopsFirst(s', other) {
      assert StopsFirst(s, other);
    }
  }

  lemma CandidateLoses(s: State, a: Action)
    requires NoneLost(s) && Enabled(s, a) && (a.LoadCandidate? || a.StopCandidate?)
    ensures NoneLost(Apply(s, a))
  {
    var s' := Apply(s, a);
    forall rt: nat | rt < s'.nextRuntime ensures Placed(s', rt) {
      assert rt < s.nextRuntime ==> Placed(s, rt);
    }
    forall other | other in s'.entries ensures StopsFirst(s', other) {
      assert StopsFirst(s, other);
    }
  }

  lemma RollbackLoses(s: State, pkgs: set<string>, ids: set<EntryId>)
    requires EntriesInv(s) && NoneLost(s) && CanRollBack(s, pkgs, ids)
    ensures NoneLost(Apply(s, Rollback(pkgs, ids)))
  {
    assert forall other :: other in s.entries ==> EntryOk(s.entries[other]);
    NothingMovesKeeps(s, Apply(s, Rollback(pkgs, ids)));
  }

  lemma UpgradeLoses(s: State, pkg: string, targets: map<EntryId, Target>)
    requires EntriesInv(s) && PlacesInv(s) && NoneLost(s) && CanUpgrade(s, pkg, targets)
    ensures NoneLost(AfterUpgrade(s, pkg, targets))
  {
    var s', ids := AfterUpgrade(s, pkg, targets), s.packages[pkg];
    UpgradeInstalls(s, pkg, targets);
    UpgradeSlots(s, s', ids, targets);
    hide AfterUpgrade, EntriesInv, NoneLost;
    forall rt: nat | rt < s'.nextRuntime ensures Placed(s', rt) {
      UpgradedPlaced(s, s', ids, targets, rt) by {
        StillPlaced(s, rt);
      }
    }
    forall id | id in s'.entries ensures StopsFirst(s', id) {
      UnloadingStays(s, s', ids, targets, id);
    }
    NoneLostBy(s');
  }

  lemma NoneLostBy(s: State)
    requires forall rt: nat :: rt < s.nextRuntime ==> Placed(s, rt)
    requires forall id :: id in s.entries ==> StopsFirst(s, id)
    ensures NoneLost(s)
  {
  }

  lemma StillPlaced(s: State, rt: nat)
    requires NoneLost(s) && rt < s.nextRuntime
    ensures Placed(s, rt)
  {
  }

  lemma UnloadingStays(s: State, s': State, ids: seq<EntryId>, targets: map<EntryId, Target>, id: EntryId)
    requires NoneLost(s) && Installs(s, s', ids, targets) && id in s'.entries
    ensures StopsFirst(s', id)
  {
    assert StopsFirst(s, id);
  }

  lemma UpgradedPlaced(s: State, s': State, ids: seq<EntryId>, targets: map<EntryId, Target>, rt: RuntimeId)
    requires PlacesInv(s) && Installs(s, s', ids, targets) && Placed(s, rt)
    ensures Placed(s', rt)
  {
    UpgradeSlots(s, s', ids, targets);
    if id :| id in ids && targets[id].runtime == rt {
      InstalledPlace(s, s', ids, targets, id);
    } else if id :| id in ids && s.entries[id].runtime == Some(rt) {
      InstalledPlace(s, s', ids, targets, id);
    } else if s.places[rt] != Candidate {
      KeptPlace(s, s', ids, targets, rt);
    } else {
      CandidateStays(s, s', ids, targets, rt);
    }
  }

  lemma CandidateStays(s: State, s': State, ids: seq<EntryId>, targets: map<EntryId, Target>, rt: RuntimeId)
    requires Installs(s, s', ids, targets) && rt in s.places && s.places[rt] == Candidate
    requires forall id :: id in ids ==> targets[id].runtime != rt
    ensures rt in s'.places && s'.places[rt] == Candidate
  {
  }

  lemma StepLoses(s: State, a: Action)
    requires EntriesInv(s) && PlacesInv(s) && NoneLost(s) && Enabled(s, a)
    ensures NoneLost(Apply(s, a))
  {
    hide NoneLost, EntriesInv, PlacesInv, AfterLoading, AfterAcquire, AfterRelease, AfterStopRetired;
    hide AfterStopNextMember, AfterStartUnloading, AfterFinishUnloading, AfterUpgrade, WithEntry;
    match a
    case Register(id, manifest, host) => EntryStays(s, id, NewEntry(manifest, host));
    case Rollback(pkgs, ids) => RollbackLoses(s, pkgs, ids);
    case StartLoading(id) => EntryStays(s, id, s.entries[id].(phase := Loading));
    case FinishLoading(id, outcome) => LoadingLoses(s, id, outcome);
    case Acquire(id, lease) => AcquireLoses(s, id, lease);
    case InvokeError(lease) =>
      var l := s.leases[lease];
      EntryStays(s, l.entry, AfterInvokeError(s.entries[l.entry], l.generation));
    case Release(lease) => ReleaseLoses(s, lease);
    case StopNextMember(g) => NextStopLoses(s, g);
    case StartUnloading(id) => StartUnloadingLoses(s, id);
    case FinishUnloading(id, ok) => FinishUnloadingLoses(s, id, ok);
    case RecoverEmpty(id) => EntryStays(s, id, s.entries[id].(phase := Registered));
    case LoadCandidate => CandidateLoses(s, a);
    case StopCandidate(rt) => CandidateLoses(s, a);
    case Upgrade(pkg, targets) => UpgradeLoses(s, pkg, targets);
    case ForceStop(m) => StopLoses(s, m);
    case _ => SameLost(s, Apply(s, a));
  }

  lemma {:induction false} NoneLostAlong(states: seq<State>, acts: seq<Action>, k: nat)
    requires Behaviour(states, acts) && k < |states|
    ensures NoneLost(states[k])
  {
    if k > 0 {
      hide NoneLost, Apply, Enabled;
      NoneLostAlong(states, acts, k - 1);
      InvAlong(states, acts, k - 1);
      InvParts(states[k - 1]);
      StepAt(states, acts, k - 1);
      StepLoses(states[k - 1], acts[k - 1]);
    }
  }

  /**
   Conservation of runtimes: in every reachable state each runtime ever loaded waits for its upgrade,
   is the current or a retired one of the entry its place names, or has been stopped.
   */
  lemma NoRuntimeIsLost(s: State, rt: RuntimeId)
    requires Reachable(s) && rt < s.nextRuntime
    ensures rt in s.places
    ensures s.places[rt].Current? ==>
              s.places[rt].entry in s.entries && s.entries[s.places[rt].entry].runtime == Some(rt)
    ensures s.places[rt].Old? ==> HasSlot(s, s.places[rt].member) && OldOf(s, s.places[rt].member).runtime == rt
    ensures s.places[rt].Gone? ==> rt in s.stopLog
  {
    var states, acts :| Behaviour(states, acts) && states[|acts|] == s;
    NoneLostAlong(states, acts, |acts|);
    assert Placed(s, rt);
  }
}
