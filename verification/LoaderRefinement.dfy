/** The object-level upgrade does what the state machine's one upgrade step does. */
module LoaderRefinement {
  import opened Common
  import opened LoaderEntry
  import opened LoaderSystem
  import opened LoaderObjects

  /** The views are those of the package's components. */
  ghost predicate ViewsOf(s: State, ids: seq<EntryId>, views: seq<EntryView>) {
    |views| == |ids| && forall i :: 0 <= i < |ids| ==> ids[i] in s.entries && views[i] == s.entries[ids[i]]
  }

  ghost predicate TargetsOf(ids: seq<EntryId>, list: seq<Target>, targets: map<EntryId, Target>) {
    |list| == |ids| && forall i :: 0 <= i < |ids| ==> ids[i] in targets && targets[ids[i]] == list[i]
  }

  lemma {:induction false} CountBusySnoc(s: State, ids: seq<EntryId>, id: EntryId)
    requires id in s.entries && forall x :: x in ids ==> x in s.entries
    ensures CountBusy(s, ids + [id]) == CountBusy(s, ids) + if s.entries[id].currentInFlight > 0 then 1 else 0
  {
    if ids == [] {
      assert ids + [id] == [id];
    } else {
      CountBusySnoc(s, ids[1..], id);
      assert (ids + [id])[1..] == ids[1..] + [id];
    }
  }

  lemma {:induction false} BusyCounts(s: State, ids: seq<EntryId>, views: seq<EntryView>)
    requires ViewsOf(s, ids, views)
    ensures BusyCount(views) == CountBusy(s, ids)
  {
    if ids != [] {
      var n := |ids| - 1;
      assert forall x :: x in ids[..n] ==> x in ids;
      BusyCounts(s, ids[..n], views[..n]);
      CountBusySnoc(s, ids[..n], ids[n]);
      assert ids == ids[..n] + [ids[n]];
    }
  }

  /**
   When the loop over the locked entries succeeds, the entries it leaves are those of the state machine's
   upgrade step, and the group it makes has that step's draining count and stop order.
   */
  lemma {:induction false} UpgradeIsOneStep(s: State, pkg: string, targets: map<EntryId, Target>, list: seq<Target>,
                         before: seq<EntryView>, after: seq<EntryView>, draining: nat, order: seq<RuntimeId>)
    requires CanUpgrade(s, pkg, targets) && ViewsOf(s, s.packages[pkg], before)
             && TargetsOf(s.packages[pkg], list, targets)
    requires Moved(before, after, list, |s.groups|, |before|) && draining == BusyCount(before)
    requires |order| == |before| && forall k :: 0 <= k < |before| ==> before[|before| - 1 - k].runtime == Some(order[k])
    ensures ViewsOf(AfterUpgrade(s, pkg, targets), s.packages[pkg], after)
    ensures var groups := AfterUpgrade(s, pkg, targets).groups;
      |groups| == |s.groups| + 1 && groups[|s.groups|].draining == draining && groups[|s.groups|].runtimes == order
  {
    var ids := s.packages[pkg];
    BusyCounts(s, ids, before);
    OrderIs(s, ids, before, order);
    hide Reversed, Runtimes, Members, CountBusy, BusyCount, SwapIn, Swapped, SwappedPlaces, CanLease;
    forall i | 0 <= i < |ids|
      ensures ids[i] in AfterUpgrade(s, pkg, targets).entries
              && after[i] == AfterUpgrade(s, pkg, targets).entries[ids[i]]
    {
      assert before[i] == s.entries[ids[i]] && targets[ids[i]] == list[i];
      SwapInIs(before[i], after[i], list[i], |s.groups|);
    }
  }

  lemma {:induction false} OrderIs(s: State, ids: seq<EntryId>, before: seq<EntryView>, order: seq<RuntimeId>)
    requires ViewsOf(s, ids, before) && |order| == |before|
    requires forall k :: 0 <= k < |before| ==> before[|before| - 1 - k].runtime == Some(order[k])
    ensures (forall id :: id in ids ==> id in s.entries && s.entries[id].runtime.Some?)
    ensures (forall id :: id in Reversed(ids) ==> id in s.entries && s.entries[id].runtime.Some?)
    ensures Runtimes(s, Reversed(ids)) == order
  {
    forall i | 0 <= i < |ids| ensures ids[i] in s.entries && s.entries[ids[i]].runtime == Some(order[|ids| - 1 - i]) {
      var k := |ids| - 1 - i;
      assert before[|before| - 1 - k].runtime == Some(order[k]);
    }
  }
}
