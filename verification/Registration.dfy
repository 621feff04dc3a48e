/** Registering installed packages: every step is undone when a later one fails. */
module Registration {
  import opened Common
  import opened LoaderEntry

  datatype Record = Record(runtime: Manifest, packageId: string, componentId: string, order: int)

  datatype Component = Component(id: EntryId, order: int)

  datatype Capability = Capability(spec: CapabilitySpec, handler: EntryId)

  datatype Error =
    | InvalidRecord
    | InvalidManifest
    | NoHost
    | DuplicateId
    | InvalidSpec
    | NotFound
    | ShuttingDown
    | Unavailable

  /** What other parts decide: valid manifests, specs and schemas, and which candidate hosts serve a manifest. */
  datatype Checks = Checks(manifest: Manifest -> bool, spec: CapabilitySpec -> bool, schema: CapabilitySpec -> bool,
                           candidates: Manifest -> seq<nat>, verify: (nat, Manifest) -> bool)

  // ---- specification ----

  ghost predicate ValidGroups(records: seq<Record>) {
    && (forall i :: 0 <= i < |records| ==>
          IsStableId(records[i].packageId) && IsStableId(records[i].componentId) && records[i].order >= 0)
    && (forall i, j :: 0 <= i < j < |records| && records[i].packageId == records[j].packageId ==>
          records[i].componentId != records[j].componentId && records[i].order != records[j].order)
  }

  /** A provider's capabilities carry its own version; an executor has none. */
  ghost predicate ValidRecord(checks: Checks, r: Record) {
    && IsStableId(r.packageId) && IsStableId(r.componentId)
    && (r.runtime.packageId != "" ==> r.runtime.packageId == r.packageId)
    && checks.manifest(r.runtime)
    && (r.runtime.role == Executor ==> r.runtime.capabilities == [])
    && (r.runtime.role == Provider ==>
          r.runtime.capabilities != [] &&
          forall i :: 0 <= i < |r.runtime.capabilities| ==> r.runtime.capabilities[i].version == r.runtime.version)
  }

  ghost function Manifests(records: seq<Record>): (r: seq<Manifest>)
    ensures |r| == |records|
    ensures forall i :: 0 <= i < |r| ==> r[i] == records[i].runtime
  {
    seq(|records|, i requires 0 <= i < |records| => records[i].runtime)
  }

  ghost predicate Batchable(checks: Checks, accepting: bool, entries: map<EntryId, EntryView>, ms: seq<Manifest>) {
    && 0 < |ms| <= 4096 && accepting && Bindable(checks, ms)
    && forall i :: 0 <= i < |ms| ==> ms[i].id !in entries
  }

  /** A new entry, field by field: registered under its only host, without a runtime, a lease or an earlier version. */
  ghost predicate Fresh(checks: Checks, m: Manifest, e: EntryView) {
    && e.manifest == m && Some(e.host) == HostOf(checks, m) && e.phase == Registered && e.runtime.None?
    && e.generation == 0 && e.inFlight == 0 && e.currentInFlight == 0 && e.retired == []
  }

  /** The fresh entries of a batch. */
  ghost function Published(checks: Checks, ms: seq<Manifest>): (r: map<EntryId, EntryView>)
    requires forall m :: m in ms ==> HostOf(checks, m).Some?
  {
    if ms == [] then map[]
    else
      var last := ms[|ms| - 1];
      Published(checks, ms[..|ms| - 1])[last.id := NewEntry(last, HostOf(checks, last).value)]
  }

  lemma {:induction false} PublishedAt(checks: Checks, ms: seq<Manifest>)
    requires Bindable(checks, ms)
    ensures forall id :: id in Published(checks, ms) <==> exists i :: 0 <= i < |ms| && ms[i].id == id
    ensures forall i :: 0 <= i < |ms| ==>
              Published(checks, ms)[ms[i].id] == NewEntry(ms[i], HostOf(checks, ms[i]).value)
  {
    hide HostOf, NewEntry;
    if ms != [] {
      var before := ms[..|ms| - 1];
      PublishedAt(checks, before);
      assert forall i :: 0 <= i < |before| ==> before[i] == ms[i];
      forall id | id in Published(checks, ms) ensures exists i :: 0 <= i < |ms| && ms[i].id == id {
        if id in Published(checks, before) {
          var i :| 0 <= i < |before| && before[i].id == id;
          assert ms[i].id == id;
        } else {
          assert ms[|ms| - 1].id == id;
        }
      }
    }
  }

  /** The components of one package, in the order of the records. */
  ghost function Members(records: seq<Record>, pkg: string): seq<Component> {
    if records == [] then []
    else
      var last := records[|records| - 1];
      Members(records[..|records| - 1], pkg) +
      (if last.packageId == pkg then [Component(last.runtime.id, last.order)] else [])
  }

  ghost function Packages(records: seq<Record>): set<string> {
    set i | 0 <= i < |records| :: records[i].packageId
  }

  ghost predicate Ordered(records: seq<Record>) {
    forall i :: 0 <= i < |records| ==> records[i].order < |Members(records, records[i].packageId)|
  }

  /** A published group lists a package's components by their declared order, and nothing else. */
  ghost predicate GroupOf(records: seq<Record>, pkg: string, group: seq<EntryId>) {
    && |group| == |Members(records, pkg)|
    && (forall i :: 0 <= i < |records| && records[i].packageId == pkg ==>
         0 <= records[i].order < |group| && group[records[i].order] == records[i].runtime.id)
    && forall k :: 0 <= k < |group| ==> Component(group[k], k) in Members(records, pkg)
  }

  ghost function CapabilitiesOf(specs: seq<CapabilitySpec>, handler: EntryId): seq<Capability> {
    seq(|specs|, i requires 0 <= i < |specs| => Capability(specs[i], handler))
  }

  /** Every capability of every record, bound to its component. */
  ghost function Registrations(records: seq<Record>): seq<Capability> {
    if records == [] then []
    else
      var last := records[|records| - 1].runtime;
      Registrations(records[..|records| - 1]) + CapabilitiesOf(last.capabilities, last.id)
  }

  ghost predicate Registrable(checks: Checks, known: map<string, Capability>, cs: seq<Capability>) {
    ValidBatch(checks, cs) && forall i :: 0 <= i < |cs| ==> cs[i].spec.id !in known
  }

  ghost function ById(cs: seq<Capability>): map<string, Capability> {
    if cs == [] then map[] else ById(cs[..|cs| - 1])[cs[|cs| - 1].spec.id := cs[|cs| - 1]]
  }

  // ---- sorting by declared order ----

  ghost predicate DistinctOrders(s: seq<Component>) {
    forall i, j :: 0 <= i < j < |s| ==> s[i].order != s[j].order
  }

  ghost predicate Increasing(s: seq<Component>) {
    forall i, j :: 0 <= i < j < |s| ==> s[i].order < s[j].order
  }

  function Insert(c: Component, s: seq<Component>): (r: seq<Component>)
    ensures |r| == |s| + 1
    ensures forall x :: x in r <==> x == c || x in s
  {
    if s == [] then [c]
    else if c.order <= s[0].order then [c] + s
    else
      assert s == [s[0]] + s[1..];
      [s[0]] + Insert(c, s[1..])
  }

  lemma {:induction false} InsertIncreasing(c: Component, s: seq<Component>)
    requires Increasing(s) && forall x :: x in s ==> x.order != c.order
    ensures Increasing(Insert(c, s))
  {
    if s != [] && c.order > s[0].order {
      InsertIncreasing(c, s[1..]);
      var r := Insert(c, s[1..]);
      forall i | 0 <= i < |r| ensures s[0].order < r[i].order {
        assert r[i] in r;
        assert r[i] == c || r[i] in s[1..];
      }
    }
  }

  function SortByOrder(s: seq<Component>): (r: seq<Component>)
    ensures |r| == |s|
    ensures forall x :: x in r <==> x in s
  {
    if s == [] then []
    else
      assert s == s[..|s| - 1] + [s[|s| - 1]];
      Insert(s[|s| - 1], SortByOrder(s[..|s| - 1]))
  }

  lemma {:induction false} SortIncreasing(s: seq<Component>)
    requires DistinctOrders(s)
    ensures Increasing(SortByOrder(s))
  {
    if s != [] {
      SortIncreasing(s[..|s| - 1]);
      InsertIncreasing(s[|s| - 1], SortByOrder(s[..|s| - 1]));
    }
  }

  /** Distinct orders from zero up, sorted, are 0, 1, ... exactly when none of them is too large. */
  lemma {:induction false} Contiguous(t: seq<Component>, k: nat)
    requires Increasing(t) && k < |t| && forall i :: 0 <= i < |t| ==> 0 <= t[i].order
    ensures t[k].order >= k
    ensures (forall i :: 0 <= i < |t| ==> t[i].order < |t|) ==> t[k].order == k
    decreases |t|
  {
    if k + 1 < |t| {
      ContiguousDown(t, k);
    }
    AtLeast(t, k);
  }

  lemma {:induction false} AtLeast(t: seq<Component>, k: nat)
    requires Increasing(t) && k < |t| && 0 <= t[0].order
    ensures t[k].order >= k
  {
    if k > 0 {
      AtLeast(t, k - 1);
    }
  }

  lemma {:induction false} ContiguousDown(t: seq<Component>, k: nat)
    requires Increasing(t) && k < |t|
    ensures t[|t| - 1].order - t[k].order >= |t| - 1 - k
    decreases |t| - k
  {
    if k < |t| - 1 {
      ContiguousDown(t, k + 1);
    }
  }

  lemma {:induction false} MembersAre(records: seq<Record>, pkg: string, c: Component)
    ensures c in Members(records, pkg) <==>
            exists i ::
              0 <= i < |records| && records[i].packageId == pkg
                && c == Component(records[i].runtime.id, records[i].order)
  {
    if records != [] {
      var before, last := records[..|records| - 1], records[|records| - 1];
      MembersAre(before, pkg, c);
      assert forall i :: 0 <= i < |before| ==> records[i] == before[i];
      if c in Members(records, pkg) && c !in Members(before, pkg) {
        assert records[|records| - 1] == last;
      }
    }
  }

  lemma {:induction false} MembersDistinct(records: seq<Record>, pkg: string)
    requires ValidGroups(records)
    ensures DistinctOrders(Members(records, pkg))
  {
    if records != [] {
      var before, last := records[..|records| - 1], records[|records| - 1];
      MembersDistinct(before, pkg);
      forall c | c in Members(before, pkg) ensures last.packageId == pkg ==> c.order != last.order {
        MembersAre(before, pkg, c);
      }
    }
  }

  // ---- the checks ----

  ghost predicate SeenComponent(records: seq<Record>, n: nat, pkg: string, componentId: string)
    requires n <= |records|
  {
    exists k :: 0 <= k < n && records[k].packageId == pkg && records[k].componentId == componentId
  }

  ghost predicate SeenOrder(records: seq<Record>, n: nat, pkg: string, order: int)
    requires n <= |records|
  {
    exists k :: 0 <= k < n && records[k].packageId == pkg && records[k].order == order
  }

  lemma SeenNext(records: seq<Record>, n: nat, pkg: string, id: string, order: int)
    requires n < |records|
    ensures SeenComponent(records, n + 1, pkg, id) <==>
              SeenComponent(records, n, pkg, id) || (pkg == records[n].packageId && id == records[n].componentId)
    ensures SeenOrder(records, n + 1, pkg, order) <==>
              SeenOrder(records, n, pkg, order) || (pkg == records[n].packageId && order == records[n].order)
  {
    if SeenComponent(records, n, pkg, id) {
      var k :| 0 <= k < n && records[k].packageId == pkg && records[k].componentId == id;
    }
    if SeenOrder(records, n, pkg, order) {
      var k :| 0 <= k < n && records[k].packageId == pkg && records[k].order == order;
    }
  }

  /** A record adds no conflict exactly when neither its component nor its order was seen in its package. */
  lemma NoConflict(records: seq<Record>, n: nat)
    requires n < |records| && ValidGroups(records[..n])
    ensures ValidGroups(records[..n + 1]) <==>
              && IsStableId(records[n].packageId) && IsStableId(records[n].componentId) && records[n].order >= 0
              && !SeenComponent(records, n, records[n].packageId, records[n].componentId)
              && !SeenOrder(records, n, records[n].packageId, records[n].order)
  {
    hide IsStableId;
    var s := records[..n + 1];
    assert s[n] == records[n];
    assert forall i :: 0 <= i < n ==> s[i] == records[..n][i] == records[i];
    if SeenComponent(records, n, records[n].packageId, records[n].componentId) {
      var k :| 0 <= k < n && records[k].packageId == records[n].packageId
        && records[k].componentId == records[n].componentId;
      assert s[k].componentId == s[n].componentId;
    }
    if SeenOrder(records, n, records[n].packageId, records[n].order) {
      var k :| 0 <= k < n && records[k].packageId == records[n].packageId && records[k].order == records[n].order;
      assert s[k].order == s[n].order;
    }
  }

  lemma ValidPrefix(records: seq<Record>, n: nat)
    requires n <= |records| && ValidGroups(records)
    ensures ValidGroups(records[..n])
  {
    hide IsStableId;
  }

  method ValidatePackageGroups(records: seq<Record>) returns (ok: bool)
    ensures ok <==> ValidGroups(records)
  {
    hide IsStableId, ValidGroups, SeenComponent, SeenOrder;
    var components: map<string, set<string>>, orders: map<string, set<int>> := map[], map[];
    NothingSeen(records);
    var n := 0;
    while n < |records|
      invariant n <= |records| && ValidGroups(records[..n])
      invariant components.Keys == orders.Keys
      invariant forall p, c :: p in components && c in components[p] <==> SeenComponent(records, n, p, c)
      invariant forall p, o :: p in orders && o in orders[p] <==> SeenOrder(records, n, p, o)
    {
      var r := records[n];
      NoConflict(records, n);
      if ValidGroups(records) {
        ValidPrefix(records, n + 1);
      }
      if !IsStableId(r.packageId) || !IsStableId(r.componentId) || r.order < 0 {
        return false;
      }
      if r.packageId !in components {
        components, orders := components[r.packageId := {}], orders[r.packageId := {}];
      }
      if r.componentId in components[r.packageId] || r.order in orders[r.packageId] {
        return false;
      }
      components := components[r.packageId := components[r.packageId] + {r.componentId}];
      orders := orders[r.packageId := orders[r.packageId] + {r.order}];
      ghost var next := n + 1;
      forall p, c | true ensures p in components && c in components[p] <==> SeenComponent(records, next, p, c) {
        SeenNext(records, n, p, c, 0);
      }
      forall p, o | true ensures p in orders && o in orders[p] <==> SeenOrder(records, next, p, o) {
        SeenNext(records, n, p, "", o);
      }
      n := n + 1;
    }
    assert records[..n] == records;
    ok := true;
  }

  lemma NothingSeen(records: seq<Record>)
    ensures ValidGroups(records[..0])
    ensures forall p, c :: !SeenComponent(records, 0, p, c)
    ensures forall p, o :: !SeenOrder(records, 0, p, o)
  {
  }

  lemma MembersNext(records: seq<Record>, n: nat, pkg: string)
    requires n < |records|
    ensures Members(records[..n + 1], pkg) == Members(records[..n], pkg) +
              (if records[n].packageId == pkg then [Component(records[n].runtime.id, records[n].order)] else [])
    ensures Packages(records[..n + 1]) == Packages(records[..n]) + {records[n].packageId}
  {
    assert records[..n + 1][..n] == records[..n];
    var before, after := records[..n], records[..n + 1];
    assert forall i :: 0 <= i < n ==> before[i] == after[i];
    assert after[n] == records[n];
    forall p | p in Packages(after) ensures p in Packages(before) + {records[n].packageId} {
      var i :| 0 <= i < |after| && after[i].packageId == p;
    }
    forall p | p in Packages(before) ensures p in Packages(after) {
      var i :| 0 <= i < |before| && before[i].packageId == p;
      assert after[i].packageId == p;
    }
  }

  /** The groups collected from the first n records. */
  ghost predicate Grouped(records: seq<Record>, n: nat, groups: map<string, seq<Component>>)
    requires n <= |records|
  {
    && groups.Keys == Packages(records[..n])
    && forall p :: Members(records[..n], p) == if p in groups then groups[p] else []
  }

  lemma GroupedNext(records: seq<Record>, n: nat, groups: map<string, seq<Component>>)
    requires n < |records| && Grouped(records, n, groups)
    ensures var r := records[n]; var known := if r.packageId in groups then groups[r.packageId] else [];
      Grouped(records, n + 1, groups[r.packageId := known + [Component(r.runtime.id, r.order)]])
  {
    hide Members, Packages;
    var r := records[n];
    var known := if r.packageId in groups then groups[r.packageId] else [];
    var groups' := groups[r.packageId := known + [Component(r.runtime.id, r.order)]];
    MembersNext(records, n, r.packageId);
    var next := records[..n + 1];
    forall p ensures Members(next, p) == if p in groups' then groups'[p] else [] {
      MembersNext(records, n, p);
      assert Members(records[..n], p) == if p in groups then groups[p] else [];
    }
  }

  method GroupByPackage(records: seq<Record>) returns (groups: map<string, seq<Component>>)
    ensures Grouped(records, |records|, groups)
  {
    groups := map[];
    var n := 0;
    assert Grouped(records, 0, groups);
    hide Grouped;
    while n < |records|
      invariant n <= |records| && Grouped(records, n, groups)
    {
      var r := records[n];
      GroupedNext(records, n, groups);
      var known := if r.packageId in groups then groups[r.packageId] else [];
      groups := groups[r.packageId := known + [Component(r.runtime.id, r.order)]];
      n := n + 1;
    }
  }

  /** Sorts one package's components and refuses a gap in the declared orders. */
  method OrderComponents(components: seq<Component>) returns (ids: Option<seq<EntryId>>)
    requires DistinctOrders(components) && forall c :: c in components ==> c.order >= 0
    ensures ids.Some? <==> forall c :: c in components ==> c.order < |components|
    ensures ids.Some? ==> InOrder(components, ids.value)
  {
    var sorted := SortByOrder(components);
    SortIncreasing(components);
    hide DistinctOrders, Increasing, SortByOrder;
    var ordered: seq<EntryId> := [];
    var k := 0;
    while k < |sorted|
      invariant k == |ordered| <= |sorted|
      invariant forall i :: 0 <= i < k ==> sorted[i] == Component(ordered[i], i)
    {
      if sorted[k].order != k {
        GapFound(components, sorted, k);
        return None;
      }
      ordered := ordered + [sorted[k].id];
      k := k + 1;
    }
    NoGapFound(components, sorted, ordered);
    ids := Some(ordered);
  }

  lemma GapFound(components: seq<Component>, sorted: seq<Component>, k: nat)
    requires Increasing(sorted) && |sorted| == |components| && forall c :: c in sorted <==> c in components
    requires forall c :: c in components ==> c.order >= 0
    requires k < |sorted| && sorted[k].order != k
    ensures exists c :: c in components && c.order >= |components|
  {
    assert forall i :: 0 <= i < |sorted| ==> sorted[i] in components;
    Contiguous(sorted, k);
    var i :| 0 <= i < |sorted| && sorted[i].order >= |sorted|;
    assert sorted[i] in components;
  }

  lemma NoGapFound(components: seq<Component>, sorted: seq<Component>, ordered: seq<EntryId>)
    requires |sorted| == |components| == |ordered| && forall c :: c in sorted <==> c in components
    requires forall i :: 0 <= i < |sorted| ==> sorted[i] == Component(ordered[i], i)
    ensures InOrder(components, ordered) && forall c :: c in components ==> c.order < |components|
  {
    forall c | c in components ensures 0 <= c.order < |ordered| && ordered[c.order] == c.id {
      var i :| 0 <= i < |sorted| && sorted[i] == c;
    }
    forall k | 0 <= k < |ordered| ensures Component(ordered[k], k) in components {
      assert sorted[k] in sorted;
    }
  }

  // ---- the manager's and the registry's maps ----

  ghost predicate ValidBatch(checks: Checks, cs: seq<Capability>) {
    && (forall i :: 0 <= i < |cs| ==> checks.spec(cs[i].spec) && checks.schema(cs[i].spec))
    && (forall i, j :: 0 <= i < j < |cs| ==> cs[i].spec.id != cs[j].spec.id)
  }

  /** What is wrong with the n-th capability of a batch: its spec first, then its id, then its schema. */
  ghost function SpecFault(checks: Checks, cs: seq<Capability>, n: nat): Option<Error>
    requires n < |cs|
  {
    if !checks.spec(cs[n].spec) then Some(InvalidSpec)
    else if exists i :: 0 <= i < n && cs[i].spec.id == cs[n].spec.id then Some(DuplicateId)
    else if !checks.schema(cs[n].spec) then Some(InvalidSpec)
    else None
  }

  /** The error is that of the first capability with a fault. */
  ghost predicate SpecsRefused(checks: Checks, cs: seq<Capability>, error: Error) {
    exists n ::
      && 0 <= n < |cs| && SpecFault(checks, cs, n) == Some(error)
      && forall i :: 0 <= i < n ==> SpecFault(checks, cs, i).None?
  }

  /** Why a batch of capabilities is not published. */
  ghost predicate CapabilitiesRefused(checks: Checks, known: map<string, Capability>, cs: seq<Capability>,
                                      error: Error) {
    if cs == [] then error == InvalidSpec
    else if !ValidBatch(checks, cs) then SpecsRefused(checks, cs, error)
    else error == DuplicateId
  }

  method CheckSpecs(checks: Checks, batch: seq<Capability>) returns (error: Option<Error>)
    ensures error.None? <==> ValidBatch(checks, batch)
    ensures error.Some? ==> SpecsRefused(checks, batch, error.value)
  {
    var seen: set<string> := {};
    var n := 0;
    while n < |batch|
      invariant n <= |batch|
      invariant forall i :: 0 <= i < n ==> checks.spec(batch[i].spec) && checks.schema(batch[i].spec)
      invariant forall i :: 0 <= i < n ==> batch[i].spec.id in seen && SpecFault(checks, batch, i).None?
      invariant forall id :: id in seen ==> exists i :: 0 <= i < n && batch[i].spec.id == id
      invariant forall i, j :: 0 <= i < j < n ==> batch[i].spec.id != batch[j].spec.id
    {
      ghost var fault := SpecFault(checks, batch, n);
      if !checks.spec(batch[n].spec) {
        return Some(InvalidSpec);
      }
      if batch[n].spec.id in seen {
        return Some(DuplicateId);
      }
      seen := seen + {batch[n].spec.id};
      if !checks.schema(batch[n].spec) {
        return Some(InvalidSpec);
      }
      n := n + 1;
    }
    error := None;
  }

  class Registry {
    var capabilities: map<string, Capability>

    method RegisterBatch(checks: Checks, batch: seq<Capability>) returns (error: Option<Error>)
      modifies this
      ensures error.None? <==> batch != [] && Registrable(checks, old(capabilities), batch)
      ensures error.Some? ==> CapabilitiesRefused(checks, old(capabilities), batch, error.value)
      ensures capabilities == if error.None? then old(capabilities) + ById(batch) else old(capabilities)
    {
      hide ValidBatch;
      if batch == [] {
        return Some(InvalidSpec);
      }
      error := CheckSpecs(checks, batch);
      if error.Some? {
        return;
      }
      var n := 0;
      while n < |batch|
        invariant n <= |batch| && capabilities == old(capabilities)
        invariant forall i :: 0 <= i < n ==> batch[i].spec.id !in capabilities
      {
        if batch[n].spec.id in capabilities {
          return Some(DuplicateId);
        }
        n := n + 1;
      }
      n := 0;
      while n < |batch|
        invariant n <= |batch|
        invariant capabilities == old(capabilities) + ById(batch[..n])
      {
        assert batch[..n + 1][..n] == batch[..n];
        capabilities := capabilities[batch[n].spec.id := batch[n]];
        n := n + 1;
      }
      assert batch[..n] == batch;
      error := None;
    }
  }

  ghost predicate GroupResolves(entries: map<EntryId, EntryView>, pkg: string, group: seq<EntryId>) {
    pkg != "" && group != [] && forall id :: id in group ==> id in entries
  }

  ghost predicate Resolvable(entries: map<EntryId, EntryView>, groups: map<string, seq<EntryId>>) {
    |groups| > 0 && forall p :: p in groups ==> GroupResolves(entries, p, groups[p])
  }

  method ResolveGroup(entries: map<EntryId, EntryView>, pkg: string, group: seq<EntryId>) returns (error: Option<Error>)
    ensures error.None? <==> GroupResolves(entries, pkg, group)
    ensures error.Some? ==> error.value == if pkg == "" || group == [] then InvalidManifest else NotFound
  {
    if pkg == "" || group == [] {
      return Some(InvalidManifest);
    }
    var n := 0;
    while n < |group|
      invariant n <= |group| && forall i :: 0 <= i < n ==> group[i] in entries
    {
      if group[n] !in entries {
        return Some(NotFound);
      }
      n := n + 1;
    }
    error := None;
  }

  /** A registered entry nobody has loaded or called. */
  ghost predicate Untouched(e: EntryView) {
    e.phase == Registered && e.runtime.None? && e.inFlight == 0
  }

  // ---- hosts ----

  ghost predicate Serves(checks: Checks, m: Manifest, i: int) {
    0 <= i < |checks.candidates(m)| && checks.verify(checks.candidates(m)[i], m)
  }

  /** The candidate at place i is the only one that serves the manifest. */
  ghost predicate OnlyServes(checks: Checks, m: Manifest, i: int) {
    Serves(checks, m, i) && forall j :: Serves(checks, m, j) ==> j == i
  }

  ghost function HostOf(checks: Checks, m: Manifest): Option<nat> {
    if exists i :: OnlyServes(checks, m, i) then
      var i :| OnlyServes(checks, m, i);
      Some(checks.candidates(m)[i])
    else None
  }

  /** Binds the only host that serves a manifest; none is an unsupported mode, several make it invalid. */
  method SelectHost(checks: Checks, m: Manifest) returns (r: Result<nat, Error>)
    ensures r.Ok? <==> exists i :: OnlyServes(checks, m, i)
    ensures forall i :: OnlyServes(checks, m, i) ==> r == Ok(checks.candidates(m)[i])
    ensures r.Ok? ==> HostOf(checks, m) == Some(r.value)
    ensures r.Err? ==> r.error == if exists i :: Serves(checks, m, i) then InvalidManifest else NoHost
  {
    var candidates := checks.candidates(m);
    var matched, matches := 0, 0;
    ghost var at := 0;
    var n := 0;
    while n < |candidates|
      invariant n <= |candidates| && 0 <= matches
      invariant matches == 0 ==> forall i :: 0 <= i < n ==> !Serves(checks, m, i)
      invariant matches > 0 ==> at < n && Serves(checks, m, at)
      invariant matches == 1 ==> matched == candidates[at] && forall i :: 0 <= i < n && Serves(checks, m, i) ==> i == at
      invariant matches > 1 ==> exists i :: 0 <= i < n && i != at && Serves(checks, m, i)
    {
      if checks.verify(candidates[n], m) {
        assert Serves(checks, m, n);
        if matches == 0 {
          at := n;
        }
        matched, matches := candidates[n], matches + 1;
      }
      n := n + 1;
    }
    if matches == 1 {
      assert OnlyServes(checks, m, at);
      return Ok(matched);
    }
    r := Err(if matches == 0 then NoHost else InvalidManifest);
  }

  ghost predicate Bindable(checks: Checks, ms: seq<Manifest>) {
    && (forall i :: 0 <= i < |ms| ==> checks.manifest(ms[i]) && HostOf(checks, ms[i]).Some?)
    && (forall i, j :: 0 <= i < j < |ms| ==> ms[i].id != ms[j].id)
  }

  ghost predicate BoundTo(checks: Checks, ms: seq<Manifest>, bound: map<EntryId, nat>) {
    forall i :: 0 <= i < |ms| ==> ms[i].id in bound && HostOf(checks, ms[i]) == Some(bound[ms[i].id])
  }

  /** What is wrong with the n-th manifest of a batch: itself first, then its host, then its id. */
  ghost function BindFault(checks: Checks, ms: seq<Manifest>, n: nat): Option<Error>
    requires n < |ms|
  {
    if !checks.manifest(ms[n]) then Some(InvalidManifest)
    else if !exists i :: Serves(checks, ms[n], i) then Some(NoHost)
    else if HostOf(checks, ms[n]).None? then Some(InvalidManifest)
    else if exists i :: 0 <= i < n && ms[i].id == ms[n].id then Some(DuplicateId)
    else None
  }

  /** The error is that of the first manifest with a fault. */
  ghost predicate BindRefused(checks: Checks, ms: seq<Manifest>, error: Error) {
    exists n ::
      && 0 <= n < |ms| && BindFault(checks, ms, n) == Some(error)
      && forall i :: 0 <= i < n ==> BindFault(checks, ms, i).None?
  }

  method BindHosts(checks: Checks, ms: seq<Manifest>) returns (r: Result<map<EntryId, nat>, Error>)
    ensures r.Ok? <==> Bindable(checks, ms)
    ensures r.Ok? ==> BoundTo(checks, ms, r.value)
    ensures r.Err? ==> BindRefused(checks, ms, r.error)
  {
    hide Serves, Published;
    var bound: map<EntryId, nat> := map[];
    var n := 0;
    while n < |ms|
      invariant n <= |ms|
      invariant forall i :: 0 <= i < n ==>
                  checks.manifest(ms[i]) && ms[i].id in bound && HostOf(checks, ms[i]) == Some(bound[ms[i].id])
      invariant forall i :: 0 <= i < n ==> BindFault(checks, ms, i).None?
      invariant forall id :: id in bound ==> exists i :: 0 <= i < n && ms[i].id == id
      invariant forall i, j :: 0 <= i < j < n ==> ms[i].id != ms[j].id
    {
      ghost var fault := BindFault(checks, ms, n);
      if !checks.manifest(ms[n]) {
        return Err(InvalidManifest);
      }
      var host := SelectHost(checks, ms[n]);
      if host.Err? {
        return Err(host.error);
      }
      if ms[n].id in bound {
        return Err(DuplicateId);
      }
      bound := bound[ms[n].id := host.value];
      n := n + 1;
    }
    r := Ok(bound);
  }

  /** Why a batch of manifests is not published. */
  ghost predicate BatchRefused(checks: Checks, accepting: bool, ms: seq<Manifest>, error: Error) {
    if |ms| == 0 || |ms| > 4096 then error == InvalidManifest
    else if !Bindable(checks, ms) then BindRefused(checks, ms, error)
    else error == if accepting then DuplicateId else ShuttingDown
  }

  /** Why package groups are not published; of several groups that do not resolve any may be met first. */
  ghost predicate GroupsRefused(entries: map<EntryId, EntryView>, accepting: bool, groups: map<string, seq<EntryId>>,
                                error: Error) {
    if |groups| == 0 then error == InvalidManifest
    else if !Resolvable(entries, groups) then
      exists p :: p in groups && !GroupResolves(entries, p, groups[p])
                  && error == if p == "" || groups[p] == [] then InvalidManifest else NotFound
    else error == if accepting then DuplicateId else ShuttingDown
  }

  ghost predicate MemberRemovable(entries: map<EntryId, EntryView>, ms: seq<Manifest>, id: EntryId) {
    id in entries && (exists m :: m in ms && m.id == id) && Untouched(entries[id])
  }

  ghost predicate GroupRemovable(entries: map<EntryId, EntryView>, ms: seq<Manifest>, group: seq<EntryId>) {
    group != [] && forall i :: 0 <= i < |group| ==> MemberRemovable(entries, ms, group[i])
  }

  ghost predicate Removable(entries: map<EntryId, EntryView>, packages: map<string, seq<EntryId>>,
                            ms: seq<Manifest>, packageIds: set<string>) {
    forall p :: p in packageIds ==> p in packages && GroupRemovable(entries, ms, packages[p])
  }

  ghost predicate GroupsOf(records: seq<Record>, groups: map<string, seq<EntryId>>) {
    && groups.Keys == Packages(records)
    && forall p :: p in groups ==> GroupOf(records, p, groups[p])
  }

  ghost predicate Installable(checks: Checks, accepting: bool, entries: map<EntryId, EntryView>,
                              packages: map<string, seq<EntryId>>, known: map<string, Capability>,
                              records: seq<Record>) {
    && 0 < |records| <= 256 && ValidGroups(records)
    && (forall i :: 0 <= i < |records| ==> ValidRecord(checks, records[i]))
    && Batchable(checks, accepting, entries, Manifests(records))
    && Ordered(records)
    && Packages(records) !! packages.Keys
    && Registrable(checks, known, Registrations(records))
  }

  /** Why installed records are not published, in the order of the steps. */
  ghost predicate InstallRefused(checks: Checks, accepting: bool, entries: map<EntryId, EntryView>,
                                 packages: map<string, seq<EntryId>>, known: map<string, Capability>,
                                 records: seq<Record>, error: Error) {
    if |records| == 0 || |records| > 256 || !ValidGroups(records)
       || !(forall i :: 0 <= i < |records| ==> ValidRecord(checks, records[i])) then error == InvalidRecord
    else if !Batchable(checks, accepting, entries, Manifests(records)) then
      BatchRefused(checks, accepting, Manifests(records), error)
    else LateRefused(checks, packages, known, records, error)
  }

  /** Why the steps after the registration of the entries fail. */
  ghost predicate LateRefused(checks: Checks, packages: map<string, seq<EntryId>>, known: map<string, Capability>,
                              records: seq<Record>, error: Error) {
    if !Ordered(records) then error == InvalidRecord
    else if !(Packages(records) !! packages.Keys) then error == DuplicateId
    else CapabilitiesRefused(checks, known, Registrations(records), error)
  }

  method ValidateRecord(checks: Checks, r: Record) returns (ok: bool)
    ensures ok <==> ValidRecord(checks, r)
  {
    hide IsStableId;
    if !IsStableId(r.packageId) || !IsStableId(r.componentId) {
      return false;
    }
    if r.runtime.packageId != "" && r.runtime.packageId != r.packageId {
      return false;
    }
    if !checks.manifest(r.runtime) {
      return false;
    }
    if r.runtime.role == Executor {
      return |r.runtime.capabilities| == 0;
    }
    if |r.runtime.capabilities| == 0 {
      return false;
    }
    var n := 0;
    while n < |r.runtime.capabilities|
      invariant n <= |r.runtime.capabilities|
      invariant forall i :: 0 <= i < n ==> r.runtime.capabilities[i].version == r.runtime.version
    {
      if r.runtime.capabilities[n].version != r.runtime.version {
        return false;
      }
      n := n + 1;
    }
    ok := true;
  }

  method CheckRecords(checks: Checks, records: seq<Record>)
    returns (ms: Option<seq<Manifest>>, registrations: seq<Capability>)
    ensures ms.Some? <==> forall i :: 0 <= i < |records| ==> ValidRecord(checks, records[i])
    ensures ms.Some? ==> ms.value == Manifests(records) && registrations == Registrations(records)
  {
    hide ValidRecord;
    var manifests: seq<Manifest> := [];
    registrations := [];
    var n := 0;
    while n < |records|
      invariant n <= |records|
      invariant forall i :: 0 <= i < n ==> ValidRecord(checks, records[i])
      invariant manifests == Manifests(records[..n]) && registrations == Registrations(records[..n])
    {
      var valid := ValidateRecord(checks, records[n]);
      if !valid {
        return None, [];
      }
      assert records[..n + 1][..n] == records[..n];
      manifests := manifests + [records[n].runtime];
      var specs, handler := records[n].runtime.capabilities, records[n].runtime.id;
      ghost var before := registrations;
      var k := 0;
      while k < |specs|
        invariant k <= |specs| && registrations == before + CapabilitiesOf(specs[..k], handler)
      {
        registrations := registrations + [Capability(specs[k], handler)];
        k := k + 1;
      }
      assert specs[..k] == specs;
      n := n + 1;
    }
    assert records[..n] == records;
    ms := Some(manifests);
  }

  lemma MembersCover(records: seq<Record>, pkg: string)
    ensures forall i :: 0 <= i < |records| && records[i].packageId == pkg ==>
              Component(records[i].runtime.id, records[i].order) in Members(records, pkg)
    ensures forall c :: c in Members(records, pkg) ==>
              exists i ::
                0 <= i < |records| && records[i].packageId == pkg
                  && c == Component(records[i].runtime.id, records[i].order)
  {
    forall i | 0 <= i < |records| && records[i].packageId == pkg
      ensures Component(records[i].runtime.id, records[i].order) in Members(records, pkg)
    {
      MembersAre(records, pkg, Component(records[i].runtime.id, records[i].order));
    }
    forall c | c in Members(records, pkg)
      ensures exists i ::
                0 <= i < |records| && records[i].packageId == pkg
                  && c == Component(records[i].runtime.id, records[i].order)
    {
      MembersAre(records, pkg, c);
    }
  }

  ghost predicate InOrder(components: seq<Component>, ids: seq<EntryId>) {
    && |ids| == |components|
    && (forall c :: c in components ==> 0 <= c.order < |ids| && ids[c.order] == c.id)
    && (forall k :: 0 <= k < |ids| ==> Component(ids[k], k) in components)
  }

  ghost predicate NoGap(records: seq<Record>, pkg: string) {
    forall c :: c in Members(records, pkg) ==> c.order < |Members(records, pkg)|
  }

  lemma GroupFrom(records: seq<Record>, pkg: string, ids: seq<EntryId>)
    requires InOrder(Members(records, pkg), ids)
    ensures GroupOf(records, pkg, ids)
  {
    MembersCover(records, pkg);
  }

  lemma SortableMembers(records: seq<Record>, pkg: string)
    requires ValidGroups(records)
    ensures DistinctOrders(Members(records, pkg)) && forall c :: c in Members(records, pkg) ==> c.order >= 0
  {
    MembersDistinct(records, pkg);
    MembersCover(records, pkg);
  }

  lemma OrderedIsNoGap(records: seq<Record>)
    ensures Ordered(records) <==> forall p :: p in Packages(records) ==> NoGap(records, p)
  {
    if Ordered(records) {
      forall p | p in Packages(records) ensures NoGap(records, p) {
        MembersCover(records, p);
      }
    }
    if forall p :: p in Packages(records) ==> NoGap(records, p) {
      forall i | 0 <= i < |records| ensures records[i].order < |Members(records, records[i].packageId)| {
        MembersCover(records, records[i].packageId);
        assert records[i].packageId in Packages(records);
      }
    }
  }

  method OrderGroups(records: seq<Record>, components: map<string, seq<Component>>)
    returns (groups: Option<map<string, seq<EntryId>>>)
    requires ValidGroups(records) && Grouped(records, |records|, components)
    ensures groups.Some? <==> Ordered(records)
    ensures groups.Some? ==> GroupsOf(records, groups.value)
  {
    hide ValidGroups, DistinctOrders, GroupOf, Ordered, Packages;
    OrderedIsNoGap(records);
    assert records[..|records|] == records;
    assert forall p :: p in components ==> components[p] == Members(records, p);
    var ordered: map<string, seq<EntryId>> := map[];
    var left := components.Keys;
    while left != {}
      invariant left <= components.Keys && ordered.Keys == components.Keys - left
      invariant forall p :: p in ordered ==> GroupOf(records, p, ordered[p]) && NoGap(records, p)
    {
      var p :| p in left;
      SortableMembers(records, p);
      var ids := OrderComponents(components[p]);
      if ids.None? {
        return None;
      }
      GroupFrom(records, p, ids.value);
      ordered := ordered[p := ids.value];
      left := left - {p};
    }
    groups := Some(ordered);
  }

  ghost function IdsOf(ms: seq<Manifest>): set<EntryId> {
    set m | m in ms :: m.id
  }

  lemma BatchCanBeUndone(checks: Checks, accepting: bool, before: map<EntryId, EntryView>, ms: seq<Manifest>)
    requires Batchable(checks, accepting, before, ms)
    ensures var after := before + Published(checks, ms);
      && (forall m :: m in ms ==> m.id in after && Untouched(after[m.id]) && after[m.id].manifest == m)
      && after - IdsOf(ms) == before
  {
    PublishedAt(checks, ms);
    var after := before + Published(checks, ms);
    assert forall id :: id in IdsOf(ms) <==> id in Published(checks, ms);
    assert after - IdsOf(ms) == before;
  }

  lemma GroupNotEmpty(records: seq<Record>, pkg: string, group: seq<EntryId>)
    requires pkg in Packages(records) && GroupOf(records, pkg, group)
    ensures group != []
    ensures forall id :: id in group ==> exists m :: m in Manifests(records) && m.id == id
  {
    var i :| 0 <= i < |records| && records[i].packageId == pkg;
    MembersCover(records, pkg);
    forall id | id in group ensures exists m :: m in Manifests(records) && m.id == id {
      var k :| 0 <= k < |group| && group[k] == id;
      assert Component(group[k], k) in Members(records, pkg);
      var j :| 0 <= j < |records| && records[j].runtime.id == id;
      assert Manifests(records)[j].id == id;
    }
  }

  lemma GroupsResolve(records: seq<Record>, groups: map<string, seq<EntryId>>, entries: map<EntryId, EntryView>)
    requires |records| > 0 && ValidGroups(records) && GroupsOf(records, groups)
    requires forall m :: m in Manifests(records) ==> m.id in entries && Untouched(entries[m.id])
    ensures Resolvable(entries, groups)
    ensures forall p :: p in groups ==> GroupRemovable(entries, Manifests(records), groups[p])
  {
    hide IsStableId, Untouched, GroupOf;
    assert records[0].packageId in groups;
    assert !IsStableId("") by {
      NoEmptyId();
    }
    forall p | p in groups
      ensures GroupResolves(entries, p, groups[p]) && GroupRemovable(entries, Manifests(records), groups[p])
    {
      GroupNotEmpty(records, p, groups[p]);
      forall i | 0 <= i < |groups[p]| ensures MemberRemovable(entries, Manifests(records), groups[p][i]) {
        assert groups[p][i] in groups[p];
      }
    }
  }

  lemma NoEmptyId()
    ensures !IsStableId("")
  {
  }

  method CollectIds(ms: seq<Manifest>) returns (ids: set<EntryId>)
    ensures ids == IdsOf(ms)
  {
    ids := {};
    var n := 0;
    while n < |ms|
      invariant n <= |ms| && ids == IdsOf(ms[..n])
    {
      assert ms[..n + 1] == ms[..n] + [ms[n]];
      ids := ids + {ms[n].id};
      n := n + 1;
    }
    assert ms[..n] == ms;
  }

  class Manager {
    var accepting: bool
    var entries: map<EntryId, EntryView>
    var packages: map<string, seq<EntryId>>

    method RegisterBatch(checks: Checks, ms: seq<Manifest>) returns (error: Option<Error>)
      modifies this`entries
      ensures error.None? <==> Batchable(checks, accepting, old(entries), ms)
      ensures error.None? ==> Bindable(checks, ms) && entries == old(entries) + Published(checks, ms)
      ensures error.None? ==> forall i :: 0 <= i < |ms| ==>
                ms[i].id in entries && Fresh(checks, ms[i], entries[ms[i].id])
      ensures error.Some? ==> entries == old(entries) && BatchRefused(checks, accepting, ms, error.value)
    {
      if |ms| == 0 || |ms| > 4096 {
        return Some(InvalidManifest);
      }
      var bound := BindHosts(checks, ms);
      if bound.Err? {
        return Some(bound.error);
      }
      if !accepting {
        return Some(ShuttingDown);
      }
      var n := 0;
      while n < |ms|
        invariant n <= |ms|
        invariant forall i :: 0 <= i < n ==> ms[i].id !in entries
      {
        if ms[n].id in entries {
          return Some(DuplicateId);
        }
        n := n + 1;
      }
      PublishAll(checks, ms, bound.value);
      PublishedAt(checks, ms);
      error := None;
    }

    method PublishAll(checks: Checks, ms: seq<Manifest>, bound: map<EntryId, nat>)
      requires BoundTo(checks, ms, bound)
      modifies this`entries
      ensures entries == old(entries) + Published(checks, ms)
    {
      hide NewEntry;
      var n := 0;
      while n < |ms|
        invariant n <= |ms|
        invariant entries == old(entries) + Published(checks, ms[..n])
      {
        assert ms[..n + 1][..n] == ms[..n];
        entries := entries[ms[n].id := NewEntry(ms[n], bound[ms[n].id])];
        n := n + 1;
      }
      assert ms[..n] == ms;
    }

    method RegisterPackages(groups: map<string, seq<EntryId>>) returns (error: Option<Error>)
      modifies this`packages
      ensures error.None? <==> Resolvable(entries, groups) && accepting && groups.Keys !! old(packages).Keys
      ensures error.Some? ==> GroupsRefused(entries, accepting, groups, error.value)
      ensures packages == if error.None? then old(packages) + groups else old(packages)
    {
      hide GroupResolves;
      if |groups| == 0 {
        return Some(InvalidManifest);
      }
      var left := groups.Keys;
      while left != {}
        invariant left <= groups.Keys && packages == old(packages)
        invariant forall p :: p in groups && p !in left ==> GroupResolves(entries, p, groups[p])
      {
        var p :| p in left;
        error := ResolveGroup(entries, p, groups[p]);
        if error.Some? {
          return;
        }
        left := left - {p};
      }
      if !accepting {
        return Some(ShuttingDown);
      }
      left := groups.Keys;
      while left != {}
        invariant left <= groups.Keys && packages == old(packages)
        invariant forall p :: p in groups && p !in left ==> p !in packages
      {
        var p :| p in left;
        if p in packages {
          return Some(DuplicateId);
        }
        left := left - {p};
      }
      packages := packages + groups;
      error := None;
    }

    method RollbackRegistered(ms: seq<Manifest>) returns (error: Option<Error>)
      modifies this`entries
      ensures error.None? <==> forall m :: m in ms && m.id in old(entries) ==>
                Untouched(old(entries)[m.id]) && old(entries)[m.id].manifest == m
      ensures error.Some? ==> error.value == Unavailable
      ensures entries == if error.None? then old(entries) - IdsOf(ms) else old(entries)
    {
      var n := 0;
      while n < |ms|
        invariant n <= |ms|
        invariant forall i :: 0 <= i < n && ms[i].id in entries ==>
                    Untouched(entries[ms[i].id]) && entries[ms[i].id].manifest == ms[i]
      {
        if ms[n].id in entries {
          var e := entries[ms[n].id];
          if e.phase != Registered || e.runtime.Some? || e.inFlight != 0 || e.manifest != ms[n] {
            return Some(Unavailable);
          }
        }
        n := n + 1;
      }
      RemoveEntries(ms);
      error := None;
    }

    method RemoveEntries(ms: seq<Manifest>)
      modifies this`entries
      ensures entries == old(entries) - IdsOf(ms)
    {
      var n := 0;
      while n < |ms|
        invariant n <= |ms|
        invariant entries == old(entries) - IdsOf(ms[..n])
      {
        assert ms[..n + 1] == ms[..n] + [ms[n]];
        entries := entries - {ms[n].id};
        n := n + 1;
      }
      assert ms[..n] == ms;
    }

    method RollbackPackageRegistration(ms: seq<Manifest>, packageIds: set<string>) returns (error: Option<Error>)
      modifies this`entries, this`packages
      ensures error.None? <==> Removable(old(entries), old(packages), ms, packageIds)
      ensures error.Some? ==> error.value == Unavailable
      ensures entries == if error.None? then old(entries) - IdsOf(ms) else old(entries)
      ensures packages == if error.None? then old(packages) - packageIds else old(packages)
    {
      var ids := CollectIds(ms);
      var left := packageIds;
      while left != {}
        invariant left <= packageIds
        invariant forall p :: p in packageIds - left ==> p in packages && GroupRemovable(entries, ms, packages[p])
      {
        var p :| p in left;
        if p !in packages || packages[p] == [] {
          return Some(Unavailable);
        }
        var n := 0;
        while n < |packages[p]|
          invariant n <= |packages[p]|
          invariant forall i :: 0 <= i < n ==> MemberRemovable(entries, ms, packages[p][i])
        {
          var id := packages[p][n];
          if id !in ids || id !in entries {
            return Some(Unavailable);
          }
          var e := entries[id];
          if e.phase != Registered || e.runtime.Some? || e.inFlight != 0 {
            return Some(Unavailable);
          }
          n := n + 1;
        }
        left := left - {p};
      }
      packages := packages - packageIds;
      RemoveEntries(ms);
      error := None;
    }

    /**
     RegisterInstalled succeeds exactly when all its conditions hold, and then the manager and the
     registry gain exactly the records' entries, package groups and capabilities. On any failure,
     also one after some steps were done, all three are as they were.
     */
    method RegisterInstalled(checks: Checks, records: seq<Record>, target: Registry) returns (error: Option<Error>)
      modifies this`entries, this`packages, target
      ensures error.None? <==>
                Installable(checks, accepting, old(entries), old(packages), old(target.capabilities), records)
      ensures error.Some? ==>
                entries == old(entries) && packages == old(packages) && target.capabilities == old(target.capabilities)
      ensures error.Some? ==> InstallRefused(checks, accepting, old(entries), old(packages), old(target.capabilities),
                                             records, error.value)
      ensures error.None? ==> Bindable(checks, Manifests(records))
                              && entries == old(entries) + Published(checks, Manifests(records))
      ensures error.None? ==> exists groups :: GroupsOf(records, groups) && packages == old(packages) + groups
      ensures error.None? ==> target.capabilities == old(target.capabilities) + ById(Registrations(records))
    {
      hide ValidGroups, ValidRecord, Bindable, Published, Untouched, Ordered, Registrable, GroupsOf, Resolvable;
      hide GroupRemovable, ById, IdsOf;
      if |records| == 0 || |records| > 256 {
        return Some(InvalidRecord);
      }
      var grouped := ValidatePackageGroups(records);
      if !grouped {
        return Some(InvalidRecord);
      }
      var ms, registrations := CheckRecords(checks, records);
      if ms.None? {
        return Some(InvalidRecord);
      }
      error := RegisterBatch(checks, ms.value);
      if error.Some? {
        return;
      }
      BatchCanBeUndone(checks, accepting, old(entries), ms.value);
      error := PublishInstalled(checks, records, ms.value, registrations, target, old(entries));
    }

    /** The part of RegisterInstalled that follows the registration of the entries. */
    method PublishInstalled(checks: Checks, records: seq<Record>, ms: seq<Manifest>, registrations: seq<Capability>,
                            target: Registry, ghost before: map<EntryId, EntryView>)
      returns (error: Option<Error>)
      requires |records| > 0 && ValidGroups(records) && accepting
      requires ms == Manifests(records) && registrations == Registrations(records)
      requires forall m :: m in ms ==> m.id in entries && Untouched(entries[m.id]) && entries[m.id].manifest == m
      requires entries - IdsOf(ms) == before
      modifies this`entries, this`packages, target
      ensures error.None? <==> Ordered(records) && Packages(records) !! old(packages).Keys
                               && Registrable(checks, old(target.capabilities), registrations)
      ensures error.Some? ==>
                entries == before && packages == old(packages) && target.capabilities == old(target.capabilities)
      ensures error.Some? ==> LateRefused(checks, old(packages), old(target.capabilities), records, error.value)
      ensures error.None? ==> entries == old(entries)
      ensures error.None? ==> exists groups :: GroupsOf(records, groups) && packages == old(packages) + groups
      ensures error.None? ==> target.capabilities == old(target.capabilities) + ById(registrations)
    {
      hide ValidGroups, Untouched, Ordered, Registrable, GroupsOf, Resolvable, GroupRemovable, ById, IdsOf, Grouped;
      var components := GroupByPackage(records);
      var groups := OrderGroups(records, components);
      if groups.None? {
        var rollback := RollbackRegistered(ms);
        return Some(InvalidRecord);
      }
      GroupsResolve(records, groups.value, entries);
      GroupsAre(records, groups.value);
      error := RegisterPackages(groups.value);
      if error.Some? {
        var rollback := RollbackRegistered(ms);
        return;
      }
      if |registrations| > 0 {
        error := target.RegisterBatch(checks, registrations);
        if error.Some? {
          assert Removable(entries, packages, ms, groups.value.Keys);
          var rollback := RollbackPackageRegistration(ms, groups.value.Keys);
          assert packages == old(packages);
        }
      } else {
        NothingToRegister(checks, target.capabilities);
      }
    }
  }

  lemma PublishedFrom(records: seq<Record>, groups: map<string, seq<EntryId>>, p: string, i: nat) returns (a: nat)
    requires GroupsOf(records, groups) && p in groups && i < |groups[p]|
    ensures a < |records| && records[a].packageId == p && records[a].order == i && records[a].runtime.id == groups[p][i]
  {
    assert GroupOf(records, p, groups[p]);
    var c := Component(groups[p][i], i);
    MembersAre(records, p, c);
    a :| 0 <= a < |records| && records[a].packageId == p && c == Component(records[a].runtime.id, records[a].order);
  }

  /** No component is published twice, within a package or in two packages. */
  lemma GroupsShareNothing(checks: Checks, records: seq<Record>, groups: map<string, seq<EntryId>>,
                           p: string, i: nat, q: string, j: nat)
    requires Bindable(checks, Manifests(records)) && GroupsOf(records, groups)
    requires p in groups && i < |groups[p]| && q in groups && j < |groups[q]|
    requires groups[p][i] == groups[q][j]
    ensures p == q && i == j
  {
    hide GroupsOf;
    var a := PublishedFrom(records, groups, p, i);
    var b := PublishedFrom(records, groups, q, j);
    assert Manifests(records)[a].id == Manifests(records)[b].id;
  }

  lemma GroupsAre(records: seq<Record>, groups: map<string, seq<EntryId>>)
    requires GroupsOf(records, groups)
    ensures groups.Keys == Packages(records)
  {
  }

  lemma NothingToRegister(checks: Checks, known: map<string, Capability>)
    ensures Registrable(checks, known, []) && known + ById([]) == known
  {
  }
}
