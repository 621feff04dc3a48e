/** The guest's two paging loops over a store's collection. */
module Paging {
  import opened Common
  import opened Ordering

  const PAGE_SIZE: nat := 200

  /** `marked` is the revision written into the payload, if the payload has the form of a marked document. */
  datatype Document<T> = Document(marked: Option<string>, value: Option<T>)

  type Collection<T> = map<string, Document<T>>

  datatype Meta = Meta(revision: string, source: string, authoritative: bool, complete: bool)

  /** The collection as one call finds it, with the data of the snapshot that is current then, if there is one. */
  datatype Snapshot<T> = Snapshot(meta: Option<Meta>, content: Collection<T>)

  /** The revision of absent data is Go's zero value. */
  function RevisionOf(meta: Option<Meta>): string {
    if meta.Some? then meta.value.revision else ""
  }

  datatype Error = ListFailed | DataUnavailable | DecodeFailed

  /** A page as the store returns it: ids in order with their documents, and the snapshot's data. */
  datatype Page<T> = Page(meta: Option<Meta>, ids: seq<string>, documents: seq<Document<T>>)

  ghost predicate PageOf<T>(s: Snapshot<T>, after: string, p: Page<T>) {
    && p.meta == s.meta && IsPage(s.content.Keys, after, PAGE_SIZE, p.ids) && |p.documents| == |p.ids|
    && forall i :: 0 <= i < |p.ids| ==> p.ids[i] in s.content && p.documents[i] == s.content[p.ids[i]]
  }

  /** decodeDocument's check that a marked document belongs to the revision being read. */
  ghost predicate Belongs<T>(d: Document<T>, revision: string) {
    d.marked.Some? ==> d.marked.value == revision
  }

  // ---- what a fetch may say about a collection that may change between its calls ----

  /** The document that the k-th call finds decodes to the value, and it belongs to the revision, if one is given. */
  ghost predicate Seen<T>(at: nat -> Snapshot<T>, k: nat, id: string, value: T, revision: Option<string>) {
    && id in at(k).content && at(k).content[id].value == Some(value)
    && (revision.Some? ==> Belongs(at(k).content[id], revision.value))
  }

  ghost predicate SeenBy<T>(at: nat -> Snapshot<T>, calls: nat, id: string, value: T, revision: Option<string>) {
    exists k: nat :: k < calls && Seen(at, k, id, value, revision)
  }

  /** Every call finds a document of this id. */
  ghost predicate Throughout<T>(at: nat -> Snapshot<T>, calls: nat, id: string) {
    id != "" && forall k: nat :: k < calls ==> id in at(k).content
  }

  /** What was gathered was found by some call, in ascending order, each id once. */
  ghost predicate Found<T>(at: nat -> Snapshot<T>, calls: nat, revision: Option<string>, ids: seq<string>,
                           values: seq<T>) {
    && Ascending(ids) && |values| == |ids|
    && forall i :: 0 <= i < |ids| ==> SeenBy(at, calls, ids[i], values[i], revision)
  }

  /** The loop's state: everything up to the bound that was there throughout has been gathered. */
  ghost predicate Collected<T>(at: nat -> Snapshot<T>, calls: nat, revision: Option<string>, after: string,
                               ids: seq<string>, values: seq<T>) {
    && Found(at, calls, revision, ids, values)
    && (forall id :: Throughout(at, calls, id) && id !in ids ==> Less(after, id))
    && (forall i :: 0 <= i < |ids| ==> ids[i] == after || Less(ids[i], after))
  }

  /** All that was there throughout has been gathered. */
  ghost predicate Gathered<T>(at: nat -> Snapshot<T>, calls: nat, revision: Option<string>, ids: seq<string>,
                              values: seq<T>) {
    Found(at, calls, revision, ids, values) && forall id :: Throughout(at, calls, id) ==> id in ids
  }

  /** No call finds another content than the first one. */
  ghost predicate Unchanged<T>(at: nat -> Snapshot<T>, calls: nat) {
    forall k: nat :: k < calls ==> at(k).content == at(0).content
  }

  /** Every document once, in ascending order of the ids, decoded. */
  ghost predicate Whole<T>(content: Collection<T>, ids: seq<string>, values: seq<T>) {
    && Ascending(ids) && |values| == |ids|
    && (forall id :: id in ids <==> id in content)
    && forall i :: 0 <= i < |ids| ==> ids[i] in content && content[ids[i]].value == Some(values[i])
  }

  /** If the collection does not change, what was gathered is the whole of it. */
  lemma GatheredWhole<T>(at: nat -> Snapshot<T>, calls: nat, revision: Option<string>, ids: seq<string>, values: seq<T>)
    requires Gathered(at, calls, revision, ids, values) && Unchanged(at, calls) && calls > 0 && "" !in at(0).content
    ensures Whole(at(0).content, ids, values)
    ensures revision.Some? ==> forall id :: id in at(0).content ==> Belongs(at(0).content[id], revision.value)
  {
    forall i | 0 <= i < |ids|
      ensures ids[i] in at(0).content && at(0).content[ids[i]].value == Some(values[i])
      ensures revision.Some? ==> Belongs(at(0).content[ids[i]], revision.value)
    {
      assert SeenBy(at, calls, ids[i], values[i], revision);
    }
    forall id | id in at(0).content ensures id in ids {
      assert Throughout(at, calls, id);
    }
  }

  /** The ids that no call may exceed; the store's ids are short identifiers, of which there are finitely many. */
  ghost predicate Within<T>(at: nat -> Snapshot<T>, universe: set<string>) {
    "" !in universe && forall k: nat :: at(k).content.Keys <= universe
  }

  /** The documents of a page decode to the values and belong to the revision, if one is given. */
  ghost predicate Decoded<T>(documents: seq<Document<T>>, values: seq<T>, revision: Option<string>) {
    && |values| == |documents|
    && forall i :: 0 <= i < |documents| ==>
         documents[i].value == Some(values[i]) && (revision.Some? ==> Belongs(documents[i], revision.value))
  }

  lemma FoundPage<T>(at: nat -> Snapshot<T>, calls: nat, revision: Option<string>, after: string, ids: seq<string>,
                     values: seq<T>, page: Page<T>, more: seq<T>)
    requires Collected(at, calls, revision, after, ids, values) && PageOf(at(calls), after, page)
    requires Decoded(page.documents, more, revision)
    ensures Found(at, calls + 1, revision, ids + page.ids, values + more)
  {
    var all, got := ids + page.ids, values + more;
    forall i, j | 0 <= i < |ids| && 0 <= j < |page.ids| ensures Less(ids[i], page.ids[j]) {
      assert page.ids[j] in page.ids;
      if ids[i] != after {
        LessTransitive(ids[i], after, page.ids[j]);
      }
    }
    forall i | 0 <= i < |all| ensures SeenBy(at, calls + 1, all[i], got[i], revision) {
      if i < |ids| {
        assert SeenBy(at, calls, ids[i], values[i], revision);
      } else {
        assert Seen(at, calls, all[i], got[i], revision);
      }
    }
  }

  /** A full page moves the bound on. */
  lemma CollectedPage<T>(at: nat -> Snapshot<T>, calls: nat, revision: Option<string>, after: string, ids: seq<string>,
                         values: seq<T>, page: Page<T>, more: seq<T>, universe: set<string>)
    requires Collected(at, calls, revision, after, ids, values) && PageOf(at(calls), after, page) && page.ids != []
    requires Decoded(page.documents, more, revision) && Within(at, universe)
    ensures Collected(at, calls + 1, revision, page.ids[|page.ids| - 1], ids + page.ids, values + more)
    ensures Above(universe, page.ids[|page.ids| - 1]) < Above(universe, after)
  {
    FoundPage(at, calls, revision, after, ids, values, page, more);
    var last := page.ids[|page.ids| - 1];
    assert last in page.ids;
    forall i | 0 <= i < |ids| ensures Less(ids[i], last) {
      if ids[i] != after {
        LessTransitive(ids[i], after, last);
      }
    }
    forall id | Throughout(at, calls + 1, id) && id !in ids + page.ids ensures Less(last, id) {
      assert Throughout(at, calls, id);
      assert id in Above(at(calls).content.Keys, after);
    }
    LessIrreflexive(last);
    forall id | Less(last, id) ensures Less(after, id) {
      LessTransitive(after, last, id);
    }
    assert last in Above(universe, after) && last !in Above(universe, last);
  }

  /** A page that is not full is the last one. */
  lemma GatheredAll<T>(at: nat -> Snapshot<T>, calls: nat, revision: Option<string>, after: string, ids: seq<string>,
                       values: seq<T>, page: Page<T>, more: seq<T>)
    requires Collected(at, calls, revision, after, ids, values) && PageOf(at(calls), after, page)
             && |page.ids| < PAGE_SIZE
    requires Decoded(page.documents, more, revision)
    ensures Gathered(at, calls + 1, revision, ids + page.ids, values + more)
  {
    FoundPage(at, calls, revision, after, ids, values, page, more);
    forall id | Throughout(at, calls + 1, id) && id !in ids ensures id in page.ids {
      assert Throughout(at, calls, id);
      assert id in Above(at(calls).content.Keys, after);
    }
  }

  method DecodePage<T>(documents: seq<Document<T>>) returns (values: seq<T>, error: Option<Error>)
    ensures error.None? <==> forall i :: 0 <= i < |documents| ==> documents[i].value.Some?
    ensures error.None? ==> Decoded(documents, values, None)
    ensures error.Some? ==> error.value == DecodeFailed
  {
    values := [];
    while |values| < |documents|
      invariant |values| <= |documents|
      invariant forall i :: 0 <= i < |values| ==> documents[i].value == Some(values[i])
    {
      if documents[|values|].value.None? {
        return values, Some(DecodeFailed);
      }
      values := values + [documents[|values|].value.value];
    }
    error := None;
  }

  method DecodeRevision<T>(documents: seq<Document<T>>, revision: string) returns (values: seq<T>, error: Option<Error>)
    ensures error.None? <==> forall i ::
              0 <= i < |documents| ==> documents[i].value.Some? && Belongs(documents[i], revision)
    ensures error.None? ==> Decoded(documents, values, Some(revision))
    ensures error == Some(DataUnavailable) ==> exists d :: d in documents && !Belongs(d, revision)
    ensures error == Some(DecodeFailed) ==> exists d :: d in documents && d.value.None?
    ensures error != Some(ListFailed)
  {
    values := [];
    while |values| < |documents|
      invariant |values| <= |documents|
      invariant forall i ::
                  0 <= i < |values| ==> documents[i].value == Some(values[i]) && Belongs(documents[i], revision)
    {
      var d := documents[|values|];
      if d.marked.Some? && d.marked.value != revision {
        assert d in documents && !Belongs(d, revision);
        return values, Some(DataUnavailable);
      }
      if d.value.None? {
        return values, Some(DecodeFailed);
      }
      values := values + [d.value.value];
    }
    error := None;
  }

  /** The store's page; the contract of `List` in the document port. */
  method ListPage<T>(s: Snapshot<T>, after: string) returns (p: Page<T>)
    ensures PageOf(s, after, p)
  {
    var ids := TakeInOrder(Above(s.content.Keys, after), PAGE_SIZE);
    var documents: seq<Document<T>> := [];
    while |documents| < |ids|
      invariant |documents| <= |ids|
      invariant forall i :: 0 <= i < |documents| ==> ids[i] in s.content && documents[i] == s.content[ids[i]]
    {
      assert ids[|documents|] in ids;
      documents := documents + [s.content[ids[|documents|]]];
    }
    p := Page(s.meta, ids, documents);
  }

  /** The call finds a document that does not decode. */
  ghost predicate Undecodable<T>(s: Snapshot<T>) {
    exists id :: id in s.content && s.content[id].value.None?
  }

  /** The call finds a document that is marked with another revision. */
  ghost predicate Foreign<T>(s: Snapshot<T>, revision: string) {
    exists id :: id in s.content && !Belongs(s.content[id], revision)
  }

  /**
   UserCollection. `at` is what each list call finds: documents may come and go between the calls. It
   stops, and a success has every document that was there throughout and none that never was, each once
   in ascending order; if nothing changes it is the whole collection. It fails only with a failed list
   call or a document that does not decode.
   */
  method UserCollection<T>(at: nat -> Snapshot<T>, listFails: nat -> bool, ghost universe: set<string>)
    returns (r: Result<seq<T>, Error>, ids: seq<string>, calls: nat)
    requires Within(at, universe)
    ensures calls > 0 && forall k: nat :: k < calls - 1 ==> !listFails(k)
    ensures r.Ok? ==> Gathered(at, calls, None, ids, r.value) && !listFails(calls - 1)
    ensures r.Ok? && Unchanged(at, calls) ==> Whole(at(0).content, ids, r.value)
    ensures r.Err? ==> if listFails(calls - 1) then r.error == ListFailed
                       else r.error == DecodeFailed && Undecodable(at(calls - 1))
  {
    hide Collected, Gathered, IsPage, Whole, Unchanged;
    var values: seq<T>, after := [], "";
    ids, calls := [], 0;
    CollectedNothing(at, None);
    while true
      invariant Collected(at, calls, None, after, ids, values)
      invariant forall k: nat :: k < calls ==> !listFails(k)
      decreases Above(universe, after)
    {
      calls := calls + 1;
      if listFails(calls - 1) {
        return Err(ListFailed), ids, calls;
      }
      var page := ListPage(at(calls - 1), after);
      var more, error := DecodePage(page.documents);
      if error.Some? {
        return Err(error.value), ids, calls;
      }
      if |page.ids| < PAGE_SIZE {
        GatheredAll(at, calls - 1, None, after, ids, values, page, more);
        ids, values := ids + page.ids, values + more;
        if Unchanged(at, calls) {
          GatheredWhole(at, calls, None, ids, values);
        }
        return Ok(values), ids, calls;
      }
      CollectedPage(at, calls - 1, None, after, ids, values, page, more, universe);
      ids, values, after := ids + page.ids, values + more, page.ids[|page.ids| - 1];
    }
  }

  lemma CollectedNothing<T>(at: nat -> Snapshot<T>, revision: Option<string>)
    ensures Collected(at, 0, revision, "", [], [])
  {
  }

  datatype SnapshotCollection<T> = SnapshotCollection(meta: Option<Meta>, documents: seq<T>)

  /** Every call finds the revision that the first one found. */
  ghost predicate OneRevision<T>(at: nat -> Snapshot<T>, calls: nat) {
    forall k: nat :: k < calls ==> RevisionOf(at(k).meta) == RevisionOf(at(0).meta)
  }

  /** Whenever two calls find the same revision, they find the same contents. */
  ghost predicate RevisionFixesContent<T>(at: nat -> Snapshot<T>) {
    forall j: nat, k: nat :: RevisionOf(at(j).meta) == RevisionOf(at(k).meta) ==> at(j).content == at(k).content
  }

  lemma OneRevisionUnchanged<T>(at: nat -> Snapshot<T>, calls: nat)
    requires OneRevision(at, calls) && RevisionFixesContent(at)
    ensures Unchanged(at, calls)
  {
  }

  /**
   FetchSnapshotCollection while snapshots are replaced between its pages, and also documents of the
   current one. It stops; a success comes from calls that all found one revision, with the snapshot data
   of the last one, and has every document that was there throughout and none that never was, all of
   them of that revision. If the contents of a revision do not change it is the whole of that revision.
   */
  method FetchSnapshotCollection<T>(at: nat -> Snapshot<T>, listFails: nat -> bool, ghost universe: set<string>)
    returns (r: Result<SnapshotCollection<T>, Error>, ids: seq<string>, calls: nat)
    requires Within(at, universe)
    ensures calls > 0 && forall k: nat :: k < calls - 1 ==> !listFails(k)
    ensures r.Ok? ==> !listFails(calls - 1) && OneRevision(at, calls) && r.value.meta == at(calls - 1).meta
    ensures r.Ok? ==> Gathered(at, calls, Some(RevisionOf(at(0).meta)), ids, r.value.documents)
    ensures r.Ok? && Unchanged(at, calls) ==>
              Whole(at(0).content, ids, r.value.documents) && !Foreign(at(0), RevisionOf(at(0).meta))
    ensures r.Ok? && RevisionFixesContent(at) ==> Whole(at(0).content, ids, r.value.documents)
    ensures r.Err? ==>
              match r.error
              case ListFailed => listFails(calls - 1)
              case DataUnavailable => !OneRevision(at, calls) || Foreign(at(calls - 1), RevisionOf(at(0).meta))
              case DecodeFailed => Undecodable(at(calls - 1))
  {
    hide Collected, Gathered, IsPage, Whole, Unchanged;
    ghost var first := Some(RevisionOf(at(0).meta));
    var values: seq<T>, after := [], "";
    var revision, hasRevision := "", false;
    ids, calls := [], 0;
    CollectedNothing(at, first);
    while true
      invariant Collected(at, calls, first, after, ids, values)
      invariant hasRevision <==> calls > 0
      invariant hasRevision ==> revision == first.value
      invariant forall k: nat :: k < calls ==> !listFails(k)
      invariant OneRevision(at, calls)
      decreases Above(universe, after)
    {
      calls := calls + 1;
      if listFails(calls - 1) {
        return Err(ListFailed), ids, calls;
      }
      var page := ListPage(at(calls - 1), after);
      if hasRevision && RevisionOf(page.meta) != revision {
        return Err(DataUnavailable), ids, calls;
      }
      if !hasRevision {
        revision, hasRevision := RevisionOf(page.meta), true;
      }
      var more, error := DecodeRevision(page.documents, revision);
      if error.Some? {
        return Err(error.value), ids, calls;
      }
      if |page.ids| < PAGE_SIZE {
        GatheredAll(at, calls - 1, first, after, ids, values, page, more);
        ids, values := ids + page.ids, values + more;
        if RevisionFixesContent(at) {
          OneRevisionUnchanged(at, calls);
        }
        if Unchanged(at, calls) {
          GatheredWhole(at, calls, first, ids, values);
        }
        return Ok(SnapshotCollection(page.meta, values)), ids, calls;
      }
      CollectedPage(at, calls - 1, first, after, ids, values, page, more, universe);
      ids, values, after := ids + page.ids, values + more, page.ids[|page.ids| - 1];
    }
  }
}
