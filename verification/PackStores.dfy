/** The two implementations of the package document port, each proved against its contents. */
module PackStores {
  import opened Common
  import opened Ordering
  import opened PackStore

  // ---- joined keys ----

  const NUL: char := '\0'

  function ScopeKey(o: Owner): string {
    o.app + [NUL] + o.user + [NUL] + o.namespace
  }

  predicate NoNul(s: string) {
    forall i :: 0 <= i < |s| ==> s[i] != NUL
  }

  lemma ValidOwnerNoNul(o: Owner)
    requires ValidOwner(o)
    ensures NoNul(o.app) && NoNul(o.user) && NoNul(o.namespace)
  {
    assert forall i :: 0 <= i < |o.user| ==> MixedChar(o.user[i]) || o.user[i] in "._:-";
    assert forall i :: 0 <= i < |o.namespace| ==> LowerOrDigit(o.namespace[i]) || NamespaceSeparator(o.namespace[i]);
  }

  /** Two strings without NUL that are each followed by one can be told apart. */
  lemma SplitAtNul(a: string, x: string, b: string, y: string)
    requires NoNul(a) && NoNul(b) && a + [NUL] + x == b + [NUL] + y
    ensures a == b && x == y
  {
    var s := a + [NUL] + x;
    assert s == b + [NUL] + y;
    assert s[|a|] == NUL && s[|b|] == NUL;
    assert forall i :: 0 <= i < |a| ==> s[i] == a[i];
    assert forall i :: 0 <= i < |b| ==> s[i] == b[i];
    assert |a| == |b|;
    assert a == s[..|a|] && b == s[..|b|];
    assert x == s[|a| + 1..] && y == s[|b| + 1..];
  }

  /** The joined key separates any two valid owners. */
  lemma ScopeKeyInjective(a: Owner, b: Owner)
    requires ValidOwner(a) && ValidOwner(b) && ScopeKey(a) == ScopeKey(b)
    ensures a == b
  {
    ValidOwnerNoNul(a);
    ValidOwnerNoNul(b);
    assert a.app + [NUL] + (a.user + [NUL] + a.namespace) == ScopeKey(a);
    assert b.app + [NUL] + (b.user + [NUL] + b.namespace) == ScopeKey(b);
    SplitAtNul(a.app, a.user + [NUL] + a.namespace, b.app, b.user + [NUL] + b.namespace);
    SplitAtNul(a.user, a.namespace, b.user, b.namespace);
  }

  // ---- nested maps ----

  type Nest = map<string, map<string, map<string, Payload>>>

  function Nested(n: Nest, key: string, collection: string, id: string): Option<Payload> {
    if key in n && collection in n[key] && id in n[key][collection] then Some(n[key][collection][id]) else None
  }

  /** The nested maps hold exactly the contents' documents. */
  ghost predicate NestHolds(n: Nest, c: Contents) {
    && (forall k :: k in c.docs ==> ValidOwner(k.owner))
    && forall o, collection, id {:trigger Stored(c, o, collection, id)} :: ValidOwner(o) ==>
         Nested(n, ScopeKey(o), collection, id) == Stored(c, o, collection, id)
  }

  ghost predicate MetasHold(snapshots: map<string, Meta>, c: Contents) {
    forall app, namespace {:trigger SystemKey(app, namespace)} :: ValidOwner(Owner(app, "", namespace)) ==>
      && (ScopeKey(Owner(app, "", namespace)) in snapshots <==> SystemKey(app, namespace) in c.metas)
      && (SystemKey(app, namespace) in c.metas ==>
            snapshots[ScopeKey(Owner(app, "", namespace))] == c.metas[SystemKey(app, namespace)])
  }

  /** One place of the nest changes and the document of the same place with it. */
  lemma NestUpdate(n: Nest, n': Nest, c: Contents, c': Contents, k: Key)
    requires NestHolds(n, c) && ValidOwner(k.owner)
    requires forall key, collection, id :: !(key == ScopeKey(k.owner) && collection == k.collection && id == k.id) ==>
               Nested(n', key, collection, id) == Nested(n, key, collection, id)
    requires forall o, collection, id :: Key(o, collection, id) != k ==>
               Stored(c', o, collection, id) == Stored(c, o, collection, id)
    requires Nested(n', ScopeKey(k.owner), k.collection, k.id) == Stored(c', k.owner, k.collection, k.id)
    requires c'.docs.Keys <= c.docs.Keys + {k}
    ensures NestHolds(n', c')
  {
    hide ValidOwner, ScopeKey;
    forall o, collection, id | ValidOwner(o)
      ensures Nested(n', ScopeKey(o), collection, id) == Stored(c', o, collection, id)
    {
      assert Stored(c, o, collection, id) == Nested(n, ScopeKey(o), collection, id);
      if ScopeKey(o) == ScopeKey(k.owner) {
        ScopeKeyInjective(o, k.owner);
      }
    }
  }

  lemma NestPut(n: Nest, c: Contents, k: Key, p: Payload)
    requires NestHolds(n, c) && ValidOwner(k.owner)
    requires ScopeKey(k.owner) in n && k.collection in n[ScopeKey(k.owner)]
    ensures var key := ScopeKey(k.owner);
      NestHolds(n[key := n[key][k.collection := n[key][k.collection][k.id := p]]], c.(docs := c.docs[k := p]))
  {
    var key := ScopeKey(k.owner);
    hide ValidOwner, ScopeKey, NestHolds;
    var n' := n[key := n[key][k.collection := n[key][k.collection][k.id := p]]];
    NestUpdate(n, n', c, c.(docs := c.docs[k := p]), k);
  }

  lemma NestDelete(n: Nest, c: Contents, k: Key)
    requires NestHolds(n, c) && ValidOwner(k.owner)
    requires ScopeKey(k.owner) in n && k.collection in n[ScopeKey(k.owner)]
    ensures var key := ScopeKey(k.owner);
      NestHolds(n[key := n[key][k.collection := n[key][k.collection] - {k.id}]], c.(docs := c.docs - {k}))
  {
    var key := ScopeKey(k.owner);
    hide ValidOwner, ScopeKey, NestHolds;
    var n' := n[key := n[key][k.collection := n[key][k.collection] - {k.id}]];
    NestUpdate(n, n', c, c.(docs := c.docs - {k}), k);
  }

  class MapStore {
    var documents: Nest
    var snapshots: map<string, Meta>
    ghost var contents: Contents

    ghost predicate Valid()
      reads this
    {
      NestHolds(documents, contents) && MetasHold(snapshots, contents)
    }

    constructor ()
      ensures Valid() && contents == Contents(map[], map[])
    {
      documents, snapshots := map[], map[];
      contents := Contents(map[], map[]);
    }

    method ReadMeta(s: Scope) returns (meta: Option<Meta>)
      requires Valid() && ValidScope(s)
      ensures meta == MetaOf(contents, s)
    {
      ghost var k := SystemKey(s.app, s.namespace);
      if s.user != "" {
        return None;
      }
      assert ValidOwner(OwnerOf(s)) && OwnerOf(s) == Owner(s.app, "", s.namespace);
      if ScopeKey(OwnerOf(s)) in snapshots {
        meta := Some(snapshots[ScopeKey(OwnerOf(s))]);
      } else {
        meta := None;
      }
    }

    /** The collection's map, which is created when it is asked for the first time. */
    method Collection(s: Scope, name: string) returns (docs: map<string, Payload>)
      requires Valid() && ValidScope(s)
      modifies this`documents
      ensures Valid() && ScopeKey(OwnerOf(s)) in documents && name in documents[ScopeKey(OwnerOf(s))]
      ensures docs == documents[ScopeKey(OwnerOf(s))][name]
      ensures forall id :: (id in docs <==> Stored(contents, OwnerOf(s), name, id).Some?)
                           && (id in docs ==> Stored(contents, OwnerOf(s), name, id) == Some(docs[id]))
    {
      hide ValidOwner, ValidScope, ScopeKey;
      var key := ScopeKey(OwnerOf(s));
      if key !in documents {
        documents := documents[key := map[]];
      }
      if name !in documents[key] {
        documents := documents[key := documents[key][name := map[]]];
      }
      assert forall k, c, id :: Nested(documents, k, c, id) == Nested(old(documents), k, c, id);
      docs := documents[key][name];
      ScopeOwner(s);
      assert forall id :: Stored(contents, OwnerOf(s), name, id) == Nested(documents, key, name, id);
    }

    method Get(s: Scope, collection: string, id: string) returns (r: Result<DocumentRead, Error>)
      requires Valid()
      modifies this`documents
      ensures Valid() && r == PackStore.Get(contents, s, collection, id)
    {
      var refused := ValidateAccess(s, collection, id);
      if refused.Some? {
        return Err(refused.value);
      }
      var meta := ReadMeta(s);
      var docs := Collection(s, collection);
      assert id in docs <==> Stored(contents, OwnerOf(s), collection, id).Some?;
      r := Ok(DocumentRead(meta, if id in docs then Some(Document(id, docs[id])) else None));
    }

    method Put(s: Scope, collection: string, id: string, p: Payload) returns (error: Option<Error>)
      requires Valid()
      modifies this
      ensures Valid()
      ensures match error case None => PackStore.Put(old(contents), s, collection, id, p) == Ok(contents)
                          case Some(e) =>
                            PackStore.Put(old(contents), s, collection, id, p) == Err(e) && contents == old(contents)
    {
      error := ValidateAccess(s, collection, id);
      if error.Some? {
        return;
      }
      var payloadOk := ValidatePayload(p);
      if !payloadOk {
        return Some(InvalidPayload);
      }
      var docs := Collection(s, collection);
      ScopeOwner(s);
      hide ValidOwner, ValidScope, ScopeKey, ValidPayload, CheckAccess, NestHolds;
      var key := ScopeKey(OwnerOf(s));
      NestPut(documents, contents, Key(OwnerOf(s), collection, id), p);
      documents := documents[key := documents[key][collection := docs[id := p]]];
      contents := contents.(docs := contents.docs[Key(OwnerOf(s), collection, id) := p]);
    }

    method Delete(s: Scope, collection: string, id: string) returns (error: Option<Error>)
      requires Valid()
      modifies this
      ensures Valid()
      ensures match error case None => PackStore.Delete(old(contents), s, collection, id) == Ok(contents)
                          case Some(e) =>
                            PackStore.Delete(old(contents), s, collection, id) == Err(e) && contents == old(contents)
    {
      error := ValidateAccess(s, collection, id);
      if error.Some? {
        return;
      }
      var docs := Collection(s, collection);
      assert id in docs <==> Stored(contents, OwnerOf(s), collection, id).Some?;
      if id !in docs {
        return Some(NotFound);
      }
      ScopeOwner(s);
      hide ValidOwner, ValidScope, ScopeKey, CheckAccess, NestHolds;
      var key := ScopeKey(OwnerOf(s));
      NestDelete(documents, contents, Key(OwnerOf(s), collection, id));
      documents := documents[key := documents[key][collection := docs - {id}]];
      contents := contents.(docs := contents.docs - {Key(OwnerOf(s), collection, id)});
    }

    method List(s: Scope, collection: string, limit: int, after: string) returns (r: Result<CollectionRead, Error>)
      requires Valid()
      modifies this`documents
      ensures Valid() && Listed(contents, s, collection, limit, after, r)
    {
      var refused := ValidateList(s, collection, limit, after);
      if refused.Some? {
        return Err(refused.value);
      }
      var meta := ReadMeta(s);
      var docs := Collection(s, collection);
      ghost var o := OwnerOf(s);
      var ids := Above(docs.Keys, after);
      assert docs.Keys == Ids(contents, o, collection) by {
        forall id ensures id in docs.Keys <==> id in Ids(contents, o, collection) {
          IdsAre(contents, o, collection, id);
          assert id in docs <==> Stored(contents, o, collection, id).Some?;
        }
      }
      var page := TakeInOrder(ids, limit);
      assert IsPage(Ids(contents, o, collection), after, limit, page);
      var documents: seq<Document> := [];
      while |documents| < |page|
        invariant |documents| <= |page|
        invariant forall i :: 0 <= i < |documents| ==>
                    documents[i].id == page[i] && Stored(contents, o, collection, page[i]) == Some(documents[i].payload)
      {
        var id := page[|documents|];
        assert id in page && id in docs;
        documents := documents + [Document(id, docs[id])];
      }
      assert DocumentsOf(contents, o, collection, page, documents);
      r := Ok(CollectionRead(meta, documents));
    }

    method ReplaceSnapshot(s: Scope, m: Meta, cs: Collections) returns (error: Option<Error>)
      requires Valid()
      modifies this
      ensures Valid()
      ensures error == CheckReplace(s, m, cs)
      ensures error.None? ==> Replaced(old(contents), contents, s, m, cs)
      ensures error.Some? ==> contents == old(contents)
    {
      error := ValidateReplace(s, m, cs);
      if error.Some? {
        return;
      }
      var key := ScopeKey(OwnerOf(s));
      var byCollection := IndexCollections(cs);
      documents := documents[key := byCollection];
      snapshots := snapshots[key := m];
      ScopeOwner(s);
      contents := Replace(contents, s, m, cs);
      NestReplaced(old(documents), documents, old(contents), contents, s, m, cs);
      MetasReplaced(old(snapshots), snapshots, old(contents), contents, s, m);
    }
  }

  method IndexDocuments(docs: seq<Document>) returns (byId: map<string, Payload>)
    ensures forall id :: FindDocument(docs, id) == if id in byId then Some(byId[id]) else None
  {
    byId := map[];
    var n := 0;
    while n < |docs|
      invariant n <= |docs|
      invariant forall id :: FindDocument(docs[..n], id) == if id in byId then Some(byId[id]) else None
    {
      assert docs[..n + 1][..n] == docs[..n];
      byId := byId[docs[n].id := docs[n].payload];
      n := n + 1;
    }
    assert docs[..n] == docs;
  }

  method IndexCollections(cs: Collections) returns (byCollection: map<string, map<string, Payload>>)
    ensures byCollection.Keys == cs.Keys
    ensures forall name, id :: name in cs ==>
              FindDocument(cs[name], id) == if id in byCollection[name] then Some(byCollection[name][id]) else None
  {
    byCollection := map[];
    var left := cs.Keys;
    while left != {}
      invariant left <= cs.Keys && byCollection.Keys == cs.Keys - left
      invariant forall name, id :: name in byCollection ==>
                  FindDocument(cs[name], id) == if id in byCollection[name] then Some(byCollection[name][id]) else None
    {
      var name :| name in left;
      var byId := IndexDocuments(cs[name]);
      byCollection := byCollection[name := byId];
      left := left - {name};
    }
  }

  lemma NestReplaced(n: Nest, n': Nest, c: Contents, c': Contents, s: Scope, m: Meta, cs: Collections)
    requires NestHolds(n, c) && ValidScope(s) && s.user == "" && Replaced(c, c', s, m, cs)
    requires ScopeKey(OwnerOf(s)) in n' && n' == n[ScopeKey(OwnerOf(s)) := n'[ScopeKey(OwnerOf(s))]]
    requires var byCollection := n'[ScopeKey(OwnerOf(s))];
      && byCollection.Keys == cs.Keys
      && forall name, id :: name in cs ==>
           FindDocument(cs[name], id) == if id in byCollection[name] then Some(byCollection[name][id]) else None
    requires forall k :: k in c'.docs ==> k in c.docs || k.owner == Owner(s.app, "", s.namespace)
    ensures NestHolds(n', c')
  {
    ScopeOwner(s);
    hide ValidOwner, ScopeKey, ValidScope, InSnapshot, FindDocument;
    SnapshotNested(n', s, cs);
    var key := ScopeKey(OwnerOf(s));
    forall o, collection, id | ValidOwner(o)
      ensures Nested(n', ScopeKey(o), collection, id) == Stored(c', o, collection, id)
    {
      assert Stored(c, o, collection, id) == Nested(n, ScopeKey(o), collection, id);
      if ScopeKey(o) == key {
        ScopeKeyInjective(o, OwnerOf(s));
      } else {
        assert Nested(n', ScopeKey(o), collection, id) == Nested(n, ScopeKey(o), collection, id);
      }
    }
  }

  lemma SnapshotNested(n: Nest, s: Scope, cs: Collections)
    requires ScopeKey(OwnerOf(s)) in n && n[ScopeKey(OwnerOf(s))].Keys == cs.Keys
    requires var byCollection := n[ScopeKey(OwnerOf(s))];
      forall name, id :: name in cs ==>
        FindDocument(cs[name], id) == if id in byCollection[name] then Some(byCollection[name][id]) else None
    ensures forall name, id :: Nested(n, ScopeKey(OwnerOf(s)), name, id) == InSnapshot(cs, name, id)
  {
    hide ScopeKey, FindDocument;
  }

  lemma MetasReplaced(snapshots: map<string, Meta>, snapshots': map<string, Meta>, c: Contents, c': Contents, s: Scope,
                      m: Meta)
    requires MetasHold(snapshots, c) && ValidScope(s) && s.user == ""
    requires snapshots' == snapshots[ScopeKey(OwnerOf(s)) := m]
             && c'.metas == c.metas[SystemKey(s.app, s.namespace) := m]
    ensures MetasHold(snapshots', c')
  {
    ScopeOwner(s);
    hide ValidOwner, ScopeKey, ValidScope;
    forall app, namespace | ValidOwner(Owner(app, "", namespace))
      ensures ScopeKey(Owner(app, "", namespace)) in snapshots' <==> SystemKey(app, namespace) in c'.metas
      ensures SystemKey(app, namespace) in c'.metas ==>
                snapshots'[ScopeKey(Owner(app, "", namespace))] == c'.metas[SystemKey(app, namespace)]
    {
      var o := Owner(app, "", namespace);
      assert SystemKey(app, namespace) in c.metas <==> ScopeKey(o) in snapshots;
      if ScopeKey(o) == ScopeKey(OwnerOf(s)) {
        ScopeKeyInjective(o, OwnerOf(s));
      }
    }
  }

  // ---- relational rows ----

  datatype SnapshotKey = SnapshotKey(app: string, namespace: string, revision: string)

  datatype SnapshotRow = SnapshotRow(meta: Meta, current: bool)

  type SnapshotTable = map<SnapshotKey, SnapshotRow>

  ghost predicate IsCurrent(t: SnapshotTable, k: SnapshotKey) {
    k in t && t[k].current
  }

  /** At most one snapshot of an App and namespace is current, and the contents have exactly the current ones. */
  ghost predicate OneCurrent(t: SnapshotTable, c: Contents) {
    && (forall k :: k in t ==> t[k].meta.revision == k.revision)
    && (forall a, b :: IsCurrent(t, a) && IsCurrent(t, b) && a.app == b.app && a.namespace == b.namespace ==> a == b)
    && (forall k ::
          IsCurrent(t, k) ==>
            SystemKey(k.app, k.namespace) in c.metas && c.metas[SystemKey(k.app, k.namespace)] == t[k].meta)
    && (forall s: SystemKey :: s in c.metas ==> IsCurrent(t, SnapshotKey(s.app, s.namespace, c.metas[s].revision)))
  }

  lemma SameRows(c: Contents, o: Owner)
    ensures forall collection, id :: Stored(c, o, collection, id) == Stored(Contents(c.docs, map[]), o, collection, id)
  {
  }

  lemma MarkedRows(t: SnapshotTable, t': SnapshotTable, s: Scope, m: Meta)
    requires forall k :: k in t' <==> k in t || k == SnapshotKey(s.app, s.namespace, m.revision)
    requires SnapshotKey(s.app, s.namespace, m.revision) in t'
    requires t'[SnapshotKey(s.app, s.namespace, m.revision)] == SnapshotRow(m, true)
    requires forall k ::
               k in t' && k != SnapshotKey(s.app, s.namespace, m.revision) ==>
                 t'[k] == Deactivated(k, t[k], s.app, s.namespace)
    ensures forall k :: k in t' ==> t'[k] == Marked(t, k, s, m)
  {
  }

  lemma RowsReplaced(c: Contents, c': Contents, others: map<Key, Payload>, s: Scope, m: Meta, cs: Collections)
    requires c'.metas == c.metas[SystemKey(s.app, s.namespace) := m]
    requires others == map k | k in c.docs && k.owner != Owner(s.app, "", s.namespace) :: c.docs[k]
    requires forall k: Key :: k.owner != Owner(s.app, "", s.namespace) ==>
               (k in c'.docs <==> k in others) && (k in c'.docs ==> c'.docs[k] == others[k])
    requires forall collection, id ::
               InSnapshot(cs, collection, id) == Stored(c', Owner(s.app, "", s.namespace), collection, id)
    ensures Replaced(c, c', s, m, cs)
  {
    forall o, collection, id
      ensures Stored(c', o, collection, id) ==
              if o == Owner(s.app, "", s.namespace) then InSnapshot(cs, collection, id)
              else Stored(c, o, collection, id)
    {
      var k := Key(o, collection, id);
      assert k.owner == o;
    }
  }

  function Deactivated(k: SnapshotKey, row: SnapshotRow, app: string, namespace: string): SnapshotRow {
    if k.app == app && k.namespace == namespace then row.(current := false) else row
  }

  /** A row of the snapshot table after the two statements that move the current flag. */
  ghost function Marked(t: SnapshotTable, k: SnapshotKey, s: Scope, m: Meta): SnapshotRow
    requires k in t || k == SnapshotKey(s.app, s.namespace, m.revision)
  {
    if k == SnapshotKey(s.app, s.namespace, m.revision) then SnapshotRow(m, true)
    else Deactivated(k, t[k], s.app, s.namespace)
  }

  /** What the two statements do to the flags: the added snapshot is the namespace's current one. */
  ghost predicate FlagMoved(t: SnapshotTable, t': SnapshotTable, s: Scope, m: Meta) {
    var added := SnapshotKey(s.app, s.namespace, m.revision);
    && (forall k ::
          IsCurrent(t', k) <==> k == added || (IsCurrent(t, k) && !(k.app == s.app && k.namespace == s.namespace)))
    && (forall k :: k in t' ==> k == added || k in t)
    && (forall k :: k in t' ==> t'[k].meta == if k == added then m else t[k].meta)
  }

  lemma FlagMoves(t: SnapshotTable, t': SnapshotTable, s: Scope, m: Meta)
    requires forall k :: k in t' <==> k in t || k == SnapshotKey(s.app, s.namespace, m.revision)
    requires forall k :: k in t' ==> t'[k] == Marked(t, k, s, m)
    ensures FlagMoved(t, t', s, m)
  {
  }

  lemma OneStillCurrent(t: SnapshotTable, t': SnapshotTable, c: Contents, c': Contents, s: Scope, m: Meta)
    requires OneCurrent(t, c) && c'.metas == c.metas[SystemKey(s.app, s.namespace) := m] && FlagMoved(t, t', s, m)
    ensures OneCurrent(t', c')
  {
    forall x: SystemKey | x in c'.metas ensures IsCurrent(t', SnapshotKey(x.app, x.namespace, c'.metas[x].revision)) {
      if x != SystemKey(s.app, s.namespace) {
        assert IsCurrent(t, SnapshotKey(x.app, x.namespace, c.metas[x].revision));
      }
    }
  }

  /** Clearing the old flag and setting the new one leaves exactly one current snapshot. */
  lemma CurrentReplaced(t: SnapshotTable, t': SnapshotTable, c: Contents, c': Contents, s: Scope, m: Meta)
    requires OneCurrent(t, c) && c'.metas == c.metas[SystemKey(s.app, s.namespace) := m]
    requires forall k :: k in t' <==> k in t || k == SnapshotKey(s.app, s.namespace, m.revision)
    requires forall k :: k in t' ==> t'[k] == Marked(t, k, s, m)
    ensures OneCurrent(t', c')
  {
    hide OneCurrent, FlagMoved;
    FlagMoves(t, t', s, m);
    OneStillCurrent(t, t', c, c', s, m);
  }

  class RowStore {
    var rows: map<Key, Payload>
    var snapshots: SnapshotTable
    ghost var contents: Contents

    ghost predicate Valid()
      reads this
    {
      rows == contents.docs && OneCurrent(snapshots, contents)
    }

    constructor ()
      ensures Valid() && contents == Contents(map[], map[])
    {
      rows, snapshots := map[], map[];
      contents := Contents(map[], map[]);
    }

    /** The row with the current flag, if there is one; its times are stored as text. */
    method ReadMeta(s: Scope) returns (meta: Result<Option<Meta>, Error>)
      requires Valid()
      ensures meta == if Jammed(contents, s) then Err(Unreadable) else Ok(MetaOf(contents, s))
    {
      if s.user != "" {
        return Ok(None);
      }
      var matching := set k | k in snapshots && snapshots[k].current && k.app == s.app && k.namespace == s.namespace;
      assert forall k :: k in matching <==> IsCurrent(snapshots, k) && k.app == s.app && k.namespace == s.namespace;
      if matching == {} {
        meta := Ok(None);
      } else {
        var k :| k in matching;
        var found := snapshots[k].meta;
        if found.importedAt < YEAR_0 || found.importedAt >= YEAR_10000
           || found.validUntil < YEAR_0 || found.validUntil >= YEAR_10000 {
          return Err(Unreadable);
        }
        meta := Ok(Some(found));
      }
    }

    method Get(s: Scope, collection: string, id: string) returns (r: Result<DocumentRead, Error>)
      requires Valid()
      ensures r == if CheckAccess(s, collection, id).None? && Jammed(contents, s) then Err(Unreadable)
                   else PackStore.Get(contents, s, collection, id)
    {
      var refused := ValidateAccess(s, collection, id);
      if refused.Some? {
        return Err(refused.value);
      }
      var meta := ReadMeta(s);
      if meta.Err? {
        return Err(meta.error);
      }
      var k := Key(Owner(s.app, s.user, s.namespace), collection, id);
      r := Ok(DocumentRead(meta.value, if k in rows then Some(Document(id, rows[k])) else None));
    }

    method Put(s: Scope, collection: string, id: string, p: Payload) returns (error: Option<Error>)
      requires Valid()
      modifies this
      ensures Valid()
      ensures match error case None => PackStore.Put(old(contents), s, collection, id, p) == Ok(contents)
                          case Some(e) =>
                            PackStore.Put(old(contents), s, collection, id, p) == Err(e) && contents == old(contents)
    {
      error := ValidateAccess(s, collection, id);
      if error.Some? {
        return;
      }
      var payloadOk := ValidatePayload(p);
      if !payloadOk {
        return Some(InvalidPayload);
      }
      rows := rows[Key(Owner(s.app, s.user, s.namespace), collection, id) := p];
      contents := contents.(docs := rows);
    }

    method Delete(s: Scope, collection: string, id: string) returns (error: Option<Error>)
      requires Valid()
      modifies this
      ensures Valid()
      ensures match error case None => PackStore.Delete(old(contents), s, collection, id) == Ok(contents)
                          case Some(e) =>
                            PackStore.Delete(old(contents), s, collection, id) == Err(e) && contents == old(contents)
    {
      error := ValidateAccess(s, collection, id);
      if error.Some? {
        return;
      }
      var k := Key(Owner(s.app, s.user, s.namespace), collection, id);
      if k !in rows {
        return Some(NotFound);
      }
      rows := rows - {k};
      contents := contents.(docs := rows);
    }

    method List(s: Scope, collection: string, limit: int, after: string) returns (r: Result<CollectionRead, Error>)
      requires Valid()
      ensures if CheckList(s, collection, limit, after).None? && Jammed(contents, s) then r == Err(Unreadable)
              else Listed(contents, s, collection, limit, after, r)
    {
      var refused := ValidateList(s, collection, limit, after);
      if refused.Some? {
        return Err(refused.value);
      }
      var meta := ReadMeta(s);
      if meta.Err? {
        return Err(meta.error);
      }
      var o := Owner(s.app, s.user, s.namespace);
      assert o == OwnerOf(s);
      var ids := set k | k in rows && k.owner == o && k.collection == collection && Less(after, k.id) :: k.id;
      assert ids == Above(Ids(contents, o, collection), after);
      var page := TakeInOrder(ids, limit);
      assert IsPage(Ids(contents, o, collection), after, limit, page);
      var documents: seq<Document> := [];
      while |documents| < |page|
        invariant |documents| <= |page|
        invariant forall i :: 0 <= i < |documents| ==>
                    documents[i].id == page[i] && Stored(contents, o, collection, page[i]) == Some(documents[i].payload)
      {
        var id := page[|documents|];
        assert id in page;
        IdsAre(contents, o, collection, id);
        documents := documents + [Document(id, rows[Key(o, collection, id)])];
      }
      assert DocumentsOf(contents, o, collection, page, documents);
      r := Ok(CollectionRead(meta.value, documents));
    }

    method ReplaceSnapshot(s: Scope, m: Meta, cs: Collections) returns (error: Option<Error>)
      requires Valid()
      modifies this
      ensures Valid()
      ensures error == CheckReplace(s, m, cs)
      ensures error.None? ==> Replaced(old(contents), contents, s, m, cs)
      ensures error.Some? ==> contents == old(contents)
    {
      error := ValidateReplace(s, m, cs);
      if error.Some? {
        return;
      }
      hide CheckReplace, OneCurrent, InSnapshot, Replaced, Marked;
      var o := Owner(s.app, "", s.namespace);
      Deactivate(s.app, s.namespace);
      ClearOwner(o);
      ghost var others := rows;
      InsertSnapshot(o, cs);
      snapshots := snapshots[SnapshotKey(s.app, s.namespace, m.revision) := SnapshotRow(m, true)];
      contents := Contents(rows, contents.metas[SystemKey(s.app, s.namespace) := m]);
      SameRows(contents, o);
      RowsReplaced(old(contents), contents, others, s, m, cs);
      MarkedRows(old(snapshots), snapshots, s, m);
      CurrentReplaced(old(snapshots), snapshots, old(contents), contents, s, m);
    }

    /** The update that takes the current flag from the namespace's snapshots. */
    method Deactivate(app: string, namespace: string)
      modifies this`snapshots
      ensures snapshots.Keys == old(snapshots).Keys
      ensures forall k :: k in snapshots ==> snapshots[k] == Deactivated(k, old(snapshots)[k], app, namespace)
    {
      snapshots := map k | k in snapshots :: Deactivated(k, snapshots[k], app, namespace);
    }

    method ClearOwner(o: Owner)
      modifies this`rows
      ensures rows == map k | k in old(rows) && k.owner != o :: old(rows)[k]
    {
      rows := map k | k in rows && k.owner != o :: rows[k];
    }

    /** The insert statements of a snapshot, collection by collection. */
    method InsertSnapshot(o: Owner, cs: Collections)
      requires forall k :: k in rows ==> k.owner != o
      modifies this`rows
      ensures forall k: Key ::
                k.owner != o ==> (k in rows <==> k in old(rows)) && (k in rows ==> rows[k] == old(rows)[k])
      ensures forall collection, id :: InSnapshot(cs, collection, id) ==
                Stored(Contents(rows, map[]), o, collection, id)
    {
      var left := cs.Keys;
      while left != {}
        invariant left <= cs.Keys
        invariant forall k: Key ::
                    k.owner != o ==> (k in rows <==> k in old(rows)) && (k in rows ==> rows[k] == old(rows)[k])
        invariant forall collection, id :: (if collection in left then None else InSnapshot(cs, collection, id)) ==
                    Stored(Contents(rows, map[]), o, collection, id)
      {
        var name :| name in left;
        ghost var before := rows;
        assert forall id :: InSnapshot(cs, name, id) == FindDocument(cs[name], id);
        InsertCollection(o, name, cs[name]);
        assert forall collection, id :: collection != name ==>
            Stored(Contents(rows, map[]), o, collection, id) == Stored(Contents(before, map[]), o, collection, id);
        left := left - {name};
      }
    }

    method InsertCollection(o: Owner, name: string, docs: seq<Document>)
      requires forall id :: Stored(Contents(rows, map[]), o, name, id).None?
      modifies this`rows
      ensures forall k: Key :: !(k.owner == o && k.collection == name) ==>
                (k in rows <==> k in old(rows)) && (k in rows ==> rows[k] == old(rows)[k])
      ensures forall id :: FindDocument(docs, id) == Stored(Contents(rows, map[]), o, name, id)
    {
      var n := 0;
      while n < |docs|
        invariant n <= |docs|
        invariant forall k: Key :: !(k.owner == o && k.collection == name) ==>
                    (k in rows <==> k in old(rows)) && (k in rows ==> rows[k] == old(rows)[k])
        invariant forall id :: FindDocument(docs[..n], id) == Stored(Contents(rows, map[]), o, name, id)
      {
        assert docs[..n + 1][..n] == docs[..n];
        rows := rows[Key(o, name, docs[n].id) := docs[n].payload];
        n := n + 1;
      }
      assert docs[..n] == docs;
    }
  }

  // ---- observational equality ----

  datatype Operation =
    | DoGet(scope: Scope, collection: string, id: string)
    | DoPut(scope: Scope, collection: string, id: string, payload: Payload)
    | DoDelete(scope: Scope, collection: string, id: string)
    | DoList(scope: Scope, collection: string, limit: int, after: string)
    | DoReplace(scope: Scope, meta: Meta, collections: Collections)

  datatype Outcome =
    | GotDocument(r: Result<DocumentRead, Error>)
    | GotList(l: Result<CollectionRead, Error>)
    | Wrote(e: Option<Error>)

  method RunOnMaps(store: MapStore, op: Operation) returns (outcome: Outcome)
    requires store.Valid()
    modifies store
    ensures store.Valid() && Explains(old(store.contents), op, store.contents, outcome)
  {
    match op {
      case DoGet(s, c, id) =>
        var r := store.Get(s, c, id);
        outcome := GotDocument(r);
      case DoPut(s, c, id, p) =>
        var e := store.Put(s, c, id, p);
        outcome := Wrote(e);
      case DoDelete(s, c, id) =>
        var e := store.Delete(s, c, id);
        outcome := Wrote(e);
      case DoList(s, c, limit, after) =>
        var r := store.List(s, c, limit, after);
        outcome := GotList(r);
      case DoReplace(s, m, cs) =>
        var e := store.ReplaceSnapshot(s, m, cs);
        outcome := Wrote(e);
    }
  }

  /** The operation reads under a snapshot whose times cannot be read back. */
  ghost predicate Jams(c: Contents, op: Operation) {
    match op
    case DoGet(s, n, id) => CheckAccess(s, n, id).None? && Jammed(c, s)
    case DoList(s, n, limit, after) => CheckList(s, n, limit, after).None? && Jammed(c, s)
    case _ => false
  }

  ghost function Unread(op: Operation): Outcome {
    if op.DoGet? then GotDocument(Err(Unreadable)) else GotList(Err(Unreadable))
  }

  method RunOnRows(store: RowStore, op: Operation) returns (outcome: Outcome)
    requires store.Valid()
    modifies store
    ensures store.Valid()
    ensures if Jams(old(store.contents), op) then store.contents == old(store.contents) && outcome == Unread(op)
            else Explains(old(store.contents), op, store.contents, outcome)
  {
    match op {
      case DoGet(s, c, id) =>
        var r := store.Get(s, c, id);
        outcome := GotDocument(r);
      case DoPut(s, c, id, p) =>
        var e := store.Put(s, c, id, p);
        outcome := Wrote(e);
      case DoDelete(s, c, id) =>
        var e := store.Delete(s, c, id);
        outcome := Wrote(e);
      case DoList(s, c, limit, after) =>
        var r := store.List(s, c, limit, after);
        outcome := GotList(r);
      case DoReplace(s, m, cs) =>
        var e := store.ReplaceSnapshot(s, m, cs);
        outcome := Wrote(e);
    }
  }

  /** What the port promises of one operation: its outcome and the contents it leaves. */
  ghost predicate Explains(c: Contents, op: Operation, c': Contents, outcome: Outcome) {
    match op
    case DoGet(s, n, id) => c' == c && outcome == GotDocument(PackStore.Get(c, s, n, id))
    case DoPut(s, n, id, p) =>
      (match PackStore.Put(c, s, n, id, p)
       case Ok(next) => c' == next && outcome == Wrote(None)
       case Err(e) => c' == c && outcome == Wrote(Some(e)))
    case DoDelete(s, n, id) =>
      (match PackStore.Delete(c, s, n, id)
       case Ok(next) => c' == next && outcome == Wrote(None)
       case Err(e) => c' == c && outcome == Wrote(Some(e)))
    case DoList(s, n, limit, after) => c' == c && outcome.GotList? && Listed(c, s, n, limit, after, outcome.l)
    case DoReplace(s, m, cs) =>
      && outcome == Wrote(CheckReplace(s, m, cs))
      && if CheckReplace(s, m, cs).None? then Replaced(c, c', s, m, cs) else c' == c
  }

  /** The port determines outcome and contents, so any two implementations agree. */
  lemma ExplainsUnique(c: Contents, op: Operation, a: Contents, b: Contents, x: Outcome, y: Outcome)
    requires Explains(c, op, a, x) && Explains(c, op, b, y)
    ensures a == b && x == y
  {
    match op
    case DoGet(s, n, id) =>
    case DoPut(s, n, id, p) =>
    case DoDelete(s, n, id) =>
    case DoList(s, n, limit, after) => ListedUnique(c, s, n, limit, after, x.l, y.l);
    case DoReplace(s, m, cs) =>
      if CheckReplace(s, m, cs).None? {
        ReplacedUnique(c, a, b, s, m, cs);
      }
  }

  /** The contents that the port prescribes after an operation. */
  ghost function Next(c: Contents, op: Operation): Contents {
    match op
    case DoPut(s, n, id, p) => (match PackStore.Put(c, s, n, id, p) case Ok(next) => next case Err(_) => c)
    case DoDelete(s, n, id) => (match PackStore.Delete(c, s, n, id) case Ok(next) => next case Err(_) => c)
    case DoReplace(s, m, cs) => if CheckReplace(s, m, cs).None? then Replace(c, s, m, cs) else c
    case _ => c
  }

  lemma NextIs(c: Contents, op: Operation, c': Contents, outcome: Outcome)
    requires Explains(c, op, c', outcome)
    ensures c' == Next(c, op)
  {
    match op
    case DoReplace(s, m, cs) =>
      if CheckReplace(s, m, cs).None? {
        ReplacedUnique(c, c', Next(c, op), s, m, cs);
      }
    case _ =>
  }

  ghost function After(ops: seq<Operation>): Contents {
    if ops == [] then Contents(map[], map[]) else Next(After(ops[..|ops| - 1]), ops[|ops| - 1])
  }

  /** A read that jams has an answer on the maps. */
  lemma JamsDiffer(c: Contents, op: Operation, c': Contents, outcome: Outcome)
    requires Explains(c, op, c', outcome) && Jams(c, op)
    ensures outcome != Unread(op) && c' == c
  {
  }

  /** One operation on two stores with the same contents. */
  method RunOnBoth(maps: MapStore, rows: RowStore, op: Operation) returns (onMaps: Outcome, onRows: Outcome)
    requires maps.Valid() && rows.Valid() && maps.contents == rows.contents
    modifies maps, rows
    ensures maps.Valid() && rows.Valid() && maps.contents == rows.contents == Next(old(maps.contents), op)
    ensures onMaps == onRows <==> !Jams(old(maps.contents), op)
    ensures Jams(old(maps.contents), op) ==> onRows == Unread(op)
  {
    hide Explains, Jams, Next, Unread, MapStore.Valid, RowStore.Valid;
    ghost var c := maps.contents;
    onMaps := RunOnMaps(maps, op);
    NextIs(c, op, maps.contents, onMaps);
    onRows := RunOnRows(rows, op);
    if Jams(c, op) {
      JamsDiffer(c, op, maps.contents, onMaps);
    } else {
      ExplainsUnique(c, op, maps.contents, rows.contents, onMaps, onRows);
    }
  }

  /** The k-th operation reads under a snapshot whose times cannot be read back. */
  ghost predicate JamsAt(ops: seq<Operation>, k: nat)
    requires k < |ops|
  {
    Jams(After(ops[..k]), ops[k])
  }

  ghost predicate NeverJams(ops: seq<Operation>) {
    forall k: nat :: k < |ops| ==> !JamsAt(ops, k)
  }

  /** The n-th outcomes are equal exactly if the n-th operation does not jam. */
  ghost predicate Compared(ops: seq<Operation>, n: nat, onMap: Outcome, onRow: Outcome)
    requires n < |ops|
  {
    if JamsAt(ops, n) then onMap != onRow && onRow == Unread(ops[n]) else onMap == onRow
  }

  lemma AfterNext(ops: seq<Operation>, n: nat)
    requires n < |ops|
    ensures After(ops[..n + 1]) == Next(After(ops[..n]), ops[n])
  {
    assert ops[..n + 1][..n] == ops[..n];
  }

  lemma ComparedAll(ops: seq<Operation>, onMaps: seq<Outcome>, onRows: seq<Outcome>)
    requires |onMaps| == |onRows| == |ops| && forall k: nat :: k < |ops| ==> Compared(ops, k, onMaps[k], onRows[k])
    ensures onMaps == onRows <==> NeverJams(ops)
  {
    hide JamsAt;
    if onMaps == onRows {
      forall k: nat | k < |ops| ensures !JamsAt(ops, k) {
        assert Compared(ops, k, onMaps[k], onRows[k]);
      }
    } else {
      var k: nat :| k < |ops| && onMaps[k] != onRows[k];
      assert Compared(ops, k, onMaps[k], onRows[k]);
    }
  }

  /**
   Every sequence of operations, valid or not, has the same outcomes on both stores exactly if none reads
   under a snapshot whose times cannot be read back; such a read fails on the rows, and no other outcome
   differs.
   */
  method SameOutcomes(ops: seq<Operation>) returns (onMaps: seq<Outcome>, onRows: seq<Outcome>)
    ensures |onMaps| == |onRows| == |ops| && forall k: nat :: k < |ops| ==> Compared(ops, k, onMaps[k], onRows[k])
    ensures onMaps == onRows <==> NeverJams(ops)
  {
    hide Jams, Next, After, NeverJams, MapStore.Valid, RowStore.Valid;
    var maps := new MapStore();
    var rows := new RowStore();
    EmptyAfter(ops);
    onMaps, onRows := [], [];
    while |onMaps| < |ops|
      invariant |onMaps| == |onRows| <= |ops| && maps.Valid() && rows.Valid()
      invariant maps.contents == rows.contents == After(ops[..|onMaps|])
      invariant fresh(maps) && fresh(rows)
      invariant forall k: nat :: k < |onMaps| ==> Compared(ops, k, onMaps[k], onRows[k])
    {
      AfterNext(ops, |onMaps|);
      var x, y := RunOnBoth(maps, rows, ops[|onMaps|]);
      onMaps, onRows := onMaps + [x], onRows + [y];
    }
    assert ops[..|ops|] == ops;
    ComparedAll(ops, onMaps, onRows);
  }

  lemma EmptyAfter(ops: seq<Operation>)
    ensures After(ops[..0]) == Contents(map[], map[])
  {
  }

  ghost predicate AllReadable(c: Contents) {
    forall k :: k in c.metas ==> Readable(c.metas[k])
  }

  lemma {:induction false} ReadableAfter(ops: seq<Operation>)
    requires forall op :: op in ops && op.DoReplace? ==> Readable(op.meta)
    ensures AllReadable(After(ops))
  {
    if ops != [] {
      ReadableAfter(ops[..|ops| - 1]);
      assert ops[|ops| - 1] in ops;
    }
  }

  /** Snapshots of which all times lie in the years 0 to 9999 never jam. */
  lemma ReadableNeverJams(ops: seq<Operation>)
    requires forall op :: op in ops && op.DoReplace? ==> Readable(op.meta)
    ensures NeverJams(ops)
  {
    forall k: nat | k < |ops| ensures !JamsAt(ops, k) {
      ReadableAfter(ops[..k]);
    }
  }

  /** A snapshot that is accepted although it is valid until year 10000, and a read after it. */
  lemma FarSnapshotJams()
    ensures var s, m := Scope("a", "a", "a/a", ""), Meta("a", "a", true, true, 1, YEAR_10000);
      var cs := map["a" := [Document("a", Payload("1", true))]];
      && CheckReplace(s, m, cs).None? && !NeverJams([DoReplace(s, m, cs), DoGet(s, "a", "a")])
  {
    var s, m := Scope("a", "a", "a/a", ""), Meta("a", "a", true, true, 1, YEAR_10000);
    var cs := map["a" := [Document("a", Payload("1", true))]];
    var ops := [DoReplace(s, m, cs), DoGet(s, "a", "a")];
    assert ops[..1] == [DoReplace(s, m, cs)] && ops[..1][..0] == [];
    assert After(ops[..1]) == Next(After(ops[..1][..0]), ops[0]);
    assert JamsAt(ops, 1);
  }

  lemma ScopeOwner(s: Scope)
    requires ValidScope(s)
    ensures ValidOwner(OwnerOf(s))
  {
  }
}
