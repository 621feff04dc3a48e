/**
 The package document port, stated over abstract contents, and its two implementations: nested maps
 under joined keys, and relational rows with a current flag on snapshots.
 */
module PackStore {
  import opened Common
  import opened Ordering

  const MAX_PAYLOAD_BYTES: nat := 64 * 1024
  const MAX_LIST_LIMIT: nat := 200
  const MAX_SNAPSHOT_DOCS: nat := 100_000
  const MAX_SNAPSHOT_COLLECTIONS: nat := 32

  datatype Scope = Scope(app: string, package: string, namespace: string, user: string)

  /** `json` says whether the text is valid UTF-8 JSON. */
  datatype Payload = Payload(text: string, json: bool)

  datatype Document = Document(id: string, payload: Payload)

  /** Times are instants in nanoseconds; zero is Go's zero time, the start of year 1. */
  datatype Meta = Meta(revision: string, source: string, authoritative: bool, complete: bool, importedAt: int,
                       validUntil: int)

  type Collections = map<string, seq<Document>>

  datatype Error = NotFound | InvalidScope | InvalidKey | InvalidPayload | InvalidSnapshot | Unreadable

  datatype DocumentRead = DocumentRead(meta: Option<Meta>, document: Option<Document>)

  datatype CollectionRead = CollectionRead(meta: Option<Meta>, documents: seq<Document>)

  // ---- validation ----

  predicate MixedChar(c: char) {
    'A' <= c <= 'Z' || 'a' <= c <= 'z' || '0' <= c <= '9'
  }

  predicate IsStableMixed(s: string) {
    && 1 <= |s| <= 128 && MixedChar(s[0])
    && forall i :: 0 <= i < |s| ==> MixedChar(s[i]) || s[i] in "._:-"
  }

  /** The class [A-Za-z0-9], by the numbers of its characters. */
  ghost predicate Alphanumeric(c: char) {
    65 <= c as int <= 90 || 97 <= c as int <= 122 || 48 <= c as int <= 57
  }

  /** The expression [A-Za-z0-9][A-Za-z0-9._:-]{0,127}. */
  ghost predicate MatchesMixed(s: string) {
    exists head, tail ::
      && s == [head] + tail && Alphanumeric(head) && |tail| <= 127
      && forall c :: c in tail ==> Alphanumeric(c) || c in "._:-"
  }

  /** Mixed identifiers are the strings that their expression matches. */
  lemma StableMixedMatches(s: string)
    ensures IsStableMixed(s) <==> MatchesMixed(s)
  {
    if s != "" {
      assert s == [s[0]] + s[1..];
      assert forall i :: 0 < i < |s| ==> s[i] == s[1..][i - 1];
    }
  }

  predicate NamespaceSeparator(c: char) {
    c in "/._:-"
  }

  predicate IsNamespace(s: string) {
    && 0 < |s| <= 128 && 'a' <= s[0] <= 'z' && LowerOrDigit(s[|s| - 1])
    && (forall i :: 0 <= i < |s| ==> LowerOrDigit(s[i]) || NamespaceSeparator(s[i]))
    && (forall i :: 0 < i < |s| && NamespaceSeparator(s[i]) ==> LowerOrDigit(s[i - 1]))
  }

  /** Namespaces are the strings of at most 128 characters that their expression matches. */
  lemma NamespaceMatches(s: string)
    ensures IsNamespace(s) <==> |s| <= 128 && MatchesWords(s, "/._:-")
  {
    if s != "" && 'a' <= s[0] <= 'z' {
      FollowsIsSpaced(s[1..], "/._:-");
      SpacedTail(s, "/._:-", 1);
    }
  }

  ghost predicate ValidScope(s: Scope) {
    && IsStableId(s.app) && IsStableId(s.package) && (s.user != "" ==> IsStableMixed(s.user))
    && IsNamespace(s.namespace) && s.package + "/" <= s.namespace
  }

  ghost predicate ValidPayload(p: Payload) {
    0 < |p.text| <= MAX_PAYLOAD_BYTES && p.json
  }

  ghost predicate ValidMeta(m: Meta) {
    && IsStableId(m.revision) && 0 < |m.source| <= 256 && m.complete
    && m.importedAt != 0 && m.validUntil != 0 && m.importedAt < m.validUntil
  }

  const DAY: int := 86_400_000_000_000
  const YEAR_0: int := -366 * DAY
  const YEAR_10000: int := 3_652_059 * DAY

  /** The times that RFC 3339 can write with four digits for the year; others cannot be read back. */
  ghost predicate Readable(m: Meta) {
    YEAR_0 <= m.importedAt < YEAR_10000 && YEAR_0 <= m.validUntil < YEAR_10000
  }

  ghost predicate ValidDocuments(docs: seq<Document>) {
    && 0 < |docs| <= MAX_SNAPSHOT_DOCS
    && (forall i :: 0 <= i < |docs| ==> IsStableId(docs[i].id) && ValidPayload(docs[i].payload))
    && (forall i, j :: 0 <= i < j < |docs| ==> docs[i].id != docs[j].id)
  }

  ghost predicate ValidSnapshot(m: Meta, cs: Collections) {
    && ValidMeta(m) && 0 < |cs| <= MAX_SNAPSHOT_COLLECTIONS
    && forall name :: name in cs ==> IsStableId(name) && ValidDocuments(cs[name])
  }

  /** The checks of an access to one document, in the order in which they are made. */
  ghost function CheckAccess(s: Scope, collection: string, id: string): Option<Error> {
    if !ValidScope(s) then Some(InvalidScope)
    else if !IsStableId(collection) || !IsStableId(id) then Some(InvalidKey)
    else None
  }

  ghost function CheckList(s: Scope, collection: string, limit: int, after: string): Option<Error> {
    if !ValidScope(s) then Some(InvalidScope)
    else if !IsStableId(collection) || limit < 1 || limit > MAX_LIST_LIMIT || (after != "" && !IsStableId(after))
    then Some(InvalidKey)
    else None
  }

  ghost function CheckReplace(s: Scope, m: Meta, cs: Collections): Option<Error> {
    if s.user != "" || !ValidScope(s) then Some(InvalidScope)
    else if !ValidSnapshot(m, cs) then Some(InvalidSnapshot)
    else None
  }

  method ValidateScope(s: Scope) returns (ok: bool)
    ensures ok <==> ValidScope(s)
  {
    if !IsStableId(s.app) || !IsStableId(s.package) {
      return false;
    }
    if s.user != "" && !IsStableMixed(s.user) {
      return false;
    }
    if !IsNamespace(s.namespace) {
      return false;
    }
    ok := s.package + "/" <= s.namespace;
  }

  method ValidatePayload(p: Payload) returns (ok: bool)
    ensures ok <==> ValidPayload(p)
  {
    if |p.text| == 0 || |p.text| > MAX_PAYLOAD_BYTES {
      return false;
    }
    ok := p.json;
  }

  method ValidateMeta(m: Meta) returns (ok: bool)
    ensures ok <==> ValidMeta(m)
  {
    if !IsStableId(m.revision) || m.source == "" || |m.source| > 256 || !m.complete {
      return false;
    }
    ok := m.importedAt != 0 && m.validUntil != 0 && m.validUntil > m.importedAt;
  }

  /** The documents of one collection: each id is looked up among those seen before. */
  method ValidateDocuments(docs: seq<Document>) returns (ok: bool)
    ensures ok <==> ValidDocuments(docs)
  {
    if |docs| == 0 || |docs| > MAX_SNAPSHOT_DOCS {
      return false;
    }
    var seen: set<string> := {};
    var n := 0;
    while n < |docs|
      invariant n <= |docs| && forall id :: id in seen <==> exists i :: 0 <= i < n && docs[i].id == id
      invariant forall i :: 0 <= i < n ==> IsStableId(docs[i].id) && ValidPayload(docs[i].payload)
      invariant forall i, j :: 0 <= i < j < n ==> docs[i].id != docs[j].id
    {
      var payloadOk := ValidatePayload(docs[n].payload);
      if !IsStableId(docs[n].id) || !payloadOk || docs[n].id in seen {
        return false;
      }
      seen := seen + {docs[n].id};
      n := n + 1;
    }
    ok := true;
  }

  method ValidateSnapshot(m: Meta, cs: Collections) returns (ok: bool)
    ensures ok <==> ValidSnapshot(m, cs)
  {
    hide ValidMeta, ValidDocuments;
    ok := ValidateMeta(m);
    if !ok || |cs| == 0 || |cs| > MAX_SNAPSHOT_COLLECTIONS {
      return false;
    }
    var left := cs.Keys;
    while left != {}
      invariant left <= cs.Keys
      invariant forall name :: name in cs.Keys - left ==> IsStableId(name) && ValidDocuments(cs[name])
    {
      var name :| name in left;
      ok := ValidateDocuments(cs[name]);
      if !IsStableId(name) || !ok {
        return false;
      }
      left := left - {name};
    }
    ok := true;
  }

  /** The checks of a read, a write or a deletion of one document. */
  method ValidateAccess(s: Scope, collection: string, id: string) returns (error: Option<Error>)
    ensures error == CheckAccess(s, collection, id)
  {
    var ok := ValidateScope(s);
    if !ok {
      return Some(InvalidScope);
    }
    if !IsStableId(collection) || !IsStableId(id) {
      return Some(InvalidKey);
    }
    error := None;
  }

  method ValidateList(s: Scope, collection: string, limit: int, after: string) returns (error: Option<Error>)
    ensures error == CheckList(s, collection, limit, after)
  {
    var ok := ValidateScope(s);
    if !ok {
      return Some(InvalidScope);
    }
    if !IsStableId(collection) || limit < 1 || limit > MAX_LIST_LIMIT {
      return Some(InvalidKey);
    }
    if after != "" && !IsStableId(after) {
      return Some(InvalidKey);
    }
    error := None;
  }

  method ValidateReplace(s: Scope, m: Meta, cs: Collections) returns (error: Option<Error>)
    ensures error == CheckReplace(s, m, cs)
  {
    if s.user != "" {
      return Some(InvalidScope);
    }
    var ok := ValidateScope(s);
    if !ok {
      return Some(InvalidScope);
    }
    ok := ValidateSnapshot(m, cs);
    error := if ok then None else Some(InvalidSnapshot);
  }

  // ---- the contents of a store ----

  /** What a document belongs to. The package is left out: it is the namespace's first part. */
  datatype Owner = Owner(app: string, user: string, namespace: string)

  datatype Key = Key(owner: Owner, collection: string, id: string)

  datatype SystemKey = SystemKey(app: string, namespace: string)

  datatype Contents = Contents(docs: map<Key, Payload>, metas: map<SystemKey, Meta>)

  function OwnerOf(s: Scope): Owner {
    Owner(s.app, s.user, s.namespace)
  }

  ghost predicate ValidOwner(o: Owner) {
    IsStableId(o.app) && (o.user != "" ==> IsStableMixed(o.user)) && IsNamespace(o.namespace)
  }

  /** In a valid scope the namespace determines the package, so nothing is lost by leaving it out of the keys. */
  lemma {:induction false} NamespaceDeterminesPackage(a: Scope, b: Scope)
    requires ValidScope(a) && ValidScope(b) && OwnerOf(a) == OwnerOf(b)
    ensures a == b
  {
    var p, q, n := |a.package|, |b.package|, a.namespace;
    assert n[p] == (a.package + "/")[p] == '/' && n[q] == (b.package + "/")[q] == '/';
    assert forall i :: 0 <= i < p ==> n[i] == (a.package + "/")[i] == a.package[i];
    assert forall i :: 0 <= i < q ==> n[i] == (b.package + "/")[i] == b.package[i];
    assert forall i :: 0 <= i < p ==> n[i] != '/';
    assert forall i :: 0 <= i < q ==> n[i] != '/';
    assert a.package == n[..p] && b.package == n[..q];
  }

  /** Personal scopes carry no snapshot. */
  ghost function MetaOf(c: Contents, s: Scope): Option<Meta> {
    var k := SystemKey(s.app, s.namespace);
    if s.user == "" && k in c.metas then Some(c.metas[k]) else None
  }

  /** The scope's snapshot has a time that was written and cannot be read back. */
  ghost predicate Jammed(c: Contents, s: Scope) {
    MetaOf(c, s).Some? && !Readable(MetaOf(c, s).value)
  }

  ghost function Stored(c: Contents, o: Owner, collection: string, id: string): Option<Payload> {
    var k := Key(o, collection, id);
    if k in c.docs then Some(c.docs[k]) else None
  }

  ghost function Ids(c: Contents, o: Owner, collection: string): set<string> {
    set k | k in c.docs && k.owner == o && k.collection == collection :: k.id
  }

  lemma IdsAre(c: Contents, o: Owner, collection: string, id: string)
    ensures id in Ids(c, o, collection) <==> Stored(c, o, collection, id).Some?
  {
    var k := Key(o, collection, id);
    if k in c.docs {
      assert k.id in Ids(c, o, collection);
    }
  }

  ghost function Get(c: Contents, s: Scope, collection: string, id: string): Result<DocumentRead, Error> {
    match CheckAccess(s, collection, id)
    case Some(e) => Err(e)
    case None =>
      var p := Stored(c, OwnerOf(s), collection, id);
      Ok(DocumentRead(MetaOf(c, s), if p.Some? then Some(Document(id, p.value)) else None))
  }

  ghost function Put(c: Contents, s: Scope, collection: string, id: string, p: Payload): Result<Contents, Error> {
    match CheckAccess(s, collection, id)
    case Some(e) => Err(e)
    case None =>
      if !ValidPayload(p) then Err(InvalidPayload)
      else Ok(c.(docs := c.docs[Key(OwnerOf(s), collection, id) := p]))
  }

  ghost function Delete(c: Contents, s: Scope, collection: string, id: string): Result<Contents, Error> {
    match CheckAccess(s, collection, id)
    case Some(e) => Err(e)
    case None =>
      var k := Key(OwnerOf(s), collection, id);
      if k !in c.docs then Err(NotFound) else Ok(c.(docs := c.docs - {k}))
  }

  ghost predicate DocumentsOf(c: Contents, o: Owner, collection: string, ids: seq<string>, docs: seq<Document>) {
    && |docs| == |ids|
    && forall i :: 0 <= i < |ids| ==> docs[i].id == ids[i] && Stored(c, o, collection, ids[i]) == Some(docs[i].payload)
  }

  /** The first `limit` documents above the bound, in ascending order of their ids, with the snapshot's data. */
  ghost predicate Listed(c: Contents, s: Scope, collection: string, limit: int, after: string,
                         r: Result<CollectionRead, Error>) {
    match CheckList(s, collection, limit, after)
    case Some(e) => r == Err(e)
    case None =>
      && r.Ok? && r.value.meta == MetaOf(c, s)
      && exists ids :: IsPage(Ids(c, OwnerOf(s), collection), after, limit, ids)
                       && DocumentsOf(c, OwnerOf(s), collection, ids, r.value.documents)
  }

  /** The list's outcome is determined by the contents. */
  lemma ListedUnique(c: Contents, s: Scope, collection: string, limit: int, after: string,
                     a: Result<CollectionRead, Error>, b: Result<CollectionRead, Error>)
    requires Listed(c, s, collection, limit, after, a) && Listed(c, s, collection, limit, after, b)
    ensures a == b
  {
    if CheckList(s, collection, limit, after).None? {
      var o := OwnerOf(s);
      var x :| IsPage(Ids(c, o, collection), after, limit, x) && DocumentsOf(c, o, collection, x, a.value.documents);
      var y :| IsPage(Ids(c, o, collection), after, limit, y) && DocumentsOf(c, o, collection, y, b.value.documents);
      PageUnique(Ids(c, o, collection), after, limit, x, y);
      assert forall i :: 0 <= i < |x| ==> a.value.documents[i] == b.value.documents[i];
      assert a.value.documents == b.value.documents;
    }
  }

  /** A snapshot's document, if it has one under this collection and id. */
  ghost function InSnapshot(cs: Collections, collection: string, id: string): Option<Payload> {
    if collection in cs then FindDocument(cs[collection], id) else None
  }

  ghost function FindDocument(docs: seq<Document>, id: string): (r: Option<Payload>)
    ensures r.Some? <==> exists i :: 0 <= i < |docs| && docs[i].id == id
    ensures r.Some? ==> exists i :: 0 <= i < |docs| && docs[i] == Document(id, r.value)
  {
    if docs == [] then None
    else if docs[|docs| - 1].id == id then Some(docs[|docs| - 1].payload)
    else FindDocument(docs[..|docs| - 1], id)
  }

  /** The contents after a snapshot: the system documents of the namespace are the snapshot's, all others stay. */
  ghost predicate Replaced(c: Contents, c': Contents, s: Scope, m: Meta, cs: Collections) {
    && c'.metas == c.metas[SystemKey(s.app, s.namespace) := m]
    && forall o, collection, id :: Stored(c', o, collection, id) ==
         if o == Owner(s.app, "", s.namespace) then InSnapshot(cs, collection, id) else Stored(c, o, collection, id)
  }

  lemma ReplacedUnique(c: Contents, a: Contents, b: Contents, s: Scope, m: Meta, cs: Collections)
    requires Replaced(c, a, s, m, cs) && Replaced(c, b, s, m, cs)
    ensures a == b
  {
    forall k: Key ensures (k in a.docs <==> k in b.docs) && (k in a.docs ==> a.docs[k] == b.docs[k]) {
      assert Stored(a, k.owner, k.collection, k.id) == Stored(b, k.owner, k.collection, k.id);
      assert k == Key(k.owner, k.collection, k.id);
    }
    assert a.docs == b.docs;
  }

  ghost function SnapshotKeys(s: Scope, cs: Collections): set<Key> {
    set name, i | name in cs && 0 <= i < |cs[name]| :: Key(Owner(s.app, "", s.namespace), name, cs[name][i].id)
  }

  /** The replaced contents exist. */
  ghost function Replace(c: Contents, s: Scope, m: Meta, cs: Collections): (c': Contents)
    ensures Replaced(c, c', s, m, cs)
    ensures forall k :: k in c'.docs ==> k in c.docs || k.owner == Owner(s.app, "", s.namespace)
  {
    var o := Owner(s.app, "", s.namespace);
    var docs := map k | k in c.docs.Keys + SnapshotKeys(s, cs)
                        && (k.owner == o ==> InSnapshot(cs, k.collection, k.id).Some?) ::
                  if k.owner == o then InSnapshot(cs, k.collection, k.id).value else c.docs[k];
    var c' := Contents(docs, c.metas[SystemKey(s.app, s.namespace) := m]);
    assert forall collection, id ::
             InSnapshot(cs, collection, id).Some? ==> Key(o, collection, id) in SnapshotKeys(s, cs) by {
      forall collection, id | InSnapshot(cs, collection, id).Some?
        ensures Key(o, collection, id) in SnapshotKeys(s, cs)
      {
        var i :| 0 <= i < |cs[collection]| && cs[collection][i].id == id;
      }
    }
    c'
  }

  // ---- isolation ----

  /** What a scope can see of the contents. */
  ghost predicate SameView(c: Contents, c': Contents, s: Scope) {
    && MetaOf(c', s) == MetaOf(c, s)
    && forall collection, id :: Stored(c', OwnerOf(s), collection, id) == Stored(c, OwnerOf(s), collection, id)
  }

  /** A write in one scope changes nothing that any other scope can see. */
  lemma WritesAreIsolated(c: Contents, c': Contents, s: Scope, other: Scope, collection: string, id: string, p: Payload)
    requires ValidScope(s) && ValidScope(other) && s != other
    requires Put(c, s, collection, id, p) == Ok(c') || Delete(c, s, collection, id) == Ok(c')
    ensures SameView(c, c', other)
  {
    if OwnerOf(s) == OwnerOf(other) {
      NamespaceDeterminesPackage(s, other);
    }
  }

  /** A snapshot changes nothing that a personal scope or another namespace or App can see. */
  lemma SnapshotsAreIsolated(c: Contents, c': Contents, s: Scope, m: Meta, cs: Collections, other: Scope)
    requires ValidScope(s) && s.user == "" && ValidScope(other) && s != other && Replaced(c, c', s, m, cs)
    ensures SameView(c, c', other)
  {
    if OwnerOf(s) == OwnerOf(other) {
      NamespaceDeterminesPackage(s, other);
    }
    assert s.app == other.app && s.namespace == other.namespace && other.user == "" ==> OwnerOf(s) == OwnerOf(other);
  }

  // ---- laws between the operations ----

  lemma GetAfterPut(c: Contents, s: Scope, collection: string, id: string, p: Payload)
    requires Put(c, s, collection, id, p).Ok?
    ensures var c' := Put(c, s, collection, id, p).value;
      && Get(c', s, collection, id) == Ok(DocumentRead(MetaOf(c, s), Some(Document(id, p))))
      && Delete(c', s, collection, id).Ok?
      && Get(Delete(c', s, collection, id).value, s, collection, id) == Ok(DocumentRead(MetaOf(c, s), None))
  {
  }

  /** After a snapshot exactly its documents can be read, and they carry its data. */
  lemma GetAfterReplace(c: Contents, c': Contents, s: Scope, m: Meta, cs: Collections, collection: string, id: string)
    requires CheckReplace(s, m, cs).None? && Replaced(c, c', s, m, cs) && CheckAccess(s, collection, id).None?
    ensures Get(c', s, collection, id).Ok?
    ensures var r := Get(c', s, collection, id).value;
      && r.meta == Some(m)
      && (forall p :: r.document == Some(Document(id, p)) <==> collection in cs && Document(id, p) in cs[collection])
  {
    if collection in cs {
      var docs := cs[collection];
      forall p | Document(id, p) in docs ensures FindDocument(docs, id) == Some(p) {
        var i :| 0 <= i < |docs| && docs[i] == Document(id, p);
        assert docs[i].id == id;
        var j :| 0 <= j < |docs| && docs[j] == Document(id, FindDocument(docs, id).value);
        assert i == j;
      }
    }
  }
}
