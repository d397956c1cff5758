/** The in-memory fallback of src/api/storage.py: `_docs_memory` and `_verifications_memory`,
    two dictionaries keyed by the record's own id. A Python dictionary remembers the order in
    which its keys were first inserted, and `list_documents` depends on it, so the document
    table carries that order explicitly. A record is a map from field names to strings. */
module Storage {
  import opened Strings

  type Record = map<string, string>

  /** `doc.get("document_id")` may be None, and None is then a key like any other. */
  type Key = Option<string>

  function FieldOf(r: Record, name: string): Key {
    if name in r then Some(r[name]) else None
  }

  predicate Distinct<T(==)>(s: seq<T>) {
    forall i, j :: 0 <= i < j < |s| ==> s[i] != s[j]
  }

  /** `s` with every occurrence of `x` dropped, order otherwise kept. */
  function RemoveKey<T(==)>(s: seq<T>, x: T): seq<T> {
    if s == [] then []
    else if s[0] == x then RemoveKey(s[1..], x)
    else [s[0]] + RemoveKey(s[1..], x)
  }

  /** Dropping a key leaves exactly the other keys. */
  lemma {:induction false} RemoveKeyMember<T>(s: seq<T>, x: T, y: T)
    ensures y in RemoveKey(s, x) <==> y in s && y != x
  {
    if s != [] {
      RemoveKeyMember(s[1..], x, y);
      assert y in s <==> y == s[0] || y in s[1..];
    }
  }

  lemma DistinctTail<T>(s: seq<T>)
    requires s != [] && Distinct(s)
    ensures Distinct(s[1..]) && s[0] !in s[1..]
  {
    forall i, j | 0 <= i < j < |s[1..]| ensures s[1..][i] != s[1..][j] {
      assert s[1..][i] == s[i + 1] && s[1..][j] == s[j + 1];
    }
    forall k | 0 <= k < |s[1..]| ensures s[1..][k] != s[0] {
      assert s[1..][k] == s[k + 1];
    }
  }

  lemma DistinctCons<T>(x: T, s: seq<T>)
    requires Distinct(s) && x !in s
    ensures Distinct([x] + s)
  {
    var r := [x] + s;
    forall i, j | 0 <= i < j < |r| ensures r[i] != r[j] {
      assert r[j] == s[j - 1];
      if i > 0 {
        assert r[i] == s[i - 1];
      }
    }
  }

  /** Dropping a key keeps the others distinct. */
  lemma {:induction false} RemoveKeyDistinct<T>(s: seq<T>, x: T)
    requires Distinct(s)
    ensures Distinct(RemoveKey(s, x))
  {
    if s != [] {
      DistinctTail(s);
      RemoveKeyDistinct(s[1..], x);
      if s[0] != x {
        RemoveKeyMember(s[1..], x, s[0]);
        DistinctCons(s[0], RemoveKey(s[1..], x));
      }
    }
  }

  /** An absent key changes nothing. */
  lemma {:induction false} RemoveKeyAbsent<T>(s: seq<T>, x: T)
    requires x !in s
    ensures RemoveKey(s, x) == s
  {
    if s != [] {
      assert x !in s[1..];
      RemoveKeyAbsent(s[1..], x);
    }
  }

  /** A key that occurs once is cut out of its place, the others keeping their order. */
  lemma {:induction false} RemoveKeyAt<T>(s: seq<T>, x: T, i: nat)
    requires Distinct(s) && i < |s| && s[i] == x
    ensures RemoveKey(s, x) == s[..i] + s[i + 1..]
  {
    DistinctTail(s);
    if i == 0 {
      RemoveKeyAbsent(s[1..], x);
    } else {
      assert s[1..][i - 1] == x;
      RemoveKeyAt(s[1..], x, i - 1);
      assert s[1..][..i - 1] + s[1..][i..] == s[1..i] + s[i + 1..];
      assert s[..i] == [s[0]] + s[1..i];
    }
  }

  /** The stored values, in insertion order. */
  function ValuesInOrder(order: seq<Key>, table: map<Key, Record>): (vs: seq<Record>)
    requires forall k :: k in order ==> k in table
    ensures |vs| == |order| && forall i :: 0 <= i < |order| ==> vs[i] == table[order[i]]
  {
    if order == [] then [] else [table[order[0]]] + ValuesInOrder(order[1..], table)
  }

  /** `get_stats`: the key names of the returned dictionary. */
  datatype Stats = Stats(totalDocuments: nat, totalVerifications: nat, verifiedSuccessfully: nat, successRate: real)

  predicate Succeeded(v: Record) { FieldOf(v, "status") == Some("success") }

  function SuccessfulIds(table: map<Key, Record>): set<Key> {
    set k | k in table && Succeeded(table[k])
  }

  class MemoryStore {
    var docOrder: seq<Key>
    var docs: map<Key, Record>
    var verifications: map<Key, Record>

    /** The order lists every stored document id exactly once. */
    predicate Valid()
      reads this
    {
      Distinct(docOrder) && (forall k :: k in docs ==> k in docOrder) && (forall k :: k in docOrder ==> k in docs)
    }

    constructor()
      ensures Valid() && docOrder == [] && docs == map[] && verifications == map[]
    {
      docOrder := [];
      docs := map[];
      verifications := map[];
    }

    /** `save_document`: stored under its `document_id`, which is returned; a document saved
        again under a known id replaces the old one in its old position. */
    method SaveDocument(doc: Record) returns (docId: Key)
      requires Valid()
      modifies this
      ensures Valid()
      ensures docId == FieldOf(doc, "document_id")
      ensures docs == old(docs)[docId := doc]
      ensures docId in old(docs) ==> docOrder == old(docOrder)
      ensures docId !in old(docs) ==> docOrder == old(docOrder) + [docId]
      ensures verifications == old(verifications)
    {
      docId := FieldOf(doc, "document_id");
      if docId !in docs {
        docOrder := docOrder + [docId];
      }
      docs := docs[docId := doc];
    }

    /** `get_document`: None for an unknown id. */
    function GetDocument(docId: Key): (r: Option<Record>)
      reads this
      ensures r.Some? <==> docId in docs
      ensures r.Some? ==> r.value == docs[docId]
    {
      if docId in docs then Some(docs[docId]) else None
    }

    /** `list_documents`: the window `[offset:offset + limit]` of the stored documents in
        insertion order; for non-negative arguments it holds the documents from position
        `offset` on, at most `limit` of them, and none when `offset` is past the end. */
    function ListDocuments(limit: int, offset: int): (r: seq<Record>)
      requires Valid()
      reads this
      ensures |r| <= |docOrder|
      ensures 0 <= offset && 0 <= limit ==>
        |r| == (if offset >= |docOrder| then 0 else if limit <= |docOrder| - offset then limit else |docOrder| - offset)
        && forall i :: 0 <= i < |r| ==> r[i] == docs[docOrder[offset + i]]
    {
      Slice(ValuesInOrder(docOrder, docs), offset, offset + limit)
    }

    /** `delete_document`: True and the entry gone exactly when the id was stored; the others
        keep their order. */
    method DeleteDocument(docId: Key) returns (deleted: bool)
      requires Valid()
      modifies this
      ensures Valid()
      ensures deleted <==> docId in old(docs)
      ensures docs == old(docs) - {docId}
      ensures docOrder == RemoveKey(old(docOrder), docId)
      ensures !deleted ==> docOrder == old(docOrder)
      ensures verifications == old(verifications)
    {
      RemoveKeyDistinct(docOrder, docId);
      if docId in docs {
        var order := RemoveKey(docOrder, docId);
        forall k ensures k in order <==> k in docOrder && k != docId {
          RemoveKeyMember(docOrder, docId, k);
        }
        docs := docs - {docId};
        docOrder := order;
        return true;
      }
      RemoveKeyAbsent(docOrder, docId);
      assert docs - {docId} == docs;
      return false;
    }

    /** `update_document`: `dict.update` on the stored document, the updates winning; an
        unknown id changes nothing. */
    method UpdateDocument(docId: Key, updates: Record)
      requires Valid()
      modifies this
      ensures Valid()
      ensures docId in old(docs) ==> docs == old(docs)[docId := old(docs)[docId] + updates]
      ensures docId !in old(docs) ==> docs == old(docs)
      ensures docOrder == old(docOrder) && verifications == old(verifications)
    {
      if docId in docs {
        docs := docs[docId := docs[docId] + updates];
      }
    }

    /** `save_verification`: stored under its `verification_id`, which is returned. */
    method SaveVerification(ver: Record) returns (verId: Key)
      requires Valid()
      modifies this
      ensures Valid()
      ensures verId == FieldOf(ver, "verification_id")
      ensures verifications == old(verifications)[verId := ver]
      ensures docs == old(docs) && docOrder == old(docOrder)
    {
      verId := FieldOf(ver, "verification_id");
      verifications := verifications[verId := ver];
    }

    /** `get_verification`: None for an unknown id. */
    function GetVerification(verId: Key): (r: Option<Record>)
      reads this
      ensures r.Some? <==> verId in verifications
      ensures r.Some? ==> r.value == verifications[verId]
    {
      if verId in verifications then Some(verifications[verId]) else None
    }

    /** `get_stats`: the two table sizes, the verifications whose status is "success", and
        their share (0 when there are none). */
    function GetStats(): (s: Stats)
      reads this
      ensures s.totalDocuments == |docs| && s.totalVerifications == |verifications|
      ensures s.verifiedSuccessfully == |SuccessfulIds(verifications)|
      ensures s.totalVerifications == 0 ==> s.successRate == 0.0
      ensures s.totalVerifications > 0 ==>
        s.successRate * s.totalVerifications as real == s.verifiedSuccessfully as real
    {
      var total := |verifications|;
      var success := |SuccessfulIds(verifications)|;
      Stats(|docs|, total, success, if total > 0 then success as real / total as real else 0.0)
    }
  }

  /** The success count never exceeds the total, so the rate is a fraction; it is 1 exactly
      when every stored verification succeeded. */
  lemma StatsBounds(table: map<Key, Record>)
    ensures |SuccessfulIds(table)| <= |table|
    ensures |table| > 0 ==> 0.0 <= |SuccessfulIds(table)| as real / |table| as real <= 1.0
    ensures |table| > 0 ==>
      (|SuccessfulIds(table)| as real / |table| as real == 1.0 <==> forall k :: k in table ==> Succeeded(table[k]))
  {
    var ok := SuccessfulIds(table);
    assert ok <= table.Keys;
    SubsetSize(ok, table.Keys);
    if (forall k :: k in table ==> Succeeded(table[k])) {
      assert ok == table.Keys;
    } else {
      var k :| k in table && !Succeeded(table[k]);
      ProperSubsetSize(ok, table.Keys, k);
    }
  }

  lemma SubsetSize<T>(a: set<T>, b: set<T>)
    requires a <= b
    ensures |a| <= |b|
  {
    assert b == a + (b - a);
  }

  lemma ProperSubsetSize<T>(a: set<T>, b: set<T>, x: T)
    requires a <= b && x in b && x !in a
    ensures |a| < |b|
  {
    assert b == a + (b - a);
    SubsetSize({x}, b - a);
  }
}
