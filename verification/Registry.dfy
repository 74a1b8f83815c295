/**
 The session container: session objects filed under the keys they had when they were inserted.
 One unique index holds the ids; the three non-unique indices share one table of buckets, each
 bucket reached by a key that names its index.
 */
module Registry {
  import opened Bytes
  import opened Protocol

  /** A shared pointer to a session object. */
  type Ref = nat

  datatype Session = Session(id: Uuid, kind: SessionType, nodeId: Uuid, port: Word, host: Bytes)

  /** An element of the container with the keys it was filed under. */
  datatype Filing = Filing(ref: Ref, id: Uuid, kind: SessionType, node: Uuid)

  datatype Key = ByNode(node: Uuid) | ByType(kind: SessionType) | ByNodeAndType(node: Uuid, kind: SessionType)

  predicate Matches(f: Filing, key: Key) {
    match key
    case ByNode(n) => f.node == n
    case ByType(k) => f.kind == k
    case ByNodeAndType(n, k) => f.node == n && f.kind == k
  }

  predicate IdTaken(filed: seq<Filing>, id: Uuid) {
    exists i :: 0 <= i < |filed| && filed[i].id == id
  }

  /** The elements without those of the given id. */
  function WithoutId(filed: seq<Filing>, id: Uuid): seq<Filing> {
    if filed == [] then []
    else (if filed[0].id == id then [] else [filed[0]]) + WithoutId(filed[1..], id)
  }

  /** A linear scan for the elements filed under a key. */
  function Select(filed: seq<Filing>, key: Key): seq<Ref> {
    if filed == [] then []
    else (if Matches(filed[0], key) then [filed[0].ref] else []) + Select(filed[1..], key)
  }

  function WithoutRef(refs: seq<Ref>, ref: Ref): seq<Ref> {
    if refs == [] then []
    else (if refs[0] == ref then [] else [refs[0]]) + WithoutRef(refs[1..], ref)
  }

  predicate UniqueIds(filed: seq<Filing>) {
    forall i, j :: 0 <= i < j < |filed| ==> filed[i].id != filed[j].id
  }

  predicate UniqueRefs(filed: seq<Filing>) {
    forall i, j :: 0 <= i < j < |filed| ==> filed[i].ref != filed[j].ref
  }

  predicate RefFiled(filed: seq<Filing>, ref: Ref) {
    exists i :: 0 <= i < |filed| && filed[i].ref == ref
  }

  lemma {:induction false} SelectAppend(a: seq<Filing>, b: seq<Filing>, key: Key)
    ensures Select(a + b, key) == Select(a, key) + Select(b, key)
  {
    if a == [] {
      assert a + b == b;
    } else {
      assert (a + b)[0] == a[0] && (a + b)[1..] == a[1..] + b;
      SelectAppend(a[1..], b, key);
    }
  }

  lemma {:induction false} WithoutIdAppend(a: seq<Filing>, b: seq<Filing>, id: Uuid)
    ensures WithoutId(a + b, id) == WithoutId(a, id) + WithoutId(b, id)
  {
    if a == [] {
      assert a + b == b;
    } else {
      assert (a + b)[0] == a[0] && (a + b)[1..] == a[1..] + b;
      WithoutIdAppend(a[1..], b, id);
    }
  }

  lemma {:induction false} WithoutRefAppend(a: seq<Ref>, b: seq<Ref>, ref: Ref)
    ensures WithoutRef(a + b, ref) == WithoutRef(a, ref) + WithoutRef(b, ref)
  {
    if a == [] {
      assert a + b == b;
    } else {
      assert (a + b)[0] == a[0] && (a + b)[1..] == a[1..] + b;
      WithoutRefAppend(a[1..], b, ref);
    }
  }

  lemma {:induction false} WithoutIdAbsent(filed: seq<Filing>, id: Uuid)
    requires !IdTaken(filed, id)
    ensures WithoutId(filed, id) == filed
  {
    if filed != [] {
      assert filed[0].id != id;
      forall i | 0 <= i < |filed[1..]|
        ensures filed[1..][i].id != id
      {
        assert filed[1..][i] == filed[i + 1];
      }
      WithoutIdAbsent(filed[1..], id);
      assert filed == [filed[0]] + filed[1..];
    }
  }

  lemma {:induction false} WithoutIdMembers(filed: seq<Filing>, id: Uuid)
    ensures forall f :: f in WithoutId(filed, id) <==> f in filed && f.id != id
  {
    if filed != [] {
      WithoutIdMembers(filed[1..], id);
      assert forall f :: f in filed <==> f == filed[0] || f in filed[1..];
    }
  }

  lemma TakenIsMember(filed: seq<Filing>, id: Uuid)
    ensures IdTaken(filed, id) <==> exists f :: f in filed && f.id == id
  {
    if IdTaken(filed, id) {
      var i :| 0 <= i < |filed| && filed[i].id == id;
      assert filed[i] in filed;
    }
  }

  lemma {:induction false} WithoutRefAbsent(filed: seq<Filing>, key: Key, ref: Ref)
    requires !RefFiled(filed, ref)
    ensures WithoutRef(Select(filed, key), ref) == Select(filed, key)
  {
    if filed != [] {
      assert filed[0].ref != ref;
      forall i | 0 <= i < |filed[1..]|
        ensures filed[1..][i].ref != ref
      {
        assert filed[1..][i] == filed[i + 1];
      }
      WithoutRefAbsent(filed[1..], key, ref);
      var head := if Matches(filed[0], key) then [filed[0].ref] else [];
      WithoutRefAppend(head, Select(filed[1..], key), ref);
    }
  }

  /** An element that is filed splits the container; ids being unique, it is the only one. */
  lemma SplitAt(filed: seq<Filing>, k: nat) returns (a: seq<Filing>, b: seq<Filing>)
    requires UniqueIds(filed) && UniqueRefs(filed) && k < |filed|
    ensures filed == a + [filed[k]] + b && |a| == k
    ensures !IdTaken(a, filed[k].id) && !IdTaken(b, filed[k].id)
    ensures !RefFiled(a, filed[k].ref) && !RefFiled(b, filed[k].ref)
  {
    a, b := filed[..k], filed[k + 1..];
    assert forall i :: 0 <= i < |b| ==> b[i] == filed[k + 1 + i];
  }

  lemma DropId(a: seq<Filing>, f: Filing, b: seq<Filing>)
    requires !IdTaken(a, f.id) && !IdTaken(b, f.id)
    ensures WithoutId(a + [f] + b, f.id) == a + b
  {
    WithoutIdAbsent(a, f.id);
    WithoutIdAbsent(b, f.id);
    WithoutIdAppend(a + [f], b, f.id);
    WithoutIdAppend(a, [f], f.id);
    assert WithoutId([f], f.id) == [];
  }

  lemma SelectPieces(a: seq<Filing>, f: Filing, b: seq<Filing>, key: Key)
    ensures Select(a + b, key) == Select(a, key) + Select(b, key)
    ensures Select(a + [f] + b, key) == Select(a, key) + (if Matches(f, key) then [f.ref] else []) + Select(b, key)
  {
    SelectAppend(a, b, key);
    SelectAppend(a + [f], b, key);
    SelectAppend(a, [f], key);
    assert Select([f], key) == if Matches(f, key) then [f.ref] else [];
  }

  /** Erasing an element takes its reference out of the buckets it matches and no other. */
  lemma EraseRef(a: seq<Filing>, f: Filing, b: seq<Filing>, key: Key)
    requires !RefFiled(a, f.ref) && !RefFiled(b, f.ref)
    ensures Select(a + b, key) ==
            if Matches(f, key) then WithoutRef(Select(a + [f] + b, key), f.ref) else Select(a + [f] + b, key)
  {
    SelectPieces(a, f, b, key);
    if Matches(f, key) {
      WithoutRefAbsent(a, key, f.ref);
      WithoutRefAbsent(b, key, f.ref);
      UnlinkOnce(Select(a, key), f.ref, Select(b, key));
    }
  }

  lemma UnlinkOnce(x: seq<Ref>, r: Ref, y: seq<Ref>)
    requires WithoutRef(x, r) == x && WithoutRef(y, r) == y
    ensures WithoutRef(x + [r] + y, r) == x + y
  {
    WithoutRefAppend(x + [r], y, r);
    WithoutRefAppend(x, [r], r);
    assert WithoutRef([r], r) == [];
  }

  // ------------------------------------------------------------- indices

  type Buckets = map<Key, seq<Ref>>

  function Bucket(buckets: Buckets, key: Key): seq<Ref> {
    if key in buckets then buckets[key] else []
  }

  function Link(buckets: Buckets, key: Key, ref: Ref): Buckets {
    buckets[key := Bucket(buckets, key) + [ref]]
  }

  function Unlink(buckets: Buckets, key: Key, ref: Ref): Buckets {
    buckets[key := WithoutRef(Bucket(buckets, key), ref)]
  }

  function LinkAll(buckets: Buckets, f: Filing): Buckets {
    Link(Link(Link(buckets, ByNode(f.node), f.ref), ByType(f.kind), f.ref), ByNodeAndType(f.node, f.kind), f.ref)
  }

  function UnlinkAll(buckets: Buckets, f: Filing): Buckets {
    Unlink(Unlink(Unlink(buckets, ByNode(f.node), f.ref), ByType(f.kind), f.ref), ByNodeAndType(f.node, f.kind), f.ref)
  }

  lemma LinkAllBucket(buckets: Buckets, f: Filing, key: Key)
    ensures Bucket(LinkAll(buckets, f), key) == if Matches(f, key) then Bucket(buckets, key) + [f.ref] else Bucket(buckets, key)
  {
  }

  lemma UnlinkAllBucket(buckets: Buckets, f: Filing, key: Key)
    ensures Bucket(UnlinkAll(buckets, f), key) == if Matches(f, key) then WithoutRef(Bucket(buckets, key), f.ref) else Bucket(buckets, key)
  {
  }

  /** Every bucket holds what a scan finds. */
  ghost predicate BucketsAgree(filed: seq<Filing>, buckets: Buckets) {
    forall key :: Bucket(buckets, key) == Select(filed, key)
  }

  /** The id index holds exactly the filed elements. */
  ghost predicate IdsAgree(filed: seq<Filing>, byId: map<Uuid, Filing>) {
    && (forall i :: 0 <= i < |filed| ==> filed[i].id in byId && byId[filed[i].id] == filed[i])
    && (forall id :: id in byId ==> byId[id] in filed && byId[id].id == id)
  }

  lemma InsertBuckets(filed: seq<Filing>, buckets: Buckets, f: Filing)
    requires BucketsAgree(filed, buckets)
    ensures BucketsAgree(filed + [f], LinkAll(buckets, f))
  {
    forall key: Key
      ensures Bucket(LinkAll(buckets, f), key) == Select(filed + [f], key)
    {
      LinkAllBucket(buckets, f, key);
      SelectPieces(filed, f, [], key);
      assert filed + [f] + [] == filed + [f];
      assert Bucket(buckets, key) == Select(filed, key);
    }
  }

  lemma EraseBuckets(a: seq<Filing>, f: Filing, b: seq<Filing>, buckets: Buckets)
    requires BucketsAgree(a + [f] + b, buckets)
    requires !RefFiled(a, f.ref) && !RefFiled(b, f.ref)
    ensures BucketsAgree(a + b, UnlinkAll(buckets, f))
  {
    forall key: Key
      ensures Bucket(UnlinkAll(buckets, f), key) == Select(a + b, key)
    {
      UnlinkAllBucket(buckets, f, key);
      EraseRef(a, f, b, key);
      assert Bucket(buckets, key) == Select(a + [f] + b, key);
    }
  }

  lemma InsertIds(filed: seq<Filing>, byId: map<Uuid, Filing>, f: Filing)
    requires IdsAgree(filed, byId) && f.id !in byId
    ensures IdsAgree(filed + [f], byId[f.id := f])
  {
    assert (filed + [f])[|filed|] == f;
    forall id | id in byId
      ensures byId[id] in filed + [f]
    {
    }
  }

  lemma EraseIds(a: seq<Filing>, f: Filing, b: seq<Filing>, byId: map<Uuid, Filing>)
    requires IdsAgree(a + [f] + b, byId)
    requires !IdTaken(a, f.id) && !IdTaken(b, f.id)
    ensures IdsAgree(a + b, byId - {f.id})
  {
    var all := a + [f] + b;
    forall i | 0 <= i < |a + b|
      ensures (a + b)[i].id in byId - {f.id} && byId[(a + b)[i].id] == (a + b)[i]
    {
      assert (a + b)[i] == if i < |a| then all[i] else all[i + 1];
    }
    forall id | id in byId && id != f.id
      ensures byId[id] in a + b
    {
      assert byId[id] in all;
    }
  }

  lemma IdsTaken(filed: seq<Filing>, byId: map<Uuid, Filing>, id: Uuid)
    requires IdsAgree(filed, byId)
    ensures id in byId <==> IdTaken(filed, id)
  {
    if id in byId {
      var i :| 0 <= i < |filed| && filed[i] == byId[id];
    }
  }

  lemma UniqueWithout(a: seq<Filing>, f: Filing, b: seq<Filing>)
    requires UniqueIds(a + [f] + b) && UniqueRefs(a + [f] + b)
    ensures UniqueIds(a + b) && UniqueRefs(a + b)
  {
    var all := a + [f] + b;
    assert forall i :: 0 <= i < |a + b| ==> (a + b)[i] == all[if i < |a| then i else i + 1];
  }

  /** Ids and references are unique, and every index agrees with a scan of the elements. */
  ghost predicate Agree(filed: seq<Filing>, byId: map<Uuid, Filing>, buckets: Buckets) {
    UniqueIds(filed) && UniqueRefs(filed) && IdsAgree(filed, byId) && BucketsAgree(filed, buckets)
  }

  lemma InsertedAgrees(filed: seq<Filing>, byId: map<Uuid, Filing>, buckets: Buckets, f: Filing)
    requires Agree(filed, byId, buckets) && f.id !in byId && !RefFiled(filed, f.ref)
    ensures Agree(filed + [f], byId[f.id := f], LinkAll(buckets, f))
  {
    InsertIds(filed, byId, f);
    InsertBuckets(filed, buckets, f);
    IdsTaken(filed, byId, f.id);
    UniqueWith(filed, f);
  }

  lemma UniqueWith(filed: seq<Filing>, f: Filing)
    requires UniqueIds(filed) && UniqueRefs(filed) && !IdTaken(filed, f.id) && !RefFiled(filed, f.ref)
    ensures UniqueIds(filed + [f]) && UniqueRefs(filed + [f])
  {
  }

  lemma ErasedAgrees(filed: seq<Filing>, byId: map<Uuid, Filing>, buckets: Buckets, k: nat)
    requires Agree(filed, byId, buckets) && k < |filed|
    ensures filed[..k] + filed[k + 1..] == WithoutId(filed, filed[k].id)
    ensures Agree(WithoutId(filed, filed[k].id), byId - {filed[k].id}, UnlinkAll(buckets, filed[k]))
  {
    var f := filed[k];
    var a, b := SplitAt(filed, k);
    DropId(a, f, b);
    ErasedPieces(a, f, b, byId, buckets);
    assert filed[..k] == a && filed[k + 1..] == b;
  }

  lemma ErasedPieces(a: seq<Filing>, f: Filing, b: seq<Filing>, byId: map<Uuid, Filing>, buckets: Buckets)
    requires Agree(a + [f] + b, byId, buckets)
    requires !IdTaken(a, f.id) && !IdTaken(b, f.id)
    requires !RefFiled(a, f.ref) && !RefFiled(b, f.ref)
    ensures Agree(a + b, byId - {f.id}, UnlinkAll(buckets, f))
  {
    EraseIds(a, f, b, byId);
    EraseBuckets(a, f, b, buckets);
    UniqueWithout(a, f, b);
  }

  /** Where an element sits in the iteration order. */
  function Position(filed: seq<Filing>, f: Filing): (k: nat)
    requires f in filed
    ensures k < |filed| && filed[k] == f
  {
    if filed[0] == f then 0 else Position(filed[1..], f) + 1
  }

  class SessionContainer {
    var filed: seq<Filing>
    var byId: map<Uuid, Filing>
    var buckets: Buckets

    /** Ids and references are unique, and every index agrees with a scan of the elements. */
    ghost predicate Valid()
      reads this
    {
      Agree(filed, byId, buckets)
    }

    constructor ()
      ensures Valid() && filed == []
    {
      filed, byId, buckets := [], map[], map[];
    }

    /** An id already in use leaves the container as it was. */
    method Insert(f: Filing) returns (inserted: bool)
      requires Valid() && !RefFiled(filed, f.ref)
      modifies this
      ensures Valid()
      ensures inserted == !IdTaken(old(filed), f.id)
      ensures filed == if inserted then old(filed) + [f] else old(filed)
    {
      IdsTaken(filed, byId, f.id);
      inserted := f.id !in byId;
      if inserted {
        InsertedAgrees(filed, byId, buckets, f);
        filed, byId, buckets := filed + [f], byId[f.id := f], LinkAll(buckets, f);
      }
    }

    /** Erasing through the id index erases from every index. */
    method EraseId(id: Uuid) returns (erased: Option<Filing>)
      requires Valid()
      modifies this
      ensures Valid()
      ensures filed == WithoutId(old(filed), id)
      ensures erased.Some? <==> IdTaken(old(filed), id)
      ensures erased.Some? ==> erased.value in old(filed) && erased.value.id == id
    {
      IdsTaken(filed, byId, id);
      if id !in byId {
        WithoutIdAbsent(filed, id);
        return None;
      }
      var f := byId[id];
      var k := Position(filed, f);
      ErasedAgrees(filed, byId, buckets, k);
      filed, byId, buckets := filed[..k] + filed[k + 1..], byId - {id}, UnlinkAll(buckets, f);
      erased := Some(f);
    }

    /** The elements an index reaches by a key, in iteration order. */
    method Range(key: Key) returns (refs: seq<Ref>)
      requires Valid()
      ensures refs == Select(filed, key)
    {
      refs := Bucket(buckets, key);
    }

    method Count(id: Uuid) returns (n: nat)
      requires Valid()
      ensures n == if IdTaken(filed, id) then 1 else 0
    {
      IdsTaken(filed, byId, id);
      n := if id in byId then 1 else 0;
    }
  }
}
