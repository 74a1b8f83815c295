/**
 What a lookup finds compared with a scan of the sessions' current fields. Ids and kinds never
 change, so those indices agree with a scan. Node ids do change after filing: a node-keyed lookup
 finds the sessions filed under the key that still have it.
 */
module IndexAgreement {
  import opened Bytes
  import opened Protocol
  import opened Registry
  import opened Discovery
  import opened NodeModel

  /** The session still has the node id it was filed under. */
  predicate Unmoved(n: Node, f: Filing) {
    At(n, f.ref).nodeId == f.node
  }

  predicate AllUnmoved(n: Node) {
    forall i :: 0 <= i < |n.filed| ==> Unmoved(n, n.filed[i])
  }

  predicate HasKey(n: Node, ref: Ref, key: Key) {
    match key
    case ByNode(k) => At(n, ref).nodeId == k
    case ByType(t) => At(n, ref).kind == t
    case ByNodeAndType(k, t) => At(n, ref).nodeId == k && At(n, ref).kind == t
  }

  /** An index lookup: the bucket of the key, less the elements that no longer have the key. */
  function Lookup(n: Node, refs: seq<Ref>, key: Key): seq<Ref> {
    if refs == [] then []
    else (if HasKey(n, refs[0], key) then [refs[0]] else []) + Lookup(n, refs[1..], key)
  }

  /** A scan of the registered sessions by their current fields. */
  function Scan(n: Node, filed: seq<Filing>, key: Key): seq<Ref> {
    if filed == [] then []
    else (if HasKey(n, filed[0].ref, key) then [filed[0].ref] else []) + Scan(n, filed[1..], key)
  }

  /** The scan restricted to the sessions filed under the key. */
  function FiledScan(n: Node, filed: seq<Filing>, key: Key): seq<Ref> {
    if filed == [] then []
    else (if HasKey(n, filed[0].ref, key) && Matches(filed[0], key) then [filed[0].ref] else []) + FiledScan(n, filed[1..], key)
  }

  lemma {:induction false} LookupAppend(n: Node, a: seq<Ref>, b: seq<Ref>, key: Key)
    ensures Lookup(n, a + b, key) == Lookup(n, a, key) + Lookup(n, b, key)
  {
    if a == [] {
      assert a + b == b;
    } else {
      assert (a + b)[0] == a[0] && (a + b)[1..] == a[1..] + b;
      LookupAppend(n, a[1..], b, key);
    }
  }

  /** A lookup is the scan restricted to the sessions filed under the key. */
  lemma {:induction false} LookupIsFiledScan(n: Node, filed: seq<Filing>, key: Key)
    ensures Lookup(n, Select(filed, key), key) == FiledScan(n, filed, key)
  {
    if filed != [] {
      LookupIsFiledScan(n, filed[1..], key);
      var head := if Matches(filed[0], key) then [filed[0].ref] else [];
      LookupAppend(n, head, Select(filed[1..], key), key);
    }
  }

  /** No session has the key without being filed under it. */
  predicate NoneStale(n: Node, filed: seq<Filing>, key: Key) {
    forall i :: 0 <= i < |filed| ==> HasKey(n, filed[i].ref, key) ==> Matches(filed[i], key)
  }

  lemma {:induction false} ScanLengths(n: Node, filed: seq<Filing>, key: Key)
    ensures |FiledScan(n, filed, key)| <= |Scan(n, filed, key)|
    ensures FiledScan(n, filed, key) == Scan(n, filed, key) <==> NoneStale(n, filed, key)
    ensures |FiledScan(n, filed, key)| == |Scan(n, filed, key)| <==> NoneStale(n, filed, key)
  {
    if filed != [] {
      ScanLengths(n, filed[1..], key);
      StaleTail(n, filed, key);
    }
  }

  lemma StaleTail(n: Node, filed: seq<Filing>, key: Key)
    requires filed != []
    ensures NoneStale(n, filed, key) <==>
            (HasKey(n, filed[0].ref, key) ==> Matches(filed[0], key)) && NoneStale(n, filed[1..], key)
  {
    if NoneStale(n, filed[1..], key) && (HasKey(n, filed[0].ref, key) ==> Matches(filed[0], key)) {
      forall i | 0 <= i < |filed| && HasKey(n, filed[i].ref, key)
        ensures Matches(filed[i], key)
      {
        assert i > 0 ==> filed[i] == filed[1..][i - 1];
      }
    }
  }

  /** A lookup misses no session exactly when no session with the key is filed elsewhere. */
  lemma LookupCompleteIff(n: Node, key: Key)
    ensures Lookup(n, Select(n.filed, key), key) == Scan(n, n.filed, key) <==> NoneStale(n, n.filed, key)
  {
    LookupIsFiledScan(n, n.filed, key);
    ScanLengths(n, n.filed, key);
  }

  /** Kinds never change: a lookup by type is a scan. */
  lemma TypeLookupIsScan(n: Node, t: SessionType)
    requires Sound(n)
    ensures Lookup(n, Select(n.filed, ByType(t)), ByType(t)) == Scan(n, n.filed, ByType(t))
  {
    LookupCompleteIff(n, ByType(t));
    forall i | 0 <= i < |n.filed| && HasKey(n, n.filed[i].ref, ByType(t))
      ensures Matches(n.filed[i], ByType(t))
    {
      assert Filed(n, n.filed[i]);
    }
  }

  /** The unique index: what was filed under an id. */
  function FiledUnder(filed: seq<Filing>, id: Uuid): seq<Ref> {
    if filed == [] then []
    else (if filed[0].id == id then [filed[0].ref] else []) + FiledUnder(filed[1..], id)
  }

  /** A scan of the registered sessions for an id. */
  function WithId(n: Node, filed: seq<Filing>, id: Uuid): seq<Ref> {
    if filed == [] then []
    else (if At(n, filed[0].ref).id == id then [filed[0].ref] else []) + WithId(n, filed[1..], id)
  }

  lemma {:induction false} FiledUnderIsWithId(n: Node, filed: seq<Filing>, id: Uuid)
    requires UniqueIds(filed) && forall i :: 0 <= i < |filed| ==> Filed(n, filed[i])
    ensures FiledUnder(filed, id) == WithId(n, filed, id)
    ensures |FiledUnder(filed, id)| == if IdTaken(filed, id) then 1 else 0
  {
    if filed != [] {
      assert Filed(n, filed[0]);
      FiledUnderIsWithId(n, filed[1..], id);
      TakenTail(filed, id);
    }
  }

  lemma TakenTail(filed: seq<Filing>, id: Uuid)
    requires filed != []
    ensures IdTaken(filed, id) <==> filed[0].id == id || IdTaken(filed[1..], id)
    ensures UniqueIds(filed) && filed[0].id == id ==> !IdTaken(filed[1..], id)
  {
    if IdTaken(filed[1..], id) {
      var i :| 0 <= i < |filed[1..]| && filed[1..][i].id == id;
      assert filed[i + 1].id == id;
    }
  }

  /** Ids never change: a lookup by id is a scan, and finds at most one session. */
  lemma IdLookupIsScan(n: Node, id: Uuid)
    requires Sound(n)
    ensures FiledUnder(n.filed, id) == WithId(n, n.filed, id) && |FiledUnder(n.filed, id)| <= 1
  {
    FiledUnderIsWithId(n, n.filed, id);
  }

  /** While no session has moved, every lookup is a scan. */
  lemma UnmovedLookupIsScan(n: Node, key: Key)
    requires Sound(n) && AllUnmoved(n)
    ensures Lookup(n, Select(n.filed, key), key) == Scan(n, n.filed, key)
  {
    LookupCompleteIff(n, key);
    forall i | 0 <= i < |n.filed| && HasKey(n, n.filed[i].ref, key)
      ensures Matches(n.filed[i], key)
    {
      assert Filed(n, n.filed[i]) && Unmoved(n, n.filed[i]);
    }
  }

  // ------------------------------------------------ what keeps lookups complete

  /** Lookups by the key miss no session of the node. */
  predicate Complete(n: Node, key: Key) {
    NoneStale(n, n.filed, key)
  }

  lemma AddSessionComplete(n: Node, s: Session, key: Key)
    requires Sound(n) && Complete(n, key)
    ensures Complete(AddSession(n, s), key)
  {
    var m := AddSession(n, s);
    forall i | 0 <= i < |m.filed| && HasKey(m, m.filed[i].ref, key)
      ensures Matches(m.filed[i], key)
    {
      if i < |n.filed| {
        assert Filed(n, n.filed[i]);
      }
    }
  }

  /** Only the objects and the registry matter. */
  lemma SameObjectsComplete(n: Node, m: Node, key: Key)
    requires Complete(n, key) && m.objects == n.objects && m.filed == n.filed
    ensures Complete(m, key)
  {
    forall i | 0 <= i < |m.filed| && HasKey(m, m.filed[i].ref, key)
      ensures Matches(m.filed[i], key)
    {
      assert HasKey(n, n.filed[i].ref, key);
    }
  }

  lemma ConnectComplete(env: Env, n: Node, to: Peer, discovery: bool, connections: Word, key: Key)
    requires Sound(n) && Complete(n, key)
    ensures Complete(Connect(env, n, to, discovery, connections), key)
  {
    var s := Session(env.draw(n.drawn), Tcp, NIL, 0, []);
    var m := Connect(env, n, to, discovery, connections);
    AddSessionComplete(n, s, key);
    if env.reach(to) && !IdTaken(n.filed, s.id) {
      SameObjectsComplete(AddSession(n, s), m, key);
    } else {
      SameObjectsComplete(n, m, key);
    }
  }

  lemma {:induction false} DialAllComplete(env: Env, n: Node, peers: seq<Peer>, key: Key)
    requires Sound(n) && Complete(n, key)
    ensures Complete(DialAll(env, n, peers), key)
    decreases |peers|
  {
    if peers != [] {
      ConnectSound(env, n, peers[0], false, 0);
      ConnectComplete(env, n, peers[0], false, 0, key);
      DialAllComplete(env, DialOne(env, n, peers[0]), peers[1..], key);
    }
  }

  lemma EraseComplete(n: Node, id: Uuid, key: Key)
    requires Complete(n, key)
    ensures Complete(n.(filed := WithoutId(n.filed, id)), key)
  {
    var m := n.(filed := WithoutId(n.filed, id));
    WithoutIdKeeps(n.filed, id);
    forall i | 0 <= i < |m.filed| && HasKey(m, m.filed[i].ref, key)
      ensures Matches(m.filed[i], key)
    {
      var j :| 0 <= j < |n.filed| && n.filed[j] == m.filed[i];
      assert HasKey(n, n.filed[j].ref, key);
    }
  }

  /** Every handler but identify keeps the lookups by a key complete, whatever became of other keys. */
  lemma OthersKeepComplete(env: Env, n: Node, me: Ref, e: Entry, key: Key)
    requires Sound(n) && Complete(n, key) && e.op != OP_IDENTIFY
    ensures Complete(Handle(env, n, me, e).node, key)
  {
    if e.op == OP_DISCOVERY {
      DialAllComplete(env, n, ReadList(e.body), key);
    } else if e.op == OP_JOIN && MirrorRequest(n, me, e) {
      AddSessionComplete(n, Session(e.body[..16], WebSocket, At(n, me).nodeId, 0, []), key);
    } else if e.op == OP_LEAVE && MirrorRequest(n, me, e) {
      EraseComplete(n, e.body[..16], key);
    }
  }

  /** A TCP session bound to the node id has the key. */
  predicate Binds(key: Key, node: Uuid) {
    match key
    case ByNode(k) => k == node
    case ByType(_) => false
    case ByNodeAndType(k, t) => k == node && t == Tcp
  }

  /** No session but `me` has the key without being filed under it. */
  predicate OthersFit(n: Node, me: Ref, key: Key) {
    forall i :: 0 <= i < |n.filed| && n.filed[i].ref != me ==> HasKey(n, n.filed[i].ref, key) ==> Matches(n.filed[i], key)
  }

  lemma IdentifyLeavesOthers(n: Node, me: Ref, e: Entry, key: Key)
    ensures OthersFit(HandleIdentify(n, me, e).node, me, key) <==> OthersFit(n, me, key)
  {
    var m := HandleIdentify(n, me, e).node;
    assert m.filed == n.filed;
    assert forall r, k: Key :: r != me ==> (HasKey(m, r, k) <==> HasKey(n, r, k));
  }

  /** After an identify, lookups by a key are complete exactly if no other session is missed and, should
      the bound node id give the session the key, that is the node id it was filed under. */
  lemma IdentifyCompleteIff(n: Node, me: Ref, e: Entry, i: nat, key: Key)
    requires Sound(n) && e.op == OP_IDENTIFY && 16 <= |e.body|
    requires i < |n.filed| && n.filed[i].ref == me && n.filed[i].kind == Tcp
    ensures Complete(HandleIdentify(n, me, e).node, key) <==>
            OthersFit(n, me, key) && (Binds(key, e.body[..16]) ==> n.filed[i].node == e.body[..16])
  {
    var m := HandleIdentify(n, me, e).node;
    assert Filed(n, n.filed[i]);
    IdentifyLeavesOthers(n, me, e, key);
    assert m.filed == n.filed && At(m, me).nodeId == e.body[..16] && At(m, me).kind == Tcp;
    if OthersFit(m, me, key) && (HasKey(m, me, key) ==> Matches(m.filed[i], key)) {
      forall j | 0 <= j < |m.filed| && HasKey(m, m.filed[j].ref, key)
        ensures Matches(m.filed[j], key)
      {
        assert m.filed[j].ref == me ==> j == i;
      }
    }
    if Complete(m, key) {
      assert OthersFit(m, me, key);
      assert HasKey(m, m.filed[i].ref, key) ==> Matches(m.filed[i], key);
    }
  }

  // ------------------------------------------------------------ consequences

  /** TCP sessions are registered before they are identified. */
  predicate TcpFiledBlank(filed: seq<Filing>) {
    forall i :: 0 <= i < |filed| ==> filed[i].kind == Tcp ==> filed[i].node == NIL
  }

  lemma {:induction false} BlankTcpUnreachable(filed: seq<Filing>, k: Uuid)
    requires TcpFiledBlank(filed) && k != NIL
    ensures Select(filed, ByNodeAndType(k, Tcp)) == []
  {
    if filed != [] {
      BlankTcpUnreachable(filed[1..], k);
    }
  }

  lemma {:induction false} ScanFinds(n: Node, filed: seq<Filing>, key: Key, i: nat)
    requires i < |filed| && HasKey(n, filed[i].ref, key)
    ensures filed[i].ref in Scan(n, filed, key)
  {
    if i > 0 {
      ScanFinds(n, filed[1..], key, i - 1);
    }
  }

  /** Once a TCP session that was filed blank identifies as another node, a scan finds it by that node
      id and the index does not. */
  lemma IdentifiedIsMissed(n: Node, me: Ref, e: Entry, i: nat)
    requires Sound(n) && TcpFiledBlank(n.filed)
    requires i < |n.filed| && n.filed[i].ref == me && n.filed[i].kind == Tcp
    requires e.op == OP_IDENTIFY && 16 <= |e.body| && e.body[..16] != NIL
    ensures var m := HandleIdentify(n, me, e).node;
            var key := ByNodeAndType(e.body[..16], Tcp);
            && me in Scan(m, m.filed, key)
            && Lookup(m, Select(m.filed, key), key) == []
  {
    assert Filed(n, n.filed[i]);
    var m := HandleIdentify(n, me, e).node;
    BlankTcpUnreachable(m.filed, e.body[..16]);
    ScanFinds(m, m.filed, ByNodeAndType(e.body[..16], Tcp), i);
  }

  lemma EraseKeepsBlank(filed: seq<Filing>, id: Uuid)
    requires TcpFiledBlank(filed)
    ensures TcpFiledBlank(WithoutId(filed, id))
  {
    WithoutIdKeeps(filed, id);
    forall i | 0 <= i < |WithoutId(filed, id)| && WithoutId(filed, id)[i].kind == Tcp
      ensures WithoutId(filed, id)[i].node == NIL
    {
      assert WithoutId(filed, id)[i] in filed;
    }
  }

  lemma {:induction false} DialAllBlank(env: Env, n: Node, peers: seq<Peer>)
    requires TcpFiledBlank(n.filed)
    ensures TcpFiledBlank(DialAll(env, n, peers).filed)
    decreases |peers|
  {
    if peers != [] {
      DialAllBlank(env, DialOne(env, n, peers[0]), peers[1..]);
    }
  }

  /** Whatever frames arrive, every TCP session stays filed under the blank node id it was registered
      with; as long as the index is not rebuilt, sending to a node by id finds no session. */
  lemma HandleKeepsBlank(env: Env, n: Node, me: Ref, e: Entry)
    requires TcpFiledBlank(n.filed)
    ensures TcpFiledBlank(Handle(env, n, me, e).node.filed)
  {
    if e.op == OP_DISCOVERY {
      DialAllBlank(env, n, ReadList(e.body));
    } else if e.op == OP_LEAVE {
      if MirrorRequest(n, me, e) {
        EraseKeepsBlank(n.filed, e.body[..16]);
      }
    }
  }

  /** A response to `tx` whose body is a 64-bit count. */
  predicate Reports(e: Entry, op: Byte, tx: Uuid, count: nat) {
    e.op == op && e.kind == 1 && e.tx == tx && |e.body| == 8 && At64(e.body, 0) == count
  }

  /** A 64-bit count is read back from a body that holds nothing else. */
  lemma CountReads(count: nat)
    requires count < 0x1_0000_0000_0000_0000
    ensures At64(LE64(count), 0) == count
  {
    assert [] + LE64(count) + [] == LE64(count);
    ReadBack64([], count, []);
  }

  /** Ids being unique, join reports exactly one session. */
  lemma JoinReportsOne(n: Node, me: Ref, e: Entry)
    requires MirrorRequest(n, me, e)
    ensures var rs := HandleJoin(n, me, e).replies;
            |rs| == 1 && Reports(rs[0], 4, e.tx, 1)
  {
    var m := HandleJoin(n, me, e).node;
    if !IdTaken(n.filed, e.body[..16]) {
      assert m.filed[|n.filed|].id == e.body[..16];
    }
    CountReads(1);
  }

  /** Leave reports one session if the id was registered, and none otherwise. */
  lemma LeaveReportsRemoved(n: Node, me: Ref, e: Entry)
    requires MirrorRequest(n, me, e)
    ensures var rs := HandleLeave(n, me, e).replies;
            |rs| == 1 && Reports(rs[0], 5, e.tx, if exists f :: f in n.filed && f.id == e.body[..16] then 1 else 0)
  {
    CountReads(0);
    CountReads(1);
    TakenIsMember(n.filed, e.body[..16]);
  }

  /** The erase loop removes what leave reports. */
  lemma LeaveRemovesAtMostOne(n: Node, id: Uuid)
    requires UniqueIds(n.filed) && UniqueRefs(n.filed)
    ensures |WithoutId(n.filed, id)| == |n.filed| - if IdTaken(n.filed, id) then 1 else 0
  {
    if IdTaken(n.filed, id) {
      var k :| 0 <= k < |n.filed| && n.filed[k].id == id;
      var a, b := SplitAt(n.filed, k);
      DropId(a, n.filed[k], b);
    } else {
      WithoutIdAbsent(n.filed, id);
    }
  }
}
