/**
 What the handlers compute: the effect of one decoded entry on a node and the replies it adds.
 Session objects live in `objects`; the registry files references to them. Dials that were
 posted to the event loop wait in `posted`; the frames sent by `connect` collect in `dialled`.
 */
module NodeModel {
  import opened Bytes
  import opened Protocol
  import opened Registry
  import opened Messages
  import opened Discovery

  /** An outbound connection: the session object made for it and the entries sent first, none if it
      was dropped at once. */
  datatype Dialled = Dialled(ref: Ref, to: Peer, sends: seq<Entry>)

  datatype Node = Node(id: Uuid,
                       port: Word,
                       objects: map<Ref, Session>,
                       filed: seq<Filing>,
                       next: Ref,
                       drawn: nat,
                       posted: seq<Peer>,
                       dialled: seq<Dialled>)

  /** The outside world while one frame is handled: which dials succeed, and the stream of
      random identifiers. */
  datatype Env = Env(reach: Peer -> bool, draw: nat -> Uuid)

  const BLANK := Session(NIL, Tcp, NIL, 0, [])

  function At(n: Node, ref: Ref): Session {
    if ref in n.objects then n.objects[ref] else BLANK
  }

  function Update(n: Node, ref: Ref, s: Session): Node {
    n.(objects := n.objects[ref := s])
  }

  /** A session is registered unless its id is taken; the new object is dropped otherwise. */
  function AddSession(n: Node, s: Session): Node {
    if IdTaken(n.filed, s.id) then
      n
    else
      n.(objects := n.objects[n.next := s],
         filed := n.filed + [Filing(n.next, s.id, s.kind, s.nodeId)],
         next := n.next + 1)
  }

  function Greeting(env: Env, n: Node, discovery: bool, connections: Word): seq<Entry> {
    var identify := IdentifyRequest(n.id, connections, env.draw(n.drawn + 1), n.port, LOCALHOST);
    if discovery then [identify, DiscoveryRequest(env.draw(n.drawn + 2))] else [identify]
  }

  /** Dial a peer: on success register a blank TCP session and send it the greeting; if its id is
      taken, drop the connection without sending anything. */
  function Connect(env: Env, n: Node, to: Peer, discovery: bool, connections: Word): Node {
    if !env.reach(to) then
      n
    else if IdTaken(n.filed, env.draw(n.drawn)) then
      n.(drawn := n.drawn + 1, dialled := n.dialled + [Dialled(n.next, to, [])])
    else
      AddSession(n, Session(env.draw(n.drawn), Tcp, NIL, 0, []))
      .(drawn := n.drawn + 3,
        dialled := n.dialled + [Dialled(n.next, to, Greeting(env, n, discovery, connections))])
  }

  datatype Outcome = Outcome(node: Node, replies: seq<Entry>)

  function Repeat(p: Peer, k: nat): seq<Peer> {
    seq(k, i => p)
  }

  /** Dials the peer asks for besides the connection it already has. */
  function FanOut(e: Entry): seq<Peer> {
    if e.op == OP_IDENTIFY && e.kind == REQUEST && 20 < |e.body| && At16(e.body, 16) > 1 && At16(e.body, 18) != 0 then
      Repeat(Peer(e.body[20..], At16(e.body, 18)), At16(e.body, 16) - 1)
    else
      []
  }

  function HandleIdentify(n: Node, me: Ref, e: Entry): Outcome {
    var s := At(n, me);
    if s.kind == WebSocket || |e.body| < 16 then
      Outcome(n, [])
    else
      var t := s.(nodeId := e.body[..16]);
      if e.kind == REQUEST && 20 <= |e.body| then
        var host := e.body[20..];
        var u := t.(port := At16(e.body, 18), host := if host != [] then host else t.host);
        Outcome(Update(n, me, u).(posted := n.posted + FanOut(e)), [IdentifyResponse(e.tx, n.id)])
      else
        Outcome(Update(n, me, t), if e.kind == REQUEST then [IdentifyResponse(e.tx, n.id)] else [])
  }

  /** The addresses of registered sessions that belong to neither the asker nor this node. */
  function Listing(n: Node, asker: Uuid, filed: seq<Filing>): seq<Peer> {
    if filed == [] then
      []
    else
      var s := At(n, filed[0].ref);
      (if s.nodeId != asker && s.nodeId != n.id then [Peer(s.host, s.port)] else []) + Listing(n, asker, filed[1..])
  }

  lemma {:induction false} ListingAppend(n: Node, asker: Uuid, a: seq<Filing>, b: seq<Filing>)
    ensures Listing(n, asker, a + b) == Listing(n, asker, a) + Listing(n, asker, b)
  {
    if a == [] {
      assert a + b == b;
    } else {
      assert (a + b)[0] == a[0] && (a + b)[1..] == a[1..] + b;
      ListingAppend(n, asker, a[1..], b);
    }
  }

  /** A session whose address a listing for `asker` gives away as `p`. */
  predicate Lists(n: Node, asker: Uuid, f: Filing, p: Peer) {
    var s := At(n, f.ref);
    s.nodeId != asker && s.nodeId != n.id && s.host == p.host && s.port == p.port
  }

  /** A peer is listed exactly when a registered session of a third node is bound to it. */
  lemma {:induction false} ListingMembers(n: Node, asker: Uuid, filed: seq<Filing>, p: Peer)
    ensures p in Listing(n, asker, filed) <==> exists f :: f in filed && Lists(n, asker, f, p)
  {
    if filed != [] {
      ListingMembers(n, asker, filed[1..], p);
      assert forall f :: f in filed <==> f == filed[0] || f in filed[1..];
      assert Lists(n, asker, filed[0], p) <==> p in Listing(n, asker, [filed[0]]);
    }
  }

  lemma ListingSnoc(n: Node, asker: Uuid, filed: seq<Filing>, i: nat)
    requires i < |filed|
    ensures Listing(n, asker, filed[..i + 1]) == Listing(n, asker, filed[..i]) + Listing(n, asker, [filed[i]])
  {
    assert filed[..i + 1] == filed[..i] + [filed[i]];
    ListingAppend(n, asker, filed[..i], [filed[i]]);
  }

  predicate Connected(n: Node, p: Peer) {
    exists i :: 0 <= i < |n.filed| && At(n, n.filed[i].ref).host == p.host && At(n, n.filed[i].ref).port == p.port
  }

  /** Dial a listed peer unless an existing session is bound to it. */
  function DialOne(env: Env, n: Node, p: Peer): Node {
    if Connected(n, p) then n else Connect(env, n, p, false, 0)
  }

  function DialAll(env: Env, n: Node, peers: seq<Peer>): Node
    decreases |peers|
  {
    if peers == [] then n else DialAll(env, DialOne(env, n, peers[0]), peers[1..])
  }

  lemma DialCons(env: Env, n: Node, p: Peer, rest: seq<Peer>)
    ensures DialAll(env, n, [p] + rest) == DialAll(env, DialOne(env, n, p), rest)
  {
    assert ([p] + rest)[0] == p && ([p] + rest)[1..] == rest;
  }

  function HandleDiscovery(env: Env, n: Node, me: Ref, e: Entry): Outcome {
    if e.kind == REQUEST then
      Outcome(n, [DiscoveryResponse(e.tx, Listing(n, At(n, me).nodeId, n.filed))])
    else if e.kind == RESPONSE then
      Outcome(DialAll(env, n, ReadList(e.body)), [])
    else
      Outcome(n, [])
  }

  /** Join and leave act only on requests of TCP sessions that carry an id. */
  predicate MirrorRequest(n: Node, me: Ref, e: Entry) {
    At(n, me).kind == Tcp && e.kind != RESPONSE && 16 <= |e.body|
  }

  function HandleJoin(n: Node, me: Ref, e: Entry): Outcome {
    if !MirrorRequest(n, me, e) then
      Outcome(n, [])
    else
      var id := e.body[..16];
      var m := AddSession(n, Session(id, WebSocket, At(n, me).nodeId, 0, []));
      Outcome(m, [JoinResponse(e.tx, if IdTaken(m.filed, id) then 1 else 0)])
  }

  function HandleLeave(n: Node, me: Ref, e: Entry): Outcome {
    if !MirrorRequest(n, me, e) then
      Outcome(n, [])
    else
      var id := e.body[..16];
      Outcome(n.(filed := WithoutId(n.filed, id)), [LeaveResponse(e.tx, if IdTaken(n.filed, id) then 1 else 0)])
  }

  function Handle(env: Env, n: Node, me: Ref, e: Entry): Outcome {
    if e.op == OP_IDENTIFY then HandleIdentify(n, me, e)
    else if e.op == OP_DISCOVERY then HandleDiscovery(env, n, me, e)
    else if e.op == OP_JOIN then HandleJoin(n, me, e)
    else if e.op == OP_LEAVE then HandleLeave(n, me, e)
    else if e.kind == RESPONSE then Outcome(n, [])
    else if e.op == OP_PING then Outcome(n, [PingResponse(e.tx, EXIT_SUCCESS)])
    else if e.op == OP_WHOAMI then Outcome(n, [WhoamiResponse(e.tx, At(n, me).id, n.id, At(n, me).kind)])
    else Outcome(n, [NonImplementedResponse(OP_NON_IMPLEMENTED, e.tx)])
  }

  /** The entries of a frame, handled in order. */
  function HandleAll(env: Env, n: Node, me: Ref, es: seq<Entry>): Outcome
    decreases |es|
  {
    if es == [] then
      Outcome(n, [])
    else
      var first := Handle(env, n, me, es[0]);
      var rest := HandleAll(env, first.node, me, es[1..]);
      Outcome(rest.node, first.replies + rest.replies)
  }

  // ----------------------------------------------------------- basic facts

  /** References are allocated in order, and every filed reference denotes an object that has the
      id and kind it was filed under. */
  ghost predicate Linked(n: Node) {
    && (forall r :: r in n.objects ==> r < n.next)
    && (forall i :: 0 <= i < |n.filed| ==> Filed(n, n.filed[i]))
  }

  ghost predicate Sound(n: Node) {
    UniqueIds(n.filed) && UniqueRefs(n.filed) && Linked(n)
  }

  predicate Filed(n: Node, f: Filing) {
    f.ref in n.objects && n.objects[f.ref].id == f.id && n.objects[f.ref].kind == f.kind
  }

  lemma FreshRef(n: Node)
    requires Sound(n)
    ensures !RefFiled(n.filed, n.next)
  {
    forall i | 0 <= i < |n.filed|
      ensures n.filed[i].ref != n.next
    {
      assert Filed(n, n.filed[i]);
    }
  }

  lemma AddSessionSound(n: Node, s: Session)
    requires Sound(n)
    ensures Sound(AddSession(n, s))
  {
    if !IdTaken(n.filed, s.id) {
      FreshRef(n);
      var m := AddSession(n, s);
      UniqueWith(n.filed, Filing(n.next, s.id, s.kind, s.nodeId));
      forall i | 0 <= i < |m.filed|
        ensures Filed(m, m.filed[i])
      {
        assert i < |n.filed| ==> Filed(n, n.filed[i]);
      }
    }
  }

  lemma ConnectSound(env: Env, n: Node, to: Peer, discovery: bool, connections: Word)
    requires Sound(n)
    ensures Sound(Connect(env, n, to, discovery, connections))
  {
    var s := Session(env.draw(n.drawn), Tcp, NIL, 0, []);
    AddSessionSound(n, s);
    SameRegistrySound(AddSession(n, s), Connect(env, n, to, discovery, connections));
    SameRegistrySound(n, Connect(env, n, to, discovery, connections));
  }

  /** Soundness speaks of the objects and the registry only. */
  lemma SameRegistrySound(n: Node, m: Node)
    ensures Sound(n) && m.objects == n.objects && m.filed == n.filed && m.next == n.next ==> Sound(m)
  {
    if Sound(n) && m.objects == n.objects && m.filed == n.filed && m.next == n.next {
      forall i | 0 <= i < |m.filed|
        ensures Filed(m, m.filed[i])
      {
        assert Filed(n, n.filed[i]);
      }
    }
  }

  /** Rebinding the node id, port or host of an object keeps every filing valid. */
  lemma UpdateSound(n: Node, ref: Ref, s: Session)
    requires Sound(n) && ref in n.objects
    requires s.id == n.objects[ref].id && s.kind == n.objects[ref].kind
    ensures Sound(Update(n, ref, s))
  {
    var m := Update(n, ref, s);
    forall i | 0 <= i < |m.filed|
      ensures Filed(m, m.filed[i])
    {
      assert Filed(n, n.filed[i]);
    }
  }

  lemma {:induction false} DialAllSound(env: Env, n: Node, peers: seq<Peer>)
    requires Sound(n)
    ensures Sound(DialAll(env, n, peers))
    decreases |peers|
  {
    if peers != [] {
      ConnectSound(env, n, peers[0], false, 0);
      DialAllSound(env, DialOne(env, n, peers[0]), peers[1..]);
    }
  }

  lemma {:induction false} WithoutIdKeeps(filed: seq<Filing>, id: Uuid)
    ensures forall i :: 0 <= i < |WithoutId(filed, id)| ==> WithoutId(filed, id)[i] in filed
    ensures !IdTaken(WithoutId(filed, id), id)
  {
    if filed != [] {
      WithoutIdKeeps(filed[1..], id);
      forall f | f in filed[1..]
        ensures f in filed
      {
      }
    }
  }

  lemma EraseSound(n: Node, id: Uuid)
    requires Sound(n)
    ensures Sound(n.(filed := WithoutId(n.filed, id)))
  {
    var m := n.(filed := WithoutId(n.filed, id));
    WithoutIdKeeps(n.filed, id);
    forall i | 0 <= i < |m.filed|
      ensures Filed(m, m.filed[i])
    {
      var j :| 0 <= j < |n.filed| && n.filed[j] == m.filed[i];
      assert Filed(n, n.filed[j]);
    }
    if IdTaken(n.filed, id) {
      var k :| 0 <= k < |n.filed| && n.filed[k].id == id;
      var a, b := SplitAt(n.filed, k);
      DropId(a, n.filed[k], b);
      UniqueWithout(a, n.filed[k], b);
    } else {
      WithoutIdAbsent(n.filed, id);
    }
  }

  /** No handler breaks the registry, whatever it is given. */
  lemma HandleSound(env: Env, n: Node, me: Ref, e: Entry)
    requires Sound(n) && me in n.objects
    ensures Sound(Handle(env, n, me, e).node)
  {
    var m := Handle(env, n, me, e).node;
    if e.op == OP_IDENTIFY {
      UpdateSound(n, me, At(m, me));
      SameRegistrySound(Update(n, me, At(m, me)), m);
    } else if e.op == OP_DISCOVERY {
      DialAllSound(env, n, ReadList(e.body));
    } else if e.op == OP_JOIN {
      if MirrorRequest(n, me, e) {
        AddSessionSound(n, Session(e.body[..16], WebSocket, At(n, me).nodeId, 0, []));
      }
    } else if e.op == OP_LEAVE {
      if MirrorRequest(n, me, e) {
        EraseSound(n, e.body[..16]);
      }
    }
  }

  lemma {:induction false} DialAllKeeps(env: Env, n: Node, peers: seq<Peer>)
    requires forall r :: r in n.objects ==> r < n.next
    ensures forall r :: r in n.objects ==> r in DialAll(env, n, peers).objects && DialAll(env, n, peers).objects[r] == n.objects[r]
    decreases |peers|
  {
    if peers != [] {
      DialAllKeeps(env, DialOne(env, n, peers[0]), peers[1..]);
    }
  }

  /** Objects outlive their registration, and never change id or kind. */
  lemma HandleKeepsObjects(env: Env, n: Node, me: Ref, e: Entry, r: Ref)
    requires Sound(n) && me in n.objects && r in n.objects
    ensures r in Handle(env, n, me, e).node.objects
    ensures Handle(env, n, me, e).node.objects[r].kind == n.objects[r].kind
    ensures Handle(env, n, me, e).node.objects[r].id == n.objects[r].id
  {
    if e.op == OP_DISCOVERY {
      DialAllKeeps(env, n, ReadList(e.body));
    }
  }
}
