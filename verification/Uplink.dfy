/**
 The sending end of the mirror: the owner's one identified link with a peer, which every broadcast
 goes over once, and what leaves that link and a set of reserved ids as they are.
 */
module Uplink {
  import opened Bytes
  import opened Protocol
  import opened Registry
  import opened NodeModel
  import opened Routing
  import opened Mirror
  import Discovery

  /** The link is registered, identified, and the only TCP session with its node id. */
  ghost predicate SoleLink(n: Node, link: Ref) {
    && (exists f :: f in n.filed && f.ref == link && f.kind == Tcp)
    && At(n, link).nodeId != NIL
    && forall f :: f in n.filed && At(n, f.ref).kind == Tcp && At(n, f.ref).nodeId == At(n, link).nodeId ==> f.ref == link
  }

  lemma LinkIsTarget(n: Node, targets: seq<Ref>, link: Ref)
    requires Sound(n) && SoleLink(n, link) && OnePerNode(n, n.filed, targets)
    ensures link in targets
  {
    var f :| f in n.filed && f.ref == link && f.kind == Tcp;
    var i :| 0 <= i < |n.filed| && n.filed[i] == f;
    assert Filed(n, n.filed[i]);
    assert Reached(n, targets, At(n, link).nodeId);
    var j :| 0 <= j < |targets| && At(n, targets[j]).nodeId == At(n, link).nodeId;
    assert TcpFiled(n, n.filed, targets[j]);
  }

  lemma {:induction false} TimesOfDistinct(n: Node, targets: seq<Ref>, link: Ref)
    requires DistinctNodes(n, targets)
    ensures Times(targets, link) == if link in targets then 1 else 0
  {
    if targets != [] {
      var k := |targets| - 1;
      assert forall i :: 0 <= i < k ==> At(n, targets[i]).nodeId != At(n, targets[k]).nodeId;
      TimesOfDistinct(n, targets[..k], link);
      assert link in targets <==> link in targets[..k] || link == targets[k];
    }
  }

  /** A broadcast reaches the peer exactly once. */
  lemma SentOnce(n: Node, targets: seq<Ref>, link: Ref)
    requires Sound(n) && SoleLink(n, link) && OnePerNode(n, n.filed, targets)
    ensures Times(targets, link) == 1
  {
    LinkIsTarget(n, targets, link);
    TimesOfDistinct(n, targets, link);
  }

  // ------------------------------------------------- what leaves the link alone

  lemma FiledMember(n: Node, f: Filing)
    requires Sound(n) && f in n.filed
    ensures f.ref in n.objects && f.ref < n.next && At(n, f.ref).id == f.id && At(n, f.ref).kind == f.kind
  {
    var i :| 0 <= i < |n.filed| && n.filed[i] == f;
    assert Filed(n, n.filed[i]);
  }

  /** The node id of the link stays, and nothing happens to the registrations under `used` ids. */
  ghost predicate Steady(n: Node, m: Node, link: Ref, used: set<Uuid>) {
    && m.id == n.id && At(m, link).nodeId == At(n, link).nodeId && At(m, link).id == At(n, link).id
    && forall f: Filing :: f.id in used ==> (f in m.filed <==> f in n.filed)
  }

  /** From one sound state with the link to another. */
  ghost predicate Undisturbed(n: Node, m: Node, link: Ref, used: set<Uuid>) {
    Sound(m) && SoleLink(m, link) && Steady(n, m, link, used)
  }

  /** Another session: not under a used id, and not a second link. */
  predicate Another(n: Node, link: Ref, used: set<Uuid>, s: Session) {
    s.id !in used && (s.kind == Tcp ==> s.nodeId != At(n, link).nodeId)
  }

  lemma AddKeepsLink(n: Node, s: Session, link: Ref)
    requires Sound(n) && SoleLink(n, link) && (s.kind == Tcp ==> s.nodeId != At(n, link).nodeId)
    ensures SoleLink(AddSession(n, s), link) && At(AddSession(n, s), link) == At(n, link)
  {
    var m := AddSession(n, s);
    AddSessionMembers(n, s);
    forall g | g in n.filed
      ensures At(m, g.ref) == At(n, g.ref)
    {
      FiledMember(n, g);
    }
    var f :| f in n.filed && f.ref == link && f.kind == Tcp;
    assert f in m.filed;
  }

  lemma AddUndisturbed(n: Node, s: Session, link: Ref, used: set<Uuid>)
    requires Sound(n) && SoleLink(n, link) && Another(n, link, used, s)
    ensures Undisturbed(n, AddSession(n, s), link, used)
  {
    AddSessionSound(n, s);
    AddSessionMembers(n, s);
    AddKeepsLink(n, s, link);
  }

  lemma EraseKeepsLink(n: Node, id: Uuid, link: Ref)
    requires Sound(n) && SoleLink(n, link) && id != At(n, link).id
    ensures SoleLink(n.(filed := WithoutId(n.filed, id)), link)
  {
    WithoutIdMembers(n.filed, id);
    var f :| f in n.filed && f.ref == link && f.kind == Tcp;
    FiledMember(n, f);
    assert f in WithoutId(n.filed, id);
  }

  lemma EraseUndisturbed(n: Node, id: Uuid, link: Ref, used: set<Uuid>)
    requires Sound(n) && SoleLink(n, link) && id !in used && id != At(n, link).id
    ensures Undisturbed(n, n.(filed := WithoutId(n.filed, id)), link, used)
  {
    EraseSound(n, id);
    EraseKeepsLink(n, id, link);
    WithoutIdMembers(n.filed, id);
  }

  /** Counters, tasks and dials are no part of this. */
  lemma SameRegistryUndisturbed(n: Node, m: Node, k: Node, link: Ref, used: set<Uuid>)
    requires Undisturbed(n, m, link, used)
    requires k.id == m.id && k.objects == m.objects && k.filed == m.filed && k.next == m.next
    ensures Undisturbed(n, k, link, used)
  {
    SameRegistrySound(m, k);
    assert forall r :: At(k, r) == At(m, r);
  }

  lemma ConnectUndisturbed(env: Env, n: Node, to: Discovery.Peer, discovery: bool, connections: Word, link: Ref, used: set<Uuid>)
    requires Sound(n) && SoleLink(n, link) && env.draw(n.drawn) !in used
    ensures Undisturbed(n, Connect(env, n, to, discovery, connections), link, used)
  {
    var s := Session(env.draw(n.drawn), Tcp, NIL, 0, []);
    var m := Connect(env, n, to, discovery, connections);
    if env.reach(to) && !IdTaken(n.filed, s.id) {
      AddUndisturbed(n, s, link, used);
      SameRegistryUndisturbed(n, AddSession(n, s), m, link, used);
    } else {
      SameRegistryUndisturbed(n, n, m, link, used);
    }
  }

  lemma {:induction false} DialsUndisturbed(env: Env, n: Node, peers: seq<Discovery.Peer>, link: Ref, used: set<Uuid>)
    requires Sound(n) && SoleLink(n, link) && forall i :: env.draw(i) !in used
    ensures Undisturbed(n, DialAll(env, n, peers), link, used)
    decreases |peers|
  {
    if peers != [] {
      var m := DialOne(env, n, peers[0]);
      ConnectUndisturbed(env, n, peers[0], false, 0, link, used);
      DialsUndisturbed(env, m, peers[1..], link, used);
    }
  }

  /** What a session may send while the link stays the only one: joins and leaves speak of other
      ids, and only the link is identified with its node id. */
  ghost predicate Harmless(n: Node, link: Ref, used: set<Uuid>, session: Ref, e: Entry) {
    && session in n.objects
    && (e.op == OP_JOIN || e.op == OP_LEAVE ==> 16 <= |e.body| ==> e.body[..16] !in used && e.body[..16] != At(n, link).id)
    && (e.op == OP_IDENTIFY && 16 <= |e.body| ==> (e.body[..16] == At(n, link).nodeId <==> session == link))
  }

  lemma IdentifyKeepsLink(n: Node, session: Ref, e: Entry, link: Ref, used: set<Uuid>)
    requires SoleLink(n, link) && Harmless(n, link, used, session, e) && e.op == OP_IDENTIFY
    ensures SoleLink(HandleIdentify(n, session, e).node, link)
    ensures Steady(n, HandleIdentify(n, session, e).node, link, used)
  {
    var m := HandleIdentify(n, session, e).node;
    assert m.filed == n.filed;
    assert forall r :: r != session ==> At(m, r) == At(n, r);
    assert At(m, session).kind == At(n, session).kind;
  }

  /** Whatever such a session sends, the link and the used ids stay as they are. */
  lemma HandleUndisturbed(env: Env, n: Node, link: Ref, used: set<Uuid>, session: Ref, e: Entry)
    requires Sound(n) && SoleLink(n, link) && Harmless(n, link, used, session, e) && forall i :: env.draw(i) !in used
    ensures Undisturbed(n, Handle(env, n, session, e).node, link, used)
  {
    HandleSound(env, n, session, e);
    if e.op == OP_IDENTIFY {
      IdentifyKeepsLink(n, session, e, link, used);
    } else if e.op == OP_DISCOVERY {
      DialsUndisturbed(env, n, Discovery.ReadList(e.body), link, used);
    } else if e.op == OP_JOIN && MirrorRequest(n, session, e) {
      AddUndisturbed(n, Session(e.body[..16], WebSocket, At(n, session).nodeId, 0, []), link, used);
    } else if e.op == OP_LEAVE && MirrorRequest(n, session, e) {
      EraseUndisturbed(n, e.body[..16], link, used);
    }
  }

  /** What the owner replies says nothing of its WebSockets and names the owner itself. */
  lemma RepliesNeutral(env: Env, n: Node, session: Ref, e: Entry)
    ensures AllNeutral(n.id, Handle(env, n, session, e).replies)
  {
    if e.op == OP_IDENTIFY {
      var rs := HandleIdentify(n, session, e).replies;
      assert rs != [] ==> rs[0].body[..16] == n.id;
    }
  }
}
