/**
 What an identify binds a session to, and what follows from it: the address is listed to third nodes,
 and after a handshake both ends know each other.
 */
module Bindings {
  import opened Bytes
  import opened Protocol
  import opened Registry
  import opened Messages
  import opened NodeModel
  import Discovery

  /** Nothing but the session `me` and the posted dials is different. */
  ghost predicate OnlySession(n: Node, m: Node, me: Ref) {
    && (forall r :: r != me ==> (r in m.objects <==> r in n.objects) && (r in n.objects ==> m.objects[r] == n.objects[r]))
    && m.id == n.id && m.port == n.port && m.filed == n.filed && m.next == n.next && m.dialled == n.dialled
  }

  /** The dials an identify request asks for. */
  function Asked(connections: Word, port: Word, host: Bytes): seq<Discovery.Peer> {
    if connections > 1 && port != 0 && host != [] then seq(connections - 1, i => Discovery.Peer(host, port)) else []
  }

  /** An identify request binds the node id, the port and the host it carries; a blank host leaves the old
      one, and a request without an address leaves the old address. */
  lemma IdentifyBinds(env: Env, n: Node, me: Ref, node: Uuid, connections: Word, tx: Uuid, port: Word, host: Bytes)
    requires me in n.objects && n.objects[me].kind == Tcp
    ensures var o := Handle(env, n, me, IdentifyRequest(node, connections, tx, port, host));
            && me in o.node.objects && OnlySession(n, o.node, me)
            && o.node.objects[me].nodeId == node
            && o.node.objects[me].host == (if host != [] then host else n.objects[me].host)
            && o.node.objects[me].port == (if port != 0 || host != [] then port else n.objects[me].port)
            && o.node.objects[me].id == n.objects[me].id && o.node.objects[me].kind == Tcp
            && o.node.posted == n.posted + Asked(connections, port, host)
            && o.replies == [IdentifyResponse(tx, n.id)]
  {
    IdentifyFields(node, connections, tx, port, host);
  }

  /** An identify response binds the node id and is not answered. */
  lemma ResponseBinds(env: Env, n: Node, me: Ref, node: Uuid, tx: Uuid)
    requires me in n.objects && n.objects[me].kind == Tcp
    ensures var o := Handle(env, n, me, IdentifyResponse(tx, node));
            && me in o.node.objects && OnlySession(n, o.node, me)
            && o.node.objects[me] == n.objects[me].(nodeId := node)
            && o.node.posted == n.posted && o.replies == []
  {
  }

  /** A WebSocket is not identified. */
  lemma WebSocketStays(env: Env, n: Node, me: Ref, e: Entry)
    requires me in n.objects && n.objects[me].kind == WebSocket && e.op == OP_IDENTIFY
    ensures Handle(env, n, me, e) == Outcome(n, [])
  {
  }

  /** The address a registered session identifies with is listed to any session of a third node. */
  lemma IdentifiedIsListed(env: Env, n: Node, me: Ref, node: Uuid, connections: Word, tx: Uuid, port: Word, host: Bytes,
                           asker: Ref, tx': Uuid) returns (peers: seq<Discovery.Peer>)
    requires me in n.objects && n.objects[me].kind == Tcp && RefFiled(n.filed, me)
    requires host != [] && node != n.id && asker != me && At(n, asker).nodeId != node
    ensures var m := Handle(env, n, me, IdentifyRequest(node, connections, tx, port, host)).node;
            Handle(env, m, asker, DiscoveryRequest(tx')).replies == [DiscoveryResponse(tx', peers)]
    ensures Discovery.Peer(host, port) in peers
  {
    IdentifyBinds(env, n, me, node, connections, tx, port, host);
    var m := Handle(env, n, me, IdentifyRequest(node, connections, tx, port, host)).node;
    peers := Listing(m, At(m, asker).nodeId, m.filed);
    var i :| 0 <= i < |n.filed| && n.filed[i].ref == me;
    assert m.filed[i] in m.filed;
    assert Lists(m, At(m, asker).nodeId, m.filed[i], Discovery.Peer(host, port));
    ListingMembers(m, At(m, asker).nodeId, m.filed, Discovery.Peer(host, port));
  }
}
