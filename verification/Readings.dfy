/** What messages mean: the numbers and fields found at the places of the wire format. */
module Readings {
  import opened Bytes
  import opened Protocol
  import opened Registry
  import opened Messages
  import opened NodeModel
  import Discovery

  predicate Reads(e: Entry, op: nat, kind: nat, tx: Uuid, body: Bytes) {
    e.op == op && e.kind == kind && e.tx == tx && e.body == body
  }

  /** The requests without fields, and those that name a WebSocket. */
  lemma RequestsRead(tx: Uuid, id: Uuid)
    ensures Reads(PingRequest(tx), 1, 0, tx, [])
    ensures Reads(DiscoveryRequest(tx), 3, 0, tx, [])
    ensures Reads(JoinRequest(id, tx), 4, 0, tx, id)
    ensures Reads(LeaveRequest(id, tx), 5, 0, tx, id)
    ensures Reads(WhoamiRequest(tx), 6, 0, tx, [])
  {
  }

  /** The fields of an identify request: port and host are missing if both are blank. */
  lemma IdentifyReads(node: Uuid, connections: Word, tx: Uuid, port: Word, host: Bytes)
    ensures var e := IdentifyRequest(node, connections, tx, port, host);
            && e.op == 2 && e.kind == 0 && e.tx == tx
            && 18 <= |e.body| && e.body[..16] == node && At16(e.body, 16) == connections
            && (if port == 0 && host == [] then |e.body| == 18
                else 20 <= |e.body| && At16(e.body, 18) == port && e.body[20..] == host)
  {
    IdentifyFields(node, connections, tx, port, host);
  }

  /** Ping is answered by success, whoami by who is who, and an unknown opcode as not implemented; none of
      them changes the node. */
  lemma PlainAnswers(env: Env, n: Node, me: Ref, e: Entry)
    requires e.kind != 1 && (e.op == 0 || e.op == 1 || e.op >= 6)
    ensures var o := Handle(env, n, me, e);
            && o.node == n && |o.replies| == 1
            && (e.op == 1 ==> Reads(o.replies[0], 1, 1, e.tx, [200]))
            && (e.op == 0 || e.op > 6 ==> Reads(o.replies[0], 0, 1, e.tx, [0]))
  {
  }

  lemma WhoamiAnswer(env: Env, n: Node, me: Ref, e: Entry)
    requires e.kind != 1 && e.op == 6
    ensures var o := Handle(env, n, me, e);
            && |o.replies| == 1
            && var r := o.replies[0];
            && r.op == 6 && r.kind == 1 && r.tx == e.tx && |r.body| == 33
            && r.body[..16] == At(n, me).id && r.body[16..32] == n.id
            && r.body[32] == match At(n, me).kind { case Tcp => 0 case WebSocket => 1 }
  {
  }

  /** An identify request is answered by the node's own id. */
  lemma IdentifyAnswer(env: Env, n: Node, me: Ref, e: Entry)
    requires e.op == 2 && e.kind == 0 && 16 <= |e.body| && At(n, me).kind == Tcp
    ensures var o := Handle(env, n, me, e);
            |o.replies| == 1 && Reads(o.replies[0], 2, 1, e.tx, n.id)
  {
  }

  /** A discovery request changes nothing and is answered by a listing. */
  lemma DiscoveryAnswer(env: Env, n: Node, me: Ref, e: Entry)
    requires e.op == 3 && e.kind == 0
    ensures var o := Handle(env, n, me, e);
            && o.node == n && |o.replies| == 1
            && o.replies[0].op == 3 && o.replies[0].kind == 1 && o.replies[0].tx == e.tx
            && o.replies[0].body == Discovery.ListBody(Listing(n, At(n, me).nodeId, n.filed))
  {
  }

  /** A join registers a stand-in for a WebSocket of the node the link is bound to, with a blank
      address, unless the id is taken. */
  lemma JoinStandsIn(env: Env, n: Node, me: Ref, e: Entry)
    requires e.op == 4 && MirrorRequest(n, me, e) && !IdTaken(n.filed, e.body[..16])
    ensures var m := Handle(env, n, me, e).node;
            && m.filed == n.filed + [Filing(n.next, e.body[..16], WebSocket, At(n, me).nodeId)]
            && n.next in m.objects && m.objects[n.next] == Session(e.body[..16], WebSocket, At(n, me).nodeId, 0, [])
  {
  }

  /** A join for an id in use changes nothing. */
  lemma JoinTaken(env: Env, n: Node, me: Ref, e: Entry)
    requires e.op == 4 && MirrorRequest(n, me, e) && IdTaken(n.filed, e.body[..16])
    ensures Handle(env, n, me, e).node == n
  {
  }

  /** A leave takes out what is registered under the id, and nothing else changes. */
  lemma LeaveTakesOut(env: Env, n: Node, me: Ref, e: Entry)
    requires e.op == 5 && MirrorRequest(n, me, e)
    ensures var m := Handle(env, n, me, e).node;
            && m == n.(filed := m.filed)
            && forall f :: f in m.filed <==> f in n.filed && f.id != e.body[..16]
  {
    WithoutIdMembers(n.filed, e.body[..16]);
  }
}
