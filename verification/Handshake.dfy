/** A handshake, from the call of `connect` to its last frame: both ends come to know each other. */
module Handshake {
  import opened Bytes
  import opened Protocol
  import opened Frames
  import opened Registry
  import opened Messages
  import opened NodeModel
  import opened Kernel
  import opened Conversation
  import opened Arrivals
  import opened Bootstrap
  import opened Connections
  import opened Bindings
  import Discovery

  lemma OneEntry(env: Env, n: Node, me: Ref, e: Entry)
    ensures HandleAll(env, n, me, [e]) == Handle(env, n, me, e)
  {
    HandleCons(env, n, me, e, []);
    assert [e] + [] == [e];
    assert Handle(env, n, me, e).replies + [] == Handle(env, n, me, e).replies;
  }

  /** A frame of one small entry, and the reply to it. */
  lemma OneReplied(env: Env, n: Node, me: Ref, e: Entry)
    requires AllFramable(Payloads([e])) && Quiet(e)
    ensures Found(Body([e])) == [e]
    ensures var rs := Handle(env, n, me, e).replies;
            Replied(env, n, me, Body([e])) == if rs == [] then None else Some(Body(rs))
  {
    FittingFound([e]);
    OneEntry(env, n, me, e);
    OneResponse(env, n, me, e);
    var rs := Handle(env, n, me, e).replies;
    if rs == [] {
      assert Payloads(rs) == [];
    } else {
      OneFrame(env, n, me, e, rs[0]);
      assert rs == [rs[0]];
      BodyOfFrame(Payloads(rs), At(n, me).kind);
    }
  }

  lemma OneFrame(env: Env, n: Node, me: Ref, e: Entry, r: Entry)
    requires Quiet(e) && Handle(env, n, me, e).replies == [r]
    ensures forall headed :: Frame(Payloads([r]), headed).Data? && Frame(Payloads([r]), headed).bytes != []
  {
    ReplySize(env, n, me, e, r);
    PayloadsOne(r);
    assert TotalSize([Payload(r)]) == |Payload(r)|;
  }

  /** Delivering the last frame in flight, if it holds one quiet entry. */
  lemma DeliverLast(c: Cluster, rest: seq<InFlight>, f: InFlight, e: Entry, env: Env)
    requires c.flight == rest + [f] && f.dst < |c.nodes| && f.body == Body([e]) && Truthful(c, env)
    requires AllFramable(Payloads([e])) && Quiet(e) && c.nodes[f.dst].dialled == []
    ensures var o := Handle(env, c.nodes[f.dst], f.dstRef, e);
            Next(c, Deliver(|rest|, env)) ==
            c.(nodes := c.nodes[f.dst := o.node.(dialled := [])],
               flight := rest + if o.replies == [] then [] else [InFlight(f.dst, f.dstRef, f.src, f.srcRef, Body(o.replies))])
  {
    var n := c.nodes[f.dst];
    OneReplied(env, n, f.dstRef, e);
    OneEntry(env, n, f.dstRef, e);
    assert c.flight[|rest|] == f;
    DeliverIsDelivered(c, |rest|, env);
    assert Drop(c.flight, |rest|) == rest;
  }

  /** The entry a greeting without discovery consists of. */
  function Hello(env: Env, n: Node, connections: Word): Entry {
    IdentifyRequest(n.id, connections, env.draw(n.drawn + 1), n.port, Discovery.LOCALHOST)
  }

  lemma HelloFits(env: Env, n: Node, connections: Word)
    ensures Greeting(env, n, false, connections) == [Hello(env, n, connections)]
    ensures AllFramable(Payloads([Hello(env, n, connections)]))
  {
    assert |Hello(env, n, connections).body| <= 29;
  }

  /** A call that reaches another node: two blank sessions, the greeting between them. */
  lemma CallGreets(c: Cluster, a: nat, to: Discovery.Peer, connections: Word, env: Env)
    requires a < |c.nodes| && NothingDialled(c.nodes) && Truthful(c, env) && env.reach(to)
    requires Listener(c, to) && c.directory[to] != a
    requires NewIds(env, c.nodes[a]) && NewIds(env, c.nodes[c.directory[to]])
    ensures var t, n := c.directory[to], c.nodes[a];
            Next(c, Call(a, to, false, connections, env)) ==
            c.(nodes := c.nodes[a := Dialler(env, n)][t := Accept(env, c.nodes[t])],
               flight := c.flight + [InFlight(a, n.next, t, c.nodes[t].next, Body([Hello(env, n, connections)]))])
  {
    LinkIsGreeted(env, c, a, to, connections);
    HelloFits(env, c.nodes[a], connections);
  }

  /** Node `n` has a registered TCP session at `ref`, bound to the node id, the port and the host. */
  predicate Bound(n: Node, ref: Ref, node: Uuid, port: Word, host: Bytes) {
    && RefFiled(n.filed, ref) && ref in n.objects && n.objects[ref].kind == Tcp
    && n.objects[ref].nodeId == node && n.objects[ref].port == port && n.objects[ref].host == host
  }

  lemma NewSessions(env: Env, n: Node)
    requires !IdTaken(n.filed, env.draw(n.drawn)) && n.dialled == []
    ensures Bound(Dialler(env, n), n.next, NIL, 0, []) && Dialler(env, n).id == n.id && Dialler(env, n).dialled == []
    ensures Bound(Accept(env, n), n.next, NIL, 0, []) && Accept(env, n).id == n.id && Accept(env, n).dialled == []
  {
    assert Dialler(env, n).filed[|n.filed|].ref == n.next;
    assert Accept(env, n).filed[|n.filed|].ref == n.next;
  }

  /** The state after the greeting was delivered: the listener knows the caller and its address. */
  lemma GreetingHandled(env: Env, n: Node, ref: Ref, e: Entry, node: Uuid, connections: Word, tx: Uuid, port: Word)
    requires Bound(n, ref, NIL, 0, []) && e == IdentifyRequest(node, connections, tx, port, Discovery.LOCALHOST)
    ensures var o := Handle(env, n, ref, e);
            Bound(o.node, ref, node, port, Discovery.LOCALHOST) && o.replies == [IdentifyResponse(tx, n.id)] && o.node.id == n.id
  {
    IdentifyBinds(env, n, ref, node, connections, tx, port, Discovery.LOCALHOST);
  }

  lemma ReplyHandled(env: Env, n: Node, ref: Ref, node: Uuid, tx: Uuid)
    requires Bound(n, ref, NIL, 0, [])
    ensures var o := Handle(env, n, ref, IdentifyResponse(tx, node));
            Bound(o.node, ref, node, 0, []) && o.replies == []
  {
    ResponseBinds(env, n, ref, node, tx);
  }

  /** A frame of one entry is the last in flight, from a session to another of another node. */
  ghost predicate Last(c: Cluster, rest: seq<InFlight>, x: nat, rx: Ref, y: nat, ry: Ref, e: Entry) {
    && x < |c.nodes| && y < |c.nodes| && x != y
    && c.nodes[x].dialled == [] && c.nodes[y].dialled == []
    && c.flight == rest + [InFlight(x, rx, y, ry, Body([e]))] && AllFramable(Payloads([e]))
  }

  /** The greeting arrives at the listener, which replies. */
  lemma FirstDelivery(c: Cluster, rest: seq<InFlight>, a: nat, ra: Ref, t: nat, rt: Ref, connections: Word, tx: Uuid, port: Word,
                      node: Uuid, env: Env)
    requires var e := IdentifyRequest(node, connections, tx, port, Discovery.LOCALHOST);
             Last(c, rest, a, ra, t, rt, e) && Bound(c.nodes[t], rt, NIL, 0, [])
    requires Truthful(c, env)
    ensures Enabled(c, Deliver(|rest|, env))
    ensures var d := Next(c, Deliver(|rest|, env));
            && Last(d, rest, t, rt, a, ra, IdentifyResponse(tx, c.nodes[t].id))
            && d.nodes[a] == c.nodes[a] && d.directory == c.directory && |d.nodes| == |c.nodes|
            && Bound(d.nodes[t], rt, node, port, Discovery.LOCALHOST)
  {
    var e := IdentifyRequest(node, connections, tx, port, Discovery.LOCALHOST);
    DeliverLast(c, rest, InFlight(a, ra, t, rt, Body([e])), e, env);
    GreetingHandled(env, c.nodes[t], rt, e, node, connections, tx, port);
    assert |IdentifyResponse(tx, c.nodes[t].id).body| == 16;
  }

  /** The reply arrives at the caller, which sends nothing more. */
  lemma SecondDelivery(c: Cluster, rest: seq<InFlight>, t: nat, rt: Ref, a: nat, ra: Ref, node: Uuid, tx: Uuid, env: Env)
    requires Last(c, rest, t, rt, a, ra, IdentifyResponse(tx, node)) && Bound(c.nodes[a], ra, NIL, 0, [])
    requires Truthful(c, env)
    ensures Enabled(c, Deliver(|rest|, env))
    ensures var d := Next(c, Deliver(|rest|, env));
            && d.flight == rest && |d.nodes| == |c.nodes| && d.nodes[t] == c.nodes[t]
            && Bound(d.nodes[a], ra, node, 0, [])
  {
    var e := IdentifyResponse(tx, node);
    DeliverLast(c, rest, InFlight(t, rt, a, ra, Body([e])), e, env);
    ReplyHandled(env, c.nodes[a], ra, node, tx);
    assert rest + [] == rest;
  }

  lemma CallReady(c: Cluster, a: nat, to: Discovery.Peer, connections: Word, env: Env)
    requires a < |c.nodes| && NothingDialled(c.nodes) && Truthful(c, env) && env.reach(to)
    requires Listener(c, to) && c.directory[to] != a
    requires NewIds(env, c.nodes[a]) && NewIds(env, c.nodes[c.directory[to]])
    ensures var t, n, d := c.directory[to], c.nodes[a], Next(c, Call(a, to, false, connections, env));
            && Last(d, c.flight, a, n.next, t, c.nodes[t].next, Hello(env, n, connections))
            && Bound(d.nodes[a], n.next, NIL, 0, []) && Bound(d.nodes[t], c.nodes[t].next, NIL, 0, [])
            && d.nodes[t].id == c.nodes[t].id && |d.nodes| == |c.nodes| && d.directory == c.directory
  {
    var t, n := c.directory[to], c.nodes[a];
    CallGreets(c, a, to, connections, env);
    NewSessions(env, n);
    NewSessions(env, c.nodes[t]);
    HelloFits(env, n, connections);
  }

  /** A call of `connect` that reaches another node, followed by the delivery of its greeting and of the
      reply: the caller's session is bound to the listener's node id, the listener's session to the
      caller's node id and to the loopback address with the caller's port, and nothing is left in
      flight. */
  lemma BothEndsKnow(c: Cluster, a: nat, to: Discovery.Peer, connections: Word, env: Env, env': Env, env'': Env)
    requires a < |c.nodes| && NothingDialled(c.nodes) && Truthful(c, env) && Truthful(c, env') && Truthful(c, env'')
    requires env.reach(to) && Listener(c, to) && c.directory[to] != a
    requires NewIds(env, c.nodes[a]) && NewIds(env, c.nodes[c.directory[to]])
    ensures var t := c.directory[to];
            var i := |c.flight|;
            var c1 := Next(c, Call(a, to, false, connections, env));
            && Enabled(c1, Deliver(i, env'))
            && var c2 := Next(c1, Deliver(i, env'));
            && Enabled(c2, Deliver(i, env''))
            && var c3 := Next(c2, Deliver(i, env''));
            && c3.flight == c.flight && |c3.nodes| == |c.nodes|
            && Bound(c3.nodes[a], c.nodes[a].next, c.nodes[t].id, 0, [])
            && Bound(c3.nodes[t], c.nodes[t].next, c.nodes[a].id, c.nodes[a].port, Discovery.LOCALHOST)
  {
    var t, n := c.directory[to], c.nodes[a];
    var c1 := Next(c, Call(a, to, false, connections, env));
    CallReady(c, a, to, connections, env);
    FirstDelivery(c1, c.flight, a, n.next, t, c.nodes[t].next, connections, env.draw(n.drawn + 1), n.port, n.id, env');
    SecondDelivery(Next(c1, Deliver(|c.flight|, env')), c.flight, t, c.nodes[t].next, a, n.next, c1.nodes[t].id, env.draw(n.drawn + 1), env'');
  }
}
