/**
 Which of the listed peers are dialled. Dialled sessions are blank until they are identified, so the
 registry at the start decides for the whole list.
 */
module Dialling {
  import opened Bytes
  import opened Protocol
  import opened Registry
  import opened Messages
  import opened Discovery
  import opened NodeModel

  /** The addresses of dials, in order. */
  function Addresses(ds: seq<Dialled>): seq<Peer> {
    seq(|ds|, i requires 0 <= i < |ds| => ds[i].to)
  }

  /** A registered session has both the host and the port. */
  predicate Bound(n: Node, p: Peer) {
    exists f :: f in n.filed && f.ref in n.objects && n.objects[f.ref].host == p.host && n.objects[f.ref].port == p.port
  }

  /** The reachable peers of a list to which no registered session is bound, in order. */
  function Wanted(env: Env, n: Node, peers: seq<Peer>): seq<Peer> {
    if peers == [] then []
    else (if env.reach(peers[0]) && !Bound(n, peers[0]) then [peers[0]] else []) + Wanted(env, n, peers[1..])
  }

  predicate Blank(p: Peer) {
    p.host == [] && p.port == 0
  }

  /** Sessions that were never given an address are listed blank; a blank address leads nowhere. */
  predicate BlankUnreachable(env: Env, peers: seq<Peer>) {
    forall i :: 0 <= i < |peers| && Blank(peers[i]) ==> !env.reach(peers[i])
  }

  lemma BlankTail(env: Env, peers: seq<Peer>)
    requires peers != [] && BlankUnreachable(env, peers)
    ensures BlankUnreachable(env, peers[1..])
  {
    assert forall i :: 0 <= i < |peers[1..]| ==> peers[1..][i] == peers[i + 1];
  }

  /** For the peers that can be reached, the same ones are bound. */
  ghost predicate SameBound(env: Env, n: Node, m: Node, peers: seq<Peer>) {
    forall i :: 0 <= i < |peers| && env.reach(peers[i]) ==> (Bound(m, peers[i]) <==> Bound(n, peers[i]))
  }

  lemma FiledObject(n: Node, f: Filing)
    requires Sound(n) && f in n.filed
    ensures f.ref in n.objects && f.ref < n.next && At(n, f.ref) == n.objects[f.ref]
  {
    var i :| 0 <= i < |n.filed| && n.filed[i] == f;
    assert Filed(n, n.filed[i]);
  }

  lemma ConnectedIff(n: Node, p: Peer)
    requires Sound(n)
    ensures Connected(n, p) <==> Bound(n, p)
  {
    if Connected(n, p) {
      var i :| 0 <= i < |n.filed| && At(n, n.filed[i].ref).host == p.host && At(n, n.filed[i].ref).port == p.port;
      assert n.filed[i] in n.filed;
      FiledObject(n, n.filed[i]);
    }
    if Bound(n, p) {
      var f :| f in n.filed && f.ref in n.objects && n.objects[f.ref].host == p.host && n.objects[f.ref].port == p.port;
      var i :| 0 <= i < |n.filed| && n.filed[i] == f;
      assert At(n, n.filed[i].ref).host == p.host;
    }
  }

  /** A dial registers at most a blank session, and nothing is bound to it that was not before. */
  lemma ConnectBinds(env: Env, n: Node, to: Peer, p: Peer)
    requires Sound(n) && !Blank(p)
    ensures Bound(Connect(env, n, to, false, 0), p) <==> Bound(n, p)
  {
    var m := Connect(env, n, to, false, 0);
    forall f | f in n.filed
      ensures f.ref in n.objects && f.ref < n.next && f in m.filed && f.ref in m.objects && m.objects[f.ref] == n.objects[f.ref]
    {
      FiledObject(n, f);
    }
  }

  lemma {:induction false} WantedSame(env: Env, n: Node, m: Node, peers: seq<Peer>)
    requires SameBound(env, n, m, peers)
    ensures Wanted(env, m, peers) == Wanted(env, n, peers)
  {
    if peers != [] {
      assert env.reach(peers[0]) ==> (Bound(m, peers[0]) <==> Bound(n, peers[0]));
      assert forall i :: 0 <= i < |peers[1..]| ==> peers[1..][i] == peers[i + 1];
      WantedSame(env, n, m, peers[1..]);
    }
  }

  lemma ConnectSameBound(env: Env, n: Node, to: Peer, peers: seq<Peer>)
    requires Sound(n) && BlankUnreachable(env, peers)
    ensures SameBound(env, n, Connect(env, n, to, false, 0), peers)
  {
    forall i | 0 <= i < |peers| && env.reach(peers[i])
      ensures Bound(Connect(env, n, to, false, 0), peers[i]) <==> Bound(n, peers[i])
    {
      ConnectBinds(env, n, to, peers[i]);
    }
  }

  lemma DialOneSame(env: Env, n: Node, to: Peer, peers: seq<Peer>)
    requires Sound(n) && BlankUnreachable(env, peers)
    ensures Sound(DialOne(env, n, to)) && SameBound(env, n, DialOne(env, n, to), peers)
  {
    ConnectSound(env, n, to, false, 0);
    ConnectSameBound(env, n, to, peers);
  }

  lemma ConnectAddress(env: Env, n: Node, to: Peer)
    ensures Addresses(Connect(env, n, to, false, 0).dialled) == Addresses(n.dialled) + if env.reach(to) then [to] else []
  {
  }

  lemma DialOneAddress(env: Env, n: Node, p: Peer)
    requires Sound(n)
    ensures Addresses(DialOne(env, n, p).dialled) == Addresses(n.dialled) + if env.reach(p) && !Bound(n, p) then [p] else []
  {
    ConnectedIff(n, p);
    ConnectAddress(env, n, p);
    assert Addresses(n.dialled) + [] == Addresses(n.dialled);
  }

  /** Of a list of peers exactly the reachable ones are dialled to which no session registered at the
      start is bound by host and port, in the order of the list. */
  lemma {:induction false} DialsWanted(env: Env, n: Node, peers: seq<Peer>)
    requires Sound(n) && BlankUnreachable(env, peers)
    ensures Addresses(DialAll(env, n, peers).dialled) == Addresses(n.dialled) + Wanted(env, n, peers)
    decreases |peers|
  {
    if peers != [] {
      var m := DialOne(env, n, peers[0]);
      BlankTail(env, peers);
      DialOneSame(env, n, peers[0], peers[1..]);
      WantedSame(env, n, m, peers[1..]);
      DialOneAddress(env, n, peers[0]);
      DialsWanted(env, m, peers[1..]);
      Regroup(Addresses(n.dialled), if env.reach(peers[0]) && !Bound(n, peers[0]) then [peers[0]] else [], Wanted(env, n, peers[1..]));
    }
  }

  lemma Regroup(a: seq<Peer>, b: seq<Peer>, c: seq<Peer>)
    ensures a + b + c == a + (b + c)
  {
  }

  /** What a discovery response makes a node dial. */
  lemma ListedAreDialled(env: Env, n: Node, me: Ref, e: Entry)
    requires Sound(n) && e.op == 3 && e.kind == 1 && BlankUnreachable(env, ReadList(e.body))
    ensures Addresses(Handle(env, n, me, e).node.dialled) == Addresses(n.dialled) + Wanted(env, n, ReadList(e.body))
    ensures Handle(env, n, me, e).replies == []
  {
    DialsWanted(env, n, ReadList(e.body));
  }

  /** The greeting of a dial made for a listed peer: who dials, and from where, with no further
      connections and no listing asked for; or nothing, if the new session could not be registered. */
  predicate Introduces(n: Node, es: seq<Entry>) {
    || es == []
    || (|es| == 1 && es[0].op == 2 && es[0].kind == 0 && |es[0].body| == 29
        && es[0].body[..16] == n.id && At16(es[0].body, 16) == 0 && At16(es[0].body, 18) == n.port && es[0].body[20..] == LOCALHOST)
  }

  lemma ConnectIntroduces(env: Env, n: Node, to: Peer)
    ensures var m := Connect(env, n, to, false, 0);
            && m.id == n.id && m.port == n.port && |n.dialled| <= |m.dialled| && m.dialled[..|n.dialled|] == n.dialled
            && forall i :: |n.dialled| <= i < |m.dialled| ==> Introduces(n, m.dialled[i].sends)
  {
    IdentifyFields(n.id, 0, env.draw(n.drawn + 1), n.port, LOCALHOST);
    assert |IdentifyRequest(n.id, 0, env.draw(n.drawn + 1), n.port, LOCALHOST).body| == 29;
  }

  /** Every dial made for a list introduces the node so. */
  lemma {:induction false} DialsIntroduce(env: Env, n: Node, peers: seq<Peer>)
    ensures var m := DialAll(env, n, peers);
            && m.id == n.id && m.port == n.port && |n.dialled| <= |m.dialled| && m.dialled[..|n.dialled|] == n.dialled
            && forall i :: |n.dialled| <= i < |m.dialled| ==> Introduces(n, m.dialled[i].sends)
    decreases |peers|
  {
    if peers != [] {
      var k, m := DialOne(env, n, peers[0]), DialAll(env, n, peers);
      ConnectIntroduces(env, n, peers[0]);
      DialsIntroduce(env, k, peers[1..]);
      assert m.dialled[..|n.dialled|] == m.dialled[..|k.dialled|][..|n.dialled|];
      forall i | |n.dialled| <= i < |m.dialled|
        ensures Introduces(n, m.dialled[i].sends)
      {
        assert i < |k.dialled| ==> m.dialled[i] == m.dialled[..|k.dialled|][i];
      }
    }
  }
}
