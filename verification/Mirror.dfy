/**
 The receiving end of the mirror: what a node's handlers do to its stand-ins for the WebSockets of
 another node, the owner.
 */
module Mirror {
  import opened Bytes
  import opened Protocol
  import opened Registry
  import opened NodeModel
  import Discovery

  /** The ids the node has stand-ins for. */
  function Mirrored(filed: seq<Filing>, owner: Uuid): set<Uuid> {
    set f | f in filed && f.kind == WebSocket && f.node == owner :: f.id
  }

  // ------------------------------------------------------------- the messages

  /** What an entry sent by the owner does to the set of its WebSockets. */
  function ApplyOne(ids: set<Uuid>, e: Entry): set<Uuid> {
    if e.kind == RESPONSE || |e.body| < 16 then ids
    else if e.op == OP_JOIN then ids + {e.body[..16]}
    else if e.op == OP_LEAVE then ids - {e.body[..16]}
    else ids
  }

  function Apply(ids: set<Uuid>, es: seq<Entry>): set<Uuid>
    decreases |es|
  {
    if es == [] then ids else Apply(ApplyOne(ids, es[0]), es[1..])
  }

  lemma {:induction false} ApplyLast(ids: set<Uuid>, es: seq<Entry>, e: Entry)
    ensures Apply(ids, es + [e]) == ApplyOne(Apply(ids, es), e)
    decreases |es|
  {
    if es == [] {
      assert [e][1..] == [];
    } else {
      assert (es + [e])[0] == es[0] && (es + [e])[1..] == es[1..] + [e];
      ApplyLast(ApplyOne(ids, es[0]), es[1..], e);
    }
  }

  lemma {:induction false} ApplyAppend(ids: set<Uuid>, es: seq<Entry>, more: seq<Entry>)
    ensures Apply(ids, es + more) == Apply(Apply(ids, es), more)
    decreases |es|
  {
    if es == [] {
      assert es + more == more;
    } else {
      assert (es + more)[0] == es[0] && (es + more)[1..] == es[1..] + more;
      ApplyAppend(ApplyOne(ids, es[0]), es[1..], more);
    }
  }

  predicate Announcement(used: set<Uuid>, e: Entry) {
    && (e.op == OP_JOIN || e.op == OP_LEAVE) && e.kind == REQUEST
    && |e.body| == 16 && e.body in used
  }

  /** Anything else the owner sends: it identifies as itself, and joins and leaves only to reply. */
  predicate Neutral(owner: Uuid, e: Entry) {
    && (e.op == OP_IDENTIFY && 16 <= |e.body| ==> e.body[..16] == owner)
    && (e.op == OP_JOIN || e.op == OP_LEAVE ==> e.kind == RESPONSE || |e.body| < 16)
  }

  predicate AllNeutral(owner: Uuid, es: seq<Entry>) {
    forall i :: 0 <= i < |es| ==> Neutral(owner, es[i])
  }

  lemma {:induction false} NeutralApplies(ids: set<Uuid>, owner: Uuid, es: seq<Entry>)
    requires AllNeutral(owner, es)
    ensures Apply(ids, es) == ids
    decreases |es|
  {
    if es != [] {
      assert Neutral(owner, es[0]);
      NeutralApplies(ids, owner, es[1..]);
    }
  }

  // -------------------------------------------------------------- the registry

  /** The node knows the link's other end by its node id. */
  predicate Identified(n: Node, link: Ref, owner: Uuid) {
    link in n.objects && n.objects[link].kind == Tcp && n.objects[link].nodeId == owner
  }

  /** A stand-in for a WebSocket of the owner. */
  predicate OwnersFiling(owner: Uuid, f: Filing) {
    f.kind == WebSocket && f.node == owner
  }

  lemma AddSessionMembers(n: Node, s: Session)
    ensures var m := AddSession(n, s);
            && (IdTaken(n.filed, s.id) ==> m.filed == n.filed)
            && (!IdTaken(n.filed, s.id) ==>
                  forall f :: f in m.filed <==> f in n.filed || f == Filing(n.next, s.id, s.kind, s.nodeId))
  {
  }

  /** A new filing is a stand-in of the owner's or it is not. */
  lemma MirroredWith(filed: seq<Filing>, more: seq<Filing>, g: Filing, owner: Uuid)
    requires forall f :: f in more <==> f in filed || f == g
    ensures Mirrored(more, owner) == Mirrored(filed, owner) + if OwnersFiling(owner, g) then {g.id} else {}
  {
    assert g in more;
  }

  lemma MirroredWithout(filed: seq<Filing>, id: Uuid, owner: Uuid)
    ensures Mirrored(WithoutId(filed, id), owner) == Mirrored(filed, owner) - {id}
  {
    WithoutIdMembers(filed, id);
  }

  /** Ids of the owner's are taken only by stand-ins, and stand-ins have only such ids. */
  ghost predicate Reserved(filed: seq<Filing>, owner: Uuid, used: set<Uuid>) {
    && (forall f :: f in filed && f.id in used ==> OwnersFiling(owner, f))
    && Mirrored(filed, owner) <= used
  }

  // --------------------------------------------------------- frames on the link

  lemma JoinMirrors(n: Node, link: Ref, owner: Uuid, used: set<Uuid>, e: Entry)
    requires Identified(n, link, owner) && Announcement(used, e) && Reserved(n.filed, owner, used)
    ensures var m := HandleJoin(n, link, e).node;
            Mirrored(m.filed, owner) == Mirrored(n.filed, owner) + {e.body} && Reserved(m.filed, owner, used)
  {
    var s := Session(e.body, WebSocket, owner, 0, []);
    assert e.body[..16] == e.body;
    AddSessionMembers(n, s);
    if IdTaken(n.filed, e.body) {
      TakenIsMember(n.filed, e.body);
    } else {
      MirroredWith(n.filed, AddSession(n, s).filed, Filing(n.next, e.body, WebSocket, owner), owner);
    }
  }

  lemma LeaveMirrors(n: Node, link: Ref, owner: Uuid, used: set<Uuid>, e: Entry)
    requires Identified(n, link, owner) && Announcement(used, e) && Reserved(n.filed, owner, used)
    ensures var m := HandleLeave(n, link, e).node;
            Mirrored(m.filed, owner) == Mirrored(n.filed, owner) - {e.body} && Reserved(m.filed, owner, used)
  {
    assert e.body[..16] == e.body;
    WithoutIdMembers(n.filed, e.body);
    MirroredWithout(n.filed, e.body, owner);
  }

  /** Handling an announcement does to the stand-ins what the announcement says. */
  lemma HandledMirrors(env: Env, n: Node, link: Ref, owner: Uuid, used: set<Uuid>, e: Entry)
    requires Sound(n) && Identified(n, link, owner) && Announcement(used, e) && Reserved(n.filed, owner, used)
    ensures var m := Handle(env, n, link, e).node;
            && Sound(m) && Identified(m, link, owner) && Reserved(m.filed, owner, used)
            && Mirrored(m.filed, owner) == ApplyOne(Mirrored(n.filed, owner), e)
  {
    assert e.body[..16] == e.body;
    HandleSound(env, n, link, e);
    if e.op == OP_JOIN {
      JoinMirrors(n, link, owner, used, e);
    } else {
      LeaveMirrors(n, link, owner, used, e);
    }
  }

  lemma {:induction false} DialsKeepReserved(env: Env, n: Node, peers: seq<Discovery.Peer>, owner: Uuid, used: set<Uuid>)
    requires Reserved(n.filed, owner, used) && forall i :: env.draw(i) !in used
    ensures var m := DialAll(env, n, peers);
            Reserved(m.filed, owner, used) && Mirrored(m.filed, owner) == Mirrored(n.filed, owner)
    decreases |peers|
  {
    if peers != [] {
      var m := DialOne(env, n, peers[0]);
      OtherDial(env, n, peers[0], false, 0, owner, used);
      DialsKeepReserved(env, m, peers[1..], owner, used);
    }
  }

  /** Whatever else the owner sends leaves the stand-ins alone. */
  lemma NeutralMirrors(env: Env, n: Node, link: Ref, owner: Uuid, used: set<Uuid>, e: Entry)
    requires Sound(n) && Identified(n, link, owner) && Neutral(owner, e) && Reserved(n.filed, owner, used)
    requires forall i :: env.draw(i) !in used
    ensures var m := Handle(env, n, link, e).node;
            && Sound(m) && Identified(m, link, owner) && Reserved(m.filed, owner, used)
            && Mirrored(m.filed, owner) == Mirrored(n.filed, owner)
  {
    HandleSound(env, n, link, e);
    if e.op == OP_DISCOVERY {
      DialAllKeeps(env, n, Discovery.ReadList(e.body));
      DialsKeepReserved(env, n, Discovery.ReadList(e.body), owner, used);
    }
  }

  // -------------------------------------------------- everything else at the node

  lemma OtherAdd(n: Node, s: Session, owner: Uuid, used: set<Uuid>)
    requires Reserved(n.filed, owner, used) && s.id !in used && !(s.kind == WebSocket && s.nodeId == owner)
    ensures var m := AddSession(n, s);
            Reserved(m.filed, owner, used) && Mirrored(m.filed, owner) == Mirrored(n.filed, owner)
  {
    AddSessionMembers(n, s);
    if !IdTaken(n.filed, s.id) {
      MirroredWith(n.filed, AddSession(n, s).filed, Filing(n.next, s.id, s.kind, s.nodeId), owner);
    }
  }

  /** Sessions of its own, and sessions of third nodes, come and go without touching the stand-ins. */
  lemma OtherErase(filed: seq<Filing>, id: Uuid, owner: Uuid, used: set<Uuid>)
    requires Reserved(filed, owner, used) && id !in used
    ensures Reserved(WithoutId(filed, id), owner, used) && Mirrored(WithoutId(filed, id), owner) == Mirrored(filed, owner)
  {
    WithoutIdMembers(filed, id);
    MirroredWithout(filed, id, owner);
  }

  /** What another session may send: nothing that speaks of the owner's WebSockets. */
  ghost predicate Unrelated(n: Node, link: Ref, owner: Uuid, used: set<Uuid>, session: Ref, e: Entry) {
    && session in n.objects && session != link && At(n, session).nodeId != owner
    && (e.op == OP_JOIN || e.op == OP_LEAVE ==> 16 <= |e.body| ==> e.body[..16] !in used)
  }

  /** Other sessions leave the stand-ins alone. */
  lemma UnrelatedMirrors(env: Env, n: Node, link: Ref, owner: Uuid, used: set<Uuid>, session: Ref, e: Entry)
    requires Unrelated(n, link, owner, used, session, e) && Reserved(n.filed, owner, used)
    requires forall i :: env.draw(i) !in used
    ensures var m := Handle(env, n, session, e).node;
            Reserved(m.filed, owner, used) && Mirrored(m.filed, owner) == Mirrored(n.filed, owner)
  {
    if e.op == OP_DISCOVERY {
      DialsKeepReserved(env, n, Discovery.ReadList(e.body), owner, used);
    } else if e.op == OP_JOIN && MirrorRequest(n, session, e) {
      OtherAdd(n, Session(e.body[..16], WebSocket, At(n, session).nodeId, 0, []), owner, used);
    } else if e.op == OP_LEAVE && MirrorRequest(n, session, e) {
      OtherErase(n.filed, e.body[..16], owner, used);
    }
  }

  lemma ElsewhereIdentified(env: Env, n: Node, session: Ref, e: Entry, link: Ref, owner: Uuid)
    requires Sound(n) && session in n.objects && session != link && Identified(n, link, owner)
    ensures Identified(Handle(env, n, session, e).node, link, owner)
  {
    if e.op == OP_DISCOVERY {
      DialAllKeeps(env, n, Discovery.ReadList(e.body));
    }
  }

  lemma OtherDial(env: Env, n: Node, to: Discovery.Peer, discovery: bool, connections: Word, owner: Uuid, used: set<Uuid>)
    requires Reserved(n.filed, owner, used) && forall i :: env.draw(i) !in used
    ensures var m := Connect(env, n, to, discovery, connections);
            Reserved(m.filed, owner, used) && Mirrored(m.filed, owner) == Mirrored(n.filed, owner)
  {
    var s := Session(env.draw(n.drawn), Tcp, NIL, 0, []);
    var m := Connect(env, n, to, discovery, connections);
    if m.filed != n.filed {
      AddSessionMembers(n, s);
      MirroredWith(n.filed, m.filed, Filing(n.next, s.id, Tcp, NIL), owner);
    }
  }
}
