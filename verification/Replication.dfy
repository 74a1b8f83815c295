/**
 The mirror of a node's WebSockets at a peer. The owner broadcasts a join when a handshake ends
 and a leave when a session has been removed; both travel in order over the one TCP link to the
 peer, among everything else the owner sends there. Meanwhile both nodes go on: they accept, dial,
 identify and drop other sessions, and mirror the WebSockets of other nodes, each other's included.
 */
module Replication {
  import opened Bytes
  import opened Protocol
  import opened Registry
  import opened Messages
  import opened NodeModel
  import opened Routing
  import opened Mirror
  import opened Uplink
  import Discovery

  /**
   `outward` is the owner's session for the link and `inward` the peer's. `used` holds the ids
   the owner registered, `accepted` those whose handshake ended well, and `leaving` those erased
   from the registry whose `disconnect()` has not run yet.
   */
  datatype Pair = Pair(owner: Node, peer: Node, outward: Ref, inward: Ref, wire: seq<Entry>,
                       used: set<Uuid>, accepted: set<Uuid>, leaving: set<Uuid>)

  datatype Side = AtOwner | AtPeer

  /**
   The owner's WebSockets: registered, handshake done, erased, disconnected; a broadcast carries the
   targets it chose and the transaction id it drew. The link: the owner sends something else, the
   next entry arrives. Both nodes: an entry arrives on a session (at the peer, on another than the
   link), a session is registered, one is removed, a dial is made.
   */
  datatype Event =
    | Register(id: Uuid)
    | Accepted(id: Uuid, targets: seq<Ref>, tx: Uuid)
    | Erase(id: Uuid)
    | Disconnect(id: Uuid, targets: seq<Ref>, tx: Uuid)
    | Talk(entry: Entry)
    | Deliver(env: Env)
    | Receive(side: Side, env: Env, session: Ref, entry: Entry)
    | Add(side: Side, s: Session)
    | Remove(side: Side, id: Uuid)
    | Dial(side: Side, env: Env, to: Discovery.Peer, discovery: bool, connections: Word)

  /** The WebSockets that joined and have not left. */
  function Joined(p: Pair): set<Uuid> {
    set id | id in p.accepted && (IdTaken(p.owner.filed, id) || id in p.leaving)
  }

  ghost predicate FreshIds(p: Pair, env: Env) {
    forall i :: env.draw(i) !in p.used
  }

  /**
   Ids are fresh; the link stays up, registered and the only one between the two nodes; stand-ins
   are not removed by hand, so that the owner drops TCP sessions only.
   */
  ghost predicate Enabled(p: Pair, ev: Event) {
    match ev
    case Register(id) => id !in p.used && !IdTaken(p.owner.filed, id) && !IdTaken(p.peer.filed, id)
    case Accepted(id, targets, tx) =>
      id in p.used && id !in p.accepted && IdTaken(p.owner.filed, id) && OnePerNode(p.owner, p.owner.filed, targets)
    case Erase(id) => id in p.used
    case Disconnect(id, targets, tx) => id in p.leaving && OnePerNode(p.owner, p.owner.filed, targets)
    case Talk(entry) => Neutral(p.owner.id, entry)
    case Deliver(env) => p.wire != [] && FreshIds(p, env)
    case Receive(side, env, session, entry) =>
      && FreshIds(p, env)
      && if side == AtOwner
         then Harmless(p.owner, p.outward, p.used, session, entry)
         else Unrelated(p.peer, p.inward, p.owner.id, p.used, session, entry)
    case Add(AtOwner, s) => Another(p.owner, p.outward, p.used, s)
    case Add(AtPeer, s) => s.id !in p.used && !(s.kind == WebSocket && s.nodeId == p.owner.id)
    case Remove(AtOwner, id) =>
      && id !in p.used && id != At(p.owner, p.outward).id
      && forall f :: f in p.owner.filed && f.id == id ==> f.kind == Tcp
    case Remove(AtPeer, id) => id !in p.used
    case Dial(side, env, to, discovery, connections) => FreshIds(p, env)
  }

  /** One copy for every time the link is a target. */
  function Sent(e: Entry, targets: seq<Ref>, outward: Ref): seq<Entry> {
    seq(Times(targets, outward), i => e)
  }

  function NodeAt(p: Pair, side: Side): Node {
    match side case AtOwner => p.owner case AtPeer => p.peer
  }

  function With(p: Pair, side: Side, n: Node): Pair {
    match side case AtOwner => p.(owner := n) case AtPeer => p.(peer := n)
  }

  function Next(p: Pair, ev: Event): Pair {
    match ev
    case Register(id) =>
      p.(owner := AddSession(p.owner, Session(id, WebSocket, p.owner.id, 0, [])), used := p.used + {id})
    case Accepted(id, targets, tx) =>
      p.(accepted := p.accepted + {id}, wire := p.wire + Sent(JoinRequest(id, tx), targets, p.outward))
    case Erase(id) =>
      if IdTaken(p.owner.filed, id)
      then p.(owner := p.owner.(filed := WithoutId(p.owner.filed, id)), leaving := p.leaving + {id})
      else p
    case Disconnect(id, targets, tx) =>
      p.(leaving := p.leaving - {id}, wire := p.wire + Sent(LeaveRequest(id, tx), targets, p.outward))
    case Talk(entry) =>
      p.(wire := p.wire + [entry])
    case Deliver(env) =>
      if p.wire == [] then p
      else p.(peer := Handle(env, p.peer, p.inward, p.wire[0]).node, wire := p.wire[1..])
    case Receive(AtOwner, env, session, entry) =>
      var o := Handle(env, p.owner, session, entry);
      p.(owner := o.node, wire := p.wire + if session == p.outward then o.replies else [])
    case Receive(AtPeer, env, session, entry) =>
      p.(peer := Handle(env, p.peer, session, entry).node)
    case Add(side, s) => With(p, side, AddSession(NodeAt(p, side), s))
    case Remove(side, id) => With(p, side, NodeAt(p, side).(filed := WithoutId(NodeAt(p, side).filed, id)))
    case Dial(side, env, to, discovery, connections) =>
      With(p, side, Connect(env, NodeAt(p, side), to, discovery, connections))
  }

  // --------------------------------------------------------------- invariant

  ghost predicate OwnerSide(p: Pair) {
    && Sound(p.owner) && SoleLink(p.owner, p.outward)
    && (forall f :: f in p.owner.filed && f.id in p.used ==> f.kind == WebSocket)
    && p.accepted <= p.used && p.leaving <= p.used
    && (forall id :: id in p.leaving ==> !IdTaken(p.owner.filed, id))
  }

  predicate OnWire(p: Pair, e: Entry) {
    Announcement(p.used, e) || Neutral(p.owner.id, e)
  }

  ghost predicate PeerSide(p: Pair) {
    && Sound(p.peer) && Identified(p.peer, p.inward, p.owner.id)
    && Reserved(p.peer.filed, p.owner.id, p.used)
    && (forall i :: 0 <= i < |p.wire| ==> OnWire(p, p.wire[i]))
  }

  /** The peer's stand-ins, once every announcement under way has been applied. */
  ghost predicate InStep(p: Pair) {
    Apply(Mirrored(p.peer.filed, p.owner.id), p.wire) == Joined(p)
  }

  ghost predicate Inv(p: Pair) {
    OwnerSide(p) && PeerSide(p) && InStep(p)
  }

  // ------------------------------------------------------ three kinds of change

  /** The owner's WebSockets are where they were. */
  lemma OwnerMoves(p: Pair, m: Node)
    requires Inv(p) && Undisturbed(p.owner, m, p.outward, p.used)
    ensures Inv(p.(owner := m))
  {
    var q := p.(owner := m);
    forall id | id in p.used
      ensures IdTaken(m.filed, id) <==> IdTaken(p.owner.filed, id)
    {
      TakenIsMember(m.filed, id);
      TakenIsMember(p.owner.filed, id);
    }
    assert Joined(q) == Joined(p);
  }

  /** The peer's stand-ins are what they were. */
  lemma PeerMoves(p: Pair, m: Node)
    requires Inv(p) && Sound(m) && Identified(m, p.inward, p.owner.id)
    requires Reserved(m.filed, p.owner.id, p.used) && Mirrored(m.filed, p.owner.id) == Mirrored(p.peer.filed, p.owner.id)
    ensures Inv(p.(peer := m))
  {
    assert Joined(p.(peer := m)) == Joined(p);
  }

  /** Nothing that is sent speaks of the owner's WebSockets. */
  lemma WireGrows(p: Pair, es: seq<Entry>)
    requires Inv(p) && AllNeutral(p.owner.id, es)
    ensures Inv(p.(wire := p.wire + es))
  {
    var q := p.(wire := p.wire + es);
    var ids := Mirrored(p.peer.filed, p.owner.id);
    ApplyAppend(ids, p.wire, es);
    NeutralApplies(Apply(ids, p.wire), p.owner.id, es);
    assert Joined(q) == Joined(p);
    forall i | 0 <= i < |q.wire|
      ensures OnWire(q, q.wire[i])
    {
      assert i < |p.wire| ==> OnWire(p, p.wire[i]);
      assert i >= |p.wire| ==> Neutral(p.owner.id, es[i - |p.wire|]);
    }
  }

  // -------------------------------------------------- the owner's WebSockets

  lemma SentIsOne(p: Pair, e: Entry, targets: seq<Ref>)
    requires OwnerSide(p) && OnePerNode(p.owner, p.owner.filed, targets)
    ensures Sent(e, targets, p.outward) == [e]
  {
    SentOnce(p.owner, targets, p.outward);
  }

  lemma RegisterKeeps(p: Pair, id: Uuid)
    requires Inv(p) && Enabled(p, Register(id))
    ensures Inv(Next(p, Register(id)))
  {
    var s := Session(id, WebSocket, p.owner.id, 0, []);
    var q := Next(p, Register(id));
    AddSessionSound(p.owner, s);
    AddSessionMembers(p.owner, s);
    AddKeepsLink(p.owner, s, p.outward);
    TakenIsMember(p.peer.filed, id);
    forall other | other != id
      ensures IdTaken(q.owner.filed, other) <==> IdTaken(p.owner.filed, other)
    {
      TakenIsMember(q.owner.filed, other);
      TakenIsMember(p.owner.filed, other);
    }
    assert Joined(q) == Joined(p);
    forall i | 0 <= i < |q.wire|
      ensures OnWire(q, q.wire[i])
    {
      assert OnWire(p, p.wire[i]);
    }
  }

  /** A broadcast announcement: one entry more on the wire. */
  lemma Announced(p: Pair, q: Pair, e: Entry)
    requires Inv(p) && OwnerSide(q) && q.used == p.used && q.owner == p.owner && q.peer == p.peer && q.inward == p.inward
    requires Announcement(p.used, e) && q.wire == p.wire + [e]
    requires Joined(q) == ApplyOne(Joined(p), e)
    ensures Inv(q)
  {
    ApplyLast(Mirrored(p.peer.filed, p.owner.id), p.wire, e);
    forall i | 0 <= i < |q.wire|
      ensures OnWire(q, q.wire[i])
    {
      assert i < |p.wire| ==> OnWire(p, p.wire[i]);
    }
  }

  lemma AcceptedKeeps(p: Pair, id: Uuid, targets: seq<Ref>, tx: Uuid)
    requires Inv(p) && Enabled(p, Accepted(id, targets, tx))
    ensures Inv(Next(p, Accepted(id, targets, tx)))
  {
    var q := Next(p, Accepted(id, targets, tx));
    var e := JoinRequest(id, tx);
    SentIsOne(p, e, targets);
    assert e.body[..16] == id;
    assert Joined(q) == Joined(p) + {id};
    Announced(p, q, e);
  }

  lemma DisconnectKeeps(p: Pair, id: Uuid, targets: seq<Ref>, tx: Uuid)
    requires Inv(p) && Enabled(p, Disconnect(id, targets, tx))
    ensures Inv(Next(p, Disconnect(id, targets, tx)))
  {
    var q := Next(p, Disconnect(id, targets, tx));
    var e := LeaveRequest(id, tx);
    SentIsOne(p, e, targets);
    assert e.body[..16] == id;
    assert Joined(q) == Joined(p) - {id};
    Announced(p, q, e);
  }

  /** The link is no WebSocket, so none of the owner's ids is its own. */
  lemma LinkNotUsed(p: Pair)
    requires OwnerSide(p)
    ensures At(p.owner, p.outward).id !in p.used
  {
    var f :| f in p.owner.filed && f.ref == p.outward && f.kind == Tcp;
    FiledMember(p.owner, f);
  }

  lemma EraseKeeps(p: Pair, id: Uuid)
    requires Inv(p) && Enabled(p, Erase(id))
    ensures Inv(Next(p, Erase(id)))
  {
    var q := Next(p, Erase(id));
    if IdTaken(p.owner.filed, id) {
      LinkNotUsed(p);
      EraseSound(p.owner, id);
      EraseKeepsLink(p.owner, id, p.outward);
      ErasedTaken(p.owner.filed, id);
      WithoutIdMembers(p.owner.filed, id);
      assert Joined(q) == Joined(p);
      forall i | 0 <= i < |q.wire|
        ensures OnWire(q, q.wire[i])
      {
        assert OnWire(p, p.wire[i]);
      }
    }
  }

  lemma ErasedTaken(filed: seq<Filing>, id: Uuid)
    ensures forall other: Uuid :: IdTaken(WithoutId(filed, id), other) <==> IdTaken(filed, other) && other != id
  {
    WithoutIdMembers(filed, id);
    forall other: Uuid
      ensures IdTaken(WithoutId(filed, id), other) <==> IdTaken(filed, other) && other != id
    {
      TakenIsMember(WithoutId(filed, id), other);
      TakenIsMember(filed, other);
    }
  }

  // ------------------------------------------------------------- everything else

  lemma DeliverKeeps(p: Pair, env: Env)
    requires Inv(p) && Enabled(p, Deliver(env))
    ensures Inv(Next(p, Deliver(env)))
  {
    var q := Next(p, Deliver(env));
    assert OnWire(p, p.wire[0]);
    if Announcement(p.used, p.wire[0]) {
      HandledMirrors(env, p.peer, p.inward, p.owner.id, p.used, p.wire[0]);
    } else {
      NeutralMirrors(env, p.peer, p.inward, p.owner.id, p.used, p.wire[0]);
    }
    assert Joined(q) == Joined(p);
    forall i | 0 <= i < |q.wire|
      ensures OnWire(q, q.wire[i])
    {
      assert OnWire(p, p.wire[i + 1]);
    }
  }

  lemma OwnerReceives(p: Pair, env: Env, session: Ref, e: Entry)
    requires Inv(p) && Enabled(p, Receive(AtOwner, env, session, e))
    ensures Inv(Next(p, Receive(AtOwner, env, session, e)))
  {
    var o := Handle(env, p.owner, session, e);
    HandleUndisturbed(env, p.owner, p.outward, p.used, session, e);
    OwnerMoves(p, o.node);
    RepliesNeutral(env, p.owner, session, e);
    WireGrows(p.(owner := o.node), if session == p.outward then o.replies else []);
  }

  lemma PeerReceives(p: Pair, env: Env, session: Ref, e: Entry)
    requires Inv(p) && Enabled(p, Receive(AtPeer, env, session, e))
    ensures Inv(Next(p, Receive(AtPeer, env, session, e)))
  {
    HandleSound(env, p.peer, session, e);
    ElsewhereIdentified(env, p.peer, session, e, p.inward, p.owner.id);
    UnrelatedMirrors(env, p.peer, p.inward, p.owner.id, p.used, session, e);
    PeerMoves(p, Handle(env, p.peer, session, e).node);
  }

  lemma AddKeeps(p: Pair, side: Side, s: Session)
    requires Inv(p) && Enabled(p, Add(side, s))
    ensures Inv(Next(p, Add(side, s)))
  {
    match side
    case AtOwner =>
      AddUndisturbed(p.owner, s, p.outward, p.used);
      OwnerMoves(p, AddSession(p.owner, s));
    case AtPeer =>
      AddSessionSound(p.peer, s);
      OtherAdd(p.peer, s, p.owner.id, p.used);
      PeerMoves(p, AddSession(p.peer, s));
  }

  lemma RemoveKeeps(p: Pair, side: Side, id: Uuid)
    requires Inv(p) && Enabled(p, Remove(side, id))
    ensures Inv(Next(p, Remove(side, id)))
  {
    match side
    case AtOwner =>
      EraseUndisturbed(p.owner, id, p.outward, p.used);
      OwnerMoves(p, p.owner.(filed := WithoutId(p.owner.filed, id)));
    case AtPeer =>
      EraseSound(p.peer, id);
      OtherErase(p.peer.filed, id, p.owner.id, p.used);
      PeerMoves(p, p.peer.(filed := WithoutId(p.peer.filed, id)));
  }

  lemma DialKeeps(p: Pair, side: Side, env: Env, to: Discovery.Peer, discovery: bool, connections: Word)
    requires Inv(p) && Enabled(p, Dial(side, env, to, discovery, connections))
    ensures Inv(Next(p, Dial(side, env, to, discovery, connections)))
  {
    match side
    case AtOwner =>
      ConnectUndisturbed(env, p.owner, to, discovery, connections, p.outward, p.used);
      OwnerMoves(p, Connect(env, p.owner, to, discovery, connections));
    case AtPeer =>
      ConnectSound(env, p.peer, to, discovery, connections);
      OtherDial(env, p.peer, to, discovery, connections, p.owner.id, p.used);
      PeerMoves(p, Connect(env, p.peer, to, discovery, connections));
  }

  // ------------------------------------------------------------- the results

  lemma StepKeeps(p: Pair, ev: Event)
    requires Inv(p) && Enabled(p, ev)
    ensures Inv(Next(p, ev))
  {
    match ev
    case Register(id) => RegisterKeeps(p, id);
    case Accepted(id, targets, tx) => AcceptedKeeps(p, id, targets, tx);
    case Erase(id) => EraseKeeps(p, id);
    case Disconnect(id, targets, tx) => DisconnectKeeps(p, id, targets, tx);
    case Talk(entry) => WireGrows(p, [entry]);
    case Deliver(env) => DeliverKeeps(p, env);
    case Receive(AtOwner, env, session, entry) => OwnerReceives(p, env, session, entry);
    case Receive(AtPeer, env, session, entry) => PeerReceives(p, env, session, entry);
    case Add(side, s) => AddKeeps(p, side, s);
    case Remove(side, id) => RemoveKeeps(p, side, id);
    case Dial(side, env, to, discovery, connections) => DialKeeps(p, side, env, to, discovery, connections);
  }

  /** The link has just come up and been identified: nothing announced over it, nothing mirrored.
      WebSockets may be registered already, with or without their handshake. */
  ghost predicate LinkUp(p: Pair) {
    && OwnerSide(p) && PeerSide(p)
    && p.wire == [] && p.accepted == {} && Mirrored(p.peer.filed, p.owner.id) == {}
  }

  lemma LinkUpInv(p: Pair)
    requires LinkUp(p)
    ensures Inv(p)
  {
    assert Joined(p) == {};
  }

  ghost predicate Follows(pairs: nat -> Pair, events: nat -> Event, i: nat) {
    Enabled(pairs(i), events(i)) && pairs(i + 1) == Next(pairs(i), events(i))
  }

  /** At every point of every run, applying what is under way to the peer's stand-ins gives the
      WebSockets that joined and have not left. */
  lemma {:induction false} MirrorFollowsOwner(pairs: nat -> Pair, events: nat -> Event, k: nat)
    requires LinkUp(pairs(0)) && forall i: nat :: i < k ==> Follows(pairs, events, i)
    ensures Inv(pairs(k))
    ensures var p := pairs(k);
            Apply(Mirrored(p.peer.filed, p.owner.id), p.wire) == Joined(p)
  {
    if k == 0 {
      LinkUpInv(pairs(0));
    } else {
      MirrorFollowsOwner(pairs, events, k - 1);
      assert Follows(pairs, events, k - 1);
      StepKeeps(pairs(k - 1), events(k - 1));
    }
  }

  /** Once everything announced has arrived, the peer has stand-ins for exactly the owner's
      registered WebSockets whose handshake ended. */
  lemma MirrorCatchesUp(pairs: nat -> Pair, events: nat -> Event, k: nat)
    requires LinkUp(pairs(0)) && forall i: nat :: i < k ==> Follows(pairs, events, i)
    requires pairs(k).wire == [] && pairs(k).leaving == {}
    ensures var p := pairs(k);
            Mirrored(p.peer.filed, p.owner.id) == set id | id in p.accepted && IdTaken(p.owner.filed, id)
  {
    MirrorFollowsOwner(pairs, events, k);
  }
}
