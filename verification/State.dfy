/** The shared state of a running node, and the operation handlers that mutate it. */
module State {
  import opened Bytes
  import opened Protocol
  import opened Registry
  import opened Messages
  import opened Discovery
  import opened FrameBuilder
  import Model = NodeModel

  class State {
    const nodeId: Uuid
    const sessions: SessionContainer
    var tcpPort: Word
    var objects: map<Ref, Session>
    var next: Ref
    var drawn: nat
    var posted: seq<Peer>
    var dialled: seq<Model.Dialled>

    ghost function View(): Model.Node
      reads this, sessions
    {
      Model.Node(nodeId, tcpPort, objects, sessions.filed, next, drawn, posted, dialled)
    }

    ghost predicate Valid()
      reads this, sessions
    {
      sessions.Valid() && Model.Linked(View())
    }

    constructor (id: Uuid, port: Word)
      ensures Valid() && fresh(sessions)
      ensures View() == Model.Node(id, port, map[], [], 0, 0, [], [])
    {
      nodeId, tcpPort := id, port;
      sessions := new SessionContainer();
      objects, next, drawn, posted, dialled := map[], 0, 0, [], [];
    }

    /** Register a session under its current keys, unless its id is taken. */
    method AddSession(s: Session) returns (inserted: bool)
      requires Valid()
      modifies this, sessions
      ensures Valid() && View() == Model.AddSession(old(View()), s)
      ensures inserted == !IdTaken(old(sessions.filed), s.id)
    {
      Model.FreshRef(View());
      Model.AddSessionSound(View(), s);
      inserted := sessions.Insert(Filing(next, s.id, s.kind, s.nodeId));
      if inserted {
        objects, next := objects[next := s], next + 1;
      }
    }

    /** Unregister the session of an id, if any; it is then the caller's to disconnect. */
    method RemoveSession(id: Uuid) returns (removed: Option<Filing>)
      requires Valid()
      modifies this, sessions
      ensures Valid() && View() == old(View()).(filed := WithoutId(old(sessions.filed), id))
      ensures removed.Some? <==> IdTaken(old(sessions.filed), id)
      ensures removed.Some? ==> removed.value in old(sessions.filed) && removed.value.id == id
    {
      Model.EraseSound(View(), id);
      removed := sessions.EraseId(id);
    }

    method Connect(env: Model.Env, to: Peer, discovery: bool, connections: Word) returns (ok: bool)
      requires Valid()
      modifies this, sessions
      ensures Valid() && View() == Model.Connect(env, old(View()), to, discovery, connections)
      ensures ok == (env.reach(to) && !IdTaken(old(sessions.filed), env.draw(old(drawn))))
    {
      Model.ConnectSound(env, View(), to, discovery, connections);
      if !env.reach(to) {
        return false;
      }
      var ref := next;
      ok := AddSession(Session(env.draw(drawn), Tcp, NIL, 0, []));
      if !ok {
        drawn, dialled := drawn + 1, dialled + [Model.Dialled(ref, to, [])];
        return;
      }
      var greeting := [IdentifyRequest(nodeId, connections, env.draw(drawn + 1), tcpPort, LOCALHOST)];
      if discovery {
        greeting := greeting + [DiscoveryRequest(env.draw(drawn + 2))];
      }
      assert greeting == Model.Greeting(env, old(View()), discovery, connections);
      drawn, dialled := drawn + 3, dialled + [Model.Dialled(ref, to, greeting)];
    }

    /** Bind the remote node id, port and host; reply; post the dials the peer asked for. */
    method Identify(me: Ref, e: Entry, builder: Builder)
      requires Valid() && builder.Valid() && me in objects && e.op == OP_IDENTIFY
      modifies this, builder
      ensures Valid() && builder.Valid()
      ensures View() == Model.HandleIdentify(old(View()), me, e).node
      ensures builder.buffers == old(builder.buffers) + Payloads(Model.HandleIdentify(old(View()), me, e).replies)
    {
      Model.HandleSound(Model.Env(p => false, i => NIL), View(), me, e);
      if objects[me].kind == WebSocket || |e.body| < 16 {
        return;
      }
      var s := objects[me].(nodeId := e.body[..16]);
      if e.kind == REQUEST && |e.body| >= 20 {
        var connections, port := At16(e.body, 16), At16(e.body, 18);
        s := s.(port := port);
        var host := e.body[20..];
        if host != [] {
          s := s.(host := host);
        }
        objects := objects[me := s];
        builder.AddIdentifyResponse(e.tx, nodeId);
        if connections > 1 && host != [] && port != 0 {
          PostDials(Peer(host, port), connections);
        }
        PayloadsOne(IdentifyResponse(e.tx, nodeId));
      } else {
        objects := objects[me := s];
        if e.kind == REQUEST {
          builder.AddIdentifyResponse(e.tx, nodeId);
          PayloadsOne(IdentifyResponse(e.tx, nodeId));
        }
      }
    }

    /** Post one dial for every connection beyond the first. */
    method PostDials(to: Peer, connections: Word)
      requires connections > 1
      modifies this`posted
      ensures posted == old(posted) + Model.Repeat(to, connections - 1)
    {
      for i := 1 to connections
        invariant posted == old(posted) + Model.Repeat(to, i - 1)
      {
        posted := posted + [to];
      }
    }

    method ListPeers(asker: Uuid) returns (peers: seq<Peer>)
      requires Valid()
      ensures peers == Model.Listing(View(), asker, sessions.filed)
    {
      peers := [];
      var filed := sessions.filed;
      ghost var n := View();
      for i := 0 to |filed|
        invariant peers == Model.Listing(n, asker, filed[..i])
      {
        assert Model.Filed(n, filed[i]);
        var s := objects[filed[i].ref];
        Model.ListingSnoc(n, asker, filed, i);
        if s.nodeId != asker && s.nodeId != nodeId {
          peers := peers + [Peer(s.host, s.port)];
        }
      }
      assert filed[..|filed|] == filed;
    }

    method IsConnected(p: Peer) returns (found: bool)
      requires Valid()
      ensures found == Model.Connected(View(), p)
    {
      var filed := sessions.filed;
      for i := 0 to |filed|
        invariant forall j :: 0 <= j < i ==> Model.At(View(), filed[j].ref).host != p.host || Model.At(View(), filed[j].ref).port != p.port
      {
        assert Model.Filed(View(), filed[i]);
        if objects[filed[i].ref].host == p.host && objects[filed[i].ref].port == p.port {
          return true;
        }
      }
      return false;
    }

    /** Read the listed peers one by one, dialling each that no session is bound to. The cursor
        stays within the body, whatever count it declares. */
    method DialListed(env: Model.Env, body: Bytes)
      requires Valid()
      modifies this, sessions
      ensures Valid() && View() == Model.DialAll(env, old(View()), ReadList(body))
    {
      if |body| < 4 {
        return;
      }
      var count, offset, i, more := At32(body, 0), 4 as nat, 0, true;
      while i < count && more
        invariant 0 <= i <= count && 0 <= offset <= |body|
        invariant Valid()
        invariant Model.DialAll(env, View(), if more then ReadPeers(body, offset, count - i) else [])
               == Model.DialAll(env, old(View()), ReadList(body))
      {
        more, offset := DialNext(env, body, offset, count - i);
        i := i + 1;
      }
    }

    /** Read and dial one listed peer, or find the end of the list. */
    method DialNext(env: Model.Env, body: Bytes, offset: nat, ghost count: nat) returns (more: bool, after: nat)
      requires Valid() && offset <= |body| && count > 0
      modifies this, sessions
      ensures Valid() && after <= |body|
      ensures Model.DialAll(env, View(), if more then ReadPeers(body, after, count - 1) else [])
           == Model.DialAll(env, old(View()), ReadPeers(body, offset, count))
    {
      var peer;
      peer, after := ReadOne(body, offset, count);
      more := peer.Some?;
      if more {
        Model.DialCons(env, View(), peer.value, ReadPeers(body, after, count - 1));
        Dial(env, peer.value);
      }
    }

    method Dial(env: Model.Env, peer: Peer)
      requires Valid()
      modifies this, sessions
      ensures Valid() && View() == Model.DialOne(env, old(View()), peer)
    {
      var connected := IsConnected(peer);
      if !connected {
        var ok := Connect(env, peer, false, 0);
      }
    }

    method Discover(env: Model.Env, me: Ref, e: Entry, builder: Builder)
      requires Valid() && builder.Valid() && me in objects
      modifies this, sessions, builder
      ensures Valid() && builder.Valid()
      ensures View() == Model.HandleDiscovery(env, old(View()), me, e).node
      ensures builder.buffers == old(builder.buffers) + Payloads(Model.HandleDiscovery(env, old(View()), me, e).replies)
    {
      if e.kind == REQUEST {
        var peers := ListPeers(objects[me].nodeId);
        builder.AddDiscoveryResponse(e.tx, peers);
      } else if e.kind == RESPONSE {
        DialListed(env, e.body);
      }
    }

    method Join(me: Ref, e: Entry, builder: Builder)
      requires Valid() && builder.Valid() && me in objects
      modifies this, sessions, builder
      ensures Valid() && builder.Valid()
      ensures View() == Model.HandleJoin(old(View()), me, e).node
      ensures builder.buffers == old(builder.buffers) + Payloads(Model.HandleJoin(old(View()), me, e).replies)
    {
      if objects[me].kind == WebSocket || e.kind == RESPONSE || |e.body| < 16 {
        return;
      }
      var id := e.body[..16];
      var added := AddSession(Session(id, WebSocket, objects[me].nodeId, 0, []));
      var count := sessions.Count(id);
      builder.AddJoinResponse(e.tx, count);
      PayloadsOne(JoinResponse(e.tx, count));
    }

    /** Erase until the id is no longer found. */
    method Leave(me: Ref, e: Entry, builder: Builder)
      requires Valid() && builder.Valid() && me in objects
      modifies this, sessions, builder
      ensures Valid() && builder.Valid()
      ensures View() == Model.HandleLeave(old(View()), me, e).node
      ensures builder.buffers == old(builder.buffers) + Payloads(Model.HandleLeave(old(View()), me, e).replies)
    {
      if objects[me].kind == WebSocket || e.kind == RESPONSE || |e.body| < 16 {
        return;
      }
      var count := EraseAll(e.body[..16]);
      builder.AddLeaveResponse(e.tx, count);
      PayloadsOne(LeaveResponse(e.tx, count));
    }

    method EraseAll(id: Uuid) returns (removed: nat)
      requires Valid()
      modifies this, sessions
      ensures Valid() && View() == old(View()).(filed := WithoutId(old(sessions.filed), id))
      ensures removed == if IdTaken(old(sessions.filed), id) then 1 else 0
    {
      removed := 0;
      var found := sessions.Count(id);
      while found > 0
        invariant Valid() && found == if IdTaken(sessions.filed, id) then 1 else 0
        invariant removed + found == if IdTaken(old(sessions.filed), id) then 1 else 0
        invariant View() == old(View()) || (removed == 1 && View() == old(View()).(filed := WithoutId(old(sessions.filed), id)))
        decreases found
      {
        Model.WithoutIdKeeps(sessions.filed, id);
        var gone := RemoveSession(id);
        removed := removed + 1;
        found := sessions.Count(id);
      }
      if removed == 0 {
        WithoutIdAbsent(sessions.filed, id);
      }
    }

    /** Run the handler of the entry's opcode. */
    method Dispatch(env: Model.Env, me: Ref, e: Entry, builder: Builder)
      requires Valid() && builder.Valid() && me in objects
      modifies this, sessions, builder
      ensures Valid() && builder.Valid() && me in objects
      ensures View() == Model.Handle(env, old(View()), me, e).node
      ensures builder.buffers == old(builder.buffers) + Payloads(Model.Handle(env, old(View()), me, e).replies)
    {
      Model.HandleKeepsObjects(env, View(), me, e, me);
      if e.op == OP_IDENTIFY {
        Identify(me, e, builder);
      } else if e.op == OP_DISCOVERY {
        Discover(env, me, e, builder);
      } else if e.op == OP_JOIN {
        Join(me, e, builder);
      } else if e.op == OP_LEAVE {
        Leave(me, e, builder);
      } else if e.kind != RESPONSE {
        if e.op == OP_PING {
          builder.AddPingResponse(e.tx, EXIT_SUCCESS);
        } else if e.op == OP_WHOAMI {
          builder.AddWhoamiResponse(e.tx, objects[me].id, nodeId, objects[me].kind);
        } else {
          builder.AddNonImplementedResponse(OP_NON_IMPLEMENTED, e.tx);
        }
      }
    }
  }
}
