/** In every run of a cluster the registry of every node stays sound, so that what is proved of a
    sound registry holds at every moment. */
module ClusterRegistry {
  import opened Bytes
  import opened Protocol
  import opened Registry
  import opened Discovery
  import opened NodeModel
  import opened Kernel
  import opened Bootstrap
  import Index = IndexAgreement
  import Routing

  /** The session objects of dials made but not launched yet are there. */
  predicate Held(n: Node) {
    forall i :: 0 <= i < |n.dialled| && n.dialled[i].sends != [] ==> n.dialled[i].ref in n.objects
  }

  ghost predicate Grown(n: Node, m: Node) {
    forall r :: r in n.objects ==> r in m.objects
  }

  lemma ConnectHolds(env: Env, n: Node, to: Peer, discovery: bool, connections: Word)
    requires Held(n)
    ensures Held(Connect(env, n, to, discovery, connections)) && Grown(n, Connect(env, n, to, discovery, connections))
  {
  }

  lemma {:induction false} DialAllHolds(env: Env, n: Node, peers: seq<Peer>)
    requires Held(n)
    ensures Held(DialAll(env, n, peers)) && Grown(n, DialAll(env, n, peers))
    decreases |peers|
  {
    if peers != [] {
      ConnectHolds(env, n, peers[0], false, 0);
      DialAllHolds(env, DialOne(env, n, peers[0]), peers[1..]);
    }
  }

  lemma HandleHolds(env: Env, n: Node, me: Ref, e: Entry)
    requires Held(n)
    ensures Held(Handle(env, n, me, e).node) && Grown(n, Handle(env, n, me, e).node)
  {
    if e.op == OP_DISCOVERY {
      DialAllHolds(env, n, ReadList(e.body));
    }
  }

  /** Whatever a frame holds, handling it keeps the registry sound and every object in place. */
  lemma {:induction false} FrameKeepsSound(env: Env, n: Node, me: Ref, es: seq<Entry>)
    requires Sound(n) && Held(n) && me in n.objects
    ensures var m := HandleAll(env, n, me, es).node;
            Sound(m) && Held(m) && Grown(n, m)
    decreases |es|
  {
    if es != [] {
      HandleSound(env, n, me, es[0]);
      HandleHolds(env, n, me, es[0]);
      FrameKeepsSound(env, Handle(env, n, me, es[0]).node, me, es[1..]);
    }
  }

  lemma AcceptSound(env: Env, n: Node)
    requires Sound(n)
    ensures var m := Accept(env, n);
            Sound(m) && Grown(n, m) && n.next in m.objects && m.dialled == n.dialled
  {
    var s := Session(env.draw(n.drawn), Tcp, NIL, 0, []);
    var m := Accept(env, n);
    if IdTaken(n.filed, s.id) {
      forall i | 0 <= i < |m.filed|
        ensures Filed(m, m.filed[i])
      {
        assert Filed(n, n.filed[i]);
      }
    } else {
      AddSessionSound(n, s);
      SameRegistrySound(AddSession(n, s), m);
    }
  }

  // ------------------------------------------------------------ the cluster

  predicate AllHeld(nodes: seq<Node>, flight: seq<InFlight>) {
    forall i :: 0 <= i < |flight| ==> BothHeld(nodes, flight[i])
  }

  ghost predicate AllSound(nodes: seq<Node>) {
    forall x :: 0 <= x < |nodes| ==> Sound(nodes[x])
  }

  ghost predicate Wired(c: Cluster) {
    AllSound(c.nodes) && NothingDialled(c.nodes) && AllHeld(c.nodes, c.flight)
  }

  lemma ReplaceHeld(nodes: seq<Node>, flight: seq<InFlight>, x: nat, n: Node)
    requires AllHeld(nodes, flight) && x < |nodes| && Grown(nodes[x], n)
    ensures AllHeld(nodes[x := n], flight)
  {
    forall i | 0 <= i < |flight|
      ensures BothHeld(nodes[x := n], flight[i])
    {
      assert BothHeld(nodes, flight[i]);
    }
  }

  predicate DialsHeld(nodes: seq<Node>, x: nat, ds: seq<Dialled>) {
    forall i :: 0 <= i < |ds| && ds[i].sends != [] ==> EndHeld(nodes, x, ds[i].ref)
  }

  lemma AcceptWired(env: Env, c: Cluster, t: nat)
    requires Wired(c) && t < |c.nodes|
    ensures Wired(c.(nodes := c.nodes[t := Accept(env, c.nodes[t])]))
  {
    AcceptSound(env, c.nodes[t]);
    ReplaceHeld(c.nodes, c.flight, t, Accept(env, c.nodes[t]));
  }

  lemma LaunchOneWired(env: Env, c: Cluster, x: nat, d: Dialled)
    requires Wired(c) && (d.sends != [] ==> EndHeld(c.nodes, x, d.ref))
    ensures Wired(LaunchOne(env, c, x, d))
    ensures forall y, r :: EndHeld(c.nodes, y, r) ==> EndHeld(LaunchOne(env, c, x, d).nodes, y, r)
  {
    if d.to in c.directory && c.directory[d.to] < |c.nodes| {
      var t := c.directory[d.to];
      AcceptWired(env, c, t);
      AcceptSound(env, c.nodes[t]);
      var e := LaunchOne(env, c, x, d);
      forall i | 0 <= i < |e.flight|
        ensures BothHeld(e.nodes, e.flight[i])
      {
        assert i < |c.flight| ==> BothHeld(c.nodes, c.flight[i]);
      }
    }
  }

  lemma {:induction false} LaunchWired(env: Env, c: Cluster, x: nat, ds: seq<Dialled>)
    requires Wired(c) && DialsHeld(c.nodes, x, ds)
    ensures Wired(Launch(env, c, x, ds))
    decreases |ds|
  {
    if ds != [] {
      LaunchOneWired(env, c, x, ds[0]);
      assert DialsHeld(LaunchOne(env, c, x, ds[0]).nodes, x, ds[1..]);
      LaunchWired(env, LaunchOne(env, c, x, ds[0]), x, ds[1..]);
    }
  }

  lemma SettleWired(env: Env, c: Cluster, x: nat, n: Node)
    requires Wired(c) && x < |c.nodes| && Sound(n) && Held(n) && Grown(c.nodes[x], n)
    ensures Wired(Settle(env, c, x, n))
  {
    var m := n.(dialled := []);
    SameRegistrySound(n, m);
    ReplaceHeld(c.nodes, c.flight, x, m);
    assert DialsHeld(c.nodes[x := m], x, n.dialled);
    LaunchWired(env, c.(nodes := c.nodes[x := m]), x, n.dialled);
  }

  lemma HandledHeld(env: Env, nodes: seq<Node>, flight: seq<InFlight>, i: nat, n: Node)
    requires AllHeld(nodes, flight) && i < |flight|
    ensures AllHeld(nodes, Handled(env, flight, i, n))
  {
    assert BothHeld(nodes, flight[i]);
    var fs := Handled(env, flight, i, n);
    forall j | 0 <= j < |fs|
      ensures BothHeld(nodes, fs[j])
    {
      if j < |flight| - 1 {
        assert fs[j] == flight[if j < i then j else j + 1];
      }
    }
  }

  lemma DeliverWired(c: Cluster, i: nat, env: Env)
    requires Wired(c) && Enabled(c, Deliver(i, env))
    ensures Wired(Next(c, Deliver(i, env)))
  {
    var f := c.flight[i];
    var n := c.nodes[f.dst];
    assert BothHeld(c.nodes, f);
    FrameKeepsSound(env, n, f.dstRef, Found(f.body));
    HandledHeld(env, c.nodes, c.flight, i, n);
    SettleWired(env, c.(flight := Handled(env, c.flight, i, n)), f.dst, KernelNode(env, n, f.dstRef, f.body));
  }

  lemma DialWired(c: Cluster, x: nat, n: Node, to: Peer, discovery: bool, connections: Word, env: Env)
    requires Wired(c) && x < |c.nodes| && n == c.nodes[x].(posted := n.posted)
    ensures Wired(Settle(env, c, x, Connect(env, n, to, discovery, connections)))
  {
    SameRegistrySound(c.nodes[x], n);
    ConnectSound(env, n, to, discovery, connections);
    ConnectHolds(env, n, to, discovery, connections);
    SettleWired(env, c, x, Connect(env, n, to, discovery, connections));
  }

  lemma NextWired(c: Cluster, ev: Event)
    requires Wired(c) && Enabled(c, ev)
    ensures Wired(Next(c, ev))
  {
    match ev
    case Call(x, to, discovery, connections, env) =>
      DialWired(c, x, c.nodes[x], to, discovery, connections, env);
    case Admit(x, id) =>
      AddSessionSound(c.nodes[x], Session(id, WebSocket, c.nodes[x].id, 0, []));
      ReplaceHeld(c.nodes, c.flight, x, AddSession(c.nodes[x], Session(id, WebSocket, c.nodes[x].id, 0, [])));
    case Send(f) =>
    case Remove(x, id) =>
      EraseSound(c.nodes[x], id);
      ReplaceHeld(c.nodes, c.flight, x, c.nodes[x].(filed := WithoutId(c.nodes[x].filed, id)));
    case Deliver(i, env) =>
      DeliverWired(c, i, env);
    case RunPosted(x, j, env) =>
      var n := c.nodes[x].(posted := Drop(c.nodes[x].posted, j));
      DialWired(c, x, n, c.nodes[x].posted[j], false, 0, env);
    case Lose(i) =>
      forall k | 0 <= k < |Drop(c.flight, i)|
        ensures BothHeld(c.nodes, Drop(c.flight, i)[k])
      {
        assert Drop(c.flight, i)[k] == c.flight[if k < i then k else k + 1];
      }
  }

  /** At every moment of every run every registry is sound, and both sessions of every frame in flight
      are there. */
  lemma {:induction false} RunsStaySound(states: nat -> Cluster, events: nat -> Event, k: nat)
    requires Wired(states(0)) && forall i: nat :: i < k ==> Follows(states, events, i)
    ensures Wired(states(k))
  {
    if k > 0 {
      RunsStaySound(states, events, k - 1);
      assert Follows(states, events, k - 1);
      NextWired(states(k - 1), events(k - 1));
    }
  }

  /** At every moment of every run ids are unique at every node, and lookups by id and by type are
      scans. */
  lemma RunsLookUpByScan(states: nat -> Cluster, events: nat -> Event, k: nat, x: nat, id: Uuid, t: SessionType)
    requires Wired(states(0)) && forall i: nat :: i < k ==> Follows(states, events, i)
    requires x < |states(k).nodes|
    ensures var n := states(k).nodes[x];
            && UniqueIds(n.filed)
            && Index.FiledUnder(n.filed, id) == Index.WithId(n, n.filed, id) && |Index.FiledUnder(n.filed, id)| <= 1
            && Index.Lookup(n, Select(n.filed, ByType(t)), ByType(t)) == Index.Scan(n, n.filed, ByType(t))
  {
    RunsStaySound(states, events, k);
    Index.IdLookupIsScan(states(k).nodes[x], id);
    Index.TypeLookupIsScan(states(k).nodes[x], t);
  }

  // --------------------------------------------------- lookups that stay complete

  predicate NoIdentify(es: seq<Entry>) {
    forall i :: 0 <= i < |es| ==> es[i].op != OP_IDENTIFY
  }

  lemma {:induction false} FrameKeepsComplete(env: Env, n: Node, me: Ref, es: seq<Entry>, key: Key)
    requires Sound(n) && me in n.objects && Index.Complete(n, key) && NoIdentify(es)
    ensures Index.Complete(HandleAll(env, n, me, es).node, key)
    decreases |es|
  {
    if es != [] {
      HandleSound(env, n, me, es[0]);
      HandleKeepsObjects(env, n, me, es[0], me);
      Index.OthersKeepComplete(env, n, me, es[0], key);
      FrameKeepsComplete(env, Handle(env, n, me, es[0]).node, me, es[1..], key);
    }
  }

  lemma AcceptComplete(env: Env, n: Node, key: Key)
    requires Sound(n) && Index.Complete(n, key)
    ensures Index.Complete(Accept(env, n), key)
  {
    var s := Session(env.draw(n.drawn), Tcp, NIL, 0, []);
    var m := Accept(env, n);
    if IdTaken(n.filed, s.id) {
      forall i | 0 <= i < |m.filed| && Index.HasKey(m, m.filed[i].ref, key)
        ensures Matches(m.filed[i], key)
      {
        assert Filed(n, n.filed[i]);
      }
    } else {
      Index.AddSessionComplete(n, s, key);
      Index.SameObjectsComplete(AddSession(n, s), m, key);
    }
  }

  ghost predicate CompleteAt(c: Cluster, y: nat, key: Key) {
    y < |c.nodes| && AllSound(c.nodes) && Index.Complete(c.nodes[y], key)
  }

  lemma LaunchOneComplete(env: Env, c: Cluster, x: nat, d: Dialled, y: nat, key: Key)
    requires CompleteAt(c, y, key)
    ensures CompleteAt(LaunchOne(env, c, x, d), y, key)
  {
    if d.to in c.directory && c.directory[d.to] < |c.nodes| {
      var t := c.directory[d.to];
      AcceptSound(env, c.nodes[t]);
      if t == y {
        AcceptComplete(env, c.nodes[t], key);
      }
    }
  }

  lemma {:induction false} LaunchComplete(env: Env, c: Cluster, x: nat, ds: seq<Dialled>, y: nat, key: Key)
    requires CompleteAt(c, y, key)
    ensures CompleteAt(Launch(env, c, x, ds), y, key)
    decreases |ds|
  {
    if ds != [] {
      LaunchOneComplete(env, c, x, ds[0], y, key);
      LaunchComplete(env, LaunchOne(env, c, x, ds[0]), x, ds[1..], y, key);
    }
  }

  lemma SettleComplete(env: Env, c: Cluster, x: nat, n: Node, y: nat, key: Key)
    requires CompleteAt(c, y, key) && x < |c.nodes| && Sound(n) && (x == y ==> Index.Complete(n, key))
    ensures CompleteAt(Settle(env, c, x, n), y, key)
  {
    var m := n.(dialled := []);
    SameRegistrySound(n, m);
    if x == y {
      Index.SameObjectsComplete(n, m, key);
    }
    LaunchComplete(env, c.(nodes := c.nodes[x := m]), x, n.dialled, y, key);
  }

  /** The event hands node `y` no identify. */
  predicate IdentifiesNone(c: Cluster, ev: Event, y: nat) {
    ev.Deliver? && ev.frame < |c.flight| && c.flight[ev.frame].dst == y ==> NoIdentify(Found(c.flight[ev.frame].body))
  }

  lemma DeliverComplete(c: Cluster, i: nat, env: Env, y: nat, key: Key)
    requires Wired(c) && Enabled(c, Deliver(i, env)) && CompleteAt(c, y, key) && IdentifiesNone(c, Deliver(i, env), y)
    ensures CompleteAt(Next(c, Deliver(i, env)), y, key)
  {
    var f := c.flight[i];
    var n := c.nodes[f.dst];
    assert BothHeld(c.nodes, f);
    FrameKeepsSound(env, n, f.dstRef, Found(f.body));
    if f.dst == y {
      FrameKeepsComplete(env, n, f.dstRef, Found(f.body), key);
    }
    SettleComplete(env, c.(flight := Handled(env, c.flight, i, n)), f.dst, KernelNode(env, n, f.dstRef, f.body), y, key);
  }

  lemma DialComplete(c: Cluster, x: nat, n: Node, to: Peer, discovery: bool, connections: Word, env: Env, y: nat, key: Key)
    requires CompleteAt(c, y, key) && x < |c.nodes| && n == c.nodes[x].(posted := n.posted)
    ensures CompleteAt(Settle(env, c, x, Connect(env, n, to, discovery, connections)), y, key)
  {
    SameRegistrySound(c.nodes[x], n);
    ConnectSound(env, n, to, discovery, connections);
    if x == y {
      Index.SameObjectsComplete(c.nodes[x], n, key);
      Index.ConnectComplete(env, n, to, discovery, connections, key);
    }
    SettleComplete(env, c, x, Connect(env, n, to, discovery, connections), y, key);
  }

  /** Every step of a cluster, from outside or its own, keeps the lookups by a key complete at a node
      that is not handed an identify. */
  lemma NextComplete(c: Cluster, ev: Event, y: nat, key: Key)
    requires Wired(c) && Enabled(c, ev) && CompleteAt(c, y, key) && IdentifiesNone(c, ev, y)
    ensures CompleteAt(Next(c, ev), y, key)
  {
    match ev
    case Call(x, to, discovery, connections, env) =>
      DialComplete(c, x, c.nodes[x], to, discovery, connections, env, y, key);
    case Admit(x, id) =>
      AddSessionSound(c.nodes[x], Session(id, WebSocket, c.nodes[x].id, 0, []));
      if x == y {
        Index.AddSessionComplete(c.nodes[x], Session(id, WebSocket, c.nodes[x].id, 0, []), key);
      }
    case Send(f) =>
    case Remove(x, id) =>
      EraseSound(c.nodes[x], id);
      Index.EraseComplete(c.nodes[y], id, key);
    case Deliver(i, env) =>
      DeliverComplete(c, i, env, y, key);
    case RunPosted(x, j, env) =>
      var n := c.nodes[x].(posted := Drop(c.nodes[x].posted, j));
      DialComplete(c, x, n, c.nodes[x].posted[j], false, 0, env, y, key);
    case Lose(i) =>
  }

  ghost predicate StaysComplete(c: Cluster, y: nat, key: Key) {
    Wired(c) && CompleteAt(c, y, key)
  }

  ghost predicate StepsWithout(c: Cluster, ev: Event, d: Cluster, y: nat) {
    Enabled(c, ev) && d == Next(c, ev) && IdentifiesNone(c, ev, y)
  }

  lemma StepStaysComplete(c: Cluster, ev: Event, d: Cluster, y: nat, key: Key)
    requires StaysComplete(c, y, key) && StepsWithout(c, ev, d, y)
    ensures StaysComplete(d, y, key)
  {
    NextWired(c, ev);
    NextComplete(c, ev, y, key);
  }

  /** A step of a run that hands node `y` no identify. */
  ghost predicate FollowsWithout(states: nat -> Cluster, events: nat -> Event, i: nat, y: nat) {
    StepsWithout(states(i), events(i), states(i + 1), y)
  }

  lemma {:induction false} RunsStayComplete(states: nat -> Cluster, events: nat -> Event, k: nat, y: nat, key: Key)
    requires StaysComplete(states(0), y, key) && forall i: nat :: i < k ==> FollowsWithout(states, events, i, y)
    ensures StaysComplete(states(k), y, key)
  {
    if k > 0 {
      RunsStayComplete(states, events, k - 1, y, key);
      assert FollowsWithout(states, events, k - 1, y);
      StepStaysComplete(states(k - 1), events(k - 1), states(k), y, key);
    }
  }

  /** As long as no identify reaches a node, whatever was identified there before, lookups by a key that
      equalled the scan go on doing so. */
  lemma LookupsEqualScans(states: nat -> Cluster, events: nat -> Event, k: nat, y: nat, key: Key)
    requires Wired(states(0)) && y < |states(0).nodes|
    requires var n := states(0).nodes[y]; Index.Lookup(n, Select(n.filed, key), key) == Index.Scan(n, n.filed, key)
    requires forall i: nat :: i < k ==> FollowsWithout(states, events, i, y)
    ensures y < |states(k).nodes|
    ensures var n := states(k).nodes[y];
            Index.Lookup(n, Select(n.filed, key), key) == Index.Scan(n, n.filed, key)
  {
    Index.LookupCompleteIff(states(0).nodes[y], key);
    RunsStayComplete(states, events, k, y, key);
    Index.LookupCompleteIff(states(k).nodes[y], key);
  }

  // ------------------------------------------------------------ sessions filed blank

  /** Every TCP session of every node is filed under the blank node id. */
  predicate AllBlank(nodes: seq<Node>) {
    forall x :: 0 <= x < |nodes| ==> Index.TcpFiledBlank(nodes[x].filed)
  }

  lemma {:induction false} FrameKeepsBlank(env: Env, n: Node, me: Ref, es: seq<Entry>)
    requires Index.TcpFiledBlank(n.filed)
    ensures Index.TcpFiledBlank(HandleAll(env, n, me, es).node.filed)
    decreases |es|
  {
    if es != [] {
      Index.HandleKeepsBlank(env, n, me, es[0]);
      FrameKeepsBlank(env, Handle(env, n, me, es[0]).node, me, es[1..]);
    }
  }

  lemma {:induction false} LaunchBlank(env: Env, c: Cluster, x: nat, ds: seq<Dialled>)
    requires AllBlank(c.nodes)
    ensures AllBlank(Launch(env, c, x, ds).nodes)
    decreases |ds|
  {
    if ds != [] {
      LaunchBlank(env, LaunchOne(env, c, x, ds[0]), x, ds[1..]);
    }
  }

  lemma SettleBlank(env: Env, c: Cluster, x: nat, n: Node)
    requires AllBlank(c.nodes) && x < |c.nodes| && Index.TcpFiledBlank(n.filed)
    ensures AllBlank(Settle(env, c, x, n).nodes)
  {
    LaunchBlank(env, c.(nodes := c.nodes[x := n.(dialled := [])]), x, n.dialled);
  }

  lemma NextBlank(c: Cluster, ev: Event)
    requires AllBlank(c.nodes) && Enabled(c, ev)
    ensures AllBlank(Next(c, ev).nodes)
  {
    match ev
    case Call(x, to, discovery, connections, env) =>
      SettleBlank(env, c, x, Connect(env, c.nodes[x], to, discovery, connections));
    case Admit(x, id) =>
    case Send(f) =>
    case Remove(x, id) =>
      Index.EraseKeepsBlank(c.nodes[x].filed, id);
    case Deliver(i, env) =>
      var f := c.flight[i];
      FrameKeepsBlank(env, c.nodes[f.dst], f.dstRef, Found(f.body));
      SettleBlank(env, c.(flight := Handled(env, c.flight, i, c.nodes[f.dst])), f.dst,
                  KernelNode(env, c.nodes[f.dst], f.dstRef, f.body));
    case RunPosted(x, j, env) =>
      var n := c.nodes[x].(posted := Drop(c.nodes[x].posted, j));
      SettleBlank(env, c, x, Connect(env, n, c.nodes[x].posted[j], false, 0));
    case Lose(i) =>
  }

  lemma {:induction false} RunsStayBlank(states: nat -> Cluster, events: nat -> Event, k: nat)
    requires AllBlank(states(0).nodes) && forall i: nat :: i < k ==> Follows(states, events, i)
    ensures AllBlank(states(k).nodes)
  {
    if k > 0 {
      RunsStayBlank(states, events, k - 1);
      assert Follows(states, events, k - 1);
      NextBlank(states(k - 1), events(k - 1));
    }
  }

  /** At every moment of every run that starts with TCP sessions filed blank, or with none, sending to a
      node by its id finds no session, whatever was identified since. */
  lemma RunsReachNoNode(states: nat -> Cluster, events: nat -> Event, k: nat, x: nat, node: Uuid)
    requires AllBlank(states(0).nodes) && forall i: nat :: i < k ==> Follows(states, events, i)
    requires x < |states(k).nodes| && node != NIL
    ensures Routing.NodeRange(states(k).nodes[x], node) == []
  {
    RunsStayBlank(states, events, k);
    Index.BlankTcpUnreachable(states(k).nodes[x].filed, node);
  }
}
