/**
 Conservation of connections. When no discovery is asked for and every dial succeeds, a link that
 is made adds a session at both of its ends; a posted dial is a link still to be made, and an
 identify request in flight carries the dials its receiver will post.
 */
module Connections {
  import opened Bytes
  import opened Protocol
  import opened Registry
  import opened Messages
  import opened Discovery
  import opened NodeModel
  import opened Frames
  import opened Kernel
  import opened Conversation
  import opened Arrivals
  import opened Bootstrap

  /** The sessions that `k` links between `y` and `t` add at node `x`. */
  function Ends(k: nat, x: nat, y: nat, t: nat): nat {
    (if x == y then k else 0) + (if x == t then k else 0)
  }

  /** The sessions that dials of node `y` will add at node `x`. */
  function Dials(directory: map<Peer, nat>, peers: seq<Peer>, y: nat, x: nat): nat {
    if peers == [] then
      0
    else
      (if peers[0] in directory then Ends(1, x, y, directory[peers[0]]) else 0) + Dials(directory, peers[1..], y, x)
  }

  /** The dials a frame makes its receiver post. */
  function Fans(es: seq<Entry>): seq<Peer> {
    if es == [] then [] else FanOut(es[0]) + Fans(es[1..])
  }

  function PostedDials(directory: map<Peer, nat>, nodes: seq<Node>, k: nat, x: nat): nat
    requires k <= |nodes|
  {
    if k == 0 then 0
    else PostedDials(directory, nodes, k - 1, x) + Dials(directory, nodes[k - 1].posted, k - 1, x)
  }

  function FannedDials(directory: map<Peer, nat>, flight: seq<InFlight>, x: nat): nat {
    if flight == [] then 0
    else Dials(directory, Fans(Found(flight[0].body)), flight[0].dst, x) + FannedDials(directory, flight[1..], x)
  }

  /** Sessions made, dials posted, fan-out not yet processed. */
  function Total(c: Cluster, x: nat): nat
    requires x < |c.nodes|
  {
    |c.nodes[x].filed| + PostedDials(c.directory, c.nodes, |c.nodes|, x) + FannedDials(c.directory, c.flight, x)
  }

  // ---------------------------------------------------------- the conditions

  predicate Listener(c: Cluster, p: Peer) {
    p in c.directory && c.directory[p] < |c.nodes|
  }

  predicate Known(directory: map<Peer, nat>, k: nat, peers: seq<Peer>) {
    forall i :: 0 <= i < |peers| ==> peers[i] in directory && directory[peers[i]] < k
  }

  /** Neither discovery nor a change of the mirrored WebSockets. */
  predicate Quiet(e: Entry) {
    e.op != OP_DISCOVERY && e.op != OP_JOIN && e.op != OP_LEAVE
  }

  predicate AllQuiet(es: seq<Entry>) {
    forall i :: 0 <= i < |es| ==> Quiet(es[i])
  }

  predicate IsTcp(n: Node, ref: Ref) {
    At(n, ref).kind == Tcp
  }

  /** A frame that fans out arrives at a TCP session and names listeners. */
  predicate QuietFrame(c: Cluster, f: InFlight) {
    && f.src < |c.nodes| && f.dst < |c.nodes|
    && AllQuiet(Found(f.body))
    && (Fans(Found(f.body)) != [] ==> IsTcp(c.nodes[f.dst], f.dstRef) && Known(c.directory, |c.nodes|, Fans(Found(f.body))))
  }

  /** A node that listens is found at its port. */
  predicate Located(c: Cluster, x: nat)
    requires x < |c.nodes|
  {
    var p := Peer(LOCALHOST, c.nodes[x].port);
    c.nodes[x].port != 0 ==> p in c.directory && c.directory[p] == x
  }

  predicate CleanNode(c: Cluster, x: nat)
    requires x < |c.nodes|
  {
    Located(c, x) && Known(c.directory, |c.nodes|, c.nodes[x].posted) && c.nodes[x].dialled == []
  }

  predicate Clean(c: Cluster) {
    && (forall i :: 0 <= i < |c.flight| ==> QuietFrame(c, c.flight[i]))
    && (forall x :: 0 <= x < |c.nodes| ==> CleanNode(c, x))
  }

  /** The next ids a node draws are new to it. */
  ghost predicate NewIds(env: Env, n: Node) {
    && (forall i :: n.drawn <= i < n.drawn + 4 ==> !IdTaken(n.filed, env.draw(i)))
    && env.draw(n.drawn + 3) != env.draw(n.drawn)
  }

  /** Dials reach every listener and ids are new. */
  ghost predicate Benign(c: Cluster, env: Env) {
    && Truthful(c, env)
    && (forall p :: p in c.directory && c.directory[p] < |c.nodes| ==> env.reach(p))
    && (forall x :: 0 <= x < |c.nodes| ==> NewIds(env, c.nodes[x]))
  }

  /** Steps without loss; calls ask for no discovery and dial a listener. */
  ghost predicate Favourable(c: Cluster, ev: Event) {
    && Enabled(c, ev)
    && match ev
       case Call(x, to, discovery, connections, env) => Benign(c, env) && !discovery && Listener(c, to)
       case Deliver(i, env) => true
       case RunPosted(x, j, env) => Benign(c, env)
       case _ => false
  }

  // ------------------------------------------------------------------- sums

  lemma {:induction false} DialsAppend(directory: map<Peer, nat>, a: seq<Peer>, b: seq<Peer>, y: nat, x: nat)
    ensures Dials(directory, a + b, y, x) == Dials(directory, a, y, x) + Dials(directory, b, y, x)
  {
    if a == [] {
      assert a + b == b;
    } else {
      assert (a + b)[0] == a[0] && (a + b)[1..] == a[1..] + b;
      DialsAppend(directory, a[1..], b, y, x);
    }
  }

  lemma DialsDrop(directory: map<Peer, nat>, ps: seq<Peer>, j: nat, y: nat, x: nat)
    requires j < |ps|
    ensures Dials(directory, Drop(ps, j), y, x) ==
            Dials(directory, ps, y, x) - if ps[j] in directory then Ends(1, x, y, directory[ps[j]]) else 0
  {
    var a, b := ps[..j], ps[j + 1..];
    assert ps == a + ([ps[j]] + b);
    DialsAppend(directory, a, [ps[j]] + b, y, x);
    DialsAppend(directory, [ps[j]], b, y, x);
    DialsAppend(directory, a, b, y, x);
    assert [ps[j]][1..] == [];
  }

  lemma {:induction false} DialsRepeat(directory: map<Peer, nat>, p: Peer, k: nat, y: nat, x: nat)
    requires p in directory
    ensures Dials(directory, Repeat(p, k), y, x) == Ends(k, x, y, directory[p])
  {
    if k > 0 {
      assert Repeat(p, k)[1..] == Repeat(p, k - 1);
      DialsRepeat(directory, p, k - 1, y, x);
    }
  }

  lemma {:induction false} FannedAppend(directory: map<Peer, nat>, a: seq<InFlight>, b: seq<InFlight>, x: nat)
    ensures FannedDials(directory, a + b, x) == FannedDials(directory, a, x) + FannedDials(directory, b, x)
  {
    if a == [] {
      assert a + b == b;
    } else {
      assert (a + b)[0] == a[0] && (a + b)[1..] == a[1..] + b;
      FannedAppend(directory, a[1..], b, x);
    }
  }

  lemma FannedOne(directory: map<Peer, nat>, f: InFlight, x: nat)
    ensures FannedDials(directory, [f], x) == Dials(directory, Fans(Found(f.body)), f.dst, x)
  {
    assert [f][1..] == [];
  }

  lemma FannedDrop(directory: map<Peer, nat>, fs: seq<InFlight>, i: nat, x: nat)
    requires i < |fs|
    ensures FannedDials(directory, Drop(fs, i), x) == FannedDials(directory, fs, x) - Dials(directory, Fans(Found(fs[i].body)), fs[i].dst, x)
  {
    var a, b := fs[..i], fs[i + 1..];
    assert fs == a + ([fs[i]] + b);
    FannedAppend(directory, a, [fs[i]] + b, x);
    FannedAppend(directory, [fs[i]], b, x);
    FannedAppend(directory, a, b, x);
    FannedOne(directory, fs[i], x);
  }

  /** Only the tasks of the nodes matter. */
  lemma {:induction false} PostedSame(directory: map<Peer, nat>, a: seq<Node>, b: seq<Node>, k: nat, x: nat)
    requires k <= |a| == |b|
    requires forall y :: 0 <= y < k ==> a[y].posted == b[y].posted
    ensures PostedDials(directory, a, k, x) == PostedDials(directory, b, k, x)
  {
    if k > 0 {
      PostedSame(directory, a, b, k - 1, x);
    }
  }

  lemma {:induction false} PostedReplace(directory: map<Peer, nat>, nodes: seq<Node>, y: nat, n: Node, k: nat, x: nat)
    requires y < k <= |nodes|
    ensures PostedDials(directory, nodes[y := n], k, x) ==
            PostedDials(directory, nodes, k, x) - Dials(directory, nodes[y].posted, y, x) + Dials(directory, n.posted, y, x)
  {
    if y == k - 1 {
      PostedSame(directory, nodes[y := n], nodes, k - 1, x);
    } else {
      PostedReplace(directory, nodes, y, n, k - 1, x);
    }
  }

  // --------------------------------------------------------- handling a frame

  ghost predicate SameKinds(n: Node, m: Node) {
    forall r :: IsTcp(n, r) <==> IsTcp(m, r)
  }

  /** What handling quiet entries changes: the sessions' bindings and, by `fans`, the posted dials. */
  ghost predicate Posts(n: Node, m: Node, fans: seq<Peer>) {
    && m.filed == n.filed && m.posted == n.posted + fans && m.dialled == n.dialled
    && m.port == n.port && SameKinds(n, m)
  }

  /** Quiet entries touch no registration; at a TCP session they post exactly their fan-out. */
  lemma EntryPosts(env: Env, n: Node, me: Ref, e: Entry)
    requires Quiet(e)
    ensures Posts(n, Handle(env, n, me, e).node, if IsTcp(n, me) then FanOut(e) else [])
  {
  }

  lemma PostsTrans(n: Node, m: Node, k: Node, a: seq<Peer>, b: seq<Peer>)
    requires Posts(n, m, a) && Posts(m, k, b)
    ensures Posts(n, k, a + b)
  {
    assert n.posted + (a + b) == n.posted + a + b;
  }

  lemma {:induction false} FramePosts(env: Env, n: Node, me: Ref, es: seq<Entry>)
    requires AllQuiet(es)
    ensures Posts(n, HandleAll(env, n, me, es).node, if IsTcp(n, me) then Fans(es) else [])
    decreases |es|
  {
    if es != [] {
      var first := Handle(env, n, me, es[0]).node;
      assert Quiet(es[0]);
      EntryPosts(env, n, me, es[0]);
      FramePosts(env, first, me, es[1..]);
      var a, b := if IsTcp(n, me) then FanOut(es[0]) else [], if IsTcp(n, me) then Fans(es[1..]) else [];
      PostsTrans(n, first, HandleAll(env, first, me, es[1..]).node, a, b);
      assert a + b == if IsTcp(n, me) then Fans(es) else [];
    } else {
      assert n.posted + [] == n.posted;
    }
  }

  lemma {:induction false} NoFans(es: seq<Entry>)
    requires forall i :: 0 <= i < |es| ==> es[i].kind == RESPONSE
    ensures Fans(es) == []
  {
    if es != [] {
      NoFans(es[1..]);
    }
  }

  /** Replies to quiet entries are quiet and small. */
  lemma {:induction false} RepliesQuiet(env: Env, n: Node, me: Ref, es: seq<Entry>)
    requires AllQuiet(es)
    ensures AllQuiet(HandleAll(env, n, me, es).replies)
    ensures AllFramable(Payloads(HandleAll(env, n, me, es).replies))
    decreases |es|
  {
    if es != [] {
      assert Quiet(es[0]);
      var first := Handle(env, n, me, es[0]);
      RepliesQuiet(env, first.node, me, es[1..]);
      OneResponse(env, n, me, es[0]);
      if first.replies != [] {
        assert first.replies == [first.replies[0]];
        ReplySize(env, n, me, es[0], first.replies[0]);
      }
      PayloadsAppend(first.replies, HandleAll(env, first.node, me, es[1..]).replies);
    }
  }

  /** What is found in the reply to a quiet frame is quiet and fans out nowhere. */
  lemma RepliedQuiet(env: Env, n: Node, me: Ref, frame: Bytes)
    requires AllQuiet(Found(frame)) && Replied(env, n, me, frame).Some?
    ensures var got := Found(Replied(env, n, me, frame).value);
            AllQuiet(got) && Fans(got) == []
  {
    RepliedIsBody(env, n, me, frame);
    RepliesQuiet(env, n, me, Found(frame));
    var rs := HandleAll(env, n, me, Found(frame)).replies;
    FittingFound(rs);
    NoFans(rs);
  }

  // ----------------------------------------------------- what steps leave alone

  predicate SameShape(c: Cluster, d: Cluster) {
    && d.directory == c.directory && |d.nodes| == |c.nodes|
    && forall x :: 0 <= x < |c.nodes| ==> d.nodes[x].port == c.nodes[x].port && d.nodes[x].dialled == []
  }

  ghost predicate TcpKept(c: Cluster, d: Cluster)
    requires |d.nodes| == |c.nodes|
  {
    forall x, r :: 0 <= x < |c.nodes| && IsTcp(c.nodes[x], r) ==> IsTcp(d.nodes[x], r)
  }

  lemma FrameStaysQuiet(c: Cluster, d: Cluster, f: InFlight)
    requires QuietFrame(c, f) && SameShape(c, d) && TcpKept(c, d)
    ensures QuietFrame(d, f)
  {
  }

  /** What a clean cluster becomes stays clean if the new frames and tasks are. */
  lemma StaysClean(c: Cluster, d: Cluster, kept: seq<InFlight>, added: seq<InFlight>)
    requires Clean(c) && SameShape(c, d) && TcpKept(c, d) && d.flight == kept + added
    requires forall i :: 0 <= i < |kept| ==> kept[i] in c.flight
    requires forall i :: 0 <= i < |added| ==> QuietFrame(d, added[i])
    requires forall x :: 0 <= x < |d.nodes| ==> Known(d.directory, |d.nodes|, d.nodes[x].posted)
    ensures Clean(d)
  {
    forall i | 0 <= i < |d.flight|
      ensures QuietFrame(d, d.flight[i])
    {
      if i < |kept| {
        assert kept[i] in c.flight;
        FrameStaysQuiet(c, d, kept[i]);
      } else {
        assert d.flight[i] == added[i - |kept|];
      }
    }
    forall x | 0 <= x < |d.nodes|
      ensures CleanNode(d, x)
    {
      assert CleanNode(c, x);
    }
  }

  // ------------------------------------------------------------ delivering

  /** The cluster after a quiet frame was handled: nothing was dialled. */
  function Delivered(env: Env, c: Cluster, i: nat): Cluster
    requires i < |c.flight| && c.flight[i].dst < |c.nodes|
  {
    var f := c.flight[i];
    var n := c.nodes[f.dst];
    c.(flight := Handled(env, c.flight, i, n), nodes := c.nodes[f.dst := KernelNode(env, n, f.dstRef, f.body).(dialled := [])])
  }

  lemma DeliverIsDelivered(c: Cluster, i: nat, env: Env)
    requires Enabled(c, Deliver(i, env)) && c.nodes[c.flight[i].dst].dialled == [] && AllQuiet(Found(c.flight[i].body))
    ensures Next(c, Deliver(i, env)) == Delivered(env, c, i)
  {
    var f := c.flight[i];
    FramePosts(env, c.nodes[f.dst], f.dstRef, Found(f.body));
  }

  lemma DeliveredPosts(env: Env, c: Cluster, i: nat, x: nat)
    requires i < |c.flight| && c.flight[i].dst < |c.nodes| && AllQuiet(Found(c.flight[i].body))
    ensures var f := c.flight[i];
            PostedDials(c.directory, Delivered(env, c, i).nodes, |c.nodes|, x) == PostedDials(c.directory, c.nodes, |c.nodes|, x) +
            if IsTcp(c.nodes[f.dst], f.dstRef) then Dials(c.directory, Fans(Found(f.body)), f.dst, x) else 0
  {
    var f := c.flight[i];
    var n := c.nodes[f.dst];
    FramePosts(env, n, f.dstRef, Found(f.body));
    PostedReplace(c.directory, c.nodes, f.dst, KernelNode(env, n, f.dstRef, f.body).(dialled := []), |c.nodes|, x);
    DialsAppend(c.directory, n.posted, Fans(Found(f.body)), f.dst, x);
    assert n.posted + [] == n.posted;
  }

  /** Handling moves what a frame fans out to the posted dials; at a WebSocket session it is lost. */
  lemma DeliveredTotal(env: Env, c: Cluster, i: nat, x: nat)
    requires i < |c.flight| && c.flight[i].dst < |c.nodes| && x < |c.nodes| && AllQuiet(Found(c.flight[i].body))
    ensures var f := c.flight[i];
            Total(Delivered(env, c, i), x) ==
            Total(c, x) - if IsTcp(c.nodes[f.dst], f.dstRef) then 0 else Dials(c.directory, Fans(Found(f.body)), f.dst, x)
  {
    var f := c.flight[i];
    FramePosts(env, c.nodes[f.dst], f.dstRef, Found(f.body));
    DeliveredPosts(env, c, i, x);
    FannedReply(c.directory, env, c.flight, i, c.nodes[f.dst], x);
  }

  lemma FannedReply(directory: map<Peer, nat>, env: Env, fs: seq<InFlight>, i: nat, n: Node, x: nat)
    requires i < |fs| && AllQuiet(Found(fs[i].body))
    ensures FannedDials(directory, Handled(env, fs, i, n), x) ==
            FannedDials(directory, fs, x) - Dials(directory, Fans(Found(fs[i].body)), fs[i].dst, x)
  {
    var reply := Replied(env, n, fs[i].dstRef, fs[i].body);
    FannedDrop(directory, fs, i, x);
    FannedAppend(directory, Drop(fs, i), ReplyTo(fs[i], reply), x);
    if reply != None {
      RepliedQuiet(env, n, fs[i].dstRef, fs[i].body);
      FannedOne(directory, ReplyTo(fs[i], reply)[0], x);
    }
  }

  lemma DeliveredShape(c: Cluster, i: nat, env: Env)
    requires Clean(c) && i < |c.flight| && c.flight[i].dst < |c.nodes|
    ensures var d := Delivered(env, c, i);
            && SameShape(c, d) && TcpKept(c, d)
            && forall x :: 0 <= x < |d.nodes| ==> Known(d.directory, |d.nodes|, d.nodes[x].posted)
  {
    var f := c.flight[i];
    var d := Delivered(env, c, i);
    assert QuietFrame(c, f);
    FramePosts(env, c.nodes[f.dst], f.dstRef, Found(f.body));
    forall x | 0 <= x < |d.nodes|
      ensures d.nodes[x].port == c.nodes[x].port && d.nodes[x].dialled == []
      ensures Known(d.directory, |d.nodes|, d.nodes[x].posted)
    {
      assert CleanNode(c, x) && CleanNode(c, f.dst);
    }
  }

  lemma DeliveredClean(c: Cluster, i: nat, env: Env)
    requires Clean(c) && i < |c.flight| && c.flight[i].dst < |c.nodes|
    ensures Clean(Delivered(env, c, i))
  {
    var f := c.flight[i];
    var n := c.nodes[f.dst];
    var reply := Replied(env, n, f.dstRef, f.body);
    assert QuietFrame(c, f);
    DeliveredShape(c, i, env);
    if reply != None {
      RepliedQuiet(env, n, f.dstRef, f.body);
    }
    StaysClean(c, Delivered(env, c, i), Drop(c.flight, i), ReplyTo(f, reply));
  }

  // ---------------------------------------------------------- making a link

  /** Node `x` dials the listener at `to`. */
  function Link(env: Env, c: Cluster, x: nat, to: Peer, connections: Word): Cluster
    requires x < |c.nodes|
  {
    Settle(env, c, x, Connect(env, c.nodes[x], to, false, connections))
  }

  /** What the dialling node becomes when the dial succeeds. */
  function Dialler(env: Env, n: Node): Node {
    n.(objects := n.objects[n.next := Session(env.draw(n.drawn), Tcp, NIL, 0, [])],
       filed := n.filed + [Filing(n.next, env.draw(n.drawn), Tcp, NIL)],
       next := n.next + 1, drawn := n.drawn + 3)
  }

  function Greeted(env: Env, c: Cluster, x: nat, nodes: seq<Node>, t: nat, connections: Word): Cluster
    requires x < |c.nodes| && t < |nodes|
  {
    c.(nodes := nodes[t := Accept(env, nodes[t])],
       flight := c.flight + [InFlight(x, c.nodes[x].next, t, nodes[t].next, Body(Greeting(env, c.nodes[x], false, connections)))])
  }

  lemma LaunchSingle(env: Env, c: Cluster, x: nat, d: Dialled)
    ensures Launch(env, c, x, [d]) == LaunchOne(env, c, x, d)
  {
    assert [d][1..] == [];
  }

  lemma LinkIsGreeted(env: Env, c: Cluster, x: nat, to: Peer, connections: Word)
    requires x < |c.nodes| && c.nodes[x].dialled == [] && env.reach(to) && NewIds(env, c.nodes[x]) && Listener(c, to)
    ensures Link(env, c, x, to, connections) ==
            Greeted(env, c, x, c.nodes[x := Dialler(env, c.nodes[x])], c.directory[to], connections)
  {
    var n := c.nodes[x];
    var m := Connect(env, n, to, false, connections);
    var dial := Dialled(n.next, to, Greeting(env, n, false, connections));
    assert m.dialled == [dial];
    assert m.(dialled := []) == Dialler(env, n);
    LaunchSingle(env, c.(nodes := c.nodes[x := Dialler(env, n)]), x, dial);
  }

  /** A link adds one session at each end, whether or not the ends are the same node. */
  lemma GreetedFiles(env: Env, c: Cluster, x: nat, t: nat, connections: Word, z: nat)
    requires x < |c.nodes| && t < |c.nodes| && z < |c.nodes|
    requires NewIds(env, c.nodes[x]) && NewIds(env, c.nodes[t])
    ensures var d := Greeted(env, c, x, c.nodes[x := Dialler(env, c.nodes[x])], t, connections);
            && |d.nodes[z].filed| == |c.nodes[z].filed| + Ends(1, z, x, t)
            && d.nodes[z].posted == c.nodes[z].posted
            && d.nodes[z].port == c.nodes[z].port
            && d.nodes[z].dialled == c.nodes[z].dialled
            && forall r :: IsTcp(c.nodes[z], r) ==> IsTcp(d.nodes[z], r)
  {
    var n := c.nodes[x := Dialler(env, c.nodes[x])][t];
    assert !IdTaken(n.filed, env.draw(n.drawn));
  }

  lemma GreetingFans(env: Env, n: Node, connections: Word)
    ensures var g := Greeting(env, n, false, connections);
            && AllQuiet(g)
            && Fans(g) == if n.port != 0 && connections > 1 then Repeat(Peer(LOCALHOST, n.port), connections - 1) else []
  {
    IdentifyFields(n.id, connections, env.draw(n.drawn + 1), n.port, LOCALHOST);
    var g := Greeting(env, n, false, connections);
    assert g[1..] == [];
  }

  /** The links a call brings about: itself, and the dials back if this node listens. */
  function Links(port: Word, connections: Word): nat {
    if port != 0 && connections > 1 then connections else 1
  }

  lemma LinkTotals(env: Env, c: Cluster, x: nat, to: Peer, connections: Word, z: nat)
    requires Clean(c) && Benign(c, env) && x < |c.nodes| && z < |c.nodes| && Listener(c, to)
    ensures |Link(env, c, x, to, connections).nodes| == |c.nodes|
    ensures Total(Link(env, c, x, to, connections), z) ==
            Total(c, z) + Ends(Links(c.nodes[x].port, connections), z, x, c.directory[to])
  {
    var n, t := c.nodes[x], c.directory[to];
    assert CleanNode(c, x) && NewIds(env, n) && NewIds(env, c.nodes[t]);
    var d := Greeted(env, c, x, c.nodes[x := Dialler(env, n)], t, connections);
    LinkIsGreeted(env, c, x, to, connections);
    forall y | 0 <= y < |c.nodes|
      ensures d.nodes[y].posted == c.nodes[y].posted
    {
      GreetedFiles(env, c, x, t, connections, y);
    }
    GreetedFiles(env, c, x, t, connections, z);
    PostedSame(c.directory, d.nodes, c.nodes, |c.nodes|, z);
    GreetingFanned(env, c, x, t, d.flight[|c.flight|], connections, z);
  }

  /** The dials back that a greeting carries. */
  lemma GreetingDials(env: Env, n: Node, directory: map<Peer, nat>, x: nat, t: nat, connections: Word, z: nat)
    requires n.port != 0 ==> Peer(LOCALHOST, n.port) in directory && directory[Peer(LOCALHOST, n.port)] == x
    ensures Dials(directory, Fans(Greeting(env, n, false, connections)), t, z) == Ends(Links(n.port, connections) - 1, z, x, t)
  {
    GreetingFans(env, n, connections);
    if n.port != 0 && connections > 1 {
      DialsRepeat(directory, Peer(LOCALHOST, n.port), connections - 1, t, z);
    }
  }

  lemma GreetingFanned(env: Env, c: Cluster, x: nat, t: nat, f: InFlight, connections: Word, z: nat)
    requires x < |c.nodes| && Located(c, x) && f.dst == t && f.body == Body(Greeting(env, c.nodes[x], false, connections))
    ensures FannedDials(c.directory, c.flight + [f], z) ==
            FannedDials(c.directory, c.flight, z) + Ends(Links(c.nodes[x].port, connections) - 1, z, x, t)
  {
    GreetingFound(env, c.nodes[x], false, connections);
    GreetingDials(env, c.nodes[x], c.directory, x, t, connections, z);
    FannedAppend(c.directory, c.flight, [f], z);
    FannedOne(c.directory, f, z);
  }

  lemma GreetedQuiet(env: Env, c: Cluster, x: nat, t: nat, connections: Word)
    requires x < |c.nodes| && t < |c.nodes| && Located(c, x)
    ensures var d := Greeted(env, c, x, c.nodes[x := Dialler(env, c.nodes[x])], t, connections);
            QuietFrame(d, d.flight[|c.flight|])
  {
    GreetingFound(env, c.nodes[x], false, connections);
    GreetingFans(env, c.nodes[x], connections);
  }

  lemma LinkClean(env: Env, c: Cluster, x: nat, to: Peer, connections: Word)
    requires Clean(c) && Benign(c, env) && x < |c.nodes| && Listener(c, to)
    ensures Clean(Link(env, c, x, to, connections))
  {
    var t := c.directory[to];
    assert CleanNode(c, x) && NewIds(env, c.nodes[x]) && NewIds(env, c.nodes[t]);
    var d := Greeted(env, c, x, c.nodes[x := Dialler(env, c.nodes[x])], t, connections);
    LinkIsGreeted(env, c, x, to, connections);
    forall z | 0 <= z < |c.nodes|
      ensures d.nodes[z].port == c.nodes[z].port && d.nodes[z].dialled == []
      ensures Known(d.directory, |d.nodes|, d.nodes[z].posted)
      ensures forall r :: IsTcp(c.nodes[z], r) ==> IsTcp(d.nodes[z], r)
    {
      assert CleanNode(c, z);
      GreetedFiles(env, c, x, t, connections, z);
    }
    GreetedQuiet(env, c, x, t, connections);
    StaysClean(c, d, c.flight, [d.flight[|c.flight|]]);
  }

  /** The cluster with a posted task taken off its queue. */
  function Taken(c: Cluster, x: nat, j: nat): Cluster
    requires x < |c.nodes| && j < |c.nodes[x].posted|
  {
    c.(nodes := c.nodes[x := c.nodes[x].(posted := Drop(c.nodes[x].posted, j))])
  }

  lemma PostedIsLink(c: Cluster, x: nat, j: nat, env: Env)
    requires Enabled(c, RunPosted(x, j, env))
    ensures Next(c, RunPosted(x, j, env)) == Link(env, Taken(c, x, j), x, c.nodes[x].posted[j], 0)
  {
    var n := c.nodes[x].(posted := Drop(c.nodes[x].posted, j));
    var m := Connect(env, n, c.nodes[x].posted[j], false, 0).(dialled := []);
    assert Taken(c, x, j).nodes[x := m] == c.nodes[x := m];
  }

  lemma TakenKeeps(c: Cluster, x: nat, j: nat, env: Env, z: nat)
    requires Clean(c) && Benign(c, env) && x < |c.nodes| && j < |c.nodes[x].posted| && z < |c.nodes|
    ensures Clean(Taken(c, x, j)) && Benign(Taken(c, x, j), env)
    ensures Listener(c, c.nodes[x].posted[j])
    ensures Total(Taken(c, x, j), z) == Total(c, z) - Ends(1, z, x, c.directory[c.nodes[x].posted[j]])
  {
    var d := Taken(c, x, j);
    assert CleanNode(c, x);
    TakenClean(c, x, j);
    forall y | 0 <= y < |d.nodes|
      ensures NewIds(env, d.nodes[y])
    {
      assert NewIds(env, c.nodes[y]);
    }
    PostedReplace(c.directory, c.nodes, x, d.nodes[x], |c.nodes|, z);
    DialsDrop(c.directory, c.nodes[x].posted, j, x, z);
  }

  lemma TakenClean(c: Cluster, x: nat, j: nat)
    requires Clean(c) && x < |c.nodes| && j < |c.nodes[x].posted|
    ensures Clean(Taken(c, x, j))
  {
    var d := Taken(c, x, j);
    forall y | 0 <= y < |c.nodes|
      ensures d.nodes[y].port == c.nodes[y].port && d.nodes[y].dialled == []
      ensures Known(d.directory, |d.nodes|, d.nodes[y].posted)
      ensures forall r :: IsTcp(c.nodes[y], r) ==> IsTcp(d.nodes[y], r)
    {
      assert CleanNode(c, y) && CleanNode(c, x);
    }
    StaysClean(c, d, c.flight, []);
  }

  // ------------------------------------------------------------- the results

  /** What a step adds to the total of node `z`: only a call adds anything. */
  function Gain(c: Cluster, ev: Event, z: nat): nat {
    match ev
    case Call(x, to, discovery, connections, env) =>
      if x < |c.nodes| && to in c.directory
      then Ends(Links(c.nodes[x].port, connections), z, x, c.directory[to])
      else 0
    case _ => 0
  }

  lemma CallConserves(c: Cluster, x: nat, to: Peer, connections: Word, env: Env, z: nat)
    requires Clean(c) && Favourable(c, Call(x, to, false, connections, env)) && z < |c.nodes|
    ensures var ev := Call(x, to, false, connections, env);
            && Clean(Next(c, ev)) && |Next(c, ev).nodes| == |c.nodes|
            && Total(Next(c, ev), z) == Total(c, z) + Gain(c, ev, z)
  {
    LinkTotals(env, c, x, to, connections, z);
    LinkClean(env, c, x, to, connections);
  }

  lemma DeliverConserves(c: Cluster, i: nat, env: Env, z: nat)
    requires Clean(c) && Enabled(c, Deliver(i, env)) && z < |c.nodes|
    ensures var d := Next(c, Deliver(i, env));
            Clean(d) && |d.nodes| == |c.nodes| && Total(d, z) == Total(c, z)
  {
    assert QuietFrame(c, c.flight[i]) && CleanNode(c, c.flight[i].dst);
    DeliverIsDelivered(c, i, env);
    DeliveredTotal(env, c, i, z);
    DeliveredClean(c, i, env);
  }

  lemma PlainLink(env: Env, c: Cluster, x: nat, to: Peer, z: nat)
    requires Clean(c) && Benign(c, env) && x < |c.nodes| && z < |c.nodes| && Listener(c, to)
    ensures var d := Link(env, c, x, to, 0);
            |d.nodes| == |c.nodes| && Total(d, z) == Total(c, z) + Ends(1, z, x, c.directory[to])
  {
    LinkTotals(env, c, x, to, 0, z);
  }

  lemma PostedConserves(c: Cluster, x: nat, j: nat, env: Env, z: nat)
    requires Clean(c) && Favourable(c, RunPosted(x, j, env)) && z < |c.nodes|
    ensures var d := Next(c, RunPosted(x, j, env));
            Clean(d) && |d.nodes| == |c.nodes| && Total(d, z) == Total(c, z)
  {
    var to := c.nodes[x].posted[j];
    PostedIsLink(c, x, j, env);
    TakenKeeps(c, x, j, env, z);
    PlainLink(env, Taken(c, x, j), x, to, z);
    LinkClean(env, Taken(c, x, j), x, to, 0);
  }

  /** Deliveries and posted dials keep every node's total, and a call raises it by its links. */
  lemma StepConserves(c: Cluster, ev: Event, z: nat)
    requires Clean(c) && Favourable(c, ev) && z < |c.nodes|
    ensures Clean(Next(c, ev)) && |Next(c, ev).nodes| == |c.nodes|
    ensures Total(Next(c, ev), z) == Total(c, z) + Gain(c, ev, z)
  {
    match ev
    case Call(x, to, discovery, connections, env) => CallConserves(c, x, to, connections, env, z);
    case Deliver(i, env) => DeliverConserves(c, i, env, z);
    case RunPosted(x, j, env) => PostedConserves(c, x, j, env, z);
  }

  ghost predicate Thrives(c: Cluster, ev: Event, d: Cluster) {
    Favourable(c, ev) && d == Next(c, ev)
  }

  ghost predicate Proceeds(states: nat -> Cluster, events: nat -> Event, i: nat) {
    Thrives(states(i), events(i), states(i + 1))
  }

  /** A clean cluster of a given size, and the total of a node in it. */
  ghost predicate Stands(c: Cluster, size: nat, z: nat, total: nat) {
    Clean(c) && |c.nodes| == size && z < size && Total(c, z) == total
  }

  lemma ThrivesStands(c: Cluster, ev: Event, d: Cluster, size: nat, z: nat, total: nat)
    requires Stands(c, size, z, total) && Thrives(c, ev, d)
    ensures Stands(d, size, z, total + Gain(c, ev, z))
  {
    StepConserves(c, ev, z);
  }

  function Gains(states: nat -> Cluster, events: nat -> Event, k: nat, z: nat): nat {
    if k == 0 then 0 else Gains(states, events, k - 1, z) + Gain(states(k - 1), events(k - 1), z)
  }

  lemma {:induction false} RunStands(states: nat -> Cluster, events: nat -> Event, k: nat, size: nat, z: nat, total: nat)
    requires Stands(states(0), size, z, total)
    requires forall i: nat :: i < k ==> Proceeds(states, events, i)
    ensures Stands(states(k), size, z, total + Gains(states, events, k, z))
  {
    if k > 0 {
      RunStands(states, events, k - 1, size, z, total);
      assert Proceeds(states, events, k - 1);
      ThrivesStands(states(k - 1), events(k - 1), states(k), size, z, total + Gains(states, events, k - 1, z));
    }
  }

  lemma RunConserves(states: nat -> Cluster, events: nat -> Event, k: nat, z: nat)
    requires Clean(states(0)) && z < |states(0).nodes|
    requires forall i: nat :: i < k ==> Proceeds(states, events, i)
    ensures Clean(states(k)) && |states(k).nodes| == |states(0).nodes|
    ensures Total(states(k), z) == Total(states(0), z) + Gains(states, events, k, z)
  {
    RunStands(states, events, k, |states(0).nodes|, z, Total(states(0), z));
  }

  lemma {:induction false} NonePosted(directory: map<Peer, nat>, nodes: seq<Node>, k: nat, z: nat)
    requires k <= |nodes| && forall y :: 0 <= y < |nodes| ==> nodes[y].posted == []
    ensures PostedDials(directory, nodes, k, z) == 0
  {
    if k > 0 {
      NonePosted(directory, nodes, k - 1, z);
    }
  }

  /** A run from one quiescent state to another, however its calls, deliveries and dials
      interleave, leaves every node with the sessions its calls account for. */
  lemma SessionsAtQuiescence(states: nat -> Cluster, events: nat -> Event, k: nat, z: nat)
    requires Clean(states(0)) && Quiescent(states(0)) && z < |states(0).nodes|
    requires forall i: nat :: i < k ==> Proceeds(states, events, i)
    requires Quiescent(states(k))
    ensures z < |states(k).nodes|
    ensures |states(k).nodes[z].filed| == |states(0).nodes[z].filed| + Gains(states, events, k, z)
  {
    RunConserves(states, events, k, z);
    NonePosted(states(0).directory, states(0).nodes, |states(0).nodes|, z);
    NonePosted(states(k).directory, states(k).nodes, |states(k).nodes|, z);
  }

  lemma {:induction false} OneCallGains(states: nat -> Cluster, events: nat -> Event, k: nat, z: nat)
    requires k > 0 && forall i: nat :: 0 < i < k ==> !events(i).Call?
    ensures Gains(states, events, k, z) == Gain(states(0), events(0), z)
  {
    if k > 1 {
      OneCallGains(states, events, k - 1, z);
    } else {
      assert Gains(states, events, 0, z) == 0;
    }
  }

  /** One call that asks for `n` connections, made by a node that listens: at quiescence each end
      has exactly max(1, n) sessions more and no other node has any. */
  lemma ConnectionsPerCall(states: nat -> Cluster, events: nat -> Event, k: nat,
                           a: nat, to: Peer, n: Word, env: Env, z: nat)
    requires Clean(states(0)) && Quiescent(states(0)) && z < |states(0).nodes| && k > 0
    requires forall i: nat :: i < k ==> Proceeds(states, events, i)
    requires events(0) == Call(a, to, false, n, env) && forall i: nat :: 0 < i < k ==> !events(i).Call?
    requires a < |states(0).nodes| && states(0).nodes[a].port != 0
    requires to in states(0).directory && states(0).directory[to] != a
    requires Quiescent(states(k))
    ensures var asked: nat := if n > 1 then n else 1;
            && z < |states(k).nodes|
            && |states(k).nodes[z].filed| == |states(0).nodes[z].filed| +
               if z == a || z == states(0).directory[to] then asked else 0
  {
    SessionsAtQuiescence(states, events, k, z);
    OneCallGains(states, events, k, z);
  }
}
