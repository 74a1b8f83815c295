/**
 What nodes send of themselves is orderly: it fits its length fields, but for a listing at the end,
 and asks for a listing last. So long as nothing else is sent from outside, every frame is found as it
 was meant, but for the end of its last response.
 */
module Carriage {
  import opened Bytes
  import opened Protocol
  import opened Frames
  import opened Registry
  import opened NodeModel
  import opened Kernel
  import opened Conversation
  import opened Arrivals
  import opened Bootstrap
  import Discovery

  /** Entries that fit one frame and their length fields, save a listing that ends a reply; a listing
      is asked for last. */
  predicate Orderly(es: seq<Entry>) {
    && 0 < |es| <= MAX_ENTRIES && DiscoveryLast(es)
    && (AllFramable(Payloads(es)) || (AllResponses(es) && AllButLastFramable(es)))
  }

  /** The body carries orderly entries. */
  ghost predicate Carries(body: Bytes) {
    exists es :: Orderly(es) && body == Body(es)
  }

  ghost predicate AllCarry(flight: seq<InFlight>) {
    forall i :: 0 <= i < |flight| ==> Carries(flight[i].body)
  }

  // ------------------------------------------------------------------ one frame

  /** An orderly frame is found as it was sent, or it holds responses and its last one is cut. */
  lemma OrderlyArrives(es: seq<Entry>)
    requires Orderly(es)
    ensures var scan := Parse(Body(es));
            && scan.Some? && Arrival(es, scan.value.entries)
            && (!scan.value.complete ==> AllResponses(scan.value.entries))
  {
    if AllFramable(Payloads(es)) {
      FittingFound(es);
    } else {
      FittingArrive(es);
      ArrivedResponses(es, Found(Body(es)));
    }
  }

  /** What is replied to an orderly frame carries orderly entries. */
  lemma RepliesOrderly(env: Env, n: Node, me: Ref, es: seq<Entry>)
    requires Orderly(es) && Replied(env, n, me, Body(es)).Some?
    ensures Carries(Replied(env, n, me, Body(es)).value)
  {
    var got := Found(Body(es));
    OrderlyArrives(es);
    RepliedIsBody(env, n, me, Body(es));
    if got == es {
      LastListingFits(env, n, me, es);
    } else {
      ArrivedResponses(es, got);
      RepliesFollowRequests(env, n, me, got);
    }
    assert Orderly(HandleAll(env, n, me, got).replies);
  }

  lemma GreetingOrderly(env: Env, n: Node, discovery: bool, connections: Word)
    ensures Orderly(Greeting(env, n, discovery, connections))
  {
    var es := Greeting(env, n, discovery, connections);
    assert forall i :: 0 <= i < |es| ==> |es[i].body| <= 29;
    assert AllFramable(Payloads(es));
  }

  // ------------------------------------------------------------------- the cluster

  predicate OrderlyDials(ds: seq<Dialled>) {
    forall i :: 0 <= i < |ds| ==> ds[i].sends == [] || Orderly(ds[i].sends)
  }

  lemma ConnectOrderly(env: Env, n: Node, to: Discovery.Peer, discovery: bool, connections: Word)
    requires OrderlyDials(n.dialled)
    ensures OrderlyDials(Connect(env, n, to, discovery, connections).dialled)
  {
    GreetingOrderly(env, n, discovery, connections);
  }

  lemma {:induction false} DialAllOrderly(env: Env, n: Node, peers: seq<Discovery.Peer>)
    requires OrderlyDials(n.dialled)
    ensures OrderlyDials(DialAll(env, n, peers).dialled)
    decreases |peers|
  {
    if peers != [] {
      ConnectOrderly(env, n, peers[0], false, 0);
      DialAllOrderly(env, DialOne(env, n, peers[0]), peers[1..]);
    }
  }

  lemma {:induction false} FrameOrderly(env: Env, n: Node, me: Ref, es: seq<Entry>)
    requires OrderlyDials(n.dialled)
    ensures OrderlyDials(HandleAll(env, n, me, es).node.dialled)
    decreases |es|
  {
    if es != [] {
      if es[0].op == OP_DISCOVERY {
        DialAllOrderly(env, n, Discovery.ReadList(es[0].body));
      }
      FrameOrderly(env, Handle(env, n, me, es[0]).node, me, es[1..]);
    }
  }

  lemma LaunchOneCarries(env: Env, c: Cluster, x: nat, d: Dialled)
    requires AllCarry(c.flight) && (d.sends == [] || Orderly(d.sends))
    ensures AllCarry(LaunchOne(env, c, x, d).flight)
  {
  }

  lemma {:induction false} LaunchCarries(env: Env, c: Cluster, x: nat, ds: seq<Dialled>)
    requires AllCarry(c.flight) && OrderlyDials(ds)
    ensures AllCarry(Launch(env, c, x, ds).flight)
    decreases |ds|
  {
    if ds != [] {
      LaunchOneCarries(env, c, x, ds[0]);
      LaunchCarries(env, LaunchOne(env, c, x, ds[0]), x, ds[1..]);
    }
  }

  lemma SettleCarries(env: Env, c: Cluster, x: nat, n: Node)
    requires AllCarry(c.flight) && x < |c.nodes| && OrderlyDials(n.dialled)
    ensures AllCarry(Settle(env, c, x, n).flight)
  {
    LaunchCarries(env, c.(nodes := c.nodes[x := n.(dialled := [])]), x, n.dialled);
  }

  lemma RepliedCarries(env: Env, n: Node, me: Ref, body: Bytes)
    requires Carries(body) && Replied(env, n, me, body).Some?
    ensures Carries(Replied(env, n, me, body).value)
  {
    var es :| Orderly(es) && body == Body(es);
    RepliesOrderly(env, n, me, es);
  }

  lemma DropCarries(flight: seq<InFlight>, i: nat)
    requires AllCarry(flight) && i < |flight|
    ensures AllCarry(Drop(flight, i))
  {
    forall j | 0 <= j < |Drop(flight, i)|
      ensures Carries(Drop(flight, i)[j].body)
    {
      assert Drop(flight, i)[j] == flight[if j < i then j else j + 1];
    }
  }

  lemma AppendCarries(a: seq<InFlight>, b: seq<InFlight>)
    requires AllCarry(a) && AllCarry(b)
    ensures AllCarry(a + b)
  {
    forall j | 0 <= j < |a + b|
      ensures Carries((a + b)[j].body)
    {
      assert (a + b)[j] == if j < |a| then a[j] else b[j - |a|];
    }
  }

  lemma HandledCarries(env: Env, flight: seq<InFlight>, i: nat, n: Node)
    requires AllCarry(flight) && i < |flight|
    ensures AllCarry(Handled(env, flight, i, n))
  {
    var reply := Replied(env, n, flight[i].dstRef, flight[i].body);
    if reply.Some? {
      RepliedCarries(env, n, flight[i].dstRef, flight[i].body);
    }
    DropCarries(flight, i);
    AppendCarries(Drop(flight, i), ReplyTo(flight[i], reply));
  }

  /** Every step keeps what is in flight orderly, if what is sent from outside is. */
  lemma NextCarries(c: Cluster, ev: Event)
    requires AllCarry(c.flight) && NothingDialled(c.nodes) && Enabled(c, ev)
    requires ev.Send? ==> Carries(ev.message.body)
    ensures AllCarry(Next(c, ev).flight)
  {
    match ev
    case Call(x, to, discovery, connections, env) =>
      ConnectOrderly(env, c.nodes[x], to, discovery, connections);
      SettleCarries(env, c, x, Connect(env, c.nodes[x], to, discovery, connections));
    case Admit(x, id) =>
    case Send(f) =>
    case Remove(x, id) =>
    case Deliver(i, env) =>
      var f := c.flight[i];
      HandledCarries(env, c.flight, i, c.nodes[f.dst]);
      FrameOrderly(env, c.nodes[f.dst], f.dstRef, Found(f.body));
      SettleCarries(env, c.(flight := Handled(env, c.flight, i, c.nodes[f.dst])), f.dst,
                    KernelNode(env, c.nodes[f.dst], f.dstRef, f.body));
    case RunPosted(x, j, env) =>
      var n := c.nodes[x].(posted := Drop(c.nodes[x].posted, j));
      ConnectOrderly(env, n, c.nodes[x].posted[j], false, 0);
      SettleCarries(env, c, x, Connect(env, n, c.nodes[x].posted[j], false, 0));
    case Lose(i) =>
      DropCarries(c.flight, i);
  }

  ghost predicate InOrder(c: Cluster) {
    AllCarry(c.flight) && NothingDialled(c.nodes)
  }

  lemma {:induction false} RunsStayInOrder(states: nat -> Cluster, events: nat -> Event, k: nat)
    requires InOrder(states(0)) && forall i: nat :: i < k ==> Follows(states, events, i)
    requires forall i: nat :: i < k && events(i).Send? ==> Carries(events(i).message.body)
    ensures InOrder(states(k))
  {
    if k > 0 {
      RunsStayInOrder(states, events, k - 1);
      assert Follows(states, events, k - 1);
      NextCarries(states(k - 1), events(k - 1));
      NextNothingDialled(states(k - 1), events(k - 1));
    }
  }

  /** In every run from an empty flight in which only orderly frames are sent from outside, every frame
      is found as it was meant, but for the end of its last response. */
  lemma RunsAreUnderstood(states: nat -> Cluster, events: nat -> Event, k: nat, i: nat)
    requires states(0).flight == [] && NothingDialled(states(0).nodes)
    requires forall j: nat :: j < k ==> Follows(states, events, j)
    requires forall j: nat :: j < k && events(j).Send? ==> Carries(events(j).message.body)
    requires i < |states(k).flight|
    ensures exists es :: Orderly(es) && states(k).flight[i].body == Body(es) && Arrival(es, Found(states(k).flight[i].body))
  {
    RunsStayInOrder(states, events, k);
    assert Carries(states(k).flight[i].body);
    var es :| Orderly(es) && states(k).flight[i].body == Body(es);
    OrderlyArrives(es);
  }
}
