/**
 A cluster of nodes bootstrapping: frames in flight between sessions, dials posted to event loops.
 Frames travel as bytes and are handled by the kernel; any frame may be delivered at any time, which
 covers every order the links allow. Accepting a connection is one step with the dial that makes it.
 */
module Bootstrap {
  import opened Bytes
  import opened Protocol
  import opened Frames
  import opened Registry
  import opened Messages
  import opened Discovery
  import opened NodeModel
  import opened Kernel
  import opened Conversation
  import opened Arrivals

  /** The body of a frame from session `srcRef` of node `src` to session `dstRef` of node `dst`. */
  datatype InFlight = InFlight(src: nat, srcRef: Ref, dst: nat, dstRef: Ref, body: Bytes)

  /** The directory maps the addresses of listeners to nodes. */
  datatype Cluster = Cluster(nodes: seq<Node>, directory: map<Peer, nat>, flight: seq<InFlight>)

  /**
   From outside: `Call` is a call of `connect`, `Admit` a WebSocket that connects, `Send` any bytes a
   session is given to send (a broadcast is one for each target), `Remove` the end of a session. The
   other events are the cluster's own.
   */
  datatype Event =
    | Call(node: nat, to: Peer, discovery: bool, connections: Word, env: Env)
    | Admit(node: nat, id: Uuid)
    | Send(message: InFlight)
    | Remove(node: nat, id: Uuid)
    | Deliver(frame: nat, env: Env)
    | RunPosted(node: nat, task: nat, env: Env)
    | Lose(frame: nat)

  predicate Outside(ev: Event) {
    ev.Call? || ev.Admit? || ev.Send? || ev.Remove?
  }

  predicate EndHeld(nodes: seq<Node>, x: nat, ref: Ref) {
    x < |nodes| && ref in nodes[x].objects
  }

  /** Both sessions of a frame are there. */
  predicate BothHeld(nodes: seq<Node>, f: InFlight) {
    EndHeld(nodes, f.src, f.srcRef) && EndHeld(nodes, f.dst, f.dstRef)
  }

  /** Only listeners can be reached. */
  ghost predicate Truthful(c: Cluster, env: Env) {
    forall p :: env.reach(p) ==> p in c.directory && c.directory[p] < |c.nodes|
  }

  ghost predicate Enabled(c: Cluster, ev: Event) {
    match ev
    case Call(x, to, discovery, connections, env) => x < |c.nodes| && Truthful(c, env)
    case Admit(x, id) => x < |c.nodes|
    case Send(f) => BothHeld(c.nodes, f)
    case Remove(x, id) => x < |c.nodes|
    case Deliver(i, env) => i < |c.flight| && c.flight[i].dst < |c.nodes| && Truthful(c, env)
    case RunPosted(x, j, env) => x < |c.nodes| && j < |c.nodes[x].posted| && Truthful(c, env)
    case Lose(i) => i < |c.flight|
  }

  /** The listener makes a session object for an accepted connection and starts it, registered or
      not. */
  function Accept(env: Env, n: Node): Node {
    var s := Session(env.draw(n.drawn), Tcp, NIL, 0, []);
    if IdTaken(n.filed, s.id)
    then n.(objects := n.objects[n.next := s], next := n.next + 1, drawn := n.drawn + 1)
    else AddSession(n, s).(drawn := n.drawn + 1)
  }

  /** A connection node `x` dialled reaches its listener, with the greeting in flight if one is sent. */
  function LaunchOne(env: Env, c: Cluster, x: nat, d: Dialled): Cluster {
    if d.to !in c.directory || c.directory[d.to] >= |c.nodes| then
      c
    else
      var t := c.directory[d.to];
      c.(nodes := c.nodes[t := Accept(env, c.nodes[t])],
         flight := c.flight + if d.sends == [] then [] else [InFlight(x, d.ref, t, c.nodes[t].next, Body(d.sends))])
  }

  function Launch(env: Env, c: Cluster, x: nat, ds: seq<Dialled>): Cluster
    decreases |ds|
  {
    if ds == [] then c else Launch(env, LaunchOne(env, c, x, ds[0]), x, ds[1..])
  }

  /** Put a node back after a handler ran, and launch what it dialled. */
  function Settle(env: Env, c: Cluster, x: nat, n: Node): Cluster
    requires x < |c.nodes|
  {
    Launch(env, c.(nodes := c.nodes[x := n.(dialled := [])]), x, n.dialled)
  }

  /** The reply travels back on the session the frame came from. */
  function ReplyTo(f: InFlight, reply: Option<Bytes>): seq<InFlight> {
    if reply == None then [] else [InFlight(f.dst, f.dstRef, f.src, f.srcRef, reply.value)]
  }

  /** The flight after frame `i` was handled by node `n`. */
  function Handled(env: Env, flight: seq<InFlight>, i: nat, n: Node): seq<InFlight>
    requires i < |flight|
  {
    Drop(flight, i) + ReplyTo(flight[i], Replied(env, n, flight[i].dstRef, flight[i].body))
  }

  ghost function Next(c: Cluster, ev: Event): Cluster
    requires Enabled(c, ev)
  {
    match ev
    case Call(x, to, discovery, connections, env) =>
      Settle(env, c, x, Connect(env, c.nodes[x], to, discovery, connections))
    case Admit(x, id) =>
      c.(nodes := c.nodes[x := AddSession(c.nodes[x], Session(id, WebSocket, c.nodes[x].id, 0, []))])
    case Send(f) =>
      c.(flight := c.flight + [f])
    case Remove(x, id) =>
      c.(nodes := c.nodes[x := c.nodes[x].(filed := WithoutId(c.nodes[x].filed, id))])
    case Deliver(i, env) =>
      var f := c.flight[i];
      Settle(env, c.(flight := Handled(env, c.flight, i, c.nodes[f.dst])), f.dst,
             KernelNode(env, c.nodes[f.dst], f.dstRef, f.body))
    case RunPosted(x, j, env) =>
      var n := c.nodes[x];
      Settle(env, c, x, Connect(env, n.(posted := Drop(n.posted, j)), n.posted[j], false, 0))
    case Lose(i) =>
      c.(flight := Drop(c.flight, i))
  }

  // -------------------------------------------------------- what a frame can cause

  /** An entry that asks for no listing, holds none, and fans out nowhere. */
  predicate PlainEntry(e: Entry) {
    e.op != OP_DISCOVERY && FanOut(e) == []
  }

  predicate Calm(es: seq<Entry>) {
    forall i :: 0 <= i < |es| ==> PlainEntry(es[i])
  }

  function Requests(es: seq<Entry>): nat {
    if es == [] then 0 else (if es[0].kind != RESPONSE then 1 else 0) + Requests(es[1..])
  }

  lemma {:induction false} RequestsZeroIff(es: seq<Entry>)
    ensures Requests(es) == 0 <==> AllResponses(es)
  {
    if es != [] {
      RequestsZeroIff(es[1..]);
      assert AllResponses(es) <==> es[0].kind == RESPONSE && AllResponses(es[1..]) by {
        assert forall i :: 0 < i < |es| ==> es[i] == es[1..][i - 1];
        assert forall i :: 0 <= i < |es[1..]| ==> es[1..][i] == es[i + 1];
      }
    }
  }

  /** The two ways a frame counts, by what the kernel finds in it: a calm one by its requests, any
      other by its entries and by whether it begins with a response. */
  datatype Part = Weight | Asks

  function Load(es: seq<Entry>, part: Part): nat {
    match part
    case Weight => if Calm(es) then 0 else 2 * |es| + if es[0].kind == RESPONSE then 0 else 1
    case Asks => if Calm(es) then Requests(es) else 0
  }

  function Loads(fs: seq<InFlight>, part: Part): nat {
    if fs == [] then 0 else Load(Found(fs[0].body), part) + Loads(fs[1..], part)
  }

  function Posted(nodes: seq<Node>): nat {
    if nodes == [] then 0 else |nodes[0].posted| + Posted(nodes[1..])
  }

  lemma {:induction false} LoadsAppend(a: seq<InFlight>, b: seq<InFlight>, part: Part)
    ensures Loads(a + b, part) == Loads(a, part) + Loads(b, part)
  {
    if a == [] {
      assert a + b == b;
    } else {
      assert (a + b)[0] == a[0] && (a + b)[1..] == a[1..] + b;
      LoadsAppend(a[1..], b, part);
    }
  }

  lemma LoadsOne(f: InFlight, part: Part)
    ensures Loads([f], part) == Load(Found(f.body), part)
  {
    assert [f][1..] == [];
  }

  lemma LoadsDrop(fs: seq<InFlight>, i: nat, part: Part)
    requires i < |fs|
    ensures Loads(Drop(fs, i), part) == Loads(fs, part) - Load(Found(fs[i].body), part)
  {
    var a, b := fs[..i], fs[i + 1..];
    assert fs == a + ([fs[i]] + b);
    LoadsAppend(a, [fs[i]] + b, part);
    LoadsAppend([fs[i]], b, part);
    LoadsAppend(a, b, part);
    LoadsOne(fs[i], part);
  }

  lemma {:induction false} PostedUpdate(nodes: seq<Node>, x: nat, n: Node)
    requires x < |nodes|
    ensures Posted(nodes[x := n]) == Posted(nodes) - |nodes[x].posted| + |n.posted|
  {
    if x == 0 {
      assert nodes[x := n][1..] == nodes[1..];
    } else {
      assert nodes[x := n][1..] == nodes[1..][x - 1 := n];
      PostedUpdate(nodes[1..], x - 1, n);
    }
  }

  // ----------------------------------------------------- dials made by the cluster

  /** Nothing, or one identify that fans out nowhere. */
  predicate PlainGreeting(es: seq<Entry>) {
    es == [] || (|es| == 1 && AllFramable(Payloads(es)) && PlainEntry(es[0]))
  }

  predicate Plain(ds: seq<Dialled>) {
    forall i :: 0 <= i < |ds| ==> PlainGreeting(ds[i].sends)
  }

  lemma ConnectPlain(env: Env, n: Node, to: Peer)
    requires Plain(n.dialled)
    ensures Plain(Connect(env, n, to, false, 0).dialled)
    ensures Connect(env, n, to, false, 0).posted == n.posted
  {
    IdentifyFields(n.id, 0, env.draw(n.drawn + 1), n.port, LOCALHOST);
    assert PlainGreeting(Greeting(env, n, false, 0));
  }

  lemma {:induction false} DialAllPlain(env: Env, n: Node, peers: seq<Peer>)
    requires Plain(n.dialled)
    ensures Plain(DialAll(env, n, peers).dialled)
    ensures DialAll(env, n, peers).posted == n.posted
    decreases |peers|
  {
    if peers != [] {
      ConnectPlain(env, n, peers[0]);
      DialAllPlain(env, DialOne(env, n, peers[0]), peers[1..]);
    }
  }

  /** Only a discovery response dials, and greets plainly; only a fanning identify posts; what is
      replied to a plain entry is plain. */
  lemma EntryEffects(env: Env, n: Node, me: Ref, e: Entry)
    requires Plain(n.dialled)
    ensures var o := Handle(env, n, me, e);
            && Plain(o.node.dialled)
            && (!(e.op == OP_DISCOVERY && e.kind == RESPONSE) ==> o.node.dialled == n.dialled)
            && (FanOut(e) == [] ==> o.node.posted == n.posted)
            && (PlainEntry(e) ==> Calm(o.replies))
  {
    if e.op == OP_DISCOVERY {
      DialAllPlain(env, n, ReadList(e.body));
    }
  }

  lemma CalmAppend(a: seq<Entry>, b: seq<Entry>)
    requires Calm(a) && Calm(b)
    ensures Calm(a + b)
  {
  }

  /** A calm frame neither dials nor posts, and what is replied to it is calm. */
  lemma {:induction false} FrameEffects(env: Env, n: Node, me: Ref, es: seq<Entry>)
    requires Plain(n.dialled)
    ensures var o := HandleAll(env, n, me, es);
            && Plain(o.node.dialled)
            && (Calm(es) ==> o.node.dialled == n.dialled && o.node.posted == n.posted && Calm(o.replies))
    decreases |es|
  {
    if es != [] {
      var first := Handle(env, n, me, es[0]);
      EntryEffects(env, n, me, es[0]);
      FrameEffects(env, first.node, me, es[1..]);
      if Calm(es) {
        assert PlainEntry(es[0]);
        CalmAppend(first.replies, HandleAll(env, first.node, me, es[1..]).replies);
      }
    }
  }

  /** The replies to a calm frame are small. */
  lemma {:induction false} CalmRepliesFit(env: Env, n: Node, me: Ref, es: seq<Entry>)
    requires Calm(es)
    ensures AllFramable(Payloads(HandleAll(env, n, me, es).replies))
    decreases |es|
  {
    if es != [] {
      var first := Handle(env, n, me, es[0]);
      assert PlainEntry(es[0]);
      CalmRepliesFit(env, first.node, me, es[1..]);
      OneResponse(env, n, me, es[0]);
      if first.replies != [] {
        assert first.replies == [first.replies[0]];
        ReplySize(env, n, me, es[0], first.replies[0]);
      }
      PayloadsAppend(first.replies, HandleAll(env, first.node, me, es[1..]).replies);
    }
  }

  /** What is replied to a calm frame is found as it was sent: calm, and without a request. */
  lemma CalmReplied(env: Env, n: Node, me: Ref, frame: Bytes)
    requires Calm(Found(frame)) && Replied(env, n, me, frame).Some? && Plain(n.dialled)
    ensures var got := Found(Replied(env, n, me, frame).value);
            && Calm(got) && AllResponses(got) && Requests(Found(frame)) > 0
  {
    RepliedIsBody(env, n, me, frame);
    FrameEffects(env, n, me, Found(frame));
    CalmRepliesFit(env, n, me, Found(frame));
    FittingFound(HandleAll(env, n, me, Found(frame)).replies);
    RepliesFollowRequests(env, n, me, Found(frame));
    RequestsZeroIff(Found(frame));
  }

  /** The load a reply adds, compared with what the frame it answers takes away. */
  lemma ReplyLoad(env: Env, n: Node, me: Ref, frame: Bytes)
    requires Replied(env, n, me, frame).Some? && Plain(n.dialled)
    ensures var sent, got := Found(frame), Found(Replied(env, n, me, frame).value);
            if Calm(sent)
            then Load(got, Weight) == 0 == Load(got, Asks) && Load(sent, Asks) > 0
            else Load(got, Weight) < Load(sent, Weight)
  {
    var sent, got := Found(frame), Found(Replied(env, n, me, frame).value);
    if Calm(sent) {
      CalmReplied(env, n, me, frame);
      RequestsZeroIff(got);
    } else {
      ReplyShrinks(env, n, me, frame);
    }
  }

  lemma HandledLoads(env: Env, fs: seq<InFlight>, i: nat, n: Node, part: Part)
    requires i < |fs|
    ensures var reply := Replied(env, n, fs[i].dstRef, fs[i].body);
            Loads(Handled(env, fs, i, n), part) ==
            Loads(fs, part) - Load(Found(fs[i].body), part) + if reply == None then 0 else Load(Found(reply.value), part)
  {
    var reply := Replied(env, n, fs[i].dstRef, fs[i].body);
    LoadsDrop(fs, i, part);
    LoadsAppend(Drop(fs, i), ReplyTo(fs[i], reply), part);
    if reply != None {
      LoadsOne(ReplyTo(fs[i], reply)[0], part);
    }
  }

  lemma GreetingLoad(es: seq<Entry>)
    requires PlainGreeting(es) && es != []
    ensures Calm(Found(Body(es)))
  {
    FittingFound(es);
  }

  /** Launching plain greetings adds requests to calm frames and nothing else. */
  lemma LaunchOneEffects(env: Env, c: Cluster, x: nat, d: Dialled)
    requires PlainGreeting(d.sends)
    ensures var e := LaunchOne(env, c, x, d);
            && |e.nodes| == |c.nodes| && e.directory == c.directory
            && Loads(e.flight, Weight) == Loads(c.flight, Weight)
            && Posted(e.nodes) == Posted(c.nodes)
  {
    if d.to in c.directory && c.directory[d.to] < |c.nodes| {
      var t := c.directory[d.to];
      PostedUpdate(c.nodes, t, Accept(env, c.nodes[t]));
      if d.sends != [] {
        var f := InFlight(x, d.ref, t, c.nodes[t].next, Body(d.sends));
        GreetingLoad(d.sends);
        LoadsAppend(c.flight, [f], Weight);
        LoadsOne(f, Weight);
      } else {
        assert c.flight + [] == c.flight;
      }
    }
  }

  lemma {:induction false} LaunchEffects(env: Env, c: Cluster, x: nat, ds: seq<Dialled>)
    requires Plain(ds)
    ensures var e := Launch(env, c, x, ds);
            && |e.nodes| == |c.nodes| && e.directory == c.directory
            && Loads(e.flight, Weight) == Loads(c.flight, Weight)
            && Posted(e.nodes) == Posted(c.nodes)
    decreases |ds|
  {
    if ds != [] {
      assert PlainGreeting(ds[0].sends);
      LaunchOneEffects(env, c, x, ds[0]);
      LaunchEffects(env, LaunchOne(env, c, x, ds[0]), x, ds[1..]);
    }
  }

  // ------------------------------------------------------------- termination

  datatype Measure = Measure(weight: nat, posted: nat, asks: nat, frames: nat)

  function MeasureOf(c: Cluster): Measure {
    Measure(Loads(c.flight, Weight), Posted(c.nodes), Loads(c.flight, Asks), |c.flight|)
  }

  predicate Less(a: Measure, b: Measure) {
    || a.weight < b.weight
    || (a.weight == b.weight && a.posted < b.posted)
    || (a.weight == b.weight && a.posted == b.posted && a.asks < b.asks)
    || (a.weight == b.weight && a.posted == b.posted && a.asks == b.asks && a.frames < b.frames)
  }

  /** Handlers start with nothing dialled; every step launches what it dialled. */
  predicate NothingDialled(nodes: seq<Node>) {
    forall x :: 0 <= x < |nodes| ==> nodes[x].dialled == []
  }

  lemma {:induction false} LaunchNothingDialled(env: Env, c: Cluster, x: nat, ds: seq<Dialled>)
    requires NothingDialled(c.nodes)
    ensures NothingDialled(Launch(env, c, x, ds).nodes)
    decreases |ds|
  {
    if ds != [] {
      LaunchNothingDialled(env, LaunchOne(env, c, x, ds[0]), x, ds[1..]);
    }
  }

  lemma NextNothingDialled(c: Cluster, ev: Event)
    requires NothingDialled(c.nodes) && Enabled(c, ev)
    ensures NothingDialled(Next(c, ev).nodes)
  {
    match ev
    case Call(x, to, discovery, connections, env) =>
      SettleNothingDialled(env, c, x, Connect(env, c.nodes[x], to, discovery, connections));
    case Admit(x, id) =>
    case Send(f) =>
    case Remove(x, id) =>
    case Deliver(i, env) =>
      var f := c.flight[i];
      SettleNothingDialled(env, c.(flight := Handled(env, c.flight, i, c.nodes[f.dst])), f.dst,
                           KernelNode(env, c.nodes[f.dst], f.dstRef, f.body));
    case RunPosted(x, j, env) =>
      var n := c.nodes[x];
      SettleNothingDialled(env, c, x, Connect(env, n.(posted := Drop(n.posted, j)), n.posted[j], false, 0));
    case Lose(i) =>
  }

  lemma SettleNothingDialled(env: Env, c: Cluster, x: nat, n: Node)
    requires NothingDialled(c.nodes) && x < |c.nodes|
    ensures NothingDialled(Settle(env, c, x, n).nodes)
  {
    LaunchNothingDialled(env, c.(nodes := c.nodes[x := n.(dialled := [])]), x, n.dialled);
  }

  /** What a settled node leaves of the measure. */
  lemma SettleEffects(env: Env, c: Cluster, x: nat, n: Node)
    requires x < |c.nodes| && Plain(n.dialled)
    ensures var e := Settle(env, c, x, n);
            && Loads(e.flight, Weight) == Loads(c.flight, Weight)
            && Posted(e.nodes) == Posted(c.nodes) - |c.nodes[x].posted| + |n.posted|
            && (n.dialled == [] ==> e.flight == c.flight)
  {
    PostedUpdate(c.nodes, x, n.(dialled := []));
    LaunchEffects(env, c.(nodes := c.nodes[x := n.(dialled := [])]), x, n.dialled);
  }

  lemma DeliverDrops(c: Cluster, i: nat, env: Env)
    requires NothingDialled(c.nodes) && Enabled(c, Deliver(i, env))
    ensures Less(MeasureOf(Next(c, Deliver(i, env))), MeasureOf(c))
  {
    var f := c.flight[i];
    var n := c.nodes[f.dst];
    var d := c.(flight := Handled(env, c.flight, i, n));
    FrameEffects(env, n, f.dstRef, Found(f.body));
    SettleEffects(env, d, f.dst, KernelNode(env, n, f.dstRef, f.body));
    HandledLoads(env, c.flight, i, n, Weight);
    HandledLoads(env, c.flight, i, n, Asks);
    if Replied(env, n, f.dstRef, f.body).Some? {
      ReplyLoad(env, n, f.dstRef, f.body);
    }
  }

  lemma PostedDrops(c: Cluster, x: nat, j: nat, env: Env)
    requires NothingDialled(c.nodes) && Enabled(c, RunPosted(x, j, env))
    ensures Less(MeasureOf(Next(c, RunPosted(x, j, env))), MeasureOf(c))
  {
    var n := c.nodes[x];
    ConnectPlain(env, n.(posted := Drop(n.posted, j)), n.posted[j]);
    SettleEffects(env, c, x, Connect(env, n.(posted := Drop(n.posted, j)), n.posted[j], false, 0));
  }

  /** Every step of the cluster lowers the measure, whatever bytes are in flight and whichever dials
      succeed. */
  lemma EveryStepDrops(c: Cluster, ev: Event)
    requires NothingDialled(c.nodes) && Enabled(c, ev) && !Outside(ev)
    ensures Less(MeasureOf(Next(c, ev)), MeasureOf(c))
  {
    match ev
    case Deliver(i, env) => DeliverDrops(c, i, env);
    case RunPosted(x, j, env) => PostedDrops(c, x, j, env);
    case Lose(i) =>
      LoadsDrop(c.flight, i, Weight);
      LoadsDrop(c.flight, i, Asks);
  }

  ghost predicate Follows(states: nat -> Cluster, events: nat -> Event, i: nat) {
    Enabled(states(i), events(i)) && states(i + 1) == Next(states(i), events(i))
  }

  lemma {:induction false} NeverForever(states: nat -> Cluster, events: nat -> Event, i: nat)
    requires forall j: nat :: i <= j ==> Follows(states, events, j) && !Outside(events(j))
    requires NothingDialled(states(i).nodes)
    ensures false
    decreases MeasureOf(states(i)).weight, MeasureOf(states(i)).posted, MeasureOf(states(i)).asks, MeasureOf(states(i)).frames
  {
    assert Follows(states, events, i);
    EveryStepDrops(states(i), events(i));
    NextNothingDialled(states(i), events(i));
    NeverForever(states, events, i + 1);
  }

  /** With finitely many events from outside no run goes on forever: whatever is in flight at the
      start, and whatever the environment does, somewhere the next step is not one the cluster can
      take. */
  lemma RunsTerminate(states: nat -> Cluster, events: nat -> Event, last: nat)
    requires NothingDialled(states(0).nodes)
    requires forall j: nat :: last <= j ==> !Outside(events(j))
    ensures exists i: nat :: !Follows(states, events, i)
  {
    if forall i: nat :: Follows(states, events, i) {
      RunKeeps(states, events, last);
      NeverForever(states, events, last);
    }
  }

  predicate Quiescent(c: Cluster) {
    c.flight == [] && forall x :: 0 <= x < |c.nodes| ==> c.nodes[x].posted == []
  }

  predicate AllAddressed(flight: seq<InFlight>, k: nat) {
    forall i :: 0 <= i < |flight| ==> flight[i].src < k && flight[i].dst < k
  }

  /** Every frame in flight travels between nodes of the cluster. */
  predicate Addressed(c: Cluster) {
    AllAddressed(c.flight, |c.nodes|)
  }

  lemma {:induction false} LaunchAddressed(env: Env, c: Cluster, x: nat, ds: seq<Dialled>)
    requires Addressed(c) && x < |c.nodes|
    ensures Addressed(Launch(env, c, x, ds)) && |Launch(env, c, x, ds).nodes| == |c.nodes|
    decreases |ds|
  {
    if ds != [] {
      LaunchAddressed(env, LaunchOne(env, c, x, ds[0]), x, ds[1..]);
    }
  }

  lemma SettleAddressed(env: Env, c: Cluster, x: nat, n: Node)
    requires Addressed(c) && x < |c.nodes|
    ensures Addressed(Settle(env, c, x, n))
  {
    LaunchAddressed(env, c.(nodes := c.nodes[x := n.(dialled := [])]), x, n.dialled);
  }

  lemma NextAddressed(c: Cluster, ev: Event)
    requires Addressed(c) && Enabled(c, ev)
    ensures Addressed(Next(c, ev))
  {
    match ev
    case Call(x, to, discovery, connections, env) =>
      SettleAddressed(env, c, x, Connect(env, c.nodes[x], to, discovery, connections));
    case Admit(x, id) =>
    case Send(f) =>
    case Remove(x, id) =>
    case Deliver(i, env) =>
      var f := c.flight[i];
      SettleAddressed(env, c.(flight := Handled(env, c.flight, i, c.nodes[f.dst])), f.dst,
                      KernelNode(env, c.nodes[f.dst], f.dstRef, f.body));
    case RunPosted(x, j, env) =>
      var n := c.nodes[x];
      SettleAddressed(env, c, x, Connect(env, n.(posted := Drop(n.posted, j)), n.posted[j], false, 0));
    case Lose(i) =>
  }

  /** A moment of a run: the cluster takes a step, or rests because it has none to take. */
  ghost predicate Proceeds(states: nat -> Cluster, events: nat -> Event, i: nat) {
    Follows(states, events, i) || (Stuck(states(i)) && states(i + 1) == states(i))
  }

  lemma {:induction false} RunKeeps(states: nat -> Cluster, events: nat -> Event, k: nat)
    requires forall j: nat :: j < k ==> Proceeds(states, events, j)
    ensures NothingDialled(states(0).nodes) ==> NothingDialled(states(k).nodes)
    ensures Addressed(states(0)) ==> Addressed(states(k))
  {
    if k > 0 {
      RunKeeps(states, events, k - 1);
      assert Proceeds(states, events, k - 1);
      if Follows(states, events, k - 1) {
        if NothingDialled(states(0).nodes) {
          NextNothingDialled(states(k - 1), events(k - 1));
        }
        if Addressed(states(0)) {
          NextAddressed(states(k - 1), events(k - 1));
        }
      }
    }
  }

  /** The cluster has no step of its own. */
  ghost predicate Stuck(c: Cluster) {
    forall ev: Event :: Enabled(c, ev) ==> Outside(ev)
  }

  /** As long as a frame or a posted dial is left, the cluster can take a step of its own. */
  lemma StuckIffQuiescent(c: Cluster)
    requires Addressed(c)
    ensures Stuck(c) <==> Quiescent(c)
  {
    var env := Env(p => false, i => NIL);
    if c.flight != [] {
      assert Enabled(c, Deliver(0, env));
    }
    forall x | 0 <= x < |c.nodes| && c.nodes[x].posted != []
      ensures Enabled(c, RunPosted(x, 0, env))
    {
    }
  }

  /** Every run with finitely many events from outside reaches quiescence, after the last of them. */
  lemma EveryRunComesToRest(states: nat -> Cluster, events: nat -> Event, last: nat)
    requires NothingDialled(states(0).nodes) && Addressed(states(0))
    requires forall j: nat :: Proceeds(states, events, j)
    requires forall j: nat :: last <= j ==> !Outside(events(j))
    ensures exists k: nat :: last <= k && Quiescent(states(k))
  {
    RunKeeps(states, events, last);
    if k: nat :| last <= k && Stuck(states(k)) {
      RunKeeps(states, events, k);
      StuckIffQuiescent(states(k));
    } else {
      forall j: nat | last <= j
        ensures Follows(states, events, j)
      {
        assert Proceeds(states, events, j);
      }
      NeverForever(states, events, last);
    }
  }
}
