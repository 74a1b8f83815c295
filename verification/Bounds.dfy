/**
 Connections when things go wrong: dials fail, ids are taken, frames are lost, sessions end. No call
 without discovery ever leaves more sessions at an end than it would have if all had gone well.
 */
module Bounds {
  import opened Bytes
  import opened Protocol
  import opened Registry
  import opened Discovery
  import opened NodeModel
  import opened Frames
  import opened Kernel
  import opened Conversation
  import opened Arrivals
  import opened Bootstrap
  import opened Connections

  predicate TameFrame(c: Cluster, f: InFlight) {
    f.src < |c.nodes| && f.dst < |c.nodes| && AllQuiet(Found(f.body))
  }

  predicate TameNode(c: Cluster, x: nat)
    requires x < |c.nodes|
  {
    Located(c, x) && c.nodes[x].dialled == []
  }

  /** What is in flight asks for no listing and mirrors nothing; listeners are found at their port. */
  predicate Tame(c: Cluster) {
    && (forall i :: 0 <= i < |c.flight| ==> TameFrame(c, c.flight[i]))
    && (forall x :: 0 <= x < |c.nodes| ==> TameNode(c, x))
  }

  /** Any step of the cluster, any call without discovery, and the end of any session. */
  ghost predicate Modest(c: Cluster, ev: Event) {
    Enabled(c, ev) && !ev.Admit? && !ev.Send? && (ev.Call? ==> !ev.discovery)
  }

  ghost predicate MovesModestly(c: Cluster, ev: Event, d: Cluster) {
    Modest(c, ev) && d == Next(c, ev)
  }

  lemma TameDialled(c: Cluster)
    requires Tame(c)
    ensures NothingDialled(c.nodes)
  {
    forall x | 0 <= x < |c.nodes|
      ensures c.nodes[x].dialled == []
    {
      assert TameNode(c, x);
    }
  }

  lemma StaysTame(c: Cluster, d: Cluster, kept: seq<InFlight>, added: seq<InFlight>)
    requires Tame(c) && SameShape(c, d) && d.flight == kept + added
    requires forall i :: 0 <= i < |kept| ==> kept[i] in c.flight
    requires forall i :: 0 <= i < |added| ==> TameFrame(d, added[i])
    ensures Tame(d)
  {
    forall i | 0 <= i < |d.flight|
      ensures TameFrame(d, d.flight[i])
    {
      if i < |kept| {
        assert kept[i] in c.flight;
        assert TameFrame(c, kept[i]);
      } else {
        assert d.flight[i] == added[i - |kept|];
      }
    }
    forall x | 0 <= x < |d.nodes|
      ensures TameNode(d, x)
    {
      assert TameNode(c, x);
    }
  }

  // ------------------------------------------------------------ making a link

  lemma AcceptAtMost(env: Env, n: Node)
    ensures var m := Accept(env, n);
            |m.filed| <= |n.filed| + 1 && m.posted == n.posted && m.port == n.port && m.dialled == n.dialled
  {
  }

  /** The dials a connection of `x` to `to` can come to: none, one that is dropped, one that greets. */
  predicate Attempt(env: Env, n: Node, to: Peer, connections: Word, ds: seq<Dialled>) {
    || ds == []
    || (env.reach(to) && |ds| == 1 && ds[0].to == to && (ds[0].sends == [] || ds[0].sends == Greeting(env, n, false, connections)))
  }

  lemma ConnectAtMost(env: Env, n: Node, to: Peer, connections: Word)
    requires n.dialled == []
    ensures var m := Connect(env, n, to, false, connections);
            && (env.reach(to) || m == n)
            && |m.filed| <= |n.filed| + 1 && m.posted == n.posted && m.port == n.port
            && Attempt(env, n, to, connections, m.dialled)
  {
  }

  predicate Greets(env: Env, n: Node, x: nat, t: nat, connections: Word, f: InFlight) {
    f.src == x && f.dst == t && f.body == Body(Greeting(env, n, false, connections))
  }

  /** What a link can change: at most a session at each end, and its greeting in flight. */
  ghost predicate Grows(env: Env, c: Cluster, d: Cluster, x: nat, t: nat, connections: Word)
    requires x < |c.nodes|
  {
    && SameShape(c, d)
    && (forall z :: 0 <= z < |c.nodes| ==> |d.nodes[z].filed| <= |c.nodes[z].filed| + Ends(1, z, x, t))
    && (forall z :: 0 <= z < |c.nodes| ==> d.nodes[z].posted == c.nodes[z].posted)
    && (d.flight == c.flight
        || exists f :: Greets(env, c.nodes[x], x, t, connections, f) && d.flight == c.flight + [f])
  }

  lemma LaunchGrows(env: Env, c: Cluster, x: nat, m: Node, dial: Dialled, connections: Word)
    requires x < |c.nodes| && NothingDialled(c.nodes) && Listener(c, dial.to)
    requires |m.filed| <= |c.nodes[x].filed| + 1 && m.posted == c.nodes[x].posted && m.port == c.nodes[x].port && m.dialled == []
    requires dial.sends == [] || dial.sends == Greeting(env, c.nodes[x], false, connections)
    ensures Grows(env, c, LaunchOne(env, c.(nodes := c.nodes[x := m]), x, dial), x, c.directory[dial.to], connections)
  {
    var e := c.(nodes := c.nodes[x := m]);
    var t := c.directory[dial.to];
    AcceptAtMost(env, e.nodes[t]);
    assert c.flight + [] == c.flight;
    var d := LaunchOne(env, e, x, dial);
    if dial.sends != [] {
      var f := d.flight[|c.flight|];
      assert Greets(env, c.nodes[x], x, t, connections, f) && d.flight == c.flight + [f];
    }
  }

  lemma LinkGrows(env: Env, c: Cluster, x: nat, to: Peer, connections: Word)
    requires x < |c.nodes| && NothingDialled(c.nodes) && Truthful(c, env)
    ensures var d := Connections.Link(env, c, x, to, connections);
            d == c || (Listener(c, to) && Grows(env, c, d, x, c.directory[to], connections))
  {
    var n := c.nodes[x];
    var m := Connect(env, n, to, false, connections);
    ConnectAtMost(env, n, to, connections);
    if env.reach(to) {
      assert |m.dialled| == 1 && m.dialled == [m.dialled[0]];
      LaunchSingle(env, c.(nodes := c.nodes[x := m.(dialled := [])]), x, m.dialled[0]);
      LaunchGrows(env, c, x, m.(dialled := []), m.dialled[0], connections);
    } else {
      assert c.nodes[x := n.(dialled := [])] == c.nodes;
    }
  }

  lemma GreetsQuiet(env: Env, n: Node, x: nat, t: nat, connections: Word, f: InFlight)
    requires Greets(env, n, x, t, connections, f)
    ensures AllQuiet(Found(f.body))
  {
    GreetingFound(env, n, false, connections);
    GreetingFans(env, n, connections);
  }

  lemma GrowsTame(env: Env, c: Cluster, d: Cluster, x: nat, t: nat, connections: Word)
    requires Tame(c) && x < |c.nodes| && t < |c.nodes| && Grows(env, c, d, x, t, connections)
    ensures Tame(d)
  {
    if d.flight == c.flight {
      assert c.flight + [] == c.flight;
      StaysTame(c, d, c.flight, []);
    } else {
      var f :| Greets(env, c.nodes[x], x, t, connections, f) && d.flight == c.flight + [f];
      GreetsQuiet(env, c.nodes[x], x, t, connections, f);
      StaysTame(c, d, c.flight, [f]);
    }
  }

  lemma GrowsTotal(env: Env, c: Cluster, d: Cluster, x: nat, t: nat, connections: Word, z: nat)
    requires x < |c.nodes| && Located(c, x) && z < |c.nodes| && Grows(env, c, d, x, t, connections)
    ensures Total(d, z) <= Total(c, z) + Ends(Links(c.nodes[x].port, connections), z, x, t)
  {
    PostedSame(c.directory, d.nodes, c.nodes, |c.nodes|, z);
    if d.flight != c.flight {
      var f :| Greets(env, c.nodes[x], x, t, connections, f) && d.flight == c.flight + [f];
      GreetingFanned(env, c, x, t, f, connections, z);
    }
  }

  /** The sessions a dial of node `x` can bring about at node `z`. */
  function Share(c: Cluster, x: nat, to: Peer, k: nat, z: nat): nat {
    if to in c.directory then Ends(k, z, x, c.directory[to]) else 0
  }

  lemma LinkBound(env: Env, c: Cluster, x: nat, to: Peer, connections: Word, z: nat)
    requires Tame(c) && x < |c.nodes| && z < |c.nodes| && Truthful(c, env)
    ensures var d := Connections.Link(env, c, x, to, connections);
            && Tame(d) && |d.nodes| == |c.nodes|
            && Total(d, z) <= Total(c, z) + Share(c, x, to, Links(c.nodes[x].port, connections), z)
  {
    TameDialled(c);
    var d := Connections.Link(env, c, x, to, connections);
    LinkGrows(env, c, x, to, connections);
    if d != c {
      assert TameNode(c, x);
      GrowsTame(env, c, d, x, c.directory[to], connections);
      GrowsTotal(env, c, d, x, c.directory[to], connections, z);
    }
  }

  // --------------------------------------------------------------- every step

  lemma TakenBound(c: Cluster, x: nat, j: nat, z: nat)
    requires Tame(c) && x < |c.nodes| && j < |c.nodes[x].posted| && z < |c.nodes|
    ensures Tame(Taken(c, x, j)) && Total(Taken(c, x, j), z) == Total(c, z) - Share(c, x, c.nodes[x].posted[j], 1, z)
  {
    var d := Taken(c, x, j);
    TameDialled(c);
    assert c.flight + [] == c.flight;
    StaysTame(c, d, c.flight, []);
    PostedReplace(c.directory, c.nodes, x, d.nodes[x], |c.nodes|, z);
    DialsDrop(c.directory, c.nodes[x].posted, j, x, z);
  }

  lemma PostedBound(c: Cluster, x: nat, j: nat, env: Env, z: nat)
    requires Tame(c) && Enabled(c, RunPosted(x, j, env)) && z < |c.nodes|
    ensures var d := Next(c, RunPosted(x, j, env));
            Tame(d) && |d.nodes| == |c.nodes| && Total(d, z) <= Total(c, z)
  {
    PostedIsLink(c, x, j, env);
    TakenBound(c, x, j, z);
    LinkBound(env, Taken(c, x, j), x, c.nodes[x].posted[j], 0, z);
  }

  lemma DeliveredSameShape(c: Cluster, i: nat, env: Env)
    requires NothingDialled(c.nodes) && i < |c.flight| && TameFrame(c, c.flight[i])
    ensures SameShape(c, Delivered(env, c, i))
  {
    var f := c.flight[i];
    FramePosts(env, c.nodes[f.dst], f.dstRef, Found(f.body));
  }

  lemma DeliverTame(c: Cluster, i: nat, env: Env)
    requires Tame(c) && i < |c.flight| && TameFrame(c, c.flight[i])
    ensures Tame(Delivered(env, c, i))
  {
    var f := c.flight[i];
    var reply := Replied(env, c.nodes[f.dst], f.dstRef, f.body);
    TameDialled(c);
    DeliveredSameShape(c, i, env);
    if reply != None {
      RepliedQuiet(env, c.nodes[f.dst], f.dstRef, f.body);
    }
    StaysTame(c, Delivered(env, c, i), Drop(c.flight, i), ReplyTo(f, reply));
  }

  lemma DeliverBound(c: Cluster, i: nat, env: Env, z: nat)
    requires Tame(c) && Enabled(c, Deliver(i, env)) && z < |c.nodes|
    ensures var d := Next(c, Deliver(i, env));
            Tame(d) && |d.nodes| == |c.nodes| && Total(d, z) <= Total(c, z)
  {
    assert TameFrame(c, c.flight[i]) && TameNode(c, c.flight[i].dst);
    DeliverIsDelivered(c, i, env);
    DeliveredTotal(env, c, i, z);
    DeliverTame(c, i, env);
  }

  lemma {:induction false} EraseShrinks(filed: seq<Filing>, id: Uuid)
    ensures |WithoutId(filed, id)| <= |filed|
  {
    if filed != [] {
      EraseShrinks(filed[1..], id);
    }
  }

  lemma RemoveBound(c: Cluster, x: nat, id: Uuid, z: nat)
    requires Tame(c) && x < |c.nodes| && z < |c.nodes|
    ensures var d := Next(c, Remove(x, id));
            Tame(d) && |d.nodes| == |c.nodes| && Total(d, z) <= Total(c, z)
  {
    var d := Next(c, Remove(x, id));
    TameDialled(c);
    EraseShrinks(c.nodes[x].filed, id);
    PostedSame(c.directory, d.nodes, c.nodes, |c.nodes|, z);
    assert c.flight + [] == c.flight;
    StaysTame(c, d, c.flight, []);
  }

  lemma LoseTame(c: Cluster, i: nat)
    requires Tame(c) && i < |c.flight|
    ensures Tame(c.(flight := Drop(c.flight, i)))
  {
    TameDialled(c);
    assert Drop(c.flight, i) + [] == Drop(c.flight, i);
    StaysTame(c, c.(flight := Drop(c.flight, i)), Drop(c.flight, i), []);
  }

  lemma LoseTotal(c: Cluster, i: nat, z: nat)
    requires i < |c.flight| && z < |c.nodes|
    ensures Total(c.(flight := Drop(c.flight, i)), z) <= Total(c, z)
  {
    FannedDrop(c.directory, c.flight, i, z);
  }

  lemma LoseBound(c: Cluster, i: nat, z: nat)
    requires Tame(c) && i < |c.flight| && z < |c.nodes|
    ensures var d := c.(flight := Drop(c.flight, i));
            Tame(d) && Total(d, z) <= Total(c, z)
  {
    LoseTame(c, i);
    LoseTotal(c, i, z);
  }

  /** Whatever fails, no step but a call raises a node's total, and a call by no more than its links. */
  lemma StepBound(c: Cluster, ev: Event, d: Cluster, z: nat)
    requires Tame(c) && MovesModestly(c, ev, d) && z < |c.nodes|
    ensures Tame(d) && |d.nodes| == |c.nodes| && Total(d, z) <= Total(c, z) + Gain(c, ev, z)
  {
    match ev
    case Call(x, to, discovery, connections, env) => LinkBound(env, c, x, to, connections, z);
    case Remove(x, id) => RemoveBound(c, x, id, z);
    case Deliver(i, env) => DeliverBound(c, i, env, z);
    case RunPosted(x, j, env) => PostedBound(c, x, j, env, z);
    case Lose(i) => LoseBound(c, i, z);
  }

  ghost predicate ProceedsModestly(states: nat -> Cluster, events: nat -> Event, i: nat) {
    MovesModestly(states(i), events(i), states(i + 1))
  }

  ghost predicate Within(c: Cluster, size: nat, z: nat, limit: nat) {
    Tame(c) && |c.nodes| == size && z < size && Total(c, z) <= limit
  }

  lemma StepWithin(c: Cluster, ev: Event, d: Cluster, size: nat, z: nat, limit: nat)
    requires Within(c, size, z, limit) && MovesModestly(c, ev, d)
    ensures Within(d, size, z, limit + Gain(c, ev, z))
  {
    StepBound(c, ev, d, z);
  }

  lemma {:induction false} RunWithin(states: nat -> Cluster, events: nat -> Event, k: nat, size: nat, z: nat, limit: nat)
    requires Within(states(0), size, z, limit)
    requires forall i: nat :: i < k ==> ProceedsModestly(states, events, i)
    ensures Within(states(k), size, z, limit + Gains(states, events, k, z))
  {
    if k > 0 {
      RunWithin(states, events, k - 1, size, z, limit);
      assert ProceedsModestly(states, events, k - 1);
      StepWithin(states(k - 1), events(k - 1), states(k), size, z, limit + Gains(states, events, k - 1, z));
    }
  }

  lemma RunBound(states: nat -> Cluster, events: nat -> Event, k: nat, z: nat)
    requires Tame(states(0)) && z < |states(0).nodes|
    requires forall i: nat :: i < k ==> ProceedsModestly(states, events, i)
    ensures Tame(states(k)) && |states(k).nodes| == |states(0).nodes|
    ensures Total(states(k), z) <= Total(states(0), z) + Gains(states, events, k, z)
  {
    RunWithin(states, events, k, |states(0).nodes|, z, Total(states(0), z));
  }

  /** At no moment of a run from a quiescent state does a node have more new sessions than its calls
      account for: with all that can fail, max(1, n) for each call of which it is an end. */
  lemma SessionsAtMost(states: nat -> Cluster, events: nat -> Event, k: nat, z: nat)
    requires Tame(states(0)) && Quiescent(states(0)) && z < |states(0).nodes|
    requires forall i: nat :: i < k ==> ProceedsModestly(states, events, i)
    ensures z < |states(k).nodes|
    ensures |states(k).nodes[z].filed| <= |states(0).nodes[z].filed| + Gains(states, events, k, z)
  {
    RunBound(states, events, k, z);
    NonePosted(states(0).directory, states(0).nodes, |states(0).nodes|, z);
  }

  /** One call that asks for `n` connections: whatever fails, neither end ever has more than max(1, n)
      new sessions, and no other node any. */
  lemma AtMostPerCall(states: nat -> Cluster, events: nat -> Event, k: nat,
                      a: nat, to: Peer, n: Word, env: Env, z: nat)
    requires Tame(states(0)) && Quiescent(states(0)) && z < |states(0).nodes| && k > 0
    requires forall i: nat :: i < k ==> ProceedsModestly(states, events, i)
    requires events(0) == Call(a, to, false, n, env) && forall i: nat :: 0 < i < k ==> !events(i).Call?
    requires a < |states(0).nodes| && (to in states(0).directory ==> states(0).directory[to] != a)
    ensures var asked: nat := if n > 1 then n else 1;
            && z < |states(k).nodes|
            && |states(k).nodes[z].filed| <= |states(0).nodes[z].filed| +
               if to in states(0).directory && (z == a || z == states(0).directory[to]) then asked else 0
  {
    SessionsAtMost(states, events, k, z);
    OneCallGains(states, events, k, z);
  }
}
