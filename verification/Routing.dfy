/** Choosing the sessions a message goes to: broadcast to nodes and round-robin to one node. */
module Routing {
  import opened Protocol
  import opened Registry
  import opened NodeModel
  import Index = IndexAgreement
  import S = State

  // ------------------------------------------------------------- broadcast

  /** A registered TCP session. */
  predicate TcpFiled(n: Node, filed: seq<Filing>, ref: Ref) {
    exists i :: 0 <= i < |filed| && filed[i].ref == ref && At(n, ref).kind == Tcp
  }

  predicate DistinctNodes(n: Node, targets: seq<Ref>) {
    forall i, j :: 0 <= i < j < |targets| ==> At(n, targets[i]).nodeId != At(n, targets[j]).nodeId
  }

  /** The node id is held by one of the targets. */
  predicate Reached(n: Node, targets: seq<Ref>, node: Uuid) {
    exists j :: 0 <= j < |targets| && At(n, targets[j]).nodeId == node
  }

  /** Exactly the node ids of registered TCP sessions are reached, each by one TCP session. */
  predicate OnePerNode(n: Node, filed: seq<Filing>, targets: seq<Ref>) {
    && (forall j :: 0 <= j < |targets| ==> TcpFiled(n, filed, targets[j]))
    && DistinctNodes(n, targets)
    && (forall i :: 0 <= i < |filed| && At(n, filed[i].ref).kind == Tcp ==> Reached(n, targets, At(n, filed[i].ref).nodeId))
  }

  lemma OnePerNodeSkip(n: Node, filed: seq<Filing>, i: nat, targets: seq<Ref>)
    requires i < |filed| && OnePerNode(n, filed[..i], targets)
    requires At(n, filed[i].ref).kind == Tcp ==> Reached(n, targets, At(n, filed[i].ref).nodeId)
    ensures OnePerNode(n, filed[..i + 1], targets)
  {
    WiderFiled(n, filed, i, targets);
    forall k | 0 <= k < i + 1 && At(n, filed[k].ref).kind == Tcp
      ensures Reached(n, targets, At(n, filed[k].ref).nodeId)
    {
      assert k < i ==> filed[..i][k] == filed[k];
    }
  }

  lemma WiderFiled(n: Node, filed: seq<Filing>, i: nat, targets: seq<Ref>)
    requires i < |filed| && forall j :: 0 <= j < |targets| ==> TcpFiled(n, filed[..i], targets[j])
    ensures forall j :: 0 <= j < |targets| ==> TcpFiled(n, filed[..i + 1], targets[j])
  {
    forall j | 0 <= j < |targets|
      ensures TcpFiled(n, filed[..i + 1], targets[j])
    {
      assert TcpFiled(n, filed[..i], targets[j]);
      var k :| 0 <= k < |filed[..i]| && filed[..i][k].ref == targets[j];
      assert filed[..i + 1][k] == filed[..i][k];
    }
  }

  lemma OnePerNodeTake(n: Node, filed: seq<Filing>, i: nat, targets: seq<Ref>)
    requires i < |filed| && OnePerNode(n, filed[..i], targets)
    requires At(n, filed[i].ref).kind == Tcp && !Reached(n, targets, At(n, filed[i].ref).nodeId)
    ensures OnePerNode(n, filed[..i + 1], targets + [filed[i].ref])
  {
    var more := targets + [filed[i].ref];
    WiderFiled(n, filed, i, targets);
    assert filed[..i + 1][i].ref == filed[i].ref;
    forall k | 0 <= k < i + 1 && At(n, filed[k].ref).kind == Tcp
      ensures Reached(n, more, At(n, filed[k].ref).nodeId)
    {
      if k < i {
        assert filed[..i][k] == filed[k];
        var j :| 0 <= j < |targets| && At(n, targets[j]).nodeId == At(n, filed[k].ref).nodeId;
        assert more[j] == targets[j];
      } else {
        assert more[|targets|] == filed[i].ref;
      }
    }
  }

  /** The targets of a broadcast, collected with the list of node ids already visited. */
  method BroadcastTargets(state: S.State) returns (targets: seq<Ref>)
    requires state.Valid()
    ensures OnePerNode(state.View(), state.sessions.filed, targets)
  {
    targets := [];
    var visited: seq<Uuid> := [];
    var filed := state.sessions.filed;
    ghost var n := state.View();
    for i := 0 to |filed|
      invariant |visited| == |targets| && forall j :: 0 <= j < |targets| ==> visited[j] == At(n, targets[j]).nodeId
      invariant OnePerNode(n, filed[..i], targets)
    {
      assert Filed(n, filed[i]);
      var s := state.objects[filed[i].ref];
      if s.kind == Tcp && s.nodeId !in visited {
        OnePerNodeTake(n, filed, i, targets);
        visited, targets := visited + [s.nodeId], targets + [filed[i].ref];
      } else {
        OnePerNodeSkip(n, filed, i, targets);
      }
    }
    assert filed[..|filed|] == filed;
  }

  // ----------------------------------------------------------- round robin

  function Counter(indices: map<Uuid, nat>, node: Uuid): nat {
    if node in indices then indices[node] else 0
  }

  class Balancer {
    var indices: map<Uuid, nat>

    constructor ()
      ensures indices == map[]
    {
      indices := map[];
    }

    /** The next session of the node's range, if it has any; the 64-bit counter moves on by one. */
    method Pick(node: Uuid, range: seq<Ref>) returns (target: Option<Ref>)
      modifies this
      ensures range == [] ==> target == None && indices == old(indices)
      ensures range != [] ==>
                && target == Some(range[Counter(old(indices), node) % |range|])
                && indices == old(indices)[node := (Counter(old(indices), node) + 1) % 0x1_0000_0000_0000_0000]
    {
      if range == [] {
        return None;
      }
      var index := Counter(indices, node);
      indices := indices[node := (index + 1) % 0x1_0000_0000_0000_0000];
      target := Some(range[index % |range|]);
    }
  }

  /** Whether a session has a key now. */
  method TestKey(state: S.State, ref: Ref, key: Key) returns (has: bool)
    ensures has == Index.HasKey(state.View(), ref, key)
  {
    var s := if ref in state.objects then state.objects[ref] else BLANK;
    match key
    case ByNode(k) => has := s.nodeId == k;
    case ByType(t) => has := s.kind == t;
    case ByNodeAndType(k, t) => has := s.nodeId == k && s.kind == t;
  }

  lemma LookupSnoc(n: Node, refs: seq<Ref>, i: nat, key: Key)
    requires i < |refs|
    ensures Index.Lookup(n, refs[..i + 1], key) ==
            if Index.HasKey(n, refs[i], key) then Index.Lookup(n, refs[..i], key) + [refs[i]] else Index.Lookup(n, refs[..i], key)
  {
    assert refs[..i + 1] == refs[..i] + [refs[i]];
    Index.LookupAppend(n, refs[..i], [refs[i]], key);
  }

  /** The sessions an index lookup reaches by a key. */
  method LookupRange(state: S.State, key: Key) returns (refs: seq<Ref>)
    requires state.Valid()
    ensures refs == Index.Lookup(state.View(), Select(state.sessions.filed, key), key)
  {
    var bucket := state.sessions.Range(key);
    ghost var n := state.View();
    refs := [];
    for i := 0 to |bucket|
      invariant refs == Index.Lookup(n, bucket[..i], key)
    {
      LookupSnoc(n, bucket, i, key);
      var has := TestKey(state, bucket[i], key);
      if has {
        refs := refs + [bucket[i]];
      }
    }
    assert bucket[..|bucket|] == bucket;
  }

  /** Send to one TCP session of a node, in turn. */
  method SendToNode(state: S.State, balancer: Balancer, node: Uuid) returns (target: Option<Ref>)
    requires state.Valid()
    modifies balancer
    ensures var range := NodeRange(state.View(), node);
            if range == [] then
              target == None && balancer.indices == old(balancer.indices)
            else
              && target == Some(range[Counter(old(balancer.indices), node) % |range|])
              && balancer.indices == old(balancer.indices)[node := (Counter(old(balancer.indices), node) + 1) % 0x1_0000_0000_0000_0000]
  {
    var range := LookupRange(state, ByNodeAndType(node, Tcp));
    target := balancer.Pick(node, range);
  }

  /** How often a session is among the targets. */
  function Times(targets: seq<Ref>, r: Ref): nat {
    if targets == [] then 0 else Times(targets[..|targets| - 1], r) + if targets[|targets| - 1] == r then 1 else 0
  }

  /** How many numbers below `n` leave remainder `j`. */
  function Below(n: nat, c: nat, j: nat): nat
    requires c > 0
  {
    n / c + if n % c > j then 1 else 0
  }

  lemma DivUnique(n: nat, c: nat, q: nat, r: nat)
    requires r < c && n == q * c + r
    ensures n / c == q && n % c == r
  {
    var d := n / c - q;
    assert n == (n / c) * c + n % c;
    assert d * c == r - n % c;
    assert d >= 1 ==> d * c >= c;
    assert d <= -1 ==> d * c <= -(c as int);
  }

  lemma DivStep(n: nat, c: nat)
    requires c > 0
    ensures (n + 1) / c == (if n % c + 1 < c then n / c else n / c + 1)
    ensures (n + 1) % c == (if n % c + 1 < c then n % c + 1 else 0)
  {
    assert n == (n / c) * c + n % c;
    if n % c + 1 < c {
      DivUnique(n + 1, c, n / c, n % c + 1);
    } else {
      assert (n / c + 1) * c == (n / c) * c + c;
      DivUnique(n + 1, c, n / c + 1, 0);
    }
  }

  predicate Distinct(refs: seq<Ref>) {
    forall i, j :: 0 <= i < j < |refs| ==> refs[i] != refs[j]
  }

  /** The sessions picked by `m` sends in a row from counter value `start`. */
  function Targets(range: seq<Ref>, start: nat, m: nat): seq<Ref>
    requires range != []
  {
    if m == 0 then [] else Targets(range, start, m - 1) + [range[(start + m - 1) % |range|]]
  }

  lemma {:induction false} TimesBelow(range: seq<Ref>, start: nat, m: nat, j: nat)
    requires Distinct(range) && j < |range|
    ensures Times(Targets(range, start, m), range[j]) == Below(start + m, |range|, j) - Below(start, |range|, j)
  {
    if m > 0 {
      var before, place := Targets(range, start, m - 1), (start + m - 1) % |range|;
      TimesBelow(range, start, m - 1, j);
      var all := before + [range[place]];
      assert all[..|all| - 1] == before;
      assert range[place] == range[j] <==> place == j;
      DivStep(start + m - 1, |range|);
    }
  }

  lemma SplitDifference(start: nat, m: nat, c: nat)
    requires c > 0
    ensures start % c <= (start + m) % c ==>
              m / c == (start + m) / c - start / c && m % c == (start + m) % c - start % c
    ensures start % c > (start + m) % c ==>
              m / c == (start + m) / c - start / c - 1 && m % c == (start + m) % c - start % c + c
  {
    var q, r, q', r' := start / c, start % c, (start + m) / c, (start + m) % c;
    assert start == q * c + r && start + m == q' * c + r';
    assert m == (q' - q) * c + (r' - r);
    if r <= r' {
      NonNegative(q' - q, c, r' - r, m);
      DivUnique(m, c, q' - q, r' - r);
    } else {
      assert m == (q' - q - 1) * c + (r' - r + c);
      NonNegative(q' - q - 1, c, r' - r + c, m);
      DivUnique(m, c, q' - q - 1, r' - r + c);
    }
  }

  lemma NonNegative(q: int, c: nat, r: int, m: nat)
    requires c > 0 && r < c && m == q * c + r
    ensures q >= 0
  {
    assert q <= -1 ==> q * c <= -(c as int);
  }

  /** Fairness: of any `m` sends in a row every session of a range without repetitions gets either
      the floor or the ceiling of `m` over the number of sessions. */
  predicate FairlyPicked(range: seq<Ref>, targets: seq<Ref>)
    requires range != []
  {
    var m, c := |targets|, |range|;
    forall j :: 0 <= j < c ==> m / c <= Times(targets, range[j]) <= m / c + if m % c == 0 then 0 else 1
  }

  lemma {:induction false} TargetsCount(range: seq<Ref>, start: nat, m: nat)
    requires range != []
    ensures |Targets(range, start, m)| == m
  {
    if m > 0 {
      TargetsCount(range, start, m - 1);
    }
  }

  lemma Fair(range: seq<Ref>, start: nat, m: nat)
    requires range != [] && Distinct(range)
    ensures FairlyPicked(range, Targets(range, start, m))
  {
    TargetsCount(range, start, m);
    SplitDifference(start, m, |range|);
    forall j | 0 <= j < |range|
      ensures Times(Targets(range, start, m), range[j]) == Below(start + m, |range|, j) - Below(start, |range|, j)
    {
      TimesBelow(range, start, m, j);
    }
  }

  /** As many sends in a row as there are sessions go to each exactly once. */
  lemma OncePerRound(range: seq<Ref>, start: nat, j: nat)
    requires Distinct(range) && j < |range|
    ensures Times(Targets(range, start, |range|), range[j]) == 1
  {
    TimesBelow(range, start, |range|, j);
    SplitDifference(start, |range|, |range|);
    DivUnique(|range|, |range|, 1, 0);
  }

  // ------------------------------------------------------ the range of a lookup

  lemma {:induction false} FiledScanDistinct(n: Node, filed: seq<Filing>, key: Key)
    requires UniqueRefs(filed)
    ensures Distinct(Index.FiledScan(n, filed, key))
    ensures forall r :: r in Index.FiledScan(n, filed, key) ==> RefFiled(filed, r)
  {
    if filed != [] {
      var rest := Index.FiledScan(n, filed[1..], key);
      FiledScanDistinct(n, filed[1..], key);
      forall r | r in rest
        ensures RefFiled(filed, r) && r != filed[0].ref
      {
        var i :| 0 <= i < |filed[1..]| && filed[1..][i].ref == r;
        assert filed[i + 1].ref == r;
      }
      ScanCons(filed, rest, Index.FiledScan(n, filed, key));
    }
  }

  lemma ScanCons(filed: seq<Filing>, rest: seq<Ref>, all: seq<Ref>)
    requires filed != [] && Distinct(rest) && filed[0].ref !in rest
    requires all == [filed[0].ref] + rest || all == [] + rest
    ensures Distinct(all)
    ensures forall r :: r in all ==> r in rest || RefFiled(filed, r)
  {
    assert RefFiled(filed, filed[0].ref);
    assert [] + rest == rest;
  }

  /** A lookup finds no session twice. */
  lemma LookupDistinct(n: Node, key: Key)
    requires UniqueRefs(n.filed)
    ensures Distinct(Index.Lookup(n, Select(n.filed, key), key))
  {
    Index.LookupIsFiledScan(n, n.filed, key);
    FiledScanDistinct(n, n.filed, key);
  }

  /** The TCP sessions of a node that an index lookup finds. */
  ghost function NodeRange(n: Node, node: Uuid): seq<Ref> {
    Index.Lookup(n, Select(n.filed, ByNodeAndType(node, Tcp)), ByNodeAndType(node, Tcp))
  }

  /** `m` sends in a row to one node while the sessions stay as they are: each of the sessions found
      is picked its fair share of times, and no other. */
  method SendMany(state: S.State, balancer: Balancer, node: Uuid, m: nat) returns (targets: seq<Ref>)
    requires state.Valid() && Counter(balancer.indices, node) + m < 0x1_0000_0000_0000_0000
    modifies balancer
    ensures var range := NodeRange(state.View(), node);
            if range == [] then
              targets == []
            else
              && targets == Targets(range, Counter(old(balancer.indices), node), m)
              && |targets| == m && FairlyPicked(range, targets)
  {
    targets := [];
    ghost var range := NodeRange(state.View(), node);
    ghost var start := Counter(balancer.indices, node);
    for i := 0 to m
      invariant range == [] ==> targets == []
      invariant range != [] ==> Counter(balancer.indices, node) == start + i && targets == Targets(range, start, i)
    {
      var target := SendToNode(state, balancer, node);
      if target.Some? {
        targets := targets + [target.value];
      }
    }
    if range != [] {
      TargetsCount(range, start, m);
      LookupDistinct(state.View(), ByNodeAndType(node, Tcp));
      Fair(range, start, m);
    }
  }
}
