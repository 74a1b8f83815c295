/**
 The body of a discovery response. The builder writes every (port, host size) pair before any
 host; the reader expects each host right after its own pair.
 */
module Discovery {
  import opened Bytes
  import opened Protocol
  import opened Frames

  datatype Peer = Peer(host: Bytes, port: Word)

  function Pair(p: Peer): (r: Bytes)
    ensures |r| == 4
  {
    LE16(p.port) + LE16(|p.host|)
  }

  function Pairs(ps: seq<Peer>): seq<Bytes> {
    seq(|ps|, i requires 0 <= i < |ps| => Pair(ps[i]))
  }

  function Hosts(ps: seq<Peer>): seq<Bytes> {
    seq(|ps|, i requires 0 <= i < |ps| => ps[i].host)
  }

  /** The layout that is written. */
  function Grouped(ps: seq<Peer>): Bytes {
    Concat(Pairs(ps)) + Concat(Hosts(ps))
  }

  function ListBody(ps: seq<Peer>): Bytes {
    LE32(|ps|) + Grouped(ps)
  }

  function Block(p: Peer): Bytes {
    Pair(p) + p.host
  }

  /** The layout that is read. */
  function Blocks(ps: seq<Peer>): seq<Bytes> {
    seq(|ps|, i requires 0 <= i < |ps| => Block(ps[i]))
  }

  function ReadPeers(body: Bytes, at: nat, count: nat): seq<Peer>
    requires at <= |body|
    decreases count
  {
    if count == 0 || at + 4 > |body| then
      []
    else
      var port, size := At16(body, at), At16(body, at + 2);
      if at + 4 + size > |body| then
        []
      else
        [Peer(body[at + 4..at + 4 + size], port)] + ReadPeers(body, at + 4 + size, count - 1)
  }

  /** The peers a discovery response decodes to, for any declared count. */
  function ReadList(body: Bytes): seq<Peer> {
    if |body| < 4 then [] else ReadPeers(body, 4, At32(body, 0))
  }

  /** One turn of the reader: the next peer and the cursor after it, or the end of the list. The
      cursor never passes the end of the body. */
  method ReadOne(body: Bytes, at: nat, ghost count: nat) returns (p: Option<Peer>, next: nat)
    requires at <= |body| && count > 0
    ensures at <= next <= |body|
    ensures p.None? ==> ReadPeers(body, at, count) == []
    ensures p.Some? ==> ReadPeers(body, at, count) == [p.value] + ReadPeers(body, next, count - 1)
  {
    next := at;
    if at + 4 > |body| {
      return None, at;
    }
    var port := At16(body, next);
    next := next + 2;
    var size: nat := At16(body, next);
    next := next + 2;
    if next + size > |body| {
      return None, next;
    }
    p := Some(Peer(body[next..next + size], port));
    next := next + size;
  }

  // ------------------------------------------------------- what the builder writes

  /** Pieces that lie back to back are found at the sum of the lengths before them. */
  lemma {:induction false} PieceAt(s: Bytes, at: nat, end: nat, ps: seq<Bytes>, k: nat)
    requires Cuts(s, at, end, ps) && k < |ps|
    ensures var start := StartOf(at, LengthsOf(ps), k);
            start + |ps[k]| <= end && s[start..start + |ps[k]|] == ps[k]
    decreases k
  {
    CutsTail(s, at, end, ps);
    if k > 0 {
      PieceAt(s, at + |ps[0]|, end, ps[1..], k - 1);
      StartOfTail(at, LengthsOf(ps), k);
      assert LengthsOf(ps)[1..] == LengthsOf(ps[1..]);
    }
  }

  lemma {:induction false} PairStart(ps: seq<Peer>, k: nat)
    requires k <= |ps|
    ensures StartOf(4, LengthsOf(Pairs(ps)), k) == 4 + 4 * k
  {
    if k > 0 {
      PairStart(ps, k - 1);
    }
  }

  lemma PairPieces(ps: seq<Peer>)
    ensures Cuts(ListBody(ps), 4, |ListBody(ps)|, Pairs(ps))
  {
    LayoutSizes(ps);
    assert ListBody(ps)[4..4 + 4 * |ps|] == Concat(Pairs(ps));
  }

  lemma HostPieces(ps: seq<Peer>)
    ensures Cuts(ListBody(ps), 4 + 4 * |ps|, |ListBody(ps)|, Hosts(ps))
  {
    LayoutSizes(ps);
    var mid := 4 + 4 * |ps|;
    assert ListBody(ps)[mid..mid + |Concat(Hosts(ps))|] == Concat(Hosts(ps));
  }

  lemma PairReads(s: Bytes, at: nat, p: Peer)
    requires at + 4 <= |s| && s[at..at + 4] == Pair(p)
    ensures At16(s, at) == p.port && At16(s, at + 2) == |p.host| % 0x1_0000
  {
    assert s[at..at + 2] == Pair(p)[..2] && s[at + 2..at + 4] == Pair(p)[2..];
    ReadSlice16(s, at, p.port);
    Cast16(|p.host|);
    ReadSlice16(s, at + 2, |p.host| % 0x1_0000);
  }

  /** A discovery response begins with the number of peers. */
  lemma ListCount(ps: seq<Peer>)
    requires |ps| < 0x1_0000_0000
    ensures 4 <= |ListBody(ps)| && At32(ListBody(ps), 0) == |ps|
  {
    assert [] + LE32(|ps|) + Grouped(ps) == ListBody(ps);
    ReadBack32([], |ps|, Grouped(ps));
  }

  /** Then come the port and the size of the host of each, */
  lemma ListPair(ps: seq<Peer>, k: nat)
    requires k < |ps|
    ensures var s, at := ListBody(ps), 4 + 4 * k;
            at + 4 <= |s| && At16(s, at) == ps[k].port && At16(s, at + 2) == |ps[k].host| % 0x1_0000
  {
    var s := ListBody(ps);
    PairPieces(ps);
    PieceAt(s, 4, |s|, Pairs(ps), k);
    PairStart(ps, k);
    assert Pairs(ps)[k] == Pair(ps[k]);
    PairReads(s, 4 + 4 * k, ps[k]);
  }

  /** Host `k` stands where the hosts before it end. */
  predicate HostStands(s: Bytes, mid: nat, ps: seq<Peer>, k: nat)
    requires k < |ps|
  {
    var at := StartOf(mid, LengthsOf(Hosts(ps)), k);
    at + |ps[k].host| <= |s| && s[at..at + |ps[k].host|] == ps[k].host
  }

  lemma HostAt(s: Bytes, mid: nat, ps: seq<Peer>, k: nat)
    requires k < |ps| && Cuts(s, mid, |s|, Hosts(ps))
    ensures HostStands(s, mid, ps, k)
  {
    PieceAt(s, mid, |s|, Hosts(ps), k);
  }

  /** then the hosts, one after the other. */
  lemma ListHost(ps: seq<Peer>, k: nat)
    requires k < |ps|
    ensures HostStands(ListBody(ps), 4 + 4 * |ps|, ps, k)
  {
    HostPieces(ps);
    HostAt(ListBody(ps), 4 + 4 * |ps|, ps, k);
  }

  // ---------------------------------------------------------------- bounds

  lemma {:induction false} ReadPeersBound(body: Bytes, at: nat, count: nat)
    requires at <= |body|
    ensures |ReadPeers(body, at, count)| <= count
    ensures 4 * |ReadPeers(body, at, count)| <= |body| - at
    decreases count
  {
    if count > 0 && at + 4 <= |body| && at + 4 + At16(body, at + 2) <= |body| {
      ReadPeersBound(body, at + 4 + At16(body, at + 2), count - 1);
    }
  }

  /** However large the declared count, the bytes bound the number of peers. */
  lemma ReadListBound(body: Bytes)
    requires 4 <= |body|
    ensures |ReadList(body)| <= At32(body, 0) && |ReadList(body)| <= (|body| - 4) / 4
  {
    ReadPeersBound(body, 4, At32(body, 0));
  }

  /** The cursor after the first `k` peers, each a port, a size and a host. */
  function After(at: nat, ps: seq<Peer>, k: nat): nat
    requires k <= |ps|
  {
    if k == 0 then at else After(at, ps, k - 1) + 4 + |ps[k - 1].host|
  }

  /** The bytes at the cursor are the port, the size of the host and the host. */
  predicate Spells(s: Bytes, at: nat, p: Peer) {
    && at + 4 + |p.host| <= |s|
    && At16(s, at) == p.port && At16(s, at + 2) == |p.host|
    && s[at + 4..at + 4 + |p.host|] == p.host
  }

  /** No peer is left at the cursor: no pair fits, or the host runs past the end. */
  predicate BreaksOff(s: Bytes, at: nat) {
    at + 4 > |s| || at + 4 + At16(s, at + 2) > |s|
  }

  predicate AllSpelt(s: Bytes, at: nat, ps: seq<Peer>) {
    forall k {:trigger Spells(s, After(at, ps, k), ps[k])} :: 0 <= k < |ps| ==> Spells(s, After(at, ps, k), ps[k])
  }

  /** The list is what the bytes spell, back to back, up to the count or the first peer that does not
      fit. */
  predicate Spelt(s: Bytes, at: nat, count: nat, ps: seq<Peer>) {
    |ps| <= count && AllSpelt(s, at, ps) && (|ps| < count ==> BreaksOff(s, After(at, ps, |ps|)))
  }

  lemma {:induction false} AfterTail(at: nat, ps: seq<Peer>, k: nat)
    requires 0 < k <= |ps|
    ensures After(at, ps, k) == After(at + 4 + |ps[0].host|, ps[1..], k - 1)
    decreases k
  {
    if k > 1 {
      AfterTail(at, ps, k - 1);
    }
  }

  lemma AllSpeltIff(s: Bytes, at: nat, ps: seq<Peer>)
    requires ps != []
    ensures AllSpelt(s, at, ps) <==> Spells(s, at, ps[0]) && AllSpelt(s, at + 4 + |ps[0].host|, ps[1..])
  {
    var next, rest := at + 4 + |ps[0].host|, ps[1..];
    forall k | 0 <= k < |rest|
      ensures After(next, rest, k) == After(at, ps, k + 1) && rest[k] == ps[k + 1]
    {
      AfterTail(at, ps, k + 1);
    }
    if Spells(s, at, ps[0]) && AllSpelt(s, next, rest) {
      forall k | 0 <= k < |ps|
        ensures Spells(s, After(at, ps, k), ps[k])
      {
        assert k > 0 ==> Spells(s, After(next, rest, k - 1), rest[k - 1]);
      }
    }
    if AllSpelt(s, at, ps) {
      assert Spells(s, After(at, ps, 0), ps[0]);
      forall k | 0 <= k < |rest|
        ensures Spells(s, After(next, rest, k), rest[k])
      {
        assert Spells(s, After(at, ps, k + 1), ps[k + 1]);
      }
    }
  }

  lemma SpeltIff(s: Bytes, at: nat, count: nat, ps: seq<Peer>)
    requires ps != [] && count > 0
    ensures Spelt(s, at, count, ps) <==> Spells(s, at, ps[0]) && Spelt(s, at + 4 + |ps[0].host|, count - 1, ps[1..])
  {
    AllSpeltIff(s, at, ps);
    AfterTail(at, ps, |ps|);
  }

  lemma SpeltNone(s: Bytes, at: nat, count: nat)
    ensures Spelt(s, at, count, []) <==> count == 0 || BreaksOff(s, at)
  {
  }

  /** One turn of the reader. */
  lemma ReadStep(s: Bytes, at: nat, count: nat)
    requires at <= |s|
    ensures count == 0 || BreaksOff(s, at) ==> ReadPeers(s, at, count) == []
    ensures count > 0 && !BreaksOff(s, at) ==>
              && ReadPeers(s, at, count) != []
              && var p := ReadPeers(s, at, count)[0];
                 Spells(s, at, p) && ReadPeers(s, at, count)[1..] == ReadPeers(s, at + 4 + |p.host|, count - 1)
  {
  }

  lemma {:induction false} ReadsSpelt(s: Bytes, at: nat, count: nat)
    requires at <= |s|
    ensures Spelt(s, at, count, ReadPeers(s, at, count))
    decreases count
  {
    ReadStep(s, at, count);
    if count == 0 || BreaksOff(s, at) {
      SpeltNone(s, at, count);
    } else {
      var ps := ReadPeers(s, at, count);
      ReadsSpelt(s, at + 4 + |ps[0].host|, count - 1);
      SpeltIff(s, at, count, ps);
    }
  }

  /** Whatever the body: the reader finds the longest list the bytes spell. All peers before the place
      where it breaks off count. */
  lemma ReadsLongestList(body: Bytes)
    ensures |body| < 4 ==> ReadList(body) == []
    ensures 4 <= |body| ==> Spelt(body, 4, At32(body, 0), ReadList(body))
  {
    if 4 <= |body| {
      ReadsSpelt(body, 4, At32(body, 0));
    }
  }

  lemma SpellsOne(s: Bytes, at: nat, p: Peer, q: Peer)
    requires Spells(s, at, p)
    ensures !BreaksOff(s, at) && (Spells(s, at, q) ==> p == q)
  {
  }

  lemma {:induction false} SpeltUnique(s: Bytes, at: nat, count: nat, ps: seq<Peer>, qs: seq<Peer>)
    requires Spelt(s, at, count, ps) && Spelt(s, at, count, qs)
    ensures ps == qs
    decreases |ps|
  {
    if ps != [] {
      SpeltIff(s, at, count, ps);
      SpellsOne(s, at, ps[0], ps[0]);
      SpeltNone(s, at, count);
    }
    if qs != [] {
      SpeltIff(s, at, count, qs);
      SpellsOne(s, at, qs[0], if ps == [] then qs[0] else ps[0]);
      SpeltNone(s, at, count);
    }
    if ps != [] && qs != [] {
      SpeltUnique(s, at + 4 + |ps[0].host|, count - 1, ps[1..], qs[1..]);
      Uncons(ps, qs[1..], qs);
    }
  }

  /** A list is what the reader finds if and only if the bytes spell it so. */
  lemma ReadListIff(body: Bytes, ps: seq<Peer>)
    requires 4 <= |body|
    ensures ReadList(body) == ps <==> Spelt(body, 4, At32(body, 0), ps)
  {
    ReadsLongestList(body);
    if Spelt(body, 4, At32(body, 0), ps) {
      SpeltUnique(body, 4, At32(body, 0), ReadList(body), ps);
    }
  }

  // ------------------------------------------------------- reading and writing

  predicate HostsFit(ps: seq<Peer>) {
    forall i :: 0 <= i < |ps| ==> |ps[i].host| < 0x1_0000
  }

  lemma BlockParts(p: Peer)
    ensures Block(p)[0..2] == LE16(p.port) && Block(p)[2..4] == LE16(|p.host|) && Block(p)[4..] == p.host
  {
  }

  lemma ReadBlock(s: Bytes, at: nat, p: Peer, count: nat)
    requires at + |Block(p)| <= |s| && s[at..at + |Block(p)|] == Block(p)
    requires |p.host| < 0x1_0000 && count > 0
    ensures ReadPeers(s, at, count) == [p] + ReadPeers(s, at + |Block(p)|, count - 1)
  {
    var n := |Block(p)|;
    BlockParts(p);
    SubSlice(s, at, n, 0, 2);
    SubSlice(s, at, n, 2, 4);
    SubSlice(s, at, n, 4, n);
    ReadSlice16(s, at, p.port);
    ReadSlice16(s, at + 2, |p.host|);
  }

  lemma WriteBlock(s: Bytes, at: nat, p: Peer)
    requires at + 4 + |p.host| <= |s|
    requires At16(s, at) == p.port && At16(s, at + 2) == |p.host|
    requires s[at + 4..at + 4 + |p.host|] == p.host
    ensures s[at..at + (4 + |p.host|)] == Block(p)
  {
    WriteBack16(s, at);
    WriteBack16(s, at + 2);
    assert s[at..at + (4 + |p.host|)] == s[at..at + 2] + s[at + 2..at + 4] + s[at + 4..at + 4 + |p.host|];
  }

  /** The blocks of the peers follow each other from `at`. */
  predicate BlocksAt(s: Bytes, at: nat, ps: seq<Peer>)
    decreases |ps|
  {
    if ps == [] then
      at <= |s|
    else
      && |ps[0].host| < 0x1_0000
      && at + |Block(ps[0])| <= |s|
      && s[at..at + |Block(ps[0])|] == Block(ps[0])
      && BlocksAt(s, at + |Block(ps[0])|, ps[1..])
  }

  lemma {:induction false} BlocksCut(s: Bytes, at: nat, ps: seq<Peer>)
    requires HostsFit(ps) && Cuts(s, at, |s|, Blocks(ps))
    ensures BlocksAt(s, at, ps)
    decreases |ps|
  {
    if ps != [] {
      BlocksTail(s, at, ps);
      BlocksCut(s, at + |Block(ps[0])|, ps[1..]);
    }
  }

  /** Peers laid out block by block are read back. */
  lemma {:induction false} ReadsBlocks(s: Bytes, at: nat, ps: seq<Peer>)
    requires BlocksAt(s, at, ps)
    ensures at <= |s| && ReadPeers(s, at, |ps|) == ps
    decreases |ps|
  {
    if ps != [] {
      var next := at + |Block(ps[0])|;
      ReadsBlocks(s, next, ps[1..]);
      ReadBlock(s, at, ps[0], |ps|);
      Uncons(ps, ReadPeers(s, next, |ps| - 1), ReadPeers(s, at, |ps|));
    }
  }

  lemma Uncons<T>(s: seq<T>, tail: seq<T>, r: seq<T>)
    requires s != [] && tail == s[1..] && r == [s[0]] + tail
    ensures r == s
  {
  }

  lemma BlocksTail(s: Bytes, at: nat, ps: seq<Peer>)
    requires ps != [] && Cuts(s, at, |s|, Blocks(ps))
    ensures at + |Block(ps[0])| <= |s| && s[at..at + |Block(ps[0])|] == Block(ps[0])
    ensures Cuts(s, at + |Block(ps[0])|, |s|, Blocks(ps[1..]))
  {
    CutsTail(s, at, |s|, Blocks(ps));
    assert Blocks(ps)[1..] == Blocks(ps[1..]);
  }

  /** Peers that fill the declared count were laid out block by block. */
  lemma {:induction false} BlocksRead(s: Bytes, at: nat, count: nat, ps: seq<Peer>)
    requires at <= |s| && ps == ReadPeers(s, at, count) && |ps| == count
    ensures HostsFit(ps) && Cuts(s, at, |s|, Blocks(ps))
    decreases count
  {
    if count > 0 {
      var next := at + 4 + |ps[0].host|;
      assert ps[1..] == ReadPeers(s, next, count - 1);
      BlocksRead(s, next, count - 1, ps[1..]);
      WriteBlock(s, at, ps[0]);
      BlocksCons(s, at, ps);
    }
  }

  lemma BlocksCons(s: Bytes, at: nat, ps: seq<Peer>)
    requires ps != [] && at + (4 + |ps[0].host|) <= |s|
    requires s[at..at + (4 + |ps[0].host|)] == Block(ps[0])
    requires Cuts(s, at + (4 + |ps[0].host|), |s|, Blocks(ps[1..]))
    ensures Cuts(s, at, |s|, Blocks(ps))
  {
    CutsCons(s, at, |s|, 4 + |ps[0].host|, Blocks(ps[1..]));
    assert Blocks(ps) == [Block(ps[0])] + Blocks(ps[1..]);
  }

  lemma {:induction false} LayoutSizes(ps: seq<Peer>)
    ensures |Concat(Pairs(ps))| == 4 * |ps|
    ensures |Concat(Blocks(ps))| == |Grouped(ps)|
  {
    if ps != [] {
      LayoutSizes(ps[1..]);
      assert Pairs(ps)[1..] == Pairs(ps[1..]);
      assert Hosts(ps)[1..] == Hosts(ps[1..]);
      assert Blocks(ps)[1..] == Blocks(ps[1..]);
    }
  }

  lemma ListBodyCuts(ps: seq<Peer>, qs: seq<Peer>)
    requires |Concat(Blocks(qs))| == |Grouped(ps)|
    ensures Cuts(ListBody(ps), 4, |ListBody(ps)|, Blocks(qs)) <==> Grouped(ps) == Concat(Blocks(qs))
  {
    assert ListBody(ps)[4..4 + |Grouped(ps)|] == Grouped(ps);
  }

  /** The reader inverts the builder exactly when every host fits its size field and the two
      layouts put the same bytes in the same order. */
  lemma InvertsIff(ps: seq<Peer>)
    requires |ps| < 0x1_0000_0000
    ensures ReadList(ListBody(ps)) == ps <==> HostsFit(ps) && Grouped(ps) == Concat(Blocks(ps))
  {
    var body := ListBody(ps);
    assert body == [] + LE32(|ps|) + Grouped(ps);
    ReadBack32([], |ps|, Grouped(ps));
    LayoutSizes(ps);
    ListBodyCuts(ps, ps);
    if ReadPeers(body, 4, |ps|) == ps {
      BlocksRead(body, 4, |ps|, ps);
    }
    if HostsFit(ps) && Grouped(ps) == Concat(Blocks(ps)) {
      BlocksCut(body, 4, ps);
      ReadsBlocks(body, 4, ps);
    }
  }

  // ------------------------------------------------------------- real hosts

  /** A host of printable characters, short enough that its size has no printable high byte. */
  predicate Text(host: Bytes) {
    |host| < 0x2000 && forall i :: 0 <= i < |host| ==> host[i] >= 32
  }

  predicate AllText(ps: seq<Peer>) {
    forall i :: 0 <= i < |ps| ==> Text(ps[i].host)
  }

  predicate EmptyButLast(ps: seq<Peer>) {
    forall i :: 0 <= i < |ps| - 1 ==> ps[i].host == []
  }

  lemma GroupedCons(p: Peer, ps: seq<Peer>)
    ensures Grouped([p] + ps) == Pair(p) + (Concat(Pairs(ps)) + (p.host + Concat(Hosts(ps))))
    ensures Concat(Blocks([p] + ps)) == Pair(p) + (p.host + Concat(Blocks(ps)))
  {
    var all := [p] + ps;
    assert Pairs(all)[0] == Pair(p) && Pairs(all)[1..] == Pairs(ps);
    assert Hosts(all)[0] == p.host && Hosts(all)[1..] == Hosts(ps);
    assert Blocks(all)[0] == Block(p) && Blocks(all)[1..] == Blocks(ps);
  }

  lemma CancelFront(a: Bytes, b: Bytes, c: Bytes)
    ensures a + b == a + c <==> b == c
  {
    assert (a + b)[|a|..] == b && (a + c)[|a|..] == c;
  }

  /** The four bytes after the first pair tell the layouts apart: a pair whose size has no
      printable high byte, against the start of a printable host. */
  lemma FourBytesDiffer(q: Peer, host: Bytes, x: Bytes, y: Bytes)
    requires Text(host) && host != [] && |q.host| < 0x2000
    ensures Pair(q) + x != host + (Pair(q) + y)
  {
    var l, r := Pair(q) + x, host + (Pair(q) + y);
    var w := Pair(q);
    assert w[3] < 32 && host[0] >= 32;
    assert l[0] == w[0] && l[1] == w[1] && l[2] == w[2] && l[3] == w[3];
    assert r[0] == host[0];
    if |host| == 1 {
      assert r[1] == w[0] && r[2] == w[1] && r[3] == w[2];
    } else if |host| == 2 {
      assert r[1] == host[1] && r[3] == w[1];
    } else if |host| == 3 {
      assert r[3] == w[0];
    } else {
      assert r[3] == host[3];
    }
  }

  /** For printable hosts the layouts agree exactly when every host but the last is empty. */
  lemma {:induction false} LayoutsAgreeIff(ps: seq<Peer>)
    requires AllText(ps)
    ensures Grouped(ps) == Concat(Blocks(ps)) <==> EmptyButLast(ps)
    decreases |ps|
  {
    if ps == [] {
    } else if |ps| == 1 {
      OneAgrees(ps[0]);
      assert ps == [ps[0]];
    } else {
      var p, rest := ps[0], ps[1..];
      assert ps == [p] + rest;
      GroupedCons(p, rest);
      var left := Concat(Pairs(rest)) + (p.host + Concat(Hosts(rest)));
      CancelFront(Pair(p), left, p.host + Concat(Blocks(rest)));
      if p.host == [] {
        LayoutsAgreeIff(rest);
        EmptyHostFront(rest);
      } else {
        assert Text(p.host);
        HostInFront(p, rest);
      }
    }
  }

  lemma OneAgrees(p: Peer)
    ensures Grouped([p]) == Concat(Blocks([p]))
  {
    GroupedCons(p, []);
    assert [p] + [] == [p];
  }

  lemma EmptyHostFront(rest: seq<Peer>)
    ensures Concat(Pairs(rest)) + ([] + Concat(Hosts(rest))) == Grouped(rest)
    ensures [] + Concat(Blocks(rest)) == Concat(Blocks(rest))
  {
    assert [] + Concat(Hosts(rest)) == Concat(Hosts(rest));
  }

  lemma HostInFront(p: Peer, rest: seq<Peer>)
    requires rest != [] && AllText(rest) && Text(p.host) && p.host != []
    ensures Concat(Pairs(rest)) + (p.host + Concat(Hosts(rest))) != p.host + Concat(Blocks(rest))
  {
    var q, more := rest[0], rest[1..];
    assert rest == [q] + more;
    assert Pairs(rest)[0] == Pair(q);
    GroupedCons(q, more);
    var x := Concat(Pairs(rest)[1..]) + (p.host + Concat(Hosts(rest)));
    assert Concat(Pairs(rest)) + (p.host + Concat(Hosts(rest))) == Pair(q) + x;
    assert Text(q.host);
    FourBytesDiffer(q, p.host, x, q.host + Concat(Blocks(more)));
  }

  lemma {:induction false} EmptyButLastAgrees(ps: seq<Peer>)
    requires EmptyButLast(ps)
    ensures Grouped(ps) == Concat(Blocks(ps))
    decreases |ps|
  {
    if |ps| == 1 {
      OneAgrees(ps[0]);
      assert ps == [ps[0]];
    } else if ps != [] {
      var p, rest := ps[0], ps[1..];
      assert ps == [p] + rest && p.host == [];
      GroupedCons(p, rest);
      EmptyHostFront(rest);
      EmptyButLastAgrees(rest);
    }
  }

  /** Whatever bytes the last host holds, a list whose other hosts are empty reads back. */
  lemma EmptyButLastInverts(ps: seq<Peer>)
    requires |ps| < 0x1_0000_0000 && EmptyButLast(ps) && HostsFit(ps)
    ensures ReadList(ListBody(ps)) == ps
  {
    EmptyButLastAgrees(ps);
    InvertsIff(ps);
  }

  /** For printable hosts a discovery response reads back as it was listed exactly when every
      host but the last is empty. */
  lemma TextInvertsIff(ps: seq<Peer>)
    requires |ps| < 0x1_0000_0000 && AllText(ps)
    ensures ReadList(ListBody(ps)) == ps <==> EmptyButLast(ps)
  {
    InvertsIff(ps);
    LayoutsAgreeIff(ps);
    assert forall i :: 0 <= i < |ps| ==> Text(ps[i].host);
  }

  /** The characters of "127.0.0.1", the host every node announces. */
  const LOCALHOST: Bytes := [49, 50, 55, 46, 48, 46, 48, 46, 49]

  /** It spells the loopback address. */
  lemma LocalhostText()
    ensures |LOCALHOST| == |"127.0.0.1"| && forall i :: 0 <= i < |LOCALHOST| ==> LOCALHOST[i] == "127.0.0.1"[i] as int
  {
  }

  /** Two peers on the announced host are never read back, whatever their ports. */
  lemma LocalhostPairMisread(a: Word, b: Word)
    ensures ReadList(ListBody([Peer(LOCALHOST, a), Peer(LOCALHOST, b)])) != [Peer(LOCALHOST, a), Peer(LOCALHOST, b)]
  {
    var ps := [Peer(LOCALHOST, a), Peer(LOCALHOST, b)];
    assert Text(LOCALHOST);
    assert ps[0].host != [];
    TextInvertsIff(ps);
  }
}
