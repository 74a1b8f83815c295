/**
 An exchange over one session, in bytes: a frame, the reply to it, the answer to the reply, and so on.
 Every answer has fewer entries than the reply it answers, so every exchange ends. It ends after one
 reply if the listings asked for fit; a crowded node shows what happens otherwise.
 */
module Exchange {
  import opened Bytes
  import opened Protocol
  import opened Frames
  import opened Registry
  import opened Messages
  import opened NodeModel
  import opened Kernel
  import opened Conversation
  import opened Arrivals
  import Discovery

  // ------------------------------------------------------- every exchange ends

  /** One end's turn: a frame handled by a session, in the state its node is then in. */
  datatype Turn = Turn(env: Env, node: Node, me: Ref, frame: Bytes)

  function Replies(t: Turn): seq<Entry> {
    HandleAll(t.env, t.node, t.me, Found(t.frame)).replies
  }

  /** The turn is answered by some bytes, and these are what the other end handles next. */
  predicate Continues(t: Turn, next: Turn) {
    Replied(t.env, t.node, t.me, t.frame) == Some(next.frame)
  }

  /** Whatever the sizes of the entries: an answer to a reply has fewer entries than the reply. */
  lemma AnswerShrinks(t: Turn, next: Turn)
    requires Continues(t, next)
    ensures |Replies(next)| < |Replies(t)|
  {
    RepliedIsBody(t.env, t.node, t.me, t.frame);
    ReplyShrinks(t.env, t.node, t.me, t.frame);
    if Found(next.frame) != [] {
      FirstUnanswered(next.env, next.node, next.me, Found(next.frame));
    }
  }

  predicate InTurn(turns: seq<Turn>) {
    forall i :: 0 <= i < |turns| - 1 ==> Continues(turns[i], turns[i + 1])
  }

  /** Whatever bytes start it, and whatever happens to the nodes between the turns: there are no more
      further turns than the first reply has entries. */
  lemma {:induction false} TurnsBounded(turns: seq<Turn>)
    requires turns != [] && InTurn(turns)
    ensures |turns| - 1 <= |Replies(turns[0])|
    decreases |turns|
  {
    if |turns| > 1 {
      assert Continues(turns[0], turns[1]);
      AnswerShrinks(turns[0], turns[1]);
      forall i | 0 <= i < |turns[1..]| - 1
        ensures Continues(turns[1..][i], turns[1..][i + 1])
      {
        assert Continues(turns[i + 1], turns[i + 2]);
      }
      TurnsBounded(turns[1..]);
    }
  }

  /** No exchange goes on forever. */
  lemma EveryExchangeEnds(turns: nat -> Turn)
    ensures exists i: nat :: i <= |Replies(turns(0))| && !Continues(turns(i), turns(i + 1))
  {
    var k := |Replies(turns(0))| + 2;
    var first := seq(k, i requires 0 <= i < k => turns(i));
    if forall i: nat :: i <= |Replies(turns(0))| ==> Continues(turns(i), turns(i + 1)) {
      forall i | 0 <= i < k - 1
        ensures Continues(first[i], first[i + 1])
      {
        assert Continues(turns(i), turns(i + 1));
      }
      TurnsBounded(first);
    }
  }

  // ---------------------------------------------------------- after one reply

  /** The other end understands the reply as it was meant, but for the end of its last entry, exactly
      if no listing that is too long is asked for ahead of another entry that is answered. */
  lemma ReplyUnderstoodIff(env: Env, n: Node, me: Ref, frame: Bytes, bytes: Bytes)
    requires Sound(n) && me in n.objects
    requires KernelReply(env, n, me, frame) == Reply(Data(bytes)) && bytes != []
    ensures var got := Parse(Arrives(bytes, At(n, me).kind));
            && got.Some?
            && (Arrival(HandleAll(env, n, me, Found(frame)).replies, got.value.entries) <==> ListingsFit(env, n, me, Found(frame)))
  {
    var rs := HandleAll(env, n, me, Found(frame)).replies;
    BodyOfFrame(Payloads(rs), At(n, me).kind);
    ReplyCountFits(env, n, me, frame);
    RepliesFollowRequests(env, n, me, Found(frame));
    RepliesFitIff(env, n, me, Found(frame));
    ResponsesArriveIff(rs);
  }

  /** Whatever bytes start the exchange, and whoever the peer is: if the listings fit, the answer to
      the reply is empty, and nothing answers that. */
  lemma ExchangeEnds(env: Env, n: Node, me: Ref, frame: Bytes, bytes: Bytes, penv: Env, peer: Node, pme: Ref)
    requires Sound(n) && me in n.objects
    requires KernelReply(env, n, me, frame) == Reply(Data(bytes))
    requires ListingsFit(env, n, me, Found(frame))
    ensures var answer := KernelReply(penv, peer, pme, Arrives(bytes, At(n, me).kind));
            answer == Nothing || answer == Reply(Data([]))
    ensures KernelReply(env, n, me, []) == Nothing
  {
    if bytes != [] {
      ReplyUnderstoodIff(env, n, me, frame, bytes);
      RepliesFollowRequests(env, n, me, Found(frame));
      ArrivedResponses(HandleAll(env, n, me, Found(frame)).replies, Found(Arrives(bytes, At(n, me).kind)));
      ResponsesUnanswered(penv, peer, pme, Arrives(bytes, At(n, me).kind));
    }
  }

  /** A frame in which only responses are found is answered by no bytes, or not at all. */
  lemma ResponsesUnanswered(env: Env, n: Node, me: Ref, frame: Bytes)
    requires AllResponses(Found(frame))
    ensures KernelReply(env, n, me, frame) == Nothing || KernelReply(env, n, me, frame) == Reply(Data([]))
  {
    RepliesFollowRequests(env, n, me, Found(frame));
  }

  /** A frame that asks for a listing last, as every greeting does, starts no longer exchange. */
  lemma DiscoveryLastEnds(env: Env, n: Node, me: Ref, frame: Bytes, bytes: Bytes, penv: Env, peer: Node, pme: Ref)
    requires Sound(n) && me in n.objects
    requires KernelReply(env, n, me, frame) == Reply(Data(bytes))
    requires DiscoveryLast(Found(frame))
    ensures var answer := KernelReply(penv, peer, pme, Arrives(bytes, At(n, me).kind));
            answer == Nothing || answer == Reply(Data([]))
  {
    LastListingFits(env, n, me, Found(frame));
    ExchangeEnds(env, n, me, frame, bytes, penv, peer, pme);
  }

  // ------------------------------------------------------------ a crowded node

  const SELF: Uuid := [1, 0, 0, 0, 0, 0, 0, 0, 0, 0, 0, 0, 0, 0, 0, 0]
  const OTHER: Uuid := [2, 0, 0, 0, 0, 0, 0, 0, 0, 0, 0, 0, 0, 0, 0, 0]

  /** Distinct session ids. */
  function IdOf(i: nat): Uuid {
    LE16(i) + [0, 0, 0, 0, 0, 0, 0, 0, 0, 0, 0, 0, 0, 0]
  }

  lemma IdOfInjective(i: nat, j: nat)
    requires i < 0x1_0000 && j < 0x1_0000 && IdOf(i) == IdOf(j)
    ensures i == j
  {
    assert LE16(i) == IdOf(i)[..2] && LE16(j) == IdOf(j)[..2];
    ReadSlice16(LE16(i), 0, i);
    ReadSlice16(LE16(j), 0, j);
  }

  const SILENT := Env(p => false, i => NIL)

  function Accepted(n: Node): Node {
    AddSession(n, Session(IdOf(n.next), Tcp, NIL, 0, []))
  }

  /** A node that accepted `k` connections, each identified by a 20-byte body as of one other node at
      port 1. */
  function Crowd(k: nat): Node {
    if k == 0 then
      Node(SELF, 0, map[], [], 0, 0, [], [])
    else
      Handle(SILENT, Accepted(Crowd(k - 1)), k - 1, IdentifyRequest(OTHER, 0, NIL, 1, [])).node
  }

  ghost predicate Crowded(n: Node, k: nat) {
    && n.id == SELF && n.next == k && |n.filed| == k && Sound(n)
    && forall i :: 0 <= i < k ==> n.filed[i] == Filing(i, IdOf(i), Tcp, NIL) && i in n.objects && n.objects[i] == Session(IdOf(i), Tcp, OTHER, 1, [])
  }

  lemma NextIdFree(n: Node, k: nat)
    requires k < 0x1_0000 && Crowded(n, k)
    ensures !IdTaken(n.filed, IdOf(k))
  {
    forall i | 0 <= i < k
      ensures n.filed[i].id != IdOf(k)
    {
      if IdOf(i) == IdOf(k) {
        IdOfInjective(i, k);
      }
    }
  }

  lemma {:induction false} CrowdIsCrowded(k: nat)
    requires k < 0x1_0000
    ensures Crowded(Crowd(k), k)
  {
    if k > 0 {
      CrowdIsCrowded(k - 1);
      NextIdFree(Crowd(k - 1), k - 1);
      OneMore(Crowd(k - 1), k - 1);
    }
  }

  lemma OneMore(n: Node, k: nat)
    requires Crowded(n, k) && !IdTaken(n.filed, IdOf(k))
    ensures Crowded(Handle(SILENT, Accepted(n), k, IdentifyRequest(OTHER, 0, NIL, 1, [])).node, k + 1)
  {
    var e := IdentifyRequest(OTHER, 0, NIL, 1, []);
    AddSessionSound(n, Session(IdOf(k), Tcp, NIL, 0, []));
    HandleSound(SILENT, Accepted(n), k, e);
    IdentifyFields(OTHER, 0, NIL, 1, []);
    assert FanOut(e) == [];
  }

  /** A crowded node with one more connection, not identified. */
  function Asked(): Node {
    Accepted(Crowd(16384))
  }

  lemma {:induction false} CrowdListed(n: Node, k: nat, j: nat)
    requires n.id == SELF && j <= k <= |n.filed|
    requires forall i :: 0 <= i < k ==> At(n, n.filed[i].ref) == Session(IdOf(i), Tcp, OTHER, 1, [])
    ensures Listing(n, NIL, n.filed[..j]) == Repeat(Discovery.Peer([], 1), j)
  {
    if j > 0 {
      CrowdListed(n, k, j - 1);
      ListingSnoc(n, NIL, n.filed, j - 1);
      assert Listing(n, NIL, [n.filed[j - 1]]) == [Discovery.Peer([], 1)];
    }
  }

  /** A last session that is not identified is not listed for another such session. */
  lemma BlankUnlisted(n: Node, k: nat)
    requires |n.filed| == k + 1 && At(n, n.filed[k].ref).nodeId == NIL
    ensures Listing(n, NIL, n.filed) == Listing(n, NIL, n.filed[..k])
  {
    ListingSnoc(n, NIL, n.filed, k);
    assert n.filed[..k + 1] == n.filed;
    assert Listing(n, NIL, [n.filed[k]]) == [];
  }

  lemma OneMoreListed(n: Node, k: nat)
    requires Crowded(n, k) && !IdTaken(n.filed, IdOf(k))
    ensures Listing(Accepted(n), NIL, Accepted(n).filed) == Repeat(Discovery.Peer([], 1), k)
  {
    CrowdListed(Accepted(n), k, k);
    BlankUnlisted(Accepted(n), k);
  }

  lemma AskedLists()
    ensures Sound(Asked()) && 16384 in Asked().objects && At(Asked(), 16384).kind == Tcp && At(Asked(), 16384).nodeId == NIL
    ensures Listing(Asked(), NIL, Asked().filed) == Repeat(Discovery.Peer([], 1), 16384)
  {
    var c := Crowd(16384);
    CrowdIsCrowded(16384);
    NextIdFree(c, 16384);
    AddSessionSound(c, Session(IdOf(16384), Tcp, NIL, 0, []));
    OneMoreListed(c, 16384);
  }

  lemma {:induction false} BlankHosts(ps: seq<Discovery.Peer>)
    requires forall i :: 0 <= i < |ps| ==> ps[i].host == []
    ensures Concat(Discovery.Hosts(ps)) == []
  {
    if ps != [] {
      assert Discovery.Hosts(ps)[1..] == Discovery.Hosts(ps[1..]);
      BlankHosts(ps[1..]);
    }
  }

  /** A listing of 16384 blank hosts at port 1 is 64 KiB long and begins like a ping request. */
  lemma CrowdedListing(ps: seq<Discovery.Peer>, tx: Uuid)
    requires ps == Repeat(Discovery.Peer([], 1), 16384)
    ensures var p := Payload(DiscoveryResponse(tx, ps));
            && |p| == 0x1_0000 + 22
            && p[0] == OP_DISCOVERY && p[1] == RESPONSE && p[22] == OP_PING && p[23] == REQUEST
  {
    BlankHosts(ps);
    Discovery.LayoutSizes(ps);
    var pairs := Discovery.Pairs(ps);
    assert pairs[0] == Discovery.Pair(ps[0]);
    assert Concat(pairs) == pairs[0] + Concat(pairs[1..]);
  }

  /** The frame that asks for the listing and then pings. */
  function Request(t1: Uuid, t2: Uuid): Bytes {
    Sealed(Covered(Payloads([DiscoveryRequest(t1), PingRequest(t2)])))
  }

  lemma RequestParses(t1: Uuid, t2: Uuid)
    ensures Parse(Request(t1, t2)) == Some(Scan([DiscoveryRequest(t1), PingRequest(t2)], true))
  {
    var es := [DiscoveryRequest(t1), PingRequest(t2)];
    assert AllFramable(Payloads(es));
    assert Covered(Payloads(es)) + [] == Covered(Payloads(es));
    ParseOfSealed(Payloads(es), []);
    EntriesOfPayloads(es);
  }

  lemma BothReplies(env: Env, n: Node, me: Ref, t1: Uuid, t2: Uuid)
    ensures HandleAll(env, n, me, [DiscoveryRequest(t1), PingRequest(t2)]).replies ==
            [DiscoveryResponse(t1, Listing(n, At(n, me).nodeId, n.filed)), PingResponse(t2, EXIT_SUCCESS)]
  {
    HandleCons(env, n, me, DiscoveryRequest(t1), [PingRequest(t2)]);
    HandleCons(env, n, me, PingRequest(t2), []);
    assert [DiscoveryRequest(t1)] + [PingRequest(t2)] == [DiscoveryRequest(t1), PingRequest(t2)];
    assert [PingRequest(t2)] + [] == [PingRequest(t2)];
  }

  lemma ConcatTwo(p: Bytes, q: Bytes)
    ensures Concat([p, q]) == p + q
  {
    assert [p, q] == [p] + [q];
    ConcatAppend([p], [q]);
  }

  lemma TwoCut(p1: Bytes, p2: Bytes, q1: Bytes, q2: Bytes)
    requires |p1| == 0x1_0000 + 22 && |p2| == 19 && q1 == p1[..22] && q2 == p1[22..41]
    ensures Parse(Sealed(Covered([p1, p2]))) == Some(Scan([EntryOf(q1), EntryOf(q2)], true))
  {
    var ps, qs := [p1, p2], [q1, q2];
    assert Sizes(ps) == Sizes(qs);
    ConcatTwo(p1, p2);
    ConcatTwo(q1, q2);
    assert Concat(ps) == Concat(qs) + (p1[41..] + p2);
    Recut(ps, qs, p1[41..] + p2);
    assert Entries(qs) == [EntryOf(q1), EntryOf(q2)];
  }

  lemma PingAnswered(env: Env, n: Node, me: Ref, e1: Entry, e2: Entry)
    requires e1.op == OP_DISCOVERY && e1.kind == RESPONSE && e2.op == OP_PING && e2.kind == REQUEST
    ensures HandleAll(env, n, me, [e1, e2]).replies == [PingResponse(e2.tx, EXIT_SUCCESS)]
  {
    HandleCons(env, n, me, e1, [e2]);
    HandleCons(env, Handle(env, n, me, e1).node, me, e2, []);
    assert [e1] + [e2] == [e1, e2] && [e2] + [] == [e2];
  }

  /** What is read of a reply whose first entry is 64 KiB too long. */
  lemma CutAnswered(r1: Entry, r2: Entry, env: Env, n: Node, me: Ref)
    requires |Payload(r1)| == 0x1_0000 + 22 && |Payload(r2)| == 19
    requires r1.op == OP_DISCOVERY && r1.kind == RESPONSE && Payload(r1)[22] == OP_PING && Payload(r1)[23] == REQUEST
    ensures exists tx :: KernelReply(env, n, me, Sealed(Covered(Payloads([r1, r2])))) ==
                         Reply(Frame([Payload(PingResponse(tx, EXIT_SUCCESS))], At(n, me).kind == Tcp))
  {
    var p1, p2 := Payload(r1), Payload(r2);
    var e1, e2 := EntryOf(p1[..22]), EntryOf(p1[22..41]);
    assert Payloads([r1, r2]) == [p1, p2];
    TwoCut(p1, p2, p1[..22], p1[22..41]);
    PingAnswered(env, n, me, e1, e2);
    PayloadsOne(PingResponse(e2.tx, EXIT_SUCCESS));
  }

  lemma OneFramed(e: Entry, headed: bool)
    requires |Payload(e)| <= 65535
    ensures Frame([Payload(e)], headed).Data? && Frame([Payload(e)], headed).bytes != []
  {
    assert TotalSize([Payload(e)]) == |Payload(e)|;
  }

  function CrowdedReply(t1: Uuid, t2: Uuid): seq<Entry> {
    [DiscoveryResponse(t1, Repeat(Discovery.Peer([], 1), 16384)), PingResponse(t2, EXIT_SUCCESS)]
  }

  lemma CrowdedSizes(t1: Uuid, t2: Uuid)
    ensures var r := CrowdedReply(t1, t2);
            && |Payload(r[0])| == 0x1_0000 + 22 && |Payload(r[1])| == 19
            && r[0].op == OP_DISCOVERY && r[0].kind == RESPONSE
            && Payload(r[0])[22] == OP_PING && Payload(r[0])[23] == REQUEST
  {
    CrowdedListing(Repeat(Discovery.Peer([], 1), 16384), t1);
  }

  lemma TwoFramed(r: seq<Entry>, headed: bool)
    requires |r| == 2 && |Payload(r[0])| + |Payload(r[1])| <= MAX_TOTAL
    ensures Frame(Payloads(r), headed).Data?
  {
    assert Payloads(r) == [Payload(r[0]), Payload(r[1])];
    ConcatSize(Payloads(r));
    ConcatTwo(Payload(r[0]), Payload(r[1]));
  }

  /** Asked for its listing and then pinged, the crowded node replies with both. */
  lemma CrowdReplies(env: Env, t1: Uuid, t2: Uuid) returns (bytes: Bytes)
    ensures KernelReply(env, Asked(), 16384, Request(t1, t2)) == Reply(Data(bytes))
    ensures Arrives(bytes, Tcp) == Sealed(Covered(Payloads(CrowdedReply(t1, t2))))
    ensures HandleAll(env, Asked(), 16384, Found(Request(t1, t2))).replies == CrowdedReply(t1, t2)
  {
    AskedLists();
    RequestParses(t1, t2);
    BothReplies(env, Asked(), 16384, t1, t2);
    CrowdedSizes(t1, t2);
    TwoFramed(CrowdedReply(t1, t2), true);
    BodyOfFrame(Payloads(CrowdedReply(t1, t2)), Tcp);
    bytes := Frame(Payloads(CrowdedReply(t1, t2)), true).bytes;
  }

  lemma CrowdUnfit(env: Env, t1: Uuid, t2: Uuid)
    requires HandleAll(env, Asked(), 16384, Found(Request(t1, t2))).replies == CrowdedReply(t1, t2)
    ensures !ListingsFit(env, Asked(), 16384, Found(Request(t1, t2)))
  {
    AskedLists();
    RepliesFitIff(env, Asked(), 16384, Found(Request(t1, t2)));
    CrowdedSizes(t1, t2);
    assert !Framable(Payload(CrowdedReply(t1, t2)[0]));
  }

  /** The listing fails to fit, the request is answered, and the answer to that is not empty: the
      peer, whoever it is, finds a ping request in the reply. */
  lemma CrowdedExchange(env: Env, t1: Uuid, t2: Uuid, penv: Env, peer: Node, pme: Ref) returns (bytes: Bytes, answer: Bytes)
    ensures !ListingsFit(env, Asked(), 16384, Found(Request(t1, t2)))
    ensures KernelReply(env, Asked(), 16384, Request(t1, t2)) == Reply(Data(bytes))
    ensures KernelReply(penv, peer, pme, Arrives(bytes, Tcp)) == Reply(Data(answer)) && answer != []
  {
    bytes := CrowdReplies(env, t1, t2);
    CrowdUnfit(env, t1, t2);
    CrowdedSizes(t1, t2);
    var r := CrowdedReply(t1, t2);
    CutAnswered(r[0], r[1], penv, peer, pme);
    var tx :| KernelReply(penv, peer, pme, Sealed(Covered(Payloads([r[0], r[1]])))) ==
              Reply(Frame([Payload(PingResponse(tx, EXIT_SUCCESS))], At(peer, pme).kind == Tcp));
    OneFramed(PingResponse(tx, EXIT_SUCCESS), At(peer, pme).kind == Tcp);
    answer := Frame([Payload(PingResponse(tx, EXIT_SUCCESS))], At(peer, pme).kind == Tcp).bytes;
  }
}
