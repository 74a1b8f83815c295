/** Replies never answer replies: an exchange on one session ends after one reply. */
module Conversation {
  import opened Bytes
  import opened Protocol
  import opened Frames
  import opened Registry
  import opened Messages
  import opened NodeModel
  import opened Kernel
  import Discovery

  predicate AllResponses(es: seq<Entry>) {
    forall i :: 0 <= i < |es| ==> es[i].kind == RESPONSE
  }

  /** A handler adds at most one entry; it is a response with the transaction id of the request,
      and a response is never answered. */
  lemma OneResponse(env: Env, n: Node, me: Ref, e: Entry)
    ensures var rs := Handle(env, n, me, e).replies;
            && |rs| <= 1
            && (rs != [] ==> rs[0].kind == RESPONSE && rs[0].tx == e.tx)
            && (e.kind == RESPONSE ==> rs == [])
  {
  }

  function Transactions(es: seq<Entry>): seq<Uuid> {
    seq(|es|, i requires 0 <= i < |es| => es[i].tx)
  }

  /** `a` can be had from `b` by leaving elements out. */
  predicate Subsequence<T(==)>(a: seq<T>, b: seq<T>)
    decreases |b|
  {
    if a == [] then true
    else if b == [] then false
    else if a[0] == b[0] && Subsequence(a[1..], b[1..]) then true
    else Subsequence(a, b[1..])
  }

  /** The reply's transaction ids are an in-order subsequence of the request's, every entry of it
      is a response, and a frame of responses gets an empty reply. */
  lemma {:induction false} RepliesFollowRequests(env: Env, n: Node, me: Ref, es: seq<Entry>)
    ensures var rs := HandleAll(env, n, me, es).replies;
            && AllResponses(rs)
            && |rs| <= |es|
            && Subsequence(Transactions(rs), Transactions(es))
            && (AllResponses(es) ==> rs == [])
    decreases |es|
  {
    if es != [] {
      var first := Handle(env, n, me, es[0]);
      var rest := HandleAll(env, first.node, me, es[1..]).replies;
      OneResponse(env, n, me, es[0]);
      RepliesFollowRequests(env, first.node, me, es[1..]);
      FollowStep(es, first.replies, rest);
    }
  }

  lemma FollowStep(es: seq<Entry>, first: seq<Entry>, rest: seq<Entry>)
    requires es != [] && |first| <= 1 && (first != [] ==> first[0].kind == RESPONSE && first[0].tx == es[0].tx)
    requires AllResponses(rest) && Subsequence(Transactions(rest), Transactions(es[1..]))
    ensures AllResponses(first + rest) && Subsequence(Transactions(first + rest), Transactions(es))
  {
    assert Transactions(es)[1..] == Transactions(es[1..]);
    if first == [] {
      assert first + rest == rest;
    } else {
      assert (first + rest)[1..] == rest;
      assert Transactions(first + rest)[1..] == Transactions(rest);
    }
  }

  /** A frame never yields more entries than its 16-bit count. */
  lemma EntryCountFits(frame: Bytes)
    requires Parse(frame).Some?
    ensures |Parse(frame).value.entries| <= MAX_ENTRIES
  {
    var k: nat := At16(frame, 0);
    WalkIsLongestPrefix(frame, |frame| - 2, 2 + 2 * k, Table(frame, 2, k));
  }

  /** However many entries arrive, the reply never has too many for one frame. */
  lemma ReplyCountFits(env: Env, n: Node, me: Ref, frame: Bytes)
    requires Parse(frame).Some?
    ensures |HandleAll(env, n, me, Parse(frame).value.entries).replies| <= MAX_ENTRIES
  {
    EntryCountFits(frame);
    RepliesFollowRequests(env, n, me, Parse(frame).value.entries);
  }

  // ------------------------------------------------------ which entries are answered

  /** A session of this kind answers the entry. */
  predicate Answered(kind: SessionType, e: Entry) {
    if e.op == OP_IDENTIFY then kind == Tcp && 16 <= |e.body| && e.kind == REQUEST
    else if e.op == OP_DISCOVERY then e.kind == REQUEST
    else if e.op == OP_JOIN || e.op == OP_LEAVE then kind == Tcp && 16 <= |e.body| && e.kind != RESPONSE
    else e.kind != RESPONSE
  }

  predicate AnyAnswered(kind: SessionType, es: seq<Entry>) {
    exists i :: 0 <= i < |es| && Answered(kind, es[i])
  }

  lemma AnsweredIff(env: Env, n: Node, me: Ref, e: Entry)
    ensures Handle(env, n, me, e).replies != [] <==> Answered(At(n, me).kind, e)
  {
  }

  /** There is a reply entry exactly if some entry is of an answered sort. */
  lemma {:induction false} RepliesIff(env: Env, n: Node, me: Ref, es: seq<Entry>)
    requires Sound(n) && me in n.objects
    ensures HandleAll(env, n, me, es).replies != [] <==> AnyAnswered(At(n, me).kind, es)
    decreases |es|
  {
    if es != [] {
      AnsweredIff(env, n, me, es[0]);
      HandleSound(env, n, me, es[0]);
      HandleKeepsObjects(env, n, me, es[0], me);
      RepliesIff(env, Handle(env, n, me, es[0]).node, me, es[1..]);
      AnyAnsweredTail(At(n, me).kind, es);
    }
  }

  lemma AnyAnsweredTail(kind: SessionType, es: seq<Entry>)
    requires es != []
    ensures AnyAnswered(kind, es) <==> Answered(kind, es[0]) || AnyAnswered(kind, es[1..])
  {
    if AnyAnswered(kind, es[1..]) {
      var i :| 0 <= i < |es[1..]| && Answered(kind, es[1..][i]);
      assert Answered(kind, es[i + 1]);
    }
    if AnyAnswered(kind, es) {
      var i :| 0 <= i < |es| && Answered(kind, es[i]);
      assert i > 0 ==> es[i] == es[1..][i - 1];
    }
  }

  // ------------------------------------------------------------ how large replies are

  /** A discovery request whose listing, with the 22 bytes before it, outgrows a length field. */
  predicate TooLong(n: Node, me: Ref, e: Entry) {
    && e.op == OP_DISCOVERY && e.kind == REQUEST
    && |Discovery.Grouped(Listing(n, At(n, me).nodeId, n.filed))| > 65513
  }

  /** Only a discovery listing can outgrow a length field. */
  lemma ReplySize(env: Env, n: Node, me: Ref, e: Entry, r: Entry)
    requires Handle(env, n, me, e).replies == [r]
    ensures e.op != OP_DISCOVERY ==> |Payload(r)| <= 51
    ensures e.op == OP_DISCOVERY ==> |Payload(r)| == 22 + |Discovery.Grouped(Listing(n, At(n, me).nodeId, n.filed))|
  {
    if e.op == OP_DISCOVERY {
      assert r == DiscoveryResponse(e.tx, Listing(n, At(n, me).nodeId, n.filed));
    } else {
      assert |r.body| <= 33;
    }
  }

  lemma ReplyFramableIff(env: Env, n: Node, me: Ref, e: Entry, r: Entry)
    requires Handle(env, n, me, e).replies == [r]
    ensures Framable(Payload(r)) <==> !TooLong(n, me, e)
  {
    ReplySize(env, n, me, e, r);
  }

  predicate AllButLastFramable(rs: seq<Entry>) {
    forall i :: 0 <= i < |rs| - 1 ==> Framable(Payload(rs[i]))
  }

  lemma ButLastCons(r: Entry, rest: seq<Entry>)
    ensures AllButLastFramable([r] + rest) <==> (rest != [] ==> Framable(Payload(r))) && AllButLastFramable(rest)
  {
    var rs := [r] + rest;
    assert forall i :: 0 < i < |rs| ==> rs[i] == rest[i - 1];
    if AllButLastFramable(rs) {
      assert rest != [] ==> Framable(Payload(rs[0]));
      forall i | 0 <= i < |rest| - 1
        ensures Framable(Payload(rest[i]))
      {
        assert rs[i + 1] == rest[i];
      }
    }
  }

  /** No listing that is too long is asked for ahead of another entry that will be answered. */
  predicate ListingsFit(env: Env, n: Node, me: Ref, es: seq<Entry>)
    decreases |es|
  {
    || es == []
    || (&& (TooLong(n, me, es[0]) ==> !AnyAnswered(At(n, me).kind, es[1..]))
        && ListingsFit(env, Handle(env, n, me, es[0]).node, me, es[1..]))
  }

  /** The entries of a reply but the last fit their length fields exactly in that case. */
  lemma {:induction false} RepliesFitIff(env: Env, n: Node, me: Ref, es: seq<Entry>)
    requires Sound(n) && me in n.objects
    ensures AllButLastFramable(HandleAll(env, n, me, es).replies) <==> ListingsFit(env, n, me, es)
    decreases |es|
  {
    if es != [] {
      var first := Handle(env, n, me, es[0]);
      HandleSound(env, n, me, es[0]);
      HandleKeepsObjects(env, n, me, es[0], me);
      RepliesFitIff(env, first.node, me, es[1..]);
      RepliesIff(env, first.node, me, es[1..]);
      FitStep(env, n, me, es[0], HandleAll(env, first.node, me, es[1..]).replies);
    }
  }

  lemma FitStep(env: Env, n: Node, me: Ref, e: Entry, rest: seq<Entry>)
    ensures AllButLastFramable(Handle(env, n, me, e).replies + rest) <==>
            (TooLong(n, me, e) ==> rest == []) && AllButLastFramable(rest)
  {
    var first := Handle(env, n, me, e).replies;
    OneResponse(env, n, me, e);
    if first == [] {
      AnsweredIff(env, n, me, e);
      assert first + rest == rest;
    } else {
      assert first == [first[0]];
      ReplyFramableIff(env, n, me, e, first[0]);
      ButLastCons(first[0], rest);
    }
  }

  /** A frame that asks for a listing last, if at all. */
  predicate DiscoveryLast(es: seq<Entry>) {
    forall i :: 0 <= i < |es| - 1 ==> !(es[i].op == OP_DISCOVERY && es[i].kind == REQUEST)
  }

  /** Its reply is in order whatever the registry holds. */
  lemma {:induction false} LastListingFits(env: Env, n: Node, me: Ref, es: seq<Entry>)
    requires DiscoveryLast(es)
    ensures ListingsFit(env, n, me, es)
    ensures AllButLastFramable(HandleAll(env, n, me, es).replies)
    decreases |es|
  {
    if es != [] {
      var m := Handle(env, n, me, es[0]).node;
      assert forall i :: 0 <= i < |es[1..]| ==> es[1..][i] == es[i + 1];
      LastListingFits(env, m, me, es[1..]);
      FitStep(env, n, me, es[0], HandleAll(env, m, me, es[1..]).replies);
    }
  }

  // --------------------------------------------------------------- as bytes

  /** What the peer's kernel is given when a reply arrives: a TCP reply loses its length header;
      a WebSocket reply is one message. */
  function Arrives(bytes: Bytes, kind: SessionType): Bytes {
    if kind == Tcp && 4 <= |bytes| then bytes[4..] else bytes
  }

  lemma BodyOfFrame(ps: seq<Bytes>, kind: SessionType)
    requires Frame(ps, kind == Tcp).Data?
    ensures Arrives(Frame(ps, kind == Tcp).bytes, kind) == if ps == [] then [] else Sealed(Covered(ps))
  {
    if ps != [] {
      var header := LE32(HeaderValue(ps));
      assert (header + Sealed(Covered(ps)))[4..] == Sealed(Covered(ps));
      assert [] + Sealed(Covered(ps)) == Sealed(Covered(ps));
    }
  }

  /** What travels back: the body of the reply, if there is one with any bytes. */
  function Replied(env: Env, n: Node, me: Ref, frame: Bytes): Option<Bytes> {
    match KernelReply(env, n, me, frame)
    case Reply(Data(bytes)) => if bytes == [] then None else Some(Arrives(bytes, At(n, me).kind))
    case _ => None
  }

  /** It is the body of a frame of at least one response and no more than were found requests. */
  lemma RepliedIsBody(env: Env, n: Node, me: Ref, frame: Bytes)
    requires Replied(env, n, me, frame).Some?
    ensures var rs := HandleAll(env, n, me, Found(frame)).replies;
            && Replied(env, n, me, frame) == Some(Body(rs))
            && 0 < |rs| <= MAX_ENTRIES && |rs| <= |Found(frame)| && AllResponses(rs)
  {
    BodyOfFrame(Payloads(HandleAll(env, n, me, Found(frame)).replies), At(n, me).kind);
    ReplyCountFits(env, n, me, frame);
    RepliesFollowRequests(env, n, me, Found(frame));
  }

  /** The greeting of a dial reaches the peer's handlers as it was sent. */
  lemma GreetingArrives(env: Env, n: Node, discovery: bool, connections: Word)
    ensures var es := Greeting(env, n, discovery, connections);
            && Frame(Payloads(es), false).Data?
            && Parse(Frame(Payloads(es), false).bytes) == Some(Scan(es, true))
  {
    var es := Greeting(env, n, discovery, connections);
    assert forall i :: 0 <= i < |es| ==> |es[i].body| <= 29;
    assert AllFramable(Payloads(es));
    TotalSizeBound(Payloads(es));
    RoundTrip(es);
  }
}
