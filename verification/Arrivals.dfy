/** What arrives of entries that outgrow their 16-bit length fields. */
module Arrivals {
  import opened Bytes
  import opened Protocol
  import opened Frames
  import opened Registry
  import opened NodeModel
  import opened Conversation
  import opened Kernel
  import Crc16

  /** A length field holds a payload's size cast to 16 bits, so bytes that another list of payloads
      would give, followed by a surplus, are read as that list. */
  lemma Recut(ps: seq<Bytes>, qs: seq<Bytes>, surplus: Bytes)
    requires AllFramable(qs) && |qs| <= MAX_ENTRIES
    requires |ps| == |qs| && Sizes(ps) == Sizes(qs) && Concat(ps) == Concat(qs) + surplus
    ensures Parse(Sealed(Covered(ps))) == Some(Scan(Entries(qs), true))
  {
    assert Covered(ps) == Covered(qs) + surplus;
    ParseOfSealed(qs, surplus);
  }

  /** What is left of a payload after its length was cast to 16 bits. */
  function Cast(p: Bytes): Bytes {
    p[..|p| % 0x1_0000]
  }

  lemma CastSizes(init: seq<Bytes>, last: Bytes)
    ensures Sizes(init + [last]) == Sizes(init + [Cast(last)])
  {
    Cast16(|last|);
  }

  lemma CastConcat(init: seq<Bytes>, last: Bytes)
    ensures Concat(init + [last]) == Concat(init + [Cast(last)]) + last[|Cast(last)|..]
  {
    ConcatAppend(init, [last]);
    ConcatAppend(init, [Cast(last)]);
    assert last == Cast(last) + last[|Cast(last)|..];
  }

  /** If only the last payload is too long, it arrives cut short. */
  lemma LastCutShort(init: seq<Bytes>, last: Bytes)
    requires AllFramable(init) && |init| < MAX_ENTRIES && PREFIX <= |Cast(last)|
    ensures AllFramable(init + [Cast(last)])
    ensures Parse(Sealed(Covered(init + [last]))) == Some(Scan(Entries(init + [Cast(last)]), true))
  {
    CastSizes(init, last);
    CastConcat(init, last);
    Recut(init + [last], init + [Cast(last)], last[|Cast(last)|..]);
  }

  lemma HoldsSealed(ps: seq<Bytes>)
    ensures Holds(Sealed(Covered(ps)), ps)
  {
    assert Covered(ps) + [] == Covered(ps);
    HoldsCovered(ps, [], LE16(Crc16.Crc(Covered(ps))));
  }

  /** The fields of a frame before its entries. */
  lemma Fields(ps: seq<Bytes>, k: nat)
    requires k < |ps| <= MAX_ENTRIES
    ensures var frame := Sealed(Covered(ps));
            && 4 + 2 * |ps| <= |frame| && At16(frame, 0) == |ps|
            && At16(frame, 2 + 2 * k) == |ps[k]| % 0x1_0000
  {
    var frame := Sealed(Covered(ps));
    CoveredSize(ps);
    HoldsSealed(ps);
    ReadSlice16(frame, 0, |ps|);
    SizesAt(frame, 2, |frame| - 2, ps, k);
    CastField(frame, 2 + 2 * k, |ps[k]|);
  }

  /** A last payload cut shorter than its prefix is not found, and the frame is incomplete. */
  lemma LastCutOff(init: seq<Bytes>, last: Bytes)
    requires AllFramable(init) && |init| < MAX_ENTRIES && |Cast(last)| < PREFIX
    ensures Parse(Sealed(Covered(init + [last]))) == Some(Scan(Entries(init), false))
  {
    var ps := init + [last];
    var frame := Sealed(Covered(ps));
    SealedChecks(Covered(ps));
    Fields(ps, |init|);
    CastTable(ps, frame);
    CastsOfFramable(init, last);
    CutsInit(frame, init, last);
    ParseThenShort(frame, init, |ps|, |Cast(last)|);
  }

  lemma ParseThenShort(frame: Bytes, init: seq<Bytes>, n: nat, short: nat)
    requires ChecksumOk(frame) && 4 + 2 * n <= |frame| && At16(frame, 0) == n && short < PREFIX
    requires Table(frame, 2, n) == LengthsOf(init) + [short]
    requires AllFramable(init) && Cuts(frame, 2 + 2 * n, |frame| - 2, init)
    ensures Parse(frame) == Some(Scan(Entries(init), false))
  {
    ParseIsWalk(frame, n);
    WalkThenShort(frame, 2 + 2 * n, |frame| - 2, init, [short]);
  }

  function CastLengths(ps: seq<Bytes>): seq<nat> {
    seq(|ps|, i requires 0 <= i < |ps| => |ps[i]| % 0x1_0000)
  }

  lemma CastTable(ps: seq<Bytes>, frame: Bytes)
    requires 0 < |ps| <= MAX_ENTRIES && frame == Sealed(Covered(ps))
    ensures 4 + 2 * |ps| <= |frame| && Table(frame, 2, |ps|) == CastLengths(ps)
  {
    Fields(ps, 0);
    forall k | 0 <= k < |ps|
      ensures At16(frame, 2 + 2 * k) == CastLengths(ps)[k]
    {
      Fields(ps, k);
    }
  }

  lemma CastsOfFramable(init: seq<Bytes>, last: Bytes)
    requires AllFramable(init)
    ensures CastLengths(init + [last]) == LengthsOf(init) + [|Cast(last)|]
  {
    forall k | 0 <= k < |init|
      ensures CastLengths(init + [last])[k] == LengthsOf(init)[k]
    {
      assert Framable(init[k]);
    }
  }

  lemma CutsInit(frame: Bytes, init: seq<Bytes>, last: Bytes)
    requires frame == Sealed(Covered(init + [last]))
    ensures Cuts(frame, 2 + 2 * |init + [last]|, |frame| - 2, init)
  {
    var ps := init + [last];
    HoldsSealed(ps);
    ConcatAppend(init, [last]);
    PrefixCut(frame, 2 + 2 * |ps|, Concat(init), Concat([last]));
  }

  lemma PrefixCut(s: Bytes, at: nat, a: Bytes, b: Bytes)
    requires at + |a + b| <= |s| && s[at..at + |a + b|] == a + b
    ensures s[at..at + |a|] == a
  {
    assert s[at..at + |a|] == s[at..at + |a + b|][..|a|];
  }

  lemma {:induction false} WalkThenShort(s: Bytes, at: nat, end: nat, ps: seq<Bytes>, rest: seq<nat>)
    requires AllFramable(ps) && Cuts(s, at, end, ps) && rest != [] && rest[0] < PREFIX
    ensures Walk(s, end, at, LengthsOf(ps) + rest) == Scan(Entries(ps), false)
    decreases |ps|
  {
    var lens := LengthsOf(ps) + rest;
    if ps != [] {
      assert Framable(ps[0]);
      CutsTail(s, at, end, ps);
      WalkThenShort(s, at + |ps[0]|, end, ps[1..], rest);
      assert lens[1..] == LengthsOf(ps[1..]) + rest;
      assert Entries(ps) == [EntryOf(ps[0])] + Entries(ps[1..]);
    } else {
      assert lens == rest;
    }
  }

  lemma CastField(s: Bytes, at: nat, n: nat)
    requires at + 2 <= |s| && s[at..at + 2] == LE16(n)
    ensures At16(s, at) == n % 0x1_0000
  {
    assert s == s[..at] + LE16(n) + s[at + 2..];
    ReadBack16(s[..at], n, s[at + 2..]);
  }

  /**
   What a peer's handlers are run on when responses are sent: all of them, or, if the last one is
   too long for its length field, those before it and perhaps the last one with its body cut short.
   */
  predicate Arrival(sent: seq<Entry>, got: seq<Entry>) {
    || got == sent
    || (sent != [] && AllResponses(sent) && |got| < |sent| && got == sent[..|sent| - 1])
    || (sent != [] && AllResponses(sent) && |got| == |sent| && got[..|sent| - 1] == sent[..|sent| - 1]
        && got[|sent| - 1] == sent[|sent| - 1].(body := got[|sent| - 1].body))
  }

  /** However long the last of them is, responses arrive as responses if the others fit; the frame
      counts as complete exactly if all of them are found. */
  lemma FittingArrive(rs: seq<Entry>)
    requires 0 < |rs| <= MAX_ENTRIES && AllResponses(rs) && AllButLastFramable(rs)
    ensures var scan := Parse(Sealed(Covered(Payloads(rs))));
            && scan.Some? && Arrival(rs, scan.value.entries)
            && (scan.value.complete <==> |scan.value.entries| == |rs|)
  {
    var k := |rs| - 1;
    var init, last := Payloads(rs[..k]), Payload(rs[k]);
    assert Payloads(rs) == init + [last];
    assert AllFramable(init);
    EntriesOfPayloads(rs[..k]);
    if |Cast(last)| < PREFIX {
      LastCutOff(init, last);
    } else {
      LastCutShort(init, last);
      var es := Entries(init + [Cast(last)]);
      assert es[..k] == Entries(init);
      CastEntry(rs[k]);
    }
  }

  lemma CastEntry(e: Entry)
    requires PREFIX <= |Cast(Payload(e))|
    ensures EntryOf(Cast(Payload(e))) == e.(body := EntryOf(Cast(Payload(e))).body)
  {
    var p := Payload(e);
    assert Cast(p)[2..PREFIX] == p[2..PREFIX];
    EntryOfPayload(e);
  }

  lemma TableFits(frame: Bytes, n: nat)
    requires 2 + 2 * n <= |frame|
    ensures forall k :: 0 <= k < n ==> Table(frame, 2, n)[k] < 0x1_0000
  {
  }

  lemma FoundInFrame(frame: Bytes, n: nat, i: nat)
    requires ChecksumOk(frame) && 4 + 2 * n <= |frame| && At16(frame, 0) == n
    ensures Parse(frame).Some?
    ensures i < |Parse(frame).value.entries| ==> |Payload(Parse(frame).value.entries[i])| <= 65535
  {
    ParseIsWalk(frame, n);
    TableFits(frame, n);
    FoundLength(frame, |frame| - 2, 2 + 2 * n, Table(frame, 2, n), i);
  }

  /** No entry is found that is longer than a length field can say. */
  lemma FoundIsCast(ps: seq<Bytes>, i: nat)
    requires 0 < |ps| <= MAX_ENTRIES
    ensures Parse(Sealed(Covered(ps))).Some?
    ensures var es := Parse(Sealed(Covered(ps))).value.entries;
            i < |es| ==> |Payload(es[i])| <= 65535
  {
    SealedChecks(Covered(ps));
    Fields(ps, 0);
    FoundInFrame(Sealed(Covered(ps)), |ps|, i);
  }

  lemma FoundLength(s: Bytes, end: nat, at: nat, lens: seq<nat>, i: nat)
    requires at <= end <= |s| && forall k :: 0 <= k < |lens| ==> lens[k] < 0x1_0000
    ensures var es := Walk(s, end, at, lens).entries;
            i < |es| ==> |Payload(es[i])| <= 65535
  {
    WalkIsLongestPrefix(s, end, at, lens);
    var es := Walk(s, end, at, lens).entries;
    if i < |es| {
      assert WellFormedAt(at, lens, end, i) && es[i] == EntryAt(s, at, lens, end, i);
      PayloadOfEntry(s[StartOf(at, lens, i)..StartOf(at, lens, i) + lens[i]]);
    }
  }

  /** The first payload follows the length table. */
  lemma FirstPlaced(frame: Bytes, ps: seq<Bytes>)
    requires ps != [] && Holds(frame, ps)
    ensures var at := 2 + 2 * |ps|;
            at + |ps[0]| <= |frame| - 2 && frame[at..at + |ps[0]|] == ps[0]
  {
    CutsTail(frame, 2 + 2 * |ps|, |frame| - 2, ps);
  }

  lemma FoundIsWalk(frame: Bytes, n: nat)
    requires ChecksumOk(frame) && 4 + 2 * n <= |frame| && At16(frame, 0) == n
    ensures Found(frame) == Walk(frame, |frame| - 2, 2 + 2 * n, Table(frame, 2, n)).entries
  {
    ParseIsWalk(frame, n);
  }

  lemma FirstParsed(frame: Bytes, n: nat, p: Bytes)
    requires ChecksumOk(frame) && 0 < n && 4 + 2 * n <= |frame| && At16(frame, 0) == n
    requires PREFIX <= |p| && 2 + 2 * n + |p| <= |frame| - 2 && frame[2 + 2 * n..2 + 2 * n + |p|] == p
    ensures |Found(frame)| <= n && (Found(frame) != [] ==> Found(frame)[0].kind == p[1])
  {
    FoundIsWalk(frame, n);
    FirstWalked(frame, |frame| - 2, 2 + 2 * n, Table(frame, 2, n), p);
  }

  /** What the kernel finds in a frame, however long its entries are: no more entries than were sent,
      and a first one, if any, of the kind of the first one sent. */
  lemma FirstFound(es: seq<Entry>)
    requires 0 < |es| <= MAX_ENTRIES
    ensures |Found(Body(es))| <= |es|
    ensures Found(Body(es)) != [] ==> Found(Body(es))[0].kind == es[0].kind
  {
    var ps := Payloads(es);
    SealedChecks(Covered(ps));
    Fields(ps, 0);
    HoldsSealed(ps);
    FirstPlaced(Body(es), ps);
    FirstParsed(Body(es), |ps|, ps[0]);
  }

  lemma FirstWalked(s: Bytes, end: nat, at: nat, lens: seq<nat>, p: Bytes)
    requires lens != [] && PREFIX <= |p| && at + |p| <= end <= |s| && s[at..at + |p|] == p
    ensures var es := Walk(s, end, at, lens).entries;
            |es| <= |lens| && (es != [] ==> es[0].kind == p[1])
  {
    WalkIsLongestPrefix(s, end, at, lens);
    assert s[at + 1] == s[at..at + |p|][1];
  }

  /** Entries that fit are found as they were sent. */
  lemma FittingFound(es: seq<Entry>)
    requires |es| <= MAX_ENTRIES && AllFramable(Payloads(es))
    ensures Parse(Body(es)) == Some(Scan(es, true)) && Found(Body(es)) == es
  {
    assert Covered(Payloads(es)) + [] == Covered(Payloads(es));
    ParseOfSealed(Payloads(es), []);
    EntriesOfPayloads(es);
  }

  /** The greeting of a dial is found as it was sent. */
  lemma GreetingFound(env: Env, n: Node, discovery: bool, connections: Word)
    ensures Found(Body(Greeting(env, n, discovery, connections))) == Greeting(env, n, discovery, connections)
  {
    var es := Greeting(env, n, discovery, connections);
    assert forall i :: 0 <= i < |es| ==> |es[i].body| <= 29;
    FittingFound(es);
  }

  /** If the first entry is a response, an entry stays unanswered. */
  lemma FirstUnanswered(env: Env, n: Node, me: Ref, es: seq<Entry>)
    requires es != [] && es[0].kind == RESPONSE
    ensures |HandleAll(env, n, me, es).replies| < |es|
  {
    OneResponse(env, n, me, es[0]);
    RepliesFollowRequests(env, Handle(env, n, me, es[0]).node, me, es[1..]);
  }

  /** Whatever the sizes of the entries: what is found in a reply begins with a response, and is less
      than what was found in the frame if that began with a response, and never more. */
  lemma ReplyShrinks(env: Env, n: Node, me: Ref, frame: Bytes)
    requires Replied(env, n, me, frame).Some?
    ensures var got := Found(Replied(env, n, me, frame).value);
            && (got != [] ==> got[0].kind == RESPONSE)
            && |got| <= |HandleAll(env, n, me, Found(frame)).replies| <= |Found(frame)|
            && (Found(frame)[0].kind == RESPONSE ==> |got| < |Found(frame)|)
  {
    RepliedIsBody(env, n, me, frame);
    FirstFound(HandleAll(env, n, me, Found(frame)).replies);
    if Found(frame)[0].kind == RESPONSE {
      FirstUnanswered(env, n, me, Found(frame));
    }
  }

  /** An arrival holds every response but the last as it was sent. */
  lemma ArrivalHolds(sent: seq<Entry>, got: seq<Entry>, i: nat)
    requires Arrival(sent, got) && i < |sent| - 1
    ensures i < |got| && got[i] == sent[i]
  {
    assert sent[..|sent| - 1][i] == sent[i];
    assert |got| == |sent| ==> got[..|sent| - 1][i] == got[i];
  }

  /** Responses arrive as they were sent, but for the end of the last, exactly if all before the last
      fit their length fields. */
  lemma ResponsesArriveIff(rs: seq<Entry>)
    requires 0 < |rs| <= MAX_ENTRIES && AllResponses(rs)
    ensures var scan := Parse(Sealed(Covered(Payloads(rs))));
            scan.Some? && (Arrival(rs, scan.value.entries) <==> AllButLastFramable(rs))
  {
    FoundIsCast(Payloads(rs), 0);
    var got := Parse(Sealed(Covered(Payloads(rs)))).value.entries;
    if AllButLastFramable(rs) {
      FittingArrive(rs);
    }
    if Arrival(rs, got) {
      forall i | 0 <= i < |rs| - 1
        ensures Framable(Payload(rs[i]))
      {
        ArrivalHolds(rs, got, i);
        FoundIsCast(Payloads(rs), i);
      }
    }
  }

  lemma ArrivedResponses(sent: seq<Entry>, got: seq<Entry>)
    requires Arrival(sent, got) && AllResponses(sent)
    ensures AllResponses(got)
  {
    forall i | 0 <= i < |got|
      ensures got[i].kind == RESPONSE
    {
      assert i < |sent| - 1 ==> got[i] == got[..|sent| - 1][i] == sent[..|sent| - 1][i];
    }
  }
}
