/** The read side of a TCP session: a 4-byte length header, then a body of that length, forever. */
module Deframing {
  import opened Bytes
  import opened Protocol
  import opened Frames

  /** The bodies complete in a stream, in order. */
  function Bodies(s: Bytes): seq<Bytes>
    decreases |s|
  {
    if |s| < 4 || |s| < 4 + At32(s, 0) then []
    else [s[4..4 + At32(s, 0)]] + Bodies(s[4 + At32(s, 0)..])
  }

  /** What is left after the last complete body. */
  function Residue(s: Bytes): Bytes
    decreases |s|
  {
    if |s| < 4 || |s| < 4 + At32(s, 0) then s else Residue(s[4 + At32(s, 0)..])
  }

  lemma AppendHead(s: Bytes, t: Bytes)
    requires 4 <= |s| && 4 + At32(s, 0) <= |s|
    ensures At32(s + t, 0) == At32(s, 0)
    ensures (s + t)[4..4 + At32(s, 0)] == s[4..4 + At32(s, 0)]
    ensures (s + t)[4 + At32(s, 0)..] == s[4 + At32(s, 0)..] + t
  {
  }

  /** Reading may stop anywhere and go on later. */
  lemma {:induction false} ReadOn(s: Bytes, t: Bytes)
    ensures Bodies(s + t) == Bodies(s) + Bodies(Residue(s) + t)
    ensures Residue(s + t) == Residue(Residue(s) + t)
    decreases |s|
  {
    if 4 <= |s| && 4 + At32(s, 0) <= |s| {
      AppendHead(s, t);
      ReadOn(s[4 + At32(s, 0)..], t);
    }
  }

  /** The bodies with their length headers, one after the other. */
  function Stream(bodies: seq<Bytes>): Bytes {
    if bodies == [] then [] else LE32(|bodies[0]|) + bodies[0] + Stream(bodies[1..])
  }

  predicate Sendable(bodies: seq<Bytes>) {
    forall i :: 0 <= i < |bodies| ==> |bodies[i]| < 0x1_0000_0000
  }

  /** A stream of headed bodies reads back as those bodies and nothing is left. */
  lemma {:induction false} StreamReadsBack(bodies: seq<Bytes>)
    requires Sendable(bodies)
    ensures Bodies(Stream(bodies)) == bodies && Residue(Stream(bodies)) == []
  {
    if bodies != [] {
      var b, rest := bodies[0], bodies[1..];
      StreamReadsBack(rest);
      HeadReadsBack(b, Stream(rest));
    }
  }

  lemma HeadReadsBack(b: Bytes, rest: Bytes)
    requires |b| < 0x1_0000_0000
    ensures Bodies(LE32(|b|) + b + rest) == [b] + Bodies(rest)
    ensures Residue(LE32(|b|) + b + rest) == Residue(rest)
  {
    var s := LE32(|b|) + b + rest;
    assert s == [] + LE32(|b|) + (b + rest);
    ReadBack32([], |b|, b + rest);
    assert s[4..4 + |b|] == b && s[4 + |b|..] == rest;
  }

  /** Any part of a stream, cut anywhere, delivers the first bodies of the whole. */
  lemma PrefixDelivers(bodies: seq<Bytes>, part: Bytes, rest: Bytes)
    requires Sendable(bodies) && part + rest == Stream(bodies)
    ensures Bodies(part) <= bodies
  {
    StreamReadsBack(bodies);
    ReadOn(part, rest);
  }

  lemma {:induction false} StreamAppend(a: seq<Bytes>, b: seq<Bytes>)
    ensures Stream(a + b) == Stream(a) + Stream(b)
  {
    if a == [] {
      assert a + b == b;
    } else {
      assert (a + b)[0] == a[0] && (a + b)[1..] == a[1..] + b;
      StreamAppend(a[1..], b);
    }
  }

  /** The headed frame of the builder is a one-body stream, or no bytes at all. */
  lemma BuiltIsStream(ps: seq<Bytes>)
    requires Frame(ps, true).Data?
    ensures Frame(ps, true).bytes == Stream(if ps == [] then [] else [Sealed(Covered(ps))])
    ensures Sendable(if ps == [] then [] else [Sealed(Covered(ps))])
  {
    if ps != [] {
      HeaderIsBodySize(ps);
      var b := Sealed(Covered(ps));
      assert Stream([b]) == LE32(|b|) + b + [];
    }
  }

  /** What a session sends for a list of builder contents, one message each. */
  function Outputs(pss: seq<seq<Bytes>>): seq<Bytes>
    requires Buildable(pss)
  {
    if pss == [] then [] else [Frame(pss[0], true).bytes] + Outputs(pss[1..])
  }

  predicate Buildable(pss: seq<seq<Bytes>>) {
    forall i :: 0 <= i < |pss| ==> Frame(pss[i], true).Data?
  }

  /** The frames among them: an empty builder gives none. */
  function FramesOf(pss: seq<seq<Bytes>>): seq<Bytes> {
    if pss == [] then [] else (if pss[0] == [] then [] else [Sealed(Covered(pss[0]))]) + FramesOf(pss[1..])
  }

  /** Whatever a session sends is the stream of its frames; zero-byte messages leave no trace. */
  lemma {:induction false} OutputsAreStream(pss: seq<seq<Bytes>>)
    requires Buildable(pss)
    ensures Concat(Outputs(pss)) == Stream(FramesOf(pss)) && Sendable(FramesOf(pss))
  {
    if pss != [] {
      var first := if pss[0] == [] then [] else [Sealed(Covered(pss[0]))];
      BuiltIsStream(pss[0]);
      OutputsAreStream(pss[1..]);
      StreamAppend(first, FramesOf(pss[1..]));
      assert Outputs(pss)[1..] == Outputs(pss[1..]);
    }
  }

  class StreamReader {
    /** The decoded length once a header has been read. */
    var header: Option<nat>
    /** Bytes received but not yet consumed. */
    var pending: Bytes
    var delivered: seq<Bytes>
    /** The header bytes behind `header`, and everything received so far. */
    ghost var raw: Bytes
    ghost var received: Bytes

    ghost predicate Valid()
      reads this
    {
      && HeaderRead()
      && delivered == Bodies(received) && raw + pending == Residue(received)
    }

    ghost predicate HeaderRead()
      reads this
    {
      if header.Some? then |raw| == 4 && At32(raw, 0) == header.value else raw == []
    }

    constructor ()
      ensures Valid() && delivered == [] && received == []
    {
      header, pending, delivered, raw, received := None, [], [], [], [];
    }

    /** Take in a chunk of any size, and deliver every body it completes. */
    method Receive(chunk: Bytes)
      requires Valid()
      modifies this
      ensures Valid() && received == old(received) + chunk
    {
      ReadOn(received, chunk);
      assert raw + (pending + chunk) == Residue(received) + chunk;
      pending, received := pending + chunk, received + chunk;
      var more := true;
      while more
        invariant HeaderRead() && received == old(received) + chunk
        invariant delivered + Bodies(raw + pending) == Bodies(received)
        invariant Residue(raw + pending) == Residue(received)
        invariant !more ==> Bodies(raw + pending) == [] && Residue(raw + pending) == raw + pending
        decreases more, |pending|, header.Some?
      {
        more := Advance();
      }
      assert delivered + [] == delivered;
    }

    /** Read a header, or a body, if all its bytes are there. */
    method Advance() returns (more: bool)
      requires HeaderRead()
      modifies this
      ensures HeaderRead() && received == old(received)
      ensures more ==> |pending| < old(|pending|) || (|pending| == old(|pending|) && header.None? && old(header).Some?)
      ensures delivered + Bodies(raw + pending) == old(delivered) + Bodies(old(raw + pending))
      ensures Residue(raw + pending) == Residue(old(raw + pending))
      ensures !more ==> Bodies(raw + pending) == [] && Residue(raw + pending) == raw + pending
    {
      if header.None? {
        more := ReadHeader();
      } else {
        more := ReadBody();
      }
    }

    method ReadHeader() returns (more: bool)
      requires HeaderRead() && header.None?
      modifies this
      ensures HeaderRead() && received == old(received) && delivered == old(delivered)
      ensures raw + pending == old(raw + pending)
      ensures more ==> |pending| < old(|pending|)
      ensures !more ==> Bodies(raw + pending) == [] && Residue(raw + pending) == raw + pending
    {
      if |pending| < 4 {
        return false;
      }
      raw, header, pending := pending[..4], Some(At32(pending, 0)), pending[4..];
      return true;
    }

    method ReadBody() returns (more: bool)
      requires HeaderRead() && header.Some?
      modifies this
      ensures HeaderRead() && received == old(received)
      ensures more ==> |pending| <= old(|pending|) && header.None?
      ensures delivered + Bodies(raw + pending) == old(delivered) + Bodies(old(raw + pending))
      ensures Residue(raw + pending) == Residue(old(raw + pending))
      ensures !more ==> Bodies(raw + pending) == [] && Residue(raw + pending) == raw + pending
    {
      var n := header.value;
      FirstBody(raw, pending, n);
      if |pending| < n {
        return false;
      }
      var body := pending[..n];
      ghost var tail := Bodies(pending[n..]);
      assert delivered + [body] + tail == delivered + ([body] + tail);
      delivered, pending, header, raw := delivered + [body], pending[n..], None, [];
      assert raw + pending == pending;
      return true;
    }
  }

  /** What a stream with its header read holds next. */
  lemma FirstBody(raw: Bytes, pending: Bytes, n: nat)
    requires |raw| == 4 && At32(raw, 0) == n
    ensures |pending| < n ==> Bodies(raw + pending) == [] && Residue(raw + pending) == raw + pending
    ensures n <= |pending| ==> Bodies(raw + pending) == [pending[..n]] + Bodies(pending[n..])
    ensures n <= |pending| ==> Residue(raw + pending) == Residue(pending[n..])
  {
    HeaderStays(raw, pending);
    AfterHeader(raw, pending, n);
  }

  lemma HeaderStays(raw: Bytes, pending: Bytes)
    requires |raw| == 4
    ensures At32(raw + pending, 0) == At32(raw, 0)
  {
  }

  lemma AfterHeader(raw: Bytes, pending: Bytes, n: nat)
    requires |raw| == 4
    ensures n <= |pending| ==> (raw + pending)[4..4 + n] == pending[..n] && (raw + pending)[4 + n..] == pending[n..]
  {
  }

  /** For every chunking of one stream the same bodies are delivered. */
  method ReceiveAll(chunks: seq<Bytes>, bodies: seq<Bytes>) returns (delivered: seq<Bytes>)
    requires Sendable(bodies) && Concat(chunks) == Stream(bodies)
    ensures delivered == bodies
  {
    var r := new StreamReader();
    for i := 0 to |chunks|
      invariant r.Valid() && r.received == Concat(chunks[..i])
    {
      ConcatSnoc(chunks, i);
      r.Receive(chunks[i]);
    }
    assert chunks[..|chunks|] == chunks;
    StreamReadsBack(bodies);
    delivered := r.delivered;
  }
}
