/** The builder of request and response frames. */
module FrameBuilder {
  import opened Bytes
  import opened Protocol
  import opened Frames
  import opened Messages
  import opened Discovery
  import Crc16

  lemma {:induction false} TotalSizeAppend(a: seq<Bytes>, b: seq<Bytes>)
    ensures TotalSize(a + b) == TotalSize(a) + TotalSize(b)
  {
    if a == [] {
      assert a + b == b;
    } else {
      assert (a + b)[0] == a[0] && (a + b)[1..] == a[1..] + b;
      TotalSizeAppend(a[1..], b);
    }
  }

  lemma TotalSizeSnoc(ps: seq<Bytes>, i: nat)
    requires i < |ps|
    ensures TotalSize(ps[..i + 1]) == TotalSize(ps[..i]) + |ps[i]|
  {
    assert ps[..i + 1] == ps[..i] + [ps[i]];
    TotalSizeAppend(ps[..i], [ps[i]]);
    assert TotalSize([ps[i]]) == |ps[i]|;
  }

  /** Append all buffers to `out`, one after the other. */
  method AppendAll(out: Bytes, ps: seq<Bytes>) returns (r: Bytes)
    ensures r == out + Concat(ps)
  {
    r := out;
    for i := 0 to |ps|
      invariant r == out + Concat(ps[..i])
    {
      ConcatSnoc(ps, i);
      r := r + ps[i];
    }
    assert ps[..|ps|] == ps;
  }

  /** Append the 16-bit length of every buffer to `out`. */
  method AppendLengths(out: Bytes, ps: seq<Bytes>) returns (r: Bytes)
    ensures r == out + Concat(Sizes(ps))
  {
    r := out;
    ghost var sizes := Sizes(ps);
    for i := 0 to |ps|
      invariant r == out + Concat(sizes[..i])
    {
      ConcatSnoc(sizes, i);
      r := r + LE16(|ps[i]|);
    }
    assert sizes[..|ps|] == sizes;
  }

  class Builder {
    var buffers: seq<Bytes>
    var totalPayloadSize: nat

    /** The size counter agrees with the buffers. */
    ghost predicate Valid()
      reads this
    {
      totalPayloadSize == TotalSize(buffers)
    }

    constructor ()
      ensures Valid() && buffers == []
    {
      buffers, totalPayloadSize := [], 0;
    }

    /** One frame holding every buffer, or nothing, or an overflow error. */
    method GetData(withHeader: bool) returns (r: Built)
      ensures r == Frame(buffers, withHeader)
    {
      if buffers == [] {
        return Data([]);
      }
      if |buffers| > MAX_ENTRIES {
        return Overflow;
      }
      var size := 0;
      for i := 0 to |buffers|
        invariant size == TotalSize(buffers[..i])
      {
        TotalSizeSnoc(buffers, i);
        size := size + |buffers[i]|;
      }
      assert buffers[..|buffers|] == buffers;
      if size > MAX_TOTAL {
        return Overflow;
      }
      var header := (2 + |buffers| * 2 + size + 2) % 0x1_0000_0000;
      var body := AppendLengths(LE16(|buffers|), buffers);
      body := AppendAll(body, buffers);
      body := body + LE16(Crc16.Crc(body));
      r := Data((if withHeader then LE32(header) else []) + body);
    }

    method Flush()
      modifies this
      ensures Valid() && buffers == []
    {
      buffers, totalPayloadSize := [], 0;
    }

    /** Every `add` method pushes one payload and counts its size. */
    method Push(payload: Bytes, size: nat)
      requires Valid() && |payload| == size
      modifies this
      ensures Valid() && buffers == old(buffers) + [payload]
    {
      TotalSizeAppend(buffers, [payload]);
      assert TotalSize([payload]) == size;
      buffers, totalPayloadSize := buffers + [payload], totalPayloadSize + size;
    }

    // requests

    method AddPingRequest(tx: Uuid)
      requires Valid()
      modifies this
      ensures Valid() && buffers == old(buffers) + [Payload(PingRequest(tx))]
    {
      Push(Payload(PingRequest(tx)), 18);
    }

    method AddIdentifyRequest(node: Uuid, connections: Word, tx: Uuid, port: Word, host: Bytes)
      requires Valid()
      modifies this
      ensures Valid() && buffers == old(buffers) + [Payload(IdentifyRequest(node, connections, tx, port, host))]
    {
      var size := 36;
      if port != 0 || host != [] {
        size := size + 2 + |host|;
      }
      Push(Payload(IdentifyRequest(node, connections, tx, port, host)), size);
    }

    method AddDiscoveryRequest(tx: Uuid)
      requires Valid()
      modifies this
      ensures Valid() && buffers == old(buffers) + [Payload(DiscoveryRequest(tx))]
    {
      Push(Payload(DiscoveryRequest(tx)), 18);
    }

    method AddJoinRequest(websocket: Uuid, tx: Uuid)
      requires Valid()
      modifies this
      ensures Valid() && buffers == old(buffers) + [Payload(JoinRequest(websocket, tx))]
    {
      Push(Payload(JoinRequest(websocket, tx)), 34);
    }

    method AddLeaveRequest(websocket: Uuid, tx: Uuid)
      requires Valid()
      modifies this
      ensures Valid() && buffers == old(buffers) + [Payload(LeaveRequest(websocket, tx))]
    {
      Push(Payload(LeaveRequest(websocket, tx)), 34);
    }

    method AddWhoamiRequest(tx: Uuid)
      requires Valid()
      modifies this
      ensures Valid() && buffers == old(buffers) + [Payload(WhoamiRequest(tx))]
    {
      Push(Payload(WhoamiRequest(tx)), 18);
    }

    // responses

    method AddPingResponse(tx: Uuid, code: Byte)
      requires Valid()
      modifies this
      ensures Valid() && buffers == old(buffers) + [Payload(PingResponse(tx, code))]
    {
      Push(Payload(PingResponse(tx, code)), 19);
    }

    method AddIdentifyResponse(tx: Uuid, node: Uuid)
      requires Valid()
      modifies this
      ensures Valid() && buffers == old(buffers) + [Payload(IdentifyResponse(tx, node))]
    {
      Push(Payload(IdentifyResponse(tx, node)), 34);
    }

    method AddNonImplementedResponse(op: Byte, tx: Uuid)
      requires Valid()
      modifies this
      ensures Valid() && buffers == old(buffers) + [Payload(NonImplementedResponse(op, tx))]
    {
      Push(Payload(NonImplementedResponse(op, tx)), 19);
    }

    method AddDiscoveryResponse(tx: Uuid, peers: seq<Peer>)
      requires Valid()
      modifies this
      ensures Valid() && buffers == old(buffers) + [Payload(DiscoveryResponse(tx, peers))]
    {
      var body, size := WriteList(peers);
      Push(Payload(Entry(OP_DISCOVERY, RESPONSE, tx, body)), 18 + size);
    }

    method AddJoinResponse(tx: Uuid, count: nat)
      requires Valid()
      modifies this
      ensures Valid() && buffers == old(buffers) + [Payload(JoinResponse(tx, count))]
    {
      Push(Payload(JoinResponse(tx, count)), 26);
    }

    method AddLeaveResponse(tx: Uuid, count: nat)
      requires Valid()
      modifies this
      ensures Valid() && buffers == old(buffers) + [Payload(LeaveResponse(tx, count))]
    {
      Push(Payload(LeaveResponse(tx, count)), 26);
    }

    method AddWhoamiResponse(tx: Uuid, session: Uuid, node: Uuid, kind: SessionType)
      requires Valid()
      modifies this
      ensures Valid() && buffers == old(buffers) + [Payload(WhoamiResponse(tx, session, node, kind))]
    {
      Push(Payload(WhoamiResponse(tx, session, node, kind)), 51);
    }
  }

  /** Write a peer list: the count, every pair, then every host; and size it as announced. */
  method WriteList(peers: seq<Peer>) returns (body: Bytes, size: nat)
    ensures body == ListBody(peers) && size == |body|
  {
    size := 4;
    ghost var blocks := Blocks(peers);
    for i := 0 to |peers|
      invariant size == 4 + |Concat(blocks[..i])|
    {
      ConcatSnoc(blocks, i);
      size := size + 2 + 2 + |peers[i].host|;
    }
    assert blocks[..|peers|] == blocks;
    body := LE32(|peers|);
    ghost var pairs := Pairs(peers);
    for i := 0 to |peers|
      invariant body == LE32(|peers|) + Concat(pairs[..i])
    {
      ConcatSnoc(pairs, i);
      body := body + LE16(peers[i].port) + LE16(|peers[i].host|);
    }
    assert pairs[..|peers|] == pairs;
    ghost var front, hosts := body, Hosts(peers);
    for i := 0 to |peers|
      invariant body == front + Concat(hosts[..i])
    {
      ConcatSnoc(hosts, i);
      body := body + peers[i].host;
    }
    assert hosts[..|peers|] == hosts;
    LayoutSizes(peers);
  }
}
