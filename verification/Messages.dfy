/** The entries the request and response builders write. */
module Messages {
  import opened Bytes
  import opened Protocol
  import Discovery

  function PingRequest(tx: Uuid): Entry {
    Entry(OP_PING, REQUEST, tx, [])
  }

  /** The port and host are left out only when both are blank. */
  function IdentifyRequest(node: Uuid, connections: Word, tx: Uuid, port: Word, host: Bytes): Entry {
    Entry(OP_IDENTIFY, REQUEST, tx,
          node + LE16(connections) + if port != 0 || host != [] then LE16(port) + host else [])
  }

  function DiscoveryRequest(tx: Uuid): Entry {
    Entry(OP_DISCOVERY, REQUEST, tx, [])
  }

  function JoinRequest(websocket: Uuid, tx: Uuid): Entry {
    Entry(OP_JOIN, REQUEST, tx, websocket)
  }

  function LeaveRequest(websocket: Uuid, tx: Uuid): Entry {
    Entry(OP_LEAVE, REQUEST, tx, websocket)
  }

  function WhoamiRequest(tx: Uuid): Entry {
    Entry(OP_WHOAMI, REQUEST, tx, [])
  }

  function PingResponse(tx: Uuid, code: Byte): Entry {
    Entry(OP_PING, RESPONSE, tx, [code])
  }

  function IdentifyResponse(tx: Uuid, node: Uuid): Entry {
    Entry(OP_IDENTIFY, RESPONSE, tx, node)
  }

  function NonImplementedResponse(op: Byte, tx: Uuid): Entry {
    Entry(op, RESPONSE, tx, [EXIT_NON_IMPLEMENTED])
  }

  function DiscoveryResponse(tx: Uuid, peers: seq<Discovery.Peer>): Entry {
    Entry(OP_DISCOVERY, RESPONSE, tx, Discovery.ListBody(peers))
  }

  function JoinResponse(tx: Uuid, count: nat): Entry {
    Entry(OP_JOIN, RESPONSE, tx, LE64(count))
  }

  function LeaveResponse(tx: Uuid, count: nat): Entry {
    Entry(OP_LEAVE, RESPONSE, tx, LE64(count))
  }

  function WhoamiResponse(tx: Uuid, session: Uuid, node: Uuid, kind: SessionType): Entry {
    Entry(OP_WHOAMI, RESPONSE, tx, session + node + [if kind == Tcp then 0 else 1])
  }

  /** What the identify handler reads back from an identify request. */
  lemma IdentifyFields(node: Uuid, connections: Word, tx: Uuid, port: Word, host: Bytes)
    ensures var body := IdentifyRequest(node, connections, tx, port, host).body;
            && 18 <= |body| && body[..16] == node && At16(body, 16) == connections
            && (port != 0 || host != [] ==> 20 <= |body| && At16(body, 18) == port && body[20..] == host)
            && (port == 0 && host == [] ==> |body| == 18)
  {
    var tail := if port != 0 || host != [] then LE16(port) + host else [];
    assert node + LE16(connections) + tail == IdentifyRequest(node, connections, tx, port, host).body;
    ReadBack16(node, connections, tail);
    if port != 0 || host != [] {
      var front := node + LE16(connections);
      assert front + tail == front + LE16(port) + host;
      ReadBack16(front, port, host);
    }
  }
}
