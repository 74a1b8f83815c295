/** Constants and values of the batch protocol: opcodes, message types, entries. */
module Protocol {
  import opened Bytes

  datatype Option<+T> = None | Some(value: T)

  /** The elements without the one at `i`. */
  function Drop<T>(s: seq<T>, i: nat): seq<T>
    requires i < |s|
  {
    s[..i] + s[i + 1..]
  }

  datatype SessionType = Tcp | WebSocket

  const NIL := [0, 0, 0, 0, 0, 0, 0, 0, 0, 0, 0, 0, 0, 0, 0, 0]

  type Uuid = u: Bytes | |u| == 16 witness NIL

  const OP_NON_IMPLEMENTED: Byte := 0
  const OP_PING: Byte := 1
  const OP_IDENTIFY: Byte := 2
  const OP_DISCOVERY: Byte := 3
  const OP_JOIN: Byte := 4
  const OP_LEAVE: Byte := 5
  const OP_WHOAMI: Byte := 6

  const REQUEST: Byte := 0
  const RESPONSE: Byte := 1

  const EXIT_NON_IMPLEMENTED: Byte := 0
  const EXIT_SUCCESS: Byte := 200

  /** Opcode, message type and transaction id take 18 bytes of every payload. */
  const PREFIX := 18

  /** What a handler is called with: one decoded payload of a frame. */
  datatype Entry = Entry(op: Byte, kind: Byte, tx: Uuid, body: Bytes)

  function Payload(e: Entry): (p: Bytes)
    ensures |p| == PREFIX + |e.body|
  {
    [e.op, e.kind] + e.tx + e.body
  }

  /** Where the fields of a payload are. */
  lemma PayloadFields(e: Entry)
    ensures var p := Payload(e);
            p[0] == e.op && p[1] == e.kind && p[2..18] == e.tx && p[18..] == e.body
  {
  }

  function EntryOf(p: Bytes): Entry
    requires PREFIX <= |p|
  {
    Entry(p[0], p[1], p[2..PREFIX], p[PREFIX..])
  }

  lemma EntryOfPayload(e: Entry)
    ensures EntryOf(Payload(e)) == e
  {
    assert Payload(e)[2..PREFIX] == e.tx && Payload(e)[PREFIX..] == e.body;
  }

  lemma PayloadOfEntry(p: Bytes)
    requires PREFIX <= |p|
    ensures Payload(EntryOf(p)) == p
  {
    assert p == [p[0], p[1]] + p[2..PREFIX] + p[PREFIX..];
  }

  function Payloads(es: seq<Entry>): seq<Bytes> {
    seq(|es|, i requires 0 <= i < |es| => Payload(es[i]))
  }

  lemma PayloadsOne(e: Entry)
    ensures Payloads([e]) == [Payload(e)]
  {
  }

  lemma PayloadsAppend(a: seq<Entry>, b: seq<Entry>)
    ensures Payloads(a + b) == Payloads(a) + Payloads(b)
  {
  }
}
