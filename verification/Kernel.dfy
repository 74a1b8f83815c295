/** The session kernel: parse a frame, run the handlers of its entries, build the reply. */
module Kernel {
  import opened Bytes
  import opened Protocol
  import opened Frames
  import opened Registry
  import opened NodeModel
  import FB = FrameBuilder
  import S = State
  import Crc16

  datatype Reply = Nothing | Reply(built: Built)

  /** The entries found in a frame. */
  function Found(frame: Bytes): seq<Entry> {
    match Parse(frame) case None => [] case Some(scan) => scan.entries
  }

  /** Handlers run on the entries that were found, even if a later one is malformed; a reply
      exists only if all were found. */
  function KernelNode(env: Env, n: Node, me: Ref, frame: Bytes): Node {
    match Parse(frame)
    case None => n
    case Some(scan) => HandleAll(env, n, me, scan.entries).node
  }

  function KernelReply(env: Env, n: Node, me: Ref, frame: Bytes): Reply {
    match Parse(frame)
    case None => Nothing
    case Some(scan) =>
      if scan.complete
      then Reply(Frame(Payloads(HandleAll(env, n, me, scan.entries).replies), At(n, me).kind == Tcp))
      else Nothing
  }

  /** What the kernel does with a frame that passes the checksum test and holds its length table: the
      handlers of the entries before the first ill-formed one have run, and there is a reply only if
      there is no ill-formed one. */
  lemma KernelRunsPrefix(env: Env, n: Node, me: Ref, frame: Bytes, es: seq<Entry>)
    requires ChecksumOk(frame) && 4 <= |frame| && 4 + 2 * At16(frame, 0) <= |frame|
    requires Leads(frame, At16(frame, 0), es)
    ensures KernelNode(env, n, me, frame) == HandleAll(env, n, me, es).node
    ensures KernelReply(env, n, me, frame) ==
            if |es| == At16(frame, 0) then Reply(Frame(Payloads(HandleAll(env, n, me, es).replies), At(n, me).kind == Tcp)) else Nothing
  {
    ParseOfLeading(frame, At16(frame, 0), es);
  }

  /** Any other frame changes nothing and gets no reply. */
  lemma KernelDrops(env: Env, n: Node, me: Ref, frame: Bytes)
    requires !ChecksumOk(frame) || |frame| < 4 || |frame| < 4 + 2 * At16(frame, 0)
    ensures KernelNode(env, n, me, frame) == n && KernelReply(env, n, me, frame) == Nothing
  {
  }

  lemma HandleCons(env: Env, n: Node, me: Ref, e: Entry, es: seq<Entry>)
    ensures HandleAll(env, n, me, [e] + es) ==
            Outcome(HandleAll(env, Handle(env, n, me, e).node, me, es).node,
                    Handle(env, n, me, e).replies + HandleAll(env, Handle(env, n, me, e).node, me, es).replies)
  {
    assert ([e] + es)[0] == e && ([e] + es)[1..] == es;
  }

  /** The buffers collected so far and the replies still to come make up all replies. */
  ghost predicate Remaining(env: Env, n: Node, me: Ref, es: seq<Entry>, buffers: seq<Bytes>, goal: Outcome) {
    && HandleAll(env, n, me, es).node == goal.node
    && buffers + Payloads(HandleAll(env, n, me, es).replies) == Payloads(goal.replies)
  }

  lemma RemainingStep(env: Env, n: Node, me: Ref, e: Entry, es: seq<Entry>, buffers: seq<Bytes>, goal: Outcome)
    requires Remaining(env, n, me, [e] + es, buffers, goal)
    ensures Remaining(env, Handle(env, n, me, e).node, me, es, buffers + Payloads(Handle(env, n, me, e).replies), goal)
  {
    HandleCons(env, n, me, e, es);
    var first, rest := Handle(env, n, me, e), HandleAll(env, Handle(env, n, me, e).node, me, es);
    PayloadsAppend(first.replies, rest.replies);
    Associate(buffers, Payloads(first.replies), Payloads(rest.replies));
  }

  lemma Associate<T>(a: seq<T>, b: seq<T>, c: seq<T>)
    ensures a + (b + c) == (a + b) + c
  {
  }

  lemma RemainingStart(env: Env, n: Node, me: Ref, es: seq<Entry>)
    ensures Remaining(env, n, me, es, [], HandleAll(env, n, me, es))
  {
    assert [] + Payloads(HandleAll(env, n, me, es).replies) == Payloads(HandleAll(env, n, me, es).replies);
  }

  lemma RemainingEnd(env: Env, n: Node, me: Ref, buffers: seq<Bytes>, goal: Outcome)
    requires Remaining(env, n, me, [], buffers, goal)
    ensures n == goal.node && buffers == Payloads(goal.replies)
  {
    assert buffers + Payloads([]) == buffers;
  }

  /** The length table, read entry by entry. */
  method ReadTable(frame: Bytes, n: nat) returns (lens: seq<nat>, offset: nat)
    requires 4 + 2 * n <= |frame|
    ensures lens == Table(frame, 2, n) && offset == 2 + 2 * n
  {
    lens, offset := [], 2;
    for i := 0 to n
      invariant offset == 2 + 2 * i && |lens| == i
      invariant forall k :: 0 <= k < i ==> lens[k] == At16(frame, 2 + 2 * k)
    {
      lens := lens + [At16(frame, offset)];
      offset := offset + 2;
    }
  }

  /** Decode the entry at the cursor and run its handler. */
  method DispatchAt(env: Env, state: S.State, me: Ref, frame: Bytes, offset: nat, length: nat, builder: FB.Builder)
    requires state.Valid() && builder.Valid() && me in state.objects
    requires PREFIX <= length && offset + length <= |frame|
    modifies state, state.sessions, builder
    ensures state.Valid() && builder.Valid() && me in state.objects
    ensures state.View() == Handle(env, old(state.View()), me, EntryOf(frame[offset..offset + length])).node
    ensures builder.buffers == old(builder.buffers)
              + Payloads(Handle(env, old(state.View()), me, EntryOf(frame[offset..offset + length])).replies)
  {
    var tx := frame[offset + 2..offset + PREFIX];
    var payload := frame[offset + PREFIX..offset + length];
    SubSlice(frame, offset, length, 2, PREFIX);
    SubSlice(frame, offset, length, PREFIX, length);
    var e := Entry(frame[offset], frame[offset + 1], tx, payload);
    assert e == EntryOf(frame[offset..offset + length]);
    state.Dispatch(env, me, e, builder);
  }

  /** A walk that gets past its first entry, and one that does not. */
  lemma WalkFirst(frame: Bytes, end: nat, offset: nat, length: nat, rest: seq<nat>)
    requires offset <= end <= |frame|
    ensures PREFIX <= length <= end - offset ==>
              Walk(frame, end, offset, [length] + rest) ==
              Scan([EntryOf(frame[offset..offset + length])] + Walk(frame, end, offset + length, rest).entries,
                   Walk(frame, end, offset + length, rest).complete)
    ensures !(PREFIX <= length <= end - offset) ==> Walk(frame, end, offset, [length] + rest) == Scan([], false)
  {
    assert ([length] + rest)[1..] == rest;
  }

  /** The walk from `offset` over `rest` finds the entries still to be handled. */
  ghost predicate Ahead(env: Env, n: Node, me: Ref, frame: Bytes, offset: nat, rest: seq<nat>, buffers: seq<Bytes>, goal: Outcome, whole: bool)
    requires 2 <= |frame|
  {
    && offset <= |frame| - 2
    && Walk(frame, |frame| - 2, offset, rest).complete == whole
    && Remaining(env, n, me, Walk(frame, |frame| - 2, offset, rest).entries, buffers, goal)
  }

  /** Check one entry and run its handler; `rest` are the lengths after it. */
  method DispatchNext(env: Env, state: S.State, me: Ref, frame: Bytes, offset: nat, length: nat, builder: FB.Builder,
                      ghost rest: seq<nat>, ghost goal: Outcome, ghost whole: bool)
    returns (found: bool)
    requires state.Valid() && builder.Valid() && me in state.objects && 2 <= |frame|
    requires Ahead(env, state.View(), me, frame, offset, [length] + rest, builder.buffers, goal, whole)
    modifies state, state.sessions, builder
    ensures state.Valid() && builder.Valid() && me in state.objects
    ensures found ==> Ahead(env, state.View(), me, frame, offset + length, rest, builder.buffers, goal, whole)
    ensures !found ==> !whole && state.View() == goal.node && builder.buffers == Payloads(goal.replies)
  {
    WalkFirst(frame, |frame| - 2, offset, length, rest);
    found := !(|frame| - 2 - offset < length || length < PREFIX);
    if found {
      RemainingStep(env, state.View(), me, EntryOf(frame[offset..offset + length]),
                    Walk(frame, |frame| - 2, offset + length, rest).entries, builder.buffers, goal);
      DispatchAt(env, state, me, frame, offset, length, builder);
    } else {
      RemainingEnd(env, state.View(), me, builder.buffers, goal);
    }
  }

  /** Walk the entries in order. The cursor stays before the checksum throughout. */
  method DispatchAll(env: Env, state: S.State, me: Ref, frame: Bytes, start: nat, lens: seq<nat>, builder: FB.Builder,
                     ghost goal: Outcome, ghost whole: bool)
    returns (complete: bool)
    requires state.Valid() && builder.Valid() && me in state.objects && 2 <= |frame|
    requires Ahead(env, state.View(), me, frame, start, lens, builder.buffers, goal, whole)
    modifies state, state.sessions, builder
    ensures state.Valid()
    ensures complete == whole && state.View() == goal.node && builder.buffers == Payloads(goal.replies)
  {
    var offset, i := start, 0;
    ghost var rest := lens;
    complete := true;
    while i < |lens| && complete
      invariant 0 <= i <= |lens| && 0 <= offset && rest == lens[i..]
      invariant state.Valid() && builder.Valid() && me in state.objects
      invariant complete ==> Ahead(env, state.View(), me, frame, offset, rest, builder.buffers, goal, whole)
      invariant !complete ==> !whole && state.View() == goal.node && builder.buffers == Payloads(goal.replies)
      decreases |lens| - i, complete
    {
      ghost var tail := lens[i + 1..];
      assert rest == [lens[i]] + tail;
      complete := DispatchNext(env, state, me, frame, offset, lens[i], builder, tail, goal, whole);
      if complete {
        offset, i, rest := offset + lens[i], i + 1, tail;
      }
    }
    if complete {
      RemainingEnd(env, state.View(), me, builder.buffers, goal);
    }
  }

  /** The outcome a sound frame with a readable table leads to. */
  lemma AheadStart(env: Env, n: Node, me: Ref, frame: Bytes, scan: Scan)
    requires Parse(frame) == Some(scan)
    ensures 4 + 2 * At16(frame, 0) <= |frame|
    ensures Ahead(env, n, me, frame, 2 + 2 * At16(frame, 0), Table(frame, 2, At16(frame, 0)), [],
                  HandleAll(env, n, me, scan.entries), scan.complete)
  {
    RemainingStart(env, n, me, scan.entries);
  }

  /** Whether the stored checksum is that of the bytes before it. */
  method Check(frame: Bytes) returns (ok: bool)
    ensures ok == ChecksumOk(frame)
  {
    if |frame| < 2 {
      return false;
    }
    ok := Crc16.Crc(frame[..|frame| - 2]) == At16(frame, |frame| - 2);
  }

  /** Handle one frame received by session `me`. */
  method HandleFrame(env: Env, state: S.State, me: Ref, frame: Bytes) returns (reply: Reply)
    requires state.Valid() && me in state.objects
    modifies state, state.sessions
    ensures state.Valid()
    ensures state.View() == KernelNode(env, old(state.View()), me, frame)
    ensures reply == KernelReply(env, old(state.View()), me, frame)
  {
    var sound := Check(frame);
    if !sound || |frame| - 2 < 2 {
      return Nothing;
    }
    var n: nat := At16(frame, 0);
    if |frame| - 2 - 2 < n * 2 {
      return Nothing;
    }
    ghost var scan := Parse(frame).value;
    ghost var goal := HandleAll(env, state.View(), me, scan.entries);
    AheadStart(env, state.View(), me, frame, scan);
    reply := HandleEntries(env, state, me, frame, n, goal, scan.complete);
  }

  method HandleEntries(env: Env, state: S.State, me: Ref, frame: Bytes, n: nat, ghost goal: Outcome, ghost whole: bool)
    returns (reply: Reply)
    requires state.Valid() && me in state.objects
    requires 4 + 2 * n <= |frame|
    requires Ahead(env, state.View(), me, frame, 2 + 2 * n, Table(frame, 2, n), [], goal, whole)
    modifies state, state.sessions
    ensures state.Valid() && state.View() == goal.node
    ensures reply == if whole then Reply(Frame(Payloads(goal.replies), old(state.objects[me]).kind == Tcp)) else Nothing
  {
    var headed := state.objects[me].kind == Tcp;
    var builder := new FB.Builder();
    var complete := DispatchTable(env, state, me, frame, n, builder, goal, whole);
    reply := Answer(builder, complete, headed);
  }

  /** Read the length table, then walk the entries. */
  method DispatchTable(env: Env, state: S.State, me: Ref, frame: Bytes, n: nat, builder: FB.Builder,
                       ghost goal: Outcome, ghost whole: bool)
    returns (complete: bool)
    requires state.Valid() && builder.Valid() && me in state.objects && 4 + 2 * n <= |frame|
    requires Ahead(env, state.View(), me, frame, 2 + 2 * n, Table(frame, 2, n), builder.buffers, goal, whole)
    modifies state, state.sessions, builder
    ensures state.Valid()
    ensures complete == whole && state.View() == goal.node && builder.buffers == Payloads(goal.replies)
  {
    var lens, offset := ReadTable(frame, n);
    complete := DispatchAll(env, state, me, frame, offset, lens, builder, goal, whole);
  }

  /** There is a reply only if every entry was well formed. */
  method Answer(builder: FB.Builder, complete: bool, headed: bool) returns (reply: Reply)
    ensures reply == if complete then Reply(Frame(builder.buffers, headed)) else Nothing
  {
    if !complete {
      return Nothing;
    }
    var built := builder.GetData(headed);
    reply := Reply(built);
  }
}
