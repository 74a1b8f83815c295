/**
 The frame layout: an entry count, a table of entry lengths, the entries, and a checksum.
 `Covered` and `Frame` say what the builder writes; `Parse` says what the kernel reads.
 */
module Frames {
  import opened Bytes
  import opened Protocol
  import Crc16

  // ---------------------------------------------------------------- writing

  function Concat(ps: seq<Bytes>): Bytes {
    if ps == [] then [] else ps[0] + Concat(ps[1..])
  }

  function Sizes(ps: seq<Bytes>): seq<Bytes> {
    seq(|ps|, i requires 0 <= i < |ps| => LE16(|ps[i]|))
  }

  function TotalSize(ps: seq<Bytes>): nat {
    if ps == [] then 0 else |ps[0]| + TotalSize(ps[1..])
  }

  /** The bytes the checksum covers. */
  function Covered(ps: seq<Bytes>): Bytes {
    LE16(|ps|) + Concat(Sizes(ps)) + Concat(ps)
  }

  function Sealed(covered: Bytes): (r: Bytes)
    ensures |r| == |covered| + 2
  {
    covered + LE16(Crc16.Crc(covered))
  }

  /** The frame that carries the entries, without a length header. */
  function Body(es: seq<Entry>): Bytes {
    Sealed(Covered(Payloads(es)))
  }

  const MAX_ENTRIES := 65535
  const MAX_TOTAL := 4294967295 - 131078

  /** What the length header holds: the frame size cast to 32 bits. */
  function HeaderValue(ps: seq<Bytes>): nat {
    (2 + |ps| * 2 + TotalSize(ps) + 2) % 0x1_0000_0000
  }

  datatype Built = Data(bytes: Bytes) | Overflow

  /** No payloads, no bytes; too many payloads or payload bytes, an overflow error. */
  function Frame(ps: seq<Bytes>, withHeader: bool): Built {
    if ps == [] then
      Data([])
    else if |ps| > MAX_ENTRIES || TotalSize(ps) > MAX_TOTAL then
      Overflow
    else
      Data((if withHeader then LE32(HeaderValue(ps)) else []) + Sealed(Covered(ps)))
  }

  lemma {:induction false} ConcatAppend(a: seq<Bytes>, b: seq<Bytes>)
    ensures Concat(a + b) == Concat(a) + Concat(b)
  {
    if a == [] {
      assert a + b == b;
    } else {
      assert (a + b)[0] == a[0] && (a + b)[1..] == a[1..] + b;
      ConcatAppend(a[1..], b);
    }
  }

  /** The step of every loop that appends the buffers one by one. */
  lemma ConcatSnoc(ps: seq<Bytes>, i: nat)
    requires i < |ps|
    ensures Concat(ps[..i + 1]) == Concat(ps[..i]) + ps[i]
  {
    assert ps[..i + 1] == ps[..i] + [ps[i]];
    ConcatAppend(ps[..i], [ps[i]]);
    assert Concat([ps[i]]) == ps[i];
  }

  lemma {:induction false} ConcatSize(ps: seq<Bytes>)
    ensures |Concat(ps)| == TotalSize(ps)
  {
    if ps != [] {
      ConcatSize(ps[1..]);
    }
  }

  lemma {:induction false} ConcatSizes(ps: seq<Bytes>)
    ensures |Concat(Sizes(ps))| == 2 * |ps|
  {
    if ps != [] {
      assert Sizes(ps)[1..] == Sizes(ps[1..]);
      ConcatSizes(ps[1..]);
    }
  }

  lemma {:induction false} TotalSizeBound(ps: seq<Bytes>)
    requires forall i :: 0 <= i < |ps| ==> |ps[i]| <= 65535
    ensures TotalSize(ps) <= 65535 * |ps|
  {
    if ps != [] {
      TotalSizeBound(ps[1..]);
    }
  }

  lemma CoveredSize(ps: seq<Bytes>)
    ensures |Covered(ps)| == 2 + 2 * |ps| + TotalSize(ps)
  {
    ConcatSize(ps);
    ConcatSizes(ps);
  }

  /** The 32-bit header never wraps: it is the true size of what follows it. */
  lemma HeaderIsBodySize(ps: seq<Bytes>)
    requires |ps| <= MAX_ENTRIES && TotalSize(ps) <= MAX_TOTAL
    ensures HeaderValue(ps) == |Sealed(Covered(ps))|
    ensures |Sealed(Covered(ps))| < 0x1_0000_0000
  {
    CoveredSize(ps);
    NoWrap(|ps|, TotalSize(ps));
  }

  lemma NoWrap(n: nat, total: nat)
    requires n <= MAX_ENTRIES && total <= MAX_TOTAL
    ensures (2 + n * 2 + total + 2) % 0x1_0000_0000 == 4 + 2 * n + total < 0x1_0000_0000
  {
  }

  /** With payloads that fit their length fields, the byte guard rejects exactly the frames of
      65535 entries whose total is within seven bytes of the largest possible one. */
  lemma ByteGuardIsTight(ps: seq<Bytes>)
    requires |ps| <= MAX_ENTRIES
    requires forall i :: 0 <= i < |ps| ==> |ps[i]| <= 65535
    ensures TotalSize(ps) > MAX_TOTAL <==> |ps| == 65535 && TotalSize(ps) >= 65535 * 65535 - 7
  {
    TotalSizeBound(ps);
    assert |ps| <= 65534 ==> 65535 * |ps| <= 65535 * 65534;
  }

  // ---------------------------------------------------------------- reading

  /** The entries handlers are run on, and whether every entry of the table was among them. */
  datatype Scan = Scan(entries: seq<Entry>, complete: bool)

  function Table(s: Bytes, from: nat, n: nat): seq<nat>
    requires from + 2 * n <= |s|
  {
    seq(n, i requires 0 <= i < n => At16(s, from + 2 * i))
  }

  /** Walk the entries of the given lengths that start at `at`, up to the first that is too
      short for its prefix or does not fit before `end`. */
  function Walk(s: Bytes, end: nat, at: nat, lens: seq<nat>): Scan
    requires at <= end <= |s|
    decreases |lens|
  {
    if lens == [] then
      Scan([], true)
    else if end - at < lens[0] || lens[0] < PREFIX then
      Scan([], false)
    else
      var rest := Walk(s, end, at + lens[0], lens[1..]);
      Scan([EntryOf(s[at..at + lens[0]])] + rest.entries, rest.complete)
  }

  predicate ChecksumOk(frame: Bytes) {
    2 <= |frame| && Crc16.Crc(frame[..|frame| - 2]) == At16(frame, |frame| - 2)
  }

  /** The count, the table and the walk, for a frame with a sound checksum. */
  function ParseEntries(frame: Bytes): Option<Scan>
    requires 4 <= |frame|
  {
    var n := At16(frame, 0);
    if |frame| - 4 < 2 * n then
      None
    else
      Some(Walk(frame, |frame| - 2, 2 + 2 * n, Table(frame, 2, n)))
  }

  /** None if the frame is dropped before any handler runs. */
  function Parse(frame: Bytes): Option<Scan> {
    if !ChecksumOk(frame) || |frame| - 2 < 2 then None else ParseEntries(frame)
  }

  /** A payload the kernel can find again: it holds the prefix and fits its length field. */
  predicate Framable(p: Bytes) {
    PREFIX <= |p| <= 65535
  }

  predicate AllFramable(ps: seq<Bytes>) {
    forall i :: 0 <= i < |ps| ==> Framable(ps[i])
  }

  function Entries(ps: seq<Bytes>): seq<Entry>
    requires AllFramable(ps)
  {
    seq(|ps|, i requires 0 <= i < |ps| => assert Framable(ps[i]); EntryOf(ps[i]))
  }

  lemma EntriesOfPayloads(es: seq<Entry>)
    requires AllFramable(Payloads(es))
    ensures Entries(Payloads(es)) == es
  {
    forall i | 0 <= i < |es|
      ensures Entries(Payloads(es))[i] == es[i]
    {
      EntryOfPayload(es[i]);
    }
  }

  function LengthsOf(ps: seq<Bytes>): seq<nat> {
    seq(|ps|, i requires 0 <= i < |ps| => |ps[i]|)
  }

  /** The pieces lie back to back from `at` and end before `end`. */
  predicate Cuts(s: Bytes, at: nat, end: nat, ps: seq<Bytes>) {
    at + |Concat(ps)| <= end <= |s| && s[at..at + |Concat(ps)|] == Concat(ps)
  }

  lemma CutsCons(s: Bytes, at: nat, end: nat, n: nat, ps: seq<Bytes>)
    requires at + n <= end <= |s|
    requires Cuts(s, at + n, end, ps)
    ensures Cuts(s, at, end, [s[at..at + n]] + ps)
  {
    var p := s[at..at + n];
    var m := |Concat(ps)|;
    assert ([p] + ps)[1..] == ps;
    assert s[at..at + (n + m)] == p + s[at + n..(at + n) + m];
  }

  lemma CutsTail(s: Bytes, at: nat, end: nat, ps: seq<Bytes>)
    requires ps != [] && Cuts(s, at, end, ps)
    ensures at + |ps[0]| <= end && s[at..at + |ps[0]|] == ps[0]
    ensures Cuts(s, at + |ps[0]|, end, ps[1..])
  {
    var n, m := |ps[0]|, |Concat(ps[1..])|;
    var all := s[at..at + (n + m)];
    assert all == ps[0] + Concat(ps[1..]);
    assert all[..n] == s[at..at + n] && all[n..] == s[at + n..(at + n) + m];
  }

  /** The pieces of equal size lie at multiples of that size. */
  lemma {:induction false} SizesAt(s: Bytes, from: nat, end: nat, ps: seq<Bytes>, i: nat)
    requires Cuts(s, from, end, Sizes(ps)) && i < |ps|
    ensures from + 2 * i + 2 <= end && s[from + 2 * i..from + 2 * i + 2] == LE16(|ps[i]|)
    decreases i
  {
    CutsTail(s, from, end, Sizes(ps));
    if i > 0 {
      assert Sizes(ps)[1..] == Sizes(ps[1..]);
      SizesAt(s, from + 2, end, ps[1..], i - 1);
    }
  }

  /** The length table reads back as written. */
  lemma TableOfSizes(s: Bytes, from: nat, end: nat, ps: seq<Bytes>)
    requires AllFramable(ps) && Cuts(s, from, end, Sizes(ps))
    ensures from + 2 * |ps| <= |s| && Table(s, from, |ps|) == LengthsOf(ps)
  {
    ConcatSizes(ps);
    forall i | 0 <= i < |ps|
      ensures At16(s, from + 2 * i) == |ps[i]|
    {
      SizesAt(s, from, end, ps, i);
      assert Framable(ps[i]);
      ReadSlice16(s, from + 2 * i, |ps[i]|);
    }
  }

  /** The walk finds exactly the payloads that were written. */
  lemma {:induction false} WalkOfConcat(s: Bytes, at: nat, end: nat, ps: seq<Bytes>)
    requires AllFramable(ps) && Cuts(s, at, end, ps)
    ensures Walk(s, end, at, LengthsOf(ps)) == Scan(Entries(ps), true)
    decreases |ps|
  {
    if ps != [] {
      assert Framable(ps[0]);
      CutsTail(s, at, end, ps);
      WalkOfConcat(s, at + |ps[0]|, end, ps[1..]);
      assert LengthsOf(ps)[1..] == LengthsOf(ps[1..]);
      assert Entries(ps) == [EntryOf(ps[0])] + Entries(ps[1..]);
    }
  }

  /** A frame holds the count, the length table and the payloads, in that order. */
  predicate Holds(frame: Bytes, ps: seq<Bytes>) {
    && 4 <= |frame|
    && frame[0..2] == LE16(|ps|)
    && Cuts(frame, 2, |frame| - 2, Sizes(ps))
    && Cuts(frame, 2 + 2 * |ps|, |frame| - 2, ps)
  }

  lemma HoldsCovered(ps: seq<Bytes>, extra: Bytes, crc: Bytes)
    requires |crc| == 2
    ensures Holds(Covered(ps) + extra + crc, ps)
  {
    ConcatSizes(ps);
    Slices(LE16(|ps|), Concat(Sizes(ps)), Concat(ps), extra, crc);
  }

  lemma Slices(a: Bytes, b: Bytes, c: Bytes, d: Bytes, e: Bytes)
    ensures var s := a + b + c + d + e;
            && s[0..|a|] == a
            && s[|a|..|a| + |b|] == b
            && s[|a| + |b|..|a| + |b| + |c|] == c
  {
  }

  lemma CoveredHeld(frame: Bytes, ps: seq<Bytes>) returns (extra: Bytes)
    requires Holds(frame, ps)
    ensures frame[..|frame| - 2] == Covered(ps) + extra
  {
    ConcatSizes(ps);
    var end, at := |frame| - 2, 2 + 2 * |ps|;
    var stop := at + |Concat(ps)|;
    extra := frame[stop..end];
    Rejoin(frame, 2, at, stop, end);
  }

  lemma Rejoin(s: Bytes, i: nat, j: nat, k: nat, end: nat)
    requires i <= j <= k <= end <= |s|
    ensures s[..end] == s[0..i] + s[i..j] + s[j..k] + s[k..end]
  {
  }

  lemma WalkOfHeld(frame: Bytes, ps: seq<Bytes>, lens: seq<nat>)
    requires AllFramable(ps) && Holds(frame, ps) && lens == LengthsOf(ps)
    ensures Walk(frame, |frame| - 2, 2 + 2 * |ps|, lens) == Scan(Entries(ps), true)
  {
    WalkOfConcat(frame, 2 + 2 * |ps|, |frame| - 2, ps);
  }

  lemma TableOfHeld(frame: Bytes, ps: seq<Bytes>, lens: seq<nat>)
    requires |ps| <= MAX_ENTRIES && AllFramable(ps) && Holds(frame, ps) && lens == LengthsOf(ps)
    ensures ParseEntries(frame) == Some(Walk(frame, |frame| - 2, 2 + 2 * |ps|, lens))
  {
    ReadSlice16(frame, 0, |ps|);
    TableOfSizes(frame, 2, |frame| - 2, ps);
  }

  /** What a frame holds is what is read from it. */
  lemma ParseOfHeld(frame: Bytes, ps: seq<Bytes>)
    requires |ps| <= MAX_ENTRIES && AllFramable(ps) && Holds(frame, ps)
    ensures ParseEntries(frame) == Some(Scan(Entries(ps), true))
  {
    WalkOfHeld(frame, ps, LengthsOf(ps));
    TableOfHeld(frame, ps, LengthsOf(ps));
  }

  /** What is sealed passes the checksum test. */
  lemma SealedChecks(covered: Bytes)
    ensures ChecksumOk(Sealed(covered))
  {
    var f := Sealed(covered);
    assert f[..|f| - 2] == covered;
    Crc16.CrcFits(covered);
    assert f == covered + LE16(Crc16.Crc(covered)) + [];
    ReadBack16(covered, Crc16.Crc(covered), []);
  }

  /** Reading undoes writing, whatever the bytes between the last payload and the checksum. */
  lemma ParseOfSealed(ps: seq<Bytes>, extra: Bytes)
    requires |ps| <= MAX_ENTRIES && AllFramable(ps)
    ensures Parse(Sealed(Covered(ps) + extra)) == Some(Scan(Entries(ps), true))
  {
    var covered := Covered(ps) + extra;
    SealedChecks(covered);
    HoldsCovered(ps, extra, LE16(Crc16.Crc(covered)));
    ParseOfHeld(Sealed(covered), ps);
  }

  /** The frame round trip: the kernel dispatches exactly the entries given to the builder, in
      order, and a headed frame is the body length followed by the same bytes. */
  lemma RoundTrip(es: seq<Entry>)
    requires 1 <= |es| <= MAX_ENTRIES
    requires AllFramable(Payloads(es)) && TotalSize(Payloads(es)) <= MAX_TOTAL
    ensures Frame(Payloads(es), false).Data?
    ensures Parse(Frame(Payloads(es), false).bytes) == Some(Scan(es, true))
    ensures Frame(Payloads(es), true) == Data(LE32(|Frame(Payloads(es), false).bytes|) + Frame(Payloads(es), false).bytes)
  {
    var ps := Payloads(es);
    var body := Sealed(Covered(ps));
    assert [] + body == body;
    assert Covered(ps) + [] == Covered(ps);
    ParseOfSealed(ps, []);
    EntriesOfPayloads(es);
    HeaderIsBodySize(ps);
  }

  lemma PayloadsCons(p: Bytes, es: seq<Entry>)
    requires PREFIX <= |p|
    ensures Payloads([EntryOf(p)] + es) == [p] + Payloads(es)
  {
    PayloadOfEntry(p);
  }

  /** The payloads of a walk that gets past its first entry. */
  lemma WalkCons(s: Bytes, end: nat, at: nat, lens: seq<nat>)
    requires at <= end <= |s| && lens != [] && Walk(s, end, at, lens).complete
    ensures PREFIX <= lens[0] <= end - at && Walk(s, end, at + lens[0], lens[1..]).complete
    ensures Payloads(Walk(s, end, at, lens).entries)
         == [s[at..at + lens[0]]] + Payloads(Walk(s, end, at + lens[0], lens[1..]).entries)
  {
    PayloadsCons(s[at..at + lens[0]], Walk(s, end, at + lens[0], lens[1..]).entries);
  }

  lemma {:induction false} WalkLengths(s: Bytes, end: nat, at: nat, lens: seq<nat>)
    requires at <= end <= |s|
    requires forall i :: 0 <= i < |lens| ==> lens[i] < 0x1_0000
    requires Walk(s, end, at, lens).complete
    ensures AllFramable(Payloads(Walk(s, end, at, lens).entries))
    ensures LengthsOf(Payloads(Walk(s, end, at, lens).entries)) == lens
    decreases |lens|
  {
    if lens != [] {
      WalkCons(s, end, at, lens);
      WalkLengths(s, end, at + lens[0], lens[1..]);
      FramableCons(s[at..at + lens[0]], Payloads(Walk(s, end, at + lens[0], lens[1..]).entries), lens);
    }
  }

  lemma FramableCons(p: Bytes, ps: seq<Bytes>, lens: seq<nat>)
    requires Framable(p) && AllFramable(ps)
    requires lens != [] && |p| == lens[0] && LengthsOf(ps) == lens[1..]
    ensures AllFramable([p] + ps) && LengthsOf([p] + ps) == lens
  {
    assert lens == [lens[0]] + lens[1..];
  }

  /** A complete walk cuts its input into the payloads of its entries. */
  lemma {:induction false} WalkCuts(s: Bytes, end: nat, at: nat, lens: seq<nat>)
    requires at <= end <= |s|
    requires Walk(s, end, at, lens).complete
    ensures Cuts(s, at, end, Payloads(Walk(s, end, at, lens).entries))
    decreases |lens|
  {
    if lens != [] {
      WalkCons(s, end, at, lens);
      WalkCuts(s, end, at + lens[0], lens[1..]);
      CutsCons(s, at, end, lens[0], Payloads(Walk(s, end, at + lens[0], lens[1..]).entries));
    }
  }

  lemma {:induction false} SizesOfTable(s: Bytes, from: nat, end: nat, ps: seq<Bytes>)
    requires from + 2 * |ps| <= end <= |s|
    requires LengthsOf(ps) == Table(s, from, |ps|)
    ensures Cuts(s, from, end, Sizes(ps))
    decreases |ps|
  {
    if ps != [] {
      forall i | 0 <= i < |ps|
        ensures |ps[i]| == At16(s, from + 2 * i)
      {
        assert LengthsOf(ps)[i] == Table(s, from, |ps|)[i];
      }
      assert LengthsOf(ps[1..]) == Table(s, from + 2, |ps| - 1);
      SizesOfTable(s, from + 2, end, ps[1..]);
      CutsCons(s, from, end, 2, Sizes(ps[1..]));
      WriteBack16(s, from);
      assert Sizes(ps) == [s[from..from + 2]] + Sizes(ps[1..]);
    }
  }

  lemma HeldOfCuts(frame: Bytes, ps: seq<Bytes>)
    requires 4 <= |frame| && 4 + 2 * At16(frame, 0) <= |frame|
    requires LengthsOf(ps) == Table(frame, 2, At16(frame, 0))
    requires Cuts(frame, 2 + 2 * |ps|, |frame| - 2, ps)
    ensures |ps| <= MAX_ENTRIES && Holds(frame, ps)
  {
    assert |ps| == |LengthsOf(ps)|;
    SizesOfTable(frame, 2, |frame| - 2, ps);
    WriteBack16(frame, 0);
  }

  lemma HeldLengths(frame: Bytes, n: nat, es: seq<Entry>)
    requires 4 + 2 * n <= |frame|
    requires Walk(frame, |frame| - 2, 2 + 2 * n, Table(frame, 2, n)) == Scan(es, true)
    ensures AllFramable(Payloads(es)) && LengthsOf(Payloads(es)) == Table(frame, 2, n)
  {
    WalkLengths(frame, |frame| - 2, 2 + 2 * n, Table(frame, 2, n));
  }

  lemma HeldCuts(frame: Bytes, n: nat, es: seq<Entry>)
    requires 4 + 2 * n <= |frame|
    requires Walk(frame, |frame| - 2, 2 + 2 * n, Table(frame, 2, n)) == Scan(es, true)
    ensures Cuts(frame, 2 + 2 * n, |frame| - 2, Payloads(es))
  {
    WalkCuts(frame, |frame| - 2, 2 + 2 * n, Table(frame, 2, n));
  }

  lemma HeldOfParse(frame: Bytes, es: seq<Entry>)
    requires 4 <= |frame| && ParseEntries(frame) == Some(Scan(es, true))
    ensures |es| <= MAX_ENTRIES && AllFramable(Payloads(es)) && Holds(frame, Payloads(es))
  {
    var n := At16(frame, 0);
    HeldLengths(frame, n, es);
    HeldCuts(frame, n, es);
    assert |LengthsOf(Payloads(es))| == n;
    HeldOfCuts(frame, Payloads(es));
  }

  /** A frame whose entries were all found is a sealed one, with `extra` ignored bytes. */
  lemma ShapeOfParse(frame: Bytes, es: seq<Entry>) returns (extra: Bytes)
    requires Parse(frame) == Some(Scan(es, true))
    ensures |es| <= MAX_ENTRIES && AllFramable(Payloads(es)) && frame == Sealed(Covered(Payloads(es)) + extra)
  {
    HeldOfParse(frame, es);
    extra := CoveredHeld(frame, Payloads(es));
    SealedOfChecked(frame);
  }

  lemma SealedOfChecked(frame: Bytes)
    requires ChecksumOk(frame)
    ensures frame == Sealed(frame[..|frame| - 2])
  {
    var end := |frame| - 2;
    WriteBack16(frame, end);
    assert frame == frame[..end] + frame[end..end + 2];
  }

  /** Exactly the sealed frames are accepted in full: a count, the lengths, the payloads, bytes
      that are ignored, the checksum. */
  lemma AcceptedIff(frame: Bytes, es: seq<Entry>)
    ensures Parse(frame) == Some(Scan(es, true)) <==>
            |es| <= MAX_ENTRIES && AllFramable(Payloads(es)) && exists extra :: frame == Sealed(Covered(Payloads(es)) + extra)
  {
    if Parse(frame) == Some(Scan(es, true)) {
      var extra := ShapeOfParse(frame, es);
    }
    if |es| <= MAX_ENTRIES && AllFramable(Payloads(es)) {
      forall extra | frame == Sealed(Covered(Payloads(es)) + extra)
        ensures Parse(frame) == Some(Scan(es, true))
      {
        ParseOfSealed(Payloads(es), extra);
        EntriesOfPayloads(es);
      }
    }
  }

  // ------------------------------------------------------- malformed entries

  /** The start of entry `k` when the entries before it are laid out back to back. */
  function StartOf(at: nat, lens: seq<nat>, k: nat): nat
    requires k <= |lens|
    decreases k
  {
    if k == 0 then at else StartOf(at, lens, k - 1) + lens[k - 1]
  }

  /** Entry `k` holds a prefix and ends before the checksum. */
  predicate WellFormedAt(at: nat, lens: seq<nat>, end: nat, k: nat)
    requires k < |lens|
  {
    PREFIX <= lens[k] && StartOf(at, lens, k) + lens[k] <= end
  }

  lemma {:induction false} StartOfTail(at: nat, lens: seq<nat>, k: nat)
    requires 0 < k <= |lens|
    ensures StartOf(at, lens, k) == StartOf(at + lens[0], lens[1..], k - 1)
    decreases k
  {
    if k > 1 {
      StartOfTail(at, lens, k - 1);
    }
  }

  function EntryAt(s: Bytes, at: nat, lens: seq<nat>, end: nat, k: nat): Entry
    requires end <= |s| && k < |lens| && WellFormedAt(at, lens, end, k)
  {
    var start := StartOf(at, lens, k);
    EntryOf(s[start..start + lens[k]])
  }

  lemma EntryAtTail(s: Bytes, at: nat, lens: seq<nat>, end: nat, k: nat)
    requires end <= |s| && 0 < k < |lens| && WellFormedAt(at + lens[0], lens[1..], end, k - 1)
    ensures WellFormedAt(at, lens, end, k)
    ensures EntryAt(s, at, lens, end, k) == EntryAt(s, at + lens[0], lens[1..], end, k - 1)
  {
    StartOfTail(at, lens, k);
  }

  /** The first entries of the table are well formed and decode to `es`. */
  predicate Prefix(s: Bytes, at: nat, lens: seq<nat>, end: nat, es: seq<Entry>)
    requires end <= |s| && |es| <= |lens|
  {
    forall k :: 0 <= k < |es| ==> WellFormedAt(at, lens, end, k) && es[k] == EntryAt(s, at, lens, end, k)
  }

  lemma PrefixCons(s: Bytes, at: nat, lens: seq<nat>, end: nat, es: seq<Entry>)
    requires at <= end <= |s| && |es| < |lens|
    requires PREFIX <= lens[0] <= end - at
    requires Prefix(s, at + lens[0], lens[1..], end, es)
    ensures Prefix(s, at, lens, end, [EntryOf(s[at..at + lens[0]])] + es)
  {
    var all := [EntryOf(s[at..at + lens[0]])] + es;
    forall k | 0 <= k < |all|
      ensures WellFormedAt(at, lens, end, k) && all[k] == EntryAt(s, at, lens, end, k)
    {
      if k > 0 {
        assert all[k] == es[k - 1];
        assert WellFormedAt(at + lens[0], lens[1..], end, k - 1);
        EntryAtTail(s, at, lens, end, k);
      }
    }
  }

  /** Handlers run on exactly the longest well-formed prefix of the entries, each on its own
      bytes, and the walk is complete iff that prefix is the whole table. */
  lemma {:induction false} WalkIsLongestPrefix(s: Bytes, end: nat, at: nat, lens: seq<nat>)
    requires at <= end <= |s|
    ensures var r := Walk(s, end, at, lens);
            && |r.entries| <= |lens|
            && r.complete == (|r.entries| == |lens|)
            && Prefix(s, at, lens, end, r.entries)
            && (|r.entries| < |lens| ==> !WellFormedAt(at, lens, end, |r.entries|))
    decreases |lens|
  {
    if lens != [] && lens[0] <= end - at && PREFIX <= lens[0] {
      var es := Walk(s, end, at + lens[0], lens[1..]).entries;
      WalkIsLongestPrefix(s, end, at + lens[0], lens[1..]);
      PrefixCons(s, at, lens, end, es);
      StartOfTail(at, lens, |es| + 1);
    }
  }

  lemma ParseIsWalk(frame: Bytes, n: nat)
    requires ChecksumOk(frame) && 4 + 2 * n <= |frame| && At16(frame, 0) == n
    ensures Parse(frame) == Some(Walk(frame, |frame| - 2, 2 + 2 * n, Table(frame, 2, n)))
  {
  }

  /** The entries are the longest well-formed prefix of a frame's table. */
  predicate Leads(frame: Bytes, n: nat, es: seq<Entry>)
    requires 4 + 2 * n <= |frame|
  {
    var lens, at, end := Table(frame, 2, n), 2 + 2 * n, |frame| - 2;
    && |es| <= n
    && Prefix(frame, at, lens, end, es)
    && (|es| < n ==> !WellFormedAt(at, lens, end, |es|))
  }

  lemma LeadsUnique(frame: Bytes, n: nat, es: seq<Entry>, fs: seq<Entry>)
    requires 4 + 2 * n <= |frame| && Leads(frame, n, es) && Leads(frame, n, fs)
    ensures es == fs
  {
    var lens, at, end := Table(frame, 2, n), 2 + 2 * n, |frame| - 2;
    assert forall k :: 0 <= k < |es| ==> WellFormedAt(at, lens, end, k);
    assert forall k :: 0 <= k < |fs| ==> WellFormedAt(at, lens, end, k);
    assert forall k :: 0 <= k < |es| ==> es[k] == EntryAt(frame, at, lens, end, k);
  }

  lemma WalkLeads(frame: Bytes, n: nat)
    requires 4 + 2 * n <= |frame|
    ensures var r := Walk(frame, |frame| - 2, 2 + 2 * n, Table(frame, 2, n));
            Leads(frame, n, r.entries) && r.complete == (|r.entries| == n)
  {
    WalkIsLongestPrefix(frame, |frame| - 2, 2 + 2 * n, Table(frame, 2, n));
  }

  /** A frame whose checksum and table are sound is read as the longest well-formed prefix of its entries,
      whatever its bytes. */
  lemma ParseOfLeading(frame: Bytes, n: nat, es: seq<Entry>)
    requires ChecksumOk(frame) && 4 + 2 * n <= |frame| && At16(frame, 0) == n && Leads(frame, n, es)
    ensures Parse(frame) == Some(Scan(es, |es| == n))
  {
    ParseIsWalk(frame, n);
    WalkLeads(frame, n);
    LeadsUnique(frame, n, es, Walk(frame, |frame| - 2, 2 + 2 * n, Table(frame, 2, n)).entries);
  }

  // ------------------------------------------------------------- corruption

  /** Two frames of one length whose covered bits differ within a burst of at most 16 bits, at
      any alignment, are not both accepted. */
  lemma BurstRejected(f: Bytes, g: Bytes, pre: seq<bool>, a: seq<bool>, b: seq<bool>, post: seq<bool>)
    requires 2 <= |f| == |g| && f[|f| - 2..] == g[|g| - 2..]
    requires Crc16.Bits(f[..|f| - 2]) == pre + a + post && Crc16.Bits(g[..|g| - 2]) == pre + b + post
    requires |a| == |b| <= 16 && a != b
    ensures Parse(f).None? || Parse(g).None?
  {
    assert f[|f| - 2..][0] == g[|g| - 2..][0] && f[|f| - 2..][1] == g[|g| - 2..][1];
    Crc16.BurstDetected(Crc16.INIT, pre, a, b, post);
    if ChecksumOk(f) && ChecksumOk(g) {
      Crc16.ValueInjective(Crc16.ClockAll(Crc16.INIT, pre + a + post), Crc16.ClockAll(Crc16.INIT, pre + b + post));
    }
  }

  lemma CoveredCorruption(f: Bytes, g: Bytes, end: nat, i: nat)
    requires end + 2 == |f| == |g| && f != g
    requires i + 2 <= end
    requires f[..i] == g[..i] && f[i + 2..] == g[i + 2..]
    ensures !(ChecksumOk(f) && ChecksumOk(g))
  {
    var a, b := f[i..i + 2], g[i..i + 2];
    assert f == f[..i] + a + f[i + 2..] && g == g[..i] + b + g[i + 2..];
    var post := f[i + 2..][..end - i - 2];
    assert f[..end] == f[..i] + a + post && g[..end] == f[..i] + b + post;
    assert f[end] == f[i + 2..][end - i - 2] && f[end + 1] == f[i + 2..][end - i - 1];
    assert g[end] == g[i + 2..][end - i - 2] && g[end + 1] == g[i + 2..][end - i - 1];
    Crc16.AdjacentBytesDetected(f[..i], a, b, post);
  }

  /** Two different frames of one length that differ only within two adjacent covered bytes, or
      only in the stored checksum, are not both accepted. */
  lemma CorruptionRejected(f: Bytes, g: Bytes, i: nat)
    requires 2 <= |f| == |g| && f != g
    requires i + 4 <= |f| || i + 2 == |f|
    requires f[..i] == g[..i] && f[i + 2..] == g[i + 2..]
    ensures Parse(f).None? || Parse(g).None?
  {
    if i + 2 == |f| {
      if ChecksumOk(f) && ChecksumOk(g) {
        SealedOfChecked(f);
        SealedOfChecked(g);
      }
    } else {
      CoveredCorruption(f, g, |f| - 2, i);
    }
  }
}
