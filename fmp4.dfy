/**
 * The fragmented-MP4 fan-out of the Discord activity server: one encoder
 * process writes an ISO BMFF byte stream, the reader cuts it into top-level
 * boxes (section 4.2 of ISO/IEC 14496-12: a 32-bit big-endian size, a
 * four-character type, and a 64-bit "largesize" when the size field is 1),
 * keeps the `ftyp`/`moov` boxes as the initialisation segment, and sends
 * every box to every connected websocket client.
 *
 * The cutting is specified by the pure function ParseBoxes; the streamer's
 * reader loop is proved to emit exactly ParseBoxes of everything it has
 * read, however the process output was split into chunks.
 */
module Fmp4 {
  import opened Bytes
  import opened Wrappers

  /** Size of the compact box header: 32-bit size and four-character type. */
  const HEADER_SIZE: nat := 8
  /** Size of the header when the size field is 1 and a 64-bit largesize follows. */
  const LARGE_HEADER_SIZE: nat := 16

  const FTYP: seq<Byte> := [0x66, 0x74, 0x79, 0x70]
  const MOOV: seq<Byte> := [0x6D, 0x6F, 0x6F, 0x76]

  /** What the box loop decides about the front of its buffer. */
  datatype Cut =
    | NeedMore        // the header or the box is not complete yet: wait for more bytes
    | EndOfData       // size field 0 ("box runs to end of file"): the loop stops here
    | Malformed       // a declared size shorter than the box's own header
    | Box(size: nat)  // a complete box of `size` bytes sits at the front

  /** Where ParseBoxes stopped. */
  datatype Stop = Waiting | AtEndOfData | AtMalformed

  datatype Parse = Parse(boxes: seq<seq<Byte>>, rest: seq<Byte>, stop: Stop)

  function SizeField(buf: seq<Byte>): nat
    requires |buf| >= HEADER_SIZE
  {
    Be32(buf[..4])
  }

  /**
   * The cut exactly as `_read_and_broadcast` computes it: the size field,
   * replaced by the largesize when it is 1, with no lower bound. A zero
   * largesize and sizes 2 to 7 slip through (see the lemmas below).
   */
  function CutAsWritten(buf: seq<Byte>): (c: Cut)
    requires |buf| >= HEADER_SIZE
    ensures c.Box? ==> c.size <= |buf|
    ensures c == EndOfData <==> SizeField(buf) == 0
  {
    var size := SizeField(buf);
    if size == 0 then EndOfData
    else if size == 1 && |buf| < LARGE_HEADER_SIZE then NeedMore
    else
      var boxSize := if size == 1 then Be64(buf[8..16]) else size;
      if |buf| < boxSize then NeedMore else Box(boxSize)
  }

  /**
   * A 16-byte header whose size field is 1 and whose largesize is 0: the
   * source takes a box of 0 bytes and leaves the buffer as it was, so its
   * `while len(buffer) >= 8` loop repeats the same step forever.
   */
  lemma LargeSizeZeroMakesNoProgress()
    ensures var buf: seq<Byte> := [0, 0, 0, 1, 0x6D, 0x64, 0x61, 0x74, 0, 0, 0, 0, 0, 0, 0, 0];
      CutAsWritten(buf) == Box(0) && buf[0..] == buf
  {
    var buf: seq<Byte> := [0, 0, 0, 1, 0x6D, 0x64, 0x61, 0x74, 0, 0, 0, 0, 0, 0, 0, 0];
    assert buf[..4] == [0, 0, 0, 1];
    assert buf[8..16] == [0, 0, 0, 0, 0, 0, 0, 0];
    assert buf[8..16][..4] == [0, 0, 0, 0] && buf[8..16][4..] == [0, 0, 0, 0];
  }

  /**
   * A size field of 2: the source hands out a two-byte "box" whose type
   * field lies beyond its end.
   */
  lemma ShortSizeGivesBoxShorterThanHeader()
    ensures var buf: seq<Byte> := [0, 0, 0, 2, 0x66, 0x72, 0x65, 0x65];
      CutAsWritten(buf) == Box(2) && 2 < HEADER_SIZE
  {
    var buf: seq<Byte> := [0, 0, 0, 2, 0x66, 0x72, 0x65, 0x65];
    assert buf[..4] == [0, 0, 0, 2];
  }

  /**
   * The cut the reader uses: as written, except that a declared size
   * smaller than the header it is written in is Malformed, which stops the
   * loop exactly as a zero size does.
   */
  function CutBox(buf: seq<Byte>): (c: Cut)
    requires |buf| >= HEADER_SIZE
    ensures c.Box? ==> HEADER_SIZE <= c.size <= |buf|
    ensures c == EndOfData <==> SizeField(buf) == 0
  {
    var size := SizeField(buf);
    if size == 0 then EndOfData
    else if size == 1 then
      if |buf| < LARGE_HEADER_SIZE then NeedMore
      else
        var large := Be64(buf[8..16]);
        if large < LARGE_HEADER_SIZE then Malformed
        else if |buf| < large then NeedMore
        else Box(large)
    else if size < HEADER_SIZE then Malformed
    else if |buf| < size then NeedMore
    else Box(size)
  }

  /**
   * The two cuts agree on every well-formed header, and CutBox calls a
   * header Malformed exactly when the size the source would use is smaller
   * than the header it is written in.
   */
  lemma CutBoxAgreesOnWellFormed(buf: seq<Byte>)
    requires |buf| >= HEADER_SIZE
    ensures CutBox(buf) != Malformed ==> CutBox(buf) == CutAsWritten(buf)
    ensures CutBox(buf) == Malformed <==>
      (SizeField(buf) == 1 && |buf| >= LARGE_HEADER_SIZE && Be64(buf[8..16]) < LARGE_HEADER_SIZE)
      || (1 < SizeField(buf) < HEADER_SIZE)
  {
  }

  /** Once a cut is decided, more bytes behind the buffer do not change it. */
  lemma CutExtends(a: seq<Byte>, b: seq<Byte>)
    requires |a| >= HEADER_SIZE && CutBox(a) != NeedMore
    ensures CutBox(a + b) == CutBox(a)
  {
    assert (a + b)[..4] == a[..4];
    if SizeField(a) == 1 {
      assert (a + b)[8..16] == a[8..16];
    }
  }

  /** All boxes of a buffer, front to back, and what is left behind them. */
  function ParseBoxes(buf: seq<Byte>): (p: Parse)
    ensures |p.rest| <= |buf|
    decreases |buf|
  {
    if |buf| < HEADER_SIZE then Parse([], buf, Waiting)
    else match CutBox(buf)
      case NeedMore => Parse([], buf, Waiting)
      case EndOfData => Parse([], buf, AtEndOfData)
      case Malformed => Parse([], buf, AtMalformed)
      case Box(n) =>
        var p := ParseBoxes(buf[n..]);
        Parse([buf[..n]] + p.boxes, p.rest, p.stop)
  }

  /**
   * Cutting loses, duplicates and reorders nothing: the boxes followed by
   * the leftover are the buffer.
   */
  lemma {:induction false} ParseBoxesKeepsBytes(buf: seq<Byte>)
    ensures Concat(ParseBoxes(buf).boxes) + ParseBoxes(buf).rest == buf
    decreases |buf|
  {
    if |buf| >= HEADER_SIZE && CutBox(buf).Box? {
      var n := CutBox(buf).size;
      ParseBoxesStep(buf);
      ParseBoxesKeepsBytes(buf[n..]);
      var p := ParseBoxes(buf[n..]);
      ConcatCons(buf[..n], p.boxes);
      AppendAssoc(buf[..n], Concat(p.boxes), p.rest);
      assert Concat(ParseBoxes(buf).boxes) + ParseBoxes(buf).rest == buf[..n] + (Concat(p.boxes) + p.rest);
      assert buf == buf[..n] + buf[n..];
    } else {
      ParseBoxesNone(buf);
    }
  }

  /** One step of ParseBoxes when a whole box is at the front. */
  lemma ParseBoxesStep(buf: seq<Byte>)
    requires |buf| >= HEADER_SIZE && CutBox(buf).Box?
    ensures var n := CutBox(buf).size; var p := ParseBoxes(buf[n..]);
            ParseBoxes(buf) == Parse([buf[..n]] + p.boxes, p.rest, p.stop)
  {
  }

  /** ParseBoxes takes nothing when no whole box is at the front. */
  lemma ParseBoxesNone(buf: seq<Byte>)
    requires |buf| < HEADER_SIZE || !CutBox(buf).Box?
    ensures ParseBoxes(buf) == Parse([], buf, StopAt(buf))
  {
  }

  /** How ParseBoxes stops on a buffer with no whole box at its front. */
  function StopAt(buf: seq<Byte>): Stop
  {
    if |buf| < HEADER_SIZE then Waiting
    else match CutBox(buf)
      case EndOfData => AtEndOfData
      case Malformed => AtMalformed
      case _ => Waiting
  }

  /**
   * The parse stops only where the front of the leftover is incomplete,
   * zero-sized or malformed.
   */
  lemma {:induction false} ParseBoxesStops(buf: seq<Byte>)
    ensures var p := ParseBoxes(buf);
      (|p.rest| < HEADER_SIZE || !CutBox(p.rest).Box?) && p.stop == StopAt(p.rest)
    decreases |buf|
  {
    if |buf| >= HEADER_SIZE && CutBox(buf).Box? {
      var n := CutBox(buf).size;
      ParseBoxesStep(buf);
      ParseBoxesStops(buf[n..]);
    } else {
      ParseBoxesNone(buf);
    }
  }

  /** Every box handed out is at least a header long and cuts to exactly itself. */
  lemma {:induction false} ParseBoxesWellFormed(buf: seq<Byte>)
    ensures var p := ParseBoxes(buf);
      forall i :: 0 <= i < |p.boxes| ==> |p.boxes[i]| >= HEADER_SIZE && CutBox(p.boxes[i]) == Box(|p.boxes[i]|)
    decreases |buf|
  {
    if |buf| >= HEADER_SIZE && CutBox(buf).Box? {
      var n := CutBox(buf).size;
      ParseBoxesStep(buf);
      ParseBoxesWellFormed(buf[n..]);
      CutPrefix(buf, n);
    } else {
      ParseBoxesNone(buf);
    }
  }

  /** A box cut off the front of a buffer cuts to itself. */
  lemma CutPrefix(buf: seq<Byte>, n: nat)
    requires |buf| >= HEADER_SIZE && CutBox(buf) == Box(n)
    ensures CutBox(buf[..n]) == Box(n)
  {
    assert buf[..n][..4] == buf[..4];
    if SizeField(buf) == 1 {
      assert buf[..n][8..16] == buf[8..16];
    }
  }

  /**
   * Parsing a buffer that was extended behind its end: the boxes of the
   * original buffer come first, then the boxes of its leftover followed by
   * the new bytes. A stopped parse (zero size or malformed header at the
   * front) stays stopped and takes no more boxes.
   */
  lemma {:induction false} ParseAppend(a: seq<Byte>, b: seq<Byte>)
    ensures var pa := ParseBoxes(a);
            var pr := ParseBoxes(pa.rest + b);
            ParseBoxes(a + b) == Parse(pa.boxes + pr.boxes, pr.rest, pr.stop)
    decreases |a|
  {
    if |a| >= HEADER_SIZE && CutBox(a).Box? {
      ParseAppendBox(a, b);
    } else {
      ParseBoxesNone(a);
    }
  }

  lemma {:induction false} ParseAppendBox(a: seq<Byte>, b: seq<Byte>)
    requires |a| >= HEADER_SIZE && CutBox(a).Box?
    ensures var pa := ParseBoxes(a);
            var pr := ParseBoxes(pa.rest + b);
            ParseBoxes(a + b) == Parse(pa.boxes + pr.boxes, pr.rest, pr.stop)
    decreases |a|, 0
  {
    var n := CutBox(a).size;
    CutExtends(a, b);
    assert (a + b)[..n] == a[..n];
    assert (a + b)[n..] == a[n..] + b;
    ParseBoxesStep(a);
    ParseBoxesStep(a + b);
    var pt := ParseBoxes(a[n..]);
    ParseAppend(a[n..], b);
    var pr := ParseBoxes(pt.rest + b);
    var ptb := ParseBoxes(a[n..] + b);
    assert ptb == Parse(pt.boxes + pr.boxes, pr.rest, pr.stop);
    assert ParseBoxes(a + b) == Parse([a[..n]] + ptb.boxes, ptb.rest, ptb.stop);
    assert ParseBoxes(a) == Parse([a[..n]] + pt.boxes, pt.rest, pt.stop);
    AppendAssoc([a[..n]], pt.boxes, pr.boxes);
  }

  /** A parse stopped by a zero-sized or malformed header stays stopped, whatever follows. */
  lemma ParseAppendStopped(a: seq<Byte>, b: seq<Byte>)
    requires ParseBoxes(a).stop != Waiting
    ensures ParseBoxes(a + b) == Parse(ParseBoxes(a).boxes, ParseBoxes(a).rest + b, ParseBoxes(a).stop)
  {
    var pa := ParseBoxes(a);
    ParseAppend(a, b);
    ParseBoxesStops(a);
    assert |pa.rest| >= HEADER_SIZE && CutBox(pa.rest) != NeedMore;
    CutExtends(pa.rest, b);
    ParseBoxesNone(pa.rest + b);
    assert StopAt(pa.rest + b) == StopAt(pa.rest);
    var pr := ParseBoxes(pa.rest + b);
    assert pr == Parse([], pa.rest + b, pa.stop);
    assert pa.boxes + pr.boxes == pa.boxes;
  }

  /** One read of the encoder's output handled by the reader: append, then cut. */
  function Feed(p: Parse, chunk: seq<Byte>): Parse
  {
    var q := ParseBoxes(p.rest + chunk);
    Parse(p.boxes + q.boxes, q.rest, q.stop)
  }

  /** The reader's state after a sequence of outputs, fed one at a time. */
  function FeedAll(chunks: seq<seq<Byte>>): Parse
  {
    if chunks == [] then Parse([], [], Waiting)
    else Feed(FeedAll(chunks[..|chunks| - 1]), chunks[|chunks| - 1])
  }

  /**
   * Chunk independence: however the byte stream is split into outputs, the
   * reader emits the same boxes and keeps the same leftover as one parse
   * of the whole stream.
   */
  lemma {:induction false} ChunkIndependence(chunks: seq<seq<Byte>>)
    ensures FeedAll(chunks) == ParseBoxes(Concat(chunks))
    decreases |chunks|
  {
    if chunks != [] {
      var init := chunks[..|chunks| - 1];
      ChunkIndependence(init);
      ParseAppend(Concat(init), chunks[|chunks| - 1]);
    }
  }

  /** Two splittings of one byte stream give the same boxes. */
  lemma SplittingDoesNotMatter(c1: seq<seq<Byte>>, c2: seq<seq<Byte>>)
    requires Concat(c1) == Concat(c2)
    ensures FeedAll(c1).boxes == FeedAll(c2).boxes
  {
    ChunkIndependence(c1);
    ChunkIndependence(c2);
  }

  function BoxType(box: seq<Byte>): seq<Byte>
    requires |box| >= HEADER_SIZE
  {
    box[4..8]
  }

  predicate IsInitBox(box: seq<Byte>)
  {
    |box| >= HEADER_SIZE && (BoxType(box) == FTYP || BoxType(box) == MOOV)
  }

  /** The initialisation segment after one more box went by. */
  function AddInit(init: Option<seq<Byte>>, box: seq<Byte>): Option<seq<Byte>>
  {
    if !IsInitBox(box) then init
    else if init.None? then Some(box)
    else Some(init.value + box)
  }

  function WithInit(init: Option<seq<Byte>>, boxes: seq<seq<Byte>>): Option<seq<Byte>>
  {
    if boxes == [] then init else AddInit(WithInit(init, boxes[..|boxes| - 1]), boxes[|boxes| - 1])
  }

  function InitBoxes(boxes: seq<seq<Byte>>): (r: seq<seq<Byte>>)
    ensures forall i :: 0 <= i < |r| ==> IsInitBox(r[i])
    ensures |r| <= |boxes|
  {
    if boxes == [] then []
    else InitBoxes(boxes[..|boxes| - 1]) + (if IsInitBox(boxes[|boxes| - 1]) then [boxes[|boxes| - 1]] else [])
  }

  /**
   * The initialisation segment is the concatenation, in stream order, of
   * the `ftyp` and `moov` boxes seen so far, appended to whatever an earlier
   * run of the encoder left there; it is absent until the first such box.
   */
  lemma {:induction false} InitSegmentIsInitBoxes(init: Option<seq<Byte>>, boxes: seq<seq<Byte>>)
    ensures init.Some? ==> WithInit(init, boxes) == Some(init.value + Concat(InitBoxes(boxes)))
    ensures init.None? ==>
      WithInit(init, boxes) == (if InitBoxes(boxes) == [] then None else Some(Concat(InitBoxes(boxes))))
    decreases |boxes|
  {
    if boxes != [] {
      var front := boxes[..|boxes| - 1];
      var last := boxes[|boxes| - 1];
      InitSegmentIsInitBoxes(init, front);
      assert WithInit(init, boxes) == AddInit(WithInit(init, front), last);
      if IsInitBox(last) {
        assert InitBoxes(boxes) == InitBoxes(front) + [last];
        ConcatAppend(InitBoxes(front), [last]);
        assert Concat([last]) == Concat([]) + last;
        if init.Some? {
          AppendAssoc(init.value, Concat(InitBoxes(front)), last);
        } else if InitBoxes(front) == [] {
          assert Concat(InitBoxes(boxes)) == [] + last == last;
        }
      } else {
        assert InitBoxes(boxes) == InitBoxes(front) + [] == InitBoxes(front);
      }
    } else if init.Some? {
      assert init.value + [] == init.value;
    }
  }

  /** The prefix of the outputs before end of stream (an empty read). */
  function TakeUntilEof(outputs: seq<seq<Byte>>): (r: seq<seq<Byte>>)
    ensures |r| <= |outputs| && r == outputs[..|r|]
    ensures forall i :: 0 <= i < |r| ==> r[i] != []
    ensures |r| < |outputs| ==> outputs[|r|] == []
  {
    if outputs == [] || outputs[0] == [] then [] else [outputs[0]] + TakeUntilEof(outputs[1..])
  }

  /** A connected websocket client, by identity. */
  type Client = nat

  /** What each client's socket has been sent, in order. */
  type Inboxes = map<Client, seq<seq<Byte>>>

  /** `d` after every client in `to` has been sent `msgs`, in order. */
  function Deliver(d: Inboxes, to: set<Client>, msgs: seq<seq<Byte>>): Inboxes
  {
    map c | c in d :: if c in to then d[c] + msgs else d[c]
  }

  /** Delivery appends the messages to each addressed client's inbox and touches no other. */
  lemma DeliverMeaning(d: Inboxes, to: set<Client>, msgs: seq<seq<Byte>>, c: Client)
    requires to <= d.Keys
    ensures var d' := Deliver(d, to, msgs);
      d'.Keys == d.Keys && (c in to ==> d'[c] == d[c] + msgs) && (c in d && c !in to ==> d'[c] == d[c])
  {
  }

  /** Two deliveries to the same clients are one delivery of both batches. */
  lemma DeliverTwice(d: Inboxes, to: set<Client>, m1: seq<seq<Byte>>, m2: seq<seq<Byte>>)
    ensures Deliver(Deliver(d, to, m1), to, m2) == Deliver(d, to, m1 + m2)
  {
    forall c | c in d && c in to
      ensures Deliver(Deliver(d, to, m1), to, m2)[c] == Deliver(d, to, m1 + m2)[c]
    {
      AppendAssoc(d[c], m1, m2);
    }
  }

  lemma DeliverNothing(d: Inboxes, to: set<Client>)
    ensures Deliver(d, to, []) == d
  {
    assert forall c | c in d :: d[c] + [] == d[c];
  }

  /** The part of the streamer that boxes change: initialisation segment, clients, inboxes. */
  datatype Fanout = Fanout(init: Option<seq<Byte>>, clients: set<Client>, delivered: Inboxes)

  /**
   * For each box of a reader run, by its position in the run, the clients
   * whose send of that box fails (their socket has gone away by then).
   */
  type Failures = nat -> set<Client>

  /**
   * One box through the fan-out: an `ftyp`/`moov` box joins the
   * initialisation segment, every client outside `failing` receives it and
   * the clients in `failing` are dropped.
   */
  function Offer(f: Fanout, box: seq<Byte>, failing: set<Client>): Fanout
  {
    Fanout(AddInit(f.init, box), f.clients - failing, Deliver(f.delivered, f.clients - failing, [box]))
  }

  /**
   * The fan-out after `boxes` went through it one after the other, the box
   * at position `from + i` of the run meeting the failures `fails(from + i)`.
   */
  function Emit(f: Fanout, boxes: seq<seq<Byte>>, fails: Failures, from: nat): Fanout
    decreases |boxes|
  {
    if boxes == [] then f
    else
      var n := |boxes| - 1;
      Offer(Emit(f, boxes[..n], fails, from), boxes[n], fails(from + n))
  }

  /**
   * The position among `n` boxes starting at `from` of the first whose send
   * to `c` fails, or `n` when none of them fails.
   */
  function FirstFailure(c: Client, fails: Failures, from: nat, n: nat): (j: nat)
    ensures j <= n
    ensures forall i :: from <= i < from + j ==> c !in fails(i)
    ensures j < n ==> c in fails(from + j)
  {
    if n == 0 then 0
    else
      var j := FirstFailure(c, fails, from, n - 1);
      if j < n - 1 then j else if c in fails(from + n - 1) then n - 1 else n
  }

  /** One more box is one more offer. */
  lemma EmitSnoc(f: Fanout, boxes: seq<seq<Byte>>, box: seq<Byte>, fails: Failures, from: nat)
    ensures Emit(f, boxes + [box], fails, from) == Offer(Emit(f, boxes, fails, from), box, fails(from + |boxes|))
  {
    assert (boxes + [box])[..|boxes|] == boxes;
  }

  /** Emitting two batches one after the other is emitting both at once. */
  lemma {:induction false} EmitTwice(f: Fanout, b1: seq<seq<Byte>>, b2: seq<seq<Byte>>, fails: Failures, from: nat)
    ensures Emit(Emit(f, b1, fails, from), b2, fails, from + |b1|) == Emit(f, b1 + b2, fails, from)
    decreases |b2|
  {
    if b2 == [] {
      assert b1 + b2 == b1;
    } else {
      var n := |b2| - 1;
      EmitTwice(f, b1, b2[..n], fails, from);
      assert (b1 + b2)[..|b1| + n] == b1 + b2[..n];
    }
  }

  /**
   * A run of boxes builds the initialisation segment from its `ftyp`/`moov`
   * boxes, keeps the inboxes' owners, never adds a client, and leaves the
   * inbox of a client that was already gone as it was.
   */
  lemma {:induction false} EmitShape(f: Fanout, boxes: seq<seq<Byte>>, fails: Failures, from: nat)
    ensures var g := Emit(f, boxes, fails, from);
      g.init == WithInit(f.init, boxes) && g.delivered.Keys == f.delivered.Keys && g.clients <= f.clients
      && forall c :: c in f.delivered && c !in f.clients ==> g.delivered[c] == f.delivered[c]
    decreases |boxes|
  {
    if boxes != [] {
      EmitShape(f, boxes[..|boxes| - 1], fails, from);
    }
  }

  /**
   * A connected client receives the boxes of the run in order up to the
   * first whose send to it fails; it is dropped at that box and stays
   * connected exactly when no send to it fails.
   */
  lemma {:induction false} EmitClient(f: Fanout, boxes: seq<seq<Byte>>, fails: Failures, from: nat, c: Client)
    requires c in f.clients && c in f.delivered
    ensures var g := Emit(f, boxes, fails, from);
      var j := FirstFailure(c, fails, from, |boxes|);
      c in g.delivered && g.delivered[c] == f.delivered[c] + boxes[..j] && (c in g.clients <==> j == |boxes|)
    decreases |boxes|
  {
    if boxes == [] {
      assert boxes[..0] == [];
      assert f.delivered[c] + [] == f.delivered[c];
    } else {
      var n := |boxes| - 1;
      var front := boxes[..n];
      EmitClient(f, front, fails, from, c);
      var g0 := Emit(f, front, fails, from);
      var j0 := FirstFailure(c, fails, from, n);
      assert front[..j0] == boxes[..j0];
      if j0 == n && c !in fails(from + n) {
        assert boxes[..n + 1] == front + [boxes[n]];
        AppendAssoc(f.delivered[c], front, [boxes[n]]);
      }
    }
  }

  datatype TaskState = NoTask | Reading | Cancelled

  class FMP4Streamer {
    /** Whether an encoder process is attached. */
    var hasProcess: bool
    var clients: set<Client>
    var running: bool
    var initSegment: Option<seq<Byte>>
    var readerTask: TaskState
    /** Bytes read from the encoder that do not yet form a whole box. */
    var buffer: seq<Byte>
    /** What each client's socket has been sent successfully, in order. */
    var delivered: Inboxes

    function Fan(): Fanout
      reads this
    {
      Fanout(initSegment, clients, delivered)
    }

    /** Every connected client has an inbox. */
    predicate Valid()
      reads this
    {
      clients <= delivered.Keys
    }

    constructor ()
      ensures Valid()
      ensures !hasProcess && clients == {} && !running && initSegment == None
      ensures readerTask == NoTask && buffer == [] && delivered == map[]
    {
      hasProcess := false;
      clients := {};
      running := false;
      initSegment := None;
      readerTask := NoTask;
      buffer := [];
      delivered := map[];
    }

    /**
     * Launch the encoder and the reader, unless already running. Neither the
     * clients nor an initialisation segment kept from an earlier run are reset.
     */
    method Start()
      modifies this`hasProcess, this`running, this`readerTask
      ensures old(running) ==> hasProcess == old(hasProcess) && running && readerTask == old(readerTask)
      ensures !old(running) ==> hasProcess && running && readerTask == Reading
    {
      if running {
        return;
      }
      hasProcess := true;
      running := true;
      readerTask := Reading;
    }

    /** Send `data` to every client; clients whose send fails are dropped. */
    method Broadcast(data: seq<Byte>, failing: set<Client>)
      requires Valid()
      modifies this`clients, this`delivered
      ensures Valid()
      ensures clients == old(clients) - failing
      ensures delivered == Deliver(old(delivered), old(clients) - failing, [data])
    {
      if clients == {} {
        DeliverNothing(delivered, {});
        assert Deliver(delivered, {}, [data]) == delivered;
        return;
      }
      var pending := clients;
      var disconnected: set<Client> := {};
      while pending != {}
        invariant pending <= old(clients) && clients == old(clients)
        invariant disconnected == (old(clients) - pending) * failing
        invariant delivered == Deliver(old(delivered), (old(clients) - pending) - failing, [data])
        decreases pending
      {
        var c :| c in pending;
        if c in failing {
          disconnected := disconnected + {c};
          assert (old(clients) - (pending - {c})) - failing == (old(clients) - pending) - failing;
        } else {
          delivered := delivered[c := delivered[c] + [data]];
          assert (old(clients) - (pending - {c})) - failing == ((old(clients) - pending) - failing) + {c};
        }
        pending := pending - {c};
      }
      clients := clients - disconnected;
    }

    /**
     * Cut every complete box off the front of the buffer, in order, keep the
     * `ftyp`/`moov` ones in the initialisation segment and broadcast each;
     * these boxes sit at positions `from`, `from + 1`, ... of the reader run.
     */
    method DrainBoxes(fails: Failures, from: nat) returns (boxes: seq<seq<Byte>>)
      requires Valid()
      modifies this`buffer, this`initSegment, this`clients, this`delivered
      ensures Valid()
      ensures boxes == ParseBoxes(old(buffer)).boxes && buffer == ParseBoxes(old(buffer)).rest
      ensures Fan() == Emit(old(Fan()), boxes, fails, from)
    {
      boxes := [];
      while |buffer| >= HEADER_SIZE
        invariant Valid()
        invariant ParseBoxes(old(buffer)).boxes == boxes + ParseBoxes(buffer).boxes
        invariant ParseBoxes(old(buffer)).rest == ParseBoxes(buffer).rest
        invariant Fan() == Emit(old(Fan()), boxes, fails, from)
        decreases |buffer|
      {
        var cut := CutBox(buffer);
        if !cut.Box? {
          ParseBoxesNone(buffer);
          break;
        }
        ParseBoxesStep(buffer);
        var box := buffer[..cut.size];
        AppendAssoc(boxes, [box], ParseBoxes(buffer[cut.size..]).boxes);
        buffer := buffer[cut.size..];
        EmitSnoc(old(Fan()), boxes, box, fails, from);
        if BoxType(box) == FTYP || BoxType(box) == MOOV {
          if initSegment == None {
            initSegment := Some(box);
          } else {
            initSegment := Some(initSegment.value + box);
          }
        }
        Broadcast(box, fails(from + |boxes|));
        boxes := boxes + [box];
      }
      if |buffer| < HEADER_SIZE {
        ParseBoxesNone(buffer);
      }
    }

    /** One read of the encoder's output: append it to the buffer and drain the complete boxes. */
    method ReadChunk(chunk: seq<Byte>, fails: Failures, from: nat) returns (boxes: seq<seq<Byte>>)
      requires Valid()
      modifies this`buffer, this`initSegment, this`clients, this`delivered
      ensures Valid()
      ensures boxes == ParseBoxes(old(buffer) + chunk).boxes && buffer == ParseBoxes(old(buffer) + chunk).rest
      ensures Fan() == Emit(old(Fan()), boxes, fails, from)
    {
      buffer := buffer + chunk;
      boxes := DrainBoxes(fails, from);
    }

    /**
     * The reader task: read the encoder's output until end of stream (or
     * until the streamer is no longer running), cutting and broadcasting
     * boxes after every read; it leaves the streamer not running.
     */
    method ReadAndBroadcast(outputs: seq<seq<Byte>>, fails: Failures)
      requires Valid()
      modifies this`running, this`buffer, this`initSegment, this`clients, this`delivered
      ensures Valid()
      ensures !running && hasProcess == old(hasProcess) && readerTask == old(readerTask)
      ensures var p := ParseBoxes(Concat(ReaderInput(old(running) && old(hasProcess), outputs)));
              buffer == p.rest && Fan() == Emit(old(Fan()), p.boxes, fails, 0)
    {
      buffer := [];
      ghost var emitted: seq<seq<Byte>> := [];
      ghost var n := |ReaderInput(running && hasProcess, outputs)|;
      var i := 0;
      var position := 0;
      while running && hasProcess
        invariant Valid()
        invariant position == |emitted|
        invariant i <= n <= |outputs|
        invariant running && hasProcess ==> n == |TakeUntilEof(outputs)|
        invariant !(running && hasProcess) ==> i == n
        invariant FeedAll(outputs[..i]).boxes == emitted && FeedAll(outputs[..i]).rest == buffer
        invariant Fan() == Emit(old(Fan()), emitted, fails, 0)
        decreases |outputs| - i, running
      {
        if i == |outputs| || outputs[i] == [] {
          TakeUntilEofStops(outputs, i);
          running := false;
        } else {
          TakeUntilEofGoesOn(outputs, i);
          ghost var before := Fan();
          FeedStep(outputs, i, FeedAll(outputs[..i]));
          var boxes := ReadChunk(outputs[i], fails, position);
          EmitStep(old(Fan()), before, Fan(), emitted, boxes, fails);
          emitted := emitted + boxes;
          position := position + |boxes|;
          i := i + 1;
        }
      }
      running := false;
      ReaderSeesWholeStream(old(running) && old(hasProcess), outputs, i);
    }

    /** Register a client and send it the initialisation segment if there is one. */
    method AddClient(ws: Client, sendFails: bool)
      requires Valid()
      modifies this`clients, this`delivered
      ensures Valid()
      ensures clients == old(clients) + {ws}
      ensures var before := if ws in old(delivered) then old(delivered)[ws] else [];
        delivered == old(delivered)[ws :=
          if initSegment.Some? && initSegment.value != [] && !sendFails
          then before + [initSegment.value] else before]
    {
      clients := clients + {ws};
      var inbox := if ws in delivered then delivered[ws] else [];
      if initSegment.Some? && initSegment.value != [] && !sendFails {
        inbox := inbox + [initSegment.value];
      }
      delivered := delivered[ws := inbox];
    }

    method RemoveClient(ws: Client)
      requires Valid()
      modifies this`clients
      ensures Valid()
      ensures clients == old(clients) - {ws}
    {
      clients := clients - {ws};
    }

    /**
     * Stop the reader and the encoder. The initialisation segment and the
     * clients are kept.
     */
    method Stop()
      modifies this`running, this`readerTask, this`hasProcess
      ensures !running && !hasProcess
      ensures readerTask == if old(readerTask) == NoTask then NoTask else Cancelled
    {
      running := false;
      if readerTask != NoTask {
        readerTask := Cancelled;
      }
      hasProcess := false;
    }
  }

  lemma TakeUntilEofStops(outputs: seq<seq<Byte>>, i: nat)
    requires i <= |TakeUntilEof(outputs)|
    requires i == |outputs| || outputs[i] == []
    ensures i == |TakeUntilEof(outputs)|
  {
  }

  lemma TakeUntilEofGoesOn(outputs: seq<seq<Byte>>, i: nat)
    requires i <= |TakeUntilEof(outputs)|
    requires i < |outputs| && outputs[i] != []
    ensures i < |TakeUntilEof(outputs)|
  {
  }

  /** What the reader consumes: nothing unless it starts running with a process. */
  function ReaderInput(active: bool, outputs: seq<seq<Byte>>): seq<seq<Byte>>
  {
    if active then TakeUntilEof(outputs) else []
  }

  lemma ReaderSeesWholeStream(active: bool, outputs: seq<seq<Byte>>, i: nat)
    requires i == |ReaderInput(active, outputs)|
    ensures FeedAll(outputs[..i]) == ParseBoxes(Concat(ReaderInput(active, outputs)))
  {
    var taken := ReaderInput(active, outputs);
    assert outputs[..i] == taken;
    ChunkIndependence(taken);
  }

  /** A run continued by more boxes is the run of all of them. */
  lemma EmitStep(f0: Fanout, f1: Fanout, f2: Fanout, emitted: seq<seq<Byte>>, boxes: seq<seq<Byte>>, fails: Failures)
    requires f1 == Emit(f0, emitted, fails, 0) && f2 == Emit(f1, boxes, fails, |emitted|)
    ensures f2 == Emit(f0, emitted + boxes, fails, 0)
  {
    EmitTwice(f0, emitted, boxes, fails, 0);
  }

  /** One more read carries the reader's parse one read further. */
  lemma FeedStep(outputs: seq<seq<Byte>>, i: nat, p: Parse)
    requires i < |outputs| && p == FeedAll(outputs[..i])
    ensures FeedAll(outputs[..i + 1]).boxes == p.boxes + ParseBoxes(p.rest + outputs[i]).boxes
    ensures FeedAll(outputs[..i + 1]).rest == ParseBoxes(p.rest + outputs[i]).rest
  {
    FeedAllSnoc(outputs, i);
  }

  lemma FeedAllSnoc(chunks: seq<seq<Byte>>, i: nat)
    requires i < |chunks|
    ensures FeedAll(chunks[..i + 1]) == Feed(FeedAll(chunks[..i]), chunks[i])
  {
    assert chunks[..i + 1][..i] == chunks[..i];
  }

  lemma WithInitSnoc(init: Option<seq<Byte>>, boxes: seq<seq<Byte>>, box: seq<Byte>)
    ensures WithInit(init, boxes + [box]) == AddInit(WithInit(init, boxes), box)
  {
    assert (boxes + [box])[..|boxes|] == boxes;
  }

  lemma WithInitAppend(init: Option<seq<Byte>>, b1: seq<seq<Byte>>, b2: seq<seq<Byte>>)
    ensures WithInit(init, b1 + b2) == WithInit(WithInit(init, b1), b2)
    decreases |b2|
  {
    if b2 == [] {
      assert b1 + b2 == b1;
    } else {
      var init2 := b2[..|b2| - 1];
      assert (b1 + b2)[..|b1 + b2| - 1] == b1 + init2;
      WithInitAppend(init, b1, init2);
    }
  }
}
