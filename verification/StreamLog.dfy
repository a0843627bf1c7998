/** The receive history of one connection: chunks received and passed to a worker, frames a worker
    handed to the sink, and batches settled. What was handed and what is held follow from it. */
module StreamLog {
  import opened Words
  import opened Codec
  import opened FrameCut

  datatype Log =
    | Start
    | Chunk(prev: Log, data: seq<Byte>)   // received; all held bytes go to a worker
    | Handed(prev: Log)                   // the worker's next frame goes to the sink
    | Settled(prev: Log)                  // batch over; the bytes not cut are held again

  /** All bytes received. */
  function Bytes(l: Log): seq<Byte> {
    match l
    case Start => []
    case Chunk(p, data) => Bytes(p) + data
    case Handed(p) => Bytes(p)
    case Settled(p) => Bytes(p)
  }

  /** The bytes in the worker's batch, or else the held rest of the last one. */
  function Held(l: Log): seq<Byte> {
    match l
    case Start => []
    case Chunk(p, data) => Held(p) + data
    case Handed(p) => Held(p)
    case Settled(p) => CutAll(Held(p)).leftover
  }

  /** How many frames of the current batch were handed over. */
  function Count(l: Log): nat {
    if l.Handed? then Count(l.prev) + 1 else 0
  }

  /** A worker has a batch. */
  predicate Busy(l: Log) {
    l.Chunk? || l.Handed?
  }

  /** One batch at a time, its frames in order and all of them before it is settled. */
  predicate Proper(l: Log) {
    match l
    case Start => true
    case Chunk(p, _) => Proper(p) && !Busy(p)
    case Handed(p) => Proper(p) && Busy(p) && Count(p) < |CutAll(Held(p)).frames|
    case Settled(p) => Proper(p) && Busy(p) && Count(p) == |CutAll(Held(p)).frames| && !CutAll(Held(p)).bad
  }

  /** All frames handed to the sink. */
  function Frames(l: Log): seq<Frame>
    requires Proper(l)
  {
    match l
    case Start => []
    case Chunk(p, _) => Frames(p)
    case Handed(p) => Frames(p) + [CutAll(Held(p)).frames[Count(p)]]
    case Settled(p) => Frames(p)
  }

  /** Frames handed over in earlier batches. */
  function Base(l: Log): seq<Frame>
    requires Proper(l)
  {
    if l.Handed? then Base(l.prev) else Frames(l)
  }

  lemma {:induction false} FramesOfBatch(l: Log)
    requires Proper(l) && Busy(l)
    ensures Count(l) <= |CutAll(Held(l)).frames|
    ensures Frames(l) == Base(l) + CutAll(Held(l)).frames[..Count(l)]
  {
    var fs := CutAll(Held(l)).frames;
    if l.Handed? {
      FramesOfBatch(l.prev);
      var k := Count(l.prev);
      assert fs[..k + 1] == fs[..k] + [fs[k]];
      Assoc(Base(l.prev), fs[..k], [fs[k]]);
    } else {
      assert Frames(l) + fs[..0] == Frames(l);
    }
  }

  lemma {:induction false} WireAllConcat(a: seq<Frame>, b: seq<Frame>)
    requires AllSendable(a) && AllSendable(b)
    ensures AllSendable(a + b) && WireAll(a + b) == WireAll(a) + WireAll(b)
  {
    if a == [] {
      assert a + b == b;
    } else {
      WireAllConcat(a[1..], b);
      assert (a + b)[1..] == a[1..] + b;
      Assoc(Wire(a[0]), WireAll(a[1..]), WireAll(b));
    }
  }

  /** The encodings of the frames of earlier batches, followed by the bytes held since, are
      exactly the bytes received. */
  lemma {:induction false} NothingIsLost(l: Log)
    requires Proper(l)
    ensures AllSendable(Base(l)) && Bytes(l) == WireAll(Base(l)) + Held(l)
  {
    match l
    case Start =>
    case Chunk(p, data) =>
      NothingIsLost(p);
      assert Base(p) == Frames(p);
      Assoc(WireAll(Base(p)), Held(p), data);
    case Handed(p) => NothingIsLost(p);
    case Settled(p) =>
      NothingIsLost(p);
      FramesOfBatch(p);
      CutIsParse(Held(p));
      var c := CutAll(Held(p));
      assert c.frames[..|c.frames|] == c.frames;
      WireAllConcat(Base(p), c.frames);
      Assoc(WireAll(Base(p)), WireAll(c.frames), c.leftover);
  }

  lemma HeldIsIncomplete(l: Log)
    requires Proper(l) && !Busy(l)
    ensures DecodeFrame(Held(l)).NeedMore?
    ensures |Held(l)| < HEADER_LEN + MAX_MESSAGE_LEN
  {
    if l.Settled? {
      CutIsParse(Held(l.prev));
    }
  }

  /** However the kernel split the bytes, the frames handed over are the first frames of the one
      parse of everything received; between batches they are all of them, and what is held is
      that parse's leftover. */
  lemma HandedIsPrefixOfParse(l: Log)
    requires Proper(l)
    ensures Frames(l) <= CutAll(Bytes(l)).frames
    ensures !Busy(l) ==> CutAll(Bytes(l)) == Cut(Frames(l), Held(l), false)
  {
    NothingIsLost(l);
    CutAfterWire(Base(l), Held(l));
    if Busy(l) {
      FramesOfBatch(l);
      var fs := CutAll(Held(l)).frames;
      assert Base(l) + fs[..Count(l)] <= Base(l) + fs;
    } else {
      HeldIsIncomplete(l);
      assert Frames(l) + [] == Frames(l);
    }
  }

  lemma {:induction false} HandedAreSendable(l: Log)
    requires Proper(l)
    ensures AllSendable(Frames(l))
  {
    match l
    case Start =>
    case Chunk(p, _) => HandedAreSendable(p);
    case Handed(p) =>
      HandedAreSendable(p);
      CutIsParse(Held(p));
    case Settled(p) => HandedAreSendable(p);
  }
}
