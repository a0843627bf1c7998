/** Cutting a byte stream into frames: the gateway's `cut_frames`, the client's
    `consume_frames`, and the laws that make both independent of how the stream was chunked. */
module FrameCut {
  import opened Words
  import opened Codec

  /** Frames cut so far, the bytes not cut, and whether the first of those is a bad frame. */
  datatype Cut = Cut(frames: seq<Frame>, leftover: seq<Byte>, bad: bool)

  function CutAll(buf: seq<Byte>): Cut
    decreases |buf|
  {
    match DecodeFrame(buf)
    case NeedMore => Cut([], buf, false)
    case BadFrame => Cut([], buf, true)
    case Decoded(f, n) => After([f], CutAll(buf[n..]))
  }

  function After(fs: seq<Frame>, c: Cut): Cut {
    Cut(fs + c.frames, c.leftover, c.bad)
  }

  predicate AllSendable(fs: seq<Frame>) {
    forall i | 0 <= i < |fs| :: Sendable(fs[i])
  }

  function WireAll(fs: seq<Frame>): seq<Byte>
    requires AllSendable(fs)
  {
    if fs == [] then [] else Wire(fs[0]) + WireAll(fs[1..])
  }

  /** Reference notion of a parse, without reference to any parsing order. */
  predicate IsParse(buf: seq<Byte>, c: Cut) {
    && AllSendable(c.frames)
    && buf == WireAll(c.frames) + c.leftover
    && DecodeFrame(c.leftover) == if c.bad then BadFrame else NeedMore
  }

  lemma CutOneWire(f: Frame, tail: seq<Byte>)
    requires Sendable(f)
    ensures CutAll(Wire(f) + tail) == After([f], CutAll(tail))
  {
    DecodeAfterEncode(f, tail);
    assert (Wire(f) + tail)[|Wire(f)|..] == tail;
  }

  lemma AfterAfter(fs: seq<Frame>, gs: seq<Frame>, c: Cut)
    ensures After(fs, After(gs, c)) == After(fs + gs, c)
    ensures After([], c) == c
  {
    Assoc(fs, gs, c.frames);
    assert [] + c.frames == c.frames;
  }

  /** Cutting what was encoded returns it, followed by the cut of the rest. */
  lemma {:induction false} CutAfterWire(fs: seq<Frame>, rest: seq<Byte>)
    requires AllSendable(fs)
    ensures CutAll(WireAll(fs) + rest) == After(fs, CutAll(rest))
  {
    if fs == [] {
      AfterAfter([], [], CutAll(rest));
      assert WireAll(fs) + rest == rest;
    } else {
      var tail := WireAll(fs[1..]);
      Assoc(Wire(fs[0]), tail, rest);
      CutOneWire(fs[0], tail + rest);
      CutAfterWire(fs[1..], rest);
      AfterAfter([fs[0]], fs[1..], CutAll(rest));
      assert [fs[0]] + fs[1..] == fs;
    }
  }

  lemma {:induction false} CutIsParse(buf: seq<Byte>)
    ensures IsParse(buf, CutAll(buf))
    decreases |buf|
  {
    var c := CutAll(buf);
    match DecodeFrame(buf)
    case NeedMore =>
    case BadFrame =>
    case Decoded(f, n) =>
      EncodeAfterDecode(buf);
      CutIsParse(buf[n..]);
      var r := CutAll(buf[n..]);
      assert c.frames[1..] == r.frames;
      Assoc(Wire(f), WireAll(r.frames), r.leftover);
  }

  /** The cut is the one and only parse of the buffer. */
  lemma CutIsTheOnlyParse(buf: seq<Byte>, c: Cut)
    ensures IsParse(buf, c) <==> c == CutAll(buf)
  {
    CutIsParse(buf);
    if IsParse(buf, c) {
      CutAfterWire(c.frames, c.leftover);
      assert c.frames + [] == c.frames;
    }
  }

  /** Cutting `a + b` is cutting `a`, then cutting what `a` left over followed by `b`;
      once bad, the verdict and the frames stay. */
  lemma CutAppend(a: seq<Byte>, b: seq<Byte>)
    ensures CutAll(a + b) ==
            var c := CutAll(a);
            if c.bad then Cut(c.frames, c.leftover + b, true)
            else After(c.frames, CutAll(c.leftover + b))
  {
    var c := CutAll(a);
    CutIsParse(a);
    Assoc(WireAll(c.frames), c.leftover, b);
    CutAfterWire(c.frames, c.leftover + b);
    if c.bad {
      DecodeIsStable(c.leftover, b);
      assert c.frames + [] == c.frames;
    }
  }

  /** A leftover that is not bad is shorter than one maximal frame. */
  lemma LeftoverIsShort(buf: seq<Byte>)
    requires !CutAll(buf).bad
    ensures |CutAll(buf).leftover| < HEADER_LEN + MAX_MESSAGE_LEN
  {
    CutIsParse(buf);
  }

  // ---- streams that arrive in chunks ----

  function Joined(chunks: seq<seq<Byte>>): seq<Byte> {
    if chunks == [] then [] else Joined(chunks[..|chunks| - 1]) + chunks[|chunks| - 1]
  }

  /** What a receiver holds that cuts after every chunk and keeps the leftover. */
  function CutInChunks(chunks: seq<seq<Byte>>): Cut {
    if chunks == [] then Cut([], [], false)
    else
      var s := CutInChunks(chunks[..|chunks| - 1]);
      var chunk := chunks[|chunks| - 1];
      if s.bad then Cut(s.frames, s.leftover + chunk, true)
      else After(s.frames, CutAll(s.leftover + chunk))
  }

  /** Any chunking of a stream is cut into the frames, leftover and verdict of the whole. */
  lemma {:induction false} ChunkingIsIrrelevant(chunks: seq<seq<Byte>>)
    ensures CutInChunks(chunks) == CutAll(Joined(chunks))
  {
    if chunks == [] {
    } else {
      var front := chunks[..|chunks| - 1];
      ChunkingIsIrrelevant(front);
      CutAppend(Joined(front), chunks[|chunks| - 1]);
    }
  }

  // ---- the gateway's loop ----

  /** `cut_frames`: advances an offset over a fixed buffer. */
  method CutFrames(p: seq<Byte>) returns (r: Cut)
    ensures r == CutAll(p)
    ensures IsParse(p, r)
  {
    var out: seq<Frame> := [];
    var bad := false;
    var off := 0;
    assert p[off..] == p;
    while off < |p|
      invariant 0 <= off <= |p|
      invariant CutAll(p) == After(out, CutAll(p[off..]))
    {
      var res := DecodeFrame(p[off..]);
      if res.NeedMore? {
        break;
      }
      if res.BadFrame? {
        bad := true;
        break;
      }
      assert p[off..][res.consumed..] == p[off + res.consumed..];
      AfterAfter(out, [res.frame], CutAll(p[off + res.consumed..]));
      out := out + [res.frame];
      off := off + res.consumed;
    }
    r := Cut(out, p[off..], bad);
    assert out + [] == out;
    CutIsParse(p);
  }
}

/** Receiving side of the client's TCP worker. */
module TcpWorker {
  import opened Words
  import opened Codec
  import opened FrameCut

  class TcpWorker {
    var rx: seq<Byte>
    var ready: seq<Frame>   // frames signalled so far, oldest first

    constructor ()
      ensures rx == [] && ready == []
    {
      rx, ready := [], [];
    }

    /** `consume_frames`: removes each complete frame from the front of the buffer. */
    method ConsumeFrames() returns (ok: bool)
      modifies this
      ensures ready == old(ready) + CutAll(old(rx)).frames
      ensures rx == CutAll(old(rx)).leftover
      ensures ok == !CutAll(old(rx)).bad
    {
      ghost var before, buf := ready, rx;
      ghost var done: seq<Frame> := [];
      while true
        invariant ready == before + done
        invariant CutAll(buf) == After(done, CutAll(rx))
        decreases |rx|
      {
        var out := DecodeFrame(rx);
        match out
        case NeedMore =>
          assert done + [] == done;
          return true;
        case BadFrame =>
          assert done + [] == done;
          return false;
        case Decoded(f, n) =>
          assert done + ([f] + CutAll(rx[n..]).frames) == (done + [f]) + CutAll(rx[n..]).frames;
          done := done + [f];
          rx := rx[n..];
          ready := ready + [f];
      }
    }

    /** `onReadyRead`: a bad frame drops the socket, which clears the buffer. */
    method OnReadyRead(chunk: seq<Byte>) returns (ok: bool)
      modifies this
      ensures var c := CutAll(old(rx) + chunk);
              && ready == old(ready) + c.frames
              && ok == !c.bad
              && rx == if ok then c.leftover else []
    {
      rx := rx + chunk;
      ok := ConsumeFrames();
      if !ok {
        rx := [];
      }
    }

    /** Until the first bad frame, whatever the chunking, exactly the frames of the whole
        stream have been signalled and its tail is buffered. */
    method ReceiveAll(chunks: seq<seq<Byte>>) returns (ok: bool)
      requires rx == [] && ready == []
      modifies this
      ensures ok == !CutAll(Joined(chunks)).bad
      ensures ready == CutAll(Joined(chunks)).frames
      ensures ok ==> rx == CutAll(Joined(chunks)).leftover
    {
      ok := true;
      for i := 0 to |chunks|
        invariant ok == !CutInChunks(chunks[..i]).bad
        invariant ready == CutInChunks(chunks[..i]).frames
        invariant ok ==> rx == CutInChunks(chunks[..i]).leftover
      {
        assert chunks[..i + 1][..i] == chunks[..i];
        if ok {
          ok := OnReadyRead(chunks[i]);
        }
      }
      assert chunks[..|chunks|] == chunks;
      ChunkingIsIrrelevant(chunks);
    }
  }
}
