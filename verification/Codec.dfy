/** FBEB v2 frame codec: a 14-byte little-endian header (magic, event id, seq, signed
    payload length) followed by the payload. */
module Codec {
  import opened Words
  import opened Wrappers

  const HEADER_LEN: nat := 14
  const MAX_MESSAGE_LEN: nat := 372680
  const MAGIC: seq<Byte> := [0x46, 0x42, 0x45, 0x42]

  datatype Frame = Frame(eventId: U16, seqNo: U32, payload: seq<Byte>)

  /** Exactly the frames that `Encode` does not reject. */
  predicate Sendable(f: Frame) {
    |f.payload| <= MAX_MESSAGE_LEN
  }

  // ---- little-endian helpers ----

  function PutU16(v: U16): (r: seq<Byte>)
    ensures |r| == 2
  {
    [v % 0x100, v / 0x100]
  }

  function PutU32(v: U32): (r: seq<Byte>)
    ensures |r| == 4
  {
    [v % 0x100, v / 0x100 % 0x100, v / 0x1_0000 % 0x100, v / 0x100_0000]
  }

  function GetU16(p: seq<Byte>): U16
    requires |p| == 2
  {
    var b0: int, b1: int := p[0], p[1];
    b0 + 0x100 * b1
  }

  function GetU32(p: seq<Byte>): U32
    requires |p| == 4
  {
    var b0: int, b1: int, b2: int, b3: int := p[0], p[1], p[2], p[3];
    b0 + 0x100 * b1 + 0x1_0000 * b2 + 0x100_0000 * b3
  }

  /** The same four bytes read as a two's-complement value. */
  function GetI32(p: seq<Byte>): int
    requires |p| == 4
  {
    var u := GetU32(p);
    if u < 0x8000_0000 then u else u - 0x1_0000_0000
  }

  lemma GetPutU16(v: U16)
    ensures GetU16(PutU16(v)) == v
  {
  }

  lemma PutGetU16(p: seq<Byte>)
    requires |p| == 2
    ensures PutU16(GetU16(p)) == p
  {
    assert PutU16(GetU16(p))[0] == p[0];
  }

  lemma GetPutU32(v: U32)
    ensures GetU32(PutU32(v)) == v
  {
    assert v / 0x100 / 0x100 == v / 0x1_0000;
    assert v / 0x1_0000 / 0x100 == v / 0x100_0000;
  }

  lemma PutGetU32(p: seq<Byte>)
    requires |p| == 4
    ensures PutU32(GetU32(p)) == p
  {
    var v := GetU32(p);
    var b0: int, b1: int, b2: int, b3: int := p[0], p[1], p[2], p[3];
    ModIsUnique(v, b1 + 0x100 * (b2 + 0x100 * b3), b0, 0x100);
    ModIsUnique(v, b2 + 0x100 * b3, b0 + 0x100 * b1, 0x1_0000);
    ModIsUnique(v, b3, b0 + 0x100 * (b1 + 0x100 * b2), 0x100_0000);
    ModIsUnique(v / 0x100, b2 + 0x100 * b3, b1, 0x100);
    ModIsUnique(v / 0x1_0000, b3, b2, 0x100);
  }

  // ---- encode ----

  /** The bytes of a sendable frame. */
  function Wire(f: Frame): (r: seq<Byte>)
    requires Sendable(f)
    ensures |r| == HEADER_LEN + |f.payload|
  {
    MAGIC + PutU16(f.eventId) + PutU32(f.seqNo) + PutU32(|f.payload|) + f.payload
  }

  /** `None` is the overflow exception of an oversized payload. */
  function Encode(f: Frame): Option<seq<Byte>> {
    if |f.payload| > MAX_MESSAGE_LEN then None else Some(Wire(f))
  }

  /** The layout of an encoded frame, byte by byte; only a payload beyond the limit has none. */
  lemma WireBytes(f: Frame)
    ensures Encode(f).Some? <==> |f.payload| <= 372680
    ensures Encode(f).Some? ==>
              var b, n := Encode(f).value, |f.payload|;
              && |b| == 14 + n
              && b[0] == 0x46 && b[1] == 0x42 && b[2] == 0x45 && b[3] == 0x42
              && b[4] == f.eventId % 0x100 && b[5] == f.eventId / 0x100
              && b[6] == f.seqNo % 0x100 && b[7] == f.seqNo / 0x100 % 0x100
              && b[8] == f.seqNo / 0x1_0000 % 0x100 && b[9] == f.seqNo / 0x100_0000
              && b[10] == n % 0x100 && b[11] == n / 0x100 % 0x100
              && b[12] == n / 0x1_0000 % 0x100 && b[13] == n / 0x100_0000
              && b[14..] == f.payload
  {
  }

  // ---- decode ----

  datatype DecodeOutcome = NeedMore | BadFrame | Decoded(frame: Frame, consumed: nat)

  function DecodeFrame(buf: seq<Byte>): DecodeOutcome {
    if |buf| < HEADER_LEN then NeedMore
    else if buf[..4] != MAGIC then BadFrame
    else
      var len := GetI32(buf[10..14]);
      if len < 0 || len > MAX_MESSAGE_LEN then BadFrame
      else if |buf| < HEADER_LEN + len then NeedMore
      else Decoded(Frame(GetU16(buf[4..6]), GetU32(buf[6..10]), buf[14..14 + len]), HEADER_LEN + len)
  }

  /** Decoding inverts encoding, whatever follows the frame in the buffer. */
  lemma DecodeAfterEncode(f: Frame, rest: seq<Byte>)
    requires Sendable(f)
    ensures DecodeFrame(Wire(f) + rest) == Decoded(f, |Wire(f)|)
  {
    var buf := Wire(f) + rest;
    assert buf[..4] == MAGIC;
    assert buf[4..6] == PutU16(f.eventId);
    assert buf[6..10] == PutU32(f.seqNo);
    assert buf[10..14] == PutU32(|f.payload|);
    assert buf[14..14 + |f.payload|] == f.payload;
    GetPutU16(f.eventId);
    GetPutU32(f.seqNo);
    GetPutU32(|f.payload|);
  }

  /** Encoding inverts decoding: an accepted prefix is the encoding of the returned frame. */
  lemma EncodeAfterDecode(buf: seq<Byte>)
    requires DecodeFrame(buf).Decoded?
    ensures var d := DecodeFrame(buf);
            && Sendable(d.frame)
            && d.consumed == |Wire(d.frame)| <= |buf|
            && buf == Wire(d.frame) + buf[d.consumed..]
  {
    var d := DecodeFrame(buf);
    PutGetU16(buf[4..6]);
    PutGetU32(buf[6..10]);
    PutGetU32(buf[10..14]);
    assert buf == buf[..4] + buf[4..6] + buf[6..10] + buf[10..14] + buf[14..d.consumed] + buf[d.consumed..];
    assert Wire(d.frame) == buf[..4] + buf[4..6] + buf[6..10] + buf[10..14] + buf[14..d.consumed];
  }

  /** No encoding is a proper prefix of another: a byte stream has at most one first frame. */
  lemma WireIsPrefixFree(f: Frame, g: Frame, r: seq<Byte>, s: seq<Byte>)
    requires Sendable(f) && Sendable(g)
    requires Wire(f) + r == Wire(g) + s
    ensures f == g && r == s
  {
    DecodeAfterEncode(f, r);
    DecodeAfterEncode(g, s);
    assert r == (Wire(f) + r)[|Wire(f)|..];
    assert s == (Wire(g) + s)[|Wire(g)|..];
  }

  /** A decision about the first frame is not changed by bytes that arrive later. */
  lemma DecodeIsStable(buf: seq<Byte>, more: seq<Byte>)
    requires !DecodeFrame(buf).NeedMore?
    ensures DecodeFrame(buf + more) == DecodeFrame(buf)
  {
    assert forall i, j | 0 <= i <= j <= |buf| :: (buf + more)[i..j] == buf[i..j];
    assert (buf + more)[..4] == buf[..4];
  }

  /** `NeedMore` never lies: some continuation of the buffer completes the frame,
      provided the header seen so far carries the magic. */
  lemma NeedMoreCanComplete(buf: seq<Byte>) returns (more: seq<Byte>)
    requires |buf| >= HEADER_LEN && DecodeFrame(buf).NeedMore?
    ensures DecodeFrame(buf + more).Decoded?
  {
    var len := GetI32(buf[10..14]);
    more := seq(HEADER_LEN + len - |buf|, i => 0);
    assert (buf + more)[..4] == buf[..4];
    assert (buf + more)[10..14] == buf[10..14];
  }

  ghost predicate StartsWithFrame(buf: seq<Byte>) {
    exists f: Frame, rest: seq<Byte> :: Sendable(f) && buf == Wire(f) + rest
  }

  ghost predicate Completable(buf: seq<Byte>) {
    exists more: seq<Byte> :: StartsWithFrame(buf + more)
  }

  lemma DecodedIffFrame(buf: seq<Byte>)
    ensures DecodeFrame(buf).Decoded? <==> StartsWithFrame(buf)
  {
    if DecodeFrame(buf).Decoded? {
      EncodeAfterDecode(buf);
    }
    forall f: Frame, rest: seq<Byte> | Sendable(f) && buf == Wire(f) + rest
      ensures DecodeFrame(buf).Decoded?
    {
      DecodeAfterEncode(f, rest);
    }
  }

  /** The three verdicts, said without the parsing code. */
  lemma DecodeVerdicts(buf: seq<Byte>)
    ensures DecodeFrame(buf).Decoded? <==> StartsWithFrame(buf)
    ensures DecodeFrame(buf).BadFrame? <==> |buf| >= HEADER_LEN && !Completable(buf)
  {
    DecodedIffFrame(buf);
    match DecodeFrame(buf)
    case BadFrame =>
      forall more: seq<Byte> ensures !StartsWithFrame(buf + more) {
        DecodeIsStable(buf, more);
        DecodedIffFrame(buf + more);
      }
    case NeedMore =>
      if |buf| >= HEADER_LEN {
        var more := NeedMoreCanComplete(buf);
        DecodedIffFrame(buf + more);
      }
    case Decoded(_, _) =>
      assert buf + [] == buf;
  }

  // ---- stamp_seq ----

  predicate Stampable(b: seq<Byte>) {
    |b| >= HEADER_LEN && b[..4] == MAGIC
  }

  function Stamped(b: seq<Byte>, s: U32): (r: seq<Byte>)
    requires |b| >= HEADER_LEN
    ensures |r| == |b|
  {
    b[..6] + PutU32(s) + b[10..]
  }

  /** Rewrites the seq field of an encoded frame in place. */
  method StampSeq(encoded: array<Byte>, s: U32) returns (ok: bool)
    modifies encoded
    ensures ok <==> Stampable(old(encoded[..]))
    ensures encoded[..] == if ok then Stamped(old(encoded[..]), s) else old(encoded[..])
  {
    if encoded.Length < HEADER_LEN {
      return false;
    }
    if encoded[..4] != MAGIC {
      return false;
    }
    encoded[6] := s % 0x100;
    encoded[7] := s / 0x100 % 0x100;
    encoded[8] := s / 0x1_0000 % 0x100;
    encoded[9] := s / 0x100_0000;
    return true;
  }

  /** Stamping an encoded frame is encoding the frame with the other seq. */
  lemma StampedWire(f: Frame, s: U32)
    requires Sendable(f)
    ensures Stampable(Wire(f))
    ensures Stamped(Wire(f), s) == Wire(f.(seqNo := s))
  {
    assert Wire(f)[..4] == MAGIC;
    assert Wire(f)[..6] == MAGIC + PutU16(f.eventId);
    assert Wire(f)[10..] == PutU32(|f.payload|) + f.payload;
  }

  /** On any buffer, stamping changes the decoded seq and nothing else of the verdict. */
  lemma StampChangesOnlySeq(b: seq<Byte>, s: U32)
    requires Stampable(b)
    ensures DecodeFrame(Stamped(b, s)) ==
            match DecodeFrame(b)
            case Decoded(f, n) => Decoded(f.(seqNo := s), n)
            case other => other
  {
    var r := Stamped(b, s);
    assert r[..4] == b[..4];
    assert r[4..6] == b[4..6];
    assert r[6..10] == PutU32(s);
    assert r[10..] == b[10..];
    assert r[10..14] == b[10..14] by { assert r[10..14] == r[10..][..4]; assert b[10..14] == b[10..][..4]; }
    GetPutU32(s);
    var len := GetI32(b[10..14]);
    if 0 <= len && HEADER_LEN + len <= |b| {
      assert r[14..14 + len] == b[14..14 + len] by {
        assert r[14..14 + len] == r[10..][4..4 + len];
        assert b[14..14 + len] == b[10..][4..4 + len];
      }
    }
  }
}
