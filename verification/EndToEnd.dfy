/** The gateway's byte streams and the dispatch pipeline together: what a worker writes to a request
    ring is the next frame of the stream of some connection, and every reply answers one frame of
    the parse of the bytes its connection sent. */
module EndToEnd {
  import opened Words
  import opened Wrappers
  import opened Codec
  import opened FrameCut
  import opened StreamLog
  import opened SpscRing
  import opened Dispatch
  import opened DispatchProof
  import opened DispatchRuns

  /** The k-th frame handed over on a connection. */
  datatype FrameId = FrameId(conn: ConnId, k: nat)

  /** `logs` are the receive histories of the connections; `source` tells which frame was written
      at a position of a ring. No step reads `source`. */
  datatype Net = Net(sys: Sys, logs: map<ConnId, Log>, source: map<Origin, FrameId>)

  datatype NetMove =
    | Pipe(m: Move)
    | Receives(conn: ConnId, data: seq<Byte>)
    | Refuses(conn: ConnId)               // the sink refuses the next frame
    | Settles(conn: ConnId)

  predicate HasNext(l: Log) {
    Proper(l) && Busy(l) && Count(l) < |CutAll(Held(l)).frames|
  }

  function NextFrame(l: Log): Frame
    requires HasNext(l)
  {
    CutAll(Held(l)).frames[Count(l)]
  }

  predicate Carries(q: Request, f: Frame) {
    q.eventId == f.eventId && q.seqNo == f.seqNo && q.payload == f.payload
  }

  /** The request is the next frame of its connection's stream. */
  predicate TakesNext(logs: map<ConnId, Log>, q: Request) {
    q.conn in logs && HasNext(logs[q.conn]) && Carries(q, NextFrame(logs[q.conn]))
  }

  predicate IsFill(m: Move) {
    m.Gw? && m.gm.WorkerWrite? && m.gm.write.Fill?
  }

  ghost predicate NetAllowed(n: Net, a: NetMove) {
    match a
    case Pipe(m) =>
      && Allowed(n.sys, m)
      && (IsFill(m) ==> TakesNext(n.logs, m.gm.write.packet))
    case Receives(c, _) => c in n.logs && !Busy(n.logs[c])
    case Refuses(c) => c in n.logs && HasNext(n.logs[c])
    case Settles(c) =>
      && c in n.logs && Busy(n.logs[c])
      && Count(n.logs[c]) == |CutAll(Held(n.logs[c])).frames| && !CutAll(Held(n.logs[c])).bad
  }

  ghost function NetNext(n: Net, a: NetMove): Net
    requires Shaped(n.sys) && NetAllowed(n, a)
  {
    match a
    case Pipe(m) =>
      var n' := n.(sys := Next(n.sys, m));
      if m.Gw? && m.gm.Accept? then n'.(logs := n.logs[n.sys.gw.nextId := Start])
      else if IsFill(m) then
        var q, o := m.gm.write.packet, Origin(m.gm.w, |n.sys.reqs[m.gm.w].sent| + m.gm.write.i);
        var l := n.logs[q.conn];
        n'.(logs := n.logs[q.conn := Handed(l)],
            source := n.source[o := FrameId(q.conn, if Proper(l) then |Frames(l)| else 0)])
      else n'
    case Receives(c, data) => n.(logs := n.logs[c := Chunk(n.logs[c], data)])
    case Refuses(c) => n.(logs := n.logs[c := Handed(n.logs[c])])
    case Settles(c) => n.(logs := n.logs[c := Settled(n.logs[c])])
  }

  ghost predicate NetInit(n: Net) {
    Dispatch.Init(n.sys) && n.logs == map[] && n.source == map[]
  }

  ghost predicate IsNetRun(ns: seq<Net>, moves: seq<NetMove>) {
    && |ns| == |moves| + 1
    && NetInit(ns[0])
    && (forall i | 0 <= i < |moves| ::
          Shaped(ns[i].sys) && NetAllowed(ns[i], moves[i]) && ns[i + 1] == NetNext(ns[i], moves[i]))
  }

  // ---- what is at a position of a ring ----

  function PacketAt(r: Ring<Request>, p: nat): Option<Request> {
    if p < |r.sent| then Some(r.sent[p])
    else if p < Reserved(r) then r.staged[p - |r.sent|].filled
    else None
  }

  /** Positions never move: publishing leaves each packet where it was reserved, and only filling
      changes one. */
  lemma StepKeepsPositions(r: Ring<Request>, a: Action<Request>, p: nat)
    requires Capacity(|r.slots|) && Enabled(r, a)
    ensures PacketAt(Step(r, a), p) ==
            if a.Fill? && p == |r.sent| + a.i then Some(a.packet) else PacketAt(r, p)
  {
  }

  // ---- invariant ----

  ghost predicate LogsOk(logs: map<ConnId, Log>, nextId: ConnId) {
    forall c | c in logs :: Proper(logs[c]) && c < nextId
  }

  ghost predicate Known(logs: map<ConnId, Log>, id: FrameId) {
    id.conn in logs && Proper(logs[id.conn]) && id.k < |Frames(logs[id.conn])|
  }

  /** A frame is written to at most one position. */
  ghost predicate SourceOk(logs: map<ConnId, Log>, source: map<Origin, FrameId>) {
    && (forall o | o in source :: Known(logs, source[o]))
    && (forall o, o' | o in source && o' in source && source[o] == source[o'] :: o == o')
  }

  /** What is at a position is the frame it came from. */
  ghost predicate TrueCopy(logs: map<ConnId, Log>, source: map<Origin, FrameId>, o: Origin, q: Request) {
    && o in source && Known(logs, source[o]) && source[o].conn == q.conn
    && Carries(q, Frames(logs[q.conn])[source[o].k])
  }

  ghost predicate CopiesOk(reqs: seq<Ring<Request>>, logs: map<ConnId, Log>, source: map<Origin, FrameId>) {
    forall w, p | 0 <= w < |reqs| && 0 <= p && PacketAt(reqs[w], p).Some? ::
      TrueCopy(logs, source, Origin(w, p), PacketAt(reqs[w], p).value)
  }

  ghost predicate PartsOk(reqs: seq<Ring<Request>>, nextId: ConnId, logs: map<ConnId, Log>,
                          source: map<Origin, FrameId>) {
    LogsOk(logs, nextId) && SourceOk(logs, source) && CopiesOk(reqs, logs, source)
  }

  /** The invariant beyond the pipeline's own. */
  ghost predicate StreamsOk(n: Net) {
    PartsOk(n.sys.reqs, n.sys.gw.nextId, n.logs, n.source)
  }

  // ---- preservation ----

  /** No log loses a frame. */
  ghost predicate Grown(logs: map<ConnId, Log>, logs': map<ConnId, Log>) {
    forall c | c in logs ::
      && c in logs' && Proper(logs[c]) && Proper(logs'[c])
      && Frames(logs[c]) <= Frames(logs'[c])
  }

  lemma GrownKeepsCopies(reqs: seq<Ring<Request>>, logs: map<ConnId, Log>, logs': map<ConnId, Log>,
                         source: map<Origin, FrameId>)
    requires Grown(logs, logs') && SourceOk(logs, source) && CopiesOk(reqs, logs, source)
    ensures SourceOk(logs', source) && CopiesOk(reqs, logs', source)
  {
    forall w, p | 0 <= w < |reqs| && 0 <= p && PacketAt(reqs[w], p).Some?
      ensures TrueCopy(logs', source, Origin(w, p), PacketAt(reqs[w], p).value)
    {
      assert TrueCopy(logs, source, Origin(w, p), PacketAt(reqs[w], p).value);
    }
  }

  ghost predicate SamePackets(reqs: seq<Ring<Request>>, reqs': seq<Ring<Request>>) {
    && |reqs'| == |reqs|
    && forall w, p: nat | 0 <= w < |reqs| :: PacketAt(reqs'[w], p) == PacketAt(reqs[w], p)
  }

  lemma SamePacketsKeepCopies(reqs: seq<Ring<Request>>, reqs': seq<Ring<Request>>, logs: map<ConnId, Log>,
                              source: map<Origin, FrameId>)
    requires SamePackets(reqs, reqs') && CopiesOk(reqs, logs, source)
    ensures CopiesOk(reqs', logs, source)
  {
  }

  lemma RingMoveKeepsPackets(s: Sys, w: nat, a: Action<Request>)
    requires w < |s.reqs| && Capacity(|s.reqs[w].slots|) && Enabled(s.reqs[w], a) && !a.Fill?
    ensures SamePackets(s.reqs, SetRing(s, w, a).reqs)
  {
    forall v, p: nat | 0 <= v < |s.reqs| ensures PacketAt(SetRing(s, w, a).reqs[v], p) == PacketAt(s.reqs[v], p) {
      StepKeepsPositions(s.reqs[w], a, p);
    }
  }

  /** Every move but filling a slot leaves all packets where they are. */
  lemma MoveKeepsPackets(s: Sys, m: Move)
    requires Shaped(s) && Allowed(s, m) && !IsFill(m)
    ensures SamePackets(s.reqs, Next(s, m).reqs)
  {
    match m
    case Gw(WorkerWrite(w, write)) => RingMoveKeepsPackets(s, w, write);
    case Reader(PopRing(h)) => RingMoveKeepsPackets(s, s.pc.ring, Pop(h, REQ_BATCH));
    case Reader(ReadSlot(_)) => RingMoveKeepsPackets(s, s.pc.ring, Read);
    case Reader(ReleaseRing) => RingMoveKeepsPackets(s, s.pc.ring, Release);
    case _ => assert Next(s, m).reqs == s.reqs;
  }

  lemma OneLogGrows(logs: map<ConnId, Log>, c: ConnId, l': Log)
    requires c in logs && (forall d | d in logs :: Proper(logs[d])) && Proper(l') && Frames(logs[c]) <= Frames(l')
    ensures Grown(logs, logs[c := l'])
  {
  }

  /** The next frame of a log is written to a position: it gets an identity no position has. */
  lemma FillKeepsSource(logs: map<ConnId, Log>, source: map<Origin, FrameId>, o: Origin, c: ConnId)
    requires c in logs && HasNext(logs[c]) && SourceOk(logs, source) && forall d | d in logs :: Proper(logs[d])
    ensures var id := FrameId(c, |Frames(logs[c])|);
            SourceOk(logs[c := Handed(logs[c])], source[o := id])
  {
    var l := logs[c];
    assert Frames(Handed(l)) == Frames(l) + [NextFrame(l)];
    OneLogGrows(logs, c, Handed(l));
    assert forall o' | o' in source :: Known(logs, source[o']);
  }

  lemma FillKeepsCopies(reqs: seq<Ring<Request>>, logs: map<ConnId, Log>, source: map<Origin, FrameId>,
                        w: nat, i: nat, q: Request)
    requires w < |reqs| && Capacity(|reqs[w].slots|) && Enabled(reqs[w], Fill(i, q))
    requires TakesNext(logs, q)
    requires SourceOk(logs, source) && CopiesOk(reqs, logs, source) && forall d | d in logs :: Proper(logs[d])
    ensures var l := logs[q.conn];
            CopiesOk(reqs[w := Step(reqs[w], Fill(i, q))], logs[q.conn := Handed(l)],
                     source[Origin(w, |reqs[w].sent| + i) := FrameId(q.conn, |Frames(l)|)])
  {
    var l, o := logs[q.conn], Origin(w, |reqs[w].sent| + i);
    var reqs', logs' := reqs[w := Step(reqs[w], Fill(i, q))], logs[q.conn := Handed(l)];
    var source' := source[o := FrameId(q.conn, |Frames(l)|)];
    assert Frames(Handed(l)) == Frames(l) + [NextFrame(l)];
    OneLogGrows(logs, q.conn, Handed(l));
    forall v, p | 0 <= v < |reqs'| && 0 <= p && PacketAt(reqs'[v], p).Some?
      ensures TrueCopy(logs', source', Origin(v, p), PacketAt(reqs'[v], p).value)
    {
      StepKeepsPositions(reqs[w], Fill(i, q), p);
      if Origin(v, p) != o {
        assert PacketAt(reqs'[v], p) == PacketAt(reqs[v], p);
        assert TrueCopy(logs, source, Origin(v, p), PacketAt(reqs[v], p).value);
      }
    }
  }

  /** What filling a slot does to the rings, the logs and the record of sources. */
  ghost predicate FillStep(n: Net, n': Net, w: nat, i: nat, q: Request) {
    && w < |n.sys.reqs| && Capacity(|n.sys.reqs[w].slots|) && Enabled(n.sys.reqs[w], Fill(i, q))
    && TakesNext(n.logs, q)
    && n'.sys.gw == n.sys.gw
    && n'.sys.reqs == n.sys.reqs[w := Step(n.sys.reqs[w], Fill(i, q))]
    && n'.logs == n.logs[q.conn := Handed(n.logs[q.conn])]
    && n'.source == n.source[Origin(w, |n.sys.reqs[w].sent| + i) := FrameId(q.conn, |Frames(n.logs[q.conn])|)]
  }

  lemma FillEffect(n: Net, m: Move)
    requires Shaped(n.sys) && NetAllowed(n, Pipe(m)) && IsFill(m)
    ensures FillStep(n, NetNext(n, Pipe(m)), m.gm.w, m.gm.write.i, m.gm.write.packet)
  {
  }

  lemma HandingKeepsLogs(logs: map<ConnId, Log>, nextId: ConnId, c: ConnId)
    requires LogsOk(logs, nextId) && c in logs && HasNext(logs[c])
    ensures LogsOk(logs[c := Handed(logs[c])], nextId)
  {
  }

  lemma FillKeepsParts(reqs: seq<Ring<Request>>, nextId: ConnId, logs: map<ConnId, Log>,
                       source: map<Origin, FrameId>, w: nat, i: nat, q: Request)
    requires w < |reqs| && Capacity(|reqs[w].slots|) && Enabled(reqs[w], Fill(i, q))
    requires TakesNext(logs, q)
    requires PartsOk(reqs, nextId, logs, source)
    ensures var l := logs[q.conn];
            PartsOk(reqs[w := Step(reqs[w], Fill(i, q))], nextId, logs[q.conn := Handed(l)],
                    source[Origin(w, |reqs[w].sent| + i) := FrameId(q.conn, |Frames(l)|)])
  {
    HandingKeepsLogs(logs, nextId, q.conn);
    FillKeepsSource(logs, source, Origin(w, |reqs[w].sent| + i), q.conn);
    FillKeepsCopies(reqs, logs, source, w, i, q);
  }

  lemma FillKeepsStreams(n: Net, n': Net, w: nat, i: nat, q: Request)
    requires FillStep(n, n', w, i, q) && StreamsOk(n)
    ensures StreamsOk(n')
  {
    FillKeepsParts(n.sys.reqs, n.sys.gw.nextId, n.logs, n.source, w, i, q);
  }

  lemma AcceptKeepsLogs(logs: map<ConnId, Log>, id: ConnId)
    requires LogsOk(logs, id)
    ensures Grown(logs, logs[id := Start]) && LogsOk(logs[id := Start], id + 1)
  {
  }

  lemma PipeKeepsStreams(n: Net, m: Move)
    requires Shaped(n.sys) && NetAllowed(n, Pipe(m)) && !IsFill(m) && StreamsOk(n)
    ensures StreamsOk(NetNext(n, Pipe(m)))
  {
    MoveKeepsPackets(n.sys, m);
    SamePacketsKeepCopies(n.sys.reqs, Next(n.sys, m).reqs, n.logs, n.source);
    if m.Gw? && m.gm.Accept? {
      AcceptKeepsLogs(n.logs, n.sys.gw.nextId);
      GrownKeepsCopies(n.sys.reqs, n.logs, n.logs[n.sys.gw.nextId := Start], n.source);
    }
  }

  lemma StreamMoveKeepsStreams(n: Net, a: NetMove)
    requires Shaped(n.sys) && NetAllowed(n, a) && !a.Pipe? && StreamsOk(n)
    ensures StreamsOk(NetNext(n, a))
  {
    var c, l' := a.conn, NetNext(n, a).logs[a.conn];
    assert Proper(l') && Frames(n.logs[c]) <= Frames(l');
    OneLogGrows(n.logs, c, l');
    GrownKeepsCopies(n.sys.reqs, n.logs, n.logs[c := l'], n.source);
  }

  lemma NetMoveKeepsInv(n: Net, a: NetMove)
    requires DispatchProof.Inv(n.sys) && StreamsOk(n) && NetAllowed(n, a)
    ensures DispatchProof.Inv(NetNext(n, a).sys) && StreamsOk(NetNext(n, a))
  {
    match a
    case Pipe(m) =>
      MoveKeepsInv(n.sys, m);
      if IsFill(m) {
        FillEffect(n, m);
        FillKeepsStreams(n, NetNext(n, a), m.gm.w, m.gm.write.i, m.gm.write.packet);
      } else {
        PipeKeepsStreams(n, m);
      }
    case _ => StreamMoveKeepsStreams(n, a);
  }

  lemma NetInitHasInv(n: Net)
    requires NetInit(n)
    ensures DispatchProof.Inv(n.sys) && StreamsOk(n)
  {
    InitHasInv(n.sys);
    assert forall w | 0 <= w < |n.sys.reqs| :: n.sys.reqs[w].sent == [] && n.sys.reqs[w].staged == [];
  }

  lemma {:induction false} NetRunKeepsInv(ns: seq<Net>, moves: seq<NetMove>, i: nat)
    requires IsNetRun(ns, moves) && i < |ns|
    ensures DispatchProof.Inv(ns[i].sys) && StreamsOk(ns[i])
  {
    if i == 0 {
      NetInitHasInv(ns[0]);
    } else {
      NetRunKeepsInv(ns, moves, i - 1);
      NetMoveKeepsInv(ns[i - 1], moves[i - 1]);
    }
  }

  // ---- what the handlers returned ----

  function NetRecord(outs: map<Origin, Outcome>, a: NetMove): map<Origin, Outcome> {
    if a.Pipe? then Record(outs, a.m) else outs
  }

  function NetOutcomes(moves: seq<NetMove>): map<Origin, Outcome> {
    if moves == [] then map[] else NetRecord(NetOutcomes(moves[..|moves| - 1]), moves[|moves| - 1])
  }

  lemma NetOutcomesGrow(moves: seq<NetMove>, n: nat)
    requires n < |moves|
    ensures NetOutcomes(moves[..n + 1]) == NetRecord(NetOutcomes(moves[..n]), moves[n])
  {
    assert moves[..n + 1][..n] == moves[..n];
  }

  lemma NetMoveKeepsResults(n: Net, a: NetMove, outs: map<Origin, Outcome>)
    requires DispatchProof.Inv(n.sys) && NetAllowed(n, a) && AllCarried(n.sys, outs)
    ensures AllCarried(NetNext(n, a).sys, NetRecord(outs, a))
  {
    if a.Pipe? {
      MoveKeepsResults(n.sys, a.m, outs);
      assert NetNext(n, a).sys == Next(n.sys, a.m);
    } else {
      assert NetNext(n, a).sys == n.sys;
    }
  }

  lemma NetStepKeepsResults(ns: seq<Net>, moves: seq<NetMove>, n: nat)
    requires IsNetRun(ns, moves) && n < |moves| && AllCarried(ns[n].sys, NetOutcomes(moves[..n]))
    ensures AllCarried(ns[n + 1].sys, NetOutcomes(moves[..n + 1]))
  {
    NetRunKeepsInv(ns, moves, n);
    NetOutcomesGrow(moves, n);
    NetMoveKeepsResults(ns[n], moves[n], NetOutcomes(moves[..n]));
  }

  lemma {:induction false} NetRunKeepsResults(ns: seq<Net>, moves: seq<NetMove>, i: nat)
    requires IsNetRun(ns, moves) && i < |ns|
    ensures AllCarried(ns[i].sys, NetOutcomes(moves[..i]))
  {
    if i == 0 {
      InitIsEmpty(ns[0].sys);
    } else {
      NetRunKeepsResults(ns, moves, i - 1);
      NetStepKeepsResults(ns, moves, i - 1);
    }
  }

  // ---- what a client can rely on ----

  /** The reply `d` answers frame `id`: one of the parse of the bytes received on its connection,
      not a position report; and it is what that request's handler returned, under the frame's
      number. */
  ghost predicate AnswersFrame(n: Net, outs: map<Origin, Outcome>, d: Delivery, id: FrameId) {
    && id.conn == d.reply.conn && id.conn in n.logs
    && var frames := CutAll(Bytes(n.logs[id.conn])).frames;
    && id.k < |frames| && frames[id.k].eventId != 0x15
    && d.reply.origin in outs && outs[d.reply.origin].Returned?
    && var result := DecodeFrame(outs[d.reply.origin].bytes);
    && result.Decoded? && result.consumed == |outs[d.reply.origin].bytes|
    && DecodeFrame(d.reply.frame) ==
       Decoded(Frame(result.frame.eventId, frames[id.k].seqNo, result.frame.payload), |d.reply.frame|)
  }

  lemma DeliveryHasFrame(n: Net, outs: map<Origin, Outcome>, k: nat)
    requires DispatchProof.Inv(n.sys) && StreamsOk(n) && AllCarried(n.sys, outs) && k < |n.sys.gw.delivered|
    ensures var d := n.sys.gw.delivered[k];
            d.reply.origin in n.source && AnswersFrame(n, outs, d, n.source[d.reply.origin])
  {
    DeliveryIsRouted(n.sys, k);
    DeliveryCarriesResult(n.sys, outs, k);
    var o := n.sys.gw.delivered[k].reply.origin;
    var q := n.sys.reqs[o.ring].sent[o.index];
    assert PacketAt(n.sys.reqs[o.ring], o.index) == Some(q);
    assert TrueCopy(n.logs, n.source, Origin(o.ring, o.index), q);
    HandedIsPrefixOfParse(n.logs[q.conn]);
  }

  /** On every run, each reply that reaches a client answers a frame of the one parse of the bytes
      that client's connection sent, with what the handler of that request returned. */
  lemma EveryReplyAnswersAFrame(ns: seq<Net>, moves: seq<NetMove>, i: nat, k: nat)
    requires IsNetRun(ns, moves) && i < |ns| && k < |ns[i].sys.gw.delivered|
    ensures var d := ns[i].sys.gw.delivered[k];
            && d.reply.origin in ns[i].source
            && AnswersFrame(ns[i], NetOutcomes(moves[..i]), d, ns[i].source[d.reply.origin])
  {
    NetRunKeepsInv(ns, moves, i);
    NetRunKeepsResults(ns, moves, i);
    DeliveryHasFrame(ns[i], NetOutcomes(moves[..i]), k);
  }

  /** No frame is answered twice. */
  lemma NoFrameIsAnsweredTwice(ns: seq<Net>, moves: seq<NetMove>, i: nat, k: nat, l: nat)
    requires IsNetRun(ns, moves) && i < |ns| && k < l < |ns[i].sys.gw.delivered|
    ensures var source, d, e := ns[i].source, ns[i].sys.gw.delivered[k], ns[i].sys.gw.delivered[l];
            && d.reply.origin in source && e.reply.origin in source
            && source[d.reply.origin] != source[e.reply.origin]
  {
    NetRunKeepsInv(ns, moves, i);
    EveryReplyAnswersAFrame(ns, moves, i, k);
    EveryReplyAnswersAFrame(ns, moves, i, l);
    DeliveryIsUnique(ns[i].sys, k, l);
  }
}
