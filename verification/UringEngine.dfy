/** The gateway's connection engine, seen from one accepted connection: the main thread completes
    its kernel operations and processes what workers hand back; workers cut batches of its raw
    bytes into frames and give these to the sink. Every method is one event of one thread, so any
    sequence of calls is an interleaving. Connections share nothing but the queues they pass
    through in order, and the SQ, whose exhaustion is an outcome of each submission. */
module UringEngine {
  import opened Words
  import opened Wrappers
  import opened Codec
  import opened FrameCut
  import opened ConnContext
  import opened StreamLog

  datatype RecvResult = RecvError | PeerClosed | Received(data: seq<Byte>)
  datatype SendResult = SendError | Sent(n: nat)

  datatype OutboxItem = Respond(bytes: seq<Byte>) | RearmRecv(bytes: seq<Byte>) | CloseIt

  /** A batch in the worker pool: cut once a worker takes it, then handed over frame by frame. */
  datatype Batch = Batch(raw: seq<Byte>, cut: Option<Cut>, next: nat)

  datatype SinkResult = Reply(bytes: seq<Byte>) | Overload | Malformed | Threw

  function Controls(items: seq<OutboxItem>): seq<OutboxItem> {
    if items == [] then []
    else if items[0].Respond? then Controls(items[1..])
    else [items[0]] + Controls(items[1..])
  }

  lemma {:induction false} ControlsAppend(items: seq<OutboxItem>, it: OutboxItem)
    ensures Controls(items + [it]) == Controls(items) + (if it.Respond? then [] else [it])
  {
    if items == [] {
      assert items + [it] == [it];
      assert Controls([it][1..]) == [];
    } else {
      assert (items + [it])[1..] == items[1..] + [it];
      ControlsAppend(items[1..], it);
    }
  }

  predicate NoEmptyRespond(items: seq<OutboxItem>) {
    forall i | 0 <= i < |items| :: items[i].Respond? ==> items[i].bytes != []
  }

  lemma FrontOfQueue(q: seq<seq<Byte>>, n: nat)
    requires q != [] && n <= |q[0]|
    ensures n <= |Flat(q)| && Flat(q) == q[0][..n] + Flat(q)[n..]
  {
    assert Flat(q) == q[0] + Flat(q[1..]);
    assert q[0][..n] == Flat(q)[..n];
  }

  /** Sending the front of the queue moves the boundary between sent and queued bytes. */
  lemma SentIsPrefix(wire: seq<Byte>, q: seq<seq<Byte>>, pushed: seq<Byte>, n: nat)
    requires q != [] && n <= |q[0]| && pushed == wire + Flat(q)
    ensures n <= |Flat(q)|
    ensures pushed == wire + q[0][..n] + Flat(q)[n..]
    ensures wire + q[0][..n] <= pushed
  {
    var front, rest := q[0][..n], Flat(q)[n..];
    FrontOfQueue(q, n);
    Assoc(wire, front, rest);
  }

  lemma {:induction false} ControlsAreControls(items: seq<OutboxItem>)
    ensures forall i | 0 <= i < |Controls(items)| :: !Controls(items)[i].Respond?
  {
    if items == [] {
    } else {
      ControlsAreControls(items[1..]);
    }
  }

  class Link {
    const conn: Connection
    const rxBuf: nat
    const backlogLimit: nat
    var freed: bool                  // erased from the connection table
    var batches: seq<Batch>          // its batches in the worker pool
    var items: seq<OutboxItem>       // its items in the outbox, oldest first
    var handed: seq<Frame>           // frames given to the sink, oldest first
    var draining: bool

    // its operations in the kernel, with the size of the buffer given to each
    ghost var kernelRecv: Option<nat>
    ghost var kernelSend: Option<nat>
    // history: what happened to received bytes, response bytes pushed and sent, the block being sent
    ghost var log: Log
    ghost var pushed: seq<Byte>
    ghost var wire: seq<Byte>
    ghost var block: seq<Byte>

    // ---- invariant ----

    /** Each op pointer stands for exactly one operation in the kernel, `pendingOps` counts them,
        and a freed connection has none. */
    ghost predicate OpsOk()
      reads this`freed, this`kernelRecv, this`kernelSend, conn`pendingOps, conn`recvOp, conn`sendOp,
        conn`rxLen, conn`storage, conn`sendQ, conn`state, conn`fdOpen
    {
      && conn.pendingOps == (if conn.recvOp then 1 else 0) + (if conn.sendOp then 1 else 0)
      && conn.RxValid()
      && kernelRecv == (if conn.recvOp then Some(conn.Window()) else None)
      && (conn.sendOp ==> conn.sendQ != [])
      && kernelSend == (if conn.sendOp then Some(|conn.sendQ[0]|) else None)
      && (freed ==> conn.state.Closing? && conn.pendingOps == 0)
      && conn.fdOpen == !freed
    }

    /** A closing connection is kept exactly as long as one of its operations is in flight. */
    ghost predicate LifetimeOk()
      reads this`freed, conn`state, conn`pendingOps
    {
      freed == (conn.state.Closing? && conn.pendingOps == 0)
    }

    /** Until the close, what was pushed is what was sent followed by what is queued; the block
        under a send in flight is the front of the queue, unchanged. */
    ghost predicate SendOk()
      reads this`pushed, this`wire, this`block, conn`sendQ, conn`sendBytes, conn`sendActive, conn`sendOp,
        conn`state
    {
      && conn.SendValid() && NoEmptyBlock(conn.sendQ)
      && conn.sendActive == conn.sendOp
      && conn.sendBytes <= backlogLimit
      && (conn.sendOp ==> conn.sendQ != [] && conn.sendQ[0] == block)
      && (!conn.state.Closing? || conn.sendOp ==> pushed == wire + Flat(conn.sendQ))
      && wire <= pushed
    }

    /** Of the receive in flight, the batches and the control items, there is at most one, and
        exactly one while the connection is neither closing nor freed. */
    ghost predicate TokenOk()
      reads this`batches, this`items, conn`state, conn`recvOp
    {
      && |batches| + |Controls(items)| <= 1
      && (conn.state.Active? ==> conn.recvOp && |batches| + |Controls(items)| == 0)
      && (conn.state.Parsing? ==> !conn.recvOp && |batches| + |Controls(items)| == 1)
    }

    /** Where the received bytes are. */
    ghost predicate StreamOk()
      reads this`log, this`batches, this`items, conn`state, conn`rxLen, conn`storage
    {
      && conn.RxValid()
      && Proper(log)
      && (conn.state.Active? ==> conn.Window() == rxBuf && !Busy(log) && conn.Rx() == Held(log))
      && (conn.state.Parsing? ==> conn.rxLen == 0 && |conn.storage| == rxBuf)
      && (|batches| == 1 ==> BatchOk(batches[0]))
      && (|Controls(items)| == 1 && Controls(items)[0].RearmRecv? ==>
            !Busy(log) && Controls(items)[0].bytes == Held(log))
    }

    ghost predicate BatchOk(b: Batch)
      reads this`log
    {
      && Busy(log) && b.raw == Held(log) && b.next == Count(log)
      && (b.cut.Some? ==> b.cut.value == CutAll(b.raw))
      && (b.cut.None? ==> b.next == 0)
    }

    ghost predicate HandedOk()
      reads this`handed, this`log
    {
      Proper(log) && handed == Frames(log)
    }

    ghost predicate Valid()
      reads this, conn
    {
      OpsOk() && LifetimeOk() && SendOk() && TokenOk() && StreamOk() && HandedOk() && NoEmptyRespond(items)
    }

    /** What waits to be sent is being sent, unless submission entries ran out and the engine is
        stopping. */
    ghost predicate Armed()
      reads this`draining, conn`state, conn`sendQ, conn`sendOp
    {
      !conn.state.Closing? && conn.sendQ != [] ==> conn.sendOp || draining
    }

    /** A send in flight stays in flight, with the block it was given. */
    twostate predicate SendStays()
      reads this`kernelSend, this`block, conn`sendOp
    {
      old(conn.sendOp) ==> conn.sendOp && kernelSend == old(kernelSend) && block == old(block)
    }

    /** A receive in flight stays in flight, with the area it was given. */
    twostate predicate RecvStays()
      reads this`kernelRecv, conn`recvOp, conn`rxLen, conn`storage
    {
      old(conn.recvOp) ==>
        && conn.recvOp && kernelRecv == old(kernelRecv)
        && conn.rxLen == old(conn.rxLen) && conn.storage == old(conn.storage)
    }

    // ---- a new connection ----

    /** A connection whose first receive was submitted. */
    constructor (connId: nat, rxBuf: nat, backlogLimit: nat)
      ensures Valid() && Armed() && fresh(conn) && conn.connId == connId && conn.state.Active?
      ensures log == Start && pushed == wire == []
      ensures this.rxBuf == rxBuf && this.backlogLimit == backlogLimit
    {
      var c := new Connection(connId, rxBuf);
      c.RxPrepare(rxBuf);
      c.recvOp := true;
      c.pendingOps := c.pendingOps + 1;
      conn, this.rxBuf, this.backlogLimit := c, rxBuf, backlogLimit;
      freed, batches, items, handed, draining := false, [], [], [], false;
      kernelRecv, kernelSend := Some(rxBuf), None;
      log, pushed, wire, block := Start, [], [], [];
    }

    // ---- closing ----

    /** What a close relies on: everything but the state of the receive side. */
    ghost predicate Closable()
      reads this, conn
    {
      && !freed && OpsOk() && SendOk() && NoEmptyRespond(items)
      && HandedOk()
      && |batches| + |Controls(items)| <= 1
      && (|batches| == 1 ==> BatchOk(batches[0]))
      && (|Controls(items)| == 1 && Controls(items)[0].RearmRecv? ==>
            !Busy(log) && Controls(items)[0].bytes == Held(log))
    }

    /** Frees a closing connection once none of its operations is in flight. */
    method MaybeFinalize()
      requires OpsOk() && !freed
      modifies this`freed, conn`fdOpen
      ensures OpsOk() && LifetimeOk()
    {
      if !conn.state.Closing? || conn.pendingOps > 0 {
        return;
      }
      conn.fdOpen := false;
      freed := true;
    }

    /** Marks the connection closing; operations still in flight finalize it when they complete. */
    method CloseConn()
      requires Closable() && !conn.state.Closing?
      modifies this`freed, conn`state, conn`fdOpen
      ensures Valid() && conn.state.Closing?
    {
      conn.state := Closing;
      MaybeFinalize();
    }

    /** Idle sweep, drain and shutdown close any connection that is not closing yet. */
    method Sweep()
      requires Valid()
      modifies this`freed, conn`state, conn`fdOpen
      ensures Valid() && Armed() && SendStays() && RecvStays() && conn.state.Closing?
      ensures old(conn.state.Closing?) ==> freed == old(freed)
    {
      if !conn.state.Closing? {
        CloseConn();
      }
    }

    method RequestStop()
      requires Valid()
      modifies this`draining
      ensures Valid() && Armed() && draining
    {
      draining := true;
    }

    // ---- submissions: `sqe` tells whether a submission entry was available ----

    method SubmitRecv(sqe: bool) returns (ok: bool)
      requires Closable() && !conn.recvOp && conn.Window() <= rxBuf
      modifies this`draining, this`kernelRecv, conn`storage, conn`recvOp, conn`pendingOps
      ensures Closable() && ok == sqe == conn.recvOp
      ensures conn.Window() == rxBuf && conn.Rx() == old(conn.Rx())
    {
      conn.RxPrepare(rxBuf);
      if !sqe {
        draining := true;
        return false;
      }
      conn.recvOp := true;
      conn.pendingOps := conn.pendingOps + 1;
      kernelRecv := Some(conn.Window());
      return true;
    }

    method SubmitSend(sqe: bool) returns (ok: bool)
      requires Valid() && !conn.state.Closing? && !conn.sendOp && conn.sendQ != []
      modifies this`draining, this`kernelSend, this`block, conn`sendOp, conn`pendingOps, conn`sendActive
      ensures Valid() && Armed() && ok == sqe == conn.sendOp && draining == (old(draining) || !sqe)
    {
      if !sqe {
        draining := true;
        return false;
      }
      conn.sendOp := true;
      conn.pendingOps := conn.pendingOps + 1;
      conn.sendActive := true;
      kernelSend := Some(|conn.sendQ[0]|);
      block := conn.sendQ[0];
      return true;
    }

    // ---- completions ----

    /** A receive completed. All that is known is that it was in flight and kept to its buffer. */
    method CompleteRecv(res: RecvResult)
      requires Valid() && kernelRecv.Some?
      requires res.Received? ==> 0 < |res.data| <= kernelRecv.value
      modifies this`kernelRecv, this`freed, this`log, this`batches, conn`recvOp, conn`pendingOps, conn`state,
        conn`fdOpen, conn`rxLen, conn`storage
      ensures Valid() && (old(Armed()) ==> Armed())
      ensures old(conn.state.Closing?) || !res.Received? ==> conn.state.Closing? && log == old(log)
      ensures old(conn.state.Active?) && res.Received? ==>
                && conn.state.Parsing? && log == Chunk(old(log), res.data)
                && batches == [Batch(old(conn.Rx()) + res.data, None, 0)]
    {
      conn.recvOp := false;
      conn.pendingOps := conn.pendingOps - 1;
      kernelRecv := None;
      if conn.state.Closing? {
        MaybeFinalize();
        return;
      }
      if res.RecvError? {
        CloseConn();
        return;
      }
      if res.PeerClosed? {
        CloseConn();
        return;
      }
      HandOff(res.data);
    }

    /** Commits the received bytes and moves all held bytes to a worker, unparsed. */
    method HandOff(data: seq<Byte>)
      requires Closable() && LifetimeOk() && conn.state.Active? && !conn.recvOp
      requires |batches| + |Controls(items)| == 0
      requires StreamOk() && |data| <= rxBuf
      modifies this`log, this`batches, conn`rxLen, conn`storage, conn`state
      ensures Valid() && conn.state.Parsing? && log == Chunk(old(log), data)
      ensures batches == [Batch(old(conn.Rx()) + data, None, 0)]
    {
      HeldIsIncomplete(log);
      conn.RxCommit(data);
      if conn.rxLen > HEADER_LEN + MAX_MESSAGE_LEN + rxBuf {
        assert false;   // the overflow close is unreachable
      }
      log := Chunk(log, data);
      var raw := conn.RxTake(rxBuf);
      conn.state := Parsing;
      batches := batches + [Batch(raw, None, 0)];
    }

    /** A send completed: some front part of the block went out. */
    method CompleteSend(res: SendResult, sqe: bool)
      requires Valid() && kernelSend.Some?
      requires res.Sent? ==> res.n <= kernelSend.value
      modifies this`kernelSend, this`wire, this`block, this`draining, this`freed, conn`state, conn`fdOpen,
        conn`sendOp, conn`pendingOps, conn`sendActive, conn`sendQ, conn`sendBytes
      ensures Valid() && Armed()
      ensures old(conn.state.Closing?) || res.SendError? ==> conn.state.Closing?
      ensures !conn.state.Closing? && conn.sendQ != [] && sqe ==> conn.sendOp
      ensures wire == old(wire) + (if res.Sent? then old(block)[..res.n] else [])
    {
      if conn.state.Closing? {
        SentIsPrefix(wire, conn.sendQ, pushed, if res.Sent? then res.n else 0);
        LastSend(if res.Sent? then block[..res.n] else []);
      } else if res.SendError? {
        RetireSend();
        CloseConn();
        assert wire == wire + [];
      } else {
        ContinueSend(res.n, sqe);
      }
    }

    /** Drops what was sent and, if anything is left, sends the new front block. */
    method ContinueSend(n: nat, sqe: bool)
      requires Valid() && kernelSend.Some? && !conn.state.Closing? && n <= kernelSend.value
      modifies this`kernelSend, this`wire, this`block, this`draining,
        conn`sendOp, conn`pendingOps, conn`sendActive, conn`sendQ, conn`sendBytes
      ensures Valid() && Armed() && wire == old(wire) + old(block)[..n]
      ensures conn.sendQ != [] && sqe ==> conn.sendOp
    {
      RetireSend();
      AdvanceQueue(n);
      if conn.sendQ != [] {
        var _ := SubmitSend(sqe);
      }
    }

    /** A send that completes on a closing connection; its result is ignored. */
    method LastSend(ghost part: seq<Byte>)
      requires Valid() && kernelSend.Some? && conn.state.Closing? && wire + part <= pushed
      modifies this`kernelSend, this`wire, this`freed, conn`sendOp, conn`pendingOps, conn`sendActive, conn`fdOpen
      ensures Valid() && wire == old(wire) + part
    {
      RetireSend();
      wire := wire + part;
      MaybeFinalize();
    }

    method RetireSend()
      requires Valid() && kernelSend.Some?
      modifies this`kernelSend, conn`sendOp, conn`pendingOps, conn`sendActive
      ensures !freed && OpsOk() && SendOk() && TokenOk() && StreamOk() && !conn.sendOp
      ensures conn.state.Closing? || LifetimeOk()
    {
      conn.sendOp := false;
      conn.pendingOps := conn.pendingOps - 1;
      conn.sendActive := false;
      kernelSend := None;
    }

    /** Drops the sent bytes from the queue. */
    method AdvanceQueue(n: nat)
      requires Valid() && !conn.state.Closing? && !conn.sendOp
      requires conn.sendQ != [] && n <= |conn.sendQ[0]| && conn.sendQ[0] == block
      modifies this`wire, conn`sendQ, conn`sendBytes
      ensures Valid() && wire == old(wire) + block[..n]
    {
      SentIsPrefix(wire, conn.sendQ, pushed, n);
      wire := wire + block[..n];
      conn.SendPop(n);
    }

    // ---- responses ----

    method Enqueue(frame: seq<Byte>)
      requires Valid() && !conn.state.Closing? && frame != []
      requires conn.sendBytes + |frame| <= backlogLimit
      modifies this`pushed, conn`sendQ, conn`sendBytes
      ensures Valid() && conn.sendQ == old(conn.sendQ) + [frame] && pushed == old(pushed) + frame
    {
      Assoc(wire, Flat(conn.sendQ), frame);
      conn.SendPush(frame);
      pushed := pushed + frame;
    }

    /** Submits the front block unless a send is in flight. */
    method StartSending(sqe: bool)
      requires Valid() && !conn.state.Closing? && conn.sendQ != []
      modifies this`draining, this`kernelSend, this`block, conn`sendOp, conn`pendingOps, conn`sendActive
      ensures Valid() && Armed() && SendStays() && (sqe ==> conn.sendOp)
    {
      if !conn.sendActive {
        var _ := SubmitSend(sqe);
      }
    }

    /** Queues a response, or closes the connection when its backlog would exceed the limit. */
    method PushResponse(frame: seq<Byte>, sqe: bool) returns (ok: bool)
      requires Valid() && !conn.state.Closing? && frame != []
      modifies this`pushed, this`freed, this`draining, this`kernelSend, this`block, conn`state, conn`fdOpen,
        conn`sendQ, conn`sendBytes, conn`sendOp, conn`pendingOps, conn`sendActive
      ensures Valid() && Armed() && SendStays()
      ensures ok && sqe ==> conn.sendOp
      ensures ok == (old(conn.sendBytes) + |frame| <= backlogLimit)
      ensures conn.state == if ok then old(conn.state) else Closing
      ensures pushed == if ok then old(pushed) + frame else old(pushed)
    {
      if conn.sendBytes + |frame| > backlogLimit {
        CloseConn();
        return false;
      }
      Enqueue(frame);
      StartSending(sqe);
      return true;
    }

    /** One packet of the response ring: dropped when malformed, or when the connection is gone or
        closing, otherwise queued. */
    method DeliverResponse(payload: seq<Byte>, payloadMax: nat, sqe: bool)
      requires Valid()
      modifies this`pushed, this`freed, this`draining, this`kernelSend, this`block, conn`state, conn`fdOpen,
        conn`sendQ, conn`sendBytes, conn`sendOp, conn`pendingOps, conn`sendActive
      ensures Valid() && (old(Armed()) ==> Armed()) && SendStays() && RecvStays()
      ensures var live := 0 < |payload| <= payloadMax && !old(conn.state.Closing?);
              var fits := old(conn.sendBytes) + |payload| <= backlogLimit;
              && pushed == (if live && fits then old(pushed) + payload else old(pushed))
              && conn.state == (if live && !fits then Closing else old(conn.state))
      ensures old(conn.state.Closing?) ==> freed == old(freed)
    {
      if |payload| == 0 || |payload| > payloadMax || freed || conn.state.Closing? {
        return;
      }
      var _ := PushResponse(payload, sqe);
    }

    // ---- worker side ----

    method WorkerCut()
      requires Valid() && |batches| == 1 && batches[0].cut.None?
      modifies this`batches
      ensures Valid() && |batches| == 1 && batches[0].cut == Some(CutAll(batches[0].raw))
      ensures batches[0].raw == old(batches[0].raw)
    {
      var cut := CutFrames(batches[0].raw);
      batches := [batches[0].(cut := Some(cut))];
    }

    /** The worker gives its next frame to the sink. A full request ring or an oversized request
        ends the batch with a close; any other exception loses this frame's reply only. */
    method WorkerFrame(result: SinkResult)
      requires Valid() && |batches| == 1 && batches[0].cut.Some?
      requires batches[0].next < |batches[0].cut.value.frames|
      modifies this`batches, this`items, this`handed, this`log
      ensures Valid() && log == Handed(old(log))
      ensures var f := old(batches)[0].cut.value.frames[old(batches)[0].next];
              && handed == old(handed) + [f]
              && if result.Overload? || result.Malformed? then batches == [] && items == old(items) + [CloseIt]
                 else
                   && |batches| == 1
                   && items == if result.Reply? && result.bytes != [] && Stampable(result.bytes)
                               then old(items) + [Respond(Stamped(result.bytes, f.seqNo))] else old(items)
    {
      var f := TakeFrame();
      if result.Overload? || result.Malformed? {
        EndBatch(CloseIt);
      } else if result.Reply? && result.bytes != [] && Stampable(result.bytes) {
        AddRespond(Stamped(result.bytes, f.seqNo));
      }
    }

    method TakeFrame() returns (f: Frame)
      requires Valid() && |batches| == 1 && batches[0].cut.Some?
      requires batches[0].next < |batches[0].cut.value.frames|
      modifies this`batches, this`handed, this`log
      ensures Valid() && log == Handed(old(log)) && |batches| == 1
      ensures f == old(batches)[0].cut.value.frames[old(batches)[0].next] && handed == old(handed) + [f]
    {
      f := batches[0].cut.value.frames[batches[0].next];
      handed := handed + [f];
      log := Handed(log);
      batches := [batches[0].(next := batches[0].next + 1)];
    }

    method AddRespond(bytes: seq<Byte>)
      requires NoEmptyRespond(items) && bytes != []
      modifies this`items
      ensures items == old(items) + [Respond(bytes)]
      ensures Controls(items) == old(Controls(items)) && NoEmptyRespond(items)
    {
      ControlsAppend(items, Respond(bytes));
      items := items + [Respond(bytes)];
    }

    /** The batch is over: a bad frame closes the connection, otherwise the rest goes back. */
    method WorkerFinish()
      requires Valid() && |batches| == 1 && batches[0].cut.Some?
      requires batches[0].next == |batches[0].cut.value.frames|
      modifies this`batches, this`items, this`log
      ensures Valid() && batches == []
      ensures var cut := CutAll(Held(old(log)));
              if cut.bad then log == old(log) && items == old(items) + [CloseIt]
              else log == Settled(old(log)) && items == old(items) + [RearmRecv(cut.leftover)]
    {
      var cut := batches[0].cut.value;
      if cut.bad {
        EndBatch(CloseIt);
        return;
      }
      log := Settled(log);
      EndBatch(RearmRecv(cut.leftover));
    }

    method EndBatch(it: OutboxItem)
      requires |batches| == 1 && Controls(items) == [] && !it.Respond? && NoEmptyRespond(items)
      modifies this`batches, this`items
      ensures batches == [] && items == old(items) + [it]
      ensures Controls(items) == [it] && NoEmptyRespond(items)
    {
      ControlsAppend(items, it);
      batches := [];
      items := items + [it];
    }

    // ---- outbox ----

    /** The oldest outbox item is a response: queued like one from the ring, or dropped on a closing
        connection. */
    method ProcessRespond(sqe: bool)
      requires Valid() && items != [] && items[0].Respond?
      modifies this`items, this`pushed, this`freed, this`draining, this`kernelSend, this`block, conn`state,
        conn`fdOpen, conn`sendQ, conn`sendBytes, conn`sendOp, conn`pendingOps, conn`sendActive
      ensures Valid() && (old(Armed()) ==> Armed()) && SendStays() && RecvStays() && items == old(items)[1..]
      ensures old(conn.state.Closing?) ==> conn.state.Closing? && pushed == old(pushed) && freed == old(freed)
      ensures !old(conn.state.Closing?) ==>
                var bytes := old(items)[0].bytes;
                var fits := old(conn.sendBytes) + |bytes| <= backlogLimit;
                && pushed == (if fits then old(pushed) + bytes else old(pushed))
                && conn.state == (if fits then old(conn.state) else Closing)
    {
      var bytes := items[0].bytes;
      items := items[1..];
      if !freed && !conn.state.Closing? {
        var _ := PushResponse(bytes, sqe);
      }
    }

    /** The leftover goes back in front of the next receive; without a submission entry the
        connection is closed rather than left waiting. */
    method Rearm(leftover: seq<Byte>, sqe: bool)
      requires Closable() && LifetimeOk() && conn.state.Parsing? && !conn.recvOp
      requires |batches| + |Controls(items)| == 0
      requires conn.rxLen == 0 && |conn.storage| == rxBuf
      requires !Busy(log) && leftover == Held(log)
      modifies this`draining, this`kernelRecv, this`freed, conn`state, conn`fdOpen,
        conn`rxLen, conn`storage, conn`recvOp, conn`pendingOps
      ensures Valid() && conn.state == if sqe then Active else Closing
    {
      conn.RxFeed(leftover);
      conn.state := Active;
      var ok := SubmitRecv(sqe);
      if !ok {
        CloseConn();
      }
    }

    /** The oldest outbox item is the end of a batch: the next receive is armed with the leftover, or
        the connection closes. */
    method ProcessControl(sqe: bool)
      requires Valid() && items != [] && !items[0].Respond?
      modifies this`items, this`freed, this`draining, this`kernelRecv, conn`state, conn`fdOpen,
        conn`rxLen, conn`storage, conn`recvOp, conn`pendingOps
      ensures Valid() && (old(Armed()) ==> Armed()) && SendStays() && RecvStays() && items == old(items)[1..]
      ensures old(conn.state.Closing?) ==> conn.state.Closing? && freed == old(freed)
      ensures !old(conn.state.Closing?) ==>
                conn.state == if old(items)[0].CloseIt? || old(draining) || !sqe then Closing else Active
    {
      var it := items[0];
      items := items[1..];
      if freed || conn.state.Closing? {
        return;
      }
      if it.CloseIt? || draining {
        CloseConn();
      } else if conn.state.Parsing? {
        Rearm(it.bytes, sqe);
      }
    }
  }

  /** `complete_accept` of a new connection: without an entry for its first receive it is dropped on
      the spot, its descriptor closed with it. */
  method CompleteAccept(connId: nat, rxBuf: nat, backlogLimit: nat, sqe: bool) returns (link: Link?)
    ensures link == null <==> !sqe
    ensures link != null ==>
              && link.Valid() && link.Armed() && fresh(link) && fresh(link.conn) && link.conn.connId == connId
              && link.conn.state.Active? && link.log == Start && link.pushed == link.wire == []
              && link.rxBuf == rxBuf && link.backlogLimit == backlogLimit
  {
    if !sqe {
      return null;
    }
    link := new Link(connId, rxBuf, backlogLimit);
  }

  /** What can happen to a connection; an event whose operation, batch or item does not exist
      is no event. */
  datatype Event = Kernel(k: Completion) | Worker(w: WorkerEvent) | Main(m: MainEvent)
  datatype Completion = RecvDone(r: RecvResult) | SendDone(s: SendResult, sqe: bool)
  datatype WorkerEvent = TakesBatch | HandsFrame(result: SinkResult) | EndsBatch
  datatype MainEvent =
    | OutboxItemDue(sqe: bool)
    | RingPacket(payload: seq<Byte>, payloadMax: nat, sqe: bool)
    | SweepDue
    | StopRequested

  /** Closing is never left, a freed connection stays freed, and nothing handed over or sent is
      taken back. */
  twostate predicate Forward(link: Link)
    reads link, link.conn
  {
    && (old(link.conn.state.Closing?) ==> link.conn.state.Closing?)
    && (old(link.freed) ==> link.freed)
    && old(link.pushed) <= link.pushed && old(link.wire) <= link.wire && old(link.handed) <= link.handed
  }

  method OnRecvDone(link: Link, r: RecvResult)
    requires link.Valid() && link.Armed()
    modifies link`kernelRecv, link`freed, link`log, link`batches, link.conn`recvOp, link.conn`pendingOps,
      link.conn`state, link.conn`fdOpen, link.conn`rxLen, link.conn`storage
    ensures link.Valid() && link.Armed() && Forward(link)
  {
    if link.conn.recvOp && (r.Received? ==> 0 < |r.data| <= link.conn.Window()) {
      link.CompleteRecv(r);
    }
  }

  method OnSendDone(link: Link, s: SendResult, sqe: bool)
    requires link.Valid() && link.Armed()
    modifies link`kernelSend, link`wire, link`block, link`draining, link`freed, link.conn`state, link.conn`fdOpen,
      link.conn`sendOp, link.conn`pendingOps, link.conn`sendActive, link.conn`sendQ, link.conn`sendBytes
    ensures link.Valid() && link.Armed() && Forward(link)
  {
    if link.conn.sendOp && (s.Sent? ==> s.n <= |link.conn.sendQ[0]|) {
      link.CompleteSend(s, sqe);
    }
  }

  method OnKernel(link: Link, e: Completion)
    requires link.Valid() && link.Armed()
    modifies link, link.conn
    ensures link.Valid() && link.Armed() && Forward(link)
    ensures e.RecvDone? ==> link.SendStays()
    ensures e.SendDone? ==> link.RecvStays()
  {
    match e
    case RecvDone(r) => OnRecvDone(link, r);
    case SendDone(s, sqe) => OnSendDone(link, s, sqe);
  }

  method OnWorker(link: Link, e: WorkerEvent)
    requires link.Valid() && link.Armed()
    modifies link, link.conn
    ensures link.Valid() && link.Armed() && Forward(link) && link.SendStays() && link.RecvStays()
  {
    if |link.batches| == 0 {
      return;
    }
    var b := link.batches[0];
    match e
    case TakesBatch =>
      if b.cut.None? {
        link.WorkerCut();
      }
    case HandsFrame(result) =>
      if b.cut.Some? && b.next < |b.cut.value.frames| {
        link.WorkerFrame(result);
      }
    case EndsBatch =>
      if b.cut.Some? && b.next == |b.cut.value.frames| {
        link.WorkerFinish();
      }
  }

  method OnOutbox(link: Link, sqe: bool)
    requires link.Valid() && link.Armed()
    modifies link`items, link`pushed, link`freed, link`draining, link`kernelSend, link`kernelRecv, link`block, link.conn
    ensures link.Valid() && link.Armed() && Forward(link) && link.SendStays() && link.RecvStays()
  {
    if link.items == [] {
      return;
    }
    if link.items[0].Respond? {
      link.ProcessRespond(sqe);
    } else {
      link.ProcessControl(sqe);
    }
  }

  method OnMain(link: Link, e: MainEvent)
    requires link.Valid() && link.Armed()
    modifies link`items, link`pushed, link`freed, link`draining, link`kernelSend, link`kernelRecv, link`block, link.conn
    ensures link.Valid() && link.Armed() && Forward(link) && link.SendStays() && link.RecvStays()
  {
    match e
    case OutboxItemDue(sqe) => OnOutbox(link, sqe);
    case RingPacket(payload, payloadMax, sqe) => link.DeliverResponse(payload, payloadMax, sqe);
    case SweepDue => link.Sweep();
    case StopRequested => link.RequestStop();
  }

  /** Every run of a connection: any events in any order. */
  method Run(link: Link, events: seq<Event>)
    requires link.Valid() && link.Armed()
    modifies link, link.conn
    ensures link.Valid() && link.Armed() && Forward(link)
  {
    for i := 0 to |events|
      invariant link.Valid() && link.Armed() && Forward(link)
    {
      match events[i]
      case Kernel(k) => OnKernel(link, k);
      case Worker(w) => OnWorker(link, w);
      case Main(m) => OnMain(link, m);
    }
  }

  /** What the invariant means for a caller: no operation in flight refers to a freed connection
      and there is at most one of each kind; an active connection is being received from; at most one
      batch is with the workers; the frames
      handed over are a prefix of the parse of the received bytes; and what was pushed is what was
      sent followed by what is queued, and the queue is being sent unless the engine is stopping. */
  lemma LinkGuarantees(link: Link)
    requires link.Valid() && link.Armed()
    ensures link.freed ==> link.kernelRecv.None? && link.kernelSend.None?
    ensures |link.batches| <= 1
    ensures link.conn.state.Active? ==> link.kernelRecv.Some?
    ensures link.handed <= CutAll(Bytes(link.log)).frames
    ensures !link.conn.state.Closing? ==> link.pushed == link.wire + Flat(link.conn.sendQ)
    ensures |Flat(link.conn.sendQ)| <= link.backlogLimit
    ensures !link.conn.state.Closing? && link.conn.sendQ != [] ==> link.kernelSend.Some? || link.draining
  {
    HandedIsPrefixOfParse(link.log);
  }

  /** Where the received bytes are, on a connection that is not closing: in the receive area, with
      a worker, or on the way back; in each case the encodings of the frames of earlier batches
      followed by those bytes are all that was received. Only a pending close gives them up. */
  lemma NoByteIsLost(link: Link)
    requires link.Valid()
    ensures AllSendable(link.handed) && AllSendable(Base(link.log))
    ensures link.conn.state.Active? ==>
              && CutAll(Bytes(link.log)) == Cut(link.handed, link.conn.Rx(), false)
              && Bytes(link.log) == WireAll(link.handed) + link.conn.Rx()
    ensures |link.batches| == 1 ==> Bytes(link.log) == WireAll(Base(link.log)) + link.batches[0].raw
    ensures Controls(link.items) != [] && Controls(link.items)[0].RearmRecv? ==>
              Bytes(link.log) == WireAll(link.handed) + Controls(link.items)[0].bytes
    ensures link.conn.state.Parsing? ==>
              (if |link.batches| == 1 then Controls(link.items) == []
               else |link.batches| == 0 && |Controls(link.items)| == 1 && !Controls(link.items)[0].Respond?)
  {
    HandedIsPrefixOfParse(link.log);
    NothingIsLost(link.log);
    HandedAreSendable(link.log);
    ControlsAreControls(link.items);
  }
}
