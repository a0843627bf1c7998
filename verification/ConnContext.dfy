/** Per-connection context of the gateway: the receive area handed to the kernel and the queue of
    blocks waiting to be sent. */
module ConnContext {
  import opened Words

  datatype ConnState = Active | Parsing | Closing

  function Flat(q: seq<seq<Byte>>): seq<Byte> {
    if q == [] then [] else q[0] + Flat(q[1..])
  }

  lemma {:induction false} FlatAppend(q: seq<seq<Byte>>, b: seq<Byte>)
    ensures Flat(q + [b]) == Flat(q) + b
  {
    if q == [] {
      assert q + [b] == [b];
      assert Flat([b]) == b + Flat([]);
    } else {
      assert (q + [b])[1..] == q[1..] + [b];
      FlatAppend(q[1..], b);
    }
  }

  predicate NoEmptyBlock(q: seq<seq<Byte>>) {
    forall i | 0 <= i < |q| :: q[i] != []
  }

  function Zeros(n: nat): (z: seq<Byte>)
    ensures |z| == n
  {
    seq(n, i => 0)
  }

  class Connection {
    const connId: nat
    var storage: seq<Byte>        // always its full size; only the first rxLen bytes are data
    var rxLen: nat
    var sendQ: seq<seq<Byte>>
    var sendBytes: nat
    var sendActive: bool
    var state: ConnState
    var pendingOps: int
    var recvOp: bool              // a receive is in flight
    var sendOp: bool              // a send is in flight
    var fdOpen: bool

    constructor (connId: nat, rxBuf: nat)
      ensures this.connId == connId && fdOpen
      ensures rxLen == 0 && |storage| == rxBuf
      ensures sendQ == [] && sendBytes == 0 && !sendActive
      ensures state == Active && pendingOps == 0 && !recvOp && !sendOp
    {
      this.connId, fdOpen := connId, true;
      storage, rxLen := Zeros(rxBuf), 0;
      sendQ, sendBytes, sendActive := [], 0, false;
      state, pendingOps, recvOp, sendOp := Active, 0, false, false;
    }

    predicate RxValid()
      reads this`rxLen, this`storage
    {
      rxLen <= |storage|
    }

    function Rx(): seq<Byte>
      requires RxValid()
      reads this`rxLen, this`storage
    {
      storage[..rxLen]
    }

    /** Size of the area a receive may write to. */
    function Window(): nat
      requires RxValid()
      reads this`rxLen, this`storage
    {
      |storage| - rxLen
    }

    ghost predicate SendValid()
      reads this`sendQ, this`sendBytes
    {
      sendBytes == |Flat(sendQ)|
    }

    // ---- receive area ----

    method RxPrepare(spare: nat)
      requires RxValid()
      modifies this`storage
      ensures RxValid() && Rx() == old(Rx())
      ensures Window() == if old(Window()) < spare then spare else old(Window())
    {
      if |storage| < rxLen + spare {
        storage := storage + Zeros(rxLen + spare - |storage|);
      }
    }

    /** The kernel has written `data` at the start of the writable area; only the length moves. */
    method RxCommit(data: seq<Byte>)
      requires RxValid() && |data| <= Window()
      modifies this`rxLen, this`storage
      ensures RxValid() && Rx() == old(Rx()) + data
      ensures Window() == old(Window()) - |data|
    {
      storage := storage[..rxLen] + data + storage[rxLen + |data|..];
      rxLen := rxLen + |data|;
    }

    /** Hands all received bytes over and starts again with an area of `cap` bytes. */
    method RxTake(cap: nat) returns (out: seq<Byte>)
      requires RxValid()
      modifies this`rxLen, this`storage
      ensures out == old(Rx())
      ensures RxValid() && rxLen == 0 && |storage| == cap
    {
      out := storage[..rxLen];
      storage := [];
      rxLen := 0;
      if |storage| < cap {
        storage := Zeros(cap);
      }
    }

    /** Puts the bytes a worker could not cut back in front of what will be received next. */
    method RxFeed(leftover: seq<Byte>)
      requires RxValid()
      modifies this`rxLen, this`storage
      ensures RxValid() && Rx() == old(Rx()) + leftover
      ensures |storage| == if old(Window()) < |leftover| then old(rxLen) + |leftover| else old(|storage|)
    {
      if rxLen + |leftover| > |storage| {
        storage := storage + Zeros(rxLen + |leftover| - |storage|);
      }
      storage := storage[..rxLen] + leftover + storage[rxLen + |leftover|..];
      rxLen := rxLen + |leftover|;
    }

    // ---- send queue ----

    method SendPush(bytes: seq<Byte>)
      requires SendValid()
      modifies this`sendQ, this`sendBytes
      ensures SendValid()
      ensures sendQ == old(sendQ) + [bytes]
      ensures Flat(sendQ) == old(Flat(sendQ)) + bytes
    {
      FlatAppend(sendQ, bytes);
      sendBytes := sendBytes + |bytes|;
      sendQ := sendQ + [bytes];
    }

    /** Drops the first `n` queued bytes, or all of them if there are fewer: whole blocks first,
        then the front of the block that was sent in part. */
    method SendPop(n: nat)
      requires SendValid()
      modifies this`sendQ, this`sendBytes
      ensures SendValid() && (NoEmptyBlock(old(sendQ)) ==> NoEmptyBlock(sendQ))
      ensures Flat(sendQ) == old(Flat(sendQ))[Min(n, |old(Flat(sendQ))|)..]
    {
      ghost var all := Flat(sendQ);
      var left: nat := n;
      while left > 0 && sendQ != []
        invariant SendValid() && (NoEmptyBlock(old(sendQ)) ==> NoEmptyBlock(sendQ))
        invariant left <= n && n - left <= |all|
        invariant Flat(sendQ) == all[n - left..]
        decreases |sendQ|
      {
        var head := sendQ[0];
        assert Flat(sendQ) == head + Flat(sendQ[1..]);
        if left < |head| {
          TrimHead(left);
          assert Flat(sendQ) == all[n - left..][left..];
          return;
        }
        left := left - |head|;
        sendBytes := sendBytes - |head|;
        sendQ := sendQ[1..];
      }
      assert sendQ == [] ==> |all[n - left..]| == 0;
      assert Min(n, |all|) == n - left;
    }

    /** A partly sent front block keeps its unsent rest. */
    method TrimHead(k: nat)
      requires SendValid() && sendQ != [] && k < |sendQ[0]|
      modifies this`sendQ, this`sendBytes
      ensures SendValid() && (NoEmptyBlock(old(sendQ)) ==> NoEmptyBlock(sendQ))
      ensures Flat(sendQ) == old(Flat(sendQ))[k..]
    {
      var rest := sendQ[0][k..];
      assert Flat(sendQ) == sendQ[0] + Flat(sendQ[1..]);
      assert ([rest] + sendQ[1..])[1..] == sendQ[1..];
      assert Flat([rest] + sendQ[1..]) == rest + Flat(sendQ[1..]);
      sendQ := [rest] + sendQ[1..];
      sendBytes := sendBytes - k;
    }
  }
}
