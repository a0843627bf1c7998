/** The gateway worker's end of a request ring. */
module RingSink {
  import opened Words
  import opened SpscRing
  import opened RingViews
  import opened Dispatch

  datatype Verdict = Queued | Malformed | Overload

  class Sink {
    const prod: ProducerView<Request>
    var overloads: nat        // requests refused because the ring was full
    var peak: U32             // most requests seen outstanding
    var notices: nat          // hints given to the reader

    ghost predicate Valid()
      reads this, prod, prod.shm, prod.shm.slots
    {
      prod.Valid() && prod.shm.ring.staged == []
    }

    constructor (prod: ProducerView<Request>)
      requires prod.Valid() && prod.shm.ring.staged == []
      ensures Valid() && this.prod == prod && overloads == peak == notices == 0
    {
      this.prod := prod;
      overloads, peak, notices := 0, 0, 0;
    }

    ghost function Queue(): seq<Request>
      reads prod.shm
    {
      prod.shm.ring.sent
    }

    ghost function Outstanding(): int
      reads prod.shm
    {
      |prod.shm.ring.sent| - prod.shm.ring.released
    }

    method Account(before: U32, after: U32)
      modifies this`peak, this`notices
      ensures peak == if after > old(peak) then after else old(peak)
      ensures notices == old(notices) + if before == 0 then 1 else 0
    {
      if after > peak {
        peak := after;
      }
      if before == 0 {
        notices := notices + 1;
      }
    }

    /** Queues one request, or says why not and leaves the queue as it was. What is queued is what
        the transition system of module `Dispatch` lets a worker write. The reader gets a hint
        when the ring was empty. */
    method Handle(conn: ConnId, client: nat, eventId: U16, seqNo: U32, payload: seq<Byte>) returns (r: Verdict)
      requires Valid()
      modifies this, prod, prod.shm`ring, prod.shm`head, prod.shm.slots
      ensures Valid() && prod.shm.ring.got == old(prod.shm.ring.got)
      ensures r.Malformed? <==> |payload| > 4064
      ensures r.Overload? <==> |payload| <= 4064 && old(Outstanding()) == prod.shm.slots.Length
      ensures !r.Queued? ==> Queue() == old(Queue()) && peak == old(peak) && notices == old(notices)
      ensures r.Queued? ==>
                && |Queue()| == |old(Queue())| + 1 && old(Queue()) < Queue()
                && var q := Queue()[|old(Queue())|];
                && (q.conn, q.client, q.eventId, q.seqNo, q.payload) == (conn, client, eventId, seqNo, payload)
                && (q.oneWay <==> eventId == 0x15)
                && (forall gw: Gateway | conn in gw.issued && gw.issued[conn] == client :: FromConnection(gw, q))
                && peak == (if Outstanding() > old(peak) then Outstanding() else old(peak))
                && notices == old(notices) + (if old(Outstanding()) == 0 then 1 else 0)
      ensures overloads == old(overloads) + if r.Overload? then 1 else 0
    {
      if |payload| > REQ_PAYLOAD_MAX {
        return Malformed;
      }
      var before := prod.Size();
      var ok := prod.Push(Request(conn, client, eventId, eventId == POSITION_REPORT, seqNo, payload));
      if !ok {
        overloads := overloads + 1;
        return Overload;
      }
      var after := prod.Size();
      Account(before, after);
      return Queued;
    }
  }
}
