/** The two thread-local views of the ring, as objects over the shared counters and slots. The
    shared part carries the ring of module `SpscRing` it stands for, and every method is a step of
    that ring, one that loads the newest counter; what staler loads and the other thread do between
    two calls is the subject of that module. */
module RingViews {
  import opened Words
  import opened Wrappers
  import opened SpscRing

  /** `head` is written by the producer only, `tail` by the consumer only. */
  class SharedRing<P(0)> {
    var head: U32
    var tail: U32
    const slots: array<P>
    ghost var ring: Ring<P>

    ghost predicate Coupled()
      reads this, slots
    {
      head == ring.head && tail == ring.tail && slots[..] == ring.slots && Inv(ring)
    }

    constructor (n: nat)
      requires Capacity(n)
      ensures Coupled() && SpscRing.Init(ring) && slots.Length == n && fresh(slots)
    {
      head, tail := 0, 0;
      slots := new P[n];
      new;
      ring := Ring(0, 0, slots[..], Producer(0, 0, 0), [], 0, 0, 0, [], [], 0, 0, 0);
    }
  }

  class ProducerView<P(0)> {
    const shm: SharedRing<P>
    var headLocal: U32
    var headPublished: U32
    var unpublished: U32

    function View(): Producer
      reads this
    {
      Producer(headLocal, headPublished, unpublished)
    }

    ghost predicate Valid()
      reads this, shm, shm.slots
    {
      shm.Coupled() && View() == shm.ring.prod
    }

    /** Attaches to a ring with nothing reserved, as one left by an earlier producer. */
    constructor (shm: SharedRing<P>)
      requires shm.Coupled() && shm.ring.staged == []
      ensures this.shm == shm && Valid()
    {
      this.shm := shm;
      headLocal, headPublished, unpublished := shm.head, shm.head, 0;
    }

    /** The next slot, or none exactly when as many slots are out as there are. */
    method BeginWrite() returns (slot: Option<nat>)
      requires Valid()
      modifies this, shm`ring
      ensures Valid() && shm.ring == Step(old(shm.ring), Reserve(old(shm.ring).released))
      ensures slot.None? <==> Reserved(old(shm.ring)) == old(shm.ring).released + shm.slots.Length
      ensures slot.Some? ==>
                slot.value < shm.slots.Length && shm.ring.staged == old(shm.ring).staged + [Staged(slot.value, None)]
      ensures slot.None? ==> shm.ring.staged == old(shm.ring).staged && View() == old(View())
    {
      ghost var r := shm.ring;
      FullTestIsExact(r, r.released);
      StepKeepsInv(r, Reserve(r.released));
      shm.ring := Step(r, Reserve(r.released));
      var tailSnap := shm.tail;
      if Minus(headLocal, tailSnap) == shm.slots.Length {
        return None;
      }
      unpublished := Plus(unpublished, 1);
      slot := Some(Slot(headLocal, shm.slots.Length));
      headLocal := Plus(headLocal, 1);
    }

    /** Writes reservation `i`; neither an unreleased packet nor another reservation is touched. */
    method FillSlot(slot: nat, packet: P, ghost i: nat)
      requires Valid() && i < |shm.ring.staged| && shm.ring.staged[i].slot == slot < shm.slots.Length
      modifies shm`ring, shm.slots
      ensures Valid() && shm.ring == Step(old(shm.ring), Fill(i, packet))
    {
      StepKeepsInv(shm.ring, Fill(i, packet));
      shm.ring := Step(shm.ring, Fill(i, packet));
      shm.slots[slot] := packet;
    }

    /** Publishes exactly the reserved packets, in the order of reservation. */
    method PublishReserved(n: U32)
      requires Valid() && n == unpublished && AllFilled(shm.ring.staged)
      modifies this, shm`ring, shm`head
      ensures Valid() && shm.ring == Step(old(shm.ring), PublishStaged)
      ensures n == |old(shm.ring).staged| && shm.ring.sent == old(shm.ring).sent + Contents(old(shm.ring).staged)
    {
      UnpublishedIsStaged(shm.ring);
      StepKeepsInv(shm.ring, PublishStaged);
      shm.ring := Step(shm.ring, PublishStaged);
      unpublished := Minus(unpublished, n);
      headPublished := Plus(headPublished, n);
      shm.head := headPublished;
    }

    /** Puts one packet at the end of the queue; refused exactly when the queue is full. */
    method Push(packet: P) returns (ok: bool)
      requires Valid() && shm.ring.staged == []
      modifies this, shm`ring, shm`head, shm.slots
      ensures Valid() && shm.ring.staged == []
      ensures ok <==> |old(shm.ring).sent| < old(shm.ring).released + shm.slots.Length
      ensures shm.ring.sent == if ok then old(shm.ring).sent + [packet] else old(shm.ring).sent
      ensures shm.ring.got == old(shm.ring).got && shm.ring.released == old(shm.ring).released
    {
      var slot := BeginWrite();
      if slot.None? {
        return false;
      }
      FillSlot(slot.value, packet, 0);
      assert Contents(shm.ring.staged) == [packet];
      UnpublishedIsStaged(shm.ring);
      PublishReserved(1);
      return true;
    }

    /** How many slots are out, reserved ones included. */
    method Size() returns (n: U32)
      requires Valid()
      ensures n == Reserved(shm.ring) - shm.ring.released
    {
      MinusIsExact(Reserved(shm.ring), shm.ring.released);
      n := Minus(headLocal, shm.tail);
    }
  }

  class ConsumerView<P(0)> {
    const shm: SharedRing<P>
    var tailLocal: U32

    ghost predicate Valid()
      reads this, shm, shm.slots
    {
      shm.Coupled() && tailLocal == shm.ring.tailLocal
    }

    constructor (shm: SharedRing<P>)
      requires shm.Coupled()
      ensures this.shm == shm && Valid()
    {
      this.shm := shm;
      tailLocal := shm.tail;
    }

    method Readable(max: U32) returns (first: nat, n: nat)
      requires Capacity(shm.slots.Length)
      ensures first == Slot(tailLocal, shm.slots.Length)
      ensures n == BatchLength(tailLocal, shm.slots.Length, shm.head, max)
      ensures first + n <= shm.slots.Length
    {
      first := Slot(tailLocal, shm.slots.Length);
      var headSnap := shm.head;
      n := Min(max, Minus(headSnap, tailLocal));
      var toEnd := shm.slots.Length - first;
      n := Min(n, toEnd);
    }

    /** The oldest unread packets, as many as are contiguous and at most `max`; none only if there
        is none or none is wanted. */
    method PopBatch(max: U32) returns (first: nat, n: nat)
      requires Valid() && shm.ring.batch == 0
      modifies shm`ring
      ensures Valid() && shm.ring == Step(old(shm.ring), Pop(|old(shm.ring).sent|, max)) && n == shm.ring.batch
      ensures n == 0 <==> max == 0 || |shm.ring.sent| == shm.ring.released
      ensures first == Slot(tailLocal, shm.slots.Length) && first + n <= shm.slots.Length
    {
      StepKeepsInv(shm.ring, Pop(|shm.ring.sent|, max));
      BatchIsExact(shm.ring, |shm.ring.sent|, max);
      first, n := Readable(max);
      shm.ring := Step(shm.ring, Pop(|shm.ring.sent|, max));
    }

    /** Gives back a batch that was read to its end. */
    method ReleaseBatch(n: U32)
      requires Valid() && 0 < n == shm.ring.batch == shm.ring.read
      modifies this, shm`ring, shm`tail
      ensures Valid() && shm.ring == Step(old(shm.ring), Release)
      ensures shm.ring.released == old(shm.ring).released + n && shm.ring.batch == 0
    {
      WrapOfWord(n);
      StepKeepsInv(shm.ring, Release);
      shm.ring := Step(shm.ring, Release);
      tailLocal := Plus(tailLocal, n);
      shm.tail := tailLocal;
    }

    /** Passes the slots of a batch to the callback, which here collects them. */
    method ReadBatch(first: nat, n: nat) returns (out: seq<P>)
      requires Valid() && n == shm.ring.batch && shm.ring.read == 0
      requires first == Slot(tailLocal, shm.slots.Length) && first + n <= shm.slots.Length
      modifies shm`ring
      ensures Valid() && shm.ring == old(shm.ring).(read := n, got := old(shm.ring).got + out)
      ensures |out| == n
    {
      out := [];
      ghost var r := shm.ring;
      while |out| < n
        invariant Valid() && |out| <= n
        invariant shm.ring == r.(read := |out|, got := r.got + out)
      {
        StepKeepsInv(shm.ring, Read);
        shm.ring := Step(shm.ring, Read);
        out := out + [shm.slots[first + |out|]];
      }
    }

    /** Empties the ring: what is taken are the packets sent and not yet taken, in order. */
    method PopOnce() returns (out: seq<P>)
      requires Valid() && shm.ring.batch == 0
      modifies this, shm`ring, shm`tail
      ensures Valid() && shm.ring.batch == 0
      ensures shm.ring.sent == old(shm.ring).sent == shm.ring.got == old(shm.ring).got + out
      ensures shm.ring.released == |shm.ring.sent|
    {
      out := [];
      while true
        invariant Valid() && shm.ring.batch == 0
        invariant shm.ring.sent == old(shm.ring).sent && shm.ring.got == old(shm.ring).got + out
        decreases |shm.ring.sent| - shm.ring.released
      {
        var first, n := PopBatch(64);
        if n == 0 {
          break;
        }
        var batch := ReadBatch(first, n);
        ReleaseBatch(n);
        Assoc(old(shm.ring).got, out, batch);
        out := out + batch;
      }
    }
  }
}
