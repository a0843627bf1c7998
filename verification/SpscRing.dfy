/** The single-producer single-consumer shared-memory ring, as a transition system whose
    steps are the individual loads, stores and slot accesses of the two threads. */
module SpscRing {
  import opened Words
  import opened Wrappers

  /** Ring sizes: the divisors of 2^32 from 2 to 2^16. */
  predicate Capacity(n: int) {
    2 <= n <= 0x1_0000 && WORD % n == 0
  }

  /** The sizes the ring can be instantiated with, 2^k with 1 <= k <= 16, are such. */
  lemma PowersAreCapacities(k: nat)
    requires 1 <= k <= 16
    ensures Capacity(Pow2(k))
  {
    WordIsPower();
    Pow2Monotone(1, k);
    Pow2Monotone(k, 16);
    PowerDividesWord(k);
  }

  /** The slot a counter points at: its remainder by the capacity. */
  function Slot(k: nat, n: nat): (s: nat)
    requires 0 < n
    ensures s < n
    decreases k
  {
    if k < n then k else Slot(k - n, n)
  }

  // ---- the two views: what each thread computes from its own fields and one load ----

  /** Producer-private fields. `headLocal` runs ahead of `headPublished` by the reservations. */
  datatype Producer = Producer(headLocal: U32, headPublished: U32, unpublished: U32)

  /** `begin_write` given the tail it loaded: the new view and the slot, `None` when full. */
  function BeginWrite(p: Producer, n: nat, tailSnap: U32): (Producer, Option<nat>)
    requires Capacity(n)
  {
    if Minus(p.headLocal, tailSnap) == n then (p, None)
    else (p.(headLocal := Plus(p.headLocal, 1), unpublished := Plus(p.unpublished, 1)),
          Some(Slot(p.headLocal, n)))
  }

  function Publish(p: Producer, k: U32): Producer {
    p.(unpublished := Minus(p.unpublished, k), headPublished := Plus(p.headPublished, k))
  }

  /** `pop_batch` given the head it loaded: how many contiguous slots may be read. */
  function BatchLength(tailLocal: U32, n: nat, headSnap: U32, max: U32): (k: nat)
    requires Capacity(n)
  {
    Min(Min(max, Minus(headSnap, tailLocal)), n - Slot(tailLocal, n))
  }

  // ---- the whole ring ----

  /** A reserved slot in the producer's hands, with what has been written to it. */
  datatype Staged<P> = Staged(slot: nat, filled: Option<P>)

  datatype Ring<P> = Ring(
    // shared memory
    head: U32, tail: U32, slots: seq<P>,
    // producer thread
    prod: Producer, staged: seq<Staged<P>>,
    // consumer thread: its tail, its current batch and how much of it was read
    tailLocal: U32, batch: nat, read: nat,
    // history: packets published, packets read, slots given back, newest counters seen
    sent: seq<P>, got: seq<P>, released: nat, seenTail: nat, seenHead: nat)

  /** `Reserve(t)` and `Pop(h, _)` load a counter that may be stale: any value that counter
      has held since the same thread last looked. */
  datatype Action<P> =
    | Reserve(t: nat)
    | Fill(i: nat, packet: P)
    | PublishStaged
    | Pop(h: nat, max: U32)
    | Read
    | Release

  predicate AllFilled<P>(staged: seq<Staged<P>>) {
    forall j | 0 <= j < |staged| :: staged[j].filled.Some?
  }

  function Contents<P>(staged: seq<Staged<P>>): (ps: seq<P>)
    requires AllFilled(staged)
    ensures |ps| == |staged|
  {
    seq(|staged|, j requires 0 <= j < |staged| => staged[j].filled.value)
  }

  /** What a step needs: coherent loads, and the calling contract of the two views. */
  predicate Enabled<P>(r: Ring<P>, a: Action<P>) {
    match a
    case Reserve(t) => r.seenTail <= t <= r.released
    case Fill(i, _) => i < |r.staged| && r.staged[i].slot < |r.slots|
    case PublishStaged => AllFilled(r.staged)
    case Pop(h, _) => r.seenHead <= h <= |r.sent| && r.batch == 0
    case Read => r.read < r.batch && 0 < |r.slots| && Slot(r.tailLocal, |r.slots|) + r.read < |r.slots|
    case Release => 0 < r.batch == r.read
  }

  function Step<P>(r: Ring<P>, a: Action<P>): Ring<P>
    requires Capacity(|r.slots|) && Enabled(r, a)
  {
    var n := |r.slots|;
    match a
    case Reserve(t) =>
      var (p, slot) := BeginWrite(r.prod, n, Wrap(t));
      r.(prod := p, seenTail := t,
         staged := if slot.None? then r.staged else r.staged + [Staged(slot.value, None)])
    case Fill(i, packet) =>
      var s := r.staged[i].slot;
      r.(slots := r.slots[s := packet], staged := r.staged[i := Staged(s, Some(packet))])
    case PublishStaged =>
      var p := Publish(r.prod, Wrap(|r.staged|));
      r.(prod := p, head := p.headPublished, staged := [], sent := r.sent + Contents(r.staged))
    case Pop(h, max) =>
      r.(seenHead := h, batch := BatchLength(r.tailLocal, n, Wrap(h), max), read := 0)
    case Read =>
      r.(read := r.read + 1, got := r.got + [r.slots[Slot(r.tailLocal, n) + r.read]])
    case Release =>
      var t := Plus(r.tailLocal, Wrap(r.batch));
      r.(tailLocal := t, tail := t, released := r.released + r.batch, batch := 0, read := 0)
  }

  ghost predicate Init<P>(r: Ring<P>) {
    && Capacity(|r.slots|)
    && r.head == r.tail == r.tailLocal == 0
    && r.prod == Producer(0, 0, 0)
    && r.staged == [] && r.sent == [] && r.got == []
    && r.batch == r.read == r.released == r.seenTail == r.seenHead == 0
  }

  // ---- invariant ----

  function Reserved<P>(r: Ring<P>): nat {
    |r.sent| + |r.staged|
  }

  /** released <= published <= reserved <= released + capacity, with stale sightings between. */
  ghost predicate CountersOrdered<P>(r: Ring<P>) {
    && r.seenTail <= r.released
    && r.read <= r.batch
    && r.released + r.batch <= r.seenHead <= |r.sent|
    && Reserved(r) <= r.seenTail + |r.slots|
  }

  /** Every word field is the unbounded counter it stands for, modulo 2^32. */
  ghost predicate WordsAgree<P>(r: Ring<P>) {
    && r.prod == Producer(Wrap(Reserved(r)), Wrap(|r.sent|), Wrap(|r.staged|))
    && r.head == Wrap(|r.sent|)
    && r.tail == r.tailLocal == Wrap(r.released)
  }

  /** Every published, unreleased packet is in its slot, and so is every staged one. */
  ghost predicate SlotsHold<P>(slots: seq<P>, released: nat, sent: seq<P>, staged: seq<Staged<P>>)
    requires Capacity(|slots|)
  {
    && (forall k {:trigger sent[k]} | released <= k < |sent| :: slots[Slot(k, |slots|)] == sent[k])
    && (forall j {:trigger staged[j]} | 0 <= j < |staged| ::
          && staged[j].slot == Slot(|sent| + j, |slots|)
          && (staged[j].filled.Some? ==> slots[staged[j].slot] == staged[j].filled.value))
  }

  ghost predicate Inv<P>(r: Ring<P>) {
    && Capacity(|r.slots|)
    && CountersOrdered(r)
    && WordsAgree(r)
    && SlotsHold(r.slots, r.released, r.sent, r.staged)
    && Slot(r.released, |r.slots|) + r.batch <= |r.slots|
    && r.got == r.sent[..r.released + r.read]
  }

  // ---- arithmetic of slot indices ----

  lemma {:induction false} SlotIsRemainder(k: nat, n: nat)
    requires 0 < n
    ensures Slot(k, n) == k % n
    decreases k
  {
    if k < n {
      ModIsUnique(k, 0, k, n);
    } else {
      SlotIsRemainder(k - n, n);
      ModIsUnique(k, (k - n) / n + 1, (k - n) % n, n);
    }
  }

  lemma SlotOfWord(k: nat, n: nat)
    requires Capacity(n)
    ensures Slot(Wrap(k), n) == Slot(k, n)
  {
    ModOfMod(k, WORD, WORD / n, n);
    SlotIsRemainder(k, n);
    SlotIsRemainder(Wrap(k), n);
  }

  function BitAnd(a: nat, b: nat): nat {
    if a == 0 || b == 0 then 0 else 2 * BitAnd(a / 2, b / 2) + if a % 2 == 1 && b % 2 == 1 then 1 else 0
  }

  lemma {:induction false} LastBitOfAnd(x: nat, m: nat)
    requires m >= 1
    ensures BitAnd(x, 2 * m - 1) == 2 * BitAnd(x / 2, m - 1) + x % 2
  {
    assert (2 * m - 1) / 2 == m - 1 && (2 * m - 1) % 2 == 1;
  }

  lemma LastBitOfRemainder(x: nat, m: nat)
    requires m >= 1
    ensures x % (2 * m) == 2 * ((x / 2) % m) + x % 2
  {
    var q, r := (x / 2) / m, (x / 2) % m;
    MulAssoc(q, 2, m);
    MulAssoc(2, q, m);
    ModIsUnique(x, q, 2 * r + x % 2, 2 * m);
  }

  lemma {:induction false} MaskIsRemainder(x: nat, k: nat)
    ensures 0 < Pow2(k) && BitAnd(x, Pow2(k) - 1) == x % Pow2(k)
    decreases k
  {
    if k == 0 {
    } else {
      MaskIsRemainder(x / 2, k - 1);
      LastBitOfAnd(x, Pow2(k - 1));
      LastBitOfRemainder(x, Pow2(k - 1));
    }
  }

  /** The source finds the slot by masking; for the ring sizes it allows this is `Slot`. */
  lemma MaskIsSlot(x: nat, k: nat)
    ensures 0 < Pow2(k) && BitAnd(x, Pow2(k) - 1) == Slot(x, Pow2(k))
  {
    MaskIsRemainder(x, k);
    SlotIsRemainder(x, Pow2(k));
  }

  lemma {:induction false} SlotsDiffer(k: nat, l: nat, n: nat)
    requires 0 < n && k < l < k + n
    ensures Slot(k, n) != Slot(l, n)
    decreases k
  {
    if k < n {
    } else {
      SlotsDiffer(k - n, l - n, n);
    }
  }

  lemma {:induction false} SlotOfSum(k: nat, i: nat, n: nat)
    requires 0 < n && Slot(k, n) + i < n
    ensures Slot(k + i, n) == Slot(k, n) + i
    decreases k
  {
    if k < n {
    } else {
      SlotOfSum(k - n, i, n);
    }
  }

  // ---- what the wrapped tests decide ----

  /** The wrapped full test is exact: a reservation fails if and only if the slots reserved
      since the loaded tail fill the ring, and otherwise yields the next slot. */
  lemma FullTestIsExact<P>(r: Ring<P>, t: nat)
    requires Inv(r) && r.seenTail <= t <= r.released
    ensures BeginWrite(r.prod, |r.slots|, Wrap(t)).1 ==
            if Reserved(r) == t + |r.slots| then None else Some(Slot(Reserved(r), |r.slots|))
    ensures BeginWrite(r.prod, |r.slots|, Wrap(t)).0 ==
            if Reserved(r) == t + |r.slots| then r.prod
            else Producer(Wrap(Reserved(r) + 1), Wrap(|r.sent|), Wrap(|r.staged| + 1))
  {
    MinusIsExact(Reserved(r), t);
    SlotOfWord(Reserved(r), |r.slots|);
    PlusIsExact(Reserved(r), 1);
    PlusIsExact(|r.staged|, 1);
  }

  /** A batch is exactly the unread published slots the load revealed, cut at `max` and at the
      array end; it is empty only if nothing was revealed or nothing was asked for. */
  lemma BatchIsExact<P>(r: Ring<P>, h: nat, max: U32)
    requires Inv(r) && r.seenHead <= h <= |r.sent|
    ensures BatchLength(r.tailLocal, |r.slots|, Wrap(h), max) ==
            Min(Min(max, h - r.released), |r.slots| - Slot(r.released, |r.slots|))
    ensures max > 0 && h != r.released ==> BatchLength(r.tailLocal, |r.slots|, Wrap(h), max) > 0
  {
    MinusIsExact(h, r.released);
    SlotOfWord(r.released, |r.slots|);
  }

  /** The producer's own count of unpublished slots does not wrap. */
  lemma UnpublishedIsStaged<P>(r: Ring<P>)
    requires Inv(r)
    ensures r.prod.unpublished == |r.staged|
  {
    ModIsUnique(|r.staged|, 0, |r.staged|, WORD);
  }

  lemma StagedSlotInRange<P>(r: Ring<P>, j: nat)
    requires Inv(r) && j < |r.staged|
    ensures r.staged[j].slot < |r.slots|
  {
  }

  // ---- preservation, step by step ----

  lemma StagingKeepsSlots<P>(r: Ring<P>, s: Staged<P>)
    requires Capacity(|r.slots|) && SlotsHold(r.slots, r.released, r.sent, r.staged)
    requires s == Staged(Slot(Reserved(r), |r.slots|), None)
    ensures SlotsHold(r.slots, r.released, r.sent, r.staged + [s])
  {
  }

  lemma ReserveKeepsInv<P>(r: Ring<P>, t: nat)
    requires Inv(r) && Enabled(r, Reserve(t))
    ensures Inv(Step(r, Reserve(t)))
  {
    FullTestIsExact(r, t);
    StagingKeepsSlots(r, Staged(Slot(Reserved(r), |r.slots|), None));
  }

  /** Writing a reserved slot disturbs neither an unreleased packet nor another reservation. */
  lemma FillKeepsSlots<P>(r: Ring<P>, i: nat, packet: P)
    requires Capacity(|r.slots|) && SlotsHold(r.slots, r.released, r.sent, r.staged)
    requires r.released <= |r.sent| && Reserved(r) <= r.released + |r.slots|
    requires Enabled(r, Fill(i, packet))
    ensures var r' := Step(r, Fill(i, packet)); SlotsHold(r'.slots, r'.released, r'.sent, r'.staged)
  {
    var n, r' := |r.slots|, Step(r, Fill(i, packet));
    forall k | r.released <= k < |r.sent| ensures r'.slots[Slot(k, n)] == r'.sent[k] {
      SlotsDiffer(k, |r.sent| + i, n);
    }
    forall j | 0 <= j < |r.staged| && j != i ensures r.staged[j].slot != r.staged[i].slot {
      if j < i {
        SlotsDiffer(|r.sent| + j, |r.sent| + i, n);
      } else {
        SlotsDiffer(|r.sent| + i, |r.sent| + j, n);
      }
    }
  }

  lemma PublishKeepsSlots<P>(r: Ring<P>)
    requires Capacity(|r.slots|) && SlotsHold(r.slots, r.released, r.sent, r.staged)
    requires Enabled(r, PublishStaged)
    ensures var r' := Step(r, PublishStaged); SlotsHold(r'.slots, r'.released, r'.sent, r'.staged)
  {
    var n, r' := |r.slots|, Step(r, PublishStaged);
    forall k | r.released <= k < |r'.sent| ensures r'.slots[Slot(k, n)] == r'.sent[k] {
      if k >= |r.sent| {
        var j := k - |r.sent|;
        assert r.staged[j].slot == Slot(|r.sent| + j, n);
      }
    }
  }

  lemma PublishKeepsInv<P>(r: Ring<P>)
    requires Inv(r) && Enabled(r, PublishStaged)
    ensures Inv(Step(r, PublishStaged))
  {
    var r' := Step(r, PublishStaged);
    PublishKeepsSlots(r);
    PlusIsExact(|r.sent|, |r.staged|);
    MinusIsExact(|r.staged|, |r.staged|);
    assert r'.sent[..r.released + r.read] == r.sent[..r.released + r.read];
  }

  lemma BatchSlotHolds<P>(r: Ring<P>, i: nat)
    requires Inv(r) && i < r.batch
    ensures Slot(r.released, |r.slots|) + i < |r.slots|
    ensures r.slots[Slot(r.released, |r.slots|) + i] == r.sent[r.released + i]
  {
    SlotOfSum(r.released, i, |r.slots|);
    assert r.sent[r.released + i] == r.slots[Slot(r.released + i, |r.slots|)];
  }

  /** Reading returns the oldest unread packet. */
  lemma ReadReturnsNext<P>(r: Ring<P>)
    requires Inv(r) && r.read < r.batch
    ensures Enabled(r, Read)
    ensures Step(r, Read).got == r.got + [r.sent[|r.got|]]
  {
    SlotOfWord(r.released, |r.slots|);
    BatchSlotHolds(r, r.read);
  }

  /** The slots of a batch hold the oldest unreleased packets, in order. */
  lemma BatchHoldsNext<P>(r: Ring<P>)
    requires Inv(r)
    ensures var first := Slot(r.tailLocal, |r.slots|);
            && first + r.batch <= |r.slots| && r.released + r.batch <= |r.sent|
            && r.slots[first..first + r.batch] == r.sent[r.released..r.released + r.batch]
  {
    SlotOfWord(r.released, |r.slots|);
    var first := Slot(r.released, |r.slots|);
    var a, b := r.slots[first..first + r.batch], r.sent[r.released..r.released + r.batch];
    forall i | 0 <= i < r.batch ensures a[i] == b[i] {
      BatchSlotHolds(r, i);
    }
  }

  lemma ReadKeepsInv<P>(r: Ring<P>)
    requires Inv(r) && Enabled(r, Read)
    ensures Inv(Step(r, Read))
  {
    ReadReturnsNext(r);
    assert Step(r, Read) == r.(read := r.read + 1, got := r.sent[..|r.got| + 1]);
  }

  lemma PopKeepsInv<P>(r: Ring<P>, h: nat, max: U32)
    requires Inv(r) && Enabled(r, Pop(h, max))
    ensures Inv(Step(r, Pop(h, max)))
  {
    BatchIsExact(r, h, max);
  }

  lemma ReleaseKeepsInv<P>(r: Ring<P>)
    requires Inv(r) && Enabled(r, Release)
    ensures Inv(Step(r, Release))
  {
    PlusIsExact(r.released, r.batch);
  }

  lemma StepKeepsInv<P>(r: Ring<P>, a: Action<P>)
    requires Inv(r) && Enabled(r, a)
    ensures Inv(Step(r, a))
  {
    match a
    case Reserve(t) => ReserveKeepsInv(r, t);
    case Fill(i, packet) => FillKeepsSlots(r, i, packet);
    case PublishStaged => PublishKeepsInv(r);
    case Pop(h, max) => PopKeepsInv(r, h, max);
    case Read => ReadKeepsInv(r);
    case Release => ReleaseKeepsInv(r);
  }

  // ---- what the ring is for ----

  function BatchSlot<P>(r: Ring<P>, i: nat): nat
    requires 0 < |r.slots|
  {
    Slot(r.tailLocal, |r.slots|) + i
  }

  /** Slots the consumer may be reading are slots of the array, and never slots the producer
      may be writing. */
  lemma NoSlotIsShared<P>(r: Ring<P>, i: nat, j: nat)
    requires Inv(r) && i < r.batch && j < |r.staged|
    ensures r.staged[j].slot != BatchSlot(r, i) < |r.slots|
  {
    var n := |r.slots|;
    SlotOfWord(r.released, n);
    SlotOfSum(r.released, i, n);
    SlotsDiffer(r.released + i, |r.sent| + j, n);
  }

  /** The producer holds no slot twice. */
  lemma NoSlotIsHeldTwice<P>(r: Ring<P>, i: nat, j: nat)
    requires Inv(r) && i < j < |r.staged|
    ensures r.staged[i].slot != r.staged[j].slot
  {
    SlotsDiffer(|r.sent| + i, |r.sent| + j, |r.slots|);
  }

  /** The specification: an unbounded history of a bounded queue. */
  datatype Fifo<P> = Fifo(put: seq<P>, taken: seq<P>)

  ghost predicate FifoInv<P>(q: Fifo<P>, n: nat) {
    && |q.taken| <= |q.put| <= |q.taken| + n
    && q.taken == q.put[..|q.taken|]
  }

  ghost predicate PutStep<P>(q: Fifo<P>, q': Fifo<P>, items: seq<P>, n: nat) {
    q' == q.(put := q.put + items) && |q'.put| <= |q.taken| + n
  }

  ghost predicate TakeStep<P>(q: Fifo<P>, q': Fifo<P>) {
    |q.taken| < |q.put| && q' == q.(taken := q.taken + [q.put[|q.taken|]])
  }

  function Abstract<P>(r: Ring<P>): Fifo<P> {
    Fifo(r.sent, r.got)
  }

  /** Each step of the ring is a step of the queue: publishing puts exactly the filled packets in
      reservation order, reading takes the oldest one, everything else is invisible. */
  lemma StepRefinesFifo<P>(r: Ring<P>, a: Action<P>)
    requires Inv(r) && Enabled(r, a)
    ensures var q, q' := Abstract(r), Abstract(Step(r, a));
            match a
            case PublishStaged => PutStep(q, q', Contents(r.staged), |r.slots|)
            case Read => TakeStep(q, q')
            case _ => q' == q
  {
    StepKeepsInv(r, a);
    if a.Read? {
      ReadReturnsNext(r);
    }
  }

  ghost predicate IsRun<P>(rs: seq<Ring<P>>, acts: seq<Action<P>>) {
    && |rs| == |acts| + 1
    && Init(rs[0])
    && (forall i | 0 <= i < |acts| ::
          && Capacity(|rs[i].slots|)
          && Enabled(rs[i], acts[i])
          && rs[i + 1] == Step(rs[i], acts[i]))
  }

  lemma {:induction false} StepKeepsSize<P>(rs: seq<Ring<P>>, acts: seq<Action<P>>, i: nat)
    requires IsRun(rs, acts) && i < |rs|
    ensures |rs[i].slots| == |rs[0].slots|
  {
    if i == 0 {
    } else {
      StepKeepsSize(rs, acts, i - 1);
      assert rs[i - 1 + 1] == Step(rs[i - 1], acts[i - 1]);
    }
  }

  /** Every run, whatever the interleaving and the staleness of the loads: no packet is lost,
      duplicated, reordered or altered, and at most a capacity of them is outstanding. */
  lemma {:induction false} RunIsFifo<P>(rs: seq<Ring<P>>, acts: seq<Action<P>>, i: nat)
    requires IsRun(rs, acts) && i < |rs|
    ensures Inv(rs[i])
    ensures FifoInv(Abstract(rs[i]), |rs[0].slots|)
  {
    if i == 0 {
    } else {
      RunIsFifo(rs, acts, i - 1);
      StepKeepsInv(rs[i - 1], acts[i - 1]);
      StepKeepsSize(rs, acts, i);
    }
  }
}
