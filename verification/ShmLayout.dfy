/** The layout of a shared ring file: a file header, one header per ring, then, from the next page
    on, the slots of all rings. */
module ShmLayout {
  import opened Words

  const HEADER_BYTES: nat := 128          // of the file header and of each ring header
  const PAGE: nat := 4096
  const REQ_SLOT_SIZE: nat := 4096
  const RSP_SLOT_SIZE: nat := 401408
  const REQ_SLOT_COUNT: nat := 512
  const RSP_SLOT_COUNT: nat := 256

  function AlignUp(v: nat, align: nat): nat
    requires align > 0
  {
    (v + align - 1) / align * align
  }

  /** The least multiple that is not smaller. */
  lemma AlignUpIsLeast(v: nat, align: nat)
    requires align > 0
    ensures v <= AlignUp(v, align) < v + align && AlignUp(v, align) % align == 0
  {
    var q := (v + align - 1) / align;
    ModIsUnique(q * align, q, 0, align);
  }

  datatype Layout = Layout(headersOffset: nat, slotsOffset: nat, ringStride: nat, totalBytes: nat)

  function ComputeFileLayout(ringCount: nat, bytesPerRing: nat): Layout {
    var slots := AlignUp(HEADER_BYTES + ringCount * HEADER_BYTES, PAGE);
    Layout(HEADER_BYTES, slots, bytesPerRing, slots + ringCount * bytesPerRing)
  }

  /** What the processes that attach to the file address in it. */
  datatype Part = FileHeader | RingHead(ring: nat) | SlotAt(ring: nat, slot: nat)

  predicate InFile(p: Part, rings: nat, slots: nat) {
    match p
    case FileHeader => true
    case RingHead(i) => i < rings
    case SlotAt(i, j) => i < rings && j < slots
  }

  /** Ring headers form one array; so do all slots, ring `i` starting at element `i * slots`. */
  function Offset(p: Part, rings: nat, slots: nat, slotSize: nat): nat {
    var l := ComputeFileLayout(rings, slots * slotSize);
    match p
    case FileHeader => 0
    case RingHead(i) => l.headersOffset + i * HEADER_BYTES
    case SlotAt(i, j) => l.slotsOffset + (i * slots + j) * slotSize
  }

  function Size(p: Part, slotSize: nat): nat {
    if p.SlotAt? then slotSize else HEADER_BYTES
  }

  lemma MulGrows(a: nat, b: nat, c: nat, d: nat)
    requires a <= b && c <= d
    ensures 0 <= a * c <= b * d
  {
    assert b * d == (b - a) * d + a * d && a * d == a * (d - c) + a * c;
    assert (b - a) * d >= 0 && a * (d - c) >= 0;
  }

  lemma MulOrder(a: nat, b: nat, n: nat)
    requires a < b
    ensures a * n + n <= b * n
  {
    assert b * n - a * n == (b - a) * n;
    MulAtLeast(b - a, n);
  }

  /** Slots of one ring, and of different rings, have different places in the one array of slots. */
  lemma SlotIndex(i: nat, j: nat, rings: nat, slots: nat)
    requires i < rings && j < slots
    ensures i * slots + j < rings * slots
    ensures (i * slots + j) % slots == j && (i * slots + j) / slots == i
  {
    MulOrder(i, rings, slots);
    ModIsUnique(i * slots + j, i, j, slots);
  }

  lemma HeadersEndBeforeSlots(i: nat, rings: nat, slots: nat, slotSize: nat)
    requires i < rings
    ensures Offset(RingHead(i), rings, slots, slotSize) + HEADER_BYTES
            <= ComputeFileLayout(rings, slots * slotSize).slotsOffset
  {
    MulOrder(i, rings, HEADER_BYTES);
    AlignUpIsLeast(HEADER_BYTES + rings * HEADER_BYTES, PAGE);
  }

  lemma SlotsFollowHeaders(p: Part, rings: nat, slots: nat, slotSize: nat)
    requires InFile(p, rings, slots)
    ensures var l := ComputeFileLayout(rings, slots * slotSize);
            if p.SlotAt? then l.slotsOffset <= Offset(p, rings, slots, slotSize)
            else Offset(p, rings, slots, slotSize) + HEADER_BYTES <= l.slotsOffset
  {
    match p
    case FileHeader => AlignUpIsLeast(HEADER_BYTES + rings * HEADER_BYTES, PAGE);
    case RingHead(i) => HeadersEndBeforeSlots(i, rings, slots, slotSize);
    case SlotAt(i, j) => assert (i * slots + j) * slotSize >= 0;
  }

  lemma PartsAreInside(p: Part, rings: nat, slots: nat, slotSize: nat)
    requires InFile(p, rings, slots)
    ensures Offset(p, rings, slots, slotSize) + Size(p, slotSize)
            <= ComputeFileLayout(rings, slots * slotSize).totalBytes
  {
    if p.SlotAt? {
      SlotIndex(p.ring, p.slot, rings, slots);
      MulOrder(p.ring * slots + p.slot, rings * slots, slotSize);
      MulAssoc(rings, slots, slotSize);
    } else {
      SlotsFollowHeaders(p, rings, slots, slotSize);
      MulGrows(0, rings, 0, slots * slotSize);
    }
  }

  lemma HeadersAreDisjoint(p: Part, q: Part, rings: nat, slots: nat, slotSize: nat)
    requires !p.SlotAt? && !q.SlotAt? && p != q
    ensures var a, b := Offset(p, rings, slots, slotSize), Offset(q, rings, slots, slotSize);
            a + HEADER_BYTES <= b || b + HEADER_BYTES <= a
  {
  }

  lemma SlotsAreDisjoint(i: nat, j: nat, m: nat, n: nat, rings: nat, slots: nat, slotSize: nat)
    requires i < rings && j < slots && m < rings && n < slots && (i != m || j != n)
    ensures var a, b := Offset(SlotAt(i, j), rings, slots, slotSize), Offset(SlotAt(m, n), rings, slots, slotSize);
            a + slotSize <= b || b + slotSize <= a
  {
    SlotIndex(i, j, rings, slots);
    SlotIndex(m, n, rings, slots);
    var x, y := i * slots + j, m * slots + n;
    if x < y {
      MulOrder(x, y, slotSize);
    } else {
      MulOrder(y, x, slotSize);
    }
  }

  /** Any two parts of a file lie one wholly before the other. */
  lemma PartsAreDisjoint(p: Part, q: Part, rings: nat, slots: nat, slotSize: nat)
    requires InFile(p, rings, slots) && InFile(q, rings, slots) && p != q
    ensures var a, b := Offset(p, rings, slots, slotSize), Offset(q, rings, slots, slotSize);
            a + Size(p, slotSize) <= b || b + Size(q, slotSize) <= a
  {
    if p.SlotAt? && q.SlotAt? {
      SlotsAreDisjoint(p.ring, p.slot, q.ring, q.slot, rings, slots, slotSize);
    } else if !p.SlotAt? && !q.SlotAt? {
      HeadersAreDisjoint(p, q, rings, slots, slotSize);
    } else {
      SlotsFollowHeaders(p, rings, slots, slotSize);
      SlotsFollowHeaders(q, rings, slots, slotSize);
    }
  }

  /** The slots of each ring start one stride after those of the one before, on a page boundary
      if slots fill whole pages. */
  lemma RingsArePageAligned(i: nat, rings: nat, slots: nat, pages: nat)
    ensures var l := ComputeFileLayout(rings, slots * (pages * PAGE));
            && Offset(SlotAt(i, 0), rings, slots, pages * PAGE) == l.slotsOffset + i * l.ringStride
            && Offset(SlotAt(i, 0), rings, slots, pages * PAGE) % PAGE == 0
  {
    var l := ComputeFileLayout(rings, slots * (pages * PAGE));
    AlignUpIsLeast(HEADER_BYTES + rings * HEADER_BYTES, PAGE);
    var k := l.slotsOffset / PAGE;
    assert l.slotsOffset == k * PAGE;
    assert i * slots * (pages * PAGE) == i * (slots * (pages * PAGE)) == (i * slots * pages) * PAGE;
    var n := i * slots * pages;
    ModIsUnique(l.slotsOffset + n * PAGE, k + n, 0, PAGE);
  }

  lemma RingFilesArePageAligned(i: nat, rings: nat)
    ensures Offset(SlotAt(i, 0), rings, REQ_SLOT_COUNT, REQ_SLOT_SIZE) % PAGE == 0
    ensures Offset(SlotAt(i, 0), rings, RSP_SLOT_COUNT, RSP_SLOT_SIZE) % PAGE == 0
  {
    RingsArePageAligned(i, rings, REQ_SLOT_COUNT, 1);
    RingsArePageAligned(i, rings, RSP_SLOT_COUNT, 98);
  }

  /** The 64-bit size computation does not wrap, for any number of rings a 32-bit count holds. */
  lemma TotalFits(rings: nat, bytesPerRing: nat)
    requires rings < WORD && bytesPerRing <= RSP_SLOT_COUNT * RSP_SLOT_SIZE
    ensures ComputeFileLayout(rings, bytesPerRing).totalBytes < WORD * WORD
  {
    AlignUpIsLeast(HEADER_BYTES + rings * HEADER_BYTES, PAGE);
    MulGrows(rings, WORD, bytesPerRing, RSP_SLOT_COUNT * RSP_SLOT_SIZE);
  }
}
