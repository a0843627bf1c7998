/** The request/response path between the gateway and the dispatch process, as one transition
    system: gateway workers write request rings, one reader thread consumes them and posts
    business tasks, tasks queue replies, the reader flushes these into the response ring, and the
    gateway's main thread delivers them to connections. A step is at most one load of a shared
    counter, or one store to shared memory, together with the local work around it. */
module Dispatch {
  import opened Words
  import opened Wrappers
  import opened Codec
  import opened SpscRing
  import ShmLayout

  const POSITION_REPORT: U16 := 0x15
  const PACKET_HEADER: nat := 32
  const REQ_PAYLOAD_MAX: nat := ShmLayout.REQ_SLOT_SIZE - PACKET_HEADER
  const RSP_PAYLOAD_MAX: nat := ShmLayout.RSP_SLOT_SIZE - PACKET_HEADER
  const REQ_BATCH: U32 := 64
  const RSP_BATCH: U32 := 32

  type ConnId = nat

  /** A request slot. `client` names the peer behind the connection; no step reads it. */
  datatype Request = Request(conn: ConnId, client: nat, eventId: U16, oneWay: bool, seqNo: U32,
                             payload: seq<Byte>)

  /** Which request a reply answers: ring and position. Carried along, read by no step. */
  datatype Origin = Origin(ring: nat, index: nat)

  datatype Reply = Reply(origin: Origin, conn: ConnId, seqNo: U32, frame: seq<Byte>)

  /** A posted business task; `done` once its reply (if any) is queued, its quota still held. */
  datatype Task = Task(req: Request, done: bool)

  /** A reply handed to the send queue of an open connection; `at` is its ring position. */
  datatype Delivery = Delivery(client: nat, at: nat, reply: Reply)

  datatype Gateway = Gateway(nextId: ConnId, open: map<ConnId, nat>, issued: map<ConnId, nat>,
                             delivered: seq<Delivery>)

  datatype Slice = Short | Long
  datatype Phase = First | Spin | Last

  /** Where the reader thread is in its loop. */
  datatype Pc =
    | SampleInflight
    | SampleSize(busy: bool)
    | Scan(slice: Slice, phase: Phase, ring: nat, popped: bool)
    | Posting(slice: Slice, phase: Phase, ring: nat, origin: Origin, req: Request)
    | Poll(slice: Slice)
    | Drain
    | Flush(items: seq<Reply>, i: nat, pending: nat, held: bool)

  datatype Sys = Sys(reqs: seq<Ring<Request>>, rsp: Ring<Reply>, gw: Gateway, pc: Pc,
                     tasks: map<Origin, Task>, replies: seq<Reply>, inflight: nat,
                     // history: replies ever queued, and whether a flush ever gave up
                     pushed: seq<Reply>, gaveUp: bool)

  datatype Outcome = Threw | Returned(bytes: seq<Byte>)

  datatype GatewayMove =
    | Accept(client: nat)
    | Close(conn: ConnId)
    | WorkerWrite(w: nat, write: Action<Request>)
    | GatewayPop(h: nat)
    | GatewayRead(queued: bool)
    | GatewayRelease

  datatype ReaderMove =
    | LoadInflight(v: nat)
    | LoadSize
    | PopRing(h: nat)
    | ReadSlot(keep: bool)
    | PostTask(ok: bool)
    | ReleaseRing
    | EndPass(spin: bool)
    | PollDone(wake: bool)

  datatype FlushMove =
    | DrainReplies
    | FlushReserve(t: nat, giveUp: bool)
    | FlushFill
    | FlushEnd

  datatype TaskMove =
    | RunTask(o: Origin, outcome: Outcome)
    | ReturnQuota(o: Origin)

  datatype Move =
    | Gw(gm: GatewayMove)
    | Reader(rm: ReaderMove)
    | Flusher(fm: FlushMove)
    | Business(tm: TaskMove)

  // ---- steps ----

  /** What `RingSink::handle` writes: only for a connection that was accepted, marked one-way
      exactly for position reports, and never longer than a slot. */
  predicate FromConnection(gw: Gateway, q: Request) {
    && q.conn in gw.issued && gw.issued[q.conn] == q.client
    && q.oneWay == (q.eventId == POSITION_REPORT)
    && |q.payload| <= REQ_PAYLOAD_MAX
  }

  /** Handlers return nothing or an encoded frame. */
  ghost predicate HandlerResult(bytes: seq<Byte>) {
    bytes == [] || exists f: Frame :: Sendable(f) && bytes == Wire(f)
  }

  predicate GatewayAllowed(s: Sys, a: GatewayMove) {
    match a
    case Accept(_) => true
    case Close(_) => true
    case WorkerWrite(w, write) =>
      && w < |s.reqs| && Enabled(s.reqs[w], write)
      && (write.Reserve? || write.PublishStaged? || (write.Fill? && FromConnection(s.gw, write.packet)))
    case GatewayPop(h) => Enabled(s.rsp, Pop(h, RSP_BATCH))
    case GatewayRead(_) => Enabled(s.rsp, Read)
    case GatewayRelease => Enabled(s.rsp, Release)
  }

  predicate AtRing(s: Sys, a: Action<Request>) {
    s.pc.Scan? && s.pc.ring < |s.reqs| && Enabled(s.reqs[s.pc.ring], a)
  }

  predicate ReaderAllowed(s: Sys, a: ReaderMove) {
    match a
    // a relaxed load may miss decrements, never the reader's own increments
    case LoadInflight(v) => s.pc.SampleInflight? && s.inflight <= v
    case LoadSize => s.pc.SampleSize?
    case PopRing(h) => AtRing(s, Pop(h, REQ_BATCH))
    case ReadSlot(_) => AtRing(s, Read)
    case PostTask(_) => s.pc.Posting? && s.inflight > 0
    case ReleaseRing => AtRing(s, Release)
    case EndPass(_) => s.pc.Scan? && s.pc.ring == |s.reqs|
    case PollDone(_) => s.pc.Poll?
  }

  predicate FlushAllowed(s: Sys, a: FlushMove) {
    match a
    case DrainReplies => s.pc.Drain?
    case FlushReserve(t, _) =>
      && s.pc.Flush? && !s.pc.held && s.pc.i < |s.pc.items|
      && Enabled(s.rsp, Reserve(t)) && PublishContract(s.rsp, s.pc.pending)
    case FlushFill =>
      s.pc.Flush? && s.pc.held && s.pc.i < |s.pc.items| && FillContract(s.rsp, s.pc.pending)
    case FlushEnd =>
      s.pc.Flush? && !s.pc.held && s.pc.i == |s.pc.items| && PublishContract(s.rsp, s.pc.pending)
  }

  ghost predicate TaskAllowed(s: Sys, a: TaskMove) {
    match a
    case RunTask(o, outcome) =>
      && o in s.tasks && !s.tasks[o].done
      && (outcome.Returned? ==> HandlerResult(outcome.bytes))
    case ReturnQuota(o) => o in s.tasks && s.tasks[o].done && s.inflight > 0
  }

  ghost predicate Allowed(s: Sys, a: Move) {
    match a
    case Gw(m) => GatewayAllowed(s, m)
    case Reader(m) => ReaderAllowed(s, m)
    case Flusher(m) => FlushAllowed(s, m)
    case Business(m) => TaskAllowed(s, m)
  }

  /** `publish(pending)`: asserts that the count matches the reservations; what becomes visible
      must have been filled. */
  predicate PublishContract(rsp: Ring<Reply>, pending: nat) {
    pending == |rsp.staged| && AllFilled(rsp.staged)
  }

  /** `fill` writes the slot the last reservation returned. */
  predicate FillContract(rsp: Ring<Reply>, pending: nat) {
    && pending == |rsp.staged| - 1
    && rsp.staged[pending].slot < |rsp.slots|
  }

  ghost predicate Shaped(s: Sys) {
    && Capacity(|s.rsp.slots|)
    && forall w | 0 <= w < |s.reqs| :: Capacity(|s.reqs[w].slots|)
  }

  function SetRing(s: Sys, w: nat, a: Action<Request>): Sys
    requires w < |s.reqs| && Capacity(|s.reqs[w].slots|) && Enabled(s.reqs[w], a)
  {
    s.(reqs := s.reqs[w := Step(s.reqs[w], a)])
  }

  /** `pop_batch` on the ring under the cursor; an empty one moves the cursor on. */
  function AfterPop(s: Sys, h: nat): Sys
    requires s.pc.Scan? && s.pc.ring < |s.reqs| && Capacity(|s.reqs[s.pc.ring].slots|)
    requires Enabled(s.reqs[s.pc.ring], Pop(h, REQ_BATCH))
  {
    var s' := SetRing(s, s.pc.ring, Pop(h, REQ_BATCH));
    if s'.reqs[s.pc.ring].batch == 0
    then s'.(pc := Scan(s.pc.slice, s.pc.phase, s.pc.ring + 1, s.pc.popped))
    else s'.(pc := Scan(s.pc.slice, s.pc.phase, s.pc.ring, true))
  }

  /** The reader's callback on one slot: dropped if oversized or if copying it fails,
      otherwise counted and about to be posted. */
  function AfterRead(s: Sys, keep: bool): Sys
    requires s.pc.Scan? && s.pc.ring < |s.reqs| && Capacity(|s.reqs[s.pc.ring].slots|)
    requires Enabled(s.reqs[s.pc.ring], Read)
  {
    var s' := SetRing(s, s.pc.ring, Read);
    var index := |s.reqs[s.pc.ring].got|;
    var q := s'.reqs[s.pc.ring].got[index];
    if |q.payload| > REQ_PAYLOAD_MAX || !keep then s'
    else s'.(inflight := s.inflight + 1,
             pc := Posting(s.pc.slice, s.pc.phase, s.pc.ring, Origin(s.pc.ring, index), q))
  }

  /** One turn of the flush loop up to the slot it obtained. On a full ring, what is filled is
      published and the turn is repeated, unless the deadline passed or a stop was requested. */
  function AfterReserve(s: Sys, t: nat, giveUp: bool): Sys
    requires s.pc.Flush? && s.pc.i < |s.pc.items| && Capacity(|s.rsp.slots|)
    requires Enabled(s.rsp, Reserve(t)) && PublishContract(s.rsp, s.pc.pending)
  {
    var rsp := Step(s.rsp, Reserve(t));
    if |rsp.staged| == |s.rsp.staged| then
      var s' := s.(rsp := Step(rsp, PublishStaged));
      if giveUp then s'.(pc := SampleInflight, gaveUp := true)
      else s'.(pc := Flush(s.pc.items, s.pc.i, 0, false))
    else if |s.pc.items[s.pc.i].frame| > RSP_PAYLOAD_MAX then
      s.(rsp := rsp, pc := Flush(s.pc.items, s.pc.i + 1, s.pc.pending, false))
    else
      s.(rsp := rsp, pc := Flush(s.pc.items, s.pc.i, s.pc.pending, true))
  }

  /** A business task: a non-empty result of a two-way request is stamped and queued. */
  function AfterTask(s: Sys, o: Origin, outcome: Outcome): Sys
    requires o in s.tasks
  {
    var t := s.tasks[o];
    var s' := s.(tasks := s.tasks[o := Task(t.req, true)]);
    if outcome.Threw? || t.req.oneWay || outcome.bytes == [] || !Stampable(outcome.bytes) then s'
    else
      var reply := Reply(o, t.req.conn, t.req.seqNo, Stamped(outcome.bytes, t.req.seqNo));
      s'.(replies := s.replies + [reply], pushed := s.pushed + [reply])
  }

  function GatewayNext(s: Sys, a: GatewayMove): Sys
    requires Shaped(s) && GatewayAllowed(s, a)
  {
    match a
    case Accept(client) =>
      s.(gw := s.gw.(nextId := s.gw.nextId + 1, open := s.gw.open[s.gw.nextId := client],
                     issued := s.gw.issued[s.gw.nextId := client]))
    case Close(conn) => s.(gw := s.gw.(open := s.gw.open - {conn}))
    case WorkerWrite(w, write) => SetRing(s, w, write)
    case GatewayPop(h) => s.(rsp := Step(s.rsp, Pop(h, RSP_BATCH)))
    case GatewayRead(queued) =>
      var rsp := Step(s.rsp, Read);
      s.(rsp := rsp, gw := Delivered(s.gw, |s.rsp.got|, rsp.got[|s.rsp.got|], queued))
    case GatewayRelease => s.(rsp := Step(s.rsp, Release))
  }

  function ReaderNext(s: Sys, a: ReaderMove): Sys
    requires Shaped(s) && ReaderAllowed(s, a)
  {
    match a
    case LoadInflight(v) => s.(pc := SampleSize(v > 0))
    case LoadSize =>
      s.(pc := Scan(if s.pc.busy || |s.replies| > 0 then Short else Long, First, 0, false))
    case PopRing(h) => AfterPop(s, h)
    case ReadSlot(keep) => AfterRead(s, keep)
    case PostTask(ok) =>
      var s' := s.(pc := Scan(s.pc.slice, s.pc.phase, s.pc.ring, true));
      if ok then s'.(tasks := s.tasks[s.pc.origin := Task(s.pc.req, false)])
      else s'.(inflight := s.inflight - 1)
    case ReleaseRing => SetRing(s, s.pc.ring, Release)
    case EndPass(spin) =>
      s.(pc := if s.pc.popped || s.pc.phase.Last? then Drain
               else if spin then Scan(s.pc.slice, Spin, 0, false)
               else Poll(s.pc.slice))
    case PollDone(wake) => s.(pc := if wake then Drain else Scan(s.pc.slice, Last, 0, false))
  }

  function FlushNext(s: Sys, a: FlushMove): Sys
    requires Shaped(s) && FlushAllowed(s, a)
  {
    match a
    case DrainReplies =>
      s.(replies := [], pc := if s.replies == [] then SampleInflight else Flush(s.replies, 0, 0, false))
    case FlushReserve(t, giveUp) => AfterReserve(s, t, giveUp)
    case FlushFill =>
      s.(rsp := Step(s.rsp, Fill(s.pc.pending, s.pc.items[s.pc.i])),
         pc := Flush(s.pc.items, s.pc.i + 1, s.pc.pending + 1, false))
    case FlushEnd =>
      s.(rsp := if s.pc.pending > 0 then Step(s.rsp, PublishStaged) else s.rsp,
         pc := SampleInflight)
  }

  ghost function TaskNext(s: Sys, a: TaskMove): Sys
    requires TaskAllowed(s, a)
  {
    match a
    case RunTask(o, outcome) => AfterTask(s, o, outcome)
    case ReturnQuota(o) => s.(tasks := s.tasks - {o}, inflight := s.inflight - 1)
  }

  ghost function Next(s: Sys, a: Move): Sys
    requires Shaped(s) && Allowed(s, a)
  {
    match a
    case Gw(m) => GatewayNext(s, m)
    case Reader(m) => ReaderNext(s, m)
    case Flusher(m) => FlushNext(s, m)
    case Business(m) => TaskNext(s, m)
  }

  /** The main thread looks the connection up by id; it may also refuse the frame, when the
      connection is closing or its send backlog is full. */
  function Delivered(gw: Gateway, at: nat, reply: Reply, queued: bool): Gateway {
    if reply.conn in gw.open && queued
    then gw.(delivered := gw.delivered + [Delivery(gw.open[reply.conn], at, reply)])
    else gw
  }

  ghost predicate Init(s: Sys) {
    && SpscRing.Init(s.rsp)
    && (forall w | 0 <= w < |s.reqs| :: SpscRing.Init(s.reqs[w]))
    && s.gw == Gateway(1, map[], map[], [])
    && s.pc == SampleInflight && s.tasks == map[] && s.replies == [] && s.inflight == 0
    && s.pushed == [] && !s.gaveUp
  }

  ghost predicate IsRun(ss: seq<Sys>, moves: seq<Move>) {
    && |ss| == |moves| + 1
    && Init(ss[0])
    && (forall i | 0 <= i < |moves| ::
          Shaped(ss[i]) && Allowed(ss[i], moves[i]) && ss[i + 1] == Next(ss[i], moves[i]))
  }
}
