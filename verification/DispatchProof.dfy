/** What holds in every reachable state of the dispatch pipeline. */
module DispatchProof {
  import opened Words
  import opened Codec
  import opened SpscRing
  import opened Dispatch

  // ---- invariant, one predicate per concern ----

  ghost predicate RingsOk(reqs: seq<Ring<Request>>, rsp: Ring<Reply>) {
    && SpscRing.Inv(rsp)
    && forall w | 0 <= w < |reqs| :: SpscRing.Inv(reqs[w])
  }

  /** Ids are issued once, so an open connection is the one its id was issued to. */
  ghost predicate IdsOk(gw: Gateway) {
    && (forall c | c in gw.issued :: c < gw.nextId)
    && (forall c | c in gw.open :: c in gw.issued && gw.issued[c] == gw.open[c])
  }

  /** Everything written to a request ring came from the connection it names. */
  ghost predicate RequestsOk(reqs: seq<Ring<Request>>, gw: Gateway) {
    forall w | 0 <= w < |reqs| :: RingRequestsOk(reqs[w], gw)
  }

  ghost predicate RingRequestsOk(r: Ring<Request>, gw: Gateway) {
    && (forall k | 0 <= k < |r.sent| :: FromConnection(gw, r.sent[k]))
    && (forall j | 0 <= j < |r.staged| ::
          r.staged[j].filled.Some? ==> FromConnection(gw, r.staged[j].filled.value))
  }

  /** The quota counts the posted tasks that have not returned it, plus the one being posted. */
  ghost predicate QuotaOk(pc: Pc, tasks: map<Origin, Task>, inflight: nat) {
    inflight == |tasks| + (if pc.Posting? then 1 else 0)
  }

  /** While the reader is committed to the long slice and has consumed nothing since,
      no task is outstanding and no reply is queued. */
  ghost predicate IdleOk(pc: Pc, tasks: map<Origin, Task>, replies: seq<Reply>) {
    && (pc.SampleSize? && !pc.busy ==> tasks == map[])
    && (pc.Scan? && pc.slice.Long? && !pc.popped ==> tasks == map[] && replies == [])
    && (pc.Poll? && pc.slice.Long? ==> tasks == map[] && replies == [])
  }

  /** Only the ring under the reader's cursor has an unreleased batch. */
  ghost predicate CursorOk(pc: Pc, reqs: seq<Ring<Request>>) {
    forall w | 0 <= w < |reqs| && reqs[w].batch > 0 ::
      (pc.Scan? && pc.ring == w && pc.popped) || (pc.Posting? && pc.ring == w)
  }

  /** The flush loop's `pending` is the producer's count of unpublished slots, and these hold
      exactly the last `pending` replies it took. */
  ghost predicate FlushOk(pc: Pc, rsp: Ring<Reply>) {
    if !pc.Flush? then rsp.staged == []
    else
      && pc.pending <= pc.i <= |pc.items|
      && |rsp.staged| == pc.pending + (if pc.held then 1 else 0)
      && (pc.held ==> pc.i < |pc.items|)
      && (forall j | 0 <= j < pc.pending ::
            rsp.staged[j].filled == Wrappers.Some(pc.items[pc.i - pc.pending + j]))
  }

  /** All replies still in the pipeline, oldest first: published, taken by the flush, queued. */
  function Line(s: Sys): seq<Reply> {
    s.rsp.sent + Taken(s.pc) + s.replies
  }

  function Taken(pc: Pc): seq<Reply> {
    if pc.Flush? && pc.pending <= pc.i <= |pc.items| then pc.items[pc.i - pc.pending..] else []
  }

  ghost predicate GoodFrame(frame: seq<Byte>, seqNo: U32) {
    exists f: Frame :: Sendable(f) && f.seqNo == seqNo && frame == Wire(f)
  }

  /** A request the reader has consumed. */
  predicate Heard(reqs: seq<Ring<Request>>, o: Origin) {
    o.ring < |reqs| && o.index < |reqs[o.ring].got|
  }

  /** The reply answers the request it says it answers. */
  ghost predicate Answers(reqs: seq<Ring<Request>>, r: Reply) {
    && Heard(reqs, r.origin)
    && var q := reqs[r.origin.ring].got[r.origin.index];
       r.conn == q.conn && r.seqNo == q.seqNo && !q.oneWay && GoodFrame(r.frame, q.seqNo)
  }

  ghost predicate TasksOk(reqs: seq<Ring<Request>>, pc: Pc, tasks: map<Origin, Task>) {
    && (forall o | o in tasks ::
          Heard(reqs, o) && tasks[o].req == reqs[o.ring].got[o.index])
    && (pc.Posting? ==>
          && pc.origin !in tasks && Heard(reqs, pc.origin)
          && pc.req == reqs[pc.origin.ring].got[pc.origin.index])
  }

  ghost predicate LineOk(reqs: seq<Ring<Request>>, line: seq<Reply>) {
    && (forall k | 0 <= k < |line| :: Answers(reqs, line[k]))
    && (forall k, l | 0 <= k < l < |line| :: line[k].origin != line[l].origin)
  }

  /** A request whose task has not run yet has no reply. */
  ghost predicate PendingOk(pc: Pc, tasks: map<Origin, Task>, line: seq<Reply>) {
    forall k | 0 <= k < |line| ::
      && (line[k].origin in tasks ==> tasks[line[k].origin].done)
      && (pc.Posting? ==> line[k].origin != pc.origin)
  }

  ghost predicate DeliveredOk(gw: Gateway, rsp: Ring<Reply>) {
    && (forall k | 0 <= k < |gw.delivered| ::
          var d := gw.delivered[k];
          && d.at < |rsp.got| && d.reply == rsp.got[d.at]
          && d.reply.conn in gw.issued && d.client == gw.issued[d.reply.conn])
    && (forall k, l | 0 <= k < l < |gw.delivered| :: gw.delivered[k].at < gw.delivered[l].at)
  }

  // ---- the rings ----

  lemma GatewayKeepsRings(s: Sys, a: GatewayMove)
    requires RingsOk(s.reqs, s.rsp) && GatewayAllowed(s, a)
    ensures var s' := GatewayNext(s, a); RingsOk(s'.reqs, s'.rsp)
  {
    match a
    case WorkerWrite(w, write) => StepKeepsInv(s.reqs[w], write);
    case GatewayPop(h) => StepKeepsInv(s.rsp, Pop(h, RSP_BATCH));
    case GatewayRead(_) => StepKeepsInv(s.rsp, Read);
    case GatewayRelease => StepKeepsInv(s.rsp, Release);
    case _ =>
  }

  lemma ReaderKeepsRings(s: Sys, a: ReaderMove)
    requires RingsOk(s.reqs, s.rsp) && ReaderAllowed(s, a)
    ensures var s' := ReaderNext(s, a); RingsOk(s'.reqs, s'.rsp)
  {
    match a
    case PopRing(h) => StepKeepsInv(s.reqs[s.pc.ring], Pop(h, REQ_BATCH));
    case ReadSlot(_) => StepKeepsInv(s.reqs[s.pc.ring], Read);
    case ReleaseRing => StepKeepsInv(s.reqs[s.pc.ring], Release);
    case _ =>
  }

  lemma FlushKeepsRings(s: Sys, a: FlushMove)
    requires RingsOk(s.reqs, s.rsp) && FlushAllowed(s, a)
    ensures var s' := FlushNext(s, a); RingsOk(s'.reqs, s'.rsp)
  {
    match a
    case FlushReserve(t, _) =>
      StepKeepsInv(s.rsp, Reserve(t));
      var rsp := Step(s.rsp, Reserve(t));
      if |rsp.staged| == |s.rsp.staged| {
        StepKeepsInv(rsp, PublishStaged);
      }
    case FlushFill => StepKeepsInv(s.rsp, Fill(s.pc.pending, s.pc.items[s.pc.i]));
    case FlushEnd =>
      if s.pc.pending > 0 {
        StepKeepsInv(s.rsp, PublishStaged);
      }
    case _ =>
  }

  // ---- requests ----

  /** A ring step that writes only genuine requests keeps a ring of genuine requests. */
  lemma RingStepKeepsRequests(r: Ring<Request>, gw: Gateway, a: Action<Request>)
    requires Capacity(|r.slots|) && Enabled(r, a) && RingRequestsOk(r, gw)
    requires a.Fill? ==> FromConnection(gw, a.packet)
    ensures RingRequestsOk(Step(r, a), gw)
  {
  }

  lemma GatewayKeepsRequests(s: Sys, a: GatewayMove)
    requires Shaped(s) && GatewayAllowed(s, a) && IdsOk(s.gw) && RequestsOk(s.reqs, s.gw)
    ensures var s' := GatewayNext(s, a); IdsOk(s'.gw) && RequestsOk(s'.reqs, s'.gw)
  {
    var s' := GatewayNext(s, a);
    if a.WorkerWrite? {
      RingStepKeepsRequests(s.reqs[a.w], s.gw, a.write);
    }
    forall w | 0 <= w < |s.reqs| ensures RingRequestsOk(s'.reqs[w], s'.gw) {
      assert RingRequestsOk(s.reqs[w], s.gw);
    }
  }

  lemma ReaderKeepsRequests(s: Sys, a: ReaderMove)
    requires Shaped(s) && ReaderAllowed(s, a) && RequestsOk(s.reqs, s.gw)
    ensures RequestsOk(ReaderNext(s, a).reqs, s.gw)
  {
    match a
    case PopRing(h) => RingStepKeepsRequests(s.reqs[s.pc.ring], s.gw, Pop(h, REQ_BATCH));
    case ReadSlot(_) => RingStepKeepsRequests(s.reqs[s.pc.ring], s.gw, Read);
    case ReleaseRing => RingStepKeepsRequests(s.reqs[s.pc.ring], s.gw, Release);
    case _ =>
  }

  // ---- what each kind of move leaves alone ----

  /** No less was read from any request ring. */
  ghost predicate NoLessRead(reqs: seq<Ring<Request>>, reqs': seq<Ring<Request>>) {
    && |reqs'| == |reqs|
    && forall w | 0 <= w < |reqs| :: reqs[w].got <= reqs'[w].got
  }

  lemma GatewayFrame(s: Sys, a: GatewayMove)
    requires Shaped(s) && GatewayAllowed(s, a)
    ensures var s' := GatewayNext(s, a);
            && s'.pc == s.pc && s'.tasks == s.tasks && s'.replies == s.replies
            && s'.inflight == s.inflight && s'.pushed == s.pushed && s'.gaveUp == s.gaveUp
            && s'.rsp.sent == s.rsp.sent && s'.rsp.staged == s.rsp.staged
            && NoLessRead(s.reqs, s'.reqs)
  {
  }

  lemma ReaderFrame(s: Sys, a: ReaderMove)
    requires Shaped(s) && ReaderAllowed(s, a)
    ensures var s' := ReaderNext(s, a);
            && s'.gw == s.gw && s'.rsp == s.rsp && s'.replies == s.replies
            && s'.pushed == s.pushed && s'.gaveUp == s.gaveUp
            && !s.pc.Flush? && !s'.pc.Flush?
  {
  }

  lemma ReaderReads(s: Sys, a: ReaderMove)
    requires Shaped(s) && ReaderAllowed(s, a)
    ensures NoLessRead(s.reqs, ReaderNext(s, a).reqs)
  {
  }

  lemma FlushFrame(s: Sys, a: FlushMove)
    requires Shaped(s) && FlushAllowed(s, a)
    ensures var s' := FlushNext(s, a);
            && s'.gw == s.gw && s'.reqs == s.reqs && s'.tasks == s.tasks
            && s'.inflight == s.inflight && s'.pushed == s.pushed && s'.rsp.got == s.rsp.got
            && !s'.pc.Posting? && (s.gaveUp ==> s'.gaveUp)
  {
  }

  // ---- reader control: quota, slice, cursor ----

  ghost predicate ControlOk(s: Sys) {
    && QuotaOk(s.pc, s.tasks, s.inflight)
    && IdleOk(s.pc, s.tasks, s.replies)
    && CursorOk(s.pc, s.reqs)
  }

  lemma GatewayKeepsCursor(s: Sys, a: GatewayMove)
    requires Shaped(s) && GatewayAllowed(s, a) && CursorOk(s.pc, s.reqs)
    ensures CursorOk(s.pc, GatewayNext(s, a).reqs)
  {
  }

  lemma ReaderKeepsCounts(s: Sys, a: ReaderMove)
    requires Shaped(s) && ReaderAllowed(s, a)
    requires QuotaOk(s.pc, s.tasks, s.inflight) && IdleOk(s.pc, s.tasks, s.replies)
    requires s.pc.Posting? ==> s.pc.origin !in s.tasks
    ensures var s' := ReaderNext(s, a);
            QuotaOk(s'.pc, s'.tasks, s'.inflight) && IdleOk(s'.pc, s'.tasks, s'.replies)
  {
  }

  lemma ReaderKeepsCursor(s: Sys, a: ReaderMove)
    requires Shaped(s) && ReaderAllowed(s, a) && CursorOk(s.pc, s.reqs)
    ensures var s' := ReaderNext(s, a); CursorOk(s'.pc, s'.reqs)
  {
  }

  lemma FlushKeepsControl(s: Sys, a: FlushMove)
    requires Shaped(s) && FlushAllowed(s, a) && ControlOk(s)
    ensures ControlOk(FlushNext(s, a))
  {
  }

  lemma TaskKeepsControl(s: Sys, a: TaskMove)
    requires TaskAllowed(s, a) && ControlOk(s)
    ensures ControlOk(TaskNext(s, a))
  {
    if a.ReturnQuota? {
      assert (s.tasks - {a.o}).Keys == s.tasks.Keys - {a.o};
    }
  }

  // ---- tasks and the line of replies ----

  ghost predicate PipeOk(reqs: seq<Ring<Request>>, pc: Pc, tasks: map<Origin, Task>, line: seq<Reply>) {
    TasksOk(reqs, pc, tasks) && LineOk(reqs, line) && PendingOk(pc, tasks, line)
  }

  ghost predicate PipelineOk(s: Sys) {
    && PipeOk(s.reqs, s.pc, s.tasks, Line(s))
    && (!s.gaveUp ==> Line(s) == s.pushed)
  }

  /** Claims about requests survive any change of the rings from which no less was read. */
  lemma MoreReadKeepsPipe(reqs: seq<Ring<Request>>, reqs': seq<Ring<Request>>, pc: Pc,
                          tasks: map<Origin, Task>, line: seq<Reply>)
    requires PipeOk(reqs, pc, tasks, line) && NoLessRead(reqs, reqs')
    ensures PipeOk(reqs', pc, tasks, line)
  {
    forall k | 0 <= k < |line| ensures Answers(reqs', line[k]) {
      assert Answers(reqs, line[k]);
    }
  }

  lemma MovingOnKeepsPipe(reqs: seq<Ring<Request>>, pc: Pc, pc': Pc, tasks: map<Origin, Task>, line: seq<Reply>)
    requires PipeOk(reqs, pc, tasks, line) && !pc'.Posting?
    ensures PipeOk(reqs, pc', tasks, line)
  {
  }

  lemma GatewayKeepsPipeline(s: Sys, a: GatewayMove)
    requires Shaped(s) && GatewayAllowed(s, a) && PipelineOk(s)
    ensures PipelineOk(GatewayNext(s, a))
  {
    GatewayFrame(s, a);
    MoreReadKeepsPipe(s.reqs, GatewayNext(s, a).reqs, s.pc, s.tasks, Line(s));
  }

  /** A request just read has neither a task nor a reply. */
  lemma FreshOrigin(reqs: seq<Ring<Request>>, pc: Pc, tasks: map<Origin, Task>, line: seq<Reply>, w: nat)
    requires w < |reqs| && PipeOk(reqs, pc, tasks, line)
    ensures Origin(w, |reqs[w].got|) !in tasks
    ensures forall k | 0 <= k < |line| :: line[k].origin != Origin(w, |reqs[w].got|)
  {
    forall k | 0 <= k < |line| ensures line[k].origin != Origin(w, |reqs[w].got|) {
      assert Answers(reqs, line[k]);
    }
  }

  lemma ReadSlotKeepsPipeline(s: Sys, keep: bool)
    requires Shaped(s) && AtRing(s, Read) && PipelineOk(s)
    ensures PipelineOk(AfterRead(s, keep))
  {
    ReaderFrame(s, ReadSlot(keep));
    ReaderReads(s, ReadSlot(keep));
    FreshOrigin(s.reqs, s.pc, s.tasks, Line(s), s.pc.ring);
    MoreReadKeepsPipe(s.reqs, AfterRead(s, keep).reqs, s.pc, s.tasks, Line(s));
  }

  /** Posting turns the request being posted into a task that has not run. */
  lemma PostKeepsPipeline(s: Sys, ok: bool)
    requires Shaped(s) && ReaderAllowed(s, PostTask(ok)) && PipelineOk(s)
    ensures PipelineOk(ReaderNext(s, PostTask(ok)))
  {
    ReaderFrame(s, PostTask(ok));
  }

  lemma ReaderKeepsPipeline(s: Sys, a: ReaderMove)
    requires Shaped(s) && ReaderAllowed(s, a) && PipelineOk(s)
    ensures PipelineOk(ReaderNext(s, a))
  {
    match a
    case ReadSlot(keep) => ReadSlotKeepsPipeline(s, keep);
    case PostTask(ok) => PostKeepsPipeline(s, ok);
    case _ =>
      var s' := ReaderNext(s, a);
      ReaderFrame(s, a);
      ReaderReads(s, a);
      MoreReadKeepsPipe(s.reqs, s'.reqs, s.pc, s.tasks, Line(s));
      MovingOnKeepsPipe(s'.reqs, s.pc, s'.pc, s.tasks, Line(s));
  }

  lemma StampedIsGood(bytes: seq<Byte>, seqNo: U32)
    requires HandlerResult(bytes) && bytes != []
    ensures Stampable(bytes) && GoodFrame(Stamped(bytes, seqNo), seqNo)
  {
    var f: Frame :| Sendable(f) && bytes == Wire(f);
    StampedWire(f, seqNo);
  }

  /** Queueing the reply of a task that had not run keeps replies unique. */
  lemma QueueKeepsPipeline(s: Sys, o: Origin, r: Reply)
    requires PipelineOk(s) && o in s.tasks && !s.tasks[o].done
    requires r.origin == o && Answers(s.reqs, r)
    ensures PipelineOk(s.(tasks := s.tasks[o := Task(s.tasks[o].req, true)],
                          replies := s.replies + [r], pushed := s.pushed + [r]))
  {
    var line := Line(s);
    assert s.rsp.sent + Taken(s.pc) + (s.replies + [r]) == line + [r];
    assert forall k | 0 <= k < |line| :: line[k].origin != o;
  }

  lemma TaskKeepsPipeline(s: Sys, a: TaskMove)
    requires TaskAllowed(s, a) && PipelineOk(s)
    ensures PipelineOk(TaskNext(s, a))
  {
    var s' := TaskNext(s, a);
    if |s'.replies| == |s.replies| {
      assert Line(s') == Line(s);
    } else {
      StampedIsGood(a.outcome.bytes, s.tasks[a.o].req.seqNo);
      QueueKeepsPipeline(s, a.o, s'.replies[|s.replies|]);
    }
  }

  // ---- the flush loop ----

  /** A reply in the pipeline fits a response slot: the oversize branch is dead. */
  lemma ReplyFits(reqs: seq<Ring<Request>>, r: Reply)
    requires Answers(reqs, r)
    ensures 0 < |r.frame| <= RSP_PAYLOAD_MAX
  {
  }

  lemma NextItemFits(s: Sys)
    requires FlushOk(s.pc, s.rsp) && s.pc.Flush? && s.pc.i < |s.pc.items|
    requires LineOk(s.reqs, Line(s))
    ensures |s.pc.items[s.pc.i].frame| <= RSP_PAYLOAD_MAX
  {
    var k := |s.rsp.sent| + s.pc.pending;
    assert Line(s)[k] == s.pc.items[s.pc.i];
    ReplyFits(s.reqs, Line(s)[k]);
  }

  lemma ReserveKeepsFlush(s: Sys, t: nat, giveUp: bool)
    requires Shaped(s) && FlushAllowed(s, FlushReserve(t, giveUp)) && FlushOk(s.pc, s.rsp)
    requires |s.pc.items[s.pc.i].frame| <= RSP_PAYLOAD_MAX
    ensures var s' := AfterReserve(s, t, giveUp); FlushOk(s'.pc, s'.rsp)
  {
  }

  lemma FillKeepsFlush(s: Sys)
    requires Shaped(s) && FlushAllowed(s, FlushFill) && FlushOk(s.pc, s.rsp)
    ensures var s' := FlushNext(s, FlushFill); FlushOk(s'.pc, s'.rsp)
  {
  }

  lemma FlushKeepsFlush(s: Sys, a: FlushMove)
    requires Shaped(s) && FlushAllowed(s, a)
    requires FlushOk(s.pc, s.rsp) && LineOk(s.reqs, Line(s))
    ensures var s' := FlushNext(s, a); FlushOk(s'.pc, s'.rsp)
  {
    match a
    case FlushReserve(t, giveUp) =>
      NextItemFits(s);
      ReserveKeepsFlush(s, t, giveUp);
    case FlushFill => FillKeepsFlush(s);
    case _ =>
  }

  /** Publishing moves exactly the filled replies from the flush to the ring. */
  lemma PublishedIsTaken(pc: Pc, rsp: Ring<Reply>)
    requires FlushOk(pc, rsp) && pc.Flush? && !pc.held
    ensures AllFilled(rsp.staged)
    ensures Contents(rsp.staged) + pc.items[pc.i..] == Taken(pc)
  {
    assert Contents(rsp.staged) == pc.items[pc.i - pc.pending..pc.i];
  }

  /** A turn of the flush loop on a full ring. */
  lemma FullRingMovesAlongLine(s: Sys, rsp: Ring<Reply>)
    requires FlushOk(s.pc, s.rsp) && s.pc.Flush? && !s.pc.held
    requires Capacity(|rsp.slots|) && rsp.staged == s.rsp.staged && rsp.sent == s.rsp.sent
    ensures AllFilled(rsp.staged)
    ensures Line(s) == Step(rsp, PublishStaged).sent + s.pc.items[s.pc.i..] + s.replies
  {
    PublishedIsTaken(s.pc, s.rsp);
    var c, rest := Contents(rsp.staged), s.pc.items[s.pc.i..];
    assert rsp.sent + (c + rest) == rsp.sent + c + rest;
  }

  lemma SlotObtainedKeepsLine(s: Sys, t: nat, giveUp: bool)
    requires Shaped(s) && FlushAllowed(s, FlushReserve(t, giveUp)) && FlushOk(s.pc, s.rsp)
    requires |Step(s.rsp, Reserve(t)).staged| != |s.rsp.staged|
    requires |s.pc.items[s.pc.i].frame| <= RSP_PAYLOAD_MAX
    ensures Line(AfterReserve(s, t, giveUp)) == Line(s)
  {
  }

  lemma NothingLost(s: Sys) returns (kept: seq<Reply>, lost: seq<Reply>)
    ensures Line(s) == kept + lost + s.replies == kept + s.replies && lost == []
  {
    kept, lost := s.rsp.sent + Taken(s.pc), [];
    assert kept + lost == kept;
  }

  lemma ReserveMovesAlongLine(s: Sys, t: nat, giveUp: bool) returns (kept: seq<Reply>, lost: seq<Reply>)
    requires Shaped(s) && FlushAllowed(s, FlushReserve(t, giveUp)) && FlushOk(s.pc, s.rsp)
    requires |s.pc.items[s.pc.i].frame| <= RSP_PAYLOAD_MAX
    ensures var s' := AfterReserve(s, t, giveUp);
            && Line(s) == kept + lost + s'.replies
            && Line(s') == kept + s'.replies
            && (lost != [] ==> s'.gaveUp)
  {
    var s' := AfterReserve(s, t, giveUp);
    var rsp := Step(s.rsp, Reserve(t));
    if |rsp.staged| != |s.rsp.staged| {
      SlotObtainedKeepsLine(s, t, giveUp);
      kept, lost := NothingLost(s');
    } else {
      FullRingMovesAlongLine(s, rsp);
      if giveUp {
        kept, lost := s'.rsp.sent, s.pc.items[s.pc.i..];
        assert Taken(s'.pc) == [] && kept + [] == kept;
      } else {
        assert Taken(s'.pc) == s.pc.items[s.pc.i..];
        kept, lost := NothingLost(s');
      }
    }
  }

  lemma EndMovesAlongLine(s: Sys)
    requires Shaped(s) && FlushAllowed(s, FlushEnd) && FlushOk(s.pc, s.rsp)
    ensures Line(FlushNext(s, FlushEnd)) == Line(s)
  {
    FullRingMovesAlongLine(s, s.rsp);
  }

  lemma DrainKeepsLine(s: Sys)
    requires Shaped(s) && FlushAllowed(s, DrainReplies)
    ensures Line(FlushNext(s, DrainReplies)) == Line(s)
  {
    if s.replies != [] {
      assert s.replies[0..] == s.replies;
    }
  }

  lemma FillKeepsLine(s: Sys)
    requires Shaped(s) && FlushAllowed(s, FlushFill) && FlushOk(s.pc, s.rsp)
    ensures Line(FlushNext(s, FlushFill)) == Line(s)
  {
  }

  /** Only giving up on a full ring changes the line, and then by losing one segment of it. */
  lemma FlushMovesAlongLine(s: Sys, a: FlushMove) returns (kept: seq<Reply>, lost: seq<Reply>)
    requires Shaped(s) && FlushAllowed(s, a)
    requires FlushOk(s.pc, s.rsp) && LineOk(s.reqs, Line(s))
    ensures var s' := FlushNext(s, a);
            && Line(s) == kept + lost + s'.replies
            && Line(s') == kept + s'.replies
            && (lost != [] ==> s'.gaveUp)
  {
    match a
    case FlushReserve(t, giveUp) =>
      NextItemFits(s);
      kept, lost := ReserveMovesAlongLine(s, t, giveUp);
    case FlushEnd =>
      EndMovesAlongLine(s);
      kept, lost := NothingLost(FlushNext(s, a));
    case DrainReplies =>
      DrainKeepsLine(s);
      kept, lost := NothingLost(FlushNext(s, a));
    case FlushFill =>
      FillKeepsLine(s);
      kept, lost := NothingLost(FlushNext(s, a));
  }

  /** Losing a segment of the line keeps the other replies unique and truthful. */
  lemma LosingKeepsPipe(reqs: seq<Ring<Request>>, pc: Pc, tasks: map<Origin, Task>,
                        kept: seq<Reply>, lost: seq<Reply>, rest: seq<Reply>)
    requires PipeOk(reqs, pc, tasks, kept + lost + rest)
    ensures PipeOk(reqs, pc, tasks, kept + rest)
  {
    var line, line' := kept + lost + rest, kept + rest;
    forall k | 0 <= k < |line'| ensures line'[k] == line[if k < |kept| then k else k + |lost|] {
    }
  }

  lemma FlushKeepsPipeline(s: Sys, a: FlushMove)
    requires Shaped(s) && FlushAllowed(s, a) && FlushOk(s.pc, s.rsp) && PipelineOk(s)
    ensures PipelineOk(FlushNext(s, a))
  {
    var kept, lost := FlushMovesAlongLine(s, a);
    var s' := FlushNext(s, a);
    FlushFrame(s, a);
    LosingKeepsPipe(s.reqs, s.pc, s.tasks, kept, lost, s'.replies);
    MovingOnKeepsPipe(s.reqs, s.pc, s'.pc, s.tasks, Line(s'));
    assert kept + [] == kept;
  }

  // ---- deliveries ----

  lemma DeliverKeepsDelivered(gw: Gateway, rsp: Ring<Reply>, rsp': Ring<Reply>, queued: bool)
    requires IdsOk(gw) && DeliveredOk(gw, rsp)
    requires |rsp'.got| == |rsp.got| + 1 && rsp.got == rsp'.got[..|rsp.got|]
    ensures DeliveredOk(Delivered(gw, |rsp.got|, rsp'.got[|rsp.got|], queued), rsp')
  {
  }

  lemma GatewayKeepsDelivered(s: Sys, a: GatewayMove)
    requires Shaped(s) && GatewayAllowed(s, a) && IdsOk(s.gw) && DeliveredOk(s.gw, s.rsp)
    ensures var s' := GatewayNext(s, a); DeliveredOk(s'.gw, s'.rsp)
  {
    if a.GatewayRead? {
      DeliverKeepsDelivered(s.gw, s.rsp, Step(s.rsp, Read), a.queued);
    }
  }

  // ---- every move, every run ----

  /** Everything but the invariants of the single rings. */
  ghost predicate Consistent(s: Sys) {
    && IdsOk(s.gw) && RequestsOk(s.reqs, s.gw)
    && ControlOk(s)
    && FlushOk(s.pc, s.rsp)
    && PipelineOk(s)
    && DeliveredOk(s.gw, s.rsp)
  }

  ghost predicate Inv(s: Sys) {
    Shaped(s) && RingsOk(s.reqs, s.rsp) && Consistent(s)
  }

  lemma InitHasInv(s: Sys)
    requires Dispatch.Init(s)
    ensures Inv(s)
  {
  }

  lemma GatewayKeepsConsistent(s: Sys, a: GatewayMove)
    requires Shaped(s) && Consistent(s) && GatewayAllowed(s, a)
    ensures Consistent(GatewayNext(s, a))
  {
    GatewayFrame(s, a);
    GatewayKeepsRequests(s, a);
    GatewayKeepsCursor(s, a);
    GatewayKeepsPipeline(s, a);
    GatewayKeepsDelivered(s, a);
  }

  lemma ReaderKeepsConsistent(s: Sys, a: ReaderMove)
    requires Shaped(s) && Consistent(s) && ReaderAllowed(s, a)
    ensures Consistent(ReaderNext(s, a))
  {
    ReaderFrame(s, a);
    ReaderKeepsRequests(s, a);
    ReaderKeepsCounts(s, a);
    ReaderKeepsCursor(s, a);
    ReaderKeepsPipeline(s, a);
  }

  lemma FlushKeepsConsistent(s: Sys, a: FlushMove)
    requires Shaped(s) && Consistent(s) && FlushAllowed(s, a)
    ensures Consistent(FlushNext(s, a))
  {
    FlushFrame(s, a);
    FlushKeepsControl(s, a);
    FlushKeepsFlush(s, a);
    FlushKeepsPipeline(s, a);
  }

  lemma TaskKeepsConsistent(s: Sys, a: TaskMove)
    requires Consistent(s) && TaskAllowed(s, a)
    ensures Consistent(TaskNext(s, a))
  {
    TaskKeepsControl(s, a);
    TaskKeepsPipeline(s, a);
  }

  lemma MoveKeepsRings(s: Sys, a: Move)
    requires Shaped(s) && RingsOk(s.reqs, s.rsp) && Allowed(s, a)
    ensures var s' := Next(s, a); Shaped(s') && RingsOk(s'.reqs, s'.rsp)
  {
    match a
    case Gw(m) => GatewayKeepsRings(s, m);
    case Reader(m) => ReaderKeepsRings(s, m);
    case Flusher(m) => FlushKeepsRings(s, m);
    case Business(m) =>
  }

  lemma MoveKeepsConsistent(s: Sys, a: Move)
    requires Shaped(s) && Consistent(s) && Allowed(s, a)
    ensures Consistent(Next(s, a))
  {
    match a
    case Gw(m) => GatewayKeepsConsistent(s, m);
    case Reader(m) => ReaderKeepsConsistent(s, m);
    case Flusher(m) => FlushKeepsConsistent(s, m);
    case Business(m) => TaskKeepsConsistent(s, m);
  }

  lemma MoveKeepsInv(s: Sys, a: Move)
    requires Inv(s) && Allowed(s, a)
    ensures Inv(Next(s, a))
  {
    MoveKeepsRings(s, a);
    MoveKeepsConsistent(s, a);
  }

  lemma {:induction false} RunKeepsInv(ss: seq<Sys>, moves: seq<Move>, i: nat)
    requires Dispatch.IsRun(ss, moves) && i < |ss|
    ensures Inv(ss[i])
  {
    if i == 0 {
      InitHasInv(ss[0]);
    } else {
      RunKeepsInv(ss, moves, i - 1);
      MoveKeepsInv(ss[i - 1], moves[i - 1]);
    }
  }

  // ---- what the pipeline guarantees on every run ----

  /** The connection, event and seq that a delivery must match. */
  ghost predicate RoutedTo(d: Delivery, q: Request) {
    && d.client == q.client
    && d.reply.conn == q.conn
    && q.eventId != 0x15
    && var out := DecodeFrame(d.reply.frame);
       out.Decoded? && out.consumed == |d.reply.frame| && out.frame.seqNo == q.seqNo
  }

  lemma DeliveryIsInLine(s: Sys, k: nat)
    requires Inv(s) && k < |s.gw.delivered|
    ensures var d := s.gw.delivered[k];
            d.at < |s.rsp.sent| <= |Line(s)| && Line(s)[d.at] == d.reply
  {
  }

  lemma DeliveryIsRouted(s: Sys, k: nat)
    requires Inv(s) && k < |s.gw.delivered|
    ensures var o := s.gw.delivered[k].reply.origin;
            && o.ring < |s.reqs| && o.index < |s.reqs[o.ring].sent|
            && RoutedTo(s.gw.delivered[k], s.reqs[o.ring].sent[o.index])
  {
    var d := s.gw.delivered[k];
    DeliveryIsInLine(s, k);
    assert Answers(s.reqs, Line(s)[d.at]);
    var r := s.reqs[d.reply.origin.ring];
    var q := r.got[d.reply.origin.index];
    assert q == r.sent[d.reply.origin.index] && RingRequestsOk(r, s.gw);
    var f: Frame :| Sendable(f) && f.seqNo == q.seqNo && d.reply.frame == Wire(f);
    DecodeAfterEncode(f, []);
    assert Wire(f) + [] == Wire(f);
  }

  lemma DeliveryIsUnique(s: Sys, k: nat, l: nat)
    requires Inv(s) && k < l < |s.gw.delivered|
    ensures s.gw.delivered[k].reply.origin != s.gw.delivered[l].reply.origin
  {
    DeliveryIsInLine(s, k);
    DeliveryIsInLine(s, l);
  }

  /** Every reply that reaches a connection answers a request written to a request ring by that
      same connection, with the seq of that request, and never a position report. */
  lemma DeliveriesAreRouted(ss: seq<Sys>, moves: seq<Move>, i: nat, k: nat)
    requires Dispatch.IsRun(ss, moves) && i < |ss| && k < |ss[i].gw.delivered|
    ensures var s := ss[i];
            var o := s.gw.delivered[k].reply.origin;
            && o.ring < |s.reqs| && o.index < |s.reqs[o.ring].sent|
            && RoutedTo(s.gw.delivered[k], s.reqs[o.ring].sent[o.index])
  {
    RunKeepsInv(ss, moves, i);
    DeliveryIsRouted(ss[i], k);
  }

  /** No request is answered twice. */
  lemma DeliveriesAreUnique(ss: seq<Sys>, moves: seq<Move>, i: nat, k: nat, l: nat)
    requires Dispatch.IsRun(ss, moves) && i < |ss| && k < l < |ss[i].gw.delivered|
    ensures ss[i].gw.delivered[k].reply.origin != ss[i].gw.delivered[l].reply.origin
  {
    RunKeepsInv(ss, moves, i);
    DeliveryIsUnique(ss[i], k, l);
  }

  /** Unless a flush gave up on a full ring, the queued replies are, in order, exactly those
      published, those in the flush's hands and those still queued. */
  lemma NoReplyIsLost(ss: seq<Sys>, moves: seq<Move>, i: nat)
    requires Dispatch.IsRun(ss, moves) && i < |ss| && !ss[i].gaveUp
    ensures var s := ss[i]; s.pushed == s.rsp.sent + Taken(s.pc) + s.replies
    ensures ss[i].rsp.got <= ss[i].pushed
  {
    RunKeepsInv(ss, moves, i);
  }

  /** The reader enters the long poll only when no reply is queued and no task is left that
      could queue one. */
  lemma LongPollOnlyWhenIdle(ss: seq<Sys>, moves: seq<Move>, i: nat)
    requires Dispatch.IsRun(ss, moves) && i < |ss| && ss[i].pc == Poll(Long)
    ensures ss[i].tasks == map[] && ss[i].replies == [] && ss[i].inflight == 0
  {
    RunKeepsInv(ss, moves, i);
  }

  /** The in-flight counter is the number of posted tasks that still hold their quota, except
      between counting a request and posting it. */
  lemma InflightCountsTasks(ss: seq<Sys>, moves: seq<Move>, i: nat)
    requires Dispatch.IsRun(ss, moves) && i < |ss|
    ensures ss[i].inflight == |ss[i].tasks| + (if ss[i].pc.Posting? then 1 else 0)
  {
    RunKeepsInv(ss, moves, i);
  }

  lemma FlushContract(s: Sys)
    requires s.pc.Flush? && FlushOk(s.pc, s.rsp) && LineOk(s.reqs, Line(s))
    requires s.rsp.prod.unpublished == |s.rsp.staged|
    requires forall j | 0 <= j < |s.rsp.staged| :: s.rsp.staged[j].slot < |s.rsp.slots|
    ensures !s.pc.held ==> PublishContract(s.rsp, s.pc.pending) && s.rsp.prod.unpublished == s.pc.pending
    ensures s.pc.held ==> FillContract(s.rsp, s.pc.pending)
    ensures s.pc.i < |s.pc.items| ==> |s.pc.items[s.pc.i].frame| <= RSP_PAYLOAD_MAX
  {
    if s.pc.i < |s.pc.items| {
      NextItemFits(s);
    }
  }

  /** Inside the flush loop the publishing contract always holds: `pending` is the producer's own
      count of unpublished slots, each of them filled; the slot about to be filled is the one just
      reserved; and the reply at hand fits it, so the oversize branch is never taken. */
  lemma FlushKeepsContract(ss: seq<Sys>, moves: seq<Move>, i: nat)
    requires Dispatch.IsRun(ss, moves) && i < |ss| && ss[i].pc.Flush?
    ensures var s := ss[i];
            && (!s.pc.held ==> PublishContract(s.rsp, s.pc.pending)
                               && s.rsp.prod.unpublished == s.pc.pending)
            && (s.pc.held ==> FillContract(s.rsp, s.pc.pending))
            && (s.pc.i < |s.pc.items| ==> |s.pc.items[s.pc.i].frame| <= RSP_PAYLOAD_MAX)
  {
    RunKeepsInv(ss, moves, i);
    var rsp := ss[i].rsp;
    UnpublishedIsStaged(rsp);
    forall j | 0 <= j < |rsp.staged| ensures rsp.staged[j].slot < |rsp.slots| {
      StagedSlotInRange(rsp, j);
    }
    FlushContract(ss[i]);
  }
}
