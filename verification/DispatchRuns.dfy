/** What the moves of a run say about the replies that come out of it: each carries what its
    request's handler returned, and none goes missing without a move that drops it. */
module DispatchRuns {
  import opened Words
  import opened Wrappers
  import opened Codec
  import opened SpscRing
  import opened Dispatch
  import opened DispatchProof

  // ---- what the handlers returned ----

  function Record(outs: map<Origin, Outcome>, m: Move): map<Origin, Outcome> {
    if m.Business? && m.tm.RunTask? then outs[m.tm.o := m.tm.outcome] else outs
  }

  /** For each request whose task has run, what its handler returned. */
  function Outcomes(moves: seq<Move>): map<Origin, Outcome> {
    if moves == [] then map[] else Record(Outcomes(moves[..|moves| - 1]), moves[|moves| - 1])
  }

  /** The reply is the handler's frame for that request, with the request's number in it. */
  ghost predicate CarriesResult(outs: map<Origin, Outcome>, r: Reply) {
    && r.origin in outs && outs[r.origin].Returned?
    && exists f: Frame ::
         Sendable(f) && outs[r.origin].bytes == Wire(f) && r.frame == Wire(f.(seqNo := r.seqNo))
  }

  ghost predicate ResultsOk(line: seq<Reply>, outs: map<Origin, Outcome>) {
    forall k | 0 <= k < |line| :: CarriesResult(outs, line[k])
  }

  lemma LineKeepsResults(line: seq<Reply>, line': seq<Reply>, outs: map<Origin, Outcome>)
    requires ResultsOk(line, outs) && forall r | r in line' :: r in line
    ensures ResultsOk(line', outs)
  {
    forall k | 0 <= k < |line'| ensures CarriesResult(outs, line'[k]) {
      assert line'[k] in line';
      var j :| 0 <= j < |line| && line[j] == line'[k];
    }
  }

  lemma FlushKeepsResults(s: Sys, a: FlushMove, outs: map<Origin, Outcome>)
    requires Shaped(s) && FlushAllowed(s, a) && FlushOk(s.pc, s.rsp) && LineOk(s.reqs, Line(s))
    requires ResultsOk(Line(s), outs)
    ensures ResultsOk(Line(FlushNext(s, a)), outs)
  {
    var kept, lost := FlushMovesAlongLine(s, a);
    LineKeepsResults(Line(s), Line(FlushNext(s, a)), outs);
  }

  lemma RunTaskKeepsResults(s: Sys, o: Origin, outcome: Outcome, outs: map<Origin, Outcome>)
    requires TaskAllowed(s, RunTask(o, outcome)) && PendingOk(s.pc, s.tasks, Line(s)) && ResultsOk(Line(s), outs)
    ensures ResultsOk(Line(AfterTask(s, o, outcome)), outs[o := outcome])
  {
    var s', outs' := AfterTask(s, o, outcome), outs[o := outcome];
    forall k | 0 <= k < |Line(s)| ensures CarriesResult(outs', Line(s)[k]) {
      assert CarriesResult(outs, Line(s)[k]);
    }
    if |s'.replies| == |s.replies| {
      assert Line(s') == Line(s);
    } else {
      var r := s'.replies[|s.replies|];
      var f: Frame :| Sendable(f) && outcome.bytes == Wire(f);
      StampedWire(f, r.seqNo);
      assert CarriesResult(outs', r);
      assert Line(s') == Line(s) + [r];
    }
  }

  ghost predicate AllCarried(s: Sys, outs: map<Origin, Outcome>) {
    ResultsOk(Line(s), outs)
  }

  lemma GatewayKeepsResults(s: Sys, a: GatewayMove, outs: map<Origin, Outcome>)
    requires DispatchProof.Inv(s) && Allowed(s, Gw(a)) && AllCarried(s, outs)
    ensures AllCarried(Next(s, Gw(a)), Record(outs, Gw(a)))
  {
    GatewayFrame(s, a);
    assert Line(GatewayNext(s, a)) == Line(s);
  }

  lemma ReaderKeepsResults(s: Sys, a: ReaderMove, outs: map<Origin, Outcome>)
    requires DispatchProof.Inv(s) && Allowed(s, Reader(a)) && AllCarried(s, outs)
    ensures AllCarried(Next(s, Reader(a)), Record(outs, Reader(a)))
  {
    ReaderFrame(s, a);
    assert Line(ReaderNext(s, a)) == Line(s);
  }

  lemma FlusherKeepsResults(s: Sys, a: FlushMove, outs: map<Origin, Outcome>)
    requires DispatchProof.Inv(s) && Allowed(s, Flusher(a)) && AllCarried(s, outs)
    ensures AllCarried(Next(s, Flusher(a)), Record(outs, Flusher(a)))
  {
    FlushKeepsResults(s, a, outs);
  }

  lemma BusinessKeepsResults(s: Sys, a: TaskMove, outs: map<Origin, Outcome>)
    requires DispatchProof.Inv(s) && Allowed(s, Business(a)) && AllCarried(s, outs)
    ensures AllCarried(Next(s, Business(a)), Record(outs, Business(a)))
  {
    match a
    case RunTask(o, outcome) => RunTaskKeepsResults(s, o, outcome, outs);
    case ReturnQuota(_) => assert Line(TaskNext(s, a)) == Line(s);
  }

  lemma MoveKeepsResults(s: Sys, m: Move, outs: map<Origin, Outcome>)
    requires DispatchProof.Inv(s) && Allowed(s, m) && AllCarried(s, outs)
    ensures AllCarried(Next(s, m), Record(outs, m))
  {
    match m
    case Gw(gm) => GatewayKeepsResults(s, gm, outs);
    case Reader(rm) => ReaderKeepsResults(s, rm, outs);
    case Flusher(fm) => FlusherKeepsResults(s, fm, outs);
    case Business(tm) => BusinessKeepsResults(s, tm, outs);
  }

  lemma OutcomesGrow(moves: seq<Move>, n: nat)
    requires n < |moves|
    ensures Outcomes(moves[..n + 1]) == Record(Outcomes(moves[..n]), moves[n])
  {
    assert moves[..n + 1][..n] == moves[..n];
  }

  lemma RunStep(ss: seq<Sys>, moves: seq<Move>, n: nat)
    requires Dispatch.IsRun(ss, moves) && n < |moves|
    ensures DispatchProof.Inv(ss[n]) && Allowed(ss[n], moves[n]) && ss[n + 1] == Next(ss[n], moves[n])
  {
    RunKeepsInv(ss, moves, n);
  }

  lemma InitIsEmpty(s: Sys)
    requires Dispatch.Init(s)
    ensures Line(s) == [] && forall w | 0 <= w < |s.reqs| :: s.reqs[w].got == []
  {
  }

  lemma StepKeepsResults(ss: seq<Sys>, moves: seq<Move>, n: nat)
    requires Dispatch.IsRun(ss, moves) && n < |moves| && AllCarried(ss[n], Outcomes(moves[..n]))
    ensures AllCarried(ss[n + 1], Outcomes(moves[..n + 1]))
  {
    RunStep(ss, moves, n);
    OutcomesGrow(moves, n);
    MoveKeepsResults(ss[n], moves[n], Outcomes(moves[..n]));
  }

  lemma {:induction false} RunKeepsResults(ss: seq<Sys>, moves: seq<Move>, i: nat)
    requires Dispatch.IsRun(ss, moves) && i < |ss|
    ensures AllCarried(ss[i], Outcomes(moves[..i]))
  {
    if i == 0 {
      InitIsEmpty(ss[0]);
    } else {
      RunKeepsResults(ss, moves, i - 1);
      StepKeepsResults(ss, moves, i - 1);
    }
  }

  /** What the client decodes: the handler's event and payload under the request's number. */
  ghost predicate DeliversResult(outs: map<Origin, Outcome>, d: Delivery, q: Request) {
    && d.reply.origin in outs && outs[d.reply.origin].Returned?
    && var was, now := DecodeFrame(outs[d.reply.origin].bytes), DecodeFrame(d.reply.frame);
    && was.Decoded? && was.consumed == |outs[d.reply.origin].bytes|
    && now == Decoded(Frame(was.frame.eventId, q.seqNo, was.frame.payload), |d.reply.frame|)
  }

  lemma DeliveryCarriesResult(s: Sys, outs: map<Origin, Outcome>, k: nat)
    requires DispatchProof.Inv(s) && AllCarried(s, outs) && k < |s.gw.delivered|
    ensures var o := s.gw.delivered[k].reply.origin;
            && o.ring < |s.reqs| && o.index < |s.reqs[o.ring].sent|
            && DeliversResult(outs, s.gw.delivered[k], s.reqs[o.ring].sent[o.index])
  {
    var d := s.gw.delivered[k];
    DeliveryIsInLine(s, k);
    assert Answers(s.reqs, Line(s)[d.at]) && CarriesResult(outs, d.reply);
    var f: Frame :|
      && Sendable(f) && outs[d.reply.origin].bytes == Wire(f)
      && d.reply.frame == Wire(f.(seqNo := d.reply.seqNo));
    DecodeAfterEncode(f, []);
    DecodeAfterEncode(f.(seqNo := d.reply.seqNo), []);
    assert Wire(f) + [] == Wire(f) && d.reply.frame + [] == d.reply.frame;
  }

  /** Every delivered reply carries what the handler returned when its request's task ran. */
  lemma DeliveriesCarryResults(ss: seq<Sys>, moves: seq<Move>, i: nat, k: nat)
    requires Dispatch.IsRun(ss, moves) && i < |ss| && k < |ss[i].gw.delivered|
    ensures var s := ss[i];
            var o := s.gw.delivered[k].reply.origin;
            && o.ring < |s.reqs| && o.index < |s.reqs[o.ring].sent|
            && DeliversResult(Outcomes(moves[..i]), s.gw.delivered[k], s.reqs[o.ring].sent[o.index])
  {
    RunKeepsInv(ss, moves, i);
    RunKeepsResults(ss, moves, i);
    DeliveryCarriesResult(ss[i], Outcomes(moves[..i]), k);
  }

  // ---- nothing goes missing ----

  /** The moves that drop something: a slot that could not be copied, a task that could not be
      posted, a flush that gave up on a full ring. */
  predicate Drops(m: Move) {
    || m == Reader(ReadSlot(false)) || m == Reader(PostTask(false))
    || (m.Flusher? && m.fm.FlushReserve? && m.fm.giveUp)
  }

  predicate HasReply(line: seq<Reply>, o: Origin) {
    exists k :: 0 <= k < |line| && line[k].origin == o
  }

  /** A request that was heard is being posted, or has a task to run, or its task has run; and if
      it wants an answer and its handler returned one, a reply for it is on its way. */
  ghost predicate Served(s: Sys, outs: map<Origin, Outcome>, o: Origin)
    requires Heard(s.reqs, o)
  {
    || (s.pc.Posting? && s.pc.origin == o)
    || (o in s.tasks && !s.tasks[o].done)
    || (o in outs &&
        (outs[o].Returned? && outs[o].bytes != [] && !s.reqs[o.ring].got[o.index].oneWay ==> HasReply(Line(s), o)))
  }

  ghost predicate AllServed(s: Sys, outs: map<Origin, Outcome>) {
    forall o: Origin | Heard(s.reqs, o) :: Served(s, outs, o)
  }

  lemma GatewayKeepsServed(s: Sys, a: GatewayMove, outs: map<Origin, Outcome>)
    requires Shaped(s) && GatewayAllowed(s, a) && AllServed(s, outs)
    ensures AllServed(GatewayNext(s, a), outs)
  {
    GatewayFrame(s, a);
    var s' := GatewayNext(s, a);
    assert |s'.reqs| == |s.reqs| && forall w | 0 <= w < |s.reqs| :: s'.reqs[w].got == s.reqs[w].got;
    forall o: Origin | Heard(s'.reqs, o) ensures Served(s', outs, o) {
      assert Heard(s.reqs, o) && Served(s, outs, o);
    }
  }

  lemma FlushKeepsWholeLine(s: Sys, a: FlushMove)
    requires Shaped(s) && FlushAllowed(s, a) && FlushOk(s.pc, s.rsp) && LineOk(s.reqs, Line(s))
    requires !Drops(Flusher(a))
    ensures Line(FlushNext(s, a)) == Line(s)
  {
    match a
    case FlushReserve(t, giveUp) =>
      NextItemFits(s);
      var rsp := Step(s.rsp, Reserve(t));
      if |rsp.staged| != |s.rsp.staged| {
        SlotObtainedKeepsLine(s, t, giveUp);
      } else {
        FullRingMovesAlongLine(s, rsp);
      }
    case FlushEnd => EndMovesAlongLine(s);
    case DrainReplies => DrainKeepsLine(s);
    case FlushFill => FillKeepsLine(s);
  }

  lemma FlushKeepsServed(s: Sys, a: FlushMove, outs: map<Origin, Outcome>)
    requires Shaped(s) && FlushAllowed(s, a) && FlushOk(s.pc, s.rsp) && LineOk(s.reqs, Line(s))
    requires !Drops(Flusher(a)) && AllServed(s, outs)
    ensures AllServed(FlushNext(s, a), outs)
  {
    FlushFrame(s, a);
    FlushKeepsWholeLine(s, a);
    var s' := FlushNext(s, a);
    assert !s.pc.Posting?;
    forall o: Origin | Heard(s'.reqs, o) ensures Served(s', outs, o) {
      assert Served(s, outs, o);
    }
  }

  lemma ReadKeepsServed(s: Sys, outs: map<Origin, Outcome>)
    requires Shaped(s) && AtRing(s, Read) && RequestsOk(s.reqs, s.gw) && AllServed(s, outs)
    requires Step(s.reqs[s.pc.ring], Read).got[|s.reqs[s.pc.ring].got|] in s.reqs[s.pc.ring].sent
    ensures AllServed(AfterRead(s, true), outs)
  {
    var s', w := AfterRead(s, true), s.pc.ring;
    ReaderFrame(s, ReadSlot(true));
    var q := s'.reqs[w].got[|s.reqs[w].got|];
    assert RingRequestsOk(s.reqs[w], s.gw) && FromConnection(s.gw, q);
    forall o: Origin | Heard(s'.reqs, o) ensures Served(s', outs, o) {
      if o != Origin(w, |s.reqs[w].got|) {
        assert Heard(s.reqs, o) && Served(s, outs, o);
        assert s'.reqs[o.ring].got[o.index] == s.reqs[o.ring].got[o.index];
      }
    }
  }

  /** The other reader moves hear nothing new. */
  lemma ReaderHearsNothing(s: Sys, a: ReaderMove)
    requires Shaped(s) && ReaderAllowed(s, a) && !a.ReadSlot?
    ensures var s' := ReaderNext(s, a);
            |s'.reqs| == |s.reqs| && forall w | 0 <= w < |s.reqs| :: s'.reqs[w].got == s.reqs[w].got
  {
  }

  lemma OtherReaderKeepsServed(s: Sys, a: ReaderMove, outs: map<Origin, Outcome>)
    requires Shaped(s) && ReaderAllowed(s, a) && !a.ReadSlot? && a != PostTask(false) && AllServed(s, outs)
    ensures AllServed(ReaderNext(s, a), outs)
  {
    var s' := ReaderNext(s, a);
    ReaderFrame(s, a);
    ReaderHearsNothing(s, a);
    forall o: Origin | Heard(s'.reqs, o) ensures Served(s', outs, o) {
      assert Heard(s.reqs, o) && Served(s, outs, o);
    }
  }

  lemma HeardIsSent(r: Ring<Request>)
    requires SpscRing.Inv(r) && Enabled(r, Read)
    ensures Step(r, Read).got[|r.got|] in r.sent
  {
    ReadReturnsNext(r);
  }

  lemma ReaderKeepsServed(s: Sys, a: ReaderMove, outs: map<Origin, Outcome>)
    requires Shaped(s) && RingsOk(s.reqs, s.rsp) && RequestsOk(s.reqs, s.gw)
    requires ReaderAllowed(s, a) && !Drops(Reader(a)) && AllServed(s, outs)
    ensures AllServed(ReaderNext(s, a), outs)
  {
    if a.ReadSlot? {
      HeardIsSent(s.reqs[s.pc.ring]);
      ReadKeepsServed(s, outs);
    } else {
      OtherReaderKeepsServed(s, a, outs);
    }
  }

  lemma MoreRepliesKeepReply(line: seq<Reply>, line': seq<Reply>, o: Origin)
    requires line <= line' && HasReply(line, o)
    ensures HasReply(line', o)
  {
    var k :| 0 <= k < |line| && line[k].origin == o;
    assert line'[k].origin == o;
  }

  /** A task that returns an answer to a request that wants one queues it last. */
  lemma RunTaskReplies(s: Sys, o: Origin, outcome: Outcome)
    requires TaskAllowed(s, RunTask(o, outcome))
    ensures var s' := AfterTask(s, o, outcome);
            && Line(s) <= Line(s')
            && (outcome.Returned? && outcome.bytes != [] && !s.tasks[o].req.oneWay ==> HasReply(Line(s'), o))
  {
    var s' := AfterTask(s, o, outcome);
    if outcome.Returned? && outcome.bytes != [] && !s.tasks[o].req.oneWay {
      StampedIsGood(outcome.bytes, s.tasks[o].req.seqNo);
      var r := s'.replies[|s.replies|];
      assert Line(s') == Line(s) + [r] && Line(s')[|Line(s)|].origin == o;
    } else {
      assert Line(s') == Line(s);
    }
  }

  lemma RunTaskKeepsServed(s: Sys, o: Origin, outcome: Outcome, outs: map<Origin, Outcome>)
    requires TaskAllowed(s, RunTask(o, outcome)) && AllServed(s, outs) && TasksOk(s.reqs, s.pc, s.tasks)
    ensures AllServed(AfterTask(s, o, outcome), outs[o := outcome])
  {
    var s' := AfterTask(s, o, outcome);
    RunTaskReplies(s, o, outcome);
    forall p: Origin | Heard(s'.reqs, p) ensures Served(s', outs[o := outcome], p) {
      assert Served(s, outs, p);
      if HasReply(Line(s), p) {
        MoreRepliesKeepReply(Line(s), Line(s'), p);
      }
    }
  }

  lemma TaskKeepsServed(s: Sys, a: TaskMove, outs: map<Origin, Outcome>)
    requires TaskAllowed(s, a) && AllServed(s, outs) && TasksOk(s.reqs, s.pc, s.tasks)
    ensures AllServed(TaskNext(s, a), Record(outs, Business(a)))
  {
    match a
    case RunTask(o, outcome) => RunTaskKeepsServed(s, o, outcome, outs);
    case ReturnQuota(_) =>
      var s' := TaskNext(s, a);
      forall o: Origin | Heard(s'.reqs, o) ensures Served(s', outs, o) {
        assert Served(s, outs, o) && Line(s') == Line(s);
      }
  }

  lemma GatewayMoveServes(s: Sys, a: GatewayMove, outs: map<Origin, Outcome>)
    requires DispatchProof.Inv(s) && Allowed(s, Gw(a)) && AllServed(s, outs)
    ensures AllServed(Next(s, Gw(a)), Record(outs, Gw(a)))
  {
    GatewayKeepsServed(s, a, outs);
  }

  lemma ReaderMoveServes(s: Sys, a: ReaderMove, outs: map<Origin, Outcome>)
    requires DispatchProof.Inv(s) && Allowed(s, Reader(a)) && !Drops(Reader(a)) && AllServed(s, outs)
    ensures AllServed(Next(s, Reader(a)), Record(outs, Reader(a)))
  {
    ReaderKeepsServed(s, a, outs);
  }

  lemma FlushMoveServes(s: Sys, a: FlushMove, outs: map<Origin, Outcome>)
    requires DispatchProof.Inv(s) && Allowed(s, Flusher(a)) && !Drops(Flusher(a)) && AllServed(s, outs)
    ensures AllServed(Next(s, Flusher(a)), Record(outs, Flusher(a)))
  {
    FlushKeepsServed(s, a, outs);
  }

  lemma TaskMoveServes(s: Sys, a: TaskMove, outs: map<Origin, Outcome>)
    requires DispatchProof.Inv(s) && Allowed(s, Business(a)) && AllServed(s, outs)
    ensures AllServed(Next(s, Business(a)), Record(outs, Business(a)))
  {
    TaskKeepsServed(s, a, outs);
  }

  lemma MoveKeepsServed(s: Sys, m: Move, outs: map<Origin, Outcome>)
    requires DispatchProof.Inv(s) && Allowed(s, m) && !Drops(m) && AllServed(s, outs)
    ensures AllServed(Next(s, m), Record(outs, m))
  {
    match m
    case Gw(gm) => GatewayMoveServes(s, gm, outs);
    case Reader(rm) => ReaderMoveServes(s, rm, outs);
    case Flusher(fm) => FlushMoveServes(s, fm, outs);
    case Business(tm) => TaskMoveServes(s, tm, outs);
  }

  /** On a run without dropping moves, every request heard is served: it is being posted, its task
      is still to run, or its task has run and its reply, if it has one, is on the line to the
      gateway. */
  lemma {:induction false} EveryRequestIsServed(ss: seq<Sys>, moves: seq<Move>, i: nat)
    requires Dispatch.IsRun(ss, moves) && i < |ss| && forall j | 0 <= j < i :: !Drops(moves[j])
    ensures AllServed(ss[i], Outcomes(moves[..i]))
  {
    if i == 0 {
      InitIsEmpty(ss[0]);
    } else {
      EveryRequestIsServed(ss, moves, i - 1);
      RunStep(ss, moves, i - 1);
      OutcomesGrow(moves, i - 1);
      MoveKeepsServed(ss[i - 1], moves[i - 1], Outcomes(moves[..i - 1]));
    }
  }

  /** A reply the gateway reads while its connection is open, and does not refuse, is delivered to
      it: the next one of the response ring, last in the list. */
  lemma ReadReplyIsDelivered(s: Sys)
    requires DispatchProof.Inv(s) && GatewayAllowed(s, GatewayRead(true))
    requires |s.rsp.got| < |s.rsp.sent| && s.rsp.sent[|s.rsp.got|].conn in s.gw.open
    ensures var n, s' := |s.rsp.got|, GatewayNext(s, GatewayRead(true));
            && s'.rsp.got == s.rsp.sent[..n + 1]
            && s'.gw.delivered == s.gw.delivered + [Delivery(s.gw.open[s.rsp.sent[n].conn], n, s.rsp.sent[n])]
  {
    ReadReturnsNext(s.rsp);
  }

  // ---- connection ids ----

  /** The clients accepted, in order. */
  function Clients(moves: seq<Move>): seq<nat> {
    if moves == [] then []
    else
      var before, last := Clients(moves[..|moves| - 1]), moves[|moves| - 1];
      if last.Gw? && last.gm.Accept? then before + [last.gm.client] else before
  }

  /** Id `c` was given to the client accepted as number `c`, counting from 1. */
  ghost predicate IssuedInOrder(gw: Gateway, cs: seq<nat>) {
    && gw.nextId == |cs| + 1
    && forall c | c in gw.issued :: 1 <= c <= |cs| && gw.issued[c] == cs[c - 1]
  }

  lemma MoveKeepsIds(s: Sys, m: Move, cs: seq<nat>)
    requires Shaped(s) && Allowed(s, m) && IssuedInOrder(s.gw, cs)
    ensures IssuedInOrder(Next(s, m).gw, if m.Gw? && m.gm.Accept? then cs + [m.gm.client] else cs)
  {
  }

  lemma {:induction false} RunIssuesInOrder(ss: seq<Sys>, moves: seq<Move>, i: nat)
    requires Dispatch.IsRun(ss, moves) && i < |ss|
    ensures IssuedInOrder(ss[i].gw, Clients(moves[..i]))
  {
    if i > 0 {
      RunIssuesInOrder(ss, moves, i - 1);
      assert moves[..i][..i - 1] == moves[..i - 1];
      MoveKeepsIds(ss[i - 1], moves[i - 1], Clients(moves[..i - 1]));
    }
  }

  lemma DeliveryNamesIssuedId(s: Sys, cs: seq<nat>, k: nat)
    requires DispatchProof.Inv(s) && IssuedInOrder(s.gw, cs) && k < |s.gw.delivered|
    ensures var d := s.gw.delivered[k]; 1 <= d.reply.conn <= |cs| && d.client == cs[d.reply.conn - 1]
  {
    assert DeliveredOk(s.gw, s.rsp);
  }

  /** A delivered reply went to the client whose accept gave out the id the reply names. */
  lemma DeliveriesReachTheirClient(ss: seq<Sys>, moves: seq<Move>, i: nat, k: nat)
    requires Dispatch.IsRun(ss, moves) && i < |ss| && k < |ss[i].gw.delivered|
    ensures var d, cs := ss[i].gw.delivered[k], Clients(moves[..i]);
            1 <= d.reply.conn <= |cs| && d.client == cs[d.reply.conn - 1]
  {
    RunKeepsInv(ss, moves, i);
    RunIssuesInOrder(ss, moves, i);
    DeliveryNamesIssuedId(ss[i], Clients(moves[..i]), k);
  }
}
