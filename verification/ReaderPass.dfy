/** One pass of the reader over the request rings: no ring is left out. */
module ReaderPass {
  import opened SpscRing
  import opened Dispatch
  import opened DispatchProof
  import opened DispatchRuns

  predicate InPass(pc: Pc) {
    pc.Scan? || pc.Posting?
  }

  /** What the rings held at the beginning is still there, and the rings already passed have been
      read that far. */
  ghost predicate HeardSoFar(before: seq<Ring<Request>>, s: Sys) {
    && InPass(s.pc) && |s.reqs| == |before|
    && (forall w | 0 <= w < |before| :: before[w].sent <= s.reqs[w].sent)
    && (forall w | 0 <= w < |before| && w < s.pc.ring :: before[w].sent <= s.reqs[w].got)
  }

  /** The move does not end a pass, and if it looks at a ring it sees all that was published. */
  ghost predicate LooksAfresh(s: Sys, m: Move) {
    && !(m.Reader? && m.rm.EndPass?)
    && (m.Reader? && m.rm.PopRing? && s.pc.Scan? && s.pc.ring < |s.reqs| ==>
          m.rm.h == |s.reqs[s.pc.ring].sent|)
  }

  /** A pop that sees all that was published and still finds nothing means all has been read. */
  lemma EmptyMeansAllRead(r: Ring<Request>)
    requires SpscRing.Inv(r) && Enabled(r, Pop(|r.sent|, REQ_BATCH)) && Step(r, Pop(|r.sent|, REQ_BATCH)).batch == 0
    ensures r.got == r.sent
  {
    BatchIsExact(r, |r.sent|, REQ_BATCH);
  }

  lemma GatewayKeepsHeard(before: seq<Ring<Request>>, s: Sys, a: GatewayMove)
    requires Shaped(s) && GatewayAllowed(s, a) && HeardSoFar(before, s)
    ensures HeardSoFar(before, GatewayNext(s, a))
  {
  }

  lemma PopKeepsHeard(before: seq<Ring<Request>>, s: Sys, h: nat)
    requires DispatchProof.Inv(s) && HeardSoFar(before, s)
    requires ReaderAllowed(s, PopRing(h)) && h == |s.reqs[s.pc.ring].sent|
    ensures HeardSoFar(before, ReaderNext(s, PopRing(h)))
  {
    var w := s.pc.ring;
    if Step(s.reqs[w], Pop(h, REQ_BATCH)).batch == 0 {
      EmptyMeansAllRead(s.reqs[w]);
    }
  }

  lemma ReaderKeepsHeard(before: seq<Ring<Request>>, s: Sys, a: ReaderMove)
    requires Shaped(s) && ReaderAllowed(s, a) && HeardSoFar(before, s) && !a.PopRing? && !a.EndPass?
    ensures HeardSoFar(before, ReaderNext(s, a))
  {
  }

  lemma OthersKeepHeard(before: seq<Ring<Request>>, s: Sys, m: Move)
    requires Shaped(s) && Allowed(s, m) && HeardSoFar(before, s) && (m.Flusher? || m.Business?)
    ensures HeardSoFar(before, Next(s, m))
  {
  }

  lemma MoveKeepsHeard(before: seq<Ring<Request>>, s: Sys, m: Move)
    requires DispatchProof.Inv(s) && Allowed(s, m) && HeardSoFar(before, s) && LooksAfresh(s, m)
    ensures HeardSoFar(before, Next(s, m))
  {
    match m
    case Gw(a) => GatewayKeepsHeard(before, s, a);
    case Reader(PopRing(h)) => PopKeepsHeard(before, s, h);
    case Reader(a) => ReaderKeepsHeard(before, s, a);
    case _ => OthersKeepHeard(before, s, m);
  }

  /** From step `i` to step `j` the reader is in one pass, begun at the first ring. */
  ghost predicate IsPass(ss: seq<Sys>, moves: seq<Move>, i: nat, j: nat) {
    && i <= j < |ss| && |ss| == |moves| + 1
    && ss[i].pc.Scan? && ss[i].pc.ring == 0
    && forall k | i <= k < j :: LooksAfresh(ss[k], moves[k])
  }

  lemma PassGoesOn(ss: seq<Sys>, moves: seq<Move>, i: nat, n: nat)
    requires IsPass(ss, moves, i, n + 1) && i <= n
    ensures IsPass(ss, moves, i, n) && LooksAfresh(ss[n], moves[n])
  {
  }

  lemma PassBegins(s: Sys)
    requires s.pc.Scan? && s.pc.ring == 0
    ensures HeardSoFar(s.reqs, s)
  {
  }

  lemma HeardGrows(before: seq<Ring<Request>>, ss: seq<Sys>, moves: seq<Move>, n: nat)
    requires Dispatch.IsRun(ss, moves) && n < |moves| && HeardSoFar(before, ss[n]) && LooksAfresh(ss[n], moves[n])
    ensures HeardSoFar(before, ss[n + 1])
  {
    RunStep(ss, moves, n);
    MoveKeepsHeard(before, ss[n], moves[n]);
  }

  lemma {:induction false} PassKeepsHeard(ss: seq<Sys>, moves: seq<Move>, i: nat, j: nat)
    requires Dispatch.IsRun(ss, moves) && IsPass(ss, moves, i, j)
    ensures HeardSoFar(ss[i].reqs, ss[j])
    decreases j
  {
    if i == j {
      PassBegins(ss[i]);
    } else {
      PassGoesOn(ss, moves, i, j - 1);
      PassKeepsHeard(ss, moves, i, j - 1);
      HeardGrows(ss[i].reqs, ss, moves, j - 1);
    }
  }

  /** When a pass that sees what was published is over, every request that any ring held when it
      began has been heard. */
  lemma PassHearsEveryRing(ss: seq<Sys>, moves: seq<Move>, i: nat, j: nat, spin: bool, w: nat)
    requires Dispatch.IsRun(ss, moves) && IsPass(ss, moves, i, j) && ReaderAllowed(ss[j], EndPass(spin))
    requires w < |ss[i].reqs|
    ensures w < |ss[j].reqs| && ss[i].reqs[w].sent <= ss[j].reqs[w].got
  {
    PassKeepsHeard(ss, moves, i, j);
  }

  /** So, if nothing was dropped, such a request then has its task to run or has been answered. */
  lemma PassServesEveryRequest(ss: seq<Sys>, moves: seq<Move>, i: nat, j: nat, spin: bool, o: Origin)
    requires Dispatch.IsRun(ss, moves) && IsPass(ss, moves, i, j) && ReaderAllowed(ss[j], EndPass(spin))
    requires o.ring < |ss[i].reqs| && o.index < |ss[i].reqs[o.ring].sent|
    requires forall k | 0 <= k < j :: !Drops(moves[k])
    ensures var s, q, outs := ss[j], ss[i].reqs[o.ring].sent[o.index], Outcomes(moves[..j]);
            || (o in s.tasks && !s.tasks[o].done)
            || (o in outs && (outs[o].Returned? && outs[o].bytes != [] && !q.oneWay ==> HasReply(Line(s), o)))
  {
    PassHearsEveryRing(ss, moves, i, j, spin, o.ring);
    EveryRequestIsServed(ss, moves, j);
    assert Heard(ss[j].reqs, o) && Served(ss[j], Outcomes(moves[..j]), o);
  }
}
