/** Why the reader samples the in-flight counter before the reply queue. */
module SampleOrder {
  import opened Words
  import opened Codec
  import opened SpscRing
  import opened Dispatch
  import opened DispatchProof

  lemma RunGrows(ss: seq<Sys>, moves: seq<Move>, m: Move)
    requires Dispatch.IsRun(ss, moves)
    requires var s := ss[|moves|]; Shaped(s) && Allowed(s, m)
    ensures Dispatch.IsRun(ss + [Next(ss[|moves|], m)], moves + [m])
  {
    var n := |moves|;
    var ss', moves' := ss + [Next(ss[n], m)], moves + [m];
    forall i | 0 <= i < |moves'|
      ensures Shaped(ss'[i]) && Allowed(ss'[i], moves'[i]) && ss'[i + 1] == Next(ss'[i], moves'[i])
    {
      if i < n {
        assert ss[i + 1] == Next(ss[i], moves[i]);
      }
    }
  }

  /** The reader is about to sample, the queue is empty, and one task is still to answer. */
  ghost predicate AboutToSample(s: Sys, o: Origin) {
    && s.pc == SampleInflight && s.replies == []
    && s.tasks.Keys == {o} && !s.tasks[o].done && !s.tasks[o].req.oneWay
  }

  lemma RunIsShaped(ss: seq<Sys>, moves: seq<Move>)
    requires Dispatch.IsRun(ss, moves)
    ensures Shaped(ss[|moves|])
  {
    RunKeepsInv(ss, moves, |moves|);
  }

  lemma TaskAnswersAndReturns(s: Sys, o: Origin, f: Frame)
    requires AboutToSample(s, o) && s.inflight == 1 && Sendable(f)
    ensures TaskAllowed(s, RunTask(o, Returned(Wire(f))))
    ensures var s1 := TaskNext(s, RunTask(o, Returned(Wire(f))));
            && s1.pc == s.pc && TaskAllowed(s1, ReturnQuota(o))
            && var s2 := TaskNext(s1, ReturnQuota(o));
               s2.pc == s.pc && s2.inflight == 0 && |s2.replies| == 1
  {
    StampedWire(f, 0);
  }

  /** On any run that comes to such a state: had the reader looked at the queue there and at the
      counter two moves later, both would have shown an idle pipeline while a reply was queued. */
  lemma QueueThenCounterIsUnsound(ss: seq<Sys>, moves: seq<Move>, o: Origin, f: Frame)
    returns (ss': seq<Sys>, moves': seq<Move>)
    requires Dispatch.IsRun(ss, moves) && AboutToSample(ss[|moves|], o) && Sendable(f)
    ensures Dispatch.IsRun(ss', moves') && ss <= ss' && moves <= moves' && |moves'| == |moves| + 2
    ensures ss[|moves|].replies == []
    ensures var s := ss'[|moves'|]; s.pc == SampleInflight && s.inflight == 0 && |s.replies| == 1
  {
    var s := ss[|moves|];
    InflightCountsTasks(ss, moves, |moves|);
    assert |s.tasks| == |s.tasks.Keys| == 1;
    TaskAnswersAndReturns(s, o, f);
    var m1, m2 := Business(RunTask(o, Returned(Wire(f)))), Business(ReturnQuota(o));
    RunIsShaped(ss, moves);
    RunGrows(ss, moves, m1);
    var ss1, moves1 := ss + [Next(s, m1)], moves + [m1];
    RunIsShaped(ss1, moves1);
    RunGrows(ss1, moves1, m2);
    ss', moves' := ss1 + [Next(ss1[|moves1|], m2)], moves1 + [m2];
  }

  // ---- such a run exists ----

  ghost predicate Reachable(s: Sys) {
    exists ss: seq<Sys>, moves: seq<Move> :: Dispatch.IsRun(ss, moves) && ss[|moves|] == s
  }

  lemma Reach(s: Sys, m: Move, s': Sys)
    requires Reachable(s) && Shaped(s) && Allowed(s, m) && s' == Next(s, m)
    ensures Reachable(s')
  {
    var ss: seq<Sys>, moves: seq<Move> :| Dispatch.IsRun(ss, moves) && ss[|moves|] == s;
    RunGrows(ss, moves, m);
    var ss', moves' := ss + [s'], moves + [m];
    assert Dispatch.IsRun(ss', moves') && ss'[|moves'|] == s';
  }

  /** A state with one request ring and an idle response side. */
  function At(r: Ring<Request>, gw: Gateway, pc: Pc, tasks: map<Origin, Task>, inflight: nat): Sys {
    var p := Reply(Origin(0, 0), 0, 0, []);
    Sys([r], Ring(0, 0, [p, p], Producer(0, 0, 0), [], 0, 0, 0, [], [], 0, 0, 0), gw, pc, tasks, [], inflight, [], false)
  }

  lemma AtIsShaped(r: Ring<Request>, gw: Gateway, pc: Pc, tasks: map<Origin, Task>, inflight: nat)
    requires Capacity(|r.slots|)
    ensures Shaped(At(r, gw, pc, tasks, inflight))
  {
    assert Capacity(2);
  }

  lemma OnRing(r: Ring<Request>, a: Action<Request>, gw: Gateway, pc: Pc, tasks: map<Origin, Task>, inflight: nat)
    requires Capacity(|r.slots|) && Enabled(r, a)
    ensures SetRing(At(r, gw, pc, tasks, inflight), 0, a) == At(Step(r, a), gw, pc, tasks, inflight)
  {
    assert [r][0 := Step(r, a)] == [Step(r, a)];
  }

  lemma WriteMove(r: Ring<Request>, a: Action<Request>, gw: Gateway)
    requires Reachable(At(r, gw, SampleInflight, map[], 0)) && Capacity(|r.slots|) && Enabled(r, a)
    requires a.Reserve? || a.PublishStaged? || (a.Fill? && FromConnection(gw, a.packet))
    ensures Reachable(At(Step(r, a), gw, SampleInflight, map[], 0))
  {
    var s := At(r, gw, SampleInflight, map[], 0);
    AtIsShaped(r, gw, SampleInflight, map[], 0);
    OnRing(r, a, gw, SampleInflight, map[], 0);
    Reach(s, Gw(WorkerWrite(0, a)), At(Step(r, a), gw, SampleInflight, map[], 0));
  }

  lemma LoadMoves(r: Ring<Request>, gw: Gateway)
    requires Reachable(At(r, gw, SampleInflight, map[], 0)) && Capacity(|r.slots|)
    ensures Reachable(At(r, gw, Scan(Long, First, 0, false), map[], 0))
  {
    AtIsShaped(r, gw, SampleInflight, map[], 0);
    Reach(At(r, gw, SampleInflight, map[], 0), Reader(LoadInflight(0)), At(r, gw, SampleSize(false), map[], 0));
    AtIsShaped(r, gw, SampleSize(false), map[], 0);
    Reach(At(r, gw, SampleSize(false), map[], 0), Reader(LoadSize), At(r, gw, Scan(Long, First, 0, false), map[], 0));
  }

  lemma PopMove(r: Ring<Request>, h: nat, gw: Gateway, popped: bool, tasks: map<Origin, Task>, inflight: nat)
    requires Reachable(At(r, gw, Scan(Long, First, 0, popped), tasks, inflight))
    requires Capacity(|r.slots|) && Enabled(r, Pop(h, REQ_BATCH))
    ensures var r' := Step(r, Pop(h, REQ_BATCH));
            var pc := if r'.batch == 0 then Scan(Long, First, 1, popped) else Scan(Long, First, 0, true);
            Reachable(At(r', gw, pc, tasks, inflight))
  {
    var r' := Step(r, Pop(h, REQ_BATCH));
    var pc := if r'.batch == 0 then Scan(Long, First, 1, popped) else Scan(Long, First, 0, true);
    AtIsShaped(r, gw, Scan(Long, First, 0, popped), tasks, inflight);
    OnRing(r, Pop(h, REQ_BATCH), gw, Scan(Long, First, 0, popped), tasks, inflight);
    Reach(At(r, gw, Scan(Long, First, 0, popped), tasks, inflight), Reader(PopRing(h)), At(r', gw, pc, tasks, inflight));
  }

  /** Reading a slot, counting the request and posting its task. */
  lemma PostMoves(r: Ring<Request>, gw: Gateway)
    requires Reachable(At(r, gw, Scan(Long, First, 0, true), map[], 0))
    requires Capacity(|r.slots|) && Enabled(r, Read) && r.got == []
    requires |Step(r, Read).got[0].payload| <= REQ_PAYLOAD_MAX
    ensures var r' := Step(r, Read);
            Reachable(At(r', gw, Scan(Long, First, 0, true), map[Origin(0, 0) := Task(r'.got[0], false)], 1))
  {
    var r' := Step(r, Read);
    var q := r'.got[0];
    var posting := At(r', gw, Posting(Long, First, 0, Origin(0, 0), q), map[], 1);
    AtIsShaped(r, gw, Scan(Long, First, 0, true), map[], 0);
    OnRing(r, Read, gw, Scan(Long, First, 0, true), map[], 0);
    Reach(At(r, gw, Scan(Long, First, 0, true), map[], 0), Reader(ReadSlot(true)), posting);
    AtIsShaped(r', gw, Posting(Long, First, 0, Origin(0, 0), q), map[], 1);
    Reach(posting, Reader(PostTask(true)), At(r', gw, Scan(Long, First, 0, true), map[Origin(0, 0) := Task(q, false)], 1));
  }

  lemma ReleaseMove(r: Ring<Request>, gw: Gateway, tasks: map<Origin, Task>, inflight: nat)
    requires Reachable(At(r, gw, Scan(Long, First, 0, true), tasks, inflight))
    requires Capacity(|r.slots|) && Enabled(r, Release)
    ensures Reachable(At(Step(r, Release), gw, Scan(Long, First, 0, true), tasks, inflight))
  {
    AtIsShaped(r, gw, Scan(Long, First, 0, true), tasks, inflight);
    OnRing(r, Release, gw, Scan(Long, First, 0, true), tasks, inflight);
    Reach(At(r, gw, Scan(Long, First, 0, true), tasks, inflight), Reader(ReleaseRing),
          At(Step(r, Release), gw, Scan(Long, First, 0, true), tasks, inflight));
  }

  lemma LastMoves(r: Ring<Request>, gw: Gateway, tasks: map<Origin, Task>, inflight: nat)
    requires Reachable(At(r, gw, Scan(Long, First, 1, true), tasks, inflight)) && Capacity(|r.slots|)
    ensures Reachable(At(r, gw, SampleInflight, tasks, inflight))
  {
    AtIsShaped(r, gw, Scan(Long, First, 1, true), tasks, inflight);
    Reach(At(r, gw, Scan(Long, First, 1, true), tasks, inflight), Reader(EndPass(false)),
          At(r, gw, Drain, tasks, inflight));
    AtIsShaped(r, gw, Drain, tasks, inflight);
    Reach(At(r, gw, Drain, tasks, inflight), Flusher(DrainReplies), At(r, gw, SampleInflight, tasks, inflight));
  }

  lemma Again(r: Ring<Request>, r': Ring<Request>, gw: Gateway, tasks: map<Origin, Task>, inflight: nat)
    requires Reachable(At(r, gw, Scan(Long, First, 0, true), tasks, inflight))
    requires Capacity(|r.slots|) && Enabled(r, Release) && Step(r, Release) == r'
    requires Capacity(|r'.slots|) && Enabled(r', Pop(1, REQ_BATCH)) && Step(r', Pop(1, REQ_BATCH)) == r' && r'.batch == 0
    ensures Reachable(At(r', gw, SampleInflight, tasks, inflight))
  {
    ReleaseMove(r, gw, tasks, inflight);
    PopMove(r', 1, gw, true, tasks, inflight);
    LastMoves(r', gw, tasks, inflight);
  }

  // ---- one client, one request ----

  const Q := Request(1, 7, 0x01, false, 5, [])
  const GW := Gateway(2, map[1 := 7], map[1 := 7], [])

  // the request ring, as the request goes through it
  const EMPTY: Ring<Request> := Ring(0, 0, [Q, Q], Producer(0, 0, 0), [], 0, 0, 0, [], [], 0, 0, 0)
  const RESERVED := EMPTY.(prod := Producer(1, 0, 1), staged := [Staged(0, Wrappers.None)])
  const FILLED := RESERVED.(staged := [Staged(0, Wrappers.Some(Q))])
  const PUBLISHED: Ring<Request> := Ring(1, 0, [Q, Q], Producer(1, 1, 0), [], 0, 0, 0, [Q], [], 0, 0, 0)
  const POPPED := PUBLISHED.(batch := 1, seenHead := 1)
  const HEARD := POPPED.(read := 1, got := [Q])
  const RELEASED: Ring<Request> := Ring(1, 1, [Q, Q], Producer(1, 1, 0), [], 1, 0, 0, [Q], [Q], 1, 0, 1)

  lemma WriteSteps()
    ensures Capacity(2)
    ensures Enabled(EMPTY, Reserve(0)) && Step(EMPTY, Reserve(0)) == RESERVED
    ensures Enabled(RESERVED, Fill(0, Q)) && Step(RESERVED, Fill(0, Q)) == FILLED
    ensures Enabled(FILLED, PublishStaged) && Step(FILLED, PublishStaged) == PUBLISHED
  {
    assert Capacity(2);
    assert [Q, Q][0 := Q] == [Q, Q];
    assert Contents(FILLED.staged) == [Q];
  }

  lemma ReadSteps()
    ensures Capacity(2)
    ensures Enabled(PUBLISHED, Pop(1, REQ_BATCH)) && Step(PUBLISHED, Pop(1, REQ_BATCH)) == POPPED
    ensures Enabled(POPPED, Read) && Step(POPPED, Read) == HEARD
    ensures Enabled(HEARD, Release) && Step(HEARD, Release) == RELEASED
    ensures Enabled(RELEASED, Pop(1, REQ_BATCH)) && Step(RELEASED, Pop(1, REQ_BATCH)) == RELEASED
  {
    assert Capacity(2);
  }

  lemma ClientIsAccepted()
    ensures Reachable(At(EMPTY, GW, SampleInflight, map[], 0))
  {
    assert Capacity(2);
    var s0 := At(EMPTY, Gateway(1, map[], map[], []), SampleInflight, map[], 0);
    var none: seq<Move> := [];
    assert Dispatch.IsRun([s0], none) && [s0][|none|] == s0;
    Reach(s0, Gw(Accept(7)), At(EMPTY, GW, SampleInflight, map[], 0));
  }

  lemma RequestIsWritten()
    ensures Reachable(At(PUBLISHED, GW, SampleInflight, map[], 0))
  {
    ClientIsAccepted();
    WriteSteps();
    WriteMove(EMPTY, Reserve(0), GW);
    WriteMove(RESERVED, Fill(0, Q), GW);
    WriteMove(FILLED, PublishStaged, GW);
  }

  lemma TaskIsPosted()
    ensures Reachable(At(HEARD, GW, Scan(Long, First, 0, true), map[Origin(0, 0) := Task(Q, false)], 1))
  {
    RequestIsWritten();
    ReadSteps();
    LoadMoves(PUBLISHED, GW);
    PopMove(PUBLISHED, 1, GW, false, map[], 0);
    PostMoves(POPPED, GW);
  }

  lemma OneTask(r: Ring<Request>, gw: Gateway, q: Request)
    requires !q.oneWay
    ensures AboutToSample(At(r, gw, SampleInflight, map[Origin(0, 0) := Task(q, false)], 1), Origin(0, 0))
  {
  }

  lemma ReaderComesRound()
    ensures Reachable(At(RELEASED, GW, SampleInflight, map[Origin(0, 0) := Task(Q, false)], 1))
  {
    TaskIsPosted();
    ReadSteps();
    Again(HEARD, RELEASED, GW, map[Origin(0, 0) := Task(Q, false)], 1);
  }

  /** Such a run exists: the reader posts a task, gives the slot back, finds ring and queue empty,
      and is about to sample again before the task has run. */
  lemma SamplingStateIsReachable() returns (ss: seq<Sys>, moves: seq<Move>)
    ensures Dispatch.IsRun(ss, moves) && AboutToSample(ss[|moves|], Origin(0, 0))
  {
    ReaderComesRound();
    OneTask(RELEASED, GW, Q);
    ss, moves :| Dispatch.IsRun(ss, moves) &&
                 ss[|moves|] == At(RELEASED, GW, SampleInflight, map[Origin(0, 0) := Task(Q, false)], 1);
  }
}
