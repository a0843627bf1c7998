/** The client facade: one request of each kind in flight, every accepted request answered or
    failed once, and sequence numbers that restart on each connection and never are 0. */
module ApiBridge {
  import opened Wrappers
  import opened Words

  // ---- event ids ----

  const REQUESTS: set<int> := {0x01, 0x03, 0x05, 0x07, 0x09, 0x11, 0x13, 0x17, 0x19, 0x1B, 0x1D}

  predicate IsKnownResponse(rsp: U16) {
    rsp in {0x02, 0x04, 0x06, 0x08, 0x10, 0x12, 0x14, 0x18, 0x1A, 0x1C, 0x1E}
  }

  /** The records response is the exception to "request plus one". */
  function RspToReq(rsp: U16): U16 {
    if rsp == 0x10 then 0x09 else if rsp == 0 then 0xFFFF else rsp - 1
  }

  datatype Kind = MobileCode | Login | BalanceReady | RecordsReady | NearbyReady | UnlockResult
                | RideEnded | DamageResult | RideDetail | RidesReady

  /** The signal that fails a pending request. */
  function FailureKind(req: U16): Option<Kind> {
    match req
    case 0x01 => Some(MobileCode)
    case 0x03 => Some(Login)
    case 0x05 => Some(BalanceReady)
    case 0x07 => Some(BalanceReady)
    case 0x09 => Some(RecordsReady)
    case 0x11 => Some(NearbyReady)
    case 0x13 => Some(UnlockResult)
    case 0x17 => Some(RideEnded)
    case 0x19 => Some(DamageResult)
    case 0x1B => Some(RideDetail)
    case 0x1D => Some(RidesReady)
    case _ => None
  }

  /** The signal that delivers a response. */
  function ResponseKind(rsp: U16): Option<Kind> {
    match rsp
    case 0x02 => Some(MobileCode)
    case 0x04 => Some(Login)
    case 0x06 => Some(BalanceReady)
    case 0x08 => Some(BalanceReady)
    case 0x10 => Some(RecordsReady)
    case 0x12 => Some(NearbyReady)
    case 0x14 => Some(UnlockResult)
    case 0x18 => Some(RideEnded)
    case 0x1A => Some(DamageResult)
    case 0x1C => Some(RideDetail)
    case 0x1E => Some(RidesReady)
    case _ => None
  }

  /** The event table: which response answers which request, and which signal tells of it. */
  const EVENTS: seq<(int, int, Kind)> := [
    (0x01, 0x02, MobileCode), (0x03, 0x04, Login), (0x05, 0x06, BalanceReady), (0x07, 0x08, BalanceReady),
    (0x09, 0x10, RecordsReady), (0x11, 0x12, NearbyReady), (0x13, 0x14, UnlockResult), (0x17, 0x18, RideEnded),
    (0x19, 0x1A, DamageResult), (0x1B, 0x1C, RideDetail), (0x1D, 0x1E, RidesReady)]

  lemma TableIsFollowed(i: nat)
    requires i < |EVENTS|
    ensures var (req, rsp, kind) := EVENTS[i];
            && 0 <= req < 0x1_0000 && 0 <= rsp < 0x1_0000
            && req in REQUESTS && IsKnownResponse(rsp) && RspToReq(rsp) == req
            && FailureKind(req) == ResponseKind(rsp) == Some(kind)
  {
  }

  /** The known responses correspond one to one to the requests, and answering a request and
      failing it raise the same signal. */
  lemma ResponsesMatchRequests()
    ensures forall rsp: U16 | IsKnownResponse(rsp) ::
              RspToReq(rsp) in REQUESTS && ResponseKind(rsp).Some? && ResponseKind(rsp) == FailureKind(RspToReq(rsp))
    ensures forall a: U16, b: U16 | IsKnownResponse(a) && IsKnownResponse(b) && RspToReq(a) == RspToReq(b) :: a == b
    ensures forall req: U16 | req in REQUESTS :: exists rsp: U16 :: IsKnownResponse(rsp) && RspToReq(rsp) == req
  {
    forall req: U16 | req in REQUESTS ensures exists rsp: U16 :: IsKnownResponse(rsp) && RspToReq(rsp) == req {
      var rsp: U16 := if req == 0x09 then 0x10 else req + 1;
      assert IsKnownResponse(rsp) && RspToReq(rsp) == req;
    }
  }

  // ---- sequence numbers ----

  /** The number of the k-th send on a connection: 1 up to 2^32 - 1, then 1 again. */
  function SeqOf(k: nat): (s: U32)
    requires k >= 1
    ensures s >= 1
  {
    if k == 1 || SeqOf(k - 1) == WORD - 1 then 1 else SeqOf(k - 1) + 1
  }

  lemma {:induction false} SeqOfIsCycle(k: nat)
    requires k >= 1
    ensures SeqOf(k) == (k - 1) % (WORD - 1) + 1
  {
    if k == 1 {
    } else {
      SeqOfIsCycle(k - 1);
      var m := WORD - 1;
      var q, r := (k - 2) / m, (k - 2) % m;
      if r == m - 1 {
        ModIsUnique(k - 1, q + 1, 0, m);
      } else {
        ModIsUnique(k - 1, q, r + 1, m);
      }
    }
  }

  // ---- responses ----

  /** A decoded response: unreadable, or its code, its texts and whatever else it shows. */
  datatype Body = Garbled | Body(code: int, token: string, rideNo: string, rest: string)

  /** The verdict a response signals; the code of a mobile response is not looked at. */
  predicate Succeeds(req: U16, body: Body) {
    && body.Body?
    && (req == 0x01 || body.code == 200)
    && (req == 0x03 ==> body.token != "")
  }

  /** What the signal carries besides the verdict: an unlock that failed shows no ride number. */
  function Carried(req: U16, body: Body): Option<Body> {
    if body.Garbled? then None
    else if req == 0x13 && body.code != 200 then Some(body.(rideNo := ""))
    else Some(body)
  }

  // ---- histories ----

  datatype Happening =
    | Connected
    | Accepted(req: U16, seqNo: U32)
    | Reported(seqNo: U32)
    | Rejected(req: U16)
    | NoRide
    | Answered(req: U16, seqNo: U32, body: Body)
    | GaveUp(req: U16)

  datatype Log = Start | Then(prev: Log, what: Happening)

  function SendsSince(log: Log): nat {
    match log
    case Start => 0
    case Then(prev, h) =>
      if h.Connected? then 0 else if h.Accepted? || h.Reported? then SendsSince(prev) + 1 else SendsSince(prev)
  }

  function Pending(log: Log, req: U16): Option<U32> {
    match log
    case Start => None
    case Then(prev, Accepted(r, s)) => if r == req then Some(s) else Pending(prev, req)
    case Then(prev, Answered(r, _, _)) => if r == req then None else Pending(prev, req)
    case Then(prev, GaveUp(r)) => if r == req then None else Pending(prev, req)
    case Then(prev, _) => Pending(prev, req)
  }

  ghost predicate PendingIs(log: Log, table: map<U16, U32>) {
    forall r: U16 :: Pending(log, r) == if r in table then Some(table[r]) else None
  }

  lemma AcceptedAdds(log: Log, table: map<U16, U32>, r: U16, s: U32)
    requires PendingIs(log, table)
    ensures PendingIs(Then(log, Accepted(r, s)), table[r := s])
  {
  }

  lemma ResultRemoves(log: Log, table: map<U16, U32>, h: Happening)
    requires PendingIs(log, table) && (h.GaveUp? || h.Answered?)
    ensures PendingIs(Then(log, h), table - {h.req})
  {
  }

  lemma OthersKeep(log: Log, table: map<U16, U32>, h: Happening)
    requires PendingIs(log, table) && (h.Connected? || h.Reported? || h.Rejected? || h.NoRide?)
    ensures PendingIs(Then(log, h), table)
  {
  }

  /** A request is accepted only when none of its kind is pending; an answer carries the number of
      the pending request; only pending requests are failed; only others are rejected; every send
      takes the next number of its connection. */
  ghost predicate Lawful(log: Log) {
    match log
    case Start => true
    case Then(prev, h) =>
      && Lawful(prev)
      && match h
         case Connected => true
         case Accepted(r, s) => r in REQUESTS && Pending(prev, r) == None && s == SeqOf(SendsSince(prev) + 1)
         case Reported(s) => s == SeqOf(SendsSince(prev) + 1)
         case Rejected(r) => Pending(prev, r).Some?
         case NoRide => true
         case Answered(r, s, _) => Pending(prev, r) == Some(s)
         case GaveUp(r) => Pending(prev, r).Some?
  }

  datatype Signal = Signal(kind: Kind, ok: bool, data: Option<Body>)

  function SignalFor(req: U16, ok: bool, data: Option<Body>): seq<Signal> {
    match FailureKind(req)
    case Some(k) => [Signal(k, ok, data)]
    case None => []
  }

  /** The signals a history raises, in order. */
  function Signals(log: Log): seq<Signal> {
    match log
    case Start => []
    case Then(prev, Rejected(r)) => Signals(prev) + SignalFor(r, false, None)
    case Then(prev, NoRide) => Signals(prev) + [Signal(RideEnded, false, None)]
    case Then(prev, Answered(r, _, body)) => Signals(prev) + SignalFor(r, Succeeds(r, body), Carried(r, body))
    case Then(prev, GaveUp(r)) => Signals(prev) + SignalFor(r, false, None)
    case Then(prev, _) => Signals(prev)
  }

  /** A request that is rejected, or given up, and an end without a ride raise one bad signal. */
  lemma RefusalsAreSignalled(log: Log, req: U16)
    requires req in REQUESTS
    ensures exists k ::
              && k in {MobileCode, Login, BalanceReady, RecordsReady, NearbyReady, UnlockResult, RideEnded, DamageResult,
                       RideDetail, RidesReady}
              && FailureKind(req) == Some(k)
              && Signals(Then(log, Rejected(req))) == Signals(log) + [Signal(k, false, None)]
              && Signals(Then(log, GaveUp(req))) == Signals(log) + [Signal(k, false, None)]
    ensures Signals(Then(log, NoRide)) == Signals(log) + [Signal(RideEnded, false, None)]
  {
    var k := FailureKind(req).value;
    assert Signals(Then(log, Rejected(req))) == Signals(log) + [Signal(k, false, None)];
  }

  function Sends(log: Log): seq<(U16, U32)> {
    match log
    case Start => []
    case Then(prev, Accepted(r, s)) => Sends(prev) + [(r, s)]
    case Then(prev, Reported(s)) => Sends(prev) + [(0x15, s)]
    case Then(prev, _) => Sends(prev)
  }

  function AcceptedCount(log: Log, req: U16): nat {
    match log
    case Start => 0
    case Then(prev, h) => AcceptedCount(prev, req) + if h.Accepted? && h.req == req then 1 else 0
  }

  function ResultCount(log: Log, req: U16): nat {
    match log
    case Start => 0
    case Then(prev, h) =>
      ResultCount(prev, req) + if (h.Answered? || h.GaveUp?) && h.req == req then 1 else 0
  }

  /** Of every kind of request, as many were accepted as were answered or failed, plus the one in
      flight. */
  lemma {:induction false} EveryRequestGetsOneResult(log: Log, req: U16)
    requires Lawful(log)
    ensures AcceptedCount(log, req) == ResultCount(log, req) + if Pending(log, req).Some? then 1 else 0
  {
    match log
    case Start =>
    case Then(prev, _) => EveryRequestGetsOneResult(prev, req);
  }

  ghost predicate SameAccepted(a: Log, b: Log) {
    forall r: U16 :: AcceptedCount(a, r) == AcceptedCount(b, r)
  }

  /** If nothing was accepted in between and nothing is pending any more, then exactly the requests
      that were pending got a result, one each. */
  lemma EachGotOneResult(before: Log, after: Log, table: map<U16, U32>)
    requires Lawful(before) && Lawful(after) && SameAccepted(before, after)
    requires PendingIs(before, table) && PendingIs(after, map[])
    ensures forall r: U16 :: ResultCount(after, r) == ResultCount(before, r) + if r in table then 1 else 0
  {
    forall r: U16
      ensures ResultCount(after, r) == ResultCount(before, r) + if r in table then 1 else 0
    {
      EveryRequestGetsOneResult(before, r);
      EveryRequestGetsOneResult(after, r);
    }
  }

  lemma {:induction false} NoSendIsZero(log: Log, i: nat)
    requires Lawful(log) && i < |Sends(log)|
    ensures Sends(log)[i].1 != 0
  {
    if i == |Sends(log.prev)| {
    } else {
      NoSendIsZero(log.prev, i);
    }
  }

  /** Some send since the connection began has this number. */
  predicate SentSince(log: Log, s: U32) {
    match log
    case Start => false
    case Then(prev, Connected) => false
    case Then(prev, Accepted(_, t)) => t == s || SentSince(prev, s)
    case Then(prev, Reported(t)) => t == s || SentSince(prev, s)
    case Then(prev, _) => SentSince(prev, s)
  }

  lemma {:induction false} SentIsNumbered(log: Log, s: U32) returns (k: nat)
    requires Lawful(log) && SentSince(log, s)
    ensures 1 <= k <= SendsSince(log) && s == SeqOf(k)
  {
    if (log.what.Accepted? || log.what.Reported?) && log.what.seqNo == s {
      k := SendsSince(log);
    } else {
      k := SentIsNumbered(log.prev, s);
    }
  }

  /** Until a connection has sent 2^32 - 1 frames, its next number is new to it, so an answer can
      only be meant for the request that carries its number. */
  lemma NextNumberIsNew(log: Log)
    requires Lawful(log) && SendsSince(log) < WORD - 1
    ensures !SentSince(log, SeqOf(SendsSince(log) + 1))
  {
    var n := SendsSince(log) + 1;
    forall k | 1 <= k <= n ensures SeqOf(k) == k {
      SeqOfIsCycle(k);
    }
    if SentSince(log, SeqOf(n)) {
      var k := SentIsNumbered(log, SeqOf(n));
      assert false;
    }
  }

  // ---- the facade ----

  datatype Event =
    | Ask(req: U16)
    | Position
    | End
    | ClearRide
    | LinkUp
    | LinkDown
    | Frame(rsp: U16, seqNo: U32, body: Body)

  class Bridge {
    var inFlight: map<U16, U32>
    var seqCounter: U32
    var activeRide: string
    var linkUp: bool
    var saved: string                // the persisted active ride, empty when absent
    var emitted: seq<Signal>
    var sent: seq<(U16, U32)>
    ghost var log: Log

    ghost predicate Valid()
      reads this
    {
      && inFlight.Keys <= REQUESTS
      && Lawful(log)
      && PendingIs(log, inFlight)
      && Counts()
      && emitted == Signals(log) && sent == Sends(log)
      && (activeRide == "" || activeRide == saved)
    }

    ghost predicate Counts()
      reads this`seqCounter, this`log
    {
      seqCounter == if SendsSince(log) == 0 then 0 else SeqOf(SendsSince(log))
    }

    constructor (saved: string)
      ensures Valid() && log == Start && this.saved == saved && activeRide == ""
    {
      inFlight, seqCounter, activeRide, linkUp := map[], 0, "", false;
      this.saved := saved;
      emitted, sent, log := [], [], Start;
    }

    /** Skips 0 when the 32-bit counter wraps around. */
    method NextSeq() returns (s: U32)
      requires Counts()
      modifies this`seqCounter
      ensures seqCounter == s == SeqOf(SendsSince(log) + 1) != 0
    {
      seqCounter := Plus(seqCounter, 1);
      s := seqCounter;
      if s == 0 {
        seqCounter := Plus(seqCounter, 1);
        s := seqCounter;
      }
    }

    /** The common form of the request entries: at most one of each kind in flight. */
    method Request(req: U16)
      requires Valid() && req in REQUESTS
      modifies this
      ensures Valid() && linkUp == old(linkUp) && saved == old(saved) && activeRide == old(activeRide)
      ensures req in old(inFlight) ==> log == Then(old(log), Rejected(req)) && inFlight == old(inFlight)
      ensures req !in old(inFlight) ==>
                && req in inFlight && inFlight == old(inFlight)[req := inFlight[req]]
                && log == Then(old(log), Accepted(req, inFlight[req]))
    {
      if req in inFlight {
        OthersKeep(log, inFlight, Rejected(req));
        emitted := emitted + SignalFor(req, false, None);
        log := Then(log, Rejected(req));
        return;
      }
      var s := NextSeq();
      AcceptedAdds(log, inFlight, req, s);
      inFlight := inFlight[req := s];
      sent := sent + [(req, s)];
      log := Then(log, Accepted(req, s));
    }

    /** One way: takes a number but no slot. */
    method ReportPosition()
      requires Valid()
      modifies this
      ensures Valid() && inFlight == old(inFlight) && activeRide == old(activeRide) && saved == old(saved)
      ensures exists s :: log == Then(old(log), Reported(s))
    {
      var s := NextSeq();
      OthersKeep(log, inFlight, Reported(s));
      sent := sent + [(0x15, s)];
      log := Then(log, Reported(s));
    }

    method EndRide()
      requires Valid()
      modifies this
      ensures Valid() && activeRide == old(activeRide) && saved == old(saved)
      ensures activeRide == "" ==> log == Then(old(log), NoRide) && inFlight == old(inFlight)
      ensures activeRide != "" ==> 0x17 in inFlight
    {
      if activeRide == "" {
        OthersKeep(log, inFlight, NoRide);
        emitted := emitted + [Signal(RideEnded, false, None)];
        log := Then(log, NoRide);
        return;
      }
      Request(0x17);
    }

    method ClearActiveRide()
      requires Valid()
      modifies this`activeRide, this`saved
      ensures Valid() && activeRide == saved == ""
    {
      activeRide, saved := "", "";
    }

    // ---- the link ----

    method GiveUp(r: U16)
      requires emitted == Signals(log)
      modifies this`emitted, this`log
      ensures log == Then(old(log), GaveUp(r)) && emitted == Signals(log)
    {
      emitted := emitted + SignalFor(r, false, None);
      log := Then(log, GaveUp(r));
    }

    /** Fails every pending request, in whatever order the table lists them. */
    method FailInFlight()
      requires Valid()
      modifies this`emitted, this`inFlight, this`log
      ensures Valid() && inFlight == map[]
      ensures SendsSince(log) == SendsSince(old(log))
      ensures forall r: U16 :: ResultCount(log, r) == ResultCount(old(log), r) + if r in old(inFlight) then 1 else 0
    {
      var rest := inFlight;
      while rest != map[]
        modifies this`emitted, this`log
        invariant rest.Keys <= inFlight.Keys && PendingIs(log, rest)
        invariant Lawful(log) && emitted == Signals(log) && sent == Sends(log)
        invariant SendsSince(log) == SendsSince(old(log)) && SameAccepted(old(log), log)
        decreases |rest.Keys|
      {
        assert rest.Keys != {};
        var r :| r in rest;
        ResultRemoves(log, rest, GaveUp(r));
        GiveUp(r);
        rest := rest - {r};
      }
      EachGotOneResult(old(log), log, inFlight);
      inFlight := map[];
    }

    method OnWorkerConnected()
      requires Valid()
      modifies this
      ensures Valid() && inFlight == map[] && linkUp
      ensures seqCounter == 0 && SendsSince(log) == 0
      ensures saved == old(saved) && activeRide == old(activeRide)
    {
      OthersKeep(log, inFlight, Connected);
      seqCounter := 0;
      log := Then(log, Connected);
      FailInFlight();
      linkUp := true;
    }

    method OnWorkerDisconnected()
      requires Valid()
      modifies this
      ensures Valid() && inFlight == map[] && !linkUp
      ensures saved == old(saved) && activeRide == old(activeRide)
    {
      FailInFlight();
      linkUp := false;
    }

    // ---- responses ----

    /** What a response shows: one signal, good exactly if the response is readable and says so, with
        what the response carries; and which ride is active and saved afterwards. */
    twostate predicate Shows(rsp: U16, body: Body)
      reads this`emitted, this`activeRide, this`saved
    {
      && |emitted| == |old(emitted)| + 1 && old(emitted) <= emitted
      && var sig := emitted[|old(emitted)|];
      && (rsp == 0x02 ==> sig.kind == MobileCode && (sig.ok <==> body != Garbled))
      && (rsp == 0x04 ==> sig.kind == Login && (sig.ok <==> body != Garbled && body.code == 200 && body.token != ""))
      && (rsp in {0x06, 0x08} ==> sig.kind == BalanceReady)
      && (rsp == 0x10 ==> sig.kind == RecordsReady)
      && (rsp == 0x12 ==> sig.kind == NearbyReady)
      && (rsp == 0x14 ==> sig.kind == UnlockResult)
      && (rsp == 0x18 ==> sig.kind == RideEnded)
      && (rsp == 0x1A ==> sig.kind == DamageResult)
      && (rsp == 0x1C ==> sig.kind == RideDetail)
      && (rsp == 0x1E ==> sig.kind == RidesReady)
      && (rsp !in {0x02, 0x04} ==> (sig.ok <==> body != Garbled && body.code == 200))
      && (body == Garbled <==> sig.data == None)
      && (rsp != 0x14 && body != Garbled ==> sig.data == Some(body))
      && (rsp == 0x14 && body != Garbled ==>
            sig.data.value == body.(rideNo := if body.code == 200 then body.rideNo else ""))
      && (rsp == 0x14 && body != Garbled && body.code == 200 ==> activeRide == saved == body.rideNo)
      && (rsp == 0x18 && body != Garbled && body.code == 200 ==> activeRide == saved == "")
      && (rsp == 0x04 && body != Garbled && body.code == 200 && body.token != "" ==> activeRide == saved == old(saved))
      && (rsp !in {0x04, 0x14, 0x18} || body == Garbled || body.code != 200 || (rsp == 0x04 && body.token == "") ==>
            activeRide == old(activeRide) && saved == old(saved))
    }

    /** Login restores the saved ride, unlock starts and saves one, end removes it. */
    method HandleFrame(rsp: U16, body: Body)
      requires IsKnownResponse(rsp)
      modifies this`activeRide, this`saved, this`emitted
      ensures Shows(rsp, body) && (old(activeRide) == "" || old(activeRide) == old(saved) ==>
                                     activeRide == "" || activeRide == saved)
      ensures var req := RspToReq(rsp); emitted == old(emitted) + SignalFor(req, Succeeds(req, body), Carried(req, body))
    {
      var req := RspToReq(rsp);
      var ok := Succeeds(req, body);
      if ok && rsp == 0x04 {
        activeRide := saved;
      } else if ok && rsp == 0x14 {
        activeRide, saved := body.rideNo, body.rideNo;
      } else if ok && rsp == 0x18 {
        activeRide, saved := "", "";
      }
      emitted := emitted + [Signal(ResponseKind(rsp).value, ok, Carried(req, body))];
    }

    method Deliver(rsp: U16, body: Body)
      requires Valid() && IsKnownResponse(rsp) && RspToReq(rsp) in inFlight
      modifies this
      ensures Valid() && inFlight == old(inFlight) - {RspToReq(rsp)} && Shows(rsp, body)
      ensures log == Then(old(log), Answered(RspToReq(rsp), old(inFlight)[RspToReq(rsp)], body))
    {
      var req := RspToReq(rsp);
      ResultRemoves(log, inFlight, Answered(req, inFlight[req], body));
      log := Then(log, Answered(req, inFlight[req], body));
      inFlight := inFlight - {req};
      HandleFrame(rsp, body);
    }

    /** A response is delivered exactly when it answers the pending request of its kind, with its
        number; every other frame is dropped. */
    method OnFrameReady(rsp: U16, seqNo: U32, body: Body)
      requires Valid()
      modifies this
      ensures Valid()
      ensures var req := RspToReq(rsp);
              if IsKnownResponse(rsp) && req in old(inFlight) && old(inFlight)[req] == seqNo then
                && inFlight == old(inFlight) - {req} && Shows(rsp, body)
                && log == Then(old(log), Answered(req, seqNo, body))
              else unchanged(this)
    {
      if !IsKnownResponse(rsp) {
        return;
      }
      var req := RspToReq(rsp);
      if req !in inFlight {
        return;
      }
      if inFlight[req] != seqNo {
        return;
      }
      Deliver(rsp, body);
    }

    // ---- whole runs ----

    method Run(events: seq<Event>)
      requires Valid()
      modifies this
      ensures Valid()
      ensures forall r: U16 ::
                AcceptedCount(log, r) == ResultCount(log, r) + if r in inFlight then 1 else 0
      ensures forall i | 0 <= i < |sent| :: sent[i].1 != 0
      ensures events != [] && events[|events| - 1] in {LinkUp, LinkDown} ==> inFlight == map[]
    {
      for i := 0 to |events|
        invariant Valid()
        invariant i > 0 && events[i - 1] in {LinkUp, LinkDown} ==> inFlight == map[]
      {
        match events[i] {
          case Ask(req) =>
            if req in REQUESTS - {0x17} {
              Request(req);
            }
          case Position => ReportPosition();
          case End => EndRide();
          case ClearRide => ClearActiveRide();
          case LinkUp => OnWorkerConnected();
          case LinkDown => OnWorkerDisconnected();
          case Frame(rsp, seqNo, body) => OnFrameReady(rsp, seqNo, body);
        }
      }
      forall r: U16
        ensures AcceptedCount(log, r) == ResultCount(log, r) + if r in inFlight then 1 else 0
      {
        EveryRequestGetsOneResult(log, r);
      }
      forall i | 0 <= i < |sent| ensures sent[i].1 != 0 {
        NoSendIsZero(log, i);
      }
    }
  }
}
