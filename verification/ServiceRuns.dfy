/** What holds over any requests in any order. */
module ServiceRuns {
  import opened Wrappers
  import opened RideNo
  import opened Track
  import opened Repos
  import opened Rental
  import opened Service

  ghost predicate IsStep(w: World, q: Request, r: Response, track: seq<RidePoint>, w': World, dist: Metric) {
    TrackFor(w, q, track) && (w', r) == Answer(w, q, track, dist)
  }

  /** `ws[i]` is what `qs[i]` finds, `rs[i]` its answer and `tracks[i]` what it archives, if it does. */
  datatype Run = Run(ws: seq<World>, qs: seq<Request>, rs: seq<Response>, tracks: seq<seq<RidePoint>>)

  ghost predicate IsRun(h: Run, dist: Metric) {
    && |h.ws| == |h.qs| + 1 && |h.rs| == |h.tracks| == |h.qs|
    && (forall i | 0 <= i < |h.qs| :: IsStep(h.ws[i], h.qs[i], h.rs[i], h.tracks[i], h.ws[i + 1], dist))
  }

  lemma RunGrows(h: Run, dist: Metric, q: Request, r: Response, track: seq<RidePoint>, w: World)
    requires IsRun(h, dist) && IsStep(h.ws[|h.qs|], q, r, track, w, dist)
    ensures IsRun(Run(h.ws + [w], h.qs + [q], h.rs + [r], h.tracks + [track]), dist)
  {
    var n, h' := |h.qs|, Run(h.ws + [w], h.qs + [q], h.rs + [r], h.tracks + [track]);
    forall i | 0 <= i < |h'.qs|
      ensures IsStep(h'.ws[i], h'.qs[i], h'.rs[i], h'.tracks[i], h'.ws[i + 1], dist)
    {
      if i < n {
        assert IsStep(h.ws[i], h.qs[i], h.rs[i], h.tracks[i], h.ws[i + 1], dist);
      }
    }
  }

  lemma RunStep(h: Run, dist: Metric, n: nat)
    requires IsRun(h, dist) && n < |h.qs|
    ensures TrackFor(h.ws[n], h.qs[n], h.tracks[n])
    ensures (h.ws[n + 1], h.rs[n]) == Answer(h.ws[n], h.qs[n], h.tracks[n], dist)
  {
    assert IsStep(h.ws[n], h.qs[n], h.rs[n], h.tracks[n], h.ws[n + 1], dist);
  }

  lemma {:induction false} RunKeepsWorld(h: Run, dist: Metric, i: nat)
    requires IsRun(h, dist) && WorldOk(h.ws[0]) && i < |h.ws|
    ensures WorldOk(h.ws[i])
  {
    if i == 0 {
    } else {
      RunKeepsWorld(h, dist, i - 1);
      RunStep(h, dist, i - 1);
      AnswerKeepsWorld(h.ws[i - 1], h.qs[i - 1], h.tracks[i - 1], dist);
    }
  }

  /** What the invariant means: no balance is negative, and each record of an account shows the sum
      of all amounts up to it; a bike with a live ride is not idle and has no other one; and with
      fresh ride numbers every rented bike has its ride. */
  lemma WorldGuarantees(w: World, uid: int, no: string, other: string, b: string)
    requires WorldOk(w)
    ensures uid in w.bal ==> w.bal[uid] >= 0 && uid in w.records && w.bal[uid] == Total(w.records[uid])
    ensures uid in w.records ==>
              var rs := w.records[uid];
              forall i | 0 <= i < |rs| :: rs[i].balanceAfter == Total(rs[..i + 1]) >= 0
    ensures no in w.sessions && b in w.fleet.bikes && w.fleet.bikes[b].id == w.sessions[no].bikeId ==>
              w.fleet.bikes[b].status != Idle
    ensures no in w.sessions && other in w.sessions && w.sessions[no].bikeId == w.sessions[other].bikeId ==> no == other
    ensures w.hist.allFresh && b in w.fleet.bikes && w.fleet.bikes[b].status == Rented ==>
              exists n :: n in w.sessions && w.sessions[n].bikeId == w.fleet.bikes[b].id
  {
    if uid in w.records {
      StatementShowsSums(w.records[uid], w.bal[uid]);
    }
    if w.hist.allFresh && b in w.fleet.bikes && w.fleet.bikes[b].status == Rented {
      assert HasSession(w.sessions, w.fleet.bikes[b].id);
    }
  }

  // ---- fresh ride numbers ----

  /** The ride number a request gives out if it succeeds. */
  function Numbers(q: Request): set<string> {
    if q.UnlockReq? then {RideNoAt(q.now, q.clock)} else {}
  }

  function AllNumbers(qs: seq<Request>): set<string> {
    if qs == [] then {} else AllNumbers(qs[..|qs| - 1]) + Numbers(qs[|qs| - 1])
  }

  ghost predicate DistinctNumbers(qs: seq<Request>) {
    forall i, j | 0 <= i < j < |qs| :: Numbers(qs[i]) !! Numbers(qs[j])
  }

  /** Unlocks in different seconds, with the date read soon after and the year in four digits,
      give out different numbers. */
  lemma DistinctSecondsSuffice(qs: seq<Request>)
    requires forall i | 0 <= i < |qs| && qs[i].UnlockReq? ::
               qs[i].now <= qs[i].clock < qs[i].now + 10 * SECONDS_PER_DAY && Today(qs[i].clock) < Pow10(8)
    requires forall i, j | 0 <= i < j < |qs| && qs[i].UnlockReq? && qs[j].UnlockReq? :: qs[i].now != qs[j].now
    ensures DistinctNumbers(qs)
  {
    forall i, j | 0 <= i < j < |qs| ensures Numbers(qs[i]) !! Numbers(qs[j]) {
      if qs[i].UnlockReq? && qs[j].UnlockReq? {
        DistinctSecondsGiveDistinctNumbers(qs[i].now, qs[i].clock, qs[j].now, qs[j].clock);
      }
    }
  }

  lemma {:induction false} NumberIsFresh(qs: seq<Request>, n: nat, m: nat)
    requires n <= m < |qs| && DistinctNumbers(qs)
    ensures Numbers(qs[m]) !! AllNumbers(qs[..n])
  {
    if n == 0 {
    } else {
      NumberIsFresh(qs, n - 1, m);
      assert qs[..n][..n - 1] == qs[..n - 1];
    }
  }

  /** Numbers are given out by unlocks only, and freshness is lost only by giving one out again. */
  lemma AnswerGivesNumber(w: World, q: Request, track: seq<RidePoint>, dist: Metric)
    ensures var w' := Answer(w, q, track, dist).0;
            && w'.hist.used <= w.hist.used + Numbers(q)
            && (w'.hist.allFresh ==> w.hist.allFresh)
            && (w.hist.allFresh && Numbers(q) !! w.hist.used ==> w'.hist.allFresh)
  {
  }

  /** From a fresh start, requests with distinct numbers keep all numbers fresh. */
  lemma {:induction false} NumbersStayFresh(h: Run, dist: Metric, i: nat)
    requires IsRun(h, dist) && i < |h.ws|
    requires h.ws[0].hist.allFresh && h.ws[0].hist.used == {} && DistinctNumbers(h.qs)
    ensures h.ws[i].hist.allFresh && h.ws[i].hist.used <= AllNumbers(h.qs[..i])
  {
    if i == 0 {
    } else {
      var n := i - 1;
      NumbersStayFresh(h, dist, n);
      NumberIsFresh(h.qs, n, n);
      RunStep(h, dist, n);
      AnswerGivesNumber(h.ws[n], h.qs[n], h.tracks[n], dist);
      assert h.qs[..n + 1][..n] == h.qs[..n];
    }
  }

  // ---- ending a ride twice ----

  /** A receipt is never changed while numbers are fresh. */
  lemma AnswerKeepsReceipt(w: World, q: Request, track: seq<RidePoint>, dist: Metric, no: string)
    requires WorldOk(w) && w.hist.allFresh && no in w.hist.ended
    ensures var w' := Answer(w, q, track, dist).0; no in w'.hist.ended && w'.hist.ended[no] == w.hist.ended[no]
  {
  }

  lemma {:induction false} ReceiptStays(h: Run, dist: Metric, i: nat, j: nat, no: string)
    requires IsRun(h, dist) && WorldOk(h.ws[0]) && i <= j < |h.ws|
    requires h.ws[j].hist.allFresh && no in h.ws[i].hist.ended
    ensures h.ws[i].hist.allFresh && no in h.ws[j].hist.ended && h.ws[j].hist.ended[no] == h.ws[i].hist.ended[no]
  {
    if i == j {
    } else {
      var n := j - 1;
      RunStep(h, dist, n);
      AnswerGivesNumber(h.ws[n], h.qs[n], h.tracks[n], dist);
      ReceiptStays(h, dist, i, n, no);
      RunKeepsWorld(h, dist, n);
      AnswerKeepsReceipt(h.ws[n], h.qs[n], h.tracks[n], dist, no);
    }
  }

  /** The request is for a live ride and is answered with its figures. */
  predicate EndedHere(h: Run, i: nat)
    requires i < |h.qs| && i < |h.ws| && i < |h.rs|
  {
    h.qs[i].EndReq? && h.qs[i].rideNo in h.ws[i].sessions && h.rs[i].Ended?
  }

  lemma EndLeavesReceipt(h: Run, dist: Metric, i: nat)
    requires IsRun(h, dist) && i < |h.qs| && WorldOk(h.ws[i]) && EndedHere(h, i)
    ensures h.qs[i].uid.Some? && h.qs[i].rideNo in h.ws[i + 1].hist.ended
    ensures h.ws[i + 1].hist.ended[h.qs[i].rideNo] ==
            Receipt(h.qs[i].uid.value, h.rs[i].duration, h.rs[i].distance, h.rs[i].amount)
  {
    RunStep(h, dist, i);
  }

  /** A finished ride is shown to its owner, and to no one else; nothing changes. */
  lemma EndedIsRepeated(w: World, q: Request, track: seq<RidePoint>, dist: Metric)
    requires WorldOk(w) && w.hist.allFresh && q.EndReq? && -90.0 <= q.lat <= 90.0 && -180.0 <= q.lng <= 180.0
    requires q.rideNo in w.hist.ended && q.uid.Some?
    ensures var e := w.hist.ended[q.rideNo];
            Answer(w, q, track, dist) ==
            (w, if q.uid.value == e.userId then Ended(e.duration, e.distance, e.amount, Balance(w.bal, e.userId))
                else Failed(Unauthorized))
  {
  }

  /** A ride is charged once: whatever happens in between, ending it again gives its owner the
      figures of the first answer, with the balance of the day, and changes nothing; anyone else
      is refused. */
  lemma EndingAgainRepeatsTheAnswer(h: Run, dist: Metric, i: nat, j: nat)
    requires IsRun(h, dist) && WorldOk(h.ws[0]) && i < j < |h.qs| && h.ws[j].hist.allFresh
    requires EndedHere(h, i)
    requires h.qs[j].EndReq? && h.qs[j].rideNo == h.qs[i].rideNo && h.qs[j].uid.Some?
    requires -90.0 <= h.qs[j].lat <= 90.0 && -180.0 <= h.qs[j].lng <= 180.0
    ensures h.rs[j] == if h.qs[j].uid == h.qs[i].uid
            then Ended(h.rs[i].duration, h.rs[i].distance, h.rs[i].amount, Balance(h.ws[j].bal, h.qs[j].uid.value))
            else Failed(Unauthorized)
    ensures h.ws[j + 1] == h.ws[j]
  {
    RunKeepsWorld(h, dist, i);
    EndLeavesReceipt(h, dist, i);
    ReceiptStays(h, dist, i + 1, j, h.qs[i].rideNo);
    RunKeepsWorld(h, dist, j);
    EndedIsRepeated(h.ws[j], h.qs[j], h.tracks[j], dist);
    RunStep(h, dist, j);
  }

  // ---- a damage report does not always stick ----

  /** The request is the owner's, for a live ride on this bike, from a valid position, and the
      balance covers the fee. */
  predicate EndsRideOn(w: World, q: Request, bikeId: int) {
    EndsRide(w, q) && w.sessions[q.rideNo].bikeId == bikeId
  }

  /** A damaged bike stays damaged if and only if the request does not end a ride on it. */
  lemma DamageSticksExactly(w: World, q: Request, track: seq<RidePoint>, dist: Metric, b: string)
    requires WorldOk(w) && b in w.fleet.bikes && w.fleet.bikes[b].status.Damaged?
    ensures var bikes' := Answer(w, q, track, dist).0.fleet.bikes;
            && b in bikes'
            && (bikes'[b].status.Damaged? <==> !EndsRideOn(w, q, w.fleet.bikes[b].id))
  {
  }

  lemma EndLeavesBikeIdle(w: World, uid: int, s: RideSession, b: string, lat: real, lng: real, now: int,
                          bookedAt: int, track: seq<RidePoint>, dist: Metric)
    requires s.rideNo in w.sessions && w.sessions[s.rideNo] == s
    requires Closes(w, Some(uid), s.rideNo, lat, lng, now)
    requires b in w.fleet.bikes && w.fleet.bikes[b].id == s.bikeId
    ensures var (w', r) := EndAnswer(w, Some(uid), s.rideNo, lat, lng, now, bookedAt, track, dist);
            r.Ended? && b in w'.fleet.bikes && w'.fleet.bikes[b].status.Idle?
  {
  }

  /** Unlock, damage report, end: the report is accepted, and the bike is idle again. */
  lemma DamageIsForgotten(w: World, uid: int, b: string, lat: real, lng: real, now: nat, clock: nat, ts: int,
                          t0: seq<RidePoint>, t1: seq<RidePoint>, t2: seq<RidePoint>, dist: Metric)
    requires WorldOk(w) && UnlockRefusal(w, Some(uid), b, lat, lng).None?
    ensures var no := RideNoAt(now, clock);
            var (w1, r1) := Answer(w, UnlockReq(Some(uid), b, lat, lng, now, clock, ts), t0, dist);
            var (w2, r2) := Answer(w1, DamageReq(Some(uid), b), t1, dist);
            var (w3, r3) := Answer(w2, EndReq(Some(uid), no, lat, lng, ts, ts), t2, dist);
            && r1.Unlocked? && r2 == Done && r3.Ended?
            && b in w2.fleet.bikes && w2.fleet.bikes[b].status.Damaged?
            && b in w3.fleet.bikes && w3.fleet.bikes[b].status.Idle?
  {
    var no := RideNoAt(now, clock);
    var s := NewSession(no, uid, w.fleet.bikes[b].id, lat, lng, ts);
    var w1 := Unlock(w, s);
    assert Answer(w, UnlockReq(Some(uid), b, lat, lng, now, clock, ts), t0, dist).0 == w1;
    var w2 := Damage(w1, s.bikeId);
    assert Answer(w1, DamageReq(Some(uid), b), t1, dist).0 == w2;
    assert w2.sessions[no] == s && Fee(Duration(s, ts)) == 100;
    EndLeavesBikeIdle(w2, uid, s, b, lat, lng, ts, ts, t2, dist);
  }

  // ---- two unlocks in one second ----

  /** Two idle bikes unlocked in the same second of a day: both unlocks succeed, under one number,
      and the first bike is left rented without a ride. */
  lemma SecondUnlockStrands(w: World, u: int, v: int, a: string, b: string, lat: real, lng: real,
                            now: nat, clock1: nat, clock2: nat, ts1: int, ts2: int,
                            t1: seq<RidePoint>, t2: seq<RidePoint>, dist: Metric)
    requires WorldOk(w) && a != b && clock1 / SECONDS_PER_DAY == clock2 / SECONDS_PER_DAY
    requires UnlockRefusal(w, Some(u), a, lat, lng).None? && UnlockRefusal(w, Some(v), b, lat, lng).None?
    ensures var (w1, r1) := Answer(w, UnlockReq(Some(u), a, lat, lng, now, clock1, ts1), t1, dist);
            var (w2, r2) := Answer(w1, UnlockReq(Some(v), b, lat, lng, now, clock2, ts2), t2, dist);
            && r1 == Unlocked(RideNoAt(now, clock1), ts1) && r2 == Unlocked(RideNoAt(now, clock1), ts2)
            && a in w2.fleet.bikes && w2.fleet.bikes[a].status.Rented?
            && !HasSession(w2.sessions, w2.fleet.bikes[a].id)
  {
    SameSecondCollides(now, clock1, clock2);
    var (w1, _) := Answer(w, UnlockReq(Some(u), a, lat, lng, now, clock1, ts1), t1, dist);
    assert w1.fleet.bikes[b] == w.fleet.bikes[b];
  }
}
