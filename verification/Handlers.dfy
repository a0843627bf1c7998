/** The ride and account handlers over the in-memory repositories, each as one atomic step, proved
    to answer and to do what module `Service` says. */
module Handlers {
  import opened Wrappers
  import opened RideNo
  import opened Track
  import opened Repos
  import opened Rental
  import opened Service
  import opened ServiceRuns

  method MeasureTrack(track: seq<RidePoint>, dist: Metric) returns (d: real)
    ensures d == Length(track, dist)
  {
    d := 0.0;
    if |track| == 0 {
      return;
    }
    for i := 1 to |track|
      invariant d == Length(track[..i], dist)
    {
      assert track[..i + 1][..i] == track[..i];
      d := d + dist(track[i - 1].lat, track[i - 1].lng, track[i].lat, track[i].lng);
    }
    assert track[..|track|] == track;
  }

  class Ctx {
    const accounts: AccountRepo
    const bikes: BikeRepo
    const rides: RideRepo
    const sessions: RideSessionStore
    const dist: Metric
    ghost var hist: History

    constructor (fleet: Fleet, dist: Metric)
      requires FleetOk(fleet) && forall no | no in fleet.bikes :: !fleet.bikes[no].status.Rented?
      ensures Consistent()
      ensures Now() == World(fleet, map[], Archive(map[], map[], map[], 1), map[], map[], History({}, map[], true))
    {
      accounts := new AccountRepo();
      bikes := new BikeRepo(fleet);
      rides := new RideRepo();
      sessions := new RideSessionStore();
      this.dist := dist;
      hist := History({}, map[], true);
    }

    ghost function Now(): World
      reads this, accounts, bikes, rides, sessions
    {
      World(bikes.State(), sessions.sessions, rides.State(), accounts.bal, accounts.records, hist)
    }

    /** What a single handler relies on. */
    ghost predicate Sound()
      reads accounts, bikes, rides
    {
      accounts.Valid() && bikes.Valid() && rides.Valid()
    }

    ghost predicate Consistent()
      reads this, accounts, bikes, rides, sessions
    {
      Sound() && WorldOk(Now())
    }

    // ---- scan_unlock ----

    method CheckUnlock(uid: Option<int>, bikeNo: string, lat: real, lng: real) returns (e: Option<ErrCode>)
      ensures e == UnlockRefusal(Now(), uid, bikeNo, lat, lng)
    {
      if uid.None? {
        return Some(Unauthorized);
      }
      if !ValidBikeNo(bikeNo) || !ValidPosition(lat, lng) {
        return Some(InvalidData);
      }
      if bikeNo !in bikes.bikes {
        return Some(InvalidData);
      }
      if bikes.bikes[bikeNo].status.Damaged? {
        return Some(BikeIsDamaged);
      }
      if bikes.bikes[bikeNo].status.Rented? {
        return Some(BikeIsRunning);
      }
      if Balance(accounts.bal, uid.value) < MIN_BALANCE {
        return Some(ProcessFailed);
      }
      return None;
    }

    method ScanUnlock(uid: Option<int>, bikeNo: string, lat: real, lng: real, now: nat, clock: nat, startTs: int)
      returns (r: Response)
      requires Sound()
      modifies this`hist, bikes, sessions
      ensures Sound() && (Now(), r) == UnlockAnswer(old(Now()), uid, bikeNo, lat, lng, now, clock, startTs)
    {
      var e := CheckUnlock(uid, bikeNo, lat, lng);
      if e.Some? {
        return Failed(e.value);
      }
      var no := RideNoAt(now, clock);
      var s := NewSession(no, uid.value, bikes.bikes[bikeNo].id, lat, lng, startTs);
      sessions.Create(s);
      var _ := bikes.UpdateStatus(s.bikeId, Rented);
      hist := Unlock(old(Now()), s).hist;
      return Unlocked(no, startTs);
    }

    // ---- end_ride ----

    /** The ride is archived, the bike stands idle where it ended, and the session is gone. */
    method FileRide(ride: Ride, track: seq<RidePoint>)
      requires bikes.Valid() && rides.Valid()
      modifies bikes`bikes, rides, sessions
      ensures bikes.Valid() && rides.Valid() && rides.State() == Filed(old(rides.State()), ride, track)
      ensures bikes.bikes == WithStatus(WithLocation(old(bikes.bikes), ride.bikeId, ride.endLat, ride.endLng),
                                        ride.bikeId, Idle)
      ensures sessions.sessions == old(sessions.sessions) - {ride.rideNo}
    {
      rides.CreateWithPoints(ride, track);
      var _ := bikes.UpdateLocation(ride.bikeId, ride.endLat, ride.endLng);
      var _ := bikes.UpdateStatus(ride.bikeId, Idle);
      var _ := sessions.Remove(ride.rideNo);
    }

    /** Charges, archives, returns the bike and ends the session; refused without any change when
        the balance does not cover the fee. */
    method Settle(s: RideSession, ride: Ride, track: seq<RidePoint>, bookedAt: int) returns (newBal: int)
      requires Sound()
      requires ride.rideNo == s.rideNo && ride.userId == s.userId && ride.bikeId == s.bikeId && ride.amountCent > 0
      modifies this`hist, accounts, bikes, rides, sessions
      ensures Sound()
      ensures newBal < 0 <==> Balance(old(accounts.bal), s.userId) < ride.amountCent
      ensures newBal < 0 ==> Now() == old(Now())
      ensures newBal >= 0 ==>
                && newBal == Balance(old(accounts.bal), s.userId) - ride.amountCent
                && Now() == End(old(Now()), ride, track, bookedAt)
    {
      newBal := accounts.AddBalance(s.userId, Consume, -ride.amountCent, bookedAt);
      if newBal >= 0 {
        FileRide(ride, track);
        hist := hist.(ended := hist.ended[ride.rideNo := ReceiptOf(ride)]);
      }
    }

    method CloseRide(s: RideSession, lat: real, lng: real, now: int, bookedAt: int)
      returns (r: Response, track: seq<RidePoint>)
      requires Sound()
      modifies this`hist, accounts, bikes, rides, sessions
      ensures Sound() && IsTrack(track, RawTrack(s, lat, lng, Duration(s, now)))
      ensures (Now(), r) == CloseAnswer(old(Now()), s, lat, lng, now, bookedAt, track, dist)
    {
      track := SortByTime(RawTrack(s, lat, lng, Duration(s, now)));
      var distM := MeasureTrack(track, dist);
      var ride := ArchivedRide(s, lat, lng, now, track, dist);
      var newBal := Settle(s, ride, track, bookedAt);
      if newBal < 0 {
        return Failed(ProcessFailed), track;
      }
      return Ended(ride.durationSec, Truncate(distM), ride.amountCent, newBal), track;
    }

    method Repeat(uid: int, no: string) returns (r: Response)
      requires Sound()
      ensures r == RepeatReply(Now(), uid, no)
    {
      var row := rides.FindByNo(no);
      if row.None? {
        return Failed(InvalidData);
      }
      if row.value.userId != uid {
        return Failed(Unauthorized);
      }
      return Ended(row.value.durationSec, row.value.distanceM, row.value.amountCent, Balance(accounts.bal, uid));
    }

    method EndRide(uid: Option<int>, no: string, lat: real, lng: real, now: int, bookedAt: int)
      returns (r: Response, track: seq<RidePoint>)
      requires Sound()
      modifies this`hist, accounts, bikes, rides, sessions
      ensures Sound() && TrackFor(old(Now()), EndReq(uid, no, lat, lng, now, bookedAt), track)
      ensures (Now(), r) == EndAnswer(old(Now()), uid, no, lat, lng, now, bookedAt, track, dist)
    {
      track := [];
      if uid.None? {
        return Failed(Unauthorized), track;
      }
      if !ValidPosition(lat, lng) {
        return Failed(InvalidData), track;
      }
      var s := sessions.Find(no);
      if s.None? {
        r := Repeat(uid.value, no);
        return;
      }
      if s.value.userId != uid.value {
        return Failed(Unauthorized), track;
      }
      r, track := CloseRide(s.value, lat, lng, now, bookedAt);
    }

    // ---- report_damage, position_report, recharge, list_nearby_bikes ----

    method ReportDamage(uid: Option<int>, bikeNo: string) returns (r: Response)
      requires Sound()
      modifies bikes
      ensures Sound() && (Now(), r) == DamageAnswer(old(Now()), uid, bikeNo)
    {
      if uid.None? {
        return Failed(Unauthorized);
      }
      if !ValidBikeNo(bikeNo) || bikeNo !in bikes.bikes {
        return Failed(InvalidData);
      }
      var _ := bikes.UpdateStatus(bikes.bikes[bikeNo].id, Damaged);
      return Done;
    }

    /** Fire and forget; an unknown ride is ignored. */
    method PositionReport(no: string, p: RidePoint)
      requires Sound()
      modifies sessions
      ensures Sound() && Now() == PositionAnswer(old(Now()), no, p)
    {
      var _ := sessions.UpdatePos(no, p);
    }

    method RechargeAccount(uid: Option<int>, amount: int, now: int) returns (r: Response)
      requires Sound()
      requires uid.Some? ==> Balance(accounts.bal, uid.value) + amount <= INT_MAX
      modifies accounts
      ensures Sound() && (Now(), r) == RechargeAnswer(old(Now()), uid, amount, now)
    {
      if amount <= 0 {
        return Failed(InvalidData);
      }
      if uid.None? {
        return Failed(Unauthorized);
      }
      var b := accounts.AddBalance(uid.value, RecordType.Recharge, amount, now);
      return Recharged(b);
    }

    /** One attempt to put out a bike; a number in use is tried again with another one. */
    method PutOutBike(no: string, lat: real, lng: real) returns (ok: bool)
      requires Sound()
      modifies bikes
      ensures Sound() && Now() == PutOut(old(Now()), no, lat, lng)
      ensures ok <==> no !in old(bikes.bikes)
    {
      var b := bikes.InsertBike(no, Bike(0, lat, lng, Idle));
      ok := b.Some?;
    }

    // ---- whole runs ----

    method Route(q: Request) returns (r: Response, track: seq<RidePoint>)
      requires Sound() && Fits(Now(), q)
      modifies this, accounts, bikes, rides, sessions
      ensures Sound() && TrackFor(old(Now()), q, track)
      ensures (Now(), r) == Answer(old(Now()), q, track, dist)
    {
      r, track := Done, [];
      match q {
        case UnlockReq(uid, bikeNo, lat, lng, now, clock, startTs) =>
          r := ScanUnlock(uid, bikeNo, lat, lng, now, clock, startTs);
        case EndReq(uid, no, lat, lng, now, bookedAt) => r, track := EndRide(uid, no, lat, lng, now, bookedAt);
        case PositionReq(no, p) => PositionReport(no, p);
        case DamageReq(uid, bikeNo) => r := ReportDamage(uid, bikeNo);
        case RechargeReq(uid, amount, now) => r := RechargeAccount(uid, amount, now);
        case PutOutReq(no, lat, lng) => var _ := PutOutBike(no, lat, lng);
      }
    }

    method Handle(q: Request) returns (r: Response, track: seq<RidePoint>)
      requires Consistent() && Fits(Now(), q)
      modifies this, accounts, bikes, rides, sessions
      ensures Consistent() && TrackFor(old(Now()), q, track)
      ensures (Now(), r) == Answer(old(Now()), q, track, dist)
      // a damage report sticks exactly until a ride on the bike ends
      ensures forall b | b in old(bikes.bikes) && old(bikes.bikes)[b].status.Damaged? ::
                && b in bikes.bikes
                && (bikes.bikes[b].status.Damaged? <==> !EndsRideOn(old(Now()), q, old(bikes.bikes)[b].id))
    {
      ghost var w := Now();
      r, track := Route(q);
      AnswerKeepsWorld(w, q, track, dist);
      forall b | b in w.fleet.bikes && w.fleet.bikes[b].status.Damaged?
        ensures b in bikes.bikes && (bikes.bikes[b].status.Damaged? <==> !EndsRideOn(w, q, w.fleet.bikes[b].id))
      {
        DamageSticksExactly(w, q, track, dist, b);
      }
    }

    predicate CanHandle(q: Request)
      reads this, accounts, bikes, rides, sessions
      ensures CanHandle(q) == Fits(Now(), q)
    {
      q.RechargeReq? && q.uid.Some? ==> Balance(accounts.bal, q.uid.value) + q.amount <= INT_MAX
    }

    /** Any requests in any order, up to a deposit beyond the 32-bit range. */
    method Serve(qs: seq<Request>) returns (rs: seq<Response>, ghost h: Run)
      requires Consistent()
      modifies this, accounts, bikes, rides, sessions
      ensures Consistent()
      ensures |rs| <= |qs| && (|rs| < |qs| ==> !Fits(Now(), qs[|rs|]))
      ensures IsRun(h, dist) && h.qs == qs[..|rs|] && h.rs == rs
      ensures h.ws[0] == old(Now()) && h.ws[|rs|] == Now()
    {
      rs, h := [], Run([Now()], [], [], []);
      var n := 0;
      while n < |qs| && CanHandle(qs[n])
        invariant n == |rs| <= |qs|
        invariant Consistent()
        invariant IsRun(h, dist) && h.qs == qs[..n] && h.rs == rs
        invariant h.ws[0] == old(Now()) && h.ws[n] == Now()
        decreases |qs| - n
      {
        var r, track := Handle(qs[n]);
        RunGrows(h, dist, qs[n], r, track, Now());
        h := Run(h.ws + [Now()], h.qs + [qs[n]], h.rs + [r], h.tracks + [track]);
        rs, n := rs + [r], n + 1;
      }
    }
  }
}
