/** What each request decides and changes, said in plain figures. */
module ServiceLaws {
  import opened Words
  import opened Wrappers
  import opened RideNo
  import opened Track
  import opened Repos
  import opened Rental
  import opened Service

  // ---- figures ----

  /** The fee is the least of 100, 150, 200, ... cents whose quarters of an hour cover the ride. */
  lemma FeeIsLeast(d: nat) returns (k: nat)
    ensures Fee(d) == 100 + 50 * k && d <= 900 * (k + 1) && (k > 0 ==> 900 * k < d)
  {
    k := if d <= 900 then 0 else (d - 1) / 900;
  }

  /** The ride lasts from its start to its end; if the clock was set back in between, it lasts 0. */
  lemma DurationIsElapsed(s: RideSession, now: int)
    ensures 0 <= now - s.startTs < 0x8000_0000 ==> Duration(s, now) == now - s.startTs
    ensures -0x8000_0000 <= now - s.startTs <= 0 ==> Duration(s, now) == 0
  {
    var d := now - s.startTs;
    if 0 <= d < 0x8000_0000 {
      ModIsUnique(d, 0, d, WORD);
    } else if -0x8000_0000 <= d < 0 {
      ModIsUnique(d, -1, d + WORD, WORD);
    }
  }

  /** Distances add up: over two parts of a track it is theirs and the leg between. */
  lemma {:induction false} LengthOfParts(a: seq<RidePoint>, b: seq<RidePoint>, dist: Metric)
    requires a != [] && b != []
    ensures var p, q := a[|a| - 1], b[0];
            Length(a + b, dist) == Length(a, dist) + dist(p.lat, p.lng, q.lat, q.lng) + Length(b, dist)
    ensures Length([b[0]], dist) == 0.0
  {
    var n := |b| - 1;
    assert (a + b)[..|a| + n] == a + b[..n];
    if n == 0 {
      assert a + b[..n] == a;
    } else {
      LengthOfParts(a, b[..n], dist);
      assert (a + b)[|a| + n - 1] == b[n - 1] && (a + b)[|a| + n] == b[n];
    }
  }

  lemma TruncateIsTowardsZero(r: real)
    ensures r >= 0.0 ==> Truncate(r) as real <= r < Truncate(r) as real + 1.0 && Truncate(r) >= 0
    ensures r <= 0.0 ==> Truncate(r) as real - 1.0 < r <= Truncate(r) as real && Truncate(r) <= 0
  {
  }

  // ---- scan_unlock ----

  /** Who gets which answer; a refusal changes nothing. */
  lemma UnlockDecides(w: World, uid: Option<int>, b: string, lat: real, lng: real, now: nat, clock: nat, ts: int)
    ensures var (w', r) := UnlockAnswer(w, uid, b, lat, lng, now, clock, ts);
            var onEarth := -90.0 <= lat <= 90.0 && -180.0 <= lng <= 180.0;
            var known := uid.Some? && 1 <= |b| <= 32 && onEarth && b in w.fleet.bikes;
            var funds := if uid.Some? && uid.value in w.bal then w.bal[uid.value] else 0;
            && (r == Failed(Unauthorized) <==> uid == None)
            && (r == Failed(InvalidData) <==> uid != None && !known)
            && (r == Failed(BikeIsDamaged) <==> known && w.fleet.bikes[b].status == Damaged)
            && (r == Failed(BikeIsRunning) <==> known && w.fleet.bikes[b].status == Rented)
            && (r == Failed(ProcessFailed) <==> known && w.fleet.bikes[b].status == Idle && funds < 100)
            && (r.Unlocked? <==> known && w.fleet.bikes[b].status == Idle && funds >= 100)
            && (r.Failed? ==> w' == w)
  {
  }

  predicate IsNew(s: RideSession, no: string, uid: int, bikeId: int, lat: real, lng: real, ts: int) {
    && s.rideNo == no && s.userId == uid && s.bikeId == bikeId
    && s.startLat == lat && s.startLng == lng && s.startTs == ts
    && s.lastLat == lat && s.lastLng == lng && s.lastSeq == 0 && s.points == []
  }

  lemma OneBikeChanges(bikes: map<string, Bike>, b: string, s: BikeStatus)
    requires UniqueIds(bikes) && b in bikes
    ensures WithStatus(bikes, bikes[b].id, s) == bikes[b := bikes[b].(status := s)]
  {
  }

  /** A successful unlock: this bike rented where it stands, a session for this user and bike from
      this place and time, and nothing else. */
  lemma UnlockDoes(w: World, uid: Option<int>, b: string, lat: real, lng: real, now: nat, clock: nat, ts: int)
    requires FleetOk(w.fleet) && UnlockAnswer(w, uid, b, lat, lng, now, clock, ts).1.Unlocked?
    ensures var (w', r) := UnlockAnswer(w, uid, b, lat, lng, now, clock, ts);
            && uid.Some? && b in w.fleet.bikes && r.startTs == ts
            && w'.fleet == w.fleet.(bikes := w.fleet.bikes[b := w.fleet.bikes[b].(status := Rented)])
            && w'.archive == w.archive && w'.bal == w.bal && w'.records == w.records
            && r.rideNo in w'.sessions && w'.sessions == w.sessions[r.rideNo := w'.sessions[r.rideNo]]
            && IsNew(w'.sessions[r.rideNo], r.rideNo, uid.value, w.fleet.bikes[b].id, lat, lng, ts)
  {
    OneBikeChanges(w.fleet.bikes, b, Rented);
  }

  // ---- end_ride ----

  /** Who gets which answer; only ending a live ride changes anything. */
  lemma EndDecides(w: World, uid: Option<int>, no: string, lat: real, lng: real, now: int,
                   bookedAt: int, track: seq<RidePoint>, dist: Metric)
    requires ArchiveOk(w.archive)
    ensures var (w', r) := EndAnswer(w, uid, no, lat, lng, now, bookedAt, track, dist);
            var onEarth := -90.0 <= lat <= 90.0 && -180.0 <= lng <= 180.0;
            var placed, live, filed := uid.Some? && onEarth, no in w.sessions, no in w.archive.byNo;
            var funds := if uid.Some? && uid.value in w.bal then w.bal[uid.value] else 0;
            var mine := placed && (if live then w.sessions[no].userId == uid.value
                                   else filed && w.archive.rides[w.archive.byNo[no]].userId == uid.value);
            && (r == Failed(InvalidData) <==> uid.Some? && (!onEarth || (!live && !filed)))
            && (r == Failed(Unauthorized) <==> uid == None || (placed && (live || filed) && !mine))
            && (r == Failed(ProcessFailed) <==> mine && live && funds < Fee(Duration(w.sessions[no], now)))
            && (r.Ended? <==> mine && (live ==> funds >= Fee(Duration(w.sessions[no], now))))
            && (!live || r.Failed? ==> w' == w)
  {
  }

  predicate IsRecordOf(ride: Ride, s: RideSession, r: Response, lat: real, lng: real, now: int)
    requires r.Ended?
  {
    && ride.rideNo == s.rideNo && ride.userId == s.userId && ride.bikeId == s.bikeId
    && ride.startTs == s.startTs && ride.endTs == now
    && ride.startLat == s.startLat && ride.startLng == s.startLng && ride.endLat == lat && ride.endLng == lng
    && ride.durationSec == r.duration && ride.distanceM == r.distance && ride.amountCent == r.amount
  }

  /** One record is added, last, to the account of `uid`; the other accounts keep theirs. */
  predicate Books(w: World, w': World, uid: int, r: AccountRecord) {
    && uid in w'.records && w'.records[uid] == (if uid in w.records then w.records[uid] else []) + [r]
    && w'.records == w.records[uid := w'.records[uid]]
  }

  /** The end of a live ride: the fee is taken from its user, its session is gone, and no other
      account and no other ride is touched. */
  lemma EndPays(w: World, uid: Option<int>, no: string, lat: real, lng: real, now: int,
                bookedAt: int, track: seq<RidePoint>, dist: Metric)
    requires no in w.sessions && EndAnswer(w, uid, no, lat, lng, now, bookedAt, track, dist).1.Ended?
    requires w.sessions[no].rideNo == no
    ensures var (w', r) := EndAnswer(w, uid, no, lat, lng, now, bookedAt, track, dist);
            var s := w.sessions[no];
            && uid == Some(s.userId)
            && r.duration == Duration(s, now) && r.amount == Fee(r.duration)
            && r.distance == Truncate(Length(track, dist))
            && r.balanceAfter == Balance(w.bal, s.userId) - r.amount >= 0
            && w'.bal == w.bal[s.userId := r.balanceAfter]
            && Books(w, w', s.userId, AccountRecord(Consume, -r.amount, r.balanceAfter, bookedAt))
            && w'.sessions == w.sessions - {no}
  {
  }

  /** The ride is archived with its figures and its track, under a new id and under its number. */
  lemma EndFiles(w: World, uid: Option<int>, no: string, lat: real, lng: real, now: int,
                 bookedAt: int, track: seq<RidePoint>, dist: Metric)
    requires no in w.sessions && EndAnswer(w, uid, no, lat, lng, now, bookedAt, track, dist).1.Ended?
    requires ArchiveOk(w.archive) && w.sessions[no].rideNo == no
    ensures var (w', r) := EndAnswer(w, uid, no, lat, lng, now, bookedAt, track, dist);
            var id := w.archive.nextId;
            && id !in w.archive.rides
            && w'.archive == Archive(w.archive.rides[id := w'.archive.rides[id]], w.archive.points[id := track],
                                     w.archive.byNo[no := id], id + 1)
            && IsRecordOf(w'.archive.rides[id], w.sessions[no], r, lat, lng, now)
  {
  }

  lemma EndMovesBike(w: World, uid: Option<int>, no: string, lat: real, lng: real, now: int,
                     bookedAt: int, track: seq<RidePoint>, dist: Metric, b: string)
    requires no in w.sessions && EndAnswer(w, uid, no, lat, lng, now, bookedAt, track, dist).1.Ended?
    requires b in w.fleet.bikes
    ensures var fleet := EndAnswer(w, uid, no, lat, lng, now, bookedAt, track, dist).0.fleet;
            && fleet.nextId == w.fleet.nextId && fleet.bikes.Keys == w.fleet.bikes.Keys
            && fleet.bikes[b] == if w.fleet.bikes[b].id == w.sessions[no].bikeId
                                 then w.fleet.bikes[b].(lat := lat, lng := lng, status := Idle) else w.fleet.bikes[b]
  {
  }

  // ---- the other handlers ----

  lemma DamageDecidesAndDoes(w: World, uid: Option<int>, b: string)
    requires FleetOk(w.fleet)
    ensures var (w', r) := DamageAnswer(w, uid, b);
            && (r == Failed(Unauthorized) <==> uid == None)
            && (r == Failed(InvalidData) <==> uid != None && !(1 <= |b| <= 32 && b in w.fleet.bikes))
            && (r.Failed? || r == Done)
            && (r.Failed? ==> w' == w)
            && (r == Done ==>
                  b in w.fleet.bikes &&
                  w' == w.(fleet := w.fleet.(bikes := w.fleet.bikes[b := w.fleet.bikes[b].(status := Damaged)])))
  {
    if b in w.fleet.bikes {
      assert forall c | c in w.fleet.bikes && c != b :: w.fleet.bikes[c].id != w.fleet.bikes[b].id;
    }
  }

  lemma RechargeDecidesAndDoes(w: World, uid: Option<int>, amount: int, at: int)
    ensures var (w', r) := RechargeAnswer(w, uid, amount, at);
            && (r == Failed(InvalidData) <==> amount <= 0)
            && (r == Failed(Unauthorized) <==> amount > 0 && uid == None)
            && (r.Failed? ==> w' == w)
            && (amount > 0 && uid.Some? ==>
                  var before := if uid.value in w.bal then w.bal[uid.value] else 0;
                  && r == Recharged(before + amount)
                  && w' == w.(bal := w.bal[uid.value := before + amount], records := w'.records)
                  && Books(w, w', uid.value, AccountRecord(RecordType.Recharge, amount, before + amount, at)))
  {
  }

  /** A bike put out is idle, at its place, with an id no other bike has; a number in use is left. */
  lemma PutOutDoes(w: World, b: string, lat: real, lng: real)
    requires FleetOk(w.fleet)
    ensures var w' := PutOut(w, b, lat, lng);
            if b in w.fleet.bikes then w' == w
            else
              && b in w'.fleet.bikes && w' == w.(fleet := w'.fleet)
              && w'.fleet.bikes == w.fleet.bikes[b := w'.fleet.bikes[b]]
              && w'.fleet.bikes[b].status == Idle && w'.fleet.bikes[b].lat == lat && w'.fleet.bikes[b].lng == lng
              && forall c | c in w.fleet.bikes :: w.fleet.bikes[c].id != w'.fleet.bikes[b].id
  {
  }
}
