/** What the handlers answer and do, as functions of what they share. Requests arrive decoded;
    `uid` is the result of the session lookup. Where the result is not determined, because the
    order of points of equal time is not, the archived track is an argument. */
module Service {
  import opened Words
  import opened Wrappers
  import opened RideNo
  import opened Track
  import opened Repos
  import opened Rental

  datatype ErrCode = Unauthorized | InvalidData | ProcessFailed | BikeIsRunning | BikeIsDamaged

  datatype Response =
    | Failed(code: ErrCode)
    | Unlocked(rideNo: string, startTs: int)
    | Ended(duration: int, distance: int, amount: int, balanceAfter: int)
    | Recharged(balance: int)
    | Done

  /** An unlock looks at the clock three times: for the six digits of the ride number, for its
      date, and for the start time; an end of a ride twice: for the end time, and when it books the
      fee. A bike is put out when a nearby query finds too few. */
  datatype Request =
    | UnlockReq(uid: Option<int>, bikeNo: string, lat: real, lng: real, now: nat, clock: nat, startTs: int)
    | EndReq(uid: Option<int>, rideNo: string, lat: real, lng: real, at: int, bookedAt: int)
    | PositionReq(rideNo: string, point: RidePoint)
    | DamageReq(uid: Option<int>, bikeNo: string)
    | RechargeReq(uid: Option<int>, amount: int, at: int)
    | PutOutReq(bikeNo: string, lat: real, lng: real)

  const MIN_BALANCE: int := 100

  predicate ValidBikeNo(no: string) {
    0 < |no| <= 32
  }

  predicate ValidPosition(lat: real, lng: real) {
    -90.0 <= lat <= 90.0 && -180.0 <= lng <= 180.0
  }

  // ---- scan_unlock ----

  /** The first check that fails. */
  function UnlockRefusal(w: World, uid: Option<int>, bikeNo: string, lat: real, lng: real): Option<ErrCode> {
    if uid.None? then Some(Unauthorized)
    else if !ValidBikeNo(bikeNo) || !ValidPosition(lat, lng) || bikeNo !in w.fleet.bikes then Some(InvalidData)
    else if w.fleet.bikes[bikeNo].status.Damaged? then Some(BikeIsDamaged)
    else if w.fleet.bikes[bikeNo].status.Rented? then Some(BikeIsRunning)
    else if Balance(w.bal, uid.value) < MIN_BALANCE then Some(ProcessFailed)
    else None
  }

  function NewSession(no: string, uid: int, bikeId: int, lat: real, lng: real, startTs: int): RideSession {
    RideSession(no, uid, bikeId, lat, lng, startTs, lat, lng, 0, [])
  }

  function UnlockAnswer(w: World, uid: Option<int>, bikeNo: string, lat: real, lng: real, now: nat, clock: nat,
                        startTs: int): (World, Response) {
    var refusal := UnlockRefusal(w, uid, bikeNo, lat, lng);
    if refusal.Some? then (w, Failed(refusal.value))
    else
      var no := RideNoAt(now, clock);
      (Unlock(w, NewSession(no, uid.value, w.fleet.bikes[bikeNo].id, lat, lng, startTs)), Unlocked(no, startTs))
  }

  // ---- end_ride ----

  /** 100 cents for the first 15 minutes, 50 for each further quarter begun. */
  function Fee(duration: nat): int {
    var quarter := 15 * 60;
    if duration <= quarter then 100 else 100 + (duration - quarter + quarter - 1) / quarter * 50
  }

  /** Conversion to a 32-bit `int`. */
  function Narrow(x: int): int {
    var m := Wrap(x);
    if m < WORD / 2 then m else m - WORD
  }

  function Duration(s: RideSession, now: int): nat {
    var d := Narrow(now - s.startTs);
    if d < 0 then 0 else d
  }

  type Metric = (real, real, real, real) -> real

  function Length(track: seq<RidePoint>, dist: Metric): real {
    if |track| < 2 then 0.0
    else
      var n := |track| - 1;
      Length(track[..n], dist) + dist(track[n - 1].lat, track[n - 1].lng, track[n].lat, track[n].lng)
  }

  function Truncate(r: real): int {
    if r >= 0.0 then r.Floor else -((-r).Floor)
  }

  function ArchivedRide(s: RideSession, lat: real, lng: real, now: int, track: seq<RidePoint>, dist: Metric): Ride {
    var d := Duration(s, now);
    Ride(s.rideNo, s.userId, s.bikeId, s.startTs, now, s.startLat, s.startLng, lat, lng,
         d, Truncate(Length(track, dist)), Fee(d))
  }

  /** The answer for a ride that is not live: the archived figures, to its owner. */
  function RepeatReply(w: World, uid: int, no: string): Response {
    var row := Lookup(w.archive, no);
    if row.None? then Failed(InvalidData)
    else if row.value.userId != uid then Failed(Unauthorized)
    else Ended(row.value.durationSec, row.value.distanceM, row.value.amountCent, Balance(w.bal, uid))
  }

  /** The request is the owner's, for a live ride, and the balance covers the fee. */
  predicate Closes(w: World, uid: Option<int>, no: string, lat: real, lng: real, now: int) {
    && uid.Some? && ValidPosition(lat, lng)
    && no in w.sessions && w.sessions[no].userId == uid.value
    && Fee(Duration(w.sessions[no], now)) <= Balance(w.bal, uid.value)
  }

  function EndAnswer(w: World, uid: Option<int>, no: string, lat: real, lng: real, now: int, bookedAt: int,
                     track: seq<RidePoint>, dist: Metric): (World, Response) {
    if uid.None? then (w, Failed(Unauthorized))
    else if !ValidPosition(lat, lng) then (w, Failed(InvalidData))
    else if no !in w.sessions then (w, RepeatReply(w, uid.value, no))
    else if w.sessions[no].userId != uid.value then (w, Failed(Unauthorized))
    else CloseAnswer(w, w.sessions[no], lat, lng, now, bookedAt, track, dist)
  }

  function CloseAnswer(w: World, s: RideSession, lat: real, lng: real, now: int, bookedAt: int,
                       track: seq<RidePoint>, dist: Metric): (World, Response) {
    var ride := ArchivedRide(s, lat, lng, now, track, dist);
    var left := Balance(w.bal, s.userId) - ride.amountCent;
    if left < 0 then (w, Failed(ProcessFailed))
    else (End(w, ride, track, bookedAt), Ended(ride.durationSec, ride.distanceM, ride.amountCent, left))
  }

  // ---- the other handlers ----

  function PositionAnswer(w: World, no: string, p: RidePoint): World {
    if no in w.sessions then TakeReport(w, no, p) else w
  }

  function DamageAnswer(w: World, uid: Option<int>, bikeNo: string): (World, Response) {
    if uid.None? then (w, Failed(Unauthorized))
    else if !ValidBikeNo(bikeNo) || bikeNo !in w.fleet.bikes then (w, Failed(InvalidData))
    else (Damage(w, w.fleet.bikes[bikeNo].id), Done)
  }

  /** The amount is checked before the user. */
  function RechargeAnswer(w: World, uid: Option<int>, amount: int, at: int): (World, Response) {
    if amount <= 0 then (w, Failed(InvalidData))
    else if uid.None? then (w, Failed(Unauthorized))
    else (Rental.Recharge(w, uid.value, amount, at), Recharged(Balance(w.bal, uid.value) + amount))
  }

  // ---- any request ----

  /** A deposit that leaves the 32-bit range has no defined result. */
  predicate Fits(w: World, q: Request) {
    q.RechargeReq? && q.uid.Some? ==> Balance(w.bal, q.uid.value) + q.amount <= INT_MAX
  }

  predicate EndsRide(w: World, q: Request) {
    q.EndReq? && Closes(w, q.uid, q.rideNo, q.lat, q.lng, q.at)
  }

  /** What is archived at the end of a ride is some arrangement by time of start, reports and end. */
  ghost predicate TrackFor(w: World, q: Request, track: seq<RidePoint>) {
    EndsRide(w, q) ==>
      var s := w.sessions[q.rideNo];
      IsTrack(track, RawTrack(s, q.lat, q.lng, Duration(s, q.at)))
  }

  function Answer(w: World, q: Request, track: seq<RidePoint>, dist: Metric): (World, Response) {
    match q
    case UnlockReq(uid, bikeNo, lat, lng, now, clock, startTs) =>
      UnlockAnswer(w, uid, bikeNo, lat, lng, now, clock, startTs)
    case EndReq(uid, no, lat, lng, at, bookedAt) => EndAnswer(w, uid, no, lat, lng, at, bookedAt, track, dist)
    case PositionReq(no, p) => (PositionAnswer(w, no, p), Done)
    case DamageReq(uid, bikeNo) => DamageAnswer(w, uid, bikeNo)
    case RechargeReq(uid, amount, at) => RechargeAnswer(w, uid, amount, at)
    case PutOutReq(no, lat, lng) => (PutOut(w, no, lat, lng), Done)
  }

  lemma UnlockAnswerKeepsWorld(w: World, uid: Option<int>, bikeNo: string, lat: real, lng: real, now: nat,
                               clock: nat, startTs: int)
    requires WorldOk(w)
    ensures WorldOk(UnlockAnswer(w, uid, bikeNo, lat, lng, now, clock, startTs).0)
  {
    if UnlockRefusal(w, uid, bikeNo, lat, lng).None? {
      var id := w.fleet.bikes[bikeNo].id;
      UnlockKeepsWorld(w, bikeNo, NewSession(RideNoAt(now, clock), uid.value, id, lat, lng, startTs));
    }
  }

  lemma EndAnswerKeepsWorld(w: World, uid: Option<int>, no: string, lat: real, lng: real, now: int,
                            bookedAt: int, track: seq<RidePoint>, dist: Metric)
    requires WorldOk(w)
    ensures WorldOk(EndAnswer(w, uid, no, lat, lng, now, bookedAt, track, dist).0)
  {
    if Closes(w, uid, no, lat, lng, now) {
      EndKeepsWorld(w, ArchivedRide(w.sessions[no], lat, lng, now, track, dist), track, bookedAt);
    }
  }

  lemma PositionAnswerKeepsWorld(w: World, no: string, p: RidePoint)
    requires WorldOk(w)
    ensures WorldOk(PositionAnswer(w, no, p))
  {
    if no in w.sessions {
      ReportKeepsWorld(w, no, p);
    }
  }

  lemma DamageAnswerKeepsWorld(w: World, uid: Option<int>, bikeNo: string)
    requires WorldOk(w)
    ensures WorldOk(DamageAnswer(w, uid, bikeNo).0)
  {
    if bikeNo in w.fleet.bikes {
      DamageKeepsWorld(w, w.fleet.bikes[bikeNo].id);
    }
  }

  lemma RechargeAnswerKeepsWorld(w: World, uid: Option<int>, amount: int, at: int)
    requires WorldOk(w)
    ensures WorldOk(RechargeAnswer(w, uid, amount, at).0)
  {
    if amount > 0 && uid.Some? {
      RechargeKeepsWorld(w, uid.value, amount, at);
    }
  }

  /** No request, whatever it asks and whoever asks it, breaks what the handlers rely on. */
  lemma AnswerKeepsWorld(w: World, q: Request, track: seq<RidePoint>, dist: Metric)
    requires WorldOk(w)
    ensures WorldOk(Answer(w, q, track, dist).0)
  {
    match q
    case UnlockReq(uid, bikeNo, lat, lng, now, clock, startTs) =>
      UnlockAnswerKeepsWorld(w, uid, bikeNo, lat, lng, now, clock, startTs);
    case EndReq(uid, no, lat, lng, at, bookedAt) =>
      EndAnswerKeepsWorld(w, uid, no, lat, lng, at, bookedAt, track, dist);
    case PositionReq(no, p) => PositionAnswerKeepsWorld(w, no, p);
    case DamageReq(uid, bikeNo) => DamageAnswerKeepsWorld(w, uid, bikeNo);
    case RechargeReq(uid, amount, at) => RechargeAnswerKeepsWorld(w, uid, amount, at);
    case PutOutReq(no, lat, lng) => PutOutKeepsWorld(w, no, lat, lng);
  }
}
