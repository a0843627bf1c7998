/** Which bikes are out and which rides are live: laws about the bike table, the live sessions and
    the archive, independent of the handlers that change them. */
module Rental {
  import opened Track
  import opened Repos

  /** A bike with a live session is not idle, and no bike has two. */
  ghost predicate SessionsOk(bikes: map<string, Bike>, sessions: map<string, RideSession>) {
    && (forall no | no in sessions :: sessions[no].rideNo == no)
    && (forall no, b | no in sessions && b in bikes && bikes[b].id == sessions[no].bikeId ::
          !bikes[b].status.Idle?)
    && (forall m, n | m in sessions && n in sessions && sessions[m].bikeId == sessions[n].bikeId :: m == n)
  }

  ghost predicate HasSession(sessions: map<string, RideSession>, bikeId: int) {
    exists no :: no in sessions && sessions[no].bikeId == bikeId
  }

  /** Every rented bike has a live session. */
  ghost predicate RentedOk(bikes: map<string, Bike>, sessions: map<string, RideSession>) {
    forall b | b in bikes && bikes[b].status.Rented? :: HasSession(sessions, bikes[b].id)
  }

  lemma UnlockKeepsSessions(bikes: map<string, Bike>, sessions: map<string, RideSession>, b: string,
                            s: RideSession)
    requires UniqueIds(bikes) && SessionsOk(bikes, sessions)
    requires b in bikes && bikes[b].status.Idle? && s.bikeId == bikes[b].id
    ensures SessionsOk(WithStatus(bikes, s.bikeId, Rented), sessions[s.rideNo := s])
  {
  }

  /** The bike of the session that an unlock under number `no` would overwrite. */
  ghost predicate Strands(bikes: map<string, Bike>, sessions: map<string, RideSession>, no: string) {
    no in sessions && exists b :: b in bikes && bikes[b].id == sessions[no].bikeId && bikes[b].status.Rented?
  }

  /** An unlock keeps every rented bike with a live session if and only if it does not overwrite
      the session of a rented bike, that is, if its ride number is not that of such a session. */
  lemma UnlockKeepsRentedExactly(bikes: map<string, Bike>, sessions: map<string, RideSession>, b: string,
                                 s: RideSession)
    requires UniqueIds(bikes) && SessionsOk(bikes, sessions) && RentedOk(bikes, sessions)
    requires b in bikes && bikes[b].status.Idle? && s.bikeId == bikes[b].id
    ensures RentedOk(WithStatus(bikes, s.bikeId, Rented), sessions[s.rideNo := s]) <==>
            !Strands(bikes, sessions, s.rideNo)
  {
    var bikes', sessions' := WithStatus(bikes, s.bikeId, Rented), sessions[s.rideNo := s];
    if Strands(bikes, sessions, s.rideNo) {
      var c :| c in bikes && bikes[c].id == sessions[s.rideNo].bikeId && bikes[c].status.Rented?;
      assert bikes'[c].status.Rented? && !HasSession(sessions', bikes'[c].id);
    } else {
      forall c | c in bikes' && bikes'[c].status.Rented? ensures HasSession(sessions', bikes'[c].id) {
        if c == b {
          assert sessions'[s.rideNo].bikeId == bikes'[c].id;
        } else {
          assert bikes'[c] == bikes[c];
          var no :| no in sessions && sessions[no].bikeId == bikes[c].id;
          assert sessions'[no].bikeId == bikes'[c].id;
        }
      }
    }
  }

  lemma EndKeepsSessions(bikes: map<string, Bike>, sessions: map<string, RideSession>, no: string,
                         lat: real, lng: real)
    requires SessionsOk(bikes, sessions) && no in sessions
    ensures var id := sessions[no].bikeId;
            SessionsOk(WithStatus(WithLocation(bikes, id, lat, lng), id, Idle), sessions - {no})
  {
  }

  lemma EndKeepsRented(bikes: map<string, Bike>, sessions: map<string, RideSession>, no: string,
                       lat: real, lng: real)
    requires RentedOk(bikes, sessions) && no in sessions
    ensures var id := sessions[no].bikeId;
            RentedOk(WithStatus(WithLocation(bikes, id, lat, lng), id, Idle), sessions - {no})
  {
    var id := sessions[no].bikeId;
    var bikes', sessions' := WithStatus(WithLocation(bikes, id, lat, lng), id, Idle), sessions - {no};
    forall b | b in bikes' && bikes'[b].status.Rented? ensures HasSession(sessions', bikes'[b].id) {
      assert bikes'[b].id == bikes[b].id != id && bikes[b].status.Rented?;
      var m :| m in sessions && sessions[m].bikeId == bikes[b].id;
      assert m in sessions' && sessions'[m].bikeId == bikes'[b].id;
    }
  }

  lemma DamageKeepsRental(bikes: map<string, Bike>, sessions: map<string, RideSession>, id: int)
    requires SessionsOk(bikes, sessions)
    ensures SessionsOk(WithStatus(bikes, id, Damaged), sessions)
    ensures RentedOk(bikes, sessions) ==> RentedOk(WithStatus(bikes, id, Damaged), sessions)
  {
  }

  lemma ReportKeepsRental(bikes: map<string, Bike>, sessions: map<string, RideSession>, no: string, p: RidePoint)
    requires SessionsOk(bikes, sessions) && no in sessions
    ensures SessionsOk(bikes, sessions[no := Report(sessions[no], p)])
    ensures RentedOk(bikes, sessions) ==> RentedOk(bikes, sessions[no := Report(sessions[no], p)])
  {
    var sessions' := sessions[no := Report(sessions[no], p)];
    assert forall m | m in sessions :: sessions'[m].bikeId == sessions[m].bikeId;
    if RentedOk(bikes, sessions) {
      forall b | b in bikes && bikes[b].status.Rented? ensures HasSession(sessions', bikes[b].id) {
        var m :| m in sessions && sessions[m].bikeId == bikes[b].id;
        assert sessions'[m].bikeId == bikes[b].id;
      }
    }
  }

  // ---- everything the handlers share ----

  /** What a finished ride reported. */
  datatype Receipt = Receipt(userId: int, duration: int, distance: int, amount: int)

  function ReceiptOf(r: Ride): Receipt {
    Receipt(r.userId, r.durationSec, r.distanceM, r.amountCent)
  }

  /** Ride numbers given out, receipts of finished rides, and whether every unlock so far got a
      number not given out before. */
  datatype History = History(used: set<string>, ended: map<string, Receipt>, allFresh: bool)

  datatype World = World(fleet: Fleet, sessions: map<string, RideSession>, archive: Archive,
                         bal: map<int, int>, records: map<int, seq<AccountRecord>>, hist: History)

  ghost predicate KnownBikes(sessions: map<string, RideSession>, nextId: int) {
    forall no | no in sessions :: sessions[no].bikeId < nextId
  }

  /** As long as every unlock had a number of its own, finished rides stay in the archive under
      their number, unchanged, and are not live. */
  ghost predicate ReceiptsOk(sessions: map<string, RideSession>, a: Archive, used: set<string>,
                             ended: map<string, Receipt>) {
    && ended.Keys <= used
    && forall no | no in ended ::
         no !in sessions && Lookup(a, no).Some? && ReceiptOf(Lookup(a, no).value) == ended[no]
  }

  ghost predicate LiveOk(fleet: Fleet, sessions: map<string, RideSession>, hist: History) {
    && SessionsOk(fleet.bikes, sessions)
    && KnownBikes(sessions, fleet.nextId)
    && sessions.Keys <= hist.used
    && (hist.allFresh ==> RentedOk(fleet.bikes, sessions))
  }

  ghost predicate FiledOk(sessions: map<string, RideSession>, a: Archive, hist: History) {
    && ArchiveOk(a)
    && a.byNo.Keys <= hist.used
    && (hist.allFresh ==> ReceiptsOk(sessions, a, hist.used, hist.ended))
  }

  ghost predicate WorldOk(w: World) {
    && FleetOk(w.fleet)
    && LiveOk(w.fleet, w.sessions, w.hist)
    && FiledOk(w.sessions, w.archive, w.hist)
    && LedgerOk(w.bal, w.records)
  }

  // ---- what a successful request does to it ----

  lemma StatusKeepsFleet(f: Fleet, id: int, s: BikeStatus)
    requires FleetOk(f)
    ensures FleetOk(f.(bikes := WithStatus(f.bikes, id, s)))
  {
  }

  lemma LocationKeepsFleet(f: Fleet, id: int, lat: real, lng: real)
    requires FleetOk(f)
    ensures FleetOk(f.(bikes := WithLocation(f.bikes, id, lat, lng)))
  {
  }

  function Unlock(w: World, s: RideSession): World {
    w.(fleet := w.fleet.(bikes := WithStatus(w.fleet.bikes, s.bikeId, Rented)),
       sessions := w.sessions[s.rideNo := s],
       hist := w.hist.(used := w.hist.used + {s.rideNo}, allFresh := w.hist.allFresh && s.rideNo !in w.hist.used))
  }

  lemma UnlockKeepsWorld(w: World, b: string, s: RideSession)
    requires WorldOk(w)
    requires b in w.fleet.bikes && w.fleet.bikes[b].status.Idle? && s.bikeId == w.fleet.bikes[b].id
    ensures WorldOk(Unlock(w, s))
  {
    var w' := Unlock(w, s);
    StatusKeepsFleet(w.fleet, s.bikeId, Rented);
    UnlockKeepsSessions(w.fleet.bikes, w.sessions, b, s);
    assert LiveOk(w'.fleet, w'.sessions, w'.hist) by {
      if w.hist.allFresh {
        UnlockKeepsRentedExactly(w.fleet.bikes, w.sessions, b, s);
      }
    }
  }

  function End(w: World, r: Ride, track: seq<RidePoint>, at: int): World {
    var left := Balance(w.bal, r.userId) - r.amountCent;
    var bikes := WithStatus(WithLocation(w.fleet.bikes, r.bikeId, r.endLat, r.endLng), r.bikeId, Idle);
    w.(fleet := w.fleet.(bikes := bikes),
       sessions := w.sessions - {r.rideNo},
       archive := Filed(w.archive, r, track),
       bal := w.bal[r.userId := left],
       records := Booked(w.records, r.userId, AccountRecord(Consume, -r.amountCent, left, at)),
       hist := w.hist.(ended := w.hist.ended[r.rideNo := ReceiptOf(r)]))
  }

  lemma EndKeepsLive(w: World, r: Ride, track: seq<RidePoint>, at: int)
    requires FleetOk(w.fleet) && LiveOk(w.fleet, w.sessions, w.hist)
    requires r.rideNo in w.sessions && r.bikeId == w.sessions[r.rideNo].bikeId
    ensures var w' := End(w, r, track, at); FleetOk(w'.fleet) && LiveOk(w'.fleet, w'.sessions, w'.hist)
  {
    LocationKeepsFleet(w.fleet, r.bikeId, r.endLat, r.endLng);
    StatusKeepsFleet(w.fleet.(bikes := WithLocation(w.fleet.bikes, r.bikeId, r.endLat, r.endLng)), r.bikeId, Idle);
    EndKeepsSessions(w.fleet.bikes, w.sessions, r.rideNo, r.endLat, r.endLng);
    if w.hist.allFresh {
      EndKeepsRented(w.fleet.bikes, w.sessions, r.rideNo, r.endLat, r.endLng);
    }
  }

  lemma FilingKeepsArchive(sessions: map<string, RideSession>, a: Archive, hist: History, r: Ride,
                           track: seq<RidePoint>)
    requires FiledOk(sessions, a, hist) && r.rideNo in hist.used
    ensures FiledOk(sessions - {r.rideNo}, Filed(a, r, track), hist.(ended := hist.ended[r.rideNo := ReceiptOf(r)]))
  {
    var a' := Filed(a, r, track);
    assert forall no | no != r.rideNo && Lookup(a, no).Some? :: Lookup(a', no) == Lookup(a, no);
  }

  lemma EndKeepsLedger(w: World, r: Ride, track: seq<RidePoint>, at: int)
    requires LedgerOk(w.bal, w.records) && r.amountCent <= Balance(w.bal, r.userId)
    ensures var w' := End(w, r, track, at); LedgerOk(w'.bal, w'.records)
  {
    var left := Balance(w.bal, r.userId) - r.amountCent;
    BookingKeepsLedger(w.bal, w.records, r.userId, AccountRecord(Consume, -r.amountCent, left, at));
  }

  lemma EndKeepsWorld(w: World, r: Ride, track: seq<RidePoint>, at: int)
    requires WorldOk(w) && r.rideNo in w.sessions && r.bikeId == w.sessions[r.rideNo].bikeId
    requires r.amountCent <= Balance(w.bal, r.userId)
    ensures WorldOk(End(w, r, track, at))
  {
    EndKeepsLive(w, r, track, at);
    FilingKeepsArchive(w.sessions, w.archive, w.hist, r, track);
    EndKeepsLedger(w, r, track, at);
  }

  function Recharge(w: World, uid: int, amount: int, at: int): World {
    var b := Balance(w.bal, uid) + amount;
    w.(bal := w.bal[uid := b], records := Booked(w.records, uid, AccountRecord(RecordType.Recharge, amount, b, at)))
  }

  lemma RechargeKeepsLedger(w: World, uid: int, amount: int, at: int)
    requires LedgerOk(w.bal, w.records) && amount >= 0
    ensures var w' := Recharge(w, uid, amount, at); LedgerOk(w'.bal, w'.records)
  {
    var b := Balance(w.bal, uid) + amount;
    BookingKeepsLedger(w.bal, w.records, uid, AccountRecord(RecordType.Recharge, amount, b, at));
  }

  lemma RechargeKeepsWorld(w: World, uid: int, amount: int, at: int)
    requires WorldOk(w) && amount >= 0
    ensures WorldOk(Recharge(w, uid, amount, at))
  {
    RechargeKeepsLedger(w, uid, amount, at);
  }

  function Damage(w: World, id: int): World {
    w.(fleet := w.fleet.(bikes := WithStatus(w.fleet.bikes, id, Damaged)))
  }

  lemma DamageKeepsWorld(w: World, id: int)
    requires WorldOk(w)
    ensures WorldOk(Damage(w, id))
  {
    StatusKeepsFleet(w.fleet, id, Damaged);
    DamageKeepsRental(w.fleet.bikes, w.sessions, id);
  }

  function TakeReport(w: World, no: string, p: RidePoint): World
    requires no in w.sessions
  {
    w.(sessions := w.sessions[no := Report(w.sessions[no], p)])
  }

  lemma ReportKeepsWorld(w: World, no: string, p: RidePoint)
    requires WorldOk(w) && no in w.sessions
    ensures WorldOk(TakeReport(w, no, p))
  {
    ReportKeepsRental(w.fleet.bikes, w.sessions, no, p);
  }

  /** A bike put out by the service; a number already in use is refused. */
  function PutOut(w: World, no: string, lat: real, lng: real): World {
    if no in w.fleet.bikes then w else w.(fleet := Inserted(w.fleet, no, Bike(0, lat, lng, Idle)))
  }

  lemma PutOutKeepsWorld(w: World, no: string, lat: real, lng: real)
    requires WorldOk(w)
    ensures WorldOk(PutOut(w, no, lat, lng))
  {
    var w' := PutOut(w, no, lat, lng);
    assert forall b | b in w.fleet.bikes :: w'.fleet.bikes[b] == w.fleet.bikes[b];
  }
}
