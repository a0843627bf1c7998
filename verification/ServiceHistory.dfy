/** What the requests and answers of a run say about money and rides. */
module ServiceHistory {
  import opened Words
  import opened Wrappers
  import opened Track
  import opened Repos
  import opened Rental
  import opened Service
  import opened ServiceRuns
  import opened ServiceLaws

  // ---- money ----

  /** What `u` paid in with the first `n` requests. */
  function Deposits(h: Run, n: nat, u: int): int
    requires n <= |h.qs| && n <= |h.rs|
  {
    if n == 0 then 0
    else
      var q, r := h.qs[n - 1], h.rs[n - 1];
      Deposits(h, n - 1, u) + if q.RechargeReq? && q.uid == Some(u) && r.Recharged? then q.amount else 0
  }

  /** What `u` was charged for rides ended by the first `n` requests. */
  function Charges(h: Run, n: nat, u: int): int
    requires n <= |h.qs| && n <= |h.rs| && n <= |h.ws|
  {
    if n == 0 then 0
    else Charges(h, n - 1, u) + if EndedHere(h, n - 1) && h.qs[n - 1].uid == Some(u) then h.rs[n - 1].amount else 0
  }

  lemma AnswerMovesMoney(w: World, q: Request, track: seq<RidePoint>, dist: Metric, u: int)
    ensures var (w', r) := Answer(w, q, track, dist);
            Balance(w'.bal, u) == Balance(w.bal, u)
              + (if q.RechargeReq? && q.uid == Some(u) && r.Recharged? then q.amount else 0)
              - (if q.EndReq? && q.rideNo in w.sessions && r.Ended? && q.uid == Some(u) then r.amount else 0)
  {
  }

  /** On every run, a balance is what it was, plus what the user's accepted deposits carried, less
      what the answers to the ends of the user's rides charged. */
  lemma {:induction false} BalanceIsDepositsLessCharges(h: Run, dist: Metric, n: nat, u: int)
    requires IsRun(h, dist) && n < |h.ws|
    ensures Balance(h.ws[n].bal, u) == Balance(h.ws[0].bal, u) + Deposits(h, n, u) - Charges(h, n, u)
  {
    if n == 0 {
    } else {
      BalanceIsDepositsLessCharges(h, dist, n - 1, u);
      RunStep(h, dist, n - 1);
      AnswerMovesMoney(h.ws[n - 1], h.qs[n - 1], h.tracks[n - 1], dist, u);
    }
  }

  function Statement(w: World, u: int): seq<AccountRecord> {
    if u in w.records then w.records[u] else []
  }

  /** What request `n` leaves in the account of `u`. */
  function BookedBy(h: Run, n: nat, u: int): seq<AccountRecord>
    requires n < |h.qs| && n < |h.rs| && n < |h.ws|
  {
    var q, r := h.qs[n], h.rs[n];
    if q.RechargeReq? && q.uid == Some(u) && r.Recharged?
    then [AccountRecord(RecordType.Recharge, q.amount, r.balance, q.at)]
    else if EndedHere(h, n) && q.uid == Some(u)
    then [AccountRecord(Consume, -r.amount, r.balanceAfter, q.bookedAt)]
    else []
  }

  function Bookings(h: Run, n: nat, u: int): seq<AccountRecord>
    requires n <= |h.qs| && n <= |h.rs| && n <= |h.ws|
  {
    if n == 0 then [] else Bookings(h, n - 1, u) + BookedBy(h, n - 1, u)
  }

  lemma AnswerBooks(w: World, q: Request, track: seq<RidePoint>, dist: Metric, u: int)
    ensures var (w', r) := Answer(w, q, track, dist);
            Statement(w', u) == Statement(w, u) +
              if q.RechargeReq? && q.uid == Some(u) && r.Recharged?
              then [AccountRecord(RecordType.Recharge, q.amount, r.balance, q.at)]
              else if q.EndReq? && q.rideNo in w.sessions && r.Ended? && q.uid == Some(u)
              then [AccountRecord(Consume, -r.amount, r.balanceAfter, q.bookedAt)]
              else []
  {
  }

  lemma StepBooks(h: Run, dist: Metric, n: nat, u: int)
    requires IsRun(h, dist) && n < |h.qs|
    ensures Statement(h.ws[n + 1], u) == Statement(h.ws[n], u) + BookedBy(h, n, u)
  {
    RunStep(h, dist, n);
    AnswerBooks(h.ws[n], h.qs[n], h.tracks[n], dist, u);
  }

  ghost predicate StatementFollows(h: Run, n: nat, u: int)
    requires n < |h.ws| && n <= |h.qs| && n <= |h.rs|
  {
    Statement(h.ws[n], u) == Statement(h.ws[0], u) + Bookings(h, n, u)
  }

  lemma FollowsOneBooking(h: Run, dist: Metric, n: nat, u: int)
    requires IsRun(h, dist) && n < |h.qs| && StatementFollows(h, n, u)
    ensures StatementFollows(h, n + 1, u)
  {
    StepBooks(h, dist, n, u);
    Assoc(Statement(h.ws[0], u), Bookings(h, n, u), BookedBy(h, n, u));
  }

  /** The statement of account is the deposits and charges of the run, in order and each with the
      balance that was answered. */
  lemma {:induction false} StatementIsOfRequests(h: Run, dist: Metric, n: nat, u: int)
    requires IsRun(h, dist) && n < |h.ws|
    ensures StatementFollows(h, n, u)
  {
    if n == 0 {
      assert Statement(h.ws[0], u) + [] == Statement(h.ws[0], u);
    } else {
      StatementIsOfRequests(h, dist, n - 1, u);
      FollowsOneBooking(h, dist, n - 1, u);
    }
  }

  /** What the archived rides of `u` cost. */
  function SpentIn(a: Archive, u: int): int {
    if a.nextId == 0 then 0 else Spent(a.rides, a.nextId - 1, u)
  }

  lemma AnswerFilesCharge(w: World, q: Request, track: seq<RidePoint>, dist: Metric, u: int)
    requires ArchiveOk(w.archive)
    ensures var (w', r) := Answer(w, q, track, dist);
            SpentIn(w'.archive, u) == SpentIn(w.archive, u)
              + (if q.EndReq? && q.rideNo in w.sessions && r.Ended? && q.uid == Some(u) then r.amount else 0)
  {
    var (w', r) := Answer(w, q, track, dist);
    if w'.archive != w.archive {
      var id := w.archive.nextId;
      SpentFrame(w.archive.rides, id - 1, id, w'.archive.rides[id], u);
    }
  }

  lemma ChargeIsFiled(h: Run, dist: Metric, n: nat, u: int)
    requires IsRun(h, dist) && n < |h.qs| && ArchiveOk(h.ws[n].archive)
    ensures SpentIn(h.ws[n + 1].archive, u) == SpentIn(h.ws[n].archive, u) + Charges(h, n + 1, u) - Charges(h, n, u)
  {
    RunStep(h, dist, n);
    AnswerFilesCharge(h.ws[n], h.qs[n], h.tracks[n], dist, u);
  }

  lemma ArchiveStaysOk(h: Run, dist: Metric, n: nat)
    requires IsRun(h, dist) && WorldOk(h.ws[0]) && n < |h.ws|
    ensures ArchiveOk(h.ws[n].archive)
  {
    RunKeepsWorld(h, dist, n);
  }

  /** What the archive says a user spent on rides is what the user was charged. */
  lemma {:induction false} ArchiveShowsCharges(h: Run, dist: Metric, n: nat, u: int)
    requires IsRun(h, dist) && WorldOk(h.ws[0]) && n < |h.ws|
    ensures SpentIn(h.ws[n].archive, u) == SpentIn(h.ws[0].archive, u) + Charges(h, n, u)
  {
    if n == 0 {
    } else {
      var m := n - 1;
      ArchiveShowsCharges(h, dist, m, u);
      ArchiveStaysOk(h, dist, m);
      ChargeIsFiled(h, dist, m, u);
    }
  }

  // ---- rides ----

  /** The points reported for a ride by the requests from `i` up to `j`. */
  function PointsSince(qs: seq<Request>, i: nat, j: nat, no: string): seq<RidePoint>
    requires i <= j <= |qs|
    decreases j
  {
    if i == j then []
    else
      var q := qs[j - 1];
      PointsSince(qs, i, j - 1, no) + if q.PositionReq? && q.rideNo == no then [q.point] else []
  }

  /** Request `i` unlocked a bike under this number, and no request after it and before `j` did. */
  predicate OpenedAt(h: Run, i: nat, j: nat, no: string)
    requires j <= |h.qs| && j <= |h.rs|
  {
    && i < j && h.qs[i].UnlockReq? && h.rs[i].Unlocked? && h.rs[i].rideNo == no
    && forall k | i < k < j :: !(h.rs[k].Unlocked? && h.rs[k].rideNo == no)
  }

  /** A request that does not unlock under a ride's number leaves the ride or ends it; only a
      position report for it changes it. */
  lemma AnswerKeepsRide(w: World, q: Request, track: seq<RidePoint>, dist: Metric, no: string)
    ensures var (w', r) := Answer(w, q, track, dist);
            no in w'.sessions && !(r.Unlocked? && r.rideNo == no) ==>
              && no in w.sessions
              && w'.sessions[no] == if q.PositionReq? && q.rideNo == no then Report(w.sessions[no], q.point)
                                    else w.sessions[no]
  {
  }

  lemma ReportOneMore(s: RideSession, ps: seq<RidePoint>, p: RidePoint)
    ensures ReportAll(s, ps + [p]) == Report(ReportAll(s, ps), p)
  {
    assert (ps + [p])[..|ps|] == ps;
  }

  /** What an unlock that succeeded has opened. */
  lemma RideIsOpened(h: Run, dist: Metric, i: nat)
    requires IsRun(h, dist) && WorldOk(h.ws[0]) && i < |h.qs| && h.qs[i].UnlockReq? && h.rs[i].Unlocked?
    ensures h.qs[i].uid.Some? && h.qs[i].bikeNo in h.ws[i].fleet.bikes && h.rs[i].rideNo in h.ws[i + 1].sessions
    ensures var q := h.qs[i];
            IsNew(h.ws[i + 1].sessions[h.rs[i].rideNo], h.rs[i].rideNo, q.uid.value, h.ws[i].fleet.bikes[q.bikeNo].id,
                  q.lat, q.lng, q.startTs)
  {
    var q := h.qs[i];
    RunKeepsWorld(h, dist, i);
    RunStep(h, dist, i);
    UnlockDoes(h.ws[i], q.uid, q.bikeNo, q.lat, q.lng, q.now, q.clock, q.startTs);
  }

  lemma RideGoesOn(h: Run, dist: Metric, n: nat, no: string)
    requires IsRun(h, dist) && n < |h.qs| && no in h.ws[n + 1].sessions && !(h.rs[n].Unlocked? && h.rs[n].rideNo == no)
    ensures no in h.ws[n].sessions
    ensures h.ws[n + 1].sessions[no] == if h.qs[n].PositionReq? && h.qs[n].rideNo == no
            then Report(h.ws[n].sessions[no], h.qs[n].point) else h.ws[n].sessions[no]
  {
    RunStep(h, dist, n);
    AnswerKeepsRide(h.ws[n], h.qs[n], h.tracks[n], dist, no);
  }

  lemma PointsGoOn(qs: seq<Request>, i: nat, n: nat, no: string, s: RideSession)
    requires i <= n < |qs|
    ensures ReportAll(s, PointsSince(qs, i, n + 1, no)) ==
            if qs[n].PositionReq? && qs[n].rideNo == no then Report(ReportAll(s, PointsSince(qs, i, n, no)), qs[n].point)
            else ReportAll(s, PointsSince(qs, i, n, no))
  {
    var ps := PointsSince(qs, i, n, no);
    if qs[n].PositionReq? && qs[n].rideNo == no {
      ReportOneMore(s, ps, qs[n].point);
    } else {
      assert ps + [] == ps;
    }
  }

  /** A live ride is the session its unlock opened, as the reports since have made it. */
  ghost predicate FollowsRequests(h: Run, i: nat, j: nat, no: string)
    requires i < j <= |h.qs| && j < |h.ws|
  {
    && no in h.ws[i + 1].sessions && no in h.ws[j].sessions
    && h.ws[j].sessions[no] == ReportAll(h.ws[i + 1].sessions[no], PointsSince(h.qs, i + 1, j, no))
  }

  lemma FollowsAtFirst(h: Run, i: nat, no: string)
    requires i < |h.qs| && i + 1 < |h.ws| && no in h.ws[i + 1].sessions
    ensures FollowsRequests(h, i, i + 1, no)
  {
  }

  lemma FollowsOneMore(h: Run, dist: Metric, i: nat, n: nat, no: string)
    requires IsRun(h, dist) && i < n < |h.qs| && FollowsRequests(h, i, n, no)
    requires no in h.ws[n + 1].sessions && !(h.rs[n].Unlocked? && h.rs[n].rideNo == no)
    ensures FollowsRequests(h, i, n + 1, no)
  {
    RideGoesOn(h, dist, n, no);
    PointsGoOn(h.qs, i + 1, n, no, h.ws[i + 1].sessions[no]);
  }

  lemma {:induction false} RideIsOfItsRequests(h: Run, dist: Metric, i: nat, j: nat, no: string)
    requires IsRun(h, dist) && j < |h.ws| && OpenedAt(h, i, j, no) && no in h.ws[j].sessions
    ensures FollowsRequests(h, i, j, no)
    decreases j
  {
    if j == i + 1 {
      FollowsAtFirst(h, i, no);
    } else {
      var n := j - 1;
      assert OpenedAt(h, i, n, no) && !(h.rs[n].Unlocked? && h.rs[n].rideNo == no);
      RideGoesOn(h, dist, n, no);
      RideIsOfItsRequests(h, dist, i, n, no);
      FollowsOneMore(h, dist, i, n, no);
    }
  }

  /** The points of a live ride are the last 3600 of the reports since its unlock that were newer
      than all before, and its last number is the newest. */
  lemma LivePointsAreOfReports(h: Run, dist: Metric, i: nat, j: nat, no: string)
    requires IsRun(h, dist) && WorldOk(h.ws[0]) && j < |h.ws| && OpenedAt(h, i, j, no) && no in h.ws[j].sessions
    ensures var records := Records(PointsSince(h.qs, i + 1, j, no));
            && h.ws[j].sessions[no].points == LastOf(records, 3600)
            && h.ws[j].sessions[no].lastSeq == if records == [] then 0 else records[|records| - 1].seqNo
  {
    RideIsOpened(h, dist, i);
    RideIsOfItsRequests(h, dist, i, j, no);
    PointsAreLastRecords(h.ws[i + 1].sessions[no], PointsSince(h.qs, i + 1, j, no));
  }

  lemma {:induction false} ReportsKeepStart(s: RideSession, ps: seq<RidePoint>)
    ensures var t := ReportAll(s, ps);
            && t.rideNo == s.rideNo && t.userId == s.userId && t.bikeId == s.bikeId
            && t.startLat == s.startLat && t.startLng == s.startLng && t.startTs == s.startTs
  {
    if ps == [] {
    } else {
      ReportsKeepStart(s, ps[..|ps| - 1]);
    }
  }

  /** Whose a live ride is, on which bike, and where and when it began. */
  lemma RideBeganWithItsUnlock(h: Run, dist: Metric, i: nat, j: nat, no: string)
    requires IsRun(h, dist) && WorldOk(h.ws[0]) && j < |h.ws| && OpenedAt(h, i, j, no) && no in h.ws[j].sessions
    ensures h.qs[i].bikeNo in h.ws[i].fleet.bikes
    ensures var s, q := h.ws[j].sessions[no], h.qs[i];
            && s.rideNo == no && q.uid == Some(s.userId) && s.bikeId == h.ws[i].fleet.bikes[q.bikeNo].id
            && s.startLat == q.lat && s.startLng == q.lng && s.startTs == q.startTs
  {
    RideIsOpened(h, dist, i);
    RideIsOfItsRequests(h, dist, i, j, no);
    ReportsKeepStart(h.ws[i + 1].sessions[no], PointsSince(h.qs, i + 1, j, no));
  }

  /** The figures of a ride, in terms of the request that opened it and the one that ended it. */
  lemma EndedRideHasItsFigures(h: Run, dist: Metric, i: nat, j: nat, no: string) returns (k: nat)
    requires IsRun(h, dist) && WorldOk(h.ws[0]) && j < |h.qs| && OpenedAt(h, i, j, no)
    requires EndedHere(h, j) && h.qs[j].rideNo == no
    ensures h.qs[j].uid == h.qs[i].uid && h.qs[j].uid.Some?
    ensures var elapsed := h.qs[j].at - h.qs[i].startTs;
            && (0 <= elapsed < 0x8000_0000 ==> h.rs[j].duration == elapsed)
            && (-0x8000_0000 <= elapsed <= 0 ==> h.rs[j].duration == 0 && h.rs[j].amount == 100)
    ensures h.rs[j].amount == 100 + 50 * k && h.rs[j].duration <= 900 * (k + 1) && (k > 0 ==> 900 * k < h.rs[j].duration)
    ensures h.rs[j].balanceAfter == Balance(h.ws[j].bal, h.qs[j].uid.value) - h.rs[j].amount >= 0
  {
    var q, s := h.qs[j], h.ws[j].sessions[no];
    RideBeganWithItsUnlock(h, dist, i, j, no);
    RunKeepsWorld(h, dist, j);
    RunStep(h, dist, j);
    EndPays(h.ws[j], q.uid, no, q.lat, q.lng, q.at, q.bookedAt, h.tracks[j], dist);
    DurationIsElapsed(s, q.at);
    k := FeeIsLeast(h.rs[j].duration);
  }

  lemma TrackIsFiled(h: Run, dist: Metric, j: nat)
    requires IsRun(h, dist) && WorldOk(h.ws[0]) && j < |h.qs| && EndedHere(h, j)
    ensures var q, a := h.qs[j], h.ws[j + 1].archive;
            var s := h.ws[j].sessions[q.rideNo];
            && q.rideNo in a.byNo && a.byNo[q.rideNo] in a.points
            && IsTrack(a.points[a.byNo[q.rideNo]], RawTrack(s, q.lat, q.lng, h.rs[j].duration))
            && h.rs[j].distance == Truncate(Length(a.points[a.byNo[q.rideNo]], dist))
  {
    var q := h.qs[j];
    RunKeepsWorld(h, dist, j);
    RunStep(h, dist, j);
    EndPays(h.ws[j], q.uid, q.rideNo, q.lat, q.lng, q.at, q.bookedAt, h.tracks[j], dist);
    EndFiles(h.ws[j], q.uid, q.rideNo, q.lat, q.lng, q.at, q.bookedAt, h.tracks[j], dist);
  }

  /** The archived track of a ride: where it was unlocked, the last 3600 newest-so-far reports since,
      and where it was ended, arranged by time. */
  lemma ArchivedTrackIsOfRequests(h: Run, dist: Metric, i: nat, j: nat, no: string)
    requires IsRun(h, dist) && WorldOk(h.ws[0]) && j < |h.qs| && OpenedAt(h, i, j, no)
    requires EndedHere(h, j) && h.qs[j].rideNo == no
    ensures var records, a := Records(PointsSince(h.qs, i + 1, j, no)), h.ws[j + 1].archive;
            var last := if records == [] then 0 else records[|records| - 1].seqNo;
            var from, to := h.qs[i], h.qs[j];
            && no in a.byNo && a.byNo[no] in a.points
            && IsTrack(a.points[a.byNo[no]],
                       [RidePoint(0, from.lat, from.lng, 0)] + LastOf(records, 3600)
                       + [RidePoint(last + 1, to.lat, to.lng, h.rs[j].duration)])
            && h.rs[j].distance == Truncate(Length(a.points[a.byNo[no]], dist))
  {
    RideBeganWithItsUnlock(h, dist, i, j, no);
    LivePointsAreOfReports(h, dist, i, j, no);
    TrackIsFiled(h, dist, j);
  }

  // ---- bikes ----

  lemma AnswerKeepsIds(w: World, q: Request, track: seq<RidePoint>, dist: Metric, b: string)
    requires b in w.fleet.bikes
    ensures var bikes' := Answer(w, q, track, dist).0.fleet.bikes;
            b in bikes' && bikes'[b].id == w.fleet.bikes[b].id
  {
  }

  lemma {:induction false} BikeKeepsId(h: Run, dist: Metric, i: nat, j: nat, b: string)
    requires IsRun(h, dist) && i <= j < |h.ws| && b in h.ws[i].fleet.bikes
    ensures b in h.ws[j].fleet.bikes && h.ws[j].fleet.bikes[b].id == h.ws[i].fleet.bikes[b].id
    decreases j
  {
    if i == j {
    } else {
      BikeKeepsId(h, dist, i, j - 1, b);
      RunStep(h, dist, j - 1);
      AnswerKeepsIds(h.ws[j - 1], h.qs[j - 1], h.tracks[j - 1], dist, b);
    }
  }

  /** After a ride, the bike that was unlocked stands idle where the ride was ended. */
  lemma BikeStandsWhereRideEnded(h: Run, dist: Metric, i: nat, j: nat, no: string)
    requires IsRun(h, dist) && WorldOk(h.ws[0]) && j < |h.qs| && OpenedAt(h, i, j, no)
    requires EndedHere(h, j) && h.qs[j].rideNo == no
    ensures var b, bikes := h.qs[i].bikeNo, h.ws[j + 1].fleet.bikes;
            b in bikes && bikes[b].status == Idle && bikes[b].lat == h.qs[j].lat && bikes[b].lng == h.qs[j].lng
  {
    var q, b := h.qs[j], h.qs[i].bikeNo;
    RideBeganWithItsUnlock(h, dist, i, j, no);
    BikeKeepsId(h, dist, i, j, b);
    RunStep(h, dist, j);
    EndMovesBike(h.ws[j], q.uid, no, q.lat, q.lng, q.at, q.bookedAt, h.tracks[j], dist, b);
  }
}
