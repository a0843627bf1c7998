/** Position reports of a live ride, and the track archived when it ends. */
module Track {
  datatype RidePoint = RidePoint(seqNo: int, lat: real, lng: real, elapsed: int)

  /** A live ride. `points` are the accepted reports, without start and end. */
  datatype RideSession = RideSession(
    rideNo: string, userId: int, bikeId: int,
    startLat: real, startLng: real, startTs: int,
    lastLat: real, lastLng: real, lastSeq: int, points: seq<RidePoint>)

  const MAX_POINTS: nat := 3600

  // ---- update_pos ----

  /** One report: ignored when not newer than the newest accepted one; the very first is always
      accepted; beyond the limit the oldest point is dropped. */
  function Report(s: RideSession, p: RidePoint): RideSession {
    if (s.lastSeq != 0 || s.points != []) && p.seqNo <= s.lastSeq then s
    else
      var pts := s.points + [p];
      s.(lastLat := p.lat, lastLng := p.lng, lastSeq := p.seqNo,
         points := if |pts| > MAX_POINTS then pts[1..] else pts)
  }

  function ReportAll(s: RideSession, ps: seq<RidePoint>): RideSession {
    if ps == [] then s else Report(ReportAll(s, ps[..|ps| - 1]), ps[|ps| - 1])
  }

  /** The report at `i` is newer than every report before it. */
  predicate IsRecord(ps: seq<RidePoint>, i: nat)
    requires i < |ps|
  {
    forall j | 0 <= j < i :: ps[j].seqNo < ps[i].seqNo
  }

  /** The reports that set a new maximum of `seqNo`, in order of arrival. */
  function Records(ps: seq<RidePoint>): seq<RidePoint> {
    if ps == [] then []
    else
      var n := |ps| - 1;
      Records(ps[..n]) + if IsRecord(ps, n) then [ps[n]] else []
  }

  function LastOf(ps: seq<RidePoint>, n: nat): seq<RidePoint> {
    if |ps| <= n then ps else ps[|ps| - n..]
  }

  /** The newest record carries the maximum of all sequence numbers so far. */
  lemma {:induction false} NewestRecordIsMaximum(ps: seq<RidePoint>)
    requires ps != []
    ensures Records(ps) != []
    ensures forall j | 0 <= j < |ps| :: ps[j].seqNo <= Records(ps)[|Records(ps)| - 1].seqNo
    ensures exists j | 0 <= j < |ps| :: ps[j] == Records(ps)[|Records(ps)| - 1]
  {
    var n := |ps| - 1;
    if n == 0 {
    } else {
      NewestRecordIsMaximum(ps[..n]);
      var r := Records(ps[..n]);
      var j :| 0 <= j < n && ps[..n][j] == r[|r| - 1];
      assert forall i | 0 <= i < n :: ps[i] == ps[..n][i];
      if !IsRecord(ps, n) {
        assert ps[j] == r[|r| - 1];
      }
    }
  }

  /** After any reports on a fresh session, its points are exactly the last 3600 records of the
      sequence numbers, and `lastSeq` is the newest one. */
  lemma {:induction false} PointsAreLastRecords(s: RideSession, ps: seq<RidePoint>)
    requires s.points == [] && s.lastSeq == 0
    ensures var t := ReportAll(s, ps);
            && t.points == LastOf(Records(ps), MAX_POINTS)
            && (ps != [] ==> Records(ps) != [])
            && t.lastSeq == (if ps == [] then 0 else Records(ps)[|Records(ps)| - 1].seqNo)
  {
    if ps == [] {
    } else {
      var n := |ps| - 1;
      PointsAreLastRecords(s, ps[..n]);
      NewestRecordIsMaximum(ps);
      if n > 0 {
        NewestRecordIsMaximum(ps[..n]);
        var r := Records(ps[..n]);
        var j :| 0 <= j < n && ps[..n][j] == r[|r| - 1];
        assert forall i | 0 <= i < n :: ps[i] == ps[..n][i];
        assert IsRecord(ps, n) <==> ps[n].seqNo > r[|r| - 1].seqNo;
      }
    }
  }

  /** The ride was last seen where the newest report says. */
  lemma {:induction false} LastSeenIsNewest(s: RideSession, ps: seq<RidePoint>)
    requires s.points == [] && s.lastSeq == 0 && ps != []
    ensures Records(ps) != []
    ensures var t, newest := ReportAll(s, ps), Records(ps)[|Records(ps)| - 1];
            t.lastLat == newest.lat && t.lastLng == newest.lng
  {
    var n := |ps| - 1;
    NewestRecordIsMaximum(ps);
    PointsAreLastRecords(s, ps[..n]);
    if n == 0 {
    } else {
      LastSeenIsNewest(s, ps[..n]);
      NewestRecordIsMaximum(ps[..n]);
      var r := Records(ps[..n]);
      var j :| 0 <= j < n && ps[..n][j] == r[|r| - 1];
      assert forall i | 0 <= i < n :: ps[i] == ps[..n][i];
      assert IsRecord(ps, n) <==> ps[n].seqNo > r[|r| - 1].seqNo;
    }
  }

  lemma {:induction false} RecordsIncrease(ps: seq<RidePoint>, i: nat, j: nat)
    requires i < j < |Records(ps)|
    ensures Records(ps)[i].seqNo < Records(ps)[j].seqNo
  {
    var n := |ps| - 1;
    var r := Records(ps[..n]);
    if j < |r| {
      RecordsIncrease(ps[..n], i, j);
    } else {
      NewestRecordIsMaximum(ps[..n]);
      var k :| 0 <= k < n && ps[..n][k] == r[|r| - 1];
      assert ps[k].seqNo < ps[n].seqNo;
      if i < |r| - 1 {
        RecordsIncrease(ps[..n], i, |r| - 1);
      }
    }
  }

  // ---- the archived track ----

  function StartPoint(s: RideSession): RidePoint {
    RidePoint(0, s.startLat, s.startLng, 0)
  }

  function EndPoint(s: RideSession, lat: real, lng: real, duration: int): RidePoint {
    RidePoint(s.lastSeq + 1, lat, lng, duration)
  }

  function RawTrack(s: RideSession, lat: real, lng: real, duration: int): seq<RidePoint> {
    [StartPoint(s)] + s.points + [EndPoint(s, lat, lng, duration)]
  }

  predicate SortedByTime(ps: seq<RidePoint>) {
    forall i, j | 0 <= i < j < |ps| :: ps[i].elapsed <= ps[j].elapsed
  }

  ghost predicate IsTrack(track: seq<RidePoint>, raw: seq<RidePoint>) {
    SortedByTime(track) && multiset(track) == multiset(raw)
  }

  function Insert(ps: seq<RidePoint>, p: RidePoint): seq<RidePoint> {
    if ps == [] then [p]
    else if ps[0].elapsed <= p.elapsed then [ps[0]] + Insert(ps[1..], p)
    else [p] + ps
  }

  lemma {:induction false} InsertPermutes(ps: seq<RidePoint>, p: RidePoint)
    ensures multiset(Insert(ps, p)) == multiset(ps) + multiset{p}
  {
    if ps == [] || p.elapsed < ps[0].elapsed {
    } else {
      InsertPermutes(ps[1..], p);
      assert ps == [ps[0]] + ps[1..];
    }
  }

  lemma {:induction false} InsertKeepsBound(ps: seq<RidePoint>, p: RidePoint, b: int)
    requires b <= p.elapsed && forall i | 0 <= i < |ps| :: b <= ps[i].elapsed
    ensures forall i | 0 <= i < |Insert(ps, p)| :: b <= Insert(ps, p)[i].elapsed
  {
    if ps == [] || p.elapsed < ps[0].elapsed {
    } else {
      InsertKeepsBound(ps[1..], p, b);
    }
  }

  lemma {:induction false} InsertSorts(ps: seq<RidePoint>, p: RidePoint)
    requires SortedByTime(ps)
    ensures SortedByTime(Insert(ps, p))
  {
    if ps == [] || p.elapsed < ps[0].elapsed {
    } else {
      InsertSorts(ps[1..], p);
      InsertKeepsBound(ps[1..], p, ps[0].elapsed);
    }
  }

  /** Some sorted permutation; which one, among points of equal time, is not promised. */
  method SortByTime(raw: seq<RidePoint>) returns (track: seq<RidePoint>)
    ensures IsTrack(track, raw)
  {
    track := [];
    for i := 0 to |raw|
      invariant IsTrack(track, raw[..i])
    {
      assert raw[..i + 1] == raw[..i] + [raw[i]];
      InsertSorts(track, raw[i]);
      InsertPermutes(track, raw[i]);
      track := Insert(track, raw[i]);
    }
    assert raw[..|raw|] == raw;
  }

  // ---- where the archived track begins and ends ----

  predicate FromTo(track: seq<RidePoint>, a: RidePoint, z: RidePoint) {
    track != [] && track[0] == a && track[|track| - 1] == z
  }

  /** Of all points to be archived, only the start has time 0 or less, and only the end has the
      time of the end or more. */
  predicate Enclosed(s: RideSession, lat: real, lng: real, duration: int) {
    forall p | p in RawTrack(s, lat, lng, duration) ::
      && (p == StartPoint(s) || 0 < p.elapsed)
      && (p == EndPoint(s, lat, lng, duration) || p.elapsed < duration)
  }

  lemma EnclosedTrack(s: RideSession, lat: real, lng: real, duration: int, track: seq<RidePoint>)
    requires Enclosed(s, lat, lng, duration) && IsTrack(track, RawTrack(s, lat, lng, duration))
    ensures FromTo(track, StartPoint(s), EndPoint(s, lat, lng, duration))
  {
    var raw := RawTrack(s, lat, lng, duration);
    var a, z := StartPoint(s), EndPoint(s, lat, lng, duration);
    assert raw[0] == a && raw[|raw| - 1] == z;
    assert a in multiset(track) && z in multiset(track);
    var i :| 0 <= i < |track| && track[i] == a;
    var j :| 0 <= j < |track| && track[j] == z;
    var first, last := track[0], track[|track| - 1];
    assert first in multiset(raw) && last in multiset(raw);
    assert first in raw && last in raw;
    assert first.elapsed <= a.elapsed && z.elapsed <= last.elapsed;
  }

  lemma TakenOut(raw: seq<RidePoint>, k: nat)
    requires k < |raw|
    ensures multiset(raw) == multiset(raw[..k] + raw[k + 1..]) + multiset{raw[k]}
  {
    assert raw == raw[..k] + [raw[k]] + raw[k + 1..];
  }

  lemma {:induction false} InsertKeepsLast(ps: seq<RidePoint>, p: RidePoint)
    requires ps != []
    ensures Insert(ps, p)[|Insert(ps, p)| - 1] in {p, ps[|ps| - 1]}
  {
    if |ps| == 1 || p.elapsed < ps[0].elapsed {
    } else {
      InsertKeepsLast(ps[1..], p);
    }
  }

  lemma {:induction false} Sorted(raw: seq<RidePoint>) returns (track: seq<RidePoint>)
    ensures IsTrack(track, raw)
  {
    if raw == [] {
      track := [];
    } else {
      track := Sorted(raw[1..]);
      assert raw == [raw[0]] + raw[1..];
      InsertSorts(track, raw[0]);
      InsertPermutes(track, raw[0]);
      track := Insert(track, raw[0]);
    }
  }

  lemma AddedInFront(t: seq<RidePoint>, p: RidePoint)
    requires SortedByTime(t) && (t == [] || p.elapsed <= t[0].elapsed)
    ensures SortedByTime([p] + t) && multiset([p] + t) == multiset(t) + multiset{p}
  {
  }

  lemma AddedBehind(t: seq<RidePoint>, p: RidePoint)
    requires SortedByTime(t) && (t == [] || t[|t| - 1].elapsed <= p.elapsed)
    ensures SortedByTime(t + [p]) && multiset(t + [p]) == multiset(t) + multiset{p}
  {
  }

  lemma AddedAnywhere(t: seq<RidePoint>, p: RidePoint)
    requires SortedByTime(t) && t != []
    ensures SortedByTime(Insert(t, p)) && multiset(Insert(t, p)) == multiset(t) + multiset{p}
    ensures var n := |Insert(t, p)|; n > 0 && Insert(t, p)[0] in {p, t[0]} && Insert(t, p)[n - 1] in {p, t[|t| - 1]}
  {
    InsertSorts(t, p);
    InsertPermutes(t, p);
    InsertKeepsLast(t, p);
  }

  /** If some other point is no later than `a`, a sort may put a point other than `a` first. */
  lemma SortedWithFirst(raw: seq<RidePoint>, k: nat, a: RidePoint) returns (track: seq<RidePoint>)
    requires k < |raw| && raw[k] != a && raw[k].elapsed <= a.elapsed
    ensures IsTrack(track, raw) && track != [] && track[0] != a
  {
    var p := raw[k];
    TakenOut(raw, k);
    var t := Sorted(raw[..k] + raw[k + 1..]);
    if t != [] && t[0].elapsed < a.elapsed {
      AddedAnywhere(t, p);
      track := Insert(t, p);
    } else {
      AddedInFront(t, p);
      track := [p] + t;
    }
  }

  /** If some other point is no earlier than `z`, a sort may put a point other than `z` last. */
  lemma SortedWithLast(raw: seq<RidePoint>, k: nat, z: RidePoint) returns (track: seq<RidePoint>)
    requires k < |raw| && raw[k] != z && z.elapsed <= raw[k].elapsed
    ensures IsTrack(track, raw) && track != [] && track[|track| - 1] != z
  {
    var p := raw[k];
    TakenOut(raw, k);
    var t := Sorted(raw[..k] + raw[k + 1..]);
    if t != [] && z.elapsed < t[|t| - 1].elapsed {
      AddedAnywhere(t, p);
      track := Insert(t, p);
    } else {
      AddedBehind(t, p);
      track := t + [p];
    }
  }

  /** The sort promises nothing about points of equal time. The archived track is sure to run from
      the start to the end if and only if all other points lie strictly between the two in time. */
  lemma TrackRunsFromStartToEnd(s: RideSession, lat: real, lng: real, duration: int)
    ensures (forall track | IsTrack(track, RawTrack(s, lat, lng, duration)) ::
               FromTo(track, StartPoint(s), EndPoint(s, lat, lng, duration)))
            <==> Enclosed(s, lat, lng, duration)
  {
    var raw := RawTrack(s, lat, lng, duration);
    var a, z := StartPoint(s), EndPoint(s, lat, lng, duration);
    if Enclosed(s, lat, lng, duration) {
      forall track | IsTrack(track, raw) ensures FromTo(track, a, z) {
        EnclosedTrack(s, lat, lng, duration, track);
      }
    } else {
      var p :| p in raw && !((p == a || 0 < p.elapsed) && (p == z || p.elapsed < duration));
      var k :| 0 <= k < |raw| && raw[k] == p;
      if p == a || 0 < p.elapsed {
        var track := SortedWithLast(raw, k, z);
        assert IsTrack(track, raw) && !FromTo(track, a, z);
      } else {
        var track := SortedWithFirst(raw, k, a);
        assert IsTrack(track, raw) && !FromTo(track, a, z);
      }
    }
  }

  /** A single report can be enough to spoil the archived track: one that claims a time not after
      the start, or not before the end. */
  lemma OneReportSpoilsTrack(s: RideSession, p: RidePoint, lat: real, lng: real, duration: int)
    requires s.points == [] && s.lastSeq == 0
    requires (p.elapsed <= 0 && p.seqNo != 0) || duration <= p.elapsed
    ensures exists track :: IsTrack(track, RawTrack(Report(s, p), lat, lng, duration)) &&
              !FromTo(track, StartPoint(s), EndPoint(Report(s, p), lat, lng, duration))
  {
    var s' := Report(s, p);
    assert RawTrack(s', lat, lng, duration)[1] == p;
    assert !Enclosed(s', lat, lng, duration);
    TrackRunsFromStartToEnd(s', lat, lng, duration);
  }
}
