/** The in-memory repositories behind the handlers. */
module Repos {
  import opened Words
  import opened Wrappers
  import opened Track

  const INT_MAX: int := 0x7FFF_FFFF

  // ---- accounts ----

  datatype RecordType = Recharge | Consume
  datatype AccountRecord = AccountRecord(kind: RecordType, amount: int, balanceAfter: int, timestamp: int)

  function Total(rs: seq<AccountRecord>): int {
    if rs == [] then 0 else Total(rs[..|rs| - 1]) + rs[|rs| - 1].amount
  }

  function Balance(bal: map<int, int>, uid: int): int {
    if uid in bal then bal[uid] else 0
  }

  /** A statement of account that closes with balance `b`: undoing the amounts from the last record
      back, each record shows the balance it left, never negative. */
  ghost predicate IsStatement(rs: seq<AccountRecord>, b: int) {
    if rs == [] then b == 0
    else var last := rs[|rs| - 1]; last.balanceAfter == b >= 0 && IsStatement(rs[..|rs| - 1], b - last.amount)
  }

  ghost predicate LedgerOk(bal: map<int, int>, records: map<int, seq<AccountRecord>>) {
    && bal.Keys == records.Keys
    && forall u | u in records :: IsStatement(records[u], bal[u])
  }

  /** Each record shows the sum of all amounts up to it, and the closing balance is the whole sum. */
  lemma {:induction false} StatementShowsSums(rs: seq<AccountRecord>, b: int)
    requires IsStatement(rs, b)
    ensures b == Total(rs) >= 0
    ensures forall i | 0 <= i < |rs| :: rs[i].balanceAfter == Total(rs[..i + 1]) >= 0
  {
    if rs != [] {
      var n := |rs| - 1;
      StatementShowsSums(rs[..n], b - rs[n].amount);
      forall i | 0 <= i < |rs| ensures rs[i].balanceAfter == Total(rs[..i + 1]) >= 0 {
        if i < n {
          assert rs[..n][..i + 1] == rs[..i + 1];
        } else {
          assert rs[..i + 1] == rs;
        }
      }
    }
  }

  function Booked(records: map<int, seq<AccountRecord>>, uid: int, r: AccountRecord): map<int, seq<AccountRecord>> {
    records[uid := (if uid in records then records[uid] else []) + [r]]
  }

  lemma BookingKeepsLedger(bal: map<int, int>, records: map<int, seq<AccountRecord>>, uid: int, r: AccountRecord)
    requires LedgerOk(bal, records) && r.balanceAfter == Balance(bal, uid) + r.amount >= 0
    ensures LedgerOk(bal[uid := r.balanceAfter], Booked(records, uid, r))
  {
    var rs := if uid in records then records[uid] else [];
    assert (rs + [r])[..|rs|] == rs;
    assert IsStatement(rs, Balance(bal, uid)) && IsStatement(rs + [r], r.balanceAfter);
  }

  class AccountRepo {
    var bal: map<int, int>
    var records: map<int, seq<AccountRecord>>

    constructor ()
      ensures bal == map[] && records == map[]
    {
      bal, records := map[], map[];
    }

    ghost predicate Valid()
      reads this
    {
      LedgerOk(bal, records)
    }

    /** Books an amount. A withdrawal beyond the balance is refused with -1 and changes nothing.
        A deposit must keep the sum within a 32-bit `int`: beyond it the addition is undefined. */
    method AddBalance(uid: int, kind: RecordType, amount: int, now: int) returns (b: int)
      requires Valid()
      requires amount > 0 ==> Balance(bal, uid) + amount <= INT_MAX
      modifies this
      ensures Valid()
      ensures b == if amount < 0 && Balance(old(bal), uid) + amount < 0 then -1
                   else Balance(old(bal), uid) + amount
      ensures b >= 0 <==> !(amount < 0 && Balance(old(bal), uid) + amount < 0)
      ensures b < 0 ==> bal == old(bal) && records == old(records)
      ensures b >= 0 ==>
                && bal == old(bal)[uid := b]
                && records == Booked(old(records), uid, AccountRecord(kind, amount, b, now))
    {
      var cur := if uid in bal then bal[uid] else 0;
      if amount < 0 && cur + amount < 0 {
        return -1;
      }
      b := cur + amount;
      var rs := if uid in records then records[uid] else [];
      BookingKeepsLedger(bal, records, uid, AccountRecord(kind, amount, b, now));
      bal := bal[uid := b];
      records := records[uid := rs + [AccountRecord(kind, amount, b, now)]];
    }

    /** The newest records first; a negative limit, converted to unsigned, is no limit. */
    method ListRecords(uid: int, limit: int) returns (out: seq<AccountRecord>)
      ensures uid !in records ==> out == []
      ensures uid in records ==>
                && |out| == (if limit < 0 then |records[uid]| else Min(limit, |records[uid]|))
                && forall i | 0 <= i < |out| :: out[i] == records[uid][|records[uid]| - 1 - i]
    {
      out := [];
      if uid !in records {
        return;
      }
      var v := records[uid];
      var n := if limit < 0 then |v| else Min(limit, |v|);
      while |out| < n
        invariant |out| <= n
        invariant forall i | 0 <= i < |out| :: out[i] == v[|v| - 1 - i]
      {
        out := out + [v[|v| - 1 - |out|]];
      }
    }
  }

  // ---- bikes ----

  datatype BikeStatus = Idle | Rented | Damaged
  datatype Bike = Bike(id: int, lat: real, lng: real, status: BikeStatus)

  ghost predicate UniqueIds(bikes: map<string, Bike>) {
    forall a, b | a in bikes && b in bikes && bikes[a].id == bikes[b].id :: a == b
  }

  function WithStatus(bikes: map<string, Bike>, id: int, s: BikeStatus): map<string, Bike> {
    map no | no in bikes :: if bikes[no].id == id then bikes[no].(status := s) else bikes[no]
  }

  function WithLocation(bikes: map<string, Bike>, id: int, lat: real, lng: real): map<string, Bike> {
    map no | no in bikes :: if bikes[no].id == id then bikes[no].(lat := lat, lng := lng) else bikes[no]
  }

  datatype Fleet = Fleet(bikes: map<string, Bike>, nextId: int)

  /** Ids are unique and newly inserted bikes get larger ones. */
  ghost predicate FleetOk(f: Fleet) {
    UniqueIds(f.bikes) && forall no | no in f.bikes :: f.bikes[no].id < f.nextId
  }

  function Inserted(f: Fleet, no: string, b: Bike): Fleet {
    Fleet(f.bikes[no := b.(id := f.nextId)], f.nextId + 1)
  }

  class BikeRepo {
    var bikes: map<string, Bike>
    var nextId: int

    constructor (f: Fleet)
      ensures State() == f
    {
      bikes, nextId := f.bikes, f.nextId;
    }

    function State(): Fleet
      reads this
    {
      Fleet(bikes, nextId)
    }

    ghost predicate Valid()
      reads this
    {
      FleetOk(State())
    }

    /** Searches the table for the bike; stops at the first match. */
    method FindById(id: int) returns (found: Option<string>)
      ensures found.Some? ==> found.value in bikes && bikes[found.value].id == id
      ensures found.None? ==> forall no | no in bikes :: bikes[no].id != id
    {
      var todo := bikes.Keys;
      while todo != {}
        invariant todo <= bikes.Keys
        invariant forall no | no in bikes && no !in todo :: bikes[no].id != id
        decreases |todo|
      {
        var no :| no in todo;
        if bikes[no].id == id {
          return Some(no);
        }
        todo := todo - {no};
      }
      return None;
    }

    method UpdateStatus(id: int, s: BikeStatus) returns (found: bool)
      requires Valid()
      modifies this`bikes
      ensures Valid()
      ensures bikes == WithStatus(old(bikes), id, s)
      ensures found <==> exists no :: no in old(bikes) && old(bikes)[no].id == id
    {
      var no := FindById(id);
      if no.None? {
        return false;
      }
      assert forall other | other in bikes && other != no.value :: bikes[other].id != id;
      bikes := bikes[no.value := bikes[no.value].(status := s)];
      return true;
    }

    method UpdateLocation(id: int, lat: real, lng: real) returns (found: bool)
      requires Valid()
      modifies this`bikes
      ensures Valid()
      ensures bikes == WithLocation(old(bikes), id, lat, lng)
      ensures found <==> exists no :: no in old(bikes) && old(bikes)[no].id == id
    {
      var no := FindById(id);
      if no.None? {
        return false;
      }
      assert forall other | other in bikes && other != no.value :: bikes[other].id != id;
      bikes := bikes[no.value := bikes[no.value].(lat := lat, lng := lng)];
      return true;
    }

    /** A bike number already in use is refused. */
    method InsertBike(no: string, b: Bike) returns (r: Option<Bike>)
      requires Valid()
      modifies this
      ensures Valid()
      ensures r.None? <==> no in old(bikes)
      ensures r.Some? ==> forall other | other in old(bikes) :: old(bikes)[other].id != r.value.id
      ensures State() == if r.None? then old(State()) else Inserted(old(State()), no, b)
      ensures r.Some? ==> r.value == bikes[no]
    {
      if no in bikes {
        return None;
      }
      var nb := b.(id := nextId);
      nextId := nextId + 1;
      bikes := bikes[no := nb];
      return Some(nb);
    }
  }

  // ---- archived rides ----

  datatype Ride = Ride(rideNo: string, userId: int, bikeId: int, startTs: int, endTs: int,
                       startLat: real, startLng: real, endLat: real, endLng: real,
                       durationSec: int, distanceM: int, amountCent: int)

  datatype Archive = Archive(rides: map<nat, Ride>, points: map<nat, seq<RidePoint>>, byNo: map<string, nat>,
                             nextId: nat)

  ghost predicate ArchiveOk(a: Archive) {
    && 1 <= a.nextId && (forall i | i in a.rides :: 1 <= i < a.nextId)
    && a.points.Keys == a.rides.Keys
    && (forall no | no in a.byNo :: a.byNo[no] in a.rides && a.rides[a.byNo[no]].rideNo == no)
  }

  function Filed(a: Archive, r: Ride, pts: seq<RidePoint>): Archive {
    Archive(a.rides[a.nextId := r], a.points[a.nextId := pts], a.byNo[r.rideNo := a.nextId], a.nextId + 1)
  }

  function Lookup(a: Archive, no: string): Option<Ride> {
    if no in a.byNo && a.byNo[no] in a.rides then Some(a.rides[a.byNo[no]]) else None
  }

  class RideRepo {
    var rides: map<nat, Ride>
    var points: map<nat, seq<RidePoint>>
    var byNo: map<string, nat>
    var nextId: nat

    constructor ()
      ensures State() == Archive(map[], map[], map[], 1)
    {
      rides, points, byNo, nextId := map[], map[], map[], 1;
    }

    function State(): Archive
      reads this
    {
      Archive(rides, points, byNo, nextId)
    }

    ghost predicate Valid()
      reads this
    {
      ArchiveOk(State())
    }

    /** A later ride of the same number replaces the earlier one under that number. */
    method CreateWithPoints(r: Ride, pts: seq<RidePoint>)
      requires Valid()
      modifies this
      ensures Valid() && State() == Filed(old(State()), r, pts)
      ensures old(nextId) !in old(rides) && Lookup(State(), r.rideNo) == Some(r)
      ensures forall no | no != r.rideNo :: Lookup(State(), no) == old(Lookup(State(), no))
    {
      var id := nextId;
      nextId := nextId + 1;
      rides := rides[id := r];
      points := points[id := pts];
      byNo := byNo[r.rideNo := id];
    }

    method FindByNo(no: string) returns (r: Option<Ride>)
      requires Valid()
      ensures r == Lookup(State(), no)
      ensures r.Some? ==> r.value.rideNo == no
    {
      if no in byNo {
        return Some(rides[byNo[no]]);
      }
      return None;
    }
  }

  /** What a user's archived rides have cost. */
  function Spent(rides: map<nat, Ride>, n: nat, uid: int): int {
    if n == 0 then 0
    else Spent(rides, n - 1, uid) + (if n in rides && rides[n].userId == uid then rides[n].amountCent else 0)
  }

  lemma {:induction false} SpentFrame(rides: map<nat, Ride>, n: nat, id: nat, r: Ride, uid: int)
    requires n < id
    ensures Spent(rides[id := r], n, uid) == Spent(rides, n, uid)
  {
    if n == 0 {
    } else {
      SpentFrame(rides, n - 1, id, r, uid);
    }
  }

  // ---- live rides ----

  class RideSessionStore {
    var sessions: map<string, RideSession>

    constructor ()
      ensures sessions == map[]
    {
      sessions := map[];
    }

    /** A session of the same number is overwritten. */
    method Create(s: RideSession)
      modifies this
      ensures sessions == old(sessions)[s.rideNo := s]
    {
      sessions := sessions[s.rideNo := s];
    }

    function Find(no: string): Option<RideSession>
      reads this
    {
      if no in sessions then Some(sessions[no]) else None
    }

    /** `update_pos`: false when there is no such ride; a stale or repeated report is accepted
        and ignored. */
    method UpdatePos(no: string, p: RidePoint) returns (ok: bool)
      modifies this
      ensures ok <==> no in old(sessions)
      ensures sessions == if ok then old(sessions)[no := Report(old(sessions)[no], p)] else old(sessions)
    {
      if no !in sessions {
        return false;
      }
      var s := sessions[no];
      if (s.lastSeq != 0 || s.points != []) && p.seqNo <= s.lastSeq {
        return true;
      }
      s := s.(lastLat := p.lat, lastLng := p.lng, lastSeq := p.seqNo);
      s := s.(points := s.points + [p]);
      if |s.points| > MAX_POINTS {
        s := s.(points := s.points[1..]);
      }
      sessions := sessions[no := s];
      return true;
    }

    method Remove(no: string) returns (found: bool)
      modifies this
      ensures found <==> no in old(sessions)
      ensures sessions == old(sessions) - {no}
    {
      found := no in sessions;
      sessions := sessions - {no};
    }
  }
}
