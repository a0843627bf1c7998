/** Ride numbers: "R", the UTC date as eight digits, and six digits derived from the unix second. */
module RideNo {
  import opened Words
  import opened Wrappers

  const SECONDS_PER_DAY: nat := 86400
  const SEQ_RANGE: nat := 999999

  // ---- fixed-width decimals ----

  function Pow10(k: nat): (p: nat)
    ensures p > 0
  {
    if k == 0 then 1 else 10 * Pow10(k - 1)
  }

  function Digit(d: nat): char
    requires d < 10
  {
    ['0', '1', '2', '3', '4', '5', '6', '7', '8', '9'][d]
  }

  function Digits(n: nat, width: nat): (s: string)
    ensures |s| == width
  {
    if width == 0 then [] else Digits(n / 10, width - 1) + [Digit(n % 10)]
  }

  /** Zero-padded decimals of one width are equal only for equal numbers. */
  lemma {:induction false} DigitsAreInjective(a: nat, b: nat, width: nat)
    requires a < Pow10(width) && b < Pow10(width)
    requires Digits(a, width) == Digits(b, width)
    ensures a == b
  {
    if width == 0 {
    } else {
      var s, t := Digits(a, width), Digits(b, width);
      assert s[width - 1] == Digit(a % 10) && t[width - 1] == Digit(b % 10);
      assert s[..width - 1] == Digits(a / 10, width - 1) && t[..width - 1] == Digits(b / 10, width - 1);
      DigitsAreInjective(a / 10, b / 10, width - 1);
    }
  }

  /** What a string of decimal digits says. */
  function Value(s: string): int {
    if s == [] then 0 else 10 * Value(s[..|s| - 1]) + (s[|s| - 1] as int - '0' as int)
  }

  lemma DigitReads(d: nat)
    requires d < 10
    ensures '0' <= Digit(d) <= '9' && Digit(d) as int - '0' as int == d
  {
  }

  lemma {:induction false} DigitsRead(n: nat, width: nat)
    requires n < Pow10(width)
    ensures Value(Digits(n, width)) == n
    ensures forall i | 0 <= i < width :: '0' <= Digits(n, width)[i] <= '9'
  {
    if width == 0 {
    } else {
      var s, front := Digits(n, width), Digits(n / 10, width - 1);
      DigitsRead(n / 10, width - 1);
      DigitReads(n % 10);
      assert s == front + [Digit(n % 10)] && s[..width - 1] == front;
    }
  }

  // ---- make_ride_no ----

  /** `None` is the exception thrown for a sequence number outside its six digits. */
  function MakeRideNo(date: nat, dailySeq: int): Option<string> {
    if dailySeq < 1 || dailySeq > SEQ_RANGE then None
    else Some("R" + Digits(date, 8) + Digits(dailySeq, 6))
  }

  /** A ride number is "R", eight digits that say the date and six that say the daily number; a
      daily number that six digits cannot hold is refused. */
  lemma RideNoReads(date: nat, dailySeq: int)
    requires date < 1_0000_0000
    ensures MakeRideNo(date, dailySeq).Some? <==> 1 <= dailySeq <= 999999
    ensures MakeRideNo(date, dailySeq).Some? ==>
              var no := MakeRideNo(date, dailySeq).value;
              && |no| == 15 && no[0] == 'R' && (forall i | 1 <= i < 15 :: '0' <= no[i] <= '9')
              && Value(no[1..9]) == date && Value(no[9..]) == dailySeq
  {
    assert Pow10(4) == 1_0000 && Pow10(6) == 100_0000 && Pow10(8) == 1_0000_0000;
    if 1 <= dailySeq <= 999999 {
      DigitsRead(date, 8);
      DigitsRead(dailySeq, 6);
      var no := "R" + Digits(date, 8) + Digits(dailySeq, 6);
      assert no[1..9] == Digits(date, 8) && no[9..] == Digits(dailySeq, 6);
    }
  }

  lemma RideNoIsInjective(d1: nat, s1: int, d2: nat, s2: int)
    requires d1 < Pow10(8) && d2 < Pow10(8)
    requires 1 <= s1 <= SEQ_RANGE && 1 <= s2 <= SEQ_RANGE
    requires MakeRideNo(d1, s1) == MakeRideNo(d2, s2)
    ensures d1 == d2 && s1 == s2
  {
    assert Pow10(6) == 1000000;
    var x, y := "R" + Digits(d1, 8) + Digits(s1, 6), "R" + Digits(d2, 8) + Digits(s2, 6);
    assert x[1..9] == Digits(d1, 8) && y[1..9] == Digits(d2, 8);
    assert x[9..] == Digits(s1, 6) && y[9..] == Digits(s2, 6);
    DigitsAreInjective(d1, d2, 8);
    DigitsAreInjective(s1, s2, 6);
  }

  // ---- the UTC calendar ----

  datatype Date = Date(y: nat, m: nat, d: nat)

  predicate IsLeap(y: nat) {
    y % 4 == 0 && (y % 100 != 0 || y % 400 == 0)
  }

  function DaysIn(y: nat, m: nat): nat {
    if m == 2 then (if IsLeap(y) then 29 else 28)
    else if m in {4, 6, 9, 11} then 30
    else 31
  }

  function NextDate(t: Date): Date {
    if t.d < DaysIn(t.y, t.m) then t.(d := t.d + 1)
    else if t.m < 12 then Date(t.y, t.m + 1, 1)
    else Date(t.y + 1, 1, 1)
  }

  /** The date `day` days after 1970-01-01. */
  function DateOf(day: nat): (t: Date)
    ensures 1 <= t.m <= 12 && 1 <= t.d <= DaysIn(t.y, t.m)
  {
    if day == 0 then Date(1970, 1, 1) else NextDate(DateOf(day - 1))
  }

  /** The number of a date in the Gregorian calendar: days up to it, counted from the year 1. */
  function DayNumber(t: Date): int {
    365 * (t.y - 1) + Leaps(t.y - 1) + DaysBefore(t) + t.d
  }

  function Leaps(y: int): int {
    y / 4 - y / 100 + y / 400
  }

  function DaysBefore(t: Date): int {
    if 1 <= t.m <= 12 then
      [0, 31, 59, 90, 120, 151, 181, 212, 243, 273, 304, 334][t.m - 1] + if t.m > 2 && IsLeap(t.y) then 1 else 0
    else 0
  }

  lemma QuotientSteps(y: nat, n: nat)
    requires y >= 1 && n >= 2
    ensures y / n - (y - 1) / n == if y % n == 0 then 1 else 0
  {
    var q, r := y / n, y % n;
    if r == 0 {
      assert y - 1 == (q - 1) * n + (n - 1);
      ModIsUnique(y - 1, q - 1, n - 1, n);
    } else {
      ModIsUnique(y - 1, q, r - 1, n);
    }
  }

  lemma MultiplesNest(y: nat)
    ensures y % 400 == 0 ==> y % 100 == 0
    ensures y % 100 == 0 ==> y % 4 == 0
  {
    if y % 400 == 0 {
      ModIsUnique(y, 4 * (y / 400), 0, 100);
    }
    if y % 100 == 0 {
      ModIsUnique(y, 25 * (y / 100), 0, 4);
    }
  }

  lemma LeapsAreCounted(y: nat)
    requires y >= 1
    ensures Leaps(y) - Leaps(y - 1) == if IsLeap(y) then 1 else 0
  {
    QuotientSteps(y, 4);
    QuotientSteps(y, 100);
    QuotientSteps(y, 400);
    MultiplesNest(y);
  }

  lemma NextDateIsOneDayOn(t: Date)
    requires t.y >= 1 && 1 <= t.m <= 12 && 1 <= t.d <= DaysIn(t.y, t.m)
    ensures DayNumber(NextDate(t)) == DayNumber(t) + 1
  {
    if t.d == DaysIn(t.y, t.m) && t.m == 12 {
      LeapsAreCounted(t.y);
    }
  }

  /** The calendar is right: the date of a day is as many days after 1970-01-01. */
  lemma {:induction false} DateIsThatManyDaysOn(day: nat)
    ensures DateOf(day).y >= 1970 && DayNumber(DateOf(day)) == DayNumber(Date(1970, 1, 1)) + day
  {
    if day == 0 {
    } else {
      DateIsThatManyDaysOn(day - 1);
      NextDateIsOneDayOn(DateOf(day - 1));
    }
  }

  function Yyyymmdd(t: Date): nat {
    t.y * 10000 + t.m * 100 + t.d
  }

  lemma {:induction false} LaterDaysHaveLaterDates(a: nat, b: nat)
    requires a < b
    ensures Yyyymmdd(DateOf(a)) < Yyyymmdd(DateOf(b))
    decreases b
  {
    if a == b - 1 {
    } else {
      LaterDaysHaveLaterDates(a, b - 1);
    }
  }

  // ---- the number an unlock uses ----

  function Today(clock: nat): nat {
    Yyyymmdd(DateOf(clock / SECONDS_PER_DAY))
  }

  /** The six digits come from the second `now`, the date from a later look at the clock. */
  function RideNoAt(now: nat, clock: nat): string {
    MakeRideNo(Today(clock), now % SEQ_RANGE + 1).value
  }

  /** What the number of an unlock says. */
  lemma RideNoOfUnlock(now: nat, clock: nat)
    requires Today(clock) < 1_0000_0000
    ensures var no, t := RideNoAt(now, clock), DateOf(clock / 86400);
            && |no| == 15 && no[0] == 'R'
            && Value(no[1..9]) == t.y * 10000 + t.m * 100 + t.d && Value(no[9..]) == now % 999999 + 1
  {
    RideNoReads(Today(clock), now % 999999 + 1);
  }

  /** Unlocks in different seconds get different numbers, as long as the second look at the clock
      follows within ten days and the year has four digits. */
  lemma DistinctSecondsGiveDistinctNumbers(now1: nat, clock1: nat, now2: nat, clock2: nat)
    requires now1 != now2
    requires now1 <= clock1 < now1 + 10 * SECONDS_PER_DAY && now2 <= clock2 < now2 + 10 * SECONDS_PER_DAY
    requires Today(clock1) < Pow10(8) && Today(clock2) < Pow10(8)
    ensures RideNoAt(now1, clock1) != RideNoAt(now2, clock2)
  {
    if RideNoAt(now1, clock1) == RideNoAt(now2, clock2) {
      RideNoIsInjective(Today(clock1), now1 % SEQ_RANGE + 1, Today(clock2), now2 % SEQ_RANGE + 1);
      var d1, d2 := clock1 / SECONDS_PER_DAY, clock2 / SECONDS_PER_DAY;
      if d1 < d2 {
        LaterDaysHaveLaterDates(d1, d2);
      } else if d2 < d1 {
        LaterDaysHaveLaterDates(d2, d1);
      }
      SameRemainderFarApart(now1, now2, SEQ_RANGE);
      assert false;
    }
  }

  /** Within one second on one day, any two unlocks get the same number. */
  lemma SameSecondCollides(now: nat, clock1: nat, clock2: nat)
    requires clock1 / SECONDS_PER_DAY == clock2 / SECONDS_PER_DAY
    ensures RideNoAt(now, clock1) == RideNoAt(now, clock2)
  {
  }
}
