/** Civil dates and the timestamps of log lines (src/main.rs:8543-8587; the shape is that
    of RFC 3339 section 5.6). */
module Calendar {
  import opened Bytes

  datatype Date = Date(year: int, month: int, day: int)

  function YearOfEra(dayOfEra: int): int
  {
    (dayOfEra - dayOfEra / 1460 + dayOfEra / 36524 - dayOfEra / 146096) / 365
  }

  /** The era of a day. The division truncates toward zero, so a negative day is moved
      back by almost an era first. */
  function Era(z: int): int
  {
    if z >= 0 then z / 146097 else -((146096 - z) / 146097)
  }

  /** The date of a day of a year that begins in March. */
  function DateInYear(year: int, dayOfYear: int): Date
  {
    var monthIndex := (5 * dayOfYear + 2) / 153;
    var day := dayOfYear - (153 * monthIndex + 2) / 5 + 1;
    var month := if monthIndex < 10 then monthIndex + 3 else monthIndex - 9;
    Date(if month <= 2 then year + 1 else year, month, day)
  }

  function CivilInEra(era: int, dayOfEra: int): Date
  {
    var yearOfEra := YearOfEra(dayOfEra);
    DateInYear(yearOfEra + era * 400, dayOfEra - (365 * yearOfEra + yearOfEra / 4 - yearOfEra / 100))
  }

  function CivilFromDays(daysSinceEpoch: int): Date
  {
    var z := daysSinceEpoch + 719468;
    CivilInEra(Era(z), z - Era(z) * 146097)
  }

  lemma EraIsFloor(z: int)
    ensures Era(z) == z / 146097 && 0 <= z - Era(z) * 146097 < 146097
  {
  }

  // ---------------------------------------------------------------- the Gregorian calendar

  predicate Leap(year: int) { year % 4 == 0 && (year % 100 != 0 || year % 400 == 0) }

  function DaysInMonth(year: int, month: int): int
  {
    if month == 2 then (if Leap(year) then 29 else 28)
    else if month in {4, 6, 9, 11} then 30 else 31
  }

  predicate IsDate(d: Date)
  {
    1 <= d.month <= 12 && 1 <= d.day <= DaysInMonth(d.year, d.month)
  }

  function NextDay(d: Date): Date
  {
    if d.day < DaysInMonth(d.year, d.month) then d.(day := d.day + 1)
    else if d.month < 12 then Date(d.year, d.month + 1, 1)
    else Date(d.year + 1, 1, 1)
  }

  // ---------------------------------------------------------------- the day of an era

  /** Day `t`, counted from March, of year `100 c + 4 q + u` of an era. */
  datatype Spot = Spot(era: int, c: int, q: int, u: int, t: int)
  {
    /** The last year of four has a day more, but for three centuries of four. */
    predicate Valid()
    {
      && 0 <= c < 4 && 0 <= q < 25 && 0 <= u < 4 && 0 <= t
      && (t < 365 || (t == 365 && u == 3 && (q < 24 || c == 3)))
    }

    function YearInEra(): int { 100 * c + 4 * q + u }

    function Begin(): int { 36524 * c + 1461 * q + 365 * u }

    function Year(): int { YearInEra() + era * 400 }

    /** Counted from the epoch. */
    function Number(): int { era * 146097 + Begin() + t - 719468 }
  }

  lemma YearAt(s: Spot)
    requires s.Valid()
    ensures 0 <= s.Begin() + s.t < 146097
    ensures YearOfEra(s.Begin() + s.t) == s.YearInEra()
  {
    var day := s.Begin() + s.t;
    var rest := 24 * s.c + s.q + 365 * s.u + s.t;
    assert day == 1460 * (25 * s.c + s.q) + rest && 0 <= rest < 2920;
    var extra := if rest >= 1460 then 1 else 0;
    assert day / 1460 == 25 * s.c + s.q + extra;
    if day == 146096 {
      assert s.c == 3 && s.q == 24 && s.u == 3 && s.t == 365;
    } else {
      assert day / 36524 == s.c && day / 146096 == 0;
    }
    var n := day - day / 1460 + day / 36524 - day / 146096;
    assert n == 365 * s.YearInEra() + (if day == 146096 then 364 else s.t - extra);
  }

  lemma YearBegins(s: Spot)
    requires s.Valid()
    ensures var y := s.YearInEra(); 365 * y + y / 4 - y / 100 == s.Begin()
  {
    var y := s.YearInEra();
    assert y / 4 == 25 * s.c + s.q;
    assert y / 100 == s.c;
  }

  /** Every day is a day of one of the years of an era. */
  lemma SplitDay(n: int) returns (s: Spot)
    ensures s.Valid() && s.Number() == n
  {
    var z := n + 719468;
    var era := z / 146097;
    var day := z - era * 146097;
    if day == 146096 {
      s := Spot(era, 3, 24, 3, 365);
    } else {
      var c, q, u, t := SplitYear(day);
      s := Spot(era, c, q, u, t);
    }
  }

  lemma SplitYear(day: int) returns (c: int, q: int, u: int, t: int)
    requires 0 <= day < 146096
    ensures Spot(0, c, q, u, t).Valid() && day == 36524 * c + 1461 * q + 365 * u + t
  {
    c := day / 36524;
    var r := day % 36524;
    q := r / 1461;
    var rest := r % 1461;
    u := if rest == 1460 then 3 else rest / 365;
    t := rest - 365 * u;
    assert r == 1461 * q + rest;
  }

  lemma EraOf(era: int, day: int)
    requires 0 <= day < 146097
    ensures Era(era * 146097 + day) == era
  {
    EraIsFloor(era * 146097 + day);
  }

  lemma CivilByEra(n: int, era: int, day: int)
    requires 0 <= day < 146097 && n + 719468 == era * 146097 + day
    ensures CivilFromDays(n) == CivilInEra(era, day)
  {
    EraOf(era, day);
  }

  lemma CivilByYear(s: Spot)
    requires s.Valid()
    ensures CivilInEra(s.era, s.Begin() + s.t) == DateInYear(s.Year(), s.t)
  {
    YearAt(s);
    YearBegins(s);
  }

  /** What the conversion computes, year by year. */
  lemma CivilOf(s: Spot)
    requires s.Valid()
    ensures CivilFromDays(s.Number()) == DateInYear(s.Year(), s.t)
  {
    CivilByYear(s);
    CivilByEra(s.Number(), s.era, s.Begin() + s.t);
  }

  lemma RemainderOf4(y: int, k: int, r: int)
    requires y == 4 * k + r && 0 <= r < 4
    ensures y % 4 == r
  {
  }

  lemma RemainderOf100(y: int, k: int, r: int)
    requires y == 100 * k + r && 0 <= r < 100
    ensures y % 100 == r
  {
  }

  lemma RemainderOf400(y: int, k: int, r: int)
    requires y == 400 * k + r && 0 <= r < 400
    ensures y % 400 == r
  {
  }

  /** The February of the next civil year ends the year that begins in March. */
  lemma LeapAt(s: Spot)
    requires s.Valid()
    ensures Leap(s.Year() + 1) <==> s.u == 3 && (s.q < 24 || s.c == 3)
  {
    var y := s.Year() + 1;
    var inCentury, inEra := 4 * s.q + s.u + 1, 100 * s.c + 4 * s.q + s.u + 1;
    RemainderOf4(y, 100 * s.era + 25 * s.c + s.q + (if s.u == 3 then 1 else 0), if s.u == 3 then 0 else s.u + 1);
    RemainderOf100(y, 4 * s.era + s.c + (if inCentury == 100 then 1 else 0), if inCentury == 100 then 0 else inCentury);
    RemainderOf400(y, s.era + (if inEra == 400 then 1 else 0), if inEra == 400 then 0 else inEra);
  }

  // ---------------------------------------------------------------- the day of a year

  /** Day after day through a year from March: the date moves on by one. */
  lemma NextInYear(year: int, t: int)
    requires 0 <= t < 365 && (t < 364 || Leap(year + 1))
    ensures IsDate(DateInYear(year, t)) && DateInYear(year, t + 1) == NextDay(DateInYear(year, t))
  {
  }

  lemma LastOfYear(year: int, t: int)
    requires t == (if Leap(year + 1) then 365 else 364)
    ensures IsDate(DateInYear(year, t)) && DateInYear(year + 1, 0) == NextDay(DateInYear(year, t))
  {
  }

  /** The next spot. */
  function Following(s: Spot): Spot
  {
    if s.(t := s.t + 1).Valid() then s.(t := s.t + 1)
    else if s.u < 3 then Spot(s.era, s.c, s.q, s.u + 1, 0)
    else if s.q < 24 then Spot(s.era, s.c, s.q + 1, 0, 0)
    else if s.c < 3 then Spot(s.era, s.c + 1, 0, 0, 0)
    else Spot(s.era + 1, 0, 0, 0, 0)
  }

  lemma FollowingCounts(s: Spot)
    requires s.Valid()
    ensures Following(s).Valid() && Following(s).Number() == s.Number() + 1
    ensures Following(s).t == 0 ==> Following(s).Year() == s.Year() + 1
    ensures Following(s).t > 0 ==> Following(s) == s.(t := s.t + 1)
  {
  }

  lemma FollowingDate(s: Spot)
    requires s.Valid()
    ensures IsDate(DateInYear(s.Year(), s.t))
    ensures DateInYear(Following(s).Year(), Following(s).t) == NextDay(DateInYear(s.Year(), s.t))
  {
    LeapAt(s);
    FollowingCounts(s);
    DateMovesOn(s.Year(), s.t, Following(s).Year(), Following(s).t);
  }

  lemma DateMovesOn(year: int, t: int, nextYear: int, next: int)
    requires 0 <= t < 365 + (if Leap(year + 1) then 1 else 0)
    requires if t + 1 < 365 + (if Leap(year + 1) then 1 else 0) then nextYear == year && next == t + 1
             else nextYear == year + 1 && next == 0
    ensures IsDate(DateInYear(year, t)) && DateInYear(nextYear, next) == NextDay(DateInYear(year, t))
  {
    if next > 0 {
      NextInYear(year, t);
    } else {
      LastOfYear(year, t);
    }
  }

  // ---------------------------------------------------------------- the theorem

  lemma EpochIsFirst()
    ensures CivilFromDays(0) == Date(1970, 1, 1)
  {
    CivilOf(Spot(4, 3, 17, 1, 306));
  }

  lemma SpotSuccessor(s: Spot, n: int)
    requires s.Valid() && s.Number() == n
    ensures IsDate(CivilFromDays(n)) && CivilFromDays(n + 1) == NextDay(CivilFromDays(n))
  {
    CivilOf(s);
    FollowingDate(s);
    FollowingCounts(s);
    CivilOf(Following(s));
  }

  /** Every day has a date, and the next day has the next date of the Gregorian calendar. */
  lemma SuccessorDay(n: int)
    ensures IsDate(CivilFromDays(n)) && CivilFromDays(n + 1) == NextDay(CivilFromDays(n))
  {
    var s := SplitDay(n);
    SpotSuccessor(s, n);
  }

  // ---------------------------------------------------------------- dates in order

  predicate Earlier(a: Date, b: Date)
  {
    a.year < b.year || (a.year == b.year && (a.month < b.month || (a.month == b.month && a.day < b.day)))
  }

  lemma DateStep(n: int)
    ensures Earlier(CivilFromDays(n), CivilFromDays(n + 1))
  {
    SuccessorDay(n);
    StepIsLater(CivilFromDays(n));
  }

  ghost predicate RisesAt(dates: int -> Date, n: int) { Earlier(dates(n), dates(n + 1)) }

  lemma {:induction false} StepsAddUp(dates: int -> Date, m: int, n: int)
    requires m < n && forall k :: m <= k < n ==> RisesAt(dates, k)
    ensures Earlier(dates(m), dates(n))
    decreases n - m
  {
    assert RisesAt(dates, n - 1);
    if m < n - 1 {
      StepsAddUp(dates, m, n - 1);
      EarlierTransitive(dates(m), dates(n - 1), dates(n));
    }
  }

  /** Later days have later dates, so no date is given to two days. */
  lemma DatesRise(m: int, n: int)
    requires m < n
    ensures Earlier(CivilFromDays(m), CivilFromDays(n))
  {
    forall k | m <= k < n
      ensures RisesAt(CivilFromDays, k)
    {
      DateStep(k);
    }
    StepsAddUp(CivilFromDays, m, n);
  }

  lemma StepIsLater(d: Date)
    requires IsDate(d)
    ensures Earlier(d, NextDay(d))
  {
  }

  lemma EarlierTransitive(a: Date, b: Date, c: Date)
    requires Earlier(a, b) && Earlier(b, c)
    ensures Earlier(a, c)
  {
  }

  lemma DatesOfOurTime(n: nat)
    ensures IsDate(CivilFromDays(n)) && CivilFromDays(n).year >= 1970
  {
    SuccessorDay(n);
    EpochIsFirst();
    if n > 0 {
      DatesRise(0, n);
    }
  }

  // ---------------------------------------------------------------- decimal fields

  /** Decimal digits, padded with zeros to a width. */
  function Decimal(n: nat, width: nat): seq<Byte>
    decreases n, width
  {
    if n < 10 && width <= 1 then [48 + n]
    else Decimal(n / 10, if width > 0 then width - 1 else 0) + [48 + n % 10]
  }

  function Pow10(width: nat): nat
  {
    if width == 0 then 1 else 10 * Pow10(width - 1)
  }

  lemma {:induction false} DecimalLength(n: nat, width: nat)
    requires width > 0
    ensures |Decimal(n, width)| >= width
    ensures |Decimal(n, width)| == width <==> n < Pow10(width)
  {
    if width > 1 {
      DecimalLength(n / 10, width - 1);
    } else if n >= 10 {
      DecimalSome(n / 10, 0);
    }
  }

  lemma {:induction false} DecimalSome(n: nat, width: nat)
    ensures |Decimal(n, width)| > 0
  {
    if !(n < 10 && width <= 1) {
      DecimalSome(n / 10, if width > 0 then width - 1 else 0);
    }
  }

  lemma {:induction false} LessAppend(a: seq<Byte>, b: seq<Byte>, x: seq<Byte>, y: seq<Byte>)
    requires |a| == |b| && Less(a, b)
    ensures Less(a + x, b + y)
  {
    assert (a + x)[0] == a[0] && (b + y)[0] == b[0];
    assert (a + x)[1..] == a[1..] + x && (b + y)[1..] == b[1..] + y;
    if a[0] == b[0] {
      LessAppend(a[1..], b[1..], x, y);
    }
  }

  lemma {:induction false} LessPrefix(p: seq<Byte>, x: seq<Byte>, y: seq<Byte>)
    requires Less(x, y)
    ensures Less(p + x, p + y)
  {
    if p == [] {
      assert p + x == x && p + y == y;
    } else {
      LessPrefix(p[1..], x, y);
      assert (p + x)[1..] == p[1..] + x && (p + y)[1..] == p[1..] + y;
    }
  }

  lemma {:induction false} DecimalOrder(a: nat, b: nat, width: nat)
    requires a < b < Pow10(width)
    ensures |Decimal(a, width)| == |Decimal(b, width)| && Less(Decimal(a, width), Decimal(b, width))
  {
    DecimalLength(a, width);
    DecimalLength(b, width);
    if width > 1 {
      DecimalLength(a / 10, width - 1);
      DecimalLength(b / 10, width - 1);
      if a / 10 < b / 10 {
        DecimalOrder(a / 10, b / 10, width - 1);
        LessAppend(Decimal(a / 10, width - 1), Decimal(b / 10, width - 1), [48 + a % 10], [48 + b % 10]);
      } else {
        LessPrefix(Decimal(a / 10, width - 1), [48 + a % 10], [48 + b % 10]);
      }
    }
  }

  /** A number of so many digits, and the character after it. */
  datatype Field = Field(value: nat, width: nat, after: Byte)

  function Render(fields: seq<Field>): seq<Byte>
  {
    if fields == [] then []
    else Decimal(fields[0].value, fields[0].width) + ([fields[0].after] + Render(fields[1..]))
  }

  predicate SameForm(a: seq<Field>, b: seq<Field>)
  {
    |a| == |b| && forall i :: 0 <= i < |a| ==> a[i].width == b[i].width > 0 && a[i].after == b[i].after
  }

  predicate Fits(fields: seq<Field>)
  {
    forall i :: 0 <= i < |fields| ==> fields[i].value < Pow10(fields[i].width)
  }

  /** The first field that differs decides the order of the text. */
  lemma {:induction false} RenderOrder(a: seq<Field>, b: seq<Field>, k: nat)
    requires SameForm(a, b) && Fits(b) && k < |a|
    requires a[k].value < b[k].value && forall i :: 0 <= i < k ==> a[i].value == b[i].value
    ensures Less(Render(a), Render(b))
  {
    if k == 0 {
      DecimalOrder(a[0].value, b[0].value, a[0].width);
      LessAppend(Decimal(a[0].value, a[0].width), Decimal(b[0].value, b[0].width),
                 [a[0].after] + Render(a[1..]), [b[0].after] + Render(b[1..]));
    } else {
      RenderOrder(a[1..], b[1..], k - 1);
      LessPrefix([a[0].after], Render(a[1..]), Render(b[1..]));
      LessPrefix(Decimal(a[0].value, a[0].width), [a[0].after] + Render(a[1..]), [b[0].after] + Render(b[1..]));
    }
  }

  // ---------------------------------------------------------------- timestamps

  const DASH: Byte := 45
  const COLON: Byte := 58
  const LETTER_T: Byte := 84
  const LETTER_Z: Byte := 90

  function FieldsOf(date: Date, rest: nat): seq<Field>
    requires date.year >= 0 && date.month >= 0 && date.day >= 0
  {
    [Field(date.year, 4, DASH), Field(date.month, 2, DASH), Field(date.day, 2, LETTER_T),
     Field(rest / 3600, 2, COLON), Field((rest / 60) % 60, 2, COLON), Field(rest % 60, 2, LETTER_Z)]
  }

  /** `YYYY-MM-DDTHH:MM:SSZ` for a number of seconds since the epoch. */
  function Timestamp(seconds: nat): seq<Byte>
  {
    DatesOfOurTime(seconds / 86400);
    Render(FieldsOf(CivilFromDays(seconds / 86400), seconds % 86400))
  }

  const LAST_SECOND_OF_9999 := 253402300799

  lemma EndOfFourDigits()
    ensures CivilFromDays(2932896) == Date(9999, 12, 31)
    ensures CivilFromDays(2932897) == Date(10000, 1, 1)
  {
    CivilOf(Spot(24, 3, 24, 3, 305));
    CivilOf(Spot(24, 3, 24, 3, 306));
  }

  /** The year has four digits exactly up to the last second of 9999. */
  lemma FourDigitYears(seconds: nat)
    ensures CivilFromDays(seconds / 86400).year <= 9999 <==> seconds <= LAST_SECOND_OF_9999
  {
    var n := seconds / 86400;
    EndOfFourDigits();
    if n < 2932896 {
      DatesRise(n, 2932896);
    } else if n > 2932897 {
      DatesRise(2932897, n);
    }
  }

  lemma TimeOfDay(rest: int)
    requires 0 <= rest < 86400
    ensures 0 <= rest / 3600 < 24 && 0 <= (rest / 60) % 60 < 60 && 0 <= rest % 60 < 60
    ensures rest == 3600 * (rest / 3600) + 60 * ((rest / 60) % 60) + rest % 60
  {
  }

  lemma FieldsFit(date: Date, rest: nat)
    requires IsDate(date) && 0 <= date.year <= 9999 && rest < 86400
    ensures Fits(FieldsOf(date, rest))
  {
    TimeOfDay(rest);
    assert Pow10(2) == 100 && Pow10(4) == 10000;
  }

  /** The first field in which two moments differ. */
  lemma FirstDifference(d: Date, s: nat, e: Date, t: nat) returns (k: nat)
    requires IsDate(d) && IsDate(e) && d.year >= 0 && e.year >= 0 && s < 86400 && t < 86400
    requires Earlier(d, e) || (d == e && s < t)
    ensures k < 6 && FieldsOf(d, s)[k].value < FieldsOf(e, t)[k].value
    ensures forall i :: 0 <= i < k ==> FieldsOf(d, s)[i].value == FieldsOf(e, t)[i].value
  {
    if d != e {
      k := if d.year < e.year then 0 else if d.month < e.month then 1 else 2;
    } else {
      TimesRise(s, t);
      k := if s / 3600 < t / 3600 then 3 else if (s / 60) % 60 < (t / 60) % 60 then 4 else 5;
    }
  }

  lemma TimesRise(a: int, b: int)
    requires 0 <= a < b < 86400
    ensures a / 3600 <= b / 3600
    ensures a / 3600 == b / 3600 ==> (a / 60) % 60 <= (b / 60) % 60
    ensures a / 3600 == b / 3600 && (a / 60) % 60 == (b / 60) % 60 ==> a % 60 < b % 60
  {
    TimeOfDay(a);
    TimeOfDay(b);
  }

  lemma MomentsRender(d: Date, s: nat, e: Date, t: nat)
    requires IsDate(d) && IsDate(e) && d.year >= 0 && 0 <= e.year <= 9999 && s < 86400 && t < 86400
    requires Earlier(d, e) || (d == e && s < t)
    ensures Less(Render(FieldsOf(d, s)), Render(FieldsOf(e, t)))
  {
    var k := FirstDifference(d, s, e, t);
    FieldsFit(e, t);
    RenderOrder(FieldsOf(d, s), FieldsOf(e, t), k);
  }

  /** A moment is a day, with its date, and a second of the day. */
  lemma MomentOf(seconds: nat) returns (day: nat, d: Date, rest: nat)
    ensures day == seconds / 86400 && d == CivilFromDays(day) && rest == seconds % 86400 < 86400
    ensures IsDate(d) && d.year >= 1970 && (d.year <= 9999 <==> seconds <= LAST_SECOND_OF_9999)
    ensures Timestamp(seconds) == Render(FieldsOf(d, rest))
  {
    day, rest := seconds / 86400, seconds % 86400;
    d := CivilFromDays(day);
    DatesOfOurTime(day);
    FourDigitYears(seconds);
  }

  lemma SecondsSplit(s: nat, t: nat)
    requires s < t
    ensures s / 86400 < t / 86400 || (s / 86400 == t / 86400 && s % 86400 < t % 86400)
  {
  }

  lemma MomentsInOrder(m: int, r: int, n: int, q: int, d: Date, e: Date)
    requires d == CivilFromDays(m) && e == CivilFromDays(n)
    requires m < n || (m == n && r < q)
    ensures Earlier(d, e) || (d == e && r < q)
  {
    if m < n {
      DatesRise(m, n);
    }
  }

  /** Through year 9999 the text of a later second sorts later. */
  lemma TimestampsRise(s: nat, t: nat)
    requires s < t <= LAST_SECOND_OF_9999
    ensures Less(Timestamp(s), Timestamp(t))
  {
    var m, d, r := MomentOf(s);
    var n, e, q := MomentOf(t);
    SecondsSplit(s, t);
    MomentsInOrder(m, r, n, q, d, e);
    MomentsRender(d, r, e, q);
  }

  /** The text has the twenty characters of the shape exactly through year 9999, with its
      separators in their places. */
  lemma TimestampShape(seconds: nat)
    ensures |Timestamp(seconds)| == 20 <==> seconds <= LAST_SECOND_OF_9999
    ensures seconds <= LAST_SECOND_OF_9999 ==>
              var r := Timestamp(seconds);
              r[4] == r[7] == DASH && r[10] == LETTER_T && r[13] == r[16] == COLON && r[19] == LETTER_Z
  {
    DatesOfOurTime(seconds / 86400);
    FourDigitYears(seconds);
    MomentShape(CivilFromDays(seconds / 86400), seconds % 86400);
  }

  lemma MomentShape(d: Date, rest: nat)
    requires IsDate(d) && d.year >= 0 && rest < 86400
    ensures var r := Render(FieldsOf(d, rest));
            && (|r| == 20 <==> d.year <= 9999)
            && (|r| == 20 ==> r[4] == r[7] == DASH && r[10] == LETTER_T && r[13] == r[16] == COLON && r[19] == LETTER_Z)
  {
    var f := FieldsOf(d, rest);
    TimeOfDay(rest);
    assert Pow10(2) == 100 && Pow10(4) == 10000;
    DecimalLength(f[0].value, 4);
    forall i | 1 <= i < 6
      ensures |Decimal(f[i].value, 2)| == 2
    {
      DecimalLength(f[i].value, 2);
    }
    RenderLengths(f);
  }

  lemma RenderLengths(f: seq<Field>)
    requires |f| == 6 && forall i :: 1 <= i < 6 ==> f[i].width == 2 && |Decimal(f[i].value, 2)| == 2
    ensures |Render(f)| == |Decimal(f[0].value, f[0].width)| + 16
    ensures var n := |Decimal(f[0].value, f[0].width)|; var r := Render(f);
            && r[n] == f[0].after && r[n + 3] == f[1].after && r[n + 6] == f[2].after
            && r[n + 9] == f[3].after && r[n + 12] == f[4].after && r[n + 15] == f[5].after
  {
    var r5 := RenderOne(f[5..]);
    var r4 := RenderOne(f[4..]);
    var r3 := RenderOne(f[3..]);
    var r2 := RenderOne(f[2..]);
    var r1 := RenderOne(f[1..]);
    assert f[5..][1..] == [] && f[4..][1..] == f[5..] && f[3..][1..] == f[4..] && f[2..][1..] == f[3..] && f[1..][1..] == f[2..];
  }

  /** One two-digit field in front of the rest. */
  lemma RenderOne(f: seq<Field>) returns (r: seq<Byte>)
    requires f != [] && f[0].width == 2 && |Decimal(f[0].value, 2)| == 2
    ensures r == Render(f) && |r| == 3 + |Render(f[1..])| && r[2] == f[0].after && r[3..] == Render(f[1..])
  {
    r := Render(f);
    assert r[3..] == Render(f[1..]);
  }

  // ---------------------------------------------------------------- reading the text

  /** What a reader makes of digits. */
  function NumberOf(digits: seq<Byte>): int
  {
    if digits == [] then 0 else 10 * NumberOf(digits[..|digits| - 1]) + digits[|digits| - 1] - '0' as int
  }

  predicate AllDigits(digits: seq<Byte>)
  {
    forall i :: 0 <= i < |digits| ==> '0' as int <= digits[i] <= '9' as int
  }

  /** The digits of a number are read as that number. */
  lemma {:induction false} DecimalReads(n: nat, width: nat)
    ensures AllDigits(Decimal(n, width)) && NumberOf(Decimal(n, width)) == n
    decreases n, width
  {
    var digits := Decimal(n, width);
    if n < 10 && width <= 1 {
      assert digits[..0] == [];
    } else {
      var rest := Decimal(n / 10, if width > 0 then width - 1 else 0);
      DecimalReads(n / 10, if width > 0 then width - 1 else 0);
      assert digits[..|digits| - 1] == rest && digits[|digits| - 1] == 48 + n % 10;
    }
  }

  /** Digits that are read as the value stand at the position. */
  predicate Reads(r: seq<Byte>, at: nat, width: nat, value: int)
  {
    at + width <= |r| && AllDigits(r[at..at + width]) && NumberOf(r[at..at + width]) == value
  }

  /** The text from position `at` is the rendering of the fields: the first one is read, and
      the rest goes on after it. */
  lemma FieldReads(r: seq<Byte>, at: nat, f: seq<Field>, width: nat)
    requires at <= |r| && r[at..] == Render(f) && f != [] && f[0].width == width && |Decimal(f[0].value, width)| == width
    ensures Reads(r, at, width, f[0].value)
    ensures at + width < |r| && r[at + width] == f[0].after && r[at + width + 1..] == Render(f[1..])
  {
    DecimalReads(f[0].value, width);
    var digits := Decimal(f[0].value, width);
    assert r[at..][..width] == digits && r[at..][width] == f[0].after && r[at..][width + 1..] == Render(f[1..]);
    assert r[at..at + width] == r[at..][..width] && r[at + width + 1..] == r[at..][width + 1..];
  }

  /** Two-digit fields, one after the other. */
  lemma {:induction false} PairsRead(r: seq<Byte>, at: nat, f: seq<Field>)
    requires at <= |r| && r[at..] == Render(f)
    requires forall i :: 0 <= i < |f| ==> f[i].width == 2 && |Decimal(f[i].value, 2)| == 2
    ensures forall i :: 0 <= i < |f| ==> Reads(r, at + 3 * i, 2, f[i].value)
    ensures |r| == at + 3 * |f|
    decreases |f|
  {
    if f != [] {
      FieldReads(r, at, f, 2);
      PairsRead(r, at + 3, f[1..]);
      forall i | 0 < i < |f|
        ensures Reads(r, at + 3 * i, 2, f[i].value)
      {
        assert f[1..][i - 1] == f[i] && at + 3 + 3 * (i - 1) == at + 3 * i;
        assert Reads(r, at + 3 + 3 * (i - 1), 2, f[1..][i - 1].value);
      }
    }
  }

  /** Through year 9999 the text is read back as the day and the second it was made from. */
  lemma TimestampReadsBack(seconds: nat)
    requires seconds <= LAST_SECOND_OF_9999
    ensures var r := Timestamp(seconds);
            var d := CivilFromDays(seconds / 86400);
            && Reads(r, 0, 4, d.year) && Reads(r, 5, 2, d.month) && Reads(r, 8, 2, d.day)
            && exists hour, minute, second :: IsTime(hour, minute, second, seconds % 86400)
                 && Reads(r, 11, 2, hour) && Reads(r, 14, 2, minute) && Reads(r, 17, 2, second)
  {
    var day, d, rest := MomentOf(seconds);
    var f := FieldsOf(d, rest);
    var r := Timestamp(seconds);
    TimeOfDay(rest);
    FieldsFit(d, rest);
    DecimalLength(f[0].value, 4);
    var pairs := f[1..];
    forall i | 0 <= i < |pairs|
      ensures pairs[i].width == 2 && |Decimal(pairs[i].value, 2)| == 2
    {
      DecimalLength(pairs[i].value, 2);
    }
    assert r[0..] == r;
    FieldReads(r, 0, f, 4);
    PairsRead(r, 5, pairs);
    PairsAre(r, pairs);
    assert IsTime(pairs[2].value, pairs[3].value, pairs[4].value, rest);
  }

  lemma PairsAre(r: seq<Byte>, pairs: seq<Field>)
    requires |pairs| == 5 && forall i :: 0 <= i < |pairs| ==> Reads(r, 5 + 3 * i, 2, pairs[i].value)
    ensures Reads(r, 5, 2, pairs[0].value) && Reads(r, 8, 2, pairs[1].value)
    ensures Reads(r, 11, 2, pairs[2].value) && Reads(r, 14, 2, pairs[3].value) && Reads(r, 17, 2, pairs[4].value)
  {
    assert Reads(r, 5 + 3 * 0, 2, pairs[0].value) && Reads(r, 5 + 3 * 1, 2, pairs[1].value);
    assert Reads(r, 5 + 3 * 2, 2, pairs[2].value) && Reads(r, 5 + 3 * 3, 2, pairs[3].value) && Reads(r, 5 + 3 * 4, 2, pairs[4].value);
  }

  /** A time of day, so many seconds after midnight. */
  predicate IsTime(hour: int, minute: int, second: int, seconds: int)
  {
    0 <= hour < 24 && 0 <= minute < 60 && 0 <= second < 60 && 3600 * hour + 60 * minute + second == seconds
  }
}
