/** The civil date of a day number, by Howard Hinnant's arithmetic, and the calendar it has to be:
    the proleptic Gregorian one, which section 5.7 and Appendix C of RFC 3339 take the lengths of
    months and the leap years of. */
module CivilDate {

  datatype Date = Date(year: int, month: int, day: int)

  /** Rust's `/`: towards zero. */
  function Quot(a: int, b: int): int
    requires b > 0
  {
    if a >= 0 then a / b else -((-a) / b)
  }

  function YearOfEra(doe: int): int {
    Quot(doe - Quot(doe, 1460) + Quot(doe, 36524) - Quot(doe, 146096), 365)
  }

  function YearStart(yoe: int): int {
    365 * yoe + Quot(yoe, 4) - Quot(yoe, 100)
  }

  function CivilFromDays(days: int): Date {
    var z := days + 719468;
    var era := Quot(if z >= 0 then z else z - 146096, 146097);
    var doe := z - era * 146097;
    var yoe := YearOfEra(doe);
    var doy := doe - YearStart(yoe);
    var mp := Quot(5 * doy + 2, 153);
    var day := doy - Quot(153 * mp + 2, 5) + 1;
    var month := if mp < 10 then mp + 3 else mp - 9;
    Date(yoe + era * 400 + (if month <= 2 then 1 else 0), month, day)
  }

  // ---- The calendar ----

  predicate IsLeap(y: int) {
    y % 4 == 0 && (y % 100 != 0 || y % 400 == 0)
  }

  function DaysIn(y: int, m: int): int {
    if m == 2 then (if IsLeap(y) then 29 else 28)
    else if m == 4 || m == 6 || m == 9 || m == 11 then 30
    else 31
  }

  predicate IsDate(d: Date) {
    1 <= d.month <= 12 && 1 <= d.day <= DaysIn(d.year, d.month)
  }

  function NextDay(d: Date): Date {
    if d.day < DaysIn(d.year, d.month) then d.(day := d.day + 1)
    else if d.month < 12 then Date(d.year, d.month + 1, 1)
    else Date(d.year + 1, 1, 1)
  }

  // ---- Within an era of four hundred years, counted from March ----

  /** A day of the era is day `u` of year `t` of four-year cycle `q` of century `c`; only the last
      year of a cycle has a day 365, and of the last cycle of a century only the fourth one. */
  lemma Parts(doe: int) returns (c: int, q: int, t: int, u: int)
    requires 0 <= doe <= 146096
    ensures 0 <= c <= 3 && 0 <= q <= 24 && 0 <= t <= 3 && 0 <= u <= 365
    ensures doe == 36524 * c + 1461 * q + 365 * t + u
    ensures u == 365 ==> t == 3 && (q < 24 || c == 3)
  {
    c := if doe == 146096 then 3 else doe / 36524;
    var r := doe - 36524 * c;
    q := r / 1461;
    var s := r - 1461 * q;
    t := if s == 1460 then 3 else s / 365;
    u := s - 365 * t;
  }

  lemma StartOf(c: int, q: int, t: int)
    requires 0 <= c <= 3 && 0 <= q <= 24 && 0 <= t <= 3
    ensures YearStart(100 * c + 4 * q + t) == 36524 * c + 1461 * q + 365 * t
  {
    var y := 100 * c + 4 * q + t;
    assert y == 4 * (25 * c + q) + t;
    assert y / 4 == 25 * c + q;
    assert y == 100 * c + (4 * q + t) && 4 * q + t < 100;
    assert y / 100 == c;
  }

  /** The corrections the formula makes to the day number take it into the right year. */
  lemma YearFound(doe: int, c: int, q: int, t: int, u: int)
    requires 0 <= c <= 3 && 0 <= q <= 24 && 0 <= t <= 3 && 0 <= u <= 365
    requires doe == 36524 * c + 1461 * q + 365 * t + u
    requires u == 365 ==> t == 3 && (q < 24 || c == 3)
    ensures YearOfEra(doe) == 100 * c + 4 * q + t
  {
    var over := 24 * c + q + 365 * t + u;
    var e := if over >= 1460 then 1 else 0;
    assert doe == 1460 * (25 * c + q) + over && 0 <= over < 2920;
    assert doe / 1460 == 25 * c + q + e;
    assert doe / 36524 - doe / 146096 == c by {
      var r := 1461 * q + 365 * t + u;
      assert 0 <= r <= 36524 && (r == 36524 ==> c == 3);
      if r == 36524 {
        assert doe == 146096;
      } else {
        assert doe / 36524 == c && doe / 146096 == 0;
      }
    }
    var y := 100 * c + 4 * q + t;
    assert doe - doe / 1460 + doe / 36524 - doe / 146096 == 365 * y + (u - e);
    assert 0 <= u - e < 365;
    assert (365 * y + (u - e)) / 365 == y;
  }

  lemma LeapIn(c: int, q: int, t: int)
    requires 0 <= c <= 3 && 0 <= q <= 24 && 0 <= t <= 3
    ensures IsLeap(100 * c + 4 * q + t + 1) <==> t == 3 && (q < 24 || c == 3)
  {
    var y := 100 * c + 4 * q + t + 1;
    assert y == 4 * (25 * c + q) + (t + 1);
    if t == 3 {
      assert y % 4 == 0;
      assert y == 100 * c + (4 * q + 4);
      if q == 24 {
        assert y == 100 * (c + 1) && y % 100 == 0;
      } else {
        assert y % 100 == 4 * q + 4;
      }
    } else {
      assert y % 4 == t + 1;
    }
  }

  /** The year counted from March that a day of the era falls in, and the one the next day does. */
  lemma YearAndDay(doe: int) returns (y: int, u: int)
    requires 0 <= doe <= 146096
    ensures y == YearOfEra(doe) && u == doe - YearStart(y)
    ensures 0 <= y <= 399 && 0 <= u <= 365 && (u == 365 ==> IsLeap(y + 1))
    ensures doe == 146096 ==> y == 399 && u == 365
    ensures doe < 146096 ==>
              var last := if IsLeap(y + 1) then 365 else 364;
              if u < last then YearOfEra(doe + 1) == y
              else YearOfEra(doe + 1) == y + 1 && doe + 1 == YearStart(y + 1)
  {
    hide YearOfEra, YearStart, IsLeap, Quot;
    var c, q, t;
    c, q, t, u := Parts(doe);
    StartOf(c, q, t);
    YearFound(doe, c, q, t, u);
    LeapIn(c, q, t);
    y := 100 * c + 4 * q + t;
    if doe == 146096 {
    } else if u < (if IsLeap(y + 1) then 365 else 364) {
      YearFound(doe + 1, c, q, t, u + 1);
    } else {
      var c', q', t' := if t < 3 then c else if q < 24 then c else c + 1,
                if t < 3 then q else if q < 24 then q + 1 else 0, if t < 3 then t + 1 else 0;
      NextStart(doe, c, q, t, u);
      StartOf(c', q', t');
      YearFound(doe + 1, c', q', t', 0);
    }
  }

  lemma NextStart(doe: int, c: int, q: int, t: int, u: int)
    requires 0 <= c <= 3 && 0 <= q <= 24 && 0 <= t <= 3 && 0 <= doe < 146096
    requires doe == 36524 * c + 1461 * q + 365 * t + u
    requires u == if t == 3 && (q < 24 || c == 3) then 365 else 364
    ensures t == 3 && q == 24 ==> c < 3 && doe + 1 == 36524 * (c + 1)
    ensures t == 3 && q < 24 ==> doe + 1 == 36524 * c + 1461 * (q + 1)
    ensures t < 3 ==> doe + 1 == 36524 * c + 1461 * q + 365 * (t + 1)
  {
  }

  /** The month counted from March, and the day of it. */
  function MonthFromMarch(doy: int): int {
    Quot(5 * doy + 2, 153)
  }

  function DayOfMonth(doy: int): int {
    doy - Quot(153 * MonthFromMarch(doy) + 2, 5) + 1
  }

  /** The length of a month counted from March; February's is what is left of the year. */
  function MonthLength(mp: int): int {
    if mp == 1 || mp == 3 || mp == 6 || mp == 8 then 30 else if mp == 11 then 29 else 31
  }

  lemma MonthAndDay(doy: int)
    requires 0 <= doy <= 365
    ensures var mp := MonthFromMarch(doy);
            && 0 <= mp <= 11 && 1 <= DayOfMonth(doy) <= MonthLength(mp)
            && (mp == 11 <==> doy >= 337) && (mp == 11 ==> DayOfMonth(doy) == doy - 336)
            && (doy < 365 ==>
                  if DayOfMonth(doy) < MonthLength(mp) then MonthFromMarch(doy + 1) == mp
                      && DayOfMonth(doy + 1) == DayOfMonth(doy) + 1
                  else MonthFromMarch(doy + 1) == mp + 1 && DayOfMonth(doy + 1) == 1)
  {
    var mp := MonthFromMarch(doy);
    assert 153 * mp <= 5 * doy + 2 < 153 * mp + 153;
    MonthStarts(mp);
    MonthStarts(mp + 1);
  }

  lemma MonthStarts(mp: int)
    requires 0 <= mp <= 12
    ensures Quot(153 * mp + 2, 5) == [0, 31, 61, 92, 122, 153, 184, 214, 245, 275, 306, 337, 367][mp]
  {
  }

  // ---- Every day ----

  ghost function EraOf(days: int): int {
    (days + 719468) / 146097
  }

  ghost function DayOfEra(days: int): int {
    (days + 719468) % 146097
  }

  /** The date found, in terms of the era and the day of it. */
  ghost function DateAt(era: int, doe: int): Date {
    var y := YearOfEra(doe);
    var doy := doe - YearStart(y);
    var mp := MonthFromMarch(doy);
    var month := if mp < 10 then mp + 3 else mp - 9;
    Date(y + era * 400 + (if month <= 2 then 1 else 0), month, DayOfMonth(doy))
  }

  /** Truncation and the correction for days before the first era come to division that rounds down,
      and the day of the era is never negative, so no cast to unsigned wraps. */
  lemma EraIsFloor(days: int)
    ensures CivilFromDays(days) == DateAt(EraOf(days), DayOfEra(days))
    ensures 0 <= DayOfEra(days) <= 146096
  {
    hide YearOfEra, YearStart;
    var z := days + 719468;
    if z < 0 {
      var k := (-(z - 146096)) / 146097;
      assert 146097 * k <= 146096 - z < 146097 * k + 146097;
      assert z / 146097 == -k;
    }
  }

  lemma SameRemainder(a: int, b: int, m: int, k: int)
    requires m > 0 && a == b + m * k
    ensures a % m == b % m
  {
    var q, r := b / m, b % m;
    assert a == m * (q + k) + r;
    RemainderIs(a, m, q + k, r);
  }

  lemma RemainderIs(a: int, m: int, q: int, r: int)
    requires m > 0 && a == m * q + r && 0 <= r < m
    ensures a % m == r
  {
    var p, s := a / m, a % m;
    assert m * (p - q) == r - s;
    assert p - q >= 1 ==> m * (p - q) >= m;
    assert p - q <= -1 ==> m * (p - q) <= -m;
  }

  lemma LeapPeriod(y: int, era: int)
    ensures IsLeap(y + 400 * era) <==> IsLeap(y)
  {
    SameRemainder(y + 400 * era, y, 4, 100 * era);
    SameRemainder(y + 400 * era, y, 100, 4 * era);
    SameRemainder(y + 400 * era, y, 400, era);
  }

  /** Within an era, the date found is a date and the next day's is the day after it. */
  lemma EraSteps(era: int, doe: int)
    requires 0 <= doe <= 146096
    ensures IsDate(DateAt(era, doe))
    ensures doe < 146096 ==> DateAt(era, doe + 1) == NextDay(DateAt(era, doe))
    ensures doe == 146096 ==> DateAt(era + 1, 0) == NextDay(DateAt(era, doe))
  {
    hide YearOfEra, YearStart, MonthFromMarch, DayOfMonth, IsLeap;
    var y, u := YearAndDay(doe);
    MonthAndDay(u);
    MarchFirst();
    LeapPeriod(y + 1, era);
    LeapPeriod(y, era);
    var mp := MonthFromMarch(u);
    var year := y + era * 400 + (if mp >= 10 then 1 else 0);
    assert DateAt(era, doe) == Date(year, if mp < 10 then mp + 3 else mp - 9, DayOfMonth(u));
    assert mp < 11 ==> DaysIn(year, DateAt(era, doe).month) == MonthLength(mp);
    assert mp == 11 ==> year == y + 1 + 400 * era;
    if doe < 146096 {
      var v := doe + 1 - YearStart(YearOfEra(doe + 1));
      if u < (if IsLeap(y + 1) then 365 else 364) {
        assert v == u + 1;
      } else {
        assert v == 0;
        assert DateAt(era, doe + 1) == Date(y + 1 + era * 400, 3, 1);
      }
    } else {
      assert DateAt(era + 1, 0) == Date((era + 1) * 400, 3, 1);
    }
  }

  lemma MarchFirst()
    ensures MonthFromMarch(0) == 0 && DayOfMonth(0) == 1 && YearOfEra(0) == 0 && YearStart(0) == 0
  {
    YearFound(0, 0, 0, 0, 0);
    StartOf(0, 0, 0);
    MonthAndDay(0);
    MonthStarts(0);
  }

  /** `civil_from_days` is the calendar: day 0 is the first of January 1970, every day's date is a
      date, and the date of each day is the day after the date of the one before. */
  lemma CivilIsTheCalendar(days: int)
    ensures CivilFromDays(0) == Date(1970, 1, 1)
    ensures IsDate(CivilFromDays(days))
    ensures CivilFromDays(days + 1) == NextDay(CivilFromDays(days))
  {
    hide CivilFromDays, DateAt, EraOf, DayOfEra, IsDate, NextDay;
    DayZero();
    EraIsFloor(days);
    EraIsFloor(days + 1);
    EraSteps(EraOf(days), DayOfEra(days));
    EraWraps(days);
  }

  lemma DayZero()
    ensures CivilFromDays(0) == Date(1970, 1, 1)
  {
    assert YearOfEra(135080) == 369 && YearStart(369) == 134774;
  }

  lemma EraWraps(days: int)
    ensures DayOfEra(days) < 146096 ==> EraOf(days + 1) == EraOf(days) && DayOfEra(days + 1) == DayOfEra(days) + 1
    ensures DayOfEra(days) == 146096 ==> EraOf(days + 1) == EraOf(days) + 1 && DayOfEra(days + 1) == 0
  {
  }

  // ---- Counting days ----

  /** Days before the first of January of year `y`, from the first of January of year 1. */
  function DaysBeforeYear(y: int): int {
    365 * (y - 1) + (y - 1) / 4 - (y - 1) / 100 + (y - 1) / 400
  }

  function DaysBeforeMonth(y: int, m: int): int
    requires 1 <= m <= 12
  {
    if m == 1 then 0 else DaysBeforeMonth(y, m - 1) + DaysIn(y, m - 1)
  }

  /** The day number of a date, counted year by year and month by month. */
  function DayNumber(d: Date): int
    requires 1 <= d.month <= 12
  {
    DaysBeforeYear(d.year) + DaysBeforeMonth(d.year, d.month) + d.day - 1 - 719162
  }

  lemma YearLength(y: int)
    ensures DaysBeforeYear(y + 1) == DaysBeforeYear(y) + if IsLeap(y) then 366 else 365
  {
    OneMore(y - 1, 4);
    OneMore(y - 1, 100);
    OneMore(y - 1, 400);
    if y % 400 == 0 {
      RemainderIs(y, 100, 4 * (y / 400), 0);
    }
    if y % 100 == 0 {
      RemainderIs(y, 4, 25 * (y / 100), 0);
    }
  }

  lemma OneMore(x: int, k: int)
    requires k == 4 || k == 100 || k == 400
    ensures (x + 1) / k == x / k + if (x + 1) % k == 0 then 1 else 0
  {
  }

  lemma MonthsOfYear(y: int)
    ensures DaysBeforeMonth(y, 12) + 31 == if IsLeap(y) then 366 else 365
  {
    var b := DaysBeforeMonth(y, 3);
    assert DaysBeforeMonth(y, 2) == 31;
    assert b == 31 + DaysIn(y, 2);
    assert DaysBeforeMonth(y, 4) == b + 31;
    assert DaysBeforeMonth(y, 5) == b + 61;
    assert DaysBeforeMonth(y, 6) == b + 92;
    assert DaysBeforeMonth(y, 7) == b + 122;
    assert DaysBeforeMonth(y, 8) == b + 153;
    assert DaysBeforeMonth(y, 9) == b + 184;
    assert DaysBeforeMonth(y, 10) == b + 214;
    assert DaysBeforeMonth(y, 11) == b + 245;
    assert DaysBeforeMonth(y, 12) == b + 275;
  }

  lemma NextIsOneMore(d: Date)
    requires IsDate(d)
    ensures IsDate(NextDay(d)) && DayNumber(NextDay(d)) == DayNumber(d) + 1
  {
    YearLength(d.year);
    MonthsOfYear(d.year);
  }

  /** Counting the days up to the date found gives back the day number, for every day. */
  lemma {:induction false} CivilCounts(days: int)
    ensures IsDate(CivilFromDays(days)) && DayNumber(CivilFromDays(days)) == days
    decreases if days >= 0 then days else -days
  {
    hide CivilFromDays, DayNumber, NextDay, IsDate;
    CivilIsTheCalendar(days);
    if days > 0 {
      CivilCounts(days - 1);
      CivilIsTheCalendar(days - 1);
      NextIsOneMore(CivilFromDays(days - 1));
    } else if days < 0 {
      CivilCounts(days + 1);
      NextIsOneMore(CivilFromDays(days));
    } else {
      EpochNumber();
    }
  }

  lemma EpochNumber()
    ensures DayNumber(Date(1970, 1, 1)) == 0
  {
    assert DaysBeforeYear(1970) == 719162;
  }

  lemma {:induction false} YearsGrow(y: int, w: int)
    requires y < w
    ensures DaysBeforeYear(y) + 365 <= DaysBeforeYear(w)
    ensures IsLeap(y) ==> DaysBeforeYear(y) + 366 <= DaysBeforeYear(w)
    decreases w - y
  {
    YearLength(w - 1);
    if y < w - 1 {
      YearsGrow(y, w - 1);
    }
  }

  lemma {:induction false} MonthsGrow(y: int, m: int, n: int)
    requires 1 <= m < n <= 12
    ensures DaysBeforeMonth(y, m) + DaysIn(y, m) <= DaysBeforeMonth(y, n)
    decreases n - m
  {
    if m < n - 1 {
      MonthsGrow(y, m, n - 1);
    }
  }

  /** The day of the year, from its first. */
  lemma WithinYear(d: Date)
    requires IsDate(d)
    ensures 0 <= DayNumber(d) + 719162 - DaysBeforeYear(d.year) < if IsLeap(d.year) then 366 else 365
  {
    MonthsOfYear(d.year);
    if d.month < 12 {
      MonthsGrow(d.year, d.month, 12);
    }
    if d.month > 1 {
      MonthsGrow(d.year, 1, d.month);
    }
  }

  /** No two dates have one number. */
  lemma NumbersDiffer(d: Date, e: Date)
    requires IsDate(d) && IsDate(e) && DayNumber(d) == DayNumber(e)
    ensures d == e
  {
    WithinYear(d);
    WithinYear(e);
    if d.year < e.year {
      YearsGrow(d.year, e.year);
    } else if e.year < d.year {
      YearsGrow(e.year, d.year);
    } else if d.month < e.month {
      MonthsGrow(d.year, d.month, e.month);
    } else if e.month < d.month {
      MonthsGrow(d.year, e.month, d.month);
    }
  }

  /** Hence `civil_from_days` is the inverse of counting: every date is the date of its number. */
  lemma CivilOfNumber(d: Date)
    requires IsDate(d)
    ensures CivilFromDays(DayNumber(d)) == d
  {
    CivilCounts(DayNumber(d));
    NumbersDiffer(CivilFromDays(DayNumber(d)), d);
  }

  // ---- In 64 bits ----

  const I64_MIN := -0x8000_0000_0000_0000
  const I64_MAX := 0x7fff_ffff_ffff_ffff

  predicate Fits(x: int) {
    I64_MIN <= x <= I64_MAX
  }

  /** Every value on the way from the day of the era to its year, */
  function ToYear(doe: int): seq<int> {
    var a, b, c := Quot(doe, 1460), Quot(doe, 36524), Quot(doe, 146096);
    [doe, a, b, c, doe - a, doe - a + b, doe - a + b - c, YearOfEra(doe)]
  }

  /** from the year to its first day, */
  function ToYearStart(yoe: int): seq<int> {
    [365 * yoe, Quot(yoe, 4), Quot(yoe, 100), 365 * yoe + Quot(yoe, 4), YearStart(yoe)]
  }

  /** and from the day of the year to the month and its day. */
  function ToMonth(doy: int): seq<int> {
    var mp := MonthFromMarch(doy);
    var start := Quot(153 * mp + 2, 5);
    [doy, 5 * doy, 5 * doy + 2, mp, 153 * mp, 153 * mp + 2, start, doy - start, DayOfMonth(doy), mp + 3, mp - 9]
  }

  function WithinEra(doe: int): seq<int> {
    var yoe := YearOfEra(doe);
    ToYear(doe) + ToYearStart(yoe) + ToMonth(doe - YearStart(yoe))
  }

  /** Every value the arithmetic passes through. */
  function Passes(days: int): seq<int> {
    var z := days + 719468;
    var shifted := if z >= 0 then z else z - 146096;
    var era := Quot(shifted, 146097);
    [z, shifted, era, era * 146097] + WithinEra(z - era * 146097)
    + [era * 400, YearOfEra(z - era * 146097) + era * 400, CivilFromDays(days).year]
  }

  lemma WithinEraIsSmall(doe: int)
    requires 0 <= doe <= 146096
    ensures forall x | x in WithinEra(doe) :: -9 <= x <= 146096
  {
    hide YearOfEra, YearStart;
    var y, u := YearAndDay(doe);
    hide ToYear, ToYearStart, ToMonth;
    ToYearIsSmall(doe);
    ToYearStartIsSmall(y);
    ToMonthIsSmall(u);
  }

  lemma ToYearIsSmall(doe: int)
    requires 0 <= doe <= 146096 && 0 <= YearOfEra(doe) <= 399
    ensures forall x | x in ToYear(doe) :: 0 <= x <= 146096
  {
    hide YearOfEra;
    assert doe / 146096 <= doe / 36524 <= doe / 1460 <= doe;
  }

  lemma ToYearStartIsSmall(yoe: int)
    requires 0 <= yoe <= 399
    ensures forall x | x in ToYearStart(yoe) :: 0 <= x <= 146096
  {
  }

  lemma ToMonthIsSmall(doy: int)
    requires 0 <= doy <= 365
    ensures forall x | x in ToMonth(doy) :: -9 <= x <= 146096
  {
    MonthAndDay(doy);
    hide MonthFromMarch;
  }

  /** On a 64-bit day number nothing overflows exactly when the first addition does not; whatever
      follows from the day of the era alone stays within -9..146096, and the month and the day of the
      month fit the unsigned numbers they are cast to. */
  lemma NothingOverflowsIff(days: int)
    requires Fits(days)
    ensures (forall x | x in Passes(days) :: Fits(x)) <==> days <= I64_MAX - 719468
    ensures 0 <= DayOfEra(days) <= 146096 && forall x | x in WithinEra(DayOfEra(days)) :: -9 <= x <= 146096
    ensures 1 <= CivilFromDays(days).month <= 12 && 1 <= CivilFromDays(days).day <= 31
  {
    hide CivilFromDays, YearOfEra, YearStart, MonthFromMarch, DayOfMonth, IsDate, WithinEra;
    EraIsFloor(days);
    var doe := DayOfEra(days);
    WithinEraIsSmall(doe);
    var y, u := YearAndDay(doe);
    PassesAre(days, y, u);
    assert Passes(days)[0] == days + 719468 && Passes(days)[0] in Passes(days);
    assert days <= I64_MAX - 719468 ==> forall x | x in Passes(days) :: Fits(x);
  }

  lemma PassesAre(days: int, y: int, u: int)
    requires y == YearOfEra(DayOfEra(days)) && u == DayOfEra(days) - YearStart(y) && 0 <= u <= 365 && 0 <= y <= 399
    ensures var z := days + 719468;
            var date := CivilFromDays(days);
            && EraOf(days) * 146097 == z - DayOfEra(days)
            && Passes(days) == [z, if z >= 0 then z else z - 146096, EraOf(days),
                                EraOf(days) * 146097] + WithinEra(DayOfEra(days))
                               + [EraOf(days) * 400, y + EraOf(days) * 400, date.year]
            && date.year == y + EraOf(days) * 400 + (if date.month <= 2 then 1 else 0)
            && 1 <= date.month <= 12 && 1 <= date.day <= 31
  {
    hide YearOfEra, YearStart, WithinEra;
    MonthAndDay(u);
    EraIsFloor(days);
    var z := days + 719468;
    if z < 0 {
      var k := (-(z - 146096)) / 146097;
      assert 146097 * k <= 146096 - z < 146097 * k + 146097;
      assert z / 146097 == -k;
    }
  }
}
