/** Civil days and their inverse: `_days_from_civil` of vfy/rulebook.py against the renderer
    inside `_add_seconds` of vfy/authorization.py. Divisors are positive throughout, where
    the host's floor division and Dafny's Euclidean division agree. */
module Calendar {

  datatype Date = Date(year: int, month: int, day: int)

  predicate IsLeap(year: int)
  {
    year % 4 == 0 && (year % 100 != 0 || year % 400 == 0)
  }

  function MonthLength(year: int, month: int): (n: int)
    requires 1 <= month <= 12
  {
    if month == 2 then (if IsLeap(year) then 29 else 28)
    else if month in {4, 6, 9, 11} then 30
    else 31
  }

  predicate IsDate(d: Date)
  {
    1 <= d.month <= 12 && 1 <= d.day <= MonthLength(d.year, d.month)
  }

  /** The civil calendar itself: the day after a date. */
  function NextDate(d: Date): (r: Date)
    requires IsDate(d)
    ensures IsDate(r)
  {
    if d.day < MonthLength(d.year, d.month) then d.(day := d.day + 1)
    else if d.month < 12 then Date(d.year, d.month + 1, 1)
    else Date(d.year + 1, 1, 1)
  }

  // --- date to day number ---------------------------------------------------------------------

  /** First day, counted from 1 March, of the month `m` places after March. */
  function MonthOffset(m: int): int
  {
    (153 * m + 2) / 5
  }

  function DaysFromCivil(d: Date): int
  {
    var year := if d.month <= 2 then d.year - 1 else d.year;
    var era := (if year >= 0 then year else year - 399) / 400;
    var yearOfEra := year - era * 400;
    var dayOfYear := MonthOffset(d.month + (if d.month > 2 then -3 else 9)) + d.day - 1;
    var dayOfEra := yearOfEra * 365 + yearOfEra / 4 - yearOfEra / 100 + dayOfYear;
    era * 146097 + dayOfEra - 719468
  }

  // --- the arithmetic is the calendar --------------------------------------------------------

  /** Days before year `y` (which starts in March), counted from the start of year 0. */
  function YearStart(y: int): int
  {
    365 * y + y / 4 - y / 100 + y / 400
  }

  lemma QuotientStep(y: int, k: int)
    requires k > 0
    ensures (y + 1) / k == y / k + if (y + 1) % k == 0 then 1 else 0
  {
    var q, r := (y + 1) / k, (y + 1) % k;
    if r == 0 {
      assert y == k * (q - 1) + (k - 1);
      QuotientUnique(y, k, q - 1, k - 1);
    } else {
      assert y == k * q + (r - 1);
      QuotientUnique(y, k, q, r - 1);
    }
  }

  lemma QuotientUnique(y: int, k: int, q: int, r: int)
    requires k > 0 && y == k * q + r && 0 <= r < k
    ensures y / k == q && y % k == r
  {
    var d := q - y / k;
    assert k * d == y % k - r;
    assert d >= 1 ==> k * d >= k;
    assert d <= -1 ==> k * d <= -k;
  }

  lemma YearStep(y: int)
    ensures YearStart(y + 1) - YearStart(y) == if IsLeap(y + 1) then 366 else 365
  {
    QuotientStep(y, 4);
    QuotientStep(y, 100);
    QuotientStep(y, 400);
  }

  /** The year the formula counts in: it starts on 1 March. */
  function MarchYear(d: Date): int
  {
    if d.month <= 2 then d.year - 1 else d.year
  }

  function MarchMonth(d: Date): int
  {
    d.month + (if d.month > 2 then -3 else 9)
  }

  lemma DaysByYearStart(d: Date)
    requires d.year >= 0
    ensures DaysFromCivil(d) ==
            YearStart(MarchYear(d)) + MonthOffset(MarchMonth(d)) + d.day - 1 - 719468
  {
    var y := MarchYear(d);
    var era := (if y >= 0 then y else y - 399) / 400;
    var yoe := y - era * 400;
    assert y == 400 * era + yoe && 0 <= yoe < 400;
    QuotientUnique(y, 400, era, yoe);
    QuotientUnique(y, 100, 4 * era + yoe / 100, yoe % 100);
    QuotientUnique(y, 4, 100 * era + yoe / 4, yoe % 4);
  }

  function MarchDays(d: Date): int
  {
    YearStart(MarchYear(d)) + MonthOffset(MarchMonth(d)) + d.day - 1
  }

  lemma MonthOffsets()
    ensures MonthOffset(0) == 0 && MonthOffset(1) == 31 && MonthOffset(2) == 61 && MonthOffset(3) == 92
    ensures MonthOffset(4) == 122 && MonthOffset(5) == 153 && MonthOffset(6) == 184 && MonthOffset(7) == 214
    ensures MonthOffset(8) == 245 && MonthOffset(9) == 275 && MonthOffset(10) == 306 && MonthOffset(11) == 337
  {
  }

  lemma MarchDaysStep(d: Date)
    requires IsDate(d)
    ensures MarchDays(NextDate(d)) == MarchDays(d) + 1
  {
    var n := NextDate(d);
    if n.month != d.month {
      MonthOffsets();
      if d.month == 2 { YearStep(MarchYear(d)); }
      hide MonthOffset, YearStart;
    }
  }

  /** 1970-01-01 is day 0, and every civil day is one more than the day before it, for every
      date the grammar can write. */
  lemma EachDayIsOneMore(d: Date)
    requires IsDate(d) && d.year >= 0
    ensures DaysFromCivil(NextDate(d)) == DaysFromCivil(d) + 1
  {
    DaysByYearStart(d);
    DaysByYearStart(NextDate(d));
    MarchDaysStep(d);
  }

  lemma EpochIsDayZero()
    ensures DaysFromCivil(Date(1970, 1, 1)) == 0
  {
  }

  // --- day number to date ---------------------------------------------------------------------

  function YearOfEra(dayOfEra: int): int
  {
    (dayOfEra - dayOfEra / 1460 + dayOfEra / 36524 - dayOfEra / 146096) / 365
  }

  /** Days before year `y` of an era. */
  function EraYearStart(y: int): int
  {
    365 * y + y / 4 - y / 100
  }

  /** The date the renderer builds from an era and a day of it. */
  function EraDate(era: int, doe: int): Date
  {
    var yearOfEra := YearOfEra(doe);
    var dayOfYear := doe - EraYearStart(yearOfEra);
    var month := (5 * dayOfYear + 2) / 153;
    var day := dayOfYear - MonthOffset(month) + 1;
    var m := if month < 10 then month + 3 else month - 9;
    Date((if m <= 2 then 1 else 0) + yearOfEra + era * 400, m, day)
  }

  function CivilFromDays(days: int): Date
  {
    var z := days + 719468;
    var era := (if z >= 0 then z else z - 146096) / 146097;
    EraDate(era, z - era * 146097)
  }

  /** First day of the year that is `s` years into four-year cycle `q` of century `c`. */
  lemma EraYearStartParts(c: int, q: int, s: int)
    requires 0 <= c && 0 <= q < 25 && 0 <= s < 4
    ensures EraYearStart(100 * c + 4 * q + s) == 36524 * c + 1461 * q + 365 * s
  {
    var y := 100 * c + 4 * q + s;
    QuotientUnique(y, 4, 25 * c + q, s);
    QuotientUnique(y, 100, c, 4 * q + s);
  }

  /** The year estimate is exact: the day lies in the year it names. */
  lemma YearOfEraExact(doe: int)
    requires 0 <= doe < 146097
    ensures 0 <= YearOfEra(doe) <= 399
    ensures 0 <= doe - EraYearStart(YearOfEra(doe)) <= 365
    ensures doe - EraYearStart(YearOfEra(doe)) == 365 ==> IsLeap(YearOfEra(doe) + 1)
  {
    if doe == 146096 {
      assert YearOfEra(doe) == 399 && EraYearStart(399) == 145731;
    } else {
      var c := doe / 36524;
      var q := (doe - 36524 * c) / 1461;
      var r := doe - 36524 * c - 1461 * q;
      var s := if r == 1460 then 3 else r / 365;
      YearOfEraParts(c, q, r, s);
      EraYearStartParts(c, q, s);
      hide YearOfEra, EraYearStart;
      if r - 365 * s == 365 { LeapEnd(c, q); }
    }
  }

  lemma YearOfEraParts(c: int, q: int, r: int, s: int)
    requires 0 <= c <= 3 && 0 <= q <= 24 && 0 <= r <= 1460 && (q == 24 ==> r < 1460)
    requires 0 <= s <= 3 && 0 <= r - 365 * s <= (if s == 3 then 365 else 364)
    ensures YearOfEra(36524 * c + 1461 * q + r) == 100 * c + 4 * q + s
  {
    var doe := 36524 * c + 1461 * q + r;
    var k := if 24 * c + q + r >= 1460 then 1 else 0;
    QuotientUnique(doe, 1460, 25 * c + q + k, 24 * c + q + r - 1460 * k);
    QuotientUnique(doe, 36524, c, 1461 * q + r);
    QuotientUnique(doe, 146096, 0, doe);
    QuotientUnique(36500 * c + 1460 * q + r - k, 365, 100 * c + 4 * q + s, r - k - 365 * s);
  }

  lemma LeapEnd(c: int, q: int)
    requires 0 <= c <= 3 && 0 <= q < 24
    ensures IsLeap(100 * c + 4 * q + 4)
  {
    var y := 100 * c + 4 * q + 4;
    QuotientUnique(y, 4, 25 * c + q + 1, 0);
    QuotientUnique(y, 100, c, 4 * q + 4);
  }

  lemma YearStartOfEra(era: int, y: int)
    requires 0 <= y < 400
    ensures YearStart(400 * era + y) == 146097 * era + EraYearStart(y)
  {
    QuotientUnique(400 * era + y, 400, era, y);
    QuotientUnique(400 * era + y, 100, 4 * era + y / 100, y % 100);
    QuotientUnique(400 * era + y, 4, 100 * era + y / 4, y % 4);
  }

  /** Month and day of a day of a March year. */
  lemma MonthAndDay(doy: int)
    requires 0 <= doy <= 365
    ensures var m := (5 * doy + 2) / 153;
            && 0 <= m <= 11
            && 1 <= doy - MonthOffset(m) + 1
            && (m != 11 ==> doy - MonthOffset(m) + 1 <= (if m in {1, 3, 6, 8} then 30 else 31))
            && (m == 11 ==> doy - MonthOffset(m) + 1 == doy - 336 <= 29)
  {
  }

  lemma IsLeapOfEra(era: int, y: int)
    ensures IsLeap(400 * era + y) == IsLeap(y)
  {
    QuotientUnique(400 * era + y, 400, era + y / 400, y % 400);
    QuotientUnique(400 * era + y, 100, 4 * era + y / 100, y % 100);
    QuotientUnique(400 * era + y, 4, 100 * era + y / 4, y % 4);
  }

  lemma EraDateParts(era: int, doe: int)
    requires 0 <= doe < 146097
    ensures var d := EraDate(era, doe);
            && 0 <= YearOfEra(doe) <= 399
            && MarchYear(d) == 400 * era + YearOfEra(doe)
            && MonthOffset(MarchMonth(d)) + d.day - 1 == doe - EraYearStart(YearOfEra(doe))
  {
    YearOfEraExact(doe);
    hide YearOfEra, EraYearStart;
    MonthAndDay(doe - EraYearStart(YearOfEra(doe)));
  }

  lemma EraDateIsDate(era: int, doe: int)
    requires 0 <= doe < 146097
    ensures IsDate(EraDate(era, doe))
  {
    YearOfEraExact(doe);
    IsLeapOfEra(era, YearOfEra(doe) + 1);
    hide YearOfEra, EraYearStart, IsLeap;
    MonthAndDay(doe - EraYearStart(YearOfEra(doe)));
  }

  /** Whatever era it is put in, a day of an era is rendered as the date it is. */
  lemma EraDayRendered(era: int, doe: int)
    requires 0 <= doe < 146097
    ensures IsDate(EraDate(era, doe))
    ensures MarchDays(EraDate(era, doe)) == 146097 * era + doe
  {
    EraDateParts(era, doe);
    EraDateIsDate(era, doe);
    YearStartOfEra(era, YearOfEra(doe));
    hide EraDate, YearStart, EraYearStart, YearOfEra, MonthOffset;
  }

  /** From 0000-02-29 on, the era the renderer picks is the right one. */
  lemma EraPickedRight(days: int, era: int, doe: int)
    requires days + 719468 == 146097 * era + doe && 0 <= doe < 146097
    requires era >= 0 || (era == -1 && doe == 146096)
    ensures CivilFromDays(days) == EraDate(era, doe)
  {
    hide EraDate;
    var z := days + 719468;
    if era == -1 {
      QuotientUnique(z - 146096, 146097, -1, 0);
    } else {
      QuotientUnique(z, 146097, era, doe);
    }
  }

  /** From 0000-02-29 on, the renderer inverts the day count. */
  lemma DaysOfRenderedDate(days: int)
    requires days + 719468 >= -1
    ensures IsDate(CivilFromDays(days)) && CivilFromDays(days).year >= 0
    ensures DaysFromCivil(CivilFromDays(days)) == days
  {
    var z := days + 719468;
    var era := if z == -1 then -1 else z / 146097;
    var doe := z - era * 146097;
    EraPickedRight(days, era, doe);
    hide DaysFromCivil, CivilFromDays, EraDate, MonthOffset, YearStart, EraYearStart, YearOfEra;
    EraDayRendered(era, doe);
    EraDateParts(era, doe);
    if z == -1 { LastDayOfEra(); }
    DaysByYearStart(EraDate(era, doe));
  }

  lemma LastDayOfEra()
    ensures EraDate(-1, 146096) == Date(0, 2, 29)
  {
    assert YearOfEra(146096) == 399;
  }

  // --- order ----------------------------------------------------------------------------------

  predicate DateLess(a: Date, b: Date)
  {
    a.year < b.year || (a.year == b.year && (a.month < b.month || (a.month == b.month && a.day < b.day)))
  }

  lemma {:induction false} YearStartIncreases(a: int, b: int)
    requires a <= b
    ensures YearStart(a) + 365 * (b - a) <= YearStart(b)
    decreases b - a
  {
    if a < b {
      YearStartIncreases(a, b - 1);
      YearStep(b - 1);
    }
  }

  lemma WithinMarchYear(d: Date)
    requires IsDate(d)
    ensures YearStart(MarchYear(d)) <= MarchDays(d) < YearStart(MarchYear(d) + 1)
  {
    YearStep(MarchYear(d));
    assert MonthOffset(11) == 337;
  }

  /** The day count orders dates as the calendar does, so it never merges two of them. */
  lemma DaysStrictlyIncrease(a: Date, b: Date)
    requires IsDate(a) && IsDate(b) && a.year >= 0 && b.year >= 0
    requires DateLess(a, b)
    ensures DaysFromCivil(a) < DaysFromCivil(b)
  {
    DaysByYearStart(a);
    DaysByYearStart(b);
    WithinMarchYear(a);
    WithinMarchYear(b);
    hide DaysFromCivil, YearStart, MonthOffset;
    if MarchYear(a) < MarchYear(b) {
      YearStartIncreases(MarchYear(a) + 1, MarchYear(b));
    } else {
      SameMarchYear(a, b);
    }
  }

  lemma SameMarchYear(a: Date, b: Date)
    requires IsDate(a) && IsDate(b) && DateLess(a, b) && MarchYear(a) >= MarchYear(b)
    ensures MarchDays(a) < MarchDays(b)
  {
    assert MarchYear(a) == MarchYear(b);
    var i, j := MarchMonth(a), MarchMonth(b);
    if i != j { MonthFits(i, j, a); }
  }

  lemma MonthFits(i: int, j: int, a: Date)
    requires IsDate(a) && i == MarchMonth(a) && i < j <= 11
    ensures MonthOffset(i) + a.day <= MonthOffset(j)
  {
    assert MonthOffset(i + 1) <= MonthOffset(j);
    MonthLengths(i, a);
  }

  lemma MonthLengths(i: int, a: Date)
    requires IsDate(a) && i == MarchMonth(a) && i <= 10
    ensures MonthOffset(i) + a.day <= MonthOffset(i + 1)
  {
  }

  /** The other inverse: a date from 0000-02-29 on is rendered back from its day number. */
  lemma RenderedDateOfDays(d: Date)
    requires IsDate(d) && d.year >= 0 && DaysFromCivil(d) + 719468 >= -1
    ensures CivilFromDays(DaysFromCivil(d)) == d
  {
    var e := CivilFromDays(DaysFromCivil(d));
    DaysOfRenderedDate(DaysFromCivil(d));
    if DateLess(d, e) {
      DaysStrictlyIncrease(d, e);
    } else if DateLess(e, d) {
      DaysStrictlyIncrease(e, d);
    }
  }

  // --- where the renderer is wrong -------------------------------------------------------------

  /** The renderer subtracts 146096 before a floor division, so below 0000-02-29 it picks an era
      too low: 0000-02-28 is rendered as the next day. */
  lemma RenderedDayTooLate()
    ensures DaysFromCivil(Date(0, 2, 28)) == -719470
    ensures CivilFromDays(-719470) == Date(0, 2, 29)
  {
    assert EraDate(-2, 292192) == Date(0, 2, 29) by { assert YearOfEra(292192) == 799; }
    assert CivilFromDays(-719470) == EraDate(-2, 292192) by { hide EraDate; }
    assert DaysFromCivil(Date(0, 2, 28)) == -719470 by { hide EraDate, CivilFromDays; }
  }

  lemma YearEstimateBound(doe: int)
    requires 0 <= doe < 2 * 146097
    ensures 365 * YearOfEra(doe) <= doe - doe / 1460 + 8
  {
    assert doe / 36524 <= 8;
  }

  /** Months before the epoch of the era the renderer leaves no year it can write. */
  lemma RenderedYearNegative(days: int)
    requires days + 719468 < -400
    ensures CivilFromDays(days).year < 0
  {
    var z := days + 719468;
    var era := (z - 146096) / 146097;
    var doe := z - era * 146097;
    YearEstimateBound(doe);
    if era == -2 {
      assert doe < 292194 - 400;
      assert YearOfEra(doe) < 799;
    } else {
      assert era <= -3;
      assert YearOfEra(doe) <= 800;
    }
  }

  /** Just below 0000-02-29 the rendered day is the day after. */
  lemma RenderedOneTooLate(z: int)
    requires -400 <= z < -1
    ensures var d := CivilFromDays(z - 719468);
            d.year >= 0 ==> d.year == 0 && d.month <= 2 && IsDate(d) && MarchDays(d) == z + 1
  {
    var era := (z - 146096) / 146097;
    var doe := z + 292194;
    QuotientUnique(z - 146096, 146097, -2, z + 146098);
    LateYear(doe);
    var yoe := YearOfEra(doe);
    if yoe == 799 {
      LateMonth(z + 367);
    } else {
      LateMonth(doe - (365 * yoe + yoe / 4 - yoe / 100));
    }
  }

  lemma LateYear(doe: int)
    requires 292194 - 400 <= doe < 292193
    ensures YearOfEra(doe) <= 799
    ensures YearOfEra(doe) == 799 ==> doe >= 291828
  {
    assert doe / 146096 == (if doe == 292192 then 2 else 1);
    assert doe / 36524 == (if doe == 292192 then 8 else 7);
    assert doe / 1460 == if doe >= 292000 then 200 else 199;
  }

  lemma LateMonth(doy: int)
    ensures var m := (5 * doy + 2) / 153;
            && (1 <= doy <= 365 ==> 0 <= m <= 11)
            && (doy <= 365 ==> m <= 11)
            && (m == 10 ==> 1 <= doy - MonthOffset(m) + 1 <= 31)
            && (m == 11 && doy <= 365 ==> 1 <= doy - MonthOffset(m) + 1 <= 29)
  {
  }

  /** Below 0000-02-29 no rendered date is both writable (its year not negative) and right. */
  lemma RenderedWrongBelow(days: int)
    requires days + 719468 < -1
    ensures var d := CivilFromDays(days);
            d.year >= 0 ==> IsDate(d) && DaysFromCivil(d) == days + 1
  {
    var d := CivilFromDays(days);
    if days + 719468 < -400 {
      RenderedYearNegative(days);
    } else {
      RenderedOneTooLate(days + 719468);
      if d.year >= 0 { DaysByYearStart(d); }
    }
  }

  /** Exactly which days the renderer writes and the day count reads back. */
  lemma RenderingIsInverseExactlyFrom(days: int)
    ensures CivilFromDays(days).year >= 0 && DaysFromCivil(CivilFromDays(days)) == days
            <==> days + 719468 >= -1
  {
    if days + 719468 >= -1 {
      DaysOfRenderedDate(days);
    } else {
      RenderedWrongBelow(days);
    }
  }
}
