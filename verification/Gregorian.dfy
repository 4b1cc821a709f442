/** The Gregorian year of a date by arithmetic on four-century cycles, and what it means: the date lies between
    two New Year's Days, counted from 1970 by the rule of leap years. */
module Gregorian {
  import opened Timeline

  /** Dates are days since 1970-01-01. */
  function YearOf(date: int): int {
    var z := date + 719468;
    var era := z / 146097;
    var doe := z % 146097;
    var yoe := (doe - doe / 1460 + doe / 36524 - doe / 146096) / 365;
    var doy := doe - (365 * yoe + yoe / 4 - yoe / 100);
    yoe + era * 400 + if (5 * doy + 2) / 153 < 10 then 0 else 1
  }

  predicate Leap(year: int) { year % 4 == 0 && (year % 100 != 0 || year % 400 == 0) }

  /** Whole days and leap days of the years up to one that counts from March. */
  function MarchDays(year: int): int { 365 * year + year / 4 - year / 100 + year / 400 }

  /** The first of January of a year. */
  function NewYear(year: int): int { MarchDays(year - 1) + 306 - 719468 }

  /** New Year's Days are a year apart, and that of 1970 is day zero. */
  lemma NewYears(year: int)
    ensures NewYear(1970) == 0
    ensures NewYear(year + 1) - NewYear(year) == if Leap(year) then 366 else 365
  {
    Division(year, 4);
    Division(year, 100);
    Division(year, 400);
    Centuries(year);
  }

  lemma Centuries(year: int)
    ensures year % 100 == 0 ==> year % 4 == 0
    ensures year % 400 == 0 ==> year % 100 == 0
  {
    if year % 100 == 0 { assert year == 4 * (25 * (year / 100)); }
    if year % 400 == 0 { assert year == 100 * (4 * (year / 400)); }
  }

  /** Counting one further moves the quotient on exactly at a multiple. */
  lemma Division(n: int, d: int)
    requires 0 < d
    ensures n / d - (n - 1) / d == if n % d == 0 then 1 else 0
  {
    var q, r := n / d, n % d;
    assert n == q * d + r;
    if r == 0 { Quotient(n - 1, d, q - 1); } else { Quotient(n - 1, d, q); }
  }

  lemma Quotient(n: int, d: int, q: int)
    requires 0 < d && q * d <= n < q * d + d
    ensures n / d == q
  {
    SameCell(n / d, q, d, n);
  }

  // ------------------------------------------------------------------ one cycle of four centuries

  /** The day a year of the cycle begins on. */
  function CycleYear(y: int): int { 365 * y + y / 4 - y / 100 }

  /** The days of the cycle without leap days. */
  function PlainDays(doe: int): int { doe - doe / 1460 + doe / 36524 - doe / 146096 }

  /** At the start of a year no leap day is miscounted. */
  lemma PlainAtYear(y: int)
    requires 0 <= y < 400
    ensures PlainDays(CycleYear(y)) == 365 * y && 0 <= CycleYear(y) < 146096
    ensures 0 < y ==> CycleYear(y) % 1460 != 0
  {
    var d := CycleYear(y);
    assert d == 1460 * (y / 4) + (365 * (y % 4) + y / 4 - y / 100);
    Quotient(d, 1460, y / 4);
    var c, r := y / 100, y % 100;
    assert y / 4 == 25 * c + r / 4;
    assert d == 36524 * c + 365 * r + r / 4;
    Quotient(d, 36524, c);
  }

  lemma PlainMonotone(x: int, y: int)
    requires 0 <= x <= y
    ensures PlainDays(x) <= PlainDays(y)
    ensures x < y && y % 1460 != 0 ==> PlainDays(x) < PlainDays(y)
  {
    Cycles(x);
    Cycles(y);
    assert x / 36524 <= y / 36524;
    assert y / 1460 - x / 1460 <= y - x;
    if x < y && y % 1460 != 0 { assert y / 1460 - x / 1460 < y - x; }
  }

  lemma Cycles(x: int)
    ensures x / 146096 == x / 36524 / 4
  {
  }

  /** The formula finds the year of the cycle that holds the day. */
  lemma CycleYearHolds(doe: int)
    requires 0 <= doe < 146097
    ensures var y := PlainDays(doe) / 365; 0 <= y < 400 && CycleYear(y) <= doe < if y == 399 then 146097 else CycleYear(y + 1)
  {
    hide PlainDays, CycleYear;
    var y := PlainDays(doe) / 365;
    CycleEnds();
    PlainMonotone(0, doe);
    PlainMonotone(doe, 146096);
    PlainAtYear(y);
    if doe < CycleYear(y) { PlainMonotone(doe, CycleYear(y)); }
    if y < 399 {
      PlainAtYear(y + 1);
      if CycleYear(y + 1) <= doe { PlainMonotone(CycleYear(y + 1), doe); }
    }
  }

  lemma CycleEnds()
    ensures PlainDays(0) == 0 && PlainDays(146096) == 145999 && CycleYear(0) == 0
  {
  }

  // ------------------------------------------------------------------ the year of a date

  lemma CycleShift(y: int, era: int)
    requires 0 <= y < 400
    ensures MarchDays(400 * era + y) == 146097 * era + CycleYear(y)
  {
    Quotient(400 * era + y, 400, era);
    Quotient(400 * era + y, 100, 4 * era + y / 100);
    Quotient(400 * era + y, 4, 100 * era + y / 4);
  }

  lemma MarchStep(year: int)
    ensures 365 <= MarchDays(year + 1) - MarchDays(year) <= 366
  {
    NewYears(year + 1);
  }

  /** YEARS ARE YEARS: a date lies in the year the arithmetic finds, and in no other. */
  lemma YearHolds(date: int, year: int)
    ensures NewYear(year) <= date < NewYear(year + 1) <==> year == YearOf(date)
  {
    hide YearOf, NewYear;
    var march := MarchYear(date + 719468);
    MarchYearHolds(date + 719468);
    YearIs(date);
    hide MarchDays, MarchYear;
    MarchStep(march - 1);
    MarchStep(march);
    MarchStep(march + 1);
    NewYearIs(march);
    NewYearIs(march + 1);
    NewYearIs(march + 2);
    YearsApart(year, YearOf(date));
  }

  /** The year from March that holds a day counted from the first of March of year zero. */
  function MarchYear(z: int): int { 400 * (z / 146097) + PlainDays(z % 146097) / 365 }

  lemma MarchYearHolds(z: int)
    ensures MarchDays(MarchYear(z)) <= z < MarchDays(MarchYear(z) + 1)
    ensures z - MarchDays(MarchYear(z)) == z % 146097 - CycleYear(PlainDays(z % 146097) / 365)
  {
    hide PlainDays, CycleYear, MarchDays;
    var era, doe := z / 146097, z % 146097;
    var y := PlainDays(doe) / 365;
    CycleYearHolds(doe);
    CycleShift(y, era);
    if y < 399 {
      CycleShift(y + 1, era);
    } else {
      CycleEnds();
      CycleShift(0, era + 1);
    }
  }

  lemma NewYearIs(year: int)
    ensures NewYear(year) == MarchDays(year - 1) + 306 - 719468
  {
  }

  lemma YearIs(date: int)
    ensures var z := date + 719468; YearOf(date) == if z - MarchDays(MarchYear(z)) < 306 then MarchYear(z) else MarchYear(z) + 1
  {
    hide MarchDays, PlainDays, CycleYear, YearOf;
    var z := date + 719468;
    MarchYearHolds(z);
    YearIsSplit(date, z / 146097, z % 146097, PlainDays(z % 146097) / 365);
    March(z - MarchDays(MarchYear(z)));
  }

  lemma YearIsSplit(date: int, era: int, doe: int, y: int)
    requires era == (date + 719468) / 146097 && doe == (date + 719468) % 146097 && y == PlainDays(doe) / 365
    ensures YearOf(date) == y + era * 400 + if (5 * (doe - CycleYear(y)) + 2) / 153 < 10 then 0 else 1
  {
  }

  /** The tenth month from March on is January. */
  lemma March(doy: int)
    ensures (5 * doy + 2) / 153 < 10 <==> doy < 306
  {
  }

  /** Different years begin on different days, in order. */
  lemma {:induction false} YearsInOrder(x: int, y: int)
    requires x < y
    ensures NewYear(x + 1) <= NewYear(y)
    decreases y - x
  {
    if x + 1 < y {
      YearsInOrder(x, y - 1);
      NewYears(y - 1);
    }
  }

  lemma YearsApart(x: int, y: int)
    ensures x < y ==> NewYear(x + 1) <= NewYear(y)
    ensures y < x ==> NewYear(y + 1) <= NewYear(x)
  {
    if x < y { YearsInOrder(x, y); }
    if y < x { YearsInOrder(y, x); }
  }
}
