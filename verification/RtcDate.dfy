/** The real-time clock: from its registers to seconds since the start of 1970. */
module RtcDate {
  import opened Basics

  predicate Leap(y: nat) {
    y % 4 == 0 && (y % 100 != 0 || y % 400 == 0)
  }

  // The calendar, counted.

  function DaysInMonth(y: nat, m: nat): nat
    requires 1 <= m <= 12
  {
    if m == 2 then (if Leap(y) then 29 else 28)
    else if m == 4 || m == 6 || m == 9 || m == 11 then 30
    else 31
  }

  /** Days from the start of 1970 to the start of a year. */
  function DaysBeforeYear(y: nat): nat
    requires 1970 <= y
  {
    if y == 1970 then 0 else DaysBeforeYear(y - 1) + (if Leap(y - 1) then 366 else 365)
  }

  /** Days from the start of a year to the start of a month. */
  function DaysBeforeMonth(y: nat, m: nat): nat
    requires 1 <= m <= 12
  {
    if m == 1 then 0 else DaysBeforeMonth(y, m - 1) + DaysInMonth(y, m - 1)
  }

  function DaysBefore(y: nat, m: nat, d: nat): nat
    requires 1970 <= y && 1 <= m <= 12 && 1 <= d
  {
    DaysBeforeYear(y) + DaysBeforeMonth(y, m) + (d - 1)
  }

  // The closed form: years start in March, and come in eras of 400.

  function YearFromMarch(y: nat, m: nat): nat
    requires 1 <= y
  {
    if m <= 2 then y - 1 else y
  }

  function DayOfYearFromMarch(m: nat, d: nat): nat
    requires 1 <= m <= 12 && 1 <= d
  {
    (153 * (if m > 2 then m - 3 else m + 9) + 2) / 5 + d - 1
  }

  function DayOfEra(yoe: nat, doy: nat): int {
    yoe * 365 + yoe / 4 - yoe / 100 + doy
  }

  function DaysByFormula(y: nat, m: nat, d: nat): int
    requires 1 <= y && 1 <= m <= 12 && 1 <= d
  {
    var y' := YearFromMarch(y, m);
    var era := y' / 400;
    era * 146097 + DayOfEra(y' - era * 400, DayOfYearFromMarch(m, d)) - 719468
  }

  /** Leap years up to and including a year. */
  function Leaps(y: nat): int {
    y / 4 - y / 100 + y / 400
  }

  lemma OneMoreLeap(y: nat)
    ensures Leaps(y + 1) == Leaps(y) + if Leap(y + 1) then 1 else 0
  {
    OneMore(y, 4);
    OneMore(y, 100);
    OneMore(y, 400);
    assert (y + 1) % 400 == 0 ==> (y + 1) % 100 == 0;
    assert (y + 1) % 100 == 0 ==> (y + 1) % 4 == 0;
  }

  lemma OneMore(y: nat, n: nat)
    requires n == 4 || n == 100 || n == 400
    ensures (y + 1) / n == y / n + if (y + 1) % n == 0 then 1 else 0
  {
  }

  lemma {:induction false} YearsByLeaps(y: nat)
    requires 1970 <= y
    ensures DaysBeforeYear(y) == 365 * (y - 1970) + Leaps(y - 1) - Leaps(1969)
  {
    if y > 1970 {
      YearsByLeaps(y - 1);
      OneMoreLeap(y - 2);
    }
  }

  lemma ErasByLeaps(y: nat, doy: nat)
    ensures var era := y / 400;
            era * 146097 + DayOfEra(y - era * 400, doy) == 365 * y + Leaps(y) + doy
  {
    var era := y / 400;
    var yoe := y - era * 400;
    assert y / 4 == era * 100 + yoe / 4;
    assert y / 100 == era * 4 + yoe / 100;
  }

  lemma MonthsFromMarch(y: nat, m: nat, d: nat)
    requires 1 <= m <= 12 && 1 <= d
    ensures DayOfYearFromMarch(m, d) == d - 1 + if m > 2 then DaysBeforeMonth(y, m) - DaysBeforeMonth(y, 3)
                                                         else DaysBeforeMonth(y, m) + 306
  {
    MonthTable(y, m);
    MonthTable(y, 3);
  }

  lemma MonthTable(y: nat, m: nat)
    requires 1 <= m <= 12
    ensures DaysBeforeMonth(y, m) == [0, 31, 59, 90, 120, 151, 181, 212, 243, 273, 304, 334][m - 1]
                                     + if m > 2 && Leap(y) then 1 else 0
  {
    if m > 1 {
      MonthTable(y, m - 1);
    }
  }

  lemma FormulaByLeaps(y: nat, m: nat, d: nat)
    requires 1 <= y && 1 <= m <= 12 && 1 <= d
    ensures var y' := YearFromMarch(y, m);
            DaysByFormula(y, m, d) == 365 * y' + Leaps(y') + DayOfYearFromMarch(m, d) - 719468
  {
    ErasByLeaps(YearFromMarch(y, m), DayOfYearFromMarch(m, d));
  }

  /** The closed form counts the days of the calendar, for all dates. */
  lemma FormulaCountsDays(y: nat, m: nat, d: nat)
    requires 1970 <= y && 1 <= m <= 12 && 1 <= d
    ensures DaysByFormula(y, m, d) == DaysBefore(y, m, d)
  {
    FormulaByLeaps(y, m, d);
    YearsByLeaps(y);
    MonthsFromMarch(y, m, d);
    OneMoreLeap(y - 1);
    MonthTable(y, 3);
    assert Leaps(1969) == 477;
  }

  // What the clock makes of its registers.

  datatype Registers = Registers(year: Byte, month: Byte, day: Byte, hour: Byte, min: Byte, sec: Byte)

  function FromBcd(b: Byte): Byte {
    b / 16 * 10 + b % 16
  }

  /** Two decimal digits. */
  predicate Decimal(b: Byte) {
    b / 16 < 10 && b % 16 < 10
  }

  /** The digits of a number below one hundred, and no others, give it back. */
  lemma BcdRoundTrip(n: nat, b: Byte)
    requires n < 100 && Decimal(b)
    ensures FromBcd(b) == n <==> b == n / 10 * 16 + n % 10
  {
  }

  predicate ValidDate(r: Registers) {
    1 <= FromBcd(r.month) <= 12 && 1 <= FromBcd(r.day)
  }

  /** Seconds within the day. */
  function TimeOfDay(r: Registers): nat {
    FromBcd(r.hour) * 60 * 60 + FromBcd(r.min) * 60 + FromBcd(r.sec)
  }

  function DaysOf(r: Registers): nat
    requires ValidDate(r)
  {
    DaysBefore(FromBcd(r.year) + 2000, FromBcd(r.month), FromBcd(r.day))
  }

  /** The seconds that days make are counted in 32 bits, all others in 64. */
  function UnixTime(r: Registers): int
    requires ValidDate(r)
  {
    var days := DaysByFormula(FromBcd(r.year) + 2000, FromBcd(r.month), FromBcd(r.day));
    days * 60 * 60 * 24 % 0x1_0000_0000 + TimeOfDay(r)
  }

  lemma FitsExactly(days: nat)
    ensures days * 60 * 60 * 24 % 0x1_0000_0000 == days * 86400 <==> days <= 49710
  {
  }

  /** The time is right exactly up to the day on which 32 bits of seconds run out. */
  lemma RightExactlyForThirtyTwoBits(r: Registers)
    requires ValidDate(r)
    ensures UnixTime(r) == DaysOf(r) * 86400 + FromBcd(r.hour) * 3600 + FromBcd(r.min) * 60 + FromBcd(r.sec) <==>
            DaysOf(r) <= 49710
  {
    FormulaCountsDays(FromBcd(r.year) + 2000, FromBcd(r.month), FromBcd(r.day));
    FitsExactly(DaysOf(r));
  }

  /** The day on which they do is the seventh of February 2106. */
  lemma LastRightDay()
    ensures DaysBefore(2106, 2, 7) == 49710
  {
    FormulaCountsDays(2106, 2, 7);
  }

  /** With two decimal digits for the year, and no more days than a month has, it is always right. */
  lemma RightInThisCentury(r: Registers)
    requires ValidDate(r) && Decimal(r.year) && FromBcd(r.day) <= 31
    ensures UnixTime(r) == DaysOf(r) * 86400 + FromBcd(r.hour) * 3600 + FromBcd(r.min) * 60 + FromBcd(r.sec)
  {
    var y := FromBcd(r.year) + 2000;
    YearsByLeaps(y);
    MonthTable(y, FromBcd(r.month));
    RightExactlyForThirtyTwoBits(r);
  }
}
