/** The name of the daily log file, from a millisecond timestamp. */
module LogFileNames {
  import opened Gregorian

  const TWO_31: int := 0x8000_0000
  const TWO_32: int := 0x1_0000_0000
  const TWO_63: int := 0x8000_0000_0000_0000
  const TWO_64: int := 0x1_0000_0000_0000_0000

  predicate IsI64(x: int) {
    -TWO_63 <= x < TWO_63
  }

  /** Division that truncates toward zero. */
  function TruncDiv(a: int, b: int): int
    requires b > 0
  {
    if a >= 0 then a / b else -((-a) / b)
  }

  /** The cast to `i32` keeps the low 32 bits. */
  function AsI32(x: int): int {
    (x + TWO_31) % TWO_32 - TWO_31
  }

  function AsU32(x: int): int {
    x % TWO_32
  }

  // ----- The conversion -----

  function Era(z: int): int {
    TruncDiv(if z >= 0 then z else z - 146_096, 146_097)
  }

  function YearOfEra(doe: int): int {
    TruncDiv(doe - TruncDiv(doe, 1460) + TruncDiv(doe, 36_524) - TruncDiv(doe, 146_096), 365)
  }

  function DayOfMarchYear(doe: int, yoe: int): int {
    doe - (365 * yoe + TruncDiv(yoe, 4) - TruncDiv(yoe, 100))
  }

  /** The year, month and day before the casts to 32 bits. */
  function Civil(days: int): Date {
    var z := days + 719_468;
    var era := Era(z);
    var doe := z - era * 146_097;
    var yoe := YearOfEra(doe);
    var doy := DayOfMarchYear(doe, yoe);
    var mp := TruncDiv(5 * doy + 2, 153);
    var d := doy - TruncDiv(153 * mp + 2, 5) + 1;
    var m := mp + if mp < 10 then 3 else -9;
    Date(yoe + era * 400 + (if m <= 2 then 1 else 0), m, d)
  }

  function CivilFromDays(days: int): Date
    requires IsI64(days) && IsI64(days + 719_468)
  {
    var c := Civil(days);
    Date(AsI32(c.year), AsU32(c.month), AsU32(c.day))
  }

  // ----- The conversion inverts the day count -----

  lemma EraBounds(z: int)
    ensures 0 <= z - Era(z) * 146_097 < 146_097
  {
  }

  /** The year of the era is the one whose days contain the day of the era. */
  lemma YearOfEraBounds(doe: int)
    requires 0 <= doe < 146_097
    ensures 0 <= YearOfEra(doe) < 400
    ensures 0 <= DayOfMarchYear(doe, YearOfEra(doe)) < YearLength(YearOfEra(doe) + 1)
  {
    if doe < 146_096 {
      var century, rest := doe / 36_524, doe % 36_524;
      YearOfCycle(doe, century, rest / 1461, rest % 1461);
    }
  }

  /** A day of an era, from its century, its four-year cycle in the century, and its day in the cycle. */
  ghost predicate IsDayOfEra(doe: int, century: int, cycle: int, day: int) {
    && 0 <= century < 4 && 0 <= cycle < 25 && 0 <= day < 1461 && (cycle == 24 ==> day < 1460)
    && doe == 36_524 * century + 1461 * cycle + day
  }

  /** Whether the leap days so far have moved the quotient by 1460 on by one. */
  function Early(century: int, cycle: int, day: int): int {
    if 24 * century + cycle + day >= 1460 then 1 else 0
  }

  function YearOfDay(century: int, cycle: int, day: int): int {
    100 * century + 4 * cycle + (day - Early(century, cycle, day)) / 365
  }

  lemma YearOfCycle(doe: int, century: int, cycle: int, day: int)
    requires IsDayOfEra(doe, century, cycle, day)
    ensures 0 <= YearOfEra(doe) < 400
    ensures 0 <= DayOfMarchYear(doe, YearOfEra(doe)) < YearLength(YearOfEra(doe) + 1)
  {
    assert YearOfEra(doe) == YearOfDay(century, cycle, day) by {
      YearOfEraIsYearOfDay(doe, century, cycle, day);
    }
    hide YearOfEra;
    DayOfYearOfDay(doe, century, cycle, day);
  }

  lemma YearOfEraIsYearOfDay(doe: int, century: int, cycle: int, day: int)
    requires IsDayOfEra(doe, century, cycle, day)
    ensures YearOfEra(doe) == YearOfDay(century, cycle, day)
  {
    var early := Early(century, cycle, day);
    assert doe / 1460 == 25 * century + cycle + early by {
      Quotient(doe, 1460, 25 * century + cycle + early);
    }
    assert doe / 36_524 == century by {
      Quotient(doe, 36_524, century);
    }
    assert doe / 146_096 == 0;
    Quotient(36_500 * century + 1460 * cycle + day - early, 365, YearOfDay(century, cycle, day));
  }

  lemma DayOfYearOfDay(doe: int, century: int, cycle: int, day: int)
    requires IsDayOfEra(doe, century, cycle, day)
    ensures var yoe := YearOfDay(century, cycle, day);
      0 <= yoe < 400 && 0 <= DayOfMarchYear(doe, yoe) < YearLength(yoe + 1)
  {
    var early := Early(century, cycle, day);
    var j := (day - early) / 365;
    var yoe := YearOfDay(century, cycle, day);
    assert 365 * j <= day - early < 365 * j + 365;
    assert 0 <= j <= 3;
    Quotient(yoe, 4, 25 * century + cycle);
    Quotient(yoe, 100, century);
    assert DayOfMarchYear(doe, yoe) == day - 365 * j;
    if day == 1460 {
      LastYearOfCycleIsLeap(century, cycle);
    }
  }

  lemma LastYearOfCycleIsLeap(century: int, cycle: int)
    requires 0 <= century && 0 <= cycle < 24
    ensures IsLeap(100 * century + 4 * cycle + 4)
  {
    var year := 100 * century + 4 * cycle + 4;
    Quotient(year, 4, 25 * century + cycle + 1);
    Quotient(year, 100, century);
  }

  lemma Quotient(a: int, n: int, q: int)
    requires n > 0 && n * q <= a < n * q + n
    ensures a / n == q
  {
    var k := a / n - q;
    assert n * (a / n) + a % n == a;
    assert n * k == n * (a / n) - n * q;
    Scaled(n, k);
  }

  lemma Scaled(n: int, k: int)
    requires n > 0
    ensures k >= 1 ==> n * k >= n
    ensures k <= -1 ==> n * k <= -n
  {
  }

  /** The month and day, from the day of a year that starts in March. */
  function MonthAndDay(doy: int): (int, int) {
    var mp := TruncDiv(5 * doy + 2, 153);
    (mp + (if mp < 10 then 3 else -9), doy - TruncDiv(153 * mp + 2, 5) + 1)
  }

  /** The day of the March year on which the month `3 + mp` begins. */
  function MarchMonthStart(mp: int): int
    requires 0 <= mp < 12
  {
    [0, 31, 61, 92, 122, 153, 184, 214, 245, 275, 306, 337][mp]
  }

  lemma MonthOfDay(doy: int)
    requires 0 <= doy < 366
    ensures var mp := TruncDiv(5 * doy + 2, 153);
      && 0 <= mp < 12
      && MarchMonthStart(mp) <= doy && (mp < 11 ==> doy < MarchMonthStart(mp + 1))
      && MonthAndDay(doy) == (if mp < 10 then mp + 3 else mp - 9, doy - MarchMonthStart(mp) + 1)
  {
    var mp := TruncDiv(5 * doy + 2, 153);
    assert 0 <= mp < 12;
    assert TruncDiv(153 * mp + 2, 5) == MarchMonthStart(mp);
  }

  /** January and February belong to the March year before. */
  lemma MarchYear(doy: int, year: int)
    requires 0 <= doy < YearLength(year + 1)
    ensures var md := MonthAndDay(doy);
      var date := Date(if md.0 <= 2 then year + 1 else year, md.0, md.1);
      IsValid(date) && DayNumber(date) == DaysToYear(year) + DaysToMonth(year, 3) + doy
  {
    hide MonthAndDay, IsLeap, DaysToMonth, DaysToYear, TruncDiv;
    var mp, md := TruncDiv(5 * doy + 2, 153), MonthAndDay(doy);
    MonthOfDay(doy);
    MonthsInClosedForm(year, 3);
    YearsStep(year);
    if mp < 10 {
      MonthsInClosedForm(year, md.0);
    } else {
      MonthsInClosedForm(year + 1, md.0);
    }
  }

  /** The first day of March 0000 and the start of every era. */
  lemma EraStart(era: int)
    ensures DaysToYear(400 * era) + DaysToMonth(400 * era, 3) == 146_097 * era - 719_468
  {
    DaysToYearInClosedForm(400 * era);
    MonthsInClosedForm(400 * era, 3);
    Quotient(400 * era - 1, 4, 100 * era - 1);
    Quotient(400 * era - 1, 100, 4 * era - 1);
    Quotient(400 * era - 1, 400, era - 1);
  }

  /** Eras repeat the calendar, and years within an era are counted as the conversion counts them. */
  lemma YearInEra(era: int, yoe: int)
    requires 0 <= yoe < 400
    ensures YearLength(400 * era + yoe + 1) == YearLength(yoe + 1)
    ensures DaysToYear(400 * era + yoe) + DaysToMonth(400 * era + yoe, 3)
      == 146_097 * era - 719_468 + 365 * yoe + yoe / 4 - yoe / 100
  {
    EraStart(era);
    YearFromEraStart(era, yoe);
    RepeatsEveryEra(era, yoe + 1);
  }

  lemma RepeatsEveryEra(era: int, year: int)
    ensures IsLeap(400 * era + year) == IsLeap(year)
  {
    Remainder(4, 100 * era, year);
    Remainder(100, 4 * era, year);
    Remainder(400, era, year);
  }

  lemma Remainder(n: int, k: int, x: int)
    requires n == 4 || n == 100 || n == 400
    ensures (n * k + x) % n == x % n
  {
  }

  lemma {:induction false} YearFromEraStart(era: int, yoe: int)
    requires 0 <= yoe < 400
    ensures DaysToYear(400 * era + yoe) + DaysToMonth(400 * era + yoe, 3)
      == DaysToYear(400 * era) + DaysToMonth(400 * era, 3) + 365 * yoe + yoe / 4 - yoe / 100
  {
    if yoe > 0 {
      hide DaysToYear, DaysToMonth, IsLeap;
      YearFromEraStart(era, yoe - 1);
      YearFromMarch(400 * era + yoe - 1);
      RepeatsEveryEra(era, yoe);
      assert yoe / 400 == 0 && (yoe - 1) / 400 == 0;
      LeapDays(yoe);
    }
  }

  /** From one March to the next are as many days as in the year that ends between them. */
  lemma YearFromMarch(year: int)
    ensures DaysToYear(year + 1) + DaysToMonth(year + 1, 3)
      == DaysToYear(year) + DaysToMonth(year, 3) + YearLength(year + 1)
  {
    hide DaysToYear, DaysToMonth, IsLeap;
    YearsStep(year);
    MonthsInClosedForm(year, 3);
    MonthsInClosedForm(year + 1, 3);
  }

  lemma CivilUnfolded(days: int)
    ensures var z := days + 719_468;
      var doe := z - Era(z) * 146_097;
      var md, year := MonthAndDay(DayOfMarchYear(doe, YearOfEra(doe))), YearOfEra(doe) + Era(z) * 400;
      Civil(days) == Date(if md.0 <= 2 then year + 1 else year, md.0, md.1)
  {
    hide Era, YearOfEra, DayOfMarchYear;
  }

  lemma DayInMarchYear(doe: int)
    requires 0 <= doe < 146_097 && 0 <= YearOfEra(doe) < 400
    ensures DayOfMarchYear(doe, YearOfEra(doe))
      == doe - (365 * YearOfEra(doe) + YearOfEra(doe) / 4 - YearOfEra(doe) / 100)
  {
    hide YearOfEra;
  }

  /** The conversion yields the valid date whose day number it is given. */
  lemma CivilInvertsDayNumber(days: int)
    ensures IsValid(Civil(days)) && DayNumber(Civil(days)) == days
  {
    hide IsValid, DayNumber, Era, YearOfEra, DayOfMarchYear, DaysToYear, DaysToMonth, YearLength, MonthAndDay, Civil;
    var z := days + 719_468;
    var era := Era(z);
    var doe := z - era * 146_097;
    EraBounds(z);
    YearOfEraBounds(doe);
    DayInMarchYear(doe);
    var yoe := YearOfEra(doe);
    var doy := DayOfMarchYear(doe, yoe);
    var md := MonthAndDay(doy);
    var year := yoe + era * 400;
    YearInEra(era, yoe);
    MarchYear(doy, year);
    CivilUnfolded(days);
  }

  /** It is the only such date: the conversion also gives back every date from its number. */
  lemma DayNumberInvertsCivil(date: Date)
    requires IsValid(date)
    ensures Civil(DayNumber(date)) == date
  {
    CivilInvertsDayNumber(DayNumber(date));
    NumberDeterminesDate(Civil(DayNumber(date)), date);
  }

  lemma CivilStepsToNextDay(days: int)
    ensures IsValid(Civil(days)) && Civil(days + 1) == NextDay(Civil(days))
  {
    CivilInvertsDayNumber(days);
    CivilInvertsDayNumber(days + 1);
    NextDayIsNext(Civil(days));
    NumberDeterminesDate(Civil(days + 1), NextDay(Civil(days)));
  }

  lemma CivilIsMonotone(a: int, b: int)
    ensures a < b <==> Earlier(Civil(a), Civil(b))
  {
    CivilInvertsDayNumber(a);
    CivilInvertsDayNumber(b);
    if Earlier(Civil(a), Civil(b)) {
      EarlierIsSmaller(Civil(a), Civil(b));
    } else if a < b && Earlier(Civil(b), Civil(a)) {
      EarlierIsSmaller(Civil(b), Civil(a));
    }
  }

  // ----- Machine integers -----

  /** Every intermediate value of the conversion fits the 64-bit integers it is computed in. */
  lemma ConversionFitsI64(days: int)
    requires IsI64(days) && IsI64(days + 719_468)
    ensures var z := days + 719_468;
      && (z < 0 ==> IsI64(z - 146_096))
      && IsI64(Era(z) * 146_097)
      && IsI64(Era(z) * 400)
      && IsI64(Civil(days).year)
      && IsI64(5 * DayOfMarchYear(z - Era(z) * 146_097, YearOfEra(z - Era(z) * 146_097)) + 2)
  {
  }

  /** The 32-bit casts lose nothing exactly when the year fits; months and days always do. */
  lemma CastsKeepTheDate(days: int)
    requires IsI64(days) && IsI64(days + 719_468)
    ensures CivilFromDays(days) == Civil(days) <==> -TWO_31 <= Civil(days).year < TWO_31
  {
    hide Civil;
    CivilInvertsDayNumber(days);
  }

  // ----- File names -----

  const MS_PER_DAY := 86_400_000

  predicate IsTimestamp(ms: int) {
    0 <= ms < TWO_64
  }

  /** For every timestamp the conversion is exact, and the year is a non-negative 32-bit integer. */
  lemma TimestampYearFits(ms: int)
    requires IsTimestamp(ms)
    ensures var days := ms / 1000 / 86_400;
      && IsI64(days) && IsI64(days + 719_468)
      && CivilFromDays(days) == Civil(days)
      && 1970 <= Civil(days).year < TWO_31
  {
    var days := ms / 1000 / 86_400;
    hide Civil;
    CivilInvertsDayNumber(days);
    var date := Civil(days);
    DayOfYear(date);
    if date.year < 1970 {
      YearsAreOrdered(date.year, 1970);
    }
    DaysToYearInClosedForm(date.year);
    CastsKeepTheDate(days);
  }

  function Digit(n: nat): char
    requires n < 10
  {
    "0123456789"[n]
  }

  function Digits(n: nat): (s: string)
    ensures |s| >= 1
  {
    if n < 10 then [Digit(n)] else Digits(n / 10) + [Digit(n % 10)]
  }

  function Zeros(n: nat): (s: string)
    ensures |s| == n
  {
    if n == 0 then "" else "0" + Zeros(n - 1)
  }

  /** Decimal notation with leading zeros up to the width. */
  function Padded(n: nat, width: nat): (s: string)
    ensures |s| >= width
  {
    var digits := Digits(n);
    (if |digits| < width then Zeros(width - |digits|) else "") + digits
  }

  function DateText(date: Date): string
    requires date.year >= 0 && date.month >= 0 && date.day >= 0
  {
    Padded(date.year, 4) + "-" + Padded(date.month, 2) + "-" + Padded(date.day, 2)
  }

  function LogFileName(ms: int): string
    requires IsTimestamp(ms)
  {
    TimestampYearFits(ms);
    CivilInvertsDayNumber(ms / 1000 / 86_400);
    "dbgflow-" + DateText(CivilFromDays(ms / 1000 / 86_400)) + ".jsonl"
  }

  /** The number a decimal text denotes. */
  function Value(s: string): int {
    if s == "" then 0 else 10 * Value(s[..|s| - 1]) + (s[|s| - 1] as int - '0' as int)
  }

  lemma {:induction false} ValueOfDigits(n: nat, zeros: nat)
    ensures Value(Zeros(zeros) + Digits(n)) == n
  {
    var s := Zeros(zeros) + Digits(n);
    if n < 10 {
      assert s[..|s| - 1] == Zeros(zeros);
      ValueOfZeros(zeros);
    } else {
      assert s[..|s| - 1] == Zeros(zeros) + Digits(n / 10);
      ValueOfDigits(n / 10, zeros);
    }
  }

  lemma {:induction false} ValueOfZeros(n: nat)
    ensures Value(Zeros(n)) == 0
  {
    if n > 0 {
      ZerosEndInZero(n);
      ValueOfZeros(n - 1);
    }
  }

  lemma {:induction false} ZerosEndInZero(n: nat)
    requires n > 0
    ensures Zeros(n)[n - 1] == '0' && Zeros(n)[..n - 1] == Zeros(n - 1)
  {
    if n > 1 {
      ZerosEndInZero(n - 1);
    }
  }

  lemma ValueOfPadded(n: nat, width: nat)
    ensures Value(Padded(n, width)) == n
  {
    var digits := Digits(n);
    ValueOfDigits(n, if |digits| < width then width - |digits| else 0);
  }

  lemma TwoDigits(n: nat)
    requires n < 100
    ensures |Padded(n, 2)| == 2
  {
    if n >= 10 {
      assert n / 10 < 10 && Digits(n / 10) == [Digit(n / 10)];
    }
  }

  predicate AreDigits(s: string) {
    forall i :: 0 <= i < |s| ==> '0' <= s[i] <= '9'
  }

  lemma {:induction false} DigitsAreDigits(n: nat)
    ensures AreDigits(Digits(n))
  {
    if n >= 10 {
      DigitsAreDigits(n / 10);
    }
  }

  lemma {:induction false} ZerosAreDigits(n: nat)
    ensures AreDigits(Zeros(n))
  {
    if n > 0 {
      ZerosAreDigits(n - 1);
    }
  }

  lemma PaddedAreDigits(n: nat, width: nat)
    ensures AreDigits(Padded(n, width))
  {
    DigitsAreDigits(n);
    ZerosAreDigits(if |Digits(n)| < width then width - |Digits(n)| else 0);
  }

  /** Four or more digits, two and two, with hyphens between. */
  predicate IsDateText(text: string) {
    var k := |text|;
    && k >= 10 && text[k - 6] == text[k - 3] == '-'
    && AreDigits(text[..k - 6]) && AreDigits(text[k - 5..k - 3]) && AreDigits(text[k - 2..])
  }

  function SpelledDate(text: string): Date
    requires IsDateText(text)
  {
    var k := |text|;
    Date(Value(text[..k - 6]), Value(text[k - 5..k - 3]), Value(text[k - 2..]))
  }

  lemma SpelledNumber(n: nat, width: nat)
    ensures AreDigits(Padded(n, width)) && Value(Padded(n, width)) == n
  {
    PaddedAreDigits(n, width);
    ValueOfPadded(n, width);
  }

  /** The text of a date reads as year, month and day of that date. */
  lemma DateIsSpelled(date: Date)
    requires IsValid(date) && date.year >= 0
    ensures IsDateText(DateText(date)) && SpelledDate(DateText(date)) == date
  {
    hide Padded, Value, AreDigits;
    TwoDigits(date.month);
    TwoDigits(date.day);
    var text, k := DateText(date), |DateText(date)|;
    assert text[..k - 6] == Padded(date.year, 4) && text[k - 5..k - 3] == Padded(date.month, 2);
    assert text[k - 2..] == Padded(date.day, 2);
    SpelledNumber(date.year, 4);
    SpelledNumber(date.month, 2);
    SpelledNumber(date.day, 2);
  }

  /**
   * A log file's name reads `dbgflow-`, the date of the timestamp's UTC day, `.jsonl`, with the date as year, month
   * and day.
   */
  lemma NameSpellsTheDay(ms: int)
    requires IsTimestamp(ms)
    ensures var name := LogFileName(ms);
      && |name| > 14 && name[..8] == "dbgflow-" && name[|name| - 6..] == ".jsonl"
      && var text := name[8..|name| - 6];
      IsDateText(text) && IsValid(SpelledDate(text)) && DayNumber(SpelledDate(text)) == ms / MS_PER_DAY
  {
    var days := ms / 1000 / 86_400;
    DaysOf(ms);
    TimestampYearFits(ms);
    CivilInvertsDayNumber(days);
    var date := Civil(days);
    DateIsSpelled(date);
    hide Civil, SpelledDate, IsDateText, DateText, DayNumber;
    var name := LogFileName(ms);
    assert name == "dbgflow-" + DateText(date) + ".jsonl";
    assert name[8..|name| - 6] == DateText(date);
  }

  /** Two timestamps go to the same log file if and only if they lie in the same UTC day. */
  lemma SameFileSameDay(a: int, b: int)
    requires IsTimestamp(a) && IsTimestamp(b)
    ensures LogFileName(a) == LogFileName(b) <==> a / MS_PER_DAY == b / MS_PER_DAY
  {
    var x, y := a / 1000 / 86_400, b / 1000 / 86_400;
    DaysOf(a);
    DaysOf(b);
    TimestampYearFits(a);
    TimestampYearFits(b);
    hide Civil, DateText;
    CivilInvertsDayNumber(x);
    CivilInvertsDayNumber(y);
    if LogFileName(a) == LogFileName(b) {
      var n := |LogFileName(a)|;
      assert DateText(Civil(x)) == LogFileName(a)[8..n - 6] == DateText(Civil(y));
      DateIsSpelled(Civil(x));
      DateIsSpelled(Civil(y));
    }
  }

  lemma DaysOf(ms: int)
    requires IsTimestamp(ms)
    ensures ms / 1000 / 86_400 == ms / MS_PER_DAY
  {
    Quotient(ms, MS_PER_DAY, ms / 1000 / 86_400);
  }
}
