/** Gregorian dates of the timestamps (src/storage.rs timestamp_from_unix,
    src/functions.rs chrono_timestamp, src/pubsub.rs timestamp_rfc3339). Each file
    has its own copy of the conversion. */
module Calendar {

  datatype Date = Date(year: int, month: int, day: int)

  // ----- The conversion of the source --------------------------------------

  /** Division that rounds toward zero. */
  function TruncatingDiv(a: int, b: int): int
    requires b > 0
  {
    if a >= 0 then a / b else -(-a / b)
  }

  const ERA: int := 146097
  const SHIFT: int := 719468

  function YearOfEra(doe: int): int {
    (doe - doe / 1460 + doe / 36524 - doe / 146096) / 365
  }

  function EraOf(z: int): int {
    TruncatingDiv(if z >= 0 then z else z - 146096, ERA)
  }

  function MonthPrime(doy: int): int {
    (5 * doy + 2) / 153
  }

  function CivilFromDays(days: int): Date {
    var z := days + SHIFT;
    var era := EraOf(z);
    var doe := z - era * ERA;
    var yoe := YearOfEra(doe);
    var doy := doe - (365 * yoe + yoe / 4 - yoe / 100);
    var mp := MonthPrime(doy);
    var day := doy - (153 * mp + 2) / 5 + 1;
    var month := mp + if mp < 10 then 3 else -9;
    Date(yoe + era * 400 + (if month <= 2 then 1 else 0), month, day)
  }

  /** The copy in src/functions.rs. */
  function FunctionsCivil(days: int): Date {
    var z := days + 719468;
    var era := TruncatingDiv(if z >= 0 then z else z - 146096, 146097);
    FunctionsDate(era, z - era * 146097)
  }

  function FunctionsDate(era: int, doe: int): Date {
    var yoe := (doe - doe / 1460 + doe / 36524 - doe / 146096) / 365;
    FunctionsDay(era, yoe, doe - (365 * yoe + yoe / 4 - yoe / 100))
  }

  function FunctionsDay(era: int, yoe: int, doy: int): Date {
    var mp := (5 * doy + 2) / 153;
    var month := mp + if mp < 10 then 3 else -9;
    Date(yoe + era * 400 + (if month <= 2 then 1 else 0), month, doy - (153 * mp + 2) / 5 + 1)
  }

  /** The copy in src/pubsub.rs. */
  function PubSubCivil(days: int): Date {
    var z := days + 719468;
    var era := TruncatingDiv(if z >= 0 then z else z - 146096, 146097);
    PubSubDate(era, z - era * 146097)
  }

  function PubSubDate(era: int, doe: int): Date {
    var yoe := (doe - doe / 1460 + doe / 36524 - doe / 146096) / 365;
    PubSubDay(era, yoe, doe - (365 * yoe + yoe / 4 - yoe / 100))
  }

  function PubSubDay(era: int, yoe: int, doy: int): Date {
    var mp := (5 * doy + 2) / 153;
    var month := mp + if mp < 10 then 3 else -9;
    Date(yoe + era * 400 + (if month <= 2 then 1 else 0), month, doy - (153 * mp + 2) / 5 + 1)
  }

  lemma FunctionsDayCopy(era: int, yoe: int, doy: int)
    ensures FunctionsDay(era, yoe, doy) == DateOf(era, yoe, doy, MonthPrime(doy))
  {
  }

  lemma FunctionsDateCopy(days: int, era: int, doe: int)
    requires era == EraOf(days + SHIFT) && doe == days + SHIFT - era * ERA
    ensures FunctionsDate(era, doe) == CivilFromDays(days)
  {
    hide EraOf, MonthPrime, FunctionsDay;
    var yoe := YearOfEra(doe);
    FunctionsDayCopy(era, yoe, doe - (365 * yoe + yoe / 4 - yoe / 100));
  }

  lemma FunctionsCopy(days: int)
    ensures FunctionsCivil(days) == CivilFromDays(days)
  {
    hide TruncatingDiv, CivilFromDays, FunctionsDate;
    var era := EraOf(days + SHIFT);
    FunctionsDateCopy(days, era, days + SHIFT - era * ERA);
  }

  lemma PubSubDayCopy(era: int, yoe: int, doy: int)
    ensures PubSubDay(era, yoe, doy) == DateOf(era, yoe, doy, MonthPrime(doy))
  {
  }

  lemma PubSubDateCopy(days: int, era: int, doe: int)
    requires era == EraOf(days + SHIFT) && doe == days + SHIFT - era * ERA
    ensures PubSubDate(era, doe) == CivilFromDays(days)
  {
    hide EraOf, MonthPrime, PubSubDay;
    var yoe := YearOfEra(doe);
    PubSubDayCopy(era, yoe, doe - (365 * yoe + yoe / 4 - yoe / 100));
  }

  lemma PubSubCopy(days: int)
    ensures PubSubCivil(days) == CivilFromDays(days)
  {
    hide TruncatingDiv, CivilFromDays, PubSubDate;
    var era := EraOf(days + SHIFT);
    PubSubDateCopy(days, era, days + SHIFT - era * ERA);
  }

  // ----- The calendar itself -----------------------------------------------

  predicate IsLeap(year: int) {
    year % 4 == 0 && (year % 100 != 0 || year % 400 == 0)
  }

  function LeapDay(year: int): int {
    if IsLeap(year) then 1 else 0
  }

  function DaysInMonth(year: int, month: int): int {
    match month
    case 2 => 28 + LeapDay(year)
    case 4 => 30
    case 6 => 30
    case 9 => 30
    case 11 => 30
    case _ => 31
  }

  predicate Valid(d: Date) {
    1 <= d.month <= 12 && 1 <= d.day <= DaysInMonth(d.year, d.month)
  }

  /** Days of a year before a month, month by month. */
  function BeforeMonth(year: int, month: int): int
    decreases month
  {
    if month <= 1 then 0 else BeforeMonth(year, month - 1) + DaysInMonth(year, month - 1)
  }

  /** Days before a year, counted from year one: 365 a year and the leap days. */
  function BeforeYear(year: int): int {
    var p := year - 1;
    365 * p + p / 4 - p / 100 + p / 400
  }

  const EPOCH: int := 719162

  function DaysFromCivil(d: Date): int {
    BeforeYear(d.year) + BeforeMonth(d.year, d.month) + d.day - 1 - EPOCH
  }

  /** The count of days before a year steps by the length of each year, and the
      count of days starts on the first of January 1970. */
  lemma YearsStep(year: int)
    ensures BeforeYear(year + 1) == BeforeYear(year) + 365 + LeapDay(year)
    ensures DaysFromCivil(Date(1970, 1, 1)) == 0
  {
    FourHundred(year);
  }

  lemma FourHundred(year: int)
    ensures year / 4 - (year - 1) / 4 == if year % 4 == 0 then 1 else 0
    ensures year / 100 - (year - 1) / 100 == if year % 100 == 0 then 1 else 0
    ensures year / 400 - (year - 1) / 400 == if year % 400 == 0 then 1 else 0
    ensures year % 400 == 0 ==> year % 100 == 0
    ensures year % 100 == 0 ==> year % 4 == 0
  {
  }

  lemma MonthTable(year: int, month: int)
    requires 1 <= month <= 13
    ensures BeforeMonth(year, month) ==
              (match month
               case 1 => 0
               case 2 => 31
               case 3 => 59
               case 4 => 90
               case 5 => 120
               case 6 => 151
               case 7 => 181
               case 8 => 212
               case 9 => 243
               case 10 => 273
               case 11 => 304
               case 12 => 334
               case _ => 365) + (if month > 2 then LeapDay(year) else 0)
  {
    hide IsLeap;
    if month > 1 { MonthTable(year, month - 1); }
  }

  // ----- The year within an era --------------------------------------------

  /** Day doe of an era as century, four-year cycle, year and day, where years
      start in March so that a leap day comes last. */
  predicate Parts(doe: int, c: int, q: int, r: int, doy: int) {
    && 0 <= c <= 3 && 0 <= q <= 24 && 0 <= r <= 3 && 0 <= doy <= 365
    && (doy == 365 ==> r == 3 && (q == 24 ==> c == 3))
    && doe == 36524 * c + 1461 * q + 365 * r + doy
  }

  lemma PartsExist(doe: int) returns (c: int, q: int, r: int, doy: int)
    requires 0 <= doe < ERA
    ensures Parts(doe, c, q, r, doy)
  {
    c := if doe / 36524 > 3 then 3 else doe / 36524;
    var e := doe - 36524 * c;
    q := if e / 1461 > 24 then 24 else e / 1461;
    var f := e - 1461 * q;
    r := if f / 365 > 3 then 3 else f / 365;
    doy := f - 365 * r;
  }

  lemma YearOfEraExact(doe: int, c: int, q: int, r: int, doy: int)
    requires Parts(doe, c, q, r, doy)
    ensures YearOfEra(doe) == 100 * c + 4 * q + r
  {
    var k := if 24 * c + q + 365 * r + doy >= 1460 then 1 else 0;
    assert doe == 1460 * (25 * c + q + k) + (24 * c + q + 365 * r + doy - 1460 * k);
    assert doe / 1460 == 25 * c + q + k;
    assert doe / 36524 - doe / 146096 == c;
    assert doe - doe / 1460 + c == 365 * (100 * c + 4 * q + r) + (doy - k);
  }

  lemma DayOfYearExact(c: int, q: int, r: int)
    requires 0 <= c <= 3 && 0 <= q <= 24 && 0 <= r <= 3
    ensures var y := 100 * c + 4 * q + r;
            365 * y + y / 4 - y / 100 == 36524 * c + 1461 * q + 365 * r && 0 <= y < 400
  {
    var y := 100 * c + 4 * q + r;
    assert y / 4 == 25 * c + q;
    assert y / 100 == c;
  }

  lemma EraExact(z: int)
    ensures var doe := z - EraOf(z) * ERA; 0 <= doe < ERA
  {
  }

  // ----- Month and day -----------------------------------------------------

  lemma MonthDay(doy: int)
    requires 0 <= doy <= 365
    ensures var mp := MonthPrime(doy);
            var day := doy - (153 * mp + 2) / 5 + 1;
            && 0 <= mp <= 11 && 1 <= day
            && (mp == 11 ==> day <= 29 && (doy <= 364 ==> day <= 28))
            && (mp in {1, 3, 6, 8} ==> day <= 30) && day <= 31
            && (153 * mp + 2) / 5 == match mp
                                     case 0 => 0
                                     case 1 => 31
                                     case 2 => 61
                                     case 3 => 92
                                     case 4 => 122
                                     case 5 => 153
                                     case 6 => 184
                                     case 7 => 214
                                     case 8 => 245
                                     case 9 => 275
                                     case 10 => 306
                                     case _ => 337
  {
  }

  lemma YearStart(era: int, y: int)
    requires 0 <= y < 400
    ensures BeforeYear(y + era * 400 + 1) == era * ERA + 365 * y + y / 4 - y / 100
  {
    var p := y + era * 400;
    assert p / 4 == y / 4 + 100 * era;
    assert p / 100 == y / 100 + 4 * era;
    assert p / 400 == era;
  }

  lemma LeapEnd(era: int, c: int, q: int, r: int)
    requires 0 <= c <= 3 && 0 <= q <= 24 && r == 3 && (q == 24 ==> c == 3)
    ensures IsLeap(100 * c + 4 * q + r + era * 400 + 1)
  {
    var n := 100 * c + 4 * q + 4;
    var year := n + era * 400;
    assert year % 4 == 0;
    assert year % 100 == (4 * q + 4) % 100;
    if q == 24 { assert year == 400 * (era + 1); }
  }

  /** The era, the March-based year and its day that the source arrives at. */
  lemma SplitDays(days: int) returns (era: int, y: int, doy: int)
    ensures 0 <= y < 400 && 0 <= doy <= 365
    ensures days + SHIFT == era * ERA + 365 * y + y / 4 - y / 100 + doy
    ensures doy == 365 ==> IsLeap(y + era * 400 + 1)
    ensures era == EraOf(days + SHIFT) && y == YearOfEra(days + SHIFT - era * ERA)
  {
    var z := days + SHIFT;
    era := EraOf(z);
    EraExact(z);
    hide EraOf;
    var c, q, r, d := PartsExist(z - era * ERA);
    YearOfEraExact(z - era * ERA, c, q, r, d);
    DayOfYearExact(c, q, r);
    hide YearOfEra;
    y, doy := 100 * c + 4 * q + r, d;
    if doy == 365 { LeapEnd(era, c, q, r); }
  }

  /** Converting a day count gives a valid date, leap days included, and counting
      the days to that date gives the count back. */
  lemma CivilExact(days: int)
    ensures Valid(CivilFromDays(days)) && DaysFromCivil(CivilFromDays(days)) == days
  {
    var era, y, doy := SplitDays(days);
    hide EraOf, YearOfEra, IsLeap, BeforeYear, BeforeMonth, MonthPrime, Valid, DaysFromCivil, CivilFromDays, DateOf;
    DateInYear(era, y, doy, MonthPrime(doy), days);
    CivilIsDate(days, era, y, doy);
  }

  lemma CivilIsDate(days: int, era: int, y: int, doy: int)
    requires era == EraOf(days + SHIFT) && y == YearOfEra(days + SHIFT - era * ERA)
    requires days + SHIFT == era * ERA + 365 * y + y / 4 - y / 100 + doy
    ensures CivilFromDays(days) == DateOf(era, y, doy, MonthPrime(doy))
  {
    hide EraOf, YearOfEra, MonthPrime;
  }

  function DateOf(era: int, y: int, doy: int, mp: int): Date {
    var month := mp + if mp < 10 then 3 else -9;
    Date(y + era * 400 + (if month <= 2 then 1 else 0), month, doy - (153 * mp + 2) / 5 + 1)
  }

  lemma DateInYear(era: int, y: int, doy: int, mp: int, days: int)
    requires 0 <= doy <= 365 && mp == MonthPrime(doy) && 0 <= y < 400
    requires doy == 365 ==> IsLeap(y + era * 400 + 1)
    requires days + SHIFT == era * ERA + 365 * y + y / 4 - y / 100 + doy
    ensures Valid(DateOf(era, y, doy, mp)) && DaysFromCivil(DateOf(era, y, doy, mp)) == days
  {
    hide BeforeYear, BeforeMonth, IsLeap;
    DateValid(era, y, doy, mp);
    DateCounts(era, y, doy, mp, days);
    hide DateOf, Valid, DaysFromCivil;
  }

  lemma DateValid(era: int, y: int, doy: int, mp: int)
    requires 0 <= doy <= 365 && mp == MonthPrime(doy)
    requires doy == 365 ==> IsLeap(y + era * 400 + 1)
    ensures Valid(DateOf(era, y, doy, mp))
  {
    MonthDay(doy);
    hide IsLeap, MonthPrime;
  }

  lemma DateCounts(era: int, y: int, doy: int, mp: int, days: int)
    requires 0 <= doy <= 365 && mp == MonthPrime(doy) && 0 <= y < 400
    requires days + SHIFT == era * ERA + 365 * y + y / 4 - y / 100 + doy
    ensures DaysFromCivil(DateOf(era, y, doy, mp)) == days
  {
    hide IsLeap, BeforeYear, BeforeMonth, MonthPrime;
    MonthDay(doy);
    YearStart(era, y);
    YearsStep(y + era * 400);
    var date := DateOf(era, y, doy, mp);
    MonthTable(date.year, date.month);
  }

  // ----- The other direction -----------------------------------------------

  predicate Earlier(a: Date, b: Date) {
    a.year < b.year || (a.year == b.year && (a.month < b.month || (a.month == b.month && a.day < b.day)))
  }

  lemma {:induction false} YearsApart(a: int, b: int)
    requires a < b
    ensures BeforeYear(a + 1) <= BeforeYear(b)
    decreases b - a
  {
    hide BeforeYear, IsLeap;
    if a + 1 < b {
      YearsApart(a, b - 1);
      YearsStep(b - 1);
    }
  }

  lemma {:induction false} MonthsApart(year: int, a: int, b: int)
    requires 1 <= a < b <= 13
    ensures BeforeMonth(year, a) + DaysInMonth(year, a) <= BeforeMonth(year, b)
    decreases b
  {
    hide IsLeap;
    if a + 1 < b { MonthsApart(year, a, b - 1); }
  }

  /** Counting days respects the order of dates. */
  lemma DaysMonotone(a: Date, b: Date)
    requires Valid(a) && Valid(b) && Earlier(a, b)
    ensures DaysFromCivil(a) < DaysFromCivil(b)
  {
    if a.year < b.year {
      YearsApart(a.year, b.year);
      YearsStep(a.year);
      MonthsApart(a.year, a.month, 13);
      MonthTable(a.year, 13);
      MonthTable(b.year, b.month);
    } else if a.month < b.month {
      MonthsApart(a.year, a.month, b.month);
    }
    hide BeforeYear, BeforeMonth, IsLeap;
  }

  /** Every valid date is the conversion of its own day count. */
  lemma CivilInverts(d: Date)
    requires Valid(d)
    ensures CivilFromDays(DaysFromCivil(d)) == d
  {
    var e := CivilFromDays(DaysFromCivil(d));
    CivilExact(DaysFromCivil(d));
    hide CivilFromDays, DaysFromCivil, DaysInMonth;
    if e != d {
      if Earlier(e, d) { DaysMonotone(e, d); } else { DaysMonotone(d, e); }
    }
  }

  // ----- Timestamps --------------------------------------------------------

  datatype Stamp = Stamp(date: Date, hour: int, minute: int, second: int, millis: int)

  /** Storage: Euclidean split of the seconds, whole seconds only. */
  function StorageStamp(seconds: int): Stamp {
    var rest := seconds % 86400;
    Stamp(CivilFromDays(seconds / 86400), rest / 3600, rest % 3600 / 60, rest % 60, 0)
  }

  /** Functions: the same split with the file's own conversion. */
  function FunctionsStamp(seconds: int): Stamp {
    var rest := seconds % 86400;
    Stamp(FunctionsCivil(seconds / 86400), rest / 3600, rest % 3600 / 60, rest % 60, 0)
  }

  /** Pub/Sub: negative parts count as zero, and milliseconds are kept. */
  function PubSubStamp(seconds: int, nanos: int): Stamp {
    var s, n := if seconds > 0 then seconds else 0, if nanos > 0 then nanos else 0;
    Stamp(PubSubCivil(s / 86400), s % 86400 / 3600, s % 86400 % 3600 / 60, s % 86400 % 60, n / 1_000_000)
  }

  predicate ValidStamp(t: Stamp) {
    Valid(t.date) && 0 <= t.hour < 24 && 0 <= t.minute < 60 && 0 <= t.second < 60 && 0 <= t.millis < 1000
  }

  function SecondsOf(t: Stamp): int {
    86400 * DaysFromCivil(t.date) + 3600 * t.hour + 60 * t.minute + t.second
  }

  lemma TimeOfDay(rest: int)
    requires 0 <= rest < 86400
    ensures 3600 * (rest / 3600) + 60 * (rest % 3600 / 60) + rest % 60 == rest
    ensures 0 <= rest / 3600 < 24 && 0 <= rest % 3600 / 60 < 60
  {
    assert rest == 3600 * (rest / 3600) + rest % 3600;
    var hour := rest % 3600;
    assert hour % 60 == rest % 60;
  }

  /** A timestamp has the field ranges of section 5.7 of RFC 3339 (a second is never
      60) and stands for exactly the seconds it was made from. */
  lemma StampExact(seconds: int)
    ensures ValidStamp(StorageStamp(seconds)) && SecondsOf(StorageStamp(seconds)) == seconds
  {
    CivilExact(seconds / 86400);
    TimeOfDay(seconds % 86400);
    hide CivilFromDays, DaysFromCivil, Valid;
  }

  /** The three copies agree on non-negative times, storage and functions on all;
      Pub/Sub adds the milliseconds. */
  lemma CopiesAgree(seconds: int, nanos: int)
    requires 0 <= nanos < 1_000_000_000
    ensures FunctionsStamp(seconds) == StorageStamp(seconds)
    ensures seconds >= 0 ==> PubSubStamp(seconds, nanos) == StorageStamp(seconds).(millis := nanos / 1_000_000)
    ensures ValidStamp(PubSubStamp(seconds, nanos))
  {
    hide CivilFromDays, FunctionsCivil, PubSubCivil, Valid, StorageStamp, FunctionsStamp, PubSubStamp, SecondsOf,
      ValidStamp;
    FunctionsAgrees(seconds);
    PubSubAgrees(seconds, nanos);
    StampExact(if seconds > 0 then seconds else 0);
    PubSubValid(if seconds > 0 then seconds else 0, seconds, nanos);
  }

  lemma FunctionsAgrees(seconds: int)
    ensures FunctionsStamp(seconds) == StorageStamp(seconds)
  {
    hide CivilFromDays, FunctionsCivil;
    FunctionsCopy(seconds / 86400);
  }

  lemma PubSubAgrees(seconds: int, nanos: int)
    ensures var s, n := if seconds > 0 then seconds else 0, if nanos > 0 then nanos else 0;
            PubSubStamp(seconds, nanos) == StorageStamp(s).(millis := n / 1_000_000)
  {
    hide CivilFromDays, PubSubCivil;
    PubSubCopy((if seconds > 0 then seconds else 0) / 86400);
  }

  lemma PubSubValid(s: int, seconds: int, nanos: int)
    requires 0 <= nanos < 1_000_000_000 && ValidStamp(StorageStamp(s))
    requires PubSubStamp(seconds, nanos) == StorageStamp(s).(millis := nanos / 1_000_000)
    ensures ValidStamp(PubSubStamp(seconds, nanos))
  {
    hide StorageStamp, PubSubStamp, Valid;
  }

  /** Before the epoch they differ: Pub/Sub stays in the first second of 1970. */
  lemma BeforeEpoch(seconds: int, nanos: int)
    requires seconds < 0
    ensures PubSubStamp(seconds, nanos)
         == Stamp(Date(1970, 1, 1), 0, 0, 0, (if nanos > 0 then nanos else 0) / 1_000_000)
    ensures SecondsOf(PubSubStamp(seconds, nanos)) == 0 > SecondsOf(StorageStamp(seconds))
    ensures PubSubStamp(seconds, nanos) != StorageStamp(seconds)
  {
    StampExact(seconds);
    FirstSecond(seconds, nanos);
    FirstDay();
    hide CivilFromDays, DaysFromCivil, StorageStamp, PubSubStamp;
  }

  lemma FirstDay()
    ensures DaysFromCivil(Date(1970, 1, 1)) == 0 && CivilFromDays(0) == Date(1970, 1, 1)
  {
    YearsStep(1970);
    CivilInverts(Date(1970, 1, 1));
    hide CivilFromDays, DaysFromCivil;
  }

  lemma FirstSecond(seconds: int, nanos: int)
    requires seconds < 0
    ensures PubSubStamp(seconds, nanos)
         == Stamp(Date(1970, 1, 1), 0, 0, 0, (if nanos > 0 then nanos else 0) / 1_000_000)
  {
    hide CivilFromDays, DaysFromCivil, PubSubStamp;
    PubSubAgrees(seconds, nanos);
    FirstDay();
  }

  predicate StampEarlier(a: Stamp, b: Stamp) {
    || Earlier(a.date, b.date)
    || (a.date == b.date && 3600 * a.hour + 60 * a.minute + a.second < 3600 * b.hour + 60 * b.minute + b.second)
  }

  /** Later times have later timestamps, field by field from the year down. */
  lemma StampMonotone(a: int, b: int)
    requires a < b
    ensures StampEarlier(StorageStamp(a), StorageStamp(b))
  {
    var x, y := StorageStamp(a), StorageStamp(b);
    StampExact(a);
    StampExact(b);
    if Earlier(y.date, x.date) { DaysMonotone(y.date, x.date); }
    hide CivilFromDays, DaysFromCivil, DaysInMonth, StorageStamp;
  }
}
