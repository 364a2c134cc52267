/** Calendar arithmetic and EXIF time stamps (`burst.rs`). */
module Calendar {
  import opened Machine
  import opened Wrappers

  // ---- The proleptic Gregorian calendar, as a reader knows it ----

  datatype Date = Date(year: int, month: int, day: int)

  predicate IsLeap(year: int) {
    year % 4 == 0 && (year % 100 != 0 || year % 400 == 0)
  }

  function DaysInMonth(year: int, month: int): int {
    if month == 2 then if IsLeap(year) then 29 else 28
    else if month == 4 || month == 6 || month == 9 || month == 11 then 30
    else 31
  }

  predicate ValidDate(date: Date) {
    1 <= date.month <= 12 && 1 <= date.day <= DaysInMonth(date.year, date.month)
  }

  function NextDay(date: Date): Date {
    if date.day < DaysInMonth(date.year, date.month) then Date(date.year, date.month, date.day + 1)
    else if date.month < 12 then Date(date.year, date.month + 1, 1)
    else Date(date.year + 1, 1, 1)
  }

  predicate Before(a: Date, b: Date) {
    a.year < b.year || (a.year == b.year && (a.month < b.month || (a.month == b.month && a.day < b.day)))
  }

  // ---- The source's algorithm ----

  function DaysFromCivil(year: int, month: int, day: int): int {
    var y := if month <= 2 then year - 1 else year;
    var era := TruncatingDiv(if y >= 0 then y else y - 399, 400);
    var yearOfEra := y - era * 400;
    var dayOfYear := TruncatingDiv(153 * (if month > 2 then month - 3 else month + 9) + 2, 5) + day - 1;
    var dayOfEra := yearOfEra * 365 + TruncatingDiv(yearOfEra, 4) - TruncatingDiv(yearOfEra, 100) + dayOfYear;
    era * 146_097 + dayOfEra - 719_468
  }

  // ---- What it computes ----

  /** Days from the common-era origin to the first of March of `year`, with flooring division. */
  function MarchDays(year: int): int {
    365 * year + year / 4 - year / 100 + year / 400
  }

  /** Days from the first of March to the first of `month`. */
  function MonthOffset(month: int): int {
    (153 * (if month > 2 then month - 3 else month + 9) + 2) / 5
  }

  lemma EraFloors(y: int)
    ensures TruncatingDiv(if y >= 0 then y else y - 399, 400) == y / 400
    ensures 0 <= y - (y / 400) * 400 < 400
  {
  }

  /** The era decomposition is the plain leap-year count. */
  lemma DaysFromMarch(year: int, month: int, day: int)
    requires 1 <= month <= 12
    ensures var y := if month <= 2 then year - 1 else year;
      DaysFromCivil(year, month, day) == MarchDays(y) + MonthOffset(month) + day - 1 - 719_468
  {
    var y := if month <= 2 then year - 1 else year;
    EraFloors(y);
    var era, r := y / 400, y - (y / 400) * 400;
    assert y / 4 == era * 100 + r / 4;
    assert y / 100 == era * 4 + r / 100;
  }

  lemma EpochIsZero()
    ensures DaysFromCivil(1970, 1, 1) == 0
  {
  }

  lemma FloorStep(year: int, n: int)
    requires n == 4 || n == 100 || n == 400
    ensures year / n - (year - 1) / n == if year % n == 0 then 1 else 0
  {
  }

  lemma CenturiesAreMultiplesOfFour(year: int)
    ensures year % 400 == 0 ==> year % 100 == 0
    ensures year % 100 == 0 ==> year % 4 == 0
  {
  }

  /** A year has 366 days exactly when it is leap. */
  lemma LeapDay(year: int)
    ensures MarchDays(year) - MarchDays(year - 1) == if IsLeap(year) then 366 else 365
  {
    FloorStep(year, 4);
    FloorStep(year, 100);
    FloorStep(year, 400);
    CenturiesAreMultiplesOfFour(year);
  }

  lemma MonthLength(year: int, month: int)
    requires 1 <= month <= 12 && month != 2
    ensures MonthOffset(if month == 12 then 1 else month + 1) - MonthOffset(month) == DaysInMonth(year, month)
  {
  }

  /** Month ends, leap days and century rules included, the next day counts one more. */
  lemma NextDayCountsOne(date: Date)
    requires ValidDate(date)
    ensures ValidDate(NextDay(date))
    ensures var next := NextDay(date);
      DaysFromCivil(next.year, next.month, next.day) == DaysFromCivil(date.year, date.month, date.day) + 1
  {
    if date.day < DaysInMonth(date.year, date.month) {
      DaysFromMarch(date.year, date.month, date.day);
      DaysFromMarch(date.year, date.month, date.day + 1);
    } else {
      MonthEndCountsOne(date.year, date.month);
    }
  }

  lemma MonthEndCountsOne(year: int, month: int)
    requires 1 <= month <= 12
    ensures var next := if month == 12 then Date(year + 1, 1, 1) else Date(year, month + 1, 1);
      DaysFromCivil(next.year, next.month, next.day) == DaysFromCivil(year, month, DaysInMonth(year, month)) + 1
  {
    DaysFromMarch(year, month, DaysInMonth(year, month));
    if month == 12 {
      DaysFromMarch(year + 1, 1, 1);
    } else {
      DaysFromMarch(year, month + 1, 1);
    }
    if month == 2 {
      LeapDay(year);
    } else {
      MonthLength(year, month);
    }
  }

  function DayNumber(date: Date): int {
    DaysFromCivil(date.year, date.month, date.day)
  }

  // ---- Order ----

  lemma MonthStarts(year: int, month: int, day: int)
    requires ValidDate(Date(year, month, day))
    ensures DayNumber(Date(year, month, day)) == DayNumber(Date(year, month, 1)) + day - 1
    ensures month < 12 ==> DayNumber(Date(year, month + 1, 1)) == DayNumber(Date(year, month, 1)) + DaysInMonth(year, month)
    ensures month == 12 ==> DayNumber(Date(year + 1, 1, 1)) == DayNumber(Date(year, month, 1)) + 31
  {
    var last := Date(year, month, DaysInMonth(year, month));
    DaysFromMarch(year, month, day);
    DaysFromMarch(year, month, 1);
    DaysFromMarch(year, month, last.day);
    NextDayCountsOne(last);
  }

  /** Every date lies below any later date: within its month, its year, and across years. */
  lemma {:induction false} LaterDatesCountMore(a: Date, b: Date)
    requires ValidDate(a) && ValidDate(b) && Before(a, b)
    ensures DayNumber(a) < DayNumber(b)
    decreases b.year - a.year, if a.year == b.year then b.month - a.month else 12 - a.month
  {
    MonthStarts(a.year, a.month, a.day);
    MonthStarts(b.year, b.month, b.day);
    if a.year < b.year || a.month < b.month {
      var next := if a.month == 12 then Date(a.year + 1, 1, 1) else Date(a.year, a.month + 1, 1);
      assert DayNumber(a) < DayNumber(next);
      if next != b && Before(next, b) {
        LaterDatesCountMore(next, b);
      }
    }
  }

  /** The day number determines the date. */
  lemma DayNumbersAreUnique(a: Date, b: Date)
    requires ValidDate(a) && ValidDate(b)
    ensures DayNumber(a) == DayNumber(b) <==> a == b
    ensures DayNumber(a) < DayNumber(b) <==> Before(a, b)
  {
    if Before(a, b) {
      LaterDatesCountMore(a, b);
    } else if Before(b, a) {
      LaterDatesCountMore(b, a);
    }
  }

  // ---- Time stamps ----

  datatype Stamp = Stamp(date: Date, hour: int, minute: int, second: int)

  predicate ValidStamp(stamp: Stamp) {
    ValidDate(stamp.date) && 0 <= stamp.hour < 24 && 0 <= stamp.minute < 60 && 0 <= stamp.second < 60
  }

  function NextSecond(stamp: Stamp): Stamp {
    if stamp.second < 59 then stamp.(second := stamp.second + 1)
    else if stamp.minute < 59 then stamp.(minute := stamp.minute + 1, second := 0)
    else if stamp.hour < 23 then stamp.(hour := stamp.hour + 1, minute := 0, second := 0)
    else Stamp(NextDay(stamp.date), 0, 0, 0)
  }

  function EpochSeconds(stamp: Stamp): int {
    DayNumber(stamp.date) * 86_400 + stamp.hour * 3_600 + stamp.minute * 60 + stamp.second
  }

  /** A second passes, across midnight and month ends alike. */
  lemma NextSecondCountsOne(stamp: Stamp)
    requires ValidStamp(stamp)
    ensures ValidStamp(NextSecond(stamp)) && EpochSeconds(NextSecond(stamp)) == EpochSeconds(stamp) + 1
  {
    NextDayCountsOne(stamp.date);
  }

  lemma EpochSecondsAreUnique(a: Stamp, b: Stamp)
    requires ValidStamp(a) && ValidStamp(b) && EpochSeconds(a) == EpochSeconds(b)
    ensures a == b
  {
    DayNumbersAreUnique(a.date, b.date);
    SecondsOfTheDay(a);
    SecondsOfTheDay(b);
    var x, y := EpochSeconds(a) - DayNumber(a.date) * 86_400, EpochSeconds(b) - DayNumber(b.date) * 86_400;
    assert DayNumber(a.date) == DayNumber(b.date);
  }

  lemma SecondsOfTheDay(stamp: Stamp)
    requires ValidStamp(stamp)
    ensures 0 <= EpochSeconds(stamp) - DayNumber(stamp.date) * 86_400 < 86_400
  {
  }

  /** The stamp `n` seconds after `stamp`. */
  function After(stamp: Stamp, n: nat): Stamp {
    if n == 0 then stamp else NextSecond(After(stamp, n - 1))
  }

  lemma {:induction false} AfterCounts(stamp: Stamp, n: nat)
    requires ValidStamp(stamp)
    ensures ValidStamp(After(stamp, n)) && EpochSeconds(After(stamp, n)) == EpochSeconds(stamp) + n
  {
    if n > 0 {
      AfterCounts(stamp, n - 1);
      NextSecondCountsOne(After(stamp, n - 1));
    }
  }

  // ---- Parsing ----

  /** The value of a list of ASCII digits. */
  function Digits(s: seq<Byte>): Option<nat> {
    if s == [] then Some(0)
    else
      var rest, last := Digits(s[..|s| - 1]), s[|s| - 1];
      if rest.Some? && 48 <= last <= 57 then Some(rest.value * 10 + (last - 48)) else None
  }

  /** `str::parse::<i64>`: an optional sign and at least one digit. The fields are too short to overflow. */
  function ParseInteger(s: seq<Byte>): Option<int> {
    if s == [] then None
    else if s[0] == 43 || s[0] == 45 then
      if |s| == 1 || Digits(s[1..]).None? then None
      else
        var magnitude: int := Digits(s[1..]).value;
        Some(if s[0] == 45 then -magnitude else magnitude)
    else if Digits(s).None? then None
    else Some(Digits(s).value)
  }

  function ParseExifSeconds(bytes: seq<Byte>): Option<int> {
    if |bytes| < 19 then None
    else
      var year, month, day := ParseInteger(bytes[0..4]), ParseInteger(bytes[5..7]), ParseInteger(bytes[8..10]);
      var hour, minute, second := ParseInteger(bytes[11..13]), ParseInteger(bytes[14..16]), ParseInteger(bytes[17..19]);
      if year.None? || month.None? || day.None? || hour.None? || minute.None? || second.None? then None
      else Some(DaysFromCivil(year.value, month.value, day.value) * 86_400
                + hour.value * 3_600 + minute.value * 60 + second.value)
  }

  function Digit(n: nat): Byte {
    48 + n % 10
  }

  /** `YYYY:MM:DD HH:MM:SS`. */
  function PrintStamp(stamp: Stamp): seq<Byte>
    requires ValidStamp(stamp) && 0 <= stamp.date.year <= 9999
  {
    Layout(Two(stamp.date.year / 100) + Two(stamp.date.year % 100), Two(stamp.date.month), Two(stamp.date.day),
           Two(stamp.hour), Two(stamp.minute), Two(stamp.second))
  }

  function Layout(year: seq<Byte>, month: seq<Byte>, day: seq<Byte>, hour: seq<Byte>, minute: seq<Byte>,
                  second: seq<Byte>): seq<Byte>
  {
    year + [58] + month + [58] + day + [32] + hour + [58] + minute + [58] + second
  }

  lemma LayoutFields(year: seq<Byte>, month: seq<Byte>, day: seq<Byte>, hour: seq<Byte>, minute: seq<Byte>,
                     second: seq<Byte>)
    requires |year| == 4 && |month| == |day| == |hour| == |minute| == |second| == 2
    ensures var s := Layout(year, month, day, hour, minute, second);
      && |s| == 19 && s[0..4] == year && s[5..7] == month && s[8..10] == day
      && s[11..13] == hour && s[14..16] == minute && s[17..19] == second
  {
  }

  function Two(n: nat): (s: seq<Byte>)
    ensures |s| == 2
  {
    [Digit(n / 10), Digit(n)]
  }

  lemma TwoDigits(n: nat)
    requires n < 100
    ensures ParseInteger(Two(n)) == Some(n)
  {
    var s := Two(n);
    assert s[..1] == [s[0]] && s[..1][..0] == [];
    assert Digits(s[..1]) == Some(n / 10);
  }

  lemma FourDigits(n: nat)
    requires n < 10_000
    ensures ParseInteger(Two(n / 100) + Two(n % 100)) == Some(n)
  {
    var s := Two(n / 100) + Two(n % 100);
    TwoDigits(n / 100);
    assert s[..2] == Two(n / 100);
    assert s[..3][..2] == s[..2];
    assert Digits(s[..3]) == Some(n / 100 * 10 + n % 100 / 10);
    assert s[..4] == s;
  }

  /** Reading back a printed stamp gives its time. */
  lemma ParseInvertsPrint(stamp: Stamp)
    requires ValidStamp(stamp) && 0 <= stamp.date.year <= 9999
    ensures ParseExifSeconds(PrintStamp(stamp)) == Some(EpochSeconds(stamp))
  {
    hide DaysFromCivil;
    hide ParseInteger;
    hide Digit;
    LayoutFields(Two(stamp.date.year / 100) + Two(stamp.date.year % 100), Two(stamp.date.month), Two(stamp.date.day),
                 Two(stamp.hour), Two(stamp.minute), Two(stamp.second));
    FourDigits(stamp.date.year);
    TwoDigits(stamp.date.month);
    TwoDigits(stamp.date.day);
    TwoDigits(stamp.hour);
    TwoDigits(stamp.minute);
    TwoDigits(stamp.second);
  }

  const BURST_MAX_GAP_SECONDS := 10

  predicate WithinBurstGap(previous: Option<seq<Byte>>, next: Option<seq<Byte>>) {
    var a := if previous.Some? then ParseExifSeconds(previous.value) else None;
    var b := if next.Some? then ParseExifSeconds(next.value) else None;
    a.Some? && b.Some? ==> -BURST_MAX_GAP_SECONDS <= b.value - a.value <= BURST_MAX_GAP_SECONDS
  }

  /** For real time stamps the gap test compares the seconds that pass between them. */
  lemma GapIsElapsedTime(a: Stamp, b: Stamp)
    requires ValidStamp(a) && 0 <= a.date.year <= 9999 && ValidStamp(b) && 0 <= b.date.year <= 9999
    ensures WithinBurstGap(Some(PrintStamp(a)), Some(PrintStamp(b))) <==>
      exists n :: 0 <= n <= BURST_MAX_GAP_SECONDS && (After(a, n) == b || After(b, n) == a)
  {
    ParseInvertsPrint(a);
    ParseInvertsPrint(b);
    ElapsedTime(a, b, BURST_MAX_GAP_SECONDS);
  }

  lemma ElapsedTime(a: Stamp, b: Stamp, limit: nat)
    requires ValidStamp(a) && ValidStamp(b)
    ensures 0 - limit <= EpochSeconds(b) - EpochSeconds(a) <= limit <==>
      exists n :: 0 <= n <= limit && (After(a, n) == b || After(b, n) == a)
  {
    ReachedAfter(a, b);
    ReachedAfter(b, a);
    forall n: nat
      ensures After(a, n) == b ==> EpochSeconds(b) == EpochSeconds(a) + n
      ensures After(b, n) == a ==> EpochSeconds(a) == EpochSeconds(b) + n
    {
      AfterCounts(a, n);
      AfterCounts(b, n);
    }
  }

  lemma ReachedAfter(a: Stamp, b: Stamp)
    requires ValidStamp(a) && ValidStamp(b)
    ensures var d := EpochSeconds(b) - EpochSeconds(a); d >= 0 ==> After(a, d) == b
  {
    var d := EpochSeconds(b) - EpochSeconds(a);
    if d >= 0 {
      AfterCounts(a, d);
      EpochSecondsAreUnique(After(a, d), b);
    }
  }

  // ---- Which stamps can be read ----

  predicate AllDigits(s: seq<Byte>) {
    forall i :: 0 <= i < |s| ==> 48 <= s[i] <= 57
  }

  /** At least one digit, perhaps a sign before it, and nothing else. */
  predicate IsNumber(s: seq<Byte>) {
    if s != [] && (s[0] == 43 || s[0] == 45) then s[1..] != [] && AllDigits(s[1..]) else s != [] && AllDigits(s)
  }

  lemma {:induction false} DigitsAreRead(s: seq<Byte>)
    ensures Digits(s).Some? <==> AllDigits(s)
  {
    if s != [] {
      DigitsAreRead(s[..|s| - 1]);
      assert forall i :: 0 <= i < |s| - 1 ==> s[..|s| - 1][i] == s[i];
    }
  }

  lemma NumbersAreRead(s: seq<Byte>)
    ensures ParseInteger(s).Some? <==> IsNumber(s)
  {
    DigitsAreRead(s);
    if s != [] {
      DigitsAreRead(s[1..]);
    }
    hide Digits;
    hide AllDigits;
  }

  /** Long enough, and a number in each of the six fields; what stands between them does not matter. */
  predicate IsReadable(bytes: seq<Byte>) {
    && |bytes| >= 19
    && IsNumber(bytes[0..4]) && IsNumber(bytes[5..7]) && IsNumber(bytes[8..10])
    && IsNumber(bytes[11..13]) && IsNumber(bytes[14..16]) && IsNumber(bytes[17..19])
  }

  lemma ReadableStampsAreRead(bytes: seq<Byte>)
    ensures ParseExifSeconds(bytes).Some? <==> IsReadable(bytes)
  {
    if |bytes| >= 19 {
      NumbersAreRead(bytes[0..4]);
      NumbersAreRead(bytes[5..7]);
      NumbersAreRead(bytes[8..10]);
      NumbersAreRead(bytes[11..13]);
      NumbersAreRead(bytes[14..16]);
      NumbersAreRead(bytes[17..19]);
    }
    hide IsNumber;
    hide ParseInteger;
    hide DaysFromCivil;
  }

  /** The gap fails only between two stamps that can both be read, and then by more than ten seconds. */
  lemma GapFailsOnlyBetweenReadableStamps(previous: Option<seq<Byte>>, next: Option<seq<Byte>>)
    ensures !WithinBurstGap(previous, next) <==>
      && previous.Some? && next.Some? && IsReadable(previous.value) && IsReadable(next.value)
      && ParseExifSeconds(previous.value).Some? && ParseExifSeconds(next.value).Some?
      && (var gap := ParseExifSeconds(next.value).value - ParseExifSeconds(previous.value).value; gap > 10 || gap < -10)
  {
    if previous.Some? {
      ReadableStampsAreRead(previous.value);
    }
    if next.Some? {
      ReadableStampsAreRead(next.value);
    }
    hide IsReadable;
    hide ParseExifSeconds;
  }
}
