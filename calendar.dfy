/** The slice of ECMAScript `Date` arithmetic the pipeline uses (ECMA-262, section 21.4.1),
    for a local time zone with a fixed offset from UTC (`offset` milliseconds, local = UTC +
    offset). Times are integer milliseconds since the epoch. */
module Calendar {
  import opened Strings

  const SECOND: int := 1000
  const MINUTE: int := 60000
  const HOUR: int := 3600000
  const DAY: int := 86400000

  /** A proleptic Gregorian date. */
  datatype Civil = Civil(year: int, month: int, day: int)

  /** Days from 1970-01-01 to the given date (Dafny's `/` and `%` floor here, which is
      what the algorithm needs for dates before the epoch). */
  function DaysFromCivil(y: int, m: int, d: int): int
    requires 1 <= m <= 12
  {
    var y1 := if m <= 2 then y - 1 else y;
    var era := y1 / 400;
    var mp := if m > 2 then m - 3 else m + 9;
    era * 146097 + Doe(y1 - era * 400, MonthStart(mp) + d - 1) - 719468
  }

  /** The date of a day number (the inverse of `DaysFromCivil`). */
  function CivilFromDays(z: int): Civil {
    var z1 := z + 719468;
    var era := z1 / 146097;
    EraCivil(era, z1 - era * 146097)
  }

  /** `MakeDay`'s year map for `new Date(y, m, d)`: two-digit years mean 19xx. */
  function MakeFullYear(y: int): int {
    if 0 <= y <= 99 then 1900 + y else y
  }

  /** The local day number of time `t`. */
  function LocalDay(t: int, offset: int): int {
    (t + offset) / DAY
  }

  /** `d.getFullYear()` */
  function LocalYear(t: int, offset: int): int {
    CivilFromDays(LocalDay(t, offset)).year
  }

  /** Local midnight of the day of `t`. */
  function StartOfLocalDay(t: int, offset: int): (r: int)
    ensures r <= t < r + DAY
  {
    LocalDay(t, offset) * DAY - offset
  }

  /** `d.setHours(h, m, 0, 0)`: hours and minutes out of range roll over into later days. */
  function SetHours(t: int, offset: int, h: int, m: int): int {
    StartOfLocalDay(t, offset) + h * HOUR + m * MINUTE
  }

  /** `d.setDate(d.getDate() + n)`; with a fixed offset every day has 24 hours. */
  function AddDays(t: int, n: int): int {
    t + n * DAY
  }

  /** `new Date(y, monthIndex, d)` at local midnight; month and day overflow into the next
      month or year, as ECMAScript's MakeDay does. */
  function LocalDate(y: int, monthIndex: int, d: int, offset: int): int {
    var fy := MakeFullYear(y);
    (DaysFromCivil(fy + monthIndex / 12, monthIndex % 12 + 1, 1) + d - 1) * DAY - offset
  }

  /** `s.padStart(n, '0')` */
  function PadZero(s: string, n: nat): (r: string)
    ensures |r| == if |s| < n then n else |s|
    ensures forall i | 0 <= i < |r| - |s| :: r[i] == '0'
    ensures r[|r| - |s|..] == s
    decreases n - |s|
  {
    if |s| >= n then s else PadZero("0" + s, n)
  }

  /** `String(n).padStart(width, '0')` */
  function Digits(n: int, width: nat): (r: string)
    ensures NoDot(r)
  {
    var s := IntToString(n);
    var r := PadZero(s, width);
    assert NoDot(s) by {
      var u := NatToString(if n < 0 then -n else n);
      forall i | 0 <= i < |u| ensures u[i] != '.' { assert IsDigit(u[i]); }
      if n < 0 { assert s == "-" + u; }
    }
    assert forall i | |r| - |s| <= i < |r| :: r[i] == s[i - (|r| - |s|)];
    r
  }

  /** The calendar and clock part of `toISOString()`, up to the seconds:
      "YYYY-MM-DDTHH:mm:ss" (or a signed six-digit year outside 0-9999). */
  function IsoDateTime(t: int): string {
    IsoFields(CivilFromDays(t / DAY), t % DAY)
  }

  /** The date `c` and the time `msOfDay` milliseconds after midnight, as
      "YYYY-MM-DDTHH:mm:ss". */
  function IsoFields(c: Civil, msOfDay: int): string {
    YearText(c.year) + "-" + Digits(c.month, 2) + "-" + Digits(c.day, 2) + "T"
    + Digits(msOfDay / HOUR, 2) + ":" + Digits(msOfDay % HOUR / MINUTE, 2) + ":" + Digits(msOfDay % MINUTE / SECOND, 2)
  }

  /** The year of `toISOString()`: four digits for 0-9999, otherwise a sign and six digits. */
  function YearText(y: int): (r: string)
    ensures NoDot(r)
  {
    if 0 <= y <= 9999 then Digits(y, 4)
    else if y < 0 then
      NoDotAppend("-", Digits(-y, 6));
      "-" + Digits(-y, 6)
    else
      NoDotAppend("+", Digits(y, 6));
      "+" + Digits(y, 6)
  }

  /** `d.toISOString()` */
  function IsoText(t: int): string {
    IsoDateTime(t) + "." + Digits(t % SECOND, 3) + "Z"
  }

  /** `d.toISOString().slice(0, 10)`: the UTC date, "YYYY-MM-DD" for years 0-9999. */
  function IsoDate(t: int): string {
    Prefix(IsoText(t), 10)
  }

  /** No "." occurs before the milliseconds. */
  predicate NoDot(s: string) {
    forall i | 0 <= i < |s| :: s[i] != '.'
  }

  lemma NoDotAppend(a: string, b: string)
    requires NoDot(a) && NoDot(b)
    ensures NoDot(a + b)
  {
    forall i | 0 <= i < |a + b| ensures (a + b)[i] != '.' {
      if i < |a| { assert (a + b)[i] == a[i]; } else { assert (a + b)[i] == b[i - |a|]; }
    }
  }

  /** The separators of "YYYY-MM-DDTHH:mm:ss" add no ".". */
  lemma ClockNoDot(y: string, mo: string, d: string, h: string, mi: string, se: string)
    requires NoDot(y) && NoDot(mo) && NoDot(d) && NoDot(h) && NoDot(mi) && NoDot(se)
    ensures NoDot(y + "-" + mo + "-" + d + "T" + h + ":" + mi + ":" + se)
  {
    var p1 := y + "-";
    NoDotAppend(y, "-");
    var p2 := p1 + mo;
    NoDotAppend(p1, mo);
    var p3 := p2 + "-";
    NoDotAppend(p2, "-");
    var p4 := p3 + d;
    NoDotAppend(p3, d);
    var p5 := p4 + "T";
    NoDotAppend(p4, "T");
    var p6 := p5 + h;
    NoDotAppend(p5, h);
    var p7 := p6 + ":";
    NoDotAppend(p6, ":");
    var p8 := p7 + mi;
    NoDotAppend(p7, mi);
    var p9 := p8 + ":";
    NoDotAppend(p8, ":");
    NoDotAppend(p9, se);
  }

  lemma IsoFieldsNoDot(c: Civil, msOfDay: int)
    ensures NoDot(IsoFields(c, msOfDay))
  {
    ClockNoDot(YearText(c.year), Digits(c.month, 2), Digits(c.day, 2), Digits(msOfDay / HOUR, 2),
      Digits(msOfDay % HOUR / MINUTE, 2), Digits(msOfDay % MINUTE / SECOND, 2));
  }

  lemma IsoDateTimeNoDot(t: int)
    ensures NoDot(IsoDateTime(t))
  {
    IsoFieldsNoDot(CivilFromDays(t / DAY), t % DAY);
  }

  // ----- calendar facts -----

  /** Leap years of the proleptic Gregorian calendar. */
  predicate IsLeap(y: int) {
    y % 4 == 0 && (y % 100 != 0 || y % 400 == 0)
  }

  /** The number of days of month `m` (1-12) in year `y`. */
  function DaysInMonth(y: int, m: int): int
    requires 1 <= m <= 12
  {
    if m == 2 then (if IsLeap(y) then 29 else 28)
    else if m == 4 || m == 6 || m == 9 || m == 11 then 30
    else 31
  }

  /** A date that exists in the calendar. */
  predicate ValidCivil(c: Civil) {
    1 <= c.month <= 12 && 1 <= c.day <= DaysInMonth(c.year, c.month)
  }

  /** A year that `new Date(y, ...)` takes as it is (0-99 mean 1900-1999). */
  predicate FourDigitYear(y: int) {
    !(0 <= y <= 99)
  }

  // The algorithms count years from March (so that February comes last) in 400-year eras
  // of 146097 days; `yoe` is the year of the era and `doy` the day of that March-based year.

  /** Days from the start of an era to March 1 of its year `yoe`, plus `doy`. */
  function Doe(yoe: int, doy: int): int {
    yoe * 365 + yoe / 4 - yoe / 100 + doy
  }

  /** The year of the era `CivilFromDays` reads off a day of the era. */
  function YoeOf(doe: int): int {
    (doe - doe / 1460 + doe / 36524 - doe / 146096) / 365
  }

  /** The first day of the month `mp` months after March. */
  function MonthStart(mp: int): int {
    (153 * mp + 2) / 5
  }

  /** The month `mp` months after March, 1-12. */
  function MonthOfMp(mp: int): int {
    if mp < 10 then mp + 3 else mp - 9
  }

  lemma Quot4(x: int, k: int)
    requires 4 * k <= x < 4 * k + 4
    ensures x / 4 == k
  {
  }

  lemma Quot100(x: int, k: int)
    requires 100 * k <= x < 100 * k + 100
    ensures x / 100 == k
  {
  }

  lemma Quot365(x: int, k: int)
    requires 365 * k <= x < 365 * k + 365
    ensures x / 365 == k
  {
  }

  lemma Quot400(x: int, k: int)
    requires 400 * k <= x < 400 * k + 400
    ensures x / 400 == k
  {
  }

  lemma Quot1460(x: int, k: int)
    requires 1460 * k <= x < 1460 * k + 1460
    ensures x / 1460 == k
  {
  }

  lemma Quot36524(x: int, k: int)
    requires 36524 * k <= x < 36524 * k + 36524
    ensures x / 36524 == k
  {
  }

  lemma Quot146096(x: int, k: int)
    requires 146096 * k <= x < 146096 * k + 146096
    ensures x / 146096 == k
  {
  }

  lemma Quot146097(x: int, k: int)
    requires 146097 * k <= x < 146097 * k + 146097
    ensures x / 146097 == k
  {
  }

  lemma QuotDay(x: int, k: int)
    requires DAY * k <= x < DAY * k + DAY
    ensures x / DAY == k
  {
  }

  /** A year of the era as centuries, four-year cycles and years. */
  lemma DoeSplit(yoe: int)
    requires 0 <= yoe <= 399
    ensures var c, q, r := yoe / 100, yoe % 100 / 4, yoe % 4;
      yoe == 100 * c + 4 * q + r && 0 <= c <= 3 && 0 <= q <= 24
      && Doe(yoe, 0) == 36524 * c + 1461 * q + 365 * r
  {
    var c, q, r := yoe / 100, yoe % 100 / 4, yoe % 4;
    assert yoe == 100 * c + 4 * q + r;
    Quot4(yoe, 25 * c + q);
    Quot100(yoe, c);
  }

  /** `YoeOf` reads back the year of a day of that year (day 365 only in a leap year). */
  lemma {:induction false} YoeInverse(yoe: int, doy: int)
    requires 0 <= yoe <= 399 && 0 <= doy <= 365
    requires doy == 365 ==> IsLeap(yoe + 1)
    ensures YoeOf(Doe(yoe, doy)) == yoe
  {
    DoeSplit(yoe);
    var c, q, r := yoe / 100, yoe % 100 / 4, yoe % 4;
    LeapOfParts(yoe, c, q, r);
    YoeOfParts(c, q, r, doy);
  }

  /** A year of the era after which comes a leap year ends a four-year cycle, and the
      century's last cycle only in the era's last century. */
  lemma LeapOfParts(yoe: int, c: int, q: int, r: int)
    requires yoe == 100 * c + 4 * q + r && 0 <= c <= 3 && 0 <= q <= 24 && 0 <= r <= 3
    ensures IsLeap(yoe + 1) <==> r == 3 && (q < 24 || c == 3)
  {
    if r < 3 {
      ModOf(yoe + 1, 4, 25 * c + q, r + 1);
    } else {
      ModOf(yoe + 1, 4, 25 * c + q + 1, 0);
      if q < 24 {
        ModOf(yoe + 1, 100, c, 4 * q + 4);
      } else {
        ModOf(yoe + 1, 100, c + 1, 0);
        if c < 3 {
          ModOf(yoe + 1, 400, 0, 100 * c + 100);
        } else {
          ModOf(yoe + 1, 400, 1, 0);
        }
      }
    }
  }

  /** `YoeOf` on a day given by the year's centuries `c`, four-year cycles `q`, years `r`
      and day `doy`. */
  lemma {:induction false} YoeOfParts(c: int, q: int, r: int, doy: int)
    requires 0 <= c <= 3 && 0 <= q <= 24 && 0 <= r <= 3 && 0 <= doy <= 365
    requires doy == 365 ==> r == 3 && (q < 24 || c == 3)
    ensures YoeOf(36524 * c + 1461 * q + 365 * r + doy) == 100 * c + 4 * q + r
  {
    var doe := 36524 * c + 1461 * q + 365 * r + doy;
    var full := q == 24 && r == 3 && doy == 365;
    var a := Cycles(c, q, r, doy);
    var b := if full then 1 else 0;
    var e := if full && c == 3 then 1 else 0;
    Quot36524(doe, c + b);
    Quot146096(doe, e);
    assert 0 <= doy - a + b - e < 365;
    var x := doe - doe / 1460 + doe / 36524 - doe / 146096;
    assert x == 365 * (100 * c + 4 * q + r) + (doy - a + b - e);
    Quot365(x, 100 * c + 4 * q + r);
  }

  /** The four-year cycles `CivilFromDays` counts in such a day: one more than `25c + q`
      once the day reaches the end of the cycle. */
  lemma Cycles(c: int, q: int, r: int, doy: int) returns (a: int)
    requires 0 <= c <= 3 && 0 <= q <= 24 && 0 <= r <= 3 && 0 <= doy <= 365
    ensures (36524 * c + 1461 * q + 365 * r + doy) / 1460 == 25 * c + q + a
    ensures a == if 24 * c + q + 365 * r + doy >= 1460 then 1 else 0
    ensures a == 1 ==> doy >= 1
    ensures doy == 365 && r == 3 ==> a == 1
  {
    a := if 24 * c + q + 365 * r + doy >= 1460 then 1 else 0;
    Quot1460(36524 * c + 1461 * q + 365 * r + doy, 25 * c + q + a);
  }

  /** Every day of an era lies in a year of the era, on a day of that year. */
  lemma {:induction false} YoeRange(doe: int)
    requires 0 <= doe <= 146096
    ensures var yoe := YoeOf(doe); var doy := doe - Doe(yoe, 0);
      0 <= yoe <= 399 && 0 <= doy <= 365 && (doy == 365 ==> IsLeap(yoe + 1))
  {
    var c, q, r, doy;
    if doe == 146096 {
      c, q, r, doy := 3, 24, 3, 365;
    } else {
      c := doe / 36524;
      var rest := doe - 36524 * c;
      q := rest / 1461;
      var rest2 := rest - 1461 * q;
      r := if rest2 / 365 > 3 then 3 else rest2 / 365;
      doy := rest2 - 365 * r;
    }
    assert doe == 36524 * c + 1461 * q + 365 * r + doy;
    YoeOfParts(c, q, r, doy);
    DoeOfParts(c, q, r);
    LeapOfParts(100 * c + 4 * q + r, c, q, r);
  }

  /** The first day of year `100c + 4q + r` of an era. */
  lemma DoeOfParts(c: int, q: int, r: int)
    requires 0 <= c <= 3 && 0 <= q <= 24 && 0 <= r <= 3
    ensures Doe(100 * c + 4 * q + r, 0) == 36524 * c + 1461 * q + 365 * r
  {
    Quot4(100 * c + 4 * q + r, 25 * c + q);
    Quot100(100 * c + 4 * q + r, c);
  }

  /** The length of the month `mp` months after March, in a year whose February is leap
      exactly when `leap`. */
  function MpLength(mp: int, leap: bool): int {
    if mp == 11 then (if leap then 29 else 28)
    else if mp == 1 || mp == 3 || mp == 6 || mp == 8 then 30
    else 31
  }

  /** The month of a day of a March-based year reads back from its day number. */
  lemma MonthInverse(mp: int, d: int, leap: bool)
    requires 0 <= mp <= 11 && 1 <= d <= MpLength(mp, leap)
    ensures (5 * (MonthStart(mp) + d - 1) + 2) / 153 == mp
  {
    var doy := MonthStart(mp) + d - 1;
    if mp == 0 { assert 0 <= doy <= 30; }
    else if mp == 1 { assert 31 <= doy <= 60; }
    else if mp == 2 { assert 61 <= doy <= 91; }
    else if mp == 3 { assert 92 <= doy <= 121; }
    else if mp == 4 { assert 122 <= doy <= 152; }
    else if mp == 5 { assert 153 <= doy <= 183; }
    else if mp == 6 { assert 184 <= doy <= 213; }
    else if mp == 7 { assert 214 <= doy <= 244; }
    else if mp == 8 { assert 245 <= doy <= 274; }
    else if mp == 9 { assert 275 <= doy <= 305; }
    else if mp == 10 { assert 306 <= doy <= 336; }
    else { assert 337 <= doy <= 365; }
  }

  /** Every day of a March-based year lies in one of its twelve months. */
  lemma MonthRange(doy: int, leap: bool)
    requires 0 <= doy <= 365 && (doy == 365 ==> leap)
    ensures var mp := (5 * doy + 2) / 153; var d := doy - MonthStart(mp) + 1;
      0 <= mp <= 11 && 1 <= d <= MpLength(mp, leap)
  {
  }

  /** Leap years repeat every 400 years. */
  lemma LeapPeriod(era: int, k: int)
    ensures IsLeap(era * 400 + k) == IsLeap(k)
  {
    var y := era * 400 + k;
    var q4, q100, q400 := k / 4, k / 100, k / 400;
    assert y == 4 * (era * 100 + q4) + k % 4;
    assert y == 100 * (era * 4 + q100) + k % 100;
    assert y == 400 * (era + q400) + k % 400;
    ModOf(y, 4, era * 100 + q4, k % 4);
    ModOf(y, 100, era * 4 + q100, k % 100);
    ModOf(y, 400, era + q400, k % 400);
  }

  /** The remainder of `n * q + r` for `0 <= r < n`. */
  lemma ModOf(x: int, n: int, q: int, r: int)
    requires n == 4 || n == 100 || n == 400
    requires x == n * q + r && 0 <= r < n
    ensures x % n == r
  {
  }

  /** How `DaysFromCivil` counts: eras, years of the era, and days of the year from March. */
  lemma DaysFromCivilParts(y: int, m: int, d: int)
    requires 1 <= m <= 12
    ensures var y1 := if m <= 2 then y - 1 else y; var era := y1 / 400;
      var mp := if m > 2 then m - 3 else m + 9;
      0 <= y1 - era * 400 <= 399
      && DaysFromCivil(y, m, d) == era * 146097 + Doe(y1 - era * 400, MonthStart(mp) + d - 1) - 719468
  {
  }

  /** The date of day `doe` of era `era`, as `CivilFromDays` computes it. */
  function EraCivil(era: int, doe: int): Civil {
    var yoe := YoeOf(doe);
    var doy := doe - Doe(yoe, 0);
    var mp := (5 * doy + 2) / 153;
    var m := MonthOfMp(mp);
    Civil(if m <= 2 then yoe + era * 400 + 1 else yoe + era * 400, m, doy - MonthStart(mp) + 1)
  }

  /** `CivilFromDays` splits a day number into an era and a day of the era. */
  lemma CivilFromDaysParts(z: int, era: int, doe: int)
    requires 0 <= doe <= 146096 && z == era * 146097 + doe - 719468
    ensures CivilFromDays(z) == EraCivil(era, doe)
  {
    Quot146097(z + 719468, era);
  }

  /** The date of a valid day of a year of an era reads back. */
  lemma {:induction false} EraCivilOf(era: int, yoe: int, mp: int, d: int)
    requires 0 <= yoe <= 399 && 0 <= mp <= 11 && 1 <= d <= MpLength(mp, IsLeap(yoe + 1))
    ensures var m := MonthOfMp(mp);
      EraCivil(era, Doe(yoe, MonthStart(mp) + d - 1))
        == Civil(if m <= 2 then yoe + era * 400 + 1 else yoe + era * 400, m, d)
  {
    var doy := MonthStart(mp) + d - 1;
    MonthInverse(mp, d, IsLeap(yoe + 1));
    YoeInverse(yoe, doy);
  }

  /** The era, year of the era and March-based month of a date. */
  lemma {:induction false} CivilParts(y: int, m: int, d: int) returns (era: int, yoe: int, mp: int)
    requires ValidCivil(Civil(y, m, d))
    ensures 0 <= yoe <= 399 && 0 <= mp <= 11 && 1 <= d <= MpLength(mp, IsLeap(yoe + 1))
    ensures MonthOfMp(mp) == m && y == (if m <= 2 then yoe + era * 400 + 1 else yoe + era * 400)
    ensures DaysFromCivil(y, m, d) == era * 146097 + Doe(yoe, MonthStart(mp) + d - 1) - 719468
  {
    DaysFromCivilParts(y, m, d);
    var y1 := if m <= 2 then y - 1 else y;
    era := y1 / 400;
    yoe := y1 - era * 400;
    mp := if m > 2 then m - 3 else m + 9;
    LeapPeriod(era, yoe + 1);
  }

  /** `CivilFromDays` reads back every date of the calendar. */
  lemma CivilOfDays(y: int, m: int, d: int)
    requires ValidCivil(Civil(y, m, d))
    ensures CivilFromDays(DaysFromCivil(y, m, d)) == Civil(y, m, d)
  {
    var era, yoe, mp := CivilParts(y, m, d);
    DoeSplit(yoe);
    var doe := Doe(yoe, MonthStart(mp) + d - 1);
    assert 0 <= doe <= 146096;
    CivilFromDaysParts(DaysFromCivil(y, m, d), era, doe);
    EraCivilOf(era, yoe, mp, d);
  }

  /** Every day of an era is a valid date that counts back to it. */
  lemma {:induction false} EraCivilValid(era: int, doe: int)
    requires 0 <= doe <= 146096
    ensures var c := EraCivil(era, doe);
      ValidCivil(c) && DaysFromCivil(c.year, c.month, c.day) == era * 146097 + doe - 719468
  {
    YoeRange(doe);
    var yoe := YoeOf(doe);
    var doy := doe - Doe(yoe, 0);
    MonthRange(doy, IsLeap(yoe + 1));
    var mp := (5 * doy + 2) / 153;
    var d := doy - MonthStart(mp) + 1;
    var m := MonthOfMp(mp);
    var year := if m <= 2 then yoe + era * 400 + 1 else yoe + era * 400;
    assert EraCivil(era, doe) == Civil(year, m, d);
    EraDateValid(era, yoe, mp, d);
    assert Doe(yoe, MonthStart(mp) + d - 1) == doe;
  }

  /** Day `d` of the month `mp` months after March of year `yoe` of era `era` is a date of
      the calendar, and `DaysFromCivil` counts it from the era. */
  lemma EraDateValid(era: int, yoe: int, mp: int, d: int)
    requires 0 <= yoe <= 399 && 0 <= mp <= 11 && 1 <= d <= MpLength(mp, IsLeap(yoe + 1))
    ensures var m := MonthOfMp(mp); var year := if m <= 2 then yoe + era * 400 + 1 else yoe + era * 400;
      ValidCivil(Civil(year, m, d))
      && DaysFromCivil(year, m, d) == era * 146097 + Doe(yoe, MonthStart(mp) + d - 1) - 719468
  {
    var m := MonthOfMp(mp);
    var year := if m <= 2 then yoe + era * 400 + 1 else yoe + era * 400;
    LeapPeriod(era, yoe + 1);
    assert DaysInMonth(year, m) == MpLength(mp, IsLeap(yoe + 1));
    var y1 := if m <= 2 then year - 1 else year;
    assert y1 == yoe + era * 400;
    Quot400(y1, era);
    assert (if m > 2 then m - 3 else m + 9) == mp;
  }

  /** Every day number is a date of the calendar, and `DaysFromCivil` counts back to it. */
  lemma DaysOfCivil(z: int)
    ensures var c := CivilFromDays(z);
      ValidCivil(c) && DaysFromCivil(c.year, c.month, c.day) == z
  {
    var era := (z + 719468) / 146097;
    var doe := z + 719468 - era * 146097;
    CivilFromDaysParts(z, era, doe);
    EraCivilValid(era, doe);
  }

  /** Days from the start of era 0 to March 1 of the March-based year `y1`. */
  function MarchYearStart(y1: int): int {
    (y1 / 400) * 146097 + Doe(y1 - (y1 / 400) * 400, 0)
  }

  /** A March-based year has at least 365 days. */
  lemma MarchYearLength(y1: int)
    ensures MarchYearStart(y1 + 1) >= MarchYearStart(y1) + 365
  {
    var era := y1 / 400;
    var yoe := y1 - era * 400;
    MarchYearStartOf(y1, era);
    if yoe < 399 {
      MarchYearStartOf(y1 + 1, era);
      DoeStep(yoe);
    } else {
      MarchYearStartOf(y1 + 1, era + 1);
      DoeSplit(399);
    }
  }

  /** The start of a March-based year, given its era. */
  lemma MarchYearStartOf(y1: int, era: int)
    requires 400 * era <= y1 < 400 * era + 400
    ensures MarchYearStart(y1) == era * 146097 + Doe(y1 - era * 400, 0)
  {
    Quot400(y1, era);
  }

  /** Consecutive years of an era start at least 365 days apart. */
  lemma DoeStep(yoe: int)
    requires 0 <= yoe < 399
    ensures Doe(yoe + 1, 0) >= Doe(yoe, 0) + 365
  {
    DoeSplit(yoe);
    DoeSplit(yoe + 1);
  }

  /** `DaysFromCivil` is the start of the date's March-based year plus its day in it. */
  lemma DaysFromMarchYear(y: int, m: int, d: int)
    requires 1 <= m <= 12
    ensures var y1 := if m <= 2 then y - 1 else y; var mp := if m > 2 then m - 3 else m + 9;
      DaysFromCivil(y, m, d) == MarchYearStart(y1) + MonthStart(mp) + d - 1 - 719468
  {
    DaysFromCivilParts(y, m, d);
  }

  /** January 1 is the first day of its year. */
  lemma YearStartFirst(y: int, m: int, d: int)
    requires ValidCivil(Civil(y, m, d))
    ensures DaysFromCivil(y, 1, 1) <= DaysFromCivil(y, m, d)
  {
    DaysFromMarchYear(y, 1, 1);
    DaysFromMarchYear(y, m, d);
    MarchYearLength(y - 1);
  }

  /** Every date of a year comes before January 1 of the next. */
  lemma YearEndLast(y: int, m: int, d: int)
    requires ValidCivil(Civil(y, m, d))
    ensures DaysFromCivil(y, m, d) < DaysFromCivil(y + 1, 1, 1)
  {
    DaysFromMarchYear(y + 1, 1, 1);
    DaysFromMarchYear(y, m, d);
    MarchYearLength(y - 1);
  }

  /** `new Date(y, month - 1, day)` is local midnight of that date. */
  lemma LocalDateDays(y: int, month: int, day: int, offset: int)
    requires 1 <= month <= 12 && FourDigitYear(y)
    ensures LocalDate(y, month - 1, day, offset) == DaysFromCivil(y, month, day) * DAY - offset
  {
    assert (month - 1) / 12 == 0 && (month - 1) % 12 == month - 1;
    assert MakeFullYear(y) == y;
    assert DaysFromCivil(y, month, 1) + day - 1 == DaysFromCivil(y, month, day);
  }

  /** `new Date(y, month - 1, day)` on a date of the calendar reads back, in local time, as
      that year, month and day. */
  lemma LocalDateReadsBack(y: int, month: int, day: int, offset: int)
    requires ValidCivil(Civil(y, month, day)) && FourDigitYear(y)
    ensures CivilFromDays(LocalDay(LocalDate(y, month - 1, day, offset), offset)) == Civil(y, month, day)
  {
    var z := DaysFromCivil(y, month, day);
    LocalDateDays(y, month, day, offset);
    assert LocalDate(y, month - 1, day, offset) + offset == z * DAY;
    QuotDay(z * DAY, z);
    assert LocalDay(LocalDate(y, month - 1, day, offset), offset) == z;
    CivilOfDays(y, month, day);
  }

  /** A date of last year (in local time) lies before the start of the local day of `t`. */
  lemma LastYearPassed(t: int, offset: int, month: int, day: int)
    requires ValidCivil(Civil(LocalYear(t, offset) - 1, month, day)) && FourDigitYear(LocalYear(t, offset) - 1)
    ensures LocalDate(LocalYear(t, offset) - 1, month - 1, day, offset) < StartOfLocalDay(t, offset)
  {
    var z := LocalDay(t, offset);
    var c := CivilFromDays(z);
    DaysOfCivil(z);
    YearStartFirst(c.year, c.month, c.day);
    YearEndLast(c.year - 1, month, day);
    LocalDateDays(c.year - 1, month, day, offset);
    var last := DaysFromCivil(c.year - 1, month, day);
    assert last < z;
    assert LocalYear(t, offset) == c.year;
    assert StartOfLocalDay(t, offset) == z * DAY - offset;
    assert LocalDate(c.year - 1, month - 1, day, offset) == last * DAY - offset;
    EarlierDay(last, z, offset);
  }

  /** An earlier day starts earlier. */
  lemma EarlierDay(a: int, b: int, offset: int)
    requires a < b
    ensures a * DAY - offset < b * DAY - offset
  {
  }
}
