/** Date conversion and parsing (`src/utils/date.ts`). A `Date` is its time value in
    milliseconds; the general-purpose parser of the dayjs library is a parameter. */
module Dates {
  import opened Wrappers
  import opened Strings
  import opened Calendar

  /** A timestamp string as stored in the archive: one `toISOString` wrote (`At`), or any
      other text that `new Date(text)` cannot read. */
  datatype Stamp = At(ms: int) | Unparsed(text: string)

  /** `parseISO(str)`: `null` for a missing or empty string or an invalid date. */
  function ParseIso(s: Option<Stamp>): (r: Option<int>)
    ensures r.Some? <==> s.Some? && s.value.At?
    ensures r.Some? ==> r.value == s.value.ms
  {
    match s
    case Some(At(ms)) => Some(ms)
    case _ => None
  }

  /** JavaScript truthiness of a stored string field: only "" is falsy. */
  predicate Truthy(s: Option<Stamp>) {
    s.Some? && !(s.value.Unparsed? && s.value.text == [])
  }

  /** `d.toISOString().replace('.000Z', 'Z')` */
  function ToIsoText(t: int): string {
    ReplaceFirst(IsoText(t), ".000Z", "Z")
  }

  /** Whole seconds lose their ".000"; any other time keeps the full form. */
  lemma ToIsoTextForm(t: int)
    ensures t % SECOND == 0 ==> ToIsoText(t) == IsoDateTime(t) + "Z"
    ensures t % SECOND != 0 ==> ToIsoText(t) == IsoText(t)
  {
    IsoDateTimeNoDot(t);
    MillisText(t % SECOND);
    ReplaceMillis(IsoDateTime(t), Digits(t % SECOND, 3));
  }

  /** In "<head>.<ms>Z" with no "." in `head`, ".000Z" can only occur right after `head`. */
  lemma ReplaceMillis(head: string, ms: string)
    requires NoDot(head) && |ms| == 3 && AllDigits(ms)
    ensures ms == "000" ==> ReplaceFirst(head + "." + ms + "Z", ".000Z", "Z") == head + "Z"
    ensures ms != "000" ==> !Contains(head + "." + ms + "Z", ".000Z")
  {
    var s := head + "." + ms + "Z";
    forall i | 0 <= i < |head| ensures !OccursAt(s, ".000Z", i) {
      assert s[i] == head[i];
    }
    if ms == "000" {
      assert OccursAt(s, ".000Z", |head|);
      assert IndexOf(s, ".000Z") == |head|;
      assert s[..|head|] == head;
      assert s[|head| + 5..] == [];
    } else {
      assert !OccursAt(s, ".000Z", |head|) by {
        var k := |head|;
        assert s[k..k + 5] == "." + ms + "Z";
        assert ("." + ms + "Z")[1..4] == ms;
        assert ".000Z"[1..4] == "000";
      }
    }
  }

  /** The millisecond field is three digits, "000" exactly for whole seconds. */
  lemma MillisText(n: int)
    requires 0 <= n < 1000
    ensures |Digits(n, 3)| == 3 && AllDigits(Digits(n, 3))
    ensures Digits(n, 3) == "000" <==> n == 0
  {
    var s := NatToString(n);
    assert IntToString(n) == s;
    NatToStringShape(n);
    var r := Digits(n, 3);
    assert r == PadZero(s, 3);
    assert forall i | 3 - |s| <= i < 3 :: r[i] == s[i - (3 - |s|)];
    if n == 0 {
      assert s == "0";
    } else {
      LeadingDigit(n);
      assert r[3 - |s|] == s[0];
    }
  }

  lemma {:induction false} NatToStringShape(n: nat)
    ensures n < 10 ==> |NatToString(n)| == 1
    ensures n < 100 ==> |NatToString(n)| <= 2
    ensures n < 1000 ==> |NatToString(n)| <= 3
  {
    if n >= 10 { NatToStringShape(n / 10); }
  }

  /** A positive number's decimal text does not start with "0". */
  lemma {:induction false} LeadingDigit(n: nat)
    requires n > 0
    ensures NatToString(n)[0] != '0'
    decreases n
  {
    if n >= 10 {
      LeadingDigit(n / 10);
    }
  }

  /** `toISOString(date)`: `null` stays `null`; a date becomes its ISO text. */
  function ToIsoString(d: Option<int>): (r: Option<Stamp>)
    ensures d.None? <==> r.None?
    ensures d.Some? ==> r == Some(At(d.value)) && ParseIso(r) == d
  {
    match d
    case None => None
    case Some(t) => Some(At(t))
  }

  /** The text a stamp is written as. */
  function StampText(s: Stamp): string {
    match s
    case At(t) => ToIsoText(t)
    case Unparsed(text) => text
  }

  // ----- parseUnixTimestamp -----

  /** A JavaScript number. Only the part used here: finite values are exact reals
      (floating-point rounding is not modelled). */
  datatype JsNumber = NaN | Infinity | NegInfinity | Finite(value: real)

  const MAX_TIME: real := 8640000000000000.0

  /** `Math.trunc` */
  function Trunc(x: real): int {
    if x >= 0.0 then x.Floor else -((-x).Floor)
  }

  /** `new Date(x)` followed by the `isNaN(d.getTime())` test (TimeClip, ECMA-262 section
      21.4.1.31): `None` for NaN, infinities and times beyond 8.64e15 ms. */
  function DateFromNumber(x: JsNumber): (r: Option<int>)
    ensures r.Some? <==> x.Finite? && -MAX_TIME <= x.value <= MAX_TIME
  {
    match x
    case Finite(v) => if -MAX_TIME <= v <= MAX_TIME then Some(Trunc(v)) else None
    case _ => None
  }

  function Pow10(e: nat): (r: real)
    ensures r >= 1.0
  {
    if e == 0 then 1.0 else 10.0 * Pow10(e - 1)
  }

  /** `parseFloat(s)`: after leading white space, an optional sign and then "Infinity" or
      the longest prefix that is an unsigned decimal literal (ECMA-262, section 19.2.4). */
  function ParseFloat(text: string): JsNumber {
    var s := TrimStart(text);
    var neg := s != [] && s[0] == '-';
    var rest := if s != [] && (s[0] == '-' || s[0] == '+') then s[1..] else s;
    if StartsWith(rest, "Infinity") then (if neg then NegInfinity else Infinity)
    else match UnsignedDecimal(rest)
      case None => NaN
      case Some(x) => Finite(if neg then -x else x)
  }

  /** The longest prefix of the form `digits [. digits] [(e|E) [+|-] digits]` with at least
      one mantissa digit: its value, or `None` when there is none. */
  function UnsignedDecimal(s: string): Option<real> {
    var j := RunEnd(s, 0, IsDigit);
    var hasDot := j < |s| && s[j] == '.';
    var k := if hasDot then RunEnd(s, j + 1, IsDigit) else j;
    if j == 0 && (!hasDot || k == 1) then None
    else
      var frac := if hasDot then s[j + 1..k] else "";
      assert AllDigits(s[..j]) by { assert forall x | 0 <= x < j :: s[..j][x] == s[x]; }
      assert AllDigits(frac) by { assert forall x | 0 <= x < |frac| :: frac[x] == s[j + 1 + x]; }
      var mantissa := DigitsValue(s[..j]) as real + DigitsValue(frac) as real / Pow10(|frac|);
      var scale := ExponentScale(s[k..]);
      Some(mantissa * scale)
  }

  /** The factor an exponent part contributes; 1 when `s` does not start with one. */
  function ExponentScale(s: string): (r: real)
    ensures r > 0.0
  {
    if s != [] && (s[0] == 'e' || s[0] == 'E') then
      var t := s[1..];
      var neg := t != [] && t[0] == '-';
      var d := if t != [] && (t[0] == '-' || t[0] == '+') then 1 else 0;
      var m := RunEnd(t, d, IsDigit);
      if m == d then 1.0
      else
        assert AllDigits(t[d..m]) by { assert forall x | 0 <= x < m - d :: t[d..m][x] == t[d + x]; }
        var p := Pow10(DigitsValue(t[d..m]));
        if neg then 1.0 / p else p
    else 1.0
  }

  /** The argument of `parseUnixTimestamp`. */
  datatype UnixInput = NullValue | NumberValue(n: JsNumber) | StringValue(s: string) | OtherValue

  /** Values above 1e10 are taken as milliseconds, everything else as seconds. */
  const MILLIS_THRESHOLD: real := 10000000000.0

  /** `parseUnixTimestamp(value)` */
  function ParseUnixTimestamp(v: UnixInput): (r: Option<int>)
    ensures v.NullValue? || v.OtherValue? ==> r.None?
    ensures v.StringValue? && ParseFloat(v.s).NaN? ==> r.None?
    ensures forall x: real :: (v == NumberValue(Finite(x)) || (v.StringValue? && ParseFloat(v.s) == Finite(x))) ==>
      (x > MILLIS_THRESHOLD ==> r == DateFromNumber(Finite(x)))
      && (x <= MILLIS_THRESHOLD ==> r == DateFromNumber(Finite(x * 1000.0)))
  {
    var num :=
      match v
      case NumberValue(n) => n
      case StringValue(s) => ParseFloat(s)
      case _ => NaN;
    if v.NullValue? || v.OtherValue? then None
    else
      var scaled := match num
        case Finite(x) => if x > MILLIS_THRESHOLD then Finite(x / 1000.0) else num
        case _ => num;
      var ms := match scaled
        case Finite(x) => Finite(x * 1000.0)
        case _ => scaled;
      DateFromNumber(ms)
  }

  // ----- parseRelativeTimeZh -----

  /** `(\d+)\s*<unit>` matches at `p`: the digit run starting there, then white space,
      then the unit. (Backtracking cannot help: the units start with a CJK character.) */
  predicate UnitMatchAt(s: string, unit: string, p: nat) {
    p < |s| && IsDigit(s[p])
    && OccursAt(s, unit, RunEnd(s, RunEnd(s, p, IsDigit), IsSpace))
  }

  /** The first position in `[p, n)` that passes `test`: where a regular expression
      search finds its leftmost match. */
  function FirstFrom(test: nat -> bool, p: nat, n: nat): (r: Option<nat>)
    requires p <= n
    ensures r.Some? ==> p <= r.value < n
    decreases n - p
  {
    if p == n then None
    else if test(p) then Some(p)
    else FirstFrom(test, p + 1, n)
  }

  /** `FirstFrom` finds the leftmost position that passes, and none only when none does. */
  lemma {:induction false} FirstFromLeftmost(test: nat -> bool, p: nat, n: nat)
    requires p <= n
    ensures var r := FirstFrom(test, p, n);
      (r.Some? ==> test(r.value) && forall q | p <= q < r.value :: !test(q))
      && (r.None? ==> forall q | p <= q < n :: !test(q))
    decreases n - p
  {
    if p < n && !test(p) {
      FirstFromLeftmost(test, p + 1, n);
    }
  }

  /** The unit pattern as a test of positions in `s`. */
  function UnitTest(s: string, unit: string): nat -> bool {
    (q: nat) => UnitMatchAt(s, unit, q)
  }

  /** The first position at or after `p` where the unit pattern matches. */
  function FindUnit(s: string, unit: string, p: nat): (r: Option<nat>)
    requires p <= |s|
    ensures r.Some? ==> p <= r.value < |s|
  {
    FirstFrom(UnitTest(s, unit), p, |s|)
  }

  /** `FindUnit` finds the leftmost match, and finds none only when there is none. */
  lemma FindUnitLeftmost(s: string, unit: string, p: nat)
    requires p <= |s|
    ensures var r := FindUnit(s, unit, p);
      r.Some? ==> (UnitMatchAt(s, unit, r.value) && forall q | p <= q < r.value :: !UnitMatchAt(s, unit, q))
    ensures FindUnit(s, unit, p).None? ==> forall q | p <= q < |s| :: !UnitMatchAt(s, unit, q)
  {
    FirstFromLeftmost(UnitTest(s, unit), p, |s|);
    forall q ensures UnitTest(s, unit)(q) == UnitMatchAt(s, unit, q) {
    }
  }

  /** The number captured by a unit match at `p`. */
  function UnitValue(s: string, p: nat): nat
    requires p <= |s|
  {
    var j := RunEnd(s, p, IsDigit);
    DigitsValue(s[p..j])
  }

  /** `(\d{1,2}):(\d{2})` at `p`, greedy: two hour digits if they fit, else one. */
  function ClockAt(s: string, p: nat): Option<(nat, nat, nat)>
  {
    if p + 5 <= |s| && IsDigit(s[p]) && IsDigit(s[p + 1]) && s[p + 2] == ':' && IsDigit(s[p + 3]) && IsDigit(s[p + 4]) then
      Some((DigitsValue(s[p..p + 2]), DigitsValue(s[p + 3..p + 5]), p + 5))
    else if p + 4 <= |s| && IsDigit(s[p]) && s[p + 1] == ':' && IsDigit(s[p + 2]) && IsDigit(s[p + 3]) then
      Some((DigitsValue(s[p..p + 1]), DigitsValue(s[p + 2..p + 4]), p + 4))
    else None
  }

  /** The leftmost clock match at or after `p`: (hours, minutes, end). */
  function FindClock(s: string, p: nat): (r: Option<(nat, nat, nat)>)
    requires p <= |s|
    ensures r.Some? ==> exists q | p <= q < |s| :: ClockAt(s, q) == r
    decreases |s| - p
  {
    if p == |s| then None
    else if ClockAt(s, p).Some? then ClockAt(s, p)
    else FindClock(s, p + 1)
  }

  /** `^(?:今天)?\s*(\d{1,2}):(\d{2})$` on the whole (trimmed) text. */
  function AnchoredClock(s: string): Option<(nat, nat)> {
    var rest := if StartsWith(s, "今天") then s[2..] else s;
    var p := RunEnd(rest, 0, IsSpace);
    match ClockAt(rest, p)
    case Some((h, m, e)) => if e == |rest| then Some((h, m)) else None
    case None => None
  }

  /** `(\d{1,2})月(\d{1,2})日` at `p`: month and day, each greedy over one or two digits. */
  function MonthDayAt(s: string, p: nat): Option<(nat, nat)> {
    var mEnd := if p + 2 < |s| && IsDigit(s[p]) && IsDigit(s[p + 1]) && s[p + 2] == '月' then p + 2
      else if p + 1 < |s| && IsDigit(s[p]) && s[p + 1] == '月' then p + 1
      else p;
    if mEnd == p then None
    else
      var d := mEnd + 1;
      var dEnd := if d + 2 < |s| && IsDigit(s[d]) && IsDigit(s[d + 1]) && s[d + 2] == '日' then d + 2
        else if d + 1 < |s| && IsDigit(s[d]) && s[d + 1] == '日' then d + 1
        else d;
      if dEnd == d then None else Some((DigitsValue(s[p..mEnd]), DigitsValue(s[d..dEnd])))
  }

  /** The leftmost month-day match. The optional `\d{4}年\s*` prefix of the source pattern
      never changes the captured month and day: at a position where the prefixed form
      matches, no bare match starts inside the prefix, and the captures are those of the
      bare form just after it. */
  function FindMonthDay(s: string, p: nat): (r: Option<(nat, nat)>)
    requires p <= |s|
    decreases |s| - p
  {
    if p == |s| then None
    else if MonthDayAt(s, p).Some? then MonthDayAt(s, p)
    else FindMonthDay(s, p + 1)
  }

  const MINUTES_AGO: string := "分钟前"
  const HOURS_AGO: string := "小时前"
  const DAYS_AGO: string := "天前"

  predicate NoUnit(s: string) {
    FindUnit(s, MINUTES_AGO, 0).None? && FindUnit(s, HOURS_AGO, 0).None? && FindUnit(s, DAYS_AGO, 0).None?
  }

  /** "N分钟前", "N小时前" and "N天前", tried in that order. */
  function UnitsAgo(s: string, now: int): (r: Option<int>)
    ensures r.None? <==> NoUnit(s)
    ensures r.Some? ==> r.value <= now
    ensures FindUnit(s, MINUTES_AGO, 0).Some? ==>
      r == Some(now - UnitValue(s, FindUnit(s, MINUTES_AGO, 0).value) * MINUTE)
    ensures (FindUnit(s, MINUTES_AGO, 0).None? && FindUnit(s, HOURS_AGO, 0).Some?) ==>
      r == Some(now - UnitValue(s, FindUnit(s, HOURS_AGO, 0).value) * HOUR)
    ensures (FindUnit(s, MINUTES_AGO, 0).None? && FindUnit(s, HOURS_AGO, 0).None? && FindUnit(s, DAYS_AGO, 0).Some?) ==>
      r == Some(now - UnitValue(s, FindUnit(s, DAYS_AGO, 0).value) * DAY)
  {
    match FindUnit(s, MINUTES_AGO, 0)
    case Some(p) => Some(now - UnitValue(s, p) * MINUTE)
    case None => match FindUnit(s, HOURS_AGO, 0)
      case Some(p) => Some(now - UnitValue(s, p) * HOUR)
      case None => match FindUnit(s, DAYS_AGO, 0)
        case Some(p) => Some(now - UnitValue(s, p) * DAY)
        case None => None
  }

  /** "昨天", optionally with a clock time taken from anywhere in the text. */
  function Yesterday(s: string, now: int, offset: int): int {
    var yesterday := AddDays(now, -1);
    match FindClock(s, 0)
    case Some((h, m, _)) => SetHours(yesterday, offset, h, m)
    case None => yesterday
  }

  /** The anchored "今天 HH:MM" form, then "M月D日". */
  function ClockOrMonthDay(s: string, now: int, offset: int): Option<int> {
    match AnchoredClock(s)
    case Some((h, m)) => Some(ClockCandidate(now, offset, h, m))
    case None => match FindMonthDay(s, 0)
      case Some((month, day)) => Some(MonthDayDate(now, offset, month, day))
      case None => None
  }

  /** `parseRelativeTimeZh(text, now)` for a local zone `offset` ms east of UTC. */
  function ParseRelativeTimeZh(text: string, now: int, offset: int): (r: Option<int>)
    ensures Trim(text) == [] ==> r.None?
    ensures Trim(text) != [] && !NoUnit(Trim(text)) ==> r == UnitsAgo(Trim(text), now)
    ensures (Trim(text) != [] && NoUnit(Trim(text)) && Contains(Trim(text), "刚刚")) ==> r == Some(now)
    ensures (Trim(text) != [] && NoUnit(Trim(text)) && !Contains(Trim(text), "刚刚") && Contains(Trim(text), "昨天")) ==>
      r == Some(Yesterday(Trim(text), now, offset))
    ensures (Trim(text) != [] && NoUnit(Trim(text)) && !Contains(Trim(text), "刚刚") && !Contains(Trim(text), "昨天")) ==>
      r == ClockOrMonthDay(Trim(text), now, offset)
  {
    var s := Trim(text);
    if s == [] then None
    else match UnitsAgo(s, now)
      case Some(t) => Some(t)
      case None =>
        if Contains(s, "刚刚") then Some(now)
        else if Contains(s, "昨天") then Some(Yesterday(s, now, offset))
        else ClockOrMonthDay(s, now, offset)
  }

  /** The digit run at the start of `ds + rest` is exactly `ds`. */
  lemma {:induction false} RunEndOfDigits(ds: string, rest: string, i: nat)
    requires AllDigits(ds) && i <= |ds|
    requires rest == [] || !IsDigit(rest[0])
    ensures RunEnd(ds + rest, i, IsDigit) == |ds|
    decreases |ds| - i
  {
    var s := ds + rest;
    if i < |ds| {
      assert s[i] == ds[i];
      RunEndOfDigits(ds, rest, i + 1);
    } else if rest != [] {
      assert s[i] == rest[0];
    }
  }

  /** "N分钟前" reads back as N minutes before `now`, for a valid `now` and a result that is
      still a valid date: there `now - N * 60000` is computed exactly even in floating
      point, so the source returns that time. */
  lemma MinutesAgoReadsBack(ds: string, now: int, offset: int)
    requires ds != [] && AllDigits(ds)
    requires -MAX_TIME <= now as real <= MAX_TIME
    requires (now - DigitsValue(ds) * MINUTE) as real >= -MAX_TIME
    ensures ParseRelativeTimeZh(ds + MINUTES_AGO, now, offset) == Some(now - DigitsValue(ds) * MINUTE)
  {
    var s := ds + MINUTES_AGO;
    MinutesPhraseMatches(ds);
    assert !NoUnit(s);
    assert UnitsAgo(s, now) == Some(now - DigitsValue(ds) * MINUTE);
    MinutesPhraseTrimmed(ds);
  }

  lemma MinutesPhraseTrimmed(ds: string)
    requires ds != [] && AllDigits(ds)
    ensures Trim(ds + MINUTES_AGO) == ds + MINUTES_AGO
  {
    var s := ds + MINUTES_AGO;
    assert s[0] == ds[0] && s[|s| - 1] == '前';
    TrimOfTrimmed(s);
  }

  lemma MinutesPhraseMatches(ds: string)
    requires ds != [] && AllDigits(ds)
    ensures FindUnit(ds + MINUTES_AGO, MINUTES_AGO, 0) == Some(0)
    ensures UnitValue(ds + MINUTES_AGO, 0) == DigitsValue(ds)
  {
    var s := ds + MINUTES_AGO;
    RunEndOfDigits(ds, MINUTES_AGO, 0);
    assert RunEnd(s, |ds|, IsSpace) == |ds| by { assert s[|ds|] == MINUTES_AGO[0]; }
    assert s[|ds|..|ds| + |MINUTES_AGO|] == MINUTES_AGO;
    assert UnitMatchAt(s, MINUTES_AGO, 0);
    assert s[0..|ds|] == ds;
  }

  /** Today at hh:mm, or yesterday when that is more than five minutes ahead of `now`. */
  function ClockCandidate(now: int, offset: int, h: nat, m: nat): int {
    var candidate := SetHours(now, offset, h, m);
    if candidate > now + 5 * MINUTE then AddDays(candidate, -1) else candidate
  }

  /** This year's month/day at local midnight, or last year's when this year's lies more
      than two days ahead of `now`. */
  function MonthDayDate(now: int, offset: int, month: nat, day: nat): int {
    var year := LocalYear(now, offset);
    var candidate := LocalDate(year, month - 1, day, offset);
    if candidate > now + 2 * DAY then LocalDate(year - 1, month - 1, day, offset) else candidate
  }

  /** For a month and day that exist in this year and the last, "M月D日" is local midnight
      of that month and day, never more than two days after `now`; it falls in last year
      exactly when this year's date lies more than two days ahead, so it is the later of
      the two dates that is not. */
  lemma MonthDayDateMeaning(now: int, offset: int, month: nat, day: nat)
    requires ValidCivil(Civil(LocalYear(now, offset), month, day)) && FourDigitYear(LocalYear(now, offset))
    requires ValidCivil(Civil(LocalYear(now, offset) - 1, month, day)) && FourDigitYear(LocalYear(now, offset) - 1)
    ensures var year := LocalYear(now, offset);
      var r := MonthDayDate(now, offset, month, day);
      var c := CivilFromDays(LocalDay(r, offset));
      c.month == month && c.day == day && (c.year == year || c.year == year - 1)
      && r <= now + 2 * DAY
      && (c.year == year - 1 <==> LocalDate(year, month - 1, day, offset) > now + 2 * DAY)
  {
    var year := LocalYear(now, offset);
    var candidate := LocalDate(year, month - 1, day, offset);
    var r := MonthDayDate(now, offset, month, day);
    MonthDayDateCases(now, offset, month, day);
    if candidate > now + 2 * DAY {
      LocalDateReadsBack(year - 1, month, day, offset);
      LastYearPassed(now, offset, month, day);
      assert StartOfLocalDay(now, offset) <= now;
    } else {
      LocalDateReadsBack(year, month, day, offset);
    }
  }

  /** The two cases of `MonthDayDate`, stated on their own. */
  lemma MonthDayDateCases(now: int, offset: int, month: nat, day: nat)
    ensures var year := LocalYear(now, offset);
      var candidate := LocalDate(year, month - 1, day, offset);
      MonthDayDate(now, offset, month, day)
        == if candidate > now + 2 * DAY then LocalDate(year - 1, month - 1, day, offset) else candidate
  {
  }

  /** The rule looks no further than the current year: on the last day of 2025, "1月1日"
      is January 1 of 2025 although January 1 of 2026 is less than a day ahead. */
  lemma MonthDayDateAtYearEnd()
    ensures var now := DaysFromCivil(2025, 12, 31) * DAY + 12 * HOUR;
      LocalYear(now, 0) == 2025
      && MonthDayDate(now, 0, 1, 1) == LocalDate(2025, 0, 1, 0)
      && now < LocalDate(2026, 0, 1, 0) <= now + 2 * DAY
  {
    var z := DaysFromCivil(2025, 12, 31);
    assert z == 20453;
    assert DaysFromCivil(2026, 1, 1) == 20454;
    assert DaysFromCivil(2025, 1, 1) == 20089;
    var now := z * DAY + 12 * HOUR;
    QuotDay(now, z);
    CivilOfDays(2025, 12, 31);
    LocalDateDays(2025, 1, 1, 0);
    LocalDateDays(2026, 1, 1, 0);
    MonthDayDateCases(now, 0, 1, 1);
  }

  /** A time of day within range never lies more than five minutes ahead of `now`. */
  lemma ClockCandidateBound(now: int, offset: int, h: nat, m: nat)
    requires h <= 23 && m <= 59
    ensures ClockCandidate(now, offset, h, m) <= now + 5 * MINUTE
  {
    assert h * HOUR + m * MINUTE < DAY;
  }

  /** The pattern accepts hours up to 99, and "今天 99:00" lands days ahead of `now`. */
  lemma ClockCandidateOutOfRange(now: int, offset: int)
    ensures AnchoredClock("今天 99:00") == Some((99, 0))
    ensures ClockCandidate(now, offset, 99, 0) > now + 2 * DAY
  {
    var s := "今天 99:00";
    assert StartsWith(s, "今天");
    var rest := s[2..];
    assert rest == " 99:00";
    assert RunEnd(rest, 1, IsSpace) == 1;
    assert RunEnd(rest, 0, IsSpace) == 1;
    assert rest[1..3] == "99" && rest[4..6] == "00";
    assert DigitsValue("9") == 9;
    assert DigitsValue("99") == 99;
    assert DigitsValue("0") == 0;
    assert DigitsValue("00") == 0;
  }

  // ----- parseDate -----

  /** The argument of `parseDate`: `null`, a `Date`, a number, or anything else (given as
      its `String(value)` text). */
  datatype DateInput = NoValue | DateObject(ms: int) | Number(n: JsNumber) | Text(s: string)

  /** The general parser of the dayjs library, including the TechURLs "YYYY-MM-DD h:mm:ssA UTC"
      form tried first (date.ts, lines 136-147). */
  type GeneralParser = string -> Option<int>

  /** `/^\d{9,}$/`: the union of the two all-digit tests. */
  predicate LongDigits(s: string) {
    |s| >= 9 && AllDigits(s)
  }

  /** `parseDate(value, now)`: nulls, then dates, numbers, "$D" stripping, long digit strings
      as unix times, relative phrases, and finally the general parser. */
  function ParseDate(value: DateInput, now: int, offset: int, general: GeneralParser): (r: Option<int>)
    ensures value.NoValue? ==> r.None?
    ensures value.DateObject? ==> r == Some(value.ms)
    ensures value.Number? ==> r == ParseUnixTimestamp(NumberValue(value.n))
    ensures value.Text? && Trim(value.s) == [] ==> r.None?
    ensures value.Text? && Trim(value.s) != [] ==>
      var str := DollarStripped(Trim(value.s));
      if LongDigits(str) then r == ParseUnixTimestamp(NumberValue(Finite(DigitsValue(str) as real)))
      else if ParseRelativeTimeZh(str, now, offset).Some? then r == ParseRelativeTimeZh(str, now, offset)
      else r == general(str)
  {
    match value
    case NoValue => None
    case DateObject(ms) => Some(ms)
    case Number(n) => ParseUnixTimestamp(NumberValue(n))
    case Text(text) =>
      var s := Trim(text);
      if s == [] then None
      else
        var str := DollarStripped(s);
        if LongDigits(str) then ParseUnixTimestamp(NumberValue(Finite(DigitsValue(str) as real)))
        else match ParseRelativeTimeZh(str, now, offset)
          case Some(t) => Some(t)
          case None => general(str)
  }

  /** The text with a leading "$D" (the React Server Components date marker) removed. */
  function DollarStripped(s: string): (r: string)
    ensures StartsWith(s, "$D") ==> r == s[2..]
    ensures !StartsWith(s, "$D") ==> r == s
  {
    if StartsWith(s, "$D") then s[2..] else s
  }

  /** A long digit string is read as unix seconds up to 1e10 and as milliseconds above. */
  lemma LongDigitsAsUnixTime(value: string, now: int, offset: int, general: GeneralParser)
    requires LongDigits(value)
    ensures var n := DigitsValue(value) as real;
      ParseDate(Text(value), now, offset, general)
        == (if n > MILLIS_THRESHOLD then DateFromNumber(Finite(n)) else DateFromNumber(Finite(n * 1000.0)))
  {
    var s := Trim(value);
    assert s == value by {
      assert !IsSpace(value[0]) && !IsSpace(value[|value| - 1]);
      TrimOfTrimmed(value);
    }
    assert !StartsWith(value, "$D") by { assert IsDigit(value[0]); }
  }
}
