/**
 The time text of scheduled sends: messages/schedule.ts `toD1Timestamp`, `toIsoFromD1` and
 `resolveScheduleInstant`, and the instant check of contracts/api/drafts.ts.
 */
module Schedule {
  import opened Calendar
  import opened JsonText
  import opened Timestamps
  import opened Options

  const SCHEDULE_MIN_LEAD_SECONDS := 90
  const SCHEDULE_MAX_LEAD_SECONDS := 30 * 24 * 60 * 60

  const DASH: Units := [45]
  const SPACE: Units := [32]
  const COLONS: Units := [58]
  const TEE: Units := [84]
  const ZED: Units := [90]
  const POINT: Units := [46]

  // ------------------------------------------------------------------ an instant in text

  predicate FourDigitYear(t: int) {
    1000 <= CivilOf(t / 1000 / 86400).year <= 9999
  }

  /** The date and time of a whole second; `between` stands between date and time. */
  function SecondFields(second: int, between: Units): seq<Field>
    requires 0 <= CivilOf(second / 86400).year
  {
    var c := CivilOf(second / 86400);
    var s := second % 86400;
    CivilIsReal(second / 86400);
    [Field(c.year, 4, DASH), Field(c.month, 2, DASH), Field(c.date, 2, between),
     Field(s / 3600, 2, COLONS), Field(s % 3600 / 60, 2, COLONS), Field(s % 60, 2, [])]
  }

  function ToD1Timestamp(t: int): Units
    requires FourDigitYear(t)
  {
    Show(SecondFields(t / 1000, SPACE)) + POINT + Digits(t % 1000, 3)
  }

  /** What SQLite's CURRENT_TIMESTAMP gives: no fraction. */
  function CurrentTimestamp(t: int): Units
    requires FourDigitYear(t)
  {
    Show(SecondFields(t / 1000, SPACE))
  }

  /** toISOString, for a year of four digits. */
  function ToIso(t: int): Units
    requires FourDigitYear(t)
  {
    Show(SecondFields(t / 1000, TEE)) + POINT + Digits(t % 1000, 3) + ZED
  }

  lemma SecondFieldsFit(second: int, between: Units)
    requires 0 <= CivilOf(second / 86400).year <= 9999
    ensures InRange(SecondFields(second, between))
  {
    hide CivilOf;
    CivilIsReal(second / 86400);
    var c := CivilOf(second / 86400);
    assert c.date <= 31;
    assert Pow10(2) == 100 && Pow10(4) == 10000;
  }

  lemma Split(x: int, y: int, k: int)
    requires k == 86400 || k == 3600 || k == 60 || k == 1000
    requires x < y
    ensures x / k < y / k || (x / k == y / k && x % k < y % k)
  {
  }

  lemma MinuteParts(s: int)
    requires 0 <= s < 86400
    ensures s % 60 == s % 3600 % 60
  {
    assert s == 3600 * (s / 3600) + s % 3600;
    assert s % 3600 == 60 * (s % 3600 / 60) + s % 3600 % 60;
  }

  lemma SecondsAreOrdered(x: int, y: int, between: Units)
    requires x < y && 0 <= CivilOf(x / 86400).year && 0 <= CivilOf(y / 86400).year
    ensures SameShape(SecondFields(x, between), SecondFields(y, between))
    ensures FieldsLess(SecondFields(x, between), SecondFields(y, between))
  {
    hide CivilOf;
    CivilIsReal(x / 86400);
    CivilIsReal(y / 86400);
    Split(x, y, 86400);
    var a, b := SecondFields(x, between), SecondFields(y, between);
    if x / 86400 < y / 86400 {
      CivilIsOrdered(x / 86400, y / 86400);
      DateDecides(a, b);
    } else {
      var s, r := x % 86400, y % 86400;
      Split(s, r, 3600);
      if s / 3600 == r / 3600 { Split(s % 3600, r % 3600, 60); }
      MinuteParts(s);
      MinuteParts(r);
      TimeDecides(a, b);
    }
  }

  lemma DateDecides(a: seq<Field>, b: seq<Field>)
    requires SameShape(a, b) && |a| == 6
    requires a[0].value < b[0].value
             || (a[0].value == b[0].value
                && (a[1].value < b[1].value || (a[1].value == b[1].value && a[2].value < b[2].value)))
    ensures FieldsLess(a, b)
  {
    assert a[1..][0] == a[1] && b[1..][0] == b[1] && a[1..][1..][0] == a[2] && b[1..][1..][0] == b[2];
  }

  lemma TimeDecides(a: seq<Field>, b: seq<Field>)
    requires SameShape(a, b) && |a| == 6
    requires a[0].value == b[0].value && a[1].value == b[1].value && a[2].value == b[2].value
    requires a[3].value < b[3].value
             || (a[3].value == b[3].value
                && (a[4].value < b[4].value || (a[4].value == b[4].value && a[5].value < b[5].value)))
    ensures FieldsLess(a, b)
  {
    assert a[1..][1..][1..] == a[3..] && b[1..][1..][1..] == b[3..];
    assert a[3..][1..] == a[4..] && b[3..][1..] == b[4..] && a[4..][1..] == a[5..] && b[4..][1..] == b[5..];
    assert a[3..][0] == a[3] && b[3..][0] == b[3];
    assert a[1..][0] == a[1] && b[1..][0] == b[1] && a[1..][1..][0] == a[2] && b[1..][1..][0] == b[2];
    assert FieldsLess(a[5..], b[5..]) <==> a[5].value < b[5].value;
    assert FieldsLess(a[4..], b[4..])
           <==> a[4].value < b[4].value || (a[4].value == b[4].value && a[5].value < b[5].value);
    assert FieldsLess(a[3..], b[3..]);
    assert FieldsLess(a[1..][1..], b[1..][1..]);
    assert FieldsLess(a[1..], b[1..]);
  }

  /** Main result: stored instants are ordered by their text exactly as they are in time. */
  lemma TextOrderIsTimeOrder(t: int, u: int)
    requires FourDigitYear(t) && FourDigitYear(u)
    ensures Less(ToD1Timestamp(t), ToD1Timestamp(u)) <==> t < u
  {
    hide FourDigitYear, ToD1Timestamp;
    if t < u {
      EarlierIsLess(t, u);
    } else if u < t {
      EarlierIsLess(u, t);
      LessIsAsymmetric(ToD1Timestamp(t), ToD1Timestamp(u));
    } else {
      LessIsAsymmetric(ToD1Timestamp(t), ToD1Timestamp(t));
    }
  }

  lemma EarlierIsLess(t: int, u: int)
    requires FourDigitYear(t) && FourDigitYear(u) && t < u
    ensures Less(ToD1Timestamp(t), ToD1Timestamp(u))
  {
    hide CivilOf, SecondFields;
    Split(t, u, 1000);
    var a, b := SecondFields(t / 1000, SPACE), SecondFields(u / 1000, SPACE);
    var x, y := POINT + Digits(t % 1000, 3), POINT + Digits(u % 1000, 3);
    assert ToD1Timestamp(t) == Show(a) + x && ToD1Timestamp(u) == Show(b) + y;
    if t / 1000 < u / 1000 {
      SecondFieldsFit(t / 1000, SPACE);
      SecondFieldsFit(u / 1000, SPACE);
      SecondsAreOrdered(t / 1000, u / 1000, SPACE);
      ShowLess(a, b, x, y);
    } else {
      assert Pow10(3) == 1000;
      DigitsLess(t % 1000, u % 1000, 3, [], []);
      assert Digits(t % 1000, 3) + [] == Digits(t % 1000, 3) && Digits(u % 1000, 3) + [] == Digits(u % 1000, 3);
      LessAfterPrefix(POINT, Digits(t % 1000, 3), Digits(u % 1000, 3));
      LessAfterPrefix(Show(a), x, y);
    }
  }

  /** `available_at <= CURRENT_TIMESTAMP`, compared as text. */
  predicate Due(availableAt: int, clock: int)
    requires FourDigitYear(availableAt) && FourDigitYear(clock)
  {
    !Less(CurrentTimestamp(clock), ToD1Timestamp(availableAt))
  }

  /**
   A stored instant has a fraction and CURRENT_TIMESTAMP has none, so a job becomes due when the clock
   reaches the second after the one it is scheduled in, and not before.
   */
  lemma DueFromTheNextSecond(availableAt: int, clock: int)
    requires FourDigitYear(availableAt) && FourDigitYear(clock)
    ensures Due(availableAt, clock) <==> availableAt / 1000 < clock / 1000
  {
    hide CivilOf, SecondFields;
    var a, b := SecondFields(availableAt / 1000, SPACE), SecondFields(clock / 1000, SPACE);
    var x := POINT + Digits(availableAt % 1000, 3);
    assert ToD1Timestamp(availableAt) == Show(a) + x && CurrentTimestamp(clock) == Show(b) + [];
    SecondFieldsFit(availableAt / 1000, SPACE);
    SecondFieldsFit(clock / 1000, SPACE);
    if availableAt / 1000 < clock / 1000 {
      SecondsAreOrdered(availableAt / 1000, clock / 1000, SPACE);
      ShowLess(a, b, x, []);
      LessIsAsymmetric(Show(a) + x, Show(b) + []);
    } else if clock / 1000 < availableAt / 1000 {
      SecondsAreOrdered(clock / 1000, availableAt / 1000, SPACE);
      ShowLess(b, a, [], x);
    } else {
      LessAfterPrefix(Show(a), [], x);
    }
  }

  // ------------------------------------------------------------------ reading it back

  predicate Matches(s: Units, fields: seq<Field>)
    decreases |fields|
  {
    if fields == [] then true
    else
      var f := fields[0];
      var n := f.width + |f.after|;
      |s| >= n && AreDigits(s[..f.width]) && s[f.width..n] == f.after && Matches(s[n..], fields[1..])
  }

  /** The numbers at the places where `shape` has fields. */
  function Values(s: Units, shape: seq<Field>): seq<int>
    requires Matches(s, shape)
    decreases |shape|
  {
    if shape == [] then []
    else [NumberOf(s[..shape[0].width])] + Values(s[shape[0].width + |shape[0].after|..], shape[1..])
  }

  const SHAPE: seq<Field> := [
    Field(0, 4, DASH), Field(0, 2, DASH), Field(0, 2, SPACE), Field(0, 2, COLONS), Field(0, 2, COLONS), Field(0, 2, [])]

  /** /^\d{4}-\d{2}-\d{2} \d{2}:\d{2}:\d{2}(\.\d{1,6})?$/ */
  predicate StoredShape(s: Units) {
    Matches(s, SHAPE)
    && (|s| == 19 || (21 <= |s| <= 26 && s[19] == 46 && AreDigits(s[20..])))
  }

  /** The instant of six numbers, if they name one. */
  function InstantOf(v: seq<int>): Option<int>
    requires |v| == 6
  {
    if Real(Civil(v[0], v[1], v[2])) && 0 <= v[3] < 24 && 0 <= v[4] < 60 && 0 <= v[5] < 60
    then Some(MakeDay(v[0], v[1], v[2]) * MS_PER_DAY + v[3] * 3_600_000 + v[4] * 60_000 + v[5] * 1000)
    else None
  }

  lemma ValuesLength(s: Units, shape: seq<Field>)
    requires Matches(s, shape)
    ensures |Values(s, shape)| == |shape|
    decreases |shape|
  {
    if shape != [] {
      ValuesLength(s[shape[0].width + |shape[0].after|..], shape[1..]);
    }
  }

  /** toIsoFromD1 up to the Date it makes, for text without a T: the fraction is not looked at. */
  function FromD1(s: Units): Option<int> {
    if !StoredShape(s) then None
    else
      ValuesLength(s, SHAPE);
      InstantOf(Values(s, SHAPE))
  }

  lemma {:induction false} ShowMatches(fields: seq<Field>, shape: seq<Field>, rest: Units)
    requires SameShape(fields, shape) && InRange(fields)
    ensures Matches(Show(fields) + rest, shape)
    ensures |Values(Show(fields) + rest, shape)| == |fields|
    ensures forall i :: 0 <= i < |fields| ==> Values(Show(fields) + rest, shape)[i] == fields[i].value
    decreases |fields|
  {
    if fields != [] {
      var f := fields[0];
      var s := Show(fields) + rest;
      var n := f.width + |f.after|;
      DigitsRead(f.value, f.width);
      assert s == Digits(f.value, f.width) + f.after + (Show(fields[1..]) + rest);
      assert s[..f.width] == Digits(f.value, f.width);
      assert s[f.width..n] == f.after;
      assert s[n..] == Show(fields[1..]) + rest;
      ShowMatches(fields[1..], shape[1..], rest);
    }
  }

  lemma SecondsRebuilt(s: int)
    requires 0 <= s < 86400
    ensures 0 <= s / 3600 < 24 && 0 <= s % 3600 / 60 < 60 && 0 <= s % 60 < 60
    ensures s / 3600 * 3600 + s % 3600 / 60 * 60 + s % 60 == s
  {
    MinuteParts(s);
  }

  lemma StoredTextMatches(t: int)
    requires FourDigitYear(t)
    ensures var fields := SecondFields(t / 1000, SPACE);
            var s := ToD1Timestamp(t);
            StoredShape(s) && |Values(s, SHAPE)| == 6 == |fields| && forall i :: 0 <= i < 6 ==>
                Values(s, SHAPE)[i] == fields[i].value
  {
    hide CivilOf, Matches, Values, Digits, Show;
    var fields := SecondFields(t / 1000, SPACE);
    var rest := POINT + Digits(t % 1000, 3);
    var s := ToD1Timestamp(t);
    assert s == Show(fields) + rest;
    SecondFieldsFit(t / 1000, SPACE);
    ShowMatches(fields, SHAPE, rest);
    ShowLength(fields);
    assert Pow10(3) == 1000;
    DigitsRead(t % 1000, 3);
    assert s[19] == 46 && s[20..] == Digits(t % 1000, 3);
  }

  lemma FieldsGiveInstant(second: int, v: seq<int>)
    requires 0 <= CivilOf(second / 86400).year && |v| == 6
    requires forall i :: 0 <= i < 6 ==> v[i] == SecondFields(second, SPACE)[i].value
    ensures InstantOf(v) == Some(second * 1000)
  {
    hide CivilOf, MakeDay, Real;
    var day, s := second / 86400, second % 86400;
    CivilIsReal(day);
    SecondsRebuilt(s);
    var fields := SecondFields(second, SPACE);
    assert v[0] == fields[0].value && v[1] == fields[1].value && v[2] == fields[2].value;
    assert v[3] == fields[3].value && v[4] == fields[4].value && v[5] == fields[5].value;
    assert Civil(v[0], v[1], v[2]) == CivilOf(day);
  }

  /** Main result: what is read back is the stored instant, floored to the second. */
  lemma StoredInstantReadsBack(t: int)
    requires FourDigitYear(t)
    ensures FromD1(ToD1Timestamp(t)) == Some(t - t % 1000)
  {
    hide CivilOf, ToD1Timestamp, SecondFields, InstantOf, Matches, Values, AreDigits;
    StoredTextMatches(t);
    FieldsGiveInstant(t / 1000, Values(ToD1Timestamp(t), SHAPE));
  }

  lemma ShowLength(fields: seq<Field>)
    requires SameShape(fields, SHAPE)
    ensures |Show(fields)| == 19
  {
    assert fields[1..][1..][1..][1..][1..][1..] == [];
    assert |Show(fields[1..][1..][1..][1..][1..])| == 2;
    assert |Show(fields[1..][1..][1..][1..])| == 5;
    assert |Show(fields[1..][1..][1..])| == 8;
    assert |Show(fields[1..][1..])| == 11;
    assert |Show(fields[1..])| == 14;
  }

  /** toIsoFromD1, for stored text in a year of four digits. */
  function ToIsoFromD1(s: Units): Option<Units> {
    if FromD1(s).Some? && FourDigitYear(FromD1(s).value) then Some(ToIso(FromD1(s).value)) else None
  }

  lemma StoredTextReadsBack(t: int)
    requires FourDigitYear(t)
    ensures FourDigitYear(t - t % 1000) && ToIsoFromD1(ToD1Timestamp(t)) == Some(ToIso(t - t % 1000))
  {
    hide CivilOf, FromD1, ToIso, ToD1Timestamp;
    StoredInstantReadsBack(t);
    assert (t - t % 1000) / 1000 == t / 1000;
  }

  // ------------------------------------------------------------------ the schedule window

  /** `resolveScheduleInstant` for text that parses to `instant`. */
  function ResolveScheduleInstant(instant: int, now: int): Option<Units>
    requires FourDigitYear(instant)
  {
    var offsetSeconds := (instant - now) / 1000;
    if offsetSeconds < SCHEDULE_MIN_LEAD_SECONDS || offsetSeconds > SCHEDULE_MAX_LEAD_SECONDS then None
    else Some(ToD1Timestamp(instant))
  }

  /**
   The window, in milliseconds: its upper end is one second less a millisecond beyond 30 days.  An accepted
   instant reads back exact to the second, and its job is not due for at least 90 seconds.
   */
  lemma ScheduleWindow(instant: int, now: int, clock: int)
    requires FourDigitYear(instant) && FourDigitYear(clock)
    ensures ResolveScheduleInstant(instant, now).Some? <==> 90_000 <= instant - now < 2_592_001_000
    ensures ResolveScheduleInstant(instant, now).Some? ==>
              FromD1(ResolveScheduleInstant(instant, now).value) == Some(instant - instant % 1000)
              && (Due(instant, clock) ==> clock - now > 90_000)
  {
    hide FourDigitYear, ToD1Timestamp, FromD1, Due;
    StoredInstantReadsBack(instant);
    DueFromTheNextSecond(instant, clock);
  }

  // ------------------------------------------------------------------ the contract's instant check

  /** The numbers of a text that matches ISO_PARTS_RE; every two-digit field may hold anything up to 99. */
  datatype Parts = Parts(
    year: int, month: int, day: int, hour: int, minute: int, second: int, millis: int,
    zed: bool, negative: bool, offsetHours: int, offsetMinutes: int)

  predicate FromText(p: Parts) {
    0 <= p.year <= 9999 && 0 <= p.month < 100 && 0 <= p.day < 100 && 0 <= p.hour < 100 && 0 <= p.minute < 100
    && 0 <= p.second < 100 && 0 <= p.millis < 1000 && 0 <= p.offsetHours < 100 && 0 <= p.offsetMinutes < 100
  }

  /** `parseIsoOffsetMinutes` */
  function OffsetMinutes(p: Parts): int {
    if p.zed then 0 else (if p.negative then -1 else 1) * (p.offsetHours * 60 + p.offsetMinutes)
  }

  function TimeOfDay(p: Parts): int {
    p.hour * 3_600_000 + p.minute * 60_000 + p.second * 1000 + p.millis
  }

  /** Date.UTC: the years 0 to 99 stand for 1900 to 1999. */
  function UtcDay(p: Parts): int {
    MakeDay(if 0 <= p.year <= 99 then 1900 + p.year else p.year, p.month, p.day)
  }

  /** The refinement of IsoInstantWithOffsetSchema. */
  predicate Accepts(p: Parts) {
    var utc := UtcDay(p) * MS_PER_DAY + TimeOfDay(p) - OffsetMinutes(p) * 60_000;
    CivilOf(utc / MS_PER_DAY) == Civil(p.year, p.month, p.day)
  }

  lemma DayOfSum(day: int, time: int)
    ensures (day * MS_PER_DAY + time) / MS_PER_DAY == day + time / MS_PER_DAY
  {
  }

  /** Two-digit years land in another century: no time of day or offset brings them back. */
  lemma TwoDigitYearIsFar(p: Parts, shift: int)
    requires FromText(p) && p.year <= 99 && -10 <= shift <= 10
    ensures CivilOf(UtcDay(p) + shift).year != p.year
  {
    hide FirstDay, Leap, DaysInYear, MakeDay, CivilOf, YearOf, MonthFrom;
    var day := UtcDay(p) + shift;
    MakeDayIsLate(1900 + p.year, p.month, p.day);
    YearsAreOrdered(p.year + 1, 1899 + p.year);
    CivilParts(day);
    assert FirstDay(YearOf(day)) <= day < FirstDay(YearOf(day) + 1);
  }

  /** Month 0 is the December before, and date 0 the day before. */
  lemma MakeDayIsLate(year: int, month: int, date: int)
    requires 0 <= month && 0 <= date
    ensures MakeDay(year, month, date) >= FirstDay(year - 1) - 1
  {
    hide FirstDay, Leap, DaysInYear;
    var y := year + (month - 1) / 12;
    assert (month - 1) / 12 >= -1 && 0 <= (month - 1) % 12 < 12;
    MonthWithinYear((month - 1) % 12, Leap(y));
    if year - 1 < y {
      YearsAreOrdered(year - 1, y);
    }
  }

  /** Only the day itself has the date it was made from, and only if that date is real. */
  lemma DateComesBack(c: Civil, shift: int)
    ensures CivilOf(MakeDay(c.year, c.month, c.date) + shift) == c <==> Real(c) && shift == 0
  {
    hide MakeDay, CivilOf, Real;
    CivilIsReal(MakeDay(c.year, c.month, c.date) + shift);
    if Real(c) {
      RealIsCivil(c);
    }
  }

  lemma WithinDay(time: int)
    ensures time / MS_PER_DAY == 0 <==> 0 <= time < MS_PER_DAY
  {
  }

  /**
   Main result: the check accepts exactly the real dates from the year 100 on whose local day is also
   their UTC day.
   */
  lemma AcceptsExactly(p: Parts)
    requires FromText(p)
    ensures Accepts(p) <==>
            p.year >= 100 && Real(Civil(p.year, p.month, p.day))
            && 0 <= TimeOfDay(p) - OffsetMinutes(p) * 60_000 < MS_PER_DAY
  {
    hide MakeDay, CivilOf, Real, TimeOfDay, OffsetMinutes, UtcDay;
    var time := TimeOfDay(p) - OffsetMinutes(p) * 60_000;
    var shift := time / MS_PER_DAY;
    DayOfSum(UtcDay(p), time);
    WithinDay(time);
    if p.year <= 99 {
      ShiftIsSmall(p);
      TwoDigitYearIsFar(p, shift);
    } else {
      LaterYears(p);
      DateComesBack(Civil(p.year, p.month, p.day), shift);
    }
  }

  lemma LaterYears(p: Parts)
    requires p.year > 99
    ensures UtcDay(p) == MakeDay(p.year, p.month, p.day)
  {
    hide MakeDay;
  }

  lemma ShiftIsSmall(p: Parts)
    requires FromText(p)
    ensures -10 <= (TimeOfDay(p) - OffsetMinutes(p) * 60_000) / MS_PER_DAY <= 10
  {
    assert -6039 <= OffsetMinutes(p) <= 6039;
    assert 0 <= TimeOfDay(p) <= 99 * 3_600_000 + 99 * 60_000 + 99 * 1000 + 999;
  }

  /** For `Z` and times within the day, from the year 100 on, the check accepts exactly the real dates. */
  lemma ZedAcceptsRealDates(p: Parts)
    requires FromText(p) && p.zed && p.year >= 100 && p.hour < 24 && p.minute < 60 && p.second < 60
    ensures Accepts(p) <==> Real(Civil(p.year, p.month, p.day))
  {
    AcceptsExactly(p);
    hide Accepts, Real;
  }

  /** 2026-08-06T00:30:00+01:00 is an instant, and is refused: in UTC it is still the day before. */
  lemma RealInstantRefused()
    ensures var p := Parts(2026, 8, 6, 0, 30, 0, 0, false, false, 1, 0);
            FromText(p) && Real(Civil(p.year, p.month, p.day)) && !Accepts(p)
  {
    var p := Parts(2026, 8, 6, 0, 30, 0, 0, false, false, 1, 0);
    assert Real(Civil(2026, 8, 6));
    AcceptsExactly(p);
  }
}
