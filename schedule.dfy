/** The delivery-schedule rules of the checkout (src/components/CheckoutModal.jsx):
    well-formed date and hour strings, the offered hour slots, and the
    checks of a chosen slot against the local clock. The clock is a
    parameter; local calendar days are counted as day numbers. */
module Schedule {
  import opened Text

  // ---------------------------------------------------------------------
  // Well-formed strings

  /** `/^\d{4}-\d{2}-\d{2}$/`. */
  predicate IsValidDateStr(v: string) {
    |v| == 10 && AllDigits(v[..4]) && v[4] == '-' && AllDigits(v[5..7]) && v[7] == '-' && AllDigits(v[8..])
  }

  /** `/^(?:[01]\d|2[0-3]):00$/`. */
  predicate IsValidHourTimeStr(v: string) {
    |v| == 5 &&
    (((v[0] == '0' || v[0] == '1') && IsDigit(v[1])) || (v[0] == '2' && '0' <= v[1] <= '3')) &&
    v[2..] == ":00"
  }

  /** `${String(h).padStart(2, "0")}:00`. */
  function HourLabel(h: int): string {
    PadStart2(IntToString(h)) + ":00"
  }

  /** The hour of a well-formed slot: `Number` of its first two characters. */
  function SlotHour(v: string): (h: nat)
    requires IsValidHourTimeStr(v)
    ensures h < 24
  {
    DigitValue(v[0]) * 10 + DigitValue(v[1])
  }

  lemma HourLabelDigits(h: nat)
    requires h < 100
    ensures HourLabel(h) == [DigitChar(h / 10), DigitChar(h % 10)] + ":00"
  {
    if h >= 10 {
      assert NatToString(h / 10) == [DigitChar(h / 10)];
    }
  }

  /** Every hour of the day has a well-formed label that reads back as that hour. */
  lemma HourLabelValid(h: int)
    requires 0 <= h < 24
    ensures IsValidHourTimeStr(HourLabel(h)) && SlotHour(HourLabel(h)) == h
  {
    HourLabelDigits(h);
  }

  /** The hour pattern accepts exactly the labels of the hours 00 to 23. */
  lemma HourTimeIff(v: string)
    ensures IsValidHourTimeStr(v) <==> exists h :: 0 <= h < 24 && v == HourLabel(h)
  {
    if IsValidHourTimeStr(v) {
      var h := SlotHour(v);
      HourLabelDigits(h);
      assert h / 10 == DigitValue(v[0]) && h % 10 == DigitValue(v[1]);
      assert v == [v[0], v[1]] + ":00";
      assert DigitChar(h / 10) == v[0];
    }
    if exists h :: 0 <= h < 24 && v == HourLabel(h) {
      var h :| 0 <= h < 24 && v == HourLabel(h);
      HourLabelValid(h);
    }
  }

  /** `generateHourlyTimeOptions(start, end)`: one label per hour from start to end. */
  method GenerateHourlyTimeOptions(start: int, end: int) returns (options: seq<string>)
    ensures |options| == if end >= start then end - start + 1 else 0
    ensures forall i :: 0 <= i < |options| ==> options[i] == HourLabel(start + i)
  {
    options := [];
    var h := start;
    while h <= end
      invariant start <= h && (h <= end + 1 || h == start)
      invariant |options| == h - start
      invariant forall i :: 0 <= i < |options| ==> options[i] == HourLabel(start + i)
      decreases end - h
    {
      options := options + [HourLabel(h)];
      h := h + 1;
    }
  }

  /** Earlier hours have labels that sort first. */
  lemma HourLabelOrder(h: nat, k: nat)
    requires h < k < 100
    ensures LexLe(HourLabel(h), HourLabel(k)) && HourLabel(h) != HourLabel(k)
  {
    HourLabelDigits(h);
    HourLabelDigits(k);
    var a := HourLabel(h);
    var b := HourLabel(k);
    assert a[0] == DigitChar(h / 10) && b[0] == DigitChar(k / 10);
    assert a[1] == DigitChar(h % 10) && b[1] == DigitChar(k % 10);
    if h / 10 == k / 10 {
      assert a[1] < b[1];
      assert a[1..][0] == a[1] && b[1..][0] == b[1];
    } else {
      assert a[0] < b[0];
    }
  }

  predicate DefaultOptions(options: seq<string>) {
    |options| == 12 && forall i :: 0 <= i < |options| ==> options[i] == HourLabel(9 + i)
  }

  lemma DefaultOptionsEnds(options: seq<string>)
    requires DefaultOptions(options)
    ensures options[0] == "09:00" && options[11] == "20:00"
  {
    assert options[0] == "09:00" by {
      HourLabelDigits(9);
    }
    assert options[11] == "20:00" by {
      HourLabelDigits(20);
    }
  }

  lemma DefaultOptionsValid(options: seq<string>)
    requires DefaultOptions(options)
    ensures forall i :: 0 <= i < 12 ==> IsValidHourTimeStr(options[i]) && SlotHour(options[i]) == 9 + i
  {
    forall i | 0 <= i < 12
      ensures IsValidHourTimeStr(options[i]) && SlotHour(options[i]) == 9 + i
    {
      HourLabelValid(9 + i);
    }
  }

  lemma DefaultOptionsSorted(options: seq<string>)
    requires DefaultOptions(options)
    ensures forall i, j :: 0 <= i < j < 12 ==> LexLe(options[i], options[j]) && options[i] != options[j]
  {
    forall i, j | 0 <= i < j < 12
      ensures LexLe(options[i], options[j]) && options[i] != options[j]
    {
      HourLabelOrder(9 + i, 9 + j);
    }
  }

  /** The offered slots, 09:00 to 20:00: twelve of them, sorted and distinct,
      each accepted by the hour pattern. */
  lemma DefaultOptionsShape(options: seq<string>)
    requires |options| == 12
    requires forall i :: 0 <= i < |options| ==> options[i] == HourLabel(9 + i)
    ensures options[0] == "09:00" && options[11] == "20:00"
    ensures forall i :: 0 <= i < 12 ==> IsValidHourTimeStr(options[i]) && SlotHour(options[i]) == 9 + i
    ensures forall i, j :: 0 <= i < j < 12 ==> LexLe(options[i], options[j]) && options[i] != options[j]
  {
    DefaultOptionsEnds(options);
    DefaultOptionsValid(options);
    DefaultOptionsSorted(options);
  }

  // ---------------------------------------------------------------------
  // Local calendar days

  /** Days since 1970-01-01 of a proleptic Gregorian date (month 1..12). */
  function DaysFromCivil(y: int, m: int, d: int): int
    requires 1 <= m <= 12
  {
    var y1 := if m <= 2 then y - 1 else y;
    var era := y1 / 400;
    var yoe := y1 - era * 400;
    var mp := if m > 2 then m - 3 else m + 9;
    var doy := (153 * mp + 2) / 5 + d - 1;
    var doe := yoe * 365 + yoe / 4 - yoe / 100 + doy;
    era * 146097 + doe - 719468
  }

  /** `new Date(y, ...)` reads a year from 0 to 99 as 1900 to 1999. */
  function JsFullYear(y: int): int {
    if 0 <= y <= 99 then 1900 + y else y
  }

  /** The local day of `new Date(y, monthIndex, d)`, with an out-of-range
      month or day carried into the following months and years. */
  function LocalDay(y: int, monthIndex: int, d: int): int {
    var yy := JsFullYear(y) + monthIndex / 12;
    var mm := monthIndex % 12;
    DaysFromCivil(yy, mm + 1, 1) + (d - 1)
  }

  /** The local clock reading: calendar month 1..12. */
  datatype LocalNow = LocalNow(year: int, month: int, day: int, hour: int, minute: int)

  /** Today's local midnight: `new Date(now.getFullYear(), now.getMonth(), now.getDate())`. */
  function TodayDay(now: LocalNow): int {
    LocalDay(now.year, now.month - 1, now.day)
  }

  /** `toLocalMidnight(dateStr)`: `new Date(y, m - 1, d)` of the string's numbers. */
  function SelectedDay(dateStr: string): int
    requires IsValidDateStr(dateStr)
  {
    LocalDay(DigitsValue(dateStr[..4]), DigitsValue(dateStr[5..7]) - 1, DigitsValue(dateStr[8..]))
  }

  predicate IsTodayOrLater(dateStr: string, now: LocalNow) {
    IsValidDateStr(dateStr) && SelectedDay(dateStr) >= TodayDay(now)
  }

  /** Defined next to `isTodayOrLater` but not used by the checkout. */
  predicate IsAtLeastTomorrow(dateStr: string, now: LocalNow) {
    IsValidDateStr(dateStr) && SelectedDay(dateStr) >= TodayDay(now) + 1
  }

  lemma TomorrowIsTodayOrLater(dateStr: string, now: LocalNow)
    requires IsAtLeastTomorrow(dateStr, now)
    ensures IsTodayOrLater(dateStr, now)
  {
  }

  /** On any day after today every well-formed slot is accepted, whatever the current hour. */
  lemma LaterDayAnySlot(dateStr: string, timeStr: string, now: LocalNow, isBulk: bool)
    requires IsAtLeastTomorrow(dateStr, now) && IsValidHourTimeStr(timeStr)
    ensures IsScheduleValid(true, isBulk, dateStr, timeStr, now)
  {
  }

  /** `isHourTimeValidForDate`: for today's date the slot may not lie before
      the current hour; any other date passes; ill-formed input fails. */
  predicate IsHourTimeValidForDate(dateStr: string, timeStr: string, now: LocalNow) {
    IsValidDateStr(dateStr) && IsValidHourTimeStr(timeStr) &&
    (SelectedDay(dateStr) == TodayDay(now) ==> SlotHour(timeStr) >= now.hour)
  }

  /** `isScheduleValid`: with the schedule hidden only a non-bulk order passes;
      with it shown the date must be today or later and the hour acceptable. */
  predicate IsScheduleValid(showSchedule: bool, isBulk: bool, dateStr: string, timeStr: string, now: LocalNow) {
    if !showSchedule then !isBulk
    else IsTodayOrLater(dateStr, now) && IsHourTimeValidForDate(dateStr, timeStr, now)
  }

  /** A shown schedule with a past date is rejected, even though its hour check passes. */
  lemma PastDateRejected(dateStr: string, timeStr: string, now: LocalNow, isBulk: bool)
    requires IsValidDateStr(dateStr) && IsValidHourTimeStr(timeStr)
    requires SelectedDay(dateStr) < TodayDay(now)
    ensures IsHourTimeValidForDate(dateStr, timeStr, now)
    ensures !IsScheduleValid(true, isBulk, dateStr, timeStr, now)
  {
  }

  /** The clock of the worked example: 2024-01-01 at 14:30. */
  function ExampleNow(): LocalNow {
    LocalNow(2024, 1, 1, 14, 30)
  }

  lemma Digits2024()
    ensures AllDigits("2024") && DigitsValue("2024") == 2024
  {
    assert "2024"[..3] == "202" && "202"[..2] == "20" && "20"[..1] == "2" && "2"[..0] == "";
  }

  lemma DigitsZeroLed(c: char)
    requires IsDigit(c)
    ensures AllDigits(['0', c]) && DigitsValue(['0', c]) == DigitValue(c)
  {
    var s := ['0', c];
    assert s[..1] == "0" && "0"[..0] == "";
  }

  /** Days of one month differ by their day numbers. */
  lemma LocalDayOffset(y: int, monthIndex: int, d: int)
    ensures LocalDay(y, monthIndex, d) == LocalDay(y, monthIndex, 1) + (d - 1)
  {
  }

  /** A January 2024 date string of a day from 1 to 9: the day offset from
      the example clock's day. */
  lemma JanuaryDate(s: string, c: char)
    requires '1' <= c <= '9' && |s| == 10 && s[..8] == "2024-01-" && s[8] == '0' && s[9] == c
    ensures IsValidDateStr(s) && SelectedDay(s) == TodayDay(ExampleNow()) + (DigitValue(c) - 1)
  {
    assert s[..4] == s[..8][..4] == "2024";
    assert s[5..7] == s[..8][5..7] == "01";
    assert s[8..] == ['0', c];
    Digits2024();
    DigitsZeroLed('1');
    DigitsZeroLed(c);
    assert SelectedDay(s) == LocalDay(2024, 0, DigitValue(c));
    LocalDayOffset(2024, 0, DigitValue(c));
  }

  /** The example clock's own date is its day. */
  lemma ExampleDate()
    ensures IsValidDateStr("2024-01-01") && SelectedDay("2024-01-01") == TodayDay(ExampleNow())
  {
    JanuaryDate("2024-01-01", '1');
  }

  /** The following date is the day after. */
  lemma ExampleNextDate()
    ensures IsValidDateStr("2024-01-02") && SelectedDay("2024-01-02") == TodayDay(ExampleNow()) + 1
  {
    JanuaryDate("2024-01-02", '2');
  }

  lemma ExampleToday()
    ensures IsTodayOrLater("2024-01-01", ExampleNow())
    ensures IsValidDateStr("2024-01-01") && SelectedDay("2024-01-01") == TodayDay(ExampleNow())
  {
    ExampleDate();
  }

  /** For a date that is today, a shown schedule is accepted exactly when the
      slot is not before the current hour. */
  lemma TodaySlotRule(dateStr: string, timeStr: string, now: LocalNow)
    requires IsValidDateStr(dateStr) && SelectedDay(dateStr) == TodayDay(now) && IsValidHourTimeStr(timeStr)
    ensures IsScheduleValid(true, true, dateStr, timeStr, now) <==> SlotHour(timeStr) >= now.hour
  {
  }

  /** At 14:30, an offered slot for today is accepted exactly from "14:00"
      on: the current hour itself still passes, "13:00" does not. */
  lemma ExampleTodayHours(h: int)
    requires 9 <= h <= 20
    ensures IsScheduleValid(true, true, "2024-01-01", HourLabel(h), ExampleNow()) <==> h >= 14
  {
    ExampleDate();
    HourLabelValid(h);
    TodaySlotRule("2024-01-01", HourLabel(h), ExampleNow());
  }

  /** Tomorrow every offered hour is accepted. */
  lemma ExampleTomorrow(h: int)
    requires 9 <= h <= 20
    ensures IsScheduleValid(true, true, "2024-01-02", HourLabel(h), ExampleNow())
  {
    ExampleNextDate();
    HourLabelValid(h);
  }
}
