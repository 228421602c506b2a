/** The slot-time helpers of the web client (playbox-frontend/src/utils/formatters.ts):
    24-hour to 12-hour clock text, slot ranges, and the "present or future"
    test that decides which of a day's slots are shown. The clock is not read
    here: today's date string and the current minute of the day are inputs. */
module Formatters {
  import opened Wrappers
  import opened Text
  import opened Numbers

  /** The second piece of `s.split(":").map(Number)`: undefined when the
      text holds no ':', otherwise that piece read as a number, or NaN. */
  datatype MinutePiece = Missing | NaN | Num(n: int)

  /** `const [h, m] = s.split(":").map(Number)`: the first piece read as a
      number (None standing for NaN) and the second piece. Only the second
      piece can be missing, and `Number.isNaN(undefined)` is false, so a
      missing minute is not NaN. */
  function ClockParts(s: string): (r: (Option<int>, MinutePiece))
    ensures r.1.Missing? <==> ':' !in s
    ensures ':' !in s ==> r.0 == JsNumber(s)
  {
    var parts := SplitJs(s, ':');
    (JsNumber(parts[0]),
     if |parts| < 2 then Missing
     else match JsNumber(parts[1])
          case Some(m) => Num(m)
          case None => NaN)
  }

  /** The hour on a 12-hour dial; 0 and 12 both show as 12. */
  function Hour12(h: int): (r: int)
    ensures 0 <= h ==> 1 <= r <= 12
    ensures 0 <= h ==> r % 12 == h % 12
  {
    if TruncRem(h, 12) == 0 then 12 else TruncRem(h, 12)
  }

  function Meridiem(h: int): string {
    if h >= 12 then "PM" else "AM"
  }

  /** The text "hh:mm AM" / "hh:mm PM" for an hour and a minute, with both
      numbers zero-padded to two digits. */
  function Clock12(h: int, m: int): string {
    Pad2(IntToString(Hour12(h))) + ":" + Pad2(IntToString(m)) + " " + Meridiem(h)
  }

  /** The text for an hour whose minute is undefined: `String(undefined)`
      is "undefined", which padStart(2, "0") leaves as it is. */
  function Clock12NoMinute(h: int): string {
    Pad2(IntToString(Hour12(h))) + ":undefined " + Meridiem(h)
  }

  /** formatClockTime: "N/A" for the empty string, the input itself when the
      hour or the minute is NaN, the hour with "undefined" for a missing
      minute, and the 12-hour text otherwise. */
  function FormatClockTime(time24: string): (r: string)
    ensures time24 == "" ==> r == "N/A"
    ensures time24 != "" && (ClockParts(time24).0.None? || ClockParts(time24).1.NaN?) ==> r == time24
    ensures time24 != "" && ClockParts(time24).0.Some? && ClockParts(time24).1.Missing? ==>
              r == Clock12NoMinute(ClockParts(time24).0.value)
    ensures time24 != "" && ClockParts(time24).0.Some? && ClockParts(time24).1.Num? ==>
              r == Clock12(ClockParts(time24).0.value, ClockParts(time24).1.n)
  {
    if time24 == "" then "N/A"
    else
      match ClockParts(time24)
      case (Some(h), Num(m)) => Clock12(h, m)
      case (Some(h), Missing) => Clock12NoMinute(h)
      case _ => time24
  }

  /** formatSlotRange: both ends formatted, joined by " - ". */
  function FormatSlotRange(startTime24: string, endTime24: string): string {
    FormatClockTime(startTime24) + " - " + FormatClockTime(endTime24)
  }

  // ---------------------------------------------------------------------
  // The inverse: reading "hh:mm AM" back as a 24-hour time
  // ---------------------------------------------------------------------

  /** Reads an eight-character "hh:mm AM" / "hh:mm PM" text with hh in 1..12
      back as (hour, minute) on the 24-hour clock. */
  function ParseClock12(s: string): (r: Option<(int, int)>)
    ensures r.Some? ==> 0 <= r.value.0 < 24
  {
    if |s| == 8 && s[2] == ':' && s[5] == ' ' && AllDigits(s[..2]) && AllDigits(s[3..5])
       && (s[6..] == "AM" || s[6..] == "PM")
    then
      var hh := DigitsValue(s[..2]);
      var mm := DigitsValue(s[3..5]);
      if 1 <= hh <= 12 then Some((hh % 12 + (if s[6..] == "PM" then 12 else 0), mm)) else None
    else None
  }

  /** A 24-hour time written as two runs of digits with a colon between. */
  predicate WellFormedTime(t: string, h: string, m: string) {
    t == h + ":" + m && |h| > 0 && |m| > 0 && AllDigits(h) && AllDigits(m)
  }

  lemma NoColonInDigits(d: string)
    requires AllDigits(d)
    ensures ':' !in d
  {
    forall i | 0 <= i < |d| ensures d[i] != ':' {
      assert IsDigit(d[i]);
    }
  }

  lemma JsNumberOfDigits(d: string)
    requires |d| > 0 && AllDigits(d)
    ensures JsNumber(d) == Some(DigitsValue(d) as int)
  {
    assert IsDigit(d[0]) && IsDigit(d[|d| - 1]);
    TrimStartFixed(d, IsJsWhitespace);
    TrimEndFixed(d, IsJsWhitespace);
  }

  /** A well-formed time reads as the numbers its digits spell. */
  lemma ClockPartsOfWellFormed(t: string, h: string, m: string)
    requires WellFormedTime(t, h, m)
    ensures ClockParts(t) == (Some(DigitsValue(h) as int), Num(DigitsValue(m) as int))
  {
    NoColonInDigits(h);
    NoColonInDigits(m);
    SplitAround(h, ':', m);
    JsNumberOfDigits(h);
    JsNumberOfDigits(m);
  }

  /** The 12-hour text of an hour in 0..23 and a minute in 0..59 reads back as
      that hour and minute; its hour field is in 01..12 and it ends in PM
      exactly when the hour is 12 or later. */
  lemma {:induction false} Clock12RoundTrip(h: int, m: int)
    requires 0 <= h < 24 && 0 <= m < 60
    ensures |Clock12(h, m)| == 8
    ensures ParseClock12(Clock12(h, m)) == Some((h, m))
    ensures Clock12(h, m)[6..] == "PM" <==> h >= 12
  {
    var c := Clock12(h, m);
    var hs := Pad2(IntToString(Hour12(h)));
    var ms := Pad2(IntToString(m));
    TwoDigitsOf(Hour12(h));
    TwoDigitsOf(m);
    assert c == hs + ":" + ms + " " + Meridiem(h);
    assert c[..2] == hs && c[3..5] == ms && c[6..] == Meridiem(h);
    assert c[2] == ':' && c[5] == ' ';
  }

  /** formatClockTime on a well-formed time of day reads back as that time:
      the 12-hour value is in 1..12 (0 and 12 both show as 12), both fields
      have two digits, and the suffix is PM exactly for hours 12..23. */
  lemma FormatClockTimeRoundTrip(t: string, h: string, m: string)
    requires WellFormedTime(t, h, m) && DigitsValue(h) < 24 && DigitsValue(m) < 60
    ensures |FormatClockTime(t)| == 8
    ensures ParseClock12(FormatClockTime(t)) == Some((DigitsValue(h) as int, DigitsValue(m) as int))
    ensures FormatClockTime(t)[6..] == "PM" <==> DigitsValue(h) >= 12
  {
    ClockPartsOfWellFormed(t, h, m);
    assert FormatClockTime(t) == Clock12(DigitsValue(h), DigitsValue(m));
    Clock12RoundTrip(DigitsValue(h), DigitsValue(m));
  }

  /** Two 8-character clock texts joined by " - " split back at the same
      places, each reading as the time it read as alone. */
  lemma RangeHalves(a: string, b: string, x: (int, int), y: (int, int))
    requires |a| == 8 && |b| == 8 && ParseClock12(a) == Some(x) && ParseClock12(b) == Some(y)
    ensures |a + " - " + b| == 19 && (a + " - " + b)[8..11] == " - "
    ensures ParseClock12((a + " - " + b)[..8]) == Some(x)
    ensures ParseClock12((a + " - " + b)[11..]) == Some(y)
  {
    var r := a + " - " + b;
    assert r[..8] == a;
    assert r[11..] == b;
  }

  /** A slot range of two well-formed times is the two 8-character clock
      texts around " - ", and each reads back as its time. */
  lemma FormatSlotRangeRoundTrip(s: string, sh: string, sm: string, e: string, eh: string, em: string)
    requires WellFormedTime(s, sh, sm) && DigitsValue(sh) < 24 && DigitsValue(sm) < 60
    requires WellFormedTime(e, eh, em) && DigitsValue(eh) < 24 && DigitsValue(em) < 60
    ensures |FormatSlotRange(s, e)| == 19 && FormatSlotRange(s, e)[8..11] == " - "
    ensures ParseClock12(FormatSlotRange(s, e)[..8]) == Some((DigitsValue(sh) as int, DigitsValue(sm) as int))
    ensures ParseClock12(FormatSlotRange(s, e)[11..]) == Some((DigitsValue(eh) as int, DigitsValue(em) as int))
  {
    var x := (DigitsValue(sh) as int, DigitsValue(sm) as int);
    var y := (DigitsValue(eh) as int, DigitsValue(em) as int);
    FormatClockTimeRoundTrip(s, sh, sm);
    FormatClockTimeRoundTrip(e, eh, em);
    SlotRangeOfClockTexts(s, e, x, y);
  }

  /** The range of two ends that format as clock texts splits back into
      those texts. */
  lemma SlotRangeOfClockTexts(s: string, e: string, x: (int, int), y: (int, int))
    requires |FormatClockTime(s)| == 8 && ParseClock12(FormatClockTime(s)) == Some(x)
    requires |FormatClockTime(e)| == 8 && ParseClock12(FormatClockTime(e)) == Some(y)
    ensures |FormatSlotRange(s, e)| == 19 && FormatSlotRange(s, e)[8..11] == " - "
    ensures ParseClock12(FormatSlotRange(s, e)[..8]) == Some(x)
    ensures ParseClock12(FormatSlotRange(s, e)[11..]) == Some(y)
  {
    RangeHalves(FormatClockTime(s), FormatClockTime(e), x, y);
  }

  // ---------------------------------------------------------------------
  // isPresentOrFutureSlot
  // ---------------------------------------------------------------------

  /** How isPresentOrFutureSlot reads an end time. `Unreadable`: the hour
      or the minute is NaN, and the slot is shown. `InvalidDate`: the minute
      is undefined, so `setHours(h, undefined, 0, 0)` makes an invalid date,
      whose time compares false with now. `EndsAt(e)`: the end falls on
      minute `endHour * 60 + endMinute` of the day; values outside 0..1439
      are kept, since Date.setHours rolls them over into neighbouring days,
      which is the same offset from today's midnight. */
  datatype EndReading = Unreadable | InvalidDate | EndsAt(minute: int)

  function EndMinute(endTime24: string): (r: EndReading)
    ensures r.Unreadable? <==> ClockParts(endTime24).0.None? || ClockParts(endTime24).1.NaN?
    ensures r.InvalidDate? <==> ClockParts(endTime24).0.Some? && ':' !in endTime24
    ensures r.EndsAt? ==>
              ClockParts(endTime24).1.Num?
              && r.minute == ClockParts(endTime24).0.value * 60 + ClockParts(endTime24).1.n
  {
    match ClockParts(endTime24)
    case (Some(h), Num(m)) => EndsAt(h * 60 + m)
    case (Some(_), Missing) => InvalidDate
    case _ => Unreadable
  }

  /** isPresentOrFutureSlot(selectedDate, startTime24, endTime24), with the
      clock passed in: `today` is the date string of now (YYYY-MM-DD) and
      `nowMinute` the minute of the day now falls in, 0..1439. The slot end has
      zero seconds, so "end is later than now" is exactly "end minute is
      greater than the current minute". */
  function IsPresentOrFutureSlot(selectedDate: string, startTime24: string, endTime24: string,
                                 today: string, nowMinute: int): (r: bool)
    requires 0 <= nowMinute < 1440
    ensures selectedDate == "" || startTime24 == "" || endTime24 == "" ==> r
    ensures selectedDate != "" && startTime24 != "" && endTime24 != "" ==>
              (LexLess(today, selectedDate) ==> r)
              && (LexLess(selectedDate, today) ==> !r)
              && (selectedDate == today ==>
                    (r <==> EndMinute(endTime24).Unreadable?
                            || (EndMinute(endTime24).EndsAt? && EndMinute(endTime24).minute > nowMinute)))
  {
    if selectedDate == "" || startTime24 == "" || endTime24 == "" then true
    else if LexLess(today, selectedDate) then
      LexLessAsymmetric(today, selectedDate);
      true
    else if LexLess(selectedDate, today) then false
    else
      assert selectedDate == today by { LexLessTotal(selectedDate, today); }
      match EndMinute(endTime24)
      case Unreadable => true
      case InvalidDate => false
      case EndsAt(e) => e > nowMinute
  }

  /** The start time only counts through the empty-string test. */
  lemma StartTimeIrrelevant(d: string, s1: string, s2: string, e: string, today: string, now: int)
    requires 0 <= now < 1440 && s1 != "" && s2 != ""
    ensures IsPresentOrFutureSlot(d, s1, e, today, now) == IsPresentOrFutureSlot(d, s2, e, today, now)
  {
  }

  /** On today's date a slot ending at "00:00" (the slot generated for hour 23)
      is never shown, whatever the time. */
  lemma MidnightEndHiddenToday(start: string, today: string, now: int)
    requires 0 <= now < 1440 && start != "" && today != ""
    ensures !IsPresentOrFutureSlot(today, start, "00:00", today, now)
  {
    ClockPartsOfWellFormed("00:00", "00", "00");
    LexLessIrreflexive(today);
  }

  /** On today's date an end time without a ':' is shown exactly when it is
      not a number: a NaN hour fails open, while a number with an undefined
      minute makes an invalid date and is hidden. */
  lemma NoMinuteToday(start: string, end: string, today: string, now: int)
    requires 0 <= now < 1440 && start != "" && today != "" && end != "" && ':' !in end
    ensures IsPresentOrFutureSlot(today, start, end, today, now) <==> JsNumber(end).None?
  {
    LexLessIrreflexive(today);
  }

  /** The end "18" (an hour without minutes) is hidden on today's date,
      whatever the time. */
  lemma HourOnlyEndHiddenToday(start: string, today: string, now: int)
    requires 0 <= now < 1440 && start != "" && today != ""
    ensures !IsPresentOrFutureSlot(today, start, "18", today, now)
  {
    assert IsDigit("18"[0]) && IsDigit("18"[1]);
    JsNumberOfDigits("18");
    NoColonInDigits("18");
    NoMinuteToday(start, "18", today, now);
  }

  /** formatClockTime of a non-empty number without a ':' prints the hour
      with an undefined minute: "8" becomes "08:undefined AM". */
  lemma FormatNoMinute(t: string, h: int)
    requires t != "" && ':' !in t && JsNumber(t) == Some(h)
    ensures FormatClockTime(t) == Clock12NoMinute(h)
  {
  }
}
