/** The text side of TwilioSmsService: the E.164 form of a phone number,
    the 12-hour rendering of slot times and the message texts. Sending
    (init, sendSms and the Twilio client) is not modelled. */
module TwilioSms {
  import opened Wrappers
  import opened Text
  import opened Numbers
  import opened Formatters

  // ---------------------------------------------------------------------
  // normalizePhone
  // ---------------------------------------------------------------------

  predicate IsDigitOrPlus(c: char) {
    IsDigit(c) || c == '+'
  }

  /** A phone number the SMS provider accepts as written: a '+' and then
      digits or pluses. */
  predicate IsNormalized(p: string) {
    |p| > 0 && p[0] == '+' && forall i :: 0 <= i < |p| ==> IsDigitOrPlus(p[i])
  }

  /** `phone.replaceAll("[^0-9+]", "").trim()`. */
  function CleanPhone(phone: string): (r: string)
    ensures forall i :: 0 <= i < |r| ==> IsDigitOrPlus(r[i])
  {
    var kept := Filter(phone, IsDigitOrPlus);
    TrimIsIdentity(kept);
    JavaTrim(kept)
  }

  /** Nothing trim removes is a digit or a plus. */
  lemma TrimIsIdentity(s: string)
    requires forall i :: 0 <= i < |s| ==> IsDigitOrPlus(s[i])
    ensures JavaTrim(s) == s
  {
    TrimStartFixed(s, IsJavaTrimmable);
    TrimEndFixed(s, IsJavaTrimmable);
  }

  /** normalizePhone: null or blank fails; otherwise the number keeps only
      its digits and pluses, and gets "+91" in front when those are ten
      characters without a '+', or "+" in front when there is no leading
      '+'. */
  function NormalizePhone(phone: Option<string>): (r: Result<string>)
    ensures r.Err? <==> IsBlank(phone)
    ensures r.Err? ==> r.message == "Phone number is missing"
  {
    if IsBlank(phone) then Err("Phone number is missing")
    else
      var cleaned := CleanPhone(phone.value);
      if |cleaned| > 0 && cleaned[0] == '+' then Ok(cleaned)
      else if |cleaned| == 10 then Ok("+91" + cleaned)
      else Ok("+" + cleaned)
  }

  /** Every number that normalizes comes out with a leading '+' and nothing
      but digits and pluses; the cleaned digits follow unchanged, after
      "+91" for a bare ten-character number and after "+" for any other
      number without a leading '+'. */
  lemma NormalizePhoneSpec(phone: Option<string>)
    ensures var r := NormalizePhone(phone);
            r.Ok? ==>
              var cleaned := CleanPhone(phone.value);
              IsNormalized(r.value)
              && (|cleaned| > 0 && cleaned[0] == '+' ==> r.value == cleaned)
              && (!(|cleaned| > 0 && cleaned[0] == '+') && |cleaned| == 10 ==> r.value == "+91" + cleaned)
              && (!(|cleaned| > 0 && cleaned[0] == '+') && |cleaned| != 10 ==> r.value == "+" + cleaned)
  {
    if !IsBlank(phone) {
      var cleaned := CleanPhone(phone.value);
      var r := NormalizePhone(phone).value;
      assert forall i :: 0 <= i < |r| ==> IsDigitOrPlus(r[i]) by {
        if !(|cleaned| > 0 && cleaned[0] == '+') {
          var pre := if |cleaned| == 10 then "+91" else "+";
          assert r == pre + cleaned;
          assert forall i :: 0 <= i < |pre| ==> IsDigitOrPlus(pre[i]);
          assert forall i :: |pre| <= i < |r| ==> r[i] == cleaned[i - |pre|];
        }
      }
    }
  }

  /** A normalized number normalizes to itself. */
  lemma NormalizePhoneIdempotent(p: string)
    requires IsNormalized(p)
    ensures NormalizePhone(Some(p)) == Ok(p)
  {
    assert !IsJavaWhitespace(p[0]);
    FilterKeepsAll(p, IsDigitOrPlus);
    TrimIsIdentity(p);
  }

  /** Normalizing twice is normalizing once. */
  lemma NormalizePhoneTwice(phone: Option<string>)
    requires NormalizePhone(phone).Ok?
    ensures NormalizePhone(Some(NormalizePhone(phone).value)) == NormalizePhone(phone)
  {
    NormalizePhoneSpec(phone);
    NormalizePhoneIdempotent(NormalizePhone(phone).value);
  }

  // ---------------------------------------------------------------------
  // toAmPm
  // ---------------------------------------------------------------------

  /** toAmPm: null, blank and colon-free input is returned as it is, and so
      is input whose pieces do not parse (the exception is caught);
      otherwise the hour and minute are printed with `%02d:%02d %s`. */
  function ToAmPm(time24: Option<string>): (r: Option<string>)
    ensures IsBlank(time24) ==> r == time24
    ensures r.Some? <==> time24.Some?
  {
    if IsBlank(time24) || ':' !in time24.value then time24
    else
      var parts := SplitJava(time24.value, ':');
      if |parts| < 2 then time24
      else
        match (JavaParseInt(parts[0]), JavaParseInt(parts[1]))
        case (Some(hour), Some(minute)) => Some(Clock12(hour, minute))
        case _ => time24
  }

  /** On "H:M" with both pieces decimal digits within the 32-bit range the
      SMS text and the web client's formatClockTime print the same time. */
  lemma ToAmPmAgreesWithFormatClockTime(t: string, h: string, m: string)
    requires WellFormedTime(t, h, m) && DigitsValue(h) <= INT_MAX && DigitsValue(m) <= INT_MAX
    ensures ToAmPm(Some(t)) == Some(FormatClockTime(t))
  {
    NoColonInDigits(h);
    NoColonInDigits(m);
    SplitJavaAround(h, ':', m);
    assert t[|h|] == ':';
    assert !IsJavaWhitespace(t[|h|]);
    ClockPartsOfWellFormed(t, h, m);
    JavaParseIntOfDigits(h);
    JavaParseIntOfDigits(m);
  }

  /** The two part ways on a time with nothing after the colon: Java's
      split drops the empty minute, so "12:" is returned as it is, while
      the web client reads the empty minute as 0. */
  lemma ToAmPmTrailingColon()
    ensures ToAmPm(Some("12:")) == Some("12:")
    ensures FormatClockTime("12:") == "12:00 PM"
  {
    SplitTrailingColon();
    ClockPartsTrailingColon();
    NoonText();
  }

  lemma SplitTrailingColon()
    ensures SplitJava("12:", ':') == ["12"]
  {
    assert "12:" == "12" + [':'] + "";
    SplitAround("12", ':', "");
  }

  lemma ClockPartsTrailingColon()
    ensures ClockParts("12:") == (Some(12), Num(0))
  {
    assert "12:" == "12" + [':'] + "";
    SplitAround("12", ':', "");
    JsNumberOfDigits("12");
    assert JsTrim("") == "";
  }

  lemma NoonText()
    ensures Clock12(12, 0) == "12:00 PM"
  {
    assert NatToString(12) == "12";
    assert Pad2(IntToString(Hour12(12))) == "12";
    assert Pad2(IntToString(0)) == "00";
  }

  // ---------------------------------------------------------------------
  // Message texts
  // ---------------------------------------------------------------------

  /** The sport's name, or "Sport" when it is null or blank. */
  function SportLabel(sportName: Option<string>): (r: string)
    ensures IsBlank(sportName) ==> r == "Sport"
    ensures !IsBlank(sportName) ==> Some(r) == sportName
  {
    if IsBlank(sportName) then "Sport" else sportName.value
  }

  /** The deduction's description, or "Activity" when it is null or blank. */
  function DeductionReason(description: Option<string>): (r: string)
    ensures IsBlank(description) ==> r == "Activity"
    ensures !IsBlank(description) ==> Some(r) == description
  {
    if IsBlank(description) then "Activity" else description.value
  }

  function OtpText(otp: string): string {
    "Your Elite Club OTP is " + otp + ". It is valid for 5 minutes."
  }

  /** The amounts are printed by Java's float conversion, which is not
      modelled: they come in as text. */
  function BalanceDeductedText(amount: string, newBalance: string, description: Option<string>): string {
    var head := "Elite Club: Rs. " + amount + " deducted for ";
    head + DeductionReason(description) + ". New balance: Rs. " + newBalance + "."
  }

  function BookingConfirmationText(sportName: Option<string>, slotDate: Option<string>,
                                   startTime: Option<string>, endTime: Option<string>): string {
    var details := " on " + JavaStr(slotDate) + " at " + JavaStr(ToAmPm(startTime)) + " - "
                   + JavaStr(ToAmPm(endTime)) + ".";
    "Elite Club booking confirmed for " + SportLabel(sportName) + details
  }

  function BookingWithDeductionText(sportName: Option<string>, slotDate: Option<string>,
                                    startTime: Option<string>, endTime: Option<string>,
                                    deducted: string, newBalance: string): string {
    var details := ", " + JavaStr(slotDate) + " " + JavaStr(ToAmPm(startTime)) + " - " + JavaStr(ToAmPm(endTime))
                   + ". Deducted: Rs. " + deducted + ". Balance: Rs. " + newBalance + ".";
    "Elite Club booking confirmed: " + SportLabel(sportName) + details
  }

  function OfflineBookingOtpText(otp: Option<string>, sportName: Option<string>, slotDate: Option<string>,
                                 startTime: Option<string>, endTime: Option<string>): string {
    var head := "Elite Club booking OTP " + JavaStr(otp) + " for ";
    var details := " on " + JavaStr(slotDate) + " at " + JavaStr(ToAmPm(startTime)) + " - "
                   + JavaStr(ToAmPm(endTime)) + ". Show this OTP at venue. Payment: OFFLINE.";
    head + SportLabel(sportName) + details
  }

  /** Each booking text names the sport, or "Sport" when it has no name. */
  lemma ConfirmationNamesSport(sportName: Option<string>, slotDate: Option<string>,
                               startTime: Option<string>, endTime: Option<string>)
    ensures Contains(BookingConfirmationText(sportName, slotDate, startTime, endTime), SportLabel(sportName))
  {
    var tail := " on " + JavaStr(slotDate) + " at " + JavaStr(ToAmPm(startTime)) + " - "
                + JavaStr(ToAmPm(endTime)) + ".";
    ContainsConcat("Elite Club booking confirmed for ", SportLabel(sportName), tail);
  }

  lemma DeductionSummaryNamesSport(sportName: Option<string>, slotDate: Option<string>,
                                   startTime: Option<string>, endTime: Option<string>,
                                   deducted: string, newBalance: string)
    ensures Contains(BookingWithDeductionText(sportName, slotDate, startTime, endTime, deducted, newBalance),
                     SportLabel(sportName))
  {
    var tail := ", " + JavaStr(slotDate) + " " + JavaStr(ToAmPm(startTime)) + " - " + JavaStr(ToAmPm(endTime))
                + ". Deducted: Rs. " + deducted + ". Balance: Rs. " + newBalance + ".";
    ContainsConcat("Elite Club booking confirmed: ", SportLabel(sportName), tail);
  }

  lemma OfflineOtpNamesSport(otp: Option<string>, sportName: Option<string>, slotDate: Option<string>,
                             startTime: Option<string>, endTime: Option<string>)
    ensures Contains(OfflineBookingOtpText(otp, sportName, slotDate, startTime, endTime), SportLabel(sportName))
  {
    var head := "Elite Club booking OTP " + JavaStr(otp) + " for ";
    var tail := " on " + JavaStr(slotDate) + " at " + JavaStr(ToAmPm(startTime)) + " - "
                + JavaStr(ToAmPm(endTime)) + ". Show this OTP at venue. Payment: OFFLINE.";
    ContainsConcat(head, SportLabel(sportName), tail);
  }

  /** The deduction text names the reason, or "Activity". */
  lemma DeductionNamesReason(amount: string, newBalance: string, description: Option<string>)
    ensures Contains(BalanceDeductedText(amount, newBalance, description), DeductionReason(description))
  {
    var head := "Elite Club: Rs. " + amount + " deducted for ";
    var tail := ". New balance: Rs. " + newBalance + ".";
    assert head + DeductionReason(description) + ". New balance: Rs. " + newBalance + "."
           == head + DeductionReason(description) + tail;
    ContainsConcat(head, DeductionReason(description), tail);
  }

  function CardCreatedText(cardUid: Option<string>): string {
    "Elite Club: RFID card created successfully. Card ID: " + JavaStr(cardUid) + "."
  }

  function CardBlockedText(cardUid: Option<string>): string {
    "Elite Club: RFID card " + JavaStr(cardUid) + " has been blocked. Contact support if this was not requested."
  }
}
