/** GlobalExceptionHandler: the JSON error body every failed request gets,
    and the status chosen for each kind of exception. A RuntimeException's
    status is read off keywords in its lower-cased message. */
module ExceptionHandler {
  import opened Wrappers
  import opened Text
  import opened Http
  import opened Entities
  import BookingService
  import BookingNotifications
  import BookingController
  import AuthController

  /** The exceptions the handler tells apart by class. */
  datatype Failure =
    | BadInput(message: Option<string>)       // IllegalArgumentException and the request-binding failures
    | DataIntegrity(message: Option<string>)  // DataIntegrityViolationException
    | Runtime(message: Option<string>)        // any other RuntimeException
    | Unknown(message: Option<string>)        // any other Exception
    | StatusRaised(status: HttpStatus, reason: string)  // a controller's ResponseStatusException

  /** The response body: a map with five entries. */
  datatype ErrorBody = ErrorBody(timestamp: string, status: int, error: string, message: string, path: string)

  datatype ErrorResponse = ErrorResponse(status: HttpStatus, body: ErrorBody)

  const GenericMessage := "Something went wrong. Please try again."
  const ConflictMessage := "Request conflicts with existing data"

  /** safeMessage: the exception's message, or the fallback when it is null
      or blank. */
  function SafeMessage(message: Option<string>, fallback: string): (r: string)
    ensures IsBlank(message) ==> r == fallback
    ensures !IsBlank(message) ==> Some(r) == message
  {
    if IsBlank(message) then fallback else message.value
  }

  /** build: the body restates the status as its code and reason phrase
      and carries the message, the request path and the time. */
  function Build(status: HttpStatus, message: string, path: string, now: string): (r: ErrorResponse)
    ensures r.status == status && r.body.status == status.Code() && r.body.error == status.ReasonPhrase()
    ensures r.body.message == message && r.body.path == path && r.body.timestamp == now
  {
    ErrorResponse(status, ErrorBody(now, status.Code(), status.ReasonPhrase(), message, path))
  }

  /** The lower-cased message names a client mistake. */
  predicate NamesClientError(normalized: string) {
    Contains(normalized, "already") || Contains(normalized, "insufficient") || Contains(normalized, "invalid")
    || Contains(normalized, "required") || Contains(normalized, "failed")
  }

  /** handleRuntime. */
  function HandleRuntime(message: Option<string>, path: string, now: string): ErrorResponse {
    var msg := SafeMessage(message, "Request failed");
    var normalized := ToLower(msg);
    if Contains(normalized, "not found") then Build(NotFound, msg, path, now)
    else if NamesClientError(normalized) then Build(BadRequest, msg, path, now)
    else Build(InternalServerError, GenericMessage, path, now)
  }

  /** "not found" wins over every other keyword and gives 404; a client
      keyword gives 400; both keep the message. Anything else is a 500
      whose message is replaced by the generic one. A RuntimeException is
      never a 409. */
  lemma HandleRuntimeSpec(message: Option<string>, path: string, now: string)
    ensures var r := HandleRuntime(message, path, now);
            var msg := SafeMessage(message, "Request failed");
            var normalized := ToLower(msg);
            (r.status == NotFound <==> Contains(normalized, "not found"))
            && (r.status == BadRequest <==> !Contains(normalized, "not found") && NamesClientError(normalized))
            && (r.status == InternalServerError <==>
                  !Contains(normalized, "not found") && !NamesClientError(normalized))
            && r.status != Conflict
            && (r.status != InternalServerError ==> r.body.message == msg)
            && (r.status == InternalServerError ==> r.body.message == GenericMessage)
            && r.body.status == r.status.Code() && r.body.error == r.status.ReasonPhrase() && r.body.path == path
  {
  }

  /** A RuntimeException without a message falls back to "Request failed",
      whose "failed" makes it a 400 rather than a 500. */
  lemma HandleRuntimeBlank(message: Option<string>, path: string, now: string)
    requires IsBlank(message)
    ensures HandleRuntime(message, path, now) == Build(BadRequest, "Request failed", path, now)
  {
    var m := "Request failed";
    assert forall j :: 0 <= j < |m| ==> LowerChar(m[j]) != 'o';
    LowerLacksChar(m, "not found", 1);
    assert forall j :: 0 <= j < 6 ==> LowerChar(m[8 + j]) == "failed"[j];
    LowerHasAt(m, "failed", 8);
  }

  /** The advice picks the handler by the exception's class. A
      ResponseStatusException is a RuntimeException, so handleRuntime
      claims it before Spring's own status resolver is consulted, and reads
      its message, which holds the status text as well as the reason. */
  function Handle(failure: Failure, path: string, now: string): (r: ErrorResponse)
    ensures r.body.status == r.status.Code() && r.body.error == r.status.ReasonPhrase()
    ensures r.body.path == path && r.body.timestamp == now
  {
    match failure
    case BadInput(message) => Build(BadRequest, SafeMessage(message, "Invalid request"), path, now)
    case DataIntegrity(_) => Build(Conflict, ConflictMessage, path, now)
    case Runtime(message) => HandleRuntime(message, path, now)
    case Unknown(_) => Build(InternalServerError, GenericMessage, path, now)
    case StatusRaised(status, reason) =>
      HandleRuntime(Some(BookingController.ThrownMessage(status, reason)), path, now)
  }

  /** The fixed statuses: a binding failure is a 400 with its message (or
      "Invalid request"), a data-integrity violation a 409 with a fixed
      message, any other checked exception a 500 with the generic message;
      only a data-integrity violation is a 409, and the database's own text
      never reaches the client. */
  lemma HandleStatuses(failure: Failure, path: string, now: string)
    ensures var r := Handle(failure, path, now);
            (failure.BadInput? ==> r.status == BadRequest && r.body.message == SafeMessage(failure.message, "Invalid request"))
            && (failure.DataIntegrity? <==> r.status == Conflict)
            && (failure.DataIntegrity? ==> r.body.message == ConflictMessage)
            && (failure.Unknown? ==> r.status == InternalServerError && r.body.message == GenericMessage)
            && (failure.Runtime? ==> r == HandleRuntime(failure.message, path, now))
            && (failure.StatusRaised? ==>
                  r == HandleRuntime(Some(BookingController.ThrownMessage(failure.status, failure.reason)), path, now))
  {
    if failure.Runtime? {
      HandleRuntimeSpec(failure.message, path, now);
    } else if failure.StatusRaised? {
      HandleRuntimeSpec(Some(BookingController.ThrownMessage(failure.status, failure.reason)), path, now);
    }
  }

  // ---------------------------------------------------------------------
  // What the endpoints' RuntimeExceptions become
  // ---------------------------------------------------------------------

  /** A message that says "not found" at position k is a 404 that keeps it. */
  lemma NotFoundAnswer(m: string, k: nat, path: string, now: string)
    requires k + 9 <= |m| && forall j :: 0 <= j < 9 ==> LowerChar(m[k + j]) == "not found"[j]
    ensures HandleRuntime(Some(m), path, now) == Build(NotFound, m, path, now)
  {
    assert LowerChar(m[k + 0]) == "not found"[0] == 'n';
    assert !IsJavaWhitespace(m[k]);
    LowerHasAt(m, "not found", k);
  }

  /** A message without "not found" that names a client keyword at
      position k is a 400 that keeps it. */
  lemma ClientErrorAnswer(m: string, keyword: string, k: nat, path: string, now: string)
    requires keyword in ["already", "insufficient", "invalid", "required", "failed"]
    requires k + |keyword| <= |m| && forall j :: 0 <= j < |keyword| ==> LowerChar(m[k + j]) == keyword[j]
    requires !Contains(ToLower(m), "not found")
    ensures HandleRuntime(Some(m), path, now) == Build(BadRequest, m, path, now)
  {
    assert LowerChar(m[k + 0]) == keyword[0];
    assert !IsJavaWhitespace(m[k]);
    LowerHasAt(m, keyword, k);
  }

  /** The short messages below have no 'f' in either case. */
  lemma NoLetterF()
    ensures forall j :: 0 <= j < |"name, phone and slotId are required"| ==>
                        LowerChar("name, phone and slotId are required"[j]) != 'f'
    ensures forall j :: 0 <= j < |"Slot already booked"| ==> LowerChar("Slot already booked"[j]) != 'f'
    ensures forall j :: 0 <= j < |"Phone and OTP required"| ==> LowerChar("Phone and OTP required"[j]) != 'f'
    ensures forall j :: 0 <= j < |"Invalid OTP"| ==> LowerChar("Invalid OTP"[j]) != 'f'
    ensures forall j :: 0 <= j < |"Phone number required"| ==> LowerChar("Phone number required"[j]) != 'f'
  {
  }

  lemma IncompleteRequestAnswer(path: string, now: string)
    ensures var m := "name, phone and slotId are required";
            HandleRuntime(Some(m), path, now) == Build(BadRequest, m, path, now)
  {
    var m := "name, phone and slotId are required";
    NoLetterF();
    LowerLacksChar(m, "not found", 4);
    assert forall j :: 0 <= j < 8 ==> LowerChar(m[27 + j]) == "required"[j];
    ClientErrorAnswer(m, "required", 27, path, now);
  }

  lemma SlotNotFoundAnswer(path: string, now: string)
    ensures HandleRuntime(Some("Slot not found"), path, now) == Build(NotFound, "Slot not found", path, now)
  {
    var m := "Slot not found";
    assert forall j :: 0 <= j < 9 ==> LowerChar(m[5 + j]) == "not found"[j];
    NotFoundAnswer(m, 5, path, now);
  }

  lemma SlotTakenAnswer(path: string, now: string)
    ensures HandleRuntime(Some("Slot already booked"), path, now) == Build(BadRequest, "Slot already booked", path, now)
  {
    var m := "Slot already booked";
    NoLetterF();
    LowerLacksChar(m, "not found", 4);
    assert forall j :: 0 <= j < 7 ==> LowerChar(m[5 + j]) == "already"[j];
    ClientErrorAnswer(m, "already", 5, path, now);
  }

  /** The manual-booking endpoint's failures: a missing slot is a 404, the
      refusal of an incomplete request and a taken slot are 400s, and the
      message always reaches the client. */
  lemma AdminManualBookAnswers(st: Store, request: BookingController.AdminManualBookingRequest,
                               path: string, now: string)
    requires SportsResolved(st)
    ensures var r := BookingController.AdminManualBook(st, request, now).0;
            r.Err? ==>
              var answer := Handle(Runtime(Some(r.message)), path, now);
              answer.body.message == r.message
              && (answer.status == NotFound <==> r.message == "Slot not found")
              && (answer.status == BadRequest <==> r.message != "Slot not found")
  {
    BookingController.AdminManualBookFailures(st, request, now);
    IncompleteRequestAnswer(path, now);
    SlotNotFoundAnswer(path, now);
    SlotTakenAnswer(path, now);
  }

  lemma PhoneAndOtpMissingAnswer(path: string, now: string)
    ensures var m := "Phone and OTP required";
            HandleRuntime(Some(m), path, now) == Build(BadRequest, m, path, now)
  {
    var m := "Phone and OTP required";
    NoLetterF();
    LowerLacksChar(m, "not found", 4);
    assert forall j :: 0 <= j < 8 ==> LowerChar(m[14 + j]) == "required"[j];
    ClientErrorAnswer(m, "required", 14, path, now);
  }

  lemma OtpNotFoundAnswer(path: string, now: string)
    ensures HandleRuntime(Some("OTP not found"), path, now) == Build(NotFound, "OTP not found", path, now)
  {
    var m := "OTP not found";
    assert forall j :: 0 <= j < 9 ==> LowerChar(m[4 + j]) == "not found"[j];
    NotFoundAnswer(m, 4, path, now);
  }

  lemma InvalidOtpAnswer(path: string, now: string)
    ensures HandleRuntime(Some("Invalid OTP"), path, now) == Build(BadRequest, "Invalid OTP", path, now)
  {
    var m := "Invalid OTP";
    NoLetterF();
    LowerLacksChar(m, "not found", 4);
    assert forall j :: 0 <= j < 7 ==> LowerChar(m[j]) == "invalid"[j];
    ClientErrorAnswer(m, "invalid", 0, path, now);
  }

  lemma SignupNameFacts()
    ensures var m := "Name is required for new user signup";
            (forall j :: 0 <= j < |m| - 1 ==> !(LowerChar(m[j]) == 'u' && LowerChar(m[j + 1]) == 'n'))
            && (forall j :: 0 <= j < 8 ==> LowerChar(m[8 + j]) == "required"[j])
  {
  }

  lemma SignupNameMissingAnswer(path: string, now: string)
    ensures var m := "Name is required for new user signup";
            HandleRuntime(Some(m), path, now) == Build(BadRequest, m, path, now)
  {
    var m := "Name is required for new user signup";
    SignupNameFacts();
    LowerLacksPair(m, "not found", 6);
    ClientErrorAnswer(m, "required", 8, path, now);
  }

  /** Every failure of verifyOtp reaches the client with its message: a
      missing code record is a 404, everything else a 400. */
  lemma VerifyOtpAnswers(st: Store, phone: Option<string>, otp: Option<string>, name: Option<string>,
                         path: string, now: string)
    ensures var r := AuthController.VerifyOtpIn(st, phone, otp, name, now).0;
            r.Err? ==>
              var answer := Handle(Runtime(Some(r.message)), path, now);
              answer.body.message == r.message
              && (answer.status == NotFound <==> r.message == "OTP not found")
              && (answer.status == BadRequest <==> r.message != "OTP not found")
  {
    var r := AuthController.VerifyOtpIn(st, phone, otp, name, now).0;
    AuthController.VerifyOtpErrors(st, phone, otp, name, now);
    if r.Err? {
      VerifyOtpMessageAnswer(r.message, path, now);
    }
  }

  /** The answer to each message verifyOtp can fail with. */
  lemma VerifyOtpMessageAnswer(m: string, path: string, now: string)
    requires m in ["Phone and OTP required", "OTP not found", "Invalid OTP", "Name is required for new user signup"]
    ensures var answer := Handle(Runtime(Some(m)), path, now);
            answer.body.message == m
            && (answer.status == NotFound <==> m == "OTP not found")
            && (answer.status == BadRequest <==> m != "OTP not found")
  {
    if m == "Phone and OTP required" {
      PhoneAndOtpMissingAnswer(path, now);
    } else if m == "OTP not found" {
      OtpNotFoundAnswer(path, now);
    } else if m == "Invalid OTP" {
      InvalidOtpAnswer(path, now);
    } else {
      SignupNameMissingAnswer(path, now);
    }
  }

  lemma PhoneMissingAnswer(path: string, now: string)
    ensures var m := "Phone number required";
            HandleRuntime(Some(m), path, now) == Build(BadRequest, m, path, now)
  {
    var m := "Phone number required";
    NoLetterF();
    LowerLacksChar(m, "not found", 4);
    assert forall j :: 0 <= j < 8 ==> LowerChar(m[13 + j]) == "required"[j];
    ClientErrorAnswer(m, "required", 13, path, now);
  }

  /** A send failure that is not about a trial account starts with
      "Failed", so it is never a 500: it is a 404 when the provider's text
      says "not found", a 400 otherwise, and the text reaches the client. */
  lemma SendFailureAnswer(message: Option<string>, path: string, now: string)
    ensures var m := "Failed to send OTP: " + JavaStr(message);
            var answer := HandleRuntime(Some(m), path, now);
            answer.body.message == m
            && (answer.status == NotFound <==> Contains(ToLower(m), "not found"))
            && (answer.status == BadRequest <==> !Contains(ToLower(m), "not found"))
  {
    var m := "Failed to send OTP: " + JavaStr(message);
    assert forall j :: 0 <= j < 6 ==> m[j] == "Failed to send OTP: "[j];
    assert forall j :: 0 <= j < 6 ==> LowerChar(m[j]) == "failed"[j];
    assert !IsJavaWhitespace(m[0]);
    LowerHasAt(m, "failed", 0);
  }

  /** The failures of sendOtp other than the trial-account explanation: a
      missing phone is a 400, a failed send a 404 or a 400, never a 500. */
  lemma SendOtpAnswers(st: Store, phone: Option<string>, draw: nat, delivery: AuthController.Delivery,
                       path: string, now: string)
    requires draw < 9000
    ensures var r := AuthController.SendOtpIn(st, phone, draw, delivery, now).0;
            r.Err? && r.message != AuthController.TrialMessage ==>
              var answer := Handle(Runtime(Some(r.message)), path, now);
              answer.body.message == r.message && answer.status != InternalServerError
  {
    PhoneMissingAnswer(path, now);
    if !IsBlank(phone) && delivery.SendFailed? {
      SendFailureAnswer(delivery.message, path, now);
    }
  }

  lemma NotificationNotFoundAnswer(path: string, now: string)
    ensures var m := "Notification not found";
            HandleRuntime(Some(m), path, now) == Build(NotFound, m, path, now)
  {
    var m := "Notification not found";
    assert forall j :: 0 <= j < 9 ==> LowerChar(m[13 + j]) == "not found"[j];
    NotFoundAnswer(m, 13, path, now);
  }

  lemma SportNotFoundAnswer(path: string, now: string)
    ensures HandleRuntime(Some("Sport not found"), path, now) == Build(NotFound, "Sport not found", path, now)
  {
    var m := "Sport not found";
    assert forall j :: 0 <= j < 9 ==> LowerChar(m[6 + j]) == "not found"[j];
    NotFoundAnswer(m, 6, path, now);
  }

  /** markSeen of an unknown notification is a 404 that keeps the message. */
  lemma MarkSeenAnswer(st: Store, notificationId: int, path: string, now: string)
    ensures var r := BookingNotifications.MarkSeenIn(st, notificationId).0;
            r.Err? ==> Handle(Runtime(Some(r.message)), path, now) == Build(NotFound, r.message, path, now)
  {
    NotificationNotFoundAnswer(path, now);
  }

  /** The day overview of an unknown sport is a 404 that keeps the message. */
  lemma DayOverviewAnswer(st: Store, sportId: int, date: string, path: string, now: string)
    ensures var r := BookingService.SportDayOverview(st, sportId, date);
            r.Err? ==> Handle(Runtime(Some(r.message)), path, now) == Build(NotFound, r.message, path, now)
  {
    SportNotFoundAnswer(path, now);
  }

  // ---------------------------------------------------------------------
  // What book's ResponseStatusExceptions become
  // ---------------------------------------------------------------------

  // The messages of book's ResponseStatusExceptions, as getMessage() gives them.
  const InvalidThrown := "400 BAD_REQUEST \"Invalid booking request\""
  const TakenThrown := "409 CONFLICT \"Slot already booked\""
  const BalanceThrown := "400 BAD_REQUEST \"Insufficient balance\""
  const FailedThrown := "500 INTERNAL_SERVER_ERROR \"Booking failed\""
  const CardThrown := BadRequest.Describe() + " \"" + BookingController.CardReason + "\""

  lemma InvalidThrownText()
    ensures BookingController.ThrownMessage(BadRequest, "Invalid booking request") == InvalidThrown
  {
  }

  lemma TakenThrownText()
    ensures BookingController.ThrownMessage(Conflict, "Slot already booked") == TakenThrown
  {
  }

  lemma BalanceThrownText()
    ensures BookingController.ThrownMessage(BadRequest, "Insufficient balance") == BalanceThrown
  {
  }

  lemma FailedThrownText()
    ensures BookingController.ThrownMessage(InternalServerError, "Booking failed") == FailedThrown
  {
  }

  lemma InvalidThrownLetters()
    ensures forall j :: 0 <= j < |InvalidThrown| ==> LowerChar(InvalidThrown[j]) != 'f'
    ensures forall j :: 0 <= j < 7 ==> LowerChar(InvalidThrown[17 + j]) == "invalid"[j]
  {
  }

  lemma InvalidThrownAnswer(path: string, now: string)
    ensures HandleRuntime(Some(InvalidThrown), path, now) == Build(BadRequest, InvalidThrown, path, now)
  {
    InvalidThrownLetters();
    LowerLacksChar(InvalidThrown, "not found", 4);
    ClientErrorAnswer(InvalidThrown, "invalid", 17, path, now);
  }

  lemma TakenThrownLetters()
    ensures forall j :: 0 <= j < |TakenThrown| ==> LowerChar(TakenThrown[j]) != 'u'
    ensures forall j :: 0 <= j < 7 ==> LowerChar(TakenThrown[19 + j]) == "already"[j]
  {
  }

  /** The double booking the controller throws as a 409 reaches the client
      as a 400: its message says "already". */
  lemma TakenThrownAnswer(path: string, now: string)
    ensures HandleRuntime(Some(TakenThrown), path, now) == Build(BadRequest, TakenThrown, path, now)
  {
    TakenThrownLetters();
    LowerLacksChar(TakenThrown, "not found", 6);
    ClientErrorAnswer(TakenThrown, "already", 19, path, now);
  }

  lemma BalanceThrownLetters()
    ensures forall j :: 0 <= j < |BalanceThrown| ==> LowerChar(BalanceThrown[j]) != 'o'
    ensures forall j :: 0 <= j < 12 ==> LowerChar(BalanceThrown[17 + j]) == "insufficient"[j]
  {
  }

  lemma BalanceThrownAnswer(path: string, now: string)
    ensures HandleRuntime(Some(BalanceThrown), path, now) == Build(BadRequest, BalanceThrown, path, now)
  {
    BalanceThrownLetters();
    LowerLacksChar(BalanceThrown, "not found", 1);
    ClientErrorAnswer(BalanceThrown, "insufficient", 17, path, now);
  }

  lemma FailedThrownLetters()
    ensures forall j :: 0 <= j < |FailedThrown| ==> LowerChar(FailedThrown[j]) != 'u'
    ensures forall j :: 0 <= j < 6 ==> LowerChar(FailedThrown[35 + j]) == "failed"[j]
  {
  }

  /** The controller's 500 "Booking failed" reaches the client as a 400:
      its message says "failed". */
  lemma FailedThrownAnswer(path: string, now: string)
    ensures HandleRuntime(Some(FailedThrown), path, now) == Build(BadRequest, FailedThrown, path, now)
  {
    FailedThrownLetters();
    LowerLacksChar(FailedThrown, "not found", 6);
    ClientErrorAnswer(FailedThrown, "failed", 35, path, now);
  }

  lemma CardThrownLetters()
    ensures forall j :: 0 <= j < |CardThrown| ==> LowerChar(CardThrown[j]) != 'f'
  {
    var head := "400 BAD_REQUEST \"";
    var reason := BookingController.CardReason;
    assert CardThrown == head + reason + "\"";
    assert forall j :: 0 <= j < |head| ==> LowerChar(head[j]) != 'f';
    assert forall j :: 0 <= j < |reason| ==> LowerChar(reason[j]) != 'f';
  }


  lemma CardThrownNoAl()
    ensures forall j :: 0 <= j < |CardThrown| - 1 ==> !(LowerChar(CardThrown[j]) == 'a' && LowerChar(CardThrown[j + 1]) == 'l')
  {
    var head := "400 BAD_REQUEST \"";
    var reason := BookingController.CardReason;
    assert CardThrown == head + reason + "\"";
    assert forall j :: 0 <= j < |head| - 1 ==> !(LowerChar(head[j]) == 'a' && LowerChar(head[j + 1]) == 'l');
    assert forall j :: 0 <= j < |reason| - 1 ==> !(LowerChar(reason[j]) == 'a' && LowerChar(reason[j + 1]) == 'l');
  }


  lemma CardThrownNoIn()
    ensures forall j :: 0 <= j < |CardThrown| - 1 ==> !(LowerChar(CardThrown[j]) == 'i' && LowerChar(CardThrown[j + 1]) == 'n')
  {
    var head := "400 BAD_REQUEST \"";
    var reason := BookingController.CardReason;
    assert CardThrown == head + reason + "\"";
    assert forall j :: 0 <= j < |head| ==> LowerChar(head[j]) != 'i';
    assert forall j :: 0 <= j < |reason| - 1 ==> !(LowerChar(reason[j]) == 'i' && LowerChar(reason[j + 1]) == 'n');
  }


  lemma CardThrownNoUi()
    ensures forall j :: 0 <= j < |CardThrown| - 1 ==> !(LowerChar(CardThrown[j]) == 'u' && LowerChar(CardThrown[j + 1]) == 'i')
  {
    var head := "400 BAD_REQUEST \"";
    var reason := BookingController.CardReason;
    assert CardThrown == head + reason + "\"";
    assert forall j :: 0 <= j < |head| - 1 ==> !(LowerChar(head[j]) == 'u' && LowerChar(head[j + 1]) == 'i');
    assert forall j :: 0 <= j < |reason| - 1 ==> !(LowerChar(reason[j]) == 'u' && LowerChar(reason[j + 1]) == 'i');
  }


  /** The card refusal names no keyword, so the client gets a 500 with the
      generic message instead of the 400 the controller throws. */
  lemma CardThrownAnswer(path: string, now: string)
    ensures HandleRuntime(Some(CardThrown), path, now) == Build(InternalServerError, GenericMessage, path, now)
  {
    var m := CardThrown;
    CardThrownLetters();
    CardThrownNoAl();
    CardThrownNoIn();
    CardThrownNoUi();
    LowerLacksChar(m, "not found", 4);
    LowerLacksPair(m, "already", 0);
    LowerLacksChar(m, "insufficient", 4);
    LowerLacksPair(m, "invalid", 0);
    LowerLacksPair(m, "required", 3);
    LowerLacksChar(m, "failed", 0);
    assert !IsJavaWhitespace(m[0]);
  }

  // The same answers, for the exceptions as the handler receives them.

  lemma InvalidHandled(path: string, now: string)
    ensures Handle(StatusRaised(BadRequest, "Invalid booking request"), path, now) == Build(BadRequest, InvalidThrown, path, now)
  {
    InvalidThrownText();
    InvalidThrownAnswer(path, now);
  }

  lemma TakenHandled(path: string, now: string)
    ensures Handle(StatusRaised(Conflict, "Slot already booked"), path, now) == Build(BadRequest, TakenThrown, path, now)
  {
    TakenThrownText();
    TakenThrownAnswer(path, now);
  }

  lemma BalanceHandled(path: string, now: string)
    ensures Handle(StatusRaised(BadRequest, "Insufficient balance"), path, now) == Build(BadRequest, BalanceThrown, path, now)
  {
    BalanceThrownText();
    BalanceThrownAnswer(path, now);
  }

  lemma FailedHandled(path: string, now: string)
    ensures Handle(StatusRaised(InternalServerError, "Booking failed"), path, now) == Build(BadRequest, FailedThrown, path, now)
  {
    FailedThrownText();
    FailedThrownAnswer(path, now);
  }

  lemma CardHandled(path: string, now: string)
    ensures Handle(StatusRaised(BadRequest, BookingController.CardReason), path, now)
            == Build(InternalServerError, GenericMessage, path, now)
  {
    CardThrownAnswer(path, now);
  }

  /** What the client sees for each status and reason book can throw:
      never a 409; the card refusal becomes a 500 with the generic message,
      and every other refusal a 400 whose message is the exception's text,
      status included. */
  lemma ThrownAnswers(status: HttpStatus, reason: string, path: string, now: string)
    requires (status, reason) in {(BadRequest, "Invalid booking request"), (Conflict, "Slot already booked"),
                                  (BadRequest, "Insufficient balance"), (BadRequest, BookingController.CardReason),
                                  (InternalServerError, "Booking failed")}
    ensures var answer := Handle(StatusRaised(status, reason), path, now);
            answer.status != Conflict
            && (answer.status == InternalServerError <==> reason == BookingController.CardReason)
            && (answer.status == InternalServerError ==> answer.body.message == GenericMessage)
            && (answer.status != InternalServerError ==>
                  answer.status == BadRequest
                  && answer.body.message == BookingController.ThrownMessage(status, reason))
  {
    if (status, reason) == (BadRequest, "Invalid booking request") {
      InvalidThrownText();
      InvalidHandled(path, now);
    } else if (status, reason) == (Conflict, "Slot already booked") {
      TakenThrownText();
      TakenHandled(path, now);
    } else if (status, reason) == (BadRequest, "Insufficient balance") {
      BalanceThrownText();
      BalanceHandled(path, now);
    } else if (status, reason) == (InternalServerError, "Booking failed") {
      FailedThrownText();
      FailedHandled(path, now);
    } else {
      CardHandled(path, now);
    }
  }

  /** The same for whatever book throws. */
  lemma BookClientAnswers(st: Store, request: BookingController.BookingRequest, path: string, now: string)
    requires SportsResolved(st)
    ensures var r := BookingController.Book(st, request, now).0;
            r.Thrown? ==>
              var answer := Handle(StatusRaised(r.status, r.reason), path, now);
              answer.status != Conflict
              && (answer.status == InternalServerError <==> r.reason == BookingController.CardReason)
              && (answer.status == InternalServerError ==> answer.body.message == GenericMessage)
              && (answer.status != InternalServerError ==>
                    answer.status == BadRequest
                    && answer.body.message == BookingController.ThrownMessage(r.status, r.reason))
  {
    var r := BookingController.Book(st, request, now).0;
    BookingController.BookThrowsOnly(st, request, now);
    if r.Thrown? {
      ThrownAnswers(r.status, r.reason, path, now);
    }
  }

  /** A second booking of a taken single-slot slot: the controller throws
      409 "Slot already booked", and the client receives a 400. */
  lemma DoubleBookingAnsweredAs400(st: Store, request: BookingController.BookingRequest, path: string, now: string)
    requires SportsResolved(st)
    requires request.userId.Some? && request.slotId.Some? && request.paymentMode.Some?
    requires BookingService.SlotFound(st, request.slotId.value) && BookingService.SlotTaken(st, request.slotId.value)
    ensures BookingController.Book(st, request, now).0 == BookingController.Thrown(Conflict, "Slot already booked")
    ensures Handle(StatusRaised(Conflict, "Slot already booked"), path, now).status == BadRequest
  {
    BookingController.BookReplies(st, request, now);
    TakenHandled(path, now);
  }

  /** The evidently intended handling: a ResponseStatusException answered
      with its own status and its reason as the message (an advice method
      for ResponseStatusException, which Spring prefers to the
      RuntimeException one as the closer match). Every other failure is
      handled as before. */
  function HandleIntended(failure: Failure, path: string, now: string): (r: ErrorResponse)
    ensures failure.StatusRaised? ==> r.status == failure.status && r.body.message == failure.reason
    ensures !failure.StatusRaised? ==> r == Handle(failure, path, now)
  {
    match failure
    case StatusRaised(status, reason) => Build(status, reason, path, now)
    case _ => Handle(failure, path, now)
  }

  /** With the intended handling the client sees exactly what book throws:
      a double booking is a 409 "Slot already booked", and a missing card
      or a non-wallet payment a 400 with the card reason. */
  lemma BookClientAnswersIntended(st: Store, request: BookingController.BookingRequest, path: string, now: string)
    requires SportsResolved(st)
    ensures var r := BookingController.Book(st, request, now).0;
            r.Thrown? ==>
              var answer := HandleIntended(StatusRaised(r.status, r.reason), path, now);
              answer.status == r.status && answer.body.message == r.reason
              && answer.body.status == r.status.Code() && answer.body.error == r.status.ReasonPhrase()
    ensures request.userId.Some? && request.slotId.Some? && request.paymentMode.Some?
            && BookingService.SlotFound(st, request.slotId.value) && BookingService.SlotTaken(st, request.slotId.value)
            ==> HandleIntended(StatusRaised(Conflict, "Slot already booked"), path, now).status == Conflict
                && BookingController.Book(st, request, now).0 == BookingController.Thrown(Conflict, "Slot already booked")
  {
    BookingController.BookReplies(st, request, now);
  }
}
