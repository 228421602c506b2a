/** BookingController: request validation around the booking services and
    the translation of a failed wallet booking into an HTTP status.
    Lock-wait and deadlock failures of the database are not produced by
    this model; their messages are classified like any other text. */
module BookingController {
  import opened Wrappers
  import opened Text
  import opened Entities
  import opened BookingService
  import opened Http

  datatype BookingRequest = BookingRequest(userId: Option<int>, slotId: Option<int>, paymentMode: Option<string>)

  datatype AdminManualBookingRequest =
    AdminManualBookingRequest(name: Option<string>, phone: Option<string>, email: Option<string>, slotId: Option<int>)

  /** What an endpoint does: return a value, or throw a
      ResponseStatusException with a status and a reason. */
  datatype Reply<T> = Returned(value: T) | Thrown(status: HttpStatus, reason: string)

  /** getMessage() of a ResponseStatusException: the status as
      HttpStatus.toString() writes it, then the reason in double quotes,
      as in `409 CONFLICT "Slot already booked"`. */
  function ThrownMessage(status: HttpStatus, reason: string): string {
    status.Describe() + " \"" + reason + "\""
  }

  const CardReason := "Get your Elite Card Now to reserve slots"
  const SlotNotFound := "Slot not found"
  const PricingMissing := "Sport pricing is not configured"
  const UserNotFound := "User not found"
  const WalletOnly := "Only Elite Card wallet booking is allowed"
  const InsufficientBalance := "Insufficient balance"

  /** The lower-cased message comes from a slot that is taken or locked. */
  predicate NamesLockFailure(msg: string) {
    Contains(msg, "already booked") || Contains(msg, "lock wait timeout")
    || Contains(msg, "deadlock") || Contains(msg, "pessimistic")
  }

  /** The status and reason `book` throws for a failed booking whose
      exception carries `message` (null reads as ""). */
  function FailureReply(message: Option<string>): (HttpStatus, string) {
    var msg := ToLower(message.GetOr(""));
    if NamesLockFailure(msg) then (Conflict, "Slot already booked")
    else if Contains(msg, "insufficient balance") then (BadRequest, "Insufficient balance")
    else if Contains(msg, "elite card") then (BadRequest, CardReason)
    else (InternalServerError, "Booking failed")
  }

  /** The keywords are tried in order on the lower-cased message: a lock
      keyword wins over everything, and a message with no keyword is a 500.
      The reason is one of four fixed texts, each tied to its status, so the
      service's own message never reaches the client; a null message is
      read as the empty one, which is a 500. */
  lemma FailureReplySpec(message: Option<string>)
    ensures var msg := ToLower(message.GetOr(""));
            var r := FailureReply(message);
            (r == (Conflict, "Slot already booked") <==> NamesLockFailure(msg))
            && (r == (BadRequest, "Insufficient balance") <==>
                  !NamesLockFailure(msg) && Contains(msg, "insufficient balance"))
            && (r == (BadRequest, CardReason) <==>
                  !NamesLockFailure(msg) && !Contains(msg, "insufficient balance") && Contains(msg, "elite card"))
            && (r == (InternalServerError, "Booking failed") <==>
                  !NamesLockFailure(msg) && !Contains(msg, "insufficient balance") && !Contains(msg, "elite card"))
    ensures FailureReply(None) == FailureReply(Some("")) == (InternalServerError, "Booking failed")
  {
    var e := ToLower("");
    assert !Contains(e, "already booked") && !Contains(e, "lock wait timeout") && !Contains(e, "deadlock")
           && !Contains(e, "pessimistic") && !Contains(e, "insufficient balance") && !Contains(e, "elite card");
  }

  /** Lower and upper case choose the same reply. */
  lemma FailureReplyIgnoresCase(m: string)
    ensures FailureReply(Some(ToUpper(m))) == FailureReply(Some(m))
  {
    assert ToLower(ToUpper(m)) == ToLower(m);
  }

  // The reply to each message bookSlot can fail with.

  lemma SlotNotFoundLetters()
    ensures forall j :: 0 <= j < |SlotNotFound| ==> LowerChar(SlotNotFound[j]) != 'e'
  {
  }

  lemma SlotNotFoundReply()
    ensures FailureReply(Some(SlotNotFound)) == (InternalServerError, "Booking failed")
  {
    var m := SlotNotFound;
    SlotNotFoundLetters();
    LowerLacksChar(m, "already booked", 3);
    LowerLacksChar(m, "lock wait timeout", 13);
    LowerLacksChar(m, "deadlock", 1);
    LowerLacksChar(m, "pessimistic", 1);
    LowerLacksChar(m, "insufficient balance", 19);
    LowerLacksChar(m, "elite card", 0);
  }

  lemma SlotAlreadyBookedReply()
    ensures FailureReply(Some("Slot already booked")) == (Conflict, "Slot already booked")
  {
    var m := "Slot already booked";
    assert forall j :: 0 <= j < 14 ==> LowerChar(m[5 + j]) == "already booked"[j];
    LowerHasAt(m, "already booked", 5);
  }

  lemma PricingMissingLetters()
    ensures forall j :: 0 <= j < |PricingMissing| ==> LowerChar(PricingMissing[j]) != 'l' && LowerChar(PricingMissing[j]) != 'm'
  {
  }

  lemma PricingMissingReply()
    ensures FailureReply(Some(PricingMissing)) == (InternalServerError, "Booking failed")
  {
    var m := PricingMissing;
    PricingMissingLetters();
    LowerLacksChar(m, "already booked", 1);
    LowerLacksChar(m, "lock wait timeout", 0);
    LowerLacksChar(m, "deadlock", 4);
    LowerLacksChar(m, "pessimistic", 5);
    LowerLacksChar(m, "insufficient balance", 15);
    LowerLacksChar(m, "elite card", 1);
  }

  lemma UserNotFoundLetters()
    ensures forall j :: 0 <= j < |UserNotFound| ==> LowerChar(UserNotFound[j]) != 'l' && LowerChar(UserNotFound[j]) != 'p'
  {
  }

  lemma UserNotFoundReply()
    ensures FailureReply(Some(UserNotFound)) == (InternalServerError, "Booking failed")
  {
    var m := UserNotFound;
    UserNotFoundLetters();
    LowerLacksChar(m, "already booked", 1);
    LowerLacksChar(m, "lock wait timeout", 0);
    LowerLacksChar(m, "deadlock", 4);
    LowerLacksChar(m, "pessimistic", 0);
    LowerLacksChar(m, "insufficient balance", 15);
    LowerLacksChar(m, "elite card", 1);
  }

  lemma NoCardLetters()
    ensures forall j :: 0 <= j < |CardReason| ==> LowerChar(CardReason[j]) != 'b' && LowerChar(CardReason[j]) != 'k' && LowerChar(CardReason[j]) != 'm'
  {
  }

  lemma NoCardKeyword()
    ensures forall j :: 0 <= j < 10 ==> LowerChar(CardReason[9 + j]) == "elite card"[j]
  {
  }

  lemma NoCardReply()
    ensures FailureReply(Some(CardReason)) == (BadRequest, CardReason)
  {
    var m := CardReason;
    NoCardLetters();
    LowerLacksChar(m, "already booked", 8);
    LowerLacksChar(m, "lock wait timeout", 3);
    LowerLacksChar(m, "deadlock", 7);
    LowerLacksChar(m, "pessimistic", 5);
    LowerLacksChar(m, "insufficient balance", 13);
    NoCardKeyword();
    LowerHasAt(m, "elite card", 9);
  }

  lemma WalletOnlyLetters()
    ensures forall j :: 0 <= j < |WalletOnly| ==> LowerChar(WalletOnly[j]) != 'm' && LowerChar(WalletOnly[j]) != 'p' && LowerChar(WalletOnly[j]) != 'f'
  {
  }

  lemma WalletOnlyPairs()
    ensures forall j :: 0 <= j < |WalletOnly| - 1 ==> !(LowerChar(WalletOnly[j]) == 'e' && LowerChar(WalletOnly[j + 1]) == 'a')
  {
  }

  /** The WALLET-only rejection names no lock failure and no balance. */
  lemma WalletOnlyNotBooked()
    ensures !Contains(ToLower(WalletOnly), "already booked") && !Contains(ToLower(WalletOnly), "deadlock")
  {
    WalletOnlyPairs();
    LowerLacksPair(WalletOnly, "already booked", 3);
    LowerLacksPair(WalletOnly, "deadlock", 1);
  }

  lemma WalletOnlyNoEarlierKeyword()
    ensures !NamesLockFailure(ToLower(WalletOnly)) && !Contains(ToLower(WalletOnly), "insufficient balance")
  {
    var m := WalletOnly;
    WalletOnlyNotBooked();
    WalletOnlyLetters();
    LowerLacksChar(m, "lock wait timeout", 12);
    LowerLacksChar(m, "pessimistic", 0);
    LowerLacksChar(m, "insufficient balance", 4);
  }

  /** The WALLET-only rejection is answered with the card message too. */
  lemma WalletOnlyReply()
    ensures FailureReply(Some(WalletOnly)) == (BadRequest, CardReason)
  {
    WalletOnlyNoEarlierKeyword();
    WalletOnlyKeyword();
    LowerHasAt(WalletOnly, "elite card", 5);
  }

  lemma WalletOnlyKeyword()
    ensures forall j :: 0 <= j < 10 ==> LowerChar(WalletOnly[5 + j]) == "elite card"[j]
  {
  }

  lemma InsufficientBalanceLetters()
    ensures forall j :: 0 <= j < |InsufficientBalance| ==> LowerChar(InsufficientBalance[j]) != 'o' && LowerChar(InsufficientBalance[j]) != 'p'
  {
  }

  lemma InsufficientBalanceKeyword()
    ensures forall j :: 0 <= j < 20 ==> LowerChar(InsufficientBalance[j]) == "insufficient balance"[j]
  {
  }

  lemma InsufficientBalanceReply()
    ensures FailureReply(Some(InsufficientBalance)) == (BadRequest, "Insufficient balance")
  {
    var m := InsufficientBalance;
    InsufficientBalanceLetters();
    LowerLacksChar(m, "already booked", 9);
    LowerLacksChar(m, "lock wait timeout", 1);
    LowerLacksChar(m, "deadlock", 5);
    LowerLacksChar(m, "pessimistic", 0);
    InsufficientBalanceKeyword();
    LowerHasAt(m, "insufficient balance", 0);
  }

  // ---------------------------------------------------------------------
  // book
  // ---------------------------------------------------------------------

  /** book: a request missing a field is refused before the service is
      called; otherwise the service's booking is returned, or its failure
      is translated by FailureReply. A failed booking changes nothing. */
  function Book(st: Store, request: BookingRequest, now: string): (r: (Reply<Booking>, Store))
    requires SportsResolved(st)
    ensures r.0.Thrown? ==> r.1 == st
  {
    if request.userId.None? || request.slotId.None? || request.paymentMode.None? then
      (Thrown(BadRequest, "Invalid booking request"), st)
    else
      var (result, st1) := BookSlotIn(st, request.userId.value, request.slotId.value, request.paymentMode, now);
      match result
      case Ok(booking) => (Returned(booking), st1)
      case Err(message) =>
        var (status, reason) := FailureReply(Some(message));
        (Thrown(status, reason), st1)
  }

  /** What book gives back for each outcome of bookSlot: the controller's
      own refusal, the booking itself when every check passes (returned
      unchanged, with the service's new state), and for each failing check
      the status and reason it is translated into. A missing slot, missing
      pricing and an unknown user are all a bare 500; a missing card and a
      non-wallet payment both read "Get your Elite Card Now". A refusal is
      thrown as a ResponseStatusException; what the client then receives is
      decided by the exception handler (ExceptionHandler.BookClientAnswers). */
  lemma BookReplies(st: Store, request: BookingRequest, now: string)
    requires SportsResolved(st)
    ensures var r := Book(st, request, now);
            var valid := request.userId.Some? && request.slotId.Some? && request.paymentMode.Some?;
            var userId := request.userId.GetOr(0);
            var slotId := request.slotId.GetOr(0);
            var pm := request.paymentMode;
            (!valid ==> r == (Thrown(BadRequest, "Invalid booking request"), st))
            && (valid ==>
                  (r.0.Returned? <==> Bookable(st, userId, slotId, pm))
                  && (r.0.Returned? ==>
                        var service := BookSlotIn(st, userId, slotId, pm, now);
                        r.0.value == service.0.value && r.1 == service.1)
                  && (r.0 == Thrown(Conflict, "Slot already booked") <==>
                        SlotFound(st, slotId) && SlotTaken(st, slotId))
                  && (r.0 == Thrown(InternalServerError, "Booking failed") <==>
                        !SlotFound(st, slotId)
                        || (!SlotTaken(st, slotId) && PriceMissing(TheSport(st, slotId)))
                        || (!SlotTaken(st, slotId) && !PriceMissing(TheSport(st, slotId)) && !UserFound(st, userId)))
                  && (r.0 == Thrown(BadRequest, CardReason) <==>
                        SlotFound(st, slotId) && !SlotTaken(st, slotId) && !PriceMissing(TheSport(st, slotId))
                        && UserFound(st, userId)
                        && (IsBlank(TheUser(st, userId).cardUid) || !IsWallet(pm)))
                  && (r.0 == Thrown(BadRequest, "Insufficient balance") <==>
                        SlotFound(st, slotId) && !SlotTaken(st, slotId) && !PriceMissing(TheSport(st, slotId))
                        && UserFound(st, userId) && !IsBlank(TheUser(st, userId).cardUid) && IsWallet(pm)
                        && !CanPay(TheUser(st, userId), TheSport(st, slotId))))
  {
    if request.userId.Some? && request.slotId.Some? && request.paymentMode.Some? {
      BookSlotChecks(st, request.userId.value, request.slotId.value, request.paymentMode, now);
      BookSlotUserFailures(st, request.userId.value, request.slotId.value, request.paymentMode, now);
      BookSlotPaymentFailures(st, request.userId.value, request.slotId.value, request.paymentMode, now);
      SlotNotFoundReply();
      SlotAlreadyBookedReply();
      PricingMissingReply();
      UserNotFoundReply();
      NoCardReply();
      WalletOnlyReply();
      InsufficientBalanceReply();
    }
  }

  /** book throws no status and reason but these five. */
  lemma BookThrowsOnly(st: Store, request: BookingRequest, now: string)
    requires SportsResolved(st)
    ensures var r := Book(st, request, now).0;
            r.Thrown? ==>
              r == Thrown(BadRequest, "Invalid booking request")
              || r == Thrown(Conflict, "Slot already booked")
              || r == Thrown(BadRequest, "Insufficient balance")
              || r == Thrown(BadRequest, CardReason)
              || r == Thrown(InternalServerError, "Booking failed")
  {
    if request.userId.Some? && request.slotId.Some? && request.paymentMode.Some? {
      var service := BookSlotIn(st, request.userId.value, request.slotId.value, request.paymentMode, now);
      if service.0.Err? {
        FailureReplySpec(Some(service.0.message));
      }
    }
  }

  // ---------------------------------------------------------------------
  // adminManualBook
  // ---------------------------------------------------------------------

  /** adminManualBook: a missing or blank name or phone, or a missing slot,
      is refused with one message; otherwise the service books with no
      remarks. The failure is a RuntimeException, answered by the exception
      handler. */
  function AdminManualBook(st: Store, request: AdminManualBookingRequest, now: string)
    : (r: (Result<Booking>, Store))
    requires SportsResolved(st)
    ensures r.0.Err? ==> r.1 == st
  {
    if IsBlank(request.name) || IsBlank(request.phone) || request.slotId.None? then
      (Err("name, phone and slotId are required"), st)
    else
      AdminManualBookIn(st, request.name, request.phone, request.email, None, request.slotId, now)
  }

  /** The controller's check runs first, so the service's own "is required"
      checks never fire through this endpoint: the only failures are the
      controller's refusal, a missing slot and a taken slot. */
  lemma AdminManualBookFailures(st: Store, request: AdminManualBookingRequest, now: string)
    requires SportsResolved(st)
    ensures var r := AdminManualBook(st, request, now).0;
            var valid := !IsBlank(request.name) && !IsBlank(request.phone) && request.slotId.Some?;
            (r == Err("name, phone and slotId are required") <==> !valid)
            && (valid ==> r == AdminManualBookIn(st, request.name, request.phone, request.email, None,
                                                 request.slotId, now).0)
            && (r.Err? ==> r.message in {"name, phone and slotId are required", "Slot not found",
                                         "Slot already booked"})
  {
    if !IsBlank(request.name) && !IsBlank(request.phone) && request.slotId.Some? {
      AdminManualBookChecks(st, request.name, request.phone, request.email, None, request.slotId, now);
    }
  }
}
