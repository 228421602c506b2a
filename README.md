# PlayBox booking core, modelled in Dafny

PlayBox books hourly slots at a sports club. Players pay from a prepaid
wallet tied to an RFID card. The backend is a Spring service. It generates
each sport's hourly slots, books a slot against the wallet, records offline
bookings made by an admin, raises booking notifications, and logs players in
with a one-time password sent by SMS. The web client draws the slot and
booking pages, and the admin console with its transaction history and CSV
export.

This project models that core and proves properties of the model.

- **Backend entities.** `Entities` holds the JPA records and a `Database`
  class with one field per repository. It also provides lookups by id and
  phone number.
- **Backend services.**
  - `SlotService`: slot generation and the swimming-hours window.
  - `BookingService`: wallet booking, offline booking and the day overview.
  - `BookingNotifications`: booking notifications and the admin SMS alert.
  - `TwilioSms`: the text of every SMS message and phone normalisation.
- **Controllers.**
  - `BookingController` and `AuthController` are the request handlers.
  - `ExceptionHandler` builds the JSON error body a failure is answered with.
    A ResponseStatusException thrown by a controller is a RuntimeException,
    so the handler for RuntimeException answers it, reading its message as
    Spring 6 writes it: the status, then the reason in quotes
    (`BookingController.ThrownMessage`).
- **Web client.**
  - `Formatters`: slot-time texts and the "not over yet" test.
  - `SlotPage` and `MyBookings`: the player's pages.
  - `TransactionFilters` and `TransactionTable`: the admin's transaction
    history.
  - `CsvExport`: the CSV download.
  - `AdminConsole`: the console's top-up, deduction, offline-booking and
    notification handlers.
- **Shared modules.**
  - `Text`, `Numbers` and `Lists` write out the library semantics of the two
    runtimes. Examples are Java's `trim`, `split` and `Integer.parseInt`,
    and JavaScript's `trim`, `split`, `Number`, `filter` and `sort`.
  - `Wrappers`, `Http` and `ClientTypes` hold shared datatypes.

Conventions:

- **Errors.** A Java `null`, or a JavaScript `undefined` or `NaN`, is an
  `Option`. An operation that throws is modelled as one that returns a
  `Result`.
- **State.** A service that writes to the database is a method of a class
  that holds the store. That method is proved equal to a function over
  `Database.Snapshot()`, and the properties are lemmas about that function.
  A `@Transactional` method that throws leaves the store as it was.
- **Client handlers.** Each React handler is a class method over the
  component's state. It returns the API call it makes. It takes the call's
  outcome as a parameter.
- **Inputs.** The clock, the random draw for a one-time password and every
  API response are parameters.

## Model

| member | source | states |
|---|---|---|
| SlotService.HourTextShape | playbox/src/main/java/com/example/playbox/service/SlotService.java:45-46 | `%02d:00` of an hour below 100 is five characters: two digits whose value is the hour, then ":00" |
| SlotService.IsSwimmingHourAllowed | playbox/src/main/java/com/example/playbox/service/SlotService.java:90-97 | an allowed start time is non-null, not blank and contains a ':' |
| SlotService.SwimmingHourOfWellFormed | playbox/src/main/java/com/example/playbox/service/SlotService.java:94-103 | for an "HH:MM" time, swimming allows it exactly when the hour is in 8..21 |
| SlotService.TrailingColonNotAllowed | playbox/src/main/java/com/example/playbox/service/SlotService.java:94-97 | "HH:" is refused: Java's split drops the trailing empty piece, which leaves fewer than two parts |
| SlotService.IsSwimmingSlotAllowed | playbox/src/main/java/com/example/playbox/service/SlotService.java:75-80 | a sport that is not swimming allows every start time; a swimming slot needs a time with a ':' |
| SlotService.HourlySlotsAt | playbox/src/main/java/com/example/playbox/service/SlotService.java:43-56 | the i-th slot the loop saves is built from hour from+i and takes id firstId+i |
| SlotService.GenerateSlotsForDate | playbox/src/main/java/com/example/playbox/service/SlotService.java:26-57 | an unknown sport gives "Sport not found" and no change; existing slots for the date mean no change; otherwise sports, users and bookings stay and the old slots are a prefix of the new |
| SlotService.SaveHourlySlots | playbox/src/main/java/com/example/playbox/service/SlotService.java:43-56 | the for loop appends exactly the hourly slots from..to-1 and advances the id counter by their number; nothing else changes |
| SlotService.GenerateSlots | playbox/src/main/java/com/example/playbox/service/SlotService.java:25-57 | the method leaves the repositories as GenerateSlotsForDate says and returns its result |
| SlotService.GenerationOf | playbox/src/main/java/com/example/playbox/service/SlotService.java:36-56 | with a known sport and no slots yet, generation succeeds and appends the hourly slots of the sport's window |
| SlotService.GeneratedSlots | playbox/src/main/java/com/example/playbox/service/SlotService.java:40-53 | a swimming sport gets 14 slots from 08:00, any other sport 24 from 00:00; each is the sport's, on the date, unbooked, with the formatted start and end, and each ends where the next begins |
| SlotService.HourlySlotsChain | playbox/src/main/java/com/example/playbox/service/SlotService.java:45-46 | the end of hour h is the start of hour h+1, with 23:00 ending at 00:00 |
| SlotService.GenerateTwiceIsOnce | playbox/src/main/java/com/example/playbox/service/SlotService.java:33-38 | generating the same sport and date a second time changes nothing |
| SlotService.GeneratedSwimmingSlotsAllowed | playbox/src/main/java/com/example/playbox/service/SlotService.java:40-42 | every slot generated for a swimming sport passes isSwimmingHourAllowed |
| SlotService.StartsBeforeIsStrict | playbox/src/main/java/com/example/playbox/service/SlotService.java:71 | comparing slots by start time is a strict order |
| SlotService.GetVisibleSlotsForDate | playbox/src/main/java/com/example/playbox/service/SlotService.java:60-73 | "Sport not found" exactly for an unknown sport; otherwise the result is a sub-multiset of the sport's slots on that date |
| SlotService.VisibleSlots | playbox/src/main/java/com/example/playbox/service/SlotService.java:64-72 | a sport that is not swimming gets its slots unchanged; a swimming sport gets exactly the slots with an allowed hour, each as often as the repository holds it, sorted by start time |
| BookingService.RecordMultiSlot | playbox/src/main/java/com/example/playbox/service/BookingService.java:276-292 | isMultiSlotSport's write: only the sport at that index changes, its flag becomes "multi-slot or swimming", and a set flag then means multi-slot |
| BookingService.BookSlotIn | playbox/src/main/java/com/example/playbox/service/BookingService.java:43-124 | bookSlot as a transition of the repositories; a failed booking leaves every repository as it was (the transaction rolls back) |
| BookingService.BookSlot | playbox/src/main/java/com/example/playbox/service/BookingService.java:43-124 | the method's result and new repository state are exactly BookSlotIn's |
| BookingService.BookSlotForUser | playbox/src/main/java/com/example/playbox/service/BookingService.java:62-124 | once the slot is found, free and priced, the user, card, payment-mode and balance steps give BookSlotIn's result and state |
| BookingService.BookSlotInSuccess | playbox/src/main/java/com/example/playbox/service/BookingService.java:74-123 | when every check passes, bookSlot returns the booking that the charge records, with the charge's state |
| BookingService.RecordMultiSlotFlag | playbox/src/main/java/com/example/playbox/service/BookingService.java:276-292 | returns whether the sport is multi-slot and persists the flag for a swimming sport; nothing else changes |
| BookingService.PayFromWallet | playbox/src/main/java/com/example/playbox/service/BookingService.java:74-123 | the payment steps (balance update, BOOKING transaction, slot mark, booking, notification) leave the state the specification function Pay describes |
| BookingService.BookSlotChecks | playbox/src/main/java/com/example/playbox/service/BookingService.java:46-60 | success exactly when every check passes; "Slot not found", "Slot already booked" and "Sport pricing is not configured" each exactly when its check is the first to fail |
| BookingService.BookSlotUserFailures | playbox/src/main/java/com/example/playbox/service/BookingService.java:63-68 | "User not found" and "Get your Elite Card Now to reserve slots" each exactly when its check is the first to fail |
| BookingService.BookSlotPaymentFailures | playbox/src/main/java/com/example/playbox/service/BookingService.java:70-78 | "Only Elite Card wallet booking is allowed" for any mode other than WALLET in any case, and "Insufficient balance" when the balance (null as 0) is below the price, each exactly when it is the first failure |
| BookingService.BookSlotSlotChecks | playbox/src/main/java/com/example/playbox/service/BookingService.java:46-60 | a missing slot, a booked single-slot slot or an unpriced sport gives its own message |
| BookingService.BookSlotUserChecks | playbox/src/main/java/com/example/playbox/service/BookingService.java:63-68 | past the slot checks, a missing user or a blank card gives its own message |
| BookingService.BookSlotPaymentChecks | playbox/src/main/java/com/example/playbox/service/BookingService.java:70-78 | past the user checks, a non-wallet mode or a short balance gives its own message, and otherwise the booking succeeds |
| BookingService.BookSlotOk | playbox/src/main/java/com/example/playbox/service/BookingService.java:43-124 | a successful booking had a slot, a user, a price and enough balance, and its result and state are the charge's |
| BookingService.ChargePays | playbox/src/main/java/com/example/playbox/service/BookingService.java:75-111 | the charge lowers only the booker's balance by the price and never below 0, appends one CONFIRMED booking for user, slot and price in the given mode, and appends one BOOKING transaction by SYSTEM carrying the new balance |
| BookingService.ChargeMarksSlot | playbox/src/main/java/com/example/playbox/service/BookingService.java:95-99 | the charge marks a single-slot sport's slot booked, leaves a multi-slot sport's slots alone, and records the multi-slot flag |
| BookingService.BookSlotPays | playbox/src/main/java/com/example/playbox/service/BookingService.java:75-111 | the same money and record facts as ChargePays, stated for a successful bookSlot |
| BookingService.BookSlotMarksSlot | playbox/src/main/java/com/example/playbox/service/BookingService.java:95-99 | the same slot facts as ChargeMarksSlot, stated for a successful bookSlot |
| BookingService.TotalBalanceUpdate | playbox/src/main/java/com/example/playbox/service/BookingService.java:80-81 | replacing one user changes the sum of all balances by that user's difference |
| BookingService.BookSlotConservesMoney | playbox/src/main/java/com/example/playbox/service/BookingService.java:75-106 | a successful booking lowers the sum of all wallets by exactly the booking's amount |
| BookingService.BookSlotKeepsSportsResolved | playbox/src/main/java/com/example/playbox/service/BookingService.java:43-124 | every slot still refers to a known sport after bookSlot |
| BookingService.DoubleBookingRejected | playbox/src/main/java/com/example/playbox/service/BookingService.java:53-55 | after a successful booking of a single-slot sport's slot, any second booking of that slot fails with "Slot already booked" |
| BookingService.MultiSlotStaysOpen | playbox/src/main/java/com/example/playbox/service/BookingService.java:51-55 | after a booking of a multi-slot sport's slot, a second booking is never refused as "Slot already booked" |
| BookingService.TrimmedOrNull | playbox/src/main/java/com/example/playbox/service/BookingService.java:181 | a null or blank text becomes null, any other becomes its trimmed form |
| BookingService.UpsertByPhone | playbox/src/main/java/com/example/playbox/service/BookingService.java:153-167 | the index returned is a valid position of the saved user |
| BookingService.AdminManualBookIn | playbox/src/main/java/com/example/playbox/service/BookingService.java:127-198 | adminManualBookSlot as a transition of the repositories; a failure leaves every repository as it was |
| BookingService.AdminManualBook | playbox/src/main/java/com/example/playbox/service/BookingService.java:127-198 | the method's result and new repository state are exactly AdminManualBookIn's |
| BookingService.SaveOfflineBooking | playbox/src/main/java/com/example/playbox/service/BookingService.java:153-195 | the upsert, slot mark, OFFLINE booking and notification steps leave the state the specification function RecordOffline describes |
| BookingService.RecordOfflineSteps | playbox/src/main/java/com/example/playbox/service/BookingService.java:148-184 | the offline booking is the upserted user's CONFIRMED OFFLINE booking for the slot with the price (0 when unset), the given remarks and the next id; a single-slot slot becomes booked; then the admin is notified |
| BookingService.SaveUserByPhone | playbox/src/main/java/com/example/playbox/service/BookingService.java:153-167 | the method saves exactly UpsertByPhone's users and returns the saved user |
| BookingService.AdminManualBookChecks | playbox/src/main/java/com/example/playbox/service/BookingService.java:128-146 | "Name is required", "Phone is required", "Slot is required", "Slot not found" and "Slot already booked" each exactly when its check is the first to fail, and success exactly when none fails; an unpriced sport is not an error |
| BookingService.UpsertByPhoneSpec | playbox/src/main/java/com/example/playbox/service/BookingService.java:153-166 | an existing user with that phone keeps id, balance and card, gets the new name, and gets the new email only when one is given; otherwise a new user is appended with the name, phone, trimmed email or null, balance 0 and no card; no other user changes |
| BookingService.AdminManualBookKeepsBalances | playbox/src/main/java/com/example/playbox/service/BookingService.java:148-184 | an offline booking moves no money: every balance stays, a new user starts at 0 with no card, and the one appended booking is CONFIRMED, OFFLINE, for the slot, priced at the sport's price or 0, with the trimmed remarks or null |
| BookingService.RecordOfflineKeepsBalances | playbox/src/main/java/com/example/playbox/service/BookingService.java:148-184 | the same facts for the recording step alone |
| BookingService.FirstConfirmed | playbox/src/main/java/com/example/playbox/service/BookingService.java:208-214 | the first CONFIRMED booking of a slot, and None exactly when the slot has no CONFIRMED booking |
| BookingService.FirstOfAppend | playbox/src/main/java/com/example/playbox/service/BookingService.java:211-213 | putIfAbsent keeps the first booking seen for a slot: one more booking matters only when none was seen yet |
| BookingService.FirstOfConfirmedIn | playbox/src/main/java/com/example/playbox/service/BookingService.java:209-214 | for a slot of the day, the first of the CONFIRMED bookings of the day's slots is its first CONFIRMED booking |
| BookingService.CountBooked | playbox/src/main/java/com/example/playbox/service/BookingService.java:225-231 | the booked count never exceeds the number of slots |
| BookingService.DayStatuses | playbox/src/main/java/com/example/playbox/service/BookingService.java:224-253 | one status per slot of the day |
| BookingService.SportDayOverview | playbox/src/main/java/com/example/playbox/service/BookingService.java:201-266 | "Sport not found" exactly for an unknown sport |
| BookingService.SportDayOverviewSpec | playbox/src/main/java/com/example/playbox/service/BookingService.java:224-262 | per slot in order: its id, date and times; booked exactly when the slot is flagged or has a CONFIRMED booking; that booking's id, user, amount, status and mode; totals with at most all slots booked and empty = total - booked |
| BookingService.GetSportDayOverview | playbox/src/main/java/com/example/playbox/service/BookingService.java:200-266 | the method returns SportDayOverview of the repositories |
| BookingService.BySlotIsFirstConfirmed | playbox/src/main/java/com/example/playbox/service/BookingService.java:205-214 | the map built from the day's CONFIRMED bookings gives each slot its first CONFIRMED booking, or nothing |
| BookingService.SportDayOverviewOf | playbox/src/main/java/com/example/playbox/service/BookingService.java:255-265 | the overview carries the sport's id, name and court, the date, the slot count, the booked count, max(total - booked, 0) and the statuses |
| BookingService.FirstBookingBySlot | playbox/src/main/java/com/example/playbox/service/BookingService.java:208-214 | the putIfAbsent loop's map holds exactly the slots some booking names, each with the first booking for it |
| BookingService.SlotStatuses | playbox/src/main/java/com/example/playbox/service/BookingService.java:224-253 | the loop builds exactly DayStatuses and counts exactly its booked entries |
| BookingNotifications.BookingMessageShape | playbox/src/main/java/com/example/playbox/service/BookingNotificationService.java:43-48 | the alert starts with "New booking: ", the user's name and " (", ends with the slot's end time, and a null name, phone or sport name prints exactly as "" |
| BookingNotifications.NotifyBookingCreated | playbox/src/main/java/com/example/playbox/service/BookingNotificationService.java:30-49 | exactly one notification is appended, unseen, copying the booking id, the user's id, name and phone, the sport name and the slot's date and times, with the booking message; nothing else changes but the id counter |
| BookingNotifications.NotifyBooking | playbox/src/main/java/com/example/playbox/service/BookingNotificationService.java:30-49 | the method leaves the repositories as NotifyBookingCreated says |
| BookingNotifications.MarkSeenIn | playbox/src/main/java/com/example/playbox/service/BookingNotificationService.java:60-65 | "Notification not found" with no change exactly for an unknown id; otherwise that notification, and no other, gets seen = true and is returned |
| BookingNotifications.MarkSeenIdempotent | playbox/src/main/java/com/example/playbox/service/BookingNotificationService.java:60-65 | marking the same id seen twice gives the same result and state as once |
| BookingNotifications.MarkSeen | playbox/src/main/java/com/example/playbox/service/BookingNotificationService.java:59-65 | the method's result and new state are exactly MarkSeenIn's |
| BookingNotifications.AdminTarget | playbox/src/main/java/com/example/playbox/service/BookingNotificationService.java:70-87 | an admin is texted exactly when the upper-cased role names OWNER, STAFF or ADMIN and there is a non-blank phone or a username with exactly ten digits; the phone wins, else those ten digits |
| BookingNotifications.DigitsNotBlank | playbox/src/main/java/com/example/playbox/service/BookingNotificationService.java:80-84 | ten digits are never blank, so the fallback number always passes the second blank check |
| BookingNotifications.AdminAlerts | playbox/src/main/java/com/example/playbox/service/BookingNotificationService.java:67-94 | at most one alert per admin, each to a non-blank number and each reading "Elite Club Admin Alert: " + message |
| BookingNotifications.AdminAlertsAppend | playbox/src/main/java/com/example/playbox/service/BookingNotificationService.java:69-93 | the alerts for two lists of admins are the first list's followed by the second's: each admin is decided alone, and one skipped or failed send does not stop the rest |
| BookingNotifications.AdminAlertsOne | playbox/src/main/java/com/example/playbox/service/BookingNotificationService.java:70-92 | one admin yields one alert to its target when it has one, else none |
| BookingNotifications.SendAdminSms | playbox/src/main/java/com/example/playbox/service/BookingNotificationService.java:67-94 | the for loop with its continues hands the sender exactly AdminAlerts, in admin order |
| BookingController.FailureReplySpec | playbox/src/main/java/com/example/playbox/controller/BookingController.java:51-65 | the status and reason thrown, on the lower-cased message (null as ""): a lock keyword gives 409 "Slot already booked" before anything else, then "insufficient balance" gives 400 "Insufficient balance", then "elite card" gives 400 with the card text, and anything else gives 500 "Booking failed"; each exactly under its condition |
| BookingController.FailureReplyIgnoresCase | playbox/src/main/java/com/example/playbox/controller/BookingController.java:52 | the classification does not depend on the message's letter case |
| BookingController.SlotNotFoundReply | playbox/src/main/java/com/example/playbox/controller/BookingController.java:65 | the service's "Slot not found" becomes 500 "Booking failed" |
| BookingController.SlotAlreadyBookedReply | playbox/src/main/java/com/example/playbox/controller/BookingController.java:53-57 | the service's "Slot already booked" becomes 409 "Slot already booked" |
| BookingController.PricingMissingReply | playbox/src/main/java/com/example/playbox/controller/BookingController.java:65 | "Sport pricing is not configured" becomes 500 "Booking failed" |
| BookingController.UserNotFoundReply | playbox/src/main/java/com/example/playbox/controller/BookingController.java:65 | "User not found" becomes 500 "Booking failed" |
| BookingController.NoCardReply | playbox/src/main/java/com/example/playbox/controller/BookingController.java:62-64 | the missing-card message becomes 400 with the same text |
| BookingController.WalletOnlyReply | playbox/src/main/java/com/example/playbox/controller/BookingController.java:62-64 | the WALLET-only refusal contains "elite card" and so becomes 400 "Get your Elite Card Now to reserve slots" |
| BookingController.InsufficientBalanceReply | playbox/src/main/java/com/example/playbox/controller/BookingController.java:59-61 | "Insufficient balance" becomes 400 "Insufficient balance" |
| BookingController.Book | playbox/src/main/java/com/example/playbox/controller/BookingController.java:35-67 | a thrown reply leaves the repositories as they were |
| BookingController.BookReplies | playbox/src/main/java/com/example/playbox/controller/BookingController.java:38-66 | a request missing userId, slotId or paymentMode is refused with a thrown 400 "Invalid booking request" and the service is not called; otherwise the service's booking and state are returned unchanged exactly when bookSlot's checks pass, and each failing check is tied to the one status and reason thrown for it (what the client then receives is ExceptionHandler.BookClientAnswers) |
| BookingController.BookThrowsOnly | playbox/src/main/java/com/example/playbox/controller/BookingController.java:42-65 | book throws one of five status and reason pairs: 400 "Invalid booking request", 409 "Slot already booked", 400 "Insufficient balance", 400 with the card reason, or 500 "Booking failed" |
| BookingController.AdminManualBook | playbox/src/main/java/com/example/playbox/controller/BookingController.java:69-83 | a refused request leaves the repositories as they were |
| BookingController.AdminManualBookFailures | playbox/src/main/java/com/example/playbox/controller/BookingController.java:71-82 | "name, phone and slotId are required" exactly when the name or phone is blank or the slot id is missing; otherwise the service's outcome with no remarks; the only failures are that refusal, "Slot not found" and "Slot already booked" |
| ExceptionHandler.SafeMessage | playbox/src/main/java/com/example/playbox/exception/GlobalExceptionHandler.java:90-93 | a null or blank message gives the fallback, any other message is kept unchanged |
| ExceptionHandler.Build | playbox/src/main/java/com/example/playbox/exception/GlobalExceptionHandler.java:79-88 | the response has the given status, and its body holds that status's code and reason phrase, the message, the request path and the timestamp |
| ExceptionHandler.HandleRuntimeSpec | playbox/src/main/java/com/example/playbox/exception/GlobalExceptionHandler.java:48-68 | on the lower-cased safe message: 404 exactly when it contains "not found"; otherwise 400 exactly when it contains already, insufficient, invalid, required or failed; otherwise 500; never 409; 404 and 400 keep the message, 500 replaces it with "Something went wrong. Please try again." |
| ExceptionHandler.HandleRuntimeBlank | playbox/src/main/java/com/example/playbox/exception/GlobalExceptionHandler.java:50-61 | a null or blank message becomes "Request failed", which contains "failed" and so is a 400 |
| ExceptionHandler.Handle | playbox/src/main/java/com/example/playbox/exception/GlobalExceptionHandler.java:21-88 | whichever handler answers, the body's status is the HTTP code, its error the reason phrase and its path the request path |
| ExceptionHandler.HandleStatuses | playbox/src/main/java/com/example/playbox/exception/GlobalExceptionHandler.java:21-77 | bad-input exceptions give 400 with their safe message or "Invalid request"; a data-integrity violation, and only it, gives 409 "Request conflicts with existing data"; any other non-runtime exception gives 500 with the generic text; a runtime exception goes to handleRuntime; a controller's ResponseStatusException is a RuntimeException and is classified by handleRuntime on its getMessage() text |
| ExceptionHandler.NotFoundAnswer | playbox/src/main/java/com/example/playbox/exception/GlobalExceptionHandler.java:54-55 | a message holding "not found" in any case is answered 404 with the message itself |
| ExceptionHandler.ClientErrorAnswer | playbox/src/main/java/com/example/playbox/exception/GlobalExceptionHandler.java:56-61 | a message holding one of the five client keywords, and not "not found", is answered 400 with the message itself |
| ExceptionHandler.IncompleteRequestAnswer | playbox/src/main/java/com/example/playbox/exception/GlobalExceptionHandler.java:56-61 | "name, phone and slotId are required" is a 400 with that message |
| ExceptionHandler.SlotNotFoundAnswer | playbox/src/main/java/com/example/playbox/exception/GlobalExceptionHandler.java:54-55 | "Slot not found" from the manual booking is a 404 |
| ExceptionHandler.SlotTakenAnswer | playbox/src/main/java/com/example/playbox/exception/GlobalExceptionHandler.java:56-61 | "Slot already booked" from the manual booking is a 400, not a 409 |
| ExceptionHandler.AdminManualBookAnswers | playbox/src/main/java/com/example/playbox/exception/GlobalExceptionHandler.java:48-68 | every failure of the manual-booking endpoint keeps its message, and is a 404 for "Slot not found" and a 400 otherwise |
| ExceptionHandler.PhoneAndOtpMissingAnswer | playbox/src/main/java/com/example/playbox/exception/GlobalExceptionHandler.java:56-61 | "Phone and OTP required" is a 400 |
| ExceptionHandler.OtpNotFoundAnswer | playbox/src/main/java/com/example/playbox/exception/GlobalExceptionHandler.java:54-55 | "OTP not found" is a 404 |
| ExceptionHandler.InvalidOtpAnswer | playbox/src/main/java/com/example/playbox/exception/GlobalExceptionHandler.java:56-61 | "Invalid OTP" is a 400 |
| ExceptionHandler.SignupNameMissingAnswer | playbox/src/main/java/com/example/playbox/exception/GlobalExceptionHandler.java:56-61 | "Name is required for new user signup" is a 400 |
| ExceptionHandler.VerifyOtpAnswers | playbox/src/main/java/com/example/playbox/exception/GlobalExceptionHandler.java:48-68 | every failure of verifyOtp keeps its message, and is a 404 for "OTP not found" and a 400 otherwise |
| ExceptionHandler.VerifyOtpMessageAnswer | playbox/src/main/java/com/example/playbox/exception/GlobalExceptionHandler.java:48-68 | the same for each of verifyOtp's four messages |
| ExceptionHandler.PhoneMissingAnswer | playbox/src/main/java/com/example/playbox/exception/GlobalExceptionHandler.java:56-61 | sendOtp's "Phone number required" is a 400 |
| ExceptionHandler.SendFailureAnswer | playbox/src/main/java/com/example/playbox/exception/GlobalExceptionHandler.java:48-68 | "Failed to send OTP: ..." keeps its message and is a 404 when the provider's text says "not found", else a 400 |
| ExceptionHandler.SendOtpAnswers | playbox/src/main/java/com/example/playbox/exception/GlobalExceptionHandler.java:48-68 | every sendOtp failure other than the trial-account text keeps its message and is never a 500 |
| ExceptionHandler.NotificationNotFoundAnswer | playbox/src/main/java/com/example/playbox/exception/GlobalExceptionHandler.java:54-55 | "Notification not found" is a 404 |
| ExceptionHandler.SportNotFoundAnswer | playbox/src/main/java/com/example/playbox/exception/GlobalExceptionHandler.java:54-55 | "Sport not found" is a 404 |
| ExceptionHandler.MarkSeenAnswer | playbox/src/main/java/com/example/playbox/exception/GlobalExceptionHandler.java:54-55 | markSeen's failure is answered 404 with its message |
| ExceptionHandler.DayOverviewAnswer | playbox/src/main/java/com/example/playbox/exception/GlobalExceptionHandler.java:54-55 | the day overview's failure is answered 404 with its message |
| ExceptionHandler.InvalidThrownAnswer | playbox/src/main/java/com/example/playbox/exception/GlobalExceptionHandler.java:48-61 | `400 BAD_REQUEST "Invalid booking request"` says "invalid" and is a 400 with that whole text as the message |
| ExceptionHandler.TakenThrownAnswer | playbox/src/main/java/com/example/playbox/exception/GlobalExceptionHandler.java:48-61 | `409 CONFLICT "Slot already booked"` says "already" and is a 400 with that whole text |
| ExceptionHandler.BalanceThrownAnswer | playbox/src/main/java/com/example/playbox/exception/GlobalExceptionHandler.java:48-61 | `400 BAD_REQUEST "Insufficient balance"` is a 400 with that whole text |
| ExceptionHandler.FailedThrownAnswer | playbox/src/main/java/com/example/playbox/exception/GlobalExceptionHandler.java:48-61 | `500 INTERNAL_SERVER_ERROR "Booking failed"` says "failed" and is a 400 with that whole text |
| ExceptionHandler.CardThrownAnswer | playbox/src/main/java/com/example/playbox/exception/GlobalExceptionHandler.java:48-67 | the card refusal names none of the keywords and becomes a 500 with the generic message |
| ExceptionHandler.InvalidHandled | playbox/src/main/java/com/example/playbox/exception/GlobalExceptionHandler.java:48-61 | the controller's ResponseStatusException for an incomplete request, caught as a RuntimeException, is a 400 with its getMessage() text |
| ExceptionHandler.TakenHandled | playbox/src/main/java/com/example/playbox/exception/GlobalExceptionHandler.java:48-61 | the controller's 409 for a taken slot reaches the client as a 400 |
| ExceptionHandler.BalanceHandled | playbox/src/main/java/com/example/playbox/exception/GlobalExceptionHandler.java:48-61 | the controller's 400 for a low balance stays a 400, its message carrying the status text |
| ExceptionHandler.FailedHandled | playbox/src/main/java/com/example/playbox/exception/GlobalExceptionHandler.java:48-61 | the controller's 500 "Booking failed" reaches the client as a 400 |
| ExceptionHandler.CardHandled | playbox/src/main/java/com/example/playbox/exception/GlobalExceptionHandler.java:48-67 | the controller's 400 card refusal reaches the client as a 500 "Something went wrong. Please try again." |
| ExceptionHandler.ThrownAnswers | playbox/src/main/java/com/example/playbox/exception/GlobalExceptionHandler.java:48-68 | for each of the five status and reason pairs book throws: never a 409, a 500 with the generic message exactly for the card reason, and otherwise a 400 carrying the exception's full message |
| ExceptionHandler.BookClientAnswers | playbox/src/main/java/com/example/playbox/exception/GlobalExceptionHandler.java:48-68 | whatever book throws, the client never gets a 409; it gets a 500 with the generic message exactly for the card refusal, and otherwise a 400 whose message is the exception's status text and quoted reason |
| ExceptionHandler.DoubleBookingAnsweredAs400 | playbox/src/main/java/com/example/playbox/controller/BookingController.java:53-57 | a second booking of a taken slot is thrown as 409 "Slot already booked" and answered 400 |
| ExceptionHandler.HandleIntended | playbox/src/main/java/com/example/playbox/exception/GlobalExceptionHandler.java:48-68 | the corrected handling: a ResponseStatusException is answered with its own status and its reason as the message; every other failure as before |
| ExceptionHandler.BookClientAnswersIntended | playbox/src/main/java/com/example/playbox/controller/BookingController.java:42-65 | under the corrected handling the client gets exactly the status, code, reason phrase and reason book throws, so a double booking is a 409 |
| AuthController.OtpCode | playbox/src/main/java/com/example/playbox/controller/AuthController.java:40 | the code for a draw in 0..8999 is four digits with no leading zero whose value is draw + 1000, so it lies in 1000..9999 |
| AuthController.FourDigits | playbox/src/main/java/com/example/playbox/controller/AuthController.java:40 | String.valueOf of a number in 1000..9999 is four digits spelling that number |
| AuthController.SendFailureSpec | playbox/src/main/java/com/example/playbox/controller/AuthController.java:51-58 | a provider error mentioning "unverified" or "trial" in any case gives the trial-account text; any other gives "Failed to send OTP: " followed by the provider's message ("null" when it has none) |
| AuthController.SendOtpIn | playbox/src/main/java/com/example/playbox/controller/AuthController.java:31-61 | "Phone number required" exactly for a null or blank phone, with nothing saved; otherwise one unverified record with the phone and the code is saved whether or not the SMS goes out, and the call succeeds exactly when the SMS is delivered |
| AuthController.SendOtp | playbox/src/main/java/com/example/playbox/controller/AuthController.java:31-61 | the method's result and new state are exactly SendOtpIn's |
| AuthController.LatestOtp | playbox/src/main/java/com/example/playbox/controller/AuthController.java:77-79 | findTopByPhoneOrderByIdDesc: None exactly when no record has the phone; otherwise a record with the phone whose id is the largest among them |
| AuthController.LegacyCardPrefix | playbox/src/main/java/com/example/playbox/controller/AuthController.java:118-123 | any trimmable prefix, any letter case of "CARD-" and any tail make a legacy card id |
| AuthController.NotLegacyCard | playbox/src/main/java/com/example/playbox/controller/AuthController.java:118-123 | no card, or one whose trimmed, upper-cased form does not start with "CARD-", is not a legacy id |
| AuthController.VerifyOtpSpec | playbox/src/main/java/com/example/playbox/controller/AuthController.java:66-116 | "Phone and OTP required" exactly when either is null; "OTP not found" exactly when no record has the phone; "Invalid OTP" exactly when the latest record's code differs, and then nothing changes; a match marks that one record verified, with no age or reuse check, and keeps the verification even when signup then fails; a returned user has the phone and no legacy card; the only later failure is "Name is required for new user signup", exactly for an unknown phone with a blank name |
| AuthController.VerifyOtpErrors | playbox/src/main/java/com/example/playbox/controller/AuthController.java:73-103 | verifyOtp fails only with one of its four messages |
| AuthController.VerifyOtpUsers | playbox/src/main/java/com/example/playbox/controller/AuthController.java:89-115 | a signup appends exactly one user with the phone, the trimmed name, balance 0, no card and no email; a login changes at most the user's card, which is cleared exactly when it is a legacy id, and no other user |
| AuthController.VerifyOtp | playbox/src/main/java/com/example/playbox/controller/AuthController.java:66-116 | the method's result and new state are exactly VerifyOtpIn's |
| TwilioSms.CleanPhone | playbox/src/main/java/com/example/playbox/service/TwilioSmsService.java:130 | the cleaned number holds only digits and '+' |
| TwilioSms.TrimIsIdentity | playbox/src/main/java/com/example/playbox/service/TwilioSmsService.java:130 | the trim after the clean-up changes nothing, since digits and '+' are not trimmable |
| TwilioSms.NormalizePhone | playbox/src/main/java/com/example/playbox/service/TwilioSmsService.java:125-128 | fails exactly for a null or blank number, with "Phone number is missing" |
| TwilioSms.NormalizePhoneSpec | playbox/src/main/java/com/example/playbox/service/TwilioSmsService.java:130-143 | a cleaned number starting with '+' is kept, one of ten characters gets "+91" in front, any other gets "+"; so every result starts with '+' and holds only digits after it and '+' |
| TwilioSms.NormalizePhoneIdempotent | playbox/src/main/java/com/example/playbox/service/TwilioSmsService.java:125-144 | a normalised number normalises to itself |
| TwilioSms.NormalizePhoneTwice | playbox/src/main/java/com/example/playbox/service/TwilioSmsService.java:125-144 | normalising a normalised number again gives the same result |
| TwilioSms.ToAmPm | playbox/src/main/java/com/example/playbox/service/TwilioSmsService.java:150-153 | a null or blank time is returned as it is, and a non-null time never becomes null |
| TwilioSms.ToAmPmAgreesWithFormatClockTime | playbox/src/main/java/com/example/playbox/service/TwilioSmsService.java:154-160 | on a well-formed "HH:MM" time, toAmPm and the client's formatClockTime give the same text |
| TwilioSms.ToAmPmTrailingColon | playbox/src/main/java/com/example/playbox/service/TwilioSmsService.java:154-163 | "12:" is returned unchanged (parts[1] does not exist), while formatClockTime turns it into "12:00 PM" |
| TwilioSms.SplitTrailingColon | playbox/src/main/java/com/example/playbox/service/TwilioSmsService.java:155 | Java splits "12:" into the single piece "12" |
| TwilioSms.NoonText | playbox/src/main/java/com/example/playbox/service/TwilioSmsService.java:158-160 | hour 12, minute 0 reads "12:00 PM" |
| TwilioSms.SportLabel | playbox/src/main/java/com/example/playbox/service/TwilioSmsService.java:57 | a null or blank sport name reads "Sport", any other is kept |
| TwilioSms.DeductionReason | playbox/src/main/java/com/example/playbox/service/TwilioSmsService.java:52 | a null or blank description reads "Activity", any other is kept |
| TwilioSms.ConfirmationNamesSport | playbox/src/main/java/com/example/playbox/service/TwilioSmsService.java:56-62 | the confirmation text names the sport or "Sport" |
| TwilioSms.DeductionSummaryNamesSport | playbox/src/main/java/com/example/playbox/service/TwilioSmsService.java:65-81 | the booking-with-deduction text names the sport or "Sport" |
| TwilioSms.OfflineOtpNamesSport | playbox/src/main/java/com/example/playbox/service/TwilioSmsService.java:84-98 | the offline-booking OTP text names the sport or "Sport" |
| TwilioSms.DeductionNamesReason | playbox/src/main/java/com/example/playbox/service/TwilioSmsService.java:51-53 | the balance-deducted text names the description or "Activity" |
| Formatters.Hour12 | playbox-frontend/src/utils/formatters.ts:77 | for a non-negative hour the dial shows 1..12 and agrees with the hour modulo 12, so 0 and 12 both show 12 |
| Formatters.FormatClockTime | playbox-frontend/src/utils/formatters.ts:71-79 | "N/A" for the empty string; the input unchanged when the hour or the minute is NaN; with no ':' the minute is `undefined`, which passes the NaN test, so the hour is followed by ":undefined"; otherwise the 12-hour text of the parsed hour and minute |
| Formatters.ClockPartsOfWellFormed | playbox-frontend/src/utils/formatters.ts:73 | split(":").map(Number) of "H:M" with digit runs H and M gives their values |
| Formatters.Clock12RoundTrip | playbox-frontend/src/utils/formatters.ts:76-78 | for 0 <= h < 24 and 0 <= m < 60 the text is eight characters, reads back as (h, m), and ends in PM exactly when h >= 12 |
| Formatters.FormatClockTimeRoundTrip | playbox-frontend/src/utils/formatters.ts:71-79 | a well-formed 24-hour time is formatted to eight characters that read back as the same hour and minute, with PM exactly from hour 12 |
| Formatters.FormatSlotRangeRoundTrip | playbox-frontend/src/utils/formatters.ts:84-86 | the range of two well-formed times is nineteen characters, the two times joined by " - ", each reading back as its input |
| Formatters.SlotRangeOfClockTexts | playbox-frontend/src/utils/formatters.ts:84-86 | the range text is the two clock texts joined by " - ", each half recoverable |
| Formatters.EndMinute | playbox-frontend/src/utils/formatters.ts:105-109 | unreadable (the NaN test passes the slot) exactly when the hour or the minute is NaN; an invalid date exactly when the hour is a number but there is no ':'; otherwise the end is hour * 60 + minute |
| Formatters.IsPresentOrFutureSlot | playbox-frontend/src/utils/formatters.ts:92-111 | true when any argument is empty; a later date is true and an earlier one false whatever the times; on today's date true exactly when the end time is unreadable or its minute of the day is later than now, and false for an invalid end date |
| Formatters.StartTimeIrrelevant | playbox-frontend/src/utils/formatters.ts:97 | the start time only matters by being empty or not: any two non-empty start times give the same answer |
| Formatters.MidnightEndHiddenToday | playbox-frontend/src/utils/formatters.ts:105-110 | on today's date a slot ending "00:00" (the generated 23:00 slot) is never shown, because its end is taken as the start of today |
| Formatters.NoMinuteToday | playbox-frontend/src/utils/formatters.ts:105-110 | on today's date an end time without ':' is shown exactly when its hour is NaN: a numeric hour with an `undefined` minute makes an invalid date, which is never later than now |
| Formatters.HourOnlyEndHiddenToday | playbox-frontend/src/utils/formatters.ts:105-110 | on today's date a slot ending "18" is never shown |
| Formatters.FormatNoMinute | playbox-frontend/src/utils/formatters.ts:73-78 | a non-empty time without ':' whose text is the number h is formatted as the 12-hour form of h followed by ":undefined" and the meridiem |
| TransactionFilters.Stored | playbox-frontend/src/components/transactions/TransactionFilters.tsx:25 | `value \|\| undefined` stores undefined exactly for a falsy value ("", 0, NaN, undefined) and the value itself otherwise |
| TransactionFilters.ActiveIffSomeTag | playbox-frontend/src/components/transactions/TransactionFilters.tsx:33-35 | on a record written only through handleInputChange, hasActiveFilters holds exactly when some key's tag is shown |
| TransactionFilters.StoreKeepsWellStored | playbox-frontend/src/components/transactions/TransactionFilters.tsx:22-27 | storing a value keeps every key either undefined or truthy, and the key's tag disappears exactly when the value is falsy |
| TransactionFilters.FilterPanel.constructor | playbox-frontend/src/components/transactions/TransactionFilters.tsx:11 | the panel starts with the empty record |
| TransactionFilters.FilterPanel.HandleInputChange | playbox-frontend/src/components/transactions/TransactionFilters.tsx:22-27 | only the given key changes, to the stored form of the value; every other key keeps its presence and value |
| TransactionFilters.FilterPanel.ClearFilters | playbox-frontend/src/components/transactions/TransactionFilters.tsx:29-31 | the record becomes empty, after which hasActiveFilters is false |
| TransactionFilters.FilterPanel.RemoveTag | playbox-frontend/src/components/transactions/TransactionFilters.tsx:134-163 | a tag's × button sets that key to undefined, hides its tag and leaves the other keys unchanged |
| TransactionTable.StatsOf | playbox-frontend/src/components/transactions/TransactionTable.tsx:38-56 | netBalance is totalAdd - totalDeduct, totalTransactions is the list's length, and newUsers never exceeds it |
| TransactionTable.StatsConcat | playbox-frontend/src/components/transactions/TransactionTable.tsx:38-56 | every statistic of a concatenation is the sum of the two parts' statistics |
| TransactionTable.StatsOfOne | playbox-frontend/src/components/transactions/TransactionTable.tsx:39-47 | one transaction adds its amount (missing as 0) to totalAdd when it is ADD, to totalDeduct when it is DEDUCT or BOOKING, and counts as a new user when it is NEW_USER |
| TransactionTable.BeforeIsStrictOrder | playbox-frontend/src/components/transactions/TransactionTable.tsx:80-97 | the comparator's "comes first" relation, for every column and direction, is a strict order |
| TransactionTable.FilteredAndSorted | playbox-frontend/src/components/transactions/TransactionTable.tsx:59-100 | the result holds each transaction as often as the input when it passes the search and type filters and not at all otherwise (a sub-multiset of a copy, the input untouched), and it is ordered by the chosen column and direction whenever every timestamp reads as a date or another column is chosen |
| TransactionTable.NaNTimeTiesWithAll | playbox-frontend/src/components/transactions/TransactionTable.tsx:89-96 | an unreadable timestamp's NaN ties with both 1 and 5 while 1 comes before 5, so the timestamp comparator is not a consistent order |
| TransactionTable.TotalPages | playbox-frontend/src/components/transactions/TransactionTable.tsx:103 | ceil(n/k): zero pages exactly for no items, and otherwise the last page is the first whose end reaches n |
| TransactionTable.PageItemsShape | playbox-frontend/src/components/transactions/TransactionTable.tsx:104-106 | page p shows items (p-1)k onwards, never more than k, at least one on every existing page and none past the last |
| TransactionTable.ItemOnItsPage | playbox-frontend/src/components/transactions/TransactionTable.tsx:103-106 | item i is shown on page i/k + 1, at position i mod k |
| TransactionTable.ShowingRangeCounts | playbox-frontend/src/components/transactions/TransactionTable.tsx:262 | on an existing page "Showing a to b" counts exactly the items shown |
| TransactionTable.PageWindow | playbox-frontend/src/components/transactions/TransactionTable.tsx:449 | the row has min(5, totalPages) buttons |
| TransactionTable.PageWindowRange | playbox-frontend/src/components/transactions/TransactionTable.tsx:449-460 | for a current page in 1..totalPages the buttons are consecutive page numbers within 1..totalPages and include the current page |
| TransactionTable.LastPageLinkIffMissing | playbox-frontend/src/components/transactions/TransactionTable.tsx:473 | with more than five pages the ellipsis and last-page button appear exactly when the row lacks the last page |
| TransactionTable.PreviousNextClamp | playbox-frontend/src/components/transactions/TransactionTable.tsx:440-487 | Previous and Next keep the page within 1..totalPages, moving by one unless already at that end |
| TransactionTable.TableState.constructor | playbox-frontend/src/components/transactions/TransactionTable.tsx:30-35 | no search, type "all", sorted by timestamp descending, page 1, 20 per page |
| TransactionTable.TableState.SetSearchTerm | playbox-frontend/src/components/transactions/TransactionTable.tsx:108-111 | a new search term resets the page to 1; the same term keeps it; nothing else changes |
| TransactionTable.TableState.SetFilterType | playbox-frontend/src/components/transactions/TransactionTable.tsx:108-111 | a new type resets the page to 1; the same type keeps it; nothing else changes |
| TransactionTable.TableState.HandleSort | playbox-frontend/src/components/transactions/TransactionTable.tsx:114-121 | the current column flips the direction, another column is selected with "desc", and either resets the page to 1 |
| TransactionTable.TableState.SetItemsPerPage | playbox-frontend/src/components/transactions/TransactionTable.tsx:247 | the page size changes and the current page does not |
| TransactionTable.TableState.SetItemsPerPageFromFirstPage | playbox-frontend/src/components/transactions/TransactionTable.tsx:247 | the corrected handler: the page size changes and the page returns to 1 |
| TransactionTable.TableState.Previous | playbox-frontend/src/components/transactions/TransactionTable.tsx:440 | the page becomes max(page - 1, 1); nothing else changes |
| TransactionTable.TableState.Next | playbox-frontend/src/components/transactions/TransactionTable.tsx:487 | the page becomes min(page + 1, totalPages); nothing else changes |
| TransactionTable.TableState.GoToPage | playbox-frontend/src/components/transactions/TransactionTable.tsx:465-477 | a page button sets that page; nothing else changes |
| TransactionTable.ItemsPerPageStrandsPage | playbox-frontend/src/components/transactions/TransactionTable.tsx:247 | with 25 results on page 3 of 10 per page, choosing 50 per page leaves page 3 of 1: no rows, no pagination bar, and "Showing 101 to 25" |
| TransactionTable.FirstPageAfterResize | playbox-frontend/src/components/transactions/TransactionTable.tsx:103-106 | after the corrected resize page 1 shows min(k, n) items, so a non-empty list always shows rows |
| CsvExport.Keys | playbox-frontend/src/utils/export.ts:5 | Object.keys: one header per key, in the object's key order |
| CsvExport.Lookup | playbox-frontend/src/utils/export.ts:10 | `row[header]` is undefined when no key matches, and the first pair's value when its key matches |
| CsvExport.QuoteCell | playbox-frontend/src/utils/export.ts:11 | a string cell starts and ends with '"', and holds no line break that the string did not |
| CsvExport.RenderCell | playbox-frontend/src/utils/export.ts:11 | a string is quoted; a number, boolean, null or undefined is written without any '"', ',' or line break |
| CsvExport.Cells | playbox-frontend/src/utils/export.ts:9-12 | one rendered cell per header, in header order, each from that header's value |
| CsvExport.Records | playbox-frontend/src/utils/export.ts:6-14 | the header record followed by one record per object |
| CsvExport.ExportToCsv | playbox-frontend/src/utils/export.ts:3 | there is no text exactly when the list is empty |
| CsvExport.QuoteRoundTrip | playbox-frontend/src/utils/export.ts:11 | stripping the outer quotes and collapsing each '""' gives back the original string (section 2, rule 7 of RFC 4180) |
| CsvExport.QuoteCellInjective | playbox-frontend/src/utils/export.ts:11 | two strings give the same quoted cell exactly when they are equal |
| CsvExport.DoubleQuotesCounts | playbox-frontend/src/utils/export.ts:11 | the inside of the quoted cell holds twice the string's '"' and is longer by their number |
| CsvExport.ExportLines | playbox-frontend/src/utils/export.ts:5-16 | when no key and no string value holds a line break, the text splits at '\n' into data.length + 1 lines: the first object's keys joined by ',', then each object's cells in header order joined by ',' |
| CsvExport.HeaderRecord | playbox-frontend/src/utils/export.ts:5-7 | keys without ',' split back out of the header record unquoted |
| CsvExport.PlainRecord | playbox-frontend/src/utils/export.ts:11-12 | a record of non-string cells splits back into its cells, none of them quoted |
| MyBookings.SortedBookings | playbox-frontend/src/pages/MyBookings.tsx:82-85 | a permutation of the bookings (a sorted copy, the list itself untouched) in descending id order |
| MyBookings.IsFutureBooking | playbox-frontend/src/pages/MyBookings.tsx:87-97 | true only for a booking whose slot details are loaded; false when the slot's date or end time is empty, false when the end hour or minute is NaN (fail-closed), and false for an end time without ':', whose `undefined` minute makes an invalid date |
| MyBookings.FutureBookingOfWellFormed | playbox-frontend/src/pages/MyBookings.tsx:91-96 | for a well-formed end time, true exactly when the slot's date at that hour and minute is later than now |
| MyBookings.MalformedEndTimeDisagrees | playbox-frontend/src/pages/MyBookings.tsx:91-92 | an end time whose hour is NaN ("abc", "x:30") makes isFutureBooking false while the slot page's isPresentOrFutureSlot shows the slot today: the two readers disagree on that input |
| MyBookings.HourOnlyEndTimeAgrees | playbox-frontend/src/pages/MyBookings.tsx:91-96 | an end time that is a bare number, such as "18", is neither a future booking nor shown today: both readers build an invalid date |
| MyBookings.SlotIds | playbox-frontend/src/pages/MyBookings.tsx:52 | the numeric slot ids of the bookings, and only those |
| MyBookings.DistinctFrom | playbox-frontend/src/pages/MyBookings.tsx:51-53 | keeps each value not yet seen exactly once, and nothing else |
| MyBookings.DistinctFromOrder | playbox-frontend/src/pages/MyBookings.tsx:51-53 | the values come in first-seen order: wherever a later value stands in the input, an earlier one stands before it |
| MyBookings.UniqueSlotIds | playbox-frontend/src/pages/MyBookings.tsx:51-53 | each numeric slotId of the bookings appears exactly once, and nothing else does |
| MyBookings.IndexOfContents | playbox-frontend/src/pages/MyBookings.tsx:65-70 | the table built by the forEach holds exactly the ids of the present items, each under its own id |
| MyBookings.BuildIndex | playbox-frontend/src/pages/MyBookings.tsx:65-70 | the loop builds exactly IndexOf of the items |
| MyBookings.BuildSportsMap | playbox-frontend/src/pages/MyBookings.tsx:45-48 | sportsMap holds exactly the sports' ids, each with a sport of that id from the list |
| MyBookings.Fetched | playbox-frontend/src/pages/MyBookings.tsx:55-63 | one fetch result per unique slot id, in order, a failed fetch as null |
| MyBookings.SlotIndexContents | playbox-frontend/src/pages/MyBookings.tsx:55-70 | the slot map holds exactly the ids of the successfully fetched slots, each under its id |
| MyBookings.LoadSlotMap | playbox-frontend/src/pages/MyBookings.tsx:51-71 | the slot map holds exactly the slots fetched for the bookings' unique slot ids, keyed by id; failed fetches are skipped |
| SlotPage.VisibleSlots | playbox-frontend/src/pages/SlotPage.tsx:111-113 | a slot is visible exactly when it is on the page and passes isPresentOrFutureSlot for the page's date; being booked plays no part |
| SlotPage.BookedStaysVisible | playbox-frontend/src/pages/SlotPage.tsx:111-113 | a booked slot is as visible as its free twin |
| SlotPage.FindSlot | playbox-frontend/src/pages/SlotPage.tsx:76 | `find`: None exactly when no slot has the id; otherwise the first slot with that id |
| SlotPage.BookingError | playbox-frontend/src/pages/SlotPage.tsx:105 | the popup text is the error's message, or "Booking failed." when the message is empty |
| SlotPage.SelectedSlot | playbox-frontend/src/pages/SlotPage.tsx:76-81 | bookSlot finds nothing exactly when every slot with the id is over; what it finds has the id, is on the page and is not over |
| SlotPage.SlotPageState.constructor | playbox-frontend/src/pages/SlotPage.tsx:28-36 | no slots, today's date, no card loaded, nothing in flight, no confirmation and no popup |
| SlotPage.SlotPageState.BookSlot | playbox-frontend/src/pages/SlotPage.tsx:70-82 | without a logged-in player the login error and no confirmation; with no visible slot of that id "Selected slot not found."; otherwise that slot awaits confirmation; nothing else changes |
| SlotPage.SlotPageState.StartConfirm | playbox-frontend/src/pages/SlotPage.tsx:84-93 | without a slot awaiting confirmation or a logged-in player nothing is sent; otherwise the request for the player and that slot, always "WALLET", goes out and that slot's booking is in flight |
| SlotPage.SlotPageState.FinishConfirm | playbox-frontend/src/pages/SlotPage.tsx:94-108 | on success the refetched slots replace the old ones, the confirmation closes and the popup shows the slot's range; when the booking or the refetch fails its message (or "Booking failed.") is shown and slots and confirmation stay; either way nothing is in flight afterwards |
| SlotPage.SlotPageState.SlotsLoaded | playbox-frontend/src/pages/SlotPage.tsx:48-55 | a fetched list replaces the slots and a failed fetch leaves them |
| SlotPage.BlankCardIsNoCard | playbox-frontend/src/pages/SlotPage.tsx:114 | a blank card uid counts as no card, while a padded real one counts |
| AdminConsole.CollapseWs | playbox-frontend/src/App.tsx:31 | `replace(/\s+/g, " ")` never lengthens the text |
| AdminConsole.CollapseHead | playbox-frontend/src/App.tsx:31 | the collapsed text starts with ' ' exactly where the input starts with white space, and with the input's first character otherwise |
| AdminConsole.CollapseWsCollapsed | playbox-frontend/src/App.tsx:31 | after collapsing no white space character other than a single ' ' remains, and no two spaces are adjacent |
| AdminConsole.CollapseWsLast | playbox-frontend/src/App.tsx:31 | collapsing keeps a text that does not end in white space from ending in it |
| AdminConsole.CollapseWsChars | playbox-frontend/src/App.tsx:31 | every character of the result is ' ' or a character of the input |
| AdminConsole.CollapseWsFixed | playbox-frontend/src/App.tsx:31 | an already collapsed text is left as it is |
| AdminConsole.NormalizedShape | playbox-frontend/src/App.tsx:30-31 | a normalised activity has no white space at either end, no upper-case letter, and single spaces only |
| AdminConsole.NormalizeIdempotent | playbox-frontend/src/App.tsx:30-31 | normalising twice is normalising once |
| AdminConsole.MatchUpToNormalisation | playbox-frontend/src/App.tsx:33-42 | matching an activity with a sport depends on both only up to normalisation |
| AdminConsole.BlankActivityMatchesAll | playbox-frontend/src/App.tsx:41 | an activity that normalises to "" matches every sport, since every name includes "" |
| AdminConsole.RequiresSlotSelectionUpToNormalisation | playbox-frontend/src/App.tsx:151 | whether a slot must be picked depends on the description only up to normalisation |
| AdminConsole.EmptyDescriptionNeedsNoSlot | playbox-frontend/src/App.tsx:28 | an empty description is not one of cricket, pickleball, swimming pool and swimming, so no slot is required |
| AdminConsole.AvailableSports | playbox-frontend/src/App.tsx:152-155 | exactly the sports that match the activity, in their order |
| AdminConsole.SlotOptions | playbox-frontend/src/App.tsx:1421-1422 | the slot choices are exactly the unbooked slots that pass isPresentOrFutureSlot for the chosen date |
| AdminConsole.AddBalanceGuard | playbox-frontend/src/App.tsx:353-356 | the top-up goes ahead exactly when a card is active and the amount is at least 500; otherwise an error status |
| AdminConsole.DeductGuard | playbox-frontend/src/App.tsx:389-403 | the deduction goes ahead exactly when the deductor and description are not blank and, when the activity needs a slot, a sport and a slot are chosen; a blank deductor or description gives "Deductor name & description required"; every refusal is a warning |
| AdminConsole.DeductRequest | playbox-frontend/src/App.tsx:389-416 | a deduction call is made exactly when the guard passes, for the active card and amount, with a non-blank deductor and description and, when required, a sport and a slot |
| AdminConsole.BlockGuard | playbox-frontend/src/App.tsx:607-624 | the offline booking goes ahead exactly when the name is not blank, the trimmed phone matches ^[6-9]\d{9}$ and a sport and slot are chosen; a blank name gives "Name is required", then a bad phone "Enter valid 10-digit phone number" |
| AdminConsole.BlockRequest | playbox-frontend/src/App.tsx:626-633 | a block call is made exactly when the guard passes, with the trimmed non-empty name, a valid mobile number, the chosen slot, and an email only when it is not empty |
| AdminConsole.PhoneInput | playbox-frontend/src/App.tsx:1580 | the phone field holds at most ten characters, all digits |
| AdminConsole.PhoneInputValid | playbox-frontend/src/App.tsx:1580 | the field holds a valid mobile number exactly when the typed text has at least ten digits and the first is 6..9; its trim changes nothing |
| AdminConsole.AdminNameFor | playbox-frontend/src/App.tsx:363-366 | the admin's username when it is not empty, else the deductor name when not empty, else the stored admin, else "Unknown Admin"; never empty |
| AdminConsole.AddedStatus | playbox-frontend/src/App.tsx:374-377 | the top-up's confirmation is a success status |
| AdminConsole.DeductedStatus | playbox-frontend/src/App.tsx:419-422 | the deduction's confirmation is a success status |
| AdminConsole.ErrorStatus | playbox-frontend/src/App.tsx:380-383 | a failure shows "Error: " and the message, or the fallback when the message is empty, as an error status |
| AdminConsole.UnseenOnly | playbox-frontend/src/App.tsx:586 | exactly the notifications not yet seen |
| AdminConsole.WithoutId | playbox-frontend/src/App.tsx:651 | exactly the notifications whose id is not the given one, so never more of them |
| AdminConsole.WithoutIdCount | playbox-frontend/src/App.tsx:651 | marking an id seen shortens the list when it holds that id and leaves it as it is otherwise |
| AdminConsole.Console.constructor | playbox-frontend/src/App.tsx:45-91 | no active card, amount 500, no balance, "Waiting for RFID scan...", both dialogs closed and empty, no notifications; the invariant that the notification list holds only unseen items holds from the start |
| AdminConsole.Console.HandleAddBalance | playbox-frontend/src/App.tsx:352-387 | a refused top-up makes no call and shows the guard's status; otherwise the call carries the card, the amount and the admin name, and success sets the returned balance with the success text while failure keeps the balance and shows the error; the form fields stay, and the list of notifications stays unseen-only |
| AdminConsole.Console.HandleDeductBalance | playbox-frontend/src/App.tsx:388-436 | the call made is exactly DeductRequest; a refusal shows its status and keeps the form; success sets the balance, closes and clears the dialog and shows the success text; failure keeps balance and dialog and shows the error, "Insufficient balance" by default |
| AdminConsole.Console.SyncDeductSport | playbox-frontend/src/App.tsx:157-173 | when no slot is needed the sport, slot and slot list are cleared; otherwise a single matching sport is selected, a still-matching choice is kept, and any chosen sport is one that matches |
| AdminConsole.Console.SetBlockBookingPhone | playbox-frontend/src/App.tsx:1580 | the phone field takes PhoneInput of the typed text; nothing else changes |
| AdminConsole.Console.LoadBookingNotifications | playbox-frontend/src/App.tsx:581-594 | a loaded list is replaced by its unseen items; a failed load keeps the list |
| AdminConsole.Console.HandleBlockSlotBooking | playbox-frontend/src/App.tsx:607-646 | the call made is exactly BlockRequest; a refusal shows its status; success closes the dialog, shows the OFFLINE-payment success status and reloads the unseen notifications; failure keeps everything and shows the error, "Failed to block slot" by default |
| AdminConsole.Console.HandleMarkNotificationSeen | playbox-frontend/src/App.tsx:648-655 | marks that id seen on the server; on success exactly that id leaves the list, and on failure the list stays |
| Text.SplitJs | playbox-frontend/src/utils/formatters.ts:73 | `split(":")` gives at least one part, no part holds the separator, and joining the parts with it gives the text back |
| Text.SplitJoin | playbox-frontend/src/utils/export.ts:16 | splitting text that was joined at a separator none of the parts holds gives those parts back |
| Text.SplitJava | playbox/src/main/java/com/example/playbox/service/SlotService.java:94 | Java's `String.split`: a text without the separator is one part; otherwise the JavaScript split with trailing empty parts dropped |
| Text.DropTrailingEmpty | playbox/src/main/java/com/example/playbox/service/SlotService.java:94 | the longest prefix of the parts that does not end in an empty part; only empty parts are dropped |
| Text.TrimIdempotent | playbox/src/main/java/com/example/playbox/service/BookingService.java:153 | trimming twice is trimming once |
| Text.ToLower | playbox/src/main/java/com/example/playbox/service/SlotService.java:86 | `toLowerCase(Locale.ROOT)` on ASCII: the same length, each character mapped alone |
| Text.LexLessTotal | playbox-frontend/src/components/transactions/TransactionTable.tsx:94-95 | JavaScript's `<` on strings orders any two different strings one way or the other |
| Text.LexLessTransitive | playbox-frontend/src/components/transactions/TransactionTable.tsx:94-95 | the string order is transitive |
| Numbers.JavaParseInt | playbox/src/main/java/com/example/playbox/service/SlotService.java:99 | `Integer.parseInt` succeeds only on an optional sign and decimal digits whose value fits 32 bits, and then agrees with reading the digits |
| Numbers.JavaParseIntAgreesWithJsNumber | playbox-frontend/src/utils/formatters.ts:73 | whatever Java's parseInt reads, JavaScript's Number reads as the same integer |
| Numbers.ParseNatToString | playbox/src/main/java/com/example/playbox/service/SlotService.java:99 | reading back the decimal text of a number gives that number |
| Numbers.Format02dIsPad2 | playbox/src/main/java/com/example/playbox/service/TwilioSmsService.java:160 | `%02d` and `padStart(2, "0")` give the same text |
| Numbers.TwoDigitsOf | playbox/src/main/java/com/example/playbox/service/SlotService.java:45 | below 100, the padded text is exactly two digits that read back as the number |
| Numbers.TruncRem | playbox/src/main/java/com/example/playbox/service/SlotService.java:46 | Java's `%` truncates toward zero: a non-negative operand gives a remainder in 0..b-1, a negative one in -(b-1)..0 |
| Lists.Keep | playbox-frontend/src/components/transactions/TransactionTable.tsx:76 | `filter`: only kept items, every kept item, nothing new, no item more often than before |
| Lists.KeepMultiset | playbox-frontend/src/components/transactions/TransactionTable.tsx:76 | each item occurs as often as before when it passes the test and not at all otherwise |
| Lists.SortBy | playbox-frontend/src/components/transactions/TransactionTable.tsx:80-97 | the sorted list is a permutation of the input |
| Lists.SortBySorted | playbox-frontend/src/components/transactions/TransactionTable.tsx:80-97 | sorting by a strict order gives a list in which no item comes before an earlier one |
| Lists.SortKeep | playbox-frontend/src/components/transactions/TransactionTable.tsx:76-97 | filtering then sorting gives a sorted list holding exactly the items that pass the test, each as often as in the input |
| Entities.FirstWhere | playbox/src/main/java/com/example/playbox/service/BookingService.java:63 | a repository lookup by id: the index of the first item that passes, None exactly when none does |

## Left out

- HTTP transport, `fetch`, the `api.ts` client, `localStorage`, routing and rendering (JSX, CSS, loading spinners) are not modelled. Each handler takes the outcome of its API call as a parameter.
- Date parsing, time zones and daylight saving are not modelled. The clock is the parameters `today` and `nowMinute`, with dates as ISO strings.
- The filter panel's 300 ms debounce and the date picker's deferred focus on the slot page are left out, because they are timing only.
- Money is an integer amount, not Java's `Float`. Rounding of fractional prices is therefore not modelled.
- Sorting is modelled on sequences, by insertion into an order. The sort algorithm, and whether it is stable, are not modelled. The order of items that compare equal is not fixed.
- The random four-digit draw of an OTP is a parameter: a number below 9000, to which 1000 is added.
- Sending an SMS through Twilio, its client setup and the trial-account text are left out. The model builds the message text and the normalised number that would be sent.
- Row locking (`FOR UPDATE`) and concurrent requests are left out. `@Transactional` is modelled only as "a thrown exception leaves the store unchanged".
- AuthController.VerifyOtp: the code is marked verified before signup is checked, and that write is not rolled back. The model keeps the verified flag when a signup without a name fails, as the source does.
- BookingController.AdminManualBook: the controller calls `adminManualBookSlot` with four arguments, but the service takes five. The model passes no remarks, which is what the call would mean if the service dropped that parameter.
- AdminConsole.Console.HandleBlockSlotBooking: `App.tsx` calls `api.adminBlockSlot`, which `api.ts` does not define. The call's arguments are modelled and its outcome is a parameter.
- BookingNotifications.NotifyBookingCreated: the service copies the booking's remarks into the notification, but the `BookingNotification` entity has no remarks field. So the notification in the model carries none.
- The listing of all notifications (`getAll`, BookingNotificationService.java:54-57) is left out, because it only reads a repository in creation order.
- The intermediate "Adding amount..." and "Deducting amount..." statuses, the success popups' dismissal and the remaining field setters of `App.tsx` are left out. They only copy input into state.
- The `parseInt` of the filter panel's user-id field is not modelled. The panel receives its result as a number, or as NaN.
- TransactionTable.FilteredAndSorted: sortedness is promised only when every timestamp reads as a date (or another column is sorted). A NaN time ties with every other time, so the comparator is not a consistent order, and JavaScript then leaves the result's order to the engine (see TransactionTable.NaNTimeTiesWithAll).
- Text.ToLower, Text.LowerChar, Text.ToUpper and Text.UpperChar map only the ASCII letters A-Z and a-z. Java's `toLowerCase`/`toUpperCase` and JavaScript's `toLowerCase` also map other letters ('É' to 'é', 'ß' to "SS"), so for non-ASCII text the search, the activity names, the notification filter and the legacy-card check may differ from the source.
- Numbers.JsNumber: only a sign followed by decimal digits, surrounded by white space, is read as a number. Fractions, exponents, hexadecimal and `Infinity` all give NaN.
- TwilioSms.ToAmPm: the function's own contract covers only blank and missing input. The hour arithmetic and the round trip are stated by the lemmas beside it, for well-formed times.
- Numbers.TwoDigitsOf: the two-digit form of `%02d` is proved only below 100. That covers every hour and minute.

## Findings

| source | as written | input that shows it | evidently intended | confidence | as-written member | corrected member |
|---|---|---|---|---|---|---|
| playbox-frontend/src/components/transactions/TransactionTable.tsx:247 | choosing a page size keeps the current page, because the page-reset effect (lines 109-111) does not list `itemsPerPage` | 25 results, page 3 at 10 per page, then 50 per page: page 3 of 1, no rows, no pagination bar, "Showing 101 to 25" | a new page size returns to page 1, as a new filter or sort does | not executed | TransactionTable.TableState.SetItemsPerPage, TransactionTable.ItemsPerPageStrandsPage | TransactionTable.TableState.SetItemsPerPageFromFirstPage, TransactionTable.FirstPageAfterResize |
| playbox/src/main/java/com/example/playbox/exception/GlobalExceptionHandler.java:48 | `handleRuntime` is registered for RuntimeException, so it also catches the ResponseStatusExceptions `book` throws and re-classifies them by their getMessage() text, which includes the status | a second booking of a taken slot: `book` throws 409 "Slot already booked" and the client receives 400 with message `409 CONFLICT "Slot already booked"`; a missing card gives 500 "Something went wrong. Please try again." instead of the 400 card message | the status and reason the controller chose reach the client | not executed | ExceptionHandler.Handle, ExceptionHandler.BookClientAnswers, ExceptionHandler.DoubleBookingAnsweredAs400 | ExceptionHandler.HandleIntended, ExceptionHandler.BookClientAnswersIntended |
