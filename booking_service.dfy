/** BookingService: wallet booking of a slot by a player, offline booking by
    an admin, and the admin's day overview of a sport. Each operation is a
    transition of the repositories; an operation that fails leaves them as
    they were (the transaction rolls back). The SMS a booking sends is not
    part of the model; the admin notification is. */
module BookingService {
  import opened Wrappers
  import opened Text
  import opened Entities
  import opened SlotService
  import opened BookingNotifications
  import opened Lists

  // ---------------------------------------------------------------------
  // isMultiSlotSport
  // ---------------------------------------------------------------------

  /** A sport whose slots can be booked any number of times: flagged as
      multi-slot, or a swimming sport. */
  predicate IsMultiSlotSport(sport: Sport) {
    sport.multiSlot || IsSwimmingSport(sport)
  }

  /** The write isMultiSlotSport makes: a swimming sport not yet flagged
      gets its flag set. Afterwards the flag alone says whether the sport is
      multi-slot. */
  function RecordMultiSlot(sports: seq<Sport>, k: nat): (r: seq<Sport>)
    requires k < |sports|
    ensures |r| == |sports|
    ensures forall i :: 0 <= i < |sports| && i != k ==> r[i] == sports[i]
    ensures r[k] == sports[k].(multiSlot := IsMultiSlotSport(sports[k]))
    ensures r[k].multiSlot ==> IsMultiSlotSport(r[k])
  {
    if !sports[k].multiSlot && IsSwimmingSport(sports[k]) then sports[k := sports[k].(multiSlot := true)]
    else sports
  }

  // ---------------------------------------------------------------------
  // bookSlot
  // ---------------------------------------------------------------------

  /** The sport of a slot, through the slot's foreign key. */
  function SportIndex(st: Store, slot: Slot): (k: nat)
    requires FindSport(st.sports, slot.sportId).Some?
    ensures k < |st.sports| && st.sports[k].id == slot.sportId
  {
    FindSport(st.sports, slot.sportId).value
  }

  /** `"WALLET".equalsIgnoreCase(paymentMode)`; false for null. */
  predicate IsWallet(paymentMode: Option<string>) {
    paymentMode.Some? && EqualsIgnoreCase("WALLET", paymentMode.value)
  }

  /** A price that is null or not positive: the sport cannot be booked from
      the wallet. */
  predicate PriceMissing(sport: Sport) {
    sport.pricePerHour.None? || sport.pricePerHour.value <= 0
  }

  /** The BOOKING transaction that pays for a booking. */
  function BookingTxn(id: int, userId: int, user: User, sport: Sport, amount: int, now: string): Txn {
    Txn(id, userId, user.name, "BOOKING", amount, user.balance, "SYSTEM", JavaStr(sport.name) + " Booking", now)
  }

  /** bookSlot as a transition of the repositories: the slot, its sport's
      price, the user, the card, the payment mode and the balance are
      checked in that order, and the first check that fails decides the
      error. On success the price leaves the wallet, a single-slot sport's
      slot becomes booked, and a BOOKING transaction, a CONFIRMED booking and
      an admin notification are recorded, taking the next three ids. */
  function BookSlotIn(st: Store, userId: int, slotId: int, paymentMode: Option<string>, now: string)
    : (r: (Result<Booking>, Store))
    requires SportsResolved(st)
    ensures r.0.Err? ==> r.1 == st
  {
    match FindSlot(st.slots, slotId)
    case None => (Err("Slot not found"), st)
    case Some(s) =>
      var slot := st.slots[s];
      var k := SportIndex(st, slot);
      var sport := st.sports[k];
      var multi := IsMultiSlotSport(sport);
      if !multi && slot.booked then (Err("Slot already booked"), st)
      else if PriceMissing(sport) then (Err("Sport pricing is not configured"), st)
      else
        match FindUser(st.users, userId)
        case None => (Err("User not found"), st)
        case Some(u) =>
          var user := st.users[u];
          var amount := sport.pricePerHour.value;
          var balance := user.balance.GetOr(0);
          if IsBlank(user.cardUid) then (Err("Get your Elite Card Now to reserve slots"), st)
          else if !IsWallet(paymentMode) then (Err("Only Elite Card wallet booking is allowed"), st)
          else if balance < amount then (Err("Insufficient balance"), st)
          else
            var (booking, st1) := Charge(st, s, k, u, userId, slotId, paymentMode, now);
            (Ok(booking), st1)
  }

  /** The success path of bookSlot for the slot at s, its sport at k and
      the user at u: the multi-slot flag is recorded, then the payment and
      its records follow. */
  function Charge(st: Store, s: nat, k: nat, u: nat, userId: int, slotId: int,
                  paymentMode: Option<string>, now: string): (r: (Booking, Store))
    requires s < |st.slots| && k < |st.sports| && u < |st.users| && !PriceMissing(st.sports[k])
  {
    Pay(st.(sports := RecordMultiSlot(st.sports, k)), s, k, u, IsMultiSlotSport(st.sports[k]),
        userId, slotId, paymentMode, now)
  }

  /** The wallet pays the price; the BOOKING transaction, the slot flag
      (unless `multi`), the CONFIRMED booking and the notification follow. */
  function Pay(st: Store, s: nat, k: nat, u: nat, multi: bool, userId: int, slotId: int,
               paymentMode: Option<string>, now: string): (r: (Booking, Store))
    requires s < |st.slots| && k < |st.sports| && u < |st.users| && !PriceMissing(st.sports[k])
  {
    var slot, sport, user := st.slots[s], st.sports[k], st.users[u];
    var amount := sport.pricePerHour.value;
    var paid := user.(balance := Some(user.balance.GetOr(0) - amount));
    var txn := BookingTxn(st.nextId, userId, paid, sport, amount, now);
    var booking := Booking(st.nextId + 1, userId, sport.id, slotId, amount, "CONFIRMED", paymentMode, None, now);
    var st1 := st.(users := st.users[u := paid],
                   transactions := st.transactions + [txn],
                   slots := if multi then st.slots else st.slots[s := slot.(booked := true)],
                   bookings := st.bookings + [booking],
                   nextId := st.nextId + 2);
    (booking, NotifyBookingCreated(st1, booking, paid, sport, slot, now))
  }

  /** bookSlot over the repositories. The multi-slot flag that
      isMultiSlotSport writes belongs to the same transaction as the rest:
      a failing check rolls it back, so it is written with the payment. */
  method BookSlot(db: Database, userId: int, slotId: int, paymentMode: Option<string>, now: string)
    returns (r: Result<Booking>)
    requires SportsResolved(db.Snapshot())
    modifies db
    ensures (r, db.Snapshot()) == BookSlotIn(old(db.Snapshot()), userId, slotId, paymentMode, now)
  {
    var s := FindSlot(db.slots, slotId);
    if s.None? {
      return Err("Slot not found");
    }
    var slot := db.slots[s.value];
    var k := SportIndex(db.Snapshot(), slot);
    var sport := db.sports[k];
    var multiSlotSport := IsMultiSlotSport(sport);
    if !multiSlotSport && slot.booked {
      return Err("Slot already booked");
    }
    if PriceMissing(sport) {
      return Err("Sport pricing is not configured");
    }
    r := BookSlotForUser(db, userId, slotId, paymentMode, now);
  }

  /** The rest of bookSlot once the slot and its price are in place: the
      user, the card, the payment mode and the balance are checked, then
      the wallet pays. */
  method BookSlotForUser(db: Database, userId: int, slotId: int, paymentMode: Option<string>, now: string)
    returns (r: Result<Booking>)
    requires SportsResolved(db.Snapshot())
    requires SlotFound(db.Snapshot(), slotId) && !SlotTaken(db.Snapshot(), slotId)
    requires !PriceMissing(TheSport(db.Snapshot(), slotId))
    modifies db
    ensures (r, db.Snapshot()) == BookSlotIn(old(db.Snapshot()), userId, slotId, paymentMode, now)
  {
    var s := FindSlot(db.slots, slotId).value;
    var k := SportIndex(db.Snapshot(), db.slots[s]);
    var amount := db.sports[k].pricePerHour.value;
    var u := FindUser(db.users, userId);
    if u.None? {
      return Err("User not found");
    }
    var user := db.users[u.value];
    if IsBlank(user.cardUid) {
      return Err("Get your Elite Card Now to reserve slots");
    }
    if !IsWallet(paymentMode) {
      return Err("Only Elite Card wallet booking is allowed");
    }
    var currentBalance := user.balance.GetOr(0);
    if currentBalance < amount {
      return Err("Insufficient balance");
    }
    BookSlotInSuccess(db.Snapshot(), userId, slotId, paymentMode, now);
    var multi := RecordMultiSlotFlag(db, k);
    var booking := PayFromWallet(db, s, k, u.value, multi, userId, slotId, paymentMode, now);
    return Ok(booking);
  }

  /** When every check passes, bookSlot is the charge of the slot, its
      sport and the user the lookups find. */
  lemma BookSlotInSuccess(st: Store, userId: int, slotId: int, paymentMode: Option<string>, now: string)
    requires SportsResolved(st)
    requires Bookable(st, userId, slotId, paymentMode)
    ensures var s := FindSlot(st.slots, slotId).value;
            var k := SportIndex(st, st.slots[s]);
            var u := FindUser(st.users, userId).value;
            var (booking, st1) := Charge(st, s, k, u, userId, slotId, paymentMode, now);
            BookSlotIn(st, userId, slotId, paymentMode, now) == (Ok(booking), st1)
  {
  }

  /** isMultiSlotSport: true for a flagged sport; a swimming sport not yet
      flagged gets its flag set and saved. */
  method RecordMultiSlotFlag(db: Database, k: nat) returns (multi: bool)
    requires k < |db.sports|
    modifies db
    ensures multi == IsMultiSlotSport(old(db.sports[k]))
    ensures db.Snapshot() == old(db.Snapshot()).(sports := RecordMultiSlot(old(db.sports), k))
  {
    var sport := db.sports[k];
    if sport.multiSlot {
      return true;
    }
    if IsSwimmingSport(sport) {
      db.sports := db.sports[k := sport.(multiSlot := true)];
      return true;
    }
    return false;
  }

  /** The wallet payment and the records of a booking that passed every
      check, in the order bookSlot saves them. */
  method PayFromWallet(db: Database, s: nat, k: nat, u: nat, multi: bool, userId: int, slotId: int,
                       paymentMode: Option<string>, now: string) returns (booking: Booking)
    requires s < |db.slots| && k < |db.sports| && u < |db.users| && !PriceMissing(db.sports[k])
    modifies db
    ensures (booking, db.Snapshot()) == Pay(old(db.Snapshot()), s, k, u, multi, userId, slotId, paymentMode, now)
  {
    var slot, sport, user := db.slots[s], db.sports[k], db.users[u];
    var amount := sport.pricePerHour.value;
    user := user.(balance := Some(user.balance.GetOr(0) - amount));
    db.users := db.users[u := user];
    var txn := BookingTxn(db.nextId, userId, user, sport, amount, now);
    db.transactions := db.transactions + [txn];
    db.nextId := db.nextId + 1;
    if !multi {
      db.slots := db.slots[s := slot.(booked := true)];
    }
    booking := Booking(db.nextId, userId, sport.id, slotId, amount, "CONFIRMED", paymentMode, None, now);
    db.bookings := db.bookings + [booking];
    db.nextId := db.nextId + 1;
    NotifyBooking(db, booking, user, sport, slot, now);
  }

  // The checks of bookSlot, one predicate each.

  predicate SlotFound(st: Store, slotId: int) {
    FindSlot(st.slots, slotId).Some?
  }

  function TheSlot(st: Store, slotId: int): Slot
    requires SlotFound(st, slotId)
  {
    st.slots[FindSlot(st.slots, slotId).value]
  }

  function TheSport(st: Store, slotId: int): Sport
    requires SportsResolved(st) && SlotFound(st, slotId)
  {
    st.sports[SportIndex(st, TheSlot(st, slotId))]
  }

  /** A single-slot sport's slot that is already booked. */
  predicate SlotTaken(st: Store, slotId: int)
    requires SportsResolved(st) && SlotFound(st, slotId)
  {
    !IsMultiSlotSport(TheSport(st, slotId)) && TheSlot(st, slotId).booked
  }

  predicate UserFound(st: Store, userId: int) {
    FindUser(st.users, userId).Some?
  }

  function TheUser(st: Store, userId: int): User
    requires UserFound(st, userId)
  {
    st.users[FindUser(st.users, userId).value]
  }

  /** The wallet holds at least the price; a null balance counts as 0. */
  predicate CanPay(user: User, sport: Sport)
    requires !PriceMissing(sport)
  {
    user.balance.GetOr(0) >= sport.pricePerHour.value
  }

  /** Every check of bookSlot passes. */
  predicate Bookable(st: Store, userId: int, slotId: int, paymentMode: Option<string>)
    requires SportsResolved(st)
  {
    SlotFound(st, slotId) && !SlotTaken(st, slotId) && !PriceMissing(TheSport(st, slotId))
    && UserFound(st, userId) && !IsBlank(TheUser(st, userId).cardUid) && IsWallet(paymentMode)
    && CanPay(TheUser(st, userId), TheSport(st, slotId))
  }

  /** bookSlot succeeds exactly when every check passes, and a failure
      names the first check that fails: each message holds exactly when its
      check fails and all the earlier ones pass. */
  lemma BookSlotChecks(st: Store, userId: int, slotId: int, paymentMode: Option<string>, now: string)
    requires SportsResolved(st)
    ensures var r := BookSlotIn(st, userId, slotId, paymentMode, now).0;
            (r.Ok? <==> Bookable(st, userId, slotId, paymentMode))
            && (r == Err("Slot not found") <==> !SlotFound(st, slotId))
            && (r == Err("Slot already booked") <==> SlotFound(st, slotId) && SlotTaken(st, slotId))
            && (r == Err("Sport pricing is not configured") <==>
                  SlotFound(st, slotId) && !SlotTaken(st, slotId) && PriceMissing(TheSport(st, slotId)))
  {
    if !SlotFound(st, slotId) || SlotTaken(st, slotId) || PriceMissing(TheSport(st, slotId)) {
      BookSlotSlotChecks(st, userId, slotId, paymentMode, now);
    } else {
      BookSlotUserChecks(st, userId, slotId, paymentMode, now);
      if UserFound(st, userId) && !IsBlank(TheUser(st, userId).cardUid) {
        BookSlotPaymentChecks(st, userId, slotId, paymentMode, now);
      }
    }
  }

  /** Continued: the failures after the slot and pricing checks, each
      holding exactly when its check fails and all the earlier ones pass. */
  lemma BookSlotUserFailures(st: Store, userId: int, slotId: int, paymentMode: Option<string>, now: string)
    requires SportsResolved(st)
    ensures var r := BookSlotIn(st, userId, slotId, paymentMode, now).0;
            (r == Err("User not found") <==>
                  SlotFound(st, slotId) && !SlotTaken(st, slotId) && !PriceMissing(TheSport(st, slotId))
                  && !UserFound(st, userId))
            && (r == Err("Get your Elite Card Now to reserve slots") <==>
                  SlotFound(st, slotId) && !SlotTaken(st, slotId) && !PriceMissing(TheSport(st, slotId))
                  && UserFound(st, userId) && IsBlank(TheUser(st, userId).cardUid))
  {
    if SlotFound(st, slotId) && !SlotTaken(st, slotId) && !PriceMissing(TheSport(st, slotId)) {
      BookSlotUserChecks(st, userId, slotId, paymentMode, now);
      if UserFound(st, userId) && !IsBlank(TheUser(st, userId).cardUid) {
        BookSlotPaymentChecks(st, userId, slotId, paymentMode, now);
      }
    } else {
      BookSlotSlotChecks(st, userId, slotId, paymentMode, now);
    }
  }

  /** Continued: the payment mode and balance failures. */
  lemma BookSlotPaymentFailures(st: Store, userId: int, slotId: int, paymentMode: Option<string>, now: string)
    requires SportsResolved(st)
    ensures var r := BookSlotIn(st, userId, slotId, paymentMode, now).0;
            (r == Err("Only Elite Card wallet booking is allowed") <==>
                  SlotFound(st, slotId) && !SlotTaken(st, slotId) && !PriceMissing(TheSport(st, slotId))
                  && UserFound(st, userId) && !IsBlank(TheUser(st, userId).cardUid) && !IsWallet(paymentMode))
            && (r == Err("Insufficient balance") <==>
                  SlotFound(st, slotId) && !SlotTaken(st, slotId) && !PriceMissing(TheSport(st, slotId))
                  && UserFound(st, userId) && !IsBlank(TheUser(st, userId).cardUid) && IsWallet(paymentMode)
                  && !CanPay(TheUser(st, userId), TheSport(st, slotId)))
  {
    if !SlotFound(st, slotId) || SlotTaken(st, slotId) || PriceMissing(TheSport(st, slotId)) {
      BookSlotSlotChecks(st, userId, slotId, paymentMode, now);
    } else {
      BookSlotUserChecks(st, userId, slotId, paymentMode, now);
      if UserFound(st, userId) && !IsBlank(TheUser(st, userId).cardUid) {
        BookSlotPaymentChecks(st, userId, slotId, paymentMode, now);
      }
    }
  }

  /** A missing slot, a taken slot or a missing price is reported first. */
  lemma BookSlotSlotChecks(st: Store, userId: int, slotId: int, paymentMode: Option<string>, now: string)
    requires SportsResolved(st)
    requires !SlotFound(st, slotId) || SlotTaken(st, slotId) || PriceMissing(TheSport(st, slotId))
    ensures var r := BookSlotIn(st, userId, slotId, paymentMode, now).0;
            !SlotFound(st, slotId) ==> r == Err("Slot not found")
    ensures var r := BookSlotIn(st, userId, slotId, paymentMode, now).0;
            SlotFound(st, slotId) && SlotTaken(st, slotId) ==> r == Err("Slot already booked")
    ensures var r := BookSlotIn(st, userId, slotId, paymentMode, now).0;
            SlotFound(st, slotId) && !SlotTaken(st, slotId) ==> r == Err("Sport pricing is not configured")
  {
  }

  /** With the slot and its price in place, a missing user or a missing
      card is reported next. */
  lemma BookSlotUserChecks(st: Store, userId: int, slotId: int, paymentMode: Option<string>, now: string)
    requires SportsResolved(st)
    requires SlotFound(st, slotId) && !SlotTaken(st, slotId) && !PriceMissing(TheSport(st, slotId))
    ensures var r := BookSlotIn(st, userId, slotId, paymentMode, now).0;
            !UserFound(st, userId) ==> r == Err("User not found")
    ensures var r := BookSlotIn(st, userId, slotId, paymentMode, now).0;
            UserFound(st, userId) && IsBlank(TheUser(st, userId).cardUid) ==>
              r == Err("Get your Elite Card Now to reserve slots")
  {
  }

  /** With a carded user, the payment mode and the balance decide. */
  lemma BookSlotPaymentChecks(st: Store, userId: int, slotId: int, paymentMode: Option<string>, now: string)
    requires SportsResolved(st)
    requires SlotFound(st, slotId) && !SlotTaken(st, slotId) && !PriceMissing(TheSport(st, slotId))
    requires UserFound(st, userId) && !IsBlank(TheUser(st, userId).cardUid)
    ensures var r := BookSlotIn(st, userId, slotId, paymentMode, now).0;
            !IsWallet(paymentMode) ==> r == Err("Only Elite Card wallet booking is allowed")
    ensures var r := BookSlotIn(st, userId, slotId, paymentMode, now).0;
            IsWallet(paymentMode) && !CanPay(TheUser(st, userId), TheSport(st, slotId)) ==>
              r == Err("Insufficient balance")
    ensures var r := BookSlotIn(st, userId, slotId, paymentMode, now).0;
            IsWallet(paymentMode) && CanPay(TheUser(st, userId), TheSport(st, slotId)) ==> r.Ok?
  {
  }

  /** A successful bookSlot is the success path for the slot, its sport and
      the user the lookups find. */
  lemma BookSlotOk(st: Store, userId: int, slotId: int, paymentMode: Option<string>, now: string)
    requires SportsResolved(st)
    ensures var r := BookSlotIn(st, userId, slotId, paymentMode, now);
            r.0.Ok? ==>
              SlotFound(st, slotId) && UserFound(st, userId)
              && var s := FindSlot(st.slots, slotId).value;
                 var k := SportIndex(st, st.slots[s]);
                 var u := FindUser(st.users, userId).value;
                 !PriceMissing(st.sports[k]) && CanPay(st.users[u], st.sports[k])
                 && r == (Ok(Charge(st, s, k, u, userId, slotId, paymentMode, now).0),
                          Charge(st, s, k, u, userId, slotId, paymentMode, now).1)
  {
  }

  /** The success path takes exactly the price from the user's wallet,
      which cannot go below zero, and records one CONFIRMED booking for the
      price and the payment mode and one BOOKING transaction whose
      balanceAfter is the new balance; no other user changes. */
  lemma ChargePays(st: Store, s: nat, k: nat, u: nat, userId: int, slotId: int,
                   paymentMode: Option<string>, now: string)
    requires s < |st.slots| && k < |st.sports| && u < |st.users| && !PriceMissing(st.sports[k])
    requires CanPay(st.users[u], st.sports[k])
    ensures var (b, st1) := Charge(st, s, k, u, userId, slotId, paymentMode, now);
            var price := st.sports[k].pricePerHour.value;
            var before := st.users[u].balance.GetOr(0);
            |st1.users| == |st.users|
            && st1.users[u] == st.users[u].(balance := Some(before - price))
            && 0 <= st1.users[u].balance.value && st1.users[u].balance.value + price == before
            && (forall i :: 0 <= i < |st.users| && i != u ==> st1.users[i] == st.users[i])
            && st1.bookings == st.bookings + [b]
            && b.userId == userId && b.slotId == slotId && b.amount == price && b.sportId == st.sports[k].id
            && b.status == "CONFIRMED" && b.paymentMode == paymentMode
            && |st1.transactions| == |st.transactions| + 1
            && st1.transactions[..|st.transactions|] == st.transactions
            && st1.users == st.users[u := st1.users[u]]
            && var t := st1.transactions[|st.transactions|];
               t.kind == "BOOKING" && t.userId == userId && t.amount == price
               && t.balanceAfter == st1.users[u].balance && t.adminName == "SYSTEM"
  {
  }

  /** The success path marks a single-slot sport's slot booked and leaves
      a multi-slot sport's slots as they were; the sports keep their ids and
      only the flag of the booked sport may change. */
  lemma ChargeMarksSlot(st: Store, s: nat, k: nat, u: nat, userId: int, slotId: int,
                        paymentMode: Option<string>, now: string)
    requires s < |st.slots| && k < |st.sports| && u < |st.users| && !PriceMissing(st.sports[k])
    ensures var st1 := Charge(st, s, k, u, userId, slotId, paymentMode, now).1;
            (IsMultiSlotSport(st.sports[k]) ==> st1.slots == st.slots)
            && (!IsMultiSlotSport(st.sports[k]) ==> st1.slots == st.slots[s := st.slots[s].(booked := true)])
            && st1.sports == RecordMultiSlot(st.sports, k)
  {
  }

  /** A successful booking takes exactly the price from the booking user's
      wallet, which cannot go below zero, and records one CONFIRMED booking
      for the price and the given payment mode and one BOOKING transaction
      whose balanceAfter is the new balance; no other user changes. */
  lemma BookSlotPays(st: Store, userId: int, slotId: int, paymentMode: Option<string>, now: string)
    requires SportsResolved(st)
    ensures var r := BookSlotIn(st, userId, slotId, paymentMode, now);
            r.0.Ok? ==>
              var u := FindUser(st.users, userId).value;
              var price := TheSport(st, slotId).pricePerHour.value;
              var before := st.users[u].balance.GetOr(0);
              var after := r.1.users[u];
              |r.1.users| == |st.users|
              && after == st.users[u].(balance := Some(before - price))
              && 0 <= after.balance.value && after.balance.value + price == before
              && (forall i :: 0 <= i < |st.users| && i != u ==> r.1.users[i] == st.users[i])
              && r.1.bookings == st.bookings + [r.0.value]
              && r.0.value.userId == userId && r.0.value.slotId == slotId && r.0.value.amount == price
              && r.0.value.status == "CONFIRMED" && r.0.value.paymentMode == paymentMode
              && |r.1.transactions| == |st.transactions| + 1
              && r.1.transactions[..|st.transactions|] == st.transactions
              && var t := r.1.transactions[|st.transactions|];
                 t.kind == "BOOKING" && t.userId == userId && t.amount == price
                 && t.balanceAfter == after.balance && t.adminName == "SYSTEM"
  {
    var r := BookSlotIn(st, userId, slotId, paymentMode, now);
    BookSlotOk(st, userId, slotId, paymentMode, now);
    if r.0.Ok? {
      var s := FindSlot(st.slots, slotId).value;
      var k := SportIndex(st, st.slots[s]);
      var u := FindUser(st.users, userId).value;
      ChargePays(st, s, k, u, userId, slotId, paymentMode, now);
    }
  }

  /** On success a single-slot sport's slot becomes booked and a multi-slot
      sport's slots are left as they were; no other slot changes. */
  lemma BookSlotMarksSlot(st: Store, userId: int, slotId: int, paymentMode: Option<string>, now: string)
    requires SportsResolved(st)
    ensures var r := BookSlotIn(st, userId, slotId, paymentMode, now);
            r.0.Ok? ==>
              var s := FindSlot(st.slots, slotId).value;
              (IsMultiSlotSport(TheSport(st, slotId)) ==> r.1.slots == st.slots)
              && (!IsMultiSlotSport(TheSport(st, slotId)) ==> r.1.slots == st.slots[s := st.slots[s].(booked := true)])
              && r.1.sports == RecordMultiSlot(st.sports, SportIndex(st, TheSlot(st, slotId)))
  {
    var r := BookSlotIn(st, userId, slotId, paymentMode, now);
    BookSlotOk(st, userId, slotId, paymentMode, now);
    if r.0.Ok? {
      var s := FindSlot(st.slots, slotId).value;
      var k := SportIndex(st, st.slots[s]);
      var u := FindUser(st.users, userId).value;
      ChargeMarksSlot(st, s, k, u, userId, slotId, paymentMode, now);
    }
  }

  /** The sum of all wallet balances, a null balance counting as 0. */
  function TotalBalance(users: seq<User>): int {
    if |users| == 0 then 0 else TotalBalance(users[..|users| - 1]) + users[|users| - 1].balance.GetOr(0)
  }

  /** Changing one user's balance changes the total by the difference. */
  lemma {:induction false} TotalBalanceUpdate(users: seq<User>, u: nat, user: User)
    requires u < |users|
    ensures TotalBalance(users[u := user])
            == TotalBalance(users) - users[u].balance.GetOr(0) + user.balance.GetOr(0)
  {
    var n := |users| - 1;
    var updated := users[u := user];
    assert updated[..n] == if u < n then users[..n][u := user] else users[..n];
    if u < n {
      TotalBalanceUpdate(users[..n], u, user);
    }
  }

  /** A booking takes exactly its amount out of the wallets as a whole. */
  lemma BookSlotConservesMoney(st: Store, userId: int, slotId: int, paymentMode: Option<string>, now: string)
    requires SportsResolved(st)
    ensures var r := BookSlotIn(st, userId, slotId, paymentMode, now);
            r.0.Ok? ==> TotalBalance(r.1.users) == TotalBalance(st.users) - r.0.value.amount
  {
    var r := BookSlotIn(st, userId, slotId, paymentMode, now);
    BookSlotOk(st, userId, slotId, paymentMode, now);
    if r.0.Ok? {
      var s := FindSlot(st.slots, slotId).value;
      var k := SportIndex(st, st.slots[s]);
      var u := FindUser(st.users, userId).value;
      ChargePays(st, s, k, u, userId, slotId, paymentMode, now);
      TotalBalanceUpdate(st.users, u, r.1.users[u]);
    }
  }

  /** bookSlot keeps every slot pointing at an existing sport. */
  lemma BookSlotKeepsSportsResolved(st: Store, userId: int, slotId: int, paymentMode: Option<string>, now: string)
    requires SportsResolved(st)
    ensures SportsResolved(BookSlotIn(st, userId, slotId, paymentMode, now).1)
  {
    var r := BookSlotIn(st, userId, slotId, paymentMode, now);
    if r.0.Ok? {
      var k := SportIndex(st, TheSlot(st, slotId));
      var sports := RecordMultiSlot(st.sports, k);
      forall id ensures FindSport(sports, id) == FindSport(st.sports, id) {
        FirstWhereSame(st.sports, sports, (s: Sport) => s.id == id);
      }
      BookSlotMarksSlot(st, userId, slotId, paymentMode, now);
      forall i | 0 <= i < |r.1.slots| ensures FindSport(r.1.sports, r.1.slots[i].sportId).Some? {
        assert r.1.slots[i].sportId == st.slots[i].sportId;
      }
    }
  }

  /** Once a single-slot sport's slot is booked, any further booking of it,
      by anyone and with any payment mode, fails with "Slot already booked". */
  lemma DoubleBookingRejected(st: Store, userId: int, slotId: int, paymentMode: Option<string>, now: string,
                              userId2: int, paymentMode2: Option<string>, now2: string)
    requires SportsResolved(st)
    requires BookSlotIn(st, userId, slotId, paymentMode, now).0.Ok?
    requires !IsMultiSlotSport(TheSport(st, slotId))
    ensures var st1 := BookSlotIn(st, userId, slotId, paymentMode, now).1;
            SportsResolved(st1) && BookSlotIn(st1, userId2, slotId, paymentMode2, now2).0 == Err("Slot already booked")
  {
    var st1 := BookSlotIn(st, userId, slotId, paymentMode, now).1;
    BookSlotKeepsSportsResolved(st, userId, slotId, paymentMode, now);
    BookSlotMarksSlot(st, userId, slotId, paymentMode, now);
    FirstWhereSame(st.slots, st1.slots, (s: Slot) => s.id == slotId);
    var k := SportIndex(st, TheSlot(st, slotId));
    FirstWhereSame(st.sports, st1.sports, (s: Sport) => s.id == TheSlot(st, slotId).sportId);
    assert TheSport(st1, slotId) == st.sports[k].(multiSlot := false);
  }

  /** A multi-slot sport's slot stays open: a successful booking does not
      mark it, so the next booking is not refused as already booked. */
  lemma MultiSlotStaysOpen(st: Store, userId: int, slotId: int, paymentMode: Option<string>, now: string,
                           userId2: int, paymentMode2: Option<string>, now2: string)
    requires SportsResolved(st)
    requires BookSlotIn(st, userId, slotId, paymentMode, now).0.Ok?
    requires IsMultiSlotSport(TheSport(st, slotId))
    ensures var st1 := BookSlotIn(st, userId, slotId, paymentMode, now).1;
            SportsResolved(st1) && BookSlotIn(st1, userId2, slotId, paymentMode2, now2).0 != Err("Slot already booked")
  {
    var st1 := BookSlotIn(st, userId, slotId, paymentMode, now).1;
    BookSlotKeepsSportsResolved(st, userId, slotId, paymentMode, now);
    BookSlotMarksSlot(st, userId, slotId, paymentMode, now);
    var k := SportIndex(st, TheSlot(st, slotId));
    FirstWhereSame(st.sports, st1.sports, (s: Sport) => s.id == TheSlot(st, slotId).sportId);
    assert TheSport(st1, slotId) == st.sports[k].(multiSlot := true);
    assert !SlotTaken(st1, slotId);
    BookSlotChecks(st1, userId2, slotId, paymentMode2, now2);
  }

  // ---------------------------------------------------------------------
  // adminManualBookSlot
  // ---------------------------------------------------------------------

  /** An optional text that is kept only when not blank, trimmed. */
  function TrimmedOrNull(s: Option<string>): (r: Option<string>)
    ensures r.None? <==> IsBlank(s)
    ensures r.Some? ==> r.value == JavaTrim(s.value)
  {
    if IsBlank(s) then None else Some(JavaTrim(s.value))
  }

  /** findByPhone followed by the update or the creation of the user: an
      existing user gets the new name and, when one is given, the new email;
      a new user has the name, the phone, the email if any, a zero balance
      and no card. Returns the users, the position of the booking user and
      the next free id. */
  function UpsertByPhone(users: seq<User>, nextId: int, name: string, phone: string, email: Option<string>)
    : (r: (seq<User>, nat, int))
    ensures r.1 < |r.0|
  {
    match FindUserByPhone(users, phone)
    case Some(u) =>
      var email' := if IsBlank(email) then users[u].email else TrimmedOrNull(email);
      (users[u := users[u].(name := Some(name), email := email')], u, nextId)
    case None =>
      (users + [User(nextId, Some(name), Some(phone), TrimmedOrNull(email), None, Some(0), None)], |users|, nextId + 1)
  }

  /** The success path of adminManualBookSlot for the slot at s and its
      sport at k: the multi-slot flag is recorded, then the offline records
      follow. */
  function BookOffline(st: Store, s: nat, k: nat, name: string, phone: string, email: Option<string>,
                       remarks: Option<string>, now: string): (r: (Booking, Store))
    requires s < |st.slots| && k < |st.sports|
  {
    RecordOffline(st.(sports := RecordMultiSlot(st.sports, k)), s, k, IsMultiSlotSport(st.sports[k]),
                  JavaTrim(name), JavaTrim(phone), email, TrimmedOrNull(remarks), now)
  }

  /** The user is upserted by the (trimmed) phone, the slot is marked
      booked unless `multi`, and an OFFLINE booking with the (trimmed)
      remarks and a notification are saved. */
  function RecordOffline(st: Store, s: nat, k: nat, multi: bool, name: string, phone: string,
                         email: Option<string>, remarks: Option<string>, now: string): (r: (Booking, Store))
    requires s < |st.slots| && k < |st.sports|
  {
    var slot, sport := st.slots[s], st.sports[k];
    var amount := if PriceMissing(sport) then 0 else sport.pricePerHour.value;
    var (users, u, nextId) := UpsertByPhone(st.users, st.nextId, name, phone, email);
    var booking := Booking(nextId, users[u].id, sport.id, slot.id, amount, "CONFIRMED", Some("OFFLINE"),
                           remarks, now);
    var st1 := st.(users := users,
                   slots := if multi then st.slots else st.slots[s := slot.(booked := true)],
                   bookings := st.bookings + [booking],
                   nextId := nextId + 1);
    (booking, NotifyBookingCreated(st1, booking, users[u], sport, slot, now))
  }

  /** adminManualBookSlot as a transition of the repositories. */
  function AdminManualBookIn(st: Store, name: Option<string>, phone: Option<string>, email: Option<string>,
                             remarks: Option<string>, slotId: Option<int>, now: string)
    : (r: (Result<Booking>, Store))
    requires SportsResolved(st)
    ensures r.0.Err? ==> r.1 == st
  {
    if IsBlank(name) then (Err("Name is required"), st)
    else if IsBlank(phone) then (Err("Phone is required"), st)
    else if slotId.None? then (Err("Slot is required"), st)
    else
      match FindSlot(st.slots, slotId.value)
      case None => (Err("Slot not found"), st)
      case Some(s) =>
        var k := SportIndex(st, st.slots[s]);
        if !IsMultiSlotSport(st.sports[k]) && st.slots[s].booked then (Err("Slot already booked"), st)
        else
          var (booking, st1) := BookOffline(st, s, k, name.value, phone.value, email, remarks, now);
          (Ok(booking), st1)
  }

  /** adminManualBookSlot over the repositories. */
  method AdminManualBook(db: Database, name: Option<string>, phone: Option<string>, email: Option<string>,
                         remarks: Option<string>, slotId: Option<int>, now: string) returns (r: Result<Booking>)
    requires SportsResolved(db.Snapshot())
    modifies db
    ensures (r, db.Snapshot()) == AdminManualBookIn(old(db.Snapshot()), name, phone, email, remarks, slotId, now)
  {
    if IsBlank(name) {
      return Err("Name is required");
    }
    if IsBlank(phone) {
      return Err("Phone is required");
    }
    if slotId.None? {
      return Err("Slot is required");
    }
    var s := FindSlot(db.slots, slotId.value);
    if s.None? {
      return Err("Slot not found");
    }
    var slot := db.slots[s.value];
    var k := SportIndex(db.Snapshot(), slot);
    var multiSlotSport := IsMultiSlotSport(db.sports[k]);
    if !multiSlotSport && slot.booked {
      return Err("Slot already booked");
    }
    var multi := RecordMultiSlotFlag(db, k);
    var booking := SaveOfflineBooking(db, s.value, k, multi, JavaTrim(name.value), JavaTrim(phone.value), email,
                                      TrimmedOrNull(remarks), now);
    return Ok(booking);
  }

  /** The upsert of the user, the slot flag, the OFFLINE booking and the
      notification of an admin booking, in the order they are saved; the
      name, phone and remarks come trimmed. */
  method SaveOfflineBooking(db: Database, s: nat, k: nat, multi: bool, name: string, phone: string,
                            email: Option<string>, remarks: Option<string>, now: string) returns (booking: Booking)
    requires s < |db.slots| && k < |db.sports|
    modifies db
    ensures (booking, db.Snapshot()) == RecordOffline(old(db.Snapshot()), s, k, multi, name, phone, email, remarks, now)
  {
    var slot, sport := db.slots[s], db.sports[k];
    var amount := sport.pricePerHour.GetOr(0);
    if PriceMissing(sport) {
      amount := 0;
    }
    ghost var st0 := db.Snapshot();
    ghost var (users, u, nextId) := UpsertByPhone(st0.users, st0.nextId, name, phone, email);
    var user := SaveUserByPhone(db, name, phone, email);
    assert user == users[u] && db.nextId == nextId;
    if !multi {
      db.slots := db.slots[s := slot.(booked := true)];
    }
    booking := Booking(db.nextId, user.id, sport.id, slot.id, amount, "CONFIRMED", Some("OFFLINE"), remarks, now);
    db.bookings := db.bookings + [booking];
    db.nextId := db.nextId + 1;
    ghost var st1 := st0.(users := users,
                          slots := if multi then st0.slots else st0.slots[s := slot.(booked := true)],
                          bookings := st0.bookings + [booking], nextId := nextId + 1);
    assert db.Snapshot() == st1;
    NotifyBooking(db, booking, user, sport, slot, now);
    RecordOfflineSteps(st0, s, k, multi, name, phone, email, remarks, now);
  }

  /** The records of RecordOffline, one after the other. */
  lemma RecordOfflineSteps(st: Store, s: nat, k: nat, multi: bool, name: string, phone: string,
                           email: Option<string>, remarks: Option<string>, now: string)
    requires s < |st.slots| && k < |st.sports|
    ensures var (users, u, nextId) := UpsertByPhone(st.users, st.nextId, name, phone, email);
            var sport := st.sports[k];
            var amount := if PriceMissing(sport) then 0 else sport.pricePerHour.value;
            var booking := Booking(nextId, users[u].id, sport.id, st.slots[s].id, amount, "CONFIRMED",
                                   Some("OFFLINE"), remarks, now);
            var st1 := st.(users := users,
                           slots := if multi then st.slots else st.slots[s := st.slots[s].(booked := true)],
                           bookings := st.bookings + [booking], nextId := nextId + 1);
            RecordOffline(st, s, k, multi, name, phone, email, remarks, now)
              == (booking, NotifyBookingCreated(st1, booking, users[u], sport, st.slots[s], now))
  {
  }

  /** findByPhone, then the update of the user found or the creation of a
      new one, and its save. */
  method SaveUserByPhone(db: Database, name: string, phone: string, email: Option<string>) returns (user: User)
    modifies db
    ensures var (users, u, nextId) := UpsertByPhone(old(db.users), old(db.nextId), name, phone, email);
            db.Snapshot() == old(db.Snapshot()).(users := users, nextId := nextId) && user == users[u]
  {
    var found := FindUserByPhone(db.users, phone);
    if found.Some? {
      user := db.users[found.value].(name := Some(name));
      if !IsBlank(email) {
        user := user.(email := Some(JavaTrim(email.value)));
      }
      db.users := db.users[found.value := user];
    } else {
      user := User(db.nextId, Some(name), Some(phone), TrimmedOrNull(email), None, Some(0), None);
      db.users := db.users + [user];
      db.nextId := db.nextId + 1;
    }
  }

  /** The checks of adminManualBookSlot, in order: each message holds
      exactly when its check fails and the earlier ones pass. */
  lemma AdminManualBookChecks(st: Store, name: Option<string>, phone: Option<string>, email: Option<string>,
                              remarks: Option<string>, slotId: Option<int>, now: string)
    requires SportsResolved(st)
    ensures var r := AdminManualBookIn(st, name, phone, email, remarks, slotId, now).0;
            (r == Err("Name is required") <==> IsBlank(name))
            && (r == Err("Phone is required") <==> !IsBlank(name) && IsBlank(phone))
            && (r == Err("Slot is required") <==> !IsBlank(name) && !IsBlank(phone) && slotId.None?)
            && (r == Err("Slot not found") <==>
                  !IsBlank(name) && !IsBlank(phone) && slotId.Some? && !SlotFound(st, slotId.value))
            && (r == Err("Slot already booked") <==>
                  !IsBlank(name) && !IsBlank(phone) && slotId.Some? && SlotFound(st, slotId.value)
                  && SlotTaken(st, slotId.value))
            && (r.Ok? <==>
                  !IsBlank(name) && !IsBlank(phone) && slotId.Some? && SlotFound(st, slotId.value)
                  && !SlotTaken(st, slotId.value))
  {
  }

  /** The upsert finds the user by phone: a known phone keeps the number of
      users and rewrites only the name and, when a non-blank one is given,
      the email; an unknown phone adds one user with a zero balance and no
      card. No balance of an existing user changes. */
  lemma UpsertByPhoneSpec(users: seq<User>, nextId: int, name: string, phone: string, email: Option<string>)
    ensures var (us, u, next) := UpsertByPhone(users, nextId, name, phone, email);
            (forall i :: 0 <= i < |users| ==> us[i].balance == users[i].balance && us[i].id == users[i].id
                                              && us[i].cardUid == users[i].cardUid && us[i].phone == users[i].phone)
            && (forall i :: 0 <= i < |users| && i != u ==> us[i] == users[i])
            && us[u].name == Some(name)
            && (FindUserByPhone(users, phone).Some? ==>
                  |us| == |users| && u == FindUserByPhone(users, phone).value && next == nextId
                  && us[u].email == (if IsBlank(email) then users[u].email else Some(JavaTrim(email.value))))
            && (FindUserByPhone(users, phone).None? ==>
                  |us| == |users| + 1 && u == |users| && next == nextId + 1
                  && us[u] == User(nextId, Some(name), Some(phone), TrimmedOrNull(email), None, Some(0), None))
  {
  }

  /** Offline booking charges nothing to any wallet: every existing user
      keeps the balance, a new user starts at zero; the booking is OFFLINE,
      CONFIRMED, for the booking user, and its amount is the price, or 0 when
      no positive price is set. */
  lemma AdminManualBookKeepsBalances(st: Store, name: Option<string>, phone: Option<string>, email: Option<string>,
                                     remarks: Option<string>, slotId: Option<int>, now: string)
    requires SportsResolved(st)
    ensures var r := AdminManualBookIn(st, name, phone, email, remarks, slotId, now);
            r.0.Ok? ==>
              var sport := TheSport(st, slotId.value);
              |st.users| <= |r.1.users| <= |st.users| + 1
              && (forall i :: 0 <= i < |st.users| ==> r.1.users[i].balance == st.users[i].balance)
              && (|r.1.users| > |st.users| ==> r.1.users[|st.users|].balance == Some(0)
                                               && r.1.users[|st.users|].cardUid.None?)
              && r.1.bookings == st.bookings + [r.0.value]
              && r.0.value.paymentMode == Some("OFFLINE") && r.0.value.status == "CONFIRMED"
              && r.0.value.amount == (if PriceMissing(sport) then 0 else sport.pricePerHour.value)
              && r.0.value.amount >= 0
              && r.0.value.slotId == TheSlot(st, slotId.value).id
              && r.0.value.remarks == TrimmedOrNull(remarks)
  {
    var r := AdminManualBookIn(st, name, phone, email, remarks, slotId, now);
    AdminManualBookChecks(st, name, phone, email, remarks, slotId, now);
    if r.0.Ok? {
      var s := FindSlot(st.slots, slotId.value).value;
      var k := SportIndex(st, st.slots[s]);
      assert r == (Ok(BookOffline(st, s, k, name.value, phone.value, email, remarks, now).0),
                   BookOffline(st, s, k, name.value, phone.value, email, remarks, now).1);
      RecordOfflineKeepsBalances(st.(sports := RecordMultiSlot(st.sports, k)), s, k, IsMultiSlotSport(st.sports[k]),
                                 JavaTrim(name.value), JavaTrim(phone.value), email, TrimmedOrNull(remarks), now);
    }
  }

  /** The offline records charge no wallet, and the booking is the OFFLINE,
      CONFIRMED booking of the slot for the price or 0. */
  lemma RecordOfflineKeepsBalances(st: Store, s: nat, k: nat, multi: bool, name: string, phone: string,
                                   email: Option<string>, remarks: Option<string>, now: string)
    requires s < |st.slots| && k < |st.sports|
    ensures var (b, st1) := RecordOffline(st, s, k, multi, name, phone, email, remarks, now);
            var sport := st.sports[k];
            |st.users| <= |st1.users| <= |st.users| + 1
            && (forall i :: 0 <= i < |st.users| ==> st1.users[i].balance == st.users[i].balance)
            && (|st1.users| > |st.users| ==> st1.users[|st.users|].balance == Some(0)
                                             && st1.users[|st.users|].cardUid.None?)
            && st1.bookings == st.bookings + [b]
            && b.paymentMode == Some("OFFLINE") && b.status == "CONFIRMED"
            && b.amount == (if PriceMissing(sport) then 0 else sport.pricePerHour.value) && b.amount >= 0
            && b.slotId == st.slots[s].id && b.remarks == remarks
  {
    RecordOfflineSteps(st, s, k, multi, name, phone, email, remarks, now);
    UpsertByPhoneSpec(st.users, st.nextId, name, phone, email);
  }

  // ---------------------------------------------------------------------
  // getSportDayOverview
  // ---------------------------------------------------------------------

  /** One slot of the admin's day view: the slot, whether it is taken, and
      the booking that holds it, if any (AdminSlotStatusDTO). */
  datatype SlotStatus = SlotStatus(
    slotId: int,
    slotDate: string,
    startTime: string,
    endTime: string,
    booked: bool,
    bookingId: Option<int>,
    userId: Option<int>,
    amount: Option<int>,
    status: Option<string>,
    paymentMode: Option<string>,
    createdAt: Option<string>,
    userName: Option<string>)

  /** A sport's day at a glance (AdminSportDayOverviewDTO). */
  datatype DayOverview = DayOverview(
    sportId: int,
    sportName: Option<string>,
    courtName: Option<string>,
    date: string,
    totalSlots: int,
    bookedSlots: int,
    emptySlots: int,
    slots: seq<SlotStatus>)

  /** The first CONFIRMED booking of a slot, in repository order. */
  function FirstConfirmed(bs: seq<Booking>, slotId: int): (r: Option<Booking>)
    ensures r.Some? ==> r.value in bs && r.value.slotId == slotId && r.value.status == "CONFIRMED"
    ensures r.None? <==> forall i :: 0 <= i < |bs| ==> !(bs[i].slotId == slotId && bs[i].status == "CONFIRMED")
  {
    if |bs| == 0 then None
    else if bs[0].slotId == slotId && bs[0].status == "CONFIRMED" then Some(bs[0])
    else FirstConfirmed(bs[1..], slotId)
  }

  /** The first booking of a slot in a list of bookings. */
  function FirstOf(bs: seq<Booking>, slotId: int): Option<Booking> {
    if |bs| == 0 then None
    else if bs[0].slotId == slotId then Some(bs[0])
    else FirstOf(bs[1..], slotId)
  }

  /** findBySlotIdInAndStatus(slotIds, "CONFIRMED"). */
  function ConfirmedIn(bs: seq<Booking>, slotIds: seq<int>): seq<Booking> {
    Keep(bs, (b: Booking) => b.slotId in slotIds && b.status == "CONFIRMED")
  }

  /** A booking appended at the end only counts for a slot that had none. */
  lemma {:induction false} FirstOfAppend(bs: seq<Booking>, b: Booking, slotId: int)
    ensures FirstOf(bs + [b], slotId)
            == if FirstOf(bs, slotId).Some? then FirstOf(bs, slotId) else if b.slotId == slotId then Some(b) else None
  {
    if |bs| > 0 {
      assert (bs + [b])[1..] == bs[1..] + [b];
      FirstOfAppend(bs[1..], b, slotId);
    }
  }

  /** For a slot among the queried ids, the first booking the query
      returns is the slot's first CONFIRMED booking. */
  lemma {:induction false} FirstOfConfirmedIn(bs: seq<Booking>, slotIds: seq<int>, slotId: int)
    requires slotId in slotIds
    ensures FirstOf(ConfirmedIn(bs, slotIds), slotId) == FirstConfirmed(bs, slotId)
  {
    if |bs| > 0 {
      FirstOfConfirmedIn(bs[1..], slotIds, slotId);
      var rest := ConfirmedIn(bs[1..], slotIds);
      if bs[0].slotId in slotIds && bs[0].status == "CONFIRMED" {
        assert ConfirmedIn(bs, slotIds) == [bs[0]] + rest;
        assert ([bs[0]] + rest)[1..] == rest;
      } else {
        assert ConfirmedIn(bs, slotIds) == rest;
      }
    }
  }

  /** The name of the user with the given id, if there is one. */
  function UserNameOf(users: seq<User>, userId: int): Option<string> {
    match FindUser(users, userId)
    case None => None
    case Some(u) => users[u].name
  }

  /** The status of a slot given the booking that holds it. */
  function StatusOf(users: seq<User>, slot: Slot, booking: Option<Booking>): SlotStatus {
    match booking
    case None =>
      SlotStatus(slot.id, slot.slotDate, slot.startTime, slot.endTime, slot.booked,
                 None, None, None, None, None, None, None)
    case Some(b) =>
      SlotStatus(slot.id, slot.slotDate, slot.startTime, slot.endTime, true,
                 Some(b.id), Some(b.userId), Some(b.amount), Some(b.status), b.paymentMode, Some(b.createdAt),
                 UserNameOf(users, b.userId))
  }

  /** How many of the statuses are booked. */
  function CountBooked(ss: seq<SlotStatus>): (n: nat)
    ensures n <= |ss|
  {
    if |ss| == 0 then 0 else CountBooked(ss[..|ss| - 1]) + (if ss[|ss| - 1].booked then 1 else 0)
  }

  /** The status of every slot of the sport on the date, in order: a slot
      is booked when its flag is set or it has a CONFIRMED booking, and then
      shows the first such booking and its user's name. */
  function DayStatuses(st: Store, slots: seq<Slot>): (r: seq<SlotStatus>)
    ensures |r| == |slots|
  {
    seq(|slots|, i requires 0 <= i < |slots| => StatusOf(st.users, slots[i], FirstConfirmed(st.bookings, slots[i].id)))
  }

  /** getSportDayOverview as a query of the repositories. */
  function SportDayOverview(st: Store, sportId: int, date: string): (r: Result<DayOverview>)
    ensures r.Err? <==> FindSport(st.sports, sportId).None?
    ensures r.Err? ==> r == Err("Sport not found")
  {
    match FindSport(st.sports, sportId)
    case None => Err("Sport not found")
    case Some(k) =>
      var sport := st.sports[k];
      var slots := SlotsFor(st.slots, sportId, date);
      var statuses := DayStatuses(st, slots);
      var bookedCount := CountBooked(statuses);
      var empty := if |slots| - bookedCount > 0 then |slots| - bookedCount else 0;
      Ok(DayOverview(sport.id, sport.name, sport.courtName, date, |slots|, bookedCount, empty, statuses))
  }

  /** The overview lists every slot of the sport on the date once, in
      order; the booked and empty counts add up to the total (Math.max
      never clips), and each slot is booked exactly when its flag is set or
      a CONFIRMED booking holds it, whose fields it then shows. */
  lemma SportDayOverviewSpec(st: Store, sportId: int, date: string)
    requires FindSport(st.sports, sportId).Some?
    ensures var o := SportDayOverview(st, sportId, date).value;
            var slots := SlotsFor(st.slots, sportId, date);
            o.sportId == sportId && o.date == date
            && o.totalSlots == |slots| == |o.slots|
            && 0 <= o.bookedSlots <= o.totalSlots && o.emptySlots == o.totalSlots - o.bookedSlots
            && forall i :: 0 <= i < |slots| ==>
                 var s, b := o.slots[i], FirstConfirmed(st.bookings, slots[i].id);
                 s.slotId == slots[i].id && s.slotDate == date && s.startTime == slots[i].startTime
                 && s.endTime == slots[i].endTime
                 && (s.booked <==> slots[i].booked || b.Some?)
                 && (s.bookingId.Some? <==> b.Some?)
                 && (b.Some? ==> s.bookingId == Some(b.value.id) && s.userId == Some(b.value.userId)
                                 && s.amount == Some(b.value.amount) && s.status == Some("CONFIRMED")
                                 && s.paymentMode == b.value.paymentMode)
  {
  }

  /** getSportDayOverview: the sport, its slots on the date, the first
      CONFIRMED booking of each, one status per slot and the counts. */
  method GetSportDayOverview(db: Database, sportId: int, date: string) returns (r: Result<DayOverview>)
    ensures r == SportDayOverview(db.Snapshot(), sportId, date)
  {
    var k := FindSport(db.sports, sportId);
    if k.None? {
      return Err("Sport not found");
    }
    var sport := db.sports[k.value];
    var slots := SlotsFor(db.slots, sportId, date);
    var slotIds := seq(|slots|, i requires 0 <= i < |slots| => slots[i].id);
    var bookingBySlotId: map<int, Booking> := map[];
    if |slotIds| > 0 {
      bookingBySlotId := FirstBookingBySlot(ConfirmedIn(db.bookings, slotIds));
    }
    BySlotIsFirstConfirmed(db.bookings, slots, slotIds, bookingBySlotId);
    var slotStatuses, bookedCount := SlotStatuses(db, slots, bookingBySlotId);
    var emptySlots := if |slots| - bookedCount > 0 then |slots| - bookedCount else 0;
    SportDayOverviewOf(db.Snapshot(), sportId, date, k.value, sport, slots, slotStatuses, bookedCount);
    return Ok(DayOverview(sport.id, sport.name, sport.courtName, date, |slots|, bookedCount, emptySlots,
                          slotStatuses));
  }

  /** The map built from the CONFIRMED bookings of the day's slots gives
      each slot its first CONFIRMED booking. */
  lemma BySlotIsFirstConfirmed(bookings: seq<Booking>, slots: seq<Slot>, slotIds: seq<int>,
                               bySlot: map<int, Booking>)
    requires |slotIds| == |slots| && forall i :: 0 <= i < |slots| ==> slotIds[i] == slots[i].id
    requires |slotIds| > 0 ==>
               (forall id :: id in bySlot <==> FirstOf(ConfirmedIn(bookings, slotIds), id).Some?)
               && (forall id :: id in bySlot ==> bySlot[id] == FirstOf(ConfirmedIn(bookings, slotIds), id).value)
    ensures forall i :: 0 <= i < |slots| ==>
              (if slots[i].id in bySlot then Some(bySlot[slots[i].id]) else None)
              == FirstConfirmed(bookings, slots[i].id)
  {
    forall i | 0 <= i < |slots|
      ensures (if slots[i].id in bySlot then Some(bySlot[slots[i].id]) else None)
              == FirstConfirmed(bookings, slots[i].id)
    {
      assert slotIds[i] == slots[i].id;
      FirstOfConfirmedIn(bookings, slotIds, slots[i].id);
    }
  }

  /** The overview of a sport that exists, field by field. */
  lemma SportDayOverviewOf(st: Store, sportId: int, date: string, k: nat, sport: Sport, slots: seq<Slot>,
                            statuses: seq<SlotStatus>, n: int)
    requires FindSport(st.sports, sportId) == Some(k) && sport == st.sports[k]
    requires slots == SlotsFor(st.slots, sportId, date) && statuses == DayStatuses(st, slots)
    requires n == CountBooked(statuses)
    ensures SportDayOverview(st, sportId, date)
              == Ok(DayOverview(sport.id, sport.name, sport.courtName, date, |slots|, n,
                                if |slots| - n > 0 then |slots| - n else 0, statuses))
  {
  }

  /** The putIfAbsent loop: each slot id maps to its first booking. */
  method FirstBookingBySlot(bookings: seq<Booking>) returns (bySlot: map<int, Booking>)
    ensures forall id :: id in bySlot <==> FirstOf(bookings, id).Some?
    ensures forall id :: id in bySlot ==> bySlot[id] == FirstOf(bookings, id).value
  {
    bySlot := map[];
    for i := 0 to |bookings|
      invariant forall id :: id in bySlot <==> FirstOf(bookings[..i], id).Some?
      invariant forall id :: id in bySlot ==> bySlot[id] == FirstOf(bookings[..i], id).value
    {
      var booking := bookings[i];
      assert bookings[..i + 1] == bookings[..i] + [booking];
      forall id ensures FirstOf(bookings[..i + 1], id)
                        == if FirstOf(bookings[..i], id).Some? then FirstOf(bookings[..i], id)
                           else if booking.slotId == id then Some(booking) else None {
        FirstOfAppend(bookings[..i], booking, id);
      }
      if booking.slotId !in bySlot {
        bySlot := bySlot[booking.slotId := booking];
      }
    }
    assert bookings[..|bookings|] == bookings;
  }

  /** The loop over the slots: one status each, and the number booked. */
  method SlotStatuses(db: Database, slots: seq<Slot>, bySlot: map<int, Booking>)
    returns (statuses: seq<SlotStatus>, bookedCount: int)
    requires forall i :: 0 <= i < |slots| ==>
               (if slots[i].id in bySlot then Some(bySlot[slots[i].id]) else None)
               == FirstConfirmed(db.bookings, slots[i].id)
    ensures statuses == DayStatuses(db.Snapshot(), slots)
    ensures bookedCount == CountBooked(statuses)
  {
    statuses := [];
    bookedCount := 0;
    for j := 0 to |slots|
      invariant |statuses| == j
      invariant forall i :: 0 <= i < j ==> statuses[i] == DayStatuses(db.Snapshot(), slots)[i]
      invariant bookedCount == CountBooked(statuses)
    {
      var slot := slots[j];
      var booking := if slot.id in bySlot then Some(bySlot[slot.id]) else None;
      var isBooked := booking.Some? || slot.booked;
      if isBooked {
        bookedCount := bookedCount + 1;
      }
      var dto := SlotStatus(slot.id, slot.slotDate, slot.startTime, slot.endTime, isBooked,
                            None, None, None, None, None, None, None);
      if booking.Some? {
        var b := booking.value;
        var u := FindUser(db.users, b.userId);
        dto := dto.(bookingId := Some(b.id), userId := Some(b.userId), amount := Some(b.amount),
                    status := Some(b.status), paymentMode := b.paymentMode, createdAt := Some(b.createdAt),
                    userName := if u.Some? then db.users[u.value].name else None);
      }
      assert (statuses + [dto])[..j] == statuses;
      statuses := statuses + [dto];
    }
  }
}
