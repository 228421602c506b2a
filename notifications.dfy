/** BookingNotificationService: the admin-facing record of every booking,
    the "seen" flag, and the choice of which admins receive the alert SMS.
    Sending a text is not modelled; an alert is the pair (phone, text)
    handed to the SMS sender, and a send that fails is skipped over. */
module BookingNotifications {
  import opened Wrappers
  import opened Text
  import opened Entities

  /** safe: null reads as "". */
  function Safe(s: Option<string>): string {
    s.GetOr("")
  }

  /** The alert text of a booking. */
  function BookingMessage(userName: Option<string>, userPhone: Option<string>, sportName: Option<string>,
                          slot: Slot): string {
    "New booking: " + Safe(userName) + " (" + Safe(userPhone) + ") | "
    + Safe(sportName) + " | " + slot.slotDate + " " + slot.startTime + " - " + slot.endTime
  }

  /** The message starts with "New booking: " and the user's name and ends
      with the slot's end time; a missing name, phone or sport name prints
      as the empty string. */
  lemma BookingMessageShape(userName: Option<string>, userPhone: Option<string>, sportName: Option<string>,
                            slot: Slot)
    ensures var m := BookingMessage(userName, userPhone, sportName, slot);
            var head := "New booking: " + Safe(userName) + " (";
            |head| + |slot.endTime| <= |m| && m[..|head|] == head && m[|m| - |slot.endTime|..] == slot.endTime
    ensures BookingMessage(None, None, None, slot) == BookingMessage(Some(""), Some(""), Some(""), slot)
  {
    var head := "New booking: " + Safe(userName) + " (";
    var m := BookingMessage(userName, userPhone, sportName, slot);
    var body := m[..|m| - |slot.endTime|];
    assert m == body + slot.endTime;
    assert m[..|head|] == head;
  }

  /** The record notifyBookingCreated saves, with id `id`. */
  function NewNotification(id: int, booking: Booking, user: User, sport: Sport, slot: Slot, now: string): Notification {
    Notification(id, booking.id, user.id, user.name, user.phone, sport.name,
                 slot.slotDate, slot.startTime, slot.endTime,
                 BookingMessage(user.name, user.phone, sport.name, slot), false, now)
  }

  /** notifyBookingCreated: one new, unseen notification copying the
      booking, user, sport and slot fields; nothing else changes. */
  function NotifyBookingCreated(st: Store, booking: Booking, user: User, sport: Sport, slot: Slot,
                                now: string): (r: Store)
    ensures r.(notifications := st.notifications, nextId := st.nextId) == st
    ensures |r.notifications| == |st.notifications| + 1
    ensures r.notifications[..|st.notifications|] == st.notifications
    ensures var n := r.notifications[|st.notifications|];
            !n.seen && n.bookingId == booking.id && n.userId == user.id && n.userName == user.name
            && n.userPhone == user.phone && n.sportName == sport.name && n.slotDate == slot.slotDate
            && n.startTime == slot.startTime && n.endTime == slot.endTime && n.createdAt == now
            && n.message == BookingMessage(user.name, user.phone, sport.name, slot)
    ensures r.nextId == st.nextId + 1
  {
    var n := NewNotification(st.nextId, booking, user, sport, slot, now);
    st.(notifications := st.notifications + [n], nextId := st.nextId + 1)
  }

  /** notifyBookingCreated over the repositories: the record is saved
      under the next id. */
  method NotifyBooking(db: Database, booking: Booking, user: User, sport: Sport, slot: Slot, now: string)
    modifies db
    ensures db.Snapshot() == NotifyBookingCreated(old(db.Snapshot()), booking, user, sport, slot, now)
  {
    var notification := Notification(db.nextId, booking.id, user.id, user.name, user.phone, sport.name,
                                     slot.slotDate, slot.startTime, slot.endTime,
                                     BookingMessage(user.name, user.phone, sport.name, slot), false, now);
    db.notifications := db.notifications + [notification];
    db.nextId := db.nextId + 1;
  }

  // ---------------------------------------------------------------------
  // markSeen
  // ---------------------------------------------------------------------

  /** markSeen as a transition of the repositories. */
  function MarkSeenIn(st: Store, id: int): (r: (Result<Notification>, Store))
    ensures FindNotification(st.notifications, id).None? <==> r.0.Err?
    ensures r.0.Err? ==> r == (Err("Notification not found"), st)
    ensures r.1.(notifications := st.notifications) == st
    ensures |r.1.notifications| == |st.notifications|
    ensures r.0.Ok? ==>
              var k := FindNotification(st.notifications, id).value;
              r.0.value == r.1.notifications[k] && r.0.value == st.notifications[k].(seen := true)
              && forall i :: 0 <= i < |st.notifications| && i != k ==> r.1.notifications[i] == st.notifications[i]
  {
    match FindNotification(st.notifications, id)
    case None => (Err("Notification not found"), st)
    case Some(k) =>
      var n := st.notifications[k].(seen := true);
      (Ok(n), st.(notifications := st.notifications[k := n]))
  }

  /** Marking a notification seen twice is the same as once. */
  lemma MarkSeenIdempotent(st: Store, id: int)
    ensures var once := MarkSeenIn(st, id);
            MarkSeenIn(once.1, id) == once
  {
    var once := MarkSeenIn(st, id);
    match FindNotification(st.notifications, id)
    case None =>
    case Some(k) =>
      FirstWhereSame(st.notifications, once.1.notifications, (n: Notification) => n.id == id);
      assert once.1.notifications[k := once.1.notifications[k]] == once.1.notifications;
  }

  /** markSeen over the repositories. */
  method MarkSeen(db: Database, id: int) returns (r: Result<Notification>)
    modifies db
    ensures (r, db.Snapshot()) == MarkSeenIn(old(db.Snapshot()), id)
  {
    var k := FindNotification(db.notifications, id);
    if k.None? {
      return Err("Notification not found");
    }
    var n := db.notifications[k.value];
    n := n.(seen := true);
    db.notifications := db.notifications[k.value := n];
    return Ok(n);
  }

  // ---------------------------------------------------------------------
  // sendAdminSms
  // ---------------------------------------------------------------------

  /** The admin's role, upper-cased, names an owner, staff member or admin. */
  predicate ShouldNotify(admin: AdminUser) {
    var role := ToUpper(Safe(admin.role));
    Contains(role, "OWNER") || Contains(role, "STAFF") || Contains(role, "ADMIN")
  }

  /** The digits of the username, the fallback phone number. */
  function UsernameDigits(admin: AdminUser): string {
    Filter(Safe(admin.username), IsDigit)
  }

  /** The number an admin's alert goes to: the phone when it is not blank,
      else the username's digits when there are exactly ten of them; an
      admin without a notifying role, or without either, is skipped. */
  function AdminTarget(admin: AdminUser): (r: Option<string>)
    ensures r.Some? <==> ShouldNotify(admin) && (!IsBlank(admin.phone) || |UsernameDigits(admin)| == 10)
    ensures r.Some? ==> !IsBlank(r)
    ensures r.Some? && !IsBlank(admin.phone) ==> r == admin.phone
    ensures r.Some? && IsBlank(admin.phone) ==> r.value == UsernameDigits(admin) && |r.value| == 10
  {
    if !ShouldNotify(admin) then None
    else if IsBlank(admin.phone) then
      var maybePhone := UsernameDigits(admin);
      if |maybePhone| == 10 then
        DigitsNotBlank(maybePhone);
        Some(maybePhone)
      else
        None
    else
      admin.phone
  }

  /** A ten-character digit string is not blank. */
  lemma DigitsNotBlank(d: string)
    requires |d| == 10 && forall i :: 0 <= i < |d| ==> IsDigit(d[i])
    ensures !IsBlank(Some(d))
  {
    assert IsDigit(d[0]);
  }

  /** The alert text for an admin. */
  function AlertText(message: string): string {
    "Elite Club Admin Alert: " + message
  }

  /** Every alert, in admin order: (phone, text) for each admin with a
      target. */
  function AdminAlerts(admins: seq<AdminUser>, message: string): (r: seq<(string, string)>)
    ensures |r| <= |admins|
    ensures forall j :: 0 <= j < |r| ==> r[j].1 == AlertText(message) && !IsBlank(Some(r[j].0))
  {
    if |admins| == 0 then []
    else
      var rest := AdminAlerts(admins[..|admins| - 1], message);
      match AdminTarget(admins[|admins| - 1])
      case None => rest
      case Some(phone) => rest + [(phone, AlertText(message))]
  }

  /** An admin that is skipped, or whose send fails, does not stop the
      alerts of the admins after it: the alerts of a list are those of its
      parts. */
  lemma {:induction false} AdminAlertsAppend(a: seq<AdminUser>, b: seq<AdminUser>, message: string)
    ensures AdminAlerts(a + b, message) == AdminAlerts(a, message) + AdminAlerts(b, message)
  {
    if |b| == 0 {
      assert a + b == a;
    } else {
      AdminAlertsAppend(a, b[..|b| - 1], message);
      assert (a + b)[..|a + b| - 1] == a + b[..|b| - 1];
      assert (a + b)[|a + b| - 1] == b[|b| - 1];
    }
  }

  /** The alerts of a single admin. */
  lemma AdminAlertsOne(admin: AdminUser, message: string)
    ensures AdminAlerts([admin], message)
            == if AdminTarget(admin).Some? then [(AdminTarget(admin).value, AlertText(message))] else []
  {
    assert [admin][..0] == [];
  }

  /** sendAdminSms: the loop over the admins with its two `continue`s. */
  method SendAdminSms(admins: seq<AdminUser>, message: string) returns (sent: seq<(string, string)>)
    ensures sent == AdminAlerts(admins, message)
  {
    sent := [];
    for i := 0 to |admins|
      invariant sent == AdminAlerts(admins[..i], message)
    {
      assert admins[..i + 1][..i] == admins[..i];
      var admin := admins[i];
      var role := ToUpper(Safe(admin.role));
      var shouldNotify := Contains(role, "OWNER") || Contains(role, "STAFF") || Contains(role, "ADMIN");
      if !shouldNotify {
        continue;
      }
      var targetPhone := admin.phone;
      if IsBlank(targetPhone) {
        var maybePhone := Filter(Safe(admin.username), IsDigit);
        if |maybePhone| == 10 {
          targetPhone := Some(maybePhone);
        }
      }
      if IsBlank(targetPhone) {
        continue;
      }
      sent := sent + [(targetPhone.value, AlertText(message))];
    }
    assert admins[..|admins|] == admins;
  }
}
