/** The admin console (playbox-frontend/src/App.tsx): the activity text that
    decides whether a deduction books a slot, the guards the wallet and
    offline-booking handlers apply before calling the backend, the slot
    choices the forms offer, and the list of unseen booking notifications.
    Each handler is a method on the console's state; the backend call it
    makes is returned, and how that call ended is passed in as a Result. */
module AdminConsole {
  import opened Wrappers
  import opened Text
  import opened Lists
  import opened Numbers
  import opened ClientTypes
  import Formatters
  import Entities

  // ---------------------------------------------------------------------
  // normalizeActivity
  // ---------------------------------------------------------------------

  /** `replace(/\s+/g, " ")`: every run of whitespace becomes one space. */
  function CollapseWs(s: string): (r: string)
    ensures |r| <= |s|
    decreases |s|
  {
    if s == [] then []
    else if IsJsWhitespace(s[0]) then " " + CollapseWs(TrimStartBy(s[1..], IsJsWhitespace))
    else [s[0]] + CollapseWs(s[1..])
  }

  /** No whitespace other than single spaces. */
  predicate Collapsed(s: string) {
    forall i :: 0 <= i < |s| && IsJsWhitespace(s[i]) ==>
      s[i] == ' ' && (i + 1 < |s| ==> !IsJsWhitespace(s[i + 1]))
  }

  /** normalizeActivity: trimmed, lower-cased, whitespace runs collapsed. */
  function NormalizeActivity(value: string): string {
    CollapseWs(ToLower(JsTrim(value)))
  }

  lemma CollapseHead(s: string)
    requires |s| > 0
    ensures |CollapseWs(s)| > 0
    ensures IsJsWhitespace(s[0]) ==> CollapseWs(s)[0] == ' '
    ensures !IsJsWhitespace(s[0]) ==> CollapseWs(s)[0] == s[0]
  {
  }

  lemma {:induction false} CollapseWsCollapsed(s: string)
    ensures Collapsed(CollapseWs(s))
    decreases |s|
  {
    if s != [] {
      var rest := if IsJsWhitespace(s[0]) then TrimStartBy(s[1..], IsJsWhitespace) else s[1..];
      var head := if IsJsWhitespace(s[0]) then ' ' else s[0];
      var c := CollapseWs(rest);
      CollapseWsCollapsed(rest);
      assert CollapseWs(s) == [head] + c;
      if |rest| > 0 {
        CollapseHead(rest);
      }
      forall i | 0 <= i < |[head] + c| && IsJsWhitespace(([head] + c)[i])
        ensures ([head] + c)[i] == ' ' && (i + 1 < |[head] + c| ==> !IsJsWhitespace(([head] + c)[i + 1]))
      {
        if i > 0 {
          assert ([head] + c)[i] == c[i - 1];
        }
      }
    }
  }

  /** The whitespace state of the last character survives collapsing. */
  lemma {:induction false} CollapseWsLast(s: string)
    requires |s| > 0 && !IsJsWhitespace(s[|s| - 1])
    ensures |CollapseWs(s)| > 0 && !IsJsWhitespace(CollapseWs(s)[|CollapseWs(s)| - 1])
    decreases |s|
  {
    if IsJsWhitespace(s[0]) {
      var rest := s[1..];
      assert rest[|rest| - 1] == s[|s| - 1];
      TrimStartKeepsLast(rest, IsJsWhitespace);
      CollapseWsLast(TrimStartBy(rest, IsJsWhitespace));
    } else if |s| > 1 {
      CollapseWsLast(s[1..]);
    }
  }

  /** Collapsing adds no character other than the space. */
  lemma {:induction false} CollapseWsChars(s: string)
    ensures forall c :: c in CollapseWs(s) ==> c == ' ' || c in s
    decreases |s|
  {
    if s != [] {
      if IsJsWhitespace(s[0]) {
        var d := TrimStartBy(s[1..], IsJsWhitespace);
        CollapseWsChars(d);
        TrimStartIsSuffix(s[1..], IsJsWhitespace);
        var k := |s[1..]| - |d|;
        forall c | c in d ensures c in s {
          var j :| 0 <= j < |d| && d[j] == c;
          assert s[1 + k + j] == c;
        }
      } else {
        CollapseWsChars(s[1..]);
      }
    }
  }

  /** Collapsing leaves collapsed text alone. */
  lemma {:induction false} CollapseWsFixed(s: string)
    requires Collapsed(s)
    ensures CollapseWs(s) == s
    decreases |s|
  {
    if s != [] {
      assert Collapsed(s[1..]) by {
        forall i | 0 <= i < |s[1..]| && IsJsWhitespace(s[1..][i])
          ensures s[1..][i] == ' ' && (i + 1 < |s[1..]| ==> !IsJsWhitespace(s[1..][i + 1]))
        {
          assert s[1..][i] == s[i + 1];
        }
      }
      CollapseWsFixed(s[1..]);
      if IsJsWhitespace(s[0]) {
        TrimStartFixed(s[1..], IsJsWhitespace);
      }
      assert s == [s[0]] + s[1..];
    }
  }

  /** Lower-casing never turns whitespace into a letter or back. */
  lemma LowerKeepsWhitespace(c: char)
    ensures IsJsWhitespace(LowerChar(c)) == IsJsWhitespace(c)
  {
  }

  /** A normalised activity has no leading or trailing whitespace, no
      upper-case ASCII letter, and no whitespace but single spaces. */
  lemma NormalizedShape(value: string)
    ensures var n := NormalizeActivity(value);
            (|n| > 0 ==> !IsJsWhitespace(n[0]) && !IsJsWhitespace(n[|n| - 1]))
            && (forall i :: 0 <= i < |n| ==> !('A' <= n[i] <= 'Z'))
            && Collapsed(n)
  {
    var trimmed := JsTrim(value);
    var t := ToLower(trimmed);
    var n := CollapseWs(t);
    CollapseWsCollapsed(t);
    CollapseWsChars(t);
    if |n| > 0 {
      assert |t| > 0;
      LowerKeepsWhitespace(trimmed[0]);
      LowerKeepsWhitespace(trimmed[|t| - 1]);
      CollapseHead(t);
      CollapseWsLast(t);
    }
    forall i | 0 <= i < |n| ensures !('A' <= n[i] <= 'Z') {
      assert n[i] in n;
      if n[i] != ' ' {
        var j :| 0 <= j < |t| && t[j] == n[i];
      }
    }
  }

  /** normalizeActivity is idempotent. */
  lemma NormalizeIdempotent(value: string)
    ensures NormalizeActivity(NormalizeActivity(value)) == NormalizeActivity(value)
  {
    var n := NormalizeActivity(value);
    NormalizedShape(value);
    TrimStartFixed(n, IsJsWhitespace);
    TrimEndFixed(n, IsJsWhitespace);
    assert JsTrim(n) == n;
    assert ToLower(n) == n;
    CollapseWsFixed(n);
  }

  // ---------------------------------------------------------------------
  // Activities and sports
  // ---------------------------------------------------------------------

  /** isSportMatchForActivity: "swimming pool" matches any sport whose
      normalised name mentions "swimming"; every other activity matches the
      sports whose normalised name contains it. */
  predicate IsSportMatchForActivity(activity: string, sportName: string) {
    var a := NormalizeActivity(activity);
    var s := NormalizeActivity(sportName);
    if a == "swimming pool" then Contains(s, "swimming") else Contains(s, a)
  }

  /** Matching looks at both texts only up to normalisation. */
  lemma MatchUpToNormalisation(activity: string, sportName: string)
    ensures IsSportMatchForActivity(NormalizeActivity(activity), NormalizeActivity(sportName))
            == IsSportMatchForActivity(activity, sportName)
  {
    NormalizeIdempotent(activity);
    NormalizeIdempotent(sportName);
  }

  /** An activity that normalises to nothing matches every sport. */
  lemma BlankActivityMatchesAll(activity: string, sportName: string)
    requires NormalizeActivity(activity) == ""
    ensures IsSportMatchForActivity(activity, sportName)
  {
    var s := NormalizeActivity(sportName);
    assert OccursAt(s, "", 0);
  }

  /** SLOT_REQUIRED_ACTIVITIES. */
  const SlotRequiredActivities: set<string> := {"cricket", "pickleball", "swimming pool", "swimming"}

  /** requiresSlotSelection: the normalised description is one of the
      activities played on a bookable court. */
  predicate RequiresSlotSelection(description: string) {
    NormalizeActivity(description) in SlotRequiredActivities
  }

  lemma RequiresSlotSelectionUpToNormalisation(description: string)
    ensures RequiresSlotSelection(NormalizeActivity(description)) == RequiresSlotSelection(description)
  {
    NormalizeIdempotent(description);
  }

  /** An empty description needs no slot. */
  lemma EmptyDescriptionNeedsNoSlot()
    ensures !RequiresSlotSelection("")
  {
    assert JsTrim("") == "";
    assert ToLower("") == "";
  }

  /** availableSportsForActivity: the sports matching the description, in
      their order. */
  function AvailableSports(sports: seq<Sport>, description: string): (r: seq<Sport>)
    ensures forall s :: s in r <==> s in sports && IsSportMatchForActivity(description, s.name)
  {
    var r := Keep(sports, (s: Sport) => IsSportMatchForActivity(description, s.name));
    r
  }

  /** The slots a form offers: those not booked and not over, in their
      order. */
  function SlotOptions(slots: seq<Slot>, date: string, today: string, nowMinute: int): (r: seq<Slot>)
    requires 0 <= nowMinute < 1440
    ensures forall s :: s in r <==>
              s in slots && !s.booked && Formatters.IsPresentOrFutureSlot(date, s.startTime, s.endTime, today, nowMinute)
  {
    var offered := (s: Slot) => !s.booked && Formatters.IsPresentOrFutureSlot(date, s.startTime, s.endTime, today, nowMinute);
    var r := Keep(slots, offered);
    r
  }

  // ---------------------------------------------------------------------
  // The dialogs and the backend calls
  // ---------------------------------------------------------------------

  /** The deduction dialog. A sport or slot id is None while the select
      shows its empty option. */
  datatype DeductForm = DeductForm(
    show: bool,
    deductorName: string,
    description: string,
    sportId: Option<int>,
    slotId: Option<int>,
    slots: seq<Slot>)

  /** The offline-booking dialog. */
  datatype BlockForm = BlockForm(
    show: bool,
    name: string,
    phone: string,
    email: string,
    sportId: Option<int>,
    date: string,
    slots: seq<Slot>,
    slotId: Option<int>)

  /** The backend calls the handlers make, with their arguments. */
  datatype ApiCall =
    | AddBalanceCall(uid: string, amount: int, adminName: string)
    | DeductCall(uid: string, amount: int, deductorName: string, description: string,
                 sportId: Option<int>, slotId: Option<int>)
    | BlockCall(name: string, phone: string, email: Option<string>, blockedSlotId: int)
    | MarkSeenCall(id: int)

  /** The status line the console opens with. */
  const WaitingStatus := Status("Waiting for RFID scan...", Info)

  /** The status line after a successful offline booking. */
  const BlockedStatus := Status("Slot blocked successfully (OFFLINE payment). OTP SMS sent to user.", Success)

  /** The deduction dialog after a successful deduction. */
  const ClosedDeductForm := DeductForm(false, "", "", None, None, [])

  // ---------------------------------------------------------------------
  // Guards of the handlers
  // ---------------------------------------------------------------------

  /** The rupee sign as the source file holds it: its UTF-8 bytes read
      as Windows-1252 and written back as UTF-8, so the page shows these
      three characters. */
  const Rupee: string := "\U{E2}\U{201A}\U{B9}"

  /** handleAddBalance's guard: a card must be active and the amount at
      least 500. */
  function AddBalanceGuard(activeUid: string, amount: int): (r: Option<Status>)
    ensures r.None? <==> activeUid != "" && amount >= 500
    ensures r.Some? ==> r.value.kind == Error
  {
    if activeUid == "" || amount < 500 then Some(Status("Minimum add amount is " + Rupee + "500", Error))
    else None
  }

  /** handleDeductBalance's guard: a deductor and a description that are
      not blank, and, for an activity that needs a slot, a sport and a
      slot, checked in that order. */
  function DeductGuard(deductorName: string, description: string,
                       sportId: Option<int>, slotId: Option<int>): (r: Option<Status>)
    ensures r.None? <==>
              JsTrim(deductorName) != "" && JsTrim(description) != ""
              && (RequiresSlotSelection(description) ==> sportId.Some? && slotId.Some?)
    ensures r.Some? ==> r.value.kind == Warning
    ensures (JsTrim(deductorName) == "" || JsTrim(description) == "") ==>
              r == Some(Status("Deductor name & description required", Warning))
  {
    if JsTrim(deductorName) == "" || JsTrim(description) == "" then
      Some(Status("Deductor name & description required", Warning))
    else if RequiresSlotSelection(description) && sportId.None? then
      Some(Status("Please select sport/court", Warning))
    else if RequiresSlotSelection(description) && slotId.None? then
      Some(Status("Please select a slot", Warning))
    else None
  }

  /** The request handleDeductBalance sends once its guard passes: the
      active card, the amount, the deductor, the description, and the sport
      and slot as selected (undefined when not selected). */
  function DeductRequest(form: DeductForm, activeUid: string, amount: int): (r: Option<ApiCall>)
    ensures r.None? <==> DeductGuard(form.deductorName, form.description, form.sportId, form.slotId).Some?
    ensures r.Some? ==>
              r.value.DeductCall? && JsTrim(r.value.deductorName) != "" && JsTrim(r.value.description) != ""
              && (RequiresSlotSelection(r.value.description) ==> r.value.sportId.Some? && r.value.slotId.Some?)
              && r.value.uid == activeUid && r.value.amount == amount
  {
    if DeductGuard(form.deductorName, form.description, form.sportId, form.slotId).Some? then None
    else Some(DeductCall(activeUid, amount, form.deductorName, form.description, form.sportId, form.slotId))
  }

  /** `/^[6-9]\d{9}$/.test(phone)`: ten ASCII digits, the first 6 to 9. */
  predicate IsIndianMobile(phone: string) {
    |phone| == 10 && '6' <= phone[0] <= '9' && forall i :: 1 <= i < 10 ==> IsDigit(phone[i])
  }

  /** handleBlockSlotBooking's guard: a name that is not blank, a trimmed
      phone that is a mobile number, a sport and a slot, checked in that
      order. */
  function BlockGuard(name: string, phone: string, sportId: Option<int>, slotId: Option<int>): (r: Option<Status>)
    ensures r.None? <==>
              JsTrim(name) != "" && IsIndianMobile(JsTrim(phone)) && sportId.Some? && slotId.Some?
    ensures r.Some? ==> r.value.kind == Warning
    ensures JsTrim(name) == "" ==> r == Some(Status("Name is required", Warning))
    ensures JsTrim(name) != "" && !IsIndianMobile(JsTrim(phone)) ==>
              r == Some(Status("Enter valid 10-digit phone number", Warning))
  {
    if JsTrim(name) == "" then Some(Status("Name is required", Warning))
    else if !IsIndianMobile(JsTrim(phone)) then Some(Status("Enter valid 10-digit phone number", Warning))
    else if sportId.None? then Some(Status("Please select sport/court", Warning))
    else if slotId.None? then Some(Status("Please select slot", Warning))
    else None
  }

  /** The request handleBlockSlotBooking sends once its guard passes: the
      trimmed name and phone, the trimmed email or none when it is blank,
      and the selected slot. */
  function BlockRequest(form: BlockForm): (r: Option<ApiCall>)
    ensures r.None? <==> BlockGuard(form.name, form.phone, form.sportId, form.slotId).Some?
    ensures r.Some? ==>
              r.value.BlockCall? && IsIndianMobile(r.value.phone) && r.value.name != ""
              && JsTrim(r.value.name) == r.value.name
              && form.slotId == Some(r.value.blockedSlotId)
              && (r.value.email.Some? ==> r.value.email.value != "")
  {
    if BlockGuard(form.name, form.phone, form.sportId, form.slotId).Some? then None
    else
      var email := JsTrim(form.email);
      TrimIdempotent(form.name, IsJsWhitespace);
      Some(BlockCall(JsTrim(form.name), JsTrim(form.phone),
                     if email == "" then None else Some(email), form.slotId.value))
  }

  /** The phone input's `replace(/\D/g, "").slice(0, 10)`. */
  function PhoneInput(raw: string): (r: string)
    ensures |r| <= 10
    ensures forall i :: 0 <= i < |r| ==> IsDigit(r[i])
  {
    var digits := Filter(raw, (c: char) => IsDigit(c));
    if |digits| <= 10 then digits else digits[..10]
  }

  /** What the phone input holds passes the regular expression exactly when
      the typed text has at least ten digits and the first of them is 6 to
      9; trimming it changes nothing. */
  lemma PhoneInputValid(raw: string)
    ensures var digits := Filter(raw, (c: char) => IsDigit(c));
            IsIndianMobile(PhoneInput(raw)) <==> |digits| >= 10 && '6' <= digits[0] <= '9'
    ensures JsTrim(PhoneInput(raw)) == PhoneInput(raw)
  {
    var p := PhoneInput(raw);
    if |p| > 0 {
      assert !IsJsWhitespace(p[0]) && !IsJsWhitespace(p[|p| - 1]);
    }
    TrimStartFixed(p, IsJsWhitespace);
    TrimEndFixed(p, IsJsWhitespace);
  }

  /** `adminInfo?.username || deductorName || localStorage.getItem('admin')
      || 'Unknown Admin'`: the first of them that is neither missing nor
      empty. */
  function AdminNameFor(username: Option<string>, deductorName: string, stored: Option<string>): (r: string)
    ensures r != ""
    ensures username.Some? && username.value != "" ==> r == username.value
    ensures (username.None? || username.value == "") && deductorName != "" ==> r == deductorName
    ensures r == username.GetOr("") || r == deductorName || r == stored.GetOr("") || r == "Unknown Admin"
  {
    if username.Some? && username.value != "" then username.value
    else if deductorName != "" then deductorName
    else if stored.Some? && stored.value != "" then stored.value
    else "Unknown Admin"
  }

  /** The success line of handleAddBalance. */
  function AddedStatus(amount: int, adminName: string): (r: Status)
    ensures r.kind == Success
  {
    Status(Rupee + IntToString(amount) + " added by " + adminName + " successfully!", Success)
  }

  /** The success line of handleDeductBalance. */
  function DeductedStatus(amount: int, deductorName: string): (r: Status)
    ensures r.kind == Success
  {
    Status(Rupee + IntToString(amount) + " deducted by " + deductorName, Success)
  }

  /** `error.message || fallback`, prefixed as the status line shows it. */
  function ErrorStatus(message: string, fallback: string): (r: Status)
    ensures r.kind == Error
    ensures message != "" ==> r.text == "Error: " + message
    ensures message == "" ==> r.text == "Error: " + fallback
  {
    Status("Error: " + (if message == "" then fallback else message), Error)
  }

  // ---------------------------------------------------------------------
  // Notifications
  // ---------------------------------------------------------------------

  /** `data.filter(item => !item.seen)`. */
  function UnseenOnly(data: seq<Entities.Notification>): (r: seq<Entities.Notification>)
    ensures forall n :: n in r <==> n in data && !n.seen
  {
    var r := Keep(data, (n: Entities.Notification) => !n.seen);
    r
  }

  /** `prev.filter(item => item.id !== id)`. */
  function WithoutId(ns: seq<Entities.Notification>, id: int): (r: seq<Entities.Notification>)
    ensures forall n :: n in r <==> n in ns && n.id != id
    ensures |r| <= |ns|
  {
    var r := Keep(ns, (n: Entities.Notification) => n.id != id);
    r
  }

  /** Removing an id that is listed shortens the list, and removing one that
      is not listed leaves it as it was. */
  lemma WithoutIdCount(ns: seq<Entities.Notification>, id: int)
    ensures (exists k :: 0 <= k < |ns| && ns[k].id == id) ==> |WithoutId(ns, id)| < |ns|
    ensures (forall n :: n in ns ==> n.id != id) ==> WithoutId(ns, id) == ns
  {
    var p := (n: Entities.Notification) => n.id != id;
    if exists k :: 0 <= k < |ns| && ns[k].id == id {
      KeepDropsSome(ns, p);
    } else {
      KeepAll(ns, p);
    }
  }

  // ---------------------------------------------------------------------
  // The console's state
  // ---------------------------------------------------------------------

  class Console {
    var activeUid: string
    var amount: int
    var balance: Option<int>
    var status: Status
    var deduct: DeductForm
    var block: BlockForm
    var bookingNotifications: seq<Entities.Notification>

    /** Only unseen notifications are listed. */
    ghost predicate Valid()
      reads this
    {
      forall n :: n in bookingNotifications ==> !n.seen
    }

    /** The console as it opens on `today`: no card, 500 in the amount
        field, both dialogs closed and empty, no notifications. */
    constructor(today: string)
      ensures Valid()
      ensures activeUid == "" && amount == 500 && balance.None?
      ensures status == WaitingStatus
      ensures deduct == ClosedDeductForm
      ensures block == BlockForm(false, "", "", "", None, today, [], None)
      ensures bookingNotifications == []
    {
      activeUid := "";
      amount := 500;
      balance := None;
      status := WaitingStatus;
      deduct := ClosedDeductForm;
      block := BlockForm(false, "", "", "", None, today, [], None);
      bookingNotifications := [];
    }

    /** handleAddBalance. The guard fails without any call. Otherwise the
        amount is added under the admin's name: on success the new balance
        and a success line, on failure the error line. */
    method HandleAddBalance(username: Option<string>, stored: Option<string>, response: Result<Option<int>>)
      returns (call: Option<ApiCall>)
      requires Valid()
      modifies this
      ensures Valid()
      ensures AddBalanceGuard(old(activeUid), old(amount)).Some? ==>
                call.None? && status == AddBalanceGuard(old(activeUid), old(amount)).value
                && balance == old(balance)
      ensures AddBalanceGuard(old(activeUid), old(amount)).None? ==>
                var adminName := AdminNameFor(username, old(deduct).deductorName, stored);
                call == Some(AddBalanceCall(old(activeUid), old(amount), adminName))
                && (response.Ok? ==>
                      balance == response.value
                      && status == AddedStatus(old(amount), adminName))
                && (response.Err? ==>
                      balance == old(balance) && status == ErrorStatus(response.message, "Failed to add balance"))
      ensures activeUid == old(activeUid) && amount == old(amount)
      ensures deduct == old(deduct) && block == old(block) && bookingNotifications == old(bookingNotifications)
    {
      var rejected := AddBalanceGuard(activeUid, amount);
      if rejected.Some? {
        status := rejected.value;
        return None;
      }
      var adminName := AdminNameFor(username, deduct.deductorName, stored);
      call := Some(AddBalanceCall(activeUid, amount, adminName));
      match response
      case Ok(newBalance) =>
        balance := newBalance;
        status := AddedStatus(amount, adminName);
      case Err(message) =>
        status := ErrorStatus(message, "Failed to add balance");
    }

    /** handleDeductBalance. The guard fails without any call. Otherwise
        the deduction goes out with the sport and slot as selected: on
        success the new balance, a success line and a closed, emptied
        dialog; on failure the error line and the dialog as it was. */
    method HandleDeductBalance(response: Result<Option<int>>) returns (call: Option<ApiCall>)
      requires Valid()
      modifies this
      ensures Valid()
      ensures call == DeductRequest(old(deduct), old(activeUid), old(amount))
      ensures call.None? ==>
                status == DeductGuard(old(deduct).deductorName, old(deduct).description, old(deduct).sportId, old(deduct).slotId).value
                && balance == old(balance) && deduct == old(deduct)
      ensures call.Some? && response.Ok? ==>
                balance == response.value && deduct == ClosedDeductForm
                && status == DeductedStatus(old(amount), old(deduct).deductorName)
      ensures call.Some? && response.Err? ==>
                balance == old(balance) && deduct == old(deduct)
                && status == ErrorStatus(response.message, "Insufficient balance")
      ensures activeUid == old(activeUid) && amount == old(amount)
      ensures block == old(block) && bookingNotifications == old(bookingNotifications)
    {
      call := DeductRequest(deduct, activeUid, amount);
      if call.None? {
        status := DeductGuard(deduct.deductorName, deduct.description, deduct.sportId, deduct.slotId).value;
        return;
      }
      match response
      case Ok(newBalance) =>
        balance := newBalance;
        status := DeductedStatus(amount, deduct.deductorName);
        deduct := ClosedDeductForm;
      case Err(message) =>
        status := ErrorStatus(message, "Insufficient balance");
    }

    /** The effect that follows the description: an activity without slots
        clears the sport, the slot and the slot list; otherwise a single
        matching sport is picked, and a picked sport that no longer matches
        is dropped. */
    method SyncDeductSport(sports: seq<Sport>)
      modifies this
      ensures !RequiresSlotSelection(old(deduct).description) ==>
                deduct == old(deduct).(sportId := None, slotId := None, slots := [])
      ensures RequiresSlotSelection(old(deduct).description) ==>
                var available := AvailableSports(sports, old(deduct).description);
                deduct.slotId == old(deduct).slotId && deduct.slots == old(deduct).slots
                && (|available| == 1 ==> deduct.sportId == Some(available[0].id))
                && (|available| != 1 && old(deduct).sportId.Some?
                    && (exists s :: s in available && s.id == old(deduct).sportId.value) ==>
                      deduct.sportId == old(deduct).sportId)
                && (deduct.sportId.Some? ==> exists s :: s in available && s.id == deduct.sportId.value)
      ensures deduct.show == old(deduct).show && deduct.deductorName == old(deduct).deductorName
      ensures deduct.description == old(deduct).description
      ensures activeUid == old(activeUid) && amount == old(amount) && balance == old(balance) && status == old(status)
      ensures block == old(block) && bookingNotifications == old(bookingNotifications)
    {
      if !RequiresSlotSelection(deduct.description) {
        deduct := deduct.(sportId := None, slotId := None, slots := []);
        return;
      }
      var available := AvailableSports(sports, deduct.description);
      if |available| == 1 {
        assert available[0] in available;
        deduct := deduct.(sportId := Some(available[0].id));
      } else if deduct.sportId.Some? && !(exists s :: s in available && s.id == deduct.sportId.value) {
        deduct := deduct.(sportId := None);
      }
    }

    /** The phone field of the offline-booking dialog as the admin types. */
    method SetBlockBookingPhone(raw: string)
      modifies this
      ensures block == old(block).(phone := PhoneInput(raw))
      ensures activeUid == old(activeUid) && amount == old(amount) && balance == old(balance) && status == old(status)
      ensures deduct == old(deduct) && bookingNotifications == old(bookingNotifications)
    {
      block := block.(phone := PhoneInput(raw));
    }

    /** loadBookingNotifications: a successful load lists the unseen
        notifications it returned; a failed one leaves the list alone. */
    method LoadBookingNotifications(data: Result<seq<Entities.Notification>>)
      requires Valid()
      modifies this
      ensures Valid()
      ensures data.Ok? ==> bookingNotifications == UnseenOnly(data.value)
      ensures data.Err? ==> bookingNotifications == old(bookingNotifications)
      ensures activeUid == old(activeUid) && amount == old(amount) && balance == old(balance) && status == old(status)
      ensures deduct == old(deduct) && block == old(block)
    {
      if data.Ok? {
        bookingNotifications := UnseenOnly(data.value);
      }
    }

    /** handleBlockSlotBooking. The guard fails without any call. Otherwise
        the booking goes out with the trimmed name and phone, the trimmed
        email or none, and the slot: on success the dialog closes, a
        success line is shown and the notifications are reloaded; on
        failure the error line. */
    method HandleBlockSlotBooking(response: Result<()>, reload: Result<seq<Entities.Notification>>)
      returns (call: Option<ApiCall>)
      requires Valid()
      modifies this
      ensures Valid()
      ensures call == BlockRequest(old(block))
      ensures call.None? ==>
                status == BlockGuard(old(block).name, old(block).phone, old(block).sportId, old(block).slotId).value
                && block == old(block) && bookingNotifications == old(bookingNotifications)
      ensures call.Some? && response.Ok? ==>
                block == old(block).(show := false)
                && status == BlockedStatus
                && (reload.Ok? ==> bookingNotifications == UnseenOnly(reload.value))
                && (reload.Err? ==> bookingNotifications == old(bookingNotifications))
      ensures call.Some? && response.Err? ==>
                block == old(block) && bookingNotifications == old(bookingNotifications)
                && status == ErrorStatus(response.message, "Failed to block slot")
      ensures activeUid == old(activeUid) && amount == old(amount) && balance == old(balance)
      ensures deduct == old(deduct)
    {
      call := BlockRequest(block);
      if call.None? {
        status := BlockGuard(block.name, block.phone, block.sportId, block.slotId).value;
        return;
      }
      if response.Err? {
        status := ErrorStatus(response.message, "Failed to block slot");
        return;
      }
      block := block.(show := false);
      status := BlockedStatus;
      LoadBookingNotifications(reload);
    }

    /** handleMarkNotificationSeen: the call always goes out; when it
        succeeds exactly the notifications with that id leave the list. */
    method HandleMarkNotificationSeen(id: int, response: Result<()>) returns (call: ApiCall)
      requires Valid()
      modifies this
      ensures Valid()
      ensures call == MarkSeenCall(id)
      ensures response.Ok? ==> bookingNotifications == WithoutId(old(bookingNotifications), id)
      ensures response.Err? ==> bookingNotifications == old(bookingNotifications)
      ensures activeUid == old(activeUid) && amount == old(amount) && balance == old(balance) && status == old(status)
      ensures deduct == old(deduct) && block == old(block)
    {
      call := MarkSeenCall(id);
      if response.Ok? {
        bookingNotifications := WithoutId(bookingNotifications, id);
      }
    }
  }
}
