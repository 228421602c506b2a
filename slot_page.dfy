/** The player's slot page (playbox-frontend/src/pages/SlotPage.tsx): the
    slots of one sport on one date, filtered to those not yet over, and the
    two-step booking: "Book This Slot" opens a confirmation, and confirming
    sends a wallet booking, refetches the slots and shows a popup. The clock
    is an input (`today` and `nowMinute`, as for
    Formatters.IsPresentOrFutureSlot); an API call is an input too, as the
    Result it resolves or rejects with. */
module SlotPage {
  import opened Wrappers
  import opened Text
  import opened Lists
  import Formatters

  /** A slot as the page keeps it. */
  datatype Slot = Slot(id: int, startTime: string, endTime: string, booked: bool)

  /** The arguments of `api.bookSlot(userId, slotId, paymentMode)`. */
  datatype BookRequest = BookRequest(userId: int, slotId: int, paymentMode: string)

  /** A confirmation in flight: the request sent and the slot's range text
      for the success popup. */
  datatype Pending = Pending(request: BookRequest, slotRange: string)

  /** visibleSlots: the slots that pass isPresentOrFutureSlot for the page's
      date, booked or not, in their order. */
  function VisibleSlots(slots: seq<Slot>, date: string, today: string, nowMinute: int): (r: seq<Slot>)
    requires 0 <= nowMinute < 1440
    ensures forall s :: s in r <==>
              s in slots && Formatters.IsPresentOrFutureSlot(date, s.startTime, s.endTime, today, nowMinute)
  {
    var current := (s: Slot) => Formatters.IsPresentOrFutureSlot(date, s.startTime, s.endTime, today, nowMinute);
    var r := Keep(slots, current);
    r
  }

  /** A booked slot stays on the page exactly as its free twin would. */
  lemma BookedStaysVisible(slots: seq<Slot>, s: Slot, date: string, today: string, nowMinute: int)
    requires 0 <= nowMinute < 1440
    requires s in slots && Formatters.IsPresentOrFutureSlot(date, s.startTime, s.endTime, today, nowMinute)
    ensures s.(booked := true) in VisibleSlots(slots + [s.(booked := true)], date, today, nowMinute)
    ensures s in VisibleSlots(slots, date, today, nowMinute)
  {
  }

  /** `slots.find(slot => slot.id === id)`: the first slot with that id. */
  function FindSlot(slots: seq<Slot>, id: int): (r: Option<Slot>)
    ensures r.None? <==> forall s :: s in slots ==> s.id != id
    ensures r.Some? ==> r.value in slots && r.value.id == id
    ensures r.Some? ==> exists k :: (0 <= k < |slots| && slots[k] == r.value
              && forall j :: 0 <= j < k ==> slots[j].id != id)
  {
    if |slots| == 0 then None
    else if slots[0].id == id then Some(slots[0])
    else
      var r := FindSlot(slots[1..], id);
      assert forall s :: s in slots[1..] ==> s in slots;
      assert forall s :: s in slots ==> s == slots[0] || s in slots[1..];
      if r.Some? then
        var k :| 0 <= k < |slots[1..]| && slots[1..][k] == r.value
                 && forall j :: 0 <= j < k ==> slots[1..][j].id != id;
        assert slots[k + 1] == r.value;
        assert forall j :: 0 <= j < k + 1 ==> slots[j].id != id by {
          forall j | 0 <= j < k + 1 ensures slots[j].id != id {
            if j > 0 {
              assert slots[j] == slots[1..][j - 1];
            }
          }
        }
        r
      else r
  }

  /** `player?.id` is truthy: a player is stored and their id is not 0. */
  predicate LoggedIn(playerId: Option<int>) {
    playerId.Some? && playerId.value != 0
  }

  /** hasEliteCard: the player has a card uid that is not blank. */
  predicate HasEliteCard(cardUid: Option<string>) {
    cardUid.Some? && |JsTrim(cardUid.value)| > 0
  }

  /** `error.message || "Booking failed."`. */
  function BookingError(message: string): (r: string)
    ensures r != ""
    ensures message != "" ==> r == message
  {
    if message == "" then "Booking failed." else message
  }

  /** The slot bookSlot picks: `visibleSlots.find(slot => slot.id === id)`. */
  function Selected(slots: seq<Slot>, date: string, today: string, nowMinute: int, id: int): Option<Slot>
    requires 0 <= nowMinute < 1440
  {
    FindSlot(VisibleSlots(slots, date, today, nowMinute), id)
  }

  /** bookSlot finds nothing exactly when every slot with that id is over;
      what it finds is one of the page's slots, has that id and is not
      over. */
  lemma SelectedSlot(slots: seq<Slot>, date: string, today: string, nowMinute: int, id: int)
    requires 0 <= nowMinute < 1440
    ensures var r := Selected(slots, date, today, nowMinute, id);
            (r.None? <==> forall s :: s in slots && s.id == id ==>
                            !Formatters.IsPresentOrFutureSlot(date, s.startTime, s.endTime, today, nowMinute))
            && (r.Some? ==> r.value in slots && r.value.id == id
                            && Formatters.IsPresentOrFutureSlot(date, r.value.startTime, r.value.endTime, today, nowMinute))
  {
    var v := VisibleSlots(slots, date, today, nowMinute);
    var r := FindSlot(v, id);
    if r.Some? {
      assert r.value in v;
    } else {
      forall s | s in slots && s.id == id
        ensures !Formatters.IsPresentOrFutureSlot(date, s.startTime, s.endTime, today, nowMinute)
      {
        assert s !in v;
      }
    }
  }

  /** The page's state. `cardUid` is `playerData?.cardUid`: None until the
      player's record has been loaded, or when it holds no card. */
  class SlotPageState {
    var slots: seq<Slot>
    var date: string
    var cardUid: Option<string>
    var bookingSlotId: Option<int>
    var confirmSlot: Option<Slot>
    var successPopup: Option<string>
    var errorPopup: Option<string>

    /** The initial state on `today`'s date: no slots, nothing in flight, no
        popup. */
    constructor(today: string)
      ensures slots == [] && date == today && cardUid.None?
      ensures bookingSlotId.None? && confirmSlot.None? && successPopup.None? && errorPopup.None?
    {
      slots := [];
      date := today;
      cardUid := None;
      bookingSlotId := None;
      confirmSlot := None;
      successPopup := None;
      errorPopup := None;
    }

    /** A slot gets a "Book This Slot" button exactly when it is not booked;
        a booked one shows "Not Available". */
    predicate HasBookButton(s: Slot) {
      !s.booked
    }

    /** The button is disabled while that slot's booking is in flight or
        when the player has no card. */
    predicate BookButtonDisabled(s: Slot)
      reads this
    {
      bookingSlotId == Some(s.id) || !HasEliteCard(cardUid)
    }

    /** bookSlot(slotId): without a logged-in player an error popup and no
        confirmation; when no visible slot has that id, "Selected slot not
        found."; otherwise the first visible slot with that id awaits
        confirmation. */
    method BookSlot(slotId: int, playerId: Option<int>, today: string, nowMinute: int)
      requires 0 <= nowMinute < 1440
      modifies this
      ensures !LoggedIn(playerId) ==>
                errorPopup == Some("Please login again to continue booking.") && confirmSlot == old(confirmSlot)
      ensures LoggedIn(playerId) && Selected(old(slots), old(date), today, nowMinute, slotId).None? ==>
                errorPopup == Some("Selected slot not found.") && confirmSlot == old(confirmSlot)
      ensures LoggedIn(playerId) && Selected(old(slots), old(date), today, nowMinute, slotId).Some? ==>
                confirmSlot == Selected(old(slots), old(date), today, nowMinute, slotId)
                && errorPopup == old(errorPopup)
      ensures slots == old(slots) && date == old(date) && cardUid == old(cardUid)
      ensures bookingSlotId == old(bookingSlotId) && successPopup == old(successPopup)
    {
      if !LoggedIn(playerId) {
        errorPopup := Some("Please login again to continue booking.");
        return;
      }
      var selected := Selected(slots, date, today, nowMinute, slotId);
      if selected.None? {
        errorPopup := Some("Selected slot not found.");
        return;
      }
      confirmSlot := selected;
    }

    /** The first half of confirmBooking: nothing happens without a slot
        awaiting confirmation or without a logged-in player; otherwise that
        slot's booking is in flight and the request, always paid from the
        wallet, goes out. */
    method StartConfirm(playerId: Option<int>) returns (pending: Option<Pending>)
      modifies this
      ensures old(confirmSlot).None? || !LoggedIn(playerId) ==>
                pending.None? && bookingSlotId == old(bookingSlotId)
      ensures old(confirmSlot).Some? && LoggedIn(playerId) ==>
                var s := old(confirmSlot).value;
                pending == Some(Pending(BookRequest(playerId.value, s.id, "WALLET"),
                                        Formatters.FormatSlotRange(s.startTime, s.endTime)))
                && bookingSlotId == Some(s.id)
      ensures pending.Some? ==> pending.value.request.paymentMode == "WALLET"
      ensures slots == old(slots) && date == old(date) && cardUid == old(cardUid) && confirmSlot == old(confirmSlot)
      ensures successPopup == old(successPopup) && errorPopup == old(errorPopup)
    {
      if confirmSlot.None? || !LoggedIn(playerId) {
        return None;
      }
      var s := confirmSlot.value;
      var slotRange := Formatters.FormatSlotRange(s.startTime, s.endTime);
      bookingSlotId := Some(s.id);
      pending := Some(Pending(BookRequest(playerId.value, s.id, "WALLET"), slotRange));
    }

    /** The second half of confirmBooking, given how the booking call and
        then the refetch ended. On success the refetched slots replace the
        old ones, the confirmation closes and the success popup carries the
        slot's range. When either call fails its message (or "Booking
        failed.") is shown and the slots and the confirmation stay; a failed
        booking is not followed by a refetch. Either way nothing is in
        flight afterwards. */
    method FinishConfirm(pending: Pending, book: Result<()>, refetch: Result<seq<Slot>>)
      modifies this
      ensures bookingSlotId.None?
      ensures book.Ok? && refetch.Ok? ==>
                slots == refetch.value && confirmSlot.None?
                && successPopup == Some(pending.slotRange) && errorPopup == old(errorPopup)
      ensures book.Err? ==>
                slots == old(slots) && confirmSlot == old(confirmSlot)
                && errorPopup == Some(BookingError(book.message)) && successPopup == old(successPopup)
      ensures book.Ok? && refetch.Err? ==>
                slots == old(slots) && confirmSlot == old(confirmSlot)
                && errorPopup == Some(BookingError(refetch.message)) && successPopup == old(successPopup)
      ensures date == old(date) && cardUid == old(cardUid)
    {
      if book.Err? {
        errorPopup := Some(BookingError(book.message));
      } else if refetch.Err? {
        errorPopup := Some(BookingError(refetch.message));
      } else {
        slots := refetch.value;
        confirmSlot := None;
        successPopup := Some(pending.slotRange);
      }
      bookingSlotId := None;
    }

    /** The slots effect: `getSlots(sportId, date).then(setSlots)`; a failed
        fetch leaves the list alone. */
    method SlotsLoaded(fetched: Result<seq<Slot>>)
      modifies this
      ensures fetched.Ok? ==> slots == fetched.value
      ensures fetched.Err? ==> slots == old(slots)
      ensures date == old(date) && cardUid == old(cardUid) && bookingSlotId == old(bookingSlotId)
      ensures confirmSlot == old(confirmSlot) && successPopup == old(successPopup) && errorPopup == old(errorPopup)
    {
      if fetched.Ok? {
        slots := fetched.value;
      }
    }
  }

  /** A blank card uid is no card: "   " disables booking. */
  lemma BlankCardIsNoCard()
    ensures !HasEliteCard(Some("   "))
    ensures HasEliteCard(Some(" E1 "))
  {
    var t := JsTrim("   ");
    assert t == [] by {
      assert TrimStartBy("   ", IsJsWhitespace) == [];
    }
    assert TrimStartBy(" E1 ", IsJsWhitespace) == "E1 ";
    assert TrimEndBy("E1 ", IsJsWhitespace) == "E1";
  }
}
