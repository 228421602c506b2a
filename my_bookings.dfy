/** The player's booking history (playbox-frontend/src/pages/MyBookings.tsx):
    the bookings newest first, the slot details fetched once per slot id and
    kept by id, and the "upcoming" test of a booking. The clock is an input:
    `nowMinute` is the minute Date.now() falls in, counted on the same scale
    as `dayStart`, which gives the minute of local midnight that
    `new Date(date + "T00:00:00")` denotes (None for an invalid date). */
module MyBookings {
  import opened Wrappers
  import opened Text
  import opened Lists
  import Numbers
  import Formatters
  import opened ClientTypes

  /** A booking as the page receives it; a slot id that is not a number is
      None. */
  datatype Booking = Booking(
    id: int,
    userId: int,
    sportId: int,
    slotId: Option<int>,
    amount: int,
    status: string,
    paymentMode: string,
    createdAt: string)

  // ---------------------------------------------------------------------
  // sortedBookings
  // ---------------------------------------------------------------------

  /** The comparator `b.id - a.id` is negative exactly when a's id is the
      larger. */
  function NewerFirst(): (Booking, Booking) -> bool {
    (a: Booking, b: Booking) => a.id > b.id
  }

  /** `[...bookings].sort((a, b) => b.id - a.id)`: the same bookings, in
      descending id order. */
  function SortedBookings(bookings: seq<Booking>): (r: seq<Booking>)
    ensures multiset(r) == multiset(bookings)
    ensures forall i, j :: 0 <= i < j < |r| ==> r[i].id >= r[j].id
  {
    SortBySorted(bookings, NewerFirst());
    SortBy(bookings, NewerFirst())
  }

  // ---------------------------------------------------------------------
  // isFutureBooking
  // ---------------------------------------------------------------------

  /** isFutureBooking: false without slot details, without a date or an end
      time, when the end hour or minute is NaN, or when the minute is
      undefined (setHours then makes an invalid date, which is never later
      than now); otherwise whether the slot's day at endHour:endMinute lies
      after now. The end has zero
      seconds, so "later than now" is "a later minute than the current
      one". */
  function IsFutureBooking(b: Booking, slotById: map<int, SlotDetails>,
                           dayStart: string -> Option<int>, nowMinute: int): (r: bool)
    ensures r ==> b.slotId.Some? && b.slotId.value in slotById
    ensures b.slotId.Some? && b.slotId.value in slotById ==>
              var slot := slotById[b.slotId.value];
              (slot.slotDate == "" || slot.endTime == "" ==> !r)
              && (!Formatters.EndMinute(slot.endTime).EndsAt? ==> !r)
  {
    if b.slotId.None? || b.slotId.value !in slotById then false
    else
      var slot := slotById[b.slotId.value];
      if slot.slotDate == "" || slot.endTime == "" then false
      else
        var (h, m) := Formatters.ClockParts(slot.endTime);
        if h.None? || !m.Num? then false
        else
          match dayStart(slot.slotDate)
          case Some(d) => d + h.value * 60 + m.n > nowMinute
          case None => false
  }

  /** A well-formed end time on a valid date: upcoming exactly when the end
      minute is later than now. */
  lemma FutureBookingOfWellFormed(b: Booking, slotById: map<int, SlotDetails>,
                                  dayStart: string -> Option<int>, nowMinute: int, h: string, m: string)
    requires b.slotId.Some? && b.slotId.value in slotById
    requires var slot := slotById[b.slotId.value];
             slot.slotDate != "" && dayStart(slot.slotDate).Some?
             && Formatters.WellFormedTime(slot.endTime, h, m)
    ensures var slot := slotById[b.slotId.value];
            (IsFutureBooking(b, slotById, dayStart, nowMinute)
             <==> dayStart(slot.slotDate).value + Numbers.DigitsValue(h) * 60 + Numbers.DigitsValue(m) > nowMinute)
  {
    Formatters.ClockPartsOfWellFormed(slotById[b.slotId.value].endTime, h, m);
  }

  /** The two end-time readers part ways on an end time whose hour is NaN,
      such as "abc" or "x:30". Here a booking on such a slot is never
      upcoming (fail-closed), while isPresentOrFutureSlot shows the same
      slot on today's date (fail-open). */
  lemma MalformedEndTimeDisagrees(b: Booking, slotById: map<int, SlotDetails>,
                                  dayStart: string -> Option<int>, nowMinute: int, today: string, minuteOfDay: int)
    requires b.slotId.Some? && b.slotId.value in slotById
    requires var slot := slotById[b.slotId.value];
             slot.startTime != "" && slot.endTime != "" && today != ""
             && Numbers.JsNumber(SplitJs(slot.endTime, ':')[0]).None?
    requires 0 <= minuteOfDay < 1440
    ensures var slot := slotById[b.slotId.value];
            !IsFutureBooking(b, slotById, dayStart, nowMinute)
            && Formatters.IsPresentOrFutureSlot(today, slot.startTime, slot.endTime, today, minuteOfDay)
  {
    LexLessIrreflexive(today);
  }

  /** An end time that is a number without a ':', such as "18", is read
      alike by both: the booking is never upcoming and the slot is hidden on
      today's date, since the undefined minute makes an invalid date. */
  lemma HourOnlyEndTimeAgrees(b: Booking, slotById: map<int, SlotDetails>,
                              dayStart: string -> Option<int>, nowMinute: int, today: string, minuteOfDay: int)
    requires b.slotId.Some? && b.slotId.value in slotById
    requires var slot := slotById[b.slotId.value];
             slot.startTime != "" && slot.endTime != "" && today != ""
             && ':' !in slot.endTime && Numbers.JsNumber(slot.endTime).Some?
    requires 0 <= minuteOfDay < 1440
    ensures var slot := slotById[b.slotId.value];
            !IsFutureBooking(b, slotById, dayStart, nowMinute)
            && !Formatters.IsPresentOrFutureSlot(today, slot.startTime, slot.endTime, today, minuteOfDay)
  {
    var slot := slotById[b.slotId.value];
    Formatters.NoMinuteToday(slot.startTime, slot.endTime, today, minuteOfDay);
  }

  // ---------------------------------------------------------------------
  // uniqueSlotIds
  // ---------------------------------------------------------------------

  /** `bookings.map(b => b.slotId).filter(id => typeof id === "number")`. */
  function SlotIds(bookings: seq<Booking>): (ids: seq<int>)
    ensures forall x :: x in ids <==> exists i :: 0 <= i < |bookings| && bookings[i].slotId == Some(x)
  {
    if |bookings| == 0 then []
    else
      var rest := SlotIds(bookings[1..]);
      assert forall i :: 1 <= i < |bookings| ==> bookings[i] == bookings[1..][i - 1];
      (if bookings[0].slotId.Some? then [bookings[0].slotId.value] else []) + rest
  }

  /** `Array.from(new Set(xs))` for the elements not in `seen`: the first
      occurrence of each, in order. */
  function DistinctFrom(xs: seq<int>, seen: set<int>): (r: seq<int>)
    ensures forall x :: x in r <==> x in xs && x !in seen
    ensures forall i, j :: 0 <= i < j < |r| ==> r[i] != r[j]
  {
    if |xs| == 0 then []
    else if xs[0] in seen then DistinctFrom(xs[1..], seen)
    else [xs[0]] + DistinctFrom(xs[1..], seen + {xs[0]})
  }

  /** The values of `r` come in the order of their first occurrence in
      `xs`: wherever a later value stands in `xs`, an earlier one stands
      before it. */
  ghost predicate InFirstSeenOrder(r: seq<int>, xs: seq<int>) {
    forall i, j, q :: 0 <= i < j < |r| && 0 <= q < |xs| && xs[q] == r[j] ==> r[i] in xs[..q]
  }

  /** DistinctFrom keeps that order. */
  lemma {:induction false} DistinctFromOrder(xs: seq<int>, seen: set<int>)
    ensures InFirstSeenOrder(DistinctFrom(xs, seen), xs)
  {
    if |xs| > 0 {
      var r := DistinctFrom(xs, seen);
      var tail := xs[1..];
      if xs[0] in seen {
        DistinctFromOrder(tail, seen);
        forall i, j, q | 0 <= i < j < |r| && 0 <= q < |xs| && xs[q] == r[j]
          ensures r[i] in xs[..q]
        {
          assert r == DistinctFrom(tail, seen);
          assert r[j] in r;
          assert q > 0;
          assert xs[q] == tail[q - 1];
          assert r[i] in tail[..q - 1];
          assert xs[..q] == [xs[0]] + tail[..q - 1];
        }
      } else {
        var rest := DistinctFrom(tail, seen + {xs[0]});
        DistinctFromOrder(tail, seen + {xs[0]});
        assert r == [xs[0]] + rest;
        forall i, j, q | 0 <= i < j < |r| && 0 <= q < |xs| && xs[q] == r[j]
          ensures r[i] in xs[..q]
        {
          assert r[j] == rest[j - 1] && rest[j - 1] in rest;
          assert q > 0;
          assert xs[q] == tail[q - 1];
          assert xs[..q] == [xs[0]] + tail[..q - 1];
          if i > 0 {
            assert r[i] == rest[i - 1];
            assert 0 <= i - 1 < j - 1 < |rest| && 0 <= q - 1 < |tail| && tail[q - 1] == rest[j - 1];
            assert InFirstSeenOrder(rest, tail);
            assert rest[i - 1] in tail[..q - 1];
          }
        }
      }
    }
  }

  /** uniqueSlotIds: every numeric slot id of the bookings, each once. */
  function UniqueSlotIds(bookings: seq<Booking>): (r: seq<int>)
    ensures forall i, j :: 0 <= i < j < |r| ==> r[i] != r[j]
    ensures forall x :: x in r <==> exists i :: 0 <= i < |bookings| && bookings[i].slotId == Some(x)
  {
    DistinctFrom(SlotIds(bookings), {})
  }

  // ---------------------------------------------------------------------
  // The lookup tables
  // ---------------------------------------------------------------------

  /** The table `forEach(item => { if (item) table[idOf(item)] = item })`
      builds: each present item under its id, a later item replacing an
      earlier one with the same id. */
  function IndexOf<T>(items: seq<Option<T>>, idOf: T -> int): map<int, T> {
    if |items| == 0 then map[]
    else
      var m := IndexOf(items[..|items| - 1], idOf);
      match items[|items| - 1]
      case Some(x) => m[idOf(x) := x]
      case None => m
  }

  /** The table holds exactly the ids of the present items, and each entry
      is a present item with that id. */
  lemma {:induction false} IndexOfContents<T>(items: seq<Option<T>>, idOf: T -> int)
    ensures forall id :: id in IndexOf(items, idOf) <==>
              exists i :: 0 <= i < |items| && items[i].Some? && idOf(items[i].value) == id
    ensures forall id :: id in IndexOf(items, idOf) ==>
              idOf(IndexOf(items, idOf)[id]) == id && Some(IndexOf(items, idOf)[id]) in items
  {
    if |items| > 0 {
      var init := items[..|items| - 1];
      IndexOfContents(init, idOf);
      forall id ensures id in IndexOf(items, idOf) <==>
                 exists i :: 0 <= i < |items| && items[i].Some? && idOf(items[i].value) == id {
        if id in IndexOf(init, idOf) {
          var i :| 0 <= i < |init| && init[i].Some? && idOf(init[i].value) == id;
          assert items[i] == init[i];
        }
        if exists i :: 0 <= i < |items| && items[i].Some? && idOf(items[i].value) == id {
          var i :| 0 <= i < |items| && items[i].Some? && idOf(items[i].value) == id;
          if i < |init| {
            assert init[i] == items[i];
          }
        }
      }
      forall id | id in IndexOf(items, idOf)
        ensures idOf(IndexOf(items, idOf)[id]) == id && Some(IndexOf(items, idOf)[id]) in items {
        if id in IndexOf(init, idOf) && IndexOf(items, idOf)[id] == IndexOf(init, idOf)[id] {
          var x := IndexOf(init, idOf)[id];
          var k :| 0 <= k < |init| && init[k] == Some(x);
          assert items[k] == Some(x);
        }
      }
    }
  }

  /** The forEach loop that fills a lookup table. */
  method BuildIndex<T>(items: seq<Option<T>>, idOf: T -> int) returns (table: map<int, T>)
    ensures table == IndexOf(items, idOf)
  {
    table := map[];
    var i := 0;
    while i < |items|
      invariant 0 <= i <= |items|
      invariant table == IndexOf(items[..i], idOf)
    {
      assert items[..i + 1][..i] == items[..i];
      if items[i].Some? {
        table := table[idOf(items[i].value) := items[i].value];
      }
      i := i + 1;
    }
    assert items[..|items|] == items;
  }

  function SportId(s: Sport): int { s.id }
  function SlotId(s: SlotDetails): int { s.id }

  /** sportsMap: every sport under its id. */
  method BuildSportsMap(sports: seq<Sport>) returns (sportsById: map<int, Sport>)
    ensures forall id :: id in sportsById <==> exists i :: 0 <= i < |sports| && sports[i].id == id
    ensures forall id :: id in sportsById ==> sportsById[id].id == id && sportsById[id] in sports
  {
    var items := seq(|sports|, i requires 0 <= i < |sports| => Some(sports[i]));
    sportsById := BuildIndex(items, SportId);
    IndexOfContents(items, SportId);
    forall id ensures id in sportsById <==> exists i :: 0 <= i < |sports| && sports[i].id == id {
      if exists i :: 0 <= i < |sports| && sports[i].id == id {
        var i :| 0 <= i < |sports| && sports[i].id == id;
        assert items[i].Some? && SportId(items[i].value) == id;
      }
    }
    forall id | id in sportsById ensures sportsById[id] in sports {
      var k :| 0 <= k < |items| && items[k] == Some(sportsById[id]);
      assert sports[k] == sportsById[id];
    }
  }

  /** `Promise.all(ids.map(fetch))` with every failure caught as null. */
  function Fetched(ids: seq<int>, fetch: int -> Option<SlotDetails>): (r: seq<Option<SlotDetails>>)
    ensures |r| == |ids| && forall i :: 0 <= i < |ids| ==> r[i] == fetch(ids[i])
  {
    seq(|ids|, i requires 0 <= i < |ids| => fetch(ids[i]))
  }

  lemma SlotIndexContents(ids: seq<int>, fetch: int -> Option<SlotDetails>)
    ensures var m := IndexOf(Fetched(ids, fetch), SlotId);
            (forall id :: id in m <==> exists s :: s in ids && fetch(s).Some? && fetch(s).value.id == id)
            && (forall id :: id in m ==> m[id].id == id && exists s :: s in ids && fetch(s) == Some(m[id]))
  {
    var fetched := Fetched(ids, fetch);
    var m := IndexOf(fetched, SlotId);
    IndexOfContents(fetched, SlotId);
    forall id ensures id in m <==> exists s :: s in ids && fetch(s).Some? && fetch(s).value.id == id {
      if exists s :: s in ids && fetch(s).Some? && fetch(s).value.id == id {
        var s :| s in ids && fetch(s).Some? && fetch(s).value.id == id;
        var k :| 0 <= k < |ids| && ids[k] == s;
        assert fetched[k] == fetch(s);
      }
    }
    forall id | id in m ensures exists s :: s in ids && fetch(s) == Some(m[id]) {
      var k :| 0 <= k < |fetched| && fetched[k] == Some(m[id]);
      assert fetched[k] == fetch(ids[k]);
      var s := ids[k];
      assert s in ids && fetch(s) == Some(m[id]);
    }
  }

  /** The slot lookup of loadBookings: one fetch per unique slot id, a
      failed fetch giving null, and the table holding exactly the slots that
      were fetched, each under its own id. */
  method LoadSlotMap(bookings: seq<Booking>, fetch: int -> Option<SlotDetails>)
    returns (slotById: map<int, SlotDetails>)
    ensures forall id :: id in slotById <==>
              exists s :: s in UniqueSlotIds(bookings) && fetch(s).Some? && fetch(s).value.id == id
    ensures forall id :: id in slotById ==>
              slotById[id].id == id && exists s :: s in UniqueSlotIds(bookings) && fetch(s) == Some(slotById[id])
  {
    var ids := UniqueSlotIds(bookings);
    slotById := BuildIndex(Fetched(ids, fetch), SlotId);
    SlotIndexContents(ids, fetch);
  }
}
