/** SlotService: the hourly slot generator and the swimming-hours window. A
    sport whose trimmed, lower-cased name contains "swimming" is open from
    08:00 to 22:00; every other sport has a slot for each hour of the day. */
module SlotService {
  import opened Wrappers
  import opened Text
  import opened Numbers
  import opened Entities
  import opened Lists
  import Formatters

  /** `String.format("%02d:00", hour)`. */
  function HourText(hour: nat): string {
    Format02d(hour) + ":00"
  }

  /** For an hour below 100 the text is two digits spelling the hour, then
      ":00". */
  lemma HourTextShape(hour: nat)
    requires hour < 100
    ensures var r := HourText(hour);
            |r| == 5 && r[2..] == ":00"
            && Formatters.WellFormedTime(r, r[..2], "00") && DigitsValue(r[..2]) == hour
  {
    var hh := Format02d(hour);
    Format02dIsPad2(hour);
    TwoDigitsOf(hour);
    var r := hh + ":00";
    assert r[..2] == hh && r[2..] == ":00";
    assert r == hh + ":" + "00";
    assert AllDigits("00") && |"00"| == 2;
  }

  /** isSwimmingSport: the name, trimmed and lower-cased, contains "swimming";
      a sport without a name is not a swimming sport. */
  predicate IsSwimmingSport(sport: Sport) {
    sport.name.Some? && Contains(ToLower(JavaTrim(sport.name.value)), "swimming")
  }

  /** isSwimmingHourAllowed: the hour before the first ':' is in 8..21. A
      null or blank time, one that Java's split does not cut into two pieces,
      or an hour parseInt rejects is not allowed. */
  predicate IsSwimmingHourAllowed(startTime: Option<string>)
    ensures IsSwimmingHourAllowed(startTime) ==> !IsBlank(startTime) && ':' in startTime.value
  {
    !IsBlank(startTime)
    && var parts := SplitJava(startTime.value, ':');
       |parts| >= 2
       && match JavaParseInt(parts[0])
          case None => false
          case Some(hour) => 8 <= hour < 22
  }

  /** A well-formed "H:M" is allowed exactly when its hour is in 8..21. */
  lemma SwimmingHourOfWellFormed(t: string, h: string, m: string)
    requires Formatters.WellFormedTime(t, h, m) && DigitsValue(h) <= INT_MAX
    ensures IsSwimmingHourAllowed(Some(t)) <==> 8 <= DigitsValue(h) < 22
  {
    Formatters.NoColonInDigits(h);
    Formatters.NoColonInDigits(m);
    assert t == h + [':'] + m;
    SplitJavaAround(h, ':', m);
    JavaParseIntOfDigits(h);
    assert !IsJavaWhitespace(t[0]) by { assert t[0] == h[0] && IsDigit(h[0]); }
  }

  /** "8:" has no minute piece once Java's split drops the trailing empty
      string, so it is rejected whatever its hour. */
  lemma TrailingColonNotAllowed(h: string)
    requires AllDigits(h)
    ensures !IsSwimmingHourAllowed(Some(h + ":"))
  {
    Formatters.NoColonInDigits(h);
    var t := h + ":";
    assert t == h + [':'] + "";
    SplitAround(h, ':', "");
    assert DropTrailingEmpty([h, ""]) == DropTrailingEmpty([h]);
  }

  /** isSwimmingSlotAllowed: always true for other sports. */
  predicate IsSwimmingSlotAllowed(sport: Sport, startTime: Option<string>)
    ensures !IsSwimmingSport(sport) ==> IsSwimmingSlotAllowed(sport, startTime)
    ensures IsSwimmingSlotAllowed(sport, startTime) ==> !IsSwimmingSport(sport) || (startTime.Some? && ':' in startTime.value)
  {
    !IsSwimmingSport(sport) || IsSwimmingHourAllowed(startTime)
  }

  // ---------------------------------------------------------------------
  // generateSlotsForDate
  // ---------------------------------------------------------------------

  function FirstHour(swimming: bool): nat { if swimming then 8 else 0 }
  function EndHour(swimming: bool): nat { if swimming then 22 else 24 }

  /** The slot saved for `hour`: "HH:00" to "((HH+1) mod 24):00", unbooked. */
  function HourSlot(id: int, sportId: int, date: string, hour: nat): Slot {
    Slot(id, sportId, date, HourText(hour), HourText((hour + 1) % 24), false)
  }

  /** The n slots saved by the loop for hours from..from+n-1, with ids from
      firstId. */
  function HourlySlots(firstId: int, sportId: int, date: string, from: nat, n: nat): (r: seq<Slot>)
    ensures |r| == n
  {
    if n == 0 then []
    else HourlySlots(firstId, sportId, date, from, n - 1) + [HourSlot(firstId + n - 1, sportId, date, from + n - 1)]
  }

  /** The i-th slot is the one for hour from + i, with id firstId + i. */
  lemma {:induction false} HourlySlotsAt(firstId: int, sportId: int, date: string, from: nat, n: nat, i: nat)
    requires 0 <= i < n
    ensures HourlySlots(firstId, sportId, date, from, n)[i] == HourSlot(firstId + i, sportId, date, from + i)
  {
    var prev := HourlySlots(firstId, sportId, date, from, n - 1);
    var last := HourSlot(firstId + n - 1, sportId, date, from + n - 1);
    assert HourlySlots(firstId, sportId, date, from, n) == prev + [last];
    if i < n - 1 {
      HourlySlotsAt(firstId, sportId, date, from, n - 1, i);
      assert (prev + [last])[i] == prev[i];
    } else {
      assert (prev + [last])[i] == last;
      assert firstId + n - 1 == firstId + i && from + n - 1 == from + i;
    }
  }

  /** findBySport_IdAndSlotDate finds something. */
  predicate HasSlotsFor(slots: seq<Slot>, sportId: int, date: string) {
    exists i :: 0 <= i < |slots| && slots[i].sportId == sportId && slots[i].slotDate == date
  }

  /** generateSlotsForDate as a transition of the repositories. */
  function GenerateSlotsForDate(st: Store, sportId: int, date: string): (r: (Result<()>, Store))
    ensures FindSport(st.sports, sportId).None? ==> r == (Err("Sport not found"), st)
    ensures HasSlotsFor(st.slots, sportId, date) ==> r.1 == st
    ensures r.1.sports == st.sports && r.1.users == st.users && r.1.bookings == st.bookings
    ensures |st.slots| <= |r.1.slots| && r.1.slots[..|st.slots|] == st.slots
  {
    match FindSport(st.sports, sportId)
    case None => (Err("Sport not found"), st)
    case Some(k) =>
      if HasSlotsFor(st.slots, sportId, date) then (Ok(()), st)
      else
        var swimming := IsSwimmingSport(st.sports[k]);
        var from, to := FirstHour(swimming), EndHour(swimming);
        var added := HourlySlots(st.nextId, sportId, date, from, to - from);
        (Ok(()), st.(slots := st.slots + added, nextId := st.nextId + (to - from)))
  }

  /** A sequence that holds the slot for hour from + i at each i is the
      loop's output. */
  lemma HourlySlotsFromPoints(s: seq<Slot>, firstId: int, sportId: int, date: string, from: nat, n: nat)
    requires |s| == n
    requires forall i :: 0 <= i < n ==> s[i] == HourSlot(firstId + i, sportId, date, from + i)
    ensures s == HourlySlots(firstId, sportId, date, from, n)
  {
    var h := HourlySlots(firstId, sportId, date, from, n);
    forall i | 0 <= i < n ensures s[i] == h[i] {
      HourlySlotsAt(firstId, sportId, date, from, n, i);
    }
  }

  /** The for loop of generateSlotsForDate: one slot saved per hour in
      from..to-1, each taking the next id. */
  method SaveHourlySlots(db: Database, sportId: int, date: string, from: nat, to: nat)
    requires from <= to
    modifies db
    ensures db.Snapshot() == old(db.Snapshot()).(
              slots := old(db.slots) + HourlySlots(old(db.nextId), sportId, date, from, to - from),
              nextId := old(db.nextId) + (to - from))
  {
    var firstId := db.nextId;
    ghost var before, added := db.slots, [];
    var hour: nat := from;
    while hour < to
      invariant from <= hour <= to
      invariant db.slots == before + added && |added| == hour - from
      invariant forall i :: 0 <= i < |added| ==> added[i] == HourSlot(firstId + i, sportId, date, from + i)
      invariant db.nextId == firstId + (hour - from)
      invariant db.sports == old(db.sports) && db.users == old(db.users) && db.bookings == old(db.bookings)
      invariant db.transactions == old(db.transactions) && db.otps == old(db.otps)
      invariant db.notifications == old(db.notifications) && db.admins == old(db.admins)
    {
      var slot := HourSlot(db.nextId, sportId, date, hour);
      db.slots := db.slots + [slot];
      added := added + [slot];
      db.nextId := db.nextId + 1;
      hour := hour + 1;
    }
    HourlySlotsFromPoints(added, firstId, sportId, date, from, to - from);
  }

  /** generateSlotsForDate over the repositories. */
  method GenerateSlots(db: Database, sportId: int, date: string) returns (r: Result<()>)
    modifies db
    ensures (r, db.Snapshot()) == GenerateSlotsForDate(old(db.Snapshot()), sportId, date)
  {
    var k := FindSport(db.sports, sportId);
    if k.None? {
      return Err("Sport not found");
    }
    if HasSlotsFor(db.slots, sportId, date) {
      return Ok(());
    }
    var swimming := IsSwimmingSport(db.sports[k.value]);
    ghost var st0 := db.Snapshot();
    GenerationOf(st0, sportId, date, k.value, swimming);
    SaveHourlySlots(db, sportId, date, FirstHour(swimming), EndHour(swimming));
    assert db.Snapshot() == GenerateSlotsForDate(st0, sportId, date).1;
    return Ok(());
  }

  /** The generation for a sport that exists and has no slots on the date,
      with the hours its swimming flag picks. */
  lemma GenerationOf(st: Store, sportId: int, date: string, k: nat, swimming: bool)
    requires FindSport(st.sports, sportId) == Some(k) && !HasSlotsFor(st.slots, sportId, date)
    requires swimming == IsSwimmingSport(st.sports[k])
    ensures var from, to := FirstHour(swimming), EndHour(swimming);
            GenerateSlotsForDate(st, sportId, date)
              == (Ok(()), st.(slots := st.slots + HourlySlots(st.nextId, sportId, date, from, to - from),
                              nextId := st.nextId + (to - from)))
  {
  }

  /** The slots a successful generation added. */
  function Added(st: Store, sportId: int, date: string): seq<Slot> {
    GenerateSlotsForDate(st, sportId, date).1.slots[|st.slots|..]
  }

  /** A swimming sport gets the 14 slots starting 08:00..21:00, any other
      sport the 24 slots starting 00:00..23:00; every new slot belongs to
      the sport and the date, is unbooked, and ends where the next begins. */
  lemma GeneratedSlots(st: Store, sportId: int, date: string)
    requires FindSport(st.sports, sportId).Some? && !HasSlotsFor(st.slots, sportId, date)
    ensures var swimming := IsSwimmingSport(st.sports[FindSport(st.sports, sportId).value]);
            var added := Added(st, sportId, date);
            |added| == (if swimming then 14 else 24)
            && (forall i :: 0 <= i < |added| ==>
                  added[i].sportId == sportId && added[i].slotDate == date && !added[i].booked
                  && added[i].startTime == HourText(FirstHour(swimming) + i)
                  && added[i].endTime == HourText((FirstHour(swimming) + i + 1) % 24))
            && (forall i :: 0 <= i < |added| - 1 ==> added[i].endTime == added[i + 1].startTime)
  {
    var k := FindSport(st.sports, sportId).value;
    var swimming := IsSwimmingSport(st.sports[k]);
    HourlySlotsChain(st.nextId, sportId, date, FirstHour(swimming), EndHour(swimming) - FirstHour(swimming));
    assert Added(st, sportId, date)
           == HourlySlots(st.nextId, sportId, date, FirstHour(swimming), EndHour(swimming) - FirstHour(swimming));
  }

  /** The slots for hours from..from+n-1 (within one day) belong to the
      sport and the date, are unbooked, start at their hour and end where the
      next one starts. */
  lemma HourlySlotsChain(firstId: int, sportId: int, date: string, from: nat, n: nat)
    requires from + n <= 24
    ensures var h := HourlySlots(firstId, sportId, date, from, n);
            (forall i :: 0 <= i < n ==>
               h[i].sportId == sportId && h[i].slotDate == date && !h[i].booked
               && h[i].startTime == HourText(from + i) && h[i].endTime == HourText((from + i + 1) % 24))
            && (forall i :: 0 <= i < n - 1 ==> h[i].endTime == h[i + 1].startTime)
  {
    var h := HourlySlots(firstId, sportId, date, from, n);
    forall i | 0 <= i < n ensures h[i] == HourSlot(firstId + i, sportId, date, from + i) {
      HourlySlotsAt(firstId, sportId, date, from, n, i);
    }
    forall i | 0 <= i < n - 1 ensures h[i].endTime == h[i + 1].startTime {
      assert (from + i + 1) % 24 == from + i + 1;
    }
  }

  /** A second call creates nothing: the slots of the first call are found. */
  lemma GenerateTwiceIsOnce(st: Store, sportId: int, date: string)
    ensures var st1 := GenerateSlotsForDate(st, sportId, date).1;
            GenerateSlotsForDate(st1, sportId, date).1 == st1
  {
    var st1 := GenerateSlotsForDate(st, sportId, date).1;
    if FindSport(st.sports, sportId).Some? && !HasSlotsFor(st.slots, sportId, date) {
      GeneratedSlots(st, sportId, date);
      var added := Added(st, sportId, date);
      assert st1.slots[|st.slots|] == added[0];
    }
  }

  /** Every slot generated for a swimming sport is inside the window, so
      none of them is filtered out again when the day is listed. */
  lemma GeneratedSwimmingSlotsAllowed(st: Store, sportId: int, date: string)
    requires FindSport(st.sports, sportId).Some? && !HasSlotsFor(st.slots, sportId, date)
    requires IsSwimmingSport(st.sports[FindSport(st.sports, sportId).value])
    ensures forall s :: s in Added(st, sportId, date) ==> IsSwimmingHourAllowed(Some(s.startTime))
  {
    GeneratedSlots(st, sportId, date);
    var added := Added(st, sportId, date);
    forall i | 0 <= i < |added| ensures IsSwimmingHourAllowed(Some(added[i].startTime)) {
      var t := HourText(8 + i);
      HourTextShape(8 + i);
      SwimmingHourOfWellFormed(t, t[..2], "00");
    }
  }

  // ---------------------------------------------------------------------
  // getVisibleSlotsForDate
  // ---------------------------------------------------------------------

  /** Comparator.comparing(Slot::getStartTime): String.compareTo order. */
  predicate StartsBefore(a: Slot, b: Slot) {
    LexLess(a.startTime, b.startTime)
  }

  lemma StartsBeforeIsStrict()
    ensures StrictOrder(StartsBefore)
  {
    forall a: Slot ensures !StartsBefore(a, a) {
      LexLessIrreflexive(a.startTime);
    }
    forall a: Slot, b: Slot, c: Slot | StartsBefore(a, b) && StartsBefore(b, c)
      ensures StartsBefore(a, c)
    {
      LexLessTransitive(a.startTime, b.startTime, c.startTime);
    }
  }

  /** findBySport_IdAndSlotDate, in repository order. */
  function SlotsFor(slots: seq<Slot>, sportId: int, date: string): seq<Slot> {
    Keep(slots, (s: Slot) => s.sportId == sportId && s.slotDate == date)
  }

  /** The swimming filter of getVisibleSlotsForDate, on one slot. */
  predicate InSwimmingWindow(s: Slot) {
    IsSwimmingHourAllowed(Some(s.startTime))
  }

  /** getVisibleSlotsForDate. */
  function GetVisibleSlotsForDate(st: Store, sportId: int, date: string): (r: Result<seq<Slot>>)
    ensures FindSport(st.sports, sportId).None? <==> r == Err("Sport not found")
    ensures r.Ok? ==> multiset(r.value) <= multiset(SlotsFor(st.slots, sportId, date))
  {
    match FindSport(st.sports, sportId)
    case None => Err("Sport not found")
    case Some(k) =>
      var slots := SlotsFor(st.slots, sportId, date);
      if !IsSwimmingSport(st.sports[k]) then Ok(slots)
      else Ok(SortBy(Keep(slots, InSwimmingWindow), StartsBefore))
  }

  /** For a swimming sport the day's slots are exactly those inside the
      window, each as often as the repository holds it, ordered by start
      time; for any other sport they are returned
      as the repository lists them. */
  lemma VisibleSlots(st: Store, sportId: int, date: string)
    requires FindSport(st.sports, sportId).Some?
    ensures var sport := st.sports[FindSport(st.sports, sportId).value];
            var all := SlotsFor(st.slots, sportId, date);
            var r := GetVisibleSlotsForDate(st, sportId, date).value;
            (!IsSwimmingSport(sport) ==> r == all)
            && (IsSwimmingSport(sport) ==>
                  SortedBy(r, StartsBefore)
                  && (forall s :: s in r <==> s in all && IsSwimmingHourAllowed(Some(s.startTime)))
                  && multiset(r) == multiset(Keep(all, InSwimmingWindow))
                  && (forall s :: multiset(r)[s] == if InSwimmingWindow(s) then multiset(all)[s] else 0))
  {
    StartsBeforeIsStrict();
    SortKeep(SlotsFor(st.slots, sportId, date), InSwimmingWindow, StartsBefore);
  }
}
