/** The backend's persistent records (the JPA entities Sport, Slot,
    PlayBoxUser, Booking, TransactionEntity, OtpVerification,
    BookingNotification and AdminUser) and the repositories that hold them.
    A nullable Java field is an Option; a `Boolean` that is only ever read
    through `Boolean.TRUE.equals` is a bool, null standing as false. Money is
    an integer amount in place of Java's Float. Identifiers that the database
    generates are drawn from one counter, `nextId`. */
module Entities {
  import opened Wrappers

  datatype Sport = Sport(
    id: int,
    name: Option<string>,
    courtName: Option<string>,
    pricePerHour: Option<int>,
    multiSlot: bool)

  datatype Slot = Slot(
    id: int,
    sportId: int,
    slotDate: string,
    startTime: string,
    endTime: string,
    booked: bool)

  datatype User = User(
    id: int,
    name: Option<string>,
    phone: Option<string>,
    email: Option<string>,
    cardUid: Option<string>,
    balance: Option<int>,
    createdAt: Option<string>)

  datatype Booking = Booking(
    id: int,
    userId: int,
    sportId: int,
    slotId: int,
    amount: int,
    status: string,
    paymentMode: Option<string>,
    remarks: Option<string>,
    createdAt: string)

  datatype Txn = Txn(
    id: int,
    userId: int,
    userName: Option<string>,
    kind: string,
    amount: int,
    balanceAfter: Option<int>,
    adminName: string,
    description: string,
    timestamp: string)

  datatype OtpRecord = OtpRecord(id: int, phone: string, otp: string, verified: bool, createdAt: string)

  datatype Notification = Notification(
    id: int,
    bookingId: int,
    userId: int,
    userName: Option<string>,
    userPhone: Option<string>,
    sportName: Option<string>,
    slotDate: string,
    startTime: string,
    endTime: string,
    message: string,
    seen: bool,
    createdAt: string)

  datatype AdminUser = AdminUser(username: Option<string>, phone: Option<string>, role: Option<string>)

  /** The contents of every repository at one moment. */
  datatype Store = Store(
    sports: seq<Sport>,
    slots: seq<Slot>,
    users: seq<User>,
    bookings: seq<Booking>,
    transactions: seq<Txn>,
    otps: seq<OtpRecord>,
    notifications: seq<Notification>,
    admins: seq<AdminUser>,
    nextId: int)

  // ---------------------------------------------------------------------
  // Lookups: findById, findByPhone
  // ---------------------------------------------------------------------

  /** The position of the first element satisfying `p`: the single result
      of a findById or findByPhone query, or none. */
  function FirstWhere<T>(xs: seq<T>, p: T -> bool): (r: Option<nat>)
    ensures r.Some? ==> r.value < |xs| && p(xs[r.value])
    ensures r.Some? ==> forall i :: 0 <= i < r.value ==> !p(xs[i])
    ensures r.None? <==> forall i :: 0 <= i < |xs| ==> !p(xs[i])
  {
    if |xs| == 0 then None
    else if p(xs[0]) then Some(0)
    else match FirstWhere(xs[1..], p)
      case None => None
      case Some(k) => Some(k + 1)
  }

  /** Two sequences that agree on `p` everywhere have the same first match. */
  lemma FirstWhereSame<T>(xs: seq<T>, ys: seq<T>, p: T -> bool)
    requires |xs| == |ys| && forall i :: 0 <= i < |xs| ==> p(xs[i]) == p(ys[i])
    ensures FirstWhere(xs, p) == FirstWhere(ys, p)
  {
    var a, b := FirstWhere(xs, p), FirstWhere(ys, p);
    if a.Some? && b.Some? {
      assert !(a.value < b.value) && !(b.value < a.value);
    }
  }

  function FindSport(sports: seq<Sport>, id: int): Option<nat> {
    FirstWhere(sports, (s: Sport) => s.id == id)
  }

  function FindSlot(slots: seq<Slot>, id: int): Option<nat> {
    FirstWhere(slots, (s: Slot) => s.id == id)
  }

  function FindUser(users: seq<User>, id: int): Option<nat> {
    FirstWhere(users, (u: User) => u.id == id)
  }

  function FindUserByPhone(users: seq<User>, phone: string): Option<nat> {
    FirstWhere(users, (u: User) => u.phone == Some(phone))
  }

  function FindNotification(ns: seq<Notification>, id: int): Option<nat> {
    FirstWhere(ns, (n: Notification) => n.id == id)
  }

  /** Every slot refers to a sport that exists (the slot's foreign key). */
  predicate SportsResolved(st: Store) {
    forall i :: 0 <= i < |st.slots| ==> FindSport(st.sports, st.slots[i].sportId).Some?
  }

  /** The repositories, updated in place by the services. */
  class Database {
    var sports: seq<Sport>
    var slots: seq<Slot>
    var users: seq<User>
    var bookings: seq<Booking>
    var transactions: seq<Txn>
    var otps: seq<OtpRecord>
    var notifications: seq<Notification>
    var admins: seq<AdminUser>
    var nextId: int

    constructor (st: Store)
      ensures Snapshot() == st
    {
      sports, slots, users, bookings := st.sports, st.slots, st.users, st.bookings;
      transactions, otps, notifications, admins := st.transactions, st.otps, st.notifications, st.admins;
      nextId := st.nextId;
    }

    /** The contents of all repositories as one value. */
    function Snapshot(): (st: Store)
      reads this
      ensures st.slots == slots && st.users == users && st.sports == sports && st.nextId == nextId
      ensures st.bookings == bookings && st.transactions == transactions
      ensures st.otps == otps && st.notifications == notifications && st.admins == admins
    {
      Store(sports, slots, users, bookings, transactions, otps, notifications, admins, nextId)
    }
  }
}
