/** AuthController: one-time-password login. sendOtp stores a fresh code
    for the phone and hands it to the SMS sender; verifyOtp checks the
    latest code stored for the phone and then logs the user in or signs a
    new one up. The random draw, the clock and the SMS sender's outcome are
    inputs. */
module AuthController {
  import opened Wrappers
  import opened Text
  import opened Numbers
  import opened Entities

  // ---------------------------------------------------------------------
  // sendOtp
  // ---------------------------------------------------------------------

  /** The code for a draw `(int)(Math.random() * 9000)`, which is in
      0..8999: the draw plus 1000, in decimal. */
  function OtpCode(draw: nat): (otp: string)
    requires draw < 9000
    ensures |otp| == 4 && AllDigits(otp) && otp[0] != '0'
    ensures DigitsValue(otp) == draw + 1000 && 1000 <= DigitsValue(otp) <= 9999
  {
    FourDigits(draw + 1000);
    NatToString(draw + 1000)
  }

  lemma FourDigits(n: nat)
    requires 1000 <= n < 10000
    ensures |NatToString(n)| == 4
    ensures AllDigits(NatToString(n)) && DigitsValue(NatToString(n)) == n && NatToString(n)[0] != '0'
  {
    NatToStringDigits(n);
    NatToStringDigits(n / 10);
    NatToStringDigits(n / 100);
  }

  /** What the SMS sender did with the code. */
  datatype Delivery = Delivered | SendFailed(message: Option<string>)

  const TrialMessage := "Twilio trial account can send OTP only "
                        + "to verified numbers. Verify this number "
                        + "in Twilio Console or upgrade Twilio account."

  /** The error a failed send is reported as. */
  function SendFailure(message: Option<string>): (r: string)
  {
    var m := ToLower(message.GetOr(""));
    if Contains(m, "unverified") || Contains(m, "trial") then TrialMessage
    else "Failed to send OTP: " + JavaStr(message)
  }

  /** The failure text names the trial account when the provider's message
      mentions an unverified number or a trial, and otherwise starts with
      "Failed to send OTP: " followed by the provider's message ("null" when
      it has none). */
  lemma SendFailureSpec(message: Option<string>)
    ensures var m := ToLower(message.GetOr(""));
            (SendFailure(message) == TrialMessage <==> Contains(m, "unverified") || Contains(m, "trial"))
            && (!(Contains(m, "unverified") || Contains(m, "trial")) ==>
                  StartsWith(SendFailure(message), "Failed to send OTP: ")
                  && SendFailure(message)[|"Failed to send OTP: "|..] == JavaStr(message))
  {
    var m := ToLower(message.GetOr(""));
    if !(Contains(m, "unverified") || Contains(m, "trial")) {
      var r := SendFailure(message);
      assert r[..20] == "Failed to send OTP: ";
      assert r[0] == 'F' && TrialMessage[0] == 'T';
    }
  }

  /** sendOtp as a transition of the repositories: the code is stored,
      unverified, before it is sent, so it stays stored when sending fails. */
  function SendOtpIn(st: Store, phone: Option<string>, draw: nat, delivery: Delivery, now: string)
    : (r: (Result<string>, Store))
    requires draw < 9000
    ensures IsBlank(phone) <==> r.0 == Err("Phone number required")
    ensures IsBlank(phone) ==> r.1 == st
    ensures !IsBlank(phone) ==>
              r.1 == st.(otps := st.otps + [OtpRecord(st.nextId, phone.value, OtpCode(draw), false, now)],
                         nextId := st.nextId + 1)
    ensures r.0.Ok? <==> !IsBlank(phone) && delivery.Delivered?
  {
    if IsBlank(phone) then (Err("Phone number required"), st)
    else
      var record := OtpRecord(st.nextId, phone.value, OtpCode(draw), false, now);
      var st1 := st.(otps := st.otps + [record], nextId := st.nextId + 1);
      match delivery
      case Delivered => (Ok("OTP sent successfully"), st1)
      case SendFailed(message) =>
        assert SendFailure(message) != "Phone number required" by {
          assert |TrialMessage| == 123;
          assert ("Failed to send OTP: " + JavaStr(message))[0] == 'F';
        }
        (Err(SendFailure(message)), st1)
  }

  /** sendOtp over the repositories. */
  method SendOtp(db: Database, phone: Option<string>, draw: nat, delivery: Delivery, now: string)
    returns (r: Result<string>)
    requires draw < 9000
    modifies db
    ensures (r, db.Snapshot()) == SendOtpIn(old(db.Snapshot()), phone, draw, delivery, now)
  {
    if IsBlank(phone) {
      return Err("Phone number required");
    }
    var otp := OtpCode(draw);
    var record := OtpRecord(db.nextId, phone.value, otp, false, now);
    db.otps := db.otps + [record];
    db.nextId := db.nextId + 1;
    match delivery
    case Delivered =>
      return Ok("OTP sent successfully");
    case SendFailed(message) =>
      var lowered := ToLower(message.GetOr(""));
      if Contains(lowered, "unverified") || Contains(lowered, "trial") {
        return Err(TrialMessage);
      }
      return Err("Failed to send OTP: " + JavaStr(message));
  }

  // ---------------------------------------------------------------------
  // verifyOtp
  // ---------------------------------------------------------------------

  /** findTopByPhoneOrderByIdDesc: the position of the record for the phone
      with the largest id (the later one on a tie). */
  function LatestOtp(otps: seq<OtpRecord>, phone: string): (r: Option<nat>)
    ensures r.None? <==> forall i :: 0 <= i < |otps| ==> otps[i].phone != phone
    ensures r.Some? ==> r.value < |otps| && otps[r.value].phone == phone
    ensures r.Some? ==> forall i :: 0 <= i < |otps| && otps[i].phone == phone ==> otps[i].id <= otps[r.value].id
  {
    if |otps| == 0 then None
    else
      var best := LatestOtp(otps[..|otps| - 1], phone);
      var last := otps[|otps| - 1];
      if last.phone == phone && (best.None? || otps[best.value].id <= last.id) then Some(|otps| - 1)
      else best
  }

  /** A card id made by an old build: after trimming and upper-casing it
      starts with "CARD-". */
  predicate IsLegacyAutoCard(cardUid: Option<string>) {
    cardUid.Some? && StartsWith(ToUpper(JavaTrim(cardUid.value)), "CARD-")
  }

  /** The test ignores case and surrounding white space: any spelling of
      "card-" behind any run of trimmable characters is a legacy id, and
      whatever follows does not matter. */
  lemma LegacyCardPrefix(w: string, p: string, x: string)
    requires forall i :: 0 <= i < |w| ==> IsJavaTrimmable(w[i])
    requires ToUpper(p) == "CARD-"
    ensures IsLegacyAutoCard(Some(w + p + x))
  {
    var s := w + p + x;
    var rest := p + x;
    assert s == w + rest;
    var t := TrimStartBy(s, IsJavaTrimmable);
    TrimStartSkips(w, rest);
    assert t == rest;
    assert rest[|p| - 1] == p[4] && UpperChar(p[4]) == '-';
    var r := TrimEndBy(rest, IsJavaTrimmable);
    TrimEndIsPrefix(rest, IsJavaTrimmable);
    assert |r| > 4;
    assert r[..5] == p;
    assert ToUpper(r)[..5] == ToUpper(p);
  }

  /** Trimming the front of w + s, where everything in w is trimmable and s
      does not start with a trimmable character, leaves s. */
  lemma {:induction false} TrimStartSkips(w: string, s: string)
    requires forall i :: 0 <= i < |w| ==> IsJavaTrimmable(w[i])
    requires |s| > 0 && !IsJavaTrimmable(s[0])
    ensures TrimStartBy(w + s, IsJavaTrimmable) == s
  {
    if |w| == 0 {
      assert w + s == s;
    } else {
      assert (w + s)[1..] == w[1..] + s;
      TrimStartSkips(w[1..], s);
    }
  }

  /** A null card id, and one that does not start with "CARD-" in some
      case, is kept. */
  lemma NotLegacyCard(cardUid: Option<string>)
    requires cardUid.Some? ==> !StartsWith(ToUpper(JavaTrim(cardUid.value)), "CARD-")
    ensures !IsLegacyAutoCard(cardUid)
  {
  }

  /** verifyOtp as a transition of the repositories. Only the latest code
      stored for the phone is compared; a mismatch changes nothing. A match
      marks that record verified (however old it is, and even when it was
      verified before), and that mark stays when the signup that follows
      fails. A known user is logged in, a legacy card id cleared first; an
      unknown phone with a name signs up a user with the trimmed name, a
      zero balance and no card. */
  function VerifyOtpIn(st: Store, phone: Option<string>, otp: Option<string>, name: Option<string>, now: string)
    : (r: (Result<User>, Store))
  {
    if phone.None? || otp.None? then (Err("Phone and OTP required"), st)
    else
      match LatestOtp(st.otps, phone.value)
      case None => (Err("OTP not found"), st)
      case Some(k) =>
        if st.otps[k].otp != otp.value then (Err("Invalid OTP"), st)
        else
          var st1 := st.(otps := st.otps[k := st.otps[k].(verified := true)]);
          match FindUserByPhone(st1.users, phone.value)
          case Some(u) =>
            var user := st1.users[u];
            if IsLegacyAutoCard(user.cardUid) then
              var cleared := user.(cardUid := None);
              (Ok(cleared), st1.(users := st1.users[u := cleared]))
            else (Ok(user), st1)
          case None =>
            if IsBlank(name) then (Err("Name is required for new user signup"), st1)
            else
              var newUser := User(st1.nextId, Some(JavaTrim(name.value)), Some(phone.value), None, None, Some(0), Some(now));
              (Ok(newUser), st1.(users := st1.users + [newUser], nextId := st1.nextId + 1))
  }

  /** The outcomes of verifyOtp, check by check. */
  lemma VerifyOtpSpec(st: Store, phone: Option<string>, otp: Option<string>, name: Option<string>, now: string)
    ensures var (r, st1) := VerifyOtpIn(st, phone, otp, name, now);
            var latest := if phone.Some? then LatestOtp(st.otps, phone.value) else None;
            var matches := phone.Some? && otp.Some? && latest.Some? && st.otps[latest.value].otp == otp.value;
            (r == Err("Phone and OTP required") <==> phone.None? || otp.None?)
            && (r == Err("OTP not found") <==> phone.Some? && otp.Some? && latest.None?)
            && (r == Err("Invalid OTP") <==>
                  phone.Some? && otp.Some? && latest.Some? && st.otps[latest.value].otp != otp.value)
            && (!matches ==> st1 == st)
            && (matches ==>
                  var k := latest.value;
                  |st1.otps| == |st.otps| && st1.otps[k] == st.otps[k].(verified := true)
                  && (forall i :: 0 <= i < |st.otps| && i != k ==> st1.otps[i] == st.otps[i])
                  && st1.(otps := st.otps, users := st.users, nextId := st.nextId) == st
                  && (r.Ok? ==> r.value.phone == phone)
                  && (r.Ok? ==> !IsLegacyAutoCard(r.value.cardUid))
                  && (r.Err? <==> FindUserByPhone(st.users, phone.value).None? && IsBlank(name))
                  && (r.Err? ==> r == Err("Name is required for new user signup")))
  {
    if phone.Some? && otp.Some? {
      match LatestOtp(st.otps, phone.value)
      case None =>
      case Some(k) =>
        if st.otps[k].otp == otp.value {
          var (r, st1) := VerifyOtpIn(st, phone, otp, name, now);
          match FindUserByPhone(st.users, phone.value)
          case Some(u) =>
            assert st.users[u].phone == phone;
          case None =>
            if !IsBlank(name) {
              assert r.value.cardUid == None;
            }
        }
    }
  }

  /** verifyOtp fails with one of its four messages only. */
  lemma VerifyOtpErrors(st: Store, phone: Option<string>, otp: Option<string>, name: Option<string>, now: string)
    ensures var r := VerifyOtpIn(st, phone, otp, name, now).0;
            r.Err? ==> r.message in ["Phone and OTP required", "OTP not found", "Invalid OTP",
                                     "Name is required for new user signup"]
  {
  }

  /** A signup creates exactly one user, under the next id, with the
      trimmed name, the phone, a zero balance, no card and no email; a
      login adds no user and changes no balance. */
  lemma VerifyOtpUsers(st: Store, phone: Option<string>, otp: Option<string>, name: Option<string>, now: string)
    ensures var (r, st1) := VerifyOtpIn(st, phone, otp, name, now);
            r.Ok? && FindUserByPhone(st.users, phone.value).None? ==>
              st1.users == st.users + [r.value] && st1.nextId == st.nextId + 1
              && r.value == User(st.nextId, Some(JavaTrim(name.value)), phone, None, None, Some(0), Some(now))
    ensures var (r, st1) := VerifyOtpIn(st, phone, otp, name, now);
            r.Ok? && FindUserByPhone(st.users, phone.value).Some? ==>
              var u := FindUserByPhone(st.users, phone.value).value;
              |st1.users| == |st.users| && st1.nextId == st.nextId
              && r.value == st1.users[u] && r.value.(cardUid := st.users[u].cardUid) == st.users[u]
              && (forall i :: 0 <= i < |st.users| && i != u ==> st1.users[i] == st.users[i])
              && (IsLegacyAutoCard(st.users[u].cardUid) <==> r.value.cardUid != st.users[u].cardUid)
  {
  }

  /** verifyOtp over the repositories: the record and the user are updated
      in place and saved. */
  method VerifyOtp(db: Database, phone: Option<string>, otp: Option<string>, name: Option<string>, now: string)
    returns (r: Result<User>)
    modifies db
    ensures (r, db.Snapshot()) == VerifyOtpIn(old(db.Snapshot()), phone, otp, name, now)
  {
    if phone.None? || otp.None? {
      return Err("Phone and OTP required");
    }
    var k := LatestOtp(db.otps, phone.value);
    if k.None? {
      return Err("OTP not found");
    }
    var record := db.otps[k.value];
    if record.otp != otp.value {
      return Err("Invalid OTP");
    }
    record := record.(verified := true);
    db.otps := db.otps[k.value := record];
    var u := FindUserByPhone(db.users, phone.value);
    if u.Some? {
      var user := db.users[u.value];
      if IsLegacyAutoCard(user.cardUid) {
        user := user.(cardUid := None);
        db.users := db.users[u.value := user];
      }
      return Ok(user);
    }
    if IsBlank(name) {
      return Err("Name is required for new user signup");
    }
    var newUser := User(db.nextId, Some(JavaTrim(name.value)), Some(phone.value), None, None, Some(0), Some(now));
    db.users := db.users + [newUser];
    db.nextId := db.nextId + 1;
    return Ok(newUser);
  }
}
