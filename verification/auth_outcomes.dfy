/** What each authentication call answers and leaves behind, in terms of the rows
    and keys it meets: the conditions in the order the source checks them, and the
    whole new state. Durations are in milliseconds. */
module AuthOutcomes {
  import opened Common
  import opened Text
  import opened RedisTtl
  import opened Accounts
  import opened AuthProtocol

  // The row is live and of this phone and role.
  ghost predicate Is(u: User, phone: string, role: Role) { !u.deleted && u.phone == phone && u.role == role }

  // uid is the one live account of this phone and role.
  ghost predicate OnlyAccount(us: seq<User>, uid: nat, phone: string, role: Role) {
    uid < |us| && forall i | 0 <= i < |us| :: Is(us[i], phone, role) <==> i == uid
  }

  ghost predicate NoAccount(us: seq<User>, phone: string, role: Role) {
    forall i | 0 <= i < |us| :: !Is(us[i], phone, role)
  }

  // A live account of this role holds the address.
  ghost predicate AddressHeld(us: seq<User>, email: string, role: Role) {
    exists i | 0 <= i < |us| ::
      !us[i].deleted && us[i].role == role && EmailKey(us[i].email) == EmailKey(email) && EmailKey(email) != ""
  }

  ghost predicate SixDigits(otp: string) {
    |TrimSpace(otp)| == 6 && forall i | 0 <= i < 6 :: '0' <= TrimSpace(otp)[i] <= '9'
  }

  /* ---------- sign-up ---------- */

  lemma RegisterAnswer(w: World, now: int, c: Call)
    requires c.Register?
    ensures var d, phone := DecideRegister(w, now, c), Phone.RequireValidPhone(c.phone);
            var sid, name := TrimSpace(c.sid), TrimSpace(c.name);
            d.reply == if c.role == RestaurantManager then Refused(RoleNotSelfRegisterable)
                       else if phone == None then Refused(InvalidPhone)
                       else if name == "" || ByteLen(name) > 100 then Refused(Validation)
                       else if c.email == None then Refused(InvalidEmail)
                       else if sid == "" then Refused(GuestTokenInvalid)
                       else if Get(w.cache.proven, MailKey(GuestScope(sid), c.email.value), now) != Some(true) then
                         Refused(EmailNotVerified)
                       else if CountOr0(w.cache.otpRate, PhoneKey(phone.value, c.role), now) >= 5 then
                         Refused(RateLimited)
                       else if !NoAccount(w.db.users, phone.value, c.role) then Refused(PhoneAlreadyRegistered)
                       else if AddressHeld(w.db.users, c.email.value, c.role) then Refused(EmailAlreadyRegistered)
                       else if |phone.value| > 15 || |name| > 100 || |c.email.value| > 255
                               || |TrimSpace(c.referral)| > 20 || |c.device| > 255 then Refused(Internal)
                       else CodeSent(now + 600_000)
    ensures var d := DecideRegister(w, now, c);
            d.effect == if d.reply.Refused? then None
                        else Some(OpenAccount(TrimSpace(c.sid),
                                              NewUser(Phone.RequireValidPhone(c.phone).value, c.role, TrimSpace(c.name),
                                                      c.email.value, TrimSpace(c.referral)),
                                              c.device, c.code))
  {
    var phone := Phone.RequireValidPhone(c.phone);
    if phone.Some? {
      assert PhoneTaken(w.db.users, phone.value, c.role) <==> !NoAccount(w.db.users, phone.value, c.role);
    }
    if c.email.Some? {
      assert EmailTaken(w.db.users, c.email.value, c.role) <==> AddressHeld(w.db.users, c.email.value, c.role);
    }
  }

  /** Register succeeds exactly when nothing in the source's list of checks fails,
      and then stores the columns asked for, one code, one audit row, and spends
      the proof; a refusal changes nothing. */
  lemma RegisterOutcome(w: World, now: int, c: Call)
    requires c.Register?
    ensures var reply, v := Decide(w, now, c).reply, Step(w, now, c);
            && (reply.Refused? ==> v == w)
            && (!reply.Refused? ==>
                  var phone, uid, email := Phone.RequireValidPhone(c.phone).value, |w.db.users|, c.email.value;
                  && v.db == Tables(
                       w.db.users + [User(phone, c.role, TrimSpace(c.name), email, TrimSpace(c.referral),
                                          true, false, false, false)],
                       w.db.otps + [OtpRow(uid, c.device, c.code, now + 600_000, false, 0, 0, None)],
                       w.db.sessions, w.db.audit + [AuditRow(uid, Create, uid)])
                  && v.cache == w.cache.(
                       otp := SetKey(w.cache.otp, PhoneKey(phone, c.role), c.code, now, 600_000),
                       otpRate := Bump(w.cache.otpRate, PhoneKey(phone, c.role), now, 3_600_000),
                       proven := Del(w.cache.proven, MailKey(GuestScope(TrimSpace(c.sid)), email))))
  {
    RegisterAnswer(w, now, c);
    assert Decide(w, now, c) == DecideRegister(w, now, c);
  }

  /* ---------- sending a phone code ---------- */

  // The newest row with an unexpired unverified code for the account, if any.
  ghost predicate NewestActive(os: seq<OtpRow>, uid: nat, now: int, row: Option<nat>) {
    && (row.Some? ==> row.value < |os| && os[row.value].uid == uid && !os[row.value].verified
                      && os[row.value].expiresAt > now)
    && forall i | 0 <= i < |os| && os[i].uid == uid && !os[i].verified && os[i].expiresAt > now ::
         row.Some? && i <= row.value
  }

  lemma NewestIs(os: seq<OtpRow>, uid: nat, now: int, row: Option<nat>)
    requires NewestActive(os, uid, now, row)
    ensures LatestActive(os, uid, now) == row
  {
    var found := LatestActive(os, uid, now);
    if row.Some? { assert ActiveFor(os[row.value], uid, now); }
    if found.Some? { assert ActiveFor(os[found.value], uid, now); }
  }

  lemma FindsOnly(us: seq<User>, uid: nat, phone: string, role: Role)
    requires OnlyAccount(us, uid, phone, role)
    ensures FindUser(us, phone, role) == Some(uid)
  {
    assert HoldsPhone(us[uid], phone, role);
    assert PhoneTaken(us, phone, role);
    assert Is(us[FindUser(us, phone, role).value], phone, role);
  }

  lemma FindsNone(us: seq<User>, phone: string, role: Role)
    requires NoAccount(us, phone, role)
    ensures FindUser(us, phone, role) == None
  {
    assert forall i | 0 <= i < |us| :: HoldsPhone(us[i], phone, role) == Is(us[i], phone, role);
  }

  /** SendOTP on no valid phone or no live account of that phone and role. */
  lemma SendOtpWithoutAccount(w: World, now: int, c: Call)
    requires c.SendOtp?
    requires var phone := Phone.RequireValidPhone(c.phone);
             phone.Some? ==> NoAccount(w.db.users, phone.value, c.role)
    ensures Step(w, now, c) == w
    ensures Decide(w, now, c).reply ==
            Refused(if Phone.RequireValidPhone(c.phone) == None then InvalidPhone else UserNotFound)
  {
    var phone := Phone.RequireValidPhone(c.phone);
    if phone.Some? { FindsNone(w.db.users, phone.value, c.role); }
  }

  lemma SendOtpAnswer(w: World, now: int, c: Call, uid: nat, row: Option<nat>)
    requires c.SendOtp? && Phone.RequireValidPhone(c.phone).Some?
    requires OnlyAccount(w.db.users, uid, Phone.RequireValidPhone(c.phone).value, c.role)
    requires NewestActive(w.db.otps, uid, now, row)
    ensures var d, phone := DecideSendOtp(w, now, c), Phone.RequireValidPhone(c.phone).value;
            var spent := row.Some? && w.db.otps[row.value].resends >= 5;
            && d.reply == (if w.db.users[uid].suspended then Refused(AccountSuspended)
                           else if CountOr0(w.cache.otpRate, PhoneKey(phone, c.role), now) >= 5 || spent then
                             Refused(RateLimited)
                           else if |c.device| > 255 then Refused(Internal)
                           else CodeSent(now + 600_000))
            && d.effect == (if d.reply == Refused(Internal) then Some(Resend(uid))
                            else if d.reply.Refused? then None
                            else Some(IssuePhone(uid, c.device, c.code)))
  {
    FindsOnly(w.db.users, uid, Phone.RequireValidPhone(c.phone).value, c.role);
    NewestIs(w.db.otps, uid, now, row);
  }

  // One more resend on the row, if there is one.
  function Resent(os: seq<OtpRow>, row: Option<nat>): seq<OtpRow>
    requires row.Some? ==> row.value < |os|
  {
    match row
    case None => os
    case Some(i) => os[i := os[i].(resends := os[i].resends + 1)]
  }

  /** SendOTP for an account: refused while it is suspended or over a limit of
      five, changing nothing; otherwise the resend is counted, and unless the
      device id is too long a new code is stored in both stores. */
  lemma SendOtpOutcome(w: World, now: int, c: Call, uid: nat, row: Option<nat>)
    requires c.SendOtp? && Phone.RequireValidPhone(c.phone).Some?
    requires OnlyAccount(w.db.users, uid, Phone.RequireValidPhone(c.phone).value, c.role)
    requires NewestActive(w.db.otps, uid, now, row)
    ensures var reply, v := Decide(w, now, c).reply, Step(w, now, c);
            var phone := Phone.RequireValidPhone(c.phone).value;
            var spent := row.Some? && w.db.otps[row.value].resends >= 5;
            if w.db.users[uid].suspended then reply == Refused(AccountSuspended) && v == w
            else if CountOr0(w.cache.otpRate, PhoneKey(phone, c.role), now) >= 5 || spent then
              reply == Refused(RateLimited) && v == w
            else if |c.device| > 255 then
              reply == Refused(Internal) && v == w.(db := w.db.(otps := Resent(w.db.otps, row)))
            else
              && reply == CodeSent(now + 600_000)
              && v.db == w.db.(otps := Resent(w.db.otps, row) +
                                       [OtpRow(uid, c.device, c.code, now + 600_000, false, 0, 0, None)])
              && v.cache == w.cache.(otp := SetKey(w.cache.otp, PhoneKey(phone, c.role), c.code, now, 600_000),
                                     otpRate := Bump(w.cache.otpRate, PhoneKey(phone, c.role), now, 3_600_000))
  {
    SendOtpAnswer(w, now, c, uid, row);
    NewestIs(w.db.otps, uid, now, row);
    assert Decide(w, now, c) == DecideSendOtp(w, now, c);
    assert Is(w.db.users[uid], Phone.RequireValidPhone(c.phone).value, c.role);
  }

  /* ---------- logging in ---------- */

  // The newest unverified row of the account and device, if any.
  ghost predicate NewestUnverified(os: seq<OtpRow>, uid: nat, device: string, row: Option<nat>) {
    && (row.Some? ==> row.value < |os| && os[row.value].uid == uid && os[row.value].device == device
                      && !os[row.value].verified)
    && forall i | 0 <= i < |os| && os[i].uid == uid && os[i].device == device && !os[i].verified ::
         row.Some? && i <= row.value
  }

  lemma NewestUnverifiedIs(os: seq<OtpRow>, uid: nat, device: string, row: Option<nat>)
    requires NewestUnverified(os, uid, device, row)
    ensures LatestUnverified(os, uid, device) == row
  {
    var found := LatestUnverified(os, uid, device);
    if row.Some? { assert UnverifiedFor(os[row.value], uid, device); }
    if found.Some? { assert UnverifiedFor(os[found.value], uid, device); }
  }

  /** VerifyOTP on no valid phone, device or code, or on no live account or row. */
  lemma VerifyOtpWithoutRow(w: World, now: int, c: Call)
    requires c.VerifyOtp?
    requires var phone := Phone.RequireValidPhone(c.phone);
             phone.Some? && TrimSpace(c.device) != "" && SixDigits(c.otp) ==>
               || NoAccount(w.db.users, phone.value, c.role)
               || exists uid :: OnlyAccount(w.db.users, uid, phone.value, c.role)
                                && NewestUnverified(w.db.otps, uid, c.device, None)
    ensures Step(w, now, c) == w
    ensures Decide(w, now, c).reply ==
            Refused(if Phone.RequireValidPhone(c.phone) == None then InvalidPhone
                    else if TrimSpace(c.device) == "" || !SixDigits(c.otp) then Validation
                    else OtpInvalid)
  {
    var phone := Phone.RequireValidPhone(c.phone);
    if phone.Some? {
      if NoAccount(w.db.users, phone.value, c.role) { FindsNone(w.db.users, phone.value, c.role); }
      if uid :| OnlyAccount(w.db.users, uid, phone.value, c.role) && NewestUnverified(w.db.otps, uid, c.device, None) {
        FindsOnly(w.db.users, uid, phone.value, c.role);
        NewestUnverifiedIs(w.db.otps, uid, c.device, None);
      }
    }
    assert ValidateOtp(c.otp) == SixDigits(c.otp);
  }

  // A row the call finds for its account.
  ghost predicate Presents(w: World, c: Call, uid: nat, row: nat)
    requires c.VerifyOtp?
  {
    var phone := Phone.RequireValidPhone(c.phone);
    && phone.Some? && TrimSpace(c.device) != "" && SixDigits(c.otp)
    && OnlyAccount(w.db.users, uid, phone.value, c.role)
    && NewestUnverified(w.db.otps, uid, c.device, Some(row))
  }

  lemma PresentsDecides(w: World, now: int, c: Call, uid: nat, row: nat)
    requires c.VerifyOtp? && Presents(w, c, uid, row)
    ensures LiveUser(w.db.users, w.db.otps[row].uid)
    ensures Decide(w, now, c) == DecideRow(w, now, row, c.device, c.otp)
  {
    var phone := Phone.RequireValidPhone(c.phone).value;
    FindsOnly(w.db.users, uid, phone, c.role);
    NewestUnverifiedIs(w.db.otps, uid, c.device, Some(row));
    assert Is(w.db.users[uid], phone, c.role);
    assert ValidateOtp(c.otp);
  }

  // The row after one more try at now, blocked for half an hour if it was the fifth.
  function TriedOnce(o: OtpRow, now: int): OtpRow {
    if o.attempts + 1 >= 5 then o.(attempts := o.attempts + 1, blockedUntil := Some(now + 1_800_000))
    else o.(attempts := o.attempts + 1)
  }

  // The new row of the tables after a refused try.
  ghost predicate OnlyRow(w: World, v: World, row: nat, o: OtpRow)
    requires row < |w.db.otps|
  {
    v.db == w.db.(otps := w.db.otps[row := o]) && v.cache == w.cache
  }

  // What becomes of a row that does not sign in, and the answer.
  ghost predicate RowRefused(w: World, now: int, otp: string, row: nat, reply: Reply, v: World)
    requires row < |w.db.otps|
  {
    var o := w.db.otps[row];
    if o.blockedUntil.Some? && o.blockedUntil.value > now then reply == Refused(OtpMaxAttempts) && v == w
    else if o.attempts >= 5 then
      reply == Refused(OtpMaxAttempts) && OnlyRow(w, v, row, o.(blockedUntil := Some(now + 1_800_000)))
    else if now > o.expiresAt || otp != o.hash then
      && OnlyRow(w, v, row, TriedOnce(o, now))
      && reply == Refused(if o.attempts + 1 >= 5 then OtpMaxAttempts
                          else if now > o.expiresAt then OtpExpired else OtpInvalid)
    else if |o.device| > 100 then reply == Refused(Internal) && v.db == w.db && v.cache == w.cache
    else reply.SignedIn?
  }

  lemma RowAnswer(w: World, now: int, row: nat, device: string, otp: string)
    requires row < |w.db.otps| && !w.db.otps[row].verified && LiveUser(w.db.users, w.db.otps[row].uid)
    requires w.db.otps[row].device == device && TrimSpace(device) != ""
    ensures var d := DecideRow(w, now, row, device, otp);
            RowRefused(w, now, otp, row, d.reply, match d.effect case None => w case Some(e) => Perform(w, now, e))
  {
  }

  /** VerifyOTP on the row it finds, when it does not sign in: blocked, spent, late
      and wrong codes, and a device id no session can hold. */
  lemma VerifyOtpRefuses(w: World, now: int, c: Call, uid: nat, row: nat)
    requires c.VerifyOtp? && Presents(w, c, uid, row)
    ensures RowRefused(w, now, c.otp, row, Decide(w, now, c).reply, Step(w, now, c))
  {
    PresentsDecides(w, now, c, uid, row);
    RowAnswer(w, now, row, c.device, c.otp);
  }

  // The call signs in: its row is neither blocked nor spent, its code right and in
  // time, and its device id fits a session.
  ghost predicate Opens(w: World, now: int, c: Call, row: nat)
    requires c.VerifyOtp? && row < |w.db.otps|
  {
    var o := w.db.otps[row];
    && !(o.blockedUntil.Some? && o.blockedUntil.value > now) && o.attempts < 5
    && now <= o.expiresAt && c.otp == o.hash && |c.device| <= 100
  }

  // Every table and key after a sign-in through this row.
  ghost predicate SignedInBy(w: World, now: int, c: Call, uid: nat, row: nat, v: World)
    requires c.VerifyOtp? && uid < |w.db.users| && row < |w.db.otps|
  {
    var u, o, s := w.db.users[uid], w.db.otps[row], |w.db.sessions|;
    && v.db == Tables(w.db.users[uid := u.(phoneVerified := true)],
                      w.db.otps[row := o.(verified := true, attempts := o.attempts + 1)],
                      w.db.sessions + [SessionRow(uid, c.role, u.phone, c.device, true)],
                      w.db.audit + [AuditRow(uid, Login, s)])
    && v.cache == w.cache.(otp := Del(w.cache.otp, PhoneKey(u.phone, c.role)),
                           sessions := SetKey(w.cache.sessions, s, CachedSession(uid, c.role, true), now, 86_400_000))
    && v.log == Then(Then(w.log, Tried(row, true)), LoggedIn(uid, row, s))
  }

  /** VerifyOTP signs in exactly when the row it finds is open and its code right
      and in time on a fitting device; it answers with that account, its role and
      the session it has just opened, which was none before. */
  lemma SignInOutcome(w: World, now: int, c: Call, uid: nat, row: nat)
    requires c.VerifyOtp? && Presents(w, c, uid, row)
    ensures var reply, v := Decide(w, now, c).reply, Step(w, now, c);
            && (reply.SignedIn? <==> Opens(w, now, c, row))
            && (reply.SignedIn? ==>
                  && reply.uid == uid && reply.role == c.role && reply.session == |w.db.sessions|
                  && SignedInBy(w, now, c, uid, row, v))
  {
    PresentsDecides(w, now, c, uid, row);
    assert Is(w.db.users[uid], Phone.RequireValidPhone(c.phone).value, c.role);
  }

  // The session answered, in the new state: new, active, of the account and device,
  // and in the history as this login.
  ghost predicate FreshSession(w: World, v: World, c: Call, reply: Reply)
    requires c.VerifyOtp? && reply.SignedIn?
  {
    var s := reply.session;
    && s >= |w.db.sessions| && s < |v.db.sessions| && reply.uid < |v.db.users|
    && v.db.sessions[s] == SessionRow(reply.uid, c.role, v.db.users[reply.uid].phone, c.device, true)
    && reply.role == c.role && v.db.users[reply.uid].role == c.role
    && v.log.Then? && v.log.event.LoggedIn? && v.log.event.uid == reply.uid && v.log.event.session == s
  }

  lemma SignedInSession(w: World, now: int, c: Call, uid: nat, row: nat, later: int)
    requires c.VerifyOtp? && Presents(w, c, uid, row) && Opens(w, now, c, row)
    requires now <= later < now + 86_400_000
    ensures var reply, v := Decide(w, now, c).reply, Step(w, now, c);
            reply.SignedIn? && FreshSession(w, v, c, reply) && DecideUse(v, later, reply.session).reply == Authenticated
  {
    SignInOutcome(w, now, c, uid, row);
  }

  /* ---------- email codes ---------- */

  lemma MailIssueOutcome(w: World, now: int, k: MailKey, code: string)
    ensures var d := DecideMailIssue(w, now, k, code);
            && d.reply == (if CountOr0(w.cache.mailRate, k, now) >= 5 then Refused(RateLimited)
                           else MailSent(now + 600_000))
            && d.effect == (if d.reply.Refused? then None else Some(IssueMail(k, code)))
            && (d.effect.Some? ==>
                  var v := Perform(w, now, d.effect.value);
                  && v.db == w.db
                  && v.cache == w.cache.(mailHash := SetKey(w.cache.mailHash, k, code, now, 600_000),
                                         mailAttempts := Del(w.cache.mailAttempts, k),
                                         mailRate := Bump(w.cache.mailRate, k, now, 3_600_000)))
  {
  }

  // A code went out under the key, or the rate refused it.
  ghost predicate Issued(w: World, now: int, k: MailKey, code: string, reply: Reply, v: World) {
    if CountOr0(w.cache.mailRate, k, now) >= 5 then reply == Refused(RateLimited) && v == w
    else
      && reply == MailSent(now + 600_000) && v.db == w.db
      && v.cache == w.cache.(mailHash := SetKey(w.cache.mailHash, k, code, now, 600_000),
                             mailAttempts := Del(w.cache.mailAttempts, k),
                             mailRate := Bump(w.cache.mailRate, k, now, 3_600_000))
  }

  /** SendEmailOTP issues under the guest session's own key, five per rate key. */
  lemma SendEmailOtpOutcome(w: World, now: int, c: Call)
    requires c.SendEmailOtp?
    ensures var reply, v := Decide(w, now, c).reply, Step(w, now, c);
            if TrimSpace(c.sid) == "" then reply == Refused(GuestTokenInvalid) && v == w
            else if c.email == None then reply == Refused(InvalidEmail) && v == w
            else Issued(w, now, MailKey(GuestScope(TrimSpace(c.sid)), c.email.value), c.code, reply, v)
  {
    if c.email.Some? { MailIssueOutcome(w, now, MailKey(GuestScope(TrimSpace(c.sid)), c.email.value), c.code); }
    assert Decide(w, now, c) == DecideSendEmailOtp(w, now, c);
  }

  /** SendEmailUpdateOTP issues under the user's own key, unless the address is the
      user's own up to case or another live account of the role holds it. */
  lemma SendEmailUpdateOtpOutcome(w: World, now: int, c: Call)
    requires c.SendEmailUpdateOtp?
    ensures var reply, v := Decide(w, now, c).reply, Step(w, now, c);
            if c.email == None then reply == Refused(InvalidEmail) && v == w
            else if c.uid >= |w.db.users| || w.db.users[c.uid].deleted then reply == Refused(ProfileNotFound) && v == w
            else if Lower(c.email.value) == Lower(w.db.users[c.uid].email) then
              reply == Refused(EmailUnchanged) && v == w
            else if AddressHeld(w.db.users, c.email.value, w.db.users[c.uid].role) then
              reply == Refused(EmailConflict) && v == w
            else Issued(w, now, MailKey(UserScope(c.uid), c.email.value), c.code, reply, v)
  {
    if c.email.Some? {
      MailIssueOutcome(w, now, MailKey(UserScope(c.uid), c.email.value), c.code);
      if c.uid < |w.db.users| {
        var role := w.db.users[c.uid].role;
        assert EmailTaken(w.db.users, c.email.value, role) <==> AddressHeld(w.db.users, c.email.value, role);
      }
    }
    assert Decide(w, now, c) == DecideSendEmailUpdateOtp(w, now, c);
  }

  // A guess that is not the live code: late, or counted and at the fifth fatal.
  ghost predicate Missed(w: World, now: int, k: MailKey, reply: Reply, v: World) {
    if Get(w.cache.mailHash, k, now) == None then reply == Refused(OtpExpired) && v == w
    else if CountOr0(w.cache.mailAttempts, k, now) + 1 >= 5 then
      && reply == Refused(OtpMaxAttempts) && v.db == w.db
      && v.cache == w.cache.(mailHash := Del(w.cache.mailHash, k), mailAttempts := Del(w.cache.mailAttempts, k))
    else
      && reply == Refused(OtpInvalid) && v.db == w.db
      && v.cache == w.cache.(mailAttempts := Bump(w.cache.mailAttempts, k, now, 600_000))
  }

  lemma GuessOutcome(w: World, now: int, k: MailKey, otp: string)
    ensures var g := DecideGuess(w, now, k, otp);
            && (g.None? <==> Get(w.cache.mailHash, k, now) == Some(otp))
            && (g.Some? ==>
                  Missed(w, now, k, g.value.reply,
                         match g.value.effect case None => w case Some(e) => Perform(w, now, e)))
  {
    BumpedThenDeleted(w.cache.mailAttempts, k, now);
  }

  lemma BumpedThenDeleted(m: Keys<MailKey, int>, k: MailKey, now: int)
    ensures Del(Bump(m, k, now, 600_000), k) == Del(m, k)
  {
  }

  /** VerifyEmail: the live code of the session's key proves the address for half
      an hour and is spent; anything else is a miss. */
  lemma VerifyEmailOutcome(w: World, now: int, c: Call)
    requires c.VerifyEmail?
    ensures var reply, v := Decide(w, now, c).reply, Step(w, now, c);
            if TrimSpace(c.sid) == "" then reply == Refused(GuestTokenInvalid) && v == w
            else if c.email == None then reply == Refused(InvalidEmail) && v == w
            else if !SixDigits(c.otp) then reply == Refused(Validation) && v == w
            else
              var k := MailKey(GuestScope(TrimSpace(c.sid)), c.email.value);
              if Get(w.cache.mailHash, k, now) != Some(c.otp) then Missed(w, now, k, reply, v)
              else
                && reply == MailVerified && v.db == w.db
                && v.cache == w.cache.(proven := SetKey(w.cache.proven, k, true, now, 1_800_000),
                                       mailHash := Del(w.cache.mailHash, k),
                                       mailAttempts := Del(w.cache.mailAttempts, k))
  {
    if c.email.Some? { GuessOutcome(w, now, MailKey(GuestScope(TrimSpace(c.sid)), c.email.value), c.otp); }
    assert ValidateOtp(c.otp) == SixDigits(c.otp);
    assert Decide(w, now, c) == DecideVerifyEmail(w, now, c);
  }

  /** VerifyEmailUpdate: the live code of the user's key moves the user to the
      address, unless another live account of the role holds it or it is too long. */
  lemma VerifyEmailUpdateOutcome(w: World, now: int, c: Call)
    requires c.VerifyEmailUpdate?
    ensures var reply, v := Decide(w, now, c).reply, Step(w, now, c);
            if c.email == None then reply == Refused(InvalidEmail) && v == w
            else if !SixDigits(c.otp) then reply == Refused(Validation) && v == w
            else if c.uid >= |w.db.users| || w.db.users[c.uid].deleted then reply == Refused(ProfileNotFound) && v == w
            else
              var k, u := MailKey(UserScope(c.uid), c.email.value), w.db.users[c.uid];
              if Get(w.cache.mailHash, k, now) != Some(c.otp) then Missed(w, now, k, reply, v)
              else if AddressHeld(w.db.users, c.email.value, u.role) then reply == Refused(EmailConflict) && v == w
              else if |c.email.value| > 255 then reply == Refused(Internal) && v == w
              else
                && reply == MailMoved
                && v.db == w.db.(users := w.db.users[c.uid := u.(email := c.email.value, emailVerified := true)],
                                 audit := w.db.audit + [AuditRow(c.uid, EmailUpdate, c.uid)])
                && v.cache == w.cache.(mailHash := Del(w.cache.mailHash, k),
                                       mailAttempts := Del(w.cache.mailAttempts, k))
  {
    if c.email.Some? {
      GuessOutcome(w, now, MailKey(UserScope(c.uid), c.email.value), c.otp);
      if c.uid < |w.db.users| {
        var role := w.db.users[c.uid].role;
        assert EmailTaken(w.db.users, c.email.value, role) <==> AddressHeld(w.db.users, c.email.value, role);
      }
    }
    assert ValidateOtp(c.otp) == SixDigits(c.otp);
    assert Decide(w, now, c) == DecideVerifyEmailUpdate(w, now, c);
  }

  /* ---------- sessions ---------- */

  /** Logout deactivates that session's row and no other, audits it and removes its
      key; a request on a readable session renews its key for a day. */
  lemma SessionOutcomes(w: World, now: int, s: nat, uid: nat)
    ensures var v := Step(w, now, LogoutCall(s, uid));
            && v.db.users == w.db.users && v.db.otps == w.db.otps
            && v.db.sessions == (if s < |w.db.sessions| then w.db.sessions[s := w.db.sessions[s].(active := false)]
                                 else w.db.sessions)
            && v.db.audit == w.db.audit + [AuditRow(uid, Action.Logout, s)]
            && v.cache == w.cache.(sessions := w.cache.sessions - {s})
    ensures var v := Step(w, now, UseSession(s));
            if Live(w.cache.sessions, s, now) && w.cache.sessions[s].value.active then
              var renewed := Cell(w.cache.sessions[s].value, Some(now + 86_400_000));
              v == w.(cache := w.cache.(sessions := w.cache.sessions[s := renewed]))
            else v == w
  {
  }

  // Suspending and deleting change that one column of that one account.
  lemma AdminOutcomes(w: World, now: int, uid: nat, b: bool)
    requires uid < |w.db.users|
    ensures Step(w, now, SuspendUser(uid, b)) ==
            w.(db := w.db.(users := w.db.users[uid := w.db.users[uid].(suspended := b)]))
    ensures Step(w, now, DeleteUser(uid)) ==
            w.(db := w.db.(users := w.db.users[uid := w.db.users[uid].(deleted := true)]))
  {
  }

  /* ---------- reachable states have one account per phone and role ---------- */

  ghost predicate OnePerPhone(us: seq<User>) {
    forall i, j | 0 <= i < j < |us| && !us[i].deleted && !us[j].deleted ::
      us[i].phone != us[j].phone || us[i].role != us[j].role
  }

  ghost predicate OnePerAddress(us: seq<User>) {
    forall i, j | 0 <= i < j < |us| && !us[i].deleted && !us[j].deleted && us[i].role == us[j].role ::
      EmailKey(us[i].email) != EmailKey(us[j].email) || EmailKey(us[i].email) == ""
  }

  lemma PerformKeepsPhones(w: World, now: int, e: Effect)
    requires Applies(w, e) && UniqueGuard(w, e) && OnePerPhone(w.db.users)
    ensures OnePerPhone(Perform(w, now, e).db.users)
  {
    if e.OpenAccount? {
      assert forall i | 0 <= i < |w.db.users| :: !HoldsPhone(w.db.users[i], e.user.phone, e.user.role);
    }
  }

  lemma PerformKeepsAddresses(w: World, now: int, e: Effect)
    requires Applies(w, e) && UniqueGuard(w, e) && OnePerAddress(w.db.users)
    ensures OnePerAddress(Perform(w, now, e).db.users)
  {
    if e.OpenAccount? {
      assert forall i | 0 <= i < |w.db.users| :: !HoldsEmail(w.db.users[i], EmailKey(e.user.email), e.user.role);
    } else if e.MoveEmail? {
      var role := w.db.users[e.uid].role;
      assert forall i | 0 <= i < |w.db.users| :: !HoldsEmail(w.db.users[i], EmailKey(e.email), role);
    }
  }

  /** In every run of atomic calls live accounts are unique by phone and role and
      by role and normalised address. */
  lemma {:induction false} AccountsStayUnique(r: Run)
    ensures OnePerPhone(After(r).db.users) && OnePerAddress(After(r).db.users)
  {
    if r.Next? {
      AccountsStayUnique(r.before);
      var w, d := After(r.before), Decide(After(r.before), r.now, r.call);
      if d.effect.Some? {
        PerformKeepsPhones(w, r.now, d.effect.value);
        PerformKeepsAddresses(w, r.now, d.effect.value);
      }
    }
  }

  lemma AccountOf(us: seq<User>, phone: string, role: Role) returns (uid: Option<nat>)
    requires OnePerPhone(us)
    ensures match uid case None => NoAccount(us, phone, role) case Some(i) => OnlyAccount(us, i, phone, role)
  {
    if i: nat :| i < |us| && Is(us[i], phone, role) { uid := Some(i); } else { uid := None; }
  }

  // A code is due to account uid, whose newest active row is row.
  ghost predicate CodeDue(w: World, now: int, c: Call, uid: nat, row: Option<nat>)
    requires c.SendOtp?
  {
    var phone := Phone.RequireValidPhone(c.phone);
    && phone.Some? && uid < |w.db.users| && Is(w.db.users[uid], phone.value, c.role) && !w.db.users[uid].suspended
    && CountOr0(w.cache.otpRate, PhoneKey(phone.value, c.role), now) < 5
    && NewestActive(w.db.otps, uid, now, row) && (row.Some? ==> w.db.otps[row.value].resends < 5)
    && |c.device| <= 255
  }

  lemma CodeDueSends(w: World, now: int, c: Call, uid: nat, row: Option<nat>)
    requires c.SendOtp? && OnePerPhone(w.db.users) && CodeDue(w, now, c, uid, row)
    ensures Decide(w, now, c).reply.CodeSent?
  {
    SendOtpOutcome(w, now, c, uid, row);
  }

  lemma SentWasDue(w: World, now: int, c: Call) returns (uid: nat, row: Option<nat>)
    requires c.SendOtp? && OnePerPhone(w.db.users)
    ensures Decide(w, now, c).reply.CodeSent? ==> CodeDue(w, now, c, uid, row)
  {
    uid, row := 0, None;
    var phone := Phone.RequireValidPhone(c.phone);
    if phone.Some? {
      var account := AccountOf(w.db.users, phone.value, c.role);
      if account.Some? {
        uid, row := account.value, LatestActive(w.db.otps, account.value, now);
        SendOtpOutcome(w, now, c, uid, row);
        assert Is(w.db.users[uid], phone.value, c.role);
      } else {
        SendOtpWithoutAccount(w, now, c);
      }
    } else {
      SendOtpWithoutAccount(w, now, c);
    }
  }

  /** In every reachable state a phone code is sent exactly when the phone is valid,
      a live account of that phone and role exists and is not suspended, the rate
      and the newest active row's resends are below five, and the device id fits. */
  lemma CodeSentIff(r: Run, now: int, c: Call)
    requires c.SendOtp?
    ensures Decide(After(r), now, c).reply.CodeSent? <==> exists uid, row :: CodeDue(After(r), now, c, uid, row)
  {
    AccountsStayUnique(r);
    var uid, row := SentWasDue(After(r), now, c);
    if i, o :| CodeDue(After(r), now, c, i, o) { CodeDueSends(After(r), now, c, i, o); }
  }

  // The effect issues no phone code to the account.
  lemma NoIssueTo(w: World, now: int, e: Effect, uid: nat)
    requires Enabled(w, now, e) && OnePerPhone(w.db.users)
    requires uid < |w.db.users| && !w.db.users[uid].deleted && w.db.users[uid].suspended
    ensures !(e.IssuePhone? && PhoneOf(w.db.users[e.uid]) == PhoneOf(w.db.users[uid]))
    ensures !(e.OpenAccount? && PhoneOf(e.user) == PhoneOf(w.db.users[uid]))
    ensures !(e.Resend? && e.uid == uid)
  {
    assert HoldsPhone(w.db.users[uid], w.db.users[uid].phone, w.db.users[uid].role);
  }

  lemma NoIssueNoCode(w: World, now: int, e: Effect, uid: nat)
    requires Enabled(w, now, e) && OnePerPhone(w.db.users)
    requires uid < |w.db.users| && !w.db.users[uid].deleted && w.db.users[uid].suspended
    ensures var v, k := Perform(w, now, e), PhoneOf(w.db.users[uid]);
            && (k in v.cache.otp ==> k in w.cache.otp && v.cache.otp[k] == w.cache.otp[k])
            && (forall i | |w.db.otps| <= i < |v.db.otps| :: v.db.otps[i].uid != uid)
  {
    NoIssueTo(w, now, e, uid);
  }

  /** While an account is suspended no call, whatever its arguments, stores a new
      code for it: no OTP row of the account is added and no code written under
      its phone and role; asking for one is answered AccountSuspended. */
  lemma SuspendedGetsNoCode(r: Run, now: int, c: Call, uid: nat)
    requires uid < |After(r).db.users| && !After(r).db.users[uid].deleted && After(r).db.users[uid].suspended
    ensures var w, v := After(r), Step(After(r), now, c);
            var k := PhoneOf(w.db.users[uid]);
            && (k in v.cache.otp ==> k in w.cache.otp && v.cache.otp[k] == w.cache.otp[k])
            && (forall i | |w.db.otps| <= i < |v.db.otps| :: v.db.otps[i].uid != uid)
            && (c.SendOtp? && Phone.RequireValidPhone(c.phone) == Some(k.phone) && c.role == k.role ==>
                  Decide(w, now, c).reply == Refused(AccountSuspended) && v == w)
  {
    AccountsStayUnique(r);
    SuspendedAt(After(r), now, c, uid);
  }

  lemma SuspendedAt(w: World, now: int, c: Call, uid: nat)
    requires OnePerPhone(w.db.users)
    requires uid < |w.db.users| && !w.db.users[uid].deleted && w.db.users[uid].suspended
    ensures var v, k := Step(w, now, c), PhoneOf(w.db.users[uid]);
            && (k in v.cache.otp ==> k in w.cache.otp && v.cache.otp[k] == w.cache.otp[k])
            && (forall i | |w.db.otps| <= i < |v.db.otps| :: v.db.otps[i].uid != uid)
            && (c.SendOtp? && Phone.RequireValidPhone(c.phone) == Some(k.phone) && c.role == k.role ==>
                  Decide(w, now, c).reply == Refused(AccountSuspended) && v == w)
  {
    var d := Decide(w, now, c);
    if d.effect.Some? { NoIssueNoCode(w, now, d.effect.value, uid); }
    var k := PhoneOf(w.db.users[uid]);
    if c.SendOtp? && Phone.RequireValidPhone(c.phone) == Some(k.phone) && c.role == k.role {
      assert forall i | 0 <= i < |w.db.users| :: Is(w.db.users[i], k.phone, k.role) <==> i == uid;
      SendOtpOutcome(w, now, c, uid, LatestActive(w.db.otps, uid, now));
    }
  }

  lemma SignInWasPresented(w: World, now: int, c: Call) returns (uid: nat, row: nat)
    requires c.VerifyOtp? && OnePerPhone(w.db.users)
    ensures Decide(w, now, c).reply.SignedIn? ==> Presents(w, c, uid, row)
  {
    uid, row := 0, 0;
    var phone := Phone.RequireValidPhone(c.phone);
    assert ValidateOtp(c.otp) == SixDigits(c.otp);
    if phone.Some? && TrimSpace(c.device) != "" && SixDigits(c.otp) {
      var account := AccountOf(w.db.users, phone.value, c.role);
      if account.Some? {
        var found := LatestUnverified(w.db.otps, account.value, c.device);
        if found.Some? {
          uid, row := account.value, found.value;
        } else {
          assert NewestUnverified(w.db.otps, account.value, c.device, None);
          VerifyOtpWithoutRow(w, now, c);
        }
      } else {
        VerifyOtpWithoutRow(w, now, c);
      }
    } else {
      VerifyOtpWithoutRow(w, now, c);
    }
  }

  lemma SignInAt(w: World, now: int, c: Call)
    requires c.VerifyOtp? && OnePerPhone(w.db.users)
    ensures var reply, v := Decide(w, now, c).reply, Step(w, now, c);
            && (reply.SignedIn? <==> exists uid, row :: Presents(w, c, uid, row) && Opens(w, now, c, row))
            && (reply.SignedIn? ==>
                  && FreshSession(w, v, c, reply)
                  && forall later | now <= later < now + 86_400_000 ::
                       DecideUse(v, later, reply.session).reply == Authenticated)
  {
    var uid, row := SignInWasPresented(w, now, c);
    if Decide(w, now, c).reply.SignedIn? {
      SignInOutcome(w, now, c, uid, row);
      assert Presents(w, c, uid, row) && Opens(w, now, c, row);
      forall later | now <= later < now + 86_400_000
        ensures DecideUse(Step(w, now, c), later, Decide(w, now, c).reply.session).reply == Authenticated
      {
        SignedInSession(w, now, c, uid, row, later);
      }
      SignedInSession(w, now, c, uid, row, now);
    }
    if i, o :| Presents(w, c, i, o) && Opens(w, now, c, o) { SignInOutcome(w, now, c, i, o); }
  }

  /** In every reachable state VerifyOTP signs in exactly when the newest unverified
      row of the one live account of that phone and role, on that device, is open
      and its code right and in time, the device id fitting a session. The session
      answered is new, active, of that account, role and device, recorded as this
      login, and lets requests through for its lifetime. */
  lemma SignedInIff(r: Run, now: int, c: Call)
    requires c.VerifyOtp?
    ensures var w, reply, v := After(r), Decide(After(r), now, c).reply, Step(After(r), now, c);
            && (reply.SignedIn? <==> exists uid, row :: Presents(w, c, uid, row) && Opens(w, now, c, row))
            && (reply.SignedIn? ==>
                  && FreshSession(w, v, c, reply)
                  && forall later | now <= later < now + 86_400_000 ::
                       DecideUse(v, later, reply.session).reply == Authenticated)
  {
    AccountsStayUnique(r);
    SignInAt(After(r), now, c);
  }
}
