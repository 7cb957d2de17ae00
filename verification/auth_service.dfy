/** The stores and the service as the source writes them: objects updated step
    by step, each call realising its decision. */
module AuthService {
  import opened Common
  import opened Text
  import opened RedisTtl
  import opened Transactions
  import opened Accounts
  import opened AuthProtocol

  // internal/services/users/repository/redis/auth.go
  class RedisStore {
    var otp: Keys<PhoneKey, string>
    var otpRate: Keys<PhoneKey, int>
    var mailHash: Keys<MailKey, string>
    var mailAttempts: Keys<MailKey, int>
    var mailRate: Keys<MailKey, int>
    var proven: Keys<MailKey, bool>
    var sessions: Keys<nat, CachedSession>

    constructor ()
      ensures View() == EMPTY.cache
    {
      otp, otpRate, mailHash, mailAttempts, mailRate, proven, sessions :=
        map[], map[], map[], map[], map[], map[], map[];
    }

    function View(): Cache
      reads this
    {
      Cache(otp, otpRate, mailHash, mailAttempts, mailRate, proven, sessions)
    }

    method SetOTPHashAndRate(k: PhoneKey, hash: string, now: int)
      modifies this
      ensures View() == SetOtpHashAndRate(old(View()), k, hash, now)
    {
      otp := SetKey(otp, k, hash, now, OTP_TTL);
      otpRate := Incr(otpRate, k, now);
      if otpRate[k].value == 1 {
        otpRate := Expire(otpRate, k, now, RATE_WINDOW);
      }
    }

    method DeleteOTP(k: PhoneKey)
      modifies this
      ensures View() == old(View()).(otp := Del(old(otp), k))
    {
      otp := Del(otp, k);
    }

    method SetEmailOTPHashAndRate(k: MailKey, hash: string, now: int)
      modifies this
      ensures View() == SetMailHashAndRate(old(View()), k, hash, now)
    {
      mailHash := SetKey(mailHash, k, hash, now, OTP_TTL);
      mailAttempts := Del(mailAttempts, k);
      mailRate := Incr(mailRate, k, now);
      if mailRate[k].value == 1 {
        mailRate := Expire(mailRate, k, now, RATE_WINDOW);
      }
    }

    method IncrementEmailOTPAttempts(k: MailKey, now: int) returns (cnt: int)
      modifies this
      ensures View() == old(View()).(mailAttempts := Bump(old(mailAttempts), k, now, OTP_TTL))
      ensures cnt == CountOr0(old(mailAttempts), k, now) + 1
    {
      mailAttempts := Incr(mailAttempts, k, now);
      cnt := mailAttempts[k].value;
      if cnt == 1 {
        mailAttempts := Expire(mailAttempts, k, now, OTP_TTL);
      }
    }

    method DeleteEmailOTP(k: MailKey)
      modifies this
      ensures View() == DeleteMailOtp(old(View()), k)
    {
      mailHash := Del(mailHash, k);
      mailAttempts := Del(mailAttempts, k);
    }

    method SetEmailVerified(k: MailKey, now: int)
      modifies this
      ensures View() == old(View()).(proven := SetKey(old(proven), k, true, now, PROVEN_TTL))
    {
      proven := SetKey(proven, k, true, now, PROVEN_TTL);
    }

    method DeleteEmailVerified(k: MailKey)
      modifies this
      ensures View() == old(View()).(proven := Del(old(proven), k))
    {
      proven := Del(proven, k);
    }

    // HSET, which keeps a live key's deadline, then EXPIRE.
    method SetSession(s: nat, data: CachedSession, now: int)
      modifies this
      ensures View() == old(View()).(sessions := SetKey(old(sessions), s, data, now, SESSION_TTL))
    {
      sessions := sessions[s := Cell(data, if Live(sessions, s, now) then sessions[s].deadline else None)];
      sessions := Expire(sessions, s, now, SESSION_TTL);
    }

    // HGETALL and EXPIRE of JWTAuthMiddleware.
    method RenewSession(s: nat, now: int)
      modifies this
      ensures View() == old(View()).(sessions := Expire(old(sessions), s, now, SESSION_TTL))
    {
      sessions := Expire(sessions, s, now, SESSION_TTL);
    }

    method DeleteSession(s: nat)
      modifies this
      ensures View() == old(View()).(sessions := Del(old(sessions), s))
    {
      sessions := Del(sessions, s);
    }
  }

  /* ---------- statements that a constraint may refuse ---------- */

  // internal/services/users/repository/postgres/auth.go and profile.go
  method InsertUser(repo: Database<Tables>, u: User) returns (r: Result<nat, DbError>)
    modifies repo
    ensures repo.tx.Some? == old(repo.tx.Some?) && (repo.tx.Some? ==> repo.db == old(repo.db))
    ensures match Accounts.CreateUser(old(repo.Rows()), u)
            case Ok(t) => repo.Rows() == t && r == Ok(|old(repo.Rows()).users|)
            case Err(e) => repo.Rows() == old(repo.Rows()) && r == Err(e)
  {
    var inserted := Accounts.CreateUser(repo.Rows(), u);
    if inserted.Err? { return Err(inserted.error); }
    r := Ok(|repo.Rows().users|);
    repo.Exec(inserted.value);
  }

  method InsertOtp(repo: Database<Tables>, uid: nat, device: string, hash: string, expiresAt: int) returns (ok: bool)
    modifies repo
    ensures repo.tx.Some? == old(repo.tx.Some?) && (repo.tx.Some? ==> repo.db == old(repo.db))
    ensures match CreateOtp(old(repo.Rows()), uid, device, hash, expiresAt)
            case Ok(t) => repo.Rows() == t && ok
            case Err(_) => repo.Rows() == old(repo.Rows()) && !ok
  {
    var inserted := CreateOtp(repo.Rows(), uid, device, hash, expiresAt);
    ok := inserted.Ok?;
    if ok { repo.Exec(inserted.value); }
  }

  method InsertSession(repo: Database<Tables>, uid: nat, role: Role, phone: string, device: string) returns (ok: bool)
    modifies repo
    ensures repo.tx.Some? == old(repo.tx.Some?) && (repo.tx.Some? ==> repo.db == old(repo.db))
    ensures match CreateSession(old(repo.Rows()), uid, role, phone, device)
            case Ok(t) => repo.Rows() == t && ok
            case Err(_) => repo.Rows() == old(repo.Rows()) && !ok
  {
    var inserted := CreateSession(repo.Rows(), uid, role, phone, device);
    ok := inserted.Ok?;
    if ok { repo.Exec(inserted.value); }
  }

  method SetUserEmail(repo: Database<Tables>, uid: nat, email: string) returns (r: Option<DbError>)
    modifies repo
    ensures repo.tx.Some? == old(repo.tx.Some?) && (repo.tx.Some? ==> repo.db == old(repo.db))
    ensures match Accounts.UpdateUserEmail(old(repo.Rows()), uid, email)
            case Ok(t) => repo.Rows() == t && r == None
            case Err(e) => repo.Rows() == old(repo.Rows()) && r == Some(e)
  {
    var updated := Accounts.UpdateUserEmail(repo.Rows(), uid, email);
    if updated.Err? { return Some(updated.error); }
    repo.Exec(updated.value);
    r := None;
  }

  // A CHECK may refuse the increments; then nothing is written.
  method IncrementOTPAttempts(repo: Database<Tables>, row: nat) returns (ok: bool)
    modifies repo
    ensures repo.tx.Some? == old(repo.tx.Some?) && (repo.tx.Some? ==> repo.db == old(repo.db))
    ensures match IncrementAttempts(old(repo.Rows()), row)
            case Ok(t) => repo.Rows() == t && ok
            case Err(_) => repo.Rows() == old(repo.Rows()) && !ok
  {
    var updated := IncrementAttempts(repo.Rows(), row);
    ok := updated.Ok?;
    if ok { repo.Exec(updated.value); }
  }

  method IncrementOTPResendCount(repo: Database<Tables>, row: nat) returns (ok: bool)
    modifies repo
    ensures repo.tx.Some? == old(repo.tx.Some?) && (repo.tx.Some? ==> repo.db == old(repo.db))
    ensures match IncrementResends(old(repo.Rows()), row)
            case Ok(t) => repo.Rows() == t && ok
            case Err(_) => repo.Rows() == old(repo.Rows()) && !ok
  {
    var updated := IncrementResends(repo.Rows(), row);
    ok := updated.Ok?;
    if ok { repo.Exec(updated.value); }
  }

  method MarkOTPVerified(repo: Database<Tables>, row: nat) returns (ok: bool)
    modifies repo
    ensures repo.tx.Some? == old(repo.tx.Some?) && (repo.tx.Some? ==> repo.db == old(repo.db))
    ensures match MarkOtpVerified(old(repo.Rows()), row)
            case Ok(t) => repo.Rows() == t && ok
            case Err(_) => repo.Rows() == old(repo.Rows()) && !ok
  {
    var updated := MarkOtpVerified(repo.Rows(), row);
    ok := updated.Ok?;
    if ok { repo.Exec(updated.value); }
  }

  // Why a sign-up's transaction fails, if it does.
  function SignUpError(t: Tables, u: User, device: string): Option<DbError> {
    if !FitsUser(u) then Some(TooLong)
    else if PhoneTaken(t.users, u.phone, u.role) || EmailTaken(t.users, u.email, u.role) then Some(Conflict)
    else if |device| > OTP_DEVICE_WIDTH then Some(TooLong)
    else None
  }

  // The state after d's effect, answered as d says.
  ghost predicate Realises(w: World, now: int, d: Decision, v: World, reply: Reply) {
    && reply == d.reply
    && match d.effect
       case None => v == w
       case Some(e) => Applies(w, e) && v == Perform(w, now, e)
  }

  // internal/services/users/business/auth.go and profile.go
  class Service {
    const repo: Database<Tables>
    const redis: RedisStore
    ghost var log: Trace

    constructor ()
      ensures fresh(repo) && fresh(redis) && repo.tx.None?
      ensures World(repo.db, redis.View(), log) == EMPTY
    {
      repo := new Database(EMPTY.db);
      redis := new RedisStore();
      log := Start;
    }

    ghost predicate Idle()
      reads repo
    {
      repo.tx.None?
    }

    ghost function Current(): World
      reads this, repo, redis
    {
      World(repo.db, redis.View(), log)
    }

    method Register(now: int, role: Role, rawPhone: string, rawName: string, email: Option<string>,
                    referralCode: string, guestSessionID: string, device: string, otpCode: string)
      returns (reply: Reply)
      requires Idle()
      modifies this, repo, redis
      ensures Idle()
      ensures Realises(old(Current()), now,
                       DecideRegister(old(Current()), now,
                                      Call.Register(role, rawPhone, rawName, email, referralCode, guestSessionID,
                                                    device, otpCode)),
                       Current(), reply)
    {
      if role == RestaurantManager { return Refused(RoleNotSelfRegisterable); }
      var phone := Phone.RequireValidPhone(rawPhone);
      if phone.None? { return Refused(InvalidPhone); }
      var name := TrimSpace(rawName);
      if name == "" || ByteLen(name) > 100 { return Refused(Validation); }
      if email.None? { return Refused(InvalidEmail); }
      var sid := TrimSpace(guestSessionID);
      if sid == "" { return Refused(GuestTokenInvalid); }
      var marker := MailKey(GuestScope(sid), email.value);
      if Get(redis.proven, marker, now) != Some(true) { return Refused(EmailNotVerified); }
      var to := PhoneKey(phone.value, role);
      if CountOr0(redis.otpRate, to, now) >= MAX_OTP_RATE { return Refused(RateLimited); }
      if PhoneTaken(repo.db.users, phone.value, role) { return Refused(PhoneAlreadyRegistered); }
      if EmailTaken(repo.db.users, email.value, role) { return Refused(EmailAlreadyRegistered); }

      reply := OpenProven(now, sid, NewUser(phone.value, role, name, email.value, TrimSpace(referralCode)),
                          device, otpCode);
    }

    // Register from its transaction on: one proof, one account.
    method OpenProven(now: int, sid: string, u: User, device: string, otpCode: string) returns (reply: Reply)
      requires Idle() && Applies(Current(), OpenAccount(sid, u, device, otpCode))
      modifies this, repo, redis
      ensures Idle()
      ensures match SignUpError(old(repo.db), u, device)
              case None =>
                reply == CodeSent(now + OTP_TTL) &&
                Current() == Perform(old(Current()), now, OpenAccount(sid, u, device, otpCode))
              case Some(e) =>
                reply == Refused(if e == Conflict then PhoneAlreadyRegistered else Internal) &&
                Current() == old(Current())
    {
      var failed := InsertAccount(now, u, device, otpCode);
      if failed.Some? { return Refused(if failed.value == Conflict then PhoneAlreadyRegistered else Internal); }
      redis.DeleteEmailVerified(MailKey(GuestScope(sid), u.email));
      log := Then(Then(log, Opened(sid, u.email, |repo.db.users| - 1)), PhoneIssued(PhoneOf(u), now));
      return CodeSent(now + OTP_TTL);
    }

    /** Register's transaction, whatever the pre-checks saw: a conflict or a value
        too long for its column, also in the last insert, leaves the tables and
        Redis untouched; otherwise user, audit row, OTP row and phone code all land. */
    method InsertAccount(now: int, u: User, device: string, otpCode: string) returns (failed: Option<DbError>)
      requires Idle()
      modifies repo, redis
      ensures Idle()
      ensures failed == SignUpError(old(repo.db), u, device)
      ensures failed.Some? ==> repo.db == old(repo.db) && redis.View() == old(redis.View())
      ensures failed.None? ==>
                var t, uid := old(repo.db), |old(repo.db.users)|;
                && repo.db == Tables(t.users + [u], t.otps + [NewOtp(uid, device, otpCode, now + OTP_TTL)],
                                     t.sessions, t.audit + [AuditRow(uid, Create, uid)])
                && redis.View() == SetOtpHashAndRate(old(redis.View()), PhoneOf(u), otpCode, now)
    {
      repo.BeginTx();
      var created := InsertUser(repo, u);
      if created.Err? {
        repo.Rollback();
        return Some(created.error);
      }
      var uid := created.value;
      repo.Exec(Audit(repo.Rows(), uid, Create, uid));
      var ok := InsertOtp(repo, uid, device, otpCode, now + OTP_TTL);
      if !ok {
        repo.Rollback();
        return Some(TooLong);
      }
      redis.SetOTPHashAndRate(PhoneOf(u), otpCode, now);
      repo.Commit();
      return None;
    }

    method SendOTP(now: int, role: Role, rawPhone: string, device: string, otpCode: string)
      returns (reply: Reply)
      requires Idle()
      modifies this, repo, redis
      ensures Idle()
      ensures Realises(old(Current()), now,
                       DecideSendOtp(old(Current()), now, SendOtp(role, rawPhone, device, otpCode)), Current(), reply)
    {
      var phone := Phone.RequireValidPhone(rawPhone);
      if phone.None? { return Refused(InvalidPhone); }
      var user := FindUser(repo.db.users, phone.value, role);
      if user.None? { return Refused(UserNotFound); }
      if repo.db.users[user.value].suspended { return Refused(AccountSuspended); }
      var to := PhoneKey(phone.value, role);
      if CountOr0(redis.otpRate, to, now) >= MAX_OTP_RATE { return Refused(RateLimited); }
      var rec := LatestActive(repo.db.otps, user.value, now);
      if rec.Some? {
        if repo.db.otps[rec.value].resends >= MAX_OTP_RATE { return Refused(RateLimited); }
      }
      var ok := IssueRow(now, user.value, device, otpCode);
      if !ok { return Refused(Internal); }
      return CodeSent(now + OTP_TTL);
    }

    // SendOTP from the resend count on: outside a transaction, so the count stays
    // even if the new row is refused.
    method IssueRow(now: int, uid: nat, device: string, otpCode: string) returns (ok: bool)
      requires Idle()
      requires Applies(Current(), IssuePhone(uid, device, otpCode)) && ResendsLeft(Current(), now, uid)
      modifies this, repo, redis
      ensures Idle()
      ensures ok <==> |device| <= OTP_DEVICE_WIDTH
      ensures Current() == Perform(old(Current()), now, if ok then IssuePhone(uid, device, otpCode) else Resend(uid))
    {
      var rec := LatestActive(repo.db.otps, uid, now);
      if rec.Some? {
        var counted := IncrementOTPResendCount(repo, rec.value);
      }
      assert repo.db == CountResend(old(repo.db), uid, now);
      ok := InsertOtp(repo, uid, device, otpCode, now + OTP_TTL);
      if !ok { return; }
      var to := PhoneOf(repo.db.users[uid]);
      redis.SetOTPHashAndRate(to, otpCode, now);
      log := Then(log, PhoneIssued(to, now));
    }

    // The wrong or late code: count the try, and block the row at the fifth.
    method CountTry(now: int, row: nat, compared: bool) returns (last: bool)
      requires Idle() && Applies(Current(), Try(row, compared)) && RowGuard(Current(), now, Try(row, compared))
      modifies this, repo
      ensures Idle()
      ensures Current() == Perform(old(Current()), now, Try(row, compared))
      ensures last == (old(repo.db.otps[row].attempts) + 1 >= MAX_ATTEMPTS)
    {
      var before := repo.db.otps[row].attempts;
      var counted := IncrementOTPAttempts(repo, row);
      last := before + 1 >= MAX_ATTEMPTS;
      if last {
        repo.Exec(SetBlocked(repo.Rows(), row, now + BLOCKED_WINDOW));
      }
      log := Then(log, Tried(row, compared));
    }

    method VerifyOTP(now: int, role: Role, rawPhone: string, device: string, otp: string)
      returns (reply: Reply)
      requires Idle()
      modifies this, repo, redis
      ensures Idle()
      ensures Realises(old(Current()), now,
                       DecideVerifyOtp(old(Current()), now, VerifyOtp(role, rawPhone, device, otp)), Current(), reply)
    {
      var phone := Phone.RequireValidPhone(rawPhone);
      if phone.None? { return Refused(InvalidPhone); }
      if TrimSpace(device) == "" { return Refused(Validation); }
      if !ValidateOtp(otp) { return Refused(Validation); }
      var account := FindUser(repo.db.users, phone.value, role);
      if account.None? { return Refused(OtpInvalid); }
      var rec := LatestUnverified(repo.db.otps, account.value, device);
      if rec.None? { return Refused(OtpInvalid); }
      reply := RedeemRow(now, rec.value, device, otp);
    }

    // VerifyOTP from the row it found on.
    method RedeemRow(now: int, row: nat, device: string, otp: string) returns (reply: Reply)
      requires Idle()
      requires row < |repo.db.otps| && !repo.db.otps[row].verified
      requires LiveUser(repo.db.users, repo.db.otps[row].uid)
      requires repo.db.otps[row].device == device && TrimSpace(device) != ""
      modifies this, repo, redis
      ensures Idle()
      ensures Realises(old(Current()), now, DecideRow(old(Current()), now, row, device, otp), Current(), reply)
    {
      var rec := repo.db.otps[row];
      if rec.blockedUntil.Some? && rec.blockedUntil.value > now { return Refused(OtpMaxAttempts); }
      if rec.attempts >= MAX_ATTEMPTS {
        repo.Exec(SetBlocked(repo.Rows(), row, now + BLOCKED_WINDOW));
        return Refused(OtpMaxAttempts);
      }
      if rec.expiresAt < now {
        var last := CountTry(now, row, false);
        return Refused(if last then OtpMaxAttempts else OtpExpired);
      }
      if rec.hash != otp {
        var last := CountTry(now, row, true);
        return Refused(if last then OtpMaxAttempts else OtpInvalid);
      }
      var session := OpenSession(now, row, device);
      if session.None? { return Refused(Internal); }
      var verifiedCount := CountVerified(repo.db.otps, rec.uid);
      VerifiedFlagsDecideCount(old(repo.db.otps), row, rec.uid);
      return SignedIn(rec.uid, repo.db.users[rec.uid].role, session.value, verifiedCount == 1);
    }

    /** The transaction of a successful comparison: the sessions table may refuse
        the device id, and then the tables, the count of this try included, and
        Redis are as before. */
    method OpenSession(now: int, row: nat, device: string) returns (session: Option<nat>)
      requires Idle()
      requires Applies(Current(), SignIn(row, device)) && RowGuard(Current(), now, SignIn(row, device))
      modifies this, repo, redis
      ensures Idle()
      ensures session.Some? <==> |device| <= SESSION_DEVICE_WIDTH
      ensures session.Some? ==> session.value == |old(repo.db.sessions)|
      ensures Current() == Perform(old(Current()), now, if session.Some? then SignIn(row, device) else Rebuff(row))
    {
      var uid, s := repo.db.otps[row].uid, |repo.db.sessions|;
      repo.BeginTx();
      var ok := MarkOTPVerified(repo, row);
      repo.Exec(MarkUserPhoneVerified(repo.Rows(), uid));
      var user := repo.Rows().users[uid];
      ok := InsertSession(repo, uid, user.role, user.phone, device);
      if !ok {
        repo.Rollback();
        log := Then(log, Rebuffed(row));
        return None;
      }
      repo.Exec(Audit(repo.Rows(), uid, Login, s));
      redis.DeleteOTP(PhoneOf(user));
      redis.SetSession(s, CachedSession(uid, user.role, true), now);
      repo.Commit();
      log := Then(Then(log, Tried(row, true)), LoggedIn(uid, row, s));
      return Some(s);
    }

    // internal/middleware/auth.go, from the session lookup on.
    method UseSession(now: int, session: nat) returns (reply: Reply)
      requires Idle()
      modifies redis
      ensures Idle()
      ensures Realises(old(Current()), now, DecideUse(old(Current()), now, session), Current(), reply)
    {
      var data := Get(redis.sessions, session, now);
      if data.None? { return Refused(SessionNotFound); }
      if !data.value.active { return Refused(SessionRevoked); }
      redis.RenewSession(session, now);
      return Authenticated;
    }

    method SendMailCode(now: int, k: MailKey, otpCode: string) returns (reply: Reply)
      requires Idle()
      modifies this, redis
      ensures Idle()
      ensures Realises(old(Current()), now, DecideMailIssue(old(Current()), now, k, otpCode), Current(), reply)
    {
      if CountOr0(redis.mailRate, k, now) >= MAX_OTP_RATE { return Refused(RateLimited); }
      redis.SetEmailOTPHashAndRate(k, otpCode, now);
      log := Then(log, MailIssued(k, otpCode, now));
      return MailSent(now + OTP_TTL);
    }

    method SendEmailOTP(now: int, guestSessionID: string, email: Option<string>, otpCode: string)
      returns (reply: Reply)
      requires Idle()
      modifies this, redis
      ensures Idle()
      ensures Realises(old(Current()), now,
                       DecideSendEmailOtp(old(Current()), now, SendEmailOtp(guestSessionID, email, otpCode)),
                       Current(), reply)
    {
      var sid := TrimSpace(guestSessionID);
      if sid == "" { return Refused(GuestTokenInvalid); }
      if email.None? { return Refused(InvalidEmail); }
      reply := SendMailCode(now, MailKey(GuestScope(sid), email.value), otpCode);
    }

    // GetEmailOTPHash and verifyEmailOTPHash: None when the guess is right.
    method CheckMailCode(now: int, k: MailKey, otp: string) returns (wrong: Option<Reply>)
      requires Idle()
      modifies this, redis
      ensures Idle()
      ensures var g := DecideGuess(old(Current()), now, k, otp);
              && wrong.Some? == g.Some?
              && (g.None? ==> Current() == old(Current()))
              && (g.Some? ==> Realises(old(Current()), now, g.value, Current(), wrong.value))
    {
      var hash := Get(redis.mailHash, k, now);
      if hash.None? { return Some(Refused(OtpExpired)); }
      if hash.value == otp { return None; }
      var attempts := redis.IncrementEmailOTPAttempts(k, now);
      log := Then(log, MailMissed(k));
      if attempts >= MAX_ATTEMPTS {
        redis.DeleteEmailOTP(k);
        return Some(Refused(OtpMaxAttempts));
      }
      return Some(Refused(OtpInvalid));
    }

    method VerifyEmail(now: int, guestSessionID: string, email: Option<string>, otp: string)
      returns (reply: Reply)
      requires Idle()
      modifies this, redis
      ensures Idle()
      ensures Realises(old(Current()), now,
                       DecideVerifyEmail(old(Current()), now, Call.VerifyEmail(guestSessionID, email, otp)),
                       Current(), reply)
    {
      var sid := TrimSpace(guestSessionID);
      if sid == "" { return Refused(GuestTokenInvalid); }
      if email.None? { return Refused(InvalidEmail); }
      if !ValidateOtp(otp) { return Refused(Validation); }
      var k := MailKey(GuestScope(sid), email.value);
      var wrong := CheckMailCode(now, k, otp);
      if wrong.Some? { return wrong.value; }
      redis.SetEmailVerified(k, now);
      redis.DeleteEmailOTP(k);
      log := Then(log, MailProven(sid, email.value, now));
      return MailVerified;
    }

    method SendEmailUpdateOTP(now: int, uid: nat, email: Option<string>, otpCode: string)
      returns (reply: Reply)
      requires Idle()
      modifies this, redis
      ensures Idle()
      ensures Realises(old(Current()), now,
                       DecideSendEmailUpdateOtp(old(Current()), now, SendEmailUpdateOtp(uid, email, otpCode)),
                       Current(), reply)
    {
      if email.None? { return Refused(InvalidEmail); }
      if !LiveUser(repo.db.users, uid) { return Refused(ProfileNotFound); }
      var user := repo.db.users[uid];
      if Lower(email.value) == Lower(user.email) { return Refused(EmailUnchanged); }
      if EmailTaken(repo.db.users, email.value, user.role) { return Refused(EmailConflict); }
      reply := SendMailCode(now, MailKey(UserScope(uid), email.value), otpCode);
    }

    method VerifyEmailUpdate(now: int, uid: nat, email: Option<string>, otp: string)
      returns (reply: Reply)
      requires Idle()
      modifies this, repo, redis
      ensures Idle()
      ensures Realises(old(Current()), now,
                       DecideVerifyEmailUpdate(old(Current()), now, Call.VerifyEmailUpdate(uid, email, otp)),
                       Current(), reply)
    {
      if email.None? { return Refused(InvalidEmail); }
      if !ValidateOtp(otp) { return Refused(Validation); }
      if !LiveUser(repo.db.users, uid) { return Refused(ProfileNotFound); }
      var role := repo.db.users[uid].role;
      var k := MailKey(UserScope(uid), email.value);
      var wrong := CheckMailCode(now, k, otp);
      if wrong.Some? { return wrong.value; }
      if EmailTaken(repo.db.users, email.value, role) { return Refused(EmailConflict); }

      var failed := StoreEmail(uid, email.value);
      if failed.Some? {
        return Refused(if failed == Some(Conflict) then EmailConflict
                       else if failed == Some(NotFound) then ProfileNotFound else Internal);
      }
      redis.DeleteEmailOTP(k);
      log := Then(log, Moved(uid, email.value));
      return MailMoved;
    }

    /** VerifyEmailUpdate's transaction: a conflict, a missing user or an address
        too long for its column leaves the tables untouched; otherwise the address and its audit row land. */
    method StoreEmail(uid: nat, email: string) returns (failed: Option<DbError>)
      requires Idle()
      modifies repo
      ensures Idle()
      ensures failed == (if !LiveUser(old(repo.db.users), uid) then Some(NotFound)
                         else if |email| > EMAIL_WIDTH then Some(TooLong)
                         else if KeyHeldByOther(old(repo.db.users), uid, email) then Some(Conflict)
                         else None)
      ensures failed.Some? ==> repo.db == old(repo.db)
      ensures failed.None? ==>
                var t := old(repo.db);
                uid < |t.users| &&
                var u := t.users[uid].(email := email, emailVerified := true);
                repo.db == Tables(t.users[uid := u], t.otps, t.sessions, t.audit + [AuditRow(uid, EmailUpdate, uid)])
    {
      repo.BeginTx();
      failed := SetUserEmail(repo, uid, email);
      if failed.Some? {
        repo.Rollback();
        return;
      }
      repo.Exec(Audit(repo.Rows(), uid, EmailUpdate, uid));
      repo.Commit();
    }

    method Logout(session: nat, uid: nat)
      requires Idle()
      modifies this, repo, redis
      ensures Idle()
      ensures Current() == Perform(old(Current()), 0, SignOut(session, uid))
    {
      repo.BeginTx();
      repo.Exec(Deactivate(repo.Rows(), session));
      repo.Exec(Audit(repo.Rows(), uid, Action.Logout, session));
      repo.Commit();
      redis.DeleteSession(session);
    }
  }

  // The count after the sign-in only depends on which rows are verified.
  lemma VerifiedFlagsDecideCount(os: seq<OtpRow>, row: nat, uid: nat)
    requires row < |os| && !os[row].verified
    ensures CountVerified(os[row := os[row].(verified := true, attempts := os[row].attempts + 1)], uid) ==
            CountVerified(os[row := os[row].(verified := true)], uid)
  {
    VerifyingCounts(os, row, os[row].(verified := true, attempts := os[row].attempts + 1), uid);
    VerifyingCounts(os, row, os[row].(verified := true), uid);
  }
}
