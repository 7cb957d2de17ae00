/** What each authentication call of internal/services/users/business decides
    and changes, over the tables and the Redis keys. */
module AuthProtocol {
  import opened Common
  import opened Text
  import opened RedisTtl
  import opened Accounts
  import Phone

  // Milliseconds.
  const OTP_TTL := 600_000
  const RATE_WINDOW := 3_600_000
  const BLOCKED_WINDOW := 1_800_000
  const PROVEN_TTL := 1_800_000
  const SESSION_TTL := 86_400_000

  const MAX_OTP_RATE := 5

  datatype Scope = GuestScope(sid: string) | UserScope(uid: nat)

  datatype MailKey = MailKey(scope: Scope, email: string)

  datatype PhoneKey = PhoneKey(phone: string, role: Role)

  datatype CachedSession = CachedSession(uid: nat, role: Role, active: bool)

  // One map per kind of Redis key.
  datatype Cache = Cache(otp: Keys<PhoneKey, string>, otpRate: Keys<PhoneKey, int>,
                         mailHash: Keys<MailKey, string>, mailAttempts: Keys<MailKey, int>,
                         mailRate: Keys<MailKey, int>, proven: Keys<MailKey, bool>,
                         sessions: Keys<nat, CachedSession>)

  datatype Event =
    | MailIssued(key: MailKey, code: string, at: int)
    | MailMissed(key: MailKey)
    | MailProven(sid: string, email: string, at: int)
    | Opened(sid: string, email: string, uid: nat)
    | Moved(uid: nat, email: string)
    | PhoneIssued(to: PhoneKey, at: int)
    | Tried(row: nat, compared: bool)
    | Rebuffed(row: nat)
    | LoggedIn(uid: nat, row: nat, session: nat)

  // History, newest event outermost.
  datatype Trace = Start | Then(prior: Trace, event: Event)

  datatype World = World(db: Tables, cache: Cache, log: Trace)

  /* ---------- Redis operations of the users store ---------- */

  function SetOtpHashAndRate(c: Cache, k: PhoneKey, hash: string, now: int): Cache {
    c.(otp := SetKey(c.otp, k, hash, now, OTP_TTL), otpRate := Bump(c.otpRate, k, now, RATE_WINDOW))
  }

  function SetMailHashAndRate(c: Cache, k: MailKey, hash: string, now: int): Cache {
    c.(mailHash := SetKey(c.mailHash, k, hash, now, OTP_TTL),
       mailAttempts := Del(c.mailAttempts, k),
       mailRate := Bump(c.mailRate, k, now, RATE_WINDOW))
  }

  function DeleteMailOtp(c: Cache, k: MailKey): Cache {
    c.(mailHash := Del(c.mailHash, k), mailAttempts := Del(c.mailAttempts, k))
  }

  // The wrong-code path: count it, and burn the code at the fifth.
  function MissMail(c: Cache, k: MailKey, now: int): Cache {
    var counted := c.(mailAttempts := Bump(c.mailAttempts, k, now, OTP_TTL));
    if CountOr0(c.mailAttempts, k, now) + 1 >= MAX_ATTEMPTS then DeleteMailOtp(counted, k) else counted
  }

  /* ---------- effects ---------- */

  datatype Effect =
    | IssueMail(key: MailKey, code: string)
    | Miss(key: MailKey)
    | Prove(sid: string, email: string)
    | OpenAccount(sid: string, user: User, device: string, code: string)
    | MoveEmail(uid: nat, email: string)
    | IssuePhone(uid: nat, device: string, code: string)
    | Resend(uid: nat)
    | Try(row: nat, compared: bool)
    | Block(row: nat)
    | SignIn(row: nat, device: string)
    | Rebuff(row: nat)
    | Renew(session: nat)
    | SignOut(session: nat, uid: nat)
    | Suspend(uid: nat, suspended: bool)
    | Remove(uid: nat)

  // The rows an effect names exist, and a row it adds is new.
  predicate Applies(w: World, e: Effect) {
    match e
    case OpenAccount(_, u, _, _) => u == NewUser(u.phone, u.role, u.name, u.email, u.referral)
    case MoveEmail(uid, _) => uid < |w.db.users|
    case IssuePhone(uid, _, _) => uid < |w.db.users|
    case Resend(uid) => uid < |w.db.users|
    case Try(row, _) => row < |w.db.otps|
    case Block(row) => row < |w.db.otps|
    case SignIn(row, _) => row < |w.db.otps| && w.db.otps[row].uid < |w.db.users|
    case Rebuff(row) => row < |w.db.otps|
    case Suspend(uid, _) => uid < |w.db.users|
    case Remove(uid) => uid < |w.db.users|
    case _ => true
  }

  // Email effects happen only under the key that proves them, and within the rate.
  predicate MailGuard(w: World, now: int, e: Effect) {
    match e
    case IssueMail(k, _) => CountOr0(w.cache.mailRate, k, now) < MAX_OTP_RATE
    case Miss(k) => Live(w.cache.mailHash, k, now)
    case Prove(sid, email) => Live(w.cache.mailHash, MailKey(GuestScope(sid), email), now)
    case OpenAccount(sid, u, _, _) => Live(w.cache.proven, MailKey(GuestScope(sid), u.email), now)
    case MoveEmail(uid, email) => Live(w.cache.mailHash, MailKey(UserScope(uid), email), now)
    case _ => true
  }

  predicate PhoneGuard(w: World, now: int, e: Effect)
    requires Applies(w, e)
  {
    match e
    case OpenAccount(_, u, _, _) => CountOr0(w.cache.otpRate, PhoneOf(u), now) < MAX_OTP_RATE
    case IssuePhone(uid, _, _) => CountOr0(w.cache.otpRate, PhoneOf(w.db.users[uid]), now) < MAX_OTP_RATE
    case _ => true
  }

  predicate ResendsLeft(w: World, now: int, uid: nat) {
    var r := LatestActive(w.db.otps, uid, now);
    r.Some? ==> w.db.otps[r.value].resends < MAX_OTP_RATE
  }

  // An unverified row of a named device with tries left.
  predicate Open(o: OtpRow) { !o.verified && o.attempts < MAX_ATTEMPTS && TrimSpace(o.device) != "" }

  // A row is tried only while it is open.
  predicate RowGuard(w: World, now: int, e: Effect)
    requires Applies(w, e)
  {
    match e
    case IssuePhone(uid, _, _) => ResendsLeft(w, now, uid)
    case Resend(uid) => ResendsLeft(w, now, uid)
    case Try(row, _) => Open(w.db.otps[row])
    case Block(row) => !w.db.otps[row].verified && w.db.otps[row].attempts >= MAX_ATTEMPTS
    case SignIn(row, device) => Open(w.db.otps[row]) && w.db.otps[row].device == device
    case Rebuff(row) => Open(w.db.otps[row]) && |w.db.otps[row].device| > SESSION_DEVICE_WIDTH
    case _ => true
  }

  // What is stored fits its columns.
  predicate FitGuard(e: Effect) {
    match e
    case OpenAccount(_, u, device, _) => FitsUser(u) && |device| <= OTP_DEVICE_WIDTH
    case MoveEmail(_, email) => |email| <= EMAIL_WIDTH
    case IssuePhone(_, device, _) => |device| <= OTP_DEVICE_WIDTH
    case SignIn(_, device) => |device| <= SESSION_DEVICE_WIDTH
    case _ => true
  }

  // New phones and emails are free when they are stored; codes go to live accounts
  // that are not suspended.
  predicate UniqueGuard(w: World, e: Effect)
    requires Applies(w, e)
  {
    match e
    case OpenAccount(_, u, _, _) =>
      !PhoneTaken(w.db.users, u.phone, u.role) && !EmailTaken(w.db.users, u.email, u.role)
    case MoveEmail(uid, email) =>
      LiveUser(w.db.users, uid) && !EmailTaken(w.db.users, email, w.db.users[uid].role)
    case IssuePhone(uid, _, _) => LiveUser(w.db.users, uid) && !w.db.users[uid].suspended
    case Resend(uid) => LiveUser(w.db.users, uid) && !w.db.users[uid].suspended
    case SignIn(row, _) => LiveUser(w.db.users, w.db.otps[row].uid)
    case _ => true
  }

  // What the calls guarantee before they cause an effect.
  predicate Enabled(w: World, now: int, e: Effect) {
    && Applies(w, e)
    && MailGuard(w, now, e) && PhoneGuard(w, now, e) && RowGuard(w, now, e) && UniqueGuard(w, e) && FitGuard(e)
  }

  function PhoneOf(u: User): PhoneKey { PhoneKey(u.phone, u.role) }

  function Log(w: World, e: Event): World { w.(log := Then(w.log, e)) }

  // The latest active row of the user, if any, is resent once more.
  function CountResend(t: Tables, uid: nat, now: int): Tables {
    var r := LatestActive(t.otps, uid, now);
    if r.None? then t
    else t.(otps := t.otps[r.value := t.otps[r.value].(resends := t.otps[r.value].resends + 1)])
  }

  function AppendOtp(t: Tables, uid: nat, device: string, code: string, now: int): Tables {
    t.(otps := t.otps + [NewOtp(uid, device, code, now + OTP_TTL)])
  }

  function Perform(w: World, now: int, e: Effect): World
    requires Applies(w, e)
  {
    match e
    case IssueMail(k, code) =>
      Log(w.(cache := SetMailHashAndRate(w.cache, k, code, now)), MailIssued(k, code, now))
    case Miss(k) =>
      Log(w.(cache := MissMail(w.cache, k, now)), MailMissed(k))
    case Prove(sid, email) =>
      var k := MailKey(GuestScope(sid), email);
      var c := w.cache.(proven := SetKey(w.cache.proven, k, true, now, PROVEN_TTL));
      Log(w.(cache := DeleteMailOtp(c, k)), MailProven(sid, email, now))
    case OpenAccount(sid, u, device, code) =>
      var uid := |w.db.users|;
      var t := Audit(w.db.(users := w.db.users + [u]), uid, Create, uid);
      var c := SetOtpHashAndRate(w.cache, PhoneOf(u), code, now);
      var c := c.(proven := Del(c.proven, MailKey(GuestScope(sid), u.email)));
      Log(Log(World(AppendOtp(t, uid, device, code, now), c, w.log), Opened(sid, u.email, uid)),
          PhoneIssued(PhoneOf(u), now))
    case MoveEmail(uid, email) =>
      var u := w.db.users[uid].(email := email, emailVerified := true);
      var t := Audit(w.db.(users := w.db.users[uid := u]), uid, EmailUpdate, uid);
      var c := DeleteMailOtp(w.cache, MailKey(UserScope(uid), email));
      Log(World(t, c, w.log), Moved(uid, email))
    case IssuePhone(uid, device, code) =>
      var t := AppendOtp(CountResend(w.db, uid, now), uid, device, code, now);
      var to := PhoneOf(w.db.users[uid]);
      Log(World(t, SetOtpHashAndRate(w.cache, to, code, now), w.log), PhoneIssued(to, now))
    case Resend(uid) =>
      w.(db := CountResend(w.db, uid, now))
    case Try(row, compared) =>
      var o := w.db.otps[row];
      var o := o.(attempts := o.attempts + 1);
      var o := if o.attempts >= MAX_ATTEMPTS then o.(blockedUntil := Some(now + BLOCKED_WINDOW)) else o;
      Log(w.(db := w.db.(otps := w.db.otps[row := o])), Tried(row, compared))
    case Block(row) =>
      w.(db := SetBlocked(w.db, row, now + BLOCKED_WINDOW))
    case SignIn(row, device) =>
      var o := w.db.otps[row];
      var u := w.db.users[o.uid];
      var s := |w.db.sessions|;
      var t := w.db.(otps := w.db.otps[row := o.(verified := true, attempts := o.attempts + 1)]);
      var t := MarkUserPhoneVerified(t, o.uid);
      var t := t.(sessions := t.sessions + [SessionRow(o.uid, u.role, u.phone, device, true)]);
      var c := w.cache.(otp := Del(w.cache.otp, PhoneOf(u)),
                        sessions := SetKey(w.cache.sessions, s, CachedSession(o.uid, u.role, true), now, SESSION_TTL));
      Log(Log(World(Audit(t, o.uid, Login, s), c, w.log), Tried(row, true)), LoggedIn(o.uid, row, s))
    case Rebuff(row) =>
      Log(w, Rebuffed(row))
    case Renew(session) =>
      w.(cache := w.cache.(sessions := Expire(w.cache.sessions, session, now, SESSION_TTL)))
    case SignOut(session, uid) =>
      w.(db := Audit(Deactivate(w.db, session), uid, Logout, session),
         cache := w.cache.(sessions := Del(w.cache.sessions, session)))
    case Suspend(uid, suspended) =>
      w.(db := w.db.(users := w.db.users[uid := w.db.users[uid].(suspended := suspended)]))
    case Remove(uid) =>
      w.(db := w.db.(users := w.db.users[uid := w.db.users[uid].(deleted := true)]))
  }

  /* ---------- calls ---------- */

  datatype AuthError =
    | RoleNotSelfRegisterable | InvalidPhone | Validation | InvalidEmail | GuestTokenInvalid
    | EmailNotVerified | RateLimited | PhoneAlreadyRegistered | EmailAlreadyRegistered
    | UserNotFound | AccountSuspended | OtpInvalid | OtpMaxAttempts | OtpExpired
    | ProfileNotFound | EmailUnchanged | EmailConflict | SessionNotFound | SessionRevoked | Internal

  datatype Reply =
    | CodeSent(expiresAt: int)
    | MailSent(expiresAt: int)
    | MailVerified
    | MailMoved
    | SignedIn(uid: nat, role: Role, session: nat, firstTime: bool)
    | Authenticated
    | Done
    | Refused(error: AuthError)

  // An email argument is the result of normalizeEmail: None if it rejects.
  // code is the fresh one-time code the call generates if it issues one.
  datatype Call =
    | Register(role: Role, phone: string, name: string, email: Option<string>, referral: string, sid: string,
               device: string, code: string)
    | SendOtp(role: Role, phone: string, device: string, code: string)
    | VerifyOtp(role: Role, phone: string, device: string, otp: string)
    | SendEmailOtp(sid: string, email: Option<string>, code: string)
    | VerifyEmail(sid: string, email: Option<string>, otp: string)
    | SendEmailUpdateOtp(uid: nat, email: Option<string>, code: string)
    | VerifyEmailUpdate(uid: nat, email: Option<string>, otp: string)
    | UseSession(session: nat)
    | LogoutCall(session: nat, uid: nat)
    | SuspendUser(uid: nat, suspended: bool)
    | DeleteUser(uid: nat)

  datatype Decision = Decision(effect: Option<Effect>, reply: Reply)

  // An effect of the account calls: neither a renewal nor a sign-out.
  predicate OfAccounts(d: Decision) {
    d.effect.Some? ==> !d.effect.value.Renew? && !d.effect.value.SignOut?
  }

  function Refuse(e: AuthError): Decision { Decision(None, Refused(e)) }

  predicate ValidateOtp(otp: string) { |TrimSpace(otp)| == 6 && AllDigits(TrimSpace(otp)) }

  function DecideRegister(w: World, now: int, c: Call): (d: Decision)
    requires c.Register?
    ensures d.effect.Some? ==> Enabled(w, now, d.effect.value)
    ensures OfAccounts(d)
    ensures d.reply.CodeSent? || d.reply.Refused?
  {
    var phone := Phone.RequireValidPhone(c.phone);
    var name := TrimSpace(c.name);
    var sid := TrimSpace(c.sid);
    if c.role == RestaurantManager then Refuse(RoleNotSelfRegisterable)
    else if phone.None? then Refuse(InvalidPhone)
    else if name == "" || ByteLen(name) > 100 then Refuse(Validation)
    else if c.email.None? then Refuse(InvalidEmail)
    else if sid == "" then Refuse(GuestTokenInvalid)
    else if Get(w.cache.proven, MailKey(GuestScope(sid), c.email.value), now) != Some(true) then
      Refuse(EmailNotVerified)
    else if CountOr0(w.cache.otpRate, PhoneKey(phone.value, c.role), now) >= MAX_OTP_RATE then Refuse(RateLimited)
    else if PhoneTaken(w.db.users, phone.value, c.role) then Refuse(PhoneAlreadyRegistered)
    else if EmailTaken(w.db.users, c.email.value, c.role) then Refuse(EmailAlreadyRegistered)
    else
      var u := NewUser(phone.value, c.role, name, c.email.value, TrimSpace(c.referral));
      if !FitsUser(u) || |c.device| > OTP_DEVICE_WIDTH then Refuse(Internal)
      else Decision(Some(OpenAccount(sid, u, c.device, c.code)), CodeSent(now + OTP_TTL))
  }

  function DecideSendOtp(w: World, now: int, c: Call): (d: Decision)
    requires c.SendOtp?
    ensures d.effect.Some? ==> Enabled(w, now, d.effect.value)
    ensures OfAccounts(d)
    ensures d.reply.CodeSent? || d.reply.Refused?
  {
    var phone := Phone.RequireValidPhone(c.phone);
    if phone.None? then Refuse(InvalidPhone)
    else
      var user := FindUser(w.db.users, phone.value, c.role);
      if user.None? then Refuse(UserNotFound)
      else if w.db.users[user.value].suspended then Refuse(AccountSuspended)
      else if CountOr0(w.cache.otpRate, PhoneKey(phone.value, c.role), now) >= MAX_OTP_RATE then Refuse(RateLimited)
      else
        var rec := LatestActive(w.db.otps, user.value, now);
        if rec.Some? && w.db.otps[rec.value].resends >= MAX_OTP_RATE then Refuse(RateLimited)
        else if |c.device| > OTP_DEVICE_WIDTH then Decision(Some(Resend(user.value)), Refused(Internal))
        else Decision(Some(IssuePhone(user.value, c.device, c.code)), CodeSent(now + OTP_TTL))
  }

  function DecideVerifyOtp(w: World, now: int, c: Call): (d: Decision)
    requires c.VerifyOtp?
    ensures d.effect.Some? ==> Enabled(w, now, d.effect.value)
    ensures OfAccounts(d)
  {
    var phone := Phone.RequireValidPhone(c.phone);
    if phone.None? then Refuse(InvalidPhone)
    else if TrimSpace(c.device) == "" then Refuse(Validation)
    else if !ValidateOtp(c.otp) then Refuse(Validation)
    else
      var account := FindUser(w.db.users, phone.value, c.role);
      if account.None? then Refuse(OtpInvalid)
      else
        var rec := LatestUnverified(w.db.otps, account.value, c.device);
        if rec.None? then Refuse(OtpInvalid)
        else DecideRow(w, now, rec.value, c.device, c.otp)
  }

  // The row the call found, against the code it was given. A right code opens a
  // session unless the sessions table refuses its device id; then everything the
  // transaction did is rolled back, the count of the try included.
  function DecideRow(w: World, now: int, row: nat, device: string, otp: string): (d: Decision)
    requires row < |w.db.otps| && !w.db.otps[row].verified && LiveUser(w.db.users, w.db.otps[row].uid)
    requires w.db.otps[row].device == device && TrimSpace(device) != ""
    ensures d.effect.Some? ==> Enabled(w, now, d.effect.value)
    ensures OfAccounts(d)
  {
    var o := w.db.otps[row];
    var last := o.attempts + 1 >= MAX_ATTEMPTS;
    if o.blockedUntil.Some? && o.blockedUntil.value > now then Refuse(OtpMaxAttempts)
    else if o.attempts >= MAX_ATTEMPTS then Decision(Some(Block(row)), Refused(OtpMaxAttempts))
    else if o.expiresAt < now then
      Decision(Some(Try(row, false)), Refused(if last then OtpMaxAttempts else OtpExpired))
    else if o.hash != otp then
      Decision(Some(Try(row, true)), Refused(if last then OtpMaxAttempts else OtpInvalid))
    else if |device| > SESSION_DEVICE_WIDTH then Decision(Some(Rebuff(row)), Refused(Internal))
    else
      Decision(Some(SignIn(row, device)),
               SignedIn(o.uid, w.db.users[o.uid].role, |w.db.sessions|,
                        CountVerified(w.db.otps[row := o.(verified := true)], o.uid) == 1))
  }

  function DecideMailIssue(w: World, now: int, k: MailKey, code: string): (d: Decision)
    ensures d.effect.Some? ==> Enabled(w, now, d.effect.value)
    ensures OfAccounts(d)
    ensures d.reply.MailSent? || d.reply.Refused?
  {
    if CountOr0(w.cache.mailRate, k, now) >= MAX_OTP_RATE then Refuse(RateLimited)
    else Decision(Some(IssueMail(k, code)), MailSent(now + OTP_TTL))
  }

  function DecideSendEmailOtp(w: World, now: int, c: Call): (d: Decision)
    requires c.SendEmailOtp?
    ensures d.effect.Some? ==> Enabled(w, now, d.effect.value)
    ensures OfAccounts(d)
    ensures d.reply.MailSent? || d.reply.Refused?
  {
    var sid := TrimSpace(c.sid);
    if sid == "" then Refuse(GuestTokenInvalid)
    else if c.email.None? then Refuse(InvalidEmail)
    else DecideMailIssue(w, now, MailKey(GuestScope(sid), c.email.value), c.code)
  }

  // A guess against the live hash: None when it is right.
  function DecideGuess(w: World, now: int, k: MailKey, otp: string): (g: Option<Decision>)
    ensures g.None? ==> Live(w.cache.mailHash, k, now) && w.cache.mailHash[k].value == otp
    ensures g.Some? && g.value.effect.Some? ==> Enabled(w, now, g.value.effect.value)
    ensures g.Some? ==> g.value.reply.Refused? && OfAccounts(g.value)
  {
    match Get(w.cache.mailHash, k, now)
    case None => Some(Refuse(OtpExpired))
    case Some(hash) =>
      if hash == otp then None
      else
        Some(Decision(Some(Miss(k)),
                      Refused(if CountOr0(w.cache.mailAttempts, k, now) + 1 >= MAX_ATTEMPTS
                              then OtpMaxAttempts else OtpInvalid)))
  }

  function DecideVerifyEmail(w: World, now: int, c: Call): (d: Decision)
    requires c.VerifyEmail?
    ensures d.effect.Some? ==> Enabled(w, now, d.effect.value)
    ensures OfAccounts(d)
    ensures d.reply.MailVerified? || d.reply.Refused?
  {
    var sid := TrimSpace(c.sid);
    if sid == "" then Refuse(GuestTokenInvalid)
    else if c.email.None? then Refuse(InvalidEmail)
    else if !ValidateOtp(c.otp) then Refuse(Validation)
    else
      match DecideGuess(w, now, MailKey(GuestScope(sid), c.email.value), c.otp)
      case Some(wrong) => wrong
      case None => Decision(Some(Prove(sid, c.email.value)), MailVerified)
  }

  function DecideSendEmailUpdateOtp(w: World, now: int, c: Call): (d: Decision)
    requires c.SendEmailUpdateOtp?
    ensures d.effect.Some? ==> Enabled(w, now, d.effect.value)
    ensures OfAccounts(d)
    ensures d.reply.MailSent? || d.reply.Refused?
  {
    if c.email.None? then Refuse(InvalidEmail)
    else if !LiveUser(w.db.users, c.uid) then Refuse(ProfileNotFound)
    else if Lower(c.email.value) == Lower(w.db.users[c.uid].email) then Refuse(EmailUnchanged)
    else if EmailTaken(w.db.users, c.email.value, w.db.users[c.uid].role) then Refuse(EmailConflict)
    else DecideMailIssue(w, now, MailKey(UserScope(c.uid), c.email.value), c.code)
  }

  function DecideVerifyEmailUpdate(w: World, now: int, c: Call): (d: Decision)
    requires c.VerifyEmailUpdate?
    ensures d.effect.Some? ==> Enabled(w, now, d.effect.value)
    ensures OfAccounts(d)
    ensures d.reply.MailMoved? || d.reply.Refused?
  {
    if c.email.None? then Refuse(InvalidEmail)
    else if !ValidateOtp(c.otp) then Refuse(Validation)
    else if !LiveUser(w.db.users, c.uid) then Refuse(ProfileNotFound)
    else
      match DecideGuess(w, now, MailKey(UserScope(c.uid), c.email.value), c.otp)
      case Some(wrong) => wrong
      case None =>
        if EmailTaken(w.db.users, c.email.value, w.db.users[c.uid].role) then Refuse(EmailConflict)
        else if |c.email.value| > EMAIL_WIDTH then Refuse(Internal)
        else Decision(Some(MoveEmail(c.uid, c.email.value)), MailMoved)
  }

  // JWTAuthMiddleware on a token of this session: a readable session is renewed.
  function DecideUse(w: World, now: int, session: nat): (d: Decision)
    ensures d.effect.Some? ==> Enabled(w, now, d.effect.value)
  {
    match Get(w.cache.sessions, session, now)
    case None => Refuse(SessionNotFound)
    case Some(data) =>
      if !data.active then Refuse(SessionRevoked) else Decision(Some(Renew(session)), Authenticated)
  }

  // A call causes an effect only where that effect is enabled.
  function Decide(w: World, now: int, c: Call): (d: Decision)
    ensures d.effect.Some? ==> Enabled(w, now, d.effect.value)
    ensures c.UseSession? ==> d == DecideUse(w, now, c.session)
    ensures c.LogoutCall? ==> d.effect == Some(SignOut(c.session, c.uid))
    ensures !c.UseSession? && !c.LogoutCall? ==> OfAccounts(d)
  {
    match c
    case Register(_, _, _, _, _, _, _, _) => DecideRegister(w, now, c)
    case SendOtp(_, _, _, _) => DecideSendOtp(w, now, c)
    case VerifyOtp(_, _, _, _) => DecideVerifyOtp(w, now, c)
    case SendEmailOtp(_, _, _) => DecideSendEmailOtp(w, now, c)
    case VerifyEmail(_, _, _) => DecideVerifyEmail(w, now, c)
    case SendEmailUpdateOtp(_, _, _) => DecideSendEmailUpdateOtp(w, now, c)
    case VerifyEmailUpdate(_, _, _) => DecideVerifyEmailUpdate(w, now, c)
    case UseSession(session) => DecideUse(w, now, session)
    case LogoutCall(session, uid) => Decision(Some(SignOut(session, uid)), Done)
    case SuspendUser(uid, b) =>
      if uid < |w.db.users| then Decision(Some(Suspend(uid, b)), Done) else Refuse(UserNotFound)
    case DeleteUser(uid) =>
      if uid < |w.db.users| then Decision(Some(Remove(uid)), Done) else Refuse(UserNotFound)
  }

  function Step(w: World, now: int, c: Call): World {
    match Decide(w, now, c).effect case None => w case Some(e) => Perform(w, now, e)
  }

  /* ---------- runs ---------- */

  const EMPTY := World(Tables([], [], [], []), Cache(map[], map[], map[], map[], map[], map[], map[]), Start)

  datatype Run = Boot | Next(before: Run, now: int, call: Call)

  function After(r: Run): World {
    match r case Boot => EMPTY case Next(before, now, call) => Step(After(before), now, call)
  }

  // The clock never ran backwards and has not passed t.
  predicate Forward(r: Run, t: int) {
    match r case Boot => true case Next(before, now, _) => now <= t && Forward(before, now)
  }
}
