/** Phone codes, logins and sessions over whole runs. */
module AuthLoginProofs {
  import opened Common
  import opened RedisTtl
  import opened Accounts
  import opened AuthProtocol
  import opened Text

  /* ---------- readings of the history ---------- */

  // Tries a row took: wrong, expired or successful.
  function Tries(log: Trace, row: nat): nat {
    match log
    case Start => 0
    case Then(prior, Tried(r, _)) => Tries(prior, row) + if r == row then 1 else 0
    case Then(prior, _) => Tries(prior, row)
  }

  // Times a row's hash was compared with a submitted code.
  function Compares(log: Trace, row: nat): nat {
    match log
    case Start => 0
    case Then(prior, Tried(r, compared)) => Compares(prior, row) + if r == row && compared then 1 else 0
    case Then(prior, Rebuffed(r)) => Compares(prior, row) + if r == row then 1 else 0
    case Then(prior, _) => Compares(prior, row)
  }

  // Logins a row was redeemed for.
  function Redeemed(log: Trace, row: nat): nat {
    match log
    case Start => 0
    case Then(prior, LoggedIn(_, r, _)) => Redeemed(prior, row) + if r == row then 1 else 0
    case Then(prior, _) => Redeemed(prior, row)
  }

  function Logins(log: Trace, uid: nat): nat {
    match log
    case Start => 0
    case Then(prior, LoggedIn(u, _, _)) => Logins(prior, uid) + if u == uid then 1 else 0
    case Then(prior, _) => Logins(prior, uid)
  }

  /* ---------- OTP rows ---------- */

  // A comparison may leave no try behind only where the sessions table refuses
  // the row's device id.
  predicate FitsSession(device: string) { |device| <= SESSION_DEVICE_WIDTH || TrimSpace(device) == "" }

  ghost predicate TriesCounted(w: World, row: nat) {
    if row < |w.db.otps| then
      var o := w.db.otps[row];
      0 <= o.attempts <= MAX_ATTEMPTS && o.attempts == Tries(w.log, row)
    else Tries(w.log, row) == 0
  }

  ghost predicate ComparesCounted(w: World, row: nat) {
    if row < |w.db.otps| then FitsSession(w.db.otps[row].device) ==> Compares(w.log, row) <= Tries(w.log, row)
    else Compares(w.log, row) == 0 && Tries(w.log, row) == 0
  }

  ghost predicate RedeemsCounted(w: World, row: nat) {
    Redeemed(w.log, row) == if row < |w.db.otps| && w.db.otps[row].verified then 1 else 0
  }

  ghost predicate RowKept(w: World, row: nat) {
    row < |w.db.otps| ==>
      var o := w.db.otps[row];
      && 0 <= o.resends <= MAX_OTP_RATE
      && (o.attempts >= MAX_ATTEMPTS && !o.verified ==> o.blockedUntil.Some?)
      && |o.device| <= OTP_DEVICE_WIDTH && (o.verified ==> |o.device| <= SESSION_DEVICE_WIDTH)
  }

  ghost predicate RowCounted(w: World, row: nat) {
    TriesCounted(w, row) && ComparesCounted(w, row) && RedeemsCounted(w, row) && RowKept(w, row)
  }

  lemma PerformCountsTries(w: World, now: int, e: Effect, row: nat)
    requires Applies(w, e) && RowGuard(w, now, e) && TriesCounted(w, row)
    ensures TriesCounted(Perform(w, now, e), row)
  {
  }

  lemma PerformCountsCompares(w: World, now: int, e: Effect, row: nat)
    requires Applies(w, e) && RowGuard(w, now, e) && ComparesCounted(w, row)
    ensures ComparesCounted(Perform(w, now, e), row)
  {
  }

  lemma PerformCountsRedeems(w: World, now: int, e: Effect, row: nat)
    requires Applies(w, e) && RowGuard(w, now, e) && RedeemsCounted(w, row)
    ensures RedeemsCounted(Perform(w, now, e), row)
  {
  }

  lemma PerformKeepsRow(w: World, now: int, e: Effect, row: nat)
    requires Applies(w, e) && RowGuard(w, now, e) && FitGuard(e) && RowKept(w, row)
    ensures RowKept(Perform(w, now, e), row)
  {
  }

  lemma PerformCountsRow(w: World, now: int, e: Effect, row: nat)
    requires Applies(w, e) && RowGuard(w, now, e) && FitGuard(e) && RowCounted(w, row)
    ensures RowCounted(Perform(w, now, e), row)
  {
    PerformCountsTries(w, now, e, row);
    PerformCountsCompares(w, now, e, row);
    PerformCountsRedeems(w, now, e, row);
    PerformKeepsRow(w, now, e, row);
  }

  /** In every reachable state a row's attempts are its tries, between none and
      five; it was redeemed once if verified and never otherwise, is blocked if it
      is spent, and was compared at most five times if its device id fits a session. */
  lemma {:induction false} RowsAreCounted(r: Run, row: nat)
    ensures RowCounted(After(r), row)
    ensures row < |After(r).db.otps| && FitsSession(After(r).db.otps[row].device) ==>
              Compares(After(r).log, row) <= MAX_ATTEMPTS
  {
    if r.Next? {
      RowsAreCounted(r.before, row);
      var w, d := After(r.before), Decide(After(r.before), r.now, r.call);
      if d.effect.Some? { PerformCountsRow(w, r.now, d.effect.value, row); }
    }
  }

  /** A row whose device id is too long for a session is never verified and never
      redeemed, in any reachable state. */
  lemma LongDeviceNeverSignsIn(r: Run, row: nat)
    requires row < |After(r).db.otps| && |After(r).db.otps[row].device| > SESSION_DEVICE_WIDTH
    ensures !After(r).db.otps[row].verified && Redeemed(After(r).log, row) == 0
  {
    RowsAreCounted(r, row);
  }

  predicate Spent(w: World, row: nat) {
    row < |w.db.otps| && w.db.otps[row].attempts == MAX_ATTEMPTS && !w.db.otps[row].verified
  }

  lemma PerformKeepsSpent(w: World, now: int, e: Effect, row: nat)
    requires Applies(w, e) && RowGuard(w, now, e) && Spent(w, row)
    ensures Spent(Perform(w, now, e), row)
    ensures Compares(Perform(w, now, e).log, row) == Compares(w.log, row)
  {
  }

  // s is r with more calls after it.
  predicate Continues(r: Run, s: Run) {
    s == r || (s.Next? && Continues(r, s.before))
  }

  /** A row that used up its tries unverified is never compared again and never
      becomes verified, however the run goes on and whatever the clock reads. */
  lemma {:induction false} SpentForGood(r: Run, s: Run, row: nat)
    requires Continues(r, s) && Spent(After(r), row)
    ensures Spent(After(s), row) && Compares(After(s).log, row) == Compares(After(r).log, row)
  {
    if s != r {
      SpentForGood(r, s.before, row);
      var w, d := After(s.before), Decide(After(s.before), s.now, s.call);
      if d.effect.Some? { PerformKeepsSpent(w, s.now, d.effect.value, row); }
    }
  }

  /* ---------- login conservation ---------- */

  ghost predicate Balanced(w: World, uid: nat) {
    RowsBalance(w, uid) && SessionsBalance(w, uid) && AuditBalances(w, uid) && FlagBalances(w, uid)
  }

  ghost predicate RowsBalance(w: World, uid: nat) {
    CountVerified(w.db.otps, uid) == Logins(w.log, uid)
  }

  ghost predicate SessionsBalance(w: World, uid: nat) {
    CountSessions(w.db.sessions, uid) == Logins(w.log, uid)
  }

  ghost predicate AuditBalances(w: World, uid: nat) {
    CountLogins(w.db.audit, uid) == Logins(w.log, uid)
  }

  ghost predicate FlagBalances(w: World, uid: nat) {
    if uid < |w.db.users| then w.db.users[uid].phoneVerified == (Logins(w.log, uid) > 0)
    else Logins(w.log, uid) == 0
  }

  // Only a sign-in is a login, of the user its row belongs to.
  function LoginOf(w: World, e: Effect): Option<nat>
    requires Applies(w, e)
  {
    match e case SignIn(row, _) => Some(w.db.otps[row].uid) case _ => None
  }

  lemma LoginsOfEffect(w: World, now: int, e: Effect, uid: nat)
    requires Applies(w, e)
    ensures Logins(Perform(w, now, e).log, uid) ==
            Logins(w.log, uid) + if LoginOf(w, e) == Some(uid) then 1 else 0
  {
  }

  function AuditOf(w: World, e: Effect): seq<AuditRow>
    requires Applies(w, e)
  {
    match e
    case OpenAccount(_, _, _, _) => [AuditRow(|w.db.users|, Create, |w.db.users|)]
    case MoveEmail(uid, _) => [AuditRow(uid, EmailUpdate, uid)]
    case SignIn(row, _) => [AuditRow(w.db.otps[row].uid, Login, |w.db.sessions|)]
    case SignOut(session, uid) => [AuditRow(uid, Logout, session)]
    case _ => []
  }

  lemma AuditOfEffect(w: World, now: int, e: Effect)
    requires Applies(w, e)
    ensures Perform(w, now, e).db.audit == w.db.audit + AuditOf(w, e)
  {
  }

  lemma AppendedAudit(rows: seq<AuditRow>, more: seq<AuditRow>, uid: nat)
    requires |more| <= 1
    ensures CountLogins(rows + more, uid) ==
            CountLogins(rows, uid) + if more != [] && more[0].actor == uid && more[0].action == Login then 1 else 0
  {
    if more == [] { assert rows + more == rows; } else { assert (rows + more)[..|rows|] == rows; }
  }

  lemma PerformBalancesAudit(w: World, now: int, e: Effect, uid: nat)
    requires Applies(w, e) && AuditBalances(w, uid)
    ensures AuditBalances(Perform(w, now, e), uid)
  {
    LoginsOfEffect(w, now, e, uid);
    AuditOfEffect(w, now, e);
    AppendedAudit(w.db.audit, AuditOf(w, e), uid);
  }

  lemma SessionsOfEffect(w: World, now: int, e: Effect)
    requires Applies(w, e)
    ensures var ss := Perform(w, now, e).db.sessions;
            match e
            case SignIn(row, device) =>
              var uid := w.db.otps[row].uid;
              ss == w.db.sessions + [SessionRow(uid, w.db.users[uid].role, w.db.users[uid].phone, device, true)]
            case SignOut(s, _) =>
              ss == if s < |w.db.sessions| then w.db.sessions[s := w.db.sessions[s].(active := false)]
                    else w.db.sessions
            case _ => ss == w.db.sessions
  {
  }

  lemma AppendedSession(ss: seq<SessionRow>, s: SessionRow, uid: nat)
    ensures CountSessions(ss + [s], uid) == CountSessions(ss, uid) + if s.uid == uid then 1 else 0
  {
    assert (ss + [s])[..|ss|] == ss;
  }

  lemma PerformBalancesSessions(w: World, now: int, e: Effect, uid: nat)
    requires Applies(w, e) && SessionsBalance(w, uid)
    ensures SessionsBalance(Perform(w, now, e), uid)
  {
    LoginsOfEffect(w, now, e, uid);
    SessionsOfEffect(w, now, e);
    match e
    case SignIn(row, device) =>
      var u := w.db.otps[row].uid;
      AppendedSession(w.db.sessions, SessionRow(u, w.db.users[u].role, w.db.users[u].phone, device, true), uid);
    case SignOut(s, _) =>
      if s < |w.db.sessions| {
        DeactivatingKeepsCount(w.db.sessions, s, w.db.sessions[s].(active := false), uid);
      }
    case _ =>
  }

  function ResentRow(w: World, uid: nat, now: int): Option<(nat, OtpRow)> {
    var r := LatestActive(w.db.otps, uid, now);
    if r.None? then None else Some((r.value, w.db.otps[r.value].(resends := w.db.otps[r.value].resends + 1)))
  }

  // An effect rewrites at most one OTP row, keeping its owner, and appends at most one.
  function RewriteOf(w: World, now: int, e: Effect): Option<(nat, OtpRow)>
    requires Applies(w, e)
  {
    match e
    case IssuePhone(uid, _, _) => ResentRow(w, uid, now)
    case Resend(uid) => ResentRow(w, uid, now)
    case Try(row, _) => Some((row, Perform(w, now, e).db.otps[row]))
    case Block(row) => Some((row, Perform(w, now, e).db.otps[row]))
    case SignIn(row, _) => Some((row, Perform(w, now, e).db.otps[row]))
    case _ => None
  }

  function NewRowOf(w: World, now: int, e: Effect): seq<OtpRow> {
    match e
    case OpenAccount(_, _, device, code) => [NewOtp(|w.db.users|, device, code, now + OTP_TTL)]
    case IssuePhone(uid, device, code) => [NewOtp(uid, device, code, now + OTP_TTL)]
    case _ => []
  }

  lemma OtpsOfEffect(w: World, now: int, e: Effect)
    requires Applies(w, e) && RowGuard(w, now, e)
    ensures var os, r := w.db.otps, RewriteOf(w, now, e);
            && (r.Some? ==>
                  && r.value.0 < |os| && !os[r.value.0].verified && r.value.1.uid == os[r.value.0].uid
                  && r.value.1.verified == e.SignIn?
                  && (e.SignIn? ==> LoginOf(w, e) == Some(os[r.value.0].uid)))
            && (r.None? ==> !e.SignIn?)
            && Perform(w, now, e).db.otps ==
               (if r.Some? then os[r.value.0 := r.value.1] else os) + NewRowOf(w, now, e)
  {
  }

  lemma AppendedOtps(os: seq<OtpRow>, more: seq<OtpRow>, uid: nat)
    requires |more| <= 1 && (more != [] ==> !more[0].verified)
    ensures CountVerified(os + more, uid) == CountVerified(os, uid)
  {
    if more == [] { assert os + more == os; } else { assert (os + more)[..|os|] == os; }
  }

  lemma PerformBalancesRows(w: World, now: int, e: Effect, uid: nat)
    requires Applies(w, e) && RowGuard(w, now, e) && RowsBalance(w, uid)
    ensures RowsBalance(Perform(w, now, e), uid)
  {
    LoginsOfEffect(w, now, e, uid);
    OtpsOfEffect(w, now, e);
    var os, r := w.db.otps, RewriteOf(w, now, e);
    if r.Some? { VerifyingCounts(os, r.value.0, r.value.1, uid); }
    AppendedOtps(if r.Some? then os[r.value.0 := r.value.1] else os, NewRowOf(w, now, e), uid);
  }

  lemma PerformBalancesFlag(w: World, now: int, e: Effect, uid: nat)
    requires Applies(w, e) && FlagBalances(w, uid)
    ensures FlagBalances(Perform(w, now, e), uid)
  {
  }

  /** For every user: verified rows, sessions ever created and login audit rows
      are equally many, and phone_verified says whether there is any. */
  lemma {:induction false} LoginConservation(r: Run, uid: nat)
    ensures Balanced(After(r), uid)
  {
    if r.Next? {
      LoginConservation(r.before, uid);
      var w, d := After(r.before), Decide(After(r.before), r.now, r.call);
      if d.effect.Some? {
        PerformBalancesRows(w, r.now, d.effect.value, uid);
        PerformBalancesSessions(w, r.now, d.effect.value, uid);
        PerformBalancesAudit(w, r.now, d.effect.value, uid);
        PerformBalancesFlag(w, r.now, d.effect.value, uid);
      }
    }
  }

  // A call answered with a sign-in redeems an open row of that user.
  ghost predicate Redeems(w: World, d: Decision) {
    && d.reply.SignedIn? && d.effect.Some? && d.effect.value.SignIn?
    && var row := d.effect.value.row;
    && row < |w.db.otps| && !w.db.otps[row].verified && w.db.otps[row].uid == d.reply.uid
    && d.reply.firstTime ==
       (CountVerified(w.db.otps[row := w.db.otps[row].(verified := true)], d.reply.uid) == 1)
  }

  lemma RowSignedInRedeems(w: World, now: int, row: nat, device: string, otp: string)
    requires row < |w.db.otps| && !w.db.otps[row].verified && LiveUser(w.db.users, w.db.otps[row].uid)
    requires w.db.otps[row].device == device && TrimSpace(device) != ""
    requires DecideRow(w, now, row, device, otp).reply.SignedIn?
    ensures Redeems(w, DecideRow(w, now, row, device, otp))
  {
  }

  lemma OnlyVerifyOtpSignsIn(w: World, now: int, c: Call)
    ensures Decide(w, now, c).reply.SignedIn? ==> c.VerifyOtp?
  {
  }

  lemma VerifiedRedeems(w: World, now: int, c: Call)
    requires c.VerifyOtp?
    ensures var d := DecideVerifyOtp(w, now, c); d.reply.SignedIn? ==> Redeems(w, d)
  {
    if DecideVerifyOtp(w, now, c).reply.SignedIn? {
      var account := FindUser(w.db.users, Phone.RequireValidPhone(c.phone).value, c.role).value;
      var row := LatestUnverified(w.db.otps, account, c.device).value;
      RowSignedInRedeems(w, now, row, c.device, c.otp);
    }
  }

  lemma SignedInRedeems(w: World, now: int, c: Call)
    ensures var d := Decide(w, now, c); d.reply.SignedIn? ==> c.VerifyOtp? && Redeems(w, d)
  {
    OnlyVerifyOtpSignsIn(w, now, c);
    if c.VerifyOtp? { VerifiedRedeems(w, now, c); }
  }

  lemma SignInLogs(w: World, now: int, row: nat, device: string)
    requires Applies(w, SignIn(row, device))
    ensures var uid := w.db.otps[row].uid;
            Logins(Perform(w, now, SignIn(row, device)).log, uid) == Logins(w.log, uid) + 1
  {
  }

  // What a redeeming decision does to the history of its user's logins.
  ghost predicate FirstTimeRight(w: World, now: int, d: Decision)
    requires Redeems(w, d) && Applies(w, d.effect.value)
  {
    var uid, v := d.reply.uid, Perform(w, now, d.effect.value);
    (d.reply.firstTime <==> Logins(w.log, uid) == 0) && Logins(v.log, uid) == Logins(w.log, uid) + 1
  }

  lemma BalancedRedeemsRight(w: World, now: int, d: Decision)
    requires Redeems(w, d) && Applies(w, d.effect.value) && RowsBalance(w, d.reply.uid)
    ensures FirstTimeRight(w, now, d)
  {
    var row := d.effect.value.row;
    VerifyingCounts(w.db.otps, row, w.db.otps[row].(verified := true), d.reply.uid);
    SignInLogs(w, now, row, d.effect.value.device);
  }

  /** FirstTimeUser is reported on exactly the user's first successful login. */
  lemma FirstTimeIsFirst(r: Run, now: int, c: Call)
    ensures var d := Decide(After(r), now, c);
            d.reply.SignedIn? ==> Redeems(After(r), d) && FirstTimeRight(After(r), now, d)
  {
    var d := Decide(After(r), now, c);
    if d.reply.SignedIn? {
      SignedInRedeems(After(r), now, c);
      LoginConservation(r, d.reply.uid);
      BalancedRedeemsRight(After(r), now, d);
    }
  }

  /* ---------- what each session stands for ---------- */

  // One OTP row before and after: its code, owner and lifetime never change.
  predicate SameCode(o: OtpRow, p: OtpRow) {
    && p.uid == o.uid && p.device == o.device && p.hash == o.hash && p.expiresAt == o.expiresAt
    && (o.verified ==> p.verified) && o.attempts <= p.attempts
  }

  // Rows only gain: who they belong to never changes and verified stays.
  ghost predicate Grows(s: Tables, t: Tables) {
    UsersGrow(s.users, t.users) && OtpsGrow(s.otps, t.otps) && SessionsGrow(s.sessions, t.sessions)
  }

  ghost predicate UsersGrow(us: seq<User>, vs: seq<User>) {
    |us| <= |vs| && forall i | 0 <= i < |us| :: vs[i].phone == us[i].phone && vs[i].role == us[i].role
  }

  ghost predicate OtpsGrow(os: seq<OtpRow>, ps: seq<OtpRow>) {
    |os| <= |ps| && forall i | 0 <= i < |os| :: SameCode(os[i], ps[i])
  }

  ghost predicate SessionsGrow(ss: seq<SessionRow>, ts: seq<SessionRow>) {
    |ss| <= |ts| && forall i | 0 <= i < |ss| :: ts[i] == ss[i].(active := ts[i].active)
  }

  lemma GrowsFurther(s: Tables, t: Tables, u: Tables)
    requires Grows(s, t) && Grows(t, u)
    ensures Grows(s, u)
  {
  }

  // Every login redeemed a verified row of its user into a session of that
  // user's phone and role.
  ghost predicate LoginsSound(log: Trace, t: Tables) {
    match log
    case Start => true
    case Then(prior, LoggedIn(uid, row, s)) =>
      && LoginsSound(prior, t)
      && row < |t.otps| && t.otps[row].uid == uid && t.otps[row].verified
      && uid < |t.users| && s < |t.sessions|
      && t.sessions[s].uid == uid
      && t.sessions[s].role == t.users[uid].role && t.sessions[s].phone == t.users[uid].phone
    case Then(prior, _) => LoginsSound(prior, t)
  }

  // Some login opened session s.
  predicate HasLogin(log: Trace, s: nat) {
    match log
    case Start => false
    case Then(prior, LoggedIn(_, _, session)) => session == s || HasLogin(prior, s)
    case Then(prior, _) => HasLogin(prior, s)
  }

  lemma LoginsStay(w: World, now: int, e: Effect, s: nat)
    requires Applies(w, e)
    ensures HasLogin(Perform(w, now, e).log, s) <==>
            HasLogin(w.log, s) || (e.SignIn? && s == |w.db.sessions|)
  {
  }

  lemma {:induction false} SoundGrows(log: Trace, s: Tables, t: Tables)
    requires LoginsSound(log, s) && Grows(s, t)
    ensures LoginsSound(log, t)
  {
    if log.Then? { SoundGrows(log.prior, s, t); }
  }

  lemma UsersOnlyGrow(w: World, now: int, e: Effect)
    requires Applies(w, e)
    ensures UsersGrow(w.db.users, Perform(w, now, e).db.users)
  {
  }

  lemma OtpsOnlyGrow(w: World, now: int, e: Effect)
    requires Applies(w, e)
    ensures OtpsGrow(w.db.otps, Perform(w, now, e).db.otps)
  {
  }

  lemma PerformGrows(w: World, now: int, e: Effect)
    requires Applies(w, e)
    ensures Grows(w.db, Perform(w, now, e).db)
  {
    UsersOnlyGrow(w, now, e);
    OtpsOnlyGrow(w, now, e);
    SessionsOfEffect(w, now, e);
  }

  lemma PerformKeepsLoginsSound(w: World, now: int, e: Effect)
    requires Applies(w, e) && LoginsSound(w.log, w.db)
    ensures LoginsSound(Perform(w, now, e).log, Perform(w, now, e).db)
  {
    PerformGrows(w, now, e);
    SoundGrows(w.log, w.db, Perform(w, now, e).db);
  }

  /** Each session row has a login, and each login redeemed a verified row of its
      user into a session of that account. */
  lemma {:induction false} SessionsFollowRows(r: Run)
    ensures LoginsSound(After(r).log, After(r).db)
    ensures forall s: nat :: HasLogin(After(r).log, s) <==> s < |After(r).db.sessions|
  {
    if r.Next? {
      SessionsFollowRows(r.before);
      var w, d := After(r.before), Decide(After(r.before), r.now, r.call);
      if d.effect.Some? {
        PerformKeepsLoginsSound(w, r.now, d.effect.value);
        SessionsOfEffect(w, r.now, d.effect.value);
        forall s: nat
          ensures HasLogin(After(r).log, s) <==> s < |After(r).db.sessions|
        {
          LoginsStay(w, r.now, d.effect.value, s);
        }
      }
    }
  }

  // The history of the tables alone: nothing is ever taken back.
  lemma {:induction false} TablesOnlyGrow(r: Run, s: Run)
    requires Continues(r, s)
    ensures Grows(After(r).db, After(s).db)
  {
    if s != r {
      TablesOnlyGrow(r, s.before);
      var w, d := After(s.before), Decide(After(s.before), s.now, s.call);
      if d.effect.Some? {
        PerformGrows(w, s.now, d.effect.value);
        GrowsFurther(After(r).db, w.db, After(s).db);
      }
    }
  }

  // Decision d redeems a row with its own code, in time, on its device and for
  // the account of the phone and role given.
  ghost predicate PresentsTheCode(w: World, now: int, c: Call, d: Decision)
    requires c.VerifyOtp?
  {
    && Redeems(w, d) && Applies(w, d.effect.value)
    && var o := w.db.otps[d.effect.value.row];
    && o.hash == c.otp && now <= o.expiresAt && o.device == c.device
    && Some(w.db.users[o.uid].phone) == Phone.RequireValidPhone(c.phone)
    && w.db.users[o.uid].role == c.role == d.reply.role
  }

  lemma RowPresentsTheCode(w: World, now: int, c: Call, row: nat)
    requires c.VerifyOtp? && row < |w.db.otps| && !w.db.otps[row].verified && w.db.otps[row].device == c.device
    requires LiveUser(w.db.users, w.db.otps[row].uid) && TrimSpace(c.device) != ""
    requires var u := w.db.users[w.db.otps[row].uid];
             Some(u.phone) == Phone.RequireValidPhone(c.phone) && u.role == c.role
    ensures var d := DecideRow(w, now, row, c.device, c.otp);
            d.reply.SignedIn? ==> PresentsTheCode(w, now, c, d)
  {
  }

  /** A login presents the code its row was created with, before it expires, on
      the device it was sent for and to the account of that phone and role. */
  lemma SignInPresentsTheCode(w: World, now: int, c: Call)
    ensures var d := Decide(w, now, c);
            d.reply.SignedIn? ==> c.VerifyOtp? && PresentsTheCode(w, now, c, d)
  {
    OnlyVerifyOtpSignsIn(w, now, c);
    if c.VerifyOtp? && DecideVerifyOtp(w, now, c).reply.SignedIn? {
      var account := FindUser(w.db.users, Phone.RequireValidPhone(c.phone).value, c.role).value;
      RowPresentsTheCode(w, now, c, LatestUnverified(w.db.otps, account, c.device).value);
    }
  }

  /* ---------- sessions in Redis ---------- */

  // No key outlives its row's activity.
  predicate KeyFollowsRow(w: World, s: nat) {
    s in w.cache.sessions <==> s < |w.db.sessions| && w.db.sessions[s].active
  }

  lemma PerformKeepsKey(w: World, now: int, e: Effect, s: nat)
    requires Applies(w, e) && KeyFollowsRow(w, s)
    ensures KeyFollowsRow(Perform(w, now, e), s)
  {
  }

  lemma {:induction false} KeysFollowRows(r: Run, s: nat)
    ensures KeyFollowsRow(After(r), s)
  {
    if r.Next? {
      KeysFollowRows(r.before, s);
      var w, d := After(r.before), Decide(After(r.before), r.now, r.call);
      if d.effect.Some? { PerformKeepsKey(w, r.now, d.effect.value, s); }
    }
  }

  // When session s was opened, and every request that carried it since, let
  // through or not.
  function Uses(r: Run, s: nat): seq<int> {
    match r
    case Boot => []
    case Next(before, now, call) =>
      var n := |After(before).db.sessions|;
      var born, used := n <= s < |After(r).db.sessions|, s < n && call == UseSession(s);
      Uses(before, s) + if born || used then [now] else []
  }

  predicate LoggedOut(r: Run, s: nat) {
    match r
    case Boot => false
    case Next(before, _, call) =>
      LoggedOut(before, s) || (s < |After(before).db.sessions| && call.LogoutCall? && call.session == s)
  }

  // No gap between one time and the next reaches the session's lifetime.
  predicate Unbroken(times: seq<int>) {
    forall i | 0 < i < |times| :: times[i] < times[i - 1] + SESSION_TTL
  }

  lemma UnbrokenStep(times: seq<int>, t: int)
    requires times != []
    ensures Unbroken(times + [t]) <==> Unbroken(times) && t < times[|times| - 1] + SESSION_TTL
  {
    var more := times + [t];
    assert forall i | 0 <= i < |times| :: more[i] == times[i];
    assert more[|times|] == t && more[|times| - 1] == times[|times| - 1];
    assert Unbroken(more) ==> more[|times|] < more[|times| - 1] + SESSION_TTL;
  }

  // The key's deadline is one lifetime after the last use, unless a gap let it
  // lapse before that use.
  ghost predicate DeadlineFollowsUses(w: World, s: nat, uses: seq<int>, t: int) {
    if s >= |w.db.sessions| then uses == []
    else
      var row := w.db.sessions[s];
      && uses != [] && uses[|uses| - 1] <= t
      && (s in w.cache.sessions ==>
            var c := w.cache.sessions[s];
            && c.value == CachedSession(row.uid, row.role, true) && c.deadline.Some?
            && if Unbroken(uses) then c.deadline.value == uses[|uses| - 1] + SESSION_TTL
               else c.deadline.value <= uses[|uses| - 1])
  }

  // Effects other than renewing this session.
  lemma EffectKeepsDeadline(w: World, now: int, e: Effect, s: nat, uses: seq<int>, t: int)
    requires Applies(w, e) && e != Renew(s) && t <= now
    requires KeyFollowsRow(w, s) && DeadlineFollowsUses(w, s, uses, t)
    ensures var born := e.SignIn? && s == |w.db.sessions|;
            DeadlineFollowsUses(Perform(w, now, e), s, if born then [now] else uses, now)
  {
    SessionsOfEffect(w, now, e);
  }

  lemma UseRenews(w: World, now: int, s: nat, v: World)
    requires v == if Live(w.cache.sessions, s, now) && w.cache.sessions[s].value.active
                  then Perform(w, now, Renew(s)) else w
    ensures v == Step(w, now, UseSession(s))
  {
  }

  lemma UseKeepsDeadline(w: World, now: int, s: nat, uses: seq<int>, t: int)
    requires s < |w.db.sessions| && DeadlineFollowsUses(w, s, uses, t) && t <= now
    ensures DeadlineFollowsUses(Step(w, now, UseSession(s)), s, uses + [now], now)
  {
    UnbrokenStep(uses, now);
    var renewed := Live(w.cache.sessions, s, now) && w.cache.sessions[s].value.active;
    var v := if renewed then Perform(w, now, Renew(s)) else w;
    UseRenews(w, now, s, v);
    assert DeadlineFollowsUses(v, s, uses + [now], now);
  }

  // What an effect, if any, does to the number of sessions.
  lemma SessionsOfStep(w: World, now: int, e: Option<Effect>, s: nat)
    requires e.Some? ==> Applies(w, e.value)
    ensures var v := match e case None => w case Some(x) => Perform(w, now, x);
            |w.db.sessions| <= s < |v.db.sessions| <==> e.Some? && e.value.SignIn? && s == |w.db.sessions|
  {
    if e.Some? { SessionsOfEffect(w, now, e.value); }
  }

  lemma {:induction false} DeadlinesFollowUses(r: Run, s: nat, t: int)
    requires Forward(r, t)
    ensures DeadlineFollowsUses(After(r), s, Uses(r, s), t)
  {
    if r.Next? {
      var w, d := After(r.before), Decide(After(r.before), r.now, r.call);
      var uses := Uses(r.before, s);
      DeadlinesFollowUses(r.before, s, r.now);
      KeysFollowRows(r.before, s);
      SessionsOfStep(w, r.now, d.effect, s);
      assert uses + [] == uses && [] + [r.now] == [r.now];
      if r.call == UseSession(s) && s < |w.db.sessions| {
        UseKeepsDeadline(w, r.now, s, uses, r.now);
      } else if d.effect.Some? {
        EffectKeepsDeadline(w, r.now, d.effect.value, s, uses, r.now);
      }
    }
  }

  lemma ActivityOfEffect(w: World, now: int, e: Effect, s: nat)
    requires Applies(w, e) && s < |w.db.sessions|
    ensures var v := Perform(w, now, e);
            s < |v.db.sessions| &&
            v.db.sessions[s].active == (w.db.sessions[s].active && !(e.SignOut? && e.session == s))
  {
    SessionsOfEffect(w, now, e);
  }

  // A session row is active until its logout.
  lemma {:induction false} ActiveUntilLogout(r: Run, s: nat)
    ensures if s < |After(r).db.sessions| then After(r).db.sessions[s].active == !LoggedOut(r, s)
            else !LoggedOut(r, s)
  {
    if r.Next? {
      ActiveUntilLogout(r.before, s);
      var w, d := After(r.before), Decide(After(r.before), r.now, r.call);
      if d.effect.Some? {
        SessionsOfEffect(w, r.now, d.effect.value);
        if s < |w.db.sessions| { ActivityOfEffect(w, r.now, d.effect.value, s); }
      }
    }
  }

  lemma ReadableWhileUnbroken(w: World, s: nat, uses: seq<int>, now: int)
    requires KeyFollowsRow(w, s) && DeadlineFollowsUses(w, s, uses, now)
    ensures Live(w.cache.sessions, s, now) <==>
            s < |w.db.sessions| && w.db.sessions[s].active && Unbroken(uses + [now])
    ensures Live(w.cache.sessions, s, now) ==>
              w.cache.sessions[s].value == CachedSession(w.db.sessions[s].uid, w.db.sessions[s].role, true)
  {
    if s < |w.db.sessions| { UnbrokenStep(uses, now); }
  }

  /** Under a forward clock a session key is readable at now iff the session was
      opened, not logged out, and no gap between its uses up to now reached a day;
      then it reads as the row's user and role. */
  lemma SessionsAreMirrored(r: Run, s: nat, now: int)
    requires Forward(r, now)
    ensures Live(After(r).cache.sessions, s, now) <==>
            s < |After(r).db.sessions| && !LoggedOut(r, s) && Unbroken(Uses(r, s) + [now])
    ensures Live(After(r).cache.sessions, s, now) ==>
              var row := After(r).db.sessions[s];
              After(r).cache.sessions[s].value == CachedSession(row.uid, row.role, true)
  {
    DeadlinesFollowUses(r, s, now);
    KeysFollowRows(r, s);
    ActiveUntilLogout(r, s);
    ReadableWhileUnbroken(After(r), s, Uses(r, s), now);
  }

  /** A request on a session is let through exactly then; it is never answered
      that the session was revoked. */
  lemma SessionAuthenticatesIff(r: Run, s: nat, now: int)
    requires Forward(r, now)
    ensures var reply := Decide(After(r), now, UseSession(s)).reply;
            && (reply == Authenticated <==>
                  s < |After(r).db.sessions| && !LoggedOut(r, s) && Unbroken(Uses(r, s) + [now]))
            && (reply == Authenticated || reply == Refused(SessionNotFound))
  {
    SessionsAreMirrored(r, s, now);
  }

  lemma PerformKeepsSignedOut(w: World, now: int, e: Effect, s: nat)
    requires Applies(w, e) && s < |w.db.sessions| && !w.db.sessions[s].active
    ensures s < |Perform(w, now, e).db.sessions| && !Perform(w, now, e).db.sessions[s].active
  {
  }

  /** A session that was logged out never authenticates again. */
  lemma {:induction false} LoggedOutForGood(r: Run, s: Run, session: nat, now: int)
    requires Continues(r, s)
    requires session < |After(r).db.sessions| && !After(r).db.sessions[session].active
    ensures session < |After(s).db.sessions| && !After(s).db.sessions[session].active
    ensures Get(After(s).cache.sessions, session, now) == None
  {
    KeysFollowRows(s, session);
    if s != r {
      LoggedOutForGood(r, s.before, session, now);
      var w, d := After(s.before), Decide(After(s.before), s.now, s.call);
      if d.effect.Some? { PerformKeepsSignedOut(w, s.now, d.effect.value, session); }
    }
  }
}
