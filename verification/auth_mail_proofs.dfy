/** Email codes over whole runs: how often a code may be missed, what every
    stored address was proven by, and how fast codes are issued. */
module AuthMailProofs {
  import opened Common
  import opened RedisTtl
  import opened Accounts
  import opened AuthProtocol
  import opened Text

  /* ---------- readings of the history ---------- */

  // Wrong guesses since the key's last code was issued.
  function Misses(log: Trace, k: MailKey): nat {
    match log
    case Start => 0
    case Then(prior, MailIssued(j, _, _)) => if j == k then 0 else Misses(prior, k)
    case Then(prior, MailMissed(j)) => Misses(prior, k) + if j == k then 1 else 0
    case Then(prior, _) => Misses(prior, k)
  }

  function MailTimes(log: Trace, k: MailKey): seq<int> {
    match log
    case Start => []
    case Then(prior, MailIssued(j, _, at)) => MailTimes(prior, k) + if j == k then [at] else []
    case Then(prior, _) => MailTimes(prior, k)
  }

  function PhoneTimes(log: Trace, k: PhoneKey): seq<int> {
    match log
    case Start => []
    case Then(prior, PhoneIssued(j, at)) => PhoneTimes(prior, k) + if j == k then [at] else []
    case Then(prior, _) => PhoneTimes(prior, k)
  }

  function Issues(log: Trace, k: MailKey): nat {
    match log
    case Start => 0
    case Then(prior, MailIssued(j, _, _)) => Issues(prior, k) + if j == k then 1 else 0
    case Then(prior, _) => Issues(prior, k)
  }

  // Successful VerifyEmail calls.
  function Proofs(log: Trace, sid: string, email: string): nat {
    match log
    case Start => 0
    case Then(prior, MailProven(s, e, _)) => Proofs(prior, sid, email) + if s == sid && e == email then 1 else 0
    case Then(prior, _) => Proofs(prior, sid, email)
  }

  // Accounts registered from a guest session with an email.
  function Opens(log: Trace, sid: string, email: string): nat {
    match log
    case Start => 0
    case Then(prior, Opened(s, e, _)) => Opens(prior, sid, email) + if s == sid && e == email then 1 else 0
    case Then(prior, _) => Opens(prior, sid, email)
  }

  // Times a user's address was moved to an email.
  function Moves(log: Trace, uid: nat, email: string): nat {
    match log
    case Start => 0
    case Then(prior, Moved(u, e)) => Moves(prior, uid, email) + if u == uid && e == email then 1 else 0
    case Then(prior, _) => Moves(prior, uid, email)
  }

  /* ---------- at most five misses per code ---------- */

  ghost predicate MissesCounted(w: World, k: MailKey, t: int) {
    var c, f := w.cache, Misses(w.log, k);
    && f <= MAX_ATTEMPTS
    && (f == MAX_ATTEMPTS ==> k !in c.mailHash)
    && (k in c.mailHash ==>
          && c.mailHash[k].deadline.Some? && c.mailHash[k].deadline.value <= t + OTP_TTL
          && if f == 0 then k !in c.mailAttempts
             else
               && k in c.mailAttempts && c.mailAttempts[k].value == f
               && c.mailAttempts[k].deadline.Some?
               && c.mailAttempts[k].deadline.value >= c.mailHash[k].deadline.value)
  }

  // The email-code key an effect writes, if any.
  function Touched(e: Effect): Option<MailKey> {
    match e
    case IssueMail(k, _) => Some(k)
    case Miss(k) => Some(k)
    case Prove(sid, email) => Some(MailKey(GuestScope(sid), email))
    case MoveEmail(uid, email) => Some(MailKey(UserScope(uid), email))
    case _ => None
  }

  // Two caches agree on one code and its attempts.
  ghost predicate SameMail(c: Cache, d: Cache, k: MailKey) {
    && (k in c.mailHash <==> k in d.mailHash) && (k in c.mailHash ==> c.mailHash[k] == d.mailHash[k])
    && (k in c.mailAttempts <==> k in d.mailAttempts)
    && (k in c.mailAttempts ==> c.mailAttempts[k] == d.mailAttempts[k])
  }

  lemma OtherIssue(c: Cache, j: MailKey, k: MailKey, code: string, now: int)
    requires j != k
    ensures SameMail(SetMailHashAndRate(c, j, code, now), c, k)
  {
  }

  lemma OtherMiss(c: Cache, j: MailKey, k: MailKey, now: int)
    requires j != k
    ensures SameMail(MissMail(c, j, now), c, k)
  {
  }

  lemma OtherDelete(c: Cache, j: MailKey, k: MailKey)
    requires j != k
    ensures SameMail(DeleteMailOtp(c, j), c, k)
  {
  }

  lemma UntouchedMail(w: World, now: int, e: Effect, k: MailKey)
    requires Applies(w, e) && Touched(e) != Some(k)
    ensures SameMail(Perform(w, now, e).cache, w.cache, k)
  {
    match e
    case IssueMail(j, code) => OtherIssue(w.cache, j, k, code, now);
    case Miss(j) => OtherMiss(w.cache, j, k, now);
    case Prove(sid, email) =>
      var j := MailKey(GuestScope(sid), email);
      OtherDelete(w.cache.(proven := SetKey(w.cache.proven, j, true, now, PROVEN_TTL)), j, k);
    case MoveEmail(uid, email) => OtherDelete(w.cache, MailKey(UserScope(uid), email), k);
    case _ =>
  }

  lemma UntouchedMisses(w: World, now: int, e: Effect, k: MailKey)
    requires Applies(w, e) && Touched(e) != Some(k)
    ensures Misses(Perform(w, now, e).log, k) == Misses(w.log, k)
  {
  }

  lemma MissCounts(w: World, now: int, k: MailKey)
    requires Live(w.cache.mailHash, k, now) && MissesCounted(w, k, now)
    ensures MissesCounted(Perform(w, now, Miss(k)), k, now)
  {
  }

  lemma PerformCountsMisses(w: World, now: int, e: Effect, k: MailKey)
    requires Applies(w, e) && MailGuard(w, now, e) && MissesCounted(w, k, now)
    ensures MissesCounted(Perform(w, now, e), k, now)
  {
    if Touched(e) != Some(k) {
      UntouchedMail(w, now, e, k);
      UntouchedMisses(w, now, e, k);
    } else if e.Miss? {
      MissCounts(w, now, k);
    }
  }

  lemma {:induction false} RunCountsMisses(r: Run, k: MailKey, t: int)
    requires Forward(r, t)
    ensures MissesCounted(After(r), k, t)
  {
    if r.Next? {
      RunCountsMisses(r.before, k, r.now);
      var w, d := After(r.before), Decide(After(r.before), r.now, r.call);
      if d.effect.Some? { PerformCountsMisses(w, r.now, d.effect.value, k); }
    }
  }

  /** Every issued code suffers at most five failed comparisons, the fifth burns
      it, and while it is live the attempts key reads exactly the failures so far. */
  lemma FiveMissesPerCode(r: Run, k: MailKey, now: int)
    requires Forward(r, now)
    ensures var w := After(r);
            && Misses(w.log, k) <= MAX_ATTEMPTS
            && (Live(w.cache.mailHash, k, now) ==>
                  Misses(w.log, k) < MAX_ATTEMPTS &&
                  CountOr0(w.cache.mailAttempts, k, now) == Misses(w.log, k))
  {
    RunCountsMisses(r, k, now);
  }

  /* ---------- chain of custody ---------- */

  ghost predicate OpensWithinProofs(w: World, sid: string, email: string) {
    Opens(w.log, sid, email) + One(MailKey(GuestScope(sid), email) in w.cache.proven) <= Proofs(w.log, sid, email)
  }

  ghost predicate ProofsWithinIssues(w: World, sid: string, email: string) {
    var k := MailKey(GuestScope(sid), email);
    Proofs(w.log, sid, email) + One(k in w.cache.mailHash) <= Issues(w.log, k)
  }

  ghost predicate GuestCustody(w: World, sid: string, email: string) {
    OpensWithinProofs(w, sid, email) && ProofsWithinIssues(w, sid, email)
  }

  ghost predicate UserCustody(w: World, uid: nat, email: string) {
    var k := MailKey(UserScope(uid), email);
    Moves(w.log, uid, email) + One(k in w.cache.mailHash) <= Issues(w.log, k)
  }

  lemma PerformKeepsOpens(w: World, now: int, e: Effect, sid: string, email: string)
    requires Applies(w, e) && MailGuard(w, now, e) && OpensWithinProofs(w, sid, email)
    ensures OpensWithinProofs(Perform(w, now, e), sid, email)
  {
  }

  lemma PerformKeepsProofs(w: World, now: int, e: Effect, sid: string, email: string)
    requires Applies(w, e) && MailGuard(w, now, e) && ProofsWithinIssues(w, sid, email)
    ensures ProofsWithinIssues(Perform(w, now, e), sid, email)
  {
    if Touched(e) != Some(MailKey(GuestScope(sid), email)) {
      UntouchedMail(w, now, e, MailKey(GuestScope(sid), email));
    }
  }

  lemma PerformKeepsUserCustody(w: World, now: int, e: Effect, uid: nat, email: string)
    requires Applies(w, e) && MailGuard(w, now, e) && UserCustody(w, uid, email)
    ensures UserCustody(Perform(w, now, e), uid, email)
  {
    if Touched(e) != Some(MailKey(UserScope(uid), email)) {
      UntouchedMail(w, now, e, MailKey(UserScope(uid), email));
    }
  }

  /** Accounts opened and a pending proof never outnumber the proofs; proofs and
      a live code never outnumber the codes sent to that address. */
  lemma {:induction false} ChainOfCustody(r: Run, sid: string, uid: nat, email: string)
    ensures GuestCustody(After(r), sid, email) && UserCustody(After(r), uid, email)
  {
    if r.Next? {
      ChainOfCustody(r.before, sid, uid, email);
      var w, d := After(r.before), Decide(After(r.before), r.now, r.call);
      if d.effect.Some? {
        PerformKeepsOpens(w, r.now, d.effect.value, sid, email);
        PerformKeepsProofs(w, r.now, d.effect.value, sid, email);
        PerformKeepsUserCustody(w, r.now, d.effect.value, uid, email);
      }
    }
  }

  /* ---------- only the latest code, and only in time ---------- */

  // The key's most recent code and when it was issued.
  function LatestCode(log: Trace, k: MailKey): Option<(string, int)> {
    match log
    case Start => None
    case Then(prior, MailIssued(j, code, at)) => if j == k then Some((code, at)) else LatestCode(prior, k)
    case Then(prior, _) => LatestCode(prior, k)
  }

  function LatestProof(log: Trace, sid: string, email: string): Option<int> {
    match log
    case Start => None
    case Then(prior, MailProven(s, e, at)) =>
      if s == sid && e == email then Some(at) else LatestProof(prior, sid, email)
    case Then(prior, _) => LatestProof(prior, sid, email)
  }

  ghost predicate HashIsLatest(w: World, k: MailKey) {
    k in w.cache.mailHash ==>
      var latest := LatestCode(w.log, k);
      latest.Some? && w.cache.mailHash[k] == Cell(latest.value.0, Some(latest.value.1 + OTP_TTL))
  }

  ghost predicate MarkerIsLatest(w: World, sid: string, email: string) {
    var k := MailKey(GuestScope(sid), email);
    k in w.cache.proven ==>
      var latest := LatestProof(w.log, sid, email);
      latest.Some? && w.cache.proven[k] == Cell(true, Some(latest.value + PROVEN_TTL))
  }

  lemma PerformKeepsLatest(w: World, now: int, e: Effect, k: MailKey)
    requires Applies(w, e) && HashIsLatest(w, k)
    ensures HashIsLatest(Perform(w, now, e), k)
  {
    if Touched(e) != Some(k) { UntouchedMail(w, now, e, k); }
  }

  lemma PerformKeepsMarker(w: World, now: int, e: Effect, sid: string, email: string)
    requires Applies(w, e) && MarkerIsLatest(w, sid, email)
    ensures MarkerIsLatest(Perform(w, now, e), sid, email)
  {
  }

  lemma {:induction false} RunKeepsLatest(r: Run, k: MailKey)
    ensures HashIsLatest(After(r), k)
    ensures k.scope.GuestScope? ==> MarkerIsLatest(After(r), k.scope.sid, k.email)
  {
    if r.Next? {
      RunKeepsLatest(r.before, k);
      var w, d := After(r.before), Decide(After(r.before), r.now, r.call);
      if d.effect.Some? {
        PerformKeepsLatest(w, r.now, d.effect.value, k);
        if k.scope.GuestScope? { PerformKeepsMarker(w, r.now, d.effect.value, k.scope.sid, k.email); }
      }
    }
  }

  // What an email effect needs of the history: the latest code for the key,
  // under ten minutes old, or a proof under thirty minutes old.
  ghost predicate InTime(log: Trace, k: MailKey, otp: string, now: int) {
    var latest := LatestCode(log, k);
    latest.Some? && latest.value.0 == otp && now < latest.value.1 + OTP_TTL
  }

  lemma GuessInTime(r: Run, now: int, k: MailKey, otp: string)
    requires DecideGuess(After(r), now, k, otp).None?
    ensures InTime(After(r).log, k, otp, now)
  {
    RunKeepsLatest(r, k);
  }

  /** VerifyEmail and VerifyEmailUpdate succeed only on the latest code of their
      own key within its ten minutes. */
  lemma ProofNeedsLatestCode(r: Run, now: int, c: Call)
    requires c.VerifyEmail? || c.VerifyEmailUpdate?
    requires var reply := Decide(After(r), now, c).reply; reply.MailVerified? || reply.MailMoved?
    ensures c.email.Some?
    ensures var scope := if c.VerifyEmail? then GuestScope(TrimSpace(c.sid)) else UserScope(c.uid);
            InTime(After(r).log, MailKey(scope, c.email.value), c.otp, now)
  {
    if c.VerifyEmail? {
      GuessInTime(r, now, MailKey(GuestScope(TrimSpace(c.sid)), c.email.value), c.otp);
    } else {
      GuessInTime(r, now, MailKey(UserScope(c.uid), c.email.value), c.otp);
    }
  }

  /** Register succeeds only within thirty minutes of a proof by its own session. */
  lemma RegisterNeedsRecentProof(r: Run, now: int, c: Call)
    requires c.Register? && Decide(After(r), now, c).reply.CodeSent?
    ensures c.email.Some?
    ensures var proof := LatestProof(After(r).log, TrimSpace(c.sid), c.email.value);
            proof.Some? && now < proof.value + PROVEN_TTL
  {
    RegisterSawMarker(After(r), now, c);
    RunKeepsLatest(r, MailKey(GuestScope(TrimSpace(c.sid)), c.email.value));
  }

  lemma RegisterSawMarker(w: World, now: int, c: Call)
    requires c.Register?
    ensures Decide(w, now, c).reply.CodeSent? ==>
              c.email.Some? && Live(w.cache.proven, MailKey(GuestScope(TrimSpace(c.sid)), c.email.value), now)
  {
    assert Decide(w, now, c) == DecideRegister(w, now, c);
  }

  // Who last stored this email in the user's row, and under which scope.
  function Origin(log: Trace, uid: nat, email: string): Option<MailKey> {
    match log
    case Start => None
    case Then(prior, Opened(s, e, u)) =>
      if u == uid && e == email then Some(MailKey(GuestScope(s), e)) else Origin(prior, uid, email)
    case Then(prior, Moved(u, e)) =>
      if u == uid && e == email then Some(MailKey(UserScope(u), e)) else Origin(prior, uid, email)
    case Then(prior, _) => Origin(prior, uid, email)
  }

  lemma {:induction false} OriginSpent(log: Trace, uid: nat, email: string)
    ensures match Origin(log, uid, email)
            case None => true
            case Some(MailKey(GuestScope(sid), e)) => e == email && Opens(log, sid, email) >= 1
            case Some(MailKey(UserScope(u), e)) => e == email && u == uid && Moves(log, uid, email) >= 1
  {
    if log.Then? { OriginSpent(log.prior, uid, email); }
  }

  ghost predicate EmailsHaveOrigins(w: World) {
    forall uid: nat | uid < |w.db.users| :: Origin(w.log, uid, w.db.users[uid].email).Some?
  }

  lemma PerformKeepsOrigins(w: World, now: int, e: Effect)
    requires Applies(w, e) && EmailsHaveOrigins(w)
    ensures EmailsHaveOrigins(Perform(w, now, e))
  {
    var v := Perform(w, now, e);
    forall uid: nat | uid < |v.db.users|
      ensures Origin(v.log, uid, v.db.users[uid].email).Some?
    {
      if uid < |w.db.users| { assert Origin(w.log, uid, w.db.users[uid].email).Some?; }
    }
  }

  lemma {:induction false} RunKeepsOrigins(r: Run)
    ensures EmailsHaveOrigins(After(r))
  {
    if r.Next? {
      RunKeepsOrigins(r.before);
      var w, d := After(r.before), Decide(After(r.before), r.now, r.call);
      if d.effect.Some? { PerformKeepsOrigins(w, r.now, d.effect.value); }
    }
  }

  /** Every stored email was proven by a code sent to that very address: k is the
      guest session that registered this user with it, or this user, who moved to it. */
  lemma StoredEmailIsProven(r: Run, uid: nat) returns (k: MailKey)
    requires uid < |After(r).db.users|
    ensures k.email == After(r).db.users[uid].email
    ensures Issues(After(r).log, k) >= 1
    ensures Origin(After(r).log, uid, k.email) == Some(k)
    ensures match k.scope
            case GuestScope(sid) =>
              Issues(After(r).log, k) >= Proofs(After(r).log, sid, k.email) >= Opens(After(r).log, sid, k.email) >= 1
            case UserScope(u) => u == uid && Issues(After(r).log, k) >= Moves(After(r).log, uid, k.email) >= 1
  {
    var w := After(r);
    var email := w.db.users[uid].email;
    RunKeepsOrigins(r);
    OriginSpent(w.log, uid, email);
    k := Origin(w.log, uid, email).value;
    match k.scope {
      case GuestScope(sid) => ChainOfCustody(r, sid, uid, email);
      case UserScope(u) => ChainOfCustody(r, "", uid, email);
    }
  }

  /* ---------- issue limits ---------- */

  ghost predicate MailPaced(w: World, k: MailKey, t: int) {
    var times := MailTimes(w.log, k);
    && Counts(w.cache.mailRate, k, times, RATE_WINDOW)
    && PerWindow(times, RATE_WINDOW, MAX_OTP_RATE) && Ascending(times, t)
  }

  ghost predicate PhonePaced(w: World, k: PhoneKey, t: int) {
    var times := PhoneTimes(w.log, k);
    && Counts(w.cache.otpRate, k, times, RATE_WINDOW)
    && PerWindow(times, RATE_WINDOW, MAX_OTP_RATE) && Ascending(times, t)
  }

  lemma OtherBump<K>(m: Keys<K, int>, j: K, k: K, times: seq<int>, ttl: int, now: int)
    requires j != k && Counts(m, k, times, ttl)
    ensures Counts(Bump(m, j, now, ttl), k, times, ttl)
  {
  }

  lemma PerformPacesMail(w: World, now: int, e: Effect, k: MailKey)
    requires Applies(w, e) && MailGuard(w, now, e) && MailPaced(w, k, now)
    ensures MailPaced(Perform(w, now, e), k, now)
  {
    if e.IssueMail? {
      var times := MailTimes(w.log, k);
      if e.key == k {
        BumpCounts(w.cache.mailRate, k, times, RATE_WINDOW, MAX_OTP_RATE, now);
      } else {
        OtherBump(w.cache.mailRate, e.key, k, times, RATE_WINDOW, now);
        assert times + [] == times;
      }
    }
  }

  lemma BumpPacesPhone(w: World, now: int, to: PhoneKey, k: PhoneKey)
    requires PhonePaced(w, k, now) && CountOr0(w.cache.otpRate, to, now) < MAX_OTP_RATE
    ensures var times := PhoneTimes(w.log, k) + if to == k then [now] else [];
            && Counts(Bump(w.cache.otpRate, to, now, RATE_WINDOW), k, times, RATE_WINDOW)
            && PerWindow(times, RATE_WINDOW, MAX_OTP_RATE) && Ascending(times, now)
  {
    var times := PhoneTimes(w.log, k);
    if to == k {
      BumpCounts(w.cache.otpRate, k, times, RATE_WINDOW, MAX_OTP_RATE, now);
    } else {
      OtherBump(w.cache.otpRate, to, k, times, RATE_WINDOW, now);
      assert times + [] == times;
    }
  }

  lemma PerformPacesPhone(w: World, now: int, e: Effect, k: PhoneKey)
    requires Applies(w, e) && PhoneGuard(w, now, e) && PhonePaced(w, k, now)
    ensures PhonePaced(Perform(w, now, e), k, now)
  {
    match e
    case OpenAccount(_, u, _, _) => BumpPacesPhone(w, now, PhoneOf(u), k);
    case IssuePhone(uid, _, _) => BumpPacesPhone(w, now, PhoneOf(w.db.users[uid]), k);
    case _ =>
  }

  lemma {:induction false} RunPacesMail(r: Run, k: MailKey, t: int)
    requires Forward(r, t)
    ensures MailPaced(After(r), k, t)
  {
    if r.Next? {
      RunPacesMail(r.before, k, r.now);
      var w, d := After(r.before), Decide(After(r.before), r.now, r.call);
      if d.effect.Some? { PerformPacesMail(w, r.now, d.effect.value, k); }
    }
  }

  lemma {:induction false} RunPacesPhone(r: Run, k: PhoneKey, t: int)
    requires Forward(r, t)
    ensures PhonePaced(After(r), k, t)
  {
    if r.Next? {
      RunPacesPhone(r.before, k, r.now);
      var w, d := After(r.before), Decide(After(r.before), r.now, r.call);
      if d.effect.Some? { PerformPacesPhone(w, r.now, d.effect.value, k); }
    }
  }

  /** Per scope and address, and per phone and role, at most five codes fall in
      one lifetime of the rate key and at most ten in any hour. */
  lemma IssueLimits(r: Run, mail: MailKey, phone: PhoneKey, t: int, s: int)
    requires Forward(r, t)
    ensures var m, p := MailTimes(After(r).log, mail), PhoneTimes(After(r).log, phone);
            && PerWindow(m, RATE_WINDOW, MAX_OTP_RATE) && PerWindow(p, RATE_WINDOW, MAX_OTP_RATE)
            && |During(m, s, RATE_WINDOW)| <= 10 && |During(p, s, RATE_WINDOW)| <= 10
  {
    RunPacesMail(r, mail, t);
    RunPacesPhone(r, phone, t);
    AnyWindowLength(MailTimes(After(r).log, mail), RATE_WINDOW, MAX_OTP_RATE, s);
    AnyWindowLength(PhoneTimes(After(r).log, phone), RATE_WINDOW, MAX_OTP_RATE, s);
  }
}
