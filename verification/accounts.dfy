/** The Postgres tables of the users service: rows, lookups and the writes that
    unique indexes, CHECK constraints and column widths may refuse. Row ids are
    positions; newer rows come later. */
module Accounts {
  import opened Common
  import opened Text

  datatype Role = Client | RestaurantOwner | RestaurantManager | Driver

  datatype User = User(phone: string, role: Role, name: string, email: string, referral: string,
                       emailVerified: bool, phoneVerified: bool, suspended: bool, deleted: bool)

  // The stored hash stands for the code it was made from: a comparison succeeds
  // exactly for that code.
  datatype OtpRow = OtpRow(uid: nat, device: string, hash: string, expiresAt: int, verified: bool,
                           attempts: int, resends: int, blockedUntil: Option<int>)

  datatype SessionRow = SessionRow(uid: nat, role: Role, phone: string, device: string, active: bool)

  datatype Action = Create | Login | Logout | EmailUpdate

  datatype AuditRow = AuditRow(actor: nat, action: Action, entity: nat)

  datatype Tables = Tables(users: seq<User>, otps: seq<OtpRow>, sessions: seq<SessionRow>, audit: seq<AuditRow>)

  datatype DbError = Conflict | NotFound | CheckViolation | TooLong

  const MAX_ATTEMPTS := 5

  // VARCHAR widths, in characters. A device id may be longer in otp_requests
  // than in sessions.
  const PHONE_WIDTH := 15
  const NAME_WIDTH := 100
  const EMAIL_WIDTH := 255
  const REFERRAL_WIDTH := 20
  const OTP_DEVICE_WIDTH := 255
  const SESSION_DEVICE_WIDTH := 100

  /* ---------- users ---------- */

  function Btrim(s: string): string { BtrimRight(BtrimLeft(s)) }

  function BtrimLeft(s: string): string {
    if s != [] && s[0] == ' ' then BtrimLeft(s[1..]) else s
  }

  function BtrimRight(s: string): string {
    if s != [] && s[|s| - 1] == ' ' then BtrimRight(s[..|s| - 1]) else s
  }

  // lower(btrim(email)), the expression the unique index is built on.
  function EmailKey(email: string): string { Lower(Btrim(email)) }

  predicate Blanks(s: string) { forall i | 0 <= i < |s| :: s[i] == ' ' }

  lemma {:induction false} BtrimLeftDrops(lead: string, s: string)
    requires Blanks(lead) && (s != "" ==> s[0] != ' ')
    ensures BtrimLeft(lead + s) == s
  {
    if lead == "" {
      assert lead + s == s;
    } else {
      assert (lead + s)[1..] == lead[1..] + s;
      BtrimLeftDrops(lead[1..], s);
    }
  }

  lemma {:induction false} BtrimRightDrops(s: string, trail: string)
    requires Blanks(trail) && (s != "" ==> s[|s| - 1] != ' ')
    ensures BtrimRight(s + trail) == s
  {
    if trail == "" {
      assert s + trail == s;
    } else {
      var n := |trail| - 1;
      assert (s + trail)[..|s + trail| - 1] == s + trail[..n];
      BtrimRightDrops(s, trail[..n]);
    }
  }

  /** The unique index folds an address to its letters in lower case, without the
      blanks around it, and nothing else. */
  lemma EmailKeyFolds(lead: string, s: string, trail: string)
    requires Blanks(lead) && Blanks(trail) && (s != "" ==> s[0] != ' ' && s[|s| - 1] != ' ')
    ensures var key := EmailKey(lead + s + trail);
            |key| == |s| && forall i | 0 <= i < |s| ::
              key[i] == if 'A' <= s[i] <= 'Z' then ((s[i] as int) + 32) as char else s[i]
  {
    if s == "" {
      assert lead + s + trail == (lead + trail) + "";
      BtrimLeftDrops(lead + trail, "");
      assert BtrimRight("") == "";
    } else {
      assert lead + s + trail == lead + (s + trail);
      BtrimLeftDrops(lead, s + trail);
      BtrimRightDrops(s, trail);
    }
    FoldsEachLetter(s);
  }

  predicate HoldsPhone(u: User, phone: string, role: Role) {
    !u.deleted && u.phone == phone && u.role == role
  }

  // A row the partial email index covers under this key.
  predicate HoldsEmail(u: User, key: string, role: Role) {
    !u.deleted && u.role == role && EmailKey(u.email) == key && key != ""
  }

  predicate PhoneTaken(us: seq<User>, phone: string, role: Role) {
    exists i | 0 <= i < |us| :: HoldsPhone(us[i], phone, role)
  }

  predicate EmailTaken(us: seq<User>, email: string, role: Role) {
    exists i | 0 <= i < |us| :: HoldsEmail(us[i], EmailKey(email), role)
  }

  function FindUser(us: seq<User>, phone: string, role: Role): (r: Option<nat>)
    ensures r.Some? ==> r.value < |us| && HoldsPhone(us[r.value], phone, role)
    ensures r.None? <==> !PhoneTaken(us, phone, role)
  {
    if us == [] then None
    else if HoldsPhone(us[|us| - 1], phone, role) then Some(|us| - 1)
    else FindUser(us[..|us| - 1], phone, role)
  }

  predicate LiveUser(us: seq<User>, uid: nat) { uid < |us| && !us[uid].deleted }

  function NewUser(phone: string, role: Role, name: string, email: string, referral: string): User {
    User(phone, role, name, email, referral, true, false, false, false)
  }

  predicate FitsUser(u: User) {
    |u.phone| <= PHONE_WIDTH && |u.name| <= NAME_WIDTH && |u.email| <= EMAIL_WIDTH && |u.referral| <= REFERRAL_WIDTH
  }

  // INSERT INTO users: the widths are checked first, then both unique indexes.
  function CreateUser(t: Tables, u: User): Result<Tables, DbError> {
    if !FitsUser(u) then Err(TooLong)
    else if PhoneTaken(t.users, u.phone, u.role) || EmailTaken(t.users, u.email, u.role) then Err(Conflict)
    else Ok(t.(users := t.users + [u]))
  }

  predicate KeyHeldByOther(us: seq<User>, uid: nat, email: string)
    requires uid < |us|
  {
    exists i | 0 <= i < |us| :: i != uid && HoldsEmail(us[i], EmailKey(email), us[uid].role)
  }

  // UPDATE users SET email: another live row under the new key is a conflict.
  function UpdateUserEmail(t: Tables, uid: nat, email: string): Result<Tables, DbError> {
    if !LiveUser(t.users, uid) then Err(NotFound)
    else if |email| > EMAIL_WIDTH then Err(TooLong)
    else if KeyHeldByOther(t.users, uid, email) then Err(Conflict)
    else Ok(t.(users := t.users[uid := t.users[uid].(email := email, emailVerified := true)]))
  }

  function MarkUserPhoneVerified(t: Tables, uid: nat): Tables {
    if uid < |t.users| then t.(users := t.users[uid := t.users[uid].(phoneVerified := true)]) else t
  }

  /* ---------- OTP rows ---------- */

  predicate ActiveFor(o: OtpRow, uid: nat, now: int) { o.uid == uid && !o.verified && o.expiresAt > now }

  predicate UnverifiedFor(o: OtpRow, uid: nat, device: string) {
    o.uid == uid && o.device == device && !o.verified
  }

  function LatestActive(os: seq<OtpRow>, uid: nat, now: int): (r: Option<nat>)
    ensures r.Some? ==> r.value < |os| && ActiveFor(os[r.value], uid, now)
    ensures forall i | 0 <= i < |os| && ActiveFor(os[i], uid, now) :: r.Some? && i <= r.value
  {
    if os == [] then None
    else if ActiveFor(os[|os| - 1], uid, now) then Some(|os| - 1)
    else LatestActive(os[..|os| - 1], uid, now)
  }

  function LatestUnverified(os: seq<OtpRow>, uid: nat, device: string): (r: Option<nat>)
    ensures r.Some? ==> r.value < |os| && UnverifiedFor(os[r.value], uid, device)
    ensures forall i | 0 <= i < |os| && UnverifiedFor(os[i], uid, device) :: r.Some? && i <= r.value
  {
    if os == [] then None
    else if UnverifiedFor(os[|os| - 1], uid, device) then Some(|os| - 1)
    else LatestUnverified(os[..|os| - 1], uid, device)
  }

  function NewOtp(uid: nat, device: string, hash: string, expiresAt: int): OtpRow {
    OtpRow(uid, device, hash, expiresAt, false, 0, 0, None)
  }

  // The row's phone is its account's, which fits.
  function CreateOtp(t: Tables, uid: nat, device: string, hash: string, expiresAt: int): Result<Tables, DbError> {
    if |device| > OTP_DEVICE_WIDTH then Err(TooLong)
    else Ok(t.(otps := t.otps + [NewOtp(uid, device, hash, expiresAt)]))
  }

  function IncrementResends(t: Tables, row: nat): Result<Tables, DbError> {
    if row >= |t.otps| then Ok(t)
    else if t.otps[row].resends + 1 > 5 then Err(CheckViolation)
    else Ok(t.(otps := t.otps[row := t.otps[row].(resends := t.otps[row].resends + 1)]))
  }

  function IncrementAttempts(t: Tables, row: nat): Result<Tables, DbError> {
    if row >= |t.otps| then Ok(t)
    else if t.otps[row].attempts + 1 > MAX_ATTEMPTS then Err(CheckViolation)
    else Ok(t.(otps := t.otps[row := t.otps[row].(attempts := t.otps[row].attempts + 1)]))
  }

  function SetBlocked(t: Tables, row: nat, until: int): Tables {
    if row < |t.otps| then t.(otps := t.otps[row := t.otps[row].(blockedUntil := Some(until))]) else t
  }

  function MarkOtpVerified(t: Tables, row: nat): Result<Tables, DbError> {
    if row >= |t.otps| then Ok(t)
    else if t.otps[row].attempts + 1 > MAX_ATTEMPTS then Err(CheckViolation)
    else Ok(t.(otps := t.otps[row := t.otps[row].(verified := true, attempts := t.otps[row].attempts + 1)]))
  }

  function CountVerified(os: seq<OtpRow>, uid: nat): nat {
    if os == [] then 0
    else CountVerified(os[..|os| - 1], uid)
         + if os[|os| - 1].uid == uid && os[|os| - 1].verified then 1 else 0
  }

  /* ---------- sessions and audit ---------- */

  function CreateSession(t: Tables, uid: nat, role: Role, phone: string, device: string): Result<Tables, DbError> {
    if |device| > SESSION_DEVICE_WIDTH then Err(TooLong)
    else Ok(t.(sessions := t.sessions + [SessionRow(uid, role, phone, device, true)]))
  }

  function Deactivate(t: Tables, session: nat): Tables {
    if session < |t.sessions| then
      t.(sessions := t.sessions[session := t.sessions[session].(active := false)])
    else t
  }

  function Audit(t: Tables, actor: nat, action: Action, entity: nat): Tables {
    t.(audit := t.audit + [AuditRow(actor, action, entity)])
  }

  function CountSessions(ss: seq<SessionRow>, uid: nat): nat {
    if ss == [] then 0
    else CountSessions(ss[..|ss| - 1], uid) + if ss[|ss| - 1].uid == uid then 1 else 0
  }

  function CountLogins(rows: seq<AuditRow>, uid: nat): nat {
    if rows == [] then 0
    else
      var last := rows[|rows| - 1];
      CountLogins(rows[..|rows| - 1], uid) + if last.actor == uid && last.action == Login then 1 else 0
  }

  /* ---------- counts under row updates ---------- */

  lemma {:induction false} VerifyingCounts(os: seq<OtpRow>, row: nat, o: OtpRow, uid: nat)
    requires row < |os| && !os[row].verified && o.uid == os[row].uid
    ensures CountVerified(os[row := o], uid) ==
            CountVerified(os, uid) + if o.verified && o.uid == uid then 1 else 0
  {
    var n := |os| - 1;
    if row == n {
      assert os[row := o][..n] == os[..n];
    } else {
      assert os[row := o][..n] == os[..n][row := o];
      VerifyingCounts(os[..n], row, o, uid);
    }
  }

  lemma {:induction false} DeactivatingKeepsCount(ss: seq<SessionRow>, i: nat, s: SessionRow, uid: nat)
    requires i < |ss| && s.uid == ss[i].uid
    ensures CountSessions(ss[i := s], uid) == CountSessions(ss, uid)
  {
    var n := |ss| - 1;
    if i == n {
      assert ss[i := s][..n] == ss[..n];
    } else {
      assert ss[i := s][..n] == ss[..n][i := s];
      DeactivatingKeepsCount(ss[..n], i, s, uid);
    }
  }
}
