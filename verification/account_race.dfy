/** Concurrent Register and VerifyEmailUpdate calls, interleaved at every read,
    write and commit. A transaction's rows are invisible until it commits, but its
    user row reserves its unique-index keys: a second writer of the same key, or of
    the same row, waits for the first to finish. */
module AccountRace {
  import opened Accounts

  datatype Call =
    | Register(phone: string, role: Role, name: string, email: string, referral: string,
               device: string, code: string, expiresAt: int)
    | UpdateEmail(uid: nat, email: string)

  // The rows a transaction has written so far.
  datatype Tx = Tx(row: User, audit: seq<AuditRow>, otps: seq<OtpRow>)

  // How far a call has come. Open and Cached are inside the transaction; Cached
  // has written the phone code to Redis. Refused calls failed a pre-check,
  // Conflicted ones lost to a unique index, and Failed ones had a value too long
  // for its column; the last two rolled back.
  datatype Phase =
    | Ready
    | PhoneFree
    | Checked
    | Open(tx: Tx)
    | Cached(tx: Tx)
    | Committed
    | Refused
    | Conflicted
    | Failed

  datatype Proc = Proc(call: Call, phase: Phase)

  // The tables, the phone codes in Redis, and the calls under way. Calls have
  // distinct ids; the account a Register call opens takes its id.
  datatype System = System(users: map<nat, User>, audit: seq<AuditRow>, otps: seq<OtpRow>,
                           codes: map<(string, Role), string>, procs: map<nat, Proc>)

  const IDLE := System(map[], [], [], map[], map[])

  // Both partial unique indexes: two live rows of a role may share neither a
  // phone nor a non-blank lower(btrim(email)).
  predicate Clash(u: User, v: User) {
    && !u.deleted && !v.deleted && u.role == v.role
    && (u.phone == v.phone || (EmailKey(u.email) == EmailKey(v.email) && EmailKey(u.email) != ""))
  }

  function Inserted(c: Call): User
    requires c.Register?
  {
    NewUser(c.phone, c.role, c.name, c.email, c.referral)
  }

  function Moved(u: User, email: string): User { u.(email := email, emailVerified := true) }

  // The audit and OTP rows a call writes if it gets that far.
  function OwnAudit(pid: nat, c: Call): AuditRow {
    match c
    case Register(_, _, _, _, _, _, _, _) => AuditRow(pid, Create, pid)
    case UpdateEmail(uid, _) => AuditRow(uid, EmailUpdate, uid)
  }

  function OwnOtp(pid: nat, c: Call): OtpRow
    requires c.Register?
  {
    NewOtp(pid, c.device, c.code, c.expiresAt)
  }

  function Target(pid: nat, c: Call): nat { if c.Register? then pid else c.uid }

  predicate InTx(p: Proc) { p.phase.Open? || p.phase.Cached? }

  predicate Holding(s: System, pid: nat) { pid in s.procs && InTx(s.procs[pid]) }

  function RowOf(s: System, pid: nat): User
    requires Holding(s, pid)
  {
    s.procs[pid].phase.tx.row
  }

  function TargetOf(s: System, pid: nat): nat
    requires pid in s.procs
  {
    Target(pid, s.procs[pid].call)
  }

  // Another open transaction holds the row, or a key the new row needs.
  predicate Waits(s: System, pid: nat, target: nat, row: User) {
    exists q | q in s.procs :: q != pid && Holding(s, q) &&
      (TargetOf(s, q) == target || Clash(RowOf(s, q), row) ||
       (TargetOf(s, q) in s.users && Clash(s.users[TargetOf(s, q)], row)))
  }

  predicate IndexRefuses(s: System, target: nat, row: User) {
    exists uid | uid in s.users :: uid != target && Clash(s.users[uid], row)
  }

  predicate SomeHoldsPhone(s: System, phone: string, role: Role) {
    exists uid | uid in s.users :: HoldsPhone(s.users[uid], phone, role)
  }

  predicate SomeHoldsEmail(s: System, email: string, role: Role) {
    exists uid | uid in s.users :: HoldsEmail(s.users[uid], EmailKey(email), role)
  }

  function Move(s: System, pid: nat, phase: Phase): System
    requires pid in s.procs
  {
    s.(procs := s.procs[pid := s.procs[pid].(phase := phase)])
  }

  // The INSERT or UPDATE of users: fail on a width, wait, conflict, or hold the row.
  function WriteUser(s: System, pid: nat, row: User): System
    requires pid in s.procs
  {
    if !FitsUser(row) then Move(s, pid, Failed)
    else if Waits(s, pid, TargetOf(s, pid), row) then s
    else if IndexRefuses(s, TargetOf(s, pid), row) then Move(s, pid, Conflicted)
    else Move(s, pid, Open(Tx(row, [], [])))
  }

  // Publish the transaction's rows.
  function Commit(s: System, pid: nat): System
    requires Holding(s, pid)
  {
    var tx := s.procs[pid].phase.tx;
    Move(s, pid, Committed).(users := s.users[TargetOf(s, pid) := tx.row],
                             audit := s.audit + tx.audit, otps := s.otps + tx.otps)
  }

  // Register inside its transaction: audit row, OTP row, phone code, commit.
  function InsideRegister(s: System, pid: nat): System
    requires Holding(s, pid) && s.procs[pid].call.Register?
  {
    var c, tx := s.procs[pid].call, s.procs[pid].phase.tx;
    if s.procs[pid].phase.Cached? then Commit(s, pid)
    else if tx.audit == [] then Move(s, pid, Open(tx.(audit := [OwnAudit(pid, c)])))
    else if tx.otps == [] then
      Move(s, pid, if |c.device| > OTP_DEVICE_WIDTH then Failed else Open(tx.(otps := [OwnOtp(pid, c)])))
    else Move(s, pid, Cached(tx)).(codes := s.codes[(c.phone, c.role) := c.code])
  }

  // VerifyEmailUpdate inside its transaction: audit row, commit.
  function InsideUpdate(s: System, pid: nat): System
    requires Holding(s, pid)
  {
    var tx := s.procs[pid].phase.tx;
    if tx.audit == [] then Move(s, pid, Open(tx.(audit := [OwnAudit(pid, s.procs[pid].call)]))) else Commit(s, pid)
  }

  function AdvanceRegister(s: System, pid: nat): System
    requires pid in s.procs && s.procs[pid].call.Register?
  {
    var c := s.procs[pid].call;
    match s.procs[pid].phase
    case Ready => Move(s, pid, if SomeHoldsPhone(s, c.phone, c.role) then Refused else PhoneFree)
    case PhoneFree => Move(s, pid, if SomeHoldsEmail(s, c.email, c.role) then Refused else Checked)
    case Checked => WriteUser(s, pid, Inserted(c))
    case Open(_) => InsideRegister(s, pid)
    case Cached(_) => InsideRegister(s, pid)
    case _ => s
  }

  function AdvanceUpdate(s: System, pid: nat): System
    requires pid in s.procs && s.procs[pid].call.UpdateEmail?
  {
    var UpdateEmail(uid, email) := s.procs[pid].call;
    match s.procs[pid].phase
    case Ready =>
      Move(s, pid, if uid !in s.users || s.users[uid].deleted || SomeHoldsEmail(s, email, s.users[uid].role)
                   then Refused else Checked)
    case Checked =>
      if uid !in s.users || s.users[uid].deleted then Move(s, pid, Refused)
      else WriteUser(s, pid, Moved(s.users[uid], email))
    case Open(_) => InsideUpdate(s, pid)
    case _ => s
  }

  // The next step of one call.
  function Advance(s: System, pid: nat): System
    requires pid in s.procs
  {
    if s.procs[pid].call.Register? then AdvanceRegister(s, pid) else AdvanceUpdate(s, pid)
  }

  datatype Action = Begin(pid: nat, call: Call) | Run(pid: nat) | Delete(uid: nat)

  predicate RowHeld(s: System, uid: nat) {
    exists q | q in s.procs :: Holding(s, q) && TargetOf(s, q) == uid
  }

  function Next(s: System, a: Action): System {
    match a
    case Begin(pid, call) =>
      if pid in s.procs then s else s.(procs := s.procs[pid := Proc(call, Ready)])
    case Run(pid) => if pid in s.procs then Advance(s, pid) else s
    case Delete(uid) =>
      if uid in s.users && !RowHeld(s, uid) then s.(users := s.users[uid := s.users[uid].(deleted := true)])
      else s
  }

  // Any interleaving of any calls.
  datatype Schedule = Start | Then(prior: Schedule, action: Action)

  function After(sch: Schedule): System {
    match sch case Start => IDLE case Then(prior, a) => Next(After(prior), a)
  }

  /* ---------- what one step does ---------- */

  // A transaction holds only its own rows, in the source's order.
  ghost predicate Shaped(s: System, pid: nat) {
    Holding(s, pid) ==>
      var c, tx := s.procs[pid].call, s.procs[pid].phase.tx;
      && (tx.audit == [] || tx.audit == [OwnAudit(pid, c)])
      && match c
         case Register(_, _, _, _, _, _, _, _) =>
           && tx.row == Inserted(c)
           && (tx.otps == [] || (tx.otps == [OwnOtp(pid, c)] && tx.audit != []))
           && (s.procs[pid].phase.Cached? ==> tx.otps != [])
         case UpdateEmail(uid, email) =>
           s.procs[pid].phase.Open? && tx.otps == [] && uid in s.users && tx.row == Moved(s.users[uid], email)
  }

  ghost predicate SameTables(s: System, t: System) { t.users == s.users && t.audit == s.audit && t.otps == s.otps }

  ghost predicate SameStores(s: System, t: System) { SameTables(s, t) && t.codes == s.codes }

  // Call pid's whole outcome lands in the tables, and nothing else does.
  ghost predicate Publishes(s: System, t: System, pid: nat)
    requires pid in s.procs
  {
    var c := s.procs[pid].call;
    && t.codes == s.codes && t.audit == s.audit + [OwnAudit(pid, c)]
    && match c
       case Register(_, _, _, _, _, _, _, _) =>
         t.users == s.users[pid := Inserted(c)] && t.otps == s.otps + [OwnOtp(pid, c)]
       case UpdateEmail(uid, email) =>
         uid in s.users && t.users == s.users[uid := Moved(s.users[uid], email)] && t.otps == s.otps
  }

  ghost predicate WritesCode(s: System, t: System, pid: nat)
    requires pid in s.procs
  {
    var c := s.procs[pid].call;
    c.Register? && SameTables(s, t) && t.codes == s.codes[(c.phone, c.role) := c.code]
  }

  // What step s to t of call pid did, by the phases around it.
  ghost predicate Explains(s: System, t: System, pid: nat)
    requires pid in s.procs
  {
    && pid in t.procs && t.procs[pid].call == s.procs[pid].call && t.procs == s.procs[pid := t.procs[pid]]
    && var before, after := s.procs[pid].phase, t.procs[pid].phase;
    && (before.Committed? ==> after.Committed?)
    && (before.Cached? ==> after.Committed?)
    && (before.Committed? || before.Refused? || before.Conflicted? || before.Failed? ==> t == s)
    && (if after.Committed? && !before.Committed? then
          Publishes(s, t, pid) && (before.Cached? <==> s.procs[pid].call.Register?)
        else if after.Cached? then WritesCode(s, t, pid)
        else SameStores(s, t))
  }

  lemma InsideStep(s: System, pid: nat)
    requires Holding(s, pid) && Shaped(s, pid)
    ensures Explains(s, Advance(s, pid), pid) && Shaped(Advance(s, pid), pid)
  {
  }

  lemma OutsideStep(s: System, pid: nat)
    requires pid in s.procs && !Holding(s, pid)
    ensures Explains(s, Advance(s, pid), pid) && Shaped(Advance(s, pid), pid) && SameStores(s, Advance(s, pid))
  {
  }

  lemma AdvanceStep(s: System, pid: nat)
    requires pid in s.procs && Shaped(s, pid)
    ensures Explains(s, Advance(s, pid), pid) && Shaped(Advance(s, pid), pid)
  {
    if Holding(s, pid) { InsideStep(s, pid); } else { OutsideStep(s, pid); }
  }

  /* ---------- the invariant ---------- */

  ghost predicate UniqueUsers(s: System) {
    forall a, b | a in s.users && b in s.users && a != b :: !Clash(s.users[a], s.users[b])
  }

  // A held row clashes with no stored row but the one it replaces ...
  ghost predicate HeldVersusStored(s: System) {
    forall q, b | q in s.procs && Holding(s, q) && b in s.users && b != TargetOf(s, q) ::
      !Clash(RowOf(s, q), s.users[b])
  }

  // ... and with no other held row, nor do two calls hold the same row.
  ghost predicate HeldVersusHeld(s: System) {
    forall q, r | q in s.procs && r in s.procs && q != r && Holding(s, q) && Holding(s, r) ::
      TargetOf(s, q) != TargetOf(s, r) && !Clash(RowOf(s, q), RowOf(s, r))
  }

  ghost predicate AllShaped(s: System) { forall q | q in s.procs :: Shaped(s, q) }

  ghost predicate Exclusive(s: System) {
    UniqueUsers(s) && HeldVersusStored(s) && HeldVersusHeld(s)
  }

  lemma ClashSymmetric(u: User, v: User)
    ensures Clash(u, v) == Clash(v, u)
  {
  }

  // A step of pid that changes no user keeps exclusion unless pid starts to hold.
  lemma QuietKeeps(s: System, t: System, pid: nat)
    requires pid in s.procs && pid in t.procs && Exclusive(s) && t.users == s.users
    requires t.procs == s.procs[pid := t.procs[pid]] && t.procs[pid].call == s.procs[pid].call
    requires Holding(t, pid) ==> Holding(s, pid) && RowOf(t, pid) == RowOf(s, pid)
    ensures Exclusive(t)
  {
    assert forall q | q in t.procs && Holding(t, q) ::
        Holding(s, q) && RowOf(t, q) == RowOf(s, q) && TargetOf(t, q) == TargetOf(s, q);
  }

  lemma HoldKeeps(s: System, pid: nat, row: User)
    requires pid in s.procs && !Holding(s, pid) && Exclusive(s)
    requires !Waits(s, pid, TargetOf(s, pid), row) && !IndexRefuses(s, TargetOf(s, pid), row)
    ensures Exclusive(Move(s, pid, Open(Tx(row, [], []))))
  {
    var t := Move(s, pid, Open(Tx(row, [], [])));
    assert forall q | q in t.procs && q != pid ::
        (Holding(t, q) <==> Holding(s, q)) && TargetOf(t, q) == TargetOf(s, q) &&
        (Holding(s, q) ==> RowOf(t, q) == RowOf(s, q));
    forall q | q in s.procs && q != pid && Holding(s, q)
      ensures TargetOf(s, q) != TargetOf(s, pid) && !Clash(RowOf(s, q), row) && !Clash(row, RowOf(s, q))
    {
      ClashSymmetric(RowOf(s, q), row);
    }
    forall b | b in s.users && b != TargetOf(s, pid)
      ensures !Clash(row, s.users[b])
    {
      ClashSymmetric(row, s.users[b]);
    }
  }

  lemma CommitKeeps(s: System, pid: nat)
    requires Holding(s, pid) && Exclusive(s)
    ensures Exclusive(Commit(s, pid))
  {
    var t, target, row := Commit(s, pid), TargetOf(s, pid), RowOf(s, pid);
    assert forall q | q in t.procs && Holding(t, q) ::
        q != pid && Holding(s, q) && RowOf(t, q) == RowOf(s, q) && TargetOf(t, q) == TargetOf(s, q);
    forall b | b in t.users && b != target
      ensures !Clash(row, t.users[b]) && !Clash(t.users[b], row)
    {
      ClashSymmetric(row, s.users[b]);
    }
  }

  // The step took its row without waiting or conflicting.
  ghost predicate Takes(s: System, t: System, pid: nat)
    requires pid in s.procs
  {
    && !Holding(s, pid) && Holding(t, pid) && t == Move(s, pid, Open(Tx(RowOf(t, pid), [], [])))
    && !Waits(s, pid, TargetOf(s, pid), RowOf(t, pid)) && !IndexRefuses(s, TargetOf(s, pid), RowOf(t, pid))
  }

  // The ways a step can end.
  lemma AdvanceShapes(s: System, pid: nat)
    requires pid in s.procs
    ensures var t := Advance(s, pid);
            || (Holding(s, pid) && t == Commit(s, pid))
            || Takes(s, t, pid)
            || (t.users == s.users && (Holding(t, pid) ==> Holding(s, pid) && RowOf(t, pid) == RowOf(s, pid)))
  {
  }

  lemma AdvanceKeeps(s: System, pid: nat)
    requires pid in s.procs && Shaped(s, pid) && Exclusive(s)
    ensures Exclusive(Advance(s, pid))
  {
    AdvanceStep(s, pid);
    AdvanceShapes(s, pid);
    var t := Advance(s, pid);
    if Holding(s, pid) && t == Commit(s, pid) {
      CommitKeeps(s, pid);
    } else if Takes(s, t, pid) {
      HoldKeeps(s, pid, RowOf(t, pid));
    } else {
      QuietKeeps(s, t, pid);
    }
  }

  // Another call's step leaves the row a call holds as it was.
  lemma AdvanceKeepsShapes(s: System, pid: nat, q: nat)
    requires pid in s.procs && q in s.procs && q != pid && AllShaped(s) && HeldVersusHeld(s)
    ensures Shaped(Advance(s, pid), q)
  {
    AdvanceStep(s, pid);
    var t := Advance(s, pid);
    assert t.procs[q] == s.procs[q];
    if Holding(s, q) && t.users != s.users {
      assert Holding(s, pid) by { if !Holding(s, pid) { OutsideStep(s, pid); } }
      assert TargetOf(s, q) != TargetOf(s, pid);
    }
  }

  lemma DeleteKeeps(s: System, uid: nat)
    requires Exclusive(s)
    ensures Exclusive(Next(s, Delete(uid)))
  {
    DroppingKeeps(s, Next(s, Delete(uid)));
  }

  lemma DroppingKeeps(s: System, t: System)
    requires Exclusive(s) && t.procs == s.procs && t.users.Keys == s.users.Keys
    requires forall b | b in t.users :: t.users[b] == s.users[b] || t.users[b].deleted
    ensures Exclusive(t)
  {
    assert forall q | q in t.procs :: Holding(t, q) == Holding(s, q) && TargetOf(t, q) == TargetOf(s, q);
  }

  lemma DeleteKeepsShapes(s: System, uid: nat, q: nat)
    requires q in s.procs && Shaped(s, q)
    ensures Shaped(Next(s, Delete(uid)), q)
  {
    assert Holding(s, q) && TargetOf(s, q) == uid ==> RowHeld(s, uid);
  }

  lemma BeginKeeps(s: System, pid: nat, call: Call)
    requires Exclusive(s) && AllShaped(s)
    ensures Exclusive(Next(s, Begin(pid, call))) && AllShaped(Next(s, Begin(pid, call)))
  {
    var t := Next(s, Begin(pid, call));
    assert forall q | q in t.procs && Holding(t, q) ::
        q in s.procs && Holding(s, q) && RowOf(t, q) == RowOf(s, q) && TargetOf(t, q) == TargetOf(s, q);
    assert forall q | q in t.procs && Holding(t, q) :: Shaped(s, q) && t.procs[q] == s.procs[q];
  }

  /** In every interleaving live users stay unique by phone and role and by role
      and normalised email, and open transactions never hold clashing rows. */
  lemma {:induction false} LiveUsersStayUnique(sch: Schedule)
    ensures Exclusive(After(sch)) && AllShaped(After(sch))
  {
    if sch.Then? {
      LiveUsersStayUnique(sch.prior);
      var s := After(sch.prior);
      match sch.action
      case Begin(pid, call) => BeginKeeps(s, pid, call);
      case Run(pid) =>
        if pid in s.procs {
          AdvanceKeeps(s, pid);
          AdvanceStep(s, pid);
          forall q | q in Advance(s, pid).procs
            ensures Shaped(Advance(s, pid), q)
          {
            if q != pid { AdvanceKeepsShapes(s, pid, q); }
          }
        }
      case Delete(uid) =>
        DeleteKeeps(s, uid);
        forall q | q in s.procs
          ensures Shaped(Next(s, Delete(uid)), q)
        {
          DeleteKeepsShapes(s, uid, q);
        }
    }
  }

  /* ---------- the stores against the calls ---------- */

  ghost function Done(s: System): set<nat> { set q | q in s.procs && s.procs[q].phase.Committed? }

  ghost function DoneRegisters(s: System): set<nat> { set q | q in Done(s) && s.procs[q].call.Register? }

  // Users are the committed sign-ups, with the phone and role asked for.
  ghost predicate UsersMatch(s: System) {
    && s.users.Keys == DoneRegisters(s)
    && forall u | u in s.users ::
         u in s.procs && s.procs[u].call.Register? &&
         s.users[u].phone == s.procs[u].call.phone && s.users[u].role == s.procs[u].call.role
  }

  // Every committed call has one audit row, every committed sign-up one OTP row.
  ghost predicate RowsMatch(s: System) {
    |s.audit| == |Done(s)| && |s.otps| == |DoneRegisters(s)|
  }

  // A step that commits nothing.
  lemma QuietMatches(s: System, t: System)
    requires UsersMatch(s) && RowsMatch(s) && t.users.Keys == s.users.Keys && t.audit == s.audit && t.otps == s.otps
    requires forall u | u in s.users :: t.users[u].phone == s.users[u].phone && t.users[u].role == s.users[u].role
    requires forall q | q in s.procs :: q in t.procs && t.procs[q].call == s.procs[q].call
    requires Done(t) == Done(s)
    ensures UsersMatch(t) && RowsMatch(t)
  {
    assert DoneRegisters(t) == DoneRegisters(s);
  }

  lemma CommitGrows(s: System, t: System, pid: nat)
    requires pid in s.procs && pid in t.procs && t.procs == s.procs[pid := t.procs[pid]]
    requires t.procs[pid].call == s.procs[pid].call
    requires t.procs[pid].phase.Committed? && !s.procs[pid].phase.Committed?
    ensures pid !in Done(s) && Done(t) == Done(s) + {pid}
    ensures DoneRegisters(t) == if s.procs[pid].call.Register? then DoneRegisters(s) + {pid} else DoneRegisters(s)
  {
  }

  lemma CommitMatchesRows(s: System, t: System, pid: nat)
    requires RowsMatch(s) && pid in s.procs && Explains(s, t, pid)
    requires t.procs[pid].phase.Committed? && !s.procs[pid].phase.Committed?
    ensures RowsMatch(t)
  {
    CommitGrows(s, t, pid);
  }

  lemma CommitMatchesUsers(s: System, t: System, pid: nat)
    requires UsersMatch(s) && pid in s.procs && Explains(s, t, pid)
    requires t.procs[pid].phase.Committed? && !s.procs[pid].phase.Committed?
    ensures UsersMatch(t)
  {
    CommitGrows(s, t, pid);
  }

  lemma AdvanceMatches(s: System, pid: nat)
    requires pid in s.procs && Shaped(s, pid) && UsersMatch(s) && RowsMatch(s)
    ensures UsersMatch(Advance(s, pid)) && RowsMatch(Advance(s, pid))
  {
    AdvanceStep(s, pid);
    var t := Advance(s, pid);
    if t.procs[pid].phase.Committed? && !s.procs[pid].phase.Committed? {
      CommitMatchesUsers(s, t, pid);
      CommitMatchesRows(s, t, pid);
    } else {
      assert Done(t) == Done(s);
      QuietMatches(s, t);
    }
  }

  lemma OtherActionMatches(s: System, a: Action)
    requires UsersMatch(s) && RowsMatch(s) && !a.Run?
    ensures UsersMatch(Next(s, a)) && RowsMatch(Next(s, a))
  {
    assert Done(Next(s, a)) == Done(s);
    QuietMatches(s, Next(s, a));
  }

  /** In every interleaving the stored users are exactly those of the committed
      Register calls, the audit and OTP tables have one row per committed call and
      per committed Register call, and an open email change has its user stored. */
  lemma {:induction false} EveryCallIsAccounted(sch: Schedule)
    ensures UsersMatch(After(sch)) && RowsMatch(After(sch))
    ensures forall q | Holding(After(sch), q) && After(sch).procs[q].call.UpdateEmail? ::
              TargetOf(After(sch), q) in After(sch).users
  {
    LiveUsersStayUnique(sch);
    if sch.Then? {
      EveryCallIsAccounted(sch.prior);
      LiveUsersStayUnique(sch.prior);
      var s, a := After(sch.prior), sch.action;
      if a.Run? {
        if a.pid in s.procs { AdvanceMatches(s, a.pid); }
      } else {
        OtherActionMatches(s, a);
      }
    }
    assert forall q | Holding(After(sch), q) :: Shaped(After(sch), q);
  }

  /* ---------- what each call leaves behind ---------- */

  // No step of the call changed a table.
  ghost predicate LeftTables(sch: Schedule, pid: nat) {
    match sch
    case Start => true
    case Then(prior, a) => LeftTables(prior, pid) && (a == Run(pid) ==> SameTables(After(prior), After(sch)))
  }

  // No step of the call wrote a phone code.
  ghost predicate LeftCodes(sch: Schedule, pid: nat) {
    match sch
    case Start => true
    case Then(prior, a) => LeftCodes(prior, pid) && (a == Run(pid) ==> After(sch).codes == After(prior).codes)
  }

  // One step of the call published its whole outcome; the others left the tables.
  ghost predicate PublishedOnce(sch: Schedule, pid: nat) {
    match sch
    case Start => false
    case Then(prior, a) =>
      if a == Run(pid) && !SameTables(After(prior), After(sch)) then
        pid in After(prior).procs && LeftTables(prior, pid) && Publishes(After(prior), After(sch), pid)
      else PublishedOnce(prior, pid)
  }

  // One step of the call wrote its code; the others left the codes.
  ghost predicate WroteCodeOnce(sch: Schedule, pid: nat) {
    match sch
    case Start => false
    case Then(prior, a) =>
      || (a == Run(pid) && pid in After(prior).procs && LeftCodes(prior, pid)
          && WritesCode(After(prior), After(sch), pid))
      || (WroteCodeOnce(prior, pid) && (a == Run(pid) ==> After(sch).codes == After(prior).codes))
  }

  ghost predicate LeftTrace(sch: Schedule, pid: nat) {
    var s := After(sch);
    if pid in s.procs && s.procs[pid].phase.Committed? then
      PublishedOnce(sch, pid) && if s.procs[pid].call.Register? then WroteCodeOnce(sch, pid) else LeftCodes(sch, pid)
    else if pid in s.procs && s.procs[pid].phase.Cached? then LeftTables(sch, pid) && WroteCodeOnce(sch, pid)
    else LeftTables(sch, pid) && LeftCodes(sch, pid)
  }

  lemma OwnStepLeaves(prior: Schedule, pid: nat)
    requires pid in After(prior).procs && Shaped(After(prior), pid) && LeftTrace(prior, pid)
    ensures LeftTrace(Then(prior, Run(pid)), pid)
  {
    var s, sch := After(prior), Then(prior, Run(pid));
    AdvanceStep(s, pid);
    var t := Advance(s, pid);
    assert After(sch) == t;
    if t.procs[pid].phase.Committed? && !s.procs[pid].phase.Committed? {
      assert |t.audit| != |s.audit|;
    }
  }

  lemma OtherStepLeaves(prior: Schedule, a: Action, pid: nat)
    requires LeftTrace(prior, pid) && a != Run(pid)
    requires var s, t := After(prior), Next(After(prior), a);
             pid in t.procs && t.procs[pid].phase != Ready ==> pid in s.procs && t.procs[pid] == s.procs[pid]
    requires var s, t := After(prior), Next(After(prior), a);
             pid in s.procs ==> pid in t.procs && t.procs[pid] == s.procs[pid]
    ensures LeftTrace(Then(prior, a), pid)
  {
  }

  lemma {:induction false} EveryCallLeavesItsTrace(sch: Schedule, pid: nat)
    ensures LeftTrace(sch, pid)
  {
    if sch.Then? {
      EveryCallLeavesItsTrace(sch.prior, pid);
      LiveUsersStayUnique(sch.prior);
      var s, a := After(sch.prior), sch.action;
      if a == Run(pid) && pid in s.procs {
        OwnStepLeaves(sch.prior, pid);
      } else {
        if a.Run? && a.pid in s.procs { AdvanceStep(s, a.pid); }
        if a == Run(pid) { assert After(sch) == s; } else { OtherStepLeaves(sch.prior, a, pid); }
      }
    }
  }

  /** A call that failed a pre-check, lost to a unique index or had a value too
      long changed no table and wrote no phone code in any of its steps, whatever
      was interleaved with them; a committed one published its rows in exactly one
      step, a sign-up's phone code in exactly one more. */
  lemma ConflictLeavesNothing(sch: Schedule, pid: nat)
    requires pid in After(sch).procs
    ensures var p := After(sch).procs[pid];
            && (p.phase.Refused? || p.phase.Conflicted? || p.phase.Failed? ==>
                  LeftTables(sch, pid) && LeftCodes(sch, pid))
            && (p.phase.Committed? ==>
                  PublishedOnce(sch, pid) &&
                  if p.call.Register? then WroteCodeOnce(sch, pid) else LeftCodes(sch, pid))
  {
    EveryCallLeavesItsTrace(sch, pid);
  }

  // Only a commit or a delete changes the stored users.
  lemma OnlyCommitsStore(s: System, pid: nat)
    requires pid in s.procs && Shaped(s, pid) && Advance(s, pid).users != s.users
    ensures Holding(s, pid) && Advance(s, pid).procs[pid].phase == Committed
    ensures Advance(s, pid).users == s.users[TargetOf(s, pid) := RowOf(s, pid)]
  {
    AdvanceStep(s, pid);
    if !Holding(s, pid) { OutsideStep(s, pid); }
  }

  /* ---------- both pre-checks can pass ---------- */

  function Steps(s: System, pid: nat, n: nat): System
    decreases n
  {
    if n == 0 then s else Steps(Next(s, Run(pid)), pid, n - 1)
  }

  lemma StepsUnfold(s: System, pid: nat, n: nat)
    requires n > 0
    ensures Steps(s, pid, n) == Steps(Next(s, Run(pid)), pid, n - 1)
  {
  }

  // A fresh Register call whose keys are free passes both pre-checks in two steps.
  lemma PreChecksPass(s: System, pid: nat, c: Call)
    requires s.users == map[] && pid !in s.procs && c.Register?
    ensures Steps(Next(s, Begin(pid, c)), pid, 2) == s.(procs := s.procs[pid := Proc(c, Checked)])
  {
    var s0 := Next(s, Begin(pid, c));
    var s1 := Next(s0, Run(pid));
    assert s1.procs == s.procs[pid := Proc(c, PhoneFree)];
    var s2 := Next(s1, Run(pid));
    assert s2.procs == s.procs[pid := Proc(c, Checked)];
    assert Steps(s0, pid, 2) == Steps(s1, pid, 1) == Steps(s2, pid, 0);
  }

  // A checked Register call that meets nothing in its way holds its row.
  lemma CheckedHolds(s: System, pid: nat)
    requires pid in s.procs && s.procs[pid].call.Register? && s.procs[pid].phase == Checked
    requires s.users == map[] && forall q | q in s.procs :: !Holding(s, q)
    requires FitsUser(Inserted(s.procs[pid].call))
    ensures Next(s, Run(pid)) == Move(s, pid, Open(Tx(Inserted(s.procs[pid].call), [], [])))
  {
    var row := Inserted(s.procs[pid].call);
    assert !Waits(s, pid, pid, row) && !IndexRefuses(s, pid, row);
  }

  // Its audit and OTP rows go into the transaction ...
  lemma HeldWrites(s: System, pid: nat, c: Call)
    requires pid in s.procs && c.Register? && |c.device| <= OTP_DEVICE_WIDTH
    requires s.procs[pid] == Proc(c, Open(Tx(Inserted(c), [], [])))
    ensures Steps(s, pid, 2) == Move(s, pid, Open(Tx(Inserted(c), [OwnAudit(pid, c)], [OwnOtp(pid, c)])))
  {
    var tx := Tx(Inserted(c), [OwnAudit(pid, c)], []);
    var s1 := Move(s, pid, Open(tx));
    assert Next(s, Run(pid)) == s1;
    assert Next(s1, Run(pid)) == Move(s1, pid, Open(tx.(otps := [OwnOtp(pid, c)])));
    assert Move(s1, pid, Open(tx.(otps := [OwnOtp(pid, c)]))) == Move(s, pid, Open(tx.(otps := [OwnOtp(pid, c)])));
    StepsUnfold(s, pid, 2);
    StepsUnfold(s1, pid, 1);
  }

  // ... and then it writes its code and commits.
  lemma WrittenCommits(s: System, pid: nat, c: Call, tx: Tx)
    requires pid in s.procs && c.Register? && tx.audit != [] && tx.otps != []
    requires s.procs[pid] == Proc(c, Open(tx))
    ensures var t := Steps(s, pid, 2);
            t.procs == s.procs[pid := Proc(c, Committed)] && t.users == s.users[pid := tx.row]
  {
    var s1 := Move(s, pid, Cached(tx)).(codes := s.codes[(c.phone, c.role) := c.code]);
    assert Next(s, Run(pid)) == s1;
    var s2 := Commit(s1, pid);
    assert Next(s1, Run(pid)) == s2;
    assert s2.procs == s.procs[pid := Proc(c, Committed)];
    StepsUnfold(s, pid, 2);
    StepsUnfold(s1, pid, 1);
  }

  lemma {:induction false} StepsAdd(s: System, pid: nat, m: nat, n: nat)
    ensures Steps(s, pid, m + n) == Steps(Steps(s, pid, m), pid, n)
    decreases m
  {
    if m > 0 { StepsAdd(Next(s, Run(pid)), pid, m - 1, n); }
  }

  lemma HeldCommits(s: System, pid: nat, c: Call)
    requires pid in s.procs && c.Register? && |c.device| <= OTP_DEVICE_WIDTH
    requires s.procs[pid] == Proc(c, Open(Tx(Inserted(c), [], [])))
    ensures var t := Steps(s, pid, 4);
            t.procs == s.procs[pid := Proc(c, Committed)] && t.users == s.users[pid := Inserted(c)]
  {
    HeldWrites(s, pid, c);
    var tx := Tx(Inserted(c), [OwnAudit(pid, c)], [OwnOtp(pid, c)]);
    var s2 := Move(s, pid, Open(tx));
    WrittenCommits(s2, pid, c, tx);
    StepsAdd(s, pid, 2, 2);
    assert s2.procs[pid := Proc(c, Committed)] == s.procs[pid := Proc(c, Committed)];
  }

  // A checked call meets a stored row it clashes with.
  lemma CheckedConflicts(s: System, pid: nat, other: nat)
    requires pid in s.procs && s.procs[pid].call.Register? && s.procs[pid].phase == Checked
    requires other in s.users && other != pid && Clash(s.users[other], Inserted(s.procs[pid].call))
    requires FitsUser(Inserted(s.procs[pid].call)) && forall q | q in s.procs :: !Holding(s, q)
    ensures Next(s, Run(pid)) == Move(s, pid, Conflicted)
  {
    var row := Inserted(s.procs[pid].call);
    assert !Waits(s, pid, pid, row) && IndexRefuses(s, pid, row);
  }

  /** The pre-checks do not decide: two sign-ups with one phone and role both pass
      them, and then the unique index lets exactly the first writer through. */
  lemma PreChecksCanBothPass(a: Call, b: Call)
    requires a.Register? && b.Register? && a.phone == b.phone && a.role == b.role
    requires FitsUser(Inserted(a)) && FitsUser(Inserted(b)) && |a.device| <= OTP_DEVICE_WIDTH
    ensures var s := Steps(Next(Steps(Next(IDLE, Begin(1, a)), 1, 2), Begin(2, b)), 2, 2);
            && s.procs == map[1 := Proc(a, Checked), 2 := Proc(b, Checked)]
            && Next(Steps(Next(s, Run(1)), 1, 4), Run(2)).procs ==
               map[1 := Proc(a, Committed), 2 := Proc(b, Conflicted)]
  {
    PreChecksPass(IDLE, 1, a);
    var one := IDLE.(procs := map[1 := Proc(a, Checked)]);
    PreChecksPass(one, 2, b);
    var s := one.(procs := map[1 := Proc(a, Checked), 2 := Proc(b, Checked)]);
    CheckedHolds(s, 1);
    var held := Move(s, 1, Open(Tx(Inserted(a), [], [])));
    HeldCommits(held, 1, a);
    CheckedConflicts(Steps(held, 1, 4), 2, 1);
  }

  /* ---------- a call that runs alone ---------- */

  ghost predicate Idle(s: System) { forall q | q in s.procs :: !Holding(s, q) }

  lemma {:induction false} FinalStays(s: System, pid: nat, n: nat)
    requires pid in s.procs
    requires var p := s.procs[pid].phase; p.Committed? || p.Refused? || p.Conflicted? || p.Failed?
    ensures Steps(s, pid, n) == s
    decreases n
  {
    if n > 0 {
      assert Next(s, Run(pid)) == s;
      FinalStays(s, pid, n - 1);
    }
  }

  // A live stored user of this role has the phone, or the address up to folding.
  ghost predicate PhoneUsed(users: map<nat, User>, phone: string, role: Role) {
    exists u | u in users :: !users[u].deleted && users[u].phone == phone && users[u].role == role
  }

  ghost predicate AddressUsed(users: map<nat, User>, email: string, role: Role) {
    exists u | u in users ::
      !users[u].deleted && users[u].role == role
      && EmailKey(users[u].email) == EmailKey(email) && EmailKey(email) != ""
  }

  // Where a Register call ends when nothing interleaves with it.
  ghost function RegisterEnd(users: map<nat, User>, c: Call): Phase
    requires c.Register?
  {
    if PhoneUsed(users, c.phone, c.role) || AddressUsed(users, c.email, c.role) then Refused
    else if |c.phone| > 15 || |c.name| > 100 || |c.email| > 255 || |c.referral| > 20 || |c.device| > 255 then Failed
    else Committed
  }

  lemma SameUses(s: System, phone: string, email: string, role: Role)
    ensures SomeHoldsPhone(s, phone, role) == PhoneUsed(s.users, phone, role)
    ensures SomeHoldsEmail(s, email, role) == AddressUsed(s.users, email, role)
  {
    if PhoneUsed(s.users, phone, role) {
      var u :| u in s.users && !s.users[u].deleted && s.users[u].phone == phone && s.users[u].role == role;
      assert HoldsPhone(s.users[u], phone, role);
    }
    if AddressUsed(s.users, email, role) {
      var u :| u in s.users && !s.users[u].deleted && s.users[u].role == role
               && EmailKey(s.users[u].email) == EmailKey(email) && EmailKey(email) != "";
      assert HoldsEmail(s.users[u], EmailKey(email), role);
    }
  }

  lemma PreCheckPhone(s: System, pid: nat, c: Call)
    requires pid in s.procs && c.Register? && s.procs[pid] == Proc(c, Ready)
    ensures Next(s, Run(pid)) == Move(s, pid, if PhoneUsed(s.users, c.phone, c.role) then Refused else PhoneFree)
  {
    SameUses(s, c.phone, c.email, c.role);
  }

  lemma PreCheckAddress(s: System, pid: nat, c: Call)
    requires pid in s.procs && c.Register? && s.procs[pid] == Proc(c, PhoneFree)
    ensures Next(s, Run(pid)) == Move(s, pid, if AddressUsed(s.users, c.email, c.role) then Refused else Checked)
  {
    SameUses(s, c.phone, c.email, c.role);
  }

  lemma FreeKeysHold(s: System, pid: nat)
    requires pid in s.procs && s.procs[pid].call.Register? && s.procs[pid].phase == Checked && Idle(s)
    requires var c := s.procs[pid].call; !PhoneUsed(s.users, c.phone, c.role) && !AddressUsed(s.users, c.email, c.role)
    ensures var row := Inserted(s.procs[pid].call);
            Next(s, Run(pid)) == Move(s, pid, if FitsUser(row) then Open(Tx(row, [], [])) else Failed)
  {
    var row := Inserted(s.procs[pid].call);
    assert !Waits(s, pid, pid, row);
    assert !IndexRefuses(s, pid, row);
  }

  lemma HeldEnds(s: System, pid: nat, c: Call)
    requires pid in s.procs && c.Register? && s.procs[pid] == Proc(c, Open(Tx(Inserted(c), [], [])))
    ensures var t := Steps(s, pid, 4);
            t.procs == s.procs[pid := Proc(c, if |c.device| > OTP_DEVICE_WIDTH then Failed else Committed)]
  {
    if |c.device| <= OTP_DEVICE_WIDTH {
      HeldCommits(s, pid, c);
    } else {
      var s1 := Move(s, pid, Open(Tx(Inserted(c), [OwnAudit(pid, c)], [])));
      assert Next(s, Run(pid)) == s1;
      var s2 := Move(s1, pid, Failed);
      assert Next(s1, Run(pid)) == s2;
      FinalStays(s2, pid, 2);
      assert s2.procs == s.procs[pid := Proc(c, Failed)];
      assert Steps(s, pid, 4) == Steps(s1, pid, 3) == Steps(s2, pid, 2);
    }
  }

  /** Run alone from any reachable quiet state, a Register call ends in seven steps:
      refused iff a live user has its phone or address, failed iff a value is too
      long, and committed otherwise. */
  lemma RegisterAlone(s: System, pid: nat, c: Call)
    requires pid in s.procs && c.Register? && s.procs[pid] == Proc(c, Ready) && Idle(s)
    ensures Steps(s, pid, 7).procs == s.procs[pid := Proc(c, RegisterEnd(s.users, c))]
  {
    PreCheckPhone(s, pid, c);
    StepsUnfold(s, pid, 7);
    var s1 := Move(s, pid, if PhoneUsed(s.users, c.phone, c.role) then Refused else PhoneFree);
    if PhoneUsed(s.users, c.phone, c.role) {
      FinalStays(s1, pid, 6);
    } else {
      RegisterFromPhone(s1, pid, c);
    }
  }

  lemma RegisterFromPhone(s: System, pid: nat, c: Call)
    requires pid in s.procs && c.Register? && s.procs[pid] == Proc(c, PhoneFree) && Idle(s)
    requires !PhoneUsed(s.users, c.phone, c.role)
    ensures Steps(s, pid, 6).procs == s.procs[pid := Proc(c, RegisterEnd(s.users, c))]
  {
    PreCheckAddress(s, pid, c);
    StepsUnfold(s, pid, 6);
    var s1 := Move(s, pid, if AddressUsed(s.users, c.email, c.role) then Refused else Checked);
    if AddressUsed(s.users, c.email, c.role) {
      FinalStays(s1, pid, 5);
    } else {
      RegisterFromChecked(s1, pid, c);
    }
  }

  lemma RegisterFromChecked(s: System, pid: nat, c: Call)
    requires pid in s.procs && c.Register? && s.procs[pid] == Proc(c, Checked) && Idle(s)
    requires !PhoneUsed(s.users, c.phone, c.role) && !AddressUsed(s.users, c.email, c.role)
    ensures Steps(s, pid, 5).procs == s.procs[pid := Proc(c, RegisterEnd(s.users, c))]
  {
    FreeKeysHold(s, pid);
    var s1 := Next(s, Run(pid));
    StepsUnfold(s, pid, 5);
    if FitsUser(Inserted(c)) { HeldEnds(s1, pid, c); } else { FinalStays(s1, pid, 4); }
  }

  // Where a VerifyEmailUpdate call ends when nothing interleaves with it.
  ghost function UpdateEnd(users: map<nat, User>, c: Call): Phase
    requires c.UpdateEmail?
  {
    if c.uid !in users || users[c.uid].deleted || AddressUsed(users, c.email, users[c.uid].role) then Refused
    else if !FitsUser(users[c.uid].(email := c.email)) then Failed
    else Committed
  }

  lemma FreeAddressHolds(s: System, pid: nat)
    requires pid in s.procs && s.procs[pid].call.UpdateEmail? && s.procs[pid].phase == Checked && Idle(s)
    requires UniqueUsers(s)
    requires var UpdateEmail(uid, email) := s.procs[pid].call;
             uid in s.users && !s.users[uid].deleted && !AddressUsed(s.users, email, s.users[uid].role)
    ensures var UpdateEmail(uid, email) := s.procs[pid].call;
            var row := Moved(s.users[uid], email);
            Next(s, Run(pid)) == Move(s, pid, if FitsUser(row) then Open(Tx(row, [], [])) else Failed)
  {
    var UpdateEmail(uid, email) := s.procs[pid].call;
    var row := Moved(s.users[uid], email);
    assert !Waits(s, pid, uid, row);
    forall u | u in s.users && u != uid
      ensures !Clash(s.users[u], row)
    {
      assert !Clash(s.users[u], s.users[uid]);
    }
    assert !IndexRefuses(s, uid, row);
  }

  lemma HeldUpdateCommits(s: System, pid: nat, c: Call, row: User)
    requires pid in s.procs && c.UpdateEmail? && s.procs[pid] == Proc(c, Open(Tx(row, [], [])))
    ensures var t := Steps(s, pid, 2);
            t.procs == s.procs[pid := Proc(c, Committed)] && t.users == s.users[c.uid := row]
  {
    var s1 := Move(s, pid, Open(Tx(row, [OwnAudit(pid, c)], [])));
    assert Next(s, Run(pid)) == s1;
    var s2 := Commit(s1, pid);
    assert Next(s1, Run(pid)) == s2;
    assert s2.procs == s.procs[pid := Proc(c, Committed)];
    assert Steps(s, pid, 2) == Steps(s1, pid, 1) == Steps(s2, pid, 0);
  }

  /** Run alone from any reachable quiet state, a VerifyEmailUpdate call ends in
      four steps: refused iff its user is gone or a live user of the role has the
      address, failed iff it is too long, and committed otherwise, with the user's
      stored address the one asked for. */
  lemma UpdateAlone(sch: Schedule, pid: nat, c: Call)
    requires c.UpdateEmail?
    requires var s := After(sch); pid in s.procs && s.procs[pid] == Proc(c, Ready) && Idle(s)
    ensures var s, t := After(sch), Steps(After(sch), pid, 4);
            && t.procs == s.procs[pid := Proc(c, UpdateEnd(s.users, c))]
            && t.users == if UpdateEnd(s.users, c) == Committed then s.users[c.uid := Moved(s.users[c.uid], c.email)]
                          else s.users
  {
    LiveUsersStayUnique(sch);
    UpdateAloneFrom(After(sch), pid, c);
  }

  lemma UpdateAloneFrom(s: System, pid: nat, c: Call)
    requires pid in s.procs && c.UpdateEmail? && s.procs[pid] == Proc(c, Ready) && Idle(s) && UniqueUsers(s)
    ensures var t := Steps(s, pid, 4);
            && t.procs == s.procs[pid := Proc(c, UpdateEnd(s.users, c))]
            && t.users == if UpdateEnd(s.users, c) == Committed then s.users[c.uid := Moved(s.users[c.uid], c.email)]
                          else s.users
  {
    PreCheckUpdate(s, pid, c);
    StepsUnfold(s, pid, 4);
    var s1 := Next(s, Run(pid));
    if UpdateEnd(s.users, c) == Refused {
      FinalStays(s1, pid, 3);
    } else {
      UpdateFromChecked(s1, pid, c);
    }
  }

  lemma PreCheckUpdate(s: System, pid: nat, c: Call)
    requires pid in s.procs && c.UpdateEmail? && s.procs[pid] == Proc(c, Ready)
    ensures Next(s, Run(pid)) == Move(s, pid, if UpdateEnd(s.users, c) == Refused then Refused else Checked)
  {
    if c.uid in s.users { SameUses(s, "", c.email, s.users[c.uid].role); }
  }

  lemma UpdateFromChecked(s: System, pid: nat, c: Call)
    requires pid in s.procs && c.UpdateEmail? && s.procs[pid] == Proc(c, Checked) && Idle(s) && UniqueUsers(s)
    requires c.uid in s.users && !s.users[c.uid].deleted && !AddressUsed(s.users, c.email, s.users[c.uid].role)
    ensures var t := Steps(s, pid, 3);
            && t.procs == s.procs[pid := Proc(c, UpdateEnd(s.users, c))]
            && t.users == if UpdateEnd(s.users, c) == Committed then s.users[c.uid := Moved(s.users[c.uid], c.email)]
                          else s.users
  {
    FreeAddressHolds(s, pid);
    var s1 := Next(s, Run(pid));
    StepsUnfold(s, pid, 3);
    var row := Moved(s.users[c.uid], c.email);
    if FitsUser(row) { HeldUpdateCommits(s1, pid, c, row); } else { FinalStays(s1, pid, 2); }
  }
}
