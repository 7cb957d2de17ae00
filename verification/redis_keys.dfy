/** The flat Redis key names (infra/redis/keys.go and the three names built in
    place) and why the services may treat them as separate typed maps. */
module RedisKeys {
  import opened Common
  import opened Text
  import opened RedisTtl
  import Phone

  datatype Scope = Guest(sid: string) | User(uid: string)

  // One constructor per kind of key the code builds.
  datatype Key =
    | Session(id: string)
    | Cart(uid: string)
    | Otp(phone: string, role: string)
    | OtpRate(phone: string, role: string)
    | EmailOtp(scope: Scope, email: string)
    | EmailAttempts(scope: Scope, email: string)
    | EmailRate(scope: Scope, email: string)
    | EmailVerified(scope: Scope, email: string)
    | Captcha(ip: string)
    | Probe(ip: string)
    | RateLimit(limiter: string, subject: string)
    | Idempotency(header: string)

  function ScopeText(s: Scope): string {
    match s case Guest(sid) => "guest" + ":" + sid case User(uid) => "user" + ":" + uid
  }

  function SessionKey(id: string): string { "session:" + id }
  function CartKey(uid: string): string { "cart:" + uid }
  function OTPKey(phone: string, role: string): string { "otp:" + phone + ":" + role }
  function OTPRateKey(phone: string, role: string): string { "otp:rate:" + phone + ":" + role }
  function EmailOTPKey(scope: string, email: string): string { "email_otp:" + scope + ":" + email }
  function EmailOTPAttemptsKey(scope: string, email: string): string {
    "email_otp:attempts:" + scope + ":" + email
  }
  function EmailOTPRateKey(scope: string, email: string): string { "email_otp:rate:" + scope + ":" + email }
  function EmailVerifiedKey(scope: string, email: string): string { "email_verified:" + scope + ":" + email }
  function CaptchaRequiredKey(ip: string): string { "captcha:required:" + ip }

  function Render(k: Key): string {
    match k
    case Session(id) => SessionKey(id)
    case Cart(uid) => CartKey(uid)
    case Otp(phone, role) => OTPKey(phone, role)
    case OtpRate(phone, role) => OTPRateKey(phone, role)
    case EmailOtp(scope, email) => EmailOTPKey(ScopeText(scope), email)
    case EmailAttempts(scope, email) => EmailOTPAttemptsKey(ScopeText(scope), email)
    case EmailRate(scope, email) => EmailOTPRateKey(ScopeText(scope), email)
    case EmailVerified(scope, email) => EmailVerifiedKey(ScopeText(scope), email)
    case Captcha(ip) => CaptchaRequiredKey(ip)
    case Probe(ip) => "auth:probe:" + ip
    case RateLimit(limiter, subject) => "ratelimit:" + limiter + ":" + subject
    case Idempotency(header) => "idempotency:" + header
  }

  predicate ColonFree(s: string) { forall i | 0 <= i < |s| :: s[i] != ':' }

  // Ids in the middle of a name are colon-free and phones canonical; whatever
  // comes last in a name is free.
  predicate WellFormed(k: Key) {
    match k
    case Otp(phone, _) => Phone.Subscriber(phone)
    case OtpRate(phone, _) => Phone.Subscriber(phone)
    case EmailOtp(scope, _) => ColonFreeScope(scope)
    case EmailAttempts(scope, _) => ColonFreeScope(scope)
    case EmailRate(scope, _) => ColonFreeScope(scope)
    case EmailVerified(scope, _) => ColonFreeScope(scope)
    case RateLimit(limiter, _) => ColonFree(limiter)
    case _ => true
  }

  predicate ColonFreeScope(s: Scope) {
    match s case Guest(sid) => ColonFree(sid) case User(uid) => ColonFree(uid)
  }

  /* ---------- names split at their colons ---------- */

  // A name as its colon-free head and the rest.
  function Joined(head: string, rest: string): string { head + ":" + rest }

  lemma HeadIsUnique(h: string, x: string, g: string, y: string)
    requires ColonFree(h) && ColonFree(g) && Joined(h, x) == Joined(g, y)
    ensures h == g && x == y
  {
    CutIsUnique(':', h, x, g, y);
  }

  function Tag(k: Key): string {
    match k
    case Session(_) => "session"
    case Cart(_) => "cart"
    case Otp(_, _) => "otp"
    case OtpRate(_, _) => "otp"
    case EmailOtp(_, _) => "email_otp"
    case EmailAttempts(_, _) => "email_otp"
    case EmailRate(_, _) => "email_otp"
    case EmailVerified(_, _) => "email_verified"
    case Captcha(_) => "captcha"
    case Probe(_) => "auth"
    case RateLimit(_, _) => "ratelimit"
    case Idempotency(_) => "idempotency"
  }

  // What follows the tag.
  function Body(k: Key): string {
    match k
    case Session(id) => id
    case Cart(uid) => uid
    case Otp(phone, role) => Joined(phone, role)
    case OtpRate(phone, role) => Joined("rate", Joined(phone, role))
    case EmailOtp(scope, email) => ScopedBody(scope, email)
    case EmailAttempts(scope, email) => Joined("attempts", ScopedBody(scope, email))
    case EmailRate(scope, email) => Joined("rate", ScopedBody(scope, email))
    case EmailVerified(scope, email) => ScopedBody(scope, email)
    case Captcha(ip) => Joined("required", ip)
    case Probe(ip) => Joined("probe", ip)
    case RateLimit(limiter, subject) => Joined(limiter, subject)
    case Idempotency(header) => header
  }

  function ScopedBody(s: Scope, email: string): string {
    match s
    case Guest(sid) => Joined("guest", Joined(sid, email))
    case User(uid) => Joined("user", Joined(uid, email))
  }

  lemma TagIsColonFree(k: Key)
    ensures ColonFree(Tag(k))
  {
  }

  // Concatenation associates, so a literal prefix splits at its own colons.
  lemma Regroup(head: string, middle: string, rest: string)
    ensures head + ":" + middle + ":" + rest == Joined(head, Joined(middle, rest))
  {
  }

  lemma PlainIsTagged(k: Key)
    requires k.Session? || k.Cart? || k.Otp? || k.Captcha? || k.Probe? || k.RateLimit? || k.Idempotency?
    ensures Render(k) == Joined(Tag(k), Body(k))
  {
    match k
    case Otp(phone, role) => Regroup("otp", phone, role); assert "otp:" == "otp" + ":";
    case Captcha(ip) => Regroup("captcha", "required", ip);
      assert "captcha:required:" == "captcha" + ":" + "required" + ":";
    case Probe(ip) => Regroup("auth", "probe", ip); assert "auth:probe:" == "auth" + ":" + "probe" + ":";
    case RateLimit(n, s) => Regroup("ratelimit", n, s); assert "ratelimit:" == "ratelimit" + ":";
    case Session(id) => assert "session:" == "session" + ":";
    case Cart(uid) => assert "cart:" == "cart" + ":";
    case Idempotency(h) => assert "idempotency:" == "idempotency" + ":";
  }

  lemma ScopeRegroup(s: Scope, email: string)
    ensures ScopeText(s) + ":" + email == ScopedBody(s, email)
  {
    match s case Guest(sid) => Regroup("guest", sid, email); case User(uid) => Regroup("user", uid, email);
  }

  lemma Prefixed(prefix: string, scope: string, email: string)
    ensures prefix + scope + ":" + email == prefix + Joined(scope, email)
  {
  }

  lemma AfterMarker(marker: string, body: string)
    ensures "email_otp:" + (marker + ":") + body == Joined("email_otp", Joined(marker, body))
  {
    assert "email_otp:" == "email_otp" + ":";
  }

  lemma ScopedIsTagged(k: Key)
    requires k.EmailOtp? || k.EmailAttempts? || k.EmailRate? || k.EmailVerified?
    ensures Render(k) == Joined(Tag(k), Body(k))
  {
    var scope, email := ScopeText(k.scope), k.email;
    ScopeRegroup(k.scope, email);
    if k.EmailOtp? {
      Prefixed("email_otp:", scope, email);
      assert "email_otp:" == "email_otp" + ":";
    } else if k.EmailAttempts? {
      Prefixed("email_otp:attempts:", scope, email);
      assert "email_otp:attempts:" == "email_otp:" + ("attempts" + ":");
      AfterMarker("attempts", Joined(scope, email));
    } else if k.EmailRate? {
      Prefixed("email_otp:rate:", scope, email);
      assert "email_otp:rate:" == "email_otp:" + ("rate" + ":");
      AfterMarker("rate", Joined(scope, email));
    } else {
      Prefixed("email_verified:", scope, email);
      assert "email_verified:" == "email_verified" + ":";
    }
  }

  lemma RenderIsTagged(k: Key)
    ensures Render(k) == Joined(Tag(k), Body(k))
  {
    match k
    case EmailOtp(_, _) => ScopedIsTagged(k);
    case EmailAttempts(_, _) => ScopedIsTagged(k);
    case EmailRate(_, _) => ScopedIsTagged(k);
    case EmailVerified(_, _) => ScopedIsTagged(k);
    case OtpRate(phone, role) =>
      assert "otp:rate:" == "otp" + ":" + "rate" + ":";
      assert Render(k) == "otp:rate:" + Joined(phone, role);
      Regroup("otp", "rate", Joined(phone, role));
    case _ => PlainIsTagged(k);
  }

  lemma ScopedBodyInjective(s: Scope, e: string, t: Scope, f: string)
    requires ColonFreeScope(s) && ColonFreeScope(t) && ScopedBody(s, e) == ScopedBody(t, f)
    ensures s == t && e == f
  {
    assert "guest"[0] != "user"[0];
    var h := if s.Guest? then "guest" else "user";
    var g := if t.Guest? then "guest" else "user";
    var i := if s.Guest? then s.sid else s.uid;
    var j := if t.Guest? then t.sid else t.uid;
    HeadIsUnique(h, Joined(i, e), g, Joined(j, f));
    HeadIsUnique(i, e, j, f);
  }

  // A scope never reads as the attempts or rate marker.
  lemma ScopeIsNoMarker(s: Scope, e: string, marker: string, rest: string)
    requires ScopedBody(s, e) == Joined(marker, rest) && ColonFree(marker)
    ensures marker == "guest" || marker == "user"
  {
    var h := if s.Guest? then "guest" else "user";
    var i := if s.Guest? then s.sid else s.uid;
    HeadIsUnique(h, Joined(i, e), marker, rest);
  }

  lemma SubscriberHead(d: string)
    requires Phone.Subscriber(d)
    ensures ColonFree(d) && d != "rate"
  {
  }

  lemma SameTagSameKey(k: Key, l: Key)
    requires WellFormed(k) && WellFormed(l) && Tag(k) == Tag(l) && Body(k) == Body(l)
    ensures k == l
  {
    assert "guest"[0] != "rate"[0] && "user"[0] != "rate"[0] && |"attempts"| == 8;
    TagsDiffer();
    match k
    case Otp(p, r) =>
      SubscriberHead(p);
      if l.Otp? { SubscriberHead(l.phone); HeadIsUnique(p, r, l.phone, l.role); }
      else { HeadIsUnique(p, r, "rate", Joined(l.phone, l.role)); }
    case OtpRate(p, r) =>
      SubscriberHead(p);
      SubscriberHead(l.phone);
      if l.OtpRate? {
        HeadIsUnique("rate", Joined(p, r), "rate", Joined(l.phone, l.role));
        HeadIsUnique(p, r, l.phone, l.role);
      } else { HeadIsUnique("rate", Joined(p, r), l.phone, l.role); }
    case EmailOtp(s, e) => EmailFamily(k, l);
    case EmailAttempts(s, e) => EmailFamily(k, l);
    case EmailRate(s, e) => EmailFamily(k, l);
    case EmailVerified(s, e) => ScopedBodyInjective(s, e, l.scope, l.email);
    case Captcha(ip) => HeadIsUnique("required", ip, "required", l.ip);
    case Probe(ip) => HeadIsUnique("probe", ip, "probe", l.ip);
    case RateLimit(n, s) => HeadIsUnique(n, s, l.limiter, l.subject);
    case Session(_) =>
    case Cart(_) =>
    case Idempotency(_) =>
  }

  function Marker(k: Key): string {
    match k case EmailAttempts(_, _) => "attempts" case EmailRate(_, _) => "rate" case _ => ""
  }

  lemma EmailFamily(k: Key, l: Key)
    requires k.EmailOtp? || k.EmailAttempts? || k.EmailRate?
    requires l.EmailOtp? || l.EmailAttempts? || l.EmailRate?
    requires WellFormed(k) && WellFormed(l) && Body(k) == Body(l)
    ensures k == l
  {
    assert "guest"[0] != "rate"[0] && "user"[0] != "rate"[0] && |"attempts"| == 8;
    if k.EmailOtp? && l.EmailOtp? {
      ScopedBodyInjective(k.scope, k.email, l.scope, l.email);
    } else if k.EmailOtp? {
      ScopeIsNoMarker(k.scope, k.email, Marker(l), ScopedBody(l.scope, l.email));
    } else if l.EmailOtp? {
      ScopeIsNoMarker(l.scope, l.email, Marker(k), ScopedBody(k.scope, k.email));
    } else {
      HeadIsUnique(Marker(k), ScopedBody(k.scope, k.email), Marker(l), ScopedBody(l.scope, l.email));
      ScopedBodyInjective(k.scope, k.email, l.scope, l.email);
    }
  }

  // Tags of equal length still differ in their first character.
  lemma TagsDiffer()
    ensures "session" != "captcha" && "cart" != "auth" && "email_otp" != "ratelimit"
  {
    assert "session"[0] != "captcha"[0];
    assert "cart"[0] != "auth"[0];
    assert "email_otp"[0] != "ratelimit"[0];
  }

  /** The key builders are injective and pairwise disjoint on well-formed keys. */
  lemma KeysAreDistinct(k: Key, l: Key)
    requires WellFormed(k) && WellFormed(l)
    ensures Render(k) == Render(l) <==> k == l
  {
    if Render(k) == Render(l) {
      RenderIsTagged(k);
      RenderIsTagged(l);
      TagIsColonFree(k);
      TagIsColonFree(l);
      HeadIsUnique(Tag(k), Body(k), Tag(l), Body(l));
      SameTagSameKey(k, l);
    }
  }

  // Colon-free ids are needed: a colon moves the boundary between id and email.
  lemma ColonInSessionIdCollides()
    ensures Render(EmailOtp(Guest("a"), "b:c")) == Render(EmailOtp(Guest("a:b"), "c"))
  {
    assert Render(EmailOtp(Guest("a"), "b:c")) == "email_otp:guest:a:b:c";
    assert Render(EmailOtp(Guest("a:b"), "c")) == "email_otp:guest:a:b:c";
  }

  /* ---------- one flat store refines the typed maps ---------- */

  // A counter, a string or a hash.
  datatype Value = Number(n: int) | Str(s: string) | Hash(fields: map<string, string>)

  datatype Op<K> =
    | Set(key: K, value: Value, ttl: int)
    | SetFields(key: K, fields: map<string, string>)
    | Increment(key: K)
    | SetTtl(key: K, ttl: int)
    | Delete(key: K)

  // HSET merges into a live hash, INCR counts a live number, each keeping the
  // deadline; both refuse a live value of another type, and start an absent one.
  function Apply<K>(m: Keys<K, Value>, op: Op<K>, now: int): Keys<K, Value> {
    match op
    case Set(k, v, ttl) => SetKey(m, k, v, now, ttl)
    case SetFields(k, fields) =>
      if !Live(m, k, now) then m[k := Cell(Hash(fields), None)]
      else if m[k].value.Hash? then m[k := Cell(Hash(m[k].value.fields + fields), m[k].deadline)]
      else m
    case Increment(k) =>
      if !Live(m, k, now) then m[k := Cell(Number(1), None)]
      else if m[k].value.Number? then m[k := Cell(Number(m[k].value.n + 1), m[k].deadline)]
      else m
    case SetTtl(k, ttl) => Expire(m, k, now, ttl)
    case Delete(k) => Del(m, k)
  }

  datatype Ops = NoOps | Do(prior: Ops, now: int, op: Op<Key>)

  function Typed(ops: Ops): Keys<Key, Value> {
    match ops case NoOps => map[] case Do(prior, now, op) => Apply(Typed(prior), op, now)
  }

  function Flattened(op: Op<Key>): Op<string> {
    match op
    case Set(k, v, ttl) => Set(Render(k), v, ttl)
    case SetFields(k, fields) => SetFields(Render(k), fields)
    case Increment(k) => Increment(Render(k))
    case SetTtl(k, ttl) => SetTtl(Render(k), ttl)
    case Delete(k) => Delete(Render(k))
  }

  function Flat(ops: Ops): Keys<string, Value> {
    match ops case NoOps => map[] case Do(prior, now, op) => Apply(Flat(prior), Flattened(op), now)
  }

  predicate AllWellFormed(ops: Ops) {
    match ops case NoOps => true case Do(prior, _, op) => WellFormed(op.key) && AllWellFormed(prior)
  }

  ghost predicate SameCell(flat: Keys<string, Value>, typed: Keys<Key, Value>, k: Key) {
    (k in typed <==> Render(k) in flat) && (k in typed ==> typed[k] == flat[Render(k)])
  }

  lemma ApplySameCell(flat: Keys<string, Value>, typed: Keys<Key, Value>, op: Op<Key>, now: int, k: Key)
    requires WellFormed(k) && WellFormed(op.key)
    requires SameCell(flat, typed, k) && SameCell(flat, typed, op.key)
    ensures SameCell(Apply(flat, Flattened(op), now), Apply(typed, op, now), k)
  {
    KeysAreDistinct(k, op.key);
  }

  /** Whatever the services do to the flat store, each key reads as it would in
      a typed map of its own: no operation on one kind changes another. */
  lemma {:induction false} FlatRefinesTyped(ops: Ops, k: Key)
    requires AllWellFormed(ops) && WellFormed(k)
    ensures SameCell(Flat(ops), Typed(ops), k)
    ensures forall now :: Get(Flat(ops), Render(k), now) == Get(Typed(ops), k, now)
  {
    if ops.Do? {
      FlatRefinesTyped(ops.prior, k);
      FlatRefinesTyped(ops.prior, ops.op.key);
      ApplySameCell(Flat(ops.prior), Typed(ops.prior), ops.op, ops.now, k);
    }
  }
}
