/** The Redis script of internal/middleware/rate_limit.go, on exact reals and
    integer milliseconds, with the closed form of what it admits. */
module TokenBucket {
  import opened Common
  import opened IntSets

  // rate is in tokens per millisecond; ttl is in seconds, as EXPIRE takes it.
  datatype Limit = Limit(rate: real, capacity: int, ttl: int)

  // The middleware's guard: any other limit lets every request through.
  predicate Enforced(c: Limit) { c.rate > 0.0 && c.capacity > 0 && c.ttl > 0 }

  // A bucket left alone for the whole ttl is full again when its key vanishes.
  predicate Covers(c: Limit) { c.rate * (1000 * c.ttl) as real >= c.capacity as real }

  datatype Entry = Entry(tokens: real, lastRefill: int, deadline: int)

  datatype Verdict = Admit | Deny(retryAfterMs: int)

  function Live(store: map<string, Entry>, key: string, now: int): Option<Entry> {
    if key in store && now < store[key].deadline then Some(store[key]) else None
  }

  // Tokens on hand after the lazy refill; a missing hash counts as a full bucket.
  function Available(c: Limit, e: Option<Entry>, now: int): real {
    match e
    case None => Min(c.capacity as real, c.capacity as real + Max(0, now - now) as real * c.rate)
    case Some(b) => Min(c.capacity as real, b.tokens + Max(0, now - b.lastRefill) as real * c.rate)
  }

  function Decide(c: Limit, e: Option<Entry>, now: int): Verdict
    requires c.rate > 0.0
  {
    var tokens := Available(c, e, now);
    if tokens < 1.0 then Deny(Ceil((1.0 - tokens) / c.rate)) else Admit
  }

  // What the script leaves in the store: a denial writes nothing.
  function Write(c: Limit, store: map<string, Entry>, key: string, now: int): map<string, Entry>
    requires c.rate > 0.0
  {
    if Decide(c, Live(store, key, now), now).Admit? then
      store[key := Entry(Available(c, Live(store, key, now), now) - 1.0, now, now + 1000 * c.ttl)]
    else store
  }

  /* ---------- whole runs ---------- */

  // Requests in arrival order, newest outermost.
  datatype Requests = Fresh | Then(prior: Requests, key: string, now: int)

  // The clock never ran backwards and has not passed t.
  predicate Ordered(rs: Requests, t: int) {
    match rs
    case Fresh => true
    case Then(prior, _, now) => now <= t && Ordered(prior, now)
  }

  function After(c: Limit, rs: Requests): map<string, Entry>
    requires c.rate > 0.0
  {
    match rs
    case Fresh => map[]
    case Then(prior, key, now) => Write(c, After(c, prior), key, now)
  }

  predicate Admits(c: Limit, rs: Requests, key: string, now: int)
    requires c.rate > 0.0
  {
    Decide(c, Live(After(c, rs), key, now), now).Admit?
  }

  // Times at which the run admitted a request of this key.
  function Admitted(c: Limit, rs: Requests, key: string): seq<int>
    requires c.rate > 0.0
  {
    match rs
    case Fresh => []
    case Then(prior, k, now) =>
      Admitted(c, prior, key) + if k == key && Admits(c, prior, k, now) then [now] else []
  }

  /* ---------- the bucket as a function of its admissions ---------- */

  // Tokens a bucket would have gained by time t; refills are its differences.
  ghost function TokenClock(c: Limit): int -> real { t => c.rate * t as real }

  lemma Refill(c: Limit, s: int, t: int)
    ensures c.rate * (t - s) as real == TokenClock(c)(t) - TokenClock(c)(s)
    ensures c.rate >= 0.0 && s <= t ==> TokenClock(c)(s) <= TokenClock(c)(t)
  {
    assert c.rate >= 0.0 && s <= t ==> c.rate * (t - s) as real >= 0.0;
  }

  // Tokens at t of a bucket that was full, never forgets, and spent one token
  // at each time in a.
  ghost function Level(cap: real, clock: int -> real, a: seq<int>, t: int): real {
    if a == [] then cap
    else
      var n := |a| - 1;
      Min(cap, Level(cap, clock, a[..n], a[n]) - 1.0 + (clock(t) - clock(a[n])))
  }

  // The closed form: x tokens are on hand exactly when spending x more keeps
  // every suffix of the admissions within capacity plus refill.
  lemma {:induction false} LevelLaw(cap: real, clock: int -> real, a: seq<int>, t: int, x: real)
    ensures Level(cap, clock, a, t) >= x <==>
            x <= cap && forall i | 0 <= i < |a| :: (|a| - i) as real + x <= cap + (clock(t) - clock(a[i]))
    decreases |a|
  {
    if a != [] {
      var n := |a| - 1;
      var y := x + 1.0 - (clock(t) - clock(a[n]));
      LevelLaw(cap, clock, a[..n], a[n], y);
      forall i | 0 <= i < n
        ensures (n - i) as real + y <= cap + (clock(a[n]) - clock(a[i])) <==>
                (|a| - i) as real + x <= cap + (clock(t) - clock(a[i]))
      {
        assert (|a| - i) as real == (n - i) as real + 1.0;
      }
      assert forall i | 0 <= i < n :: a[..n][i] == a[i];
    }
  }

  lemma LevelAdvances(cap: real, clock: int -> real, a: seq<int>, s: int, t: int)
    requires clock(s) <= clock(t)
    ensures Level(cap, clock, a, t) == Min(cap, Level(cap, clock, a, s) + (clock(t) - clock(s)))
  {
  }

  lemma LevelAdvanceOf(c: Limit, a: seq<int>, s: int, t: int)
    requires c.rate >= 0.0 && s <= t
    ensures LevelOf(c, a, t) == Min(c.capacity as real, LevelOf(c, a, s) + c.rate * (t - s) as real)
  {
    Refill(c, s, t);
    LevelAdvances(c.capacity as real, TokenClock(c), a, s, t);
  }

  ghost function LevelOf(c: Limit, a: seq<int>, t: int): real {
    Level(c.capacity as real, TokenClock(c), a, t)
  }

  /* ---------- the stored bucket tracks that function ---------- */

  ghost predicate Tracks(c: Limit, store: map<string, Entry>, key: string, a: seq<int>, t: int) {
    if a == [] then key !in store
    else
      var n := |a| - 1;
      && key in store
      && a[n] <= t
      && store[key].tokens == LevelOf(c, a[..n], a[n]) - 1.0
      && store[key].tokens >= 0.0
      && store[key].lastRefill == a[n]
      && store[key].deadline == a[n] + 1000 * c.ttl
  }

  // An untouched ttl refills the whole bucket, so forgetting it changes nothing.
  lemma IdleRefills(c: Limit, since: int, t: int)
    requires Enforced(c) && Covers(c) && t >= since + 1000 * c.ttl
    ensures TokenClock(c)(t) - TokenClock(c)(since) >= c.capacity as real
  {
    Refill(c, since, t);
    Refill(c, 1000 * c.ttl, t - since);
  }

  lemma RefilledEntry(c: Limit, e: Entry, t: int)
    requires e.lastRefill <= t
    ensures Available(c, Some(e), t) ==
            Min(c.capacity as real, e.tokens + (TokenClock(c)(t) - TokenClock(c)(e.lastRefill)))
  {
    Refill(c, e.lastRefill, t);
  }

  lemma AvailableIsLevel(c: Limit, store: map<string, Entry>, key: string, a: seq<int>, t: int)
    requires Enforced(c) && Covers(c) && Tracks(c, store, key, a, t)
    ensures Available(c, Live(store, key, t), t) == LevelOf(c, a, t)
  {
    if a != [] {
      RefilledEntry(c, store[key], t);
      if t >= store[key].deadline {
        IdleRefills(c, a[|a| - 1], t);
      }
    }
  }

  lemma {:induction false} RunTracks(c: Limit, rs: Requests, key: string, t: int)
    requires Enforced(c) && Covers(c) && Ordered(rs, t)
    ensures Tracks(c, After(c, rs), key, Admitted(c, rs, key), t)
  {
    if rs.Then? {
      RunTracks(c, rs.prior, key, rs.now);
      var a := Admitted(c, rs.prior, key);
      if rs.key == key && Admits(c, rs.prior, key, rs.now) {
        AvailableIsLevel(c, After(c, rs.prior), key, a, rs.now);
        assert (a + [rs.now])[..|a|] == a;
      } else {
        assert a + [] == a;
      }
    }
  }

  ghost function Wait(c: Limit, a: seq<int>, now: int): int
    requires c.rate > 0.0
  {
    Ceil((1.0 - LevelOf(c, a, now)) / c.rate)
  }

  // The run's next decision, and the level it leaves for this key.
  lemma RunLevel(c: Limit, rs: Requests, key: string, t: int)
    requires Enforced(c) && Covers(c) && Ordered(rs, t)
    ensures Available(c, Live(After(c, rs), key, t), t) == LevelOf(c, Admitted(c, rs, key), t)
    ensures Admits(c, rs, key, t) <==> LevelOf(c, Admitted(c, rs, key), t) >= 1.0
    ensures !Admits(c, rs, key, t) ==>
              Decide(c, Live(After(c, rs), key, t), t) == Deny(Wait(c, Admitted(c, rs, key), t))
  {
    RunTracks(c, rs, key, t);
    AvailableIsLevel(c, After(c, rs), key, Admitted(c, rs, key), t);
  }

  // One more token at now keeps the admissions from a[i] on within capacity
  // plus the refill since a[i].
  predicate Fits(c: Limit, a: seq<int>, now: int, i: int)
    requires 0 <= i < |a|
  {
    (|a| - i) as real + 1.0 <= c.capacity as real + c.rate * (now - a[i]) as real
  }

  ghost predicate RoomAt(c: Limit, a: seq<int>, now: int) {
    forall i | 0 <= i < |a| :: Fits(c, a, now, i)
  }

  lemma FitsByClock(c: Limit, a: seq<int>, now: int, i: int)
    requires 0 <= i < |a|
    ensures Fits(c, a, now, i) <==>
            (|a| - i) as real + 1.0 <= c.capacity as real + (TokenClock(c)(now) - TokenClock(c)(a[i]))
  {
    Refill(c, a[i], now);
  }

  lemma RoomIsLevel(c: Limit, a: seq<int>, now: int)
    requires c.capacity > 0
    ensures RoomAt(c, a, now) <==> LevelOf(c, a, now) >= 1.0
  {
    var cap, clock := c.capacity as real, TokenClock(c);
    forall i | 0 <= i < |a|
      ensures Fits(c, a, now, i) <==> (|a| - i) as real + 1.0 <= cap + (clock(now) - clock(a[i]))
    {
      FitsByClock(c, a, now, i);
    }
    LevelLaw(cap, clock, a, now, 1.0);
  }

  /** The admission law: under a forward clock a request is admitted exactly
      when there is room for it. */
  lemma AdmissionLaw(c: Limit, rs: Requests, key: string, now: int)
    requires Enforced(c) && Covers(c) && Ordered(rs, now)
    ensures Admits(c, rs, key, now) <==> RoomAt(c, Admitted(c, rs, key), now)
  {
    RunLevel(c, rs, key, now);
    RoomIsLevel(c, Admitted(c, rs, key), now);
  }

  /* ---------- many limiters over one store ---------- */

  // Requests of any limiters, newest outermost; keys carry the limiter's scope.
  datatype Traffic = Quiet | Request(earlier: Traffic, limit: Limit, key: string, now: int)

  function Stored(tr: Traffic): map<string, Entry> {
    match tr
    case Quiet => map[]
    case Request(earlier, c, key, now) =>
      if Enforced(c) then Write(c, Stored(earlier), key, now) else Stored(earlier)
  }

  // Every request of this key goes through the limit c, and the clock ran forward.
  predicate Runs(tr: Traffic, key: string, c: Limit, t: int) {
    match tr
    case Quiet => true
    case Request(earlier, d, k, now) => now <= t && (k == key ==> d == c) && Runs(earlier, key, c, now)
  }

  function Only(tr: Traffic, key: string): Requests {
    match tr
    case Quiet => Fresh
    case Request(earlier, _, k, now) => if k == key then Then(Only(earlier, key), k, now) else Only(earlier, key)
  }

  lemma {:induction false} OthersDoNotInterfere(tr: Traffic, key: string, c: Limit, t: int)
    requires Enforced(c) && Runs(tr, key, c, t)
    ensures var alone := After(c, Only(tr, key));
            (key in Stored(tr) <==> key in alone) && (key in alone ==> Stored(tr)[key] == alone[key])
    ensures Ordered(Only(tr, key), t)
  {
    if tr.Request? {
      OthersDoNotInterfere(tr.earlier, key, c, tr.now);
      if tr.key != key { OrderedLater(Only(tr.earlier, key), tr.now, t); }
    }
  }

  lemma OrderedLater(rs: Requests, s: int, t: int)
    requires Ordered(rs, s) && s <= t
    ensures Ordered(rs, t)
  {
  }

  /** The law holds for each key of a store that any number of limiters share. */
  lemma AdmissionLawInTraffic(tr: Traffic, key: string, c: Limit, now: int)
    requires Enforced(c) && Covers(c) && Runs(tr, key, c, now)
    ensures Decide(c, Live(Stored(tr), key, now), now).Admit? <==>
            RoomAt(c, Admitted(c, Only(tr, key), key), now)
  {
    OthersDoNotInterfere(tr, key, c, now);
    AdmissionLaw(c, Only(tr, key), key, now);
  }

  /* ---------- how much any interval admits ---------- */

  ghost predicate Spaced(cap: real, clock: int -> real, a: seq<int>) {
    forall i, j | 0 <= i <= j < |a| :: (j - i + 1) as real <= cap + (clock(a[j]) - clock(a[i]))
  }

  lemma SpacedAppend(cap: real, clock: int -> real, a: seq<int>, t: int)
    requires Spaced(cap, clock, a) && Level(cap, clock, a, t) >= 1.0
    ensures Spaced(cap, clock, a + [t])
  {
    LevelLaw(cap, clock, a, t, 1.0);
    var b := a + [t];
    forall i, j | 0 <= i <= j < |b|
      ensures (j - i + 1) as real <= cap + (clock(b[j]) - clock(b[i]))
    {
      if j < |a| { assert b[i] == a[i] && b[j] == a[j]; } else if i < |a| { assert b[i] == a[i]; }
    }
  }

  lemma {:induction false} AdmissionsAreSpaced(c: Limit, rs: Requests, key: string, t: int)
    requires Enforced(c) && Covers(c) && Ordered(rs, t)
    ensures Spaced(c.capacity as real, TokenClock(c), Admitted(c, rs, key))
  {
    if rs.Then? {
      AdmissionsAreSpaced(c, rs.prior, key, rs.now);
      RunLevel(c, rs.prior, rs.key, rs.now);
      var a := Admitted(c, rs.prior, key);
      if rs.key == key && Admits(c, rs.prior, key, rs.now) {
        SpacedAppend(c.capacity as real, TokenClock(c), a, rs.now);
      } else {
        assert a + [] == a;
      }
    }
  }

  function Within(a: seq<int>, s: int, t: int): set<int> {
    set i | 0 <= i < |a| && s <= a[i] <= t
  }

  /** Any interval of time admits at most capacity plus its own refill. */
  lemma IntervalBound(c: Limit, rs: Requests, key: string, end: int, s: int, t: int)
    requires Enforced(c) && Covers(c) && Ordered(rs, end) && s <= t
    ensures |Within(Admitted(c, rs, key), s, t)| as real <= c.capacity as real + c.rate * (t - s) as real
  {
    var a := Admitted(c, rs, key);
    var x := Within(a, s, t);
    Refill(c, s, t);
    if x != {} {
      AdmissionsAreSpaced(c, rs, key, end);
      var lo, hi := SpanOf(x);
      RangeSize(x, lo, hi);
      Refill(c, s, a[lo]);
      Refill(c, a[hi], t);
    }
  }

  /* ---------- refinement to a bucket that never forgets ---------- */

  // Adds rate every millisecond, caps, has no expiry and no lazy refill.
  datatype Eager = Eager(level: real, clock: int)

  function Elapse(c: Limit, m: Eager, now: int): Eager
    decreases now - m.clock
  {
    if now <= m.clock then m
    else Elapse(c, Eager(Min(c.capacity as real, m.level + c.rate), m.clock + 1), now)
  }

  // The eager bucket of one key over the same requests, from full at origin.
  function EagerAfter(c: Limit, rs: Requests, key: string, origin: int): Eager {
    match rs
    case Fresh => Eager(c.capacity as real, origin)
    case Then(prior, k, now) =>
      var m := Elapse(c, EagerAfter(c, prior, key, origin), now);
      if k == key && m.level >= 1.0 then m.(level := m.level - 1.0) else m
  }

  predicate EagerAdmits(c: Limit, rs: Requests, key: string, origin: int, now: int) {
    Elapse(c, EagerAfter(c, rs, key, origin), now).level >= 1.0
  }

  predicate Since(rs: Requests, origin: int) {
    match rs
    case Fresh => true
    case Then(prior, _, now) => origin <= now && Since(prior, origin)
  }

  lemma {:induction false} ElapseClosed(c: Limit, m: Eager, now: int)
    requires c.rate >= 0.0 && m.level <= c.capacity as real && m.clock <= now
    ensures Elapse(c, m, now) ==
            Eager(Min(c.capacity as real, m.level + (TokenClock(c)(now) - TokenClock(c)(m.clock))), now)
    decreases now - m.clock
  {
    if m.clock < now {
      var next := Eager(Min(c.capacity as real, m.level + c.rate), m.clock + 1);
      ElapseClosed(c, next, now);
      Refill(c, m.clock, next.clock);
      Refill(c, next.clock, now);
    }
  }

  // Elapsing a level is the level elapsed.
  lemma ElapsedLevel(c: Limit, a: seq<int>, m: Eager, now: int)
    requires c.rate >= 0.0 && m.level <= c.capacity as real && m.clock <= now
    requires m.level == LevelOf(c, a, m.clock)
    ensures Elapse(c, m, now) == Eager(LevelOf(c, a, now), now)
  {
    ElapseClosed(c, m, now);
    Refill(c, m.clock, now);
    LevelAdvances(c.capacity as real, TokenClock(c), a, m.clock, now);
  }

  lemma SpendOne(c: Limit, a: seq<int>, t: int)
    ensures LevelOf(c, a + [t], t) == Min(c.capacity as real, LevelOf(c, a, t) - 1.0)
    ensures LevelOf(c, a, t) <= c.capacity as real
  {
    assert (a + [t])[..|a|] == a;
  }

  lemma {:induction false} EagerLevel(c: Limit, rs: Requests, key: string, origin: int, t: int)
    requires Enforced(c) && Covers(c) && Ordered(rs, t) && Since(rs, origin) && origin <= t
    ensures var m := EagerAfter(c, rs, key, origin);
            m.clock <= t && m.level <= c.capacity as real &&
            m.level == LevelOf(c, Admitted(c, rs, key), m.clock)
  {
    if rs.Then? {
      EagerLevel(c, rs.prior, key, origin, rs.now);
      var a := Admitted(c, rs.prior, key);
      ElapsedLevel(c, a, EagerAfter(c, rs.prior, key, origin), rs.now);
      RunLevel(c, rs.prior, key, rs.now);
      SpendOne(c, a, rs.now);
      assert a + [] == a;
    }
  }

  /** Lazy refill, the unwritten denial and the key's expiry are invisible: the
      stored bucket and the eager one decide alike on every request sequence. */
  lemma StoredRefinesEager(c: Limit, rs: Requests, key: string, origin: int, now: int)
    requires Enforced(c) && Covers(c) && Ordered(rs, now) && Since(rs, origin) && origin <= now
    ensures Admits(c, rs, key, now) <==> EagerAdmits(c, rs, key, origin, now)
  {
    EagerLevel(c, rs, key, origin, now);
    ElapsedLevel(c, Admitted(c, rs, key), EagerAfter(c, rs, key, origin), now);
    RunLevel(c, rs, key, now);
  }

  // n requests of one key at one instant.
  function Burst(rs: Requests, n: nat, now: int): Requests {
    if n == 0 then rs else Then(Burst(rs, n - 1, now), "k", now)
  }

  lemma {:induction false} BurstOrdered(rs: Requests, n: nat, now: int, t: int)
    requires Ordered(rs, now) && now <= t && Since(rs, 0) && 0 <= now
    ensures Ordered(Burst(rs, n, now), t) && Since(Burst(rs, n, now), 0)
  {
    if n > 0 { BurstOrdered(rs, n - 1, now, now); } else { OrderedLater(rs, now, t); }
  }

  // A full bucket serves a burst of its whole capacity, one token each.
  lemma {:induction false} StoredBurst(c: Limit, rs: Requests, n: nat, now: int)
    requires Enforced(c) && n <= c.capacity
    requires Available(c, Live(After(c, rs), "k", now), now) == c.capacity as real
    ensures Available(c, Live(After(c, Burst(rs, n, now)), "k", now), now) == (c.capacity - n) as real
    ensures n > 0 ==> "k" in After(c, Burst(rs, n, now))
    ensures n > 0 ==>
              After(c, Burst(rs, n, now))["k"] == Entry((c.capacity - n) as real, now, now + 1000 * c.ttl)
  {
    if n > 0 {
      StoredBurst(c, rs, n - 1, now);
      var before := After(c, Burst(rs, n - 1, now));
      assert Decide(c, Live(before, "k", now), now).Admit?;
    }
  }

  lemma {:induction false} EagerBurst(c: Limit, rs: Requests, n: nat, now: int, level: real)
    requires Elapse(c, EagerAfter(c, rs, "k", 0), now) == Eager(level, now)
    requires forall k | 0 <= k < n :: EagerAdmits(c, Burst(rs, k, now), "k", 0, now)
    ensures Elapse(c, EagerAfter(c, Burst(rs, n, now), "k", 0), now) == Eager(level - n as real, now)
  {
    if n > 0 {
      EagerBurst(c, rs, n - 1, now, level);
      assert EagerAdmits(c, Burst(rs, n - 1, now), "k", 0, now);
    }
  }

  // A burst of capacity requests is refused somewhere when the level is short of it.
  lemma FirstRefusal(c: Limit, rs: Requests, now: int, level: real) returns (k: nat)
    requires Enforced(c) && level < c.capacity as real
    requires Elapse(c, EagerAfter(c, rs, "k", 0), now) == Eager(level, now)
    ensures k < c.capacity && !EagerAdmits(c, Burst(rs, k, now), "k", 0, now)
  {
    k := 0;
    while k < c.capacity && EagerAdmits(c, Burst(rs, k, now), "k", 0, now)
      invariant k <= c.capacity
      invariant forall j | 0 <= j < k :: EagerAdmits(c, Burst(rs, j, now), "k", 0, now)
    {
      k := k + 1;
    }
    if k == c.capacity {
      EagerBurst(c, rs, k - 1, now, level);
    }
  }

  lemma EagerDrained(c: Limit)
    requires Enforced(c)
    ensures EagerAfter(c, Burst(Fresh, c.capacity, 0), "k", 0) == Eager(0.0, 0)
  {
    FirstBurstAdmitted(c, c.capacity - 1);
  }

  lemma UncoveredFallsShort(c: Limit)
    requires Enforced(c) && !Covers(c)
    ensures Elapse(c, Eager(0.0, 0), 1000 * c.ttl).clock == 1000 * c.ttl
    ensures Elapse(c, Eager(0.0, 0), 1000 * c.ttl).level < c.capacity as real
  {
    ElapseClosed(c, Eager(0.0, 0), 1000 * c.ttl);
    Refill(c, 0, 1000 * c.ttl);
  }

  // Without cover, drain the bucket, wait out the ttl and drain it again: the
  // forgotten bucket serves a full second burst, the eager one cannot.
  lemma ForgettingEarlyDiffers(c: Limit) returns (rs: Requests, now: int)
    requires Enforced(c) && !Covers(c)
    ensures Ordered(rs, now) && Since(rs, 0) && 0 <= now
    ensures Admits(c, rs, "k", now) && !EagerAdmits(c, rs, "k", 0, now)
  {
    now := 1000 * c.ttl;
    var drained := Burst(Fresh, c.capacity, 0);
    StoredBurst(c, Fresh, c.capacity, 0);
    assert Live(After(c, drained), "k", now) == None;
    EagerDrained(c);
    UncoveredFallsShort(c);
    var k := FirstRefusal(c, drained, now, Elapse(c, Eager(0.0, 0), now).level);
    StoredBurst(c, drained, k, now);
    BurstOrdered(Fresh, c.capacity, 0, now);
    BurstOrdered(drained, k, now, now);
    rs := Burst(drained, k, now);
  }

  lemma {:induction false} FirstBurstAdmitted(c: Limit, k: nat)
    requires Enforced(c) && k < c.capacity
    ensures EagerAfter(c, Burst(Fresh, k, 0), "k", 0) == Eager((c.capacity - k) as real, 0)
    ensures EagerAdmits(c, Burst(Fresh, k, 0), "k", 0, 0)
  {
    if k > 0 { FirstBurstAdmitted(c, k - 1); }
  }

  ghost predicate AgreesWithEager(c: Limit)
    requires c.rate > 0.0
  {
    forall rs: Requests, key: string, now: int | Ordered(rs, now) && Since(rs, 0) && 0 <= now ::
      Admits(c, rs, key, now) <==> EagerAdmits(c, rs, key, 0, now)
  }

  /** Covering the capacity is exactly what the expiry needs to be invisible. */
  lemma ExpiryIsInvisibleIff(c: Limit)
    requires Enforced(c)
    ensures AgreesWithEager(c) <==> Covers(c)
  {
    if Covers(c) {
      forall rs: Requests, key: string, now: int | Ordered(rs, now) && Since(rs, 0) && 0 <= now
        ensures Admits(c, rs, key, now) <==> EagerAdmits(c, rs, key, 0, now)
      {
        StoredRefinesEager(c, rs, key, 0, now);
      }
    } else {
      var rs, now := ForgettingEarlyDiffers(c);
    }
  }

  /* ---------- Retry-After ---------- */

  // The Retry-After header (section 10.2.3 of RFC 9110): whole seconds, rounded
  // up, never below one.
  function HeaderSeconds(retryAfterMs: int): (s: int)
    ensures s >= 1
    ensures 1000 * s >= retryAfterMs
    ensures retryAfterMs >= 1 ==> 1000 * (s - 1) < retryAfterMs
  {
    Max(1, Ceil(retryAfterMs as real / 1000.0))
  }

  lemma QuotientBelow(x: real, rate: real, y: real)
    requires rate > 0.0
    ensures x / rate <= y <==> x <= rate * y
  {
    assert (x / rate) * rate == x;
  }

  // A wait of d whole milliseconds refills need tokens exactly from Ceil(need / rate) on.
  lemma CeilIsLeastWait(need: real, rate: real, d: int)
    requires rate > 0.0
    ensures d >= Ceil(need / rate) <==> rate * d as real >= need
  {
    QuotientBelow(need, rate, d as real);
  }

  // The wait the script names is the least one that lifts the level to a token.
  lemma WaitForToken(c: Limit, a: seq<int>, now: int, later: int)
    requires Enforced(c) && now <= later && LevelOf(c, a, now) < 1.0
    ensures var ms := Wait(c, a, now);
            ms >= 1 && (LevelOf(c, a, later) >= 1.0 <==> later >= now + ms)
  {
    var need := 1.0 - LevelOf(c, a, now);
    LevelAdvanceOf(c, a, now, later);
    CeilIsLeastWait(need, c.rate, 0);
    CeilIsLeastWait(need, c.rate, later - now);
  }

  /** After a denial at now, and as long as this key is admitted nothing more,
      a request at later is admitted exactly from now + retry_after_ms on. */
  lemma RetryAfterIsLeast(c: Limit, rs: Requests, key: string, now: int, more: Requests, later: int)
    requires Enforced(c) && Covers(c) && Ordered(rs, now) && Ordered(more, later) && now <= later
    requires Decide(c, Live(After(c, rs), key, now), now).Deny?
    requires Admitted(c, more, key) == Admitted(c, rs, key)
    ensures var ms := Decide(c, Live(After(c, rs), key, now), now).retryAfterMs;
            && ms >= 1
            && (Admits(c, more, key, later) <==> later >= now + ms)
            && (later >= now + 1000 * HeaderSeconds(ms) ==> Admits(c, more, key, later))
  {
    RunLevel(c, rs, key, now);
    RunLevel(c, more, key, later);
    WaitForToken(c, Admitted(c, rs, key), now, later);
  }

  /* ---------- clocks that may run backwards ---------- */

  datatype Times = Start | Tick(before: Times, now: int)

  // One key whose entry never expires, with the times it was admitted.
  datatype Ageless = Ageless(entry: Option<Entry>, admitted: seq<int>)

  function Offer(c: Limit, s: Ageless, now: int): Ageless
    requires c.rate > 0.0
  {
    if Decide(c, s.entry, now).Admit? then
      Ageless(Some(Entry(Available(c, s.entry, now) - 1.0, now, now + 1000 * c.ttl)), s.admitted + [now])
    else s
  }

  // The key fed any times at all.
  function Unexpiring(c: Limit, ts: Times): Ageless
    requires c.rate > 0.0
  {
    match ts
    case Start => Ageless(None, [])
    case Tick(before, now) => Offer(c, Unexpiring(c, before), now)
  }

  // How far the clock moved forward between consecutive admissions.
  function ForwardTravel(a: seq<int>): nat {
    if |a| <= 1 then 0
    else ForwardTravel(a[..|a| - 1]) + Max(0, a[|a| - 1] - a[|a| - 2])
  }

  ghost predicate WithinTravel(c: Limit, s: Ageless) {
    var a := s.admitted;
    match s.entry
    case None => a == []
    case Some(b) =>
      && a != [] && b.lastRefill == a[|a| - 1]
      && 0.0 <= b.tokens <= c.capacity as real - 1.0
      && b.tokens + |a| as real <= c.capacity as real + c.rate * ForwardTravel(a) as real
  }

  // One request: an admission gains at most the forward step, then pays one.
  lemma OfferWithinTravel(c: Limit, s: Ageless, now: int)
    requires Enforced(c) && WithinTravel(c, s)
    ensures WithinTravel(c, Offer(c, s, now))
  {
    var a := s.admitted;
    assert (a + [now])[..|a|] == a;
    if s.entry.Some? {
      var f, d := ForwardTravel(a), Max(0, now - s.entry.value.lastRefill);
      assert ForwardTravel(a + [now]) == f + d;
      Refill(c, f, f + d);
    }
  }

  lemma {:induction false} UnexpiringWithinTravel(c: Limit, ts: Times)
    requires Enforced(c)
    ensures WithinTravel(c, Unexpiring(c, ts))
  {
    if ts.Tick? {
      UnexpiringWithinTravel(c, ts.before);
      OfferWithinTravel(c, Unexpiring(c, ts.before), ts.now);
    }
  }

  // At most capacity admissions plus the refill of the clock's forward steps,
  // and never a token less than none or more than capacity - 1.
  ghost predicate BoundedByTravel(c: Limit, s: Ageless) {
    && |s.admitted| as real <= c.capacity as real + c.rate * ForwardTravel(s.admitted) as real
    && (s.entry.Some? ==> 0.0 <= s.entry.value.tokens <= c.capacity as real - 1.0)
  }

  lemma TravelBound(c: Limit, s: Ageless)
    requires Enforced(c) && WithinTravel(c, s)
    ensures BoundedByTravel(c, s)
  {
  }

  /** The bound holds whatever times the caller supplies to a fresh bucket. */
  lemma ClockIndependentBound(c: Limit, ts: Times)
    requires Enforced(c)
    ensures BoundedByTravel(c, Unexpiring(c, ts))
  {
    UnexpiringWithinTravel(c, ts);
    TravelBound(c, Unexpiring(c, ts));
  }

  /* ---------- the limits the routes register ---------- */

  type Scope = s: string | ':' !in s witness ""

  // permits per window of the given seconds.
  datatype Registration = Registration(scope: Scope, permits: int, window: int, capacity: int, ttl: int)

  function LimitOf(permits: real, windowSeconds: real, capacity: int, ttl: int): Limit
    requires windowSeconds != 0.0
  {
    Limit(permits / windowSeconds / 1000.0, capacity, ttl)
  }

  const AUTH_LIMITERS: seq<Registration> := [
    Registration("auth_check_phone_ip", 30, 60, 10, 60),
    Registration("auth_check_phone_phone", 10, 60, 5, 60),
    Registration("auth_register_ip", 10, 3600, 5, 3600),
    Registration("auth_register", 18, 3600, 6, 3600),
    Registration("auth_send_otp_ip", 20, 3600, 5, 3600),
    Registration("auth_send_otp", 10, 3600, 4, 3600),
    Registration("auth_send_email_otp_ip", 20, 3600, 5, 3600),
    Registration("auth_send_email_otp", 5, 3600, 3, 3600),
    Registration("auth_verify_email", 30, 3600, 10, 3600),
    Registration("auth_logout", 10, 60, 5, 60)
  ]

  const ONBOARDING_LIMITERS: seq<Registration> := [
    Registration("onboarding_init", 30, 60, 12, 60),
    Registration("onboarding_submit", 20, 60, 10, 60),
    Registration("onboarding_resubmit", 20, 60, 10, 60)
  ]

  const PROFILE_LIMITERS: seq<Registration> := [
    Registration("profile_get", 60, 60, 30, 60),
    Registration("profile_update", 10, 60, 5, 60),
    Registration("profile_email_send_otp", 5, 3600, 3, 3600),
    Registration("profile_email_verify", 30, 3600, 10, 3600),
    Registration("address_list", 60, 60, 30, 60),
    Registration("address_create", 10, 60, 5, 60),
    Registration("address_update", 10, 60, 5, 60),
    Registration("address_delete", 10, 60, 5, 60)
  ]

  const UPLOAD_LIMITERS: seq<Registration> := [
    Registration("init_session_ip", 30, 60, 10, 60),
    Registration("uploads_presigned_url", 30, 60, 20, 60)
  ]

  const REGISTERED: seq<Registration> :=
    AUTH_LIMITERS + ONBOARDING_LIMITERS + PROFILE_LIMITERS + UPLOAD_LIMITERS

  lemma RateTimesWindow(permits: real, window: real, ttl: int)
    requires window > 0.0 && permits > 0.0
    ensures var rate := permits / window / 1000.0;
            rate > 0.0 && rate * (1000 * ttl) as real == permits * ttl as real / window
  {
    var perSecond := permits / window;
    assert perSecond * window == permits;
    assert perSecond > 0.0;
    var rate := perSecond / 1000.0;
    assert rate * 1000.0 == perSecond;
    assert rate * (1000 * ttl) as real == perSecond * ttl as real;
  }

  lemma EnoughPermits(permits: real, window: real, capacity: int, ttl: int)
    requires window > 0.0 && permits > 0.0 && permits * ttl as real >= capacity as real * window
    requires capacity > 0 && ttl > 0
    ensures Enforced(LimitOf(permits, window, capacity, ttl))
    ensures Covers(LimitOf(permits, window, capacity, ttl))
  {
    RateTimesWindow(permits, window, ttl);
    QuotientBelow(capacity as real * window, window, permits * ttl as real / window);
    assert (permits * ttl as real / window) * window == permits * ttl as real;
  }

  /** Every limiter the routes register is enforced and covers its capacity. */
  lemma EveryRegisteredLimitCovers(i: int)
    requires 0 <= i < |REGISTERED|
    ensures var r := REGISTERED[i];
            r.window > 0 &&
            var c := LimitOf(r.permits as real, r.window as real, r.capacity, r.ttl);
            Enforced(c) && Covers(c)
  {
    var r := REGISTERED[i];
    assert r.window > 0 && r.permits > 0 && r.capacity > 0 && r.ttl > 0;
    assert r.permits * r.ttl >= r.capacity * r.window;
    EnoughPermits(r.permits as real, r.window as real, r.capacity, r.ttl);
  }

  // SlidingWindowRateLimit: limit permits per window, with the ttl rounded up.
  lemma SlidingWindowCovers(limit: int, windowSeconds: real)
    requires limit > 0 && windowSeconds > 0.0
    ensures var c := LimitOf(limit as real, windowSeconds, limit, Ceil(windowSeconds));
            Enforced(c) && Covers(c)
  {
    EnoughPermits(limit as real, windowSeconds, limit, Ceil(windowSeconds));
  }
}
