/** Redis keys with a time to live, as maps, and the fixed-window counter the
    services build from INCR and EXPIRE. A key is readable while now < deadline. */
module RedisTtl {
  import opened Common
  import opened IntSets

  datatype Cell<V> = Cell(value: V, deadline: Option<int>)

  type Keys<K, V> = map<K, Cell<V>>

  predicate Live<K, V>(m: Keys<K, V>, k: K, now: int) {
    k in m && (m[k].deadline.None? || now < m[k].deadline.value)
  }

  function Get<K, V>(m: Keys<K, V>, k: K, now: int): Option<V> {
    if Live(m, k, now) then Some(m[k].value) else None
  }

  function SetKey<K, V>(m: Keys<K, V>, k: K, v: V, now: int, ttl: int): Keys<K, V> {
    m[k := Cell(v, Some(now + ttl))]
  }

  // INCR keeps a live key's deadline and starts an absent one at 1 with none.
  function Incr<K>(m: Keys<K, int>, k: K, now: int): Keys<K, int> {
    if Live(m, k, now) then m[k := Cell(m[k].value + 1, m[k].deadline)] else m[k := Cell(1, None)]
  }

  function Expire<K, V>(m: Keys<K, V>, k: K, now: int, ttl: int): Keys<K, V> {
    if Live(m, k, now) then m[k := Cell(m[k].value, Some(now + ttl))] else m
  }

  function Del<K, V>(m: Keys<K, V>, k: K): Keys<K, V> { m - {k} }

  // INCR, then EXPIRE only when the count came back 1.
  function Bump<K>(m: Keys<K, int>, k: K, now: int, ttl: int): Keys<K, int> {
    var counted := Incr(m, k, now);
    if counted[k].value == 1 then Expire(counted, k, now, ttl) else counted
  }

  function CountOr0<K>(m: Keys<K, int>, k: K, now: int): int {
    match Get(m, k, now) case Some(n) => n case None => 0
  }

  // IncrementCounterWithTTL of internal/middleware/rate_limit.go.
  method IncrementCounterWithTTL<K>(m: Keys<K, int>, k: K, now: int, ttl: int)
    returns (cnt: int, after: Keys<K, int>)
    ensures after == Bump(m, k, now, ttl)
    ensures cnt == CountOr0(m, k, now) + 1
    ensures Live(m, k, now) && m[k].value >= 1 ==> after[k].deadline == m[k].deadline
  {
    after := Incr(m, k, now);
    cnt := after[k].value;
    if cnt == 1 {
      after := Expire(after, k, now, ttl);
    }
  }

  /* ---------- fixed windows ---------- */

  // The event that opened the window event i falls in: a window closes one ttl
  // after it opened, and the next event opens the next.
  function Opener(times: seq<int>, ttl: int, i: nat): (o: nat)
    requires i < |times|
    ensures o <= i
    decreases i
  {
    if i == 0 then 0
    else
      var o := Opener(times, ttl, i - 1);
      if times[i] < times[o] + ttl then o else i
  }

  predicate Ascending(times: seq<int>, t: int) {
    (forall i, j | 0 <= i <= j < |times| :: times[i] <= times[j]) &&
    (forall i | 0 <= i < |times| :: times[i] <= t)
  }

  // No window holds more than limit events.
  ghost predicate PerWindow(times: seq<int>, ttl: int, limit: int) {
    forall i: nat | i < |times| :: i - Opener(times, ttl, i) + 1 <= limit
  }

  // The counter cell holds the size and the end of the last window.
  ghost predicate Counts<K>(m: Keys<K, int>, k: K, times: seq<int>, ttl: int) {
    if times == [] then k !in m
    else
      var n := |times| - 1;
      var o := Opener(times, ttl, n);
      k in m && m[k] == Cell(n - o + 1, Some(times[o] + ttl))
  }

  lemma {:induction false} OpenerOfPrefix(times: seq<int>, ttl: int, t: int, i: nat)
    requires i < |times|
    ensures Opener(times + [t], ttl, i) == Opener(times, ttl, i)
    decreases i
  {
    if i > 0 { OpenerOfPrefix(times, ttl, t, i - 1); }
  }

  // A guarded bump: the counter refuses at the limit, else records one event.
  lemma BumpCounts<K>(m: Keys<K, int>, k: K, times: seq<int>, ttl: int, limit: int, now: int)
    requires ttl > 0 && limit >= 1 && Ascending(times, now)
    requires Counts(m, k, times, ttl) && PerWindow(times, ttl, limit)
    requires CountOr0(m, k, now) < limit
    ensures Counts(Bump(m, k, now, ttl), k, times + [now], ttl)
    ensures PerWindow(times + [now], ttl, limit)
    ensures Ascending(times + [now], now)
  {
    var more := times + [now];
    forall i: nat | i < |times|
      ensures Opener(more, ttl, i) == Opener(times, ttl, i)
    {
      OpenerOfPrefix(times, ttl, now, i);
    }
    if times != [] {
      var o := Opener(times, ttl, |times| - 1);
      assert more[o] == times[o];
      assert Live(m, k, now) <==> now < times[o] + ttl;
    }
  }

  // Two windows later is at least one window length later.
  lemma TwoWindowsApart(times: seq<int>, ttl: int, limit: nat, i: nat, j: nat)
    requires PerWindow(times, ttl, limit) && limit >= 1
    requires forall x, y | 0 <= x <= y < |times| :: times[x] <= times[y]
    requires i + 2 * limit <= j < |times|
    ensures times[j] >= times[i] + ttl
  {
    var o := Opener(times, ttl, j);
    assert j - o + 1 <= limit;
    OpenerOpens(times, ttl, j);
    var p := Opener(times, ttl, o - 1);
    assert (o - 1) - p + 1 <= limit;
    assert i <= p;
  }

  lemma {:induction false} OpenerOpens(times: seq<int>, ttl: int, i: nat)
    requires i < |times|
    ensures var o := Opener(times, ttl, i);
            o > 0 ==> times[o] >= times[Opener(times, ttl, o - 1)] + ttl
    decreases i
  {
    if i > 0 { OpenerOpens(times, ttl, i - 1); }
  }

  // Events in the half-open interval of one window length from s.
  function During(times: seq<int>, s: int, ttl: int): set<int> {
    set i | 0 <= i < |times| && s <= times[i] < s + ttl
  }

  /** Any interval of one window length holds at most twice the limit. */
  lemma AnyWindowLength(times: seq<int>, ttl: int, limit: nat, s: int)
    requires PerWindow(times, ttl, limit) && limit >= 1
    requires forall x, y | 0 <= x <= y < |times| :: times[x] <= times[y]
    ensures |During(times, s, ttl)| <= 2 * limit
  {
    var x := During(times, s, ttl);
    if x != {} {
      var lo, hi := SpanOf(x);
      if hi >= lo + 2 * limit {
        TwoWindowsApart(times, ttl, limit, lo, hi);
      }
      RangeSize(x, lo, hi);
    }
  }
}
