/** The rate-limit middleware of internal/middleware/rate_limit.go over the
    shared Redis hashes. */
module Limiter {
  import opened Common
  import opened Text
  import opened TokenBucket

  datatype Outcome = Next | TooManyRequests(retryAfterSeconds: int)

  function BucketKey(scope: string, key: string): string { "ratelimit:" + scope + ":" + key }

  // The client address stands in for an empty key.
  function SubjectOf(keyOfRequest: string, clientIP: string): string {
    if keyOfRequest == "" then clientIP else keyOfRequest
  }

  class Middleware {
    var buckets: map<string, Entry>

    constructor ()
      ensures buckets == map[]
    {
      buckets := map[];
    }

    // The Lua script: read, refill, cap, then either refuse or spend and write.
    method LeakyBucketScript(key: string, now: int, rate: real, capacity: int, ttl: int)
      returns (allowed: int, retryAfterMs: int)
      requires rate > 0.0
      modifies this
      ensures var c := Limit(rate, capacity, ttl);
              && buckets == Write(c, old(buckets), key, now)
              && allowed == (if Decide(c, Live(old(buckets), key, now), now).Admit? then 1 else 0)
              && (allowed == 0 ==> Decide(c, Live(old(buckets), key, now), now) == Deny(retryAfterMs))
    {
      var bucket := Live(buckets, key, now);
      var tokens := if bucket.Some? then bucket.value.tokens else capacity as real;
      var lastRefill := if bucket.Some? then bucket.value.lastRefill else now;
      var elapsed := Max(0, now - lastRefill);
      tokens := Min(capacity as real, tokens + elapsed as real * rate);
      assert tokens == Available(Limit(rate, capacity, ttl), bucket, now);
      if tokens < 1.0 {
        return 0, Ceil((1.0 - tokens) / rate);
      }
      tokens := tokens - 1.0;
      buckets := buckets[key := Entry(tokens, now, now + 1000 * ttl)];
      return 1, 0;
    }

    method LeakyBucketRateLimit(scope: string, rate: real, capacity: int, ttlSeconds: int,
                                keyOfRequest: string, clientIP: string, now: int)
      returns (r: Outcome)
      modifies this
      ensures rate <= 0.0 || capacity <= 0 || ttlSeconds <= 0 ==> r == Next && buckets == old(buckets)
      ensures rate > 0.0 && capacity > 0 && ttlSeconds > 0 ==>
                var c := Limit(rate / 1000.0, capacity, ttlSeconds);
                var k := "ratelimit:" + scope + ":" + if keyOfRequest != "" then keyOfRequest else clientIP;
                && buckets == Write(c, old(buckets), k, now)
                && match Decide(c, Live(old(buckets), k, now), now)
                   case Admit => r == Next
                   case Deny(ms) => r == TooManyRequests(HeaderSeconds(ms))
    {
      if rate <= 0.0 || capacity <= 0 || ttlSeconds <= 0 {
        return Next;
      }
      var key := keyOfRequest;
      if key == "" {
        key := clientIP;
      }
      var allowed, retryAfterMs :=
        LeakyBucketScript(BucketKey(scope, key), now, rate / 1000.0, capacity, ttlSeconds);
      if allowed == 1 {
        return Next;
      }
      var retryAfterSeconds := Ceil(retryAfterMs as real / 1000.0);
      if retryAfterSeconds < 1 {
        retryAfterSeconds := 1;
      }
      return TooManyRequests(retryAfterSeconds);
    }
  }

  /* ---------- the registered limiters share the store ---------- */

  // Limiters by number: those of the routes, then the router-wide one.
  const DEFAULT_LIMITER := |REGISTERED|

  function ScopeOf(limiter: nat): Scope
    requires limiter <= DEFAULT_LIMITER
  {
    if limiter < |REGISTERED| then REGISTERED[limiter].scope else "default"
  }

  // The router-wide limiter admits perWindow requests per window, both configured.
  function LimitAt(limiter: nat, perWindow: int, window: real): Limit
    requires limiter <= DEFAULT_LIMITER && perWindow > 0 && window > 0.0
  {
    if limiter < |REGISTERED| then
      EveryRegisteredLimitCovers(limiter);
      var r := REGISTERED[limiter];
      LimitOf(r.permits as real, r.window as real, r.capacity, r.ttl)
    else LimitOf(perWindow as real, window, perWindow, Ceil(window))
  }

  // Length and three letters tell the scopes apart.
  function Numbered(scope: string): nat
    requires |scope| > 5
  {
    match |scope|
    case 11 => if scope[0] == 'a' then 9 else 13
    case 12 => 17
    case 13 => if scope[5] == 'r' then 3 else 5
    case 14 =>
      if scope[0] == 'p' then 14 else if scope[8] == 'c' then 18 else if scope[8] == 'u' then 19 else 20
    case 15 => if scope[5] == 'r' then 10 else 21
    case 16 => if scope[5] == 'r' then 2 else 4
    case 17 => if scope[5] == 'v' then 8 else 11
    case 19 => if scope[5] == 'c' then 0 else if scope[5] == 's' then 7 else 12
    case 20 => 16
    case 21 => 22
    case 22 => if scope[5] == 'c' then 1 else if scope[5] == 's' then 6 else 15
    case _ => 23
  }

  lemma AuthNumbers(i: nat)
    requires i < |AUTH_LIMITERS|
    ensures |AUTH_LIMITERS[i].scope| > 5 && Numbered(AUTH_LIMITERS[i].scope) == i
  {
  }

  lemma OnboardingNumbers(i: nat)
    requires i < |ONBOARDING_LIMITERS|
    ensures |ONBOARDING_LIMITERS[i].scope| > 5 && Numbered(ONBOARDING_LIMITERS[i].scope) == 10 + i
  {
  }

  lemma ProfileNumbers(i: nat)
    requires i < |PROFILE_LIMITERS|
    ensures |PROFILE_LIMITERS[i].scope| > 5 && Numbered(PROFILE_LIMITERS[i].scope) == 13 + i
  {
  }

  lemma UploadNumbers(i: nat)
    requires i < |UPLOAD_LIMITERS|
    ensures |UPLOAD_LIMITERS[i].scope| > 5 && Numbered(UPLOAD_LIMITERS[i].scope) == 21 + i
  {
  }

  lemma ScopesAreDistinct(limiter: nat)
    requires limiter <= DEFAULT_LIMITER
    ensures |ScopeOf(limiter)| > 5 && Numbered(ScopeOf(limiter)) == limiter
  {
    if limiter < 10 {
      AuthNumbers(limiter);
    } else if limiter < 13 {
      OnboardingNumbers(limiter - 10);
    } else if limiter < 21 {
      ProfileNumbers(limiter - 13);
    } else if limiter < 23 {
      UploadNumbers(limiter - 21);
    }
  }

  lemma KeyParts(scope: string, subject: string)
    ensures BucketKey(scope, subject)[10..] == scope + [':'] + subject
  {
  }

  lemma SameBucketSameScope(s: Scope, subject: string, t: Scope, other: string)
    requires BucketKey(s, subject) == BucketKey(t, other)
    ensures s == t && subject == other
  {
    KeyParts(s, subject);
    KeyParts(t, other);
    CutIsUnique(':', s, subject, t, other);
  }

  /** Two limiters never write one bucket key, whatever their subjects. */
  lemma BucketsAreDistinct(i: nat, subject: string, j: nat, other: string)
    requires i <= DEFAULT_LIMITER && j <= DEFAULT_LIMITER
    ensures BucketKey(ScopeOf(i), subject) == BucketKey(ScopeOf(j), other) <==> i == j && subject == other
  {
    if BucketKey(ScopeOf(i), subject) == BucketKey(ScopeOf(j), other) {
      SameBucketSameScope(ScopeOf(i), subject, ScopeOf(j), other);
      ScopesAreDistinct(i);
      ScopesAreDistinct(j);
    }
  }

  /** Two requests are counted together iff the same limiter sees them and their
      keys agree, the client address standing in for an empty one. */
  lemma SharedBucketIff(i: nat, key: string, ip: string, j: nat, otherKey: string, otherIP: string)
    requires i <= DEFAULT_LIMITER && j <= DEFAULT_LIMITER
    ensures BucketKey(ScopeOf(i), SubjectOf(key, ip)) == BucketKey(ScopeOf(j), SubjectOf(otherKey, otherIP)) <==>
            i == j && (if key != "" then key else ip) == (if otherKey != "" then otherKey else otherIP)
  {
    BucketsAreDistinct(i, SubjectOf(key, ip), j, SubjectOf(otherKey, otherIP));
  }

  // Requests as the routes see them, newest outermost: the limiter, the key its
  // key function makes of the request, and the client address.
  datatype Hits = NoHits | Hit(earlier: Hits, limiter: nat, key: string, clientIP: string, now: int)

  predicate FromRoutes(hits: Hits, t: int) {
    match hits
    case NoHits => true
    case Hit(earlier, i, _, _, now) => i <= DEFAULT_LIMITER && now <= t && FromRoutes(earlier, now)
  }

  function TrafficOf(hits: Hits, t: int, perWindow: int, window: real): Traffic
    requires FromRoutes(hits, t) && perWindow > 0 && window > 0.0
  {
    match hits
    case NoHits => Quiet
    case Hit(earlier, i, key, ip, now) =>
      Request(TrafficOf(earlier, now, perWindow, window), LimitAt(i, perWindow, window),
              BucketKey(ScopeOf(i), SubjectOf(key, ip)), now)
  }

  lemma {:induction false} RoutesRunOneLimit(hits: Hits, t: int, perWindow: int, window: real, i: nat, subject: string)
    requires FromRoutes(hits, t) && perWindow > 0 && window > 0.0 && i <= DEFAULT_LIMITER
    ensures Runs(TrafficOf(hits, t, perWindow, window),
                 BucketKey(ScopeOf(i), subject), LimitAt(i, perWindow, window), t)
  {
    if hits.Hit? {
      RoutesRunOneLimit(hits.earlier, hits.now, perWindow, window, i, subject);
      BucketsAreDistinct(i, subject, hits.limiter, SubjectOf(hits.key, hits.clientIP));
    }
  }

  // Times at which limiter i admitted an earlier request of this key, or, if the
  // key is empty, of this address: by the requests themselves, not by buckets.
  function AdmittedTo(hits: Hits, t: int, perWindow: int, window: real, i: nat, key: string, ip: string): seq<int>
    requires FromRoutes(hits, t) && perWindow > 0 && window > 0.0 && i <= DEFAULT_LIMITER
  {
    match hits
    case NoHits => []
    case Hit(earlier, j, k, from, now) =>
      LimitsCover(i, perWindow, window);
      var same := i == j && (if key != "" then key else ip) == (if k != "" then k else from);
      var store := Stored(TrafficOf(earlier, now, perWindow, window));
      var bucket := BucketKey(ScopeOf(i), SubjectOf(key, ip));
      AdmittedTo(earlier, now, perWindow, window, i, key, ip)
      + if same && Decide(LimitAt(i, perWindow, window), Live(store, bucket, now), now).Admit? then [now] else []
  }

  lemma {:induction false} AdmittedToIsBuckets(hits: Hits, t: int, perWindow: int, window: real,
                                               i: nat, key: string, ip: string)
    requires FromRoutes(hits, t) && perWindow > 0 && window > 0.0 && i <= DEFAULT_LIMITER
    ensures var c, bucket := LimitAt(i, perWindow, window), BucketKey(ScopeOf(i), SubjectOf(key, ip));
            c.rate > 0.0 &&
            AdmittedTo(hits, t, perWindow, window, i, key, ip) ==
            Admitted(c, Only(TrafficOf(hits, t, perWindow, window), bucket), bucket)
  {
    LimitsCover(i, perWindow, window);
    if hits.Hit? {
      var c, bucket := LimitAt(i, perWindow, window), BucketKey(ScopeOf(i), SubjectOf(key, ip));
      var earlier := TrafficOf(hits.earlier, hits.now, perWindow, window);
      AdmittedToIsBuckets(hits.earlier, hits.now, perWindow, window, i, key, ip);
      SharedBucketIff(i, key, ip, hits.limiter, hits.key, hits.clientIP);
      RoutesRunOneLimit(hits.earlier, hits.now, perWindow, window, i, SubjectOf(key, ip));
      OthersDoNotInterfere(earlier, bucket, c, hits.now);
      var before := AdmittedTo(hits.earlier, hits.now, perWindow, window, i, key, ip);
      assert before + [] == before;
    }
  }

  /** The admission law for the program as configured: whatever mix of requests the
      limiters see, a request is admitted by a limiter iff there is room for it
      after that limiter's earlier admissions of requests with the same key, or,
      where the key is empty, the same client address. */
  lemma AdmissionLawForRoutes(hits: Hits, now: int, perWindow: int, window: real, i: nat, key: string, ip: string)
    requires FromRoutes(hits, now) && perWindow > 0 && window > 0.0 && i <= DEFAULT_LIMITER
    ensures var c := LimitAt(i, perWindow, window);
            var bucket := "ratelimit:" + ScopeOf(i) + ":" + if key != "" then key else ip;
            c.rate > 0.0 &&
            (Decide(c, Live(Stored(TrafficOf(hits, now, perWindow, window)), bucket, now), now).Admit? <==>
             RoomAt(c, AdmittedTo(hits, now, perWindow, window, i, key, ip), now))
  {
    LimitsCover(i, perWindow, window);
    AdmittedToIsBuckets(hits, now, perWindow, window, i, key, ip);
    RoutesRunOneLimit(hits, now, perWindow, window, i, SubjectOf(key, ip));
    AdmissionLawInTraffic(TrafficOf(hits, now, perWindow, window), BucketKey(ScopeOf(i), SubjectOf(key, ip)),
                          LimitAt(i, perWindow, window), now);
  }

  lemma LimitsCover(i: nat, perWindow: int, window: real)
    requires perWindow > 0 && window > 0.0 && i <= DEFAULT_LIMITER
    ensures Enforced(LimitAt(i, perWindow, window)) && Covers(LimitAt(i, perWindow, window))
  {
    if i < |REGISTERED| { EveryRegisteredLimitCovers(i); } else { SlidingWindowCovers(perWindow, window); }
  }
}
