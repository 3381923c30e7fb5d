/** The fixed-window rate limiter: one bucket per address, opened by the first request after
    the previous bucket ran out, and a sweep that throws away buckets that have run out. */
module RateLimiter {

  datatype Bucket = Bucket(count: nat, resetAt: int)

  type Buckets = map<string, Bucket>

  /** What happens to the limiter, at times read from its clock. */
  datatype Event = Request(ip: string, at: int) | Sweep(at: int)

  /** Limits: so many requests per window. */
  datatype Limits = Limits(rate: int, window: nat) {
    /** A bucket admits the request that opens it even when the rate is not positive. */
    function Cap(): nat {
      if rate < 1 then 1 else rate
    }
  }

  predicate Open(b: Buckets, ip: string, now: int) {
    ip in b && now <= b[ip].resetAt
  }

  function Admits(l: Limits, b: Buckets, ip: string, now: int): bool {
    Open(b, ip, now) ==> b[ip].count < l.rate
  }

  function Ask(l: Limits, b: Buckets, ip: string, now: int): Buckets {
    if !Open(b, ip, now) then b[ip := Bucket(1, now + l.window)]
    else if b[ip].count < l.rate then b[ip := b[ip].(count := b[ip].count + 1)]
    else b
  }

  function Swept(b: Buckets, now: int): Buckets {
    map ip | ip in b && now <= b[ip].resetAt :: b[ip]
  }

  function Step(l: Limits, b: Buckets, e: Event): Buckets {
    match e
    case Request(ip, at) => Ask(l, b, ip, at)
    case Sweep(at) => Swept(b, at)
  }

  /** The answers to the requests of a run, in order. */
  function Decisions(l: Limits, b: Buckets, run: seq<Event>): seq<bool>
    decreases |run|
  {
    if run == [] then []
    else (if run[0].Request? then [Admits(l, b, run[0].ip, run[0].at)] else [])
         + Decisions(l, Step(l, b, run[0]), run[1..])
  }

  /** How many requests of an address are admitted at times from `a` to `z`, both included. */
  function Admitted(l: Limits, b: Buckets, run: seq<Event>, ip: string, a: int, z: int): nat
    decreases |run|
  {
    if run == [] then 0
    else
      var e := run[0];
      (if e.Request? && e.ip == ip && a <= e.at <= z && Admits(l, b, ip, e.at) then 1 else 0)
      + Admitted(l, Step(l, b, e), run[1..], ip, a, z)
  }

  /** The clock does not run backwards, and has reached `now`. */
  predicate Ordered(run: seq<Event>, now: int) {
    run != [] ==> now <= run[0].at && Ordered(run[1..], run[0].at)
  }

  // ---- the limiter ----

  class Limiter {
    const limits: Limits
    var buckets: Buckets

    constructor (rate: int, window: nat)
      ensures limits == Limits(rate, window) && buckets == map[]
    {
      limits, buckets := Limits(rate, window), map[];
    }

    method Allow(ip: string, now: int) returns (ok: bool)
      modifies this
      ensures ok == Admits(limits, old(buckets), ip, now)
      ensures buckets == Step(limits, old(buckets), Request(ip, now))
    {
      if ip !in buckets || now > buckets[ip].resetAt {
        buckets := buckets[ip := Bucket(1, now + limits.window)];
        return true;
      }
      var b := buckets[ip];
      if b.count >= limits.rate {
        return false;
      }
      buckets := buckets[ip := b.(count := b.count + 1)];
      ok := true;
    }

    method SweepExpired(now: int)
      modifies this
      ensures buckets == Step(limits, old(buckets), Sweep(now))
    {
      var all := buckets;
      var todo := buckets.Keys;
      while todo != {}
        invariant todo <= all.Keys
        invariant buckets == map ip | ip in all && (ip in todo || now <= all[ip].resetAt) :: all[ip]
        decreases todo
      {
        var ip :| ip in todo;
        if now > buckets[ip].resetAt {
          buckets := buckets - {ip};
        }
        todo := todo - {ip};
      }
    }
  }

  // ---- sweeping is invisible ----

  function WithoutSweeps(run: seq<Event>): seq<Event> {
    if run == [] then []
    else (if run[0].Request? then [run[0]] else []) + WithoutSweeps(run[1..])
  }

  /** The same open buckets; whether one that ran out is still in the table makes no difference. */
  ghost predicate Alike(b: Buckets, c: Buckets, now: int) {
    forall ip | ip in b || ip in c ::
      if ip in b && ip in c && b[ip] == c[ip] then true else !Open(b, ip, now) && !Open(c, ip, now)
  }

  lemma {:induction false} SweepsDoNotShow(l: Limits, b: Buckets, c: Buckets, run: seq<Event>, now: int)
    requires Alike(b, c, now) && Ordered(run, now)
    ensures Decisions(l, b, run) == Decisions(l, c, WithoutSweeps(run))
    decreases |run|
  {
    if run != [] {
      var e, rest := run[0], run[1..];
      var b', c' := Step(l, b, e), if e.Request? then Step(l, c, e) else c;
      SweepsDoNotShow(l, b', c', rest, e.at);
      if e.Request? {
        assert WithoutSweeps(run) == [e] + WithoutSweeps(rest);
      } else {
        assert WithoutSweeps(run) == WithoutSweeps(rest);
      }
    }
  }

  /** Sweeping at any moments changes no answer compared with never sweeping. */
  lemma SweepingIsInvisible(l: Limits, b: Buckets, run: seq<Event>, now: int)
    requires Ordered(run, now)
    ensures Decisions(l, b, run) == Decisions(l, b, WithoutSweeps(run))
  {
    SweepsDoNotShow(l, b, b, run, now);
  }

  /** The buckets after a run. */
  function Table(l: Limits, b: Buckets, run: seq<Event>): Buckets
    decreases |run|
  {
    if run == [] then b else Table(l, Step(l, b, run[0]), run[1..])
  }

  lemma {:induction false} BucketFromRequest(l: Limits, b: Buckets, run: seq<Event>, ip: string)
    requires ip in Table(l, b, run)
    ensures var until := Table(l, b, run)[ip].resetAt;
            (ip in b && until == b[ip].resetAt) || exists e | e in run :: e.Request? && e.ip == ip && until == e.at + l.window
    decreases |run|
  {
    if run != [] {
      BucketFromRequest(l, Step(l, b, run[0]), run[1..], ip);
      assert run[0] in run && forall e | e in run[1..] :: e in run;
    }
  }

  lemma {:induction false} TableThenSweep(l: Limits, b: Buckets, run: seq<Event>, now: int)
    ensures Table(l, b, run + [Sweep(now)]) == map ip | ip in Table(l, b, run) && now <= Table(l, b, run)[ip].resetAt :: Table(l, b, run)[ip]
    decreases |run|
  {
    if run == [] {
      assert run + [Sweep(now)] == [Sweep(now)];
    } else {
      assert (run + [Sweep(now)])[1..] == run[1..] + [Sweep(now)];
      TableThenSweep(l, Step(l, b, run[0]), run[1..], now);
    }
  }

  /** After a sweep only addresses are left that sent a request within the last window. */
  lemma SweepLeavesRecent(l: Limits, run: seq<Event>, now: int, ip: string)
    requires ip in Table(l, map[], run + [Sweep(now)])
    ensures exists e | e in run :: e.Request? && e.ip == ip && now <= e.at + l.window
  {
    TableThenSweep(l, map[], run, now);
    BucketFromRequest(l, map[], run, ip);
  }

  // ---- how many requests can pass ----

  /** The last bucket of the address was this one; when it is gone from the table, it ran out. */
  predicate Last(b: Buckets, ip: string, k: Bucket, now: int) {
    if ip in b then b[ip] == k else k.resetAt < now
  }

  /** `m` times `x`, added up. */
  function Sum(m: nat, x: nat): nat {
    if m == 0 then 0 else x + Sum(m - 1, x)
  }

  lemma {:induction false} SumIs(m: nat, x: nat)
    ensures Sum(m, x) == m * x
  {
    if m > 0 {
      SumIs(m - 1, x);
    }
  }

  lemma {:induction false} UpToSum(l: Limits, b: Buckets, run: seq<Event>, ip: string, a: int, z: int, now: int, k: Bucket, m: nat)
    requires Ordered(run, now) && Last(b, ip, k, now)
    requires k.count <= l.Cap() && z <= k.resetAt + Sum(m, l.window)
    ensures Admitted(l, b, run, ip, a, z) <= l.Cap() - k.count + Sum(m, l.Cap())
    decreases run
  {
    if run == [] {
    } else if run[0].at > z {
      PastTheEnd(l, b, run, ip, a, z);
    } else {
      var e := run[0];
      if e.Sweep? || e.ip != ip {
        UpToSum(l, Step(l, b, e), run[1..], ip, a, z, e.at, k, m);
      } else if e.at > k.resetAt {
        UpToSum(l, Step(l, b, e), run[1..], ip, a, z, e.at, Bucket(1, e.at + l.window), m - 1);
      } else if k.count < l.rate {
        UpToSum(l, Step(l, b, e), run[1..], ip, a, z, e.at, k.(count := k.count + 1), m);
      } else {
        UpToSum(l, Step(l, b, e), run[1..], ip, a, z, e.at, k, m);
      }
    }
  }

  /** From a bucket on that runs out at most m windows before `z`: what it has left, and m more. */
  lemma UpTo(l: Limits, b: Buckets, run: seq<Event>, ip: string, a: int, z: int, now: int, k: Bucket, m: nat)
    requires Ordered(run, now) && Last(b, ip, k, now)
    requires k.count <= l.Cap() && z <= k.resetAt + m * l.window
    ensures Admitted(l, b, run, ip, a, z) <= l.Cap() - k.count + m * l.Cap()
  {
    SumIs(m, l.window);
    SumIs(m, l.Cap());
    UpToSum(l, b, run, ip, a, z, now, k, m);
  }

  lemma {:induction false} PastTheEnd(l: Limits, b: Buckets, run: seq<Event>, ip: string, a: int, z: int)
    requires run != [] && run[0].at > z && Ordered(run, run[0].at)
    ensures Admitted(l, b, run, ip, a, z) == 0
    decreases run
  {
    var rest := run[1..];
    if rest != [] {
      PastTheEnd(l, Step(l, b, run[0]), rest, ip, a, z);
    }
  }

  /** The most that can pass in a closed interval k windows long. */
  function Most(l: Limits, k: nat): nat {
    if k == 0 then l.Cap() else (k + 1) * l.Cap() - 1
  }

  /** The bound, from any state of the address's bucket. */
  lemma {:induction false} FromLast(l: Limits, b: Buckets, run: seq<Event>, ip: string, a: int, k: nat, now: int, last: Bucket)
    requires Ordered(run, now) && Last(b, ip, last, now) && 1 <= last.count <= l.Cap()
    ensures Admitted(l, b, run, ip, a, a + k * l.window) <= Most(l, k)
    decreases run
  {
    if run != [] {
      var e, z := run[0], a + k * l.window;
      var next := Step(l, b, e);
      if e.Sweep? || e.ip != ip {
        FromLast(l, next, run[1..], ip, a, k, e.at, last);
      } else {
        var last' := if e.at > last.resetAt then Bucket(1, e.at + l.window)
                     else if last.count < l.rate then last.(count := last.count + 1) else last;
        if e.at < a {
          FromLast(l, next, run[1..], ip, a, k, e.at, last');
        } else if e.at > last.resetAt {
          Opening(l, e.at, a, k);
          UpTo(l, next, run[1..], ip, a, z, e.at, last', if k == 0 then 0 else k - 1);
        } else {
          assert (k + 1) * l.Cap() == l.Cap() + k * l.Cap();
          UpTo(l, b, run, ip, a, z, now, last, k);
        }
      }
    }
  }

  lemma Opening(l: Limits, at: int, a: int, k: nat)
    requires at >= a
    ensures k > 0 ==> a + k * l.window <= at + l.window + (k - 1) * l.window
    ensures k > 0 ==> l.Cap() + (k - 1) * l.Cap() == k * l.Cap() <= (k + 1) * l.Cap() - 1
  {
  }

  /** The sliding bound: in any closed interval k windows long, at most (k + 1) * rate - 1
      requests of an address pass, and at most the rate at a single instant. */
  lemma AtMost(l: Limits, run: seq<Event>, ip: string, a: int, k: nat, now: int)
    requires Ordered(run, now)
    ensures Admitted(l, map[], run, ip, a, a + k * l.window) <= Most(l, k)
  {
    FromLast(l, map[], run, ip, a, k, now, Bucket(1, now - 1));
  }

  // ---- and as many do pass ----

  function Burst(ip: string, at: int, n: nat): seq<Event> {
    if n == 0 then [] else [Request(ip, at)] + Burst(ip, at, n - 1)
  }

  /** As many requests as a bucket holds, each time the previous bucket has just run out. */
  function Bursts(l: Limits, ip: string, at: int, n: nat): seq<Event>
    decreases n
  {
    if n == 0 then [] else Burst(ip, at, l.Cap()) + Bursts(l, ip, at + l.window + 1, n - 1)
  }

  /** One request opens a bucket; the rest of that bucket comes just before it runs out. */
  function Flood(l: Limits, ip: string, k: nat): seq<Event> {
    [Request(ip, 0)] + (Burst(ip, l.window, l.Cap() - 1) + Bursts(l, ip, l.window + 1, k))
  }

  /** The table with this bucket for the address. */
  function With(b: Buckets, ip: string, count: nat, resetAt: int): Buckets {
    b[ip := Bucket(count, resetAt)]
  }

  lemma OnePasses(l: Limits, b: Buckets, ip: string, at: int, c: nat, r: int)
    requires at <= r && c < l.rate
    ensures Admits(l, With(b, ip, c, r), ip, at)
    ensures Step(l, With(b, ip, c, r), Request(ip, at)) == With(b, ip, c + 1, r)
  {
  }

  lemma FirstPasses(l: Limits, b: Buckets, e: Event, rest: seq<Event>, a: int, z: int)
    requires e.Request? && a <= e.at <= z && Admits(l, b, e.ip, e.at)
    ensures Admitted(l, b, [e] + rest, e.ip, a, z) == 1 + Admitted(l, Step(l, b, e), rest, e.ip, a, z)
  {
  }

  lemma {:induction false} BurstPasses(l: Limits, b: Buckets, rest: seq<Event>, ip: string, at: int, n: nat,
                                       a: int, z: int, c: nat, r: int)
    requires at <= r && 1 <= c && c + n <= l.Cap() && a <= at <= z
    ensures Admitted(l, With(b, ip, c, r), Burst(ip, at, n) + rest, ip, a, z)
            == n + Admitted(l, With(b, ip, c + n, r), rest, ip, a, z)
    decreases n
  {
    var run := Burst(ip, at, n) + rest;
    if n == 0 {
      assert run == rest;
    } else {
      assert run == [Request(ip, at)] + (Burst(ip, at, n - 1) + rest);
      OnePasses(l, b, ip, at, c, r);
      FirstPasses(l, With(b, ip, c, r), Request(ip, at), Burst(ip, at, n - 1) + rest, a, z);
      BurstPasses(l, b, rest, ip, at, n - 1, a, z, c + 1, r);
    }
  }

  /** All bursts start within the interval. */
  predicate Fits(l: Limits, at: int, n: nat, a: int, z: int)
    decreases n
  {
    n > 0 ==> a <= at <= z && Fits(l, at + l.window + 1, n - 1, a, z)
  }

  lemma {:induction false} FitsWhenLastDoes(l: Limits, at: int, n: nat, a: int, z: int)
    requires a <= at && (n > 0 ==> at + (n - 1) * (l.window + 1) <= z)
    ensures Fits(l, at, n, a, z)
    decreases n
  {
    if n > 1 {
      assert (n - 1) * (l.window + 1) == (n - 2) * (l.window + 1) + (l.window + 1);
      assert (n - 2) * (l.window + 1) >= 0;
      FitsWhenLastDoes(l, at + l.window + 1, n - 1, a, z);
    }
  }

  lemma FullBurst(l: Limits, b: Buckets, rest: seq<Event>, ip: string, at: int, a: int, z: int)
    requires !Open(b, ip, at) && a <= at <= z
    ensures Admitted(l, b, Burst(ip, at, l.Cap()) + rest, ip, a, z)
            == l.Cap() + Admitted(l, With(b, ip, l.Cap(), at + l.window), rest, ip, a, z)
  {
    var e, others := Request(ip, at), Burst(ip, at, l.Cap() - 1) + rest;
    assert Burst(ip, at, l.Cap()) + rest == [e] + others;
    FirstPasses(l, b, e, others, a, z);
    assert Step(l, b, e) == With(b, ip, 1, at + l.window);
    BurstPasses(l, b, rest, ip, at, l.Cap() - 1, a, z, 1, at + l.window);
  }

  lemma {:induction false} BurstsPass(l: Limits, b: Buckets, ip: string, at: int, n: nat, a: int, z: int)
    requires !Open(b, ip, at) && Fits(l, at, n, a, z)
    ensures Admitted(l, b, Bursts(l, ip, at, n), ip, a, z) == n * l.Cap()
    decreases n
  {
    if n > 0 {
      var next := at + l.window + 1;
      FullBurst(l, b, Bursts(l, ip, next, n - 1), ip, at, a, z);
      BurstsPass(l, With(b, ip, l.Cap(), at + l.window), ip, next, n - 1, a, z);
      OneMore(n, l.Cap());
    }
  }

  lemma LastInTime(w: nat, k: nat)
    requires 1 <= k <= w
    ensures 0 <= k * w && (w + 1) + (k - 1) * (w + 1) <= w + k * w
  {
  }

  lemma OneMore(n: nat, c: nat)
    requires n > 0
    ensures n * c == c + (n - 1) * c
  {
  }

  lemma {:induction false} BurstOrdered(ip: string, at: int, n: nat, rest: seq<Event>, now: int)
    requires now <= at && Ordered(rest, at)
    ensures Ordered(Burst(ip, at, n) + rest, now)
    decreases n
  {
    var run := Burst(ip, at, n) + rest;
    if n == 0 {
      assert run == rest;
    } else {
      assert run[0] == Request(ip, at) && run[1..] == Burst(ip, at, n - 1) + rest;
      BurstOrdered(ip, at, n - 1, rest, at);
    }
  }

  lemma {:induction false} BurstsOrdered(l: Limits, ip: string, at: int, n: nat, now: int)
    requires now <= at
    ensures Ordered(Bursts(l, ip, at, n), now)
    decreases n
  {
    if n > 0 {
      BurstsOrdered(l, ip, at + l.window + 1, n - 1, at);
      BurstOrdered(ip, at, l.Cap(), Bursts(l, ip, at + l.window + 1, n - 1), now);
    }
  }

  /** The bound is met, whatever the limits, as long as the clock can tell k instants apart
      within a window. */
  lemma BoundIsMet(l: Limits, ip: string, k: nat)
    requires 1 <= k <= l.window
    ensures Admitted(l, map[], Flood(l, ip, k), ip, l.window, l.window + k * l.window) == Most(l, k)
    ensures Ordered(Flood(l, ip, k), 0)
  {
    BurstsOrdered(l, ip, l.window + 1, k, l.window);
    BurstOrdered(ip, l.window, l.Cap() - 1, Bursts(l, ip, l.window + 1, k), 0);
    var a, z, run := l.window, l.window + k * l.window, Flood(l, ip, k);
    var rest := Bursts(l, ip, a + 1, k);
    assert run[0] == Request(ip, 0) && run[1..] == Burst(ip, a, l.Cap() - 1) + rest;
    LastInTime(l.window, k);
    BurstPasses(l, map[], rest, ip, a, l.Cap() - 1, a, z, 1, l.window);
    FitsWhenLastDoes(l, a + 1, k, a, z);
    BurstsPass(l, With(map[], ip, l.Cap(), l.window), ip, a + 1, k, a, z);
    OneMore(k + 1, l.Cap());
  }
}
