/** The per-IP token-bucket limiter of server/internal/api/ratelimit.go.

    Everything is measured in nanoseconds, tokens included: a token is the time it
    takes to refill one. One token is then `cost` nanoseconds for whatever refill
    rate, a bucket gains a nanosecond per nanosecond, and the arithmetic is exact.
    The reference object is an ideal meter, private to one IP, that is never evicted
    and whose level at any instant is a closed form of the instants at which it
    admitted a request. */
module RateLimit {

  datatype Limits = Limits(cost: nat, burst: nat, ttl: nat) {
    /** A bucket idle for as long as the TTL has refilled completely. */
    predicate FullBeforeEviction() {
      burst <= ttl
    }
  }

  const SECOND := 1_000_000_000

  /** One token a second, bursts of five, ten idle minutes. */
  const AUTH := Limits(SECOND, 5 * SECOND, 600 * SECOND)

  function Min(a: int, b: int): int { if a <= b then a else b }
  function Max(a: int, b: int): int { if a <= b then b else a }

  // ---------------------------------------------------------------- the map, as a value

  datatype Bucket = Bucket(tokens: int, lastSeen: int)
  type Buckets = map<string, Bucket>

  function Refilled(c: Limits, b: Bucket, now: int): int {
    Min(c.burst, b.tokens + (now - b.lastSeen))
  }

  function Touched(c: Limits, m: Buckets, ip: string, now: int): Bucket {
    Bucket(if ip in m then Refilled(c, m[ip], now) else c.burst, now)
  }

  function Admits(c: Limits, m: Buckets, ip: string, now: int): bool {
    c.cost <= Touched(c, m, ip, now).tokens
  }

  function AfterRequest(c: Limits, m: Buckets, ip: string, now: int): Buckets {
    var b := Touched(c, m, ip, now);
    m[ip := if Admits(c, m, ip, now) then b.(tokens := b.tokens - c.cost) else b]
  }

  function AfterSweep(c: Limits, m: Buckets, sampled: int): Buckets {
    map ip | ip in m && sampled - c.ttl <= m[ip].lastSeen :: m[ip]
  }

  // ---------------------------------------------------------------- the limiter itself

  class TokenBucket {
    var tokens: int
    var lastSeen: int

    constructor (tokens: int, lastSeen: int)
      ensures this.tokens == tokens && this.lastSeen == lastSeen
    {
      this.tokens, this.lastSeen := tokens, lastSeen;
    }
  }

  class IpRateLimiter {
    const limits: Limits
    var buckets: map<string, TokenBucket>

    /** No two IPs share a bucket object. */
    ghost predicate Valid()
      reads this
    {
      forall a, b :: a in buckets && b in buckets && a != b ==> buckets[a] != buckets[b]
    }

    ghost function View(): Buckets
      reads this, buckets.Values
    {
      map ip | ip in buckets :: Bucket(buckets[ip].tokens, buckets[ip].lastSeen)
    }

    constructor (limits: Limits)
      ensures Valid() && this.limits == limits && View() == map[]
    {
      this.limits := limits;
      buckets := map[];
    }

    /** The caller's bucket as this request finds it: a new full one, or the old one refilled. */
    method Touch(ip: string, now: int) returns (b: TokenBucket)
      requires Valid()
      modifies this`buckets, if ip in buckets then {buckets[ip]} else {}
      ensures Valid() && fresh(buckets.Values - old(buckets.Values))
      ensures ip in buckets && buckets[ip] == b
      ensures View() == old(View())[ip := Touched(limits, old(View()), ip, now)]
    {
      if ip !in buckets {
        b := new TokenBucket(limits.burst, now);
        buckets := buckets[ip := b];
      } else {
        b := buckets[ip];
        b.tokens := b.tokens + (now - b.lastSeen);
        if b.tokens > limits.burst {
          b.tokens := limits.burst;
        }
        b.lastSeen := now;
      }
    }

    method Allow(ip: string, now: int) returns (ok: bool)
      requires Valid()
      modifies this, buckets.Values
      ensures Valid() && fresh(buckets.Values - old(buckets.Values))
      ensures ok == Admits(limits, old(View()), ip, now)
      ensures View() == AfterRequest(limits, old(View()), ip, now)
    {
      ghost var m := View();
      var b := Touch(ip, now);
      ghost var touched := View();
      assert touched[ip] == Bucket(b.tokens, b.lastSeen) == Touched(limits, m, ip, now);
      ok := limits.cost <= b.tokens;
      if ok {
        Charge(ip, b);
      }
      assert View() == AfterRequest(limits, m, ip, now);
    }

    method Charge(ip: string, b: TokenBucket)
      requires Valid() && ip in buckets && buckets[ip] == b
      modifies b`tokens
      ensures View() == old(View())[ip := Bucket(old(b.tokens) - limits.cost, b.lastSeen)]
    {
      b.tokens := b.tokens - limits.cost;
    }

    /** One tick of the sweeper. `sampled` is the clock as read before the lock was taken. */
    method Sweep(sampled: int)
      requires Valid()
      modifies this
      ensures Valid() && buckets.Values <= old(buckets.Values)
      ensures View() == AfterSweep(limits, old(View()), sampled)
    {
      var cutoff := sampled - limits.ttl;
      var pending := buckets.Keys;
      while pending != {}
        invariant pending <= buckets.Keys <= old(buckets.Keys)
        invariant forall ip :: ip in buckets ==> buckets[ip] == old(buckets[ip])
        invariant forall ip :: ip in old(buckets) ==>
          (ip in buckets <==> ip in pending || cutoff <= old(buckets[ip]).lastSeen)
        decreases pending
      {
        var ip :| ip in pending;
        pending := pending - {ip};
        if buckets[ip].lastSeen < cutoff {
          buckets := buckets - {ip};
        }
      }
    }
  }

  // ---------------------------------------------------------------- traces

  datatype Event = Request(ip: string, at: int) | Sweep(at: int)

  /** Requests read the clock under the lock, so they never go back in time. A sweep
      reads it before locking: its sample may be older than requests already served,
      but not newer than a request that follows. */
  predicate Ordered(clock: int, es: seq<Event>)
    decreases es
  {
    es == [] || ((es[0].Request? ==> clock <= es[0].at) && Ordered(Max(clock, es[0].at), es[1..]))
  }

  function Step(c: Limits, m: Buckets, e: Event): Buckets {
    match e
    case Request(ip, at) => AfterRequest(c, m, ip, at)
    case Sweep(at) => AfterSweep(c, m, at)
  }

  function Reached(c: Limits, m: Buckets, es: seq<Event>): Buckets
    decreases es
  {
    if es == [] then m else Reached(c, Step(c, m, es[0]), es[1..])
  }

  /** When `ip` called, over a trace shared with every other IP and the sweeper. */
  function Requests(es: seq<Event>, ip: string): seq<int> {
    if es == [] then []
    else (if es[0].Request? && es[0].ip == ip then [es[0].at] else []) + Requests(es[1..], ip)
  }

  /** What `ip` was told, call by call, over the same trace. */
  function Verdicts(c: Limits, m: Buckets, es: seq<Event>, ip: string): (v: seq<bool>)
    ensures |v| == |Requests(es, ip)|
    decreases es
  {
    if es == [] then []
    else
      (if es[0].Request? && es[0].ip == ip then [Admits(c, m, ip, es[0].at)] else [])
      + Verdicts(c, Step(c, m, es[0]), es[1..], ip)
  }

  /** The instant of an IP's last request, in a trace that has one. */
  function LastRequest(es: seq<Event>, ip: string): int
    requires Requests(es, ip) != []
  {
    Requests(es, ip)[|Requests(es, ip)| - 1]
  }

  /** Where an entry that is still there comes from: the last request, or from before the trace. */
  lemma {:induction false} EntriesAreLastRequests(c: Limits, m: Buckets, es: seq<Event>, ip: string)
    requires ip in Reached(c, m, es)
    ensures Requests(es, ip) != [] ==> Reached(c, m, es)[ip].lastSeen == LastRequest(es, ip)
    ensures Requests(es, ip) == [] ==> ip in m && Reached(c, m, es)[ip] == m[ip]
    decreases es
  {
    if es != [] {
      EntriesAreLastRequests(c, Step(c, m, es[0]), es[1..], ip);
    }
  }

  lemma {:induction false} ReachedSnoc(c: Limits, m: Buckets, es: seq<Event>, e: Event)
    ensures Reached(c, m, es + [e]) == Step(c, Reached(c, m, es), e)
    decreases es
  {
    if es == [] {
      assert es + [e] == [e] && [e][1..] == [];
    } else {
      assert (es + [e])[0] == es[0] && (es + [e])[1..] == es[1..] + [e];
      ReachedSnoc(c, Step(c, m, es[0]), es[1..], e);
    }
  }

  /** Main result: what a sweep leaves is bounded by recent traffic: it keeps an entry exactly if the
      IP's last request is no older than the TTL. */
  lemma SweepKeepsTheRecent(c: Limits, es: seq<Event>, ip: string, at: int)
    requires ip in Reached(c, map[], es)
    ensures Requests(es, ip) != []
    ensures ip in Reached(c, map[], es + [Sweep(at)]) <==> at - LastRequest(es, ip) <= c.ttl
  {
    EntriesAreLastRequests(c, map[], es, ip);
    ReachedSnoc(c, map[], es, Sweep(at));
  }

  // ---------------------------------------------------------------- the ideal meter

  /** The level at `t` of a private bucket that was full before its first admission,
      refills continuously and has admitted exactly at the instants `h`. */
  function Level(c: Limits, h: seq<int>, t: int): int {
    if h == [] then c.burst
    else Min(c.burst + (t - h[0]) - |h| * c.cost, Level(c, h[1..], t))
  }

  /** The admissions after a call at `t`: one more, if a token's worth was there. */
  function Charged(c: Limits, h: seq<int>, t: int): seq<int> {
    if c.cost <= Level(c, h, t) then h + [t] else h
  }

  function IdealVerdicts(c: Limits, h: seq<int>, times: seq<int>): (v: seq<bool>)
    ensures |v| == |times|
    decreases times
  {
    if times == [] then []
    else [c.cost <= Level(c, h, times[0])] + IdealVerdicts(c, Charged(c, h, times[0]), times[1..])
  }

  /** Between any two admissions, inclusive, no more than burst + elapsed was spent. */
  ghost predicate Conforms(c: Limits, h: seq<int>) {
    forall i, j :: 0 <= i <= j < |h| ==> (j - i + 1) * c.cost <= c.burst + (h[j] - h[i])
  }

  /** Admit whatever leaves every window within its allowance, and nothing else. */
  ghost function GreedyVerdicts(c: Limits, h: seq<int>, times: seq<int>): (v: seq<bool>)
    ensures |v| == |times|
    decreases times
  {
    if times == [] then []
    else
      var ok := Conforms(c, h + [times[0]]);
      [ok] + GreedyVerdicts(c, if ok then h + [times[0]] else h, times[1..])
  }

  function Admitted(times: seq<int>, v: seq<bool>): seq<int>
    requires |v| == |times|
  {
    if times == [] then []
    else (if v[0] then [times[0]] else []) + Admitted(times[1..], v[1..])
  }

  // ---------------------------------------------------------------- the algebra of levels

  /** Polling changes nothing: a refill may be split at any instant. */
  lemma {:induction false} LevelOverTime(c: Limits, h: seq<int>, s: int, t: int)
    requires s <= t
    ensures Level(c, h, t) == Min(c.burst, Level(c, h, s) + (t - s))
  {
    if h != [] {
      LevelOverTime(c, h[1..], s, t);
    }
  }

  lemma OneMore(n: int, cost: int)
    ensures (n + 1) * cost == n * cost + cost
  {
  }

  lemma {:induction false} LevelAfterAdmission(c: Limits, h: seq<int>, s: int, t: int)
    ensures Level(c, h + [s], t) == Min(c.burst, Level(c, h, s) - c.cost + (t - s))
  {
    var g := h + [s];
    OneMore(|h|, c.cost);
    if h == [] {
      assert g == [s] && g[1..] == [];
      assert Level(c, g, t) == Min(c.burst + (t - s) - |g| * c.cost, Level(c, [], t));
    } else {
      LevelAfterAdmission(c, h[1..], s, t);
      assert g[1..] == h[1..] + [s] && g[0] == h[0] && |g| == |h| + 1;
    }
  }

  /** The level is the tightest of the windows that end now. */
  lemma {:induction false} LevelIsTightestWindow(c: Limits, h: seq<int>, t: int, x: int)
    ensures x <= Level(c, h, t) <==>
            x <= c.burst && forall i :: 0 <= i < |h| ==> x <= c.burst + (t - h[i]) - (|h| - i) * c.cost
  {
    if h != [] {
      LevelIsTightestWindow(c, h[1..], t, x);
      var r := h[1..];
      assert forall i :: 0 <= i < |r| ==> r[i] == h[i + 1] && |r| - i == |h| - (i + 1);
      assert forall i :: 0 < i < |h| ==> h[i] == r[i - 1];
    }
  }

  // ---------------------------------------------------------------- shared equals private

  /** What the shared map knows about an IP whose ideal meter admitted at `h`: the exact
      level when it last called, or, once evicted, nothing because the meter is full. */
  ghost predicate Tracks(c: Limits, m: Buckets, ip: string, h: seq<int>, clock: int) {
    if ip in m then
      && m[ip].lastSeen <= clock
      && m[ip].tokens == Level(c, h, m[ip].lastSeen)
      && 0 <= m[ip].tokens <= c.burst
    else
      Level(c, h, clock) == c.burst
  }

  lemma RequestTracks(c: Limits, m: Buckets, ip: string, h: seq<int>, clock: int, caller: string, at: int)
    requires Tracks(c, m, ip, h, clock) && clock <= at
    ensures caller == ip ==> (Admits(c, m, ip, at) <==> c.cost <= Level(c, h, at))
    ensures Tracks(c, AfterRequest(c, m, caller, at), ip,
                   if caller == ip && Admits(c, m, ip, at) then h + [at] else h, at)
  {
    LevelOverTime(c, h, clock, at);
    if ip in m {
      LevelOverTime(c, h, m[ip].lastSeen, at);
    }
    LevelAfterAdmission(c, h, at, at);
  }

  /** The only bucket a sweep may drop is one that a fresh bucket equals. */
  lemma SweepTracks(c: Limits, m: Buckets, ip: string, h: seq<int>, clock: int, sampled: int)
    requires c.FullBeforeEviction() && Tracks(c, m, ip, h, clock)
    ensures Tracks(c, AfterSweep(c, m, sampled), ip, h, Max(clock, sampled))
  {
    LevelOverTime(c, h, clock, Max(clock, sampled));
    if ip in m {
      LevelOverTime(c, h, m[ip].lastSeen, Max(clock, sampled));
    }
  }

  lemma {:induction false} TracksGiveVerdicts(c: Limits, m: Buckets, es: seq<Event>, ip: string, h: seq<int>, clock: int)
    requires c.FullBeforeEviction() && Ordered(clock, es) && Tracks(c, m, ip, h, clock)
    ensures Verdicts(c, m, es, ip) == IdealVerdicts(c, h, Requests(es, ip))
    decreases es
  {
    if es != [] {
      var now := Max(clock, es[0].at);
      match es[0] {
        case Sweep(at) =>
          SweepTracks(c, m, ip, h, clock, at);
          TracksGiveVerdicts(c, AfterSweep(c, m, at), es[1..], ip, h, now);
          assert Requests(es, ip) == Requests(es[1..], ip);
        case Request(caller, at) =>
          RequestTracks(c, m, ip, h, clock, caller, at);
          var h' := if caller == ip && Admits(c, m, ip, at) then h + [at] else h;
          TracksGiveVerdicts(c, AfterRequest(c, m, caller, at), es[1..], ip, h', now);
          if caller == ip {
            assert Requests(es, ip) == [at] + Requests(es[1..], ip);
            assert Requests(es, ip)[1..] == Requests(es[1..], ip);
          } else {
            assert Requests(es, ip) == Requests(es[1..], ip);
          }
      }
    }
  }

  /** Main result: sharing the map with other IPs and with the sweeper is invisible. */
  lemma SharedEqualsPrivate(c: Limits, es: seq<Event>, ip: string, clock: int)
    requires c.FullBeforeEviction() && Ordered(clock, es)
    ensures Verdicts(c, map[], es, ip) == IdealVerdicts(c, [], Requests(es, ip))
  {
    TracksGiveVerdicts(c, map[], es, ip, [], clock);
  }

  // ---------------------------------------------------------------- the windows

  /** The windows that end at a new instant `t`, which one more admission would fill. */
  ghost predicate RoomAt(c: Limits, h: seq<int>, t: int) {
    c.cost <= c.burst && forall i :: 0 <= i < |h| ==> c.cost <= c.burst + (t - h[i]) - (|h| - i) * c.cost
  }

  lemma RoomAfter(c: Limits, h: seq<int>, t: int)
    requires Conforms(c, h + [t])
    ensures RoomAt(c, h, t)
  {
    var g, n := h + [t], |h|;
    assert g[n] == t;
    assert (n - n + 1) * c.cost <= c.burst + (g[n] - g[n]);
    forall i | 0 <= i < n
      ensures c.cost <= c.burst + (t - h[i]) - (n - i) * c.cost
    {
      assert (n - i + 1) * c.cost <= c.burst + (g[n] - g[i]);
      OneMore(n - i, c.cost);
    }
  }

  lemma RoomBefore(c: Limits, h: seq<int>, t: int)
    requires Conforms(c, h) && RoomAt(c, h, t)
    ensures Conforms(c, h + [t])
  {
    var g, n := h + [t], |h|;
    forall i, j | 0 <= i <= j < |g|
      ensures (j - i + 1) * c.cost <= c.burst + (g[j] - g[i])
    {
      if j < n {
        assert g[i] == h[i] && g[j] == h[j];
      } else if i < n {
        OneMore(n - i, c.cost);
      }
    }
  }

  lemma ConformsExtends(c: Limits, h: seq<int>, t: int)
    requires Conforms(c, h)
    ensures Conforms(c, h + [t]) <==> c.cost <= Level(c, h, t)
  {
    LevelIsTightestWindow(c, h, t, c.cost);
    assert RoomAt(c, h, t) <==> c.cost <= Level(c, h, t);
    if RoomAt(c, h, t) {
      RoomBefore(c, h, t);
    }
    if Conforms(c, h + [t]) {
      RoomAfter(c, h, t);
    }
  }

  lemma ChargedConforms(c: Limits, h: seq<int>, t: int)
    requires Conforms(c, h)
    ensures Conforms(c, Charged(c, h, t))
    ensures Charged(c, h, t) == if Conforms(c, h + [t]) then h + [t] else h
  {
    ConformsExtends(c, h, t);
  }

  lemma {:induction false} IdealIsGreedy(c: Limits, h: seq<int>, times: seq<int>)
    requires Conforms(c, h)
    ensures IdealVerdicts(c, h, times) == GreedyVerdicts(c, h, times)
    decreases times
  {
    if times != [] {
      ConformsExtends(c, h, times[0]);
      ChargedConforms(c, h, times[0]);
      IdealIsGreedy(c, Charged(c, h, times[0]), times[1..]);
    }
  }

  lemma OneThenRest(h: seq<int>, t: int, ok: bool, rest: seq<int>)
    ensures h + ((if ok then [t] else []) + rest) == (if ok then h + [t] else h) + rest
  {
  }

  lemma AdmissionsFromHere(c: Limits, h: seq<int>, times: seq<int>)
    requires times != []
    ensures h + Admitted(times, IdealVerdicts(c, h, times)) ==
            Charged(c, h, times[0]) + Admitted(times[1..], IdealVerdicts(c, Charged(c, h, times[0]), times[1..]))
  {
    var ok, rest := c.cost <= Level(c, h, times[0]), IdealVerdicts(c, Charged(c, h, times[0]), times[1..]);
    AdmittedOne(times, ok, rest);
    OneThenRest(h, times[0], ok, Admitted(times[1..], rest));
  }

  lemma AdmittedOne(times: seq<int>, ok: bool, rest: seq<bool>)
    requires |times| == 1 + |rest|
    ensures Admitted(times, [ok] + rest) == (if ok then [times[0]] else []) + Admitted(times[1..], rest)
  {
    assert ([ok] + rest)[1..] == rest;
  }

  lemma {:induction false} IdealConforms(c: Limits, h: seq<int>, times: seq<int>)
    requires Conforms(c, h)
    ensures Conforms(c, h + Admitted(times, IdealVerdicts(c, h, times)))
    decreases times
  {
    if times == [] {
      assert h + Admitted(times, IdealVerdicts(c, h, times)) == h;
    } else {
      ChargedConforms(c, h, times[0]);
      IdealConforms(c, Charged(c, h, times[0]), times[1..]);
      AdmissionsFromHere(c, h, times);
    }
  }

  /** Main result: on every interleaved trace an IP is admitted exactly when admitting it
      leaves every window of its own past within burst + elapsed. */
  lemma AdmitsExactlyTheAllowance(c: Limits, es: seq<Event>, ip: string, clock: int)
    requires c.FullBeforeEviction() && Ordered(clock, es)
    ensures Verdicts(c, map[], es, ip) == GreedyVerdicts(c, [], Requests(es, ip))
    ensures Conforms(c, Admitted(Requests(es, ip), Verdicts(c, map[], es, ip)))
  {
    SharedEqualsPrivate(c, es, ip, clock);
    IdealIsGreedy(c, [], Requests(es, ip));
    IdealConforms(c, [], Requests(es, ip));
    var a := Admitted(Requests(es, ip), Verdicts(c, map[], es, ip));
    assert [] + a == a;
  }

  ghost predicate Sorted(a: seq<int>) {
    forall i, j :: 0 <= i <= j < |a| ==> a[i] <= a[j]
  }

  function Within(a: seq<int>, from: int, to: int): seq<int> {
    if a == [] then []
    else (if from <= a[0] <= to then [a[0]] else []) + Within(a[1..], from, to)
  }

  lemma {:induction false} WithinIsAPrefix(a: seq<int>, from: int, to: int)
    requires Sorted(a) && forall i :: 0 <= i < |a| ==> from <= a[i]
    ensures var n := |Within(a, from, to)|; n <= |a| && (0 < n ==> a[n - 1] <= to)
  {
    if a != [] {
      WithinIsAPrefix(a[1..], from, to);
    }
  }

  lemma {:induction false} WindowOfConforming(c: Limits, a: seq<int>, from: int, to: int)
    requires Conforms(c, a) && Sorted(a) && from <= to
    ensures |Within(a, from, to)| * c.cost <= c.burst + (to - from)
  {
    if a == [] {
    } else if a[0] < from {
      assert forall i :: 0 <= i < |a[1..]| ==> a[1..][i] == a[i + 1];
      assert Conforms(c, a[1..]) by {
        forall i, j | 0 <= i <= j < |a[1..]|
          ensures (j - i + 1) * c.cost <= c.burst + (a[1..][j] - a[1..][i])
        {
          assert ((j + 1) - (i + 1) + 1) * c.cost <= c.burst + (a[j + 1] - a[i + 1]);
        }
      }
      WindowOfConforming(c, a[1..], from, to);
    } else {
      WithinIsAPrefix(a, from, to);
      var n := |Within(a, from, to)|;
      if 0 < n {
        assert ((n - 1) - 0 + 1) * c.cost <= c.burst + (a[n - 1] - a[0]);
      }
    }
  }

  lemma {:induction false} RequestsInOrder(es: seq<Event>, ip: string, clock: int)
    requires Ordered(clock, es)
    ensures Sorted(Requests(es, ip)) && forall i :: 0 <= i < |Requests(es, ip)| ==> clock <= Requests(es, ip)[i]
    decreases es
  {
    if es != [] {
      RequestsInOrder(es[1..], ip, Max(clock, es[0].at));
    }
  }

  lemma {:induction false} AdmittedInOrder(times: seq<int>, v: seq<bool>)
    requires |v| == |times| && Sorted(times)
    ensures Sorted(Admitted(times, v)) && forall i :: 0 <= i < |Admitted(times, v)| ==> times[0] <= Admitted(times, v)[i]
    ensures |Admitted(times, v)| <= |times|
  {
    if times != [] {
      AdmittedInOrder(times[1..], v[1..]);
    }
  }

  /** Main result: in any window of any trace, at most burst + elapsed is admitted for one IP. */
  lemma WindowBound(c: Limits, es: seq<Event>, ip: string, clock: int, from: int, to: int)
    requires c.FullBeforeEviction() && Ordered(clock, es) && from <= to
    ensures |Within(Admitted(Requests(es, ip), Verdicts(c, map[], es, ip)), from, to)| * c.cost <= c.burst + (to - from)
  {
    AdmitsExactlyTheAllowance(c, es, ip, clock);
    RequestsInOrder(es, ip, clock);
    AdmittedInOrder(Requests(es, ip), Verdicts(c, map[], es, ip));
    WindowOfConforming(c, Admitted(Requests(es, ip), Verdicts(c, map[], es, ip)), from, to);
  }

  // ---------------------------------------------------------------- Retry-After

  lemma VerdictsFromHere(c: Limits, h: seq<int>, times: seq<int>, k: nat)
    requires 0 < k < |times|
    ensures IdealVerdicts(c, h, times)[k] == IdealVerdicts(c, Charged(c, h, times[0]), times[1..])[k - 1]
  {
  }

  lemma NeverInDebt(c: Limits, h: seq<int>, s: int, t: int)
    requires s <= t && 0 <= Level(c, h, s)
    ensures 0 <= Level(c, Charged(c, h, s), t)
  {
    LevelAfterAdmission(c, h, s, t);
    LevelOverTime(c, h, s, t);
  }

  ghost predicate DeniedFrom(v: seq<bool>, i: nat, j: nat) {
    j <= |v| && forall k :: i <= k < j ==> !v[k]
  }

  lemma {:induction false} DeniedPollsCostNothing(c: Limits, h: seq<int>, times: seq<int>, j: nat, since: int)
    requires Sorted(times) && j < |times| && since <= times[0]
    requires 0 <= Level(c, h, since) && c.cost <= c.burst && c.cost <= times[j] - since
    requires DeniedFrom(IdealVerdicts(c, h, times), 0, j)
    ensures IdealVerdicts(c, h, times)[j]
    decreases j
  {
    if j == 0 {
      LevelOverTime(c, h, since, times[0]);
    } else {
      assert !IdealVerdicts(c, h, times)[0];
      forall k | 0 <= k < j - 1
        ensures !IdealVerdicts(c, h, times[1..])[k]
      {
        VerdictsFromHere(c, h, times, k + 1);
      }
      DeniedPollsCostNothing(c, h, times[1..], j - 1, since);
    }
  }

  lemma {:induction false} IdealRetry(c: Limits, h: seq<int>, times: seq<int>, i: nat, j: nat)
    requires Sorted(times) && i < j < |times|
    requires 0 <= Level(c, h, times[0]) && c.cost <= c.burst && c.cost <= times[j] - times[i]
    requires DeniedFrom(IdealVerdicts(c, h, times), i, j)
    ensures IdealVerdicts(c, h, times)[j]
    decreases i
  {
    if i == 0 {
      DeniedPollsCostNothing(c, h, times, j, times[0]);
    } else {
      var h' := Charged(c, h, times[0]);
      NeverInDebt(c, h, times[0], times[1]);
      forall k | i - 1 <= k < j - 1
        ensures !IdealVerdicts(c, h', times[1..])[k]
      {
        VerdictsFromHere(c, h, times, k + 1);
      }
      VerdictsFromHere(c, h, times, j);
      IdealRetry(c, h', times[1..], i - 1, j - 1);
    }
  }

  /** Main result: the Retry-After promise. An IP denied at its i-th call is admitted at its
      j-th, made at least a token's worth of time later, if everything between was denied too;
      the other IPs and the sweeper do what they like meanwhile. */
  lemma RetryAfterIsHonoured(c: Limits, es: seq<Event>, ip: string, clock: int, i: nat, j: nat)
    requires c.FullBeforeEviction() && Ordered(clock, es) && c.cost <= c.burst
    requires i < j < |Requests(es, ip)| && c.cost <= Requests(es, ip)[j] - Requests(es, ip)[i]
    requires forall k :: i <= k < j ==> !Verdicts(c, map[], es, ip)[k]
    ensures Verdicts(c, map[], es, ip)[j]
  {
    SharedEqualsPrivate(c, es, ip, clock);
    RequestsInOrder(es, ip, clock);
    IdealRetry(c, [], Requests(es, ip), i, j);
  }

  // ---------------------------------------------------------------- every reachable map

  ghost predicate InRange(c: Limits, m: Buckets, clock: int) {
    forall ip :: ip in m ==> 0 <= m[ip].tokens <= c.burst && m[ip].lastSeen <= clock
  }

  function Latest(clock: int, es: seq<Event>): int
    decreases es
  {
    if es == [] then clock else Latest(Max(clock, es[0].at), es[1..])
  }

  lemma {:induction false} TokensStayInRange(c: Limits, m: Buckets, es: seq<Event>, clock: int)
    requires InRange(c, m, clock) && Ordered(clock, es)
    ensures InRange(c, Reached(c, m, es), Latest(clock, es))
    decreases es
  {
    if es != [] {
      assert InRange(c, Step(c, m, es[0]), Max(clock, es[0].at));
      TokensStayInRange(c, Step(c, m, es[0]), es[1..], Max(clock, es[0].at));
    }
  }

  /** What the limiter ships with: 5 + elapsed seconds, and a retry after one second. */
  lemma AuthEndpoints(es: seq<Event>, ip: string, clock: int, from: int, seconds: nat)
    requires Ordered(clock, es)
    ensures |Within(Admitted(Requests(es, ip), Verdicts(AUTH, map[], es, ip)), from, from + seconds * SECOND)| <= 5 + seconds
    ensures forall i, j :: 0 <= i < j < |Requests(es, ip)| && SECOND <= Requests(es, ip)[j] - Requests(es, ip)[i]
              && (forall k :: i <= k < j ==> !Verdicts(AUTH, map[], es, ip)[k])
              ==> Verdicts(AUTH, map[], es, ip)[j]
  {
    WindowBound(AUTH, es, ip, clock, from, from + seconds * SECOND);
    forall i, j | 0 <= i < j < |Requests(es, ip)| && SECOND <= Requests(es, ip)[j] - Requests(es, ip)[i]
        && (forall k :: i <= k < j ==> !Verdicts(AUTH, map[], es, ip)[k])
      ensures Verdicts(AUTH, map[], es, ip)[j]
    {
      RetryAfterIsHonoured(AUTH, es, ip, clock, i, j);
    }
  }

  /** And no less: of requests made at one instant by an IP not seen before, the first five are
      admitted and the sixth is not. */
  lemma FiveThenDenied(ip: string, now: int)
    ensures var r := Request(ip, now);
      Verdicts(AUTH, map[], [r, r, r, r, r, r], ip) == [true, true, true, true, true, false]
  {
    SixAtOnce(ip, now, map[], 5 * SECOND, 6);
    var r := Request(ip, now);
    assert Repeated(r, 6) == [r, r, r, r, r, r];
    assert Pattern(5, 6) == [true, true, true, true, true, false];
  }

  function Repeated(e: Event, n: nat): seq<Event> {
    seq(n, i => e)
  }

  /** `k` times true, and false from then on. */
  function Pattern(k: int, n: nat): seq<bool> {
    seq(n, i => i < k)
  }

  lemma {:induction false} SixAtOnce(ip: string, now: int, m: Buckets, tokens: int, n: nat)
    requires 0 <= tokens <= AUTH.burst && Touched(AUTH, m, ip, now) == Bucket(tokens, now)
    ensures Verdicts(AUTH, m, Repeated(Request(ip, now), n), ip) == Pattern(tokens / SECOND, n)
    decreases n
  {
    var es := Repeated(Request(ip, now), n);
    if 0 < n {
      var ok := SECOND <= tokens;
      var left := if ok then tokens - SECOND else tokens;
      var m' := AfterRequest(AUTH, m, ip, now);
      assert es[1..] == Repeated(Request(ip, now), n - 1);
      SixAtOnce(ip, now, m', left, n - 1);
      assert left / SECOND == if ok then tokens / SECOND - 1 else 0;
      assert Pattern(tokens / SECOND, n) == [ok] + Pattern(left / SECOND, n - 1);
    }
  }
}
