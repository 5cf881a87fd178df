/** internal/httpapi/rate_limit.go: the per-IP token bucket with lazy garbage collection. */
module Limiter {
  import opened Common

  type Ip = string

  /** PerIP and WindowSecs; LoginRateLimiter disables itself unless both are positive. */
  datatype Config = Config(max: nat, window: real)
  {
    predicate Enabled() {
      max >= 1 && window > 0.0
    }
  }

  datatype Level = Level(tokens: real, last: real)

  datatype State = State(buckets: map<Ip, Level>, lastGC: real)

  datatype Call = Call(ip: Ip, now: real)

  function MinF(a: real, b: real): real {
    if a < b then a else b
  }

  /** Tokens refilled over e seconds: linear, max per window. */
  function Gain(c: Config, e: real): real
    requires c.Enabled()
  {
    e / c.window * c.max as real
  }

  function Refilled(c: Config, b: Level, now: real): real
    requires c.Enabled()
  {
    MinF(c.max as real, b.tokens + Gain(c, now - b.last))
  }

  function Collect(c: Config, s: State, now: real): State {
    if now - s.lastGC >= c.window then
      State(map k | k in s.buckets && !(now - s.buckets[k].last >= c.window) :: s.buckets[k], now)
    else
      s
  }

  /** The bucket work of allow, on a state where garbage collection has been decided. */
  function Take(c: Config, s: State, ip: Ip, now: real): (State, bool)
    requires c.Enabled()
  {
    var b := if ip in s.buckets then s.buckets[ip] else Level(c.max as real, now);
    var tokens := Refilled(c, b, now);
    if tokens < 1.0 then (s.(buckets := s.buckets[ip := Level(tokens, now)]), false)
    else (s.(buckets := s.buckets[ip := Level(tokens - 1.0, now)]), true)
  }

  function Decide(c: Config, s: State, ip: Ip, now: real): (State, bool)
    requires c.Enabled()
  {
    Take(c, Collect(c, s, now), ip, now)
  }

  // ---------- the limiter object ----------

  class Bucket {
    var tokens: real
    var last: real

    constructor (tokens: real, last: real)
      ensures this.tokens == tokens && this.last == last
    {
      this.tokens, this.last := tokens, last;
    }

    function Value(): Level
      reads this
    {
      Level(tokens, last)
    }
  }

  class IpLimiter {
    const c: Config
    var buckets: map<Ip, Bucket>
    var lastGC: real

    constructor (max: nat, window: real, now: real)
      requires Config(max, window).Enabled()
      ensures c == Config(max, window) && Valid()
      ensures Contents() == State(map[], now)
    {
      c := Config(max, window);
      buckets := map[];
      lastGC := now;
    }

    /** No two addresses share a bucket. */
    ghost predicate Valid()
      reads this
    {
      && c.Enabled()
      && forall j, k :: j in buckets && k in buckets && buckets[j] == buckets[k] ==> j == k
    }

    ghost function Contents(): State
      reads this, buckets.Values
    {
      State(map k | k in buckets :: buckets[k].Value(), lastGC)
    }

    /** The sweep in allow: drop every bucket idle for a full window. */
    method CollectGarbage(now: real)
      requires Valid()
      modifies this`buckets
      ensures Valid()
      ensures buckets.Keys <= old(buckets.Keys) && forall k :: k in buckets ==> buckets[k] == old(buckets[k])
      ensures forall k :: k in old(buckets) ==> (k in buckets <==> !(now - old(buckets[k]).last >= c.window))
    {
      var todo := buckets.Keys;
      while todo != {}
        invariant todo <= buckets.Keys <= old(buckets.Keys)
        invariant forall k :: k in buckets ==> buckets[k] == old(buckets[k])
        invariant forall k :: k in old(buckets) && k !in todo ==>
                    (k in buckets <==> !(now - old(buckets[k]).last >= c.window))
        decreases todo
      {
        var k :| k in todo;
        todo := todo - {k};
        var b := buckets[k];
        if now - b.last >= c.window {
          buckets := buckets - {k};
        }
      }
    }

    method SweepIfDue(now: real)
      requires Valid()
      modifies this
      ensures Valid() && Contents() == Collect(c, old(Contents()), now)
      ensures buckets.Values <= old(buckets.Values)
    {
      if now - lastGC >= c.window {
        CollectGarbage(now);
        lastGC := now;
      }
    }

    /** The bucket of ip, created full if there is none. */
    method Fetch(ip: Ip, now: real) returns (b: Bucket)
      requires Valid()
      modifies this`buckets
      ensures Valid() && ip in buckets && buckets[ip] == b
      ensures if ip in old(buckets) then buckets == old(buckets)
              else fresh(b) && buckets == old(buckets)[ip := b] && b.Value() == Level(c.max as real, now)
    {
      if ip in buckets {
        b := buckets[ip];
      } else {
        b := new Bucket(c.max as real, now);
        buckets := buckets[ip := b];
      }
    }

    /** Refill, then spend one token if there is one. */
    method Spend(ip: Ip, b: Bucket, now: real) returns (ok: bool)
      requires Valid() && ip in buckets && buckets[ip] == b
      modifies b
      ensures Valid() && (Contents(), ok) == Take(c, old(Contents()), ip, now)
    {
      ghost var s := old(Contents());
      assert s.buckets[ip] == b.Value();
      var elapsed := now - b.last;
      var refill := elapsed / c.window * c.max as real;
      b.tokens := MinF(c.max as real, b.tokens + refill);
      assert b.tokens == Refilled(c, s.buckets[ip], now);
      b.last := now;
      if b.tokens < 1.0 {
        ok := false;
      } else {
        b.tokens := b.tokens - 1.0;
        ok := true;
      }
      assert forall k :: k in buckets && k != ip ==> buckets[k] != b;
      assert Contents().buckets == s.buckets[ip := b.Value()];
      assert Contents() == s.(buckets := s.buckets[ip := b.Value()]);
    }

    method Allow(ip: Ip, now: real) returns (ok: bool)
      requires Valid()
      modifies this, buckets.Values
      ensures Valid()
      ensures fresh(buckets.Values - old(buckets.Values))
      ensures (Contents(), ok) == Decide(c, old(Contents()), ip, now)
    {
      SweepIfDue(now);
      ghost var s1 := Contents();
      var b := Fetch(ip, now);
      assert Contents() == WithBucket(c, s1, ip, now);
      ok := Spend(ip, b, now);
      TakeCreates(c, s1, ip, now);
    }
  }

  function WithBucket(c: Config, s: State, ip: Ip, now: real): State {
    if ip in s.buckets then s else s.(buckets := s.buckets[ip := Level(c.max as real, now)])
  }

  /** Creating a full bucket first and taking from it is taking. */
  lemma TakeCreates(c: Config, s: State, ip: Ip, now: real)
    requires c.Enabled()
    ensures Take(c, WithBucket(c, s, ip, now), ip, now) == Take(c, s, ip, now)
  {
    var full := Level(c.max as real, now);
    var x := Take(c, s, ip, now).0.buckets[ip];
    assert s.buckets[ip := full][ip := x] == s.buckets[ip := x];
  }

  // ---------- runs ----------

  function Start(t0: real): State {
    State(map[], t0)
  }

  function After(c: Config, s: State, calls: seq<Call>): State
    requires c.Enabled()
  {
    if calls == [] then s
    else Decide(c, After(c, s, calls[..|calls| - 1]), calls[|calls| - 1].ip, calls[|calls| - 1].now).0
  }

  /** The verdict on the last call of the run. */
  predicate Admits(c: Config, s: State, calls: seq<Call>)
    requires c.Enabled() && calls != []
  {
    Decide(c, After(c, s, calls[..|calls| - 1]), calls[|calls| - 1].ip, calls[|calls| - 1].now).1
  }

  /** The same limiter, never collecting garbage. */
  function AfterKeep(c: Config, s: State, calls: seq<Call>): State
    requires c.Enabled()
  {
    if calls == [] then s
    else Take(c, AfterKeep(c, s, calls[..|calls| - 1]), calls[|calls| - 1].ip, calls[|calls| - 1].now).0
  }

  predicate AdmitsKeep(c: Config, s: State, calls: seq<Call>)
    requires c.Enabled() && calls != []
  {
    Take(c, AfterKeep(c, s, calls[..|calls| - 1]), calls[|calls| - 1].ip, calls[|calls| - 1].now).1
  }

  predicate Ordered(calls: seq<Call>) {
    forall i, j :: 0 <= i < j < |calls| ==> calls[i].now <= calls[j].now
  }

  /** Nothing has happened after t. */
  predicate Before(calls: seq<Call>, t: real) {
    calls != [] ==> calls[|calls| - 1].now <= t
  }

  // ---------- arithmetic of the refill ----------

  lemma GainAdds(c: Config, e: real, f: real)
    requires c.Enabled()
    ensures Gain(c, e) + Gain(c, f) == Gain(c, e + f)
  {
    assert e / c.window + f / c.window == (e + f) / c.window;
  }

  lemma GainGrows(c: Config, e: real, f: real)
    requires c.Enabled() && e <= f
    ensures Gain(c, e) <= Gain(c, f)
  {
    assert e / c.window <= f / c.window;
  }

  lemma GainOfWindow(c: Config)
    requires c.Enabled()
    ensures Gain(c, 0.0) == 0.0 && Gain(c, c.window) == c.max as real
    ensures Gain(c, c.window / c.max as real) == 1.0
  {
    var m := c.max as real;
    assert c.window / m / c.window == 1.0 / m;
  }

  // ---------- garbage collection is invisible ----------

  /** A bucket idle since a full window would be full again by any time from t on. */
  predicate Idle(c: Config, b: Level, t: real) {
    b.tokens >= 0.0 && t - b.last >= c.window
  }

  /** s collects garbage, n does not: n has every bucket of s, and the rest of n's have refilled. */
  ghost predicate Shadows(c: Config, s: State, n: State, t: real) {
    && (forall k :: k in s.buckets ==> k in n.buckets && n.buckets[k] == s.buckets[k])
    && (forall k :: k in n.buckets && k !in s.buckets ==> Idle(c, n.buckets[k], t))
    && (forall k :: k in n.buckets ==> n.buckets[k].tokens >= 0.0 && n.buckets[k].last <= t)
  }

  lemma IdleRefills(c: Config, b: Level, t: real, now: real)
    requires c.Enabled() && Idle(c, b, t) && t <= now
    ensures Refilled(c, b, now) == c.max as real
  {
    GainGrows(c, c.window, now - b.last);
    GainOfWindow(c);
  }

  lemma NewBucketIsFull(c: Config, now: real)
    requires c.Enabled()
    ensures Refilled(c, Level(c.max as real, now), now) == c.max as real
  {
    GainOfWindow(c);
  }

  lemma RefillNonNegative(c: Config, b: Level, now: real)
    requires c.Enabled() && b.tokens >= 0.0 && b.last <= now
    ensures Refilled(c, b, now) >= 0.0
  {
    GainGrows(c, 0.0, now - b.last);
    GainOfWindow(c);
  }

  lemma ShadowStep(c: Config, s: State, n: State, t: real, ip: Ip, now: real)
    requires c.Enabled() && Shadows(c, s, n, t) && t <= now
    ensures Decide(c, s, ip, now).1 == Take(c, n, ip, now).1
    ensures Shadows(c, Decide(c, s, ip, now).0, Take(c, n, ip, now).0, now)
  {
    var s1 := Collect(c, s, now);
    assert Shadows(c, s1, n, now);
    NewBucketIsFull(c, now);
    if ip in n.buckets {
      RefillNonNegative(c, n.buckets[ip], now);
      if ip !in s1.buckets {
        IdleRefills(c, n.buckets[ip], now, now);
      }
    }
  }

  lemma {:induction false} GcShadows(c: Config, t0: real, calls: seq<Call>, t: real)
    requires c.Enabled() && Ordered(calls) && Before(calls, t)
    ensures Shadows(c, After(c, Start(t0), calls), AfterKeep(c, Start(t0), calls), t)
  {
    if calls != [] {
      var k := |calls| - 1;
      GcShadows(c, t0, calls[..k], calls[k].now);
      ShadowStep(c, After(c, Start(t0), calls[..k]), AfterKeep(c, Start(t0), calls[..k]),
                 calls[k].now, calls[k].ip, calls[k].now);
    }
  }

  /**
   * Garbage collection is invisible: on every call sequence with
   * non-decreasing times the limiter gives the verdicts of one that never
   * deletes a bucket.
   */
  lemma GcIsInvisible(c: Config, t0: real, calls: seq<Call>)
    requires c.Enabled() && calls != [] && Ordered(calls)
    ensures Admits(c, Start(t0), calls) <==> AdmitsKeep(c, Start(t0), calls)
  {
    var k := |calls| - 1;
    GcShadows(c, t0, calls[..k], calls[k].now);
    ShadowStep(c, After(c, Start(t0), calls[..k]), AfterKeep(c, Start(t0), calls[..k]),
               calls[k].now, calls[k].ip, calls[k].now);
  }

  /** After a call at t, every bucket left was touched within the last two windows. */
  lemma {:induction false} BucketsAreRecent(c: Config, t0: real, calls: seq<Call>, t: real)
    requires c.Enabled() && Ordered(calls) && calls != [] && calls[|calls| - 1].now == t && t0 <= calls[0].now
    ensures var s := After(c, Start(t0), calls);
            && s.lastGC <= t && t - s.lastGC < c.window
            && forall k :: k in s.buckets ==>
                 s.buckets[k].last <= t && s.lastGC - s.buckets[k].last < c.window
                 && t - s.buckets[k].last < 2.0 * c.window
  {
    var k := |calls| - 1;
    if k > 0 {
      BucketsAreRecent(c, t0, calls[..k], calls[k - 1].now);
    } else {
      assert calls[..0] == [];
    }
  }

  // ---------- addresses do not share ----------

  /** The calls of one address. */
  function Own(calls: seq<Call>, ip: Ip): seq<Call> {
    if calls == [] then []
    else
      var last := calls[|calls| - 1];
      Own(calls[..|calls| - 1], ip) + if last.ip == ip then [last] else []
  }

  lemma {:induction false} OwnIsOrdered(calls: seq<Call>, ip: Ip, t: real)
    requires Ordered(calls) && Before(calls, t)
    ensures Ordered(Own(calls, ip)) && forall i :: 0 <= i < |Own(calls, ip)| ==> Own(calls, ip)[i].now <= t
  {
    if calls != [] {
      OwnIsOrdered(calls[..|calls| - 1], ip, calls[|calls| - 1].now);
    }
  }

  /** Both have the same bucket of ip, or neither has one. */
  predicate SameBucket(s: State, s': State, ip: Ip) {
    (ip in s.buckets <==> ip in s'.buckets) && (ip in s.buckets ==> s.buckets[ip] == s'.buckets[ip])
  }

  lemma {:induction false} OwnBucket(c: Config, s: State, calls: seq<Call>, ip: Ip)
    requires c.Enabled()
    ensures SameBucket(AfterKeep(c, s, calls), AfterKeep(c, s, Own(calls, ip)), ip)
  {
    if calls != [] {
      var k := |calls| - 1;
      OwnBucket(c, s, calls[..k], ip);
      var own := Own(calls[..k], ip);
      if calls[k].ip == ip {
        assert (own + [calls[k]])[..|own|] == own;
      } else {
        assert Own(calls, ip) == own;
      }
    }
  }

  /**
   * Isolation: with non-decreasing times the verdict on a call is the one a
   * limiter gives that never saw another address, whatever the others do.
   */
  lemma {:induction false} AddressesAreIsolated(c: Config, t0: real, calls: seq<Call>)
    requires c.Enabled() && calls != [] && Ordered(calls)
    ensures var own := Own(calls, calls[|calls| - 1].ip);
            own != [] && (Admits(c, Start(t0), calls) <==> Admits(c, Start(t0), own))
  {
    var k := |calls| - 1;
    var ip := calls[k].ip;
    var own := Own(calls[..k], ip);
    assert Own(calls, ip) == own + [calls[k]] && (own + [calls[k]])[..|own|] == own;
    OwnIsOrdered(calls, ip, calls[k].now);
    OwnBucket(c, Start(t0), calls[..k], ip);
    GcIsInvisible(c, t0, calls);
    GcIsInvisible(c, t0, Own(calls, ip));
  }

  // ---------- denied calls are erasable ----------

  /** The same bucket, read at two times with no admission in between. */
  predicate OnLine(c: Config, b: Level, b0: Level)
    requires c.Enabled()
  {
    b0.last <= b.last && b.tokens <= c.max as real && b.tokens == b0.tokens + Gain(c, b.last - b0.last)
  }

  ghost predicate Alike(c: Config, s: State, s0: State, ip: Ip)
    requires c.Enabled()
  {
    && s.buckets.Keys == s0.buckets.Keys
    && (forall k :: k in s.buckets && k != ip ==> s.buckets[k] == s0.buckets[k])
    && (ip in s.buckets ==> s.buckets[ip] == s0.buckets[ip] || OnLine(c, s.buckets[ip], s0.buckets[ip]))
  }

  lemma LineRefills(c: Config, b: Level, b0: Level, now: real)
    requires c.Enabled() && OnLine(c, b, b0)
    ensures Refilled(c, b, now) == Refilled(c, b0, now)
  {
    GainAdds(c, b.last - b0.last, now - b.last);
  }

  lemma DeniedIsAlike(c: Config, s: State, ip: Ip, now: real)
    requires c.Enabled() && !Take(c, s, ip, now).1
    requires ip in s.buckets ==> s.buckets[ip].last <= now
    ensures Alike(c, Take(c, s, ip, now).0, s, ip)
  {
    NewBucketIsFull(c, now);
  }

  lemma AlikeStep(c: Config, s: State, s0: State, ip: Ip, j: Ip, now: real)
    requires c.Enabled() && Alike(c, s, s0, ip)
    ensures Take(c, s, j, now).1 == Take(c, s0, j, now).1
    ensures Alike(c, Take(c, s, j, now).0, Take(c, s0, j, now).0, ip)
  {
    if j == ip && ip in s.buckets && s.buckets[ip] != s0.buckets[ip] {
      LineRefills(c, s.buckets[ip], s0.buckets[ip], now);
    }
  }

  lemma ErasedAtOnce(c: Config, t0: real, xs: seq<Call>, d: Call)
    requires c.Enabled() && Ordered(xs + [d]) && !AdmitsKeep(c, Start(t0), xs + [d])
    ensures Alike(c, AfterKeep(c, Start(t0), xs + [d]), AfterKeep(c, Start(t0), xs), d.ip)
  {
    var a := xs + [d];
    assert a[..|xs|] == xs;
    assert forall i :: 0 <= i < |xs| ==> xs[i] == a[i];
    if xs != [] {
      assert a[|xs| - 1].now <= a[|xs|].now;
    }
    GcShadows(c, t0, xs, d.now);
    DeniedIsAlike(c, AfterKeep(c, Start(t0), xs), d.ip, d.now);
  }

  lemma {:induction false} ErasedStaysAlike(c: Config, t0: real, xs: seq<Call>, d: Call, ys: seq<Call>)
    requires c.Enabled() && Ordered(xs + [d])
    requires !AdmitsKeep(c, Start(t0), xs + [d])
    ensures Alike(c, AfterKeep(c, Start(t0), xs + [d] + ys), AfterKeep(c, Start(t0), xs + ys), d.ip)
  {
    if ys == [] {
      assert xs + [d] + ys == xs + [d] && xs + ys == xs;
      ErasedAtOnce(c, t0, xs, d);
    } else {
      var k := |ys| - 1;
      var a, b := xs + [d] + ys, xs + ys;
      assert a[..|a| - 1] == xs + [d] + ys[..k] && b[..|b| - 1] == xs + ys[..k];
      ErasedStaysAlike(c, t0, xs, d, ys[..k]);
      AlikeStep(c, AfterKeep(c, Start(t0), xs + [d] + ys[..k]), AfterKeep(c, Start(t0), xs + ys[..k]),
                d.ip, ys[k].ip, ys[k].now);
    }
  }

  lemma OrderedParts(xs: seq<Call>, d: Call, ys: seq<Call>)
    requires Ordered(xs + [d] + ys)
    ensures Ordered(xs + [d]) && Ordered(xs + ys)
  {
    var a := xs + [d] + ys;
    assert forall i :: 0 <= i <= |xs| ==> (xs + [d])[i] == a[i];
    assert forall i :: 0 <= i < |xs + ys| ==> (xs + ys)[i] == a[if i < |xs| then i else i + 1];
  }

  /** Deleting a denied call from a run with non-decreasing times changes no later verdict. */
  lemma DeniedCallsAreErasable(c: Config, t0: real, xs: seq<Call>, d: Call, ys: seq<Call>)
    requires c.Enabled() && ys != [] && Ordered(xs + [d] + ys)
    requires !Admits(c, Start(t0), xs + [d])
    ensures Admits(c, Start(t0), xs + [d] + ys) <==> Admits(c, Start(t0), xs + ys)
  {
    var k := |ys| - 1;
    var a, b := xs + [d] + ys, xs + ys;
    OrderedParts(xs, d, ys);
    GcIsInvisible(c, t0, xs + [d]);
    GcIsInvisible(c, t0, a);
    GcIsInvisible(c, t0, b);
    assert a[..|a| - 1] == xs + [d] + ys[..k] && b[..|b| - 1] == xs + ys[..k];
    ErasedStaysAlike(c, t0, xs, d, ys[..k]);
    AlikeStep(c, AfterKeep(c, Start(t0), xs + [d] + ys[..k]), AfterKeep(c, Start(t0), xs + ys[..k]),
              d.ip, ys[k].ip, ys[k].now);
  }

  lemma {:induction false} OthersKeepBucket(c: Config, s: State, ys: seq<Call>, ip: Ip)
    requires c.Enabled() && forall i :: 0 <= i < |ys| ==> ys[i].ip != ip
    ensures ip in AfterKeep(c, s, ys).buckets <==> ip in s.buckets
    ensures ip in s.buckets ==> AfterKeep(c, s, ys).buckets[ip] == s.buckets[ip]
  {
    if ys != [] {
      OthersKeepBucket(c, s, ys[..|ys| - 1], ip);
    }
  }

  lemma {:induction false} AfterKeepAppend(c: Config, s: State, xs: seq<Call>, ys: seq<Call>)
    requires c.Enabled()
    ensures AfterKeep(c, s, xs + ys) == AfterKeep(c, AfterKeep(c, s, xs), ys)
  {
    if ys == [] {
      assert xs + ys == xs;
    } else {
      assert (xs + ys)[..|xs + ys| - 1] == xs + ys[..|ys| - 1];
      AfterKeepAppend(c, s, xs, ys[..|ys| - 1]);
    }
  }

  lemma WaitRefillsOne(c: Config, b: Level, now: real)
    requires c.Enabled() && b.tokens >= 0.0 && now - b.last >= c.window / c.max as real
    ensures Refilled(c, b, now) >= 1.0
  {
    GainGrows(c, c.window / c.max as real, now - b.last);
    GainOfWindow(c);
  }

  /**
   * A denied address is let in again: its next call, window / max seconds or
   * more after the denial, is admitted, whatever other addresses did between.
   */
  lemma WaitingOutADenial(c: Config, t0: real, xs: seq<Call>, d: Call, ys: seq<Call>, again: Call)
    requires c.Enabled() && Ordered(xs + [d] + (ys + [again]))
    requires !Admits(c, Start(t0), xs + [d])
    requires again.ip == d.ip && (forall i :: 0 <= i < |ys| ==> ys[i].ip != d.ip)
    requires again.now - d.now >= c.window / c.max as real
    ensures Admits(c, Start(t0), xs + [d] + (ys + [again]))
  {
    var a := xs + [d] + (ys + [again]);
    OrderedParts(xs, d, ys + [again]);
    GcIsInvisible(c, t0, a);
    GcIsInvisible(c, t0, xs + [d]);
    assert (xs + [d])[..|xs|] == xs;
    assert a[..|a| - 1] == (xs + [d]) + ys;
    GcShadows(c, t0, xs + [d], d.now);
    var s := AfterKeep(c, Start(t0), xs + [d]);
    AfterKeepAppend(c, Start(t0), xs + [d], ys);
    OthersKeepBucket(c, s, ys, d.ip);
    WaitRefillsOne(c, s.buckets[d.ip], again.now);
  }
}
