/**
 * The rate bound of ipLimiter: at most max + max * (t2 - t1) / window calls of
 * one address are admitted with stamps in [t1, t2]. Stamps need not be in
 * order, because the time is read before the lock is taken; the bound holds
 * exactly for the stamp sequences in which no bucket can be collected early.
 */
module RateBound {
  import opened Common
  import opened Limiter

  // ---------- what the stamps alone decide ----------

  function Stamps(calls: seq<Call>): (ts: seq<real>)
    ensures |ts| == |calls| && forall n :: 0 <= n < |ts| ==> ts[n] == calls[n].now
  {
    seq(|calls|, n requires 0 <= n < |calls| => calls[n].now)
  }

  /** The time of the latest sweep. */
  function LastSweep(c: Config, t0: real, ts: seq<real>): real {
    if ts == [] then t0
    else
      var g := LastSweep(c, t0, ts[..|ts| - 1]);
      var t := ts[|ts| - 1];
      if t - g >= c.window then t else g
  }

  /** Call j sweeps. */
  predicate Due(c: Config, t0: real, ts: seq<real>, j: nat)
    requires j < |ts|
  {
    ts[j] - LastSweep(c, t0, ts[..j]) >= c.window
  }

  /**
   * A bucket last touched by call l looks idle to the sweep at call j, though
   * calls i and k, before and after, are stamped less than a window apart.
   */
  predicate Leak(c: Config, t0: real, ts: seq<real>, i: nat, l: nat, j: nat, k: nat)
    requires i <= l < j <= k < |ts|
  {
    Due(c, t0, ts, j) && ts[j] - ts[l] >= c.window && -c.window < ts[k] - ts[i] < c.window
  }

  ghost predicate Leaky(c: Config, t0: real, ts: seq<real>) {
    exists i: nat, l: nat, j: nat, k: nat :: i <= l < j <= k < |ts| && Leak(c, t0, ts, i, l, j, k)
  }

  lemma {:induction false} SweepsFollowStamps(c: Config, t0: real, calls: seq<Call>)
    requires c.Enabled()
    ensures After(c, Start(t0), calls).lastGC == LastSweep(c, t0, Stamps(calls))
  {
    if calls != [] {
      var k := |calls| - 1;
      SweepsFollowStamps(c, t0, calls[..k]);
      assert Stamps(calls)[..k] == Stamps(calls[..k]);
    }
  }

  // ---------- admissions ----------

  /** Call n is an admitted call of ip. */
  predicate AdmittedAt(c: Config, s: State, calls: seq<Call>, ip: Ip, n: nat)
    requires c.Enabled() && n < |calls|
  {
    calls[n].ip == ip && Admits(c, s, calls[..n + 1])
  }

  /** Calls of ip with a stamp in [t1, t2] that are admitted. */
  function Admitted(c: Config, s: State, calls: seq<Call>, ip: Ip, t1: real, t2: real): nat
    requires c.Enabled()
  {
    if calls == [] then 0
    else
      var last := calls[|calls| - 1];
      Admitted(c, s, calls[..|calls| - 1], ip, t1, t2)
      + if last.ip == ip && t1 <= last.now <= t2 && Admits(c, s, calls) then 1 else 0
  }

  /** n admissions are no more than a full bucket and the tokens of the interval, max a window. */
  predicate WithinBound(c: Config, n: nat, t1: real, t2: real)
    requires c.Enabled()
  {
    n as real <= c.max as real + c.max as real * (t2 - t1) / c.window
  }

  predicate WithinGain(c: Config, n: nat, t1: real, t2: real)
    requires c.Enabled()
  {
    n as real <= c.max as real + Gain(c, t2 - t1)
  }

  lemma BoundIsGain(c: Config, n: nat, t1: real, t2: real)
    requires c.Enabled()
    ensures WithinBound(c, n, t1, t2) <==> WithinGain(c, n, t1, t2)
  {
    var e, m := t2 - t1, c.max as real;
    assert e / c.window * m == m * e / c.window;
  }

  // ---------- the lives of one bucket ----------

  /** The sweep of the last call deletes ip's bucket. */
  predicate Dies(c: Config, s: State, ip: Ip, now: real) {
    ip in s.buckets && ip !in Collect(c, s, now).buckets
  }

  /** How many times ip's bucket has been deleted. */
  function Lives(c: Config, t0: real, calls: seq<Call>, ip: Ip): nat
    requires c.Enabled()
  {
    if calls == [] then 0
    else
      var k := |calls| - 1;
      Lives(c, t0, calls[..k], ip) + if Dies(c, After(c, Start(t0), calls[..k]), ip, calls[k].now) then 1 else 0
  }

  /** The life of ip's bucket that call n draws on. */
  function LifeOf(c: Config, t0: real, calls: seq<Call>, ip: Ip, n: nat): nat
    requires c.Enabled() && n < |calls|
  {
    Lives(c, t0, calls[..n + 1], ip)
  }

  lemma LifeOfPrefix(c: Config, t0: real, calls: seq<Call>, ip: Ip, n: nat, m: nat)
    requires c.Enabled() && n < m <= |calls|
    ensures LifeOf(c, t0, calls[..m], ip, n) == LifeOf(c, t0, calls, ip, n)
    ensures AdmittedAt(c, Start(t0), calls[..m], ip, n) == AdmittedAt(c, Start(t0), calls, ip, n)
  {
    assert calls[..m][..n + 1] == calls[..n + 1];
  }

  /** Lives only grow. */
  lemma {:induction false} LivesGrow(c: Config, t0: real, calls: seq<Call>, ip: Ip, n: nat)
    requires c.Enabled() && n <= |calls|
    ensures Lives(c, t0, calls[..n], ip) <= Lives(c, t0, calls, ip)
  {
    if n < |calls| {
      var k := |calls| - 1;
      LivesGrow(c, t0, calls[..k], ip, n);
      assert calls[..k][..n] == calls[..n];
    } else {
      assert calls[..n] == calls;
    }
  }

  /** Between two lives there is a call whose sweep deletes the bucket. */
  lemma {:induction false} DeathBetween(c: Config, t0: real, calls: seq<Call>, ip: Ip, p: nat, q: nat) returns (j: nat)
    requires c.Enabled() && p <= q < |calls| && LifeOf(c, t0, calls, ip, p) < LifeOf(c, t0, calls, ip, q)
    ensures p < j <= q && Dies(c, After(c, Start(t0), calls[..j]), ip, calls[j].now)
    decreases q
  {
    assert calls[..q + 1][..q] == calls[..q];
    if Dies(c, After(c, Start(t0), calls[..q]), ip, calls[q].now) {
      j := q;
    } else {
      j := DeathBetween(c, t0, calls, ip, p, q - 1);
    }
  }

  /** A bucket carries the stamp of the call that last touched it. */
  lemma {:induction false} LastTouch(c: Config, t0: real, calls: seq<Call>, ip: Ip, p: nat) returns (l: nat)
    requires c.Enabled() && p < |calls| && calls[p].ip == ip
    requires ip in After(c, Start(t0), calls).buckets
    ensures p <= l < |calls| && After(c, Start(t0), calls).buckets[ip].last == calls[l].now
  {
    var k := |calls| - 1;
    if calls[k].ip == ip {
      l := k;
    } else {
      l := LastTouch(c, t0, calls[..k], ip, p);
    }
  }

  lemma DeathIsDue(c: Config, t0: real, calls: seq<Call>, ip: Ip, j: nat)
    requires c.Enabled() && j < |calls| && Dies(c, After(c, Start(t0), calls[..j]), ip, calls[j].now)
    ensures Due(c, t0, Stamps(calls), j)
    ensures calls[j].now - After(c, Start(t0), calls[..j]).buckets[ip].last >= c.window
  {
    SweepsFollowStamps(c, t0, calls[..j]);
    assert Stamps(calls)[..j] == Stamps(calls[..j]);
  }

  /** Calls of different lives are stamped a window apart, unless the stamps leak. */
  lemma LivesApart(c: Config, t0: real, calls: seq<Call>, ip: Ip, p: nat, q: nat)
    requires c.Enabled() && p < q < |calls| && calls[p].ip == ip
    requires LifeOf(c, t0, calls, ip, p) != LifeOf(c, t0, calls, ip, q) && !Leaky(c, t0, Stamps(calls))
    ensures calls[q].now - calls[p].now >= c.window || calls[p].now - calls[q].now >= c.window
  {
    LivesGrow(c, t0, calls[..q + 1], ip, p + 1);
    assert calls[..q + 1][..p + 1] == calls[..p + 1];
    var j := DeathBetween(c, t0, calls, ip, p, q);
    var l := LastTouch(c, t0, calls[..j], ip, p);
    DeathIsDue(c, t0, calls, ip, j);
    assert !Leak(c, t0, Stamps(calls), p, l, j, q);
  }

  // ---------- the bound within one life ----------

  /** Admitted calls of ip in [t1, t2] that draw on this life of the bucket. */
  function AdmittedIn(c: Config, t0: real, calls: seq<Call>, ip: Ip, life: nat, t1: real, t2: real): nat
    requires c.Enabled()
  {
    if calls == [] then 0
    else
      var last := calls[|calls| - 1];
      AdmittedIn(c, t0, calls[..|calls| - 1], ip, life, t1, t2)
      + if last.ip == ip && t1 <= last.now <= t2 && Admits(c, Start(t0), calls) && Lives(c, t0, calls, ip) == life
        then 1 else 0
  }

  lemma {:induction false} NoLaterLife(c: Config, t0: real, calls: seq<Call>, ip: Ip, life: nat, t1: real, t2: real)
    requires c.Enabled() && life > Lives(c, t0, calls, ip)
    ensures AdmittedIn(c, t0, calls, ip, life, t1, t2) == 0
  {
    if calls != [] {
      NoLaterLife(c, t0, calls[..|calls| - 1], ip, life, t1, t2);
    }
  }

  /** The potential tokens - rate * last never grows while the bucket lives, and pays one per admission. */
  function Potential(c: Config, b: Level): real
    requires c.Enabled()
  {
    b.tokens - Gain(c, b.last)
  }

  lemma TakePays(c: Config, s: State, ip: Ip, now: real)
    requires c.Enabled()
    ensures var (s', ok) := Take(c, s, ip, now); var b' := s'.buckets[ip];
            && b'.last == now
            && Potential(c, b') <= c.max as real - Gain(c, now) - (if ok then 1.0 else 0.0)
            && (ip in s.buckets ==> Potential(c, b') <= Potential(c, s.buckets[ip]) - if ok then 1.0 else 0.0)
            && (ok ==> b'.tokens >= 0.0)
  {
    if ip in s.buckets {
      GainAdds(c, now - s.buckets[ip].last, s.buckets[ip].last);
    } else {
      NewBucketIsFull(c, now);
    }
  }

  /** What n admissions of the current life say about the bucket. */
  predicate Paid(c: Config, s: State, ip: Ip, n: nat, t1: real)
    requires c.Enabled()
  {
    n >= 1 ==> ip in s.buckets && Potential(c, s.buckets[ip]) <= c.max as real - Gain(c, t1) - n as real
  }

  /** One more admission in [t1, t2] stays within the bound and is paid for. */
  lemma OneMorePaid(c: Config, s: State, ip: Ip, now: real, n: nat, t1: real, t2: real)
    requires c.Enabled() && t1 <= now <= t2 && Take(c, s, ip, now).1 && Paid(c, s, ip, n, t1)
    ensures Paid(c, Take(c, s, ip, now).0, ip, n + 1, t1) && WithinGain(c, n + 1, t1, t2)
  {
    TakePays(c, s, ip, now);
    GainGrows(c, t1, now);
    GainGrows(c, now, t2);
    GainAdds(c, t2 - t1, t1);
  }

  lemma StillPaid(c: Config, s: State, j: Ip, now: real, ip: Ip, n: nat, t1: real)
    requires c.Enabled() && Paid(c, s, ip, n, t1)
    ensures Paid(c, Take(c, s, j, now).0, ip, n, t1)
  {
    TakePays(c, s, j, now);
  }

  /** The bound for one life, stamps in any order. */
  lemma {:induction false} LifeBound(c: Config, t0: real, calls: seq<Call>, ip: Ip, life: nat, t1: real, t2: real)
    requires c.Enabled() && t1 <= t2
    ensures var n := AdmittedIn(c, t0, calls, ip, life, t1, t2);
            && WithinGain(c, n, t1, t2)
            && (life == Lives(c, t0, calls, ip) ==> Paid(c, After(c, Start(t0), calls), ip, n, t1))
  {
    if calls == [] {
      GainGrows(c, 0.0, t2 - t1);
      GainOfWindow(c);
    } else {
      var k := |calls| - 1;
      var s := After(c, Start(t0), calls[..k]);
      var n := AdmittedIn(c, t0, calls[..k], ip, life, t1, t2);
      LifeBound(c, t0, calls[..k], ip, life, t1, t2);
      if life == Lives(c, t0, calls, ip) {
        var s1 := Collect(c, s, calls[k].now);
        if Dies(c, s, ip, calls[k].now) {
          NoLaterLife(c, t0, calls[..k], ip, life, t1, t2);
        }
        assert Paid(c, s1, ip, n, t1);
        if calls[k].ip == ip && t1 <= calls[k].now <= t2 && Take(c, s1, ip, calls[k].now).1 {
          OneMorePaid(c, s1, ip, calls[k].now, n, t1, t2);
        } else {
          StillPaid(c, s1, calls[k].ip, calls[k].now, ip, n, t1);
        }
      }
    }
  }

  // ---------- cutting an interval where lives change ----------

  /** Call n is an admitted call of ip stamped in [t1, t2]. */
  predicate Hit(c: Config, t0: real, calls: seq<Call>, ip: Ip, t1: real, t2: real, n: nat)
    requires c.Enabled() && n < |calls|
  {
    AdmittedAt(c, Start(t0), calls, ip, n) && t1 <= calls[n].now <= t2
  }

  lemma HitPrefix(c: Config, t0: real, calls: seq<Call>, ip: Ip, t1: real, t2: real, n: nat)
    requires c.Enabled() && n + 1 < |calls|
    ensures Hit(c, t0, calls[..|calls| - 1], ip, t1, t2, n) == Hit(c, t0, calls, ip, t1, t2, n)
  {
    LifeOfPrefix(c, t0, calls, ip, n, |calls| - 1);
  }

  lemma HitLast(c: Config, t0: real, calls: seq<Call>, ip: Ip, t1: real, t2: real)
    requires c.Enabled() && calls != []
    ensures var k := |calls| - 1;
            Hit(c, t0, calls, ip, t1, t2, k) <==>
            calls[k].ip == ip && t1 <= calls[k].now <= t2 && Admits(c, Start(t0), calls)
  {
    assert calls[..|calls|] == calls;
  }

  /** No admitted call of ip is stamped strictly between p and q. */
  ghost predicate Gap(c: Config, t0: real, calls: seq<Call>, ip: Ip, p: real, q: real)
    requires c.Enabled()
  {
    forall n :: 0 <= n < |calls| && AdmittedAt(c, Start(t0), calls, ip, n) ==> calls[n].now <= p || q <= calls[n].now
  }

  lemma GapPrefix(c: Config, t0: real, calls: seq<Call>, ip: Ip, p: real, q: real)
    requires c.Enabled() && calls != [] && Gap(c, t0, calls, ip, p, q)
    ensures Gap(c, t0, calls[..|calls| - 1], ip, p, q)
  {
    var k := |calls| - 1;
    forall n | 0 <= n < k && AdmittedAt(c, Start(t0), calls[..k], ip, n)
      ensures calls[..k][n].now <= p || q <= calls[..k][n].now
    {
      LifeOfPrefix(c, t0, calls, ip, n, k);
    }
  }

  lemma {:induction false} CutAtGap(c: Config, t0: real, calls: seq<Call>, ip: Ip, t1: real, p: real, q: real, t2: real)
    requires c.Enabled() && t1 <= p < q <= t2 && Gap(c, t0, calls, ip, p, q)
    ensures Admitted(c, Start(t0), calls, ip, t1, t2) ==
            Admitted(c, Start(t0), calls, ip, t1, p) + Admitted(c, Start(t0), calls, ip, q, t2)
  {
    if calls != [] {
      GapPrefix(c, t0, calls, ip, p, q);
      CutAtGap(c, t0, calls[..|calls| - 1], ip, t1, p, q, t2);
      HitLast(c, t0, calls, ip, t1, t2);
    }
  }

  /** Fewer admissions in a smaller interval that misses one of them. */
  lemma {:induction false} FewerAdmitted(c: Config, t0: real, calls: seq<Call>, ip: Ip, t1: real, t2: real,
                                         u1: real, u2: real)
    requires c.Enabled() && t1 <= u1 && u2 <= t2
    ensures Admitted(c, Start(t0), calls, ip, u1, u2) <= Admitted(c, Start(t0), calls, ip, t1, t2)
  {
    if calls != [] {
      FewerAdmitted(c, t0, calls[..|calls| - 1], ip, t1, t2, u1, u2);
    }
  }

  lemma {:induction false} OneFewer(c: Config, t0: real, calls: seq<Call>, ip: Ip, t1: real, t2: real,
                                    u1: real, u2: real, n: nat)
    requires c.Enabled() && t1 <= u1 && u2 <= t2 && n < |calls|
    requires Hit(c, t0, calls, ip, t1, t2, n) && !Hit(c, t0, calls, ip, u1, u2, n)
    ensures Admitted(c, Start(t0), calls, ip, u1, u2) < Admitted(c, Start(t0), calls, ip, t1, t2)
  {
    var k := |calls| - 1;
    if n < k {
      HitPrefix(c, t0, calls, ip, t1, t2, n);
      HitPrefix(c, t0, calls, ip, u1, u2, n);
      OneFewer(c, t0, calls[..k], ip, t1, t2, u1, u2, n);
    } else {
      HitLast(c, t0, calls, ip, t1, t2);
      HitLast(c, t0, calls, ip, u1, u2);
      FewerAdmitted(c, t0, calls[..k], ip, t1, t2, u1, u2);
    }
  }

  lemma {:induction false} HitCounts(c: Config, t0: real, calls: seq<Call>, ip: Ip, t1: real, t2: real, n: nat)
    requires c.Enabled() && n < |calls| && Hit(c, t0, calls, ip, t1, t2, n)
    ensures Admitted(c, Start(t0), calls, ip, t1, t2) >= 1
  {
    var k := |calls| - 1;
    if n < k {
      HitPrefix(c, t0, calls, ip, t1, t2, n);
      HitCounts(c, t0, calls[..k], ip, t1, t2, n);
    } else {
      HitLast(c, t0, calls, ip, t1, t2);
    }
  }

  /** Two admitted calls of different lives, with p stamped before q. */
  predicate Split(c: Config, t0: real, calls: seq<Call>, ip: Ip, p: nat, q: nat)
    requires c.Enabled()
  {
    && p < |calls| && q < |calls| && calls[p].now < calls[q].now
    && AdmittedAt(c, Start(t0), calls, ip, p) && AdmittedAt(c, Start(t0), calls, ip, q)
    && LifeOf(c, t0, calls, ip, p) != LifeOf(c, t0, calls, ip, q)
  }

  /** Between two admitted calls of different lives there are two that are neighbours by stamp. */
  lemma {:induction false} FindGap(c: Config, t0: real, calls: seq<Call>, ip: Ip, p: nat, q: nat)
    returns (p': nat, q': nat)
    requires c.Enabled() && Split(c, t0, calls, ip, p, q)
    ensures Split(c, t0, calls, ip, p', q') && Gap(c, t0, calls, ip, calls[p'].now, calls[q'].now)
    ensures calls[p].now <= calls[p'].now && calls[q'].now <= calls[q].now
    decreases Admitted(c, Start(t0), calls, ip, calls[p].now, calls[q].now)
  {
    if r :| 0 <= r < |calls| && AdmittedAt(c, Start(t0), calls, ip, r) && calls[p].now < calls[r].now < calls[q].now {
      if LifeOf(c, t0, calls, ip, r) != LifeOf(c, t0, calls, ip, p) {
        OneFewer(c, t0, calls, ip, calls[p].now, calls[q].now, calls[p].now, calls[r].now, q);
        p', q' := FindGap(c, t0, calls, ip, p, r);
      } else {
        OneFewer(c, t0, calls, ip, calls[p].now, calls[q].now, calls[r].now, calls[q].now, p);
        p', q' := FindGap(c, t0, calls, ip, r, q);
      }
    } else {
      p', q' := p, q;
    }
  }

  /** All admitted calls of ip in [t1, t2] draw on one life. */
  ghost predicate OneLife(c: Config, t0: real, calls: seq<Call>, ip: Ip, life: nat, t1: real, t2: real)
    requires c.Enabled()
  {
    forall n :: 0 <= n < |calls| && Hit(c, t0, calls, ip, t1, t2, n) ==> LifeOf(c, t0, calls, ip, n) == life
  }

  lemma {:induction false} OneLifeCounts(c: Config, t0: real, calls: seq<Call>, ip: Ip, life: nat, t1: real, t2: real)
    requires c.Enabled() && OneLife(c, t0, calls, ip, life, t1, t2)
    ensures Admitted(c, Start(t0), calls, ip, t1, t2) == AdmittedIn(c, t0, calls, ip, life, t1, t2)
  {
    if calls != [] {
      var k := |calls| - 1;
      forall n | 0 <= n < k && Hit(c, t0, calls[..k], ip, t1, t2, n)
        ensures LifeOf(c, t0, calls[..k], ip, n) == life
      {
        HitPrefix(c, t0, calls, ip, t1, t2, n);
        LifeOfPrefix(c, t0, calls, ip, n, k);
      }
      OneLifeCounts(c, t0, calls[..k], ip, life, t1, t2);
      HitLast(c, t0, calls, ip, t1, t2);
      assert calls[..k + 1] == calls;
    }
  }

  /** Two bounded parts a window apart make a bounded whole. */
  lemma BoundsAdd(c: Config, n1: nat, n2: nat, t1: real, p: real, q: real, t2: real)
    requires c.Enabled() && q - p >= c.window && WithinGain(c, n1, t1, p) && WithinGain(c, n2, q, t2)
    ensures WithinGain(c, n1 + n2, t1, t2)
  {
    GainAdds(c, p - t1, t2 - q);
    GainAdds(c, p - t1 + (t2 - q), q - p);
    GainGrows(c, c.window, q - p);
    GainOfWindow(c);
  }

  lemma {:induction false} GainBound(c: Config, t0: real, calls: seq<Call>, ip: Ip, t1: real, t2: real)
    requires c.Enabled() && t1 <= t2 && !Leaky(c, t0, Stamps(calls))
    ensures WithinGain(c, Admitted(c, Start(t0), calls, ip, t1, t2), t1, t2)
    decreases Admitted(c, Start(t0), calls, ip, t1, t2)
  {
    if m :| 0 <= m < |calls| && Hit(c, t0, calls, ip, t1, t2, m) {
      var life := LifeOf(c, t0, calls, ip, m);
      if n :| 0 <= n < |calls| && Hit(c, t0, calls, ip, t1, t2, n) && LifeOf(c, t0, calls, ip, n) != life {
        CutBound(c, t0, calls, ip, t1, t2, m, n);
      } else {
        OneLifeCounts(c, t0, calls, ip, life, t1, t2);
        LifeBound(c, t0, calls, ip, life, t1, t2);
      }
    } else {
      OneLifeCounts(c, t0, calls, ip, 0, t1, t2);
      LifeBound(c, t0, calls, ip, 0, t1, t2);
    }
  }

  lemma Distinct(c: Config, t0: real, calls: seq<Call>, ip: Ip, m: nat, n: nat)
    requires c.Enabled() && m < |calls| && n < |calls| && calls[m].ip == ip && calls[n].ip == ip
    requires LifeOf(c, t0, calls, ip, m) != LifeOf(c, t0, calls, ip, n) && !Leaky(c, t0, Stamps(calls))
    ensures calls[n].now - calls[m].now >= c.window || calls[m].now - calls[n].now >= c.window
  {
    if m < n {
      LivesApart(c, t0, calls, ip, m, n);
    } else {
      LivesApart(c, t0, calls, ip, n, m);
    }
  }

  lemma {:induction false} CutBound(c: Config, t0: real, calls: seq<Call>, ip: Ip, t1: real, t2: real, m: nat, n: nat)
    requires c.Enabled() && t1 <= t2 && !Leaky(c, t0, Stamps(calls))
    requires m < |calls| && n < |calls| && Hit(c, t0, calls, ip, t1, t2, m) && Hit(c, t0, calls, ip, t1, t2, n)
    requires LifeOf(c, t0, calls, ip, m) != LifeOf(c, t0, calls, ip, n)
    ensures WithinGain(c, Admitted(c, Start(t0), calls, ip, t1, t2), t1, t2)
    decreases Admitted(c, Start(t0), calls, ip, t1, t2), 0
  {
    Distinct(c, t0, calls, ip, m, n);
    var p, q;
    if calls[m].now < calls[n].now {
      p, q := FindGap(c, t0, calls, ip, m, n);
    } else {
      p, q := FindGap(c, t0, calls, ip, n, m);
    }
    var u, v := calls[p].now, calls[q].now;
    Distinct(c, t0, calls, ip, p, q);
    CutAtGap(c, t0, calls, ip, t1, u, v, t2);
    HitCounts(c, t0, calls, ip, t1, u, p);
    HitCounts(c, t0, calls, ip, v, t2, q);
    GainBound(c, t0, calls, ip, t1, u);
    GainBound(c, t0, calls, ip, v, t2);
    BoundsAdd(c, Admitted(c, Start(t0), calls, ip, t1, u), Admitted(c, Start(t0), calls, ip, v, t2), t1, u, v, t2);
  }

  /**
   * The bound for stamps in any order that do not leak: cut [t1, t2] where
   * lives change; the parts are a window apart, and each is within its bound.
   */
  lemma {:induction false} RateBound(c: Config, t0: real, calls: seq<Call>, ip: Ip, t1: real, t2: real)
    requires c.Enabled() && t1 <= t2 && !Leaky(c, t0, Stamps(calls))
    ensures WithinBound(c, Admitted(c, Start(t0), calls, ip, t1, t2), t1, t2)
  {
    GainBound(c, t0, calls, ip, t1, t2);
    BoundIsGain(c, Admitted(c, Start(t0), calls, ip, t1, t2), t1, t2);
  }

  /** Stamps in order never leak. */
  lemma OrderedDoesNotLeak(c: Config, t0: real, calls: seq<Call>)
    requires Ordered(calls)
    ensures !Leaky(c, t0, Stamps(calls))
  {
  }

  /** Neither do stamps among which no sweep is due. */
  lemma UnsweptDoesNotLeak(c: Config, t0: real, ts: seq<real>)
    requires forall j :: 0 <= j < |ts| ==> !Due(c, t0, ts, j)
    ensures !Leaky(c, t0, ts)
  {
  }

  // ---------- repeating stamps ----------

  /** calls plays the stamps ts in order, each at least once; at says which stamp each call has. */
  ghost predicate Plays(calls: seq<Call>, ts: seq<real>, at: seq<nat>) {
    && |at| == |calls|
    && (forall n :: 0 <= n < |at| ==> at[n] < |ts| && calls[n].now == ts[at[n]])
    && (forall n :: 0 < n < |at| ==> at[n] == at[n - 1] || at[n] == at[n - 1] + 1)
    && (if ts == [] then at == [] else at != [] && at[0] == 0 && at[|at| - 1] == |ts| - 1)
  }

  lemma {:induction false} MarksGrow(at: seq<nat>, m: nat, n: nat)
    requires m <= n < |at| && forall i :: 0 < i < |at| ==> at[i] == at[i - 1] || at[i] == at[i - 1] + 1
    ensures at[m] <= at[n]
    decreases n
  {
    if m < n {
      MarksGrow(at, m, n - 1);
    }
  }

  lemma SweepAgain(c: Config, t0: real, ts: seq<real>)
    requires c.Enabled() && ts != []
    ensures LastSweep(c, t0, ts + [ts[|ts| - 1]]) == LastSweep(c, t0, ts)
  {
    assert (ts + [ts[|ts| - 1]])[..|ts|] == ts;
  }

  lemma {:induction false} SweepsOfPlay(c: Config, t0: real, calls: seq<Call>, ts: seq<real>, at: seq<nat>, n: nat)
    requires c.Enabled() && Plays(calls, ts, at) && n < |calls|
    ensures LastSweep(c, t0, Stamps(calls)[..n + 1]) == LastSweep(c, t0, ts[..at[n] + 1])
  {
    var us := Stamps(calls);
    assert us[..n + 1] == us[..n] + [ts[at[n]]];
    if n == 0 {
      assert us[..1] == ts[..1];
    } else {
      SweepsOfPlay(c, t0, calls, ts, at, n - 1);
      if at[n] == at[n - 1] {
        var vs := ts[..at[n] + 1];
        assert vs[|vs| - 1] == us[..n][|us[..n]| - 1];
        SweepAgain(c, t0, us[..n]);
      } else {
        assert us[..n + 1][..n] == us[..n];
        assert ts[..at[n] + 1][..at[n]] == ts[..at[n - 1] + 1];
      }
    }
  }

  /** The stamp just played is not due again. */
  lemma JustPlayed(c: Config, t0: real, ts: seq<real>)
    requires c.Enabled() && ts != []
    ensures ts[|ts| - 1] - LastSweep(c, t0, ts) < c.window
  {
  }

  lemma DueOfPlay(c: Config, t0: real, calls: seq<Call>, ts: seq<real>, at: seq<nat>, j: nat)
    requires c.Enabled() && Plays(calls, ts, at) && j < |calls| && Due(c, t0, Stamps(calls), j)
    ensures Due(c, t0, ts, at[j])
  {
    var us := Stamps(calls);
    if j == 0 {
      assert us[..0] == [] && ts[..0] == [];
    } else {
      JustPlayed(c, t0, us[..j]);
      assert us[..j][j - 1] == ts[at[j - 1]] && us[j] == ts[at[j]];
      assert at[j] != at[j - 1];
      SweepsOfPlay(c, t0, calls, ts, at, j - 1);
      assert ts[..at[j - 1] + 1] == ts[..at[j]];
    }
  }

  /** Repeating stamps makes no new leak. */
  lemma PlayDoesNotLeak(c: Config, t0: real, calls: seq<Call>, ts: seq<real>, at: seq<nat>)
    requires c.Enabled() && Plays(calls, ts, at) && !Leaky(c, t0, ts)
    ensures !Leaky(c, t0, Stamps(calls))
  {
    forall i: nat, l: nat, j: nat, k: nat | i <= l < j <= k < |calls|
      ensures !Leak(c, t0, Stamps(calls), i, l, j, k)
    {
      if Leak(c, t0, Stamps(calls), i, l, j, k) {
        MarksGrow(at, i, l);
        MarksGrow(at, l, j);
        MarksGrow(at, j, k);
        DueOfPlay(c, t0, calls, ts, at, j);
        assert Leak(c, t0, ts, at[i], at[l], at[j], at[k]);
      }
    }
  }

  // ---------- a leak breaks the bound ----------

  lemma {:induction false} AfterAppend(c: Config, s: State, xs: seq<Call>, ys: seq<Call>)
    requires c.Enabled()
    ensures After(c, s, xs + ys) == After(c, After(c, s, xs), ys)
  {
    if ys == [] {
      assert xs + ys == xs;
    } else {
      LastOfSum(xs, ys);
      AfterAppend(c, s, xs, ys[..|ys| - 1]);
    }
  }

  lemma {:induction false} AdmittedAppend(c: Config, s: State, xs: seq<Call>, ys: seq<Call>, ip: Ip, t1: real, t2: real)
    requires c.Enabled()
    ensures Admitted(c, s, xs + ys, ip, t1, t2) ==
            Admitted(c, s, xs, ip, t1, t2) + Admitted(c, After(c, s, xs), ys, ip, t1, t2)
  {
    if ys == [] {
      assert xs + ys == xs;
    } else {
      LastOfSum(xs, ys);
      AdmittedAppend(c, s, xs, ys[..|ys| - 1], ip, t1, t2);
      AfterAppend(c, s, xs, ys[..|ys| - 1]);
    }
  }

  function Burst(ip: Ip, t: real, m: nat): seq<Call> {
    if m == 0 then [] else Burst(ip, t, m - 1) + [Call(ip, t)]
  }

  /** What m calls at time t have drawn from a full bucket. */
  predicate Drawn(c: Config, s: State, ip: Ip, t: real, m: nat) {
    ip in s.buckets && s.buckets[ip] == Level(c.max as real - m as real, t) && t - s.lastGC < c.window
  }

  lemma FirstDraw(c: Config, s: State, ip: Ip, t: real)
    requires c.Enabled() && ip !in Collect(c, s, t).buckets
    ensures Decide(c, s, ip, t).1 && Drawn(c, Decide(c, s, ip, t).0, ip, t, 1)
  {
    NewBucketIsFull(c, t);
  }

  lemma NextDraw(c: Config, s: State, ip: Ip, t: real, m: nat)
    requires c.Enabled() && Drawn(c, s, ip, t, m) && m < c.max
    ensures Decide(c, s, ip, t).1 && Drawn(c, Decide(c, s, ip, t).0, ip, t, m + 1)
  {
    GainOfWindow(c);
  }

  /** One call more. */
  lemma OneMoreCall(c: Config, s: State, xs: seq<Call>, ip: Ip, t: real, t1: real, t2: real)
    requires c.Enabled() && t1 <= t <= t2
    ensures var ys := xs + [Call(ip, t)]; var r := Decide(c, After(c, s, xs), ip, t);
            && After(c, s, ys) == r.0
            && (r.1 ==> Admitted(c, s, ys, ip, t1, t2) == Admitted(c, s, xs, ip, t1, t2) + 1)
  {
    var ys := xs + [Call(ip, t)];
    assert ys[..|ys| - 1] == xs;
  }

  /** m calls at time t, all admitted. */
  predicate Draws(c: Config, s: State, ip: Ip, t: real, xs: seq<Call>, m: nat, t1: real, t2: real)
    requires c.Enabled()
  {
    Admitted(c, s, xs, ip, t1, t2) == m && Drawn(c, After(c, s, xs), ip, t, m)
  }

  lemma FirstDraws(c: Config, s: State, ip: Ip, t: real, t1: real, t2: real)
    requires c.Enabled() && ip !in Collect(c, s, t).buckets && t1 <= t <= t2
    ensures Draws(c, s, ip, t, [Call(ip, t)], 1, t1, t2)
  {
    FirstDraw(c, s, ip, t);
    OneMoreCall(c, s, [], ip, t, t1, t2);
    assert [] + [Call(ip, t)] == [Call(ip, t)];
  }

  lemma NextDraws(c: Config, s: State, ip: Ip, t: real, xs: seq<Call>, m: nat, t1: real, t2: real)
    requires c.Enabled() && Draws(c, s, ip, t, xs, m, t1, t2) && m < c.max && t1 <= t <= t2
    ensures Draws(c, s, ip, t, xs + [Call(ip, t)], m + 1, t1, t2)
  {
    NextDraw(c, After(c, s, xs), ip, t, m);
    OneMoreCall(c, s, xs, ip, t, t1, t2);
  }

  /** m calls at one time draw m tokens from a fresh bucket. */
  lemma {:induction false} BurstDraws(c: Config, s: State, ip: Ip, t: real, m: nat, t1: real, t2: real)
    requires c.Enabled() && 1 <= m <= c.max && ip !in Collect(c, s, t).buckets && t1 <= t <= t2
    ensures Draws(c, s, ip, t, Burst(ip, t, m), m, t1, t2)
  {
    if m == 1 {
      FirstDraws(c, s, ip, t, t1, t2);
      assert Burst(ip, t, 1) == [Call(ip, t)];
    } else {
      BurstDraws(c, s, ip, t, m - 1, t1, t2);
      NextDraws(c, s, ip, t, Burst(ip, t, m - 1), m - 1, t1, t2);
    }
  }

  // ---------- the script of the two bursts ----------

  /** The calls made at stamp n: bursts of "a" at i and k, one call of "a" at l, and another address elsewhere. */
  function Block(c: Config, ts: seq<real>, i: nat, l: nat, k: nat, n: nat): seq<Call>
    requires n < |ts|
  {
    if n == i || n == k then Burst("a", ts[n], c.max)
    else [Call(if n == l then "a" else "b", ts[n])]
  }

  function Script(c: Config, ts: seq<real>, i: nat, l: nat, k: nat, n: nat): seq<Call>
    requires n <= |ts|
  {
    if n == 0 then [] else Script(c, ts, i, l, k, n - 1) + Block(c, ts, i, l, k, n - 1)
  }

  function Marks(c: Config, ts: seq<real>, i: nat, l: nat, k: nat, n: nat): seq<nat>
    requires n <= |ts|
  {
    if n == 0 then []
    else Marks(c, ts, i, l, k, n - 1) + seq(|Block(c, ts, i, l, k, n - 1)|, _ => n - 1)
  }

  lemma {:induction false} BurstShape(ip: Ip, t: real, m: nat)
    ensures |Burst(ip, t, m)| == m && forall x :: 0 <= x < m ==> Burst(ip, t, m)[x] == Call(ip, t)
  {
    if m > 0 {
      BurstShape(ip, t, m - 1);
    }
  }

  lemma BlockShape(c: Config, ts: seq<real>, i: nat, l: nat, k: nat, n: nat)
    requires c.Enabled() && n < |ts|
    ensures var b := Block(c, ts, i, l, k, n); b != [] && forall x :: 0 <= x < |b| ==> b[x].now == ts[n]
  {
    BurstShape("a", ts[n], c.max);
  }

  lemma PlayOn(xs: seq<Call>, ys: seq<Call>, ts: seq<real>, at: seq<nat>, n: nat)
    requires n < |ts| && Plays(xs, ts[..n], at) && ys != [] && forall x :: 0 <= x < |ys| ==> ys[x].now == ts[n]
    ensures Plays(xs + ys, ts[..n + 1], at + seq(|ys|, _ => n))
  {
  }

  lemma {:induction false} ScriptPlays(c: Config, ts: seq<real>, i: nat, l: nat, k: nat, n: nat)
    requires c.Enabled() && n <= |ts|
    ensures Plays(Script(c, ts, i, l, k, n), ts[..n], Marks(c, ts, i, l, k, n))
  {
    if n > 0 {
      ScriptPlays(c, ts, i, l, k, n - 1);
      BlockShape(c, ts, i, l, k, n - 1);
      PlayOn(Script(c, ts, i, l, k, n - 1), Block(c, ts, i, l, k, n - 1), ts, Marks(c, ts, i, l, k, n - 1), n - 1);
    }
  }

  lemma {:induction false} SweepsOfScript(c: Config, t0: real, ts: seq<real>, i: nat, l: nat, k: nat, n: nat)
    requires c.Enabled() && n <= |ts|
    ensures After(c, Start(t0), Script(c, ts, i, l, k, n)).lastGC == LastSweep(c, t0, ts[..n])
  {
    var calls := Script(c, ts, i, l, k, n);
    var at := Marks(c, ts, i, l, k, n);
    ScriptPlays(c, ts, i, l, k, n);
    SweepsFollowStamps(c, t0, calls);
    if n > 0 {
      SweepsOfPlay(c, t0, calls, ts[..n], at, |calls| - 1);
      assert Stamps(calls)[..|calls|] == Stamps(calls);
      assert ts[..n][..n] == ts[..n];
    }
  }

  /** What a call of another address does to the bucket of "a". */
  lemma OtherCall(c: Config, s: State, t: real)
    requires c.Enabled()
    ensures var s' := After(c, s, [Call("b", t)]);
            && ("a" in s'.buckets <==> "a" in Collect(c, s, t).buckets)
            && ("a" in s'.buckets ==> "a" in s.buckets && s'.buckets["a"] == s.buckets["a"])
  {
    assert [Call("b", t)][..0] == [];
  }

  lemma OwnCall(c: Config, s: State, t: real)
    requires c.Enabled()
    ensures var s' := After(c, s, [Call("a", t)]); "a" in s'.buckets && s'.buckets["a"].last == t
  {
    assert [Call("a", t)][..0] == [];
  }

  /** Where the bucket of "a" stands before stamp n of the script. */
  ghost predicate BucketAt(s: State, ts: seq<real>, i: nat, l: nat, j: nat, n: nat)
    requires l < |ts|
  {
    && (n <= i ==> "a" !in s.buckets)
    && (l < n <= j && "a" in s.buckets ==> s.buckets["a"].last == ts[l])
    && (j < n ==> "a" !in s.buckets)
  }

  lemma BucketAfterBlock(c: Config, t0: real, s: State, ts: seq<real>, i: nat, l: nat, j: nat, k: nat, n: nat)
    requires c.Enabled() && i <= l < j <= k < |ts| && Leak(c, t0, ts, i, l, j, k) && n < k
    requires BucketAt(s, ts, i, l, j, n) && s.lastGC == LastSweep(c, t0, ts[..n])
    ensures BucketAt(After(c, s, Block(c, ts, i, l, k, n)), ts, i, l, j, n + 1)
  {
    if n == i {
      BurstDraws(c, s, "a", ts[n], c.max, ts[n], ts[n]);
    } else if n == l {
      OwnCall(c, s, ts[n]);
    } else {
      OtherCall(c, s, ts[n]);
    }
  }

  lemma {:induction false} BucketOfScript(c: Config, t0: real, ts: seq<real>, i: nat, l: nat, j: nat, k: nat, n: nat)
    requires c.Enabled() && i <= l < j <= k < |ts| && Leak(c, t0, ts, i, l, j, k) && n <= k
    ensures BucketAt(After(c, Start(t0), Script(c, ts, i, l, k, n)), ts, i, l, j, n)
  {
    if n > 0 {
      var m := n - 1;
      var xs := Script(c, ts, i, l, k, m);
      BucketOfScript(c, t0, ts, i, l, j, k, m);
      SweepsOfScript(c, t0, ts, i, l, k, m);
      AfterAppend(c, Start(t0), xs, Block(c, ts, i, l, k, m));
      BucketAfterBlock(c, t0, After(c, Start(t0), xs), ts, i, l, j, k, m);
    }
  }

  /** At stamp k the bucket of "a" is gone. */
  lemma GoneAtLast(c: Config, t0: real, ts: seq<real>, i: nat, l: nat, j: nat, k: nat)
    requires c.Enabled() && i <= l < j <= k < |ts| && Leak(c, t0, ts, i, l, j, k)
    ensures "a" !in Collect(c, After(c, Start(t0), Script(c, ts, i, l, k, k)), ts[k]).buckets
  {
    BucketOfScript(c, t0, ts, i, l, j, k, k);
    SweepsOfScript(c, t0, ts, i, l, k, k);
  }

  lemma BurstsAdmitted(c: Config, t0: real, ts: seq<real>, i: nat, l: nat, j: nat, k: nat, n: nat, lo: real, hi: real)
    requires c.Enabled() && i <= l < j <= k < |ts| && Leak(c, t0, ts, i, l, j, k) && (n == i || n == k)
    requires lo <= ts[n] <= hi
    ensures Admitted(c, After(c, Start(t0), Script(c, ts, i, l, k, n)), Block(c, ts, i, l, k, n), "a", lo, hi) == c.max
  {
    if n == i {
      BucketOfScript(c, t0, ts, i, l, j, k, n);
    } else {
      GoneAtLast(c, t0, ts, i, l, j, k);
    }
    BurstDraws(c, After(c, Start(t0), Script(c, ts, i, l, k, n)), "a", ts[n], c.max, lo, hi);
  }

  /** A longer script extends a shorter one. */
  lemma {:induction false} ScriptExtends(c: Config, ts: seq<real>, i: nat, l: nat, k: nat, m: nat, n: nat)
    returns (rest: seq<Call>)
    requires m <= n <= |ts|
    ensures Script(c, ts, i, l, k, n) == Script(c, ts, i, l, k, m) + rest
    decreases n
  {
    if m == n {
      rest := [];
    } else {
      rest := ScriptExtends(c, ts, i, l, k, m, n - 1);
      rest := rest + Block(c, ts, i, l, k, n - 1);
    }
  }

  /** At least n calls of "a" are admitted. */
  predicate AtLeast(c: Config, t0: real, calls: seq<Call>, lo: real, hi: real, n: nat)
    requires c.Enabled()
  {
    Admitted(c, Start(t0), calls, "a", lo, hi) >= n
  }

  lemma BlockInside(c: Config, ts: seq<real>, i: nat, l: nat, k: nat, n: nat, m: nat) returns (rest: seq<Call>)
    requires n < m <= |ts|
    ensures Script(c, ts, i, l, k, m) == Script(c, ts, i, l, k, n) + Block(c, ts, i, l, k, n) + rest
  {
    rest := ScriptExtends(c, ts, i, l, k, n + 1, m);
  }

  /** What a part adds stays to the end. */
  lemma PartStays(c: Config, t0: real, xs: seq<Call>, ys: seq<Call>, zs: seq<Call>, lo: real, hi: real,
                  got: nat, more: nat)
    requires c.Enabled() && AtLeast(c, t0, xs, lo, hi, got)
    requires Admitted(c, After(c, Start(t0), xs), ys, "a", lo, hi) >= more
    ensures AtLeast(c, t0, xs + ys + zs, lo, hi, got + more)
  {
    AdmittedAppend(c, Start(t0), xs, ys, "a", lo, hi);
    AdmittedAppend(c, Start(t0), xs + ys, zs, "a", lo, hi);
  }

  lemma BlockStays(c: Config, t0: real, ts: seq<real>, i: nat, l: nat, k: nat, n: nat, m: nat,
                   lo: real, hi: real, got: nat)
    requires c.Enabled() && n < m <= |ts| && AtLeast(c, t0, Script(c, ts, i, l, k, n), lo, hi, got)
    requires Admitted(c, After(c, Start(t0), Script(c, ts, i, l, k, n)), Block(c, ts, i, l, k, n), "a", lo, hi) >= c.max
    ensures AtLeast(c, t0, Script(c, ts, i, l, k, m), lo, hi, got + c.max)
  {
    var rest := BlockInside(c, ts, i, l, k, n, m);
    PartStays(c, t0, Script(c, ts, i, l, k, n), Block(c, ts, i, l, k, n), rest, lo, hi, got, c.max);
  }

  lemma TwiceIsTooMany(c: Config, n: nat, t1: real, t2: real)
    requires c.Enabled() && n >= 2 * c.max && t2 - t1 < c.window
    ensures !WithinBound(c, n, t1, t2)
  {
    GainBelowMax(c, t2 - t1);
    BoundIsGain(c, n, t1, t2);
  }

  lemma GainBelowMax(c: Config, e: real)
    requires c.Enabled() && e < c.window
    ensures Gain(c, e) < c.max as real
  {
    assert e / c.window < 1.0;
  }

  lemma WholeScriptPlays(c: Config, ts: seq<real>, i: nat, l: nat, k: nat)
    requires c.Enabled()
    ensures Plays(Script(c, ts, i, l, k, |ts|), ts, Marks(c, ts, i, l, k, |ts|))
  {
    ScriptPlays(c, ts, i, l, k, |ts|);
    assert ts[..|ts|] == ts;
  }

  /** Calls that play ts and break the bound for "a". */
  lemma LeakBreaksBound(c: Config, t0: real, ts: seq<real>, i: nat, l: nat, j: nat, k: nat)
    returns (calls: seq<Call>, at: seq<nat>, t1: real, t2: real)
    requires c.Enabled() && i <= l < j <= k < |ts| && Leak(c, t0, ts, i, l, j, k)
    ensures Plays(calls, ts, at) && t1 <= t2 && !WithinBound(c, Admitted(c, Start(t0), calls, "a", t1, t2), t1, t2)
  {
    calls, at := Script(c, ts, i, l, k, |ts|), Marks(c, ts, i, l, k, |ts|);
    WholeScriptPlays(c, ts, i, l, k);
    t1 := if ts[i] <= ts[k] then ts[i] else ts[k];
    t2 := if ts[i] <= ts[k] then ts[k] else ts[i];
    BurstsAdmitted(c, t0, ts, i, l, j, k, i, t1, t2);
    BlockStays(c, t0, ts, i, l, k, i, k, t1, t2, 0);
    BurstsAdmitted(c, t0, ts, i, l, j, k, k, t1, t2);
    BlockStays(c, t0, ts, i, l, k, k, |ts|, t1, t2, c.max);
    TwiceIsTooMany(c, Admitted(c, Start(t0), calls, "a", t1, t2), t1, t2);
  }

  // ---------- exactly when the bound holds ----------

  /** Whoever calls at these stamps, however often each is repeated, the bound holds. */
  ghost predicate AlwaysBounded(c: Config, t0: real, ts: seq<real>)
    requires c.Enabled()
  {
    forall calls, at, ip, t1, t2 :: Plays(calls, ts, at) && t1 <= t2 ==>
      WithinBound(c, Admitted(c, Start(t0), calls, ip, t1, t2), t1, t2)
  }

  /**
   * The rate bound, exactly: for a sequence of stamps in any order it holds
   * for every assignment of addresses and every repetition of the stamps if
   * and only if no sweep can collect a bucket touched less than a window, by
   * stamp, from a call before and a call after it.
   */
  lemma RateBoundIff(c: Config, t0: real, ts: seq<real>)
    requires c.Enabled()
    ensures AlwaysBounded(c, t0, ts) <==> !Leaky(c, t0, ts)
  {
    if i: nat, l: nat, j: nat, k: nat :| i <= l < j <= k < |ts| && Leak(c, t0, ts, i, l, j, k) {
      var calls, at, t1, t2 := LeakBreaksBound(c, t0, ts, i, l, j, k);
      assert Plays(calls, ts, at) && !WithinBound(c, Admitted(c, Start(t0), calls, "a", t1, t2), t1, t2);
    } else {
      forall calls, at, ip, t1, t2 | Plays(calls, ts, at) && t1 <= t2
        ensures WithinBound(c, Admitted(c, Start(t0), calls, ip, t1, t2), t1, t2)
      {
        PlayDoesNotLeak(c, t0, calls, ts, at);
        RateBound(c, t0, calls, ip, t1, t2);
      }
    }
  }

  /**
   * An example of a late timestamp: one
   * address, limit 1 per 60 s, is admitted twice within [0, 1] because another
   * address's call at 60 collected its bucket in between.
   */
  lemma LateTimestampBreaksBound()
    ensures var c := Config(1, 60.0);
            var calls := [Call("a", 0.0), Call("b", 60.0), Call("a", 1.0)];
            && Admitted(c, Start(0.0), calls, "a", 0.0, 1.0) == 2
            && !WithinBound(c, 2, 0.0, 1.0)
  {
    var c := Config(1, 60.0);
    var one := [Call("a", 0.0)];
    var two := one + [Call("b", 60.0)];
    var calls := two + [Call("a", 1.0)];
    assert one[..|one| - 1] == [] && two[..|two| - 1] == one && calls[..|calls| - 1] == two;
    NewBucketIsFull(c, 0.0);
    NewBucketIsFull(c, 60.0);
    NewBucketIsFull(c, 1.0);
    var s1 := After(c, Start(0.0), one);
    assert s1 == Decide(c, Start(0.0), "a", 0.0).0;
    assert s1.buckets.Keys == {"a"} && s1.buckets["a"] == Level(0.0, 0.0) && s1.lastGC == 0.0;
    var s2 := After(c, Start(0.0), two);
    assert s2 == Decide(c, s1, "b", 60.0).0;
    assert s2.buckets.Keys == {"b"} && s2.lastGC == 60.0;
    assert Collect(c, s2, 1.0) == s2;
    assert Admits(c, Start(0.0), calls) && Admits(c, Start(0.0), one);
    assert Admitted(c, Start(0.0), one, "a", 0.0, 1.0) == 1;
    assert Admitted(c, Start(0.0), two, "a", 0.0, 1.0) == 1;
    assert calls == [Call("a", 0.0), Call("b", 60.0), Call("a", 1.0)];
  }
}
