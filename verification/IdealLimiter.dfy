/** When forgetting idle buckets cannot be noticed: comparison with a limiter that never forgets. */
module IdealLimiter {
  import opened NetAddr
  import opened RateLimit

  predicate IdealAllowed(cfg: Limits, m: Table, c: Call) {
    Refilled(cfg, m, c.addr, c.now).tokens >= 1.0
  }

  function IdealAfter(cfg: Limits, m: Table, c: Call): Table {
    m[c.addr := Taken(Refilled(cfg, m, c.addr, c.now))]
  }

  function IdealDecisions(cfg: Limits, m: Table, calls: seq<Call>): seq<bool>
    decreases |calls|
  {
    if calls == [] then []
    else [IdealAllowed(cfg, m, calls[0])] + IdealDecisions(cfg, IdealAfter(cfg, m, calls[0]), calls[1..])
  }

  /** Timestamps never go back, starting from t. */
  predicate Nondecreasing(calls: seq<Call>, t: real) {
    calls != [] ==> t <= calls[0].now && Nondecreasing(calls[1..], calls[0].now)
  }

  /** All calls come from these addresses. */
  predicate Among(calls: seq<Call>, addrs: set<Addr>) {
    forall i :: 0 <= i < |calls| ==> calls[i].addr in addrs
  }

  /** A run in which the clock is monotone from t and the table never has to evict. */
  ghost predicate Calm(cfg: Limits, calls: seq<Call>, t: real, addrs: set<Addr>) {
    Nondecreasing(calls, t) && Among(calls, addrs) && |addrs| <= cfg.maxEntries
  }

  /** Nobody can tell the limiter from one that never forgets a bucket. */
  ghost predicate Transparent(cfg: Limits) {
    forall calls, t, addrs :: Calm(cfg, calls, t, addrs) && LegalRun(cfg, map[], calls) ==>
      Decisions(cfg, map[], calls) == IdealDecisions(cfg, map[], calls)
  }

  /** The forgetful table is the ideal one minus buckets that have long been idle. */
  ghost predicate Tracks(cfg: Limits, m: Table, ideal: Table, t: real, addrs: set<Addr>) {
    && m.Keys <= ideal.Keys <= addrs
    && (forall a :: a in m ==> m[a] == ideal[a])
    && (forall a :: a in ideal ==> ideal[a].tokens >= 0.0 && ideal[a].lastRefill == ideal[a].lastSeen <= t)
    && (forall a :: a in ideal && a !in m ==> t - ideal[a].lastRefill >= cfg.idleTimeout)
  }

  lemma NoEviction(cfg: Limits, m: Table, ideal: Table, t: real, addrs: set<Addr>, c: Call)
    requires Tracks(cfg, m, ideal, t, addrs) && c.addr in addrs && |addrs| <= cfg.maxEntries
    ensures Cleared(cfg, m, c) == Unexpired(cfg, m, c.now)
  {
    var live := Unexpired(cfg, m, c.now);
    if c.addr !in live {
      assert live.Keys <= addrs - {c.addr};
      SubsetSize(live.Keys, addrs - {c.addr});
      assert |addrs - {c.addr}| == |addrs| - 1;
    }
  }

  /** An idle bucket has refilled by the time anyone could ask for it again. */
  lemma SameBucket(cfg: Limits, m: Table, ideal: Table, t: real, addrs: set<Addr>, c: Call)
    requires ValidLimits(cfg) && Earned(cfg, cfg.idleTimeout) >= cfg.burst as real
    requires Tracks(cfg, m, ideal, t, addrs) && t <= c.now
    ensures Refilled(cfg, Unexpired(cfg, m, c.now), c.addr, c.now) == Refilled(cfg, ideal, c.addr, c.now)
  {
    hide Earned;
    if c.addr in ideal && c.addr !in Unexpired(cfg, m, c.now) {
      var idle := c.now - ideal[c.addr].lastRefill;
      assert idle >= cfg.idleTimeout;
      EarnedMonotone(cfg, cfg.idleTimeout, idle);
    }
  }

  lemma TracksStep(cfg: Limits, m: Table, ideal: Table, t: real, addrs: set<Addr>, c: Call)
    requires ValidLimits(cfg) && Earned(cfg, cfg.idleTimeout) >= cfg.burst as real
    requires Tracks(cfg, m, ideal, t, addrs) && t <= c.now && c.addr in addrs && |addrs| <= cfg.maxEntries
    ensures Allowed(cfg, m, c) == IdealAllowed(cfg, ideal, c)
    ensures Tracks(cfg, After(cfg, m, c), IdealAfter(cfg, ideal, c), c.now, addrs)
  {
    hide Earned;
    NoEviction(cfg, m, ideal, t, addrs, c);
    SameBucket(cfg, m, ideal, t, addrs, c);
    var e := Refilled(cfg, ideal, c.addr, c.now);
    assert e.lastRefill == e.lastSeen == c.now;
    RefillNonNegative(cfg, ideal, c);
  }

  lemma RefillNonNegative(cfg: Limits, ideal: Table, c: Call)
    requires ValidLimits(cfg) && (c.addr in ideal ==> ideal[c.addr].tokens >= 0.0)
    ensures Refilled(cfg, ideal, c.addr, c.now).tokens >= 0.0
  {
    hide Earned;
    if c.addr in ideal && c.now - ideal[c.addr].lastRefill > 0.0 {
      EarnedMonotone(cfg, 0.0, c.now - ideal[c.addr].lastRefill);
    }
  }

  lemma {:induction false} TracksRun(cfg: Limits, m: Table, ideal: Table, t: real, addrs: set<Addr>, calls: seq<Call>)
    requires ValidLimits(cfg) && Earned(cfg, cfg.idleTimeout) >= cfg.burst as real
    requires Tracks(cfg, m, ideal, t, addrs) && Calm(cfg, calls, t, addrs)
    ensures Decisions(cfg, m, calls) == IdealDecisions(cfg, ideal, calls)
    decreases |calls|
  {
    hide Allowed, IdealAllowed, After, IdealAfter, Tracks, Earned;
    if calls != [] {
      assert calls[0].addr in addrs;
      TracksStep(cfg, m, ideal, t, addrs, calls[0]);
      assert forall i :: 0 <= i < |calls[1..]| ==> calls[1..][i] == calls[i + 1];
      TracksRun(cfg, After(cfg, m, calls[0]), IdealAfter(cfg, ideal, calls[0]), calls[0].now, addrs, calls[1..]);
    }
  }

  /** n calls of one address at one moment. */
  function Repeat(c: Call, n: nat): seq<Call> {
    if n == 0 then [] else [c] + Repeat(c, n - 1)
  }

  function AllTrue(n: nat): seq<bool> {
    seq(n, i => true)
  }

  lemma {:induction false} RepeatAt(c: Call, n: nat)
    ensures |Repeat(c, n)| == n
    ensures forall i :: 0 <= i < n ==> Repeat(c, n)[i] == c
  {
    if n > 0 {
      RepeatAt(c, n - 1);
    }
  }

  /** A table that holds one bucket, just seen at the moment of c. */
  ghost predicate Holds(m: Table, c: Call, tokens: real) {
    m == map[c.addr := Entry(tokens, c.now, c.now)]
  }

  /** While calls repeat at one moment, both limiters only count down. */
  lemma CountDown(cfg: Limits, m: Table, c: Call, tokens: real)
    requires ValidLimits(cfg) && Holds(m, c, tokens)
    ensures Allowed(cfg, m, c) == IdealAllowed(cfg, m, c) == (tokens >= 1.0)
    ensures LegalVictim(cfg, m, c)
    ensures After(cfg, m, c) == IdealAfter(cfg, m, c)
    ensures Holds(After(cfg, m, c), c, if tokens >= 1.0 then tokens - 1.0 else tokens)
  {
    assert Unexpired(cfg, m, c.now) == m;
    assert Cleared(cfg, m, c) == m;
    assert Refilled(cfg, m, c.addr, c.now) == m[c.addr];
  }

  /** With k whole tokens, k calls are admitted and leave the bucket empty. */
  lemma {:induction false} Drain(cfg: Limits, m: Table, c: Call, k: nat, rest: seq<Call>)
    requires ValidLimits(cfg) && Holds(m, c, k as real)
    ensures var empty := map[c.addr := Entry(0.0, c.now, c.now)];
      && Decisions(cfg, m, Repeat(c, k) + rest) == AllTrue(k) + Decisions(cfg, empty, rest)
      && IdealDecisions(cfg, m, Repeat(c, k) + rest) == AllTrue(k) + IdealDecisions(cfg, empty, rest)
      && (LegalRun(cfg, empty, rest) ==> LegalRun(cfg, m, Repeat(c, k) + rest))
    decreases k
  {
    hide Allowed, IdealAllowed, After, IdealAfter, LegalVictim;
    if k == 0 {
      assert Repeat(c, 0) + rest == rest;
    } else {
      var calls := Repeat(c, k) + rest;
      assert calls[0] == c && calls[1..] == Repeat(c, k - 1) + rest;
      CountDown(cfg, m, c, k as real);
      Drain(cfg, After(cfg, m, c), c, k - 1, rest);
      assert [true] + AllTrue(k - 1) == AllTrue(k);
    }
  }

  /** An ideal bucket that starts below k tokens cannot admit k calls at one moment. */
  lemma {:induction false} TooFew(cfg: Limits, m: Table, c: Call, tokens: real, k: nat)
    requires ValidLimits(cfg) && Holds(m, c, tokens) && 0.0 <= tokens < k as real
    ensures IdealDecisions(cfg, m, Repeat(c, k)) != AllTrue(k)
    decreases k
  {
    hide IdealAllowed, IdealAfter, Allowed, After;
    CountDown(cfg, m, c, tokens);
    if k >= 1 && tokens >= 1.0 {
      TooFew(cfg, IdealAfter(cfg, m, c), c, tokens - 1.0, k - 1);
      assert Repeat(c, k)[0] == c && Repeat(c, k)[1..] == Repeat(c, k - 1);
      assert IdealDecisions(cfg, m, Repeat(c, k))[1..] == IdealDecisions(cfg, IdealAfter(cfg, m, c), Repeat(c, k - 1));
      assert AllTrue(k)[1..] == AllTrue(k - 1);
    } else if k >= 1 {
      assert Repeat(c, k)[0] == c;
      assert !IdealDecisions(cfg, m, Repeat(c, k))[0] && AllTrue(k)[0];
    }
  }

  /** The first call of an address that is not remembered meets a full bucket. */
  lemma Fresh(cfg: Limits, m: Table, c: Call)
    requires ValidLimits(cfg) && Unexpired(cfg, m, c.now) == map[]
    ensures Allowed(cfg, m, c) && LegalVictim(cfg, m, c)
    ensures Holds(After(cfg, m, c), c, (cfg.burst - 1) as real)
  {
    assert Cleared(cfg, m, c) == map[];
  }

  /** Drained at 0, then asked again when the idle timeout has just passed. */
  function Probe(cfg: Limits, a: Addr): seq<Call>
    requires cfg.burst >= 1
  {
    Repeat(Call(a, 0.0, a), cfg.burst) + Repeat(Call(a, cfg.idleTimeout, a), cfg.burst)
  }

  lemma RepeatFirst(c: Call, n: nat, rest: seq<Call>)
    requires n >= 1
    ensures (Repeat(c, n) + rest)[0] == c && (Repeat(c, n) + rest)[1..] == Repeat(c, n - 1) + rest
  {
  }

  /** From a bucket that was drained and has been idle exactly as long as the timeout: the
      forgetful limiter admits a full burst, the ideal one cannot. */
  lemma SecondBurst(cfg: Limits, c: Call)
    requires ValidLimits(cfg) && Earned(cfg, cfg.idleTimeout) < cfg.burst as real
    requires c.now == cfg.idleTimeout
    ensures var m := map[c.addr := Entry(0.0, 0.0, 0.0)];
      && Decisions(cfg, m, Repeat(c, cfg.burst)) == AllTrue(cfg.burst)
      && IdealDecisions(cfg, m, Repeat(c, cfg.burst)) != AllTrue(cfg.burst)
      && LegalRun(cfg, m, Repeat(c, cfg.burst))
  {
    hide Earned, Decisions, IdealDecisions, LegalRun;
    var m := map[c.addr := Entry(0.0, 0.0, 0.0)];
    var n := cfg.burst;
    RepeatFirst(c, n, []);
    assert Repeat(c, n) + [] == Repeat(c, n);
    Fresh(cfg, m, c);
    RealSecond(cfg, m, c);
    IdealSecond(cfg, m, c);
  }

  lemma RealSecond(cfg: Limits, m: Table, c: Call)
    requires ValidLimits(cfg) && Unexpired(cfg, m, c.now) == map[]
    ensures Decisions(cfg, m, Repeat(c, cfg.burst)) == AllTrue(cfg.burst)
    ensures LegalRun(cfg, m, Repeat(c, cfg.burst))
  {
    hide Allowed, After, LegalVictim, Unexpired;
    var n := cfg.burst;
    Fresh(cfg, m, c);
    RepeatFirst(c, n, []);
    assert Repeat(c, n) + [] == Repeat(c, n);
    Drain(cfg, After(cfg, m, c), c, n - 1, []);
    assert [true] + (AllTrue(n - 1) + []) == AllTrue(n);
  }

  lemma IdealSecond(cfg: Limits, m: Table, c: Call)
    requires ValidLimits(cfg) && Earned(cfg, cfg.idleTimeout) < cfg.burst as real
    requires c.now == cfg.idleTimeout && m == map[c.addr := Entry(0.0, 0.0, 0.0)]
    ensures IdealDecisions(cfg, m, Repeat(c, cfg.burst)) != AllTrue(cfg.burst)
  {
    hide Earned;
    var n := cfg.burst;
    var tokens := Earned(cfg, cfg.idleTimeout);
    EarnedMonotone(cfg, 0.0, cfg.idleTimeout);
    RepeatFirst(c, n, []);
    assert Repeat(c, n) + [] == Repeat(c, n) && Repeat(c, n - 1) + [] == Repeat(c, n - 1);
    assert Refilled(cfg, m, c.addr, c.now) == Entry(tokens, c.now, c.now);
    var decisions := IdealDecisions(cfg, m, Repeat(c, n));
    if tokens >= 1.0 {
      assert Holds(IdealAfter(cfg, m, c), c, tokens - 1.0);
      TooFew(cfg, IdealAfter(cfg, m, c), c, tokens - 1.0, n - 1);
      assert decisions[1..] == IdealDecisions(cfg, IdealAfter(cfg, m, c), Repeat(c, n - 1));
      assert AllTrue(n)[1..] == AllTrue(n - 1);
    } else {
      assert !decisions[0] && AllTrue(n)[0];
    }
  }

  /** A short timeout shows: the probe is answered differently. */
  lemma ForgettingShows(cfg: Limits, a: Addr)
    requires ValidLimits(cfg) && Earned(cfg, cfg.idleTimeout) < cfg.burst as real
    ensures Calm(cfg, Probe(cfg, a), 0.0, {a}) && LegalRun(cfg, map[], Probe(cfg, a))
    ensures Decisions(cfg, map[], Probe(cfg, a)) != IdealDecisions(cfg, map[], Probe(cfg, a))
  {
    hide Earned, Allowed, After, LegalVictim, IdealAllowed, IdealAfter;
    var c, d, n := Call(a, 0.0, a), Call(a, cfg.idleTimeout, a), cfg.burst;
    var late := Repeat(d, n);
    ProbeIsCalm(cfg, a);
    RepeatFirst(c, n, late);
    FreshBoth(cfg, c);
    Drain(cfg, After(cfg, map[], c), c, n - 1, late);
    SecondBurst(cfg, d);
    var empty := map[a := Entry(0.0, 0.0, 0.0)];
    var head := [true] + AllTrue(n - 1);
    assert Decisions(cfg, map[], Probe(cfg, a)) == head + Decisions(cfg, empty, late);
    assert IdealDecisions(cfg, map[], Probe(cfg, a)) == head + IdealDecisions(cfg, empty, late);
    assert (head + Decisions(cfg, empty, late))[n..] == Decisions(cfg, empty, late);
    assert (head + IdealDecisions(cfg, empty, late))[n..] == IdealDecisions(cfg, empty, late);
  }

  lemma FreshBoth(cfg: Limits, c: Call)
    requires ValidLimits(cfg)
    ensures Allowed(cfg, map[], c) && IdealAllowed(cfg, map[], c) && LegalVictim(cfg, map[], c)
    ensures After(cfg, map[], c) == IdealAfter(cfg, map[], c)
    ensures Holds(After(cfg, map[], c), c, (cfg.burst - 1) as real)
  {
    assert Unexpired(cfg, map[], c.now) == map[];
    Fresh(cfg, map[], c);
  }

  lemma ProbeIsCalm(cfg: Limits, a: Addr)
    requires ValidLimits(cfg)
    ensures Calm(cfg, Probe(cfg, a), 0.0, {a})
  {
    var c, d, n := Call(a, 0.0, a), Call(a, cfg.idleTimeout, a), cfg.burst;
    RepeatAt(c, n);
    RepeatAt(d, n);
    Steady(d, n, [], cfg.idleTimeout);
    assert Repeat(d, n) + [] == Repeat(d, n);
    Steady(c, n, Repeat(d, n), 0.0);
  }

  lemma {:induction false} Steady(c: Call, n: nat, rest: seq<Call>, t: real)
    requires t <= c.now && Nondecreasing(rest, c.now)
    requires n == 0 ==> Nondecreasing(rest, t)
    ensures Nondecreasing(Repeat(c, n) + rest, t)
  {
    if n == 0 {
      assert Repeat(c, 0) + rest == rest;
    } else {
      RepeatFirst(c, n, rest);
      Steady(c, n - 1, rest, c.now);
    }
  }

  /** Idle expiry is unobservable exactly when the timeout is long enough to refill a bucket. */
  lemma TransparentIff(cfg: Limits)
    requires ValidLimits(cfg)
    ensures Transparent(cfg) <==> Earned(cfg, cfg.idleTimeout) >= cfg.burst as real
  {
    hide Earned, Decisions, IdealDecisions, LegalRun, Calm;
    if Earned(cfg, cfg.idleTimeout) >= cfg.burst as real {
      forall calls, t, addrs | Calm(cfg, calls, t, addrs) && LegalRun(cfg, map[], calls)
        ensures Decisions(cfg, map[], calls) == IdealDecisions(cfg, map[], calls)
      {
        TracksRun(cfg, map[], map[], t, addrs, calls);
      }
    } else {
      ForgettingShows(cfg, V4(1));
    }
  }
}
