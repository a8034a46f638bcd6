/** internal/ratelimit: a bounded table of per-address token buckets. Seconds and tokens are reals. */
module RateLimit {
  import opened NetAddr

  datatype Limits = Limits(enabled: bool, rate: real, burst: int, idleTimeout: real, maxEntries: int)

  /** What configuration validation demands of an enabled limiter. */
  predicate ValidLimits(cfg: Limits) {
    cfg.rate > 0.0 && cfg.burst >= 1 && cfg.idleTimeout > 0.0 && cfg.maxEntries >= 1
  }

  datatype Entry = Entry(tokens: real, lastRefill: real, lastSeen: real)

  type Table = map<Addr, Entry>

  function Expired(cfg: Limits, e: Entry, now: real): bool {
    now - e.lastSeen >= cfg.idleTimeout
  }

  /** deleteExpired. */
  function Unexpired(cfg: Limits, m: Table, now: real): Table {
    map a | a in m && !Expired(cfg, m[a], now) :: m[a]
  }

  predicate NeedsRoom(cfg: Limits, m: Table, addr: Addr) {
    addr !in m && |m| >= cfg.maxEntries
  }

  /** Some entry that was seen least recently. */
  predicate IsOldest(m: Table, victim: Addr) {
    victim in m && forall a :: a in m ==> m[victim].lastSeen <= m[a].lastSeen
  }

  /** The tokens a bucket gains in dt seconds. */
  function Earned(cfg: Limits, dt: real): real {
    dt * cfg.rate
  }

  /** The bucket of addr as it stands at now, before a token is taken. */
  function Refilled(cfg: Limits, m: Table, addr: Addr, now: real): Entry {
    var e := if addr in m then m[addr] else Entry(cfg.burst as real, now, now);
    var elapsed := now - e.lastRefill;
    if elapsed > 0.0 then Entry(Min(cfg.burst as real, e.tokens + Earned(cfg, elapsed)), now, now)
    else e.(lastSeen := now)
  }

  function Min(a: real, b: real): real { if a <= b then a else b }

  function Taken(e: Entry): Entry {
    if e.tokens < 1.0 then e else e.(tokens := e.tokens - 1.0)
  }

  datatype Call = Call(addr: Addr, now: real, victim: Addr)

  /** The table the bucket is looked up in: expired entries gone, and the victim if room is needed. */
  function Cleared(cfg: Limits, m: Table, c: Call): Table {
    var live := Unexpired(cfg, m, c.now);
    if NeedsRoom(cfg, live, c.addr) then live - {c.victim} else live
  }

  predicate Allowed(cfg: Limits, m: Table, c: Call) {
    Refilled(cfg, Cleared(cfg, m, c), c.addr, c.now).tokens >= 1.0
  }

  function After(cfg: Limits, m: Table, c: Call): Table {
    Cleared(cfg, m, c)[c.addr := Taken(Refilled(cfg, Cleared(cfg, m, c), c.addr, c.now))]
  }

  /** A capacity eviction takes an entry with least lastSeen. */
  predicate LegalVictim(cfg: Limits, m: Table, c: Call) {
    var live := Unexpired(cfg, m, c.now);
    NeedsRoom(cfg, live, c.addr) ==> IsOldest(live, c.victim)
  }

  class Limiter {
    const cfg: Limits
    var entries: Table

    /** An enabled limiter has valid limits and keeps its table within them. */
    ghost predicate Valid()
      reads this
    {
      && Invalid !in entries
      && (cfg.enabled ==> ValidLimits(cfg) && |entries| <= cfg.maxEntries)
    }

    constructor (cfg: Limits)
      requires cfg.enabled ==> ValidLimits(cfg)
      ensures Valid() && this.cfg == cfg && entries == map[]
    {
      this.cfg, entries := cfg, map[];
    }

    /** Allow: a disabled limiter admits everyone, an enabled one nobody without an address. */
    method Allow(addr: Addr, now: real) returns (ok: bool)
      requires Valid()
      modifies this
      ensures Valid()
      ensures !cfg.enabled ==> ok && entries == old(entries)
      ensures cfg.enabled && addr.Invalid? ==> !ok && entries == old(entries)
      ensures cfg.enabled && !addr.Invalid? ==>
        exists victim :: var c := Call(Unmap(addr), now, victim);
          && LegalVictim(cfg, old(entries), c)
          && ok == Allowed(cfg, old(entries), c)
          && entries == After(cfg, old(entries), c)
    {
      if !cfg.enabled || addr.Invalid? {
        return !cfg.enabled;
      }
      ok := AllowAt(Unmap(addr), now);
    }

    method AllowAt(addr: Addr, now: real) returns (ok: bool)
      requires Valid() && cfg.enabled && !addr.Invalid?
      modifies this
      ensures Valid()
      ensures exists victim :: var c := Call(addr, now, victim);
        && LegalVictim(cfg, old(entries), c)
        && ok == Allowed(cfg, old(entries), c)
        && entries == After(cfg, old(entries), c)
    {
      DeleteExpired(now);
      ghost var live := entries;
      var victim := Invalid;
      UnexpiredSize(cfg, old(entries), now);
      if addr !in entries && |entries| >= cfg.maxEntries {
        victim := DeleteOldest();
      }
      ghost var c := Call(addr, now, victim);
      assert LegalVictim(cfg, old(entries), c) && entries == Cleared(cfg, old(entries), c);
      var current := Refilled(cfg, entries, addr, now);
      ok := current.tokens >= 1.0;
      InsertSize(entries, addr, Taken(current));
      entries := entries[addr := Taken(current)];
    }

    /** The loop that drops idle entries, in whatever order the map yields them. */
    method DeleteExpired(now: real)
      modifies this
      ensures entries == Unexpired(cfg, old(entries), now)
    {
      var rest := entries.Keys;
      while rest != {}
        invariant rest <= old(entries).Keys
        invariant entries == map a | a in old(entries) && (a in rest || !Expired(cfg, old(entries)[a], now)) :: old(entries)[a]
        decreases rest
      {
        var a :| a in rest;
        rest := rest - {a};
        if Expired(cfg, entries[a], now) {
          entries := entries - {a};
        }
      }
    }

    /** The scan for the least recently seen entry; ties go to whichever comes first. */
    method DeleteOldest() returns (victim: Addr)
      requires Invalid !in entries && |entries| > 0
      modifies this
      ensures IsOldest(old(entries), victim)
      ensures entries == old(entries) - {victim}
    {
      var rest := entries.Keys;
      var oldest := 0.0;
      victim := Invalid;
      while rest != {}
        invariant rest <= entries.Keys && entries == old(entries)
        invariant victim.Invalid? ==> rest == entries.Keys
        invariant !victim.Invalid? ==> victim in entries && oldest == entries[victim].lastSeen
        invariant !victim.Invalid? ==> forall a :: a in entries && a !in rest ==> oldest <= entries[a].lastSeen
        decreases rest
      {
        var a :| a in rest;
        rest := rest - {a};
        if victim.Invalid? || entries[a].lastSeen < oldest {
          victim, oldest := a, entries[a].lastSeen;
        }
      }
      assert entries.Keys != {};
      entries := entries - {victim};
    }
  }

  lemma UnexpiredSize(cfg: Limits, m: Table, now: real)
    ensures |Unexpired(cfg, m, now)| <= |m|
  {
    var live := Unexpired(cfg, m, now);
    SubsetSize(live.Keys, m.Keys);
  }

  lemma SubsetSize<A>(s: set<A>, t: set<A>)
    requires s <= t
    ensures |s| <= |t|
  {
    assert |t| == |s| + |t - s| by { assert t == s + (t - s); }
  }

  lemma InsertSize(m: Table, addr: Addr, e: Entry)
    ensures |m[addr := e]| == if addr in m then |m| else |m| + 1
  {
    var n := m[addr := e];
    assert n.Keys == m.Keys + {addr};
  }

  ghost predicate TokensInRange(cfg: Limits, m: Table) {
    forall a :: a in m ==> 0.0 <= m[a].tokens <= cfg.burst as real
  }

  /** Every call keeps the table within its bound and every bucket between empty and full. */
  lemma StepKeepsBounds(cfg: Limits, m: Table, c: Call)
    requires ValidLimits(cfg) && LegalVictim(cfg, m, c)
    requires |m| <= cfg.maxEntries && TokensInRange(cfg, m)
    ensures |After(cfg, m, c)| <= cfg.maxEntries && TokensInRange(cfg, After(cfg, m, c))
  {
    var live := Unexpired(cfg, m, c.now);
    UnexpiredSize(cfg, m, c.now);
    var cleared := Cleared(cfg, m, c);
    if NeedsRoom(cfg, live, c.addr) {
      assert live.Keys == cleared.Keys + {c.victim};
    }
    InsertSize(cleared, c.addr, Taken(Refilled(cfg, cleared, c.addr, c.now)));
    RefillInRange(cfg, cleared, c.addr, c.now);
  }

  lemma RefillInRange(cfg: Limits, m: Table, addr: Addr, now: real)
    requires ValidLimits(cfg) && TokensInRange(cfg, m)
    ensures 0.0 <= Refilled(cfg, m, addr, now).tokens <= cfg.burst as real
  {
    var e := if addr in m then m[addr] else Entry(cfg.burst as real, now, now);
    if now - e.lastRefill > 0.0 {
      EarnedMonotone(cfg, 0.0, now - e.lastRefill);
    }
  }

  lemma EarnedMonotone(cfg: Limits, x: real, y: real)
    requires x <= y && cfg.rate > 0.0
    ensures Earned(cfg, x) <= Earned(cfg, y) && Earned(cfg, 0.0) == 0.0
  {
  }

  lemma EarnedSplits(cfg: Limits, a: real, b: real, c: real)
    ensures Earned(cfg, b - a) + Earned(cfg, c - b) == Earned(cfg, c - a)
  {
  }

  /** The table after a run, and the decisions taken on the way. */
  function TableAfter(cfg: Limits, m: Table, calls: seq<Call>): Table
    decreases |calls|
  {
    if calls == [] then m else TableAfter(cfg, After(cfg, m, calls[0]), calls[1..])
  }

  function Decisions(cfg: Limits, m: Table, calls: seq<Call>): seq<bool>
    decreases |calls|
  {
    if calls == [] then [] else [Allowed(cfg, m, calls[0])] + Decisions(cfg, After(cfg, m, calls[0]), calls[1..])
  }

  ghost predicate LegalRun(cfg: Limits, m: Table, calls: seq<Call>)
    decreases |calls|
  {
    calls != [] ==> LegalVictim(cfg, m, calls[0]) && LegalRun(cfg, After(cfg, m, calls[0]), calls[1..])
  }

  /** Over every run, timestamps in any order, the bounds hold. */
  lemma {:induction false} RunKeepsBounds(cfg: Limits, m: Table, calls: seq<Call>)
    requires ValidLimits(cfg) && LegalRun(cfg, m, calls)
    requires |m| <= cfg.maxEntries && TokensInRange(cfg, m)
    ensures |TableAfter(cfg, m, calls)| <= cfg.maxEntries && TokensInRange(cfg, TableAfter(cfg, m, calls))
    decreases |calls|
  {
    if calls != [] {
      StepKeepsBounds(cfg, m, calls[0]);
      RunKeepsBounds(cfg, After(cfg, m, calls[0]), calls[1..]);
    }
  }

  /** How many calls of a were admitted. */
  function Admitted(cfg: Limits, m: Table, calls: seq<Call>, a: Addr): nat
    decreases |calls|
  {
    if calls == [] then 0
    else (if calls[0].addr == a && Allowed(cfg, m, calls[0]) then 1 else 0)
         + Admitted(cfg, After(cfg, m, calls[0]), calls[1..], a)
  }

  /** Wherever a has an entry, no call of the window expires or evicts it. */
  predicate Undeleted(cfg: Limits, m: Table, calls: seq<Call>, a: Addr)
    decreases |calls|
  {
    calls != [] ==>
      && (a in m ==> a in Cleared(cfg, m, calls[0]))
      && Undeleted(cfg, After(cfg, m, calls[0]), calls[1..], a)
  }

  /** The latest timestamp among start and the calls of a. */
  function Latest(calls: seq<Call>, a: Addr, start: real): (t: real)
    ensures t >= start
  {
    if calls == [] then start
    else Latest(calls[1..], a, if calls[0].addr == a && calls[0].now > start then calls[0].now else start)
  }

  predicate Calls(calls: seq<Call>, a: Addr) {
    exists i :: 0 <= i < |calls| && calls[i].addr == a
  }

  function FirstTime(calls: seq<Call>, a: Addr): real
    requires Calls(calls, a)
  {
    if calls[0].addr == a then calls[0].now
    else
      assert exists i :: 0 <= i < |calls[1..]| && calls[1..][i].addr == a by {
        var i :| 0 <= i < |calls| && calls[i].addr == a;
        assert calls[1..][i - 1].addr == a;
      }
      FirstTime(calls[1..], a)
  }

  /** One call of a spends what it admits: tokens plus admissions grow only with the clock. */
  lemma CallSpends(cfg: Limits, m: Table, c: Call)
    requires ValidLimits(cfg) && c.addr in Cleared(cfg, m, c) && c.addr in m
    ensures var e, e' := m[c.addr], After(cfg, m, c)[c.addr];
      && e'.lastRefill == (if c.now > e.lastRefill then c.now else e.lastRefill)
      && e'.tokens + (if Allowed(cfg, m, c) then 1.0 else 0.0)
         <= e.tokens + Earned(cfg, e'.lastRefill - e.lastRefill)
  {
    EarnedMonotone(cfg, 0.0, 0.0);
  }

  lemma {:induction false} SpendsFrom(cfg: Limits, m: Table, calls: seq<Call>, a: Addr)
    requires ValidLimits(cfg) && TokensInRange(cfg, m) && a in m && Undeleted(cfg, m, calls, a)
    ensures Admitted(cfg, m, calls, a) as real
            <= m[a].tokens + Earned(cfg, Latest(calls, a, m[a].lastRefill) - m[a].lastRefill)
    decreases |calls|
  {
    hide Allowed, After, Cleared, Earned;
    if calls == [] {
      EarnedMonotone(cfg, 0.0, 0.0);
    } else {
      var c, m' := calls[0], After(cfg, m, calls[0]);
      StepLocal(cfg, m, c);
      SpendsFrom(cfg, m', calls[1..], a);
      if c.addr == a {
        CallSpends(cfg, m, c);
        EarnedSplits(cfg, m[a].lastRefill, m'[a].lastRefill, Latest(calls, a, m[a].lastRefill));
      }
    }
  }

  /** A call leaves the other surviving entries alone and keeps tokens in range. */
  lemma StepLocal(cfg: Limits, m: Table, c: Call)
    requires ValidLimits(cfg) && TokensInRange(cfg, m)
    ensures TokensInRange(cfg, After(cfg, m, c)) && c.addr in After(cfg, m, c)
    ensures forall a :: a in Cleared(cfg, m, c) ==> a in m && a in After(cfg, m, c)
    ensures forall a :: a in Cleared(cfg, m, c) && a != c.addr ==> After(cfg, m, c)[a] == m[a]
  {
    RefillInRange(cfg, Cleared(cfg, m, c), c.addr, c.now);
  }

  /** In any window in which an address's entry is not deleted, the address is admitted at most
      burst + rate * (latest - first) times, however its timestamps are ordered. */
  lemma {:induction false} WindowBound(cfg: Limits, m: Table, calls: seq<Call>, a: Addr)
    requires ValidLimits(cfg) && TokensInRange(cfg, m)
    requires Undeleted(cfg, m, calls, a) && Calls(calls, a)
    ensures var first := FirstTime(calls, a);
      Admitted(cfg, m, calls, a) as real <= cfg.burst as real + Earned(cfg, Latest(calls, a, first) - first)
    decreases |calls|
  {
    hide Allowed, After, Cleared, Refilled, Earned, FirstTime;
    var c, rest := calls[0], calls[1..];
    var m' := After(cfg, m, c);
    StepLocal(cfg, m, c);
    if c.addr == a {
      SpendsFrom(cfg, m', rest, a);
      FirstCall(cfg, m, c);
      var base := m'[a].lastRefill;
      LatestMonotone(rest, a, c.now, base);
      EarnedMonotone(cfg, Latest(rest, a, base) - base, Latest(rest, a, c.now) - c.now);
      FirstNow(calls, a);
    } else {
      WindowBound(cfg, m', rest, a);
      LatestSkip(calls, a);
    }
  }

  lemma FirstCall(cfg: Limits, m: Table, c: Call)
    requires ValidLimits(cfg) && TokensInRange(cfg, m)
    ensures var e := After(cfg, m, c)[c.addr];
      e.lastRefill >= c.now && e.tokens + (if Allowed(cfg, m, c) then 1.0 else 0.0) <= cfg.burst as real
  {
    RefillInRange(cfg, Cleared(cfg, m, c), c.addr, c.now);
  }

  lemma {:induction false} LatestMonotone(calls: seq<Call>, a: Addr, s: real, t: real)
    requires s <= t
    ensures Latest(calls, a, t) - t <= Latest(calls, a, s) - s
  {
    if calls != [] {
      var s' := if calls[0].addr == a && calls[0].now > s then calls[0].now else s;
      var t' := if calls[0].addr == a && calls[0].now > t then calls[0].now else t;
      LatestMonotone(calls[1..], a, s', t');
    }
  }

  lemma LatestSkip(calls: seq<Call>, a: Addr)
    requires Calls(calls, a) && calls[0].addr != a
    ensures Calls(calls[1..], a) && FirstTime(calls, a) == FirstTime(calls[1..], a)
  {
    var i :| 0 <= i < |calls| && calls[i].addr == a;
    assert calls[1..][i - 1].addr == a;
  }

  lemma FirstNow(calls: seq<Call>, a: Addr)
    requires Calls(calls, a) && calls[0].addr == a
    ensures FirstTime(calls, a) == calls[0].now
    ensures Latest(calls, a, calls[0].now) == Latest(calls[1..], a, calls[0].now)
  {
  }

  // What a call decides, spelled out, and what a patient client can count on.

  /** The address has a bucket that has not been idle for the timeout. */
  predicate Remembered(cfg: Limits, m: Table, c: Call) {
    c.addr in m && c.now - m[c.addr].lastSeen < cfg.idleTimeout
  }

  /** A call finds a full bucket if its address is not remembered, and otherwise what was left plus
      gain, which is rate times the time since the last refill, up to the burst. It is admitted exactly when that
      is at least one token, and spends one then. The clock never goes back. */
  lemma CallLaw(cfg: Limits, m: Table, c: Call, gain: real)
    requires ValidLimits(cfg) && TokensInRange(cfg, m)
    requires Remembered(cfg, m, c) ==> gain == cfg.rate * (c.now - m[c.addr].lastRefill)
    ensures var burst := cfg.burst as real;
      var known := Remembered(cfg, m, c);
      var late := known && m[c.addr].lastRefill > c.now;
      var earned := if known then m[c.addr].tokens + gain else burst;
      var found := if late then m[c.addr].tokens else if earned < burst then earned else burst;
      && (Allowed(cfg, m, c) <==> found >= 1.0)
      && c.addr in After(cfg, m, c)
      && var e := After(cfg, m, c)[c.addr];
      && e.tokens + (if Allowed(cfg, m, c) then 1.0 else 0.0) == found
      && e.lastRefill == (if late then m[c.addr].lastRefill else c.now) && e.lastSeen == c.now
  {
    if Remembered(cfg, m, c) {
      EarnedIs(cfg, c.now - m[c.addr].lastRefill, gain);
    }
    hide Allowed, After, Earned;
    CallFinds(cfg, m, c);
  }

  lemma EarnedIs(cfg: Limits, dt: real, gain: real)
    requires gain == cfg.rate * dt
    ensures gain == Earned(cfg, dt)
  {
  }

  /** The same with the earned tokens by name. */
  lemma CallFinds(cfg: Limits, m: Table, c: Call)
    requires ValidLimits(cfg) && TokensInRange(cfg, m)
    ensures var burst := cfg.burst as real;
      var known := Remembered(cfg, m, c);
      var late := known && m[c.addr].lastRefill > c.now;
      var earned := if known then m[c.addr].tokens + Earned(cfg, c.now - m[c.addr].lastRefill) else burst;
      var found := if late then m[c.addr].tokens else if earned < burst then earned else burst;
      && (Allowed(cfg, m, c) <==> found >= 1.0)
      && c.addr in After(cfg, m, c)
      && var e := After(cfg, m, c)[c.addr];
      && e.tokens + (if Allowed(cfg, m, c) then 1.0 else 0.0) == found
      && e.lastRefill == (if late then m[c.addr].lastRefill else c.now) && e.lastSeen == c.now
  {
    assert Earned(cfg, 0.0) == 0.0;
    hide Earned;
    assert Remembered(cfg, m, c) <==> c.addr in Cleared(cfg, m, c);
    assert Remembered(cfg, m, c) ==> Cleared(cfg, m, c)[c.addr] == m[c.addr];
    hide Cleared, Remembered;
  }

  /** What a call does to the others: it forgets the idle ones, and the victim if the table is full
      and the caller new; the rest it leaves as they are. */
  lemma OthersLaw(cfg: Limits, m: Table, c: Call, a: Addr)
    requires a != c.addr
    ensures var idle := a in m && c.now - m[a].lastSeen >= cfg.idleTimeout;
      var live := |Unexpired(cfg, m, c.now)|;
      && (a in After(cfg, m, c) <==>
            a in m && !idle && !(a == c.victim && !Remembered(cfg, m, c) && live >= cfg.maxEntries))
      && (a in After(cfg, m, c) ==> After(cfg, m, c)[a] == m[a])
  {
  }

  /** A live bucket of another address is forgotten only when the table is full, and then none that
      is live has been idle for longer. */
  lemma EvictsOldest(cfg: Limits, m: Table, c: Call, a: Addr, b: Addr)
    requires LegalVictim(cfg, m, c)
    requires a in m && a != c.addr && a !in After(cfg, m, c) && c.now - m[a].lastSeen < cfg.idleTimeout
    requires b in m && c.now - m[b].lastSeen < cfg.idleTimeout
    ensures m[a].lastSeen <= m[b].lastSeen && |Unexpired(cfg, m, c.now)| >= cfg.maxEntries
  {
    OthersLaw(cfg, m, c, a);
    hide After;
    assert b in Unexpired(cfg, m, c.now) && Unexpired(cfg, m, c.now)[b] == m[b];
  }

  /** Every bucket was last filled at the time of some call of its address. */
  lemma {:induction false} FilledByCall(cfg: Limits, m: Table, calls: seq<Call>, a: Addr) returns (i: int)
    requires ValidLimits(cfg) && TokensInRange(cfg, m) && a in TableAfter(cfg, m, calls)
    ensures -1 <= i < |calls|
    ensures i == -1 ==> a in m && TableAfter(cfg, m, calls)[a].lastRefill == m[a].lastRefill
    ensures i >= 0 ==> calls[i].addr == a && TableAfter(cfg, m, calls)[a].lastRefill == calls[i].now
    decreases |calls|
  {
    if calls == [] {
      i := -1;
    } else {
      var c, m' := calls[0], After(cfg, m, calls[0]);
      StepLocal(cfg, m, c);
      var k := FilledByCall(cfg, m', calls[1..], a);
      if k >= 0 {
        i := k + 1;
      } else {
        i := FilledNow(cfg, m, c, a);
      }
    }
  }

  lemma FilledNow(cfg: Limits, m: Table, c: Call, a: Addr) returns (i: int)
    requires ValidLimits(cfg) && TokensInRange(cfg, m) && a in After(cfg, m, c)
    ensures i == -1 || i == 0
    ensures i == -1 ==> a in m && After(cfg, m, c)[a].lastRefill == m[a].lastRefill
    ensures i == 0 ==> c.addr == a && After(cfg, m, c)[a].lastRefill == c.now
  {
    if a == c.addr {
      CallFinds(cfg, m, c);
      hide After, Allowed, Earned;
      i := if Remembered(cfg, m, c) && m[a].lastRefill > c.now then -1 else 0;
    } else {
      OthersLaw(cfg, m, c, a);
      i := -1;
    }
  }

  lemma {:induction false} RangeAfter(cfg: Limits, m: Table, calls: seq<Call>)
    requires ValidLimits(cfg) && TokensInRange(cfg, m)
    ensures TokensInRange(cfg, TableAfter(cfg, m, calls))
    decreases |calls|
  {
    if calls != [] {
      StepLocal(cfg, m, calls[0]);
      RangeAfter(cfg, After(cfg, m, calls[0]), calls[1..]);
    }
  }

  /** Time enough to earn a token. */
  predicate Waited(cfg: Limits, since: real, now: real) {
    cfg.rate * (now - since) >= 1.0
  }

  lemma WaitedIsEnough(cfg: Limits, m: Table, c: Call)
    requires ValidLimits(cfg) && TokensInRange(cfg, m)
    requires Remembered(cfg, m, c) ==> Waited(cfg, m[c.addr].lastRefill, c.now)
    ensures Allowed(cfg, m, c)
  {
    hide After, Allowed, Earned, Waited;
    CallFinds(cfg, m, c);
    if Remembered(cfg, m, c) {
      WaitedEarns(cfg, m[c.addr].lastRefill, c.now);
    }
  }

  lemma WaitedEarns(cfg: Limits, since: real, now: real)
    requires cfg.rate > 0.0 && Waited(cfg, since, now)
    ensures now > since && Earned(cfg, now - since) >= 1.0
  {
    Forward(cfg.rate, now - since);
  }

  /** After any run, whatever the other clients did: a call that comes at least 1/rate seconds after
      every earlier call of its address is admitted. */
  lemma PatientIsAdmitted(cfg: Limits, calls: seq<Call>, c: Call)
    requires ValidLimits(cfg)
    requires forall i :: 0 <= i < |calls| && calls[i].addr == c.addr ==> Waited(cfg, calls[i].now, c.now)
    ensures Allowed(cfg, TableAfter(cfg, map[], calls), c)
  {
    hide After, Allowed, TableAfter, Waited;
    var m := TableAfter(cfg, map[], calls);
    RangeAfter(cfg, map[], calls);
    if Remembered(cfg, m, c) {
      var i := FilledByCall(cfg, map[], calls, c.addr);
    }
    WaitedIsEnough(cfg, m, c);
  }

  lemma Forward(rate: real, dt: real)
    requires rate > 0.0 && rate * dt >= 1.0
    ensures dt > 0.0
  {
  }
}
