/** internal/voicechat with its companions: registrations over a network that may delay, reorder,
    repeat or lose any message. Lease IDs are fresh. */
module LeaseProtocol {
  import opened Envelope
  import opened VoiceCore

  /** A companion: the backend its token stands for and its own instance ID. */
  datatype Holder = Holder(backend: string, owner: string)

  datatype Message =
    | Put(player: UUID, from: Holder)
    | Refresh(player: UUID, from: Holder, lease: string)
    | Delete(player: UUID, from: Holder, lease: string)

  datatype Grant = Grant(player: UUID, holder: Holder, lease: string)

  /** sent: every request ever sent, any of which may arrive at any time and more than once.
      answers: successful responses to PUTs that no companion has read yet. granted: whom each
      lease ID was made for. tracked: the companions' lease tables. */
  datatype Net = Net(
    core: Core,
    sent: set<Message>,
    answers: set<Grant>,
    granted: map<string, (UUID, Holder)>,
    tracked: map<(Holder, UUID), string>)

  const QUIET := Net(EMPTY, {}, {}, map[], map[])

  datatype Event =
    | Register(holder: Holder, player: UUID)
    | ReadAnswer(grant: Grant)
    | SendRefresh(holder: Holder, player: UUID)
    | Unregister(holder: Holder, player: UUID)
    | PutArrives(message: Message, fresh_: string, now: int)
    | RefreshArrives(message: Message, now: int)
    | DeleteArrives(message: Message)
    | PacketArrives(player: UUID, now: int)
    | ExpiryTick(now: int)
    | GatewayCloses

  predicate Possible(n: Net, e: Event) {
    match e
    case Register(_, _) => true
    case ReadAnswer(g) => g in n.answers
    case SendRefresh(h, p) => (h, p) in n.tracked
    case Unregister(h, p) => (h, p) in n.tracked
    case PutArrives(m, lease, _) => m.Put? && m in n.sent && lease !in n.granted
    case RefreshArrives(m, _) => m.Refresh? && m in n.sent
    case DeleteArrives(m) => m.Delete? && m in n.sent
    case PacketArrives(_, _) => true
    case ExpiryTick(_) => true
    case GatewayCloses => true
  }

  function PutAnswer(cfg: Config, n: Net, e: Event): (Core, VoiceCore.Put)
    requires e.PutArrives? && e.message.Put?
  {
    PutSection(cfg, n.core, e.message.player, e.message.from.backend, e.message.from.owner, e.fresh_, e.now)
  }

  /** The event is a PUT for this player that the gateway accepts. */
  predicate Accepts(cfg: Config, n: Net, e: Event, player: UUID) {
    && e.PutArrives? && Possible(n, e) && e.message.player == player
    && PutAnswer(cfg, n, e).1.Installed?
  }

  function GatewayStep(cfg: Config, n: Net, e: Event): Net
    requires Possible(n, e)
  {
    match e
    case PutArrives(m, lease, now) =>
      var (core, r) := PutAnswer(cfg, n, e);
      if r.Installed?
      then n.(core := core, granted := n.granted[lease := (m.player, m.from)], answers := n.answers + {Grant(m.player, m.from, lease)})
      else n.(core := core)
    case RefreshArrives(m, now) =>
      n.(core := RefreshSection(cfg, n.core, m.player, m.from.backend, m.from.owner, m.lease, now).0)
    case DeleteArrives(m) =>
      n.(core := DeleteSection(n.core, m.player, m.from.backend, m.from.owner, m.lease).0)
    case PacketArrives(player, now) => n.(core := LookupSection(n.core, player, now).0)
    case ExpiryTick(now) => n.(core := ExpireSection(n.core, now))
    case GatewayCloses => n.(core := ShutSection(n.core))
    case _ => n
  }

  function CompanionStep(n: Net, e: Event): Net
    requires Possible(n, e)
  {
    match e
    case Register(h, p) => n.(sent := n.sent + {Put(p, h)})
    case ReadAnswer(g) =>
      var at := (g.holder, g.player);
      n.(answers := n.answers - {g},
         tracked := n.tracked[at := g.lease],
         sent := if at in n.tracked then n.sent + {Delete(g.player, g.holder, n.tracked[at])} else n.sent)
    case SendRefresh(h, p) => n.(sent := n.sent + {Refresh(p, h, n.tracked[(h, p)])})
    case Unregister(h, p) =>
      n.(tracked := n.tracked - {(h, p)}, sent := n.sent + {Delete(p, h, n.tracked[(h, p)])})
    case _ => n
  }

  predicate FromCompanion(e: Event) {
    e.Register? || e.ReadAnswer? || e.SendRefresh? || e.Unregister?
  }

  function Next(cfg: Config, n: Net, e: Event): Net {
    if !Possible(n, e) then n
    else if FromCompanion(e) then CompanionStep(n, e)
    else GatewayStep(cfg, n, e)
  }

  function After(cfg: Config, run: seq<Event>): Net {
    if run == [] then QUIET else Next(cfg, After(cfg, run[..|run| - 1]), run[|run| - 1])
  }

  // The last accepted PUT decides.

  /** Event m of the run is a PUT for the player that the gateway accepted. */
  ghost predicate AcceptedAt(cfg: Config, run: seq<Event>, m: nat, player: UUID) {
    m < |run| && Accepts(cfg, After(cfg, run[..m]), run[m], player)
  }

  ghost predicate LastAccepted(cfg: Config, run: seq<Event>, m: nat, player: UUID) {
    && AcceptedAt(cfg, run, m, player)
    && forall k :: m < k < |run| ==> !AcceptedAt(cfg, run, k, player)
  }

  /** The registration is the one this PUT asked for, apart from its expiry. */
  predicate InstalledBy(reg: Registration, e: Event) {
    && e.PutArrives? && e.message.Put?
    && reg.player == e.message.player && reg.backend == e.message.from.backend
    && reg.owner == e.message.from.owner && reg.lease == e.fresh_
  }

  /** What one event does to one player's registration. */
  lemma RegistrationStep(cfg: Config, n: Net, e: Event, player: UUID)
    requires player in Next(cfg, n, e).core.regs
    ensures var reg := Next(cfg, n, e).core.regs[player];
      if Accepts(cfg, n, e, player)
      then InstalledBy(reg, e) && reg.generation == (if player in n.core.regs then n.core.regs[player].generation + 1 else 1)
      else player in n.core.regs && reg == n.core.regs[player].(expiresAt := reg.expiresAt)
  {
  }

  /** A player's registration is the one installed by the last accepted PUT for that player. */
  lemma {:induction false} LastPutRules(cfg: Config, run: seq<Event>, player: UUID) returns (m: nat)
    requires player in After(cfg, run).core.regs
    ensures LastAccepted(cfg, run, m, player) && InstalledBy(After(cfg, run).core.regs[player], run[m])
  {
    hide Next, Accepts;
    var most, last := run[..|run| - 1], run[|run| - 1];
    var before := After(cfg, most);
    RegistrationStep(cfg, before, last, player);
    if Accepts(cfg, before, last, player) {
      m := |most|;
    } else {
      m := LastPutRules(cfg, most, player);
      Prefixes(cfg, run, m, player);
    }
  }

  lemma Prefixes(cfg: Config, run: seq<Event>, m: nat, player: UUID)
    requires run != [] && LastAccepted(cfg, run[..|run| - 1], m, player)
    requires !Accepts(cfg, After(cfg, run[..|run| - 1]), run[|run| - 1], player)
    ensures LastAccepted(cfg, run, m, player)
  {
    hide Accepts, After;
    var most := run[..|run| - 1];
    assert forall k :: 0 <= k < |most| ==> most[..k] == run[..k] && most[k] == run[k];
    forall k | m < k < |run| ensures !AcceptedAt(cfg, run, k, player) {
      if k < |most| {
        assert !AcceptedAt(cfg, most, k, player);
      }
    }
  }

  // Fresh leases.

  lemma GrantedStep(cfg: Config, n: Net, e: Event)
    ensures var after := Next(cfg, n, e);
      && (forall l :: l in n.granted ==> l in after.granted && after.granted[l] == n.granted[l])
      && (forall p :: Accepts(cfg, n, e, p) ==> e.fresh_ !in n.granted && e.fresh_ in after.granted)
  {
  }

  /** A lease accepted at event m is known from then on. */
  lemma {:induction false} StaysGranted(cfg: Config, run: seq<Event>, m: nat, player: UUID)
    requires AcceptedAt(cfg, run, m, player)
    ensures run[m].fresh_ in After(cfg, run).granted
  {
    hide Next, Accepts;
    var most, last := run[..|run| - 1], run[|run| - 1];
    GrantedStep(cfg, After(cfg, most), last);
    if m < |most| {
      assert most[..m] == run[..m];
      StaysGranted(cfg, most, m, player);
    }
  }

  lemma LeaseOnce(cfg: Config, run: seq<Event>, m: nat, k: nat, p: UUID, q: UUID)
    requires AcceptedAt(cfg, run, m, p) && AcceptedAt(cfg, run, k, q) && run[m].fresh_ == run[k].fresh_
    ensures m == k && p == q
  {
    if m < k {
      assert run[..k][..m] == run[..m];
      StaysGranted(cfg, run[..k], m, p);
    } else if k < m {
      assert run[..m][..k] == run[..k];
      StaysGranted(cfg, run[..m], k, q);
    }
  }

  /** Once a later PUT for the player has been accepted, no message that carries the earlier lease
      can refresh or delete anything, whoever sends it, for whichever player, however late. */
  lemma OldLeaseIsDead(cfg: Config, run: seq<Event>, m: nat, k: nat, player: UUID)
    requires m < k && AcceptedAt(cfg, run, m, player) && AcceptedAt(cfg, run, k, player)
    ensures forall q, b, o, now ::
      var c := After(cfg, run).core;
      && RefreshSection(cfg, c, q, b, o, run[m].fresh_, now) == (c, false)
      && DeleteSection(c, q, b, o, run[m].fresh_) == (c, false)
  {
    var c := After(cfg, run).core;
    forall q, b, o | Speaks(c, q, b, o, run[m].fresh_) ensures false {
      var last := LastPutRules(cfg, run, q);
      LeaseOnce(cfg, run, m, last, player, q);
    }
  }

  /** The player is registered, and these are the backend, owner and lease of the last PUT accepted
      for the player. */
  ghost predicate LastTriple(cfg: Config, run: seq<Event>, player: UUID, from: Holder, lease: string) {
    && player in After(cfg, run).core.regs
    && exists m: nat :: LastAccepted(cfg, run, m, player) && run[m].message.from == from && run[m].fresh_ == lease
  }

  /** A message speaks for a player exactly when the player is registered and the message carries
      the backend, owner and lease of the last PUT accepted for the player. */
  lemma SpeaksIff(cfg: Config, run: seq<Event>, player: UUID, backend: string, owner: string, lease: string)
    ensures Speaks(After(cfg, run).core, player, backend, owner, lease) <==>
      LastTriple(cfg, run, player, Holder(backend, owner), lease)
  {
    if player in After(cfg, run).core.regs {
      var last := LastPutRules(cfg, run, player);
      forall m: nat | LastAccepted(cfg, run, m, player) ensures m == last {
        OneLast(cfg, run, m, last, player);
      }
      hide After, LastAccepted;
    }
  }

  lemma RunStep(cfg: Config, run: seq<Event>, e: Event)
    ensures After(cfg, run + [e]) == Next(cfg, After(cfg, run), e)
  {
    hide Next;
    assert (run + [e])[..|run|] == run;
  }

  /** An arriving refresh with the last PUT's triple moves the registration's expiry to one TTL from
      now and changes nothing else; any other refresh changes nothing at all. */
  lemma RefreshOutcome(cfg: Config, run: seq<Event>, m: Message, now: int)
    requires m.Refresh? && m in After(cfg, run).sent
    ensures var before, after := After(cfg, run), After(cfg, run + [RefreshArrives(m, now)]);
      && after == before.(core := before.core.(regs := after.core.regs))
      && (LastTriple(cfg, run, m.player, m.from, m.lease) ==>
            && m.player in before.core.regs
            && after.core.regs == before.core.regs[m.player := before.core.regs[m.player].(expiresAt := now + cfg.ttl)])
      && (!LastTriple(cfg, run, m.player, m.from, m.lease) ==> after == before)
  {
    RunStep(cfg, run, RefreshArrives(m, now));
    SpeaksIff(cfg, run, m.player, m.from.backend, m.from.owner, m.lease);
    hide After, LastTriple;
  }

  /** An arriving unregister with the last PUT's triple ends the registration and touches no other;
      any other unregister changes nothing at all. */
  lemma DeleteOutcome(cfg: Config, run: seq<Event>, m: Message)
    requires m.Delete? && m in After(cfg, run).sent
    ensures var before, after := After(cfg, run), After(cfg, run + [DeleteArrives(m)]);
      && after == before.(core := before.core.(regs := after.core.regs))
      && (LastTriple(cfg, run, m.player, m.from, m.lease) ==>
            && m.player in before.core.regs && m.player !in after.core.regs
            && (forall p :: p != m.player ==> (p in after.core.regs <==> p in before.core.regs))
            && (forall p :: p in after.core.regs ==> after.core.regs[p] == before.core.regs[p]))
      && (!LastTriple(cfg, run, m.player, m.from, m.lease) ==> after == before)
  {
    RunStep(cfg, run, DeleteArrives(m));
    SpeaksIff(cfg, run, m.player, m.from.backend, m.from.owner, m.lease);
    hide After, LastTriple;
  }

  /** A companion that registers gets through, after any run: unless the gateway is closed or full,
      its request makes an answer, and reading it leaves both sides with the same lease. */
  lemma RegisterCompletes(cfg: Config, run: seq<Event>, h: Holder, player: UUID, lease: string, now: int)
    requires lease !in After(cfg, run).granted
    ensures var n := After(cfg, run);
      var asked := run + [Register(h, player), PutArrives(Put(player, h), lease, now)];
      var m := After(cfg, asked + [ReadAnswer(Grant(player, h, lease))]);
      if n.core.closed || (player !in n.core.regs && |n.core.regs| >= cfg.maxRegistrations)
      then After(cfg, asked).core == n.core && After(cfg, asked).answers == n.answers
      else
        && Grant(player, h, lease) in After(cfg, asked).answers
        && Tracks(m, h, player, lease) && Speaks(m.core, player, h.backend, h.owner, lease)
        && m.core.regs[player].expiresAt == now + cfg.ttl
  {
    var n := After(cfg, run);
    var put, read := PutArrives(Put(player, h), lease, now), ReadAnswer(Grant(player, h, lease));
    RunStep(cfg, run, Register(h, player));
    RunStep(cfg, run + [Register(h, player)], put);
    var asked := run + [Register(h, player), put];
    assert asked == run + [Register(h, player)] + [put];
    RunStep(cfg, asked, read);
    hide After, Next;
    RegisterSteps(cfg, n, h, player, lease, now);
  }

  lemma RegisterSteps(cfg: Config, n: Net, h: Holder, player: UUID, lease: string, now: int)
    requires lease !in n.granted
    ensures var put, read := PutArrives(Put(player, h), lease, now), ReadAnswer(Grant(player, h, lease));
      var asked := Next(cfg, Next(cfg, n, Register(h, player)), put);
      var m := Next(cfg, asked, read);
      if n.core.closed || (player !in n.core.regs && |n.core.regs| >= cfg.maxRegistrations)
      then asked.core == n.core && asked.answers == n.answers
      else
        && Grant(player, h, lease) in asked.answers
        && Tracks(m, h, player, lease) && Speaks(m.core, player, h.backend, h.owner, lease)
        && m.core.regs[player].expiresAt == now + cfg.ttl
  {
  }

  lemma OneLast(cfg: Config, run: seq<Event>, m: nat, k: nat, player: UUID)
    requires LastAccepted(cfg, run, m, player) && LastAccepted(cfg, run, k, player)
    ensures m == k
  {
    hide Accepts, After;
  }

  // The generation.

  ghost function CountPuts(cfg: Config, run: seq<Event>, from: nat, player: UUID): nat {
    if |run| <= from then 0
    else
      var most := run[..|run| - 1];
      CountPuts(cfg, most, from, player) + if Accepts(cfg, After(cfg, most), run[|run| - 1], player) then 1 else 0
  }

  ghost predicate AbsentAt(cfg: Config, run: seq<Event>, i: nat, player: UUID) {
    i <= |run| && player !in After(cfg, run[..i]).core.regs
  }

  /** A registration's generation is the number of accepted PUTs since the player was last absent. */
  lemma {:induction false} GenerationCounts(cfg: Config, run: seq<Event>, player: UUID) returns (i: nat)
    requires player in After(cfg, run).core.regs
    ensures AbsentAt(cfg, run, i, player) && (forall j :: i < j <= |run| ==> !AbsentAt(cfg, run, j, player))
    ensures After(cfg, run).core.regs[player].generation == CountPuts(cfg, run, i, player)
  {
    hide Next, Accepts;
    var most, last := run[..|run| - 1], run[|run| - 1];
    assert run[..|run|] == run && most[..|most|] == most;
    RegistrationStep(cfg, After(cfg, most), last, player);
    if player in After(cfg, most).core.regs {
      i := GenerationCounts(cfg, most, player);
      assert most[..i] == run[..i];
      forall j | i < j <= |run| ensures !AbsentAt(cfg, run, j, player) {
        if j <= |most| {
          assert most[..j] == run[..j];
          assert !AbsentAt(cfg, most, j, player);
        }
      }
    } else {
      i := |most|;
    }
  }

  // The expiry.

  /** Event m is a PUT for the player that was accepted, or a refresh for the player, registered by
      then, with the triple of the last PUT accepted before it. */
  ghost predicate RenewsAt(cfg: Config, run: seq<Event>, m: nat, player: UUID) {
    && m < |run|
    && (|| AcceptedAt(cfg, run, m, player)
        || (&& run[m].RefreshArrives? && run[m].message.Refresh? && run[m].message.player == player
            && run[m].message in After(cfg, run[..m]).sent
            && LastTriple(cfg, run[..m], player, run[m].message.from, run[m].message.lease)))
  }

  ghost predicate LastRenewal(cfg: Config, run: seq<Event>, m: nat, player: UUID) {
    RenewsAt(cfg, run, m, player) && forall k: nat :: m < k < |run| ==> !RenewsAt(cfg, run, k, player)
  }

  /** The same of one event in one state. */
  predicate Renews(cfg: Config, n: Net, e: Event, player: UUID) {
    || Accepts(cfg, n, e, player)
    || (e.RefreshArrives? && Possible(n, e) && e.message.player == player
        && Speaks(n.core, player, e.message.from.backend, e.message.from.owner, e.message.lease))
  }

  lemma RenewsIff(cfg: Config, run: seq<Event>, m: nat, player: UUID)
    requires m < |run|
    ensures RenewsAt(cfg, run, m, player) <==> Renews(cfg, After(cfg, run[..m]), run[m], player)
  {
    hide After, LastTriple, Accepts, Speaks;
    var e := run[m];
    if e.RefreshArrives? && e.message.Refresh? {
      SpeaksIff(cfg, run[..m], player, e.message.from.backend, e.message.from.owner, e.message.lease);
    }
  }

  lemma ExpiryStep(cfg: Config, n: Net, e: Event, player: UUID)
    requires player in Next(cfg, n, e).core.regs
    ensures var reg := Next(cfg, n, e).core.regs[player];
      if Renews(cfg, n, e, player) then (e.PutArrives? || e.RefreshArrives?) && reg.expiresAt == e.now + cfg.ttl
      else player in n.core.regs && reg.expiresAt == n.core.regs[player].expiresAt
  {
  }

  /** Which event of a longer run renews does not depend on what follows. */
  lemma RenewsPrefix(cfg: Config, run: seq<Event>, k: nat, player: UUID)
    requires k < |run| - 1
    ensures RenewsAt(cfg, run[..|run| - 1], k, player) <==> RenewsAt(cfg, run, k, player)
  {
    hide After, LastTriple, Accepts;
    assert run[..|run| - 1][..k] == run[..k];
  }

  /** A registration runs out one TTL after the last PUT or refresh that renewed it. */
  lemma {:induction false} ExpiryFollowsRenewal(cfg: Config, run: seq<Event>, player: UUID) returns (m: nat)
    requires player in After(cfg, run).core.regs
    ensures LastRenewal(cfg, run, m, player)
    ensures (run[m].PutArrives? || run[m].RefreshArrives?) && After(cfg, run).core.regs[player].expiresAt == run[m].now + cfg.ttl
  {
    var most, last := run[..|run| - 1], run[|run| - 1];
    assert After(cfg, run) == Next(cfg, After(cfg, most), last);
    hide Next, Renews, RenewsAt, After, LastRenewal;
    ExpiryStep(cfg, After(cfg, most), last, player);
    RenewsIff(cfg, run, |most|, player);
    if Renews(cfg, After(cfg, most), last, player) {
      m := |most|;
      RenewedNow(cfg, run, player);
    } else {
      m := ExpiryFollowsRenewal(cfg, most, player);
      RenewedBefore(cfg, run, m, player);
    }
  }

  lemma RenewedNow(cfg: Config, run: seq<Event>, player: UUID)
    requires run != [] && RenewsAt(cfg, run, |run| - 1, player)
    ensures LastRenewal(cfg, run, |run| - 1, player)
  {
    hide RenewsAt;
  }

  lemma RenewedBefore(cfg: Config, run: seq<Event>, m: nat, player: UUID)
    requires run != [] && LastRenewal(cfg, run[..|run| - 1], m, player) && !RenewsAt(cfg, run, |run| - 1, player)
    ensures m < |run| - 1 && LastRenewal(cfg, run, m, player)
  {
    InRun(cfg, run[..|run| - 1], m, player);
    RenewsPrefixAll(cfg, run, player);
    hide RenewsAt;
  }

  lemma InRun(cfg: Config, run: seq<Event>, m: nat, player: UUID)
    requires RenewsAt(cfg, run, m, player)
    ensures m < |run|
  {
  }

  lemma RenewsPrefixAll(cfg: Config, run: seq<Event>, player: UUID)
    requires run != []
    ensures forall k: nat :: k < |run| - 1 ==> (RenewsAt(cfg, run[..|run| - 1], k, player) <==> RenewsAt(cfg, run, k, player))
  {
    forall k: nat | k < |run| - 1 ensures RenewsAt(cfg, run[..|run| - 1], k, player) <==> RenewsAt(cfg, run, k, player) {
      RenewsPrefix(cfg, run, k, player);
    }
  }

  /** The expiry tick and a packet's lookup agree: either takes the registration away exactly when
      more than one TTL has passed since that renewal. */
  lemma LapsesAfterTtl(cfg: Config, run: seq<Event>, player: UUID, m: nat, now: int)
    requires player in After(cfg, run).core.regs && LastRenewal(cfg, run, m, player)
    ensures player in After(cfg, run + [ExpiryTick(now)]).core.regs <==> now <= run[m].now + cfg.ttl
    ensures player in After(cfg, run + [PacketArrives(player, now)]).core.regs <==> now <= run[m].now + cfg.ttl
  {
    var k := ExpiryFollowsRenewal(cfg, run, player);
    OneRenewal(cfg, run, k, m, player);
    RunStep(cfg, run, ExpiryTick(now));
    RunStep(cfg, run, PacketArrives(player, now));
    hide After, LastRenewal;
  }

  lemma OneRenewal(cfg: Config, run: seq<Event>, m: nat, k: nat, player: UUID)
    requires LastRenewal(cfg, run, m, player) && LastRenewal(cfg, run, k, player)
    ensures m == k
  {
    hide After, Accepts, LastTriple;
  }

  // What the companions can rely on.

  /** A companion tracks, and the gateway answers with, only leases made for that companion and
      player, and no Delete for a lease exists while its companion tracks it or has yet to read it. */
  ghost predicate Owned(n: Net, player: UUID, holder: Holder, lease: string) {
    lease in n.granted && n.granted[lease] == (player, holder)
  }

  ghost predicate Guarded(n: Net) {
    && (forall g :: g in n.answers ==> Owned(n, g.player, g.holder, g.lease) && Delete(g.player, g.holder, g.lease) !in n.sent)
    && (forall at :: at in n.tracked ==>
          && Owned(n, at.1, at.0, n.tracked[at]) && Delete(at.1, at.0, n.tracked[at]) !in n.sent
          && Grant(at.1, at.0, n.tracked[at]) !in n.answers)
    && (forall m :: m in n.sent && m.Delete? ==> Owned(n, m.player, m.from, m.lease))
    && (forall p :: p in n.core.regs ==> Owned(n, p, Holder(n.core.regs[p].backend, n.core.regs[p].owner), n.core.regs[p].lease))
  }

  lemma GuardedCompanion(n: Net, e: Event)
    requires Guarded(n) && Possible(n, e) && FromCompanion(e)
    ensures Guarded(CompanionStep(n, e))
  {
  }

  lemma GuardedPut(cfg: Config, n: Net, e: Event)
    requires Guarded(n) && Possible(n, e) && e.PutArrives?
    ensures Guarded(GatewayStep(cfg, n, e))
  {
  }

  /** Registrations may go or be renewed, but not change hands. */
  lemma GuardedRegs(n: Net, core: Core)
    requires Guarded(n)
    requires forall p :: p in core.regs ==>
      p in n.core.regs && core.regs[p] == n.core.regs[p].(expiresAt := core.regs[p].expiresAt)
    ensures Guarded(n.(core := core))
  {
  }

  lemma GuardedGateway(cfg: Config, n: Net, e: Event)
    requires Guarded(n) && Possible(n, e) && !FromCompanion(e)
    ensures Guarded(GatewayStep(cfg, n, e))
  {
    hide Guarded;
    if e.PutArrives? {
      GuardedPut(cfg, n, e);
    } else {
      GuardedRegs(n, GatewayStep(cfg, n, e).core);
    }
  }

  lemma {:induction false} AlwaysGuarded(cfg: Config, run: seq<Event>)
    ensures Guarded(After(cfg, run))
  {
    if run != [] {
      hide Guarded, Possible;
      var n, e := After(cfg, run[..|run| - 1]), run[|run| - 1];
      AlwaysGuarded(cfg, run[..|run| - 1]);
      if Possible(n, e) {
        if FromCompanion(e) { GuardedCompanion(n, e); } else { GuardedGateway(cfg, n, e); }
      }
    }
  }

  /** The player's registration stands under this lease. */
  predicate Held(n: Net, player: UUID, lease: string) {
    player in n.core.regs && n.core.regs[player].lease == lease
  }

  predicate Tracks(n: Net, holder: Holder, player: UUID, lease: string) {
    (holder, player) in n.tracked && n.tracked[(holder, player)] == lease
  }

  /** The three things that end a registration its holder keeps: a new PUT, expiry, and Close. */
  predicate Ends(cfg: Config, n: Net, e: Event, player: UUID) {
    || Accepts(cfg, n, e, player)
    || (player in n.core.regs && e.PacketArrives? && e.player == player && e.now > n.core.regs[player].expiresAt)
    || (player in n.core.regs && e.ExpiryTick? && e.now > n.core.regs[player].expiresAt)
    || e.GatewayCloses?
  }

  /** While a companion tracks the lease of a player's registration, nothing else takes it away,
      least of all a message; and each of the three does. */
  lemma HolderKeeps(cfg: Config, n: Net, holder: Holder, player: UUID, lease: string, e: Event)
    requires Guarded(n) && Tracks(n, holder, player, lease)
    ensures Held(Next(cfg, n, e), player, lease) <==> Held(n, player, lease) && !Ends(cfg, n, e, player)
  {
    assert lease in n.granted && Delete(player, holder, lease) !in n.sent;
    assert Held(n, player, lease) ==> Holder(n.core.regs[player].backend, n.core.regs[player].owner) == holder;
    hide Guarded, Tracks;
    KeptStep(cfg, n, holder, player, lease, e);
  }

  lemma KeptStep(cfg: Config, n: Net, holder: Holder, player: UUID, lease: string, e: Event)
    requires lease in n.granted && Delete(player, holder, lease) !in n.sent
    requires Held(n, player, lease) ==> Holder(n.core.regs[player].backend, n.core.regs[player].owner) == holder
    ensures Held(Next(cfg, n, e), player, lease) <==> Held(n, player, lease) && !Ends(cfg, n, e, player)
  {
    if Possible(n, e) {
      match e
      case PutArrives(_, _, _) =>
      case RefreshArrives(_, _) =>
      case DeleteArrives(_) =>
      case _ =>
    }
  }

  ghost predicate NeverEnds(cfg: Config, run: seq<Event>, from: nat, player: UUID) {
    forall j :: from <= j < |run| ==> !Ends(cfg, After(cfg, run[..j]), run[j], player)
  }

  ghost predicate AlwaysTracks(cfg: Config, run: seq<Event>, from: nat, holder: Holder, player: UUID, lease: string) {
    forall j :: from <= j < |run| ==> Tracks(After(cfg, run[..j]), holder, player, lease)
  }

  lemma TrackSnoc(cfg: Config, run: seq<Event>, e: Event, from: nat, holder: Holder, player: UUID, lease: string)
    requires from <= |run|
    ensures NeverEnds(cfg, run + [e], from, player) <==> NeverEnds(cfg, run, from, player) && !Ends(cfg, After(cfg, run), e, player)
    ensures AlwaysTracks(cfg, run + [e], from, holder, player, lease) <==>
      AlwaysTracks(cfg, run, from, holder, player, lease) && Tracks(After(cfg, run), holder, player, lease)
  {
    hide After, Ends, Tracks;
    var more := run + [e];
    assert more[..|run|] == run && more[|run|] == e;
    assert forall j :: 0 <= j < |run| ==> more[..j] == run[..j] && more[j] == run[j];
  }

  /** Over runs: a registration whose lease its companion tracks all along stands to the end of the
      run if and only if none of the three happens to it on the way. */
  lemma {:induction false} HolderKeepsThroughout(cfg: Config, run: seq<Event>, i: nat, holder: Holder, player: UUID, lease: string)
    requires i <= |run| && Held(After(cfg, run[..i]), player, lease)
    requires AlwaysTracks(cfg, run, i, holder, player, lease)
    ensures Held(After(cfg, run), player, lease) <==> NeverEnds(cfg, run, i, player)
  {
    if i == |run| {
      assert run[..i] == run;
    } else {
      var most, last := run[..|run| - 1], run[|run| - 1];
      assert After(cfg, run) == Next(cfg, After(cfg, most), last);
      hide *;
      assert run == most + [last] && most[..i] == run[..i];
      TrackSnoc(cfg, most, last, i, holder, player, lease);
      HolderKeepsThroughout(cfg, most, i, holder, player, lease);
      AlwaysGuarded(cfg, most);
      HolderKeeps(cfg, After(cfg, most), holder, player, lease, last);
    }
  }

  /** A registration ends exactly by an unregister with its own triple, by a lookup of its player or
      a tick past its expiry, or on Close. */
  lemma EndsIff(cfg: Config, n: Net, e: Event, player: UUID)
    requires player in n.core.regs
    ensures var reg := n.core.regs[player];
      player !in Next(cfg, n, e).core.regs <==>
        || (e.DeleteArrives? && e.message in n.sent && e.message == Delete(player, Holder(reg.backend, reg.owner), reg.lease))
        || (e.PacketArrives? && e.player == player && e.now > reg.expiresAt)
        || (e.ExpiryTick? && e.now > reg.expiresAt)
        || e.GatewayCloses?
  {
  }
}
