/** internal/voicechat: the state behind the runtime's mutex, and every stretch of code between a
    lock and its unlock as one function on that state. */
module VoiceCore {
  import opened Envelope

  datatype Registration = Registration(
    player: UUID, backend: string, owner: string, lease: string, generation: nat, expiresAt: int)

  /** A client address of a player; the runtime joins the two into one string. */
  datatype Key = Key(player: UUID, client: string)

  /** A session object: id is its identity, the rest never changes after creation. */
  datatype Session = Session(id: nat, key: Key, backend: string, lease: string, generation: nat)

  datatype Config = Config(ttl: int, maxRegistrations: int, maxSessions: int, backends: set<string>)

  /** What NewRuntime demands. */
  predicate ValidConfig(cfg: Config) {
    cfg.ttl > 0 && cfg.maxRegistrations > 0 && cfg.maxSessions > 0
  }

  /** done holds the sessions whose closeOnce has fired; closes counts calls of Close on the
      session's socket; created and reported are the two session metrics. */
  datatype Core = Core(
    closed: bool,
    regs: map<UUID, Registration>,
    sessions: map<Key, Session>,
    done: set<nat>,
    closes: multiset<nat>,
    created: nat,
    reported: nat)

  const EMPTY := Core(false, map[], map[], {}, multiset{}, 0, 0)

  /** Joining player and client into one string loses nothing. */
  lemma KeysInjective(u: UUID, a: string, v: UUID, b: string)
    requires UuidText(u) + "|" + a == UuidText(v) + "|" + b
    ensures u == v && a == b
  {
    hide UuidText;
    TextLength(u);
    TextLength(v);
    var s, t := UuidText(u) + "|" + a, UuidText(v) + "|" + b;
    assert s[..36] == UuidText(u) && t[..36] == UuidText(v);
    assert s[37..] == a && t[37..] == b;
    CanonicalPath("");
  }

  lemma TextLength(u: UUID)
    ensures |UuidText(u)| == 36
  {
    hide Hex;
  }

  predicate Carries(s: Session, reg: Registration) {
    s.backend == reg.backend && s.lease == reg.lease && s.generation == reg.generation
  }

  /** lookupRegistration. */
  datatype Lookup = Unknown | Expired | Found(reg: Registration)

  function LookupSection(c: Core, player: UUID, now: int): (Core, Lookup) {
    if player !in c.regs then (c, Unknown)
    else if now > c.regs[player].expiresAt then (c.(regs := c.regs - {player}), Expired)
    else (c, Found(c.regs[player]))
  }

  /** sessionFor, first section: reuse, drop or miss. */
  datatype Match = MatchClosed | Reuse(session: Session) | Drop(session: Session) | Miss

  function MatchSection(c: Core, key: Key, reg: Registration): (Core, Match) {
    if c.closed then (c, MatchClosed)
    else if key !in c.sessions then (c, Miss)
    else if Carries(c.sessions[key], reg) then (c, Reuse(c.sessions[key]))
    else (c.(sessions := c.sessions - {key}), Drop(c.sessions[key]))
  }

  /** sessionFor, second section: room and backend; it changes nothing. */
  predicate MayDial(cfg: Config, c: Core, reg: Registration) {
    |c.sessions| < cfg.maxSessions && reg.backend in cfg.backends
  }

  /** The body of closeOnce, with or without the metric. */
  function CloseOnce(c: Core, id: nat, metric: bool): Core {
    if id in c.done then c
    else c.(done := c.done + {id}, closes := c.closes + multiset{id},
            reported := if metric then c.reported + 1 else c.reported)
  }

  /** sessionFor, third section: the new session goes in unless something forbids it. */
  datatype Insert = Refused | Existing(session: Session) | Inserted

  function InsertSection(cfg: Config, c: Core, s: Session): (Core, Insert) {
    if c.closed then (CloseOnce(c, s.id, false), Refused)
    else if s.key in c.sessions then (CloseOnce(c, s.id, false), Existing(c.sessions[s.key]))
    else if |c.sessions| >= cfg.maxSessions then (CloseOnce(c, s.id, false), Refused)
    else (c.(sessions := c.sessions[s.key := s], created := c.created + 1), Inserted)
  }

  /** handlePutRegistration. */
  datatype Put = PutClosed | LimitReached | Installed(reg: Registration, replaced: bool)

  function PutSection(cfg: Config, c: Core, player: UUID, backend: string, owner: string, lease: string, now: int): (Core, Put) {
    var generation := if player in c.regs then c.regs[player].generation + 1 else 1;
    var reg := Registration(player, backend, owner, lease, generation, now + cfg.ttl);
    if c.closed then (c, PutClosed)
    else if player !in c.regs && |c.regs| >= cfg.maxRegistrations then (c, LimitReached)
    else (c.(regs := c.regs[player := reg]), Installed(reg, player in c.regs))
  }

  /** Whether a lease message speaks for the player's current registration. */
  predicate Speaks(c: Core, player: UUID, backend: string, owner: string, lease: string) {
    && player in c.regs
    && c.regs[player].backend == backend && c.regs[player].owner == owner && c.regs[player].lease == lease
  }

  function RefreshSection(cfg: Config, c: Core, player: UUID, backend: string, owner: string, lease: string, now: int): (Core, bool) {
    if Speaks(c, player, backend, owner, lease)
    then (c.(regs := c.regs[player := c.regs[player].(expiresAt := now + cfg.ttl)]), true)
    else (c, false)
  }

  function DeleteSection(c: Core, player: UUID, backend: string, owner: string, lease: string): (Core, bool) {
    if Speaks(c, player, backend, owner, lease) then (c.(regs := c.regs - {player}), true) else (c, false)
  }

  function ExpiredPlayers(c: Core, now: int): set<UUID> {
    set p | p in c.regs && now > c.regs[p].expiresAt
  }

  /** expireRegistrations. */
  function ExpireSection(c: Core, now: int): Core {
    c.(regs := map p | p in c.regs && !(now > c.regs[p].expiresAt) :: c.regs[p])
  }

  function SessionsOf(c: Core, player: UUID): set<Session> {
    set k | k in c.sessions && k.player == player :: c.sessions[k]
  }

  /** closeSessionsForUUID. */
  function DropPlayerSection(c: Core, player: UUID): Core {
    c.(sessions := map k | k in c.sessions && k.player != player :: c.sessions[k])
  }

  /** closeSession: removes the session if it is the current one for its key. */
  function DropSection(c: Core, s: Session): (Core, bool) {
    if s.key in c.sessions && c.sessions[s.key] == s then (c.(sessions := c.sessions - {s.key}), true) else (c, false)
  }

  predicate IsCurrent(c: Core, s: Session) {
    !c.closed && s.key in c.sessions && c.sessions[s.key] == s
  }

  function AllSessions(c: Core): set<Session> {
    set k | k in c.sessions :: c.sessions[k]
  }

  /** Close. */
  function ShutSection(c: Core): Core {
    c.(closed := true, sessions := map[], regs := map[])
  }
}
