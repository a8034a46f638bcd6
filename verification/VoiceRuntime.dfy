/** internal/voicechat: the runtime object. Its lower methods are the lock-to-unlock stretches of
    the original and closeOnce, on mutable fields; Perform puts them together into the steps of the
    actors, so that the theorems about runs are theorems about this object. */
module VoiceRuntime {
  import opened Envelope
  import opened VoiceCore
  import opened VoiceMachine
  import opened VoiceRuns
  import opened VoiceGauge

  class Runtime {
    const cfg: Config
    var closed: bool
    var registrations: map<UUID, Registration>
    var sessions: map<Key, Session>
    var done: set<nat>
    var closes: multiset<nat>
    var created: nat
    var reported: nat

    // Where the actors stand: the UDP loop, and work that others have begun.
    var udp: Udp
    var tasks: multiset<Task>

    // The session objects there have been, and what became of them.
    var objects: map<nat, Session>
    var inserted: set<nat>
    var counted: set<nat>
    var installed: set<(UUID, string, string)>

    /** Every action so far. */
    ghost var history: seq<Action>

    function View(): Core
      reads this
    {
      Core(closed, registrations, sessions, done, closes, created, reported)
    }

    function Now(): State
      reads this
    {
      State(View(), udp, tasks, objects, inserted, counted, installed)
    }

    /** The fields hold what the history leads to. */
    ghost predicate Valid()
      reads this
    {
      Now() == After(cfg, history)
    }

    constructor (cfg: Config)
      ensures this.cfg == cfg && Valid() && history == []
    {
      this.cfg := cfg;
      closed, registrations, sessions := false, map[], map[];
      done, closes, created, reported := {}, multiset{}, 0, 0;
      udp, tasks, objects, inserted, counted, installed := Idle, multiset{}, map[], {}, {}, {};
      history := [];
    }

    /** One step of whichever actor comes next; an action that is not possible does nothing. */
    method Perform(a: Action)
      requires Valid()
      modifies this
      ensures Valid() && history == old(history) + [a]
      ensures Now() == Next(cfg, old(Now()), a)
    {
      if Enabled(Now(), a) {
        if a.Perform? {
          PerformTask(a.task);
        } else if a.PutRegistration? || a.RefreshRegistration? || a.DeleteRegistration? || a.ExpireRegistrations? || a.WantClosed? || a.Shutdown? {
          PerformHandler(a);
        } else {
          PerformUdp(a);
        }
      }
      history := history + [a];
      assert history[..|history| - 1] == old(history);
    }

    /** Any sequence of actions, in any interleaving of the actors. */
    method PerformAll(run: seq<Action>)
      requires Valid()
      modifies this
      ensures Valid() && history == old(history) + run
      ensures old(history) == [] ==> Now() == After(cfg, run)
    {
      for i := 0 to |run|
        invariant Valid() && history == old(history) + run[..i]
      {
        Perform(run[i]);
        assert run[..i + 1] == run[..i] + [run[i]];
      }
      assert run[..|run|] == run && [] + run == run;
    }

    // The UDP loop, between one release of the lock and the next.

    method PerformUdp(a: Action)
      requires Enabled(Now(), a)
      requires a.Receive? || a.MatchExisting? || a.CloseReassigned? || a.CheckRoom? || a.DialFailed? || a.DialSucceeded?
        || a.InsertNew? || a.Written?
      modifies this
      ensures Now() == UdpStep(cfg, old(Now()), a) && history == old(history)
    {
      match a
      case Receive(player, client, now) => Receive(player, client, now);
      case MatchExisting => FindSession();
      case CloseReassigned => CloseOld();
      case CheckRoom => CheckRoom();
      case DialFailed => udp := Idle;
      case DialSucceeded(id) => NewSession(id);
      case InsertNew => FileSession();
      case Written(failed) => Wrote(failed);
    }

    method Receive(player: UUID, client: string, now: int)
      requires udp.Idle?
      modifies `udp, `registrations
      ensures Now() == UdpStep(cfg, old(Now()), Action.Receive(player, client, now))
    {
      hide LookupSection;
      var r := LookupRegistration(player, now);
      udp := if r.Found? then Looked(Key(player, client), r.reg) else Idle;
    }

    method FindSession()
      requires udp.Looked?
      modifies `udp, `sessions
      ensures Now() == UdpStep(cfg, old(Now()), MatchExisting)
    {
      hide MatchSection;
      var r := MatchSession(udp.key, udp.reg);
      match r
      case MatchClosed => udp := Idle;
      case Reuse(s) => udp := Holding(s, udp.reg);
      case Drop(s) => udp := Reassigning(s, udp.key, udp.reg);
      case Miss => udp := Checking(udp.key, udp.reg);
    }

    method CloseOld()
      requires udp.Reassigning?
      modifies `udp, `done, `closes, `reported, `counted
      ensures Now() == UdpStep(cfg, old(Now()), CloseReassigned)
    {
      hide CloseOnce;
      CloseSocket(udp.old_.id, true);
      udp := Checking(udp.key, udp.reg);
    }

    method CheckRoom()
      requires udp.Checking?
      modifies `udp
      ensures Now() == UdpStep(cfg, old(Now()), Action.CheckRoom)
    {
      var ok := HasRoom(udp.reg);
      udp := if ok then Dialing(udp.key, udp.reg) else Idle;
    }

    method NewSession(id: nat)
      requires udp.Dialing? && id !in objects
      modifies `udp, `objects
      ensures Now() == UdpStep(cfg, old(Now()), DialSucceeded(id))
    {
      var s := Session(id, udp.key, udp.reg.backend, udp.reg.lease, udp.reg.generation);
      objects := objects[id := s];
      udp := Dialed(s, udp.reg);
    }

    method FileSession()
      requires udp.Dialed?
      modifies `udp, `inserted, `sessions, `created, `done, `closes, `reported, `counted
      ensures Now() == UdpStep(cfg, old(Now()), InsertNew)
    {
      hide InsertSection;
      var r := InsertSession(udp.session);
      match r
      case Refused => udp := Idle;
      case Existing(s) => udp := Holding(s, udp.reg);
      case Inserted => inserted, udp := inserted + {udp.session.id}, Holding(udp.session, udp.reg);
    }

    method Wrote(failed: bool)
      requires udp.Holding?
      modifies `udp, `tasks
      ensures Now() == UdpStep(cfg, old(Now()), Written(failed))
    {
      if failed {
        tasks := tasks + multiset{CloseSession(udp.session)};
      }
      udp := Idle;
    }

    // The HTTP handlers, the expiry loop, the readers and Close.

    method PerformHandler(a: Action)
      requires Enabled(Now(), a)
      requires a.PutRegistration? || a.RefreshRegistration? || a.DeleteRegistration? || a.ExpireRegistrations? || a.WantClosed? || a.Shutdown?
      modifies this
      ensures Now() == HandlerStep(cfg, old(Now()), a) && history == old(history)
    {
      match a
      case PutRegistration(player, backend, owner, lease, now) => HandlePut(player, backend, owner, lease, now);
      case RefreshRegistration(player, backend, owner, lease, now) =>
        var _ := RefreshRegistration(player, backend, owner, lease, now);
      case DeleteRegistration(player, backend, owner, lease) => HandleDelete(player, backend, owner, lease);
      case ExpireRegistrations(now) => Tick(now);
      case WantClosed(s) => tasks := tasks + multiset{CloseSession(s)};
      case Shutdown => Close();
    }

    method HandlePut(player: UUID, backend: string, owner: string, lease: string, now: int)
      modifies `registrations, `installed, `tasks
      ensures Now() == HandlerStep(cfg, old(Now()), Action.PutRegistration(player, backend, owner, lease, now))
    {
      hide PutSection;
      var r := PutRegistration(player, backend, owner, lease, now);
      if r.Installed? {
        installed := installed + {(player, backend, lease)};
        if r.replaced {
          tasks := tasks + multiset{CloseUUID(player)};
        }
      }
    }

    method HandleDelete(player: UUID, backend: string, owner: string, lease: string)
      modifies `registrations, `tasks
      ensures Now() == HandlerStep(cfg, old(Now()), Action.DeleteRegistration(player, backend, owner, lease))
    {
      hide DeleteSection;
      var ok := DeleteRegistration(player, backend, owner, lease);
      if ok {
        tasks := tasks + multiset{CloseUUID(player)};
      }
    }

    method Tick(now: int)
      modifies `registrations, `tasks
      ensures Now() == HandlerStep(cfg, old(Now()), Action.ExpireRegistrations(now))
    {
      hide ExpireSection, ExpiredPlayers;
      var expired := ExpireRegistrations(now);
      tasks := tasks + multiset(set p | p in expired :: CloseUUID(p));
    }

    method Close()
      requires !closed
      modifies `closed, `sessions, `registrations, `tasks
      ensures Now() == HandlerStep(cfg, old(Now()), Shutdown)
    {
      hide ShutSection, AllSessions, ClosingAll;
      var removed := Shut();
      tasks := tasks + ClosingAll(removed);
    }

    // Work begun earlier.

    method PerformTask(task: Task)
      requires task in tasks
      modifies this
      ensures Now() == TaskStep(old(Now()), task) && history == old(history)
    {
      match task
      case CloseUUID(player) => SweepPlayer(player);
      case CloseSession(s) => SweepSession(s);
      case Closing(s, metric) => FinishClose(s, metric);
    }

    method SweepPlayer(player: UUID)
      requires CloseUUID(player) in tasks
      modifies `sessions, `tasks
      ensures Now() == TaskStep(old(Now()), CloseUUID(player))
    {
      hide DropPlayerSection, SessionsOf, ClosingAll;
      var removed := DropPlayer(player);
      tasks := tasks - multiset{CloseUUID(player)} + ClosingAll(removed);
    }

    method SweepSession(s: Session)
      requires CloseSession(s) in tasks
      modifies `sessions, `tasks
      ensures Now() == TaskStep(old(Now()), CloseSession(s))
    {
      hide DropSection;
      var removed := DropSession(s);
      tasks := tasks - multiset{CloseSession(s)} + multiset{Closing(s, removed)};
    }

    method FinishClose(s: Session, metric: bool)
      requires Closing(s, metric) in tasks
      modifies `done, `closes, `reported, `counted, `tasks
      ensures Now() == TaskStep(old(Now()), Closing(s, metric))
    {
      hide CloseOnce;
      CloseSocket(s.id, metric);
      tasks := tasks - multiset{Closing(s, metric)};
    }

    /** The reader's check before it passes a packet on: a session that passes is open, and has been
        in the table at every moment since it entered. */
    method SessionIsCurrent(s: Session) returns (ok: bool)
      requires Valid() && ValidConfig(cfg)
      ensures ok ==> s.id !in done && closes[s.id] == 0
      ensures ok ==> forall i, j :: 0 <= i <= j <= |history| && InTable(After(cfg, history[..i]).core, s) ==>
        InTable(After(cfg, history[..j]).core, s)
      ensures !ok ==> closed || !InTable(View(), s)
    {
      ok := !closed && s.key in sessions && sessions[s.key] == s;
      if ok {
        TablesSafe(cfg, history);
        forall i, j | 0 <= i <= j <= |history| && InTable(After(cfg, history[..i]).core, s)
          ensures InTable(After(cfg, history[..j]).core, s)
        {
          hide After, InTable;
          StayedIn(cfg, history, i, j, s);
        }
      }
    }

    method LookupRegistration(player: UUID, now: int) returns (r: Lookup)
      modifies `registrations
      ensures (View(), r) == LookupSection(old(View()), player, now)
    {
      if player !in registrations {
        return Unknown;
      }
      var reg := registrations[player];
      if now > reg.expiresAt {
        registrations := registrations - {player};
        return Expired;
      }
      return Found(reg);
    }

    method MatchSession(key: Key, reg: Registration) returns (r: Match)
      modifies `sessions
      ensures (View(), r) == MatchSection(old(View()), key, reg)
    {
      if closed {
        return MatchClosed;
      }
      if key in sessions {
        var s := sessions[key];
        if s.backend == reg.backend && s.lease == reg.lease && s.generation == reg.generation {
          return Reuse(s);
        }
        sessions := sessions - {key};
        return Drop(s);
      }
      return Miss;
    }

    method HasRoom(reg: Registration) returns (ok: bool)
      ensures ok == MayDial(cfg, View(), reg)
    {
      if |sessions| >= cfg.maxSessions {
        return false;
      }
      return reg.backend in cfg.backends;
    }

    /** close and closeWithoutMetric of a session. */
    method CloseSocket(id: nat, metric: bool)
      modifies `done, `closes, `reported, `counted
      ensures View() == CloseOnce(old(View()), id, metric)
      ensures counted == if metric && id !in old(done) then old(counted) + {id} else old(counted)
    {
      if id !in done {
        done, closes := done + {id}, closes + multiset{id};
        if metric {
          reported, counted := reported + 1, counted + {id};
        }
      }
    }

    method InsertSession(s: Session) returns (r: Insert)
      modifies `sessions, `created, `done, `closes, `reported, `counted
      ensures (View(), r) == InsertSection(cfg, old(View()), s) && counted == old(counted)
    {
      if closed {
        CloseSocket(s.id, false);
        return Refused;
      }
      if s.key in sessions {
        CloseSocket(s.id, false);
        return Existing(sessions[s.key]);
      }
      if |sessions| >= cfg.maxSessions {
        CloseSocket(s.id, false);
        return Refused;
      }
      sessions := sessions[s.key := s];
      created := created + 1;
      return Inserted;
    }

    method PutRegistration(player: UUID, backend: string, owner: string, lease: string, now: int) returns (r: Put)
      modifies `registrations
      ensures (View(), r) == PutSection(cfg, old(View()), player, backend, owner, lease, now)
    {
      var generation := 1;
      var replaced := false;
      if closed {
        return PutClosed;
      }
      if player in registrations {
        generation := registrations[player].generation + 1;
        replaced := true;
      } else if |registrations| >= cfg.maxRegistrations {
        return LimitReached;
      }
      var reg := Registration(player, backend, owner, lease, generation, now + cfg.ttl);
      registrations := registrations[player := reg];
      return Installed(reg, replaced);
    }

    method RefreshRegistration(player: UUID, backend: string, owner: string, lease: string, now: int) returns (ok: bool)
      modifies `registrations
      ensures (View(), ok) == RefreshSection(cfg, old(View()), player, backend, owner, lease, now)
    {
      if player !in registrations {
        return false;
      }
      var reg := registrations[player];
      if reg.backend != backend || reg.owner != owner || reg.lease != lease {
        return false;
      }
      registrations := registrations[player := reg.(expiresAt := now + cfg.ttl)];
      return true;
    }

    method DeleteRegistration(player: UUID, backend: string, owner: string, lease: string) returns (ok: bool)
      modifies `registrations
      ensures (View(), ok) == DeleteSection(old(View()), player, backend, owner, lease)
    {
      if player !in registrations {
        return false;
      }
      var reg := registrations[player];
      if reg.backend != backend || reg.owner != owner || reg.lease != lease {
        return false;
      }
      registrations := registrations - {player};
      return true;
    }

    /** The deleting loop over the registration map, in whatever order it yields its keys. */
    method ExpireRegistrations(now: int) returns (expired: set<UUID>)
      modifies `registrations
      ensures View() == ExpireSection(old(View()), now)
      ensures expired == ExpiredPlayers(old(View()), now)
    {
      var before := registrations;
      var rest := registrations.Keys;
      expired := {};
      while rest != {}
        invariant rest <= before.Keys
        invariant expired == set p | p in before && p !in rest && now > before[p].expiresAt
        invariant registrations == map p | p in before && p !in expired :: before[p]
        invariant View() == old(View()).(regs := registrations)
        decreases rest
      {
        var p :| p in rest;
        rest := rest - {p};
        if now > registrations[p].expiresAt {
          registrations := registrations - {p};
          expired := expired + {p};
        }
      }
    }

    /** The deleting loop of closeSessionsForUUID. */
    method DropPlayer(player: UUID) returns (removed: set<Session>)
      modifies `sessions
      ensures View() == DropPlayerSection(old(View()), player)
      ensures removed == SessionsOf(old(View()), player)
    {
      var before := sessions;
      var rest := sessions.Keys;
      removed := {};
      while rest != {}
        invariant rest <= before.Keys
        invariant removed == set k | k in before && k !in rest && k.player == player :: before[k]
        invariant sessions == map k | k in before && (k in rest || k.player != player) :: before[k]
        invariant View() == old(View()).(sessions := sessions)
        decreases rest
      {
        var k :| k in rest;
        rest := rest - {k};
        if k.player == player {
          removed := removed + {before[k]};
          sessions := sessions - {k};
        }
      }
    }

    method DropSession(s: Session) returns (removed: bool)
      modifies `sessions
      ensures (View(), removed) == DropSection(old(View()), s)
    {
      if s.key in sessions && sessions[s.key] == s {
        sessions := sessions - {s.key};
        return true;
      }
      return false;
    }

    method Shut() returns (removed: set<Session>)
      modifies `closed, `sessions, `registrations
      ensures View() == ShutSection(old(View()))
      ensures removed == AllSessions(old(View()))
    {
      removed := set k | k in sessions :: sessions[k];
      closed, sessions, registrations := true, map[], map[];
    }
  }

  lemma StayedIn(cfg: Config, run: seq<Action>, i: nat, j: nat, s: Session)
    requires ValidConfig(cfg) && i <= j <= |run| && InTable(After(cfg, run).core, s) && InTable(After(cfg, run[..i]).core, s)
    ensures InTable(After(cfg, run[..j]).core, s)
  {
    hide After, InTable, IsCurrent;
    if !InTable(After(cfg, run[..j]).core, s) {
      NeverBack(cfg, run, i, j, s);
    }
  }

  /** Whatever has been performed on the object: its tables are within their limits, its sessions
      open, its sockets closed at most once, and its metrics obey the gauge law. */
  lemma ObjectSafe(r: Runtime)
    requires r.Valid() && ValidConfig(r.cfg)
    ensures |r.sessions| <= r.cfg.maxSessions && |r.registrations| <= r.cfg.maxRegistrations
    ensures forall k :: k in r.sessions ==> r.sessions[k].key == k && r.closes[r.sessions[k].id] == 0
    ensures forall id :: r.closes[id] <= 1
    ensures r.created - r.reported == |r.sessions| + |Pending(r.Now())| + |Stolen(r.Now())|
  {
    TablesSafe(r.cfg, r.history);
    GaugeLaw(r.cfg, r.history);
    hide After;
  }
}
