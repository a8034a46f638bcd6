/** internal/voicechat: every interleaving of the UDP loop, the session readers, the expiry loop,
    the HTTP handlers and Close. Each action is one lock-to-unlock section, one closeOnce or one
    step outside the lock; any enabled action may come next. */
module VoiceMachine {
  import opened Envelope
  import opened VoiceCore

  /** Where the UDP loop stands inside forwardClientPacket and sessionFor. */
  datatype Udp =
    | Idle
    | Looked(key: Key, reg: Registration)
    | Reassigning(old_: Session, key: Key, reg: Registration)
    | Checking(key: Key, reg: Registration)
    | Dialing(key: Key, reg: Registration)
    | Dialed(session: Session, reg: Registration)
    | Holding(session: Session, reg: Registration)

  /** Work that some other actor has begun and not finished: a closeSessionsForUUID or
      closeSession still to enter its section, or a session still to be closed after it. */
  datatype Task =
    | CloseUUID(player: UUID)
    | CloseSession(session: Session)
    | Closing(session: Session, metric: bool)

  /** objects: all session objects ever built, by identity. inserted: those that ever entered the
      table. counted: those whose close was reported. installed: every (player, backend, lease)
      that a PUT put in place. */
  datatype State = State(
    core: Core,
    udp: Udp,
    tasks: multiset<Task>,
    objects: map<nat, Session>,
    inserted: set<nat>,
    counted: set<nat>,
    installed: set<(UUID, string, string)>)

  const INITIAL := State(EMPTY, Idle, multiset{}, map[], {}, {}, {})

  datatype Action =
    | Receive(player: UUID, client: string, now: int)
    | MatchExisting
    | CloseReassigned
    | CheckRoom
    | DialFailed
    | DialSucceeded(id: nat)
    | InsertNew
    | Written(failed: bool)
    | PutRegistration(player: UUID, backend: string, owner: string, lease: string, now: int)
    | RefreshRegistration(player: UUID, backend: string, owner: string, lease: string, now: int)
    | DeleteRegistration(player: UUID, backend: string, owner: string, lease: string)
    | ExpireRegistrations(now: int)
    | WantClosed(session: Session)
    | Perform(task: Task)
    | Shutdown

  function Ids(c: Core): set<nat> {
    set k | k in c.sessions :: c.sessions[k].id
  }

  /** Sessions that were in the table and are no more. */
  function Retired(st: State): set<nat> {
    st.inserted - Ids(st.core)
  }

  predicate Enabled(st: State, a: Action) {
    match a
    case Receive(_, _, _) => st.udp.Idle?
    case MatchExisting => st.udp.Looked?
    case CloseReassigned => st.udp.Reassigning?
    case CheckRoom => st.udp.Checking?
    case DialFailed => st.udp.Dialing?
    case DialSucceeded(id) => st.udp.Dialing? && id !in st.objects
    case InsertNew => st.udp.Dialed?
    case Written(_) => st.udp.Holding?
    case PutRegistration(_, _, _, _, _) => true
    case RefreshRegistration(_, _, _, _, _) => true
    case DeleteRegistration(_, _, _, _) => true
    case ExpireRegistrations(_) => true
    case WantClosed(s) => s.id in st.inserted && s.id in st.objects && st.objects[s.id] == s
    case Perform(task) => task in st.tasks
    case Shutdown => !st.core.closed
  }

  /** closeOnce of a session, with the bookkeeping of what was reported. */
  function CloseStep(st: State, id: nat, metric: bool): State {
    st.(core := CloseOnce(st.core, id, metric),
        counted := if metric && id !in st.core.done then st.counted + {id} else st.counted)
  }

  function ClosingAll(removed: set<Session>): multiset<Task> {
    multiset(set s | s in removed :: Closing(s, true))
  }

  function UdpStep(cfg: Config, st: State, a: Action): State
    requires Enabled(st, a)
  {
    match a
    case Receive(player, client, now) =>
      var (core, r) := LookupSection(st.core, player, now);
      st.(core := core, udp := if r.Found? then Looked(Key(player, client), r.reg) else Idle)
    case MatchExisting =>
      var (core, r) := MatchSection(st.core, st.udp.key, st.udp.reg);
      st.(core := core,
          udp := match r
                 case MatchClosed => Idle
                 case Reuse(s) => Holding(s, st.udp.reg)
                 case Drop(s) => Reassigning(s, st.udp.key, st.udp.reg)
                 case Miss => Checking(st.udp.key, st.udp.reg))
    case CloseReassigned =>
      CloseStep(st, st.udp.old_.id, true).(udp := Checking(st.udp.key, st.udp.reg))
    case CheckRoom =>
      st.(udp := if MayDial(cfg, st.core, st.udp.reg) then Dialing(st.udp.key, st.udp.reg) else Idle)
    case DialFailed => st.(udp := Idle)
    case DialSucceeded(id) =>
      var reg := st.udp.reg;
      var s := Session(id, st.udp.key, reg.backend, reg.lease, reg.generation);
      st.(objects := st.objects[id := s], udp := Dialed(s, reg))
    case InsertNew =>
      var s := st.udp.session;
      var (core, r) := InsertSection(cfg, st.core, s);
      st.(core := core,
          inserted := if r.Inserted? then st.inserted + {s.id} else st.inserted,
          udp := match r
                 case Refused => Idle
                 case Existing(e) => Holding(e, st.udp.reg)
                 case Inserted => Holding(s, st.udp.reg))
    case Written(failed) =>
      st.(udp := Idle, tasks := if failed then st.tasks + multiset{CloseSession(st.udp.session)} else st.tasks)
    case _ => st
  }

  function HandlerStep(cfg: Config, st: State, a: Action): State {
    match a
    case PutRegistration(player, backend, owner, lease, now) =>
      var (core, r) := PutSection(cfg, st.core, player, backend, owner, lease, now);
      st.(core := core,
          installed := if r.Installed? then st.installed + {(player, backend, lease)} else st.installed,
          tasks := if r.Installed? && r.replaced then st.tasks + multiset{CloseUUID(player)} else st.tasks)
    case RefreshRegistration(player, backend, owner, lease, now) =>
      st.(core := RefreshSection(cfg, st.core, player, backend, owner, lease, now).0)
    case DeleteRegistration(player, backend, owner, lease) =>
      var (core, ok) := DeleteSection(st.core, player, backend, owner, lease);
      st.(core := core, tasks := if ok then st.tasks + multiset{CloseUUID(player)} else st.tasks)
    case ExpireRegistrations(now) =>
      st.(core := ExpireSection(st.core, now),
          tasks := st.tasks + multiset(set p | p in ExpiredPlayers(st.core, now) :: CloseUUID(p)))
    case WantClosed(s) => st.(tasks := st.tasks + multiset{CloseSession(s)})
    case Shutdown => st.(core := ShutSection(st.core), tasks := st.tasks + ClosingAll(AllSessions(st.core)))
    case _ => st
  }

  function TaskStep(st: State, task: Task): State
    requires task in st.tasks
  {
    var rest := st.(tasks := st.tasks - multiset{task});
    match task
    case CloseUUID(player) =>
      rest.(core := DropPlayerSection(st.core, player), tasks := rest.tasks + ClosingAll(SessionsOf(st.core, player)))
    case CloseSession(s) =>
      var (core, removed) := DropSection(st.core, s);
      rest.(core := core, tasks := rest.tasks + multiset{Closing(s, removed)})
    case Closing(s, metric) => CloseStep(rest, s.id, metric)
  }

  function Step(cfg: Config, st: State, a: Action): State
    requires Enabled(st, a)
  {
    match a
    case Perform(task) => TaskStep(st, task)
    case PutRegistration(_, _, _, _, _) => HandlerStep(cfg, st, a)
    case RefreshRegistration(_, _, _, _, _) => HandlerStep(cfg, st, a)
    case DeleteRegistration(_, _, _, _) => HandlerStep(cfg, st, a)
    case ExpireRegistrations(_) => HandlerStep(cfg, st, a)
    case WantClosed(_) => HandlerStep(cfg, st, a)
    case Shutdown => HandlerStep(cfg, st, a)
    case _ => UdpStep(cfg, st, a)
  }

  // What every reachable state satisfies, in pieces.

  ghost predicate TableOk(st: State) {
    forall k :: k in st.core.sessions ==>
      var s := st.core.sessions[k];
      s.key == k && s.id in st.inserted && s.id in st.objects && st.objects[s.id] == s && s.id !in st.core.done
  }

  ghost predicate ObjectsOk(st: State) {
    && st.inserted <= st.objects.Keys
    && st.core.done <= st.objects.Keys
    && (forall id :: id in st.objects ==>
          st.objects[id].id == id && (st.objects[id].key.player, st.objects[id].backend, st.objects[id].lease) in st.installed)
  }

  ghost predicate MetricsOk(st: State) {
    && st.counted <= st.inserted && st.counted <= st.core.done
    && st.core.created == |st.inserted| && st.core.reported == |st.counted|
    && (forall id :: st.core.closes[id] == if id in st.core.done then 1 else 0)
  }

  ghost predicate BoundsOk(cfg: Config, st: State) {
    && |st.core.sessions| <= cfg.maxSessions && |st.core.regs| <= cfg.maxRegistrations
    && (st.core.closed ==> st.core.sessions == map[] && st.core.regs == map[])
  }

  ghost predicate RegOk(st: State, player: UUID, reg: Registration) {
    reg.player == player && (player, reg.backend, reg.lease) in st.installed
  }

  ghost predicate RegsOk(st: State) {
    forall p :: p in st.core.regs ==> RegOk(st, p, st.core.regs[p])
  }

  ghost predicate Known(st: State, s: Session) {
    s.id in st.objects && st.objects[s.id] == s
  }

  ghost predicate Gone(st: State, s: Session) {
    Known(st, s) && s.id in Retired(st)
  }

  ghost predicate UdpOk(st: State) {
    match st.udp
    case Idle => true
    case Looked(key, reg) => RegOk(st, key.player, reg)
    case Reassigning(s, key, reg) => RegOk(st, key.player, reg) && key !in st.core.sessions && Gone(st, s)
    case Checking(key, reg) => RegOk(st, key.player, reg) && key !in st.core.sessions
    case Dialing(key, reg) => RegOk(st, key.player, reg) && key !in st.core.sessions
    case Dialed(s, reg) =>
      && RegOk(st, s.key.player, reg) && s.key !in st.core.sessions && Known(st, s) && Carries(s, reg)
      && s.id !in st.inserted && s.id !in st.core.done
    case Holding(s, reg) =>
      RegOk(st, s.key.player, reg) && Known(st, s) && Carries(s, reg) && s.id in st.inserted
  }

  ghost predicate TaskOk(st: State, t: Task) {
    match t
    case CloseUUID(_) => true
    case CloseSession(s) => Known(st, s) && s.id in st.inserted
    case Closing(s, _) => Gone(st, s)
  }

  ghost predicate TasksOk(st: State) {
    forall t :: t in st.tasks ==> TaskOk(st, t)
  }

  /** Every removed session is closed, or the actor that removed it is about to close it. */
  ghost predicate HasCloser(st: State, id: nat) {
    || id in st.core.done
    || (id in st.objects && Closing(st.objects[id], true) in st.tasks)
    || (st.udp.Reassigning? && st.udp.old_.id == id)
  }

  ghost predicate PendingOk(st: State) {
    forall id :: id in Retired(st) ==> HasCloser(st, id)
  }

  ghost predicate Inv(cfg: Config, st: State) {
    && TableOk(st) && ObjectsOk(st) && MetricsOk(st) && BoundsOk(cfg, st)
    && RegsOk(st) && UdpOk(st) && TasksOk(st) && PendingOk(st)
  }

  lemma InitialInv(cfg: Config)
    requires ValidConfig(cfg)
    ensures Inv(cfg, INITIAL)
  {
  }

  /** Nothing but the UDP loop's own insertion adds to the table. */
  lemma RemovalKeeps(cfg: Config, st: State, core: Core, removed: set<Session>)
    requires Inv(cfg, st)
    requires core == st.core.(sessions := core.sessions)
    requires forall k :: k in core.sessions ==> k in st.core.sessions && core.sessions[k] == st.core.sessions[k]
    requires forall k :: k in st.core.sessions ==> k in core.sessions || st.core.sessions[k] in removed
    requires forall s :: s in removed ==> s.key in st.core.sessions && st.core.sessions[s.key] == s && s.key !in core.sessions
    ensures var after := st.(core := core, tasks := st.tasks + ClosingAll(removed));
      Inv(cfg, after) && Retired(st) <= Retired(after)
  {
    hide TableOk, ObjectsOk, MetricsOk, TasksOk, PendingOk, RegsOk, BoundsOk, UdpOk, Ids, ClosingAll, Retired;
    var after := st.(core := core, tasks := st.tasks + ClosingAll(removed));
    FewerIds(st, after);
    RemovalTable(cfg, st, after);
    RemovalTasks(st, after, removed);
    RemovalUdp(st, after);
  }

  /** The table shrinks and nothing else about sessions changes. */
  ghost predicate Shrinks(st: State, after: State) {
    && after.core == st.core.(sessions := after.core.sessions)
    && after.objects == st.objects && after.inserted == st.inserted && after.counted == st.counted && after.installed == st.installed
    && (forall k :: k in after.core.sessions ==> k in st.core.sessions && after.core.sessions[k] == st.core.sessions[k])
  }

  lemma FewerIds(st: State, after: State)
    requires Shrinks(st, after)
    ensures Ids(after.core) <= Ids(st.core) && Retired(st) <= Retired(after)
  {
    forall id | id in Ids(after.core) ensures id in Ids(st.core) {
      var k :| k in after.core.sessions && after.core.sessions[k].id == id;
      assert st.core.sessions[k].id == id;
    }
  }

  lemma RemovalTable(cfg: Config, st: State, after: State)
    requires Shrinks(st, after) && TableOk(st) && ObjectsOk(st) && MetricsOk(st) && BoundsOk(cfg, st) && RegsOk(st)
    ensures TableOk(after) && ObjectsOk(after) && MetricsOk(after) && BoundsOk(cfg, after) && RegsOk(after)
  {
    FewerKeys(st.core.sessions, after.core.sessions);
  }

  lemma RemovalUdp(st: State, after: State)
    requires Shrinks(st, after) && UdpOk(st) && after.udp == st.udp
    ensures UdpOk(after)
  {
    FewerIds(st, after);
    hide Ids;
  }

  lemma RemovalTasks(st: State, after: State, removed: set<Session>)
    requires TableOk(st) && TasksOk(st) && PendingOk(st)
    requires Shrinks(st, after) && after.udp == st.udp && after.tasks == st.tasks + ClosingAll(removed)
    requires forall k :: k in st.core.sessions ==> k in after.core.sessions || st.core.sessions[k] in removed
    requires forall s :: s in removed ==> s.key in st.core.sessions && st.core.sessions[s.key] == s && s.key !in after.core.sessions
    ensures TasksOk(after) && PendingOk(after)
  {
    FewerIds(st, after);
    forall t | t in after.tasks ensures TaskOk(after, t) {
      if t in st.tasks {
        assert TaskOk(st, t);
      } else {
        assert t in ClosingAll(removed);
        RemovedIsGone(st, after.core, t.session);
      }
    }
    forall id | id in Retired(after) ensures HasCloser(after, id) {
      if id in Retired(st) {
        assert HasCloser(st, id);
      } else {
        var k :| k in st.core.sessions && st.core.sessions[k].id == id;
        assert k in after.core.sessions ==> id in Ids(after.core);
        assert Closing(st.core.sessions[k], true) in ClosingAll(removed);
      }
    }
  }

  lemma RemovedIsGone(st: State, core: Core, s: Session)
    requires TableOk(st)
    requires forall k :: k in core.sessions ==> k in st.core.sessions && core.sessions[k] == st.core.sessions[k]
    requires s.key in st.core.sessions && st.core.sessions[s.key] == s && s.key !in core.sessions
    ensures Known(st, s) && s.id in st.inserted && s.id !in Ids(core)
  {
    forall k | k in core.sessions ensures core.sessions[k].id != s.id {
      assert core.sessions[k] == st.core.sessions[k];
    }
  }

  lemma FewerKeys<K, V>(m: map<K, V>, n: map<K, V>)
    requires n.Keys <= m.Keys
    ensures |n| <= |m|
  {
    assert m.Keys == n.Keys + (m.Keys - n.Keys);
    assert |m.Keys| == |n.Keys| + |m.Keys - n.Keys|;
  }

  lemma ReceiveInv(cfg: Config, st: State, a: Action)
    requires Inv(cfg, st) && a.Receive? && Enabled(st, a)
    ensures Inv(cfg, Step(cfg, st, a)) && Retired(st) <= Retired(Step(cfg, st, a))
  {
    hide TableOk, ObjectsOk, MetricsOk, TasksOk, PendingOk;
    var after := Step(cfg, st, a);
    FewerKeys(st.core.regs, after.core.regs);
    SameTable(st, after);
  }

  /** A step that leaves sessions, closings and objects alone keeps what is said about them. */
  lemma SameTable(st: State, after: State)
    requires TableOk(st) && ObjectsOk(st) && MetricsOk(st) && TasksOk(st) && PendingOk(st)
    requires after.core.sessions == st.core.sessions && after.core.done == st.core.done
    requires after.core.closes == st.core.closes && after.core.created == st.core.created && after.core.reported == st.core.reported
    requires after.objects == st.objects && after.inserted == st.inserted && after.counted == st.counted
    requires st.installed <= after.installed && st.tasks <= after.tasks
    requires forall t :: t in after.tasks ==> t in st.tasks || t.CloseUUID? || (t.CloseSession? && TaskOk(st, t))
    requires st.udp.Reassigning? ==> after.udp == st.udp
    ensures TableOk(after) && ObjectsOk(after) && MetricsOk(after) && TasksOk(after) && PendingOk(after)
    ensures Retired(after) == Retired(st)
  {
    forall t | t in after.tasks ensures TaskOk(after, t) {
      assert t in st.tasks ==> TaskOk(st, t);
    }
    forall id | id in Retired(after) ensures HasCloser(after, id) {
      assert HasCloser(st, id);
    }
  }

  lemma MatchInv(cfg: Config, st: State)
    requires Inv(cfg, st) && Enabled(st, MatchExisting)
    ensures Inv(cfg, Step(cfg, st, MatchExisting)) && Retired(st) <= Retired(Step(cfg, st, MatchExisting))
  {
    hide TableOk, ObjectsOk, MetricsOk, TasksOk, PendingOk, RegsOk, BoundsOk;
    var after := Step(cfg, st, MatchExisting);
    var r := MatchSection(st.core, st.udp.key, st.udp.reg).1;
    FewerIds(st, after);
    RemovalTable(cfg, st, after);
    if r.Drop? {
      MatchDrops(st, after, r.session);
    } else {
      SameTable(st, after);
      if r.Reuse? { InTableIsKnown(st, st.udp.key); }
    }
  }

  lemma InTableIsKnown(st: State, key: Key)
    requires TableOk(st) && key in st.core.sessions
    ensures var s := st.core.sessions[key]; s.key == key && Known(st, s) && s.id in st.inserted
  {
  }

  /** The session the UDP loop drops is the UDP loop's to close. */
  lemma MatchDrops(st: State, after: State, s: Session)
    requires TableOk(st) && TasksOk(st) && PendingOk(st) && Shrinks(st, after) && after.tasks == st.tasks
    requires st.udp.Looked? && after.udp == Reassigning(s, st.udp.key, st.udp.reg)
    requires st.udp.key in st.core.sessions && st.core.sessions[st.udp.key] == s
    requires after.core.sessions == st.core.sessions - {st.udp.key}
    ensures TasksOk(after) && PendingOk(after) && Gone(after, s)
  {
    FewerIds(st, after);
    RemovedIsGone(st, after.core, s);
    forall t | t in after.tasks ensures TaskOk(after, t) {
      assert TaskOk(st, t);
    }
    forall id | id in Retired(after) ensures HasCloser(after, id) {
      if id in Retired(st) {
        assert HasCloser(st, id);
      } else {
        var k :| k in st.core.sessions && st.core.sessions[k].id == id;
        assert k in after.core.sessions ==> id in Ids(after.core);
      }
    }
  }

  /** Closing a removed session, by whoever does it. */
  lemma CloseStepInv(cfg: Config, st: State, s: Session, metric: bool, udp: Udp, tasks: multiset<Task>)
    requires Inv(cfg, st) && Gone(st, s)
    requires tasks <= st.tasks && forall t :: t in st.tasks && t !in tasks ==> t == Closing(s, metric)
    requires udp == st.udp || (st.udp.Reassigning? && st.udp.old_ == s && udp == Checking(st.udp.key, st.udp.reg))
    ensures var after := CloseStep(st.(tasks := tasks), s.id, metric).(udp := udp);
      Inv(cfg, after) && Retired(after) == Retired(st)
  {
    hide TableOk, ObjectsOk, MetricsOk, TasksOk, PendingOk, RegsOk, BoundsOk;
    var after := CloseStep(st.(tasks := tasks), s.id, metric).(udp := udp);
    CloseStepTable(st, after, s, metric);
    CloseStepTasks(st, after, s, metric);
    assert RegsOk(after) && BoundsOk(cfg, after) by {
      SameRegs(cfg, st, after);
    }
  }

  lemma SameRegs(cfg: Config, st: State, after: State)
    requires RegsOk(st) && BoundsOk(cfg, st)
    requires after.core.regs == st.core.regs && after.core.sessions == st.core.sessions
    requires after.core.closed == st.core.closed && st.installed <= after.installed
    ensures RegsOk(after) && BoundsOk(cfg, after)
  {
  }

  lemma CloseStepTable(st: State, after: State, s: Session, metric: bool)
    requires TableOk(st) && ObjectsOk(st) && MetricsOk(st) && Gone(st, s)
    requires after == CloseStep(st, s.id, metric).(tasks := after.tasks, udp := after.udp)
    ensures TableOk(after) && ObjectsOk(after) && MetricsOk(after)
  {
    forall k | k in after.core.sessions ensures after.core.sessions[k].id != s.id {
      assert st.core.sessions[k].id in Ids(st.core);
    }
  }

  lemma CloseStepTasks(st: State, after: State, s: Session, metric: bool)
    requires TasksOk(st) && PendingOk(st) && ObjectsOk(st) && Gone(st, s)
    requires after == CloseStep(st, s.id, metric).(tasks := after.tasks, udp := after.udp)
    requires after.tasks <= st.tasks && forall t :: t in st.tasks && t !in after.tasks ==> t == Closing(s, metric)
    requires after.udp == st.udp || (st.udp.Reassigning? && st.udp.old_ == s && after.udp.Checking?)
    ensures TasksOk(after) && PendingOk(after)
  {
    forall t | t in after.tasks ensures TaskOk(after, t) {
      assert TaskOk(st, t);
    }
    forall id | id in Retired(after) ensures HasCloser(after, id) {
      assert HasCloser(st, id);
      if id in st.objects && Closing(st.objects[id], true) in st.tasks && id !in after.core.done {
        assert Closing(st.objects[id], true) in after.tasks;
      }
    }
  }

  lemma DialInv(cfg: Config, st: State, a: Action)
    requires Inv(cfg, st) && Enabled(st, a) && (a.CheckRoom? || a.DialFailed? || a.Written?)
    ensures Inv(cfg, Step(cfg, st, a)) && Retired(st) <= Retired(Step(cfg, st, a))
  {
    hide TableOk, ObjectsOk, MetricsOk, TasksOk, PendingOk, RegsOk, BoundsOk;
    var after := Step(cfg, st, a);
    SameTable(st, after);
    SameRegs(cfg, st, after);
  }

  lemma DialedInv(cfg: Config, st: State, id: nat)
    requires Inv(cfg, st) && Enabled(st, DialSucceeded(id))
    ensures Inv(cfg, Step(cfg, st, DialSucceeded(id))) && Retired(st) <= Retired(Step(cfg, st, DialSucceeded(id)))
  {
    hide RegsOk, BoundsOk, TasksOk, PendingOk;
    var after := Step(cfg, st, DialSucceeded(id));
    MoreObjects(st, after);
    SameRegs(cfg, st, after);
  }

  /** A new session object disturbs no task. */
  lemma MoreObjects(st: State, after: State)
    requires TasksOk(st) && PendingOk(st)
    requires forall id :: id in st.objects ==> id in after.objects && after.objects[id] == st.objects[id]
    requires after.core.sessions == st.core.sessions && st.core.done <= after.core.done && after.inserted == st.inserted
    requires after.tasks == st.tasks && !st.udp.Reassigning?
    ensures TasksOk(after) && PendingOk(after)
  {
    forall t | t in after.tasks ensures TaskOk(after, t) {
      assert TaskOk(st, t);
    }
    forall id | id in Retired(after) ensures HasCloser(after, id) {
      assert HasCloser(st, id);
    }
  }

  lemma InsertInv(cfg: Config, st: State)
    requires Inv(cfg, st) && Enabled(st, InsertNew)
    ensures Inv(cfg, Step(cfg, st, InsertNew)) && Retired(st) <= Retired(Step(cfg, st, InsertNew))
  {
    if InsertSection(cfg, st.core, st.udp.session).1.Inserted? {
      InsertedInv(cfg, st);
    } else {
      RefusedInv(cfg, st);
    }
  }

  /** A session that cannot go in is closed and forgotten. */
  lemma RefusedInv(cfg: Config, st: State)
    requires Inv(cfg, st) && Enabled(st, InsertNew) && !InsertSection(cfg, st.core, st.udp.session).1.Inserted?
    ensures Inv(cfg, Step(cfg, st, InsertNew)) && Retired(st) <= Retired(Step(cfg, st, InsertNew))
  {
    hide RegsOk, BoundsOk, TasksOk, PendingOk, TableOk, ObjectsOk, MetricsOk;
    var after := Step(cfg, st, InsertNew);
    MoreObjects(st, after);
    SameRegs(cfg, st, after);
    RefusedTable(st, after, st.udp.session.id);
  }

  lemma RefusedTable(st: State, after: State, id: nat)
    requires TableOk(st) && ObjectsOk(st) && MetricsOk(st)
    requires id in st.objects && id !in st.inserted && id !in st.core.done
    requires after.core == CloseOnce(st.core, id, false)
    requires after.objects == st.objects && after.inserted == st.inserted && after.counted == st.counted && after.installed == st.installed
    ensures TableOk(after) && ObjectsOk(after) && MetricsOk(after)
  {
  }

  lemma InsertedInv(cfg: Config, st: State)
    requires Inv(cfg, st) && Enabled(st, InsertNew) && InsertSection(cfg, st.core, st.udp.session).1.Inserted?
    ensures Inv(cfg, Step(cfg, st, InsertNew)) && Retired(st) <= Retired(Step(cfg, st, InsertNew))
  {
    hide Ids, TasksOk, PendingOk, RegsOk, BoundsOk, TableOk, ObjectsOk, MetricsOk;
    var after := Step(cfg, st, InsertNew);
    InsertIds(st.core, after.core, st.udp.session);
    InsertedTasks(st, after, st.udp.session.id);
    InsertedTable(cfg, st, after, st.udp.session);
    InsertedRegs(st, after);
  }

  lemma InsertedTable(cfg: Config, st: State, after: State, s: Session)
    requires TableOk(st) && ObjectsOk(st) && MetricsOk(st) && BoundsOk(cfg, st)
    requires Known(st, s) && s.id !in st.inserted && s.id !in st.core.done
    requires !st.core.closed && s.key !in st.core.sessions && |st.core.sessions| < cfg.maxSessions
    requires after.core == st.core.(sessions := st.core.sessions[s.key := s], created := st.core.created + 1)
    requires after.inserted == st.inserted + {s.id} && after.objects == st.objects && after.counted == st.counted
    requires after.installed == st.installed
    ensures TableOk(after) && ObjectsOk(after) && MetricsOk(after) && BoundsOk(cfg, after)
  {
    assert TableOk(after) by {
      hide MetricsOk, ObjectsOk, BoundsOk;
    }
    assert BoundsOk(cfg, after) by {
      hide MetricsOk, ObjectsOk, TableOk;
    }
    assert MetricsOk(after) && ObjectsOk(after) by {
      hide TableOk, BoundsOk;
    }
  }

  lemma InsertedRegs(st: State, after: State)
    requires RegsOk(st) && after.core.regs == st.core.regs && after.installed == st.installed
    ensures RegsOk(after)
  {
  }

  lemma InsertedTasks(st: State, after: State, id: nat)
    requires TasksOk(st) && PendingOk(st) && !st.udp.Reassigning?
    requires id !in st.inserted && after.inserted == st.inserted + {id} && Ids(after.core) == Ids(st.core) + {id}
    requires after.objects == st.objects && after.tasks == st.tasks && after.core.done == st.core.done
    ensures TasksOk(after) && PendingOk(after)
  {
    hide Ids;
    forall t | t in after.tasks ensures TaskOk(after, t) {
      assert TaskOk(st, t);
    }
    forall x | x in Retired(after) ensures HasCloser(after, x) {
      assert HasCloser(st, x);
    }
  }

  lemma InsertIds(c: Core, d: Core, s: Session)
    requires s.key !in c.sessions && d.sessions == c.sessions[s.key := s]
    ensures Ids(d) == Ids(c) + {s.id}
  {
    forall id | id in Ids(c) ensures id in Ids(d) {
      var k :| k in c.sessions && c.sessions[k].id == id;
      assert d.sessions[k].id == id;
    }
    assert d.sessions[s.key].id == s.id;
    forall id | id in Ids(d) ensures id in Ids(c) + {s.id} {
      var k :| k in d.sessions && d.sessions[k].id == id;
      assert k != s.key ==> c.sessions[k].id == id;
    }
  }

  lemma HandlerInv(cfg: Config, st: State, a: Action)
    requires ValidConfig(cfg) && Inv(cfg, st) && Enabled(st, a)
    requires a.PutRegistration? || a.RefreshRegistration? || a.DeleteRegistration? || a.ExpireRegistrations? || a.WantClosed?
    ensures Inv(cfg, Step(cfg, st, a)) && Retired(st) <= Retired(Step(cfg, st, a))
  {
    hide TableOk, ObjectsOk, MetricsOk, TasksOk, PendingOk, RegsOk, BoundsOk, UdpOk;
    var after := Step(cfg, st, a);
    HandlerRegs(cfg, st, a);
    HandlerTasks(cfg, st, a);
    HandlerFrame(cfg, st, a);
    hide Step, Enabled;
    SameTable(st, after);
  }

  lemma HandlerFrame(cfg: Config, st: State, a: Action)
    requires Enabled(st, a)
    requires a.PutRegistration? || a.RefreshRegistration? || a.DeleteRegistration? || a.ExpireRegistrations? || a.WantClosed?
    ensures var after := Step(cfg, st, a);
      && after.core == st.core.(regs := after.core.regs) && after.udp == st.udp
      && after.objects == st.objects && after.inserted == st.inserted && after.counted == st.counted
      && st.installed <= after.installed
  {
  }

  lemma HandlerTasks(cfg: Config, st: State, a: Action)
    requires Enabled(st, a)
    requires a.PutRegistration? || a.RefreshRegistration? || a.DeleteRegistration? || a.ExpireRegistrations? || a.WantClosed?
    requires ObjectsOk(st)
    ensures var after := Step(cfg, st, a);
      && st.tasks <= after.tasks
      && (forall t :: t in after.tasks ==> t in st.tasks || t.CloseUUID? || (t.CloseSession? && TaskOk(st, t)))
  {
  }

  lemma HandlerRegs(cfg: Config, st: State, a: Action)
    requires Enabled(st, a)
    requires a.PutRegistration? || a.RefreshRegistration? || a.DeleteRegistration? || a.ExpireRegistrations? || a.WantClosed?
    requires RegsOk(st) && BoundsOk(cfg, st) && UdpOk(st)
    ensures var after := Step(cfg, st, a);
      RegsOk(after) && BoundsOk(cfg, after) && UdpOk(after)
  {
    var after := Step(cfg, st, a);
    RegsBound(cfg, st, a);
    HandlerRecords(cfg, st, a);
    HandlerFrame(cfg, st, a);
    hide RegsOk, UdpOk, Step, Enabled;
    SameUdp(st, after);
  }

  lemma SameUdp(st: State, after: State)
    requires UdpOk(st)
    requires after.core.sessions == st.core.sessions && after.core.done == st.core.done
    requires after.udp == st.udp && after.objects == st.objects && after.inserted == st.inserted && st.installed <= after.installed
    ensures UdpOk(after)
  {
  }

  lemma HandlerRecords(cfg: Config, st: State, a: Action)
    requires Enabled(st, a) && RegsOk(st)
    requires a.PutRegistration? || a.RefreshRegistration? || a.DeleteRegistration? || a.ExpireRegistrations? || a.WantClosed?
    ensures RegsOk(Step(cfg, st, a)) && st.installed <= Step(cfg, st, a).installed
  {
    var after := Step(cfg, st, a);
    forall p | p in after.core.regs ensures RegOk(after, p, after.core.regs[p]) {
      assert p in st.core.regs ==> RegOk(st, p, st.core.regs[p]);
    }
  }

  lemma RegsBound(cfg: Config, st: State, a: Action)
    requires BoundsOk(cfg, st) && Enabled(st, a)
    requires a.PutRegistration? || a.RefreshRegistration? || a.DeleteRegistration? || a.ExpireRegistrations? || a.WantClosed?
    ensures |Step(cfg, st, a).core.regs| <= cfg.maxRegistrations
    ensures st.core.closed ==> Step(cfg, st, a).core.regs == map[]
  {
    var after := Step(cfg, st, a).core.regs;
    if a.PutRegistration? || a.RefreshRegistration? {
      if a.player in st.core.regs {
        assert after.Keys == st.core.regs.Keys;
      } else if after != st.core.regs {
        assert after.Keys == st.core.regs.Keys + {a.player};
      }
    } else {
      FewerKeys(st.core.regs, after);
    }
  }

  lemma ShutdownInv(cfg: Config, st: State)
    requires Inv(cfg, st) && Enabled(st, Shutdown)
    ensures Inv(cfg, Step(cfg, st, Shutdown)) && Retired(st) <= Retired(Step(cfg, st, Shutdown))
  {
    var removed := AllSessions(st.core);
    forall s | s in removed ensures s.key in st.core.sessions && st.core.sessions[s.key] == s {
      var k :| k in st.core.sessions && st.core.sessions[k] == s;
    }
    forall k | k in st.core.sessions ensures st.core.sessions[k] in removed {
    }
    RemovalKeeps(cfg, st, st.core.(sessions := map[]), removed);
    var cleared := st.(core := st.core.(sessions := map[]), tasks := st.tasks + ClosingAll(removed));
    ShutRest(cfg, cleared);
  }

  lemma ShutRest(cfg: Config, st: State)
    requires Inv(cfg, st) && st.core.sessions == map[]
    ensures var after := st.(core := ShutSection(st.core));
      Inv(cfg, after) && Retired(st) <= Retired(after)
  {
    var after := st.(core := ShutSection(st.core));
    FewerKeys(st.core.regs, map[]);
    SameTable(st, after);
  }

  lemma TaskInv(cfg: Config, st: State, task: Task)
    requires Inv(cfg, st) && task in st.tasks
    ensures Inv(cfg, TaskStep(st, task)) && Retired(st) <= Retired(TaskStep(st, task))
  {
    var rest := st.(tasks := st.tasks - multiset{task});
    assert TaskOk(st, task);
    match task
    case CloseUUID(player) =>
      ForgetTask(cfg, st, task);
      var removed := SessionsOf(st.core, player);
      forall s | s in removed
        ensures s.key in st.core.sessions && st.core.sessions[s.key] == s && s.key !in DropPlayerSection(st.core, player).sessions
      {
        var k :| k in st.core.sessions && k.player == player && st.core.sessions[k] == s;
      }
      forall k | k in st.core.sessions && k.player == player ensures st.core.sessions[k] in removed {
      }
      RemovalKeeps(cfg, rest, DropPlayerSection(st.core, player), removed);
    case CloseSession(s) =>
      ForgetTask(cfg, st, task);
      var (core, removed) := DropSection(st.core, s);
      if removed {
        RemovalKeeps(cfg, rest, core, {s});
        OneClosing(s);
      } else {
        NotCurrent(cfg, rest, s);
      }
    case Closing(s, metric) =>
      CloseStepInv(cfg, st, s, metric, st.udp, st.tasks - multiset{task});
  }

  lemma OneClosing(s: Session)
    ensures ClosingAll({s}) == multiset{Closing(s, true)}
  {
    assert (set x | x in {s} :: Closing(x, true)) == {Closing(s, true)};
  }

  /** Dropping a task that closes nothing keeps everything. */
  lemma ForgetTask(cfg: Config, st: State, task: Task)
    requires Inv(cfg, st) && task in st.tasks && !task.Closing?
    ensures Inv(cfg, st.(tasks := st.tasks - multiset{task}))
  {
    var rest := st.(tasks := st.tasks - multiset{task});
    forall t | t in rest.tasks ensures TaskOk(rest, t) {
      assert TaskOk(st, t);
    }
    forall id | id in Retired(rest) ensures HasCloser(rest, id) {
      assert HasCloser(st, id);
    }
  }

  /** A session that is not current any more has been removed. */
  lemma NotCurrent(cfg: Config, st: State, s: Session)
    requires Inv(cfg, st) && Known(st, s) && s.id in st.inserted
    requires !(s.key in st.core.sessions && st.core.sessions[s.key] == s)
    ensures Inv(cfg, st.(tasks := st.tasks + multiset{Closing(s, false)}))
  {
    var after := st.(tasks := st.tasks + multiset{Closing(s, false)});
    assert s.id !in Ids(st.core);
    forall t | t in after.tasks ensures TaskOk(after, t) {
      assert t in st.tasks ==> TaskOk(st, t);
    }
    forall id | id in Retired(after) ensures HasCloser(after, id) {
      assert HasCloser(st, id);
    }
  }

  /** Every action keeps the invariant, and a removed session stays removed. */
  lemma StepInv(cfg: Config, st: State, a: Action)
    requires ValidConfig(cfg) && Inv(cfg, st) && Enabled(st, a)
    ensures Inv(cfg, Step(cfg, st, a)) && Retired(st) <= Retired(Step(cfg, st, a))
  {
    hide Inv, Retired;
    match a
    case Receive(_, _, _) => ReceiveInv(cfg, st, a);
    case MatchExisting => MatchInv(cfg, st);
    case CloseReassigned => ReassignedInv(cfg, st);
    case CheckRoom => DialInv(cfg, st, a);
    case DialFailed => DialInv(cfg, st, a);
    case DialSucceeded(id) => DialedInv(cfg, st, id);
    case Written(_) => DialInv(cfg, st, a);
    case InsertNew => InsertInv(cfg, st);
    case Perform(task) => TaskInv(cfg, st, task);
    case Shutdown => ShutdownInv(cfg, st);
    case _ => HandlerInv(cfg, st, a);
  }

  lemma ReassignedInv(cfg: Config, st: State)
    requires Inv(cfg, st) && Enabled(st, CloseReassigned)
    ensures Inv(cfg, Step(cfg, st, CloseReassigned)) && Retired(st) <= Retired(Step(cfg, st, CloseReassigned))
  {
    CloseStepInv(cfg, st, st.udp.old_, true, Checking(st.udp.key, st.udp.reg), st.tasks);
  }
}
