/** internal/voicechat over whole runs: what holds after any sequence of actions, however the actors
    interleave. An action that is not enabled when its turn comes does nothing. */
module VoiceRuns {
  import opened GoText
  import opened Envelope
  import opened VoiceCore
  import opened VoiceMachine

  function Next(cfg: Config, st: State, a: Action): State {
    if Enabled(st, a) then Step(cfg, st, a) else st
  }

  function After(cfg: Config, run: seq<Action>): State {
    if run == [] then INITIAL else Next(cfg, After(cfg, run[..|run| - 1]), run[|run| - 1])
  }

  lemma {:induction false} Reachable(cfg: Config, run: seq<Action>)
    requires ValidConfig(cfg)
    ensures Inv(cfg, After(cfg, run))
  {
    if run == [] {
      InitialInv(cfg);
    } else {
      hide Inv, Step, Enabled;
      var before := After(cfg, run[..|run| - 1]);
      Reachable(cfg, run[..|run| - 1]);
      if Enabled(before, run[|run| - 1]) {
        StepInv(cfg, before, run[|run| - 1]);
      }
    }
  }

  /** Every session in the table is open and filed under its own player and client, no table
      outgrows its limit, and no socket is ever closed twice. */
  lemma TablesSafe(cfg: Config, run: seq<Action>)
    requires ValidConfig(cfg)
    ensures var c := After(cfg, run).core;
      && (forall k :: k in c.sessions ==> c.sessions[k].key == k && c.sessions[k].id !in c.done && c.closes[c.sessions[k].id] == 0)
      && |c.sessions| <= cfg.maxSessions && |c.regs| <= cfg.maxRegistrations
      && (forall id :: c.closes[id] <= 1)
  {
    Reachable(cfg, run);
  }

  // What a later state still knows of an earlier one.

  ghost predicate Later(st: State, after: State) {
    && Retired(st) <= Retired(after)
    && Keeps(st, after)
  }

  ghost predicate Keeps(st: State, after: State) {
    && st.inserted <= after.inserted
    && (st.core.closed ==> after.core.closed)
    && (forall id :: id in st.objects ==> id in after.objects && after.objects[id] == st.objects[id])
  }

  lemma StepKeeps(cfg: Config, st: State, a: Action)
    requires Enabled(st, a)
    ensures Keeps(st, Step(cfg, st, a))
  {
    match a
    case Perform(task) =>
      match task {
        case CloseUUID(_) =>
        case CloseSession(_) =>
        case Closing(_, _) =>
      }
    case _ =>
  }

  lemma Reflexive(st: State)
    ensures Keeps(st, st)
  {
  }

  lemma StepLater(cfg: Config, st: State, a: Action)
    requires ValidConfig(cfg) && Inv(cfg, st)
    ensures Later(st, Next(cfg, st, a))
  {
    hide Inv, Retired, Step, Keeps;
    if Enabled(st, a) {
      StepInv(cfg, st, a);
      StepKeeps(cfg, st, a);
    } else {
      assert Keeps(st, st) by { Reflexive(st); }
    }
  }

  lemma {:induction false} RunLater(cfg: Config, run: seq<Action>, i: nat)
    requires ValidConfig(cfg) && i <= |run|
    ensures Later(After(cfg, run[..i]), After(cfg, run))
  {
    if i == |run| {
      assert run[..i] == run;
    } else {
      hide Inv, Next;
      var most := run[..|run| - 1];
      assert most[..i] == run[..i];
      RunLater(cfg, most, i);
      Reachable(cfg, most);
      StepLater(cfg, After(cfg, most), run[|run| - 1]);
    }
  }

  predicate InTable(c: Core, s: Session) {
    s.key in c.sessions && c.sessions[s.key] == s
  }

  /** A session that was in the table at some moment and out of it at a later one is never in it
      again, and never passes sessionIsCurrent again. */
  lemma NeverBack(cfg: Config, run: seq<Action>, i: nat, j: nat, s: Session)
    requires ValidConfig(cfg) && i <= j <= |run|
    requires InTable(After(cfg, run[..i]).core, s) && !InTable(After(cfg, run[..j]).core, s)
    ensures !InTable(After(cfg, run).core, s) && !IsCurrent(After(cfg, run).core, s)
  {
    hide After;
    var then_, out, now := After(cfg, run[..i]), After(cfg, run[..j]), After(cfg, run);
    Reachable(cfg, run[..i]);
    Reachable(cfg, run[..j]);
    RunLater(cfg, run[..j], i);
    assert run[..j][..i] == run[..i];
    RunLater(cfg, run, j);
    OutIsRetired(cfg, then_, out, s);
    assert InTable(now.core, s) ==> s.id in Ids(now.core);
  }

  lemma OutIsRetired(cfg: Config, st: State, after: State, s: Session)
    requires Inv(cfg, st) && Inv(cfg, after) && Later(st, after)
    requires InTable(st.core, s) && !InTable(after.core, s)
    ensures s.id in Retired(after)
  {
    forall k | k in after.core.sessions ensures after.core.sessions[k].id != s.id {
      assert Known(after, after.core.sessions[k]);
    }
  }

  /** After Close both tables stay empty. */
  lemma ClosedForever(cfg: Config, run: seq<Action>, i: nat)
    requires ValidConfig(cfg) && i <= |run| && After(cfg, run[..i]).core.closed
    ensures var c := After(cfg, run).core; c.closed && c.sessions == map[] && c.regs == map[]
  {
    RunLater(cfg, run, i);
    Reachable(cfg, run);
  }

  // What sessionFor hands to the packet it was called for.

  /** The packet the UDP loop is busy with: where it came from and the registration read for it. */
  function Request(udp: Udp): Option<(Key, Registration)> {
    match udp
    case Idle => None
    case Looked(key, reg) => Some((key, reg))
    case Reassigning(_, key, reg) => Some((key, reg))
    case Checking(key, reg) => Some((key, reg))
    case Dialing(key, reg) => Some((key, reg))
    case Dialed(s, reg) => Some((s.key, reg))
    case Holding(s, reg) => Some((s.key, reg))
  }

  lemma RequestStep(cfg: Config, st: State, a: Action)
    requires TableOk(st) && !a.Receive?
    ensures Request(Next(cfg, st, a).udp) == None || Request(Next(cfg, st, a).udp) == Request(st.udp)
  {
    if Enabled(st, a) {
      match a
      case Perform(task) =>
        match task {
          case CloseUUID(_) =>
          case CloseSession(_) =>
          case Closing(_, _) =>
        }
      case _ =>
    }
  }

  lemma {:induction false} RequestRun(cfg: Config, run: seq<Action>, i: nat)
    requires ValidConfig(cfg) && i <= |run|
    requires forall m :: i <= m < |run| ==> !run[m].Receive?
    ensures Request(After(cfg, run).udp) == None || Request(After(cfg, run).udp) == Request(After(cfg, run[..i]).udp)
  {
    if i == |run| {
      assert run[..i] == run;
    } else {
      hide Next, Request;
      var most := run[..|run| - 1];
      assert most[..i] == run[..i];
      RequestRun(cfg, most, i);
      Reachable(cfg, most);
      RequestStep(cfg, After(cfg, most), run[|run| - 1]);
    }
  }

  /** Action m of the run is a PUT that installed this player, backend and lease. */
  ghost predicate Installs(cfg: Config, run: seq<Action>, m: nat, player: UUID, backend: string, lease: string) {
    && m < |run| && run[m].PutRegistration?
    && run[m].player == player && run[m].backend == backend && run[m].lease == lease
    && PutSection(cfg, After(cfg, run[..m]).core, player, backend, run[m].owner, lease, run[m].now).1.Installed?
  }

  lemma InstallStep(cfg: Config, st: State, a: Action, player: UUID, backend: string, lease: string)
    requires (player, backend, lease) in Next(cfg, st, a).installed && (player, backend, lease) !in st.installed
    ensures a.PutRegistration? && a.player == player && a.backend == backend && a.lease == lease
    ensures PutSection(cfg, st.core, player, backend, a.owner, lease, a.now).1.Installed?
  {
    match a
    case Perform(task) =>
      match task {
        case CloseUUID(_) =>
        case CloseSession(_) =>
        case Closing(_, _) =>
      }
    case _ =>
  }

  lemma {:induction false} InstalledByPut(cfg: Config, run: seq<Action>, player: UUID, backend: string, lease: string) returns (m: nat)
    requires (player, backend, lease) in After(cfg, run).installed
    ensures Installs(cfg, run, m, player, backend, lease)
  {
    hide Next, PutSection;
    var most := run[..|run| - 1];
    if (player, backend, lease) in After(cfg, most).installed {
      m := InstalledByPut(cfg, most, player, backend, lease);
      assert most[..m] == run[..m];
    } else {
      InstallStep(cfg, After(cfg, most), run[|run| - 1], player, backend, lease);
      m := |run| - 1;
    }
  }

  /** When the UDP loop, having received a packet at action i and none since, holds a session for it,
      that session is for the packet's player and client, carries exactly the backend, lease and
      generation of the registration that was live when the packet came in, and the pair of backend
      and lease was installed for that player by an earlier PUT. */
  lemma SessionForExact(cfg: Config, run: seq<Action>, i: nat) returns (m: nat)
    requires ValidConfig(cfg) && i < |run| && run[i].Receive? && After(cfg, run[..i]).udp.Idle?
    requires forall m :: i < m < |run| ==> !run[m].Receive?
    requires After(cfg, run).udp.Holding?
    ensures var regs := After(cfg, run[..i]).core.regs;
      var s := After(cfg, run).udp.session;
      && run[i].player in regs && run[i].now <= regs[run[i].player].expiresAt
      && s.key == Key(run[i].player, run[i].client)
      && var reg := regs[run[i].player];
      && s.backend == reg.backend && s.lease == reg.lease && s.generation == reg.generation
      && Installs(cfg, run, m, run[i].player, s.backend, s.lease)
  {
    hide Installs;
    var st := After(cfg, run);
    RequestRun(cfg, run, i + 1);
    assert run[..i + 1][..i] == run[..i];
    Reachable(cfg, run);
    var s := st.udp.session;
    assert (s.key.player, s.backend, s.lease) in st.installed;
    m := InstalledByPut(cfg, run, s.key.player, s.backend, s.lease);
  }

  /** A dialled session is turned away only by a closed runtime or an exactly full table: with one
      UDP loop, another session for the same key is never there. */
  lemma InsertOutcome(cfg: Config, run: seq<Action>)
    requires ValidConfig(cfg) && After(cfg, run).udp.Dialed?
    ensures var st := After(cfg, run);
      var r := InsertSection(cfg, st.core, st.udp.session).1;
      && !r.Existing?
      && (r.Refused? <==> st.core.closed || |st.core.sessions| == cfg.maxSessions)
  {
    Reachable(cfg, run);
    var st := After(cfg, run);
    assert UdpOk(st) && BoundsOk(cfg, st) by { hide After, UdpOk, BoundsOk; }
    hide After, Inv;
  }

  /** A PUT is turned away only by a closed runtime, or for a new player by an exactly full table. */
  lemma PutOutcome(cfg: Config, run: seq<Action>, player: UUID, backend: string, owner: string, lease: string, now: int)
    requires ValidConfig(cfg)
    ensures var c := After(cfg, run).core;
      var r := PutSection(cfg, c, player, backend, owner, lease, now).1;
      && !r.Installed? <==> c.closed || (player !in c.regs && |c.regs| == cfg.maxRegistrations)
  {
    Reachable(cfg, run);
    hide After;
  }

  // What comes into the table and what goes out of it, action by action.

  /** The registration the UDP loop has read is not the one the session was opened under. */
  predicate Outdated(s: Session, reg: Registration) {
    s.backend != reg.backend || s.lease != reg.lease || s.generation != reg.generation
  }

  /** A session leaves the table exactly when the UDP loop finds it outdated for a packet of its own
      key, when its own player's sessions are swept, when it is itself being closed, or on Close.
      Until then its place is its own. */
  lemma LeavesIff(cfg: Config, st: State, a: Action, k: Key)
    requires TableOk(st) && k in st.core.sessions
    ensures var s, after := st.core.sessions[k], Next(cfg, st, a).core.sessions;
      && (k !in after <==>
            || (a.MatchExisting? && st.udp.Looked? && st.udp.key == k && !st.core.closed && Outdated(s, st.udp.reg))
            || (a == Perform(CloseUUID(k.player)) && CloseUUID(k.player) in st.tasks)
            || (a == Perform(CloseSession(s)) && CloseSession(s) in st.tasks)
            || (a.Shutdown? && !st.core.closed))
      && (k in after ==> after[k] == s)
  {
    if Enabled(st, a) {
      if a.Perform? {
        LeavesByTask(st, a.task, k);
      } else if OnRegistrations(a) {
        HandlerFrame(cfg, st, a);
        hide Step, Enabled;
      } else {
        hide PutSection, RefreshSection, DeleteSection, ExpireSection;
      }
    }
  }

  predicate OnRegistrations(a: Action) {
    a.PutRegistration? || a.RefreshRegistration? || a.DeleteRegistration? || a.ExpireRegistrations? || a.WantClosed?
  }

  lemma LeavesByTask(st: State, task: Task, k: Key)
    requires TableOk(st) && k in st.core.sessions && task in st.tasks
    ensures var s, after := st.core.sessions[k], TaskStep(st, task).core.sessions;
      && (k !in after <==> task == CloseUUID(k.player) || task == CloseSession(s))
      && (k in after ==> after[k] == s)
  {
    match task
    case CloseUUID(_) =>
    case CloseSession(_) =>
    case Closing(_, _) =>
  }

  /** A session enters the table exactly when the UDP loop files one it has dialled, with the runtime
      open, its key free and room left. */
  lemma EntersIff(cfg: Config, st: State, a: Action, k: Key)
    requires k !in st.core.sessions
    ensures var after := Next(cfg, st, a).core.sessions;
      && (k in after <==>
            && a.InsertNew? && st.udp.Dialed? && st.udp.session.key == k
            && !st.core.closed && |st.core.sessions| < cfg.maxSessions)
      && (k in after ==> after[k] == st.udp.session)
  {
    if Enabled(st, a) {
      if a.Perform? {
        TaskAddsNothing(st, a.task, k);
      } else if OnRegistrations(a) {
        HandlerFrame(cfg, st, a);
        hide Step, Enabled;
      } else if a.InsertNew? {
        hide MatchSection, LookupSection;
      } else {
        hide InsertSection, PutSection, RefreshSection, DeleteSection, ExpireSection;
      }
    }
  }

  lemma TaskAddsNothing(st: State, task: Task, k: Key)
    requires k !in st.core.sessions && task in st.tasks
    ensures k !in TaskStep(st, task).core.sessions
  {
    match task
    case CloseUUID(_) =>
    case CloseSession(_) =>
    case Closing(_, _) =>
  }

  ghost predicate Configured(cfg: Config, st: State) {
    && (forall id :: id in st.objects ==> st.objects[id].backend in cfg.backends)
    && (st.udp.Dialing? ==> st.udp.reg.backend in cfg.backends)
  }

  lemma ConfiguredStep(cfg: Config, st: State, a: Action)
    requires Configured(cfg, st)
    ensures Configured(cfg, Next(cfg, st, a))
  {
    if Enabled(st, a) {
      match a
      case Perform(task) =>
        match task {
          case CloseUUID(_) =>
          case CloseSession(_) =>
          case Closing(_, _) =>
        }
      case _ =>
    }
  }

  /** Every session ever dialled goes to a configured backend, whatever the registrations name. */
  lemma {:induction false} BackendsConfigured(cfg: Config, run: seq<Action>)
    ensures Configured(cfg, After(cfg, run))
  {
    if run != [] {
      hide Next, Configured;
      BackendsConfigured(cfg, run[..|run| - 1]);
      ConfiguredStep(cfg, After(cfg, run[..|run| - 1]), run[|run| - 1]);
    }
  }

  /** A run whose states are written out. */
  lemma {:induction false} Trace(cfg: Config, run: seq<Action>, states: seq<State>)
    requires |states| == |run| + 1 && states[0] == INITIAL
    requires forall i :: 0 <= i < |run| ==> states[i + 1] == Next(cfg, states[i], run[i])
    ensures After(cfg, run) == states[|run|]
  {
    if run != [] {
      hide Next;
      Trace(cfg, run[..|run| - 1], states[..|run|]);
    }
  }
}
