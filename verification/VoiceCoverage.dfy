/** internal/voicechat: when the session table can hold a session whose registration is gone and
    that nobody is about to close. */
module VoiceCoverage {
  import opened Envelope
  import opened VoiceCore
  import opened VoiceMachine
  import opened VoiceRuns

  /** The player's registration is the one the session was opened under. */
  predicate Live(c: Core, s: Session) {
    && s.key.player in c.regs
    && var reg := c.regs[s.key.player];
    && s.backend == reg.backend && s.lease == reg.lease && s.generation == reg.generation
  }

  predicate Swept(st: State, player: UUID) {
    CloseUUID(player) in st.tasks
  }

  ghost predicate Covered(st: State) {
    forall k :: k in st.core.sessions ==> Live(st.core, st.core.sessions[k]) || Swept(st, k.player)
  }

  predicate HasSession(c: Core, player: UUID) {
    exists k :: k in c.sessions && k.player == player
  }

  /** The two moments that leave a session behind: a packet's lookup finds the registration expired
      while the player has a session, and sessionFor files a session for a registration that has
      been replaced or removed since it was read, after the sweep for it. */
  predicate Uncovers(cfg: Config, st: State, a: Action) {
    && Enabled(st, a)
    && match a
       case Receive(player, _, now) =>
         && player in st.core.regs && now > st.core.regs[player].expiresAt
         && HasSession(st.core, player) && !Swept(st, player)
       case InsertNew =>
         var s := st.udp.session;
         InsertSection(cfg, st.core, s).1.Inserted? && !Live(st.core, s) && !Swept(st, s.key.player)
       case _ => false
  }

  lemma CoverStep(cfg: Config, st: State, a: Action)
    requires TableOk(st) && Covered(st)
    ensures Covered(Next(cfg, st, a)) <==> !Uncovers(cfg, st, a)
  {
    if Enabled(st, a) {
      match a
      case Receive(player, client, now) => CoverReceive(cfg, st, player, client, now);
      case InsertNew => CoverInsert(cfg, st);
      case Perform(task) => CoverTask(cfg, st, task);
      case PutRegistration(_, _, _, _, _) => CoverHandler(cfg, st, a);
      case RefreshRegistration(_, _, _, _, _) => CoverHandler(cfg, st, a);
      case DeleteRegistration(_, _, _, _) => CoverHandler(cfg, st, a);
      case ExpireRegistrations(_) => CoverHandler(cfg, st, a);
      case WantClosed(_) => CoverHandler(cfg, st, a);
      case Shutdown =>
      case _ => CoverUdp(cfg, st, a);
    }
  }

  /** Fewer sessions, the same registrations, no sweep forgotten. */
  lemma CoverLess(st: State, after: State)
    requires Covered(st) && after.core.regs == st.core.regs
    requires forall k :: k in after.core.sessions ==> k in st.core.sessions && after.core.sessions[k] == st.core.sessions[k]
    requires forall k :: k in after.core.sessions && Swept(st, k.player) ==> Swept(after, k.player)
    ensures Covered(after)
  {
  }

  lemma CoverUdp(cfg: Config, st: State, a: Action)
    requires Covered(st) && Enabled(st, a)
    requires a.MatchExisting? || a.CloseReassigned? || a.CheckRoom? || a.DialFailed? || a.DialSucceeded? || a.Written?
    ensures Covered(Step(cfg, st, a))
  {
    hide Covered;
    CoverLess(st, Step(cfg, st, a));
  }

  lemma CoverTask(cfg: Config, st: State, task: Task)
    requires Covered(st) && task in st.tasks
    ensures Covered(TaskStep(st, task))
  {
    hide Covered, TaskStep;
    match task
    case CloseUUID(player) => CoverSweep(st, player);
    case CloseSession(s) => CoverDrop(st, s);
    case Closing(s, metric) => CoverClosing(st, s, metric);
  }

  lemma StillSwept(st: State, after: State, done: Task, player: UUID)
    requires st.tasks - multiset{done} <= after.tasks && done != CloseUUID(player)
    ensures Swept(st, player) ==> Swept(after, player)
  {
    if Swept(st, player) {
      assert CloseUUID(player) in st.tasks - multiset{done};
    }
  }

  lemma CoverSweep(st: State, player: UUID)
    requires Covered(st) && CloseUUID(player) in st.tasks
    ensures Covered(TaskStep(st, CloseUUID(player)))
  {
    hide Covered, ClosingAll, SessionsOf;
    var after := TaskStep(st, CloseUUID(player));
    forall k | k in after.core.sessions && Swept(st, k.player) ensures Swept(after, k.player) {
      StillSwept(st, after, CloseUUID(player), k.player);
    }
    hide Swept;
    CoverLess(st, after);
  }

  lemma CoverDrop(st: State, s: Session)
    requires Covered(st) && CloseSession(s) in st.tasks
    ensures Covered(TaskStep(st, CloseSession(s)))
  {
    hide Covered;
    var after := TaskStep(st, CloseSession(s));
    forall k | k in after.core.sessions && Swept(st, k.player) ensures Swept(after, k.player) {
      StillSwept(st, after, CloseSession(s), k.player);
    }
    hide Swept;
    CoverLess(st, after);
  }

  lemma CoverClosing(st: State, s: Session, metric: bool)
    requires Covered(st) && Closing(s, metric) in st.tasks
    ensures Covered(TaskStep(st, Closing(s, metric)))
  {
    hide Covered;
    var after := TaskStep(st, Closing(s, metric));
    forall k | k in after.core.sessions && Swept(st, k.player) ensures Swept(after, k.player) {
      StillSwept(st, after, Closing(s, metric), k.player);
    }
    hide Swept;
    CoverLess(st, after);
  }

  lemma CoverReceive(cfg: Config, st: State, player: UUID, client: string, now: int)
    requires TableOk(st) && Covered(st) && Enabled(st, Receive(player, client, now))
    ensures Covered(Step(cfg, st, Receive(player, client, now))) <==> !Uncovers(cfg, st, Receive(player, client, now))
  {
    var after := Step(cfg, st, Receive(player, client, now));
    if Uncovers(cfg, st, Receive(player, client, now)) {
      var k :| k in st.core.sessions && k.player == player;
      assert !Live(after.core, after.core.sessions[k]) && !Swept(after, k.player);
    }
  }

  lemma CoverInsert(cfg: Config, st: State)
    requires TableOk(st) && Covered(st) && Enabled(st, InsertNew)
    ensures Covered(Step(cfg, st, InsertNew)) <==> !Uncovers(cfg, st, InsertNew)
  {
    var after, s := Step(cfg, st, InsertNew), st.udp.session;
    if Uncovers(cfg, st, InsertNew) {
      assert after.core.sessions[s.key] == s && !Live(after.core, s) && !Swept(after, s.key.player);
    }
  }

  /** A handler that changes a registration for good starts the sweep for its player. */
  lemma CoverHandler(cfg: Config, st: State, a: Action)
    requires TableOk(st) && Covered(st) && Enabled(st, a)
    requires a.PutRegistration? || a.RefreshRegistration? || a.DeleteRegistration? || a.ExpireRegistrations? || a.WantClosed?
    ensures Covered(Step(cfg, st, a))
  {
    var after := Step(cfg, st, a);
    forall k | k in after.core.sessions ensures Live(after.core, after.core.sessions[k]) || Swept(after, k.player) {
      HandlerSweeps(cfg, st, a, st.core.sessions[k]);
    }
  }

  lemma HandlerSweeps(cfg: Config, st: State, a: Action, s: Session)
    requires Enabled(st, a) && (Live(st.core, s) || Swept(st, s.key.player))
    requires a.PutRegistration? || a.RefreshRegistration? || a.DeleteRegistration? || a.ExpireRegistrations? || a.WantClosed?
    ensures var after := Step(cfg, st, a); Live(after.core, s) || Swept(after, s.key.player)
  {
  }

  ghost predicate AlwaysCovered(cfg: Config, run: seq<Action>) {
    forall i :: 0 <= i <= |run| ==> Covered(After(cfg, run[..i]))
  }

  ghost predicate NeverUncovers(cfg: Config, run: seq<Action>) {
    forall i :: 0 <= i < |run| ==> !Uncovers(cfg, After(cfg, run[..i]), run[i])
  }

  lemma CoverSnoc(cfg: Config, run: seq<Action>, a: Action)
    ensures AlwaysCovered(cfg, run + [a]) <==> AlwaysCovered(cfg, run) && Covered(After(cfg, run + [a]))
    ensures NeverUncovers(cfg, run + [a]) <==> NeverUncovers(cfg, run) && !Uncovers(cfg, After(cfg, run), a)
  {
    hide After, Covered, Uncovers;
    var more := run + [a];
    assert more[..|run|] == run && more[|run|] == a && more[..|more|] == more && run[..|run|] == run;
    assert forall i :: 0 <= i <= |run| ==> more[..i] == run[..i];
  }

  /** In every run: each session in the table always either matches its player's live registration
      or has a sweep of its player under way, if and only if neither of the two moments occurs. */
  lemma {:induction false} CoveredIff(cfg: Config, run: seq<Action>)
    requires ValidConfig(cfg)
    ensures AlwaysCovered(cfg, run) <==> NeverUncovers(cfg, run)
  {
    if run != [] {
      var most, last := run[..|run| - 1], run[|run| - 1];
      assert After(cfg, run) == Next(cfg, After(cfg, most), last);
      hide *;
      AtTheEnd(cfg, most);
      assert run == most + [last];
      CoveredIff(cfg, most);
      CoverSnoc(cfg, most, last);
      if Covered(After(cfg, most)) {
        ReachableTable(cfg, most);
        CoverStep(cfg, After(cfg, most), last);
      }
    }
  }

  lemma AtTheEnd(cfg: Config, run: seq<Action>)
    ensures AlwaysCovered(cfg, run) ==> Covered(After(cfg, run))
  {
    hide Covered, After;
    assert run[..|run|] == run;
  }

  lemma ReachableTable(cfg: Config, run: seq<Action>)
    requires ValidConfig(cfg)
    ensures TableOk(After(cfg, run))
  {
    hide After, TableOk;
    Reachable(cfg, run);
  }

}
