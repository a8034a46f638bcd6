/** internal/voicechat: how the session metrics relate to the session table in every interleaving. */
module VoiceGauge {
  import opened VoiceCore
  import opened VoiceMachine
  import opened VoiceRuns

  /** Removed sessions whose close has not happened yet. */
  function Pending(st: State): set<nat> {
    Retired(st) - st.core.done
  }

  /** Removed sessions that were closed without the metric before their remover could report them. */
  function Stolen(st: State): set<nat> {
    Retired(st) * st.core.done - st.counted
  }

  function IdsAt(sessions: map<Key, Session>, keys: set<Key>): set<nat>
    requires keys <= sessions.Keys
  {
    set k | k in keys :: sessions[k].id
  }

  ghost predicate DistinctIds(sessions: map<Key, Session>) {
    forall k, l :: k in sessions && l in sessions && k != l ==> sessions[k].id != sessions[l].id
  }

  lemma {:induction false} CountIds(sessions: map<Key, Session>, keys: set<Key>)
    requires keys <= sessions.Keys && DistinctIds(sessions)
    ensures |IdsAt(sessions, keys)| == |keys|
    decreases keys
  {
    if keys == {} {
      assert IdsAt(sessions, keys) == {};
    } else {
      var k :| k in keys;
      var rest := keys - {k};
      CountIds(sessions, rest);
      TakeOut(sessions, keys, k);
      assert sessions[k].id !in IdsAt(sessions, rest);
    }
  }

  lemma TakeOut(sessions: map<Key, Session>, keys: set<Key>, k: Key)
    requires keys <= sessions.Keys && k in keys
    ensures IdsAt(sessions, keys) == IdsAt(sessions, keys - {k}) + {sessions[k].id}
  {
    forall id | id in IdsAt(sessions, keys) ensures id in IdsAt(sessions, keys - {k}) + {sessions[k].id} {
      var l :| l in keys && sessions[l].id == id;
      assert l != k ==> l in keys - {k};
    }
  }

  lemma TableIds(st: State)
    requires TableOk(st)
    ensures |Ids(st.core)| == |st.core.sessions| && Ids(st.core) <= st.inserted && Ids(st.core) !! st.core.done
  {
    assert DistinctIds(st.core.sessions);
    CountIds(st.core.sessions, st.core.sessions.Keys);
    assert Ids(st.core) == IdsAt(st.core.sessions, st.core.sessions.Keys);
  }

  /** Sessions created minus sessions reported closed is the table, plus the removed sessions still
      to be closed, plus those closed unreported: never less than the table. */
  lemma GaugeLaw(cfg: Config, run: seq<Action>)
    requires ValidConfig(cfg)
    ensures var st := After(cfg, run);
      && st.core.created - st.core.reported == |st.core.sessions| + |Pending(st)| + |Stolen(st)|
      && st.core.created - st.core.reported >= |st.core.sessions|
  {
    Reachable(cfg, run);
    hide After;
    Partition(After(cfg, run));
  }

  lemma Partition(st: State)
    requires TableOk(st) && MetricsOk(st)
    ensures st.core.created - st.core.reported == |st.core.sessions| + |Pending(st)| + |Stolen(st)|
  {
    TableIds(st);
    Split(st.inserted, Ids(st.core), st.core.done, st.counted);
  }

  lemma Split(inserted: set<nat>, ids: set<nat>, done: set<nat>, counted: set<nat>)
    requires ids <= inserted && counted <= inserted && counted <= done && ids !! done
    ensures |inserted| == |ids| + |counted| + |inserted - ids - done| + |(inserted - ids) * done - counted|
  {
    assert inserted == ids + counted + (inserted - ids - done) + ((inserted - ids) * done - counted);
    Disjoint4(ids, counted, inserted - ids - done, (inserted - ids) * done - counted);
  }

  lemma Disjoint4(a: set<nat>, b: set<nat>, c: set<nat>, d: set<nat>)
    requires a !! b !! c !! d
    ensures |a + b + c + d| == |a| + |b| + |c| + |d|
  {
    assert |a + b| == |a| + |b|;
    assert |a + b + c| == |a + b| + |c|;
  }

  // Exactly which actions make the gauge drift.

  /** closeWithoutMetric on a removed session that is not closed yet. */
  predicate Steals(st: State, a: Action) {
    a.Perform? && a.task in st.tasks && a.task.Closing? && !a.task.metric && a.task.session.id !in st.core.done
  }

  function StolenBy(st: State, a: Action): set<nat> {
    if Steals(st, a) then {a.task.session.id} else {}
  }

  /** What the metrics and the table make of one action: sessions leave the table unclosed, and only
      sessions outside it are closed. */
  lemma StolenStep(cfg: Config, st: State, a: Action)
    requires ValidConfig(cfg) && Inv(cfg, st)
    ensures Stolen(Next(cfg, st, a)) == Stolen(st) + StolenBy(st, a)
  {
    hide Inv, Stolen;
    if !Enabled(st, a) {
    } else if a.Perform? && a.task.Closing? {
      StolenClosing(cfg, st, a.task);
    } else if a.CloseReassigned? {
      StolenReassigned(cfg, st);
    } else {
      StolenOther(cfg, st, a);
    }
  }

  lemma StolenClosing(cfg: Config, st: State, task: Task)
    requires Inv(cfg, st) && task in st.tasks && task.Closing?
    ensures Stolen(TaskStep(st, task)) == Stolen(st) + StolenBy(st, Perform(task))
  {
    assert TaskOk(st, task) && MetricsOk(st);
    ClosingEffect(st, task);
    hide *;
    StolenIs(st);
    StolenIs(TaskStep(st, task));
    StolenByIs(st, task);
    StealSets(Retired(st), st.core.done, st.counted, task.session.id, task.metric);
  }

  lemma StolenIs(st: State)
    ensures Stolen(st) == Retired(st) * st.core.done - st.counted
  {
  }

  lemma StolenByIs(st: State, task: Task)
    requires task in st.tasks && task.Closing?
    ensures StolenBy(st, Perform(task)) == if !task.metric && task.session.id !in st.core.done then {task.session.id} else {}
  {
  }

  lemma ClosingEffect(st: State, task: Task)
    requires task in st.tasks && TaskOk(st, task) && task.Closing? && MetricsOk(st)
    ensures var after := TaskStep(st, task);
      && Retired(after) == Retired(st) && task.session.id in Retired(st) && st.counted <= st.core.done
      && after.core.done == st.core.done + {task.session.id}
      && after.counted == if task.metric && task.session.id !in st.core.done then st.counted + {task.session.id} else st.counted
  {
  }

  lemma StealSets(retired: set<nat>, done: set<nat>, counted: set<nat>, id: nat, metric: bool)
    requires id in retired && counted <= done
    ensures var counted' := if metric && id !in done then counted + {id} else counted;
      retired * (done + {id}) - counted' == (retired * done - counted) + (if !metric && id !in done then {id} else {})
  {
  }

  lemma StolenReassigned(cfg: Config, st: State)
    requires Inv(cfg, st) && st.udp.Reassigning?
    ensures Stolen(Step(cfg, st, CloseReassigned)) == Stolen(st)
  {
    hide Inv;
  }

  lemma StolenOther(cfg: Config, st: State, a: Action)
    requires ValidConfig(cfg) && Inv(cfg, st) && Enabled(st, a) && !(a.Perform? && a.task.Closing?) && !a.CloseReassigned?
    ensures Stolen(Step(cfg, st, a)) == Stolen(st)
  {
    var after := Step(cfg, st, a);
    StepInv(cfg, st, a);
    OtherDone(cfg, st, a);
    TableIds(st);
    TableIds(after);
    hide Inv, Ids, Step;
  }

  /** No other action closes a session that was ever in the table, or reports anything. */
  lemma OtherDone(cfg: Config, st: State, a: Action)
    requires UdpOk(st) && Enabled(st, a) && !(a.Perform? && a.task.Closing?) && !a.CloseReassigned?
    ensures var after := Step(cfg, st, a);
      && after.counted == st.counted && st.inserted <= after.inserted && st.core.done <= after.core.done
      && (forall id :: id in after.core.done - st.core.done ==> id !in after.inserted)
      && (forall id :: id in after.inserted - st.inserted ==> id in Ids(after.core))
  {
    match a
    case Perform(task) =>
      match task {
        case CloseUUID(_) =>
        case CloseSession(_) =>
      }
    case InsertNew => InsertDone(cfg, st);
    case _ =>
  }

  lemma InsertDone(cfg: Config, st: State)
    requires UdpOk(st) && Enabled(st, InsertNew)
    ensures var after := Step(cfg, st, InsertNew);
      && after.counted == st.counted && st.inserted <= after.inserted && st.core.done <= after.core.done
      && (forall id :: id in after.core.done - st.core.done ==> id !in after.inserted)
      && (forall id :: id in after.inserted - st.inserted ==> id in Ids(after.core))
  {
    var s := st.udp.session;
    var (core, r) := InsertSection(cfg, st.core, s);
    if r.Inserted? {
      InsertIds(st.core, core, s);
      hide Ids;
    }
  }

  ghost predicate Honest(cfg: Config, run: seq<Action>) {
    forall i :: 0 <= i < |run| ==> !Steals(After(cfg, run[..i]), run[i])
  }

  lemma {:induction false} HonestIff(cfg: Config, run: seq<Action>)
    requires ValidConfig(cfg)
    ensures Stolen(After(cfg, run)) == {} <==> Honest(cfg, run)
  {
    hide *;
    if run == [] {
      HonestStart(cfg);
    } else {
      var most, last := run[..|run| - 1], run[|run| - 1];
      HonestIff(cfg, most);
      HonestMore(cfg, most, last);
      assert run == most + [last];
    }
  }

  lemma HonestStart(cfg: Config)
    ensures Stolen(After(cfg, [])) == {} && Honest(cfg, [])
  {
  }

  lemma HonestMore(cfg: Config, run: seq<Action>, a: Action)
    requires ValidConfig(cfg) && (Stolen(After(cfg, run)) == {} <==> Honest(cfg, run))
    ensures Stolen(After(cfg, run + [a])) == {} <==> Honest(cfg, run + [a])
  {
    HonestSnoc(cfg, run, a);
    assert (run + [a])[..|run|] == run;
    assert After(cfg, run + [a]) == Next(cfg, After(cfg, run), a);
    hide *;
    Reachable(cfg, run);
    StolenStep(cfg, After(cfg, run), a);
    StolenByIff(After(cfg, run), a);
  }

  lemma StolenByIff(st: State, a: Action)
    ensures StolenBy(st, a) == {} <==> !Steals(st, a)
  {
  }

  lemma HonestSnoc(cfg: Config, run: seq<Action>, a: Action)
    ensures Honest(cfg, run + [a]) <==> Honest(cfg, run) && !Steals(After(cfg, run), a)
  {
    hide After, Steals;
    var more := run + [a];
    assert more[..|run|] == run && more[|run|] == a;
    assert forall i :: 0 <= i < |run| ==> more[..i] == run[..i] && more[i] == run[i];
  }

  /** With no removed session left to close, the gauge equals the table if and only if no session
      was ever closed by closeWithoutMetric between its removal and its remover's close. */
  lemma GaugeExactIff(cfg: Config, run: seq<Action>)
    requires ValidConfig(cfg) && Pending(After(cfg, run)) == {}
    ensures var c := After(cfg, run).core;
      c.created - c.reported == |c.sessions| <==> Honest(cfg, run)
  {
    hide Honest, Stolen, Pending;
    GaugeLaw(cfg, run);
    HonestIff(cfg, run);
  }

  lemma QuietIsHonest(cfg: Config, st: State, a: Action)
    requires Inv(cfg, st)
    ensures Steals(st, a) ==> a.task.session.id in Pending(st)
  {
    if Steals(st, a) {
      assert TaskOk(st, a.task);
    }
  }

  /** Every operation that removes sessions goes on to close them, reporting each, before anything
      else happens. */
  ghost predicate Uninterrupted(cfg: Config, run: seq<Action>) {
    forall i :: 0 <= i < |run| && Pending(After(cfg, run[..i])) != {} ==>
      run[i].CloseReassigned? || (run[i].Perform? && run[i].task.Closing? && run[i].task.metric)
  }

  /** Then the gauge equals the table whenever no operation is under way. */
  lemma GaugeExactUninterrupted(cfg: Config, run: seq<Action>)
    requires ValidConfig(cfg) && Uninterrupted(cfg, run) && Pending(After(cfg, run)) == {}
    ensures var c := After(cfg, run).core; c.created - c.reported == |c.sessions|
  {
    forall i | 0 <= i < |run| ensures !Steals(After(cfg, run[..i]), run[i]) {
      hide After;
      Reachable(cfg, run[..i]);
      QuietIsHonest(cfg, After(cfg, run[..i]), run[i]);
    }
    GaugeExactIff(cfg, run);
  }

  /** A session lost to the gauge stays lost: from then on the gauge is above the table. */
  lemma {:induction false} DriftStays(cfg: Config, run: seq<Action>, i: nat)
    requires ValidConfig(cfg) && i <= |run|
    ensures Stolen(After(cfg, run[..i])) <= Stolen(After(cfg, run))
    ensures var c := After(cfg, run).core;
      Stolen(After(cfg, run[..i])) != {} ==> c.created - c.reported > |c.sessions|
  {
    hide Stolen, Pending, Next;
    GaugeLaw(cfg, run);
    if i == |run| {
      assert run[..i] == run;
    } else {
      var most := run[..|run| - 1];
      assert most[..i] == run[..i];
      DriftStays(cfg, most, i);
      Reachable(cfg, most);
      StolenStep(cfg, After(cfg, most), run[|run| - 1]);
    }
  }
}
