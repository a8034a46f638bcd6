/** internal/udprelay: the plain UDP relay, on its own sections. Its session table is the voice
    runtime's with one lease that every client shares and that never runs out; the proof is that
    each relay run is a voice run, so the voice theorems carry over. */
module Relay {
  import opened Envelope
  import opened VoiceCore
  import opened VoiceMachine
  import opened VoiceRuns
  import opened VoiceGauge
  import opened VoiceTraces

  const NOBODY: UUID := [0, 0, 0, 0, 0, 0, 0, 0, 0, 0, 0, 0, 0, 0, 0, 0]

  /** The voice configuration of a relay with this many sessions. */
  function Settings(maxSessions: int): Config {
    Config(1, 1, maxSessions, {""})
  }

  const SHARED := Registration(NOBODY, "", "", "", 1, 1)

  const REGISTER := PutRegistration(NOBODY, "", "", "", 0)

  const START := INITIAL.(core := EMPTY.(regs := map[NOBODY := SHARED]), installed := {(NOBODY, "", "")})

  /** sessionForClient, first section. */
  datatype Entry = Closed | Known(session: Session) | Full | Fresh

  function EntrySection(maxSessions: int, c: Core, client: string): Entry {
    var key := Key(NOBODY, client);
    if c.closed then Closed
    else if key in c.sessions then Known(c.sessions[key])
    else if |c.sessions| >= maxSessions then Full
    else Fresh
  }

  /** close and closeWithoutMetric of a session. */
  function CloseSection(c: Core, id: nat, metric: bool): Core {
    if id in c.done then c
    else
      var closed := c.(done := c.done + {id}, closes := c.closes + multiset{id});
      if metric then closed.(reported := c.reported + 1) else closed
  }

  /** sessionForClient, second section. */
  datatype Filed = TurnedAway | Present(session: Session) | Stored

  function FileSection(maxSessions: int, c: Core, s: Session): (Core, Filed) {
    if c.closed then (CloseSection(c, s.id, false), TurnedAway)
    else if s.key in c.sessions then (CloseSection(c, s.id, false), Present(c.sessions[s.key]))
    else if |c.sessions| >= maxSessions then (CloseSection(c, s.id, false), TurnedAway)
    else (c.(sessions := c.sessions[s.key := s], created := c.created + 1), Stored)
  }

  /** closeSession. */
  function LeaveSection(c: Core, s: Session): (Core, bool) {
    if s.key in c.sessions && c.sessions[s.key] == s then (c.(sessions := c.sessions - {s.key}), true) else (c, false)
  }

  /** Close: the sessions that were in the table are left to be closed. */
  function EmptySection(c: Core): (Core, set<Session>) {
    (c.(closed := true, sessions := map[], regs := map[]), set k | k in c.sessions :: c.sessions[k])
  }

  /** The relay's actors: the UDP loop with its dial, file and write; a reader or the idle check that
      gives a session up; closeSession in its two parts; and Close. */
  datatype Act =
    | Packet(client: string)
    | DialFails
    | Dials(id: nat)
    | Files
    | Wrote(failed: bool)
    | GivesUp(session: Session)
    | Leaves(session: Session)
    | Finishes(session: Session, metric: bool)
    | Closes

  function RelayUdp(maxSessions: int, st: State, act: Act): State {
    match act
    case Packet(client) =>
      if !st.udp.Idle? then st
      else
        (match EntrySection(maxSessions, st.core, client)
         case Closed => st
         case Known(s) => st.(udp := Holding(s, SHARED))
         case Full => st
         case Fresh => st.(udp := Dialing(Key(NOBODY, client), SHARED)))
    case DialFails => if st.udp.Dialing? then st.(udp := Idle) else st
    case Dials(id) =>
      if !st.udp.Dialing? || id in st.objects then st
      else
        var s := Session(id, st.udp.key, "", "", 1);
        st.(objects := st.objects[id := s], udp := Dialed(s, SHARED))
    case Files =>
      if !st.udp.Dialed? then st
      else
        var s := st.udp.session;
        var (core, r) := FileSection(maxSessions, st.core, s);
        (match r
         case TurnedAway => st.(core := core, udp := Idle)
         case Present(e) => st.(core := core, udp := Holding(e, SHARED))
         case Stored => st.(core := core, inserted := st.inserted + {s.id}, udp := Holding(s, SHARED)))
    case Wrote(failed) =>
      if !st.udp.Holding? then st
      else if failed then st.(udp := Idle, tasks := st.tasks + multiset{CloseSession(st.udp.session)})
      else st.(udp := Idle)
    case _ => st
  }

  function RelayOther(st: State, act: Act): State {
    match act
    case GivesUp(s) =>
      if s.id in st.inserted && s.id in st.objects && st.objects[s.id] == s
      then st.(tasks := st.tasks + multiset{CloseSession(s)}) else st
    case Leaves(s) =>
      if CloseSession(s) !in st.tasks then st
      else
        var (core, current) := LeaveSection(st.core, s);
        st.(core := core, tasks := st.tasks - multiset{CloseSession(s)} + multiset{Closing(s, current)})
    case Finishes(s, metric) =>
      if Closing(s, metric) !in st.tasks then st
      else
        st.(core := CloseSection(st.core, s.id, metric),
            counted := if metric && s.id !in st.core.done then st.counted + {s.id} else st.counted,
            tasks := st.tasks - multiset{Closing(s, metric)})
    case Closes =>
      if st.core.closed then st
      else
        var (core, left) := EmptySection(st.core);
        st.(core := core, tasks := st.tasks + multiset(set s | s in left :: Closing(s, true)))
    case _ => st
  }

  predicate OnLoop(act: Act) {
    act.Packet? || act.DialFails? || act.Dials? || act.Files? || act.Wrote?
  }

  function RelayNext(maxSessions: int, st: State, act: Act): State {
    if OnLoop(act) then RelayUdp(maxSessions, st, act) else RelayOther(st, act)
  }

  function RelayAfter(maxSessions: int, run: seq<Act>): State {
    if run == [] then START else RelayNext(maxSessions, RelayAfter(maxSessions, run[..|run| - 1]), run[|run| - 1])
  }

  // Each relay run is a voice run.

  function AsVoice(act: Act): seq<Action> {
    match act
    case Packet(client) => [Receive(NOBODY, client, 0), MatchExisting, CheckRoom]
    case _ => [AsAction(act)]
  }

  function AsAction(act: Act): Action
    requires !act.Packet?
  {
    match act
    case DialFails => DialFailed
    case Dials(id) => DialSucceeded(id)
    case Files => InsertNew
    case Wrote(failed) => Written(failed)
    case GivesUp(s) => WantClosed(s)
    case Leaves(s) => Perform(CloseSession(s))
    case Finishes(s, metric) => Perform(Closing(s, metric))
    case Closes => Shutdown
  }

  function Expand(run: seq<Act>): seq<Action> {
    if run == [] then [REGISTER] else Expand(run[..|run| - 1]) + AsVoice(run[|run| - 1])
  }

  /** What is special about a relay's states. */
  ghost predicate Plain(st: State) {
    && st.core.regs == (if st.core.closed then map[] else map[NOBODY := SHARED])
    && (forall id :: id in st.objects ==> Carries(st.objects[id], SHARED))
    && !st.udp.Looked? && !st.udp.Reassigning? && !st.udp.Checking?
    && (Request(st.udp).Some? ==> Request(st.udp).value.1 == SHARED)
  }

  // The relay's other sections are the voice runtime's.

  lemma CloseIsVoice(c: Core, id: nat, metric: bool)
    ensures CloseSection(c, id, metric) == CloseOnce(c, id, metric)
  {
  }

  lemma FileIsVoice(maxSessions: int, c: Core, s: Session)
    ensures var (core, r) := FileSection(maxSessions, c, s);
      var (voice, v) := InsertSection(Settings(maxSessions), c, s);
      core == voice && r == FiledAs(v)
  {
  }

  function FiledAs(v: Insert): Filed {
    match v
    case Refused => TurnedAway
    case Existing(e) => Present(e)
    case Inserted => Stored
  }

  lemma LeaveIsVoice(c: Core, s: Session)
    ensures LeaveSection(c, s) == DropSection(c, s)
  {
  }

  lemma EmptyIsVoice(c: Core)
    ensures EmptySection(c) == (ShutSection(c), AllSessions(c))
  {
  }

  lemma LoopIsVoice(maxSessions: int, st: State, act: Act)
    requires Plain(st) && OnLoop(act) && !act.Packet? && !act.Files?
    ensures RelayUdp(maxSessions, st, act) == Next(Settings(maxSessions), st, AsAction(act))
    ensures Plain(RelayUdp(maxSessions, st, act))
  {
  }

  lemma FilesIsVoice(maxSessions: int, st: State)
    requires Plain(st)
    ensures RelayUdp(maxSessions, st, Files) == Next(Settings(maxSessions), st, InsertNew)
    ensures Plain(RelayUdp(maxSessions, st, Files))
  {
    if st.udp.Dialed? {
      var s := st.udp.session;
      FileIsVoice(maxSessions, st.core, s);
      FileKeeps(maxSessions, st.core, s);
      assert st.udp.reg == SHARED;
      hide FileSection, InsertSection;
      var v := InsertSection(Settings(maxSessions), st.core, s).1;
      match v
      case Refused =>
      case Existing(_) =>
      case Inserted =>
    }
  }

  lemma FileKeeps(maxSessions: int, c: Core, s: Session)
    ensures var (core, r) := FileSection(maxSessions, c, s); core.regs == c.regs && core.closed == c.closed
  {
  }

  lemma LeavesIsVoice(maxSessions: int, st: State, s: Session)
    requires Plain(st)
    ensures RelayOther(st, Leaves(s)) == Next(Settings(maxSessions), st, Perform(CloseSession(s)))
    ensures Plain(RelayOther(st, Leaves(s)))
  {
    if CloseSession(s) in st.tasks {
      LeavingStep(Settings(maxSessions), st, s);
      hide Next;
      LeaveIsVoice(st.core, s);
    }
  }

  lemma FinishesIsVoice(maxSessions: int, st: State, s: Session, metric: bool)
    requires Plain(st)
    ensures RelayOther(st, Finishes(s, metric)) == Next(Settings(maxSessions), st, Perform(Closing(s, metric)))
    ensures Plain(RelayOther(st, Finishes(s, metric)))
  {
    if Closing(s, metric) in st.tasks {
      ClosingStep(Settings(maxSessions), st, s, metric);
      hide Next;
      CloseIsVoice(st.core, s.id, metric);
      assert CloseOnce(st.core, s.id, metric).regs == st.core.regs && CloseOnce(st.core, s.id, metric).closed == st.core.closed;
      hide CloseSection, CloseOnce;
    }
  }

  lemma ClosesIsVoice(maxSessions: int, st: State)
    requires Plain(st)
    ensures RelayOther(st, Closes) == Next(Settings(maxSessions), st, Shutdown)
    ensures Plain(RelayOther(st, Closes))
  {
    EmptyIsVoice(st.core);
  }

  lemma GivesUpIsVoice(maxSessions: int, st: State, s: Session)
    requires Plain(st)
    ensures RelayOther(st, GivesUp(s)) == Next(Settings(maxSessions), st, WantClosed(s))
    ensures Plain(RelayOther(st, GivesUp(s)))
  {
  }

  /** Every other relay step is the voice step it stands for. */
  lemma ActIsVoice(maxSessions: int, st: State, act: Act)
    requires Plain(st) && !act.Packet?
    ensures RelayNext(maxSessions, st, act) == Next(Settings(maxSessions), st, AsAction(act))
    ensures Plain(RelayNext(maxSessions, st, act))
  {
    hide Plain, RelayUdp, RelayOther, Next;
    match act
    case GivesUp(s) => GivesUpIsVoice(maxSessions, st, s);
    case Leaves(s) => LeavesIsVoice(maxSessions, st, s);
    case Finishes(s, metric) => FinishesIsVoice(maxSessions, st, s, metric);
    case Closes => ClosesIsVoice(maxSessions, st);
    case Files => FilesIsVoice(maxSessions, st);
    case _ => LoopIsVoice(maxSessions, st, act);
  }

  /** The relay's one section does what three voice sections do under the shared lease. */
  lemma PacketIsVoice(maxSessions: int, st: State, client: string)
    requires Plain(st) && TableOk(st)
    ensures var cfg := Settings(maxSessions);
      var looked := Next(cfg, st, Receive(NOBODY, client, 0));
      Next(cfg, Next(cfg, looked, MatchExisting), CheckRoom) == RelayNext(maxSessions, st, Packet(client))
    ensures Plain(RelayNext(maxSessions, st, Packet(client)))
  {
    if st.udp.Idle? && !st.core.closed && Key(NOBODY, client) in st.core.sessions {
      assert Carries(st.core.sessions[Key(NOBODY, client)], SHARED);
    }
  }

  lemma AfterConcat(cfg: Config, run: seq<Action>, more: seq<Action>)
    requires |more| <= 1
    ensures After(cfg, run + more) == if more == [] then After(cfg, run) else Next(cfg, After(cfg, run), more[0])
  {
    if more == [] {
      assert run + more == run;
    } else {
      assert (run + more)[..|run|] == run;
    }
  }

  lemma AfterThree(cfg: Config, run: seq<Action>, a: Action, b: Action, c: Action)
    ensures After(cfg, run + [a, b, c]) == Next(cfg, Next(cfg, Next(cfg, After(cfg, run), a), b), c)
  {
    hide *;
    AfterConcat(cfg, run, [a]);
    AfterConcat(cfg, run + [a], [b]);
    AfterConcat(cfg, run + [a] + [b], [c]);
    assert run + [a] + [b] + [c] == run + [a, b, c];
  }

  lemma StartIsVoice(maxSessions: int)
    ensures After(Settings(maxSessions), [REGISTER]) == START && Plain(START)
  {
    assert [REGISTER][..0] == [];
  }

  lemma {:induction false} RelayIsVoice(maxSessions: int, run: seq<Act>)
    requires maxSessions > 0
    ensures RelayAfter(maxSessions, run) == After(Settings(maxSessions), Expand(run)) && Plain(RelayAfter(maxSessions, run))
  {
    if run == [] {
      StartIsVoice(maxSessions);
    } else {
      hide Next, Plain, RelayNext;
      var cfg, most, act := Settings(maxSessions), run[..|run| - 1], run[|run| - 1];
      RelayIsVoice(maxSessions, most);
      Reachable(cfg, Expand(most));
      OneMore(maxSessions, RelayAfter(maxSessions, most), Expand(most), act);
    }
  }

  lemma OneMore(maxSessions: int, st: State, voice: seq<Action>, act: Act)
    requires st == After(Settings(maxSessions), voice) && Plain(st) && TableOk(st)
    ensures RelayNext(maxSessions, st, act) == After(Settings(maxSessions), voice + AsVoice(act))
    ensures Plain(RelayNext(maxSessions, st, act))
  {
    hide Next, Plain, After, TableOk, RelayNext;
    match act
    case Packet(client) =>
      PacketIsVoice(maxSessions, st, client);
      AfterThree(Settings(maxSessions), voice, Receive(NOBODY, client, 0), MatchExisting, CheckRoom);
    case _ =>
      AfterConcat(Settings(maxSessions), voice, AsVoice(act));
      ActIsVoice(maxSessions, st, act);
  }

  // The voice theorems, for the relay.

  lemma RelaySafe(maxSessions: int, run: seq<Act>)
    requires maxSessions > 0
    ensures var c := RelayAfter(maxSessions, run).core;
      && (forall k :: k in c.sessions ==> c.sessions[k].key == k && c.sessions[k].id !in c.done && c.closes[c.sessions[k].id] == 0)
      && |c.sessions| <= maxSessions
      && (forall id :: c.closes[id] <= 1)
  {
    RelayIsVoice(maxSessions, run);
    TablesSafe(Settings(maxSessions), Expand(run));
  }

  lemma {:induction false} ExpandPrefix(run: seq<Act>, i: nat)
    requires i <= |run|
    ensures Expand(run[..i]) <= Expand(run) && Expand(run)[..|Expand(run[..i])|] == Expand(run[..i])
  {
    if i == |run| {
      assert run[..i] == run;
    } else {
      assert run[..|run| - 1][..i] == run[..i];
      ExpandPrefix(run[..|run| - 1], i);
    }
  }

  lemma RelayNeverBack(maxSessions: int, run: seq<Act>, i: nat, j: nat, s: Session)
    requires maxSessions > 0 && i <= j <= |run|
    requires InTable(RelayAfter(maxSessions, run[..i]).core, s) && !InTable(RelayAfter(maxSessions, run[..j]).core, s)
    ensures !InTable(RelayAfter(maxSessions, run).core, s) && !IsCurrent(RelayAfter(maxSessions, run).core, s)
  {
    hide InTable, IsCurrent, After, RelayAfter, Plain;
    var voice := Expand(run);
    RelayIsVoice(maxSessions, run);
    RelayIsVoice(maxSessions, run[..i]);
    RelayIsVoice(maxSessions, run[..j]);
    ExpandPrefix(run, i);
    ExpandPrefix(run, j);
    ExpandPrefix(run[..j], i);
    assert run[..j][..i] == run[..i];
    NeverBack(Settings(maxSessions), voice, |Expand(run[..i])|, |Expand(run[..j])|, s);
  }

  lemma RelayClosedForever(maxSessions: int, run: seq<Act>, i: nat)
    requires maxSessions > 0 && i <= |run| && RelayAfter(maxSessions, run[..i]).core.closed
    ensures var c := RelayAfter(maxSessions, run).core; c.closed && c.sessions == map[]
  {
    hide After, RelayAfter, Plain;
    RelayIsVoice(maxSessions, run);
    RelayIsVoice(maxSessions, run[..i]);
    ExpandPrefix(run, i);
    ClosedForever(Settings(maxSessions), Expand(run), |Expand(run[..i])|);
  }

  /** closeWithoutMetric on a removed session that is not closed yet. */
  predicate RelaySteals(st: State, act: Act) {
    act.Finishes? && !act.metric && Closing(act.session, false) in st.tasks && act.session.id !in st.core.done
  }

  /** No closeWithoutMetric in the relay overtakes the session's remover. */
  ghost predicate RelayHonest(maxSessions: int, run: seq<Act>) {
    forall i :: 0 <= i < |run| ==> !RelaySteals(RelayAfter(maxSessions, run[..i]), run[i])
  }

  lemma SamePlace(st: State, after: State)
    requires after == st.(udp := after.udp)
    ensures Stolen(after) == Stolen(st)
  {
  }

  lemma StealsAsVoice(st: State, act: Act)
    requires !act.Packet?
    ensures StolenBy(st, AsAction(act)) == if RelaySteals(st, act) then {act.session.id} else {}
  {
  }

  lemma RelayStolenStep(maxSessions: int, st: State, act: Act)
    requires maxSessions > 0 && Inv(Settings(maxSessions), st) && Plain(st)
    ensures Stolen(RelayNext(maxSessions, st, act)) == Stolen(st) + (if RelaySteals(st, act) then {act.session.id} else {})
  {
    hide Inv, Plain, Next, Stolen, StolenBy;
    if act.Packet? {
      hide EntrySection;
      SamePlace(st, RelayNext(maxSessions, st, act));
    } else {
      hide RelayNext;
      ActIsVoice(maxSessions, st, act);
      StolenStep(Settings(maxSessions), st, AsAction(act));
      StealsAsVoice(st, act);
    }
  }

  lemma {:induction false} RelayHonestIff(maxSessions: int, run: seq<Act>)
    requires maxSessions > 0
    ensures Stolen(RelayAfter(maxSessions, run)) == {} <==> RelayHonest(maxSessions, run)
  {
    hide *;
    if run == [] {
      RelayHonestStart(maxSessions);
    } else {
      var most, act := run[..|run| - 1], run[|run| - 1];
      RelayHonestIff(maxSessions, most);
      RelayHonestMore(maxSessions, most, act);
      assert run == most + [act];
    }
  }

  lemma RelayHonestStart(maxSessions: int)
    ensures Stolen(RelayAfter(maxSessions, [])) == {} && RelayHonest(maxSessions, [])
  {
  }

  lemma RelayHonestMore(maxSessions: int, run: seq<Act>, act: Act)
    requires maxSessions > 0 && (Stolen(RelayAfter(maxSessions, run)) == {} <==> RelayHonest(maxSessions, run))
    ensures Stolen(RelayAfter(maxSessions, run + [act])) == {} <==> RelayHonest(maxSessions, run + [act])
  {
    RelayHonestSnoc(maxSessions, run, act);
    assert (run + [act])[..|run|] == run;
    assert RelayAfter(maxSessions, run + [act]) == RelayNext(maxSessions, RelayAfter(maxSessions, run), act);
    hide *;
    RelayInv(maxSessions, run);
    RelayIsVoice(maxSessions, run);
    RelayStolenStep(maxSessions, RelayAfter(maxSessions, run), act);
  }

  lemma RelayInv(maxSessions: int, run: seq<Act>)
    requires maxSessions > 0
    ensures Inv(Settings(maxSessions), RelayAfter(maxSessions, run))
  {
    hide Inv, RelayAfter, After;
    RelayIsVoice(maxSessions, run);
    Reachable(Settings(maxSessions), Expand(run));
  }

  lemma RelayHonestSnoc(maxSessions: int, run: seq<Act>, act: Act)
    ensures RelayHonest(maxSessions, run + [act]) <==>
      RelayHonest(maxSessions, run) && !RelaySteals(RelayAfter(maxSessions, run), act)
  {
    hide RelayAfter, RelaySteals;
    var more := run + [act];
    assert more[..|run|] == run && more[|run|] == act;
    assert forall i :: 0 <= i < |run| ==> more[..i] == run[..i] && more[i] == run[i];
  }

  /** The relay's gauge: never below the table, and with nothing left to close equal to it exactly
      when no closeWithoutMetric overtook a remover. */
  lemma RelayGauge(maxSessions: int, run: seq<Act>)
    requires maxSessions > 0
    ensures var st := RelayAfter(maxSessions, run);
      && st.core.created - st.core.reported == |st.core.sessions| + |Pending(st)| + |Stolen(st)|
      && (Pending(st) == {} ==> (st.core.created - st.core.reported == |st.core.sessions| <==> RelayHonest(maxSessions, run)))
  {
    hide Pending, Stolen, RelayHonest, Plain;
    RelayIsVoice(maxSessions, run);
    GaugeLaw(Settings(maxSessions), Expand(run));
    RelayHonestIff(maxSessions, run);
  }

  /** The backend write and the backend read of one session fail together. */
  function Drifting(client: string): seq<Act> {
    var s := TheSession(Story(NOBODY, client, "", "", ""));
    [Packet(client), Dials(0), Files, Wrote(true), GivesUp(s), Leaves(s), Leaves(s), Finishes(s, false), Finishes(s, true)]
  }

  lemma ExpandSnoc(run: seq<Act>, act: Act)
    ensures Expand(run + [act]) == Expand(run) + AsVoice(act)
  {
    assert (run + [act])[..|run|] == run;
  }

  lemma {:induction false} ExpandRest(client: string, acts: seq<Act>, actions: seq<Action>)
    requires |acts| == |actions| && forall i :: 0 <= i < |acts| ==> AsVoice(acts[i]) == [actions[i]]
    ensures Expand([Packet(client)] + acts) == [REGISTER, Receive(NOBODY, client, 0), MatchExisting, CheckRoom] + actions
  {
    hide AsVoice;
    if acts == [] {
      assert [Packet(client)] + acts == [] + [Packet(client)];
      ExpandSnoc([], Packet(client));
      assert AsVoice(Packet(client)) == [Receive(NOBODY, client, 0), MatchExisting, CheckRoom] by { PacketActions(client); }
    } else {
      var n := |acts| - 1;
      ExpandRest(client, acts[..n], actions[..n]);
      ExpandSnoc([Packet(client)] + acts[..n], acts[n]);
      assert [Packet(client)] + acts == [Packet(client)] + acts[..n] + [acts[n]];
      assert actions == actions[..n] + [actions[n]];
    }
  }

  lemma PacketActions(client: string)
    ensures AsVoice(Packet(client)) == [Receive(NOBODY, client, 0), MatchExisting, CheckRoom]
  {
  }

  lemma DriftingIsVoice(client: string)
    ensures var y := Story(NOBODY, client, "", "", "");
      Expand(Drifting(client)) == Opening(y) + Overtaking(y)
  {
    hide Expand;
    var s := TheSession(Story(NOBODY, client, "", "", ""));
    var acts := [Dials(0), Files, Wrote(true), GivesUp(s), Leaves(s), Leaves(s), Finishes(s, false), Finishes(s, true)];
    ExpandRest(client, acts,
               [DialSucceeded(0), InsertNew, Written(true), WantClosed(s), Perform(CloseSession(s)),
                Perform(CloseSession(s)), Perform(Closing(s, false)), Perform(Closing(s, true))]);
    assert Drifting(client) == [Packet(client)] + acts;
  }

  /** So the relay's gauge can drift for good, too. */
  lemma RelayCanDrift(maxSessions: int, client: string)
    requires maxSessions > 0
    ensures var st := RelayAfter(maxSessions, Drifting(client));
      st.tasks == multiset{} && st.core.sessions == map[] && st.core.created - st.core.reported == 1
  {
    hide RelayAfter, After, Expand, Plain, Drifting, Opening, Overtaking;
    DriftingIsVoice(client);
    RelayIsVoice(maxSessions, Drifting(client));
    GaugeCanDrift(Settings(maxSessions), Story(NOBODY, client, "", "", ""));
  }
}
