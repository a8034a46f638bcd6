/** internal/voicechat: two runs, possible under every configuration that has a backend, that refute
    what one might expect of the session table. */
module VoiceTraces {
  import opened Envelope
  import opened VoiceCore
  import opened VoiceMachine
  import opened VoiceRuns
  import opened VoiceCoverage

  datatype Story = Story(player: UUID, client: string, backend: string, owner: string, lease: string)

  function Lease(cfg: Config, y: Story): Registration {
    Registration(y.player, y.backend, y.owner, y.lease, 1, cfg.ttl)
  }

  function TheSession(y: Story): Session {
    Session(0, Key(y.player, y.client), y.backend, y.lease, 1)
  }

  /** A registration, and a first packet that opens a session under it. */
  function Opening(y: Story): seq<Action> {
    [PutRegistration(y.player, y.backend, y.owner, y.lease, 0), Receive(y.player, y.client, 0), MatchExisting,
     CheckRoom, DialSucceeded(0), InsertNew]
  }

  function Registered(cfg: Config, y: Story, udp: Udp): State {
    State(EMPTY.(regs := map[y.player := Lease(cfg, y)]), udp, multiset{}, map[], {}, {}, {(y.player, y.backend, y.lease)})
  }

  function InUse(cfg: Config, y: Story, udp: Udp, tasks: multiset<Task>): State {
    var s := TheSession(y);
    var st := Registered(cfg, y, udp);
    st.(core := st.core.(sessions := map[s.key := s], created := 1), tasks := tasks, objects := map[0 := s], inserted := {0})
  }

  function OpeningStates(cfg: Config, y: Story): seq<State> {
    var reg, s := Lease(cfg, y), TheSession(y);
    [INITIAL, Registered(cfg, y, Idle), Registered(cfg, y, Looked(s.key, reg)), Registered(cfg, y, Checking(s.key, reg)),
     Registered(cfg, y, Dialing(s.key, reg)), Registered(cfg, y, Dialed(s, reg)).(objects := map[0 := s]),
     InUse(cfg, y, Holding(s, reg), multiset{})]
  }

  lemma OpeningRun(cfg: Config, y: Story)
    requires ValidConfig(cfg) && y.backend in cfg.backends
    ensures var run, states := Opening(y), OpeningStates(cfg, y);
      forall i :: 0 <= i < |run| ==> states[i + 1] == Next(cfg, states[i], run[i])
  {
    hide Next, Registered, InUse;
    OpeningStart(cfg, y);
    OpeningDials(cfg, y);
    OpeningFiles(cfg, y);
  }

  lemma OpeningStart(cfg: Config, y: Story)
    requires ValidConfig(cfg)
    ensures var run, states := Opening(y), OpeningStates(cfg, y);
      states[1] == Next(cfg, states[0], run[0]) && states[2] == Next(cfg, states[1], run[1])
  {
  }

  lemma OpeningDials(cfg: Config, y: Story)
    requires ValidConfig(cfg) && y.backend in cfg.backends
    ensures var run, states := Opening(y), OpeningStates(cfg, y);
      states[3] == Next(cfg, states[2], run[2]) && states[4] == Next(cfg, states[3], run[3])
  {
  }

  lemma OpeningFiles(cfg: Config, y: Story)
    requires ValidConfig(cfg)
    ensures var run, states := Opening(y), OpeningStates(cfg, y);
      states[5] == Next(cfg, states[4], run[4]) && states[6] == Next(cfg, states[5], run[5])
  {
  }

  /** The write to the backend fails and, at the same moment, the reader fails too: both call
      closeSession. The one that removes the session is overtaken by the other's
      closeWithoutMetric. */
  function Overtaking(y: Story): seq<Action> {
    var s := TheSession(y);
    [Written(true), WantClosed(s), Perform(CloseSession(s)), Perform(CloseSession(s)),
     Perform(Closing(s, false)), Perform(Closing(s, true))]
  }

  function OpenState(cfg: Config, y: Story, tasks: multiset<Task>): State {
    InUse(cfg, y, Idle, tasks)
  }

  function GoneState(cfg: Config, y: Story, tasks: multiset<Task>): State {
    var open := OpenState(cfg, y, tasks);
    open.(core := open.core.(sessions := map[]))
  }

  function ShutState(cfg: Config, y: Story, tasks: multiset<Task>): State {
    var gone := GoneState(cfg, y, tasks);
    gone.(core := gone.core.(done := {0}, closes := multiset{0}))
  }

  function OvertakingStates(cfg: Config, y: Story): seq<State> {
    var s := TheSession(y);
    [InUse(cfg, y, Holding(s, Lease(cfg, y)), multiset{}),
     OpenState(cfg, y, multiset{CloseSession(s)}), OpenState(cfg, y, multiset{CloseSession(s), CloseSession(s)}),
     GoneState(cfg, y, multiset{CloseSession(s), Closing(s, true)}), GoneState(cfg, y, multiset{Closing(s, true), Closing(s, false)}),
     ShutState(cfg, y, multiset{Closing(s, true)}), ShutState(cfg, y, multiset{})]
  }

  lemma WrittenStep(cfg: Config, st: State)
    requires st.udp.Holding?
    ensures Next(cfg, st, Written(true)) == st.(udp := Idle, tasks := st.tasks + multiset{CloseSession(st.udp.session)})
  {
  }

  lemma WantStep(cfg: Config, st: State, s: Session)
    requires Enabled(st, WantClosed(s))
    ensures Next(cfg, st, WantClosed(s)) == st.(tasks := st.tasks + multiset{CloseSession(s)})
  {
  }

  lemma ClosingStep(cfg: Config, st: State, s: Session, metric: bool)
    requires Closing(s, metric) in st.tasks
    ensures Next(cfg, st, Perform(Closing(s, metric))) == CloseStep(st.(tasks := st.tasks - multiset{Closing(s, metric)}), s.id, metric)
  {
  }

  lemma LeavingStep(cfg: Config, st: State, s: Session)
    requires CloseSession(s) in st.tasks
    ensures var (core, removed) := DropSection(st.core, s);
      Next(cfg, st, Perform(CloseSession(s)))
      == st.(core := core, tasks := st.tasks - multiset{CloseSession(s)} + multiset{Closing(s, removed)})
  {
    hide DropSection;
  }

  lemma FirstAsks(cfg: Config, y: Story)
    ensures Next(cfg, InUse(cfg, y, Holding(TheSession(y), Lease(cfg, y)), multiset{}), Written(true))
      == OpenState(cfg, y, multiset{CloseSession(TheSession(y))})
  {
    WrittenStep(cfg, InUse(cfg, y, Holding(TheSession(y), Lease(cfg, y)), multiset{}));
    hide Next;
  }

  lemma SecondAsks(cfg: Config, y: Story)
    ensures var s := TheSession(y);
      Next(cfg, OpenState(cfg, y, multiset{CloseSession(s)}), WantClosed(s)) == OpenState(cfg, y, multiset{CloseSession(s), CloseSession(s)})
  {
    var s := TheSession(y);
    var st := OpenState(cfg, y, multiset{CloseSession(s)});
    WantStep(cfg, st, s);
    hide Next;
    assert multiset{CloseSession(s)} + multiset{CloseSession(s)} == multiset{CloseSession(s), CloseSession(s)};
  }

  lemma FirstRemoves(cfg: Config, y: Story)
    ensures var s := TheSession(y);
      Next(cfg, OpenState(cfg, y, multiset{CloseSession(s), CloseSession(s)}), Perform(CloseSession(s)))
      == GoneState(cfg, y, multiset{CloseSession(s), Closing(s, true)})
  {
    var s := TheSession(y);
    var st := OpenState(cfg, y, multiset{CloseSession(s), CloseSession(s)});
    LeavingStep(cfg, st, s);
    hide Next;
    assert st.tasks - multiset{CloseSession(s)} + multiset{Closing(s, true)} == multiset{CloseSession(s), Closing(s, true)};
    assert st.core.sessions - {s.key} == map[];
  }

  lemma SecondMisses(cfg: Config, y: Story)
    ensures var s := TheSession(y);
      Next(cfg, GoneState(cfg, y, multiset{CloseSession(s), Closing(s, true)}), Perform(CloseSession(s)))
      == GoneState(cfg, y, multiset{Closing(s, true), Closing(s, false)})
  {
    var s := TheSession(y);
    var st := GoneState(cfg, y, multiset{CloseSession(s), Closing(s, true)});
    LeavingStep(cfg, st, s);
    hide Next;
    assert st.tasks - multiset{CloseSession(s)} + multiset{Closing(s, false)} == multiset{Closing(s, true), Closing(s, false)};
  }

  lemma SecondCloses(cfg: Config, y: Story)
    ensures var s := TheSession(y);
      Next(cfg, GoneState(cfg, y, multiset{Closing(s, true), Closing(s, false)}), Perform(Closing(s, false)))
      == ShutState(cfg, y, multiset{Closing(s, true)})
  {
    var s := TheSession(y);
    var st := GoneState(cfg, y, multiset{Closing(s, true), Closing(s, false)});
    ClosingStep(cfg, st, s, false);
    hide Next;
    assert st.tasks - multiset{Closing(s, false)} == multiset{Closing(s, true)};
    assert multiset{0} == multiset{} + multiset{0};
  }

  lemma FirstIsLate(cfg: Config, y: Story)
    ensures var s := TheSession(y);
      Next(cfg, ShutState(cfg, y, multiset{Closing(s, true)}), Perform(Closing(s, true))) == ShutState(cfg, y, multiset{})
  {
    var s := TheSession(y);
    ClosingStep(cfg, ShutState(cfg, y, multiset{Closing(s, true)}), s, true);
    hide Next;
    assert multiset{Closing(s, true)} - multiset{Closing(s, true)} == multiset{};
  }

  lemma OvertakingRun(cfg: Config, y: Story)
    ensures var run, states := Overtaking(y), OvertakingStates(cfg, y);
      forall i :: 0 <= i < |run| ==> states[i + 1] == Next(cfg, states[i], run[i])
  {
    hide Next, InUse, OpenState, GoneState, ShutState, TheSession;
    FirstAsks(cfg, y);
    SecondAsks(cfg, y);
    FirstRemoves(cfg, y);
    SecondMisses(cfg, y);
    SecondCloses(cfg, y);
    FirstIsLate(cfg, y);
  }

  /** The gauge can drift for good: nothing is left to do, the table is empty, and one session too
      many is still reported open. */
  lemma GaugeCanDrift(cfg: Config, y: Story)
    requires ValidConfig(cfg) && y.backend in cfg.backends
    ensures var st := After(cfg, Opening(y) + Overtaking(y));
      && st.udp == Idle && st.tasks == multiset{} && st.core.sessions == map[]
      && st.core.created - st.core.reported == 1
  {
    hide Next;
    OpeningRun(cfg, y);
    OvertakingRun(cfg, y);
    Glue(cfg, Opening(y), OpeningStates(cfg, y), Overtaking(y), OvertakingStates(cfg, y));
  }

  /** The packet is written, and the player's next packet comes after the registration's expiry. */
  function Lapsing(cfg: Config, y: Story): seq<Action> {
    [Written(false), Receive(y.player, y.client, cfg.ttl + 1)]
  }

  function LapsingStates(cfg: Config, y: Story): seq<State> {
    var open := InUse(cfg, y, Idle, multiset{});
    [InUse(cfg, y, Holding(TheSession(y), Lease(cfg, y)), multiset{}), open, open.(core := open.core.(regs := map[]))]
  }

  lemma LapsingRun(cfg: Config, y: Story)
    ensures var run, states := Lapsing(cfg, y), LapsingStates(cfg, y);
      forall i :: 0 <= i < |run| ==> states[i + 1] == Next(cfg, states[i], run[i])
  {
    var run, states := Lapsing(cfg, y), LapsingStates(cfg, y);
    assert states[1] == Next(cfg, states[0], run[0]);
    assert states[1].core.regs - {y.player} == map[];
    assert states[2] == Next(cfg, states[1], run[1]);
  }

  /** The table can hold a session of a player who has no registration, with nothing under way. */
  lemma SessionCanOutliveLease(cfg: Config, y: Story)
    requires ValidConfig(cfg) && y.backend in cfg.backends
    ensures var st := After(cfg, Opening(y) + Lapsing(cfg, y));
      && st.udp == Idle && st.tasks == multiset{} && st.core.regs == map[]
      && InTable(st.core, TheSession(y)) && !Covered(st)
  {
    hide Next;
    OpeningRun(cfg, y);
    LapsingRun(cfg, y);
    Glue(cfg, Opening(y), OpeningStates(cfg, y), Lapsing(cfg, y), LapsingStates(cfg, y));
    var st := After(cfg, Opening(y) + Lapsing(cfg, y));
    assert InTable(st.core, TheSession(y));
    assert !Live(st.core, st.core.sessions[TheSession(y).key]);
  }

  lemma Glue(cfg: Config, run: seq<Action>, states: seq<State>, more: seq<Action>, others: seq<State>)
    requires |states| == |run| + 1 && |others| == |more| + 1 && states[0] == INITIAL && others[0] == states[|run|]
    requires forall i :: 0 <= i < |run| ==> states[i + 1] == Next(cfg, states[i], run[i])
    requires forall i :: 0 <= i < |more| ==> others[i + 1] == Next(cfg, others[i], more[i])
    ensures After(cfg, run + more) == others[|more|]
  {
    hide Next;
    var both := states + others[1..];
    forall i | 0 <= i < |run + more| ensures both[i + 1] == Next(cfg, both[i], (run + more)[i]) {
      if i >= |run| {
        assert others[i - |run| + 1] == Next(cfg, others[i - |run|], more[i - |run|]);
      }
    }
    Trace(cfg, run + more, both);
  }
}
