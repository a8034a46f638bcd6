/** internal/proxy: the server's active snapshot under reloads and discovery updates. */
module Server {
  import opened GoText
  import opened RouteConfig
  import opened Discovery
  import opened Routing
  import opened Snapshot

  /** An operation with the outcome of its input: the file as loaded, the routes as provided. */
  datatype Op =
    | ReloadFile(loaded: Result<Config>)
    | ReloadWithDiscovery(cfg: Config, provided: Result<seq<DiscoveredRoute>>)
    | UpdateDiscovered(provided: Result<seq<DiscoveredRoute>>, cancelled: bool)

  /** An operation succeeds or fails on its own merits, whatever the server's state. */
  ghost predicate Succeeds(p: Platform, op: Op) {
    match op
    case ReloadFile(loaded) => loaded.Ok? && ValidConfig(p, loaded.value)
    case ReloadWithDiscovery(cfg, provided) => provided.Ok? && ValidConfig(p, cfg)
    case UpdateDiscovered(provided, cancelled) => provided.Ok? && !cancelled
  }

  ghost function Successes(p: Platform, ops: seq<Op>): nat {
    if ops == [] then 0
    else Successes(p, ops[..|ops| - 1]) + if Succeeds(p, ops[|ops| - 1]) then 1 else 0
  }

  /** The configuration of the last successful reload, or the one the server started with. */
  ghost function LastConfig(p: Platform, start: Config, ops: seq<Op>): Config {
    if ops == [] then start
    else
      var op := ops[|ops| - 1];
      if Succeeds(p, op) && op.ReloadFile? then op.loaded.value
      else if Succeeds(p, op) && op.ReloadWithDiscovery? then op.cfg
      else LastConfig(p, start, ops[..|ops| - 1])
  }

  /** The routes of the last successful operation that brought any, or the initial ones. */
  ghost function LastDiscovered(p: Platform, start: seq<DiscoveredRoute>, ops: seq<Op>): seq<DiscoveredRoute> {
    if ops == [] then start
    else
      var op := ops[|ops| - 1];
      if Succeeds(p, op) && !op.ReloadFile? then op.provided.value
      else LastDiscovered(p, start, ops[..|ops| - 1])
  }

  class Server {
    const p: Platform
    var generation: nat
    var active: RouteSnapshot

    /** The active snapshot is the one built from its own inputs. */
    ghost predicate Valid()
      reads this
    {
      && ValidConfig(p, active.staticConfig)
      && IsSnapshot(p, active.staticConfig, active.discoveredRoutes, active)
    }

    constructor (p: Platform, snapshot: RouteSnapshot)
      requires ValidConfig(p, snapshot.staticConfig)
      requires IsSnapshot(p, snapshot.staticConfig, snapshot.discoveredRoutes, snapshot)
      ensures Valid() && this.p == p && generation == 1 && active == snapshot
    {
      this.p, generation, active := p, 1, snapshot;
    }

    method UpdateRouteSnapshotLocked(snapshot: RouteSnapshot)
      modifies this
      ensures generation == old(generation) + 1
      ensures active == if snapshot.staticConfig.listen == "" then snapshot.(staticConfig := snapshot.config) else snapshot
    {
      var staticConfig := snapshot.staticConfig;
      if staticConfig.listen == "" {
        staticConfig := snapshot.config;
      }
      active := snapshot.(staticConfig := staticConfig);
      generation := generation + 1;
    }

    /** Builds and installs, or leaves everything as it was. */
    method Install(cfg: Config, discovered: seq<DiscoveredRoute>) returns (ok: bool)
      requires Valid()
      modifies this
      ensures Valid()
      ensures ok <==> ValidConfig(p, cfg)
      ensures ok ==> generation == old(generation) + 1
                     && active.staticConfig == cfg && active.discoveredRoutes == discovered
      ensures !ok ==> generation == old(generation) && active == old(active)
    {
      var snapshot := BuildRouteSnapshot(p, cfg, discovered);
      if snapshot.Err? {
        return false;
      }
      ListenNotEmpty(p, cfg);
      UpdateRouteSnapshotLocked(snapshot.value);
      return true;
    }

    method Reload(loaded: Result<Config>) returns (ok: bool)
      requires Valid()
      modifies this
      ensures Valid()
      ensures ok <==> loaded.Ok? && ValidConfig(p, loaded.value)
      ensures ok ==> generation == old(generation) + 1
                     && active.staticConfig == loaded.value && active.discoveredRoutes == old(active.discoveredRoutes)
      ensures !ok ==> generation == old(generation) && active == old(active)
    {
      if loaded.Err? {
        return false;
      }
      ok := Install(loaded.value, active.discoveredRoutes);
    }

    method ReloadConfigWithDiscovery(cfg: Config, provided: Result<seq<DiscoveredRoute>>) returns (ok: bool)
      requires Valid()
      modifies this
      ensures Valid()
      ensures ok <==> provided.Ok? && ValidConfig(p, cfg)
      ensures ok ==> generation == old(generation) + 1
                     && active.staticConfig == cfg && active.discoveredRoutes == provided.value
      ensures !ok ==> generation == old(generation) && active == old(active)
    {
      if provided.Err? {
        return false;
      }
      ok := Install(cfg, provided.value);
    }

    /** Cancellation is looked for before the routes are read, under the lock and after the
        build; at each of these points it leaves the state alone. */
    method UpdateDiscoveredRoutes(provided: Result<seq<DiscoveredRoute>>, cancelled: bool) returns (ok: bool)
      requires Valid()
      modifies this
      ensures Valid()
      ensures ok <==> provided.Ok? && !cancelled
      ensures ok ==> generation == old(generation) + 1
                     && active.staticConfig == old(active.staticConfig) && active.discoveredRoutes == provided.value
      ensures !ok ==> generation == old(generation) && active == old(active)
    {
      if provided.Err? || cancelled {
        return false;
      }
      ok := Install(active.staticConfig, provided.value);
    }

    method Perform(op: Op) returns (ok: bool)
      requires Valid()
      modifies this
      ensures Valid()
      ensures ok <==> Succeeds(p, op)
      ensures generation == old(generation) + (if ok then 1 else 0)
      ensures active.staticConfig == LastConfig(p, old(active.staticConfig), [op])
      ensures active.discoveredRoutes == LastDiscovered(p, old(active.discoveredRoutes), [op])
      ensures !ok ==> active == old(active)
    {
      hide IsSnapshot, ValidConfig;
      assert [op][..0] == [];
      match op
      case ReloadFile(loaded) => ok := Reload(loaded);
      case ReloadWithDiscovery(cfg, provided) => ok := ReloadConfigWithDiscovery(cfg, provided);
      case UpdateDiscovered(provided, cancelled) => ok := UpdateDiscoveredRoutes(provided, cancelled);
    }

    /** Over every sequence of operations, successful or not: the active state is the snapshot
        built from the last applied configuration and the last applied routes, and the
        generation counts the successes. */
    method PerformAll(ops: seq<Op>)
      requires Valid()
      modifies this
      ensures Valid()
      ensures generation == old(generation) + Successes(p, ops)
      ensures active.staticConfig == LastConfig(p, old(active.staticConfig), ops)
      ensures active.discoveredRoutes == LastDiscovered(p, old(active.discoveredRoutes), ops)
    {
      hide IsSnapshot, ValidConfig;
      for i := 0 to |ops|
        invariant Valid()
        invariant generation == old(generation) + Successes(p, ops[..i])
        invariant active.staticConfig == LastConfig(p, old(active.staticConfig), ops[..i])
        invariant active.discoveredRoutes == LastDiscovered(p, old(active.discoveredRoutes), ops[..i])
      {
        assert ops[..i + 1][..i] == ops[..i] && ops[..i + 1][i] == ops[i];
        assert [ops[i]][..0] == [];
        var _ := Perform(ops[i]);
      }
      assert ops[..|ops|] == ops;
    }
  }

  lemma ListenNotEmpty(p: Platform, cfg: Config)
    requires ValidConfig(p, cfg)
    ensures cfg.listen != ""
  {
    assert cfg.listen == "" ==> TrimSpace(p, cfg.listen) == "";
  }

  /** Every connection accepted after any run is routed by the three-tier specification over the
      last applied configuration and routes. */
  lemma ActiveLookup(s: Server, address: string)
    requires s.Valid()
    ensures Select(s.p, s.active.router, address)
            == Lookup(s.p, s.active.staticConfig, s.active.discoveredRoutes, address)
  {
    SelectIsLookup(s.p, s.active.staticConfig, s.active.discoveredRoutes, s.active, address);
  }
}
