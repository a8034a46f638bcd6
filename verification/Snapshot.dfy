/** internal/proxy: the route snapshot, and the short specification that its lookups meet. */
module Snapshot {
  import opened GoText
  import opened HostAddr
  import opened Lists
  import opened Sorting
  import opened RouteConfig
  import opened Discovery
  import opened Merge
  import opened MergeProperties
  import opened Routing

  datatype RouteSnapshot = RouteSnapshot(
    staticConfig: Config, config: Config, router: Router, merge: MergeResult, discoveredRoutes: seq<DiscoveredRoute>)

  ghost predicate IsSnapshot(p: Platform, cfg: Config, discovered: seq<DiscoveredRoute>, s: RouteSnapshot) {
    && s.staticConfig == cfg
    && IsMerge(p, cfg.routes, discovered, cfg.defaultRoute, s.merge)
    && s.config == cfg.(routes := s.merge.routes)
    && IsTable(p, s.merge.routes, s.router.routes)
    && s.router.defaultBackend == cfg.defaultRoute.backend
    && s.router.unknownHostPolicy == cfg.unknownHostPolicy
    && s.discoveredRoutes == discovered
  }

  /** Building succeeds exactly on a valid configuration: whatever was discovered, the second
      validation inside router.New never fails. */
  method BuildRouteSnapshot(p: Platform, cfg: Config, discovered: seq<DiscoveredRoute>) returns (r: Result<RouteSnapshot>)
    ensures r.Ok? <==> ValidConfig(p, cfg)
    ensures r.Ok? ==> IsSnapshot(p, cfg, discovered, r.value)
  {
    hide ValidRoutes, MergedRoutes, ValidDefault;
    var ok := ValidateConfig(p, cfg);
    if !ok {
      return Err("invalid config");
    }
    var merge := MergeRoutes(p, cfg.routes, discovered, cfg.defaultRoute);
    var merged := cfg.(routes := merge.routes);
    var table := New(p, merged);
    if table.Err? {
      DefaultUnchanged(p, cfg, merge.routes);
      MergeStaysValid(p, cfg.routes, discovered);
      return Err("invalid merged config");
    }
    return Ok(RouteSnapshot(cfg, merged, table.value, merge, discovered));
  }

  lemma DefaultUnchanged(p: Platform, cfg: Config, routes: seq<Route>)
    ensures ValidDefault(p, cfg.(routes := routes)) == ValidDefault(p, cfg)
  {
  }

  /** How a static route answers to host: by an alias, by its own address, or not at all. */
  function AnswersBy(p: Platform, r: Route, host: string): Option<string> {
    if exists i :: 0 <= i < |r.aliases| && Normalize(p, r.aliases[i]) == Ok(host) then Some("alias")
    else if Normalize(p, r.serverAddress) == Ok(host) then Some("canonical")
    else None
  }

  /** First tier: the static route that owns host, and how. */
  function StaticOwner(p: Platform, routes: seq<Route>, host: string): Option<(Route, string)> {
    if routes == [] then None
    else match AnswersBy(p, routes[0], host)
      case Some(kind) => Some((routes[0], kind))
      case None => StaticOwner(p, routes[1..], host)
  }

  lemma AnswersIsClaimant(p: Platform, r: Route, host: string)
    ensures AnswersBy(p, r, host) == Claimant(p, r, host)
  {
    hide Normalize;
    MatchesPositive(p, r.aliases, host);
  }

  function WithHost(host: string): DiscoveredRoute -> seq<DiscoveredRoute> {
    (d: DiscoveredRoute) => if d.host == host then [d] else []
  }

  /** Second tier: the discovered routes for host that pass validation. */
  function NamedBy(p: Platform, discovered: seq<DiscoveredRoute>, host: string): seq<DiscoveredRoute> {
    Collect(WithHost(host), Accepted(p, discovered))
  }

  /** The three tiers for a host: its static owner, else the only one of the named routes, else
      the default backend if the policy for unknown hosts asks for it, else nothing. */
  function ThreeTiers(p: Platform, cfg: Config, host: string, named: seq<DiscoveredRoute>): Outcome {
    match StaticOwner(p, cfg.routes, host)
    case Some((r, kind)) =>
      var canonical := Normalize(p, r.serverAddress);
      Selected(Selection(r.backend, r.statusBackend, "route", kind, "static",
                         if canonical.Ok? then canonical.value else r.serverAddress, r.statusOverride))
    case None =>
      if |named| == 1 then
        Selected(Selection(named[0].backend, "", "route", "canonical", "discovered", host, None))
      else if cfg.unknownHostPolicy == "default" && cfg.defaultRoute.backend != "" then
        Selected(Selection(cfg.defaultRoute.backend, "", "default", "default", "default", "", None))
      else NoRoute
  }

  /** What an address should select, given the discovered routes. */
  function Lookup(p: Platform, cfg: Config, discovered: seq<DiscoveredRoute>, address: string): Outcome {
    match Normalize(p, address)
    case Err(_) => InvalidAddress
    case Ok(host) => ThreeTiers(p, cfg, host, NamedBy(p, discovered, host))
  }

  lemma {:induction false} StaticOwnerClaims(p: Platform, routes: seq<Route>, host: string)
    ensures StaticOwner(p, routes, host).None? <==> Claims(p, routes, host) == 0
    ensures StaticOwner(p, routes, host).Some? ==>
      exists k :: 0 <= k < |routes| && StaticOwner(p, routes, host).value == (routes[k], Claimant(p, routes[k], host).GetOr(""))
                  && Claimant(p, routes[k], host).Some?
  {
    hide Claimant, Matches, AnswersBy;
    if routes != [] {
      AnswersIsClaimant(p, routes[0], host);
      ClaimantMatches(p, routes[0], host);
      ClaimsConcat(p, [routes[0]], routes[1..], host);
      assert [routes[0]] + routes[1..] == routes;
      assert [routes[0]][..0] == [];
      StaticOwnerClaims(p, routes[1..], host);
      if Claimant(p, routes[0], host).None? && StaticOwner(p, routes[1..], host).Some? {
        var k :| 0 <= k < |routes[1..]|
          && StaticOwner(p, routes[1..], host).value == (routes[1..][k], Claimant(p, routes[1..][k], host).GetOr(""))
          && Claimant(p, routes[1..][k], host).Some?;
        assert routes[1..][k] == routes[k + 1];
      }
    }
  }

  lemma {:induction false} NamedLength(s: seq<DiscoveredRoute>, host: string)
    ensures |Collect(WithHost(host), s)| == Tally(DiscoveredHost(), s, host)
  {
    if s != [] {
      NamedLength(s[..|s| - 1], host);
    }
  }

  lemma StaticClaimant(p: Platform, r: Route, host: string)
    ensures Claimant(p, AsStatic(p, r), host) == Claimant(p, r, host)
    ensures Prepared(p, AsStatic(p, r)) == AsStatic(p, r)
  {
    hide Normalize, Matches, NormalizedOr;
    var s := AsStatic(p, r);
    forall i | 0 <= i < |r.aliases| ensures Normalize(p, s.aliases[i]) == Normalize(p, r.aliases[i]) {
      NormalizedOrSame(p, r.aliases[i]);
    }
    MatchesSame(p, s.aliases, r.aliases, host);
    NormalizedOrSame(p, r.serverAddress);
    NormalizedOrTwice(p, r.serverAddress);
  }

  lemma NormalizedOrTwice(p: Platform, address: string)
    ensures NormalizedOr(p, NormalizedOr(p, address)) == NormalizedOr(p, address)
  {
    hide Normalize;
    NormalizedOrSame(p, address);
  }

  /** The merged table's owner of a host that a static route takes. */
  lemma OwnerStatic(p: Platform, statics: seq<Route>, discovered: seq<DiscoveredRoute>, host: string, k: nat)
    requires ValidRoutes(p, statics)
    requires k < |statics| && Claimant(p, statics[k], host).Some?
    ensures Owner(p, MergedRoutes(p, statics, discovered), host)
            == Some(RouteEntry(AsStatic(p, statics[k]), Claimant(p, statics[k], host).value))
  {
    hide Claimant, AsStatic, Prepared, SoundRoute, StableSort, Owner, Claims, Accepted;
    var merged := MergedRoutes(p, statics, discovered);
    var r := AsStatic(p, statics[k]);
    SortMembers(LessConfigRoute, Unsorted(p, statics, discovered));
    CollectMembers(Statics(p), statics, r);
    assert r in Statics(p)(statics[k]);
    assert r in Unsorted(p, statics, discovered);
    assert r in merged;
    var m :| 0 <= m < |merged| && merged[m] == r;
    MergeStaysValid(p, statics, discovered);
    StaticClaimant(p, statics[k], host);
    OwnerIsClaimant(p, merged, m, host);
  }

  /** The merged table's owner of a host that only one accepted discovered route names. */
  lemma OwnerDiscovered(p: Platform, statics: seq<Route>, discovered: seq<DiscoveredRoute>, host: string)
    requires ValidRoutes(p, statics)
    requires Claims(p, statics, host) == 0 && |NamedBy(p, discovered, host)| == 1
    ensures Owner(p, MergedRoutes(p, statics, discovered), host)
            == Some(RouteEntry(AsRoute(NamedBy(p, discovered, host)[0]), CANONICAL))
    ensures NamedBy(p, discovered, host)[0].host == host
  {
    hide SoundRoute, StableSort, Owner, Claims, ValidateDiscovered, Normalize, Collect, ValidBackend;
    var merged, sorted := MergedRoutes(p, statics, discovered), SortedAccepted(p, discovered);
    var d := NamedBy(p, discovered, host)[0];
    CollectMembers(WithHost(host), Accepted(p, discovered), d);
    SortMembers(LessDiscovered, Accepted(p, discovered));
    SortKeeps(LessDiscovered, Accepted(p, discovered));
    TallyInMultiset(DiscoveredHost(), sorted, Accepted(p, discovered), host);
    NamedLength(Accepted(p, discovered), host);
    assert d.host == host && d in sorted;
    var k :| 0 <= k < |sorted| && sorted[k] == d;
    assert AsRoute(d) in Kept(p, statics, sorted)(sorted[k]);
    CollectMembers(Kept(p, statics, sorted), sorted, AsRoute(d));
    SortMembers(LessConfigRoute, Unsorted(p, statics, discovered));
    assert AsRoute(d) in Unsorted(p, statics, discovered);
    assert AsRoute(d) in merged;
    var m :| 0 <= m < |merged| && merged[m] == AsRoute(d);
    AcceptedMembers(p, discovered, d);
    DiscoveredClaimant(p, d);
    MergeStaysValid(p, statics, discovered);
    OwnerIsClaimant(p, merged, m, host);
  }

  lemma DiscoveredClaimant(p: Platform, d: DiscoveredRoute)
    requires Normalize(p, d.host) == Ok(d.host)
    ensures Claimant(p, AsRoute(d), d.host) == Some(CANONICAL)
    ensures Prepared(p, AsRoute(d)) == AsRoute(d)
  {
    hide Normalize;
  }

  /** For every valid configuration, every list of discovered routes and every address, the
      snapshot's router selects what the three-tier specification says. */
  lemma SelectIsLookup(p: Platform, cfg: Config, discovered: seq<DiscoveredRoute>, s: RouteSnapshot, address: string)
    requires ValidConfig(p, cfg) && IsSnapshot(p, cfg, discovered, s)
    ensures Select(p, s.router, address) == Lookup(p, cfg, discovered, address)
  {
    hide Normalize, Claimant, Owner, Claims, StaticOwner, NamedBy, MergedRoutes, ValidRoutes, ValidDefault, Collect, StableSort;
    var normalized := Normalize(p, address);
    if normalized.Ok? {
      var host := normalized.value;
      StaticOwnerClaims(p, cfg.routes, host);
      if StaticOwner(p, cfg.routes, host).Some? {
        var k :| 0 <= k < |cfg.routes|
          && StaticOwner(p, cfg.routes, host).value == (cfg.routes[k], Claimant(p, cfg.routes[k], host).GetOr(""))
          && Claimant(p, cfg.routes[k], host).Some?;
        OwnerStatic(p, cfg.routes, discovered, host, k);
      } else if |NamedBy(p, discovered, host)| == 1 {
        OwnerDiscovered(p, cfg.routes, discovered, host);
      } else {
        NamedLengthAccepted(p, discovered, host);
        MergedClaims(p, cfg.routes, discovered, host);
        NoOwner(p, s.merge.routes, host);
      }
    }
  }

  /** The third tier for a host that no static route takes and not exactly one accepted discovered
      route names: nothing, unless the policy is "default" and there is a default backend. */
  lemma ThirdTier(p: Platform, cfg: Config, discovered: seq<DiscoveredRoute>, s: RouteSnapshot, address: string, host: string)
    requires ValidConfig(p, cfg) && IsSnapshot(p, cfg, discovered, s) && Normalize(p, address) == Ok(host)
    requires Claims(p, cfg.routes, host) == 0 && |NamedBy(p, discovered, host)| != 1
    ensures var outcome := Select(p, s.router, address);
      && (outcome == NoRoute <==> cfg.unknownHostPolicy != "default" || cfg.defaultRoute.backend == "")
      && (outcome != NoRoute ==>
            outcome.Selected? && outcome.selection.backend == cfg.defaultRoute.backend && outcome.selection.matchedBy == "default")
  {
    hide Normalize, Claims, StaticOwner, NamedBy, ValidConfig, IsSnapshot, Select;
    SelectIsLookup(p, cfg, discovered, s, address);
    StaticOwnerClaims(p, cfg.routes, host);
  }

  lemma NamedLengthAccepted(p: Platform, discovered: seq<DiscoveredRoute>, host: string)
    ensures |NamedBy(p, discovered, host)| == Tally(DiscoveredHost(), Accepted(p, discovered), host)
  {
    NamedLength(Accepted(p, discovered), host);
  }
}
