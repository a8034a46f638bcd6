/** internal/router: the route table and the selection of a backend for an address. */
module Routing {
  import opened GoText
  import opened HostAddr
  import opened RouteConfig
  import opened Merge

  datatype RouteEntry = RouteEntry(route: Route, matchKind: string)

  datatype Router = Router(routes: map<string, RouteEntry>, defaultBackend: string, unknownHostPolicy: string)

  datatype Selection = Selection(
    backend: string,
    statusBackend: string,
    matchedBy: string,
    matchKind: string,
    routeSource: string,
    canonicalServerAddress: string,
    statusOverride: Option<StatusOverride>)

  datatype Outcome = Selected(selection: Selection) | InvalidAddress | NoRoute

  const CANONICAL := "canonical"
  const ALIAS := "alias"

  /** How a route answers to host, if it does. */
  function Claimant(p: Platform, r: Route, host: string): Option<string> {
    if Matches(p, r.aliases, host) > 0 then Some(ALIAS)
    else if Normalize(p, r.serverAddress) == Ok(host) then Some(CANONICAL)
    else None
  }

  /** The route as the table stores it. */
  function Prepared(p: Platform, r: Route): Route {
    r.(serverAddress := NormalizedOr(p, r.serverAddress), source := if r.source == "" then SOURCE_STATIC else r.source)
  }

  /** The entry a later route writes over an earlier one. */
  function Owner(p: Platform, routes: seq<Route>, host: string): Option<RouteEntry> {
    if routes == [] then None
    else
      var last := routes[|routes| - 1];
      match Claimant(p, last, host)
      case Some(kind) => Some(RouteEntry(Prepared(p, last), kind))
      case None => Owner(p, routes[..|routes| - 1], host)
  }

  ghost predicate IsTable(p: Platform, routes: seq<Route>, table: map<string, RouteEntry>) {
    && (forall host :: host in table ==> Owner(p, routes, host) == Some(table[host]))
    && (forall host :: host !in table ==> Owner(p, routes, host) == None)
  }

  method ValidateConfig(p: Platform, cfg: Config) returns (ok: bool)
    ensures ok <==> ValidConfig(p, cfg)
  {
    var defaultErrs := ValidateDefault(p, cfg);
    var errs := ValidateRoutes(p, cfg.routes);
    ok := TrimSpace(p, cfg.listen) != "" && cfg.otherSettingsValid && defaultErrs == [] && errs == [];
  }

  /** router.New: fails exactly on an invalid configuration, and otherwise indexes every identity. */
  method New(p: Platform, cfg: Config) returns (r: Result<Router>)
    ensures r.Ok? <==> ValidConfig(p, cfg)
    ensures r.Ok? ==>
      && IsTable(p, cfg.routes, r.value.routes)
      && r.value.defaultBackend == cfg.defaultRoute.backend
      && r.value.unknownHostPolicy == cfg.unknownHostPolicy
  {
    hide Normalize, ValidDefault, ValidTargets;
    var ok := ValidateConfig(p, cfg);
    if !ok {
      return Err("invalid config");
    }
    var table: map<string, RouteEntry> := map[];
    for i := 0 to |cfg.routes|
      invariant IsTable(p, cfg.routes[..i], table)
    {
      var route := cfg.routes[i];
      assert SoundRoute(p, route);
      assert Normalize(p, Identities(route)[0]).Ok?;
      forall k | 0 <= k < |route.aliases| ensures Normalize(p, route.aliases[k]).Ok? {
        assert Identities(route)[k + 1] == route.aliases[k];
      }
      ghost var before := table;
      table := Index(p, table, Prepared(p, route), route);
      TableStep(p, cfg.routes[..i], route, before, table);
      assert cfg.routes[..i + 1] == cfg.routes[..i] + [route];
    }
    assert cfg.routes[..|cfg.routes|] == cfg.routes;
    return Ok(Router(table, cfg.defaultRoute.backend, cfg.unknownHostPolicy));
  }

  /** One route's entries over those already there. */
  ghost predicate Indexed(p: Platform, table: map<string, RouteEntry>, route: Route, table': map<string, RouteEntry>) {
    forall host ::
      var kind := Claimant(p, route, host);
      && (kind.Some? ==> host in table' && table'[host] == RouteEntry(Prepared(p, route), kind.value))
      && (kind.None? ==> (host in table' <==> host in table) && (host in table ==> table'[host] == table[host]))
  }

  /** The entries after the address and the first k aliases. */
  ghost predicate IndexedTo(p: Platform, table: map<string, RouteEntry>, route: Route, k: nat, table': map<string, RouteEntry>)
    requires k <= |route.aliases|
  {
    forall host ::
      if Matches(p, route.aliases[..k], host) > 0 then host in table' && table'[host] == RouteEntry(Prepared(p, route), ALIAS)
      else if Normalize(p, route.serverAddress) == Ok(host) then host in table' && table'[host] == RouteEntry(Prepared(p, route), CANONICAL)
      else (host in table' <==> host in table) && (host in table ==> table'[host] == table[host])
  }

  lemma IndexAlias(p: Platform, table: map<string, RouteEntry>, route: Route, k: nat, table': map<string, RouteEntry>)
    requires k < |route.aliases| && Normalize(p, route.aliases[k]).Ok? && IndexedTo(p, table, route, k, table')
    ensures IndexedTo(p, table, route, k + 1, table'[Normalize(p, route.aliases[k]).value := RouteEntry(Prepared(p, route), ALIAS)])
  {
    hide Normalize, Prepared;
    assert route.aliases[..k + 1][..k] == route.aliases[..k];
  }

  method Index(p: Platform, table: map<string, RouteEntry>, prepared: Route, route: Route)
    returns (table': map<string, RouteEntry>)
    requires prepared == Prepared(p, route)
    requires Normalize(p, route.serverAddress).Ok? && AllNormalize(p, route.aliases)
    ensures Indexed(p, table, route, table')
  {
    hide Normalize;
    table' := table[prepared.serverAddress := RouteEntry(prepared, CANONICAL)];
    assert IndexedTo(p, table, route, 0, table');
    for k := 0 to |route.aliases|
      invariant IndexedTo(p, table, route, k, table')
    {
      hide IndexedTo;
      var address := Normalize(p, route.aliases[k]).value;
      IndexAlias(p, table, route, k, table');
      table' := table'[address := RouteEntry(prepared, ALIAS)];
    }
    assert route.aliases[..|route.aliases|] == route.aliases;
  }

  lemma TableStep(p: Platform, routes: seq<Route>, route: Route, table: map<string, RouteEntry>, table': map<string, RouteEntry>)
    requires IsTable(p, routes, table) && Indexed(p, table, route, table')
    ensures IsTable(p, routes + [route], table')
  {
    hide Claimant, Prepared;
    assert (routes + [route])[..|routes|] == routes;
  }

  function Select(p: Platform, router: Router, serverAddress: string): Outcome {
    match Normalize(p, serverAddress)
    case Err(_) => InvalidAddress
    case Ok(address) =>
      if address in router.routes then
        var entry := router.routes[address];
        Selected(Selection(entry.route.backend, entry.route.statusBackend, "route", entry.matchKind,
                           entry.route.source, entry.route.serverAddress, entry.route.statusOverride))
      else Fallback(router.unknownHostPolicy, router.defaultBackend)
  }

  function Fallback(policy: string, backend: string): Outcome {
    if policy == UNKNOWN_HOST_DEFAULT && backend != "" then
      Selected(Selection(backend, "", "default", "default", "default", "", None))
    else NoRoute
  }

  lemma ClaimantMatches(p: Platform, r: Route, host: string)
    ensures Claimant(p, r, host).Some? <==> Matches(p, Identities(r), host) > 0
  {
    hide Normalize;
    MatchesPositive(p, r.aliases, host);
    MatchesPositive(p, Identities(r), host);
    if Matches(p, r.aliases, host) > 0 {
      var k :| 0 <= k < |r.aliases| && Normalize(p, r.aliases[k]) == Ok(host);
      assert Identities(r)[k + 1] == r.aliases[k];
    }
    assert Identities(r)[0] == r.serverAddress;
    if k :| 0 <= k < |Identities(r)| && Normalize(p, Identities(r)[k]) == Ok(host) {
      assert k > 0 ==> Identities(r)[k] == r.aliases[k - 1];
    }
  }

  /** With no address claimed twice, the owner of a host is the route that claims it. */
  lemma {:induction false} OwnerIsClaimant(p: Platform, routes: seq<Route>, k: nat, host: string)
    requires Claims(p, routes, host) <= 1
    requires k < |routes| && Claimant(p, routes[k], host).Some?
    ensures Owner(p, routes, host) == Some(RouteEntry(Prepared(p, routes[k]), Claimant(p, routes[k], host).value))
  {
    hide Claimant, Prepared, Matches;
    var init, last := routes[..|routes| - 1], routes[|routes| - 1];
    if k < |init| {
      ClaimantMatches(p, routes[k], host);
      ClaimsCovers(p, init, k, host);
      ClaimantMatches(p, last, host);
      OwnerIsClaimant(p, init, k, host);
    }
  }

  lemma {:induction false} NoOwner(p: Platform, routes: seq<Route>, host: string)
    requires Claims(p, routes, host) == 0
    ensures Owner(p, routes, host) == None
  {
    hide Claimant, Prepared, Matches;
    if routes != [] {
      ClaimantMatches(p, routes[|routes| - 1], host);
      NoOwner(p, routes[..|routes| - 1], host);
    }
  }

  /** Selecting a normalised address selects the same as the address it came from. */
  lemma SelectNormalized(p: Platform, router: Router, address: string)
    requires Normalize(p, address).Ok?
    ensures Select(p, router, Normalize(p, address).value) == Select(p, router, address) != InvalidAddress
  {
    hide Normalize;
    Idempotent(p, address);
  }

  /** An entry of the table is one of the routes under its canonical address; a source that was
      not set reads static. */
  lemma {:induction false} EntryOf(p: Platform, routes: seq<Route>, host: string) returns (i: nat)
    requires Owner(p, routes, host).Some?
    ensures i < |routes| && AnswersTo(p, routes[i], host)
    ensures var r, e := routes[i], Owner(p, routes, host).value.route;
      && e.backend == r.backend && e.statusBackend == r.statusBackend && e.statusOverride == r.statusOverride
      && e.source == (if r.source == "" then "static" else r.source)
      && (Normalize(p, r.serverAddress).Ok? ==> e.serverAddress == Normalize(p, r.serverAddress).value)
  {
    hide Normalize;
    var last := routes[|routes| - 1];
    MatchesPositive(p, last.aliases, host);
    if Claimant(p, last, host).Some? {
      i := |routes| - 1;
      hide Matches;
    } else {
      i := EntryOf(p, routes[..|routes| - 1], host);
    }
  }

  /** One of the route's addresses names the host. */
  ghost predicate AnswersTo(p: Platform, r: Route, host: string) {
    Normalize(p, r.serverAddress) == Ok(host) || exists k :: 0 <= k < |r.aliases| && Normalize(p, r.aliases[k]) == Ok(host)
  }
}
