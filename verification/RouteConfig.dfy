/** internal/config: routes, and the part of Validate that judges them. */
module RouteConfig {
  import opened GoText
  import opened HostAddr
  import opened HostPort

  datatype StatusOverride = StatusOverride(
    motd: string, protocolName: string, protocolVersion: int, maxPlayers: int, onlinePlayers: int)

  datatype Route = Route(
    serverAddress: string,
    aliases: seq<string>,
    backend: string,
    statusBackend: string,
    statusOverride: Option<StatusOverride>,
    source: string)

  datatype DefaultRoute = DefaultRoute(backend: string, mode: string)

  /** otherSettingsValid stands for every check of Validate that reads neither routes nor the
      fields named here. */
  datatype Config = Config(
    listen: string,
    otherSettingsValid: bool,
    defaultRoute: DefaultRoute,
    routes: seq<Route>,
    unknownHostPolicy: string)

  const UNKNOWN_HOST_DENY := "deny"
  const UNKNOWN_HOST_DEFAULT := "default"
  const ROUTE_MODE_ALLOW := "allow"

  predicate ValidBackend(p: Platform, backend: string) {
    var split := SplitHostPort(backend);
    && split.Ok?
    && TrimSpace(p, split.value.0) != ""
    && TrimSpace(p, split.value.1) != ""
    && ValidPort(split.value.1)
    && Normalize(p, split.value.0).Ok?
  }

  predicate ValidOverride(p: Platform, o: Option<StatusOverride>) {
    o.Some? ==>
      && TrimSpace(p, o.value.motd) != ""
      && TrimSpace(p, o.value.protocolName) != ""
      && o.value.protocolVersion >= 0 && o.value.maxPlayers >= 0 && o.value.onlinePlayers >= 0
  }

  /** The addresses a route answers to, its canonical one first. */
  function Identities(r: Route): seq<string> {
    [r.serverAddress] + r.aliases
  }

  /** How many of the identities normalise to host. */
  function Matches(p: Platform, ids: seq<string>, host: string): nat {
    if ids == [] then 0
    else Matches(p, ids[..|ids| - 1], host) + (if Normalize(p, ids[|ids| - 1]) == Ok(host) then 1 else 0)
  }

  /** How often host is claimed by the routes together. */
  function Claims(p: Platform, routes: seq<Route>, host: string): nat {
    if routes == [] then 0
    else Claims(p, routes[..|routes| - 1], host) + Matches(p, Identities(routes[|routes| - 1]), host)
  }

  predicate AllNormalize(p: Platform, ids: seq<string>) {
    forall i :: 0 <= i < |ids| ==> Normalize(p, ids[i]).Ok?
  }

  predicate ValidTargets(p: Platform, r: Route) {
    && ValidBackend(p, r.backend)
    && (r.statusBackend != "" ==> ValidBackend(p, r.statusBackend))
    && ValidOverride(p, r.statusOverride)
  }

  /** Every identity is an address and every target is usable. */
  predicate SoundRoute(p: Platform, r: Route) {
    AllNormalize(p, Identities(r)) && ValidTargets(p, r)
  }

  /** The route section of Validate: sound routes, no address claimed twice. */
  ghost predicate ValidRoutes(p: Platform, routes: seq<Route>) {
    && (forall i :: 0 <= i < |routes| ==> SoundRoute(p, routes[i]))
    && (forall host :: Claims(p, routes, host) <= 1)
  }

  /** The checks on the default route and the policy for unknown hosts. */
  predicate ValidDefault(p: Platform, cfg: Config) {
    && (|| cfg.unknownHostPolicy == "deny"
        || (cfg.unknownHostPolicy == "default" && TrimSpace(p, cfg.defaultRoute.backend) != ""))
    && (cfg.defaultRoute.backend != "" ==>
          ValidBackend(p, cfg.defaultRoute.backend) && cfg.defaultRoute.mode == "allow")
  }

  /** Validate as a whole. */
  ghost predicate ValidConfig(p: Platform, cfg: Config) {
    && TrimSpace(p, cfg.listen) != ""
    && cfg.otherSettingsValid
    && ValidDefault(p, cfg)
    && ValidRoutes(p, cfg.routes)
  }

  lemma {:induction false} MatchesPositive(p: Platform, ids: seq<string>, host: string)
    ensures Matches(p, ids, host) > 0 <==> exists i :: 0 <= i < |ids| && Normalize(p, ids[i]) == Ok(host)
  {
    hide Normalize;
    if ids != [] {
      var init := ids[..|ids| - 1];
      MatchesPositive(p, init, host);
      if Matches(p, init, host) > 0 {
        var i :| 0 <= i < |init| && Normalize(p, init[i]) == Ok(host);
        assert Normalize(p, ids[i]) == Ok(host);
      }
      if i :| 0 <= i < |ids| && Normalize(p, ids[i]) == Ok(host) {
        assert i < |init| ==> Normalize(p, init[i]) == Ok(host);
      }
    }
  }

  lemma {:induction false} ClaimsCovers(p: Platform, routes: seq<Route>, k: nat, host: string)
    requires k < |routes|
    ensures Claims(p, routes, host) >= Matches(p, Identities(routes[k]), host)
  {
    if k < |routes| - 1 {
      ClaimsCovers(p, routes[..|routes| - 1], k, host);
    }
  }

  /** One route's share of the duplicate scan: every identity is normalised and entered into
      seen unless it is there already. */
  method ScanIdentities(p: Platform, ids: seq<string>, seenBefore: set<string>)
    returns (errs: seq<string>, seen: set<string>)
    ensures errs == [] <==>
      && AllNormalize(p, ids)
      && forall host :: Matches(p, ids, host) + (if host in seenBefore then 1 else 0) <= 1
    ensures forall host :: host in seen <==> host in seenBefore || Matches(p, ids, host) > 0
  {
    hide Normalize;
    errs, seen := [], seenBefore;
    for k := 0 to |ids|
      invariant errs == [] <==>
        && AllNormalize(p, ids[..k])
        && forall host :: Matches(p, ids[..k], host) + (if host in seenBefore then 1 else 0) <= 1
      invariant forall host :: host in seen <==> host in seenBefore || Matches(p, ids[..k], host) > 0
    {
      assert ids[..k + 1][..k] == ids[..k];
      var addr := Normalize(p, ids[k]);
      ghost var before := errs;
      if addr.Err? {
        errs := errs + [addr.error];
        assert !AllNormalize(p, ids[..k + 1]) by { assert ids[..k + 1][k] == ids[k]; }
      } else if addr.value in seen {
        errs := errs + ["duplicates " + addr.value];
      } else {
        seen := seen + {addr.value};
      }
      assert addr.Ok? ==> (AllNormalize(p, ids[..k + 1]) <==> AllNormalize(p, ids[..k]));
      forall host
        ensures Matches(p, ids[..k + 1], host) == Matches(p, ids[..k], host) + (if addr == Ok(host) then 1 else 0)
      {
      }
    }
    assert ids[..|ids|] == ids;
  }

  /** validateStatusOverride: each field by itself. */
  method ValidateOverride(p: Platform, o: Option<StatusOverride>) returns (errs: seq<string>)
    ensures errs == [] <==> ValidOverride(p, o)
  {
    errs := [];
    if o.None? {
      return;
    }
    if TrimSpace(p, o.value.motd) == "" {
      errs := errs + ["motd must not be empty"];
    }
    if TrimSpace(p, o.value.protocolName) == "" {
      errs := errs + ["protocolName must not be empty"];
    }
    if o.value.protocolVersion < 0 {
      errs := errs + ["protocolVersion must not be negative"];
    }
    if o.value.maxPlayers < 0 {
      errs := errs + ["maxPlayers must not be negative"];
    }
    if o.value.onlinePlayers < 0 {
      errs := errs + ["onlinePlayers must not be negative"];
    }
  }

  /** The part of Validate about unknown hosts. */
  method ValidateDefault(p: Platform, cfg: Config) returns (errs: seq<string>)
    ensures errs == [] <==> ValidDefault(p, cfg)
  {
    hide ValidBackend;
    errs := [];
    if cfg.unknownHostPolicy == UNKNOWN_HOST_DEFAULT {
      if TrimSpace(p, cfg.defaultRoute.backend) == "" {
        errs := errs + ["defaultRoute.backend is required when unknownHostPolicy is default"];
      }
    } else if cfg.unknownHostPolicy != UNKNOWN_HOST_DENY {
      errs := errs + ["unknownHostPolicy"];
    }
    if cfg.defaultRoute.backend != "" {
      if !ValidBackend(p, cfg.defaultRoute.backend) {
        errs := errs + ["defaultRoute.backend"];
      }
      if cfg.defaultRoute.mode == "" {
        errs := errs + ["defaultRoute.mode must not be empty when defaultRoute.backend is set"];
      }
      if cfg.defaultRoute.mode != ROUTE_MODE_ALLOW {
        errs := errs + ["defaultRoute.mode"];
      }
    }
  }

  /** The route loop of Validate reports no error exactly when the routes are valid. */
  method ValidateRoutes(p: Platform, routes: seq<Route>) returns (errs: seq<string>)
    ensures errs == [] <==> ValidRoutes(p, routes)
  {
    hide Normalize, ValidBackend, ValidOverride;
    errs := [];
    var seen: set<string> := {};
    for i := 0 to |routes|
      invariant errs == [] <==> ValidRoutes(p, routes[..i])
      invariant forall host :: host in seen <==> Claims(p, routes[..i], host) > 0
    {
      var route := routes[i];
      ghost var before := seen;
      assert routes[..i + 1][..i] == routes[..i];
      var more: seq<string>;
      more, seen := ScanIdentities(p, Identities(route), seen);
      errs := errs + more;
      if !ValidBackend(p, route.backend) {
        errs := errs + ["backend"];
      }
      if route.statusBackend != "" && !ValidBackend(p, route.statusBackend) {
        errs := errs + ["statusBackend"];
      }
      var overrideErrs := ValidateOverride(p, route.statusOverride);
      errs := errs + overrideErrs;
      ValidSnoc(p, routes[..i], route);
      assert routes[..i + 1] == routes[..i] + [route];
      forall host
        ensures Claims(p, routes[..i + 1], host) == Claims(p, routes[..i], host) + Matches(p, Identities(route), host)
      {
      }
    }
    assert routes[..|routes|] == routes;
  }

  /** A further route brings no second claim to any host. */
  ghost predicate NoClash(p: Platform, routes: seq<Route>, r: Route) {
    forall host :: Claims(p, routes, host) + Matches(p, Identities(r), host) <= 1
  }

  lemma ClaimsSnoc(p: Platform, routes: seq<Route>, r: Route, host: string)
    ensures Claims(p, routes + [r], host) == Claims(p, routes, host) + Matches(p, Identities(r), host)
  {
    assert (routes + [r])[..|routes|] == routes;
  }

  lemma ValidSnoc(p: Platform, routes: seq<Route>, r: Route)
    ensures ValidRoutes(p, routes + [r]) <==> ValidRoutes(p, routes) && SoundRoute(p, r) && NoClash(p, routes, r)
  {
    hide SoundRoute, Matches;
    var all := routes + [r];
    assert all[|routes|] == r;
    if ValidRoutes(p, all) {
      forall i | 0 <= i < |routes| ensures SoundRoute(p, routes[i]) {
        assert all[i] == routes[i];
      }
      forall host ensures Claims(p, routes, host) + Matches(p, Identities(r), host) <= 1 {
        ClaimsSnoc(p, routes, r, host);
      }
    }
    if ValidRoutes(p, routes) && SoundRoute(p, r) && NoClash(p, routes, r) {
      forall i | 0 <= i < |all| ensures SoundRoute(p, all[i]) {
        assert i < |routes| ==> SoundRoute(p, routes[i]);
      }
      forall host ensures Claims(p, all, host) <= 1 {
        ClaimsSnoc(p, routes, r, host);
      }
    }
  }
}
