/** From Service annotations to a selected backend: discovery, merge and lookup together. */
module Pipeline {
  import opened GoText
  import opened HostAddr
  import opened Lists
  import opened Sorting
  import opened RouteConfig
  import opened Discovery
  import opened Merge
  import opened MergeProperties
  import opened Routing
  import opened Snapshot

  /** The route of a candidate that names host. */
  function RouteFor(host: string): RouteCandidate -> seq<DiscoveredRoute> {
    (c: RouteCandidate) => if c.route.host == host then [c.route] else []
  }

  /** The routes that services offer for host. */
  function Offers(p: Platform, prefix: string, services: seq<ServiceInput>, host: string): seq<DiscoveredRoute> {
    Collect(RouteFor(host), Collect(Candidates(p, EffectivePrefix(prefix)), services))
  }

  lemma SortedMember(p: Platform, prefix: string, services: seq<ServiceInput>, c: RouteCandidate)
    requires c in SortedCandidates(p, prefix, services)
    ensures ValidateDiscovered(p, c.route) == Ok(c.route)
  {
    hide ParseServiceAnnotations, ValidateDiscovered;
    var f := Candidates(p, EffectivePrefix(prefix));
    SortMembers(LessCandidate, Collect(f, services));
    CollectMembers(f, services, c);
    var k :| 0 <= k < |services| && c in f(services[k]);
    EmittedAccepted(p, EffectivePrefix(prefix), services[k]);
  }

  /** Every discovered route passes the merge's validation unchanged. */
  lemma RoutesAccepted(p: Platform, prefix: string, services: seq<ServiceInput>, d: DiscoveredRoute)
    requires d in DiscoveredRoutes(p, prefix, services)
    ensures ValidateDiscovered(p, d) == Ok(d)
  {
    hide ValidateDiscovered, SortedCandidates, Tally;
    var sorted := SortedCandidates(p, prefix, services);
    CollectMembers(Unrivalled(sorted), sorted, d);
    var k :| 0 <= k < |sorted| && d in Unrivalled(sorted)(sorted[k]);
    SortedMember(p, prefix, services, sorted[k]);
  }

  lemma {:induction false} AcceptedIsAll(p: Platform, routes: seq<DiscoveredRoute>)
    requires forall d :: d in routes ==> ValidateDiscovered(p, d) == Ok(d)
    ensures Accepted(p, routes) == routes && Collect(Invalid(p), routes) == []
  {
    hide ValidateDiscovered;
    if routes != [] {
      hide Collect;
      var init, last := routes[..|routes| - 1], routes[|routes| - 1];
      assert routes == init + [last];
      AcceptedIsAll(p, init);
      CollectSnoc(Valid(p), init, last);
      CollectSnoc(Invalid(p), init, last);
    }
  }

  lemma {:induction false} UnrivalledFor(all: seq<RouteCandidate>, some: seq<RouteCandidate>, host: string)
    ensures Collect(WithHost(host), Collect(Unrivalled(all), some))
            == if Tally(HostOf(), all, host) > 1 then [] else Collect(RouteFor(host), some)
  {
    hide Tally;
    if some != [] {
      var init, last := some[..|some| - 1], some[|some| - 1];
      UnrivalledFor(all, init, host);
      CollectConcat(WithHost(host), Collect(Unrivalled(all), init), Unrivalled(all)(last));
      assert Collect(WithHost(host), []) == [];
      CollectSnoc(WithHost(host), [], last.route);
    }
  }

  lemma {:induction false} OffersLength(cs: seq<RouteCandidate>, host: string)
    ensures |Collect(RouteFor(host), cs)| == Tally(HostOf(), cs, host)
  {
    if cs != [] {
      OffersLength(cs[..|cs| - 1], host);
    }
  }

  /** Discovery passes on a host's route exactly when one service alone offers it. */
  lemma NamedIsOnlyOffer(p: Platform, prefix: string, services: seq<ServiceInput>, host: string)
    ensures var offers := Offers(p, prefix, services, host);
            NamedBy(p, DiscoveredRoutes(p, prefix, services), host) == if |offers| == 1 then offers else []
  {
    hide ValidateDiscovered, ParseServiceAnnotations, LessCandidate, StableSort, Accepted, Collect, Tally;
    var routes := DiscoveredRoutes(p, prefix, services);
    var found := Collect(Candidates(p, EffectivePrefix(prefix)), services);
    var sorted := SortedCandidates(p, prefix, services);
    forall d | d in routes ensures ValidateDiscovered(p, d) == Ok(d) { RoutesAccepted(p, prefix, services, d); }
    AcceptedIsAll(p, routes);
    UnrivalledFor(sorted, sorted, host);
    SortKeeps(LessCandidate, found);
    OffersLength(sorted, host);
    OffersLength(found, host);
    CollectOrderFree(RouteFor(host), sorted, found);
    Singletons(Collect(RouteFor(host), sorted), Collect(RouteFor(host), found));
  }

  lemma Singletons<A>(s: seq<A>, t: seq<A>)
    requires multiset(s) == multiset(t)
    ensures |s| == |t| && (|s| == 1 ==> s == t)
  {
    assert |s| == |multiset(s)| == |multiset(t)| == |t|;
    if |s| == 1 {
      assert s == [s[0]] && t == [t[0]];
      assert t[0] in multiset(s);
    }
  }

  /** What an address should select, given the services alone. */
  function ServiceLookup(p: Platform, cfg: Config, prefix: string, services: seq<ServiceInput>, address: string): Outcome {
    match Normalize(p, address)
    case Err(_) => InvalidAddress
    case Ok(host) => ThreeTiers(p, cfg, host, Offers(p, prefix, services, host))
  }

  /** The whole chain for every configuration, service list and address: the static owner of the
      host, else the route of the only service that offers it, else the default or nothing. */
  lemma EndToEnd(p: Platform, cfg: Config, prefix: string, services: seq<ServiceInput>,
                 built: BuildResult, s: RouteSnapshot, address: string)
    requires ValidConfig(p, cfg)
    requires IsBuild(p, prefix, services, built) && IsSnapshot(p, cfg, built.routes, s)
    ensures Select(p, s.router, address) == ServiceLookup(p, cfg, prefix, services, address)
  {
    hide Normalize, StaticOwner, Offers, NamedBy, DiscoveredRoutes, NormalizedOr, IsSnapshot, ValidConfig, Select;
    SelectIsLookup(p, cfg, built.routes, s, address);
    if Normalize(p, address).Ok? {
      NamedIsOnlyOffer(p, prefix, services, Normalize(p, address).value);
    }
  }

  /** Within the chain the merge turns a discovered route down only for static precedence. */
  lemma OnlyStaticPrecedence(p: Platform, prefix: string, services: seq<ServiceInput>, built: BuildResult,
                             statics: seq<Route>, def: DefaultRoute, r: MergeResult, i: Ignored)
    requires IsBuild(p, prefix, services, built) && IsMerge(p, statics, built.routes, def, r)
    requires i in r.ignored
    ensures i.reason == STATIC_PRECEDENCE && Claims(p, statics, i.host) > 0
  {
    hide ValidateDiscovered, StableSort, Claims, SortedCandidates, Collect;
    var routes := built.routes;
    forall d | d in routes ensures ValidateDiscovered(p, d) == Ok(d) { RoutesAccepted(p, prefix, services, d); }
    AcceptedIsAll(p, routes);
    var sorted := SortedAccepted(p, routes);
    SortMembers(LessIgnored, Rejections(p, statics, routes));
    assert i in Rejections(p, statics, routes);
    CollectMembers(Dropped(p, statics, sorted), sorted, i);
    var k :| 0 <= k < |sorted| && i in Dropped(p, statics, sorted)(sorted[k]);
    SortKeeps(LessDiscovered, routes);
    TallyInMultiset(DiscoveredHost(), sorted, routes, sorted[k].host);
    NamedIsOnlyOffer(p, prefix, services, sorted[k].host);
    NamedLengthAccepted(p, routes, sorted[k].host);
  }
}
