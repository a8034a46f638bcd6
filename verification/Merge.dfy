/** internal/discovery: static and discovered routes become one route list. */
module Merge {
  import opened GoText
  import opened HostAddr
  import opened HostPort
  import opened Lists
  import opened Sorting
  import opened RouteConfig
  import opened Discovery

  const SOURCE_STATIC := "static"
  const SOURCE_DISCOVERED := "discovered"
  const STATIC_PRECEDENCE := "static_route_precedence"
  const DUPLICATE_DISCOVERED := "duplicate_discovered_host"
  const INVALID_DISCOVERED := "invalid_discovered_route"

  datatype Ignored = Ignored(host: string, backend: string, reason: string, err: string)

  datatype MergeResult = MergeResult(
    routes: seq<Route>, ignored: seq<Ignored>, ignoredByReason: map<string, nat>, hasDefaultRoute: bool)

  /** The first objection to service.namespace.svc.<cluster-domain>, if any. */
  function ServiceNameProblem(host: string): Option<string> {
    var parts := Split(host, '.');
    if |parts| < 4 then Some("must be service.namespace.svc.<cluster-domain>")
    else if !IsDNSLabel(parts[0]) || !IsDNSLabel(parts[1]) then Some("service and namespace must be DNS labels")
    else if parts[2] != "svc" then Some("must include svc as the third DNS label")
    else if exists k :: 3 <= k < |parts| && !IsDNSLabel(parts[k]) then Some("cluster domain must be DNS labels")
    else None
  }

  function ValidateDiscovered(p: Platform, route: DiscoveredRoute): Result<DiscoveredRoute> {
    var host := Normalize(p, route.host);
    if host.Err? then Err("host: " + host.error)
    else if TrimSpace(p, route.backend) == "" then Err("backend must not be empty")
    else
      var backend := ValidateServiceBackend(p, route.backend);
      if backend.Err? then Err(backend.error) else Ok(DiscoveredRoute(host.value, backend.value))
  }

  function ValidateServiceBackend(p: Platform, backend: string): Result<string> {
    var split := SplitHostPort(backend);
    if split.Err? then Err("backend must be host:port: " + split.error)
    else
      var (name, port) := split.value;
      if TrimSpace(p, port) == "" || !ValidPort(port) then Err("backend port")
      else
        var host := Normalize(p, name);
        if host.Err? then Err("backend host: " + host.error)
        else match ServiceNameProblem(host.value)
          case Some(problem) => Err("backend host: " + problem)
          case None => Ok(JoinHostPort(host.value, port))
  }

  predicate LessConfigRoute(l: Route, r: Route) {
    if l.serverAddress != r.serverAddress then Less(l.serverAddress, r.serverAddress) else Less(l.backend, r.backend)
  }

  predicate LessDiscovered(l: DiscoveredRoute, r: DiscoveredRoute) {
    if l.host != r.host then Less(l.host, r.host) else Less(l.backend, r.backend)
  }

  predicate LessIgnored(l: Ignored, r: Ignored) {
    if l.reason != r.reason then Less(l.reason, r.reason)
    else if l.host != r.host then Less(l.host, r.host)
    else if l.backend != r.backend then Less(l.backend, r.backend)
    else Less(l.err, r.err)
  }

  function NormalizedOr(p: Platform, address: string): string {
    var host := Normalize(p, address);
    if host.Ok? then host.value else address
  }

  /** A static route with every identity in canonical form. */
  function AsStatic(p: Platform, r: Route): Route {
    r.(serverAddress := NormalizedOr(p, r.serverAddress),
       aliases := seq(|r.aliases|, i requires 0 <= i < |r.aliases| => NormalizedOr(p, r.aliases[i])),
       source := SOURCE_STATIC)
  }

  function Statics(p: Platform): Route -> seq<Route> { (r: Route) => [AsStatic(p, r)] }

  function DiscoveredHost(): DiscoveredRoute -> string { (d: DiscoveredRoute) => d.host }

  function IgnoredReason(): Ignored -> string { (i: Ignored) => i.reason }

  function Valid(p: Platform): DiscoveredRoute -> seq<DiscoveredRoute> {
    (d: DiscoveredRoute) => var v := ValidateDiscovered(p, d); if v.Ok? then [v.value] else []
  }

  function Invalid(p: Platform): DiscoveredRoute -> seq<Ignored> {
    (d: DiscoveredRoute) =>
      var v := ValidateDiscovered(p, d);
      if v.Ok? then [] else [Ignored(d.host, d.backend, INVALID_DISCOVERED, v.error)]
  }

  function AsRoute(d: DiscoveredRoute): Route {
    Route(d.host, [], d.backend, "", None, SOURCE_DISCOVERED)
  }

  /** Whether a candidate survives duplicate cancellation and static precedence. */
  predicate Survives(p: Platform, statics: seq<Route>, all: seq<DiscoveredRoute>, d: DiscoveredRoute) {
    Tally(DiscoveredHost(), all, d.host) <= 1 && Claims(p, statics, d.host) == 0
  }

  function Kept(p: Platform, statics: seq<Route>, all: seq<DiscoveredRoute>): DiscoveredRoute -> seq<Route> {
    (d: DiscoveredRoute) => if Survives(p, statics, all, d) then [AsRoute(d)] else []
  }

  function Dropped(p: Platform, statics: seq<Route>, all: seq<DiscoveredRoute>): DiscoveredRoute -> seq<Ignored> {
    (d: DiscoveredRoute) =>
      if Survives(p, statics, all, d) then []
      else if Tally(DiscoveredHost(), all, d.host) > 1 then [Rival(d)]
      else [Overridden(d)]
  }

  function Rival(d: DiscoveredRoute): Ignored {
    Ignored(d.host, d.backend, DUPLICATE_DISCOVERED, "host is discovered more than once")
  }

  function Overridden(d: DiscoveredRoute): Ignored {
    Ignored(d.host, d.backend, STATIC_PRECEDENCE, "host is already configured by a static route")
  }

  function Accepted(p: Platform, discovered: seq<DiscoveredRoute>): seq<DiscoveredRoute> {
    Collect(Valid(p), discovered)
  }

  function SortedAccepted(p: Platform, discovered: seq<DiscoveredRoute>): seq<DiscoveredRoute> {
    StableSort(LessDiscovered, Accepted(p, discovered))
  }

  /** Static routes followed by surviving discovered ones, before the final sort. */
  function Unsorted(p: Platform, statics: seq<Route>, discovered: seq<DiscoveredRoute>): seq<Route> {
    var sorted := SortedAccepted(p, discovered);
    Collect(Statics(p), statics) + Collect(Kept(p, statics, sorted), sorted)
  }

  function Rejections(p: Platform, statics: seq<Route>, discovered: seq<DiscoveredRoute>): seq<Ignored> {
    var sorted := SortedAccepted(p, discovered);
    Collect(Invalid(p), discovered) + Collect(Dropped(p, statics, sorted), sorted)
  }

  function MergedRoutes(p: Platform, statics: seq<Route>, discovered: seq<DiscoveredRoute>): seq<Route> {
    StableSort(LessConfigRoute, Unsorted(p, statics, discovered))
  }

  /** What MergeRoutes returns, described from both lists at once. */
  ghost predicate IsMerge(p: Platform, statics: seq<Route>, discovered: seq<DiscoveredRoute>,
                          def: DefaultRoute, r: MergeResult)
  {
    && r.routes == MergedRoutes(p, statics, discovered)
    && r.ignored == StableSort(LessIgnored, Rejections(p, statics, discovered))
    && Counts(IgnoredReason(), r.ignored, r.ignoredByReason)
    && r.hasDefaultRoute == (TrimSpace(p, def.backend) != "")
  }

  lemma DiscoveredOrder(m: multiset<DiscoveredRoute>)
    ensures TotalOn(LessDiscovered, m)
  {
    LessIsOrder();
  }

  lemma IgnoredOrder(m: multiset<Ignored>)
    ensures TotalOn(LessIgnored, m)
  {
    LessIsOrder();
  }

  /** The loop over static routes: their canonical forms and the hosts they take. */
  method TakeStatics(p: Platform, statics: seq<Route>) returns (routes: seq<Route>, hosts: set<string>)
    ensures routes == Collect(Statics(p), statics)
    ensures forall h :: h in hosts <==> Claims(p, statics, h) > 0
  {
    hide Normalize;
    routes, hosts := [], {};
    for i := 0 to |statics|
      invariant routes == Collect(Statics(p), statics[..i])
      invariant forall h :: h in hosts <==> Claims(p, statics[..i], h) > 0
    {
      CollectStep(Statics(p), statics, i);
      var taken := HostsOf(p, statics[i]);
      forall h ensures Claims(p, statics[..i + 1], h) == Claims(p, statics[..i], h) + Matches(p, Identities(statics[i]), h) {
        assert statics[..i + 1] == statics[..i] + [statics[i]];
        ClaimsSnoc(p, statics[..i], statics[i], h);
      }
      routes, hosts := routes + [AsStatic(p, statics[i])], hosts + taken;
    }
    assert statics[..|statics|] == statics;
  }

  method HostsOf(p: Platform, r: Route) returns (hosts: set<string>)
    ensures forall h :: h in hosts <==> Matches(p, Identities(r), h) > 0
  {
    hide Normalize;
    var ids := Identities(r);
    hosts := {};
    for k := 0 to |ids|
      invariant forall h :: h in hosts <==> Matches(p, ids[..k], h) > 0
    {
      assert ids[..k + 1][..k] == ids[..k];
      var host := Normalize(p, ids[k]);
      forall h ensures Matches(p, ids[..k + 1], h) == Matches(p, ids[..k], h) + (if host == Ok(h) then 1 else 0) {
      }
      if host.Ok? {
        hosts := hosts + {host.value};
      }
    }
    assert ids[..|ids|] == ids;
  }

  method AddIgnored(list: seq<Ignored>, counts: map<string, nat>, ignored: Ignored)
    returns (list': seq<Ignored>, counts': map<string, nat>)
    requires Counts(IgnoredReason(), list, counts)
    ensures list' == list + [ignored] && Counts(IgnoredReason(), list', counts')
  {
    list' := list + [ignored];
    counts' := Bump(counts, ignored.reason);
    CountsStep(IgnoredReason(), list, counts, ignored);
  }

  /** The loop over discovered routes: candidates, hosts counted, invalid ones set aside. */
  method TakeCandidates(p: Platform, discovered: seq<DiscoveredRoute>)
    returns (candidates: seq<DiscoveredRoute>, hostCounts: map<string, nat>, ignored: seq<Ignored>, counts: map<string, nat>)
    ensures candidates == Accepted(p, discovered)
    ensures Counts(DiscoveredHost(), candidates, hostCounts)
    ensures ignored == Collect(Invalid(p), discovered)
    ensures Counts(IgnoredReason(), ignored, counts)
  {
    hide ValidateDiscovered;
    candidates, hostCounts, ignored, counts := [], map[], [], map[];
    for i := 0 to |discovered|
      invariant candidates == Collect(Valid(p), discovered[..i])
      invariant Counts(DiscoveredHost(), candidates, hostCounts)
      invariant ignored == Collect(Invalid(p), discovered[..i])
      invariant Counts(IgnoredReason(), ignored, counts)
    {
      CollectStep(Valid(p), discovered, i);
      CollectStep(Invalid(p), discovered, i);
      var d := discovered[i];
      var v := ValidateDiscovered(p, d);
      if v.Err? {
        ignored, counts := AddIgnored(ignored, counts, Ignored(d.host, d.backend, INVALID_DISCOVERED, v.error));
      } else {
        CountsStep(DiscoveredHost(), candidates, hostCounts, v.value);
        candidates, hostCounts := candidates + [v.value], Bump(hostCounts, v.value.host);
      }
    }
    assert discovered[..|discovered|] == discovered;
  }

  /** The loop that admits, cancels or overrides the sorted candidates. */
  method Admit(p: Platform, statics: seq<Route>, hosts: set<string>, sorted: seq<DiscoveredRoute>,
               hostCounts: map<string, nat>, ignored0: seq<Ignored>, counts0: map<string, nat>)
    returns (kept: seq<Route>, ignored: seq<Ignored>, counts: map<string, nat>)
    requires forall h :: h in hosts <==> Claims(p, statics, h) > 0
    requires Counts(DiscoveredHost(), sorted, hostCounts)
    requires Counts(IgnoredReason(), ignored0, counts0)
    ensures kept == Collect(Kept(p, statics, sorted), sorted)
    ensures ignored == ignored0 + Collect(Dropped(p, statics, sorted), sorted)
    ensures Counts(IgnoredReason(), ignored, counts)
  {
    hide Claims, Tally;
    kept, ignored, counts := [], ignored0, counts0;
    for i := 0 to |sorted|
      invariant kept == Collect(Kept(p, statics, sorted), sorted[..i])
      invariant ignored == ignored0 + Collect(Dropped(p, statics, sorted), sorted[..i])
      invariant Counts(IgnoredReason(), ignored, counts)
    {
      CollectStep(Kept(p, statics, sorted), sorted, i);
      CollectStep(Dropped(p, statics, sorted), sorted, i);
      var d := sorted[i];
      CountedAt(sorted, hostCounts, i);
      var duplicate := hostCounts[d.host] > 1;
      if duplicate || d.host in hosts {
        ignored, counts := AddIgnored(ignored, counts, if duplicate then Rival(d) else Overridden(d));
      } else {
        kept := kept + [AsRoute(d)];
      }
    }
    assert sorted[..|sorted|] == sorted;
  }

  lemma CountedAt(s: seq<DiscoveredRoute>, counts: map<string, nat>, i: nat)
    requires i < |s| && Counts(DiscoveredHost(), s, counts)
    ensures s[i].host in counts && counts[s[i].host] == Tally(DiscoveredHost(), s, s[i].host)
  {
    TallyPositive(DiscoveredHost(), s, s[i].host);
    assert DiscoveredHost()(s[i]) == s[i].host;
  }

  lemma CountsSorted<A, K(!new)>(tag: A -> K, less: (A, A) -> bool, s: seq<A>, counts: map<K, nat>)
    requires Counts(tag, s, counts)
    ensures Counts(tag, StableSort(less, s), counts)
  {
    SortKeeps(less, s);
    forall x ensures Tally(tag, StableSort(less, s), x) == Tally(tag, s, x) {
      TallyInMultiset(tag, StableSort(less, s), s, x);
    }
  }

  method MergeRoutes(p: Platform, statics: seq<Route>, discovered: seq<DiscoveredRoute>, def: DefaultRoute)
    returns (r: MergeResult)
    ensures IsMerge(p, statics, discovered, def, r)
  {
    hide StableSort, LessDiscovered, LessIgnored, LessConfigRoute, Collect;
    var routes, hosts := TakeStatics(p, statics);
    var candidates, hostCounts, invalid, invalidCounts := TakeCandidates(p, discovered);
    CountsSorted(DiscoveredHost(), LessDiscovered, candidates, hostCounts);
    var sorted := StableSort(LessDiscovered, candidates);
    var kept, ignored, counts := Admit(p, statics, hosts, sorted, hostCounts, invalid, invalidCounts);
    CountsSorted(IgnoredReason(), LessIgnored, ignored, counts);
    r := MergeResult(StableSort(LessConfigRoute, routes + kept), StableSort(LessIgnored, ignored), counts,
                     TrimSpace(p, def.backend) != "");
  }
}
