/** internal/discovery/kubernetes: Service annotations become discovered routes. */
module Discovery {
  import opened GoText
  import opened HostAddr
  import opened HostPort
  import opened Lists
  import opened Sorting

  datatype ServicePort = ServicePort(name: string, port: int)

  datatype ServiceInput = ServiceInput(
    name: string, namespace: string, annotations: map<string, string>, ports: seq<ServicePort>)

  datatype DiscoveredRoute = DiscoveredRoute(host: string, backend: string)

  /** err is the text of the error, empty for none. */
  datatype ParseResult = Parsed(route: DiscoveredRoute) | Skipped(reason: string, err: string)

  datatype RouteCandidate = RouteCandidate(route: DiscoveredRoute, serviceName: string, namespace: string)

  datatype SkippedResource = SkippedResource(
    serviceName: string, namespace: string, host: string, backend: string, reason: string, err: string)

  datatype BuildResult = BuildResult(
    routes: seq<DiscoveredRoute>,
    skipped: seq<SkippedResource>,
    duplicateHosts: seq<string>,
    skippedByReason: map<string, nat>)

  const DEFAULT_ANNOTATION_PREFIX := "mc-router.alexandergg.com"
  const DUPLICATE_HOST := "duplicate_host"

  function Annotation(service: ServiceInput, key: string): string {
    if key in service.annotations then service.annotations[key] else ""
  }

  function PrefixProblem(p: Platform, prefix: string): Option<string> {
    if TrimSpace(p, prefix) == "" then Some("annotation prefix must not be empty")
    else if TrimSpace(p, prefix) != prefix then Some("annotation prefix must not contain leading or trailing whitespace")
    else if '/' in prefix then Some("annotation prefix must not contain /")
    else match Normalize(p, prefix)
      case Err(e) => Some(e)
      case Ok(n) => if n != prefix then Some("annotation prefix must be a canonical lowercase DNS subdomain") else None
  }

  function ServiceBackend(name: string, namespace: string, port: nat): string {
    JoinHostPort(name + "." + namespace + ".svc.cluster.local", Itoa(port))
  }

  predicate HasPort(ports: seq<ServicePort>, port: int) {
    exists i :: 0 <= i < |ports| && ports[i].port == port
  }

  function ParseServiceAnnotations(p: Platform, prefix: string, service: ServiceInput): ParseResult {
    var problem := PrefixProblem(p, prefix);
    if problem.Some? then Skipped("invalid_annotation_prefix", problem.value)
    else if Annotation(service, prefix + "/enabled") != "true" then Skipped("disabled", "")
    else if !IsDNSLabel(service.name) then Skipped("invalid_service_name", "service name must be a DNS label")
    else if !IsDNSLabel(service.namespace) then Skipped("invalid_namespace", "namespace must be a DNS label")
    else if TrimSpace(p, Annotation(service, prefix + "/host")) == "" then
      Skipped("missing_host", "host annotation is required")
    else
      var host := Normalize(p, Annotation(service, prefix + "/host"));
      if host.Err? then Skipped("invalid_host", host.error)
      else ParsePort(p, service, host.value, Annotation(service, prefix + "/port"))
  }

  function ParsePort(p: Platform, service: ServiceInput, host: string, portValue: string): ParseResult {
    var trimmed := TrimSpace(p, portValue);
    if trimmed == "" then Skipped("missing_port", "port annotation is required")
    else if !ValidPort(trimmed) then Skipped("invalid_port", "port annotation must be an integer from 1 to 65535")
    else
      var port := Atoi(trimmed).value;
      if !HasPort(service.ports, port) then Skipped("port_not_found", "port is not present in service ports")
      else Parsed(DiscoveredRoute(host, ServiceBackend(service.name, service.namespace, port)))
  }

  /** What a service has to say to get a route, without the order of the checks. */
  ghost predicate Publishes(p: Platform, prefix: string, s: ServiceInput, route: DiscoveredRoute) {
    && Canonical(p, prefix) && Annotation(s, prefix + "/enabled") == "true"
    && IsDNSLabel(s.name) && IsDNSLabel(s.namespace)
    && TrimSpace(p, Annotation(s, prefix + "/host")) != ""
    && Normalize(p, Annotation(s, prefix + "/host")) == Ok(route.host)
    && PublishesPort(p, s, Annotation(s, prefix + "/port"), route.backend)
  }

  /** The text names one of the service's ports; the backend is the cluster name and that port in decimal. */
  predicate PublishesPort(p: Platform, s: ServiceInput, text: string, backend: string) {
    exists i :: 0 <= i < |s.ports| && PortOf(p, text, s.ports[i].port)
      && IsDecimalAfter(s.name + "." + s.namespace + ".svc.cluster.local:", s.ports[i].port, backend)
  }

  lemma BackendIff(name: string, namespace: string, port: nat, text: string)
    requires IsDNSLabel(name) && IsDNSLabel(namespace)
    ensures text == ServiceBackend(name, namespace, port)
      <==> IsDecimalAfter(name + "." + namespace + ".svc.cluster.local:", port, text)
  {
    var host, front := name + "." + namespace + ".svc.cluster.local", name + "." + namespace + ".svc.cluster.local:";
    assert ':' !in host;
    hide IsDNSLabel, IsDecimalAfter, Itoa;
    assert front == host + ":";
    DecimalAfterIff(front, port, text);
  }

  lemma PortIff(p: Platform, s: ServiceInput, host: string, text: string, route: DiscoveredRoute)
    requires IsDNSLabel(s.name) && IsDNSLabel(s.namespace)
    ensures ParsePort(p, s, host, text) == Parsed(route) <==> host == route.host && PublishesPort(p, s, text, route.backend)
  {
    if Atoi(TrimSpace(p, text)).Some? && Atoi(TrimSpace(p, text)).value >= 0 {
      BackendIff(s.name, s.namespace, Atoi(TrimSpace(p, text)).value, route.backend);
    }
    hide ServiceBackend, IsDNSLabel, IsDecimalAfter;
  }

  predicate PortOf(p: Platform, text: string, port: int) {
    1 <= port <= 65535 && Atoi(TrimSpace(p, text)) == Some(port)
  }

  /** The prefix checks together ask for a canonical address. */
  lemma PrefixIff(p: Platform, prefix: string)
    ensures PrefixProblem(p, prefix).None? <==> Canonical(p, prefix)
  {
    hide Normalize, Canonical;
    FixedPoints(p, prefix);
    if Canonical(p, prefix) {
      CanonicalPrefix(p, prefix);
    }
  }

  lemma CanonicalPrefix(p: Platform, prefix: string)
    requires Canonical(p, prefix)
    ensures TrimSpace(p, prefix) == prefix != "" && '/' !in prefix
  {
    CanonicalIsPlain(p, prefix);
    hide Split, Reduced, Unbracketed;
    PlainText(p, prefix);
  }

  /** A service gets a route exactly when it publishes one, and the route is what it publishes. */
  lemma ParsedIff(p: Platform, prefix: string, s: ServiceInput, route: DiscoveredRoute)
    ensures ParseServiceAnnotations(p, prefix, s) == Parsed(route) <==> Publishes(p, prefix, s, route)
  {
    hide Normalize, PrefixProblem, Canonical, IsDNSLabel, PublishesPort, ParsePort;
    PrefixIff(p, prefix);
    if IsDNSLabel(s.name) && IsDNSLabel(s.namespace) && Normalize(p, Annotation(s, prefix + "/host")).Ok? {
      PortIff(p, s, Normalize(p, Annotation(s, prefix + "/host")).value, Annotation(s, prefix + "/port"), route);
    }
  }

  /** The first thing that is wrong with a service, in the order of the checks, by its reason. */
  ghost predicate Wrong(p: Platform, prefix: string, s: ServiceInput, reason: string) {
    var host, port := Annotation(s, prefix + "/host"), TrimSpace(p, Annotation(s, prefix + "/port"));
    var n := Atoi(port);
    if !Canonical(p, prefix) then reason == "invalid_annotation_prefix"
    else if Annotation(s, prefix + "/enabled") != "true" then reason == "disabled"
    else if !IsDNSLabel(s.name) then reason == "invalid_service_name"
    else if !IsDNSLabel(s.namespace) then reason == "invalid_namespace"
    else if TrimSpace(p, host) == "" then reason == "missing_host"
    else if Normalize(p, host).Err? then reason == "invalid_host"
    else if port == "" then reason == "missing_port"
    else if !(n.Some? && 1 <= n.value <= 65535) then reason == "invalid_port"
    else reason == "port_not_found" && forall i :: 0 <= i < |s.ports| ==> s.ports[i].port != n.value
  }

  lemma SkipReason(p: Platform, prefix: string, s: ServiceInput, reason: string)
    ensures (exists err :: ParseServiceAnnotations(p, prefix, s) == Skipped(reason, err)) <==> Wrong(p, prefix, s, reason)
  {
    hide Normalize, PrefixProblem, Canonical, IsDNSLabel, ServiceBackend;
    PrefixIff(p, prefix);
    var r := ParseServiceAnnotations(p, prefix, s);
    if r.Skipped? {
      assert r == Skipped(r.reason, r.err);
    }
  }

  predicate LessCandidate(l: RouteCandidate, r: RouteCandidate) {
    if l.route.host != r.route.host then Less(l.route.host, r.route.host)
    else if l.route.backend != r.route.backend then Less(l.route.backend, r.route.backend)
    else if l.namespace != r.namespace then Less(l.namespace, r.namespace)
    else Less(l.serviceName, r.serviceName)
  }

  predicate LessSkipped(l: SkippedResource, r: SkippedResource) {
    if l.reason != r.reason then Less(l.reason, r.reason)
    else if l.host != r.host then Less(l.host, r.host)
    else if l.namespace != r.namespace then Less(l.namespace, r.namespace)
    else if l.serviceName != r.serviceName then Less(l.serviceName, r.serviceName)
    else if l.backend != r.backend then Less(l.backend, r.backend)
    else Less(l.err, r.err)
  }

  function HostOf(): RouteCandidate -> string { (c: RouteCandidate) => c.route.host }

  function ReasonOf(): SkippedResource -> string { (s: SkippedResource) => s.reason }

  function Candidates(p: Platform, prefix: string): ServiceInput -> seq<RouteCandidate> {
    (s: ServiceInput) =>
      var r := ParseServiceAnnotations(p, prefix, s);
      if r.Parsed? then [RouteCandidate(r.route, s.name, s.namespace)] else []
  }

  function ParseSkips(p: Platform, prefix: string): ServiceInput -> seq<SkippedResource> {
    (s: ServiceInput) =>
      var r := ParseServiceAnnotations(p, prefix, s);
      if r.Parsed? then [] else [Unlocated(s, r.reason, r.err)]
  }

  /** addSkipped replaces an empty reason. */
  function Unlocated(s: ServiceInput, reason: string, err: string): SkippedResource {
    SkippedResource(s.name, s.namespace, "", "", if reason == "" then "unknown" else reason, err)
  }

  /** The route of a candidate whose host occurs once among all. */
  function Unrivalled(all: seq<RouteCandidate>): RouteCandidate -> seq<DiscoveredRoute> {
    (c: RouteCandidate) => if Tally(HostOf(), all, c.route.host) > 1 then [] else [c.route]
  }

  function Rivals(all: seq<RouteCandidate>): RouteCandidate -> seq<SkippedResource> {
    (c: RouteCandidate) => if Tally(HostOf(), all, c.route.host) > 1 then [Duplicate(c)] else []
  }

  function Duplicate(c: RouteCandidate): SkippedResource {
    SkippedResource(c.serviceName, c.namespace, c.route.host, c.route.backend, DUPLICATE_HOST,
                    "host is discovered more than once")
  }

  function RivalHosts(all: seq<RouteCandidate>): RouteCandidate -> seq<string> {
    (c: RouteCandidate) => if Tally(HostOf(), all, c.route.host) > 1 then [c.route.host] else []
  }

  function EffectivePrefix(prefix: string): string {
    if prefix == "" then DEFAULT_ANNOTATION_PREFIX else prefix
  }

  function SortedCandidates(p: Platform, prefix: string, services: seq<ServiceInput>): seq<RouteCandidate> {
    StableSort(LessCandidate, Collect(Candidates(p, EffectivePrefix(prefix)), services))
  }

  function DiscoveredRoutes(p: Platform, prefix: string, services: seq<ServiceInput>): seq<DiscoveredRoute> {
    var sorted := SortedCandidates(p, prefix, services);
    Collect(Unrivalled(sorted), sorted)
  }

  /** Skipped resources in the order they are noticed. */
  function NoticedSkips(p: Platform, prefix: string, services: seq<ServiceInput>): seq<SkippedResource> {
    var sorted := SortedCandidates(p, prefix, services);
    Collect(ParseSkips(p, EffectivePrefix(prefix)), services) + Collect(Rivals(sorted), sorted)
  }

  function DuplicateHosts(p: Platform, prefix: string, services: seq<ServiceInput>): seq<string> {
    var sorted := SortedCandidates(p, prefix, services);
    StableSort(Less, Distinct(Collect(RivalHosts(sorted), sorted)))
  }

  /** What BuildDiscoveredRoutes returns, described from the whole service list at once. */
  ghost predicate IsBuild(p: Platform, prefix: string, services: seq<ServiceInput>, r: BuildResult) {
    && r.routes == DiscoveredRoutes(p, prefix, services)
    && r.skipped == StableSort(LessSkipped, NoticedSkips(p, prefix, services))
    && r.duplicateHosts == DuplicateHosts(p, prefix, services)
    && Counts(ReasonOf(), r.skipped, r.skippedByReason)
  }

  lemma CandidateOrder(m: multiset<RouteCandidate>)
    ensures TotalOn(LessCandidate, m)
  {
    LessIsOrder();
  }

  lemma SkippedOrder(m: multiset<SkippedResource>)
    ensures TotalOn(LessSkipped, m)
  {
    LessIsOrder();
  }

  lemma TextOrder(m: multiset<string>)
    ensures TotalOn(Less, m)
  {
    LessIsOrder();
  }

  /** The loops of BuildDiscoveredRoutes. The keys of the duplicate set come out in any order. */
  method BuildDiscoveredRoutes(p: Platform, prefix: string, services: seq<ServiceInput>) returns (r: BuildResult)
    ensures IsBuild(p, prefix, services, r)
  {
    hide ParseServiceAnnotations, Less;
    var effective := EffectivePrefix(prefix);
    var candidates: seq<RouteCandidate> := [];
    var noticed: seq<SkippedResource> := [];
    var counts: map<string, nat> := map[];
    for i := 0 to |services|
      invariant candidates == Collect(Candidates(p, effective), services[..i])
      invariant noticed == Collect(ParseSkips(p, effective), services[..i])
      invariant Counts(ReasonOf(), noticed, counts)
    {
      CollectStep(Candidates(p, effective), services, i);
      CollectStep(ParseSkips(p, effective), services, i);
      var parsed := ParseServiceAnnotations(p, effective, services[i]);
      if parsed.Skipped? {
        noticed, counts := AddSkipped(noticed, counts, Unlocated(services[i], parsed.reason, parsed.err));
      } else {
        candidates := candidates + [RouteCandidate(parsed.route, services[i].name, services[i].namespace)];
      }
    }
    assert services[..|services|] == services;
    var sorted := StableSort(LessCandidate, candidates);
    r := Cancel(sorted, noticed, counts);
  }

  method AddSkipped(noticed: seq<SkippedResource>, counts: map<string, nat>, s: SkippedResource)
    returns (noticed': seq<SkippedResource>, counts': map<string, nat>)
    requires Counts(ReasonOf(), noticed, counts)
    ensures noticed' == noticed + [s] && Counts(ReasonOf(), noticed', counts')
  {
    noticed' := noticed + [s];
    counts' := Bump(counts, s.reason);
    CountsStep(ReasonOf(), noticed, counts, s);
  }

  method CountHosts(cs: seq<RouteCandidate>) returns (hosts: map<string, nat>)
    ensures Counts(HostOf(), cs, hosts)
  {
    hosts := map[];
    for i := 0 to |cs|
      invariant Counts(HostOf(), cs[..i], hosts)
    {
      assert cs[..i + 1] == cs[..i] + [cs[i]];
      CountsStep(HostOf(), cs[..i], hosts, cs[i]);
      hosts := Bump(hosts, cs[i].route.host);
    }
    assert cs[..|cs|] == cs;
  }

  lemma NothingCollected(all: seq<RouteCandidate>)
    ensures Collect(Unrivalled(all), all[..0]) == [] && Collect(Rivals(all), all[..0]) == [] && Collect(RivalHosts(all), all[..0]) == []
  {
  }

  /** What one candidate adds to the lists, read off the host counts. */
  lemma CandidateAt(all: seq<RouteCandidate>, hosts: map<string, nat>, i: nat)
    requires i < |all| && Counts(HostOf(), all, hosts)
    ensures var h := all[i].route.host;
      && h in hosts
      && Collect(Unrivalled(all), all[..i + 1]) == Collect(Unrivalled(all), all[..i]) + (if hosts[h] > 1 then [] else [all[i].route])
      && Collect(Rivals(all), all[..i + 1]) == Collect(Rivals(all), all[..i]) + (if hosts[h] > 1 then [Duplicate(all[i])] else [])
      && Collect(RivalHosts(all), all[..i + 1]) == Collect(RivalHosts(all), all[..i]) + (if hosts[h] > 1 then [h] else [])
  {
    var h := all[i].route.host;
    TallyPositive(HostOf(), all, h);
    assert HostOf()(all[i]) == h;
    assert h in hosts && hosts[h] == Tally(HostOf(), all, h);
    hide Collect, Counts, Tally;
    CollectStep(Unrivalled(all), all, i);
    CollectStep(Rivals(all), all, i);
    CollectStep(RivalHosts(all), all, i);
  }

  /** The second half: hosts found more than once cancel each other. */
  method Cancel(sorted: seq<RouteCandidate>, parseSkips: seq<SkippedResource>, parseCounts: map<string, nat>)
    returns (r: BuildResult)
    requires Counts(ReasonOf(), parseSkips, parseCounts)
    ensures r.routes == Collect(Unrivalled(sorted), sorted)
    ensures r.skipped == StableSort(LessSkipped, parseSkips + Collect(Rivals(sorted), sorted))
    ensures r.duplicateHosts == StableSort(Less, Distinct(Collect(RivalHosts(sorted), sorted)))
    ensures Counts(ReasonOf(), r.skipped, r.skippedByReason)
  {
    hide Less, LessSkipped, StableSort, Distinct, Collect, Unrivalled, Rivals, RivalHosts, Counts, Tally;
    var hosts := CountHosts(sorted);
    NothingCollected(sorted);
    var routes: seq<DiscoveredRoute> := [];
    var skips, counts := parseSkips, parseCounts;
    var duplicates: set<string> := {};
    for i := 0 to |sorted|
      invariant routes == Collect(Unrivalled(sorted), sorted[..i])
      invariant skips == parseSkips + Collect(Rivals(sorted), sorted[..i])
      invariant forall h :: h in duplicates <==> h in Collect(RivalHosts(sorted), sorted[..i])
      invariant Counts(ReasonOf(), skips, counts)
    {
      CandidateAt(sorted, hosts, i);
      if hosts[sorted[i].route.host] > 1 {
        duplicates := duplicates + {sorted[i].route.host};
        skips, counts := AddSkipped(skips, counts, Duplicate(sorted[i]));
      } else {
        routes := routes + [sorted[i].route];
      }
    }
    assert sorted[..|sorted|] == sorted;
    r := Finish(routes, skips, counts, duplicates, Collect(RivalHosts(sorted), sorted));
  }

  /** The closing sorts. */
  method Finish(routes: seq<DiscoveredRoute>, skips: seq<SkippedResource>, counts: map<string, nat>,
                duplicates: set<string>, ghost rivalHosts: seq<string>) returns (r: BuildResult)
    requires Counts(ReasonOf(), skips, counts)
    requires forall h :: h in duplicates <==> h in rivalHosts
    ensures r.routes == routes && r.skipped == StableSort(LessSkipped, skips)
    ensures r.duplicateHosts == StableSort(Less, Distinct(rivalHosts))
    ensures Counts(ReasonOf(), r.skipped, r.skippedByReason)
  {
    var keys := SortedKeys(duplicates, rivalHosts);
    SortKeeps(LessSkipped, skips);
    CountsPermuted(skips, StableSort(LessSkipped, skips), counts);
    r := BuildResult(routes, StableSort(LessSkipped, skips), keys, counts);
  }

  lemma CountsPermuted(s: seq<SkippedResource>, t: seq<SkippedResource>, counts: map<string, nat>)
    requires multiset(s) == multiset(t) && Counts(ReasonOf(), s, counts)
    ensures Counts(ReasonOf(), t, counts)
  {
    forall x ensures Tally(ReasonOf(), s, x) == Tally(ReasonOf(), t, x) {
      TallyInMultiset(ReasonOf(), s, t, x);
    }
  }

  /** Keys leave the map in no particular order; sorting makes the outcome unique. */
  method SortedKeys(keys: set<string>, ghost list: seq<string>) returns (r: seq<string>)
    requires forall h :: h in keys <==> h in list
    ensures r == StableSort(Less, Distinct(list))
  {
    hide Less;
    DistinctMembers(list);
    var rest, picked: seq<string> := keys, [];
    while rest != {}
      invariant rest <= keys && NoRepeats(picked)
      invariant forall h :: h in picked <==> h in keys && h !in rest
      decreases rest
    {
      var h :| h in rest;
      rest, picked := rest - {h}, picked + [h];
    }
    SameMembers(picked, Distinct(list));
    TextOrder(multiset(picked));
    SortOrderFree(Less, picked, Distinct(list));
    r := StableSort(Less, picked);
  }

  /** The result for one order of the services is the result for every order. */
  lemma BuildOrderFree(p: Platform, prefix: string, s: seq<ServiceInput>, t: seq<ServiceInput>, r: BuildResult)
    requires multiset(s) == multiset(t)
    requires IsBuild(p, prefix, s, r)
    ensures IsBuild(p, prefix, t, r)
  {
    hide ParseServiceAnnotations, LessCandidate, LessSkipped, Less;
    var effective := EffectivePrefix(prefix);
    CollectOrderFree(Candidates(p, effective), s, t);
    CandidateOrder(multiset(Collect(Candidates(p, effective), s)));
    SortOrderFree(LessCandidate, Collect(Candidates(p, effective), s), Collect(Candidates(p, effective), t));
    assert SortedCandidates(p, prefix, s) == SortedCandidates(p, prefix, t);

    CollectOrderFree(ParseSkips(p, effective), s, t);
    SkippedOrder(multiset(NoticedSkips(p, prefix, s)));
    SortOrderFree(LessSkipped, NoticedSkips(p, prefix, s), NoticedSkips(p, prefix, t));
  }

  /** A service list has one result only. */
  lemma BuildUnique(p: Platform, prefix: string, s: seq<ServiceInput>, r: BuildResult, q: BuildResult)
    requires IsBuild(p, prefix, s, r) && IsBuild(p, prefix, s, q)
    ensures r == q
  {
    CountsUnique(ReasonOf(), r.skipped, q.skipped, r.skippedByReason, q.skippedByReason);
  }

  lemma {:induction false} EveryServiceOnce(p: Platform, prefix: string, services: seq<ServiceInput>)
    ensures |Collect(Candidates(p, prefix), services)| + |Collect(ParseSkips(p, prefix), services)| == |services|
  {
    hide ParseServiceAnnotations;
    if services != [] {
      EveryServiceOnce(p, prefix, services[..|services| - 1]);
    }
  }

  lemma {:induction false} EveryCandidateOnce(all: seq<RouteCandidate>, some: seq<RouteCandidate>)
    ensures |Collect(Unrivalled(all), some)| + |Collect(Rivals(all), some)| == |some|
  {
    if some != [] {
      EveryCandidateOnce(all, some[..|some| - 1]);
    }
  }

  /** Every service ends up either as a route or as a skipped resource, and the reason counts
      are the exact numbers of skipped resources with each reason. */
  lemma NothingLost(p: Platform, prefix: string, services: seq<ServiceInput>, r: BuildResult)
    requires IsBuild(p, prefix, services, r)
    ensures |r.routes| + |r.skipped| == |services|
    ensures forall reason :: Tally(ReasonOf(), r.skipped, reason)
                             == if reason in r.skippedByReason then r.skippedByReason[reason] else 0
  {
    hide ParseServiceAnnotations, LessCandidate, LessSkipped;
    EveryServiceOnce(p, EffectivePrefix(prefix), services);
    var sorted := SortedCandidates(p, prefix, services);
    EveryCandidateOnce(sorted, sorted);
  }

  /** Why a resource is skipped: something is wrong with it, or its host was discovered before. */
  ghost predicate LeftOut(p: Platform, prefix: string, services: seq<ServiceInput>, x: SkippedResource) {
    || (exists k :: 0 <= k < |services| && FailedAs(p, prefix, services[k], x))
    || (exists k :: 0 <= k < |services| && RivalAs(p, prefix, services, services[k], x))
  }

  predicate FailedAs(p: Platform, prefix: string, s: ServiceInput, x: SkippedResource) {
    && ParseServiceAnnotations(p, prefix, s) == Skipped(x.reason, x.err)
    && x == SkippedResource(s.name, s.namespace, "", "", x.reason, x.err)
  }

  ghost predicate RivalAs(p: Platform, prefix: string, services: seq<ServiceInput>, s: ServiceInput, x: SkippedResource) {
    && ParseServiceAnnotations(p, prefix, s) == Parsed(DiscoveredRoute(x.host, x.backend))
    && Tally(HostOf(), Collect(Candidates(p, prefix), services), x.host) > 1
    && x == SkippedResource(s.name, s.namespace, x.host, x.backend, "duplicate_host", "host is discovered more than once")
  }

  /** The skipped resources are exactly the ones left out, each under its own reason. */
  lemma SkippedIff(p: Platform, prefix: string, services: seq<ServiceInput>, r: BuildResult, x: SkippedResource)
    requires IsBuild(p, prefix, services, r)
    ensures x in r.skipped <==> LeftOut(p, if prefix == "" then "mc-router.alexandergg.com" else prefix, services, x)
  {
    var sorted, effective := SortedCandidates(p, prefix, services), EffectivePrefix(prefix);
    assert x in r.skipped <==> x in NoticedSkips(p, prefix, services) by {
      SortMembers(LessSkipped, NoticedSkips(p, prefix, services));
    }
    assert x in NoticedSkips(p, prefix, services)
      <==> x in Collect(ParseSkips(p, effective), services) || x in Collect(Rivals(sorted), sorted);
    hide IsBuild, NoticedSkips, SortedCandidates, FailedAs, RivalAs, Collect, Rivals, ParseSkips;
    FailedIff(p, effective, services, x);
    RivalIff(p, prefix, services, x);
  }

  lemma FailedIff(p: Platform, prefix: string, services: seq<ServiceInput>, x: SkippedResource)
    ensures x in Collect(ParseSkips(p, prefix), services) <==> exists k :: 0 <= k < |services| && FailedAs(p, prefix, services[k], x)
  {
    forall s ensures x in ParseSkips(p, prefix)(s) <==> FailedAs(p, prefix, s, x) {
      FailedOne(p, prefix, s, x);
    }
    CollectMembers(ParseSkips(p, prefix), services, x);
    hide *;
  }

  lemma FailedOne(p: Platform, prefix: string, s: ServiceInput, x: SkippedResource)
    ensures x in ParseSkips(p, prefix)(s) <==> FailedAs(p, prefix, s, x)
  {
    hide ParseServiceAnnotations, Wrong;
    var r := ParseServiceAnnotations(p, prefix, s);
    if r.Skipped? {
      assert r == Skipped(r.reason, r.err);
      SkipReason(p, prefix, s, r.reason);
      ReasonNamed(p, prefix, s, r.reason);
    }
  }

  lemma ReasonNamed(p: Platform, prefix: string, s: ServiceInput, reason: string)
    requires Wrong(p, prefix, s, reason)
    ensures reason != ""
  {
    hide Normalize, Canonical, IsDNSLabel, TrimSpace, Atoi;
  }

  lemma RivalIff(p: Platform, prefix: string, services: seq<ServiceInput>, x: SkippedResource)
    ensures var sorted, effective := SortedCandidates(p, prefix, services), EffectivePrefix(prefix);
      x in Collect(Rivals(sorted), sorted) <==> exists k :: 0 <= k < |services| && RivalAs(p, effective, services, services[k], x)
  {
    hide ParseServiceAnnotations, StableSort, LessCandidate, Collect, Tally;
    var sorted, effective := SortedCandidates(p, prefix, services), EffectivePrefix(prefix);
    var found := Collect(Candidates(p, effective), services);
    SortKeeps(LessCandidate, found);
    SortMembers(LessCandidate, found);
    TallyInMultiset(HostOf(), sorted, found, x.host);
    CollectMembers(Rivals(sorted), sorted, x);
    if k :| 0 <= k < |sorted| && x in Rivals(sorted)(sorted[k]) {
      CollectMembers(Candidates(p, effective), services, sorted[k]);
      var j :| 0 <= j < |services| && sorted[k] in Candidates(p, effective)(services[j]);
      assert RivalAs(p, effective, services, services[j], x);
    }
    if j :| 0 <= j < |services| && RivalAs(p, effective, services, services[j], x) {
      var c := RouteCandidate(DiscoveredRoute(x.host, x.backend), services[j].name, services[j].namespace);
      assert c in Candidates(p, effective)(services[j]);
      CollectMembers(Candidates(p, effective), services, c);
      var k :| 0 <= k < |sorted| && sorted[k] == c;
      assert x in Rivals(sorted)(sorted[k]);
    }
  }

  lemma {:induction false} UnrivalledAscend(all: seq<RouteCandidate>, some: seq<RouteCandidate>)
    requires Sorted(LessCandidate, some)
    ensures var out := Collect(Unrivalled(all), some);
      forall i, j :: 0 <= i < j < |out| ==> !Less(out[j].host, out[i].host)
  {
    if some != [] {
      var init, last := some[..|some| - 1], some[|some| - 1];
      UnrivalledAscend(all, init);
      var out := Collect(Unrivalled(all), init);
      forall i | 0 <= i < |out| ensures !Less(last.route.host, out[i].host) {
        CollectMembers(Unrivalled(all), init, out[i]);
        var k :| 0 <= k < |init| && out[i] in Unrivalled(all)(init[k]);
        assert !LessCandidate(last, some[k]);
        LessTrichotomy(last.route.host, last.route.host);
      }
      hide Less, Tally;
    }
  }

  /** Routes and duplicate hosts come out by host, skipped resources by reason and then by host. */
  lemma BuildSorted(p: Platform, prefix: string, services: seq<ServiceInput>, r: BuildResult, i: nat, j: nat)
    requires IsBuild(p, prefix, services, r) && i < j
    ensures j < |r.routes| ==> !Less(r.routes[j].host, r.routes[i].host)
    ensures j < |r.skipped| ==>
      && !Less(r.skipped[j].reason, r.skipped[i].reason)
      && (r.skipped[i].reason == r.skipped[j].reason ==> !Less(r.skipped[j].host, r.skipped[i].host))
    ensures j < |r.duplicateHosts| ==> !Less(r.duplicateHosts[j], r.duplicateHosts[i])
  {
    RoutesSorted(p, prefix, services);
    SkipsSorted(NoticedSkips(p, prefix, services), i, j);
    var sorted := SortedCandidates(p, prefix, services);
    var hosts := Distinct(Collect(RivalHosts(sorted), sorted));
    TextOrder(multiset(hosts));
    SortSorted(Less, hosts);
    hide NoticedSkips, SortedCandidates, Distinct, Collect, RivalHosts, Counts, DiscoveredRoutes, StableSort, Less;
  }

  lemma RoutesSorted(p: Platform, prefix: string, services: seq<ServiceInput>)
    ensures var out := DiscoveredRoutes(p, prefix, services);
      forall i, j :: 0 <= i < j < |out| ==> !Less(out[j].host, out[i].host)
  {
    var found := Collect(Candidates(p, EffectivePrefix(prefix)), services);
    var sorted := SortedCandidates(p, prefix, services);
    assert sorted == StableSort(LessCandidate, found);
    assert DiscoveredRoutes(p, prefix, services) == Collect(Unrivalled(sorted), sorted);
    hide *;
    CandidateOrder(multiset(found));
    SortSorted(LessCandidate, found);
    UnrivalledAscend(sorted, sorted);
  }

  lemma SkipsSorted(noticed: seq<SkippedResource>, i: nat, j: nat)
    requires i < j
    ensures var out := StableSort(LessSkipped, noticed);
      j < |out| ==>
        && !Less(out[j].reason, out[i].reason)
        && (out[i].reason == out[j].reason ==> !Less(out[j].host, out[i].host))
  {
    SkippedOrder(multiset(noticed));
    SortSorted(LessSkipped, noticed);
    hide Less, StableSort;
    var out := StableSort(LessSkipped, noticed);
    if j < |out| {
      assert !LessSkipped(out[j], out[i]);
      LessTrichotomy(out[j].reason, out[j].reason);
      LessTrichotomy(out[j].host, out[j].host);
    }
  }
}
