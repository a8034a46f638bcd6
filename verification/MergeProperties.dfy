/** What the merge guarantees: it keeps validity and loses nothing. */
module MergeProperties {
  import opened GoText
  import opened HostAddr
  import opened HostPort
  import opened Lists
  import opened Sorting
  import opened RouteConfig
  import opened Discovery
  import opened Merge

  lemma {:induction false} InsertClaims(p: Platform, less: (Route, Route) -> bool, s: seq<Route>, r: Route, host: string)
    ensures Claims(p, InsertLast(less, s, r), host) == Claims(p, s, host) + Matches(p, Identities(r), host)
  {
    hide Matches;
    if s == [] || !less(r, s[|s| - 1]) {
      ClaimsSnoc(p, s, r, host);
    } else {
      InsertClaims(p, less, s[..|s| - 1], r, host);
      ClaimsSnoc(p, InsertLast(less, s[..|s| - 1], r), s[|s| - 1], host);
    }
  }

  lemma {:induction false} SortClaims(p: Platform, less: (Route, Route) -> bool, s: seq<Route>, host: string)
    ensures Claims(p, StableSort(less, s), host) == Claims(p, s, host)
  {
    hide Matches;
    if s != [] {
      SortClaims(p, less, s[..|s| - 1], host);
      InsertClaims(p, less, StableSort(less, s[..|s| - 1]), s[|s| - 1], host);
    }
  }

  lemma {:induction false} ClaimsConcat(p: Platform, s: seq<Route>, t: seq<Route>, host: string)
    ensures Claims(p, s + t, host) == Claims(p, s, host) + Claims(p, t, host)
  {
    hide Matches;
    if t == [] {
      assert s + t == s;
    } else {
      var init, last := t[..|t| - 1], t[|t| - 1];
      assert s + t == (s + init) + [last];
      ClaimsConcat(p, s, init, host);
      ClaimsSnoc(p, s + init, last, host);
    }
  }

  lemma NormalizedOrSame(p: Platform, address: string)
    ensures Normalize(p, NormalizedOr(p, address)) == Normalize(p, address)
  {
    hide Normalize;
    if Normalize(p, address).Ok? {
      Idempotent(p, address);
    }
  }

  lemma {:induction false} MatchesSame(p: Platform, ids: seq<string>, others: seq<string>, host: string)
    requires |ids| == |others|
    requires forall i :: 0 <= i < |ids| ==> Normalize(p, ids[i]) == Normalize(p, others[i])
    ensures Matches(p, ids, host) == Matches(p, others, host)
  {
    hide Normalize;
    if ids != [] {
      MatchesSame(p, ids[..|ids| - 1], others[..|others| - 1], host);
    }
  }

  /** Canonicalising a static route changes none of the hosts it answers to. */
  lemma AsStaticSame(p: Platform, r: Route, host: string)
    ensures Matches(p, Identities(AsStatic(p, r)), host) == Matches(p, Identities(r), host)
    ensures SoundRoute(p, AsStatic(p, r)) == SoundRoute(p, r)
  {
    hide Normalize, Matches, ValidTargets;
    var ids, others := Identities(AsStatic(p, r)), Identities(r);
    forall i | 0 <= i < |ids| ensures Normalize(p, ids[i]) == Normalize(p, others[i]) {
      hide NormalizedOr;
      assert ids[i] == NormalizedOr(p, others[i]);
      NormalizedOrSame(p, others[i]);
    }
    MatchesSame(p, ids, others, host);
    assert ValidTargets(p, AsStatic(p, r)) == ValidTargets(p, r) by { TargetsSame(p, r); }
  }

  lemma TargetsSame(p: Platform, r: Route)
    ensures ValidTargets(p, AsStatic(p, r)) == ValidTargets(p, r)
  {
    hide ValidBackend, ValidOverride, NormalizedOr;
  }

  lemma {:induction false} StaticsClaims(p: Platform, statics: seq<Route>, host: string)
    ensures Claims(p, Collect(Statics(p), statics), host) == Claims(p, statics, host)
  {
    hide Matches, AsStatic;
    if statics != [] {
      var init, last := statics[..|statics| - 1], statics[|statics| - 1];
      StaticsClaims(p, init, host);
      AsStaticSame(p, last, host);
      ClaimsSnoc(p, Collect(Statics(p), init), AsStatic(p, last), host);
    }
  }

  /** What validateDiscoveredRoute lets through. */
  lemma AcceptedShape(p: Platform, d: DiscoveredRoute)
    requires ValidateDiscovered(p, d).Ok?
    ensures var v := ValidateDiscovered(p, d).value;
            Normalize(p, v.host) == Ok(v.host) && ValidBackend(p, v.backend)
  {
    var v := ValidateDiscovered(p, d).value;
    Idempotent(p, d.host);
    BackendShape(p, d.backend);
  }

  lemma BackendShape(p: Platform, backend: string)
    requires ValidateServiceBackend(p, backend).Ok?
    ensures ValidBackend(p, ValidateServiceBackend(p, backend).value)
  {
    hide Normalize, ServiceNameProblem, SplitHostPort;
    var (name, port) := SplitHostPort(backend).value;
    var host := Normalize(p, name).value;
    Idempotent(p, name);
    OutputCanonical(p, name);
    PlainHost(p, host);
    PortIsPlain(p, port);
    SplitJoin(host, port);
  }

  /** A canonical service name has no colon or bracket, and is not blank. */
  lemma PlainHost(p: Platform, host: string)
    requires Canonical(p, host) && ServiceNameProblem(host).None?
    ensures ':' !in host && '[' !in host && ']' !in host && TrimSpace(p, host) == host != ""
  {
    var parts := Split(host, '.');
    forall part | part in parts ensures IsDNSLabel(part) {
      var k :| 0 <= k < |parts| && parts[k] == part;
      assert IsDNSLabel("svc");
    }
    forall i | 0 <= i < |host| ensures IsLabelChar(host[i]) || host[i] == '.' {
      LabelChars(host, i);
    }
    PlainText(p, host);
  }

  /** A Service's cluster name: four labels or more, the third of them svc. */
  predicate IsServiceName(host: string) {
    var parts := Split(host, '.');
    |parts| >= 4 && parts[2] == "svc" && forall part :: part in parts ==> IsDNSLabel(part)
  }

  /** v is d with its host and its backend's host in canonical form, and the backend is a Service's. */
  ghost predicate Admissible(p: Platform, d: DiscoveredRoute, v: DiscoveredRoute) {
    && Normalize(p, d.host) == Ok(v.host) && TrimSpace(p, d.backend) != ""
    && exists name, port :: Pairs(d.backend, name, port) && ValidPort(port) && ServiceHost(p, name, port, v.backend)
  }

  predicate ServiceHost(p: Platform, name: string, port: string, backend: string) {
    var host := Normalize(p, name);
    host.Ok? && IsServiceName(host.value) && backend == host.value + ":" + port
  }

  lemma ServiceNameIff(host: string)
    ensures ServiceNameProblem(host).None? <==> IsServiceName(host)
  {
    hide Split;
    assert IsDNSLabel("svc");
    hide IsDNSLabel;
  }

  /** The merge accepts a discovered route exactly when it is admissible, in its canonical form. */
  lemma AcceptedIff(p: Platform, d: DiscoveredRoute, v: DiscoveredRoute)
    ensures ValidateDiscovered(p, d) == Ok(v) <==> Admissible(p, d, v)
  {
    hide Normalize, ValidateServiceBackend, ServiceHost, ValidPort, Pairs;
    forall name, port | Pairs(d.backend, name, port) && ValidPort(port)
      ensures ValidateServiceBackend(p, d.backend) == Ok(v.backend) <==> ServiceHost(p, name, port, v.backend)
    {
      BackendIs(p, d.backend, name, port, v.backend);
    }
    if ValidateServiceBackend(p, d.backend) == Ok(v.backend) {
      var name, port := BackendSplits(p, d.backend);
    }
  }

  lemma BackendSplits(p: Platform, backend: string) returns (name: string, port: string)
    requires ValidateServiceBackend(p, backend).Ok?
    ensures Pairs(backend, name, port) && ValidPort(port)
  {
    hide Normalize, ServiceNameProblem, SplitHostPort;
    name, port := SplitHostPort(backend).value.0, SplitHostPort(backend).value.1;
    SplitIff(backend, name, port);
  }

  lemma BackendIs(p: Platform, backend: string, name: string, port: string, out: string)
    requires Pairs(backend, name, port) && ValidPort(port)
    ensures ValidateServiceBackend(p, backend) == Ok(out) <==> ServiceHost(p, name, port, out)
  {
    SplitIff(backend, name, port);
    PortIsPlain(p, port);
    hide Normalize, ServiceNameProblem, SplitHostPort, IsServiceName, Pairs;
    if Normalize(p, name).Ok? {
      var host := Normalize(p, name).value;
      ServiceNameIff(host);
      OutputCanonical(p, name);
      if ServiceNameProblem(host).None? {
        PlainHost(p, host);
      }
    }
  }

  lemma AcceptedMembers(p: Platform, discovered: seq<DiscoveredRoute>, v: DiscoveredRoute)
    requires v in SortedAccepted(p, discovered)
    ensures Normalize(p, v.host) == Ok(v.host) && ValidBackend(p, v.backend)
  {
    hide ValidateDiscovered, Normalize, ValidBackend;
    SortMembers(LessDiscovered, Accepted(p, discovered));
    CollectMembers(Valid(p), discovered, v);
    var k :| 0 <= k < |discovered| && v in Valid(p)(discovered[k]);
    AcceptedShape(p, discovered[k]);
  }

  lemma MatchesOne(p: Platform, d: DiscoveredRoute, host: string)
    requires Normalize(p, d.host) == Ok(d.host)
    ensures Matches(p, Identities(AsRoute(d)), host) == if d.host == host then 1 else 0
  {
    hide Normalize;
    var ids := Identities(AsRoute(d));
    assert ids == [d.host];
    assert ids[..0] == [];
  }

  lemma {:induction false} KeptClaims(p: Platform, statics: seq<Route>, all: seq<DiscoveredRoute>,
                                      some: seq<DiscoveredRoute>, host: string)
    requires forall d :: d in some ==> Normalize(p, d.host) == Ok(d.host)
    ensures Claims(p, Collect(Kept(p, statics, all), some), host)
            == if Tally(DiscoveredHost(), all, host) <= 1 && Claims(p, statics, host) == 0
               then Tally(DiscoveredHost(), some, host) else 0
  {
    hide Normalize, Matches;
    if some != [] {
      var init, last := some[..|some| - 1], some[|some| - 1];
      KeptClaims(p, statics, all, init, host);
      MatchesOne(p, last, host);
      var before := Collect(Kept(p, statics, all), init);
      ClaimsSnoc(p, before, AsRoute(last), host);
      assert before + [] == before;
      assert Collect(Kept(p, statics, all), some) == before + Kept(p, statics, all)(last);
    }
  }

  /** The claims of the merged list: those of the static routes, and a single one for each host
      that only one accepted discovered route names and no static route takes. */
  lemma MergedClaims(p: Platform, statics: seq<Route>, discovered: seq<DiscoveredRoute>, host: string)
    ensures Claims(p, MergedRoutes(p, statics, discovered), host)
            == Claims(p, statics, host)
               + if Claims(p, statics, host) == 0 && Tally(DiscoveredHost(), Accepted(p, discovered), host) == 1
                 then 1 else 0
  {
    hide Normalize, Matches, Collect, Claims;
    var sorted := SortedAccepted(p, discovered);
    SortClaims(p, LessConfigRoute, Unsorted(p, statics, discovered), host);
    ClaimsConcat(p, Collect(Statics(p), statics), Collect(Kept(p, statics, sorted), sorted), host);
    StaticsClaims(p, statics, host);
    forall d | d in sorted ensures Normalize(p, d.host) == Ok(d.host) {
      AcceptedMembers(p, discovered, d);
    }
    KeptClaims(p, statics, sorted, sorted, host);
    SortKeeps(LessDiscovered, Accepted(p, discovered));
    TallyInMultiset(DiscoveredHost(), sorted, Accepted(p, discovered), host);
  }

  lemma MergedSound(p: Platform, statics: seq<Route>, discovered: seq<DiscoveredRoute>, r: Route)
    requires forall i :: 0 <= i < |statics| ==> SoundRoute(p, statics[i])
    requires r in MergedRoutes(p, statics, discovered)
    ensures SoundRoute(p, r)
  {
    hide Normalize, AsStatic, SoundRoute, ValidateDiscovered, StableSort;
    var sorted := SortedAccepted(p, discovered);
    SortMembers(LessConfigRoute, Unsorted(p, statics, discovered));
    CollectMembers(Statics(p), statics, r);
    CollectMembers(Kept(p, statics, sorted), sorted, r);
    if k :| 0 <= k < |statics| && r in Statics(p)(statics[k]) {
      AsStaticSame(p, statics[k], "");
    } else {
      var k :| 0 <= k < |sorted| && r in Kept(p, statics, sorted)(sorted[k]);
      AcceptedMembers(p, discovered, sorted[k]);
      assert r == AsRoute(sorted[k]);
      DiscoveredSound(p, sorted[k]);
    }
  }

  lemma DiscoveredSound(p: Platform, d: DiscoveredRoute)
    requires Normalize(p, d.host) == Ok(d.host) && ValidBackend(p, d.backend)
    ensures SoundRoute(p, AsRoute(d))
  {
    hide Normalize, ValidBackend;
  }

  /** Merging any discovered routes into valid static ones gives valid routes again. */
  lemma MergeStaysValid(p: Platform, statics: seq<Route>, discovered: seq<DiscoveredRoute>)
    requires ValidRoutes(p, statics)
    ensures ValidRoutes(p, MergedRoutes(p, statics, discovered))
  {
    hide SoundRoute, MergedRoutes, Claims, Accepted;
    var merged := MergedRoutes(p, statics, discovered);
    forall i | 0 <= i < |merged| ensures SoundRoute(p, merged[i]) {
      MergedSound(p, statics, discovered, merged[i]);
    }
    forall host ensures Claims(p, merged, host) <= 1 {
      MergedClaims(p, statics, discovered, host);
    }
  }

  lemma {:induction false} ValidOrNot(p: Platform, discovered: seq<DiscoveredRoute>)
    ensures |Collect(Valid(p), discovered)| + |Collect(Invalid(p), discovered)| == |discovered|
  {
    hide ValidateDiscovered;
    if discovered != [] {
      ValidOrNot(p, discovered[..|discovered| - 1]);
    }
  }

  lemma {:induction false} KeptOrDropped(p: Platform, statics: seq<Route>, all: seq<DiscoveredRoute>, some: seq<DiscoveredRoute>)
    ensures |Collect(Kept(p, statics, all), some)| + |Collect(Dropped(p, statics, all), some)| == |some|
  {
    hide Survives;
    if some != [] {
      KeptOrDropped(p, statics, all, some[..|some| - 1]);
    }
  }

  lemma {:induction false} StaticsLength(p: Platform, statics: seq<Route>)
    ensures |Collect(Statics(p), statics)| == |statics|
  {
    hide AsStatic;
    if statics != [] {
      StaticsLength(p, statics[..|statics| - 1]);
    }
  }

  /** Every static route stays, every discovered route is either merged or ignored, and the
      reason counts are the exact numbers of ignored routes with each reason. */
  lemma NothingLost(p: Platform, statics: seq<Route>, discovered: seq<DiscoveredRoute>, def: DefaultRoute, r: MergeResult)
    requires IsMerge(p, statics, discovered, def, r)
    ensures |r.routes| + |r.ignored| == |statics| + |discovered|
    ensures forall reason :: Tally(IgnoredReason(), r.ignored, reason)
                             == if reason in r.ignoredByReason then r.ignoredByReason[reason] else 0
  {
    hide ValidateDiscovered, AsStatic, Survives, LessConfigRoute, LessIgnored, LessDiscovered;
    var sorted := SortedAccepted(p, discovered);
    StaticsLength(p, statics);
    ValidOrNot(p, discovered);
    KeptOrDropped(p, statics, sorted, sorted);
  }

  /** Why a discovered route is left out: it is invalid, its host was discovered twice, or a static
      route has it. */
  ghost predicate LeftOut(p: Platform, statics: seq<Route>, discovered: seq<DiscoveredRoute>, i: Ignored) {
    || (exists k :: 0 <= k < |discovered| && RejectedAs(p, discovered[k], i))
    || Cancels(p, statics, discovered, i)
  }

  ghost predicate Cancels(p: Platform, statics: seq<Route>, discovered: seq<DiscoveredRoute>, i: Ignored) {
    var accepted := Accepted(p, discovered);
    exists v :: v in accepted && CancelledAs(p, statics, Tally(DiscoveredHost(), accepted, v.host), v, i)
  }

  predicate RejectedAs(p: Platform, d: DiscoveredRoute, i: Ignored) {
    ValidateDiscovered(p, d) == Err(i.err) && i == Ignored(d.host, d.backend, "invalid_discovered_route", i.err)
  }

  predicate CancelledAs(p: Platform, statics: seq<Route>, discoveries: nat, v: DiscoveredRoute, i: Ignored) {
    if discoveries > 1 then
      i == Ignored(v.host, v.backend, "duplicate_discovered_host", "host is discovered more than once")
    else
      && Claims(p, statics, v.host) > 0
      && i == Ignored(v.host, v.backend, "static_route_precedence", "host is already configured by a static route")
  }

  /** The ignored routes are exactly the ones left out, each under its own reason. */
  lemma IgnoredIff(p: Platform, statics: seq<Route>, discovered: seq<DiscoveredRoute>, def: DefaultRoute,
                   r: MergeResult, i: Ignored)
    requires IsMerge(p, statics, discovered, def, r)
    ensures i in r.ignored <==> LeftOut(p, statics, discovered, i)
  {
    var sorted := SortedAccepted(p, discovered);
    assert i in r.ignored <==> i in Rejections(p, statics, discovered) by {
      SortMembers(LessIgnored, Rejections(p, statics, discovered));
    }
    assert i in Rejections(p, statics, discovered)
      <==> i in Collect(Invalid(p), discovered) || i in Collect(Dropped(p, statics, sorted), sorted);
    hide IsMerge, Rejections, Cancels, SortedAccepted, RejectedAs, Collect, Dropped, Invalid;
    InvalidIff(p, discovered, i);
    DroppedIff(p, statics, discovered, i);
  }

  lemma InvalidIff(p: Platform, discovered: seq<DiscoveredRoute>, i: Ignored)
    ensures i in Collect(Invalid(p), discovered) <==> exists k :: 0 <= k < |discovered| && RejectedAs(p, discovered[k], i)
  {
    hide ValidateDiscovered;
    CollectMembers(Invalid(p), discovered, i);
  }

  lemma DroppedIff(p: Platform, statics: seq<Route>, discovered: seq<DiscoveredRoute>, i: Ignored)
    ensures i in Collect(Dropped(p, statics, SortedAccepted(p, discovered)), SortedAccepted(p, discovered))
      <==> Cancels(p, statics, discovered, i)
  {
    var accepted, sorted := Accepted(p, discovered), SortedAccepted(p, discovered);
    forall v ensures (v in accepted <==> v in sorted)
      && (i in Dropped(p, statics, sorted)(v) <==> CancelledAs(p, statics, Tally(DiscoveredHost(), accepted, v.host), v, i))
    {
      DroppedOne(p, statics, discovered, v, i);
    }
    CollectMembers(Dropped(p, statics, sorted), sorted, i);
    hide CancelledAs, Dropped, StableSort, Accepted, Collect, Tally;
  }

  lemma DroppedOne(p: Platform, statics: seq<Route>, discovered: seq<DiscoveredRoute>, v: DiscoveredRoute, i: Ignored)
    ensures var accepted, sorted := Accepted(p, discovered), SortedAccepted(p, discovered);
      && (v in accepted <==> v in sorted)
      && (i in Dropped(p, statics, sorted)(v) <==> CancelledAs(p, statics, Tally(DiscoveredHost(), accepted, v.host), v, i))
  {
    hide Tally, Claims, StableSort, Accepted;
    var accepted, sorted := Accepted(p, discovered), SortedAccepted(p, discovered);
    SortKeeps(LessDiscovered, accepted);
    SortMembers(LessDiscovered, accepted);
    TallyInMultiset(DiscoveredHost(), sorted, accepted, v.host);
  }

  lemma ClaimsOrderFree(p: Platform, s: seq<Route>, t: seq<Route>, host: string)
    requires multiset(s) == multiset(t)
    ensures Claims(p, s, host) == Claims(p, t, host)
  {
    ClaimsRearranged(p, s, t, host);
  }

  ghost predicate Rearranged(s: seq<Route>, t: seq<Route>) {
    multiset(s) == multiset(t)
  }

  lemma {:induction false} ClaimsRearranged(p: Platform, s: seq<Route>, t: seq<Route>, host: string)
    requires Rearranged(s, t)
    ensures Claims(p, s, host) == Claims(p, t, host)
    decreases |s|
  {
    hide *;
    if s == [] {
      NoneLeft(s, t);
    } else {
      var init, last := s[..|s| - 1], s[|s| - 1];
      var k := TakenOut(s, t);
      ClaimsRearranged(p, init, t[..k] + t[k + 1..], host);
      ClaimsWithout(p, t, k, host);
      ClaimsSnoc(p, init, last, host);
      assert s == init + [last];
    }
  }

  lemma NoneLeft(s: seq<Route>, t: seq<Route>)
    requires Rearranged(s, t) && s == []
    ensures t == []
  {
    assert |t| == |multiset(t)| == 0;
  }

  lemma TakenOut(s: seq<Route>, t: seq<Route>) returns (k: nat)
    requires Rearranged(s, t) && s != []
    ensures k < |t| && t[k] == s[|s| - 1] && Rearranged(s[..|s| - 1], t[..k] + t[k + 1..])
  {
    k := LocateLast(s, t);
  }

  lemma ClaimsWithout(p: Platform, t: seq<Route>, k: nat, host: string)
    requires k < |t|
    ensures Claims(p, t, host) == Claims(p, t[..k] + t[k + 1..], host) + Matches(p, Identities(t[k]), host)
  {
    hide *;
    var front, back := t[..k], t[k + 1..];
    ClaimsConcat(p, front, back, host);
    ClaimsConcat(p, front + [t[k]], back, host);
    ClaimsSnoc(p, front, t[k], host);
    assert t == front + [t[k]] + back;
  }

  /** A generated service backend passes the merge's own check without change. */
  lemma ServiceBackendAccepted(p: Platform, name: string, namespace: string, port: nat)
    requires IsDNSLabel(name) && IsDNSLabel(namespace) && 1 <= port <= 65535
    ensures ValidateServiceBackend(p, ServiceBackend(name, namespace, port)) == Ok(ServiceBackend(name, namespace, port))
    ensures TrimSpace(p, ServiceBackend(name, namespace, port)) != ""
  {
    hide Normalize, SplitHostPort, IsDNSLabel, Itoa, Atoi;
    var full := name + "." + namespace + ".svc.cluster.local";
    ServiceNameParts(name, namespace);
    FixedPoints(p, full);
    PlainHost(p, full);
    AtoiItoa(port);
    PortIsPlain(p, Itoa(port));
    SplitJoin(full, Itoa(port));
    ServiceBackendPlain(p, full, port);
    assert ServiceBackend(name, namespace, port) == full + ":" + Itoa(port);
  }

  lemma ServiceBackendPlain(p: Platform, full: string, port: nat)
    requires |full| >= 1 && forall part :: part in Split(full, '.') ==> IsDNSLabel(part)
    requires port <= 65535
    ensures TrimSpace(p, full + ":" + Itoa(port)) != ""
  {
    hide IsDNSLabel, Itoa, Split;
    PortIsPlain(p, Itoa(port));
    forall i | 0 <= i < |full| ensures IsLabelChar(full[i]) || full[i] == '.' {
      LabelChars(full, i);
    }
    PlainText(p, full + ":" + Itoa(port));
  }

  lemma SuffixParts()
    ensures Split("svc.cluster.local", '.') == ["svc", "cluster", "local"]
    ensures IsDNSLabel("svc") && IsDNSLabel("cluster") && IsDNSLabel("local")
  {
    hide Split;
    SplitSingle("local", '.');
    SplitConcat("cluster", '.', "local");
    assert "cluster" + ['.'] + "local" == "cluster.local";
    SplitConcat("svc", '.', "cluster.local");
    assert "svc" + ['.'] + "cluster.local" == "svc.cluster.local";
  }

  lemma ServiceNameParts(name: string, namespace: string)
    requires IsDNSLabel(name) && IsDNSLabel(namespace)
    ensures var full := name + "." + namespace + ".svc.cluster.local";
            && Split(full, '.') == [name, namespace, "svc", "cluster", "local"]
            && 1 <= |full| <= 253
            && forall part :: part in Split(full, '.') ==> IsDNSLabel(part)
  {
    hide Split;
    var full := name + "." + namespace + ".svc.cluster.local";
    SuffixParts();
    SplitConcat(namespace, '.', "svc.cluster.local");
    SplitConcat(name, '.', namespace + ['.'] + "svc.cluster.local");
    assert full == name + ['.'] + (namespace + ['.'] + "svc.cluster.local");
    assert Split(full, '.') == [name] + ([namespace] + ["svc", "cluster", "local"]);
  }

  /** Every route that service discovery emits passes the merge's validation unchanged. */
  lemma EmittedAccepted(p: Platform, prefix: string, service: ServiceInput)
    requires ParseServiceAnnotations(p, prefix, service).Parsed?
    ensures var route := ParseServiceAnnotations(p, prefix, service).route;
            ValidateDiscovered(p, route) == Ok(route)
  {
    hide Normalize, PrefixProblem, ServiceBackend, ValidateServiceBackend;
    var host := Annotation(service, prefix + "/host");
    var port := Atoi(TrimSpace(p, Annotation(service, prefix + "/port"))).value;
    Idempotent(p, host);
    ServiceBackendAccepted(p, service.name, service.namespace, port);
  }
}
