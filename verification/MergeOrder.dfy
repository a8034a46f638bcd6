/** internal/discovery/merge.go: exactly when the order of the inputs shows in the merge. */
module MergeOrder {
  import opened GoText
  import opened Lists
  import opened Sorting
  import opened HostAddr
  import opened RouteConfig
  import opened Discovery
  import opened Merge
  import opened MergeProperties

  lemma {:induction false} TallyTwo<A, K>(tag: A -> K, s: seq<A>, i: nat, j: nat)
    requires i < j < |s| && tag(s[i]) == tag(s[j])
    ensures Tally(tag, s, tag(s[i])) >= 2
  {
    if j < |s| - 1 {
      TallyTwo(tag, s[..|s| - 1], i, j);
    } else {
      TallyPositive(tag, s[..j], tag(s[i]));
      assert tag(s[..j][i]) == tag(s[i]);
    }
  }

  /** No two static routes share their canonical server address. */
  ghost predicate DistinctPrimaries(p: Platform, statics: seq<Route>) {
    forall i, j :: 0 <= i < j < |statics| ==>
      NormalizedOr(p, statics[i].serverAddress) != NormalizedOr(p, statics[j].serverAddress)
  }

  /** What lessConfigRoute looks at. */
  function SortKey(r: Route): (string, string) {
    (r.serverAddress, r.backend)
  }

  /** Static routes that lessConfigRoute cannot tell apart are the same once canonical. */
  ghost predicate KeysTellApart(p: Platform, statics: seq<Route>) {
    forall i, j :: 0 <= i < |statics| && 0 <= j < |statics| && SortKey(AsStatic(p, statics[i])) == SortKey(AsStatic(p, statics[j])) ==>
      AsStatic(p, statics[i]) == AsStatic(p, statics[j])
  }

  /** Where a route of the merged list comes from. */
  ghost predicate FromStatic(p: Platform, statics: seq<Route>, r: Route, k: int) {
    0 <= k < |statics| && r == AsStatic(p, statics[k])
  }

  ghost predicate FromDiscovered(p: Platform, statics: seq<Route>, sorted: seq<DiscoveredRoute>, r: Route, k: int) {
    0 <= k < |sorted| && r == AsRoute(sorted[k]) && Survives(p, statics, sorted, sorted[k])
  }

  lemma Origin(p: Platform, statics: seq<Route>, discovered: seq<DiscoveredRoute>, r: Route) returns (k: int)
    requires r in Unsorted(p, statics, discovered)
    ensures FromStatic(p, statics, r, k) || FromDiscovered(p, statics, SortedAccepted(p, discovered), r, k)
  {
    hide Survives, AsStatic, ValidateDiscovered, StableSort;
    var sorted := SortedAccepted(p, discovered);
    CollectMembers(Statics(p), statics, r);
    CollectMembers(Kept(p, statics, sorted), sorted, r);
    if i :| 0 <= i < |statics| && r in Statics(p)(statics[i]) {
      k := i;
    } else {
      k :| 0 <= k < |sorted| && r in Kept(p, statics, sorted)(sorted[k]);
    }
  }

  /** A surviving discovered host is the canonical address of no static route. */
  lemma StaticNotDiscovered(p: Platform, statics: seq<Route>, sorted: seq<DiscoveredRoute>, i: nat, j: nat)
    requires i < |statics| && j < |sorted| && Survives(p, statics, sorted, sorted[j])
    requires Normalize(p, sorted[j].host) == Ok(sorted[j].host)
    ensures NormalizedOr(p, statics[i].serverAddress) != sorted[j].host
  {
    hide Normalize, Claims, Tally;
    var host := sorted[j].host;
    if NormalizedOr(p, statics[i].serverAddress) == host {
      NormalizedOrSame(p, statics[i].serverAddress);
      MatchesPositive(p, Identities(statics[i]), host);
      assert Normalize(p, Identities(statics[i])[0]) == Ok(host);
      ClaimsCovers(p, statics, i, host);
    }
  }

  /** Distinct routes of the merged list have distinct keys. */
  lemma KeyTellsApart(p: Platform, statics: seq<Route>, discovered: seq<DiscoveredRoute>, x: Route, y: Route)
    requires KeysTellApart(p, statics)
    requires x in Unsorted(p, statics, discovered) && y in Unsorted(p, statics, discovered)
    requires SortKey(x) == SortKey(y)
    ensures x == y
  {
    hide Normalize, NormalizedOr, Unsorted, Claims, Tally, StableSort;
    var sorted := SortedAccepted(p, discovered);
    var i := Origin(p, statics, discovered, x);
    var j := Origin(p, statics, discovered, y);
    if FromStatic(p, statics, x, i) {
      if !FromStatic(p, statics, y, j) {
        AcceptedMembers(p, discovered, sorted[j]);
        StaticNotDiscovered(p, statics, sorted, i, j);
      }
    } else {
      AcceptedMembers(p, discovered, sorted[i]);
      if FromStatic(p, statics, y, j) {
        StaticNotDiscovered(p, statics, sorted, j, i);
      } else if i < j {
        TallyTwo(DiscoveredHost(), sorted, i, j);
      } else if j < i {
        TallyTwo(DiscoveredHost(), sorted, j, i);
      }
    }
  }

  lemma MergedOrder(p: Platform, statics: seq<Route>, discovered: seq<DiscoveredRoute>)
    requires KeysTellApart(p, statics)
    ensures TotalOn(LessConfigRoute, multiset(Unsorted(p, statics, discovered)))
  {
    hide Unsorted, Less, NormalizedOr, AsStatic, KeysTellApart;
    LessIsOrder();
    var m := multiset(Unsorted(p, statics, discovered));
    forall x, y | x in m && y in m && x != y ensures SortKey(x) != SortKey(y) {
      if SortKey(x) == SortKey(y) {
        KeyTellsApart(p, statics, discovered, x, y);
      }
    }
  }

  /** Under the same condition the merged routes come out by address and then by backend. */
  lemma MergedSorted(p: Platform, statics: seq<Route>, discovered: seq<DiscoveredRoute>, i: nat, j: nat)
    requires KeysTellApart(p, statics) && i < j < |MergedRoutes(p, statics, discovered)|
    ensures var out := MergedRoutes(p, statics, discovered);
      && !Less(out[j].serverAddress, out[i].serverAddress)
      && (out[i].serverAddress == out[j].serverAddress ==> !Less(out[j].backend, out[i].backend))
  {
    hide Less, StableSort, Unsorted, KeysTellApart;
    MergedOrder(p, statics, discovered);
    SortSorted(LessConfigRoute, Unsorted(p, statics, discovered));
    var out := MergedRoutes(p, statics, discovered);
    assert !LessConfigRoute(out[j], out[i]);
    LessTrichotomy(out[j].serverAddress, out[j].serverAddress);
    LessTrichotomy(out[j].backend, out[j].backend);
  }

  /** The parts of the merge before its final sorts, for two orders of the same input. */
  lemma UnsortedOrderFree(p: Platform, s: seq<Route>, t: seq<Route>, d: seq<DiscoveredRoute>, e: seq<DiscoveredRoute>)
    requires multiset(s) == multiset(t) && multiset(d) == multiset(e)
    ensures SortedAccepted(p, d) == SortedAccepted(p, e)
    ensures multiset(Unsorted(p, s, d)) == multiset(Unsorted(p, t, e))
    ensures multiset(Rejections(p, s, d)) == multiset(Rejections(p, t, e))
  {
    hide ValidateDiscovered, LessDiscovered, AsStatic, StableSort, Claims, Tally;
    CollectOrderFree(Valid(p), d, e);
    DiscoveredOrder(multiset(Accepted(p, d)));
    SortOrderFree(LessDiscovered, Accepted(p, d), Accepted(p, e));
    var sorted := SortedAccepted(p, d);
    CollectOrderFree(Statics(p), s, t);
    CollectOrderFree(Invalid(p), d, e);
    forall x | x in sorted
      ensures Kept(p, s, sorted)(x) == Kept(p, t, sorted)(x) && Dropped(p, s, sorted)(x) == Dropped(p, t, sorted)(x)
    {
      ClaimsOrderFree(p, s, t, x.host);
    }
    CollectSame(Kept(p, s, sorted), Kept(p, t, sorted), sorted);
    CollectSame(Dropped(p, s, sorted), Dropped(p, t, sorted), sorted);
  }

  /** The merge does not depend on the order of either input once static routes with the same
      canonical address and backend are the same. */
  lemma MergeOrderFree(p: Platform, s: seq<Route>, t: seq<Route>, d: seq<DiscoveredRoute>, e: seq<DiscoveredRoute>,
                       def: DefaultRoute, r: MergeResult, q: MergeResult)
    requires multiset(s) == multiset(t) && multiset(d) == multiset(e)
    requires KeysTellApart(p, s)
    requires IsMerge(p, s, d, def, r) && IsMerge(p, t, e, def, q)
    ensures r == q
  {
    hide Unsorted, Rejections, StableSort, LessConfigRoute, LessIgnored, KeysTellApart;
    UnsortedOrderFree(p, s, t, d, e);
    MergedOrder(p, s, d);
    SortOrderFree(LessConfigRoute, Unsorted(p, s, d), Unsorted(p, t, e));
    IgnoredOrder(multiset(Rejections(p, s, d)));
    SortOrderFree(LessIgnored, Rejections(p, s, d), Rejections(p, t, e));
    CountsUnique(IgnoredReason(), r.ignored, q.ignored, r.ignoredByReason, q.ignoredByReason);
  }

  // Stability, and why no weaker condition will do.

  predicate HasKey(key: (string, string), r: Route) {
    SortKey(r) == key
  }

  function WithKey(key: (string, string)): Route -> bool {
    (r: Route) => HasKey(key, r)
  }

  lemma SameKeyNotLess(key: (string, string))
    ensures forall x, y :: WithKey(key)(x) && WithKey(key)(y) ==> !LessConfigRoute(x, y)
  {
    forall x, y | WithKey(key)(x) && WithKey(key)(y) ensures !LessConfigRoute(x, y) {
      LessTrichotomy(x.backend, y.backend);
    }
  }

  /** A static route that is put first comes first among the merged routes with its key. */
  lemma FirstWithKey(p: Platform, first: Route, rest: seq<Route>, discovered: seq<DiscoveredRoute>)
    ensures var r := AsStatic(p, first);
      var picked := Only(WithKey(SortKey(r)), MergedRoutes(p, [first] + rest, discovered));
      picked != [] && picked[0] == r
  {
    hide StableSort, AsStatic, LessConfigRoute, SortKey, SortedAccepted, Unsorted, Only;
    var r, statics := AsStatic(p, first), [first] + rest;
    var pick := WithKey(SortKey(r));
    SameKeyNotLess(SortKey(r));
    SortStable(LessConfigRoute, pick, Unsorted(p, statics, discovered));
    var tail := FirstUnsorted(p, first, rest, discovered);
    OnlyConcat(pick, [r], tail);
    OnlyOne(pick, r);
  }

  lemma FirstUnsorted(p: Platform, first: Route, rest: seq<Route>, discovered: seq<DiscoveredRoute>) returns (tail: seq<Route>)
    ensures Unsorted(p, [first] + rest, discovered) == [AsStatic(p, first)] + tail
  {
    hide AsStatic, Survives, SortedAccepted, Collect;
    var statics, sorted := [first] + rest, SortedAccepted(p, discovered);
    CollectConcat(Statics(p), [first], rest);
    CollectSnoc(Statics(p), [], first);
    assert [] + [first] == [first];
    assert Collect(Statics(p), []) == [] by { NoneCollected(Statics(p)); }
    tail := Collect(Statics(p), rest) + Collect(Kept(p, statics, sorted), sorted);
  }

  lemma NoneCollected<A, B>(f: A -> seq<B>)
    ensures Collect(f, []) == []
  {
  }

  lemma OnlyOne<T>(pick: T -> bool, x: T)
    requires pick(x)
    ensures Only(pick, [x]) == [x]
  {
    assert [x][..0] == [];
  }

  lemma ToFront<T>(s: seq<T>, k: nat)
    requires k < |s|
    ensures multiset([s[k]] + (s[..k] + s[k + 1..])) == multiset(s)
  {
    assert s == s[..k] + [s[k]] + s[k + 1..];
  }

  /** The whole result is the same for every order of both inputs. */
  ghost predicate OrderFree(p: Platform, s: seq<Route>, d: seq<DiscoveredRoute>, def: DefaultRoute) {
    forall t, e, r, q ::
      (multiset(s) == multiset(t) && multiset(d) == multiset(e) && IsMerge(p, s, d, def, r) && IsMerge(p, t, e, def, q)) ==> r == q
  }

  /** There is a merge of any two lists. */
  lemma MergeExists(p: Platform, s: seq<Route>, d: seq<DiscoveredRoute>, def: DefaultRoute) returns (r: MergeResult)
    ensures IsMerge(p, s, d, def, r)
  {
    hide MergedRoutes, Rejections, StableSort, Tallied;
    var ignored := StableSort(LessIgnored, Rejections(p, s, d));
    TalliedCounts(IgnoredReason(), ignored);
    r := MergeResult(MergedRoutes(p, s, d), ignored, Tallied(IgnoredReason(), ignored), TrimSpace(p, def.backend) != "");
  }

  lemma FrontInMerge(p: Platform, s: seq<Route>, d: seq<DiscoveredRoute>, def: DefaultRoute, k: nat)
    requires OrderFree(p, s, d, def) && k < |s|
    ensures var r := AsStatic(p, s[k]);
      var picked := Only(WithKey(SortKey(r)), MergedRoutes(p, s, d));
      picked != [] && picked[0] == r
  {
    hide MergedRoutes, AsStatic, Only, WithKey, Rejections, StableSort;
    var rest := s[..k] + s[k + 1..];
    ToFront(s, k);
    var r := MergeExists(p, s, d, def);
    var q := MergeExists(p, [s[k]] + rest, d, def);
    assert r == q;
    FirstWithKey(p, s[k], rest, d);
  }

  /** The merge does not depend on the order of its inputs if and only if static routes that
      lessConfigRoute cannot tell apart are the same once canonical. */
  lemma MergeOrderFreeIff(p: Platform, s: seq<Route>, d: seq<DiscoveredRoute>, def: DefaultRoute)
    ensures OrderFree(p, s, d, def) <==> KeysTellApart(p, s)
  {
    if KeysTellApart(p, s) {
      hide KeysTellApart, IsMerge;
      forall t, e, r, q | multiset(s) == multiset(t) && multiset(d) == multiset(e)
        && IsMerge(p, s, d, def, r) && IsMerge(p, t, e, def, q)
        ensures r == q
      {
        MergeOrderFree(p, s, t, d, e, def, r, q);
      }
    }
    if OrderFree(p, s, d, def) {
      forall i, j | 0 <= i < |s| && 0 <= j < |s| && SortKey(AsStatic(p, s[i])) == SortKey(AsStatic(p, s[j]))
        ensures AsStatic(p, s[i]) == AsStatic(p, s[j])
      {
        hide *;
        FrontInMerge(p, s, d, def, i);
        FrontInMerge(p, s, d, def, j);
      }
    }
  }

  // The routes that reach the merge in production.

  lemma {:induction false} ClaimsTwo(p: Platform, routes: seq<Route>, i: nat, j: nat, host: string)
    requires i < j < |routes|
    ensures Claims(p, routes, host) >= Matches(p, Identities(routes[i]), host) + Matches(p, Identities(routes[j]), host)
  {
    hide Matches;
    var most := routes[..|routes| - 1];
    if j < |most| {
      ClaimsTwo(p, most, i, j, host);
    } else {
      ClaimsCovers(p, most, i, host);
    }
  }

  /** Routes that Validate accepts have distinct addresses, so BuildRouteSnapshot, which validates
      before it merges, never sees an order show. */
  lemma ValidIsOrderFree(p: Platform, s: seq<Route>, d: seq<DiscoveredRoute>, def: DefaultRoute)
    requires ValidRoutes(p, s)
    ensures DistinctPrimaries(p, s) && OrderFree(p, s, d, def)
  {
    forall i, j | 0 <= i < j < |s|
      ensures NormalizedOr(p, s[i].serverAddress) != NormalizedOr(p, s[j].serverAddress)
    {
      TwoPrimaries(p, s, i, j);
    }
    DistinctIsApart(p, s);
    hide *;
    MergeOrderFreeIff(p, s, d, def);
  }

  lemma TwoPrimaries(p: Platform, s: seq<Route>, i: nat, j: nat)
    requires ValidRoutes(p, s) && i < j < |s|
    ensures NormalizedOr(p, s[i].serverAddress) != NormalizedOr(p, s[j].serverAddress)
  {
    hide Normalize, Claims, Matches;
    var host := NormalizedOr(p, s[i].serverAddress);
    assert SoundRoute(p, s[i]) && SoundRoute(p, s[j]);
    assert Identities(s[i])[0] == s[i].serverAddress && Identities(s[j])[0] == s[j].serverAddress;
    ClaimsTwo(p, s, i, j, host);
    MatchesPositive(p, Identities(s[i]), host);
    MatchesPositive(p, Identities(s[j]), host);
  }

  lemma DistinctIsApart(p: Platform, s: seq<Route>)
    requires DistinctPrimaries(p, s)
    ensures KeysTellApart(p, s)
  {
    hide NormalizedOr;
    forall i, j | 0 <= i < |s| && 0 <= j < |s| && SortKey(AsStatic(p, s[i])) == SortKey(AsStatic(p, s[j]))
      ensures i == j
    {
    }
  }

  /** Two routes that break the condition, and show their order. By ValidIsOrderFree they are among
      those that Validate rejects before BuildRouteSnapshot merges. */
  lemma StaticOrderCanShow(p: Platform)
    ensures exists s, t :: multiset(s) == multiset(t) && MergedRoutes(p, s, []) != MergedRoutes(p, t, [])
  {
    hide Normalize;
    var a := Route("x", [], "b:1", "", None, "");
    var b := Route("x", [], "b:1", "c:1", None, "");
    var one, two := AsStatic(p, a), AsStatic(p, b);
    assert one.serverAddress == two.serverAddress && one.statusBackend != two.statusBackend;
    LessTrichotomy("b:1", "b:1");
    TwoStatics(p, a, b);
    TwoStatics(p, b, a);
    assert multiset([a, b]) == multiset([b, a]);
    assert MergedRoutes(p, [a, b], [])[0] != MergedRoutes(p, [b, a], [])[0];
  }

  lemma SortTwo<T>(less: (T, T) -> bool, x: T, y: T)
    requires !less(y, x)
    ensures StableSort(less, [x, y]) == [x, y]
  {
    assert [x, y][..1] == [x] && [x][..0] == [];
    assert StableSort(less, [x]) == [x];
  }

  lemma NothingDiscovered(p: Platform, statics: seq<Route>)
    ensures MergedRoutes(p, statics, []) == StableSort(LessConfigRoute, Collect(Statics(p), statics))
  {
    hide AsStatic, LessConfigRoute, Normalize;
    assert SortedAccepted(p, []) == [];
    var none := SortedAccepted(p, []);
    assert Collect(Kept(p, statics, none), none) == [];
    assert Unsorted(p, statics, []) == Collect(Statics(p), statics);
  }

  lemma TwoStatics(p: Platform, a: Route, b: Route)
    requires !LessConfigRoute(AsStatic(p, b), AsStatic(p, a))
    ensures MergedRoutes(p, [a, b], []) == [AsStatic(p, a), AsStatic(p, b)]
  {
    hide *;
    NothingDiscovered(p, [a, b]);
    TwoCollected(p, a, b);
    SortTwo(LessConfigRoute, AsStatic(p, a), AsStatic(p, b));
  }

  lemma TwoCollected(p: Platform, a: Route, b: Route)
    ensures Collect(Statics(p), [a, b]) == [AsStatic(p, a), AsStatic(p, b)]
  {
    hide AsStatic;
    assert [a, b] == [] + [a] + [b];
    CollectSnoc(Statics(p), [], a);
    CollectSnoc(Statics(p), [] + [a], b);
  }
}
