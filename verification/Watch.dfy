/** internal/discovery/kubernetes: the service cache kept by the watch. */
module Watch {
  import opened GoText
  import opened Lists
  import opened Discovery

  datatype Service = Service(
    name: string, namespace: string, serviceType: string, annotations: map<string, string>, ports: seq<ServicePort>)

  datatype Event =
    | Added(service: Service)
    | Modified(service: Service)
    | Deleted(service: Service)
    | Bookmark(service: Service)
    | OtherObject
    | ErrorEvent

  const EXTERNAL_NAME := "ExternalName"

  function ToServiceInput(s: Service): Option<ServiceInput> {
    if s.serviceType == EXTERNAL_NAME then None
    else Some(ServiceInput(s.name, s.namespace, s.annotations, s.ports))
  }

  function ServiceKey(namespace: string, name: string): string {
    namespace + "/" + name
  }

  type Cluster = map<(string, string), Service>

  /** The objects in the namespace after an event. */
  function ClusterStep(c: Cluster, e: Event): Cluster {
    match e
    case Added(s) => c[(s.namespace, s.name) := s]
    case Modified(s) => c[(s.namespace, s.name) := s]
    case Deleted(s) => c - {(s.namespace, s.name)}
    case Bookmark(_) => c
    case OtherObject => c
    case ErrorEvent => c
  }

  function ClusterAfter(c: Cluster, events: seq<Event>): Cluster {
    if events == [] then c else ClusterStep(ClusterAfter(c, events[..|events| - 1]), events[|events| - 1])
  }

  predicate HasService(e: Event) { e.Added? || e.Modified? || e.Deleted? || e.Bookmark? }

  /** Namespaces hold no slash, as the API server enforces. */
  ghost predicate Named(c: Cluster) {
    forall k :: k in c ==> '/' !in k.0 && k == (c[k].namespace, c[k].name)
  }

  /** list holds every object of the cluster once. */
  ghost predicate IsListing(c: Cluster, list: seq<Service>) {
    && (forall i :: 0 <= i < |list| ==> (list[i].namespace, list[i].name) in c && c[(list[i].namespace, list[i].name)] == list[i])
    && (forall k :: k in c ==> c[k] in list)
    && NoRepeats(list)
  }

  function Inputs(): Service -> seq<ServiceInput> {
    (s: Service) => var i := ToServiceInput(s); if i.Some? then [i.value] else []
  }

  function Keys(): Service -> seq<string> {
    (s: Service) => if ToServiceInput(s).Some? then [ServiceKey(s.namespace, s.name)] else []
  }

  function At(cache: map<string, ServiceInput>): string -> seq<ServiceInput> {
    (k: string) => if k in cache then [cache[k]] else []
  }

  /** The cache holds exactly the usable services of the cluster. */
  ghost predicate Mirrors(c: Cluster, cache: map<string, ServiceInput>) {
    && (forall k :: k in c && ToServiceInput(c[k]).Some? ==>
          ServiceKey(k.0, k.1) in cache && cache[ServiceKey(k.0, k.1)] == ToServiceInput(c[k]).value)
    && (forall key :: key in cache ==>
          exists k :: k in c && ToServiceInput(c[k]).Some? && key == ServiceKey(k.0, k.1))
  }

  lemma KeysDiffer(a: string, b: string, c: string, d: string)
    requires '/' !in a && '/' !in c && ServiceKey(a, b) == ServiceKey(c, d)
    ensures a == c && b == d
  {
    CutAtSlash(a, b);
    CutAtSlash(c, d);
  }

  lemma {:induction false} CutAtSlash(namespace: string, name: string)
    requires '/' !in namespace
    ensures Before(ServiceKey(namespace, name), '/') == namespace
    ensures ServiceKey(namespace, name)[|namespace| + 1..] == name
  {
    if namespace != "" {
      CutAtSlash(namespace[1..], name);
      assert ServiceKey(namespace, name)[1..] == ServiceKey(namespace[1..], name);
    }
  }

  method InitialServices(list: seq<Service>, ghost c: Cluster) returns (cache: map<string, ServiceInput>)
    requires Named(c) && IsListing(c, list)
    ensures Mirrors(c, cache)
  {
    cache := map[];
    for i := 0 to |list|
      invariant forall j :: 0 <= j < i && ToServiceInput(list[j]).Some? ==>
        var key := ServiceKey(list[j].namespace, list[j].name);
        key in cache && cache[key] == ToServiceInput(list[j]).value
      invariant forall key :: key in cache ==>
        exists j :: 0 <= j < i && ToServiceInput(list[j]).Some? && key == ServiceKey(list[j].namespace, list[j].name)
    {
      var input := ToServiceInput(list[i]);
      if input.Some? {
        forall j | 0 <= j < i && ServiceKey(list[j].namespace, list[j].name) == ServiceKey(list[i].namespace, list[i].name)
          ensures ToServiceInput(list[j]) == input
        {
          KeysDiffer(list[j].namespace, list[j].name, list[i].namespace, list[i].name);
        }
        cache := cache[ServiceKey(list[i].namespace, list[i].name) := input.value];
      }
    }
    forall k | k in c && ToServiceInput(c[k]).Some?
      ensures ServiceKey(k.0, k.1) in cache && cache[ServiceKey(k.0, k.1)] == ToServiceInput(c[k]).value
    {
      var j :| 0 <= j < |list| && list[j] == c[k];
    }
    forall key | key in cache ensures exists k :: k in c && ToServiceInput(c[k]).Some? && key == ServiceKey(k.0, k.1) {
      var j :| 0 <= j < |list| && ToServiceInput(list[j]).Some? && key == ServiceKey(list[j].namespace, list[j].name);
      var k := (list[j].namespace, list[j].name);
      assert k in c && ToServiceInput(c[k]).Some? && key == ServiceKey(k.0, k.1);
    }
  }

  /** applyWatchEvent: an error event fails, everything else keeps the cache in step. */
  method ApplyWatchEvent(cache: map<string, ServiceInput>, e: Event, ghost c: Cluster)
    returns (ok: bool, cache': map<string, ServiceInput>)
    requires Named(c) && Mirrors(c, cache)
    requires HasService(e) ==> '/' !in e.service.namespace
    ensures ok <==> !e.ErrorEvent?
    ensures ok ==> Mirrors(ClusterStep(c, e), cache') && Named(ClusterStep(c, e))
  {
    if e.ErrorEvent? {
      return false, cache;
    }
    ok, cache' := true, cache;
    if e.OtherObject? || e.Bookmark? {
      return;
    }
    var s := e.service;
    var key := ServiceKey(s.namespace, s.name);
    var input := if e.Deleted? then None else ToServiceInput(s);
    if input.Some? {
      cache' := cache[key := input.value];
    } else {
      cache' := cache - {key};
    }
    MirrorsStep(c, cache, e, cache');
  }

  /** Writing or dropping one key keeps the cache in step with one changed object. */
  lemma MirrorsStep(c: Cluster, cache: map<string, ServiceInput>, e: Event, cache': map<string, ServiceInput>)
    requires Named(c) && Mirrors(c, cache)
    requires e.Added? || e.Modified? || e.Deleted?
    requires '/' !in e.service.namespace
    requires var key := ServiceKey(e.service.namespace, e.service.name);
             var input := if e.Deleted? then None else ToServiceInput(e.service);
             cache' == if input.Some? then cache[key := input.value] else cache - {key}
    ensures Mirrors(ClusterStep(c, e), cache')
  {
    hide ServiceKey, ToServiceInput;
    var s := e.service;
    var here, key := (s.namespace, s.name), ServiceKey(s.namespace, s.name);
    var c' := ClusterStep(c, e);
    assert ChangedAt(c, cache, c', cache', here, key) by { hide Named, Mirrors; }
    forall k | k in c && k != here ensures ServiceKey(k.0, k.1) != key {
      if ServiceKey(k.0, k.1) == key {
        KeysDiffer(k.0, k.1, s.namespace, s.name);
      }
    }
    hide Named, ClusterStep;
    KeptEntries(c, cache, c', cache', here, key);
    KnownEntries(c, cache, c', cache', here, key);
  }

  /** One object changed at here, one entry at key. */
  ghost predicate ChangedAt(c: Cluster, cache: map<string, ServiceInput>, c': Cluster, cache': map<string, ServiceInput>,
                            here: (string, string), key: string)
  {
    && key == ServiceKey(here.0, here.1)
    && (forall k :: k != here ==> (k in c' <==> k in c) && (k in c ==> c'[k] == c[k]))
    && (forall x :: x != key ==> (x in cache' <==> x in cache) && (x in cache ==> cache'[x] == cache[x]))
    && (key in cache' <==> here in c' && ToServiceInput(c'[here]).Some?)
    && (key in cache' ==> cache'[key] == ToServiceInput(c'[here]).value)
  }

  lemma KeptEntries(c: Cluster, cache: map<string, ServiceInput>, c': Cluster, cache': map<string, ServiceInput>,
                    here: (string, string), key: string)
    requires Mirrors(c, cache) && ChangedAt(c, cache, c', cache', here, key)
    requires forall k :: k in c && k != here ==> ServiceKey(k.0, k.1) != key
    ensures forall k :: k in c' && ToServiceInput(c'[k]).Some? ==>
      ServiceKey(k.0, k.1) in cache' && cache'[ServiceKey(k.0, k.1)] == ToServiceInput(c'[k]).value
  {
    hide ServiceKey, ToServiceInput;
  }

  lemma KnownEntries(c: Cluster, cache: map<string, ServiceInput>, c': Cluster, cache': map<string, ServiceInput>,
                     here: (string, string), key: string)
    requires Mirrors(c, cache) && ChangedAt(c, cache, c', cache', here, key)
    ensures forall x :: x in cache' ==> exists k :: k in c' && ToServiceInput(c'[k]).Some? && x == ServiceKey(k.0, k.1)
  {
    hide ServiceKey, ToServiceInput;
    forall x | x in cache' ensures exists k :: k in c' && ToServiceInput(c'[k]).Some? && x == ServiceKey(k.0, k.1) {
      if x != key {
        var k :| k in c && ToServiceInput(c[k]).Some? && x == ServiceKey(k.0, k.1);
        assert k in c' && c'[k] == c[k];
      }
    }
  }

  /** updateSink: the cache is read in whatever order the map yields, and the result is the
      build of every possible fresh listing of the cluster. */
  method UpdateSink(p: Platform, prefix: string, cache: map<string, ServiceInput>, ghost c: Cluster)
    returns (r: BuildResult)
    requires Named(c) && Mirrors(c, cache)
    ensures IsRelistBuild(p, prefix, c, r)
  {
    hide IsBuild;
    var rest, order: seq<string>, inputs: seq<ServiceInput> := cache.Keys, [], [];
    while rest != {}
      invariant rest <= cache.Keys && NoRepeats(order)
      invariant forall k :: k in order <==> k in cache.Keys && k !in rest
      invariant inputs == Collect(At(cache), order)
      decreases rest
    {
      var k :| k in rest;
      CollectSnoc(At(cache), order, k);
      rest, order, inputs := rest - {k}, order + [k], inputs + [cache[k]];
    }
    r := BuildDiscoveredRoutes(p, prefix, inputs);
    forall list | IsListing(c, list) ensures IsBuild(p, prefix, Relisted(list), r) {
      RelistedIs(list);
      ListingOrder(c, cache, order, list);
      BuildOrderFree(p, prefix, inputs, Collect(Inputs(), list), r);
    }
  }

  /** A list as the discovery takes it: services of type ExternalName left out, of the others the
      name, namespace, annotations and ports. */
  function Relisted(list: seq<Service>): seq<ServiceInput> {
    if list == [] then []
    else
      var s := list[|list| - 1];
      Relisted(list[..|list| - 1])
      + (if s.serviceType == "ExternalName" then [] else [ServiceInput(s.name, s.namespace, s.annotations, s.ports)])
  }

  lemma {:induction false} RelistedIs(list: seq<Service>)
    ensures Relisted(list) == Collect(Inputs(), list)
  {
    if list != [] {
      RelistedIs(list[..|list| - 1]);
    }
  }

  /** r is what BuildDiscoveredRoutes makes of any fresh list of c without ExternalName services. */
  ghost predicate IsRelistBuild(p: Platform, prefix: string, c: Cluster, r: BuildResult) {
    forall list :: IsListing(c, list) ==> IsBuild(p, prefix, Relisted(list), r)
  }

  /** Every cluster can be listed, so there is always such a list. */
  lemma {:induction false} ListingExists(c: Cluster) returns (list: seq<Service>)
    requires Named(c)
    ensures IsListing(c, list)
    decreases |c|
  {
    if c == map[] {
      list := [];
    } else {
      var k :| k in c;
      var rest := c - {k};
      assert |rest.Keys| < |c.Keys| by { assert c.Keys == rest.Keys + {k}; }
      var most := ListingExists(rest);
      list := most + [c[k]];
      assert c[k] !in most;
      forall x | x in c ensures c[x] in list {
        assert x != k ==> c[x] == rest[x] && rest[x] in most;
      }
    }
  }

  lemma {:induction false} InputsThroughCache(c: Cluster, cache: map<string, ServiceInput>, list: seq<Service>)
    requires Mirrors(c, cache)
    requires forall i :: 0 <= i < |list| ==> (list[i].namespace, list[i].name) in c && c[(list[i].namespace, list[i].name)] == list[i]
    ensures Collect(Inputs(), list) == Collect(At(cache), Collect(Keys(), list))
  {
    hide ServiceKey;
    if list != [] {
      var init, last := list[..|list| - 1], list[|list| - 1];
      InputsThroughCache(c, cache, init);
      CollectConcat(At(cache), Collect(Keys(), init), Keys()(last));
      var key := ServiceKey(last.namespace, last.name);
      assert (last.namespace, last.name) in c;
      CollectSnoc(At(cache), [], key);
      assert Keys()(last) == if ToServiceInput(last).Some? then [] + [key] else [];
    }
  }

  lemma {:induction false} KeysDistinct(c: Cluster, list: seq<Service>)
    requires Named(c) && NoRepeats(list)
    requires forall i :: 0 <= i < |list| ==> (list[i].namespace, list[i].name) in c && c[(list[i].namespace, list[i].name)] == list[i]
    ensures NoRepeats(Collect(Keys(), list))
  {
    hide ServiceKey;
    if list != [] {
      var init, last := list[..|list| - 1], list[|list| - 1];
      KeysDistinct(c, init);
      var key := ServiceKey(last.namespace, last.name);
      CollectMembers(Keys(), init, key);
      if k :| 0 <= k < |init| && key in Keys()(init[k]) {
        assert init[k] == list[k] && (last.namespace, last.name) in c;
        KeysDiffer(init[k].namespace, init[k].name, last.namespace, last.name);
      }
    }
  }

  lemma ListingOrder(c: Cluster, cache: map<string, ServiceInput>, order: seq<string>, list: seq<Service>)
    requires Named(c) && Mirrors(c, cache) && IsListing(c, list)
    requires NoRepeats(order) && forall k :: k in order <==> k in cache
    ensures multiset(Collect(At(cache), order)) == multiset(Collect(Inputs(), list))
  {
    hide ServiceKey, Collect;
    var keys := Collect(Keys(), list);
    InputsThroughCache(c, cache, list);
    KeysDistinct(c, list);
    forall key ensures key in keys <==> key in order {
      CollectMembers(Keys(), list, key);
      if i :| 0 <= i < |list| && key in Keys()(list[i]) {
        assert key == ServiceKey(list[i].namespace, list[i].name);
      }
      if key in cache {
        var k :| k in c && ToServiceInput(c[k]).Some? && key == ServiceKey(k.0, k.1);
        var i :| 0 <= i < |list| && list[i] == c[k];
        assert key in Keys()(list[i]);
      }
    }
    SameMembers(order, keys);
    CollectOrderFree(At(cache), order, keys);
  }

  lemma NoEvents(c: Cluster)
    ensures ClusterAfter(c, []) == c
  {
  }

  lemma OneMoreEvent(c: Cluster, events: seq<Event>, i: nat)
    requires i < |events|
    ensures ClusterAfter(c, events[..i + 1]) == ClusterStep(ClusterAfter(c, events[..i]), events[i])
  {
    assert events[..i + 1][..i] == events[..i];
  }

  /** The event loop: after the first list and after each event that is not an error, what is
      published is the build of any fresh listing of the cluster at that moment. */
  method Run(p: Platform, prefix: string, list: seq<Service>, events: seq<Event>, ghost c0: Cluster)
    returns (published: seq<BuildResult>, failed: bool)
    requires Named(c0) && IsListing(c0, list)
    requires forall i :: 0 <= i < |events| && HasService(events[i]) ==> '/' !in events[i].service.namespace
    ensures 1 <= |published| <= |events| + 1
    ensures forall i :: 0 <= i < |published| ==> IsRelistBuild(p, prefix, ClusterAfter(c0, events[..i]), published[i])
    ensures forall i :: 0 <= i < |published| - 1 ==> !events[i].ErrorEvent?
    ensures if failed then |published| <= |events| && events[|published| - 1].ErrorEvent? else |published| == |events| + 1
  {
    hide IsRelistBuild, IsListing, Mirrors, HasService, ClusterAfter, ClusterStep, Named;
    NoEvents(c0);
    var cache := InitialServices(list, c0);
    var first := UpdateSink(p, prefix, cache, c0);
    published := [first];
    assert events[..0] == [];
    for i := 0 to |events|
      invariant |published| == i + 1
      invariant Named(ClusterAfter(c0, events[..i])) && Mirrors(ClusterAfter(c0, events[..i]), cache)
      invariant forall j :: 0 <= j <= i ==> IsRelistBuild(p, prefix, ClusterAfter(c0, events[..j]), published[j])
      invariant forall j :: 0 <= j < i ==> !events[j].ErrorEvent?
    {
      ghost var c := ClusterAfter(c0, events[..i]);
      OneMoreEvent(c0, events, i);
      var ok, next := ApplyWatchEvent(cache, events[i], c);
      if !ok {
        return published, true;
      }
      cache := next;
      var r := UpdateSink(p, prefix, cache, ClusterStep(c, events[i]));
      published := published + [r];
    }
    failed := false;
  }
}
