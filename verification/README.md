# mc-router: what its hardest parts guarantee

mc-router is a Minecraft gateway. It reads a connection's first packet, picks a backend by the
server address in it, and relays bytes. Beside that it relays UDP, and for voice chat it relays UDP
by leases that backends take out over an HTTP control port. This project models five of its parts in
Dafny and proves what they promise, for all inputs, all runs and all interleavings.

**Voice chat and UDP relay** (`VoiceCore`, `VoiceRuntime`, `VoiceMachine`, `VoiceRuns`, `VoiceGauge`,
`VoiceCoverage`, `VoiceTraces`, `LeaseProtocol`, `Companion`, `Relay`). `VoiceCore` has one function for
each stretch of code between taking and releasing the runtime's mutex. `VoiceMachine` lets the actors
interleave: the single UDP loop with a program counter, and the session readers, the expiry loop, the
HTTP handlers and `Close` as a bag of work begun and not finished. `VoiceRuns` states what holds after
every sequence of actions. The class `VoiceRuntime.Runtime` has the stretches as methods on mutable
fields and puts them together into the machine's steps, so that these theorems hold of the object.
`LeaseProtocol` adds the companions and a network that delays, reorders, repeats and loses messages.
`Relay` gives the plain UDP relay its own sections, shows that its runs are voice runs under one lease
that everybody shares, and takes the theorems over.

Three things one would expect are false, and are settled exactly. Sessions created minus sessions
reported closed can stay above the table for good (`VoiceTraces.GaugeCanDrift`);
`VoiceGauge.GaugeExactIff` says exactly when it does not. A session can stay in the table after its
registration is gone, with nobody about to close it (`VoiceTraces.SessionCanOutliveLease`);
`VoiceCoverage.CoveredIff` says exactly when that cannot happen. The merge of routes can depend on the
order of its inputs (`MergeOrder.StaticOrderCanShow`); `MergeOrder.MergeOrderFreeIff` says exactly when
it does not, and valid configurations are among those cases.

**Route snapshots** (`HostAddr`, `HostPort`, `RouteConfig`, `Discovery`, `Merge`, `MergeProperties`,
`MergeOrder`, `Routing`, `Snapshot`, `Pipeline`, `Watch`, `Server`). From Kubernetes Service annotations
through duplicate cancellation, the watch cache, the merge with static routes, the second validation and the
router's index to the snapshot that the server swaps in. The chain is proved equal to a short lookup:
the static owner of the host, else the only service that offers it, else the default or nothing.

**Rate limiting** (`RateLimit`, `IdealLimiter`). The token buckets with idle expiry and eviction.
Forgetting idle buckets is unobservable if and only if the timeout is long enough to refill one.

**Wire formats** (`Bits`, `VarInt`, `Framing`, `HandshakeGrammar`, `Envelope`, `NetAddr`, `ProxyHeader`,
`Intake`). Round trips on 32-bit words with the loops' own bit operations, grammars that say exactly
which bytes are read, and byte transparency from the client's stream to the backend. Section 4 of
RFC 9562 gives the UUID text; sections 2.1 and 2.2 of the HAProxy PROXY protocol specification give
the header.

**Watch supervision** (`Supervisor`). The retry loop and its backoff over every sequence of outcomes.

`GoText`, `Lists` and `Sorting` hold what the others share: Go's string functions, collecting and
counting over lists, and stable sorting.

## Model

| member | source | states |
|---|---|---|
| `VoiceMachine.StepInv` | internal/voicechat/runtime.go:214-791 | every action of every actor keeps the machine's invariant, and no removed session comes back |
| `VoiceRuns.Reachable` | internal/voicechat/runtime.go:214-791 | the invariant holds after every sequence of actions, in every interleaving |
| `VoiceRuns.SessionForExact` | internal/voicechat/runtime.go:269-400 | the session that sessionFor ends up with is for the packet's player and client, carries the backend, lease and generation of the registration read when the packet arrived, although the lock is released three times meanwhile, and that backend and lease were installed by an earlier PUT |
| `VoiceRuns.TablesSafe` | internal/voicechat/runtime.go:379-399 | every session in the table is open and filed under its own key, both tables stay within their limits, no socket is closed twice |
| `VoiceRuns.NeverBack` | internal/voicechat/runtime.go:714-745 | a session seen in the table and later not in it is never in it again and never passes sessionIsCurrent again |
| `VoiceRuns.ClosedForever` | internal/voicechat/runtime.go:214-237 | after Close both tables stay empty whatever happens |
| `VoiceRuns.InsertOutcome` | internal/voicechat/runtime.go:379-399 | a dialled session is refused exactly when the runtime is closed or the table is exactly full; the branch for an existing session cannot be reached |
| `VoiceRuns.PutOutcome` | internal/voicechat/runtime.go:551-572 | a PUT is refused exactly when the runtime is closed or a new player meets an exactly full table |
| `VoiceRuns.EntersIff` | internal/voicechat/runtime.go:379-399 | in every state: a session enters the table exactly when the UDP loop files a dialled one and the runtime is open and has room |
| `VoiceRuns.LeavesIff` | internal/voicechat/runtime.go:325-739 | in every sound state: a session leaves the table exactly by reassignment, by a sweep of its player, by its own close, or by Close |
| `VoiceRuns.BackendsConfigured` | internal/voicechat/runtime.go:344-377 | every session ever dialled goes to a configured backend, whatever registrations name |
| `VoiceRuns.InstalledByPut` | internal/voicechat/runtime.go:528-589 | every player, backend and lease on record goes back to a PUT in the run that was accepted |
| `VoiceGauge.GaugeLaw` | internal/voicechat/runtime.go:772-791 | sessions created minus sessions reported closed is the table plus the removals still to be closed plus the closings that went unreported, hence never below the table |
| `VoiceGauge.GaugeExactIff` | internal/voicechat/runtime.go:729-739 | with nothing left to close, the gauge equals the table if and only if no closeWithoutMetric ever ran between a session's removal and its remover's close |
| `VoiceGauge.GaugeExactUninterrupted` | internal/voicechat/runtime.go:714-739 | when each removal goes on to its close uninterrupted, the gauge equals the table between operations |
| `VoiceGauge.DriftStays` | internal/voicechat/runtime.go:772-791 | a session lost to the gauge is lost for good: from then on the gauge is above the table |
| `VoiceGauge.StolenStep` | internal/voicechat/runtime.go:729-791 | the one kind of action that adds to the unreported closings, and exactly what it adds |
| `VoiceTraces.GaugeCanDrift` | internal/voicechat/runtime.go:297-301 | under every configuration with a backend there is a run that leaves the gauge at one with an empty table and nothing to do |
| `VoiceCoverage.CoveredIff` | internal/voicechat/runtime.go:306-399 | each session in the table always matches its player's live registration or is about to be swept, if and only if no lookup finds a registration expired under a session and no session is filed for a registration already gone |
| `VoiceCoverage.CoverStep` | internal/voicechat/runtime.go:306-323 | the same for one action from any covered state |
| `VoiceTraces.SessionCanOutliveLease` | internal/voicechat/runtime.go:314-320 | under every configuration with a backend there is a run after which a player without registration has a session that nobody is about to close |
| `VoiceCore.KeysInjective` | internal/voicechat/runtime.go:811-813 | joining player and client address into one session key loses nothing |
| `VoiceRuntime.Runtime.constructor` | internal/voicechat/runtime.go:134-143 | a new runtime is the empty history's state |
| `VoiceRuntime.Runtime.Perform` | internal/voicechat/runtime.go:214-791 | one step of any actor, put together from the lock sections on mutable fields, takes the object to the next state of the machine and adds to its history |
| `VoiceRuntime.Runtime.PerformAll` | internal/voicechat/runtime.go:214-791 | after any sequence of actions the object is where the run leads, so every theorem about runs is about the object |
| `VoiceRuntime.ObjectSafe` | internal/voicechat/runtime.go:214-791 | whatever was performed on the object, its tables are within limits, its sessions open, no socket was closed twice, and its metrics obey the gauge law |
| `VoiceRuntime.Runtime.ExpireRegistrations` | internal/voicechat/runtime.go:457-480 | the deleting loop leaves exactly the unexpired, whatever order the map yields |
| `VoiceRuntime.Runtime.DropPlayer` | internal/voicechat/runtime.go:714-723 | the deleting loop removes and returns exactly the player's sessions |
| `VoiceRuntime.Runtime.SessionIsCurrent` | internal/voicechat/runtime.go:741-745 | a session that passes the reader's check is open and has been in the table without a break since it entered |
| `LeaseProtocol.LastPutRules` | internal/voicechat/runtime.go:558-572 | a player's registration is the one the last accepted PUT installed, apart from its expiry |
| `LeaseProtocol.OldLeaseIsDead` | internal/voicechat/runtime.go:598-630 | once a later PUT for the player is accepted, no message with the earlier lease, from anyone, for any player, however late, refreshes or deletes anything |
| `LeaseProtocol.GenerationCounts` | internal/voicechat/runtime.go:558-569 | a generation is the number of accepted PUTs since the player was last absent |
| `LeaseProtocol.ExpiryFollowsRenewal` | internal/voicechat/runtime.go:542-608 | a registration runs out one TTL after its last renewal, which is the last accepted PUT for the player or a later refresh that carried that PUT's triple while the player was registered |
| `LeaseProtocol.LapsesAfterTtl` | internal/voicechat/runtime.go:306-323 | the expiry tick and a packet's lookup agree: either removes it exactly when more than one TTL has passed since then |
| `LeaseProtocol.AlwaysGuarded` | companion/core/src/main/java/com/alecofc/mcrouter/voicechat/companion/VoiceChatRegistrationManager.java:39-59 | in every run no unregister for a lease has been sent while its companion tracks it or has yet to read it |
| `LeaseProtocol.HolderKeeps` | companion/core/src/main/java/com/alecofc/mcrouter/voicechat/companion/VoiceChatRegistrationManager.java:39-109 | while a companion tracks the live lease, an event ends the registration exactly when it is an accepted PUT for the player, a lookup or tick past its expiry, or Close |
| `LeaseProtocol.HolderKeepsThroughout` | companion/core/src/main/java/com/alecofc/mcrouter/voicechat/companion/VoiceChatRegistrationManager.java:39-109 | over runs: a registration tracked all along stands to the end if and only if none of these happens on the way |
| `LeaseProtocol.SpeaksIff` | internal/voicechat/runtime.go:598-630 | the three-way comparison passes exactly when the player is registered and the message carries backend, owner and lease of the last PUT accepted for the player |
| `LeaseProtocol.RefreshOutcome` | internal/voicechat/runtime.go:598-608 | a refresh that arrives sets the expiry to one TTL from then exactly when it carries the triple of the last accepted PUT of a registered player, and otherwise changes nothing |
| `LeaseProtocol.DeleteOutcome` | internal/voicechat/runtime.go:620-630 | a delete that arrives removes the registration exactly under the same condition |
| `LeaseProtocol.EndsIff` | internal/voicechat/runtime.go:306-630 | the four ways a registration ends: a delete with its own triple, a lookup or a tick past its expiry, Close |
| `LeaseProtocol.RegisterCompletes` | internal/voicechat/runtime.go:551-589 | after any run, a companion that registers with a gateway that is open and has room ends up with the same lease as the gateway, good for one TTL; a closed or full gateway is unchanged |
| `LeaseProtocol.LeaseOnce` | internal/voicechat/runtime.go:696-702 | no two accepted PUTs share a lease |
| `Companion.Retry` | companion/core/src/main/java/com/alecofc/mcrouter/voicechat/companion/VoiceChatRegistrationManager.java:111-122 | the first answer of at most three attempts; failure exactly when all three fail |
| `Companion.Manager.Adopt` | companion/core/src/main/java/com/alecofc/mcrouter/voicechat/companion/VoiceChatRegistrationManager.java:44-48 | taking over a granted lease is the protocol's read-answer step in whatever state the network is, and gives up the superseded lease |
| `Companion.Manager.RegisterBeforeUdp` | companion/core/src/main/java/com/alecofc/mcrouter/voicechat/companion/VoiceChatRegistrationManager.java:39-50 | registering fails exactly on a full table or three failures, and otherwise adopts the first answer |
| `Companion.Manager.Leave` | companion/core/src/main/java/com/alecofc/mcrouter/voicechat/companion/VoiceChatRegistrationManager.java:52-59 | unregistering takes exactly the protocol's unregister step |
| `Companion.Manager.Renew` | companion/core/src/main/java/com/alecofc/mcrouter/voicechat/companion/VoiceChatRegistrationManager.java:83-95 | refreshing sends exactly the tracked lease and keeps the entry |
| `Relay.RelayIsVoice` | internal/udprelay/relay.go:200-267 | every relay run is a voice run under one shared lease, state for state |
| `Relay.PacketIsVoice` | internal/udprelay/relay.go:200-215 | the relay's one lookup section does what three voice sections do |
| `Relay.ActIsVoice` | internal/udprelay/relay.go:174-409 | every other relay step, on the relay's own sections, is the voice step it stands for |
| `Relay.RelaySafe` | internal/udprelay/relay.go:248-266 | every relay session in the table is open, the table stays within its limit, no socket is closed twice |
| `Relay.RelayNeverBack` | internal/udprelay/relay.go:349-365 | a removed relay session never comes back and never passes sessionIsCurrent |
| `Relay.RelayClosedForever` | internal/udprelay/relay.go:154-172 | after Close the relay's table stays empty |
| `Relay.RelayGauge` | internal/udprelay/relay.go:392-409 | the relay's gauge law, and equality exactly when no closeWithoutMetric overtook a remover |
| `Relay.RelayCanDrift` | internal/udprelay/relay.go:349-359 | a relay run after which the gauge is one above an empty table |
| `HostAddr.NormalizeIff` | internal/hostaddr/hostaddr.go:15-56 | Normalize accepts exactly the spellings of canonical hosts (any case, surrounding space, a NUL tail, a trailing dot, brackets around an IP literal) and returns the host spelled |
| `HostAddr.FixedPoints` | internal/hostaddr/hostaddr.go:15-56 | the fixed points of Normalize are exactly the canonical addresses |
| `HostAddr.OutputCanonical` | internal/hostaddr/hostaddr.go:15-56 | everything Normalize returns is canonical |
| `HostAddr.Idempotent` | internal/hostaddr/hostaddr.go:15-56 | normalising twice is normalising once |
| `HostAddr.NormalizeAddress` | internal/hostaddr/hostaddr.go:15-56 | the function with its loops computes Normalize |
| `HostAddr.ScanLabel` | internal/hostaddr/hostaddr.go:38-53 | the byte scan reports the first objection to a label |
| `HostAddr.ScanLabels` | internal/hostaddr/hostaddr.go:36-54 | the label scan reports the first objection to any label |
| `HostPort.SplitJoin` | internal/discovery/merge.go:152-178 | joining and splitting host and port undo each other on every host and port without brackets |
| `HostPort.SplitIff` | internal/discovery/merge.go:152-178 | splitting succeeds exactly on host:port and [host]:port, with that host and port |
| `HostPort.AtoiItoa` | internal/discovery/kubernetes/annotations.go:86-101 | reading a printed number gives it back |
| `HostPort.AtoiSigned` | internal/discovery/kubernetes/annotations.go:90-93 | one sign may precede the digits |
| `HostPort.ItoaUnique` | internal/discovery/kubernetes/annotations.go:95-103 | the only digits without a needless zero that read as a number are the printed ones |
| `GoText.LessIff` | internal/discovery/kubernetes/controller.go:118-148 | the byte order used by every comparison: decided at the first difference, a proper prefix first |
| `RouteConfig.ValidateDefault` | internal/config/config.go:441-460 | no error exactly when the policy is deny, or default with a backend, and a backend given is valid and in mode allow |
| `RouteConfig.ValidateOverride` | internal/config/config.go:539-560 | no error exactly when both texts are set and no number is negative |
| `RouteConfig.ValidateRoutes` | internal/config/config.go:461-491 | the route loop reports no error exactly when every route is sound and no address, after normalisation, is claimed twice |
| `RouteConfig.ScanIdentities` | internal/config/config.go:461-491 | the duplicate scan over one route's address and aliases, both directions |
| `RouteConfig.ValidSnoc` | internal/config/config.go:461-491 | what adding one route asks of the routes before it |
| `Discovery.ParsedIff` | internal/discovery/kubernetes/annotations.go:62-104 | a service gets a route exactly when its annotations publish one: canonical prefix, enabled, labels, a host that normalises, one of its ports; the backend is name.namespace.svc.cluster.local and that port in decimal |
| `Discovery.SkipReason` | internal/discovery/kubernetes/annotations.go:62-104 | the reason a service is skipped for is the first check it fails |
| `Discovery.PrefixIff` | internal/discovery/kubernetes/annotations.go:160-178 | the checks of the annotation prefix together ask for a canonical address |
| `Discovery.BuildDiscoveredRoutes` | internal/discovery/kubernetes/controller.go:37-99 | the loops compute the declarative result: routes of unrivalled hosts, everything else skipped with its reason, sorted |
| `Discovery.BuildOrderFree` | internal/discovery/kubernetes/controller.go:37-157 | the result for one order of the services is the result for every order |
| `Discovery.BuildUnique` | internal/discovery/kubernetes/controller.go:37-157 | a service list has one result |
| `Discovery.NothingLost` | internal/discovery/kubernetes/controller.go:50-116 | routes plus skipped are the services, and each reason count is the exact number of skipped resources with that reason |
| `Discovery.SkippedIff` | internal/discovery/kubernetes/controller.go:50-116 | the skipped resources are exactly the services with something wrong, under that reason, and the candidates whose host was found more than once |
| `Discovery.BuildSorted` | internal/discovery/kubernetes/controller.go:68-157 | routes and duplicate hosts come out in byte order of the host, skipped resources by reason and host |
| `Discovery.Cancel` | internal/discovery/kubernetes/controller.go:72-99 | hosts found more than once cancel each other |
| `Discovery.CountHosts` | internal/discovery/kubernetes/controller.go:72-75 | the host counts are exact |
| `Discovery.AddSkipped` | internal/discovery/kubernetes/controller.go:110-116 | list and counts grow together |
| `Discovery.SortedKeys` | internal/discovery/kubernetes/controller.go:150-157 | the keys of a map, sorted, do not depend on its iteration order |
| `Discovery.CandidateOrder` | internal/discovery/kubernetes/controller.go:118-129 | lessCandidate is total up to equal records |
| `Discovery.SkippedOrder` | internal/discovery/kubernetes/controller.go:131-148 | lessSkipped is total up to equal records |
| `Merge.MergeRoutes` | internal/discovery/merge.go:56-142 | the loops compute the declarative merge: static routes first, surviving discovered ones, everything else ignored with its reason, sorted |
| `Merge.TakeStatics` | internal/discovery/merge.go:56-85 | canonical static routes and exactly the hosts they take |
| `Merge.TakeCandidates` | internal/discovery/merge.go:86-101 | accepted candidates, exact host counts, and the invalid ones set aside |
| `Merge.Admit` | internal/discovery/merge.go:103-131 | which sorted candidates survive, and why the others do not |
| `Merge.AddIgnored` | internal/discovery/merge.go:144-150 | list and counts grow together |
| `MergeProperties.MergedClaims` | internal/discovery/merge.go:56-142 | who claims a host after the merge: the static routes, and one discovered route exactly when no static route and no second discovered one names it |
| `MergeProperties.MergeStaysValid` | internal/discovery/merge.go:56-142 | merging anything into valid static routes gives valid routes |
| `MergeProperties.NothingLost` | internal/discovery/merge.go:86-150 | merged plus ignored are static plus discovered, and each reason count is exact |
| `MergeProperties.IgnoredIff` | internal/discovery/merge.go:86-131 | the ignored routes are exactly the invalid ones, those found twice and those a static route overrides, each under its own reason |
| `MergeProperties.AcceptedIff` | internal/discovery/merge.go:152-208 | the merge accepts a discovered route exactly when its host normalises and its backend is a Service's cluster name and a valid port, in canonical form |
| `MergeOrder.MergeOrderFreeIff` | internal/discovery/merge.go:103-249 | the whole result is independent of the order of both inputs if and only if static routes that lessConfigRoute cannot tell apart are the same once canonical |
| `MergeOrder.MergeOrderFree` | internal/discovery/merge.go:103-249 | under that condition any two merges of permuted inputs are equal |
| `MergeOrder.ValidIsOrderFree` | internal/proxy/server.go:88-108 | routes that Validate accepts meet it, so BuildRouteSnapshot never shows an order |
| `MergeOrder.MergedSorted` | internal/discovery/merge.go:133-135 | under that condition merged routes come out by address and then by backend |
| `MergeOrder.FirstWithKey` | internal/discovery/merge.go:133-135 | the final sort is stable: a static route put first comes first among the merged routes with its key |
| `Sorting.SortStable` | internal/discovery/merge.go:133-138 | elements of which none is less than another keep their order |
| `MergeOrder.StaticOrderCanShow` | internal/discovery/merge.go:224-229 | two routes that break the condition and show their order; Validate rejects such routes before BuildRouteSnapshot merges |
| `MergeProperties.EmittedAccepted` | internal/discovery/merge.go:152-208 | every route that discovery emits passes the merge's validation unchanged |
| `MergeProperties.ServiceBackendAccepted` | internal/discovery/merge.go:152-208 | every generated service backend passes validation unchanged |
| `MergeProperties.AcceptedShape` | internal/discovery/merge.go:152-178 | what the merge accepts, configuration validation accepts |
| `Routing.New` | internal/router/router.go:45-74 | fails exactly on an invalid configuration and otherwise indexes every identity of every route |
| `Routing.OwnerIsClaimant` | internal/router/router.go:52-73 | with no address claimed twice, a host's entry is the route that claims it |
| `Routing.EntryOf` | internal/router/router.go:52-73 | an entry is one of the routes that answer to the host, under its canonical address; a source that was not set reads static |
| `Routing.SelectNormalized` | internal/router/router.go:76-97 | selecting a normalised address selects what the raw address selects, and is never an invalid-address error |
| `Snapshot.BuildRouteSnapshot` | internal/proxy/server.go:88-108 | succeeds exactly on a valid configuration: the second validation never fails |
| `Snapshot.SelectIsLookup` | internal/router/router.go:76-97 | for every configuration, discovered list and address, Select is the three-tier lookup, written out field by field: static owner, else the only accepted discovered route, else the default backend under the policy "default" if there is one, else no route |
| `Snapshot.ThirdTier` | internal/router/router.go:76-97 | a host that nobody claims is denied exactly when the policy is not "default" or there is no default backend, and otherwise gets that backend matched by "default" |
| `Snapshot.OwnerStatic` | internal/discovery/merge.go:56-85 | a host taken by a static route goes to that route, canonicalised |
| `Snapshot.OwnerDiscovered` | internal/discovery/merge.go:103-131 | a host named by one accepted discovered route only goes to that route |
| `Pipeline.EndToEnd` | internal/proxy/server.go:88-108 | from service annotations to Select: static owner, else the route of the only service that offers the host, else default or deny |
| `Pipeline.OnlyStaticPrecedence` | internal/discovery/merge.go:107-131 | in the chain, the merge turns a discovered route down only for static precedence |
| `Pipeline.NamedIsOnlyOffer` | internal/discovery/kubernetes/controller.go:68-92 | discovery passes on a host's route exactly when one service alone offers it |
| `Pipeline.RoutesAccepted` | internal/discovery/merge.go:152-178 | every discovered route of the chain passes the merge's validation unchanged |
| `Watch.Run` | internal/discovery/kubernetes/watch_controller.go:67-108 | after the first list and after each event the published result is the build of every fresh listing of the cluster at that moment; it stops exactly at an error event |
| `Watch.InitialServices` | internal/discovery/kubernetes/watch_controller.go:110-124 | the cache mirrors the cluster that was listed |
| `Watch.ApplyWatchEvent` | internal/discovery/kubernetes/watch_controller.go:126-150 | one event keeps the cache a mirror of the changed cluster |
| `Watch.UpdateSink` | internal/discovery/kubernetes/watch_controller.go:152-166 | whatever order the map yields, the result is the build of every fresh listing |
| `Watch.ListingExists` | internal/discovery/kubernetes/watch_controller.go:110-124 | every cluster has a listing |
| `Watch.KeysDiffer` | internal/discovery/kubernetes/watch_controller.go:168-170 | namespace and name are told apart by the cache key |
| `Server.Server.constructor` | internal/proxy/server.go:128-154 | a new server is at generation 1 with the given snapshot |
| `Server.Server.Reload` | internal/proxy/server.go:169-216 | a reload applies the configuration with the routes in force, or changes nothing |
| `Server.Server.ReloadConfigWithDiscovery` | internal/proxy/server.go:184-216 | applies configuration and routes together, or changes nothing |
| `Server.Server.UpdateDiscoveredRoutes` | internal/proxy/server.go:228-268 | applies the routes under the configuration in force, or changes nothing, wherever it is cancelled |
| `Server.Server.UpdateRouteSnapshotLocked` | internal/proxy/server.go:285-299 | the swap and its generation |
| `Server.Server.PerformAll` | internal/proxy/server.go:169-299 | over every sequence of operations the state is the snapshot of the last applied configuration and routes, and the generation counts the successes |
| `Server.ActiveLookup` | internal/proxy/server.go:285-299 | whatever ran before, connections are routed by the three-tier lookup over what was last applied |
| `RateLimit.Limiter.Allow` | internal/ratelimit/limiter.go:43-48 | a disabled limiter admits everyone, an enabled one nobody without an address, IPv4-mapped addresses count as IPv4 |
| `NetAddr.UnmapIff` | internal/ratelimit/limiter.go:43-48 | which addresses are IPv4-mapped and the IPv4 address they map |
| `RateLimit.CallLaw` | internal/ratelimit/limiter.go:50-76 | one call: what the bucket holds by rate, burst and time passed, admission exactly when that is at least one token, what is left afterwards, and that the clock never goes back |
| `RateLimit.OthersLaw` | internal/ratelimit/limiter.go:50-99 | which buckets of other addresses a call forgets, and that it leaves the rest alone |
| `RateLimit.EvictsOldest` | internal/ratelimit/limiter.go:86-99 | a live bucket is forgotten only when the table is full, and then none has been idle longer |
| `RateLimit.PatientIsAdmitted` | internal/ratelimit/limiter.go:50-76 | after any run, whatever others did, a call at least 1/rate seconds after every earlier call of its address is admitted |
| `RateLimit.Limiter.AllowAt` | internal/ratelimit/limiter.go:50-76 | one call is one step of the limiter, with some least recently seen victim |
| `RateLimit.Limiter.DeleteExpired` | internal/ratelimit/limiter.go:78-84 | the loop leaves exactly the entries that are not idle |
| `RateLimit.Limiter.DeleteOldest` | internal/ratelimit/limiter.go:86-99 | the scan removes one entry with the least lastSeen |
| `RateLimit.WindowBound` | internal/ratelimit/limiter.go:50-76 | in a window in which an address's entry is not deleted, admissions are at most burst + rate * (latest - first), timestamps in any order |
| `RateLimit.RunKeepsBounds` | internal/ratelimit/limiter.go:43-99 | over every run the table stays within its limit and tokens between zero and burst |
| `RateLimit.StepKeepsBounds` | internal/ratelimit/limiter.go:50-99 | the same for one call |
| `IdealLimiter.TransparentIff` | internal/ratelimit/limiter.go:50-84 | idle expiry is unobservable if and only if rate * IdleTimeout reaches the burst |
| `IdealLimiter.TracksRun` | internal/ratelimit/limiter.go:50-84 | under that condition all decisions are those of a limiter that never forgets |
| `IdealLimiter.ForgettingShows` | internal/ratelimit/limiter.go:78-84 | otherwise a burst, a pause and a burst are answered differently |
| `VarInt.RoundTrip` | internal/mcproto/varint.go:23-53 | every 32-bit value and suffix: one to five bytes, read back exactly |
| `VarInt.DecodeLocal` | internal/mcproto/varint.go:23-38 | what is decoded depends on the consumed bytes alone |
| `Bits.OrIsAdd` | internal/mcproto/varint.go:32 | or-ing words that share no bit adds the numbers they spell |
| `Bits.Cut` | internal/mcproto/varint.go:43-44 | shifting right by seven divides by 128 and the mask is the remainder |
| `VarInt.BitRoundTrip` | internal/mcproto/varint.go:23-53 | on 32-bit words with or, and, and shifts: every word survives writing and reading with any suffix, in one to five bytes |
| `VarInt.ReadBitsMeaning` | internal/mcproto/varint.go:23-38 | the decoder on bits computes the reference decoder on every byte string |
| `VarInt.WriteBitsIsEncode` | internal/mcproto/varint.go:40-53 | the encoder on bits computes the reference encoder on every word |
| `VarInt.GroupIsAdded` | internal/mcproto/varint.go:32 | or-ing a shifted group into the word adds its value, modulo 2^32 for the fifth |
| `VarInt.Reader.ReadVarInt` | internal/mcproto/varint.go:23-38 | the loop on bits decodes and consumes exactly what it returns as raw |
| `VarInt.EmitVarInt` | internal/mcproto/varint.go:40-53 | the loop on bits emits the encoding |
| `VarInt.AvailabilityReadVarInt` | internal/availability/monitor.go:153-165 | succeeds exactly when ReadVarInt does, with the same value and length |
| `VarInt.VoiceReadVarInt` | internal/voicechat/udp.go:91-108 | succeeds exactly when ReadVarInt does and the value is not negative |
| `Framing.PacketRoundTrip` | internal/mcproto/status.go:38-69 | for every packet: ReadPacket inverts BuildPacket exactly within the limit, leaving the suffix, and fails beyond it up to lengths that 32 bits cannot tell apart |
| `Framing.FrameRoundTrip` | internal/mcproto/status.go:38-60 | for every payload: a frame reads back exactly when its length is within the limit |
| `Framing.FrameRead` | internal/mcproto/status.go:38-69 | what a frame of any length reads back as, its length being written as 32 bits |
| `Framing.BuildPacket` | internal/mcproto/status.go:62-69 | the appending loop builds the packet |
| `Framing.ReadHandshake` | internal/mcproto/handshake.go:55-82 | the returned raw bytes are exactly the consumed ones |
| `Framing.HandshakeTransparent` | internal/mcproto/handshake.go:55-82 | raw bytes plus unread rest are the stream unchanged |
| `Framing.ParsedAddress` | internal/mcproto/handshake.go:84-134 | a parsed handshake has an address that normalises |
| `Framing.HandshakeRoundTrip` | internal/mcproto/handshake.go:55-152 | every handshake packet is read back as written for exactly the acceptable addresses and the three supported next states, leaving the suffix, and is otherwise rejected |
| `HandshakeGrammar.HandshakeExact` | internal/mcproto/handshake.go:55-82 | reading succeeds with a handshake, raw bytes and a rest exactly when the stream is one framed handshake with those values, followed by the rest |
| `HandshakeGrammar.PayloadExact` | internal/mcproto/handshake.go:84-152 | the payloads accepted are exactly id 0, version, an address in limits that normalises, two port bytes and a next state from 1 to 3, with nothing behind |
| `HandshakeGrammar.FrameExact` | internal/mcproto/status.go:38-60 | a frame is read exactly where a length and that many bytes, within the limit, stand |
| `Framing.ProbeParses` | internal/availability/monitor.go:125-132 | a probe's bytes parse back to version 767, its address and port, and next state 1, for exactly the acceptable addresses |
| `Envelope.ParseClientPacket` | internal/voicechat/udp.go:54-89 | accepts exactly magic, 16 bytes, length and that many bytes |
| `Envelope.UuidRoundTrip` | internal/voicechat/udp.go:30-125 | parsing a UUID's text gives the UUID back |
| `Envelope.ParseIff` | internal/voicechat/udp.go:111-125 | a text parses exactly to the sixteen bytes that its digits spell, in either case, dashes aside |
| `Envelope.HexIsLower` | internal/voicechat/udp.go:30-42 | the text of a UUID has lower-case digits |
| `Envelope.CanonicalPath` | internal/voicechat/runtime.go:664-667 | the control API takes exactly the canonical texts, and no two UUIDs share one |
| `ProxyHeader.HeaderExact` | internal/proxyprotocol/proxyprotocol.go:45-115 | reading succeeds with an address and a rest exactly when the stream is one well-formed header for it, by a grammar of its own, followed by the rest |
| `ProxyHeader.V1Exact` | internal/proxyprotocol/proxyprotocol.go:56-80 | the same for version 1: the line PROXY, family, four fields, CRLF, the source of that family |
| `ProxyHeader.V1SourceIff` | internal/proxyprotocol/proxyprotocol.go:70-79 | which line names which source |
| `ProxyHeader.V2Exact` | internal/proxyprotocol/proxyprotocol.go:82-115 | the same for version 2: signature, version and command, family, length, and source bytes that spell the address |
| `ProxyHeader.V2SourceIff` | internal/proxyprotocol/proxyprotocol.go:99-111 | which block names which source |
| `ProxyHeader.ReadHeader` | internal/proxyprotocol/proxyprotocol.go:45-54 | the reader-driven form agrees and consumes exactly the header |
| `ProxyHeader.ReadV1` | internal/proxyprotocol/proxyprotocol.go:56-80 | the byte-by-byte loop |
| `ProxyHeader.ReadV2` | internal/proxyprotocol/proxyprotocol.go:82-115 | the fixed part, then as many bytes as it announces |
| `Intake.Forward` | internal/proxy/server.go:449-571 | the bytes consumed are one header, if one is due, followed by the raw handshake returned, which is what the backend gets; each stage fails exactly when its input is malformed, and then nothing is sent |
| `Intake.WriteAll` | internal/proxy/server.go:896-908 | in order and complete on success, a prefix on failure, whatever each write takes |
| `Intake.RouteAddressSelects` | internal/mcproto/handshake.go:47-53 | after a handshake the route address is not empty, selects what the raw address selects, and is never invalid |
| `Supervisor.Run` | internal/discovery/kubernetes/watch_supervisor.go:79-165 | every retried run waited the delay of its failure streak, without jitter initial * factor^(streak - 1) up to the maximum; an error comes back exactly for a failure before any sync while ready is open |
| `Supervisor.SyncedByIff` | internal/discovery/kubernetes/watch_supervisor.go:79-125 | synced is known exactly when some run so far has synced |
| `Supervisor.DelayLaw` | internal/discovery/kubernetes/watch_supervisor.go:202-227 | the delay for every attempt: initial * factor^(attempt - 1) up to the maximum, and with jitter that times 1 - jitter + 2 * random * jitter, again up to the maximum |
| `Supervisor.DelayRecurrence` | internal/discovery/kubernetes/watch_supervisor.go:202-227 | without jitter the first delay is the initial one and each next is the factor times the last, up to the maximum |
| `Supervisor.StreakCounts` | internal/discovery/kubernetes/watch_supervisor.go:79-125 | the streak counts failures since and including the last synced run |
| `Supervisor.PlainRecurrence` | internal/discovery/kubernetes/watch_supervisor.go:202-227 | each further failure multiplies the wait by the factor, up to the maximum |
| `Supervisor.DelaysGrow` | internal/discovery/kubernetes/watch_supervisor.go:202-227 | without jitter delays never shrink and stay in (0, Max] |
| `Supervisor.DelaysReachMax` | internal/discovery/kubernetes/watch_supervisor.go:202-227 | without jitter delays reach Max and stay there |
| `Supervisor.DelayBounds` | internal/discovery/kubernetes/watch_supervisor.go:202-227 | with jitter every delay stays in [0, Max] |
| `Supervisor.WithDefaults` | internal/discovery/kubernetes/watch_supervisor.go:179-199 | defaults make any policy sane and leave a sane one alone |
| `Supervisor.UnsetPolicy` | internal/discovery/kubernetes/watch_supervisor.go:179-199 | an unset policy waits from 1 second by doubling up to 30 seconds without jitter |
| `Supervisor.DefaultsOnce` | internal/discovery/kubernetes/watch_supervisor.go:179-227 | applying the defaults twice changes no delay |

## Left out

- Sockets, HTTP, RakNet, fsnotify and client-go: only their outcomes appear, as parameters or free choices.
- Go's memory model, scheduling and liveness: a lock-to-unlock stretch is one step, any enabled step may come next, and only safety is stated.
- Order inside one actor: closings that one goroutine performs in turn are separate steps in any order, and any session that was ever in the table may be asked to close at any time; both allow more runs than the code has.
- Session objects: the model's sessions are values with an identity number, and lastActivity is not kept since any session may be found idle.
- Generations in `uint64` and counters in machine integers: unbounded here.
- Relay.RelayIsVoice: the relay is modelled on values, not as a class of its own; the backend address a resolver picks is not kept.
- LeaseProtocol.HolderKeepsThroughout: a late PUT counts as any other PUT: the one that arrives last wins, whichever was sent last.
- Companion.Manager.RegisterBeforeUdp: other calls on the same manager between its table check and the moment it adopts a lease are not interleaved, though that moment itself, `Adopt`, is proved for every network state; sleeping between attempts is not modelled.
- Unicode tables and `net.ParseIP`: a `Platform` record answers for trimming, lower-casing and UTF-8 validity of non-ASCII text and for IP literals; of the latter only the alphabet and the missing trailing dot are fixed.
- Watch.Run: namespaces are required not to contain a slash, which Kubernetes guarantees.
- Error texts: without the quoted values of the original where those do not decide anything.
- `Atoi` beyond 64 bits: the model's numbers do not overflow, and such text fails the range check that follows anyway.
- Configuration other than routes: one fixed predicate stands for the rest of `Validate`, YAML, environment and durations.
- Server.Server.UpdateDiscoveredRoutes: the three points at which a context may be cancelled are one flag.
- `UpdateConfig` and `UpdateRouteSnapshot`: they install a snapshot the caller built.
- Cloning of configurations and maps: values need none.
- Panics inside annotation parsing, which the original turns into a skip reason.
- Floating point in limiter and backoff: real numbers.
- Intake.Forward: client policy and rate limit are one answer, `admitted`, given by the caller.
- `internal/bedrockproxy`, `internal/bedrockroute`, `internal/clientpolicy`, `internal/configwatch`, `internal/scaler`, `internal/logging`, the metrics recorder, status JSON and the server plugins: thin wrappers or easy members beside these parts.
