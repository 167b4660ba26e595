# KubeTraffic, modelled

KubeTraffic compiles a declared, weighted route (`TrafficRoute`) into HAProxy configuration. A Go
controller validates the resource, finds the ready endpoints of every version, registers the route
with a Java control plane, adopts the effective weights it gets back, splits them over servers and
renders the file. The control plane stores policies with their history and an audit log, moves
canaries up a ladder of weights, and offers a distributed rate limiter and circuit breaker on top of
Redis. This project models that logic in Dafny and proves what it is for.

| files | contents |
|---|---|
| `Routes`, `Admission`, `Discovery`, `EffectiveWeights`, `RoutingModel`, `HAProxy`, `Compiler` | the route compiler, stage by stage, and its correctness up to the lines it means to write |
| `ProxyReader`, `CompiledFile`, `ResilienceFile` | a reader of the rendered text, and what the file makes a proxy do |
| `Cluster`, `Served` | ready pods, versions and ports read off the cluster itself, and which of them a request reaches |
| `RateLimiter`, `RateLimitRuns` | the fixed-window limiter over Redis with its local fallback, and runs of several replicas with outages |
| `CircuitBreaker`, `BreakerHistory`, `BreakerOutages`, `BreakerReplicas` | the breaker, its stored record as a function of the event history, with and without Redis, and interleaved replicas |
| `Wire`, `Store`, `PolicyService`, `Canary`, `Registration`, `Decisions`, `StoreRuns`, `CanaryRuns`, `CanaryAudit` | the control plane's tables and services, the decisions that reach the controller, and invariants of every run |
| `CrossPlane` | what a canary on the control plane does to the servers in the proxy |
| `Reconciler`, `Controller`, `ReconcilerRuns`, `Quiescence`, `Lifecycle` | one reconcile pass as a function and as the object that runs it, and runs against an environment that fails |
| `Wrappers`, `Integers`, `Strings`, `Sequences`, `Sorting` | shared vocabulary |

Code that changes things step by step is modelled by methods and classes, each tied by its `ensures`
to a function of its inputs or of the state before; the theorems are about those functions. Remote
calls are atomic steps that succeed, fail before they take effect, or fail after it. Clocks, random
UUIDs, what the cache shows and how every call fares are parameters of the step.

`dafny verify dfyconfig.toml` checks the whole project.

## Where the code and its documentation disagree

The model follows the code. In each case the exact condition is proved.

- `controller/api/v1alpha1/trafficroute_types.go:29` says "First match wins" of an ordered list; the
  renderer sorts by path length, so the longest prefix wins (`Compiler.ListOrderWinsIff`).
- `README.md:116` promises exact aggregate shares "regardless of replica count"; every server of a
  positive weight gets at least 1 and at most 256 (`RoutingModel.SumIsExactIff`).
- Other expectations hold only under a condition:
  - the endpoint port is independent of slice order exactly when the slices agree (`Discovery.PortIgnoresOrderIff`);
  - published canary weights chain exactly while a canary is rolled back at most once
    (`CanaryRuns.PublishedLogTelescopesIff`);
  - "every transition" of a canary reaches the data plane at once (`CanaryService.java:34-35`) exactly when every call
    that shifts it spells the namespace as the route's own; `""` is taken for `default` when the policy is looked up
    but published as it came (`CanaryRuns.EveryShiftWakesTheRouteIff`, `CanaryRuns.BlankNamespacePromotesUnheard`);
  - the namespace of the REST call is optional, yet a canary starts only with one (`CanaryRuns.StartSucceedsIff`);
  - the file routes as declared exactly when the host and every path are single plain words, which neither the webhook
    nor the schema's pattern `^/` (`controller/api/v1alpha1/trafficroute_types.go:38`) asks for
    (`CompiledFile.FileServesTheRouteIff`, `CompiledFile.AdmissibleNeedNotBePlain`);
  - the canary keeps its entry in the effective pair exactly when the two versions differ or share 50
    (`Canary.PairNamesTheCanaryWeight`);
  - audit targets can be read back exactly when the namespace has no slash (`StoreRuns.TargetIsReadableIff`), so the
    log rebuilds the policies exactly while none is created under such a namespace (`StoreRuns.AuditRebuildsIff`);
  - registering an unchanged spec changes nothing exactly when no mention of a version is shadowed by a later one
    with another weight (`Registration.UnchangedRulesAnnounceNothing`, `StoreRuns.RegistrationIsIdempotent`);
  - the failure count is the trailing run exactly while it fits an int (`BreakerHistory.CountIsTrailIffItFits`);
  - one more failure closes an open circuit exactly when its threshold lies beyond the new count and the circuit is
    neither on trial nor due for one (`BreakerHistory.OpenCircuitReadsClosedIff`);
  - polls go unnoticed by later readers exactly as long as they put no circuit on trial that those would still find
    open (`BreakerHistory.PollShowsIff`);
  - Redis expiry is invisible exactly up to half a window of clock skew (`RateLimitRuns.SkewToleranceIsExact`) and,
    over two windows, exactly when they are equally long (`RateLimitRuns.MixedWindowsAgreeIff`);
  - a host can be selected exactly when it is one plain lower-case word without comma or colon
    (`ProxyReader.HostIsReachableIff`);
  - the weights of a rule under a canary sum to 100 exactly when its other versions declare nothing
    (`CrossPlane.OverrideIsConserved`).

## Model

| member | source | states |
|---|---|---|
| Admission.ValidateTrafficRoute | controller/internal/webhook/v1alpha1/trafficroute_webhook.go:95-136 | The error list is empty if and only if the spec is admissible: host, rules, rooted and pairwise distinct paths (an empty path counting as "/"), and every rule in order, its resilience and security settings included. |
| Admission.ValidateRule | controller/internal/webhook/v1alpha1/trafficroute_webhook.go:111-133 | One rule adds no error if and only if its path is rooted and new, its backend named, its port in 1..65535, and its versions, strategy, resilience and security pass. |
| Admission.ValidateVersions | controller/internal/webhook/v1alpha1/trafficroute_webhook.go:138-166 | No error if and only if there are no versions, or names are non-empty and distinct, every weight is in 0..100, and the int32 sum is 100. |
| Admission.ValidateStrategy | controller/internal/webhook/v1alpha1/trafficroute_webhook.go:168-193 | No error if and only if the strategy is known and has the versions and steps it needs. |
| Admission.ValidateAscending | controller/internal/webhook/v1alpha1/trafficroute_webhook.go:195-208 | No error if and only if the steps lie in 0..100 and strictly ascend. |
| Admission.ValidateResilience | controller/internal/webhook/v1alpha1/trafficroute_webhook.go:210-232 | No error if and only if retry attempts lie in 0..10 and an enabled breaker has a threshold of at least 1 and no negative trial count. |
| Admission.ValidateSecurity | controller/internal/webhook/v1alpha1/trafficroute_webhook.go:234-258 | No error if and only if a rate limit is positive with no negative burst, and a JWT policy names its issuer and, if it has one, its secret. |
| Admission.WeightsReallySumTo100 | controller/internal/webhook/v1alpha1/trafficroute_webhook.go:157-164 | For up to 16 versions, the schema's limit, the wrapping int32 sum the check compares is the mathematical sum. |
| Admission.PortAndRetryLimits | controller/internal/webhook/v1alpha1/trafficroute_webhook.go:111-232 | In a rule that is fine otherwise, a port passes if and only if it lies in 1..65535, and retry attempts if and only if they lie in 0..10. |
| Admission.BreakerAndRateLimits | controller/internal/webhook/v1alpha1/trafficroute_webhook.go:218-246 | An enabled breaker passes if and only if its threshold is positive and its trial count not negative, a disabled one always; a rate limit if and only if it is positive with no negative burst. |
| Admission.TwoVersionsMaySplit | controller/internal/webhook/v1alpha1/trafficroute_webhook.go:138-166 | Two versions pass if and only if they have different non-empty names and non-negative weights that sum to 100. |
| Admission.CanaryMayStep | controller/internal/webhook/v1alpha1/trafficroute_webhook.go:195-208 | Two canary steps pass if and only if they strictly ascend within 0..100. |
| Discovery.FirstSelected | controller/internal/discovery/resolver.go:162-167 | The first version in declared order whose selector matches the pod's labels; none if and only if no selector matches. |
| Discovery.NewBuckets | controller/internal/discovery/resolver.go:137-150 | One empty bucket per version in declared order, or one unnamed bucket for a rule without versions. |
| Discovery.Resolve | controller/internal/discovery/resolver.go:67-135 | The counting loops produce the resolution given by filtering the endpoint list, which the rows on the cluster below read off the slices themselves. |
| Discovery.CountEndpoints | controller/internal/discovery/resolver.go:102-127 | One slice's loop extends every bucket and the unmatched count from the endpoints seen before to those plus the slice's: ready ones with their first address, others by number only. |
| Discovery.ReadyEndpointsAreConserved | controller/internal/discovery/resolver.go:102-127 | Ready counts over all versions plus the unmatched count equal the number of ready endpoints: each is counted exactly once. |
| Discovery.ResolutionConservesReadyEndpoints | controller/internal/discovery/resolver.go:96-134 | The same conservation read off a finished resolution, over all slices of the Service. |
| Discovery.BucketsIgnoreOrder | controller/internal/discovery/resolver.go:98-133 | Any permutation of the endpoints leaves all buckets, sorted addresses included, and the unmatched count unchanged. |
| Discovery.PortIgnoresOrderIff | controller/internal/discovery/resolver.go:99-101 | The endpoint port survives every reordering of the slices if and only if no two slices offer different non-zero ports for the name asked. |
| Discovery.NamedPortIsPreferred | controller/internal/discovery/resolver.go:170-186 | A slice answers with the port named like the Service port, else with its sole port, else with none, as its comment says; taking the sole port first makes no difference. |
| Discovery.BucketsIgnoreSliceOrder | controller/internal/discovery/resolver.go:98-134 | Permuting the slices, whatever ports they offer, leaves the whole resolution but the endpoint port unchanged. |
| Discovery.ResolutionIgnoresSliceOrder | controller/internal/discovery/resolver.go:67-135 | With slices that agree on the port the rule asks for, and on no other, the whole resolution is independent of the order in which the cache lists them. |
| Cluster.VersionServes | controller/internal/discovery/resolver.go:102-133 | A version's addresses are, sorted and with multiplicity, the first addresses of the endpoints that do not say they are not ready and whose pod carries its labels and no earlier version's; its counts are those of such endpoints, so there are no more addresses than ready endpoints. |
| Cluster.AddressIsListedIff | controller/internal/discovery/resolver.go:119-126 | An address is listed for a version if and only if some endpoint of some slice is ready, belongs to the version and has it as its first address; a version counts as ready if and only if some endpoint of it is. |
| Cluster.UnmatchedIff | controller/internal/discovery/resolver.go:112-117 | Nothing is counted as unmatched if and only if every ready endpoint of every slice belongs to some version. |
| Cluster.PortIsReachedOn | controller/internal/model/model.go:70-73 | The port of a rule's servers is exactly the one the first slice to offer any offers under the name of the Service's first port of that number, sole port or named one, and the Service's own number only if no slice offers one. |
| Cluster.BackedIff | controller/internal/discovery/resolver.go:67-135 | A resolution is complete if and only if the Service and its port exist, every ready endpoint belongs to a version, and every version has a ready endpoint. |
| EffectiveWeights.BuildRouteSpec | controller/internal/controlplane/client.go:111-161 | The loops build the wire spec rule by rule and version by version, with "/" for an empty path and durations as int32 milliseconds. |
| EffectiveWeights.WireCarriesTheRules | controller/internal/controlplane/client.go:111-161 | What is sent of every rule is what it declares: path, backend, strategy, versions and weights, retries and breaker field by field, and durations as whole milliseconds. |
| EffectiveWeights.WireIsUnambiguous | controller/internal/controlplane/client.go:117-134 | Distinct paths and version names stay distinct on the wire. |
| EffectiveWeights.PassThroughConfig | controller/internal/controlplane/client.go:169-179 | The loops copy every declared weight of every rule into the configuration. |
| EffectiveWeights.ApplyEffectiveWeights | controller/internal/controller/trafficroute_controller.go:337-372 | The copying loops replace exactly the weights the configuration names for a rule's path, the last mention of a path or version winning. |
| EffectiveWeights.AdoptKeepsShape | controller/internal/controller/trafficroute_controller.go:337-372 | Only weights change: rules, paths, backends, version names and labels survive, and each version gets its granted weight or keeps its own. |
| EffectiveWeights.PassThroughChangesNothing | controller/internal/controlplane/client.go:169-179 | Wire round trip: adopting the pass-through configuration of a route's own wire spec returns the declared routes unchanged. |
| RoutingModel.Apportion | controller/internal/model/model.go:103-125 | The array filled in place is the sequence of shares of the weight over n servers. |
| RoutingModel.SharesSumTo | controller/internal/model/model.go:103-125 | The shares sum to 0 for weight 0 or no servers, and to min(max(w, n), 256 n) otherwise. |
| RoutingModel.SharesAreFair | controller/internal/model/model.go:103-125 | Every share of a positive weight lies in 1..256, shares never increase along the list, and no two differ by more than one. |
| RoutingModel.SumIsExactIff | README.md:116-117 | The promised exact sum holds if and only if the weight is 0 or lies between the number of servers and 256 times it. |
| RoutingModel.BuildResilience | controller/internal/model/model.go:141-165 | None without a policy, else its timeouts in milliseconds, the per-try one winning if positive, its attempts, and its translated retry conditions. |
| RoutingModel.TokensTranslateEachOnce | controller/internal/model/model.go:130-163 | The words for retry conditions are exactly the translations of the known ones, without repetition. |
| RoutingModel.Build | controller/internal/model/model.go:59-93 | The nested loops build one rule per route with its translated resilience settings and every resolved address as a server; what these are in terms of the cluster and the declared policy is stated by the rows on requests and sections below. |
| RoutingModel.ServerNamesAreDistinct | controller/internal/model/model.go:77-89 | Names made of prefix, dash and index are pairwise distinct within a backend, even for versions such as "v1" and "v1-1". |
| HAProxy.SortRenders | controller/internal/proxy/render.go:112-121 | With distinct paths the comparator is a proper order and the sorted rules are a permutation in which no rule comes before one it should follow. |
| HAProxy.FirstMatch | controller/internal/proxy/render.go:63-66 | The first use_backend line whose host is among its hosts and whose path begins with one of its prefixes; none if and only if no line fires. |
| HAProxy.Normalize | controller/internal/proxy/haproxy.go:171-182 | The loop yields the trimmed, non-blank lines joined by line breaks. |
| HAProxy.NormalComparesSignificantLines | controller/internal/proxy/haproxy.go:171-182 | Two files normalise alike if and only if their trimmed non-blank lines are the same sequence, and normalising is idempotent. |
| HAProxy.Proxy.ApplyConfig | controller/internal/proxy/haproxy.go:74-86 | Success and the new live file for every outcome: unreadable, already live, stored, rejected, or stored with the reply lost. |
| HAProxy.AppliedConfigStays | controller/internal/proxy/haproxy.go:74-86 | After a successful apply the live file says what was asked, and applying the same file again changes nothing and succeeds. |
| ProxyReader.NormalDecidesReading | controller/internal/proxy/haproxy.go:74-86 | Two texts that the no-op test takes for equal are read alike by a proxy, so skipping the push changes nothing that is served. |
| ProxyReader.UnroutedLinesMakeASkeleton | controller/internal/proxy/render.go:24-56 | Leading sections made of any lines that open no backend, choose none and add no server are read as routing nothing. |
| ProxyReader.PlainTextReadsBack | controller/internal/proxy/render.go:57-102 | Round trip: with hosts, prefixes, names and addresses that are plain words, reading the written text word by word gives back exactly the routing lines and the servers it was written from. |
| ProxyReader.TextReadsBackIff | controller/internal/proxy/render.go:57-102 | With plain backends the text reads back as it was meant if and only if every host, prefix and backend name on its routing lines is plain. |
| ProxyReader.HostIsReachableIff | controller/internal/proxy/render.go:62-64 | Some request selects a host, by the line written for it and on that very host, if and only if the host is one plain word that can stand as a value, without upper-case ASCII letter, comma or colon. |
| Compiler.FirstMatchIsLongest | controller/internal/proxy/render.go:112-121 | For every request and every order an unstable sort may leave, the first rule that fires is the declared rule with the longest matching prefix, and none fires if and only if none matches. |
| Compiler.BuiltRuleBalances | controller/internal/model/model.go:59-93 | The built rule's server lines are, as a multiset of address, port and weight, exactly each version's addresses on the resolved port sharing that version's effective weight. |
| Compiler.CompilerIsCorrect | controller/internal/proxy/render.go:107-129 | For every admissible route whose Services exist, every control-plane answer and every rendering order, as to the lines and servers meant: a line fires if and only if the host matches and some prefix does, it is the line of the longest prefix, and the address, port and weight triples behind it are exactly the shares of its versions' effective weights on their resolved addresses. |
| Compiler.RenderIsCorrect | controller/internal/proxy/render.go:107-129 | Rendering succeeds for such a route, and the lines and servers it means to write implement the route in the sense of the previous row. |
| Compiler.VersionsGetTheirWeight | controller/internal/model/model.go:103-125 | In any file that implements a route, the lines on a version's own addresses weigh together 0 if its weight is 0, else min(max(w, n), 256 n), when no address serves two versions. |
| Compiler.ServersAreDistinct | controller/internal/model/model.go:79-89 | In every sorted server list compiled from an admissible route all names differ. |
| Compiler.ServersAscend | controller/internal/model/model.go:89 | The servers of every compiled rule are written in strictly ascending order of their names. |
| Compiler.ListOrderWinsIff | controller/api/v1alpha1/trafficroute_types.go:29 | The documented "first match wins" in list order agrees with the compiled route on every path if and only if no rule is listed after a shorter prefix of it. |
| Compiler.PathsAreCaught | controller/internal/proxy/render.go:64 | A rule catches every path that begins with its own, and one without a path every rooted path. |
| Compiler.OnlyTheyAreCaught | controller/internal/proxy/render.go:64 | Whichever rule a path reaches names its beginning, or has no path while the request's is rooted. |
| CompiledFile.PlainRouteIsServed | controller/internal/proxy/render.go:107-129 | For an admissible route whose host and paths are plain words, what a proxy reads from any text the no-op test takes for the rendered one implements the route: right line, right addresses, ports and weights for every request. |
| CompiledFile.FileServesTheRouteIff | controller/internal/proxy/render.go:107-129 | For an admissible route some request can ask for, a proxy that reads such a text implements the route if and only if its host and every path are single plain words. |
| CompiledFile.BlankMakesTwoPrefixes | controller/internal/proxy/render.go:64 | A path with a blank in it is written as the very line of two prefixes, and read as that. |
| CompiledFile.BlankInNameIsNotRead | controller/internal/proxy/render.go:88-92 | A blank in a version name shifts the words of the server lines written for it, and none of them can be read. |
| CompiledFile.AdmissibleNeedNotBePlain | controller/internal/webhook/v1alpha1/trafficroute_webhook.go:95-136 | The path "/a /b" passes validation. |
| Served.RequestsReachPods | controller/internal/proxy/render.go:107-129 | Behind the line a request takes stand exactly the ready pods of its rule's versions, read off the slices: every line has the port the cluster reaches them on, an address of some ready endpoint of a version, and one of n parts of that version's weight (100 for a rule without versions) rounded either way within 1..256; and every such endpoint has its line. |
| Served.FileReachesPods | controller/internal/proxy/render.go:107-129 | The same of what a proxy reads from any text taken for the rendered one, for plain routes. |
| ResilienceFile.TokensSayConditions | controller/internal/model/model.go:127-163 | Read as words, the translated conditions are exactly the words of the declared ones, such as 500 to 504 for "5xx", and unknown conditions give none. |
| ResilienceFile.SectionSaysPolicy | controller/internal/proxy/render.go:74-87 | The section of a backend has a connect timeout of n ms if and only if n is the whole, positive number of milliseconds of the declared timeout, a server timeout likewise of the per-try timeout or else the timeout, retries and redispatch if and only if attempts are positive, and then a retry-on line with exactly the words of the declared conditions. |
| ResilienceFile.FileSaysResilience | controller/internal/proxy/render.go:70-92 | In the file of every compiled route the section of each rule's backend says so of the rule's own policy. |
| RateLimiter.KeysAreInjective | control-plane/src/main/java/com/kubetraffic/controlplane/ratelimit/RedisRateLimiterBackend.java:37-39 | Different keys or buckets never share a counter name, whatever the key contains. |
| RateLimiter.LocalRateLimiterBackend.IncrementAndGet | control-plane/src/main/java/com/kubetraffic/controlplane/ratelimit/LocalRateLimiterBackend.java:23-28 | The map gains one in exactly the caller's bucket, and the new count is returned. |
| RateLimiter.RedisRateLimiterBackend.IncrementAndGet | control-plane/src/main/java/com/kubetraffic/controlplane/ratelimit/RedisRateLimiterBackend.java:36-47 | INCR with a deadline of two windows set only when the counter is created; an error may strike before or after it took effect. |
| RateLimiter.FailoverRateLimiterBackend.IncrementAndGet | control-plane/src/main/java/com/kubetraffic/controlplane/ratelimit/FailoverRateLimiterBackend.java:31-48 | The shared count when Redis answers, else the replica's own count, with both stores and the fallback flag after the call. |
| RateLimiter.RateLimiterService.TryAcquire | control-plane/src/main/java/com/kubetraffic/controlplane/ratelimit/RateLimiterService.java:26-31 | Consumes one unit and reports allowed exactly while the count is within the limit, with the remainder never negative. |
| RateLimitRuns.FallbackCountsItsCalls | control-plane/src/main/java/com/kubetraffic/controlplane/ratelimit/LocalRateLimiterBackend.java:23-28 | After any run a replica's local counter is the number of its calls in that slot that found Redis failing. |
| RateLimitRuns.RedisCountsArrivals | control-plane/src/main/java/com/kubetraffic/controlplane/ratelimit/RedisRateLimiterBackend.java:22-47 | After any run the Redis counter of a slot is the exact number of calls that reached it, dated by the first of them. |
| RateLimitRuns.CountIsRank | control-plane/src/main/java/com/kubetraffic/controlplane/ratelimit/FailoverRateLimiterBackend.java:31-48 | Every answer is the call's rank among the calls that bumped the same counter, shared or local. |
| RateLimitRuns.SlotsAreWindows | control-plane/src/main/java/com/kubetraffic/controlplane/ratelimit/LocalRateLimiterBackend.java:24-25 | Two calls on one key with window w share a counter if and only if their clocks lie between the same two multiples of 1000 max(1, w) milliseconds. |
| RateLimitRuns.RemainingIsWhatIsLeft | control-plane/src/main/java/com/kubetraffic/controlplane/ratelimit/RateLimiterService.java:26-31 | While Redis answers, the n-th further call in a slot is let through if and only if n is at most what the last answer called remaining. |
| RateLimitRuns.ExpiryIsInvisible | control-plane/src/main/java/com/kubetraffic/controlplane/ratelimit/RedisRateLimiterBackend.java:22-47 | The expiring counter gives the same counts as a map that never forgets, for one window per key and clocks within half a window of the Redis clock. |
| RateLimitRuns.SkewToleranceIsExact | control-plane/src/main/java/com/kubetraffic/controlplane/ratelimit/RedisRateLimiterBackend.java:36-47 | All runs on a window of w seconds with clocks at most s ms off the Redis clock agree with the never-purged map if and only if 2 s is at most 1000 max(1, w). |
| RateLimitRuns.MixedWindowsDisagree | control-plane/src/main/java/com/kubetraffic/controlplane/ratelimit/RedisRateLimiterBackend.java:36-47 | For any two windows of different length, a concrete run with both on one key in which Redis forgets a call the map remembers. |
| RateLimitRuns.MixedWindowsAgreeIff | control-plane/src/main/java/com/kubetraffic/controlplane/ratelimit/RedisRateLimiterBackend.java:36-47 | All runs over two windows agree with the never-purged map if and only if the windows are equally long. |
| RateLimitRuns.AllowedUsesCapacity | control-plane/src/main/java/com/kubetraffic/controlplane/ratelimit/RateLimiterService.java:26-31 | Calls let through in a slot are bounded by the capped shared counter plus the capped counters of the replicas. |
| RateLimitRuns.FailOpenIsBounded | control-plane/src/main/java/com/kubetraffic/controlplane/ratelimit/FailoverRateLimiterBackend.java:31-48 | With N replicas and any pattern of errors, lost replies included, at most (N + 1) times the limit is let through per key and bucket. |
| RateLimitRuns.FailOpenBoundIsAttained | control-plane/src/main/java/com/kubetraffic/controlplane/ratelimit/FailoverRateLimiterBackend.java:31-48 | For every window, every N and every limit some run on that window lets through exactly (N + 1) times the limit. |
| RateLimitRuns.SharedLimitIsExact | control-plane/src/main/java/com/kubetraffic/controlplane/ratelimit/RateLimiterService.java:26-31 | Without errors exactly the first `limit` calls of a slot are let through. |
| RateLimitRuns.FailOpenIsBoundedInAnyInterval | control-plane/src/main/java/com/kubetraffic/controlplane/ratelimit/FailoverRateLimiterBackend.java:31-48 | In any interval of at most 1000 max(1, w) milliseconds at most twice these bounds is let through on a key with window w, with and without errors. |
| RateLimitRuns.IntervalBoundIsAttained | control-plane/src/main/java/com/kubetraffic/controlplane/ratelimit/FailoverRateLimiterBackend.java:31-48 | For every window of w >= 1 seconds, N and limit a run on that window lets through exactly 2 (N + 1) times the limit within 1000 w milliseconds. |
| RateLimitRuns.SharedIntervalBoundIsAttained | control-plane/src/main/java/com/kubetraffic/controlplane/ratelimit/RateLimiterService.java:26-31 | For every such window and limit a run without errors lets through exactly twice the limit in such an interval. |
| CircuitBreaker.KeyedStore.Get | control-plane/src/main/java/com/kubetraffic/controlplane/circuitbreaker/LocalCircuitBreakerStore.java:15-17 | The stored record, or CLOSED for an unknown key. |
| CircuitBreaker.KeyedStore.Put | control-plane/src/main/java/com/kubetraffic/controlplane/circuitbreaker/LocalCircuitBreakerStore.java:20-22 | Exactly the one key is rebound. |
| CircuitBreaker.FailoverCircuitBreakerStore.Get | control-plane/src/main/java/com/kubetraffic/controlplane/circuitbreaker/FailoverCircuitBreakerStore.java:29-38 | Reads the primary, or the local store on any error, and sets the fallback flag accordingly. |
| CircuitBreaker.FailoverCircuitBreakerStore.Put | control-plane/src/main/java/com/kubetraffic/controlplane/circuitbreaker/FailoverCircuitBreakerStore.java:41-49 | Writes the primary, or the local store on an error, or both when the error comes after the primary took effect. |
| CircuitBreaker.CircuitBreakerService.Get | control-plane/src/main/java/com/kubetraffic/controlplane/circuitbreaker/CircuitBreakerService.java:27-35 | The record after a due recovery, written back only when it changed. |
| CircuitBreaker.CircuitBreakerService.RecordFailure | control-plane/src/main/java/com/kubetraffic/controlplane/circuitbreaker/CircuitBreakerService.java:37-42 | Both stores and the record after recovery check and failure, with the two clock reads apart. |
| CircuitBreaker.CircuitBreakerService.RecordSuccess | control-plane/src/main/java/com/kubetraffic/controlplane/circuitbreaker/CircuitBreakerService.java:44-48 | Both stores and the record after a full reset. |
| BreakerHistory.StoreFollowsHistory | control-plane/src/main/java/com/kubetraffic/controlplane/circuitbreaker/CircuitBreakerService.java:27-48 | After any history, whatever threshold and recovery time each call names, the stored record is CLOSED, OPEN or, once a poll found recovery due, HALF_OPEN as the history says, with the trailing run as count. |
| BreakerHistory.GetFollowsHistory | control-plane/src/main/java/com/kubetraffic/controlplane/circuitbreaker/CircuitBreakerLogic.java:24-46 | A read answers what the history calls for, whatever threshold and recovery time each call names: open since a failure that reached its own threshold or failed a trial, on trial once noticed or due. |
| BreakerHistory.FixedThresholdOpensIff | control-plane/src/main/java/com/kubetraffic/controlplane/circuitbreaker/CircuitBreakerLogic.java:24-31 | With one threshold for a key its circuit is open if and only if that many failures, and at least one, came since the last success. |
| BreakerHistory.FixedSettingsAnswer | control-plane/src/main/java/com/kubetraffic/controlplane/circuitbreaker/CircuitBreakerLogic.java:24-46 | With one threshold and recovery time for a key, a read answers CLOSED while fewer than the threshold failed since the last success, else HALF_OPEN once the recovery time has passed since the last failure, else OPEN. |
| BreakerHistory.CountIsTrailIffItFits | control-plane/src/main/java/com/kubetraffic/controlplane/circuitbreaker/CircuitBreakerLogic.java:25 | The stored count is the trailing run of failures if and only if that run fits a 32-bit int. |
| BreakerHistory.PollingIsInvisible | control-plane/src/main/java/com/kubetraffic/controlplane/circuitbreaker/CircuitBreakerService.java:27-35 | With one recovery time for a key, removing all polls from a history changes no later answer. |
| BreakerHistory.PollShowsIff | control-plane/src/main/java/com/kubetraffic/controlplane/circuitbreaker/CircuitBreakerService.java:27-35 | With any recovery times, a poll changes what a later reader is answered if and only if it finds recovery due by its own recovery time while the reader, by his, would still find the circuit OPEN. |
| BreakerHistory.RaisedThresholdCloses | control-plane/src/main/java/com/kubetraffic/controlplane/circuitbreaker/CircuitBreakerService.java:37-42 | One more failure closes a stored open circuit if and only if its threshold lies beyond the new count and the recovery check before it is not yet due. |
| BreakerHistory.OpenCircuitReadsClosedIff | control-plane/src/main/java/com/kubetraffic/controlplane/circuitbreaker/CircuitBreakerService.java:27-42 | After any history that left a circuit open, one more failure is followed by CLOSED answers if and only if its threshold lies beyond the new count and the circuit is neither on trial nor due. |
| BreakerOutages.WrittenIsRead | control-plane/src/main/java/com/kubetraffic/controlplane/circuitbreaker/FailoverCircuitBreakerStore.java:29-49 | A record written with Redis is read back with Redis, one written without it is read back without it, one whose reply was lost either way, and no other key changes for anyone. |
| BreakerOutages.StoresFollowTheirCalls | control-plane/src/main/java/com/kubetraffic/controlplane/circuitbreaker/FailoverCircuitBreakerStore.java:29-49 | Over every run that loses and regains Redis, the fallback store follows exactly the calls made without it and, no reply being lost, Redis exactly those made with it. |
| BreakerOutages.AnswersFollowTheirCalls | control-plane/src/main/java/com/kubetraffic/controlplane/circuitbreaker/CircuitBreakerService.java:27-48 | Answers without Redis are what the history of the calls made without it calls for, and answers with it those of the calls made with it. |
| BreakerOutages.CutOffReplicaOpensIff | control-plane/src/main/java/com/kubetraffic/controlplane/circuitbreaker/CircuitBreakerLogic.java:24-31 | A replica cut off from Redis opens a circuit at the threshold all the same. |
| BreakerReplicas.StepKeepsSafe | control-plane/src/main/java/com/kubetraffic/controlplane/circuitbreaker/FailoverCircuitBreakerStore.java:29-65 | Any single read or write of any replica, with any contact to Redis, keeps all records coherent. |
| BreakerReplicas.EveryInterleavingIsSafe | control-plane/src/main/java/com/kubetraffic/controlplane/circuitbreaker/CircuitBreakerService.java:27-48 | In every interleaving of reads and writes over any number of replicas, under any recovery times, CLOSED, no opening time and a count below the threshold coincide, and no count exceeds the failure writes for its own key, while those fit an int. |
| BreakerReplicas.UninterruptedCallIsTheService | control-plane/src/main/java/com/kubetraffic/controlplane/circuitbreaker/CircuitBreakerService.java:37-42 | The split steps of one undisturbed call compose to the service's own recordFailure. |
| BreakerReplicas.OverlappingCallsLoseAFailure | control-plane/src/main/java/com/kubetraffic/controlplane/circuitbreaker/CircuitBreakerService.java:37-42 | A concrete interleaving of two calls that records one failure for two. |
| PolicyService.Database.DeletePolicy | control-plane/src/main/resources/db/migration/V1__init.sql:16 | Deleting a policy row removes its snapshots and canaries with it. |
| PolicyService.Service.Create | control-plane/src/main/java/com/kubetraffic/controlplane/policy/PolicyService.java:48-59 | Conflict, or a row of generation 1 with its first snapshot and audit entry. |
| PolicyService.Service.Upsert | control-plane/src/main/java/com/kubetraffic/controlplane/policy/PolicyService.java:77-83 | Update of an existing key, else create, on the normalised namespace. |
| PolicyService.Service.Update | control-plane/src/main/java/com/kubetraffic/controlplane/policy/PolicyService.java:86-100 | Not found, nothing for an equal spec, or the next generation with snapshot and audit entry. |
| PolicyService.Service.Delete | control-plane/src/main/java/com/kubetraffic/controlplane/policy/PolicyService.java:103-108 | Not found, or the cascade with its audit entry. |
| PolicyService.Service.DeleteIfExists | control-plane/src/main/java/com/kubetraffic/controlplane/policy/PolicyService.java:118-127 | The cascade with its audit entry, or nothing at all. |
| Canary.Validate | control-plane/src/main/java/com/kubetraffic/controlplane/canary/CanaryLadder.java:21-37 | The default ladder for none, the given one if it strictly ascends within 1..100 and ends at 100, else an error. |
| Canary.CanaryEntity.constructor | control-plane/src/main/java/com/kubetraffic/controlplane/persistence/CanaryEntity.java:63-72 | A new row starts on the first rung. |
| Canary.CanaryEntity.Reinitialize | control-plane/src/main/java/com/kubetraffic/controlplane/persistence/CanaryEntity.java:75-81 | A restarted row is indistinguishable from a new one. |
| Canary.Service.Start | control-plane/src/main/java/com/kubetraffic/controlplane/canary/CanaryService.java:56-86 | Every error, or the fresh or restarted row with its audit entry and a decision from weight 0. |
| Canary.Service.Promote | control-plane/src/main/java/com/kubetraffic/controlplane/canary/CanaryService.java:89-117 | Every error, nothing in a terminal state, or one rung up with audit entry and decision. |
| Canary.Service.Rollback | control-plane/src/main/java/com/kubetraffic/controlplane/canary/CanaryService.java:120-137 | Every error, or the rolled-back row with audit entry and decision, even when it was rolled back before. |
| Canary.PromoteIsSoundAndMonotone | control-plane/src/main/java/com/kubetraffic/controlplane/canary/CanaryService.java:98-107 | A promote keeps ladder, index and status consistent and never lowers the weight; it raises it while progressing. |
| Canary.PromotesToTheTop | control-plane/src/main/java/com/kubetraffic/controlplane/canary/CanaryService.java:89-117 | A ladder of n rungs is PROMOTED after k promotes if and only if k is at least max(1, n - 1), and sits on rung k before that. |
| Canary.RollbackSticks | control-plane/src/main/java/com/kubetraffic/controlplane/canary/CanaryService.java:94-96 | One row: after a rollback its weight is 0 under any further promotes and rollbacks. |
| Canary.LogEndsAtTheWeightInForce | control-plane/src/main/java/com/kubetraffic/controlplane/canary/CanaryService.java:83-134 | One row: after any moves since a start, the last shift of its log ends at its current weight. |
| Canary.LogTelescopesIffOneRollback | control-plane/src/main/java/com/kubetraffic/controlplane/canary/CanaryService.java:124-134 | One row: the shifts of its log chain from 0, each starting where the last ended, if and only if at most one rollback happened. |
| Canary.WeightAfterMoves | control-plane/src/main/java/com/kubetraffic/controlplane/canary/CanaryService.java:89-137 | One row: its weight is 0 if any move was a rollback, and else the rung as many promotes up as there were, or the top one. |
| Canary.PairNamesTheCanaryWeight | control-plane/src/main/java/com/kubetraffic/controlplane/canary/CanaryService.java:162-165 | The effective pair gives the canary version its weight if and only if stable and canary differ or the weight is 50. |
| Registration.RouteConfigService.Build | control-plane/src/main/java/com/kubetraffic/controlplane/routing/RouteConfigService.java:39-55 | The loops grant the canary pair's weight to the versions it names and the declared one to the rest, rule by rule. |
| Registration.RouteConfigService.Get | control-plane/src/main/java/com/kubetraffic/controlplane/routing/RouteConfigService.java:35-37 | Nothing for an unknown policy, else its effective configuration at its generation. |
| Registration.RouteGrpcService.RegisterRoute | control-plane/src/main/java/com/kubetraffic/controlplane/grpc/RouteGrpcService.java:64-88 | Upsert, broadcast against the spec stored before, and the effective configuration under the request's own reference. |
| Registration.RouteGrpcService.DeleteRoute | control-plane/src/main/java/com/kubetraffic/controlplane/grpc/RouteGrpcService.java:91-102 | The policy and everything under it is gone, or nothing changed. |
| Registration.RouteGrpcService.BroadcastWeightChanges | control-plane/src/main/java/com/kubetraffic/controlplane/grpc/RouteGrpcService.java:118-138 | One decision per version known to both specs whose weight differs, in spec order. |
| Registration.RouteGrpcService.ExtractWeights | control-plane/src/main/java/com/kubetraffic/controlplane/grpc/RouteGrpcService.java:140-150 | The nested map of the stored weights, later mentions shadowing earlier ones. |
| Registration.ChangesPatch | control-plane/src/main/java/com/kubetraffic/controlplane/grpc/RouteGrpcService.java:118-150 | Diff and patch: following the broadcast turns the old weight into the new one at every path and version both specs have, and changes nothing else. |
| Registration.ChangesTellTheTruth | control-plane/src/main/java/com/kubetraffic/controlplane/grpc/RouteGrpcService.java:118-138 | Every announced change names a version of the new rules with its new weight, the weight the old ones gave it, and these differ. |
| Registration.RegistrationInforms | control-plane/src/main/java/com/kubetraffic/controlplane/grpc/RouteGrpcService.java:64-88 | A registration announces, against the spec stored before it, what takes a reader of that spec's weights to the new ones, and nothing before is lost. |
| Registration.SilentIff | control-plane/src/main/java/com/kubetraffic/controlplane/grpc/RouteGrpcService.java:118-138 | A broadcast is empty if and only if no version it mentions was known with another weight. |
| Registration.UnchangedRulesAnnounceNothing | control-plane/src/main/java/com/kubetraffic/controlplane/grpc/RouteGrpcService.java:118-138 | An unchanged spec announces nothing if and only if no mention of a version is shadowed by a later one with another weight. |
| Registration.UnambiguousIsConsistent | control-plane/src/main/java/com/kubetraffic/controlplane/grpc/RouteGrpcService.java:140-150 | Distinct paths and version names leave no mention shadowed. |
| Registration.RepeatedVersionFeedsItself | control-plane/src/main/java/com/kubetraffic/controlplane/grpc/RouteGrpcService.java:124 | A rule that mentions a version twice announces exactly one change on every registration of the unchanged spec if the weights differ, and none if they are equal. |
| StoreRuns.StepHasItsEffect | control-plane/src/main/java/com/kubetraffic/controlplane/policy/PolicyService.java:48-127 | Every call of the control plane inserts, revises or removes one policy with matching snapshot and audit entry, or leaves policies alone and audits a canary move at most. |
| StoreRuns.EveryRunIsHistorical | control-plane/src/main/resources/db/migration/V1__init.sql:11-20 | In every reachable state keys are unique, each policy's snapshots are numbered 1 to its generation without gap or repeat, neighbours differ, the last is the current spec, and a deleted policy has none. |
| StoreRuns.DeletionTakesItsCanaries | control-plane/src/main/resources/db/migration/V2__canary.sql:4 | Deleting a policy removes its canaries and leaves every other one as it is. |
| StoreRuns.EveryCanaryHasItsPolicy | control-plane/src/main/resources/db/migration/V2__canary.sql:4 | In every reachable state every canary belongs to a stored policy. |
| StoreRuns.NewPolicyHasNoCanary | control-plane/src/main/java/com/kubetraffic/controlplane/policy/PolicyService.java:48-59 | Over every run, a policy just created has no canary on any path, whatever went by its name before. |
| StoreRuns.PolicyCallsAreRefusedIff | control-plane/src/main/java/com/kubetraffic/controlplane/policy/PolicyService.java:48-108 | Creating is refused if and only if the policy exists, updating and deleting if and only if it does not, upserting never; a refused call changes nothing. |
| StoreRuns.CanaryCallsAreRefusedIff | control-plane/src/main/java/com/kubetraffic/controlplane/canary/CanaryService.java:56-137 | Starting a canary under a given namespace is refused if and only if its policy does not exist or its ladder is bad, moving one only for want of a policy or a canary; a refused call changes nothing. |
| StoreRuns.TargetIsReadableIff | control-plane/src/main/java/com/kubetraffic/controlplane/policy/PolicyService.java:156-158 | An audit target names its policy unambiguously if and only if the namespace has no slash. |
| StoreRuns.AuditRebuildsThePolicyTable | control-plane/src/main/java/com/kubetraffic/controlplane/policy/PolicyService.java:48-127 | Event sourcing: after any run in which no policy was created under a namespace with a slash, folding the audit log rebuilds exactly the current policy table. |
| StoreRuns.CreateIsReplayedIff | control-plane/src/main/java/com/kubetraffic/controlplane/policy/PolicyService.java:57 | A created policy is replayed from the log if and only if its namespace has no slash. |
| StoreRuns.UnreadableInsertIsLost | control-plane/src/main/java/com/kubetraffic/controlplane/policy/PolicyService.java:156-158 | Any call that creates a policy under a namespace with a slash leaves a log that no longer rebuilds the table. |
| StoreRuns.AuditRebuildsIff | control-plane/src/main/java/com/kubetraffic/controlplane/policy/PolicyService.java:48-127 | Over every run, the log rebuilds the table at every point if and only if no policy was ever created under a namespace with a slash. |
| StoreRuns.UpsertStores | control-plane/src/main/java/com/kubetraffic/controlplane/policy/PolicyService.java:77-83 | After an upsert the policy is found under its key with the new spec. |
| StoreRuns.RegistrationIsIdempotent | control-plane/src/main/java/com/kubetraffic/controlplane/grpc/RouteGrpcService.java:64-88 | A registration of any spec always answers; repeating it gives the same answer and touches nothing but the decisions, and changes nothing at all if and only if the spec shadows no mention with another weight. |
| CanaryRuns.CalmStepTracks | control-plane/src/main/java/com/kubetraffic/controlplane/canary/CanaryService.java:55-137 | Any call that neither restarts a canary nor removes its policy moves its row by its own promote or rollback, or leaves it alone. |
| CanaryRuns.CalmStepPublishes | control-plane/src/main/java/com/kubetraffic/controlplane/canary/CanaryService.java:83-134 | Such a call only appends to the decisions: a move its announcement, any other call nothing about that canary. |
| CanaryRuns.PublishedLogIsTheLog | control-plane/src/main/java/com/kubetraffic/controlplane/canary/CanaryService.java:56-137 | Over every run, from a start until the next one or the policy's removal, the stored row is that of the moves made, and the published decisions about the canary are exactly their log. |
| CanaryRuns.LastPublishedWeightIsInForce | control-plane/src/main/java/com/kubetraffic/controlplane/canary/CanaryService.java:83-134 | Over every such run the last published weight is the weight the tables give the canary. |
| CanaryRuns.WeightsFollowTheCalls | control-plane/src/main/java/com/kubetraffic/controlplane/canary/CanaryService.java:56-165 | Over every run, from a successful start on, the effective weights are those of the versions the call named: the canary the first rung of the ladder asked for (5, 10, 20, 30, 50, 100 by default), one rung more per promote, 0 after a rollback, the stable version the rest; the last published weight is the same. |
| CanaryRuns.DecisionsNameTheCanary | control-plane/src/main/java/com/kubetraffic/controlplane/canary/CanaryService.java:169-181 | Over every such run every published decision about the canary names the canary version of the start. |
| CanaryAudit.AuditTellsWhatIsPublished | control-plane/src/main/java/com/kubetraffic/controlplane/canary/CanaryService.java:34-35 | Over every run the canary entries of the audit log and the canary decisions match one to one in order: same policy and path, same transition, same version and weights. |
| CanaryRuns.PublishedLogTelescopesIff | control-plane/src/main/java/com/kubetraffic/controlplane/canary/CanaryService.java:124-134 | Over every such run the published weights chain from 0 if and only if the canary was rolled back at most once. |
| CanaryRuns.RollbackSticksInTheTables | control-plane/src/main/java/com/kubetraffic/controlplane/canary/CanaryService.java:94-96 | Over every run a rolled-back canary stays rolled back at weight 0 until it is started again or its policy removed. |
| CanaryRuns.StartSucceedsIff | control-plane/src/main/java/com/kubetraffic/controlplane/canary/CanaryService.java:56-86 | A canary starts if and only if its policy exists, its ladder is valid and the call names a namespace; the optional namespace of the REST call finds the policy but never starts the canary. |
| CanaryRuns.EveryShiftWakesTheRouteIff | control-plane/src/main/java/com/kubetraffic/controlplane/canary/CanaryService.java:34-35 | Over every run, every published shift of a canary, from its start on, reconciles the route that serves it if and only if the start and every later move that shifts anything spelled the namespace as the route's own. |
| CanaryRuns.BlankNamespacePromotesUnheard | control-plane/src/main/java/com/kubetraffic/controlplane/canary/CanaryService.java:169-181 | In any run, promoting the canary of "default/r" with a blank namespace moves the stored row and publishes one decision, which wakes no "default/r". |
| CanaryRuns.BlankNamespaceRunIsReachable | control-plane/src/main/java/com/kubetraffic/controlplane/canary/CanaryService.java:89-117 | Registering the route and starting its canary under "default" is a run to which that promote can be added. |
| Decisions.DecisionWatcher.Handle | controller/internal/controller/decision_watcher.go:65-75 | A decision asks for a reconcile of the object whose namespace and name it carries, as they are spelled. |
| Decisions.DecisionWatcher.WatchDecisions | controller/internal/controlplane/client.go:101-108 | Every decision of a stream wakes its object, once each and in order. |
| CrossPlane.AdoptedWeightIsTheOverride | control-plane/src/main/java/com/kubetraffic/controlplane/routing/RouteConfigService.java:39-55 | Granting on one plane and adopting on the other compose to the canary's weight for the versions it names and the declared weight for all others. |
| CrossPlane.GrantFollowsTheCalls | control-plane/src/main/java/com/kubetraffic/controlplane/routing/RouteConfigService.java:39-55 | After any run, a registration grants the started canary the weight its promotes and rollbacks call for, the stable version the rest, and every other version what it declares. |
| CrossPlane.OverrideIsConserved | controller/internal/controller/trafficroute_controller.go:337-372 | After both planes an admissible rule's weights sum to 100 plus what its other versions declare, hence to 100 if and only if those declare nothing, and always for two versions. |
| CrossPlane.CanaryReachesTheServers | control-plane/src/main/java/com/kubetraffic/controlplane/canary/CanaryService.java:150-167 | End to end, as to the lines and servers meant: after a registration every request finds the line of its longest prefix, and behind it exactly its versions' addresses sharing the canary pair's weights, and the declared ones for other versions. |
| CrossPlane.CanaryReachesTheProxy | control-plane/src/main/java/com/kubetraffic/controlplane/canary/CanaryService.java:150-167 | The same down to the file: for a plain route, what a proxy reads from any text taken for the rendered one sends every request to those servers with those weights. |
| CrossPlane.CallsReachThePods | control-plane/src/main/java/com/kubetraffic/controlplane/canary/CanaryService.java:150-167 | From the calls to the pods: after a start and any moves, registering a plain route and programming the result, a request for its rule reaches lines among which every ready pod of every version has its part of the weight the calls ask for, on the port the cluster reaches it on. |
| Reconciler.Survey | controller/internal/controller/trafficroute_controller.go:160-199 | The discovery loop yields the issues, status lines and resolutions of all rules in order. |
| Reconciler.Judge | controller/internal/controller/trafficroute_controller.go:167-198 | One rule's issues and status line: missing Service or port, versions without ready endpoints, unmatched endpoints, resolved endpoints and declared weights. |
| Controller.TrafficRouteReconciler.Reconcile | controller/internal/controller/trafficroute_controller.go:115-250 | The object, cache, tables and live file after a pass, and its verdict, for every combination of calls that fail before or after they took effect. |
| Controller.TrafficRouteReconciler.RegisterWithControlPlane | controller/internal/controller/trafficroute_controller.go:279-331 | The condition, the configuration used, the tables and the cache after success, failure and a lost reply, with the cached configuration as fallback. |
| Controller.TrafficRouteReconciler.Program | controller/internal/controller/trafficroute_controller.go:377-416 | The condition, phase, error and live file, leaving the file alone without a proxy or with unresolved endpoints. |
| Controller.TrafficRouteReconciler.ApplyStatus | controller/internal/controller/trafficroute_controller.go:420-446 | Nothing is written for an equal status, a conflict is no error, an error may come before or after the write took effect, and transition times move only with the truth value. |
| Controller.TrafficRouteReconciler.Finalize | controller/internal/controller/trafficroute_controller.go:255-274 | The control plane is told first; the object is let go only after it confirmed, even if the reply to the last write is lost. |
| Controller.TrafficRouteReconciler.Update | controller/internal/controller/trafficroute_controller.go:130 | A write changes the stored object if it took effect, whether or not its reply arrives, and not otherwise. |
| ReconcilerRuns.PassAndLive | controller/internal/controller/trafficroute_controller.go:377-416 | A pass touches the live file only when it settles an admissible, fully resolved object, and then only by applying the file compiled from it. |
| ReconcilerRuns.PassAndTables | controller/internal/controller/trafficroute_controller.go:279-301 | A pass changes the control plane by one registration or one deletion or not at all. |
| ReconcilerRuns.TablesStayHistorical | control-plane/src/main/java/com/kubetraffic/controlplane/policy/PolicyService.java:48-127 | Reconciler runs, with anyone else at work on the tables, keep the version-history invariant. |
| ReconcilerRuns.NoIssuesIff | controller/internal/controller/trafficroute_controller.go:167-198 | A pass finds no issue if and only if, read off the cache, every rule's Service and port exist, every ready endpoint belongs to a version, and every version has a ready endpoint. |
| ReconcilerRuns.LiveIsLastProgrammed | controller/internal/controller/trafficroute_controller.go:388-401 | Over every run the live file is the installed one until a pass programs it, and then that of the last pass whose push arrived. |
| ReconcilerRuns.WantedImplementsTheSpec | controller/internal/controller/trafficroute_controller.go:395-399 | Whatever file a pass wants live, its spec is admissible, every rule is backed by ready endpoints, the file is rendered from the spec under the pass's configuration, the lines and servers meant implement it, and in plain words what a proxy reads from the text does. |
| ReconcilerRuns.CacheIsLastGranted | controller/internal/controller/trafficroute_controller.go:313-331 | The cache holds exactly the last configuration granted to this process, cleared by a restart and by finalisation. |
| ReconcilerRuns.LastKnownGoodIsProgrammed | controller/internal/controller/trafficroute_controller.go:301-311 | When registration fails, the wanted file is rendered from the spec with the weights of the last successful registration of this process for all it names and the declared weights otherwise, and in plain words what a proxy reads from it implements that. |
| ReconcilerRuns.StatusIsAlwaysCoherent | controller/internal/controller/trafficroute_controller.go:201-240 | In every reachable state the phase is Ready if and only if Programmed is True, and Ready implies Accepted and Resolved. |
| Quiescence.StatusSettles | controller/internal/controller/trafficroute_controller.go:428-436 | Stating the same findings again at a later time gives an equal status. |
| Quiescence.SinceIsTheLastChange | controller/internal/controller/trafficroute_controller.go:426-433 | However often a condition is reported, its transition time is that of the first report of the truth value that has held ever since. |
| Quiescence.ReorderedSlicesResolveAlike | controller/internal/discovery/resolver.go:98-133 | Two snapshots that differ in slice order only resolve every rule alike when the slices agree on the port each rule asks for. |
| Quiescence.SecondPassChangesNothing | controller/internal/controller/trafficroute_controller.go:115-250 | After a pass in which all went well, another one over the same environment changes no table, file, status or cache entry and does not fail, whatever the clock and whether or not writes would succeed. |
| Quiescence.TheLoopComesToRest | controller/internal/controller/trafficroute_controller.go:115-250 | From every reachable state, after one such pass any number of further ones leave the world as it is, so decision-triggered reconciles cannot feed themselves. |
| Lifecycle.ReadyMeansLive | controller/internal/controller/trafficroute_controller.go:411-415 | A pass that reports Ready without failing leaves the file compiled from the object live. |
| Lifecycle.StatusSaysWhy | controller/internal/controller/trafficroute_controller.go:201-240 | Of an admissible object a pass reports Ready if and only if its file was applied, Pending if and only if all is backed and there is no proxy, else Degraded; Resolved if and only if all is backed; ControlPlaneRegistered if and only if the control plane answered; Programmed if and only if Ready. |
| Lifecycle.StatusCountsPods | controller/internal/controller/trafficroute_controller.go:179-188 | A status reports for every version how many endpoints in the slices belong to it, how many of them are ready, their addresses, and its declared weight. |
| Lifecycle.OutagesAreRetriedSoon | controller/internal/controller/trafficroute_controller.go:233-240 | A pass that does not fail comes back after the retry interval if the control plane did not answer, and after the resync interval otherwise. |
| Lifecycle.UnappliedFileIsRetried | controller/internal/controller/trafficroute_controller.go:402-409 | A pass that leaves another file live than the one it wanted returns an error. |
| Lifecycle.OnePassConverges | controller/internal/controller/trafficroute_controller.go:115-250 | From any state one undisturbed pass makes the object Ready, stores its spec with the control plane, and leaves live exactly the file rendered from the control plane's tables as they then are; in plain words, what a proxy reads from the live text implements them. |
| Lifecycle.ConvergedReachesPods | controller/internal/controller/trafficroute_controller.go:115-250 | In plain words, every request to a converged proxy reaches ready pods by the weights the control plane's tables grant. |
| Lifecycle.UndisturbedPassExists | controller/internal/controller/trafficroute_controller.go:115-250 | Every admissible object whose backends are complete in the cluster, Service by Service and version by version, has an undisturbed pass that wants a file, so convergence is always possible once backend names differ. |
| Lifecycle.RegisteredObjectsAreHeld | controller/internal/controller/trafficroute_controller.go:125-134 | Over every run an object with a registration outstanding since the last confirmed DeleteRoute still exists and holds its finalizer. |
| Lifecycle.NoOrphanPolicies | controller/internal/controller/trafficroute_controller.go:255-274 | Over every run the control plane holds no policy for an object that is gone or free to go, unless somebody else created it. |

## Left out

- Transport and storage clients: HTTP, gRPC, JSON and protobuf encoding, Spring wiring, Postgres transactions beyond all-or-nothing, Redis protocol. A registration that commits its upsert but dies before broadcasting is not distinguished from one whose reply is lost.
- Backend names: the FNV-1a hash is a parameter. Where two backends of one route must not merge, their names are assumed to differ, because a 32-bit hash can collide.
- File digests: SHA-256 is a parameter; only that equal files have equal digests is used.
- Several TrafficRoutes behind one HAProxy: every push replaces the whole file, so the model has one route per data plane.
- Informer staleness, leader election, work queues and watch predicates: a pass may happen at any step of a run, reads the stored object, and sees one snapshot of the cache.
- Condition messages as text and their truncation (a message is a value that determines the text, so equal statuses here are equal there); the order of the conditions list; Kubernetes events and metrics.
- Other finalizers and manual removal of the controller's own finalizer.
- Decision fan-out to subscribers and through Redis pub/sub; decisions are a log that grows with the transaction that publishes.
- Redis losing data other than by expiry, and overflow of its 64-bit counters and of the 64-bit generation.
- Colliding random UUIDs: runs assume that a new row's UUID is not in use.
- Details of the HAProxy template beyond rule order, host and prefix conditions, backend choice, server lines and the resilience block; how HAProxy balances within a backend.
- Timestamps of rows, list and count queries, logging of fallback transitions.
- Settings no modelled code reads: the rate-limit algorithm, JWT audiences and token forwarding, health thresholds, the rest of the strategy block.
- The web console, the sample application, manifests and scripts.
- Discovery.Resolve: an API error while reading the Service or its slices ends the pass (`Reconciler.Settle` with no cache); which of several reads failed is not told apart.
- Admission.ValidateTrafficRoute: says when the list of errors is empty, not which errors it holds, because only emptiness decides what the controller does.
- ProxyReader.HostIsReachableIff: lower-casing is modelled for ASCII letters, as in HAProxy, and a header is cut at every comma, inside a quoted string too.
- ProxyReader.PlainTextReadsBack: the reader makes nothing of a routing line with quotes, escapes or comments in it, so texts that would need them count as not read; what they would mean to a proxy is not modelled.
- CompiledFile.FileServesTheRouteIff: version names, addresses, ports and backend names are assumed to be plain words and not negative. Kubernetes and the naming scheme see to that, except for version names, where a blank makes the server lines unreadable (`CompiledFile.BlankInNameIsNotRead`). The text before the frontend is a parameter that ends its last line and routes nothing, as the built-in one does.
- BreakerOutages.StoresFollowTheirCalls: one call has one kind of contact to Redis throughout, and Redis itself is followed only while no reply is lost; what any mixture may do is bounded by `BreakerReplicas.EveryInterleavingIsSafe`.
- CircuitBreaker.CircuitBreakerService.Get: instants are unbounded integers; `Instant` overflow and nanosecond precision are not modelled.
- Store.IsBlank: uses Java's whitespace characters of the Basic Multilingual Plane.
