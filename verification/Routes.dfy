/** The TrafficRoute resource as the controller reads it. */
module Routes {
  import opened Wrappers

  datatype BackendVersion = BackendVersion(name: string, weight: int, labels: map<string, string>)

  datatype BackendRef = BackendRef(service: string, port: int)

  /** Durations are nanoseconds. */
  datatype RetryPolicy = RetryPolicy(attempts: int, perTryTimeout: int, retryOn: seq<string>)

  datatype CircuitBreakerPolicy = CircuitBreakerPolicy(
    enabled: bool, failureThreshold: int, recoveryTimeout: int, halfOpenRequests: int)

  datatype ResiliencePolicy = ResiliencePolicy(
    timeout: int, retries: Option<RetryPolicy>, circuitBreaker: Option<CircuitBreakerPolicy>)

  datatype RateLimitPolicy = RateLimitPolicy(requestsPerSecond: int, burst: int)

  datatype JWTPolicy = JWTPolicy(issuer: string, jwksSecretName: Option<string>)

  datatype SecurityPolicy = SecurityPolicy(rateLimit: Option<RateLimitPolicy>, jwt: Option<JWTPolicy>)

  datatype RouteRule = RouteRule(
    path: string,
    backend: BackendRef,
    versions: seq<BackendVersion>,
    strategy: string,
    canarySteps: Option<seq<int>>,
    resilience: Option<ResiliencePolicy>,
    security: Option<SecurityPolicy>)

  /** Duration.Milliseconds truncates toward zero. */
  function Milliseconds(duration: int): int {
    if duration >= 0 then duration / 1_000_000 else -((-duration) / 1_000_000)
  }

  datatype RouteSpec = RouteSpec(host: string, versionLabel: string, routes: seq<RouteRule>)

  /** A rule without a path is the catch-all. */
  function RoutePath(rule: RouteRule): (p: string)
    ensures p != ""
  {
    if rule.path == "" then "/" else rule.path
  }

  predicate DistinctPaths(routes: seq<RouteRule>) {
    forall i, j :: 0 <= i < j < |routes| ==> RoutePath(routes[i]) != RoutePath(routes[j])
  }

  predicate DistinctNames(versions: seq<BackendVersion>) {
    forall i, j :: 0 <= i < j < |versions| ==> versions[i].name != versions[j].name
  }

  function WeightSum(versions: seq<BackendVersion>): int {
    if versions == [] then 0 else WeightSum(versions[..|versions| - 1]) + versions[|versions| - 1].weight
  }
}
