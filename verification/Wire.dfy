/** Messages exchanged between the controller and the control plane. */
module Wire {
  import opened Wrappers

  datatype RouteRef = RouteRef(namespace: string, name: string)

  datatype RouteVersionSpec = RouteVersionSpec(name: string, weight: int)

  datatype RetryPolicy = RetryPolicy(attempts: int, perTryTimeoutMs: int, retryOn: seq<string>)

  datatype CircuitBreakerPolicy = CircuitBreakerPolicy(
    enabled: bool, failureThreshold: int, recoveryTimeoutMs: int, halfOpenRequests: int)

  datatype ResiliencePolicy = ResiliencePolicy(
    timeoutMs: int, retries: Option<RetryPolicy>, circuitBreaker: Option<CircuitBreakerPolicy>)

  datatype RulePolicy = RulePolicy(
    path: string, backendService: string, backendPort: int, strategy: string,
    resilience: Option<ResiliencePolicy>, versions: seq<RouteVersionSpec>)

  datatype RouteSpec = RouteSpec(ref: RouteRef, host: string, generation: int, rules: seq<RulePolicy>)

  datatype VersionWeight = VersionWeight(version: string, weight: int)

  datatype RuleWeights = RuleWeights(path: string, weights: seq<VersionWeight>)

  datatype RouteConfig = RouteConfig(ref: RouteRef, generation: int, rules: seq<RuleWeights>)

  datatype Decision = Decision(
    ref: RouteRef, path: string, version: string, oldWeight: int, newWeight: int, reason: string)

  /** No two versions of a rule share a name. */
  predicate DistinctVersions(versions: seq<RouteVersionSpec>) {
    forall i, j :: 0 <= i < j < |versions| ==> versions[i].name != versions[j].name
  }

  /** No two rules share a path, and versions are distinct within each. */
  predicate Unambiguous(rules: seq<RulePolicy>) {
    && (forall i, j :: 0 <= i < j < |rules| ==> rules[i].path != rules[j].path)
    && (forall i :: 0 <= i < |rules| ==> DistinctVersions(rules[i].versions))
  }
}
