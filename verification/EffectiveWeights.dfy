/** The controller's side of the wire: what it registers, and how it adopts the weights it is given. */
module EffectiveWeights {
  import opened Wrappers
  import opened Integers
  import opened Sequences
  import opened Routes
  import Wire
  import opened Registration

  // ---- BuildRouteSpec ----------------------------------------------------------------------

  function WireVersion(v: BackendVersion): Wire.RouteVersionSpec {
    Wire.RouteVersionSpec(v.name, v.weight)
  }

  /** Durations travel as int32 milliseconds. */
  function WireResilience(r: Option<ResiliencePolicy>): Option<Wire.ResiliencePolicy> {
    match r
    case None => None
    case Some(p) =>
      Some(Wire.ResiliencePolicy(
        Wrap32(Milliseconds(p.timeout)),
        if p.retries.None? then None
        else Some(Wire.RetryPolicy(p.retries.value.attempts, Wrap32(Milliseconds(p.retries.value.perTryTimeout)),
                                   p.retries.value.retryOn)),
        if p.circuitBreaker.None? then None
        else
          var breaker := p.circuitBreaker.value;
          Some(Wire.CircuitBreakerPolicy(breaker.enabled, breaker.failureThreshold,
                                         Wrap32(Milliseconds(breaker.recoveryTimeout)), breaker.halfOpenRequests))))
  }

  function WireRule(rule: RouteRule): Wire.RulePolicy {
    Wire.RulePolicy(RoutePath(rule), rule.backend.service, rule.backend.port, rule.strategy,
                    WireResilience(rule.resilience), Map(WireVersion, rule.versions))
  }

  function WireSpec(ref: Wire.RouteRef, generation: int, spec: RouteSpec): Wire.RouteSpec {
    Wire.RouteSpec(ref, spec.host, generation, Map(WireRule, spec.routes))
  }

  method BuildRouteSpec(ref: Wire.RouteRef, generation: int, spec: RouteSpec) returns (wire: Wire.RouteSpec)
    ensures wire == WireSpec(ref, generation, spec)
  {
    hide WireResilience;
    var rules := [];
    for i := 0 to |spec.routes|
      invariant rules == Map(WireRule, spec.routes)[..i]
    {
      var rule := spec.routes[i];
      var path := if rule.path == "" then "/" else rule.path;
      var versions := BuildVersions(rule.versions);
      rules := rules + [Wire.RulePolicy(path, rule.backend.service, rule.backend.port, rule.strategy,
                                        WireResilience(rule.resilience), versions)];
    }
    return Wire.RouteSpec(ref, spec.host, generation, rules);
  }

  /** The inner loop of BuildRouteSpec. */
  method BuildVersions(declared: seq<BackendVersion>) returns (versions: seq<Wire.RouteVersionSpec>)
    ensures versions == Map(WireVersion, declared)
  {
    versions := [];
    for j := 0 to |declared|
      invariant versions == Map(WireVersion, declared)[..j]
    {
      versions := versions + [Wire.RouteVersionSpec(declared[j].name, declared[j].weight)];
    }
  }

  /** `ms` is a duration in whole milliseconds, if those fit an int32. */
  predicate IsWholeMillis(ms: int, duration: int) {
    0 <= duration < 0x8000_0000 * 1_000_000 ==> 0 <= duration - 1_000_000 * ms < 1_000_000
  }

  /** A timeout, retries and a breaker are sent exactly if they are declared, and as they are declared. */
  predicate CarriesResilience(wire: Option<Wire.ResiliencePolicy>, r: Option<ResiliencePolicy>) {
    && (wire.Some? <==> r.Some?)
    && (r.Some? ==>
          var w, p := wire.value, r.value;
          && IsWholeMillis(w.timeoutMs, p.timeout)
          && (w.retries.Some? <==> p.retries.Some?)
          && (p.retries.Some? ==>
                && w.retries.value.attempts == p.retries.value.attempts
                && w.retries.value.retryOn == p.retries.value.retryOn
                && IsWholeMillis(w.retries.value.perTryTimeoutMs, p.retries.value.perTryTimeout))
          && (w.circuitBreaker.Some? <==> p.circuitBreaker.Some?)
          && (p.circuitBreaker.Some? ==>
                var sent, declared := w.circuitBreaker.value, p.circuitBreaker.value;
                && sent.enabled == declared.enabled && sent.failureThreshold == declared.failureThreshold
                && sent.halfOpenRequests == declared.halfOpenRequests
                && IsWholeMillis(sent.recoveryTimeoutMs, declared.recoveryTimeout)))
  }

  /** Whatever the control plane reads of a rule is what the rule declares. */
  lemma WireCarriesTheRules(ref: Wire.RouteRef, generation: int, spec: RouteSpec, i: nat)
    requires i < |spec.routes|
    ensures
      var wire, rule := WireSpec(ref, generation, spec), spec.routes[i];
      && |wire.rules| == |spec.routes| && wire.ref == ref && wire.host == spec.host && wire.generation == generation
      && var sent := wire.rules[i];
      && sent.path == (if rule.path == "" then "/" else rule.path)
      && sent.backendService == rule.backend.service && sent.backendPort == rule.backend.port
      && sent.strategy == rule.strategy
      && CarriesResilience(sent.resilience, rule.resilience)
      && |sent.versions| == |rule.versions|
      && forall j :: 0 <= j < |rule.versions| ==>
           sent.versions[j].name == rule.versions[j].name && sent.versions[j].weight == rule.versions[j].weight
  {
    assert WireSpec(ref, generation, spec).rules[i] == WireRule(spec.routes[i]);
  }

  /** An admissible spec is unambiguous on the wire. */
  lemma WireIsUnambiguous(routes: seq<RouteRule>)
    requires DistinctPaths(routes) && forall i :: 0 <= i < |routes| ==> DistinctNames(routes[i].versions)
    ensures Wire.Unambiguous(Map(WireRule, routes))
  {
  }

  // ---- PassThroughConfig -------------------------------------------------------------------

  function PassVersion(v: Wire.RouteVersionSpec): Wire.VersionWeight {
    Wire.VersionWeight(v.name, v.weight)
  }

  function PassRule(rule: Wire.RulePolicy): Wire.RuleWeights {
    Wire.RuleWeights(rule.path, Map(PassVersion, rule.versions))
  }

  method PassThroughConfig(spec: Wire.RouteSpec, generation: int) returns (config: Wire.RouteConfig)
    ensures config == Wire.RouteConfig(spec.ref, generation, Map(PassRule, spec.rules))
  {
    var rules := [];
    for i := 0 to |spec.rules|
      invariant rules == Map(PassRule, spec.rules)[..i]
    {
      var versions := spec.rules[i].versions;
      var weights := [];
      for j := 0 to |versions|
        invariant weights == Map(PassVersion, versions)[..j]
      {
        weights := weights + [Wire.VersionWeight(versions[j].name, versions[j].weight)];
      }
      assert weights == Map(PassVersion, versions);
      rules := rules + [Wire.RuleWeights(spec.rules[i].path, weights)];
    }
    return Wire.RouteConfig(spec.ref, generation, rules);
  }

  // ---- applyEffectiveWeights ---------------------------------------------------------------

  function Granted(weights: seq<Wire.VersionWeight>): map<string, int> {
    if weights == [] then map[]
    else
      var w := weights[|weights| - 1];
      Granted(weights[..|weights| - 1])[w.version := w.weight]
  }

  function ByPath(rules: seq<Wire.RuleWeights>): WeightTable {
    if rules == [] then map[]
    else
      var rule := rules[|rules| - 1];
      ByPath(rules[..|rules| - 1])[rule.path := Granted(rule.weights)]
  }

  function AdoptVersion(weights: map<string, int>): BackendVersion -> BackendVersion {
    (v: BackendVersion) => if v.name in weights then v.(weight := weights[v.name]) else v
  }

  /** Weights granted for a rule's path replace the declared ones; versions not named keep theirs. */
  function AdoptRule(table: WeightTable): RouteRule -> RouteRule {
    (rule: RouteRule) =>
      if RoutePath(rule) in table
      then rule.(versions := Map(AdoptVersion(table[RoutePath(rule)]), rule.versions))
      else rule
  }

  function Adopt(routes: seq<RouteRule>, config: Option<Wire.RouteConfig>): seq<RouteRule> {
    if config.None? then routes else Map(AdoptRule(ByPath(config.value.rules)), routes)
  }

  method ApplyEffectiveWeights(routes: seq<RouteRule>, config: Option<Wire.RouteConfig>) returns (out: seq<RouteRule>)
    ensures out == Adopt(routes, config)
  {
    if config.None? {
      return routes;
    }
    var byPath := TabulateWeights(config.value.rules);
    out := [];
    for i := 0 to |routes|
      invariant out == Adopt(routes, config)[..i]
    {
      var rule := routes[i];
      if |rule.versions| == 0 || RoutePath(rule) !in byPath {
        assert RoutePath(rule) in byPath ==> Map(AdoptVersion(byPath[RoutePath(rule)]), rule.versions) == rule.versions;
        assert AdoptRule(byPath)(rule) == rule;
        out := out + [rule];
      } else {
        var weights := byPath[RoutePath(rule)];
        var versions := rule.versions;
        for j := 0 to |versions|
          invariant |versions| == |rule.versions|
          invariant forall k :: 0 <= k < |versions| ==>
            versions[k] == if k < j then AdoptVersion(weights)(rule.versions[k]) else rule.versions[k]
        {
          if versions[j].name in weights {
            versions := versions[j := versions[j].(weight := weights[versions[j].name])];
          }
        }
        assert versions == Map(AdoptVersion(weights), rule.versions);
        out := out + [rule.(versions := versions)];
      }
    }
  }

  method TabulateWeights(rules: seq<Wire.RuleWeights>) returns (byPath: WeightTable)
    ensures byPath == ByPath(rules)
  {
    byPath := map[];
    for i := 0 to |rules|
      invariant byPath == ByPath(rules[..i])
    {
      var granted := rules[i].weights;
      var weights := map[];
      for j := 0 to |granted|
        invariant weights == Granted(granted[..j])
      {
        assert granted[..j + 1][..j] == granted[..j];
        weights := weights[granted[j].version := granted[j].weight];
      }
      assert granted[..|granted|] == granted && rules[..i + 1][..i] == rules[..i];
      byPath := byPath[rules[i].path := weights];
    }
    assert rules[..|rules|] == rules;
  }

  // ---- Reading the tables ------------------------------------------------------------------

  /** The weight the configuration grants a version of a path: the last word on it counts. */
  function GrantedTo(config: Wire.RouteConfig, path: string, version: string): Option<int> {
    WeightAt(ByPath(config.rules), path, version)
  }

  lemma {:induction false} RuleIsTabulated(rules: seq<Wire.RuleWeights>, i: nat)
    requires forall a, b :: 0 <= a < b < |rules| ==> rules[a].path != rules[b].path
    requires i < |rules|
    ensures rules[i].path in ByPath(rules) && ByPath(rules)[rules[i].path] == Granted(rules[i].weights)
  {
    if i < |rules| - 1 {
      RuleIsTabulated(rules[..|rules| - 1], i);
    }
  }

  lemma {:induction false} WeightIsGranted(weights: seq<Wire.VersionWeight>, i: nat)
    requires forall a, b :: 0 <= a < b < |weights| ==> weights[a].version != weights[b].version
    requires i < |weights|
    ensures weights[i].version in Granted(weights) && Granted(weights)[weights[i].version] == weights[i].weight
  {
    if i < |weights| - 1 {
      WeightIsGranted(weights[..|weights| - 1], i);
    }
  }

  /** Adopting weights keeps every rule's shape and moves each version to its granted weight. */
  lemma AdoptKeepsShape(routes: seq<RouteRule>, config: Option<Wire.RouteConfig>)
    ensures
      var out := Adopt(routes, config);
      && |out| == |routes|
      && forall i :: 0 <= i < |routes| ==>
           && RoutePath(out[i]) == RoutePath(routes[i])
           && out[i] == routes[i].(versions := out[i].versions)
           && |out[i].versions| == |routes[i].versions|
           && forall j :: 0 <= j < |routes[i].versions| ==>
                out[i].versions[j] == routes[i].versions[j].(weight := EffectiveWeight(config, routes[i], j))
  {
  }

  /** A version's weight after the override. */
  function EffectiveWeight(config: Option<Wire.RouteConfig>, rule: RouteRule, j: nat): int
    requires j < |rule.versions|
  {
    var v := rule.versions[j];
    if config.Some? then GrantedTo(config.value, RoutePath(rule), v.name).GetOr(v.weight) else v.weight
  }

  lemma PassedVersionsStay(rule: RouteRule)
    requires DistinctNames(rule.versions)
    ensures Map(AdoptVersion(Granted(PassRule(WireRule(rule)).weights)), rule.versions) == rule.versions
  {
    var weights := PassRule(WireRule(rule)).weights;
    forall j | 0 <= j < |rule.versions| ensures AdoptVersion(Granted(weights))(rule.versions[j]) == rule.versions[j] {
      assert weights[j] == Wire.VersionWeight(rule.versions[j].name, rule.versions[j].weight);
      WeightIsGranted(weights, j);
    }
  }

  /** A control plane without opinions leaves an admissible route exactly as declared. */
  lemma PassThroughChangesNothing(ref: Wire.RouteRef, generation: int, spec: RouteSpec, at: int)
    requires DistinctPaths(spec.routes)
    requires forall i :: 0 <= i < |spec.routes| ==> DistinctNames(spec.routes[i].versions)
    ensures
      var wire := WireSpec(ref, generation, spec);
      Adopt(spec.routes, Some(Wire.RouteConfig(ref, at, Map(PassRule, wire.rules)))) == spec.routes
  {
    hide ByPath, Granted;
    var rules := Map(PassRule, Map(WireRule, spec.routes));
    forall i | 0 <= i < |spec.routes| ensures AdoptRule(ByPath(rules))(spec.routes[i]) == spec.routes[i] {
      assert rules[i] == PassRule(WireRule(spec.routes[i]));
      RuleIsTabulated(rules, i);
      PassedVersionsStay(spec.routes[i]);
    }
    hide AdoptRule, PassRule, WireRule;
    var out := Adopt(spec.routes, Some(Wire.RouteConfig(ref, at, rules)));
    assert out == Map(AdoptRule(ByPath(rules)), spec.routes);
    assert forall i :: 0 <= i < |out| ==> out[i] == spec.routes[i];
  }
}
