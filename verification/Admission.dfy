/** The cross-field checks of the admission webhook, collected error by error. */
module Admission {
  import opened Wrappers
  import opened Integers
  import opened Routes

  datatype FieldError =
    | HostRequired
    | RoutesRequired
    | PathNotRooted(rule: nat)
    | DuplicatePath(rule: nat)
    | ServiceRequired(rule: nat)
    | BadPort(rule: nat)
    | VersionNameRequired(version: nat)
    | DuplicateVersion(version: nat)
    | WeightOutOfRange(version: nat)
    | WeightsMustSumTo100
    | CanaryNeedsTwoVersions
    | StepOutOfRange(step: nat)
    | StepsMustAscend(step: nat)
    | BlueGreenNeedsTwoVersions
    | UnknownStrategy
    | AttemptsOutOfRange
    | FailureThresholdTooLow
    | HalfOpenRequestsNegative
    | RequestsPerSecondTooLow
    | BurstNegative
    | IssuerRequired
    | SecretNameRequired

  /** Go's unicode.IsSpace. */
  predicate IsSpace(c: char) {
    var u := c as int;
    || 9 <= u <= 13 || u == 32 || u == 0x85 || u == 0xA0 || u == 0x1680
    || 0x2000 <= u <= 0x200A || u == 0x2028 || u == 0x2029 || u == 0x202F || u == 0x205F || u == 0x3000
  }

  predicate IsBlank(s: string) {
    forall i :: 0 <= i < |s| ==> IsSpace(s[i])
  }

  // ---- What admission means ----------------------------------------------------------------

  /** Weights are added as int32. */
  predicate VersionsOk(versions: seq<BackendVersion>) {
    versions != [] ==>
      && (forall i :: 0 <= i < |versions| ==> versions[i].name != "" && 0 <= versions[i].weight <= 100)
      && DistinctNames(versions)
      && Wrap32(WeightSum(versions)) == 100
  }

  predicate StepsOk(steps: seq<int>) {
    && (forall i :: 0 <= i < |steps| ==> 0 <= steps[i] <= 100)
    && (forall i, j :: 0 <= i < j < |steps| ==> steps[i] < steps[j])
  }

  predicate StrategyOk(rule: RouteRule) {
    if rule.strategy == "" || rule.strategy == "WEIGHTED" then true
    else if rule.strategy == "CANARY" then
      |rule.versions| >= 2 && (rule.canarySteps.Some? ==> StepsOk(rule.canarySteps.value))
    else rule.strategy == "BLUE_GREEN" && |rule.versions| == 2
  }

  predicate ResilienceOk(rule: RouteRule) {
    rule.resilience.Some? ==>
      var retries, breaker := rule.resilience.value.retries, rule.resilience.value.circuitBreaker;
      && (retries.Some? ==> 0 <= retries.value.attempts <= 10)
      && (breaker.Some? && breaker.value.enabled ==>
            breaker.value.failureThreshold >= 1 && breaker.value.halfOpenRequests >= 0)
  }

  predicate SecurityOk(rule: RouteRule) {
    rule.security.Some? ==>
      var limit, jwt := rule.security.value.rateLimit, rule.security.value.jwt;
      && (limit.Some? ==> limit.value.requestsPerSecond >= 1 && limit.value.burst >= 0)
      && (jwt.Some? ==>
            !IsBlank(jwt.value.issuer) && (jwt.value.jwksSecretName.Some? ==> !IsBlank(jwt.value.jwksSecretName.value)))
  }

  predicate RuleOk(rule: RouteRule) {
    && RoutePath(rule)[0] == '/'
    && !IsBlank(rule.backend.service)
    && 1 <= rule.backend.port <= 65535
    && VersionsOk(rule.versions)
    && StrategyOk(rule)
    && ResilienceOk(rule)
    && SecurityOk(rule)
  }

  predicate Admissible(spec: RouteSpec) {
    && !IsBlank(spec.host)
    && spec.routes != []
    && DistinctPaths(spec.routes)
    && forall i :: 0 <= i < |spec.routes| ==> RuleOk(spec.routes[i])
  }

  // ---- The checks --------------------------------------------------------------------------

  method ValidateTrafficRoute(spec: RouteSpec) returns (errs: seq<FieldError>)
    ensures errs == [] <==> Admissible(spec)
  {
    hide DistinctPaths, RuleOk, IsBlank, RoutePath;
    NoRoutesAreDistinct();
    errs := [];
    if IsBlank(spec.host) {
      errs := errs + [HostRequired];
    }
    if |spec.routes| == 0 {
      errs := errs + [RoutesRequired];
    }
    var paths: set<string> := {};
    for i := 0 to |spec.routes|
      invariant forall p :: p in paths <==> exists k :: 0 <= k < i && RoutePath(spec.routes[k]) == p
      invariant errs == [] <==>
        && !IsBlank(spec.host) && spec.routes != []
        && DistinctPaths(spec.routes[..i]) && RulesOk(spec.routes[..i])
    {
      var rule := spec.routes[i];
      var before := spec.routes[..i];
      assert spec.routes[..i + 1] == before + [rule];
      DistinctPathsGrow(before, rule);
      RulesOkGrow(before, rule);
      assert RoutePath(rule) !in paths <==> forall k :: 0 <= k < |before| ==> RoutePath(before[k]) != RoutePath(rule);
      var p := RoutePath(rule);
      var ruleErrs := ValidateRule(rule, i, p in paths);
      errs := errs + ruleErrs;
      paths := paths + {p};
    }
    assert spec.routes[..|spec.routes|] == spec.routes;
    assert RulesOk(spec.routes) <==> forall k :: 0 <= k < |spec.routes| ==> RuleOk(spec.routes[k]);
  }

  /** The body of that loop. */
  method ValidateRule(rule: RouteRule, i: nat, duplicate: bool) returns (errs: seq<FieldError>)
    ensures errs == [] <==> RuleOk(rule) && !duplicate
  {
    hide VersionsOk, StrategyOk, ResilienceOk, SecurityOk, IsBlank;
    errs := [];
    if RoutePath(rule)[0] != '/' {
      errs := errs + [PathNotRooted(i)];
    }
    if duplicate {
      errs := errs + [DuplicatePath(i)];
    }
    if IsBlank(rule.backend.service) {
      errs := errs + [ServiceRequired(i)];
    }
    if rule.backend.port < 1 || rule.backend.port > 65535 {
      errs := errs + [BadPort(i)];
    }
    var versionErrs := ValidateVersions(rule.versions);
    var strategyErrs := ValidateStrategy(rule);
    var resilienceErrs := ValidateResilience(rule);
    var securityErrs := ValidateSecurity(rule);
    errs := errs + versionErrs + strategyErrs + resilienceErrs + securityErrs;
  }

  predicate RulesOk(routes: seq<RouteRule>) {
    forall k :: 0 <= k < |routes| ==> RuleOk(routes[k])
  }

  lemma RulesOkGrow(routes: seq<RouteRule>, rule: RouteRule)
    ensures RulesOk(routes + [rule]) <==> RulesOk(routes) && RuleOk(rule)
  {
    hide RuleOk;
    var more := routes + [rule];
    assert more[|routes|] == rule;
    if RulesOk(more) {
      forall k | 0 <= k < |routes| ensures RuleOk(routes[k]) { assert more[k] == routes[k]; }
    }
  }

  lemma NoRoutesAreDistinct()
    ensures DistinctPaths([])
  {
  }

  lemma DistinctPathsGrow(routes: seq<RouteRule>, rule: RouteRule)
    ensures DistinctPaths(routes + [rule]) <==>
      DistinctPaths(routes) && forall k :: 0 <= k < |routes| ==> RoutePath(routes[k]) != RoutePath(rule)
  {
    var more := routes + [rule];
    if DistinctPaths(more) {
      forall i, j | 0 <= i < j < |routes| ensures RoutePath(routes[i]) != RoutePath(routes[j]) {
        assert more[i] == routes[i] && more[j] == routes[j];
      }
      forall k | 0 <= k < |routes| ensures RoutePath(routes[k]) != RoutePath(rule) {
        assert more[k] == routes[k] && more[|routes|] == rule;
      }
    }
  }

  method ValidateVersions(versions: seq<BackendVersion>) returns (errs: seq<FieldError>)
    ensures errs == [] <==> VersionsOk(versions)
  {
    errs := [];
    if |versions| == 0 {
      return;
    }
    var seen: set<string> := {};
    var sum := 0;
    for i := 0 to |versions|
      invariant forall n :: n in seen <==> exists k :: 0 <= k < i && versions[k].name == n
      invariant sum == Wrap32(WeightSum(versions[..i]))
      invariant errs == [] <==>
        && (forall k :: 0 <= k < i ==> versions[k].name != "" && 0 <= versions[k].weight <= 100)
        && DistinctNames(versions[..i])
    {
      var version := versions[i];
      assert versions[..i + 1][..i] == versions[..i];
      WrapOfSum(WeightSum(versions[..i]), version.weight);
      DistinctNamesGrow(versions, i);
      if version.name == "" {
        errs := errs + [VersionNameRequired(i)];
      } else if version.name in seen {
        errs := errs + [DuplicateVersion(i)];
      }
      seen := seen + {version.name};
      if version.weight < 0 || version.weight > 100 {
        errs := errs + [WeightOutOfRange(i)];
      }
      sum := Wrap32(sum + version.weight);
    }
    assert versions[..|versions|] == versions;
    if sum != 100 {
      errs := errs + [WeightsMustSumTo100];
    }
  }

  lemma DistinctNamesGrow(versions: seq<BackendVersion>, i: nat)
    requires i < |versions|
    ensures DistinctNames(versions[..i + 1]) <==>
      DistinctNames(versions[..i]) && forall k :: 0 <= k < i ==> versions[k].name != versions[i].name
  {
    var more := versions[..i + 1];
    if DistinctNames(more) {
      forall a, b | 0 <= a < b < i ensures versions[..i][a].name != versions[..i][b].name {
        assert more[a] == versions[a] && more[b] == versions[b];
      }
      forall k | 0 <= k < i ensures versions[k].name != versions[i].name {
        assert more[k] == versions[k] && more[i] == versions[i];
      }
    }
  }

  method ValidateStrategy(rule: RouteRule) returns (errs: seq<FieldError>)
    ensures errs == [] <==> StrategyOk(rule)
  {
    errs := [];
    if rule.strategy == "" || rule.strategy == "WEIGHTED" {
      return;
    } else if rule.strategy == "CANARY" {
      if |rule.versions| < 2 {
        errs := errs + [CanaryNeedsTwoVersions];
      }
      if rule.canarySteps.Some? {
        var stepErrs := ValidateAscending(rule.canarySteps.value);
        errs := errs + stepErrs;
      }
    } else if rule.strategy == "BLUE_GREEN" {
      if |rule.versions| != 2 {
        errs := errs + [BlueGreenNeedsTwoVersions];
      }
    } else {
      errs := errs + [UnknownStrategy];
    }
  }

  method ValidateAscending(steps: seq<int>) returns (errs: seq<FieldError>)
    ensures errs == [] <==> StepsOk(steps)
  {
    errs := [];
    var prev := -1;
    for i := 0 to |steps|
      invariant prev == if i == 0 then -1 else steps[i - 1]
      invariant errs == [] <==> StepsOk(steps[..i])
    {
      var s := steps[i];
      assert StepsOk(steps[..i + 1]) <==> StepsOk(steps[..i]) && 0 <= s <= 100 && s > prev by {
        StepsGrow(steps, i);
      }
      if s < 0 || s > 100 {
        errs := errs + [StepOutOfRange(i)];
      }
      if s <= prev {
        errs := errs + [StepsMustAscend(i)];
      }
      prev := s;
    }
    assert steps[..|steps|] == steps;
  }

  lemma StepsGrow(steps: seq<int>, i: nat)
    requires i < |steps|
    ensures StepsOk(steps[..i + 1]) <==>
      StepsOk(steps[..i]) && 0 <= steps[i] <= 100 && steps[i] > (if i == 0 then -1 else steps[i - 1])
  {
    var more, before := steps[..i + 1], steps[..i];
    if StepsOk(more) {
      assert more[i] == steps[i];
      forall k | 0 <= k < i ensures 0 <= before[k] <= 100 { assert more[k] == before[k]; }
      forall a, b | 0 <= a < b < i ensures before[a] < before[b] { assert more[a] < more[b]; }
      if i > 0 { assert more[i - 1] < more[i]; }
    } else if StepsOk(before) && 0 <= steps[i] <= 100 && steps[i] > (if i == 0 then -1 else steps[i - 1]) {
      forall a, b | 0 <= a < b <= i ensures more[a] < more[b] {
        if b == i && a < i - 1 { assert before[a] < before[i - 1]; }
      }
    }
  }

  method ValidateResilience(rule: RouteRule) returns (errs: seq<FieldError>)
    ensures errs == [] <==> ResilienceOk(rule)
  {
    errs := [];
    if rule.resilience.None? {
      return;
    }
    var retries := rule.resilience.value.retries;
    if retries.Some? {
      if retries.value.attempts < 0 || retries.value.attempts > 10 {
        errs := errs + [AttemptsOutOfRange];
      }
    }
    var breaker := rule.resilience.value.circuitBreaker;
    if breaker.Some? && breaker.value.enabled {
      if breaker.value.failureThreshold < 1 {
        errs := errs + [FailureThresholdTooLow];
      }
      if breaker.value.halfOpenRequests < 0 {
        errs := errs + [HalfOpenRequestsNegative];
      }
    }
  }

  method ValidateSecurity(rule: RouteRule) returns (errs: seq<FieldError>)
    ensures errs == [] <==> SecurityOk(rule)
  {
    hide IsBlank;
    errs := [];
    if rule.security.None? {
      return;
    }
    var limit := rule.security.value.rateLimit;
    if limit.Some? {
      if limit.value.requestsPerSecond < 1 {
        errs := errs + [RequestsPerSecondTooLow];
      }
      if limit.value.burst < 0 {
        errs := errs + [BurstNegative];
      }
    }
    var jwt := rule.security.value.jwt;
    if jwt.Some? {
      if IsBlank(jwt.value.issuer) {
        errs := errs + [IssuerRequired];
      }
      if jwt.value.jwksSecretName.Some? && IsBlank(jwt.value.jwksSecretName.value) {
        errs := errs + [SecretNameRequired];
      }
    }
  }

  /** With no more versions than the schema admits, the int32 sum is the sum. */
  lemma {:induction false} WeightsReallySumTo100(versions: seq<BackendVersion>)
    requires VersionsOk(versions) && 0 < |versions| <= 16
    ensures WeightSum(versions) == 100
  {
    SumIsBounded(versions);
  }

  lemma {:induction false} SumIsBounded(versions: seq<BackendVersion>)
    requires forall i :: 0 <= i < |versions| ==> 0 <= versions[i].weight <= 100
    ensures 0 <= WeightSum(versions) <= 100 * |versions|
  {
    if versions != [] {
      SumIsBounded(versions[..|versions| - 1]);
    }
  }

  // ---- Limits ------------------------------------------------------------------------------

  /** What a rule that is fine otherwise may be changed to, number by number. */
  lemma PortAndRetryLimits(rule: RouteRule, port: int, timeout: int, attempts: int, perTry: int, retryOn: seq<string>)
    requires RuleOk(rule)
    ensures RuleOk(rule.(backend := rule.backend.(port := port))) <==> 1 <= port <= 65535
    ensures
      var policy := ResiliencePolicy(timeout, Some(RetryPolicy(attempts, perTry, retryOn)), None);
      RuleOk(rule.(resilience := Some(policy))) <==> 0 <= attempts <= 10
  {
    hide VersionsOk, StepsOk, IsBlank;
  }

  lemma BreakerAndRateLimits(rule: RouteRule, breaker: CircuitBreakerPolicy, rate: RateLimitPolicy)
    requires RuleOk(rule)
    ensures RuleOk(rule.(resilience := Some(ResiliencePolicy(0, None, Some(breaker))))) <==>
      !breaker.enabled || (breaker.failureThreshold > 0 && breaker.halfOpenRequests > -1)
    ensures RuleOk(rule.(security := Some(SecurityPolicy(Some(rate), None)))) <==>
      rate.requestsPerSecond > 0 && rate.burst > -1
  {
    hide VersionsOk, StepsOk, IsBlank;
  }

  /** Two versions may split 100 between them as they like, but need names of their own. */
  lemma TwoVersionsMaySplit(rule: RouteRule, a: string, b: string, v: int, w: int)
    requires RuleOk(rule) && rule.strategy != "CANARY"
    ensures
      var versions := [BackendVersion(a, v, map[]), BackendVersion(b, w, map[])];
      RuleOk(rule.(versions := versions, strategy := "WEIGHTED")) <==>
        a != "" && b != "" && a != b && v >= 0 && w >= 0 && v + w == 100
  {
    var versions := [BackendVersion(a, v, map[]), BackendVersion(b, w, map[])];
    var first := versions[..1];
    assert versions[..|versions| - 1] == first && first[..|first| - 1] == [];
    assert WeightSum(first) == v && WeightSum(versions) == v + w;
    assert VersionsOk(versions) <==> a != "" && b != "" && a != b && v >= 0 && w >= 0 && v + w == 100 by {
      assert versions[0].name == a && versions[1].name == b && versions[0].weight == v && versions[1].weight == w;
    }
    hide VersionsOk, WeightSum, IsBlank;
  }

  /** Canary steps ascend within 0..100. */
  lemma CanaryMayStep(rule: RouteRule, x: int, y: int)
    requires RuleOk(rule) && |rule.versions| == 2
    ensures RuleOk(rule.(strategy := "CANARY", canarySteps := Some([x, y]))) <==> 0 <= x < y <= 100
  {
    var steps := [x, y];
    assert StepsOk(steps) <==> 0 <= x < y <= 100 by {
      assert steps[0] == x && steps[1] == y;
    }
    hide VersionsOk, StepsOk, IsBlank;
  }
}
