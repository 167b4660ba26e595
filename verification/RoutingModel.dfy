/** The proxy-agnostic routing model: weights split over concrete servers. */
module RoutingModel {
  import opened Wrappers
  import opened Integers
  import opened Strings
  import opened Sorting
  import opened Sequences
  import opened Routes
  import opened Discovery

  const MAX_SERVER_WEIGHT := 256

  datatype Server = Server(name: string, address: string, port: int, weight: nat, version: string)

  /** spec.resilience in HAProxy's own terms. */
  datatype Resilience = Resilience(timeoutMs: int, connectTimeoutMs: int, retries: int, retryOn: seq<string>)

  datatype Rule = Rule(path: string, backendName: string, resilience: Option<Resilience>, servers: seq<Server>)

  datatype Model = Model(host: string, rules: seq<Rule>)

  // ---- apportion ---------------------------------------------------------------------------

  function Share(weight: int, n: nat, i: nat): nat
    requires n > 0 && weight > 0
  {
    var w := weight / n + if i < weight % n then 1 else 0;
    if w < 1 then 1 else if w > MAX_SERVER_WEIGHT then MAX_SERVER_WEIGHT else w
  }

  function Shares(weight: int, n: nat): seq<nat> {
    if weight <= 0 then seq(n, _ => 0) else seq(n, i requires 0 <= i < n => Share(weight, n, i))
  }

  method Apportion(versionWeight: int, n: nat) returns (out: array<nat>)
    ensures fresh(out) && out[..] == Shares(versionWeight, n)
  {
    out := new nat[n](_ => 0);
    if n == 0 || versionWeight <= 0 {
      return;
    }
    var base, rem := versionWeight / n, versionWeight % n;
    for i := 0 to n
      invariant forall k :: 0 <= k < i ==> out[k] == Share(versionWeight, n, k)
    {
      var w := base;
      if i < rem {
        w := w + 1;
      }
      if w < 1 {
        w := 1;
      }
      if w > MAX_SERVER_WEIGHT {
        w := MAX_SERVER_WEIGHT;
      }
      out[i] := w;
    }
  }

  function Sum(xs: seq<nat>): nat {
    if xs == [] then 0 else Sum(xs[..|xs| - 1]) + xs[|xs| - 1]
  }

  function Min(a: int, b: int): int {
    if a < b then a else b
  }

  function Max(a: int, b: int): int {
    if a < b then b else a
  }

  /** What a version's servers weigh together. */
  function Aggregate(weight: int, n: nat): nat {
    if weight <= 0 || n == 0 then 0 else Min(Max(weight, n), MAX_SERVER_WEIGHT * n)
  }

  /** A staircase: `extra` steps of base + 1, the rest of base. */
  lemma {:induction false} StaircaseSum(xs: seq<nat>, base: nat, extra: nat, k: nat)
    requires k <= |xs|
    requires forall i :: 0 <= i < |xs| ==> xs[i] == base + if i < extra then 1 else 0
    ensures Sum(xs[..k]) == base * k + Min(extra, k)
  {
    if k > 0 {
      assert xs[..k][..k - 1] == xs[..k - 1];
      StaircaseSum(xs, base, extra, k - 1);
      assert base * k == base * (k - 1) + base;
    }
  }

  /** The closed form, in terms of quotient and remainder. */
  lemma AggregateOf(weight: int, n: nat, base: nat, rem: nat)
    requires n > 0 && weight > 0 && rem < n && weight == base * n + rem
    ensures base < 1 ==> Aggregate(weight, n) == 1 * n
    ensures base >= MAX_SERVER_WEIGHT ==> Aggregate(weight, n) == MAX_SERVER_WEIGHT * n
    ensures 1 <= base < MAX_SERVER_WEIGHT ==> Aggregate(weight, n) == base * n + rem
  {
    Scaled(base, 0, n);
    Scaled(MAX_SERVER_WEIGHT, base, n);
    Scaled(1, base, n);
    Scaled(base, MAX_SERVER_WEIGHT - 1, n);
    var product := base * n;
    assert weight == product + rem;
  }

  /** Some first servers get one unit more than the rest; the total has a closed form. */
  lemma SharesAreAStaircase(weight: int, n: nat) returns (step: nat, extra: nat)
    requires n > 0 && weight > 0
    ensures forall i :: 0 <= i < n ==> Shares(weight, n)[i] == step + if i < extra then 1 else 0
    ensures step * n + Min(extra, n) == Aggregate(weight, n)
  {
    var base, rem := weight / n, weight % n;
    AggregateOf(weight, n, base, rem);
    assert forall i :: 0 <= i < n ==> Shares(weight, n)[i] == Share(weight, n, i);
    hide Shares, Aggregate;
    if base < 1 {
      step, extra := 1, 0;
    } else if base >= MAX_SERVER_WEIGHT {
      step, extra := MAX_SERVER_WEIGHT, 0;
    } else {
      step, extra := base, rem;
    }
  }

  lemma {:induction false} SharesSumTo(weight: int, n: nat)
    ensures Sum(Shares(weight, n)) == Aggregate(weight, n)
  {
    var xs := Shares(weight, n);
    assert xs[..n] == xs;
    if weight <= 0 {
      StaircaseSum(xs, 0, 0, n);
    } else if n > 0 {
      var step, extra := SharesAreAStaircase(weight, n);
      hide Shares, Aggregate;
      StaircaseSum(xs, step, extra, n);
    }
  }

  /** Fair: in 1..256, never increasing along the list, and no two servers differ by more than one. */
  lemma SharesAreFair(weight: int, n: nat)
    requires weight > 0
    ensures
      var xs := Shares(weight, n);
      && (forall i :: 0 <= i < n ==> 1 <= xs[i] <= MAX_SERVER_WEIGHT)
      && (forall i, j :: 0 <= i < j < n ==> xs[j] <= xs[i] <= xs[j] + 1)
  {
  }

  /** The documentation promises an exact sum for every replica count; it holds in this range only. */
  lemma SumIsExactIff(weight: int, n: nat)
    requires weight >= 0
    ensures Sum(Shares(weight, n)) == weight <==> weight == 0 || n <= weight <= MAX_SERVER_WEIGHT * n
  {
    SharesSumTo(weight, n);
  }

  // ---- buildResilience ---------------------------------------------------------------------

  /** HAProxy's words for the resource's retry conditions; "" for an unknown one. */
  function TokenOf(condition: string): string {
    if condition == "5xx" then "500 501 502 503 504"
    else if condition == "gateway-error" then "502 503 504"
    else if condition == "connect-failure" then "conn-failure"
    else if condition == "reset" then "empty-response conn-failure"
    else if condition == "retriable-status-codes" then "all-retryable-errors"
    else ""
  }

  function Tokens(conditions: seq<string>): seq<string> {
    if conditions == [] then []
    else
      var before, token := Tokens(conditions[..|conditions| - 1]), TokenOf(conditions[|conditions| - 1]);
      if token == "" || token in before then before else before + [token]
  }

  function ResilienceOf(r: Option<ResiliencePolicy>): Option<Resilience> {
    match r
    case None => None
    case Some(p) =>
      var timeout := Milliseconds(p.timeout);
      if p.retries.None? then Some(Resilience(timeout, timeout, 0, []))
      else
        var perTry := Milliseconds(p.retries.value.perTryTimeout);
        Some(Resilience(if perTry > 0 then perTry else timeout, timeout, p.retries.value.attempts,
                        Tokens(p.retries.value.retryOn)))
  }

  method BuildResilience(r: Option<ResiliencePolicy>) returns (out: Option<Resilience>)
    ensures out == ResilienceOf(r)
  {
    if r.None? {
      return None;
    }
    var p := r.value;
    var resilience := Resilience(Milliseconds(p.timeout), Milliseconds(p.timeout), 0, []);
    if p.retries.Some? {
      resilience := resilience.(retries := p.retries.value.attempts);
      var perTry := Milliseconds(p.retries.value.perTryTimeout);
      if perTry > 0 {
        resilience := resilience.(timeoutMs := perTry);
      }
      var retryOn, seen: set<string> := [], {};
      var conditions := p.retries.value.retryOn;
      for i := 0 to |conditions|
        invariant retryOn == Tokens(conditions[..i])
        invariant forall t :: t in seen <==> t in retryOn
      {
        assert conditions[..i + 1][..i] == conditions[..i];
        var token := TokenOf(conditions[i]);
        if token == "" || token in seen {
          continue;
        }
        seen := seen + {token};
        retryOn := retryOn + [token];
      }
      assert conditions[..|conditions|] == conditions;
      resilience := resilience.(retryOn := retryOn);
    }
    return Some(resilience);
  }

  /** Every known condition is translated, nothing else is, and no word is repeated. */
  lemma {:induction false} TokensTranslateEachOnce(conditions: seq<string>)
    ensures forall t :: t in Tokens(conditions) <==>
      t != "" && exists i :: 0 <= i < |conditions| && TokenOf(conditions[i]) == t
    ensures forall i, j :: 0 <= i < j < |Tokens(conditions)| ==> Tokens(conditions)[i] != Tokens(conditions)[j]
  {
    hide TokenOf;
    if conditions != [] {
      var before := conditions[..|conditions| - 1];
      TokensTranslateEachOnce(before);
      forall t
        ensures t in Tokens(conditions) <==> t != "" && exists i :: 0 <= i < |conditions| && TokenOf(conditions[i]) == t
      {
        if exists i :: 0 <= i < |conditions| && TokenOf(conditions[i]) == t {
          var i :| 0 <= i < |conditions| && TokenOf(conditions[i]) == t;
          assert i < |before| ==> TokenOf(before[i]) == t;
        }
        if t in Tokens(before) {
          var i :| 0 <= i < |before| && TokenOf(before[i]) == t;
          assert TokenOf(conditions[i]) == t;
        }
      }
    }
  }

  // ---- Build -------------------------------------------------------------------------------

  function SpecWeight(versions: seq<BackendVersion>, version: string): int {
    if versions == [] then 0
    else if versions[0].name == version then versions[0].weight
    else SpecWeight(versions[1..], version)
  }

  /** A rule without versions sends everything to its one bucket. */
  function WeightOf(rule: RouteRule, version: string): int {
    if rule.versions == [] then 100 else SpecWeight(rule.versions, version)
  }

  function ServerPrefix(version: string): string {
    if version == "" then "ep" else version
  }

  function ServerName(version: string, j: nat): string {
    ServerPrefix(version) + ['-'] + Decimal(j)
  }

  function PortOf(rule: RouteRule, res: Resolution): int {
    if res.endpointPort == 0 then rule.backend.port else res.endpointPort
  }

  function ServersOf(rule: RouteRule, port: int, es: EndpointSet): seq<Server> {
    var shares := Shares(WeightOf(rule, es.version), |es.addresses|);
    seq(|es.addresses|, j requires 0 <= j < |es.addresses| =>
      Server(ServerName(es.version, j), es.addresses[j], port, shares[j], es.version))
  }

  function Listed(rule: RouteRule, port: int, versions: seq<EndpointSet>): seq<Server> {
    if versions == [] then []
    else Listed(rule, port, versions[..|versions| - 1]) + ServersOf(rule, port, versions[|versions| - 1])
  }

  predicate ByName(a: Server, b: Server) {
    Leq(a.name, b.name)
  }

  type Naming = (string, string) -> string

  function RuleFor(host: string, rule: RouteRule, res: Resolution, naming: Naming): Rule {
    Rule(RoutePath(rule), naming(host, RoutePath(rule)), ResilienceOf(rule.resilience),
         Sort(ByName, Listed(rule, PortOf(rule, res), res.versions)))
  }

  function ResolutionAt(resolutions: map<string, Resolution>, path: string): Resolution {
    if path in resolutions then resolutions[path] else UNRESOLVED
  }

  function RulesFor(host: string, routes: seq<RouteRule>, resolutions: map<string, Resolution>,
                    naming: Naming): seq<Rule> {
    seq(|routes|, i requires 0 <= i < |routes| =>
      RuleFor(host, routes[i], ResolutionAt(resolutions, RoutePath(routes[i])), naming))
  }

  method Build(host: string, routes: seq<RouteRule>, resolutions: map<string, Resolution>, naming: Naming)
    returns (m: Model)
    ensures m == Model(host, RulesFor(host, routes, resolutions, naming))
  {
    hide Sort, Listed, PortOf, ResilienceOf;
    ghost var all := RulesFor(host, routes, resolutions, naming);
    var rules := [];
    for i := 0 to |routes|
      invariant rules == all[..i]
    {
      var rule := routes[i];
      var path := if rule.path == "" then "/" else rule.path;
      var res := if path in resolutions then resolutions[path] else UNRESOLVED;
      var servers := CollectServers(rule, res);
      var resilience := BuildResilience(rule.resilience);
      rules := rules + [Rule(path, naming(host, path), resilience, Sort(ByName, servers))];
      assert all[i] == RuleFor(host, rule, res, naming);
    }
    return Model(host, rules);
  }

  /** The middle loop of Build: the servers of every version, in bucket order. */
  method CollectServers(rule: RouteRule, res: Resolution) returns (servers: seq<Server>)
    ensures servers == Listed(rule, PortOf(rule, res), res.versions)
  {
    var port := res.endpointPort;
    if port == 0 {
      port := rule.backend.port;
    }
    servers := [];
    for v := 0 to |res.versions|
      invariant servers == Listed(rule, port, res.versions[..v])
    {
      assert res.versions[..v + 1][..v] == res.versions[..v];
      var more := AddServers(rule, port, res.versions[v]);
      servers := servers + more;
    }
    assert res.versions[..|res.versions|] == res.versions;
  }

  /** The innermost loop of Build: the servers of one version. */
  method AddServers(rule: RouteRule, port: int, es: EndpointSet) returns (servers: seq<Server>)
    ensures servers == ServersOf(rule, port, es)
  {
    var weights := Apportion(WeightOf(rule, es.version), |es.addresses|);
    servers := [];
    for j := 0 to |es.addresses|
      invariant weights[..] == Shares(WeightOf(rule, es.version), |es.addresses|)
      invariant servers == ServersOf(rule, port, es)[..j]
    {
      var w := weights[j];
      assert w == weights[..][j];
      servers := servers + [Server(ServerName(es.version, j), es.addresses[j], port, w, es.version)];
    }
  }

  predicate DistinctSets(versions: seq<EndpointSet>) {
    forall i, j :: 0 <= i < j < |versions| ==> versions[i].version != versions[j].version
  }

  // ---- Server names ------------------------------------------------------------------------

  ghost predicate NamesDiffer(servers: seq<Server>) {
    forall i, j :: 0 <= i < j < |servers| ==> servers[i].name != servers[j].name
  }

  /** Prefixes tell versions apart unless "ep" is used beside the unnamed version. */
  predicate DistinctPrefixes(versions: seq<EndpointSet>) {
    forall i, j :: 0 <= i < j < |versions| ==> ServerPrefix(versions[i].version) != ServerPrefix(versions[j].version)
  }

  lemma {:induction false} ListedNames(rule: RouteRule, port: int, versions: seq<EndpointSet>, k: nat)
    requires k < |Listed(rule, port, versions)|
    ensures exists v, j: nat ::
      0 <= v < |versions| && Listed(rule, port, versions)[k].name == ServerName(versions[v].version, j)
  {
    var before, es := versions[..|versions| - 1], versions[|versions| - 1];
    var first := Listed(rule, port, before);
    if k < |first| {
      ListedNames(rule, port, before, k);
      var v, j: nat :| 0 <= v < |before| && first[k].name == ServerName(before[v].version, j);
      assert versions[v] == before[v];
    } else {
      assert Listed(rule, port, versions)[k].name == ServerName(versions[|versions| - 1].version, k - |first|);
    }
  }

  lemma NamesOfOneSet(rule: RouteRule, port: int, es: EndpointSet)
    ensures NamesDiffer(ServersOf(rule, port, es))
  {
    var servers := ServersOf(rule, port, es);
    forall i, j | 0 <= i < j < |servers| ensures servers[i].name != servers[j].name {
      if servers[i].name == servers[j].name {
        SeparatedNamesAreInjective(ServerPrefix(es.version), i, ServerPrefix(es.version), j, '-');
      }
    }
  }

  /** "v1-0", "v1-1", "v1-1-0", ...: within a backend every server has its own name. */
  lemma {:induction false} ServerNamesAreDistinct(rule: RouteRule, port: int, versions: seq<EndpointSet>)
    requires DistinctPrefixes(versions)
    ensures NamesDiffer(Listed(rule, port, versions))
  {
    if versions != [] {
      var before, es := versions[..|versions| - 1], versions[|versions| - 1];
      ServerNamesAreDistinct(rule, port, before);
      NamesOfOneSet(rule, port, es);
      var first, more := Listed(rule, port, before), ServersOf(rule, port, es);
      forall i, j | 0 <= i < |first| && 0 <= j < |more| ensures first[i].name != more[j].name {
        ListedNames(rule, port, before, i);
        var v, k: nat :| 0 <= v < |before| && first[i].name == ServerName(before[v].version, k);
        assert versions[v] == before[v];
        if first[i].name == more[j].name {
          SeparatedNamesAreInjective(ServerPrefix(before[v].version), k, ServerPrefix(es.version), j, '-');
        }
      }
    }
  }
}
