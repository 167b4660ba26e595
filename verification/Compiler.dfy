/**
 * The route compiler end to end. Source meaning: a request belongs to the rule with the longest
 * matching prefix, and each version has an effective weight. Target meaning: the first matching
 * use_backend of the rendered file, and the server weights behind it.
 */
module Compiler {
  import opened Wrappers
  import opened Sorting
  import opened Sequences
  import opened Routes
  import opened Admission
  import opened Discovery
  import Strings
  import opened EffectiveWeights
  import opened RoutingModel
  import opened HAProxy
  import Wire

  /** resolutions[path] = Resolve(rule), rule by rule. */
  function ResolveAll(s: Snapshot, routes: seq<RouteRule>, versionLabel: string): map<string, Resolution> {
    if routes == [] then map[]
    else
      var rule := routes[|routes| - 1];
      ResolveAll(s, routes[..|routes| - 1], versionLabel)[RoutePath(rule) := ResolutionOf(s, rule, versionLabel)]
  }

  lemma {:induction false} RuleIsResolved(s: Snapshot, routes: seq<RouteRule>, versionLabel: string, i: nat)
    requires DistinctPaths(routes) && i < |routes|
    ensures ResolutionAt(ResolveAll(s, routes, versionLabel), RoutePath(routes[i]))
        == ResolutionOf(s, routes[i], versionLabel)
  {
    if i < |routes| - 1 {
      RuleIsResolved(s, routes[..|routes| - 1], versionLabel, i);
    }
  }

  // ---- Source meaning ----------------------------------------------------------------------

  predicate Covers(rule: RouteRule, path: string) {
    RoutePath(rule) <= path
  }

  /** The rule with the longest matching prefix. */
  function LongestMatch(routes: seq<RouteRule>, path: string): (r: Option<nat>)
    ensures r.Some? ==>
      && r.value < |routes| && Covers(routes[r.value], path)
      && forall j :: 0 <= j < |routes| && Covers(routes[j], path) ==>
           |RoutePath(routes[j])| <= |RoutePath(routes[r.value])|
    ensures r.None? ==> forall j :: 0 <= j < |routes| ==> !Covers(routes[j], path)
  {
    if routes == [] then None
    else
      var before, last := LongestMatch(routes[..|routes| - 1], path), |routes| - 1;
      if !Covers(routes[last], path) then before
      else if before.Some? && |RoutePath(routes[before.value])| >= |RoutePath(routes[last])| then before
      else Some(last)
  }

  /** Two prefixes of one path with the same length are the same prefix. */
  lemma LongestMatchIsUnique(routes: seq<RouteRule>, path: string, i: nat, j: nat)
    requires DistinctPaths(routes) && i < |routes| && j < |routes| && i != j
    requires Covers(routes[i], path) && Covers(routes[j], path)
    ensures |RoutePath(routes[i])| != |RoutePath(routes[j])|
  {
    var p, q := RoutePath(routes[i]), RoutePath(routes[j]);
    assert p == path[..|p|] && q == path[..|q|];
    if i < j {
      assert p != q;
    } else {
      assert q != p;
    }
  }

  // ---- First match is longest match --------------------------------------------------------

  /** The first rule that fires is the longest prefix, whatever order the rules were declared in. */
  lemma FirstMatchIsLongest(host: string, routes: seq<RouteRule>, rules: seq<Rule>, order: seq<Rule>, header: string,
                            path: string)
    requires DistinctPaths(routes) && |rules| == |routes|
    requires forall i :: 0 <= i < |rules| ==> rules[i].path == RoutePath(routes[i])
    requires IsRenderingOrder(rules, order) && RequestHost(header) == host
    ensures
      var k, i := FirstMatch(Emit(host, order).uses, header, path), LongestMatch(routes, path);
      && (k.Some? <==> i.Some?)
      && (k.Some? ==> order[k.value] == rules[i.value])
  {
    var uses := Emit(host, order).uses;
    var k, i := FirstMatch(uses, header, path), LongestMatch(routes, path);
    forall a | 0 <= a < |order| ensures Matches(uses[a], header, path) <==> order[a].path <= path {
      OneOfEachMatches(host, order[a].path, order[a].backendName, header, path);
    }
    hide Emit, FirstMatch, LongestMatch, DistinctPaths, Before, Matches, RequestHost;
    if k.Some? {
      var b := InPermutation(order, rules, k.value);
      assert Covers(routes[b], path);
    }
    if i.Some? {
      var a := InPermutation(rules, order, i.value);
      assert Matches(uses[a], header, path);
      LongestIsFirst(routes, rules, order, path, k.value, a, i.value);
    }
  }

  lemma OneOfEachMatches(host: string, prefix: string, backend: string, header: string, path: string)
    ensures Matches(UseBackend([host], [prefix], backend), header, path)
        <==> RequestHost(header) == host && prefix <= path
  {
    var use := UseBackend([host], [prefix], backend);
    assert use.prefixes[0] == prefix;
  }

  /** A covering rule sorted no later than the longest one is the longest one. */
  lemma LongestIsFirst(routes: seq<RouteRule>, rules: seq<Rule>, order: seq<Rule>, path: string, k: nat, a: nat, i: nat)
    requires DistinctPaths(routes) && |rules| == |routes| && IsRenderingOrder(rules, order)
    requires forall b :: 0 <= b < |rules| ==> rules[b].path == RoutePath(routes[b])
    requires k <= a < |order| && i < |rules| && order[a] == rules[i] && order[k].path <= path
    requires Covers(routes[i], path)
    requires forall j :: 0 <= j < |routes| && Covers(routes[j], path) ==>
      |RoutePath(routes[j])| <= |RoutePath(routes[i])|
    ensures order[k] == rules[i]
  {
    var b := InPermutation(order, rules, k);
    if b != i {
      LongestMatchIsUnique(routes, path, b, i);
    }
  }

  // ---- Servers behind the match ------------------------------------------------------------

  /** No two backends of a file share a name, the fallback included. */
  ghost predicate DistinctBackends(rules: seq<Rule>) {
    && (forall i, j :: 0 <= i < j < |rules| ==> rules[i].backendName != rules[j].backendName)
    && (forall i :: 0 <= i < |rules| ==> rules[i].backendName != NO_ROUTE)
  }

  lemma {:induction false} BackendIsFound(order: seq<Rule>, k: nat)
    requires k < |order|
    requires forall j :: 0 <= j < k ==> order[j].backendName != order[k].backendName
    ensures UpstreamsBehind(Map(PoolOf, Map(BackendOf, order)), order[k].backendName)
        == Map(UpstreamOf, order[k].servers)
  {
    hide Map;
    var pools := Map(PoolOf, Map(BackendOf, order));
    assert forall j :: 0 <= j < |order| ==> pools[j] == Pool(order[j].backendName, Map(UpstreamOf, order[j].servers));
    if k > 0 {
      BackendIsFound(order[1..], k - 1);
      assert pools[1..] == Map(PoolOf, Map(BackendOf, order[1..]));
    }
  }

  lemma NamedBackend(host: string, rules: seq<Rule>, order: seq<Rule>, k: nat)
    requires DistinctBackends(rules) && multiset(order) == multiset(rules) && k < |order|
    ensures UpstreamsBehind(ViewOf(Emit(host, order)).pools, order[k].backendName) == Map(UpstreamOf, order[k].servers)
  {
    var j := FirstNamed(order, order[k].backendName, k);
    BackendIsFound(order, j);
    var a := InPermutation(order, rules, j);
    var b := InPermutation(order, rules, k);
    assert a == b;
    var pools := ViewOf(Emit(host, order)).pools;
    assert pools[1..] == Map(PoolOf, Map(BackendOf, order));
  }

  lemma {:induction false} FirstNamed(order: seq<Rule>, name: string, k: nat) returns (j: nat)
    requires k < |order| && order[k].backendName == name
    ensures j <= k && order[j].backendName == name && forall i :: 0 <= i < j ==> order[i].backendName != name
  {
    j := 0;
    while order[j].backendName != name
      invariant j <= k && forall i :: 0 <= i < j ==> order[i].backendName != name
      decreases k - j
    {
      j := j + 1;
    }
  }

  // ---- Versions of a resolved rule ---------------------------------------------------------

  /** Version j of a rule, or the unnamed bucket of a rule without versions. */
  function Weight(config: Option<Wire.RouteConfig>, rule: RouteRule, j: nat): int
    requires j < |VersionNames(rule)|
  {
    if rule.versions == [] then 100 else EffectiveWeight(config, rule, j)
  }

  lemma {:induction false} SpecWeightOf(versions: seq<BackendVersion>, j: nat)
    requires DistinctNames(versions) && j < |versions|
    ensures SpecWeight(versions, versions[j].name) == versions[j].weight
  {
    if j > 0 {
      assert versions[0].name != versions[j].name;
      forall a, b | 0 <= a < b < |versions[1..]| ensures versions[1..][a].name != versions[1..][b].name {
        assert versions[1..][a] == versions[a + 1] && versions[1..][b] == versions[b + 1];
      }
      SpecWeightOf(versions[1..], j - 1);
    }
  }

  lemma AdoptedWeight(routes: seq<RouteRule>, config: Option<Wire.RouteConfig>, i: nat, j: nat)
    requires i < |routes| && DistinctNames(routes[i].versions) && j < |VersionNames(routes[i])|
    ensures WeightOf(Adopt(routes, config)[i], VersionNames(routes[i])[j]) == Weight(config, routes[i], j)
  {
    AdoptKeepsShape(routes, config);
    var adopted := Adopt(routes, config)[i];
    if routes[i].versions != [] {
      assert forall k :: 0 <= k < |adopted.versions| ==> adopted.versions[k].name == routes[i].versions[k].name;
      SpecWeightOf(adopted.versions, j);
    }
  }

  lemma ResolvedSets(s: Snapshot, rule: RouteRule, versionLabel: string)
    requires DistinctNames(rule.versions) && ResolutionOf(s, rule, versionLabel).serviceFound
    ensures
      var sets := ResolutionOf(s, rule, versionLabel).versions;
      && |sets| == |VersionNames(rule)|
      && DistinctSets(sets)
      && forall j :: 0 <= j < |sets| ==> sets[j].version == VersionNames(rule)[j]
  {
    hide Filter, Sort, FindPort, PortOfSlices, AllEndpoints, Lookup.BucketOf;
  }

  // ---- The theorem -------------------------------------------------------------------------

  /** Every backend Service exists; the reconciler programs nothing otherwise. */
  predicate ServicesFound(s: Snapshot, spec: RouteSpec, versionLabel: string) {
    forall i :: 0 <= i < |spec.routes| ==> ResolutionOf(s, spec.routes[i], versionLabel).serviceFound
  }

  /** What the reconciler hands to the renderer. */
  function Compiled(s: Snapshot, spec: RouteSpec, config: Option<Wire.RouteConfig>, versionLabel: string,
                    naming: Naming): Model {
    Model(spec.host, RulesFor(spec.host, Adopt(spec.routes, config), ResolveAll(s, spec.routes, versionLabel), naming))
  }

  /** The effective weight of every version, in the order of its buckets. */
  function Weights(config: Option<Wire.RouteConfig>, rule: RouteRule): seq<int> {
    seq(|VersionNames(rule)|, j requires 0 <= j < |VersionNames(rule)| => Weight(config, rule, j))
  }

  /** One version's part of a backend: its addresses on the port, sharing its weight. */
  function PartOf(es: EndpointSet, port: int, weight: int): seq<Upstream> {
    seq(|es.addresses|, m requires 0 <= m < |es.addresses| =>
      Upstream(es.addresses[m], port, Shares(weight, |es.addresses|)[m]))
  }

  function Parts(sets: seq<EndpointSet>, port: int, weights: seq<int>): seq<Upstream>
    requires |sets| == |weights|
  {
    if sets == [] then []
    else
      var last := |sets| - 1;
      Parts(sets[..last], port, weights[..last]) + PartOf(sets[last], port, weights[last])
  }

  /** The server lines are, in any order, exactly the parts of the rule's versions. */
  predicate Balances(upstreams: seq<Upstream>, s: Snapshot, rule: RouteRule, weights: seq<int>, versionLabel: string) {
    var res := ResolutionOf(s, rule, versionLabel);
    && |res.versions| == |weights|
    && multiset(upstreams) == multiset(Parts(res.versions, PortOf(rule, res), weights))
  }

  /** One request: the line of its longest prefix fires, and the servers behind it balance as declared. */
  predicate RequestServed(v: View, s: Snapshot, spec: RouteSpec, config: Option<Wire.RouteConfig>,
                          versionLabel: string, header: string, path: string)
  {
    var k, i := FirstMatch(v.uses, header, path), LongestMatch(spec.routes, path);
    && (k.Some? <==> RequestHost(header) == spec.host && i.Some?)
    && (k.Some? ==>
          var use, rule := v.uses[k.value], spec.routes[i.value];
          && use.prefixes == [RoutePath(rule)]
          && Balances(UpstreamsBehind(v.pools, use.backend), s, rule, Weights(config, rule), versionLabel))
  }

  /** A proxy with this view implements the declared route. */
  ghost predicate Implements(v: View, s: Snapshot, spec: RouteSpec, config: Option<Wire.RouteConfig>,
                             versionLabel: string) {
    forall header, path :: RequestServed(v, s, spec, config, versionLabel, header, path)
  }

  /**
   * For every admissible route whose Services exist, every control-plane answer and every order
   * the renderer's sort may leave: requests reach the longest prefix, and the server lines
   * there are exactly the resolved addresses of its versions, sharing each version's effective weight.
   */
  lemma CompilerIsCorrect(s: Snapshot, spec: RouteSpec, config: Option<Wire.RouteConfig>, versionLabel: string,
                          naming: Naming, order: seq<Rule>)
    requires Admissible(spec) && ServicesFound(s, spec, versionLabel)
    requires DistinctBackends(Compiled(s, spec, config, versionLabel, naming).rules)
    requires IsRenderingOrder(Compiled(s, spec, config, versionLabel, naming).rules, order)
    ensures Implements(ViewOf(Emit(spec.host, order)), s, spec, config, versionLabel)
  {
    forall header, path
      ensures RequestServed(ViewOf(Emit(spec.host, order)), s, spec, config, versionLabel, header, path)
    {
      RequestIsServed(s, spec, config, versionLabel, naming, order, header, path);
    }
  }

  /** Collecting servers version by version lists the parts in order. */
  lemma {:induction false} ListedParts(rule: RouteRule, port: int, sets: seq<EndpointSet>, weights: seq<int>)
    requires |sets| == |weights|
    requires forall j :: 0 <= j < |sets| ==> WeightOf(rule, sets[j].version) == weights[j]
    ensures Map(UpstreamOf, Listed(rule, port, sets)) == Parts(sets, port, weights)
  {
    hide WeightOf, Shares;
    if sets != [] {
      var last := |sets| - 1;
      ListedParts(rule, port, sets[..last], weights[..last]);
      MapConcat(UpstreamOf, Listed(rule, port, sets[..last]), ServersOf(rule, port, sets[last]));
      assert Map(UpstreamOf, ServersOf(rule, port, sets[last])) == PartOf(sets[last], port, weights[last]);
    }
  }

  lemma BuiltRuleBalances(s: Snapshot, host: string, routes: seq<RouteRule>, config: Option<Wire.RouteConfig>,
                          versionLabel: string, naming: Naming, i: nat)
    requires DistinctPaths(routes) && i < |routes| && DistinctNames(routes[i].versions)
    requires ResolutionOf(s, routes[i], versionLabel).serviceFound
    ensures
      var rule := RulesFor(host, Adopt(routes, config), ResolveAll(s, routes, versionLabel), naming)[i];
      Balances(Map(UpstreamOf, rule.servers), s, routes[i], Weights(config, routes[i]), versionLabel)
  {
    hide ResolutionOf, WeightOf, Weights, VersionNames, Sort, Listed;
    var res, adopted := ResolutionOf(s, routes[i], versionLabel), Adopt(routes, config)[i];
    RuleIsResolved(s, routes, versionLabel, i);
    AdoptKeepsShape(routes, config);
    AdoptedWeights(s, routes, config, versionLabel, i);
    var listed := Listed(adopted, PortOf(adopted, res), res.versions);
    assert RulesFor(host, Adopt(routes, config), ResolveAll(s, routes, versionLabel), naming)[i].servers
        == Sort(ByName, listed);
    hide Adopt, ResolveAll, RulesFor;
    ListedParts(adopted, PortOf(adopted, res), res.versions, Weights(config, routes[i]));
    MapPermutes(UpstreamOf, Sort(ByName, listed), listed);
  }

  lemma AdoptedWeights(s: Snapshot, routes: seq<RouteRule>, config: Option<Wire.RouteConfig>, versionLabel: string,
                       i: nat)
    requires i < |routes| && DistinctNames(routes[i].versions) && ResolutionOf(s, routes[i], versionLabel).serviceFound
    ensures
      var sets, weights := ResolutionOf(s, routes[i], versionLabel).versions, Weights(config, routes[i]);
      && i < |Adopt(routes, config)| && |sets| == |weights|
      && forall j :: 0 <= j < |sets| ==> WeightOf(Adopt(routes, config)[i], sets[j].version) == weights[j]
  {
    var sets := ResolutionOf(s, routes[i], versionLabel).versions;
    ResolvedSets(s, routes[i], versionLabel);
    AdoptKeepsShape(routes, config);
    hide ResolutionOf, Adopt, WeightOf, VersionNames;
    forall j | 0 <= j < |sets|
      ensures WeightOf(Adopt(routes, config)[i], sets[j].version) == Weights(config, routes[i])[j]
    {
      AdoptedWeight(routes, config, i, j);
    }
  }

  lemma RequestIsServed(s: Snapshot, spec: RouteSpec, config: Option<Wire.RouteConfig>, versionLabel: string,
                        naming: Naming, order: seq<Rule>, header: string, path: string)
    requires Admissible(spec) && ServicesFound(s, spec, versionLabel)
    requires DistinctBackends(Compiled(s, spec, config, versionLabel, naming).rules)
    requires IsRenderingOrder(Compiled(s, spec, config, versionLabel, naming).rules, order)
    ensures RequestServed(ViewOf(Emit(spec.host, order)), s, spec, config, versionLabel, header, path)
  {
    hide Balances, LongestMatch, FirstMatch, UpstreamsBehind, ResolutionOf, VersionsOk, StrategyOk, ResolveAll;
    var c, rules := Emit(spec.host, order), Compiled(s, spec, config, versionLabel, naming).rules;
    var k, i := FirstMatch(c.uses, header, path), LongestMatch(spec.routes, path);
    AdoptKeepsShape(spec.routes, config);
    assert forall a :: 0 <= a < |rules| ==> rules[a].path == RoutePath(spec.routes[a]);
    if RequestHost(header) == spec.host {
      FirstMatchIsLongest(spec.host, spec.routes, rules, order, header, path);
      if k.Some? {
        NamedBackend(spec.host, rules, order, k.value);
        AdmissibleRule(spec, i.value);
        BuiltRuleBalances(s, spec.host, spec.routes, config, versionLabel, naming, i.value);
        hide DistinctBackends, IsRenderingOrder, RuleOk, Adopt, RulesFor;
      }
    }
  }

  lemma AdmissibleRule(spec: RouteSpec, i: nat)
    requires Admissible(spec) && i < |spec.routes|
    ensures DistinctPaths(spec.routes) && DistinctNames(spec.routes[i].versions)
  {
    assert RuleOk(spec.routes[i]);
  }

  /** The file the renderer actually writes is one of those orders. */
  lemma RenderIsCorrect(s: Snapshot, spec: RouteSpec, config: Option<Wire.RouteConfig>, versionLabel: string,
                        naming: Naming)
    requires Admissible(spec) && ServicesFound(s, spec, versionLabel)
    requires DistinctBackends(Compiled(s, spec, config, versionLabel, naming).rules)
    ensures
      var r := Render(Compiled(s, spec, config, versionLabel, naming));
      r.Ok? && Implements(ViewOf(r.value), s, spec, config, versionLabel)
  {
    hide Implements, ViewOf, Emit, ServicesFound, DistinctBackends, IsRenderingOrder, ResolutionOf, Adopt, VersionsOk,
         StrategyOk;
    var m := Compiled(s, spec, config, versionLabel, naming);
    CompiledPathsAreDistinct(s, spec, config, versionLabel, naming);
    hide DistinctPaths, DistinctRulePaths, RulesFor, RuleOk;
    SortRenders(m.rules);
    CompilerIsCorrect(s, spec, config, versionLabel, naming, Sort(NotAfter, m.rules));
  }

  lemma CompiledPathsAreDistinct(s: Snapshot, spec: RouteSpec, config: Option<Wire.RouteConfig>, versionLabel: string,
                                 naming: Naming)
    requires Admissible(spec)
    ensures DistinctRulePaths(Compiled(s, spec, config, versionLabel, naming).rules)
  {
    hide ResolutionOf, RuleOk;
    AdoptKeepsShape(spec.routes, config);
  }

  // ---- What a version gets -----------------------------------------------------------------

  /** What the lines on these addresses weigh together. */
  function WeightOn(upstreams: seq<Upstream>, addresses: set<string>): nat {
    if upstreams == [] then 0
    else
      var last := upstreams[|upstreams| - 1];
      WeightOn(upstreams[..|upstreams| - 1], addresses) + if last.address in addresses then last.weight else 0
  }

  lemma {:induction false} WeightOnConcat(a: seq<Upstream>, b: seq<Upstream>, addresses: set<string>)
    ensures WeightOn(a + b, addresses) == WeightOn(a, addresses) + WeightOn(b, addresses)
  {
    if b == [] {
      assert a + b == a;
    } else {
      assert (a + b)[..|a + b| - 1] == a + b[..|b| - 1];
      WeightOnConcat(a, b[..|b| - 1], addresses);
    }
  }

  lemma {:induction false} WeightOnPermutes(a: seq<Upstream>, b: seq<Upstream>, addresses: set<string>)
    requires multiset(a) == multiset(b)
    ensures WeightOn(a, addresses) == WeightOn(b, addresses)
  {
    assert |multiset(a)| == |a| && |multiset(b)| == |b|;
    if a != [] {
      var i := Split(a, b);
      WeightOnPermutes(a[..|a| - 1], b[..i] + b[i + 1..], addresses);
      WeightOnConcat(b[..i], b[i + 1..], addresses);
      WeightOnConcat(b[..i] + [b[i]], b[i + 1..], addresses);
      WeightOnConcat(b[..i], [b[i]], addresses);
      assert [b[i]][..0] == [];
    }
  }

  function AddressesOf(es: EndpointSet): set<string> {
    set a | a in es.addresses
  }

  /** No address serves two versions. */
  ghost predicate DisjointAddresses(sets: seq<EndpointSet>) {
    forall i, j :: 0 <= i < j < |sets| ==> AddressesOf(sets[i]) !! AddressesOf(sets[j])
  }

  lemma {:induction false} WeightOnPart(part: seq<Upstream>, shares: seq<nat>, addresses: set<string>)
    requires |part| == |shares| && forall m :: 0 <= m < |part| ==> part[m].weight == shares[m]
    ensures (forall m :: 0 <= m < |part| ==> part[m].address in addresses) ==> WeightOn(part, addresses) == Sum(shares)
    ensures (forall m :: 0 <= m < |part| ==> part[m].address !in addresses) ==> WeightOn(part, addresses) == 0
  {
    if part != [] {
      WeightOnPart(part[..|part| - 1], shares[..|shares| - 1], addresses);
    }
  }

  lemma {:induction false} WeightOnOthers(sets: seq<EndpointSet>, port: int, weights: seq<int>, addresses: set<string>)
    requires |sets| == |weights| && forall v :: 0 <= v < |sets| ==> AddressesOf(sets[v]) !! addresses
    ensures WeightOn(Parts(sets, port, weights), addresses) == 0
  {
    hide AddressesOf, WeightOn, PartOf;
    if sets == [] {
      assert Parts(sets, port, weights) == [];
      NothingWeighs(addresses);
    } else {
      var last := |sets| - 1;
      WeightOnOthers(sets[..last], port, weights[..last], addresses);
      WeightOnConcat(Parts(sets[..last], port, weights[..last]), PartOf(sets[last], port, weights[last]), addresses);
      PartWeighs(sets[last], port, weights[last], addresses);
    }
  }

  lemma NothingWeighs(addresses: set<string>)
    ensures WeightOn([], addresses) == 0
  {
  }

  lemma {:induction false} WeightOnOneVersion(sets: seq<EndpointSet>, port: int, weights: seq<int>, j: nat)
    requires |sets| == |weights| && j < |sets| && DisjointAddresses(sets)
    ensures WeightOn(Parts(sets, port, weights), AddressesOf(sets[j])) == Aggregate(weights[j], |sets[j].addresses|)
  {
    hide AddressesOf, WeightOn, PartOf, Aggregate;
    var last, addresses := |sets| - 1, AddressesOf(sets[j]);
    WeightOnConcat(Parts(sets[..last], port, weights[..last]), PartOf(sets[last], port, weights[last]), addresses);
    PartWeighs(sets[last], port, weights[last], addresses);
    if j < last {
      WeightOnOneVersion(sets[..last], port, weights[..last], j);
    } else {
      WeightOnOthers(sets[..last], port, weights[..last], addresses);
    }
  }

  lemma PartWeighs(es: EndpointSet, port: int, weight: int, addresses: set<string>)
    ensures addresses == AddressesOf(es)
        ==> WeightOn(PartOf(es, port, weight), addresses) == Aggregate(weight, |es.addresses|)
    ensures AddressesOf(es) !! addresses ==> WeightOn(PartOf(es, port, weight), addresses) == 0
  {
    SharesSumTo(weight, |es.addresses|);
    var part := PartOf(es, port, weight);
    assert forall m :: 0 <= m < |part| ==> part[m].address in AddressesOf(es);
    WeightOnPart(part, Shares(weight, |es.addresses|), addresses);
    hide Shares, Aggregate, WeightOn;
  }

  /**
   * Behind a proxy that implements a route, a version of the rule a request reaches is served by lines
   * on its own addresses that weigh 0 if its weight is, else max(w, n) up to 256 for each of them.
   */
  lemma VersionsGetTheirWeight(v: View, s: Snapshot, spec: RouteSpec, config: Option<Wire.RouteConfig>,
                               versionLabel: string, header: string, path: string, i: nat, j: nat)
    requires Implements(v, s, spec, config, versionLabel)
    requires RequestHost(header) == spec.host && LongestMatch(spec.routes, path) == Some(i)
    requires
      var sets := ResolutionOf(s, spec.routes[i], versionLabel).versions;
      j < |sets| && DisjointAddresses(sets)
    ensures
      var es, k := ResolutionOf(s, spec.routes[i], versionLabel).versions[j], FirstMatch(v.uses, header, path);
      && j < |VersionNames(spec.routes[i])| && k.Some?
      && WeightOn(UpstreamsBehind(v.pools, v.uses[k.value].backend), AddressesOf(es))
         == Aggregate(Weight(config, spec.routes[i], j), |es.addresses|)
  {
    assert RequestServed(v, s, spec, config, versionLabel, header, path);
    hide ResolutionOf, LongestMatch, FirstMatch, UpstreamsBehind, Aggregate, Weight, Parts, WeightOn, VersionNames;
    var rule, res := spec.routes[i], ResolutionOf(s, spec.routes[i], versionLabel);
    var behind := UpstreamsBehind(v.pools, v.uses[FirstMatch(v.uses, header, path).value].backend);
    WeightOnPermutes(behind, Parts(res.versions, PortOf(rule, res), Weights(config, rule)),
                     AddressesOf(res.versions[j]));
    WeightOnOneVersion(res.versions, PortOf(rule, res), Weights(config, rule), j);
  }

  // ---- Server names ------------------------------------------------------------------------

  lemma NamesDifferPermutes(a: seq<Server>, b: seq<Server>)
    requires NamesDiffer(a) && multiset(a) == multiset(b)
    ensures NamesDiffer(b)
  {
    forall i, j | 0 <= i < j < |b| ensures b[i].name != b[j].name {
      var p := InPermutation(b, a, i);
      var q := ElsewhereInPermutation(b, a, i, j, p);
      assert a[p] == b[i] && a[q] == b[j] && p != q;
    }
  }

  /** Two places of a sequence have two places in every permutation. */
  lemma ElsewhereInPermutation<T>(b: seq<T>, a: seq<T>, i: nat, j: nat, p: nat) returns (q: nat)
    requires multiset(a) == multiset(b) && i < j < |b| && p < |a| && a[p] == b[i]
    ensures q < |a| && q != p && a[q] == b[j]
  {
    var a', b' := a[..p] + a[p + 1..], b[..i] + b[i + 1..];
    WithoutOne(a, p);
    WithoutOne(b, i);
    assert b'[j - 1] == b[j];
    q := InPermutation(b', a', j - 1);
    q := if q < p then q else q + 1;
  }

  lemma WithoutOne<T>(s: seq<T>, i: nat)
    requires i < |s|
    ensures multiset(s[..i] + s[i + 1..]) == multiset(s) - multiset{s[i]}
  {
    assert s == s[..i] + [s[i]] + s[i + 1..];
  }

  /** Within a compiled backend every server has its own name. */
  lemma ServersAreDistinct(s: Snapshot, spec: RouteSpec, config: Option<Wire.RouteConfig>, versionLabel: string,
                           naming: Naming, i: nat)
    requires Admissible(spec) && i < |spec.routes| && ServicesFound(s, spec, versionLabel)
    ensures NamesDiffer(Compiled(s, spec, config, versionLabel, naming).rules[i].servers)
  {
    var rule, adopted := spec.routes[i], Adopt(spec.routes, config)[i];
    assert RuleOk(rule);
    RuleIsResolved(s, spec.routes, versionLabel, i);
    ResolvedSets(s, rule, versionLabel);
    AdoptKeepsShape(spec.routes, config);
    var res := ResolutionOf(s, rule, versionLabel);
    assert DistinctPrefixes(res.versions);
    hide ResolutionOf, Adopt, ResolveAll, RuleOk, NamesDiffer, Listed;
    var listed := Listed(adopted, PortOf(adopted, res), res.versions);
    ServerNamesAreDistinct(adopted, PortOf(adopted, res), res.versions);
    NamesDifferPermutes(listed, Sort(ByName, listed));
  }

  lemma NameOrder()
    ensures TotalPreorder(ByName)
  {
    StringOrder();
    forall x: Server, y: Server, z: Server ensures ByName(x, y) && ByName(y, z) ==> ByName(x, z) {}
  }

  /** Strictly ascending by name, so that the same servers are always written in the same order. */
  lemma ServersAscend(s: Snapshot, spec: RouteSpec, config: Option<Wire.RouteConfig>, versionLabel: string,
                      naming: Naming, i: nat)
    requires Admissible(spec) && i < |spec.routes| && ServicesFound(s, spec, versionLabel)
    ensures
      var servers := Compiled(s, spec, config, versionLabel, naming).rules[i].servers;
      forall a, b :: 0 <= a < b < |servers| ==> Strings.Less(servers[a].name, servers[b].name)
  {
    ServersAreDistinct(s, spec, config, versionLabel, naming, i);
    NameOrder();
    var rule, adopted := spec.routes[i], Adopt(spec.routes, config)[i];
    var res := ResolutionAt(ResolveAll(s, spec.routes, versionLabel), RoutePath(adopted));
    SortSorts(ByName, Listed(adopted, PortOf(adopted, res), res.versions));
    assert Compiled(s, spec, config, versionLabel, naming).rules[i].servers
        == Sort(ByName, Listed(adopted, PortOf(adopted, res), res.versions));
    hide Compiled, Adopt, ResolveAll, Listed, Sort, Strings.Leq;
  }

  // ---- What is caught ----------------------------------------------------------------------

  /** A rule catches the paths it names the beginning of, and without a path all rooted ones. */
  lemma PathsAreCaught(routes: seq<RouteRule>, i: nat, path: string)
    requires i < |routes|
    requires if routes[i].path == "" then path != "" && path[0] == '/' else routes[i].path <= path
    ensures LongestMatch(routes, path).Some?
  {
    assert Covers(routes[i], path);
  }

  /** And no others: whichever rule is reached names the beginning of the path, or the path is rooted. */
  lemma OnlyTheyAreCaught(routes: seq<RouteRule>, path: string)
    ensures
      var i := LongestMatch(routes, path);
      i.Some? ==>
        if routes[i.value].path == "" then path != "" && path[0] == '/' else routes[i.value].path <= path
  {
  }

  // ---- "First match wins" ------------------------------------------------------------------

  /** The resource's documentation: rules are tried in the order they are listed. */
  function FirstListed(routes: seq<RouteRule>, path: string): (r: Option<nat>)
    ensures r.Some? ==>
      && r.value < |routes| && Covers(routes[r.value], path)
      && forall j :: 0 <= j < r.value ==> !Covers(routes[j], path)
    ensures r.None? ==> forall j :: 0 <= j < |routes| ==> !Covers(routes[j], path)
  {
    if routes == [] then None
    else
      var before, last := FirstListed(routes[..|routes| - 1], path), |routes| - 1;
      if before.Some? then before else if Covers(routes[last], path) then Some(last) else None
  }

  /** No rule is listed after a shorter prefix of it. */
  ghost predicate SpecificFirst(routes: seq<RouteRule>) {
    forall i, j :: 0 <= i < j < |routes| ==> !(RoutePath(routes[i]) < RoutePath(routes[j]))
  }

  /** The documented rule and the compiled one agree on every request exactly when specific rules come first. */
  lemma ListOrderWinsIff(routes: seq<RouteRule>)
    requires DistinctPaths(routes)
    ensures (forall path :: FirstListed(routes, path) == LongestMatch(routes, path)) <==> SpecificFirst(routes)
  {
    if SpecificFirst(routes) {
      forall path ensures FirstListed(routes, path) == LongestMatch(routes, path) {
        ListOrderAgrees(routes, path);
      }
    } else {
      var i, j :| 0 <= i < j < |routes| && RoutePath(routes[i]) < RoutePath(routes[j]);
      var path := RoutePath(routes[j]);
      assert Covers(routes[i], path) && Covers(routes[j], path);
      assert FirstListed(routes, path).value <= i;
      var longest := LongestMatch(routes, path).value;
      if longest != j {
        LongestMatchIsUnique(routes, path, longest, j);
      }
    }
  }

  lemma ListOrderAgrees(routes: seq<RouteRule>, path: string)
    requires DistinctPaths(routes) && SpecificFirst(routes)
    ensures FirstListed(routes, path) == LongestMatch(routes, path)
  {
    var f, l := FirstListed(routes, path), LongestMatch(routes, path);
    if f.Some? && l.Some? && f.value != l.value {
      LongestMatchIsUnique(routes, path, f.value, l.value);
    }
  }
}
