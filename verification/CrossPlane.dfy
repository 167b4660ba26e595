/**
 * Both planes together: what the control plane grants at registration, and what the controller
 * makes of it. A canary moves weight between its two versions and touches nothing else.
 */
module CrossPlane {
  import opened Wrappers
  import opened Sequences
  import opened Routes
  import opened Admission
  import opened Discovery
  import opened EffectiveWeights
  import opened RoutingModel
  import opened HAProxy
  import opened Compiler
  import opened CompiledFile
  import opened ProxyReader
  import opened Registration
  import opened Store
  import Wire
  import Canary
  import StoreRuns
  import opened CanaryRuns
  import opened Cluster
  import opened Served

  /** The canary pair in force for a path, if any. */
  function Override(t: Tables, p: PolicyRow, path: string): Option<map<string, int>>
    requires Canary.SoundCanaries(t)
  {
    Canary.EffectiveWeights(t, p.id, path)
  }

  // ---- What one registration grants ---------------------------------------------------------

  /** The stored policy behind a registration, and the configuration read back from it. */
  lemma RegistrationReads(t: Tables, wire: Wire.RouteSpec, id: Uuid) returns (p: PolicyRow)
    requires Canary.SoundCanaries(t) && StoreRuns.KeysAreUnique(t.policies)
    ensures p.spec == wire
    ensures
      var (config, t') := Register(t, wire, id);
      && TryGet(t', Some(wire.ref.namespace), wire.ref.name) == Some(p)
      && config.Some? && config.value.rules == EffectiveRules(t', p)
      && config.value.ref == wire.ref && config.value.generation == p.generation
      && t'.canaries == t.canaries
  {
    StoreRuns.UpsertStores(t, Some(wire.ref.namespace), wire.ref.name, wire, id);
    var t' := Register(t, wire, id).1;
    p := TryGet(t', Some(wire.ref.namespace), wire.ref.name).value;
  }

  lemma EffectiveRulesAreDistinct(t: Tables, p: PolicyRow)
    requires Canary.SoundCanaries(t) && Wire.Unambiguous(p.spec.rules)
    ensures
      var rules := EffectiveRules(t, p);
      && (forall a, b :: 0 <= a < b < |rules| ==> rules[a].path != rules[b].path)
      && forall i :: 0 <= i < |rules| ==>
           forall a, b :: 0 <= a < b < |rules[i].weights| ==> rules[i].weights[a].version != rules[i].weights[b].version
  {
  }

  function Overridden(pair: Option<map<string, int>>, v: BackendVersion): int {
    if pair.Some? && v.name in pair.value then pair.value[v.name] else v.weight
  }

  /** Granting and adopting compose to the override: declared weight unless the canary pair names the version. */
  lemma AdoptedWeightIsTheOverride(t: Tables, p: PolicyRow, config: Wire.RouteConfig, spec: RouteSpec,
                                   ref: Wire.RouteRef, generation: int, i: nat, j: nat)
    requires Canary.SoundCanaries(t) && p.spec == WireSpec(ref, generation, spec)
    requires config.rules == EffectiveRules(t, p)
    requires DistinctPaths(spec.routes) && forall k :: 0 <= k < |spec.routes| ==> DistinctNames(spec.routes[k].versions)
    requires i < |spec.routes| && j < |spec.routes[i].versions|
    ensures EffectiveWeight(Some(config), spec.routes[i], j)
         == Overridden(Override(t, p, RoutePath(spec.routes[i])), spec.routes[i].versions[j])
  {
    WireIsUnambiguous(spec.routes);
    EffectiveRulesAreDistinct(t, p);
    var rules := EffectiveRules(t, p);
    assert p.spec.rules[i] == WireRule(spec.routes[i]);
    assert rules[i].path == RoutePath(spec.routes[i]);
    RuleIsTabulated(rules, i);
    WeightIsGranted(rules[i].weights, j);
    assert rules[i].weights[j].version == spec.routes[i].versions[j].name;
  }

  // ---- Conservation ------------------------------------------------------------------------

  /** What naming `name` with weight w adds to the sum of the declared weights. */
  function Gain(versions: seq<BackendVersion>, name: string, w: int): int {
    if versions == [] then 0
    else
      var last := versions[|versions| - 1];
      Gain(versions[..|versions| - 1], name, w) + if last.name == name then w - last.weight else 0
  }

  lemma {:induction false} GainOf(versions: seq<BackendVersion>, w: int, j: nat)
    requires DistinctNames(versions) && j < |versions|
    ensures Gain(versions, versions[j].name, w) == w - versions[j].weight
  {
    var front := versions[..|versions| - 1];
    if j < |front| {
      GainOf(front, w, j);
    } else {
      NoGain(front, versions[j].name, w);
    }
  }

  lemma {:induction false} NoGain(versions: seq<BackendVersion>, name: string, w: int)
    requires forall i :: 0 <= i < |versions| ==> versions[i].name != name
    ensures Gain(versions, name, w) == 0
  {
    if versions != [] {
      NoGain(versions[..|versions| - 1], name, w);
    }
  }

  /** A rule's versions after the override. */
  lemma {:induction false} OverriddenSum(before: seq<BackendVersion>, after: seq<BackendVersion>, row: CanaryRow)
    requires Canary.Sound(row) && row.canaryVersion != row.stableVersion
    requires |after| == |before|
    requires forall j :: 0 <= j < |before| ==> after[j].weight == Overridden(Some(Canary.EffectivePair(row)), before[j])
    ensures WeightSum(after) == WeightSum(before)
      + Gain(before, row.canaryVersion, Canary.WeightOf(row))
      + Gain(before, row.stableVersion, 100 - Canary.WeightOf(row))
  {
    if before != [] {
      OverriddenSum(before[..|before| - 1], after[..|after| - 1], row);
    }
  }

  lemma SumOfTwo(versions: seq<BackendVersion>)
    requires |versions| == 2
    ensures WeightSum(versions) == versions[0].weight + versions[1].weight
  {
    var one := versions[..1];
    assert WeightSum(one) == WeightSum(one[..0]) + one[0].weight;
  }

  /**
   * The pair takes 100 between its two versions and every other version keeps its declared weight,
   * so an admissible rule still sums to 100 exactly when the others declare nothing.
   */
  lemma OverrideIsConserved(t: Tables, p: PolicyRow, config: Wire.RouteConfig, spec: RouteSpec, ref: Wire.RouteRef,
                            generation: int, i: nat, canary: nat, stable: nat)
    requires Canary.SoundCanaries(t) && p.spec == WireSpec(ref, generation, spec)
    requires config.rules == EffectiveRules(t, p)
    requires Admissible(spec) && i < |spec.routes| && |spec.routes[i].versions| <= 16
    requires (p.id, RoutePath(spec.routes[i])) in t.canaries
    requires canary < |spec.routes[i].versions| && stable < |spec.routes[i].versions|
    requires
      var row := t.canaries[(p.id, RoutePath(spec.routes[i]))];
      && row.canaryVersion != row.stableVersion
      && spec.routes[i].versions[canary].name == row.canaryVersion
      && spec.routes[i].versions[stable].name == row.stableVersion
    ensures
      var declared, adopted := spec.routes[i].versions, Adopt(spec.routes, Some(config))[i].versions;
      var others := 100 - declared[canary].weight - declared[stable].weight;
      && WeightSum(adopted) == 100 + others
      && (WeightSum(adopted) == 100 <==> others == 0)
      && (|declared| == 2 ==> WeightSum(adopted) == 100)
  {
    var rule, row := spec.routes[i], t.canaries[(p.id, RoutePath(spec.routes[i]))];
    var adopted := Adopt(spec.routes, Some(config))[i].versions;
    assert RuleOk(rule) && VersionsOk(rule.versions);
    AdoptedVersions(t, p, config, spec, ref, generation, i);
    hide RuleOk, VersionsOk, Adopt, WeightSum, EffectiveRules, WireSpec, Admissible, Overridden;
    OverriddenSum(rule.versions, adopted, row);
    DeclaredSum(rule.versions, row, canary, stable);
  }

  lemma DeclaredSum(versions: seq<BackendVersion>, row: CanaryRow, canary: nat, stable: nat)
    requires Canary.Sound(row) && VersionsOk(versions) && |versions| <= 16
    requires canary < |versions| && stable < |versions| && canary != stable
    requires versions[canary].name == row.canaryVersion && versions[stable].name == row.stableVersion
    ensures WeightSum(versions) == 100
    ensures Gain(versions, row.canaryVersion, Canary.WeightOf(row)) == Canary.WeightOf(row) - versions[canary].weight
    ensures Gain(versions, row.stableVersion, 100 - Canary.WeightOf(row))
        == 100 - Canary.WeightOf(row) - versions[stable].weight
    ensures |versions| == 2 ==> versions[canary].weight + versions[stable].weight == 100
  {
    hide Canary.Sound, Canary.WeightOf, Gain, WeightSum;
    GainOf(versions, Canary.WeightOf(row), canary);
    GainOf(versions, 100 - Canary.WeightOf(row), stable);
    WeightsReallySumTo100(versions);
    hide VersionsOk;
    if |versions| == 2 {
      SumOfTwo(versions);
    }
  }

  lemma AdoptedVersions(t: Tables, p: PolicyRow, config: Wire.RouteConfig, spec: RouteSpec, ref: Wire.RouteRef,
                        generation: int, i: nat)
    requires Canary.SoundCanaries(t) && p.spec == WireSpec(ref, generation, spec)
    requires config.rules == EffectiveRules(t, p) && Admissible(spec) && i < |spec.routes|
    ensures
      var declared, adopted := spec.routes[i].versions, Adopt(spec.routes, Some(config))[i].versions;
      && |adopted| == |declared|
      && forall j :: 0 <= j < |declared| ==>
           adopted[j].weight == Overridden(Override(t, p, RoutePath(spec.routes[i])), declared[j])
  {
    var rule, adopted := spec.routes[i], Adopt(spec.routes, Some(config))[i].versions;
    AdoptKeepsShape(spec.routes, Some(config));
    assert forall k :: 0 <= k < |spec.routes| ==> RuleOk(spec.routes[k]);
    forall j | 0 <= j < |rule.versions|
      ensures adopted[j].weight == Overridden(Override(t, p, RoutePath(rule)), rule.versions[j])
    {
      AdoptedWeightIsTheOverride(t, p, config, spec, ref, generation, i, j);
    }
  }

  // ---- From the ladder to the servers ------------------------------------------------------

  /** Every version's weight after the override. */
  function OverriddenWeights(pair: Option<map<string, int>>, rule: RouteRule): seq<int> {
    if rule.versions == [] then [100]
    else seq(|rule.versions|, j requires 0 <= j < |rule.versions| => Overridden(pair, rule.versions[j]))
  }

  /**
   * After registering with a canary in force, every request finds the line of its longest prefix,
   * and behind it exactly its versions' addresses: sharing the rung on the canary's, the rest on
   * the stable version's, and the declared weight on anyone else's.
   */
  lemma CanaryReachesTheServers(t: Tables, ref: Wire.RouteRef, generation: int, spec: RouteSpec, id: Uuid,
                                s: Snapshot, versionLabel: string, naming: Naming, i: nat, header: string, path: string)
    requires Canary.SoundCanaries(t) && StoreRuns.KeysAreUnique(t.policies)
    requires Admissible(spec) && ServicesFound(s, spec, versionLabel)
    requires
      var config := Register(t, WireSpec(ref, generation, spec), id).0;
      DistinctBackends(Compiled(s, spec, config, versionLabel, naming).rules)
    requires RequestHost(header) == spec.host && LongestMatch(spec.routes, path) == Some(i)
    ensures
      var (config, t') := Register(t, WireSpec(ref, generation, spec), id);
      var p := TryGet(t', Some(ref.namespace), ref.name);
      var rendered := Render(Compiled(s, spec, config, versionLabel, naming));
      && p.Some? && rendered.Ok?
      && var v := ViewOf(rendered.value);
      && var k := FirstMatch(v.uses, header, path);
      && k.Some? && v.uses[k.value].prefixes == [RoutePath(spec.routes[i])]
      && Balances(UpstreamsBehind(v.pools, v.uses[k.value].backend), s, spec.routes[i],
                  OverriddenWeights(Override(t', p.value, RoutePath(spec.routes[i])), spec.routes[i]), versionLabel)
  {
    hide Register, Compiled, Render, LongestMatch, FirstMatch, RuleOk, UpstreamsBehind, Overridden, Balances,
         DistinctBackends, ServicesFound, Override, TryGet, Admissible;
    var wire := WireSpec(ref, generation, spec);
    var p := RegistrationReads(t, wire, id);
    var (config, t') := Register(t, wire, id);
    RenderIsCorrect(s, spec, config, versionLabel, naming);
    var c := Render(Compiled(s, spec, config, versionLabel, naming)).value;
    assert RequestServed(ViewOf(c), s, spec, config, versionLabel, header, path);
    RegisteredWeights(t, ref, generation, spec, id, i);
    hide OverriddenWeights, Weights;
  }

  /**
   * The same down to the file: whatever text the proxy holds that the no-op test takes for the
   * rendered one, in plain words the proxy reads exactly that from it.
   */
  lemma CanaryReachesTheProxy(t: Tables, ref: Wire.RouteRef, generation: int, spec: RouteSpec, id: Uuid, s: Snapshot,
                              versionLabel: string, naming: Naming, skeleton: string, text: string,
                              i: nat, header: string, path: string)
    requires Canary.SoundCanaries(t) && StoreRuns.KeysAreUnique(t.policies)
    requires Admissible(spec) && ServicesFound(s, spec, versionLabel) && PlainRoute(spec)
    requires
      var config := Register(t, WireSpec(ref, generation, spec), id).0;
      && PlainSurroundings(skeleton, s, spec, config, versionLabel, naming)
      && var rendered := Render(Compiled(s, spec, config, versionLabel, naming));
      rendered.Ok? && Normal(text) == Normal(Text(skeleton, rendered.value))
    requires RequestHost(header) == spec.host && LongestMatch(spec.routes, path) == Some(i)
    ensures
      var t' := Register(t, WireSpec(ref, generation, spec), id).1;
      var p, v := TryGet(t', Some(ref.namespace), ref.name), Read(text);
      && p.Some? && v.Some?
      && var k := FirstMatch(v.value.uses, header, path);
      && k.Some? && v.value.uses[k.value].prefixes == [RoutePath(spec.routes[i])]
      && Balances(UpstreamsBehind(v.value.pools, v.value.uses[k.value].backend), s, spec.routes[i],
                  OverriddenWeights(Override(t', p.value, RoutePath(spec.routes[i])), spec.routes[i]), versionLabel)
  {
    hide Register, Compiled, Render, LongestMatch, FirstMatch, UpstreamsBehind, Balances, DistinctBackends,
         ServicesFound, Override, TryGet, Admissible, PlainRoute, Text, Normal, Read, ViewOf, OverriddenWeights;
    var config := Register(t, WireSpec(ref, generation, spec), id).0;
    PlainRouteIsServed(skeleton, s, spec, config, versionLabel, naming, text);
    assert RequestServed(Read(text).value, s, spec, config, versionLabel, header, path);
    RegisteredWeights(t, ref, generation, spec, id, i);
  }

  lemma RegisteredWeights(t: Tables, ref: Wire.RouteRef, generation: int, spec: RouteSpec, id: Uuid, i: nat)
    requires Canary.SoundCanaries(t) && StoreRuns.KeysAreUnique(t.policies) && Admissible(spec) && i < |spec.routes|
    ensures
      var (config, t') := Register(t, WireSpec(ref, generation, spec), id);
      var p := TryGet(t', Some(ref.namespace), ref.name);
      && p.Some?
      && Weights(config, spec.routes[i])
           == OverriddenWeights(Override(t', p.value, RoutePath(spec.routes[i])), spec.routes[i])
  {
    hide Register, RuleOk, Overridden, Override, TryGet, Admissible;
    var p := RegistrationReads(t, WireSpec(ref, generation, spec), id);
    var (config, t') := Register(t, WireSpec(ref, generation, spec), id);
    var rule := spec.routes[i];
    AdmissibleIsDistinct(spec);
    forall j | 0 <= j < |rule.versions|
      ensures Weight(config, rule, j) == Overridden(Override(t', p, RoutePath(rule)), rule.versions[j])
    {
      AdoptedWeightIsTheOverride(t', p, config.value, spec, ref, generation, i, j);
    }
    assert Weights(config, rule) == OverriddenWeights(Override(t', p, RoutePath(rule)), rule);
  }

  lemma AdmissibleIsDistinct(spec: RouteSpec)
    requires Admissible(spec)
    ensures DistinctPaths(spec.routes) && forall k :: 0 <= k < |spec.routes| ==> DistinctNames(spec.routes[k].versions)
  {
    assert forall k :: 0 <= k < |spec.routes| ==> RuleOk(spec.routes[k]);
  }

  // ---- From the calls to the pods ----------------------------------------------------------

  /** Under unique keys the policy in force is the one a registration finds again. */
  lemma OverrideSurvives(t: Tables, wire: Wire.RouteSpec, id: Uuid, path: string, stable: string, canary: string,
                         weight: int)
    requires Canary.SoundCanaries(t) && StoreRuns.KeysAreUnique(t.policies) && stable != canary
    requires InForce(t, (NamespaceOrDefault(Some(wire.ref.namespace)), wire.ref.name), path, stable, canary, weight)
    ensures
      var t' := Register(t, wire, id).1;
      var p := TryGet(t', Some(wire.ref.namespace), wire.ref.name);
      p.Some? && Override(t', p.value, path) == Some(map[canary := weight, stable := 100 - weight])
  {
    var key, op := (NamespaceOrDefault(Some(wire.ref.namespace)), wire.ref.name), StoreRuns.RegisterOp(wire, id);
    var k :| 0 <= k < |t.policies| && KeyOf(t.policies[k]) == key &&
             Canary.EffectiveWeights(t, t.policies[k].id, path) == Some(map[canary := weight, stable := 100 - weight]);
    var i := Find(t.policies, key).value;
    assert i == k;
    var p := RegistrationReads(t, wire, id);
    FoundStays(t, op, key);
    var t' := Register(t, wire, id).1;
    assert t' == StoreRuns.Step(t, op);
    assert p.id == t.policies[k].id;
    hide Register, StoreRuns.Step, Find, NamespaceOrDefault, StoreRuns.KeysAreUnique;
  }

  lemma StartsIsAStart(t: Tables, op: StoreRuns.Op)
    requires Starts(t, op)
    ensures op.StartOp?
  {
  }

  /**
   * What the calls asked for is what a registration grants: the canary the weight its promotes and
   * rollbacks call for, the stable version the rest, and every other version what it declares.
   */
  lemma GrantFollowsTheCalls(before: seq<StoreRuns.Op>, start: StoreRuns.Op, rest: seq<StoreRuns.Op>,
                             ref: Wire.RouteRef, generation: int, spec: RouteSpec, id: Uuid, i: nat, j: nat)
    requires StoreRuns.FreshIds(before + [start] + rest) && Starts(StoreRuns.After(before), start)
    requires Calm(rest, start.Target(), start.path) && start.stable != start.canary
    requires start.Target() == (NamespaceOrDefault(Some(ref.namespace)), ref.name)
    requires Admissible(spec) && i < |spec.routes| && j < |spec.routes[i].versions|
    requires start.path == RoutePath(spec.routes[i])
    ensures
      var config := Register(StoreRuns.After(before + [start] + rest), WireSpec(ref, generation, spec), id).0;
      var v, weight := spec.routes[i].versions[j], WeightCalledFor(start, MovesOf(rest, start.Target(), start.path));
      EffectiveWeight(config, spec.routes[i], j) ==
        if v.name == start.canary then weight else if v.name == start.stable then 100 - weight else v.weight
  {
    hide Register, InForce, WeightCalledFor, MovesOf, StoreRuns.After, StoreRuns.FreshIds, Starts, Calm, Told, Since,
         Admissible, Override, StoreRuns.KeysAreUnique, EffectiveWeight, NamespaceOrDefault;
    StartsIsAStart(StoreRuns.After(before), start);
    var t, wire := StoreRuns.After(before + [start] + rest), WireSpec(ref, generation, spec);
    var weight := WeightCalledFor(start, MovesOf(rest, start.Target(), start.path));
    WeightsFollowTheCalls(before, start, rest);
    StoreRuns.EveryRunIsHistorical(before + [start] + rest);
    OverrideSurvives(t, wire, id, start.path, start.stable, start.canary, weight);
    var p := RegistrationReads(t, wire, id);
    var (config, t') := Register(t, wire, id);
    AdmissibleIsDistinct(spec);
    AdoptedWeightIsTheOverride(t', p, config.value, spec, ref, generation, i, j);
  }

  /** What the calls ask a version to weigh. */
  function CalledFor(start: StoreRuns.Op, rest: seq<StoreRuns.Op>, v: BackendVersion): int
    requires start.StartOp?
  {
    var weight := WeightCalledFor(start, MovesOf(rest, start.Target(), start.path));
    if v.name == start.canary then weight else if v.name == start.stable then 100 - weight else v.weight
  }

  /**
   * From the calls to the pods: after starting a canary and any moves, registering a plain route and
   * programming what was granted, a request for the canary's rule reaches a line behind which every
   * ready pod of every version has its part of the weight the calls ask for, on a port of its own.
   */
  lemma CallsReachThePods(before: seq<StoreRuns.Op>, start: StoreRuns.Op, rest: seq<StoreRuns.Op>,
                          ref: Wire.RouteRef, generation: int, spec: RouteSpec, id: Uuid, s: Snapshot,
                          versionLabel: string, naming: Naming, skeleton: string, text: string,
                          i: nat, header: string, path: string)
    requires StoreRuns.FreshIds(before + [start] + rest) && Starts(StoreRuns.After(before), start)
    requires Calm(rest, start.Target(), start.path) && start.stable != start.canary
    requires start.Target() == (NamespaceOrDefault(Some(ref.namespace)), ref.name)
    requires Admissible(spec) && ServicesFound(s, spec, versionLabel) && PlainRoute(spec)
    requires
      var config := Register(StoreRuns.After(before + [start] + rest), WireSpec(ref, generation, spec), id).0;
      && PlainSurroundings(skeleton, s, spec, config, versionLabel, naming)
      && var rendered := Render(Compiled(s, spec, config, versionLabel, naming));
      rendered.Ok? && Normal(text) == Normal(Text(skeleton, rendered.value))
    requires RequestHost(header) == spec.host && LongestMatch(spec.routes, path) == Some(i)
    requires start.path == RoutePath(spec.routes[i]) && spec.routes[i].versions != []
    ensures
      var v := Read(text);
      && v.Some?
      && var k := FirstMatch(v.value.uses, header, path);
      && k.Some?
      && var lines := UpstreamsBehind(v.value.pools, v.value.uses[k.value].backend);
      && (forall u :: u in lines ==> ReachedOn(s, spec.routes[i], u.port))
      && forall j: nat, a :: j < |spec.routes[i].versions| && ServedAt(s, spec.routes[i], versionLabel, j, a) ==>
           exists u :: u in lines && u.address == a &&
             IsPart(u.weight, CalledFor(start, rest, spec.routes[i].versions[j]),
               |Pods(s, spec.routes[i], versionLabel, j)|)
  {
    hide Register, StoreRuns.After, StoreRuns.FreshIds, Starts, Calm, Admissible, NamespaceOrDefault, ServicesFound,
         PlainRoute, PlainSurroundings, Render, Compiled, Normal, Text, Read, LongestMatch, FirstMatch,
         UpstreamsBehind, ReachedOn, ServedAt, IsPart, CalledFor, Pods, EffectiveWeight;
    StartsIsAStart(StoreRuns.After(before), start);
    var rule := spec.routes[i];
    var config := Register(StoreRuns.After(before + [start] + rest), WireSpec(ref, generation, spec), id).0;
    FileReachesPods(skeleton, s, spec, config, versionLabel, naming, text, header, path);
    forall j: nat | j < |rule.versions|
      ensures VersionWeight(config, rule, j) == CalledFor(start, rest, rule.versions[j])
    {
      GrantIsCalledFor(before, start, rest, ref, generation, spec, id, i, j);
    }
  }

  lemma GrantIsCalledFor(before: seq<StoreRuns.Op>, start: StoreRuns.Op, rest: seq<StoreRuns.Op>, ref: Wire.RouteRef,
                         generation: int, spec: RouteSpec, id: Uuid, i: nat, j: nat)
    requires StoreRuns.FreshIds(before + [start] + rest) && Starts(StoreRuns.After(before), start)
    requires Calm(rest, start.Target(), start.path) && start.stable != start.canary
    requires start.Target() == (NamespaceOrDefault(Some(ref.namespace)), ref.name)
    requires Admissible(spec) && i < |spec.routes| && j < |spec.routes[i].versions|
    requires start.path == RoutePath(spec.routes[i])
    ensures
      var config := Register(StoreRuns.After(before + [start] + rest), WireSpec(ref, generation, spec), id).0;
      VersionWeight(config, spec.routes[i], j) == CalledFor(start, rest, spec.routes[i].versions[j])
  {
    hide Register, StoreRuns.After, StoreRuns.FreshIds, Starts, Calm, Admissible, NamespaceOrDefault, MovesOf,
         WeightCalledFor, EffectiveWeight;
    GrantFollowsTheCalls(before, start, rest, ref, generation, spec, id, i, j);
  }
}
