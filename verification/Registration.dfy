/** Effective configuration, route registration, and the weight changes it broadcasts. */
module Registration {
  import opened Wrappers
  import opened Wire
  import opened Store
  import Canary
  import PolicyService

  // ---- RouteConfigService ------------------------------------------------------------------

  function EffectiveVersion(override: Option<map<string, int>>, v: RouteVersionSpec): VersionWeight {
    VersionWeight(v.name, if override.Some? && v.name in override.value then override.value[v.name] else v.weight)
  }

  function EffectiveRule(override: Option<map<string, int>>, rule: RulePolicy): RuleWeights {
    RuleWeights(rule.path, seq(|rule.versions|, i requires 0 <= i < |rule.versions| =>
                                 EffectiveVersion(override, rule.versions[i])))
  }

  function EffectiveRules(t: Tables, policy: PolicyRow): seq<RuleWeights>
    requires Canary.SoundCanaries(t)
  {
    var rules := policy.spec.rules;
    seq(|rules|, i requires 0 <= i < |rules| =>
      EffectiveRule(Canary.EffectiveWeights(t, policy.id, rules[i].path), rules[i]))
  }

  class RouteConfigService {
    const db: PolicyService.Database

    constructor (db: PolicyService.Database)
      ensures this.db == db
    {
      this.db := db;
    }

    method Build(policy: PolicyRow) returns (rules: seq<RuleWeights>)
      requires Canary.SoundCanaries(db.View())
      ensures rules == EffectiveRules(db.View(), policy)
    {
      rules := [];
      for i := 0 to |policy.spec.rules|
        invariant rules == EffectiveRules(db.View(), policy)[..i]
      {
        var rule := policy.spec.rules[i];
        var override := Canary.EffectiveWeights(db.View(), policy.id, rule.path);
        var weights := [];
        for j := 0 to |rule.versions|
          invariant weights == EffectiveRule(override, rule).weights[..j]
        {
          var version := rule.versions[j];
          var weight := version.weight;
          if override.Some? && version.name in override.value {
            weight := override.value[version.name];
          }
          weights := weights + [VersionWeight(version.name, weight)];
        }
        assert weights == EffectiveRule(override, rule).weights;
        assert EffectiveRules(db.View(), policy)[i] == RuleWeights(rule.path, weights);
        rules := rules + [RuleWeights(rule.path, weights)];
      }
    }

    method Get(namespace: Option<string>, name: string) returns (config: Option<RouteConfig>)
      requires Canary.SoundCanaries(db.View())
      ensures config == ConfigOf(db.View(), namespace, name)
    {
      var policy := TryGet(db.View(), namespace, name);
      if policy.None? {
        return None;
      }
      var rules := Build(policy.value);
      return Some(RouteConfig(RouteRef(policy.value.namespace, policy.value.name), policy.value.generation, rules));
    }
  }

  function ConfigOf(t: Tables, namespace: Option<string>, name: string): Option<RouteConfig>
    requires Canary.SoundCanaries(t)
  {
    match TryGet(t, namespace, name)
    case None => None
    case Some(p) => Some(RouteConfig(RouteRef(p.namespace, p.name), p.generation, EffectiveRules(t, p)))
  }

  // ---- Diffing weights ---------------------------------------------------------------------

  type WeightTable = map<string, map<string, int>>

  function VersionWeights(versions: seq<RouteVersionSpec>): map<string, int> {
    if versions == [] then map[]
    else
      var v := versions[|versions| - 1];
      VersionWeights(versions[..|versions| - 1])[v.name := v.weight]
  }

  /** Later rules and versions shadow earlier ones of the same name. */
  function WeightsOf(rules: seq<RulePolicy>): WeightTable {
    if rules == [] then map[]
    else
      var rule := rules[|rules| - 1];
      WeightsOf(rules[..|rules| - 1])[rule.path := VersionWeights(rule.versions)]
  }

  function WeightAt(weights: WeightTable, path: string, version: string): Option<int> {
    if path in weights && version in weights[path] then Some(weights[path][version]) else None
  }

  function VersionChange(ref: RouteRef, path: string, prior: map<string, int>, v: RouteVersionSpec): seq<Decision> {
    if v.name in prior && prior[v.name] != v.weight
    then [Decision(ref, path, v.name, prior[v.name], v.weight, "spec-updated")]
    else []
  }

  function VersionChanges(ref: RouteRef, path: string, prior: map<string, int>, versions: seq<RouteVersionSpec>)
    : seq<Decision>
  {
    if versions == [] then []
    else
      VersionChanges(ref, path, prior, versions[..|versions| - 1]) +
      VersionChange(ref, path, prior, versions[|versions| - 1])
  }

  function OldWeights(prior: WeightTable, path: string): map<string, int> {
    if path in prior then prior[path] else map[]
  }

  function Changes(ref: RouteRef, prior: WeightTable, rules: seq<RulePolicy>): seq<Decision> {
    if rules == [] then []
    else
      var rule := rules[|rules| - 1];
      Changes(ref, prior, rules[..|rules| - 1]) +
      VersionChanges(ref, rule.path, OldWeights(prior, rule.path), rule.versions)
  }

  /** A reader that follows the decision stream. */
  function Follow(weights: WeightTable, decisions: seq<Decision>): WeightTable {
    if decisions == [] then weights
    else
      var before, d := Follow(weights, decisions[..|decisions| - 1]), decisions[|decisions| - 1];
      if WeightAt(before, d.path, d.version).Some?
      then before[d.path := before[d.path][d.version := d.newWeight]]
      else before
  }

  lemma {:induction false} FollowConcat(weights: WeightTable, a: seq<Decision>, b: seq<Decision>)
    ensures Follow(weights, a + b) == Follow(Follow(weights, a), b)
  {
    if b == [] {
      assert a + b == a;
    } else {
      var ab := a + b;
      assert ab[..|ab| - 1] == a + b[..|b| - 1];
      FollowConcat(weights, a, b[..|b| - 1]);
    }
  }

  /** Where both sides know a version the new weight wins; everywhere else the old one stays. */
  function Merged(prior: Option<int>, next: Option<int>): Option<int> {
    if prior.Some? && next.Some? then next else prior
  }

  lemma {:induction false} VersionChangesPatch(
      weights: WeightTable, ref: RouteRef, path: string, prior: map<string, int>, versions: seq<RouteVersionSpec>)
    requires DistinctVersions(versions)
    requires OldWeights(weights, path) == prior
    ensures
      var after := Follow(weights, VersionChanges(ref, path, prior, versions));
      forall p, v :: WeightAt(after, p, v) ==
        if p == path then Merged(WeightAt(weights, p, v), WeightAt(map[path := VersionWeights(versions)], p, v))
        else WeightAt(weights, p, v)
  {
    if versions != [] {
      var before, v := versions[..|versions| - 1], versions[|versions| - 1];
      VersionChangesPatch(weights, ref, path, prior, before);
      FollowConcat(weights, VersionChanges(ref, path, prior, before), VersionChange(ref, path, prior, v));
      NamesOfVersions(before, v.name);
      var middle := Follow(weights, VersionChanges(ref, path, prior, before));
      FollowOne(middle, ref, path, prior, v);
      assert WeightAt(middle, path, v.name) == WeightAt(weights, path, v.name);
    }
  }

  lemma FollowOne(weights: WeightTable, ref: RouteRef, path: string, prior: map<string, int>, v: RouteVersionSpec)
    requires WeightAt(weights, path, v.name) == if v.name in prior then Some(prior[v.name]) else None
    ensures
      var after := Follow(weights, VersionChange(ref, path, prior, v));
      forall p, n :: WeightAt(after, p, n) ==
        if p == path && n == v.name && v.name in prior then Some(v.weight) else WeightAt(weights, p, n)
  {
    var ds := VersionChange(ref, path, prior, v);
    if ds != [] {
      assert ds[..|ds| - 1] == [];
      assert Follow(weights, []) == weights;
    }
  }

  lemma {:induction false} NamesOfVersions(versions: seq<RouteVersionSpec>, name: string)
    ensures name in VersionWeights(versions) <==> exists i :: 0 <= i < |versions| && versions[i].name == name
  {
    if versions != [] {
      var before := versions[..|versions| - 1];
      NamesOfVersions(before, name);
      if exists i :: 0 <= i < |versions| && versions[i].name == name {
        var i :| 0 <= i < |versions| && versions[i].name == name;
        if i < |before| {
          assert before[i].name == name;
        }
      }
    }
  }

  lemma {:induction false} PathsOfRules(rules: seq<RulePolicy>, path: string)
    ensures path in WeightsOf(rules) <==> exists i :: 0 <= i < |rules| && rules[i].path == path
  {
    if rules != [] {
      var before := rules[..|rules| - 1];
      PathsOfRules(before, path);
      if exists i :: 0 <= i < |rules| && rules[i].path == path {
        var i :| 0 <= i < |rules| && rules[i].path == path;
        if i < |before| {
          assert before[i].path == path;
        }
      }
    }
  }

  /** Following the broadcast takes the old weights to the new ones wherever both specs have the version. */
  lemma {:induction false} ChangesPatch(ref: RouteRef, prior: WeightTable, rules: seq<RulePolicy>)
    requires Unambiguous(rules)
    ensures
      var after := Follow(prior, Changes(ref, prior, rules));
      forall p, v :: WeightAt(after, p, v) == Merged(WeightAt(prior, p, v), WeightAt(WeightsOf(rules), p, v))
  {
    if rules != [] {
      var before, rule := rules[..|rules| - 1], rules[|rules| - 1];
      ChangesPatch(ref, prior, before);
      var first := Changes(ref, prior, before);
      var more := VersionChanges(ref, rule.path, OldWeights(prior, rule.path), rule.versions);
      FollowConcat(prior, first, more);
      PathsOfRules(before, rule.path);
      var middle := Follow(prior, first);
      assert rule.path !in WeightsOf(before);
      FollowKeepsPaths(prior, first);
      assert OldWeights(middle, rule.path) == OldWeights(prior, rule.path) by {
        forall v ensures WeightAt(middle, rule.path, v) == WeightAt(prior, rule.path, v) {}
        SameWeightsSameMap(middle, prior, rule.path);
      }
      VersionChangesPatch(middle, ref, rule.path, OldWeights(prior, rule.path), rule.versions);
    }
  }

  lemma {:induction false} FollowKeepsPaths(weights: WeightTable, decisions: seq<Decision>)
    ensures Follow(weights, decisions).Keys == weights.Keys
  {
    if decisions != [] {
      FollowKeepsPaths(weights, decisions[..|decisions| - 1]);
    }
  }

  lemma SameWeightsSameMap(a: WeightTable, b: WeightTable, path: string)
    requires a.Keys == b.Keys
    requires forall v :: WeightAt(a, path, v) == WeightAt(b, path, v)
    ensures OldWeights(a, path) == OldWeights(b, path)
  {
    if path in a {
      forall v ensures v in a[path] <==> v in b[path]
               ensures v in a[path] ==> a[path][v] == b[path][v]
      {
        assert WeightAt(a, path, v) == WeightAt(b, path, v);
      }
    }
  }

  // ---- When there is nothing to announce ---------------------------------------------------

  /** What the table knows of a mentioned version is what the mention says. */
  predicate Agrees(t: WeightTable, path: string, v: RouteVersionSpec) {
    var known := WeightAt(t, path, v.name);
    known.None? || known.value == v.weight
  }

  predicate AllAgree(t: WeightTable, rules: seq<RulePolicy>) {
    forall i, j :: 0 <= i < |rules| && 0 <= j < |rules[i].versions| ==> Agrees(t, rules[i].path, rules[i].versions[j])
  }

  predicate VersionsAgree(t: WeightTable, path: string, versions: seq<RouteVersionSpec>) {
    forall j :: 0 <= j < |versions| ==> Agrees(t, path, versions[j])
  }

  lemma {:induction false} SilentVersionsIff(ref: RouteRef, t: WeightTable, path: string,
                                             versions: seq<RouteVersionSpec>)
    ensures VersionChanges(ref, path, OldWeights(t, path), versions) == [] <==> VersionsAgree(t, path, versions)
  {
    if versions != [] {
      var before, v := versions[..|versions| - 1], versions[|versions| - 1];
      SilentVersionsIff(ref, t, path, before);
      assert VersionChange(ref, path, OldWeights(t, path), v) == [] <==> Agrees(t, path, v);
      assert VersionsAgree(t, path, versions) <==> VersionsAgree(t, path, before) && Agrees(t, path, v) by {
        assert forall j :: 0 <= j < |before| ==> versions[j] == before[j];
      }
    }
  }

  /** A broadcast is silent exactly when no version it mentions was known with another weight. */
  lemma {:induction false} SilentIff(ref: RouteRef, t: WeightTable, rules: seq<RulePolicy>)
    ensures Changes(ref, t, rules) == [] <==> AllAgree(t, rules)
  {
    if rules != [] {
      var before, rule := rules[..|rules| - 1], rules[|rules| - 1];
      SilentIff(ref, t, before);
      SilentVersionsIff(ref, t, rule.path, rule.versions);
      hide Agrees, VersionChanges, Changes;
      assert AllAgree(t, rules) <==> AllAgree(t, before) && VersionsAgree(t, rule.path, rule.versions) by {
        assert forall i :: 0 <= i < |before| ==> rules[i] == before[i];
      }
      assert Changes(ref, t, rules) == [] <==>
        Changes(ref, t, before) == []
          && VersionChanges(ref, rule.path, OldWeights(t, rule.path), rule.versions) == [] by {
        ChangesOneMore(ref, t, rules);
      }
    }
  }

  lemma ChangesOneMore(ref: RouteRef, t: WeightTable, rules: seq<RulePolicy>)
    requires rules != []
    ensures
      var rule := rules[|rules| - 1];
      Changes(ref, t, rules) ==
        Changes(ref, t, rules[..|rules| - 1]) + VersionChanges(ref, rule.path, OldWeights(t, rule.path), rule.versions)
  {
  }

  /** No mention of a version is shadowed by a later one with another weight. */
  predicate Consistent(rules: seq<RulePolicy>) {
    AllAgree(WeightsOf(rules), rules)
  }

  /** Registering an unchanged spec is silent exactly when its mentions are consistent. */
  lemma UnchangedRulesAnnounceNothing(ref: RouteRef, rules: seq<RulePolicy>)
    ensures Changes(ref, WeightsOf(rules), rules) == [] <==> Consistent(rules)
  {
    SilentIff(ref, WeightsOf(rules), rules);
  }

  /** Distinct paths and version names leave nothing to shadow. */
  lemma UnambiguousIsConsistent(rules: seq<RulePolicy>)
    requires Unambiguous(rules)
    ensures Consistent(rules)
  {
    forall i, j | 0 <= i < |rules| && 0 <= j < |rules[i].versions|
      ensures Agrees(WeightsOf(rules), rules[i].path, rules[i].versions[j])
    {
      RuleIsInTable(rules, i);
      VersionIsInTable(rules[i].versions, j);
    }
  }

  lemma {:induction false} RuleIsInTable(rules: seq<RulePolicy>, i: nat)
    requires Unambiguous(rules) && i < |rules|
    ensures rules[i].path in WeightsOf(rules) && WeightsOf(rules)[rules[i].path] == VersionWeights(rules[i].versions)
  {
    if i < |rules| - 1 {
      RuleIsInTable(rules[..|rules| - 1], i);
    }
  }

  lemma {:induction false} VersionIsInTable(versions: seq<RouteVersionSpec>, i: nat)
    requires DistinctVersions(versions) && i < |versions|
    ensures versions[i].name in VersionWeights(versions)
        && VersionWeights(versions)[versions[i].name] == versions[i].weight
  {
    if i < |versions| - 1 {
      VersionIsInTable(versions[..|versions| - 1], i);
    }
  }

  /** A name repeated with another weight announces a change on every registration, and with the same weight none. */
  lemma {:induction false} RepeatedVersionFeedsItself(ref: RouteRef, rule: RulePolicy, name: string, first: int,
                                                      last: int)
    requires rule.versions == [RouteVersionSpec(name, first), RouteVersionSpec(name, last)]
    ensures Changes(ref, WeightsOf([rule]), [rule]) ==
      if first == last then [] else [Decision(ref, rule.path, name, last, first, "spec-updated")]
  {
    var versions := rule.versions;
    assert [rule][..0] == [];
    assert versions[..1][..0] == [] && versions[..|versions| - 1] == versions[..1];
    var one := versions[..1];
    assert one[|one| - 1] == versions[0] && one[..|one| - 1] == [];
    assert VersionWeights(one) == map[name := first];
    assert VersionWeights(versions) == map[name := last];
    assert OldWeights(WeightsOf([rule]), rule.path) == map[name := last];
    assert VersionChanges(ref, rule.path, map[name := last], one)
        == VersionChange(ref, rule.path, map[name := last], versions[0]);
  }

  lemma Associates<T>(a: seq<T>, b: seq<T>, c: seq<T>)
    ensures (a + b) + c == a + (b + c)
  {
  }

  // ---- RegisterRoute -----------------------------------------------------------------------

  function Register(t: Tables, spec: RouteSpec, id: Uuid): (Option<RouteConfig>, Tables)
    requires Canary.SoundCanaries(t)
    ensures Canary.SoundCanaries(Register(t, spec, id).1)
  {
    var ns, name := Some(spec.ref.namespace), spec.ref.name;
    var previous := TryGet(t, ns, name);
    var saved := Upsert(t, ns, name, spec, id).1;
    var announced := if previous.Some? then Changes(spec.ref, WeightsOf(previous.value.spec.rules), spec.rules) else [];
    var t' := saved.(decisions := saved.decisions + announced);
    var config := ConfigOf(t', ns, name);
    (if config.Some? then Some(config.value.(ref := spec.ref)) else None, t')
  }

  lemma {:induction false} VersionChangesTellTheTruth(ref: RouteRef, path: string, prior: map<string, int>,
                                                      versions: seq<RouteVersionSpec>)
    ensures forall d :: d in VersionChanges(ref, path, prior, versions) ==>
      && d.ref == ref && d.path == path && d.version in prior && d.oldWeight == prior[d.version] != d.newWeight
      && RouteVersionSpec(d.version, d.newWeight) in versions
  {
    if versions != [] {
      VersionChangesTellTheTruth(ref, path, prior, versions[..|versions| - 1]);
    }
  }

  /** Every announcement names a version both specs have, the weight it had and another one it is declared with now. */
  lemma {:induction false} ChangesTellTheTruth(ref: RouteRef, prior: WeightTable, rules: seq<RulePolicy>)
    ensures forall d :: d in Changes(ref, prior, rules) ==>
      && d.ref == ref && WeightAt(prior, d.path, d.version) == Some(d.oldWeight) && d.oldWeight != d.newWeight
      && exists rule ::
           rule in rules && rule.path == d.path && RouteVersionSpec(d.version, d.newWeight) in rule.versions
  {
    if rules != [] {
      var rule := rules[|rules| - 1];
      ChangesTellTheTruth(ref, prior, rules[..|rules| - 1]);
      VersionChangesTellTheTruth(ref, rule.path, OldWeights(prior, rule.path), rule.versions);
      forall d | d in Changes(ref, prior, rules)
        ensures d.ref == ref && WeightAt(prior, d.path, d.version) == Some(d.oldWeight) && d.oldWeight != d.newWeight
        ensures exists r :: r in rules && r.path == d.path && RouteVersionSpec(d.version, d.newWeight) in r.versions
      {
        if d in Changes(ref, prior, rules[..|rules| - 1]) {
          var r :| r in rules[..|rules| - 1] && r.path == d.path
              && RouteVersionSpec(d.version, d.newWeight) in r.versions;
          assert r in rules;
        } else {
          assert rule in rules;
        }
      }
    }
  }

  /**
   * A registration announces, against the spec stored before it, what takes a reader who knew that
   * spec's weights to the new ones.
   */
  lemma RegistrationInforms(t: Tables, spec: RouteSpec, id: Uuid, p: PolicyRow)
    requires Canary.SoundCanaries(t) && TryGet(t, Some(spec.ref.namespace), spec.ref.name) == Some(p)
    requires Unambiguous(spec.rules)
    ensures
      var before, t' := WeightsOf(p.spec.rules), Register(t, spec, id).1;
      && |t.decisions| <= |t'.decisions| && t'.decisions[..|t.decisions|] == t.decisions
      && var after := Follow(before, t'.decisions[|t.decisions|..]);
      forall path, v ::
        WeightAt(after, path, v) == Merged(WeightAt(before, path, v), WeightAt(WeightsOf(spec.rules), path, v))
  {
    hide ConfigOf, Changes, NamespaceOrDefault, WeightsOf;
    ChangesPatch(spec.ref, WeightsOf(p.spec.rules), spec.rules);
    assert Upsert(t, Some(spec.ref.namespace), spec.ref.name, spec, id).1.decisions == t.decisions;
    var news := Changes(spec.ref, WeightsOf(p.spec.rules), spec.rules);
    assert Register(t, spec, id).1.decisions == t.decisions + news;
    assert (t.decisions + news)[|t.decisions|..] == news;
    hide Register, TryGet, Follow;
  }

  class RouteGrpcService {
    const policies: PolicyService.Service
    const routeConfigs: RouteConfigService

    constructor (policies: PolicyService.Service, routeConfigs: RouteConfigService)
      ensures this.policies == policies && this.routeConfigs == routeConfigs
    {
      this.policies, this.routeConfigs := policies, routeConfigs;
    }

    predicate Valid() {
      policies.db == routeConfigs.db
    }

    function View(): Tables
      reads policies.db
    {
      policies.db.View()
    }

    method RegisterRoute(request: RouteSpec, id: Uuid) returns (config: Option<RouteConfig>)
      requires Valid() && Canary.SoundCanaries(View())
      modifies policies.db
      ensures (config, View()) == Register(old(View()), request, id)
    {
      var namespace, name := Some(request.ref.namespace), request.ref.name;
      var previous := TryGet(View(), namespace, name);
      var _ := policies.Upsert(namespace, name, request, id);
      ghost var saved := View();
      assert saved == Store.Upsert(old(View()), namespace, name, request, id).1;
      if previous.Some? {
        BroadcastWeightChanges(request.ref, previous.value.spec, request);
      } else {
        assert saved.decisions == saved.decisions + [];
      }
      assert View() == Register(old(View()), request, id).1;
      config := routeConfigs.Get(namespace, name);
      if config.Some? {
        config := Some(config.value.(ref := request.ref));
      }
    }

    method DeleteRoute(request: RouteRef)
      modifies policies.db
      ensures View() == Store.DeleteIfExists(old(View()), Some(request.namespace), request.name)
    {
      policies.DeleteIfExists(Some(request.namespace), request.name);
    }

    method BroadcastWeightChanges(ref: RouteRef, previousSpec: RouteSpec, newSpec: RouteSpec)
      modifies policies.db`decisions
      ensures policies.db.decisions ==
        old(policies.db.decisions) + Changes(ref, WeightsOf(previousSpec.rules), newSpec.rules)
    {
      hide VersionChanges, WeightsOf, OldWeights;
      var oldWeights := ExtractWeights(previousSpec);
      ghost var start := policies.db.decisions;
      assert start + [] == start;
      for i := 0 to |newSpec.rules|
        invariant policies.db.decisions == start + Changes(ref, oldWeights, newSpec.rules[..i])
      {
        var rule := newSpec.rules[i];
        BroadcastRule(ref, OldWeights(oldWeights, rule.path), rule);
        assert newSpec.rules[..i + 1][..i] == newSpec.rules[..i];
        Associates(start, Changes(ref, oldWeights, newSpec.rules[..i]),
                   VersionChanges(ref, rule.path, OldWeights(oldWeights, rule.path), rule.versions));
      }
      assert newSpec.rules[..|newSpec.rules|] == newSpec.rules;
    }

    /** The inner loop of BroadcastWeightChanges. */
    method BroadcastRule(ref: RouteRef, oldForPath: map<string, int>, rule: RulePolicy)
      modifies policies.db`decisions
      ensures policies.db.decisions ==
        old(policies.db.decisions) + VersionChanges(ref, rule.path, oldForPath, rule.versions)
    {
      ghost var start := policies.db.decisions;
      assert start + [] == start;
      for j := 0 to |rule.versions|
        invariant policies.db.decisions == start + VersionChanges(ref, rule.path, oldForPath, rule.versions[..j])
      {
        var version := rule.versions[j];
        assert rule.versions[..j + 1][..j] == rule.versions[..j];
        Associates(start, VersionChanges(ref, rule.path, oldForPath, rule.versions[..j]),
                   VersionChange(ref, rule.path, oldForPath, version));
        if version.name in oldForPath && oldForPath[version.name] != version.weight {
          policies.db.decisions := policies.db.decisions +
            [Decision(ref, rule.path, version.name, oldForPath[version.name], version.weight, "spec-updated")];
        }
      }
      assert rule.versions[..|rule.versions|] == rule.versions;
    }

    method ExtractWeights(spec: RouteSpec) returns (out: WeightTable)
      ensures out == WeightsOf(spec.rules)
    {
      out := map[];
      for i := 0 to |spec.rules|
        invariant out == WeightsOf(spec.rules[..i])
      {
        var rule := spec.rules[i];
        var weights := map[];
        for j := 0 to |rule.versions|
          invariant weights == VersionWeights(rule.versions[..j])
        {
          assert rule.versions[..j + 1][..j] == rule.versions[..j];
          weights := weights[rule.versions[j].name := rule.versions[j].weight];
        }
        assert rule.versions[..|rule.versions|] == rule.versions;
        assert spec.rules[..i + 1][..i] == spec.rules[..i];
        out := out[rule.path := weights];
      }
      assert spec.rules[..|spec.rules|] == spec.rules;
    }
  }
}
