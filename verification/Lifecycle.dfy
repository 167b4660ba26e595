/** From declaration to removal: what Ready means, recovery in one pass, and letting go only after saying so. */
module Lifecycle {
  import opened Wrappers
  import opened Routes
  import opened Admission
  import opened Discovery
  import opened Cluster
  import opened EffectiveWeights
  import opened RoutingModel
  import opened HAProxy
  import opened Compiler
  import opened CompiledFile
  import opened ProxyReader
  import opened Reconciler
  import opened ReconcilerRuns
  import opened Store
  import Wire
  import Registration
  import Canary
  import CrossPlane
  import Quiescence
  import Served
  import StoreRuns

  // ---- Ready tells the truth ---------------------------------------------------------------

  lemma ProgrammedMeansApplied(setup: Setup, live: string, resolved: bool, m: Model, o: Outcomes)
    requires Render(m).Ok? && setup.hasProxy && resolved ==> Faithful(o.push, Text(setup.skeleton, Render(m).value))
    ensures
      var (programmed, failed, after) := Program(setup, live, resolved, m, o);
      programmed.holds ==>
        setup.hasProxy && resolved && Render(m).Ok? && Normal(after) == Normal(Text(setup.skeleton, Render(m).value))
  {
    hide Render, Text, Normal;
  }

  /** A pass that got its status through and says Ready leaves the file it wanted live. */
  lemma ReadyMeansLive(setup: Setup, w: World, o: Outcomes)
    requires Valid(w) && Settles(w, o) && FaithfulProxy(setup, w, Reconciled(o)) && !o.statusWrite.Conflicted?
    requires
      var (verdict, w') := Pass(setup, w, o);
      !verdict.failed && w'.route.Some? && w'.route.value.status.phase == Ready
    ensures
      var wanted := Wanted(setup, w, o);
      wanted.Some? && Normal(Pass(setup, w, o).1.live) == Normal(wanted.value)
  {
    hide Admissible, Issues, RouteStatuses, ModelOf, Registration.Register, WireSpec, Render, Text, Program,
         SetConditions, Normal, Faithful, ResolvedFinding, InvalidFindings;
    var tr, w1 := w.route.value.(finalizer := true), w.(route := Some(w.route.value.(finalizer := true)));
    if Admissible(tr.spec) && o.cache.Some? {
      var s := o.cache.value;
      var issues := Issues(s, tr.spec.routes, VersionLabelKey(tr.spec));
      var (registered, config, w2) := RegisterWithControlPlane(setup, w1, tr, o);
      ProgramFindings(setup, w.live, issues == [], ModelOf(setup, tr.spec, s, config), o);
      ProgrammedMeansApplied(setup, w.live, issues == [], ModelOf(setup, tr.spec, s, config), o);
    }
  }

  /** While the control plane is out of reach a pass fails or comes back soon; otherwise it comes back at the resync. */
  lemma OutagesAreRetriedSoon(setup: Setup, w: World, o: Outcomes)
    requires Valid(w) && Settles(w, o) && Admissible(w.route.value.spec)
    requires StoreRuns.KeysAreUnique(w.tables.policies)
    ensures
      var verdict := Pass(setup, w, o).0;
      !verdict.failed ==>
        verdict.requeueAfter == if setup.hasControlPlane && !o.register.Answered? then ControlPlaneRetry else Resync
  {
    hide Admissible, Issues, RouteStatuses, ModelOf, RegisterWithControlPlane, Program, StatusOf, PhaseAfter,
         ApplyStatus, InvalidFindings, StoreRuns.KeysAreUnique;
    var tr := w.route.value.(finalizer := true);
    OnlyAnswersRegister(setup, w.(route := Some(tr)), tr, o);
  }

  lemma OnlyAnswersRegister(setup: Setup, w: World, tr: TrafficRoute, o: Outcomes)
    requires Valid(w) && StoreRuns.KeysAreUnique(w.tables.policies)
    ensures RegisterWithControlPlane(setup, w, tr, o).0.holds <==> setup.hasControlPlane && o.register.Answered?
  {
    hide Admissible, Registration.Register, WireSpec, StoreRuns.KeysAreUnique;
    StoreRuns.RegistrationIsIdempotent(w.tables, Request(setup, tr), o.uuid, o.uuid);
  }

  /** A pass that leaves another file live than the one it wanted fails, and so is retried with backoff. */
  lemma UnappliedFileIsRetried(setup: Setup, w: World, o: Outcomes)
    requires Valid(w) && FaithfulProxy(setup, w, Reconciled(o))
    requires Wanted(setup, w, o).Some? && Normal(Pass(setup, w, o).1.live) != Normal(Wanted(setup, w, o).value)
    ensures Pass(setup, w, o).0.failed
  {
    hide Admissible, Issues, RouteStatuses, ModelOf, Registration.Register, WireSpec, Render, Text, SetConditions,
         Normal, Faithful, ResolvedFinding, InvalidFindings, StatusOf, PhaseAfter, Apply, ApplyStatus;
    AppliedConfigStays(w.live, Wanted(setup, w, o).value, o.readable, o.push, true, o.push);
  }

  // ---- What the status says ----------------------------------------------------------------

  /** The pod label that names a version: the one the route asks for, else the recommended one. */
  function LabelAsked(spec: RouteSpec): string {
    if spec.versionLabel == "" then "app.kubernetes.io/version" else spec.versionLabel
  }

  /** Each phase and condition, read off the cluster and the calls of the pass. */
  ghost predicate SaysWhy(setup: Setup, w: World, o: Outcomes, status: Status)
    requires Valid(w) && w.route.Some? && o.cache.Some?
  {
    var backed := AllBacked(o.cache.value, w.route.value.spec.routes, LabelAsked(w.route.value.spec));
    var wanted := Wanted(setup, w, o);
    var applied := wanted.Some? && Apply(w.live, wanted.value, o.readable, o.push).0;
    && status.observedGeneration == w.route.value.generation
    && (status.phase == Ready <==> applied)
    && (status.phase == Pending <==> backed && !setup.hasProxy)
    && (status.phase == Degraded <==> !backed || (setup.hasProxy && !applied))
    && Holds(status, Accepted)
    && (Holds(status, Resolved) <==> backed)
    && (Holds(status, ControlPlaneRegistered) <==> setup.hasControlPlane && o.register.Answered?)
    && (Holds(status, Programmed) <==> applied)
  }

  lemma FindingsHold(tr: TrafficRoute, phase: Phase, routes: seq<RouteStatus>, a: Finding, b: Finding, c: Finding,
                     d: Finding, now: int)
    requires a.kind == Accepted && b.kind == Resolved && c.kind == ControlPlaneRegistered && d.kind == Programmed
    ensures
      var status := StatusOf(tr, phase, routes, [a, b, c, d], now);
      && status.phase == phase && status.observedGeneration == tr.generation
      && (Holds(status, Accepted) <==> a.holds) && (Holds(status, Resolved) <==> b.holds)
      && (Holds(status, ControlPlaneRegistered) <==> c.holds) && (Holds(status, Programmed) <==> d.holds)
  {
    FourConditions(tr.status.conditions, a, b, c, d, tr.generation, now);
  }

  lemma ProgramSaysApplied(setup: Setup, w: World, o: Outcomes)
    requires Valid(w) && Settles(w, o) && Admissible(w.route.value.spec) && o.cache.Some?
    ensures
      var spec, s := w.route.value.spec, o.cache.value;
      var m := ModelOf(setup, spec, s, WorkingConfig(setup, w, o));
      var (programmed, failed, _) := Program(setup, w.live, Issues(s, spec.routes, VersionLabelKey(spec)) == [], m, o);
      var wanted := Wanted(setup, w, o);
      var applied := wanted.Some? && Apply(w.live, wanted.value, o.readable, o.push).0;
      && programmed.kind == Programmed
      && (programmed.holds <==> applied)
      && (failed <==> Issues(s, spec.routes, VersionLabelKey(spec)) == [] && setup.hasProxy && !applied)
  {
    hide Admissible, Issues, Text, Apply, WorkingConfig, Normal, ModelOf, Render;
  }

  /** What a pass over an admissible object computes on its way to the status. */
  function Computed(setup: Setup, w: World, o: Outcomes): (bool, Finding, Finding, bool)
    requires Valid(w) && w.route.Some? && o.cache.Some?
  {
    var tr, s := w.route.value.(finalizer := true), o.cache.value;
    var resolved := Issues(s, tr.spec.routes, VersionLabelKey(tr.spec)) == [];
    var (registered, config, _) := RegisterWithControlPlane(setup, w.(route := Some(tr)), tr, o);
    var (programmed, failed, _) := Program(setup, w.live, resolved, ModelOf(setup, tr.spec, s, config), o);
    (resolved, registered, programmed, failed)
  }

  lemma SettledStatus(setup: Setup, w: World, o: Outcomes)
    requires Valid(w) && Settles(w, o) && Admissible(w.route.value.spec) && o.cache.Some?
    requires o.statusWrite.Written? || o.statusWrite.Unheard?
    ensures
      var (resolved, registered, programmed, failed) := Computed(setup, w, o);
      var tr, key := w.route.value.(finalizer := true), VersionLabelKey(w.route.value.spec);
      var findings := [Finding(Accepted, true, SpecValid),
                       ResolvedFinding(Issues(o.cache.value, tr.spec.routes, key)), registered, programmed];
      var w' := Pass(setup, w, o).1;
      && w'.route.Some?
      && w'.route.value.status == StatusOf(tr, PhaseAfter(resolved, programmed, failed),
                                           RouteStatuses(o.cache.value, tr.spec.routes, key), findings, o.now)
  {
    hide Admissible, Issues, RouteStatuses, ModelOf, RegisterWithControlPlane, Program, StatusOf, PhaseAfter,
         ResolvedFinding, InvalidFindings;
  }

  lemma ComputedIsApplied(setup: Setup, w: World, o: Outcomes)
    requires Valid(w) && Settles(w, o) && Admissible(w.route.value.spec) && o.cache.Some?
    requires StoreRuns.KeysAreUnique(w.tables.policies)
    ensures
      var (resolved, registered, programmed, failed) := Computed(setup, w, o);
      var wanted := Wanted(setup, w, o);
      var applied := wanted.Some? && Apply(w.live, wanted.value, o.readable, o.push).0;
      && registered.kind == ControlPlaneRegistered && programmed.kind == Programmed
      && (registered.holds <==> setup.hasControlPlane && o.register.Answered?)
      && (programmed.holds <==> applied)
      && (failed <==> resolved && setup.hasProxy && !applied)
      && (applied ==> resolved && setup.hasProxy)
  {
    hide Admissible, Issues, ModelOf, RegisterWithControlPlane, Program, Apply, Wanted, WorkingConfig,
         StoreRuns.KeysAreUnique;
    var tr := w.route.value.(finalizer := true);
    OnlyAnswersRegister(setup, w.(route := Some(tr)), tr, o);
    RegistrationKind(setup, w.(route := Some(tr)), tr, o);
    SameRegistration(setup, w, tr, o);
    ProgramSaysApplied(setup, w, o);
    WantedIsResolved(setup, w, o);
  }

  lemma WantedIsResolved(setup: Setup, w: World, o: Outcomes)
    requires Valid(w) && w.route.Some? && o.cache.Some?
    ensures Wanted(setup, w, o).Some? ==>
      setup.hasProxy && Issues(o.cache.value, w.route.value.spec.routes, VersionLabelKey(w.route.value.spec)) == []
  {
    hide Admissible, Issues, ModelOf, WorkingConfig, Render, Text;
  }

  /** Whatever a pass reports of an admissible object is so. */
  lemma StatusSaysWhy(setup: Setup, w: World, o: Outcomes)
    requires Valid(w) && Settles(w, o) && Admissible(w.route.value.spec) && o.cache.Some?
    requires StoreRuns.KeysAreUnique(w.tables.policies) && (o.statusWrite.Written? || o.statusWrite.Unheard?)
    ensures
      var w' := Pass(setup, w, o).1;
      w'.route.Some? && SaysWhy(setup, w, o, w'.route.value.status)
  {
    hide Admissible, Issues, RouteStatuses, Apply, Wanted, AllBacked, StoreRuns.KeysAreUnique, Holds, StatusOf, Pass,
         Computed;
    var (resolved, registered, programmed, failed) := Computed(setup, w, o);
    var tr, key := w.route.value.(finalizer := true), VersionLabelKey(w.route.value.spec);
    var s := o.cache.value;
    LabelIsAsked(tr.spec);
    NoIssuesIff(s, tr.spec.routes, key);
    ComputedIsApplied(setup, w, o);
    SettledStatus(setup, w, o);
    ResolvedIs(setup, w, o);
    FindingsHold(tr, PhaseAfter(resolved, programmed, failed), RouteStatuses(s, tr.spec.routes, key),
                 Finding(Accepted, true, SpecValid), ResolvedFinding(Issues(s, tr.spec.routes, key)), registered,
                 programmed, o.now);
  }

  lemma ResolvedIs(setup: Setup, w: World, o: Outcomes)
    requires Valid(w) && w.route.Some? && o.cache.Some?
    ensures Computed(setup, w, o).0
         == (Issues(o.cache.value, w.route.value.spec.routes, VersionLabelKey(w.route.value.spec)) == [])
  {
    hide Issues, RegisterWithControlPlane, Program, ModelOf;
  }

  /** The finalizer makes no difference to a registration. */
  lemma SameRegistration(setup: Setup, w: World, tr: TrafficRoute, o: Outcomes)
    requires Valid(w) && w.route.Some? && tr == w.route.value.(finalizer := true)
    ensures RegisterWithControlPlane(setup, w.(route := Some(tr)), tr, o).1 == WorkingConfig(setup, w, o)
  {
    hide Registration.Register, WireSpec;
  }

  lemma RegistrationKind(setup: Setup, w: World, tr: TrafficRoute, o: Outcomes)
    requires Valid(w)
    ensures RegisterWithControlPlane(setup, w, tr, o).0.kind == ControlPlaneRegistered
  {
    hide Registration.Register, WireSpec;
  }

  /** The endpoint counts a status reports for a version are those of its pods, and its weights the declared ones. */
  lemma StatusCountsPods(s: Snapshot, spec: RouteSpec, i: nat, j: nat)
    requires i < |spec.routes| && spec.routes[i].backend.service in s.services
    requires j < (if spec.routes[i].versions == [] then 1 else |spec.routes[i].versions|)
    requires DistinctNames(spec.routes[i].versions)
    ensures
      var rule, key := spec.routes[i], LabelAsked(spec);
      var line := RouteStatuses(s, spec.routes, VersionLabelKey(spec))[i];
      var endpoints := AllEndpoints(s.SlicesOf(rule.backend.service));
      && |line.resolvedEndpoints| == |line.currentWeights| == (if rule.versions == [] then 1 else |rule.versions|)
      && var pods, share := line.resolvedEndpoints[j], line.currentWeights[j];
      && pods.ready == Serving(s.pods, rule, key, endpoints, j)
      && pods.total == Belonging(s.pods, rule, key, endpoints, j)
      && multiset(pods.addresses) == ServingAddresses(s.pods, rule, key, endpoints, j)
      && pods.version == share.version == (if rule.versions == [] then "" else rule.versions[j].name)
      && share.weight == (if rule.versions == [] then 100 else rule.versions[j].weight)
  {
    LabelIsAsked(spec);
    hide VersionLabelKey, LabelAsked, AllEndpoints, Serving, Belonging, ServingAddresses, RuleStatus;
    LineCountsPods(s, spec.routes[i], VersionLabelKey(spec), j);
  }

  lemma LabelIsAsked(spec: RouteSpec)
    ensures VersionLabelKey(spec) == LabelAsked(spec)
  {
  }

  lemma LineCountsPods(s: Snapshot, rule: RouteRule, key: string, j: nat)
    requires rule.backend.service in s.services && DistinctNames(rule.versions)
    requires j < (if rule.versions == [] then 1 else |rule.versions|)
    ensures
      var line := RuleStatus(rule, ResolutionOf(s, rule, key));
      var endpoints := AllEndpoints(s.SlicesOf(rule.backend.service));
      && |line.resolvedEndpoints| == |line.currentWeights| == (if rule.versions == [] then 1 else |rule.versions|)
      && var pods, share := line.resolvedEndpoints[j], line.currentWeights[j];
      && pods.ready == Serving(s.pods, rule, key, endpoints, j)
      && pods.total == Belonging(s.pods, rule, key, endpoints, j)
      && multiset(pods.addresses) == ServingAddresses(s.pods, rule, key, endpoints, j)
      && pods.version == share.version == (if rule.versions == [] then "" else rule.versions[j].name)
      && share.weight == (if rule.versions == [] then 100 else rule.versions[j].weight)
  {
    ServiceIsFound(s, rule, key);
    NamesAre(rule, j);
    hide ResolutionOf, Serving, Belonging, ServingAddresses, AllEndpoints, VersionNames;
    VersionServes(s, rule, key, j);
    if rule.versions != [] {
      SpecWeightOf(rule.versions, j);
    }
    hide SpecWeight, DistinctNames;
  }

  lemma ServiceIsFound(s: Snapshot, rule: RouteRule, key: string)
    requires rule.backend.service in s.services
    ensures ResolutionOf(s, rule, key).serviceFound
  {
    hide Lookup.Buckets, PortOfSlices, FindPort, AllEndpoints;
  }

  lemma NamesAre(rule: RouteRule, j: nat)
    requires j < (if rule.versions == [] then 1 else |rule.versions|)
    ensures |VersionNames(rule)| == (if rule.versions == [] then 1 else |rule.versions|)
    ensures VersionNames(rule)[j] == (if rule.versions == [] then "" else rule.versions[j].name)
  {
  }

  // ---- Recovery ----------------------------------------------------------------------------

  /**
   * The live file is the one rendered for this spec and these endpoints from what the control
   * plane's tables say now and meant to implement them; written in plain words, what a proxy reads
   * from it does.
   */
  ghost predicate ServesTheTables(setup: Setup, w: World, spec: RouteSpec, s: Snapshot)
    requires Valid(w)
  {
    var config := Registration.ConfigOf(w.tables, Some(setup.ref.namespace), setup.ref.name);
    var c := Render(ModelOf(setup, spec, s, config));
    && config.Some? && c.Ok?
    && Implements(ViewOf(c.value), s, spec, config, VersionLabelKey(spec))
    && Normal(w.live) == Normal(Text(setup.skeleton, c.value))
    && (PlainDeployment(setup, spec, s, config) ==> Serves(w.live, s, spec, config, VersionLabelKey(spec)))
  }

  /** Everything a route can hope for. */
  ghost predicate Converged(setup: Setup, w: World, spec: RouteSpec, generation: int, s: Snapshot)
    requires Valid(w)
  {
    var p := TryGet(w.tables, Some(setup.ref.namespace), setup.ref.name);
    && w.route.Some? && w.route.value.spec == spec
    && w.route.value.status.phase == Ready && w.route.value.status.observedGeneration == generation
    && p.Some? && p.value.spec == WireSpec(setup.ref, generation, spec)
    && ServesTheTables(setup, w, spec, s)
  }

  /**
   * Whatever happened before, one undisturbed pass over an admissible, fully resolved object makes
   * it Ready, stores its spec with the control plane, and has the proxy serve what the control
   * plane's tables say now.
   */
  lemma OnePassConverges(setup: Setup, w: World, o: Outcomes)
    requires Valid(w) && StoreRuns.KeysAreUnique(w.tables.policies)
    requires Quiescence.Smooth(o) && Settles(w, o) && FaithfulProxy(setup, w, Reconciled(o))
    requires setup.hasControlPlane && Wanted(setup, w, o).Some?
    requires BackendsAreDistinct(setup, w, o, WorkingConfig(setup, w, o))
    ensures Converged(setup, Pass(setup, w, o).1, w.route.value.spec, w.route.value.generation, o.cache.value)
  {
    hide Pass, Wanted, Admissible, WantsImplementation, Registration.Register, FaithfulProxy, BackendsAreDistinct,
         ModelOf, Render, WorkingConfig, Implements, Text, Registration.EffectiveRules, Normal, TryGet,
         StoreRuns.KeysAreUnique;
    var wire := Request(setup, w.route.value);
    var p := CrossPlane.RegistrationReads(w.tables, wire, o.uuid);
    var config := Registration.Register(w.tables, wire, o.uuid).0.value;
    WantedImplementsTheSpec(setup, w, o);
    WantedIsAdmissible(setup, w, o);
    RegisteredPass(setup, w, o);
    SmoothPassIsReady(setup, w, o);
    ServesWhatItWants(setup, w, o, Pass(setup, w, o).1, p, config);
    hide ServesTheTables;
  }

  /** In plain words, every request to a converged proxy then reaches ready pods by the weights the tables grant. */
  lemma ConvergedReachesPods(setup: Setup, w: World, spec: RouteSpec, generation: int, s: Snapshot, header: string,
                             path: string)
    requires Valid(w) && Converged(setup, w, spec, generation, s)
    requires AllBacked(s, spec.routes, VersionLabelKey(spec))
    requires PlainDeployment(setup, spec, s, Registration.ConfigOf(w.tables, Some(setup.ref.namespace), setup.ref.name))
    ensures Read(w.live).Some?
    ensures
      var config := Registration.ConfigOf(w.tables, Some(setup.ref.namespace), setup.ref.name);
      Served.RequestReachesPods(Read(w.live).value, s, spec, config, VersionLabelKey(spec), header, path)
  {
    hide PlainDeployment, AllBacked, Registration.ConfigOf, Implements, Read, Render, ModelOf, Text, Normal, TryGet;
    var config := Registration.ConfigOf(w.tables, Some(setup.ref.namespace), setup.ref.name);
    BackedServicesAreFound(s, spec, VersionLabelKey(spec));
    Served.RequestsReachPods(Read(w.live).value, s, spec, config, VersionLabelKey(spec), header, path);
  }

  /** Such a pass is always possible: an admissible object whose endpoints are all resolved needs nothing but calm. */
  lemma UndisturbedPassExists(setup: Setup, w: World, s: Snapshot, now: int, uuid: Uuid) returns (o: Outcomes)
    requires Valid(w) && w.route.Some? && !w.route.value.deleting && Admissible(w.route.value.spec) && setup.hasProxy
    requires AllBacked(s, w.route.value.spec.routes, LabelAsked(w.route.value.spec))
    ensures o.cache == Some(s) && o.now == now && o.uuid == uuid
    ensures Quiescence.Smooth(o) && Settles(w, o) && Wanted(setup, w, o).Some? && FaithfulProxy(setup, w, Reconciled(o))
  {
    hide Admissible, Issues, Render, ModelOf, Text, RegisterWithControlPlane, Normal, AllBacked;
    NoIssuesIff(s, w.route.value.spec.routes, VersionLabelKey(w.route.value.spec));
    var draft := Outcomes(now, uuid, Written, Some(s), Answered, true, Stored(""), "", Written, Answered, Written);
    PushIsNoInput(setup, w, draft, Stored(""));
    Quiescence.HostRenders(ModelOf(setup, w.route.value.spec, s, WorkingConfig(setup, w, draft))) by {
      HostIsKept(setup, w.route.value.spec, s, WorkingConfig(setup, w, draft));
    }
    o := draft.(push := Stored(Wanted(setup, w, draft).value));
    PushIsNoInput(setup, w, draft, o.push);
  }

  lemma PushIsNoInput(setup: Setup, w: World, o: Outcomes, push: Push)
    requires Valid(w) && w.route.Some?
    ensures WorkingConfig(setup, w, o.(push := push)) == WorkingConfig(setup, w, o)
  {
    hide Registration.Register, WireSpec;
  }

  lemma HostIsKept(setup: Setup, spec: RouteSpec, s: Snapshot, config: Option<Wire.RouteConfig>)
    requires Admissible(spec)
    ensures ModelOf(setup, spec, s, config).host != ""
  {
    Quiescence.AdmissibleHostIsNotEmpty(spec);
    hide Admissible, ResolveAll, RulesFor;
  }

  lemma WantedIsAdmissible(setup: Setup, w: World, o: Outcomes)
    requires Valid(w)
    ensures Wanted(setup, w, o).Some? ==> Settles(w, o) && Admissible(w.route.value.spec)
  {
    hide Admissible, Issues, Render, ModelOf, Text, WorkingConfig;
  }

  /** Only the rules of a configuration matter, not under which reference they are returned. */
  lemma OnlyRulesMatter(setup: Setup, spec: RouteSpec, s: Snapshot, a: Wire.RouteConfig, b: Wire.RouteConfig)
    requires a.rules == b.rules
    ensures ModelOf(setup, spec, s, Some(a)) == ModelOf(setup, spec, s, Some(b))
    ensures forall v: View, key ::
      Implements(v, s, spec, Some(a), key) ==> Implements(v, s, spec, Some(b), key)
    ensures PlainDeployment(setup, spec, s, Some(a)) == PlainDeployment(setup, spec, s, Some(b))
  {
    forall v: View, key | Implements(v, s, spec, Some(a), key)
      ensures Implements(v, s, spec, Some(b), key)
    {
      forall header, path ensures RequestServed(v, s, spec, Some(b), key, header, path) {
        assert RequestServed(v, s, spec, Some(a), key, header, path);
        forall rule ensures Weights(Some(a), rule) == Weights(Some(b), rule) {
          SameWeights(rule, a, b);
        }
        hide Weights, Balances, LongestMatch, FirstMatch, UpstreamsBehind;
      }
    }
    hide ByPath, ResolveAll, RulesFor, Implements;
  }

  lemma SameWeights(rule: RouteRule, a: Wire.RouteConfig, b: Wire.RouteConfig)
    requires a.rules == b.rules
    ensures Weights(Some(a), rule) == Weights(Some(b), rule)
  {
    hide ByPath, VersionNames;
  }

  lemma ServesWhatItWants(setup: Setup, w: World, o: Outcomes, w': World, p: PolicyRow, config: Wire.RouteConfig)
    requires Valid(w) && w.route.Some? && o.cache.Some? && Valid(w')
    requires WantsImplementation(setup, w, o, Some(config)) && Wanted(setup, w, o).Some?
    requires TryGet(w'.tables, Some(setup.ref.namespace), setup.ref.name) == Some(p)
    requires config.rules == Registration.EffectiveRules(w'.tables, p)
    requires Normal(w'.live) == Normal(Wanted(setup, w, o).value)
    ensures ServesTheTables(setup, w', w.route.value.spec, o.cache.value)
  {
    hide Wanted, Implements, Render, ModelOf, Text, Normal, Registration.EffectiveRules, Admissible, AllBacked,
         TryGet;
    var stored := Registration.ConfigOf(w'.tables, Some(setup.ref.namespace), setup.ref.name);
    OnlyRulesMatter(setup, w.route.value.spec, o.cache.value, config, stored.value);
    NormalDecidesReading(w'.live, Wanted(setup, w, o).value);
    hide PlainDeployment, Read;
  }

  lemma RegisteredPass(setup: Setup, w: World, o: Outcomes)
    requires Valid(w) && Registers(setup, w, o) && o.register.Answered?
    requires Registration.Register(w.tables, Request(setup, w.route.value), o.uuid).0.Some?
    ensures WorkingConfig(setup, w, o) == Registration.Register(w.tables, Request(setup, w.route.value), o.uuid).0
    ensures Pass(setup, w, o).1.tables == Registration.Register(w.tables, Request(setup, w.route.value), o.uuid).1
  {
    hide Admissible, Issues, Render, ModelOf, Text, Apply, Registration.Register, StatusOf, RouteStatuses, WireSpec,
         Program;
  }

  lemma SmoothPassIsReady(setup: Setup, w: World, o: Outcomes)
    requires Valid(w) && Quiescence.Smooth(o) && Settles(w, o) && FaithfulProxy(setup, w, Reconciled(o))
    requires Wanted(setup, w, o).Some?
    ensures
      var w' := Pass(setup, w, o).1;
      && Normal(w'.live) == Normal(Wanted(setup, w, o).value)
      && w'.route.Some? && w'.route.value.spec == w.route.value.spec
      && w'.route.value.status.phase == Ready && w'.route.value.status.observedGeneration == w.route.value.generation
  {
    hide Admissible, Issues, RouteStatuses, ModelOf, Registration.Register, WireSpec, Render, Text, SetConditions,
         Normal, Faithful, ResolvedFinding, InvalidFindings;
    var raw := Wanted(setup, w, o).value;
    AppliedConfigStays(w.live, raw, o.readable, o.push, true, o.push);
    assert Apply(w.live, raw, o.readable, o.push).0;
    hide Apply;
  }

  // ---- Letting go --------------------------------------------------------------------------

  /** The object exists and still holds back its own removal. */
  predicate Held(w: World) {
    w.route.Some? && w.route.value.finalizer
  }

  /** The pass in which the control plane confirmed the deletion. */
  predicate Confirms(w: World, o: Outcomes) {
    Held(w) && w.route.value.deleting && o.delete.Answered?
  }

  lemma PassKeepsHold(setup: Setup, w: World, o: Outcomes)
    requires Valid(w) && setup.hasControlPlane
    ensures Registers(setup, w, o) ==> Held(Pass(setup, w, o).1)
    ensures Held(w) && !Confirms(w, o) ==> Held(Pass(setup, w, o).1)
  {
    hide Admissible, Issues, Render, ModelOf, Text, Apply, Registration.Register, StatusOf, RouteStatuses, WireSpec,
         Program;
  }

  /** A registration may have reached the control plane since the last confirmed DeleteRoute. */
  function Outstanding(setup: Setup, installed: string, events: seq<Event>): bool {
    events != [] &&
    StillOutstanding(setup, After(setup, installed, events[..|events| - 1]), events[|events| - 1],
                     Outstanding(setup, installed, events[..|events| - 1]))
  }

  predicate StillOutstanding(setup: Setup, w: World, e: Event, outstanding: bool) {
    if e.Reconciled? && Registers(setup, w, e.o) && !e.o.register.Refused? then true
    else if e.Reconciled? && Confirms(w, e.o) then false
    else outstanding
  }

  lemma StepKeepsHold(setup: Setup, w: World, e: Event, outstanding: bool)
    requires Valid(w) && setup.hasControlPlane && (outstanding ==> Held(w))
    ensures StillOutstanding(setup, w, e, outstanding) ==> Held(Next(setup, w, e))
  {
    hide Pass, Registers, StoreRuns.Step;
    if e.Reconciled? {
      PassKeepsHold(setup, w, e.o);
    }
  }

  /** Over every run: once registered, the object cannot disappear before DeleteRoute succeeded. */
  lemma {:induction false} RegisteredObjectsAreHeld(setup: Setup, installed: string, events: seq<Event>)
    requires setup.hasControlPlane && Outstanding(setup, installed, events)
    ensures Held(After(setup, installed, events))
  {
    hide Next, StillOutstanding, Held;
    var before := events[..|events| - 1];
    if Outstanding(setup, installed, before) {
      RegisteredObjectsAreHeld(setup, installed, before);
    }
    StepKeepsHold(setup, After(setup, installed, before), events[|events| - 1], Outstanding(setup, installed, before));
  }

  function OwnKey(setup: Setup): Key {
    (NamespaceOrDefault(Some(setup.ref.namespace)), setup.ref.name)
  }

  predicate CreatesKey(op: StoreRuns.Op, key: Key) {
    op.NewId().Some? && op.Target() == key
  }

  /** Nobody else creates a policy under this object's name. */
  predicate NobodyElseCreates(setup: Setup, events: seq<Event>) {
    forall i :: 0 <= i < |events| && events[i].Elsewhere? ==> !CreatesKey(events[i].op, OwnKey(setup))
  }

  predicate HasKey(t: Tables, key: Key) {
    Find(t.policies, key).Some?
  }

  lemma FindMisses(rows: seq<PolicyRow>, key: Key)
    ensures Find(rows, key).None? <==> forall i :: 0 <= i < |rows| ==> KeyOf(rows[i]) != key
  {
  }

  /** Only a call that would create it makes a key appear. */
  lemma KeyAppears(t: Tables, op: StoreRuns.Op, key: Key)
    requires Canary.SoundCanaries(t) && !HasKey(t, key) && HasKey(StoreRuns.Step(t, op), key)
    ensures CreatesKey(op, key)
  {
    StoreRuns.StepHasItsEffect(t, op);
    var t', e := StoreRuns.Step(t, op), StoreRuns.EffectOf(t, op);
    FindMisses(t.policies, key);
    FindMisses(t'.policies, key);
    hide StoreRuns.Step, Find;
    if !e.Inserted? {
      PoliciesGainNoKey(t, e, key);
    }
    hide StoreRuns.EffectOf, StoreRuns.Policies;
  }

  lemma PoliciesGainNoKey(t: Tables, e: StoreRuns.Effect, key: Key)
    requires !e.Inserted? && (e.Revised? || e.Removed? ==> e.i < |t.policies|)
    requires forall i :: 0 <= i < |t.policies| ==> KeyOf(t.policies[i]) != key
    ensures forall i :: 0 <= i < |StoreRuns.Policies(t, e)| ==> KeyOf(StoreRuns.Policies(t, e)[i]) != key
  {
    if e.Removed? {
      StoreRuns.Survivors(t.policies, e.i);
    }
  }

  lemma DeletedKeyIsGone(t: Tables, namespace: string, name: string)
    requires StoreRuns.KeysAreUnique(t.policies)
    ensures !HasKey(DeleteIfExists(t, Some(namespace), name), (NamespaceOrDefault(Some(namespace)), name))
  {
    var key := (NamespaceOrDefault(Some(namespace)), name);
    var t' := DeleteIfExists(t, Some(namespace), name);
    FindMisses(t.policies, key);
    FindMisses(t'.policies, key);
    if HasKey(t, key) {
      var i := Find(t.policies, key).value;
      forall j | 0 <= j < |t'.policies| ensures KeyOf(t'.policies[j]) != key {
        assert t'.policies[j] == t.policies[if j < i then j else j + 1];
      }
    }
  }

  lemma PassLeavesNoOrphan(setup: Setup, w: World, o: Outcomes)
    requires Valid(w) && setup.hasControlPlane && StoreRuns.KeysAreUnique(w.tables.policies)
    requires HasKey(w.tables, OwnKey(setup)) ==> Held(w)
    ensures
      var w' := Pass(setup, w, o).1;
      HasKey(w'.tables, OwnKey(setup)) ==> Held(w')
  {
    PassKeepsHold(setup, w, o);
    PassAndTables(setup, w, o);
    var w' := Pass(setup, w, o).1;
    if Confirms(w, o) {
      ConfirmedDeletion(setup, w, o);
      DeletedKeyIsGone(w.tables, setup.ref.namespace, setup.ref.name);
    } else if !HasKey(w.tables, OwnKey(setup)) && HasKey(w'.tables, OwnKey(setup)) {
      hide Pass, StoreRuns.Step, HasKey;
      if w.route.value.deleting {
        KeyAppears(w.tables, StoreRuns.DeleteIfExistsOp(Some(setup.ref.namespace), setup.ref.name), OwnKey(setup));
      }
    }
  }

  lemma ConfirmedDeletion(setup: Setup, w: World, o: Outcomes)
    requires Valid(w) && setup.hasControlPlane && Confirms(w, o)
    ensures Pass(setup, w, o).1.tables == DeleteIfExists(w.tables, Some(setup.ref.namespace), setup.ref.name)
  {
    hide DeleteIfExists;
  }

  lemma StepLeavesNoOrphan(setup: Setup, w: World, e: Event)
    requires Valid(w) && setup.hasControlPlane && StoreRuns.KeysAreUnique(w.tables.policies)
    requires HasKey(w.tables, OwnKey(setup)) ==> Held(w)
    requires e.Elsewhere? ==> !CreatesKey(e.op, OwnKey(setup))
    ensures HasKey(Next(setup, w, e).tables, OwnKey(setup)) ==> Held(Next(setup, w, e))
  {
    hide Pass, StoreRuns.Step, HasKey, CreatesKey, StoreRuns.KeysAreUnique;
    if e.Reconciled? {
      PassLeavesNoOrphan(setup, w, e.o);
    } else if e.Elsewhere? && !HasKey(w.tables, OwnKey(setup))
      && HasKey(StoreRuns.Step(w.tables, e.op), OwnKey(setup)) {
      KeyAppears(w.tables, e.op, OwnKey(setup));
    }
  }

  /**
   * Unless somebody else creates it, the control plane never holds a policy for an object that is
   * gone or free to go.
   */
  lemma {:induction false} NoOrphanPolicies(setup: Setup, installed: string, events: seq<Event>)
    requires setup.hasControlPlane && AllFresh(setup, installed, events) && NobodyElseCreates(setup, events)
    ensures HasKey(After(setup, installed, events).tables, OwnKey(setup)) ==> Held(After(setup, installed, events))
  {
    hide Next, HasKey, Held, Fresh, StoreRuns.KeysAreUnique, CreatesKey;
    if events == [] {
      NothingHeldAtFirst(setup, installed);
    } else {
      var before := events[..|events| - 1];
      NoOrphanPolicies(setup, installed, before);
      TablesAreUnique(setup, installed, before);
      StepLeavesNoOrphan(setup, After(setup, installed, before), events[|events| - 1]);
    }
  }

  lemma NothingHeldAtFirst(setup: Setup, installed: string)
    ensures !HasKey(After(setup, installed, []).tables, OwnKey(setup))
  {
  }

  lemma TablesAreUnique(setup: Setup, installed: string, events: seq<Event>)
    requires AllFresh(setup, installed, events)
    ensures StoreRuns.KeysAreUnique(After(setup, installed, events).tables.policies)
  {
    TablesStayHistorical(setup, installed, events);
  }
}
