/** The loop comes to rest: after a pass in which everything went well, another one changes nothing. */
module Quiescence {
  import opened Wrappers
  import opened Routes
  import opened Admission
  import opened Discovery
  import opened EffectiveWeights
  import opened RoutingModel
  import opened HAProxy
  import opened Compiler
  import opened Reconciler
  import opened ReconcilerRuns
  import Store
  import Wire
  import Registration
  import Sorting
  import Canary
  import StoreRuns

  // ---- Conditions settle -------------------------------------------------------------------

  predicate DistinctKinds(findings: seq<Finding>) {
    forall i, j :: 0 <= i < j < |findings| ==> findings[i].kind != findings[j].kind
  }

  predicate IsSet(conditions: map<ConditionType, Condition>, f: Finding, generation: int) {
    f.kind in conditions && conditions[f.kind] == Condition(f.holds, f.message, generation, conditions[f.kind].since)
  }

  lemma {:induction false} AllAreSet(conditions: map<ConditionType, Condition>, findings: seq<Finding>,
                                     generation: int, now: int)
    requires DistinctKinds(findings)
    ensures forall i :: 0 <= i < |findings| ==>
      IsSet(SetConditions(conditions, findings, generation, now), findings[i], generation)
  {
    if findings != [] {
      AllAreSet(conditions, findings[..|findings| - 1], generation, now);
    }
  }

  lemma {:induction false} SetConditionsStay(conditions: map<ConditionType, Condition>, findings: seq<Finding>,
                                             generation: int, now: int)
    requires forall i :: 0 <= i < |findings| ==> IsSet(conditions, findings[i], generation)
    ensures SetConditions(conditions, findings, generation, now) == conditions
  {
    if findings != [] {
      SetConditionsStay(conditions, findings[..|findings| - 1], generation, now);
    }
  }

  /** One condition set again and again. */
  datatype Report = Report(finding: Finding, generation: int, now: int)

  function Reported(reports: seq<Report>): map<ConditionType, Condition> {
    if reports == [] then map[]
    else
      var r := reports[|reports| - 1];
      SetCondition(Reported(reports[..|reports| - 1]), r.finding, r.generation, r.now)
  }

  /** The stored transition time is that of the first report of the truth value that has held since. */
  lemma {:induction false} SinceIsTheLastChange(reports: seq<Report>, kind: ConditionType) returns (k: nat)
    requires reports != [] && forall i :: 0 <= i < |reports| ==> reports[i].finding.kind == kind
    ensures k < |reports| && kind in Reported(reports)
    ensures Reported(reports)[kind].since == reports[k].now
    ensures Reported(reports)[kind].holds == reports[|reports| - 1].finding.holds
    ensures forall i :: k <= i < |reports| ==> reports[i].finding.holds == reports[k].finding.holds
    ensures k > 0 ==> reports[k - 1].finding.holds != reports[k].finding.holds
  {
    k := |reports| - 1;
    var before := reports[..k];
    if before != [] {
      var j := SinceIsTheLastChange(before, kind);
      if before[k - 1].finding.holds == reports[k].finding.holds {
        assert before[j] == reports[j] && (j > 0 ==> before[j - 1] == reports[j - 1]);
        k := j;
      }
    }
  }

  /** Stating the same findings again, at any later time, is no change. */
  lemma StatusSettles(tr: TrafficRoute, phase: Phase, routes: seq<RouteStatus>, findings: seq<Finding>, now: int,
                      later: int)
    requires DistinctKinds(findings)
    ensures
      var updated := StatusOf(tr, phase, routes, findings, now);
      StatusOf(tr.(status := updated), phase, routes, findings, later) == updated
  {
    AllAreSet(tr.status.conditions, findings, tr.generation, now);
    SetConditionsStay(SetConditions(tr.status.conditions, findings, tr.generation, now), findings, tr.generation,
      later);
  }

  // ---- Discovery answers the same ----------------------------------------------------------

  /** Both snapshots resolve every rule alike. */
  predicate SameResolutions(s: Snapshot, s': Snapshot, routes: seq<RouteRule>, versionLabel: string) {
    forall i :: 0 <= i < |routes| ==>
      ResolutionOf(s, routes[i], versionLabel) == ResolutionOf(s', routes[i], versionLabel)
  }

  lemma {:induction false} SameResolutionsSameSurvey(s: Snapshot, s': Snapshot, routes: seq<RouteRule>,
                                                     versionLabel: string)
    requires SameResolutions(s, s', routes, versionLabel)
    ensures Issues(s, routes, versionLabel) == Issues(s', routes, versionLabel)
    ensures RouteStatuses(s, routes, versionLabel) == RouteStatuses(s', routes, versionLabel)
    ensures ResolveAll(s, routes, versionLabel) == ResolveAll(s', routes, versionLabel)
  {
    hide ResolutionOf, RuleStatus, RuleIssues;
    if routes != [] {
      SameResolutionsSameSurvey(s, s', routes[..|routes| - 1], versionLabel);
    }
  }

  /** The cache may list its slices in another order, as long as they agree on the port each rule asks for. */
  lemma ReorderedSlicesResolveAlike(s: Snapshot, s': Snapshot, routes: seq<RouteRule>, versionLabel: string)
    requires s.services == s'.services && s.pods == s'.pods
    requires forall i :: 0 <= i < |routes| ==>
      && multiset(s.SlicesOf(routes[i].backend.service)) == multiset(s'.SlicesOf(routes[i].backend.service))
      && PortsAgree(s.SlicesOf(routes[i].backend.service), PortNameOf(s, routes[i]))
    ensures SameResolutions(s, s', routes, versionLabel)
  {
    forall i | 0 <= i < |routes|
      ensures ResolutionOf(s, routes[i], versionLabel) == ResolutionOf(s', routes[i], versionLabel)
    {
      ResolutionIgnoresSliceOrder(s, s', routes[i], versionLabel);
    }
  }

  // ---- Two passes --------------------------------------------------------------------------

  /** Everything went well. */
  predicate Smooth(o: Outcomes) {
    && o.finalizerAdded.Written? && o.cache.Some? && o.register.Answered? && o.readable && o.push.Stored?
    && o.statusWrite.Written? && o.delete.Answered? && o.finalizerRemoved.Written?
  }

  /**
   * The next pass reads the same environment. The clock, the UUIDs and whether any write would
   * succeed are left open: none is going to matter.
   */
  predicate ReadsTheSame(w: World, o: Outcomes, o': Outcomes)
    requires o.cache.Some?
  {
    && o'.cache.Some? && o'.register.Answered? && o'.readable
    && (w.route.Some? ==>
          var spec := w.route.value.spec;
          SameResolutions(o.cache.value, o'.cache.value, spec.routes, VersionLabelKey(spec)))
  }

  lemma RequestIsConsistent(setup: Setup, tr: TrafficRoute)
    requires Admissible(tr.spec)
    ensures Registration.Consistent(Request(setup, tr).rules)
  {
    hide Registration.Consistent;
    WireIsUnambiguous(tr.spec.routes) by {
      assert forall i :: 0 <= i < |tr.spec.routes| ==> RuleOk(tr.spec.routes[i]);
    }
    Registration.UnambiguousIsConsistent(Request(setup, tr).rules);
  }

  lemma RegistrationSettles(setup: Setup, w: World, o: Outcomes, o': Outcomes, other: World, tr': TrafficRoute)
    requires Valid(w) && w.route.Some? && StoreRuns.KeysAreUnique(w.tables.policies) && Admissible(w.route.value.spec)
    requires o.register.Answered? && o'.register.Answered?
    requires
      var w' := RegisterWithControlPlane(setup, w, w.route.value, o).2;
      Valid(other) && other.tables == w'.tables && other.cpCache == w'.cpCache
    requires tr'.spec == w.route.value.spec && tr'.generation == w.route.value.generation
    ensures
      var (registered, config, _) := RegisterWithControlPlane(setup, w, w.route.value, o);
      RegisterWithControlPlane(setup, other, tr', o') == (registered, config, other)
    ensures RegisterWithControlPlane(setup, w, w.route.value, o).0.holds <==> setup.hasControlPlane
  {
    hide Registration.Register, Registration.Consistent, Admissible, WireSpec;
    RequestIsConsistent(setup, w.route.value);
    StoreRuns.RegistrationIsIdempotent(w.tables, Request(setup, w.route.value), o.uuid, o'.uuid);
    if setup.hasControlPlane {
      var config := RegisterWithControlPlane(setup, w, w.route.value, o).1;
      assert config.Some? && other.cpCache == w.cpCache[setup.ref := config.value];
      assert other.cpCache[setup.ref := config.value] == other.cpCache;
    }
  }

  lemma ProgramSettles(setup: Setup, live: string, resolved: bool, m: Model, o: Outcomes, o': Outcomes)
    requires o.readable && o.push.Stored? && o'.readable && Render(m).Ok?
    requires setup.hasProxy && resolved ==> Faithful(o.push, Text(setup.skeleton, Render(m).value))
    ensures
      var (programmed, failed, after) := Program(setup, live, resolved, m, o);
      !failed && Program(setup, after, resolved, m, o') == (programmed, failed, after)
  {
    hide Text, Normal, Sorting.Sort;
    if setup.hasProxy && resolved {
      AppliedConfigStays(live, Text(setup.skeleton, Render(m).value), o.readable, o.push, o'.readable, o'.push);
    }
  }

  lemma SettledSpecStays(setup: Setup, w: World, o: Outcomes, o': Outcomes)
    requires Valid(w) && w.route.Some? && !Admissible(w.route.value.spec) && Smooth(o)
    ensures
      var w' := Settle(setup, w, o).1;
      w'.route.Some? && Settle(setup, w', o') == (Verdict(false, NoDelay), w')
  {
    var tr := w.route.value;
    StatusSettles(tr, Invalid, tr.status.routes, InvalidFindings(tr.spec), o.now, o'.now);
    hide Admissible, StatusOf, InvalidFindings;
  }

  /** A status that was written, or needed no writing, is found up to date by the same findings. */
  lemma WrittenStatusStays(tr: TrafficRoute, phase: Phase, routes: seq<RouteStatus>, findings: seq<Finding>,
                           o: Outcomes, o': Outcomes)
    requires DistinctKinds(findings) && o.statusWrite.Written?
    ensures
      var (ok, tr') := ApplyStatus(tr, StatusOf(tr, phase, routes, findings, o.now), o.statusWrite);
      && ok && tr' == tr.(status := tr'.status)
      && ApplyStatus(tr', StatusOf(tr', phase, routes, findings, o'.now), o'.statusWrite) == (true, tr')
  {
    StatusSettles(tr, phase, routes, findings, o.now, o'.now);
    hide StatusOf;
  }

  lemma RegistrationFinding(setup: Setup, w: World, tr: TrafficRoute, o: Outcomes)
    requires Valid(w)
    ensures RegisterWithControlPlane(setup, w, tr, o).0.kind == ControlPlaneRegistered
  {
    hide Registration.Register, WireSpec;
  }

  lemma AdmissibleHostIsNotEmpty(spec: RouteSpec)
    requires Admissible(spec)
    ensures spec.host != ""
  {
  }

  lemma FourKinds(issues: seq<Issue>, registered: Finding, programmed: Finding)
    requires registered.kind == ControlPlaneRegistered && programmed.kind == Programmed
    ensures DistinctKinds([Finding(Accepted, true, SpecValid), ResolvedFinding(issues), registered, programmed])
  {
  }

  lemma SameModel(setup: Setup, spec: RouteSpec, s: Snapshot, s': Snapshot, config: Option<Wire.RouteConfig>)
    requires ResolveAll(s, spec.routes, VersionLabelKey(spec)) == ResolveAll(s', spec.routes, VersionLabelKey(spec))
    ensures ModelOf(setup, spec, s, config) == ModelOf(setup, spec, s', config)
    ensures ModelOf(setup, spec, s, config).host == spec.host
  {
    hide ResolveAll, RulesFor, Adopt;
  }

  lemma WantedIsPushed(setup: Setup, w: World, o: Outcomes)
    requires Valid(w) && Settles(w, o) && Admissible(w.route.value.spec) && o.cache.Some?
    requires FaithfulProxy(setup, w, Reconciled(o))
    ensures
      var spec, s := w.route.value.spec, o.cache.value;
      var m := ModelOf(setup, spec, s, WorkingConfig(setup, w, o));
      setup.hasProxy && Issues(s, spec.routes, VersionLabelKey(spec)) == [] && Render(m).Ok? ==>
        Faithful(o.push, Text(setup.skeleton, Render(m).value))
  {
    hide Admissible, Issues, ModelOf, Text, Render, Faithful, WorkingConfig;
  }

  /** What the second pass computes is what the first one computed. */
  lemma SecondLookAgrees(setup: Setup, w: World, o: Outcomes, o': Outcomes, other: World)
    requires Valid(w) && w.route.Some? && Admissible(w.route.value.spec) && w.route.value.finalizer
        && !w.route.value.deleting
    requires StoreRuns.KeysAreUnique(w.tables.policies)
    requires Smooth(o) && ReadsTheSame(w, o, o') && FaithfulProxy(setup, w, Reconciled(o))
    requires
      var (registered, config, w1) := RegisterWithControlPlane(setup, w, w.route.value, o);
      var spec, s := w.route.value.spec, o.cache.value;
      && Valid(other) && other.tables == w1.tables && other.cpCache == w1.cpCache
      && other.route.Some? && other.route.value.spec == spec && other.route.value.generation == w.route.value.generation
      && other.live == Program(setup, w.live, Issues(s, spec.routes, VersionLabelKey(spec)) == [],
                               ModelOf(setup, spec, s, config), o).2
    ensures
      var (registered, config, _) := RegisterWithControlPlane(setup, w, w.route.value, o);
      var spec, s, s' := w.route.value.spec, o.cache.value, o'.cache.value;
      var key := VersionLabelKey(spec);
      var resolved := Issues(s, spec.routes, key) == [];
      var (programmed, failed, live) := Program(setup, w.live, resolved, ModelOf(setup, spec, s, config), o);
      && Issues(s', spec.routes, key) == Issues(s, spec.routes, key)
      && RouteStatuses(s', spec.routes, key) == RouteStatuses(s, spec.routes, key)
      && RegisterWithControlPlane(setup, other, other.route.value, o') == (registered, config, other)
      && Program(setup, other.live, resolved, ModelOf(setup, spec, s', config), o')
         == (programmed, failed, other.live)
      && !failed && (registered.holds <==> setup.hasControlPlane)
      && DistinctKinds([Finding(Accepted, true, SpecValid), ResolvedFinding(Issues(s, spec.routes, key)),
                        registered, programmed])
  {
    hide Issues, RouteStatuses, ResolveAll, Render, Program, RegisterWithControlPlane, SameResolutions, ModelOf,
         DistinctKinds, FaithfulProxy, Text, Faithful, StoreRuns.KeysAreUnique;
    var tr, s, s' := w.route.value, o.cache.value, o'.cache.value;
    var key := VersionLabelKey(tr.spec);
    SameResolutionsSameSurvey(s, s', tr.spec.routes, key);
    var issues := Issues(s, tr.spec.routes, key);
    var (registered, config, w1) := RegisterWithControlPlane(setup, w, tr, o);
    var m := ModelOf(setup, tr.spec, s, config);
    SameModel(setup, tr.spec, s, s', config);
    AdmissibleHostIsNotEmpty(tr.spec);
    HostRenders(m);
    hide Admissible;
    WantedIsPushed(setup, w, o);
    RegistrationSettles(setup, w, o, o', other, other.route.value);
    ProgramSettles(setup, w.live, issues == [], m, o, o');
    ProgramFindings(setup, w.live, issues == [], m, o);
    RegistrationFinding(setup, w, tr, o);
    FourKinds(issues, registered, Program(setup, w.live, issues == [], m, o).0);
  }

  lemma HostRenders(m: Model)
    requires m.host != ""
    ensures Render(m).Ok?
  {
  }

  lemma SettledObjectStays(setup: Setup, w: World, o: Outcomes, o': Outcomes)
    requires Valid(w) && w.route.Some? && Admissible(w.route.value.spec) && w.route.value.finalizer
        && !w.route.value.deleting
    requires StoreRuns.KeysAreUnique(w.tables.policies)
    requires Smooth(o) && ReadsTheSame(w, o, o') && FaithfulProxy(setup, w, Reconciled(o))
    ensures
      var w' := Settle(setup, w, o).1;
      && w'.route.Some? && w'.route.value == w.route.value.(status := w'.route.value.status)
      && Settle(setup, w', o') == (Verdict(false, Resync), w')
  {
    hide Admissible, Issues, RouteStatuses, StatusOf, Program, RegisterWithControlPlane, ApplyStatus, ModelOf,
         DistinctKinds, FaithfulProxy, StoreRuns.KeysAreUnique, PhaseAfter, ResolvedFinding, SameResolutions;
    var tr, s := w.route.value, o.cache.value;
    var key := VersionLabelKey(tr.spec);
    var issues := Issues(s, tr.spec.routes, key);
    var (registered, config, w1) := RegisterWithControlPlane(setup, w, tr, o);
    var (programmed, failed, live) := Program(setup, w.live, issues == [], ModelOf(setup, tr.spec, s, config), o);
    var findings := [Finding(Accepted, true, SpecValid), ResolvedFinding(issues), registered, programmed];
    var w' := Settle(setup, w, o).1;
    var phase, statuses := PhaseAfter(issues == [], programmed, failed), RouteStatuses(s, tr.spec.routes, key);
    ApplyStatusKeepsSpec(tr, StatusOf(tr, phase, statuses, findings, o.now), o.statusWrite);
    SecondLookAgrees(setup, w, o, o', w');
    WrittenStatusStays(tr, phase, statuses, findings, o, o');
  }

  lemma ApplyStatusKeepsSpec(tr: TrafficRoute, updated: Status, write: Write)
    ensures ApplyStatus(tr, updated, write).1 == tr.(status := ApplyStatus(tr, updated, write).1.status)
  {
  }

  /** One smooth pass, then another over the same environment: no table, no file, no status, no cache entry moves. */
  lemma SecondPassChangesNothing(setup: Setup, w: World, o: Outcomes, o': Outcomes)
    requires Valid(w) && StoreRuns.KeysAreUnique(w.tables.policies)
    requires Smooth(o) && ReadsTheSame(w, o, o') && FaithfulProxy(setup, w, Reconciled(o))
    ensures
      var w' := Pass(setup, w, o).1;
      Pass(setup, w', o').1 == w' && !Pass(setup, w', o').0.failed
  {
    if Settles(w, o) {
      var w1 := w.(route := Some(w.route.value.(finalizer := true)));
      assert FaithfulProxy(setup, w1, Reconciled(o)) by {
        FinalizerChangesNoWish(setup, w, o);
      }
      hide Settle, Admissible, StoreRuns.KeysAreUnique, FaithfulProxy, SameResolutions;
      if Admissible(w.route.value.spec) {
        SettledObjectStays(setup, w1, o, o');
      } else {
        SettledSpecKeepsObject(setup, w1, o, o');
      }
    }
  }

  lemma FinalizerChangesNoWish(setup: Setup, w: World, o: Outcomes)
    requires Valid(w) && Settles(w, o)
    ensures Wanted(setup, w, o) == Wanted(setup, w.(route := Some(w.route.value.(finalizer := true))), o)
  {
    hide Admissible, Issues, ModelOf, Text, Render, Registration.Register, WireSpec;
  }

  lemma SettledSpecKeepsObject(setup: Setup, w: World, o: Outcomes, o': Outcomes)
    requires Valid(w) && w.route.Some? && !Admissible(w.route.value.spec) && Smooth(o)
    ensures
      var w' := Settle(setup, w, o).1;
      && w'.route.Some? && w'.route.value == w.route.value.(status := w'.route.value.status)
      && Settle(setup, w', o') == (Verdict(false, NoDelay), w')
  {
    SettledSpecStays(setup, w, o, o');
    hide Admissible, StatusOf, InvalidFindings;
  }

  function Passes(os: seq<Outcomes>): seq<Event> {
    seq(|os|, i requires 0 <= i < |os| => Reconciled(os[i]))
  }

  /**
   * From any reachable state, after one smooth pass any number of further passes over the same
   * environment leave the whole world as it is, so reconciles triggered by decisions cannot feed themselves.
   */
  lemma {:induction false} TheLoopComesToRest(setup: Setup, installed: string, events: seq<Event>, o: Outcomes,
                                              later: seq<Outcomes>)
    requires AllFresh(setup, installed, events) && Smooth(o)
    requires FaithfulProxy(setup, After(setup, installed, events), Reconciled(o))
    requires forall i :: 0 <= i < |later| ==> ReadsTheSame(After(setup, installed, events), o, later[i])
    ensures After(setup, installed, events + [Reconciled(o)] + Passes(later))
        == Pass(setup, After(setup, installed, events), o).1
  {
    hide FaithfulProxy, Smooth, ReadsTheSame, Pass, AllFresh;
    var w, first := After(setup, installed, events), events + [Reconciled(o)];
    assert first[..|events|] == events;
    if later == [] {
      assert first + Passes(later) == first;
    } else {
      var before, last := later[..|later| - 1], later[|later| - 1];
      var all := first + Passes(later);
      assert all[..|all| - 1] == first + Passes(before);
      TheLoopComesToRest(setup, installed, events, o, before);
      TablesStayHistorical(setup, installed, events);
      SecondPassChangesNothing(setup, w, o, last);
    }
  }
}
