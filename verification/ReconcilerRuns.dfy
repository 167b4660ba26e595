/**
 * Runs of the reconciler against an environment that edits and deletes the object, restarts the
 * process, loses calls before or after they took effect, and works on the control plane's tables.
 */
module ReconcilerRuns {
  import opened Wrappers
  import opened Routes
  import opened Admission
  import opened Discovery
  import opened Cluster
  import opened EffectiveWeights
  import opened RoutingModel
  import opened HAProxy
  import opened Compiler
  import opened CompiledFile
  import opened Reconciler
  import opened Store
  import Wire
  import Registration
  import Canary
  import StoreRuns

  datatype Event =
    | Reconciled(o: Outcomes)
    | Declared(spec: RouteSpec)
    | Edited(spec: RouteSpec)
    | DeletionRequested
    | Restarted
    | Elsewhere(op: StoreRuns.Op)

  function Next(setup: Setup, w: World, e: Event): (w': World)
    requires Valid(w)
    ensures Valid(w')
  {
    match e
    case Reconciled(o) => Pass(setup, w, o).1
    case Declared(spec) =>
      if w.route.None? then w.(route := Some(TrafficRoute(spec, 1, false, false, NO_STATUS))) else w
    case Edited(spec) =>
      if w.route.None? || w.route.value.spec == spec then w
      else w.(route := Some(w.route.value.(spec := spec, generation := w.route.value.generation + 1)))
    case DeletionRequested =>
      if w.route.None? then w
      else if w.route.value.finalizer then w.(route := Some(w.route.value.(deleting := true)))
      else w.(route := None)
    case Restarted => w.(cpCache := map[])
    case Elsewhere(op) => w.(tables := StoreRuns.Step(w.tables, op))
  }

  /** From an empty cluster in front of whatever file the proxy was installed with. */
  function After(setup: Setup, installed: string, events: seq<Event>): (w: World)
    ensures Valid(w)
  {
    if events == [] then World(None, map[], EMPTY, installed)
    else Next(setup, After(setup, installed, events[..|events| - 1]), events[|events| - 1])
  }

  // ---- What a pass gets to do --------------------------------------------------------------

  /** The pass reaches validation: the object is here to stay and carries the finalizer. */
  predicate Settles(w: World, o: Outcomes) {
    w.route.Some? && !w.route.value.deleting && (w.route.value.finalizer || o.finalizerAdded.Written?)
  }

  /** The pass reaches registration. */
  predicate Registers(setup: Setup, w: World, o: Outcomes) {
    Settles(w, o) && Admissible(w.route.value.spec) && o.cache.Some? && setup.hasControlPlane
  }

  function Request(setup: Setup, tr: TrafficRoute): Wire.RouteSpec {
    WireSpec(setup.ref, tr.generation, tr.spec)
  }

  /** The configuration a settling pass works with: just granted, last known good, or none. */
  function WorkingConfig(setup: Setup, w: World, o: Outcomes): Option<Wire.RouteConfig>
    requires Valid(w) && w.route.Some?
  {
    RegisterWithControlPlane(setup, w, w.route.value, o).1
  }

  /** The file a pass wants live; None when it does not get that far. */
  function Wanted(setup: Setup, w: World, o: Outcomes): Option<string>
    requires Valid(w)
  {
    if !Settles(w, o) || !Admissible(w.route.value.spec) || o.cache.None? || !setup.hasProxy then None
    else
      var spec, s := w.route.value.spec, o.cache.value;
      if Issues(s, spec.routes, VersionLabelKey(spec)) != [] then None
      else
        match Render(ModelOf(setup, spec, s, WorkingConfig(setup, w, o)))
        case Err(_) => None
        case Ok(config) => Some(Text(setup.skeleton, config))
  }

  /** A pass touches the live file only when it wants one, and then only by applying that one. */
  lemma PassAndLive(setup: Setup, w: World, o: Outcomes)
    requires Valid(w)
    ensures
      var wanted := Wanted(setup, w, o);
      Pass(setup, w, o).1.live == if wanted.None? then w.live else Apply(w.live, wanted.value, o.readable, o.push).1
  {
    hide Admissible, Issues, Render, ModelOf, Text, Apply, Registration.Register, StatusOf, RouteStatuses, WireSpec;
  }

  /** A pass changes the control plane's tables by one registration, one deletion, or not at all. */
  lemma PassAndTables(setup: Setup, w: World, o: Outcomes)
    requires Valid(w)
    ensures
      var t, t' := w.tables, Pass(setup, w, o).1.tables;
      || t' == t
      || (Registers(setup, w, o) && !o.register.Refused?
          && t' == StoreRuns.Step(t, StoreRuns.RegisterOp(Request(setup, w.route.value), o.uuid)))
      || (w.route.Some? && w.route.value.deleting && setup.hasControlPlane && !o.delete.Refused?
          && t' == StoreRuns.Step(t, StoreRuns.DeleteIfExistsOp(Some(setup.ref.namespace), setup.ref.name)))
  {
    hide Admissible, Issues, Render, ModelOf, Text, Apply, Registration.Register, StatusOf, RouteStatuses, WireSpec;
  }

  // ---- The tables stay historical ----------------------------------------------------------

  /** Random UUIDs collide with no stored one. */
  predicate Fresh(w: World, e: Event) {
    match e
    case Reconciled(o) => forall i :: 0 <= i < |w.tables.policies| ==> w.tables.policies[i].id != o.uuid
    case Elsewhere(op) => StoreRuns.FreshId(w.tables, op)
    case _ => true
  }

  predicate AllFresh(setup: Setup, installed: string, events: seq<Event>) {
    events != [] ==>
      && AllFresh(setup, installed, events[..|events| - 1])
      && Fresh(After(setup, installed, events[..|events| - 1]), events[|events| - 1])
  }

  lemma StepKeepsHistory(t: Tables, op: StoreRuns.Op)
    requires Canary.SoundCanaries(t) && StoreRuns.Historical(t) && StoreRuns.FreshId(t, op)
    ensures StoreRuns.Historical(StoreRuns.Step(t, op))
  {
    hide StoreRuns.Historical, StoreRuns.Step;
    StoreRuns.StepHasItsEffect(t, op);
    StoreRuns.EffectKeepsHistory(t, op, StoreRuns.Step(t, op));
  }

  lemma StepOfRunKeepsHistory(setup: Setup, w: World, e: Event)
    requires Valid(w) && StoreRuns.Historical(w.tables) && Fresh(w, e)
    ensures StoreRuns.Historical(Next(setup, w, e).tables)
  {
    hide StoreRuns.Historical, Pass, StoreRuns.Step, Admissible, WireSpec;
    match e
    case Reconciled(o) =>
      PassAndTables(setup, w, o);
      var t' := Pass(setup, w, o).1.tables;
      if t' != w.tables {
        if w.route.value.deleting {
          StepKeepsHistory(w.tables, StoreRuns.DeleteIfExistsOp(Some(setup.ref.namespace), setup.ref.name));
        }
        StepKeepsHistory(w.tables, StoreRuns.RegisterOp(Request(setup, w.route.value), o.uuid));
      }
    case Elsewhere(op) =>
      StepKeepsHistory(w.tables, op);
    case _ =>
  }

  lemma {:induction false} TablesStayHistorical(setup: Setup, installed: string, events: seq<Event>)
    requires AllFresh(setup, installed, events)
    ensures StoreRuns.Historical(After(setup, installed, events).tables)
  {
    hide StoreRuns.Historical, Next, Fresh;
    if events == [] {
      NoTablesNoHistory(setup, installed);
    } else {
      var before := events[..|events| - 1];
      TablesStayHistorical(setup, installed, before);
      StepOfRunKeepsHistory(setup, After(setup, installed, before), events[|events| - 1]);
    }
  }

  lemma NoTablesNoHistory(setup: Setup, installed: string)
    ensures StoreRuns.Historical(After(setup, installed, []).tables)
  {
  }

  // ---- Last known good ---------------------------------------------------------------------

  /** The Data Plane API keeps what it is given, up to blanks. */
  predicate FaithfulProxy(setup: Setup, w: World, e: Event)
    requires Valid(w)
  {
    e.Reconciled? && Wanted(setup, w, e.o).Some? ==> Faithful(e.o.push, Wanted(setup, w, e.o).value)
  }

  predicate AllFaithful(setup: Setup, installed: string, events: seq<Event>) {
    events != [] ==>
      && AllFaithful(setup, installed, events[..|events| - 1])
      && FaithfulProxy(setup, After(setup, installed, events[..|events| - 1]), events[|events| - 1])
  }

  /** The file wanted by the last pass whose push arrived. */
  function LastProgrammed(setup: Setup, installed: string, events: seq<Event>): Option<string> {
    if events == [] then None
    else
      var before, e := events[..|events| - 1], events[|events| - 1];
      var wanted := if e.Reconciled? then Wanted(setup, After(setup, installed, before), e.o) else None;
      if wanted.Some? && e.o.readable && !e.o.push.Rejected? then wanted else LastProgrammed(setup, installed, before)
  }

  /**
   * Over every run the live file is the installed one until a pass programs it, and from then on
   * the file of the last pass that did: one with an admissible spec and every endpoint resolved.
   */
  lemma {:induction false} LiveIsLastProgrammed(setup: Setup, installed: string, events: seq<Event>)
    requires AllFaithful(setup, installed, events)
    ensures
      var live, last := After(setup, installed, events).live, LastProgrammed(setup, installed, events);
      if last.None? then live == installed else Normal(live) == Normal(last.value)
  {
    hide Normal, Pass, Wanted, Apply, Faithful;
    if events != [] {
      var before, e := events[..|events| - 1], events[|events| - 1];
      LiveIsLastProgrammed(setup, installed, before);
      var w := After(setup, installed, before);
      if e.Reconciled? {
        PassAndLive(setup, w, e.o);
        var wanted := Wanted(setup, w, e.o);
        if wanted.Some? {
          ApplyFollows(w.live, wanted.value, e.o.readable, e.o.push);
        }
      }
    }
  }

  lemma ApplyFollows(live: string, raw: string, readable: bool, push: Push)
    requires Faithful(push, raw)
    ensures
      var after := Apply(live, raw, readable, push).1;
      if readable && !push.Rejected? then Normal(after) == Normal(raw) else after == live
  {
    hide Normal;
  }

  // ---- When nothing is amiss ---------------------------------------------------------------

  /** The backend of every rule is all there. */
  ghost predicate AllBacked(s: Snapshot, routes: seq<RouteRule>, versionLabel: string) {
    forall i :: 0 <= i < |routes| ==> Backed(s, routes[i], versionLabel)
  }

  /** A pass finds no issue exactly when the cluster itself has none. */
  lemma {:induction false} NoIssuesIff(s: Snapshot, routes: seq<RouteRule>, versionLabel: string)
    ensures Issues(s, routes, versionLabel) == [] <==> AllBacked(s, routes, versionLabel)
  {
    hide ResolutionOf, RuleIssues, Backed;
    if routes != [] {
      var before, last := routes[..|routes| - 1], routes[|routes| - 1];
      NoIssuesIff(s, before, versionLabel);
      RuleHasNoIssueIff(s, last, versionLabel);
      assert AllBacked(s, routes, versionLabel)
          <==> AllBacked(s, before, versionLabel) && Backed(s, last, versionLabel) by {
        assert forall i :: 0 <= i < |before| ==> routes[i] == before[i];
      }
    }
  }

  lemma RuleHasNoIssueIff(s: Snapshot, rule: RouteRule, versionLabel: string)
    ensures RuleIssues(rule, ResolutionOf(s, rule, versionLabel)) == [] <==> Backed(s, rule, versionLabel)
  {
    BackedIff(s, rule, versionLabel);
    VersionsHaveNoIssueIff(RoutePath(rule), ResolutionOf(s, rule, versionLabel).versions);
    hide ResolutionOf, VersionIssues, Backed;
  }

  lemma {:induction false} VersionsHaveNoIssueIff(path: string, sets: seq<EndpointSet>)
    ensures VersionIssues(path, sets) == [] <==> forall v :: 0 <= v < |sets| ==> sets[v].ready > 0
  {
    if sets != [] {
      VersionsHaveNoIssueIff(path, sets[..|sets| - 1]);
    }
  }

  lemma BackedServicesAreFound(s: Snapshot, spec: RouteSpec, versionLabel: string)
    requires AllBacked(s, spec.routes, versionLabel)
    ensures ServicesFound(s, spec, versionLabel)
  {
    hide ResolutionOf, Backed;
    forall i | 0 <= i < |spec.routes| ensures ResolutionOf(s, spec.routes[i], versionLabel).serviceFound {
      BackedIff(s, spec.routes[i], versionLabel);
    }
  }

  /**
   * If the pass wants a file at all, the spec is admissible, every endpoint is resolved, and the file
   * is rendered from the spec under `config` and meant to implement it; written in plain words, what
   * a proxy reads from it does.
   */
  ghost predicate WantsImplementation(setup: Setup, w: World, o: Outcomes, config: Option<Wire.RouteConfig>)
    requires Valid(w) && w.route.Some? && o.cache.Some?
  {
    Wanted(setup, w, o).Some? ==>
      var spec, s := w.route.value.spec, o.cache.value;
      var c := Render(ModelOf(setup, spec, s, config));
      && Admissible(spec) && AllBacked(s, spec.routes, VersionLabelKey(spec))
      && c.Ok?
      && Wanted(setup, w, o) == Some(Text(setup.skeleton, c.value))
      && Implements(ViewOf(c.value), s, spec, config, VersionLabelKey(spec))
      && (PlainDeployment(setup, spec, s, config) ==>
            Serves(Wanted(setup, w, o).value, s, spec, config, VersionLabelKey(spec)))
  }

  /** Host, paths, names, addresses and skeleton are all such that the text means what was written. */
  ghost predicate PlainDeployment(setup: Setup, spec: RouteSpec, s: Snapshot, config: Option<Wire.RouteConfig>) {
    PlainRoute(spec) && PlainSurroundings(setup.skeleton, s, spec, config, VersionLabelKey(spec), setup.naming)
  }

  ghost predicate BackendsAreDistinct(setup: Setup, w: World, o: Outcomes, config: Option<Wire.RouteConfig>)
    requires w.route.Some? && o.cache.Some?
  {
    DistinctBackends(ModelOf(setup, w.route.value.spec, o.cache.value, config).rules)
  }

  /**
   * Every file a pass wants implements an admissible, completely resolved spec, under the pass's
   * working configuration.
   */
  lemma WantedImplementsTheSpec(setup: Setup, w: World, o: Outcomes)
    requires Valid(w) && w.route.Some? && o.cache.Some?
    requires BackendsAreDistinct(setup, w, o, WorkingConfig(setup, w, o))
    ensures WantsImplementation(setup, w, o, WorkingConfig(setup, w, o))
  {
    hide Issues, Implements, Render, Admissible, Text, WorkingConfig, ResolutionOf, DistinctBackends, AllBacked;
    var spec, s := w.route.value.spec, o.cache.value;
    if Wanted(setup, w, o).Some? {
      NoIssuesIff(s, spec.routes, VersionLabelKey(spec));
      BackedServicesAreFound(s, spec, VersionLabelKey(spec));
      RenderIsCorrect(s, spec, WorkingConfig(setup, w, o), VersionLabelKey(spec), setup.naming);
      hide Wanted, PlainRoute, PlainSurroundings, Serves, ServicesFound, Compiled, AllBacked;
      if PlainDeployment(setup, spec, s, WorkingConfig(setup, w, o)) {
        PlainRouteIsServed(setup.skeleton, s, spec, WorkingConfig(setup, w, o), VersionLabelKey(spec), setup.naming,
                           Wanted(setup, w, o).value);
      }
    }
  }

  /** What one event makes of the last granted configuration. */
  function Grant(setup: Setup, w: World, e: Event, granted: Option<Wire.RouteConfig>): Option<Wire.RouteConfig>
    requires Valid(w)
  {
    if e.Restarted? then None
    else if !e.Reconciled? then granted
    else if w.route.Some? && w.route.value.deleting && w.route.value.finalizer
            && (e.o.delete.Answered? || !setup.hasControlPlane) then None
    else if Registers(setup, w, e.o) && e.o.register.Answered?
            && Registration.Register(w.tables, Request(setup, w.route.value), e.o.uuid).0.Some?
    then Registration.Register(w.tables, Request(setup, w.route.value), e.o.uuid).0
    else granted
  }

  /** The last configuration the control plane granted to this process and this object. */
  function LastGranted(setup: Setup, installed: string, events: seq<Event>): Option<Wire.RouteConfig> {
    if events == [] then None
    else
      var before := events[..|events| - 1];
      Grant(setup, After(setup, installed, before), events[|events| - 1], LastGranted(setup, installed, before))
  }

  lemma PassAndCache(setup: Setup, w: World, o: Outcomes)
    requires Valid(w)
    ensures
      var cache, cache' := w.cpCache, Pass(setup, w, o).1.cpCache;
      if w.route.Some? && w.route.value.deleting && w.route.value.finalizer
          && (o.delete.Answered? || !setup.hasControlPlane)
      then cache' == cache - {setup.ref}
      else if Registers(setup, w, o) && o.register.Answered?
              && Registration.Register(w.tables, Request(setup, w.route.value), o.uuid).0.Some?
      then cache' == cache[setup.ref := Registration.Register(w.tables, Request(setup, w.route.value), o.uuid).0.value]
      else cache' == cache
  {
    hide Admissible, Issues, Render, ModelOf, Text, Apply, Registration.Register, StatusOf, RouteStatuses, WireSpec;
  }

  function Cached(setup: Setup, granted: Option<Wire.RouteConfig>): map<Wire.RouteRef, Wire.RouteConfig> {
    if granted.Some? then map[setup.ref := granted.value] else map[]
  }

  lemma StepAndCache(setup: Setup, w: World, e: Event, granted: Option<Wire.RouteConfig>)
    requires Valid(w) && w.cpCache == Cached(setup, granted)
    ensures Next(setup, w, e).cpCache == Cached(setup, Grant(setup, w, e, granted))
  {
    hide Pass, Registers, Registration.Register, StoreRuns.Step;
    if e.Reconciled? {
      PassAndCache(setup, w, e.o);
    }
  }

  lemma {:induction false} CacheIsLastGranted(setup: Setup, installed: string, events: seq<Event>)
    ensures After(setup, installed, events).cpCache == Cached(setup, LastGranted(setup, installed, events))
  {
    hide Next, Grant;
    if events != [] {
      var before := events[..|events| - 1];
      CacheIsLastGranted(setup, installed, before);
      StepAndCache(setup, After(setup, installed, before), events[|events| - 1], LastGranted(setup, installed, before));
    }
  }

  /** What `granted` names weighs what it was granted; the rest weighs what it declares. */
  predicate WeighsAsGranted(granted: Option<Wire.RouteConfig>, rule: RouteRule) {
    forall j :: 0 <= j < |rule.versions| ==>
      var grant := if granted.None? then None else GrantedTo(granted.value, RoutePath(rule), rule.versions[j].name);
      Weight(granted, rule, j) == if grant.Some? then grant.value else rule.versions[j].weight
  }

  /**
   * Whenever registration fails, the pass programs the weights of the last registration this
   * process saw succeed, for every path and version that registration named, and the declared
   * weights for the rest; and the declared weights alone when there was none.
   */
  lemma LastKnownGoodIsProgrammed(setup: Setup, installed: string, events: seq<Event>, o: Outcomes)
    requires Registers(setup, After(setup, installed, events), o) && !o.register.Answered?
    requires BackendsAreDistinct(setup, After(setup, installed, events), o, LastGranted(setup, installed, events))
    ensures WantsImplementation(setup, After(setup, installed, events), o, LastGranted(setup, installed, events))
    ensures forall i :: 0 <= i < |After(setup, installed, events).route.value.spec.routes| ==>
      WeighsAsGranted(LastGranted(setup, installed, events), After(setup, installed, events).route.value.spec.routes[i])
  {
    hide WorkingConfig, LastGranted, After, Wanted, Admissible, GrantedTo, WantsImplementation, BackendsAreDistinct;
    var w := After(setup, installed, events);
    CacheIsLastGranted(setup, installed, events);
    FailedRegistrationUsesTheCache(setup, w, o);
    WantedImplementsTheSpec(setup, w, o);
  }

  lemma FailedRegistrationUsesTheCache(setup: Setup, w: World, o: Outcomes)
    requires Valid(w) && w.route.Some? && setup.hasControlPlane && !o.register.Answered?
    ensures WorkingConfig(setup, w, o) == if setup.ref in w.cpCache then Some(w.cpCache[setup.ref]) else None
  {
    hide Registration.Register, WireSpec;
  }

  // ---- Status ------------------------------------------------------------------------------

  predicate Holds(status: Status, kind: ConditionType) {
    kind in status.conditions && status.conditions[kind].holds
  }

  /** Ready says exactly that the data plane is programmed, and never without the steps before it. */
  predicate Coherent(status: Status) {
    && (status.phase == Ready <==> Holds(status, Programmed))
    && (status.phase == Ready ==> Holds(status, Accepted) && Holds(status, Resolved))
  }

  lemma StatusesAreCoherent(tr: TrafficRoute, routes: seq<RouteStatus>, issues: seq<Issue>, registered: Finding,
                            programmed: Finding, failed: bool, now: int)
    requires registered.kind == ControlPlaneRegistered && programmed.kind == Programmed
    requires programmed.holds ==> issues == [] && !failed
    ensures
      var findings := [Finding(Accepted, true, SpecValid), ResolvedFinding(issues), registered, programmed];
      Coherent(StatusOf(tr, PhaseAfter(issues == [], programmed, failed), routes, findings, now))
    ensures Coherent(StatusOf(tr, Invalid, routes, InvalidFindings(tr.spec), now))
  {
    FourConditions(tr.status.conditions, Finding(Accepted, true, SpecValid), ResolvedFinding(issues), registered,
                   programmed, tr.generation, now);
    var findings := InvalidFindings(tr.spec);
    assert findings[..1] == [findings[0]] && findings[..1][..0] == [];
  }

  /** Setting the four conditions one after another, written out. */
  lemma FourConditions(conditions: map<ConditionType, Condition>, a: Finding, b: Finding, c: Finding, d: Finding,
                       generation: int, now: int)
    ensures SetConditions(conditions, [a, b, c, d], generation, now) ==
      SetCondition(SetCondition(SetCondition(SetCondition(conditions, a, generation, now), b, generation, now),
                                c, generation, now), d, generation, now)
  {
    hide SetCondition;
    OneMore(conditions, [], a, generation, now);
    OneMore(conditions, [a], b, generation, now);
    OneMore(conditions, [a, b], c, generation, now);
    OneMore(conditions, [a, b, c], d, generation, now);
    assert [] + [a] == [a] && [a] + [b] == [a, b] && [a, b] + [c] == [a, b, c] && [a, b, c] + [d] == [a, b, c, d];
  }

  lemma OneMore(conditions: map<ConditionType, Condition>, findings: seq<Finding>, f: Finding, generation: int,
                now: int)
    ensures SetConditions(conditions, findings + [f], generation, now) ==
      SetCondition(SetConditions(conditions, findings, generation, now), f, generation, now)
  {
    assert (findings + [f])[..|findings|] == findings;
  }

  lemma ProgramFindings(setup: Setup, live: string, resolved: bool, m: Model, o: Outcomes)
    ensures
      var (programmed, failed, _) := Program(setup, live, resolved, m, o);
      && programmed.kind == Programmed
      && (programmed.holds ==> resolved && !failed)
  {
    hide Render, Text, Apply;
  }

  lemma PassKeepsCoherence(setup: Setup, w: World, o: Outcomes)
    requires Valid(w) && (w.route.Some? ==> Coherent(w.route.value.status))
    ensures
      var w' := Pass(setup, w, o).1;
      w'.route.Some? ==> Coherent(w'.route.value.status)
  {
    hide Admissible, Issues, Render, ModelOf, Registration.Register, StatusOf, RouteStatuses, WireSpec, Coherent,
         Program, InvalidFindings, PhaseAfter;
    if Settles(w, o) {
      var tr := w.route.value.(finalizer := true);
      var w1 := w.(route := Some(tr));
      if !Admissible(tr.spec) {
        StatusesAreCoherent(tr, tr.status.routes, [], Finding(ControlPlaneRegistered, false, SpecValid),
                            Finding(Programmed, false, SpecValid), false, o.now);
      } else if o.cache.Some? {
        var s, key := o.cache.value, VersionLabelKey(tr.spec);
        var issues := Issues(s, tr.spec.routes, key);
        var (registered, config, w') := RegisterWithControlPlane(setup, w1, tr, o);
        var m := ModelOf(setup, tr.spec, s, config);
        ProgramFindings(setup, w1.live, issues == [], m, o);
        var (programmed, failed, live) := Program(setup, w1.live, issues == [], m, o);
        StatusesAreCoherent(tr, RouteStatuses(s, tr.spec.routes, key), issues, registered, programmed, failed, o.now);
      }
    }
  }

  /** In every reachable state, whatever failed on the way. */
  lemma {:induction false} StatusIsAlwaysCoherent(setup: Setup, installed: string, events: seq<Event>)
    ensures
      var w := After(setup, installed, events);
      w.route.Some? ==> Coherent(w.route.value.status)
  {
    if events != [] {
      var w, e := After(setup, installed, events[..|events| - 1]), events[|events| - 1];
      StatusIsAlwaysCoherent(setup, installed, events[..|events| - 1]);
      if e.Reconciled? {
        PassKeepsCoherence(setup, w, e.o);
      }
      hide Pass;
    }
  }
}
