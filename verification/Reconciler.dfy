/**
 * The TrafficRoute reconciler: one pass over a world of four parts it does not own alone, the
 * stored object, the control plane's tables, the live proxy file and its own in-process cache.
 */
module Reconciler {
  import opened Wrappers
  import opened Routes
  import opened Admission
  import opened Discovery
  import opened EffectiveWeights
  import opened RoutingModel
  import opened HAProxy
  import opened Compiler
  import Wire
  import Store
  import Registration
  import Canary

  // ---- The object --------------------------------------------------------------------------

  datatype Phase = NoPhase | Pending | Ready | Degraded | Invalid

  datatype ConditionType = Accepted | Resolved | ControlPlaneRegistered | Programmed

  datatype Issue =
    | NoService(path: string, service: string)
    | NoPort(path: string, port: int, service: string)
    | NoReadyEndpoints(path: string, version: string)
    | UnmatchedEndpoints(path: string, count: nat)

  /** Reason and message of a condition, before they are formatted and cut to length. */
  datatype Message =
    | SpecValid
    | SpecInvalid(spec: RouteSpec)
    | SpecMustBeValid
    | EndpointsResolved
    | EndpointsUnavailable(issues: seq<Issue>)
    | ControlPlaneNotConfigured
    | Registered(generation: int)
    | UsingLastKnownGood(error: string)
    | Unavailable(error: string)
    | ProxyNotConfigured
    | LastGoodConfigRetained
    | ServingConfig(digest: string)
    | ProxyError(error: string)

  /** A condition as the reconciler states it; the stored one adds when it last changed. */
  datatype Finding = Finding(kind: ConditionType, holds: bool, message: Message)

  datatype Condition = Condition(holds: bool, message: Message, observedGeneration: int, since: int)

  datatype VersionEndpoints = VersionEndpoints(version: string, ready: nat, total: nat, addresses: seq<string>)

  /** The weights listed are the declared ones, not the effective ones. */
  datatype RouteStatus = RouteStatus(
    path: string, backend: BackendRef, resolvedEndpoints: seq<VersionEndpoints>,
    currentWeights: seq<Wire.VersionWeight>)

  datatype Status = Status(
    phase: Phase, observedGeneration: int, routes: seq<RouteStatus>, conditions: map<ConditionType, Condition>)

  const NO_STATUS := Status(NoPhase, 0, [], map[])

  datatype TrafficRoute = TrafficRoute(spec: RouteSpec, generation: int, finalizer: bool, deleting: bool,
                                       status: Status)

  // ---- The world and what can go wrong in it -----------------------------------------------

  datatype World = World(
    route: Option<TrafficRoute>, cpCache: map<Wire.RouteRef, Wire.RouteConfig>, tables: Store.Tables, live: string)

  /** How the controller was started. */
  datatype Setup = Setup(
    ref: Wire.RouteRef, hasControlPlane: bool, hasProxy: bool, skeleton: string, naming: Naming,
    digest: string -> string)

  /** A remote call fails before it takes effect, or after. */
  datatype Call = Answered | Refused(error: string) | ReplyLost(error: string)

  /** So does a write to the API server: unheard, it is stored but reported as an error. */
  datatype Write = Written | Unheard | Conflicted | Failed

  /** Everything one pass learns from outside; `cache` is None when a lookup fails. */
  datatype Outcomes = Outcomes(
    now: int,
    uuid: Store.Uuid,
    finalizerAdded: Write,
    cache: Option<Snapshot>,
    register: Call,
    readable: bool,
    push: Push,
    proxyError: string,
    statusWrite: Write,
    delete: Call,
    finalizerRemoved: Write)

  datatype Delay = NoDelay | Resync | ControlPlaneRetry

  /** ctrl.Result and error; an error is retried with backoff. */
  datatype Verdict = Verdict(failed: bool, requeueAfter: Delay)

  predicate Valid(w: World) {
    Canary.SoundCanaries(w.tables)
  }

  // ---- Discovery ---------------------------------------------------------------------------

  function VersionLabelKey(spec: RouteSpec): string {
    if spec.versionLabel != "" then spec.versionLabel else "app.kubernetes.io/version"
  }

  function VersionIssues(path: string, sets: seq<EndpointSet>): seq<Issue> {
    if sets == [] then []
    else
      var es := sets[|sets| - 1];
      VersionIssues(path, sets[..|sets| - 1]) + if es.ready == 0 then [NoReadyEndpoints(path, es.version)] else []
  }

  function RuleIssues(rule: RouteRule, res: Resolution): seq<Issue> {
    var path := RoutePath(rule);
    (if !res.serviceFound then [NoService(path, rule.backend.service)]
     else if !res.portFound then [NoPort(path, rule.backend.port, rule.backend.service)]
     else VersionIssues(path, res.versions))
    + if res.unmatched > 0 then [UnmatchedEndpoints(path, res.unmatched)] else []
  }

  function Endpoints(es: EndpointSet): VersionEndpoints {
    VersionEndpoints(es.version, es.ready, es.ready + es.notReady, es.addresses)
  }

  function EndpointLines(sets: seq<EndpointSet>): seq<VersionEndpoints> {
    seq(|sets|, i requires 0 <= i < |sets| => Endpoints(sets[i]))
  }

  function WeightLines(rule: RouteRule, sets: seq<EndpointSet>): seq<Wire.VersionWeight> {
    seq(|sets|, i requires 0 <= i < |sets| => Wire.VersionWeight(sets[i].version, WeightOf(rule, sets[i].version)))
  }

  function RuleStatus(rule: RouteRule, res: Resolution): RouteStatus {
    RouteStatus(RoutePath(rule), rule.backend, EndpointLines(res.versions), WeightLines(rule, res.versions))
  }

  function Issues(s: Snapshot, routes: seq<RouteRule>, versionLabel: string): seq<Issue> {
    if routes == [] then []
    else
      var rule := routes[|routes| - 1];
      Issues(s, routes[..|routes| - 1], versionLabel) + RuleIssues(rule, ResolutionOf(s, rule, versionLabel))
  }

  function RouteStatuses(s: Snapshot, routes: seq<RouteRule>, versionLabel: string): seq<RouteStatus> {
    seq(|routes|, i requires 0 <= i < |routes| => RuleStatus(routes[i], ResolutionOf(s, routes[i], versionLabel)))
  }

  /** The discovery loop of Reconcile. */
  method Survey(s: Snapshot, routes: seq<RouteRule>, versionLabel: string)
    returns (issues: seq<Issue>, statuses: seq<RouteStatus>, resolutions: map<string, Resolution>)
    ensures issues == Issues(s, routes, versionLabel)
    ensures statuses == RouteStatuses(s, routes, versionLabel)
    ensures resolutions == ResolveAll(s, routes, versionLabel)
  {
    hide ResolutionOf, RuleStatus, RuleIssues;
    issues, statuses, resolutions := [], [], map[];
    for i := 0 to |routes|
      invariant issues == Issues(s, routes[..i], versionLabel)
      invariant statuses == RouteStatuses(s, routes, versionLabel)[..i]
      invariant resolutions == ResolveAll(s, routes[..i], versionLabel)
    {
      var rule := routes[i];
      assert routes[..i + 1][..i] == routes[..i];
      var res := Resolve(s, rule, versionLabel);
      var found, status := Judge(rule, res);
      issues, statuses := issues + found, statuses + [status];
      resolutions := resolutions[RoutePath(rule) := res];
    }
    assert routes[..|routes|] == routes;
  }

  /** The body of that loop: one rule's issues and status line. */
  method Judge(rule: RouteRule, res: Resolution) returns (issues: seq<Issue>, status: RouteStatus)
    ensures issues == RuleIssues(rule, res) && status == RuleStatus(rule, res)
  {
    hide WeightOf;
    var path := if rule.path == "" then "/" else rule.path;
    var endpoints, weights := [], [];
    issues := [];
    if !res.serviceFound {
      issues := [NoService(path, rule.backend.service)];
    } else if !res.portFound {
      issues := [NoPort(path, rule.backend.port, rule.backend.service)];
    }
    var notReady := [];
    for v := 0 to |res.versions|
      invariant endpoints == EndpointLines(res.versions)[..v]
      invariant weights == WeightLines(rule, res.versions)[..v]
      invariant notReady == if res.serviceFound && res.portFound then VersionIssues(path, res.versions[..v]) else []
    {
      var es := res.versions[v];
      assert res.versions[..v + 1][..v] == res.versions[..v];
      endpoints := endpoints + [VersionEndpoints(es.version, es.ready, es.ready + es.notReady, es.addresses)];
      weights := weights + [Wire.VersionWeight(es.version, WeightOf(rule, es.version))];
      if res.serviceFound && res.portFound && es.ready == 0 {
        notReady := notReady + [NoReadyEndpoints(path, es.version)];
      }
    }
    assert res.versions[..|res.versions|] == res.versions;
    issues := issues + notReady;
    if res.unmatched > 0 {
      issues := issues + [UnmatchedEndpoints(path, res.unmatched)];
    }
    status := RouteStatus(path, rule.backend, endpoints, weights);
  }

  // ---- Registering, with the last known good config to fall back on ------------------------

  function Fallback(setup: Setup, w: World, error: string): (Finding, Option<Wire.RouteConfig>, World) {
    if setup.ref in w.cpCache
    then (Finding(ControlPlaneRegistered, false, UsingLastKnownGood(error)), Some(w.cpCache[setup.ref]), w)
    else (Finding(ControlPlaneRegistered, false, Unavailable(error)), None, w)
  }

  function RegisterWithControlPlane(setup: Setup, w: World, tr: TrafficRoute, o: Outcomes)
    : (r: (Finding, Option<Wire.RouteConfig>, World))
    requires Valid(w)
    ensures Valid(r.2)
  {
    if !setup.hasControlPlane then (Finding(ControlPlaneRegistered, false, ControlPlaneNotConfigured), None, w)
    else
      var (config, tables) := Registration.Register(w.tables, WireSpec(setup.ref, tr.generation, tr.spec), o.uuid);
      match o.register
      case Refused(error) => Fallback(setup, w, error)
      case ReplyLost(error) => Fallback(setup, w.(tables := tables), error)
      case Answered =>
        if config.None? then Fallback(setup, w.(tables := tables), "")
        else (Finding(ControlPlaneRegistered, true, Registered(config.value.generation)), config,
              w.(tables := tables, cpCache := w.cpCache[setup.ref := config.value]))
  }

  // ---- Programming -------------------------------------------------------------------------

  /** The Programmed condition, whether the pass must be retried, and the live file afterwards. */
  function Program(setup: Setup, live: string, resolved: bool, m: Model, o: Outcomes): (Finding, bool, string) {
    if !setup.hasProxy then (Finding(Programmed, false, ProxyNotConfigured), false, live)
    else if !resolved then (Finding(Programmed, false, LastGoodConfigRetained), false, live)
    else
      match Render(m)
      case Err(error) => (Finding(Programmed, false, ProxyError(error)), true, live)
      case Ok(config) =>
        var raw := Text(setup.skeleton, config);
        var (ok, after) := Apply(live, raw, o.readable, o.push);
        if ok then (Finding(Programmed, true, ServingConfig(setup.digest(raw))), false, after)
        else (Finding(Programmed, false, ProxyError(o.proxyError)), true, after)
  }

  // ---- Status ------------------------------------------------------------------------------

  /** meta.SetStatusCondition: the transition time moves only with the truth value. */
  function SetCondition(conditions: map<ConditionType, Condition>, f: Finding, generation: int, now: int)
    : map<ConditionType, Condition>
  {
    var since := if f.kind in conditions && conditions[f.kind].holds == f.holds then conditions[f.kind].since else now;
    conditions[f.kind := Condition(f.holds, f.message, generation, since)]
  }

  function SetConditions(conditions: map<ConditionType, Condition>, findings: seq<Finding>, generation: int, now: int)
    : map<ConditionType, Condition>
  {
    if findings == [] then conditions
    else SetCondition(SetConditions(conditions, findings[..|findings| - 1], generation, now),
                      findings[|findings| - 1], generation, now)
  }

  function StatusOf(tr: TrafficRoute, phase: Phase, routes: seq<RouteStatus>, findings: seq<Finding>,
                    now: int): Status {
    Status(phase, tr.generation, routes, SetConditions(tr.status.conditions, findings, tr.generation, now))
  }

  /** Nothing is written when nothing changed; a write conflict is left to the pass already queued. */
  function ApplyStatus(tr: TrafficRoute, updated: Status, write: Write): (bool, TrafficRoute) {
    if updated == tr.status then (true, tr)
    else
      match write
      case Written => (true, tr.(status := updated))
      case Unheard => (false, tr.(status := updated))
      case Conflicted => (true, tr)
      case Failed => (false, tr)
  }

  // ---- One pass ----------------------------------------------------------------------------

  function InvalidFindings(spec: RouteSpec): seq<Finding> {
    [Finding(Accepted, false, SpecInvalid(spec)), Finding(Programmed, false, SpecMustBeValid)]
  }

  function ResolvedFinding(issues: seq<Issue>): Finding {
    if issues == [] then Finding(Resolved, true, EndpointsResolved)
    else Finding(Resolved, false, EndpointsUnavailable(issues))
  }

  function PhaseAfter(resolved: bool, programmed: Finding, failed: bool): Phase {
    if failed then Degraded else if programmed.holds then Ready else if resolved then Pending else Degraded
  }

  function ModelOf(setup: Setup, spec: RouteSpec, s: Snapshot, config: Option<Wire.RouteConfig>): Model {
    Compiled(s, spec, config, VersionLabelKey(spec), setup.naming)
  }

  /** An object that is here to stay: validate, resolve, register, program, report. */
  function Settle(setup: Setup, w: World, o: Outcomes): (r: (Verdict, World))
    requires Valid(w) && w.route.Some?
    ensures Valid(r.1)
  {
    var tr := w.route.value;
    if !Admissible(tr.spec) then
      var status := StatusOf(tr, Invalid, tr.status.routes, InvalidFindings(tr.spec), o.now);
      var (ok, tr') := ApplyStatus(tr, status, o.statusWrite);
      (Verdict(!ok, NoDelay), w.(route := Some(tr')))
    else if o.cache.None? then (Verdict(true, NoDelay), w)
    else
      var s, labelKey := o.cache.value, VersionLabelKey(tr.spec);
      var issues := Issues(s, tr.spec.routes, labelKey);
      var (registered, config, w') := RegisterWithControlPlane(setup, w, tr, o);
      var (programmed, failed, live) := Program(setup, w.live, issues == [], ModelOf(setup, tr.spec, s, config), o);
      var findings := [Finding(Accepted, true, SpecValid), ResolvedFinding(issues), registered, programmed];
      var phase := PhaseAfter(issues == [], programmed, failed);
      var (ok, tr') := ApplyStatus(
        tr, StatusOf(tr, phase, RouteStatuses(s, tr.spec.routes, labelKey), findings, o.now), o.statusWrite);
      (Verdict(!ok || failed, if !registered.holds && setup.hasControlPlane then ControlPlaneRetry else Resync),
       w'.(route := Some(tr'), live := live))
  }

  /** An object on its way out: tell the control plane first, then let go. */
  function Finalize(setup: Setup, w: World, tr: TrafficRoute, o: Outcomes): (r: (Verdict, World))
    requires Valid(w)
    ensures Valid(r.1)
  {
    if !tr.finalizer then (Verdict(false, NoDelay), w)
    else
      var tables := if setup.hasControlPlane && !o.delete.Refused?
                    then Store.DeleteIfExists(w.tables, Some(setup.ref.namespace), setup.ref.name) else w.tables;
      if setup.hasControlPlane && !o.delete.Answered? then (Verdict(true, NoDelay), w.(tables := tables))
      else
        var cleared := w.(tables := tables, cpCache := w.cpCache - {setup.ref});
        match o.finalizerRemoved
        case Written => (Verdict(false, NoDelay), cleared.(route := None))
        case Unheard => (Verdict(true, NoDelay), cleared.(route := None))
        case _ => (Verdict(true, NoDelay), cleared)
  }

  function Pass(setup: Setup, w: World, o: Outcomes): (r: (Verdict, World))
    requires Valid(w)
    ensures Valid(r.1)
  {
    match w.route
    case None => (Verdict(false, NoDelay), w)
    case Some(tr) =>
      if tr.deleting then Finalize(setup, w, tr, o)
      else if !tr.finalizer && o.finalizerAdded.Unheard? then
        (Verdict(true, NoDelay), w.(route := Some(tr.(finalizer := true))))
      else if !tr.finalizer && !o.finalizerAdded.Written? then (Verdict(true, NoDelay), w)
      else Settle(setup, w.(route := Some(tr.(finalizer := true))), o)
  }
}
