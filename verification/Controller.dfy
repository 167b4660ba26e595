/** The reconciler as the object that runs: it updates the four parts of the world in place, call by call. */
module Controller {
  import opened Wrappers
  import opened Routes
  import opened Admission
  import opened Discovery
  import opened EffectiveWeights
  import opened RoutingModel
  import opened Compiler
  import opened Reconciler
  import HAProxy
  import Wire
  import Store
  import Registration
  import Canary

  /** Where the TrafficRoute object is stored. */
  class ApiServer {
    var route: Option<TrafficRoute>

    constructor ()
      ensures route == None
    {
      route := None;
    }
  }

  class TrafficRouteReconciler {
    const setup: Setup
    const api: ApiServer
    const controlPlane: Registration.RouteGrpcService
    const proxy: HAProxy.Proxy
    var cpCache: map<Wire.RouteRef, Wire.RouteConfig>

    constructor (setup: Setup, api: ApiServer, controlPlane: Registration.RouteGrpcService, proxy: HAProxy.Proxy)
      requires controlPlane.Valid() && proxy.skeleton == setup.skeleton
      ensures Wired() && View() == World(api.route, map[], controlPlane.View(), proxy.live)
    {
      this.setup, this.api, this.controlPlane, this.proxy := setup, api, controlPlane, proxy;
      cpCache := map[];
    }

    predicate Wired() {
      controlPlane.Valid() && proxy.skeleton == setup.skeleton
    }

    function View(): World
      reads this, api, controlPlane.policies.db, proxy
    {
      World(api.route, cpCache, controlPlane.View(), proxy.live)
    }

    method Reconcile(o: Outcomes) returns (verdict: Verdict)
      requires Wired() && Valid(View())
      modifies this, api, controlPlane.policies.db, proxy
      ensures (verdict, View()) == Pass(setup, old(View()), o)
    {
      hide Reconciler.Settle, Reconciler.Finalize;
      if api.route.None? {
        return Verdict(false, NoDelay);
      }
      var tr := api.route.value;
      if tr.deleting {
        verdict := Finalize(tr, o);
        return;
      }
      ghost var start := View();
      if !tr.finalizer {
        tr := tr.(finalizer := true);
        var ok := Update(Some(tr), o.finalizerAdded);
        if !ok {
          return Verdict(true, NoDelay);
        }
      }
      assert View() == start.(route := Some(tr));
      verdict := Settle(tr, o);
    }

    method Settle(tr: TrafficRoute, o: Outcomes) returns (verdict: Verdict)
      requires Wired() && Valid(View()) && api.route == Some(tr)
      modifies this, api, controlPlane.policies.db, proxy
      ensures (verdict, View()) == Reconciler.Settle(setup, old(View()), o)
    {
      hide Issues, RouteStatuses, Admissible, Reconciler.Program, Reconciler.RegisterWithControlPlane, StatusOf;
      hide Reconciler.ApplyStatus;
      ghost var start := View();
      var errs := ValidateTrafficRoute(tr.spec);
      if |errs| > 0 {
        var ok := ApplyStatus(tr, Invalid, tr.status.routes, InvalidFindings(tr.spec), o);
        return Verdict(!ok, NoDelay);
      }
      if o.cache.None? {
        return Verdict(true, NoDelay);
      }
      var issues, statuses, resolutions := Survey(o.cache.value, tr.spec.routes, VersionLabelKey(tr.spec));
      var resolved := |issues| == 0;
      var findings := [Finding(Accepted, true, SpecValid), ResolvedFinding(issues)];
      var registered, config := RegisterWithControlPlane(tr, o);
      findings := findings + [registered];
      var effectiveRoutes := ApplyEffectiveWeights(tr.spec.routes, config);
      var programmed, phaseAfterProgram, failed := Program(tr, resolved, effectiveRoutes, resolutions, o);
      findings := findings + [programmed];
      var phase := if resolved then Pending else Degraded;
      if !failed && resolved && phaseAfterProgram != NoPhase {
        phase := phaseAfterProgram;
      } else if failed {
        phase := Degraded;
      }
      var requeueAfter := Resync;
      if !registered.holds && setup.hasControlPlane {
        requeueAfter := ControlPlaneRetry;
      }
      assert findings == [Finding(Accepted, true, SpecValid), ResolvedFinding(issues), registered, programmed];
      var ok := ApplyStatus(tr, phase, statuses, findings, o);
      return Verdict(!ok || failed, requeueAfter);
    }

    method RegisterWithControlPlane(tr: TrafficRoute, o: Outcomes)
      returns (registered: Finding, config: Option<Wire.RouteConfig>)
      requires Wired() && Valid(View())
      modifies `cpCache, controlPlane.policies.db
      ensures (registered, config, View()) == Reconciler.RegisterWithControlPlane(setup, old(View()), tr, o)
    {
      if !setup.hasControlPlane {
        return Finding(ControlPlaneRegistered, false, ControlPlaneNotConfigured), None;
      }
      var answer, error := None, "";
      if o.register.Refused? {
        error := o.register.error;
      } else {
        var request := BuildRouteSpec(setup.ref, tr.generation, tr.spec);
        answer := controlPlane.RegisterRoute(request, o.uuid);
        if o.register.ReplyLost? {
          answer, error := None, o.register.error;
        }
      }
      if answer.Some? {
        cpCache := cpCache[setup.ref := answer.value];
        return Finding(ControlPlaneRegistered, true, Registered(answer.value.generation)), answer;
      }
      if setup.ref in cpCache {
        return Finding(ControlPlaneRegistered, false, UsingLastKnownGood(error)), Some(cpCache[setup.ref]);
      }
      return Finding(ControlPlaneRegistered, false, Unavailable(error)), None;
    }

    method Program(tr: TrafficRoute, resolved: bool, effectiveRoutes: seq<RouteRule>,
                   resolutions: map<string, Resolution>, o: Outcomes)
      returns (programmed: Finding, phase: Phase, failed: bool)
      requires Wired()
      modifies proxy
      ensures
        var m := Model(tr.spec.host, RulesFor(tr.spec.host, effectiveRoutes, resolutions, setup.naming));
        (programmed, failed, proxy.live) == Reconciler.Program(setup, old(proxy.live), resolved, m, o)
      ensures phase == if programmed.holds then Ready else NoPhase
      ensures programmed.holds ==> resolved && !failed
    {
      hide HAProxy.Render, HAProxy.Text, HAProxy.Apply, RulesFor;
      if !setup.hasProxy {
        return Finding(Programmed, false, ProxyNotConfigured), NoPhase, false;
      }
      if !resolved {
        return Finding(Programmed, false, LastGoodConfigRetained), NoPhase, false;
      }
      var m := Build(tr.spec.host, effectiveRoutes, resolutions, setup.naming);
      var config := HAProxy.Render(m);
      if config.Err? {
        return Finding(Programmed, false, ProxyError(config.error)), NoPhase, true;
      }
      var raw := HAProxy.Text(setup.skeleton, config.value);
      var ok := proxy.ApplyConfig(raw, o.readable, o.push);
      if !ok {
        return Finding(Programmed, false, ProxyError(o.proxyError)), NoPhase, true;
      }
      return Finding(Programmed, true, ServingConfig(setup.digest(raw))), Ready, false;
    }

    method ApplyStatus(tr: TrafficRoute, phase: Phase, routes: seq<RouteStatus>, findings: seq<Finding>, o: Outcomes)
      returns (ok: bool)
      requires api.route == Some(tr)
      modifies api
      ensures
        var (done, stored) := Reconciler.ApplyStatus(tr, StatusOf(tr, phase, routes, findings, o.now), o.statusWrite);
        ok == done && api.route == Some(stored)
    {
      var conditions := tr.status.conditions;
      for i := 0 to |findings|
        invariant conditions == SetConditions(tr.status.conditions, findings[..i], tr.generation, o.now)
      {
        assert findings[..i + 1][..i] == findings[..i];
        conditions := SetCondition(conditions, findings[i], tr.generation, o.now);
      }
      assert findings[..|findings|] == findings;
      var updated := tr.(status := Status(phase, tr.generation, routes, conditions));
      if updated.status == tr.status {
        return true;
      }
      ok := Update(Some(updated), o.statusWrite);
      if o.statusWrite.Conflicted? {
        return true;
      }
    }

    method Finalize(tr: TrafficRoute, o: Outcomes) returns (verdict: Verdict)
      requires Wired() && Valid(View()) && api.route == Some(tr)
      modifies this, api, controlPlane.policies.db
      ensures (verdict, View()) == Reconciler.Finalize(setup, old(View()), tr, o)
    {
      if !tr.finalizer {
        return Verdict(false, NoDelay);
      }
      if setup.hasControlPlane {
        if !o.delete.Refused? {
          controlPlane.DeleteRoute(setup.ref);
        }
        if !o.delete.Answered? {
          return Verdict(true, NoDelay);
        }
      }
      cpCache := cpCache - {setup.ref};
      var ok := Update(None, o.finalizerRemoved);
      return Verdict(!ok, NoDelay);
    }

    /** A write to the API server; an object without its last finalizer is gone. */
    method Update(updated: Option<TrafficRoute>, write: Write) returns (ok: bool)
      modifies api
      ensures ok <==> write.Written?
      ensures api.route == if write.Written? || write.Unheard? then updated else old(api.route)
    {
      if write.Written? || write.Unheard? {
        api.route := updated;
      }
      return write.Written?;
    }
  }
}
