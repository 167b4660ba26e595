/**
 * What an implemented route does in terms of the cluster: behind the line a request takes stand
 * exactly the ready pods of its rule's versions, each on the port the cluster reaches it on, and
 * each with its part of its version's weight.
 */
module Served {
  import opened Wrappers
  import opened Sequences
  import opened Routes
  import opened Discovery
  import opened Cluster
  import opened EffectiveWeights
  import opened RoutingModel
  import opened HAProxy
  import opened ProxyReader
  import opened Compiler
  import opened CompiledFile
  import Admission
  import Integers
  import Wire

  /** A rule without versions has one unnamed one that weighs 100. */
  function VersionCount(rule: RouteRule): nat {
    if rule.versions == [] then 1 else |rule.versions|
  }

  function VersionWeight(config: Option<Wire.RouteConfig>, rule: RouteRule, j: nat): int
    requires j < VersionCount(rule)
  {
    if rule.versions == [] then 100 else EffectiveWeight(config, rule, j)
  }

  function Pods(s: Snapshot, rule: RouteRule, labelKey: string, j: nat): multiset<string> {
    ServingAddresses(s.pods, rule, labelKey, AllEndpoints(s.SlicesOf(rule.backend.service)), j)
  }

  function AllPods(s: Snapshot, rule: RouteRule, labelKey: string, n: nat): multiset<string> {
    if n == 0 then multiset{} else AllPods(s, rule, labelKey, n - 1) + Pods(s, rule, labelKey, n - 1)
  }

  /** One of n parts of a weight: the quotient rounded down or up, but at least 1 and at most 256. */
  predicate IsPart(part: int, weight: int, n: nat) {
    if weight <= 0 then part == 0
    else 1 <= part <= 256 && (part == 1 || (part - 1) * n < weight) && (part == 256 || weight < (part + 1) * n)
  }

  /** This server line sends version j's share to one of its ready pods. */
  ghost predicate ServesVersion(u: Upstream, s: Snapshot, rule: RouteRule, config: Option<Wire.RouteConfig>,
                                labelKey: string, j: nat)
    requires j < VersionCount(rule)
  {
    && ServedAt(s, rule, labelKey, j, u.address)
    && IsPart(u.weight, VersionWeight(config, rule, j), |Pods(s, rule, labelKey, j)|)
  }

  function Addresses(us: seq<Upstream>): multiset<string> {
    if us == [] then multiset{} else Addresses(us[..|us| - 1]) + multiset{us[|us| - 1].address}
  }

  /** The lines are the ready pods of all versions, one line for each. */
  ghost predicate ServedByPods(us: seq<Upstream>, s: Snapshot, rule: RouteRule, config: Option<Wire.RouteConfig>,
                               labelKey: string)
  {
    && (forall u :: u in us ==> ReachedOn(s, rule, u.port))
    && (forall u :: u in us ==>
          exists j: nat :: j < VersionCount(rule) && ServesVersion(u, s, rule, config, labelKey, j))
    && (forall j: nat, a :: j < VersionCount(rule) && ServedAt(s, rule, labelKey, j, a) ==>
          exists u :: u in us && u.address == a && ServesVersion(u, s, rule, config, labelKey, j))
    && Addresses(us) == AllPods(s, rule, labelKey, VersionCount(rule))
  }

  // ---- Parts of versions -------------------------------------------------------------------

  lemma Rounded(q: nat, r: nat, n: nat, w: int)
    requires r < n && (w == q || (w == q + 1 && r > 0))
    ensures (w - 1) * n < q * n + r < (w + 1) * n
  {
    assert (q - 1) * n == q * n - n && (q + 1) * n == q * n + n && (q + 2) * n == q * n + n + n;
  }

  lemma ClampedIsPart(weight: int, n: nat, w: int, part: int)
    requires 0 < weight && (w - 1) * n < weight < (w + 1) * n
    requires part == if w < 1 then 1 else if w > 256 then 256 else w
    ensures IsPart(part, weight, n)
  {
    var below, above := (w - 1) * n, (w + 1) * n;
    if w < 1 {
      Integers.Scaled(w + 1, 2, n);
    } else if w > 256 {
      Integers.Scaled(255, w - 1, n);
    }
  }

  lemma ShareIsClamped(weight: int, n: nat, i: nat) returns (w: int)
    requires i < n && weight > 0
    ensures Shares(weight, n)[i] == if w < 1 then 1 else if w > 256 then 256 else w
    ensures w == weight / n || (w == weight / n + 1 && weight % n > 0)
  {
    w := weight / n + if i < weight % n then 1 else 0;
    assert Shares(weight, n)[i] == Share(weight, n, i);
  }

  lemma ShareIsPart(weight: int, n: nat, i: nat)
    requires i < n
    ensures IsPart(Shares(weight, n)[i], weight, n)
  {
    if weight > 0 {
      var w := ShareIsClamped(weight, n, i);
      Quotient(weight, n, weight / n, weight % n);
      Rounded(weight / n, weight % n, n, w);
      hide Shares, IsPart;
      ClampedIsPart(weight, n, w, Shares(weight, n)[i]);
    }
  }

  lemma Quotient(weight: nat, n: nat, q: nat, r: nat)
    requires n > 0 && q == weight / n && r == weight % n
    ensures q * n + r == weight && r < n
  {
  }

  lemma {:induction false} PartsAreParts(sets: seq<EndpointSet>, port: int, weights: seq<int>, u: Upstream)
    requires |sets| == |weights|
    ensures u in Parts(sets, port, weights) <==> exists v :: 0 <= v < |sets| && u in PartOf(sets[v], port, weights[v])
  {
    hide PartOf;
    if sets != [] {
      var last := |sets| - 1;
      PartsAreParts(sets[..last], port, weights[..last], u);
      assert forall v :: 0 <= v < last ==> sets[..last][v] == sets[v] && weights[..last][v] == weights[v];
    }
  }

  lemma {:induction false} AddressesConcat(a: seq<Upstream>, b: seq<Upstream>)
    ensures Addresses(a + b) == Addresses(a) + Addresses(b)
  {
    if b == [] {
      assert a + b == a;
    } else {
      assert (a + b)[..|a + b| - 1] == a + b[..|b| - 1];
      AddressesConcat(a, b[..|b| - 1]);
    }
  }

  lemma {:induction false} AddressesPermute(a: seq<Upstream>, b: seq<Upstream>)
    requires multiset(a) == multiset(b)
    ensures Addresses(a) == Addresses(b)
  {
    assert |multiset(a)| == |a| && |multiset(b)| == |b|;
    if a != [] {
      var i := Split(a, b);
      AddressesPermute(a[..|a| - 1], b[..i] + b[i + 1..]);
      AddressesConcat(b[..i], b[i + 1..]);
      AddressesConcat(b[..i] + [b[i]], b[i + 1..]);
      AddressesConcat(b[..i], [b[i]]);
      assert [b[i]][..0] == [];
    }
  }

  lemma {:induction false} AddressesOfLines(us: seq<Upstream>, addresses: seq<string>)
    requires |us| == |addresses| && forall m :: 0 <= m < |us| ==> us[m].address == addresses[m]
    ensures Addresses(us) == multiset(addresses)
  {
    if us != [] {
      var last := |us| - 1;
      AddressesOfLines(us[..last], addresses[..last]);
      assert addresses == addresses[..last] + [addresses[last]];
    }
  }

  lemma {:induction false} AddressesOfParts(s: Snapshot, rule: RouteRule, labelKey: string, sets: seq<EndpointSet>,
                                            port: int, weights: seq<int>)
    requires |sets| == |weights|
    requires forall v :: 0 <= v < |sets| ==> multiset(sets[v].addresses) == Pods(s, rule, labelKey, v)
    ensures Addresses(Parts(sets, port, weights)) == AllPods(s, rule, labelKey, |sets|)
  {
    hide Pods, PartOf;
    if sets != [] {
      var last := |sets| - 1;
      AddressesOfParts(s, rule, labelKey, sets[..last], port, weights[..last]);
      AddressesConcat(Parts(sets[..last], port, weights[..last]), PartOf(sets[last], port, weights[last]));
      PartHasAddresses(sets[last], port, weights[last]);
    }
  }

  lemma PartHasAddresses(es: EndpointSet, port: int, weight: int)
    ensures Addresses(PartOf(es, port, weight)) == multiset(es.addresses)
  {
    hide Shares;
    AddressesOfLines(PartOf(es, port, weight), es.addresses);
  }

  /** Version j's addresses, and what each of them is given. */
  lemma LineServes(s: Snapshot, rule: RouteRule, config: Option<Wire.RouteConfig>, labelKey: string, j: nat, m: nat)
    requires ResolutionOf(s, rule, labelKey).serviceFound && j < VersionCount(rule)
    requires |ResolutionOf(s, rule, labelKey).versions| == VersionCount(rule) == |VersionNames(rule)|
    requires m < |ResolutionOf(s, rule, labelKey).versions[j].addresses|
    ensures
      var res := ResolutionOf(s, rule, labelKey);
      var u := PartOf(res.versions[j], PortOf(rule, res), VersionWeight(config, rule, j))[m];
      u.address == res.versions[j].addresses[m] && u.port == PortOf(rule, res)
      && ServesVersion(u, s, rule, config, labelKey, j)
  {
    var addresses := ResolutionOf(s, rule, labelKey).versions[j].addresses;
    hide ResolutionOf, ServingAddresses, AllEndpoints, ServedAt, PortOf, Shares, IsPart, EffectiveWeight, VersionNames;
    VersionServes(s, rule, labelKey, j);
    assert |multiset(addresses)| == |addresses|;
    AddressIsListedIff(s, rule, labelKey, j, addresses[m]);
    ShareIsPart(VersionWeight(config, rule, j), |addresses|, m);
  }

  lemma CountsAgree(s: Snapshot, rule: RouteRule, labelKey: string)
    requires ResolutionOf(s, rule, labelKey).serviceFound
    ensures |ResolutionOf(s, rule, labelKey).versions| == VersionCount(rule) == |VersionNames(rule)|
  {
    ResolvedSetsCount(s, rule, labelKey);
    hide ResolutionOf;
  }

  /** One version's lines are its ready pods. */
  lemma PartServes(s: Snapshot, rule: RouteRule, config: Option<Wire.RouteConfig>, labelKey: string, j: nat)
    requires ResolutionOf(s, rule, labelKey).serviceFound && j < VersionCount(rule)
    requires |ResolutionOf(s, rule, labelKey).versions| == VersionCount(rule) == |VersionNames(rule)|
    ensures
      var res := ResolutionOf(s, rule, labelKey);
      var part := PartOf(res.versions[j], PortOf(rule, res), VersionWeight(config, rule, j));
      && (forall u :: u in part ==> ReachedOn(s, rule, u.port) && ServesVersion(u, s, rule, config, labelKey, j))
      && forall a :: ServedAt(s, rule, labelKey, j, a) ==>
           exists u :: u in part && u.address == a && ServesVersion(u, s, rule, config, labelKey, j)
  {
    hide ResolutionOf, ServedAt, ReachedOn, PortOf, VersionNames, ServesVersion, VersionWeight, Shares;
    var res := ResolutionOf(s, rule, labelKey);
    var es := res.versions[j];
    var part := PartOf(es, PortOf(rule, res), VersionWeight(config, rule, j));
    PortIsReachedOn(s, rule, labelKey, PortOf(rule, res));
    assert |part| == |es.addresses|;
    hide PartOf;
    forall m | 0 <= m < |part|
      ensures part[m].address == es.addresses[m] && part[m].port == PortOf(rule, res)
      ensures ServesVersion(part[m], s, rule, config, labelKey, j)
    {
      LineServes(s, rule, config, labelKey, j, m);
    }
    forall a | ServedAt(s, rule, labelKey, j, a)
      ensures exists u :: u in part && u.address == a && ServesVersion(u, s, rule, config, labelKey, j)
    {
      AddressIsListedIff(s, rule, labelKey, j, a);
      var m :| 0 <= m < |es.addresses| && es.addresses[m] == a;
      assert part[m] in part;
    }
  }

  /** The parts of all versions, as the resolution lists them. */
  function RuleParts(s: Snapshot, rule: RouteRule, config: Option<Wire.RouteConfig>, labelKey: string): seq<Upstream>
    requires |ResolutionOf(s, rule, labelKey).versions| == |Weights(config, rule)|
  {
    var res := ResolutionOf(s, rule, labelKey);
    Parts(res.versions, PortOf(rule, res), Weights(config, rule))
  }

  lemma EveryLineServes(s: Snapshot, rule: RouteRule, config: Option<Wire.RouteConfig>, labelKey: string, u: Upstream)
    requires ResolutionOf(s, rule, labelKey).serviceFound
    requires |ResolutionOf(s, rule, labelKey).versions| == VersionCount(rule) == |VersionNames(rule)|
    requires u in RuleParts(s, rule, config, labelKey)
    ensures ReachedOn(s, rule, u.port)
    ensures exists j: nat :: j < VersionCount(rule) && ServesVersion(u, s, rule, config, labelKey, j)
  {
    hide ResolutionOf, ReachedOn, PortOf, VersionNames, ServesVersion, EffectiveWeight, PartOf, Parts;
    var res, weights := ResolutionOf(s, rule, labelKey), Weights(config, rule);
    PartsAreParts(res.versions, PortOf(rule, res), weights, u);
    var v :| 0 <= v < |res.versions| && u in PartOf(res.versions[v], PortOf(rule, res), weights[v]);
    PartServes(s, rule, config, labelKey, v);
  }

  lemma EveryPodIsServed(s: Snapshot, rule: RouteRule, config: Option<Wire.RouteConfig>, labelKey: string, j: nat,
                         a: string) returns (u: Upstream)
    requires ResolutionOf(s, rule, labelKey).serviceFound
    requires |ResolutionOf(s, rule, labelKey).versions| == VersionCount(rule) == |VersionNames(rule)|
    requires j < VersionCount(rule) && ServedAt(s, rule, labelKey, j, a)
    ensures u in RuleParts(s, rule, config, labelKey) && u.address == a
    ensures ServesVersion(u, s, rule, config, labelKey, j)
  {
    hide ResolutionOf, ReachedOn, PortOf, VersionNames, ServesVersion, EffectiveWeight, PartOf, Parts, ServedAt;
    var res, weights := ResolutionOf(s, rule, labelKey), Weights(config, rule);
    PartServes(s, rule, config, labelKey, j);
    u :| u in PartOf(res.versions[j], PortOf(rule, res), weights[j]) && u.address == a
         && ServesVersion(u, s, rule, config, labelKey, j);
    PartsAreParts(res.versions, PortOf(rule, res), weights, u);
  }

  lemma EveryAddressIsServed(s: Snapshot, rule: RouteRule, config: Option<Wire.RouteConfig>, labelKey: string)
    requires ResolutionOf(s, rule, labelKey).serviceFound
    requires |ResolutionOf(s, rule, labelKey).versions| == VersionCount(rule) == |VersionNames(rule)|
    ensures Addresses(RuleParts(s, rule, config, labelKey)) == AllPods(s, rule, labelKey, VersionCount(rule))
  {
    hide ResolutionOf, PortOf, VersionNames, VersionCount, EffectiveWeight, Parts, ServingAddresses, AllEndpoints;
    var res := ResolutionOf(s, rule, labelKey);
    forall j: nat | j < |res.versions| ensures multiset(res.versions[j].addresses) == Pods(s, rule, labelKey, j) {
      VersionServes(s, rule, labelKey, j);
    }
    AddressesOfParts(s, rule, labelKey, res.versions, PortOf(rule, res), Weights(config, rule));
  }

  lemma BalancedIsServed(us: seq<Upstream>, s: Snapshot, rule: RouteRule, config: Option<Wire.RouteConfig>,
                         labelKey: string)
    requires ResolutionOf(s, rule, labelKey).serviceFound
    requires Balances(us, s, rule, Weights(config, rule), labelKey)
    ensures ServedByPods(us, s, rule, config, labelKey)
  {
    hide ResolutionOf, Parts, PortOf, ServedAt, ReachedOn, ServesVersion, Addresses, AllPods, VersionNames,
         VersionCount, Weights;
    CountsAgree(s, rule, labelKey);
    var parts := RuleParts(s, rule, config, labelKey);
    assert multiset(us) == multiset(parts);
    hide Balances, RuleParts;
    AddressesPermute(us, parts);
    EveryAddressIsServed(s, rule, config, labelKey);
    SameElements(us, parts);
    forall u | u in us
      ensures ReachedOn(s, rule, u.port)
      ensures exists j: nat :: j < VersionCount(rule) && ServesVersion(u, s, rule, config, labelKey, j)
    {
      EveryLineServes(s, rule, config, labelKey, u);
    }
    forall j: nat, a | j < VersionCount(rule) && ServedAt(s, rule, labelKey, j, a)
      ensures exists u :: u in us && u.address == a && ServesVersion(u, s, rule, config, labelKey, j)
    {
      var u := EveryPodIsServed(s, rule, config, labelKey, j, a);
    }
  }

  lemma SameElements<T>(a: seq<T>, b: seq<T>)
    requires multiset(a) == multiset(b)
    ensures forall x :: x in a <==> x in b
  {
    assert forall x :: x in a <==> x in multiset(a);
    assert forall x :: x in b <==> x in multiset(b);
  }

  // ---- Requests ----------------------------------------------------------------------------

  /** Where one request goes: to the ready pods of the rule with the longest prefix, or nowhere. */
  ghost predicate RequestReachesPods(v: View, s: Snapshot, spec: RouteSpec, config: Option<Wire.RouteConfig>,
                                     labelKey: string, header: string, path: string)
  {
    var k, i := FirstMatch(v.uses, header, path), LongestMatch(spec.routes, path);
    && (k.Some? <==> RequestHost(header) == spec.host && i.Some?)
    && (k.Some? ==>
          ServedByPods(UpstreamsBehind(v.pools, v.uses[k.value].backend), s, spec.routes[i.value], config, labelKey))
  }

  /** A proxy that implements a route sends every request to ready pods, on their ports, by their versions' weights. */
  lemma RequestsReachPods(v: View, s: Snapshot, spec: RouteSpec, config: Option<Wire.RouteConfig>, labelKey: string,
                          header: string, path: string)
    requires ServicesFound(s, spec, labelKey) && Implements(v, s, spec, config, labelKey)
    ensures RequestReachesPods(v, s, spec, config, labelKey, header, path)
  {
    assert RequestServed(v, s, spec, config, labelKey, header, path);
    hide Balances, ServedByPods, LongestMatch, FirstMatch, UpstreamsBehind, ResolutionOf, Weights, Implements;
    var k, i := FirstMatch(v.uses, header, path), LongestMatch(spec.routes, path);
    if k.Some? {
      BalancedIsServed(UpstreamsBehind(v.pools, v.uses[k.value].backend), s, spec.routes[i.value], config, labelKey);
    }
  }

  /** Down to the file: what a proxy reads from any text taken for the rendered one does that. */
  lemma FileReachesPods(skeleton: string, s: Snapshot, spec: RouteSpec, config: Option<Wire.RouteConfig>,
                        labelKey: string, naming: Naming, text: string, header: string, path: string)
    requires Admission.Admissible(spec) && ServicesFound(s, spec, labelKey) && PlainRoute(spec)
    requires PlainSurroundings(skeleton, s, spec, config, labelKey, naming)
    requires
      var r := Render(Compiled(s, spec, config, labelKey, naming));
      r.Ok? && Normal(text) == Normal(Text(skeleton, r.value))
    ensures Read(text).Some? && RequestReachesPods(Read(text).value, s, spec, config, labelKey, header, path)
  {
    hide *;
    PlainRouteIsServed(skeleton, s, spec, config, labelKey, naming, text);
    ServedIsImplemented(text, s, spec, config, labelKey);
    RequestsReachPods(Read(text).value, s, spec, config, labelKey, header, path);
  }

  lemma ServedIsImplemented(text: string, s: Snapshot, spec: RouteSpec, config: Option<Wire.RouteConfig>,
                            labelKey: string)
    requires Serves(text, s, spec, config, labelKey)
    ensures Read(text).Some? && Implements(Read(text).value, s, spec, config, labelKey)
  {
    hide Read, Implements;
  }
}
