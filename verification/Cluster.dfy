/**
 * A rule's backend as the cluster itself describes it: which endpoints are ready, which version each
 * belongs to, and on which port they are reached. A resolution says exactly that.
 */
module Cluster {
  import opened Wrappers
  import opened Sorting
  import opened Sequences
  import opened Routes
  import opened Discovery
  import opened RoutingModel

  // ---- Endpoints ---------------------------------------------------------------------------

  /** A pod that lacks a label counts as having it empty. */
  predicate Carries(pod: Labels, v: BackendVersion, labelKey: string) {
    if v.labels == map[] then (if labelKey in pod then pod[labelKey] else "") == v.name
    else forall k :: k in v.labels ==> (if k in pod then pod[k] else "") == v.labels[k]
  }

  /** The first version in declared order whose labels the endpoint's pod carries. */
  predicate Belongs(pods: map<string, Labels>, rule: RouteRule, labelKey: string, ep: Endpoint, j: nat) {
    if rule.versions == [] then j == 0
    else
      && j < |rule.versions| && ep.target.Some? && ep.target.value.kind == "Pod" && ep.target.value.name in pods
      && Carries(pods[ep.target.value.name], rule.versions[j], labelKey)
      && forall i :: 0 <= i < j ==> !Carries(pods[ep.target.value.name], rule.versions[i], labelKey)
  }

  /** Traffic for version j may go to this endpoint: it does not say it is not ready. */
  predicate CanServe(pods: map<string, Labels>, rule: RouteRule, labelKey: string, ep: Endpoint, j: nat) {
    ep.ready != Some(false) && Belongs(pods, rule, labelKey, ep, j)
  }

  /** Where traffic for version j goes: the first address of every endpoint that can serve it. */
  function ServingAddresses(pods: map<string, Labels>, rule: RouteRule, labelKey: string, endpoints: seq<Endpoint>,
                            j: nat): multiset<string>
  {
    if endpoints == [] then multiset{}
    else
      var ep := endpoints[|endpoints| - 1];
      ServingAddresses(pods, rule, labelKey, endpoints[..|endpoints| - 1], j)
      + if CanServe(pods, rule, labelKey, ep, j) && ep.addresses != [] then multiset{ep.addresses[0]} else multiset{}
  }

  function Serving(pods: map<string, Labels>, rule: RouteRule, labelKey: string, endpoints: seq<Endpoint>,
                   j: nat): nat {
    if endpoints == [] then 0
    else
      Serving(pods, rule, labelKey, endpoints[..|endpoints| - 1], j)
      + if CanServe(pods, rule, labelKey, endpoints[|endpoints| - 1], j) then 1 else 0
  }

  function Belonging(pods: map<string, Labels>, rule: RouteRule, labelKey: string, endpoints: seq<Endpoint>,
                     j: nat): nat
  {
    if endpoints == [] then 0
    else
      Belonging(pods, rule, labelKey, endpoints[..|endpoints| - 1], j)
      + if Belongs(pods, rule, labelKey, endpoints[|endpoints| - 1], j) then 1 else 0
  }

  lemma CarriesIff(pod: Labels, v: BackendVersion, labelKey: string)
    ensures SelectorMatches(pod, SelectorOf(v, labelKey)) <==> Carries(pod, v, labelKey)
  {
    if v.labels == map[] {
      assert labelKey in SelectorOf(v, labelKey);
    }
  }

  lemma BelongsIff(lookup: Lookup, ep: Endpoint, j: nat)
    ensures lookup.BucketOf(ep) == Some(j) <==> Belongs(lookup.pods, lookup.rule, lookup.versionLabel, ep, j)
  {
    hide SelectorMatches, SelectorOf, Carries;
    forall pod, v
      ensures SelectorMatches(pod, SelectorOf(v, lookup.versionLabel)) <==> Carries(pod, v, lookup.versionLabel)
    {
      CarriesIff(pod, v, lookup.versionLabel);
    }
  }

  lemma {:induction false} BucketServes(lookup: Lookup, endpoints: seq<Endpoint>, j: nat)
    requires j < |VersionNames(lookup.rule)|
    ensures
      var es, key := lookup.Bucket(endpoints, j), lookup.versionLabel;
      && multiset(es.addresses) == ServingAddresses(lookup.pods, lookup.rule, key, endpoints, j)
      && es.ready == Serving(lookup.pods, lookup.rule, key, endpoints, j)
      && es.ready + es.notReady == Belonging(lookup.pods, lookup.rule, key, endpoints, j)
  {
    hide Lookup.BucketOf, Belongs, VersionNames, Lookup.Bucket;
    if endpoints == [] {
      NothingCounted(lookup, j);
    } else {
      var before, ep := endpoints[..|endpoints| - 1], endpoints[|endpoints| - 1];
      BucketServes(lookup, before, j);
      BelongsIff(lookup, ep, j);
      BucketOneMore(lookup, before, ep, j);
      assert before + [ep] == endpoints;
      CountedServes(lookup.Bucket(before, j), ep);
      hide Counted;
    }
  }

  lemma NothingCounted(lookup: Lookup, j: nat)
    requires j < |VersionNames(lookup.rule)|
    ensures lookup.Bucket([], j) == EndpointSet(VersionNames(lookup.rule)[j], 0, 0, [])
  {
  }

  lemma CountedServes(es: EndpointSet, ep: Endpoint)
    ensures
      var more := Counted(es, ep);
      && multiset(more.addresses) == multiset(es.addresses)
           + (if ep.ready != Some(false) && ep.addresses != [] then multiset{ep.addresses[0]} else multiset{})
      && more.ready == es.ready + (if ep.ready != Some(false) then 1 else 0)
      && more.ready + more.notReady == es.ready + es.notReady + 1
  {
  }

  /** An endpoint of one of the backend's slices. */
  ghost predicate InSlices(s: Snapshot, rule: RouteRule, ep: Endpoint) {
    exists i, k :: 0 <= i < |s.SlicesOf(rule.backend.service)| &&
      0 <= k < |s.SlicesOf(rule.backend.service)[i].endpoints| && s.SlicesOf(rule.backend.service)[i].endpoints[k] == ep
  }

  lemma {:induction false} EndpointsOfSlices(slices: seq<EndpointSlice>, ep: Endpoint)
    ensures ep in AllEndpoints(slices) <==> exists i :: 0 <= i < |slices| && ep in slices[i].endpoints
  {
    if slices == [] {
      assert AllEndpoints([]) == [];
    } else {
      var before, last := slices[..|slices| - 1], slices[|slices| - 1];
      EndpointsOfSlices(before, ep);
      AllEndpointsOneMore(before, last);
      assert slices == before + [last];
      hide AllEndpoints;
      if i :| 0 <= i < |slices| && ep in slices[i].endpoints {
        assert i < |before| ==> ep in before[i].endpoints;
      }
      if i :| 0 <= i < |before| && ep in before[i].endpoints {
        assert ep in slices[i].endpoints;
      }
      assert ep in last.endpoints ==> ep in slices[|before|].endpoints;
    }
  }

  lemma InSlicesIff(s: Snapshot, rule: RouteRule, ep: Endpoint)
    ensures InSlices(s, rule, ep) <==> ep in AllEndpoints(s.SlicesOf(rule.backend.service))
  {
    var slices := s.SlicesOf(rule.backend.service);
    EndpointsOfSlices(slices, ep);
    if InSlices(s, rule, ep) {
      var i, k :| 0 <= i < |slices| && 0 <= k < |slices[i].endpoints| && slices[i].endpoints[k] == ep;
      assert ep in slices[i].endpoints;
    }
    if i :| 0 <= i < |slices| && ep in slices[i].endpoints {
      var k :| 0 <= k < |slices[i].endpoints| && slices[i].endpoints[k] == ep;
    }
  }

  lemma {:induction false} AddressIsServedIff(pods: map<string, Labels>, rule: RouteRule, labelKey: string,
                                              endpoints: seq<Endpoint>, j: nat, a: string)
    ensures a in ServingAddresses(pods, rule, labelKey, endpoints, j) <==>
      exists ep ::
        ep in endpoints && CanServe(pods, rule, labelKey, ep, j) && ep.addresses != [] && ep.addresses[0] == a
    ensures Serving(pods, rule, labelKey, endpoints, j) > 0 <==>
      exists ep :: ep in endpoints && CanServe(pods, rule, labelKey, ep, j)
    ensures |ServingAddresses(pods, rule, labelKey, endpoints, j)| <= Serving(pods, rule, labelKey, endpoints, j)
  {
    hide CanServe;
    if endpoints != [] {
      var before, last := endpoints[..|endpoints| - 1], endpoints[|endpoints| - 1];
      AddressIsServedIff(pods, rule, labelKey, before, j, a);
      assert forall ep :: ep in endpoints <==> ep in before || ep == last;
    }
  }

  // ---- Versions of a resolution ------------------------------------------------------------

  /** Some listed endpoint can serve version j, and this is its first address. */
  ghost predicate ServedAt(s: Snapshot, rule: RouteRule, labelKey: string, j: nat, a: string) {
    exists ep ::
      InSlices(s, rule, ep) && CanServe(s.pods, rule, labelKey, ep, j) && ep.addresses != [] && ep.addresses[0] == a
  }

  ghost predicate SomeServes(s: Snapshot, rule: RouteRule, labelKey: string, j: nat) {
    exists ep :: InSlices(s, rule, ep) && CanServe(s.pods, rule, labelKey, ep, j)
  }

  lemma ResolvedVersion(s: Snapshot, rule: RouteRule, labelKey: string, j: nat)
    requires ResolutionOf(s, rule, labelKey).serviceFound && j < |VersionNames(rule)|
    ensures
      var res, endpoints := ResolutionOf(s, rule, labelKey), AllEndpoints(s.SlicesOf(rule.backend.service));
      var bucket := Lookup(s.pods, rule, labelKey).Bucket(endpoints, j);
      && |res.versions| == |VersionNames(rule)|
      && res.versions[j] == bucket.(addresses := Sort(Strings.Leq, bucket.addresses))
  {
    hide Lookup.Bucket, PortOfSlices, FindPort, VersionNames, AllEndpoints, Filter, Sort;
  }

  /**
   * A version's addresses are, with multiplicity, the first addresses of the endpoints that are ready
   * and belong to it, in the order of their names; its counts are those of its endpoints.
   */
  lemma VersionServes(s: Snapshot, rule: RouteRule, labelKey: string, j: nat)
    requires ResolutionOf(s, rule, labelKey).serviceFound && j < |VersionNames(rule)|
    ensures
      var res, endpoints := ResolutionOf(s, rule, labelKey), AllEndpoints(s.SlicesOf(rule.backend.service));
      && |res.versions| == |VersionNames(rule)| && res.versions[j].version == VersionNames(rule)[j]
      && multiset(res.versions[j].addresses) == ServingAddresses(s.pods, rule, labelKey, endpoints, j)
      && Sorted(Strings.Leq, res.versions[j].addresses)
      && |res.versions[j].addresses| <= res.versions[j].ready == Serving(s.pods, rule, labelKey, endpoints, j)
      && res.versions[j].ready + res.versions[j].notReady == Belonging(s.pods, rule, labelKey, endpoints, j)
  {
    hide ResolutionOf, VersionNames, AllEndpoints, ServingAddresses, Serving, Belonging;
    var endpoints, lookup := AllEndpoints(s.SlicesOf(rule.backend.service)), Lookup(s.pods, rule, labelKey);
    ResolvedVersion(s, rule, labelKey, j);
    BucketServes(lookup, endpoints, j);
    var bucket := lookup.Bucket(endpoints, j);
    BucketIsNamed(lookup, endpoints, j);
    AddressIsServedIff(s.pods, rule, labelKey, endpoints, j, "");
    StringOrder();
    SortSorts(Strings.Leq, bucket.addresses);
    hide Lookup.Bucket, Sort;
    var sorted := ResolutionOf(s, rule, labelKey).versions[j].addresses;
    assert |multiset(sorted)| == |sorted|;
  }

  lemma BucketIsNamed(lookup: Lookup, endpoints: seq<Endpoint>, j: nat)
    requires j < |VersionNames(lookup.rule)|
    ensures lookup.Bucket(endpoints, j).version == VersionNames(lookup.rule)[j]
  {
  }

  /** Read off the slices: an address is listed for a version exactly when one of its ready endpoints has it. */
  lemma AddressIsListedIff(s: Snapshot, rule: RouteRule, labelKey: string, j: nat, a: string)
    requires ResolutionOf(s, rule, labelKey).serviceFound && j < |ResolutionOf(s, rule, labelKey).versions|
    ensures a in ResolutionOf(s, rule, labelKey).versions[j].addresses <==> ServedAt(s, rule, labelKey, j, a)
    ensures ResolutionOf(s, rule, labelKey).versions[j].ready > 0 <==> SomeServes(s, rule, labelKey, j)
  {
    ResolvedSetsCount(s, rule, labelKey);
    hide ResolutionOf, VersionNames, AllEndpoints, ServingAddresses, Serving, Belonging, CanServe, InSlices;
    var endpoints := AllEndpoints(s.SlicesOf(rule.backend.service));
    VersionServes(s, rule, labelKey, j);
    AddressIsServedIff(s.pods, rule, labelKey, endpoints, j, a);
    forall ep ensures InSlices(s, rule, ep) <==> ep in endpoints {
      InSlicesIff(s, rule, ep);
    }
    assert a in ResolutionOf(s, rule, labelKey).versions[j].addresses
        <==> a in multiset(ResolutionOf(s, rule, labelKey).versions[j].addresses);
  }

  lemma ResolvedSetsCount(s: Snapshot, rule: RouteRule, labelKey: string)
    requires ResolutionOf(s, rule, labelKey).serviceFound
    ensures |ResolutionOf(s, rule, labelKey).versions| == |VersionNames(rule)|
  {
    hide PortOfSlices, FindPort, VersionNames, AllEndpoints, Filter, Sort;
  }

  /** No ready endpoint is left without a version exactly when none is counted as unmatched. */
  lemma UnmatchedIff(s: Snapshot, rule: RouteRule, labelKey: string)
    requires ResolutionOf(s, rule, labelKey).serviceFound
    ensures ResolutionOf(s, rule, labelKey).unmatched == 0 <==>
      forall ep :: InSlices(s, rule, ep) && ep.ready != Some(false) ==>
        exists j: nat :: Belongs(s.pods, rule, labelKey, ep, j)
  {
    var endpoints, lookup := AllEndpoints(s.SlicesOf(rule.backend.service)), Lookup(s.pods, rule, labelKey);
    assert ResolutionOf(s, rule, labelKey).unmatched == |Filter(lookup.ReadyUnmatched(), endpoints)| by {
      hide Lookup.Buckets, PortOfSlices, FindPort, VersionNames, AllEndpoints, Filter, Sort;
    }
    hide ResolutionOf, AllEndpoints, Belongs, InSlices, Lookup.BucketOf;
    FilterIsEmptyIff(lookup.ReadyUnmatched(), endpoints);
    forall ep
      ensures InSlices(s, rule, ep) <==> ep in endpoints
      ensures lookup.BucketOf(ep).Some? <==> exists j: nat :: Belongs(s.pods, rule, labelKey, ep, j)
    {
      InSlicesIff(s, rule, ep);
      forall j: nat ensures lookup.BucketOf(ep) == Some(j) <==> Belongs(s.pods, rule, labelKey, ep, j) {
        BelongsIff(lookup, ep, j);
      }
      if lookup.BucketOf(ep).Some? {
        assert Belongs(s.pods, rule, labelKey, ep, lookup.BucketOf(ep).value);
      }
    }
  }

  lemma {:induction false} FilterIsEmptyIff<T>(p: T -> bool, xs: seq<T>)
    ensures |Filter(p, xs)| == 0 <==> forall x :: x in xs ==> !p(x)
  {
    if xs != [] {
      FilterIsEmptyIff(p, xs[..|xs| - 1]);
    }
  }

  // ---- Ports -------------------------------------------------------------------------------

  /** The name under which the Service offers the rule's port, by its first entry for it; "" if it has none. */
  predicate AsksFor(s: Snapshot, rule: RouteRule, name: string) {
    rule.backend.service in s.services &&
    var ports := s.services[rule.backend.service];
    || (exists k :: 0 <= k < |ports| && ports[k].port == rule.backend.port && ports[k].name == name
          && forall i :: 0 <= i < k ==> ports[i].port != rule.backend.port)
    || (name == "" && forall k :: 0 <= k < |ports| ==> ports[k].port != rule.backend.port)
  }

  /** An unnamed slice port has the empty name. */
  predicate Called(p: SlicePort, name: string) {
    p.port.Some? && (p.name == Some(name) || (p.name.None? && name == ""))
  }

  predicate FirstCalled(ports: seq<SlicePort>, name: string, p: int, k: int) {
    && 0 <= k < |ports| && Called(ports[k], name) && ports[k].port == Some(p)
    && forall i :: 0 <= i < k ==> !Called(ports[i], name)
  }

  /** The slice says its endpoints are reached on p: its sole port, or the first one of that name. */
  ghost predicate Offers(slice: EndpointSlice, name: string, p: int) {
    p != 0 &&
    if |slice.ports| == 1 then slice.ports[0].port == Some(p)
    else
      exists k :: FirstCalled(slice.ports, name, p, k)
  }

  /** The first slice that offers a port decides; the Service's own number stands in if none does. */
  ghost predicate ReachedOn(s: Snapshot, rule: RouteRule, p: int) {
    exists name :: AsksFor(s, rule, name) && PortFor(s.SlicesOf(rule.backend.service), name, rule.backend.port, p)
  }

  ghost predicate PortFor(slices: seq<EndpointSlice>, name: string, servicePort: int, p: int) {
    || (exists i :: 0 <= i < |slices| && Offers(slices[i], name, p)
          && forall k, q :: 0 <= k < i ==> !Offers(slices[k], name, q))
    || (p == servicePort && forall i, q :: 0 <= i < |slices| ==> !Offers(slices[i], name, q))
  }

  lemma {:induction false} NamedPortIs(ports: seq<SlicePort>, name: string, p: int)
    requires p != 0
    ensures NamedPort(ports, name) == p <==> exists k :: FirstCalled(ports, name, p, k)
  {
    if ports != [] {
      var rest := ports[1..];
      NamedPortIs(rest, name, p);
      if Called(ports[0], name) {
        assert NamedPort(ports, name) == ports[0].port.value;
        assert FirstCalled(ports, name, ports[0].port.value, 0);
      } else {
        assert NamedPort(ports, name) == NamedPort(rest, name);
        if exists k :: FirstCalled(ports, name, p, k) {
          var k :| FirstCalled(ports, name, p, k);
          assert rest[k - 1] == ports[k] && forall i :: 0 <= i < k - 1 ==> rest[i] == ports[i + 1];
          assert FirstCalled(rest, name, p, k - 1);
        }
        if exists k :: FirstCalled(rest, name, p, k) {
          var k :| FirstCalled(rest, name, p, k);
          assert ports[k + 1] == rest[k] && forall i :: 0 < i < k + 1 ==> ports[i] == rest[i - 1];
          assert FirstCalled(ports, name, p, k + 1);
        }
      }
    }
  }

  lemma OffersIff(slice: EndpointSlice, name: string, p: int)
    ensures p != 0 ==> (Offers(slice, name, p) <==> EndpointPort(slice, name) == p)
    ensures p == 0 ==> !Offers(slice, name, p)
  {
    if p != 0 {
      NamedPortIs(slice.ports, name, p);
      if |slice.ports| == 1 && slice.ports[0].port.None? {
        assert NamedPort(slice.ports, name) == NamedPort(slice.ports[1..], name) == 0;
      }
    }
  }

  lemma {:induction false} FirstOfferDecides(slices: seq<EndpointSlice>, name: string)
    ensures
      var p := PortOfSlices(slices, name);
      if p == 0 then forall i, q :: 0 <= i < |slices| ==> !Offers(slices[i], name, q)
      else exists i :: 0 <= i < |slices| && Offers(slices[i], name, p)
             && forall k, q :: 0 <= k < i ==> !Offers(slices[k], name, q)
  {
    hide Offers;
    if slices != [] {
      var before, last := slices[..|slices| - 1], slices[|slices| - 1];
      FirstOfferDecides(before, name);
      forall q ensures Offers(last, name, q) <==> q != 0 && EndpointPort(last, name) == q {
        OffersIff(last, name, q);
      }
      var p := PortOfSlices(before, name);
      assert forall k :: 0 <= k < |before| ==> slices[k] == before[k];
      if p != 0 {
        var i :| 0 <= i < |before| && Offers(before[i], name, p)
                 && forall k, q :: 0 <= k < i ==> !Offers(before[k], name, q);
        assert Offers(slices[i], name, p);
      } else if EndpointPort(last, name) != 0 {
        assert Offers(slices[|before|], name, EndpointPort(last, name));
      }
    }
  }

  lemma {:induction false} FoundPortIs(ports: seq<ServicePort>, port: int)
    ensures
      match FindPort(ports, port)
      case None => forall k :: 0 <= k < |ports| ==> ports[k].port != port
      case Some(found) =>
        exists k :: 0 <= k < |ports| && ports[k] == found && found.port == port
          && forall i :: 0 <= i < k ==> ports[i].port != port
  {
    if ports != [] && ports[0].port != port {
      var rest := ports[1..];
      FoundPortIs(rest, port);
      assert forall i :: 0 <= i < |rest| ==> rest[i] == ports[i + 1];
      if FindPort(rest, port).Some? {
        var k :| 0 <= k < |rest| && rest[k] == FindPort(rest, port).value
                 && forall i :: 0 <= i < k ==> rest[i].port != port;
        assert ports[k + 1] == rest[k];
      }
    }
  }

  lemma AskedName(s: Snapshot, rule: RouteRule)
    requires rule.backend.service in s.services
    ensures AsksFor(s, rule, PortNameOf(s, rule))
    ensures forall name :: AsksFor(s, rule, name) ==> name == PortNameOf(s, rule)
  {
    var ports := s.services[rule.backend.service];
    FoundPortIs(ports, rule.backend.port);
    hide FindPort;
  }

  lemma PortForIs(slices: seq<EndpointSlice>, name: string, servicePort: int, p: int)
    ensures PortFor(slices, name, servicePort, p)
        <==> p == if PortOfSlices(slices, name) == 0 then servicePort else PortOfSlices(slices, name)
  {
    FirstOfferDecides(slices, name);
    forall i, q | 0 <= i < |slices|
      ensures Offers(slices[i], name, q) <==> q != 0 && EndpointPort(slices[i], name) == q
    {
      OffersIff(slices[i], name, q);
    }
    hide PortOfSlices, Offers, EndpointPort;
  }

  /** The port of a rule's servers is the one the cluster reaches its endpoints on, and no other. */
  lemma PortIsReachedOn(s: Snapshot, rule: RouteRule, labelKey: string, p: int)
    requires ResolutionOf(s, rule, labelKey).serviceFound
    ensures PortOf(rule, ResolutionOf(s, rule, labelKey)) == p <==> ReachedOn(s, rule, p)
  {
    ResolvedPort(s, rule, labelKey);
    hide ResolutionOf, PortOfSlices, AsksFor, PortNameOf, PortFor;
    AskedName(s, rule);
    PortForIs(s.SlicesOf(rule.backend.service), PortNameOf(s, rule), rule.backend.port, p);
  }

  lemma ResolvedPort(s: Snapshot, rule: RouteRule, labelKey: string)
    requires ResolutionOf(s, rule, labelKey).serviceFound
    ensures rule.backend.service in s.services
    ensures ResolutionOf(s, rule, labelKey).endpointPort
         == PortOfSlices(s.SlicesOf(rule.backend.service), PortNameOf(s, rule))
  {
    hide Lookup.Buckets, PortOfSlices, VersionNames, AllEndpoints, Filter, Sort, FindPort;
  }

  // ---- Nothing amiss -----------------------------------------------------------------------

  /**
   * The Service and its port exist, every ready endpoint belongs to some version, and every version
   * has a ready endpoint.
   */
  ghost predicate Backed(s: Snapshot, rule: RouteRule, labelKey: string) {
    && rule.backend.service in s.services
    && (exists k :: 0 <= k < |s.services[rule.backend.service]|
          && s.services[rule.backend.service][k].port == rule.backend.port)
    && (forall ep :: InSlices(s, rule, ep) && ep.ready != Some(false) ==>
          exists j: nat :: Belongs(s.pods, rule, labelKey, ep, j))
    && (forall j: nat :: j < (if rule.versions == [] then 1 else |rule.versions|) ==> SomeServes(s, rule, labelKey, j))
  }

  lemma BackedIff(s: Snapshot, rule: RouteRule, labelKey: string)
    ensures Backed(s, rule, labelKey) <==>
      var res := ResolutionOf(s, rule, labelKey);
      && res.serviceFound && res.portFound && res.unmatched == 0
      && forall v :: 0 <= v < |res.versions| ==> res.versions[v].ready > 0
  {
    hide Lookup.Buckets, PortOfSlices, FindPort, AllEndpoints, Filter, Sort, Belongs, InSlices, SomeServes;
    if rule.backend.service in s.services {
      FoundPortIs(s.services[rule.backend.service], rule.backend.port);
      ResolvedSetsCount(s, rule, labelKey);
      UnmatchedIff(s, rule, labelKey);
      forall v: nat | v < |VersionNames(rule)|
        ensures ResolutionOf(s, rule, labelKey).versions[v].ready > 0 <==> SomeServes(s, rule, labelKey, v)
      {
        AddressIsListedIff(s, rule, labelKey, v, "");
      }
    }
  }
}
