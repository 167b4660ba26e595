/** Resolves a rule's backend Service into ready endpoints grouped by version. */
module Discovery {
  import opened Wrappers
  import opened Strings
  import opened Sorting
  import opened Sequences
  import opened Routes

  type Labels = map<string, string>

  datatype ServicePort = ServicePort(port: int, name: string, targetPort: string)

  datatype SlicePort = SlicePort(name: Option<string>, port: Option<int>)

  datatype TargetRef = TargetRef(kind: string, name: string)

  datatype Endpoint = Endpoint(ready: Option<bool>, addresses: seq<string>, target: Option<TargetRef>) {
    /** An unset condition counts as ready. */
    predicate IsReady() {
      ready.None? || ready.value
    }
  }

  datatype EndpointSlice = EndpointSlice(ports: seq<SlicePort>, endpoints: seq<Endpoint>)

  /** What the informer cache holds for one namespace. */
  datatype Snapshot = Snapshot(
    services: map<string, seq<ServicePort>>, slices: map<string, seq<EndpointSlice>>, pods: map<string, Labels>)
  {
    function SlicesOf(service: string): seq<EndpointSlice> {
      if service in slices then slices[service] else []
    }
  }

  datatype EndpointSet = EndpointSet(version: string, ready: nat, notReady: nat, addresses: seq<string>)

  datatype Resolution = Resolution(
    serviceFound: bool, portFound: bool, portName: string, targetPort: string,
    endpointPort: int, versions: seq<EndpointSet>, unmatched: nat)

  const UNRESOLVED := Resolution(false, false, "", "", 0, [], 0)

  // ---- Attribution -------------------------------------------------------------------------

  function LabelOf(labels: Labels, key: string): string {
    if key in labels then labels[key] else ""
  }

  predicate SelectorMatches(have: Labels, want: Labels) {
    want != map[] && forall k | k in want :: LabelOf(have, k) == want[k]
  }

  function SelectorOf(v: BackendVersion, versionLabel: string): Labels {
    if v.labels == map[] then map[versionLabel := v.name] else v.labels
  }

  function FirstSelected(labels: Labels, versions: seq<BackendVersion>, versionLabel: string): (b: Option<nat>)
    ensures b.Some? ==>
      && b.value < |versions|
      && SelectorMatches(labels, SelectorOf(versions[b.value], versionLabel))
      && forall i :: 0 <= i < b.value ==> !SelectorMatches(labels, SelectorOf(versions[i], versionLabel))
    ensures b.None? ==>
      forall i :: 0 <= i < |versions| ==> !SelectorMatches(labels, SelectorOf(versions[i], versionLabel))
  {
    if versions == [] then None
    else if SelectorMatches(labels, SelectorOf(versions[0], versionLabel)) then Some(0)
    else
      var rest := FirstSelected(labels, versions[1..], versionLabel);
      if rest.None? then None else Some(rest.value + 1)
  }

  function Attribute(pods: map<string, Labels>, versions: seq<BackendVersion>, versionLabel: string, ep: Endpoint)
    : (b: Option<nat>)
    ensures b.Some? ==> b.value < |versions|
  {
    if ep.target.None? || ep.target.value.kind != "Pod" || ep.target.value.name !in pods then None
    else FirstSelected(pods[ep.target.value.name], versions, versionLabel)
  }

  /** A rule without versions has one bucket that takes every endpoint. */
  function VersionNames(rule: RouteRule): seq<string> {
    if rule.versions == [] then [""] else Map((v: BackendVersion) => v.name, rule.versions)
  }

  /** Everything the attribution of an endpoint depends on. */
  datatype Lookup = Lookup(pods: map<string, Labels>, rule: RouteRule, versionLabel: string) {
    function BucketOf(ep: Endpoint): (b: Option<nat>)
      ensures b.Some? ==> b.value < |VersionNames(rule)|
    {
      if rule.versions == [] then Some(0) else Attribute(pods, rule.versions, versionLabel, ep)
    }

    function ReadyIn(b: nat): Endpoint -> bool {
      (ep: Endpoint) => ep.IsReady() && BucketOf(ep) == Some(b)
    }

    function NotReadyIn(b: nat): Endpoint -> bool {
      (ep: Endpoint) => !ep.IsReady() && BucketOf(ep) == Some(b)
    }

    function AddressedIn(b: nat): Endpoint -> bool {
      (ep: Endpoint) => ep.IsReady() && BucketOf(ep) == Some(b) && ep.addresses != []
    }

    function ReadyUnmatched(): Endpoint -> bool {
      (ep: Endpoint) => ep.IsReady() && BucketOf(ep).None?
    }

    /** Counts and addresses of bucket b, in the order the endpoints came. */
    function Bucket(endpoints: seq<Endpoint>, b: nat): EndpointSet
      requires b < |VersionNames(rule)|
    {
      EndpointSet(VersionNames(rule)[b], |Filter(ReadyIn(b), endpoints)|, |Filter(NotReadyIn(b), endpoints)|,
                  Map(FirstAddress(), Filter(AddressedIn(b), endpoints)))
    }

    function Buckets(endpoints: seq<Endpoint>): (sets: seq<EndpointSet>)
      ensures |sets| == |VersionNames(rule)|
    {
      seq(|VersionNames(rule)|, b requires 0 <= b < |VersionNames(rule)| => Bucket(endpoints, b))
    }
  }

  function FirstAddress(): Endpoint -> string {
    (ep: Endpoint) => if ep.addresses == [] then "" else ep.addresses[0]
  }

  function SortAddresses(): EndpointSet -> EndpointSet {
    (es: EndpointSet) => es.(addresses := Sort(Leq, es.addresses))
  }

  function EndpointsOf(): EndpointSlice -> seq<Endpoint> {
    (slice: EndpointSlice) => slice.endpoints
  }

  function AllEndpoints(slices: seq<EndpointSlice>): seq<Endpoint> {
    Flatten(Map(EndpointsOf(), slices))
  }

  // ---- Ports -------------------------------------------------------------------------------

  function FindPort(ports: seq<ServicePort>, port: int): Option<ServicePort> {
    if ports == [] then None
    else if ports[0].port == port then Some(ports[0])
    else FindPort(ports[1..], port)
  }

  function NamedPort(ports: seq<SlicePort>, portName: string): int {
    if ports == [] then 0
    else if ports[0].port.Some? && ports[0].name.GetOr("") == portName then ports[0].port.value
    else NamedPort(ports[1..], portName)
  }

  /** The sole port of a slice, else the one named like the Service port, else 0. */
  function EndpointPort(slice: EndpointSlice, portName: string): int {
    if |slice.ports| == 1 && slice.ports[0].port.Some? then slice.ports[0].port.value
    else NamedPort(slice.ports, portName)
  }

  /** The shortcut for a sole port changes nothing: the named port is preferred, a sole one stands in. */
  lemma NamedPortIsPreferred(slice: EndpointSlice, portName: string)
    ensures
      var named := NamedPort(slice.ports, portName);
      EndpointPort(slice, portName) ==
        if named != 0 then named
        else if |slice.ports| == 1 && slice.ports[0].port.Some? then slice.ports[0].port.value
        else 0
  {
  }

  /** The first slice that knows a port decides. */
  function PortOfSlices(slices: seq<EndpointSlice>, portName: string): int {
    if slices == [] then 0
    else
      var before := PortOfSlices(slices[..|slices| - 1], portName);
      if before != 0 then before else EndpointPort(slices[|slices| - 1], portName)
  }

  // ---- Resolve -----------------------------------------------------------------------------

  function ResolutionOf(s: Snapshot, rule: RouteRule, versionLabel: string): Resolution {
    if rule.backend.service !in s.services then UNRESOLVED
    else
      var port := FindPort(s.services[rule.backend.service], rule.backend.port);
      var portName := if port.Some? then port.value.name else "";
      var slices, lookup := s.SlicesOf(rule.backend.service), Lookup(s.pods, rule, versionLabel);
      var endpoints := AllEndpoints(slices);
      Resolution(true, port.Some?, portName, if port.Some? then port.value.targetPort else "",
                 PortOfSlices(slices, portName),
                 Map(SortAddresses(), lookup.Buckets(endpoints)),
                 |Filter(lookup.ReadyUnmatched(), endpoints)|)
  }

  method Resolve(s: Snapshot, rule: RouteRule, versionLabel: string) returns (res: Resolution)
    ensures res == ResolutionOf(s, rule, versionLabel)
  {
    res := UNRESOLVED;
    if rule.backend.service !in s.services {
      return;
    }
    res := res.(serviceFound := true);
    var found := FindPort(s.services[rule.backend.service], rule.backend.port);
    if found.Some? {
      res := res.(portFound := true, portName := found.value.name, targetPort := found.value.targetPort);
    }
    var slices := s.SlicesOf(rule.backend.service);
    ghost var lookup := Lookup(s.pods, rule, versionLabel);
    var sets := NewBuckets(rule);
    assert AllEndpoints([]) == [];
    assert sets == lookup.Buckets([]);
    assert PortOfSlices([], res.portName) == 0;
    hide Lookup.Buckets, Lookup.BucketOf, Filter, VersionNames, AllEndpoints, EndpointPort, FindPort, Sort, Attribute,
         PortOfSlices;
    ghost var start := res;
    for si := 0 to |slices|
      invariant res == start.(endpointPort := PortOfSlices(slices[..si], start.portName), unmatched := res.unmatched)
      invariant res.unmatched == |Filter(lookup.ReadyUnmatched(), AllEndpoints(slices[..si]))|
      invariant sets == lookup.Buckets(AllEndpoints(slices[..si]))
    {
      var slice := slices[si];
      assert slices[..si + 1][..si] == slices[..si] && slices[..si] + [slice] == slices[..si + 1];
      var p := EndpointPort(slice, res.portName);
      if p != 0 && res.endpointPort == 0 {
        res := res.(endpointPort := p);
      }
      var unmatched;
      sets, unmatched := CountEndpoints(lookup, s, rule, versionLabel, slice.endpoints,
                                        AllEndpoints(slices[..si]), sets, res.unmatched);
      res := res.(unmatched := unmatched);
      AllEndpointsOneMore(slices[..si], slice);
      PortOneMore(slices[..si], slice, res.portName);
    }
    assert slices[..|slices|] == slices;
    var versions := SortBuckets(sets);
    res := res.(versions := versions);
  }

  lemma PortOneMore(slices: seq<EndpointSlice>, slice: EndpointSlice, portName: string)
    ensures PortOfSlices(slices + [slice], portName) ==
      if PortOfSlices(slices, portName) != 0 then PortOfSlices(slices, portName) else EndpointPort(slice, portName)
  {
    assert (slices + [slice])[..|slices|] == slices;
  }

  method SortBuckets(sets: seq<EndpointSet>) returns (sorted: seq<EndpointSet>)
    ensures sorted == Map(SortAddresses(), sets)
  {
    hide Sort, Leq;
    sorted := [];
    for b := 0 to |sets|
      invariant sorted == Map(SortAddresses(), sets)[..b]
    {
      sorted := sorted + [sets[b].(addresses := Sort(Leq, sets[b].addresses))];
    }
  }

  /** The inner loop of Resolve: one slice's endpoints, on top of those seen before. */
  method CountEndpoints(ghost lookup: Lookup, s: Snapshot, rule: RouteRule, versionLabel: string,
                        endpoints: seq<Endpoint>, ghost before: seq<Endpoint>, start: seq<EndpointSet>, unmatched0: nat)
    returns (sets: seq<EndpointSet>, unmatched: nat)
    requires lookup == Lookup(s.pods, rule, versionLabel)
    requires start == lookup.Buckets(before) && unmatched0 == |Filter(lookup.ReadyUnmatched(), before)|
    ensures sets == lookup.Buckets(before + endpoints)
    ensures unmatched == |Filter(lookup.ReadyUnmatched(), before + endpoints)|
  {
    hide Lookup.Buckets, Lookup.Bucket, Filter;
    sets, unmatched := start, unmatched0;
    assert before + endpoints[..0] == before;
    for ei := 0 to |endpoints|
      invariant sets == lookup.Buckets(before + endpoints[..ei])
      invariant unmatched == |Filter(lookup.ReadyUnmatched(), before + endpoints[..ei])|
    {
      var ep := endpoints[ei];
      ghost var seen := before + endpoints[..ei];
      assert before + endpoints[..ei + 1] == seen + [ep];
      BucketsOneMore(lookup, seen, ep);
      FilterOneMore(lookup.ReadyUnmatched(), seen, ep);
      var ready := ep.ready.None? || ep.ready.value;
      var target := if rule.versions == [] then Some(0) else Attribute(s.pods, rule.versions, versionLabel, ep);
      if target.None? {
        if ready {
          unmatched := unmatched + 1;
        }
      } else {
        var b := target.value;
        if ready {
          sets := sets[b := sets[b].(ready := sets[b].ready + 1)];
          if |ep.addresses| > 0 {
            sets := sets[b := sets[b].(addresses := sets[b].addresses + [ep.addresses[0]])];
          }
        } else {
          sets := sets[b := sets[b].(notReady := sets[b].notReady + 1)];
        }
        ghost var was := lookup.Buckets(seen);
        assert was[b].addresses + [] == was[b].addresses;
        assert sets[b] == Counted(was[b], ep);
      }
    }
    assert endpoints[..|endpoints|] == endpoints;
  }

  method NewBuckets(rule: RouteRule) returns (sets: seq<EndpointSet>)
    ensures |sets| == |VersionNames(rule)|
    ensures forall b :: 0 <= b < |sets| ==> sets[b] == EndpointSet(VersionNames(rule)[b], 0, 0, [])
  {
    if rule.versions == [] {
      return [EndpointSet("", 0, 0, [])];
    }
    sets := [];
    for i := 0 to |rule.versions|
      invariant |sets| == i
      invariant forall b :: 0 <= b < i ==> sets[b] == EndpointSet(rule.versions[b].name, 0, 0, [])
    {
      sets := sets + [EndpointSet(rule.versions[i].name, 0, 0, [])];
    }
  }

  /** The bucket after one more endpoint. */
  function Counted(es: EndpointSet, ep: Endpoint): EndpointSet {
    if !ep.IsReady() then es.(notReady := es.notReady + 1)
    else es.(ready := es.ready + 1,
               addresses := es.addresses + if ep.addresses == [] then [] else [ep.addresses[0]])
  }

  lemma BucketsOneMore(lookup: Lookup, seen: seq<Endpoint>, ep: Endpoint)
    ensures
      var b, before := lookup.BucketOf(ep), lookup.Buckets(seen);
      lookup.Buckets(seen + [ep]) ==
        if b.None? then before else before[b.value := Counted(before[b.value], ep)]
  {
    forall b | 0 <= b < |VersionNames(lookup.rule)|
      ensures lookup.Bucket(seen + [ep], b) ==
        if lookup.BucketOf(ep) == Some(b) then Counted(lookup.Bucket(seen, b), ep) else lookup.Bucket(seen, b)
    {
      BucketOneMore(lookup, seen, ep, b);
    }
    hide Lookup.BucketOf, Lookup.Bucket, Counted, VersionNames;
  }

  lemma BucketOneMore(lookup: Lookup, seen: seq<Endpoint>, ep: Endpoint, b: nat)
    requires b < |VersionNames(lookup.rule)|
    ensures lookup.Bucket(seen + [ep], b) ==
      if lookup.BucketOf(ep) == Some(b) then Counted(lookup.Bucket(seen, b), ep) else lookup.Bucket(seen, b)
  {
    hide Lookup.BucketOf, Filter, Map, VersionNames;
    FilterOneMore(lookup.ReadyIn(b), seen, ep);
    FilterOneMore(lookup.NotReadyIn(b), seen, ep);
    FilterOneMore(lookup.AddressedIn(b), seen, ep);
    MapConcat(FirstAddress(), Filter(lookup.AddressedIn(b), seen), [ep]);
    assert Map(FirstAddress(), [ep]) == [FirstAddress()(ep)];
  }

  lemma AllEndpointsOneMore(slices: seq<EndpointSlice>, slice: EndpointSlice)
    ensures AllEndpoints(slices + [slice]) == AllEndpoints(slices) + slice.endpoints
  {
    MapConcat(EndpointsOf(), slices, [slice]);
    assert Map(EndpointsOf(), [slice]) == [slice.endpoints];
    var lists := Map(EndpointsOf(), slices);
    assert (lists + [slice.endpoints])[..|lists|] == lists;
  }

  // ---- Conservation ------------------------------------------------------------------------

  function ReadyTotal(lookup: Lookup, endpoints: seq<Endpoint>, n: nat): nat {
    if n == 0 then 0 else ReadyTotal(lookup, endpoints, n - 1) + |Filter(lookup.ReadyIn(n - 1), endpoints)|
  }

  function IsReadyEndpoint(): Endpoint -> bool {
    (ep: Endpoint) => ep.IsReady()
  }

  lemma {:induction false} ReadyTotalOneMore(lookup: Lookup, endpoints: seq<Endpoint>, ep: Endpoint, n: nat)
    ensures ReadyTotal(lookup, endpoints + [ep], n) == ReadyTotal(lookup, endpoints, n) +
      if ep.IsReady() && lookup.BucketOf(ep).Some? && lookup.BucketOf(ep).value < n then 1 else 0
  {
    hide Filter, Lookup.BucketOf;
    if n > 0 {
      ReadyTotalOneMore(lookup, endpoints, ep, n - 1);
      FilterOneMore(lookup.ReadyIn(n - 1), endpoints, ep);
    }
  }

  lemma {:induction false} NothingReady(lookup: Lookup, n: nat)
    ensures ReadyTotal(lookup, [], n) == 0
  {
    if n > 0 {
      NothingReady(lookup, n - 1);
    }
  }

  /** Every ready endpoint is counted exactly once: in one version's bucket, or as unmatched. */
  lemma {:induction false} ReadyEndpointsAreConserved(lookup: Lookup, endpoints: seq<Endpoint>)
    ensures ReadyTotal(lookup, endpoints, |VersionNames(lookup.rule)|) + |Filter(lookup.ReadyUnmatched(), endpoints)|
         == |Filter(IsReadyEndpoint(), endpoints)|
  {
    if endpoints == [] {
      NothingReady(lookup, |VersionNames(lookup.rule)|);
    } else {
      var before, ep := endpoints[..|endpoints| - 1], endpoints[|endpoints| - 1];
      ReadyEndpointsAreConserved(lookup, before);
      ReadyTotalOneMore(lookup, before, ep, |VersionNames(lookup.rule)|);
      FilterOneMore(lookup.ReadyUnmatched(), before, ep);
      FilterOneMore(IsReadyEndpoint(), before, ep);
      assert endpoints == before + [ep];
    }
  }

  function SumReady(versions: seq<EndpointSet>): nat {
    if versions == [] then 0 else SumReady(versions[..|versions| - 1]) + versions[|versions| - 1].ready
  }

  lemma {:induction false} SumReadyIsTotal(lookup: Lookup, endpoints: seq<Endpoint>, n: nat)
    requires n <= |VersionNames(lookup.rule)|
    ensures SumReady(Map(SortAddresses(), lookup.Buckets(endpoints))[..n]) == ReadyTotal(lookup, endpoints, n)
  {
    hide Filter, Lookup.BucketOf, Map;
    if n > 0 {
      var sets := Map(SortAddresses(), lookup.Buckets(endpoints));
      assert sets[..n][..n - 1] == sets[..n - 1];
      SumReadyIsTotal(lookup, endpoints, n - 1);
    }
  }

  /** The same, read off a resolution. */
  lemma ResolutionConservesReadyEndpoints(s: Snapshot, rule: RouteRule, versionLabel: string)
    ensures
      var res := ResolutionOf(s, rule, versionLabel);
      res.serviceFound ==>
        SumReady(res.versions) + res.unmatched
        == |Filter(IsReadyEndpoint(), AllEndpoints(s.SlicesOf(rule.backend.service)))|
  {
    var lookup, endpoints := Lookup(s.pods, rule, versionLabel), AllEndpoints(s.SlicesOf(rule.backend.service));
    var sets, n := Map(SortAddresses(), lookup.Buckets(endpoints)), |VersionNames(rule)|;
    ReadyEndpointsAreConserved(lookup, endpoints);
    SumReadyIsTotal(lookup, endpoints, n);
    assert sets[..n] == sets;
  }

  // ---- Order independence ------------------------------------------------------------------

  lemma StringOrder()
    ensures TotalPreorder(Leq)
    ensures forall x, y :: Leq(x, y) && Leq(y, x) ==> x == y
  {
    forall x, y ensures Leq(x, y) || Leq(y, x) { LeqTotal(x, y); }
    forall x, y, z | Leq(x, y) && Leq(y, z) ensures Leq(x, z) { LeqTransitive(x, y, z); }
    forall x, y | Leq(x, y) && Leq(y, x) ensures x == y { LeqAntisymmetric(x, y); }
  }

  /** Any reordering of the endpoints leaves every bucket, sorted addresses included, unchanged. */
  lemma BucketsIgnoreOrder(lookup: Lookup, a: seq<Endpoint>, b: seq<Endpoint>)
    requires multiset(a) == multiset(b)
    ensures Map(SortAddresses(), lookup.Buckets(a)) == Map(SortAddresses(), lookup.Buckets(b))
    ensures |Filter(lookup.ReadyUnmatched(), a)| == |Filter(lookup.ReadyUnmatched(), b)|
  {
    FilterPermutes(lookup.ReadyUnmatched(), a, b);
    forall v | 0 <= v < |VersionNames(lookup.rule)|
      ensures SortAddresses()(lookup.Bucket(a, v)) == SortAddresses()(lookup.Bucket(b, v))
    {
      FilterPermutes(lookup.ReadyIn(v), a, b);
      FilterPermutes(lookup.NotReadyIn(v), a, b);
      FilterPermutes(lookup.AddressedIn(v), a, b);
      var x, y := lookup.Bucket(a, v).addresses, lookup.Bucket(b, v).addresses;
      MapPermutes(FirstAddress(), Filter(lookup.AddressedIn(v), a), Filter(lookup.AddressedIn(v), b));
      StringOrder();
      SortSorts(Leq, x);
      SortSorts(Leq, y);
      SortedIsUnique(Leq, Sort(Leq, x), Sort(Leq, y));
    }
  }

  ghost predicate PortsAgree(slices: seq<EndpointSlice>, portName: string) {
    forall i, j :: 0 <= i < |slices| && 0 <= j < |slices| ==>
      var p, q := EndpointPort(slices[i], portName), EndpointPort(slices[j], portName);
      p == 0 || q == 0 || p == q
  }

  lemma {:induction false} PortComesFromASlice(slices: seq<EndpointSlice>, portName: string)
    ensures
      var p := PortOfSlices(slices, portName);
      && (p != 0 ==> exists i :: 0 <= i < |slices| && EndpointPort(slices[i], portName) == p)
      && (p == 0 ==> forall i :: 0 <= i < |slices| ==> EndpointPort(slices[i], portName) == 0)
  {
    if slices != [] {
      var before := slices[..|slices| - 1];
      PortComesFromASlice(before, portName);
      if PortOfSlices(before, portName) != 0 {
        var i :| 0 <= i < |before| && EndpointPort(before[i], portName) == PortOfSlices(before, portName);
        assert slices[i] == before[i];
      }
    }
  }

  lemma InPermutation<T>(a: seq<T>, b: seq<T>, i: nat) returns (j: nat)
    requires multiset(a) == multiset(b) && i < |a|
    ensures j < |b| && b[j] == a[i]
  {
    assert a[i] in multiset(b);
    j :| 0 <= j < |b| && b[j] == a[i];
  }

  /** The endpoint port survives every reordering of the slices exactly when all slices agree on it. */
  lemma PortIgnoresOrderIff(slices: seq<EndpointSlice>, portName: string)
    ensures
      (forall other :: multiset(other) == multiset(slices) ==>
         PortOfSlices(other, portName) == PortOfSlices(slices, portName))
      <==> PortsAgree(slices, portName)
  {
    if PortsAgree(slices, portName) {
      forall other | multiset(other) == multiset(slices)
        ensures PortOfSlices(other, portName) == PortOfSlices(slices, portName)
      {
        AgreedPort(slices, other, portName);
        AgreedPort(slices, slices, portName);
      }
    } else {
      var i, j :| 0 <= i < |slices| && 0 <= j < |slices| &&
                  var p, q := EndpointPort(slices[i], portName), EndpointPort(slices[j], portName);
                  p != 0 && q != 0 && p != q;
      var a := ToFront(slices, i);
      var b := ToFront(slices, j);
      FrontDecides(a, portName);
      FrontDecides(b, portName);
      assert PortOfSlices(a, portName) != PortOfSlices(b, portName);
    }
  }

  lemma AgreedPort(slices: seq<EndpointSlice>, other: seq<EndpointSlice>, portName: string)
    requires multiset(other) == multiset(slices) && PortsAgree(slices, portName)
    ensures PortOfSlices(other, portName) == PortOfSlices(slices, portName)
  {
    PortComesFromASlice(slices, portName);
    PortComesFromASlice(other, portName);
    if PortOfSlices(other, portName) != 0 {
      var i :| 0 <= i < |other| && EndpointPort(other[i], portName) == PortOfSlices(other, portName);
      var j := InPermutation(other, slices, i);
    } else if PortOfSlices(slices, portName) != 0 {
      var i :| 0 <= i < |slices| && EndpointPort(slices[i], portName) == PortOfSlices(slices, portName);
      var j := InPermutation(slices, other, i);
    }
  }

  lemma ToFront<T>(s: seq<T>, i: nat) returns (r: seq<T>)
    requires i < |s|
    ensures multiset(r) == multiset(s) && r != [] && r[0] == s[i]
  {
    r := [s[i]] + s[..i] + s[i + 1..];
    assert s == s[..i] + [s[i]] + s[i + 1..];
  }

  lemma {:induction false} FrontDecides(slices: seq<EndpointSlice>, portName: string)
    requires slices != [] && EndpointPort(slices[0], portName) != 0
    ensures PortOfSlices(slices, portName) == EndpointPort(slices[0], portName)
  {
    if |slices| > 1 {
      FrontDecides(slices[..|slices| - 1], portName);
    } else {
      assert slices[..0] == [];
    }
  }

  /** Whatever order the cache lists slices in, and whatever their ports, everything but the port is the same. */
  lemma BucketsIgnoreSliceOrder(s: Snapshot, other: Snapshot, rule: RouteRule, versionLabel: string)
    requires s.services == other.services && s.pods == other.pods
    requires multiset(s.SlicesOf(rule.backend.service)) == multiset(other.SlicesOf(rule.backend.service))
    ensures
      var a, b := ResolutionOf(s, rule, versionLabel), ResolutionOf(other, rule, versionLabel);
      a.(endpointPort := b.endpointPort) == b
  {
    var a, b := s.SlicesOf(rule.backend.service), other.SlicesOf(rule.backend.service);
    MapPermutes(EndpointsOf(), a, b);
    FlattenPermutes(Map(EndpointsOf(), a), Map(EndpointsOf(), b));
    BucketsIgnoreOrder(Lookup(s.pods, rule, versionLabel), AllEndpoints(a), AllEndpoints(b));
  }

  /** The Service's own name for the rule's port, by which slices are asked. */
  function PortNameOf(s: Snapshot, rule: RouteRule): string {
    if rule.backend.service !in s.services then ""
    else
      var port := FindPort(s.services[rule.backend.service], rule.backend.port);
      if port.Some? then port.value.name else ""
  }

  /** The whole resolution is the same if the slices agree on the port the rule asks for. */
  lemma ResolutionIgnoresSliceOrder(s: Snapshot, other: Snapshot, rule: RouteRule, versionLabel: string)
    requires s.services == other.services && s.pods == other.pods
    requires multiset(s.SlicesOf(rule.backend.service)) == multiset(other.SlicesOf(rule.backend.service))
    requires PortsAgree(s.SlicesOf(rule.backend.service), PortNameOf(s, rule))
    ensures ResolutionOf(s, rule, versionLabel) == ResolutionOf(other, rule, versionLabel)
  {
    BucketsIgnoreSliceOrder(s, other, rule, versionLabel);
    AgreedPort(s.SlicesOf(rule.backend.service), other.SlicesOf(rule.backend.service), PortNameOf(s, rule));
    hide Lookup.Buckets, AllEndpoints, Filter, PortOfSlices, FindPort;
  }
}
