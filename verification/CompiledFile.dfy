/**
 * The compiler down to the file: what a proxy reads from the rendered text. Hosts, paths and version
 * names are written into it as they are declared, so the text means what the route says exactly as
 * long as each of them is one plain word.
 */
module CompiledFile {
  import opened Wrappers
  import opened Strings
  import opened Sorting
  import opened Sequences
  import opened Routes
  import opened Admission
  import opened Discovery
  import opened EffectiveWeights
  import opened RoutingModel
  import opened HAProxy
  import opened ProxyReader
  import opened Compiler
  import Wire

  /** The host and every path are single plain values. */
  predicate PlainRoute(spec: RouteSpec) {
    IsValue(spec.host) && forall i :: 0 <= i < |spec.routes| ==> IsValue(RoutePath(spec.routes[i]))
  }

  predicate PlainNames(spec: RouteSpec) {
    forall i, j :: 0 <= i < |spec.routes| && 0 <= j < |spec.routes[i].versions| ==>
      Plain(spec.routes[i].versions[j].name)
  }

  predicate PlainSets(res: Resolution) {
    res.endpointPort >= 0 &&
    forall v :: 0 <= v < |res.versions| ==>
      forall m :: 0 <= m < |res.versions[v].addresses| ==> Plain(res.versions[v].addresses[m])
  }

  /** Addresses and ports as the cluster assigns them. */
  predicate PlainEndpoints(s: Snapshot, spec: RouteSpec, versionLabel: string) {
    forall i :: 0 <= i < |spec.routes| ==> PlainSets(ResolutionOf(s, spec.routes[i], versionLabel))
  }

  ghost predicate PlainBackendNames(rules: seq<Rule>) {
    forall i :: 0 <= i < |rules| ==> Plain(rules[i].backendName)
  }

  /** Everything in the file but the host and the paths is written in plain words. */
  ghost predicate PlainSurroundings(skeleton: string, s: Snapshot, spec: RouteSpec, config: Option<Wire.RouteConfig>,
                                    versionLabel: string, naming: Naming)
  {
    && IsSkeleton(skeleton) && PlainNames(spec) && PlainEndpoints(s, spec, versionLabel)
    && PlainBackendNames(Compiled(s, spec, config, versionLabel, naming).rules)
    && DistinctBackends(Compiled(s, spec, config, versionLabel, naming).rules)
  }

  // ---- Compiled backends are plain ---------------------------------------------------------

  lemma NameIsPlain(version: string, j: nat)
    requires version == "" || Plain(version)
    ensures Plain(ServerName(version, j))
  {
    var prefix, digits := ServerPrefix(version), Decimal(j);
    DigitsArePlain(digits);
    assert Plain("ep");
    assert Plain(prefix);
    hide Decimal;
    assert ServerName(version, j) == prefix + ['-'] + digits;
  }

  lemma {:induction false} ListedArePlain(rule: RouteRule, port: int, sets: seq<EndpointSet>)
    requires port >= 0
    requires forall v :: 0 <= v < |sets| ==>
      && (sets[v].version == "" || Plain(sets[v].version))
      && forall m :: 0 <= m < |sets[v].addresses| ==> Plain(sets[v].addresses[m])
    ensures forall k :: 0 <= k < |Listed(rule, port, sets)| ==> PlainServer(Listed(rule, port, sets)[k])
  {
    hide Plain, ServerName, Shares;
    if sets != [] {
      var last := |sets| - 1;
      ListedArePlain(rule, port, sets[..last]);
      forall j | 0 <= j < |sets[last].addresses| ensures PlainServer(ServersOf(rule, port, sets[last])[j]) {
        NameIsPlain(sets[last].version, j);
      }
    }
  }

  lemma TokenIsOneLine(condition: string)
    ensures '\n' !in TokenOf(condition)
  {
  }

  lemma TokensAreOneLiners(conditions: seq<string>)
    ensures OneLiners(Tokens(conditions))
  {
    TokensTranslateEachOnce(conditions);
    hide TokenOf, Tokens;
    var tokens := Tokens(conditions);
    forall k | 0 <= k < |tokens| ensures '\n' !in tokens[k] {
      assert tokens[k] in tokens;
      var i :| 0 <= i < |conditions| && TokenOf(conditions[i]) == tokens[k];
      TokenIsOneLine(conditions[i]);
    }
  }

  lemma RuleIsPlain(s: Snapshot, spec: RouteSpec, config: Option<Wire.RouteConfig>, versionLabel: string,
                    naming: Naming, i: nat)
    requires Admissible(spec) && ServicesFound(s, spec, versionLabel) && i < |spec.routes|
    requires PlainNames(spec) && PlainEndpoints(s, spec, versionLabel)
    requires PlainBackendNames(Compiled(s, spec, config, versionLabel, naming).rules)
    ensures
      var rules := Compiled(s, spec, config, versionLabel, naming).rules;
      i < |rules| && PlainBackend(BackendOf(rules[i]))
  {
    hide Plain, ResolutionOf, ResolveAll, Adopt, Sort, Listed, Tokens, PlainServer;
    var rules := Compiled(s, spec, config, versionLabel, naming).rules;
    var res := ResolutionOf(s, spec.routes[i], versionLabel);
    AdoptKeepsShape(spec.routes, config);
    AdmissibleRule(spec, i);
    RuleIsResolved(s, spec.routes, versionLabel, i);
    ResolvedSets(s, spec.routes[i], versionLabel);
    var adopted := Adopt(spec.routes, config)[i];
    var listed := Listed(adopted, PortOf(adopted, res), res.versions);
    assert rules[i].servers == Sort(ByName, listed);
    PortIsPlain(spec, i, res);
    assert PlainSets(res);
    SetNamesArePlain(spec, i, res.versions);
    ListedArePlain(adopted, PortOf(adopted, res), res.versions);
    forall k | 0 <= k < |rules[i].servers| ensures PlainServer(rules[i].servers[k]) {
      var j := InPermutation(rules[i].servers, listed, k);
    }
    if rules[i].resilience.Some? && adopted.resilience.value.retries.Some? {
      TokensAreOneLiners(adopted.resilience.value.retries.value.retryOn);
    }
  }

  lemma PortIsPlain(spec: RouteSpec, i: nat, res: Resolution)
    requires Admissible(spec) && i < |spec.routes| && res.endpointPort >= 0
    ensures forall adopted: RouteRule :: adopted.backend == spec.routes[i].backend ==> PortOf(adopted, res) >= 0
  {
    assert RuleOk(spec.routes[i]);
  }

  lemma SetNamesArePlain(spec: RouteSpec, i: nat, sets: seq<EndpointSet>)
    requires PlainNames(spec) && i < |spec.routes| && |sets| == |VersionNames(spec.routes[i])|
    requires forall j :: 0 <= j < |sets| ==> sets[j].version == VersionNames(spec.routes[i])[j]
    ensures forall j :: 0 <= j < |sets| ==> sets[j].version == "" || Plain(sets[j].version)
  {
    hide Plain;
  }

  lemma CompiledIsPlain(s: Snapshot, spec: RouteSpec, config: Option<Wire.RouteConfig>, versionLabel: string,
                        naming: Naming)
    requires Admissible(spec) && ServicesFound(s, spec, versionLabel)
    requires PlainNames(spec) && PlainEndpoints(s, spec, versionLabel)
    requires PlainBackendNames(Compiled(s, spec, config, versionLabel, naming).rules)
    ensures
      var r := Render(Compiled(s, spec, config, versionLabel, naming));
      && r.Ok? && PlainBackends(r.value)
      && (PlainRoute(spec) ==> PlainUses(r.value.uses))
  {
    hide Plain, IsValue, ResolutionOf, ResolveAll, PlainBackend, Sort, IsBlank, RuleOk, PlainNames, PlainEndpoints;
    var rules := Compiled(s, spec, config, versionLabel, naming).rules;
    var order := Sort(NotAfter, rules);
    AdoptKeepsShape(spec.routes, config);
    HostIsNotEmpty(spec);
    var c := Emit(spec.host, order);
    forall k | 0 <= k < |c.backends| ensures PlainBackend(c.backends[k]) {
      var i := InPermutation(order, rules, k);
      RuleIsPlain(s, spec, config, versionLabel, naming, i);
    }
    if PlainRoute(spec) {
      forall k | 0 <= k < |c.uses|
        ensures AreValues(c.uses[k].hosts) && AreValues(c.uses[k].prefixes) && Plain(c.uses[k].backend)
      {
        var i := InPermutation(order, rules, k);
        assert rules[i].path == RoutePath(spec.routes[i]);
      }
    }
  }

  lemma HostIsNotEmpty(spec: RouteSpec)
    requires Admissible(spec)
    ensures spec.host != ""
  {
  }

  // ---- The theorem about the text ----------------------------------------------------------

  /** What a proxy reads from the text implements the declared route. */
  ghost predicate Serves(text: string, s: Snapshot, spec: RouteSpec, config: Option<Wire.RouteConfig>,
                         versionLabel: string) {
    Read(text).Some? && Implements(Read(text).value, s, spec, config, versionLabel)
  }

  lemma PlainRouteIsServed(skeleton: string, s: Snapshot, spec: RouteSpec, config: Option<Wire.RouteConfig>,
                           versionLabel: string, naming: Naming, text: string)
    requires Admissible(spec) && ServicesFound(s, spec, versionLabel) && PlainRoute(spec)
    requires PlainSurroundings(skeleton, s, spec, config, versionLabel, naming)
    requires
      var r := Render(Compiled(s, spec, config, versionLabel, naming));
      r.Ok? && Normal(text) == Normal(Text(skeleton, r.value))
    ensures Serves(text, s, spec, config, versionLabel)
  {
    hide Implements, Render, Compiled, IsSkeleton, PlainNames, PlainEndpoints, PlainBackendNames, DistinctBackends,
         PlainUses, PlainBackends, PlainRoute, Text, Read, Normal, Admissible, ServicesFound, ViewOf;
    CompiledIsPlain(s, spec, config, versionLabel, naming);
    RenderIsCorrect(s, spec, config, versionLabel, naming);
    var c := Render(Compiled(s, spec, config, versionLabel, naming)).value;
    PlainTextReadsBack(skeleton, c);
    NormalDecidesReading(text, Text(skeleton, c));
  }

  /** A rule's own path is its longest match. */
  lemma OwnPathIsLongest(routes: seq<RouteRule>, i: nat)
    requires DistinctPaths(routes) && i < |routes|
    ensures LongestMatch(routes, RoutePath(routes[i])) == Some(i)
  {
    var path := RoutePath(routes[i]);
    assert Covers(routes[i], path);
    var j := LongestMatch(routes, path).value;
    if i != j {
      LongestMatchIsUnique(routes, path, i, j);
    }
  }

  lemma ServedRouteIsPlain(s: Snapshot, spec: RouteSpec, config: Option<Wire.RouteConfig>, versionLabel: string,
                           text: string, header: string)
    requires Admissible(spec) && RequestHost(header) == spec.host
    requires Serves(text, s, spec, config, versionLabel)
    ensures PlainRoute(spec)
  {
    hide RequestHost, Read, IsValue, LongestMatch, Balances, RuleOk, IsBlank, DistinctPaths, Weights;
    var v := Read(text).value;
    ReadIsPlain(text);
    forall i | 0 <= i < |spec.routes| ensures IsValue(RoutePath(spec.routes[i])) && IsValue(spec.host) {
      var path := RoutePath(spec.routes[i]);
      OwnPathIsLongest(spec.routes, i);
      assert RequestServed(v, s, spec, config, versionLabel, header, path);
      var k := FirstMatch(v.uses, header, path).value;
      var use := v.uses[k];
      assert Matches(use, header, path) && use.prefixes == [path];
      assert use.prefixes[0] == path;
    }
    assert IsValue(RoutePath(spec.routes[0]));
  }

  /**
   * For an admissible route some request can ask for, in otherwise plain surroundings, every text
   * the no-op test takes for the rendered one makes a proxy implement the route exactly when its
   * host and paths are plain. Admission does not ask for that.
   */
  lemma FileServesTheRouteIff(skeleton: string, s: Snapshot, spec: RouteSpec, config: Option<Wire.RouteConfig>,
                              versionLabel: string, naming: Naming, text: string, header: string)
    requires Admissible(spec) && ServicesFound(s, spec, versionLabel) && RequestHost(header) == spec.host
    requires PlainSurroundings(skeleton, s, spec, config, versionLabel, naming)
    requires
      var r := Render(Compiled(s, spec, config, versionLabel, naming));
      r.Ok? && Normal(text) == Normal(Text(skeleton, r.value))
    ensures Serves(text, s, spec, config, versionLabel) <==> PlainRoute(spec)
  {
    hide *;
    if PlainRoute(spec) {
      PlainRouteIsServed(skeleton, s, spec, config, versionLabel, naming, text);
    }
    if Serves(text, s, spec, config, versionLabel) {
      ServedRouteIsPlain(s, spec, config, versionLabel, text, header);
    }
  }

  // ---- Admissible, but not plain -----------------------------------------------------------

  /** A blank in a path is written as two prefixes: one text, two meanings. */
  lemma BlankMakesTwoPrefixes(host: string, first: string, second: string, backend: string)
    requires IsValue(host) && IsValue(first) && IsValue(second) && Plain(backend)
    ensures
      var declared := UseBackend([host], [first + [' '] + second], backend);
      && UseLine(declared) == UseLine(UseBackend([host], [first, second], backend))
      && ReadUse(Words(UseLine(declared))) == Some(UseBackend([host], [first, second], backend))
  {
    hide Words, ReadUse, Plain, IsValue, UseLine;
    SameUseLine(host, first, second, backend);
    UseIsRead(UseBackend([host], [first, second], backend));
  }

  lemma SameUseLine(host: string, first: string, second: string, backend: string)
    ensures UseLine(UseBackend([host], [first + [' '] + second], backend))
        == UseLine(UseBackend([host], [first, second], backend))
  {
    var front := ["use_backend", backend, "if", "{", "var(txn.host)", "-m", "str"] + [host]
        + ["}", "{", "path", "-m", "beg"];
    BlankJoins(front, first, second, ["}"]);
    hide Spaced;
    assert UseWords(UseBackend([host], [first + [' '] + second], backend)) == front + [first + [' '] + second] + ["}"];
    assert UseWords(UseBackend([host], [first, second], backend)) == front + [first, second] + ["}"];
  }

  lemma {:induction false} BlankJoins(front: seq<string>, a: string, b: string, tail: seq<string>)
    requires tail != []
    ensures Spaced(front + [a + [' '] + b] + tail) == Spaced(front + [a, b] + tail)
  {
    var joined, apart := front + [a + [' '] + b] + tail, front + [a, b] + tail;
    if front == [] {
      assert joined[1..] == tail && apart[1..] == [b] + tail && ([b] + tail)[1..] == tail;
      assert (a + [' '] + b) + " " + Spaced(tail) == a + " " + (b + " " + Spaced(tail));
    } else {
      assert joined[1..] == front[1..] + [a + [' '] + b] + tail && apart[1..] == front[1..] + [a, b] + tail;
      BlankJoins(front[1..], a, b, tail);
    }
  }

  /** A blank in a version name shifts the words of its server lines, and they make no sense. */
  lemma BlankInNameIsNotRead(s: Server, first: string, second: string)
    requires PlainServer(s.(name := first)) && Plain(second) && s.name == first + [' '] + second
    ensures ReadServer(Words(ServerLine(s))) == None
  {
    var one := s.(name := first);
    var front, after := ["server"], ServerWords(one)[2..];
    var apart := front + [first, second] + after;
    ServerWordsArePlain(one);
    hide Plain, ReadTarget, IntText, Decimal;
    assert ServerWords(s) == front + [s.name] + after;
    BlankJoins(front, first, second, after);
    forall i | 0 <= i < |apart| ensures Unbroken(apart[i]) {
      assert i != 2 ==> apart[i] in ServerWords(one);
      PlainIsUnbroken(apart[i]);
    }
    IndentIsNoWord(ServerWords(s));
    WordsOfSpaced(apart);
    var target := s.address + ":" + IntText(s.port);
    assert apart[3] == target && target[|s.address|] == ':';
    assert ':' !in "weight";
    hide Words, Spaced;
  }

  lemma PlainIsUnbroken(w: string)
    ensures Plain(w) ==> Unbroken(w)
  {
  }

  /** The webhook and the schema let such a path through. */
  lemma AdmissibleNeedNotBePlain()
    ensures
      var rule := RouteRule("/a /b", BackendRef("s", 80), [], "", None, None, None);
      var spec := RouteSpec("h", "", [rule]);
      Admissible(spec) && !PlainRoute(spec)
  {
    var rule := RouteRule("/a /b", BackendRef("s", 80), [], "", None, None, None);
    var spec := RouteSpec("h", "", [rule]);
    assert !IsBlank("h") by { assert !IsSpace("h"[0]); }
    assert !IsBlank("s") by { assert !IsSpace("s"[0]); }
    assert RoutePath(rule) == "/a /b" && RuleOk(rule);
    assert DistinctPaths(spec.routes) && forall i :: 0 <= i < |spec.routes| ==> spec.routes[i] == rule;
    assert !IsValue(RoutePath(spec.routes[0])) by { assert IsBreak("/a /b"[2]); }
  }
}
