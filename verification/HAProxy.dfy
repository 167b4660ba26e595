/** HAProxy configuration: rendering, what the proxy makes of it, and pushing it only when it changed. */
module HAProxy {
  import opened Wrappers
  import opened Strings
  import opened Sorting
  import opened Sequences
  import opened Routes
  import opened RoutingModel

  /** A condition may list several values; any of them matches. The template writes one of each. */
  datatype UseBackend = UseBackend(hosts: seq<string>, prefixes: seq<string>, backend: string)

  datatype Backend = Backend(name: string, resilience: Option<Resilience>, servers: seq<Server>)

  datatype Config = Config(uses: seq<UseBackend>, backends: seq<Backend>)

  // ---- Render ------------------------------------------------------------------------------

  /** The comparator of the sort: longest path first, equal paths by backend name. */
  predicate Before(a: Rule, b: Rule) {
    if a.path != b.path then |a.path| > |b.path| else Less(a.backendName, b.backendName)
  }

  predicate NotAfter(a: Rule, b: Rule) {
    !Before(b, a)
  }

  /** Any arrangement an unstable sort by `Before` may leave. */
  ghost predicate IsRenderingOrder(rules: seq<Rule>, out: seq<Rule>) {
    multiset(out) == multiset(rules) && Sorted(NotAfter, out)
  }

  ghost predicate DistinctRulePaths(rules: seq<Rule>) {
    forall i, j :: 0 <= i < j < |rules| ==> rules[i].path != rules[j].path
  }

  predicate NoLonger(a: Rule, b: Rule) {
    |a.path| >= |b.path|
  }

  lemma {:induction false} SortsAgree(rules: seq<Rule>)
    requires DistinctRulePaths(rules)
    ensures Sort(NotAfter, rules) == Sort(NoLonger, rules)
  {
    if rules != [] {
      SortsAgree(rules[1..]);
      var rest := Sort(NoLonger, rules[1..]);
      forall r | r in rest ensures r.path != rules[0].path {
        assert r in multiset(rest);
        assert r in rules[1..];
        var i :| 0 <= i < |rules[1..]| && rules[1..][i] == r;
        assert rules[i + 1] == r;
      }
      InsertsAgree(rules[0], rest);
    }
  }

  lemma {:induction false} InsertsAgree(x: Rule, s: seq<Rule>)
    requires forall r | r in s :: r.path != x.path
    ensures Insert(NotAfter, x, s) == Insert(NoLonger, x, s)
  {
    if s != [] {
      assert s[0] in s;
      InsertsAgree(x, s[1..]);
    }
  }

  /** With distinct paths the comparator is a proper order, and sorting achieves it. */
  lemma SortRenders(rules: seq<Rule>)
    requires DistinctRulePaths(rules)
    ensures IsRenderingOrder(rules, Sort(NotAfter, rules))
  {
    var out := Sort(NoLonger, rules);
    SortsAgree(rules);
    SortSorts(NoLonger, rules);
    forall i, j | 0 <= i < j < |out| ensures NotAfter(out[i], out[j]) {
      SamePathSameRule(rules, out, i, j);
    }
  }

  lemma SamePathSameRule(rules: seq<Rule>, out: seq<Rule>, i: nat, j: nat)
    requires DistinctRulePaths(rules) && multiset(out) == multiset(rules) && i < |out| && j < |out|
    ensures out[i].path == out[j].path ==> out[i] == out[j]
  {
    assert out[i] in multiset(rules) && out[j] in multiset(rules);
    var a :| 0 <= a < |rules| && rules[a] == out[i];
    var b :| 0 <= b < |rules| && rules[b] == out[j];
  }

  function UseOf(host: string): Rule -> UseBackend {
    (r: Rule) => UseBackend([host], [r.path], r.backendName)
  }

  function BackendOf(r: Rule): Backend {
    Backend(r.backendName, r.resilience, r.servers)
  }

  /** What the template makes of rules already in order. */
  function Emit(host: string, ordered: seq<Rule>): Config {
    Config(Map(UseOf(host), ordered), Map(BackendOf, ordered))
  }

  function Render(m: Model): Result<Config, string> {
    if m.host == "" then Err("routing model has no host") else Ok(Emit(m.host, Sort(NotAfter, m.rules)))
  }

  // ---- What the proxy does -----------------------------------------------------------------

  function LowerChar(c: char): char {
    if 'A' <= c <= 'Z' then (c as int + 32) as char else c
  }

  predicate IsLws(c: char) {
    c == ' ' || c == '\t'
  }

  function TrimLws(value: string): string {
    if value == "" then ""
    else if IsLws(value[0]) then TrimLws(value[1..])
    else if IsLws(value[|value| - 1]) then TrimLws(value[..|value| - 1])
    else value
  }

  /** A comma separates values, and req.hdr without an index takes the last one. */
  function LastValue(header: string): string {
    if header == "" || header[|header| - 1] == ',' then ""
    else LastValue(header[..|header| - 1]) + [header[|header| - 1]]
  }

  /** lower,field(1,:) */
  function HostField(value: string): string {
    if value == "" || value[0] == ':' then "" else [LowerChar(value[0])] + HostField(value[1..])
  }

  /** req.hdr(host),lower,field(1,:) */
  function RequestHost(header: string): string {
    HostField(TrimLws(LastValue(header)))
  }

  predicate Matches(use: UseBackend, header: string, path: string) {
    RequestHost(header) in use.hosts && exists i :: 0 <= i < |use.prefixes| && use.prefixes[i] <= path
  }

  /** The first use_backend whose condition holds; None is the default backend. */
  function FirstMatch(uses: seq<UseBackend>, header: string, path: string): (r: Option<nat>)
    ensures r.Some? ==>
      && r.value < |uses| && Matches(uses[r.value], header, path)
      && forall i :: 0 <= i < r.value ==> !Matches(uses[i], header, path)
    ensures r.None? ==> forall i :: 0 <= i < |uses| ==> !Matches(uses[i], header, path)
  {
    if uses == [] then None
    else if Matches(uses[0], header, path) then Some(0)
    else
      var rest := FirstMatch(uses[1..], header, path);
      if rest.None? then None else Some(rest.value + 1)
  }

  /** A server line as the proxy reads it; the version it came from is not in the file. */
  datatype Upstream = Upstream(address: string, port: int, weight: nat)

  function UpstreamOf(s: Server): Upstream {
    Upstream(s.address, s.port, s.weight)
  }

  datatype Pool = Pool(name: string, upstreams: seq<Upstream>)

  /** What a proxy makes of a configuration. */
  datatype View = View(uses: seq<UseBackend>, pools: seq<Pool>)

  const NO_ROUTE := "kubetraffic_no_route"

  function PoolOf(b: Backend): Pool {
    Pool(b.name, Map(UpstreamOf, b.servers))
  }

  /** What the template means the proxy to see: its lines, and the fallback before the backends. */
  function ViewOf(c: Config): View {
    View(c.uses, [Pool(NO_ROUTE, [])] + Map(PoolOf, c.backends))
  }

  /** The servers of the first backend of that name. */
  function UpstreamsBehind(pools: seq<Pool>, name: string): seq<Upstream> {
    if pools == [] then []
    else if pools[0].name == name then pools[0].upstreams
    else UpstreamsBehind(pools[1..], name)
  }

  // ---- Text and normalisation --------------------------------------------------------------

  function IntText(n: int): string {
    if n < 0 then "-" + Decimal(-n) else Decimal(n)
  }

  function Spaced(words: seq<string>): string {
    if words == [] then "" else if |words| == 1 then words[0] else words[0] + " " + Spaced(words[1..])
  }

  /** A directive inside a section. */
  function Indented(words: seq<string>): string {
    "    " + Spaced(words)
  }

  function UseWords(u: UseBackend): seq<string> {
    ["use_backend", u.backend, "if", "{", "var(txn.host)", "-m", "str"] + u.hosts
    + ["}", "{", "path", "-m", "beg"] + u.prefixes + ["}"]
  }

  function UseLine(u: UseBackend): string {
    Indented(UseWords(u))
  }

  function ResilienceLines(r: Option<Resilience>): seq<string> {
    if r.None? then []
    else
      (if r.value.connectTimeoutMs > 0
       then [Indented(["timeout", "connect", IntText(r.value.connectTimeoutMs) + "ms"])] else [])
      + (if r.value.timeoutMs > 0 then [Indented(["timeout", "server", IntText(r.value.timeoutMs) + "ms"])] else [])
      + (if r.value.retries > 0 then
           [Indented(["retries", IntText(r.value.retries)]), Indented(["option", "redispatch"])]
           + (if r.value.retryOn != [] then [Indented(["retry-on"] + r.value.retryOn)] else [])
         else [])
  }

  function ServerWords(s: Server): seq<string> {
    ["server", s.name, s.address + ":" + IntText(s.port), "weight", Decimal(s.weight),
     "check", "inter", "5s", "fall", "3", "rise", "2"]
  }

  function ServerLine(s: Server): string {
    Indented(ServerWords(s))
  }

  function BackendLines(b: Backend): seq<string> {
    [Spaced(["backend", b.name]), Indented(["balance", "roundrobin"]), Indented(["option", "httpchk GET /healthz"])]
    + ResilienceLines(b.resilience) + Map(ServerLine, b.servers)
  }

  /** The frontend with its rules, the fallback, the backends. */
  function FileLines(c: Config): seq<string> {
    [Spaced(["frontend", "kubetraffic"]), Indented(["bind", ":8080"]),
     Indented(["http-request", "set-var(txn.host)", "req.hdr(host),lower,field(1,:)"])]
    + Map(UseLine, c.uses)
    + [Indented(["default_backend", NO_ROUTE]), Spaced(["backend", NO_ROUTE]),
       Indented(["http-request", "return", "status", "503", "content-type", "\"text/plain\"", "string",
               "\"kubetraffic: no route configured\\n\""])]
    + Flatten(Map(BackendLines, c.backends))
  }

  function Terminated(lines: seq<string>): string {
    if lines == [] then "" else lines[0] + ['\n'] + Terminated(lines[1..])
  }

  /** The whole file, up to blank lines: the fixed skeleton, then everything rendered. */
  function Text(skeleton: string, c: Config): string {
    skeleton + Terminated(FileLines(c))
  }

  function TrimRight(line: string): (r: string)
    ensures r <= line && (r != "" ==> r[|r| - 1] != ' ' && r[|r| - 1] != '\t')
    ensures line != "" && line[|line| - 1] != ' ' && line[|line| - 1] != '\t' ==> r == line
  {
    if line != "" && (line[|line| - 1] == ' ' || line[|line| - 1] == '\t') then TrimRight(line[..|line| - 1]) else line
  }

  /** strings.Split(text, "\n"): always at least one line. */
  function Lines(text: string): (lines: seq<string>)
    ensures lines != [] && forall l | l in lines :: '\n' !in l
  {
    if text == "" then [""]
    else
      var rest := Lines(text[1..]);
      if text[0] == '\n' then [""] + rest else [[text[0]] + rest[0]] + rest[1..]
  }

  function Significant(lines: seq<string>): seq<string> {
    if lines == [] then []
    else
      var l := TrimRight(lines[|lines| - 1]);
      Significant(lines[..|lines| - 1]) + if l == "" then [] else [l]
  }

  function Join(lines: seq<string>): string {
    if lines == [] then "" else if |lines| == 1 then lines[0] else lines[0] + ['\n'] + Join(lines[1..])
  }

  method Normalize(text: string) returns (r: string)
    ensures r == Normal(text)
  {
    var lines := Lines(text);
    var out := [];
    for i := 0 to |lines|
      invariant out == Significant(lines[..i])
    {
      assert lines[..i + 1][..i] == lines[..i];
      var l := TrimRight(lines[i]);
      if l == "" {
        continue;
      }
      out := out + [l];
    }
    assert lines[..|lines|] == lines;
    r := Join(out);
  }

  function Normal(text: string): string {
    Join(Significant(Lines(text)))
  }

  /** A line that survived trimming: not empty, no trailing blank, no line break inside. */
  predicate Solid(l: string) {
    l != "" && l[|l| - 1] != ' ' && l[|l| - 1] != '\t' && '\n' !in l
  }

  predicate AllSolid(lines: seq<string>) {
    forall i :: 0 <= i < |lines| ==> Solid(lines[i])
  }

  lemma {:induction false} SignificantIsSolid(lines: seq<string>)
    requires forall l | l in lines :: '\n' !in l
    ensures AllSolid(Significant(lines))
  {
    if lines != [] {
      SignificantIsSolid(lines[..|lines| - 1]);
      assert lines[|lines| - 1] in lines;
    }
  }

  lemma {:induction false} SolidIsSignificant(lines: seq<string>)
    requires AllSolid(lines)
    ensures Significant(lines) == lines
  {
    if lines != [] {
      SolidIsSignificant(lines[..|lines| - 1]);
    }
  }

  lemma {:induction false} LinesOfLine(l: string, rest: string)
    requires '\n' !in l
    ensures Lines(l + ['\n'] + rest) == [l] + Lines(rest) && Lines(l) == [l]
  {
    if l == "" {
      assert l + ['\n'] + rest == ['\n'] + rest;
    } else {
      LinesOfLine(l[1..], rest);
      assert l[0] in l && l == [l[0]] + l[1..];
      assert (l + ['\n'] + rest)[1..] == l[1..] + ['\n'] + rest;
    }
  }

  lemma {:induction false} LinesOfJoin(lines: seq<string>)
    requires AllSolid(lines) && lines != []
    ensures Lines(Join(lines)) == lines
  {
    if |lines| == 1 {
      LinesOfLine(lines[0], "");
    } else {
      LinesOfJoin(lines[1..]);
      LinesOfLine(lines[0], Join(lines[1..]));
    }
  }

  /** Joining solid lines loses nothing, not even when there are none. */
  lemma SignificantOfJoin(lines: seq<string>)
    requires AllSolid(lines)
    ensures Significant(Lines(Join(lines))) == lines
  {
    if lines == [] {
      assert Lines("") == [""];
      assert [""][..0] == [];
    } else {
      LinesOfJoin(lines);
      SolidIsSignificant(lines);
    }
  }

  /** The no-op test compares exactly the significant lines, and normalising twice is normalising once. */
  lemma NormalComparesSignificantLines(a: string, b: string)
    ensures Normal(a) == Normal(b) <==> Significant(Lines(a)) == Significant(Lines(b))
    ensures Normal(Normal(a)) == Normal(a)
  {
    SignificantIsSolid(Lines(a));
    SignificantIsSolid(Lines(b));
    SignificantOfJoin(Significant(Lines(a)));
    SignificantOfJoin(Significant(Lines(b)));
  }

  // ---- ApplyConfig -------------------------------------------------------------------------

  /** The Data Plane API's answer to a push; what it stores may differ from what it got in blanks. */
  datatype Push = Stored(text: string) | Rejected | ReplyLost(text: string)

  predicate Faithful(push: Push, raw: string) {
    push.Rejected? || Normal(push.text) == Normal(raw)
  }

  /** Success and the live file after an attempt to apply `raw`. */
  function Apply(live: string, raw: string, readable: bool, push: Push): (bool, string) {
    if !readable then (false, live)
    else if Normal(live) == Normal(raw) then (true, live)
    else
      match push
      case Stored(text) => (true, text)
      case Rejected => (false, live)
      case ReplyLost(text) => (false, text)
  }

  class Proxy {
    var live: string
    const skeleton: string

    constructor (skeleton: string)
      ensures this.skeleton == skeleton && live == ""
    {
      this.skeleton, live := skeleton, "";
    }

    method ApplyConfig(raw: string, readable: bool, push: Push) returns (ok: bool)
      modifies this
      ensures (ok, live) == Apply(old(live), raw, readable, push)
    {
      if !readable {
        return false;
      }
      var current := Normalize(live);
      var wanted := Normalize(raw);
      if current == wanted {
        return true;
      }
      match push
      case Stored(text) =>
        live := text;
        return true;
      case Rejected =>
        return false;
      case ReplyLost(text) =>
        live := text;
        return false;
    }
  }

  /** After a successful apply the live file says what was asked, and asking again touches nothing. */
  lemma AppliedConfigStays(live: string, raw: string, readable: bool, push: Push, readable': bool, push': Push)
    requires Faithful(push, raw)
    ensures
      var (ok, after) := Apply(live, raw, readable, push);
      && (ok ==> Normal(after) == Normal(raw))
      && (ok ==> Apply(after, raw, readable', push').1 == after)
      && (ok && readable' ==> Apply(after, raw, readable', push').0)
  {
  }
}
