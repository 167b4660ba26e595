/**
 * What a proxy reads from a file, line by line and word by word: the routing lines of the
 * "kubetraffic" frontend and the servers of every backend. Everything else passes unread.
 */
module ProxyReader {
  import opened Wrappers
  import opened Strings
  import opened Sequences
  import opened RoutingModel
  import opened HAProxy

  // ---- Words -------------------------------------------------------------------------------

  predicate IsBreak(c: char) {
    c == ' ' || 9 <= c as int <= 13
  }

  /** Quotes, escapes and comments change what a line means; this reader does not interpret them. */
  predicate IsQuoting(c: char) {
    c == '"' || c == '\'' || c == '\\' || c == '#'
  }

  predicate Unbroken(w: string) {
    w != "" && forall i :: 0 <= i < |w| ==> !IsBreak(w[i])
  }

  /** A word that is read as it is written. */
  predicate Plain(w: string) {
    Unbroken(w) && forall i :: 0 <= i < |w| ==> !IsQuoting(w[i])
  }

  /** A plain word that can stand in a condition's list of values. */
  predicate IsValue(w: string) {
    Plain(w) && w[0] != '-' && w != "}"
  }

  function Words(line: string): (words: seq<string>)
    ensures line != "" && !IsBreak(line[0]) ==> words != []
    ensures forall i :: 0 <= i < |words| ==> Unbroken(words[i])
  {
    if line == "" then []
    else if IsBreak(line[0]) then Words(line[1..])
    else if |line| == 1 || IsBreak(line[1]) then [[line[0]]] + Words(line[1..])
    else
      var rest := Words(line[1..]);
      [[line[0]] + rest[0]] + rest[1..]
  }

  lemma {:induction false} WordThenRest(w: string, rest: string)
    requires Unbroken(w)
    ensures Words(w) == [w] && Words(w + [' '] + rest) == [w] + Words(rest)
  {
    var line := w + [' '] + rest;
    if |w| == 1 {
      assert line[1] == ' ' && line[1..] == [' '] + rest;
      assert ([' '] + rest)[1..] == rest;
      assert w[1..] == "" && [w[0]] == w && Words("") == [];
    } else {
      assert line[1..] == w[1..] + [' '] + rest && line[1] == w[1];
      assert Unbroken(w[1..]) by {
        assert forall i :: 0 <= i < |w[1..]| ==> w[1..][i] == w[i + 1];
      }
      WordThenRest(w[1..], rest);
      assert [w[0]] + w[1..] == w;
    }
  }

  lemma {:induction false} WordsOfSpaced(words: seq<string>)
    requires forall i :: 0 <= i < |words| ==> Unbroken(words[i])
    ensures Words(Spaced(words)) == words
  {
    if |words| == 1 {
      WordThenRest(words[0], "");
    } else if |words| > 1 {
      WordsOfSpaced(words[1..]);
      WordThenRest(words[0], Spaced(words[1..]));
      assert words[0] + " " + Spaced(words[1..]) == words[0] + [' '] + Spaced(words[1..]);
    }
  }

  lemma IndentIsNoWord(words: seq<string>)
    ensures Words(Indented(words)) == Words(Spaced(words))
  {
    var line := Spaced(words);
    assert (" " + line)[1..] == line && ("  " + line)[1..] == " " + line;
    assert ("   " + line)[1..] == "  " + line && ("    " + line)[1..] == "   " + line;
    assert Words(" " + line) == Words(line);
    assert Words("  " + line) == Words(" " + line);
    assert Words("   " + line) == Words("  " + line);
  }

  /** The first word decides what kind of line it is. */
  lemma FirstWord(words: seq<string>)
    requires words != [] && Unbroken(words[0])
    ensures Words(Spaced(words)) != [] && Words(Spaced(words))[0] == words[0]
  {
    if |words| == 1 {
      WordThenRest(words[0], "");
    } else {
      WordThenRest(words[0], Spaced(words[1..]));
      assert words[0] + " " + Spaced(words[1..]) == words[0] + [' '] + Spaced(words[1..]);
    }
  }

  lemma {:induction false} TrailingBreak(line: string, c: char)
    requires IsBreak(c)
    ensures Words(line + [c]) == Words(line)
  {
    if line == "" {
      assert ([c])[1..] == "";
    } else {
      assert (line + [c])[1..] == line[1..] + [c];
      TrailingBreak(line[1..], c);
    }
  }

  lemma {:induction false} WordsOfTrimmed(line: string)
    ensures Words(TrimRight(line)) == Words(line)
  {
    if line != "" && (line[|line| - 1] == ' ' || line[|line| - 1] == '\t') {
      WordsOfTrimmed(line[..|line| - 1]);
      TrailingBreak(line[..|line| - 1], line[|line| - 1]);
      assert line[..|line| - 1] + [line[|line| - 1]] == line;
    }
  }

  // ---- One line ----------------------------------------------------------------------------

  /** Where the list of values ends. */
  function Closing(words: seq<string>): (i: Option<nat>)
    ensures i.Some? ==> i.value < |words| && words[i.value] == "}" && "}" !in words[..i.value]
    ensures i.None? ==> "}" !in words
  {
    if words == [] then None
    else if words[0] == "}" then Some(0)
    else
      var rest := Closing(words[1..]);
      if rest.None? then None else Some(rest.value + 1)
  }

  predicate AreValues(words: seq<string>) {
    forall i :: 0 <= i < |words| ==> IsValue(words[i])
  }

  /** "{", the criterion, its values, "}": the values and what follows. */
  function ReadTerm(criterion: seq<string>, words: seq<string>): Option<(seq<string>, seq<string>)> {
    if !(criterion <= words) then None
    else
      var rest := words[|criterion|..];
      var end := Closing(rest);
      if end.None? || !AreValues(rest[..end.value]) then None else Some((rest[..end.value], rest[end.value + 1..]))
  }

  const HOST_TERM: seq<string> := ["{", "var(txn.host)", "-m", "str"]
  const PATH_TERM: seq<string> := ["{", "path", "-m", "beg"]

  /** use_backend NAME if { var(txn.host) -m str VALUES } { path -m beg VALUES } */
  function ReadUse(words: seq<string>): Option<UseBackend> {
    if |words| < 3 || words[0] != "use_backend" || words[2] != "if" || !Plain(words[1]) then None
    else
      var hosts := ReadTerm(HOST_TERM, words[3..]);
      if hosts.None? then None
      else
        var prefixes := ReadTerm(PATH_TERM, hosts.value.1);
        if prefixes.None? || prefixes.value.1 != [] then None
        else Some(UseBackend(hosts.value.0, prefixes.value.0, words[1]))
  }

  /** The port follows the last colon. */
  function ReadTarget(target: string): Option<(string, int)> {
    if target == "" then None
    else
      var last := target[|target| - 1];
      if last == ':' then None
      else SplitTarget(target[..|target| - 1], [last])
  }

  function SplitTarget(front: string, port: string): Option<(string, int)>
    decreases |front|
  {
    if !AllDigits(port) || front == "" then None
    else if front[|front| - 1] == ':' then Some((front[..|front| - 1], ParseDecimal(port)))
    else SplitTarget(front[..|front| - 1], [front[|front| - 1]] + port)
  }

  /** server NAME ADDRESS:PORT weight WEIGHT ... */
  function ReadServer(words: seq<string>): Option<Upstream> {
    if |words| < 5 || words[0] != "server" || words[3] != "weight" then None
    else if !(forall i :: 0 <= i < |words| ==> Plain(words[i])) || !AllDigits(words[4]) then None
    else
      var target := ReadTarget(words[2]);
      if target.None? then None else Some(Upstream(target.value.0, target.value.1, ParseDecimal(words[4])))
  }

  // ---- The whole file ----------------------------------------------------------------------

  /** What has been read so far, and in which section the reader is; not ok once a line made no sense. */
  datatype Reading = Reading(inFrontend: bool, inBackend: bool, view: View, ok: bool)

  const START := Reading(false, false, View([], []), true)

  predicate OpensOtherSection(word: string) {
    || word == "global" || word == "defaults" || word == "listen" || word == "userlist" || word == "program"
    || word == "peers" || word == "resolvers" || word == "mailers" || word == "cache" || word == "ring"
  }

  function Put(r: Reading, u: Upstream): Reading {
    if r.view.pools == [] then r.(ok := false)
    else
      var last := |r.view.pools| - 1;
      var pool := r.view.pools[last];
      r.(view := r.view.(pools := r.view.pools[last := pool.(upstreams := pool.upstreams + [u])]))
  }

  function Step(r: Reading, words: seq<string>): Reading {
    if words == [] then r
    else if words[0] == "frontend" then
      r.(inFrontend := words == ["frontend", "kubetraffic"], inBackend := false)
    else if words[0] == "backend" then
      if |words| == 2 && Plain(words[1])
      then r.(inFrontend := false, inBackend := true, view := r.view.(pools := r.view.pools + [Pool(words[1], [])]))
      else r.(ok := false)
    else if OpensOtherSection(words[0]) then r.(inFrontend := false, inBackend := false)
    else if words[0] == "use_backend" && r.inFrontend then
      match ReadUse(words)
      case None => r.(ok := false)
      case Some(u) => r.(view := r.view.(uses := r.view.uses + [u]))
    else if words[0] == "server" && r.inBackend then
      match ReadServer(words)
      case None => r.(ok := false)
      case Some(u) => Put(r, u)
    else r
  }

  function ReadLines(r: Reading, lines: seq<string>): Reading {
    if lines == [] then r else Step(ReadLines(r, lines[..|lines| - 1]), Words(lines[|lines| - 1]))
  }

  /** None if some routing line cannot be made sense of. */
  function Read(text: string): Option<View> {
    var r := ReadLines(START, Significant(Lines(text)));
    if r.ok then Some(r.view) else None
  }

  /** Texts that the no-op test takes for equal are read alike. */
  lemma NormalDecidesReading(a: string, b: string)
    requires Normal(a) == Normal(b)
    ensures Read(a) == Read(b)
  {
    NormalComparesSignificantLines(a, b);
  }

  lemma {:induction false} ReadConcat(r: Reading, a: seq<string>, b: seq<string>)
    ensures ReadLines(r, a + b) == ReadLines(ReadLines(r, a), b)
  {
    if b == [] {
      assert a + b == a;
    } else {
      assert (a + b)[..|a + b| - 1] == a + b[..|b| - 1];
      ReadConcat(r, a, b[..|b| - 1]);
    }
  }

  lemma ReadOne(r: Reading, line: string)
    ensures ReadLines(r, [line]) == Step(r, Words(line))
  {
    assert [line][..0] == [];
  }

  lemma {:induction false} ReadSignificant(r: Reading, lines: seq<string>)
    ensures ReadLines(r, Significant(lines)) == ReadLines(r, lines)
  {
    if lines != [] {
      var before, line := lines[..|lines| - 1], lines[|lines| - 1];
      ReadSignificant(r, before);
      WordsOfTrimmed(line);
      if TrimRight(line) == "" {
        assert Significant(lines) == Significant(before);
      } else {
        ReadConcat(r, Significant(before), [TrimRight(line)]);
        ReadOne(ReadLines(r, before), TrimRight(line));
      }
    }
  }

  // ---- Lines of a file made of lines -------------------------------------------------------

  predicate OneLiners(lines: seq<string>) {
    forall i :: 0 <= i < |lines| ==> '\n' !in lines[i]
  }

  lemma {:induction false} LinesOfTerminated(lines: seq<string>)
    requires OneLiners(lines)
    ensures Lines(Terminated(lines)) == lines + [""]
  {
    if lines != [] {
      LinesOfTerminated(lines[1..]);
      LinesOfLine(lines[0], Terminated(lines[1..]));
    }
  }

  lemma {:induction false} LinesOfConcat(a: string, b: string)
    requires a == "" || a[|a| - 1] == '\n'
    ensures Lines(a)[|Lines(a)| - 1] == "" && Lines(a + b) == Lines(a)[..|Lines(a)| - 1] + Lines(b)
    ensures a != "" ==> |Lines(a)| > 1
  {
    if a == "" {
      assert a + b == b;
    } else {
      assert (a + b)[1..] == a[1..] + b && (a + b)[0] == a[0];
      var rest := Lines(a[1..]);
      LinesOfConcat(a[1..], b);
      FirstLineGrows(rest, Lines(b), a[0]);
    }
  }

  lemma FirstLineGrows(rest: seq<string>, more: seq<string>, c: char)
    requires rest != []
    ensures ([""] + rest)[..|rest|] + more == [""] + (rest[..|rest| - 1] + more)
    ensures
      |rest| > 1 ==>
        var together := rest[..|rest| - 1] + more;
        ([[c] + rest[0]] + rest[1..])[..|rest| - 1] + more == [[c] + together[0]] + together[1..]
  {
  }

  /** A skeleton ends its last line and routes nothing. */
  predicate IsSkeleton(skeleton: string) {
    && (skeleton == "" || skeleton[|skeleton| - 1] == '\n')
    && ReadLines(START, Lines(skeleton)).ok && ReadLines(START, Lines(skeleton)).view == View([], [])
  }

  /** A line that opens no backend, chooses none and adds no server. */
  predicate Unrouted(line: string) {
    '\n' !in line &&
    (Words(line) == []
      || (Words(line)[0] != "backend" && Words(line)[0] != "use_backend" && Words(line)[0] != "server"))
  }

  lemma {:induction false} UnroutedLinesKeepTheView(r: Reading, lines: seq<string>)
    requires forall i :: 0 <= i < |lines| ==> Unrouted(lines[i])
    ensures ReadLines(r, lines).view == r.view && ReadLines(r, lines).ok == r.ok
  {
    hide Words;
    if lines != [] {
      UnroutedLinesKeepTheView(r, lines[..|lines| - 1]);
      assert Unrouted(lines[|lines| - 1]);
    }
  }

  lemma {:induction false} TerminatedEndsInBreak(lines: seq<string>)
    ensures Terminated(lines) == "" || Terminated(lines)[|Terminated(lines)| - 1] == '\n'
  {
    if lines != [] {
      TerminatedEndsInBreak(lines[1..]);
    }
  }

  /** Sections that route nothing, such as the fixed ones every file begins with, make a skeleton. */
  lemma UnroutedLinesMakeASkeleton(lines: seq<string>)
    requires forall i :: 0 <= i < |lines| ==> Unrouted(lines[i])
    ensures IsSkeleton(Terminated(lines))
  {
    hide Words, Step, ReadLines, Terminated, Lines;
    assert OneLiners(lines) by {
      assert forall i :: 0 <= i < |lines| ==> Unrouted(lines[i]) && '\n' !in lines[i];
    }
    hide Unrouted, OneLiners;
    LinesOfTerminated(lines);
    UnroutedLinesKeepTheView(START, lines);
    ReadEmptyLine(START, lines);
    TerminatedEndsInBreak(lines);
  }

  lemma ReadEmptyLine(r: Reading, lines: seq<string>)
    ensures ReadLines(r, lines + [""]) == ReadLines(r, lines)
  {
    ReadConcat(r, lines, [""]);
    ReadOne(ReadLines(r, lines), "");
  }

  lemma ReadAfterSkeleton(skeleton: string, lines: seq<string>) returns (r: Reading)
    requires IsSkeleton(skeleton) && OneLiners(lines)
    ensures r.ok && r.view == View([], [])
    ensures ReadLines(START, Significant(Lines(skeleton + Terminated(lines)))) == ReadLines(r, lines)
  {
    hide Words, Step, ReadLines, Significant, Lines, Terminated;
    var before := Lines(skeleton)[..|Lines(skeleton)| - 1];
    LinesOfTerminated(lines);
    LinesOfConcat(skeleton, Terminated(lines));
    r := ReadLines(START, before);
    assert Lines(skeleton) == before + [""];
    ReadEmptyLine(START, before);
    ReadSignificant(START, Lines(skeleton + Terminated(lines)));
    assert before + (lines + [""]) == before + lines + [""];
    ReadEmptyLine(START, before + lines);
    ReadConcat(START, before, lines);
  }

  // ---- Reading back what was written -------------------------------------------------------

  /** Lines that start like this say nothing about routing. */
  predicate Ignored(word: string) {
    && word != "frontend" && word != "backend" && word != "use_backend" && word != "server" && !OpensOtherSection(word)
  }

  lemma IgnoredWords()
    ensures Ignored("bind") && Ignored("http-request") && Ignored("default_backend") && Ignored("balance")
    ensures Ignored("option") && Ignored("timeout") && Ignored("retries") && Ignored("retry-on")
  {
    assert "balance"[2] == 'l' && "backend"[2] == 'c';
    assert "option"[0] == 'o' && "timeout"[0] == 't' && "http-request"[0] == 'h' && "retries"[0] == 'r';
  }

  lemma ConditionWords()
    ensures Plain("use_backend") && Plain("if") && Plain("{") && Plain("}")
    ensures Plain("-m") && Plain("str") && Plain("path") && Plain("beg")
  {
  }

  lemma HostVariable()
    ensures Plain("var(txn.host)")
  {
  }

  lemma ServerKeywords()
    ensures Plain("server") && Plain("weight") && Plain("check") && Plain("inter")
    ensures Plain("5s") && Plain("fall") && Plain("3") && Plain("rise") && Plain("2")
  {
  }

  lemma SectionWords()
    ensures Plain("backend") && Plain("frontend") && Plain("kubetraffic")
  {
  }

  lemma NoRouteIsPlain()
    ensures Plain(NO_ROUTE)
  {
  }

  lemma DirectiveWords()
    ensures Unbroken("bind") && Unbroken("http-request") && Unbroken("balance")
    ensures Unbroken("option") && Unbroken("timeout") && Unbroken("retries") && Unbroken("retry-on")
  {
  }

  lemma DefaultBackendWord()
    ensures Unbroken("default_backend")
  {
  }

  lemma IgnoredLine(r: Reading, words: seq<string>)
    requires words != [] && Unbroken(words[0]) && Ignored(words[0])
    ensures Step(r, Words(Indented(words))) == r
  {
    IndentIsNoWord(words);
    FirstWord(words);
    hide Words, Spaced;
  }

  lemma {:induction false} ClosingAfterValues(values: seq<string>, rest: seq<string>)
    requires AreValues(values)
    ensures Closing(values + ["}"] + rest) == Some(|values|)
  {
    var words := values + ["}"] + rest;
    if values != [] {
      assert words[1..] == values[1..] + ["}"] + rest;
      ClosingAfterValues(values[1..], rest);
    }
  }

  lemma TermIsRead(criterion: seq<string>, values: seq<string>, rest: seq<string>)
    requires AreValues(values)
    ensures ReadTerm(criterion, criterion + values + ["}"] + rest) == Some((values, rest))
  {
    var words, after := criterion + values + ["}"] + rest, values + ["}"] + rest;
    assert words[|criterion|..] == after;
    ClosingAfterValues(values, rest);
    assert after[..|values|] == values && after[|values| + 1..] == rest;
  }

  lemma UseIsRead(u: UseBackend)
    requires AreValues(u.hosts) && AreValues(u.prefixes) && Plain(u.backend)
    ensures Words(UseLine(u)) == UseWords(u) && ReadUse(UseWords(u)) == Some(u)
  {
    hide Words, Spaced, Plain, Unbroken, IsValue, UseWords, ReadUse, Indented;
    var words := UseWords(u);
    forall i | 0 <= i < |words| ensures Unbroken(words[i]) {
      UseWordsArePlain(u, i);
      PlainIsUnbroken(words[i]);
    }
    IndentIsNoWord(words);
    WordsOfSpaced(words);
    UseWordsAreRead(u);
  }

  lemma PlainIsUnbroken(w: string)
    requires Plain(w)
    ensures Unbroken(w)
  {
  }

  lemma UseWordsAreRead(u: UseBackend)
    requires AreValues(u.hosts) && AreValues(u.prefixes) && Plain(u.backend)
    ensures ReadUse(UseWords(u)) == Some(u)
  {
    hide Plain, IsValue, ReadTerm;
    var second := PATH_TERM + u.prefixes + ["}"] + [];
    assert UseWords(u)[3..] == HOST_TERM + u.hosts + ["}"] + second;
    TermIsRead(HOST_TERM, u.hosts, second);
    TermIsRead(PATH_TERM, u.prefixes, []);
  }

  lemma UseWordsArePlain(u: UseBackend, i: nat)
    requires AreValues(u.hosts) && AreValues(u.prefixes) && Plain(u.backend) && i < |UseWords(u)|
    ensures Plain(UseWords(u)[i])
  {
    ConditionWords();
    HostVariable();
    hide Plain;
    var front := ["use_backend", u.backend, "if", "{", "var(txn.host)", "-m", "str"];
    var middle := ["}", "{", "path", "-m", "beg"];
    var words := UseWords(u);
    assert words == front + u.hosts + middle + u.prefixes + ["}"];
    assert forall w | w in front :: Plain(w);
    assert forall w | w in middle :: Plain(w);
    assert forall w | w in u.hosts :: Plain(w) by { ValuesArePlain(u.hosts); }
    assert forall w | w in u.prefixes :: Plain(w) by { ValuesArePlain(u.prefixes); }
    assert words[i] in words;
  }

  lemma ValuesArePlain(values: seq<string>)
    requires AreValues(values)
    ensures forall w | w in values :: Plain(w)
  {
  }

  /** Each written line is read as the line beside it; normally they are the same. */
  ghost predicate ReadAs(written: seq<UseBackend>, read: seq<UseBackend>) {
    |written| == |read| && forall i :: 0 <= i < |written| ==> ReadUse(Words(UseLine(written[i]))) == Some(read[i])
  }

  lemma {:induction false} UsesAreRead(r: Reading, written: seq<UseBackend>, read: seq<UseBackend>)
    requires r.inFrontend && r.ok && ReadAs(written, read)
    ensures ReadLines(r, Map(UseLine, written)) == r.(view := r.view.(uses := r.view.uses + read))
  {
    hide Words, UseLine, ReadUse;
    if written == [] {
      assert r.view.uses + [] == r.view.uses;
    } else {
      var last := |written| - 1;
      UsesAreRead(r, written[..last], read[..last]);
      assert Map(UseLine, written)[..last] == Map(UseLine, written[..last]);
      ReadUseLeadsTheWay(Words(UseLine(written[last])));
      assert r.view.uses + read == r.view.uses + read[..last] + [read[last]];
    }
  }

  lemma ReadUseLeadsTheWay(words: seq<string>)
    ensures ReadUse(words).Some?
        ==> words != [] && words[0] == "use_backend" && words[0] != "frontend" && words[0] != "backend"
    ensures ReadUse(words).Some? ==> !OpensOtherSection(words[0]) && words[0] != "server"
  {
    assert "use_backend"[0] == 'u';
  }

  // ---- Servers -----------------------------------------------------------------------------

  predicate PlainServer(s: Server) {
    Plain(s.name) && Plain(s.address) && s.port >= 0
  }

  lemma {:induction false} DigitsArePlain(w: string)
    requires AllDigits(w) && w != ""
    ensures Plain(w) && ':' !in w
  {
  }

  lemma {:induction false} TargetSplits(address: string, front: string, back: string)
    requires address != "" && AllDigits(front + back) && AllDigits(back) && back != ""
    ensures SplitTarget(address + ":" + front, back) == Some((address, ParseDecimal(front + back)))
    decreases |front|
  {
    var text := address + ":" + front;
    if front == "" {
      assert text[|text| - 1] == ':' && text[..|text| - 1] == address && front + back == back;
    } else {
      var last := front[|front| - 1];
      assert text[|text| - 1] == last && text[..|text| - 1] == address + ":" + front[..|front| - 1];
      assert front + back == front[..|front| - 1] + ([last] + back);
      assert IsDigit((front + back)[|front| - 1]);
      TargetSplits(address, front[..|front| - 1], [last] + back);
    }
  }

  lemma TargetIsRead(address: string, port: nat)
    requires address != ""
    ensures ReadTarget(address + ":" + Decimal(port)) == Some((address, port))
  {
    var digits := Decimal(port);
    var front, back, target := digits[..|digits| - 1], [digits[|digits| - 1]], address + ":" + digits;
    assert digits == front + back;
    assert target[|target| - 1] == back[0] && target[..|target| - 1] == address + ":" + front;
    TargetSplits(address, front, back);
    ParseOfDecimal(port);
  }

  lemma ServerWordsArePlain(s: Server)
    requires PlainServer(s)
    ensures forall w | w in ServerWords(s) :: Plain(w)
  {
    ServerKeywords();
    DigitsArePlain(Decimal(s.weight));
    DigitsArePlain(Decimal(s.port));
    var target := s.address + ":" + Decimal(s.port);
    assert Plain(target);
    hide Plain;
  }

  lemma ServerIsRead(s: Server)
    requires PlainServer(s)
    ensures Words(ServerLine(s)) == ServerWords(s) && ReadServer(ServerWords(s)) == Some(UpstreamOf(s))
  {
    ServerWordsArePlain(s);
    var words := ServerWords(s);
    assert forall i :: 0 <= i < |words| ==> words[i] in words;
    assert forall i :: 0 <= i < |words| ==> Plain(words[i]);
    IndentIsNoWord(words);
    WordsOfSpaced(words);
    TargetIsRead(s.address, s.port);
    ParseOfDecimal(s.weight);
    hide Words, Spaced, Plain, ReadTarget, ParseDecimal, Decimal;
  }

  /** Adding upstreams to the backend read last. */
  function PutAll(r: Reading, us: seq<Upstream>): Reading {
    if us == [] then r else Put(PutAll(r, us[..|us| - 1]), us[|us| - 1])
  }

  lemma {:induction false} PutAllAppends(r: Reading, us: seq<Upstream>)
    requires r.view.pools != []
    ensures
      var last := |r.view.pools| - 1;
      var pool := r.view.pools[last];
      PutAll(r, us) == r.(view := r.view.(pools := r.view.pools[last := pool.(upstreams := pool.upstreams + us)]))
  {
    var last := |r.view.pools| - 1;
    var pool := r.view.pools[last];
    if us == [] {
      assert pool.upstreams + [] == pool.upstreams;
      assert r.view.pools[last := pool] == r.view.pools;
    } else {
      PutAllAppends(r, us[..|us| - 1]);
      assert pool.upstreams + us == pool.upstreams + us[..|us| - 1] + [us[|us| - 1]];
    }
  }

  lemma {:induction false} ServersAreRead(r: Reading, servers: seq<Server>)
    requires r.inBackend && r.ok && r.view.pools != [] && forall i :: 0 <= i < |servers| ==> PlainServer(servers[i])
    ensures ReadLines(r, Map(ServerLine, servers)) == PutAll(r, Map(UpstreamOf, servers))
    ensures PutAll(r, Map(UpstreamOf, servers)).inBackend && PutAll(r, Map(UpstreamOf, servers)).ok
  {
    hide Words, ServerLine, ReadServer, PlainServer, UpstreamOf;
    PutAllAppends(r, Map(UpstreamOf, servers));
    if servers != [] {
      var last := |servers| - 1;
      ServersAreRead(r, servers[..last]);
      assert Map(ServerLine, servers)[..last] == Map(ServerLine, servers[..last]);
      assert Map(UpstreamOf, servers)[..last] == Map(UpstreamOf, servers[..last]);
      ServerIsRead(servers[last]);
      PutAllAppends(r, Map(UpstreamOf, servers[..last]));
      ServerLeadsTheWay(servers[last]);
    }
  }

  lemma ServerLeadsTheWay(s: Server)
    ensures ServerWords(s) != [] && ServerWords(s)[0] == "server"
    ensures "server" != "frontend" && "server" != "backend" && "server" != "use_backend" && !OpensOtherSection("server")
  {
    assert "server"[0] == 's' && "global"[0] == 'g' && "listen"[0] == 'l';
  }

  // ---- Backends and the file ---------------------------------------------------------------

  predicate PlainBackend(b: Backend) {
    && Plain(b.name)
    && (forall i :: 0 <= i < |b.servers| ==> PlainServer(b.servers[i]))
    && (b.resilience.Some? ==> OneLiners(b.resilience.value.retryOn))
  }

  lemma {:induction false} IgnoredLines(r: Reading, lines: seq<string>)
    requires forall i :: 0 <= i < |lines| ==> Step(r, Words(lines[i])) == r
    ensures ReadLines(r, lines) == r
  {
    hide Words, Step;
    if lines != [] {
      IgnoredLines(r, lines[..|lines| - 1]);
    }
  }

  lemma ResilienceIsIgnored(r: Reading, p: Option<Resilience>)
    ensures ReadLines(r, ResilienceLines(p)) == r
  {
    IgnoredWords();
    DirectiveWords();
    hide Unbroken, Ignored, Indented, IntText;
    if p.Some? {
      IgnoredLine(r, ["timeout", "connect", IntText(p.value.connectTimeoutMs) + "ms"]);
      IgnoredLine(r, ["timeout", "server", IntText(p.value.timeoutMs) + "ms"]);
      IgnoredLine(r, ["retries", IntText(p.value.retries)]);
      IgnoredLine(r, ["option", "redispatch"]);
      IgnoredLine(r, ["retry-on"] + p.value.retryOn);
    }
    hide Words, Step;
    IgnoredLines(r, ResilienceLines(p));
  }

  lemma SectionLine(r: Reading, name: string)
    requires Plain(name)
    ensures Step(r, Words(Spaced(["backend", name])))
         == InBackend(r, Pool(name, []))
    ensures Step(r, Words(Spaced(["frontend", "kubetraffic"]))) == r.(inFrontend := true, inBackend := false)
  {
    SectionWords();
    assert "backend"[0] == 'b' && "frontend"[0] == 'f';
    WordsOfSpaced(["backend", name]);
    WordsOfSpaced(["frontend", "kubetraffic"]);
    hide Words, Spaced;
  }

  /** A backend is read as its pool. */
  lemma BackendIsRead(r: Reading, b: Backend)
    requires r.ok && PlainBackend(b)
    ensures ReadLines(r, BackendLines(b)) == InBackend(r, PoolOf(b))
  {
    hide Words, Step, Spaced, Indented, ReadLines, PlainServer, ServerLine, UpstreamOf, Plain, PutAll, ResilienceLines;
    var start := InBackend(r, Pool(b.name, []));
    BackendHeadIsRead(r, b.name);
    var head := BackendHead(b.name);
    ReadConcat(r, head + ResilienceLines(b.resilience), Map(ServerLine, b.servers));
    ReadConcat(r, head, ResilienceLines(b.resilience));
    ResilienceIsIgnored(start, b.resilience);
    ServersAreRead(start, b.servers);
    PutAllAppends(start, Map(UpstreamOf, b.servers));
    assert [] + Map(UpstreamOf, b.servers) == Map(UpstreamOf, b.servers);
  }

  function BackendHead(name: string): seq<string> {
    [Spaced(["backend", name]), Indented(["balance", "roundrobin"]), Indented(["option", "httpchk GET /healthz"])]
  }

  /** A backend section has been opened. */
  function InBackend(r: Reading, pool: Pool): Reading {
    r.(inFrontend := false, inBackend := true, view := r.view.(pools := r.view.pools + [pool]))
  }

  lemma BackendHeadIsRead(r: Reading, name: string)
    requires Plain(name)
    ensures ReadLines(r, BackendHead(name)) == InBackend(r, Pool(name, []))
  {
    var start := InBackend(r, Pool(name, []));
    SectionLine(r, name);
    IgnoredWords();
    DirectiveWords();
    hide Words, Step, Spaced, Indented, Unbroken, Ignored, Plain, ReadLines;
    var balance, check := ["balance", "roundrobin"], ["option", "httpchk GET /healthz"];
    IgnoredLine(start, balance);
    IgnoredLine(start, check);
    ReadThree(r, Spaced(["backend", name]), Indented(balance), Indented(check));
  }

  lemma ReadThree(r: Reading, a: string, b: string, c: string)
    ensures ReadLines(r, [a, b, c]) == Step(Step(Step(r, Words(a)), Words(b)), Words(c))
  {
    assert [a, b, c] == [a] + [b] + [c];
    ReadConcat(r, [a] + [b], [c]);
    ReadConcat(r, [a], [b]);
    ReadOne(r, a);
    ReadOne(Step(r, Words(a)), b);
    ReadOne(Step(Step(r, Words(a)), Words(b)), c);
  }

  lemma {:induction false} BackendsAreRead(r: Reading, backends: seq<Backend>)
    requires r.ok && r.inBackend && !r.inFrontend && forall i :: 0 <= i < |backends| ==> PlainBackend(backends[i])
    ensures ReadLines(r, Flatten(Map(BackendLines, backends)))
         == r.(view := r.view.(pools := r.view.pools + Map(PoolOf, backends)))
  {
    hide BackendLines, PlainBackend, PoolOf, Step, Words;
    if backends == [] {
      assert r.view.pools + [] == r.view.pools;
    } else {
      var last := |backends| - 1;
      BackendsAreRead(r, backends[..last]);
      assert Map(BackendLines, backends)[..last] == Map(BackendLines, backends[..last]);
      ReadConcat(r, Flatten(Map(BackendLines, backends[..last])), BackendLines(backends[last]));
      BackendIsRead(ReadLines(r, Flatten(Map(BackendLines, backends[..last]))), backends[last]);
      assert Map(PoolOf, backends) == Map(PoolOf, backends[..last]) + [PoolOf(backends[last])];
      assert r.view.pools + Map(PoolOf, backends)
          == r.view.pools + Map(PoolOf, backends[..last]) + [PoolOf(backends[last])];
    }
  }

  function FrontendHead(): seq<string> {
    [Spaced(["frontend", "kubetraffic"]), Indented(["bind", ":8080"]),
     Indented(["http-request", "set-var(txn.host)", "req.hdr(host),lower,field(1,:)"])]
  }

  function Fallback(): seq<string> {
    [Indented(["default_backend", NO_ROUTE]), Spaced(["backend", NO_ROUTE]),
     Indented(["http-request", "return", "status", "503", "content-type", "\"text/plain\"", "string",
               "\"kubetraffic: no route configured\\n\""])]
  }

  lemma HeadIsRead(r: Reading)
    ensures ReadLines(r, FrontendHead()) == r.(inFrontend := true, inBackend := false)
  {
    var open := r.(inFrontend := true, inBackend := false);
    SectionWords();
    SectionLine(r, "backend");
    IgnoredWords();
    DirectiveWords();
    hide Words, Step, Spaced, Indented, Unbroken, Ignored, Plain;
    var bind, host := ["bind", ":8080"], ["http-request", "set-var(txn.host)", "req.hdr(host),lower,field(1,:)"];
    IgnoredLine(open, bind);
    IgnoredLine(open, host);
    ReadThree(r, Spaced(["frontend", "kubetraffic"]), Indented(bind), Indented(host));
  }

  lemma FallbackIsRead(r: Reading)
    ensures ReadLines(r, Fallback())
         == InBackend(r, Pool(NO_ROUTE, []))
  {
    NoRouteIsPlain();
    SectionLine(r, NO_ROUTE);
    IgnoredWords();
    DirectiveWords();
    DefaultBackendWord();
    hide Words, Step, Spaced, Indented, Unbroken, Ignored, Plain;
    var default := ["default_backend", NO_ROUTE];
    var answer := ["http-request", "return", "status", "503", "content-type", "\"text/plain\"", "string",
               "\"kubetraffic: no route configured\\n\""];
    IgnoredLine(r, default);
    IgnoredLine(InBackend(r, Pool(NO_ROUTE, [])), answer);
    ReadThree(r, Indented(default), Spaced(["backend", NO_ROUTE]), Indented(answer));
  }

  /** The frontend and the fallback, whatever the routing lines are read as. */
  lemma FrontendIsRead(r: Reading, c: Config, read: seq<UseBackend>)
    requires r.ok && r.view == View([], []) && ReadAs(c.uses, read)
    requires forall i :: 0 <= i < |c.backends| ==> PlainBackend(c.backends[i])
    ensures ReadLines(r, FileLines(c)).ok && ReadLines(r, FileLines(c)).view == ViewOf(c).(uses := read)
  {
    hide Words, Step, ReadLines, FrontendHead, Fallback, FileLines, ViewOf, UseLine, BackendLines, PoolOf, PlainBackend;
    hide Flatten, Map, ReadAs;
    var open := r.(inFrontend := true, inBackend := false);
    HeadIsRead(r);
    UsesAreRead(open, c.uses, read);
    var used := open.(view := View(read, []));
    assert [] + read == read;
    FallbackIsRead(used);
    var fallback := InBackend(used, Pool(NO_ROUTE, []));
    assert [] + [Pool(NO_ROUTE, [])] == [Pool(NO_ROUTE, [])];
    BackendsAreRead(fallback, c.backends);
    ReadFour(r, FrontendHead(), Map(UseLine, c.uses), Fallback(), Flatten(Map(BackendLines, c.backends)));
    PartsOfFile(c);
  }

  lemma PartsOfFile(c: Config)
    ensures FileLines(c) == FrontendHead() + Map(UseLine, c.uses) + Fallback() + Flatten(Map(BackendLines, c.backends))
    ensures ViewOf(c) == View(c.uses, [Pool(NO_ROUTE, [])] + Map(PoolOf, c.backends))
  {
  }

  lemma ReadFour(r: Reading, a: seq<string>, b: seq<string>, c: seq<string>, d: seq<string>)
    ensures ReadLines(r, a + b + c + d) == ReadLines(ReadLines(ReadLines(ReadLines(r, a), b), c), d)
  {
    ReadConcat(r, a + b + c, d);
    ReadConcat(r, a + b, c);
    ReadConcat(r, a, b);
  }

  // ---- Lines hold no line breaks -----------------------------------------------------------

  lemma {:induction false} SpacedIsOneLine(words: seq<string>)
    requires OneLiners(words)
    ensures '\n' !in Spaced(words) && '\n' !in Indented(words)
  {
    if |words| > 1 {
      SpacedIsOneLine(words[1..]);
    }
  }

  lemma UnbrokenIsOneLine(w: string)
    requires Unbroken(w)
    ensures '\n' !in w
  {
  }

  lemma {:induction false} DigitsAreOneLine(w: string)
    requires AllDigits(w)
    ensures '\n' !in w
  {
  }

  lemma ResilienceIsOneLiners(p: Option<Resilience>)
    requires p.Some? ==> OneLiners(p.value.retryOn)
    ensures OneLiners(ResilienceLines(p))
  {
    hide Indented, Spaced, IntText;
    if p.Some? {
      IntIsOneLine(p.value.connectTimeoutMs);
      IntIsOneLine(p.value.timeoutMs);
      IntIsOneLine(p.value.retries);
      SpacedIsOneLine(["timeout", "connect", IntText(p.value.connectTimeoutMs) + "ms"]);
      SpacedIsOneLine(["timeout", "server", IntText(p.value.timeoutMs) + "ms"]);
      SpacedIsOneLine(["retries", IntText(p.value.retries)]);
      SpacedIsOneLine(["option", "redispatch"]);
      SpacedIsOneLine(["retry-on"] + p.value.retryOn);
    }
  }

  lemma IntIsOneLine(n: int)
    ensures '\n' !in IntText(n)
  {
    DigitsAreOneLine(Decimal(if n < 0 then -n else n));
    hide Decimal;
  }

  lemma BackendIsOneLiners(b: Backend)
    requires PlainBackend(b)
    ensures OneLiners(BackendLines(b))
  {
    hide Indented, Spaced, PlainServer, Plain, ResilienceLines, ServerLine;
    PlainIsOneLine(b.name);
    SpacedIsOneLine(["backend", b.name]);
    SpacedIsOneLine(["balance", "roundrobin"]);
    SpacedIsOneLine(["option", "httpchk GET /healthz"]);
    ResilienceIsOneLiners(b.resilience);
    forall i | 0 <= i < |b.servers| ensures '\n' !in ServerLine(b.servers[i]) {
      ServerIsOneLine(b.servers[i]);
    }
  }

  lemma PlainIsOneLine(w: string)
    requires Plain(w)
    ensures '\n' !in w
  {
  }

  lemma ServerIsOneLine(s: Server)
    requires PlainServer(s)
    ensures '\n' !in ServerLine(s)
  {
    ServerWordsArePlain(s);
    hide Plain, Spaced, Indented;
    var words := ServerWords(s);
    forall i | 0 <= i < |words| ensures '\n' !in words[i] {
      assert words[i] in words;
      PlainIsOneLine(words[i]);
    }
    SpacedIsOneLine(words);
  }

  lemma {:induction false} BackendsAreOneLiners(backends: seq<Backend>)
    requires forall i :: 0 <= i < |backends| ==> PlainBackend(backends[i])
    ensures OneLiners(Flatten(Map(BackendLines, backends)))
  {
    hide BackendLines, PlainBackend;
    if backends != [] {
      var last := |backends| - 1;
      BackendsAreOneLiners(backends[..last]);
      BackendIsOneLiners(backends[last]);
      assert Map(BackendLines, backends)[..last] == Map(BackendLines, backends[..last]);
    }
  }

  lemma FileIsOneLiners(c: Config)
    requires OneLiners(Map(UseLine, c.uses))
    requires forall i :: 0 <= i < |c.backends| ==> PlainBackend(c.backends[i])
    ensures OneLiners(FileLines(c))
  {
    hide FileLines, FrontendHead, Fallback, PlainBackend, UseLine, BackendLines, Flatten, ViewOf, Map;
    HeadIsOneLiners();
    BackendsAreOneLiners(c.backends);
    PartsOfFile(c);
  }

  lemma HeadIsOneLiners()
    ensures OneLiners(FrontendHead()) && OneLiners(Fallback())
  {
    HostLineIsOneLine();
    AnswerIsOneLine();
    hide Spaced, Indented;
    SpacedIsOneLine(["frontend", "kubetraffic"]);
    SpacedIsOneLine(["bind", ":8080"]);
    SpacedIsOneLine(["default_backend", NO_ROUTE]);
    SpacedIsOneLine(["backend", NO_ROUTE]);
  }

  lemma HostLineIsOneLine()
    ensures '\n' !in Indented(["http-request", "set-var(txn.host)", "req.hdr(host),lower,field(1,:)"])
  {
    hide Spaced, Indented;
    var value := "req.hdr(host),lower,field(1,:)";
    assert '\n' !in value;
    SpacedIsOneLine(["http-request", "set-var(txn.host)", value]);
  }

  lemma AnswerIsOneLine()
    ensures '\n' !in Indented(["http-request", "return", "status", "503", "content-type", "\"text/plain\"", "string",
                               "\"kubetraffic: no route configured\\n\""])
  {
    hide Spaced, Indented;
    var answer := "\"kubetraffic: no route configured\\n\"";
    assert '\n' !in answer;
    SpacedIsOneLine(["http-request", "return", "status", "503", "content-type", "\"text/plain\"", "string", answer]);
  }

  // ---- Round trip --------------------------------------------------------------------------

  ghost predicate PlainBackends(c: Config) {
    forall i :: 0 <= i < |c.backends| ==> PlainBackend(c.backends[i])
  }

  /** A file is read as its routing lines are, with its backends as they were meant. */
  lemma TextIsReadAs(skeleton: string, c: Config, read: seq<UseBackend>)
    requires IsSkeleton(skeleton) && PlainBackends(c) && ReadAs(c.uses, read) && OneLiners(Map(UseLine, c.uses))
    ensures Read(Text(skeleton, c)) == Some(ViewOf(c).(uses := read))
  {
    hide IsSkeleton, PlainBackend, ReadAs, FileLines, ViewOf, ReadLines, Significant, Lines, Terminated, UseLine;
    FileIsOneLiners(c);
    var r := ReadAfterSkeleton(skeleton, FileLines(c));
    FrontendIsRead(r, c, read);
  }

  ghost predicate PlainUses(uses: seq<UseBackend>) {
    forall i :: 0 <= i < |uses| ==> AreValues(uses[i].hosts) && AreValues(uses[i].prefixes) && Plain(uses[i].backend)
  }

  lemma UseIsOneLine(u: UseBackend)
    requires AreValues(u.hosts) && AreValues(u.prefixes) && Plain(u.backend)
    ensures '\n' !in UseLine(u)
  {
    hide Plain, Spaced, Indented, UseWords;
    var words := UseWords(u);
    forall i | 0 <= i < |words| ensures '\n' !in words[i] {
      UseWordsArePlain(u, i);
      PlainIsOneLine(words[i]);
    }
    SpacedIsOneLine(words);
  }

  /** Written in plain words, a file is read exactly as it was meant. */
  lemma PlainTextReadsBack(skeleton: string, c: Config)
    requires IsSkeleton(skeleton) && PlainBackends(c) && PlainUses(c.uses)
    ensures Read(Text(skeleton, c)) == Some(ViewOf(c))
  {
    hide IsSkeleton, PlainBackend, Text, Read, Plain, IsValue, UseLine, UseWords, ReadUse;
    forall i | 0 <= i < |c.uses|
      ensures ReadUse(Words(UseLine(c.uses[i]))) == Some(c.uses[i]) && '\n' !in UseLine(c.uses[i])
    {
      UseIsRead(c.uses[i]);
      UseIsOneLine(c.uses[i]);
    }
    TextIsReadAs(skeleton, c, c.uses);
  }

  // ---- And only then -----------------------------------------------------------------------

  lemma TermGivesValues(criterion: seq<string>, words: seq<string>)
    ensures ReadTerm(criterion, words).Some? ==> AreValues(ReadTerm(criterion, words).value.0)
  {
  }

  lemma UseGivesValues(words: seq<string>)
    ensures ReadUse(words).Some? ==> AreValues(ReadUse(words).value.hosts) && AreValues(ReadUse(words).value.prefixes)
                                     && Plain(ReadUse(words).value.backend)
  {
    hide ReadTerm, AreValues, Plain;
    if ReadUse(words).Some? {
      TermGivesValues(HOST_TERM, words[3..]);
      TermGivesValues(PATH_TERM, ReadTerm(HOST_TERM, words[3..]).value.1);
    }
  }

  lemma {:induction false} ReadingIsPlain(r: Reading, lines: seq<string>)
    requires PlainUses(r.view.uses)
    ensures PlainUses(ReadLines(r, lines).view.uses)
  {
    if lines != [] {
      ReadingIsPlain(r, lines[..|lines| - 1]);
      UseGivesValues(Words(lines[|lines| - 1]));
      hide Words, ReadUse, ReadServer, AreValues, Plain;
    }
  }

  /** Whatever a reader reads, it reads in plain words. */
  lemma ReadIsPlain(text: string)
    ensures Read(text).Some? ==> PlainUses(Read(text).value.uses)
  {
    ReadingIsPlain(START, Significant(Lines(text)));
  }

  /** With plain backends, a file reads back as meant exactly when its hosts, prefixes and names are plain. */
  lemma TextReadsBackIff(skeleton: string, c: Config)
    requires IsSkeleton(skeleton) && PlainBackends(c)
    ensures Read(Text(skeleton, c)) == Some(ViewOf(c)) <==> PlainUses(c.uses)
  {
    ReadIsPlain(Text(skeleton, c));
    if PlainUses(c.uses) {
      PlainTextReadsBack(skeleton, c);
    }
    hide Read, Text, PlainUses;
  }

  // ---- Hosts -------------------------------------------------------------------------------

  /** The line written for a host fires for a request, and on account of that very host. */
  predicate Selects(host: string, header: string) {
    var read := ReadUse(Words(UseLine(UseBackend([host], ["/"], "b"))));
    RequestHost(header) == host && read.Some? && host in read.value.hosts
  }

  predicate CanBeAskedFor(host: string) {
    forall i :: 0 <= i < |host| ==> host[i] != ',' && host[i] != ':' && !('A' <= host[i] <= 'Z')
  }

  /** Some request selects a host exactly when it is one plain value in lower case, without comma or colon. */
  lemma HostIsReachableIff(host: string)
    ensures (exists header :: Selects(host, header)) <==> IsValue(host) && CanBeAskedFor(host)
  {
    var u := UseBackend([host], ["/"], "b");
    hide Words, UseLine, ReadUse;
    if exists header :: Selects(host, header) {
      var header :| Selects(host, header);
      UseGivesValues(Words(UseLine(u)));
      assert IsValue(host);
      RequestHostIsNormal(header);
    }
    if IsValue(host) && CanBeAskedFor(host) {
      UseIsRead(u);
      HostAsksForItself(host);
      assert Selects(host, host);
    }
  }

  lemma HostAsksForItself(host: string)
    requires IsValue(host) && CanBeAskedFor(host)
    ensures RequestHost(host) == host
  {
    LastOfOne(host);
    assert TrimLws(host) == host;
    NormalFieldStays(host);
  }

  lemma {:induction false} LastOfOne(value: string)
    requires ',' !in value
    ensures LastValue(value) == value
  {
    if value != "" {
      LastOfOne(value[..|value| - 1]);
    }
  }

  lemma {:induction false} NormalFieldStays(value: string)
    requires forall i :: 0 <= i < |value| ==> value[i] != ':' && !('A' <= value[i] <= 'Z')
    ensures HostField(value) == value
  {
    if value != "" {
      NormalFieldStays(value[1..]);
    }
  }

  lemma {:induction false} FieldIsNormal(value: string)
    requires ',' !in value
    ensures CanBeAskedFor(HostField(value))
  {
    if value != "" && value[0] != ':' {
      FieldIsNormal(value[1..]);
    }
  }

  lemma {:induction false} LastHasNoComma(header: string)
    ensures ',' !in LastValue(header)
  {
    if header != "" && header[|header| - 1] != ',' {
      LastHasNoComma(header[..|header| - 1]);
    }
  }

  lemma {:induction false} TrimmedHasNoComma(value: string)
    requires ',' !in value
    ensures ',' !in TrimLws(value)
    decreases |value|
  {
    if value != "" && IsLws(value[0]) {
      TrimmedHasNoComma(value[1..]);
    } else if value != "" && IsLws(value[|value| - 1]) {
      TrimmedHasNoComma(value[..|value| - 1]);
    }
  }

  lemma RequestHostIsNormal(header: string)
    ensures CanBeAskedFor(RequestHost(header))
  {
    LastHasNoComma(header);
    TrimmedHasNoComma(LastValue(header));
    FieldIsNormal(TrimLws(LastValue(header)));
  }
}
