/**
 * A rule's resilience block down to the file: which timeouts, retries and retry conditions the
 * words of its backend's section give, read off the declared policy.
 */
module ResilienceFile {
  import opened Wrappers
  import opened Strings
  import opened Sorting
  import opened Sequences
  import opened Routes
  import opened Discovery
  import opened EffectiveWeights
  import opened RoutingModel
  import opened HAProxy
  import opened ProxyReader
  import opened Compiler
  import Wire

  /** Some line reads as these words. */
  ghost predicate Says(lines: seq<string>, words: seq<string>) {
    exists i :: 0 <= i < |lines| && Words(lines[i]) == words
  }

  /** n whole milliseconds. */
  predicate Lasts(duration: int, n: nat) {
    1_000_000 * n <= duration < 1_000_000 * (n + 1)
  }

  /** The time a server gets: that of one try if it lasts a millisecond, else that of the request. */
  function ServerTime(p: ResiliencePolicy): int {
    if p.retries.Some? && p.retries.value.perTryTimeout >= 1_000_000 then p.retries.value.perTryTimeout else p.timeout
  }

  /** How often a request is tried again. */
  function Attempts(r: Option<ResiliencePolicy>): int {
    if r.Some? && r.value.retries.Some? then r.value.retries.value.attempts else 0
  }

  /** HAProxy's words for one condition. */
  function RetryWords(condition: string): seq<string> {
    if condition == "5xx" then ["500", "501", "502", "503", "504"]
    else if condition == "gateway-error" then ["502", "503", "504"]
    else if condition == "connect-failure" then ["conn-failure"]
    else if condition == "reset" then ["empty-response", "conn-failure"]
    else if condition == "retriable-status-codes" then ["all-retryable-errors"]
    else []
  }

  /** A line that retries on exactly what the conditions stand for. */
  ghost predicate RetriesOn(line: string, conditions: seq<string>) {
    var words := Words(line);
    && words != [] && words[0] == "retry-on"
    && forall w :: w in words[1..] <==> exists i :: 0 <= i < |conditions| && w in RetryWords(conditions[i])
  }

  /** What the section of a backend says about failures is what the policy declares. */
  ghost predicate SaysResilience(lines: seq<string>, r: Option<ResiliencePolicy>) {
    && (forall n: nat :: Says(lines, ["timeout", "connect", Decimal(n) + "ms"]) <==>
          n > 0 && r.Some? && Lasts(r.value.timeout, n))
    && (forall n: nat :: Says(lines, ["timeout", "server", Decimal(n) + "ms"]) <==>
          n > 0 && r.Some? && Lasts(ServerTime(r.value), n))
    && (forall n: nat :: Says(lines, ["retries", Decimal(n)]) <==> n > 0 && Attempts(r) == n)
    && (Says(lines, ["option", "redispatch"]) <==> Attempts(r) > 0)
    && (forall i :: 0 <= i < |lines| && Words(lines[i]) != [] && Words(lines[i])[0] == "retry-on" ==>
          Attempts(r) > 0 && RetriesOn(lines[i], r.value.retries.value.retryOn))
    && (Attempts(r) > 0 && (exists c :: c in r.value.retries.value.retryOn && RetryWords(c) != []) ==>
          exists i :: 0 <= i < |lines| && RetriesOn(lines[i], r.value.retries.value.retryOn))
  }

  // ---- Words -------------------------------------------------------------------------------

  lemma WordsHead(c: char, rest: string)
    ensures Words([c] + rest) ==
      if IsBreak(c) then Words(rest)
      else if rest == "" || IsBreak(rest[0]) then [[c]] + Words(rest)
      else [[c] + Words(rest)[0]] + Words(rest)[1..]
  {
    assert ([c] + rest)[1..] == rest;
  }

  lemma {:induction false} WordsSplit(a: string, b: string)
    ensures Words(a + [' '] + b) == Words(a) + Words(b)
  {
    if a == "" {
      assert a + [' '] + b == [' '] + b;
      WordsHead(' ', b);
    } else {
      var rest := a[1..] + [' '] + b;
      assert a + [' '] + b == [a[0]] + rest && a == [a[0]] + a[1..];
      WordsSplit(a[1..], b);
      WordsHead(a[0], a[1..]);
      WordsHead(a[0], rest);
      FirstOfBoth(a[0], Words(a[1..]), Words(b));
      assert a[1..] != "" ==> rest[0] == a[1..][0];
      hide Words;
    }
  }

  lemma FirstOfBoth(c: char, words: seq<string>, more: seq<string>)
    ensures [[c]] + (words + more) == [[c]] + words + more
    ensures words != [] ==>
      [[c] + (words + more)[0]] + (words + more)[1..] == [[c] + words[0]] + words[1..] + more
  {
  }

  lemma {:induction false} WordsOfAll(texts: seq<string>, w: string)
    ensures w in Words(Spaced(texts)) <==> exists i :: 0 <= i < |texts| && w in Words(texts[i])
  {
    hide Words;
    if |texts| > 1 {
      var rest := texts[1..];
      WordsOfAll(rest, w);
      WordsSplit(texts[0], Spaced(rest));
      assert texts[0] + " " + Spaced(rest) == texts[0] + [' '] + Spaced(rest);
      assert w in Words(Spaced(texts)) <==> w in Words(texts[0]) || w in Words(Spaced(rest));
      hide Spaced;
      if i :| 0 <= i < |rest| && w in Words(rest[i]) {
        assert w in Words(texts[i + 1]);
      }
      if i :| 0 <= i < |texts| && w in Words(texts[i]) {
        assert i > 0 ==> w in Words(rest[i - 1]);
      }
    } else if |texts| == 1 {
      assert Spaced(texts) == texts[0];
    } else {
      NoWords();
    }
  }

  lemma NoWords()
    ensures Words("") == []
  {
  }

  lemma CodeWords()
    ensures Unbroken("500") && Unbroken("501") && Unbroken("502") && Unbroken("503") && Unbroken("504")
  {
  }

  lemma FailureWords()
    ensures Unbroken("conn-failure") && Unbroken("empty-response")
  {
  }

  lemma AllErrorsWord()
    ensures Unbroken("all-retryable-errors")
  {
  }

  lemma FiveCodes()
    ensures Spaced(["500", "501", "502", "503", "504"]) == "500 501 502 503 504"
  {
    assert Spaced(["503", "504"]) == "503 504" by { assert ["503", "504"][1..] == ["504"]; }
    assert ["502", "503", "504"][1..] == ["503", "504"];
    assert ["501", "502", "503", "504"][1..] == ["502", "503", "504"];
    assert ["500", "501", "502", "503", "504"][1..] == ["501", "502", "503", "504"];
  }

  lemma ThreeCodes()
    ensures Spaced(["502", "503", "504"]) == "502 503 504"
  {
    assert Spaced(["503", "504"]) == "503 504" by { assert ["503", "504"][1..] == ["504"]; }
    assert ["502", "503", "504"][1..] == ["503", "504"];
  }

  lemma TwoFailures()
    ensures Spaced(["empty-response", "conn-failure"]) == "empty-response conn-failure"
  {
    assert ["empty-response", "conn-failure"][1..] == ["conn-failure"];
  }

  /** A translated condition reads as its words. */
  lemma TokenReadsAs(condition: string)
    ensures Words(TokenOf(condition)) == RetryWords(condition)
    ensures TokenOf(condition) == "" <==> RetryWords(condition) == []
  {
    var words := RetryWords(condition);
    assert Spaced(words) == TokenOf(condition) by {
      FiveCodes();
      ThreeCodes();
      TwoFailures();
    }
    assert forall i :: 0 <= i < |words| ==> Unbroken(words[i]) by {
      CodeWords();
      FailureWords();
      AllErrorsWord();
    }
    WordsOfSpaced(words);
    hide Words, Spaced;
  }

  // ---- Lines -------------------------------------------------------------------------------

  /** The words of every line the template may add for a resilience block. */
  function BlockWords(r: Option<Resilience>): seq<seq<string>> {
    if r.None? then []
    else
      (if r.value.connectTimeoutMs > 0 then [["timeout", "connect", Decimal(r.value.connectTimeoutMs) + "ms"]] else [])
      + (if r.value.timeoutMs > 0 then [["timeout", "server", Decimal(r.value.timeoutMs) + "ms"]] else [])
      + (if r.value.retries > 0 then
           [["retries", Decimal(r.value.retries)], ["option", "redispatch"]]
           + (if r.value.retryOn != [] then [["retry-on"] + Words(Spaced(r.value.retryOn))] else [])
         else [])
  }

  lemma KeywordsAreUnbroken()
    ensures Unbroken("timeout") && Unbroken("connect") && Unbroken("server") && Unbroken("retries")
        && Unbroken("option")
    ensures Unbroken("redispatch") && Unbroken("retry-on")
  {
  }

  lemma NumbersAreUnbroken(n: nat)
    ensures Unbroken(Decimal(n)) && Unbroken(Decimal(n) + "ms")
  {
    DigitsArePlain(Decimal(n));
    hide Decimal;
    assert Unbroken("ms");
  }

  lemma LineReadsAs(words: seq<string>)
    requires forall i :: 0 <= i < |words| ==> Unbroken(words[i])
    ensures Words(Indented(words)) == words
  {
    IndentIsNoWord(words);
    WordsOfSpaced(words);
  }

  lemma RetryLineReadsAs(tokens: seq<string>)
    requires tokens != []
    ensures Words(Indented(["retry-on"] + tokens)) == ["retry-on"] + Words(Spaced(tokens))
  {
    KeywordsAreUnbroken();
    IndentIsNoWord(["retry-on"] + tokens);
    assert (["retry-on"] + tokens)[1..] == tokens;
    assert "retry-on" + " " + Spaced(tokens) == "retry-on" + [' '] + Spaced(tokens);
    WordThenRest("retry-on", Spaced(tokens));
    hide Words;
  }

  lemma BlockReadsAs(r: Option<Resilience>)
    ensures Map(Words, ResilienceLines(r)) == BlockWords(r)
  {
    KeywordsAreUnbroken();
    hide Words, Indented, Spaced, Unbroken;
    if r.Some? {
      var c, t, n := r.value.connectTimeoutMs, r.value.timeoutMs, r.value.retries;
      if c > 0 {
        NumbersAreUnbroken(c);
        LineReadsAs(["timeout", "connect", Decimal(c) + "ms"]);
      }
      if t > 0 {
        NumbersAreUnbroken(t);
        LineReadsAs(["timeout", "server", Decimal(t) + "ms"]);
      }
      if n > 0 {
        NumbersAreUnbroken(n);
        LineReadsAs(["retries", Decimal(n)]);
        LineReadsAs(["option", "redispatch"]);
        if r.value.retryOn != [] {
          RetryLineReadsAs(r.value.retryOn);
        }
      }
    }
  }

  // ---- One backend's section ---------------------------------------------------------------

  /** Words that say something about failures. */
  predicate Relevant(words: seq<string>) {
    words != [] &&
    (words[0] == "timeout" || words[0] == "retries" || words[0] == "retry-on" || words == ["option", "redispatch"])
  }

  lemma OtherKeywords()
    ensures "backend" != "timeout" && "backend" != "retries" && "backend" != "retry-on" && "backend" != "option"
    ensures "balance" != "timeout" && "balance" != "retries" && "balance" != "retry-on" && "balance" != "option"
    ensures "server" != "timeout" && "server" != "retries" && "server" != "retry-on" && "server" != "option"
  {
    assert "server"[0] == 's' && "timeout"[0] == 't' && "option"[0] == 'o' && "retries"[0] == 'r'
        && "retry-on"[0] == 'r';
    assert "backend"[0] == 'b' && "balance"[0] == 'b';
  }

  lemma HeadIsIrrelevant(name: string)
    ensures forall i :: 0 <= i < |BackendHead(name)| ==> !Relevant(Words(BackendHead(name)[i]))
  {
    NameIsIrrelevant(name);
    CheckIsIrrelevant();
    hide Words, Relevant, Indented, Spaced;
  }

  lemma NameIsIrrelevant(name: string)
    ensures !Relevant(Words(Spaced(["backend", name]))) && !Relevant(Words(Indented(["balance", "roundrobin"])))
  {
    OtherKeywords();
    SectionWords();
    DirectiveWords();
    hide Words, Unbroken, Indented, Spaced;
    FirstWord(["backend", name]);
    FirstWord(["balance", "roundrobin"]);
    IndentIsNoWord(["balance", "roundrobin"]);
  }

  lemma CheckIsIrrelevant()
    ensures !Relevant(Words(Indented(["option", "httpchk GET /healthz"])))
  {
    var check := "httpchk GET /healthz";
    IndentIsNoWord(["option", check]);
    assert ["option", check][1..] == [check];
    assert "option" + " " + check == "option" + [' '] + check;
    KeywordsAreUnbroken();
    WordThenRest("option", check);
    FirstLetter(check);
    KeywordsDiffer();
    hide Words;
    assert "redispatch"[0] == 'r';
  }

  lemma FirstLetter(line: string)
    requires line != "" && !IsBreak(line[0])
    ensures Words(line) != [] && Words(line)[0] != "" && Words(line)[0][0] == line[0]
  {
  }

  lemma ServersAreIrrelevant(servers: seq<Server>)
    ensures forall i :: 0 <= i < |servers| ==> !Relevant(Words(ServerLine(servers[i])))
  {
    OtherKeywords();
    KeywordsAreUnbroken();
    forall i | 0 <= i < |servers| ensures !Relevant(Words(ServerLine(servers[i]))) {
      FirstWord(ServerWords(servers[i]));
      IndentIsNoWord(ServerWords(servers[i]));
    }
    hide Words, Unbroken;
  }

  lemma SectionSaysBlock(b: Backend, words: seq<string>)
    requires Relevant(words)
    ensures Says(BackendLines(b), words) <==> words in BlockWords(b.resilience)
  {
    hide Words, Relevant, BlockWords, ResilienceLines, ServerLine, BackendHead, Says;
    var head, block, servers := BackendHead(b.name), ResilienceLines(b.resilience), Map(ServerLine, b.servers);
    HeadIsIrrelevant(b.name);
    BlockReadsAs(b.resilience);
    ServersAreIrrelevant(b.servers);
    SectionParts(b);
    SaysInMiddle(head, block, servers, words);
    SaysIsMembership(block, words);
  }

  lemma SectionParts(b: Backend)
    ensures BackendLines(b) == BackendHead(b.name) + ResilienceLines(b.resilience) + Map(ServerLine, b.servers)
  {
    hide ResilienceLines, ServerLine, Indented, Spaced;
  }

  lemma SaysInMiddle(a: seq<string>, b: seq<string>, c: seq<string>, words: seq<string>)
    requires forall i :: 0 <= i < |a| ==> Words(a[i]) != words
    requires forall i :: 0 <= i < |c| ==> Words(c[i]) != words
    ensures Says(a + b + c, words) <==> Says(b, words)
  {
    hide Words;
    var all := a + b + c;
    assert forall i :: 0 <= i < |b| ==> all[|a| + i] == b[i];
    assert forall i :: 0 <= i < |c| ==> all[|a| + |b| + i] == c[i];
    if Says(all, words) {
      var i :| 0 <= i < |all| && Words(all[i]) == words;
      assert |a| <= i < |a| + |b|;
      assert Words(b[i - |a|]) == words;
    }
  }

  lemma SaysIsMembership(lines: seq<string>, words: seq<string>)
    ensures Says(lines, words) <==> words in Map(Words, lines)
  {
    hide Words;
    if Says(lines, words) {
      var i :| 0 <= i < |lines| && Words(lines[i]) == words;
      assert Map(Words, lines)[i] == words;
    }
  }

  // ---- What the block says -----------------------------------------------------------------

  lemma WholeMillis(duration: int, n: nat)
    ensures n > 0 ==> (Milliseconds(duration) == n <==> Lasts(duration, n))
  {
  }

  lemma DecimalsDiffer(m: nat, n: nat)
    ensures Decimal(m) == Decimal(n) <==> m == n
    ensures Decimal(m) + "ms" == Decimal(n) + "ms" <==> m == n
  {
    ParseOfDecimal(m);
    ParseOfDecimal(n);
    assert (Decimal(m) + "ms")[..|Decimal(m)|] == Decimal(m);
    assert (Decimal(n) + "ms")[..|Decimal(n)|] == Decimal(n);
    hide Decimal, ParseDecimal;
    if Decimal(m) + "ms" == Decimal(n) + "ms" {
      assert |Decimal(m)| == |Decimal(n)|;
    }
  }

  lemma KeywordsDiffer()
    ensures "connect" != "server" && "timeout" != "retries" && "timeout" != "option" && "timeout" != "retry-on"
    ensures "retries" != "option" && "retries" != "retry-on" && "option" != "retry-on"
  {
    assert "connect"[0] == 'c' && "server"[0] == 's' && "timeout"[0] == 't' && "option"[0] == 'o';
    assert "retries"[4] == 'i' && "retry-on"[4] == 'y';
  }

  lemma BlockSaysTimes(r: Option<Resilience>, n: nat)
    ensures ["timeout", "connect", Decimal(n) + "ms"] in BlockWords(r) <==>
      n > 0 && r.Some? && r.value.connectTimeoutMs == n
    ensures ["timeout", "server", Decimal(n) + "ms"] in BlockWords(r) <==> n > 0 && r.Some? && r.value.timeoutMs == n
  {
    var connect, server := ["timeout", "connect", Decimal(n) + "ms"], ["timeout", "server", Decimal(n) + "ms"];
    KeywordsDiffer();
    if r.Some? {
      var c, t, all := r.value.connectTimeoutMs, r.value.timeoutMs, BlockWords(r);
      if c > 0 {
        DecimalsDiffer(n, c);
        assert all[0] == ["timeout", "connect", Decimal(c) + "ms"];
        assert all[0] == connect <==> all[0][2] == connect[2];
      }
      if t > 0 {
        DecimalsDiffer(n, t);
        var k := if c > 0 then 1 else 0;
        assert all[k] == ["timeout", "server", Decimal(t) + "ms"];
        assert all[k] == server <==> all[k][2] == server[2];
      }
    }
    hide Decimal, Words, Spaced;
    assert connect[0] == server[0] == "timeout" && connect[1] == "connect" && server[1] == "server";
  }

  lemma BlockSaysRetries(r: Option<Resilience>, n: nat)
    ensures ["retries", Decimal(n)] in BlockWords(r) <==> n > 0 && r.Some? && r.value.retries == n
    ensures ["option", "redispatch"] in BlockWords(r) <==> r.Some? && r.value.retries > 0
  {
    var retries := ["retries", Decimal(n)];
    KeywordsDiffer();
    if r.Some? && r.value.retries > 0 {
      var all := BlockWords(r);
      DecimalsDiffer(n, r.value.retries);
      var k := (if r.value.connectTimeoutMs > 0 then 1 else 0) + (if r.value.timeoutMs > 0 then 1 else 0);
      assert all[k] == ["retries", Decimal(r.value.retries)] && all[k + 1] == ["option", "redispatch"];
      assert all[k] == retries <==> all[k][1] == retries[1];
    }
    hide Decimal, Words, Spaced;
    assert retries[0] == "retries" && ["option", "redispatch"][0] == "option";
  }

  lemma BlockSaysConditions(r: Option<Resilience>)
    ensures forall words :: words in BlockWords(r) && words[0] == "retry-on" <==>
      r.Some? && r.value.retries > 0 && r.value.retryOn != [] && words == ["retry-on"] + Words(Spaced(r.value.retryOn))
  {
    KeywordsDiffer();
    if r.Some? && r.value.retries > 0 && r.value.retryOn != [] {
      var all := BlockWords(r);
      assert all[|all| - 1] == ["retry-on"] + Words(Spaced(r.value.retryOn));
    }
    hide Decimal, Words, Spaced;
  }

  // ---- The theorem -------------------------------------------------------------------------

  lemma DeclaredTimes(r: Option<ResiliencePolicy>, n: nat)
    ensures
      var out := ResilienceOf(r);
      && (n > 0 && out.Some? && out.value.connectTimeoutMs == n <==> n > 0 && r.Some? && Lasts(r.value.timeout, n))
      && (n > 0 && out.Some? && out.value.timeoutMs == n <==> n > 0 && r.Some? && Lasts(ServerTime(r.value), n))
  {
    hide Tokens;
    if r.Some? {
      WholeMillis(r.value.timeout, n);
      WholeMillis(ServerTime(r.value), n);
    }
  }

  lemma DeclaredRetries(r: Option<ResiliencePolicy>)
    ensures ResilienceOf(r).Some? <==> r.Some?
    ensures r.Some? ==> ResilienceOf(r).value.retries == Attempts(r)
    ensures Attempts(r) > 0 ==>
      r.Some? && r.value.retries.Some? && ResilienceOf(r).value.retryOn == Tokens(r.value.retries.value.retryOn)
  {
  }

  /** The words a retry-on line lists are those of the declared conditions. */
  lemma TokensSayConditions(conditions: seq<string>)
    ensures forall w :: w in Words(Spaced(Tokens(conditions))) <==>
      exists i :: 0 <= i < |conditions| && w in RetryWords(conditions[i])
    ensures Tokens(conditions) != [] <==> exists c :: c in conditions && RetryWords(c) != []
  {
    hide Words, Spaced, TokenOf, RetryWords, Tokens;
    var tokens := Tokens(conditions);
    TokensTranslateEachOnce(conditions);
    forall c ensures Words(TokenOf(c)) == RetryWords(c) && (TokenOf(c) == "" <==> RetryWords(c) == []) {
      TokenReadsAs(c);
    }
    forall w
      ensures w in Words(Spaced(tokens)) <==> exists i :: 0 <= i < |conditions| && w in RetryWords(conditions[i])
    {
      WordsOfAll(tokens, w);
      if k :| 0 <= k < |tokens| && w in Words(tokens[k]) {
        assert tokens[k] in tokens;
        var i :| 0 <= i < |conditions| && TokenOf(conditions[i]) == tokens[k];
        assert w in RetryWords(conditions[i]);
      }
      if i :| 0 <= i < |conditions| && w in RetryWords(conditions[i]) {
        assert TokenOf(conditions[i]) in tokens;
        var k :| 0 <= k < |tokens| && tokens[k] == TokenOf(conditions[i]);
        assert w in Words(tokens[k]);
      }
    }
    if c :| c in conditions && RetryWords(c) != [] {
      var i :| 0 <= i < |conditions| && conditions[i] == c;
      assert TokenOf(conditions[i]) in tokens;
    }
    if tokens != [] {
      assert tokens[0] in tokens;
      var i :| 0 <= i < |conditions| && TokenOf(conditions[i]) == tokens[0];
      assert conditions[i] in conditions;
    }
  }

  lemma RetryLinesSayConditions(b: Backend, r: Option<ResiliencePolicy>)
    requires b.resilience == ResilienceOf(r)
    ensures
      var lines := BackendLines(b);
      && (forall i :: 0 <= i < |lines| && Words(lines[i]) != [] && Words(lines[i])[0] == "retry-on" ==>
            Attempts(r) > 0 && RetriesOn(lines[i], r.value.retries.value.retryOn))
      && (Attempts(r) > 0 && (exists c :: c in r.value.retries.value.retryOn && RetryWords(c) != []) ==>
            exists i :: 0 <= i < |lines| && RetriesOn(lines[i], r.value.retries.value.retryOn))
  {
    hide Words, Spaced, Tokens, RetryWords, BackendLines, BlockWords, ResilienceOf;
    var lines := BackendLines(b);
    DeclaredRetries(r);
    BlockSaysConditions(b.resilience);
    if Attempts(r) > 0 {
      TokensSayConditions(r.value.retries.value.retryOn);
    }
    forall i | 0 <= i < |lines| && Words(lines[i]) != [] && Words(lines[i])[0] == "retry-on"
      ensures Attempts(r) > 0 && RetriesOn(lines[i], r.value.retries.value.retryOn)
    {
      SectionSaysBlock(b, Words(lines[i]));
    }
    if Attempts(r) > 0 && exists c :: c in r.value.retries.value.retryOn && RetryWords(c) != [] {
      var words := ["retry-on"] + Words(Spaced(b.resilience.value.retryOn));
      SectionSaysBlock(b, words);
      var i :| 0 <= i < |lines| && Words(lines[i]) == words;
      assert RetriesOn(lines[i], r.value.retries.value.retryOn);
    }
  }

  /** The section of a backend says exactly what the policy it was built from declares. */
  lemma SectionSaysPolicy(b: Backend, r: Option<ResiliencePolicy>)
    requires b.resilience == ResilienceOf(r)
    ensures SaysResilience(BackendLines(b), r)
  {
    hide Words, BackendLines, BlockWords, ResilienceOf, Says, RetriesOn, Decimal, Lasts, ServerTime;
    DeclaredRetries(r);
    forall n: nat
      ensures Says(BackendLines(b), ["timeout", "connect", Decimal(n) + "ms"]) <==>
        n > 0 && r.Some? && Lasts(r.value.timeout, n)
      ensures Says(BackendLines(b), ["timeout", "server", Decimal(n) + "ms"]) <==>
        n > 0 && r.Some? && Lasts(ServerTime(r.value), n)
      ensures Says(BackendLines(b), ["retries", Decimal(n)]) <==> n > 0 && Attempts(r) == n
    {
      DeclaredTimes(r, n);
      BlockSaysTimes(b.resilience, n);
      BlockSaysRetries(b.resilience, n);
      SectionSaysBlock(b, ["timeout", "connect", Decimal(n) + "ms"]);
      SectionSaysBlock(b, ["timeout", "server", Decimal(n) + "ms"]);
      SectionSaysBlock(b, ["retries", Decimal(n)]);
    }
    BlockSaysRetries(b.resilience, 0);
    SectionSaysBlock(b, ["option", "redispatch"]);
    RetryLinesSayConditions(b, r);
  }

  /** In the file of a compiled route, the section of every rule's backend says what the rule declares. */
  lemma FileSaysResilience(s: Snapshot, spec: RouteSpec, config: Option<Wire.RouteConfig>, labelKey: string,
                           naming: Naming, i: nat)
    requires i < |spec.routes|
    ensures
      var m := Compiled(s, spec, config, labelKey, naming);
      Render(m).Ok? ==>
        exists before, section, after ::
          && FileLines(Render(m).value) == before + section + after
          && section != [] && section[0] == Spaced(["backend", m.rules[i].backendName])
          && SaysResilience(section, spec.routes[i].resilience)
  {
    var m := Compiled(s, spec, config, labelKey, naming);
    AdoptKeepsShape(spec.routes, config);
    var b := BackendOf(m.rules[i]);
    assert b.resilience == ResilienceOf(spec.routes[i].resilience);
    hide ResilienceOf, SaysResilience, BackendLines, Compiled, Sort, Adopt, ResolveAll;
    SectionSaysPolicy(b, spec.routes[i].resilience);
    if Render(m).Ok? {
      var ordered := Sort(NotAfter, m.rules);
      var k := InPermutation(m.rules, ordered, i);
      SectionIsInFile(Emit(m.host, ordered), k, b);
      SectionBegins(b);
    }
  }

  lemma SectionBegins(b: Backend)
    ensures BackendLines(b) != [] && BackendLines(b)[0] == Spaced(["backend", b.name])
  {
    hide ResilienceLines, ServerLine, Indented, Spaced;
  }

  lemma SectionIsInFile(c: Config, k: nat, b: Backend)
    requires k < |c.backends| && c.backends[k] == b
    ensures exists before, after :: FileLines(c) == before + BackendLines(b) + after
  {
    hide *;
    PartsOfFile(c);
    var sections := Map(BackendLines, c.backends);
    MiddleOfFlat(sections, k);
    var head := FrontendHead() + Map(UseLine, c.uses) + Fallback();
    var before, after := head + Flatten(sections[..k]), Flatten(sections[k + 1..]);
    Associates(head, Flatten(sections[..k]), sections[k], after);
    assert FileLines(c) == before + BackendLines(b) + after;
  }

  lemma Associates<T>(a: seq<T>, b: seq<T>, c: seq<T>, d: seq<T>)
    ensures a + (b + c + d) == a + b + c + d
  {
  }

  lemma MiddleOfFlat<T>(parts: seq<seq<T>>, k: nat)
    requires k < |parts|
    ensures Flatten(parts) == Flatten(parts[..k]) + parts[k] + Flatten(parts[k + 1..])
  {
    hide *;
    var front, middle, rest := parts[..k], parts[k], parts[k + 1..];
    FlattenOneMore(front, middle);
    FlattenConcat(front + [middle], rest);
    Reassembled(parts, k);
  }

  lemma Reassembled<T>(parts: seq<T>, k: nat)
    requires k < |parts|
    ensures parts[..k] + [parts[k]] + parts[k + 1..] == parts
  {
  }
}
