/** What holds of every run of the configuration parser. */
module ConfigProperties {
  import opened Text
  import opened ConfigLexer
  import opened ConfigGrammar
  import ConfigText
  import opened ConfigExtraction
  import opened ConfigParsing
  import opened ConfigAwaits

  // ---- The tables ----

  /** What routing relies on: no handler type twice, and the type of every recorded location listed. */
  ghost predicate TablesConsistent(t: Tables) {
    NoDuplicates(t.handlerTypes) && TypesRecorded(t, set s | s in t.handlerTypes)
  }

  lemma InvGivesConsistent(ex: Extractor)
    requires Inv(ex)
    ensures TablesConsistent(ex.tables)
  {
    hide TypesRecorded, FlagsJustified;
    assert (set s | s in ex.tables.handlerTypes) == ex.seen;
  }

  ghost predicate OutcomeConsistent(o: Outcome) {
    match o
    case Accepted(_, tables) => TablesConsistent(tables)
    case Rejected(tables) => TablesConsistent(tables)
    case Failed(_) => true
  }

  lemma {:induction false} RunKeepsTables(ex: Extractor, r: Recognizer, ts: seq<Token>)
    requires Inv(ex) && Valid(r)
    ensures OutcomeConsistent(ParseTokens(ex, r, ts))
    decreases |ts|
  {
    hide Observe, Recognize, Inv, TablesConsistent;
    InvGivesConsistent(ex);
    if ts != [] {
      var o := Observe(ex, ts[0].text);
      if o.Seen? {
        ObserveKeepsInv(ex, ts[0].text);
        InvGivesConsistent(o.ex);
        CloseBlockKeepsInv(o.ex);
        var t := Token(ts[0].kind, o.text);
        RecognizeKeepsValid(r, t);
        if Recognize(r, t).Continue? {
          RunKeepsTables(AfterToken(o.ex, ts[0].kind), Recognize(r, t).r, ts[1..]);
        }
      }
    }
  }

  /** For every input text, accepted or rejected, the tables are consistent. */
  lemma ParsedTablesConsistent(text: string)
    ensures OutcomeConsistent(ParseText(text))
  {
    hide ParseTokens, OutcomeConsistent;
    BeginInv();
    StartIsValid();
    RunKeepsTables(BEGIN, START, Tokens(text));
  }

  // ---- Acceptance ----

  /** The tokens as the recognizer sees them, unless a value makes the extraction fail. */
  function Passed(ex: Extractor, ts: seq<Token>): Option<seq<Token>>
    decreases |ts|
  {
    if ts == [] then Some([]) else
    var o := Observe(ex, ts[0].text);
    if !o.Seen? then None else
    var rest := Passed(AfterToken(o.ex, ts[0].kind), ts[1..]);
    if rest.None? then None else Some([Token(ts[0].kind, o.text)] + rest.value)
  }

  /** Parsing is extraction and recognition side by side. */
  lemma {:induction false} ParseIsRecognition(ex: Extractor, r: Recognizer, ts: seq<Token>)
    requires Valid(r) && ts != [] && (forall i :: 0 <= i < |ts| - 1 ==> !IsLast(ts[i]))
    ensures ParseTokens(ex, r, ts).Accepted? <==> Passed(ex, ts).Some? && RunTokens(r, Passed(ex, ts).value).Accept?
    ensures ParseTokens(ex, r, ts).Accepted? ==>
              RunTokens(r, Passed(ex, ts).value) == Accept(ParseTokens(ex, r, ts).statements)
    decreases |ts|
  {
    hide Observe, Recognize;
    var o := Observe(ex, ts[0].text);
    if o.Seen? {
      var t := Token(ts[0].kind, o.text);
      var ex1 := AfterToken(o.ex, ts[0].kind);
      var v := Recognize(r, t);
      RecognizeKeepsValid(r, t);
      if |ts| == 1 {
        assert ts[1..] == [];
        assert Passed(ex, ts) == Some([t]) by { assert [t] + [] == [t]; }
        assert [t][1..] == [];
      } else {
        NotTheLast(r, t);
        if Passed(ex1, ts[1..]).Some? { assert ([t] + Passed(ex1, ts[1..]).value)[1..] == Passed(ex1, ts[1..]).value; }
        if v.Continue? { ParseIsRecognition(ex1, v.r, ts[1..]); }
      }
    }
  }

  /** The recognizer's verdict depends only on the kinds of the tokens, so extraction cannot turn a
      configuration inside the grammar into one outside it, or back. */
  ghost predicate SameKinds(ts: seq<Token>, us: seq<Token>) {
    |ts| == |us| && forall i :: 0 <= i < |ts| ==> ts[i].kind == us[i].kind
  }

  lemma OneKind(r: Recognizer, q: Recognizer, t: Token, u: Token)
    requires Valid(r) && Valid(q) && r.last == q.last && r.brackets == q.brackets && t.kind == u.kind
    ensures var v, w := Recognize(r, t), Recognize(q, u);
            && (v.Accept? <==> w.Accept?) && (v.Reject? <==> w.Reject?)
            && (v.Continue? ==> w.Continue? && v.r.last == w.r.last && v.r.brackets == w.r.brackets)
  {}

  lemma {:induction false} KindsDecide(r: Recognizer, q: Recognizer, ts: seq<Token>, us: seq<Token>)
    requires Valid(r) && Valid(q) && r.last == q.last && r.brackets == q.brackets && SameKinds(ts, us)
    ensures RunTokens(r, ts).Accept? <==> RunTokens(q, us).Accept?
    decreases |ts|
  {
    hide Recognize;
    if ts != [] {
      OneKind(r, q, ts[0], us[0]);
      RecognizeKeepsValid(r, ts[0]);
      RecognizeKeepsValid(q, us[0]);
      if Recognize(r, ts[0]).Continue? {
        KindsDecide(Recognize(r, ts[0]).r, Recognize(q, us[0]).r, ts[1..], us[1..]);
      }
    }
  }

  lemma {:induction false} PassedKeepsKinds(ex: Extractor, ts: seq<Token>)
    ensures Passed(ex, ts).Some? ==> SameKinds(ts, Passed(ex, ts).value)
    decreases |ts|
  {
    hide Observe;
    if ts != [] && Observe(ex, ts[0].text).Seen? {
      PassedKeepsKinds(AfterToken(Observe(ex, ts[0].text).ex, ts[0].kind), ts[1..]);
    }
  }

  lemma {:induction false} ExtractIsPassed(ex: Extractor, ts: seq<Token>)
    ensures Extract(ex, ts).Some? <==> Passed(ex, ts).Some?
    decreases |ts|
  {
    hide Observe;
    if ts != [] && Observe(ex, ts[0].text).Seen? {
      ExtractIsPassed(AfterToken(Observe(ex, ts[0].text).ex, ts[0].kind), ts[1..]);
    }
  }

  /** The text is in the grammar, comments aside. */
  ghost predicate InGrammar(text: string) {
    var all := Tokens(text);
    all[|all| - 1].kind.Eof? && exists ss :: IsConfig(ss) && Uncommented(all[..|all| - 1]) == ConfigTokens(ss)
  }

  lemma GrammarIsRun(text: string)
    ensures InGrammar(text) <==> RunTokens(START, Tokens(text)).Accept?
  {
    hide RunTokens, ConfigTokens, Uncommented, Tokens, IsConfig;
    ConfigText.TextAccepted(text);
  }

  lemma StartAwaitsNothing()
    ensures AwaitsInside(BEGIN, START)
  {}

  /** Inside the grammar, the extraction passes all tokens on unless a proxy port is no port number. */
  lemma PassedInGrammar(text: string)
    requires InGrammar(text)
    ensures Passed(BEGIN, Tokens(text)).Some? <==> !PortMissed(BEGIN, Tokens(text))
  {
    hide RunTokens, Tokens, Passed, PortMissed, Extract;
    GrammarIsRun(text);
    ConfigText.TokensEnd(text);
    StartIsValid();
    StartAwaitsNothing();
    FailsOnlyOnPorts(BEGIN, START, Tokens(text));
    ExtractIsPassed(BEGIN, Tokens(text));
  }

  /** `Parse` returns true exactly when the text is in the grammar, comments aside, and no token that is
      read as the port of a proxy is anything but a port number. */
  lemma ParseAccepts(text: string)
    ensures ParseText(text).Accepted? <==> InGrammar(text) && !PortMissed(BEGIN, Tokens(text))
  {
    hide ParseTokens, Passed, Tokens, RunTokens, InGrammar, PortMissed;
    var all := Tokens(text);
    StartIsValid();
    ConfigText.TokensEnd(text);
    GrammarIsRun(text);
    ParseIsRecognition(BEGIN, START, all);
    PassedKeepsKinds(BEGIN, all);
    if Passed(BEGIN, all).Some? { KindsDecide(START, START, all, Passed(BEGIN, all).value); }
    if InGrammar(text) { PassedInGrammar(text); }
  }

  /** What can be checked on the tokens alone: after the word "ProxyHandler", what follows a word "port" is
      a port number. */
  ghost predicate PortsFit(ts: seq<Token>) {
    forall i, j :: 0 <= j < i < |ts| && Means(ts[j].text, TypeName(ProxyType)) && Means(ts[i - 1].text, "port")
      ==> IsPort(ts[i].text)
  }

  lemma MissedIsNotFit(ts: seq<Token>, i: nat)
    requires Missed(BEGIN, ts, i)
    ensures !PortsFit(ts)
  {
    hide Extract, Means, IsPort, TypeName;
    MissedPortIsAfterProxy(ts, i);
  }

  /** Such a text is accepted exactly when it is in the grammar. */
  lemma ParseAcceptsGrammar(text: string)
    requires PortsFit(Tokens(text))
    ensures ParseText(text).Accepted? <==> InGrammar(text)
  {
    hide ParseText, Tokens, InGrammar, Missed, PortsFit;
    ParseAccepts(text);
    var ts := Tokens(text);
    if PortMissed(BEGIN, ts) {
      var i: nat :| Missed(BEGIN, ts, i);
      MissedIsNotFit(ts, i);
    }
  }

  // ---- Round trip ----

  /** No word of the configuration is the bare word "location". */
  ghost predicate NoLocation(ts: seq<Token>) { forall i :: 0 <= i < |ts| ==> ts[i].text != "location" }

  lemma CloseIdle(ex: Extractor)
    requires Idle(ex)
    ensures Idle(CloseBlock(ex))
  {}

  lemma {:induction false} IdleRun(ex: Extractor, ts: seq<Token>)
    requires Idle(ex) && NoLocation(ts)
    ensures Passed(ex, ts) == Some(ts)
    decreases |ts|
  {
    hide Observe, Idle, CloseBlock;
    if ts != [] {
      var t := ts[0];
      IdlePasses(ex, t.text);
      var ex1 := AfterToken(Observe(ex, t.text).ex, t.kind);
      CloseIdle(Observe(ex, t.text).ex);
      IdleRun(ex1, ts[1..]);
      assert [Token(t.kind, t.text)] + ts[1..] == ts;
    }
  }

  /** When the extraction passes every token on unchanged, a configuration is read back as the same tree. */
  lemma SpelledAndParsed(text: string, ss: seq<Statement>)
    requires IsConfig(ss) && ConfigText.Spells(text, ConfigTokens(ss))
    requires Passed(BEGIN, Tokens(text)) == Some(Tokens(text))
    ensures ParseText(text).Accepted? && ParseText(text).statements == ss
  {
    hide ParseTokens, Passed, Tokens, RunTokens, IsConfig, ConfigText.Spells, ConfigTokens;
    StartIsValid();
    ConfigText.SpelledIsAccepted(text, ss);
    ConfigText.TokensEnd(text);
    ParseIsRecognition(BEGIN, START, Tokens(text));
  }

  /** A word that the statements do not hold and that is no comment is no token of the text. */
  lemma {:induction false} NotAmongComments(ts: seq<Token>, word: string)
    requires AllFit(ts) && word != "" && word[0] != '#'
    requires forall i :: 0 <= i < |Uncommented(ts)| ==> Uncommented(ts)[i].text != word
    ensures forall i :: 0 <= i < |ts| ==> ts[i].text != word
    decreases |ts|
  {
    if ts != [] {
      var all, rest := Uncommented(ts), Uncommented(ts[1..]);
      assert all == (if ts[0].kind.Comment? then [] else [ts[0]]) + rest;
      assert TextFits(ts[0]);
      forall i | 0 <= i < |rest| ensures rest[i].text != word { assert rest[i] == all[i + |all| - |rest|]; }
      NotAmongComments(ts[1..], word);
      if !ts[0].kind.Comment? { assert all[0] == ts[0]; }
    }
  }

  lemma NotInText(text: string, ts: seq<Token>, word: string)
    requires ConfigText.Spells(text, ts) && word != "" && word[0] != '#'
    requires forall i :: 0 <= i < |ts| ==> ts[i].text != word
    ensures forall i :: 0 <= i < |Tokens(text)| ==> Tokens(text)[i].text != word
  {
    hide Tokens, ConfigText.Spells, Uncommented, TextFits;
    ConfigText.TokensOfSpelled(text, ts);
    ConfigText.TokensEnd(text);
    var all := Tokens(text);
    NotAmongComments(all[..|all| - 1], word);
    forall i | 0 <= i < |all| ensures all[i].text != word {
      if i < |all| - 1 { assert all[i] == all[..|all| - 1][i]; }
    }
  }

  /** The round trip for every configuration of writable words without the bare word "location", in any layout:
      any blanks, line ends and comments. */
  lemma ConfigRoundTrip(text: string, ss: seq<Statement>)
    requires IsConfig(ss) && ConfigText.Spells(text, ConfigTokens(ss)) && NoLocation(ConfigTokens(ss))
    ensures ParseText(text).Accepted? && ParseText(text).statements == ss
  {
    hide Passed, Tokens, RunTokens, ParseText, ConfigText.Spells, ConfigTokens;
    NotInText(text, ConfigTokens(ss), "location");
    IdleRun(BEGIN, Tokens(text));
    SpelledAndParsed(text, ss);
  }

  /** No word of the configuration is the keyword whose value the extraction rewrites. */
  ghost predicate NoRoot(ts: seq<Token>) { forall i :: 0 <= i < |ts| ==> ts[i].text != "root" }

  predicate Rootless(f: Flags) { !f.saveRoot }

  lemma RootlessPort(ex: Extractor, text: string)
    requires Rootless(ex.flags)
    ensures var o := SaveProxyPort(SavePort(ex, text), text); o.Seen? ==> o.text == text && Rootless(o.ex.flags)
  {
    hide Stoi, AfterColon, PortFrom;
  }

  lemma RootlessHosts(ex: Extractor, text: string)
    requires Rootless(ex.flags)
    ensures SaveRoot(ex, text) == Seen(ex, text)
    ensures var o := SaveProxyHost(ex, text); o.Seen? ==> o.text == text && Rootless(o.ex.flags)
    ensures var o := SaveRedirectHost(ex, text); o.Seen? ==> o.text == text && Rootless(o.ex.flags)
  {
    hide Unquote;
  }

  lemma RootlessValues(ex: Extractor, text: string)
    requires Rootless(ex.flags)
    ensures var o := SaveValues(ex, text); o.Seen? ==> o.text == text && Rootless(o.ex.flags)
  {
    hide Rootless, SavePort, SaveProxyPort, SaveRoot, SaveProxyHost, SaveRedirectHost;
    RootlessPort(ex, text);
    var a := SaveProxyPort(SavePort(ex, text), text);
    if a.Seen? {
      RootlessHosts(a.ex, text);
      var c := SaveProxyHost(a.ex, text);
      if c.Seen? { RootlessHosts(c.ex, text); }
    }
  }

  lemma RootlessBlogValues(ex: Extractor, text: string)
    requires Rootless(ex.flags)
    ensures var o := SaveBlogValues(ex, text); o.Seen? ==> o.text == text && Rootless(o.ex.flags)
  {
    hide Unquote;
  }

  lemma RootlessEnter(ex: Extractor, h: HandlerType)
    requires Rootless(ex.flags)
    ensures Rootless(Enter(ex, h).flags)
  {
    match h
    case StaticType =>
    case RedirectType =>
    case ProxyType =>
    case BlogType =>
    case EchoType =>
    case StatusType =>
    case HealthType =>
    case UploadFormType =>
  }

  lemma RootlessHandler(ex: Extractor, text: string)
    requires Rootless(ex.flags)
    ensures Rootless(SaveHandler(ex, text).flags)
  {
    assert NoteHandler(ex, text).flags == ex.flags;
    hide TypeOf, Enter, NoteHandler, Rootless;
    if TypeOf(text).Some? { RootlessEnter(NoteHandler(ex, text), TypeOf(text).value); }
  }

  lemma RootlessLocation(ex: Extractor, text: string)
    requires Rootless(ex.flags)
    ensures var o := SaveLocation(ex, text); o.Seen? ==> o.text == text && Rootless(o.ex.flags)
  {
    hide Unquote;
  }

  lemma RootlessRaise(f: Flags, flag: Flag)
    requires Rootless(f) && !flag.SaveRootFlag?
    ensures Rootless(Raise(f, flag))
  {
    match flag
    case SavePortFlag =>
    case SeenLocationFlag =>
    case SaveRootFlag =>
    case SaveProxyHostFlag =>
    case SaveProxyPortFlag =>
    case SaveRedirectHostFlag =>
    case SaveBlogIpFlag =>
    case SaveBlogPortFlag =>
    case SaveBlogPasswordFlag =>
    case SaveBlogUsernameFlag =>
  }

  lemma RootlessFlags(ex: Extractor, text: string)
    requires Rootless(ex.flags) && text != "root"
    ensures Rootless(RaiseFlags(ex, text).flags)
  {
    assert KeywordOf(text) != Some(RootWord);
    hide KeywordOf, Raise;
    var flag := FlagFor(ex.flags, KeywordOf(text));
    if flag.Some? { RootlessRaise(ex.flags, flag.value); }
  }

  /** While no root is awaited every token passes unchanged, and only the keyword asks for one. */
  lemma RootlessPasses(ex: Extractor, text: string)
    requires Rootless(ex.flags)
    ensures var o := Observe(ex, text); o.Seen? ==> o.text == text && (text != "root" ==> Rootless(o.ex.flags))
  {
    hide SaveValues, SaveBlogValues, SaveHandler, SaveLocation, RaiseFlags, Rootless;
    RootlessValues(ex, text);
    var a := SaveValues(ex, text);
    if a.Seen? {
      RootlessBlogValues(a.ex, text);
      var b := SaveBlogValues(a.ex, text);
      if b.Seen? {
        RootlessHandler(b.ex, text);
        RootlessLocation(SaveHandler(b.ex, text), text);
        var c := SaveLocation(SaveHandler(b.ex, text), text);
        if c.Seen? && text != "root" { RootlessFlags(c.ex, text); }
      }
    }
  }

  lemma {:induction false} RootlessRun(ex: Extractor, ts: seq<Token>)
    requires Rootless(ex.flags) && NoRoot(ts)
    ensures Passed(ex, ts).Some? ==> Passed(ex, ts) == Some(ts)
    decreases |ts|
  {
    hide Observe;
    if ts != [] {
      RootlessPasses(ex, ts[0].text);
      var o := Observe(ex, ts[0].text);
      if o.Seen? {
        RootlessRun(AfterToken(o.ex, ts[0].kind), ts[1..]);
        assert [Token(ts[0].kind, ts[0].text)] + ts[1..] == ts;
      }
    }
  }

  /** The round trip with locations: a configuration without the bare word "root", in any layout, is read back as
      the same tree, unless a token read as the port of a proxy is no port number. */
  lemma RootlessRoundTrip(text: string, ss: seq<Statement>)
    requires IsConfig(ss) && ConfigText.Spells(text, ConfigTokens(ss)) && NoRoot(ConfigTokens(ss))
    ensures var o := ParseText(text); o.Accepted? && o.statements == ss <==> !PortMissed(BEGIN, Tokens(text))
  {
    hide Passed, Tokens, RunTokens, ParseText, ConfigTokens, IsConfig, ConfigText.Spells, PortMissed, InGrammar;
    NotInText(text, ConfigTokens(ss), "root");
    ConfigText.SpelledIsAccepted(text, ss);
    GrammarIsRun(text);
    ParseAccepts(text);
    PassedInGrammar(text);
    RootlessRun(BEGIN, Tokens(text));
    if Passed(BEGIN, Tokens(text)).Some? { SpelledAndParsed(text, ss); }
  }
}
