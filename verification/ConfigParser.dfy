/** `NginxConfigParser::Parse`: the loop that hands every token to the flag machine and to the recognizer. */
module ConfigParsing {
  import opened Text
  import opened ConfigLexer
  import Grammar = ConfigGrammar
  import opened ConfigExtraction

  /** The tables and flags of a parse, updated token by token. */
  class LocationScanner {
    var tables: Tables
    var flags: Flags
    var seen: set<string>

    function State(): Extractor
      reads this
    {
      Extractor(tables, flags, seen)
    }

    constructor ()
      ensures State() == BEGIN
    {
      tables, flags, seen := NO_TABLES, NO_FLAGS, {};
    }

    // The values that a flag raised by the token before asks for.

    method TakePort(text: string)
      modifies this
      ensures State() == SavePort(old(State()), text)
    {
      if flags.savePort {
        tables := tables.(port := PortFrom(text, tables.port));
        flags := flags.(savePort := false);
      }
    }

    method TakeProxyPort(text: string) returns (o: Observed)
      modifies this
      ensures o == SaveProxyPort(old(State()), text) && (o.Seen? ==> o.ex == State())
    {
      if flags.saveProxyPort {
        var n := Stoi(AfterColon(text));
        if n.None? {
          return Undefined;  // the bool function ends without a return
        }
        if !(0 <= n.value <= MAX_PORT) {
          return Threw;  // stoi("port")
        }
        var whole := Stoi(text);
        if whole.None? {
          return Threw;
        }
        tables := tables.(proxies := tables.proxies[flags.location := (flags.proxyHost, whole.value)]);
        flags := flags.(saveProxyPort := false);
        flags := flags.(location := "");
      }
      o := Seen(State(), text);
    }

    method TakeRoot(text: string) returns (o: Observed)
      modifies this
      ensures o == SaveRoot(old(State()), text) && (o.Seen? ==> o.ex == State())
    {
      var token := text;
      if flags.saveRoot {
        var v := Unquote(token);
        if v.None? { return Threw; }
        token := v.value;
        tables := tables.(statics := tables.statics[flags.location := token]);
        flags := flags.(expectHandler := false, saveRoot := false, expectRoot := false, seenLocation := false);
        flags := flags.(location := "");
      }
      o := Seen(State(), token);
    }

    method TakeProxyHost(text: string) returns (o: Observed)
      modifies this
      ensures o == SaveProxyHost(old(State()), text) && (o.Seen? ==> o.ex == State())
    {
      if flags.saveProxyHost {
        var v := Unquote(text);
        if v.None? { return Threw; }
        flags := flags.(proxyHost := v.value);
        flags := flags.(expectProxyPort := true);
        flags := flags.(expectHandler := false, expectProxyHost := false,
                        saveProxyHost := false, seenLocation := false);
      }
      o := Seen(State(), text);
    }

    method TakeRedirectHost(text: string) returns (o: Observed)
      modifies this
      ensures o == SaveRedirectHost(old(State()), text) && (o.Seen? ==> o.ex == State())
    {
      if flags.saveRedirectHost {
        var v := Unquote(text);
        if v.None? { return Threw; }
        tables := tables.(redirects := tables.redirects[flags.location := v.value]);
        flags := flags.(expectRedirectHost := false, expectHandler := false, expectProxyPort := false,
                        saveRedirectHost := false, seenLocation := false);
      }
      o := Seen(State(), text);
    }

    method TakeBlogAddress(text: string) returns (o: Observed)
      modifies this
      ensures var a := SaveBlogIp(old(State()), text);
              o == if a.Seen? then SaveBlogPort(a.ex, a.text) else a
      ensures o.Seen? ==> o.ex == State()
    {
      if flags.saveBlogIp {
        var v := Unquote(text);
        if v.None? { return Threw; }
        tables := tables.(blogIps := tables.blogIps[flags.location := v.value]);
        flags := flags.(saveBlogIp := false);
      }
      if flags.saveBlogPort {
        var v := Unquote(text);
        if v.None? { return Threw; }
        tables := tables.(blogPorts := tables.blogPorts[flags.location := v.value]);
        flags := flags.(saveBlogPort := false);
      }
      o := Seen(State(), text);
    }

    method TakeBlogAccount(text: string) returns (o: Observed)
      modifies this
      ensures var a := SaveBlogUsername(old(State()), text);
              o == if a.Seen? then SaveBlogPassword(a.ex, a.text) else a
      ensures o.Seen? ==> o.ex == State()
    {
      if flags.saveBlogUsername {
        var v := Unquote(text);
        if v.None? { return Threw; }
        tables := tables.(blogUsernames := tables.blogUsernames[flags.location := v.value]);
        flags := flags.(saveBlogUsername := false);
      }
      if flags.saveBlogPassword {
        var v := Unquote(text);
        if v.None? { return Threw; }
        tables := tables.(blogPasswords := tables.blogPasswords[flags.location := v.value]);
        flags := flags.(saveBlogPassword := false);
      }
      o := Seen(State(), text);
    }

    method TakeHandler(text: string)
      modifies this
      ensures State() == SaveHandler(old(State()), text)
    {
      if flags.expectHandler {
        if text !in seen {
          tables := tables.(handlerTypes := tables.handlerTypes + [text]);
        }
        seen := seen + {text};
        match TypeOf(text) {
          case Some(StaticType) => flags := flags.(expectRoot := true);
          case Some(RedirectType) => flags := flags.(expectRedirectHost := true);
          case Some(ProxyType) => flags := flags.(expectProxyHost := true);
          case Some(BlogType) => flags := flags.(expectBlog := true);
          case Some(EchoType) =>
            tables := tables.(echos := tables.echos + {flags.location});
            flags := flags.(location := "", seenLocation := false, expectHandler := false);
          case Some(StatusType) =>
            tables := tables.(statuses := tables.statuses + {flags.location});
            flags := flags.(location := "", seenLocation := false, expectHandler := false);
          case Some(HealthType) =>
            tables := tables.(healths := tables.healths + {flags.location});
            flags := flags.(location := "", seenLocation := false, expectHandler := false);
          case Some(UploadFormType) =>
            tables := tables.(uploadForms := tables.uploadForms + {flags.location});
            flags := flags.(location := "", seenLocation := false, expectHandler := false);
          case None =>
        }
      }
    }

    method TakeLocation(text: string) returns (o: Observed)
      modifies this
      ensures o == SaveLocation(old(State()), text) && (o.Seen? ==> o.ex == State())
    {
      if flags.seenLocation {
        var v := Unquote(text);
        if v.None? { return Threw; }
        flags := flags.(location := v.value);
        flags := flags.(expectHandler := true);
        flags := flags.(seenLocation := false);
      }
      o := Seen(State(), text);
    }

    method SetFlags(text: string)
      modifies this
      ensures State() == RaiseFlags(old(State()), text)
    {
      match FlagFor(flags, KeywordOf(text)) {
        case Some(SavePortFlag) => flags := flags.(savePort := true);
        case Some(SeenLocationFlag) => flags := flags.(seenLocation := true);
        case Some(SaveRootFlag) => flags := flags.(saveRoot := true);
        case Some(SaveProxyHostFlag) => flags := flags.(saveProxyHost := true);
        case Some(SaveProxyPortFlag) => flags := flags.(saveProxyPort := true);
        case Some(SaveRedirectHostFlag) => flags := flags.(saveRedirectHost := true);
        case Some(SaveBlogIpFlag) => flags := flags.(saveBlogIp := true);
        case Some(SaveBlogPortFlag) => flags := flags.(saveBlogPort := true);
        case Some(SaveBlogPasswordFlag) => flags := flags.(saveBlogPassword := true);
        case Some(SaveBlogUsernameFlag) => flags := flags.(saveBlogUsername := true);
        case None =>
      }
    }

    /** All that `Parse` does with a token before it looks at the token's type. */
    method Take(text: string) returns (o: Observed)
      modifies this
      ensures o == Observe(old(State()), text) && (o.Seen? ==> o.ex == State())
    {
      hide SavePort, SaveProxyPort, SaveRoot, SaveProxyHost, SaveRedirectHost, SaveBlogIp, SaveBlogPort,
           SaveBlogUsername, SaveBlogPassword, SaveHandler, SaveLocation, RaiseFlags;
      TakePort(text);
      o := TakeProxyPort(text);
      if !o.Seen? { return; }
      o := TakeRoot(o.text);
      if !o.Seen? { return; }
      o := TakeProxyHost(o.text);
      if !o.Seen? { return; }
      o := TakeRedirectHost(o.text);
      if !o.Seen? { return; }
      o := TakeBlogAddress(o.text);
      if !o.Seen? { return; }
      o := TakeBlogAccount(o.text);
      if !o.Seen? { return; }
      TakeHandler(o.text);
      o := TakeLocation(o.text);
      if !o.Seen? { return; }
      SetFlags(o.text);
      o := Seen(State(), o.text);
    }

    /** A closing brace starts over with no flag raised. */
    method ClearFlags()
      modifies this
      ensures State() == CloseBlock(old(State()))
    {
      flags := flags.(expectBlog := false, saveBlogIp := false, saveBlogPort := false,
                      saveBlogUsername := false, saveBlogPassword := false);
      flags := flags.(savePort := false, seenLocation := false, saveRoot := false,
                      expectHandler := false, expectRoot := false);
      flags := flags.(expectProxyHost := false, saveProxyHost := false,
                      expectProxyPort := false, saveProxyPort := false);
      flags := flags.(expectRedirectHost := false, saveRedirectHost := false);
    }
  }

  // ---- The parse as a function of the tokens ----

  datatype Outcome =
    | Accepted(statements: seq<Grammar.Statement>, tables: Tables)
    | Rejected(tables: Tables)
    | Failed(reason: Observed)

  const BEGIN: Extractor := Extractor(NO_TABLES, NO_FLAGS, {})

  function AfterToken(ex: Extractor, kind: TokenType): Extractor { if kind.EndBlock? then CloseBlock(ex) else ex }

  function ParseTokens(ex: Extractor, r: Grammar.Recognizer, ts: seq<Token>): Outcome
    requires Grammar.Valid(r)
    decreases |ts|
  {
    if ts == [] then Rejected(ex.tables) else
    var o := Observe(ex, ts[0].text);
    if !o.Seen? then Failed(o) else
    var t := Token(ts[0].kind, o.text);
    Grammar.RecognizeKeepsValid(r, t);
    match Grammar.Recognize(r, t)
    case Reject => Rejected(o.ex.tables)
    case Accept(ss) => Accepted(ss, o.ex.tables)
    case Continue(r1) => ParseTokens(AfterToken(o.ex, ts[0].kind), r1, ts[1..])
  }

  lemma StartIsValid()
    ensures Grammar.Valid(Grammar.START)
  {}

  function ParseText(text: string): Outcome {
    StartIsValid();
    ParseTokens(BEGIN, Grammar.START, Tokens(text))
  }

  /** The last token type, the config stack and the bracket stack, with the tree they build. */
  class TreeBuilder {
    var last: TokenType
    var configs: Grammar.Stack<Grammar.Frame>
    var brackets: Grammar.Stack<TokenType>

    function State(): Grammar.Recognizer
      reads this
    {
      Grammar.Recognizer(last, configs, brackets)
    }

    constructor ()
      ensures State() == Grammar.START
    {
      last := Start;
      configs := Grammar.Push(Grammar.Frame([], []), Grammar.Empty);
      brackets := Grammar.Empty;
    }

    /** The part of the loop that looks at the token's type: go on, or stop with or without a tree. */
    method Feed(t: Token) returns (goOn: bool, success: bool)
      requires Grammar.Valid(State())
      modifies this
      ensures Grammar.Valid(State()) && configs.Push?
      ensures Grammar.Recognize(old(State()), t)
           == if goOn then Grammar.Continue(State())
              else if success then Grammar.Accept(configs.top.done) else Grammar.Reject
    {
      Grammar.RecognizeKeepsValid(State(), t);
      if t.kind.Error? || t.kind.Start? {
        return false, false;
      } else if t.kind.Comment? {
        return true, false;
      } else if t.kind.Normal? {
        var f := configs.top;
        configs := Grammar.Push(Grammar.Frame(f.done, f.words + [t.text]), configs.below);
      } else if t.kind.StatementEnd? {
        if !last.Normal? {
          return false, false;
        }
        var f := configs.top;
        configs := Grammar.Push(Grammar.Frame(f.done + [Grammar.Simple(f.words)], []), configs.below);
      } else if t.kind.StartBlock? {
        if !last.Normal? {
          return false, false;
        }
        configs := Grammar.Push(Grammar.Frame([], []), configs);
        brackets := Grammar.Push(StartBlock, brackets);
      } else if t.kind.EndBlock? {
        if !(last.StatementEnd? || last.EndBlock? || last.StartBlock?) || brackets.Empty? {
          return false, false;
        }
        brackets := brackets.below;
        var inner, f := configs.top, configs.below.top;
        configs := Grammar.Push(Grammar.Frame(f.done + [Grammar.Block(f.words, inner.done)], []), configs.below.below);
      } else {
        if !(last.StatementEnd? || last.EndBlock? || last.Start?) {
          return false, false;
        }
        return false, brackets.Empty?;
      }
      last := t.kind;
      return true, false;
    }
  }

  lemma LastStops(r: Grammar.Recognizer, t: Token)
    requires Grammar.Valid(r)
    ensures IsLast(t) ==> forall text :: !Grammar.Recognize(r, Token(t.kind, text)).Continue?
  {}

  /** `Parse` over a stream, with the flags of the scanner cleared at every accepted closing brace. */
  method Parse(input: InputStream) returns (outcome: Outcome)
    requires input.Valid() && input.good
    modifies input
    ensures outcome == ParseText(old(input.Rest()))
  {
    hide Observe, Grammar.Recognize, Grammar.Valid;
    StartIsValid();
    var scanner := new LocationScanner();
    var tree := new TreeBuilder();
    while true
      invariant input.Valid() && input.good && fresh(scanner) && fresh(tree)
      invariant Grammar.Valid(tree.State())
      invariant ParseText(old(input.Rest())) == ParseTokens(scanner.State(), tree.State(), Tokens(input.Rest()))
      decreases |input.Rest()|
    {
      NextProgress(input.Rest());
      LastStops(tree.State(), Next(input.Rest()).0);
      var token := ParseToken(input);
      var seen := scanner.Take(token.text);
      if !seen.Seen? {
        return Failed(seen);
      }
      var goOn, success := tree.Feed(Token(token.kind, seen.text));
      if !goOn {
        return if success then Accepted(tree.configs.top.done, scanner.tables) else Rejected(scanner.tables);
      }
      if token.kind.EndBlock? {
        scanner.ClearFlags();
      }
    }
  }
}
