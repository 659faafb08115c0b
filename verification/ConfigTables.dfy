/** A list of declarations, written as a configuration and read back, fills the tables it declares. */
module ConfigTables {
  import opened Text
  import opened ConfigLexer
  import opened ConfigGrammar
  import opened ConfigText
  import opened ConfigExtraction
  import opened ConfigParsing
  import opened ConfigAwaits
  import opened ConfigProperties
  import opened ConfigDeclarations
  import opened ConfigSteps
  import opened ConfigComments

  // ---- Whole declarations ----

  lemma SettingLeads(x: Extractor, w: Keyword, flag: Flag, value: string, y: Extractor)
    requires NoSave(x.flags) && FlagFor(x.flags, Some(w)) == Some(flag) && NoSave(y.flags)
    requires Leads(x.(flags := Raise(x.flags, flag)), [WordToken(value)], y)
    ensures Leads(x, StatementTokens(Setting(w, value)), y)
  {
    hide Leads, Raise, FlagFor, NoSave, KeywordText;
    var a, b, c := [WordToken(KeywordText(w))], [WordToken(value)], [Token(StatementEnd, ";")];
    var x1 := x.(flags := Raise(x.flags, flag));
    SettingTokens(w, value);
    LeadsWord(x, w, flag);
    LeadsMark(y, Token(StatementEnd, ";"));
    LeadsThen(x, a, x1, b, y);
    LeadsThen(x, a + b, y, c, y);
  }

  /** The head of a location, its settings and the end of its block. */
  lemma BlockLeads(t: Tables, was: string, host: string, path: string, h: HandlerType, ss: seq<Statement>, z: Extractor)
    requires NoSave(Enter(Named(t, path, host), h).flags)
    requires Leads(Enter(Named(t, path, host), h), ConfigTokens(ss) + [Token(EndBlock, "}")], z)
    ensures Leads(Resting(t, was, host), StatementTokens(Block(LocationWords(path, h), ss)), z)
  {
    hide Leads, Enter, Resting, Named, ConfigTokens, WordTokens, LocationWords, NoSave;
    var x, e := Resting(t, was, host), Enter(Named(t, path, host), h);
    var head, open := WordTokens(LocationWords(path, h)), [Token(StartBlock, "{")];
    var rest := ConfigTokens(ss) + [Token(EndBlock, "}")];
    LeadsHead(t, was, host, path, h);
    LeadsMark(e, Token(StartBlock, "{"));
    LeadsThen(x, head, e, open, e);
    LeadsThen(x, head + open, e, rest, z);
    assert StatementTokens(Block(LocationWords(path, h), ss)) == head + open + rest;
  }

  lemma CloseLeads(x: Extractor, ts: seq<Token>, y: Extractor, z: Extractor)
    requires Leads(x, ts, y) && NoSave(y.flags) && CloseBlock(y) == z
    ensures Leads(x, ts + [Token(EndBlock, "}")], z)
  {
    hide Leads;
    LeadsClose(y);
    LeadsThen(x, ts, y, [Token(EndBlock, "}")], z);
  }

  lemma OneStatement(s: Statement)
    ensures ConfigTokens([s]) == StatementTokens(s)
  {
    hide StatementTokens;
    assert [s][1..] == [] && ConfigTokens([]) == [];
  }

  lemma TwoStatements(s: Statement, u: Statement)
    ensures ConfigTokens([s, u]) == StatementTokens(s) + StatementTokens(u)
  {
    hide StatementTokens;
    OneStatement(u);
    assert [s, u][1..] == [u];
  }

  lemma BlockStart(x: Extractor)
    ensures Leads(x, [], x) && ConfigTokens([]) == []
  {}

  lemma ClosedResting(t: Tables, path: string, host: string)
    ensures CloseBlock(Resting(t, path, host)) == Resting(t, path, host)
  {}

  /** A location without settings. */
  lemma PlainLeads(t: Tables, was: string, host: string, d: Declaration)
    requires d.Echo? || d.Status? || d.Health? || d.UploadForm?
    ensures Leads(Resting(t, was, host), StatementTokens(StatementOf(d)), Resting(Record(t, d), "", host))
  {
    var e, z := Enter(Named(t, d.path, host), KindOf(d)), Resting(Record(t, d), "", host);
    assert e == z && NoSave(z.flags);
    hide Enter, Resting, Named, Record, NoSave, Leads, StatementTokens, ConfigTokens;
    ClosedResting(Record(t, d), "", host);
    BlockStart(z);
    CloseLeads(z, [], z, z);
    BlockLeads(t, was, host, d.path, KindOf(d), [], z);
  }

  lemma StaticStates(t: Tables, path: string, host: string)
    ensures var e := Enter(Named(t, path, host), StaticType);
            NoSave(e.flags) && FlagFor(e.flags, Some(RootWord)) == Some(SaveRootFlag)
            && Raise(e.flags, SaveRootFlag) == e.flags.(saveRoot := true)
  {}

  lemma StaticLeads(t: Tables, was: string, host: string, path: string, root: string)
    ensures Leads(Resting(t, was, host), StatementTokens(StatementOf(Static(path, root))),
                  Resting(WithRoot(t, path, root), "", host))
  {
    var e, z := Enter(Named(t, path, host), StaticType), Resting(WithRoot(t, path, root), "", host);
    var y := RaiseFlags(z, root);
    StaticStates(t, path, host);
    var a, b, c := [WordToken(KeywordText(RootWord))], [WordToken(Quote(root))], [Token(StatementEnd, ";")];
    hide Enter, Resting, Named, NoSave, Leads, FlagFor, Raise, RaiseFlags, KeywordText, StatementTokens, ConfigTokens,
         Quote, LocationWords;
    LeadsWord(e, RootWord, SaveRootFlag);
    LeadsRoot(t, path, host, root);
    LeadsThen(e, a, e.(flags := Raise(e.flags, SaveRootFlag)), b, y);
    LeadsRootEnd(WithRoot(t, path, root), host, root);
    LeadsThen(e, a + b, y, c + [Token(EndBlock, "}")], z);
    SettingTokens(RootWord, Quote(root));
    OneStatement(Setting(RootWord, Quote(root)));
    assert a + b + (c + [Token(EndBlock, "}")])
         == ConfigTokens([Setting(RootWord, Quote(root))]) + [Token(EndBlock, "}")];
    BlockLeads(t, was, host, path, StaticType, [Setting(RootWord, Quote(root))], z);
  }

  lemma RedirectLeads(t: Tables, was: string, host: string, path: string, to: string)
    ensures var d := Redirect(path, to);
            Leads(Resting(t, was, host), StatementTokens(StatementOf(d)), Resting(Record(t, d), path, host))
  {
    var e, z := Enter(Named(t, path, host), RedirectType), Resting(Record(t, Redirect(path, to)), path, host);
    assert NoSave(e.flags) && NoSave(z.flags) && FlagFor(e.flags, Some(HostWord)) == Some(SaveRedirectHostFlag);
    assert Raise(e.flags, SaveRedirectHostFlag) == e.flags.(saveRedirectHost := true);
    var s := Setting(HostWord, Quote(to));
    LeadsRedirectHost(t, path, host, to);
    ClosedResting(Record(t, Redirect(path, to)), path, host);
    hide Enter, Resting, Named, NoSave, Leads, FlagFor, Raise, StatementTokens, ConfigTokens, Quote, LocationWords,
         Setting, CloseBlock;
    SettingLeads(e, HostWord, SaveRedirectHostFlag, Quote(to), z);
    OneStatement(s);
    CloseLeads(e, StatementTokens(s), z, z);
    BlockLeads(t, was, host, path, RedirectType, [s], z);
  }

  lemma ProxyStates(t: Tables, t1: Tables, path: string, host: string, to: string)
    ensures var e := Enter(Named(t, path, host), ProxyType);
            NoSave(e.flags) && FlagFor(e.flags, Some(HostWord)) == Some(SaveProxyHostFlag)
            && Raise(e.flags, SaveProxyHostFlag) == e.flags.(saveProxyHost := true)
    ensures var y := Hosted(t, path, to);
            NoSave(y.flags) && FlagFor(y.flags, Some(PortWord)) == Some(SaveProxyPortFlag)
            && Raise(y.flags, SaveProxyPortFlag) == y.flags.(saveProxyPort := true)
    ensures NoSave(Hosted(t1, "", to).flags) && CloseBlock(Hosted(t1, "", to)) == Resting(t1, "", to)
  {}

  lemma ProxyLeads(t: Tables, was: string, host: string, path: string, to: string, port: nat)
    requires port <= MAX_PORT
    ensures var d := Proxy(path, to, port);
            Leads(Resting(t, was, host), StatementTokens(StatementOf(d)), Resting(Record(t, d), "", to))
  {
    var t1 := Record(t, Proxy(path, to, port));
    var e, y, q, z := Enter(Named(t, path, host), ProxyType), Hosted(t, path, to),
         Hosted(t1, "", to), Resting(t1, "", to);
    ProxyStates(t, t1, path, host, to);
    var s, u := Setting(HostWord, Quote(to)), Setting(PortWord, Decimal(port));
    hide Enter, Resting, Named, Hosted, NoSave, Leads, FlagFor, Raise, StatementTokens, ConfigTokens, Quote,
         LocationWords, Setting,
         CloseBlock, Decimal;
    LeadsProxyHost(t, path, host, to);
    LeadsProxyPort(t, path, to, port);
    SettingLeads(e, HostWord, SaveProxyHostFlag, Quote(to), y);
    SettingLeads(y, PortWord, SaveProxyPortFlag, Decimal(port), q);
    LeadsThen(e, StatementTokens(s), y, StatementTokens(u), q);
    TwoStatements(s, u);
    CloseLeads(e, StatementTokens(s) + StatementTokens(u), q, z);
    BlockLeads(t, was, host, path, ProxyType, [s, u], z);
  }

  lemma ListenLeads(t: Tables, was: string, host: string, port: nat)
    requires port <= MAX_PORT
    ensures Leads(Resting(t, was, host), StatementTokens(StatementOf(Listen(port))),
                  Resting(t.(port := port), was, host))
  {
    var x, y := Resting(t, was, host), Resting(t.(port := port), was, host);
    assert NoSave(x.flags) && NoSave(y.flags) && FlagFor(x.flags, Some(PortWord)) == Some(SavePortFlag);
    assert Raise(x.flags, SavePortFlag) == x.flags.(savePort := true);
    LeadsPort(t, was, host, port);
    hide Resting, NoSave, Leads, FlagFor, Raise, StatementTokens, Setting, Decimal;
    SettingLeads(x, PortWord, SavePortFlag, Decimal(port), y);
  }

  lemma FieldExpected(t: Tables, path: string, host: string, n: FieldName)
    ensures NoSave(InBlog(t, path, host).flags)
    ensures FlagFor(InBlog(t, path, host).flags, Some(FieldWord(n))) == Some(FieldFlag(n))
  {}

  lemma {:induction false} FieldsLead(t: Tables, path: string, host: string, fs: seq<Field>)
    ensures Leads(InBlog(t, path, host), ConfigTokens(FieldSettings(fs)), InBlog(RecordFields(t, path, fs), path, host))
    decreases |fs|
  {
    hide InBlog, NoSave, Leads, FlagFor, Raise, StatementTokens, Quote, Setting, RecordField;
    if fs == [] {
      BlockStart(InBlog(t, path, host));
    } else {
      var x, t1 := InBlog(t, path, host), RecordField(t, path, fs[0]);
      var y, s := InBlog(t1, path, host), Setting(FieldWord(fs[0].name), Quote(fs[0].value));
      FieldExpected(t, path, host, fs[0].name);
      FieldExpected(t1, path, host, fs[0].name);
      LeadsField(t, path, host, fs[0]);
      SettingLeads(x, FieldWord(fs[0].name), FieldFlag(fs[0].name), Quote(fs[0].value), y);
      FieldsLead(t1, path, host, fs[1..]);
      assert ([s] + FieldSettings(fs[1..]))[1..] == FieldSettings(fs[1..]);
      LeadsThen(x, StatementTokens(s), y, ConfigTokens(FieldSettings(fs[1..])),
                InBlog(RecordFields(t, path, fs), path, host));
    }
  }

  lemma BlogCloses(t: Tables, path: string, host: string)
    ensures CloseBlock(InBlog(t, path, host)) == Resting(t, path, host)
  {}

  lemma BlogLeads(t: Tables, was: string, host: string, path: string, fs: seq<Field>)
    ensures Leads(Resting(t, was, host), StatementTokens(StatementOf(Blog(path, fs))),
                  Resting(RecordFields(t, path, fs), path, host))
  {
    var t1 := RecordFields(t, path, fs);
    var e, q, z := InBlog(t, path, host), InBlog(t1, path, host), Resting(t1, path, host);
    assert e == Enter(Named(t, path, host), BlogType);
    hide InBlog, Enter, Resting, Named, NoSave, Leads, StatementTokens, ConfigTokens, LocationWords, FieldSettings,
         CloseBlock, RecordFields;
    FieldExpected(t, path, host, HostField);
    FieldExpected(t1, path, host, HostField);
    BlogCloses(t1, path, host);
    FieldsLead(t, path, host, fs);
    CloseLeads(e, ConfigTokens(FieldSettings(fs)), q, z);
    BlockLeads(t, was, host, path, BlogType, FieldSettings(fs), z);
  }

  /** Every declaration, from between two statements to between two statements, records what it declares. */
  lemma DeclarationLeads(t: Tables, was: string, host: string, d: Declaration)
    returns (path: string, last: string)
    requires CanDeclare(d)
    ensures Leads(Resting(t, was, host), StatementTokens(StatementOf(d)), Resting(Record(t, d), path, last))
  {
    hide Leads, Resting, StatementTokens, StatementOf, RecordFields;
    match d
    case Listen(port) => ListenLeads(t, was, host, port); path, last := was, host;
    case Static(p, root) => StaticLeads(t, was, host, p, root); path, last := "", host;
    case Redirect(p, to) => RedirectLeads(t, was, host, p, to); path, last := p, host;
    case Proxy(p, to, port) => ProxyLeads(t, was, host, p, to, port); path, last := "", to;
    case Blog(p, fs) => BlogLeads(t, was, host, p, fs); path, last := p, host;
    case Echo(_) => PlainLeads(t, was, host, d); path, last := "", host;
    case Status(_) => PlainLeads(t, was, host, d); path, last := "", host;
    case Health(_) => PlainLeads(t, was, host, d); path, last := "", host;
    case UploadForm(_) => PlainLeads(t, was, host, d); path, last := "", host;
  }

  ghost predicate AllDeclare(ds: seq<Declaration>) { forall i :: 0 <= i < |ds| ==> CanDeclare(ds[i]) }

  lemma {:induction false} DeclarationsLead(t: Tables, was: string, host: string, ds: seq<Declaration>)
    returns (path: string, last: string)
    requires AllDeclare(ds)
    ensures Leads(Resting(t, was, host), ConfigTokens(ConfigOf(ds)), Resting(RecordAll(t, ds), path, last))
    decreases |ds|
  {
    hide Leads, Resting, StatementTokens, StatementOf, Record;
    if ds == [] {
      BlockStart(Resting(t, was, host));
      path, last := was, host;
    } else {
      var p, h := DeclarationLeads(t, was, host, ds[0]);
      path, last := DeclarationsLead(Record(t, ds[0]), p, h, ds[1..]);
      assert ([StatementOf(ds[0])] + ConfigOf(ds[1..]))[1..] == ConfigOf(ds[1..]);
      LeadsThen(Resting(t, was, host), StatementTokens(StatementOf(ds[0])), Resting(Record(t, ds[0]), p, h),
                ConfigTokens(ConfigOf(ds[1..])), Resting(RecordAll(t, ds), path, last));
    }
  }

  // ---- From text to tables ----

  lemma KeywordIsBare(w: Keyword)
    ensures IsWord(KeywordText(w))
  {
    match w
    case PortWord => assert IsBare("port");
    case LocationWord => assert IsBare("location");
    case RootWord => assert IsBare("root");
    case HostWord => assert IsBare("host");
    case PasswordWord => assert IsBare("password");
    case UsernameWord => assert IsBare("username");
  }

  lemma LettersAreBare(s: string)
    requires s != "" && forall i :: 0 <= i < |s| ==> 'A' <= s[i] <= 'z' && s[i] != '{' && s[i] != '}'
    ensures IsWord(s)
  {}

  lemma TypeIsBare(h: HandlerType)
    ensures IsWord(TypeName(h))
  {
    hide IsBare, IsQuoted;
    match h
    case EchoType => LettersAreBare("EchoHandler");
    case StaticType => LettersAreBare("StaticHandler");
    case StatusType => LettersAreBare("StatusHandler");
    case ProxyType => LettersAreBare("ProxyHandler");
    case RedirectType => LettersAreBare("RedirectHandler");
    case HealthType => LettersAreBare("HealthHandler");
    case UploadFormType => LettersAreBare("UploadFormHandler");
    case BlogType => LettersAreBare("BlogHandler");
  }

  lemma QuoteIsWord(s: string)
    requires Quotable(s)
    ensures IsWord(Quote(s))
  {
    assert forall i :: 0 < i < |Quote(s)| - 1 ==> Quote(s)[i] == s[i - 1];
  }

  lemma DigitsAreBare(s: string)
    requires s != "" && AllDigits(s)
    ensures IsWord(s)
  {
    assert IsDigit(s[0]) && forall i :: 0 < i < |s| ==> IsDigit(s[i]);
  }

  lemma SettingFits(w: Keyword, value: string)
    requires IsWord(value)
    ensures StatementFits(Setting(w, value)) && IsStatement(Setting(w, value))
  {
    KeywordIsBare(w);
  }

  lemma {:induction false} FieldsFit(fs: seq<Field>)
    requires AllQuotable(fs)
    ensures WordsFit(FieldSettings(fs)) && IsConfig(FieldSettings(fs))
    decreases |fs|
  {
    hide IsWord, Setting, Quotable, StatementFits, IsStatement;
    if fs != [] {
      QuoteIsWord(fs[0].value);
      SettingFits(FieldWord(fs[0].name), Quote(fs[0].value));
      FieldsFit(fs[1..]);
    }
  }

  lemma SettingsFit(d: Declaration)
    requires CanDeclare(d)
    ensures WordsFit(SettingsOf(d)) && IsConfig(SettingsOf(d))
  {
    hide IsWord, Quotable, Quote, Setting, StatementFits, IsStatement;
    match d
    case Static(_, root) => QuoteIsWord(root); SettingFits(RootWord, Quote(root));
    case Redirect(_, to) => QuoteIsWord(to); SettingFits(HostWord, Quote(to));
    case Proxy(_, to, port) =>
      DecimalRoundTrip(port);
      DigitsAreBare(Decimal(port));
      QuoteIsWord(to);
      SettingFits(HostWord, Quote(to));
      SettingFits(PortWord, Decimal(port));
    case Blog(_, fs) => FieldsFit(fs);
    case _ =>
  }

  lemma StatementFit(d: Declaration)
    requires CanDeclare(d)
    ensures StatementFits(StatementOf(d)) && IsStatement(StatementOf(d))
  {
    hide IsWord, Quotable, TypeName, KindOf, Quote, WordsFit, IsConfig, SettingsOf, Setting;
    if d.Listen? {
      DecimalRoundTrip(d.port);
      DigitsAreBare(Decimal(d.port));
      SettingFits(PortWord, Decimal(d.port));
    } else {
      SettingsFit(d);
      KeywordIsBare(LocationWord);
      assert KeywordText(LocationWord) == "location";
      QuoteIsWord(d.path);
      TypeIsBare(KindOf(d));
    }
  }

  lemma {:induction false} ConfigFits(ds: seq<Declaration>)
    requires AllDeclare(ds)
    ensures WordsFit(ConfigOf(ds)) && IsConfig(ConfigOf(ds))
  {
    hide StatementOf, StatementFits, IsStatement, CanDeclare;
    if ds != [] {
      StatementFit(ds[0]);
      ConfigFits(ds[1..]);
    }
  }

  /** The end of the input changes no table. */
  lemma LeadsToEnd(ds: seq<Declaration>) returns (path: string, last: string)
    requires AllDeclare(ds)
    ensures Leads(BEGIN, ConfigTokens(ConfigOf(ds)) + [Token(Eof, "")], Resting(RecordAll(NO_TABLES, ds), path, last))
  {
    assert BEGIN == Resting(NO_TABLES, "", "");
    path, last := DeclarationsLead(NO_TABLES, "", "", ds);
    var y := Resting(RecordAll(NO_TABLES, ds), path, last);
    assert NoSave(y.flags);
    OtherTexts();
    hide Leads, KeywordOf, TypeOf, Resting;
    LeadsQuiet(y, Token(Eof, ""));
    LeadsThen(BEGIN, ConfigTokens(ConfigOf(ds)), y, [Token(Eof, "")], y);
  }

  /** The tables of declarations in the plainest layout. */
  lemma PrintedTables(ds: seq<Declaration>)
    requires AllDeclare(ds)
    ensures var o := ParseText(Print(ConfigOf(ds)));
            && o.Accepted?
            && o.tables.(handlerTypes := []) == RecordAll(NO_TABLES, ds)
  {
    var text, ts, all := Print(ConfigOf(ds)), ConfigTokens(ConfigOf(ds)), ConfigTokens(ConfigOf(ds)) + [Token(Eof, "")];
    var path, last := LeadsToEnd(ds);
    assert Shape(BEGIN) == BEGIN && Resting(RecordAll(NO_TABLES, ds), path, last).tables == RecordAll(NO_TABLES, ds);
    ConfigFits(ds);
    ConfigWritable(ConfigOf(ds));
    TokensOfWritten(ts);
    NothingUncommented(ts);
    hide Extract, Passed, ParseTokens, ConfigTokens, Tokens, Uncommented, IsConfig, AllWritable, TablesConsistent,
         RecordAll, Resting, WordsFit;
    assert Tokens(text) == all && all[..|all| - 1] == ts;
    ExtractIsPassed(BEGIN, all);
    assert InGrammar(text);
    hide InGrammar, PortMissed;
    PassedInGrammar(text);
    ParseAccepts(text);
    StartIsValid();
    TokensEnd(text);
    AcceptedTables(BEGIN, START, all);
  }

  lemma WritableHasNoRemark(ts: seq<Token>)
    requires AllWritable(ts)
    ensures Calm(ts + [Token(Eof, "")])
  {
    hide Asks, IsWord;
    var all := ts + [Token(Eof, "")];
    forall i | 0 <= i < |all| ensures !IsRemark(all[i]) {
      if i < |ts| { assert IsWritable(ts[i]) && all[i] == ts[i]; }
    }
  }

  /** A configuration in its plainest layout has no comments. */
  lemma PrintIsCalm(ds: seq<Declaration>)
    requires AllDeclare(ds)
    ensures Spells(Print(ConfigOf(ds)), ConfigTokens(ConfigOf(ds))) && Calm(Tokens(Print(ConfigOf(ds))))
  {
    hide Tokens, ConfigTokens, Spells, Calm, WordsFit, IsConfig, ConfigOf, AllDeclare, AllWritable;
    ConfigFits(ds);
    PrintSpells(ConfigOf(ds));
    ConfigWritable(ConfigOf(ds));
    TokensOfWritten(ConfigTokens(ConfigOf(ds)));
    WritableHasNoRemark(ConfigTokens(ConfigOf(ds)));
  }

  /** Every list of declarations, in any layout with any comments but those right after a word that asks for a
      value, is accepted, and the tables hold what was declared: a later declaration of a path replaces an earlier
      one of the same kind, and nothing else is recorded but the list of handler types. */
  lemma DeclaredTables(text: string, ds: seq<Declaration>)
    requires AllDeclare(ds) && Spells(text, ConfigTokens(ConfigOf(ds))) && Calm(Tokens(text))
    ensures var o := ParseText(text);
            && o.Accepted?
            && o.tables.(handlerTypes := []) == RecordAll(NO_TABLES, ds)
            && TablesConsistent(o.tables)
  {
    hide ParseText, Tokens, Spells, ConfigTokens, TablesConsistent, RecordAll, Calm;
    PrintedTables(ds);
    PrintIsCalm(ds);
    SameWithoutComments(text, Print(ConfigOf(ds)), ConfigTokens(ConfigOf(ds)));
    ParsedTablesConsistent(text);
  }
}
