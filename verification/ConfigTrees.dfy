/** The statement tree of declarations that were written and read back. */
module ConfigTrees {
  import opened Text
  import opened ConfigLexer
  import opened ConfigGrammar
  import opened ConfigText
  import opened ConfigExtraction
  import opened ConfigParsing
  import opened ConfigAwaits
  import opened ConfigProperties
  import opened ConfigDeclarations
  import opened ConfigSteps
  import opened ConfigComments
  import opened ConfigTables

  /** The statement of a declaration in the tree: the root of a static handler has lost its quotes. */
  function TreeOf(d: Declaration): Statement {
    if d.Static? then Block(LocationWords(d.path, StaticType), [Setting(RootWord, d.root)]) else StatementOf(d)
  }

  function TreesOf(ds: seq<Declaration>): seq<Statement> {
    if ds == [] then [] else [TreeOf(ds[0])] + TreesOf(ds[1..])
  }

  // ---- Tokens without the keyword "root" ----

  lemma NoRootJoin(a: seq<Token>, b: seq<Token>)
    requires NoRoot(a) && NoRoot(b)
    ensures NoRoot(a + b)
  {}

  lemma WordsNotRoot(w: Keyword, v: string, h: HandlerType, n: nat)
    ensures w != RootWord ==> KeywordText(w) != "root"
    ensures Quote(v) != "root" && TypeName(h) != "root" && Decimal(n) != "root"
  {
    assert KeywordText(w)[0] != 'r' || w == RootWord;
    assert Quote(v)[0] == '\"';
    assert TypeName(h)[1] != 'o' || TypeName(h)[0] != 'r';
    DecimalRoundTrip(n);
    hide Decimal;
    assert IsDigit(Decimal(n)[0]) && !IsDigit("root"[0]);
  }

  lemma SettingNoRoot(w: Keyword, value: string)
    requires w != RootWord && value != "root"
    ensures NoRoot(StatementTokens(Setting(w, value)))
  {
    SettingTokens(w, value);
    WordsNotRoot(w, "", EchoType, 0);
    hide KeywordText;
  }

  lemma HeadNoRoot(path: string, h: HandlerType)
    ensures NoRoot(WordTokens(LocationWords(path, h)) + [Token(StartBlock, "{")])
  {
    ThreeWords("location", Quote(path), TypeName(h));
    WordsNotRoot(LocationWord, path, h, 0);
    hide Quote, TypeName;
  }

  lemma {:induction false} FieldsNoRoot(fs: seq<Field>)
    ensures NoRoot(ConfigTokens(FieldSettings(fs)))
    decreases |fs|
  {
    hide StatementTokens, Setting, Quote;
    if fs != [] {
      WordsNotRoot(RootWord, fs[0].value, EchoType, 0);
      SettingNoRoot(FieldWord(fs[0].name), Quote(fs[0].value));
      FieldsNoRoot(fs[1..]);
      NoRootJoin(StatementTokens(Setting(FieldWord(fs[0].name), Quote(fs[0].value))),
                 ConfigTokens(FieldSettings(fs[1..])));
      assert FieldSettings(fs)[1..] == FieldSettings(fs[1..]);
    }
  }

  lemma SettingsNoRoot(d: Declaration)
    requires !d.Static?
    ensures NoRoot(ConfigTokens(SettingsOf(d)))
  {
    hide StatementTokens, Setting, Quote, Decimal;
    match d
    case Redirect(_, host) =>
      WordsNotRoot(HostWord, host, EchoType, 0);
      SettingNoRoot(HostWord, Quote(host));
      OneStatement(Setting(HostWord, Quote(host)));
    case Proxy(_, host, port) =>
      WordsNotRoot(HostWord, host, EchoType, port);
      SettingNoRoot(HostWord, Quote(host));
      SettingNoRoot(PortWord, Decimal(port));
      TwoStatements(Setting(HostWord, Quote(host)), Setting(PortWord, Decimal(port)));
    case Blog(_, fs) => FieldsNoRoot(fs);
    case _ =>
  }

  lemma StatementNoRoot(d: Declaration)
    requires !d.Static?
    ensures NoRoot(StatementTokens(StatementOf(d)))
  {
    hide Decimal, WordTokens, ConfigTokens, LocationWords, SettingsOf, KindOf;
    if d.Listen? {
      WordsNotRoot(PortWord, "", EchoType, d.port);
      SettingNoRoot(PortWord, Decimal(d.port));
    } else {
      BlockTokens(LocationWords(d.path, KindOf(d)), SettingsOf(d));
      HeadNoRoot(d.path, KindOf(d));
      SettingsNoRoot(d);
    }
  }

  // ---- What the recognizer sees ----

  lemma {:induction false} PassedThen(ex: Extractor, a: seq<Token>, b: seq<Token>)
    requires Passed(ex, a).Some? && Extract(ex, a).Some? && Passed(Extract(ex, a).value, b).Some?
    ensures Passed(ex, a + b) == Some(Passed(ex, a).value + Passed(Extract(ex, a).value, b).value)
    decreases |a|
  {
    hide Observe;
    var rest := Passed(Extract(ex, a).value, b).value;
    if a == [] {
      assert a + b == b && [] + rest == rest;
    } else {
      var o := Observe(ex, a[0].text);
      var ex1, t := AfterToken(o.ex, a[0].kind), Token(a[0].kind, o.text);
      PassedThen(ex1, a[1..], b);
      assert (a + b)[1..] == a[1..] + b;
      assert [t] + (Passed(ex1, a[1..]).value + rest) == [t] + Passed(ex1, a[1..]).value + rest;
    }
  }

  lemma PassedOne(ex: Extractor, t: Token)
    requires Observe(ex, t.text).Seen?
    ensures Passed(ex, [t]) == Some([Token(t.kind, Observe(ex, t.text).text)])
  {
    hide Observe;
    var o := Observe(ex, t.text);
    assert [t][1..] == [] && [Token(t.kind, o.text)] + [] == [Token(t.kind, o.text)];
    assert Passed(AfterToken(o.ex, t.kind), []) == Some([]);
  }

  /** Over any extractor of a shape: what is seen of tokens without the keyword. */
  lemma LeadsRootless(ex: Extractor, x: Extractor, ts: seq<Token>, y: Extractor)
    requires Shape(ex) == x && Leads(x, ts, y) && Rootless(x.flags) && NoRoot(ts)
    ensures Passed(ex, ts) == Some(ts) && Extract(ex, ts).Some? && Shape(Extract(ex, ts).value) == y
  {
    hide Extract, Passed, NoRoot;
    ExtractIsPassed(ex, ts);
    RootlessRun(ex, ts);
  }

  /** The part of a static location before its root. */
  lemma RootHead(t: Tables, was: string, host: string, path: string)
    ensures var e := Enter(Named(t, path, host), StaticType);
            Leads(Resting(t, was, host), WordTokens(LocationWords(path, StaticType)) + [Token(StartBlock, "{")], e)
            && Leads(e, [WordToken(KeywordText(RootWord))], e.(flags := e.flags.(saveRoot := true)))
            && Rootless(e.flags)
  {
    StaticStates(t, path, host);
    var e := Enter(Named(t, path, host), StaticType);
    assert Rootless(e.flags);
    hide Leads, Enter, Named, Resting, NoSave, FlagFor, Raise, LocationWords, KeywordText;
    LeadsHead(t, was, host, path, StaticType);
    LeadsMark(e, Token(StartBlock, "{"));
    LeadsThen(Resting(t, was, host), WordTokens(LocationWords(path, StaticType)), e, [Token(StartBlock, "{")], e);
    LeadsWord(e, RootWord, SaveRootFlag);
  }

  lemma RootlessAfterRoot(t: Tables, host: string, root: string)
    ensures Rootless(RaiseFlags(Resting(t, "", host), root).flags)
  {
    hide KeywordOf;
  }

  lemma StaticTokens(path: string, root: string)
    ensures var a := WordTokens(LocationWords(path, StaticType)) + [Token(StartBlock, "{")];
            var r, c := [WordToken(KeywordText(RootWord))], [Token(StatementEnd, ";")] + [Token(EndBlock, "}")];
            && StatementTokens(StatementOf(Static(path, root))) == a + (r + ([WordToken(Quote(root))] + c))
            && StatementTokens(TreeOf(Static(path, root))) == a + (r + ([WordToken(root)] + c))
  {
    hide LocationWords, KeywordText, Quote, Setting, WordTokens, StatementTokens, ConfigTokens;
    forall v: string
      ensures StatementTokens(Block(LocationWords(path, StaticType), [Setting(RootWord, v)]))
           == WordTokens(LocationWords(path, StaticType)) + [Token(StartBlock, "{")]
              + ([WordToken(KeywordText(RootWord))]
                 + ([WordToken(v)] + ([Token(StatementEnd, ";")] + [Token(EndBlock, "}")])))
    {
      BlockTokens(LocationWords(path, StaticType), [Setting(RootWord, v)]);
      OneStatement(Setting(RootWord, v));
      SettingTokens(RootWord, v);
    }
    assert StatementOf(Static(path, root)) == Block(LocationWords(path, StaticType), [Setting(RootWord, Quote(root))]);
  }

  /** The keyword itself passes unchanged and asks for the root. */
  lemma RootWordPasses(ex: Extractor, e: Extractor) returns (next: Extractor)
    requires Shape(ex) == e && Rootless(e.flags)
    requires Leads(e, [WordToken(KeywordText(RootWord))], e.(flags := e.flags.(saveRoot := true)))
    ensures var r := [WordToken(KeywordText(RootWord))];
            && Passed(ex, r) == Some(r) && Extract(ex, r) == Some(next)
            && Shape(next) == e.(flags := e.flags.(saveRoot := true))
  {
    hide KeywordText, Observe;
    var t := WordToken(KeywordText(RootWord));
    next := Extract(ex, [t]).value;
    assert Observe(ex, t.text).Seen?;
    RootlessPasses(ex, t.text);
    PassedOne(ex, t);
  }

  /** The root passes without its quotes, and the end of the block unchanged. */
  lemma RootValuePasses(ex: Extractor, t: Tables, path: string, host: string, root: string)
    requires var x := Enter(Named(t, path, host), StaticType); Shape(ex) == x.(flags := x.flags.(saveRoot := true))
    ensures var c := [Token(StatementEnd, ";")] + [Token(EndBlock, "}")];
            Passed(ex, [WordToken(Quote(root))] + c) == Some([WordToken(root)] + c)
  {
    var q, c := [WordToken(Quote(root))], [Token(StatementEnd, ";")] + [Token(EndBlock, "}")];
    var y := RaiseFlags(Resting(WithRoot(t, path, root), "", host), root);
    assert NoRoot(c);
    hide Enter, Named, Resting, Quote, Observe, RaiseFlags, Leads, Shape, WithRoot, Rootless;
    RootObserved(ex, t, path, host, root);
    RootlessAfterRoot(WithRoot(t, path, root), host, root);
    LeadsRootEnd(WithRoot(t, path, root), host, root);
    PassedOne(ex, q[0]);
    var next := AfterToken(Observe(ex, q[0].text).ex, Normal);
    assert q[1..] == [] && Extract(ex, q) == Extract(next, []) == Some(next);
    hide Passed, Extract, NoRoot;
    LeadsRootless(next, y, c, Resting(WithRoot(t, path, root), "", host));
    PassedThen(ex, q, c);
  }

  lemma StaticPasses(ex: Extractor, t: Tables, was: string, host: string, path: string, root: string)
    requires Shape(ex) == Resting(t, was, host)
    ensures Passed(ex, StatementTokens(StatementOf(Static(path, root))))
            == Some(StatementTokens(TreeOf(Static(path, root))))
  {
    var d, e := Static(path, root), Enter(Named(t, path, host), StaticType);
    var a, r := WordTokens(LocationWords(path, StaticType)) + [Token(StartBlock, "{")],
         [WordToken(KeywordText(RootWord))];
    var q, c := [WordToken(Quote(root))], [Token(StatementEnd, ";")] + [Token(EndBlock, "}")];
    assert Rootless(Resting(t, was, host).flags);
    RootHead(t, was, host, path);
    HeadNoRoot(path, StaticType);
    StaticTokens(path, root);
    hide Leads, Enter, Named, Resting, LocationWords, KeywordText, WordTokens, NoRoot, Quote, Passed, Extract, Shape,
         Observe, RaiseFlags,
         StatementTokens, StatementOf, TreeOf;
    LeadsRootless(ex, Resting(t, was, host), a, e);
    var e1 := Extract(ex, a).value;
    var e2 := RootWordPasses(e1, e);
    RootValuePasses(e2, t, path, host, root);
    PassedThen(e1, r, q + c);
    PassedThen(ex, a, r + (q + c));
  }

  lemma DeclarationPasses(ex: Extractor, t: Tables, was: string, host: string, d: Declaration)
    requires CanDeclare(d) && Shape(ex) == Resting(t, was, host)
    ensures Passed(ex, StatementTokens(StatementOf(d))) == Some(StatementTokens(TreeOf(d)))
  {
    assert Rootless(Resting(t, was, host).flags);
    hide Shape, Resting, Passed, Extract, StatementTokens, StatementOf, Leads, NoRoot;
    if d.Static? {
      StaticPasses(ex, t, was, host, d.path, d.root);
    } else {
      var path, last := DeclarationLeads(t, was, host, d);
      StatementNoRoot(d);
      LeadsRootless(ex, Resting(t, was, host), StatementTokens(StatementOf(d)), Resting(Record(t, d), path, last));
    }
  }

  lemma LeadsTo(ex: Extractor, x: Extractor, ts: seq<Token>, y: Extractor)
    requires Shape(ex) == x && Leads(x, ts, y)
    ensures Extract(ex, ts).Some? && Shape(Extract(ex, ts).value) == y
  {}

  lemma EndPasses(ex: Extractor, t: Tables, was: string, host: string)
    requires Shape(ex) == Resting(t, was, host)
    ensures Passed(ex, [Token(Eof, "")]) == Some([Token(Eof, "")])
  {
    OtherTexts();
    hide KeywordOf, TypeOf, RaiseFlags;
    QuietObserve(ex, "");
    PassedOne(ex, Token(Eof, ""));
  }

  lemma {:induction false} DeclarationsPass(ex: Extractor, t: Tables, was: string, host: string, ds: seq<Declaration>)
    requires AllDeclare(ds) && Shape(ex) == Resting(t, was, host)
    ensures Passed(ex, ConfigTokens(ConfigOf(ds)) + [Token(Eof, "")])
            == Some(ConfigTokens(TreesOf(ds)) + [Token(Eof, "")])
    decreases |ds|
  {
    hide Shape, Resting, Passed, Extract, StatementTokens, StatementOf, TreeOf, Leads, NoRoot;
    var end := [Token(Eof, "")];
    if ds == [] {
      assert [] + end == end;
      EndPasses(ex, t, was, host);
    } else {
      var path, last := DeclarationLeads(t, was, host, ds[0]);
      DeclarationPasses(ex, t, was, host, ds[0]);
      var a := StatementTokens(StatementOf(ds[0]));
      LeadsTo(ex, Resting(t, was, host), a, Resting(Record(t, ds[0]), path, last));
      var next := Extract(ex, a).value;
      DeclarationsPass(next, Record(t, ds[0]), path, last, ds[1..]);
      PassedThen(ex, a, ConfigTokens(ConfigOf(ds[1..])) + end);
      assert ConfigOf(ds)[1..] == ConfigOf(ds[1..]) && TreesOf(ds)[1..] == TreesOf(ds[1..]);
      assert ConfigTokens(ConfigOf(ds)) + end == a + (ConfigTokens(ConfigOf(ds[1..])) + end);
      assert ConfigTokens(TreesOf(ds)) + end == StatementTokens(TreeOf(ds[0])) + (ConfigTokens(TreesOf(ds[1..])) + end);
    }
  }

  // ---- The tree ----

  lemma {:induction false} WordsUncommented(ws: seq<string>)
    ensures forall i :: 0 <= i < |WordTokens(ws)| ==> !WordTokens(ws)[i].kind.Comment?
  {
    if ws != [] { WordsUncommented(ws[1..]); }
  }

  lemma {:induction false} TreeUncommented(ss: seq<Statement>)
    ensures forall i :: 0 <= i < |ConfigTokens(ss)| ==> !ConfigTokens(ss)[i].kind.Comment?
    decreases ss
  {
    if ss != [] {
      StatementUncommented(ss[0]);
      TreeUncommented(ss[1..]);
    }
  }

  lemma {:induction false} StatementUncommented(s: Statement)
    ensures forall i :: 0 <= i < |StatementTokens(s)| ==> !StatementTokens(s)[i].kind.Comment?
    decreases s
  {
    WordsUncommented(s.words);
    if s.Block? { TreeUncommented(s.statements); }
  }

  lemma TreeIsStatement(d: Declaration)
    requires CanDeclare(d)
    ensures IsStatement(TreeOf(d))
  {
    if d.Static? {
      assert IsStatement(Setting(RootWord, d.root));
    } else {
      hide StatementOf, StatementFits;
      StatementFit(d);
    }
  }

  lemma {:induction false} TreesAreConfig(ds: seq<Declaration>)
    requires AllDeclare(ds)
    ensures IsConfig(TreesOf(ds))
  {
    hide StatementOf, IsStatement, CanDeclare;
    if ds != [] {
      TreeIsStatement(ds[0]);
      TreesAreConfig(ds[1..]);
    }
  }

  lemma TreeDiffers(d: Declaration)
    ensures TreeOf(d) == StatementOf(d) <==> !d.Static?
  {
    hide LocationWords, KeywordText;
    if d.Static? {
      assert |Quote(d.root)| == |d.root| + 2;
      assert StatementOf(d).statements == [Setting(RootWord, Quote(d.root))];
      assert Setting(RootWord, Quote(d.root)).words[1] != Setting(RootWord, d.root).words[1];
      assert StatementOf(d).statements[0] != TreeOf(d).statements[0];
    }
  }

  lemma {:induction false} TreesDiffer(ds: seq<Declaration>)
    ensures TreesOf(ds) == ConfigOf(ds) <==> forall i :: 0 <= i < |ds| ==> !ds[i].Static?
  {
    hide TreeOf, StatementOf;
    if ds != [] {
      TreeDiffers(ds[0]);
      TreesDiffer(ds[1..]);
      assert TreesOf(ds)[0] == TreeOf(ds[0]) && ConfigOf(ds)[0] == StatementOf(ds[0]);
      assert TreesOf(ds)[1..] == TreesOf(ds[1..]) && ConfigOf(ds)[1..] == ConfigOf(ds[1..]);
      if !ds[0].Static? && forall i :: 0 <= i < |ds[1..]| ==> !ds[1..][i].Static? {
        forall i | 0 <= i < |ds| ensures !ds[i].Static? { if i > 0 { assert ds[i] == ds[1..][i - 1]; } }
      }
    }
  }

  /** The tree of declarations in the plainest layout. */
  lemma PrintedTree(ds: seq<Declaration>)
    requires AllDeclare(ds)
    ensures var o := ParseText(Print(ConfigOf(ds)));
            && o.Accepted? && o.statements == TreesOf(ds)
  {
    var end, ts, us := Token(Eof, ""), ConfigTokens(ConfigOf(ds)), ConfigTokens(TreesOf(ds));
    DeclarationsPass(BEGIN, NO_TABLES, "", "", ds);
    ConfigFits(ds);
    ConfigWritable(ConfigOf(ds));
    TokensOfWritten(ts);
    TreeUncommented(TreesOf(ds));
    NothingUncommented(us);
    TreesAreConfig(ds);
    hide Passed, ParseTokens, RunTokens, ConfigTokens, Tokens, Uncommented, IsConfig, WordsFit, AllWritable, ConfigOf,
         TreesOf, AllDeclare;
    GrammarIsAccepted(us, end, TreesOf(ds));
    StartIsValid();
    TokensEnd(Print(ConfigOf(ds)));
    ParseIsRecognition(BEGIN, START, ts + [end]);
  }

  /** Declarations in any layout, with any comments but those right after a word that asks for a value, come back as
      their tree with every root unquoted; so the tree is the one that was written exactly when no static
      handler is declared. */
  lemma DeclaredTree(text: string, ds: seq<Declaration>)
    requires AllDeclare(ds) && Spells(text, ConfigTokens(ConfigOf(ds))) && Calm(Tokens(text))
    ensures var o := ParseText(text);
            && o.Accepted? && o.statements == TreesOf(ds)
            && (o.statements == ConfigOf(ds) <==> forall i :: 0 <= i < |ds| ==> !ds[i].Static?)
  {
    hide ParseText, Tokens, Spells, ConfigTokens, TreesOf, Calm;
    PrintedTree(ds);
    PrintIsCalm(ds);
    SameWithoutComments(text, Print(ConfigOf(ds)), ConfigTokens(ConfigOf(ds)));
    TreesDiffer(ds);
  }
}
