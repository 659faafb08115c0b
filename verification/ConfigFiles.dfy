/** Configuration files as they are written by hand: a declaration to a few lines, and lines of comment. */
module ConfigFiles {
  import opened Text
  import opened ConfigLexer
  import opened ConfigGrammar
  import opened ConfigText
  import opened ConfigExtraction
  import opened ConfigParsing
  import opened ConfigDeclarations
  import opened ConfigAwaits
  import opened ConfigProperties
  import opened ConfigSteps
  import opened ConfigComments
  import opened ConfigTables
  import opened ConfigRouting
  import opened Dispatching

  datatype Entry = Declare(d: Declaration) | Note(text: string)

  function FieldText(f: Field): string {
    match f.name
    case HostField => "  host \"" + f.value + "\";\n"
    case PortField => "  port \"" + f.value + "\";\n"
    case UsernameField => "  username \"" + f.value + "\";\n"
    case PasswordField => "  password \"" + f.value + "\";\n"
  }

  function FieldTexts(fs: seq<Field>): string { if fs == [] then "" else FieldText(fs[0]) + FieldTexts(fs[1..]) }

  function HeadText(path: string, name: string): string { "location \"" + path + "\" " + name + " {\n" }

  function BlockText(path: string, name: string, inside: string): string { HeadText(path, name) + inside + "}\n" }

  function DeclarationText(d: Declaration): string {
    match d
    case Listen(port) => "port " + Decimal(port) + ";\n"
    case Echo(path) => BlockText(path, "EchoHandler", "")
    case Status(path) => BlockText(path, "StatusHandler", "")
    case Health(path) => BlockText(path, "HealthHandler", "")
    case UploadForm(path) => BlockText(path, "UploadFormHandler", "")
    case Static(path, root) => BlockText(path, "StaticHandler", "  root \"" + root + "\";\n")
    case Redirect(path, host) => BlockText(path, "RedirectHandler", "  host \"" + host + "\";\n")
    case Proxy(path, host, port) =>
      BlockText(path, "ProxyHandler", ("  host \"" + host + "\";\n") + ("  port " + Decimal(port) + ";\n"))
    case Blog(path, fields) => BlockText(path, "BlogHandler", FieldTexts(fields))
  }

  function EntryText(e: Entry): string {
    match e
    case Declare(d) => DeclarationText(d)
    case Note(text) => "#" + text + "\n"
  }

  function FileText(es: seq<Entry>): string { if es == [] then "" else EntryText(es[0]) + FileText(es[1..]) }

  function DeclaredIn(es: seq<Entry>): seq<Declaration> {
    if es == [] then [] else (if es[0].Declare? then [es[0].d] else []) + DeclaredIn(es[1..])
  }

  ghost predicate CanWrite(es: seq<Entry>) {
    forall i :: 0 <= i < |es| ==> if es[i].Declare? then CanDeclare(es[i].d) else NoLineEnd(es[i].text)
  }

  // ---- Layouts laid end to end ----

  /** The pieces are a layout of the text, with these tokens, comments included. */
  ghost predicate Lays(ps: seq<Piece>, text: string, ts: seq<Token>) {
    Fits(ps) && LaidOut(ps) == text && Marks(ps) == ts
  }

  lemma {:induction false} LaysJoin(a: seq<Piece>, s: string, ts: seq<Token>, b: seq<Piece>, u: string, us: seq<Token>)
    requires Lays(a, s, ts) && Lays(b, u, us)
    ensures Lays(a + b, s + u, ts + us)
    decreases |a|
  {
    hide IsPiece, StartsBreaking, PieceText, MarkOf, IsBare;
    if a == [] {
      assert a + b == b && s + u == u && ts + us == us;
    } else {
      var more, all := a[1..], a + b;
      LaysJoin(more, LaidOut(more), Marks(more), b, u, us);
      assert all[0] == a[0] && all[1..] == more + b && all != [];
      Assoc(PieceText(a[0]), LaidOut(more), u);
      Assoc(MarkOf(a[0]), Marks(more), us);
      if a[0].Mark? && a[0].t.kind.Normal? && IsBare(a[0].t.text) { StillBreaking(LaidOut(more), u); }
    }
  }

  lemma LaysNothing()
    ensures Lays([], "", [])
  {}

  lemma LaysBlank(c: char)
    requires c == ' ' || c == '\n'
    ensures Lays([Blank(c)], [c], [])
  {
    assert [Blank(c)][1..] == [] && LaidOut([]) == "" && Marks([]) == [];
  }

  /** A word and the blank that ends it, or any other token. */
  lemma LaysWord(w: string)
    requires IsWord(w)
    ensures Lays([Mark(WordToken(w)), Blank(' ')], w + " ", [WordToken(w)])
  {
    var ps := [Mark(WordToken(w)), Blank(' ')];
    LaysBlank(' ');
    assert ps[1..] == [Blank(' ')] && LaidOut(ps[1..]) == " " && Marks(ps[1..]) == [];
    assert Marks(ps) == [WordToken(w)] + [];
  }

  lemma LaysToken(t: Token)
    requires IsWritable(t) && !t.kind.Normal?
    ensures Lays([Mark(t)], t.text, [t])
  {
    var ps := [Mark(t)];
    assert ps[1..] == [] && LaidOut([]) == "" && Marks([]) == [] && t.text + "" == t.text && [t] + [] == [t];
  }

  /** A value and the semicolon that ends it. */
  lemma LaysValue(v: string)
    requires IsWord(v)
    ensures Lays([Mark(WordToken(v)), Mark(Token(StatementEnd, ";"))], v + ";",
                 [WordToken(v)] + [Token(StatementEnd, ";")])
  {
    var ps := [Mark(WordToken(v)), Mark(Token(StatementEnd, ";"))];
    LaysToken(Token(StatementEnd, ";"));
    assert ps[1..] == [Mark(Token(StatementEnd, ";"))];
    assert LaidOut(ps[1..]) == ";" && Marks(ps[1..]) == [Token(StatementEnd, ";")];
  }

  lemma LineEnd(text: string)
    ensures PieceText(Remark(text, '\n')) + "" == "#" + text + "\n"
  {
    assert ['\n'] == "\n";
  }

  lemma LaysNote(text: string)
    requires NoLineEnd(text)
    ensures Lays([Remark(text, '\n')], "#" + text + "\n", [Token(Comment, "#" + text)])
  {
    var ps := [Remark(text, '\n')];
    assert ps[1..] == [] && LaidOut([]) == "" && Marks([]) == [];
    assert LaidOut(ps) == PieceText(ps[0]) + LaidOut(ps[1..]) == "#" + text + "\n" by { LineEnd(text); }
    assert [Token(Comment, "#" + text)] + [] == [Token(Comment, "#" + text)];
    assert Marks(ps) == [Token(Comment, "#" + text)] + Marks(ps[1..]);
  }

  // ---- Lines ----

  /** Some pieces lay out the text with these tokens. */
  ghost predicate Reads(text: string, ts: seq<Token>) { exists ps :: Lays(ps, text, ts) }

  lemma ReadsJoin(s: string, ts: seq<Token>, u: string, us: seq<Token>)
    requires Reads(s, ts) && Reads(u, us)
    ensures Reads(s + u, ts + us)
  {
    hide Lays;
    var a :| Lays(a, s, ts);
    var b :| Lays(b, u, us);
    LaysJoin(a, s, ts, b, u, us);
  }

  lemma ReadsBlank(c: char)
    requires c == ' ' || c == '\n'
    ensures Reads([c], [])
  {
    LaysBlank(c);
  }

  lemma ReadsWord(w: string)
    requires IsWord(w)
    ensures Reads(w + " ", [WordToken(w)])
  {
    LaysWord(w);
  }

  lemma AssocThree(a: string, b: string, c: string)
    ensures a + (b + c) == a + b + c
  {}

  lemma AssocTokens(a: seq<Token>, b: seq<Token>, c: seq<Token>)
    ensures a + (b + c) == a + b + c
  {}

  lemma ReadsValue(v: string)
    requires IsWord(v)
    ensures Reads(v + ";\n", [WordToken(v)] + [Token(StatementEnd, ";")])
  {
    LaysValue(v);
    ReadsBlank('\n');
    var ts, none := [WordToken(v)] + [Token(StatementEnd, ";")], [];
    assert Reads(v + ";", ts);
    hide Reads, IsWord;
    ReadsJoin(v + ";", ts, ['\n'], none);
    assert v + ";" + ['\n'] == v + ";\n" && ts + none == ts;
  }

  /** `keyword value;` at the end of a line. */
  lemma ReadsSetting(w: Keyword, v: string)
    requires IsWord(v)
    ensures Reads(KeywordText(w) + " " + v + ";\n", StatementTokens(Setting(w, v)))
  {
    var k, end := KeywordText(w), [Token(StatementEnd, ";")];
    KeywordIsBare(w);
    ReadsValue(v);
    ReadsWord(k);
    SettingTokens(w, v);
    hide Reads, IsWord, KeywordText, Setting, StatementTokens;
    ReadsJoin(k + " ", [WordToken(k)], v + ";\n", [WordToken(v)] + end);
    AssocThree(k + " ", v, ";\n");
    AssocTokens([WordToken(k)], [WordToken(v)], end);
  }

  lemma ReadsTwoBlanks()
    ensures Reads("  ", [])
  {
    ReadsBlank(' ');
    hide Reads;
    var none: seq<Token> := [];
    ReadsJoin([' '], none, [' '], none);
    assert [' '] + [' '] == "  " && none + none == none;
  }

  lemma ReadsIndented(s: string, ts: seq<Token>)
    requires Reads(s, ts)
    ensures Reads("  " + s, ts)
  {
    ReadsTwoBlanks();
    hide Reads;
    var none: seq<Token> := [];
    ReadsJoin("  ", none, s, ts);
    assert none + ts == ts;
  }

  lemma ReadsMark(t: Token)
    requires t == Token(StartBlock, "{") || t == Token(EndBlock, "}")
    ensures Reads(t.text + "\n", [t])
  {
    LaysToken(t);
    assert Reads(t.text, [t]);
    ReadsBlank('\n');
    hide Reads;
    var none: seq<Token> := [];
    ReadsJoin(t.text, [t], ['\n'], none);
    assert ['\n'] == "\n" && [t] + none == [t];
  }

  lemma ReadsClose()
    ensures Reads("}\n", [Token(EndBlock, "}")])
  {
    ReadsMark(Token(EndBlock, "}"));
    hide Reads;
    assert "}" + "\n" == "}\n";
  }

  lemma HeadIs(path: string, n: string)
    ensures "location" + " " + (Quote(path) + " ") + (n + " ") + "{\n" == HeadText(path, n)
  {
    assert "location \"" == "location" + " " + ['\"'] && "\" " == ['\"'] + " " && " {\n" == " " + "{\n";
  }

  /** `location "path" Type {` */
  lemma ReadsHead(path: string, h: HandlerType)
    requires Quotable(path)
    ensures Reads(HeadText(path, TypeName(h)), WordTokens(LocationWords(path, h)) + [Token(StartBlock, "{")])
  {
    var l, q, n := "location", Quote(path), TypeName(h);
    KeywordIsBare(LocationWord);
    assert KeywordText(LocationWord) == l && "{" + "\n" == "{\n";
    QuoteIsWord(path);
    TypeIsBare(h);
    ThreeWords(l, q, n);
    hide Reads, TypeName, Quote, IsWord, WordTokens, KeywordText;
    ReadsWord(l);
    ReadsWord(q);
    ReadsWord(n);
    ReadsMark(Token(StartBlock, "{"));
    ReadsJoin(l + " ", [WordToken(l)], q + " ", [WordToken(q)]);
    ReadsJoin(l + " " + (q + " "), [WordToken(l)] + [WordToken(q)], n + " ", [WordToken(n)]);
    ReadsJoin(l + " " + (q + " ") + (n + " "), [WordToken(l)] + [WordToken(q)] + [WordToken(n)],
              "{\n", [Token(StartBlock, "{")]);
    HeadIs(path, n);
  }

  /** A location with its settings. */
  lemma ReadsBlock(path: string, h: HandlerType, inside: string, ss: seq<Statement>)
    requires Quotable(path) && Reads(inside, ConfigTokens(ss))
    ensures Reads(BlockText(path, TypeName(h), inside), StatementTokens(Block(LocationWords(path, h), ss)))
  {
    var head, open, end := HeadText(path, TypeName(h)), [Token(StartBlock, "{")], [Token(EndBlock, "}")];
    var words := WordTokens(LocationWords(path, h));
    ReadsHead(path, h);
    ReadsClose();
    BlockTokens(LocationWords(path, h), ss);
    hide Reads, TypeName, WordTokens, ConfigTokens, LocationWords, StatementTokens, HeadText;
    ReadsJoin(head, words + open, inside, ConfigTokens(ss));
    ReadsJoin(head + inside, words + open + ConfigTokens(ss), "}\n", end);
  }

  lemma Regroup(a: string, b: string, c: string, q: string, v: string, e: string)
    ensures a + (b + c + (q + v + q) + e) == a + b + (c + q) + v + (q + e)
  {}

  lemma QuotedText(k: string, v: string)
    ensures "  " + (k + " " + Quote(v) + ";\n") == "  " + k + " \"" + v + "\";\n"
  {
    assert " \"" == " " + ['\"'] && "\";\n" == ['\"'] + ";\n";
    Regroup("  ", k, " ", ['\"'], v, ";\n");
  }

  lemma ReadsQuoted(w: Keyword, k: string, v: string)
    requires Quotable(v) && KeywordText(w) == k
    ensures Reads("  " + k + " \"" + v + "\";\n", StatementTokens(Setting(w, Quote(v))))
  {
    hide Reads, KeywordText, StatementTokens, Setting, IsWord, Quotable;
    QuoteIsWord(v);
    ReadsSetting(w, Quote(v));
    ReadsIndented(k + " " + Quote(v) + ";\n", StatementTokens(Setting(w, Quote(v))));
    QuotedText(k, v);
  }

  lemma ReadsNumber(w: Keyword, k: string, n: nat)
    requires KeywordText(w) == k
    ensures Reads(k + " " + Decimal(n) + ";\n", StatementTokens(Setting(w, Decimal(n))))
  {
    DecimalRoundTrip(n);
    DigitsAreBare(Decimal(n));
    ReadsSetting(w, Decimal(n));
  }

  lemma ReadsNothing()
    ensures Reads("", []) && ConfigTokens([]) == []
  {
    LaysNothing();
  }

  lemma ReadsField(f: Field)
    requires Quotable(f.value)
    ensures Reads(FieldText(f), StatementTokens(Setting(FieldWord(f.name), Quote(f.value))))
  {
    hide Reads, StatementTokens, Setting, Quote, Quotable;
    match f.name
    case HostField => ReadsQuoted(HostWord, "host", f.value); assert "  " + "host" + " \"" == "  host \"";
    case PortField => ReadsQuoted(PortWord, "port", f.value); assert "  " + "port" + " \"" == "  port \"";
    case UsernameField =>
      ReadsQuoted(UsernameWord, "username", f.value);
      assert "  " + "username" + " \"" == "  username \"";
    case PasswordField =>
      ReadsQuoted(PasswordWord, "password", f.value);
      assert "  " + "password" + " \"" == "  password \"";
  }

  lemma {:induction false} ReadsFields(fs: seq<Field>)
    requires AllQuotable(fs)
    ensures Reads(FieldTexts(fs), ConfigTokens(FieldSettings(fs)))
    decreases |fs|
  {
    hide Reads, StatementTokens, Setting, Quote, FieldText;
    if fs == [] {
      ReadsNothing();
    } else {
      ReadsField(fs[0]);
      ReadsFields(fs[1..]);
      var s := Setting(FieldWord(fs[0].name), Quote(fs[0].value));
      assert ([s] + FieldSettings(fs[1..]))[1..] == FieldSettings(fs[1..]);
      ReadsJoin(FieldText(fs[0]), StatementTokens(s), FieldTexts(fs[1..]), ConfigTokens(FieldSettings(fs[1..])));
    }
  }

  /** The settings inside the block of a declaration. */
  function InsideText(d: Declaration): string {
    match d
    case Static(_, root) => "  root \"" + root + "\";\n"
    case Redirect(_, host) => "  host \"" + host + "\";\n"
    case Proxy(_, host, port) => ("  host \"" + host + "\";\n") + ("  port " + Decimal(port) + ";\n")
    case Blog(_, fields) => FieldTexts(fields)
    case _ => ""
  }

  lemma ReadsProxy(host: string, port: nat)
    requires Quotable(host)
    ensures Reads(("  host \"" + host + "\";\n") + ("  port " + Decimal(port) + ";\n"),
                  ConfigTokens([Setting(HostWord, Quote(host)), Setting(PortWord, Decimal(port))]))
  {
    var a, b := Setting(HostWord, Quote(host)), Setting(PortWord, Decimal(port));
    hide Reads, StatementTokens, Setting, Quote, Quotable, Decimal, ConfigTokens;
    ReadsQuoted(HostWord, "host", host);
    ReadsNumber(PortWord, "port", port);
    ReadsIndented("port" + " " + Decimal(port) + ";\n", StatementTokens(b));
    assert "  " + "host" + " \"" == "  host \"";
    assert "  " + ("port" + " " + Decimal(port) + ";\n") == "  port " + Decimal(port) + ";\n" by {
      assert "  " + ("port" + " ") == "  port ";
    }
    TwoStatements(a, b);
    ReadsJoin("  host \"" + host + "\";\n", StatementTokens(a), "  port " + Decimal(port) + ";\n", StatementTokens(b));
  }

  lemma ReadsInside(d: Declaration)
    requires CanDeclare(d)
    ensures Reads(InsideText(d), ConfigTokens(SettingsOf(d)))
  {
    hide Reads, StatementTokens, Setting, Quote, Quotable, Decimal, ConfigTokens;
    ReadsNothing();
    match d
    case Static(_, root) =>
      ReadsQuoted(RootWord, "root", root);
      OneStatement(Setting(RootWord, Quote(root)));
      assert "  " + "root" + " \"" == "  root \"";
    case Redirect(_, host) =>
      ReadsQuoted(HostWord, "host", host);
      OneStatement(Setting(HostWord, Quote(host)));
      assert "  " + "host" + " \"" == "  host \"";
    case Proxy(_, host, port) => ReadsProxy(host, port);
    case Blog(_, fields) => ReadsFields(fields);
    case _ =>
  }

  lemma LocationText(d: Declaration)
    requires !d.Listen?
    ensures DeclarationText(d) == BlockText(d.path, TypeName(KindOf(d)), InsideText(d))
  {
    hide FieldTexts, Decimal, BlockText;
  }

  lemma ReadsDeclaration(d: Declaration)
    requires CanDeclare(d)
    ensures Reads(DeclarationText(d), StatementTokens(StatementOf(d)))
  {
    hide Reads, StatementTokens, ConfigTokens, TypeName, InsideText, SettingsOf, Setting, Quote, Decimal, KindOf,
         LocationWords, BlockText;
    if d.Listen? {
      ReadsNumber(PortWord, "port", d.port);
      assert "port" + " " == "port ";
    } else {
      LocationText(d);
      ReadsInside(d);
      ReadsBlock(d.path, KindOf(d), InsideText(d), SettingsOf(d));
    }
  }

  // ---- Files ----

  /** The tokens of a file, comments included. */
  function EntryTokens(e: Entry): seq<Token> {
    match e
    case Declare(d) => StatementTokens(StatementOf(d))
    case Note(text) => [Token(Comment, "#" + text)]
  }

  function FileTokens(es: seq<Entry>): seq<Token> {
    if es == [] then [] else EntryTokens(es[0]) + FileTokens(es[1..])
  }

  lemma ReadsNote(text: string)
    requires NoLineEnd(text)
    ensures Reads("#" + text + "\n", [Token(Comment, "#" + text)])
  {
    LaysNote(text);
  }

  lemma {:induction false} ReadsFile(es: seq<Entry>)
    requires CanWrite(es)
    ensures Reads(FileText(es), FileTokens(es))
  {
    hide Reads, StatementTokens, StatementOf, DeclarationText, CanDeclare;
    if es == [] {
      ReadsNothing();
    } else {
      if es[0].Declare? { ReadsDeclaration(es[0].d); } else { ReadsNote(es[0].text); }
      ReadsFile(es[1..]);
      ReadsJoin(EntryText(es[0]), EntryTokens(es[0]), FileText(es[1..]), FileTokens(es[1..]));
    }
  }

  lemma {:induction false} UncommentedJoin(a: seq<Token>, b: seq<Token>)
    ensures Uncommented(a + b) == Uncommented(a) + Uncommented(b)
  {
    if a == [] {
      assert a + b == b && Uncommented(a) + Uncommented(b) == Uncommented(b);
    } else {
      var all, first := a + b, if a[0].kind.Comment? then [] else [a[0]];
      UncommentedJoin(a[1..], b);
      assert all[0] == a[0] && all[1..] == a[1..] + b && all != [];
      Assoc(first, Uncommented(a[1..]), Uncommented(b));
    }
  }

  lemma StatementIsCalm(d: Declaration)
    requires CanDeclare(d)
    ensures var ts := StatementTokens(StatementOf(d));
            Uncommented(ts) == ts && ts != [] && !ts[|ts| - 1].kind.Normal?
            && forall i :: 0 <= i < |ts| ==> !IsRemark(ts[i])
  {
    StatementFit(d);
    hide CanDeclare, StatementFits, IsStatement, IsWord;
    StatementWritable(StatementOf(d));
    var ts := StatementTokens(StatementOf(d));
    WritableUncommented(ts);
    forall i | 0 <= i < |ts| ensures !IsRemark(ts[i]) { assert IsWritable(ts[i]); }
  }

  /** A comment in a file stands at its start, after a statement or after a comment. */
  ghost predicate Settled(ts: seq<Token>) {
    forall i :: 0 < i < |ts| && IsRemark(ts[i]) ==> !ts[i - 1].kind.Normal?
  }

  lemma SettledJoin(a: seq<Token>, b: seq<Token>)
    requires Settled(a) && Settled(b) && (a != [] ==> !a[|a| - 1].kind.Normal?)
    ensures Settled(a + b)
  {
    var c := a + b;
    forall i | 0 < i < |c| && IsRemark(c[i]) ensures !c[i - 1].kind.Normal? {
      if i > |a| { assert c[i] == b[i - |a|] && c[i - 1] == b[i - 1 - |a|]; }
    }
  }

  lemma {:induction false} FileIsSettled(es: seq<Entry>)
    requires CanWrite(es)
    ensures Settled(FileTokens(es))
    ensures Uncommented(FileTokens(es)) == ConfigTokens(ConfigOf(DeclaredIn(es)))
  {
    hide StatementTokens, StatementOf, CanDeclare, IsRemark;
    if es != [] {
      var ts, later := EntryTokens(es[0]), FileTokens(es[1..]);
      FileIsSettled(es[1..]);
      UncommentedJoin(ts, later);
      if es[0].Declare? {
        StatementIsCalm(es[0].d);
        var ds := DeclaredIn(es[1..]);
        assert DeclaredIn(es) == [es[0].d] + ds && DeclaredIn(es)[1..] == ds;
        assert ConfigOf(DeclaredIn(es))[1..] == ConfigOf(ds);
      } else {
        UncommentedOne(ts[0]);
        assert DeclaredIn(es) == [] + DeclaredIn(es[1..]) == DeclaredIn(es[1..]);
        assert [] + Uncommented(later) == Uncommented(later);
      }
      SettledJoin(ts, later);
    }
  }

  lemma SettledIsCalm(ts: seq<Token>)
    requires Settled(ts)
    ensures Calm(ts + [Token(Eof, "")])
  {
    hide Asks;
    var all := ts + [Token(Eof, "")];
    forall i | 0 < i < |all| && IsRemark(all[i]) ensures !all[i - 1].kind.Normal? {
      assert i < |ts|;
      assert ts[i] == all[i] && ts[i - 1] == all[i - 1];
    }
  }

  /** A file is a layout of its declarations. */
  lemma FileConfigures(es: seq<Entry>)
    requires CanWrite(es)
    ensures Configures(FileText(es), DeclaredIn(es))
  {
    hide FileText, FileTokens, DeclaredIn, ConfigTokens, ConfigOf, Uncommented, Settled, Calm, Tokens, Fits, LaidOut,
         Marks;
    ReadsFile(es);
    FileIsSettled(es);
    var ps :| Lays(ps, FileText(es), FileTokens(es));
    assert FileText(es) + "" == FileText(es);
    assert SpelledBy(FileText(es), ConfigTokens(ConfigOf(DeclaredIn(es))), ps, "");
    TokensOfLayout(ps, "");
    SettledIsCalm(FileTokens(es));
  }

  lemma {:induction false} DeclaredCanDeclare(es: seq<Entry>)
    requires CanWrite(es)
    ensures AllDeclare(DeclaredIn(es))
  {
    hide CanDeclare;
    if es != [] {
      DeclaredCanDeclare(es[1..]);
      if es[0].Declare? { assert DeclaredIn(es) == [es[0].d] + DeclaredIn(es[1..]); }
    }
  }

  /** From a file to the handlers: for every file of declarations and comment lines, with distinct paths and complete
      blogs, the dispatcher registers exactly the declared paths, each with the handler its declaration asks for. */
  lemma FileRoutes(es: seq<Entry>)
    requires CanWrite(es) && DistinctPaths(DeclaredIn(es)) && BlogsDeclared(DeclaredIn(es))
    ensures var o, ds := ParseText(FileText(es)), DeclaredIn(es);
            && o.Accepted?
            && (forall p :: p in Registered(o.tables, o.tables.handlerTypes) <==>
                  exists i :: 0 <= i < |ds| && Declares(ds[i], p))
            && (forall i :: 0 <= i < |ds| && !ds[i].Listen? ==>
                  ds[i].path in Registered(o.tables, o.tables.handlerTypes)
                  && Registered(o.tables, o.tables.handlerTypes)[ds[i].path] == Some(HandlerFor(ds[i])))
  {
    hide FileText, DeclaredIn, ParseText, Registered, HandlerFor, Configures, CanWrite, Disjoint;
    FileConfigures(es);
    DeclaredCanDeclare(es);
    ConfiguredRoutes(FileText(es), DeclaredIn(es));
  }

  // ---- A comment where a value is awaited ----

  lemma LeadsComment(c: string)
    ensures var x := Resting(NO_TABLES, "", "");
            Leads(x.(flags := x.flags.(savePort := true)), [Token(Comment, "#" + c)],
                  Resting(NO_TABLES.(port := PortFrom("#" + c, -1)), "", ""))
  {
    var e := Resting(NO_TABLES, "", "");
    var x, y := e.(flags := e.flags.(savePort := true)), Resting(NO_TABLES.(port := PortFrom("#" + c, -1)), "", "");
    var t := Token(Comment, "#" + c);
    CommentIsNoWord(t.text);
    hide KeywordOf, TypeOf, PortFrom;
    forall ex | Shape(ex) == x ensures StepsTo(ex, t, y) {}
    LeadsOne(x, t, y);
  }

  lemma DigitsAreQuiet(y: Extractor, d: string)
    requires NoSave(y.flags) && !y.flags.expectHandler && KeywordOf(d).None?
    ensures Leads(y, [WordToken(d)], y)
  {
    hide Leads, KeywordOf;
    LeadsQuiet(y, WordToken(d));
  }

  lemma EndIsNothing(y: Extractor)
    requires NoSave(y.flags) && !y.flags.expectHandler
    ensures Leads(y, [Token(Eof, "")], y)
  {
    OtherTexts();
    hide Leads, KeywordOf;
    LeadsQuiet(y, Token(Eof, ""));
  }

  lemma PortIsRead(text: string, all: seq<Token>, y: Extractor, ss: seq<Statement>)
    requires Tokens(text) == all && Leads(BEGIN, all, y) && Shape(BEGIN) == BEGIN
    requires IsConfig(ss) && Spells(text, ConfigTokens(ss)) && NoRoot(all)
    ensures ParseText(text).Accepted? && ParseText(text).tables.port == y.tables.port
  {
    assert Rootless(BEGIN.flags);
    hide Tokens, Extract, Passed, ParseTokens, Spells, ConfigTokens, IsConfig, NoRoot, Rootless;
    ExtractIsPassed(BEGIN, all);
    RootlessRun(BEGIN, all);
    SpelledAndParsed(text, ss);
    StartIsValid();
    TokensEnd(text);
    AcceptedTables(BEGIN, START, all);
  }

  /** The tokens of `port #c` and, on the next line, `n;`. */
  function RemarkedTokens(c: string, d: string): seq<Token> {
    [WordToken("port")] + [Token(Comment, "#" + c)] + ([WordToken(d)] + [Token(StatementEnd, ";")])
  }

  lemma RemarkedUncommented(c: string, d: string)
    ensures Uncommented(RemarkedTokens(c, d)) == [WordToken("port")] + [WordToken(d)] + [Token(StatementEnd, ";")]
  {
    var a, b, v, e := WordToken("port"), Token(Comment, "#" + c), WordToken(d), Token(StatementEnd, ";");
    UncommentedJoin([a] + [b], [v] + [e]);
    UncommentedJoin([a], [b]);
    UncommentedJoin([v], [e]);
    UncommentedOne(a);
    UncommentedOne(b);
    UncommentedOne(v);
    UncommentedOne(e);
  }

  lemma RemarkedText(c: string, d: string)
    requires NoLineEnd(c) && IsWord(d)
    ensures Tokens("port " + ("#" + c + "\n") + (d + ";")) == RemarkedTokens(c, d) + [Token(Eof, "")]
    ensures Spells("port " + ("#" + c + "\n") + (d + ";"), ConfigTokens([Setting(PortWord, d)]))
  {
    var text, s := "port " + ("#" + c + "\n") + (d + ";"), Setting(PortWord, d);
    var a, b, v := [Mark(WordToken("port")), Blank(' ')], [Remark(c, '\n')],
                   [Mark(WordToken(d)), Mark(Token(StatementEnd, ";"))];
    KeywordIsBare(PortWord);
    assert KeywordText(PortWord) == "port" && "port" + " " == "port ";
    LaysWord("port");
    LaysNote(c);
    LaysValue(d);
    hide Fits, LaidOut, Marks, Tokens, ConfigTokens, StatementTokens, IsWord, Setting, Uncommented;
    LaysJoin(a, "port ", [WordToken("port")], b, "#" + c + "\n", [Token(Comment, "#" + c)]);
    LaysJoin(a + b, "port " + ("#" + c + "\n"), [WordToken("port")] + [Token(Comment, "#" + c)], v, d + ";",
             [WordToken(d)] + [Token(StatementEnd, ";")]);
    assert text + "" == text;
    TokensOfLayout(a + b + v, "");
    SettingTokens(PortWord, d);
    OneStatement(s);
    RemarkedUncommented(c, d);
    assert SpelledBy(text, ConfigTokens([s]), a + b + v, "");
  }

  lemma RemarkedLeads(c: string, d: string)
    requires d != "" && AllDigits(d)
    ensures Leads(BEGIN, RemarkedTokens(c, d) + [Token(Eof, "")],
                  Resting(NO_TABLES.(port := PortFrom("#" + c, -1)), "", ""))
  {
    var x, y := Resting(NO_TABLES, "", ""), Resting(NO_TABLES.(port := PortFrom("#" + c, -1)), "", "");
    var a, b, w, m := [WordToken("port")], [Token(Comment, "#" + c)], [WordToken(d)], [Token(StatementEnd, ";")];
    assert BEGIN == x && NoSave(x.flags) && NoSave(y.flags) && !y.flags.expectHandler;
    assert FlagFor(x.flags, Some(PortWord)) == Some(SavePortFlag);
    assert Raise(x.flags, SavePortFlag) == x.flags.(savePort := true);
    assert KeywordText(PortWord) == "port";
    DigitsAreNoWord(d);
    hide Resting, NoSave, Leads, FlagFor, Raise, PortFrom, KeywordOf, TypeOf;
    LeadsWord(x, PortWord, SavePortFlag);
    LeadsComment(c);
    DigitsAreQuiet(y, d);
    LeadsMark(y, m[0]);
    EndIsNothing(y);
    LeadsThen(x, a, x.(flags := x.flags.(savePort := true)), b, y);
    LeadsThen(y, w, y, m, y);
    LeadsThen(x, a + b, y, w + m, y);
    LeadsThen(x, a + b + (w + m), y, [Token(Eof, "")], y);
  }

  lemma RemarkedTexts(c: string, d: string)
    requires d != "" && AllDigits(d)
    ensures NoRoot(RemarkedTokens(c, d) + [Token(Eof, "")]) && !Calm(RemarkedTokens(c, d) + [Token(Eof, "")])
  {
    var all := RemarkedTokens(c, d) + [Token(Eof, "")];
    assert all[0] == WordToken("port") && all[1] == Token(Comment, "#" + c) && all[2] == WordToken(d);
    assert all[3] == Token(StatementEnd, ";") && all[4] == Token(Eof, "") && |all| == 5;
    assert IsDigit(d[0]) && d != "root" && ("#" + c)[0] == '#';
    assert Means("port", "port") && Asks(all[0].text) && IsRemark(all[1]);
  }

  lemma NoPortInComment(c: string)
    requires ':' !in c
    ensures PortFrom("#" + c, -1) == -1
  {
    var t := "#" + c;
    FindColonInside(t);
    assert t[0] == '#' && ':' !in t && AfterColon(t) == t;
    hide FindColon;
    assert SkipSpaces(t) == t && LeadingDigits(t) == "";
  }

  lemma RestingPort(t: Tables)
    ensures Resting(t, "", "").tables == t
  {}

  /** Where a value is awaited it is the comment that is read: between the word "port" and a number, whatever the
      comment and the number are, the port is the number after the first colon of the comment, or stays unset. */
  lemma CommentTakesPort(c: string, n: nat)
    requires NoLineEnd(c)
    ensures var text := "port " + ("#" + c + "\n") + (Decimal(n) + ";");
            && Spells(text, ConfigTokens([Setting(PortWord, Decimal(n))])) && !Calm(Tokens(text))
            && ParseText(text).Accepted? && ParseText(text).tables.port == PortFrom("#" + c, -1)
    ensures ':' !in c ==> PortFrom("#" + c, -1) == -1
  {
    if ':' !in c { NoPortInComment(c); }
    var text, d := "port " + ("#" + c + "\n") + (Decimal(n) + ";"), Decimal(n);
    DecimalRoundTrip(n);
    DigitsAreBare(d);
    RemarkedText(c, d);
    RemarkedLeads(c, d);
    RemarkedTexts(c, d);
    SettingFits(PortWord, d);
    assert IsConfig([Setting(PortWord, d)]);
    assert Shape(BEGIN) == BEGIN;
    hide Leads, Decimal, PortFrom, Tokens, ConfigTokens, IsConfig, Setting, ParseText, Spells, RemarkedTokens, NoRoot,
         Calm, Resting;
    var y := Resting(NO_TABLES.(port := PortFrom("#" + c, -1)), "", "");
    PortIsRead(text, RemarkedTokens(c, d) + [Token(Eof, "")], y, [Setting(PortWord, d)]);
    RestingPort(NO_TABLES.(port := PortFrom("#" + c, -1)));
  }
}
