/** The flag machine on the tokens of a declaration, one token at a time. */
module ConfigSteps {
  import opened Text
  import opened ConfigLexer
  import opened ConfigGrammar
  import opened ConfigText
  import opened ConfigExtraction
  import opened ConfigParsing
  import opened ConfigAwaits
  import opened ConfigProperties
  import opened ConfigDeclarations

  // ---- Extraction of a token list ----

  lemma AcceptsAtEnd(r: Recognizer, t: Token)
    requires Valid(r) && Recognize(r, t).Accept?
    ensures IsLast(t) && t.kind.Eof?
  {}

  /** The tables of an accepted text are the extraction of all its tokens. */
  lemma {:induction false} AcceptedTables(ex: Extractor, r: Recognizer, ts: seq<Token>)
    requires Valid(r) && ts != [] && (forall i :: 0 <= i < |ts| - 1 ==> !IsLast(ts[i]))
    requires ParseTokens(ex, r, ts).Accepted?
    ensures Extract(ex, ts).Some? && ParseTokens(ex, r, ts).tables == Extract(ex, ts).value.tables
    decreases |ts|
  {
    hide Observe, Recognize;
    var o := Observe(ex, ts[0].text);
    var t := Token(ts[0].kind, o.text);
    RecognizeKeepsValid(r, t);
    if Recognize(r, t).Continue? {
      AcceptedTables(AfterToken(o.ex, ts[0].kind), Recognize(r, t).r, ts[1..]);
    } else {
      AcceptsAtEnd(r, t);
      assert |ts| == 1;
    }
  }

  // ---- One token ----

  /** An extractor up to the list of handler types, which also collects other tokens between a handler
      type and its value. */
  function Shape(ex: Extractor): Extractor {
    Extractor(ex.tables.(handlerTypes := []), ex.flags, {})
  }

  /** From every extractor of one shape the tokens lead to the other shape. */
  ghost predicate Leads(x: Extractor, ts: seq<Token>, y: Extractor) {
    forall ex :: Shape(ex) == x ==> Extract(ex, ts).Some? && Shape(Extract(ex, ts).value) == y
  }

  lemma LeadsThen(x: Extractor, a: seq<Token>, y: Extractor, b: seq<Token>, z: Extractor)
    requires Leads(x, a, y) && Leads(y, b, z)
    ensures Leads(x, a + b, z)
  {
    hide Extract, Shape;
    forall ex | Shape(ex) == x ensures Extract(ex, a + b).Some? && Shape(Extract(ex, a + b).value) == z {
      ExtractThen(ex, a, b);
    }
  }

  ghost predicate StepsTo(ex: Extractor, t: Token, y: Extractor) {
    var o := Observe(ex, t.text);
    o.Seen? && Shape(AfterToken(o.ex, t.kind)) == y
  }

  lemma LeadsOne(x: Extractor, t: Token, y: Extractor)
    requires forall ex :: Shape(ex) == x ==> StepsTo(ex, t, y)
    ensures Leads(x, [t], y)
  {
    hide Observe, Shape, AfterToken;
    forall ex | Shape(ex) == x ensures Extract(ex, [t]).Some? && Shape(Extract(ex, [t]).value) == y {
      assert StepsTo(ex, t, y);
      assert [t][1..] == [];
      var e := AfterToken(Observe(ex, t.text).ex, t.kind);
      assert Extract(e, []) == Some(e);
    }
  }

  lemma QuietObserve(ex: Extractor, text: string)
    requires NoSave(ex.flags) && (ex.flags.expectHandler ==> TypeOf(text).None?)
    ensures Observe(ex, text)
            == Seen(RaiseFlags(if ex.flags.expectHandler then NoteHandler(ex, text) else ex, text), text)
  {
    hide TypeOf, RaiseFlags;
  }

  lemma ShapeOfRaise(ex: Extractor, text: string)
    ensures Shape(RaiseFlags(ex, text)) == RaiseFlags(Shape(ex), text)
  {
    hide KeywordOf, FlagFor, Raise;
  }

  lemma ShapeOfNote(ex: Extractor, text: string)
    ensures Shape(NoteHandler(ex, text)) == Shape(ex)
  {}

  /** A token that is neither awaited nor a handler type only raises a flag. */
  lemma LeadsQuiet(x: Extractor, t: Token)
    requires NoSave(x.flags) && (x.flags.expectHandler ==> TypeOf(t.text).None?) && !t.kind.EndBlock?
    ensures Leads(x, [t], RaiseFlags(x, t.text))
  {
    hide Observe, RaiseFlags, NoteHandler, TypeOf;
    forall ex | Shape(ex) == x ensures StepsTo(ex, t, RaiseFlags(x, t.text)) {
      QuietObserve(ex, t.text);
      ShapeOfNote(ex, t.text);
      ShapeOfRaise(if ex.flags.expectHandler then NoteHandler(ex, t.text) else ex, t.text);
    }
    LeadsOne(x, t, RaiseFlags(x, t.text));
  }

  lemma TypeIsNoKeyword(h: HandlerType)
    ensures KeywordOf(TypeName(h)).None?
  {
    assert |TypeName(h)| > 8;
  }

  lemma TypeObserve(ex: Extractor, text: string, h: HandlerType)
    requires NoSave(ex.flags) && ex.flags.expectHandler && TypeOf(text) == Some(h) && KeywordOf(text).None?
    ensures Observe(ex, text) == Seen(Enter(NoteHandler(ex, text), h), text)
  {
    assert SaveValues(ex, text) == Seen(ex, text) && SaveBlogValues(ex, text) == Seen(ex, text);
    assert SaveHandler(ex, text) == Enter(NoteHandler(ex, text), h);
    EnterNotLocation(NoteHandler(ex, text), h);
    hide SaveValues, SaveBlogValues, SaveHandler, Enter, NoteHandler, TypeOf, KeywordOf;
  }

  lemma ShapeOfEnter(ex: Extractor, noted: Extractor, h: HandlerType)
    requires Shape(noted) == Shape(ex)
    ensures Shape(Enter(noted, h)) == Enter(Shape(ex), h)
  {
    match h
    case StaticType =>
    case RedirectType =>
    case ProxyType =>
    case BlogType =>
    case EchoType =>
    case StatusType =>
    case HealthType =>
    case UploadFormType =>
  }

  lemma LeadsType(x: Extractor, h: HandlerType)
    requires NoSave(x.flags) && x.flags.expectHandler
    ensures Leads(x, [Token(Normal, TypeName(h))], Enter(x, h))
  {
    TypeNames(h);
    TypeIsNoKeyword(h);
    forall ex | Shape(ex) == x ensures StepsTo(ex, Token(Normal, TypeName(h)), Enter(x, h)) {
      TypeObserve(ex, TypeName(h), h);
      ShapeOfNote(ex, TypeName(h));
      ShapeOfEnter(ex, NoteHandler(ex, TypeName(h)), h);
    }
    hide Enter;
    LeadsOne(x, Token(Normal, TypeName(h)), Enter(x, h));
  }

  // ---- The words of a declaration ----

  lemma QuotedIsNoWord(v: string)
    ensures KeywordOf(Quote(v)).None? && TypeOf(Quote(v)).None? && Unquote(Quote(v)) == Some(v)
  {
    assert Quote(v)[0] == '\"';
    assert Quote(v)[1..|Quote(v)| - 1] == v;
  }

  lemma KeywordTexts(w: Keyword)
    ensures KeywordOf(KeywordText(w)) == Some(w) && TypeOf(KeywordText(w)).None?
  {
    assert |KeywordText(w)| < 11;
    TypeIsLong(KeywordText(w));
  }

  lemma {:induction false} DigitsAreNoWord(s: string)
    requires s != "" && AllDigits(s)
    ensures KeywordOf(s).None? && AfterColon(s) == s
  {
    FindColonInside(s);
    assert IsDigit(s[0]);
    hide FindColon;
    forall i | 0 <= i < |s| ensures s[i] != ':' { assert IsDigit(s[i]); }
  }

  // ---- The states between the tokens of a declaration ----

  /** Reading a location, after its path. */
  function Named(t: Tables, path: string, host: string): Extractor {
    Extractor(t, NO_FLAGS.(location := path, proxyHost := host, expectHandler := true), {})
  }

  /** Between two statements. */
  function Resting(t: Tables, path: string, host: string): Extractor {
    Extractor(t, NO_FLAGS.(location := path, proxyHost := host), {})
  }

  function WordToken(text: string): Token { Token(Normal, text) }

  lemma LeadsPath(t: Tables, was: string, host: string, path: string)
    ensures var x := Resting(t, was, host);
            Leads(x.(flags := x.flags.(seenLocation := true)), [WordToken(Quote(path))], Named(t, path, host))
  {
    QuotedIsNoWord(path);
    var x := Resting(t, was, host).(flags := Resting(t, was, host).flags.(seenLocation := true));
    hide TypeOf, KeywordOf, Unquote, Quote;
    forall ex | Shape(ex) == x ensures StepsTo(ex, WordToken(Quote(path)), Named(t, path, host)) {}
    LeadsOne(x, WordToken(Quote(path)), Named(t, path, host));
  }

  lemma LeadsWord(x: Extractor, w: Keyword, flag: Flag)
    requires NoSave(x.flags) && FlagFor(x.flags, Some(w)) == Some(flag)
    ensures Leads(x, [WordToken(KeywordText(w))], x.(flags := Raise(x.flags, flag)))
  {
    KeywordTexts(w);
    hide Raise, FlagFor, KeywordOf, TypeOf, KeywordText;
    LeadsQuiet(x, WordToken(KeywordText(w)));
  }

  lemma ThreeWords(a: string, b: string, c: string)
    ensures WordTokens([a, b, c]) == [WordToken(a)] + [WordToken(b)] + [WordToken(c)]
  {
    assert [a, b, c][1..] == [b, c] && [b, c][1..] == [c] && [c][1..] == [];
    assert WordTokens([c]) == [WordToken(c)] + WordTokens([]);
    assert WordTokens([b, c]) == [WordToken(b)] + WordTokens([c]);
  }

  /** `location "path" Type` */
  lemma LeadsHead(t: Tables, was: string, host: string, path: string, h: HandlerType)
    ensures Leads(Resting(t, was, host), WordTokens(LocationWords(path, h)), Enter(Named(t, path, host), h))
  {
    var x, z := Resting(t, was, host), Named(t, path, host);
    var y := x.(flags := x.flags.(seenLocation := true));
    LeadsWord(x, LocationWord, SeenLocationFlag);
    LeadsPath(t, was, host, path);
    LeadsType(z, h);
    var a, b, c := [WordToken(KeywordText(LocationWord))], [WordToken(Quote(path))], [WordToken(TypeName(h))];
    assert WordTokens(LocationWords(path, h))
         == a + b + c by { ThreeWords(KeywordText(LocationWord), Quote(path), TypeName(h)); }
    hide Leads, Enter, Resting, Named;
    LeadsThen(x, a, y, b, z);
    LeadsThen(x, a + b, z, c, Enter(z, h));
  }

  lemma SettingTokens(w: Keyword, value: string)
    ensures StatementTokens(Setting(w, value))
         == [WordToken(KeywordText(w))] + [WordToken(value)] + [Token(StatementEnd, ";")]
  {
    hide KeywordText;
    var k := KeywordText(w);
    assert [k, value][1..] == [value] && [value][1..] == [];
    assert WordTokens([value]) == [WordToken(value)] + WordTokens([]);
    assert WordTokens([k, value]) == [WordToken(k)] + WordTokens([value]);
  }

  lemma BlockTokens(words: seq<string>, ss: seq<Statement>)
    ensures StatementTokens(Block(words, ss))
         == WordTokens(words) + [Token(StartBlock, "{")] + ConfigTokens(ss) + [Token(EndBlock, "}")]
  {}

  // ---- The values of a declaration ----

  function WithRoot(t: Tables, path: string, root: string): Tables { t.(statics := t.statics[path := root]) }

  /** The value of a root is recorded without its quotes, and passes on without them. */
  lemma RootObserved(ex: Extractor, t: Tables, path: string, host: string, root: string)
    requires var x := Enter(Named(t, path, host), StaticType); Shape(ex) == x.(flags := x.flags.(saveRoot := true))
    ensures Observe(ex, Quote(root)).Seen? && Observe(ex, Quote(root)).text == root
    ensures StepsTo(ex, WordToken(Quote(root)), RaiseFlags(Resting(WithRoot(t, path, root), "", host), root))
  {
    QuotedIsNoWord(root);
    hide KeywordOf, Unquote, Quote, RaiseFlags;
    var e := SaveRoot(ex, Quote(root)).ex;
    assert Shape(e) == Resting(WithRoot(t, path, root), "", host);
    assert Observe(ex, Quote(root)) == Seen(RaiseFlags(e, root), root);
    ShapeOfRaise(e, root);
  }

  lemma LeadsRoot(t: Tables, path: string, host: string, root: string)
    ensures var x := Enter(Named(t, path, host), StaticType);
            Leads(x.(flags := x.flags.(saveRoot := true)), [WordToken(Quote(root))],
                  RaiseFlags(Resting(WithRoot(t, path, root), "", host), root))
  {
    var e := Enter(Named(t, path, host), StaticType);
    var x, y := e.(flags := e.flags.(saveRoot := true)), RaiseFlags(Resting(WithRoot(t, path, root), "", host), root);
    hide Quote, RaiseFlags, StepsTo, Shape, Enter;
    forall ex | Shape(ex) == x ensures StepsTo(ex, WordToken(Quote(root)), y) { RootObserved(ex, t, path, host, root); }
    LeadsOne(x, WordToken(Quote(root)), y);
  }

  lemma LeadsRedirectHost(t: Tables, path: string, was: string, host: string)
    ensures var x := Enter(Named(t, path, was), RedirectType);
            Leads(x.(flags := x.flags.(saveRedirectHost := true)), [WordToken(Quote(host))],
                  Resting(t.(redirects := t.redirects[path := host]), path, was))
  {
    QuotedIsNoWord(host);
    var e := Enter(Named(t, path, was), RedirectType);
    var x, y := e.(flags := e.flags.(saveRedirectHost := true)),
         Resting(t.(redirects := t.redirects[path := host]), path, was);
    hide KeywordOf, Unquote, Quote, TypeOf;
    forall ex | Shape(ex) == x ensures StepsTo(ex, WordToken(Quote(host)), y) {}
    LeadsOne(x, WordToken(Quote(host)), y);
  }

  /** Between the host and the port of a proxy, and after both. */
  function Hosted(t: Tables, path: string, host: string): Extractor {
    Extractor(t, NO_FLAGS.(location := path, proxyHost := host, expectProxyPort := true), {})
  }

  lemma LeadsProxyHost(t: Tables, path: string, was: string, host: string)
    ensures var x := Enter(Named(t, path, was), ProxyType);
            Leads(x.(flags := x.flags.(saveProxyHost := true)), [WordToken(Quote(host))], Hosted(t, path, host))
  {
    QuotedIsNoWord(host);
    var e := Enter(Named(t, path, was), ProxyType);
    var x, y := e.(flags := e.flags.(saveProxyHost := true)), Hosted(t, path, host);
    hide KeywordOf, Unquote, Quote, TypeOf;
    forall ex | Shape(ex) == x ensures StepsTo(ex, WordToken(Quote(host)), y) {}
    LeadsOne(x, WordToken(Quote(host)), y);
  }

  /** After the proxy port has been saved the token goes on as if nothing had been awaited. */
  lemma SavedFirst(ex: Extractor, e: Extractor, text: string)
    requires !ex.flags.savePort && SaveProxyPort(ex, text) == Seen(e, text) && NoSave(e.flags)
    ensures Observe(ex, text) == Observe(e, text)
  {
    assert SaveProxyPort(SavePort(ex, text), text) == SaveProxyPort(SavePort(e, text), text);
    hide SavePort, SaveProxyPort, SaveRoot, SaveProxyHost, SaveRedirectHost, SaveBlogValues, SaveHandler,
         SaveLocation, RaiseFlags;
  }

  lemma LeadsProxyPort(t: Tables, path: string, host: string, port: nat)
    requires port <= MAX_PORT
    ensures var x := Hosted(t, path, host);
            Leads(x.(flags := x.flags.(saveProxyPort := true)), [WordToken(Decimal(port))],
                  Hosted(t.(proxies := t.proxies[path := (host, port)]), "", host))
  {
    var e := Hosted(t, path, host);
    var x, y := e.(flags := e.flags.(saveProxyPort := true)),
         Hosted(t.(proxies := t.proxies[path := (host, port)]), "", host);
    var text := Decimal(port);
    DecimalRoundTrip(port);
    StoiOfDecimal(port);
    DigitsAreNoWord(text);
    hide KeywordOf, TypeOf, Decimal, Stoi, AfterColon;
    forall ex | Shape(ex) == x ensures StepsTo(ex, WordToken(text), y) {
      var e := SaveProxyPort(ex, text).ex;
      assert Shape(e) == y;
      SavedFirst(ex, e, text);
      QuietObserve(e, text);
    }
    LeadsOne(x, WordToken(text), y);
  }

  lemma LeadsPort(t: Tables, path: string, host: string, port: nat)
    requires port <= MAX_PORT
    ensures var x := Resting(t, path, host);
            Leads(x.(flags := x.flags.(savePort := true)), [WordToken(Decimal(port))],
                  Resting(t.(port := port), path, host))
  {
    var e := Resting(t, path, host);
    var x, y := e.(flags := e.flags.(savePort := true)), Resting(t.(port := port), path, host);
    var text := Decimal(port);
    DecimalRoundTrip(port);
    StoiOfDecimal(port);
    DigitsAreNoWord(text);
    hide KeywordOf, TypeOf, Decimal, Stoi, AfterColon;
    forall ex | Shape(ex) == x ensures StepsTo(ex, WordToken(text), y) {}
    LeadsOne(x, WordToken(text), y);
  }

  function FieldFlag(n: FieldName): Flag {
    match n
    case HostField => SaveBlogIpFlag
    case PortField => SaveBlogPortFlag
    case UsernameField => SaveBlogUsernameFlag
    case PasswordField => SaveBlogPasswordFlag
  }

  /** Inside the block of a blog. */
  function InBlog(t: Tables, path: string, host: string): Extractor { Enter(Named(t, path, host), BlogType) }

  lemma HostSaved(ex: Extractor, t: Tables, path: string, host: string, f: Field, text: string) returns (e: Extractor)
    requires Unquote(text) == Some(f.value) && f.name.HostField?
    requires var x := InBlog(t, path, host); Shape(ex) == x.(flags := Raise(x.flags, FieldFlag(f.name)))
    ensures Shape(e) == InBlog(RecordField(t, path, f), path, host) && NoSave(e.flags)
    ensures SaveValues(ex, text) == Seen(ex, text) && SaveBlogValues(ex, text) == Seen(e, text)
  {
    hide Unquote;
    e := SaveBlogValues(ex, text).ex;
  }

  lemma PortSaved(ex: Extractor, t: Tables, path: string, host: string, f: Field, text: string) returns (e: Extractor)
    requires Unquote(text) == Some(f.value) && f.name.PortField?
    requires var x := InBlog(t, path, host); Shape(ex) == x.(flags := Raise(x.flags, FieldFlag(f.name)))
    ensures Shape(e) == InBlog(RecordField(t, path, f), path, host) && NoSave(e.flags)
    ensures SaveValues(ex, text) == Seen(ex, text) && SaveBlogValues(ex, text) == Seen(e, text)
  {
    hide Unquote;
    e := SaveBlogValues(ex, text).ex;
  }

  lemma UsernameSaved(ex: Extractor, t: Tables, path: string, host: string, f: Field, text: string)
    returns (e: Extractor)
    requires Unquote(text) == Some(f.value) && f.name.UsernameField?
    requires var x := InBlog(t, path, host); Shape(ex) == x.(flags := Raise(x.flags, FieldFlag(f.name)))
    ensures Shape(e) == InBlog(RecordField(t, path, f), path, host) && NoSave(e.flags)
    ensures SaveValues(ex, text) == Seen(ex, text) && SaveBlogValues(ex, text) == Seen(e, text)
  {
    hide Unquote;
    e := SaveBlogValues(ex, text).ex;
  }

  lemma PasswordSaved(ex: Extractor, t: Tables, path: string, host: string, f: Field, text: string)
    returns (e: Extractor)
    requires Unquote(text) == Some(f.value) && f.name.PasswordField?
    requires var x := InBlog(t, path, host); Shape(ex) == x.(flags := Raise(x.flags, FieldFlag(f.name)))
    ensures Shape(e) == InBlog(RecordField(t, path, f), path, host) && NoSave(e.flags)
    ensures SaveValues(ex, text) == Seen(ex, text) && SaveBlogValues(ex, text) == Seen(e, text)
  {
    hide Unquote;
    e := SaveBlogValues(ex, text).ex;
  }

  lemma SavedSecond(ex: Extractor, e: Extractor, text: string)
    requires SaveValues(ex, text) == Seen(ex, text) && SaveBlogValues(ex, text) == Seen(e, text) && NoSave(e.flags)
    ensures Observe(ex, text) == Observe(e, text)
  {
    assert SaveValues(e, text) == Seen(e, text) && SaveBlogValues(e, text) == Seen(e, text);
    hide SaveValues, SaveBlogValues, SaveHandler, SaveLocation, RaiseFlags;
  }

  lemma FieldSaved(ex: Extractor, t: Tables, path: string, host: string, f: Field, text: string) returns (e: Extractor)
    requires Unquote(text) == Some(f.value)
    requires var x := InBlog(t, path, host); Shape(ex) == x.(flags := Raise(x.flags, FieldFlag(f.name)))
    ensures Shape(e) == InBlog(RecordField(t, path, f), path, host) && NoSave(e.flags)
    ensures Observe(ex, text) == Observe(e, text)
  {
    hide Unquote, Observe, SaveValues, SaveBlogValues, Raise, Enter, Shape;
    match f.name {
      case HostField => e := HostSaved(ex, t, path, host, f, text);
      case PortField => e := PortSaved(ex, t, path, host, f, text);
      case UsernameField => e := UsernameSaved(ex, t, path, host, f, text);
      case PasswordField => e := PasswordSaved(ex, t, path, host, f, text);
    }
    SavedSecond(ex, e, text);
  }

  lemma LeadsField(t: Tables, path: string, host: string, f: Field)
    ensures var x := InBlog(t, path, host);
            Leads(x.(flags := Raise(x.flags, FieldFlag(f.name))), [WordToken(Quote(f.value))],
                  InBlog(RecordField(t, path, f), path, host))
  {
    QuotedIsNoWord(f.value);
    var e := InBlog(t, path, host);
    var x, y := e.(flags := Raise(e.flags, FieldFlag(f.name))), InBlog(RecordField(t, path, f), path, host);
    hide KeywordOf, Unquote, Quote, TypeOf, Raise, Enter, RecordField;
    forall ex | Shape(ex) == x ensures StepsTo(ex, WordToken(Quote(f.value)), y) {
      var saved := FieldSaved(ex, t, path, host, f, Quote(f.value));
      QuietObserve(saved, Quote(f.value));
      hide Observe, NoteHandler;
      ShapeOfNote(saved, Quote(f.value));
    }
    LeadsOne(x, WordToken(Quote(f.value)), y);
  }

  // ---- The ends of statements and blocks ----

  lemma LeadsMark(x: Extractor, t: Token)
    requires NoSave(x.flags) && (t == Token(StartBlock, "{") || t == Token(StatementEnd, ";"))
    ensures Leads(x, [t], x)
  {
    OtherTexts();
    hide TypeOf, KeywordOf;
    LeadsQuiet(x, t);
  }

  lemma LeadsClose(x: Extractor)
    requires NoSave(x.flags)
    ensures Leads(x, [Token(EndBlock, "}")], CloseBlock(x))
  {
    OtherTexts();
    hide TypeOf, KeywordOf;
    forall ex | Shape(ex) == x ensures StepsTo(ex, Token(EndBlock, "}"), CloseBlock(x)) { QuietObserve(ex, "}"); }
    LeadsOne(x, Token(EndBlock, "}"), CloseBlock(x));
  }

  lemma NoColonInSemicolon()
    ensures AfterColon(";") == ";"
  {
    assert ";"[1..] == "";
  }

  /** Whatever word a root is, even one that raises a flag, the end of the block leaves nothing of it. */
  lemma LeadsRootEnd(t: Tables, host: string, root: string)
    ensures Leads(RaiseFlags(Resting(t, "", host), root), [Token(StatementEnd, ";")] + [Token(EndBlock, "}")],
                  Resting(t, "", host))
  {
    OtherTexts();
    var x, end := RaiseFlags(Resting(t, "", host), root), Token(StatementEnd, ";");
    var y := if KeywordOf(root) == Some(LocationWord) then Named(t, "", host) else Resting(t, "", host);
    assert Stoi(";").None?;
    assert AfterColon(";") == ";" by { NoColonInSemicolon(); }
    hide TypeOf, KeywordOf, Stoi, AfterColon, Unquote;
    forall ex | Shape(ex) == x ensures StepsTo(ex, end, y) {}
    LeadsOne(x, end, y);
    LeadsClose(y);
    LeadsThen(x, [end], y, [Token(EndBlock, "}")], Resting(t, "", host));
  }
}
