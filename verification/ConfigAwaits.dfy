/** What the flag machine awaits between two tokens, and the only token that can make it fail: a word
    that is read as the port of a proxy and is no port number. */
module ConfigAwaits {
  import opened Text
  import opened ConfigLexer
  import opened ConfigGrammar
  import opened ConfigExtraction
  import opened ConfigParsing

  // ---- Extraction of a token list ----

  /** The extraction over a list of tokens; None when a value makes it fail. */
  function Extract(ex: Extractor, ts: seq<Token>): Option<Extractor>
    decreases |ts|
  {
    if ts == [] then Some(ex) else
    var o := Observe(ex, ts[0].text);
    if o.Seen? then Extract(AfterToken(o.ex, ts[0].kind), ts[1..]) else None
  }

  lemma {:induction false} ExtractThen(ex: Extractor, a: seq<Token>, b: seq<Token>)
    requires Extract(ex, a).Some?
    ensures Extract(ex, a + b) == Extract(Extract(ex, a).value, b)
    decreases |a|
  {
    hide Observe;
    if a == [] {
      assert a + b == b;
    } else {
      ExtractThen(AfterToken(Observe(ex, a[0].text).ex, a[0].kind), a[1..], b);
      assert (a + b)[1..] == a[1..] + b;
    }
  }

  // ---- At most one value is awaited ----

  predicate Raised(f: Flags, flag: Flag) {
    match flag
    case SavePortFlag => f.savePort
    case SeenLocationFlag => f.seenLocation
    case SaveRootFlag => f.saveRoot
    case SaveProxyHostFlag => f.saveProxyHost
    case SaveProxyPortFlag => f.saveProxyPort
    case SaveRedirectHostFlag => f.saveRedirectHost
    case SaveBlogIpFlag => f.saveBlogIp
    case SaveBlogPortFlag => f.saveBlogPort
    case SaveBlogPasswordFlag => f.saveBlogPassword
    case SaveBlogUsernameFlag => f.saveBlogUsername
  }

  /** No two of the flags that ask for the next token are raised together. */
  ghost predicate AtMostOne(f: Flags) { forall a, b :: Raised(f, a) && Raised(f, b) ==> a == b }

  /** No value and no location is awaited. */
  predicate NoSave(f: Flags) {
    !f.seenLocation && !f.savePort && !f.saveRoot && !f.saveProxyHost && !f.saveProxyPort && !f.saveRedirectHost
    && !f.saveBlogIp && !f.saveBlogPort && !f.saveBlogUsername && !f.saveBlogPassword
  }

  predicate ValuesSaved(f: Flags) {
    !f.savePort && !f.saveRoot && !f.saveProxyHost && !f.saveProxyPort && !f.saveRedirectHost
  }

  predicate BlogValuesSaved(f: Flags) { !f.saveBlogIp && !f.saveBlogPort && !f.saveBlogUsername && !f.saveBlogPassword }

  /** Only the value of a root passes on as another text. */
  predicate PassesAs(ex: Extractor, text: string, passed: string) {
    passed == if ex.flags.saveRoot && Unquote(text).Some? then Unquote(text).value else text
  }

  lemma PortSaved(ex: Extractor, text: string)
    ensures var o := SaveProxyPort(SavePort(ex, text), text);
            o.Seen? ==>
              && !o.ex.flags.savePort && !o.ex.flags.saveProxyPort
              && o.ex.flags.saveRoot == ex.flags.saveRoot && o.text == text
  {
    hide Stoi, AfterColon, PortFrom;
  }

  lemma RootSaved(ex: Extractor, text: string)
    requires !ex.flags.savePort && !ex.flags.saveProxyPort
    ensures var o := SaveRoot(ex, text);
            o.Seen? ==> !o.ex.flags.savePort && !o.ex.flags.saveProxyPort && !o.ex.flags.saveRoot
  {
    hide Unquote;
    if !ex.flags.saveRoot {
      assert SaveRoot(ex, text) == Seen(ex, text);
    } else if Unquote(text).Some? {
      var f := SaveRoot(ex, text).ex.flags;
      assert f.savePort == ex.flags.savePort && f.saveProxyPort == ex.flags.saveProxyPort && !f.saveRoot;
    }
  }

  lemma RootPassesAs(ex: Extractor, text: string)
    ensures SaveRoot(ex, text).Seen? ==> PassesAs(ex, text, SaveRoot(ex, text).text)
  {
    hide Unquote;
  }

  lemma HostsSaved(ex: Extractor, text: string)
    requires !ex.flags.savePort && !ex.flags.saveProxyPort && !ex.flags.saveRoot
    ensures var o := SaveProxyHost(ex, text);
            o.Seen? ==>
              && o.text == text && var p := SaveRedirectHost(o.ex, o.text);
              p.Seen? ==> ValuesSaved(p.ex.flags) && p.text == text
  {
    hide Unquote;
  }

  lemma AllValuesSaved(ex: Extractor, text: string)
    ensures var o := SaveValues(ex, text); o.Seen? ==> ValuesSaved(o.ex.flags) && PassesAs(ex, text, o.text)
  {
    hide SavePort, SaveProxyPort, SaveRoot, SaveProxyHost, SaveRedirectHost, ValuesSaved, Unquote;
    PortSaved(ex, text);
    var a := SaveProxyPort(SavePort(ex, text), text);
    if a.Seen? {
      RootSaved(a.ex, a.text);
      RootPassesAs(a.ex, a.text);
      var b := SaveRoot(a.ex, a.text);
      if b.Seen? { HostsSaved(b.ex, b.text); }
    }
  }

  lemma AllBlogValuesSaved(ex: Extractor, text: string)
    requires ValuesSaved(ex.flags)
    ensures var o := SaveBlogValues(ex, text);
            o.Seen? ==> ValuesSaved(o.ex.flags) && BlogValuesSaved(o.ex.flags) && o.text == text
  {
    hide Unquote;
  }

  lemma EnterKeepsSaved(ex: Extractor, h: HandlerType)
    requires ValuesSaved(ex.flags) && BlogValuesSaved(ex.flags)
    ensures ValuesSaved(Enter(ex, h).flags) && BlogValuesSaved(Enter(ex, h).flags)
  {
    match h
    case StaticType =>
    case RedirectType =>
    case ProxyType =>
    case BlogType =>
    case EchoType =>
    case StatusType =>
    case HealthType =>
    case UploadFormType =>
  }

  lemma HandlerKeepsSaved(ex: Extractor, text: string)
    requires ValuesSaved(ex.flags) && BlogValuesSaved(ex.flags)
    ensures var e := SaveHandler(ex, text); ValuesSaved(e.flags) && BlogValuesSaved(e.flags)
  {
    assert NoteHandler(ex, text).flags == ex.flags;
    hide TypeOf, Enter, NoteHandler, ValuesSaved, BlogValuesSaved;
    if TypeOf(text).Some? { EnterKeepsSaved(NoteHandler(ex, text), TypeOf(text).value); }
  }

  lemma LocationSaved(ex: Extractor, text: string)
    requires ValuesSaved(ex.flags) && BlogValuesSaved(ex.flags)
    ensures var o := SaveLocation(ex, text); o.Seen? ==> NoSave(o.ex.flags) && o.text == text
  {
    hide Unquote;
  }

  /** One raised flag is the only one. */
  lemma RaisedIsTheOne(f: Flags, flag: Flag)
    requires NoSave(f)
    ensures forall a :: Raised(Raise(f, flag), a) <==> a == flag
  {
    forall a ensures Raised(Raise(f, flag), a) <==> a == flag {
      match flag
      case SavePortFlag =>
      case SeenLocationFlag =>
      case SaveRootFlag =>
      case SaveProxyHostFlag =>
      case SaveProxyPortFlag =>
      case SaveRedirectHostFlag =>
      case SaveBlogIpFlag =>
      case SaveBlogPortFlag =>
      case SaveBlogPasswordFlag =>
      case SaveBlogUsernameFlag =>
    }
  }

  lemma NoneRaised(f: Flags)
    ensures NoSave(f) <==> forall a :: !Raised(f, a)
  {
    if forall a :: !Raised(f, a) {
      assert !Raised(f, SavePortFlag) && !Raised(f, SeenLocationFlag) && !Raised(f, SaveRootFlag);
      assert !Raised(f, SaveProxyHostFlag) && !Raised(f, SaveProxyPortFlag) && !Raised(f, SaveRedirectHostFlag);
      assert !Raised(f, SaveBlogIpFlag) && !Raised(f, SaveBlogPortFlag);
      assert !Raised(f, SaveBlogPasswordFlag) && !Raised(f, SaveBlogUsernameFlag);
    }
  }

  lemma PortFlagIsRaised(f: Flags)
    ensures f.saveProxyPort <==> Raised(f, SaveProxyPortFlag)
  {}

  lemma RaiseFlagsOutcome(ex: Extractor, text: string)
    requires NoSave(ex.flags)
    ensures var f := RaiseFlags(ex, text).flags;
            && AtMostOne(f)
            && (KeywordOf(text).None? ==> NoSave(f))
            && (f.saveProxyPort ==> KeywordOf(text) == Some(PortWord))
  {
    hide KeywordOf, Raise, Raised, NoSave;
    NoneRaised(ex.flags);
    var flag := FlagFor(ex.flags, KeywordOf(text));
    if flag.Some? {
      RaisedIsTheOne(ex.flags, flag.value);
      PortFlagIsRaised(Raise(ex.flags, flag.value));
    } else {
      PortFlagIsRaised(ex.flags);
    }
  }

  /** After any token at most one value is awaited, and a proxy port only after the word "port". */
  lemma ObserveOutcome(ex: Extractor, text: string)
    ensures var o := Observe(ex, text);
            o.Seen? ==>
              && AtMostOne(o.ex.flags) && PassesAs(ex, text, o.text)
              && (KeywordOf(o.text).None? ==> NoSave(o.ex.flags))
              && (o.ex.flags.saveProxyPort ==> KeywordOf(o.text) == Some(PortWord))
  {
    hide SaveValues, SaveBlogValues, SaveHandler, SaveLocation, RaiseFlags, NoSave, ValuesSaved, BlogValuesSaved,
         AtMostOne, PassesAs, KeywordOf;
    AllValuesSaved(ex, text);
    var a := SaveValues(ex, text);
    if a.Seen? {
      AllBlogValuesSaved(a.ex, a.text);
      var b := SaveBlogValues(a.ex, a.text);
      if b.Seen? {
        HandlerKeepsSaved(b.ex, b.text);
        LocationSaved(SaveHandler(b.ex, b.text), b.text);
        var c := SaveLocation(SaveHandler(b.ex, b.text), b.text);
        if c.Seen? { RaiseFlagsOutcome(c.ex, c.text); }
      }
    }
  }

  // ---- When a token makes the extraction fail ----

  /** What `IsValidPortNum` and `stoi` take for the port of a proxy. */
  predicate IsPort(text: string) {
    var n := Stoi(AfterColon(text));
    n.Some? && 0 <= n.value <= MAX_PORT && Stoi(text).Some?
  }

  lemma OthersNotAwaited(f: Flags, flag: Flag)
    requires AtMostOne(f) && Raised(f, flag)
    ensures forall a :: a != flag ==> !Raised(f, a)
  {}

  lemma NoneButPort(f: Flags)
    requires forall a :: a != SaveProxyPortFlag ==> !Raised(f, a)
    ensures NoSave(f.(saveProxyPort := false))
  {
    forall a ensures !Raised(f.(saveProxyPort := false), a) { assert a != SaveProxyPortFlag ==> !Raised(f, a); }
    NoneRaised(f.(saveProxyPort := false));
  }

  lemma PortValue(ex: Extractor, text: string)
    requires AtMostOne(ex.flags) && ex.flags.saveProxyPort
    ensures SaveValues(ex, text).Seen? <==> IsPort(text)
    ensures IsPort(text) ==> NoSave(SaveValues(ex, text).ex.flags)
  {
    OthersNotAwaited(ex.flags, SaveProxyPortFlag);
    NoneButPort(ex.flags);
    hide Stoi, AfterColon, AtMostOne, Raised;
    assert SavePort(ex, text) == ex;
    var o := SaveProxyPort(ex, text);
    assert o.Seen? <==> IsPort(text);
    if o.Seen? {
      assert o.ex.flags == ex.flags.(saveProxyPort := false).(location := "");
      assert SaveValues(ex, text) == o;
    }
  }

  lemma NoneButRoot(f: Flags)
    requires forall a :: a != SaveRootFlag ==> !Raised(f, a)
    ensures NoSave(f.(saveRoot := false))
  {
    forall a ensures !Raised(f.(saveRoot := false), a) { assert a != SaveRootFlag ==> !Raised(f, a); }
    NoneRaised(f.(saveRoot := false));
  }

  lemma RootValue(ex: Extractor, text: string)
    requires AtMostOne(ex.flags) && ex.flags.saveRoot && text != ""
    ensures SaveValues(ex, text).Seen? && NoSave(SaveValues(ex, text).ex.flags)
  {
    OthersNotAwaited(ex.flags, SaveRootFlag);
    NoneButRoot(ex.flags);
    hide AtMostOne, Raised;
  }

  lemma HostsSeen(ex: Extractor, text: string)
    requires text != ""
    ensures SaveProxyHost(ex, text).Seen? && SaveProxyHost(ex, text).text == text
    ensures SaveRedirectHost(ex, text).Seen? && SaveRedirectHost(ex, text).text == text
  {}

  lemma NoPortNoRoot(ex: Extractor, text: string)
    requires !ex.flags.saveProxyPort && !ex.flags.saveRoot
    ensures var o := SaveProxyPort(SavePort(ex, text), text);
            o.Seen? && o.text == text && SaveRoot(o.ex, o.text) == o
  {
    hide PortFrom;
  }

  lemma OtherValue(ex: Extractor, text: string)
    requires !ex.flags.saveProxyPort && !ex.flags.saveRoot && (text != "" || NoSave(ex.flags))
    ensures SaveValues(ex, text).Seen? && SaveValues(ex, text).text == text
    ensures NoSave(ex.flags) ==> NoSave(SaveValues(ex, text).ex.flags)
  {
    if NoSave(ex.flags) {
      assert SaveValues(ex, text) == Seen(ex, text);
    } else {
      hide SavePort, SaveProxyPort, SaveRoot, SaveProxyHost, SaveRedirectHost, NoSave;
      NoPortNoRoot(ex, text);
      var e := SaveProxyPort(SavePort(ex, text), text).ex;
      HostsSeen(e, text);
      HostsSeen(SaveProxyHost(e, text).ex, text);
    }
  }

  lemma BlogValuesSeen(ex: Extractor, text: string)
    requires text != "" || BlogValuesSaved(ex.flags)
    ensures SaveBlogValues(ex, text).Seen? && SaveBlogValues(ex, text).text == text
    ensures SaveBlogValues(ex, text).ex.flags.seenLocation == ex.flags.seenLocation
  {
    assert text != "" ==> Unquote(text).Some?;
    hide Unquote;
  }

  lemma EnterNotLocation(ex: Extractor, h: HandlerType)
    requires !ex.flags.seenLocation
    ensures !Enter(ex, h).flags.seenLocation
  {
    match h
    case StaticType =>
    case RedirectType =>
    case ProxyType =>
    case BlogType =>
    case EchoType =>
    case StatusType =>
    case HealthType =>
    case UploadFormType =>
  }

  lemma HandlerSeesNoLocation(ex: Extractor, text: string)
    requires !ex.flags.seenLocation
    ensures !SaveHandler(ex, text).flags.seenLocation
  {
    assert NoteHandler(ex, text).flags == ex.flags;
    hide TypeOf, Enter, NoteHandler;
    if TypeOf(text).Some? { EnterNotLocation(NoteHandler(ex, text), TypeOf(text).value); }
  }

  /** What follows the first values does not fail on a text, or when nothing more is awaited. */
  lemma RestIsSeen(ex: Extractor, text: string)
    requires var a := SaveValues(ex, text); a.Seen? && (a.text != "" || NoSave(a.ex.flags))
    ensures Observe(ex, text).Seen?
  {
    hide SaveValues, SaveBlogValues, SaveHandler, RaiseFlags;
    var a := SaveValues(ex, text);
    BlogValuesSeen(a.ex, a.text);
    var b := SaveBlogValues(a.ex, a.text);
    if !b.ex.flags.seenLocation { HandlerSeesNoLocation(b.ex, b.text); }
  }

  lemma NoSaveIsNoRoot(f: Flags)
    ensures NoSave(f) ==> !f.saveRoot
  {}

  /** With at most one value awaited, a token fails exactly when it is read as the port of a proxy and
      is no port number. */
  lemma FailsOnlyAsPort(ex: Extractor, text: string)
    requires AtMostOne(ex.flags) && (text != "" || NoSave(ex.flags))
    ensures Observe(ex, text).Seen? <==> !(ex.flags.saveProxyPort && !IsPort(text))
  {
    hide SaveValues, SaveBlogValues, SaveHandler, SaveLocation, RaiseFlags, NoSave, AtMostOne, IsPort;
    if ex.flags.saveProxyPort {
      PortValue(ex, text);
      if IsPort(text) { RestIsSeen(ex, text); }
    } else {
      NoSaveIsNoRoot(ex.flags);
      if ex.flags.saveRoot { RootValue(ex, text); } else { OtherValue(ex, text); }
      RestIsSeen(ex, text);
    }
  }

  // ---- When a text makes the extraction fail ----

  /** Token i is read as the port of a proxy and is no port number. */
  ghost predicate Missed(ex: Extractor, ts: seq<Token>, i: nat) {
    && i < |ts|
    && var e := Extract(ex, ts[..i]);
       e.Some? && e.value.flags.saveProxyPort && !IsPort(ts[i].text)
  }

  ghost predicate PortMissed(ex: Extractor, ts: seq<Token>) { exists i: nat :: Missed(ex, ts, i) }

  lemma MissedLater(ex: Extractor, ts: seq<Token>, i: nat)
    requires ts != [] && Observe(ex, ts[0].text).Seen?
    ensures Missed(ex, ts, i + 1) <==> Missed(AfterToken(Observe(ex, ts[0].text).ex, ts[0].kind), ts[1..], i)
  {
    hide Observe, IsPort;
    if i + 1 < |ts| {
      var p := ts[..i + 1];
      assert p[0] == ts[0] && p[1..] == ts[1..][..i];
      assert Extract(ex, p) == Extract(AfterToken(Observe(ex, ts[0].text).ex, ts[0].kind), ts[1..][..i]);
    }
  }

  lemma MissedNever(ex: Extractor, ts: seq<Token>, i: nat)
    requires ts != [] && !Observe(ex, ts[0].text).Seen? && i > 0
    ensures !Missed(ex, ts, i)
  {
    hide Observe, IsPort;
    if i < |ts| {
      assert ts[..i][0] == ts[0];
    }
  }

  lemma PortMissedFirst(ex: Extractor, ts: seq<Token>)
    requires ts != []
    ensures Missed(ex, ts, 0) <==> ex.flags.saveProxyPort && !IsPort(ts[0].text)
  {
    hide IsPort;
    assert ts[..0] == [];
  }

  lemma PortMissedStep(ex: Extractor, ts: seq<Token>)
    requires ts != []
    ensures var o := Observe(ex, ts[0].text);
            PortMissed(ex, ts) <==>
              || (ex.flags.saveProxyPort && !IsPort(ts[0].text))
              || (o.Seen? && PortMissed(AfterToken(o.ex, ts[0].kind), ts[1..]))
  {
    hide Observe, IsPort, Missed, AfterToken;
    PortMissedFirst(ex, ts);
    var o := Observe(ex, ts[0].text);
    if PortMissed(ex, ts) && !Missed(ex, ts, 0) {
      var i: nat :| Missed(ex, ts, i);
      if o.Seen? { MissedLater(ex, ts, i - 1); } else { MissedNever(ex, ts, i); }
    }
    if o.Seen? && PortMissed(AfterToken(o.ex, ts[0].kind), ts[1..]) {
      var i: nat :| Missed(AfterToken(o.ex, ts[0].kind), ts[1..], i);
      MissedLater(ex, ts, i);
    }
  }

  lemma CommentIsNoKeyword(text: string)
    requires text != "" && text[0] == '#'
    ensures KeywordOf(text).None?
  {}

  /** A value is awaited only while a statement is open. */
  ghost predicate AwaitsInside(ex: Extractor, r: Recognizer) {
    AtMostOne(ex.flags) && (r.last.Normal? || NoSave(ex.flags))
  }

  lemma CloseAwaitsNothing(ex: Extractor)
    ensures NoSave(CloseBlock(ex).flags) && AtMostOne(CloseBlock(ex).flags)
  {}

  lemma MarkIsNoKeyword(ex: Extractor, text: string, passed: string)
    requires (text == ";" || text == "{") && PassesAs(ex, text, passed)
    ensures KeywordOf(passed).None?
  {
    OtherTexts();
    assert Unquote("{") == Some("");
    hide KeywordOf, Unquote;
  }

  lemma AwaitsAfter(ex: Extractor, r: Recognizer, t: Token)
    requires Valid(r) && TextFits(t) && !IsLast(t) && AwaitsInside(ex, r)
    requires Recognize(r, t).Continue? && Observe(ex, t.text).Seen?
    ensures AwaitsInside(AfterToken(Observe(ex, t.text).ex, t.kind), Recognize(r, t).r)
  {
    hide Observe, NoSave, AtMostOne, KeywordOf, Valid, CloseBlock;
    var o := Observe(ex, t.text);
    ObserveOutcome(ex, t.text);
    CloseAwaitsNothing(o.ex);
    match t.kind
    case Comment =>
      if !r.last.Normal? {
        NoSaveIsNoRoot(ex.flags);
        CommentIsNoKeyword(t.text);
      }
    case StatementEnd => MarkIsNoKeyword(ex, t.text, o.text);
    case StartBlock => MarkIsNoKeyword(ex, t.text, o.text);
    case _ =>
  }

  /** Over any tokens, at most one value is awaited after them. */
  lemma {:induction false} RunAwaitsOne(ex: Extractor, ts: seq<Token>)
    requires AtMostOne(ex.flags) && Extract(ex, ts).Some?
    ensures AtMostOne(Extract(ex, ts).value.flags)
    decreases |ts|
  {
    hide Observe, AtMostOne, CloseBlock;
    if ts != [] {
      ObserveOutcome(ex, ts[0].text);
      CloseAwaitsNothing(Observe(ex, ts[0].text).ex);
      RunAwaitsOne(AfterToken(Observe(ex, ts[0].text).ex, ts[0].kind), ts[1..]);
    }
  }

  lemma AcceptsOutside(r: Recognizer, t: Token)
    requires Valid(r) && Recognize(r, t).Accept?
    ensures !r.last.Normal?
  {}

  lemma NothingMissed(ex: Extractor)
    ensures !PortMissed(ex, [])
  {}

  /** Inside the grammar the extraction fails exactly when a token is read as the port of a proxy and is
      no port number. */
  lemma {:induction false} FailsOnlyOnPorts(ex: Extractor, r: Recognizer, ts: seq<Token>)
    requires Valid(r) && AllFit(ts) && ts != [] && (forall i :: 0 <= i < |ts| - 1 ==> !IsLast(ts[i]))
    requires RunTokens(r, ts).Accept? && AwaitsInside(ex, r)
    ensures Extract(ex, ts).Some? <==> !PortMissed(ex, ts)
    decreases |ts|
  {
    assert Depth(r.configs) == Depth(r.brackets) + 1;
    hide Observe, Recognize, Valid, NoSave, AtMostOne, IsPort, PortMissed, RunTokens;
    var t, rest := ts[0], ts[1..];
    PortMissedStep(ex, ts);
    if rest == [] {
      assert ts == [t];
      RunLast(r, t);
      AcceptsOutside(r, t);
      FailsOnlyAsPort(ex, t.text);
      if Observe(ex, t.text).Seen? { NothingMissed(AfterToken(Observe(ex, t.text).ex, t.kind)); }
    } else {
      assert ts == [t] + rest && !IsLast(t) && TextFits(t);
      RunHead(r, t, rest);
      FailsOnlyAsPort(ex, t.text);
      if Observe(ex, t.text).Seen? {
        AwaitsAfter(ex, r, t);
        FailsOnlyOnPorts(AfterToken(Observe(ex, t.text).ex, t.kind), Recognize(r, t).r, rest);
      }
    }
  }

  // ---- What the tokens around such a port look like ----

  /** The text is the word, bare or in quotes. */
  predicate Means(text: string, word: string) { text == word || Unquote(text) == Some(word) }

  lemma {:induction false} ExtractPrefix(ex: Extractor, a: seq<Token>, b: seq<Token>)
    requires Extract(ex, a + b).Some?
    ensures Extract(ex, a).Some?
    decreases |a|
  {
    hide Observe;
    if a != [] {
      assert (a + b)[1..] == a[1..] + b;
      ExtractPrefix(AfterToken(Observe(ex, a[0].text).ex, a[0].kind), a[1..], b);
    }
  }

  lemma ExtractOne(ex: Extractor, t: Token)
    requires Extract(ex, [t]).Some?
    ensures Observe(ex, t.text).Seen? && Extract(ex, [t]) == Some(AfterToken(Observe(ex, t.text).ex, t.kind))
  {
    hide Observe;
    var e := AfterToken(Observe(ex, t.text).ex, t.kind);
    assert [t][1..] == [] && Extract(e, []) == Some(e);
  }

  lemma PortKeyword(text: string)
    ensures KeywordOf(text) == Some(PortWord) ==> text == "port"
  {}

  /** A proxy port is awaited only right after the word "port". */
  lemma AwaitedAfterPort(ex: Extractor, ts: seq<Token>, i: nat)
    requires !ex.flags.saveProxyPort && i <= |ts|
    requires Extract(ex, ts[..i]).Some? && Extract(ex, ts[..i]).value.flags.saveProxyPort
    ensures i > 0 && Means(ts[i - 1].text, "port")
  {
    hide Observe, KeywordOf;
    assert ts[..0] == [];
    if i > 0 {
      var p, t := ts[..i - 1], ts[i - 1];
      assert ts[..i] == p + [t];
      ExtractPrefix(ex, p, [t]);
      ExtractThen(ex, p, [t]);
      var e := Extract(ex, p).value;
      ExtractOne(e, t);
      ObserveOutcome(e, t.text);
      PortKeyword(Observe(e, t.text).text);
      hide Extract;
    }
  }

  lemma AllBlogValuesText(ex: Extractor, text: string)
    ensures SaveBlogValues(ex, text).Seen? ==> SaveBlogValues(ex, text).text == text
  {
    hide Unquote;
  }

  lemma PortsKeepSeen(ex: Extractor, text: string)
    ensures var o := SaveProxyPort(SavePort(ex, text), text); o.Seen? ==> o.ex.seen == ex.seen
    ensures SaveRoot(ex, text).Seen? ==> SaveRoot(ex, text).ex.seen == ex.seen
  {
    hide Stoi, AfterColon, PortFrom, Unquote;
  }

  lemma HostsKeepSeen(ex: Extractor, text: string)
    ensures SaveProxyHost(ex, text).Seen? ==> SaveProxyHost(ex, text).ex.seen == ex.seen
    ensures SaveRedirectHost(ex, text).Seen? ==> SaveRedirectHost(ex, text).ex.seen == ex.seen
  {
    hide Unquote;
  }

  lemma ValuesKeepSeen(ex: Extractor, text: string)
    ensures SaveValues(ex, text).Seen? ==> SaveValues(ex, text).ex.seen == ex.seen
  {
    hide SavePort, SaveProxyPort, SaveRoot, SaveProxyHost, SaveRedirectHost;
    PortsKeepSeen(ex, text);
    var a := SaveProxyPort(SavePort(ex, text), text);
    if a.Seen? {
      PortsKeepSeen(a.ex, a.text);
      var b := SaveRoot(a.ex, a.text);
      if b.Seen? {
        HostsKeepSeen(b.ex, b.text);
        var c := SaveProxyHost(b.ex, b.text);
        if c.Seen? { HostsKeepSeen(c.ex, c.text); }
      }
    }
  }

  lemma BlogValuesKeepSeen(ex: Extractor, text: string)
    ensures SaveBlogValues(ex, text).Seen? ==> SaveBlogValues(ex, text).ex.seen == ex.seen
  {
    hide Unquote;
  }

  lemma EnterKeepsSeen(ex: Extractor, h: HandlerType)
    ensures Enter(ex, h).seen == ex.seen
  {}

  lemma HandlerAddsText(ex: Extractor, text: string)
    ensures SaveHandler(ex, text).seen <= ex.seen + {text}
  {
    assert NoteHandler(ex, text).seen == ex.seen + {text};
    hide TypeOf, Enter, NoteHandler;
    if TypeOf(text).Some? { EnterKeepsSeen(NoteHandler(ex, text), TypeOf(text).value); }
  }

  /** A token adds at most the text it passes on to the handler types seen. */
  lemma ObserveAddsText(ex: Extractor, text: string)
    ensures var o := Observe(ex, text); o.Seen? ==> o.ex.seen <= ex.seen + {o.text}
  {
    hide SaveValues, SaveBlogValues, SaveHandler, Unquote, KeywordOf, FlagFor, Raise;
    ValuesKeepSeen(ex, text);
    var a := SaveValues(ex, text);
    if a.Seen? {
      BlogValuesKeepSeen(a.ex, a.text);
      var b := SaveBlogValues(a.ex, a.text);
      if b.Seen? {
        AllBlogValuesText(a.ex, a.text);
        HandlerAddsText(b.ex, b.text);
      }
    }
  }

  lemma {:induction false} SeenWasRead(ex: Extractor, ts: seq<Token>, word: string)
    requires Extract(ex, ts).Some? && word in Extract(ex, ts).value.seen && word !in ex.seen
    ensures exists j :: 0 <= j < |ts| && Means(ts[j].text, word)
    decreases |ts|
  {
    hide Observe, Unquote;
    if ts != [] {
      var o := Observe(ex, ts[0].text);
      ObserveAddsText(ex, ts[0].text);
      ObserveOutcome(ex, ts[0].text);
      if word in o.ex.seen {
        assert Means(ts[0].text, word);
      } else {
        SeenWasRead(AfterToken(o.ex, ts[0].kind), ts[1..], word);
        var j :| 0 <= j < |ts[1..]| && Means(ts[1..][j].text, word);
        assert Means(ts[j + 1].text, word);
      }
    }
  }

  lemma {:induction false} ExtractKeepsInv(ex: Extractor, ts: seq<Token>)
    requires Inv(ex) && Extract(ex, ts).Some?
    ensures Inv(Extract(ex, ts).value)
    decreases |ts|
  {
    hide Observe, Inv;
    if ts != [] {
      ObserveKeepsInv(ex, ts[0].text);
      CloseBlockKeepsInv(Observe(ex, ts[0].text).ex);
      ExtractKeepsInv(AfterToken(Observe(ex, ts[0].text).ex, ts[0].kind), ts[1..]);
    }
  }

  lemma ProxyWasSeen(ex: Extractor)
    requires Inv(ex) && ex.flags.saveProxyPort
    ensures TypeName(ProxyType) in ex.seen
  {
    hide TypeName, ListedOnce, TypesRecorded;
  }

  lemma BeginInv()
    ensures Inv(BEGIN)
  {}

  /** A missed port stands right after the word "port", somewhere after the word "ProxyHandler". */
  lemma MissedPortIsAfterProxy(ts: seq<Token>, i: nat)
    requires Missed(BEGIN, ts, i)
    ensures i > 0 && Means(ts[i - 1].text, "port") && !IsPort(ts[i].text)
    ensures exists j :: 0 <= j < i && Means(ts[j].text, TypeName(ProxyType))
  {
    hide Extract, IsPort, Means, TypeName;
    AwaitedAfterPort(BEGIN, ts, i);
    BeginInv();
    ExtractKeepsInv(BEGIN, ts[..i]);
    ProxyWasSeen(Extract(BEGIN, ts[..i]).value);
    SeenWasRead(BEGIN, ts[..i], TypeName(ProxyType));
    var j :| 0 <= j < |ts[..i]| && Means(ts[..i][j].text, TypeName(ProxyType));
    assert Means(ts[j].text, TypeName(ProxyType));
  }
}
