/** What comments do to the extraction: nothing, unless one stands where a value is awaited. */
module ConfigComments {
  import opened Text
  import opened ConfigLexer
  import opened ConfigGrammar
  import opened ConfigExtraction
  import opened ConfigParsing
  import opened ConfigAwaits
  import opened ConfigSteps
  import ConfigText

  // ---- The list of handler types decides nothing ----

  ghost predicate Alike(a: Extractor, b: Extractor) { Shape(a) == Shape(b) }

  ghost predicate AlikeObserved(o: Observed, p: Observed) {
    match o
    case Seen(ex, text) => p.Seen? && Alike(ex, p.ex) && p.text == text
    case _ => p == o
  }

  lemma PlainPortAlike(a: Extractor, b: Extractor, text: string)
    requires Alike(a, b)
    ensures Alike(SavePort(a, text), SavePort(b, text))
  {
    hide Stoi, AfterColon, PortFrom;
    assert a.tables.port == b.tables.port && a.flags == b.flags;
  }

  lemma ProxyPortAlike(a: Extractor, b: Extractor, text: string)
    requires Alike(a, b)
    ensures AlikeObserved(SaveProxyPort(a, text), SaveProxyPort(b, text))
  {
    hide Stoi, AfterColon;
    assert a.tables.proxies == b.tables.proxies && a.flags == b.flags;
  }

  lemma PortAlike(a: Extractor, b: Extractor, text: string)
    requires Alike(a, b)
    ensures AlikeObserved(SaveProxyPort(SavePort(a, text), text), SaveProxyPort(SavePort(b, text), text))
  {
    PlainPortAlike(a, b, text);
    hide SavePort, SaveProxyPort, Alike;
    ProxyPortAlike(SavePort(a, text), SavePort(b, text), text);
  }

  lemma RootAlike(a: Extractor, b: Extractor, text: string)
    requires Alike(a, b)
    ensures AlikeObserved(SaveRoot(a, text), SaveRoot(b, text))
  {
    hide Unquote;
  }

  lemma HostsAlike(a: Extractor, b: Extractor, text: string)
    requires Alike(a, b)
    ensures AlikeObserved(SaveProxyHost(a, text), SaveProxyHost(b, text))
    ensures AlikeObserved(SaveRedirectHost(a, text), SaveRedirectHost(b, text))
  {
    hide Unquote;
  }

  lemma ValuesAlike(a: Extractor, b: Extractor, text: string)
    requires Alike(a, b)
    ensures AlikeObserved(SaveValues(a, text), SaveValues(b, text))
  {
    hide SavePort, SaveProxyPort, SaveRoot, SaveProxyHost, SaveRedirectHost, Alike;
    PortAlike(a, b, text);
    var o, p := SaveProxyPort(SavePort(a, text), text), SaveProxyPort(SavePort(b, text), text);
    if o.Seen? {
      RootAlike(o.ex, p.ex, o.text);
      var q, r := SaveRoot(o.ex, o.text), SaveRoot(p.ex, p.text);
      if q.Seen? {
        HostsAlike(q.ex, r.ex, q.text);
        var u, v := SaveProxyHost(q.ex, q.text), SaveProxyHost(r.ex, r.text);
        if u.Seen? { HostsAlike(u.ex, v.ex, u.text); }
      }
    }
  }

  lemma BlogAddressAlike(a: Extractor, b: Extractor, text: string)
    requires Alike(a, b)
    ensures AlikeObserved(SaveBlogIp(a, text), SaveBlogIp(b, text))
    ensures AlikeObserved(SaveBlogPort(a, text), SaveBlogPort(b, text))
  {
    hide Unquote;
  }

  lemma BlogAccountAlike(a: Extractor, b: Extractor, text: string)
    requires Alike(a, b)
    ensures AlikeObserved(SaveBlogUsername(a, text), SaveBlogUsername(b, text))
    ensures AlikeObserved(SaveBlogPassword(a, text), SaveBlogPassword(b, text))
  {
    hide Unquote;
  }

  lemma BlogValuesAlike(a: Extractor, b: Extractor, text: string)
    requires Alike(a, b)
    ensures AlikeObserved(SaveBlogValues(a, text), SaveBlogValues(b, text))
  {
    hide SaveBlogIp, SaveBlogPort, SaveBlogUsername, SaveBlogPassword, Alike;
    BlogAddressAlike(a, b, text);
    var o, p := SaveBlogIp(a, text), SaveBlogIp(b, text);
    if o.Seen? {
      BlogAddressAlike(o.ex, p.ex, o.text);
      var q, r := SaveBlogPort(o.ex, o.text), SaveBlogPort(p.ex, p.text);
      if q.Seen? {
        BlogAccountAlike(q.ex, r.ex, q.text);
        var u, v := SaveBlogUsername(q.ex, q.text), SaveBlogUsername(r.ex, r.text);
        if u.Seen? { BlogAccountAlike(u.ex, v.ex, u.text); }
      }
    }
  }

  lemma HandlerAlike(a: Extractor, b: Extractor, text: string)
    requires Alike(a, b)
    ensures Alike(SaveHandler(a, text), SaveHandler(b, text))
  {
    ShapeOfNote(a, text);
    ShapeOfNote(b, text);
    hide TypeOf, Enter, NoteHandler;
    if TypeOf(text).Some? {
      ShapeOfEnter(a, NoteHandler(a, text), TypeOf(text).value);
      ShapeOfEnter(b, NoteHandler(b, text), TypeOf(text).value);
    }
  }

  lemma LocationAlike(a: Extractor, b: Extractor, text: string)
    requires Alike(a, b)
    ensures AlikeObserved(SaveLocation(a, text), SaveLocation(b, text))
  {
    hide Unquote;
  }

  /** Extractors that differ in the list of handler types only go on alike. */
  lemma ObserveAlike(a: Extractor, b: Extractor, text: string)
    requires Alike(a, b)
    ensures AlikeObserved(Observe(a, text), Observe(b, text))
  {
    hide SaveValues, SaveBlogValues, SaveHandler, SaveLocation, RaiseFlags, Shape;
    ValuesAlike(a, b, text);
    var o, p := SaveValues(a, text), SaveValues(b, text);
    if o.Seen? {
      BlogValuesAlike(o.ex, p.ex, o.text);
      var q, r := SaveBlogValues(o.ex, o.text), SaveBlogValues(p.ex, p.text);
      if q.Seen? {
        HandlerAlike(q.ex, r.ex, q.text);
        LocationAlike(SaveHandler(q.ex, q.text), SaveHandler(r.ex, r.text), q.text);
        var u, v := SaveLocation(SaveHandler(q.ex, q.text), q.text), SaveLocation(SaveHandler(r.ex, r.text), r.text);
        if u.Seen? {
          ShapeOfRaise(u.ex, u.text);
          ShapeOfRaise(v.ex, v.text);
        }
      }
    }
  }

  // ---- A comment ----

  predicate IsCommentText(text: string) { text != "" && text[0] == '#' }

  lemma CommentIsNoWord(text: string)
    requires IsCommentText(text)
    ensures KeywordOf(text).None? && TypeOf(text).None?
  {}

  lemma CommentIsQuiet(ex: Extractor, text: string)
    requires IsCommentText(text) && NoSave(ex.flags)
    ensures Observe(ex, text).Seen? && Observe(ex, text).text == text && Alike(Observe(ex, text).ex, ex)
  {
    CommentIsNoWord(text);
    QuietObserve(ex, text);
    ShapeOfNote(ex, text);
    hide KeywordOf, TypeOf, NoteHandler, Observe, FlagFor;
  }

  /** The flag machine goes on as if a comment were not there exactly when no value is awaited. */
  lemma CommentIsHarmless(ex: Extractor, text: string)
    requires IsCommentText(text)
    ensures (Observe(ex, text).Seen? && Observe(ex, text).text == text && Alike(Observe(ex, text).ex, ex))
            <==> NoSave(ex.flags)
  {
    CommentIsNoWord(text);
    ObserveOutcome(ex, text);
    if NoSave(ex.flags) { CommentIsQuiet(ex, text); }
    hide Observe, KeywordOf, TypeOf, NoSave;
    var o := Observe(ex, text);
    if o.Seen? && Alike(o.ex, ex) { assert o.ex.flags == ex.flags; }
  }

  // ---- Where no value is awaited ----

  /** A word that asks for a value, bare or in quotes. */
  predicate Asks(text: string) {
    || Means(text, "port") || Means(text, "location") || Means(text, "root")
    || Means(text, "host") || Means(text, "username") || Means(text, "password")
  }

  /** A comment, or an end of the text that is one. */
  predicate IsRemark(t: Token) { t.kind.Comment? || (t.kind.Eof? && IsCommentText(t.text)) }

  /** No comment stands right after a word that asks for a value. */
  ghost predicate Calm(ts: seq<Token>) {
    forall i :: 0 < i < |ts| && IsRemark(ts[i]) && ts[i - 1].kind.Normal? ==> !Asks(ts[i - 1].text)
  }

  lemma KeywordsAsk(text: string, passed: string, ex: Extractor)
    requires PassesAs(ex, text, passed) && KeywordOf(passed).Some?
    ensures Asks(text)
  {
    hide Unquote;
  }

  /** After a token that does not ask for a value none is awaited. */
  lemma QuietAfter(ex: Extractor, t: Token)
    requires Observe(ex, t.text).Seen? && TextFits(t) && !IsLast(t)
    requires t.kind.Normal? ==> !Asks(t.text)
    requires t.kind.Comment? ==> NoSave(ex.flags)
    ensures NoSave(AfterToken(Observe(ex, t.text).ex, t.kind).flags)
  {
    var o := Observe(ex, t.text);
    hide Observe, NoSave, KeywordOf, CloseBlock, Asks;
    ObserveOutcome(ex, t.text);
    CloseAwaitsNothing(o.ex);
    match t.kind
    case Normal => if KeywordOf(o.text).Some? { KeywordsAsk(t.text, o.text, ex); }
    case Comment =>
      CommentIsQuiet(ex, t.text);
      CommentIsNoWord(t.text);
    case StatementEnd => MarkIsNoKeyword(ex, t.text, o.text);
    case StartBlock => MarkIsNoKeyword(ex, t.text, o.text);
    case _ =>
  }

  // ---- Texts without their comments ----

  /** The tokens without comments, the end of the text included. */
  function Plain(ts: seq<Token>): seq<Token> {
    if ts == [] then []
    else if ts[0].kind.Comment? then Plain(ts[1..])
    else [if IsRemark(ts[0]) then Token(Eof, "") else ts[0]] + Plain(ts[1..])
  }

  /** The same verdict, tree and tables, but for the list of handler types. */
  ghost predicate SameOutcome(o: ConfigParsing.Outcome, p: ConfigParsing.Outcome) {
    match o
    case Accepted(ss, t) => p.Accepted? && p.statements == ss && p.tables.(handlerTypes := []) == t.(handlerTypes := [])
    case Rejected(t) => p.Rejected? && p.tables.(handlerTypes := []) == t.(handlerTypes := [])
    case Failed(_) => p == o
  }

  lemma EndIsQuiet(ex: Extractor)
    requires NoSave(ex.flags)
    ensures Observe(ex, "").Seen? && Observe(ex, "").text == "" && Alike(Observe(ex, "").ex, ex)
  {
    OtherTexts();
    QuietObserve(ex, "");
    ShapeOfNote(ex, "");
    hide KeywordOf, TypeOf, NoteHandler, Observe, FlagFor;
  }

  /** What a token and its plain form do, when no value is awaited at a comment. */
  lemma EndAlike(a: Extractor, b: Extractor, t: Token)
    requires Alike(a, b) && t.kind.Eof? && (IsRemark(t) ==> NoSave(a.flags))
    ensures var text := if IsRemark(t) then "" else t.text; var o, p := Observe(a, t.text), Observe(b, text);
            (o.Seen? <==> p.Seen?) && (o.Seen? ==> Alike(o.ex, p.ex)) && (!o.Seen? ==> p == o)
  {
    hide Observe, NoSave;
    assert a.flags == b.flags;
    if IsRemark(t) {
      CommentIsQuiet(a, t.text);
      EndIsQuiet(b);
    } else {
      ObserveAlike(a, b, t.text);
    }
  }

  lemma CalmLater(ex: Extractor, ts: seq<Token>)
    requires |ts| > 1 && Calm(ts) && (IsRemark(ts[0]) ==> NoSave(ex.flags))
    requires TextFits(ts[0]) && !IsLast(ts[0]) && Observe(ex, ts[0].text).Seen?
    ensures Calm(ts[1..])
    ensures IsRemark(ts[1]) ==> NoSave(AfterToken(Observe(ex, ts[0].text).ex, ts[0].kind).flags)
  {
    hide Observe, NoSave, Asks, AfterToken;
    if IsRemark(ts[1]) { QuietAfter(ex, ts[0]); }
    forall i | 0 < i < |ts[1..]| && IsRemark(ts[1..][i]) && ts[1..][i - 1].kind.Normal?
      ensures !Asks(ts[1..][i - 1].text)
    {
      assert ts[i + 1] == ts[1..][i] && ts[i] == ts[1..][i - 1];
    }
  }

  lemma CloseAlike(a: Extractor, b: Extractor, kind: TokenType)
    requires Alike(a, b)
    ensures Alike(AfterToken(a, kind), AfterToken(b, kind))
  {}

  lemma AlikeTwice(a: Extractor, b: Extractor, c: Extractor)
    requires Alike(a, b) && Alike(b, c)
    ensures Alike(a, c)
  {}

  lemma TablesAlike(a: Extractor, b: Extractor)
    requires Alike(a, b)
    ensures a.tables.(handlerTypes := []) == b.tables.(handlerTypes := [])
  {}

  lemma EndIsDecided(r: Recognizer, t: Token)
    requires Valid(r) && IsLast(t)
    ensures !Recognize(r, t).Continue?
  {}

  /** The end of the input decides. */
  lemma LastOutcome(ex: Extractor, r: Recognizer, t: Token)
    requires Valid(r) && IsLast(t)
    ensures var o := Observe(ex, t.text);
            ParseTokens(ex, r, [t]) ==
            if !o.Seen? then Failed(o)
            else if Recognize(r, Token(t.kind, o.text)).Accept?
            then Accepted(Recognize(r, Token(t.kind, o.text)).statements, o.ex.tables)
            else Rejected(o.ex.tables)
  {
    hide Observe;
    var o := Observe(ex, t.text);
    if o.Seen? { EndIsDecided(r, Token(t.kind, o.text)); }
    hide Recognize;
  }

  lemma EndTextIgnored(r: Recognizer, text: string)
    requires Valid(r)
    ensures Recognize(r, Token(Eof, text)) == Recognize(r, Token(Eof, ""))
  {}

  lemma LastAlike(a: Extractor, b: Extractor, r: Recognizer, t: Token)
    requires Alike(a, b) && Valid(r) && IsLast(t) && (IsRemark(t) ==> NoSave(a.flags))
    ensures SameOutcome(ParseTokens(a, r, [t]), ParseTokens(b, r, Plain([t])))
  {
    var u := if IsRemark(t) then Token(Eof, "") else t;
    assert [t][1..] == [] && Plain([]) == [];
    assert Plain([t]) == [u];
    assert Depth(r.configs) == Depth(r.brackets) + 1;
    hide Observe, NoSave, Plain, ParseTokens, Recognize, Valid, Alike;
    if t.kind.Eof? { EndAlike(a, b, t); } else { ObserveAlike(a, b, t.text); }
    LastOutcome(a, r, t);
    LastOutcome(b, r, u);
    var o, p := Observe(a, t.text), Observe(b, u.text);
    if o.Seen? {
      TablesAlike(o.ex, p.ex);
      if t.kind.Eof? {
        EndTextIgnored(r, o.text);
        EndTextIgnored(r, p.text);
      }
    }
  }

  /** Comments that stand after no word that asks for a value change nothing of a parse but the list of handler
      types. */
  lemma {:induction false} CommentsChangeNothing(a: Extractor, b: Extractor, r: Recognizer, ts: seq<Token>)
    requires Alike(a, b) && Valid(r) && ts != [] && Calm(ts) && (IsRemark(ts[0]) ==> NoSave(a.flags))
    requires ConfigGrammar.AllFit(ts) && IsLast(ts[|ts| - 1]) && forall i :: 0 <= i < |ts| - 1 ==> !IsLast(ts[i])
    ensures SameOutcome(ParseTokens(a, r, ts), ParseTokens(b, r, Plain(ts)))
    decreases |ts|
  {
    hide Observe, Recognize, NoSave, Calm, Valid, Alike;
    var t, rest := ts[0], ts[1..];
    if |ts| == 1 {
      LastAlike(a, b, r, t);
      assert ts == [t];
    } else {
      assert !IsLast(t) && TextFits(t) && rest[0] == ts[1];
      if Observe(a, t.text).Seen? { CalmLater(a, ts); }
      if t.kind.Comment? {
        CommentIsQuiet(a, t.text);
        CommentIsSkipped(r, t);
        var ex := Observe(a, t.text).ex;
        AlikeTwice(ex, a, b);
        CommentsChangeNothing(ex, b, r, rest);
      } else {
        ObserveAlike(a, b, t.text);
        assert Plain(ts) == [t] + Plain(rest);
        StepAlike(a, b, r, ts);
      }
    }
  }

  /** A token that is no comment. */
  lemma {:induction false} StepAlike(a: Extractor, b: Extractor, r: Recognizer, ts: seq<Token>)
    requires Alike(a, b) && Valid(r) && |ts| > 1 && !ts[0].kind.Comment?
    requires ConfigGrammar.AllFit(ts) && IsLast(ts[|ts| - 1]) && forall i :: 0 <= i < |ts| - 1 ==> !IsLast(ts[i])
    requires AlikeObserved(Observe(a, ts[0].text), Observe(b, ts[0].text))
    requires Observe(a, ts[0].text).Seen? ==>
               Calm(ts[1..]) && (IsRemark(ts[1]) ==> NoSave(AfterToken(Observe(a, ts[0].text).ex, ts[0].kind).flags))
    ensures SameOutcome(ParseTokens(a, r, ts), ParseTokens(b, r, [ts[0]] + Plain(ts[1..])))
    decreases |ts|, 0
  {
    assert Depth(r.configs) == Depth(r.brackets) + 1;
    hide Observe, Recognize, NoSave, Calm, Valid, Alike, Plain;
    var t, rest := ts[0], ts[1..];
    var later := [t] + Plain(rest);
    assert later[0] == t && later[1..] == Plain(rest);
    var o, p := Observe(a, t.text), Observe(b, t.text);
    if o.Seen? {
      var u := Token(t.kind, o.text);
      RecognizeKeepsValid(r, u);
      NotTheLast(r, u);
      TablesAlike(o.ex, p.ex);
      if Recognize(r, u).Continue? {
        CloseAlike(o.ex, p.ex, t.kind);
        CommentsChangeNothing(AfterToken(o.ex, t.kind), AfterToken(p.ex, t.kind), Recognize(r, u).r, rest);
      }
    }
  }

  lemma {:induction false} PlainOf(ts: seq<Token>, end: Token)
    requires forall i :: 0 <= i < |ts| ==> !IsLast(ts[i])
    requires end.kind.Eof? && (end.text == "" || end.text[0] == '#')
    ensures Plain(ts + [end]) == Uncommented(ts) + [Token(Eof, "")]
    decreases |ts|
  {
    var all := ts + [end];
    if ts == [] {
      assert all == [end] && all[1..] == [] && Plain([]) == [];
      assert end.text == "" ==> end == Token(Eof, "");
    } else {
      assert all[1..] == ts[1..] + [end];
      PlainOf(ts[1..], end);
    }
  }

  lemma PlainOfSpelled(text: string, ts: seq<Token>)
    requires ConfigText.Spells(text, ts)
    ensures Plain(Tokens(text)) == ts + [Token(Eof, "")]
  {
    hide Tokens, ConfigText.Spells, Plain, Uncommented;
    ConfigText.TokensOfSpelled(text, ts);
    ConfigText.TokensEnd(text);
    var all := Tokens(text);
    assert all == all[..|all| - 1] + [all[|all| - 1]];
    PlainOf(all[..|all| - 1], all[|all| - 1]);
  }

  /** Two texts with the same tokens, comments aside, of which neither has a comment after a word that asks for a
      value, give the same verdict, tree and tables. */
  lemma SameWithoutComments(one: string, other: string, ts: seq<Token>)
    requires ConfigText.Spells(one, ts) && ConfigText.Spells(other, ts) && Calm(Tokens(one)) && Calm(Tokens(other))
    ensures SameOutcome(ParseText(one), ParseText(other))
  {
    hide Tokens, ConfigText.Spells, ParseTokens, Plain, Calm, Uncommented, Observe;
    StartIsValid();
    PlainOfSpelled(one, ts);
    PlainOfSpelled(other, ts);
    ConfigText.TokensEnd(one);
    ConfigText.TokensEnd(other);
    CommentsChangeNothing(BEGIN, BEGIN, START, Tokens(one));
    CommentsChangeNothing(BEGIN, BEGIN, START, Tokens(other));
  }
}
