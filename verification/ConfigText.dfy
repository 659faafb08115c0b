/** Writing a configuration as text, and reading it back through the tokenizer. */
module ConfigText {
  import opened Text
  import opened ConfigLexer
  import opened ConfigGrammar

  // ---- Words that can be written ----

  // Said without the classes of the tokenizer.

  /** What ends a bare word; a carriage return does not. */
  predicate Breaks(c: char) { c == ' ' || c == '\t' || c == '\n' || c == ';' || c == '{' || c == '}' }

  predicate NoneBreaks(s: string) { forall i :: 0 <= i < |s| ==> !Breaks(s[i]) }

  predicate IsBare(w: string) {
    && w != "" && NoneBreaks(w)
    && w[0] != '\r' && w[0] != '#' && w[0] != '\"' && w[0] != '\''
  }

  predicate IsQuoted(w: string) {
    && |w| >= 2
    && (w[0] == '\"' || w[0] == '\'')
    && w[|w| - 1] == w[0]
    && forall i :: 0 < i < |w| - 1 ==> w[i] != w[0]
  }

  predicate IsWord(w: string) { IsBare(w) || IsQuoted(w) }

  predicate IsWritable(t: Token) {
    match t.kind
    case Normal => IsWord(t.text)
    case StartBlock => t.text == "{"
    case EndBlock => t.text == "}"
    case StatementEnd => t.text == ";"
    case _ => false
  }

  ghost predicate AllWritable(ts: seq<Token>) { forall i :: 0 <= i < |ts| ==> IsWritable(ts[i]) }

  predicate StatementFits(s: Statement) {
    (forall i :: 0 <= i < |s.words| ==> IsWord(s.words[i])) && (s.Block? ==> WordsFit(s.statements))
  }

  /** All words of a configuration, at every depth, can be written. */
  predicate WordsFit(ss: seq<Statement>) {
    forall i :: 0 <= i < |ss| ==> StatementFits(ss[i])
  }

  // ---- Layout ----

  /** A piece of a text: a token, a blank, or a comment with the line end that closes it. */
  datatype Piece = Mark(t: Token) | Blank(c: char) | Remark(text: string, end: char)

  predicate NoLineEnd(s: string) { forall i :: 0 <= i < |s| ==> s[i] != '\n' && s[i] != '\r' }

  predicate IsPiece(p: Piece) {
    match p
    case Mark(t) => IsWritable(t)
    case Blank(c) => c == ' ' || c == '\t' || c == '\n' || c == '\r'
    case Remark(text, end) => NoLineEnd(text) && (end == '\n' || end == '\r')
  }

  function PieceText(p: Piece): string {
    match p
    case Mark(t) => t.text
    case Blank(c) => [c]
    case Remark(text, end) => "#" + text + [end]
  }

  function LaidOut(ps: seq<Piece>): string {
    if ps == [] then "" else PieceText(ps[0]) + LaidOut(ps[1..])
  }

  function MarkOf(p: Piece): seq<Token> {
    match p
    case Mark(t) => [t]
    case Blank(_) => []
    case Remark(text, _) => [Token(Comment, "#" + text)]
  }

  /** The tokens of a layout, comments included. */
  function Marks(ps: seq<Piece>): seq<Token> {
    if ps == [] then [] else MarkOf(ps[0]) + Marks(ps[1..])
  }

  predicate StartsBreaking(s: string) { s != "" && Breaks(s[0]) }

  /** Blanks and comments may stand anywhere, or be missing; only a bare word needs something after it that ends it. */
  ghost predicate Fits(ps: seq<Piece>) {
    ps == [] ||
    (IsPiece(ps[0]) && Fits(ps[1..]) &&
     (ps[0].Mark? && ps[0].t.kind.Normal? && IsBare(ps[0].t.text) ==> StartsBreaking(LaidOut(ps[1..]))))
  }

  /** A text may end in a comment without a line end. */
  predicate IsTail(tail: string) { tail == "" || (tail[0] == '#' && NoLineEnd(tail)) }

  /** The text is a layout of these tokens, with any blanks, line ends and comments between them. */
  ghost predicate SpelledBy(text: string, ts: seq<Token>, ps: seq<Piece>, tail: string) {
    Fits(ps) && IsTail(tail) && text == LaidOut(ps) + tail && Uncommented(Marks(ps)) == ts
  }

  ghost predicate Spells(text: string, ts: seq<Token>) { exists ps, tail :: SpelledBy(text, ts, ps, tail) }

  /** The plainest layout: every token followed by a blank. */
  function Written(ts: seq<Token>): string {
    if ts == [] then "" else ts[0].text + " " + Written(ts[1..])
  }

  function Print(ss: seq<Statement>): string { Written(ConfigTokens(ss)) }

  // ---- Reading back ----

  lemma {:induction false} ScanBare(value: string, w: string, rest: string)
    requires NoneBreaks(w) && StartsBreaking(rest)
    ensures Scan(w + rest, InNormal, value) == (Token(Normal, value + w), rest)
    decreases |w|
  {
    var s := w + rest;
    if w == "" {
      assert s == rest && value + w == value;
    } else {
      ScanBare(value + [w[0]], w[1..], rest);
      assert s[1..] == w[1..] + rest;
      assert value + [w[0]] + w[1..] == value + w;
    }
  }

  function QuoteState(q: char): State { if q == '\"' then DoubleQuote else SingleQuote }

  lemma {:induction false} ScanQuoted(q: char, value: string, w: string, rest: string)
    requires q == '\"' || q == '\''
    requires w != "" && w[|w| - 1] == q && forall i :: 0 <= i < |w| - 1 ==> w[i] != q
    ensures Scan(w + rest, QuoteState(q), value) == (Token(Normal, value + w), rest)
    decreases |w|
  {
    var s := w + rest;
    assert s[1..] == w[1..] + rest;
    if |w| == 1 {
      assert w == [q] && s[1..] == rest;
    } else {
      ScanQuoted(q, value + [w[0]], w[1..], rest);
      assert value + [w[0]] + w[1..] == value + w;
    }
  }

  lemma NextWord(w: string, rest: string)
    requires IsWord(w) && (IsBare(w) ==> StartsBreaking(rest))
    ensures Next(w + rest) == (Token(Normal, w), rest)
  {
    var s := w + rest;
    assert s[0] == w[0] && s[1..] == w[1..] + rest;
    assert [w[0]] + w[1..] == w;
    if IsBare(w) {
      ScanBare([w[0]], w[1..], rest);
      assert "" + [w[0]] == [w[0]];
    } else {
      ScanQuoted(w[0], [w[0]], w[1..], rest);
    }
  }

  lemma NextMark(t: Token, rest: string)
    requires IsWritable(t) && (t.kind.Normal? && IsBare(t.text) ==> StartsBreaking(rest))
    ensures Next(t.text + rest) == (t, rest)
  {
    if t.kind.Normal? {
      NextWord(t.text, rest);
    } else {
      var s := t.text + rest;
      assert s[0] == t.text[0] && s[1..] == rest;
    }
  }

  lemma {:induction false} ScanComment(value: string, c: string, rest: string)
    requires NoLineEnd(c)
    ensures rest == "" ==> Scan(c + rest, InComment, value) == (Token(Eof, value + c), "")
    ensures rest != "" && (rest[0] == '\n' || rest[0] == '\r') ==>
              Scan(c + rest, InComment, value) == (Token(Comment, value + c), rest[1..])
    decreases |c|
  {
    var s := c + rest;
    if c == "" {
      assert s == rest && value + c == value;
    } else {
      ScanComment(value + [c[0]], c[1..], rest);
      assert s[1..] == c[1..] + rest;
      assert value + [c[0]] + c[1..] == value + c;
    }
  }

  lemma BlankIsSkipped(c: char, rest: string)
    requires c == ' ' || c == '\t' || c == '\n' || c == '\r'
    ensures Tokens([c] + rest) == Tokens(rest)
  {
    assert ([c] + rest)[1..] == rest;
    NextProgress(rest);
    NextProgress([c] + rest);
  }

  /** A comment goes up to the end of its line, and no further. */
  lemma CommentIsRead(c: string, end: char, rest: string)
    requires NoLineEnd(c) && (end == '\n' || end == '\r')
    ensures Tokens("#" + c + [end] + rest) == [Token(Comment, "#" + c)] + Tokens(rest)
  {
    var s := "#" + c + [end] + rest;
    ScanComment("#", c, [end] + rest);
    assert s[1..] == c + ([end] + rest) && ([end] + rest)[1..] == rest;
    assert Next(s) == (Token(Comment, "#" + c), rest);
    NextProgress(s);
  }

  lemma MarkIsRead(t: Token, rest: string)
    requires IsWritable(t) && (t.kind.Normal? && IsBare(t.text) ==> StartsBreaking(rest))
    ensures Tokens(t.text + rest) == [t] + Tokens(rest)
  {
    NextMark(t, rest);
    NextProgress(t.text + rest);
  }

  lemma TailIsRead(tail: string)
    requires IsTail(tail)
    ensures Tokens(tail) == [Token(Eof, tail)]
  {
    if tail != "" {
      var c := tail[1..];
      ScanComment("#", c, "");
      assert c + "" == c && "#" + c == tail;
    }
    assert Next(tail) == (Token(Eof, tail), "");
  }

  lemma StillBreaking(s: string, tail: string)
    requires StartsBreaking(s)
    ensures StartsBreaking(s + tail)
  {
    assert (s + tail)[0] == s[0];
  }

  lemma PieceIsRead(p: Piece, rest: string)
    requires IsPiece(p) && (p.Mark? && p.t.kind.Normal? && IsBare(p.t.text) ==> StartsBreaking(rest))
    ensures Tokens(PieceText(p) + rest) == MarkOf(p) + Tokens(rest)
  {
    hide Tokens, StartsBreaking, IsBare;
    match p
    case Mark(t) => MarkIsRead(t, rest);
    case Blank(c) => BlankIsSkipped(c, rest); assert [] + Tokens(rest) == Tokens(rest);
    case Remark(text, end) => CommentIsRead(text, end, rest);
  }

  /** The tokenizer reads a layout as its tokens and comments, whatever stands between them. */
  lemma {:induction false} TokensOfLayout(ps: seq<Piece>, tail: string)
    requires Fits(ps) && IsTail(tail)
    ensures Tokens(LaidOut(ps) + tail) == Marks(ps) + [Token(Eof, tail)]
  {
    hide Tokens, IsPiece, StartsBreaking, IsWritable, IsTail, PieceText, MarkOf, IsBare;
    if ps == [] {
      assert LaidOut(ps) + tail == tail;
      TailIsRead(tail);
    } else {
      var rest := LaidOut(ps[1..]) + tail;
      TokensOfLayout(ps[1..], tail);
      Assoc(PieceText(ps[0]), LaidOut(ps[1..]), tail);
      if ps[0].Mark? && ps[0].t.kind.Normal? && IsBare(ps[0].t.text) { StillBreaking(LaidOut(ps[1..]), tail); }
      PieceIsRead(ps[0], rest);
      Assoc(MarkOf(ps[0]), Marks(ps[1..]), [Token(Eof, tail)]);
    }
  }

  /** What the tokenizer makes of a spelled text: the tokens with comments among them, and an end that is empty or
      a comment. */
  lemma TokensOfSpelled(text: string, ts: seq<Token>)
    requires Spells(text, ts)
    ensures var all := Tokens(text); var end := all[|all| - 1];
            && end.kind.Eof? && (end.text == "" || end.text[0] == '#')
            && Uncommented(all[..|all| - 1]) == ts
  {
    hide Tokens, Fits, LaidOut, Marks, Uncommented;
    var ps, tail :| SpelledBy(text, ts, ps, tail);
    TokensOfLayout(ps, tail);
    assert (Marks(ps) + [Token(Eof, tail)])[..|Marks(ps)|] == Marks(ps);
  }

  function PlainPieces(ts: seq<Token>): seq<Piece> {
    if ts == [] then [] else [Mark(ts[0]), Blank(' ')] + PlainPieces(ts[1..])
  }

  lemma BlankFirst(more: seq<Piece>)
    requires Fits(more)
    ensures var ps := [Blank(' ')] + more;
            Fits(ps) && LaidOut(ps) == " " + LaidOut(more) && StartsBreaking(LaidOut(ps)) && Marks(ps) == Marks(more)
  {
    var ps := [Blank(' ')] + more;
    assert ps[1..] == more && ps[0] == Blank(' ');
    assert [] + Marks(more) == Marks(more);
  }

  lemma {:induction false} PlainLayout(ts: seq<Token>)
    requires AllWritable(ts)
    ensures Fits(PlainPieces(ts)) && LaidOut(PlainPieces(ts)) == Written(ts) && Marks(PlainPieces(ts)) == ts
  {
    hide IsWritable, IsBare;
    if ts != [] {
      PlainLayout(ts[1..]);
      var ps, more := PlainPieces(ts), PlainPieces(ts[1..]);
      hide PlainPieces, AllWritable;
      BlankFirst(more);
      assert ps[1..] == [Blank(' ')] + more && ps[0] == Mark(ts[0]);
      hide Written;
      Assoc(ts[0].text, " ", LaidOut(more));
      assert [ts[0]] + ts[1..] == ts;
    }
  }

  /** The tokenizer gives back exactly the tokens that were written. */
  lemma TokensOfWritten(ts: seq<Token>)
    requires AllWritable(ts)
    ensures Tokens(Written(ts)) == ts + [Token(Eof, "")]
  {
    hide Tokens, AllWritable, Written;
    PlainLayout(ts);
    TokensOfLayout(PlainPieces(ts), "");
    assert Written(ts) + "" == Written(ts);
  }

  lemma {:induction false} WordsWritable(ws: seq<string>)
    requires forall i :: 0 <= i < |ws| ==> IsWord(ws[i])
    ensures AllWritable(WordTokens(ws))
  {
    if ws != [] { WordsWritable(ws[1..]); }
  }

  lemma {:induction false} ConfigWritable(ss: seq<Statement>)
    requires WordsFit(ss)
    ensures AllWritable(ConfigTokens(ss))
    decreases ss
  {
    if ss != [] {
      StatementWritable(ss[0]);
      ConfigWritable(ss[1..]);
    }
  }

  lemma {:induction false} StatementWritable(s: Statement)
    requires StatementFits(s)
    ensures AllWritable(StatementTokens(s))
    decreases s
  {
    WordsWritable(s.words);
    if s.Block? { ConfigWritable(s.statements); }
  }

  // ---- What every token list of an input satisfies ----

  lemma {:induction false} TokensEnd(rest: string)
    ensures IsLast(Tokens(rest)[|Tokens(rest)| - 1])
    ensures forall i :: 0 <= i < |Tokens(rest)| - 1 ==> !IsLast(Tokens(rest)[i])
    ensures AllFit(Tokens(rest))
    decreases |rest|
  {
    ScanTextFits(rest, InitialWhitespace, "");
    var (t, more) := Next(rest);
    if !IsLast(t) {
      NextProgress(rest);
      TokensEnd(more);
    }
  }

  lemma {:induction false} NothingUncommented(ts: seq<Token>)
    requires forall i :: 0 <= i < |ts| ==> !ts[i].kind.Comment?
    ensures Uncommented(ts) == ts
  {
    if ts != [] { NothingUncommented(ts[1..]); }
  }

  /** Text round trip of the tokenizer and the recognizer: a configuration in any layout is accepted and gives
      its statement tree. */
  lemma SpelledIsAccepted(text: string, ss: seq<Statement>)
    requires IsConfig(ss) && Spells(text, ConfigTokens(ss))
    ensures RunTokens(START, Tokens(text)) == Accept(ss)
  {
    hide Tokens, Spells, Uncommented, RunTokens, ConfigTokens;
    var all := Tokens(text);
    TokensOfSpelled(text, ConfigTokens(ss));
    assert all == all[..|all| - 1] + [all[|all| - 1]];
    GrammarIsAccepted(all[..|all| - 1], all[|all| - 1], ss);
  }

  lemma WritableUncommented(ts: seq<Token>)
    requires AllWritable(ts)
    ensures Uncommented(ts) == ts
  {
    NothingUncommented(ts);
  }

  /** Words that can be written have a layout. */
  lemma PrintSpells(ss: seq<Statement>)
    requires WordsFit(ss)
    ensures Spells(Print(ss), ConfigTokens(ss))
  {
    var ts := ConfigTokens(ss);
    ConfigWritable(ss);
    PlainLayout(ts);
    WritableUncommented(ts);
    hide Fits, LaidOut, Marks, Uncommented;
    assert Written(ts) + "" == Written(ts);
    assert SpelledBy(Print(ss), ts, PlainPieces(ts), "");
  }

  lemma {:induction false} ErrorIsRejected(r: Recognizer, ts: seq<Token>, end: Token)
    requires Valid(r) && end.kind.Error? && (forall i :: 0 <= i < |ts| ==> !IsLast(ts[i]))
    ensures RunTokens(r, ts + [end]).Reject?
    decreases |ts|
  {
    if ts == [] {
      assert ts + [end] == [end];
    } else {
      RecognizeKeepsValid(r, ts[0]);
      assert (ts + [end])[1..] == ts[1..] + [end];
      if Recognize(r, ts[0]).Continue? { ErrorIsRejected(Recognize(r, ts[0]).r, ts[1..], end); }
    }
  }

  /** Over any input text: accepted exactly when the text ends well and its tokens, comments aside,
      are in the grammar; and then the tree is the one the grammar gives. */
  lemma TextAccepted(text: string)
    ensures var all := Tokens(text); var ts := all[..|all| - 1];
            && (RunTokens(START, all).Accept? <==>
                 all[|all| - 1].kind.Eof? && exists ss :: IsConfig(ss) && Uncommented(ts) == ConfigTokens(ss))
            && (forall ss :: all[|all| - 1].kind.Eof? && IsConfig(ss) && Uncommented(ts) == ConfigTokens(ss)
                  ==> RunTokens(START, all) == Accept(ss))
  {
    hide RunTokens, ConfigTokens, Uncommented, Tokens;
    var all := Tokens(text);
    var ts, end := all[..|all| - 1], all[|all| - 1];
    TokensEnd(text);
    assert all == ts + [end];
    if end.kind.Eof? {
      AcceptsExactlyTheGrammar(ts, end);
    } else {
      ErrorIsRejected(START, ts, end);
    }
  }
}
