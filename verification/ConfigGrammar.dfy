/** The grammar of configurations, and the two-stack recognizer that builds the statement tree. */
module ConfigGrammar {
  import opened Text
  import opened ConfigLexer

  /** A statement ends with ";" or has a block of statements (`child_block_`). */
  datatype Statement =
    | Simple(words: seq<string>)
    | Block(words: seq<string>, statements: seq<Statement>)

  predicate IsStatement(s: Statement) {
    s.words != [] && (s.Block? ==> IsConfig(s.statements))
  }

  /** Every statement, at every depth, has at least one word. */
  predicate IsConfig(ss: seq<Statement>) {
    forall i :: 0 <= i < |ss| ==> IsStatement(ss[i])
  }

  // ---- The grammar: config = statement*, statement = word+ ";" | word+ "{" config "}" ----

  function WordTokens(words: seq<string>): seq<Token> {
    if words == [] then [] else [Token(Normal, words[0])] + WordTokens(words[1..])
  }

  function ConfigTokens(ss: seq<Statement>): seq<Token>
    decreases ss
  {
    if ss == [] then [] else StatementTokens(ss[0]) + ConfigTokens(ss[1..])
  }

  function StatementTokens(s: Statement): seq<Token>
    decreases s
  {
    WordTokens(s.words) +
    match s
    case Simple(_) => [Token(StatementEnd, ";")]
    case Block(_, statements) => [Token(StartBlock, "{")] + ConfigTokens(statements) + [Token(EndBlock, "}")]
  }

  /** The tokens without comments. */
  function Uncommented(ts: seq<Token>): seq<Token> {
    if ts == [] then []
    else (if ts[0].kind.Comment? then [] else [ts[0]]) + Uncommented(ts[1..])
  }

  // ---- The recognizer ----

  /** `std::stack`. */
  datatype Stack<T> = Empty | Push(top: T, below: Stack<T>)

  function Depth<T>(s: Stack<T>): (d: nat)
    ensures d == 0 <==> s.Empty?
  {
    if s.Empty? then 0 else 1 + Depth(s.below)
  }

  /** An entry of the config stack: finished statements, and the words of the one being read. */
  datatype Frame = Frame(done: seq<Statement>, words: seq<string>)

  datatype Recognizer = Recognizer(last: TokenType, configs: Stack<Frame>, brackets: Stack<TokenType>)

  const START: Recognizer := Recognizer(Start, Push(Frame([], []), Empty), Empty)

  datatype Verdict = Continue(r: Recognizer) | Accept(statements: seq<Statement>) | Reject

  /** Frames under the top one have an open statement. */
  predicate OpenFrames(s: Stack<Frame>) {
    s.Empty? || (IsConfig(s.top.done) && s.top.words != [] && OpenFrames(s.below))
  }

  /** The config stack is one deeper than the bracket stack; words are pending in a frame exactly while
      its last statement is open. */
  predicate Valid(r: Recognizer) {
    && Depth(r.configs) == Depth(r.brackets) + 1
    && (r.last.Start? || r.last.Normal? || r.last.StatementEnd? || r.last.StartBlock? || r.last.EndBlock?)
    && (r.last.Start? ==> r == START)
    && IsConfig(r.configs.top.done)
    && OpenFrames(r.configs.below)
    && (r.configs.top.words != [] <==> r.last.Normal?)
  }

  function Recognize(r: Recognizer, t: Token): Verdict
    requires Depth(r.configs) == Depth(r.brackets) + 1
  {
    var f := r.configs.top;
    match t.kind
    case Error => Reject
    case Comment => Continue(r)
    case Start => Reject
    case Normal =>
      Continue(Recognizer(Normal, Push(Frame(f.done, f.words + [t.text]), r.configs.below), r.brackets))
    case StatementEnd =>
      if !r.last.Normal? then Reject
      else Continue(Recognizer(StatementEnd, Push(Frame(f.done + [Simple(f.words)], []), r.configs.below), r.brackets))
    case StartBlock =>
      if !r.last.Normal? then Reject
      else Continue(Recognizer(StartBlock, Push(Frame([], []), r.configs), Push(StartBlock, r.brackets)))
    case EndBlock =>
      if !(r.last.StatementEnd? || r.last.EndBlock? || r.last.StartBlock?) || r.brackets.Empty? then Reject
      else
        var g := r.configs.below.top;
        Continue(Recognizer(EndBlock, Push(Frame(g.done + [Block(g.words, f.done)], []), r.configs.below.below),
                            r.brackets.below))
    case Eof =>
      if !(r.last.StatementEnd? || r.last.EndBlock? || r.last.Start?) then Reject
      else if r.brackets.Empty? then Accept(f.done) else Reject
  }

  lemma IsConfigAppend(ss: seq<Statement>, s: Statement)
    requires IsConfig(ss) && IsStatement(s)
    ensures IsConfig(ss + [s])
  {}

  lemma RecognizeKeepsValid(r: Recognizer, t: Token)
    requires Valid(r)
    ensures Recognize(r, t).Continue? ==> Valid(Recognize(r, t).r)
  {
    var f := r.configs.top;
    match t.kind
    case StatementEnd => if r.last.Normal? { IsConfigAppend(f.done, Simple(f.words)); }
    case EndBlock =>
      if !r.brackets.Empty? {
        var g := r.configs.below.top;
        assert Depth(r.configs.below) == Depth(r.configs.below.below) + 1;
        assert Depth(r.brackets) == Depth(r.brackets.below) + 1;
        IsConfigAppend(g.done, Block(g.words, f.done));
      }
    case _ =>
  }

  /** The recognizer over a list of tokens; a list that ends too early is not accepted. */
  function RunTokens(r: Recognizer, ts: seq<Token>): Verdict
    requires Depth(r.configs) == Depth(r.brackets) + 1
    decreases |ts|
  {
    if ts == [] then Reject else
    var v := Recognize(r, ts[0]);
    if v.Continue? then RunTokens(v.r, ts[1..]) else v
  }

  // ---- Soundness: the consumed tokens are the text of the stacks ----

  function FrameTokens(f: Frame): seq<Token> { ConfigTokens(f.done) + WordTokens(f.words) }

  /** The tokens that the frames of the config stack stand for. */
  function StackTokens(s: Stack<Frame>): seq<Token> {
    if s.Empty? then []
    else if s.below.Empty? then FrameTokens(s.top)
    else StackTokens(s.below) + [Token(StartBlock, "{")] + FrameTokens(s.top)
  }

  lemma {:induction false} WordTokensAppend(ws: seq<string>, w: string)
    ensures WordTokens(ws + [w]) == WordTokens(ws) + [Token(Normal, w)]
  {
    if ws == [] {
      assert ws + [w] == [w];
    } else {
      WordTokensAppend(ws[1..], w);
      assert (ws + [w])[1..] == ws[1..] + [w];
    }
  }

  lemma {:induction false} ConfigTokensAppend(ss: seq<Statement>, s: Statement)
    ensures ConfigTokens(ss + [s]) == ConfigTokens(ss) + StatementTokens(s)
  {
    hide StatementTokens;
    if ss == [] {
      assert ss + [s] == [s];
    } else {
      ConfigTokensAppend(ss[1..], s);
      assert (ss + [s])[1..] == ss[1..] + [s];
    }
  }

  /** Replacing the top frame. */
  lemma StackTokensTop(f: Frame, g: Frame, below: Stack<Frame>, more: seq<Token>)
    requires FrameTokens(g) == FrameTokens(f) + more
    ensures StackTokens(Push(g, below)) == StackTokens(Push(f, below)) + more
  {
    hide FrameTokens;
    if !below.Empty? {
      var head := StackTokens(below) + [Token(StartBlock, "{")];
      assert head + (FrameTokens(f) + more) == head + FrameTokens(f) + more;
    }
  }

  lemma WordJoins(f: Frame, w: string)
    ensures FrameTokens(Frame(f.done, f.words + [w])) == FrameTokens(f) + [Token(Normal, w)]
  {
    WordTokensAppend(f.words, w);
    assert ConfigTokens(f.done) + (WordTokens(f.words) + [Token(Normal, w)]) == FrameTokens(f) + [Token(Normal, w)];
  }

  /** The open statement of a frame is finished as s. */
  lemma StatementJoins(f: Frame, s: Statement, more: seq<Token>)
    requires StatementTokens(s) == WordTokens(f.words) + more
    ensures FrameTokens(Frame(f.done + [s], [])) == FrameTokens(f) + more
  {
    ConfigTokensAppend(f.done, s);
    assert ConfigTokens(f.done) + (WordTokens(f.words) + more) == FrameTokens(f) + more;
  }

  lemma Regroup<T>(a: seq<T>, b: seq<T>, c: seq<T>, d: seq<T>)
    ensures a + (b + c + d) == a + b + c + d
  {}

  lemma CloseConsumes(f: Frame, g: Frame, below: Stack<Frame>)
    requires f.words == []
    ensures StackTokens(Push(Frame(g.done + [Block(g.words, f.done)], []), below))
         == StackTokens(Push(f, Push(g, below))) + [Token(EndBlock, "}")]
  {
    var inner := [Token(StartBlock, "{")] + ConfigTokens(f.done) + [Token(EndBlock, "}")];
    StatementJoins(g, Block(g.words, f.done), inner);
    StackTokensTop(g, Frame(g.done + [Block(g.words, f.done)], []), below, inner);
    assert FrameTokens(f) == ConfigTokens(f.done);
    Regroup(StackTokens(Push(g, below)), [Token(StartBlock, "{")], ConfigTokens(f.done), [Token(EndBlock, "}")]);
  }

  lemma RecognizeConsumes(r: Recognizer, t: Token)
    requires Valid(r) && TextFits(t) && Recognize(r, t).Continue? && !t.kind.Comment?
    ensures StackTokens(Recognize(r, t).r.configs) == StackTokens(r.configs) + [t]
  {
    var f, below := r.configs.top, r.configs.below;
    match t.kind
    case Normal =>
      WordJoins(f, t.text);
      StackTokensTop(f, Frame(f.done, f.words + [t.text]), below, [t]);
    case StatementEnd =>
      StatementJoins(f, Simple(f.words), [t]);
      StackTokensTop(f, Frame(f.done + [Simple(f.words)], []), below, [t]);
    case StartBlock =>
      assert FrameTokens(Frame([], [])) == [];
      assert StackTokens(r.configs) + [t] + [] == StackTokens(r.configs) + [t];
    case EndBlock =>
      CloseConsumes(f, below.top, below.below);
    case _ =>
  }

  ghost predicate AllFit(ts: seq<Token>) { forall i :: 0 <= i < |ts| ==> TextFits(ts[i]) }

  lemma UncommentedOne(t: Token)
    ensures Uncommented([t]) == if t.kind.Comment? then [] else [t]
  {
    assert [t][1..] == [] && Uncommented([]) == [];
  }

  lemma RunLast(r: Recognizer, end: Token)
    requires Valid(r) && RunTokens(r, [end]).Accept?
    ensures Recognize(r, end) == RunTokens(r, [end])
  {
    hide Recognize;
    assert [end][1..] == [];
  }

  lemma NotTheLast(r: Recognizer, t: Token)
    requires Valid(r) && !IsLast(t)
    ensures !Recognize(r, t).Accept?
  {}

  /** The first step of an accepting run. */
  lemma RunHead(r: Recognizer, t: Token, rest: seq<Token>)
    requires Valid(r) && !IsLast(t) && RunTokens(r, [t] + rest).Accept?
    ensures Recognize(r, t).Continue? && Valid(Recognize(r, t).r)
    ensures Depth(Recognize(r, t).r.configs) == Depth(Recognize(r, t).r.brackets) + 1
    ensures RunTokens(r, [t] + rest) == RunTokens(Recognize(r, t).r, rest)
  {
    hide Recognize;
    NotTheLast(r, t);
    RecognizeKeepsValid(r, t);
    assert ([t] + rest)[1..] == rest;
  }

  lemma CommentIsSkipped(r: Recognizer, t: Token)
    requires Valid(r) && t.kind.Comment?
    ensures Recognize(r, t) == Continue(r)
  {}

  lemma ConsumesOrSkips(r: Recognizer, t: Token)
    requires Valid(r) && TextFits(t) && Recognize(r, t).Continue?
    ensures StackTokens(Recognize(r, t).r.configs) == StackTokens(r.configs) + Uncommented([t])
  {
    UncommentedOne(t);
    hide Recognize, Valid, StackTokens, Uncommented;
    if t.kind.Comment? {
      CommentIsSkipped(r, t);
      assert StackTokens(r.configs) + [] == StackTokens(r.configs);
    } else {
      RecognizeConsumes(r, t);
    }
  }

  lemma AcceptedStack(r: Recognizer, end: Token)
    requires Valid(r) && end.kind.Eof? && Recognize(r, end).Accept?
    ensures IsConfig(Recognize(r, end).statements)
    ensures StackTokens(r.configs) + [] == ConfigTokens(Recognize(r, end).statements)
  {
    assert WordTokens(r.configs.top.words) == [];
    assert FrameTokens(r.configs.top) == ConfigTokens(r.configs.top.done);
  }

  /** What is accepted is in the grammar, and the tree is its tree. */
  lemma {:induction false} RunSound(r: Recognizer, ts: seq<Token>, end: Token)
    requires Valid(r) && AllFit(ts) && end.kind.Eof? && (forall i :: 0 <= i < |ts| ==> !IsLast(ts[i]))
    requires RunTokens(r, ts + [end]).Accept?
    ensures IsConfig(RunTokens(r, ts + [end]).statements)
    ensures StackTokens(r.configs) + Uncommented(ts) == ConfigTokens(RunTokens(r, ts + [end]).statements)
    decreases |ts|
  {
    assert Depth(r.configs) == Depth(r.brackets) + 1;
    hide Recognize, StackTokens, ConfigTokens, Valid, IsConfig;
    if ts == [] {
      assert ts + [end] == [end];
      RunLast(r, end);
      AcceptedStack(r, end);
    } else {
      var t, rest := ts[0], ts[1..];
      assert Uncommented(ts) == Uncommented([t]) + Uncommented(rest) by { UncommentedOne(t); }
      hide RunTokens, Uncommented;
      assert ts + [end] == [t] + (rest + [end]);
      RunHead(r, t, rest + [end]);
      var next := Recognize(r, t).r;
      RunSound(next, rest, end);
      ConsumesOrSkips(r, t);
      Assoc(StackTokens(r.configs), Uncommented([t]), Uncommented(rest));
    }
  }

  // ---- Completeness ----

  /** A recognizer between statements. */
  predicate Between(r: Recognizer) { Valid(r) && !r.last.Normal? }

  function AddWords(r: Recognizer, ws: seq<string>): Recognizer
    requires r.configs.Push?
  {
    Recognizer(Normal, Push(Frame(r.configs.top.done, r.configs.top.words + ws), r.configs.below), r.brackets)
  }

  function AddDone(r: Recognizer, ss: seq<Statement>, last: TokenType): Recognizer
    requires r.configs.Push?
  {
    Recognizer(last, Push(Frame(r.configs.top.done + ss, []), r.configs.below), r.brackets)
  }

  lemma FirstWord(r: Recognizer, w: string)
    requires Valid(r)
    ensures Recognize(r, Token(Normal, w)) == Continue(AddWords(r, [w]))
  {}

  lemma AddWordsTwice(r: Recognizer, w: string, ws: seq<string>)
    requires r.configs.Push?
    ensures AddWords(AddWords(r, [w]), ws) == AddWords(r, [w] + ws)
  {
    assert r.configs.top.words + [w] + ws == r.configs.top.words + ([w] + ws);
  }

  lemma FirstWordToken(w: string, ws: seq<string>, rest: seq<Token>)
    ensures WordTokens([w] + ws) + rest == [Token(Normal, w)] + (WordTokens(ws) + rest)
  {
    assert ([w] + ws)[1..] == ws;
  }

  /** One token whose verdict is known. */
  lemma RunOne(r: Recognizer, t: Token, r1: Recognizer, rest: seq<Token>)
    requires Valid(r) && Recognize(r, t) == Continue(r1)
    ensures Valid(r1) && r1.configs.Push? && Depth(r1.configs) == Depth(r1.brackets) + 1
    ensures RunTokens(r, [t] + rest) == RunTokens(r1, rest)
  {
    hide Recognize;
    RecognizeKeepsValid(r, t);
    assert ([t] + rest)[1..] == rest;
  }

  lemma {:induction false} RunWords(r: Recognizer, ws: seq<string>, rest: seq<Token>)
    requires Valid(r) && ws != []
    ensures Valid(AddWords(r, ws)) && RunTokens(r, WordTokens(ws) + rest) == RunTokens(AddWords(r, ws), rest)
    decreases |ws|
  {
    var t, more := Token(Normal, ws[0]), ws[1..];
    var r0, later := AddWords(r, [ws[0]]), WordTokens(more) + rest;
    assert ws == [ws[0]] + more;
    FirstWord(r, ws[0]);
    FirstWordToken(ws[0], more, rest);
    assert more == [] ==> later == rest;
    hide RunTokens, Recognize, Valid, WordTokens, AddWords;
    RunOne(r, t, r0, later);
    if more != [] {
      RunWords(r0, more, rest);
      AddWordsTwice(r, ws[0], more);
    } else {
      assert ws == [ws[0]];
    }
  }

  lemma RegroupBlock<T>(a: seq<T>, b: seq<T>, c: seq<T>, d: seq<T>, e: seq<T>)
    ensures a + (b + c + d) + e == a + (b + (c + (d + e)))
  {}

  lemma {:induction false} RunConfig(r: Recognizer, ss: seq<Statement>, rest: seq<Token>) returns (r1: Recognizer)
    requires Between(r) && IsConfig(ss)
    ensures Between(r1) && Depth(r1.configs) == Depth(r1.brackets) + 1
    ensures RunTokens(r, ConfigTokens(ss) + rest) == RunTokens(r1, rest)
    ensures r1.brackets == r.brackets && r1.configs.below == r.configs.below
    ensures r1.configs.top == Frame(r.configs.top.done + ss, [])
    ensures r1.last == r.last || r1.last.StatementEnd? || r1.last.EndBlock?
    decreases ss
  {
    hide RunTokens, Recognize;
    if ss == [] {
      r1 := r;
      assert ConfigTokens(ss) + rest == rest;
      assert r.configs.top.done + ss == r.configs.top.done;
    } else {
      var later := ConfigTokens(ss[1..]) + rest;
      assert ConfigTokens(ss) + rest == StatementTokens(ss[0]) + later;
      assert r.configs.Push? && IsConfig(ss[1..]) && IsStatement(ss[0]);
      hide ConfigTokens, StatementTokens, Between, IsConfig, IsStatement;
      var last := RunStatement(r, ss[0], later);
      r1 := RunConfig(AddDone(r, [ss[0]], last), ss[1..], rest);
      Assoc(r.configs.top.done, [ss[0]], ss[1..]);
      assert [ss[0]] + ss[1..] == ss;
    }
  }

  lemma {:induction false} RunStatement(r: Recognizer, s: Statement, rest: seq<Token>) returns (last: TokenType)
    requires Between(r) && IsStatement(s)
    ensures last.StatementEnd? || last.EndBlock?
    ensures var r1 := AddDone(r, [s], last); Between(r1) && Depth(r1.configs) == Depth(r1.brackets) + 1
    ensures RunTokens(r, StatementTokens(s) + rest) == RunTokens(AddDone(r, [s], last), rest)
    decreases s
  {
    hide RunTokens;
    var r1 := AddWords(r, s.words);
    assert [] + s.words == s.words;
    match s
    case Simple(words) =>
      var t := Token(StatementEnd, ";");
      last := StatementEnd;
      assert StatementTokens(s) + rest == WordTokens(words) + ([t] + rest);
      RunWords(r, words, [t] + rest);
      RunOne(r1, t, AddDone(r, [s], last), rest);
    case Block(words, inner) =>
      var open, close := Token(StartBlock, "{"), Token(EndBlock, "}");
      var tail := ConfigTokens(inner) + ([close] + rest);
      RegroupBlock(WordTokens(words), [open], ConfigTokens(inner), [close], rest);
      RunWords(r, words, [open] + tail);
      var r2 := Recognizer(StartBlock, Push(Frame([], []), r1.configs), Push(StartBlock, r1.brackets));
      RunOne(r1, open, r2, tail);
      var r3 := RunConfig(r2, inner, [close] + rest);
      last := EndBlock;
      assert [] + inner == inner;
      RunOne(r3, close, AddDone(r, [s], last), rest);
  }

  lemma {:induction false} RunUncommented(r: Recognizer, ts: seq<Token>)
    requires Valid(r)
    ensures RunTokens(r, ts) == RunTokens(r, Uncommented(ts))
    decreases |ts|
  {
    if ts != [] {
      if ts[0].kind.Comment? {
        RunUncommented(r, ts[1..]);
        assert Uncommented(ts) == Uncommented(ts[1..]);
        assert Recognize(r, ts[0]) == Continue(r);
      } else {
        assert Uncommented(ts)[1..] == Uncommented(ts[1..]);
        if Recognize(r, ts[0]).Continue? {
          RecognizeKeepsValid(r, ts[0]);
          RunUncommented(Recognize(r, ts[0]).r, ts[1..]);
        }
      }
    }
  }

  lemma StartIsEmpty()
    ensures StackTokens(START.configs) == []
  {
    assert FrameTokens(Frame([], [])) == [];
  }

  lemma RunEnd(r: Recognizer, end: Token)
    requires Between(r) && end.kind.Eof? && r.brackets.Empty? && !r.last.StartBlock?
    ensures RunTokens(r, [end]) == Accept(r.configs.top.done)
  {}

  lemma {:induction false} UncommentedAppend(ts: seq<Token>, t: Token)
    requires !t.kind.Comment?
    ensures Uncommented(ts + [t]) == Uncommented(ts) + [t]
  {
    if ts == [] {
      assert ts + [t] == [t];
    } else {
      UncommentedAppend(ts[1..], t);
      assert (ts + [t])[1..] == ts[1..] + [t];
    }
  }

  lemma GrammarIsAccepted(ts: seq<Token>, end: Token, ss: seq<Statement>)
    requires IsConfig(ss) && Uncommented(ts) == ConfigTokens(ss) && end.kind.Eof?
    ensures RunTokens(START, ts + [end]) == Accept(ss)
  {
    hide RunTokens, Recognize, ConfigTokens, Uncommented;
    RunUncommented(START, ts + [end]);
    UncommentedAppend(ts, end);
    var r1 := RunConfig(START, ss, [end]);
    assert [] + ss == ss;
    RunEnd(r1, end);
  }

  /** The recognizer accepts exactly the grammar, comments aside, and builds the tree of the text;
      the grammar is unambiguous. `ts` are the tokens before the end of the input. */
  lemma AcceptsExactlyTheGrammar(ts: seq<Token>, end: Token)
    requires AllFit(ts) && end.kind.Eof? && (forall i :: 0 <= i < |ts| ==> !IsLast(ts[i]))
    ensures RunTokens(START, ts + [end]).Accept? <==> exists ss :: IsConfig(ss) && Uncommented(ts) == ConfigTokens(ss)
    ensures forall ss :: IsConfig(ss) && Uncommented(ts) == ConfigTokens(ss) ==>
              RunTokens(START, ts + [end]) == Accept(ss)
  {
    hide Recognize, StackTokens, RunTokens;
    forall ss | IsConfig(ss) && Uncommented(ts) == ConfigTokens(ss)
      ensures RunTokens(START, ts + [end]) == Accept(ss)
    {
      GrammarIsAccepted(ts, end, ss);
    }
    if RunTokens(START, ts + [end]).Accept? {
      RunSound(START, ts, end);
      StartIsEmpty();
      assert [] + Uncommented(ts) == Uncommented(ts);
    }
  }
}
