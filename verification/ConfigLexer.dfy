/** The tokenizer of the configuration parser: one byte at a time, with one byte of unget. */
module ConfigLexer {
  datatype TokenType = Start | Normal | StartBlock | EndBlock | Comment | StatementEnd | Eof | Error

  datatype Token = Token(kind: TokenType, text: string)

  datatype State = InitialWhitespace | SingleQuote | DoubleQuote | InComment | InNormal

  predicate IsBlank(c: char) { c == ' ' || c == '\t' || c == '\n' || c == '\r' }

  /** A carriage return does not end a bare token. */
  predicate EndsBare(c: char) { c == ' ' || c == '\t' || c == '\n' || c == ';' || c == '{' || c == '}' }

  /** The next token of `rest` and what is left of the input after it. */
  function Scan(rest: string, st: State, value: string): (r: (Token, string))
    decreases |rest|
  {
    if rest == "" then (Token(if st.SingleQuote? || st.DoubleQuote? then Error else Eof, value), "") else
    var c, more := rest[0], rest[1..];
    match st
    case InitialWhitespace =>
      if c == '{' then (Token(StartBlock, [c]), more)
      else if c == '}' then (Token(EndBlock, [c]), more)
      else if c == '#' then Scan(more, InComment, [c])
      else if c == '\"' then Scan(more, DoubleQuote, [c])
      else if c == '\'' then Scan(more, SingleQuote, [c])
      else if c == ';' then (Token(StatementEnd, [c]), more)
      else if IsBlank(c) then Scan(more, InitialWhitespace, value)
      else Scan(more, InNormal, value + [c])
    case SingleQuote =>
      if c == '\'' then (Token(Normal, value + [c]), more) else Scan(more, SingleQuote, value + [c])
    case DoubleQuote =>
      if c == '\"' then (Token(Normal, value + [c]), more) else Scan(more, DoubleQuote, value + [c])
    case InComment =>
      if c == '\n' || c == '\r' then (Token(Comment, value), more) else Scan(more, InComment, value + [c])
    case InNormal =>
      if EndsBare(c) then (Token(Normal, value), rest) else Scan(more, InNormal, value + [c])
  }

  function Next(rest: string): (Token, string) { Scan(rest, InitialWhitespace, "") }

  predicate IsLast(t: Token) { t.kind.Eof? || t.kind.Error? }

  /** A token that is not the last one takes at least one byte, in spite of the unget; the last one
      leaves nothing. */
  lemma {:induction false} Progress(rest: string, st: State, value: string)
    ensures var (t, more) := Scan(rest, st, value);
            if IsLast(t) then more == "" else |more| < |rest| || (st.InNormal? && |more| == |rest|)
    decreases |rest|
  {
    if rest != "" {
      var c, more := rest[0], rest[1..];
      Progress(more, st, value + [c]);
      Progress(more, InitialWhitespace, value);
      Progress(more, InComment, [c]);
      Progress(more, DoubleQuote, [c]);
      Progress(more, SingleQuote, [c]);
      Progress(more, InNormal, value + [c]);
    }
  }

  lemma NextProgress(rest: string)
    ensures IsLast(Next(rest).0) ==> Next(rest).1 == ""
    ensures !IsLast(Next(rest).0) ==> |Next(rest).1| < |rest|
  {
    Progress(rest, InitialWhitespace, "");
  }

  /** What each kind of token looks like. */
  predicate TextFits(t: Token) {
    match t.kind
    case Start => false
    case Normal => t.text != ""
    case StartBlock => t.text == "{"
    case EndBlock => t.text == "}"
    case StatementEnd => t.text == ";"
    case Comment => t.text != "" && t.text[0] == '#'
    case Error => t.text != ""
    case Eof => true
  }

  predicate ValueFits(st: State, value: string) {
    match st
    case InitialWhitespace => value == ""
    case InComment => value != "" && value[0] == '#'
    case _ => value != ""
  }

  lemma {:induction false} ScanTextFits(rest: string, st: State, value: string)
    requires ValueFits(st, value)
    ensures TextFits(Scan(rest, st, value).0)
    decreases |rest|
  {
    if rest != "" {
      var c, more := rest[0], rest[1..];
      match st {
        case InitialWhitespace =>
          if c == '#' { ScanTextFits(more, InComment, [c]); }
          else if c == '\"' { ScanTextFits(more, DoubleQuote, [c]); }
          else if c == '\'' { ScanTextFits(more, SingleQuote, [c]); }
          else if IsBlank(c) { ScanTextFits(more, InitialWhitespace, value); }
          else { ScanTextFits(more, InNormal, value + [c]); }
        case _ => ScanTextFits(more, st, value + [c]);
      }
    }
  }

  /** All tokens of an input, up to the one that ends it. */
  function Tokens(rest: string): (ts: seq<Token>)
    ensures ts != []
    decreases |rest|
  {
    var (t, more) := Next(rest);
    if IsLast(t) then [t] else
    NextProgress(rest);
    [t] + Tokens(more)
  }

  /** `std::istream` as the tokenizer uses it. */
  class InputStream {
    const data: string
    var pos: nat
    var good: bool

    ghost predicate Valid()
      reads this
    {
      pos <= |data|
    }

    function Rest(): string
      requires Valid()
      reads this
    {
      data[pos..]
    }

    constructor (data: string)
      ensures this.data == data && Valid() && good && Rest() == data
    {
      this.data, pos, good := data, 0, true;
    }

    method Get() returns (c: char)
      requires Valid()
      modifies this
      ensures Valid()
      ensures good == (old(good) && old(pos) < |data|)
      ensures good ==> c == data[old(pos)] && pos == old(pos) + 1
      ensures !good ==> pos == old(pos)
    {
      c := '\0';
      good := good && pos < |data|;
      if good {
        c := data[pos];
        pos := pos + 1;
      }
    }

    method Unget()
      requires Valid() && pos > 0
      modifies this`pos
      ensures Valid() && pos == old(pos) - 1
    {
      pos := pos - 1;
    }
  }

  method ParseToken(input: InputStream) returns (t: Token)
    requires input.Valid() && input.good
    modifies input
    ensures input.Valid()
    ensures (t, input.Rest()) == Next(old(input.Rest()))
    ensures input.good || IsLast(t)
  {
    var st := InitialWhitespace;
    var value := "";
    while input.good
      invariant input.Valid()
      invariant input.good ==> Scan(input.Rest(), st, value) == Next(old(input.Rest()))
      invariant !input.good ==> input.pos == |input.data| && Scan("", st, value) == Next(old(input.Rest()))
      decreases input.good, |input.data| - input.pos
    {
      ghost var before := input.Rest();
      var c := input.Get();
      if !input.good {
        assert before == "";
        break;
      }
      assert before == [c] + input.Rest();
      assert before[1..] == input.Rest();
      match st {
        case InitialWhitespace =>
          if c == '{' { return Token(StartBlock, [c]); }
          else if c == '}' { return Token(EndBlock, [c]); }
          else if c == '#' { value := [c]; st := InComment; }
          else if c == '\"' { value := [c]; st := DoubleQuote; }
          else if c == '\'' { value := [c]; st := SingleQuote; }
          else if c == ';' { return Token(StatementEnd, [c]); }
          else if IsBlank(c) { }
          else { value := value + [c]; st := InNormal; }
        case SingleQuote =>
          value := value + [c];
          if c == '\'' { return Token(Normal, value); }
        case DoubleQuote =>
          value := value + [c];
          if c == '\"' { return Token(Normal, value); }
        case InComment =>
          if c == '\n' || c == '\r' { return Token(Comment, value); }
          value := value + [c];
        case InNormal =>
          if EndsBare(c) {
            input.Unget();
            return Token(Normal, value);
          }
          value := value + [c];
      }
    }
    assert input.Rest() == "";
    if st.SingleQuote? || st.DoubleQuote? {
      return Token(Error, value);
    }
    return Token(Eof, value);
  }
}
