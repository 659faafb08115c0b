/** The language of the request parser: which byte strings it accepts, and the builder they leave. */
module RequestGrammar {
  import opened Text
  import opened Headers
  import opened MessageLines
  import opened Requests
  import opened RequestParsing
  import opened RequestSplitting
  import opened RequestRoundTrip

  // ---- The grammar ----

  const NO_HEAD: Head := Head([], 0, false, false)

  /** The parts of a message; `end` is the byte in the place of the last line feed of the head. */
  datatype Message = Message(meth: string, uri: string, major: string, minor: string, lines: seq<Line>,
                             end: char, body: string)

  function LineOf(p: Message): string {
    p.meth + " " + p.uri + " " + ("HTTP/" + p.major + "." + p.minor) + CRLF
  }

  function TextOf(p: Message): string { LineOf(p) + (LinesText(p.lines) + ("\r" + [p.end] + p.body)) }

  ghost predicate IsRequestLine(p: Message) {
    && p.meth != "" && AllToken(p.meth) && NoCtlOrSpace(p.uri)
    && p.major != "" && AllDigits(p.major) && p.minor != "" && AllDigits(p.minor)
  }

  /** The length that the lines put in force is the length of the body; only without one the head has to end in a
      line feed. */
  ghost predicate IsMessage(p: Message) {
    && IsRequestLine(p) && AreLines(p.lines)
    && AddLines(NO_HEAD, p.lines).Some?
    && AddLines(NO_HEAD, p.lines).value.length == |p.body|
    && (p.body == "" ==> p.end == '\n')
  }

  // ---- Every message is accepted ----

  /** The machine at a line start whose builder holds these headers. */
  function WithHead(m: Machine, h: Head): (r: Machine)
    requires m.state.HeaderLineStart?
    ensures r.state.HeaderLineStart?
  {
    m.(contentsize := h.length,
       req := m.req.(headers := h.headers, bodysize := h.length, keepAlive := h.keepAlive))
  }

  /** The end of a value, from the machine that has read it. */
  lemma SettleGoes(m: Machine, h: Head)
    requires m.state.HeaderLineStart? && h.headers != []
    ensures var q := WithHead(m, h).(state := HeaderValue);
            if Settle(h).None? then Step(q, '\r').1.Bad?
            else Goes(q, CRLF, WithHead(m, Settle(h).value))
  {
    var q := WithHead(m, h).(state := HeaderValue);
    hide IsContentLength, AsksKeepAlive, AsksChunked, Stoi;
    assert Back(q) == h.headers[|h.headers| - 1];
    assert Step(q, '\r') == EndValue(q);
    if Settle(h).Some? {
      var m1 := WithHead(m, Settle(h).value);
      assert Step(q, '\r') == (m1.(state := ExpectingNewline2), Indeterminate);
      hide Goes;
      GoesCrlf(q, m1.(state := ExpectingNewline2), m1);
    }
  }

  lemma FieldGoes(m: Machine, h: Head, name: string, value: string)
    requires m.state.HeaderLineStart? && IsLine(Field(name, value))
    ensures Goes(WithHead(m, h), name + ": " + value,
                 WithHead(m, h.(headers := h.headers + [Header(name, value)])).(state := HeaderValue))
  {
    HeaderText(WithHead(m, h), Header(name, value));
  }

  lemma {:induction false} BlankBytes(m: Machine, s: string)
    requires m.state.HeaderLws? && AllBlanks(s)
    ensures Goes(m, s, m)
    decreases |s|
  {
    if s != "" {
      BlankBytes(m, s[1..]);
      assert [s[0]] + s[1..] == s;
      hide Goes;
      GoesByte(m, s[0], s[1..], m);
    } else {
      GoesNowhere(m);
    }
  }

  lemma BlanksGo(m: Machine, blanks: string)
    requires m.state.HeaderLineStart? && m.req.headers != [] && blanks != "" && AllBlanks(blanks)
    ensures Goes(m, blanks, m.(state := HeaderLws))
  {
    BlankBytes(m.(state := HeaderLws), blanks[1..]);
    assert [blanks[0]] + blanks[1..] == blanks;
    hide Goes;
    GoesByte(m, blanks[0], blanks[1..], m.(state := HeaderLws));
  }

  /** A continued value is added to the last header. */
  lemma FoldedValueGoes(m: Machine, front: seq<Header>, last: Header, value: string)
    requires m.state.HeaderLws? && m.req.headers == front + [last]
    requires value != "" && NoCtl(value) && value[0] != ' '
    ensures Goes(m, value, m.(state := HeaderValue,
                             req := m.req.(headers := front + [Header(last.name, last.value + value)])))
  {
    var base := m.(state := HeaderLineStart, req := m.req.(headers := front));
    var m1 := WithHeader(base, Header(last.name, last.value + [value[0]])).(state := HeaderValue);
    assert m.req.headers[|m.req.headers| - 1] == last && m.req.headers[..|m.req.headers| - 1] == front;
    assert Back(m) == last && Front(m) == front;
    assert Step(m, value[0]) == (m1, Indeterminate);
    hide Goes;
    ValueBytes(base, last.name, last.value + [value[0]], value[1..]);
    assert last.value + [value[0]] + value[1..] == last.value + value && [value[0]] + value[1..] == value;
    GoesByte(m, value[0], value[1..], m.(state := HeaderValue,
                                        req := m.req.(headers := front + [Header(last.name, last.value + value)])));
  }

  lemma FoldGoes(m: Machine, h: Head, blanks: string, value: string)
    requires m.state.HeaderLineStart? && IsLine(Fold(blanks, value)) && h.headers != [] && value != ""
    ensures var n := |h.headers| - 1;
            Goes(WithHead(m, h), blanks + value,
                 WithHead(m, h.(headers := h.headers[..n] + [Header(h.headers[n].name, h.headers[n].value + value)]))
                 .(state := HeaderValue))
  {
    var n := |h.headers| - 1;
    var m1 := WithHead(m, h).(state := HeaderLws);
    assert h.headers == h.headers[..n] + [h.headers[n]];
    hide Goes, IsLine;
    assert blanks != "" && AllBlanks(blanks) && NoCtl(value) && value[0] != ' ' by { FoldParts(blanks, value); }
    BlanksGo(WithHead(m, h), blanks);
    FoldedValueGoes(m1, h.headers[..n], h.headers[n], value);
    GoesTwice(WithHead(m, h), blanks, m1, value,
              WithHead(m, h.(headers := h.headers[..n] + [Header(h.headers[n].name, h.headers[n].value + value)]))
              .(state := HeaderValue));
  }

  /** A line of blanks. */
  lemma BlankLineGoes(m: Machine, h: Head, blanks: string)
    requires m.state.HeaderLineStart? && h.headers != [] && blanks != "" && AllBlanks(blanks)
    ensures Goes(WithHead(m, h), blanks + CRLF, WithHead(m, h))
  {
    var m0, m1 := WithHead(m, h), WithHead(m, h).(state := HeaderLws);
    hide Goes;
    BlanksGo(m0, blanks);
    GoesCrlf(m1, m1.(state := ExpectingNewline2), m0);
    GoesTwice(m0, blanks, m1, CRLF, m0);
  }

  /** The machine before the carriage return of a line whose value takes effect. */
  lemma ValueOfLine(m: Machine, h: Head, l: Line) returns (text: string, h1: Head)
    requires m.state.HeaderLineStart? && IsLine(l) && (l.Fold? ==> h.headers != [] && l.value != "")
    ensures h1.headers != [] && Settle(h1) == AddLine(h, l) && LineText(l) == text + CRLF
    ensures Goes(WithHead(m, h), text, WithHead(m, h1).(state := HeaderValue))
  {
    hide Goes, Settle, IsLine;
    match l {
      case Field(name, value) =>
        text, h1 := name + ": " + value, h.(headers := h.headers + [Header(name, value)]);
        FieldGoes(m, h, name, value);
      case Fold(blanks, value) =>
        var n := |h.headers| - 1;
        text := blanks + value;
        h1 := h.(headers := h.headers[..n] + [Header(h.headers[n].name, h.headers[n].value + value)]);
        FoldGoes(m, h, blanks, value);
    }
  }

  lemma BadReturn(m: Machine, rest: string)
    requires Step(m, '\r').1.Bad?
    ensures Run(m, "\r" + rest).result.Bad?
  {
    hide Step;
    assert ("\r" + rest)[0] == '\r';
  }

  /** A line is read exactly when it can be added; a Content-Length that is no length is bad. */
  lemma LineGoes(m: Machine, h: Head, l: Line, rest: string)
    requires m.state.HeaderLineStart? && IsLine(l) && (l.Fold? ==> h.headers != [])
    ensures if AddLine(h, l).Some? then Goes(WithHead(m, h), LineText(l), WithHead(m, AddLine(h, l).value))
            else Run(WithHead(m, h), LineText(l) + rest).result.Bad?
  {
    if l.Fold? && l.value == "" {
      assert l.blanks + "" == l.blanks;
      BlankLineGoes(m, h, l.blanks);
    } else {
      hide Goes, Settle, IsLine, LineText, AddLine;
      var text, h1 := ValueOfLine(m, h, l);
      var q := WithHead(m, h1).(state := HeaderValue);
      SettleGoes(m, h1);
      if AddLine(h, l).Some? {
        GoesTwice(WithHead(m, h), text, q, CRLF, WithHead(m, AddLine(h, l).value));
      } else {
        BadReturn(q, "\n" + rest);
        assert text + CRLF + rest == text + ("\r" + ("\n" + rest));
        GoesThen(WithHead(m, h), text, q, "\r" + ("\n" + rest));
      }
    }
  }

  lemma {:induction false} LinesGo(m: Machine, h: Head, ls: seq<Line>)
    requires m.state.HeaderLineStart? && AreLines(ls) && AddLines(h, ls).Some?
    ensures Goes(WithHead(m, h), LinesText(ls), WithHead(m, AddLines(h, ls).value))
    decreases |ls|
  {
    hide Goes, WithHead, LineText, AddLine, IsLine;
    if ls == [] {
      GoesNowhere(WithHead(m, h));
    } else {
      FoldHasHeader(h, ls[0]);
      LineGoes(m, h, ls[0], "");
      var h1 := AddLine(h, ls[0]).value;
      LinesGo(m, h1, ls[1..]);
      GoesTwice(WithHead(m, h), LineText(ls[0]), WithHead(m, h1), LinesText(ls[1..]),
                WithHead(m, AddLines(h, ls).value));
    }
  }

  /** The empty line and the body, with any byte for the line feed when there is a body. */
  lemma BodyRuns(m: Machine, end: char, body: string)
    requires m.state.HeaderLineStart? && m.contentsize == |body| && m.req.body == "" && (body == "" ==> end == '\n')
    ensures var o := Run(m, "\r" + [end] + body);
            o.result.Good? && o.taken == 2 + |body| && o.m.contentsize == 0 && o.m.req == m.req.(body := body)
  {
    var m1 := m.(state := ExpectingNewline3);
    hide Goes, Run;
    GoesOne(m, '\r', m1);
    GoesThen(m, "\r", m1, [end] + body);
    assert "\r" + ([end] + body) == "\r" + [end] + body && "" + body == body;
    if body == "" {
      LastLineFeed(m1, "");
      assert "\n" + "" == [end] + body;
    } else {
      var m2 := m.(state := ExpectingBody);
      GoesOne(m1, end, m2);
      GoesThen(m1, [end], m2, body);
      BodyBytes(m2, body);
    }
  }

  /** The builder that a message leaves. */
  ghost function Described(p: Message): (b: Builder)
    requires IsMessage(p)
  {
    var h := AddLines(NO_HEAD, p.lines).value;
    Builder(p.meth, p.uri, DecimalValue(p.major), DecimalValue(p.minor), h.headers, h.length, p.body, h.keepAlive)
  }

  /** Every message is accepted at its last byte, and leaves the builder it describes. */
  lemma MessageIsAccepted(p: Message)
    requires IsMessage(p)
    ensures var o := Run(START, TextOf(p));
            o.result.Good? && o.taken == |TextOf(p)| && o.m.contentsize == 0 && o.m.req == Described(p)
  {
    var m := AfterLine(p.meth, p.uri, DecimalValue(p.major), DecimalValue(p.minor));
    var h := AddLines(NO_HEAD, p.lines).value;
    assert WithHead(m, NO_HEAD) == m;
    hide Goes, Run, Step, AddLines, LinesText, DecimalValue, AllDigits, AllToken, NoCtlOrSpace, AreLines;
    LinePart(p.meth, p.uri, p.major, p.minor);
    LinesGo(m, NO_HEAD, p.lines);
    BodyRuns(WithHead(m, h), p.end, p.body);
    var end := "\r" + [p.end] + p.body;
    GoesThen(m, LinesText(p.lines), WithHead(m, h), end);
    GoesThen(START, LineOf(p), m, LinesText(p.lines) + end);
  }

  // ---- Whatever is accepted is a message ----

  /** A good run takes its bytes one by one. */
  lemma GoodByte(m: Machine, s: string)
    requires Run(m, s).result.Good?
    ensures s != "" && !Step(m, s[0]).1.Bad?
    ensures Step(m, s[0]).1.Good? ==> |s| == 1
    ensures Step(m, s[0]).1.Indeterminate? ==> Run(Step(m, s[0]).0, s[1..]).result.Good?
  {
    hide Step;
  }

  /** A good run goes on behind bytes that only ask for more, and there is a byte left. */
  lemma GoodThen(m: Machine, a: string, m1: Machine, s: string)
    requires Run(m, s).result.Good? && a <= s && Goes(m, a, m1)
    ensures |a| < |s| && Run(m1, s[|a|..]).result.Good? && s == a + s[|a|..] && !Step(m1, s[|a|]).1.Bad?
  {
    hide Step;
    assert s == a + s[|a|..];
    GoesThen(m, a, m1, s[|a|..]);
    GoodByte(m1, s[|a|..]);
    hide Run, Goes;
    assert s[|a|..][0] == s[|a|];
  }

  lemma OnlyEndsAreGood(m: Machine, c: char)
    requires !m.state.ExpectingNewline3? && !m.state.ExpectingBody?
    ensures !Step(m, c).1.Good?
  {
    hide Stoi, IsContentLength, AsksKeepAlive, IsTokenChar, IsCtl;
  }

  /** The next byte, when it does not end the run. */
  lemma GoodNext(m: Machine, s: string)
    requires Run(m, s).result.Good? && !m.state.ExpectingNewline3? && !m.state.ExpectingBody?
    ensures s != "" && s == [s[0]] + s[1..] && Step(m, s[0]).1.Indeterminate?
    ensures Run(Step(m, s[0]).0, s[1..]).result.Good?
  {
    hide Step, Run;
    GoodByte(m, s);
    var r := Step(m, s[0]).1;
    OnlyEndsAreGood(m, s[0]);
    assert !r.Bad? && !r.Good?;
  }

  // What the byte after a run of bytes has to be.

  lemma MethodEnds(m: Machine, c: char)
    requires m.state.Method? && !IsTokenChar(c) && !Step(m, c).1.Bad?
    ensures c == ' ' && Step(m, c) == (m.(state := Uri), Indeterminate)
  {
    hide IsTokenChar;
  }

  lemma UriEnds(m: Machine, c: char)
    requires m.state.Uri? && (IsCtl(c) || c == ' ') && !Step(m, c).1.Bad?
    ensures c == ' ' && Step(m, c) == (m.(state := VersionH), Indeterminate)
  {
    hide IsCtl;
  }

  lemma MajorEnds(m: Machine, c: char)
    requires m.state.Major? && !IsDigit(c) && !Step(m, c).1.Bad?
    ensures c == '.' && Step(m, c) == (m.(state := MinorStart), Indeterminate)
  {
    hide IsDigit;
  }

  lemma NameEnds(m: Machine, c: char)
    requires m.state.HeaderName? && !IsTokenChar(c) && !Step(m, c).1.Bad?
    ensures c == ':' && Step(m, c) == (m.(state := SpaceBeforeValue), Indeterminate)
  {
    hide IsTokenChar;
  }

  /** The bytes that only one value passes, and where they lead. */
  ghost predicate Fixed(s: State, wanted: char, next: State) {
    || (s, wanted, next) == (VersionH, 'H', VersionT1) || (s, wanted, next) == (VersionT1, 'T', VersionT2)
    || (s, wanted, next) == (VersionT2, 'T', VersionP) || (s, wanted, next) == (VersionP, 'P', VersionSlash)
    || (s, wanted, next) == (SpaceBeforeValue, ' ', HeaderValue)
    || (s, wanted, next) == (ExpectingNewline1, '\n', HeaderLineStart)
    || (s, wanted, next) == (ExpectingNewline2, '\n', HeaderLineStart)
  }

  lemma OneOf(m: Machine, c: char, wanted: char, next: State)
    requires Fixed(m.state, wanted, next)
    requires !Step(m, c).1.Bad?
    ensures c == wanted && Step(m, c) == (m.(state := next), Indeterminate)
  {}

  lemma SlashEnds(m: Machine, c: char)
    requires m.state.VersionSlash? && !Step(m, c).1.Bad?
    ensures c == '/' && Step(m, c) == (m.(state := MajorStart, req := m.req.(major := 0, minor := 0)), Indeterminate)
  {}

  lemma MethodWord(meth: string)
    requires meth != "" && AllToken(meth)
    ensures Goes(START, meth, START.(state := Method, req := FRESH.(meth := meth)))
  {
    var m1 := START.(state := Method, req := FRESH.(meth := [meth[0]]));
    MethodBytes(m1, meth[1..]);
    assert meth == [meth[0]] + meth[1..] && "" + [meth[0]] == [meth[0]];
    hide Goes;
    GoesByte(START, meth[0], meth[1..], START.(state := Method, req := FRESH.(meth := meth)));
  }

  lemma MethodStarts(s: string)
    requires Run(START, s).result.Good?
    ensures s != "" && IsTokenChar(s[0])
  {
    GoodByte(START, s);
    hide Run;
  }

  /** A good run behind a byte that asks for more. */
  lemma GoodAfter(m: Machine, s: string, c: char) returns (rest: string)
    requires Run(m, s).result.Good? && s != "" && s[0] == c && Step(m, c).1.Indeterminate?
    ensures s == [c] + rest && Run(Step(m, c).0, rest).result.Good?
  {
    GoodByte(m, s);
    hide Run, Step;
    rest := s[1..];
  }

  lemma MethodSound(s: string) returns (word: string, rest: string)
    requires Run(START, s).result.Good?
    ensures word != "" && AllToken(word) && s == word + " " + rest
    ensures Run(START.(state := Uri, req := FRESH.(meth := word)), rest).result.Good?
  {
    MethodStarts(s);
    hide Run, Goes, Step, IsTokenChar;
    word := While(s, IsTokenChar);
    var m1 := START.(state := Method, req := FRESH.(meth := word));
    MethodWord(word);
    GoodThen(START, word, m1, s);
    MethodEnds(m1, s[|word|]);
    rest := GoodAfter(m1, s[|word|..], ' ');
    Assoc(word, " ", rest);
  }

  lemma UriSound(m: Machine, s: string) returns (target: string, rest: string)
    requires m.state.Uri? && m.req.uri == "" && Run(m, s).result.Good?
    ensures NoCtlOrSpace(target) && s == target + " " + rest
    ensures Run(m.(state := VersionH, req := m.req.(uri := target)), rest).result.Good?
  {
    hide Run, Goes, Step, IsCtl;
    target := While(s, IsUriChar);
    var m1 := m.(req := m.req.(uri := target));
    UriBytes(m, target);
    assert "" + target == target;
    GoodThen(m, target, m1, s);
    UriEnds(m1, s[|target|]);
    rest := GoodAfter(m1, s[|target|..], ' ');
    Assoc(target, " ", rest);
  }

  /** One byte of a fixed text. */
  lemma FixedByte(m: Machine, s: string, wanted: char, next: State) returns (rest: string)
    requires Fixed(m.state, wanted, next)
    requires Run(m, s).result.Good? && (InsideHeader(next) ==> m.req.headers != [])
    ensures s == [wanted] + rest && Run(m.(state := next), rest).result.Good?
  {
    GoodByte(m, s);
    OneOf(m, s[0], wanted, next);
    hide Run, Step;
    rest := GoodAfter(m, s, wanted);
  }

  lemma ProtocolSound(m: Machine, s: string) returns (rest: string)
    requires m.state.VersionH? && Run(m, s).result.Good?
    ensures s == "HTTP/" + rest
    ensures Run(m.(state := MajorStart, req := m.req.(major := 0, minor := 0)), rest).result.Good?
  {
    hide Run, Step;
    var s1 := FixedByte(m, s, 'H', VersionT1);
    var s2 := FixedByte(m.(state := VersionT1), s1, 'T', VersionT2);
    var s3 := FixedByte(m.(state := VersionT2), s2, 'T', VersionP);
    var s4 := FixedByte(m.(state := VersionP), s3, 'P', VersionSlash);
    var m1 := m.(state := VersionSlash);
    GoodByte(m1, s4);
    SlashEnds(m1, s4[0]);
    rest := GoodAfter(m1, s4, '/');
    FiveBytes(rest);
  }

  lemma NumberStarts(m: Machine, s: string)
    requires (m.state.MajorStart? || m.state.MinorStart?) && Run(m, s).result.Good?
    ensures s != "" && IsDigit(s[0])
  {
    GoodByte(m, s);
    hide Run, IsDigit;
  }

  lemma MajorSound(m: Machine, s: string) returns (digits: string, rest: string)
    requires m.state.MajorStart? && m.req.major == 0 && Run(m, s).result.Good?
    ensures digits != "" && AllDigits(digits) && s == digits + "." + rest
    ensures Run(m.(state := MinorStart, req := m.req.(major := DecimalValue(digits))), rest).result.Good?
  {
    NumberStarts(m, s);
    hide Run, Goes, Step, IsDigit, DecimalValue;
    digits := While(s, IsDigit);
    var m1 := m.(state := Major, req := m.req.(major := DecimalValue(digits)));
    MajorBytes(m, digits);
    GoodThen(m, digits, m1, s);
    MajorEnds(m1, s[|digits|]);
    rest := GoodAfter(m1, s[|digits|..], '.');
    Assoc(digits, ".", rest);
  }

  lemma MinorEnds(m: Machine, c: char)
    requires m.state.Minor? && !IsDigit(c) && !Step(m, c).1.Bad?
    ensures c == '\r' && Step(m, c) == (m.(state := ExpectingNewline1), Indeterminate)
  {
    hide IsDigit;
  }

  lemma MinorSound(m: Machine, s: string) returns (digits: string, rest: string)
    requires m.state.MinorStart? && m.req.minor == 0 && Run(m, s).result.Good?
    ensures digits != "" && AllDigits(digits) && s == digits + CRLF + rest
    ensures Run(m.(state := HeaderLineStart, req := m.req.(minor := DecimalValue(digits))), rest).result.Good?
  {
    NumberStarts(m, s);
    hide Run, Goes, Step, IsDigit, DecimalValue;
    digits := While(s, IsDigit);
    var m1 := m.(state := Minor, req := m.req.(minor := DecimalValue(digits)));
    MinorBytes(m, digits);
    GoodThen(m, digits, m1, s);
    MinorEnds(m1, s[|digits|]);
    var last := GoodAfter(m1, s[|digits|..], '\r');
    rest := FixedByte(m1.(state := ExpectingNewline1), last, '\n', HeaderLineStart);
    TwoBytes(digits, rest);
  }

  lemma JoinLine(meth: string, uri: string, major: string, minor: string, rest: string)
    ensures meth + " " + (uri + " " + ("HTTP/" + (major + "." + (minor + CRLF + rest))))
         == meth + " " + uri + " " + ("HTTP/" + major + "." + minor) + CRLF + rest
  {}

  /** The request line of an accepted text. */
  lemma LineSound(s: string) returns (p: Message, rest: string)
    requires Run(START, s).result.Good?
    ensures IsRequestLine(p) && s == LineOf(p) + rest
    ensures Run(AfterLine(p.meth, p.uri, DecimalValue(p.major), DecimalValue(p.minor)), rest).result.Good?
  {
    hide Run, Step, DecimalValue, AllToken, AllDigits, NoCtlOrSpace;
    var meth, s1 := MethodSound(s);
    var m1 := START.(state := Uri, req := FRESH.(meth := meth));
    var uri, s2 := UriSound(m1, s1);
    var m2 := m1.(state := VersionH, req := m1.req.(uri := uri));
    var s3 := ProtocolSound(m2, s2);
    var m3 := m2.(state := MajorStart);
    var major, s4 := MajorSound(m3, s3);
    var m4 := m3.(state := MinorStart, req := m3.req.(major := DecimalValue(major)));
    var minor, s5 := MinorSound(m4, s4);
    p, rest := Message(meth, uri, major, minor, [], '\n', ""), s5;
    JoinLine(meth, uri, major, minor, rest);
    assert m4.(state := HeaderLineStart, req := m4.req.(minor := DecimalValue(minor)))
        == AfterLine(meth, uri, DecimalValue(major), DecimalValue(minor));
  }

  // ---- Header lines ----

  lemma NameWord(m: Machine, name: string)
    requires m.state.HeaderLineStart? && name != "" && AllToken(name)
    ensures Goes(m, name, WithHeader(m, Header(name, "")).(state := HeaderName))
  {
    NameBytes(m, [name[0]], name[1..]);
    assert [name[0]] + name[1..] == name;
    hide Goes;
    GoesByte(m, name[0], name[1..], WithHeader(m, Header(name, "")).(state := HeaderName));
  }

  lemma NameSound(m: Machine, s: string) returns (name: string, rest: string)
    requires m.state.HeaderLineStart? && Run(m, s).result.Good? && s != "" && IsTokenChar(s[0])
    ensures name != "" && AllToken(name) && s == name + ": " + rest
    ensures Run(WithHeader(m, Header(name, "")).(state := HeaderValue), rest).result.Good?
  {
    hide Run, Goes, Step, IsTokenChar;
    name := While(s, IsTokenChar);
    var m1 := WithHeader(m, Header(name, "")).(state := HeaderName);
    NameWord(m, name);
    GoodThen(m, name, m1, s);
    NameEnds(m1, s[|name|]);
    var last := GoodAfter(m1, s[|name|..], ':');
    rest := FixedByte(m1.(state := SpaceBeforeValue), last, ' ', HeaderValue);
    assert name + ([':'] + ([' '] + rest)) == name + ": " + rest by { ColonBytes(name, rest); }
  }

  lemma ValueEnds(m: Machine, c: char)
    requires m.state.HeaderValue? && IsCtl(c) && !Step(m, c).1.Bad?
    ensures c == '\r' && Step(m, c).1.Indeterminate? && Step(m, c).0.state.ExpectingNewline2?
  {
    hide Stoi, IsContentLength, AsksKeepAlive;
  }

  lemma ReturnSound(m: Machine, s: string)
    requires m.state.HeaderValue? && Run(m, s).result.Good? && s != "" && IsCtl(s[0])
    ensures |s| >= 2 && s == CRLF + s[2..]
  {
    GoodByte(m, s);
    ValueEnds(m, s[0]);
    hide Run, Step, IsCtl;
    var later := GoodAfter(m, s, '\r');
    var rest := FixedByte(Step(m, '\r').0, later, '\n', HeaderLineStart);
    assert s == ['\r'] + (['\n'] + rest);
  }

  /** A value up to its carriage return. */
  lemma ValueSound(m: Machine, name: string, before: string, s: string) returns (value: string)
    requires m.state.HeaderLineStart? && Run(WithHeader(m, Header(name, before)).(state := HeaderValue), s).result.Good?
    ensures NoCtl(value) && |value| + 2 <= |s| && s == value + CRLF + s[|value| + 2..]
  {
    var m0 := WithHeader(m, Header(name, before)).(state := HeaderValue);
    value := While(s, IsValueChar);
    var m1 := WithHeader(m, Header(name, before + value)).(state := HeaderValue);
    ValueBytes(m, name, before, value);
    hide Run, Goes;
    GoodThen(m0, value, m1, s);
    var later := s[|value|..];
    ReturnSound(m1, later);
    assert s[|value| + 2..] == later[2..];
    assert s == value + later && later == CRLF + later[2..];
  }

  lemma BlanksSound(m: Machine, s: string) returns (blanks: string, later: string)
    requires m.state.HeaderLineStart? && m.req.headers != [] && Run(m, s).result.Good?
    requires s != "" && (s[0] == ' ' || s[0] == '\t')
    ensures blanks != "" && AllBlanks(blanks) && s == blanks + later
    ensures later != "" && later[0] != ' ' && later[0] != '\t' && Run(m.(state := HeaderLws), later).result.Good?
  {
    blanks := While(s, IsBlank);
    assert blanks != "";
    hide Run, Goes;
    BlanksGo(m, blanks);
    GoodThen(m, blanks, m.(state := HeaderLws), s);
    later := s[|blanks|..];
    assert later[0] == s[|blanks|];
  }

  /** A continued line without a value. */
  lemma BlankLineSound(m: Machine, s: string) returns (rest: string)
    requires m.state.HeaderLws? && Run(m, s).result.Good? && s != "" && s[0] == '\r'
    ensures s == CRLF + rest
  {
    assert Step(m, '\r') == (m.(state := ExpectingNewline2), Indeterminate);
    hide Run, Step;
    var later := GoodAfter(m, s, '\r');
    rest := FixedByte(m.(state := ExpectingNewline2), later, '\n', HeaderLineStart);
    assert s == ['\r'] + (['\n'] + rest);
  }

  /** A continued value, whose first byte is no blank. */
  lemma FoldedValueSound(m: Machine, front: seq<Header>, last: Header, s: string) returns (value: string, rest: string)
    requires m.state.HeaderLws? && m.req.headers == front + [last] && Run(m, s).result.Good?
    requires s != "" && s[0] != ' ' && s[0] != '\t' && s[0] != '\r'
    ensures value != "" && NoCtl(value) && value[0] != ' ' && s == value + CRLF + rest
  {
    var base := m.(state := HeaderLineStart, req := m.req.(headers := front));
    assert Back(m) == last && Front(m) == front;
    GoodNext(m, s);
    assert !IsCtl(s[0]);
    assert Step(m, s[0]).0 == WithHeader(base, Header(last.name, last.value + [s[0]])).(state := HeaderValue);
    hide Run, Step, IsCtl;
    var more := ValueSound(base, last.name, last.value + [s[0]], s[1..]);
    value, rest := [s[0]] + more, s[1..][|more| + 2..];
    assert s == [s[0]] + (more + CRLF + rest);
  }

  lemma FoldSound(m: Machine, h: Head, s: string) returns (l: Line, rest: string)
    requires m.state.HeaderLineStart? && Run(WithHead(m, h), s).result.Good?
    requires h.headers != [] && s != "" && (s[0] == ' ' || s[0] == '\t')
    ensures IsLine(l) && l.Fold? && s == LineText(l) + rest
  {
    hide Run, Step;
    var n := |h.headers| - 1;
    assert h.headers == h.headers[..n] + [h.headers[n]];
    var blanks, later := BlanksSound(WithHead(m, h), s);
    var m1 := WithHead(m, h).(state := HeaderLws);
    if later[0] == '\r' {
      rest := BlankLineSound(m1, later);
      l := Fold(blanks, "");
      assert blanks + "" == blanks;
      Assoc(blanks, CRLF, rest);
    } else {
      var value;
      value, rest := FoldedValueSound(m1, h.headers[..n], h.headers[n], later);
      l := Fold(blanks, value);
      assert blanks + (value + CRLF + rest) == blanks + value + CRLF + rest;
    }
  }

  /** The line an accepted text goes on with. */
  lemma OneLineSound(m: Machine, h: Head, s: string) returns (l: Line, rest: string)
    requires m.state.HeaderLineStart? && Run(WithHead(m, h), s).result.Good? && s != "" && s[0] != '\r'
    ensures IsLine(l) && (l.Fold? ==> h.headers != []) && s == LineText(l) + rest
  {
    var m0 := WithHead(m, h);
    GoodNext(m0, s);
    if IsTokenChar(s[0]) {
      hide Run, AllToken, NoCtl;
      var name, later := NameSound(m0, s);
      var value := ValueSound(m0, name, "", later);
      l, rest := Field(name, value), later[|value| + 2..];
      assert s == name + ": " + (value + CRLF + rest);
      assert name + ": " + (value + CRLF + rest) == name + ": " + value + CRLF + rest;
    } else {
      assert h.headers != [] && (s[0] == ' ' || s[0] == '\t');
      l, rest := FoldSound(m, h, s);
    }
  }

  /** The end of the head, and the body. */
  lemma EndSound(m: Machine, s: string) returns (end: char, body: string)
    requires m.state.HeaderLineStart? && m.contentsize >= 0 && m.req.body == ""
    requires Run(m, s).result.Good? && s != "" && s[0] == '\r'
    ensures s == "\r" + [end] + body && |body| == m.contentsize && (body == "" ==> end == '\n')
  {
    var m1, m2 := m.(state := ExpectingNewline3), m.(state := ExpectingBody);
    GoodNext(m, s);
    var later := s[1..];
    GoodByte(m1, later);
    end, body := later[0], later[1..];
    assert s == "\r" + [end] + body;
    if m.contentsize == 0 {
      assert body == "";
    } else {
      hide Run;
      BodyBytes(m2, body);
    }
  }

  lemma LengthStays(h: Head, l: Line)
    requires h.length >= 0 && AddLine(h, l).Some?
    ensures AddLine(h, l).value.length >= 0
  {
    hide IsContentLength, Stoi, AsksKeepAlive, AsksChunked;
  }

  /** From a line start on, an accepted text is header lines, an empty line and a body. */
  lemma {:induction false} LinesSound(m: Machine, h: Head, s: string) returns (ls: seq<Line>, end: char, body: string)
    requires m.state.HeaderLineStart? && m.req.body == "" && h.length >= 0 && Run(WithHead(m, h), s).result.Good?
    ensures AreLines(ls) && AddLines(h, ls).Some? && AddLines(h, ls).value.length == |body|
    ensures s == LinesText(ls) + ("\r" + [end] + body) && (body == "" ==> end == '\n')
    decreases |s|
  {
    GoodByte(WithHead(m, h), s);
    hide Run, Step, IsLine, LineText;
    if s[0] == '\r' {
      ls := [];
      end, body := EndSound(WithHead(m, h), s);
    } else {
      var l, rest := OneLineSound(m, h, s);
      LineGoes(m, h, l, rest);
      LineIsLong(l);
      var h1 := AddLine(h, l).value;
      LengthStays(h, l);
      GoesThen(WithHead(m, h), LineText(l), WithHead(m, h1), rest);
      ls, end, body := LinesSound(m, h1, rest);
      JoinLines(l, ls, "\r" + [end] + body);
      ls := [l] + ls;
    }
  }

  /** The bytes are a message. */
  ghost predicate Spells(s: string, p: Message) { IsMessage(p) && s == TextOf(p) }

  lemma AcceptedIsMessage(s: string) returns (p: Message)
    requires Run(START, s).result.Good?
    ensures Spells(s, p)
  {
    hide Run, Step, DecimalValue, AllToken, AllDigits, NoCtlOrSpace, AddLines, LinesText, AreLines;
    var line, rest := LineSound(s);
    var m := AfterLine(line.meth, line.uri, DecimalValue(line.major), DecimalValue(line.minor));
    assert WithHead(m, NO_HEAD) == m;
    var ls, end, body := LinesSound(m, NO_HEAD, rest);
    p := line.(lines := ls, end := end, body := body);
    assert LineOf(p) == LineOf(line);
  }

  /** The language of the parser: it answers good at the end of s exactly when s is a message, and it then has filled
      the builder that the message describes. This takes in continued lines, numbers with leading zeros, several
      Content-Length headers, and any byte in the place of the last line feed of a head with a body. */
  lemma AcceptsExactlyMessages(s: string)
    ensures Run(START, s).result.Good? <==> exists p :: Spells(s, p)
    ensures forall p :: Spells(s, p) ==> Run(START, s).m.req == Described(p)
  {
    hide Run, Step, TextOf, IsMessage, Described;
    if Run(START, s).result.Good? { var p := AcceptedIsMessage(s); }
    forall p | Spells(s, p) ensures Run(START, s).result.Good? && Run(START, s).m.req == Described(p) {
      MessageIsAccepted(p);
    }
  }
}
