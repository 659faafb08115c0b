/** The language of the response parser: which byte strings it accepts, and the response it builds of them. */
module ResponseGrammar {
  import opened Text
  import opened Headers
  import opened MessageLines
  import opened Responses
  import opened ResponseParsing
  import opened ResponseSplitting
  import opened ChunkedCoding
  import opened ResponseRoundTrip

  // ---- The grammar ----

  datatype Status = Status(major: string, minor: string, code: string, reason: string)

  /** Any version numbers, a code of three digits from 100 to 599, and a reason of reason characters. */
  ghost predicate IsStatus(p: Status) {
    && p.major != "" && AllDigits(p.major) && p.minor != "" && AllDigits(p.minor)
    && |p.code| == 3 && AllDigits(p.code) && '1' <= p.code[0] <= '5'
    && AllReason(p.reason)
  }

  function StatusText(p: Status): string {
    "HTTP/" + (p.major + "." + p.minor + " ") + (p.code + " ") + (p.reason + CRLF)
  }

  /** The head before its lines: the length is whatever was in memory. */
  function NoHead(anyContentsize: int): Head { Head([], anyContentsize, false, false) }

  /** What follows the head, and the body it stands for. A chunked body may be followed by anything, a body of a known
      length by nothing, and an empty one by line feeds. */
  ghost predicate IsBody(h: Head, rest: string, body: string) {
    if h.chunked then exists k: nat, cs, zero :: CodingPrefix(rest, k, cs, zero) && body == Payload(cs)
    else if h.length == 0 then body == "" && forall i :: 0 <= i < |rest| ==> rest[i] == '\n'
    else |rest| == h.length && body == rest
  }

  /** A response as text: a status line, header lines, an empty line and what the head announces. */
  ghost predicate Spells(s: string, p: Status, ls: seq<Line>, rest: string, body: string, anyContentsize: int) {
    && IsStatus(p) && AreLines(ls) && AddLines(NoHead(anyContentsize), ls).Some?
    && IsBody(AddLines(NoHead(anyContentsize), ls).value, rest, body)
    && s == StatusText(p) + (LinesText(ls) + (CRLF + rest))
  }

  // ---- Every response is accepted ----

  // Lines, names, values and blanks follow the same steps as in the request grammar, on a machine with other fields.

  lemma {:induction false} MajorBytes(m: Machine, s: string)
    requires m.state.MajorStart? && m.res.major == 0 && s != "" && AllDigits(s)
    ensures Goes(m, s, m.(state := Major, res := m.res.(major := DecimalValue(s))))
    decreases |s|
  {
    hide Goes;
    var p, c := s[..|s| - 1], s[|s| - 1];
    var m1 := if p == "" then m else m.(state := Major, res := m.res.(major := DecimalValue(p)));
    var m2 := m.(state := Major, res := m.res.(major := DecimalValue(s)));
    assert s == p + [c];
    assert p == "" ==> DecimalValue(p) == 0;
    assert Step(m1, c) == (m2, Indeterminate);
    GoesOne(m1, c, m2);
    if p != "" {
      MajorBytes(m, p);
      GoesTwice(m, p, m1, [c], m2);
    }
  }

  lemma {:induction false} MinorBytes(m: Machine, s: string)
    requires m.state.MinorStart? && m.res.minor == 0 && s != "" && AllDigits(s)
    ensures Goes(m, s, m.(state := Minor, res := m.res.(minor := DecimalValue(s))))
    decreases |s|
  {
    hide Goes;
    var p, c := s[..|s| - 1], s[|s| - 1];
    var m1 := if p == "" then m else m.(state := Minor, res := m.res.(minor := DecimalValue(p)));
    var m2 := m.(state := Minor, res := m.res.(minor := DecimalValue(s)));
    assert s == p + [c];
    assert p == "" ==> DecimalValue(p) == 0;
    assert Step(m1, c) == (m2, Indeterminate);
    GoesOne(m1, c, m2);
    if p != "" {
      MinorBytes(m, p);
      GoesTwice(m, p, m1, [c], m2);
    }
  }

  lemma NumbersGo(m: Machine, major: string, minor: string)
    requires m.state.MajorStart? && m.res.major == 0 && m.res.minor == 0
    requires major != "" && AllDigits(major) && minor != "" && AllDigits(minor)
    ensures Goes(m, major + "." + minor + " ",
                 m.(state := StatusCode1, res := m.res.(major := DecimalValue(major), minor := DecimalValue(minor))))
  {
    hide Goes, AllDigits, DecimalValue;
    var m1 := m.(state := Major, res := m.res.(major := DecimalValue(major)));
    var m2 := m1.(state := MinorStart);
    var m3 := m1.(state := Minor, res := m1.res.(minor := DecimalValue(minor)));
    MajorBytes(m, major);
    GoesOne(m1, '.', m2);
    GoesTwice(m, major, m1, ".", m2);
    MinorBytes(m2, minor);
    GoesTwice(m, major + ".", m2, minor, m3);
    GoesOne(m3, ' ', m3.(state := StatusCode1));
    GoesTwice(m, major + "." + minor, m3, " ", m3.(state := StatusCode1));
  }

  /** The machine behind a status line. */
  ghost function AfterStatus(anyContentsize: int, anyChunksize: int, p: Status): (m: Machine)
    requires IsStatus(p)
    ensures m.state.HeaderLineStart?
  {
    Machine(HeaderLineStart,
            Fresh(anyContentsize, anyChunksize).(major := DecimalValue(p.major), minor := DecimalValue(p.minor),
                                                 code := CodeOf(p.code), reason := p.reason))
  }

  lemma StatusGoes(anyContentsize: int, anyChunksize: int, p: Status)
    requires IsStatus(p)
    ensures Goes(Start(anyContentsize, anyChunksize), StatusText(p), AfterStatus(anyContentsize, anyChunksize, p))
  {
    hide Goes, Step, AllDigits, DecimalValue, AllReason;
    var m := Start(anyContentsize, anyChunksize);
    var a := m.(state := MajorStart, res := m.res.(major := 0, minor := 0));
    var b := a.(state := StatusCode1,
                res := a.res.(major := DecimalValue(p.major), minor := DecimalValue(p.minor)));
    var c := b.(state := ReasonPhrase, res := b.res.(code := CodeOf(p.code)));
    var d := c.(state := HeaderLineStart, res := c.res.(reason := p.reason));
    HttpSlashGoes(m);
    NumbersGo(a, p.major, p.minor);
    GoesTwice(m, "HTTP/", a, p.major + "." + p.minor + " ", b);
    DigitsGo(b, p.code);
    GoesTwice(m, "HTTP/" + (p.major + "." + p.minor + " "), b, p.code + " ", c);
    ReasonGoes(c, p.reason);
    GoesTwice(m, "HTTP/" + (p.major + "." + p.minor + " ") + (p.code + " "), c, p.reason + CRLF, d);
  }

  /** The machine at a line start whose builder holds these headers. */
  function WithHead(m: Machine, h: Head): (r: Machine)
    requires m.state.HeaderLineStart?
    ensures r.state.HeaderLineStart?
  {
    m.(res := m.res.(headers := h.headers, contentsize := h.length, chunked := h.chunked, keepAlive := h.keepAlive))
  }

  lemma ReturnEndsValue(m: Machine)
    requires m.state.HeaderValue?
    ensures Step(m, '\r') == EndValue(m)
  {
    hide EndValue;
  }

  lemma LineFeedGoes(m: Machine)
    requires m.state.HeaderLineStart?
    ensures Step(m.(state := ExpectingNewline2), '\n') == (m, Indeterminate)
  {}

  lemma SettleIsEnd(m: Machine, h: Head)
    requires m.state.HeaderLineStart? && h.headers != []
    ensures var q := WithHead(m, h).(state := HeaderValue);
            if Settle(h).None? then EndValue(q).1.Bad?
            else EndValue(q) == (WithHead(m, Settle(h).value).(state := ExpectingNewline2), Indeterminate)
  {
    hide IsContentLength, AsksKeepAlive, AsksChunked, Stoi;
    assert Back(WithHead(m, h).(state := HeaderValue)) == h.headers[|h.headers| - 1];
  }

  /** The end of a value, from the machine that has read it. */
  lemma SettleGoes(m: Machine, h: Head)
    requires m.state.HeaderLineStart? && h.headers != []
    ensures var q := WithHead(m, h).(state := HeaderValue);
            if Settle(h).None? then Step(q, '\r').1.Bad?
            else Goes(q, CRLF, WithHead(m, Settle(h).value))
  {
    hide Goes, Step, EndValue, Settle;
    var q := WithHead(m, h).(state := HeaderValue);
    ReturnEndsValue(q);
    SettleIsEnd(m, h);
    if Settle(h).Some? {
      var m1 := WithHead(m, Settle(h).value);
      LineFeedGoes(m1);
      GoesCrlf(q, m1.(state := ExpectingNewline2), m1);
    }
  }

  lemma FieldGoes(m: Machine, h: Head, name: string, value: string)
    requires m.state.HeaderLineStart? && IsLine(Field(name, value))
    ensures Goes(WithHead(m, h), name + ": " + value,
                 WithHead(m, h.(headers := h.headers + [Header(name, value)])).(state := HeaderValue))
  {
    HeaderText(WithHead(m, h), Header(name, value));
  }

  lemma {:induction false} BlankBytes(m: Machine, s: string)
    requires m.state.HeaderLws? && AllBlanks(s)
    ensures Goes(m, s, m)
    decreases |s|
  {
    if s != "" {
      BlankBytes(m, s[1..]);
      assert [s[0]] + s[1..] == s;
      hide Goes;
      GoesByte(m, s[0], s[1..], m);
    } else {
      GoesNowhere(m);
    }
  }

  lemma BlanksGo(m: Machine, blanks: string)
    requires m.state.HeaderLineStart? && m.res.headers != [] && blanks != "" && AllBlanks(blanks)
    ensures Goes(m, blanks, m.(state := HeaderLws))
  {
    BlankBytes(m.(state := HeaderLws), blanks[1..]);
    assert [blanks[0]] + blanks[1..] == blanks;
    hide Goes;
    GoesByte(m, blanks[0], blanks[1..], m.(state := HeaderLws));
  }

  /** The first byte of a continued value. */
  lemma FoldedByte(m: Machine, front: seq<Header>, last: Header, c: char)
    requires m.state.HeaderLws? && m.res.headers == front + [last] && !IsCtl(c) && c != ' '
    ensures Step(m, c)
         == (m.(state := HeaderValue, res := m.res.(headers := front + [Header(last.name, last.value + [c])])),
             Indeterminate)
  {
    assert m.res.headers[|m.res.headers| - 1] == last && m.res.headers[..|m.res.headers| - 1] == front;
    assert Back(m) == last && Front(m) == front && c != '\r' && c != '\t';
    hide IsCtl;
  }

  /** A continued value is added to the last header. */
  lemma FoldedValueGoes(m: Machine, front: seq<Header>, last: Header, value: string)
    requires m.state.HeaderLws? && m.res.headers == front + [last]
    requires value != "" && NoCtl(value) && value[0] != ' '
    ensures Goes(m, value, m.(state := HeaderValue,
                             res := m.res.(headers := front + [Header(last.name, last.value + value)])))
  {
    hide Goes, Step, IsCtl;
    var base := m.(state := HeaderLineStart, res := m.res.(headers := front));
    var first, more := last.value + [value[0]], value[1..];
    FoldedByte(m, front, last, value[0]);
    ValueBytes(base, last.name, first, more);
    assert first + more == last.value + value && [value[0]] + more == value;
    GoesByte(m, value[0], more, WithHeader(base, Header(last.name, last.value + value)).(state := HeaderValue));
  }

  lemma FoldGoes(m: Machine, h: Head, blanks: string, value: string)
    requires m.state.HeaderLineStart? && IsLine(Fold(blanks, value)) && h.headers != [] && value != ""
    ensures var n := |h.headers| - 1;
            Goes(WithHead(m, h), blanks + value,
                 WithHead(m, h.(headers := h.headers[..n] + [Header(h.headers[n].name, h.headers[n].value + value)]))
                 .(state := HeaderValue))
  {
    var n := |h.headers| - 1;
    var m1 := WithHead(m, h).(state := HeaderLws);
    assert h.headers == h.headers[..n] + [h.headers[n]];
    hide Goes, IsLine;
    assert blanks != "" && AllBlanks(blanks) && NoCtl(value) && value[0] != ' ' by { FoldParts(blanks, value); }
    BlanksGo(WithHead(m, h), blanks);
    FoldedValueGoes(m1, h.headers[..n], h.headers[n], value);
    GoesTwice(WithHead(m, h), blanks, m1, value,
              WithHead(m, h.(headers := h.headers[..n] + [Header(h.headers[n].name, h.headers[n].value + value)]))
              .(state := HeaderValue));
  }

  /** A line of blanks. */
  lemma BlankLineGoes(m: Machine, h: Head, blanks: string)
    requires m.state.HeaderLineStart? && h.headers != [] && blanks != "" && AllBlanks(blanks)
    ensures Goes(WithHead(m, h), blanks + CRLF, WithHead(m, h))
  {
    var m0, m1 := WithHead(m, h), WithHead(m, h).(state := HeaderLws);
    hide Goes;
    BlanksGo(m0, blanks);
    GoesCrlf(m1, m1.(state := ExpectingNewline2), m0);
    GoesTwice(m0, blanks, m1, CRLF, m0);
  }

  /** The machine before the carriage return of a line whose value takes effect. */
  lemma ValueOfLine(m: Machine, h: Head, l: Line) returns (text: string, h1: Head)
    requires m.state.HeaderLineStart? && IsLine(l) && (l.Fold? ==> h.headers != [] && l.value != "")
    ensures h1.headers != [] && Settle(h1) == AddLine(h, l) && LineText(l) == text + CRLF
    ensures Goes(WithHead(m, h), text, WithHead(m, h1).(state := HeaderValue))
  {
    hide Goes, Settle, IsLine;
    match l {
      case Field(name, value) =>
        text, h1 := name + ": " + value, h.(headers := h.headers + [Header(name, value)]);
        FieldGoes(m, h, name, value);
      case Fold(blanks, value) =>
        var n := |h.headers| - 1;
        text := blanks + value;
        h1 := h.(headers := h.headers[..n] + [Header(h.headers[n].name, h.headers[n].value + value)]);
        FoldGoes(m, h, blanks, value);
    }
  }

  lemma BadReturn(m: Machine, rest: string)
    requires Step(m, '\r').1.Bad?
    ensures Run(m, "\r" + rest).result.Bad?
  {
    hide Step;
    assert ("\r" + rest)[0] == '\r';
  }

  /** A line is read exactly when it can be added; a Content-Length that is no length is bad. */
  lemma LineGoes(m: Machine, h: Head, l: Line, rest: string)
    requires m.state.HeaderLineStart? && IsLine(l) && (l.Fold? ==> h.headers != [])
    ensures if AddLine(h, l).Some? then Goes(WithHead(m, h), LineText(l), WithHead(m, AddLine(h, l).value))
            else Run(WithHead(m, h), LineText(l) + rest).result.Bad?
  {
    hide Goes, Run, Step, Settle;
    if l.Fold? && l.value == "" {
      assert l.blanks + "" == l.blanks;
      BlankLineGoes(m, h, l.blanks);
    } else {
      hide IsLine, LineText, AddLine;
      var text, h1 := ValueOfLine(m, h, l);
      var q := WithHead(m, h1).(state := HeaderValue);
      SettleGoes(m, h1);
      if AddLine(h, l).Some? {
        GoesTwice(WithHead(m, h), text, q, CRLF, WithHead(m, AddLine(h, l).value));
      } else {
        BadReturn(q, "\n" + rest);
        assert text + CRLF + rest == text + ("\r" + ("\n" + rest));
        GoesThen(WithHead(m, h), text, q, "\r" + ("\n" + rest));
      }
    }
  }

  lemma {:induction false} LinesGo(m: Machine, h: Head, ls: seq<Line>)
    requires m.state.HeaderLineStart? && AreLines(ls) && AddLines(h, ls).Some?
    ensures Goes(WithHead(m, h), LinesText(ls), WithHead(m, AddLines(h, ls).value))
    decreases |ls|
  {
    hide Goes, WithHead, LineText, AddLine, IsLine;
    if ls == [] {
      GoesNowhere(WithHead(m, h));
    } else {
      FoldHasHeader(h, ls[0]);
      LineGoes(m, h, ls[0], "");
      var h1 := AddLine(h, ls[0]).value;
      LinesGo(m, h1, ls[1..]);
      GoesTwice(WithHead(m, h), LineText(ls[0]), WithHead(m, h1), LinesText(ls[1..]),
                WithHead(m, AddLines(h, ls).value));
    }
  }

  // ---- The body ----

  /** Behind the empty line of a head without a body, only line feeds are good. */
  lemma {:induction false} LineFeedsRun(m: Machine, s: string)
    requires m.state.ExpectingNewline3? && !m.res.chunked && m.res.contentsize == 0
    ensures Run(m, s).result.Good? <==> s != "" && forall i :: 0 <= i < |s| ==> s[i] == '\n'
    ensures Run(m, s).result.Good? ==> Run(m, s).m == m
    decreases |s|
  {
    if |s| > 1 && s[0] == '\n' { LineFeedsRun(m, s[1..]); }
  }

  lemma ReturnGoes(m: Machine)
    requires m.state.HeaderLineStart?
    ensures Goes(m, "\r", m.(state := ExpectingNewline3))
  {
    hide Goes;
    GoesOne(m, '\r', m.(state := ExpectingNewline3));
  }

  lemma AllLineFeeds(rest: string)
    ensures (forall i :: 0 <= i < |"\n" + rest| ==> ("\n" + rest)[i] == '\n')
       <==> (forall i :: 0 <= i < |rest| ==> rest[i] == '\n')
  {
    var s := "\n" + rest;
    assert forall i :: 0 <= i < |rest| ==> rest[i] == s[i + 1];
  }

  lemma EmptyLineByte(m: Machine)
    requires m.state.ExpectingNewline3? && !m.res.chunked && m.res.contentsize != 0
    ensures Step(m, '\n') == (m.(state := ExpectingBody), Indeterminate)
  {}

  lemma CountedRuns(m: Machine, rest: string)
    requires m.state.ExpectingNewline3? && m.res.body == "" && !m.res.chunked && m.res.contentsize != 0
    ensures var o := Run(m, "\n" + rest);
            && (o.result.Good? <==> |rest| == m.res.contentsize)
            && (o.result.Good? ==> o.m.res == m.res.(body := rest, contentsize := 0))
  {
    hide Goes, Run, Step;
    EmptyLineByte(m);
    GoesOne(m, '\n', m.(state := ExpectingBody));
    GoesThen(m, "\n", m.(state := ExpectingBody), rest);
    BodyBytes(m.(state := ExpectingBody), rest);
    assert "" + rest == rest;
  }

  lemma PrefixRuns(m: Machine, rest: string, k: nat, cs: seq<Chunk>, zero: string)
    requires m.state.ChunkSizeStart? && m.res.chunked && m.res.body == "" && CodingPrefix(rest, k, cs, zero)
    ensures var o := Run(m, rest);
            o.result.Good? && o.m.res == m.res.(body := Payload(cs), chunksizehex := zero, chunksize := 0)
  {
    hide Goes, Step, Run, Coded, Payload;
    var last := "\r" + rest[k..];
    var m1 := CodingRuns(m, rest[..k], cs, zero, rest[k..]);
    GoesThen(m, Coded(cs) + zero, m1, last);
    Assoc(Coded(cs) + zero, "\r", rest[k..]);
    assert rest == rest[..k] + rest[k..];
    assert "" + Payload(cs) == Payload(cs);
  }

  /** The machine at the start of a chunked body. */
  lemma ChunkedRuns(m: Machine, h: Head, rest: string)
    requires m.state.HeaderLineStart? && m.res.body == "" && m.res.chunked && h.chunked && m.res.headers == h.headers
    ensures var o := Run(m.(state := ExpectingNewline3), "\n" + rest);
            && (o.result.Good? <==> exists body :: IsBody(h, rest, body))
            && (forall body :: IsBody(h, rest, body) ==>
                  Built(o.m.res) == Response(m.res.code, Collect(h.headers), body))
  {
    var m1, m2 := m.(state := ExpectingNewline3), m.(state := ChunkSizeStart);
    assert Step(m1, '\n') == (m2, Indeterminate);
    hide Goes, Step, Run, Collect, IsCoding;
    GoesOne(m1, '\n', m2);
    GoesThen(m1, "\n", m2, rest);
    var o := Run(m2, rest);
    if o.result.Good? {
      GoodEndsACoding(m2, rest);
      var cs, zero :| IsCoding(rest[..o.taken], cs, zero);
      assert CodingPrefix(rest, o.taken, cs, zero);
      assert IsBody(h, rest, Payload(cs));
    }
    forall k: nat, cs, zero | CodingPrefix(rest, k, cs, zero)
      ensures o.result.Good? && Built(o.m.res) == Response(m.res.code, Collect(h.headers), Payload(cs))
    {
      PrefixRuns(m2, rest, k, cs, zero);
    }
  }

  /** What is good from the empty line on. */
  lemma BodyRuns(m: Machine, h: Head, rest: string)
    requires m.state.HeaderLineStart? && m.res.body == ""
    ensures var o := Run(WithHead(m, h), CRLF + rest);
            && (o.result.Good? <==> exists body :: IsBody(h, rest, body))
            && (forall body :: IsBody(h, rest, body) ==>
                  Built(o.m.res) == Response(m.res.code, Collect(h.headers), body))
  {
    hide Goes, Step, Run, Collect;
    var m0 := WithHead(m, h);
    var m1 := m0.(state := ExpectingNewline3);
    assert "\r" + ("\n" + rest) == CRLF + rest;
    ReturnGoes(m0);
    GoesThen(m0, "\r", m1, "\n" + rest);
    if h.chunked {
      ChunkedRuns(m0, h, rest);
    } else if h.length == 0 {
      LineFeedsRun(m1, "\n" + rest);
      AllLineFeeds(rest);
      if Run(m1, "\n" + rest).result.Good? { assert IsBody(h, rest, ""); }
    } else {
      CountedRuns(m1, rest);
      if Run(m1, "\n" + rest).result.Good? { assert IsBody(h, rest, rest); }
    }
  }

  // ---- Whatever is accepted is a response ----

  /** A good run takes its bytes one by one. */
  lemma GoodByte(m: Machine, s: string)
    requires Run(m, s).result.Good?
    ensures s != "" && !Step(m, s[0]).1.Bad?
    ensures Step(m, s[0]).1.Indeterminate? ==> Run(Step(m, s[0]).0, s[1..]).result.Good?
  {
    hide Step;
  }

  /** A good run goes on behind bytes that only ask for more, and there is a byte left. */
  lemma GoodThen(m: Machine, a: string, m1: Machine, s: string)
    requires Run(m, s).result.Good? && a <= s && Goes(m, a, m1)
    ensures |a| < |s| && Run(m1, s[|a|..]).result.Good? && s == a + s[|a|..] && !Step(m1, s[|a|]).1.Bad?
  {
    hide Step;
    assert s == a + s[|a|..];
    GoesThen(m, a, m1, s[|a|..]);
    GoodByte(m1, s[|a|..]);
    hide Run, Goes;
    assert s[|a|..][0] == s[|a|];
  }

  lemma OnlyEndsAreGood(m: Machine, c: char)
    requires InVersion(m.state) || InStatus(m.state) || InHeader(m.state)
    ensures !Step(m, c).1.Good?
  {
    hide Stoi, IsContentLength, AsksKeepAlive, AsksChunked, IsTokenChar, IsCtl;
  }

  /** A good run behind the first byte of a head. */
  lemma GoodAfter(m: Machine, s: string) returns (rest: string)
    requires Run(m, s).result.Good? && (InVersion(m.state) || InStatus(m.state) || InHeader(m.state))
    ensures s != "" && s == [s[0]] + rest && Step(m, s[0]).1.Indeterminate? && Run(Step(m, s[0]).0, rest).result.Good?
  {
    hide Step, Run, InVersion, InStatus, InHeader;
    GoodByte(m, s);
    OnlyEndsAreGood(m, s[0]);
    var r := Step(m, s[0]).1;
    assert !r.Bad? && !r.Good?;
    rest := s[1..];
  }

  /** The bytes that only one value passes, and where they lead. */
  ghost predicate Fixed(s: State, wanted: char, next: State) {
    || (s, wanted, next) == (VersionH, 'H', VersionT1) || (s, wanted, next) == (VersionT1, 'T', VersionT2)
    || (s, wanted, next) == (VersionT2, 'T', VersionP) || (s, wanted, next) == (VersionP, 'P', VersionSlash)
    || (s, wanted, next) == (SpaceBeforeReason, ' ', State.ReasonPhrase)
    || (s, wanted, next) == (ExpectingNewline1, '\n', HeaderLineStart)
    || (s, wanted, next) == (SpaceBeforeValue, ' ', HeaderValue)
    || (s, wanted, next) == (ExpectingNewline2, '\n', HeaderLineStart)
  }

  lemma OneOf(m: Machine, c: char, wanted: char, next: State)
    requires Fixed(m.state, wanted, next) && !Step(m, c).1.Bad?
    ensures c == wanted && SafeMachine(m.(state := next)) && Step(m, c) == (m.(state := next), Indeterminate)
  {}

  lemma FixedIsHead(s: State, wanted: char, next: State)
    requires Fixed(s, wanted, next)
    ensures InVersion(s) || InStatus(s) || InHeader(s)
  {}

  lemma FixedByte(m: Machine, s: string, wanted: char, next: State) returns (rest: string)
    requires Run(m, s).result.Good? && Fixed(m.state, wanted, next)
    ensures s == [wanted] + rest && SafeMachine(m.(state := next)) && Run(m.(state := next), rest).result.Good?
  {
    hide Run, Step, Fixed, InVersion, InStatus, InHeader, SafeMachine;
    FixedIsHead(m.state, wanted, next);
    rest := GoodAfter(m, s);
    OneOf(m, s[0], wanted, next);
  }

  lemma SlashEnds(m: Machine, c: char)
    requires m.state.VersionSlash? && !Step(m, c).1.Bad?
    ensures c == '/' && Step(m, c) == (m.(state := MajorStart, res := m.res.(major := 0, minor := 0)), Indeterminate)
  {}

  lemma ProtocolSound(m: Machine, s: string) returns (rest: string)
    requires m.state.VersionH? && Run(m, s).result.Good?
    ensures s == "HTTP/" + rest
    ensures Run(m.(state := MajorStart, res := m.res.(major := 0, minor := 0)), rest).result.Good?
  {
    hide Run, Step;
    var s1 := FixedByte(m, s, 'H', VersionT1);
    var s2 := FixedByte(m.(state := VersionT1), s1, 'T', VersionT2);
    var s3 := FixedByte(m.(state := VersionT2), s2, 'T', VersionP);
    var s4 := FixedByte(m.(state := VersionP), s3, 'P', VersionSlash);
    var m1 := m.(state := VersionSlash);
    rest := GoodAfter(m1, s4);
    SlashEnds(m1, s4[0]);
    FiveBytes(rest);
  }

  lemma MajorEnds(m: Machine, c: char)
    requires m.state.Major? && !IsDigit(c) && !Step(m, c).1.Bad?
    ensures c == '.' && Step(m, c) == (m.(state := MinorStart), Indeterminate)
  {
    hide IsDigit;
  }

  lemma MinorEnds(m: Machine, c: char)
    requires m.state.Minor? && !IsDigit(c) && !Step(m, c).1.Bad?
    ensures c == ' ' && Step(m, c) == (m.(state := StatusCode1), Indeterminate)
  {
    hide IsDigit;
  }

  lemma NumberStarts(m: Machine, s: string)
    requires (m.state.MajorStart? || m.state.MinorStart?) && Run(m, s).result.Good?
    ensures s != "" && IsDigit(s[0])
  {
    GoodByte(m, s);
    hide Run, IsDigit;
  }

  lemma MajorSound(m: Machine, s: string) returns (digits: string, rest: string)
    requires m.state.MajorStart? && m.res.major == 0 && Run(m, s).result.Good?
    ensures digits != "" && AllDigits(digits) && s == digits + "." + rest
    ensures Run(m.(state := MinorStart, res := m.res.(major := DecimalValue(digits))), rest).result.Good?
  {
    NumberStarts(m, s);
    hide Run, Goes, Step, IsDigit, DecimalValue;
    digits := While(s, IsDigit);
    var m1 := m.(state := Major, res := m.res.(major := DecimalValue(digits)));
    MajorBytes(m, digits);
    GoodThen(m, digits, m1, s);
    MajorEnds(m1, s[|digits|]);
    rest := GoodAfter(m1, s[|digits|..]);
    Assoc(digits, ".", rest);
  }

  lemma MinorSound(m: Machine, s: string) returns (digits: string, rest: string)
    requires m.state.MinorStart? && m.res.minor == 0 && Run(m, s).result.Good?
    ensures digits != "" && AllDigits(digits) && s == digits + " " + rest
    ensures Run(m.(state := StatusCode1, res := m.res.(minor := DecimalValue(digits))), rest).result.Good?
  {
    NumberStarts(m, s);
    hide Run, Goes, Step, IsDigit, DecimalValue;
    digits := While(s, IsDigit);
    var m1 := m.(state := Minor, res := m.res.(minor := DecimalValue(digits)));
    MinorBytes(m, digits);
    GoodThen(m, digits, m1, s);
    MinorEnds(m1, s[|digits|]);
    rest := GoodAfter(m1, s[|digits|..]);
    Assoc(digits, " ", rest);
  }

  lemma CodeDigit(m: Machine, c: char)
    requires m.state.StatusCode1? || m.state.StatusCode2? || m.state.StatusCode3?
    requires !Step(m, c).1.Bad?
    ensures IsDigit(c) && (m.state.StatusCode1? ==> '1' <= c <= '5')
    ensures m.state.StatusCode1? ==> Step(m, c).0 == m.(state := StatusCode2, res := m.res.(code := DigitValue(c)))
    ensures m.state.StatusCode2? ==>
              Step(m, c).0 == m.(state := StatusCode3, res := m.res.(code := m.res.code * 10 + DigitValue(c)))
    ensures m.state.StatusCode3? ==>
              Step(m, c).0 == m.(state := SpaceBeforeReason, res := m.res.(code := m.res.code * 10 + DigitValue(c)))
  {}

  lemma CodeSound(m: Machine, s: string) returns (digits: string, rest: string)
    requires m.state.StatusCode1? && Run(m, s).result.Good?
    ensures |digits| == 3 && AllDigits(digits) && '1' <= digits[0] <= '5' && s == digits + " " + rest
    ensures Run(m.(state := State.ReasonPhrase, res := m.res.(code := CodeOf(digits))), rest).result.Good?
  {
    hide Run, Step, IsDigit, DigitValue;
    var s1 := GoodAfter(m, s);
    CodeDigit(m, s[0]);
    var m1 := m.(state := StatusCode2, res := m.res.(code := DigitValue(s[0])));
    var s2 := GoodAfter(m1, s1);
    CodeDigit(m1, s1[0]);
    var m2 := m.(state := StatusCode3, res := m.res.(code := DigitValue(s[0]) * 10 + DigitValue(s1[0])));
    var s3 := GoodAfter(m2, s2);
    CodeDigit(m2, s2[0]);
    digits := [s[0], s1[0], s2[0]];
    rest := FixedByte(m.(state := SpaceBeforeReason, res := m.res.(code := CodeOf(digits))), s3, ' ', State.ReasonPhrase);
    assert s == [s[0]] + ([s1[0]] + ([s2[0]] + ([' '] + rest)));
    assert [s[0]] + ([s1[0]] + ([s2[0]] + ([' '] + rest))) == digits + " " + rest;
  }

  lemma ReasonEnds(m: Machine, c: char)
    requires m.state.ReasonPhrase? && !IsReasonChar(c) && !Step(m, c).1.Bad?
    ensures c == '\r' && Step(m, c) == (m.(state := ExpectingNewline1), Indeterminate)
  {
    hide IsReasonChar;
  }

  lemma ReasonSound(m: Machine, s: string) returns (phrase: string, rest: string)
    requires m.state.ReasonPhrase? && m.res.reason == "" && Run(m, s).result.Good?
    ensures AllReason(phrase) && s == phrase + CRLF + rest
    ensures Run(m.(state := HeaderLineStart, res := m.res.(reason := phrase)), rest).result.Good?
  {
    hide Run, Goes, Step, IsReasonChar;
    phrase := While(s, IsReasonChar);
    var m1 := m.(res := m.res.(reason := phrase));
    ReasonBytes(m, phrase);
    assert "" + phrase == phrase;
    GoodThen(m, phrase, m1, s);
    ReasonEnds(m1, s[|phrase|]);
    var last := GoodAfter(m1, s[|phrase|..]);
    rest := FixedByte(m1.(state := ExpectingNewline1), last, '\n', HeaderLineStart);
    TwoBytes(phrase, rest);
  }

  lemma JoinStatus(major: string, minor: string, code: string, reason: string, rest: string)
    ensures "HTTP/" + (major + "." + (minor + " " + (code + " " + (reason + CRLF + rest))))
         == "HTTP/" + (major + "." + minor + " ") + (code + " ") + (reason + CRLF) + rest
  {}

  /** The status line of an accepted text. */
  lemma StatusSound(anyContentsize: int, anyChunksize: int, s: string) returns (p: Status, rest: string)
    requires Run(Start(anyContentsize, anyChunksize), s).result.Good?
    ensures IsStatus(p) && s == StatusText(p) + rest
    ensures Run(AfterStatus(anyContentsize, anyChunksize, p), rest).result.Good?
  {
    hide Run, Step, DecimalValue, AllDigits, AllReason, CodeOf;
    var m := Start(anyContentsize, anyChunksize);
    var s1 := ProtocolSound(m, s);
    var m1 := m.(state := MajorStart, res := m.res.(major := 0, minor := 0));
    var major, s2 := MajorSound(m1, s1);
    var m2 := m1.(state := MinorStart, res := m1.res.(major := DecimalValue(major)));
    var minor, s3 := MinorSound(m2, s2);
    var m3 := m2.(state := StatusCode1, res := m2.res.(minor := DecimalValue(minor)));
    var code, s4 := CodeSound(m3, s3);
    var m4 := m3.(state := State.ReasonPhrase, res := m3.res.(code := CodeOf(code)));
    var reason, s5 := ReasonSound(m4, s4);
    p, rest := Status(major, minor, code, reason), s5;
    JoinStatus(major, minor, code, reason, rest);
    assert m4.(state := HeaderLineStart, res := m4.res.(reason := reason))
        == AfterStatus(anyContentsize, anyChunksize, p);
  }

  // ---- Header lines ----

  lemma NameEnds(m: Machine, c: char)
    requires m.state.HeaderName? && !IsTokenChar(c) && !Step(m, c).1.Bad?
    ensures c == ':' && Step(m, c) == (m.(state := SpaceBeforeValue), Indeterminate)
  {
    hide IsTokenChar;
  }

  lemma NameWord(m: Machine, name: string)
    requires m.state.HeaderLineStart? && name != "" && AllToken(name)
    ensures Goes(m, name, WithHeader(m, Header(name, "")).(state := HeaderName))
  {
    NameBytes(m, [name[0]], name[1..]);
    assert [name[0]] + name[1..] == name;
    hide Goes;
    GoesByte(m, name[0], name[1..], WithHeader(m, Header(name, "")).(state := HeaderName));
  }

  lemma NameSound(m: Machine, s: string) returns (name: string, rest: string)
    requires m.state.HeaderLineStart? && Run(m, s).result.Good? && s != "" && IsTokenChar(s[0])
    ensures name != "" && AllToken(name) && s == name + ": " + rest
    ensures Run(WithHeader(m, Header(name, "")).(state := HeaderValue), rest).result.Good?
  {
    hide Run, Goes, Step, IsTokenChar;
    name := While(s, IsTokenChar);
    var m1 := WithHeader(m, Header(name, "")).(state := HeaderName);
    NameWord(m, name);
    GoodThen(m, name, m1, s);
    NameEnds(m1, s[|name|]);
    var last := GoodAfter(m1, s[|name|..]);
    rest := FixedByte(m1.(state := SpaceBeforeValue), last, ' ', HeaderValue);
    ColonBytes(name, rest);
  }

  lemma ValueEnds(m: Machine, c: char)
    requires m.state.HeaderValue? && IsCtl(c) && !Step(m, c).1.Bad?
    ensures c == '\r' && Step(m, c).1.Indeterminate? && Step(m, c).0.state.ExpectingNewline2?
  {
    hide Stoi, IsContentLength, AsksKeepAlive, AsksChunked;
  }

  lemma ReturnSound(m: Machine, s: string)
    requires m.state.HeaderValue? && Run(m, s).result.Good? && s != "" && IsCtl(s[0])
    ensures |s| >= 2 && s == CRLF + s[2..]
  {
    hide Run, Step, IsCtl;
    var later := GoodAfter(m, s);
    ValueEnds(m, s[0]);
    var rest := FixedByte(Step(m, '\r').0, later, '\n', HeaderLineStart);
    assert s == ['\r'] + (['\n'] + rest);
  }

  /** A value up to its carriage return. */
  lemma ValueSound(m: Machine, name: string, before: string, s: string) returns (value: string)
    requires m.state.HeaderLineStart? && Run(WithHeader(m, Header(name, before)).(state := HeaderValue), s).result.Good?
    ensures NoCtl(value) && |value| + 2 <= |s| && s == value + CRLF + s[|value| + 2..]
  {
    hide Run, Goes, Step, IsCtl;
    var m0 := WithHeader(m, Header(name, before)).(state := HeaderValue);
    value := While(s, IsValueChar);
    var m1 := WithHeader(m, Header(name, before + value)).(state := HeaderValue);
    ValueBytes(m, name, before, value);
    GoodThen(m0, value, m1, s);
    var later := s[|value|..];
    ReturnSound(m1, later);
    assert s[|value| + 2..] == later[2..];
    assert s == value + later && later == CRLF + later[2..];
  }

  lemma BlanksSound(m: Machine, s: string) returns (blanks: string, later: string)
    requires m.state.HeaderLineStart? && m.res.headers != [] && Run(m, s).result.Good?
    requires s != "" && (s[0] == ' ' || s[0] == '\t')
    ensures blanks != "" && AllBlanks(blanks) && s == blanks + later
    ensures later != "" && later[0] != ' ' && later[0] != '\t' && Run(m.(state := HeaderLws), later).result.Good?
  {
    blanks := While(s, IsBlank);
    assert blanks != "";
    hide Run, Goes;
    BlanksGo(m, blanks);
    GoodThen(m, blanks, m.(state := HeaderLws), s);
    later := s[|blanks|..];
    assert later[0] == s[|blanks|];
  }

  /** A continued line without a value. */
  lemma BlankLineSound(m: Machine, s: string) returns (rest: string)
    requires m.state.HeaderLws? && Run(m, s).result.Good? && s != "" && s[0] == '\r'
    ensures s == CRLF + rest
  {
    assert Step(m, '\r') == (m.(state := ExpectingNewline2), Indeterminate);
    hide Run, Step;
    var later := GoodAfter(m, s);
    rest := FixedByte(m.(state := ExpectingNewline2), later, '\n', HeaderLineStart);
    assert s == ['\r'] + (['\n'] + rest);
  }

  /** A continued value, whose first byte is no blank. */
  lemma FoldedValueSound(m: Machine, front: seq<Header>, last: Header, s: string) returns (value: string, rest: string)
    requires m.state.HeaderLws? && m.res.headers == front + [last] && Run(m, s).result.Good?
    requires s != "" && s[0] != ' ' && s[0] != '\t' && s[0] != '\r'
    ensures value != "" && NoCtl(value) && value[0] != ' ' && s == value + CRLF + rest
  {
    var base := m.(state := HeaderLineStart, res := m.res.(headers := front));
    assert Back(m) == last && Front(m) == front;
    var s1 := GoodAfter(m, s);
    assert !IsCtl(s[0]);
    assert Step(m, s[0]).0 == WithHeader(base, Header(last.name, last.value + [s[0]])).(state := HeaderValue);
    hide Run, Step, IsCtl;
    var more := ValueSound(base, last.name, last.value + [s[0]], s1);
    value, rest := [s[0]] + more, s1[|more| + 2..];
    assert s == [s[0]] + (more + CRLF + rest);
  }

  lemma FoldSound(m: Machine, h: Head, s: string) returns (l: Line, rest: string)
    requires m.state.HeaderLineStart? && Run(WithHead(m, h), s).result.Good?
    requires h.headers != [] && s != "" && (s[0] == ' ' || s[0] == '\t')
    ensures IsLine(l) && l.Fold? && s == LineText(l) + rest
  {
    hide Run, Step;
    var n := |h.headers| - 1;
    assert h.headers == h.headers[..n] + [h.headers[n]];
    var blanks, later := BlanksSound(WithHead(m, h), s);
    var m1 := WithHead(m, h).(state := HeaderLws);
    if later[0] == '\r' {
      rest := BlankLineSound(m1, later);
      l := Fold(blanks, "");
      assert blanks + "" == blanks;
      Assoc(blanks, CRLF, rest);
    } else {
      var value;
      value, rest := FoldedValueSound(m1, h.headers[..n], h.headers[n], later);
      l := Fold(blanks, value);
      assert blanks + (value + CRLF + rest) == blanks + value + CRLF + rest;
    }
  }

  lemma LineStarts(m: Machine, c: char)
    requires m.state.HeaderLineStart? && c != '\r' && !Step(m, c).1.Bad?
    ensures IsTokenChar(c) || (m.res.headers != [] && (c == ' ' || c == '\t'))
  {
    hide IsTokenChar;
  }

  lemma FieldSound(m: Machine, s: string) returns (l: Line, rest: string)
    requires m.state.HeaderLineStart? && Run(m, s).result.Good? && s != "" && IsTokenChar(s[0])
    ensures IsLine(l) && l.Field? && s == LineText(l) + rest
  {
    hide Run, Step, AllToken, NoCtl, IsTokenChar, WithHeader;
    var name, later := NameSound(m, s);
    var value := ValueSound(m, name, "", later);
    l, rest := Field(name, value), later[|value| + 2..];
    assert s == name + ": " + (value + CRLF + rest);
    assert name + ": " + (value + CRLF + rest) == name + ": " + value + CRLF + rest;
  }

  /** The line an accepted text goes on with. */
  lemma OneLineSound(m: Machine, h: Head, s: string) returns (l: Line, rest: string)
    requires m.state.HeaderLineStart? && Run(WithHead(m, h), s).result.Good? && s != "" && s[0] != '\r'
    ensures IsLine(l) && (l.Fold? ==> h.headers != []) && s == LineText(l) + rest
  {
    hide Run, Step, IsLine, LineText, IsTokenChar;
    var _ := GoodAfter(WithHead(m, h), s);
    LineStarts(WithHead(m, h), s[0]);
    if IsTokenChar(s[0]) {
      l, rest := FieldSound(WithHead(m, h), s);
    } else {
      l, rest := FoldSound(m, h, s);
    }
  }

  lemma LineFeedEnds(m: Machine, c: char)
    requires m.state.ExpectingNewline3? && !Step(m, c).1.Bad?
    ensures c == '\n'
  {}

  /** The empty line of an accepted text. */
  lemma EndSound(m: Machine, s: string) returns (rest: string)
    requires m.state.HeaderLineStart? && Run(m, s).result.Good? && s != "" && s[0] == '\r'
    ensures s == CRLF + rest
  {
    assert Step(m, '\r').0 == m.(state := ExpectingNewline3);
    hide Run, Step;
    var later := GoodAfter(m, s);
    var m1 := m.(state := ExpectingNewline3);
    GoodByte(m1, later);
    LineFeedEnds(m1, later[0]);
    rest := later[1..];
    assert later == ['\n'] + rest;
  }

  /** From a line start on, an accepted text is header lines, an empty line and what they announce. */
  lemma {:induction false} LinesSound(m: Machine, h: Head, s: string) returns (ls: seq<Line>, rest: string)
    requires m.state.HeaderLineStart? && Run(WithHead(m, h), s).result.Good?
    ensures AreLines(ls) && AddLines(h, ls).Some? && s == LinesText(ls) + (CRLF + rest)
    decreases |s|
  {
    GoodByte(WithHead(m, h), s);
    hide Run, Step, IsLine, LineText, AddLine;
    if s[0] == '\r' {
      ls := [];
      rest := EndSound(WithHead(m, h), s);
      assert s == "" + (CRLF + rest);
    } else {
      var l, later := OneLineSound(m, h, s);
      LineGoes(m, h, l, later);
      LineIsLong(l);
      var h1 := AddLine(h, l).value;
      GoesThen(WithHead(m, h), LineText(l), WithHead(m, h1), later);
      ls, rest := LinesSound(m, h1, later);
      JoinLines(l, ls, CRLF + rest);
      ls := [l] + ls;
    }
  }

  /** The run over a head and what follows it. */
  lemma HeadRuns(anyContentsize: int, anyChunksize: int, p: Status, ls: seq<Line>, rest: string)
    requires IsStatus(p) && AreLines(ls) && AddLines(NoHead(anyContentsize), ls).Some?
    ensures var o := Run(Start(anyContentsize, anyChunksize), StatusText(p) + (LinesText(ls) + (CRLF + rest)));
            var h := AddLines(NoHead(anyContentsize), ls).value;
            && (o.result.Good? <==> exists body :: IsBody(h, rest, body))
            && (forall body :: IsBody(h, rest, body) ==>
                  Built(o.m.res) == Response(CodeOf(p.code), Collect(h.headers), body))
  {
    var m := AfterStatus(anyContentsize, anyChunksize, p);
    var h := AddLines(NoHead(anyContentsize), ls).value;
    assert WithHead(m, NoHead(anyContentsize)) == m;
    hide Goes, Run, Step, AddLines, LinesText, AreLines, StatusText, IsBody, Collect, CodeOf, IsStatus, DecimalValue;
    StatusGoes(anyContentsize, anyChunksize, p);
    LinesGo(m, NoHead(anyContentsize), ls);
    BodyRuns(m, h, rest);
    GoesThen(m, LinesText(ls), WithHead(m, h), CRLF + rest);
    GoesThen(Start(anyContentsize, anyChunksize), StatusText(p), m, LinesText(ls) + (CRLF + rest));
  }

  lemma SameHead(anyContentsize: int, anyChunksize: int, p: Status)
    requires IsStatus(p)
    ensures var m := AfterStatus(anyContentsize, anyChunksize, p); WithHead(m, NoHead(anyContentsize)) == m
  {}

  lemma HeadSound(anyContentsize: int, anyChunksize: int, s: string) returns (p: Status, ls: seq<Line>, rest: string)
    requires Run(Start(anyContentsize, anyChunksize), s).result.Good?
    ensures IsStatus(p) && AreLines(ls) && AddLines(NoHead(anyContentsize), ls).Some?
    ensures s == StatusText(p) + (LinesText(ls) + (CRLF + rest))
  {
    hide Run, Step, StatusText, IsStatus, AddLines, LinesText, AreLines, DecimalValue, CodeOf;
    var later;
    p, later := StatusSound(anyContentsize, anyChunksize, s);
    var m := AfterStatus(anyContentsize, anyChunksize, p);
    SameHead(anyContentsize, anyChunksize, p);
    ls, rest := LinesSound(m, NoHead(anyContentsize), later);
  }

  /** The language of the response parser: it answers good at the end of s exactly when s is a response, and it then
      builds the response described. This takes in continued lines, any version, every code from 100 to 599, several
      Content-Length headers, an unset length, the line feeds behind an empty body, and whatever is behind the
      final chunk. */
  lemma AcceptsExactlyResponses(s: string, anyContentsize: int, anyChunksize: int)
    ensures var o := Run(Start(anyContentsize, anyChunksize), s);
            && (o.result.Good? <==> exists p, ls, rest, body :: Spells(s, p, ls, rest, body, anyContentsize))
            && (forall p, ls, rest, body :: Spells(s, p, ls, rest, body, anyContentsize) ==>
                  Built(o.m.res) == Response(CodeOf(p.code),
                                             Collect(AddLines(NoHead(anyContentsize), ls).value.headers), body))
  {
    hide Run, Step, StatusText, AddLines, LinesText, AreLines, IsBody, Collect, CodeOf, AllDigits, AllReason;
    var o := Run(Start(anyContentsize, anyChunksize), s);
    if o.result.Good? {
      var p, ls, rest := HeadSound(anyContentsize, anyChunksize, s);
      HeadRuns(anyContentsize, anyChunksize, p, ls, rest);
      var body :| IsBody(AddLines(NoHead(anyContentsize), ls).value, rest, body);
      assert Spells(s, p, ls, rest, body, anyContentsize);
    }
    forall p, ls, rest, body | Spells(s, p, ls, rest, body, anyContentsize)
      ensures o.result.Good?
      ensures Built(o.m.res)
           == Response(CodeOf(p.code), Collect(AddLines(NoHead(anyContentsize), ls).value.headers), body)
    {
      HeadRuns(anyContentsize, anyChunksize, p, ls, rest);
    }
  }

  // ---- The read loop ----

  ghost predicate IsResponse(s: string, anyContentsize: int) {
    exists p, ls, rest, body :: Spells(s, p, ls, rest, body, anyContentsize)
  }

  /** A run over two texts of which the first only asks for more. */
  lemma RunOn(m: Machine, a: string, b: string)
    requires Run(m, a).result.Indeterminate?
    ensures Run(m, a + b).result == Run(Run(m, a).m, b).result && Run(m, a + b).m == Run(Run(m, a).m, b).m
  {
    SplitAnywhere(m, a, b);
    if b == "" { assert a + b == a; }
    hide Step;
  }

  lemma NoReads(m: Machine, pieces: seq<string>)
    ensures Run(m, FirstReads(pieces, 0)).result.Indeterminate?
  {}

  /** The read loop answers after the first reads that are good, when none before them is good or bad. */
  lemma {:induction false} ReadAnswers(m: Machine, pieces: seq<string>, n: nat)
    requires n <= |pieces| && Run(m, FirstReads(pieces, n)).result.Good?
    requires forall k: nat :: k < n ==> Run(m, FirstReads(pieces, k)).result.Indeterminate?
    ensures ReadAll(m, pieces) == Some(Built(Run(m, FirstReads(pieces, n)).m.res))
    decreases n
  {
    NoReads(m, pieces);
    hide Run, Step;
    var o := Run(m, pieces[0]);
    OneRead(pieces);
    if n > 1 {
      assert Run(m, FirstReads(pieces, 1)).result.Indeterminate?;
      forall k: nat | k < n ensures Run(o.m, FirstReads(pieces[1..], k)).result
                                 == Run(m, FirstReads(pieces, k + 1)).result {
        FirstReadsShift(pieces, k + 1);
        RunOn(m, pieces[0], FirstReads(pieces[1..], k));
      }
      FirstReadsShift(pieces, n);
      RunOn(m, pieces[0], FirstReads(pieces[1..], n - 1));
      ReadAnswers(o.m, pieces[1..], n - 1);
    }
  }

  /** A response was returned after some of the reads. */
  lemma {:induction false} ReadWasGood(m: Machine, pieces: seq<string>) returns (n: nat)
    requires ReadAll(m, pieces).Some?
    ensures n <= |pieces| && Run(m, FirstReads(pieces, n)).result.Good?
    decreases |pieces|
  {
    hide Run, Step;
    var o := Run(m, pieces[0]);
    OneRead(pieces);
    if o.result.Good? {
      n := 1;
    } else {
      var later := ReadWasGood(o.m, pieces[1..]);
      n := later + 1;
      FirstReadsShift(pieces, n);
      RunOn(m, pieces[0], FirstReads(pieces[1..], later));
    }
  }

  /** Bad stays bad. */
  lemma BadStays(m: Machine, pieces: seq<string>, k: nat, n: nat)
    requires k <= n <= |pieces| && Run(m, FirstReads(pieces, k)).result.Bad?
    ensures Run(m, FirstReads(pieces, n)).result.Bad?
  {
    assert pieces[..n] == pieces[..k] + pieces[k..n];
    FlattenConcat(pieces[..k], pieces[k..n]);
    SplitAnywhere(m, FirstReads(pieces, k), Flatten(pieces[k..n]));
    hide Run, Step;
  }

  lemma {:induction false} Shortest(pieces: seq<string>, n: nat, anyContentsize: int) returns (least: nat)
    requires n <= |pieces| && IsResponse(FirstReads(pieces, n), anyContentsize)
    ensures least <= n && IsResponse(FirstReads(pieces, least), anyContentsize)
    ensures forall k: nat :: k < least ==> !IsResponse(FirstReads(pieces, k), anyContentsize)
    decreases n
  {
    hide IsResponse, FirstReads;
    if k: nat :| k < n && IsResponse(FirstReads(pieces, k), anyContentsize) {
      least := Shortest(pieces, k, anyContentsize);
    } else {
      least := n;
    }
  }

  lemma ShortestIsRead(pieces: seq<string>, n: nat, p: Status, ls: seq<Line>, rest: string, body: string,
                       anyContentsize: int, anyChunksize: int)
    requires n <= |pieces| && Spells(FirstReads(pieces, n), p, ls, rest, body, anyContentsize)
    requires forall k: nat :: k < n ==> !IsResponse(FirstReads(pieces, k), anyContentsize)
    ensures ReadAll(Start(anyContentsize, anyChunksize), pieces)
         == Some(Response(CodeOf(p.code), Collect(AddLines(NoHead(anyContentsize), ls).value.headers), body))
  {
    hide Run, Step, ReadAll, FirstReads, StatusText, AddLines, LinesText, AreLines, IsBody, Collect, CodeOf, AllDigits,
         AllReason;
    var m := Start(anyContentsize, anyChunksize);
    AcceptsExactlyResponses(FirstReads(pieces, n), anyContentsize, anyChunksize);
    forall k: nat | k < n ensures Run(m, FirstReads(pieces, k)).result.Indeterminate? {
      AcceptsExactlyResponses(FirstReads(pieces, k), anyContentsize, anyChunksize);
      assert !IsResponse(FirstReads(pieces, k), anyContentsize);
      if Run(m, FirstReads(pieces, k)).result.Bad? { BadStays(m, pieces, k, n); }
    }
    ReadAnswers(m, pieces, n);
  }

  /** The read loop, for all reads: a response is returned exactly when some first reads are a response, and it is the
      one that the shortest of them describe. */
  lemma ReadsExactlyResponses(pieces: seq<string>, anyContentsize: int, anyChunksize: int)
    ensures var got := ReadAll(Start(anyContentsize, anyChunksize), pieces);
            && (got.Some? <==> exists n: nat :: n <= |pieces| && IsResponse(FirstReads(pieces, n), anyContentsize))
            && (forall n: nat, p, ls, rest, body ::
                  n <= |pieces| && Spells(FirstReads(pieces, n), p, ls, rest, body, anyContentsize)
                  && (forall k: nat :: k < n ==> !IsResponse(FirstReads(pieces, k), anyContentsize))
                  ==> got == Some(Response(CodeOf(p.code),
                                           Collect(AddLines(NoHead(anyContentsize), ls).value.headers), body)))
  {
    hide Run, Step, ReadAll, FirstReads, StatusText, AddLines, LinesText, AreLines, IsBody, Collect, CodeOf, AllDigits,
         AllReason;
    var m := Start(anyContentsize, anyChunksize);
    if ReadAll(m, pieces).Some? {
      var n := ReadWasGood(m, pieces);
      AcceptsExactlyResponses(FirstReads(pieces, n), anyContentsize, anyChunksize);
      assert IsResponse(FirstReads(pieces, n), anyContentsize);
    }
    if n: nat :| n <= |pieces| && IsResponse(FirstReads(pieces, n), anyContentsize) {
      var least := Shortest(pieces, n, anyContentsize);
      var p, ls, rest, body :| Spells(FirstReads(pieces, least), p, ls, rest, body, anyContentsize);
      ShortestIsRead(pieces, least, p, ls, rest, body, anyContentsize, anyChunksize);
    }
    forall n: nat, p, ls, rest, body |
      n <= |pieces| && Spells(FirstReads(pieces, n), p, ls, rest, body, anyContentsize)
      && (forall k: nat :: k < n ==> !IsResponse(FirstReads(pieces, k), anyContentsize))
      ensures ReadAll(m, pieces) == Some(Response(CodeOf(p.code),
                                                  Collect(AddLines(NoHead(anyContentsize), ls).value.headers), body))
    {
      ShortestIsRead(pieces, n, p, ls, rest, body, anyContentsize, anyChunksize);
    }
  }
}
