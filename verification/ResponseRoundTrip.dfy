/** A serialised response, delivered in any reads, is read back exactly when its headers declare its
    body; a chunked one is read back with its payload for a body. */
module ResponseRoundTrip {
  import opened Text
  import opened Headers
  import opened Responses
  import opened ResponseParsing
  import opened ResponseSplitting
  import opened ChunkedCoding

  // ---- The status line ----

  predicate AllReason(s: string) { forall i :: 0 <= i < |s| ==> IsReasonChar(s[i]) }

  /** A reason is made of blanks and the characters of names. */
  lemma ReasonChars(c: char)
    ensures IsReasonChar(c) <==> c == ' ' || IsTokenChar(c)
  {}

  lemma {:induction false} ReasonBytes(m: Machine, s: string)
    requires m.state.ReasonPhrase? && AllReason(s)
    ensures Goes(m, s, m.(res := m.res.(reason := m.res.reason + s)))
    decreases |s|
  {
    if s == "" {
      assert m.res.reason + s == m.res.reason;
    } else {
      ReasonBytes(Step(m, s[0]).0, s[1..]);
      assert m.res.reason + [s[0]] + s[1..] == m.res.reason + s;
    }
  }

  lemma HttpSlashGoes(m: Machine)
    requires m.state.VersionH?
    ensures Goes(m, "HTTP/", m.(state := MajorStart, res := m.res.(major := 0, minor := 0)))
  {
    hide Goes;
    var last := m.(state := MajorStart, res := m.res.(major := 0, minor := 0));
    GoesOne(m.(state := VersionSlash), '/', last);
    GoesByte(m.(state := VersionP), 'P', "/", last);
    assert ['P'] + "/" == "P/" && ['T'] + "P/" == "TP/" && ['T'] + "TP/" == "TTP/" && ['H'] + "TTP/" == "HTTP/";
    GoesByte(m.(state := VersionT2), 'T', "P/", last);
    GoesByte(m.(state := VersionT1), 'T', "TP/", last);
    GoesByte(m, 'H', "TTP/", last);
  }

  lemma OneDotZeroGoes(m: Machine)
    requires m.state.MajorStart? && m.res.major == 0 && m.res.minor == 0
    ensures Goes(m, "1.0 ", m.(state := StatusCode1, res := m.res.(major := 1)))
  {
    hide Goes;
    var last := m.(state := StatusCode1, res := m.res.(major := 1));
    GoesOne(last.(state := Minor), ' ', last);
    GoesByte(last.(state := MinorStart), '0', " ", last);
    assert ['0'] + " " == "0 " && ['.'] + "0 " == ".0 " && ['1'] + ".0 " == "1.0 ";
    GoesByte(last.(state := Major), '.', "0 ", last);
    GoesByte(m, '1', ".0 ", last);
  }

  lemma VersionGoes(m: Machine)
    requires m.state.VersionH?
    ensures Goes(m, "HTTP/1.0 ", m.(state := StatusCode1, res := m.res.(major := 1, minor := 0)))
  {
    hide Goes, Step;
    var mid := m.(state := MajorStart, res := m.res.(major := 0, minor := 0));
    HttpSlashGoes(m);
    OneDotZeroGoes(mid);
    assert "HTTP/" + "1.0 " == "HTTP/1.0 ";
    GoesTwice(m, "HTTP/", mid, "1.0 ", m.(state := StatusCode1, res := m.res.(major := 1, minor := 0)));
  }

  function CodeOf(digits: string): int
    requires |digits| == 3 && AllDigits(digits)
  {
    (DigitValue(digits[0]) * 10 + DigitValue(digits[1])) * 10 + DigitValue(digits[2])
  }

  lemma DigitsGo(m: Machine, digits: string)
    requires m.state.StatusCode1? && |digits| == 3 && AllDigits(digits) && '1' <= digits[0] <= '5'
    ensures Goes(m, digits + " ", m.(state := ReasonPhrase, res := m.res.(code := CodeOf(digits))))
  {
    hide Goes;
    var m1 := m.(state := StatusCode2, res := m.res.(code := DigitValue(digits[0])));
    var m2 := m.(state := StatusCode3, res := m.res.(code := DigitValue(digits[0]) * 10 + DigitValue(digits[1])));
    var m3 := m.(state := SpaceBeforeReason, res := m.res.(code := CodeOf(digits)));
    var m4 := m3.(state := ReasonPhrase);
    GoesOne(m3, ' ', m4);
    GoesByte(m2, digits[2], " ", m4);
    GoesByte(m1, digits[1], [digits[2]] + " ", m4);
    GoesByte(m, digits[0], [digits[1]] + ([digits[2]] + " "), m4);
    assert [digits[0]] + ([digits[1]] + ([digits[2]] + " ")) == digits + " ";
  }

  lemma ReasonGoes(m: Machine, reason: string)
    requires m.state.ReasonPhrase? && m.res.reason == "" && AllReason(reason)
    ensures Goes(m, reason + CRLF, m.(state := HeaderLineStart, res := m.res.(reason := reason)))
  {
    hide Goes;
    var m1 := m.(res := m.res.(reason := reason));
    ReasonBytes(m, reason);
    assert "" + reason == reason;
    GoesCrlf(m1, m1.(state := ExpectingNewline1), m1.(state := HeaderLineStart));
    GoesTwice(m, reason, m1, CRLF, m1.(state := HeaderLineStart));
  }

  lemma LettersAreReason(s: string)
    requires forall i :: 0 <= i < |s| ==> s[i] == ' ' || 'A' <= s[i] <= 'Z' || 'a' <= s[i] <= 'z'
    ensures AllReason(s)
  {}

  lemma ReasonIsText(code: int)
    ensures AllReason(Responses.ReasonPhrase(code))
  {
    hide AllReason;
    LettersAreReason("OK");
    LettersAreReason("Bad Request");
    LettersAreReason("Not Found");
    LettersAreReason("Moved Temporarily");
  }

  lemma DigitsShowCode(code: int)
    ensures var digits := StatusDigits(code);
            |digits| == 3 && AllDigits(digits) && '1' <= digits[0] <= '5' && CodeOf(digits) == ShownCode(code)
  {}

  /** The parser after a status line of the serialiser. */
  lemma StatusLineGoes(contentsize: int, chunksize: int, code: int) returns (m1: Machine)
    ensures Goes(Start(contentsize, chunksize), StatusLine(code), m1)
    ensures m1.state.HeaderLineStart?
    ensures m1.res
            == Fresh(contentsize, chunksize).(major := 1, minor := 0, code := ShownCode(code), reason := m1.res.reason)
  {
    hide Goes, Step;
    var digits, reason := StatusDigits(code), Responses.ReasonPhrase(code);
    ReasonIsText(code);
    DigitsShowCode(code);
    var m := Start(contentsize, chunksize);
    var a := m.(state := StatusCode1, res := m.res.(major := 1, minor := 0));
    var b := a.(state := ReasonPhrase, res := a.res.(code := ShownCode(code)));
    m1 := b.(state := HeaderLineStart, res := b.res.(reason := reason));
    VersionGoes(m);
    DigitsGo(a, digits);
    GoesTwice(m, "HTTP/1.0 ", a, digits + " ", b);
    ReasonGoes(b, reason);
    GoesTwice(m, "HTTP/1.0 " + (digits + " "), b, reason + CRLF, m1);
  }

  // ---- One header line ----

  // Name, value, end of line and whole block follow the same steps as in the request parser, on a machine
  // with other fields; the serialiser's lines are buffers laid end to end instead of one printed text.

  lemma NameByte(m: Machine, name: string, c: char)
    requires !InsideHeader(m.state) && !m.state.ChunkSize? && IsTokenChar(c)
    ensures Step(WithHeader(m, Header(name, "")).(state := HeaderName), c)
         == (WithHeader(m, Header(name + [c], "")).(state := HeaderName), Indeterminate)
  {
    assert Front(WithHeader(m, Header(name, ""))) == m.res.headers;
    assert c != ':';
    hide IsTokenChar;
  }

  lemma {:induction false} NameBytes(m: Machine, name: string, rest: string)
    requires !InsideHeader(m.state) && !m.state.ChunkSize? && AllToken(rest)
    ensures Goes(WithHeader(m, Header(name, "")).(state := HeaderName), rest,
                 WithHeader(m, Header(name + rest, "")).(state := HeaderName))
    decreases |rest|
  {
    hide Step, IsTokenChar, WithHeader;
    if rest == "" {
      assert name + rest == name;
    } else {
      NameByte(m, name, rest[0]);
      NameBytes(m, name + [rest[0]], rest[1..]);
      assert name + [rest[0]] + rest[1..] == name + rest;
    }
  }

  lemma ValueByte(m: Machine, name: string, value: string, c: char)
    requires !InsideHeader(m.state) && !m.state.ChunkSize? && !IsCtl(c)
    ensures Step(WithHeader(m, Header(name, value)).(state := HeaderValue), c)
         == (WithHeader(m, Header(name, value + [c])).(state := HeaderValue), Indeterminate)
  {
    assert Front(WithHeader(m, Header(name, value))) == m.res.headers;
    assert c != '\r';
    hide IsCtl;
  }

  lemma {:induction false} ValueBytes(m: Machine, name: string, value: string, rest: string)
    requires !InsideHeader(m.state) && !m.state.ChunkSize? && NoCtl(rest)
    ensures Goes(WithHeader(m, Header(name, value)).(state := HeaderValue), rest,
                 WithHeader(m, Header(name, value + rest)).(state := HeaderValue))
    decreases |rest|
  {
    hide Step, IsCtl, WithHeader;
    if rest == "" {
      assert value + rest == value;
    } else {
      ValueByte(m, name, value, rest[0]);
      ValueBytes(m, name, value + [rest[0]], rest[1..]);
      assert value + [rest[0]] + rest[1..] == value + rest;
    }
  }

  lemma ColonGoes(m: Machine)
    requires m.state.HeaderName?
    ensures Goes(m, ": ", m.(state := HeaderValue))
  {
    hide Goes;
    GoesOne(m.(state := SpaceBeforeValue), ' ', m.(state := HeaderValue));
    GoesByte(m, ':', " ", m.(state := HeaderValue));
    assert [':'] + " " == ": ";
  }

  lemma NameText(m: Machine, name: string)
    requires m.state.HeaderLineStart? && name != "" && AllToken(name)
    ensures Goes(m, name + ": ", WithHeader(m, Header(name, "")).(state := HeaderValue))
  {
    hide Goes;
    var m1 := WithHeader(m, Header(name, "")).(state := HeaderName);
    var m2 := m1.(state := HeaderValue);
    NameBytes(m, [name[0]], name[1..]);
    assert [name[0]] + name[1..] == name;
    GoesByte(m, name[0], name[1..], m1);
    ColonGoes(m1);
    GoesTwice(m, name, m1, ": ", m2);
  }

  lemma HeaderText(m: Machine, h: Header)
    requires m.state.HeaderLineStart? && Printable(h)
    ensures Goes(m, h.name + ": " + h.value, WithHeader(m, h).(state := HeaderValue))
  {
    hide Goes, Step;
    NameText(m, h.name);
    ValueBytes(m, h.name, "", h.value);
    assert "" + h.value == h.value;
    GoesTwice(m, h.name + ": ", WithHeader(m, Header(h.name, "")).(state := HeaderValue), h.value,
              WithHeader(m, h).(state := HeaderValue));
  }

  /** The machine after one more header line; a Content-Length must be a length. */
  function WithLine(m: Machine, h: Header): (r: Machine)
    requires m.state.HeaderLineStart?
    ensures r.state.HeaderLineStart?
  {
    var q := WithHeader(m, h);
    q.(res := q.res.(
      contentsize := if IsContentLength(h.name) && LengthOf(h.value).Some? then LengthOf(h.value).value
           else m.res.contentsize,
      chunked := m.res.chunked || AsksChunked(h),
      keepAlive := m.res.keepAlive || AsksKeepAlive(h)))
  }

  lemma EndOfValue(m: Machine, h: Header)
    requires m.state.HeaderLineStart?
    ensures var q := WithHeader(m, h).(state := HeaderValue);
            if IsContentLength(h.name) && LengthOf(h.value).None? then Step(q, '\r').1.Bad?
            else Step(q, '\r') == (WithLine(m, h).(state := ExpectingNewline2), Indeterminate)
  {
    assert Back(WithHeader(m, h).(state := HeaderValue)) == h;
  }

  lemma EndLine(m: Machine, h: Header)
    requires m.state.HeaderLineStart? && Printable(h) && (IsContentLength(h.name) ==> LengthOf(h.value).Some?)
    ensures Goes(m, h.name + ": " + h.value + CRLF, WithLine(m, h))
  {
    hide Goes;
    var q := WithHeader(m, h).(state := HeaderValue);
    HeaderText(m, h);
    EndOfValue(m, h);
    GoesCrlf(q, WithLine(m, h).(state := ExpectingNewline2), WithLine(m, h));
    GoesTwice(m, h.name + ": " + h.value, q, CRLF, WithLine(m, h));
  }

  // ---- All header lines ----

  function Lines(hs: seq<Header>): string { Flatten(HeaderBuffers(hs)) }

  lemma FlattenFour(a: string, b: string, c: string, d: string)
    ensures Flatten([a, b, c, d]) == a + b + c + d
  {
    assert [a, b, c, d][1..] == [b, c, d] && [b, c, d][1..] == [c, d] && [c, d][1..] == [d] && [d][1..] == [];
    assert Flatten([d]) == d;
    assert Flatten([c, d]) == c + d;
    assert Flatten([b, c, d]) == b + (c + d);
    assert Flatten([a, b, c, d]) == a + (b + (c + d));
  }

  lemma LinesAppend(hs: seq<Header>, h: Header)
    ensures Lines(hs + [h]) == Lines(hs) + (h.name + ": " + h.value + CRLF)
  {
    HeaderBuffersAppend(hs, h);
    FlattenConcat(HeaderBuffers(hs), [h.name, ": ", h.value, CRLF]);
    FlattenFour(h.name, ": ", h.value, CRLF);
  }

  predicate IsChunked(hs: seq<Header>) { exists i :: 0 <= i < |hs| && AsksChunked(hs[i]) }

  lemma IsChunkedAppend(p: seq<Header>, h: Header)
    ensures IsChunked(p + [h]) == (IsChunked(p) || AsksChunked(h))
  {
    var hs := p + [h];
    if IsChunked(p) {
      var i :| 0 <= i < |p| && AsksChunked(p[i]);
      assert hs[i] == p[i];
    }
    assert hs[|p|] == h;
  }

  ghost function AfterHeaders(m: Machine, hs: seq<Header>): (r: Machine)
    requires m.state.HeaderLineStart?
    ensures r.state.HeaderLineStart?
    decreases |hs|
  {
    if hs == [] then m else WithLine(AfterHeaders(m, hs[..|hs| - 1]), hs[|hs| - 1])
  }

  lemma {:induction false} AfterHeadersLength(m: Machine, hs: seq<Header>)
    requires m.state.HeaderLineStart? && Declared(hs, m.res.contentsize).Some?
    ensures AfterHeaders(m, hs).res.contentsize == Declared(hs, m.res.contentsize).value
    decreases |hs|
  {
    if hs != [] { AfterHeadersLength(m, hs[..|hs| - 1]); }
  }

  lemma {:induction false} AfterHeadersChunked(m: Machine, hs: seq<Header>)
    requires m.state.HeaderLineStart?
    ensures AfterHeaders(m, hs).res.chunked == (m.res.chunked || IsChunked(hs))
    decreases |hs|
  {
    if hs != [] {
      AfterHeadersChunked(m, hs[..|hs| - 1]);
      assert hs == hs[..|hs| - 1] + [hs[|hs| - 1]];
      IsChunkedAppend(hs[..|hs| - 1], hs[|hs| - 1]);
    }
  }

  lemma {:induction false} AfterHeadersRest(m: Machine, hs: seq<Header>)
    requires m.state.HeaderLineStart?
    ensures var r := AfterHeaders(m, hs).res;
            r.headers == m.res.headers + hs && r.code == m.res.code && r.body == m.res.body
    decreases |hs|
  {
    if hs == [] {
      assert m.res.headers + hs == m.res.headers;
    } else {
      AfterHeadersRest(m, hs[..|hs| - 1]);
      assert hs == hs[..|hs| - 1] + [hs[|hs| - 1]];
    }
  }

  /** The head has been read: the builder is empty but for the headers and what they set. */
  lemma AfterHeadersFields(m: Machine, hs: seq<Header>)
    requires m.state.HeaderLineStart? && Declared(hs, m.res.contentsize).Some?
    requires m.res.headers == [] && m.res.body == "" && !m.res.chunked && Sorted(hs)
    ensures var r := AfterHeaders(m, hs).res;
            && r.contentsize == Declared(hs, m.res.contentsize).value
            && r.chunked == IsChunked(hs)
            && r.code == m.res.code && r.body == "" && Collect(r.headers) == hs
  {
    AfterHeadersLength(m, hs);
    AfterHeadersChunked(m, hs);
    AfterHeadersRest(m, hs);
    CollectOfSorted(hs);
    assert [] + hs == hs;
  }

  lemma NoLines()
    ensures Lines([]) == ""
  {}

  lemma {:induction false} HeaderBlock(m: Machine, hs: seq<Header>)
    requires m.state.HeaderLineStart? && AllPrintable(hs) && Declared(hs, m.res.contentsize).Some?
    ensures Goes(m, Lines(hs), AfterHeaders(m, hs))
    decreases |hs|
  {
    hide Goes, Step, WithLine, Lines, Printable, IsContentLength, LengthOf;
    GoesNowhere(m);
    if hs == [] {
      assert Lines(hs) == "" by { NoLines(); }
    } else {
      var p, h := hs[..|hs| - 1], hs[|hs| - 1];
      assert hs == p + [h];
      HeaderBlock(m, p);
      EndLine(AfterHeaders(m, p), h);
      LinesAppend(p, h);
      GoesTwice(m, Lines(p), AfterHeaders(m, p), h.name + ": " + h.value + CRLF, AfterHeaders(m, hs));
    }
  }

  // ---- Reads that end in bad ----

  /** A byte that is bad makes the read loop fail, however the reads are cut. */
  lemma {:induction false} ReadBad(m: Machine, c: char, b: string, pieces: seq<string>)
    requires Step(m, c).1.Bad? && Flatten(pieces) == [c] + b
    ensures ReadAll(m, pieces).None?
    decreases |pieces|
  {
    var d := pieces[0];
    if d == "" {
      assert d + Flatten(pieces[1..]) == Flatten(pieces[1..]);
      ReadBad(m, c, b, pieces[1..]);
    } else {
      assert d[0] == (d + Flatten(pieces[1..]))[0] == c;
    }
  }

  lemma ReadBadLine(m: Machine, h: Header, b: string, pieces: seq<string>)
    requires m.state.HeaderLineStart? && Printable(h) && IsContentLength(h.name) && LengthOf(h.value).None?
    requires Flatten(pieces) == h.name + ": " + h.value + CRLF + b
    ensures ReadAll(m, pieces).None?
  {
    hide Goes, Run, Step, ReadAll, Printable, IsContentLength, LengthOf, WithHeader;
    var text, q := h.name + ": " + h.value, WithHeader(m, h).(state := HeaderValue);
    HeaderText(m, h);
    EndOfValue(m, h);
    assert text + CRLF + b == text + (['\r'] + ("\n" + b));
    var later := ReadThrough(m, text, q, ['\r'] + ("\n" + b), pieces);
    ReadBad(q, '\r', "\n" + b, later);
  }

  /** A Content-Length that is not a length makes the read loop fail. */
  lemma {:induction false} ReadBadLength(m: Machine, hs: seq<Header>, b: string, pieces: seq<string>)
    requires m.state.HeaderLineStart? && AllPrintable(hs) && Declared(hs, m.res.contentsize).None?
    requires Flatten(pieces) == Lines(hs) + b
    ensures ReadAll(m, pieces).None?
    decreases |hs|
  {
    hide Goes, Step, Run, ReadAll, Lines, Printable, IsContentLength, LengthOf;
    var p, h := hs[..|hs| - 1], hs[|hs| - 1];
    assert hs == p + [h];
    LinesAppend(p, h);
    var line := h.name + ": " + h.value + CRLF;
    Assoc(Lines(p), line, b);
    if Declared(p, m.res.contentsize).None? {
      ReadBadLength(m, p, line + b, pieces);
    } else {
      HeaderBlock(m, p);
      var later := ReadThrough(m, Lines(p), AfterHeaders(m, p), line + b, pieces);
      ReadBadLine(AfterHeaders(m, p), h, b, later);
    }
  }

  // ---- The body ----

  lemma {:induction false} BodyBytes(m: Machine, s: string)
    requires m.state.ExpectingBody? && !m.res.chunked
    ensures var o := Run(m, s);
            && o.m == m.(res := m.res.(body := m.res.body + s, contentsize := m.res.contentsize - |s|))
            && o.result == (if s != "" && m.res.contentsize == |s| then Good else Indeterminate)
    decreases |s|
  {
    if s == "" {
      assert m.res.body + s == m.res.body;
    } else {
      var m1 := Step(m, s[0]).0;
      assert m.res.body + [s[0]] + s[1..] == m.res.body + s;
      if |s| > 1 { BodyBytes(m1, s[1..]); } else { assert s[1..] == ""; }
    }
  }

  /** With a nonzero countdown the loop returns a whole body exactly when the countdown is its length. */
  lemma {:induction false} ReadBody(m: Machine, s: string, pieces: seq<string>)
    requires m.state.ExpectingBody? && !m.res.chunked && m.res.contentsize != 0 && Flatten(pieces) == s
    ensures m.res.contentsize == |s| ==> ReadAll(m, pieces) == Some(Built(m.res.(body := m.res.body + s)))
    ensures m.res.contentsize != |s| ==> ReadAll(m, pieces).None? || |ReadAll(m, pieces).value.body| < |m.res.body + s|
    decreases |pieces|
  {
    hide Step;
    if pieces != [] {
      var d, rest := pieces[0], Flatten(pieces[1..]);
      BodyBytes(m, d);
      if d == "" || m.res.contentsize != |d| {
        ReadBody(Run(m, d).m, rest, pieces[1..]);
        assert m.res.body + d + rest == m.res.body + s;
      } else if m.res.contentsize == |s| {
        assert s == d + rest && rest == "";
        assert s == d;
      }
    }
  }

  /** With a zero countdown the machine waits at the last line feed of the head. */
  lemma {:induction false} EmptyBytes(m: Machine, s: string)
    requires m.state.ExpectingNewline3? && !m.res.chunked && m.res.contentsize == 0
    ensures Run(m, s).m == m && (s == "\n" ==> Run(m, s).result.Good?)
    ensures s == "" ==> Run(m, s).result.Indeterminate?
    decreases |s|
  {
    if |s| > 1 && !Step(m, s[0]).1.Bad? { EmptyBytes(m, s[1..]); }
  }

  lemma {:induction false} ReadEmpty(m: Machine, pieces: seq<string>)
    requires m.state.ExpectingNewline3? && !m.res.chunked && m.res.contentsize == 0
    ensures ReadAll(m, pieces).Some? ==> ReadAll(m, pieces).value == Built(m.res)
    ensures Flatten(pieces) == "\n" ==> ReadAll(m, pieces).Some?
    decreases |pieces|
  {
    hide Step, Run;
    if pieces != [] {
      EmptyBytes(m, pieces[0]);
      var rest := Flatten(pieces[1..]);
      if pieces[0] == "" {
        assert "" + rest == rest;
        assert Flatten(pieces) == rest;
        ReadEmpty(m, pieces[1..]);
      } else if Flatten(pieces) == "\n" {
        assert pieces[0][0] == (pieces[0] + rest)[0];
        assert pieces[0] == "\n";
      } else {
        ReadEmpty(m, pieces[1..]);
      }
    }
  }

  // ---- The whole response ----

  lemma WireParts(r: Response)
    ensures Wire(r) == StatusLine(r.code) + (Lines(r.headers) + (CRLF + r.body))
  {
    var hb := HeaderBuffers(r.headers);
    assert Buffers(r) == [StatusLine(r.code)] + (hb + [CRLF, r.body]);
    FlattenConcat([StatusLine(r.code)], hb + [CRLF, r.body]);
    FlattenConcat(hb, [CRLF, r.body]);
    assert [CRLF, r.body][1..] == [r.body] && [r.body][1..] == [] && [StatusLine(r.code)][1..] == [];
    assert Flatten([r.body]) == r.body;
    assert Flatten([CRLF, r.body]) == CRLF + r.body;
    assert Flatten([StatusLine(r.code)]) == StatusLine(r.code);
  }

  /** From the empty line on. */
  lemma ReadFromEmptyLine(m: Machine, body: string, pieces: seq<string>)
    requires m.state.HeaderLineStart? && m.res.body == "" && !m.res.chunked
    requires Flatten(pieces) == CRLF + body
    ensures ReadAll(m, pieces) == Some(Built(m.res.(body := body))) <==> m.res.contentsize == |body|
  {
    hide Goes, Run;
    var m1 := m.(state := ExpectingNewline3);
    GoesOne(m, '\r', m1);
    assert CRLF + body == "\r" + ("\n" + body) && "" + body == body;
    var p1 := ReadThrough(m, "\r", m1, "\n" + body, pieces);
    if m.res.contentsize == 0 {
      ReadEmpty(m1, p1);
      if body == "" { assert "\n" + body == "\n"; }
    } else {
      var m2 := m.(state := ExpectingBody);
      GoesOne(m1, '\n', m2);
      var p2 := ReadThrough(m1, "\n", m2, body, p1);
      ReadBody(m2, body, p2);
    }
  }

  /** The headers, the empty line and the body, when no chunked coding is announced. */
  lemma ReadAfterStatus(m: Machine, hs: seq<Header>, body: string, pieces: seq<string>)
    requires m.state.HeaderLineStart? && m.res.headers == [] && m.res.body == "" && !m.res.chunked
    requires AllPrintable(hs) && Sorted(hs) && !IsChunked(hs)
    requires Flatten(pieces) == Lines(hs) + (CRLF + body)
    ensures ReadAll(m, pieces) == Some(Response(m.res.code, hs, body))
            <==> Declared(hs, m.res.contentsize) == Some(|body|)
  {
    hide Goes, Step, Run;
    if Declared(hs, m.res.contentsize).None? {
      ReadBadLength(m, hs, CRLF + body, pieces);
    } else {
      HeaderBlock(m, hs);
      AfterHeadersFields(m, hs);
      var later := ReadThrough(m, Lines(hs), AfterHeaders(m, hs), CRLF + body, pieces);
      ReadFromEmptyLine(AfterHeaders(m, hs), body, later);
    }
  }

  /** The response round trip, for every response without a chunked coding, every way of cutting it into
      reads and every content of the uninitialised counters: the read loop returns the same response,
      with the code that was shown, exactly when the headers declare the body. */
  lemma ResponseRoundTrip(r: Response, pieces: seq<string>, anyContentsize: int, anyChunksize: int)
    requires Sorted(r.headers) && AllPrintable(r.headers) && !IsChunked(r.headers)
    requires Flatten(pieces) == Wire(r)
    ensures ReadAll(Start(anyContentsize, anyChunksize), pieces) == Some(r.(code := ShownCode(r.code)))
       <==> Declared(r.headers, anyContentsize) == Some(|r.body|)
  {
    hide Goes, Step, Run;
    WireParts(r);
    var m1 := StatusLineGoes(anyContentsize, anyChunksize, r.code);
    var later := ReadThrough(Start(anyContentsize, anyChunksize), StatusLine(r.code), m1,
                             Lines(r.headers) + (CRLF + r.body), pieces);
    ReadAfterStatus(m1, r.headers, r.body, later);
  }

  lemma EmptyLineGoes(m: Machine)
    requires m.state.HeaderLineStart? && m.res.chunked
    ensures Goes(m, CRLF, m.(state := ChunkSizeStart))
  {
    hide Goes;
    GoesCrlf(m, m.(state := ExpectingNewline3), m.(state := ChunkSizeStart));
  }

  lemma RegroupWire(line: string, head: string, coding: string, last: string, after: string)
    ensures line + (head + (CRLF + (coding + last))) + after == line + (head + CRLF + (coding + (last + after)))
  {}

  /** The parser at the start of a chunked body. */
  lemma ChunkedHeadGoes(m: Machine, hs: seq<Header>) returns (m1: Machine)
    requires m.state.HeaderLineStart? && m.res.headers == [] && m.res.body == "" && !m.res.chunked
    requires AllPrintable(hs) && Sorted(hs) && IsChunked(hs) && Declared(hs, m.res.contentsize).Some?
    ensures Goes(m, Lines(hs) + CRLF, m1) && m1.state.ChunkSizeStart? && m1.res.chunked
    ensures m1.res.code == m.res.code && Collect(m1.res.headers) == hs && m1.res.body == ""
  {
    hide Goes, Step;
    HeaderBlock(m, hs);
    AfterHeadersFields(m, hs);
    var q := AfterHeaders(m, hs);
    m1 := q.(state := ChunkSizeStart);
    EmptyLineGoes(q);
    GoesTwice(m, Lines(hs), q, CRLF, m1);
  }

  /** The byte that ends a coding ends the read loop, in whatever read it comes. */
  lemma {:induction false} ReadFinal(m: Machine, s: string, pieces: seq<string>)
    requires s != "" && Flatten(pieces) == s
    requires Run(m, s).result.Good? && Run(m, s).taken == 1 && Step(m, s[0]).1.Good?
    ensures ReadAll(m, pieces) == Some(Built(Run(m, s).m.res))
    decreases |pieces|
  {
    hide Step;
    var d := pieces[0];
    if d == "" {
      assert d + Flatten(pieces[1..]) == Flatten(pieces[1..]);
      ReadFinal(m, s, pieces[1..]);
    } else {
      assert d[0] == (d + Flatten(pieces[1..]))[0] == s[0];
      SplitAnywhere(m, d, Flatten(pieces[1..]));
    }
  }

  /** The same for a response whose body is a chunked coding: whatever the reads, and whatever follows
      the coding, the read loop returns the payload. */
  lemma ChunkedResponse(r: Response, cs: seq<Chunk>, zero: string, after: string, pieces: seq<string>,
                        anyContentsize: int, anyChunksize: int)
    requires Sorted(r.headers) && AllPrintable(r.headers) && IsChunked(r.headers)
    requires Declared(r.headers, anyContentsize).Some? && IsCoding(r.body, cs, zero)
    requires Flatten(pieces) == Wire(r) + after
    ensures ReadAll(Start(anyContentsize, anyChunksize), pieces)
         == Some(Response(ShownCode(r.code), r.headers, Payload(cs)))
  {
    hide Goes, Step, Run;
    WireParts(r);
    var m := Start(anyContentsize, anyChunksize);
    var m1 := StatusLineGoes(anyContentsize, anyChunksize, r.code);
    var m2 := ChunkedHeadGoes(m1, r.headers);
    var m3 := CodingRuns(m2, r.body, cs, zero, after);
    var last := "\r" + after;
    assert "" + Payload(cs) == Payload(cs);
    RegroupWire(StatusLine(r.code), Lines(r.headers), Coded(cs) + zero, "\r", after);
    var p1 := ReadThrough(m, StatusLine(r.code), m1, Lines(r.headers) + CRLF + (Coded(cs) + zero + last), pieces);
    var p2 := ReadThrough(m1, Lines(r.headers) + CRLF, m2, Coded(cs) + zero + last, p1);
    var p3 := ReadThrough(m2, Coded(cs) + zero, m3, last, p2);
    ReadFinal(m3, last, p3);
  }

  /** In particular for the coding that writes every length in hexadecimal digits, small or capital. */
  lemma HexChunkedResponse(r: Response, ds: seq<string>, digits: string, after: string, pieces: seq<string>,
                           anyContentsize: int, anyChunksize: int)
    requires digits == SMALL_DIGITS || digits == CAPITAL_DIGITS
    requires Sorted(r.headers) && AllPrintable(r.headers) && IsChunked(r.headers)
    requires Declared(r.headers, anyContentsize).Some? && CanBeChunks(ds) && r.body == HexCoded(ds, digits)
    requires Flatten(pieces) == Wire(r) + after
    ensures ReadAll(Start(anyContentsize, anyChunksize), pieces)
         == Some(Response(ShownCode(r.code), r.headers, Flatten(ds)))
  {
    hide Wire, ReadAll, Declared, IsChunked, Sorted, AllPrintable, IsCoding, Payload, HexCoded, CanBeChunks;
    var cs := HexCodedIsCoding(ds, digits);
    ChunkedResponse(r, cs, "0", after, pieces, anyContentsize, anyChunksize);
  }

  // ---- Everything the read loop makes of a chunked response ----

  lemma ChunkStepStays(m: Machine, c: char)
    requires InChunk(m.state) && m.res.chunked
    ensures var (m1, r) := Step(m, c);
            && (r.Indeterminate? ==> InChunk(m1.state) && m1.res.chunked)
            && (r.Good? ==> Stops(m1, r))
  {}

  lemma NotStopped(m: Machine)
    ensures !Stops(m, Indeterminate) && Stops(m, Bad)
  {}

  lemma {:induction false} ChunkRunStays(m: Machine, s: string)
    requires InChunk(m.state) && m.res.chunked
    ensures var o := Run(m, s);
            && (o.result.Indeterminate? ==> InChunk(o.m.state) && o.m.res.chunked)
            && (o.result.Good? ==> Stops(o.m, o.result))
    decreases |s|
  {
    hide Step, InChunk, Stops;
    if s != "" {
      ChunkStepStays(m, s[0]);
      NotStopped(Step(m, s[0]).0);
      if Step(m, s[0]).1.Indeterminate? { ChunkRunStays(Step(m, s[0]).0, s[1..]); }
    }
  }

  /** In a chunked body the read loop is the run over all the bytes. */
  lemma {:induction false} ReadChunks(m: Machine, pieces: seq<string>)
    requires InChunk(m.state) && m.res.chunked
    ensures var o := Run(m, Flatten(pieces));
            ReadAll(m, pieces) == if o.result.Good? then Some(Built(o.m.res)) else None
    decreases |pieces|
  {
    hide Step, Stops, InChunk;
    if pieces == [] {
      assert Run(m, Flatten([])).result.Indeterminate?;
    } else {
      var d, rest := pieces[0], Flatten(pieces[1..]);
      var o := Run(m, d);
      ChunkRunStays(m, d);
      SplitAnywhere(m, d, rest);
      NotStopped(o.m);
      if o.result.Indeterminate? {
        ReadChunks(o.m, pieces[1..]);
        if rest == "" { assert d + rest == d && Run(o.m, rest).result.Indeterminate?; }
      }
    }
  }

  /** The first k bytes of s are a chunked coding. */
  ghost predicate CodingPrefix(s: string, k: nat, cs: seq<Chunk>, zero: string) {
    k <= |s| && IsCoding(s[..k], cs, zero)
  }

  lemma ChunkSizeStartIsInChunk(m: Machine)
    requires m.state.ChunkSizeStart?
    ensures InChunk(m.state)
  {}

  /** The body of a chunked response, from the machine after its head. */
  lemma ReadChunkedBody(m: Machine, body: string, pieces: seq<string>)
    requires m.state.ChunkSizeStart? && m.res.chunked && m.res.body == "" && Flatten(pieces) == body
    ensures ReadAll(m, pieces).Some? ==> exists k: nat, cs, zero :: CodingPrefix(body, k, cs, zero)
  {
    hide Run, ReadAll, Step, InChunk, IsCoding;
    ChunkSizeStartIsInChunk(m);
    ReadChunks(m, pieces);
    if ReadAll(m, pieces).Some? {
      GoodEndsACoding(m, body);
      var k := Run(m, body).taken;
      var cs, zero :| IsCoding(body[..k], cs, zero);
      assert CodingPrefix(body, k, cs, zero);
    }
  }

  lemma ReadChunkedHead(m: Machine, hs: seq<Header>, body: string, pieces: seq<string>)
    requires m.state.HeaderLineStart? && m.res.headers == [] && m.res.body == "" && !m.res.chunked
    requires AllPrintable(hs) && Sorted(hs) && IsChunked(hs)
    requires Flatten(pieces) == Lines(hs) + (CRLF + body)
    ensures ReadAll(m, pieces).Some? ==>
              Declared(hs, m.res.contentsize).Some? && exists k: nat, cs, zero :: CodingPrefix(body, k, cs, zero)
  {
    hide Goes, Step, Run, ReadAll, Lines, CodingPrefix, Declared;
    if Declared(hs, m.res.contentsize).None? {
      ReadBadLength(m, hs, CRLF + body, pieces);
    } else {
      var m1 := ChunkedHeadGoes(m, hs);
      Assoc(Lines(hs), CRLF, body);
      var later := ReadThrough(m, Lines(hs) + CRLF, m1, body, pieces);
      ReadChunkedBody(m1, body, later);
    }
  }

  lemma AssocFour(a: string, b: string, c: string, d: string, e: string)
    ensures a + (b + (c + d)) + e == a + (b + (c + (d + e)))
  {}

  lemma WireCut(r: Response, k: nat)
    requires k <= |r.body|
    ensures Wire(r.(body := r.body[..k])) + r.body[k..] == Wire(r)
  {
    WireParts(r);
    WireParts(r.(body := r.body[..k]));
    hide Wire, Lines, StatusLine;
    assert r.body == r.body[..k] + r.body[k..];
    AssocFour(StatusLine(r.code), Lines(r.headers), CRLF, r.body[..k], r.body[k..]);
  }

  /** With a chunked header the read loop returns a response exactly when the headers declare lengths and
      some first part of the body is a chunked coding; and then the response is its payload. */
  lemma ChunkedResponseRead(r: Response, pieces: seq<string>, anyContentsize: int, anyChunksize: int)
    requires Sorted(r.headers) && AllPrintable(r.headers) && IsChunked(r.headers) && Flatten(pieces) == Wire(r)
    ensures var got := ReadAll(Start(anyContentsize, anyChunksize), pieces);
            && (got.Some? <==> Declared(r.headers, anyContentsize).Some?
                               && exists k: nat, cs, zero :: CodingPrefix(r.body, k, cs, zero))
            && (forall k: nat, cs, zero :: got.Some? && CodingPrefix(r.body, k, cs, zero) ==>
                  got == Some(Response(ShownCode(r.code), r.headers, Payload(cs))))
  {
    hide Goes, Step, Run, ReadAll, Lines, Wire, Declared, IsCoding, IsChunked, AllPrintable, Sorted, Payload;
    var m := Start(anyContentsize, anyChunksize);
    WireParts(r);
    var m1 := StatusLineGoes(anyContentsize, anyChunksize, r.code);
    var later := ReadThrough(m, StatusLine(r.code), m1, Lines(r.headers) + (CRLF + r.body), pieces);
    ReadChunkedHead(m1, r.headers, r.body, later);
    forall k: nat, cs, zero | Declared(r.headers, anyContentsize).Some? && CodingPrefix(r.body, k, cs, zero)
      ensures ReadAll(m, pieces) == Some(Response(ShownCode(r.code), r.headers, Payload(cs)))
    {
      WireCut(r, k);
      ChunkedResponse(r.(body := r.body[..k]), cs, zero, r.body[k..], pieces, anyContentsize, anyChunksize);
    }
  }
}
