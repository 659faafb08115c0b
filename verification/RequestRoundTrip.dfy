/** Printing a request and parsing the text gives the request back, exactly when it is well formed
    and its header map declares the length of its body. */
module RequestRoundTrip {
  import opened Text
  import opened Headers
  import opened Requests
  import opened RequestParsing
  import opened RequestSplitting
  import opened RequestInvariant

  // ---- Runs that need more input ----

  /** In this parser every answer but indeterminate ends the run, so the outcome says it all; the response
      parser also goes on after a good answer, and has to look at every byte. */
  ghost predicate Goes(m: Machine, s: string, m1: Machine) { Run(m, s) == Outcome(m1, Indeterminate, |s|) }

  lemma GoesThen(m: Machine, a: string, m1: Machine, b: string)
    requires Goes(m, a, m1)
    ensures Run(m, a + b) == Shift(Run(m1, b), |a|)
  {
    hide Step;
    SplitAnywhere(m, a, b);
  }

  lemma GoesTwice(m: Machine, a: string, m1: Machine, b: string, m2: Machine)
    requires Goes(m, a, m1) && Goes(m1, b, m2)
    ensures Goes(m, a + b, m2)
  {
    hide Step, Run;
    GoesThen(m, a, m1, b);
  }

  lemma GoesByte(m: Machine, c: char, s: string, m1: Machine)
    requires Step(m, c).1.Indeterminate? && Goes(Step(m, c).0, s, m1)
    ensures Goes(m, [c] + s, m1)
  {
    hide Step;
    assert ([c] + s)[1..] == s;
  }

  lemma GoesNowhere(m: Machine)
    ensures Goes(m, "", m)
  {}

  lemma GoesOne(m: Machine, c: char, m1: Machine)
    requires Step(m, c) == (m1, Indeterminate)
    ensures Goes(m, [c], m1)
  {
    hide Step;
    assert [c][1..] == "" && Run(m1, "") == Outcome(m1, Indeterminate, 0);
  }

  lemma GoesCrlf(m: Machine, m1: Machine, m2: Machine)
    requires Step(m, '\r') == (m1, Indeterminate) && Step(m1, '\n') == (m2, Indeterminate)
    ensures Goes(m, CRLF, m2)
  {
    hide Goes, Step, Run;
    GoesOne(m, '\r', m1);
    GoesOne(m1, '\n', m2);
    GoesTwice(m, ['\r'], m1, ['\n'], m2);
    assert ['\r'] + ['\n'] == CRLF;
  }

  // ---- The request line ----

  lemma {:induction false} MethodBytes(m: Machine, s: string)
    requires m.state.Method? && AllToken(s)
    ensures Goes(m, s, m.(req := m.req.(meth := m.req.meth + s)))
    decreases |s|
  {
    if s == "" {
      assert m.req.meth + s == m.req.meth;
    } else {
      var m1 := Step(m, s[0]).0;
      MethodBytes(m1, s[1..]);
      assert m.req.meth + s == m1.req.meth + s[1..];
    }
  }

  lemma {:induction false} UriBytes(m: Machine, s: string)
    requires m.state.Uri? && NoCtlOrSpace(s)
    ensures Goes(m, s, m.(req := m.req.(uri := m.req.uri + s)))
    decreases |s|
  {
    if s == "" {
      assert m.req.uri + s == m.req.uri;
    } else {
      var m1 := Step(m, s[0]).0;
      UriBytes(m1, s[1..]);
      assert m.req.uri + s == m1.req.uri + s[1..];
    }
  }

  lemma {:induction false} MajorBytes(m: Machine, s: string)
    requires m.state.MajorStart? && m.req.major == 0 && s != "" && AllDigits(s)
    ensures Goes(m, s, m.(state := Major, req := m.req.(major := DecimalValue(s))))
    decreases |s|
  {
    hide Goes, Run;
    var p, c := s[..|s| - 1], s[|s| - 1];
    var m1 := if p == "" then m else m.(state := Major, req := m.req.(major := DecimalValue(p)));
    var m2 := m.(state := Major, req := m.req.(major := DecimalValue(s)));
    assert s == p + [c];
    assert p == "" ==> DecimalValue(p) == 0;
    assert DecimalValue(s) == DecimalValue(p) * 10 + DigitValue(c);
    assert Step(m1, c) == (m2, Indeterminate);
    GoesOne(m1, c, m2);
    if p != "" {
      MajorBytes(m, p);
      GoesTwice(m, p, m1, [c], m2);
    }
  }

  lemma {:induction false} MinorBytes(m: Machine, s: string)
    requires m.state.MinorStart? && m.req.minor == 0 && s != "" && AllDigits(s)
    ensures Goes(m, s, m.(state := Minor, req := m.req.(minor := DecimalValue(s))))
    decreases |s|
  {
    hide Goes, Run;
    var p, c := s[..|s| - 1], s[|s| - 1];
    var m1 := if p == "" then m else m.(state := Minor, req := m.req.(minor := DecimalValue(p)));
    var m2 := m.(state := Minor, req := m.req.(minor := DecimalValue(s)));
    assert s == p + [c];
    assert p == "" ==> DecimalValue(p) == 0;
    assert DecimalValue(s) == DecimalValue(p) * 10 + DigitValue(c);
    assert Step(m1, c) == (m2, Indeterminate);
    GoesOne(m1, c, m2);
    if p != "" {
      MinorBytes(m, p);
      GoesTwice(m, p, m1, [c], m2);
    }
  }

  lemma SpaceHTT(m: Machine)
    requires m.state.Uri?
    ensures Goes(m, " HTT", m.(state := VersionP))
  {
    hide Goes, Run;
    GoesOne(m.(state := VersionT2), 'T', m.(state := VersionP));
    GoesByte(m.(state := VersionT1), 'T', "T", m.(state := VersionP));
    assert ['T'] + "T" == "TT" && ['H'] + "TT" == "HTT" && [' '] + "HTT" == " HTT";
    GoesByte(m.(state := VersionH), 'H', "TT", m.(state := VersionP));
    GoesByte(m, ' ', "HTT", m.(state := VersionP));
  }

  lemma PSlash(m: Machine)
    requires m.state.VersionP?
    ensures Goes(m, "P/", m.(state := MajorStart, req := m.req.(major := 0, minor := 0)))
  {
    hide Goes, Run;
    var m1 := m.(state := MajorStart, req := m.req.(major := 0, minor := 0));
    GoesOne(m.(state := VersionSlash), '/', m1);
    GoesByte(m, 'P', "/", m1);
    assert ['P'] + "/" == "P/";
  }

  /** The bytes " HTTP/" after the uri. */
  lemma VersionPrefix(m: Machine)
    requires m.state.Uri?
    ensures Goes(m, " HTTP/", m.(state := MajorStart, req := m.req.(major := 0, minor := 0)))
  {
    hide Goes, Step, Run;
    SpaceHTT(m);
    PSlash(m.(state := VersionP));
    assert " HTT" + "P/" == " HTTP/";
    GoesTwice(m, " HTT", m.(state := VersionP), "P/", m.(state := MajorStart, req := m.req.(major := 0, minor := 0)));
  }

  /** A builder in which the request line has been read. */
  function AfterLine(name: string, uri: string, major: nat, minor: nat): Machine {
    Machine(HeaderLineStart, 0, Builder(name, uri, major, minor, [], 0, "", false))
  }

  lemma MethodPart(name: string)
    requires name != "" && AllToken(name)
    ensures Goes(START, name + " ", START.(state := Uri, req := FRESH.(meth := name)))
  {
    hide Goes, Run;
    var m1 := START.(state := Method, req := FRESH.(meth := [name[0]]));
    var m2 := START.(state := Method, req := FRESH.(meth := name));
    var m3 := START.(state := Uri, req := FRESH.(meth := name));
    assert name == [name[0]] + name[1..];
    assert "" + [name[0]] == [name[0]];
    MethodBytes(m1, name[1..]);
    GoesByte(START, name[0], name[1..], m2);
    GoesOne(m2, ' ', m3);
    GoesTwice(START, name, m2, " ", m3);
  }

  lemma VersionPart(m: Machine, major: string, minor: string)
    requires m.state.MajorStart? && m.req.major == 0 && m.req.minor == 0
    requires major != "" && AllDigits(major) && minor != "" && AllDigits(minor)
    ensures Goes(m, major + "." + minor + CRLF,
                 m.(state := HeaderLineStart,
                    req := m.req.(major := DecimalValue(major), minor := DecimalValue(minor))))
  {
    hide Goes, Run;
    var m1 := m.(state := Major, req := m.req.(major := DecimalValue(major)));
    var m2 := m1.(state := MinorStart);
    var m3 := m1.(state := Minor, req := m1.req.(minor := DecimalValue(minor)));
    var m4 := m3.(state := HeaderLineStart);
    MajorBytes(m, major);
    GoesOne(m1, '.', m2);
    GoesTwice(m, major, m1, ".", m2);
    MinorBytes(m2, minor);
    GoesTwice(m, major + ".", m2, minor, m3);
    GoesCrlf(m3, m3.(state := ExpectingNewline1), m4);
    GoesTwice(m, major + "." + minor, m3, CRLF, m4);
  }

  lemma LinePart(name: string, uri: string, major: string, minor: string)
    requires name != "" && AllToken(name) && NoCtlOrSpace(uri)
    requires major != "" && AllDigits(major) && minor != "" && AllDigits(minor)
    ensures Goes(START, name + " " + uri + " " + ("HTTP/" + major + "." + minor) + CRLF,
                 AfterLine(name, uri, DecimalValue(major), DecimalValue(minor)))
  {
    hide Goes, Step, Run;
    var m1 := START.(state := Uri, req := FRESH.(meth := name));
    var m2 := m1.(req := m1.req.(uri := uri));
    var m3 := m2.(state := MajorStart);
    MethodPart(name);
    UriBytes(m1, uri);
    assert "" + uri == uri;
    GoesTwice(START, name + " ", m1, uri, m2);
    VersionPrefix(m2);
    GoesTwice(START, name + " " + uri, m2, " HTTP/", m3);
    VersionPart(m3, major, minor);
    GoesTwice(START, name + " " + uri + " HTTP/", m3, major + "." + minor + CRLF,
              AfterLine(name, uri, DecimalValue(major), DecimalValue(minor)));
    assert name + " " + uri + " HTTP/" + (major + "." + minor + CRLF)
        == name + " " + uri + " " + ("HTTP/" + major + "." + minor) + CRLF;
  }

  // ---- One header line ----

  function WithHeader(m: Machine, h: Header): (r: Machine)
    ensures r.req.headers != []
  {
    m.(req := m.req.(headers := m.req.headers + [h]))
  }

  lemma {:induction false} NameBytes(m: Machine, name: string, rest: string)
    requires !InsideHeader(m.state) && AllToken(rest)
    ensures Goes(WithHeader(m, Header(name, "")).(state := HeaderName), rest,
                 WithHeader(m, Header(name + rest, "")).(state := HeaderName))
    decreases |rest|
  {
    if rest == "" {
      assert name + rest == name;
    } else {
      var m0 := WithHeader(m, Header(name, "")).(state := HeaderName);
      assert Front(m0) == m.req.headers;
      NameBytes(m, name + [rest[0]], rest[1..]);
      assert name + [rest[0]] + rest[1..] == name + rest;
      assert [rest[0]] + rest[1..] == rest;
      GoesByte(m0, rest[0], rest[1..], WithHeader(m, Header(name + rest, "")).(state := HeaderName));
    }
  }

  lemma {:induction false} ValueBytes(m: Machine, name: string, value: string, rest: string)
    requires !InsideHeader(m.state) && NoCtl(rest)
    ensures Goes(WithHeader(m, Header(name, value)).(state := HeaderValue), rest,
                 WithHeader(m, Header(name, value + rest)).(state := HeaderValue))
    decreases |rest|
  {
    if rest == "" {
      assert value + rest == value;
    } else {
      var m0 := WithHeader(m, Header(name, value)).(state := HeaderValue);
      assert Front(m0) == m.req.headers;
      ValueBytes(m, name, value + [rest[0]], rest[1..]);
      assert value + [rest[0]] + rest[1..] == value + rest;
      assert [rest[0]] + rest[1..] == rest;
      GoesByte(m0, rest[0], rest[1..], WithHeader(m, Header(name, value + rest)).(state := HeaderValue));
    }
  }

  /** The name and value of a printed header, up to the end of the line. */
  lemma HeaderText(m: Machine, h: Header)
    requires m.state.HeaderLineStart? && Printable(h)
    ensures Goes(m, h.name + ": " + h.value, WithHeader(m, h).(state := HeaderValue))
  {
    hide Goes, Run;
    var m1 := WithHeader(m, Header([h.name[0]], "")).(state := HeaderName);
    var m2 := WithHeader(m, Header(h.name, "")).(state := HeaderName);
    var m3 := m2.(state := HeaderValue);
    NameBytes(m, [h.name[0]], h.name[1..]);
    assert [h.name[0]] + h.name[1..] == h.name;
    GoesByte(m, h.name[0], h.name[1..], m2);
    GoesOne(m2.(state := SpaceBeforeValue), ' ', m3);
    GoesByte(m2, ':', " ", m3);
    assert [':'] + " " == ": ";
    GoesTwice(m, h.name, m2, ": ", m3);
    ValueBytes(m, h.name, "", h.value);
    assert "" + h.value == h.value;
    GoesTwice(m, h.name + ": ", m3, h.value, WithHeader(m, h).(state := HeaderValue));
  }

  /** The machine after one more header line; a Content-Length must be a length. */
  function WithLine(m: Machine, h: Header): (r: Machine)
    ensures !InsideHeader(m.state) ==> !InsideHeader(r.state)
  {
    var q := WithHeader(m, h);
    q.(contentsize := if IsContentLength(h.name) && LengthOf(h.value).Some? then LengthOf(h.value).value
       else m.contentsize,
       req := q.req.(bodysize := if IsContentLength(h.name) && LengthOf(h.value).Some? then LengthOf(h.value).value
                     else m.req.bodysize,
                     keepAlive := m.req.keepAlive || AsksKeepAlive(h)))
  }

  lemma EndOfValue(m: Machine, h: Header)
    requires m.state.HeaderLineStart?
    ensures var q := WithHeader(m, h).(state := HeaderValue);
            if IsContentLength(h.name) && LengthOf(h.value).None? then Step(q, '\r').1.Bad?
            else Step(q, '\r') == (WithLine(m, h).(state := ExpectingNewline2), Indeterminate)
  {
    assert Back(WithHeader(m, h).(state := HeaderValue)) == h;
  }

  lemma EndLine(m: Machine, h: Header)
    requires m.state.HeaderLineStart? && Printable(h) && (IsContentLength(h.name) ==> LengthOf(h.value).Some?)
    ensures Goes(m, HeaderLine(h), WithLine(m, h))
  {
    hide Goes, Run;
    var q := WithHeader(m, h).(state := HeaderValue);
    HeaderText(m, h);
    EndOfValue(m, h);
    GoesCrlf(q, WithLine(m, h).(state := ExpectingNewline2), WithLine(m, h));
    GoesTwice(m, h.name + ": " + h.value, q, CRLF, WithLine(m, h));
  }

  lemma EndLineBad(m: Machine, h: Header, rest: string)
    requires m.state.HeaderLineStart? && Printable(h) && IsContentLength(h.name) && LengthOf(h.value).None?
    ensures Run(m, HeaderLine(h) + rest).result.Bad?
  {
    hide Goes;
    var m1 := WithHeader(m, h).(state := HeaderValue);
    HeaderText(m, h);
    EndOfValue(m, h);
    GoesThen(m, h.name + ": " + h.value, m1, CRLF + rest);
    assert h.name + ": " + h.value + (CRLF + rest) == HeaderLine(h) + rest;
  }

  // ---- All header lines ----

  /** The machine after the headers hs were read from a line start. */
  ghost function AfterHeaders(m: Machine, hs: seq<Header>): (r: Machine)
    requires m.state.HeaderLineStart?
    ensures r.state.HeaderLineStart?
    decreases |hs|
  {
    if hs == [] then m else WithLine(AfterHeaders(m, hs[..|hs| - 1]), hs[|hs| - 1])
  }

  lemma {:induction false} AfterHeadersLength(m: Machine, hs: seq<Header>)
    requires m.state.HeaderLineStart? && Declared(hs, m.contentsize).Some?
    ensures AfterHeaders(m, hs).contentsize == Declared(hs, m.contentsize).value
    decreases |hs|
  {
    if hs != [] { AfterHeadersLength(m, hs[..|hs| - 1]); }
  }

  lemma KeepsAliveAppend(p: seq<Header>, h: Header)
    ensures KeepsAlive(p + [h]) == (KeepsAlive(p) || AsksKeepAlive(h))
  {
    var hs := p + [h];
    if KeepsAlive(p) {
      var i :| 0 <= i < |p| && AsksKeepAlive(p[i]);
      assert hs[i] == p[i];
    }
    assert hs[|p|] == h;
  }

  lemma {:induction false} AfterHeadersKeepAlive(m: Machine, hs: seq<Header>)
    requires m.state.HeaderLineStart?
    ensures AfterHeaders(m, hs).req.keepAlive == (m.req.keepAlive || KeepsAlive(hs))
    decreases |hs|
  {
    if hs != [] {
      AfterHeadersKeepAlive(m, hs[..|hs| - 1]);
      assert hs == hs[..|hs| - 1] + [hs[|hs| - 1]];
      KeepsAliveAppend(hs[..|hs| - 1], hs[|hs| - 1]);
    }
  }

  lemma {:induction false} AfterHeadersRest(m: Machine, hs: seq<Header>)
    requires m.state.HeaderLineStart?
    ensures var r := AfterHeaders(m, hs).req;
            && r.headers == m.req.headers + hs
            && r.meth == m.req.meth && r.uri == m.req.uri && r.body == m.req.body
            && r.major == m.req.major && r.minor == m.req.minor
    decreases |hs|
  {
    if hs == [] {
      assert m.req.headers + hs == m.req.headers;
    } else {
      AfterHeadersRest(m, hs[..|hs| - 1]);
      assert hs == hs[..|hs| - 1] + [hs[|hs| - 1]];
    }
  }

  lemma {:induction false} HeaderBlock(m: Machine, hs: seq<Header>)
    requires m.state.HeaderLineStart? && AllPrintable(hs) && Declared(hs, m.contentsize).Some?
    ensures Goes(m, HeaderLines(hs), AfterHeaders(m, hs))
    decreases |hs|
  {
    hide Goes, Step, WithLine;
    GoesNowhere(m);
    if hs != [] {
      var p, h := hs[..|hs| - 1], hs[|hs| - 1];
      assert hs == p + [h];
      HeaderBlock(m, p);
      EndLine(AfterHeaders(m, p), h);
      HeaderLinesAppend(p, h);
      GoesTwice(m, HeaderLines(p), AfterHeaders(m, p), HeaderLine(h), AfterHeaders(m, hs));
    }
  }

  /** A Content-Length that is not a length makes the whole message bad. */
  lemma {:induction false} HeaderBlockBad(m: Machine, hs: seq<Header>, rest: string)
    requires m.state.HeaderLineStart? && AllPrintable(hs) && Declared(hs, m.contentsize).None?
    ensures Run(m, HeaderLines(hs) + rest).result.Bad?
    decreases |hs|
  {
    hide Goes, Step, Run;
    var p, h := hs[..|hs| - 1], hs[|hs| - 1];
    assert hs == p + [h];
    HeaderLinesAppend(p, h);
    assert HeaderLines(hs) + rest == HeaderLines(p) + (HeaderLine(h) + rest);
    if Declared(p, m.contentsize).None? {
      HeaderBlockBad(m, p, HeaderLine(h) + rest);
    } else {
      HeaderBlock(m, p);
      EndLineBad(AfterHeaders(m, p), h, rest);
      GoesThen(m, HeaderLines(p), AfterHeaders(m, p), HeaderLine(h) + rest);
    }
  }

  // ---- The body ----

  /** With a countdown of k, the answer is good exactly at the k-th byte. */
  lemma {:induction false} BodyBytes(m: Machine, s: string)
    requires m.state.ExpectingBody? && m.contentsize > 0
    ensures |s| < m.contentsize ==> Run(m, s).result.Indeterminate?
    ensures |s| == m.contentsize ==>
              Run(m, s) == Outcome(m.(contentsize := 0, req := m.req.(body := m.req.body + s)), Good, |s|)
    ensures |s| > m.contentsize ==> Run(m, s).result.Bad? && Run(m, s).taken == m.contentsize
    decreases |s|
  {
    if s != "" {
      var m1 := Step(m, s[0]).0;
      if m1.contentsize > 0 {
        assert Run(m, s) == Shift(Run(m1, s[1..]), 1);
        BodyBytes(m1, s[1..]);
      }
      assert m.req.body + [s[0]] + s[1..] == m.req.body + s;
      if |s| == 1 { assert m.req.body + s == m.req.body + [s[0]]; }
    }
  }

  /** Without a body the line feed that ends the head is the last byte. */
  lemma LastLineFeed(m: Machine, body: string)
    requires m.state.ExpectingNewline3? && m.contentsize == 0
    ensures Run(m, "\n" + body) == Outcome(m, if body == "" then Good else Bad, 1)
  {
    assert ("\n" + body)[0] == '\n';
  }

  /** The empty line and the body. */
  lemma EndOfMessage(m: Machine, body: string)
    requires m.state.HeaderLineStart? && m.contentsize >= 0 && m.req.body == ""
    ensures |body| == m.contentsize ==>
              exists st :: !InsideHeader(st) && Run(m, CRLF + body)
                           == Outcome(m.(state := st, contentsize := 0, req := m.req.(body := body)),
                                      Good, |CRLF + body|)
    ensures |body| != m.contentsize ==> !Run(m, CRLF + body).result.Good?
  {
    hide Goes, Run;
    var m1, m2 := m.(state := ExpectingNewline3), m.(state := ExpectingBody);
    if m.contentsize == 0 {
      GoesOne(m, '\r', m1);
      GoesThen(m, "\r", m1, "\n" + body);
      assert "\r" + ("\n" + body) == CRLF + body;
      LastLineFeed(m1, body);
      assert m1 == m.(state := ExpectingNewline3, contentsize := 0, req := m.req.(body := ""));
    } else {
      GoesCrlf(m, m1, m2);
      GoesThen(m, CRLF, m2, body);
      BodyBytes(m2, body);
      assert "" + body == body;
    }
  }

  // ---- The whole message ----

  /** A machine whose builder has the headers and the body of a message behind the request line of m. */
  ghost predicate Filled(m: Machine, hs: seq<Header>, body: string, done: Machine) {
    && done.contentsize == 0
    && done.req.headers == hs && done.req.body == body
    && done.req.keepAlive == KeepsAlive(hs)
    && done.req.meth == m.req.meth && done.req.uri == m.req.uri
    && done.req.major == m.req.major && done.req.minor == m.req.minor
  }

  lemma HeadersCounted(m: Machine, hs: seq<Header>)
    requires m.state.HeaderLineStart? && m.contentsize == 0 && Declared(hs, 0).Some? && m.req.body == ""
    ensures AfterHeaders(m, hs).contentsize == Declared(hs, 0).value >= 0 && AfterHeaders(m, hs).req.body == ""
  {
    AfterHeadersLength(m, hs);
    AfterHeadersRest(m, hs);
    DeclaredNonNegative(hs);
    hide AfterHeaders, Declared;
  }

  /** A machine with the builder that the headers fill, but for the body. */
  lemma HeadersFill(m: Machine, hs: seq<Header>, done: Machine)
    requires m.state.HeaderLineStart? && m.req.headers == [] && !m.req.keepAlive
    requires done.contentsize == 0 && done.req == AfterHeaders(m, hs).req.(body := done.req.body)
    ensures Filled(m, hs, done.req.body, done)
  {
    AfterHeadersKeepAlive(m, hs);
    AfterHeadersRest(m, hs);
    hide AfterHeaders, KeepsAlive;
    assert [] + hs == hs;
  }

  /** The headers, the empty line and the body of a message whose request line has been read. */
  lemma AfterLineRuns(m: Machine, hs: seq<Header>, body: string)
    requires m.state.HeaderLineStart? && m.contentsize == 0
    requires m.req.headers == [] && m.req.body == "" && !m.req.keepAlive
    requires AllPrintable(hs)
    ensures var o := Run(m, HeaderLines(hs) + (CRLF + body));
            && (o.result.Good? <==> Declared(hs, 0) == Some(|body|))
            && (o.result.Good? ==> o.taken == |HeaderLines(hs) + (CRLF + body)| && Filled(m, hs, body, o.m))
  {
    hide Goes, Step, Run, AfterHeaders, Filled, HeaderLines, Declared, AllPrintable;
    if Declared(hs, 0).None? {
      HeaderBlockBad(m, hs, CRLF + body);
    } else {
      var m1 := AfterHeaders(m, hs);
      HeaderBlock(m, hs);
      HeadersCounted(m, hs);
      GoesThen(m, HeaderLines(hs), m1, CRLF + body);
      EndOfMessage(m1, body);
      var o := Run(m1, CRLF + body);
      if o.result.Good? { HeadersFill(m, hs, o.m); }
    }
  }

  lemma MethodNameIsToken(m: Method)
    ensures MethodName(m) != "" && AllToken(MethodName(m))
  {}

  lemma MethodNameRoundTrip(m: Method)
    ensures MethodOf(MethodName(m)) == Some(m)
  {}

  /** The parser over a printed request: good, at the last byte, exactly when the length fits;
      and then the builder describes the same request and remembers whether to keep the connection. */
  lemma PrintedRuns(r: Request, unset: Method)
    requires WellFormed(r)
    ensures var o := Run(START, Printed(r));
            && (o.result.Good? <==> LengthFits(r))
            && (LengthFits(r) ==> && o.taken == |Printed(r)|
                                  && o.m.contentsize == 0
                                  && o.m.req.keepAlive == KeepsAlive(r.headers)
                                  && o.m.req.meth == MethodName(r.meth)
                                  && Built(o.m.req, unset) == r)
  {
    hide Goes, Step, Run, MethodName, MethodOf, AllToken, Decimal, HeaderLines;
    var major, minor :| r.version == Version(major, minor);
    var name := MethodName(r.meth);
    MethodNameIsToken(r.meth);
    DecimalRoundTrip(major);
    DecimalRoundTrip(minor);
    LinePart(name, r.uri, Decimal(major), Decimal(minor));
    var m1 := AfterLine(name, r.uri, major, minor);
    var line := name + " " + r.uri + " " + r.version + CRLF;
    var rest := HeaderLines(r.headers) + (CRLF + r.body);
    assert Printed(r) == line + rest;
    GoesThen(START, line, m1, rest);
    AfterLineRuns(m1, r.headers, r.body);
    CollectOfSorted(r.headers);
    MethodNameRoundTrip(r.meth);
  }

  /** Every request built from accepted bytes is well formed. */
  lemma AcceptedIsWellFormed(s: string, unset: Method)
    requires Run(START, s).result.Good?
    ensures WellFormed(Built(Run(START, s).m.req, unset))
  {
    hide Step, Run;
    var o := Run(START, s);
    RunKeepsInv(START, s);
    var r := Built(o.m.req, unset);
    CollectSorted(o.m.req.headers);
    forall i | 0 <= i < |r.headers| ensures Printable(r.headers[i]) {
      CollectMember(o.m.req.headers, r.headers[i]);
    }
  }

  /** The request round trip, as an equivalence over every request: sending a request arrives as the
      same request exactly when it is well formed and its headers declare its body. */
  lemma RequestRoundTrip(r: Request, unset: Method)
    requires Sorted(r.headers)
    ensures var o := Run(START, Printed(r));
            (o.result.Good? && MethodOf(o.m.req.meth).Some? && Built(o.m.req, unset) == r)
                 <==> (WellFormed(r) && LengthFits(r))
  {
    hide Step, Run;
    var o := Run(START, Printed(r));
    if WellFormed(r) && LengthFits(r) {
      PrintedRuns(r, unset);
      MethodNameRoundTrip(r.meth);
    }
    if o.result.Good? && Built(o.m.req, unset) == r {
      AcceptedIsWellFormed(Printed(r), unset);
      PrintedRuns(r, unset);
    }
  }

  /** Normalisation: what was accepted, built, printed and parsed again is the same request exactly when
      the built header map still declares the body. */
  lemma NormalisationIsStable(s: string, unset: Method)
    requires Run(START, s).result.Good? && MethodOf(Run(START, s).m.req.meth).Some?
    ensures var r := Built(Run(START, s).m.req, unset); var again := Run(START, Printed(r));
            && (again.result.Good? <==> LengthFits(r))
            && (again.result.Good? ==> Built(again.m.req, unset) == r)
    ensures OneSpelling(Run(START, s).m.req.headers) ==> LengthFits(Built(Run(START, s).m.req, unset))
  {
    hide Step, Run;
    var o := Run(START, s);
    AcceptedIsWellFormed(s, unset);
    PrintedRuns(Built(o.m.req, unset), unset);
    RunKeepsInv(START, s);
    if OneSpelling(o.m.req.headers) { CollectKeepsDeclared(o.m.req.headers, 0); }
  }

  // ---- Two spellings of Content-Length ----

  /** A request whose two Content-Length headers, spelled a and b, the ordered map turns around. */
  function TwoLengths(a: string, b: string): seq<Header> { [Header(a, "1"), Header(b, "0")] }

  function TwoSpellings(a: string, b: string): string {
    "GET" + " " + "/" + " " + ("HTTP/" + "1" + "." + "0") + CRLF + (HeaderLines(TwoLengths(a, b)) + (CRLF + ""))
  }

  lemma DeclaredNothing()
    ensures forall i :: Declared([], i) == Some(i)
  {}

  lemma LengthsOfDigits()
    ensures LengthOf("0") == Some(0) && LengthOf("1") == Some(1)
  {
    assert Decimal(0) == "0" && Decimal(1) == "1";
    StoiOfDecimal(0);
    StoiOfDecimal(1);
    hide Stoi, Decimal;
  }

  lemma TwoLengthsDeclare(a: string, b: string)
    requires IsContentLength(a) && IsContentLength(b) && Less(b, a)
    ensures Declared(TwoLengths(a, b), 0) == Some(0)
    ensures Declared(Collect(TwoLengths(a, b)), 0) == Some(1)
  {
    var x, y := Header(a, "1"), Header(b, "0");
    hide Stoi, LengthOf, IsContentLength, Less, Declared;
    LengthsOfDigits();
    LessIrreflexive(b);
    assert [x, y][..1] == [x] && [x][..0] == [];
    assert Collect([]) == [] && Collect([x]) == [x];
    assert Put([x], b, "0") == [y, x];
    assert Collect([x, y]) == [y, x];
    DeclaredPrepend(x, [y], 0);
    DeclaredPrepend(y, [], 1);
    DeclaredPrepend(y, [x], 0);
    DeclaredPrepend(x, [], 0);
    assert [x, y] == [x] + [y] && [y, x] == [y] + [x] && [y] == [y] + [] && [x] == [x] + [];
    DeclaredNothing();
  }

  lemma LineIsPlain()
    ensures AllToken("GET") && NoCtlOrSpace("/") && AllDigits("1") && AllDigits("0")
  {}

  /** Accepted, but not the same after printing: the map turns the two headers around and declares a body. */
  lemma SpellingsTurnAround(a: string, b: string, unset: Method)
    requires IsContentLength(a) && IsContentLength(b) && Less(b, a)
    requires a != "" && b != "" && AllToken(a) && AllToken(b)
    ensures Run(START, TwoSpellings(a, b)).result.Good?
    ensures !LengthFits(Built(Run(START, TwoSpellings(a, b)).m.req, unset))
  {
    hide Goes, Step, Run, Declared, IsContentLength, AllToken, Less;
    var hs, rest := TwoLengths(a, b), HeaderLines(TwoLengths(a, b)) + (CRLF + "");
    LineIsPlain();
    LinePart("GET", "/", "1", "0");
    var m := AfterLine("GET", "/", DecimalValue("1"), DecimalValue("0"));
    TwoLengthsDeclare(a, b);
    GoesThen(START, "GET" + " " + "/" + " " + ("HTTP/" + "1" + "." + "0") + CRLF, m, rest);
    AfterLineRuns(m, hs, "");
  }

  /** Such spellings exist, so normalisation needs its condition. */
  lemma NormalisationCanFail(unset: Method)
    ensures var s := TwoSpellings("content-length", "Content-Length");
            Run(START, s).result.Good? && !LengthFits(Built(Run(START, s).m.req, unset))
  {
    hide Run, LengthFits, Built, TwoSpellings;
    SpellingsTurnAround("content-length", "Content-Length", unset);
  }
}
