/** The echo handler, and what a client reads back through it. */
module Echoing {
  import opened Text
  import opened Headers
  import opened Requests
  import opened RequestParsing
  import opened RequestInvariant
  import opened RequestRoundTrip
  import opened Responses
  import opened Pages
  import R = ResponseParsing

  /** The echo handler's own printer names three methods and leaves out the method and its blank for the others. */
  function EchoName(m: Method): string {
    match m
    case GET => "GET "
    case POST => "POST "
    case DELETE => "DELETE "
    case _ => ""
  }

  function EchoText(r: Request): string {
    EchoName(r.meth) + r.uri + " " + r.version + CRLF + HeaderLines(r.headers) + CRLF + r.body
  }

  function Echo(r: Request): Response {
    var text := EchoText(r);
    Response(200, PageHeaders(|text|, "text/plain"), text)
  }

  predicate IsEchoed(m: Method) { m.GET? || m.POST? || m.DELETE? }

  class EchoHandler {
    constructor ()
    {}

    method BuildRequestString(request: Request) returns (text: string)
      ensures text == EchoText(request)
    {
      assert HeaderLines(request.headers[..0]) == "";
      hide HeaderLines;
      text := "";
      if request.meth.GET? {
        text := text + "GET ";
      } else if request.meth.POST? {
        text := text + "POST ";
      } else if request.meth.DELETE? {
        text := text + "DELETE ";
      }
      assert text == EchoName(request.meth);
      text := text + request.uri;
      text := text + " ";
      text := text + request.version;
      text := text + CRLF;
      assert text == EchoName(request.meth) + request.uri + " " + request.version + CRLF;
      ghost var start := text;
      var i := 0;
      while i < |request.headers|
        invariant 0 <= i <= |request.headers|
        invariant text == start + HeaderLines(request.headers[..i])
      {
        HeaderLinesAppend(request.headers[..i], request.headers[i]);
        assert request.headers[..i + 1] == request.headers[..i] + [request.headers[i]];
        text := text + (request.headers[i].name + ": " + request.headers[i].value + CRLF);
        i := i + 1;
      }
      assert request.headers[..i] == request.headers;
      text := text + CRLF;
      text := text + request.body;
    }

    method HandleRequest(request: Request) returns (r: Response)
      ensures r == Echo(request)
    {
      hide Put, Decimal, ContentLength, ContentType, EchoText;
      var text := BuildRequestString(request);
      r := Response(200, [], text);
      r := r.(headers := Put(r.headers, ContentLength(), Decimal(|text|)));
      r := r.(headers := Put(r.headers, ContentType(), "text/plain"));
    }
  }

  lemma NameLengths(m: Method)
    ensures |EchoName(m)| == |MethodName(m)| + 1 <==> IsEchoed(m)
  {}

  /** The echo is the request as the proxy would print it, exactly for the three methods. */
  lemma EchoesExactly(r: Request)
    ensures EchoText(r) == Printed(r) <==> IsEchoed(r.meth)
  {
    hide HeaderLines;
    var rest := r.uri + " " + r.version + CRLF + HeaderLines(r.headers) + CRLF + r.body;
    assert Printed(r) == MethodName(r.meth) + " " + rest;
    assert EchoText(r) == EchoName(r.meth) + rest;
    NameLengths(r.meth);
    if IsEchoed(r.meth) { assert EchoName(r.meth) == MethodName(r.meth) + " "; }
  }

  // ---- An echo without its method ----

  lemma NotAllToken(s: string)
    requires s != "" && IsTokenChar(s[0]) && !AllToken(s)
    ensures !AllToken(s[1..])
  {
    hide IsTokenChar;
    var i :| 0 <= i < |s| && !IsTokenChar(s[i]);
    assert s[1..][i - 1] == s[i];
  }

  /** A byte that cannot be in a method is bad before the first blank. */
  lemma {:induction false} NoMethodIsBad(m: Machine, s: string, rest: string)
    requires m.state.MethodStart? || m.state.Method?
    requires !AllToken(s) && ' ' !in s
    ensures Run(m, s + rest).result.Bad?
    decreases |s|
  {
    hide IsTspecial;
    assert (s + rest)[0] == s[0] && (s + rest)[1..] == s[1..] + rest;
    if IsTokenChar(s[0]) {
      assert s[1..] != s && !AllToken(s[1..]) by { NotAllToken(s); }
      NoMethodIsBad(Step(m, s[0]).0, s[1..], rest);
    }
  }

  lemma BlankIsBad(rest: string)
    ensures Run(START, " " + rest).result.Bad?
  {
    assert (" " + rest)[0] == ' ';
  }

  lemma ReturnIsBad(m: Machine, rest: string)
    requires m.state.Uri?
    ensures Run(m, CRLF + rest).result.Bad?
  {
    assert (CRLF + rest)[0] == '\r';
  }

  lemma VersionIsPlain(major: nat, minor: nat)
    ensures NoCtlOrSpace(Version(major, minor))
  {
    DecimalRoundTrip(major);
    DecimalRoundTrip(minor);
    hide Decimal;
    assert NoCtlOrSpace("HTTP/") && NoCtlOrSpace(Decimal(major)) && NoCtlOrSpace(".") && NoCtlOrSpace(Decimal(minor));
  }

  /** A uri taken for the method, and a version taken for the uri. */
  lemma ShiftedLineIsBad(name: string, uri: string, rest: string)
    requires name != "" && AllToken(name) && NoCtlOrSpace(uri)
    ensures Run(START, (name + " ") + (uri + (CRLF + rest))).result.Bad?
  {
    var m := START.(state := Uri, req := FRESH.(meth := name));
    var m1 := m.(req := m.req.(uri := m.req.uri + uri));
    hide Run, Step, Goes, AllToken, NoCtlOrSpace;
    MethodPart(name);
    UriBytes(m, uri);
    ReturnIsBad(m1, rest);
    GoesThen(m, uri, m1, CRLF + rest);
    GoesThen(START, name + " ", m, uri + (CRLF + rest));
  }

  lemma NamelessText(r: Request)
    requires !IsEchoed(r.meth)
    ensures var rest := r.version + (CRLF + (HeaderLines(r.headers) + CRLF + r.body));
            EchoText(r) == (r.uri + " ") + rest && EchoText(r) == r.uri + (" " + rest)
  {
    hide HeaderLines;
    var rest := r.version + (CRLF + (HeaderLines(r.headers) + CRLF + r.body));
    assert EchoText(r) == (r.uri + " ") + rest;
    Assoc(r.uri, " ", rest);
  }

  /** Without its method an echo is never a request: its uri is taken for the method and its version for the
      uri, and the carriage return that ends the line is bad. */
  lemma NamelessIsBad(r: Request)
    requires WellFormed(r) && !IsEchoed(r.meth)
    ensures Run(START, EchoText(r)).result.Bad?
  {
    var major, minor :| r.version == Version(major, minor);
    VersionIsPlain(major, minor);
    assert ' ' !in r.uri;
    var end := HeaderLines(r.headers) + CRLF + r.body;
    hide Run, Step, Version, HeaderLines, EchoText, AllToken, NoCtlOrSpace;
    NamelessText(r);
    var rest := r.version + (CRLF + end);
    if r.uri == "" {
      BlankIsBad(rest);
      assert "" + (" " + rest) == " " + rest;
    } else if AllToken(r.uri) {
      ShiftedLineIsBad(r.uri, r.version, end);
    } else {
      NoMethodIsBad(START, r.uri, " " + rest);
    }
  }

  // ---- Echo, end to end ----

  lemma PlainMime()
    ensures NoCtl("text/plain")
  {}

  /** Bytes the server accepts come back to the client, however the answer is cut into reads, as a body that
      parses to the very request the server built: exactly when the method is one the handler names and
      the built header map still declares the body. */
  lemma EchoRoundTrip(bytes: string, unset: Method, pieces: seq<string>, anyContentsize: int, anyChunksize: int)
    requires Run(START, bytes).result.Good? && MethodOf(Run(START, bytes).m.req.meth).Some?
    requires var r := Requests.Built(Run(START, bytes).m.req, unset);
             |EchoText(r)| <= INT_MAX && Flatten(pieces) == Wire(Echo(r))
    ensures var r := Requests.Built(Run(START, bytes).m.req, unset);
            var got := R.ReadAll(R.Start(anyContentsize, anyChunksize), pieces);
            && got == Some(Echo(r))
            && got.value.headers
            == [Header("Content-Length", Decimal(|EchoText(r)|)), Header("Content-Type", "text/plain")]
            && var again := Run(START, got.value.body);
               (again.result.Good? && Requests.Built(again.m.req, unset) == r) <==> (IsEchoed(r.meth) && LengthFits(r))
  {
    hide Run, Step, Wire, PageHeaders, EchoText, Printed, LengthFits, R.Start, R.ReadAll, NoCtl, MethodOf, WellFormed;
    var r := Requests.Built(Run(START, bytes).m.req, unset);
    PlainMime();
    PageHeadersAre(|EchoText(r)|, "text/plain");
    PageDelivered(EchoText(r), "text/plain", pieces, anyContentsize, anyChunksize);
    if IsEchoed(r.meth) {
      EchoesExactly(r);
      NormalisationIsStable(bytes, unset);
    } else {
      AcceptedIsWellFormed(bytes, unset);
      NamelessIsBad(r);
    }
  }
}
