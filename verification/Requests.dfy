/** Requests, the builder the parser fills, and the printer the proxy sends requests with. */
module Requests {
  import opened Text
  import opened Headers

  datatype Method = GET | HEAD | POST | PUT | DELETE | CONNECT | OPTIONS | TRACE

  /** `headers` is the ordered map `headers_`. */
  datatype Request = Request(meth: Method, uri: string, version: string, headers: seq<Header>, body: string)

  function MethodName(m: Method): string {
    match m
    case GET => "GET"
    case HEAD => "HEAD"
    case POST => "POST"
    case PUT => "PUT"
    case DELETE => "DELETE"
    case CONNECT => "CONNECT"
    case OPTIONS => "OPTIONS"
    case TRACE => "TRACE"
  }

  function MethodOf(name: string): Option<Method> {
    if name == "GET" then Some(GET)
    else if name == "POST" then Some(POST)
    else if name == "DELETE" then Some(DELETE)
    else if name == "HEAD" then Some(HEAD)
    else if name == "PUT" then Some(PUT)
    else if name == "CONNECT" then Some(CONNECT)
    else if name == "OPTIONS" then Some(OPTIONS)
    else if name == "TRACE" then Some(TRACE)
    else None
  }

  /** The eight method names, and no other name is one. */
  lemma MethodWords(name: string)
    ensures MethodOf("GET") == Some(GET) && MethodOf("HEAD") == Some(HEAD) && MethodOf("POST") == Some(POST)
    ensures MethodOf("PUT") == Some(PUT) && MethodOf("DELETE") == Some(DELETE) && MethodOf("CONNECT") == Some(CONNECT)
    ensures MethodOf("OPTIONS") == Some(OPTIONS) && MethodOf("TRACE") == Some(TRACE)
    ensures MethodOf(name).Some?
       <==> name in ["GET", "HEAD", "POST", "PUT", "DELETE", "CONNECT", "OPTIONS", "TRACE"]
  {}

  function Version(major: nat, minor: nat): string {
    "HTTP/" + Decimal(major) + "." + Decimal(minor)
  }

  /** The fields of a `request_builder`, as a value. */
  datatype Builder = Builder(
    meth: string,
    uri: string,
    major: nat,
    minor: nat,
    headers: seq<Header>,
    bodysize: int,
    body: string,
    keepAlive: bool)

  /** A new builder. Its three numbers are written before they are read, so any start value will do. */
  const FRESH: Builder := Builder("", "", 0, 0, [], 0, "", false)

  /** The request a builder describes; `unset` is what `method_` holds when the method is unknown. */
  function Built(b: Builder, unset: Method): Request {
    var m := MethodOf(b.meth);
    Request(if m.Some? then m.value else unset, b.uri, Version(b.major, b.minor), Collect(b.headers), b.body)
  }

  class RequestBuilder {
    var meth: string
    var uri: string
    var major: nat
    var minor: nat
    var headers: seq<Header>
    var bodysize: int
    var body: string
    var keepAlive: bool

    function Value(): Builder
      reads this
    {
      Builder(meth, uri, major, minor, headers, bodysize, body, keepAlive)
    }

    constructor ()
      ensures Value() == FRESH
    {
      meth, uri, headers, body := "", "", [], "";
      major, minor, bodysize := 0, 0, 0;
      keepAlive := false;
    }

    method BuildRequest(unset: Method) returns (r: Request)
      ensures r == Built(Value(), unset)
    {
      var m := MethodOf(meth);
      var collected: seq<Header> := [];
      var i := 0;
      while i < |headers|
        invariant 0 <= i <= |headers|
        invariant collected == Collect(headers[..i])
      {
        var h := headers[i];
        assert headers[..i + 1][..i] == headers[..i];
        collected := Put(collected, h.name, h.value);
        i := i + 1;
      }
      assert headers[..i] == headers;
      r := Request(if m.Some? then m.value else unset, uri, Version(major, minor), collected, body);
    }
  }

  // ---- Printing ----

  function HeaderLine(h: Header): string { h.name + ": " + h.value + CRLF }

  function HeaderLines(hs: seq<Header>): string {
    if hs == [] then "" else HeaderLine(hs[0]) + HeaderLines(hs[1..])
  }

  function Printed(r: Request): string {
    MethodName(r.meth) + " " + r.uri + " " + r.version + CRLF + HeaderLines(r.headers) + CRLF + r.body
  }

  lemma {:induction false} HeaderLinesAppend(hs: seq<Header>, h: Header)
    ensures HeaderLines(hs + [h]) == HeaderLines(hs) + HeaderLine(h)
  {
    if hs == [] {
      assert hs + [h] == [h];
    } else {
      HeaderLinesAppend(hs[1..], h);
      assert (hs + [h])[1..] == hs[1..] + [h];
    }
  }

  /** `build_request_string` of the proxy. */
  method PrintRequest(r: Request) returns (text: string)
    ensures text == Printed(r)
  {
    text := MethodName(r.meth) + " ";
    text := text + r.uri;
    text := text + " ";
    text := text + r.version;
    text := text + CRLF;
    ghost var start := text;
    var i := 0;
    while i < |r.headers|
      invariant 0 <= i <= |r.headers|
      invariant text == start + HeaderLines(r.headers[..i])
    {
      HeaderLinesAppend(r.headers[..i], r.headers[i]);
      assert r.headers[..i + 1] == r.headers[..i] + [r.headers[i]];
      text := text + (r.headers[i].name + ": " + r.headers[i].value + CRLF);
      i := i + 1;
    }
    assert r.headers[..i] == r.headers;
    text := text + CRLF;
    text := text + r.body;
  }

  // ---- Which requests can travel ----

  predicate NoCtlOrSpace(s: string) { forall i :: 0 <= i < |s| ==> !IsCtl(s[i]) && s[i] != ' ' }

  /** Everything a printed request needs except that Content-Length fits the body. */
  ghost predicate WellFormed(r: Request) {
    && NoCtlOrSpace(r.uri)
    && (exists major: nat, minor: nat :: r.version == Version(major, minor))
    && Sorted(r.headers)
    && AllPrintable(r.headers)
  }

  /** The header map declares exactly the body: the check a sender can make before sending. */
  predicate LengthFits(r: Request) { Declared(r.headers, 0) == Some(|r.body|) }
}
