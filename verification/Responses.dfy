/** Responses, the builder the response parser fills, and the server's serialiser. */
module Responses {
  import opened Text
  import opened Headers

  /** `headers` is the ordered map `headers_`; the status code keeps its number. */
  datatype Response = Response(code: int, headers: seq<Header>, body: string)

  datatype Builder = Builder(
    major: nat,
    minor: nat,
    code: int,
    reason: string,
    headers: seq<Header>,
    body: string,
    keepAlive: bool,
    chunked: bool,
    contentsize: int,
    chunksizehex: string,
    chunksize: int)

  /** A new builder. `contentsize` and `chunksize` start uninitialised: whatever was in memory. */
  function Fresh(contentsize: int, chunksize: int): Builder {
    Builder(0, 0, 0, "", [], "", false, false, contentsize, "", chunksize)
  }

  function Built(b: Builder): Response { Response(b.code, Collect(b.headers), b.body) }

  class ResponseBuilder {
    var major: nat
    var minor: nat
    var code: int
    var reason: string
    var headers: seq<Header>
    var body: string
    var keepAlive: bool
    var chunked: bool
    var contentsize: int
    var chunksizehex: string
    var chunksize: int

    function Value(): Builder
      reads this
    {
      Builder(major, minor, code, reason, headers, body, keepAlive, chunked, contentsize, chunksizehex, chunksize)
    }

    constructor (anyContentsize: int, anyChunksize: int)
      ensures Value() == Fresh(anyContentsize, anyChunksize)
    {
      major, minor, code := 0, 0, 0;
      reason, headers, body, chunksizehex := "", [], "", "";
      keepAlive, chunked := false, false;
      contentsize, chunksize := anyContentsize, anyChunksize;
    }

    method BuildResponse() returns (r: Response)
      ensures r == Built(Value())
    {
      var collected: seq<Header> := [];
      var i := 0;
      while i < |headers|
        invariant 0 <= i <= |headers|
        invariant collected == Collect(headers[..i])
      {
        var h := headers[i];
        assert headers[..i + 1][..i] == headers[..i];
        collected := Put(collected, h.name, h.value);
        i := i + 1;
      }
      assert headers[..i] == headers;
      r := Response(code, collected, body);
    }
  }

  // ---- Serialising ----

  /** The code on the wire: `to_buffer` knows four codes and shows every other one as 400. */
  function ShownCode(code: int): int {
    if code == 200 || code == 404 || code == 302 then code else 400
  }

  function StatusDigits(code: int): string {
    match code
    case 200 => "200"
    case 400 => "400"
    case 404 => "404"
    case 302 => "302"
    case _ => "400"
  }

  function ReasonPhrase(code: int): string {
    match code
    case 200 => "OK"
    case 400 => "Bad Request"
    case 404 => "Not Found"
    case 302 => "Moved Temporarily"
    case _ => "Bad Request"
  }

  function StatusLine(code: int): string {
    "HTTP/1.0 " + (StatusDigits(code) + " ") + (ReasonPhrase(code) + CRLF)
  }

  lemma OkLine()
    ensures "HTTP/1.0 " + ("200" + " ") + ("OK" + CRLF) == "HTTP/1.0 200 OK\r\n"
  {}

  lemma MovedLine()
    ensures "HTTP/1.0 " + ("302" + " ") + ("Moved Temporarily" + CRLF) == "HTTP/1.0 302 Moved Temporarily\r\n"
  {}

  lemma BadLine()
    ensures "HTTP/1.0 " + ("400" + " ") + ("Bad Request" + CRLF) == "HTTP/1.0 400 Bad Request\r\n"
  {}

  lemma NotFoundLine()
    ensures "HTTP/1.0 " + ("404" + " ") + ("Not Found" + CRLF) == "HTTP/1.0 404 Not Found\r\n"
  {}

  /** The four status lines, and the one for every other code. */
  lemma StatusLines(code: int)
    ensures StatusLine(200) == "HTTP/1.0 200 OK\r\n"
    ensures StatusLine(302) == "HTTP/1.0 302 Moved Temporarily\r\n"
    ensures StatusLine(400) == "HTTP/1.0 400 Bad Request\r\n"
    ensures StatusLine(404) == "HTTP/1.0 404 Not Found\r\n"
    ensures code != 200 && code != 302 && code != 404 ==> StatusLine(code) == "HTTP/1.0 400 Bad Request\r\n"
  {
    OkLine();
    MovedLine();
    BadLine();
    NotFoundLine();
  }

  function HeaderBuffers(hs: seq<Header>): seq<string> {
    if hs == [] then [] else [hs[0].name, ": ", hs[0].value, CRLF] + HeaderBuffers(hs[1..])
  }

  function Buffers(r: Response): seq<string> {
    [StatusLine(r.code)] + HeaderBuffers(r.headers) + [CRLF, r.body]
  }

  lemma {:induction false} HeaderBuffersAppend(hs: seq<Header>, h: Header)
    ensures HeaderBuffers(hs + [h]) == HeaderBuffers(hs) + [h.name, ": ", h.value, CRLF]
  {
    if hs == [] {
      assert hs + [h] == [h];
    } else {
      HeaderBuffersAppend(hs[1..], h);
      assert (hs + [h])[1..] == hs[1..] + [h];
    }
  }

  method ToBuffers(r: Response) returns (buffers: seq<string>)
    ensures buffers == Buffers(r)
  {
    buffers := [StatusLine(r.code)];
    var i := 0;
    while i < |r.headers|
      invariant 0 <= i <= |r.headers|
      invariant buffers == [StatusLine(r.code)] + HeaderBuffers(r.headers[..i])
    {
      HeaderBuffersAppend(r.headers[..i], r.headers[i]);
      assert r.headers[..i + 1] == r.headers[..i] + [r.headers[i]];
      ghost var before := buffers;
      buffers := buffers + [r.headers[i].name];
      buffers := buffers + [": "];
      buffers := buffers + [r.headers[i].value];
      buffers := buffers + [CRLF];
      assert buffers == before + [r.headers[i].name, ": ", r.headers[i].value, CRLF];
      i := i + 1;
    }
    assert r.headers[..i] == r.headers;
    buffers := buffers + [CRLF];
    buffers := buffers + [r.body];
  }

  /** The bytes a client receives. */
  function Wire(r: Response): string { Flatten(Buffers(r)) }

  // ---- Pages ----

  function ContentLength(): string { "Content-Length" }

  function ContentType(): string { "Content-Type" }

  /** The two headers of every page a handler builds. */
  function PageHeaders(length: nat, mime: string): seq<Header> {
    Put(Put([], ContentLength(), Decimal(length)), ContentType(), mime)
  }

  lemma {:induction false} LessAfterPrefix(p: string, a: string, b: string)
    requires Less(a, b)
    ensures Less(p + a, p + b)
  {
    if p == "" {
      assert p + a == a && p + b == b;
    } else {
      LessAfterPrefix(p[1..], a, b);
      assert (p + a)[1..] == p[1..] + a && (p + b)[1..] == p[1..] + b;
    }
  }

  lemma ContentLengthFirst()
    ensures Less(ContentLength(), ContentType())
  {
    assert Less("Length", "Type");
    assert ContentLength() == "Content-" + "Length" && ContentType() == "Content-" + "Type";
    hide Less, ContentLength, ContentType;
    LessAfterPrefix("Content-", "Length", "Type");
  }

  lemma PageHeadersAre(length: nat, mime: string)
    ensures PageHeaders(length, mime) == [Header(ContentLength(), Decimal(length)), Header(ContentType(), mime)]
    ensures Sorted(PageHeaders(length, mime))
  {
    hide Put, Less, Decimal, ContentLength, ContentType;
    var name, value := ContentLength(), Decimal(length);
    PutLargest([], name, value);
    assert Put([], name, value) == [Header(name, value)];
    PutSorted([Header(name, value)], ContentType(), mime);
    ContentLengthFirst();
    PutLargest([Header(name, value)], ContentType(), mime);
    assert PageHeaders(length, mime) == [Header(name, value), Header(ContentType(), mime)];
  }
}
