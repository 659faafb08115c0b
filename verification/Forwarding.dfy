/** What the proxy does with a response it has read, and when a client can read what the proxy sends on. */
module Forwarding {
  import opened Text
  import opened Headers
  import opened Responses
  import opened ResponseParsing
  import opened ResponseSplitting
  import opened ChunkedCoding
  import opened ResponseRoundTrip

  /** The end of `proxy_request`: a redirect is followed, a page is rewritten, anything else is sent on. */
  datatype Proxied = FollowRedirect(location: string) | RewritePage(page: Response) | SendOn(response: Response)

  function LocationName(): string { "Location" }

  /** `headers_[name]`, which inserts an empty value for a name the map does not have. */
  function Indexed(hs: seq<Header>, name: string): seq<Header> {
    if Lookup(hs, name).None? then Put(hs, name, "") else hs
  }

  function ValueAt(hs: seq<Header>, name: string): string {
    var v := Lookup(hs, name);
    if v.Some? then v.value else ""
  }

  function Finish(r: Response): Proxied {
    if r.code == 302 || r.code == 301 then FollowRedirect(ValueAt(r.headers, LocationName())) else
    var r1 := r.(headers := Indexed(r.headers, ContentType()));
    if Contains(ValueAt(r.headers, ContentType()), "text/html") then RewritePage(r1) else SendOn(r1)
  }

  method FinishProxied(r: Response) returns (p: Proxied)
    ensures p == Finish(r)
  {
    hide Put, Lookup, Contains, ContentType, LocationName;
    if r.code == 302 || r.code == 301 {
      return FollowRedirect(ValueAt(r.headers, LocationName()));
    }
    var response, contentType := r, "";
    var found := Lookup(response.headers, ContentType());
    if found.Some? {
      contentType := found.value;
    } else {
      response := response.(headers := Put(response.headers, ContentType(), ""));
    }
    var isPage := Occurs(contentType, "text/html");
    return if isPage then RewritePage(response) else SendOn(response);
  }

  // ---- Which of the three it is ----

  /** The response is a page: it has a Content-Type, and text/html stands in it. */
  ghost predicate IsPage(r: Response) {
    var v := Lookup(r.headers, "Content-Type");
    v.Some? && IsPart("text/html", v.value)
  }

  ghost predicate IsRedirect(r: Response) { r.code == 301 || r.code == 302 }

  /** The response with a Content-Type, an empty one when it had none. */
  function Typed(r: Response): Response {
    if Lookup(r.headers, "Content-Type").Some? then r else r.(headers := Put(r.headers, "Content-Type", ""))
  }

  lemma EmptyIsNoPage()
    ensures !IsPart("text/html", "")
  {
    forall before: string, after: string ensures before + "text/html" + after != "" {
      assert |before + "text/html" + after| >= 9;
    }
  }

  /** A redirect, and no other response, is followed to the value of its Location; of the others a page, and
      nothing else, is rewritten; the rest is sent on. Without a Content-Type a response is no page, and an
      empty Content-Type is added to its headers. */
  lemma FinishCases(r: Response)
    ensures IsRedirect(r) ==> Finish(r) == FollowRedirect(Lookup(r.headers, "Location").GetOr(""))
    ensures !IsRedirect(r) && IsPage(r) ==> Finish(r) == RewritePage(r)
    ensures !IsRedirect(r) && !IsPage(r) ==> Finish(r) == SendOn(Typed(r))
  {
    assert ContentType() == "Content-Type" && LocationName() == "Location";
    hide Put, Lookup, Contains, IsPart, ContentType, LocationName;
    ContainsIsPart(ValueAt(r.headers, "Content-Type"), "text/html");
    EmptyIsNoPage();
  }

  // ---- Every response that was read has headers that can be sent ----

  lemma PrintableAppend(hs: seq<Header>, h: Header)
    requires AllPrintable(hs) && Printable(h)
    ensures AllPrintable(hs + [h])
  {}

  lemma HeaderStepKeepsPrintable(m: Machine, c: char)
    requires AllPrintable(m.res.headers) && InHeader(m.state)
    ensures !Step(m, c).1.Bad? ==> AllPrintable(Step(m, c).0.res.headers)
  {
    match m.state
    case HeaderLineStart => if IsTokenChar(c) { PrintableAppend(m.res.headers, Header([c], "")); }
    case HeaderName =>
      if IsTokenChar(c) { PrintableAppend(Front(m), Header(Back(m).name + [c], Back(m).value)); }
    case HeaderLws | HeaderValue =>
      if !IsCtl(c) { PrintableAppend(Front(m), Header(Back(m).name, Back(m).value + [c])); }
    case _ =>
  }

  lemma OtherStepKeepsHeaders(m: Machine, c: char)
    requires !InHeader(m.state)
    ensures Step(m, c).0.res.headers == m.res.headers
  {}

  lemma {:induction false} RunKeepsPrintable(m: Machine, s: string)
    requires AllPrintable(m.res.headers)
    ensures !Run(m, s).result.Bad? ==> AllPrintable(Run(m, s).m.res.headers)
    decreases |s|
  {
    hide Step, AllPrintable, InHeader;
    if s != "" {
      if InHeader(m.state) { HeaderStepKeepsPrintable(m, s[0]); } else { OtherStepKeepsHeaders(m, s[0]); }
      if !Step(m, s[0]).1.Bad? { RunKeepsPrintable(Step(m, s[0]).0, s[1..]); }
    }
  }

  lemma CollectedIsPrintable(hs: seq<Header>)
    requires AllPrintable(hs)
    ensures Sorted(Collect(hs)) && AllPrintable(Collect(hs))
  {
    CollectSorted(hs);
    forall i | 0 <= i < |Collect(hs)| ensures Printable(Collect(hs)[i]) { CollectMember(hs, Collect(hs)[i]); }
  }

  /** Whatever bytes were read, the headers of the response are a map of printable headers. */
  lemma {:induction false} ReadIsPrintable(m: Machine, pieces: seq<string>)
    requires AllPrintable(m.res.headers)
    ensures var got := ReadAll(m, pieces); got.Some? ==> Sorted(got.value.headers) && AllPrintable(got.value.headers)
    decreases |pieces|
  {
    hide Run, AllPrintable, Sorted;
    if pieces != [] {
      var o := Run(m, pieces[0]);
      RunKeepsPrintable(m, pieces[0]);
      if o.result.Good? { CollectedIsPrintable(o.m.res.headers); }
      if o.result.Indeterminate? { ReadIsPrintable(o.m, pieces[1..]); }
    }
  }

  // ---- The Content-Type the proxy may add ----

  lemma {:induction false} PutKeepsOthers(m: seq<Header>, name: string, value: string, h: Header)
    requires h in m && h.name != name
    ensures h in Put(m, name, value)
  {
    if Less(name, m[0].name) || m[0].name == name {
    } else if h != m[0] {
      PutKeepsOthers(m[1..], name, value, h);
    }
  }

  lemma {:induction false} AbsentName(m: seq<Header>, name: string, h: Header)
    requires Lookup(m, name).None? && h in m
    ensures h.name != name
  {
    if h != m[0] { AbsentName(m[1..], name, h); }
  }

  lemma ContentTypeIsToken()
    ensures AllToken(ContentType())
  {}

  lemma ContentTypeIsNoLength()
    ensures !IsContentLength(ContentType()) && Printable(Header(ContentType(), ""))
    ensures !AsksChunked(Header(ContentType(), ""))
  {
    ContentTypeIsToken();
    hide AllToken;
    assert |ContentType()| == 12;
  }

  lemma IndexedChunked(hs: seq<Header>)
    ensures IsChunked(Indexed(hs, ContentType())) <==> IsChunked(hs)
  {
    ContentTypeIsNoLength();
    hide Put, Lookup, AsksChunked, ContentType;
    var name, all := ContentType(), Indexed(hs, ContentType());
    if Lookup(hs, name).None? {
      if IsChunked(hs) {
        var i :| 0 <= i < |hs| && AsksChunked(hs[i]);
        AbsentName(hs, name, hs[i]);
        PutKeepsOthers(hs, name, "", hs[i]);
        var j :| 0 <= j < |all| && all[j] == hs[i];
      }
      if IsChunked(all) {
        var j :| 0 <= j < |all| && AsksChunked(all[j]);
        PutMember(hs, name, "", all[j]);
        assert all[j] != Header(name, "");
        var i :| 0 <= i < |hs| && hs[i] == all[j];
      }
    }
  }

  lemma IndexedTravels(hs: seq<Header>, anyContentsize: int)
    requires Sorted(hs) && AllPrintable(hs)
    ensures var all := Indexed(hs, ContentType());
            Sorted(all) && AllPrintable(all) && Declared(all, anyContentsize) == Declared(hs, anyContentsize)
  {
    ContentTypeIsNoLength();
    hide Put, Lookup, ContentType, Printable, IsContentLength, Declared, Less;
    var name, all := ContentType(), Indexed(hs, ContentType());
    if Lookup(hs, name).None? {
      PutSorted(hs, name, "");
      PutOtherKeepsDeclared(hs, name, "", anyContentsize);
      forall i | 0 <= i < |all| ensures Printable(all[i]) { PutMember(hs, name, "", all[i]); }
    }
  }

  // ---- Reading what the proxy sends on ----

  lemma {:induction false} PayloadIsShorter(cs: seq<Chunk>)
    ensures |Payload(cs)| <= |Coded(cs)|
  {
    if cs != [] { PayloadIsShorter(cs[1..]); }
  }

  /** The payload of a coding is never as long as the text that starts with it. */
  lemma PayloadIsNotTheBody(body: string, k: nat, cs: seq<Chunk>, zero: string)
    requires CodingPrefix(body, k, cs, zero)
    ensures Payload(cs) != body
  {
    hide Payload, Coded;
    PayloadIsShorter(cs);
    assert |body[..k]| == |Coded(cs)| + |zero| + 1;
  }

  lemma TypedKeeps(r: Response)
    ensures Typed(r).code == r.code && Typed(r).body == r.body
  {}

  lemma NothingToPrint()
    ensures AllPrintable([])
  {}

  lemma ChunkedIsNotSent(sent: Response, later: seq<string>, anyContentsize: int, anyChunksize: int)
    requires Sorted(sent.headers) && AllPrintable(sent.headers)
    requires IsChunked(sent.headers) && Flatten(later) == Wire(sent)
    ensures ReadAll(Start(anyContentsize, anyChunksize), later) != Some(sent.(code := ShownCode(sent.code)))
  {
    hide Wire, ReadAll, Run, Declared, IsChunked, Sorted, AllPrintable, CodingPrefix, Payload;
    var got := ReadAll(Start(anyContentsize, anyChunksize), later);
    ChunkedResponseRead(sent, later, anyContentsize, anyChunksize);
    if got.Some? {
      var k: nat, cs, zero :| CodingPrefix(sent.body, k, cs, zero);
      PayloadIsNotTheBody(sent.body, k, cs, zero);
    }
  }

  /** For every response the proxy reads, however it was cut, that is no redirect and no page: it is sent on
      with a Content-Type, and the client's read loop returns it exactly when no header still announces a
      chunked coding and the headers declare the body. */
  lemma SentOnIsRead(pieces: seq<string>, read: Response, later: seq<string>,
                     anyContentsize: int, anyChunksize: int, clientContentsize: int, clientChunksize: int)
    requires ReadAll(Start(anyContentsize, anyChunksize), pieces) == Some(read)
    requires !IsRedirect(read) && !IsPage(read) && Flatten(later) == Wire(Typed(read))
    ensures Finish(read) == SendOn(Typed(read))
    ensures ReadAll(Start(clientContentsize, clientChunksize), later)
         == Some(Typed(read).(code := ShownCode(read.code)))
       <==> !IsChunked(read.headers) && Declared(read.headers, clientContentsize) == Some(|read.body|)
  {
    FinishCases(read);
    var sent := Typed(read);
    assert sent.headers == Indexed(read.headers, ContentType());
    hide Wire, ReadAll, Run, Declared, IsChunked, Sorted, AllPrintable, Indexed, Typed, IsPage, Finish,
         Contains, ContentType, CodingPrefix, Payload;
    NothingToPrint();
    ReadIsPrintable(Start(anyContentsize, anyChunksize), pieces);
    IndexedTravels(read.headers, clientContentsize);
    IndexedChunked(read.headers);
    TypedKeeps(read);
    if IsChunked(sent.headers) {
      ChunkedResponseRead(sent, later, clientContentsize, clientChunksize);
      ChunkedIsNotSent(sent, later, clientContentsize, clientChunksize);
    } else {
      ResponseRoundTrip.ResponseRoundTrip(sent, later, clientContentsize, clientChunksize);
    }
  }

  lemma {:induction false} DeclaredAnyway(hs: seq<Header>, a: int, b: int)
    ensures Declared(hs, a).Some? <==> Declared(hs, b).Some?
  {
    hide IsContentLength, LengthOf;
    if hs != [] { DeclaredAnyway(hs[..|hs| - 1], a, b); }
  }

  /** So a chunked response that is no redirect and no page never arrives: the proxy has decoded its body and
      keeps the header. The client reads something exactly when the payload itself starts with a coding. */
  lemma ChunkedIsNotSentOn(r: Response, cs: seq<Chunk>, zero: string, after: string,
                           pieces: seq<string>, later: seq<string>,
                           anyContentsize: int, anyChunksize: int, clientContentsize: int, clientChunksize: int)
    requires Sorted(r.headers) && AllPrintable(r.headers) && IsChunked(r.headers)
    requires Declared(r.headers, anyContentsize).Some?
    requires IsCoding(r.body, cs, zero) && Flatten(pieces) == Wire(r) + after
    requires var read := Response(ShownCode(r.code), r.headers, Payload(cs));
             !IsRedirect(read) && !IsPage(read) && Flatten(later) == Wire(Typed(read))
    ensures var read := Response(ShownCode(r.code), r.headers, Payload(cs));
            && ReadAll(Start(anyContentsize, anyChunksize), pieces) == Some(read)
            && Finish(read) == SendOn(Typed(read))
    ensures var got := ReadAll(Start(clientContentsize, clientChunksize), later);
            && got != Some(Typed(Response(ShownCode(r.code), r.headers, Payload(cs))))
            && (got.Some? <==> exists k: nat, ds, end :: CodingPrefix(Payload(cs), k, ds, end))
  {
    var read := Response(ShownCode(r.code), r.headers, Payload(cs));
    assert Typed(read).headers == Indexed(r.headers, ContentType());
    hide Wire, ReadAll, Run, Declared, IsChunked, Sorted, AllPrintable, Indexed, Typed, IsPage, Finish,
         Contains, ContentType, CodingPrefix, Payload, IsCoding;
    ChunkedResponse(r, cs, zero, after, pieces, anyContentsize, anyChunksize);
    IndexedTravels(r.headers, clientContentsize);
    IndexedChunked(r.headers);
    TypedKeeps(read);
    DeclaredAnyway(r.headers, anyContentsize, clientContentsize);
    ChunkedResponseRead(Typed(read), later, clientContentsize, clientChunksize);
    SentOnIsRead(pieces, read, later, anyContentsize, anyChunksize, clientContentsize, clientChunksize);
  }
}
