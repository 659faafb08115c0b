/** Pages on the wire: what a handler answers with Content-Length and Content-Type reaches the client. */
module Pages {
  import opened Text
  import opened Headers
  import opened Responses
  import opened ResponseParsing
  import opened ResponseRoundTrip

  lemma PageHeadersPrintable(n: nat, mime: string)
    requires NoCtl(mime)
    ensures Printable(Header(ContentLength(), Decimal(n))) && Printable(Header(ContentType(), mime))
  {
    DecimalRoundTrip(n);
    hide Decimal;
    assert NoCtl(Decimal(n));
    assert AllToken(ContentLength());
    assert AllToken(ContentType());
  }

  lemma LengthIsLength()
    ensures IsContentLength(ContentLength())
  {}

  lemma OtherLength(name: string)
    requires |name| != 14
    ensures !IsContentLength(name)
  {}

  lemma OnlyLengthIsLength(length: string, mime: string)
    ensures IsContentLength(ContentLength()) && !IsContentLength(ContentType())
    ensures !AsksChunked(Header(ContentLength(), length)) && !AsksChunked(Header(ContentType(), mime))
  {
    LengthIsLength();
    hide Lower, IsContentLength;
    assert |ContentType()| == 12 && |ContentLength()| == 14;
    OtherLength(ContentType());
  }

  lemma LengthThenOther(length: Header, other: Header, anyContentsize: int)
    requires IsContentLength(length.name) && !IsContentLength(other.name)
    ensures var n := LengthOf(length.value);
            Declared([length, other], anyContentsize) == if n.Some? then Some(n.value) else None
  {
    hide IsContentLength, LengthOf;
    var n := LengthOf(length.value);
    DeclaredPrepend(other, [], if n.Some? then n.value else 0);
    DeclaredPrepend(length, [other], anyContentsize);
    assert [length] + [other] == [length, other] && [other] + [] == [other];
  }

  lemma LengthOfDecimal(n: nat)
    ensures LengthOf(Decimal(n)) == if n <= INT_MAX then Some(n) else None
  {
    StoiOfDecimal(n);
    hide Decimal, Stoi;
  }

  lemma PageHeadersTravel(n: nat, mime: string, anyContentsize: int)
    requires NoCtl(mime)
    ensures var hs := PageHeaders(n, mime);
            && Sorted(hs) && AllPrintable(hs) && !IsChunked(hs)
            && Declared(hs, anyContentsize) == if n <= INT_MAX then Some(n) else None
  {
    hide Decimal, Sorted, PageHeaders, LengthOf, Declared, Printable, ContentLength, ContentType, IsContentLength,
         AsksChunked;
    var length, kind := Header(ContentLength(), Decimal(n)), Header(ContentType(), mime);
    PageHeadersPrintable(n, mime);
    LengthOfDecimal(n);
    OnlyLengthIsLength(Decimal(n), mime);
    PageHeadersAre(n, mime);
    LengthThenOther(length, kind, anyContentsize);
  }

  lemma NameBytes(length: Header, kind: Header)
    requires length.name == ContentLength() && kind.name == ContentType()
    ensures "" + (length.name + ": " + length.value + CRLF) == "Content-Length: " + length.value + "\r\n"
    ensures kind.name + ": " + kind.value + CRLF == "Content-Type: " + kind.value + "\r\n"
  {
    assert length.name + ": " == "Content-Length: " && kind.name + ": " == "Content-Type: ";
  }

  lemma PageLines(n: nat, mime: string)
    ensures Lines(PageHeaders(n, mime)) == "Content-Length: " + Decimal(n) + "\r\n" + ("Content-Type: " + mime + "\r\n")
  {
    var length, kind := Header(ContentLength(), Decimal(n)), Header(ContentType(), mime);
    NameBytes(length, kind);
    NoLines();
    hide Decimal, Lines, PageHeaders, ContentLength, ContentType;
    PageHeadersAre(n, mime);
    LinesAppend([], length);
    LinesAppend([length], kind);
    assert [length] + [kind] == [length, kind] && [] + [length] == [length];
  }

  lemma OkStatus()
    ensures StatusLine(200) == "HTTP/1.0 200 OK\r\n"
  {
    hide StatusLine;
    StatusLines(200);
  }

  /** The bytes of a page on the wire. */
  lemma PageBytes(body: string, mime: string)
    ensures Wire(Response(200, PageHeaders(|body|, mime), body))
         == "HTTP/1.0 200 OK\r\n"
            + ("Content-Length: " + Decimal(|body|) + "\r\n" + ("Content-Type: " + mime + "\r\n") + (CRLF + body))
  {
    hide Wire, Decimal, StatusLine, Lines, PageHeaders, ContentLength, ContentType;
    WireParts(Response(200, PageHeaders(|body|, mime), body));
    OkStatus();
    PageLines(|body|, mime);
  }

  /** A page reaches the client as it was built, in whatever reads, exactly when its length is an int. */
  lemma PageDelivered(body: string, mime: string, pieces: seq<string>, anyContentsize: int, anyChunksize: int)
    requires NoCtl(mime)
    requires Flatten(pieces) == Wire(Response(200, PageHeaders(|body|, mime), body))
    ensures ReadAll(Start(anyContentsize, anyChunksize), pieces)
            == Some(Response(200, PageHeaders(|body|, mime), body))
       <==> |body| <= INT_MAX
  {
    hide Wire, PageHeaders, Declared, AllPrintable, IsChunked, Sorted, Start, ReadAll;
    PageHeadersTravel(|body|, mime, anyContentsize);
    ResponseRoundTrip.ResponseRoundTrip(Response(200, PageHeaders(|body|, mime), body), pieces, anyContentsize,
                                        anyChunksize);
  }
}
