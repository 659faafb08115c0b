/** The blog from the client's side of the connection: the redirect after a POST, and the page behind it. */
module BlogDelivery {
  import opened Text
  import opened Headers
  import opened Requests
  import opened Responses
  import opened Pages
  import opened Blogs
  import Forms
  import R = ResponseParsing
  import T = ResponseRoundTrip

  lemma HtmlMime()
    ensures NoCtl("text/html")
  {}

  lemma PageIs(reply: Reply)
    requires !reply.Redirect?
    ensures ResponseOf(reply) == Response(200, PageHeaders(|Html(reply)|, "text/html"), Html(reply))
  {
    hide PageHeaders, Html;
  }

  /** A page reaches the client, in whatever reads, exactly when its length is an int. */
  lemma PageArrives(reply: Reply, pieces: seq<string>, anyContentsize: int, anyChunksize: int)
    requires !reply.Redirect? && Flatten(pieces) == Wire(ResponseOf(reply))
    ensures R.ReadAll(R.Start(anyContentsize, anyChunksize), pieces)
            == Some(Response(200, PageHeaders(|Html(reply)|, "text/html"), Html(reply)))
       <==> |Html(reply)| <= INT_MAX
  {
    hide Wire, Html, PageHeaders, R.ReadAll, R.Start, ResponseOf, NoCtl;
    HtmlMime();
    PageIs(reply);
    PageDelivered(Html(reply), "text/html", pieces, anyContentsize, anyChunksize);
  }

  function LocationHeader(location: string): Header { Header("Location", location) }

  lemma LocationIsOther(location: string)
    requires NoCtl(location)
    ensures Printable(LocationHeader(location)) && !AsksChunked(LocationHeader(location))
    ensures !IsContentLength("Location")
  {
    assert |"Location"| == 8;
    assert AllToken("Location");
    hide AllToken;
  }

  lemma PutTravels(hs: seq<Header>, h: Header, anyContentsize: int)
    requires Sorted(hs) && AllPrintable(hs) && !T.IsChunked(hs)
    requires Printable(h) && !AsksChunked(h) && !IsContentLength(h.name)
    ensures var all := Put(hs, h.name, h.value);
            Sorted(all) && AllPrintable(all) && !T.IsChunked(all)
            && Declared(all, anyContentsize) == Declared(hs, anyContentsize)
  {
    hide Put, Less, Declared, Printable, AsksChunked, IsContentLength;
    var all := Put(hs, h.name, h.value);
    PutSorted(hs, h.name, h.value);
    PutOtherKeepsDeclared(hs, h.name, h.value, anyContentsize);
    forall i | 0 <= i < |all| ensures Printable(all[i]) && !AsksChunked(all[i]) {
      PutMember(hs, h.name, h.value, all[i]);
      if all[i] != h { var j :| 0 <= j < |hs| && hs[j] == all[i]; }
    }
  }

  lemma RedirectHasNoPage(location: string)
    ensures Html(Redirect(location)) == ""
  {
    hide HeadOne, HeadAll, Entries, PostIdLabel, IntText;
  }

  lemma RedirectIs(location: string)
    ensures var r := ResponseOf(Redirect(location));
            && r.headers == Put(PageHeaders(0, "text/html"), "Location", location) && r.code == 302 && r.body == ""
  {
    RedirectHasNoPage(location);
    hide PageHeaders, Put, Html;
  }

  lemma RedirectTravels(location: string, anyContentsize: int)
    requires NoCtl(location)
    ensures var hs := ResponseOf(Redirect(location)).headers;
            && Sorted(hs) && AllPrintable(hs) && !T.IsChunked(hs) && Declared(hs, anyContentsize) == Some(0)
  {
    hide Put, PageHeaders, Declared, Printable, ResponseOf, IsContentLength, NoCtl, T.IsChunked, Sorted, AllPrintable,
         AsksChunked;
    LocationIsOther(location);
    HtmlMime();
    RedirectIs(location);
    PageHeadersTravel(0, "text/html", anyContentsize);
    PutTravels(PageHeaders(0, "text/html"), LocationHeader(location), anyContentsize);
  }

  /** A redirect reaches the client with its Location, in whatever reads. */
  lemma RedirectArrives(location: string, pieces: seq<string>, anyContentsize: int, anyChunksize: int)
    requires NoCtl(location) && Flatten(pieces) == Wire(ResponseOf(Redirect(location)))
    ensures R.ReadAll(R.Start(anyContentsize, anyChunksize), pieces) == Some(ResponseOf(Redirect(location)))
    ensures Lookup(ResponseOf(Redirect(location)).headers, "Location") == Some(location)
  {
    RedirectIs(location);
    hide Wire, R.ReadAll, R.Start, ResponseOf, NoCtl, Declared, T.IsChunked, AllPrintable, Sorted, Put, Lookup;
    RedirectTravels(location, anyContentsize);
    RedirectCarriesLocation(location);
    T.ResponseRoundTrip(ResponseOf(Redirect(location)), pieces, anyContentsize, anyChunksize);
  }

  lemma LocationIsPrintable(prefix: string, id: nat)
    requires NoCtl(prefix)
    ensures NoCtl(LocationOf(prefix, id))
  {
    DecimalRoundTrip(id);
    hide Decimal;
  }

  /** The bytes of the answer to a request, cut into reads anywhere. */
  ghost predicate Answers(pieces: seq<string>, prefix: string, db: seq<Blog>, r: Request) {
    var reply := Handle(prefix, db, r);
    reply.Some? && |Html(reply.value)| <= INT_MAX && Flatten(pieces) == Wire(ResponseOf(reply.value))
  }

  /** A page with a title as heading, a text as paragraph, and a number. */
  ghost predicate Shows(got: Option<Response>, title: string, body: string, id: nat) {
    && got.Some? && got.value.code == 200
    && IsPart("<h1>\n" + title + "</h1>\n", got.value.body)
    && IsPart("<p>\n" + body + "</p>\n", got.value.body)
    && IsPart("POSTID: " + Decimal(id) + "</div>", got.value.body)
  }

  /** A new response parser, whatever its counters hold. */
  predicate IsStart(m: R.Machine) { m == R.Start(m.res.contentsize, m.res.chunksize) }

  /** The Location of a response that was read. */
  function LocationRead(got: Option<Response>): string {
    if got.None? then "" else Lookup(got.value.headers, "Location").GetOr("")
  }

  lemma PostRedirects(prefix: string, db: seq<Blog>, post: Request)
    requires !post.meth.GET?
    ensures Handle(prefix, db, post) == Some(Redirect(LocationOf(prefix, |db| + 1)))
  {}

  /** The client reads the redirect to the post that was stored. */
  lemma PostAnswered(prefix: string, db: seq<Blog>, post: Request, answer: seq<string>, m: R.Machine)
    requires !post.meth.GET? && NoCtl(prefix) && IsStart(m) && Answers(answer, prefix, db, post)
    ensures var got := R.ReadAll(m, answer);
            got.Some? && got.value.code == 302 && LocationRead(got) == LocationOf(prefix, |db| + 1)
  {
    hide Wire, R.ReadAll, R.Start, ResponseOf, NoCtl, Html, Handle, LocationOf, Lookup;
    PostRedirects(prefix, db, post);
    LocationIsPrintable(prefix, |db| + 1);
    RedirectArrives(LocationOf(prefix, |db| + 1), answer, m.res.contentsize, m.res.chunksize);
    RedirectCarriesLocation(LocationOf(prefix, |db| + 1));
  }

  lemma PartAtEnd(before: string, part: string)
    ensures IsPart(part, before + part)
  {
    assert before + part == before + part + "";
  }

  lemma JoinFour(a: string, b: string, c: string, d: string)
    ensures (a + b) + c + d == a + (b + c + d)
  {}

  lemma LabelEnds()
    ensures PostIdLabel() == "</body>\n<div style=\"position: fixed;bottom: 0;right: 0;\">" + "POSTID: "
  {}

  lemma NumberIsPart(id: string, page: string)
    requires IsPart(PostIdLabel() + id + "</div>", page)
    ensures IsPart("POSTID: " + id + "</div>", page)
  {
    LabelEnds();
    var style, part := "</body>\n<div style=\"position: fixed;bottom: 0;right: 0;\">", "POSTID: " + id + "</div>";
    hide IsPart, PostIdLabel;
    JoinFour(style, "POSTID: ", id, "</div>");
    PartAtEnd(style, part);
    PartOfPart(part, PostIdLabel() + id + "</div>", page);
  }

  lemma PostIsPart(b: Blog)
    requires b.postid >= 0
    ensures IsPart("<h1>\n" + b.title + "</h1>\n", Html(PostPage(b)))
    ensures IsPart("<p>\n" + b.body + "</p>\n", Html(PostPage(b)))
    ensures IsPart("POSTID: " + Decimal(b.postid) + "</div>", Html(PostPage(b)))
  {
    PageShowsPost(b);
    hide Html, Decimal, Contains, PostIdLabel;
    var page := Html(PostPage(b));
    ContainsIsPart(page, "<h1>\n" + b.title + "</h1>\n");
    ContainsIsPart(page, "<p>\n" + b.body + "</p>\n");
    ContainsIsPart(page, PostIdLabel() + IntText(b.postid) + "</div>");
    LabelEnds();
    NumberIsPart(Decimal(b.postid), page);
  }

  lemma PageShown(prefix: string, db: seq<Blog>, get: Request, b: Blog, page: seq<string>, m: R.Machine)
    requires b.postid >= 0 && IsStart(m) && Answers(page, prefix, db, get)
    requires Handle(prefix, db, get) == Some(PostPage(b))
    ensures Shows(R.ReadAll(m, page), b.title, b.body, b.postid)
  {
    hide Wire, R.ReadAll, R.Start, ResponseOf, Html, PageHeaders, IsPart, Decimal, Handle;
    PageArrives(PostPage(b), page, m.res.contentsize, m.res.chunksize);
    PostIsPart(b);
  }

  lemma FieldNamesAre()
    ensures TitleField() == "submissiontitle" && BodyField() == "submissionbody"
  {}

  /** The two answers a client gets, by way of the wire: after any requests it posts and reads the redirect; after
      any further requests it asks for the Location it has read; and the page it reads then shows the title,
      the text and the number of its post. */
  lemma PostThenRead(prefix: string, start: seq<Blog>, before: seq<Request>, post: Request, answer: seq<string>,
                     after: seq<Request>, get: Request, page: seq<string>, m: R.Machine)
    requires prefix != "" && !EndsWithSlash(prefix) && NoCtl(prefix) && Numbered(start) && IsStart(m)
    requires !post.meth.GET? && get.meth.GET? && |AfterAll(start, before)| < INT_MAX
    requires Answers(answer, prefix, AfterAll(start, before), post)
    requires LocationRead(R.ReadAll(m, answer)) == get.uri
    requires Answers(page, prefix, AfterAll(After(AfterAll(start, before), post), after), get)
    ensures R.ReadAll(m, answer).Some? && R.ReadAll(m, answer).value.code == 302
    ensures var form := Forms.PairsOf(Forms.Decode(post.body));
            Shows(R.ReadAll(m, page), Field(form, "submissiontitle"), Field(form, "submissionbody"),
                  |AfterAll(start, before)| + 1)
  {
    var db := AfterAll(start, before);
    var form := Forms.PairsOf(Forms.Decode(post.body));
    var stored := Blog(|db| + 1, Field(form, "submissiontitle"), Field(form, "submissionbody"));
    FieldNamesAre();
    hide R.ReadAll, Forms.PairsOf, Forms.Decode, Field, Html, Handle, AfterAll, After, Numbered, EndsWithSlash,
         LocationOf, TitleField, BodyField, Shows, IsStart, Answers, LocationRead, NoCtl;
    PostAnswered(prefix, db, post, answer, m);
    PostRedirects(prefix, db, post);
    ReadYourWrites(prefix, start, before, post, after, get);
    PageShown(prefix, AfterAll(After(db, post), after), get, stored, page, m);
  }
}
