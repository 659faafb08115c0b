/** The blog handler over the mock database: what was posted can be read where the redirect points. */
module Blogs {
  import opened Text
  import opened Headers
  import opened Requests
  import opened Responses
  import opened Forms

  datatype Blog = Blog(postid: int, title: string, body: string)

  const NO_BLOG: Blog := Blog(-1, "", "")

  // ---- The store ----

  /** The post with an id; the sentinel when `at` throws. */
  function Find(db: seq<Blog>, postid: int): Blog {
    if 1 <= postid <= |db| then db[postid - 1] else NO_BLOG
  }

  function Insert(db: seq<Blog>, title: string, body: string): seq<Blog> {
    db + [Blog(|db| + 1, title, body)]
  }

  /** Posts are numbered from 1 in the order in which they were inserted. */
  ghost predicate Numbered(db: seq<Blog>) { forall i :: 0 <= i < |db| ==> db[i].postid == i + 1 }

  class MockDatabase {
    var db: seq<Blog>

    constructor ()
      ensures db == []
    {
      db := [];
    }

    method InsertBlog(title: string, body: string) returns (postid: int)
      modifies this
      ensures db == Insert(old(db), title, body) && postid == |db|
    {
      postid := |db| + 1;
      db := db + [Blog(postid, title, body)];
    }

    method GetBlog(postid: int) returns (blog: Blog)
      ensures blog == Find(db, postid)
    {
      blog := NO_BLOG;
      if 0 <= postid - 1 < |db| {
        blog := db[postid - 1];
      }
    }

    method GetAllBlogs() returns (blogs: seq<Blog>)
      ensures blogs == db
    {
      blogs := db;
    }
  }

  // ---- Pages ----

  /** What the handler answers: a page for a read, or a redirect to a new post. */
  datatype Reply = PostPage(blog: Blog) | ErrorPage | AllPage(blogs: seq<Blog>) | Redirect(location: string)

  function TopStart(): string { "<!DOCTYPE html>\n<html>\n    <head>\n        <meta charset='utf-8'>\n        " }

  function TopEnd(): string { "\n    </head>\n    <body style=\"text-align:center;\">\n" }

  /** What every page of the blog begins with. */
  function Top(title: string): string { TopStart() + ("<title>" + title + "</title>") + TopEnd() }

  function PageTop(): string { Top("Blog Post") + "      " }

  function HeadOne(): string { PageTop() + "<h1>\n" }

  function HeadAll(): string { Top("All Blogs") }

  function PostIdLabel(): string { "</body>\n<div style=\"position: fixed;bottom: 0;right: 0;\">POSTID: " }

  function Rule(): string {
    "<div>-------------------------------------------------------------------------------------</div>"
  }

  /** `std::to_string` of an int. */
  function IntText(n: int): string { if n < 0 then "-" + Decimal(-n) else Decimal(n) }

  function EntryNumber(b: Blog): string { "<div>*****POSTID: " + IntText(b.postid) + "*****</div>" }

  function Heading(title: string): string { "<h1>\n" + title + "</h1>\n" }

  function Paragraph(body: string): string { "<p>\n" + body + "</p>\n" }

  function OneEntry(b: Blog): string {
    hide EntryNumber, Heading, Paragraph, Rule;
    EntryNumber(b) + Heading(b.title) + Paragraph(b.body) + Rule()
  }

  lemma AssocFive(a: string, b: string, c: string, d: string, e: string)
    ensures a + b + c + d + e == a + (b + c + d + e)
  {}

  lemma EntryIsPieces(html: string, b: Blog)
    ensures html + EntryNumber(b) + Heading(b.title) + Paragraph(b.body) + Rule() == html + OneEntry(b)
  {
    hide EntryNumber, Heading, Paragraph, Rule;
    AssocFive(html, EntryNumber(b), Heading(b.title), Paragraph(b.body), Rule());
  }

  function Entries(bs: seq<Blog>): string {
    hide OneEntry;
    if bs == [] then "" else Entries(bs[..|bs| - 1]) + OneEntry(bs[|bs| - 1])
  }

  function Html(r: Reply): string {
    match r
    case ErrorPage =>
      HeadOne() + "Error: Unable to get blog entry from id." + "</h1>\n"
      + "<p>\nPlease use a valid id number</p>\n\n" + "</body>\n</html>\n"
    case PostPage(b) =>
      HeadOne() + (b.title + "</h1>\n") + ("<p>\n" + b.body + "</p>\n")
      + (PostIdLabel() + IntText(b.postid) + "</div></html>\n")
    case AllPage(bs) => HeadAll() + Entries(bs) + "</body>\n</html>\n"
    case Redirect(_) => ""
  }

  function ResponseOf(r: Reply): Response {
    hide Html;
    var body := Html(r);
    var hs := PageHeaders(|body|, "text/html");
    if r.Redirect? then Response(302, Put(hs, "Location", r.location), body) else Response(200, hs, body)
  }

  // ---- The handler ----

  predicate EndsWithSlash(s: string) { s != "" && s[|s| - 1] == '/' }

  function LocationOf(prefix: string, postid: int): string {
    if EndsWithSlash(prefix) then prefix + IntText(postid) else prefix + "/" + IntText(postid)
  }

  function TitleField(): string { "submissiontitle" }

  function BodyField(): string { "submissionbody" }

  function Field(form: map<string, string>, name: string): string { if name in form then form[name] else "" }

  function OnePage(db: seq<Blog>, postid: int): Reply {
    var b := Find(db, postid);
    if b.postid < 0 then ErrorPage else PostPage(b)
  }

  /** The reply to a request; None when `substr` or `stoi` throws. */
  function Handle(prefix: string, db: seq<Blog>, r: Request): Option<Reply> {
    if r.meth.GET? then
      if |r.uri| < |prefix| then None else
      var remain := r.uri[|prefix|..];
      if Contains(prefix + "/", r.uri) then Some(AllPage(db))
      else if |remain| <= 1 || remain[1..] == "" || !AllDigits(remain[1..]) then Some(OnePage(db, -1))
      else if Stoi(remain[1..]).None? then None
      else Some(OnePage(db, Stoi(remain[1..]).value))
    else Some(Redirect(LocationOf(prefix, |db| + 1)))
  }

  /** The store after a request. */
  function After(db: seq<Blog>, r: Request): seq<Blog> {
    if r.meth.GET? then db else
    var form := PairsOf(Decode(r.body));
    Insert(db, Field(form, TitleField()), Field(form, BodyField()))
  }

  function AfterAll(db: seq<Blog>, rs: seq<Request>): seq<Blog>
    decreases |rs|
  {
    if rs == [] then db else AfterAll(After(db, rs[0]), rs[1..])
  }

  class BlogHandler {
    const prefix: string
    const bd: MockDatabase
    var form: map<string, string>

    constructor (prefix: string, db: MockDatabase)
      ensures this.prefix == prefix && bd == db
    {
      this.prefix, bd, form := prefix, db, map[];
    }

    method IsNumber(s: string) returns (b: bool)
      ensures b <==> s != "" && AllDigits(s)
    {
      if s == "" {
        return false;
      }
      var i := 0;
      while i < |s|
        invariant 0 <= i <= |s|
        invariant AllDigits(s[..i])
      {
        if !IsDigit(s[i]) {
          return false;
        }
        assert s[..i + 1] == s[..i] + [s[i]];
        i := i + 1;
      }
      assert s[..i] == s;
      return true;
    }

    method HandleGetOneBlog(postid: int) returns (r: Response)
      ensures r == ResponseOf(OnePage(bd.db, postid))
    {
      hide HeadOne, HeadAll, Rule, PostIdLabel, Entries, PageHeaders, Put, IntText, Decimal;
      var blog := bd.GetBlog(postid);
      var html := HeadOne();
      if blog.postid < 0 {
        html := html + "Error: Unable to get blog entry from id.";
        html := html + "</h1>\n";
        html := html + "<p>\nPlease use a valid id number</p>\n\n";
        html := html + "</body>\n</html>\n";
      } else {
        html := html + (blog.title + "</h1>\n");
        html := html + ("<p>\n" + blog.body + "</p>\n");
        html := html + (PostIdLabel() + IntText(blog.postid) + "</div></html>\n");
      }
      r := PageResponse(html);
    }

    method HandleGetAllBlogs() returns (r: Response)
      ensures r == ResponseOf(AllPage(bd.db))
    {
      hide OneEntry, HeadAll, PageHeaders, HeadOne, PostIdLabel, Put, Decimal, IntText, Rule, EntryNumber, Heading,
           Paragraph;
      var blogs := bd.GetAllBlogs();
      var html := HeadAll();
      var i := 0;
      while i < |blogs|
        invariant 0 <= i <= |blogs|
        invariant html == HeadAll() + Entries(blogs[..i])
      {
        assert blogs[..i + 1][..i] == blogs[..i];
        ghost var before := html;
        html := html + EntryNumber(blogs[i]);
        html := html + Heading(blogs[i].title);
        html := html + Paragraph(blogs[i].body);
        html := html + Rule();
        EntryIsPieces(before, blogs[i]);
        i := i + 1;
      }
      assert blogs[..i] == blogs;
      html := html + "</body>\n</html>\n";
      r := PageResponse(html);
    }

    /** The part that both pages end with. */
    method PageResponse(html: string) returns (r: Response)
      ensures r == Response(200, PageHeaders(|html|, "text/html"), html)
    {
      hide Put, Decimal;
      r := Response(200, [], html);
      r := r.(headers := Put(r.headers, ContentLength(), Decimal(|html|)));
      r := r.(headers := Put(r.headers, ContentType(), "text/html"));
    }

    method HandlePostBlog(title: string, body: string) returns (r: Response)
      modifies bd
      ensures bd.db == Insert(old(bd.db), title, body)
      ensures r == ResponseOf(Redirect(LocationOf(prefix, |bd.db|)))
    {
      hide Put, Decimal, IntText, HeadOne, HeadAll, Rule, PostIdLabel, Entries, ContentLength, ContentType;
      var postid := bd.InsertBlog(title, body);
      r := Response(302, [], "");
      r := r.(headers := Put(r.headers, ContentLength(), Decimal(|r.body|)));
      r := r.(headers := Put(r.headers, ContentType(), "text/html"));
      if EndsWithSlash(prefix) {
        r := r.(headers := Put(r.headers, "Location", prefix + IntText(postid)));
      } else {
        r := r.(headers := Put(r.headers, "Location", prefix + "/" + IntText(postid)));
      }
    }

    method HandleRequest(request: Request) returns (r: Option<Response>)
      modifies this, bd
      ensures bd.db == After(old(bd.db), request)
      ensures var reply := Handle(prefix, old(bd.db), request);
              r == if reply.None? then None else Some(ResponseOf(reply.value))
    {
      hide ResponseOf, OnePage, Decode, PairsOf, Contains, Stoi, AllDigits, Field, LocationOf;
      var decoded := UrlDecode(request.body);
      form := ParseRequestBody(decoded);
      if request.meth.GET? {
        if |request.uri| < |prefix| {
          return None;
        }
        var remain := request.uri[|prefix|..];
        var inside := Occurs(prefix + "/", request.uri);
        if inside {
          var all := HandleGetAllBlogs();
          return Some(all);
        }
        var number := false;
        if |remain| > 1 {
          number := IsNumber(remain[1..]);
        }
        if !number {
          var one := HandleGetOneBlog(-1);
          return Some(one);
        }
        var id := Stoi(remain[1..]);
        if id.None? {
          return None;
        }
        var one := HandleGetOneBlog(id.value);
        return Some(one);
      }
      var title, body := Field(form, TitleField()), Field(form, BodyField());
      var posted := HandlePostBlog(title, body);
      return Some(posted);
    }
  }

  // ---- Reading what was written ----

  lemma {:induction false} AfterAllKeeps(db: seq<Blog>, rs: seq<Request>)
    requires Numbered(db)
    ensures Numbered(AfterAll(db, rs)) && db <= AfterAll(db, rs)
    decreases |rs|
  {
    hide Decode, PairsOf, Field;
    if rs != [] { AfterAllKeeps(After(db, rs[0]), rs[1..]); }
  }

  lemma {:induction false} FirstDigit(n: nat)
    requires n > 0
    ensures AllDigits(Decimal(n)) && Decimal(n) != "" && Decimal(n)[0] != '0'
  {
    DecimalRoundTrip(n);
    if n >= 10 { FirstDigit(n / 10); }
  }

  /** Without its first digit a number is smaller. */
  lemma {:induction false} DropFirstDigit(n: nat)
    requires n > 0
    ensures AllDigits(Decimal(n)[1..]) && DecimalValue(Decimal(n)[1..]) < n
  {
    FirstDigit(n);
    if n < 10 {
      assert Decimal(n)[1..] == "";
    } else {
      var d, p := Decimal(n), Decimal(n / 10);
      DropFirstDigit(n / 10);
      FirstDigit(n / 10);
      assert d[1..] == p[1..] + [d[|d| - 1]];
      DecimalValueAppend(p[1..], d[|d| - 1]);
    }
  }

  lemma StoiOfDigits(s: string)
    requires s != "" && AllDigits(s)
    ensures Stoi(s) == if DecimalValue(s) <= INT_MAX then Some(DecimalValue(s)) else None
  {
    LeadingDigitsOfDigits(s);
    assert IsDigit(s[0]) && SkipSpaces(s) == s;
  }

  lemma LongerIsNotInside(s: string, t: string)
    requires |t| > |s| || (|t| == |s| && t != s)
    ensures !Contains(s, t)
  {
    assert s[0..|s|] == s;
    forall i: nat | i <= |s| ensures !OccursAt(s, t, i) {}
  }

  /** With a final "/" the handler drops the first digit of the id, and no longer finds that post. */
  lemma SlashLosesPost(prefix: string, db: seq<Blog>, id: nat, get: Request)
    requires EndsWithSlash(prefix) && Numbered(db) && 1 <= id <= |db| && id <= INT_MAX
    requires get.meth.GET? && get.uri == LocationOf(prefix, id)
    ensures Handle(prefix, db, get) != Some(PostPage(db[id - 1]))
  {
    var digits := Decimal(id);
    FirstDigit(id);
    DropFirstDigit(id);
    hide Decimal, Contains;
    assert get.uri == prefix + digits && get.uri[|prefix|..] == digits;
    assert get.uri[|prefix|] == digits[0] != (prefix + "/")[|prefix|];
    LongerIsNotInside(prefix + "/", get.uri);
    if |digits| > 1 { StoiOfDigits(digits[1..]); }
  }

  lemma PlainPrefixShowsPost(prefix: string, db: seq<Blog>, id: nat, get: Request)
    requires !EndsWithSlash(prefix) && Numbered(db) && 1 <= id <= |db| && id <= INT_MAX
    requires get.meth.GET? && get.uri == LocationOf(prefix, id)
    ensures Handle(prefix, db, get) == Some(PostPage(db[id - 1]))
  {
    var digits := Decimal(id);
    DecimalRoundTrip(id);
    StoiOfDecimal(id);
    hide Decimal, Contains, Stoi;
    assert get.uri == prefix + ("/" + digits) && get.uri[|prefix|..] == "/" + digits;
    assert ("/" + digits)[1..] == digits;
    LongerIsNotInside(prefix + "/", get.uri);
  }

  /** A GET of a location shows the post with that id, exactly when the prefix does not end in "/". */
  lemma LocationShowsPost(prefix: string, db: seq<Blog>, id: nat, get: Request)
    requires prefix != "" && Numbered(db) && 1 <= id <= |db| && id <= INT_MAX
    requires get.meth.GET? && get.uri == LocationOf(prefix, id)
    ensures Handle(prefix, db, get) == Some(PostPage(db[id - 1])) <==> !EndsWithSlash(prefix)
  {
    hide Handle, LocationOf;
    if EndsWithSlash(prefix) {
      SlashLosesPost(prefix, db, id, get);
    } else {
      PlainPrefixShowsPost(prefix, db, id, get);
    }
  }

  /** Read your writes, over any history: after any requests, a POST, and any further requests, a GET of the
      POST's Location shows the title, the body and the id that the POST stored, exactly when the
      handler's prefix does not end in "/". */
  lemma ReadYourWrites(prefix: string, start: seq<Blog>, before: seq<Request>,
                       post: Request, after: seq<Request>, get: Request)
    requires prefix != "" && Numbered(start) && !post.meth.GET? && get.meth.GET?
    requires |AfterAll(start, before)| < INT_MAX
    requires var db := AfterAll(start, before);
             Handle(prefix, db, post) == Some(Redirect(get.uri))
    ensures var db := AfterAll(start, before);
            var form := PairsOf(Decode(post.body));
            var stored := Blog(|db| + 1, Field(form, TitleField()), Field(form, BodyField()));
            Handle(prefix, AfterAll(After(db, post), after), get) == Some(PostPage(stored)) <==> !EndsWithSlash(prefix)
  {
    hide Decode, PairsOf, Field, LocationOf;
    var db := AfterAll(start, before);
    AfterAllKeeps(start, before);
    var db1 := After(db, post);
    AfterAllKeeps(db1, after);
    var db2 := AfterAll(db1, after);
    assert db2[|db|] == db1[|db|];
    LocationShowsPost(prefix, db2, |db| + 1, get);
  }

  // ---- What every GET is answered with ----

  /** The uri is the prefix, with or without a "/"; the search also takes a prefix without its first byte. */
  predicate AsksForAll(prefix: string, uri: string) {
    uri == prefix || uri == prefix + "/" || (prefix != "" && uri == prefix[1..] + "/")
  }

  /** The number a uri asks for: one byte after the prefix is skipped, and the rest is digits. */
  function AskedId(prefix: string, uri: string): Option<nat> {
    if |uri| > |prefix| + 1 && AllDigits(uri[|prefix| + 1..]) then Some(DecimalValue(uri[|prefix| + 1..])) else None
  }

  lemma InsideIs(prefix: string, uri: string)
    requires |uri| >= |prefix|
    ensures Contains(prefix + "/", uri) <==> AsksForAll(prefix, uri)
  {
    var s := prefix + "/";
    if Contains(s, uri) {
      var i: nat :| i <= |s| && OccursAt(s, uri, i);
      if |uri| == |s| {
        assert s[0..|s|] == s;
      } else if i == 0 {
        assert s[0..|prefix|] == prefix;
      } else if prefix != "" {
        assert i == 1 && s[1..1 + |prefix|] == prefix[1..] + "/";
      }
    }
    if AsksForAll(prefix, uri) {
      assert uri == prefix + "/" ==> OccursAt(s, uri, 0);
      assert uri == prefix ==> OccursAt(s, uri, 0);
      assert prefix != "" && uri == prefix[1..] + "/" ==> OccursAt(s, uri, 1);
    }
  }

  lemma AskedIs(prefix: string, db: seq<Blog>, get: Request)
    requires get.meth.GET? && |get.uri| >= |prefix| && !Contains(prefix + "/", get.uri)
    ensures var id := AskedId(prefix, get.uri);
            Handle(prefix, db, get) == if id.None? then Some(OnePage(db, -1))
                                       else if id.value > INT_MAX then None
                                       else Some(OnePage(db, id.value))
  {
    var remain := get.uri[|prefix|..];
    hide Contains, Stoi, DecimalValue;
    if |remain| > 1 {
      assert remain[1..] == get.uri[|prefix| + 1..];
      if AllDigits(remain[1..]) { StoiOfDigits(remain[1..]); }
    }
  }

  /** Every GET, whatever its uri: all posts for the prefix itself; a post for its number; the error page when no
      number is asked for or no post has it; and an exception for a uri shorter than the prefix and a number
      that is no int. */
  lemma GetAnswers(prefix: string, db: seq<Blog>, get: Request)
    requires get.meth.GET? && Numbered(db)
    ensures var id := AskedId(prefix, get.uri);
            Handle(prefix, db, get) ==
            if |get.uri| < |prefix| then None
            else if AsksForAll(prefix, get.uri) then Some(AllPage(db))
            else if id.None? then Some(ErrorPage)
            else if id.value > INT_MAX then None
            else if 1 <= id.value <= |db| then Some(PostPage(db[id.value - 1]))
            else Some(ErrorPage)
  {
    if |get.uri| >= |prefix| {
      InsideIs(prefix, get.uri);
      if !AsksForAll(prefix, get.uri) { AskedIs(prefix, db, get); }
    }
    hide Contains, AsksForAll, AskedId;
  }

  /** The posts that requests store, numbered on from n. */
  function Posted(n: int, rs: seq<Request>): seq<Blog>
    decreases |rs|
  {
    if rs == [] then []
    else if rs[0].meth.GET? then Posted(n, rs[1..])
    else
      var form := PairsOf(Decode(rs[0].body));
      [Blog(n + 1, Field(form, "submissiontitle"), Field(form, "submissionbody"))] + Posted(n + 1, rs[1..])
  }

  lemma {:induction false} StoreIsPosted(db: seq<Blog>, rs: seq<Request>)
    ensures AfterAll(db, rs) == db + Posted(|db|, rs)
    decreases |rs|
  {
    assert TitleField() == "submissiontitle" && BodyField() == "submissionbody";
    hide Decode, PairsOf, Field, TitleField, BodyField;
    if rs != [] { StoreIsPosted(After(db, rs[0]), rs[1..]); }
  }

  /** The texts stand in s one after another, in this order. */
  ghost predicate InOrder(ts: seq<string>, s: string)
    decreases |ts|
  {
    ts == [] || exists before, after :: s == before + ts[0] + after && InOrder(ts[1..], after)
  }

  function EntriesOf(bs: seq<Blog>): seq<string> {
    hide OneEntry;
    if bs == [] then [] else [OneEntry(bs[0])] + EntriesOf(bs[1..])
  }

  lemma {:induction false} EntriesFirst(b: Blog, bs: seq<Blog>)
    ensures Entries([b] + bs) == OneEntry(b) + Entries(bs)
    decreases |bs|
  {
    hide OneEntry;
    var all := [b] + bs;
    if bs == [] {
      assert all[..0] == [] && all[0] == b;
    } else {
      var p, l := bs[..|bs| - 1], bs[|bs| - 1];
      EntriesFirst(b, p);
      assert all[..|all| - 1] == [b] + p && all[|all| - 1] == l;
    }
  }

  lemma {:induction false} EntriesInOrder(head: string, bs: seq<Blog>, end: string)
    ensures InOrder(EntriesOf(bs), head + (Entries(bs) + end))
    decreases |bs|
  {
    hide OneEntry, Entries;
    if bs != [] {
      assert bs == [bs[0]] + bs[1..];
      EntriesFirst(bs[0], bs[1..]);
      EntriesInOrder("", bs[1..], end);
      var after := Entries(bs[1..]) + end;
      assert "" + after == after;
      assert head + (Entries(bs) + end) == head + OneEntry(bs[0]) + after;
      var ts := EntriesOf(bs);
      assert ts[0] == OneEntry(bs[0]) && ts[1..] == EntriesOf(bs[1..]);
      assert head + (Entries(bs) + end) == head + ts[0] + after && InOrder(ts[1..], after);
    }
  }

  function PageEnd(): string { "</body>\n</html>\n" }

  lemma AllHtml(bs: seq<Blog>)
    ensures Html(AllPage(bs)) == HeadAll() + Entries(bs) + PageEnd()
  {
    hide HeadAll, Entries, HeadOne, PostIdLabel, IntText;
  }

  lemma AllPageInOrder(bs: seq<Blog>)
    ensures InOrder(EntriesOf(bs), Html(AllPage(bs)))
  {
    AllHtml(bs);
    hide InOrder, EntriesOf, Entries, HeadAll, Html, PageEnd;
    EntriesInOrder(HeadAll(), bs, PageEnd());
    Assoc(HeadAll(), Entries(bs), PageEnd());
  }

  /** What a page for all posts shows: the entries of the posts in their order. */
  ghost predicate Lists(r: Response, bs: seq<Blog>) { r.code == 200 && InOrder(EntriesOf(bs), r.body) }

  /** A GET of the prefix, with or without a "/", is answered with all posts. */
  lemma PrefixAsksForAll(prefix: string, db: seq<Blog>, get: Request)
    requires get.meth.GET? && (get.uri == prefix || get.uri == prefix + "/") && Numbered(db)
    ensures Handle(prefix, db, get) == Some(AllPage(db))
  {
    assert AsksForAll(prefix, get.uri);
    hide Handle, AsksForAll, AskedId;
    GetAnswers(prefix, db, get);
  }

  lemma PageLists(bs: seq<Blog>)
    ensures Lists(ResponseOf(AllPage(bs)), bs)
  {
    AllPageInOrder(bs);
    hide InOrder, EntriesOf, Html, PageHeaders;
  }

  /** Over any history: the page that a GET of the prefix is answered with shows every post stored before it, in
      the order in which they were stored, and numbered on. */
  lemma PrefixListsPosts(prefix: string, start: seq<Blog>, before: seq<Request>, get: Request)
    requires get.meth.GET? && (get.uri == prefix || get.uri == prefix + "/") && Numbered(start)
    ensures Handle(prefix, AfterAll(start, before), get) == Some(AllPage(start + Posted(|start|, before)))
    ensures Lists(ResponseOf(AllPage(start + Posted(|start|, before))), start + Posted(|start|, before))
  {
    hide Handle, Posted, ResponseOf, Lists, AfterAll, Numbered;
    StoreIsPosted(start, before);
    AfterAllKeeps(start, before);
    PageLists(start + Posted(|start|, before));
    PrefixAsksForAll(prefix, AfterAll(start, before), get);
  }

  lemma HeadingIs(title: string)
    ensures Heading(title) == "<h1>\n" + title + "</h1>\n"
  {}

  lemma ParagraphIs(body: string)
    ensures Paragraph(body) == "<p>\n" + body + "</p>\n"
  {}

  lemma MarksAre()
    ensures "<div>*****POSTID: " == "<div>*****" + "POSTID: " && "*****</div>" == "*" + "****</div>"
  {}

  lemma Regroup(a: string, b: string, c: string, d: string, e: string)
    ensures (a + b) + c + (d + e) == a + (b + c + d) + e
  {}

  lemma NumberShown(b: Blog)
    ensures IsPart("POSTID: " + IntText(b.postid) + "*", EntryNumber(b))
  {
    hide IntText;
    MarksAre();
    Regroup("<div>*****", "POSTID: ", IntText(b.postid), "*", "****</div>");
  }

  /** The entry of a post shows its number, its title as heading and its text as paragraph. */
  lemma EntryShowsPost(b: Blog)
    ensures IsPart("POSTID: " + IntText(b.postid) + "*", OneEntry(b))
    ensures IsPart("<h1>\n" + b.title + "</h1>\n", OneEntry(b))
    ensures IsPart("<p>\n" + b.body + "</p>\n", OneEntry(b))
  {
    var n, h, p := EntryNumber(b), Heading(b.title), Paragraph(b.body);
    NumberShown(b);
    hide IntText, Rule, EntryNumber, Heading, Paragraph;
    assert OneEntry(b) == "" + n + (h + p + Rule());
    assert OneEntry(b) == n + h + (p + Rule());
    PartOfPart("POSTID: " + IntText(b.postid) + "*", n, OneEntry(b));
    assert IsPart(n, OneEntry(b)) && IsPart(h, OneEntry(b)) && IsPart(p, OneEntry(b));
    HeadingIs(b.title);
    ParagraphIs(b.body);
  }

  lemma TopNames(title: string, rest: string)
    ensures IsPart("<title>" + title + "</title>", Top(title) + rest)
  {
    hide TopStart, TopEnd;
    Assoc(TopStart() + ("<title>" + title + "</title>"), TopEnd(), rest);
  }

  lemma AssocSix(a: string, b: string, c: string, d: string, e: string, f: string)
    ensures a + b + c + d + e + f == a + (b + (c + d + e + f))
  {}

  lemma PostPageSays(b: Blog)
    ensures IsPart("<title>" + "Blog Post" + "</title>", Html(PostPage(b)))
  {
    hide Top, PostIdLabel, IntText, IsPart, HeadAll, Entries;
    var rest := "      " + ("<h1>\n" + (b.title + "</h1>\n") + ("<p>\n" + b.body + "</p>\n")
                            + (PostIdLabel() + IntText(b.postid) + "</div></html>\n"));
    TopNames("Blog Post", rest);
    AssocSix(Top("Blog Post"), "      ", "<h1>\n", b.title + "</h1>\n", "<p>\n" + b.body + "</p>\n",
             PostIdLabel() + IntText(b.postid) + "</div></html>\n");
  }

  lemma AllPageSays(bs: seq<Blog>)
    ensures IsPart("<title>" + "All Blogs" + "</title>", Html(AllPage(bs)))
  {
    hide Top, Entries, IsPart, HeadOne, PostIdLabel, IntText;
    TopNames("All Blogs", Entries(bs) + "</body>\n</html>\n");
    Assoc(Top("All Blogs"), Entries(bs), "</body>\n</html>\n");
  }

  lemma ErrorPageSays()
    ensures IsPart("<h1>\n" + "Error: Unable to get blog entry from id." + "</h1>\n", Html(ErrorPage))
  {
    hide Top, Entries, HeadAll, PostIdLabel, IntText;
    Assoc(PageTop(), "<h1>\n", "Error: Unable to get blog entry from id.");
    Assoc(PageTop(), "<h1>\n" + "Error: Unable to get blog entry from id.", "</h1>\n");
    Assoc(PageTop() + ("<h1>\n" + "Error: Unable to get blog entry from id." + "</h1>\n"),
          "<p>\nPlease use a valid id number</p>\n\n", "</body>\n</html>\n");
  }

  /** Each page says which it is, and the error page what is wrong. */
  lemma PagesSay(b: Blog, bs: seq<Blog>)
    ensures IsPart("<title>" + "Blog Post" + "</title>", Html(PostPage(b)))
    ensures IsPart("<title>" + "All Blogs" + "</title>", Html(AllPage(bs)))
    ensures IsPart("<h1>\n" + "Error: Unable to get blog entry from id." + "</h1>\n", Html(ErrorPage))
  {
    PostPageSays(b);
    AllPageSays(bs);
    ErrorPageSays();
    hide Html, IsPart;
  }

  // ---- What the pages show ----

  lemma ContainsMiddle(s: string, before: string, t: string, after: string)
    requires s == before + t + after
    ensures Contains(s, t)
  {
    assert OccursAt(s, t, |before|);
  }

  lemma PartsShown(top: string, h1: string, title: string, h2: string, p1: string, body: string, p2: string,
                   mark: string, id: string, div: string, end: string)
    ensures var page := top + h1 + (title + h2) + (p1 + body + p2) + (mark + id + (div + end));
            Contains(page, h1 + title + h2) && Contains(page, p1 + body + p2) && Contains(page, mark + id + div)
  {
    hide Contains;
    var page := top + h1 + (title + h2) + (p1 + body + p2) + (mark + id + (div + end));
    var heading, text, number := h1 + title + h2, p1 + body + p2, mark + id + div;
    assert page == top + heading + (text + (number + end));
    assert page == (top + heading) + text + (number + end);
    assert page == (top + heading + text) + number + end;
    ContainsMiddle(page, top, heading, text + (number + end));
    ContainsMiddle(page, top + heading, text, number + end);
    ContainsMiddle(page, top + heading + text, number, end);
  }

  lemma EndOfPage()
    ensures "</div>" + "</html>\n" == "</div></html>\n"
  {}

  /** The page of a post shows its title as the heading, its text as the paragraph, and its id. */
  lemma PageShowsPost(b: Blog)
    ensures Contains(Html(PostPage(b)), "<h1>\n" + b.title + "</h1>\n")
    ensures Contains(Html(PostPage(b)), "<p>\n" + b.body + "</p>\n")
    ensures Contains(Html(PostPage(b)), PostIdLabel() + IntText(b.postid) + "</div>")
  {
    hide Contains, PageTop, PostIdLabel, IntText;
    EndOfPage();
    PartsShown(PageTop(), "<h1>\n", b.title, "</h1>\n", "<p>\n", b.body, "</p>\n",
               PostIdLabel(), IntText(b.postid), "</div>", "</html>\n");
  }

  lemma {:induction false} EntriesShow(bs: seq<Blog>, i: nat) returns (before: string, after: string)
    requires i < |bs|
    ensures Entries(bs) == before + OneEntry(bs[i]) + after
  {
    hide OneEntry;
    var p, l := bs[..|bs| - 1], OneEntry(bs[|bs| - 1]);
    if i == |bs| - 1 {
      before, after := Entries(p), "";
    } else {
      before, after := EntriesShow(p, i);
      after := after + l;
    }
  }

  lemma EntryShown(head: string, before: string, entry: string, after: string, end: string)
    ensures Contains(head + (before + entry + after) + end, entry)
  {
    hide Contains;
    assert head + (before + entry + after) + end == (head + before) + entry + (after + end);
    ContainsMiddle(head + (before + entry + after) + end, head + before, entry, after + end);
  }

  /** The page of all posts shows every post of the store. */
  lemma AllPageShowsEvery(db: seq<Blog>, i: nat)
    requires i < |db|
    ensures Contains(Html(AllPage(db)), OneEntry(db[i]))
  {
    hide Contains, HeadAll, OneEntry, Entries;
    var before, after := EntriesShow(db, i);
    EntryShown(HeadAll(), before, OneEntry(db[i]), after, "</body>\n</html>\n");
  }

  /** The fields of the upload form. */
  function UploadForm(title: string, body: string): seq<Pair> {
    [Pair("submissiontitle", title), Pair("submissionbody", body)]
  }

  lemma FieldIsPlain(form: map<string, string>, name: string)
    requires PlainMap(form)
    ensures IsPlain(Field(form, name))
  {}

  lemma UploadFormIs(title: string, body: string)
    ensures UploadForm(title, body) == [Pair(TitleField(), title), Pair(BodyField(), body)]
  {}

  lemma FieldNames()
    ensures TitleField() != BodyField() && IsPlain(TitleField()) && IsPlain(BodyField())
  {
    assert TitleField()[10] != BodyField()[10];
  }

  lemma PutAllTwo(p: Pair, q: Pair)
    ensures PutAll(map[], [p, q]) == map[p.key := p.value][q.key := q.value]
  {
    var m := map[p.key := p.value];
    assert [p, q][1..] == [q] && [q][1..] == [];
    assert PutAll(m, [q]) == PutAll(m[q.key := q.value], []);
  }

  lemma PlainFormStored(text: string, title: string, body: string)
    requires IsPlain(title) && IsPlain(body) && Submits(text, UploadForm(title, body))
    ensures var form := PairsOf(Decode(text)); Field(form, TitleField()) == title && Field(form, BodyField()) == body
  {
    FieldNames();
    UploadFormIs(title, body);
    hide Decode, PairsOf, Submits, TitleField, BodyField, PutAll, IsPlain, UploadForm;
    var ps := UploadForm(title, body);
    FormRoundTrip(text, ps);
    PutAllTwo(ps[0], ps[1]);
  }

  /** Both texts of the form are stored as they were typed, however the browser spells them, exactly when they
      hold no "=" and no "&". */
  lemma UploadFormStored(text: string, title: string, body: string)
    requires Submits(text, UploadForm(title, body))
    ensures var form := PairsOf(Decode(text));
            Field(form, TitleField()) == title && Field(form, BodyField()) == body <==> IsPlain(title) && IsPlain(body)
  {
    hide Decode, PairsOf, Submits, TitleField, BodyField, IsPlain, Field, UploadForm, PlainMap;
    var form := PairsOf(Decode(text));
    PairsArePlain(Decode(text));
    FieldIsPlain(form, TitleField());
    FieldIsPlain(form, BodyField());
    if IsPlain(title) && IsPlain(body) { PlainFormStored(text, title, body); }
  }

  /** From browser to page: a GET of the Location that answers the upload form shows the title and the text
      that were typed, exactly when neither holds "=" or "&". */
  lemma FormPostedIsShown(prefix: string, start: seq<Blog>, before: seq<Request>, post: Request, after: seq<Request>,
                          get: Request, title: string, body: string)
    requires prefix != "" && !EndsWithSlash(prefix) && Numbered(start) && !post.meth.GET? && get.meth.GET?
    requires |AfterAll(start, before)| < INT_MAX
    requires Submits(post.body, UploadForm(title, body))
    requires Handle(prefix, AfterAll(start, before), post) == Some(Redirect(get.uri))
    ensures var db := AfterAll(start, before);
            (Handle(prefix, AfterAll(After(db, post), after), get) == Some(PostPage(Blog(|db| + 1, title, body))))
            <==> (IsPlain(title) && IsPlain(body))
  {
    hide Decode, PairsOf, Submits, Field, Handle, After, AfterAll, UploadForm, EndsWithSlash, Numbered, IsPlain;
    UploadFormStored(post.body, title, body);
    ReadYourWrites(prefix, start, before, post, after, get);
  }

  /** The redirect a client gets carries that location. */
  lemma RedirectCarriesLocation(location: string)
    ensures Lookup(ResponseOf(Redirect(location)).headers, "Location") == Some(location)
    ensures ResponseOf(Redirect(location)).code == 302
  {
    hide Put, PageHeaders, Lookup, Sorted, HeadOne, HeadAll, Rule, PostIdLabel, Entries, IntText, ContentLength,
         ContentType, Decimal, Less;
    PageHeadersAre(0, "text/html");
    PutLookup(PageHeaders(0, "text/html"), "Location", location, "Location");
  }
}
