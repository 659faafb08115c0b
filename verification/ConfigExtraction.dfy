/** The flag machine of the configuration parser that fills the location tables. It looks at every
    token, comments and braces included, before the recognizer does. */
module ConfigExtraction {
  import opened Text

  /** The fields of an `NginxConfig` other than its statements. */
  datatype Tables = Tables(
    port: int,
    statics: map<string, string>,
    echos: set<string>,
    statuses: set<string>,
    proxies: map<string, (string, int)>,
    redirects: map<string, string>,
    healths: set<string>,
    uploadForms: set<string>,
    blogIps: map<string, string>,
    blogPorts: map<string, string>,
    blogUsernames: map<string, string>,
    blogPasswords: map<string, string>,
    handlerTypes: seq<string>)

  const NO_TABLES: Tables := Tables(-1, map[], {}, {}, map[], map[], {}, {}, map[], map[], map[], map[], [])

  /** The flags and strings that `Parse` keeps between tokens. */
  datatype Flags = Flags(
    location: string,
    proxyHost: string,
    seenLocation: bool,
    expectHandler: bool,
    savePort: bool,
    expectRoot: bool,
    saveRoot: bool,
    expectProxyHost: bool,
    saveProxyHost: bool,
    expectProxyPort: bool,
    saveProxyPort: bool,
    expectRedirectHost: bool,
    saveRedirectHost: bool,
    expectBlog: bool,
    saveBlogIp: bool,
    saveBlogPort: bool,
    saveBlogUsername: bool,
    saveBlogPassword: bool)

  const NO_FLAGS: Flags := Flags("", "", false, false, false, false, false, false, false, false, false,
                                 false, false, false, false, false, false, false)

  /** `seen` is the set `seen_handlers`. */
  datatype Extractor = Extractor(tables: Tables, flags: Flags, seen: set<string>)

  /** After a token: the new state and the token as the recognizer sees it; or an exception that leaves
      `Parse`; or the end of a bool function without a return. */
  datatype Observed = Seen(ex: Extractor, text: string) | Threw | Undefined

  // ---- The words the parser knows ----

  datatype HandlerType =
    | EchoType | StaticType | StatusType | ProxyType | RedirectType | HealthType | UploadFormType | BlogType

  function TypeName(h: HandlerType): string {
    match h
    case EchoType => "EchoHandler"
    case StaticType => "StaticHandler"
    case StatusType => "StatusHandler"
    case ProxyType => "ProxyHandler"
    case RedirectType => "RedirectHandler"
    case HealthType => "HealthHandler"
    case UploadFormType => "UploadFormHandler"
    case BlogType => "BlogHandler"
  }

  function TypeOf(text: string): (h: Option<HandlerType>)
    ensures h.Some? ==> text == TypeName(h.value)
  {
    if text == "StaticHandler" then Some(StaticType)
    else if text == "RedirectHandler" then Some(RedirectType)
    else if text == "ProxyHandler" then Some(ProxyType)
    else if text == "BlogHandler" then Some(BlogType)
    else if text == "EchoHandler" then Some(EchoType)
    else if text == "StatusHandler" then Some(StatusType)
    else if text == "HealthHandler" then Some(HealthType)
    else if text == "UploadFormHandler" then Some(UploadFormType)
    else None
  }

  lemma TypeNames(h: HandlerType)
    ensures TypeOf(TypeName(h)) == Some(h)
  {}

  datatype Keyword = PortWord | LocationWord | RootWord | HostWord | PasswordWord | UsernameWord

  function KeywordOf(text: string): Option<Keyword> {
    if text == "port" then Some(PortWord)
    else if text == "location" then Some(LocationWord)
    else if text == "root" then Some(RootWord)
    else if text == "host" then Some(HostWord)
    else if text == "password" then Some(PasswordWord)
    else if text == "username" then Some(UsernameWord)
    else None
  }

  // ---- Pieces of the token ----

  /** `token.substr(1, token.size() - 2)`, which throws on an empty token. */
  function Unquote(text: string): Option<string> {
    if text == "" then None
    else if |text| == 1 then Some("")
    else Some(text[1..|text| - 1])
  }

  function FindColon(text: string): Option<nat> {
    if text == "" then None
    else if text[0] == ':' then Some(0)
    else var p := FindColon(text[1..]); if p.Some? then Some(p.value + 1) else None
  }

  lemma {:induction false} FindColonInside(text: string)
    ensures FindColon(text).Some? ==> FindColon(text).value < |text| && text[FindColon(text).value] == ':'
    ensures FindColon(text).None? ==> ':' !in text
  {
    if text != "" { FindColonInside(text[1..]); }
  }

  /** What follows the first colon, or everything. */
  function AfterColon(text: string): string {
    FindColonInside(text);
    if FindColon(text).Some? then text[FindColon(text).value + 1..] else text
  }

  const MAX_PORT: int := 65535

  /** `SetConfigPortNumberFromToken`: anything but a port number leaves the port alone. */
  function PortFrom(text: string, port: int): int {
    var n := Stoi(AfterColon(text));
    if n.Some? && 0 <= n.value <= MAX_PORT then n.value else port
  }

  lemma {:induction false} FindColonBehind(front: string, rest: string)
    requires ':' !in front
    ensures FindColon(front + ":" + rest) == Some(|front|) && AfterColon(front + ":" + rest) == rest
  {
    var text := front + ":" + rest;
    if front != "" {
      FindColonBehind(front[1..], rest);
      assert text[1..] == front[1..] + ":" + rest;
    }
  }

  lemma NoColon(text: string)
    requires ':' !in text
    ensures AfterColon(text) == text
  {
    FindColonInside(text);
  }

  lemma DecimalHasNoColon(n: nat)
    ensures ':' !in Decimal(n)
  {
    DecimalRoundTrip(n);
    hide Decimal;
  }

  /** A port is a number up to 65535, alone or behind the first colon; any other number changes nothing. */
  lemma PortsRead(front: string, n: nat, port: int)
    requires ':' !in front
    ensures PortFrom(Decimal(n), port) == if n <= 65535 then n else port
    ensures PortFrom(front + ":" + Decimal(n), port) == if n <= 65535 then n else port
  {
    DecimalHasNoColon(n);
    NoColon(Decimal(n));
    FindColonBehind(front, Decimal(n));
    StoiOfDecimal(n);
    hide AfterColon, Stoi, Decimal;
  }

  lemma TypeIsLong(text: string)
    ensures TypeOf(text).Some? ==> |text| >= 11
  {}

  lemma OtherTexts()
    ensures KeywordOf("{").None? && KeywordOf("}").None? && KeywordOf(";").None? && KeywordOf("").None?
    ensures TypeOf("{").None? && TypeOf("}").None? && TypeOf(";").None? && TypeOf("").None?
    ensures Unquote(";") == Some("")
  {
    TypeIsLong("{");
    TypeIsLong("}");
    TypeIsLong(";");
    TypeIsLong("");
  }

  // ---- The steps of one token, in the order of the source ----

  function SavePort(ex: Extractor, text: string): Extractor {
    if ex.flags.savePort then
      ex.(tables := ex.tables.(port := PortFrom(text, ex.tables.port)), flags := ex.flags.(savePort := false))
    else ex
  }

  function SaveProxyPort(ex: Extractor, text: string): Observed {
    if !ex.flags.saveProxyPort then Seen(ex, text) else
    var n := Stoi(AfterColon(text));
    var whole := Stoi(text);
    if n.None? then Undefined
    else if !(0 <= n.value <= MAX_PORT) || whole.None? then Threw
    else
      var proxy := (ex.flags.proxyHost, whole.value);
      Seen(ex.(tables := ex.tables.(proxies := ex.tables.proxies[ex.flags.location := proxy]),
               flags := ex.flags.(saveProxyPort := false, location := "")), text)
  }

  lemma StoiOfStart(a: nat, rest: string)
    requires rest != "" && !IsDigit(rest[0])
    ensures Stoi(Decimal(a) + rest) == if a <= 2147483647 then Some(a) else None
  {
    DecimalRoundTrip(a);
    StoiReads("", "", Decimal(a), rest);
    hide Decimal, Stoi, DecimalValue;
    assert "" + ("" + (Decimal(a) + rest)) == Decimal(a) + rest;
  }

  lemma ColonIsNoDigit(rest: string)
    ensures ":" + rest != "" && !IsDigit((":" + rest)[0])
  {}

  /** Of a proxy's port with a colon in it, the number behind the colon is checked and the one before it is stored. */
  lemma ProxyPortWithColon(ex: Extractor, a: nat, b: nat)
    requires ex.flags.saveProxyPort
    ensures var o := SaveProxyPort(ex, Decimal(a) + ":" + Decimal(b));
            && (o.Seen? <==> a <= 2147483647 && b <= 65535)
            && (o.Seen? ==>
                  o.ex.tables == ex.tables.(proxies := ex.tables.proxies[ex.flags.location := (ex.flags.proxyHost, a)]))
  {
    hide FindColon, AfterColon, Stoi, Decimal;
    var text := Decimal(a) + ":" + Decimal(b);
    DecimalHasNoColon(a);
    FindColonBehind(Decimal(a), Decimal(b));
    StoiOfDecimal(b);
    ColonIsNoDigit(Decimal(b));
    StoiOfStart(a, ":" + Decimal(b));
    Assoc(Decimal(a), ":", Decimal(b));
    assert Stoi(AfterColon(text)) == Stoi(Decimal(b)) && Stoi(text) == Stoi(Decimal(a) + (":" + Decimal(b)));
  }

  /** The value of a static root is unquoted for good: the recognizer gets the unquoted token. */
  function SaveRoot(ex: Extractor, text: string): Observed {
    if !ex.flags.saveRoot then Seen(ex, text) else
    var root := Unquote(text);
    if root.None? then Threw
    else Seen(ex.(tables := ex.tables.(statics := ex.tables.statics[ex.flags.location := root.value]),
                 flags := ex.flags.(expectHandler := false, saveRoot := false, expectRoot := false,
                                    seenLocation := false, location := "")), root.value)
  }

  function SaveProxyHost(ex: Extractor, text: string): Observed {
    if !ex.flags.saveProxyHost then Seen(ex, text) else
    var host := Unquote(text);
    if host.None? then Threw
    else Seen(ex.(flags := ex.flags.(proxyHost := host.value, expectProxyPort := true, expectHandler := false,
                                     expectProxyHost := false, saveProxyHost := false, seenLocation := false)), text)
  }

  function SaveRedirectHost(ex: Extractor, text: string): Observed {
    if !ex.flags.saveRedirectHost then Seen(ex, text) else
    var host := Unquote(text);
    if host.None? then Threw
    else Seen(ex.(tables := ex.tables.(redirects := ex.tables.redirects[ex.flags.location := host.value]),
                 flags := ex.flags.(expectRedirectHost := false, expectHandler := false, expectProxyPort := false,
                                    saveRedirectHost := false, seenLocation := false)), text)
  }

  function SaveBlogIp(ex: Extractor, text: string): Observed {
    if !ex.flags.saveBlogIp then Seen(ex, text) else
    var v := Unquote(text);
    if v.None? then Threw
    else Seen(ex.(tables := ex.tables.(blogIps := ex.tables.blogIps[ex.flags.location := v.value]),
                 flags := ex.flags.(saveBlogIp := false)), text)
  }

  function SaveBlogPort(ex: Extractor, text: string): Observed {
    if !ex.flags.saveBlogPort then Seen(ex, text) else
    var v := Unquote(text);
    if v.None? then Threw
    else Seen(ex.(tables := ex.tables.(blogPorts := ex.tables.blogPorts[ex.flags.location := v.value]),
                 flags := ex.flags.(saveBlogPort := false)), text)
  }

  function SaveBlogUsername(ex: Extractor, text: string): Observed {
    if !ex.flags.saveBlogUsername then Seen(ex, text) else
    var v := Unquote(text);
    if v.None? then Threw
    else Seen(ex.(tables := ex.tables.(blogUsernames := ex.tables.blogUsernames[ex.flags.location := v.value]),
                 flags := ex.flags.(saveBlogUsername := false)), text)
  }

  function SaveBlogPassword(ex: Extractor, text: string): Observed {
    if !ex.flags.saveBlogPassword then Seen(ex, text) else
    var v := Unquote(text);
    if v.None? then Threw
    else Seen(ex.(tables := ex.tables.(blogPasswords := ex.tables.blogPasswords[ex.flags.location := v.value]),
                 flags := ex.flags.(saveBlogPassword := false)), text)
  }

  function NoteHandler(ex: Extractor, text: string): Extractor {
    ex.(tables := if text in ex.seen then ex.tables else ex.tables.(handlerTypes := ex.tables.handlerTypes + [text]),
        seen := ex.seen + {text})
  }

  function EndLocation(f: Flags): Flags { f.(location := "", seenLocation := false, expectHandler := false) }

  /** A handler without a block of its own is recorded at once; the others wait for their values. */
  function Enter(ex: Extractor, h: HandlerType): Extractor {
    var t, f := ex.tables, ex.flags;
    match h
    case StaticType => ex.(flags := f.(expectRoot := true))
    case RedirectType => ex.(flags := f.(expectRedirectHost := true))
    case ProxyType => ex.(flags := f.(expectProxyHost := true))
    case BlogType => ex.(flags := f.(expectBlog := true))
    case EchoType => ex.(tables := t.(echos := t.echos + {f.location}), flags := EndLocation(f))
    case StatusType => ex.(tables := t.(statuses := t.statuses + {f.location}), flags := EndLocation(f))
    case HealthType => ex.(tables := t.(healths := t.healths + {f.location}), flags := EndLocation(f))
    case UploadFormType => ex.(tables := t.(uploadForms := t.uploadForms + {f.location}), flags := EndLocation(f))
  }

  function SaveHandler(ex: Extractor, text: string): Extractor {
    if !ex.flags.expectHandler then ex else
    var e := NoteHandler(ex, text);
    if TypeOf(text).None? then e else Enter(e, TypeOf(text).value)
  }

  function SaveLocation(ex: Extractor, text: string): Observed {
    if !ex.flags.seenLocation then Seen(ex, text) else
    var v := Unquote(text);
    if v.None? then Threw
    else Seen(ex.(flags := ex.flags.(location := v.value, expectHandler := true, seenLocation := false)), text)
  }

  /** The flag a keyword raises. */
  datatype Flag = SavePortFlag | SeenLocationFlag | SaveRootFlag | SaveProxyHostFlag | SaveProxyPortFlag
    | SaveRedirectHostFlag | SaveBlogIpFlag | SaveBlogPortFlag | SaveBlogPasswordFlag | SaveBlogUsernameFlag

  function FlagFor(f: Flags, w: Option<Keyword>): Option<Flag> {
    if w == Some(PortWord) && !f.expectProxyPort && !f.expectBlog then Some(SavePortFlag)
    else if w == Some(LocationWord) then Some(SeenLocationFlag)
    else if f.expectRoot && w == Some(RootWord) then Some(SaveRootFlag)
    else if f.expectProxyHost && w == Some(HostWord) then Some(SaveProxyHostFlag)
    else if f.expectProxyPort && w == Some(PortWord) then Some(SaveProxyPortFlag)
    else if f.expectRedirectHost && w == Some(HostWord) then Some(SaveRedirectHostFlag)
    else if f.expectBlog && w == Some(HostWord) then Some(SaveBlogIpFlag)
    else if f.expectBlog && w == Some(PortWord) then Some(SaveBlogPortFlag)
    else if f.expectBlog && w == Some(PasswordWord) then Some(SaveBlogPasswordFlag)
    else if f.expectBlog && w == Some(UsernameWord) then Some(SaveBlogUsernameFlag)
    else None
  }

  /** Which value each word asks for, by what is expected when it comes: a location always, a port of the proxy, else of
      the blog, else of the server; a host of the proxy, else of the redirect, else of the blog; nothing by other words. */
  lemma WordsRaise(f: Flags, text: string)
    ensures FlagFor(f, KeywordOf("location")) == Some(SeenLocationFlag)
    ensures FlagFor(f, KeywordOf("port")) == Some(if f.expectProxyPort then SaveProxyPortFlag
                                                  else if f.expectBlog then SaveBlogPortFlag else SavePortFlag)
    ensures FlagFor(f, KeywordOf("host")) == if f.expectProxyHost then Some(SaveProxyHostFlag)
                                             else if f.expectRedirectHost then Some(SaveRedirectHostFlag)
                                             else if f.expectBlog then Some(SaveBlogIpFlag) else None
    ensures FlagFor(f, KeywordOf("root")) == if f.expectRoot then Some(SaveRootFlag) else None
    ensures FlagFor(f, KeywordOf("username")) == if f.expectBlog then Some(SaveBlogUsernameFlag) else None
    ensures FlagFor(f, KeywordOf("password")) == if f.expectBlog then Some(SaveBlogPasswordFlag) else None
    ensures text !in ["location", "port", "host", "root", "username", "password"] ==>
              FlagFor(f, KeywordOf(text)).None?
  {}

  lemma ProxyHostEnds(ex: Extractor, text: string)
    requires ex.flags.saveProxyHost && text != ""
    ensures var f := SaveProxyHost(ex, text).ex.flags;
            FlagFor(f, Some(PortWord)) == Some(SaveProxyPortFlag) && !f.expectProxyHost && !f.expectHandler
  {}

  lemma RedirectHostEnds(ex: Extractor, text: string)
    requires ex.flags.saveRedirectHost && text != "" && !ex.flags.expectBlog && !ex.flags.expectProxyHost
    ensures var f := SaveRedirectHost(ex, text).ex.flags;
            FlagFor(f, Some(PortWord)) == Some(SavePortFlag) && FlagFor(f, Some(HostWord)).None? && !f.expectHandler
  {}

  lemma RootEnds(ex: Extractor, text: string)
    requires ex.flags.saveRoot && text != ""
    ensures var f := SaveRoot(ex, text).ex.flags;
            FlagFor(f, Some(RootWord)).None? && f.location == "" && !f.expectHandler
  {}

  function Raise(f: Flags, flag: Flag): Flags {
    match flag
    case SavePortFlag => f.(savePort := true)
    case SeenLocationFlag => f.(seenLocation := true)
    case SaveRootFlag => f.(saveRoot := true)
    case SaveProxyHostFlag => f.(saveProxyHost := true)
    case SaveProxyPortFlag => f.(saveProxyPort := true)
    case SaveRedirectHostFlag => f.(saveRedirectHost := true)
    case SaveBlogIpFlag => f.(saveBlogIp := true)
    case SaveBlogPortFlag => f.(saveBlogPort := true)
    case SaveBlogPasswordFlag => f.(saveBlogPassword := true)
    case SaveBlogUsernameFlag => f.(saveBlogUsername := true)
  }

  function RaiseFlags(ex: Extractor, text: string): Extractor {
    var flag := FlagFor(ex.flags, KeywordOf(text));
    if flag.None? then ex else ex.(flags := Raise(ex.flags, flag.value))
  }

  /** The values that a flag raised by the token before asks for. */
  function SaveValues(ex: Extractor, text: string): Observed {
    var a := SaveProxyPort(SavePort(ex, text), text);
    if !a.Seen? then a else
    var b := SaveRoot(a.ex, a.text);
    if !b.Seen? then b else
    var c := SaveProxyHost(b.ex, b.text);
    if !c.Seen? then c else
    SaveRedirectHost(c.ex, c.text)
  }

  function SaveBlogValues(ex: Extractor, text: string): Observed {
    var a := SaveBlogIp(ex, text);
    if !a.Seen? then a else
    var b := SaveBlogPort(a.ex, a.text);
    if !b.Seen? then b else
    var c := SaveBlogUsername(b.ex, b.text);
    if !c.Seen? then c else
    SaveBlogPassword(c.ex, c.text)
  }

  /** Everything `Parse` does with a token before it looks at the token's type. */
  function Observe(ex: Extractor, text: string): Observed {
    var a := SaveValues(ex, text);
    if !a.Seen? then a else
    var b := SaveBlogValues(a.ex, a.text);
    if !b.Seen? then b else
    var c := SaveLocation(SaveHandler(b.ex, b.text), b.text);
    if !c.Seen? then c else
    Seen(RaiseFlags(c.ex, c.text), c.text)
  }

  /** What a closing brace resets. */
  function CloseBlock(ex: Extractor): Extractor {
    ex.(flags := NO_FLAGS.(location := ex.flags.location, proxyHost := ex.flags.proxyHost))
  }

  // ---- What every run keeps ----

  ghost predicate NoDuplicates(s: seq<string>) { forall i, j :: 0 <= i < j < |s| ==> s[i] != s[j] }

  /** The list has no duplicates and the same members as the set. */
  ghost predicate ListedOnce(ts: seq<string>, seen: set<string>) {
    NoDuplicates(ts) && forall s :: s in seen <==> s in ts
  }

  /** Every table that has an entry has its handler type among the types. */
  ghost predicate TypesRecorded(t: Tables, types: set<string>) {
    && (t.echos != {} ==> TypeName(EchoType) in types)
    && (t.statics != map[] ==> TypeName(StaticType) in types)
    && (t.statuses != {} ==> TypeName(StatusType) in types)
    && (t.proxies != map[] ==> TypeName(ProxyType) in types)
    && (t.redirects != map[] ==> TypeName(RedirectType) in types)
    && (t.healths != {} ==> TypeName(HealthType) in types)
    && (t.uploadForms != {} ==> TypeName(UploadFormType) in types)
    && (t.blogIps != map[] ==> TypeName(BlogType) in types)
  }

  /** A flag that leads to an entry is raised only after its handler type was noted. */
  ghost predicate FlagsJustified(f: Flags, seen: set<string>) {
    && (f.expectRoot || f.saveRoot ==> TypeName(StaticType) in seen)
    && (f.expectRedirectHost || f.saveRedirectHost ==> TypeName(RedirectType) in seen)
    && (f.expectProxyHost || f.saveProxyHost || f.expectProxyPort || f.saveProxyPort ==> TypeName(ProxyType) in seen)
    && (f.expectBlog || f.saveBlogIp ==> TypeName(BlogType) in seen)
  }

  ghost predicate Inv(ex: Extractor) {
    && ListedOnce(ex.tables.handlerTypes, ex.seen)
    && TypesRecorded(ex.tables, ex.seen)
    && FlagsJustified(ex.flags, ex.seen)
  }

  lemma PortKeepsInv(ex: Extractor, text: string)
    requires Inv(ex)
    ensures SaveProxyPort(SavePort(ex, text), text).Seen? ==> Inv(SaveProxyPort(SavePort(ex, text), text).ex)
  {
    hide ListedOnce, TypeName, PortFrom, Stoi, AfterColon;
  }

  lemma RootKeepsInv(ex: Extractor, text: string)
    requires Inv(ex)
    ensures SaveRoot(ex, text).Seen? ==> Inv(SaveRoot(ex, text).ex)
  {
    hide ListedOnce, TypeName, Unquote, KeywordOf;
  }

  lemma HostKeepsInv(ex: Extractor, text: string)
    requires Inv(ex)
    ensures SaveProxyHost(ex, text).Seen? ==> Inv(SaveProxyHost(ex, text).ex)
    ensures SaveRedirectHost(ex, text).Seen? ==> Inv(SaveRedirectHost(ex, text).ex)
  {
    hide ListedOnce, TypeName, Unquote, KeywordOf;
  }

  lemma SaveValuesKeepsInv(ex: Extractor, text: string)
    requires Inv(ex)
    ensures SaveValues(ex, text).Seen? ==> Inv(SaveValues(ex, text).ex)
  {
    hide Inv, SavePort, SaveProxyPort, SaveRoot, SaveProxyHost, SaveRedirectHost;
    PortKeepsInv(ex, text);
    var a := SaveProxyPort(SavePort(ex, text), text);
    if a.Seen? {
      RootKeepsInv(a.ex, a.text);
      var b := SaveRoot(a.ex, a.text);
      if b.Seen? {
        HostKeepsInv(b.ex, b.text);
        var c := SaveProxyHost(b.ex, b.text);
        if c.Seen? { HostKeepsInv(c.ex, c.text); }
      }
    }
  }

  lemma BlogIpKeepsInv(ex: Extractor, text: string)
    requires Inv(ex)
    ensures SaveBlogIp(ex, text).Seen? ==> Inv(SaveBlogIp(ex, text).ex)
    ensures SaveBlogPort(ex, text).Seen? ==> Inv(SaveBlogPort(ex, text).ex)
  {
    hide ListedOnce, TypeName, Unquote, KeywordOf;
  }

  lemma BlogAccountKeepsInv(ex: Extractor, text: string)
    requires Inv(ex)
    ensures SaveBlogUsername(ex, text).Seen? ==> Inv(SaveBlogUsername(ex, text).ex)
    ensures SaveBlogPassword(ex, text).Seen? ==> Inv(SaveBlogPassword(ex, text).ex)
  {
    hide ListedOnce, TypeName, Unquote, KeywordOf;
  }

  lemma SaveBlogValuesKeepsInv(ex: Extractor, text: string)
    requires Inv(ex)
    ensures SaveBlogValues(ex, text).Seen? ==> Inv(SaveBlogValues(ex, text).ex)
  {
    hide Inv, SaveBlogIp, SaveBlogPort, SaveBlogUsername, SaveBlogPassword;
    BlogIpKeepsInv(ex, text);
    var a := SaveBlogIp(ex, text);
    if a.Seen? {
      BlogIpKeepsInv(a.ex, a.text);
      var b := SaveBlogPort(a.ex, a.text);
      if b.Seen? {
        BlogAccountKeepsInv(b.ex, b.text);
        var c := SaveBlogUsername(b.ex, b.text);
        if c.Seen? { BlogAccountKeepsInv(c.ex, c.text); }
      }
    }
  }

  lemma ListedOnceAppend(ts: seq<string>, seen: set<string>, text: string)
    requires ListedOnce(ts, seen)
    ensures ListedOnce(if text in seen then ts else ts + [text], seen + {text})
  {
    if text !in seen {
      forall s ensures s in seen + {text} <==> s in ts + [text] {}
    }
  }

  lemma NoteHandlerKeepsInv(ex: Extractor, text: string)
    requires Inv(ex)
    ensures Inv(NoteHandler(ex, text))
  {
    hide ListedOnce, TypeName;
    ListedOnceAppend(ex.tables.handlerTypes, ex.seen, text);
  }

  lemma EnterKeepsInv(ex: Extractor, h: HandlerType)
    requires Inv(ex) && TypeName(h) in ex.seen
    ensures Inv(Enter(ex, h))
  {
    hide ListedOnce, TypeName;
    match h
    case StaticType =>
    case RedirectType =>
    case ProxyType =>
    case BlogType =>
    case EchoType =>
    case StatusType =>
    case HealthType =>
    case UploadFormType =>
  }

  lemma SaveHandlerKeepsInv(ex: Extractor, text: string)
    requires Inv(ex)
    ensures Inv(SaveHandler(ex, text))
  {
    NoteHandlerKeepsInv(ex, text);
    hide Inv, Enter, TypeName;
    if ex.flags.expectHandler && TypeOf(text).Some? {
      EnterKeepsInv(NoteHandler(ex, text), TypeOf(text).value);
    }
  }

  lemma LocationKeepsInv(ex: Extractor, text: string)
    requires Inv(ex)
    ensures SaveLocation(ex, text).Seen? ==> Inv(SaveLocation(ex, text).ex)
  {
    hide ListedOnce, TypeName, TypesRecorded, Unquote;
  }

  /** The expectation a flag answers. */
  predicate Expected(f: Flags, flag: Flag) {
    match flag
    case SaveRootFlag => f.expectRoot
    case SaveProxyHostFlag => f.expectProxyHost
    case SaveProxyPortFlag => f.expectProxyPort
    case SaveRedirectHostFlag => f.expectRedirectHost
    case SaveBlogIpFlag => f.expectBlog
    case _ => true
  }

  lemma FlagForIsExpected(f: Flags, w: Option<Keyword>)
    ensures FlagFor(f, w).Some? ==> Expected(f, FlagFor(f, w).value)
  {}

  lemma RaiseKeepsInv(f: Flags, seen: set<string>, flag: Flag)
    requires FlagsJustified(f, seen) && Expected(f, flag)
    ensures FlagsJustified(Raise(f, flag), seen)
  {
    hide TypeName;
    match flag
    case SavePortFlag =>
    case SeenLocationFlag =>
    case SaveRootFlag =>
    case SaveProxyHostFlag =>
    case SaveProxyPortFlag =>
    case SaveRedirectHostFlag =>
    case SaveBlogIpFlag =>
    case SaveBlogPortFlag =>
    case SaveBlogPasswordFlag =>
    case SaveBlogUsernameFlag =>
  }

  lemma RaiseFlagsKeepsInv(ex: Extractor, text: string)
    requires Inv(ex)
    ensures Inv(RaiseFlags(ex, text))
  {
    hide ListedOnce, TypeName, TypesRecorded, FlagsJustified, KeywordOf, FlagFor, Raise;
    var flag := FlagFor(ex.flags, KeywordOf(text));
    FlagForIsExpected(ex.flags, KeywordOf(text));
    if flag.Some? { RaiseKeepsInv(ex.flags, ex.seen, flag.value); }
  }

  /** No handler type is listed twice, and every recorded location has its type listed, after any token. */
  lemma ObserveKeepsInv(ex: Extractor, text: string)
    requires Inv(ex)
    ensures Observe(ex, text).Seen? ==> Inv(Observe(ex, text).ex)
  {
    hide SaveValues, SaveBlogValues, SaveHandler, SaveLocation, RaiseFlags, Inv;
    SaveValuesKeepsInv(ex, text);
    var a := SaveValues(ex, text);
    if a.Seen? {
      SaveBlogValuesKeepsInv(a.ex, a.text);
      var b := SaveBlogValues(a.ex, a.text);
      if b.Seen? {
        SaveHandlerKeepsInv(b.ex, b.text);
        LocationKeepsInv(SaveHandler(b.ex, b.text), b.text);
        var c := SaveLocation(SaveHandler(b.ex, b.text), b.text);
        if c.Seen? { RaiseFlagsKeepsInv(c.ex, c.text); }
      }
    }
  }

  lemma CloseBlockKeepsInv(ex: Extractor)
    requires Inv(ex)
    ensures Inv(CloseBlock(ex))
  {}

  // ---- Tokens that change nothing but the port ----

  /** A state in which no location is being read. */
  predicate Idle(ex: Extractor) {
    ex.flags == NO_FLAGS.(location := ex.flags.location, proxyHost := ex.flags.proxyHost, savePort := ex.flags.savePort)
  }

  /** Outside a location, only the token "location" starts one; any other token passes unchanged. */
  lemma IdlePasses(ex: Extractor, text: string)
    requires Idle(ex) && text != "location"
    ensures Observe(ex, text).Seen? && Observe(ex, text).text == text && Idle(Observe(ex, text).ex)
    ensures Observe(ex, text).ex.tables == ex.tables.(port := Observe(ex, text).ex.tables.port)
  {}
}
