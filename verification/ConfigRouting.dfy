/** From the text of a configuration to the handlers the dispatcher registers for it. */
module ConfigRouting {
  import opened Text
  import opened ConfigExtraction
  import opened ConfigParsing
  import opened ConfigProperties
  import opened ConfigDeclarations
  import opened ConfigTables
  import opened ConfigComments
  import opened ConfigLexer
  import opened ConfigGrammar
  import opened Dispatching
  import ConfigText

  // ---- What the tables say about one path ----

  datatype View = View(
    echo: bool, status: bool, health: bool, form: bool,
    root: Option<string>, url: Option<string>, proxy: Option<(string, int)>, blog: BlogView)

  datatype BlogView = BlogView(ip: Option<string>, dbPort: Option<string>,
                               username: Option<string>, password: Option<string>)

  const NOTHING: View := View(false, false, false, false, None, None, None, BlogView(None, None, None, None))

  function At<T>(m: map<string, T>, p: string): Option<T> { if p in m then Some(m[p]) else None }

  function BlogAt(t: Tables, p: string): BlogView {
    BlogView(At(t.blogIps, p), At(t.blogPorts, p), At(t.blogUsernames, p), At(t.blogPasswords, p))
  }

  function ViewAt(t: Tables, p: string): View {
    View(p in t.echos, p in t.statuses, p in t.healths, p in t.uploadForms,
         At(t.statics, p), At(t.redirects, p), At(t.proxies, p),
         BlogAt(t, p))
  }

  function SetOne(f: Field, n: FieldName, before: Option<string>): Option<string> {
    if f.name == n then Some(f.value) else before
  }

  /** The last value of a field, or what was known before. */
  function FieldValue(fs: seq<Field>, n: FieldName, before: Option<string>): Option<string>
    decreases |fs|
  {
    if fs == [] then before
    else FieldValue(fs[1..], n, SetOne(fs[0], n, before))
  }

  function AllFields(v: BlogView, fs: seq<Field>): BlogView {
    BlogView(FieldValue(fs, HostField, v.ip), FieldValue(fs, PortField, v.dbPort),
             FieldValue(fs, UsernameField, v.username), FieldValue(fs, PasswordField, v.password))
  }

  function ViewOf(d: Declaration): View {
    match d
    case Listen(_) => NOTHING
    case Echo(_) => NOTHING.(echo := true)
    case Status(_) => NOTHING.(status := true)
    case Health(_) => NOTHING.(health := true)
    case UploadForm(_) => NOTHING.(form := true)
    case Static(_, root) => NOTHING.(root := Some(root))
    case Redirect(_, host) => NOTHING.(url := Some(host))
    case Proxy(_, host, port) => NOTHING.(proxy := Some((host, port)))
    case Blog(_, fields) => NOTHING.(blog := AllFields(NOTHING.blog, fields))
  }

  function SetField(v: BlogView, f: Field): BlogView {
    BlogView(SetOne(f, HostField, v.ip), SetOne(f, PortField, v.dbPort),
             SetOne(f, UsernameField, v.username), SetOne(f, PasswordField, v.password))
  }

  /** The tables without what blogs record. */
  function Blogless(t: Tables): Tables {
    t.(blogIps := map[], blogPorts := map[], blogUsernames := map[], blogPasswords := map[])
  }

  lemma FieldView(t: Tables, path: string, f: Field, p: string)
    ensures BlogAt(RecordField(t, path, f), p) == if p == path then SetField(BlogAt(t, p), f) else BlogAt(t, p)
  {}

  lemma FieldRest(t: Tables, path: string, f: Field)
    ensures Blogless(RecordField(t, path, f)) == Blogless(t)
  {}

  lemma AllFieldsStep(v: BlogView, fs: seq<Field>)
    requires fs != []
    ensures AllFields(v, fs) == AllFields(SetField(v, fs[0]), fs[1..])
  {}

  lemma {:induction false} FieldsView(t: Tables, path: string, fs: seq<Field>, p: string)
    ensures BlogAt(RecordFields(t, path, fs), p) == if p == path then AllFields(BlogAt(t, p), fs) else BlogAt(t, p)
    ensures Blogless(RecordFields(t, path, fs)) == Blogless(t)
    decreases |fs|
  {
    hide BlogAt, RecordField, SetField, Blogless;
    if fs != [] {
      FieldView(t, path, fs[0], p);
      FieldRest(t, path, fs[0]);
      hide AllFields;
      AllFieldsStep(BlogAt(t, p), fs);
      FieldsView(RecordField(t, path, fs[0]), path, fs[1..], p);
    }
  }

  lemma OtherView(t: Tables, d: Declaration, p: string)
    requires d.Listen? || p != d.path
    ensures ViewAt(Record(t, d), p) == ViewAt(t, p)
  {
    hide RecordFields, FieldValue;
    if d.Blog? { FieldsView(t, d.path, d.fields, p); }
  }

  lemma OwnView(t: Tables, d: Declaration)
    requires !d.Listen? && ViewAt(t, d.path) == NOTHING
    ensures ViewAt(Record(t, d), d.path) == ViewOf(d)
  {
    hide RecordFields, FieldValue;
    if d.Blog? { FieldsView(t, d.path, d.fields, d.path); }
  }

  // ---- Declarations of distinct paths ----

  predicate Declares(d: Declaration, p: string) { !d.Listen? && d.path == p }

  ghost predicate DistinctPaths(ds: seq<Declaration>) {
    forall i, j :: 0 <= i < j < |ds| && !ds[i].Listen? && !ds[j].Listen? ==> ds[i].path != ds[j].path
  }

  lemma {:induction false} UndeclaredView(t: Tables, ds: seq<Declaration>, p: string)
    requires forall i :: 0 <= i < |ds| ==> !Declares(ds[i], p)
    ensures ViewAt(RecordAll(t, ds), p) == ViewAt(t, p)
    decreases |ds|
  {
    hide ViewAt, Record;
    if ds != [] {
      OtherView(t, ds[0], p);
      UndeclaredView(Record(t, ds[0]), ds[1..], p);
    }
  }

  lemma {:induction false} DeclaredView(t: Tables, ds: seq<Declaration>, k: nat)
    requires DistinctPaths(ds) && k < |ds| && !ds[k].Listen? && ViewAt(t, ds[k].path) == NOTHING
    ensures ViewAt(RecordAll(t, ds), ds[k].path) == ViewOf(ds[k])
    decreases |ds|
  {
    hide ViewAt, Record, ViewOf;
    var d, p := ds[0], ds[k].path;
    if k == 0 {
      OwnView(t, d);
      UndeclaredView(Record(t, d), ds[1..], p);
    } else {
      OtherView(t, d, p);
      DeclaredView(Record(t, d), ds[1..], k - 1);
    }
  }

  // ---- Handlers ----

  predicate BlogComplete(d: Declaration) {
    d.Blog? ==>
      && FieldValue(d.fields, HostField, None).Some? && FieldValue(d.fields, PortField, None).Some?
      && FieldValue(d.fields, UsernameField, None).Some? && FieldValue(d.fields, PasswordField, None).Some?
  }

  /** The handler a declaration asks for. */
  function HandlerFor(d: Declaration): Handler
    requires !d.Listen? && BlogComplete(d)
  {
    match d
    case Echo(path) => EchoHandler(path)
    case Status(path) => StatusHandler(path)
    case Health(path) => HealthHandler(path)
    case UploadForm(path) => UploadFormHandler(path)
    case Static(path, root) => StaticHandler(path, root)
    case Redirect(_, host) => RedirectHandler(host)
    case Proxy(path, host, port) => ProxyHandler(path, host, port)
    case Blog(path, fs) =>
      BlogHandler(path, FieldValue(fs, HostField, None).value, FieldValue(fs, PortField, None).value,
                  FieldValue(fs, UsernameField, None).value, FieldValue(fs, PasswordField, None).value)
  }

  predicate Shows(v: View, h: HandlerType) {
    match h
    case EchoType => v.echo
    case StaticType => v.root.Some?
    case StatusType => v.status
    case ProxyType => v.proxy.Some?
    case RedirectType => v.url.Some?
    case HealthType => v.health
    case UploadFormType => v.form
    case BlogType => v.blog.ip.Some?
  }

  lemma LocationShown(t: Tables, h: HandlerType, p: string)
    ensures p in Locations(t, h) <==> Shows(ViewAt(t, p), h)
  {}

  lemma DeclaredHandler(t: Tables, d: Declaration)
    requires !d.Listen? && BlogComplete(d) && ViewAt(t, d.path) == ViewOf(d)
    ensures forall h :: d.path in Locations(t, h) <==> h == KindOf(d)
    ensures CanInit(t, KindOf(d), d.path) && HandlerAt(t, KindOf(d), d.path) == HandlerFor(d)
  {
    hide FieldValue;
    forall h ensures d.path in Locations(t, h) <==> h == KindOf(d) {
      LocationShown(t, h, d.path);
      hide ViewAt;
      match d
      case Echo(_) =>
      case Status(_) =>
      case Health(_) =>
      case UploadForm(_) =>
      case Static(_, _) =>
      case Redirect(_, _) =>
      case Proxy(_, _, _) =>
      case Blog(_, _) =>
    }
  }

  ghost predicate BlogsDeclared(ds: seq<Declaration>) { forall i :: 0 <= i < |ds| ==> BlogComplete(ds[i]) }

  lemma NothingRecorded(p: string)
    ensures ViewAt(NO_TABLES, p) == NOTHING
  {}

  lemma NothingShown(h: HandlerType)
    ensures !Shows(NOTHING, h)
  {}

  /** The tables of declarations with distinct paths: a path is in a table exactly when it was declared
      with that handler type. */
  lemma DeclaredLocations(t: Tables, ds: seq<Declaration>)
    requires DistinctPaths(ds) && BlogsDeclared(ds) && t.(handlerTypes := []) == RecordAll(NO_TABLES, ds)
    ensures forall i :: 0 <= i < |ds| && !ds[i].Listen? ==>
              && (forall h :: ds[i].path in Locations(t, h) <==> h == KindOf(ds[i]))
              && CanInit(t, KindOf(ds[i]), ds[i].path)
              && HandlerAt(t, KindOf(ds[i]), ds[i].path) == HandlerFor(ds[i])
    ensures forall h, p :: p in Locations(t, h) ==> exists i :: 0 <= i < |ds| && Declares(ds[i], p)
  {
    hide HandlerFor, ViewOf, RecordAll, Locations, HandlerAt, CanInit, KindOf, BlogComplete, Shows;
    assert forall p :: ViewAt(t, p) == ViewAt(t.(handlerTypes := []), p);
    hide ViewAt;
    forall i | 0 <= i < |ds| && !ds[i].Listen?
      ensures forall h :: ds[i].path in Locations(t, h) <==> h == KindOf(ds[i])
      ensures CanInit(t, KindOf(ds[i]), ds[i].path) && HandlerAt(t, KindOf(ds[i]), ds[i].path) == HandlerFor(ds[i])
    {
      NothingRecorded(ds[i].path);
      DeclaredView(NO_TABLES, ds, i);
      DeclaredHandler(t, ds[i]);
    }
    forall h, p | p in Locations(t, h) ensures exists i :: 0 <= i < |ds| && Declares(ds[i], p) {
      LocationShown(t, h, p);
      NothingRecorded(p);
      NothingShown(h);
      if forall i :: 0 <= i < |ds| ==> !Declares(ds[i], p) { UndeclaredView(NO_TABLES, ds, p); }
    }
  }

  /** The text spells these declarations, with no comment right after a word that asks for a value. */
  ghost predicate Configures(text: string, ds: seq<Declaration>) {
    ConfigText.Spells(text, ConfigTokens(ConfigOf(ds))) && Calm(Tokens(text))
  }

  lemma TablesAreRouted(t: Tables, ds: seq<Declaration>)
    requires TablesConsistent(t) && BlogsDeclared(ds)
    requires forall i :: 0 <= i < |ds| && !ds[i].Listen? ==>
               && (forall h :: ds[i].path in Locations(t, h) <==> h == KindOf(ds[i]))
               && CanInit(t, KindOf(ds[i]), ds[i].path)
               && HandlerAt(t, KindOf(ds[i]), ds[i].path) == HandlerFor(ds[i])
    requires forall h, p :: p in Locations(t, h) ==> exists i :: 0 <= i < |ds| && Declares(ds[i], p)
    ensures BlogsComplete(t) && Disjoint(t)
    ensures forall p :: p in Registered(t, t.handlerTypes) <==> exists i :: 0 <= i < |ds| && Declares(ds[i], p)
    ensures forall i :: 0 <= i < |ds| && !ds[i].Listen? ==>
              ds[i].path in Registered(t, t.handlerTypes)
              && Registered(t, t.handlerTypes)[ds[i].path] == Some(HandlerFor(ds[i]))
  {
    assert forall p :: p in t.blogIps <==> p in Locations(t, BlogType);
    hide TablesConsistent, Registered, HandlerFor, HandlerAt, Locations, KindOf, BlogComplete, CanInit;
    forall i | 0 <= i < |ds| && !ds[i].Listen?
      ensures ds[i].path in Registered(t, t.handlerTypes)
      ensures Registered(t, t.handlerTypes)[ds[i].path] == Some(HandlerFor(ds[i]))
    {
      var p, h := ds[i].path, KindOf(ds[i]);
      LocationIsRegistered(t, h, p);
      DisjointKeepsKind(t, t.handlerTypes, h, p);
    }
    forall p | p in Registered(t, t.handlerTypes) ensures exists i :: 0 <= i < |ds| && Declares(ds[i], p) {
      RegistersAllLocations(t);
      var h := OwnerOf(t, p);
    }
  }

  /** From text to handlers: for every list of declarations with distinct paths, whose blogs have all four
      fields, in any layout, the dispatcher built from the configuration registers exactly the declared paths,
      each with the handler its declaration asks for. */
  lemma ConfiguredRoutes(text: string, ds: seq<Declaration>)
    requires AllDeclare(ds) && DistinctPaths(ds) && BlogsDeclared(ds) && Configures(text, ds)
    ensures ParseText(text).Accepted?
    ensures var t := ParseText(text).tables;
            && TablesConsistent(t) && BlogsComplete(t) && Disjoint(t)
            && (forall p :: p in Registered(t, t.handlerTypes) <==> exists i :: 0 <= i < |ds| && Declares(ds[i], p))
            && (forall i :: 0 <= i < |ds| && !ds[i].Listen? ==>
                  ds[i].path in Registered(t, t.handlerTypes)
                  && Registered(t, t.handlerTypes)[ds[i].path] == Some(HandlerFor(ds[i])))
  {
    hide ParseText, ConfigText.Spells, RecordAll, TablesConsistent, Registered, HandlerFor, HandlerAt, Locations,
         KindOf, BlogComplete, ConfigOf, Tokens, ConfigTokens, Calm;
    DeclaredTables(text, ds);
    var t := ParseText(text).tables;
    DeclaredLocations(t, ds);
    TablesAreRouted(t, ds);
  }

  /** For every text, accepted or rejected, that gives every blog its four fields, and every uri: the
      location the dispatcher looks up has a handler, overlapping tables included. */
  lemma NoNullHandler(text: string, uri: string, key: Option<string>)
    requires var o := ParseText(text); !o.Failed? && BlogsComplete(o.tables) && Chooses(o.tables, uri, key) && key.Some?
    ensures var t := ParseText(text).tables;
            key.value in Registered(t, t.handlerTypes) && Registered(t, t.handlerTypes)[key.value].Some?
  {
    hide ParseText, TablesConsistent, BlogsComplete, Registered, Chooses;
    ParsedTablesConsistent(text);
    ChosenIsRegistered(ParseText(text).tables, uri, key);
  }

  /** Whatever the uri, the location the dispatcher looks up belongs to a declaration, and gets that
      declaration's handler. */
  lemma EveryUriIsRouted(text: string, ds: seq<Declaration>, uri: string, key: Option<string>)
    requires AllDeclare(ds) && DistinctPaths(ds) && BlogsDeclared(ds) && Configures(text, ds)
    requires var o := ParseText(text); o.Accepted? && Chooses(o.tables, uri, key) && key.Some?
    ensures var t := ParseText(text).tables;
            key.value in Registered(t, t.handlerTypes)
            && exists i :: 0 <= i < |ds| && Declares(ds[i], key.value)
                           && Registered(t, t.handlerTypes)[key.value] == Some(HandlerFor(ds[i]))
  {
    hide ParseText, Configures, TablesConsistent, Registered, HandlerFor, ConfigOf, Chooses, BlogComplete,
         BlogsComplete;
    ConfiguredRoutes(text, ds);
    ChosenIsRegistered(ParseText(text).tables, uri, key);
  }
}
