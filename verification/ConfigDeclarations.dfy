/** Declarations: what a configuration is written for, as statements and as the tables they record. */
module ConfigDeclarations {
  import opened Text
  import opened ConfigGrammar
  import opened ConfigExtraction

  datatype FieldName = HostField | PortField | UsernameField | PasswordField

  datatype Field = Field(name: FieldName, value: string)

  /** One statement of the configuration; the fields of a blog come in any order, the last of a name counts. */
  datatype Declaration =
    | Listen(port: nat)
    | Echo(path: string)
    | Status(path: string)
    | Health(path: string)
    | UploadForm(path: string)
    | Static(path: string, root: string)
    | Redirect(path: string, host: string)
    | Proxy(path: string, host: string, proxyPort: nat)
    | Blog(path: string, fields: seq<Field>)

  predicate Quotable(s: string) { forall i :: 0 <= i < |s| ==> s[i] != '\"' }

  ghost predicate AllQuotable(fs: seq<Field>) { forall i :: 0 <= i < |fs| ==> Quotable(fs[i].value) }

  ghost predicate CanDeclare(d: Declaration) {
    match d
    case Listen(port) => port <= MAX_PORT
    case Static(path, root) => Quotable(path) && Quotable(root)
    case Redirect(path, host) => Quotable(path) && Quotable(host)
    case Proxy(path, host, port) => Quotable(path) && Quotable(host) && port <= MAX_PORT
    case Blog(path, fields) => Quotable(path) && AllQuotable(fields)
    case _ => Quotable(d.path)
  }

  // ---- Declarations as statements ----

  function Quote(s: string): string { ['\"'] + s + ['\"'] }

  function LocationWords(path: string, h: HandlerType): seq<string> { ["location", Quote(path), TypeName(h)] }

  function KeywordText(w: Keyword): string {
    match w
    case PortWord => "port"
    case LocationWord => "location"
    case RootWord => "root"
    case HostWord => "host"
    case PasswordWord => "password"
    case UsernameWord => "username"
  }

  function FieldWord(n: FieldName): Keyword {
    match n
    case HostField => HostWord
    case PortField => PortWord
    case UsernameField => UsernameWord
    case PasswordField => PasswordWord
  }

  function Setting(w: Keyword, value: string): Statement { Simple([KeywordText(w), value]) }

  function FieldSettings(fs: seq<Field>): seq<Statement> {
    if fs == [] then [] else [Setting(FieldWord(fs[0].name), Quote(fs[0].value))] + FieldSettings(fs[1..])
  }

  function KindOf(d: Declaration): HandlerType
    requires !d.Listen?
  {
    match d
    case Echo(_) => EchoType
    case Status(_) => StatusType
    case Health(_) => HealthType
    case UploadForm(_) => UploadFormType
    case Static(_, _) => StaticType
    case Redirect(_, _) => RedirectType
    case Proxy(_, _, _) => ProxyType
    case Blog(_, _) => BlogType
  }

  function SettingsOf(d: Declaration): seq<Statement> {
    match d
    case Static(_, root) => [Setting(RootWord, Quote(root))]
    case Redirect(_, host) => [Setting(HostWord, Quote(host))]
    case Proxy(_, host, port) => [Setting(HostWord, Quote(host)), Setting(PortWord, Decimal(port))]
    case Blog(_, fields) => FieldSettings(fields)
    case _ => []
  }

  function StatementOf(d: Declaration): Statement {
    if d.Listen? then Setting(PortWord, Decimal(d.port))
    else Block(LocationWords(d.path, KindOf(d)), SettingsOf(d))
  }

  function ConfigOf(ds: seq<Declaration>): seq<Statement> {
    if ds == [] then [] else [StatementOf(ds[0])] + ConfigOf(ds[1..])
  }

  // ---- What declarations record ----

  function PutField(m: map<string, string>, path: string, f: Field, n: FieldName): map<string, string> {
    if f.name == n then m[path := f.value] else m
  }

  function RecordField(t: Tables, path: string, f: Field): Tables {
    t.(blogIps := PutField(t.blogIps, path, f, HostField), blogPorts := PutField(t.blogPorts, path, f, PortField),
       blogUsernames := PutField(t.blogUsernames, path, f, UsernameField),
       blogPasswords := PutField(t.blogPasswords, path, f, PasswordField))
  }

  function RecordFields(t: Tables, path: string, fs: seq<Field>): Tables
    decreases |fs|
  {
    if fs == [] then t else RecordFields(RecordField(t, path, fs[0]), path, fs[1..])
  }

  function Record(t: Tables, d: Declaration): Tables {
    match d
    case Listen(port) => t.(port := port)
    case Echo(path) => t.(echos := t.echos + {path})
    case Status(path) => t.(statuses := t.statuses + {path})
    case Health(path) => t.(healths := t.healths + {path})
    case UploadForm(path) => t.(uploadForms := t.uploadForms + {path})
    case Static(path, root) => t.(statics := t.statics[path := root])
    case Redirect(path, host) => t.(redirects := t.redirects[path := host])
    case Proxy(path, host, port) => t.(proxies := t.proxies[path := (host, port)])
    case Blog(path, fields) => RecordFields(t, path, fields)
  }

  function RecordAll(t: Tables, ds: seq<Declaration>): Tables
    decreases |ds|
  {
    if ds == [] then t else RecordAll(Record(t, ds[0]), ds[1..])
  }
}
