/** The request dispatcher: the handlers registered for the locations of a configuration, and the
    choice of a handler for a uri. */
module Dispatching {
  import opened Text
  import opened ConfigExtraction
  import opened ConfigProperties
  import opened StaticPaths

  datatype Handler =
    | EchoHandler(path: string)
    | StaticHandler(path: string, root: string)
    | StatusHandler(path: string)
    | ProxyHandler(path: string, host: string, port: int)
    | RedirectHandler(url: string)
    | HealthHandler(path: string)
    | UploadFormHandler(path: string)
    | BlogHandler(prefix: string, ip: string, dbPort: string, username: string, password: string)
    | NotFoundHandler

  // ---- Registration ----

  function Locations(t: Tables, h: HandlerType): set<string> {
    match h
    case EchoType => t.echos
    case StaticType => t.statics.Keys
    case StatusType => t.statuses
    case ProxyType => t.proxies.Keys
    case RedirectType => t.redirects.Keys
    case HealthType => t.healths
    case UploadFormType => t.uploadForms
    case BlogType => t.blogIps.Keys
  }

  /** `Init` finds everything it looks up. */
  predicate CanInit(t: Tables, h: HandlerType, path: string) {
    h.BlogType? ==> path in t.blogUsernames && path in t.blogPasswords && path in t.blogPorts
  }

  function HandlerAt(t: Tables, h: HandlerType, path: string): Handler
    requires path in Locations(t, h) && CanInit(t, h, path)
  {
    match h
    case EchoType => EchoHandler(path)
    case StaticType => StaticHandler(path, t.statics[path])
    case StatusType => StatusHandler(path)
    case ProxyType => ProxyHandler(path, t.proxies[path].0, t.proxies[path].1)
    case RedirectType => RedirectHandler(t.redirects[path])
    case HealthType => HealthHandler(path)
    case UploadFormType => UploadFormHandler(path)
    case BlogType => BlogHandler(path, t.blogIps[path], t.blogPorts[path], t.blogUsernames[path], t.blogPasswords[path])
  }

  /** Every blog location has its four fields. */
  ghost predicate BlogsComplete(t: Tables) { forall p :: p in t.blogIps ==> CanInit(t, BlogType, p) }

  /** The locations a handler type text stands for; none when it is not a handler type. */
  function Listed(t: Tables, text: string): set<string> {
    if TypeOf(text).None? then {} else Locations(t, TypeOf(text).value)
  }

  /** The entries of some locations of one type. */
  function Entries(t: Tables, h: HandlerType, ps: set<string>): map<string, Option<Handler>> {
    map p | p in ps && p in Locations(t, h) && CanInit(t, h, p) :: Some(HandlerAt(t, h, p))
  }

  /** The dispatcher map after the handler types were gone through in turn; later types overwrite. */
  ghost function Registered(t: Tables, types: seq<string>): map<string, Option<Handler>> {
    if types == [] then map[] else
    var before := Registered(t, types[..|types| - 1]);
    var text := types[|types| - 1];
    if TypeOf(text).None? then before else before + Entries(t, TypeOf(text).value, Listed(t, text))
  }

  lemma RegisteredAppend(t: Tables, types: seq<string>, text: string)
    ensures Registered(t, types + [text]) ==
            if TypeOf(text).None? then Registered(t, types)
            else Registered(t, types) + Entries(t, TypeOf(text).value, Listed(t, text))
  {
    hide TypeOf, Entries;
    assert (types + [text])[..|types + [text]| - 1] == types;
  }

  ghost function AllLocations(t: Tables): set<string> {
    t.echos + t.statics.Keys + t.statuses + t.proxies.Keys + t.redirects.Keys
    + t.healths + t.uploadForms + t.blogIps.Keys
  }

  lemma EntriesKeys(t: Tables, h: HandlerType)
    requires BlogsComplete(t)
    ensures Entries(t, h, Locations(t, h)).Keys == Locations(t, h)
  {
    assert forall p :: p in Locations(t, h) ==> CanInit(t, h, p);
  }

  lemma EntriesAdd(t: Tables, h: HandlerType, ps: set<string>, p: string)
    requires p in Locations(t, h) && CanInit(t, h, p)
    ensures Entries(t, h, ps + {p}) == Entries(t, h, ps)[p := Some(HandlerAt(t, h, p))]
  {
    hide HandlerAt;
  }

  lemma NoEntries(t: Tables, h: HandlerType)
    ensures Entries(t, h, {}) == map[]
  {}

  ghost predicate ListedIn(t: Tables, types: seq<string>, p: string) {
    exists i :: 0 <= i < |types| && p in Listed(t, types[i])
  }

  lemma ListedInAppend(t: Tables, types: seq<string>, text: string, p: string)
    ensures ListedIn(t, types + [text], p) <==> ListedIn(t, types, p) || p in Listed(t, text)
  {
    var all := types + [text];
    if ListedIn(t, types, p) {
      var i :| 0 <= i < |types| && p in Listed(t, types[i]);
      assert all[i] == types[i];
    }
    assert all[|types|] == text;
  }

  lemma {:induction false} RegisteredKeys(t: Tables, types: seq<string>, p: string)
    requires BlogsComplete(t)
    ensures p in Registered(t, types) <==> ListedIn(t, types, p)
  {
    hide TypeOf, Entries, BlogsComplete, Locations;
    if types != [] {
      var q, text := types[..|types| - 1], types[|types| - 1];
      RegisteredKeys(t, q, p);
      assert types == q + [text];
      ListedInAppend(t, q, text, p);
      if TypeOf(text).Some? { EntriesKeys(t, TypeOf(text).value); }
    }
  }

  lemma TypeListed(t: Tables, h: HandlerType)
    requires TablesConsistent(t) && Locations(t, h) != {}
    ensures TypeName(h) in t.handlerTypes
  {
    hide TypeName, NoDuplicates;
    match h
    case EchoType =>
    case StaticType => assert t.statics != map[];
    case StatusType =>
    case ProxyType => assert t.proxies != map[];
    case RedirectType => assert t.redirects != map[];
    case HealthType =>
    case UploadFormType =>
    case BlogType => assert t.blogIps != map[];
  }

  lemma LocationIsRegistered(t: Tables, h: HandlerType, p: string)
    requires TablesConsistent(t) && BlogsComplete(t) && p in Locations(t, h)
    ensures p in Registered(t, t.handlerTypes)
  {
    hide TablesConsistent, TypeName, TypeOf, BlogsComplete;
    TypeListed(t, h);
    TypeNames(h);
    var i :| 0 <= i < |t.handlerTypes| && t.handlerTypes[i] == TypeName(h);
    assert p in Listed(t, t.handlerTypes[i]);
    assert ListedIn(t, t.handlerTypes, p);
    RegisteredKeys(t, t.handlerTypes, p);
  }

  lemma LocationsAreAll(t: Tables, h: HandlerType)
    ensures Locations(t, h) <= AllLocations(t)
  {}

  lemma OwnerOf(t: Tables, p: string) returns (h: HandlerType)
    requires p in AllLocations(t)
    ensures p in Locations(t, h)
  {
    h := if p in t.echos then EchoType else if p in t.statics then StaticType else if p in t.statuses then StatusType
         else if p in t.proxies then ProxyType else if p in t.redirects then RedirectType
         else if p in t.healths then HealthType else if p in t.uploadForms then UploadFormType else BlogType;
  }

  /** The dispatcher registers exactly the union of the location tables. */
  lemma RegistersAllLocations(t: Tables)
    requires TablesConsistent(t) && BlogsComplete(t)
    ensures Registered(t, t.handlerTypes).Keys == AllLocations(t)
  {
    hide TablesConsistent, BlogsComplete, Registered, TypeOf;
    forall p ensures p in Registered(t, t.handlerTypes) <==> p in AllLocations(t) {
      RegisteredKeys(t, t.handlerTypes, p);
      if p in AllLocations(t) {
        var h := OwnerOf(t, p);
        LocationIsRegistered(t, h, p);
      }
      if p in Registered(t, t.handlerTypes) {
        var i :| 0 <= i < |t.handlerTypes| && p in Listed(t, t.handlerTypes[i]);
        LocationsAreAll(t, TypeOf(t.handlerTypes[i]).value);
      }
    }
  }

  /** No location is in two tables. */
  ghost predicate Disjoint(t: Tables) {
    forall g, h, p :: p in Locations(t, g) && p in Locations(t, h) ==> g == h
  }

  lemma {:induction false} DisjointKeepsKind(t: Tables, types: seq<string>, h: HandlerType, p: string)
    requires BlogsComplete(t) && Disjoint(t) && p in Locations(t, h) && p in Registered(t, types)
    ensures CanInit(t, h, p)
    ensures Registered(t, types)[p] == Some(HandlerAt(t, h, p))
  {
    hide TypeOf, HandlerAt;
    if types != [] {
      var q, text := types[..|types| - 1], types[|types| - 1];
      if p in Listed(t, text) {
        assert TypeOf(text).value == h;
      } else {
        DisjointKeepsKind(t, q, h, p);
      }
    }
  }

  /** Of a location in several tables the handler type listed last decides. */
  lemma {:induction false} LastTypeWins(t: Tables, types: seq<string>, i: nat, p: string)
    requires BlogsComplete(t) && i < |types| && TypeOf(types[i]).Some? && p in Locations(t, TypeOf(types[i]).value)
    requires forall j :: i < j < |types| ==> p !in Listed(t, types[j])
    ensures CanInit(t, TypeOf(types[i]).value, p)
    ensures p in Registered(t, types) && Registered(t, types)[p] == Some(HandlerAt(t, TypeOf(types[i]).value, p))
    decreases |types|
  {
    hide TypeOf, HandlerAt;
    var q, text := types[..|types| - 1], types[|types| - 1];
    if i < |types| - 1 {
      assert p !in Listed(t, text);
      LastTypeWins(t, q, i, p);
    }
  }

  // ---- Choice ----

  predicate IsStaticMatch(t: Tables, uri: string, p: string) {
    p in t.statics && p != "" && IsPathPrefix(p, uri)
  }

  /** The exact tables after the static ones. */
  predicate IsExact(t: Tables, uri: string) {
    uri in t.statuses || uri in t.redirects || uri in t.healths || uri in t.uploadForms
  }

  /** Whose location the dispatcher looks up for an unescaped uri: the echo location, the longest static
      location, an exact location, any proxy prefix, any blog prefix, in this order; None is the 404 handler. */
  ghost predicate Chooses(t: Tables, uri: string, key: Option<string>) {
    if uri in t.echos then key == Some(uri)
    else if exists p :: IsStaticMatch(t, uri, p) then
      key.Some? && IsStaticMatch(t, uri, key.value) && forall p :: IsStaticMatch(t, uri, p) ==> |p| <= |key.value|
    else if IsExact(t, uri) then key == Some(uri)
    else if exists p :: p in t.proxies && p <= uri then key.Some? && key.value in t.proxies && key.value <= uri
    else if exists p :: p in t.blogIps && p <= uri then key.Some? && key.value in t.blogIps && key.value <= uri
    else key.None?
  }

  /** A location of a type matches a uri: a static one as a path prefix, a proxy's or a blog's as any prefix, and every
      other one exactly. */
  predicate Matches(t: Tables, h: HandlerType, p: string, uri: string) {
    p in Locations(t, h) &&
    match h
    case StaticType => p != "" && p <= uri && (p == uri || uri[|p|] == '/')
    case ProxyType => p <= uri
    case BlogType => p <= uri
    case _ => p == uri
  }

  /** Which types come first when several match. */
  function Rank(h: HandlerType): nat {
    match h
    case EchoType => 0
    case StaticType => 1
    case StatusType => 2
    case RedirectType => 2
    case HealthType => 2
    case UploadFormType => 2
    case ProxyType => 3
    case BlogType => 4
  }

  /** A match of the first rank, and among static locations a longest one. */
  ghost predicate IsBest(t: Tables, h: HandlerType, p: string, uri: string) {
    && Matches(t, h, p, uri)
    && forall g, q :: Matches(t, g, q, uri) ==>
         Rank(h) < Rank(g) || (Rank(h) == Rank(g) && (h.StaticType? ==> |q| <= |p|))
  }

  lemma StaticMatches(t: Tables, p: string, uri: string)
    ensures Matches(t, StaticType, p, uri) <==> IsStaticMatch(t, uri, p)
  {}

  /** The six questions of the choice, as matches. */
  lemma Questions(t: Tables, uri: string)
    ensures uri in t.echos <==> Matches(t, EchoType, uri, uri)
    ensures IsExact(t, uri) <==> Matches(t, StatusType, uri, uri) || Matches(t, RedirectType, uri, uri)
                                 || Matches(t, HealthType, uri, uri) || Matches(t, UploadFormType, uri, uri)
    ensures (exists p :: IsStaticMatch(t, uri, p)) <==> exists p :: Matches(t, StaticType, p, uri)
    ensures (exists p :: p in t.proxies && p <= uri) <==> exists p :: Matches(t, ProxyType, p, uri)
    ensures (exists p :: p in t.blogIps && p <= uri) <==> exists p :: Matches(t, BlogType, p, uri)
  {
    if p :| IsStaticMatch(t, uri, p) { assert Matches(t, StaticType, p, uri); }
    if p :| Matches(t, StaticType, p, uri) { assert IsStaticMatch(t, uri, p); }
    if p :| p in t.proxies && p <= uri { assert Matches(t, ProxyType, p, uri); }
    if p :| p in t.blogIps && p <= uri { assert Matches(t, BlogType, p, uri); }
  }

  lemma ExactMatches(t: Tables, h: HandlerType, p: string, uri: string)
    requires Matches(t, h, p, uri) && !h.StaticType? && !h.ProxyType? && !h.BlogType?
    ensures p == uri && Matches(t, h, uri, uri)
  {}

  lemma BestIsChosen(t: Tables, uri: string, h: HandlerType, p: string)
    requires IsBest(t, h, p, uri)
    ensures Chooses(t, uri, Some(p))
  {
    Questions(t, uri);
    StaticMatches(t, p, uri);
    forall q ensures IsStaticMatch(t, uri, q) <==> Matches(t, StaticType, q, uri) { StaticMatches(t, q, uri); }
    hide IsStaticMatch, IsExact;
    assert h.ProxyType? ==> p in t.proxies && p <= uri;
    assert h.BlogType? ==> p in t.blogIps && p <= uri;
    assert !h.StaticType? && !h.ProxyType? && !h.BlogType? ==> p == uri;
    hide Matches;
  }

  /** The first type with a match. */
  ghost function FirstType(t: Tables, uri: string): HandlerType {
    if uri in t.echos then EchoType
    else if exists p :: IsStaticMatch(t, uri, p) then StaticType
    else if uri in t.statuses then StatusType
    else if uri in t.redirects then RedirectType
    else if uri in t.healths then HealthType
    else if uri in t.uploadForms then UploadFormType
    else if exists p :: p in t.proxies && p <= uri then ProxyType
    else BlogType
  }

  /** No type that matches comes before the one that is chosen. */
  lemma NoneBefore(t: Tables, uri: string, p: string, h: HandlerType, g: HandlerType, q: string)
    requires Chooses(t, uri, Some(p)) && Matches(t, h, p, uri) && Matches(t, g, q, uri)
    requires h == FirstType(t, uri)
    ensures Rank(h) < Rank(g) || (Rank(h) == Rank(g) && (h.StaticType? ==> |q| <= |p|))
  {
    Questions(t, uri);
    StaticMatches(t, p, uri);
    StaticMatches(t, q, uri);
    if !g.StaticType? && !g.ProxyType? && !g.BlogType? { ExactMatches(t, g, q, uri); }
    hide Matches, IsStaticMatch, IsExact;
  }

  lemma ChosenMatches(t: Tables, uri: string, p: string)
    requires Chooses(t, uri, Some(p))
    ensures Matches(t, FirstType(t, uri), p, uri)
  {
    StaticMatches(t, p, uri);
    hide IsStaticMatch;
  }

  lemma ChosenIsBest(t: Tables, uri: string, p: string)
    requires Chooses(t, uri, Some(p))
    ensures IsBest(t, FirstType(t, uri), p, uri)
  {
    hide Matches, Chooses, Rank, FirstType;
    var h := FirstType(t, uri);
    ChosenMatches(t, uri, p);
    forall g, q | Matches(t, g, q, uri)
      ensures Rank(h) < Rank(g) || (Rank(h) == Rank(g) && (h.StaticType? ==> |q| <= |p|))
    {
      NoneBefore(t, uri, p, h, g, q);
    }
  }

  /** The choice in terms of ranks: a best match is looked up, and the 404 handler is chosen exactly when nothing
      matches. */
  lemma ChoiceIsBest(t: Tables, uri: string, key: Option<string>)
    ensures Chooses(t, uri, key)
       <==> if key.Some? then exists h :: IsBest(t, h, key.value, uri) else forall h, p :: !Matches(t, h, p, uri)
  {
    Questions(t, uri);
    if key.Some? {
      if Chooses(t, uri, key) { ChosenIsBest(t, uri, key.value); }
      if h :| IsBest(t, h, key.value, uri) { BestIsChosen(t, uri, h, key.value); }
    } else {
      hide IsStaticMatch, IsExact;
      forall h, p | Matches(t, h, p, uri) ensures !Chooses(t, uri, key) {
        if !h.StaticType? && !h.ProxyType? && !h.BlogType? { ExactMatches(t, h, p, uri); }
      }
    }
  }

  /** Registration stores no null handler. */
  lemma {:induction false} RegisteredNotNull(t: Tables, types: seq<string>, p: string)
    requires p in Registered(t, types)
    ensures Registered(t, types)[p].Some?
  {
    hide TypeOf, HandlerAt, CanInit;
    var q, text := types[..|types| - 1], types[|types| - 1];
    if TypeOf(text).None? || p !in Entries(t, TypeOf(text).value, Listed(t, text)) { RegisteredNotNull(t, q, p); }
  }

  /** Whatever is chosen was registered with a handler, so no uri reaches a null handler, even when a
      location is in several tables. */
  lemma ChosenIsRegistered(t: Tables, uri: string, key: Option<string>)
    requires TablesConsistent(t) && BlogsComplete(t) && Chooses(t, uri, key) && key.Some?
    ensures key.value in Registered(t, t.handlerTypes) && Registered(t, t.handlerTypes)[key.value].Some?
  {
    hide TablesConsistent, BlogsComplete, Registered;
    RegistersAllLocations(t);
    RegisteredNotNull(t, t.handlerTypes, key.value);
  }

  /** `substr(0, n) == p` for some key, in whatever order the map is gone through. */
  method FindPrefix(keys: set<string>, uri: string) returns (found: Option<string>)
    ensures found.Some? ==> found.value in keys && found.value <= uri
    ensures found.None? ==> forall p :: p in keys ==> !(p <= uri)
  {
    var rest := keys;
    while rest != {}
      invariant rest <= keys
      invariant forall p :: p in keys ==> p in rest || !(p <= uri)
      decreases rest
    {
      var p :| p in rest;
      var prefix := if |p| <= |uri| then uri[..|p|] else uri;
      if prefix == p {
        return Some(p);
      }
      assert p <= uri ==> prefix == p;
      rest := rest - {p};
    }
    return None;
  }

  lemma OneMoreType(types: seq<string>, i: nat, name: string)
    requires i < |types|
    ensures types[..i + 1] == types[..i] + [types[i]]
    ensures name in types[..i + 1] <==> name in types[..i] || name == types[i]
  {}

  /** The dispatcher map that `create_handler_mapping` builds from consistent tables with complete blogs. */
  ghost predicate Mapped(t: Tables, dispatcher: map<string, Option<Handler>>) {
    TablesConsistent(t) && BlogsComplete(t) && dispatcher == Registered(t, t.handlerTypes)
  }

  class RequestDispatcher {
    const config: Tables
    var dispatcher: map<string, Option<Handler>>
    var statusEnabled: bool

    constructor (config: Tables)
      ensures this.config == config && dispatcher == map[] && !statusEnabled
    {
      this.config, dispatcher, statusEnabled := config, map[], false;
    }

    /** `Init` for every location of one handler type, in any order; false when a lookup throws. */
    method RegisterType(text: string) returns (ok: bool)
      requires TypeOf(text).Some?
      modifies this`dispatcher
      ensures ok <==> forall p :: p in Listed(config, text) ==> CanInit(config, TypeOf(text).value, p)
      ensures ok ==> dispatcher == old(dispatcher) + Entries(config, TypeOf(text).value, Listed(config, text))
    {
      hide HandlerAt, Entries;
      var h := TypeOf(text).value;
      var rest := Locations(config, h);
      NoEntries(config, h);
      ghost var done: set<string> := {};
      while rest != {}
        invariant done !! rest && done + rest == Locations(config, h)
        invariant forall p :: p in done ==> CanInit(config, h, p)
        invariant dispatcher == old(dispatcher) + Entries(config, h, done)
        decreases rest
      {
        var p :| p in rest;
        if !(h.BlogType? ==> p in config.blogUsernames && p in config.blogPasswords && p in config.blogPorts) {
          assert p in Listed(config, text) && !CanInit(config, h, p);
          return false;
        }
        EntriesAdd(config, h, done, p);
        dispatcher := dispatcher[p := Some(HandlerAt(config, h, p))];
        rest, done := rest - {p}, done + {p};
      }
      assert done == Listed(config, text);
      return true;
    }

    /** One handler type of the list; a name that is no handler type is skipped. */
    method RegisterNamed(text: string) returns (ok: bool)
      modifies this
      ensures ok <==> CanRegister(config, text)
      ensures ok ==> dispatcher == if TypeOf(text).None? then old(dispatcher)
                                   else old(dispatcher) + Entries(config, TypeOf(text).value, Listed(config, text))
      ensures ok ==> (statusEnabled <==> old(statusEnabled) || (text == TypeName(StatusType) && config.statuses != {}))
    {
      hide TypeName, HandlerAt, TypeOf, Entries, CanInit, Listed;
      TypeNames(StatusType);
      if TypeOf(text).None? {
        return true;
      }
      ok := RegisterType(text);
      if ok && TypeOf(text).value.StatusType? && config.statuses != {} {
        statusEnabled := true;
      }
    }

    /** `create_handler_mapping`; false when a blog location lacks a field. */
    method CreateHandlerMapping() returns (ok: bool)
      requires dispatcher == map[] && !statusEnabled
      modifies this
      ensures ok <==> BlogsComplete(config) || TypeName(BlogType) !in config.handlerTypes
      ensures ok ==> dispatcher == Registered(config, config.handlerTypes)
      ensures ok ==> (statusEnabled <==> TypeName(StatusType) in config.handlerTypes && config.statuses != {})
    {
      var types := config.handlerTypes;
      assert Registered(config, types[..0]) == map[];
      hide *;
      var i := 0;
      while i < |types|
        invariant 0 <= i <= |types|
        invariant dispatcher == Registered(config, types[..i])
        invariant BlogsComplete(config) || TypeName(BlogType) !in types[..i]
        invariant statusEnabled <==> TypeName(StatusType) in types[..i] && config.statuses != {}
      {
        var text := types[i];
        OneMoreType(types, i, TypeName(BlogType));
        OneMoreType(types, i, TypeName(StatusType));
        RegisteredAppend(config, types[..i], text);
        CanRegisterIs(config, text);
        ok := RegisterNamed(text);
        if !ok {
          return;
        }
        i := i + 1;
      }
      assert types[..i] == types;
      return true;
    }

    /** `dispatcher[key]`, which inserts a null handler for a key it does not have. */
    method At(key: string) returns (h: Option<Handler>)
      modifies this`dispatcher
      ensures h == if key in old(dispatcher) then old(dispatcher)[key] else None
      ensures dispatcher == if key in old(dispatcher) then old(dispatcher) else old(dispatcher)[key := None]
    {
      if key !in dispatcher {
        dispatcher := dispatcher[key := None];
      }
      h := dispatcher[key];
    }

    /** `get_handler`, with the location it looked up. A null handler is None. */
    method GetHandler(requestUri: string) returns (h: Option<Handler>, key: Option<string>)
      modifies this`dispatcher
      ensures Chooses(config, Unescape(requestUri), key)
      ensures key.None? ==> h == Some(NotFoundHandler) && dispatcher == old(dispatcher)
      ensures key.Some? && key.value in old(dispatcher)
              ==> h == old(dispatcher)[key.value] && dispatcher == old(dispatcher)
      ensures key.Some? && key.value !in old(dispatcher) ==> h.None? && dispatcher == old(dispatcher)[key.value := None]
      ensures Mapped(config, old(dispatcher)) ==> h.Some? && dispatcher == old(dispatcher)
    {
      hide TablesConsistent, BlogsComplete, Registered, IsPathPrefix;
      var uri := ReplaceEscaped(requestUri);
      var staticPath := LongestPrefixMatch(config.statics, uri);
      if uri in config.echos {
        key := Some(uri);
      } else if staticPath != "" {
        assert IsStaticMatch(config, uri, staticPath);
        key := Some(staticPath);
      } else if uri in config.statuses {
        key := Some(uri);
      } else if uri in config.redirects {
        key := Some(uri);
      } else if uri in config.healths {
        key := Some(uri);
      } else if uri in config.uploadForms {
        key := Some(uri);
      } else {
        key := FindPrefix(config.proxies.Keys, uri);
        if key.None? {
          key := FindPrefix(config.blogIps.Keys, uri);
        }
        if key.None? {
          return Some(NotFoundHandler), None;
        }
      }
      h := At(key.value);
      if Mapped(config, old(dispatcher)) {
        ChosenIsRegistered(config, uri, key);
      }
    }

    /** The file the chosen handler opens, when a static handler is chosen for the uri. */
    method StaticFile(requestUri: string) returns (location: string, name: Option<string>)
      requires TablesConsistent(config) && BlogsComplete(config) && Disjoint(config)
      requires dispatcher == Registered(config, config.handlerTypes)
      modifies this`dispatcher
      ensures dispatcher == old(dispatcher)
      ensures var uri := Unescape(requestUri);
              name.Some? <==> uri !in config.echos && exists p :: IsStaticMatch(config, uri, p)
      ensures var uri := Unescape(requestUri);
              name.Some? ==>
                && IsStaticMatch(config, uri, location)
                && (forall p :: IsStaticMatch(config, uri, p) ==> |p| <= |location|)
                && name.value == config.statics[location] + (if location == uri then uri else uri[|location|..])
    {
      hide TablesConsistent, BlogsComplete, Registered, Disjoint;
      ghost var uri := Unescape(requestUri);
      var h, key := GetHandler(requestUri);
      if key.None? {
        return "", None;
      }
      ghost var kind := ChosenKind(config, uri, key);
      if h.Some? && h.value.StaticHandler? {
        location := h.value.path;
        var n := FileName(location, h.value.root, requestUri);
        return location, Some(n);
      }
      return "", None;
    }
  }

  /** `Init` succeeds for every location of a handler type. */
  ghost predicate CanRegister(t: Tables, text: string) {
    TypeOf(text).Some? ==> forall p :: p in Listed(t, text) ==> CanInit(t, TypeOf(text).value, p)
  }

  /** Only a blog that lacks a field keeps a handler type from being registered. */
  lemma CanRegisterIs(t: Tables, text: string)
    ensures CanRegister(t, text) <==> BlogsComplete(t) || text != TypeName(BlogType)
  {
    TypeNames(BlogType);
    assert TypeOf(text).Some? ==> text == TypeName(TypeOf(text).value);
    hide TypeOf, TypeName;
  }

  /** The table a choice comes from; it is the static one exactly when the static search decides. */
  lemma ChosenOwner(t: Tables, uri: string, key: Option<string>) returns (h: HandlerType)
    requires Chooses(t, uri, key) && key.Some?
    ensures key.value in Locations(t, h)
    ensures h.StaticType? <==> uri !in t.echos && exists p :: IsStaticMatch(t, uri, p)
  {
    h := if uri in t.echos then EchoType else if exists p :: IsStaticMatch(t, uri, p) then StaticType
         else if uri in t.statuses then StatusType else if uri in t.redirects then RedirectType
         else if uri in t.healths then HealthType else if uri in t.uploadForms then UploadFormType
         else if key.value in t.proxies then ProxyType else BlogType;
  }

  /** With disjoint tables the handler found is of the matched kind, with the values of its table. */
  lemma ChosenKind(t: Tables, uri: string, key: Option<string>) returns (h: HandlerType)
    requires TablesConsistent(t) && BlogsComplete(t) && Disjoint(t) && Chooses(t, uri, key) && key.Some?
    ensures key.value in Locations(t, h) && CanInit(t, h, key.value)
    ensures key.value in Registered(t, t.handlerTypes)
    ensures Registered(t, t.handlerTypes)[key.value] == Some(HandlerAt(t, h, key.value))
    ensures h.StaticType? <==> uri !in t.echos && exists p :: IsStaticMatch(t, uri, p)
  {
    hide TablesConsistent, Registered, HandlerAt, Chooses;
    h := ChosenOwner(t, uri, key);
    ChosenIsRegistered(t, uri, key);
    DisjointKeepsKind(t, t.handlerTypes, h, key.value);
  }
}
