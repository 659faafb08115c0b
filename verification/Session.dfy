/** One connection: reads go to the parser, complete requests are dispatched, and a kept-alive
    connection goes on with a reset parser and a new builder. */
module Sessions {
  import opened Text
  import opened Headers
  import opened Requests
  import opened RequestParsing
  import opened RequestSplitting
  import opened RequestInvariant
  import opened RequestRoundTrip

  /** What a read made the session do. */
  datatype Event = Dispatched(req: Request) | BadRequest

  /** `open` is false once the connection is to be shut down after the answer. */
  datatype SessionState = SessionState(m: RawMachine, open: bool, log: seq<Event>)

  const CONNECTED: SessionState := SessionState(START, true, [])

  predicate SafeState(s: SessionState) { InsideHeader(s.m.state) ==> s.m.req.headers != [] }

  /** What the parser's answer makes of the session. */
  function Answered(log: seq<Event>, m: Machine, result: ResultType, unset: Method): (r: SessionState)
    ensures SafeState(r)
  {
    match result
    case Good =>
      var log1 := log + [Dispatched(Built(m.req, unset))];
      if m.req.keepAlive then SessionState(m.(state := MethodStart, req := FRESH), true, log1)
      else SessionState(m, false, log1)
    case Bad => SessionState(m, false, log + [BadRequest])
    case Indeterminate => SessionState(m, true, log)
  }

  /** `handle_read` with the bytes of one read. */
  function OnRead(s: SessionState, data: string, unset: Method): (r: SessionState)
    requires SafeState(s)
    ensures SafeState(r)
  {
    if !s.open then s else
    var o := Run(s.m, data);
    Answered(s.log, o.m, o.result, unset)
  }

  function Serve(s: SessionState, pieces: seq<string>, unset: Method): SessionState
    requires SafeState(s)
    decreases |pieces|
  {
    if pieces == [] then s else Serve(OnRead(s, pieces[0], unset), pieces[1..], unset)
  }

  class Session {
    var parser: RequestParser
    var builder: RequestBuilder
    var open: bool
    var log: seq<Event>

    function State(): SessionState
      reads this, parser, builder
    {
      SessionState(parser.Snapshot(builder), open, log)
    }

    ghost predicate Valid()
      reads this, parser, builder
    {
      parser.Safe(builder)
    }

    constructor ()
      ensures Valid() && State() == CONNECTED
      ensures fresh(parser) && fresh(builder)
    {
      parser := new RequestParser();
      builder := new RequestBuilder();
      open := true;
      log := [];
    }

    method HandleRead(data: string, unset: Method)
      requires Valid() && open
      modifies this, parser, builder
      ensures Valid() && parser == old(parser) && (builder == old(builder) || fresh(builder))
      ensures State() == OnRead(old(State()), data, unset)
    {
      var result, _ := parser.Parse(builder, data);
      if result.Good? {
        var req := builder.BuildRequest(unset);
        log := log + [Dispatched(req)];
        if builder.keepAlive {
          parser.Reset();
          builder := new RequestBuilder();
        } else {
          open := false;
        }
      } else if result.Bad? {
        log := log + [BadRequest];
        open := false;
      }
    }
  }

  // ---- A client sending requests ----

  function PrintAll(rs: seq<Request>): string {
    if rs == [] then "" else Printed(rs[0]) + PrintAll(rs[1..])
  }

  function Dispatches(rs: seq<Request>): seq<Event> {
    if rs == [] then [] else [Dispatched(rs[0])] + Dispatches(rs[1..])
  }

  /** Requests a client may send on one connection: each travels, and all but the last keep it open. */
  ghost predicate Sendable(rs: seq<Request>) {
    && (forall i :: 0 <= i < |rs| ==> WellFormed(rs[i]) && LengthFits(rs[i]))
    && (forall i :: 0 <= i < |rs| - 1 ==> KeepsAlive(rs[i].headers))
  }

  ghost predicate NonEmpty(pieces: seq<string>) { forall i :: 0 <= i < |pieces| ==> pieces[i] != "" }

  /** Every request ends where a read ends. */
  ghost predicate Aligned(rs: seq<Request>, pieces: seq<string>)
    decreases |rs|, 0
  {
    if rs == [] then pieces == [] else AlignedFrom(Printed(rs[0]), rs[1..], pieces)
  }

  /** `rest`, then every request of `rs`, ends where a read ends. */
  ghost predicate AlignedFrom(rest: string, rs: seq<Request>, pieces: seq<string>)
    decreases |rs|
  {
    exists k :: 1 <= k <= |pieces| && Flatten(pieces[..k]) == rest && Aligned(rs, pieces[k..])
  }

  lemma FlattenOne(d: string)
    ensures Flatten([d]) == d
  {
    assert [d][1..] == [];
  }

  lemma NoBytesNoPieces(pieces: seq<string>)
    requires NonEmpty(pieces) && Flatten(pieces) == ""
    ensures pieces == []
  {}

  /** A first read that ends inside `rest`. */
  lemma AlignedShorter(rest: string, rs: seq<Request>, pieces: seq<string>)
    requires pieces != [] && |pieces[0]| < |rest| && pieces[0] <= rest
    ensures AlignedFrom(rest, rs, pieces) <==> AlignedFrom(rest[|pieces[0]|..], rs, pieces[1..])
  {
    hide Aligned;
    var d, left := pieces[0], rest[|pieces[0]|..];
    assert rest == d + left;
    if AlignedFrom(rest, rs, pieces) {
      var k :| 1 <= k <= |pieces| && Flatten(pieces[..k]) == rest && Aligned(rs, pieces[k..]);
      assert pieces[..k][1..] == pieces[1..][..k - 1] && pieces[..k][0] == d;
      FlattenOne(d);
      assert pieces[..1] == [d];
      assert Flatten(pieces[1..][..k - 1]) == left;
      assert pieces[1..][k - 1..] == pieces[k..];
    }
    if AlignedFrom(left, rs, pieces[1..]) {
      var k :| 1 <= k <= |pieces[1..]| && Flatten(pieces[1..][..k]) == left && Aligned(rs, pieces[1..][k..]);
      assert pieces[..k + 1][1..] == pieces[1..][..k] && pieces[..k + 1][0] == d;
      assert Flatten(pieces[..k + 1]) == rest;
      assert pieces[1..][k..] == pieces[k + 1..];
    }
  }

  /** A first read that is exactly `rest`, the others not empty. */
  lemma AlignedExact(rest: string, rs: seq<Request>, pieces: seq<string>)
    requires pieces != [] && pieces[0] == rest && NonEmpty(pieces)
    ensures AlignedFrom(rest, rs, pieces) <==> Aligned(rs, pieces[1..])
  {
    hide Aligned;
    assert pieces[..1][1..] == [] && pieces[..1][0] == rest;
    assert Flatten(pieces[..1]) == rest;
    if AlignedFrom(rest, rs, pieces) {
      var k :| 1 <= k <= |pieces| && Flatten(pieces[..k]) == rest && Aligned(rs, pieces[k..]);
      var tail := pieces[..k][1..];
      assert pieces[..k][0] == rest && Flatten(tail) == "";
      NoBytesNoPieces(tail);
    }
  }

  /** A first read that goes beyond `rest`. */
  lemma AlignedLonger(rest: string, rs: seq<Request>, pieces: seq<string>)
    requires pieces != [] && |pieces[0]| > |rest|
    ensures !AlignedFrom(rest, rs, pieces)
  {}

  lemma {:induction false} ClosedStays(s: SessionState, pieces: seq<string>, unset: Method)
    requires !s.open && SafeState(s)
    ensures Serve(s, pieces, unset) == s
    decreases |pieces|
  {
    if pieces != [] { ClosedStays(s, pieces[1..], unset); }
  }

  lemma PrintedNotEmpty(r: Request)
    ensures Printed(r) != ""
  {}

  /** The session is in the middle of rs[0], with `rest` of its bytes to come. */
  ghost predicate Midway(s: SessionState, rest: string, rs: seq<Request>, unset: Method)
    requires rs != []
  {
    && s.open && SafeState(s) && rest != ""
    && var o := Run(s.m, rest);
       && o.result.Good? && o.m.contentsize == 0
       && o.m.req.keepAlive == KeepsAlive(rs[0].headers)
       && Built(o.m.req, unset) == rs[0]
  }

  lemma BeginsMidway(s: SessionState, rs: seq<Request>, unset: Method)
    requires s.open && s.m == START && rs != [] && WellFormed(rs[0]) && LengthFits(rs[0])
    ensures Midway(s, Printed(rs[0]), rs, unset)
  {
    hide Step, Run;
    PrintedRuns(rs[0], unset);
    PrintedNotEmpty(rs[0]);
  }

  /** A log that stops with a 400 after the first k dispatches. */
  ghost predicate CutShort(log: seq<Event>, before: seq<Event>, rs: seq<Request>) {
    exists k :: 0 <= k < |rs| && log == before + Dispatches(rs[..k]) + [BadRequest]
  }

  lemma CutShortLater(log: seq<Event>, before: seq<Event>, rs: seq<Request>)
    requires rs != [] && CutShort(log, before + [Dispatched(rs[0])], rs[1..])
    ensures CutShort(log, before, rs)
  {
    var k :| 0 <= k < |rs[1..]| && log == before + [Dispatched(rs[0])] + Dispatches(rs[1..][..k]) + [BadRequest];
    assert rs[..k + 1][1..] == rs[1..][..k] && rs[..k + 1][0] == rs[0];
    assert before + [Dispatched(rs[0])] + Dispatches(rs[1..][..k]) == before + Dispatches(rs[..k + 1]);
  }

  /** A request that ends with a read is dispatched; the machine is then new, or the session closed. */
  lemma EndsWithRead(s: SessionState, rest: string, rs: seq<Request>, unset: Method)
    requires rs != [] && Midway(s, rest, rs, unset)
    ensures var next := OnRead(s, rest, unset);
            && next.log == s.log + [Dispatched(rs[0])]
            && next.open == KeepsAlive(rs[0].headers)
            && (next.open ==> next.m == START)
  {}

  lemma DispatchesFirst(before: seq<Event>, rs: seq<Request>)
    requires rs != []
    ensures before + [Dispatched(rs[0])] + Dispatches(rs[1..]) == before + Dispatches(rs)
  {}

  lemma SendableRest(rs: seq<Request>)
    requires Sendable(rs) && |rs| > 1
    ensures KeepsAlive(rs[0].headers) && Sendable(rs[1..]) && rs[1..][|rs[1..]| - 1] == rs[|rs| - 1]
  {}

  /** A request ends with this read; the session goes on to the next one, if any. */
  lemma {:induction false} ServeNext(s: SessionState, rest: string, rs: seq<Request>,
                                     pieces: seq<string>, unset: Method)
    requires rs != [] && Sendable(rs) && NonEmpty(pieces) && pieces != [] && pieces[0] == rest
    requires Midway(s, rest, rs, unset)
    requires Flatten(pieces[1..]) == PrintAll(rs[1..])
    ensures Aligned(rs[1..], pieces[1..]) ==>
              && Serve(s, pieces, unset).log == s.log + Dispatches(rs)
              && Serve(s, pieces, unset).open == KeepsAlive(rs[|rs| - 1].headers)
    ensures !Aligned(rs[1..], pieces[1..]) ==> CutShort(Serve(s, pieces, unset).log, s.log, rs)
    decreases |pieces|, 0
  {
    hide AlignedFrom, Step, Run, Printed, Built, OnRead;
    var later, next, r := pieces[1..], OnRead(s, rest, unset), rs[1..];
    EndsWithRead(s, rest, rs, unset);
    DispatchesFirst(s.log, rs);
    if r == [] {
      NoBytesNoPieces(later);
    } else {
      SendableRest(rs);
      BeginsMidway(next, r, unset);
      ServeFrom(next, Printed(r[0]), r, later, unset);
      if !Aligned(r, later) {
        CutShortLater(Serve(next, later, unset).log, s.log, rs);
      }
    }
  }

  lemma {:induction false} ServeFrom(s: SessionState, rest: string, rs: seq<Request>,
                                     pieces: seq<string>, unset: Method)
    requires rs != [] && Sendable(rs) && NonEmpty(pieces)
    requires Midway(s, rest, rs, unset)
    requires Flatten(pieces) == rest + PrintAll(rs[1..])
    ensures AlignedFrom(rest, rs[1..], pieces) ==>
              && Serve(s, pieces, unset).log == s.log + Dispatches(rs)
              && Serve(s, pieces, unset).open == KeepsAlive(rs[|rs| - 1].headers)
    ensures !AlignedFrom(rest, rs[1..], pieces) ==> CutShort(Serve(s, pieces, unset).log, s.log, rs)
    decreases |pieces|
  {
    hide Aligned, AlignedFrom, Step, Run, Printed, Built;
    var d, later := pieces[0], pieces[1..];
    assert Flatten(pieces) == d + Flatten(later);
    var next := OnRead(s, d, unset);
    if |d| < |rest| {
      var left := rest[|d|..];
      CutTwice(rest, PrintAll(rs[1..]), d, Flatten(later));
      SplitAnywhere(s.m, d, left);
      AlignedShorter(rest, rs[1..], pieces);
      ServeFrom(next, left, rs, later, unset);
    } else if |d| == |rest| {
      CutTwice(rest, PrintAll(rs[1..]), d, Flatten(later));
      assert d == rest;
      AlignedExact(rest, rs[1..], pieces);
      ServeNext(s, rest, rs, pieces, unset);
    } else {
      var over := d[|rest|..];
      CutTwice(d, Flatten(later), rest, PrintAll(rs[1..]));
      SplitAnywhere(s.m, rest, over);
      AlignedLonger(rest, rs[1..], pieces);
      ClosedStays(next, later, unset);
      assert rs[..0] == [];
      assert s.log + Dispatches(rs[..0]) + [BadRequest] == next.log;
    }
  }

  lemma {:induction false} DispatchesHaveNoBad(rs: seq<Request>)
    ensures |Dispatches(rs)| == |rs|
    ensures forall i :: 0 <= i < |rs| ==> Dispatches(rs)[i] == Dispatched(rs[i])
  {
    if rs != [] { DispatchesHaveNoBad(rs[1..]); }
  }

  lemma CutShortIsNotAll(log: seq<Event>, rs: seq<Request>)
    requires CutShort(log, [], rs)
    ensures log != Dispatches(rs)
  {
    var k :| 0 <= k < |rs| && log == [] + Dispatches(rs[..k]) + [BadRequest];
    DispatchesHaveNoBad(rs[..k]);
    DispatchesHaveNoBad(rs);
    assert log[|log| - 1] == BadRequest;
  }

  /** Keep-alive, end to end: requests sent one after another and cut into reads anywhere are all
      dispatched, in order and without a 400, exactly when each of them ends where a read ends;
      otherwise the requests before some point are dispatched and the connection ends with a 400. */
  lemma KeepAliveSession(rs: seq<Request>, pieces: seq<string>, unset: Method)
    requires Sendable(rs) && NonEmpty(pieces) && Flatten(pieces) == PrintAll(rs)
    ensures Serve(CONNECTED, pieces, unset).log == Dispatches(rs) <==> Aligned(rs, pieces)
    ensures Aligned(rs, pieces) && rs != [] ==>
              (Serve(CONNECTED, pieces, unset).open <==> KeepsAlive(rs[|rs| - 1].headers))
    ensures !Aligned(rs, pieces) ==> CutShort(Serve(CONNECTED, pieces, unset).log, [], rs)
  {
    hide Step, Run, Printed, Built, AlignedFrom;
    if rs != [] {
      BeginsMidway(CONNECTED, rs, unset);
      ServeFrom(CONNECTED, Printed(rs[0]), rs, pieces, unset);
      assert [] + Dispatches(rs) == Dispatches(rs);
      if !Aligned(rs, pieces) { CutShortIsNotAll(Serve(CONNECTED, pieces, unset).log, rs); }
    }
  }

  /** Some header is Connection with the value keep-alive, whatever letters are capitals. */
  ghost predicate SaysKeepAlive(hs: seq<Header>) {
    exists i :: 0 <= i < |hs| && LowerCase(hs[i].name) == "connection" && LowerCase(hs[i].value) == "keep-alive"
  }

  lemma KeepsAliveIsSaid(hs: seq<Header>)
    ensures KeepsAlive(hs) <==> SaysKeepAlive(hs)
  {
    hide AsksKeepAlive;
    forall i | 0 <= i < |hs|
      ensures AsksKeepAlive(hs[i]) <==> LowerCase(hs[i].name) == "connection" && LowerCase(hs[i].value) == "keep-alive"
    {
      KeepAliveHeader(hs[i]);
    }
  }

  lemma PrintAllOne(r: Request)
    ensures PrintAll([r]) == Printed(r) && Dispatches([r]) == [Dispatched(r)]
  {
    hide Printed;
    assert [r][1..] == [] && PrintAll([]) == "" && Dispatches([]) == [];
  }

  /** The end of the last read is the end of the last request. */
  lemma AlignedAlone(r: Request, pieces: seq<string>)
    requires Flatten(pieces) == Printed(r)
    ensures Aligned([r], pieces)
  {
    PrintedNotEmpty(r);
    hide Printed;
    assert [r][1..] == [] && pieces != [];
    assert pieces[..|pieces|] == pieces && pieces[|pieces|..] == [] && Aligned([], []);
    assert AlignedFrom(Printed(r), [], pieces);
  }

  /** After one request that declares its body, cut into reads anywhere, the connection stays open exactly when
      the request has a Connection header with the value keep-alive; and then the session is as it was at
      the start, but for the log. */
  lemma OpenAfterRequest(r: Request, pieces: seq<string>, unset: Method)
    requires WellFormed(r) && LengthFits(r) && NonEmpty(pieces) && Flatten(pieces) == Printed(r)
    ensures Serve(CONNECTED, pieces, unset).log == [Dispatched(r)]
    ensures Serve(CONNECTED, pieces, unset).open <==> SaysKeepAlive(r.headers)
  {
    hide Step, Run, Printed, Built, Aligned, AlignedFrom, WellFormed, LengthFits;
    PrintAllOne(r);
    KeepsAliveIsSaid(r.headers);
    AlignedAlone(r, pieces);
    KeepAliveSession([r], pieces, unset);
  }
}
