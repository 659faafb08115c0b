/** The incremental request parser: one byte at a time, over reads cut anywhere. */
module RequestParsing {
  import opened Text
  import opened Headers
  import opened Requests

  datatype State =
    | MethodStart | Method | Uri
    | VersionH | VersionT1 | VersionT2 | VersionP | VersionSlash
    | MajorStart | Major | MinorStart | Minor
    | ExpectingNewline1 | HeaderLineStart | HeaderLws | HeaderName | SpaceBeforeValue | HeaderValue
    | ExpectingNewline2 | ExpectingNewline3 | ExpectingBody

  datatype RawMachine = Machine(state: State, contentsize: int, req: Builder)

  /** In these states `headers.back()` is used. */
  predicate InsideHeader(s: State) { s.HeaderLws? || s.HeaderName? || s.SpaceBeforeValue? || s.HeaderValue? }

  /** The parser's two fields with the builder it fills, never about to touch an absent header. */
  type Machine = m: RawMachine | InsideHeader(m.state) ==> m.req.headers != []
    witness Machine(MethodStart, 0, FRESH)

  const START: Machine := Machine(MethodStart, 0, FRESH)

  // ---- One byte ----

  function Fail(m: Machine): (Machine, ResultType) { (m, Bad) }

  function Go(m: Machine, s: State): (Machine, ResultType)
    requires InsideHeader(s) ==> m.req.headers != []
  {
    (m.(state := s), Indeterminate)
  }

  function Expect(m: Machine, c: char, wanted: char, s: State): (Machine, ResultType)
    requires InsideHeader(s) ==> m.req.headers != []
  {
    if c == wanted then Go(m, s) else Fail(m)
  }

  function WithMethod(m: Machine, c: char): Machine { m.(req := m.req.(meth := m.req.meth + [c])) }

  function WithUri(m: Machine, c: char): Machine { m.(req := m.req.(uri := m.req.uri + [c])) }

  function WithMajor(m: Machine, c: char): Machine
    requires IsDigit(c)
  {
    m.(req := m.req.(major := m.req.major * 10 + DigitValue(c)))
  }

  function WithMinor(m: Machine, c: char): Machine
    requires IsDigit(c)
  {
    m.(req := m.req.(minor := m.req.minor * 10 + DigitValue(c)))
  }

  function WithNewHeader(m: Machine, c: char): (r: Machine)
    ensures r.req.headers != []
  {
    m.(req := m.req.(headers := m.req.headers + [Header([c], "")]))
  }

  function Back(m: Machine): Header
    requires m.req.headers != []
  {
    m.req.headers[|m.req.headers| - 1]
  }

  function Front(m: Machine): seq<Header>
    requires m.req.headers != []
  {
    m.req.headers[..|m.req.headers| - 1]
  }

  function WithName(m: Machine, c: char): (r: Machine)
    requires m.req.headers != []
    ensures r.req.headers != []
  {
    m.(req := m.req.(headers := Front(m) + [Header(Back(m).name + [c], Back(m).value)]))
  }

  function WithValue(m: Machine, c: char): (r: Machine)
    requires m.req.headers != []
    ensures r.req.headers != []
  {
    m.(req := m.req.(headers := Front(m) + [Header(Back(m).name, Back(m).value + [c])]))
  }

  /** The end of a header line: Content-Length and Connection take effect. */
  function EndValue(m: Machine): (Machine, ResultType)
    requires m.req.headers != []
  {
    var h := Back(m);
    var size := Stoi(h.value);
    if IsContentLength(h.name) && size.None? then Fail(m)
    else
      var m1 := if IsContentLength(h.name) then m.(contentsize := size.value, req := m.req.(bodysize := size.value))
           else m;
      if IsContentLength(h.name) && size.value < 0 then Fail(m1)
      else
        var m2 := if AsksKeepAlive(h) then m1.(req := m1.req.(keepAlive := true)) else m1;
        Go(m2, ExpectingNewline2)
  }

  predicate InTarget(s: State) { s.MethodStart? || s.Method? || s.Uri? }

  predicate InHeader(s: State) { InsideHeader(s) || s.HeaderLineStart? || s.ExpectingNewline2? }

  predicate InBody(s: State) { s.ExpectingNewline3? || s.ExpectingBody? }

  predicate InVersion(s: State) { !InTarget(s) && !InHeader(s) && !InBody(s) }

  function StepTarget(m: Machine, c: char): (Machine, ResultType)
    requires InTarget(m.state)
  {
    match m.state
    case MethodStart =>
      if !IsTokenChar(c) then Fail(m) else Go(WithMethod(m, c), Method)
    case Method =>
      if c == ' ' then Go(m, Uri)
      else if !IsTokenChar(c) then Fail(m) else Go(WithMethod(m, c), Method)
    case Uri =>
      if c == ' ' then Go(m, VersionH)
      else if IsCtl(c) then Fail(m) else Go(WithUri(m, c), Uri)
  }

  function StepVersion(m: Machine, c: char): (Machine, ResultType)
    requires InVersion(m.state)
  {
    match m.state
    case VersionH => Expect(m, c, 'H', VersionT1)
    case VersionT1 => Expect(m, c, 'T', VersionT2)
    case VersionT2 => Expect(m, c, 'T', VersionP)
    case VersionP => Expect(m, c, 'P', VersionSlash)
    case VersionSlash =>
      if c == '/' then Go(m.(req := m.req.(major := 0, minor := 0)), MajorStart) else Fail(m)
    case MajorStart =>
      if IsDigit(c) then Go(WithMajor(m, c), Major) else Fail(m)
    case Major =>
      if c == '.' then Go(m, MinorStart)
      else if IsDigit(c) then Go(WithMajor(m, c), Major) else Fail(m)
    case MinorStart =>
      if IsDigit(c) then Go(WithMinor(m, c), Minor) else Fail(m)
    case Minor =>
      if c == '\r' then Go(m, ExpectingNewline1)
      else if IsDigit(c) then Go(WithMinor(m, c), Minor) else Fail(m)
    case ExpectingNewline1 => Expect(m, c, '\n', HeaderLineStart)
  }

  function StepHeader(m: Machine, c: char): (Machine, ResultType)
    requires InHeader(m.state)
  {
    match m.state
    case HeaderLineStart =>
      if c == '\r' then Go(m, ExpectingNewline3)
      else if m.req.headers != [] && (c == ' ' || c == '\t') then Go(m, HeaderLws)
      else if !IsTokenChar(c) then Fail(m) else Go(WithNewHeader(m, c), HeaderName)
    case HeaderLws =>
      if c == '\r' then Go(m, ExpectingNewline2)
      else if c == ' ' || c == '\t' then Go(m, HeaderLws)
      else if IsCtl(c) then Fail(m) else Go(WithValue(m, c), HeaderValue)
    case HeaderName =>
      if c == ':' then Go(m, SpaceBeforeValue)
      else if !IsTokenChar(c) then Fail(m) else Go(WithName(m, c), HeaderName)
    case SpaceBeforeValue => Expect(m, c, ' ', HeaderValue)
    case HeaderValue =>
      if c == '\r' then EndValue(m)
      else if IsCtl(c) then Fail(m) else Go(WithValue(m, c), HeaderValue)
    case ExpectingNewline2 => Expect(m, c, '\n', HeaderLineStart)
  }

  function StepBody(m: Machine, c: char): (Machine, ResultType)
    requires InBody(m.state)
  {
    match m.state
    case ExpectingNewline3 =>
      if m.contentsize == 0 then (m, if c == '\n' then Good else Bad)
      else Go(m, ExpectingBody)
    case ExpectingBody =>
      var m1 := m.(contentsize := m.contentsize - 1, req := m.req.(body := m.req.body + [c]));
      (m1, if m1.contentsize == 0 then Good else Indeterminate)
  }

  function Step(m: Machine, c: char): (Machine, ResultType) {
    if InTarget(m.state) then StepTarget(m, c)
    else if InHeader(m.state) then StepHeader(m, c)
    else if InBody(m.state) then StepBody(m, c)
    else StepVersion(m, c)
  }

  // ---- A run of bytes ----

  function Run(m: Machine, s: string): (o: Outcome<Machine>)
    ensures o.taken <= |s|
    decreases |s|
  {
    if s == "" then Outcome(m, Indeterminate, 0) else
    var (m1, r) := Step(m, s[0]);
    if r.Bad? then Outcome(m1, Bad, 1)
    else if r.Good? then Outcome(m1, if |s| == 1 then Good else Bad, 1)
    else Shift(Run(m1, s[1..]), 1)
  }

  class RequestParser {
    var state: State
    var contentsize: int

    constructor ()
      ensures state == MethodStart && contentsize == 0
    {
      state, contentsize := MethodStart, 0;
    }

    /** Only the state is restored. */
    method Reset()
      modifies this`state
      ensures state == MethodStart
    {
      state := MethodStart;
    }

    function Snapshot(req: RequestBuilder): RawMachine
      reads this, req
    {
      Machine(state, contentsize, req.Value())
    }

    predicate Safe(req: RequestBuilder)
      reads this, req
    {
      InsideHeader(state) ==> req.headers != []
    }

    method PushValue(req: RequestBuilder, input: char)
      requires req.headers != []
      modifies req`headers
      ensures req.headers == old(req.headers[..|req.headers| - 1]
        + [Header(req.headers[|req.headers| - 1].name, req.headers[|req.headers| - 1].value + [input])])
    {
      var last := |req.headers| - 1;
      var h := req.headers[last];
      req.headers := req.headers[..last] + [Header(h.name, h.value + [input])];
    }

    /** `consume` at the carriage return after a header value. */
    method FinishValue(req: RequestBuilder) returns (result: ResultType)
      requires req.headers != [] && state.HeaderValue?
      modifies this, req
      ensures req.headers != []
      ensures (Snapshot(req), result) == EndValue(old(Snapshot(req)))
    {
      var h := req.headers[|req.headers| - 1];
      if IsContentLength(h.name) {
        var size := Stoi(h.value);
        if size.None? { return Bad; }
        req.bodysize := size.value;
        contentsize := size.value;
        if req.bodysize < 0 { return Bad; }  // reserve throws
      }
      if AsksKeepAlive(h) {
        req.keepAlive := true;
      }
      state := ExpectingNewline2;
      return Indeterminate;
    }

    /** `consume` in the states of the method and the uri. */
    method ConsumeTarget(req: RequestBuilder, input: char) returns (result: ResultType)
      requires Safe(req) && InTarget(state)
      modifies this, req
      ensures Safe(req)
      ensures (Snapshot(req), result) == StepTarget(old(Snapshot(req)), input)
    {
      match state {
        case MethodStart =>
          if !IsChar(input) || IsCtl(input) || IsTspecial(input) { return Bad; }
          state := Method;
          req.meth := req.meth + [input];
          return Indeterminate;
        case Method =>
          if input == ' ' { state := Uri; return Indeterminate; }
          if !IsChar(input) || IsCtl(input) || IsTspecial(input) { return Bad; }
          req.meth := req.meth + [input];
          return Indeterminate;
        case Uri =>
          if input == ' ' { state := VersionH; return Indeterminate; }
          if IsCtl(input) { return Bad; }
          req.uri := req.uri + [input];
          return Indeterminate;
      }
    }

    /** `consume` in the states of the version. */
    method ConsumeVersion(req: RequestBuilder, input: char) returns (result: ResultType)
      requires Safe(req) && InVersion(state)
      modifies this, req
      ensures Safe(req)
      ensures (Snapshot(req), result) == StepVersion(old(Snapshot(req)), input)
    {
      hide IsDigit, DigitValue;
      match state {
        case VersionH =>
          if input == 'H' { state := VersionT1; return Indeterminate; }
          return Bad;
        case VersionT1 =>
          if input == 'T' { state := VersionT2; return Indeterminate; }
          return Bad;
        case VersionT2 =>
          if input == 'T' { state := VersionP; return Indeterminate; }
          return Bad;
        case VersionP =>
          if input == 'P' { state := VersionSlash; return Indeterminate; }
          return Bad;
        case VersionSlash =>
          if input == '/' {
            req.major, req.minor := 0, 0;
            state := MajorStart;
            return Indeterminate;
          }
          return Bad;
        case MajorStart =>
          if IsDigit(input) {
            req.major := req.major * 10 + DigitValue(input);
            state := Major;
            return Indeterminate;
          }
          return Bad;
        case Major =>
          if input == '.' { state := MinorStart; return Indeterminate; }
          if IsDigit(input) {
            req.major := req.major * 10 + DigitValue(input);
            return Indeterminate;
          }
          return Bad;
        case MinorStart =>
          if IsDigit(input) {
            req.minor := req.minor * 10 + DigitValue(input);
            state := Minor;
            return Indeterminate;
          }
          return Bad;
        case Minor =>
          if input == '\r' { state := ExpectingNewline1; return Indeterminate; }
          if IsDigit(input) {
            req.minor := req.minor * 10 + DigitValue(input);
            return Indeterminate;
          }
          return Bad;
        case ExpectingNewline1 =>
          if input == '\n' { state := HeaderLineStart; return Indeterminate; }
          return Bad;
      }
    }

    /** `consume` in the states of the header lines. */
    method ConsumeHeader(req: RequestBuilder, input: char) returns (result: ResultType)
      requires Safe(req) && InHeader(state)
      modifies this, req
      ensures Safe(req)
      ensures (Snapshot(req), result) == StepHeader(old(Snapshot(req)), input)
    {
      match state {
        case HeaderLineStart =>
          if input == '\r' { state := ExpectingNewline3; return Indeterminate; }
          if req.headers != [] && (input == ' ' || input == '\t') { state := HeaderLws; return Indeterminate; }
          if !IsChar(input) || IsCtl(input) || IsTspecial(input) { return Bad; }
          req.headers := req.headers + [Header([input], "")];
          state := HeaderName;
          return Indeterminate;
        case HeaderLws =>
          if input == '\r' { state := ExpectingNewline2; return Indeterminate; }
          if input == ' ' || input == '\t' { return Indeterminate; }
          if IsCtl(input) { return Bad; }
          state := HeaderValue;
          PushValue(req, input);
          return Indeterminate;
        case HeaderName =>
          if input == ':' { state := SpaceBeforeValue; return Indeterminate; }
          if !IsChar(input) || IsCtl(input) || IsTspecial(input) { return Bad; }
          var last := |req.headers| - 1;
          var h := req.headers[last];
          req.headers := req.headers[..last] + [Header(h.name + [input], h.value)];
          return Indeterminate;
        case SpaceBeforeValue =>
          if input == ' ' { state := HeaderValue; return Indeterminate; }
          return Bad;
        case HeaderValue =>
          if input == '\r' {
            result := FinishValue(req);
            return;
          }
          if IsCtl(input) { return Bad; }
          PushValue(req, input);
          return Indeterminate;
        case ExpectingNewline2 =>
          if input == '\n' { state := HeaderLineStart; return Indeterminate; }
          return Bad;
      }
    }

    /** `consume` in the states of the end of the head and the body. */
    method ConsumeBody(req: RequestBuilder, input: char) returns (result: ResultType)
      requires Safe(req) && InBody(state)
      modifies this, req
      ensures Safe(req)
      ensures (Snapshot(req), result) == StepBody(old(Snapshot(req)), input)
    {
      match state {
        case ExpectingNewline3 =>
          if contentsize == 0 {
            return if input == '\n' then Good else Bad;
          }
          state := ExpectingBody;
          return Indeterminate;
        case ExpectingBody =>
          contentsize := contentsize - 1;
          req.body := req.body + [input];
          return if contentsize == 0 then Good else Indeterminate;
      }
    }

    method Consume(req: RequestBuilder, input: char) returns (result: ResultType)
      requires Safe(req)
      modifies this, req
      ensures Safe(req)
      ensures (Snapshot(req), result) == Step(old(Snapshot(req)), input)
    {
      if InTarget(state) {
        result := ConsumeTarget(req, input);
      } else if InHeader(state) {
        result := ConsumeHeader(req, input);
      } else if InBody(state) {
        result := ConsumeBody(req, input);
      } else {
        result := ConsumeVersion(req, input);
      }
    }

    method Parse(req: RequestBuilder, data: string) returns (result: ResultType, begin: nat)
      requires Safe(req)
      modifies this, req
      ensures Safe(req)
      ensures Outcome(Snapshot(req), result, begin) == Run(old(Snapshot(req)), data)
    {
      hide Step;
      begin := 0;
      while begin < |data|
        invariant 0 <= begin <= |data|
        invariant Safe(req)
        invariant var o := Run(Snapshot(req), data[begin..]);
                  Run(old(Snapshot(req)), data) == Outcome(o.m, o.result, o.taken + begin)
      {
        assert data[begin..][1..] == data[begin + 1..];
        result := Consume(req, data[begin]);
        begin := begin + 1;
        if (result.Good? && begin == |data|) || result.Bad? {
          return;
        } else if result.Good? && begin != |data| {
          return Bad, begin;
        }
      }
      result := Indeterminate;
    }
  }
}
