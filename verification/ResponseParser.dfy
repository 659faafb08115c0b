/** The incremental response parser, and the loop that reads a response with it. */
module ResponseParsing {
  import opened Text
  import opened Headers
  import opened Responses

  datatype State =
    | VersionH | VersionT1 | VersionT2 | VersionP | VersionSlash
    | MajorStart | Major | MinorStart | Minor
    | StatusCode1 | StatusCode2 | StatusCode3 | SpaceBeforeReason | ReasonPhrase
    | ExpectingNewline1 | HeaderLineStart | HeaderLws | HeaderName | SpaceBeforeValue | HeaderValue
    | ExpectingNewline2 | ExpectingNewline3 | ExpectingBody
    | ChunkSizeStart | ChunkSize | ExpectingNewline4 | ExpectingChunk | ExpectingNewline5

  datatype RawMachine = Machine(state: State, res: Builder)

  predicate InsideHeader(s: State) { s.HeaderLws? || s.HeaderName? || s.SpaceBeforeValue? || s.HeaderValue? }

  /** The parser never touches an absent header, and collects only hex digits as a chunk size. */
  predicate SafeMachine(m: RawMachine) {
    && (InsideHeader(m.state) ==> m.res.headers != [])
    && (m.state.ChunkSize? ==> m.res.chunksizehex != "" && AllHex(m.res.chunksizehex))
  }

  type Machine = m: RawMachine | SafeMachine(m) witness Machine(VersionH, Fresh(0, 0))

  function Start(contentsize: int, chunksize: int): Machine { Machine(VersionH, Fresh(contentsize, chunksize)) }

  // ---- One byte ----

  function Fail(m: Machine): (Machine, ResultType) { (m, Bad) }

  function Go(m: Machine, s: State): (Machine, ResultType)
    requires SafeMachine(m.(state := s))
  {
    (m.(state := s), Indeterminate)
  }

  function Expect(m: Machine, c: char, wanted: char, s: State): (Machine, ResultType)
    requires SafeMachine(m.(state := s))
  {
    if c == wanted then Go(m, s) else Fail(m)
  }

  function WithMajor(m: Machine, c: char): Machine
    requires IsDigit(c)
  {
    m.(res := m.res.(major := m.res.major * 10 + DigitValue(c)))
  }

  function WithMinor(m: Machine, c: char): Machine
    requires IsDigit(c)
  {
    m.(res := m.res.(minor := m.res.minor * 10 + DigitValue(c)))
  }

  function WithCode(m: Machine, code: int): Machine { m.(res := m.res.(code := code)) }

  function Back(m: Machine): Header
    requires m.res.headers != []
  {
    m.res.headers[|m.res.headers| - 1]
  }

  function Front(m: Machine): seq<Header>
    requires m.res.headers != []
  {
    m.res.headers[..|m.res.headers| - 1]
  }

  function WithHeader(m: Machine, h: Header): (r: Machine)
    ensures r.res.headers != []
  {
    m.(res := m.res.(headers := m.res.headers + [h]))
  }

  function WithName(m: Machine, c: char): (r: Machine)
    requires m.res.headers != []
    ensures r.res.headers != []
  {
    m.(res := m.res.(headers := Front(m) + [Header(Back(m).name + [c], Back(m).value)]))
  }

  function WithValue(m: Machine, c: char): (r: Machine)
    requires m.res.headers != []
    ensures r.res.headers != []
  {
    m.(res := m.res.(headers := Front(m) + [Header(Back(m).name, Back(m).value + [c])]))
  }

  /** The end of a header line: Content-Length, Transfer-Encoding and Connection take effect. */
  function EndValue(m: Machine): (Machine, ResultType)
    requires m.res.headers != []
  {
    var h := Back(m);
    var size := Stoi(h.value);
    if IsContentLength(h.name) && size.None? then Fail(m)
    else
      var m1 := if IsContentLength(h.name) then m.(res := m.res.(contentsize := size.value)) else m;
      if IsContentLength(h.name) && size.value < 0 then Fail(m1)
      else
        var m2 := if AsksChunked(h) then m1.(res := m1.res.(chunked := true)) else m1;
        var m3 := if AsksKeepAlive(h) then m2.(res := m2.res.(keepAlive := true)) else m2;
        Go(m3, ExpectingNewline2)
  }

  predicate IsReasonChar(c: char) { IsChar(c) && !IsCtl(c) && (!IsTspecial(c) || c == ' ') }

  predicate InProtocol(s: State) { s.VersionH? || s.VersionT1? || s.VersionT2? || s.VersionP? || s.VersionSlash? }

  predicate InNumbers(s: State) { s.MajorStart? || s.Major? || s.MinorStart? || s.Minor? }

  predicate InVersion(s: State) { InProtocol(s) || InNumbers(s) }

  predicate InStatus(s: State) {
    || s.StatusCode1? || s.StatusCode2? || s.StatusCode3? || s.SpaceBeforeReason? || s.ReasonPhrase?
    || s.ExpectingNewline1?
  }

  predicate InHeader(s: State) { InsideHeader(s) || s.HeaderLineStart? || s.ExpectingNewline2? }

  predicate InBody(s: State) { s.ExpectingNewline3? || s.ExpectingBody? }

  predicate InChunk(s: State) { !InVersion(s) && !InStatus(s) && !InHeader(s) && !InBody(s) }

  function StepVersion(m: Machine, c: char): (Machine, ResultType)
    requires InVersion(m.state)
  {
    match m.state
    case VersionH => Expect(m, c, 'H', VersionT1)
    case VersionT1 => Expect(m, c, 'T', VersionT2)
    case VersionT2 => Expect(m, c, 'T', VersionP)
    case VersionP => Expect(m, c, 'P', VersionSlash)
    case VersionSlash =>
      if c == '/' then Go(m.(res := m.res.(major := 0, minor := 0)), MajorStart) else Fail(m)
    case MajorStart =>
      if IsDigit(c) then Go(WithMajor(m, c), Major) else Fail(m)
    case Major =>
      if c == '.' then Go(m, MinorStart)
      else if IsDigit(c) then Go(WithMajor(m, c), Major) else Fail(m)
    case MinorStart =>
      if IsDigit(c) then Go(WithMinor(m, c), Minor) else Fail(m)
    case Minor =>
      if c == ' ' then Go(m, StatusCode1)
      else if IsDigit(c) then Go(WithMinor(m, c), Minor) else Fail(m)
  }

  function StepStatus(m: Machine, c: char): (Machine, ResultType)
    requires InStatus(m.state)
  {
    match m.state
    case StatusCode1 =>
      if '1' <= c <= '5' then Go(WithCode(m, DigitValue(c)), StatusCode2) else Fail(m)
    case StatusCode2 =>
      if IsDigit(c) then Go(WithCode(m, m.res.code * 10 + DigitValue(c)), StatusCode3) else Fail(m)
    case StatusCode3 =>
      if IsDigit(c) then Go(WithCode(m, m.res.code * 10 + DigitValue(c)), SpaceBeforeReason) else Fail(m)
    case SpaceBeforeReason => Expect(m, c, ' ', ReasonPhrase)
    case ReasonPhrase =>
      if c == '\r' then Go(m, ExpectingNewline1)
      else if !IsReasonChar(c) then Fail(m)
      else Go(m.(res := m.res.(reason := m.res.reason + [c])), ReasonPhrase)
    case ExpectingNewline1 => Expect(m, c, '\n', HeaderLineStart)
  }

  function StepHeader(m: Machine, c: char): (Machine, ResultType)
    requires InHeader(m.state)
  {
    match m.state
    case HeaderLineStart =>
      if c == '\r' then Go(m, ExpectingNewline3)
      else if m.res.headers != [] && (c == ' ' || c == '\t') then Go(m, HeaderLws)
      else if !IsTokenChar(c) then Fail(m) else Go(WithHeader(m, Header([c], "")), HeaderName)
    case HeaderLws =>
      if c == '\r' then Go(m, ExpectingNewline2)
      else if c == ' ' || c == '\t' then Go(m, HeaderLws)
      else if IsCtl(c) then Fail(m) else Go(WithValue(m, c), HeaderValue)
    case HeaderName =>
      if c == ':' then Go(m, SpaceBeforeValue)
      else if !IsTokenChar(c) then Fail(m) else Go(WithName(m, c), HeaderName)
    case SpaceBeforeValue => Expect(m, c, ' ', HeaderValue)
    case HeaderValue =>
      if c == '\r' then EndValue(m)
      else if IsCtl(c) then Fail(m) else Go(WithValue(m, c), HeaderValue)
    case ExpectingNewline2 => Expect(m, c, '\n', HeaderLineStart)
  }

  function StepBody(m: Machine, c: char): (Machine, ResultType)
    requires InBody(m.state)
  {
    match m.state
    case ExpectingNewline3 =>
      if c != '\n' then Fail(m)
      else if m.res.chunked then Go(m, ChunkSizeStart)
      else if m.res.contentsize == 0 then (m, Good)
      else Go(m, ExpectingBody)
    case ExpectingBody =>
      var m1 := m.(res := m.res.(contentsize := m.res.contentsize - 1, body := m.res.body + [c]));
      (m1, if m1.res.contentsize == 0 then Good else Indeterminate)
  }

  function StepChunk(m: Machine, c: char): (Machine, ResultType)
    requires InChunk(m.state)
  {
    match m.state
    case ChunkSizeStart =>
      if IsHex(c) then Go(m.(res := m.res.(chunksizehex := [c])), ChunkSize) else Fail(m)
    case ChunkSize =>
      if IsHex(c) then Go(m.(res := m.res.(chunksizehex := m.res.chunksizehex + [c])), ChunkSize)
      else if c == '\r' then
        var size := HexValue(m.res.chunksizehex);
        if size > INT_MAX then Fail(m.(state := ExpectingNewline4))
        else
          (m.(state := ExpectingNewline4, res := m.res.(chunksize := size)),
           if size == 0 then Good else Indeterminate)
      else Fail(m)
    case ExpectingNewline4 => Expect(m, c, '\n', ExpectingChunk)
    case ExpectingChunk =>
      var m1 := m.(res := m.res.(chunksize := m.res.chunksize - 1));
      if c == '\r' && m1.res.chunksize == -1 then Go(m1, ExpectingNewline5)
      else Go(m1.(res := m1.res.(body := m1.res.body + [c])), ExpectingChunk)
    case ExpectingNewline5 => Expect(m, c, '\n', ChunkSizeStart)
  }

  function Step(m: Machine, c: char): (Machine, ResultType) {
    if InVersion(m.state) then StepVersion(m, c)
    else if InStatus(m.state) then StepStatus(m, c)
    else if InHeader(m.state) then StepHeader(m, c)
    else if InBody(m.state) then StepBody(m, c)
    else StepChunk(m, c)
  }

  // ---- A run of bytes ----

  /** A run ends early on bad and on the final chunk; otherwise the answer is the last byte's. */
  predicate Stops(m: Machine, r: ResultType) {
    r.Bad? || (r.Good? && m.res.chunked && m.res.chunksize == 0)
  }

  function Run(m: Machine, s: string): (o: Outcome<Machine>)
    ensures o.taken <= |s|
    decreases |s|
  {
    if s == "" then Outcome(m, Indeterminate, 0) else
    var (m1, r) := Step(m, s[0]);
    if |s| == 1 || Stops(m1, r) then Outcome(m1, r, 1)
    else Shift(Run(m1, s[1..]), 1)
  }

  /** `read_response`: reads until the answer is good or bad; None when it is bad or the peer stops. */
  function ReadAll(m: Machine, pieces: seq<string>): Option<Response>
    decreases |pieces|
  {
    if pieces == [] then None else
    var o := Run(m, pieces[0]);
    match o.result
    case Good => Some(Built(o.m.res))
    case Bad => None
    case Indeterminate => ReadAll(o.m, pieces[1..])
  }

  class ResponseParser {
    var state: State

    constructor ()
      ensures state == VersionH
    {
      state := VersionH;
    }

    method Reset()
      modifies this
      ensures state == VersionH
    {
      state := VersionH;
    }

    function Snapshot(res: ResponseBuilder): RawMachine
      reads this, res
    {
      Machine(state, res.Value())
    }

    method PushValue(res: ResponseBuilder, input: char)
      requires res.headers != []
      modifies res`headers
      ensures res.headers == old(res.headers[..|res.headers| - 1]
        + [Header(res.headers[|res.headers| - 1].name, res.headers[|res.headers| - 1].value + [input])])
    {
      var last := |res.headers| - 1;
      var h := res.headers[last];
      res.headers := res.headers[..last] + [Header(h.name, h.value + [input])];
    }

    /** `consume` in the states of the protocol name. */
    method ConsumeProtocol(res: ResponseBuilder, input: char) returns (result: ResultType)
      requires SafeMachine(Snapshot(res)) && InProtocol(state)
      modifies this, res
      ensures SafeMachine(Snapshot(res))
      ensures (Snapshot(res), result) == StepVersion(old(Snapshot(res)), input)
    {
      match state {
        case VersionH =>
          if input == 'H' { state := VersionT1; return Indeterminate; }
          return Bad;
        case VersionT1 =>
          if input == 'T' { state := VersionT2; return Indeterminate; }
          return Bad;
        case VersionT2 =>
          if input == 'T' { state := VersionP; return Indeterminate; }
          return Bad;
        case VersionP =>
          if input == 'P' { state := VersionSlash; return Indeterminate; }
          return Bad;
        case VersionSlash =>
          if input == '/' {
            res.major, res.minor := 0, 0;
            state := MajorStart;
            return Indeterminate;
          }
          return Bad;
      }
    }

    /** `consume` in the states of the two version numbers. */
    method ConsumeNumbers(res: ResponseBuilder, input: char) returns (result: ResultType)
      requires SafeMachine(Snapshot(res)) && InNumbers(state)
      modifies this, res
      ensures SafeMachine(Snapshot(res))
      ensures (Snapshot(res), result) == StepVersion(old(Snapshot(res)), input)
    {
      hide IsDigit, DigitValue;
      match state {
        case MajorStart =>
          if IsDigit(input) {
            res.major := res.major * 10 + DigitValue(input);
            state := Major;
            return Indeterminate;
          }
          return Bad;
        case Major =>
          if input == '.' { state := MinorStart; return Indeterminate; }
          if IsDigit(input) {
            res.major := res.major * 10 + DigitValue(input);
            return Indeterminate;
          }
          return Bad;
        case MinorStart =>
          if IsDigit(input) {
            res.minor := res.minor * 10 + DigitValue(input);
            state := Minor;
            return Indeterminate;
          }
          return Bad;
        case Minor =>
          if input == ' ' { state := StatusCode1; return Indeterminate; }
          if IsDigit(input) {
            res.minor := res.minor * 10 + DigitValue(input);
            return Indeterminate;
          }
          return Bad;
      }
    }

    /** `consume` in the states of the version of the status line. */
    method ConsumeVersion(res: ResponseBuilder, input: char) returns (result: ResultType)
      requires SafeMachine(Snapshot(res)) && InVersion(state)
      modifies this, res
      ensures SafeMachine(Snapshot(res))
      ensures (Snapshot(res), result) == StepVersion(old(Snapshot(res)), input)
    {
      hide StepVersion;
      if InProtocol(state) {
        result := ConsumeProtocol(res, input);
      } else {
        result := ConsumeNumbers(res, input);
      }
    }

    /** `consume` in the states of the code and reason of the status line. */
    method ConsumeStatus(res: ResponseBuilder, input: char) returns (result: ResultType)
      requires SafeMachine(Snapshot(res)) && InStatus(state)
      modifies this, res
      ensures SafeMachine(Snapshot(res))
      ensures (Snapshot(res), result) == StepStatus(old(Snapshot(res)), input)
    {
      match state {
        case StatusCode1 =>
          if '1' <= input <= '5' {
            state := StatusCode2;
            res.code := DigitValue(input);
            return Indeterminate;
          }
          return Bad;
        case StatusCode2 =>
          if IsDigit(input) {
            state := StatusCode3;
            res.code := res.code * 10 + DigitValue(input);
            return Indeterminate;
          }
          return Bad;
        case StatusCode3 =>
          if IsDigit(input) {
            state := SpaceBeforeReason;
            res.code := res.code * 10 + DigitValue(input);
            return Indeterminate;
          }
          return Bad;
        case SpaceBeforeReason =>
          if input == ' ' { state := ReasonPhrase; return Indeterminate; }
          return Bad;
        case ReasonPhrase =>
          if input == '\r' { state := ExpectingNewline1; return Indeterminate; }
          if !IsChar(input) || IsCtl(input) || (IsTspecial(input) && input != ' ') { return Bad; }
          res.reason := res.reason + [input];
          return Indeterminate;
        case ExpectingNewline1 =>
          if input == '\n' { state := HeaderLineStart; return Indeterminate; }
          return Bad;
      }
    }

    /** `consume` at the carriage return after a header value. */
    method FinishValue(res: ResponseBuilder) returns (result: ResultType)
      requires res.headers != [] && state.HeaderValue?
      modifies this, res
      ensures res.headers != []
      ensures (Snapshot(res), result) == EndValue(old(Snapshot(res)))
    {
      hide IsContentLength, AsksChunked, AsksKeepAlive, Stoi;
      var h := res.headers[|res.headers| - 1];
      if IsContentLength(h.name) {
        var size := Stoi(h.value);
        if size.None? { return Bad; }
        res.contentsize := size.value;
        if res.contentsize < 0 { return Bad; }  // reserve throws
      }
      if AsksChunked(h) {
        res.chunked := true;
      }
      if AsksKeepAlive(h) {
        res.keepAlive := true;
      }
      state := ExpectingNewline2;
      return Indeterminate;
    }

    /** `consume` in the states of the header lines. */
    method ConsumeHeader(res: ResponseBuilder, input: char) returns (result: ResultType)
      requires SafeMachine(Snapshot(res)) && InHeader(state)
      modifies this, res
      ensures SafeMachine(Snapshot(res))
      ensures (Snapshot(res), result) == StepHeader(old(Snapshot(res)), input)
    {
      hide IsChar, IsCtl, IsTspecial, EndValue;
      match state {
        case HeaderLineStart =>
          if input == '\r' { state := ExpectingNewline3; return Indeterminate; }
          if res.headers != [] && (input == ' ' || input == '\t') { state := HeaderLws; return Indeterminate; }
          if !IsChar(input) || IsCtl(input) || IsTspecial(input) { return Bad; }
          res.headers := res.headers + [Header([input], "")];
          state := HeaderName;
          return Indeterminate;
        case HeaderLws =>
          if input == '\r' { state := ExpectingNewline2; return Indeterminate; }
          if input == ' ' || input == '\t' { return Indeterminate; }
          if IsCtl(input) { return Bad; }
          state := HeaderValue;
          PushValue(res, input);
          return Indeterminate;
        case HeaderName =>
          if input == ':' { state := SpaceBeforeValue; return Indeterminate; }
          if !IsChar(input) || IsCtl(input) || IsTspecial(input) { return Bad; }
          var last := |res.headers| - 1;
          var h := res.headers[last];
          res.headers := res.headers[..last] + [Header(h.name + [input], h.value)];
          return Indeterminate;
        case SpaceBeforeValue =>
          if input == ' ' { state := HeaderValue; return Indeterminate; }
          return Bad;
        case HeaderValue =>
          if input == '\r' {
            result := FinishValue(res);
            return;
          }
          if IsCtl(input) { return Bad; }
          PushValue(res, input);
          return Indeterminate;
        case ExpectingNewline2 =>
          if input == '\n' { state := HeaderLineStart; return Indeterminate; }
          return Bad;
      }
    }

    /** `consume` in the states of the end of the head and the plain body. */
    method ConsumeBody(res: ResponseBuilder, input: char) returns (result: ResultType)
      requires SafeMachine(Snapshot(res)) && InBody(state)
      modifies this, res
      ensures SafeMachine(Snapshot(res))
      ensures (Snapshot(res), result) == StepBody(old(Snapshot(res)), input)
    {
      match state {
        case ExpectingNewline3 =>
          if input != '\n' { return Bad; }
          if res.chunked { state := ChunkSizeStart; return Indeterminate; }
          if res.contentsize == 0 { return Good; }
          state := ExpectingBody;
          return Indeterminate;
        case ExpectingBody =>
          res.contentsize := res.contentsize - 1;
          res.body := res.body + [input];
          return if res.contentsize == 0 then Good else Indeterminate;
      }
    }

    /** `consume` in the states of the chunked body. */
    method ConsumeChunk(res: ResponseBuilder, input: char) returns (result: ResultType)
      requires SafeMachine(Snapshot(res)) && InChunk(state)
      modifies this, res
      ensures SafeMachine(Snapshot(res))
      ensures (Snapshot(res), result) == StepChunk(old(Snapshot(res)), input)
    {
      match state {
        case ChunkSizeStart =>
          if IsHex(input) {
            state := ChunkSize;
            res.chunksizehex := "";
            res.chunksizehex := res.chunksizehex + [input];
            assert "" + [input] == [input];
            return Indeterminate;
          }
          return Bad;
        case ChunkSize =>
          if IsHex(input) {
            res.chunksizehex := res.chunksizehex + [input];
            return Indeterminate;
          }
          if input == '\r' {
            state := ExpectingNewline4;
            var size := HexValue(res.chunksizehex);
            if size > INT_MAX { return Bad; }  // stoi throws
            res.chunksize := size;
            return if res.chunksize == 0 then Good else Indeterminate;
          }
          return Bad;
        case ExpectingNewline4 =>
          if input == '\n' { state := ExpectingChunk; return Indeterminate; }
          return Bad;
        case ExpectingChunk =>
          res.chunksize := res.chunksize - 1;
          if input == '\r' && res.chunksize == -1 {
            state := ExpectingNewline5;
          } else {
            res.body := res.body + [input];
          }
          return Indeterminate;
        case ExpectingNewline5 =>
          if input == '\n' { state := ChunkSizeStart; return Indeterminate; }
          return Bad;
      }
    }

    method Consume(res: ResponseBuilder, input: char) returns (result: ResultType)
      requires SafeMachine(Snapshot(res))
      modifies this, res
      ensures SafeMachine(Snapshot(res))
      ensures (Snapshot(res), result) == Step(old(Snapshot(res)), input)
    {
      if InVersion(state) {
        result := ConsumeVersion(res, input);
      } else if InStatus(state) {
        result := ConsumeStatus(res, input);
      } else if InHeader(state) {
        result := ConsumeHeader(res, input);
      } else if InBody(state) {
        result := ConsumeBody(res, input);
      } else {
        result := ConsumeChunk(res, input);
      }
    }

    method Parse(res: ResponseBuilder, data: string) returns (result: ResultType, begin: nat)
      requires SafeMachine(Snapshot(res))
      modifies this, res
      ensures SafeMachine(Snapshot(res))
      ensures Outcome(Snapshot(res), result, begin) == Run(old(Snapshot(res)), data)
    {
      hide Step;
      result := Indeterminate;
      begin := 0;
      while begin < |data|
        invariant 0 <= begin <= |data|
        invariant SafeMachine(Snapshot(res))
        invariant begin == 0 ==> Snapshot(res) == old(Snapshot(res)) && result.Indeterminate?
        invariant begin < |data| ==>
                    var o := Run(Snapshot(res), data[begin..]);
                    Run(old(Snapshot(res)), data) == Outcome(o.m, o.result, o.taken + begin)
        invariant begin == |data| ==> Run(old(Snapshot(res)), data) == Outcome(Snapshot(res), result, begin)
      {
        assert data[begin..][1..] == data[begin + 1..];
        result := Consume(res, data[begin]);
        begin := begin + 1;
        if result.Bad? {
          return;
        }
        if result.Good? && res.chunked && res.chunksize == 0 {
          return;
        }
      }
    }
  }

  /** The read loop of the proxy over the reads the peer sends before it stops. */
  method ReadResponse(pieces: seq<string>, anyContentsize: int, anyChunksize: int) returns (response: Option<Response>)
    ensures response == ReadAll(Start(anyContentsize, anyChunksize), pieces)
  {
    var builder := new ResponseBuilder(anyContentsize, anyChunksize);
    var parser := new ResponseParser();
    var i := 0;
    while true
      invariant 0 <= i <= |pieces|
      invariant SafeMachine(parser.Snapshot(builder))
      invariant ReadAll(parser.Snapshot(builder), pieces[i..]) == ReadAll(Start(anyContentsize, anyChunksize), pieces)
      decreases |pieces| - i
    {
      if i == |pieces| {
        return None;  // the read fails
      }
      assert pieces[i..][1..] == pieces[i + 1..];
      var result, _ := parser.Parse(builder, pieces[i]);
      i := i + 1;
      if result.Bad? {
        return None;
      }
      if result.Good? {
        var r := builder.BuildResponse();
        return Some(r);
      }
    }
  }
}
