/** What every run of the request parser keeps, and why `reset()` is enough between requests. */
module RequestInvariant {
  import opened Text
  import opened Headers
  import opened Requests
  import opened RequestParsing

  predicate RequestLine(s: State) {
    || s.MethodStart? || s.Method? || s.Uri? || s.VersionH? || s.VersionT1? || s.VersionT2? || s.VersionP?
    || s.VersionSlash? || s.MajorStart? || s.Major? || s.MinorStart? || s.Minor? || s.ExpectingNewline1?
  }

  /** The length the finished header lines declare. A line being read does not count yet,
      and neither does the last finished line while it is being continued. */
  ghost predicate LengthKnown(m: Machine) {
    match m.state
    case HeaderLineStart | HeaderLws | ExpectingNewline2 | ExpectingNewline3 =>
      Declared(m.req.headers, 0) == Some(m.contentsize)
    case HeaderName | SpaceBeforeValue =>
      Declared(Front(m), 0) == Some(m.contentsize)
    case HeaderValue =>
      Declared(Front(m), 0).Some? && (!IsContentLength(Back(m).name) ==> Declared(Front(m), 0).value == m.contentsize)
    case ExpectingBody =>
      && m.contentsize > 0
      && Declared(m.req.headers, 0) == Some(|m.req.body| + m.contentsize)
      && m.req.bodysize == |m.req.body| + m.contentsize
    case _ =>
      m.contentsize == 0 && m.req.headers == []
  }

  ghost predicate Inv(m: Machine) {
    && AllToken(m.req.meth)
    && NoCtlOrSpace(m.req.uri)
    && AllPrintable(m.req.headers)
    && m.contentsize >= 0
    && (!m.state.ExpectingBody? ==> m.req.body == "" && (m.contentsize > 0 ==> m.req.bodysize == m.contentsize))
    && LengthKnown(m)
  }

  /** What holds of the parser and its builder when it has answered good. */
  ghost predicate Complete(m: Machine) {
    && m.contentsize == 0
    && AllToken(m.req.meth)
    && NoCtlOrSpace(m.req.uri)
    && AllPrintable(m.req.headers)
    && Declared(m.req.headers, 0) == Some(|m.req.body|)
  }

  lemma BackSplit(m: Machine)
    requires m.req.headers != []
    ensures m.req.headers == Front(m) + [Back(m)]
    ensures Declared(m.req.headers, 0) ==
            if Declared(Front(m), 0).None? || !IsContentLength(Back(m).name) then Declared(Front(m), 0)
            else LengthOf(Back(m).value)
  {
    DeclaredAppend(Front(m), Back(m), 0);
    hide Declared, IsContentLength, LengthOf;
  }

  lemma DeclaredNonNegative(hs: seq<Header>)
    ensures Declared(hs, 0).Some? ==> Declared(hs, 0).value >= 0
  {
    if hs != [] { DeclaredNonNegative(hs[..|hs| - 1]); }
  }

  lemma PrintableAppend(hs: seq<Header>, h: Header)
    requires AllPrintable(hs) && Printable(h)
    ensures AllPrintable(hs + [h])
  {}

  ghost predicate TextInv(m: Machine) {
    && AllToken(m.req.meth)
    && NoCtlOrSpace(m.req.uri)
    && AllPrintable(m.req.headers)
  }

  lemma HeaderKeepsText(m: Machine, c: char)
    requires TextInv(m) && InHeader(m.state)
    ensures !Step(m, c).1.Bad? ==> TextInv(Step(m, c).0)
  {
    match m.state
    case HeaderLineStart => if IsTokenChar(c) { PrintableAppend(m.req.headers, Header([c], "")); }
    case HeaderName =>
      if IsTokenChar(c) { PrintableAppend(Front(m), Header(Back(m).name + [c], Back(m).value)); }
    case HeaderLws | HeaderValue =>
      if !IsCtl(c) { PrintableAppend(Front(m), Header(Back(m).name, Back(m).value + [c])); }
    case _ =>
  }

  lemma StepKeepsText(m: Machine, c: char)
    requires TextInv(m)
    ensures !Step(m, c).1.Bad? ==> TextInv(Step(m, c).0)
  {
    if InHeader(m.state) {
      hide Step, TextInv;
      HeaderKeepsText(m, c);
    } else {
      hide AllPrintable;
    }
  }

  /** The end of a line puts the declared length into the countdown. */
  lemma EndValueKeepsInv(m: Machine)
    requires Inv(m) && m.state.HeaderValue? && EndValue(m).1.Indeterminate?
    ensures Inv(EndValue(m).0)
  {
    BackSplit(m);
    DeclaredNonNegative(m.req.headers);
  }

  /** A character joins the value of the last header. */
  lemma ValueKeepsLength(m: Machine, c: char)
    requires Inv(m) && (m.state.HeaderLws? || m.state.HeaderValue?)
    ensures LengthKnown(WithValue(m, c).(state := HeaderValue))
  {
    assert Front(WithValue(m, c)) == Front(m);
    BackSplit(m);
    DeclaredNonNegative(Front(m));
  }

  lemma NameKeepsLength(m: Machine, c: char)
    requires Inv(m)
    ensures m.state.HeaderName? ==> LengthKnown(WithName(m, c).(state := HeaderName))
    ensures m.state.HeaderLineStart? ==> LengthKnown(WithNewHeader(m, c).(state := HeaderName))
  {
    if m.state.HeaderName? {
      assert Front(WithName(m, c)) == Front(m);
    }
    if m.state.HeaderLineStart? {
      assert Front(WithNewHeader(m, c)) == m.req.headers;
    }
  }

  /** A byte inside a header, other than the end of a value, leaves the lengths and the body alone. */
  predicate SameLengths(m: Machine, m1: Machine) {
    m1.contentsize == m.contentsize && m1.req.bodysize == m.req.bodysize && m1.req.body == m.req.body
  }

  lemma HeaderKeepsLengths(m: Machine, c: char)
    requires InHeader(m.state) && Step(m, c).1.Indeterminate? && !(m.state.HeaderValue? && c == '\r')
    ensures SameLengths(m, Step(m, c).0) && !Step(m, c).0.state.ExpectingBody?
  {}

  lemma HeaderKeepsKnown(m: Machine, c: char)
    requires Inv(m) && InHeader(m.state) && Step(m, c).1.Indeterminate? && !(m.state.HeaderValue? && c == '\r')
    ensures LengthKnown(Step(m, c).0)
  {
    hide AllToken, NoCtlOrSpace, AllPrintable, Declared;
    match m.state
    case HeaderLineStart => NameKeepsLength(m, c);
    case HeaderName => NameKeepsLength(m, c);
    case HeaderLws => ValueKeepsLength(m, c);
    case HeaderValue => ValueKeepsLength(m, c);
    case _ =>
  }

  lemma HeaderStepKeepsInv(m: Machine, c: char)
    requires Inv(m) && InHeader(m.state) && Step(m, c).1.Indeterminate?
    ensures Inv(Step(m, c).0)
  {
    if m.state.HeaderValue? && c == '\r' {
      EndValueKeepsInv(m);
    } else {
      HeaderKeepsLengths(m, c);
      HeaderKeepsKnown(m, c);
      hide Step, LengthKnown;
      StepKeepsText(m, c);
    }
  }

  lemma LineStepKeepsInv(m: Machine, c: char)
    requires Inv(m) && RequestLine(m.state)
    ensures Step(m, c).1.Indeterminate? ==> Inv(Step(m, c).0)
    ensures !Step(m, c).1.Good?
  {
    StepKeepsText(m, c);
  }

  /** The byte after the carriage return that ends the head. */
  lemma HeadEndKeepsInv(m: Machine, c: char)
    requires Inv(m) && m.state.ExpectingNewline3?
    ensures Step(m, c).1.Indeterminate? ==> Inv(Step(m, c).0)
    ensures Step(m, c).1.Good? ==> Complete(Step(m, c).0)
  {
    assert Declared(m.req.headers, 0) == Some(m.contentsize);
    assert Step(m, c) == StepBody(m, c);
    hide Step, Declared, AllToken, NoCtlOrSpace, AllPrintable;
  }

  lemma CountdownKeepsInv(m: Machine, c: char)
    requires Inv(m) && m.state.ExpectingBody?
    ensures Step(m, c).1.Indeterminate? ==> Inv(Step(m, c).0)
    ensures Step(m, c).1.Good? ==> Complete(Step(m, c).0)
  {
    assert Declared(m.req.headers, 0) == Some(|m.req.body| + m.contentsize);
    assert Step(m, c) == StepBody(m, c);
    hide Step, Declared, AllToken, NoCtlOrSpace, AllPrintable;
  }

  lemma BodyStepKeepsInv(m: Machine, c: char)
    requires Inv(m) && InBody(m.state)
    ensures Step(m, c).1.Indeterminate? ==> Inv(Step(m, c).0)
    ensures Step(m, c).1.Good? ==> Complete(Step(m, c).0)
  {
    hide Step, Inv, Complete;
    if m.state.ExpectingBody? { CountdownKeepsInv(m, c); } else { HeadEndKeepsInv(m, c); }
  }

  lemma HeaderNeverGood(m: Machine, c: char)
    requires InHeader(m.state)
    ensures !Step(m, c).1.Good?
  {}

  lemma StepKeepsInv(m: Machine, c: char)
    requires Inv(m)
    ensures Step(m, c).1.Indeterminate? ==> Inv(Step(m, c).0)
    ensures Step(m, c).1.Good? ==> Complete(Step(m, c).0)
  {
    if InHeader(m.state) {
      HeaderNeverGood(m, c);
      if Step(m, c).1.Indeterminate? { HeaderStepKeepsInv(m, c); }
    } else if InBody(m.state) {
      BodyStepKeepsInv(m, c);
    } else {
      LineStepKeepsInv(m, c);
    }
  }

  /** Over every input, cut anywhere: an answer that is not bad leaves the invariant, and a good one a
      zero countdown, so that `reset()` then restores the constructor's state. */
  lemma {:induction false} RunKeepsInv(m: Machine, s: string)
    requires Inv(m)
    ensures Run(m, s).result.Indeterminate? ==> Inv(Run(m, s).m)
    ensures Run(m, s).result.Good? ==> Complete(Run(m, s).m)
    decreases |s|
  {
    if s != "" {
      StepKeepsInv(m, s[0]);
      if Step(m, s[0]).1.Indeterminate? { RunKeepsInv(Step(m, s[0]).0, s[1..]); }
    }
  }
}
