/** The header lines of a message as text: fields, and lines that continue the field before them. */
module MessageLines {
  import opened Text
  import opened Headers

  /** A header line, or the continuation of the header before it. */
  datatype Line = Field(name: string, value: string) | Fold(blanks: string, value: string)

  predicate AllBlanks(s: string) { forall i :: 0 <= i < |s| ==> s[i] == ' ' || s[i] == '\t' }

  predicate IsLine(l: Line) {
    match l
    case Field(name, value) => name != "" && AllToken(name) && NoCtl(value)
    case Fold(blanks, value) => blanks != "" && AllBlanks(blanks) && NoCtl(value) && (value != "" ==> value[0] != ' ')
  }

  ghost predicate AreLines(ls: seq<Line>) { forall i :: 0 <= i < |ls| ==> IsLine(ls[i]) }

  function LineText(l: Line): string {
    match l
    case Field(name, value) => name + ": " + value + CRLF
    case Fold(blanks, value) => blanks + value + CRLF
  }

  function LinesText(ls: seq<Line>): string { if ls == [] then "" else LineText(ls[0]) + LinesText(ls[1..]) }

  lemma FoldParts(blanks: string, value: string)
    requires IsLine(Fold(blanks, value))
    ensures blanks != "" && AllBlanks(blanks) && NoCtl(value) && (value != "" ==> value[0] != ' ')
  {}

  lemma LineIsLong(l: Line)
    ensures LineText(l) != ""
  {}

  lemma JoinLines(l: Line, ls: seq<Line>, end: string)
    ensures LinesText([l] + ls) + end == LineText(l) + (LinesText(ls) + end)
  {
    hide LineText;
    assert ([l] + ls)[1..] == ls;
  }

  // ---- What header lines come to ----

  /** The headers, the length in force, and whether a chunked body is announced and the connection is kept. */
  datatype Head = Head(headers: seq<Header>, length: int, chunked: bool, keepAlive: bool)

  /** The end of a value takes effect at once, even when the value goes on in the next line. */
  function Settle(h: Head): Option<Head>
    requires h.headers != []
  {
    var last := h.headers[|h.headers| - 1];
    var h1 := h.(chunked := h.chunked || AsksChunked(last), keepAlive := h.keepAlive || AsksKeepAlive(last));
    if !IsContentLength(last.name) then Some(h1)
    else if LengthOf(last.value).None? then None
    else Some(h1.(length := LengthOf(last.value).value))
  }

  /** One more line. A continued value goes on without the blanks before it; a line of blanks changes nothing. */
  function AddLine(h: Head, l: Line): Option<Head> {
    match l
    case Field(name, value) => Settle(h.(headers := h.headers + [Header(name, value)]))
    case Fold(_, value) =>
      if h.headers == [] then None
      else if value == "" then Some(h)
      else
        var n := |h.headers| - 1;
        Settle(h.(headers := h.headers[..n] + [Header(h.headers[n].name, h.headers[n].value + value)]))
  }

  function AddLines(h: Head, ls: seq<Line>): Option<Head>
    decreases |ls|
  {
    if ls == [] then Some(h) else
    var h1 := AddLine(h, ls[0]);
    if h1.None? then None else AddLines(h1.value, ls[1..])
  }

  lemma FoldHasHeader(h: Head, l: Line)
    requires AddLine(h, l).Some?
    ensures l.Fold? ==> h.headers != []
  {}

  // ---- Pieces of text ----

  predicate IsBlank(c: char) { c == ' ' || c == '\t' }

  predicate IsValueChar(c: char) { !IsCtl(c) }

  predicate IsUriChar(c: char) { !IsCtl(c) && c != ' ' }

  /** The longest beginning of s with a property. */
  function While(s: string, f: char -> bool): (p: string)
    ensures p <= s && (forall i :: 0 <= i < |p| ==> f(p[i])) && (|p| < |s| ==> !f(s[|p|]))
  {
    if s != "" && f(s[0]) then [s[0]] + While(s[1..], f) else ""
  }

  lemma FiveBytes(rest: string)
    ensures ['H'] + (['T'] + (['T'] + (['P'] + (['/'] + rest)))) == "HTTP/" + rest
  {}

  lemma TwoBytes(a: string, rest: string)
    ensures a + (['\r'] + (['\n'] + rest)) == a + CRLF + rest
  {}

  lemma ColonBytes(a: string, rest: string)
    ensures a + ([':'] + ([' '] + rest)) == a + ": " + rest
  {}
}
