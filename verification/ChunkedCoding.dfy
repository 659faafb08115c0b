/** The chunked transfer coding of section 4.1 of RFC 7230, without extensions and trailers:
    the response parser decodes exactly the coded texts, to their payload. */
module ChunkedCoding {
  import opened Text
  import opened Headers
  import opened ResponseParsing
  import opened ResponseSplitting

  /** One chunk: the hexadecimal size as written, and that many bytes of any kind. */
  datatype Chunk = Chunk(size: string, data: string)

  predicate IsSize(s: string, n: nat) { s != "" && AllHex(s) && HexValue(s) == n && n <= INT_MAX }

  predicate IsChunk(c: Chunk) { IsSize(c.size, |c.data|) && c.data != "" }

  ghost predicate AreChunks(cs: seq<Chunk>) { forall i :: 0 <= i < |cs| ==> IsChunk(cs[i]) }

  function Coded(cs: seq<Chunk>): string {
    if cs == [] then "" else cs[0].size + CRLF + cs[0].data + CRLF + Coded(cs[1..])
  }

  function Payload(cs: seq<Chunk>): string {
    if cs == [] then "" else cs[0].data + Payload(cs[1..])
  }

  /** A whole chunked body, as far as the parser reads it: the carriage return after the zero size. */
  ghost predicate IsCoding(s: string, cs: seq<Chunk>, zero: string) {
    AreChunks(cs) && IsSize(zero, 0) && s == Coded(cs) + zero + "\r"
  }

  function AtChunk(m: Machine, body: string, size: string, left: int): Machine {
    m.(state := ChunkSizeStart, res := m.res.(body := body, chunksizehex := size, chunksize := left))
  }

  // ---- Completeness ----

  lemma {:induction false} SizeBytes(m: Machine, size: string, rest: string)
    requires m.state.ChunkSize? && m.res.chunksizehex == size && AllHex(rest)
    ensures AllHex(size + rest)
    ensures Goes(m, rest, m.(res := m.res.(chunksizehex := size + rest)))
    decreases |rest|
  {
    if rest == "" {
      assert size + rest == size;
    } else {
      SizeBytes(Step(m, rest[0]).0, size + [rest[0]], rest[1..]);
      assert size + [rest[0]] + rest[1..] == size + rest;
    }
  }

  lemma SizeGoes(m: Machine, size: string)
    requires m.state.ChunkSizeStart? && size != "" && AllHex(size)
    ensures Goes(m, size, m.(state := ChunkSize, res := m.res.(chunksizehex := size)))
  {
    hide Goes;
    var m1 := m.(state := ChunkSize, res := m.res.(chunksizehex := [size[0]]));
    SizeBytes(m1, [size[0]], size[1..]);
    assert [size[0]] + size[1..] == size;
    GoesByte(m, size[0], size[1..], m.(state := ChunkSize, res := m.res.(chunksizehex := size)));
  }

  /** The data of a chunk, whatever bytes it has, carriage returns included. */
  lemma {:induction false} DataBytes(m: Machine, data: string)
    requires m.state.ExpectingChunk? && m.res.chunksize >= |data|
    ensures Goes(m, data, m.(res := m.res.(body := m.res.body + data, chunksize := m.res.chunksize - |data|)))
    decreases |data|
  {
    if data == "" {
      assert m.res.body + data == m.res.body;
    } else {
      DataBytes(Step(m, data[0]).0, data[1..]);
      assert m.res.body + [data[0]] + data[1..] == m.res.body + data;
    }
  }

  lemma SizeLineGoes(m: Machine, size: string, n: nat)
    requires m.state.ChunkSizeStart? && IsSize(size, n) && n > 0
    ensures Goes(m, size + CRLF, m.(state := ExpectingChunk, res := m.res.(chunksizehex := size, chunksize := n)))
  {
    hide Goes;
    var m1 := m.(state := ChunkSize, res := m.res.(chunksizehex := size));
    var m2 := m1.(state := ExpectingChunk, res := m1.res.(chunksize := n));
    SizeGoes(m, size);
    GoesCrlf(m1, m2.(state := ExpectingNewline4), m2);
    GoesTwice(m, size, m1, CRLF, m2);
  }

  lemma DataLineGoes(m: Machine, data: string)
    requires m.state.ExpectingChunk? && m.res.chunksize == |data|
    ensures Goes(m, data + CRLF,
                 m.(state := ChunkSizeStart, res := m.res.(body := m.res.body + data, chunksize := -1)))
  {
    hide Goes;
    var m1 := m.(res := m.res.(body := m.res.body + data, chunksize := 0));
    var m2 := m1.(state := ChunkSizeStart, res := m1.res.(chunksize := -1));
    DataBytes(m, data);
    GoesCrlf(m1, m2.(state := ExpectingNewline5), m2);
    GoesTwice(m, data, m1, CRLF, m2);
  }

  lemma ChunkGoes(m: Machine, c: Chunk)
    requires m.state.ChunkSizeStart? && IsChunk(c)
    ensures Goes(m, c.size + CRLF + c.data + CRLF, AtChunk(m, m.res.body + c.data, c.size, -1))
  {
    hide Goes, Step;
    var m1 := m.(state := ExpectingChunk, res := m.res.(chunksizehex := c.size, chunksize := |c.data|));
    SizeLineGoes(m, c.size, |c.data|);
    DataLineGoes(m1, c.data);
    GoesTwice(m, c.size + CRLF, m1, c.data + CRLF, AtChunk(m, m.res.body + c.data, c.size, -1));
    assert c.size + CRLF + (c.data + CRLF) == c.size + CRLF + c.data + CRLF;
  }

  lemma {:induction false} ChunksGo(m: Machine, cs: seq<Chunk>) returns (m1: Machine)
    requires m.state.ChunkSizeStart? && AreChunks(cs)
    ensures Goes(m, Coded(cs), m1)
    ensures m1.state.ChunkSizeStart?
    ensures m1.res == m.res.(body := m.res.body + Payload(cs),
                             chunksizehex := m1.res.chunksizehex, chunksize := m1.res.chunksize)
    decreases |cs|
  {
    hide Goes, Step;
    if cs == [] {
      m1 := m;
      GoesNowhere(m);
      assert m.res.body + "" == m.res.body;
    } else {
      var c := cs[0];
      var mid := AtChunk(m, m.res.body + c.data, c.size, -1);
      ChunkGoes(m, c);
      m1 := ChunksGo(mid, cs[1..]);
      GoesTwice(m, c.size + CRLF + c.data + CRLF, mid, Coded(cs[1..]), m1);
      assert m.res.body + c.data + Payload(cs[1..]) == m.res.body + Payload(cs);
    }
  }

  /** All but the last byte of a coding only asks for more; the last byte is good and ends the run. */
  lemma CodingRuns(m: Machine, s: string, cs: seq<Chunk>, zero: string, after: string) returns (m1: Machine)
    requires m.state.ChunkSizeStart? && m.res.chunked && IsCoding(s, cs, zero)
    ensures Goes(m, Coded(cs) + zero, m1) && Step(m1, '\r').1.Good?
    ensures Run(m1, "\r" + after).result.Good? && Run(m1, "\r" + after).taken == 1
    ensures Run(m1, "\r" + after).m.res
         == m.res.(body := m.res.body + Payload(cs), chunksizehex := zero, chunksize := 0)
  {
    hide Goes;
    var mid := ChunksGo(m, cs);
    SizeGoes(mid, zero);
    m1 := mid.(state := ChunkSize, res := mid.res.(chunksizehex := zero));
    GoesTwice(m, Coded(cs), mid, zero, m1);
    assert ("\r" + after)[0] == '\r';
  }

  // ---- Soundness ----

  /** A chunk followed by anything but a carriage return is never finished. */
  lemma {:induction false} NeverFinished(m: Machine, s: string)
    requires m.state.ExpectingChunk? && m.res.chunksize < 0
    ensures !Run(m, s).result.Good?
    decreases |s|
  {
    if |s| > 1 { NeverFinished(Step(m, s[0]).0, s[1..]); }
  }

  /** Where the parser is inside the current chunk: `size` and `data` are what it has read of it. */
  ghost predicate Within(m: Machine, size: string, data: string) {
    match m.state
    case ChunkSizeStart => size == "" && data == ""
    case ChunkSize => size == m.res.chunksizehex && data == ""
    case ExpectingNewline4 => m.res.chunksize > 0 && IsSize(size, m.res.chunksize) && data == ""
    case ExpectingChunk =>
      m.res.chunksize >= 0 && IsSize(size, |data| + m.res.chunksize) && |data| + m.res.chunksize > 0
    case ExpectingNewline5 => IsSize(size, |data|) && data != ""
    case _ => false
  }

  /** The text of the current chunk that has been read. */
  function Pending(m: Machine, size: string, data: string): string {
    match m.state
    case ChunkSizeStart => ""
    case ChunkSize => size
    case ExpectingNewline4 => size + "\r"
    case ExpectingChunk => size + CRLF + data
    case _ => size + CRLF + data + "\r"
  }

  /** A byte that neither ends the chunk nor runs over its end. */
  lemma ChunkStep(m: Machine, c: char, before: string, size: string, data: string)
    returns (size1: string, data1: string)
    requires Within(m, size, data) && m.res.body == before + data && Step(m, c).1.Indeterminate?
    requires !m.state.ExpectingNewline5?
    requires Step(m, c).0.state.ExpectingChunk? ==> Step(m, c).0.res.chunksize >= 0
    ensures Within(Step(m, c).0, size1, data1) && Step(m, c).0.res.body == before + data1
    ensures Pending(Step(m, c).0, size1, data1) == Pending(m, size, data) + [c]
  {
    size1 := if m.state.ChunkSizeStart? || (m.state.ChunkSize? && IsHex(c)) then size + [c] else size;
    data1 := if m.state.ExpectingChunk? && Step(m, c).0.state.ExpectingChunk? then data + [c] else data;
    assert before + data + [c] == before + (data + [c]);
  }

  /** The only good answer inside a chunked body. */
  lemma GoodByte(m: Machine, c: char, s: string, size: string, data: string)
    requires m.res.chunked && Within(m, size, data) && s != "" && s[0] == c
    requires Step(m, c).1.Good?
    ensures m.state.ChunkSize? && IsSize(size, 0) && data == "" && c == '\r'
    ensures Run(m, s).taken == 1 && s[..1] == "\r" && Run(m, s).m.res.body == m.res.body
  {}

  lemma TakeFirst(s: string, n: nat)
    requires 0 < n <= |s|
    ensures s[..n] == [s[0]] + s[1..][..n - 1]
  {}

  /** Before the good answer, one byte at a time. */
  lemma EarlierByte(m: Machine, s: string)
    requires Run(m, s).result.Good? && !Step(m, s[0]).1.Good?
    ensures Step(m, s[0]).1.Indeterminate?
    ensures Run(m, s) == Shift(Run(Step(m, s[0]).0, s[1..]), 1)
    ensures s[..Run(m, s).taken] == [s[0]] + s[1..][..Run(m, s).taken - 1]
  {
    hide Step;
    TakeFirst(s, Run(m, s).taken);
  }

  lemma Regroup(a: string, b: string, c: string, d: string)
    ensures a + b + (c + d) == a + (b + c) + d
    ensures a + b + c + d == a + (b + c + d)
  {}

  /** A finished chunk goes in front of the chunks after it. */
  lemma EndChunk(size: string, data: string, rest: string, before: string, later: seq<Chunk>, zero: string)
    returns (cs: seq<Chunk>)
    requires IsSize(size, |data|) && data != "" && AreChunks(later)
    requires "" + rest == Coded(later) + zero + "\r"
    ensures AreChunks(cs)
    ensures size + CRLF + data + "\r" + (['\n'] + rest) == Coded(cs) + zero + "\r"
    ensures before + data + Payload(later) == before + Payload(cs)
  {
    cs := [Chunk(size, data)] + later;
    assert cs[1..] == later;
    var head := size + CRLF + data;
    assert "\r" + ['\n'] == CRLF;
    Regroup(head, "\r", ['\n'], rest);
    Regroup(head + CRLF, Coded(later), zero, "\r");
    assert "" + rest == rest;
  }

  /** A line feed ends the chunk; the next one starts. */
  lemma {:induction false} GoodAfterChunk(m: Machine, s: string, before: string, size: string, data: string)
    returns (cs: seq<Chunk>, zero: string)
    requires m.res.chunked && Within(m, size, data) && m.res.body == before + data
    requires Run(m, s).result.Good? && m.state.ExpectingNewline5?
    ensures AreChunks(cs) && IsSize(zero, 0)
    ensures Pending(m, size, data) + s[..Run(m, s).taken] == Coded(cs) + zero + "\r"
    ensures Run(m, s).m.res.body == before + Payload(cs)
    decreases |s|, 0
  {
    hide Run;
    EarlierByte(m, s);
    var m1, rest := Step(m, s[0]).0, s[1..];
    cs, zero := GoodIsCoding(m1, rest, m.res.body, "", "");
    cs := EndChunk(size, data, rest[..Run(m1, rest).taken], before, cs, zero);
  }

  lemma ChunkedStays(m: Machine, c: char, size: string, data: string)
    requires Within(m, size, data)
    ensures Step(m, c).0.res.chunked == m.res.chunked
  {}

  /** A byte inside the chunk. */
  lemma {:induction false} GoodWithin(m: Machine, s: string, before: string, size: string, data: string)
    returns (cs: seq<Chunk>, zero: string)
    requires m.res.chunked && Within(m, size, data) && m.res.body == before + data
    requires Run(m, s).result.Good? && !m.state.ExpectingNewline5? && !Step(m, s[0]).1.Good?
    ensures AreChunks(cs) && IsSize(zero, 0)
    ensures Pending(m, size, data) + s[..Run(m, s).taken] == Coded(cs) + zero + "\r"
    ensures Run(m, s).m.res.body == before + Payload(cs)
    decreases |s|, 0
  {
    hide Run;
    EarlierByte(m, s);
    var m1, rest := Step(m, s[0]).0, s[1..];
    if m1.state.ExpectingChunk? && m1.res.chunksize < 0 {
      NeverFinished(m1, rest);
      assert false;
    } else {
      var size1, data1 := ChunkStep(m, s[0], before, size, data);
      ChunkedStays(m, s[0], size, data);
      cs, zero := GoodIsCoding(m1, rest, before, size1, data1);
      Regroup(Pending(m, size, data), [s[0]], rest[..Run(m1, rest).taken], "");
      assert Pending(m, size, data) + ([s[0]] + rest[..Run(m1, rest).taken])
          == Pending(m1, size1, data1) + rest[..Run(m1, rest).taken];
    }
  }

  /** What the parser has read of the current chunk, with what it reads until it says good, is a coding. */
  lemma {:induction false} GoodIsCoding(m: Machine, s: string, before: string, size: string, data: string)
    returns (cs: seq<Chunk>, zero: string)
    requires m.res.chunked && Within(m, size, data) && m.res.body == before + data
    requires Run(m, s).result.Good?
    ensures AreChunks(cs) && IsSize(zero, 0)
    ensures Pending(m, size, data) + s[..Run(m, s).taken] == Coded(cs) + zero + "\r"
    ensures Run(m, s).m.res.body == before + Payload(cs)
    decreases |s|, 1
  {
    assert s != "";
    hide Run;
    if Step(m, s[0]).1.Good? {
      GoodByte(m, s[0], s, size, data);
      cs, zero := [], size;
    } else if m.state.ExpectingNewline5? {
      cs, zero := GoodAfterChunk(m, s, before, size, data);
    } else {
      cs, zero := GoodWithin(m, s, before, size, data);
    }
  }

  /** Sound and complete: from the start of a chunked body, the parser says good at the end of s exactly
      when s is a coding, and then it has added the payload of that coding to the body. */
  lemma ChunkedDecoding(m: Machine, s: string)
    requires m.state.ChunkSizeStart? && m.res.chunked
    ensures var o := Run(m, s);
            (o.result.Good? && o.taken == |s|) <==> exists cs, zero :: IsCoding(s, cs, zero)
    ensures forall cs, zero :: IsCoding(s, cs, zero) ==> Run(m, s).m.res.body == m.res.body + Payload(cs)
  {
    hide Goes, Step, Run;
    var o := Run(m, s);
    if o.result.Good? && o.taken == |s| {
      assert m.res.body + "" == m.res.body;
      var cs, zero := GoodIsCoding(m, s, m.res.body, "", "");
      assert s[..o.taken] == s && "" + s == s;
      assert IsCoding(s, cs, zero);
    }
    forall cs, zero | IsCoding(s, cs, zero)
      ensures o.result.Good? && o.taken == |s| && o.m.res.body == m.res.body + Payload(cs)
    {
      var m1 := CodingRuns(m, s, cs, zero, "");
      assert "\r" + "" == "\r";
      GoesThen(m, Coded(cs) + zero, m1, "\r");
    }
  }

  /** What follows a coding in the same read is not looked at, and a good answer always is at the end
      of a coding. */
  lemma GoodEndsACoding(m: Machine, s: string)
    requires m.state.ChunkSizeStart? && m.res.chunked && Run(m, s).result.Good?
    ensures var o := Run(m, s);
            exists cs, zero :: IsCoding(s[..o.taken], cs, zero) && o.m.res.body == m.res.body + Payload(cs)
  {
    hide Step, Run;
    assert m.res.body + "" == m.res.body;
    var cs, zero := GoodIsCoding(m, s, m.res.body, "", "");
    assert "" + s[..Run(m, s).taken] == s[..Run(m, s).taken];
    assert IsCoding(s[..Run(m, s).taken], cs, zero);
  }

  // ---- The coding a sender writes ----

  /** Pieces of a body that can be chunks: none is empty, and every length is an int. */
  ghost predicate CanBeChunks(ds: seq<string>) { forall i :: 0 <= i < |ds| ==> ds[i] != "" && |ds[i]| <= INT_MAX }

  /** The pieces of a body, each behind its length in hexadecimal digits, and the final zero. */
  function HexCoded(ds: seq<string>, digits: string): string
    requires |digits| == 16
  {
    if ds == [] then "0\r" else Hex(|ds[0]|, digits) + "\r\n" + ds[0] + "\r\n" + HexCoded(ds[1..], digits)
  }

  lemma ZeroIsSize()
    ensures IsSize("0", 0)
  {
    HexRoundTrip(0, SMALL_DIGITS);
    assert Hex(0, SMALL_DIGITS) == "0";
  }

  lemma SizeOfHex(d: string, digits: string)
    requires digits == SMALL_DIGITS || digits == CAPITAL_DIGITS
    requires |d| <= INT_MAX
    ensures IsSize(Hex(|d|, digits), |d|)
  {
    HexRoundTrip(|d|, digits);
  }

  /** Such a text is a coding, and its payload is the body. */
  lemma {:induction false} HexCodedIsCoding(ds: seq<string>, digits: string) returns (cs: seq<Chunk>)
    requires digits == SMALL_DIGITS || digits == CAPITAL_DIGITS
    requires CanBeChunks(ds)
    ensures IsCoding(HexCoded(ds, digits), cs, "0") && Payload(cs) == Flatten(ds)
  {
    ZeroIsSize();
    hide IsSize;
    if ds == [] {
      cs := [];
      assert Coded(cs) + "0" + "\r" == "0\r";
    } else {
      var later := HexCodedIsCoding(ds[1..], digits);
      var size := Hex(|ds[0]|, digits);
      HexRoundTrip(|ds[0]|, digits);
      assert IsSize(size, |ds[0]|) by { SizeOfHex(ds[0], digits); }
      cs := [Chunk(size, ds[0])] + later;
      assert cs[1..] == later;
      var head := size + CRLF + ds[0] + CRLF;
      Regroup(head, Coded(later), "0", "\r");
    }
  }
}
