/** Header lists, the `std::map` they are collected into, and what Content-Length declares.

    A `std::map<string, string>` is kept as its iteration sequence: strictly increasing names. */
module Headers {
  import opened Text

  datatype Header = Header(name: string, value: string)

  /** What both parsers answer after a byte, or after a run of bytes. */
  datatype ResultType = Good | Bad | Indeterminate

  /** Where a run of bytes leaves a parser: its answer, and how many bytes it took. */
  datatype Outcome<+M> = Outcome(m: M, result: ResultType, taken: nat)

  /** The outcome of a run that went on after n bytes. */
  function Shift<M>(o: Outcome<M>, n: nat): Outcome<M> { Outcome(o.m, o.result, o.taken + n) }

  // ---- Order of std::string ----

  predicate Less(a: string, b: string) {
    b != "" && (a == "" || a[0] < b[0] || (a[0] == b[0] && Less(a[1..], b[1..])))
  }

  lemma {:induction false} LessTotal(a: string, b: string)
    ensures a == b || Less(a, b) || Less(b, a)
  {
    if a != "" && b != "" && a[0] == b[0] {
      LessTotal(a[1..], b[1..]);
      assert a == [a[0]] + a[1..] && b == [b[0]] + b[1..];
    }
  }

  lemma {:induction false} LessIrreflexive(a: string)
    ensures !Less(a, a)
  {
    if a != "" { LessIrreflexive(a[1..]); }
  }

  lemma {:induction false} LessTransitive(a: string, b: string, c: string)
    requires Less(a, b) && Less(b, c)
    ensures Less(a, c)
  {
    if a != "" && a[0] == b[0] && b[0] == c[0] { LessTransitive(a[1..], b[1..], c[1..]); }
  }

  // ---- The ordered map ----

  ghost predicate Sorted(m: seq<Header>) {
    forall i, j :: 0 <= i < j < |m| ==> Less(m[i].name, m[j].name)
  }

  /** `m[name] = value`. */
  function Put(m: seq<Header>, name: string, value: string): seq<Header> {
    if m == [] || Less(name, m[0].name) then [Header(name, value)] + m
    else if m[0].name == name then [Header(name, value)] + m[1..]
    else [m[0]] + Put(m[1..], name, value)
  }

  /** The map after every header of the list has been put in turn. */
  function Collect(hs: seq<Header>): seq<Header> {
    if hs == [] then []
    else Put(Collect(hs[..|hs| - 1]), hs[|hs| - 1].name, hs[|hs| - 1].value)
  }

  function Lookup(m: seq<Header>, name: string): Option<string> {
    if m == [] then None
    else if m[0].name == name then Some(m[0].value)
    else Lookup(m[1..], name)
  }

  /** Value of the last header of a list with that name. */
  function LastValue(hs: seq<Header>, name: string): Option<string> {
    if hs == [] then None
    else if hs[|hs| - 1].name == name then Some(hs[|hs| - 1].value)
    else LastValue(hs[..|hs| - 1], name)
  }

  lemma {:induction false} PutMember(m: seq<Header>, name: string, value: string, h: Header)
    requires h in Put(m, name, value)
    ensures h == Header(name, value) || h in m
  {
    if m != [] && !Less(name, m[0].name) && m[0].name != name && h != m[0] {
      PutMember(m[1..], name, value, h);
    }
  }

  lemma {:induction false} PutSorted(m: seq<Header>, name: string, value: string)
    requires Sorted(m)
    ensures Sorted(Put(m, name, value))
  {
    var r := Put(m, name, value);
    if m == [] {
    } else if Less(name, m[0].name) {
      forall j | 0 < j < |r| ensures Less(name, r[j].name) {
        if j > 1 { LessTransitive(name, m[0].name, m[j - 1].name); }
      }
    } else if m[0].name == name {
    } else {
      PutSorted(m[1..], name, value);
      LessTotal(name, m[0].name);
      forall j | 0 < j < |r| ensures Less(m[0].name, r[j].name) {
        PutMember(m[1..], name, value, r[j]);
      }
    }
  }

  lemma {:induction false} PutLookup(m: seq<Header>, name: string, value: string, key: string)
    requires Sorted(m)
    ensures Lookup(Put(m, name, value), key) == if key == name then Some(value) else Lookup(m, key)
  {
    if m == [] {
    } else if Less(name, m[0].name) {
    } else if m[0].name == name {
    } else {
      PutLookup(m[1..], name, value, key);
    }
  }

  lemma {:induction false} CollectSorted(hs: seq<Header>)
    ensures Sorted(Collect(hs))
  {
    if hs != [] {
      CollectSorted(hs[..|hs| - 1]);
      PutSorted(Collect(hs[..|hs| - 1]), hs[|hs| - 1].name, hs[|hs| - 1].value);
    }
  }

  /** The map holds, for every name, the value of the last header with exactly that name. */
  lemma {:induction false} CollectLastWins(hs: seq<Header>, key: string)
    ensures Sorted(Collect(hs))
    ensures Lookup(Collect(hs), key) == LastValue(hs, key)
  {
    CollectSorted(hs);
    if hs != [] {
      var p, h := hs[..|hs| - 1], hs[|hs| - 1];
      CollectLastWins(p, key);
      PutLookup(Collect(p), h.name, h.value, key);
    }
  }

  lemma {:induction false} PutLargest(m: seq<Header>, name: string, value: string)
    requires forall i :: 0 <= i < |m| ==> Less(m[i].name, name)
    ensures Put(m, name, value) == m + [Header(name, value)]
  {
    if m != [] {
      PutLargest(m[1..], name, value);
      if Less(name, m[0].name) { LessTransitive(name, m[0].name, name); }
      LessIrreflexive(name);
    }
  }

  /** Collecting a list that is already a map changes nothing. */
  lemma {:induction false} CollectOfSorted(m: seq<Header>)
    requires Sorted(m)
    ensures Collect(m) == m
  {
    if m != [] {
      var p, h := m[..|m| - 1], m[|m| - 1];
      CollectOfSorted(p);
      PutLargest(p, h.name, h.value);
    }
  }

  lemma {:induction false} CollectMember(hs: seq<Header>, h: Header)
    requires h in Collect(hs)
    ensures h in hs
  {
    if hs != [] {
      var p, l := hs[..|hs| - 1], hs[|hs| - 1];
      PutMember(Collect(p), l.name, l.value, h);
      if h in Collect(p) { CollectMember(p, h); }
    }
  }

  // ---- What the parsers read out of a header list ----

  predicate IsContentLength(name: string) { SameIgnoringCase(name, "Content-Length") }

  /** A header line sets the keep-alive flag. */
  predicate AsksKeepAlive(h: Header) {
    SameIgnoringCase(h.name, "Connection") && SameIgnoringCase(h.value, "Keep-Alive")
  }

  /** A header line of a response announces a chunked body. */
  predicate AsksChunked(h: Header) {
    SameIgnoringCase(h.name, "Transfer-Encoding") && SameIgnoringCase(h.value, "chunked")
  }

  /** The name in any mixture of small and capital letters, and no other name. */
  lemma LengthName(name: string)
    ensures IsContentLength(name) <==> LowerCase(name) == "content-length"
  {
    hide LowerCase;
    SameInLowerCase(name, "Content-Length");
    SmallText("Content-Length", "content-length");
  }

  /** The same for the name and the value that keep a connection. */
  lemma KeepAliveHeader(h: Header)
    ensures AsksKeepAlive(h) <==> LowerCase(h.name) == "connection" && LowerCase(h.value) == "keep-alive"
  {
    hide LowerCase;
    SameInLowerCase(h.name, "Connection");
    SameInLowerCase(h.value, "Keep-Alive");
    SmallText("Connection", "connection");
    SmallText("Keep-Alive", "keep-alive");
  }

  /** A header announces a chunked coding in any mixture of small and capital letters. */
  lemma ChunkedHeader(h: Header)
    ensures AsksChunked(h) <==> LowerCase(h.name) == "transfer-encoding" && LowerCase(h.value) == "chunked"
  {
    hide LowerCase;
    SameInLowerCase(h.name, "Transfer-Encoding");
    SameInLowerCase(h.value, "chunked");
    SmallText("Transfer-Encoding", "transfer-encoding");
    SmallText("chunked", "chunked");
  }

  predicate KeepsAlive(hs: seq<Header>) { exists i :: 0 <= i < |hs| && AsksKeepAlive(hs[i]) }

  /** The length a Content-Length value stands for; None when the parser answers bad:
      `stoi` throws, or `reserve` throws on a negative length. */
  function LengthOf(value: string): Option<nat> {
    var v := Stoi(value);
    if v.Some? && v.value >= 0 then Some(v.value) else None
  }

  /** The content length in force after a header list, when it was `initial` before it: the last
      Content-Length header counts, and None means that some Content-Length is not a length. */
  function Declared(hs: seq<Header>, initial: int): Option<int> {
    if hs == [] then Some(initial) else
    var before := Declared(hs[..|hs| - 1], initial);
    var h := hs[|hs| - 1];
    if before.None? || !IsContentLength(h.name) then before else LengthOf(h.value)
  }

  /** A header that can be printed on a line and read back. */
  predicate Printable(h: Header) {
    h.name != "" && AllToken(h.name) && NoCtl(h.value)
  }

  ghost predicate AllPrintable(hs: seq<Header>) { forall i :: 0 <= i < |hs| ==> Printable(hs[i]) }

  /** All Content-Length headers of the list spell the name the same way. */
  ghost predicate OneSpelling(hs: seq<Header>) {
    forall i, j :: 0 <= i < |hs| && 0 <= j < |hs| && IsContentLength(hs[i].name) && IsContentLength(hs[j].name)
      ==> hs[i].name == hs[j].name
  }

  lemma DeclaredAppend(hs: seq<Header>, h: Header, initial: int)
    ensures Declared(hs + [h], initial) ==
            if Declared(hs, initial).None? || !IsContentLength(h.name) then Declared(hs, initial) else LengthOf(h.value)
  {
    assert (hs + [h])[..|hs + [h]| - 1] == hs;
  }

  lemma {:induction false} DeclaredPrepend(h: Header, hs: seq<Header>, initial: int)
    ensures Declared([h] + hs, initial) ==
            if IsContentLength(h.name) then
              (if LengthOf(h.value).Some? then Declared(hs, LengthOf(h.value).value) else None)
            else Declared(hs, initial)
  {
    if hs == [] {
      DeclaredAppend([], h, initial);
      assert [h] + hs == [] + [h];
    } else {
      var p, l := hs[..|hs| - 1], hs[|hs| - 1];
      DeclaredPrepend(h, p, initial);
      assert hs == p + [l] && [h] + hs == ([h] + p) + [l];
      DeclaredAppend([h] + p, l, initial);
    }
  }

  lemma {:induction false} DeclaredWithoutLength(hs: seq<Header>, initial: int)
    requires forall i :: 0 <= i < |hs| ==> !IsContentLength(hs[i].name)
    ensures Declared(hs, initial) == Some(initial)
  {
    if hs != [] { DeclaredWithoutLength(hs[..|hs| - 1], initial); }
  }

  /** Putting a header under a name that is not Content-Length keeps the declared length. */
  lemma {:induction false} PutOtherKeepsDeclared(m: seq<Header>, name: string, value: string, initial: int)
    requires !IsContentLength(name)
    ensures Declared(Put(m, name, value), initial) == Declared(m, initial)
  {
    if m == [] || Less(name, m[0].name) {
      DeclaredPrepend(Header(name, value), m, initial);
    } else {
      assert m == [m[0]] + m[1..];
      DeclaredPrepend(m[0], m[1..], initial);
      if m[0].name == name {
        DeclaredPrepend(Header(name, value), m[1..], initial);
      } else {
        PutOtherKeepsDeclared(m[1..], name, value, initial);
        if IsContentLength(m[0].name) && LengthOf(m[0].value).Some? {
          PutOtherKeepsDeclared(m[1..], name, value, LengthOf(m[0].value).value);
        }
        DeclaredPrepend(m[0], Put(m[1..], name, value), initial);
      }
    }
  }

  /** Putting a Content-Length into a map with no other spelling of it makes it the declared one. */
  lemma {:induction false} PutLengthSetsDeclared(m: seq<Header>, name: string, value: string, initial: int)
    requires Sorted(m) && IsContentLength(name)
    requires forall i :: 0 <= i < |m| && IsContentLength(m[i].name) ==> m[i].name == name
    ensures Declared(Put(m, name, value), initial) == LengthOf(value)
  {
    LessIrreflexive(name);
    if m == [] || Less(name, m[0].name) {
      forall i | 0 <= i < |m| ensures m[i].name != name {
        if i > 0 { LessTransitive(name, m[0].name, m[i].name); }
      }
      DeclaredPrepend(Header(name, value), m, initial);
      if LengthOf(value).Some? { DeclaredWithoutLength(m, LengthOf(value).value); }
    } else if m[0].name == name {
      DeclaredPrepend(Header(name, value), m[1..], initial);
      if LengthOf(value).Some? { DeclaredWithoutLength(m[1..], LengthOf(value).value); }
    } else {
      PutLengthSetsDeclared(m[1..], name, value, initial);
      DeclaredPrepend(m[0], Put(m[1..], name, value), initial);
    }
  }

  /** With one spelling of Content-Length, collecting the list into a map keeps the declared length. */
  lemma {:induction false} CollectKeepsDeclared(hs: seq<Header>, initial: int)
    requires OneSpelling(hs) && Declared(hs, initial).Some?
    ensures Declared(Collect(hs), initial) == Declared(hs, initial)
  {
    if hs != [] {
      var p, h := hs[..|hs| - 1], hs[|hs| - 1];
      CollectSorted(p);
      CollectKeepsDeclared(p, initial);
      if IsContentLength(h.name) {
        forall i | 0 <= i < |Collect(p)| && IsContentLength(Collect(p)[i].name)
          ensures Collect(p)[i].name == h.name
        {
          CollectMember(p, Collect(p)[i]);
          var k :| 0 <= k < |p| && p[k] == Collect(p)[i];
          assert hs[k] == p[k];
        }
        PutLengthSetsDeclared(Collect(p), h.name, h.value, initial);
      } else {
        PutOtherKeepsDeclared(Collect(p), h.name, h.value, initial);
      }
    }
  }
}
