/** Decoding a submitted form: percent escapes, then key=value pairs. */
module Forms {
  import opened Text

  predicate IsByte(c: char) { c as int < 256 }

  predicate AllBytes(s: string) { forall i :: 0 <= i < |s| ==> IsByte(s[i]) }

  /** `from_hex`: the value of a hexadecimal digit, and 0 for anything else. */
  function FromHex(c: char): (v: nat)
    ensures v < 16
  {
    if IsHex(c) then HexDigitValue(c) else 0
  }

  /** One step of the decoding: the decoded character and how many bytes it took. */
  function Decode(s: string): string
    decreases |s|
  {
    if s == "" then ""
    else if s[0] == '+' then " " + Decode(s[1..])
    else if s[0] == '%' && |s| > 2 then [(FromHex(s[1]) * 16 + FromHex(s[2])) as char] + Decode(s[3..])
    else [s[0]] + Decode(s[1..])
  }

  /** The decoding of what is left at position i, one step unrolled. */
  lemma DecodeFrom(s: string, i: nat)
    requires i < |s|
    ensures s[i] == '+' ==> Decode(s[i..]) == [' '] + Decode(s[i + 1..])
    ensures s[i] == '%' && |s| > i + 2 ==>
              Decode(s[i..]) == [(FromHex(s[i + 1]) * 16 + FromHex(s[i + 2])) as char] + Decode(s[i + 3..])
    ensures s[i] != '+' && !(s[i] == '%' && |s| > i + 2) ==> Decode(s[i..]) == [s[i]] + Decode(s[i + 1..])
  {
    var rest := s[i..];
    assert rest[1..] == s[i + 1..];
    if |s| > i + 2 { assert rest[3..] == s[i + 3..]; }
  }

  /** `urldecode`. */
  method UrlDecode(s: string) returns (result: string)
    ensures result == Decode(s)
  {
    result := "";
    var i := 0;
    assert s[0..] == s && "" + Decode(s) == Decode(s);
    while i < |s|
      invariant 0 <= i <= |s|
      invariant Decode(s) == result + Decode(s[i..])
    {
      hide Decode;
      ghost var before := result;
      DecodeFrom(s, i);
      if s[i] == '+' {
        result := result + [' '];
        Assoc(before, [' '], Decode(s[i + 1..]));
      } else if s[i] == '%' && |s| > i + 2 {
        var ch1, ch2 := FromHex(s[i + 1]), FromHex(s[i + 2]);
        result := result + [(ch1 * 16 + ch2) as char];
        Assoc(before, [(ch1 * 16 + ch2) as char], Decode(s[i + 3..]));
        i := i + 2;
      } else {
        result := result + [s[i]];
        Assoc(before, [s[i]], Decode(s[i + 1..]));
      }
      i := i + 1;
    }
  }

  // ---- Encoding, as section 2.1 of RFC 3986 has it, with "+" for a blank ----

  /** A hexadecimal digit, small or capital, with that value. */
  predicate IsDigitOf(d: char, v: nat)
    requires v < 16
  {
    d == SMALL_DIGITS[v] || d == CAPITAL_DIGITS[v]
  }

  /** One byte as it may be sent: as itself unless it is "+" or "%", a blank as "+", and any byte escaped. */
  predicate Spells(e: string, c: char) {
    || (e == [c] && c != '+' && c != '%')
    || (e == "+" && c == ' ')
    || (IsByte(c) && |e| == 3 && e[0] == '%' && IsDigitOf(e[1], c as int / 16) && IsDigitOf(e[2], c as int % 16))
  }

  /** A text in which every byte of s is sent in one of these ways. */
  ghost predicate Encodes(e: string, s: string)
    decreases |s|
  {
    if s == "" then e == "" else exists k :: 0 < k <= |e| && Spells(e[..k], s[0]) && Encodes(e[k..], s[1..])
  }

  lemma FromDigitOf(d: char, v: nat)
    requires v < 16 && IsDigitOf(d, v)
    ensures FromHex(d) == v
  {
    HexDigitOf(v);
    hide HexDigitValue;
  }

  lemma DecodeSpelled(e: string, c: char, rest: string)
    requires Spells(e, c)
    ensures Decode(e + rest) == [c] + Decode(rest)
  {
    var all := e + rest;
    assert all[0] == e[0] && all[|e|..] == rest;
    if |e| == 3 {
      FromDigitOf(e[1], c as int / 16);
      FromDigitOf(e[2], c as int % 16);
      assert all[1] == e[1] && all[2] == e[2] && c as int / 16 * 16 + c as int % 16 == c as int;
    }
  }

  /** An escape needs two bytes after it, and what is no hexadecimal digit counts as zero. */
  lemma DecodeMalformed(a: char, b: char, rest: string)
    requires !IsHex(a) && !IsHex(b)
    ensures Decode(['%', a, b] + rest) == ['\0'] + Decode(rest)
    ensures Decode("%") == "%" && (a != '+' ==> Decode(['%', a]) == ['%', a])
  {
    assert (['%', a, b] + rest)[3..] == rest;
    assert "%"[1..] == "" && ['%', a][1..] == [a] && [a][1..] == "";
    assert Decode("") == "" && (a != '+' ==> Decode([a]) == [a]);
    assert "%" + "" == "%" && ['%'] + [a] == ['%', a];
  }

  /** A literal separator is left alone. */
  lemma DecodeSeparator(c: char, rest: string)
    requires c == '=' || c == '&'
    ensures Decode([c] + rest) == [c] + Decode(rest)
  {
    assert ([c] + rest)[1..] == rest;
  }

  lemma {:induction false} DecodeEncoded(e: string, s: string, rest: string)
    requires Encodes(e, s)
    ensures Decode(e + rest) == s + Decode(rest)
    decreases |s|
  {
    hide Decode, Spells;
    if s == "" {
      assert e + rest == rest && s + Decode(rest) == Decode(rest);
    } else {
      var k :| 0 < k <= |e| && Spells(e[..k], s[0]) && Encodes(e[k..], s[1..]);
      assert e + rest == e[..k] + (e[k..] + rest);
      DecodeSpelled(e[..k], s[0], e[k..] + rest);
      DecodeEncoded(e[k..], s[1..], rest);
      assert [s[0]] + s[1..] == s;
      Assoc([s[0]], s[1..], Decode(rest));
    }
  }

  // ---- Pairs ----

  datatype Pair = Pair(key: string, value: string)

  /** Free of the two separators. */
  predicate IsPlain(s: string) { forall i :: 0 <= i < |s| ==> s[i] != '=' && s[i] != '&' }

  /** A map after the pairs of a list were put in turn: later ones win. */
  function PutAll(m: map<string, string>, ps: seq<Pair>): map<string, string>
    decreases |ps|
  {
    if ps == [] then m else PutAll(m[ps[0].key := ps[0].value], ps[1..])
  }

  /** The state of `parseRequestBody` between two characters. */
  datatype Reader = Reader(pairs: map<string, string>, key: string, value: string, atKey: bool)

  function Read(r: Reader, c: char): Reader {
    if c == '=' then r.(atKey := false)
    else if c == '&' then Reader(r.pairs[r.key := r.value], "", "", true)
    else if r.atKey then r.(key := r.key + [c])
    else r.(value := r.value + [c])
  }

  function ReadAll(r: Reader, s: string): Reader
    decreases |s|
  {
    if s == "" then r else ReadAll(Read(r, s[0]), s[1..])
  }

  const EMPTY: Reader := Reader(map[], "", "", true)

  /** The pairs of a body; what follows the last "&" is always a pair, even when it is empty. */
  function PairsOf(body: string): map<string, string> {
    var r := ReadAll(EMPTY, body);
    r.pairs[r.key := r.value]
  }

  /** `parseRequestBody`. */
  method ParseRequestBody(body: string) returns (pairs: map<string, string>)
    ensures pairs == PairsOf(body)
  {
    pairs := map[];
    var key, value, atKey := "", "", true;
    var counter := 0;
    assert body[0..] == body;
    while counter < |body|
      invariant 0 <= counter <= |body|
      invariant ReadAll(EMPTY, body) == ReadAll(Reader(pairs, key, value, atKey), body[counter..])
    {
      var c := body[counter];
      assert body[counter..][1..] == body[counter + 1..];
      if c == '=' {
        atKey := false;
      } else if c == '&' {
        atKey := true;
        pairs := pairs[key := value];
        key := "";
        value := "";
      } else if atKey {
        key := key + [c];
      } else {
        value := value + [c];
      }
      counter := counter + 1;
    }
    pairs := pairs[key := value];
  }

  lemma {:induction false} ReadAllConcat(r: Reader, a: string, b: string)
    ensures ReadAll(r, a + b) == ReadAll(ReadAll(r, a), b)
    decreases |a|
  {
    if a == "" {
      assert a + b == b;
    } else {
      assert (a + b)[1..] == a[1..] + b;
      ReadAllConcat(Read(r, a[0]), a[1..], b);
    }
  }

  lemma {:induction false} ReadPlain(r: Reader, s: string)
    requires IsPlain(s)
    ensures ReadAll(r, s) == if r.atKey then r.(key := r.key + s) else r.(value := r.value + s)
    decreases |s|
  {
    if s == "" {
      assert r.key + s == r.key && r.value + s == r.value;
    } else {
      ReadPlain(Read(r, s[0]), s[1..]);
      assert r.key + [s[0]] + s[1..] == r.key + s && r.value + [s[0]] + s[1..] == r.value + s;
    }
  }

  lemma ReadPair(pairs: map<string, string>, p: Pair)
    requires IsPlain(p.key) && IsPlain(p.value)
    ensures ReadAll(Reader(pairs, "", "", true), p.key + "=" + p.value) == Reader(pairs, p.key, p.value, false)
  {
    var r0 := Reader(pairs, "", "", true);
    var r1 := Reader(pairs, p.key, "", true);
    ReadPlain(r0, p.key);
    assert "" + p.key == p.key && "" + p.value == p.value;
    ReadAllConcat(r0, p.key, "=");
    assert "="[1..] == "";
    assert ReadAll(r1, "=") == Reader(pairs, p.key, "", false);
    ReadAllConcat(r0, p.key + "=", p.value);
    ReadPlain(Reader(pairs, p.key, "", false), p.value);
  }

  // ---- The form round trip ----

  ghost predicate AllPairsPlain(ps: seq<Pair>) {
    forall i :: 0 <= i < |ps| ==> IsPlain(ps[i].key) && IsPlain(ps[i].value)
  }

  ghost predicate SubmitsOne(text: string, p: Pair, rest: string) {
    exists key, value :: text == key + "=" + value + rest && Encodes(key, p.key) && Encodes(value, p.value)
  }

  /** What a browser may send for a list of fields. */
  ghost predicate Submits(text: string, ps: seq<Pair>)
    decreases |ps|
  {
    if ps == [] then text == ""
    else if |ps| == 1 then SubmitsOne(text, ps[0], "")
    else exists more :: SubmitsOne(text, ps[0], "&" + more) && Submits(more, ps[1..])
  }

  /** The same list with nothing escaped. */
  function Joined(ps: seq<Pair>): string {
    if ps == [] then ""
    else ps[0].key + "=" + ps[0].value + (if |ps| == 1 then "" else "&" + Joined(ps[1..]))
  }

  lemma Middle(key: string, value: string, rest: string)
    ensures key + "=" + value + rest == key + (['='] + (value + rest))
  {}

  lemma DecodeOnePair(text: string, p: Pair, rest: string)
    requires SubmitsOne(text, p, rest)
    ensures Decode(text) == p.key + "=" + p.value + Decode(rest)
  {
    hide Decode, Encodes;
    var key, value :| text == key + "=" + value + rest && Encodes(key, p.key) && Encodes(value, p.value);
    var later := value + rest;
    Middle(key, value, rest);
    DecodeEncoded(key, p.key, ['='] + later);
    DecodeSeparator('=', later);
    DecodeEncoded(value, p.value, rest);
    Middle(p.key, p.value, Decode(rest));
  }

  lemma DecodeNothing()
    ensures Decode("") == ""
  {}

  lemma {:induction false} DecodeSubmitted(text: string, ps: seq<Pair>)
    requires Submits(text, ps)
    ensures Decode(text) == Joined(ps)
    decreases |ps|
  {
    DecodeNothing();
    if ps != [] {
      hide Decode, SubmitsOne;
      if |ps| == 1 {
        DecodeOnePair(text, ps[0], "");
      } else {
        var more :| SubmitsOne(text, ps[0], "&" + more) && Submits(more, ps[1..]);
        DecodeSubmitted(more, ps[1..]);
        DecodeSeparator('&', more);
        DecodeOnePair(text, ps[0], "&" + more);
      }
    }
  }

  lemma {:induction false} ReadJoined(m: map<string, string>, ps: seq<Pair>)
    requires ps != [] && AllPairsPlain(ps)
    decreases |ps|
    ensures var r := ReadAll(Reader(m, "", "", true), Joined(ps));
            r.pairs[r.key := r.value] == PutAll(m, ps)
  {
    var p, rest := ps[0], ps[1..];
    var start, pair := Reader(m, "", "", true), ps[0].key + "=" + ps[0].value;
    ReadPair(m, p);
    if |ps| == 1 {
      assert Joined(ps) == pair && rest == [];
    } else {
      ReadAllConcat(start, pair, "&" + Joined(rest));
      assert ("&" + Joined(rest))[1..] == Joined(rest);
      ReadJoined(m[p.key := p.value], rest);
    }
  }

  // ---- No separator survives ----

  ghost predicate PlainMap(m: map<string, string>) { forall k :: k in m ==> IsPlain(k) && IsPlain(m[k]) }

  ghost predicate PlainReader(r: Reader) { PlainMap(r.pairs) && IsPlain(r.key) && IsPlain(r.value) }

  lemma {:induction false} ReadAllPlain(r: Reader, s: string)
    requires PlainReader(r)
    ensures PlainReader(ReadAll(r, s))
    decreases |s|
  {
    if s != "" { ReadAllPlain(Read(r, s[0]), s[1..]); }
  }

  /** Whatever the body, no key and no value that comes out holds a separator. */
  lemma PairsArePlain(body: string)
    ensures PlainMap(PairsOf(body))
  {
    ReadAllPlain(EMPTY, body);
  }

  ghost predicate DistinctKeys(ps: seq<Pair>) { forall i, j :: 0 <= i < j < |ps| ==> ps[i].key != ps[j].key }

  lemma {:induction false} PutAllKeeps(m: map<string, string>, ps: seq<Pair>, k: string)
    requires k in m && forall i :: 0 <= i < |ps| ==> ps[i].key != k
    ensures k in PutAll(m, ps) && PutAll(m, ps)[k] == m[k]
    decreases |ps|
  {
    if ps != [] { PutAllKeeps(m[ps[0].key := ps[0].value], ps[1..], k); }
  }

  lemma {:induction false} PutAllHolds(m: map<string, string>, ps: seq<Pair>, i: nat)
    requires DistinctKeys(ps) && i < |ps|
    ensures ps[i].key in PutAll(m, ps) && PutAll(m, ps)[ps[i].key] == ps[i].value
    decreases |ps|
  {
    var m1 := m[ps[0].key := ps[0].value];
    if i == 0 { PutAllKeeps(m1, ps[1..], ps[0].key); } else { PutAllHolds(m1, ps[1..], i - 1); }
  }

  lemma SubmittedArrives(text: string, ps: seq<Pair>)
    requires ps != [] && Submits(text, ps) && AllPairsPlain(ps)
    ensures PairsOf(Decode(text)) == PutAll(map[], ps)
  {
    DecodeSubmitted(text, ps);
    ReadJoined(map[], ps);
  }

  /** Whatever fields a browser sends, in whatever spelling, free of the separators: the handler gets their
      last-wins map; and fields with distinct keys arrive as they were sent only then. */
  lemma FormRoundTrip(text: string, ps: seq<Pair>)
    requires ps != [] && Submits(text, ps)
    ensures AllPairsPlain(ps) ==> PairsOf(Decode(text)) == PutAll(map[], ps)
    ensures DistinctKeys(ps) ==> (PairsOf(Decode(text)) == PutAll(map[], ps) <==> AllPairsPlain(ps))
  {
    hide PairsOf, Decode, Submits, PutAll, IsPlain;
    if AllPairsPlain(ps) { SubmittedArrives(text, ps); }
    PairsArePlain(Decode(text));
    if DistinctKeys(ps) && PairsOf(Decode(text)) == PutAll(map[], ps) {
      forall i | 0 <= i < |ps| ensures IsPlain(ps[i].key) && IsPlain(ps[i].value) { PutAllHolds(map[], ps, i); }
    }
  }

  // ---- The encoding of a browser ----

  predicate IsUnreserved(c: char) {
    'a' <= c <= 'z' || 'A' <= c <= 'Z' || '0' <= c <= '9' || c == '-' || c == '.' || c == '_' || c == '~'
  }

  function EncodeChar(c: char): string
    requires IsByte(c)
  {
    if c == ' ' then "+"
    else if IsUnreserved(c) then [c]
    else ['%', CAPITAL_DIGITS[c as int / 16], CAPITAL_DIGITS[c as int % 16]]
  }

  /** Unreserved bytes as they are, blanks as "+", everything else escaped with capital digits. */
  function Encode(s: string): string
    requires AllBytes(s)
  {
    if s == "" then "" else EncodeChar(s[0]) + Encode(s[1..])
  }

  lemma {:induction false} EncodeEncodes(s: string)
    requires AllBytes(s)
    ensures Encodes(Encode(s), s)
  {
    if s != "" {
      EncodeEncodes(s[1..]);
      var e, k := Encode(s), |EncodeChar(s[0])|;
      assert Spells(EncodeChar(s[0]), s[0]);
      hide EncodeChar, Spells;
      assert e[..k] == EncodeChar(s[0]) && e[k..] == Encode(s[1..]);
    }
  }

  lemma OnlyTheKey()
    ensures PairsOf("k==") == map["k" := ""]
  {
    assert "k=="[1..] == "==" && "=="[1..] == "=" && "="[1..] == "";
    var r := Reader(map[], "k", "", false);
    assert ReadAll(r, "=") == ReadAll(r, "") == r;
    assert ReadAll(Reader(map[], "k", "", true), "==") == ReadAll(r, "=");
    assert ReadAll(EMPTY, "k==") == ReadAll(Reader(map[], "k", "", true), "==");
  }

  lemma DecodedSeparator(text: string)
    requires Submits(text, [Pair("k", "=")])
    ensures Decode(text) == "k=="
  {
    hide Submits, Decode;
    DecodeSubmitted(text, [Pair("k", "=")]);
    assert "k" + "=" + "=" + "" == "k==";
  }

  lemma EscapeSpells(e: string)
    requires e == "%3D" || e == "%3d"
    ensures Encodes(e, "=")
  {
    assert IsDigitOf(e[1], 3) && IsDigitOf(e[2], 13) && '=' as int == 61;
    assert Spells(e, '=');
    hide Spells;
    assert e[..3] == e && e[3..] == "" && "="[1..] == "" && Encodes("", "");
  }

  lemma LetterSpells()
    ensures Encodes("k", "k")
  {
    assert Spells("k", 'k');
    hide Spells;
    assert "k"[..1] == "k" && "k"[1..] == "" && Encodes("", "");
  }

  lemma EscapedSeparator(e: string)
    requires e == "%3D" || e == "%3d"
    ensures Submits("k=" + e, [Pair("k", "=")])
  {
    EscapeSpells(e);
    LetterSpells();
    hide Encodes;
    assert "k=" + e == "k" + "=" + e + "";
    assert SubmitsOne("k=" + e, Pair("k", "="), "");
    hide SubmitsOne;
  }

  /** Separators do not survive, because escapes are undone before the pairs are split. */
  lemma SeparatorsAreLost()
    ensures Submits("k=%3D", [Pair("k", "=")]) && Submits("k=%3d", [Pair("k", "=")])
    ensures PairsOf(Decode("k=%3D")) == PairsOf(Decode("k=%3d")) == map["k" := ""]
  {
    hide Submits, Decode, PairsOf;
    assert "k=" + "%3D" == "k=%3D" && "k=" + "%3d" == "k=%3d";
    EscapedSeparator("%3D");
    EscapedSeparator("%3d");
    DecodedSeparator("k=%3D");
    DecodedSeparator("k=%3d");
    OnlyTheKey();
  }
}
