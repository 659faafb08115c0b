/** The two loops that split a uri at a static location: the dispatcher's search for the longest
    location, and the static handler's computation of the file name. */
module StaticPaths {
  import opened Text

  // ---- "%20" ----

  predicate EscapedBlankAt(s: string, i: nat) {
    i + 3 <= |s| && s[i] == '%' && s[i + 1] == '2' && s[i + 2] == '0'
  }

  /** Every "%20" replaced by a blank, from left to right in one pass. */
  function Unescape(s: string): string {
    if s == "" then ""
    else if EscapedBlankAt(s, 0) then " " + Unescape(s[3..])
    else [s[0]] + Unescape(s[1..])
  }

  /** `uri.find("%20", from)`. */
  method FindEscaped(s: string, from: nat) returns (found: Option<nat>)
    requires from <= |s|
    ensures found.Some? ==> from <= found.value && EscapedBlankAt(s, found.value)
    ensures forall i :: from <= i < (if found.Some? then found.value else |s|) ==> !EscapedBlankAt(s, i)
  {
    var i := from;
    while i < |s|
      invariant from <= i <= |s|
      invariant forall j :: from <= j < i ==> !EscapedBlankAt(s, j)
    {
      if EscapedBlankAt(s, i) { return Some(i); }
      i := i + 1;
    }
    return None;
  }

  lemma {:induction false} UnescapePlain(p: string, s: string)
    requires forall i :: 0 <= i < |p| ==> !EscapedBlankAt(p + s, i)
    ensures Unescape(p + s) == p + Unescape(s)
    decreases |p|
  {
    if p == "" {
      assert p + s == s;
    } else {
      assert (p + s)[1..] == p[1..] + s;
      forall i | 0 <= i < |p[1..]| ensures !EscapedBlankAt(p[1..] + s, i) {
        assert !EscapedBlankAt(p + s, i + 1);
      }
      UnescapePlain(p[1..], s);
      assert !EscapedBlankAt(p + s, 0);
    }
  }

  /** Between two positions without an escaped blank, unescaping copies. */
  lemma PlainFrom(r: string, from: nat, to: nat)
    requires from <= to <= |r|
    requires forall i :: from <= i < to ==> !EscapedBlankAt(r, i)
    ensures Unescape(r[from..]) == r[from..to] + Unescape(r[to..])
  {
    var p, s := r[from..to], r[to..];
    assert r[from..] == p + s;
    forall i | 0 <= i < |p| ensures !EscapedBlankAt(p + s, i) {
      assert !EscapedBlankAt(r, from + i);
    }
    UnescapePlain(p, s);
  }

  /** One replacement, at the first escaped blank from `index` on. */
  lemma ReplaceOne(r: string, index: nat, k: nat)
    requires index <= k && EscapedBlankAt(r, k) && forall i :: index <= i < k ==> !EscapedBlankAt(r, i)
    ensures var r1 := r[..k] + " " + r[k + 3..];
            r[..index] + Unescape(r[index..]) == r1[..k] + Unescape(r1[k..])
  {
    var r1 := r[..k] + " " + r[k + 3..];
    PlainFrom(r, index, k);
    assert r[k..][3..] == r[k + 3..] && EscapedBlankAt(r[k..], 0);
    assert Unescape(r[k..]) == " " + Unescape(r[k + 3..]);
    assert r1[k..] == " " + r[k + 3..] && r1[k..][1..] == r[k + 3..];
    assert Unescape(r1[k..]) == [' '] + Unescape(r[k + 3..]);
    assert r1[..k] == r[..k] && r[..k] == r[..index] + r[index..k];
  }

  /** `uri.replace(k, 3, " ")`. */
  function ReplaceAt(r: string, ghost index: nat, k: nat): (r1: string)
    requires index <= k && EscapedBlankAt(r, k) && forall i :: index <= i < k ==> !EscapedBlankAt(r, i)
    ensures |r1| == |r| - 2 && k < |r1|
    ensures r[..index] + Unescape(r[index..]) == r1[..k] + Unescape(r1[k..])
  {
    ReplaceOne(r, index, k);
    r[..k] + " " + r[k + 3..]
  }

  /** The loop that replaces in place and looks on from the same position. */
  method ReplaceEscaped(uri: string) returns (r: string)
    ensures r == Unescape(uri)
  {
    r := uri;
    var index := 0;
    assert r[..0] + Unescape(r[0..]) == Unescape(uri);
    while true
      invariant 0 <= index <= |r|
      invariant Unescape(uri) == r[..index] + Unescape(r[index..])
      decreases |r| - index
    {
      var found := FindEscaped(r, index);
      if found.None? {
        PlainFrom(r, index, |r|);
        break;
      }
      index, r := found.value, ReplaceAt(r, index, found.value);
    }
    assert r[index..|r|] == r[index..] && r[|r|..] == "";
    assert r[..index] + r[index..] == r;
  }

  lemma EscapedLater(c: char, u: string, i: nat)
    ensures EscapedBlankAt([c] + u, i + 1) == EscapedBlankAt(u, i)
  {
    var v := [c] + u;
    if i + 3 <= |u| { assert v[i + 1] == u[i] && v[i + 2] == u[i + 1] && v[i + 3] == u[i + 2]; }
  }

  /** An unescaped string starts like the original unless it starts with a blank. */
  lemma FirstTwo(s: string)
    ensures |Unescape(s)| >= 2 && Unescape(s)[0] == '2' && Unescape(s)[1] == '0' ==>
              |s| >= 2 && s[0] == '2' && s[1] == '0'
  {
    if s != "" && !EscapedBlankAt(s, 0) {
      var t := s[1..];
      assert Unescape(s) == [s[0]] + Unescape(t);
      if t != "" && !EscapedBlankAt(t, 0) { assert Unescape(t) == [t[0]] + Unescape(t[1..]); }
    }
  }

  lemma {:induction false} UnescapedHasNone(s: string, i: nat)
    ensures !EscapedBlankAt(Unescape(s), i)
    decreases |s|
  {
    if s != "" {
      var escaped := EscapedBlankAt(s, 0);
      var c, rest := if escaped then ' ' else s[0], if escaped then s[3..] else s[1..];
      assert Unescape(s) == [c] + Unescape(rest);
      if i > 0 {
        UnescapedHasNone(rest, i - 1);
        EscapedLater(c, Unescape(rest), i - 1);
      } else if !escaped {
        FirstTwo(rest);
      }
    }
  }

  /** Unescaping leaves nothing to unescape. */
  lemma UnescapeIdempotent(s: string)
    ensures Unescape(Unescape(s)) == Unescape(s)
  {
    var u := Unescape(s);
    forall i: nat | i < |u| ensures !EscapedBlankAt(u + "", i) {
      UnescapedHasNone(s, i);
      assert u + "" == u;
    }
    UnescapePlain(u, "");
    assert u + "" == u;
  }

  /** Texts laid end to end with a separator between them. */
  function Joined(ps: seq<string>, separator: string): string {
    if ps == [] then "" else if |ps| == 1 then ps[0] else ps[0] + separator + Joined(ps[1..], separator)
  }

  ghost predicate NoneEscaped(ps: seq<string>) { forall i :: 0 <= i < |ps| ==> !IsPart("%20", ps[i]) }

  lemma EscapeIsPart(s: string, i: nat)
    ensures EscapedBlankAt(s, i) ==> IsPart("%20", s)
  {
    if EscapedBlankAt(s, i) { assert s == s[..i] + "%20" + s[i + 3..]; }
  }

  /** No escaped blank begins in a piece, whatever comes after its end but a digit. */
  lemma PlainPiece(p: string, rest: string, i: nat)
    requires !IsPart("%20", p) && (rest == "" || rest[0] == '%') && i < |p|
    ensures !EscapedBlankAt(p + rest, i)
  {
    var s := p + rest;
    EscapeIsPart(p, i);
    assert i + 3 <= |p| ==> EscapedBlankAt(s, i) == EscapedBlankAt(p, i);
    assert rest != "" ==> s[|p|] == rest[0];
  }

  /** Unescaping, without looking at single characters: of the pieces between the escaped blanks nothing changes. */
  lemma {:induction false} UnescapeJoined(ps: seq<string>)
    requires NoneEscaped(ps)
    ensures Unescape(Joined(ps, "%20")) == Joined(ps, " ")
    decreases |ps|
  {
    if ps != [] {
      var later := if |ps| == 1 then "" else "%20" + Joined(ps[1..], "%20");
      assert !IsPart("%20", ps[0]);
      forall i: nat | i < |ps[0]| ensures !EscapedBlankAt(ps[0] + later, i) { PlainPiece(ps[0], later, i); }
      UnescapePlain(ps[0], later);
      if |ps| == 1 {
        assert ps[0] + "" == ps[0];
      } else {
        UnescapeJoined(ps[1..]);
        assert later[3..] == Joined(ps[1..], "%20");
        assert ps[0] + "%20" + Joined(ps[1..], "%20") == ps[0] + later;
      }
    }
  }

  lemma PlainStart(s: string, i: nat)
    requires i <= |s| && forall j: nat :: j < i ==> !EscapedBlankAt(s, j)
    ensures !IsPart("%20", s[..i])
  {
    if before, after :| s[..i] == before + "%20" + after {
      assert s[|before|] == s[..i][|before|] == '%';
      assert s[|before| + 1] == s[..i][|before| + 1] == '2' && s[|before| + 2] == s[..i][|before| + 2] == '0';
      assert EscapedBlankAt(s, |before|);
    }
  }

  lemma {:induction false} NoneUpTo(s: string, i: nat)
    requires !exists i: nat :: i <= |s| && EscapedBlankAt(s, i) && forall j: nat :: j < i ==> !EscapedBlankAt(s, j)
    requires i <= |s|
    ensures forall j: nat :: j <= i ==> !EscapedBlankAt(s, j)
  {
    if i > 0 { NoneUpTo(s, i - 1); }
  }

  lemma NoEscape(s: string)
    requires !exists i: nat :: i <= |s| && EscapedBlankAt(s, i) && forall j: nat :: j < i ==> !EscapedBlankAt(s, j)
    ensures !IsPart("%20", s)
  {
    forall i: nat | i <= |s| ensures !EscapedBlankAt(s, i) { NoneUpTo(s, i); }
    PlainStart(s, |s|);
    assert s[..|s|] == s;
  }

  /** Every text is such pieces. */
  lemma {:induction false} SplitAtEscapes(s: string) returns (ps: seq<string>)
    ensures ps != [] && NoneEscaped(ps) && Joined(ps, "%20") == s
    decreases |s|
  {
    if i: nat :| i <= |s| && EscapedBlankAt(s, i) && forall j: nat :: j < i ==> !EscapedBlankAt(s, j) {
      var later := SplitAtEscapes(s[i + 3..]);
      ps := [s[..i]] + later;
      PlainStart(s, i);
      assert ps[1..] == later && s == s[..i] + "%20" + s[i + 3..];
    } else {
      NoEscape(s);
      ps := [s];
    }
  }

  // ---- Prefixes that end before a slash ----

  /** p is the uri itself, or a prefix of it that ends just before a "/". */
  predicate IsPathPrefix(p: string, uri: string) {
    p <= uri && (|p| < |uri| ==> uri[|p|] == '/')
  }

  /** `find_last_of("/")`. */
  function LastSlash(s: string): Option<nat> {
    if s == "" then None
    else if s[|s| - 1] == '/' then Some(|s| - 1)
    else LastSlash(s[..|s| - 1])
  }

  lemma {:induction false} LastSlashIsLast(s: string)
    ensures LastSlash(s).Some? ==> LastSlash(s).value < |s| && s[LastSlash(s).value] == '/'
    ensures forall i :: (if LastSlash(s).Some? then LastSlash(s).value else -1) < i < |s| ==> s[i] != '/'
  {
    if s != "" && s[|s| - 1] != '/' { LastSlashIsLast(s[..|s| - 1]); }
  }

  /** A path prefix shorter than another one ends at one of its slashes. */
  lemma NotShorter(p: string, q: string, uri: string)
    requires IsPathPrefix(p, uri) && IsPathPrefix(q, uri) && |p| <= |q|
    ensures p == q || (|p| < |q| && q[|p|] == '/')
  {
    assert p == uri[..|p|] && q == uri[..|q|];
  }

  /** `longest_prefix_match`. */
  method LongestPrefixMatch(statics: map<string, string>, uri: string) returns (r: string)
    ensures r != "" ==> r in statics && IsPathPrefix(r, uri)
    ensures forall p :: p in statics && p != "" && IsPathPrefix(p, uri) ==> r != "" && |p| <= |r|
  {
    var trimmed := uri;
    while true
      invariant IsPathPrefix(trimmed, uri)
      invariant forall p :: p in statics && IsPathPrefix(p, uri) ==> |p| <= |trimmed|
      decreases |trimmed|
    {
      if trimmed in statics {
        return trimmed;
      }
      LastSlashIsLast(trimmed);
      var slash := LastSlash(trimmed);
      if slash.None? {
        forall p | IsPathPrefix(p, uri) && |p| <= |trimmed| ensures p == trimmed {
          NotShorter(p, trimmed, uri);
        }
        break;
      }
      forall p | p in statics && IsPathPrefix(p, uri) ensures |p| <= slash.value {
        NotShorter(p, trimmed, uri);
      }
      trimmed := trimmed[..slash.value];
    }
    return "";
  }

  /** The static handler's loop: which part of the uri it takes for the client path, and the rest. */
  method SplitAtLocation(location: string, uri: string) returns (clientPath: string, subPath: string)
    ensures IsPathPrefix(location, uri) ==>
              clientPath == location && subPath == (if location == uri then uri else uri[|location|..])
    ensures !IsPathPrefix(location, uri) ==>
              && IsPathPrefix(clientPath, uri) && '/' !in clientPath
              && subPath == (if clientPath == uri then uri else uri[|clientPath|..])
  {
    clientPath := uri;
    subPath := uri;
    while true
      invariant IsPathPrefix(clientPath, uri)
      invariant IsPathPrefix(location, uri) ==> |location| <= |clientPath|
      invariant subPath == if clientPath == uri then uri else uri[|clientPath|..]
      decreases |clientPath|
    {
      if clientPath == location {
        break;
      }
      LastSlashIsLast(clientPath);
      var slash := LastSlash(clientPath);
      if IsPathPrefix(location, uri) { NotShorter(location, clientPath, uri); }
      if slash.None? {
        break;
      }
      clientPath := clientPath[..slash.value];
      subPath := uri[slash.value..];
    }
  }

  /** The part of a uri before its first slash. */
  function FirstPart(s: string): (r: string)
    ensures r <= s && '/' !in r && (|r| < |s| ==> s[|r|] == '/')
  {
    if s == "" || s[0] == '/' then "" else [s[0]] + FirstPart(s[1..])
  }

  /** Only one path prefix has no slash. */
  lemma FirstPartIs(p: string, uri: string)
    requires IsPathPrefix(p, uri) && '/' !in p
    ensures p == FirstPart(uri)
  {
    var q := FirstPart(uri);
    assert q == uri[..|q|];
    if |p| <= |q| { NotShorter(p, q, uri); } else { NotShorter(q, p, uri); }
  }

  /** What the static handler opens for an unescaped uri: everything for the location itself, else what
      follows the location, or what follows the first part of a uri outside the location. */
  function Opened(location: string, uri: string): string {
    var client := if IsPathPrefix(location, uri) then location else FirstPart(uri);
    if client == uri then uri else uri[|client|..]
  }

  /** The name of the file the static handler opens for a uri. */
  method FileName(location: string, root: string, uri: string) returns (name: string)
    ensures name == root + Opened(location, Unescape(uri))
  {
    var decoded := ReplaceEscaped(uri);
    var client, sub := SplitAtLocation(location, decoded);
    if !IsPathPrefix(location, decoded) { FirstPartIs(client, decoded); }
    name := root + sub;
  }
}
