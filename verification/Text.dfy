/** Bytes, character classes and the C library's number conversions.

    A `char` of the source is a Dafny `char`, and byte 0..255 is the character with that code. */
module Text {

  datatype Option<+T> = None | Some(value: T) {
    function GetOr(default: T): T { if None? then default else value }
  }

  const INT_MIN: int := -0x8000_0000
  const INT_MAX: int := 0x7fff_ffff
  const CRLF: string := "\r\n"

  // ---- Character classes of src/request_parser.cc and src/response_parser.cc ----

  predicate IsChar(c: char) { c as int < 128 }

  predicate IsCtl(c: char) { c as int <= 31 || c as int == 127 }

  predicate IsTspecial(c: char) {
    || c == '(' || c == ')' || c == '<' || c == '>' || c == '@'
    || c == ',' || c == ';' || c == ':' || c == '\\' || c == '\"'
    || c == '/' || c == '[' || c == ']' || c == '?' || c == '='
    || c == '{' || c == '}' || c == ' ' || c == '\t'
  }

  predicate IsDigit(c: char) { '0' <= c <= '9' }

  predicate IsHex(c: char) { IsDigit(c) || 'A' <= c <= 'F' || 'a' <= c <= 'f' }

  predicate IsTokenChar(c: char) { IsChar(c) && !IsCtl(c) && !IsTspecial(c) }

  // Predicates on whole strings.

  predicate AllToken(s: string) { forall i :: 0 <= i < |s| ==> IsTokenChar(s[i]) }

  predicate NoCtl(s: string) { forall i :: 0 <= i < |s| ==> !IsCtl(s[i]) }

  predicate AllDigits(s: string) { forall i :: 0 <= i < |s| ==> IsDigit(s[i]) }

  predicate AllHex(s: string) { forall i :: 0 <= i < |s| ==> IsHex(s[i]) }

  // What the classes come to, said without them.

  /** A name is made of letters, digits and fifteen marks; no byte from 128 on is one of them. */
  lemma TokenChars(c: char)
    ensures IsTokenChar(c) <==>
            || 'a' <= c <= 'z' || 'A' <= c <= 'Z' || '0' <= c <= '9'
            || c == '!' || c == '#' || c == '$' || c == '%' || c == '&' || c == '\'' || c == '*' || c == '+'
            || c == '-' || c == '.' || c == '^' || c == '_' || c == '`' || c == '|' || c == '~'
  {}

  /** A value is made of blanks, printable characters and the bytes from 128 on. */
  lemma ValueChars(c: char)
    ensures !IsCtl(c) <==> ' ' <= c <= '~' || 128 <= c as int
  {}

  // ---- strcasecmp(a, b) == 0 for strings without NUL ----

  function Lower(c: char): char {
    if 'A' <= c <= 'Z' then (c as int + 32) as char else c
  }

  predicate SameIgnoringCase(a: string, b: string) {
    |a| == |b| && forall i :: 0 <= i < |a| ==> Lower(a[i]) == Lower(b[i])
  }

  /** The text with every capital letter replaced by its small one. */
  function LowerCase(s: string): string {
    if s == "" then ""
    else
      [if 'A' <= s[0] <= 'Z' then "abcdefghijklmnopqrstuvwxyz"[s[0] as int - 'A' as int] else s[0]]
      + LowerCase(s[1..])
  }

  lemma SmallLetter(c: char)
    ensures Lower(c) == if 'A' <= c <= 'Z' then "abcdefghijklmnopqrstuvwxyz"[c as int - 'A' as int] else c
  {
    if 'A' <= c <= 'Z' {
      if c <= 'M' { assert c in "ABCDEFGHIJKLM"; } else { assert c in "NOPQRSTUVWXYZ"; }
    }
  }

  lemma {:induction false} LowerCaseAt(s: string)
    ensures |LowerCase(s)| == |s| && forall i :: 0 <= i < |s| ==> LowerCase(s)[i] == Lower(s[i])
  {
    if s != "" {
      LowerCaseAt(s[1..]);
      SmallLetter(s[0]);
      hide Lower;
      forall i | 0 <= i < |s| ensures LowerCase(s)[i] == Lower(s[i]) {
        if i > 0 { assert LowerCase(s)[i] == LowerCase(s[1..])[i - 1]; }
      }
    }
  }

  lemma SmallText(s: string, small: string)
    requires |s| == |small| && forall i :: 0 <= i < |s| ==> Lower(s[i]) == small[i]
    ensures LowerCase(s) == small
  {
    LowerCaseAt(s);
  }

  /** `strcasecmp` finds two texts equal exactly when they are the same in small letters. */
  lemma SameInLowerCase(a: string, b: string)
    ensures SameIgnoringCase(a, b) <==> LowerCase(a) == LowerCase(b)
  {
    LowerCaseAt(a);
    LowerCaseAt(b);
    hide Lower;
    if SameIgnoringCase(a, b) { assert LowerCase(a) == LowerCase(b); }
    if LowerCase(a) == LowerCase(b) {
      forall i | 0 <= i < |a| ensures Lower(a[i]) == Lower(b[i]) { assert LowerCase(a)[i] == LowerCase(b)[i]; }
    }
  }

  // ---- Numbers ----

  function DigitValue(c: char): nat
    requires IsDigit(c)
  {
    c as int - '0' as int
  }

  function HexDigitValue(c: char): (v: nat)
    requires IsHex(c)
    ensures v < 16
  {
    if IsDigit(c) then DigitValue(c)
    else if c <= 'F' then c as int - 'A' as int + 10
    else c as int - 'a' as int + 10
  }

  /** The number a run of decimal digits denotes, most significant digit first. */
  function DecimalValue(s: string): nat
    requires AllDigits(s)
  {
    if s == "" then 0 else DecimalValue(s[..|s| - 1]) * 10 + DigitValue(s[|s| - 1])
  }

  /** The number a run of hexadecimal digits denotes, most significant digit first. */
  function HexValue(s: string): nat
    requires AllHex(s)
  {
    if s == "" then 0 else HexValue(s[..|s| - 1]) * 16 + HexDigitValue(s[|s| - 1])
  }

  /** `std::to_string` of a non-negative number. */
  function Decimal(n: nat): string {
    var digit := ('0' as int + n % 10) as char;
    if n < 10 then [digit] else Decimal(n / 10) + [digit]
  }

  predicate IsSpace(c: char) { c == ' ' || '\t' <= c <= '\r' }

  function SkipSpaces(s: string): string {
    if s != "" && IsSpace(s[0]) then SkipSpaces(s[1..]) else s
  }

  function LeadingDigits(s: string): (ds: string)
    ensures AllDigits(ds) && ds <= s
    ensures |ds| < |s| ==> !IsDigit(s[|ds|])
  {
    if s != "" && IsDigit(s[0]) then [s[0]] + LeadingDigits(s[1..]) else ""
  }

  /** `std::stoi`: blanks, an optional sign, then digits; what follows the digits is ignored.
      None stands for the two exceptions, no digits and out of the range of `int`. */
  function Stoi(s: string): Option<int> {
    var t := SkipSpaces(s);
    var signed := t != "" && (t[0] == '-' || t[0] == '+');
    var digits := LeadingDigits(if signed then t[1..] else t);
    if digits == "" then None else
    var n: int := DecimalValue(digits);
    var v := if signed && t[0] == '-' then -n else n;
    if INT_MIN <= v <= INT_MAX then Some(v) else None
  }

  lemma {:induction false} DecimalRoundTrip(n: nat)
    ensures AllDigits(Decimal(n)) && Decimal(n) != ""
    ensures DecimalValue(Decimal(n)) == n
  {
    if n >= 10 {
      DecimalRoundTrip(n / 10);
      var d := Decimal(n);
      assert d[..|d| - 1] == Decimal(n / 10);
    }
  }

  lemma {:induction false} NoLeadingZero(s: string)
    requires s != "" && AllDigits(s) && s[0] != '0'
    ensures DecimalValue(s) > 0
  {
    if |s| > 1 { NoLeadingZero(s[..|s| - 1]); }
  }

  /** Every text of digits without a leading zero is what `to_string` writes of the number it denotes. */
  lemma {:induction false} DecimalOfValue(s: string)
    requires s != "" && AllDigits(s) && (s[0] != '0' || |s| == 1)
    ensures Decimal(DecimalValue(s)) == s
  {
    var p, c := s[..|s| - 1], s[|s| - 1];
    assert s == p + [c];
    if p == "" {
      assert DecimalValue(p) == 0;
    } else {
      NoLeadingZero(p);
      DecimalOfValue(p);
      var n := DecimalValue(s);
      assert n / 10 == DecimalValue(p) && n % 10 == DigitValue(c);
    }
  }

  lemma {:induction false} LeadingDigitsOfDigits(s: string)
    requires AllDigits(s)
    ensures LeadingDigits(s) == s
  {
    if s != "" { LeadingDigitsOfDigits(s[1..]); }
  }

  /** Reading back what `to_string` wrote. */
  lemma StoiOfDecimal(n: nat)
    ensures Stoi(Decimal(n)) == if n <= 2147483647 then Some(n) else None
  {
    DecimalRoundTrip(n);
    var d := Decimal(n);
    LeadingDigitsOfDigits(d);
    hide Decimal, DecimalValue, LeadingDigits;
    assert IsDigit(d[0]) && SkipSpaces(d) == d;
  }

  predicate AllSpaces(s: string) { forall i :: 0 <= i < |s| ==> s[i] == ' ' || '\t' <= s[i] <= '\r' }

  predicate StartsWithDigit(s: string) { s != "" && IsDigit(s[0]) }

  lemma {:induction false} SpacesSkipped(spaces: string, s: string)
    requires AllSpaces(spaces) && (s == "" || !AllSpaces([s[0]]))
    ensures SkipSpaces(spaces + s) == s
  {
    if spaces == "" {
      assert spaces + s == s;
      if s != "" { assert [s[0]][0] == s[0]; }
    } else {
      assert (spaces + s)[1..] == spaces[1..] + s;
      SpacesSkipped(spaces[1..], s);
    }
  }

  lemma {:induction false} DigitsTaken(digits: string, rest: string)
    requires AllDigits(digits) && !StartsWithDigit(rest)
    ensures LeadingDigits(digits + rest) == digits
  {
    if digits == "" {
      assert digits + rest == rest;
    } else {
      assert (digits + rest)[1..] == digits[1..] + rest;
      DigitsTaken(digits[1..], rest);
    }
  }

  /** What `stoi` makes of a text: blanks, at most one sign, digits, and anything that is no digit after them.
      It throws when there are no digits, and when the number is no int. */
  lemma StoiReads(spaces: string, sign: string, digits: string, rest: string)
    requires AllSpaces(spaces) && AllDigits(digits) && !StartsWithDigit(rest)
    requires sign == "" || sign == "+" || sign == "-"
    requires digits == "" && sign == "" ==> rest == "" || !(AllSpaces([rest[0]]) || rest[0] == '+' || rest[0] == '-')
    ensures var n: int := DecimalValue(digits);
            var v := if sign == "-" then -n else n;
            Stoi(spaces + (sign + (digits + rest)))
            == if digits == "" || v < -2147483648 || v > 2147483647 then None else Some(v)
  {
    var tail := digits + rest;
    var t := sign + tail;
    hide DecimalValue, LeadingDigits, SkipSpaces;
    if t != "" { assert [t[0]][0] == t[0] && (sign == "" ==> t[0] == tail[0]); }
    assert t != "" ==> !AllSpaces([t[0]]) by {
      if t != "" && sign == "" && digits != "" { assert IsDigit(t[0]); }
    }
    SpacesSkipped(spaces, t);
    DigitsTaken(digits, rest);
    assert sign == "" ==> t == tail;
    assert sign != "" ==> t[1..] == tail;
    assert sign == "" && digits != "" ==> IsDigit(t[0]);
  }

  // ---- Hexadecimal numbers ----

  const SMALL_DIGITS: string := "0123456789abcdef"
  const CAPITAL_DIGITS: string := "0123456789ABCDEF"

  /** A number written with the given digits by repeated division by 16. */
  function Hex(n: nat, digits: string): string
    requires |digits| == 16
  {
    if n < 16 then [digits[n]] else Hex(n / 16, digits) + [digits[n % 16]]
  }

  lemma HexDigitOf(v: nat)
    requires v < 16
    ensures IsHex(SMALL_DIGITS[v]) && HexDigitValue(SMALL_DIGITS[v]) == v
    ensures IsHex(CAPITAL_DIGITS[v]) && HexDigitValue(CAPITAL_DIGITS[v]) == v
  {
    if v < 10 { assert SMALL_DIGITS[v] == CAPITAL_DIGITS[v] == ('0' as int + v) as char; }
    else if v < 13 { assert v == 10 || v == 11 || v == 12; }
    else { assert v == 13 || v == 14 || v == 15; }
  }

  lemma HexValueAppend(s: string, c: char)
    requires AllHex(s) && IsHex(c)
    ensures AllHex(s + [c]) && HexValue(s + [c]) == HexValue(s) * 16 + HexDigitValue(c)
  {
    hide IsHex, HexDigitValue;
    var all := s + [c];
    assert all[..|all| - 1] == s && all[|all| - 1] == c && all != "";
  }

  lemma NoHexDigits()
    ensures AllHex("") && HexValue("") == 0
  {}

  /** A number written in hexadecimal digits, small or capital, is read as that number. */
  lemma {:induction false} HexRoundTrip(n: nat, digits: string)
    requires digits == SMALL_DIGITS || digits == CAPITAL_DIGITS
    ensures Hex(n, digits) != "" && AllHex(Hex(n, digits)) && HexValue(Hex(n, digits)) == n
  {
    HexDigitOf(n % 16);
    NoHexDigits();
    hide HexDigitValue, IsHex, HexValue, AllHex;
    if n < 16 {
      HexValueAppend("", digits[n]);
      assert "" + [digits[n]] == [digits[n]];
    } else {
      HexRoundTrip(n / 16, digits);
      HexValueAppend(Hex(n / 16, digits), digits[n % 16]);
    }
  }

  predicate AllZeros(s: string) { forall i :: 0 <= i < |s| ==> s[i] == '0' }

  lemma LowerCaseAppend(s: string, c: char)
    ensures LowerCase(s + [c]) == LowerCase(s) + [Lower(c)]
  {
    LowerCaseAt(s);
    LowerCaseAt(s + [c]);
    hide Lower, LowerCase;
    assert forall i :: 0 <= i < |s| ==> LowerCase(s + [c])[i] == LowerCase(s)[i];
  }

  function SmallHex(n: nat): string { Hex(n, SMALL_DIGITS) }

  function SmallDigit(v: nat): char
    requires v < 16
  {
    SMALL_DIGITS[v]
  }

  lemma HexAppend(v: nat, d: nat)
    requires d < 16
    ensures SmallHex(v * 16 + d) == (if v == 0 then "" else SmallHex(v)) + [SmallDigit(d)]
  {
    var n := v * 16 + d;
    assert n / 16 == v && n % 16 == d;
    if v == 0 { assert "" + [SMALL_DIGITS[d]] == [SMALL_DIGITS[d]]; }
  }

  lemma ZeroDigit()
    ensures SmallDigit(0) == '0' && SmallHex(0) == "0"
  {}

  lemma NoLetters()
    ensures LowerCase("") == ""
  {}

  lemma DecimalDigit(v: nat)
    requires v < 10
    ensures SmallDigit(v) == ('0' as int + v) as char
  {}

  lemma LetterDigit(v: nat)
    requires 10 <= v < 16
    ensures SmallDigit(v) == ('a' as int + v - 10) as char
  {}

  lemma SmallHexDigit(c: char)
    requires IsHex(c)
    ensures Lower(c) == SmallDigit(HexDigitValue(c))
  {
    HexDigitOf(HexDigitValue(c));
    if IsDigit(c) { DecimalDigit(HexDigitValue(c)); } else { LetterDigit(HexDigitValue(c)); }
  }

  lemma Assoc<T>(a: seq<T>, b: seq<T>, c: seq<T>)
    ensures (a + b) + c == a + (b + c)
  {}

  /** One more digit behind zeros and a number. */
  lemma ExtendHex(zeros: string, v: nat, d: nat) returns (more: string)
    requires AllZeros(zeros) && d < 16
    ensures AllZeros(more)
    ensures zeros + SmallHex(v) + [SmallDigit(d)] == more + SmallHex(v * 16 + d)
  {
    HexAppend(v, d);
    ZeroDigit();
    hide SmallHex, SmallDigit;
    more := if v == 0 then zeros + ['0'] else zeros;
    if v == 0 {
      assert "" + [SmallDigit(d)] == [SmallDigit(d)] && ['0'] == "0";
    } else {
      Assoc(zeros, SmallHex(v), [SmallDigit(d)]);
    }
  }

  lemma OneHexDigit(d: nat) returns (zeros: string)
    requires d < 16
    ensures AllZeros(zeros) && "" + [SmallDigit(d)] == zeros + SmallHex(0 * 16 + d)
  {
    HexAppend(0, d);
    zeros := "";
  }

  /** Every run of hexadecimal digits is its number in small or capital letters, after some zeros. */
  lemma {:induction false} HexIsValue(s: string) returns (zeros: string)
    requires s != "" && AllHex(s)
    ensures AllZeros(zeros) && LowerCase(s) == zeros + SmallHex(HexValue(s))
  {
    var p, c := s[..|s| - 1], s[|s| - 1];
    assert s == p + [c] && AllHex(p) && IsHex(c);
    NoHexDigits();
    NoLetters();
    LowerCaseAppend(p, c);
    SmallHexDigit(c);
    HexValueAppend(p, c);
    hide Lower, LowerCase, HexDigitValue, IsHex, HexValue, SmallHex, SmallDigit, AllHex, AllZeros;
    if p == "" {
      zeros := OneHexDigit(HexDigitValue(c));
    } else {
      zeros := HexIsValue(p);
      zeros := ExtendHex(zeros, HexValue(p), HexDigitValue(c));
    }
  }

  lemma DecimalValueAppend(s: string, c: char)
    requires AllDigits(s) && IsDigit(c)
    ensures AllDigits(s + [c]) && DecimalValue(s + [c]) == DecimalValue(s) * 10 + DigitValue(c)
  {
    assert (s + [c])[..|s + [c]| - 1] == s;
  }

  /** A list of strings laid end to end: the bytes of a list of reads, or of a list of messages. */
  function Flatten(ss: seq<string>): string {
    if ss == [] then "" else ss[0] + Flatten(ss[1..])
  }

  lemma FlattenFirst(s: string, ss: seq<string>)
    ensures Flatten([s] + ss) == s + Flatten(ss)
  {
    assert ([s] + ss)[1..] == ss;
  }

  lemma {:induction false} FlattenConcat(a: seq<string>, b: seq<string>)
    ensures Flatten(a + b) == Flatten(a) + Flatten(b)
  {
    if a == [] {
      assert a + b == b;
    } else {
      var more := a[1..];
      FlattenFirst(a[0], more + b);
      hide Flatten;
      assert a + b == [a[0]] + (more + b) && a == [a[0]] + more;
      FlattenFirst(a[0], more);
      FlattenConcat(more, b);
      Assoc(a[0], Flatten(more), Flatten(b));
    }
  }

  /** The first n reads as one text. */
  function FirstReads(pieces: seq<string>, n: nat): string
    requires n <= |pieces|
  {
    Flatten(pieces[..n])
  }

  lemma FirstReadsShift(pieces: seq<string>, n: nat)
    requires 0 < n <= |pieces|
    ensures FirstReads(pieces, n) == pieces[0] + FirstReads(pieces[1..], n - 1)
  {
    assert pieces[..n][1..] == pieces[1..][..n - 1];
  }

  lemma OneRead(pieces: seq<string>)
    requires pieces != []
    ensures FirstReads(pieces, 1) == pieces[0]
  {
    assert pieces[..1][1..] == [] && Flatten(pieces[..1][1..]) == "";
    assert pieces[0] + "" == pieces[0];
  }

  /** Two ways of cutting the same bytes in two. */
  lemma CutTwice(a: string, b: string, c: string, d: string)
    requires a + b == c + d && |c| <= |a|
    ensures c <= a && a == c + a[|c|..] && d == a[|c|..] + b
  {
    assert c == (c + d)[..|c|] == (a + b)[..|c|] == a[..|c|];
    assert d == (c + d)[|c|..] == (a + b)[|c|..] == a[|c|..] + b;
  }

  // ---- `std::string::find` ----

  predicate OccursAt(s: string, t: string, i: nat) { i + |t| <= |s| && s[i..i + |t|] == t }

  predicate Contains(s: string, t: string) { exists i :: 0 <= i <= |s| && OccursAt(s, t, i) }

  /** t stands somewhere in s. */
  ghost predicate IsPart(t: string, s: string) { exists before, after :: s == before + t + after }

  lemma ContainsIsPart(s: string, t: string)
    ensures Contains(s, t) <==> IsPart(t, s)
  {
    if Contains(s, t) {
      var i: nat :| i <= |s| && OccursAt(s, t, i);
      assert s == s[..i] + t + s[i + |t|..];
    }
    if IsPart(t, s) {
      var before, after :| s == before + t + after;
      assert OccursAt(s, t, |before|);
    }
  }

  lemma PartOfPart(t: string, u: string, s: string)
    requires IsPart(t, u) && IsPart(u, s)
    ensures IsPart(t, s)
  {
    var b1, a1 :| u == b1 + t + a1;
    var b2, a2 :| s == b2 + u + a2;
    assert s == (b2 + b1) + t + (a1 + a2);
  }

  method Occurs(s: string, t: string) returns (b: bool)
    ensures b <==> Contains(s, t)
  {
    var i := 0;
    while i <= |s|
      invariant 0 <= i <= |s| + 1
      invariant forall j :: 0 <= j < i ==> !OccursAt(s, t, j)
    {
      if OccursAt(s, t, i) {
        return true;
      }
      i := i + 1;
    }
    return false;
  }
}
