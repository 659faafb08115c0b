/** The response parser over reads cut anywhere. */
module ResponseSplitting {
  import opened Text
  import opened Headers
  import opened ResponseParsing

  /** A first read a and the rest b. Bad and a final chunk end the run where they are; any other
      answer, even good, is forgotten when a byte follows. */
  lemma {:induction false} SplitAnywhere(m: Machine, a: string, b: string)
    ensures var first := Run(m, a);
            if Stops(first.m, first.result) then Run(m, a + b) == first
            else first.taken == |a|
                 && Run(m, a + b) == if b == "" then first else Shift(Run(first.m, b), |a|)
    decreases |a|
  {
    hide Step;
    if a == "" {
      assert a + b == b;
    } else {
      assert (a + b)[1..] == a[1..] + b;
      assert [a[0]][1..] == "";
      if |a| == 1 {
        assert a[1..] + b == b;
        if b == "" { assert a + b == a; }
      } else {
        SplitAnywhere(Step(m, a[0]).0, a[1..], b);
      }
    }
  }

  // ---- Runs in which every byte asks for more ----

  ghost predicate Goes(m: Machine, s: string, m1: Machine)
    decreases |s|
  {
    if s == "" then m == m1 else Step(m, s[0]).1.Indeterminate? && Goes(Step(m, s[0]).0, s[1..], m1)
  }

  lemma GoesByte(m: Machine, c: char, s: string, m1: Machine)
    requires Step(m, c).1.Indeterminate? && Goes(Step(m, c).0, s, m1)
    ensures Goes(m, [c] + s, m1)
  {
    hide Step;
    assert ([c] + s)[1..] == s;
  }

  lemma GoesNowhere(m: Machine)
    ensures Goes(m, "", m)
  {}

  lemma GoesOne(m: Machine, c: char, m1: Machine)
    requires Step(m, c) == (m1, Indeterminate)
    ensures Goes(m, [c], m1)
  {
    hide Step;
    assert [c][1..] == "";
  }

  lemma {:induction false} GoesTwice(m: Machine, a: string, m1: Machine, b: string, m2: Machine)
    requires Goes(m, a, m1) && Goes(m1, b, m2)
    ensures Goes(m, a + b, m2)
    decreases |a|
  {
    hide Step;
    if a == "" {
      assert a + b == b;
    } else {
      GoesTwice(Step(m, a[0]).0, a[1..], m1, b, m2);
      assert (a + b)[1..] == a[1..] + b;
    }
  }

  lemma GoesCrlf(m: Machine, m1: Machine, m2: Machine)
    requires Step(m, '\r') == (m1, Indeterminate) && Step(m1, '\n') == (m2, Indeterminate)
    ensures Goes(m, CRLF, m2)
  {
    hide Goes, Step;
    GoesOne(m, '\r', m1);
    GoesOne(m1, '\n', m2);
    GoesTwice(m, ['\r'], m1, ['\n'], m2);
    assert ['\r'] + ['\n'] == CRLF;
  }

  /** A run that only asks for more, cut in two. */
  lemma {:induction false} GoesCut(m: Machine, a: string, b: string, m1: Machine) returns (mid: Machine)
    requires Goes(m, a + b, m1)
    ensures Goes(m, a, mid) && Goes(mid, b, m1)
    decreases |a|
  {
    hide Step;
    if a == "" {
      mid := m;
      assert a + b == b;
    } else {
      assert (a + b)[1..] == a[1..] + b;
      mid := GoesCut(Step(m, a[0]).0, a[1..], b, m1);
    }
  }

  /** Asking for more all along, then whatever the rest does. */
  lemma {:induction false} GoesThen(m: Machine, a: string, m1: Machine, b: string)
    requires Goes(m, a, m1)
    ensures Run(m, a + b) == Shift(Run(m1, b), |a|)
    decreases |a|
  {
    hide Step;
    if a == "" {
      assert a + b == b;
    } else {
      assert (a + b)[1..] == a[1..] + b;
      GoesThen(Step(m, a[0]).0, a[1..], m1, b);
      if |a + b| == 1 { assert a[1..] == "" && b == ""; }
    }
  }

  /** The read loop passes over bytes that only ask for more, however they are cut into reads. */
  lemma {:induction false} ReadThrough(m: Machine, a: string, m1: Machine, b: string, pieces: seq<string>)
    returns (later: seq<string>)
    requires Goes(m, a, m1) && Flatten(pieces) == a + b
    ensures Flatten(later) == b && ReadAll(m, pieces) == ReadAll(m1, later)
    decreases |pieces|
  {
    hide Step;
    if a == "" {
      assert a + b == b;
      later := pieces;
    } else {
      var d := pieces[0];
      assert d + Flatten(pieces[1..]) == a + b;
      if |d| <= |a| {
        CutTwice(a, b, d, Flatten(pieces[1..]));
        var mid := GoesCut(m, d, a[|d|..], m1);
        GoesThen(m, d, mid, "");
        assert d + "" == d;
        later := ReadThrough(mid, a[|d|..], m1, b, pieces[1..]);
      } else {
        CutTwice(d, Flatten(pieces[1..]), a, b);
        var d2 := d[|a|..];
        GoesThen(m, a, m1, d2);
        later := [d2] + pieces[1..];
        assert later[1..] == pieces[1..];
      }
    }
  }
}
