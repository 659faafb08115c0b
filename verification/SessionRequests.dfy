/** Everything a session can do, said with the language of requests alone. */
module SessionRequests {
  import opened Text
  import opened Headers
  import opened Requests
  import opened RequestParsing
  import opened RequestSplitting
  import opened RequestGrammar
  import opened Sessions

  ghost predicate IsRequest(s: string) { exists p :: Spells(s, p) }

  /** After n reads, and no sooner, the bytes are a request. */
  ghost predicate FirstRequestAt(pieces: seq<string>, n: nat) {
    && 0 < n <= |pieces| && IsRequest(FirstReads(pieces, n))
    && forall k: nat :: k < n ==> !IsRequest(FirstReads(pieces, k))
  }

  /** What a new connection may do with these reads. The first reads that are a request are answered with it; then the
      connection is closed, or goes on with the reads that are left, as the request asks. As long as no first reads
      are a request, the connection waits or has been closed as bad. */
  ghost predicate Follows(pieces: seq<string>, log: seq<Event>, open: bool, unset: Method)
    decreases |pieces|
  {
    if exists n :: FirstRequestAt(pieces, n) then
      exists n: nat, p ::
        && FirstRequestAt(pieces, n) && Spells(FirstReads(pieces, n), p)
        && log != [] && log[0] == Dispatched(Built(Described(p), unset))
        && if Described(p).keepAlive then Follows(pieces[n..], log[1..], open, unset) else log[1..] == [] && !open
    else (log == [] && open) || (log == [BadRequest] && !open)
  }

  lemma RunOn(m: Machine, a: string, b: string)
    requires Run(m, a).result.Indeterminate?
    ensures Run(m, a + b).result == Run(Run(m, a).m, b).result && Run(m, a + b).m == Run(Run(m, a).m, b).m
  {
    SplitAnywhere(m, a, b);
    hide Step;
  }

  lemma NoReads(m: Machine, pieces: seq<string>)
    ensures FirstReads(pieces, 0) == "" && Run(m, "") == Outcome(m, Indeterminate, 0)
  {}

  /** The reads before the first answer only move the parser. */
  lemma {:induction false} ServeAnswer(s: SessionState, pieces: seq<string>, n: nat, unset: Method)
    requires SafeState(s) && s.open && n <= |pieces|
    requires forall k: nat :: k < n ==> Run(s.m, FirstReads(pieces, k)).result.Indeterminate?
    ensures var o := Run(s.m, FirstReads(pieces, n));
            Serve(s, pieces, unset) == Serve(Answered(s.log, o.m, o.result, unset), pieces[n..], unset)
    decreases n
  {
    NoReads(s.m, pieces);
    hide Run, Step, Built;
    if n == 0 {
      assert pieces[0..] == pieces;
    } else {
      var o := Run(s.m, pieces[0]);
      OneRead(pieces);
      var s1 := OnRead(s, pieces[0], unset);
      if n > 1 {
        assert Run(s.m, FirstReads(pieces, 1)).result.Indeterminate?;
        forall k: nat | k < n ensures Run(o.m, FirstReads(pieces[1..], k)).result
                                   == Run(s.m, FirstReads(pieces, k + 1)).result {
          FirstReadsShift(pieces, k + 1);
          RunOn(s.m, pieces[0], FirstReads(pieces[1..], k));
        }
        FirstReadsShift(pieces, n);
        RunOn(s.m, pieces[0], FirstReads(pieces[1..], n - 1));
        ServeAnswer(s1, pieces[1..], n - 1, unset);
      }
      assert pieces[1..][n - 1..] == pieces[n..];
    }
  }

  lemma BadStays(m: Machine, pieces: seq<string>, k: nat, n: nat)
    requires k <= n <= |pieces| && Run(m, FirstReads(pieces, k)).result.Bad?
    ensures Run(m, FirstReads(pieces, n)).result.Bad?
  {
    assert pieces[..n] == pieces[..k] + pieces[k..n];
    FlattenConcat(pieces[..k], pieces[k..n]);
    SplitAnywhere(m, FirstReads(pieces, k), Flatten(pieces[k..n]));
    hide Run, Step;
  }

  lemma NotYet(pieces: seq<string>, n: nat)
    requires FirstRequestAt(pieces, n)
    ensures forall k: nat :: k < n ==> Run(START, FirstReads(pieces, k)).result.Indeterminate?
  {
    hide Run, Step, Spells, FirstReads;
    AcceptsExactlyMessages(FirstReads(pieces, n));
    forall k: nat | k < n ensures Run(START, FirstReads(pieces, k)).result.Indeterminate? {
      AcceptsExactlyMessages(FirstReads(pieces, k));
      if Run(START, FirstReads(pieces, k)).result.Bad? { BadStays(START, pieces, k, n); }
    }
  }

  /** The session after the first request. */
  lemma AfterFirst(s: SessionState, pieces: seq<string>, n: nat, p: Message, unset: Method)
    requires s.m == START && s.open && FirstRequestAt(pieces, n) && Spells(FirstReads(pieces, n), p)
    ensures var log := s.log + [Dispatched(Built(Described(p), unset))];
            if Described(p).keepAlive then
              Serve(s, pieces, unset) == Serve(SessionState(START, true, log), pieces[n..], unset)
            else Serve(s, pieces, unset).log == log && !Serve(s, pieces, unset).open
  {
    hide Run, Step, Built, IsMessage, TextOf, Described, FirstReads;
    NotYet(pieces, n);
    ServeAnswer(s, pieces, n, unset);
    MessageIsAccepted(p);
    var o := Run(START, FirstReads(pieces, n));
    if !Described(p).keepAlive { ClosedStays(Answered(s.log, o.m, o.result, unset), pieces[n..], unset); }
  }

  lemma {:induction false} NoRequest(pieces: seq<string>, k: nat)
    requires k <= |pieces| && !exists n :: FirstRequestAt(pieces, n)
    ensures !Run(START, FirstReads(pieces, k)).result.Good?
    decreases k
  {
    hide Run, Step, Spells;
    forall j: nat | j < k ensures !IsRequest(FirstReads(pieces, j)) {
      NoRequest(pieces, j);
      AcceptsExactlyMessages(FirstReads(pieces, j));
    }
    AcceptsExactlyMessages(FirstReads(pieces, k));
    NoReads(START, pieces);
    assert !FirstRequestAt(pieces, k);
  }

  /** No first reads are a request: there is no answer, or a bad one. */
  lemma WithoutRequest(s: SessionState, pieces: seq<string>, unset: Method)
    requires s.m == START && s.open && !exists n :: FirstRequestAt(pieces, n)
    ensures var s1 := Serve(s, pieces, unset);
            (s1.log == s.log && s1.open) || (s1.log == s.log + [BadRequest] && !s1.open)
  {
    hide Run, Step, Built, FirstReads, IsRequest;
    forall k: nat | k <= |pieces| ensures !Run(START, FirstReads(pieces, k)).result.Good? { NoRequest(pieces, k); }
    var n := 0;
    NoReads(START, pieces);
    while n < |pieces| && Run(START, FirstReads(pieces, n)).result.Indeterminate?
      invariant n <= |pieces|
      invariant forall k: nat :: k < n ==> Run(START, FirstReads(pieces, k)).result.Indeterminate?
    {
      n := n + 1;
    }
    ServeAnswer(s, pieces, n, unset);
    var o := Run(START, FirstReads(pieces, n));
    if o.result.Bad? {
      ClosedStays(Answered(s.log, o.m, o.result, unset), pieces[n..], unset);
    } else {
      assert pieces[n..] == [];
    }
  }

  /** All that a connection does, for all reads: from a state between two requests it adds to its log what the language
      of requests says, and is open when that says so. */
  lemma {:induction false} SessionFollows(s: SessionState, pieces: seq<string>, unset: Method)
    requires s.m == START && s.open
    ensures var s1 := Serve(s, pieces, unset);
            s.log <= s1.log && Follows(pieces, s1.log[|s.log|..], s1.open, unset)
    decreases |pieces|
  {
    hide Serve, IsMessage, TextOf, Built, Described, FirstReads;
    var s1 := Serve(s, pieces, unset);
    if n: nat :| FirstRequestAt(pieces, n) {
      var p :| Spells(FirstReads(pieces, n), p);
      AfterFirst(s, pieces, n, p, unset);
      var e := Dispatched(Built(Described(p), unset));
      if Described(p).keepAlive {
        SessionFollows(SessionState(START, true, s.log + [e]), pieces[n..], unset);
        assert s1.log[|s.log|..] == [e] + s1.log[|s.log| + 1..];
      } else {
        assert s1.log[|s.log|..] == [e];
      }
    } else {
      WithoutRequest(s, pieces, unset);
      assert s1.log[|s.log|..] == [] || s1.log[|s.log|..] == [BadRequest];
    }
  }
}
