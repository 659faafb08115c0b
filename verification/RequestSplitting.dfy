/** The request parser's answer does not depend on where the input is cut. */
module RequestSplitting {
  import opened Text
  import opened Headers
  import opened RequestParsing

  /** A first read a and the rest b: how the outcome on a decides the outcome on a + b. */
  lemma {:induction false} SplitAnywhere(m: Machine, a: string, b: string)
    ensures Run(m, a).result.Indeterminate? ==>
              Run(m, a).taken == |a| && Run(m, a + b) == Shift(Run(Run(m, a).m, b), |a|)
    ensures Run(m, a).result.Bad? ==> Run(m, a + b) == Run(m, a)
    ensures Run(m, a).result.Good? ==>
              Run(m, a).taken == |a| && Run(m, a + b) == Outcome(Run(m, a).m, if b == "" then Good else Bad, |a|)
    decreases |a|
  {
    hide Step;
    if a == "" {
      assert a + b == b;
    } else {
      SplitAnywhere(Step(m, a[0]).0, a[1..], b);
      assert (a + b)[1..] == a[1..] + b;
    }
  }

  /** Reads taken one after another while the answer is indeterminate, as the session takes them. */
  function RunPieces(m: Machine, pieces: seq<string>): Outcome<Machine>
    decreases |pieces|
  {
    if pieces == [] then Outcome(m, Indeterminate, 0) else
    var o := Run(m, pieces[0]);
    if !o.result.Indeterminate? then o
    else Shift(RunPieces(o.m, pieces[1..]), o.taken)
  }

  /** However the bytes are cut into reads, only a good answer with bytes of a later read left over
      tells the cuts from one long read; every other answer, machine and position are the same. */
  lemma {:induction false} CutsDoNotMatter(m: Machine, pieces: seq<string>)
    ensures var cut := RunPieces(m, pieces); var whole := Run(m, Flatten(pieces));
            && cut.m == whole.m && cut.taken == whole.taken
            && (cut.result == whole.result || (cut.result.Good? && whole.result.Bad? && cut.taken < |Flatten(pieces)|))
    decreases |pieces|
  {
    hide Step;
    if pieces != [] {
      SplitAnywhere(m, pieces[0], Flatten(pieces[1..]));
      var o := Run(m, pieces[0]);
      if o.result.Indeterminate? {
        CutsDoNotMatter(o.m, pieces[1..]);
      }
    }
  }
}
