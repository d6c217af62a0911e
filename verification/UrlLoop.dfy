/** Stretches of the driver loop of the URL parser, and what they say about its outcome. */
module UrlLoop {
  import opened UrlParser
  import Runs

  /** A parser inside the driver loop, or one that has left it at the end of the input. */
  datatype Spot = Busy(p: Parser) | Done(p: Parser)

  predicate IsTurn(input: Text, p: Parser, p': Parser)
  {
    Sane(p) && InLoop(input, p) && !p.mode.Fail? && p' == Turn(input, p)
  }

  /** The relation of the loop on `input`. */
  function Loop(input: Text): (Spot, Spot) -> bool
  {
    (a: Spot, b: Spot) => a.Busy? && IsTurn(input, a.p, b.p) && (b.Done? <==> IsEof(input, b.p.pos))
  }

  /** The loop gets from `p` to `p'`. */
  ghost predicate Leads(input: Text, p: Parser, p': Parser) { Runs.Leads(Loop(input), Busy(p), Busy(p')) }

  /** The loop gets from `p` to its end, where it leaves `r`. */
  ghost predicate Ends(input: Text, p: Parser, r: Parser) { Runs.Leads(Loop(input), Busy(p), Done(r)) }

  lemma OneTurn(input: Text, p: Parser, p': Parser)
    requires IsTurn(input, p, p') && !IsEof(input, p'.pos)
    ensures Leads(input, p, p')
  {
    assert Loop(input)(Busy(p), Busy(p'));
    Runs.OneStep(Loop(input), Busy(p), Busy(p'));
  }

  lemma LastTurn(input: Text, p: Parser, r: Parser)
    requires IsTurn(input, p, r) && IsEof(input, r.pos)
    ensures Ends(input, p, r)
  {
    assert Loop(input)(Busy(p), Done(r));
    Runs.OneStep(Loop(input), Busy(p), Done(r));
  }

  lemma NoTurn(input: Text, p: Parser)
    ensures Leads(input, p, p)
  {
    Runs.NoStep(Loop(input), Busy(p));
  }

  lemma Then(input: Text, p: Parser, p1: Parser, p2: Parser)
    requires Leads(input, p, p1) && Leads(input, p1, p2)
    ensures Leads(input, p, p2)
  {
    Runs.Then(Loop(input), Busy(p), Busy(p1), Busy(p2));
  }

  lemma ThenEnds(input: Text, p: Parser, p1: Parser, r: Parser)
    requires Leads(input, p, p1) && Ends(input, p1, r)
    ensures Ends(input, p, r)
  {
    Runs.Then(Loop(input), Busy(p), Busy(p1), Done(r));
  }

  lemma {:induction false} StretchOutcome(input: Text, run: seq<Spot>)
    requires Runs.IsStretch(Loop(input), run) && |run| > 1 && run[|run| - 1].Done?
    ensures var p := run[0].p;
            && Sane(p) && InLoop(input, p)
            && Run(input, p).parser == run[|run| - 1].p && !Run(input, p).fatal
    decreases |run|
  {
    assert Loop(input)(run[0], run[1]);
    TurnUsesFuel(input, run[0].p);
    if |run| > 2 {
      var rest := run[1..];
      forall i, j | 0 <= i < j == i + 1 < |rest|
        ensures Loop(input)(rest[i], rest[j])
      {
        assert Loop(input)(run[i + 1], run[j + 1]);
      }
      assert Loop(input)(run[1], run[2]);
      StretchOutcome(input, rest);
    }
  }

  /** Where the loop ends is what the parser returns, and it is not fatal. */
  lemma EndsOutcome(input: Text, p: Parser, r: Parser)
    requires Ends(input, p, r)
    ensures Sane(p) && InLoop(input, p) && Run(input, p).parser == r && !Run(input, p).fatal
  {
    var run :| Runs.IsStretch(Loop(input), run) && run[0] == Busy(p) && run[|run| - 1] == Done(r);
    StretchOutcome(input, run);
  }

  /** A stretch that gets to `Fail` inside the loop ends in a fatal error. */
  lemma {:induction false} StretchFails(input: Text, run: seq<Spot>)
    requires Runs.IsStretch(Loop(input), run)
    requires var last := run[|run| - 1]; last.Busy? && last.p.mode.Fail? && Sane(last.p) && InLoop(input, last.p)
    ensures Sane(run[0].p) && InLoop(input, run[0].p) && Run(input, run[0].p).fatal
    decreases |run|
  {
    if |run| > 1 {
      assert Loop(input)(run[0], run[1]);
      TurnUsesFuel(input, run[0].p);
      var rest := run[1..];
      forall i, j | 0 <= i < j == i + 1 < |rest|
        ensures Loop(input)(rest[i], rest[j])
      {
        assert Loop(input)(run[i + 1], run[j + 1]);
      }
      if |run| > 2 {
        assert Loop(input)(run[1], run[2]);
      }
      StretchFails(input, rest);
    }
  }

  lemma LeadsToFailure(input: Text, p: Parser, q: Parser)
    requires Leads(input, p, q) && q.mode.Fail? && Sane(q) && InLoop(input, q)
    ensures Sane(p) && InLoop(input, p) && Run(input, p).fatal
  {
    var run :| Runs.IsStretch(Loop(input), run) && run[0] == Busy(p) && run[|run| - 1] == Busy(q);
    StretchFails(input, run);
  }
}
