/** Why a score and its line agree only as long as no move of equal value takes over: such a
    move has been searched just far enough to see that it is no better, and brings whatever
    line there is. */
module TiedLine {
  import opened Wrappers
  import opened Shogi
  import opened Accumulators
  import opened TreeWalk
  import opened SearchCore
  import opened Search
  import opened StoppedCapture

  /** Every evaluation is 0, and at ply 0 a move of equal value may take over at once. */
  function TyingWorld(): nat -> Visit {
    (k: nat) => Visit(false, NoRepetition, false, MISS, if k == 0 then {0} else {})
  }

  function PvNode(): Node {
    Node(0, false, true, false, false, None, MISS, None, NONE, 0)
  }

  /** The best value so far is 5; a second move of value 5 comes in with no line of its own. */
  function AtFive(): Loop {
    Loop(5, 3, 5, 2)
  }

  /** It takes over, and the value 5 is not what its line comes to, whoever looks and when. */
  method TieLosesLine(rules: Rules) returns (w: Worker, step: Step)
    requires Plays(rules)
    ensures fresh(w) && step.Next? && step.loop.best == 5
    ensures w.pos == RookAndPawn() && |w.stack[..]| == STACK_LEN && w.stack[Worker.Si(0)].pv == [RookTakes()]
    ensures forall k: nat :: !w.StaticBehind(k, 0, RookAndPawn(), [RookTakes()], 5)
  {
    RookAndPawnEvaluable();
    hide Evaluable, Sensible, RookAndPawn, RookTakes, DoMove;
    var p := RookAndPawn();
    w := new Worker(rules, seq(REDUCTIONS, i => 0), 1, TyingWorld(), (p, i) => 0,
                    seq(STACK_LEN, i => StackCell([], None, 0, false, 0, 0, 0, 0)), p, 0, p, [Root(p)], []);
    assert 0 in w.world(0).ties;
    assert !w.NoTies(0, 0);
    step := w.Accept(PvNode(), AtFive(), 100, RookTakes(), 5, 0, 0, 0);
    forall k: nat
      ensures !w.StaticBehind(k, 0, p, [RookTakes()], 5)
    {
      assert MISS.ValueAt(1) == NONE && w.evaluate(EndOf(p, [RookTakes()]), k + 1) == 0;
      assert !w.StaticAt(k, EndOf(p, [RookTakes()]), 1, -5);
    }
  }
}
