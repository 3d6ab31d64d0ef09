/** What a stop in the middle of ProbCut leaves behind.  The move loops drop what a stopped
    search brings back; ProbCut stores it.  Exactly when that can be the mark of a node in
    check that has searched no evasion, and a position where it is; and how the score of a
    draw becomes a lower bound.  Beside it, the bounds a search that is not stopped stores
    beyond mate. */
module StoppedCapture {
  import opened Wrappers
  import opened Shogi
  import opened Accumulators
  import opened TreeWalk
  import opened SearchCore
  import opened Search

  /** The same world, but stopping at check `k` and at no other. */
  function StoppingAt(world: nat -> Visit, k: nat): nat -> Visit {
    (i: nat) => world(i).(stops := i == k)
  }

  /** For any place in any game, and whatever the table and the repetitions are: some stop
      brings the mark back for this capture if and only if `MarkMay` holds, which can be
      told before the capture is tried.  (That no other schedule does better is what
      `TryCapture` promises for all of them.) */
  method MarkMayReturn(w: Worker, n: Node, raised: int, depth: int, m: Move) returns (other: Worker, v: int)
    requires w.Valid(n.ply) && n.ply < MAX_PLY && -INF < raised <= INF && m in w.rules.legal(w.pos)
    ensures fresh(other) && other.rules == w.rules && other.world == StoppingAt(w.world, w.visits + 1)
    ensures w.MarkMay(w.pos, n.ply, raised, depth, m, w.world(w.visits)) ==> v == INF
    ensures v == INF && !other.met ==> w.MarkMay(w.pos, n.ply, raised, depth, m, w.world(w.visits))
  {
    hide Ready, Evades, FollowAll;
    other := new Worker(w.rules, w.reductions, w.contempt, StoppingAt(w.world, w.visits + 1), w.evaluate, w.stack[..],
                        w.pos, w.accDepth, w.root, w.line, w.script);
    other.visits := w.visits;
    assert other.At() == w.At() && other.Valid(n.ply);
    ghost var seen := other.world(other.visits);
    assert seen == w.world(w.visits).(stops := false) && other.SecondStops(other.visits);
    SameButStop(w.rules, DoMove(w.pos, m), n.ply + 1, 1 - raised, w.world(w.visits));
    v := other.TryCapture(n, raised, depth, m);
  }

  lemma SameButStop(rules: Rules, p: Position, ply: nat, beta: int, seen: Visit)
    ensures Evades(rules, p, ply, beta, false, seen.(stops := false)) <==> Evades(rules, p, ply, beta, false, seen)
  {}

  // ----- a position where it happens -----

  function PutAt(b: Board, s: Square, kind: Kind, color: Color): Board {
    b[s := Some(Piece(kind, color, false))]
  }

  function EmptyBoard(): Board {
    seq(SQUARES, i => None)
  }

  const NO_HAND: Hand := [0, 0, 0, 0, 0, 0, 0]

  const WHITE_KING: Square := 36
  const PAWN: Square := 37
  const ROOK: Square := 40
  const BLACK_KING: Square := 80

  /** Black: king on 9i, rook on 5e; White: king on 5a, pawn on 5b. Black to move. */
  function RookAndPawn(): Position {
    var kings := PutAt(PutAt(EmptyBoard(), WHITE_KING, King, White), BLACK_KING, King, Black);
    Position(PutAt(PutAt(kings, PAWN, Pawn, White), ROOK, Rook, Black), NO_HAND, NO_HAND, Black)
  }

  /** The rook takes the pawn and gives check; the king can take it back. */
  function RookTakes(): Move {
    Board(ROOK, PAWN, Piece(Rook, Black, false), false)
  }

  function KingTakes(): Move {
    Board(WHITE_KING, PAWN, Piece(King, White, false), false)
  }

  lemma {:induction false} EmptyCount(n: nat, k: Kind)
    ensures BoardCount(seq(n, i => None), k) == 0
  {
    if n > 0 {
      var b: seq<Cell> := seq(n, i => None);
      assert b[..n - 1] == seq(n - 1, i => None);
      EmptyCount(n - 1, k);
    }
  }

  lemma PutCount(b: Board, s: Square, kind: Kind, color: Color, k: Kind)
    requires b[s].None?
    ensures BoardCount(PutAt(b, s, kind, color), k) == BoardCount(b, k) + One(kind == k)
  {
    BoardCountUpdate(b, s, Some(Piece(kind, color, false)), k);
  }

  lemma RookAndPawnEvaluable()
    ensures Evaluable(RookAndPawn())
  {
    var p := RookAndPawn();
    forall k: Kind
      ensures Total(p, k) <= k.Population()
    {
      hide BoardCount;
      EmptyCount(SQUARES, k);
      var one := PutAt(EmptyBoard(), WHITE_KING, King, White);
      var two := PutAt(one, BLACK_KING, King, Black);
      var three := PutAt(two, PAWN, Pawn, White);
      PutCount(EmptyBoard(), WHITE_KING, King, White, k);
      PutCount(one, BLACK_KING, King, Black, k);
      PutCount(two, PAWN, Pawn, White, k);
      PutCount(three, ROOK, Rook, Black, k);
    }
    hide FindKing;
    assert IsKingOf(p.board[WHITE_KING], White) && IsKingOf(p.board[BLACK_KING], Black);
  }

  /** Rules under which the rook may take, giving a check that can be evaded. */
  ghost predicate Plays(rules: Rules) {
    var checked := DoMove(RookAndPawn(), RookTakes());
    && Sensible(rules) && RookTakes() in rules.legal(RookAndPawn())
    && rules.inCheck(checked) && rules.legal(checked) != {}
  }

  function TwoMoves(): Rules {
    var start := RookAndPawn();
    var checked := DoMove(start, RookTakes());
    Rules(p => if p == start then {RookTakes()} else if p == checked then {KingTakes()} else {},
          p => p == checked, p => false)
  }

  lemma BothSteppable()
    ensures var checked := DoMove(RookAndPawn(), RookTakes());
      && checked != RookAndPawn()
      && Steppable(RookAndPawn(), RookTakes()) && Steppable(checked, KingTakes())
  {
    assert RookAndPawn().stm == Black;
    assert DoMove(RookAndPawn(), RookTakes()).board[WHITE_KING] == RookAndPawn().board[WHITE_KING];
  }

  /** There are such rules. */
  lemma TwoMovesPlay()
    ensures Plays(TwoMoves())
  {
    hide RookAndPawn, RookTakes, KingTakes, DoMove, Steppable;
    BothSteppable();
    assert KingTakes() in TwoMoves().legal(DoMove(RookAndPawn(), RookTakes()));
  }

  const MISS := Entry(false, 0, 0, NoBound, None, false)

  /** Nothing but the stop at check `k` comes from outside. */
  function QuietWorld(k: nat): nat -> Visit {
    (i: nat) => Visit(i == k, NoRepetition, false, MISS, {})
  }

  /** A worker about to try captures in that position, at the root. */
  method AtRookAndPawn(rules: Rules, k: nat) returns (w: Worker)
    requires Plays(rules)
    ensures fresh(w) && fresh(w.stack) && w.Valid(0) && w.pos == RookAndPawn() && w.rules == rules
    ensures w.world == QuietWorld(k) && w.visits == 0 && !w.stopped && !w.wrote && !w.late && w.contempt == 1
  {
    RookAndPawnEvaluable();
    hide Evaluable, Sensible;
    var p := RookAndPawn();
    w := new Worker(rules, seq(REDUCTIONS, i => 0), 1, QuietWorld(k), (p, i) => 0,
                    seq(STACK_LEN, i => StackCell([], None, 0, false, 0, 0, 0, 0)), p, 0, p, [Root(p)], []);
  }

  function CutNode(): Node {
    Node(0, true, false, false, false, None, MISS, None, NONE, 0)
  }

  /** At depth 3, under beta 0: a stop at the check's first evasion, and a bound above every
      value is in the table. */
  method MarkStored(rules: Rules) returns (w: Worker, v: int)
    requires Plays(rules)
    ensures fresh(w) && v == INF && w.wrote && w.late
  {
    w := AtRookAndPawn(rules, 1);
    hide Plays, Worker.Valid, Worker.At, Worker.Kept, RookAndPawn, RookTakes, DoMove, Evades, Returned;
    CheckIsOpen(rules);
    v := w.CaptureAndStore(CutNode(), 224, 3 - 4, RookTakes());
  }

  lemma CheckIsOpen(rules: Rules)
    requires Plays(rules)
    ensures RookTakes() in rules.legal(RookAndPawn())
    ensures Evades(rules, DoMove(RookAndPawn(), RookTakes()), 1, -223, false, QuietWorld(1)(0))
  {}

  /** At any depth from 3 on, under beta -300: a stop at the capture's own first check, and
      the score of a draw is stored as a lower bound of a position nobody has searched. */
  method DrawStored(rules: Rules, depth: int) returns (w: Worker, v: int)
    requires Plays(rules) && depth >= 3
    ensures fresh(w) && -2 <= v <= 2 && w.late
  {
    w := AtRookAndPawn(rules, 0);
    hide Plays, Worker.Valid, Worker.At, Worker.Kept, RookAndPawn, RookTakes, DoMove, Evades, Returned;
    CheckIsOpen(rules);
    v := w.CaptureAndStore(CutNode(), -300 + 224, depth - 4, RookTakes());
  }

  // ----- without a stop -----

  /** A futile move of a quiescence node under a window near mate lifts the best value above
      the mate at its ply exactly when both the window and the futility base are above it. */
  lemma FutileBeyondMate(ply: nat, best: int, alpha: int, futilityBase: int)
    requires ply <= MAX_PLY && !IsDecisive(best)
    ensures PassedOver(Losing, best, alpha, futilityBase) > MateIn(ply) <==>
            alpha > MateIn(ply) && futilityBase > MateIn(ply)
  {}

  /** Such a node: the window that mate distance leaves at ply 18, six quiescence plies
      further down, with an evaluation of 31660.  It fails low with a value beyond the mate
      at its ply, and stores an upper bound beyond mate on the spot. */
  lemma UpperBoundBeyondMate()
    ensures var ply, alpha, beta, eval := 24, 31980, 31981, 31660;
      && MatedIn(18) <= alpha && beta == MateIn(18 + 1) && Window(alpha, beta, false)
      && !IsDecisive(eval) && eval < beta && Max(alpha, eval) == alpha
      && var v := Softened(PassedOver(Losing, eval, alpha, eval + FUTILITY_MARGIN), beta);
      && v == alpha && MateIn(ply) < v < beta
      && ValueToTt(v, ply) > MATE && Storable(Upper, ValueToTt(v, ply))
  {}

  /** Two points lower the number stored is the mark of no value. */
  lemma UpperBoundIsNone()
    ensures var ply, alpha, beta, eval := 24, 31978, 31979, 31660;
      && MatedIn(18) <= alpha && beta <= MateIn(18 + 1) && Window(alpha, beta, false)
      && !IsDecisive(eval) && eval < beta && Max(alpha, eval) == alpha
      && var v := Softened(PassedOver(Losing, eval, alpha, eval + FUTILITY_MARGIN), beta);
      && v == alpha && MateIn(ply) < v < beta && ValueToTt(v, ply) == NONE
  {}
}
