/** The recursion of the search for any scores and any table: what is evaluated, what the
    table holds and which moves are pruned is left open wherever the source computes it
    from tuned constants; the windows, depths, plies, stack cells, table stores and the
    order of the calls are those of the source. */
module Search {
  import opened Wrappers
  import opened Shogi
  import opened Accumulators
  import opened TreeWalk
  import opened SearchCore
  import opened SearchRoot
  import TwinPicker

  /** What a node knows of itself before its moves are searched. */
  datatype Node = Node(
    ply: nat, cutNode: bool, pv: bool, rootNode: bool, inCheck: bool,
    excluded: Option<Move>, entry: Entry, ttMove: Option<Move>, ttValue: int, priorReduction: int)

  /** What a step of a node comes to: a value to return, or a depth to go on with. */
  datatype Outcome = Return(value: int) | GoOn(depth: int, improving: bool)

  /** The move loop between two moves. */
  datatype Loop = Loop(alpha: int, depth: int, best: int, moveCount: nat)

  datatype Step = Next(loop: Loop) | Break(loop: Loop) | Leave(value: int)

  /** With one more move. */
  function Counted(l: Loop): Loop {
    l.(moveCount := l.moveCount + 1)
  }

  /** The window stays open and the depth stays an index into the reductions. */
  predicate LoopMid(n: Node, l: Loop, beta: int, letOff: bool) {
    && Window(l.alpha, beta, n.pv) && Narrowed(n, l.alpha, beta)
    && 1 <= l.depth <= MAX_PLY + 1
    && -INF <= l.best <= WORD
    && (letOff || l.best == -INF || Answer(n.ply, beta - 1, beta, l.best))
  }

  /** Below the root no window reaches beyond mate. */
  predicate Narrowed(n: Node, alpha: int, beta: int) {
    if n.rootNode then n.ply == 0 else MatedIn(n.ply) <= alpha && beta <= MateIn(n.ply + 1)
  }

  predicate LoopRange(n: Node, l: Loop, beta: int, letOff: bool) {
    && LoopMid(n, l, beta, letOff)
    && (l.moveCount == 0 ==> l.best == -INF)
    && (n.pv || !letOff ==> l.best < INF && (l.best > -INF || l.moveCount == 0))
  }

  /** Only the table move's own singular search adds to the depth the node came with. */
  predicate LoopOk(n: Node, l: Loop, beta: int, ttSeen: bool, d: int, letOff: bool) {
    && LoopRange(n, l, beta, letOff)
    && l.depth <= d + (if ttSeen then 2 else 1) && l.depth <= MAX_PLY + (if ttSeen then 1 else 0)
  }

  /** What the search of one move of the loop comes to: in a principal-variation node the
      value is a proper one where it matters. */
  predicate Weighed(n: Node, l: Loop, beta: int, value: int, letOff: bool) {
    && Small(value) && (letOff || Answer(n.ply, l.alpha, beta, value))
    && (n.pv && (l.moveCount == 1 || value > l.alpha) ==> InRange(value))
  }

  /** The table move has been among the moves. */
  ghost predicate TtSeen(n: Node, yielded: set<Move>) {
    n.ttMove.Some? && n.ttMove.value in yielded
  }

  /** Between two moves: all that is known of the loop.  A stop ends it at the first move
      that counts. */
  ghost predicate LoopAt(n: Node, l: Loop, beta: int, yielded: set<Move>, d: int, stopped: bool, letOff: bool) {
    && LoopOk(n, l, beta, TtSeen(n, yielded), d, letOff)
    && l.moveCount <= |yielded| && (stopped ==> l.moveCount == 0)
    && (!n.rootNode && l.moveCount == 0 ==> forall k :: k in yielded ==> Some(k) == n.excluded)
  }

  /** After it: no move was counted only if there was none to count. */
  ghost predicate LoopEnded(n: Node, l: Loop, beta: int, legal: set<Move>, stopped: bool, letOff: bool) {
    && LoopRange(n, l, beta, letOff) && (stopped ==> l.moveCount == 0)
    && (!n.rootNode && n.excluded.None? && l.moveCount == 0 ==> legal == {})
  }

  /** The loop going on, at its end, or left with a value. */
  ghost predicate StepOk(
    n: Node, step: Step, beta: int, yielded: set<Move>, legal: set<Move>, d: int, stopped: bool, letOff: bool
  ) {
    match step
    case Next(l) => yielded <= legal && LoopAt(n, l, beta, yielded, d, stopped, letOff)
    case Break(l) => LoopEnded(n, l, beta, legal, stopped, letOff)
    case Leave(v) => Returned(n.ply, beta - 1, beta, v, n.pv && !stopped, letOff)
  }

  /** At the root: not in the part of the list still open. */
  predicate Absent(rms: Option<seq<RootMove>>, pvIdx: nat, m: Move) {
    rms.Some? && pvIdx <= |rms.value| && Find(rms.value[pvIdx..], m) == |rms.value| - pvIdx
  }

  /** One search of the root: the line searched, the window, the position, and the number of
      checks at its start. */
  datatype RootWindow = RootWindow(pvIdx: nat, start: int, beta: int, p: Position, from: nat)

  /** What a move of the root does to the list and to the window. */
  ghost predicate TurnedBy(
    l: Loop, beta: int, m: Move, step: Step, before: seq<RootMove>, after: seq<RootMove>, value: int, child: seq<Move>
  )
    requires !step.Leave?
  {
    && after == RootAfter(before, m, value, l.alpha, l.moveCount, child)
    && step.loop.best == Max(l.best, value)
    && if step.Break? then value >= beta else l.best <= l.alpha ==> step.loop.alpha == Max(l.alpha, value)
  }

  lemma AlphaIsBest(
    rms: seq<RootMove>, pvIdx: nat, yielded: set<Move>, start: int, alpha: int, best: int, none: bool
  )
    requires RootScores(rms, pvIdx, yielded, start, alpha, best, none)
    ensures best <= alpha
  {}

  lemma LoopStarts(
    n: Node, alpha: int, beta: int, legal: set<Move>, depth: int, d: int, stopped: bool, letOff: bool
  )
    requires Window(alpha, beta, n.pv) && Narrowed(n, alpha, beta) && 1 <= depth <= MAX_PLY && depth <= d + 1
    ensures StepOk(n, Next(Loop(alpha, depth, -INF, 0)), beta, {}, legal, d, stopped, letOff)
  {}

  lemma LoopVisits(
    n: Node, l: Loop, beta: int, yielded: set<Move>, m: Move, legal: set<Move>, d: int, stopped: bool, letOff: bool
  )
    requires LoopAt(n, l, beta, yielded, d, stopped, letOff)
    requires yielded <= legal && m in legal && m !in yielded && |legal| <= 593
    ensures LoopOk(n, l, beta, TtSeen(n, yielded), d, letOff) && (stopped ==> l.moveCount == 0)
    ensures l.moveCount <= |yielded| && l.moveCount < 593
    ensures yielded + {m} <= legal && legal - (yielded + {m}) < legal - yielded
    ensures Some(m) == n.ttMove ==> !TtSeen(n, yielded)
  {
    hide LoopOk;
    Smaller(yielded, legal - {m});
    assert m in legal - yielded && m !in legal - (yielded + {m});
  }

  lemma Smaller(a: set<Move>, b: set<Move>)
    requires a <= b
    ensures |a| <= |b|
  {
    if a != b {
      assert b == a + (b - a);
    }
  }

  /** Where the loop is after a counted move: it goes on only if it was not stopped. */
  ghost predicate Searched(
    n: Node, l: Loop, beta: int, step: Step, ttSeen: bool, d: int, stopped: bool, letOff: bool
  ) {
    match step
    case Next(k) => LoopOk(n, k, beta, ttSeen, d, letOff) && k.moveCount == l.moveCount && !stopped
    case Break(k) => LoopRange(n, k, beta, letOff) && k.moveCount == l.moveCount && !stopped
    case Leave(v) => Returned(n.ply, beta - 1, beta, v, n.pv && !stopped, letOff)
  }

  /** The same for the move searched as it stands: nothing adds to the depth. */
  ghost predicate Taken(n: Node, l: Loop, beta: int, step: Step, stopped: bool, letOff: bool) {
    match step
    case Next(k) => LoopRange(n, k, beta, letOff) && k.moveCount == l.moveCount && k.depth <= l.depth && !stopped
    case Break(k) => LoopRange(n, k, beta, letOff) && k.moveCount == l.moveCount && !stopped
    case Leave(v) => stopped && v == 0
  }

  /** The loop with one more move counted, not yet searched. */
  predicate LoopCounted(n: Node, l: Loop, beta: int, ttSeen: bool, d: int, letOff: bool) {
    && LoopMid(n, l, beta, letOff) && 0 < l.moveCount <= 593
    && l.depth <= d + (if ttSeen then 2 else 1) && l.depth <= MAX_PLY + (if ttSeen then 1 else 0)
    && (n.pv || !letOff ==> l.best < INF && (l.best > -INF || l.moveCount == 1))
  }

  lemma CountsMove(n: Node, l: Loop, beta: int, ttSeen: bool, d: int, stopped: bool, letOff: bool)
    requires LoopOk(n, l, beta, ttSeen, d, letOff) && l.moveCount < 593 && (stopped ==> l.moveCount == 0)
    ensures LoopCounted(n, Counted(l), beta, ttSeen, d, letOff) && (stopped ==> Counted(l).best == -INF)
  {}

  /** The table move, and it alone, may have been given one ply more before it was searched. */
  lemma TakenSearched(
    n: Node, l: Loop, k: Loop, beta: int, step: Step, ttSeen: bool, isTt: bool, d: int, before: bool,
    stopped: bool, letOff: bool
  )
    requires LoopCounted(n, l, beta, ttSeen, d, before) && Taken(n, k, beta, step, stopped, letOff) && n.ply < MAX_PLY
    requires k == l || (isTt && !ttSeen && k == l.(depth := l.depth + 1))
    ensures Searched(n, l, beta, step, ttSeen || isTt, d, stopped, letOff)
  {
    hide Narrowed, Answer;
    NothingReturned(n.ply, beta);
  }

  lemma NothingReturned(ply: nat, beta: int)
    requires ply < MAX_PLY
    ensures Returned(ply, beta - 1, beta, 0, false, false)
  {}

  lemma SameCount(
    n: Node, l: Loop, k: Loop, beta: int, step: Step, ttSeen: bool, d: int, stopped: bool, letOff: bool
  )
    requires Searched(n, k, beta, step, ttSeen, d, stopped, letOff) && l.moveCount == k.moveCount
    ensures Searched(n, l, beta, step, ttSeen, d, stopped, letOff)
  {}

  lemma SearchedCounts(
    n: Node, l: Loop, beta: int, step: Step, ttSeen: bool, d: int, stopped: bool, letOff: bool
  )
    requires Searched(n, l, beta, step, ttSeen, d, stopped, letOff)
    ensures !step.Leave? ==> step.loop.moveCount == l.moveCount
  {}

  lemma LoopSkips(
    n: Node, l: Loop, beta: int, yielded: set<Move>, m: Move, legal: set<Move>, d: int, stopped: bool, letOff: bool
  )
    requires LoopAt(n, l, beta, yielded, d, stopped, letOff) && m !in yielded && yielded + {m} <= legal
    requires n.rootNode || Some(m) == n.excluded
    ensures StepOk(n, Next(l), beta, yielded + {m}, legal, d, stopped, letOff)
  {
    hide LoopRange;
    assert TtSeen(n, yielded) ==> TtSeen(n, yielded + {m});
  }

  lemma LoopGoesOn(
    n: Node, l: Loop, beta: int, yielded: set<Move>, m: Move, step: Step, legal: set<Move>, d: int,
    stopped: bool, letOff: bool
  )
    requires l.moveCount <= |yielded| && m !in yielded && yielded + {m} <= legal
    requires Searched(n, Counted(l), beta, step, TtSeen(n, yielded) || Some(m) == n.ttMove, d, stopped, letOff)
    ensures StepOk(n, step, beta, yielded + {m}, legal, d, stopped, letOff)
  {
    hide LoopOk, LoopRange, Returned;
    assert TtSeen(n, yielded + {m}) <==> TtSeen(n, yielded) || Some(m) == n.ttMove;
  }

  /** The move loop of a quiescence node between two moves, or over. */
  datatype QLoop = QLoop(alpha: int, best: int, moveCount: nat, yielded: set<Move>, over: bool)

  /** Without a value there was a check, and no move yet or a stop. */
  ghost predicate QLoopOk(
    ply: nat, q: QLoop, start: int, beta: int, pv: bool, inCheck: bool, legal: set<Move>, stopped: bool, letOff: bool
  ) {
    && Window(q.alpha, beta, pv) && q.yielded <= legal
    && -INF <= q.best <= WORD && (letOff || Steady(ply, start, beta, q.alpha, q.best))
    && (!q.over ==> q.best < INF)
    && (pv || !letOff ==> q.best < INF && (q.best == -INF ==> inCheck && (stopped || q.moveCount == 0)))
    && (inCheck && q.moveCount == 0 && q.over ==> legal == {})
    && (q.moveCount == 0 <==> q.yielded == {})
    && (stopped ==> q.over && q.moveCount > 0)
    && (!q.over ==> q.alpha == Max(start, q.best)) && (q.moveCount == 0 ==> q.best <= start)
  }

  lemma QLoopStarts(
    ply: nat, alpha: int, beta: int, pv: bool, inCheck: bool, best: int, legal: set<Move>, letOff: bool
  )
    requires Window(alpha, beta, pv) && ply <= MAX_PLY
    requires best <= alpha && if inCheck then best == -INF else !IsDecisive(best)
    ensures QLoopOk(ply, QLoop(alpha, best, 0, {}, false), alpha, beta, pv, inCheck, legal, false, letOff)
  {}

  /** How a quiescence node passes over a move: too late, hopeless for what it takes, losing
      the exchange, or a quiet or bad capture. */
  datatype Pass = Tried | TooLate | Hopeless(victim: nat) | Losing | Skipped

  /** Passing over a move may raise the best value to what the move could have reached. */
  function PassedOver(pass: Pass, best: int, alpha: int, futilityBase: int): int {
    match pass
    case Hopeless(victim) =>
      if futilityBase + victim <= alpha then Max(best, futilityBase + victim) else best
    case Losing => Max(best, Min(alpha, futilityBase))
    case _ => best
  }

  /** A fail high of a quiescence node is halved towards beta. */
  function Softened(best: int, beta: int): int {
    if !IsDecisive(best) && best > beta then TwinPicker.TruncDiv(best + beta, 2) else best
  }

  /** The bound the search of the other moves must stay below. */
  function SingularBeta(ttValue: int, depth: int, wide: bool): int
    requires depth >= 0
  {
    ttValue - (60 + (if wide then 66 else 0)) * depth / 55
  }

  class Worker {
    const rules: Rules
    const stack: array<StackCell>
    const reductions: seq<int>
    /** The size of a draw score, whichever side it counts against. */
    const contempt: nat
    /** What each node of the search meets from outside, in the order of their checks. */
    const world: nat -> Visit
    /** The corrected and clamped evaluation of a position after so many checks. */
    const evaluate: (Position, nat) -> Eval
    var visits: nat
    var pos: Position
    var pvNode: bool
    var stopped: bool
    var nmpMinPly: int
    var rootDelta: int
    var pvIdx: nat
    /** The depth of the accumulator stack, and what brought it there. */
    var accDepth: nat
    ghost var root: Position
    ghost var line: seq<Frame>
    ghost var script: seq<Action>
    /** An entry that claims more than mate on the spot has been read. */
    ghost var met: bool
    /** One has been stored. */
    ghost var wrote: bool
    /** After a stop, a value that was searched has been stored. */
    ghost var late: bool

    /** A worker in some place of some game. */
    constructor (
      rules: Rules, reductions: seq<int>, contempt: nat, world: nat -> Visit, evaluate: (Position, nat) -> Eval,
      cells: seq<StackCell>,
      pos: Position, accDepth: nat, ghost root: Position, ghost line: seq<Frame>, ghost script: seq<Action>
    )
      ensures this.rules == rules && this.reductions == reductions && this.contempt == contempt
      ensures this.world == world && this.evaluate == evaluate && stack[..] == cells && fresh(stack)
      ensures this.pos == pos && this.accDepth == accDepth && this.root == root && this.line == line
      ensures this.script == script && rootDelta == 1 && visits == 0 && !stopped && !met && !wrote && !late
    {
      this.rules, this.reductions, this.contempt, this.world := rules, reductions, contempt, world;
      this.evaluate := evaluate;
      this.pos, this.accDepth, this.root, this.line, this.script := pos, accDepth, root, line, script;
      stack := new StackCell[|cells|](i requires 0 <= i < |cells| => cells[i]);
      visits, pvNode, stopped, nmpMinPly, rootDelta, pvIdx := 0, false, false, 0, 1, 0;
      met, wrote, late := false, false, false;
    }

    ghost function At(): Core
      reads this`pos, this`line, this`accDepth, this`root
    {
      Core(pos, line, accDepth, root)
    }

    ghost predicate Valid(ply: nat)
      reads this`pos, this`line, this`accDepth, this`root, this`script, this`rootDelta
    {
      && stack.Length == STACK_LEN && |reductions| == REDUCTIONS && contempt < MAX_EVAL
      && rootDelta > 0 && ply <= MAX_PLY && Ready(rules, At(), ply)
      && line == FollowAll([Root(root)], script)
    }

    /** What every search keeps, whatever the scores, the table and the clock: the board and
        the line of play, the marks of excluded moves and the lines of the cells before
        `lines`.  Nothing outside the mate bounds is stored before such an entry has been met
        or the search has been stopped. */
    twostate predicate Kept(ply: nat, lines: nat)
      reads this, stack
    {
      && Valid(ply) && At() == old(At()) && nmpMinPly == old(nmpMinPly)
      && (old(stopped) ==> stopped) && (old(met) ==> met) && (wrote ==> old(wrote) || met || stopped)
      && old(visits) <= visits && Spared(old(stack[..]), stack[..], lines)
    }

    /** The root list keeps its length and its legal lines. */
    ghost predicate RootsKept(before: Option<seq<RootMove>>, after: Option<seq<RootMove>>)
      reads this`root
    {
      && after.Some? == before.Some?
      && (after.Some? ==> |after.value| == |before.value| && RootOk(rules, root, after.value))
    }

    /** At the root, and only there, a list of root moves comes along. */
    ghost predicate RootReady(n: Node, rms: Option<seq<RootMove>>)
      reads this`root, this`pos, this`pvIdx
    {
      && n.rootNode == rms.Some?
      && (n.rootNode ==> n.pv && n.ply == 0 && pos == root && n.excluded.None?
                         && pvIdx < |rms.value| && RootOk(rules, root, rms.value))
    }

    /** A search of the root that ends inside its window has found its value as the best score
        of the open part of the list, with the line it comes from, unless it was stopped or a
        win was declared at once. */
    ghost predicate RootFound(
      rootNode: bool, rms: Option<seq<RootMove>>, alpha: int, beta: int, v: int, from: nat
    )
      reads this`stopped, this`pos, this`pvIdx, this`visits
    {
      rootNode && rms.Some? && !stopped && !rules.declares(pos) && alpha < v < beta ==>
        BestScore(rms.value, pvIdx, v) && LinesOf(rms.value, v, RootWindow(pvIdx, alpha, beta, pos, from), visits)
    }

    /** Each move of the open part with this score has the line it comes from. */
    ghost predicate LinesOf(rms: seq<RootMove>, v: int, w: RootWindow, to: nat) {
      forall k :: w.pvIdx <= k < |rms| && rms[k].score == v ==>
        Traced(0, w.p, rms[k].pv, v, w.start, w.beta, w.from, to)
    }

    lemma LinesEarlier(rms: seq<RootMove>, v: int, w: RootWindow, from: nat, to: nat)
      requires LinesOf(rms, v, w, to) && from <= w.from
      ensures LinesOf(rms, v, w.(from := from), to)
    {
      hide Traced;
      forall k | w.pvIdx <= k < |rms| && rms[k].score == v
        ensures Traced(0, w.p, rms[k].pv, v, w.start, w.beta, from, to)
      {
        TracedWider(0, w.p, rms[k].pv, v, w.start, w.beta, w.from, to, w.start, w.beta, from, to);
      }
    }

    /** The cell of `ply`. */
    static function Si(ply: nat): nat {
      STACK_BASE + ply
    }

    /** The cells whose lines a call at `ply` leaves alone: all outside a
        principal-variation node, else those of shallower plies. */
    static function Below(ply: nat, pv: bool): nat {
      if pv then Si(ply) else STACK_LEN
    }

    // ----- what the search does not compute here -----

    /** The stop flag, the node ceiling or the clock may stop the search at any check; each
        node makes one. */
    method CheckTime() returns (seen: Visit)
      modifies this`stopped, this`visits
      ensures seen == world(old(visits)) && visits == old(visits) + 1
      ensures stopped == (old(stopped) || seen.stops)
    {
      seen := world(visits);
      visits := visits + 1;
      stopped := stopped || seen.stops;
    }

    /** From check `k` on, the first one passes and the second one stops. */
    predicate SecondStops(k: nat) {
      !world(k).stops && world(k + 1).stops
    }

    method Any(lo: int, hi: int) returns (v: int)
      requires lo <= hi
      ensures lo <= v <= hi
    {
      v :| lo <= v <= hi;
    }

    /** The evaluation of the position from the live accumulator slot, corrected and
        clamped. */
    method Evaluate(ghost ply: nat) returns (v: int)
      requires Valid(ply)
      ensures PathOf(line)[accDepth] == pos
      ensures v == evaluate(pos, visits) && -MAX_EVAL <= v <= MAX_EVAL
    {
      SlotIsLive(rules, At(), ply);
      v := evaluate(pos, visits);
    }

    /** Whatever the table says. */
    method Probe(seen: Visit) returns (e: Entry)
      modifies this`met
      ensures e == seen.entry && (met <==> old(met) || !e.WithinMate())
    {
      e := seen.entry;
      met := met || !e.WithinMate();
    }

    /** Every store but ProbCut's: no value that was searched is stored after a stop. */
    method Store(b: Bound, v: int, ghost searched: bool)
      requires searched ==> !stopped
      modifies this`wrote
      ensures wrote <==> old(wrote) || !Storable(b, v)
    {
      wrote := wrote || !Storable(b, v);
    }

    /** The value of a node: the bound says on which side of beta it fell, and a mate is
        stored as its distance from the node. */
    method StoreValue(b: Bound, v: int, ply: nat, ghost beta: int, ghost pv: bool, ghost searched: bool)
      returns (stored: int)
      requires (b.Lower? <==> v >= beta) && (b.Exact? ==> pv) && !b.NoBound? && (searched ==> !stopped)
      modifies this`wrote
      ensures stored == if v >= WIN then v + ply else if v <= -WIN then v - ply else v
      ensures wrote <==> old(wrote) || !Storable(b, ValueToTt(v, ply))
    {
      stored := ValueToTt(v, ply);
      Store(b, stored, searched);
    }

    /** The store of ProbCut does not ask whether the search has been stopped. */
    method StoreCapture(v: int, ply: nat, ghost raised: int) returns (stored: int)
      requires v >= raised
      modifies this`wrote, this`late
      ensures stored == if v >= WIN then v + ply else if v <= -WIN then v - ply else v
      ensures wrote <==> old(wrote) || !Storable(Lower, ValueToTt(v, ply))
      ensures late <==> old(late) || stopped
    {
      stored := ValueToTt(v, ply);
      wrote := wrote || !Storable(Lower, stored);
      late := late || stopped;
    }

    /** A draw score, whichever side it counts against, with its dither. */
    predicate DrawLike(v: int) {
      -1 - contempt <= v <= 1 + contempt
    }

    /** A draw, for or against the side to move. */
    method DrawScore() returns (v: int)
      ensures DrawLike(v)
    {
      v := Any(-1 - contempt, 1 + contempt);
    }

    /** A repetition is a draw or decides, counted from the root. */
    method RepetitionScore(r: Repetition, ply: nat) returns (v: int)
      requires ply <= MAX_PLY && contempt < MAX_EVAL
      ensures MatedIn(ply) <= v <= MateIn(ply)
      ensures match r
              case RepeatedWin => v == MateIn(ply)
              case RepeatedLoss => v == MatedIn(ply)
              case Superior => v == MAX_EVAL
              case Inferior => v == -MAX_EVAL
              case _ => DrawLike(v)
    {
      match r
      case RepeatedWin => v := ValueFromTt(MATE, ply);
      case RepeatedLoss => v := ValueFromTt(-MATE, ply);
      case Superior => v := ValueFromTt(MAX_EVAL, ply);
      case Inferior => v := ValueFromTt(-MAX_EVAL, ply);
      case _ => v := DrawScore();
    }

    /** The picker: any generated legal move it has not yielded before, or none.  Until a
        quiet may have been skipped it gives up only when it has yielded them all. */
    method Pick(yielded: set<Move>, all: bool) returns (r: Option<Move>)
      ensures r.Some? ==> r.value in rules.legal(pos) && r.value !in yielded
      ensures r.None? && all ==> rules.legal(pos) <= yielded
    {
      r := None;
      if m :| m in rules.legal(pos) && m !in yielded {
        var more := *;
        if all || more {
          r := Some(m);
        }
      }
    }

    /** Without a move to play the side to move is mated, and only then. */
    function NoMove(ply: nat, ghost legal: set<Move>): (v: int)
      requires legal == {}
      ensures v == MatedIn(ply)
    {
      MatedIn(ply)
    }

    // ----- scores and their lines -----

    /** The static value: the evaluation, or what the table says if its bound is on the right
        side of it. */
    predicate StoodOn(e: Entry, ply: nat, best: int, eval: int) {
      var t := e.ValueAt(ply);
      if e.hit && t != NONE && -WIN < t < WIN
         && (e.bound.Exact? || (t > eval && e.bound.Lower?) || (t <= eval && e.bound.Upper?)) then best == t
      else best == eval
    }

    /** What a node with no move to show says at its check number `k`. */
    ghost predicate StaticAt(k: nat, p: Position, ply: nat, v: int) {
      match world(k).repetition
      case NoRepetition =>
        if world(k).tooLong || ply >= MAX_PLY then DrawLike(v)
        else StoodOn(world(k).entry, ply, v, evaluate(p, k + 1))
      case RepeatedDraw => DrawLike(v)
      case Superior => v == MAX_EVAL
      case Inferior => v == -MAX_EVAL
      case _ => false
    }

    /** The same at the end of a line, seen from its start: each move turns the value round. */
    ghost predicate StaticBehind(k: nat, ply: nat, p: Position, line: seq<Move>, v: int) {
      StaticAt(k, EndOf(p, line), ply + |line|, if |line| % 2 == 0 then v else -v)
    }

    /** Between two checks the node count has let no move of equal value take over. */
    predicate NoTies(from: nat, to: nat) {
      forall k :: from <= k <= to ==> world(k).ties == {}
    }

    /** A value inside the window that is no mate is the static value of the end of the line,
        given there between two checks. */
    ghost predicate Traced(
      ply: nat, p: Position, line: seq<Move>, v: int, alpha: int, beta: int, from: nat, to: nat
    ) {
      alpha < v < beta && !IsDecisive(v) && NoTies(from, to) ==>
        exists k :: from <= k < to && StaticBehind(k, ply, p, line, v)
    }

    /** The main loop: alpha is where it started or the best value so far, and the line is that
        of the best value. */
    ghost predicate Going(
      ply: nat, p: Position, line: seq<Move>, alpha: int, best: int, start: int, beta: int, from: nat, to: nat
    ) {
      alpha == Max(start, best) && Traced(ply, p, line, best, start, beta, from, to)
    }

    /** The same after a step. */
    ghost predicate StepTraced(
      ply: nat, step: Step, p: Position, line: seq<Move>, start: int, beta: int, from: nat, to: nat
    ) {
      match step
      case Next(l) => Going(ply, p, line, l.alpha, l.best, start, beta, from, to)
      case Break(l) => l.best >= beta || Going(ply, p, line, l.alpha, l.best, start, beta, from, to)
      case Leave(v) => v >= beta
    }

    /** In a principal-variation node below the root, between two moves of the loop. */
    ghost predicate OnLine(
      n: Node, l: Loop, p: Position, line: seq<Move>, start: int, beta: int, from: nat, to: nat
    ) {
      n.pv && !n.rootNode ==>
        LegalLine(rules, p, line) && Going(n.ply, p, line, l.alpha, l.best, start, beta, from, to)
    }

    ghost predicate StepOnLine(
      n: Node, step: Step, p: Position, line: seq<Move>, start: int, beta: int, from: nat, to: nat
    ) {
      n.pv && !n.rootNode ==> LegalLine(rules, p, line) && StepTraced(n.ply, step, p, line, start, beta, from, to)
    }

    /** A later time. */
    lemma StartsOnLine(n: Node, l: Loop, p: Position, beta: int, k: nat)
      requires l.best == -INF <= l.alpha
      ensures StepOnLine(n, Next(l), p, [], l.alpha, beta, k, k)
      ensures n.rootNode ==> forall line :: StepOnLine(n, Next(l), p, line, l.alpha, beta, k, k)
    {
      NotInside(n.ply, p, [], -INF, l.alpha, beta, k, k);
      hide Traced;
    }

    // ----- the root list -----

    /** The list and the window after a move of the root. */
    ghost predicate RootTurned(
      n: Node, l: Loop, m: Move, step: Step, before: Option<seq<RootMove>>, after: Option<seq<RootMove>>,
      w: RootWindow, to: nat, stopped: bool
    ) {
      n.rootNode && before.Some? && after.Some? ==>
        if step.Leave? then stopped
        else exists value, child ::
          && TurnedBy(l, w.beta, m, step, before.value, after.value, value, child)
          && Traced(1, DoMove(w.p, m), child, -value, -w.beta, -l.alpha, w.from, to)
    }

    lemma TurnedNow(
      n: Node, l: Loop, m: Move, step: Step, before: Option<seq<RootMove>>, after: Option<seq<RootMove>>,
      w: RootWindow, to: nat, value: int, child: seq<Move>
    )
      requires !step.Leave? && (n.rootNode ==> before.Some? && after.Some?)
      requires n.rootNode ==>
        && TurnedBy(l, w.beta, m, step, before.value, after.value, value, child)
        && Traced(1, DoMove(w.p, m), child, -value, -w.beta, -l.alpha, w.from, to)
      ensures RootTurned(n, l, m, step, before, after, w, to, false)
    {
      hide Traced, TurnedBy, DoMove;
    }

    /** Every searched move of the open part with the best score has the line it comes from. */
    ghost predicate RootLines(rms: seq<RootMove>, yielded: set<Move>, best: int, w: RootWindow, to: nat) {
      forall k :: w.pvIdx <= k < |rms| && rms[k].mv in yielded && rms[k].score == best && best > w.start ==>
        Traced(0, w.p, rms[k].pv, best, w.start, w.beta, w.from, to)
    }

    /** The scores of the root list as the loop goes on; it ends with every move searched or a
        value outside the window. */
    ghost predicate RootAt(
      n: Node, step: Step, rms: Option<seq<RootMove>>, yielded: set<Move>, legal: set<Move>, w: RootWindow, to: nat,
      stopped: bool
    ) {
      n.rootNode && rms.Some? ==>
        match step
        case Next(l) => RootBetween(l, rms.value, yielded, w, to)
        case Break(l) =>
          (l.best >= w.beta && l.moveCount > 0) || (legal <= yielded && RootBetween(l, rms.value, yielded, w, to))
        case Leave(_) => stopped
    }

    ghost predicate RootBetween(l: Loop, rms: seq<RootMove>, yielded: set<Move>, w: RootWindow, to: nat) {
      && RootScores(rms, w.pvIdx, yielded, w.start, l.alpha, l.best, l.moveCount == 0)
      && RootLines(rms, yielded, l.best, w, to)
    }

    lemma RootStarts(
      n: Node, depth: int, rms: Option<seq<RootMove>>, legal: set<Move>, w: RootWindow, to: nat, stopped: bool
    )
      requires -INF <= w.start
      ensures RootAt(n, Next(Loop(w.start, depth, -INF, 0)), rms, {}, legal, w, to, stopped)
    {
      hide Traced;
    }

    lemma RootLinesNext(
      l: Loop, m: Move, value: int, child: seq<Move>, rms: seq<RootMove>, yielded: set<Move>, w: RootWindow,
      was: nat, to: nat
    )
      requires RootBetween(l, rms, yielded, w, was) && DistinctMoves(rms) && was <= to && -INF <= w.start
      requires Traced(1, DoMove(w.p, m), child, -value, -w.beta, -l.alpha, w.from, to)
      requires m !in yielded && exists k :: w.pvIdx <= k < |rms| && rms[k].mv == m
      ensures RootLines(RootAfter(rms, m, value, l.alpha, l.moveCount + 1, child), yielded + {m}, Max(l.best, value), w,
              to)
    {
      var after, best := RootAfter(rms, m, value, l.alpha, l.moveCount + 1, child), Max(l.best, value);
      var k :| w.pvIdx <= k < |rms| && rms[k].mv == m;
      RootAfterAt(rms, m, value, l.alpha, l.moveCount + 1, child, k);
      hide RootAfter, Traced, DoMove, DistinctMoves;
      forall j | w.pvIdx <= j < |rms| && after[j].mv in yielded + {m} && after[j].score == best && best > w.start
        ensures Traced(0, w.p, after[j].pv, best, w.start, w.beta, w.from, to)
      {
        if j == k {
          assert value > l.alpha && best == value;
          TracedAbove(0, w.p, m, child, value, l.alpha, w.beta, w.from, to);
          TracedWider(0, w.p, after[j].pv, value, l.alpha, w.beta, w.from, to, w.start, w.beta, w.from, to);
        } else {
          assert after[j] == rms[j] && rms[j].mv in yielded;
          TracedWider(0, w.p, rms[j].pv, l.best, w.start, w.beta, w.from, was, w.start, w.beta, w.from, to);
        }
      }
    }

    lemma RootGoesOn(
      n: Node, l: Loop, m: Move, step: Step, before: Option<seq<RootMove>>, after: Option<seq<RootMove>>,
      yielded: set<Move>, legal: set<Move>, w: RootWindow, was: nat, to: nat, stopped: bool
    )
      requires RootAt(n, Next(l), before, yielded, legal, w, was, false) && m !in yielded && was <= to
               && -INF <= w.start
      requires RootTurned(n, Counted(l), m, step, before, after, w, to, stopped) && before.Some? == after.Some?
      requires !Absent(before, w.pvIdx, m)
               && (before.Some? ==> DistinctMoves(before.value) && w.pvIdx <= |before.value|)
      requires -INF <= l.best && (!step.Leave? ==> step.loop.moveCount == l.moveCount + 1)
      ensures RootAt(n, step, after, yielded + {m}, legal, w, to, stopped)
    {
      if n.rootNode && before.Some? && !step.Leave? {
        hide RootScores, RootAfter, Traced, RootLines, DoMove;
        var value, child :|
          && TurnedBy(Counted(l), w.beta, m, step, before.value, after.value, value, child)
          && Traced(1, DoMove(w.p, m), child, -value, -w.beta, -l.alpha, w.from, to);
        var k := Find(before.value[w.pvIdx..], m);
        assert before.value[w.pvIdx + k].mv == m;
        RootScoresNext(before.value, w.pvIdx, yielded, w.start, l.alpha, l.best, l.moveCount, m, value, child);
        RootLinesNext(l, m, value, child, before.value, yielded, w, was, to);
        AlphaIsBest(before.value, w.pvIdx, yielded, w.start, l.alpha, l.best, l.moveCount == 0);
      }
    }

    lemma RootPasses(
      n: Node, l: Loop, m: Move, rms: Option<seq<RootMove>>, yielded: set<Move>, legal: set<Move>, w: RootWindow,
      to: nat, stopped: bool
    )
      requires RootAt(n, Next(l), rms, yielded, legal, w, to, stopped) && (rms.Some? ==> w.pvIdx <= |rms.value|)
      requires n.rootNode ==> Absent(rms, w.pvIdx, m)
      ensures RootAt(n, Next(l), rms, yielded + {m}, legal, w, to, stopped)
    {
      if n.rootNode {
        RootScoresSkip(rms.value, w.pvIdx, yielded, w.start, l.alpha, l.best, l.moveCount == 0, m);
        forall k | w.pvIdx <= k < |rms.value|
          ensures rms.value[k].mv != m
        {
          assert rms.value[w.pvIdx..][k - w.pvIdx] == rms.value[k];
        }
        hide RootScores, Traced;
      }
    }

    /** A move of the loop: not counted, or searched. */
    ghost predicate Visited(
      n: Node, l: Loop, m: Move, step: Step, before: Option<seq<RootMove>>, after: Option<seq<RootMove>>,
      w: RootWindow, ttSeen: bool, d: int, to: nat, stopped: bool, letOff: bool, same: bool
    ) {
      || (step == Next(l) && same && after == before && (Some(m) == n.excluded || Absent(before, w.pvIdx, m)))
      || (&& Searched(n, Counted(l), w.beta, step, ttSeen, d, stopped, letOff)
          && RootTurned(n, Counted(l), m, step, before, after, w, to, stopped) && !Absent(before, w.pvIdx, m))
    }

    /** What that makes of the loop. */
    lemma VisitedGoesOn(
      n: Node, l: Loop, m: Move, step: Step, before: Option<seq<RootMove>>, after: Option<seq<RootMove>>,
      yielded: set<Move>, legal: set<Move>, w: RootWindow, d: int, was: nat, to: nat,
      stopped0: bool, letOff0: bool, stopped: bool, letOff: bool
    )
      requires StepOk(n, Next(l), w.beta, yielded, legal, d, stopped0, letOff0) && m !in yielded
               && yielded + {m} <= legal
      requires RootAt(n, Next(l), before, yielded, legal, w, was, stopped0) && was <= to
      requires Visited(n, l, m, step, before, after, w, TtSeen(n, yielded) || Some(m) == n.ttMove, d, to, stopped,
                       letOff, stopped0 == stopped && letOff0 == letOff && was == to)
      requires before.Some? == after.Some? == n.rootNode
      requires n.rootNode ==>
        n.excluded.None? && -INF <= w.start && DistinctMoves(before.value) && w.pvIdx <= |before.value|
      ensures StepOk(n, step, w.beta, yielded + {m}, legal, d, stopped, letOff)
      ensures RootAt(n, step, after, yielded + {m}, legal, w, to, stopped)
    {
      hide Searched, RootBetween, RootTurned, LoopOk, LoopRange;
      if Searched(n, Counted(l), w.beta, step, TtSeen(n, yielded) || Some(m) == n.ttMove, d, stopped, letOff)
         && RootTurned(n, Counted(l), m, step, before, after, w, to, stopped) && !Absent(before, w.pvIdx, m) {
        LoopGoesOn(n, l, w.beta, yielded, m, step, legal, d, stopped, letOff);
        SearchedCounts(n, Counted(l), w.beta, step, TtSeen(n, yielded) || Some(m) == n.ttMove, d, stopped, letOff);
        hide StepOk;
        if n.rootNode {
          BestProper(n, l, w.beta, yielded, d, stopped0, letOff0);
          RootGoesOn(n, l, m, step, before, after, yielded, legal, w, was, to, stopped);
        }
      } else {
        RootPasses(n, l, m, before, yielded, legal, w, to, stopped);
        LoopSkips(n, l, w.beta, yielded, m, legal, d, stopped, letOff);
      }
    }

    lemma BestProper(n: Node, l: Loop, beta: int, yielded: set<Move>, d: int, stopped: bool, letOff: bool)
      requires LoopAt(n, l, beta, yielded, d, stopped, letOff)
      ensures -INF <= l.best
    {}

    lemma OnLineLater(
      n: Node, l: Loop, p: Position, line: seq<Move>, start: int, beta: int, from: nat, to: nat, to': nat
    )
      requires OnLine(n, l, p, line, start, beta, from, to) && to <= to'
      ensures OnLine(n, l, p, line, start, beta, from, to')
    {
      hide LegalLine, Traced;
      if n.pv && !n.rootNode {
        TracedWider(n.ply, p, line, l.best, start, beta, from, to, start, beta, from, to');
      }
    }

    /** The best value may rise without a line up to alpha. */
    lemma OnLineUp(
      n: Node, l: Loop, best: int, p: Position, line: seq<Move>, start: int, beta: int, from: nat, to: nat
    )
      requires OnLine(n, l, p, line, start, beta, from, to) && (best == l.best || l.best <= best <= l.alpha)
      ensures OnLine(n, l.(best := best), p, line, start, beta, from, to)
      ensures StepOnLine(n, Next(l.(best := best)), p, line, start, beta, from, to)
    {
      hide LegalLine, Traced;
      if n.pv && !n.rootNode && l.best < best {
        NotInside(n.ply, p, line, best, start, beta, from, to);
      }
    }

    lemma StaysOnLine(
      n: Node, l: Loop, p: Position, line: seq<Move>, start: int, beta: int, from: nat, to: nat
    )
      requires OnLine(n, l, p, line, start, beta, from, to)
      ensures OnLine(n, Counted(l), p, line, start, beta, from, to)
      ensures StepOnLine(n, Next(l), p, line, start, beta, from, to)
      ensures StepOnLine(n, Break(l), p, line, start, beta, from, to)
    {
      hide LegalLine, Traced;
    }

    /** A new best move, or one of equal value when the node count lets it take over. */
    lemma GoingNew(
      ply: nat, p: Position, m: Move, child: seq<Move>, value: int, alpha: int, start: int, beta: int,
      from: nat, mid: nat, to: nat, tied: bool
    )
      requires Traced(ply + 1, DoMove(p, m), child, -value, -beta, -alpha, mid, to) && from <= mid <= to
               && start <= alpha
      requires if tied then value >= alpha && ply in world(to).ties else value > alpha
      ensures Going(ply, p, [m] + child, value, value, start, beta, from, to)
    {
      if tied {
        assert !NoTies(from, to);
      } else {
        hide Traced, DoMove;
        TracedAbove(ply, p, m, child, value, alpha, beta, mid, to);
        TracedWider(ply, p, [m] + child, value, alpha, beta, mid, to, start, beta, from, to);
      }
    }

    /** A legal line and where its value comes from. */
    ghost predicate Led(
      ply: nat, p: Position, line: seq<Move>, v: int, alpha: int, beta: int, from: nat, to: nat
    ) {
      LegalLine(rules, p, line) && Traced(ply, p, line, v, alpha, beta, from, to)
    }

    lemma LedHere(ply: nat, p: Position, v: int, alpha: int, beta: int, k: nat, from: nat, to: nat)
      requires from <= k < to && (!IsDecisive(v) ==> StaticAt(k, p, ply, v))
      ensures Led(ply, p, [], v, alpha, beta, from, to)
    {
      TracedHere(ply, p, v, alpha, beta, k, from, to);
      hide Traced;
    }

    lemma LedNowhere(ply: nat, p: Position, v: int, alpha: int, beta: int, from: nat, to: nat)
      requires !(alpha < v < beta) || IsDecisive(v)
      ensures Led(ply, p, [], v, alpha, beta, from, to)
    {
      NotInside(ply, p, [], v, alpha, beta, from, to);
      hide Traced;
    }

    lemma LedWider(
      ply: nat, p: Position, line: seq<Move>, v: int, alpha: int, beta: int, from: nat, to: nat, from': nat
    )
      requires Led(ply, p, line, v, alpha, beta, from, to) && from' <= from
      ensures Led(ply, p, line, v, alpha, beta, from', to)
    {
      TracedWider(ply, p, line, v, alpha, beta, from, to, alpha, beta, from', to);
      hide Traced, LegalLine;
    }

    lemma TracedHere(ply: nat, p: Position, v: int, alpha: int, beta: int, k: nat, from: nat, to: nat)
      requires from <= k < to && (!IsDecisive(v) ==> StaticAt(k, p, ply, v))
      ensures Traced(ply, p, [], v, alpha, beta, from, to)
    {
      if !IsDecisive(v) {
        assert EndOf(p, []) == p;
        assert StaticBehind(k, ply, p, [], v);
      }
    }

    lemma RepetitionIsStatic(k: nat, ply: nat, v: int)
      requires !world(k).repetition.NoRepetition? && ply <= MAX_PLY
      requires match world(k).repetition
               case RepeatedWin => v == MateIn(ply)
               case RepeatedLoss => v == MatedIn(ply)
               case Superior => v == MAX_EVAL
               case Inferior => v == -MAX_EVAL
               case _ => DrawLike(v)
      ensures !IsDecisive(v) ==> StaticAt(k, pos, ply, v)
    {}

    lemma DrawIsStatic(k: nat, ply: nat, v: int)
      requires world(k).repetition.NoRepetition? && (world(k).tooLong || ply >= MAX_PLY) && DrawLike(v)
      ensures StaticAt(k, pos, ply, v)
    {}

    /** Over more checks, and in any window if it fell inside the old one. */
    lemma TracedWider(
      ply: nat, p: Position, line: seq<Move>, v: int, alpha: int, beta: int, from: nat, to: nat,
      alpha': int, beta': int, from': nat, to': nat
    )
      requires Traced(ply, p, line, v, alpha, beta, from, to) && from' <= from && to <= to'
      requires alpha' < v < beta' && !IsDecisive(v) ==> alpha < v < beta
      ensures Traced(ply, p, line, v, alpha', beta', from', to')
    {
      hide StaticBehind, IsDecisive;
    }

    /** One move up. */
    lemma TracedAbove(
      ply: nat, p: Position, m: Move, line: seq<Move>, v: int, alpha: int, beta: int, from: nat, to: nat
    )
      requires Traced(ply + 1, DoMove(p, m), line, -v, -beta, -alpha, from, to)
      ensures Traced(ply, p, [m] + line, v, alpha, beta, from, to)
    {
      hide DoMove, StaticAt, NoTies;
      EndOfCons(p, m, line);
      if alpha < v < beta && !IsDecisive(v) && NoTies(from, to) {
        var k :| from <= k < to && StaticBehind(k, ply + 1, DoMove(p, m), line, -v);
        assert StaticBehind(k, ply, p, [m] + line, v);
      }
    }

    // ----- the board -----

    method Make(ghost ply: nat, m: Move) returns (captured: Cell)
      requires Valid(ply) && ply < MAX_PLY && m in rules.legal(pos)
      modifies this`pos, this`line, this`script, this`accDepth
      ensures Valid(ply + 1)
      ensures At() == Played(old(At()), m) && captured == Captured(old(pos), m)
    {
      hide Ready, DoMove, Captured, Follow;
      PlayedReady(rules, At(), m, ply);
      captured := Captured(pos, m);
      ghost var after := script + [Play(m)];
      assert after[..|script|] == script;
      assert FollowAll([Root(root)], after) == Follow(line, Play(m));
      hide FollowAll;
      line := line + [Moved(DoMove(pos, m), m, captured)];
      script := after;
      accDepth := accDepth + 1;
      pos := DoMove(pos, m);
    }

    method Unmake(ghost ply: nat, m: Move, captured: Cell, ghost before: Core)
      requires Valid(ply + 1) && Ready(rules, before, ply) && m in rules.legal(before.pos)
      requires At() == Played(before, m) && captured == Captured(before.pos, m)
      modifies this`pos, this`line, this`script, this`accDepth
      ensures Valid(ply) && At() == before
    {
      hide Ready, DoMove, UndoMove, Captured, Follow;
      PlayedBack(rules, before, m, ply);
      ghost var after := script + [TakeBack];
      assert after[..|script|] == script;
      line := before.line;
      script := after;
      accDepth := accDepth - 1;
      pos := UndoMove(pos, m, captured);
    }

    method PassTurn(ghost ply: nat)
      requires Valid(ply) && ply < MAX_PLY
      modifies this`pos, this`line, this`script
      ensures Valid(ply + 1) && At() == TurnPassed(old(At()))
    {
      hide Ready, DoNullMove, Follow;
      PassedReady(rules, At(), ply);
      ghost var after := script + [Pass];
      assert after[..|script|] == script;
      line := line + [Passed(DoNullMove(pos))];
      script := after;
      pos := DoNullMove(pos);
    }

    method UnpassTurn(ghost ply: nat, ghost before: Core)
      requires Valid(ply + 1) && Ready(rules, before, ply) && At() == TurnPassed(before)
      modifies this`pos, this`line, this`script
      ensures Valid(ply) && At() == before
    {
      hide DoNullMove, Follow;
      PassedBack(before);
      ghost var after := script + [Unpass];
      assert after[..|script|] == script;
      line := before.line;
      script := after;
      pos := DoNullMove(pos);
    }

    /** The line of `ply` becomes the move and the line of the next ply. */
    method UpdatePv(ply: nat, m: Move)
      requires Valid(ply) && ply < MAX_PLY && m in rules.legal(pos)
      requires LegalLine(rules, DoMove(pos, m), stack[Si(ply) + 1].pv)
      modifies stack
      ensures stack[Si(ply)].pv == [m] + old(stack[Si(ply) + 1].pv)
      ensures LegalLine(rules, pos, stack[Si(ply)].pv)
      ensures Spared(old(stack[..]), stack[..], Si(ply))
    {
      LegalLineCons(rules, pos, m, stack[Si(ply) + 1].pv);
      hide LegalLine, Ready;
      stack[Si(ply)] := stack[Si(ply)].(pv := [m] + stack[Si(ply) + 1].pv);
    }

    method ClearPv(ply: nat)
      requires stack.Length == STACK_LEN && ply <= MAX_PLY
      modifies stack
      ensures stack[Si(ply)].pv == []
      ensures Spared(old(stack[..]), stack[..], Si(ply))
    {
      stack[Si(ply)] := stack[Si(ply)].(pv := []);
    }

    /** The history plane of the move just made, for the plies below. */
    method MarkPlane(ply: nat)
      requires stack.Length == STACK_LEN && ply <= MAX_PLY
      modifies stack
      ensures Spared(old(stack[..]), stack[..], STACK_LEN)
    {
      var plane: nat := *;
      stack[Si(ply)] := stack[Si(ply)].(plane := plane);
    }

    /** The planes of the six plies above, sentinels included. */
    method Planes(ply: nat) returns (planes: seq<nat>)
      requires stack.Length == STACK_LEN && ply <= MAX_PLY
      ensures |planes| == 6 && forall i :: 0 <= i < 6 ==> planes[i] == stack[Si(ply) - 1 - i].plane
    {
      planes := [];
      for i := 0 to 6
        invariant |planes| == i && forall k :: 0 <= k < i ==> planes[k] == stack[Si(ply) - 1 - k].plane
      {
        planes := planes + [stack[Si(ply) - 1 - i].plane];
      }
    }

    // ----- quiescence search -----

    /** Ends for any scores and any table.  With -INF comes back a node in check that was
        stopped before its first evasion had been weighed, and nothing else but what the
        table may have put there. */
    method QSearch(ply: nat, alpha0: int, beta: int) returns (v: int)
      requires Valid(ply) && Window(alpha0, beta, pvNode)
      modifies this`pos, this`line, this`script, this`accDepth, this`stopped, this`visits, this`met, this`wrote, stack
      ensures Kept(ply, Below(ply, pvNode))
      ensures Returned(ply, alpha0, beta, v, pvNode && !stopped, met || v == -INF)
      ensures pvNode && !stopped ==> Led(ply, pos, stack[Si(ply)].pv, v, alpha0, beta, old(visits), visits)
      ensures old(stopped) || world(old(visits)).stops ==> stopped && v == 0 && visits == old(visits) + 1
      ensures v == -INF && !met ==>
        && stopped && !old(stopped) && !world(old(visits)).stops
        && Evades(rules, pos, ply, beta, pvNode, world(old(visits)))
      ensures !old(stopped) && SecondStops(old(visits)) && Evades(rules, pos, ply, beta, pvNode, world(old(visits))) ==>
        stopped && v == -INF
      decreases MAX_PLY - ply, 0, 7
    {
      hide Worker.Valid, Worker.At, Led, StaticAt;
      StackLength(ply);
      var seen := CheckTime();
      if stopped {
        return 0;
      }
      if pvNode {
        ClearPv(ply);
      }
      if !seen.repetition.NoRepetition? {
        v := RepetitionScore(seen.repetition, ply);
        RepetitionIsStatic(old(visits), ply, v);
        LedHere(ply, pos, v, alpha0, beta, old(visits), old(visits), visits);
        return;
      }
      if ply >= MAX_PLY || seen.tooLong {
        v := DrawScore();
        DrawIsStatic(old(visits), ply, v);
        LedHere(ply, pos, v, alpha0, beta, old(visits), old(visits), visits);
        return;
      }
      var e := Probe(seen);
      var ttValue := e.ValueAt(ply);
      if !pvNode && e.Cuts(ply, beta) {
        if !met {
          StoredAnswers(e.bound, e.value, ply, alpha0, beta);
        }
        return ttValue;
      }
      v := QOpen(ply, alpha0, beta, e);
    }

    /** A node that is neither drawn nor settled by the table. */
    method QOpen(ply: nat, alpha0: int, beta: int, e: Entry) returns (v: int)
      requires Valid(ply) && ply < MAX_PLY && Window(alpha0, beta, pvNode) && !stopped
      requires pvNode ==> stack[Si(ply)].pv == []
      requires visits > 0 && world(visits - 1).entry == e
      requires world(visits - 1).repetition.NoRepetition? && !world(visits - 1).tooLong
      modifies this`pos, this`line, this`script, this`accDepth, this`stopped, this`visits, this`met, this`wrote, stack
      ensures Kept(ply, Below(ply, pvNode))
      ensures Returned(ply, alpha0, beta, v, pvNode && !stopped, met || v == -INF)
      ensures pvNode && !stopped ==> Led(ply, pos, stack[Si(ply)].pv, v, alpha0, beta, old(visits) - 1, visits)
      ensures v == -INF && !met ==> stopped && rules.inCheck(pos) && rules.legal(pos) != {}
      ensures rules.inCheck(pos) && rules.legal(pos) != {} && world(old(visits)).stops ==> stopped && v == -INF
      decreases MAX_PLY - ply, 0, 6
    {
      hide Ready, LegalLine, Traced, Worker.StoodOn;
      EmptyLineLegal(pos);
      var inCheck := rules.inCheck(pos);
      var alpha, best, futilityBase := alpha0, -INF, -INF;
      if !inCheck {
        var done: bool;
        done, v, best, futilityBase := StandPat(ply, alpha, beta, e);
        if done {
          SparedRefl(stack[..], Below(ply, pvNode));
          LedNowhere(ply, pos, v, alpha0, beta, visits - 1, visits);
          return;
        }
        alpha := Max(alpha, best);
        StoodHere(ply, visits - 1, best);
      }
      ghost var k := visits - 1;
      v := QMoves(ply, alpha, beta, inCheck, best, futilityBase);
      if pvNode && !stopped {
        StoodTraced(ply, pos, stack[Si(ply)].pv, v, best, alpha0, beta, k, visits);
      }
      RaisedAnswer(ply, alpha0, beta, best, v, pvNode && !stopped, met || v == -INF);
    }

    lemma NotInside(
      ply: nat, p: Position, line: seq<Move>, v: int, alpha: int, beta: int, from: nat, to: nat
    )
      requires !(alpha < v < beta) || IsDecisive(v)
      ensures Traced(ply, p, line, v, alpha, beta, from, to)
    {}

    lemma StoodHere(ply: nat, k: nat, best: int)
      requires world(k).repetition.NoRepetition? && !world(k).tooLong && ply < MAX_PLY
      requires StoodOn(world(k).entry, ply, best, evaluate(pos, k + 1))
      ensures StaticAt(k, pos, ply, best)
    {}

    /** Either a move has beaten the static value, or that is what comes back. */
    lemma StoodTraced(
      ply: nat, p: Position, line: seq<Move>, v: int, best: int, alpha: int, beta: int, k: nat, to: nat
    )
      requires Traced(ply, p, line, v, Max(alpha, best), beta, k + 1, to) && k < to
      requires (v <= Max(alpha, best) ==> line == []) && (v < beta ==> best <= v)
      requires best <= alpha || StaticAt(k, p, ply, best)
      ensures Traced(ply, p, line, v, alpha, beta, k, to)
    {
      hide Traced, StaticAt;
      if !(alpha < v < beta) {
        NotInside(ply, p, line, v, alpha, beta, k, to);
      } else if v > Max(alpha, best) {
        TracedWider(ply, p, line, v, Max(alpha, best), beta, k + 1, to, alpha, beta, k, to);
      } else {
        TracedHere(ply, p, v, alpha, beta, k, k, to);
      }
    }

    /** Raising alpha to a static value lets no other answer through. */
    lemma RaisedAnswer(ply: nat, alpha: int, beta: int, best: int, v: int, proper: bool, letOff: bool)
      requires ply <= MAX_PLY && (best == -INF || !IsDecisive(best)) && -INF <= alpha
      requires Returned(ply, Max(alpha, best), beta, v, proper, letOff)
      ensures Returned(ply, alpha, beta, v, proper, letOff)
    {}

    /** Mate in one, and standing pat on the evaluation or on a better bound. */
    method StandPat(ply: nat, alpha: int, beta: int, e: Entry)
      returns (done: bool, v: int, best: int, futilityBase: int)
      requires Valid(ply) && ply < MAX_PLY && Window(alpha, beta, true) && !stopped
      modifies this`wrote
      ensures wrote == old(wrote)
      ensures if done then Answer(ply, alpha, beta, v) else !IsDecisive(best) && best < beta
      ensures StoodOn(e, ply, best, futilityBase - FUTILITY_MARGIN)
              && futilityBase == evaluate(pos, visits) + FUTILITY_MARGIN
      ensures done ==>
        || (!e.hit && v == MateIn(ply + 1))
        || (best >= beta && best + beta - 1 <= 2 * v <= best + beta + 1 && beta <= v <= best)
    {
      hide Ready;
      done, v := true, 0;
      var eval := Evaluate(ply);
      best := eval;
      futilityBase := eval + FUTILITY_MARGIN;
      var ttValue := e.ValueAt(ply);
      if e.hit {
        if ttValue != NONE && !IsDecisive(ttValue) && BoundMatches(e.bound, ttValue > best) {
          best := ttValue;
        }
      } else {
        var mate := *;
        if mate {
          Store(Exact, MateIn(ply + 1), false);
          v := MateIn(ply + 1);
          return;
        }
      }
      if best >= beta {
        MeanBetween(beta, best, 1);
        v := TwinPicker.TruncDiv(best + beta, 2);
        AnswerStorable(ply, alpha, beta, v);
        if !e.hit {
          var _ := StoreValue(Lower, v, ply, beta, false, false);
        }
        return;
      }
      done := false;
    }

    lemma EmptyLineLegal(p: Position)
      ensures LegalLine(rules, p, [])
    {}

    /** The moves of a quiescence node, one after the other. */
    method QMoves(ply: nat, alpha0: int, beta: int, inCheck: bool, best0: int, futilityBase: int) returns (v: int)
      requires Valid(ply) && ply < MAX_PLY && Window(alpha0, beta, pvNode) && !stopped
      requires inCheck == rules.inCheck(pos) && if inCheck then best0 == -INF else !IsDecisive(best0)
      requires best0 <= alpha0 && (pvNode ==> LegalLine(rules, pos, stack[Si(ply)].pv))
      modifies this`pos, this`line, this`script, this`accDepth, this`stopped, this`visits, this`met, this`wrote, stack
      ensures Kept(ply, Below(ply, pvNode))
      ensures Returned(ply, alpha0, beta, v, pvNode && !stopped, met || v == -INF)
      ensures pvNode && !stopped ==> LegalLine(rules, pos, stack[Si(ply)].pv)
      ensures pvNode && !stopped ==>
        && Traced(ply, pos, stack[Si(ply)].pv, v, alpha0, beta, old(visits), visits)
        && (v <= alpha0 ==> stack[Si(ply)].pv == old(stack[Si(ply)].pv)) && (v < beta ==> best0 <= v)
      ensures v == -INF && !met ==> stopped && inCheck && rules.legal(pos) != {}
      ensures inCheck && rules.legal(pos) != {} && world(old(visits)).stops ==> stopped && v == -INF
      decreases MAX_PLY - ply, 0, 5
    {
      hide LegalLine, Spared, Worker.Valid, Worker.At, Worker.Below, QLoopOk, Returned, IsDecisive, Traced;
      StackLength(ply);
      ghost var legal := rules.legal(pos);
      var q := QAll(ply, alpha0, beta, inCheck, best0, futilityBase);
      SamePosition(old(At()));
      v := QFinal(ply, q, alpha0, beta, inCheck, legal);
      if pvNode && !stopped {
        QTracedEnds(ply, pos, old(stack[Si(ply)].pv), stack[Si(ply)].pv, q, v, alpha0, beta, inCheck, legal, met,
                    old(visits), visits);
      }
    }

    /** Until a move raises alpha the line stays, and then it is the line of the best value. */
    ghost predicate QTraced(
      ply: nat, p: Position, line0: seq<Move>, line: seq<Move>, best: int, start: int, beta: int, from: nat, to: nat
    ) {
      from <= to && Traced(ply, p, line, best, start, beta, from, to) && (best <= start ==> line == line0)
    }

    lemma QTracedEnds(
      ply: nat, p: Position, line0: seq<Move>, line: seq<Move>, q: QLoop, v: int, start: int, beta: int,
      inCheck: bool, legal: set<Move>, letOff: bool, from: nat, to: nat
    )
      requires QTraced(ply, p, line0, line, q.best, start, beta, from, to) && start < beta && ply <= MAX_PLY
      requires QLoopOk(ply, q, start, beta, true, inCheck, legal, false, letOff)
      requires if inCheck && q.moveCount == 0 then v == MatedIn(ply) else if q.best < beta then v == q.best
               else v >= beta
      ensures Traced(ply, p, line, v, start, beta, from, to) && (v <= start ==> line == line0)
      ensures v < beta ==> q.best <= v || v == MatedIn(ply)
    {
      hide Traced;
      if (inCheck && q.moveCount == 0) || v >= beta {
        NotInside(ply, p, line, v, start, beta, from, to);
      }
    }

    /** The loop itself. */
    method QAll(ply: nat, alpha0: int, beta: int, inCheck: bool, best0: int, futilityBase: int) returns (q: QLoop)
      requires Valid(ply) && ply < MAX_PLY && Window(alpha0, beta, pvNode) && !stopped
      requires inCheck == rules.inCheck(pos) && if inCheck then best0 == -INF else !IsDecisive(best0)
      requires best0 <= alpha0 && (pvNode ==> LegalLine(rules, pos, stack[Si(ply)].pv))
      modifies this`pos, this`line, this`script, this`accDepth, this`stopped, this`visits, this`met, this`wrote, stack
      ensures Kept(ply, Below(ply, pvNode))
      ensures q.over && QLoopOk(ply, q, alpha0, beta, pvNode, inCheck, rules.legal(old(pos)), stopped, met)
      ensures pvNode && !stopped ==> LegalLine(rules, pos, stack[Si(ply)].pv)
      ensures best0 <= q.best
      ensures pvNode && !stopped ==>
        QTraced(ply, pos, old(stack[Si(ply)].pv), stack[Si(ply)].pv, q.best, alpha0, beta, old(visits), visits)
      ensures inCheck && rules.legal(old(pos)) != {} && world(old(visits)).stops ==> stopped && q.best == -INF
      decreases MAX_PLY - ply, 0, 4
    {
      assert stack.Length == STACK_LEN;
      hide LegalLine, Spared, Worker.Valid, Worker.At, Worker.Below, QLoopOk, Answer, IsDecisive, Traced;
      SparedRefl(stack[..], Below(ply, pvNode));
      ghost var a, legal := stack[..], rules.legal(pos);
      QLoopStarts(ply, alpha0, beta, pvNode, inCheck, best0, legal, met);
      var planes := Planes(ply);
      q := QLoop(alpha0, best0, 0, {}, false);
      NotInside(ply, pos, stack[Si(ply)].pv, best0, alpha0, beta, visits, visits);
      while !q.over
        invariant Kept(ply, Below(ply, pvNode))
        invariant QLoopOk(ply, q, alpha0, beta, pvNode, inCheck, legal, stopped, met)
        invariant pvNode && !stopped ==> LegalLine(rules, pos, stack[Si(ply)].pv)
        invariant best0 <= q.best
        invariant pvNode && !stopped ==>
          QTraced(ply, pos, old(stack[Si(ply)].pv), stack[Si(ply)].pv, q.best, alpha0, beta, old(visits), visits)
        invariant inCheck && legal != {} && world(old(visits)).stops ==>
          if q.over then stopped && q.best == -INF else q.yielded == {} && q.best == -INF && visits == old(visits)
        decreases !q.over, legal - q.yielded
      {
        SamePosition(old(At()));
        ghost var b := stack[..];
        q := QNext(ply, q, beta, inCheck, futilityBase, alpha0, old(stack[Si(ply)].pv), old(visits));
        SparedTrans(a, b, stack[..], Below(ply, pvNode), Below(ply, pvNode));
      }
    }

    /** The next move of the picker, or the end of the loop. */
    method QNext(ply: nat, q0: QLoop, beta: int, inCheck: bool, futilityBase: int, ghost start: int,
                 ghost line0: seq<Move>, ghost from: nat) returns (q: QLoop)
      requires Valid(ply) && ply < MAX_PLY && !q0.over
      requires QLoopOk(ply, q0, start, beta, pvNode, inCheck, rules.legal(pos), stopped, met)
      requires pvNode ==> LegalLine(rules, pos, stack[Si(ply)].pv)
      requires pvNode ==> QTraced(ply, pos, line0, stack[Si(ply)].pv, q0.best, start, beta, from, visits)
      modifies this`pos, this`line, this`script, this`accDepth, this`stopped, this`visits, this`met, this`wrote, stack
      ensures Kept(ply, Below(ply, pvNode)) && q0.best <= q.best
      ensures !stopped && pvNode ==> QTraced(ply, pos, line0, stack[Si(ply)].pv, q.best, start, beta, from, visits)
      ensures QLoopOk(ply, q, start, beta, pvNode, inCheck, rules.legal(old(pos)), stopped, met)
      ensures !stopped && pvNode ==> LegalLine(rules, pos, stack[Si(ply)].pv)
      ensures !q.over ==> rules.legal(old(pos)) - q.yielded < rules.legal(old(pos)) - q0.yielded
      ensures inCheck && q0.yielded == {} && q0.best == -INF && rules.legal(old(pos)) != {} ==>
        world(old(visits)).stops ==> stopped && q.over && q.best == -INF
      decreases MAX_PLY - ply, 0, 3
    {
      hide LegalLine, Worker.Valid, Worker.At, Traced;
      ghost var legal := rules.legal(pos);
      SparedRefl(stack[..], Below(ply, pvNode));
      var m := Pick(q0.yielded, inCheck);
      if m.None? {
        return q0.(over := true);
      }
      hide Spared, Steady;
      var yielded := q0.yielded + {m.value};
      assert m.value in legal - q0.yielded && m.value !in legal - yielded;
      var alpha, best, cut := QVisit(ply, q0.alpha, beta, q0.best, m.value, q0.moveCount + 1, futilityBase, start,
                                     line0, from);
      q := QLoop(alpha, best, q0.moveCount + 1, yielded, cut || stopped);
    }

    /** After the loop: nothing is weighed or stored once stopped, a check without a move is
        mate, and a fail high is softened.  Then the bound goes into the table. */
    method QFinal(ply: nat, q: QLoop, ghost start: int, beta: int, inCheck: bool, ghost legal: set<Move>)
      returns (v: int)
      requires ply <= MAX_PLY && -INF <= start && q.over
      requires QLoopOk(ply, q, start, beta, pvNode, inCheck, legal, stopped, met)
      modifies this`wrote
      ensures !met ==> wrote == old(wrote)
      ensures Returned(ply, start, beta, v, pvNode && !stopped, met || v == -INF)
      ensures v == -INF && !met ==> stopped && inCheck && legal != {}
      ensures stopped ==> v == q.best
      ensures !stopped && !(inCheck && q.moveCount == 0) ==> if q.best < beta then v == q.best else v >= beta
      ensures !stopped && inCheck && q.moveCount == 0 ==> v == MatedIn(ply)
    {
      var best := q.best;
      v := best;
      if stopped {
        return;
      }
      if inCheck && q.moveCount == 0 {
        return NoMove(ply, legal);
      }
      if best > beta {
        MeanBetween(beta, best, 1);
      }
      v := Softened(best, beta);
      if !met {
        AnswerStorable(ply, start, beta, v);
      }
      var _ := StoreValue(if v >= beta then Lower else Upper, v, ply, beta, false, true);
    }

    /** A move passed over, or searched and weighed. */
    method QVisit(ply: nat, alpha0: int, beta: int, best0: int, m: Move, moveCount: nat, futilityBase: int,
                  ghost start: int, ghost line0: seq<Move>, ghost from: nat)
      returns (alpha: int, best: int, cut: bool)
      requires Valid(ply) && ply < MAX_PLY && Window(alpha0, beta, pvNode) && m in rules.legal(pos) && !stopped
      requires -INF <= best0 < INF && alpha0 == Max(start, best0) && (met || Steady(ply, start, beta, alpha0, best0))
      requires pvNode ==> LegalLine(rules, pos, stack[Si(ply)].pv)
      requires pvNode ==> QTraced(ply, pos, line0, stack[Si(ply)].pv, best0, start, beta, from, visits)
      modifies this`pos, this`line, this`script, this`accDepth, this`stopped, this`visits, this`met, this`wrote, stack
      ensures Kept(ply, Below(ply, pvNode))
      ensures pvNode && !stopped ==> LegalLine(rules, pos, stack[Si(ply)].pv)
      ensures pvNode && !stopped ==> QTraced(ply, pos, line0, stack[Si(ply)].pv, best, start, beta, from, visits)
      ensures QWeighed(ply, start, beta, alpha, best0, best, cut)
      ensures best0 == -INF && world(old(visits)).stops ==> stopped && best == -INF
      decreases MAX_PLY - ply, 0, 2
    {
      hide LegalLine, Worker.Valid, Worker.At, Traced;
      StackLength(ply);
      alpha, best, cut := alpha0, best0, false;
      if !IsLoss(best) {
        var pruned: bool;
        pruned, best := QPrune(best, alpha, moveCount, futilityBase);
        if pruned {
          SparedRefl(stack[..], Below(ply, pvNode));
          if best > best0 {
            NotInside(ply, pos, stack[Si(ply)].pv, best, start, beta, from, visits);
          }
          return;
        }
      }
      hide Spared, Steady;
      alpha, best, cut := QOne(ply, alpha, beta, best, m, start, line0, from);
    }

    /** The loop after a move: alpha and the best value have only gone up to answers. */
    ghost predicate QWeighed(ply: nat, start: int, beta: int, alpha: int, best0: int, best: int, cut: bool)
      reads this`pvNode, this`stopped, this`met
    {
      && Window(alpha, beta, pvNode) && best0 <= best <= WORD
      && (met || Steady(ply, start, beta, alpha, best))
      && (!cut && !stopped ==> best < INF && alpha == Max(start, best))
      && (pvNode || !met ==> best < INF && (best == -INF ==> stopped))
    }

    /** A move searched and, unless the search is stopped, weighed. */
    method QOne(ply: nat, alpha0: int, beta: int, best0: int, m: Move, ghost start: int, ghost line0: seq<Move>,
                ghost from: nat)
      returns (alpha: int, best: int, cut: bool)
      requires Valid(ply) && ply < MAX_PLY && Window(alpha0, beta, pvNode) && m in rules.legal(pos) && !stopped
      requires -INF <= best0 < INF && alpha0 == Max(start, best0) && (met || Steady(ply, start, beta, alpha0, best0))
      requires pvNode ==> LegalLine(rules, pos, stack[Si(ply)].pv)
      requires pvNode ==> QTraced(ply, pos, line0, stack[Si(ply)].pv, best0, start, beta, from, visits)
      modifies this`pos, this`line, this`script, this`accDepth, this`stopped, this`visits, this`met, this`wrote, stack
      ensures Kept(ply, Below(ply, pvNode))
      ensures pvNode && !stopped ==> LegalLine(rules, pos, stack[Si(ply)].pv)
      ensures pvNode && !stopped ==> QTraced(ply, pos, line0, stack[Si(ply)].pv, best, start, beta, from, visits)
      ensures QWeighed(ply, start, beta, alpha, best0, best, cut)
      ensures world(old(visits)).stops ==> stopped && best == best0
      decreases MAX_PLY - ply, 0, 1
    {
      hide LegalLine, Spared, Worker.Valid, DoMove, Traced;
      StackLength(ply);
      alpha, best, cut := alpha0, best0, false;
      ghost var a, was := stack[..], visits;
      var value := QTry(ply, alpha, beta, m);
      ghost var b := stack[..];
      LineSpared(ply, pvNode, a, b);
      if !stopped {
        SamePosition(old(At()));
        if !met {
          SteadyNext(ply, start, beta, alpha, best, value);
        }
        ghost var child := stack[Si(ply) + 1].pv;
        alpha, best, cut := QAccept(ply, alpha, beta, best, m, value);
        if pvNode {
          QTracedNext(ply, pos, line0, a[Si(ply)].pv, stack[Si(ply)].pv, child, m, best0, value, alpha0, start, beta,
                      from, was, visits);
        }
        SparedTrans(a, b, stack[..], Below(ply, pvNode), Below(ply, pvNode));
      }
    }

    lemma QTracedNext(
      ply: nat, p: Position, line0: seq<Move>, line: seq<Move>, line': seq<Move>, child: seq<Move>, m: Move,
      best: int, value: int, alpha: int, start: int, beta: int, from: nat, mid: nat, to: nat
    )
      requires QTraced(ply, p, line0, line, best, start, beta, from, mid) && mid <= to && alpha == Max(start, best)
      requires Traced(ply + 1, DoMove(p, m), child, -value, -beta, -alpha, mid, to)
      requires line' == if value > best && value > alpha then [m] + child else line
      ensures QTraced(ply, p, line0, line', Max(best, value), start, beta, from, to)
    {
      hide Traced, DoMove;
      if value > alpha {
        TracedAbove(ply, p, m, child, value, alpha, beta, mid, to);
        TracedWider(ply, p, line', value, alpha, beta, mid, to, start, beta, from, to);
      } else if value > best {
        NotInside(ply, p, line', value, start, beta, from, to);
      } else {
        TracedWider(ply, p, line, best, start, beta, from, mid, start, beta, from, to);
      }
    }

    lemma LineSpared(ply: nat, pv: bool, a: seq<StackCell>, b: seq<StackCell>)
      requires Spared(a, b, Below(ply + 1, pv)) && |a| == STACK_LEN && ply < MAX_PLY
      ensures Spared(a, b, Below(ply, pv)) && b[Si(ply)].pv == a[Si(ply)].pv
    {}

    /** What the value of a searched move does to the window and to the line. */
    method QAccept(ply: nat, alpha0: int, beta: int, best0: int, m: Move, value: int)
      returns (alpha: int, best: int, cut: bool)
      requires Valid(ply) && ply < MAX_PLY && Window(alpha0, beta, pvNode) && m in rules.legal(pos)
      requires pvNode ==> LegalLine(rules, DoMove(pos, m), stack[Si(ply) + 1].pv)
      requires pvNode ==> LegalLine(rules, pos, stack[Si(ply)].pv)
      modifies stack
      ensures Spared(old(stack[..]), stack[..], Below(ply, pvNode))
      ensures pvNode ==> LegalLine(rules, pos, stack[Si(ply)].pv)
      ensures Window(alpha, beta, pvNode)
      ensures best == Max(best0, value) && (cut <==> value > best0 && value >= beta)
      ensures alpha == if value > best0 && alpha0 < value < beta then value else alpha0
      ensures stack[Si(ply)].pv ==
        if pvNode && value > best0 && value > alpha0 then [m] + old(stack[Si(ply) + 1].pv) else old(stack[Si(ply)].pv)
    {
      hide Ready, LegalLine, DoMove;
      alpha, best, cut := alpha0, best0, false;
      if value > best {
        best := value;
        if value > alpha {
          if pvNode {
            UpdatePv(ply, m);
          }
          if value >= beta {
            return alpha, best, true;
          }
          alpha := value;
        }
      }
    }

    /** Futility pruning, and skipping quiets and bad exchanges. */
    method QPrune(best0: int, alpha: int, moveCount: nat, futilityBase: int) returns (pruned: bool, best: int)
      ensures best0 <= best <= Max(best0, alpha) && (!pruned ==> best == best0)
    {
      var quietEnough: bool, losing: bool, skipped: bool := *, *, *;
      var pass := if skipped then Skipped else Tried;
      if quietEnough && !IsLoss(futilityBase) {
        var victim := Any(0, MATE);
        if moveCount > 2 {
          pass := TooLate;
        } else if futilityBase + victim <= alpha {
          pass := Hopeless(victim);
        } else if losing {
          pass := Losing;
        }
      }
      pruned, best := !pass.Tried?, PassedOver(pass, best0, alpha, futilityBase);
    }

    /** One move of a quiescence node, searched and taken back. */
    method QTry(ply: nat, alpha: int, beta: int, m: Move) returns (value: int)
      requires Valid(ply) && ply < MAX_PLY && Window(alpha, beta, pvNode) && m in rules.legal(pos)
      modifies this`pos, this`line, this`script, this`accDepth, this`stopped, this`visits, this`met, this`wrote, stack
      ensures Kept(ply, Below(ply + 1, pvNode))
      ensures Returned(ply, alpha, beta, value, pvNode && !stopped, met || stopped)
      ensures pvNode && !stopped ==> LegalLine(rules, DoMove(pos, m), stack[Si(ply) + 1].pv)
      ensures pvNode && !stopped ==>
        Traced(ply + 1, DoMove(pos, m), stack[Si(ply) + 1].pv, -value, -beta, -alpha, old(visits), visits)
      ensures world(old(visits)).stops ==> stopped
      decreases MAX_PLY - ply, 0, 0
    {
      hide Ready, LegalLine, DoMove, Captured, Spared, Played, Worker.Valid, Worker.At, Returned, Traced;
      ReadyHere(ply);
      ghost var before, a := At(), stack[..];
      var captured := Make(ply, m);
      MarkPlane(ply);
      ghost var b := stack[..];
      NextPosition(before, m);
      value := QSearch(ply + 1, -beta, -alpha);
      NextPosition(before, m);
      Negated(ply, -beta, -alpha, value, pvNode && !stopped, met || value == -INF);
      value := -value;
      StillLetOff(ply, alpha, beta, value, pvNode && !stopped, met || value == INF, met || stopped);
      SparedTrans(a, b, stack[..], Below(ply + 1, pvNode), Below(ply + 1, pvNode));
      Unmake(ply, m, captured, before);
      SamePosition(before);
    }

    // ----- the search proper -----

    /** A call below the root. */
    method Sub(ply: nat, alpha: int, beta: int, depth: int, cutNode: bool, pv: bool) returns (v: int)
      requires Valid(ply) && Callable(alpha, beta, pv, depth) && !(pv && cutNode)
      requires pv ==> stack[Si(ply)].pv == []
      modifies this`pos, this`line, this`script, this`accDepth, this`stopped, this`visits, this`met, this`wrote
      modifies this`late, this`pvNode, this`nmpMinPly, stack
      ensures Kept(ply, Below(ply, pv))
      ensures Returned(ply, alpha, beta, v, pv && !stopped, met || (stopped && depth <= 0 && v == -INF))
      ensures pv && !stopped ==> Led(ply, pos, stack[Si(ply)].pv, v, alpha, beta, old(visits), visits)
      ensures depth > 0 && old(stopped) && world(old(visits)).repetition.NoRepetition? ==>
        DrawLike(v)
      decreases MAX_PLY - ply, Max(depth, 0), 17
    {
      hide Spared, Led;
      var rms: Option<seq<RootMove>>;
      v, rms := Search(ply, alpha, beta, depth, cutNode, pv, None);
    }

    /** The shared body. `rms0` is given at the root alone. */
    method Search(ply: nat, alpha0: int, beta0: int, depth0: int, cutNode: bool, pv: bool, rms0: Option<seq<RootMove>>)
      returns (v: int, rms: Option<seq<RootMove>>)
      requires Valid(ply) && Callable(alpha0, beta0, pv, depth0) && !(pv && cutNode)
      requires pv && rms0.None? ==> stack[Si(ply)].pv == []
      requires rms0.Some? ==>
        && pv && ply == 0 && pos == root && depth0 > 0 && -INF <= alpha0 && stack[Si(ply)].excluded.None?
        && pvIdx < |rms0.value| && RootOk(rules, root, rms0.value)
      modifies this`pos, this`line, this`script, this`accDepth, this`stopped, this`visits, this`met, this`wrote
      modifies this`late, this`pvNode, this`nmpMinPly, stack
      ensures Kept(ply, Below(ply, pv)) && RootsKept(rms0, rms)
      ensures RootFound(true, rms, alpha0, beta0, v, old(visits))
      ensures Returned(ply, alpha0, beta0, v, pv && !stopped, met || (stopped && depth0 <= 0 && v == -INF))
      ensures pv && rms0.None? && !stopped ==> Led(ply, pos, stack[Si(ply)].pv, v, alpha0, beta0, old(visits), visits)
      ensures rms0.None? && depth0 > 0 && old(stopped) && world(old(visits)).repetition.NoRepetition? ==>
        DrawLike(v)
      decreases MAX_PLY - ply, Max(depth0, 0), 16
    {
      hide Spared, Worker.Valid, Worker.At, RootOk, Led, StaticAt;
      StackLength(ply);
      rms := rms0;
      SparedRefl(stack[..], Below(ply, pv));
      if depth0 <= 0 {
        pvNode := pv;
        v := QSearch(ply, alpha0, beta0);
        return;
      }
      var depth, alpha, beta := Min(depth0, MAX_PLY - 1), alpha0, beta0;
      var seen := CheckTime();
      if rms0.None? {
        var settled;
        settled, v := Over(ply, seen);
        if settled {
          if pv && !stopped {
            LedHere(ply, pos, v, alpha0, beta0, old(visits), old(visits), visits);
          }
          return;
        }
        alpha := Max(MatedIn(ply), alpha);
        beta := Min(MateIn(ply + 1), beta);
        NarrowedBounds(ply, alpha0, beta0);
        if alpha >= beta {
          LedNowhere(ply, pos, alpha, alpha0, beta0, old(visits), visits);
          return alpha, rms;
        }
      }
      ghost var k := visits;
      v, rms := SearchNode(ply, alpha, beta, depth, cutNode, pv, rms0, seen, depth0);
      if rms0.Some? {
        FoundEarlier(rms, alpha, beta, v, k, old(visits));
      } else if pv && !stopped {
        NarrowedWider(ply, pos, stack[Si(ply)].pv, v, alpha0, beta0, k, old(visits), visits);
      }
      if rms0.None? && !met {
        NarrowedAnswer(ply, alpha0, beta0, v);
      }
    }

    lemma FoundEarlier(rms: Option<seq<RootMove>>, alpha: int, beta: int, v: int, k: nat, from: nat)
      requires RootFound(true, rms, alpha, beta, v, k) && from <= k
      ensures RootFound(true, rms, alpha, beta, v, from)
    {
      hide LinesOf, BestScore;
      if rms.Some? && LinesOf(rms.value, v, RootWindow(pvIdx, alpha, beta, pos, k), visits) {
        LinesEarlier(rms.value, v, RootWindow(pvIdx, alpha, beta, pos, k), from, visits);
      }
    }

    /** Between the mate bounds the narrowed window cuts nothing off. */
    lemma NarrowedWider(
      ply: nat, p: Position, line: seq<Move>, v: int, alpha: int, beta: int, k: nat, from: nat, to: nat
    )
      requires ply < MAX_PLY && from <= k
      requires Led(ply, p, line, v, Max(MatedIn(ply), alpha), Min(MateIn(ply + 1), beta), k, to)
      ensures Led(ply, p, line, v, alpha, beta, from, to)
    {
      TracedWider(ply, p, line, v, Max(MatedIn(ply), alpha), Min(MateIn(ply + 1), beta), k, to, alpha, beta, from, to);
      hide Traced, LegalLine;
    }

    /** A node below the root that is over by repetition, by a stop or by its length. */
    method Over(ply: nat, seen: Visit) returns (settled: bool, v: int)
      requires Valid(ply)
      ensures settled ==> forall alpha, beta, p, f :: alpha < beta ==> Returned(ply, alpha, beta, v, p, f)
      ensures !settled ==> !stopped && ply < MAX_PLY
      ensures settled && !stopped && !IsDecisive(v) && visits > 0 && seen == world(visits - 1) ==>
        StaticAt(visits - 1, pos, ply, v)
      ensures stopped && seen.repetition.NoRepetition? ==> DrawLike(v)
    {
      settled := true;
      if !seen.repetition.NoRepetition? {
        v := RepetitionScore(seen.repetition, ply);
      } else if stopped || ply >= MAX_PLY || seen.tooLong {
        v := DrawScore();
      } else {
        settled, v := false, 0;
      }
    }

    /** When mate-distance pruning closes the window, its alpha is the answer. */
    lemma NarrowedBounds(ply: nat, alpha: int, beta: int)
      requires ply < MAX_PLY && alpha < beta <= INF
      ensures Max(MatedIn(ply), alpha) >= Min(MateIn(ply + 1), beta) ==>
        Returned(ply, alpha, beta, Max(MatedIn(ply), alpha), true, false)
    {}

    /** A node past the draw checks: probe, prune, search the moves. */
    method SearchNode(ply: nat, alpha: int, beta: int, depth0: int, cutNode: bool, pv: bool,
                      rms0: Option<seq<RootMove>>, seen: Visit, ghost d: int)
      returns (v: int, rms: Option<seq<RootMove>>)
      requires Valid(ply) && ply < MAX_PLY && Window(alpha, beta, pv) && !(pv && cutNode)
      requires 1 <= depth0 <= MAX_PLY - 1 && depth0 <= d
      requires rms0.None? ==> !stopped && MatedIn(ply) <= alpha && beta <= MateIn(ply + 1)
      requires pv && rms0.None? ==> stack[Si(ply)].pv == []
      requires rms0.Some? ==>
        && pv && ply == 0 && pos == root && stack[Si(ply)].excluded.None?
        && pvIdx < |rms0.value| && RootOk(rules, root, rms0.value)
      modifies this`pos, this`line, this`script, this`accDepth, this`stopped, this`visits, this`met, this`wrote
      modifies this`late, this`pvNode, this`nmpMinPly, stack
      ensures Kept(ply, Below(ply, pv)) && RootsKept(rms0, rms)
      ensures RootFound(true, rms, alpha, beta, v, old(visits))
      ensures Returned(ply, alpha, beta, v, pv && !stopped, met)
      ensures pv && rms0.None? && !stopped ==> Led(ply, pos, stack[Si(ply)].pv, v, alpha, beta, old(visits), visits)
      decreases MAX_PLY - ply, d, 15
    {
      hide Spared, Worker.Valid, Worker.At, RootOk, Returned, Led;
      StackLength(ply);
      ghost var a := stack[..];
      var n := Prepare(ply, cutNode, pv, rms0, seen);
      ghost var b := stack[..];
      SparedTrans(a, b, b, Below(ply, pv), STACK_LEN);
      LinesSpared(ply, pv, a, b);
      v, rms := SearchPrepared(n, alpha, beta, depth0, rms0, d);
      SparedTrans(a, b, stack[..], Below(ply, pv), Below(ply, pv));
    }

    method SearchPrepared(n: Node, alpha: int, beta: int, depth0: int, rms0: Option<seq<RootMove>>, ghost d: int)
      returns (v: int, rms: Option<seq<RootMove>>)
      requires Valid(n.ply) && n.ply < MAX_PLY && Window(alpha, beta, n.pv) && !(n.pv && n.cutNode)
      requires 1 <= depth0 <= MAX_PLY - 1 && depth0 <= d && (n.rootNode || !stopped)
      requires n.inCheck == rules.inCheck(pos) && n.excluded == stack[Si(n.ply)].excluded
      requires (met || n.entry.WithinMate()) && n.ttValue == n.entry.ValueAt(n.ply)
      requires n.pv && !n.rootNode ==> stack[Si(n.ply)].pv == []
      requires Narrowed(n, alpha, beta) && RootReady(n, rms0)
      modifies this`pos, this`line, this`script, this`accDepth, this`stopped, this`visits, this`met, this`wrote
      modifies this`late, this`pvNode, this`nmpMinPly, stack
      ensures Kept(n.ply, Below(n.ply, n.pv)) && RootsKept(rms0, rms)
      ensures RootFound(n.rootNode, rms, alpha, beta, v, old(visits))
      ensures Returned(n.ply, alpha, beta, v, n.pv && !stopped, met)
      ensures n.pv && !n.rootNode && !stopped ==>
        Led(n.ply, pos, stack[Si(n.ply)].pv, v, alpha, beta, old(visits), visits)
      decreases MAX_PLY - n.ply, d, 14
    {
      hide Spared, Worker.Valid, Worker.At, RootOk, Returned, Led;
      StackLength(n.ply);
      rms := rms0;
      SparedRefl(stack[..], Below(n.ply, n.pv));
      var done;
      done, v := Settle(n, alpha, beta, depth0);
      if done {
        if n.pv {
          LedNowhere(n.ply, pos, v, alpha, beta, visits, visits);
        }
      } else {
        v, rms := SearchOpen(n, alpha, beta, depth0, rms0, d);
      }
    }

    /** The table's value comes from deep enough, one ply deeper if it is above beta, lies on
        the side its bound vouches for, and is what the node expects, or the depth is not small. */
    predicate TableSettles(n: Node, beta: int, depth: int) {
      && !n.pv && n.excluded.None? && n.ttValue != NONE
      && (if n.ttValue >= beta then n.entry.bound.Exact? || n.entry.bound.Lower?
          else n.entry.bound.Exact? || n.entry.bound.Upper?)
      && (if n.ttValue > beta then n.entry.depth > depth else n.entry.depth >= depth)
      && (depth > 5 || (n.cutNode <==> n.ttValue >= beta))
    }

    /** A node settled before any pruning: by the table, or by a mate in one or a declared
        win at hand. */
    method Settle(n: Node, alpha: int, beta: int, depth: int) returns (done: bool, v: int)
      requires n.ply < MAX_PLY && Window(alpha, beta, n.pv) && (n.rootNode || !stopped) && (n.rootNode ==> n.pv)
      requires (met || n.entry.WithinMate()) && n.ttValue == n.entry.ValueAt(n.ply)
      modifies this`wrote
      ensures wrote == old(wrote)
      ensures done && n.rootNode ==> rules.declares(pos)
      ensures done && n.pv ==> IsDecisive(v)
      ensures done ==> Returned(n.ply, alpha, beta, v, n.pv && !stopped, met)
      ensures TableSettles(n, beta, depth) ==> done && v == n.ttValue
      ensures done && !TableSettles(n, beta, depth) ==>
        && v == MateIn(n.ply + 1)
        && (if rules.declares(pos) && (n.pv || n.ttMove.None?) then true else !n.rootNode && !n.inCheck && !n.entry.hit)
    {
      if !n.pv && n.excluded.None? && n.entry.depth > depth - (if n.ttValue <= beta then 1 else 0) && n.ttValue != NONE
         && BoundMatches(n.entry.bound, n.ttValue >= beta) && (n.cutNode == (n.ttValue >= beta) || depth > 5) {
        if !met {
          StoredAnswers(n.entry.bound, n.entry.value, n.ply, alpha, beta);
        }
        return true, n.ttValue;
      }
      var mate := *;
      if !n.rootNode && !n.entry.hit && n.excluded.None? && !n.inCheck && mate {
        Store(Exact, MateIn(n.ply + 1), false);
        return true, MateIn(n.ply + 1);
      }
      done, v := (n.ttMove.None? || n.pv) && rules.declares(pos), MateIn(n.ply + 1);
    }

    /** A node that is not settled: prune, search the moves. */
    method SearchOpen(n: Node, alpha: int, beta: int, depth0: int, rms0: Option<seq<RootMove>>, ghost d: int)
      returns (v: int, rms: Option<seq<RootMove>>)
      requires Valid(n.ply) && n.ply < MAX_PLY && Window(alpha, beta, n.pv) && !(n.pv && n.cutNode)
      requires 1 <= depth0 <= MAX_PLY - 1 && depth0 <= d
      requires n.inCheck == rules.inCheck(pos) && n.excluded == stack[Si(n.ply)].excluded
      requires n.pv && !n.rootNode ==> stack[Si(n.ply)].pv == []
      requires Narrowed(n, alpha, beta) && RootReady(n, rms0)
      modifies this`pos, this`line, this`script, this`accDepth, this`stopped, this`visits, this`met, this`wrote
      modifies this`late, this`pvNode, this`nmpMinPly, stack
      ensures Kept(n.ply, Below(n.ply, n.pv)) && RootsKept(rms0, rms)
      ensures RootFound(n.rootNode, rms, alpha, beta, v, old(visits))
      ensures Returned(n.ply, alpha, beta, v, n.pv && !stopped, met)
      ensures n.pv && !n.rootNode && !stopped ==>
        Led(n.ply, pos, stack[Si(n.ply)].pv, v, alpha, beta, old(visits), visits)
      decreases MAX_PLY - n.ply, d, 13
    {
      assert stack.Length == STACK_LEN;
      hide Spared, Worker.Valid, RootOk, Led;
      rms := rms0;
      ghost var a := stack[..];
      var o := GoOn(depth0, false);
      if !n.inCheck {
        o := Prune(n, alpha, beta, depth0, d);
      } else {
        SparedRefl(a, STACK_LEN);
      }
      ghost var b := stack[..];
      SparedTrans(a, b, b, Below(n.ply, n.pv), STACK_LEN);
      LinesSpared(n.ply, n.pv, a, b);
      ghost var k := visits;
      NotBelow(n.ply, pos, alpha, beta, old(visits), k);
      if o.Return? {
        return o.value, rms;
      }
      // Small ProbCut.
      if BoundMatches(n.entry.bound, true) && n.entry.depth >= o.depth - 4 && n.ttValue >= beta + 416
         && !IsDecisive(beta) && n.ttValue != NONE && !IsDecisive(n.ttValue) {
        return beta + 416, rms;
      }
      v, rms := SearchMoves(n, alpha, beta, o.depth, o.improving, rms0, d);
      SparedTrans(a, b, stack[..], Below(n.ply, n.pv), Below(n.ply, n.pv));
      if n.rootNode {
        FoundEarlier(rms, alpha, beta, v, k, old(visits));
      } else if n.pv && !stopped {
        LedWider(n.ply, pos, stack[Si(n.ply)].pv, v, alpha, beta, k, visits, old(visits));
      }
    }

    /** Nothing at or above beta has to be traced. */
    lemma NotBelow(ply: nat, p: Position, alpha: int, beta: int, from: nat, to: nat)
      ensures forall v :: v >= beta ==> Led(ply, p, [], v, alpha, beta, from, to)
    {}

    /** Stack preparation and the table lookup. */
    method Prepare(ply: nat, cutNode: bool, pv: bool, rms: Option<seq<RootMove>>, seen: Visit) returns (n: Node)
      requires Valid(ply) && ply < MAX_PLY
      requires rms.Some? ==> pvIdx < |rms.value| && RootOk(rules, root, rms.value)
      modifies stack, this`met
      ensures Spared(old(stack[..]), stack[..], STACK_LEN)
      ensures (old(met) ==> met) && (met || n.entry.WithinMate())
      ensures n.ply == ply && n.cutNode == cutNode && n.pv == pv && n.rootNode == rms.Some?
      ensures n.excluded == stack[Si(ply)].excluded && n.priorReduction == old(stack[Si(ply) - 1].reduction)
      ensures n.inCheck == rules.inCheck(pos) && n.ttValue == n.entry.ValueAt(ply)
    {
      var s := Si(ply);
      var inCheck := rules.inCheck(pos);
      var prior := stack[s - 1].reduction;
      stack[s - 1] := stack[s - 1].(reduction := 0);
      stack[s + 2] := stack[s + 2].(cutoffs := 0);
      var e := Probe(seen);
      var ttMove := if rms.Some? then Some(rms.value[pvIdx].pv[0]) else if e.hit then e.move else None;
      var ttPv := if stack[s].excluded.Some? then stack[s].ttPv else pv || (e.hit && e.pv);
      stack[s] := stack[s].(moveCount := 0, ttPv := ttPv);
      n := Node(ply, cutNode, pv, rms.Some?, inCheck, stack[s].excluded, e, ttMove, e.ValueAt(ply), prior);
    }

    // ----- pruning before the moves -----

    /** Static evaluation, hindsight, razoring, futility, the null move, internal
        reductions and ProbCut, in this order. */
    method Prune(n: Node, alpha: int, beta: int, depth0: int, ghost d: int) returns (o: Outcome)
      requires Valid(n.ply) && n.ply < MAX_PLY && Window(alpha, beta, n.pv) && !(n.pv && n.cutNode)
      requires 1 <= depth0 <= MAX_PLY - 1 && depth0 <= d
      requires n.inCheck == rules.inCheck(pos) && !n.inCheck
      modifies this`pos, this`line, this`script, this`accDepth, this`stopped, this`visits, this`met, this`wrote
      modifies this`late, this`pvNode, this`nmpMinPly, stack
      ensures Kept(n.ply, STACK_LEN)
      ensures o.Return? ==> Returned(n.ply, alpha, beta, o.value, n.pv && !stopped, met)
      ensures o.Return? && n.pv ==> o.value >= beta
      ensures o.GoOn? ==> 1 <= o.depth <= MAX_PLY && o.depth <= d + 1
      decreases MAX_PLY - n.ply, d, 12
    {
      hide Spared, Worker.Valid;
      StackLength(n.ply);
      ghost var a := stack[..];
      var eval, staticEval := EvaluateNode(n);
      ghost var b := stack[..];
      var s := Si(n.ply);
      var improving := staticEval > stack[s - 2].staticEval;
      var worsening := staticEval > -stack[s - 1].staticEval;
      var depth := Hindsight(depth0, n.priorReduction, worsening, staticEval + stack[s - 1].staticEval);
      var done, v := Shallowly(n, alpha, beta, depth, eval);
      SparedTrans(a, b, stack[..], STACK_LEN, STACK_LEN);
      if done {
        return Return(v);
      }
      b := stack[..];
      o := PruneDeep(n, beta, depth, staticEval, improving, d);
      SparedTrans(a, b, stack[..], STACK_LEN, STACK_LEN);
    }

    /** Razoring and futility pruning. */
    method Shallowly(n: Node, alpha: int, beta: int, depth: int, eval: int) returns (done: bool, v: int)
      requires Valid(n.ply) && n.ply < MAX_PLY && Window(alpha, beta, n.pv) && !rules.inCheck(pos)
      modifies this`pos, this`line, this`script, this`accDepth, this`stopped, this`visits, this`met, this`wrote
      modifies this`late, this`pvNode, this`nmpMinPly, stack
      ensures Kept(n.ply, STACK_LEN)
      ensures done && n.pv ==> v >= beta
      ensures done ==> Returned(n.ply, alpha, beta, v, n.pv && !stopped, met)
      ensures !n.pv && eval < alpha - 502 - 306 * depth * depth ==> done
      ensures done && (n.pv || eval >= alpha - 502 - 306 * depth * depth) ==>
        && !old(stack[Si(n.ply)].ttPv) && depth < 15 && !IsLoss(beta) && !IsWin(eval) && beta <= v <= eval
      decreases MAX_PLY - n.ply, 0, 8
    {
      hide Spared, Worker.Valid;
      StackLength(n.ply);
      SparedRefl(stack[..], STACK_LEN);
      if !n.pv && eval < alpha - 502 - 306 * depth * depth {
        pvNode := false;
        v := QSearch(n.ply, alpha, beta);
        return true, v;
      }
      var futile := *;
      done, v := !stack[Si(n.ply)].ttPv && depth < 15 && eval >= beta && futile && !IsLoss(beta) && !IsWin(eval), eval;
      if done {
        ThirdBetween(beta, eval);
        v := TwinPicker.TruncDiv(2 * beta + eval, 3);
      }
    }

    /** The null move, internal reductions and ProbCut. */
    method PruneDeep(n: Node, beta: int, depth0: int, staticEval: int, improving: bool, ghost d: int)
      returns (o: Outcome)
      requires Valid(n.ply) && n.ply < MAX_PLY && -INF < beta <= INF && !(n.pv && n.cutNode)
      requires 1 <= depth0 <= MAX_PLY && depth0 <= d + 1 && 0 < d
      modifies this`pos, this`line, this`script, this`accDepth, this`stopped, this`visits, this`met, this`wrote
      modifies this`late, this`pvNode, this`nmpMinPly, stack
      ensures Kept(n.ply, STACK_LEN)
      ensures if o.Return? then beta <= o.value < WIN else 1 <= o.depth <= depth0
      decreases MAX_PLY - n.ply, d, 11
    {
      hide Spared, Worker.Valid;
      StackLength(n.ply);
      ghost var a := stack[..];
      ghost var verified;
      var done, v;
      done, v, verified := NullMove(n, beta, depth0, staticEval, improving, d);
      if done {
        return Return(v);
      }
      ghost var b := stack[..];
      var better := improving || stack[Si(n.ply)].staticEval >= beta;
      // Internal iterative reduction.
      var followPv := *;
      var depth := depth0;
      if !followPv && (n.pv || n.cutNode) && depth >= 6 && n.ttMove.None? && n.priorReduction <= 3 {
        depth := depth - 1;
      }
      done, v := ProbCut(n, beta, depth, better, d);
      SparedTrans(a, b, stack[..], STACK_LEN, STACK_LEN);
      o := if done then Return(v) else GoOn(depth, better);
    }

    lemma ThirdBetween(lo: int, hi: int)
      requires lo <= hi
      ensures lo <= TwinPicker.TruncDiv(2 * lo + hi, 3) <= hi
    {
      DivBetween(2 * lo + hi, 3, lo, hi);
    }

    /** One ply more after a large reduction, one less when both sides stand well. */
    method Hindsight(depth0: int, priorReduction: int, worsening: bool, sum: int) returns (depth: int)
      requires 1 <= depth0 <= MAX_PLY - 1
      ensures 1 <= depth <= depth0 + 1
      ensures priorReduction < 2 ==> depth == depth0
      ensures priorReduction >= 3 && !worsening ==> depth == if sum > 173 then depth0 else depth0 + 1
      ensures priorReduction == 2 || (priorReduction >= 3 && worsening) ==>
        depth == if depth0 >= 2 && sum > 173 then depth0 - 1 else depth0
    {
      depth := depth0;
      if priorReduction >= 3 && !worsening {
        depth := depth + 1;
      }
      if priorReduction >= 2 && depth >= 2 && sum > 173 {
        depth := depth - 1;
      }
    }

    method EvaluateNode(n: Node) returns (eval: int, staticEval: int)
      requires Valid(n.ply) && n.ply < MAX_PLY
      modifies stack, this`wrote
      ensures wrote == old(wrote)
      ensures Spared(old(stack[..]), stack[..], STACK_LEN)
    {
      var s := Si(n.ply);
      if n.excluded.Some? {
        staticEval := stack[s].staticEval;
        eval := staticEval;
      } else {
        staticEval := Evaluate(n.ply);
        eval := staticEval;
        if n.entry.hit && n.ttValue != NONE && BoundMatches(n.entry.bound, n.ttValue > eval) {
          eval := n.ttValue;
        }
        if !n.entry.hit {
          Store(NoBound, NONE, false);
        }
      }
      stack[s] := stack[s].(staticEval := staticEval);
    }

    /** The null move, and the search of the same node that verifies it at high depth. */
    method NullMove(n: Node, beta: int, depth: int, staticEval: int, improving: bool, ghost d: int)
      returns (done: bool, v: int, ghost verified: Option<int>)
      requires Valid(n.ply) && n.ply < MAX_PLY && -INF < beta <= INF && !(n.pv && n.cutNode)
      requires 1 <= depth <= MAX_PLY && depth <= d + 1
      modifies this`pos, this`line, this`script, this`accDepth, this`stopped, this`visits, this`met, this`wrote
      modifies this`late, this`pvNode, this`nmpMinPly, stack
      ensures Kept(n.ply, STACK_LEN)
      ensures done ==> beta <= v < WIN
      ensures done ==> n.cutNode && n.excluded.None? && n.ply >= old(nmpMinPly) && !IsLoss(beta)
      ensures done && old(nmpMinPly) == 0 && depth >= 16 ==> verified.Some? && verified.value >= beta
      decreases MAX_PLY - n.ply, d, 10
    {
      hide Spared, Worker.Valid;
      StackLength(n.ply);
      ghost var a := stack[..];
      SparedRefl(a, STACK_LEN);
      done, v, verified := false, 0, None;
      if !(n.cutNode && staticEval >= beta - 16 * depth - (if improving then 53 else 0) + 378
           && n.excluded.None? && n.ply >= nmpMinPly && !IsLoss(beta)) {
        return;
      }
      var r := 7 + depth / 3;
      var nullValue := TryNull(n.ply, beta, depth - r);
      if nullValue < beta || IsWin(nullValue) {
        return;
      }
      if nmpMinPly != 0 || depth < 16 {
        return true, nullValue, None;
      }
      ghost var b := stack[..];
      nmpMinPly := n.ply + 3 * (depth - r) / 4;
      assert nmpMinPly != 0;
      var again := Sub(n.ply, beta - 1, beta, depth - r, false, false);
      SparedTrans(a, b, stack[..], STACK_LEN, STACK_LEN);
      nmpMinPly := 0;
      verified := Some(again);
      if again >= beta {
        done, v := true, nullValue;
      }
    }

    /** Passing the turn and searching the reply. */
    method TryNull(ply: nat, beta: int, depth: int) returns (v: int)
      requires Valid(ply) && ply < MAX_PLY && -INF < beta <= INF
      modifies this`pos, this`line, this`script, this`accDepth, this`stopped, this`visits, this`met, this`wrote
      modifies this`late, this`pvNode, this`nmpMinPly, stack
      ensures Kept(ply, STACK_LEN)
      ensures Returned(ply, beta - 1, beta, v, false, met || (stopped && depth <= 0 && v == INF))
      decreases MAX_PLY - ply, 0, 0
    {
      hide Spared, Ready, DoNullMove, Returned;
      ghost var before, a := At(), stack[..];
      MarkPlane(ply);
      ghost var b := stack[..];
      PassTurn(ply);
      v := Sub(ply + 1, -beta, -beta + 1, depth, false, false);
      Negated(ply, -beta, -beta + 1, v, false, met || (stopped && depth <= 0 && v == -INF));
      v := -v;
      SparedTrans(a, b, stack[..], STACK_LEN, STACK_LEN);
      UnpassTurn(ply, before);
    }

    /** Captures that promise to beat a raised beta. */
    method ProbCut(n: Node, beta: int, depth: int, improving: bool, ghost d: int) returns (done: bool, v: int)
      requires Valid(n.ply) && n.ply < MAX_PLY && -INF < beta <= INF
      requires 1 <= depth <= MAX_PLY && 0 < d
      modifies this`pos, this`line, this`script, this`accDepth, this`stopped, this`visits, this`met, this`wrote
      modifies this`late, this`pvNode, this`nmpMinPly, stack
      ensures Kept(n.ply, STACK_LEN)
      ensures done ==> beta <= v < WIN
      ensures done ==> depth >= 3 && -WIN < beta < WIN
      ensures done && n.ttValue != NONE ==> n.ttValue >= if improving then beta + 163 else beta + 224
      decreases MAX_PLY - n.ply, d, 10
    {
      done, v := false, 0;
      SparedRefl(stack[..], STACK_LEN);
      var raised := beta + 224 - (if improving then 61 else 0);
      if depth >= 3 && !IsDecisive(beta) && !(n.ttValue != NONE && n.ttValue < raised) {
        done, v := ProbCutMoves(n, beta, raised, depth - 4);
      }
    }

    method ProbCutMoves(n: Node, beta: int, raised: int, depth: int) returns (done: bool, v: int)
      requires Valid(n.ply) && n.ply < MAX_PLY && -INF < beta <= raised <= INF
      modifies this`pos, this`line, this`script, this`accDepth, this`stopped, this`visits, this`met, this`wrote
      modifies this`late, this`pvNode, this`nmpMinPly, stack
      ensures Kept(n.ply, STACK_LEN)
      ensures done ==> beta <= v < WIN
      decreases MAX_PLY - n.ply, 0, 4
    {
      hide Spared, Worker.Valid, Worker.At;
      StackLength(n.ply);
      ghost var a := stack[..];
      SparedRefl(a, STACK_LEN);
      done, v := false, 0;
      var yielded: set<Move> := {};
      ghost var legal := rules.legal(pos);
      SamePosition(old(At()));
      while !done
        invariant Kept(n.ply, STACK_LEN)
        invariant yielded <= legal && (done ==> beta <= v < WIN)
        decreases !done, legal - yielded
      {
        SamePosition(old(At()));
        var m := Pick(yielded, false);
        if m.None? {
          return;
        }
        assert m.value in legal - yielded && m.value !in legal - (yielded + {m.value});
        yielded := yielded + {m.value};
        if m != n.excluded {
          ghost var b := stack[..];
          v := CaptureAndStore(n, raised, depth, m.value);
          SparedTrans(a, b, stack[..], STACK_LEN, STACK_LEN);
          done := v >= raised && !IsDecisive(v);
          v := v - (raised - beta);
        }
      }
    }

    /** The board is where it was. */
    lemma SamePosition(c: Core)
      requires At() == c
      ensures pos == c.pos
    {}

    /** The board is one move further. */
    lemma NextPosition(c: Core, m: Move)
      requires At() == Played(c, m)
      ensures pos == DoMove(c.pos, m)
    {
      hide DoMove;
    }

    lemma StackLength(ply: nat)
      requires Valid(ply)
      ensures stack.Length == STACK_LEN && At() == Core(pos, line, accDepth, root) && ply <= MAX_PLY
              && contempt < MAX_EVAL
    {
      hide Ready;
    }

    lemma ReadyHere(ply: nat)
      requires Valid(ply)
      ensures Ready(rules, At(), ply) && At().pos == pos && stack.Length == STACK_LEN
    {
      hide Ready;
    }

    /** A capture that beats the raised beta is stored, stop or no stop. */
    method CaptureAndStore(n: Node, raised: int, depth: int, m: Move) returns (v: int)
      requires Valid(n.ply) && n.ply < MAX_PLY && -INF < raised <= INF && m in rules.legal(pos)
      modifies this`pos, this`line, this`script, this`accDepth, this`stopped, this`visits, this`met, this`wrote
      modifies this`late, this`pvNode, this`nmpMinPly, stack
      ensures Kept(n.ply, STACK_LEN) && Small(v)
      ensures v >= raised && stopped ==> late
      ensures world(old(visits)).stops && world(old(visits) + 1).repetition.NoRepetition? ==> stopped && DrawLike(v)
      ensures MarkMay(old(pos), n.ply, raised, depth, m, world(old(visits))) ==>
        !old(stopped) && SecondStops(old(visits)) ==> stopped && v == INF && wrote
      decreases MAX_PLY - n.ply, 0, 3
    {
      hide Spared, Worker.Valid, Worker.At;
      StackLength(n.ply);
      v := TryCapture(n, raised, depth, m);
      if v >= raised {
        if !met && !(stopped && v == INF) {
          AnswerStorable(n.ply, raised - 1, raised, v);
        }
        var _ := StoreCapture(v, n.ply, raised);
      }
    }

    /** When some stop schedule brings back the mark of an unsearched check for a capture:
        the confirming search is off, and the capture gives a check that can be evaded, in a
        node that is neither drawn, nor too deep, nor answered by the table. */
    ghost predicate MarkMay(p: Position, ply: nat, raised: int, depth: int, m: Move, seen: Visit) {
      depth <= 0 && Evades(rules, DoMove(p, m), ply + 1, 1 - raised, false, seen)
    }

    /** Under every stop schedule INF comes back only so; and it does come back if the first
        check passes and the second stops.  If already the first one stops, the value is that
        of a draw. */
    method TryCapture(n: Node, raised: int, depth: int, m: Move) returns (v: int)
      requires Valid(n.ply) && n.ply < MAX_PLY && -INF < raised <= INF && m in rules.legal(pos)
      modifies this`pos, this`line, this`script, this`accDepth, this`stopped, this`visits, this`met, this`wrote
      modifies this`late, this`pvNode, this`nmpMinPly, stack
      ensures Kept(n.ply, STACK_LEN)
      ensures Returned(n.ply, raised - 1, raised, v, false, met || (stopped && v == INF))
      ensures v == INF && !met ==> stopped && !old(stopped) && !world(old(visits)).stops
                                   && MarkMay(old(pos), n.ply, raised, depth, m, world(old(visits)))
      ensures MarkMay(old(pos), n.ply, raised, depth, m, world(old(visits))) ==>
        !old(stopped) && SecondStops(old(visits)) ==> stopped && v == INF
      ensures world(old(visits)).stops && (depth <= 0 || raised > 0) ==> stopped && v == 0
      ensures world(old(visits)).stops && world(old(visits) + 1).repetition.NoRepetition? ==>
        stopped && DrawLike(v)
      decreases MAX_PLY - n.ply, 0, 2
    {
      hide Spared, Ready, DoMove, Captured;
      ghost var before, a := At(), stack[..];
      var captured := Make(n.ply, m);
      MarkPlane(n.ply);
      ghost var b := stack[..];
      v := ScoutCapture(n, raised, depth);
      SparedTrans(a, b, stack[..], STACK_LEN, STACK_LEN);
      Unmake(n.ply, m, captured, before);
    }

    /** First the quiescence search, and the deeper one to confirm it. */
    method ScoutCapture(n: Node, raised: int, depth: int) returns (v: int)
      requires Valid(n.ply + 1) && n.ply < MAX_PLY && -INF < raised <= INF
      modifies this`pos, this`line, this`script, this`accDepth, this`stopped, this`visits, this`met, this`wrote
      modifies this`late, this`pvNode, this`nmpMinPly, stack
      ensures Kept(n.ply + 1, STACK_LEN)
      ensures Returned(n.ply, raised - 1, raised, v, false, met || (stopped && v == INF))
      ensures v == INF && !met ==>
        && stopped && !old(stopped) && !world(old(visits)).stops && depth <= 0
        && Evades(rules, pos, n.ply + 1, 1 - raised, false, world(old(visits)))
      ensures depth <= 0 && Evades(rules, pos, n.ply + 1, 1 - raised, false, world(old(visits))) ==>
        !old(stopped) && SecondStops(old(visits)) ==> stopped && v == INF
      ensures world(old(visits)).stops && (depth <= 0 || raised > 0) ==> stopped && v == 0
      ensures world(old(visits)).stops && world(old(visits) + 1).repetition.NoRepetition? ==>
        stopped && DrawLike(v)
      decreases MAX_PLY - n.ply, 0, 1
    {
      hide Spared, Worker.Valid, Worker.At, Evades, Returned, Worker.DrawLike;
      StackLength(n.ply + 1);
      ghost var a := stack[..];
      v := QCapture(n.ply, raised);
      DrawBounds(v);
      if v >= raised && depth > 0 {
        ghost var b := stack[..];
        v := Sub(n.ply + 1, -raised, -raised + 1, depth, !n.cutNode, false);
        Negated(n.ply, -raised, -raised + 1, v, false, met);
        DrawBounds(v);
        v := -v;
        NoMark(n.ply, raised, v, met);
        SparedTrans(a, b, stack[..], STACK_LEN, STACK_LEN);
      }
    }

    /** The quiescence search of a capture, seen from the node above. */
    method QCapture(ply: nat, raised: int) returns (v: int)
      requires Valid(ply + 1) && ply < MAX_PLY && -INF < raised <= INF
      modifies this`pos, this`line, this`script, this`accDepth, this`stopped, this`visits, this`met, this`wrote
      modifies this`pvNode, stack
      ensures Kept(ply + 1, STACK_LEN)
      ensures Returned(ply, raised - 1, raised, v, false, met || v == INF)
      ensures old(stopped) || world(old(visits)).stops ==> stopped && v == 0 && visits == old(visits) + 1
      ensures v == INF && !met ==>
        && stopped && !old(stopped) && !world(old(visits)).stops
        && Evades(rules, pos, ply + 1, 1 - raised, false, world(old(visits)))
      ensures Evades(rules, pos, ply + 1, 1 - raised, false, world(old(visits))) ==>
        !old(stopped) && SecondStops(old(visits)) ==> stopped && v == INF
      decreases MAX_PLY - ply, 0, 0
    {
      hide Spared, Worker.Valid, Worker.At, Evades, Returned;
      pvNode := false;
      v := QSearch(ply + 1, -raised, -raised + 1);
      Negated(ply, -raised, -raised + 1, v, false, met || v == -INF);
      v := -v;
    }

    lemma DrawBounds(v: int)
      ensures DrawLike(v) <==> DrawLike(-v)
      ensures DrawLike(0)
    {}

    lemma NoMark(ply: nat, raised: int, v: int, letOff: bool)
      requires Returned(ply, raised - 1, raised, v, false, letOff)
      ensures letOff || v != INF
    {}

    // ----- the moves -----

    /** The move loop and what becomes of its result. */
    method SearchMoves(n: Node, alpha0: int, beta: int, depth0: int, improving: bool, rms0: Option<seq<RootMove>>,
                       ghost d: int)
      returns (v: int, rms: Option<seq<RootMove>>)
      requires Valid(n.ply) && n.ply < MAX_PLY && Window(alpha0, beta, n.pv) && !(n.pv && n.cutNode)
      requires 1 <= depth0 <= MAX_PLY && depth0 <= d + 1 && 0 < d
      requires n.excluded == stack[Si(n.ply)].excluded && Narrowed(n, alpha0, beta) && RootReady(n, rms0)
      requires n.pv && !n.rootNode ==> stack[Si(n.ply)].pv == []
      modifies this`pos, this`line, this`script, this`accDepth, this`stopped, this`visits, this`met, this`wrote
      modifies this`late, this`pvNode, this`nmpMinPly, stack
      ensures Kept(n.ply, Below(n.ply, n.pv)) && RootsKept(rms0, rms)
      ensures RootFound(n.rootNode, rms, alpha0, beta, v, old(visits))
      ensures Returned(n.ply, alpha0, beta, v, n.pv && !stopped, met)
      ensures n.pv && !n.rootNode && !stopped ==>
        Led(n.ply, pos, stack[Si(n.ply)].pv, v, alpha0, beta, old(visits), visits)
      decreases MAX_PLY - n.ply, d, 10
    {
      assert stack.Length == STACK_LEN;
      hide LegalLine, Spared, Worker.Valid, Worker.At, Worker.Below, RootOk, StepOk, RootAt, Returned, Narrowed, Window;
      hide Led, StepOnLine;
      ghost var a := stack[..];
      var step;
      ghost var yielded;
      step, yielded, rms := SearchAll(n, alpha0, beta, depth0, improving, rms0, d);
      ghost var b := stack[..];
      SamePosition(old(At()));
      v := Finish(n, step, alpha0, beta, yielded, d);
      RootEnds(n, step, rms, yielded, alpha0, beta, v, old(visits));
      if n.pv && !n.rootNode && !stopped {
        StepEnds(n, step, pos, stack[Si(n.ply)].pv, alpha0, beta, v, old(visits), visits);
      }
      SparedTrans(a, b, stack[..], Below(n.ply, n.pv), STACK_LEN);
    }

    lemma StepEnds(
      n: Node, step: Step, p: Position, line: seq<Move>, start: int, beta: int, v: int, from: nat, to: nat
    )
      requires StepOnLine(n, step, p, line, start, beta, from, to) && n.pv && !n.rootNode
      requires !step.Next? && n.ply <= MAX_PLY
      requires step.Leave? ==> v == step.value
      requires step.Break? && step.loop.moveCount > 0
               ==> if step.loop.best >= beta then v >= beta else v == step.loop.best
      requires step.Break? && step.loop.moveCount == 0 ==>
        step.loop.best == -INF <= start && (v == step.loop.alpha || v == MatedIn(n.ply))
      ensures Led(n.ply, p, line, v, start, beta, from, to)
    {
      hide Traced, LegalLine;
      if !(start < v < beta) || IsDecisive(v) {
        NotInside(n.ply, p, line, v, start, beta, from, to);
      }
    }

    lemma RootEnds(
      n: Node, step: Step, rms: Option<seq<RootMove>>, yielded: set<Move>, start: int, beta: int, v: int, from: nat
    )
      requires RootReady(n, rms) && !step.Next?
      requires RootAt(n, step, rms, yielded, rules.legal(pos), RootWindow(pvIdx, start, beta, pos, from), visits,
               stopped)
      requires step.Break? && step.loop.moveCount > 0
               ==> if step.loop.best >= beta then v >= beta else v == step.loop.best
      ensures RootFound(n.rootNode, rms, start, beta, v, from)
    {
      hide Traced;
      if n.rootNode && !stopped && start < v < beta && step.Break? {
        var l, w := step.loop, RootWindow(pvIdx, start, beta, pos, from);
        if rules.legal(pos) <= yielded && RootBetween(l, rms.value, yielded, w, visits) {
          RootScoresEnd(rules, root, rms.value, pvIdx, yielded, start, l.alpha, l.best, l.moveCount == 0);
          AllYielded(rms.value, yielded);
          hide RootScores, RootOk, BestScore;
        }
      }
    }

    lemma AllYielded(rms: seq<RootMove>, yielded: set<Move>)
      requires RootOk(rules, root, rms) && rules.legal(root) <= yielded
      ensures forall k :: 0 <= k < |rms| ==> rms[k].mv in yielded
    {
      forall k | 0 <= k < |rms|
        ensures rms[k].mv in yielded
      {
        assert rms[k].Ok(rules, root);
      }
    }

    /** The loop itself. */
    method SearchAll(n: Node, alpha0: int, beta: int, depth0: int, improving: bool, rms0: Option<seq<RootMove>>,
                     ghost d: int)
      returns (step: Step, ghost yielded: set<Move>, rms: Option<seq<RootMove>>)
      requires Valid(n.ply) && n.ply < MAX_PLY && Window(alpha0, beta, n.pv) && !(n.pv && n.cutNode)
      requires 1 <= depth0 <= MAX_PLY && depth0 <= d + 1 && 0 < d
      requires n.excluded == stack[Si(n.ply)].excluded && Narrowed(n, alpha0, beta) && RootReady(n, rms0)
      requires n.pv && !n.rootNode ==> stack[Si(n.ply)].pv == []
      modifies this`pos, this`line, this`script, this`accDepth, this`stopped, this`visits, this`met, this`wrote
      modifies this`late, this`pvNode, this`nmpMinPly, stack
      ensures Kept(n.ply, Below(n.ply, n.pv)) && RootsKept(rms0, rms)
      ensures !step.Next? && StepOk(n, step, beta, yielded, rules.legal(old(pos)), d, stopped, met)
      ensures RootAt(n, step, rms, yielded, rules.legal(old(pos)), RootWindow(pvIdx, alpha0, beta, pos, old(visits)),
                     visits, stopped)
      ensures !stopped ==> StepOnLine(n, step, pos, stack[Si(n.ply)].pv, alpha0, beta, old(visits), visits)
      decreases MAX_PLY - n.ply, d, 9
    {
      assert stack.Length == STACK_LEN;
      hide LegalLine, Spared, Worker.Valid, Worker.At, Worker.Below, RootOk, StepOk, RootAt, Returned, Narrowed;
      ghost var a, legal := stack[..], rules.legal(pos);
      SparedRefl(a, Below(n.ply, n.pv));
      var planes := Planes(n.ply);
      step := Next(Loop(alpha0, depth0, -INF, 0));
      rms := rms0;
      var had: set<Move> := {};
      LoopStarts(n, alpha0, beta, legal, depth0, d, stopped, met);
      RootStarts(n, depth0, rms, legal, RootWindow(pvIdx, alpha0, beta, pos, visits), visits, stopped);
      StartsOnLine(n, step.loop, pos, beta, visits);
      hide StepOnLine;
      while step.Next?
        invariant Kept(n.ply, Below(n.ply, n.pv)) && RootsKept(rms0, rms)
        invariant StepOk(n, step, beta, had, legal, d, stopped, met)
        invariant RootAt(n, step, rms, had, legal, RootWindow(pvIdx, alpha0, beta, pos, old(visits)), visits, stopped)
        invariant !stopped ==> StepOnLine(n, step, pos, stack[Si(n.ply)].pv, alpha0, beta, old(visits), visits)
        decreases step.Next?, legal - had
      {
        SamePosition(old(At()));
        ghost var b := stack[..];
        step, had, rms := SearchNext(n, step, beta, improving, had, rms, alpha0, old(visits), d);
        SparedTrans(a, b, stack[..], Below(n.ply, n.pv), Below(n.ply, n.pv));
      }
      yielded := had;
    }

    /** The next move of the picker, or the end of the loop. */
    method SearchNext(n: Node, step0: Step, beta: int, improving: bool, yielded0: set<Move>,
                      rms0: Option<seq<RootMove>>, ghost start: int, ghost from: nat, ghost d: int)
      returns (step: Step, yielded: set<Move>, rms: Option<seq<RootMove>>)
      requires Valid(n.ply) && n.ply < MAX_PLY && !(n.pv && n.cutNode) && 0 < d
      requires step0.Next? && StepOk(n, step0, beta, yielded0, rules.legal(pos), d, stopped, met)
      requires RootAt(n, step0, rms0, yielded0, rules.legal(pos), RootWindow(pvIdx, start, beta, pos, from), visits,
               stopped)
      requires n.rootNode ==> -INF <= start
      requires n.excluded == stack[Si(n.ply)].excluded && RootReady(n, rms0)
      requires from <= visits
               && (!stopped ==> StepOnLine(n, step0, pos, stack[Si(n.ply)].pv, start, beta, from, visits))
      modifies this`pos, this`line, this`script, this`accDepth, this`stopped, this`visits, this`met, this`wrote
      modifies this`late, this`pvNode, this`nmpMinPly, stack
      ensures Kept(n.ply, Below(n.ply, n.pv)) && RootsKept(rms0, rms)
      ensures !stopped ==> StepOnLine(n, step, pos, stack[Si(n.ply)].pv, start, beta, from, visits)
      ensures StepOk(n, step, beta, yielded, rules.legal(old(pos)), d, stopped, met)
      ensures RootAt(n, step, rms, yielded, rules.legal(old(pos)), RootWindow(pvIdx, start, beta, pos, from), visits,
              stopped)
      ensures step.Next? ==> rules.legal(old(pos)) - yielded < rules.legal(old(pos)) - yielded0
      decreases MAX_PLY - n.ply, d, 8
    {
      ghost var legal := rules.legal(pos);
      AtMostLegal(n.ply);
      SparedRefl(stack[..], Below(n.ply, n.pv));
      hide LegalLine, Spared, Worker.Valid, Worker.At, RootOk, Traced, Going;
      StackLength(n.ply);
      rms, yielded := rms0, yielded0;
      var l := step0.loop;
      if !stopped {
        StaysOnLine(n, l, pos, stack[Si(n.ply)].pv, start, beta, from, visits);
      }
      hide OnLine, StepOnLine;
      var m := Pick(yielded, n.rootNode || l.moveCount == 0);
      if m.None? {
        return Break(l), yielded, rms;
      }
      hide LoopAt, LoopOk, LoopRange, Returned, StepOk, RootAt, Visited;
      LoopVisits(n, l, beta, yielded, m.value, legal, d, stopped, met);
      yielded := yielded + {m.value};
      ghost var was, stopped0, met0, w := visits, stopped, met, RootWindow(pvIdx, start, beta, pos, from);
      DistinctAtRoot(n, rms);
      step, rms := SearchOne(n, l, beta, m.value, improving, rms, TtSeen(n, yielded0), start, from, d);
      SamePosition(old(At()));
      VisitedGoesOn(n, l, m.value, step, rms0, rms, yielded0, legal, w, d, was, visits, stopped0, met0, stopped, met);
    }

    lemma DistinctAtRoot(n: Node, rms: Option<seq<RootMove>>)
      requires RootReady(n, rms)
      ensures n.rootNode ==> DistinctMoves(rms.value)
    {}

    /** What becomes of the loop's result. */
    method Finish(n: Node, step: Step, alpha: int, beta: int, ghost yielded: set<Move>, ghost d: int) returns (v: int)
      requires Valid(n.ply) && n.ply < MAX_PLY && Window(alpha, beta, n.pv) && Narrowed(n, alpha, beta) && !step.Next?
      requires StepOk(n, step, beta, yielded, rules.legal(pos), d, stopped, met) && (n.rootNode ==> n.excluded.None?)
      modifies stack, this`wrote
      ensures !met ==> wrote == old(wrote)
      ensures Returned(n.ply, alpha, beta, v, n.pv && !stopped, met)
      ensures step.Leave? ==> v == step.value
      ensures step.Break? && step.loop.moveCount > 0
              ==> if step.loop.best >= beta then v >= beta else v == step.loop.best
      ensures step.Break? && step.loop.moveCount == 0 ==>
        step.loop.best == -INF <= alpha && (v == step.loop.alpha || v == MatedIn(n.ply))
      ensures Spared(old(stack[..]), stack[..], STACK_LEN)
      ensures stack[Si(n.ply)].pv == old(stack[Si(n.ply)].pv)
    {
      if step.Leave? {
        return step.value;
      }
      v := FinalValue(n, step.loop, beta, rules.legal(pos), met);
      StoreFinal(n, alpha, beta, v, step.loop.moveCount > 0);
      KeepFailLow(n.ply, v <= step.loop.alpha);
    }

    lemma AtMostLegal(ply: nat)
      requires Valid(ply)
      ensures |rules.legal(pos)| <= 593
    {}

    /** A node that fails low may take over the mark of the node above. */
    method KeepFailLow(ply: nat, failedLow: bool)
      requires Valid(ply)
      modifies stack
      ensures Spared(old(stack[..]), stack[..], STACK_LEN)
      ensures stack[Si(ply)].pv == old(stack[Si(ply)].pv)
    {
      var s := Si(ply);
      if failedLow {
        stack[s] := stack[s].(ttPv := stack[s].ttPv || stack[s - 1].ttPv);
      }
    }

    /** Softening a fail high, and the value of a node without moves. */
    function FinalValue(n: Node, l: Loop, beta: int, ghost legal: set<Move>, ghost letOff: bool): (v: int)
      requires LoopRange(n, l, beta, letOff) && (n.rootNode ==> n.excluded.None?) && n.ply < MAX_PLY
      requires !n.rootNode && n.excluded.None? && l.moveCount == 0 ==> legal == {}
      ensures Returned(n.ply, beta - 1, beta, v, n.pv, letOff)
      ensures l.moveCount > 0 ==> if l.best >= beta then v >= beta else v == l.best
      ensures l.moveCount == 0 ==> v == l.alpha || v == MatedIn(n.ply)
    {
      if l.moveCount == 0 then
        if n.excluded.Some? then l.alpha else if n.rootNode then MatedIn(n.ply) else NoMove(n.ply, legal)
      else if l.best >= beta && !IsDecisive(l.best) && !IsDecisive(l.alpha) then
        MeanBetween(beta, l.best, l.depth);
        TwinPicker.TruncDiv(l.best * l.depth + beta, l.depth + 1)
      else l.best
    }

    /** The bound of a finished node, unless a move was excluded or another line has it. */
    method StoreFinal(n: Node, alpha: int, beta: int, v: int, ghost searched: bool)
      requires n.ply < MAX_PLY && Window(alpha, beta, n.pv) && Narrowed(n, alpha, beta) && !(searched && stopped)
      requires Returned(n.ply, beta - 1, beta, v, n.pv, met)
      modifies this`wrote
      ensures !met ==> wrote == old(wrote)
      ensures Returned(n.ply, alpha, beta, v, n.pv, met)
    {
      var hasBest := *;
      if !met {
        AnswerStorable(n.ply, beta - 1, beta, v);
      }
      if n.excluded.None? && !(n.rootNode && pvIdx != 0) {
        var b := if v >= beta then Lower else if n.pv && hasBest then Exact else Upper;
        var _ := StoreValue(b, v, n.ply, beta, n.pv, searched);
      }
    }

    /** One move of the loop. */
    method SearchOne(n: Node, l0: Loop, beta: int, m: Move, improving: bool, rms0: Option<seq<RootMove>>,
                     ghost ttSeen: bool, ghost start: int, ghost from: nat, ghost d: int)
      returns (step: Step, rms: Option<seq<RootMove>>)
      requires Valid(n.ply) && n.ply < MAX_PLY && m in rules.legal(pos) && !(n.pv && n.cutNode)
      requires LoopOk(n, l0, beta, ttSeen, d, met) && 0 < d && l0.moveCount < 593 && (stopped ==> l0.moveCount == 0)
      requires Some(m) == n.ttMove ==> !ttSeen
      requires n.excluded == stack[Si(n.ply)].excluded && RootReady(n, rms0)
      requires from <= visits && (!stopped ==> OnLine(n, l0, pos, stack[Si(n.ply)].pv, start, beta, from, visits))
      modifies this`pos, this`line, this`script, this`accDepth, this`stopped, this`visits, this`met, this`wrote
      modifies this`late, this`pvNode, this`nmpMinPly, stack
      ensures Kept(n.ply, Below(n.ply, n.pv)) && RootsKept(rms0, rms)
      ensures !stopped ==> StepOnLine(n, step, pos, stack[Si(n.ply)].pv, start, beta, from, visits)
      ensures Visited(n, l0, m, step, rms0, rms, RootWindow(pvIdx, start, beta, pos, from),
                      ttSeen || Some(m) == n.ttMove, d, visits, stopped, met,
                      old(stopped) == stopped && old(met) == met && old(visits) == visits)
      decreases MAX_PLY - n.ply, d, 7
    {
      hide Spared, Worker.Valid, Worker.At, RootOk, OnLine, StepOnLine;
      hide LoopOk, LoopCounted, Searched, RootTurned, Absent, Visited;
      StackLength(n.ply);
      rms := rms0;
      ghost var a, w := stack[..], RootWindow(pvIdx, start, beta, pos, from);
      SparedRefl(a, Below(n.ply, n.pv));
      if !stopped {
        StaysOnLine(n, l0, pos, stack[Si(n.ply)].pv, start, beta, from, visits);
      }
      if Some(m) == n.excluded || Absent(rms, pvIdx, m) {
        NotCounted(n, l0, m, rms, w, ttSeen || Some(m) == n.ttMove, d, visits, stopped, met);
        return Next(l0), rms;
      }
      var l := Counted(l0);
      CountsMove(n, l0, beta, ttSeen, d, stopped, met);
      StartMove(n, l.moveCount);
      ghost var b := stack[..];
      SparedTrans(a, b, b, Below(n.ply, n.pv), Below(n.ply, n.pv));
      step, rms := SearchStarted(n, l, beta, m, improving, rms, ttSeen, start, from, d);
      SamePosition(old(At()));
      SparedTrans(a, b, stack[..], Below(n.ply, n.pv), Below(n.ply, n.pv));
      IsVisited(n, l0, m, step, rms0, rms, w, ttSeen || Some(m) == n.ttMove, d, visits, stopped, met,
                old(stopped) == stopped && old(met) == met && old(visits) == visits);
    }

    lemma NotCounted(
      n: Node, l: Loop, m: Move, rms: Option<seq<RootMove>>, w: RootWindow, ttSeen: bool, d: int, to: nat,
      stopped: bool, letOff: bool
    )
      requires Some(m) == n.excluded || Absent(rms, w.pvIdx, m)
      ensures Visited(n, l, m, Next(l), rms, rms, w, ttSeen, d, to, stopped, letOff, true)
    {
      hide Searched, RootTurned, Absent;
    }

    lemma IsVisited(
      n: Node, l: Loop, m: Move, step: Step, before: Option<seq<RootMove>>, after: Option<seq<RootMove>>,
      w: RootWindow, ttSeen: bool, d: int, to: nat, stopped: bool, letOff: bool, same: bool
    )
      requires Searched(n, Counted(l), w.beta, step, ttSeen, d, stopped, letOff) && !Absent(before, w.pvIdx, m)
      requires RootTurned(n, Counted(l), m, step, before, after, w, to, stopped)
      ensures Visited(n, l, m, step, before, after, w, ttSeen, d, to, stopped, letOff, same)
    {
      hide Searched, RootTurned, Absent;
    }

    /** A counted move: passed over at a shallow depth, or searched. */
    method SearchStarted(n: Node, l0: Loop, beta: int, m: Move, improving: bool, rms0: Option<seq<RootMove>>,
                         ghost ttSeen: bool, ghost start: int, ghost from: nat, ghost d: int)
      returns (step: Step, rms: Option<seq<RootMove>>)
      requires Valid(n.ply) && n.ply < MAX_PLY && m in rules.legal(pos) && !(n.pv && n.cutNode)
      requires LoopCounted(n, l0, beta, ttSeen, d, met) && 0 < d && (stopped ==> l0.best == -INF)
      requires Some(m) == n.ttMove ==> !ttSeen
      requires n.excluded == stack[Si(n.ply)].excluded && RootReady(n, rms0)
      requires n.pv ==> stack[Si(n.ply) + 1].pv == []
      requires from <= visits && (!stopped ==> OnLine(n, l0, pos, stack[Si(n.ply)].pv, start, beta, from, visits))
      modifies this`pos, this`line, this`script, this`accDepth, this`stopped, this`visits, this`met, this`wrote
      modifies this`late, this`pvNode, this`nmpMinPly, stack
      ensures Kept(n.ply, Below(n.ply, n.pv)) && RootsKept(rms0, rms)
      ensures !stopped ==> StepOnLine(n, step, pos, stack[Si(n.ply)].pv, start, beta, from, visits)
      ensures Searched(n, l0, beta, step, ttSeen || Some(m) == n.ttMove, d, stopped, met)
      ensures RootTurned(n, l0, m, step, rms0, rms, RootWindow(pvIdx, start, beta, pos, from), visits, stopped)
      decreases MAX_PLY - n.ply, d, 6
    {
      hide LegalLine, Spared, Worker.Valid, Worker.At, RootOk, OnLine, StepOnLine;
      StackLength(n.ply);
      var l := l0;
      var r := Reduction(improving, l.depth, l.moveCount, beta - l.alpha, n.ply);
      if !n.rootNode && !IsLoss(l.best) {
        var skip, best := Shallow(l.best, l.alpha);
        l := l.(best := best);
        if !stopped {
          OnLineUp(n, l0, best, pos, stack[Si(n.ply)].pv, start, beta, from, visits);
        }
        if skip {
          SparedRefl(stack[..], Below(n.ply, n.pv));
          return Next(l), rms0;
        }
      }
      hide LoopCounted, Searched;
      step, rms := SearchCounted(n, l, beta, m, r, rms0, ttSeen, start, from, d);
      SameCount(n, l0, l, beta, step, ttSeen || Some(m) == n.ttMove, d, stopped, met);
    }

    /** A move that is not skipped: perhaps extended, then searched. */
    method SearchCounted(n: Node, l0: Loop, beta: int, m: Move, r: int, rms0: Option<seq<RootMove>>,
                         ghost ttSeen: bool, ghost start: int, ghost from: nat, ghost d: int)
      returns (step: Step, rms: Option<seq<RootMove>>)
      requires Valid(n.ply) && n.ply < MAX_PLY && m in rules.legal(pos) && !(n.pv && n.cutNode)
      requires LoopCounted(n, l0, beta, ttSeen, d, met) && 0 < d && (Some(m) == n.ttMove ==> !ttSeen)
      requires n.excluded == stack[Si(n.ply)].excluded && RootReady(n, rms0)
      requires n.pv ==> stack[Si(n.ply) + 1].pv == []
      requires from <= visits && (!stopped ==> OnLine(n, l0, pos, stack[Si(n.ply)].pv, start, beta, from, visits))
      modifies this`pos, this`line, this`script, this`accDepth, this`stopped, this`visits, this`met, this`wrote
      modifies this`late, this`pvNode, this`nmpMinPly, stack
      ensures Kept(n.ply, Below(n.ply, n.pv)) && RootsKept(rms0, rms)
      ensures !stopped ==> StepOnLine(n, step, pos, stack[Si(n.ply)].pv, start, beta, from, visits)
      ensures Searched(n, l0, beta, step, ttSeen || Some(m) == n.ttMove, d, stopped, met)
      ensures RootTurned(n, l0, m, step, rms0, rms, RootWindow(pvIdx, start, beta, pos, from), visits, stopped)
      decreases MAX_PLY - n.ply, d, 5
    {
      hide LegalLine, Spared, Worker.Valid, Worker.At, RootOk, Searched, Taken, Returned, OnLine, StepOnLine;
      StackLength(n.ply);
      rms := rms0;
      ghost var a, b, off, was := stack[..], stack[..], met, visits;
      SparedRefl(a, Below(n.ply, n.pv));
      var l, extension := l0, 0;
      if !n.rootNode && Some(m) == n.ttMove && n.excluded.None? {
        ghost var again;
        step, extension, again := Singular(n, l, beta, m, d);
        SamePosition(old(At()));
        SparedTrans(a, b, stack[..], Below(n.ply, n.pv), STACK_LEN);
        LinesSpared(n.ply, n.pv, b, stack[..]);
        if !stopped {
          Extended(n, l0, step, pos, stack[Si(n.ply)].pv, start, beta, from, was, visits);
        }
        if step.Leave? {
          LeftSearched(n, l0, beta, step, ttSeen || Some(m) == n.ttMove, d);
          return;
        }
        l := step.loop;
        b := stack[..];
      }
      step, rms := SearchIt(n, l, beta, m, l0.depth - 1 + extension, r, rms, start, from);
      TakenSearched(n, l0, l, beta, step, ttSeen, Some(m) == n.ttMove, d, off, stopped, met);
      SparedTrans(a, b, stack[..], Below(n.ply, n.pv), Below(n.ply, n.pv));
    }

    /** A singular search changes no line; it extends the node or answers for it. */
    lemma Extended(
      n: Node, l: Loop, step: Step, p: Position, line: seq<Move>, start: int, beta: int, from: nat, was: nat, to: nat
    )
      requires OnLine(n, l, p, line, start, beta, from, was) && was <= to
      requires if step.Leave? then step.value >= beta else step == Next(l) || step == Next(l.(depth := l.depth + 1))
      ensures StepOnLine(n, step, p, line, start, beta, from, to)
      ensures step.Next? ==> OnLine(n, step.loop, p, line, start, beta, from, to)
    {
      hide LegalLine, Traced;
      OnLineLater(n, l, p, line, start, beta, from, was, to);
    }

    lemma LeftSearched(n: Node, l: Loop, beta: int, step: Step, ttSeen: bool, d: int)
      requires step.Leave? && Returned(n.ply, beta - 1, beta, step.value, true, false)
      ensures Searched(n, l, beta, step, ttSeen, d, stopped, met)
    {}

    lemma LinesSpared(ply: nat, pv: bool, a: seq<StackCell>, b: seq<StackCell>)
      requires Spared(a, b, STACK_LEN) && |a| == STACK_LEN && ply < MAX_PLY
      ensures Spared(a, b, Below(ply + 1, pv))
      ensures b[Si(ply)].pv == a[Si(ply)].pv && b[Si(ply) + 1].pv == a[Si(ply) + 1].pv
    {}

    method StartMove(n: Node, moveCount: nat)
      requires stack.Length == STACK_LEN && n.ply < MAX_PLY
      modifies stack
      ensures Spared(old(stack[..]), stack[..], if n.pv then Si(n.ply) + 1 else STACK_LEN)
      ensures n.pv ==> stack[Si(n.ply) + 1].pv == []
    {
      var s := Si(n.ply);
      stack[s] := stack[s].(moveCount := moveCount);
      if n.pv {
        ClearPv(n.ply + 1);
      }
    }

    /** The base reduction, read from the table by depth and move number. */
    method Reduction(improving: bool, depth: int, moveCount: nat, delta: int, ghost ply: nat) returns (r: int)
      requires Valid(ply) && 1 <= depth < REDUCTIONS && moveCount < REDUCTIONS
    {
      var scale := reductions[depth] * reductions[moveCount];
      r := scale - TwinPicker.TruncDiv(delta * 585, rootDelta)
           + (if improving then 0 else TwinPicker.TruncDiv(scale * 206, 512)) + 1133;
    }

    /** Pruning at shallow depth: a move may be skipped, and a futile one may raise the
        best value to what it could have reached. */
    method Shallow(best0: int, alpha: int) returns (skip: bool, best: int)
      ensures best == best0 || (!IsDecisive(best) && best0 < best <= alpha)
    {
      best := best0;
      skip := *;
      if skip {
        var futility: int := *;
        if futility <= alpha && best <= futility && !IsDecisive(best) && !IsWin(futility) {
          best := futility;
        }
      }
    }

    /** What the value of the other moves does: below its bound it extends the table move and
        the node, from beta up it answers for the node, and else it may shorten the move. */
    predicate SingularStep(n: Node, l: Loop, beta: int, ttPv: bool, v: int, step: Step, extension: int)
      requires l.depth >= 0
    {
      if v < SingularBeta(n.ttValue, l.depth, ttPv && !n.pv) then
        step == Next(l.(depth := l.depth + 1)) && 1 <= extension <= 3
      else if v >= beta && -WIN < v < WIN then step == Leave(v)
      else step == Next(l) && extension == if n.ttValue >= beta then -3 else if n.cutNode then -2 else 0
    }

    /** Searching this very node again without the table move, at half the depth. */
    method Singular(n: Node, l0: Loop, beta: int, m: Move, ghost d: int)
      returns (step: Step, extension: int, ghost again: Option<int>)
      requires Valid(n.ply) && n.ply < MAX_PLY && 0 < l0.depth <= d + 1 && !(n.pv && n.cutNode)
      requires n.excluded.None? && stack[Si(n.ply)].excluded.None? && !n.rootNode && beta > -INF
      modifies this`pos, this`line, this`script, this`accDepth, this`stopped, this`visits, this`met, this`wrote
      modifies this`late, this`pvNode, this`nmpMinPly, stack
      ensures Kept(n.ply, STACK_LEN)
      ensures step.Leave? ==> Returned(n.ply, beta - 1, beta, step.value, true, false) && step.value >= beta
      ensures !step.Leave? ==> step == Next(l0) || step == Next(l0.(depth := l0.depth + 1))
      ensures -3 <= extension <= 3
      ensures again.None? ==> step == Next(l0) && extension == 0
      ensures again.Some? ==>
        && l0.depth >= 6 && n.ttValue != NONE && !IsDecisive(n.ttValue)
        && SingularStep(n, l0, beta, old(stack[Si(n.ply)].ttPv), again.value, step, extension)
      decreases MAX_PLY - n.ply, d, 4
    {
      hide LegalLine, Worker.Valid, Worker.At;
      StackLength(n.ply);
      ghost var a := stack[..];
      SparedRefl(a, STACK_LEN);
      step, extension, again := Next(l0), 0, None;
      var s := Si(n.ply);
      var shuffling := *;
      if !(l0.depth >= 6 + (if stack[s].ttPv then 1 else 0) && n.ttValue != NONE && !IsDecisive(n.ttValue)
           && BoundMatches(n.entry.bound, true) && n.entry.depth >= l0.depth - 3 && !shuffling) {
        return;
      }
      var singularBeta := SingularBeta(n.ttValue, l0.depth, stack[s].ttPv && !n.pv);
      stack[s] := stack[s].(excluded := Some(m));
      ghost var b := stack[..];
      var v := Sub(n.ply, singularBeta - 1, singularBeta, (l0.depth - 1) / 2, n.cutNode, false);
      again := Some(v);
      ghost var c := stack[..];
      stack[s] := stack[s].(excluded := None);
      ExcludedAgain(a, b, c, s);
      assert stack[..] == c[s := c[s].(excluded := None)];
      hide Spared;
      if v < singularBeta {
        var doubly, triply := *, *;
        extension := 1 + (if doubly then 1 else 0) + (if triply then 1 else 0);
        step := Next(l0.(depth := l0.depth + 1));
      } else if v >= beta && !IsDecisive(v) {
        step := Leave(v);
      } else if n.ttValue >= beta {
        extension := -3;
      } else if n.cutNode {
        extension := -2;
      }
    }

    lemma ExcludedAgain(a: seq<StackCell>, b: seq<StackCell>, c: seq<StackCell>, s: nat)
      requires s < |a| && a[s].excluded.None? && |b| == |a|
      requires b == a[s := a[s].(excluded := b[s].excluded)] && Spared(b, c, STACK_LEN) && |a| == STACK_LEN
      ensures Spared(a, c[s := c[s].(excluded := None)], STACK_LEN)
    {}

    /** The move made, searched, taken back, and weighed. */
    method SearchIt(n: Node, l: Loop, beta: int, m: Move, newDepth: int, r: int, rms0: Option<seq<RootMove>>,
                    ghost start: int, ghost from: nat)
      returns (step: Step, rms: Option<seq<RootMove>>)
      requires Valid(n.ply) && n.ply < MAX_PLY && m in rules.legal(pos) && !(n.pv && n.cutNode)
      requires LoopMid(n, l, beta, met) && l.moveCount > 0 && RootReady(n, rms0)
      requires n.pv || !met ==> l.best < INF && (l.best > -INF || l.moveCount == 1)
      requires n.pv ==> stack[Si(n.ply) + 1].pv == []
      requires from <= visits && (!stopped ==> OnLine(n, l, pos, stack[Si(n.ply)].pv, start, beta, from, visits))
      modifies this`pos, this`line, this`script, this`accDepth, this`stopped, this`visits, this`met, this`wrote
      modifies this`late, this`pvNode, this`nmpMinPly, stack
      ensures Kept(n.ply, Below(n.ply, n.pv)) && RootsKept(rms0, rms)
      ensures !stopped ==> StepOnLine(n, step, pos, stack[Si(n.ply)].pv, start, beta, from, visits)
      ensures Taken(n, l, beta, step, stopped, met)
      ensures RootTurned(n, l, m, step, rms0, rms, RootWindow(pvIdx, start, beta, pos, from), visits, stopped)
      decreases MAX_PLY - n.ply, 0, 14
    {
      hide Spared, Worker.Valid, Worker.At, RootOk, DoMove, Taken, LoopRange, LoopMid, Brought, OnLine, StepOnLine;
      StackLength(n.ply);
      OpenWindow(n, l, beta, met);
      rms := rms0;
      ghost var a, was, off := stack[..], visits, met;
      var value := TryMove(n, l, beta, m, newDepth, r);
      ghost var b := stack[..];
      SamePosition(old(At()));
      LineSpared(n.ply, n.pv, a, b);
      if stopped {
        StopTaken(n, l, beta, met);
        return Leave(0), rms;
      }
      var child := stack[Si(n.ply) + 1].pv;
      if n.rootNode {
        RootWeighed(n, l, beta, rms.value, m, value, child, from, was);
        rms := Some(RootAfter(rms.value, m, value, l.alpha, l.moveCount, child));
      } else {
        OnLineLater(n, l, pos, stack[Si(n.ply)].pv, start, beta, from, was, visits);
      }
      StillMid(n, l, beta, off, met);
      step := Accept(n, l, beta, m, value, start, from, was);
      TurnedNow(n, l, m, step, rms0, rms, RootWindow(pvIdx, start, beta, pos, from), visits, value, child);
      SparedTrans(a, b, stack[..], Below(n.ply, n.pv), Below(n.ply, n.pv));
    }

    lemma RootWeighed(
      n: Node, l: Loop, beta: int, rms: seq<RootMove>, m: Move, value: int, child: seq<Move>, start: nat, from: nat
    )
      requires start <= from && n.rootNode && RootReady(n, Some(rms)) && m in rules.legal(pos)
               && Window(l.alpha, beta, n.pv)
      requires Brought(n, l, beta, value, DoMove(pos, m), child, from, visits, met)
      ensures RootOk(rules, root, RootAfter(rms, m, value, l.alpha, l.moveCount, child))
      ensures Traced(1, DoMove(pos, m), child, -value, -beta, -l.alpha, start, visits)
    {
      hide LegalLine, Traced, RootOk, DoMove;
      TracedWider(1, DoMove(pos, m), child, -value, -beta, -l.alpha, from, visits, -beta, -l.alpha, start, visits);
      RootValue(n, l, beta, value, met);
      RootAfterOk(rules, root, rms, m, value, l.alpha, l.moveCount, child);
    }

    lemma StillMid(n: Node, l: Loop, beta: int, letOff: bool, more: bool)
      requires LoopMid(n, l, beta, letOff) && (letOff ==> more)
      ensures LoopMid(n, l, beta, more)
    {}

    lemma OpenWindow(n: Node, l: Loop, beta: int, letOff: bool)
      requires LoopMid(n, l, beta, letOff)
      ensures Window(l.alpha, beta, n.pv)
    {}

    lemma StopTaken(n: Node, l: Loop, beta: int, letOff: bool)
      ensures Taken(n, l, beta, Leave(0), true, letOff)
    {}

    lemma RootValue(n: Node, l: Loop, beta: int, value: int, letOff: bool)
      requires Weighed(n, l, beta, value, letOff) && n.pv && Window(l.alpha, beta, true)
      ensures -WORD <= value < INF && (l.moveCount == 1 || value > l.alpha ==> InRange(value))
    {}

    /** Whether the move becomes the best one, and what becomes of best, alpha and depth. */
    method Decide(n: Node, l: Loop, beta: int, value: int, tied: bool) returns (step: Step, took: bool)
      requires n.ply < MAX_PLY && !stopped
      requires LoopMid(n, l, beta, met) && l.moveCount > 0 && Weighed(n, l, beta, value, met)
      requires n.pv || !met ==> l.best < INF && (l.best > -INF || l.moveCount == 1)
      ensures took <==> (value > l.best && value > l.alpha) || (tied && value == l.best >= l.alpha)
      ensures !took ==> step == Next(l.(best := Max(l.best, value)))
      ensures took && value >= beta ==> step == Break(l.(best := value))
      ensures took && value < beta ==>
        && step.Next? && step.loop.moveCount == l.moveCount && step.loop.best == step.loop.alpha == value
        && step.loop.depth == if 2 < l.depth < 14 && !IsDecisive(value) then l.depth - 2 else l.depth
      ensures LoopRange(n, step.loop, beta, met) && Taken(n, l, beta, step, false, met)
    {
      var inc := if value == l.best && tied then 1 else 0;
      step, took := Next(l), false;
      if value + inc > l.best {
        var k := l.(best := value);
        step := Next(k);
        if value + inc > l.alpha {
          took := true;
          if value >= beta {
            return Break(k), took;
          }
          if 2 < l.depth < 14 && !IsDecisive(value) {
            k := k.(depth := l.depth - 2);
          }
          step := Next(k.(alpha := value));
        }
      }
    }

    /** The new best move, the line, the window and the depth left for the others. */
    method Accept(n: Node, l: Loop, beta: int, m: Move, value: int, ghost start: int, ghost from: nat, ghost mid: nat)
      returns (step: Step)
      requires Valid(n.ply) && n.ply < MAX_PLY && m in rules.legal(pos)
      requires LoopMid(n, l, beta, met) && l.moveCount > 0
      requires !stopped
      requires n.pv || !met ==> l.best < INF && (l.best > -INF || l.moveCount == 1)
      requires from <= mid <= visits
      requires !n.rootNode ==> OnLine(n, l, pos, stack[Si(n.ply)].pv, start, beta, from, visits)
      requires Brought(n, l, beta, value, DoMove(pos, m), stack[Si(n.ply) + 1].pv, mid, visits, met)
      modifies stack
      ensures Spared(old(stack[..]), stack[..], Below(n.ply, n.pv))
      ensures !step.Leave? && step.loop.best == Max(l.best, value)
      ensures value < l.best || value < l.alpha ==> step == Next(l.(best := Max(l.best, value)))
      ensures value > l.best && value >= beta ==> step == Break(l.(best := value))
      ensures value > l.best && l.alpha < value < beta ==>
        && step.Next? && step.loop.alpha == value
        && (step.loop.depth == l.depth - 2 <==> 2 < l.depth < 14 && !IsDecisive(value))
      ensures step.Break? ==> value >= beta
      ensures step.Next? && l.best <= l.alpha ==> step.loop.alpha == Max(l.alpha, value)
      ensures Taken(n, l, beta, step, false, met)
      ensures StepOnLine(n, step, pos, stack[Si(n.ply)].pv, start, beta, from, visits)
      ensures n.pv && !n.rootNode && TakesOver(n, l, value, visits) ==>
        stack[Si(n.ply)].pv == [m] + old(stack[Si(n.ply) + 1].pv)
      ensures n.rootNode || !TakesOver(n, l, value, visits) ==> stack[Si(n.ply)].pv == old(stack[Si(n.ply)].pv)
    {
      hide Ready, DoMove, Brought, OnLine, StepOnLine, LoopMid, LoopRange, Taken;
      OpenWindow(n, l, beta, met);
      BroughtWeighed(n, l, beta, value, DoMove(pos, m), stack[Si(n.ply) + 1].pv, mid, visits, met);
      hide LegalLine, Weighed;
      var size := if value < 0 then -value else value;
      var took;
      step, took := Decide(n, l, beta, value, n.ply in world(visits).ties && !IsWin(size + 1));
      if !n.rootNode {
        DecidedOnLine(n, l, beta, m, value, step, took, pos, stack[Si(n.ply)].pv, stack[Si(n.ply) + 1].pv, start,
                      from, mid, visits, met);
      } else {
        RootOffLine(n, step, pos, stack[Si(n.ply)].pv, start, beta, from, visits);
      }
      if took && n.pv && !n.rootNode {
        UpdatePv(n.ply, m);
      }
    }

    /** A better move takes over, and sometimes one of equal value. */
    predicate TakesOver(n: Node, l: Loop, value: int, k: nat) {
      || (value > l.best && value > l.alpha)
      || (value == l.best >= l.alpha && n.ply in world(k).ties && 1 - WIN < value < WIN - 1)
    }

    lemma BroughtWeighed(
      n: Node, l: Loop, beta: int, value: int, p: Position, line: seq<Move>, from: nat, to: nat, letOff: bool
    )
      requires Brought(n, l, beta, value, p, line, from, to, letOff)
      ensures Weighed(n, l, beta, value, letOff) && (n.pv ==> LegalLine(rules, p, line))
    {
      hide Weighed, LegalLine, Traced;
    }

    lemma RootOffLine(
      n: Node, step: Step, p: Position, line: seq<Move>, start: int, beta: int, from: nat, to: nat
    )
      requires n.rootNode
      ensures StepOnLine(n, step, p, line, start, beta, from, to)
    {}

    /** The line after the decision is that of the best value again. */
    lemma DecidedOnLine(
      n: Node, l: Loop, beta: int, m: Move, value: int, step: Step, took: bool, p: Position, line: seq<Move>,
      child: seq<Move>, start: int, from: nat, mid: nat, to: nat, letOff: bool
    )
      requires OnLine(n, l, p, line, start, beta, from, to) && from <= mid <= to && m in rules.legal(p)
      requires Brought(n, l, beta, value, DoMove(p, m), child, mid, to, letOff)
      requires took ==> (value > l.best && value > l.alpha) || (value == l.best >= l.alpha && n.ply in world(to).ties)
      requires !took ==> step == Next(l.(best := Max(l.best, value))) && (value > l.best ==> value <= l.alpha)
      requires took ==> !step.Leave? && step.loop.best == value
      requires took ==> if value >= beta then step.Break? else step.Next? && step.loop.alpha == value
      ensures StepOnLine(n, step, p, if took && n.pv && !n.rootNode then [m] + child else line, start, beta, from, to)
    {
      hide Traced, LegalLine, DoMove, Weighed;
      if !took {
        OnLineUp(n, l, Max(l.best, value), p, line, start, beta, from, to);
      } else if n.pv && !n.rootNode {
        LegalLineCons(rules, p, m, child);
        GoingNew(n.ply, p, m, child, value, l.alpha, start, beta, from, mid, to, value == l.best);
      }
    }

    // ----- one child -----

    /** What a searched child comes to: the value as the window can tell, and in a
        principal-variation node the line and where its value comes from. */
    ghost predicate Brought(
      n: Node, l: Loop, beta: int, value: int, p: Position, line: seq<Move>, from: nat, to: nat, letOff: bool
    ) {
      && Weighed(n, l, beta, value, letOff)
      && (n.pv ==> LegalLine(rules, p, line) && Traced(n.ply + 1, p, line, -value, -beta, -l.alpha, from, to))
    }

    lemma BroughtFull(
      n: Node, l: Loop, beta: int, value: int, p: Position, line: seq<Move>, from: nat, to: nat, letOff: bool
    )
      requires FullBack(n.ply, p, line, value, l.alpha, beta, from, to, letOff)
      ensures Brought(n, l, beta, value, p, line, from, to, letOff)
    {
      hide LegalLine, Traced;
    }

    lemma BroughtScout(
      n: Node, l: Loop, beta: int, value: int, p: Position, line: seq<Move>, from: nat, to: nat, letOff: bool
    )
      requires Window(l.alpha, beta, n.pv) && Returned(n.ply, l.alpha, l.alpha + 1, value, false, letOff)
      requires n.pv ==> line == [] && l.moveCount > 1 && value <= l.alpha
      ensures Brought(n, l, beta, value, p, line, from, to, letOff)
    {
      EmptyLineLegal(p);
      NotInside(n.ply + 1, p, line, -value, -beta, -l.alpha, from, to);
      hide LegalLine, Traced;
    }

    method TryMove(n: Node, l: Loop, beta: int, m: Move, newDepth: int, r: int) returns (value: int)
      requires Valid(n.ply) && n.ply < MAX_PLY && m in rules.legal(pos) && !(n.pv && n.cutNode)
      requires Window(l.alpha, beta, n.pv) && l.moveCount > 0
      requires n.pv ==> stack[Si(n.ply) + 1].pv == []
      modifies this`pos, this`line, this`script, this`accDepth, this`stopped, this`visits, this`met, this`wrote
      modifies this`late, this`pvNode, this`nmpMinPly, stack
      ensures Kept(n.ply, Below(n.ply + 1, n.pv))
      ensures !stopped ==> Brought(n, l, beta, value, DoMove(pos, m), stack[Si(n.ply) + 1].pv, old(visits), visits, met)
      decreases MAX_PLY - n.ply, 0, 13
    {
      hide Spared, Ready, DoMove, Captured, Brought;
      ghost var before, a := At(), stack[..];
      var captured := Make(n.ply, m);
      MarkPlane(n.ply);
      ghost var b := stack[..];
      LinesSpared(n.ply, n.pv, a, b);
      value := SearchChild(n, l, beta, newDepth, r, Some(m) == n.ttMove);
      SparedTrans(a, b, stack[..], Below(n.ply + 1, n.pv), Below(n.ply + 1, n.pv));
      Unmake(n.ply, m, captured, before);
    }

    /** Late-move reduction with its re-search, or the full-depth search, and then the
        full window in a principal-variation node. */
    method SearchChild(n: Node, l: Loop, beta: int, newDepth0: int, r: int, isTt: bool) returns (value: int)
      requires Valid(n.ply + 1) && n.ply < MAX_PLY && !(n.pv && n.cutNode)
      requires Window(l.alpha, beta, n.pv) && l.moveCount > 0
      requires n.pv ==> stack[Si(n.ply) + 1].pv == []
      modifies this`pos, this`line, this`script, this`accDepth, this`stopped, this`visits, this`met, this`wrote
      modifies this`late, this`pvNode, this`nmpMinPly, stack
      ensures Kept(n.ply + 1, Below(n.ply + 1, n.pv))
      ensures !stopped ==> Brought(n, l, beta, value, pos, stack[Si(n.ply) + 1].pv, old(visits), visits, met)
      decreases MAX_PLY - n.ply, 0, 12
    {
      hide Worker.Valid, Worker.At, Spared, Brought, FullBack, Returned;
      StackLength(n.ply + 1);
      ghost var a := stack[..];
      var newDepth;
      value, newDepth := ScoutFirst(n, l, newDepth0, r);
      ghost var b := stack[..];
      SparedTrans(a, b, b, Below(n.ply + 1, n.pv), Below(n.ply + 1, n.pv));
      if n.pv && (l.moveCount == 1 || value > l.alpha) {
        value := FullWindow(n.ply, l.alpha, beta, newDepth, isTt, old(visits));
        SparedTrans(a, b, stack[..], Below(n.ply + 1, n.pv), Below(n.ply + 1, true));
        if !stopped {
          BroughtFull(n, l, beta, value, pos, stack[Si(n.ply) + 1].pv, old(visits), visits, met);
        }
      } else if !stopped {
        BroughtScout(n, l, beta, value, pos, stack[Si(n.ply) + 1].pv, old(visits), visits, met);
      }
    }

    /** The null-window searches of a child; the first move of a principal-variation node
        has none. */
    method ScoutFirst(n: Node, l: Loop, newDepth0: int, r: int) returns (value: int, newDepth: int)
      requires Valid(n.ply + 1) && n.ply < MAX_PLY && -INF <= l.alpha < INF && l.moveCount > 0
      modifies this`pos, this`line, this`script, this`accDepth, this`stopped, this`visits, this`met, this`wrote
      modifies this`late, this`pvNode, this`nmpMinPly, stack
      ensures Kept(n.ply + 1, Below(n.ply + 1, n.pv))
      ensures !stopped && !(n.pv && l.moveCount == 1) ==> Returned(n.ply, l.alpha, l.alpha + 1, value, false, met)
      ensures stack[Si(n.ply) + 1].pv == old(stack[Si(n.ply) + 1].pv)
      decreases MAX_PLY - n.ply, 0, 11
    {
      hide LegalLine, Worker.Valid, Worker.At, Spared, Returned;
      StackLength(n.ply + 1);
      ghost var a := stack[..];
      SparedRefl(a, STACK_LEN);
      newDepth := newDepth0;
      value := l.best;
      if l.depth >= 2 && l.moveCount > 1 {
        value, newDepth := Reduced(n, l, newDepth, r);
      } else if !n.pv || l.moveCount > 1 {
        var more, most := *, *;
        value := Scout(n.ply, l.alpha, newDepth - (if more then 1 else 0) - (if most then 1 else 0), !n.cutNode);
      }
      LinesSpared(n.ply, n.pv, a, stack[..]);
    }

    /** The principal-variation search of a child, into a cleared line. */
    method FullWindow(ply: nat, alpha: int, beta: int, depth: int, isTt: bool, ghost from: nat) returns (value: int)
      requires Valid(ply + 1) && ply < MAX_PLY && Window(alpha, beta, true) && from <= visits
      modifies this`pos, this`line, this`script, this`accDepth, this`stopped, this`visits, this`met, this`wrote
      modifies this`late, this`pvNode, this`nmpMinPly, stack
      ensures Kept(ply + 1, Below(ply + 1, true))
      ensures !stopped ==> FullBack(ply, pos, stack[Si(ply) + 1].pv, value, alpha, beta, from, visits, met)
      decreases MAX_PLY - ply, 0, 10
    {
      hide LegalLine, Spared, Worker.Valid, Worker.At, FullBack;
      StackLength(ply + 1);
      ghost var a := stack[..];
      ClearPv(ply + 1);
      ghost var b := stack[..];
      value := FullSearch(ply, alpha, beta, depth, isTt, from);
      SparedTrans(a, b, stack[..], Below(ply + 1, true), Below(ply + 1, true));
    }

    method FullSearch(ply: nat, alpha: int, beta: int, depth: int, isTt: bool, ghost from: nat) returns (value: int)
      requires Valid(ply + 1) && ply < MAX_PLY && Window(alpha, beta, true) && from <= visits
      requires stack[Si(ply + 1)].pv == []
      modifies this`pos, this`line, this`script, this`accDepth, this`stopped, this`visits, this`met, this`wrote
      modifies this`late, this`pvNode, this`nmpMinPly, stack
      ensures Kept(ply + 1, Below(ply + 1, true))
      ensures !stopped ==> FullBack(ply, pos, stack[Si(ply) + 1].pv, value, alpha, beta, from, visits, met)
      decreases MAX_PLY - ply, 0, 9
    {
      hide Spared, Worker.Valid, Worker.At, Returned, Led;
      StackLength(ply + 1);
      var deep := *;
      value := Sub(ply + 1, -beta, -alpha, if isTt && deep then Max(depth, 1) else depth, false, true);
      if !stopped {
        FullValue(ply, pos, stack[Si(ply) + 1].pv, value, alpha, beta, old(visits), from, visits, met);
      }
      hide FullBack;
      value := -value;
    }

    /** What comes back from it, seen from the node above. */
    ghost predicate FullBack(
      ply: nat, p: Position, line: seq<Move>, v: int, alpha: int, beta: int, from: nat, to: nat, letOff: bool
    ) {
      && Returned(ply, alpha, beta, v, true, letOff) && LegalLine(rules, p, line)
      && Traced(ply + 1, p, line, -v, -beta, -alpha, from, to)
    }

    lemma FullValue(
      ply: nat, p: Position, line: seq<Move>, v: int, alpha: int, beta: int, k: nat, from: nat, to: nat, letOff: bool
    )
      requires from <= k && Returned(ply + 1, -beta, -alpha, v, true, letOff)
      requires Led(ply + 1, p, line, v, -beta, -alpha, k, to)
      ensures FullBack(ply, p, line, -v, alpha, beta, from, to, letOff)
    {
      Negated(ply, -beta, -alpha, v, true, letOff);
      TracedWider(ply + 1, p, line, v, -beta, -alpha, k, to, -beta, -alpha, from, to);
      hide Traced, Returned, LegalLine;
      assert -(-v) == v;
    }

    /** The depth less the reduction in units of 1024, rounded towards zero, from 1 to two plies
        more than the depth; a principal-variation node adds one. */
    static function ReducedDepth(depth: int, r: int, pv: bool): (d: int)
      ensures var e := d - (if pv then 1 else 0);
        && 1 <= e <= Max(depth + 2, 1)
        && (1 < e < depth + 2
            ==> if r >= 0 then 0 <= r - 1024 * (depth - e) < 1024 else -1024 < r - 1024 * (depth - e) <= 0)
    {
      Max(Min(depth - TwinPicker.TruncDiv(r, 1024), depth + 2), 1) + (if pv then 1 else 0)
    }

    /** Deeper after a clear success of the reduced search, shallower after a narrow one. */
    static function Corrected(depth: int, reduced: int, value: int, best: int): (d: int)
      ensures value < best + 9 ==> d == depth - 1
      ensures best + 9 <= value <= best + 48 || (value > best + 48 && reduced >= depth) ==> d == depth
      ensures value > best + 48 && reduced < depth ==> d == depth + 1
    {
      depth + (if reduced < depth && value > best + 48 then 1 else 0) - (if value < best + 9 then 1 else 0)
    }

    /** The reduced search and, when it beats alpha, the search at the corrected depth. */
    method Reduced(n: Node, l: Loop, newDepth0: int, r: int) returns (value: int, newDepth: int)
      requires Valid(n.ply + 1) && n.ply < MAX_PLY && -INF <= l.alpha < INF
      modifies this`pos, this`line, this`script, this`accDepth, this`stopped, this`visits, this`met, this`wrote
      modifies this`late, this`pvNode, this`nmpMinPly, stack
      ensures Kept(n.ply + 1, STACK_LEN)
      ensures !stopped ==> Returned(n.ply, l.alpha, l.alpha + 1, value, false, met)
      decreases MAX_PLY - n.ply, 0, 9
    {
      hide LegalLine, Worker.Valid, Worker.At, Spared, Returned;
      StackLength(n.ply + 1);
      ghost var a := stack[..];
      newDepth := newDepth0;
      var depth := ReducedDepth(newDepth, r, n.pv);
      hide ReducedDepth, Corrected;
      value := ScoutReduced(n.ply, l.alpha, depth, newDepth - depth);
      if value > l.alpha {
        newDepth := Corrected(newDepth, depth, value, l.best);
        if newDepth > depth {
          ghost var b := stack[..];
          value := Scout(n.ply, l.alpha, newDepth, !n.cutNode);
          SparedTrans(a, b, stack[..], STACK_LEN, STACK_LEN);
        }
      }
    }

    /** The child sees by how much it is reduced. */
    method ScoutReduced(ply: nat, alpha: int, depth: int, reduction: int) returns (value: int)
      requires Valid(ply + 1) && ply < MAX_PLY && -INF <= alpha < INF
      modifies this`pos, this`line, this`script, this`accDepth, this`stopped, this`visits, this`met, this`wrote
      modifies this`late, this`pvNode, this`nmpMinPly, stack
      ensures Kept(ply + 1, STACK_LEN)
      ensures !stopped ==> Returned(ply, alpha, alpha + 1, value, false, met)
      decreases MAX_PLY - ply, 0, 8
    {
      hide LegalLine, Worker.Valid, Worker.At, Spared, Returned;
      StackLength(ply + 1);
      ghost var a := stack[..];
      SetReduction(Si(ply), reduction);
      ghost var b := stack[..];
      assert stack[Si(ply)].reduction == reduction;
      value := Scout(ply, alpha, depth, true);
      SparedTrans(a, b, stack[..], STACK_LEN, STACK_LEN);
      b := stack[..];
      SetReduction(Si(ply), 0);
      SparedTrans(a, b, stack[..], STACK_LEN, STACK_LEN);
    }

    /** A child searched in the null window above alpha, outside the principal variation. */
    method Scout(ply: nat, alpha: int, depth: int, cutNode: bool) returns (value: int)
      requires Valid(ply + 1) && ply < MAX_PLY && -INF <= alpha < INF
      modifies this`pos, this`line, this`script, this`accDepth, this`stopped, this`visits, this`met, this`wrote
      modifies this`late, this`pvNode, this`nmpMinPly, stack
      ensures Kept(ply + 1, STACK_LEN)
      ensures !stopped ==> Returned(ply, alpha, alpha + 1, value, false, met)
      decreases MAX_PLY - ply, 0, 7
    {
      hide LegalLine, Spared, Worker.Valid, Worker.At, Returned;
      value := Sub(ply + 1, -(alpha + 1), -alpha, depth, cutNode, false);
      if !stopped {
        Negated(ply, -(alpha + 1), -alpha, value, false, met);
      }
      value := -value;
    }

    method SetReduction(s: nat, reduction: int)
      requires s < stack.Length
      modifies stack
      ensures stack[s].reduction == reduction && Spared(old(stack[..]), stack[..], STACK_LEN)
    {
      stack[s] := stack[s].(reduction := reduction);
    }

    // ----- the root loop -----

    lemma RootStatistics(rms: seq<RootMove>, k: nat)
      requires RootOk(rules, root, rms) && k < |rms|
      ensures Statistics(rms[k].averageScore, rms[k].meanSquaredScore)
    {
      assert rms[k].Ok(rules, root);
    }

    /** What the root loop keeps: the rest of the state is as a search keeps it, but for the
        line searched and its window. */
    twostate predicate RootHeld()
      reads this, stack
    {
      && Valid(0) && At() == old(At()) && nmpMinPly == old(nmpMinPly)
      && (old(stopped) ==> stopped) && (old(met) ==> met)
      && (wrote ==> old(wrote) || met || stopped) && old(visits) <= visits
      && stack[Si(0)].excluded.None?
    }

    /** The score of a root move is this value, and comes from the end of its line. */
    ghost predicate OfLine(rm: RootMove, v: int, from: nat)
      reads this`pos, this`visits
    {
      rm.score == v && Traced(0, pos, rm.pv, v, -INF, INF, from, visits)
    }

    /** The best of the open part comes first, with its line. */
    lemma FirstOfLine(rms: seq<RootMove>, v: int, w: RootWindow)
      requires w.pvIdx < |rms| && BestScore(rms, w.pvIdx, v) && w.start < v < w.beta && w.p == pos
      requires LinesOf(rms, v, w, visits)
      ensures OfLine(SortPart(rms, w.pvIdx, |rms|)[w.pvIdx], v, w.from)
    {
      hide Traced, SortPart;
      BestScoreFirst(rms, w.pvIdx, v);
      SortPartSame(rms, w.pvIdx, |rms|, w.pvIdx);
      var k :| w.pvIdx <= k < |rms| && SortPart(rms, w.pvIdx, |rms|)[w.pvIdx] == rms[k];
      TracedWider(0, pos, rms[k].pv, v, w.start, w.beta, w.from, visits, -INF, INF, w.from, visits);
    }

    lemma OfLineEarlier(rm: RootMove, v: int, k: nat, from: nat)
      requires OfLine(rm, v, k) && from <= k
      ensures OfLine(rm, v, from)
    {
      TracedWider(0, pos, rm.pv, v, -INF, INF, k, visits, -INF, INF, from, visits);
      hide Traced;
    }

    /** One line of one iteration: aspiration windows, widened until the value falls
        inside, whatever the values are. */
    method SearchLine(rootDepth: nat, searchAgain: nat, rms0: seq<RootMove>)
      returns (v: int, w: Aspiration, rms: seq<RootMove>)
      requires Valid(0) && pos == root && pvIdx < |rms0| && RootOk(rules, root, rms0)
      requires stack[Si(0)].excluded.None?
      modifies this`pos, this`line, this`script, this`accDepth, this`stopped, this`visits, this`met, this`wrote
      modifies this`late, this`pvNode, this`nmpMinPly, this`rootDelta, stack
      ensures RootHeld()
      ensures |rms| == |rms0| && RootOk(rules, root, rms)
      ensures !stopped ==> Aspiring(w) && w.alpha < v < w.beta
      ensures forall k :: pvIdx <= k < |rms| ==> rms[k].score <= rms[pvIdx].score
      ensures !stopped && !rules.declares(pos) ==> OfLine(rms[pvIdx], v, old(visits))
    {
      hide LegalLine, Spared, RootOk, Ready, Aspiring, Widen, Statistics, Worker.Valid, OfLine;
      StackLength(0);
      rms := rms0;
      RootStatistics(rms, pvIdx);
      AimAspires(rms[pvIdx].averageScore, rms[pvIdx].meanSquaredScore);
      w := Aim(rms[pvIdx].averageScore, rms[pvIdx].meanSquaredScore);
      hide Aim;
      var failedHigh := 0;
      v := 0;
      while true
        invariant RootHeld()
        invariant |rms| == |rms0| && RootOk(rules, root, rms)
        invariant Aspiring(w)
        decreases Max(0, 2 * INF - w.delta), Open(w.alpha, w.beta)
      {
        var adjusted := Max(1, rootDepth - failedHigh - 3 * (searchAgain + 1) / 4);
        ghost var k := visits;
        v, rms := SearchWindow(w, adjusted, rms);
        if stopped || w.alpha < v < w.beta {
          if OfLine(rms[pvIdx], v, k) {
            OfLineEarlier(rms[pvIdx], v, k, old(visits));
          }
          return;
        }
        failedHigh := if v <= w.alpha then 0 else failedHigh + 1;
        WidenProgresses(w, v);
        w := Widen(w, v);
      }
    }

    /** One root search in a given window, and the stable sort of the moves still open. */
    method SearchWindow(w: Aspiration, depth: int, rms0: seq<RootMove>) returns (v: int, rms: seq<RootMove>)
      requires Valid(0) && pos == root && pvIdx < |rms0| && RootOk(rules, root, rms0) && Aspiring(w) && depth > 0
      requires stack[Si(0)].excluded.None?
      modifies this`pos, this`line, this`script, this`accDepth, this`stopped, this`visits, this`met, this`wrote
      modifies this`late, this`pvNode, this`nmpMinPly, this`rootDelta, stack
      ensures RootHeld()
      ensures |rms| == |rms0| && RootOk(rules, root, rms)
      ensures !stopped ==> InRange(v)
      ensures forall k :: pvIdx <= k < |rms| ==> rms[k].score <= rms[pvIdx].score
      ensures !stopped && !rules.declares(pos) && w.alpha < v < w.beta ==> OfLine(rms[pvIdx], v, old(visits))
    {
      hide LegalLine, Spared, RootOk, Ready, SortPart, BestScore, LinesOf, OfLine;
      ghost var a := stack[..];
      rootDelta := w.beta - w.alpha;
      NothingPushed();
      accDepth := 0;
      var out: Option<seq<RootMove>>;
      v, out := Search(0, w.alpha, w.beta, depth, false, true, Some(rms0));
      rms := SortPart(out.value, pvIdx, |out.value|);
      PermutationOk(rules, root, out.value, rms);
      SortPartFirst(out.value, pvIdx, |rms|);
      ghost var open := RootWindow(pvIdx, w.alpha, w.beta, pos, old(visits));
      if BestScore(out.value, pvIdx, v) && LinesOf(out.value, v, open, visits) && w.alpha < v < w.beta {
        FirstOfLine(out.value, v, open);
      }
      StillNotExcluded(a, stack[..]);
    }

    /** Between two searches of the root every push has been popped. */
    lemma NothingPushed()
      requires Valid(0)
      ensures accDepth == 0
    {}

    lemma StillNotExcluded(a: seq<StackCell>, b: seq<StackCell>)
      requires |a| == STACK_LEN && Spared(a, b, Below(0, true)) && a[Si(0)].excluded.None?
      ensures |b| == STACK_LEN && b[Si(0)].excluded.None?
    {}

    /** With the best of the rest at its end, the head sorted again begins with the best of all. */
    lemma HeadSorted(rms: seq<RootMove>, k: nat)
      requires k < |rms| && forall i :: k <= i < |rms| ==> rms[i].score <= rms[k].score
      ensures var sorted := SortPart(rms, 0, k + 1); forall i :: 0 <= i < |rms| ==> sorted[i].score <= sorted[0].score
      ensures k == 0 ==> SortPart(rms, 0, 1)[0] == rms[0]
    {
      hide SortPart;
      var sorted := SortPart(rms, 0, k + 1);
      SortPartFirst(rms, 0, k + 1);
      SortPartSame(rms, 0, k + 1, k);
      var j :| 0 <= j < k + 1 && sorted[j] == rms[k];
      assert rms[k].score <= sorted[0].score;
      forall i | 0 <= i < |rms|
        ensures sorted[i].score <= sorted[0].score
      {}
      if k == 0 {
        SortPartSame(rms, 0, 1, 0);
      }
    }

    /** The best move of the list comes first. */
    predicate BestLeads(rms: seq<RootMove>) {
      rms != [] && forall i :: 0 <= i < |rms| ==> rms[i].score <= rms[0].score
    }

    /** One line more, after which the head is sorted again. */
    method SearchHead(rootDepth: nat, searchAgain: nat, k: nat, rms0: seq<RootMove>)
      returns (v: int, rms: seq<RootMove>)
      requires Valid(0) && pos == root && k < |rms0| && RootOk(rules, root, rms0)
      requires stack[Si(0)].excluded.None?
      modifies this, stack
      ensures RootHeld()
      ensures |rms| == |rms0| && RootOk(rules, root, rms) && BestLeads(rms)
      ensures !stopped && !rules.declares(pos) && k == 0 ==> OfLine(rms[0], v, old(visits))
    {
      hide Spared, RootOk, Worker.Valid, Aspiring, SortPart, OfLine;
      pvIdx := k;
      var w, out;
      v, w, out := SearchLine(rootDepth, searchAgain, rms0);
      rms := SortPart(out, 0, k + 1);
      PermutationOk(rules, root, out, rms);
      HeadSorted(out, k);
    }

    /** All lines of one iteration; each finished head is sorted again. */
    method SearchLines(rootDepth: nat, searchAgain: nat, multiPv: nat, rms0: seq<RootMove>)
      returns (v: int, rms: seq<RootMove>)
      requires Valid(0) && pos == root && 0 < multiPv <= |rms0| && RootOk(rules, root, rms0)
      requires stack[Si(0)].excluded.None?
      modifies this, stack
      ensures RootHeld()
      ensures |rms| == |rms0| && RootOk(rules, root, rms)
      ensures !stopped ==> BestLeads(rms)
      ensures !stopped && !rules.declares(pos) && multiPv == 1 ==> OfLine(rms[0], v, old(visits))
    {
      hide Spared, RootOk, Worker.Valid, OfLine, BestLeads;
      StackLength(0);
      rms := rms0;
      var k := 0;
      v := 0;
      while k < multiPv && !stopped
        invariant 0 <= k <= multiPv && RootHeld()
        invariant |rms| == |rms0| && RootOk(rules, root, rms)
        invariant k > 0 ==> BestLeads(rms)
        invariant k == 1 && multiPv == 1 && !stopped && !rules.declares(pos) ==> OfLine(rms[0], v, old(visits))
        invariant k == 0 ==> visits == old(visits)
      {
        v, rms := SearchHead(rootDepth, searchAgain, k, rms);
        k := k + 1;
      }
      pvIdx := 0;
    }

    /** Every cell as before the first search of a game. */
    method ResetStack()
      requires stack.Length == STACK_LEN
      modifies stack
      ensures stack[Si(0)].excluded.None?
    {
      for i := 0 to stack.Length
        invariant forall k :: 0 <= k < i ==> stack[k] == StackCell([], None, 0, false, 0, 0, 0, 0)
      {
        stack[i] := StackCell([], None, 0, false, 0, 0, 0, 0);
      }
    }

    /** The accumulators start from the root. */
    method SeedRoot(rootPos: Position)
      requires stack.Length == STACK_LEN && |reductions| == REDUCTIONS && contempt < MAX_EVAL
      requires Sensible(rules) && Evaluable(rootPos)
      modifies this`pos, this`root, this`line, this`script, this`accDepth, this`rootDelta
      ensures Valid(0) && pos == root == rootPos && accDepth == 0
    {
      hide Evaluable, Sensible;
      pos, root, line, script, accDepth, rootDelta := rootPos, rootPos, [Root(rootPos)], [], 0, 2 * INF;
    }

    /** Iterative deepening, from any table.  It ends whatever the scores and the clock do,
        and hands out a root move with a line of legal moves, from the last iteration that
        was completed or, if none was, from the list as it stands. */
    method RunWorker(rootPos: Position, rootMoves: seq<RootMove>, limitDepth: nat, multiPvOption: nat)
      returns (best: RootMove, completed: nat, value: int, ghost list: seq<RootMove>)
      requires stack.Length == STACK_LEN && |reductions| == REDUCTIONS && contempt < MAX_EVAL
      requires Sensible(rules) && Evaluable(rootPos)
      requires rootMoves != [] && RootOk(rules, rootPos, rootMoves)
      modifies this, stack
      ensures Valid(0) && pos == root == rootPos && accDepth == 0 && nmpMinPly == old(nmpMinPly)
      ensures best.Ok(rules, rootPos)
      ensures completed <= limitDepth && completed < MAX_PLY
      ensures completed == limitDepth || completed == MAX_PLY - 1 || stopped || completed > 0
      ensures completed > 0 ==> best in list && forall k :: 0 <= k < |list| ==> list[k].score <= best.score
      ensures if completed > 0 then RootOk(rules, rootPos, list) && |list| == |rootMoves| else list == []
      ensures completed > 0 && multiPvOption <= 1 && !rules.declares(rootPos) ==> best.score == value
      ensures completed > 0 && multiPvOption <= 1 && !rules.declares(rootPos) && !IsDecisive(value) ==>
        NoTies(old(visits), visits) ==>
          exists k :: old(visits) <= k < visits && StaticBehind(k, 0, rootPos, best.pv, value)
      ensures wrote ==> old(wrote) || met || stopped
    {
      hide LegalLine, RootOk, Ready, Evaluable, Sensible, Traced, StaticBehind;
      stopped := false;
      ResetStack();
      SeedRoot(rootPos);
      hide Worker.Valid;
      var rms := rootMoves;
      var multiPv := Max(Min(multiPvOption, |rms|), 1);
      var rootDepth, searchAgain := 0, 0;
      var deepen, enough := true, false;
      var last: Option<RootMove> := None;
      completed, value, list := 0, 0, [];
      ghost var start := At();
      while rootDepth + 1 < MAX_PLY && !stopped && !enough && rootDepth < limitDepth
        invariant Valid(0) && At() == start && nmpMinPly == old(nmpMinPly)
        invariant wrote ==> old(wrote) || met || stopped
        invariant stack[Si(0)].excluded.None?
        invariant |rms| == |rootMoves| && RootOk(rules, root, rms)
        invariant completed <= rootDepth <= limitDepth && rootDepth < MAX_PLY && (completed == rootDepth || stopped)
        invariant last.Some? ==> last.value.Ok(rules, root)
        invariant enough ==> completed > 0
        invariant completed == 0 ==> list == [] && last.None?
        invariant completed > 0
                  ==> last.Some? && last.value in list && |list| == |rootMoves| && RootOk(rules, root, list)
        invariant completed > 0 ==> forall k :: 0 <= k < |list| ==> list[k].score <= last.value.score
        invariant old(visits) <= visits
        invariant completed > 0 && multiPv == 1 && !rules.declares(root) ==> OfLine(last.value, value, old(visits))
        decreases MAX_PLY - rootDepth
      {
        rootDepth := rootDepth + 1;
        searchAgain := if deepen then searchAgain else searchAgain + 1;
        MarkedOk(rules, root, rms);
        var v;
        ghost var was := visits;
        v, rms := SearchLines(rootDepth, searchAgain, multiPv, MarkPrevious(rms));
        if stopped {
          if completed > 0 && multiPv == 1 && !rules.declares(root) {
            OfLineLater(last.value, value, old(visits), was);
          }
        } else {
          if OfLine(rms[0], v, was) {
            OfLineEarlier(rms[0], v, was, old(visits));
          }
          FirstOk(rms);
          last := Some(rms[0]);
          completed, value, list := rootDepth, v, rms;
          deepen, enough := *, *;
        }
      }
      FirstOk(rms);
      best := if last.Some? then last.value else rms[0];
      if completed > 0 && multiPvOption <= 1 && !rules.declares(root) {
        LineOfScore(best, value, old(visits));
      }
    }

    lemma OfLineLater(rm: RootMove, v: int, from: nat, k: nat)
      requires rm.score == v && Traced(0, pos, rm.pv, v, -INF, INF, from, k) && k <= visits
      ensures OfLine(rm, v, from)
    {
      TracedWider(0, pos, rm.pv, v, -INF, INF, from, k, -INF, INF, from, visits);
      hide Traced;
    }

    lemma LineOfScore(rm: RootMove, v: int, from: nat)
      requires OfLine(rm, v, from)
      ensures rm.score == v
      ensures !IsDecisive(v) && NoTies(from, visits) ==>
        exists k :: from <= k < visits && StaticBehind(k, 0, pos, rm.pv, v)
    {
      hide StaticBehind, NoTies;
    }

    lemma FirstOk(rms: seq<RootMove>)
      requires rms != [] && RootOk(rules, root, rms)
      ensures rms[0].Ok(rules, root)
    {}
  }
}
