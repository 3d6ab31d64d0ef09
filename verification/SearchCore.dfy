/** The constants and the cells of the search, what it takes from outside as given, and
    lines of legal moves. */
module SearchCore {
  import opened Wrappers
  import opened Shogi
  import opened Accumulators
  import opened TreeWalk
  import TwinPicker

  const INF := 32001
  const NONE := 32002
  const MATE := 32000
  const WIN := MATE - MAX_PLY
  const MAX_EVAL := WIN - 1
  const FUTILITY_MARGIN := 328

  const STACK_BASE := 7
  const STACK_LEN := STACK_BASE + MAX_PLY + 2
  /** The length of the table of reductions. */
  const REDUCTIONS := 600

  function MateIn(ply: nat): int {
    MATE - ply
  }

  function MatedIn(ply: nat): int {
    ply - MATE
  }

  predicate IsWin(v: int) {
    v >= WIN
  }

  predicate IsLoss(v: int) {
    v <= -WIN
  }

  predicate IsDecisive(v: int) {
    IsWin(v) || IsLoss(v)
  }

  function Min(a: int, b: int): int {
    if a <= b then a else b
  }

  function Max(a: int, b: int): int {
    if a >= b then a else b
  }

  /** A value a search may return. */
  predicate InRange(v: int) {
    -INF < v < INF
  }

  /** A window a search may be called with: zero width but in a principal-variation node. */
  predicate Window(alpha: int, beta: int, pv: bool) {
    -INF <= alpha < beta <= INF && (pv || alpha == beta - 1)
  }

  /** What a call may pass: only the depth-reduced search of the other moves of a node
      may ask about values below any a search returns. */
  predicate Callable(alpha: int, beta: int, pv: bool, depth: int) {
    alpha < beta <= INF && (pv || alpha == beta - 1) && (alpha < -INF ==> depth > 0 && !pv)
  }

  /** A mate score as the table holds it, counted from the node. */
  function ValueToTt(v: int, ply: nat): int {
    if IsWin(v) then v + ply
    else if IsLoss(v) then v - ply
    else v
  }

  function ValueFromTt(v: int, ply: nat): int {
    if v == NONE then NONE
    else if IsWin(v) then v - ply
    else if IsLoss(v) then v + ply
    else v
  }

  datatype Bound = NoBound | Upper | Lower | Exact

  predicate BoundMatches(b: Bound, wantLower: bool) {
    b.Exact? || (if wantLower then b.Lower? else b.Upper?)
  }

  /** What the sixteen bits of a stored value can hold. */
  const WORD := 0x8000
  type Stored = v: int | -WORD <= v < WORD

  predicate Small(v: int) {
    -WORD <= v <= WORD
  }

  /** One entry of the transposition table as the probe reports it. */
  datatype Entry = Entry(hit: bool, value: Stored, depth: int, bound: Bound, move: Option<Move>, pv: bool) {
    function ValueAt(ply: nat): (v: int)
      ensures ply <= MAX_PLY ==> Small(v)
    {
      if hit then ValueFromTt(value, ply) else NONE
    }

    /** A quiescence node outside the principal variation returns at once with this. */
    predicate Cuts(ply: nat, beta: int) {
      depth >= 0 && ValueAt(ply) != NONE && BoundMatches(bound, ValueAt(ply) >= beta)
    }

    /** What a search that was not stopped may have stored. */
    predicate WithinMate() {
      hit ==> Storable(bound, value)
    }
  }

  /** The bound has to vouch for the side of beta the value lies on. */
  lemma CutsExactly(e: Entry, ply: nat, beta: int)
    ensures e.Cuts(ply, beta) <==>
      && e.depth >= 0 && e.ValueAt(ply) != NONE
      && (e.bound.Exact? || (e.bound.Lower? && e.ValueAt(ply) >= beta) || (e.bound.Upper? && e.ValueAt(ply) < beta))
  {}

  datatype Repetition = NoRepetition | RepeatedDraw | RepeatedWin | RepeatedLoss | Superior | Inferior

  /** What one node meets from outside: whether the clock or the flag stops the search
      there, whether the game is over there by repetition or length, what the table says,
      and at which plies the node count then lets a move of equal value take over. */
  datatype Visit = Visit(stops: bool, repetition: Repetition, tooLong: bool, entry: Entry, ties: set<nat>)

  /** What the evaluation hands out. */
  type Eval = v: int | -MAX_EVAL <= v <= MAX_EVAL

  /** Where a line of moves ends. */
  function EndOf(p: Position, line: seq<Move>): Position
    decreases |line|
  {
    if line == [] then p else EndOf(DoMove(p, line[0]), line[1..])
  }

  lemma EndOfCons(p: Position, m: Move, line: seq<Move>)
    ensures EndOf(p, [m] + line) == EndOf(DoMove(p, m), line)
  {
    hide DoMove;
    assert ([m] + line)[1..] == line;
  }

  /** A quiescence node that goes on to evade a check. */
  ghost predicate Evades(rules: Rules, p: Position, ply: nat, beta: int, pv: bool, seen: Visit) {
    && rules.inCheck(p) && rules.legal(p) != {} && ply < MAX_PLY
    && seen.repetition.NoRepetition? && !seen.tooLong && (pv || !seen.entry.Cuts(ply, beta))
  }

  /** What a search gives back under a window: as far as the window can tell, nothing
      better than giving mate at this ply and nothing worse than being mated at it. */
  predicate Answer(ply: nat, alpha: int, beta: int, v: int) {
    InRange(v) && (v > alpha ==> v <= MateIn(ply)) && (v < beta ==> MatedIn(ply) <= v)
  }

  /** What may stand in the table: a lower bound is no better than mate on the spot, and an
      upper bound no worse.  The other side is open: an upper bound may lie beyond mate. */
  predicate Storable(b: Bound, v: int) {
    && -WORD <= v < WORD
    && (b.Lower? || b.Exact? ==> v <= MATE)
    && (b.Upper? || b.Exact? ==> -MATE <= v)
  }

  /** The bounds that go with an answer may be stored. */
  lemma AnswerStorable(ply: nat, alpha: int, beta: int, v: int)
    requires ply <= MAX_PLY && alpha < beta && Answer(ply, alpha, beta, v)
    ensures v >= beta ==> Storable(Lower, ValueToTt(v, ply))
    ensures v < beta ==> Storable(Upper, ValueToTt(v, ply))
    ensures alpha < v < beta ==> Storable(Exact, ValueToTt(v, ply))
  {}

  /** And what is stored, read at any ply and found to match a null window, is an answer
      there: an upper bound beyond mate never passes for more than its window allows. */
  lemma StoredAnswers(b: Bound, stored: int, ply: nat, alpha: int, beta: int)
    requires Storable(b, stored) && ply <= MAX_PLY && Window(alpha, beta, false)
    requires ValueFromTt(stored, ply) != NONE && BoundMatches(b, ValueFromTt(stored, ply) >= beta)
    ensures Answer(ply, alpha, beta, ValueFromTt(stored, ply))
  {}

  /** A value stored and read at the same ply comes back, unless it has become the mark for
      no value; a lower or exact bound never does. */
  lemma TableRoundTrip(v: int, ply: nat)
    requires InRange(v) && ply <= MAX_PLY
    ensures ValueFromTt(ValueToTt(v, ply), ply) == v <==> v + ply != NONE
    ensures v <= MateIn(ply) ==> v + ply != NONE
  {}

  /** What every search gives back, whatever the table holds: a small number; a value
      between the infinite ones from an unaborted node of the principal variation; and an
      answer, unless something has let it off. */
  predicate Returned(ply: nat, alpha: int, beta: int, v: int, proper: bool, letOff: bool) {
    Small(v) && (proper ==> InRange(v)) && (letOff || Answer(ply, alpha, beta, v))
  }

  /** The same value seen from the node above. */
  lemma Negated(ply: nat, alpha: int, beta: int, v: int, proper: bool, letOff: bool)
    requires Returned(ply + 1, alpha, beta, v, proper, letOff)
    ensures Returned(ply, -beta, -alpha, -v, proper, letOff)
  {}

  lemma StillLetOff(ply: nat, alpha: int, beta: int, v: int, proper: bool, letOff: bool, more: bool)
    requires Returned(ply, alpha, beta, v, proper, letOff) && (letOff ==> more)
    ensures Returned(ply, alpha, beta, v, proper, more)
  {}

  /** Mate-distance pruning loses nothing. */
  lemma NarrowedAnswer(ply: nat, alpha: int, beta: int, v: int)
    requires ply < MAX_PLY && Answer(ply, Max(MatedIn(ply), alpha), Min(MateIn(ply + 1), beta), v)
    ensures Answer(ply, alpha, beta, v)
  {}

  /** A loop over moves: alpha has only been raised to answers, and so has the best value. */
  predicate Steady(ply: nat, start: int, beta: int, alpha: int, best: int) {
    && start <= alpha && (start < alpha ==> alpha <= MateIn(ply))
    && (best > start ==> best <= MateIn(ply))
    && (best == -INF || (best < beta ==> MatedIn(ply) <= best))
  }

  lemma SteadyNext(ply: nat, start: int, beta: int, alpha: int, best: int, v: int)
    requires Steady(ply, start, beta, alpha, best) && Answer(ply, alpha, beta, v) && alpha < beta
    ensures Steady(ply, start, beta, alpha, Max(best, v))
    ensures v > alpha ==> Steady(ply, start, beta, v, Max(best, v))
  {}

  /** A cell of the search stack: the fields that steer the recursion. */
  datatype StackCell = StackCell(
    pv: seq<Move>, excluded: Option<Move>, reduction: int, ttPv: bool,
    moveCount: nat, cutoffs: nat, staticEval: int, plane: nat)

  /** The rules of the game as the search meets them. */
  datatype Rules = Rules(legal: Position -> set<Move>, inCheck: Position -> bool, declares: Position -> bool)

  /** Legal moves are playable, never take a king, and there are at most 593. */
  ghost predicate Sensible(rules: Rules) {
    forall p: Position | Evaluable(p) :: |rules.legal(p)| <= 593 && forall m | m in rules.legal(p) :: Steppable(p, m)
  }

  /** Each move is legal after the ones before it. */
  ghost predicate LegalLine(rules: Rules, p: Position, pv: seq<Move>)
    decreases |pv|
  {
    pv == [] || (pv[0] in rules.legal(p) && LegalLine(rules, DoMove(p, pv[0]), pv[1..]))
  }

  lemma LegalLineCons(rules: Rules, p: Position, m: Move, pv: seq<Move>)
    requires m in rules.legal(p) && LegalLine(rules, DoMove(p, m), pv)
    ensures LegalLine(rules, p, [m] + pv)
  {
    assert ([m] + pv)[1..] == pv;
  }

  // ----- what a search may do to the stack -----

  /** The lines below index `n` are untouched, and so are all marks of excluded moves. */
  ghost predicate Spared(a: seq<StackCell>, b: seq<StackCell>, n: nat) {
    && |a| == |b|
    && (forall i :: 0 <= i < n && i < |a| ==> b[i].pv == a[i].pv)
    && (forall i :: 0 <= i < |a| ==> b[i].excluded == a[i].excluded)
  }

  lemma SparedTrans(a: seq<StackCell>, b: seq<StackCell>, c: seq<StackCell>, n: nat, m: nat)
    requires Spared(a, b, n) && Spared(b, c, m) && n <= m
    ensures Spared(a, c, n)
  {}

  lemma SparedRefl(a: seq<StackCell>, n: nat)
    ensures Spared(a, a, n)
  {}

  // ----- averages of values -----

  /** A weighted mean that rounds towards zero lies between the two values. */
  lemma MeanBetween(lo: int, hi: int, d: int)
    requires lo <= hi && d >= 0
    ensures lo <= TwinPicker.TruncDiv(hi * d + lo, d + 1) <= hi
  {
    var x, n := hi * d + lo, d + 1;
    assert lo * n <= x <= hi * n by {
      assert lo * d <= hi * d;
    }
    DivBetween(x, n, lo, hi);
  }

  lemma DivBetween(x: int, n: int, lo: int, hi: int)
    requires n > 0 && lo * n <= x <= hi * n
    ensures lo <= TwinPicker.TruncDiv(x, n) <= hi
  {
    if x >= 0 {
      FloorBetween(x, n, lo, hi);
    } else {
      assert (-hi) * n <= -x <= (-lo) * n;
      FloorBetween(-x, n, -hi, -lo);
    }
  }

  lemma MulMonotone(a: int, b: int, n: int)
    requires a <= b && n >= 0
    ensures a * n <= b * n
  {}

  lemma FloorBetween(x: int, n: int, lo: int, hi: int)
    requires n > 0 && lo * n <= x <= hi * n
    ensures lo <= x / n <= hi
  {
    var q, r := x / n, x % n;
    assert x == q * n + r && 0 <= r < n;
    if q < lo {
      MulMonotone(q + 1, lo, n);
    }
    if q > hi {
      MulMonotone(hi + 1, q, n);
    }
  }

  // ----- where a search stands -----

  /** The board, how the line of play led there, and the depth of the accumulator stack. */
  datatype Core = Core(pos: Position, line: seq<Frame>, accDepth: nat, root: Position)

  /** The live accumulator slot stands for the position on the board. */
  ghost predicate Ready(rules: Rules, c: Core, ply: nat) {
    && Sensible(rules)
    && c.line != [] && Linked(c.line) && c.line[0] == Root(c.root)
    && c.pos == c.line[|c.line| - 1].pos && Evaluable(c.pos)
    && |PathOf(c.line)| == c.accDepth + 1
    && c.accDepth <= ply <= MAX_PLY
  }

  ghost function Played(c: Core, m: Move): Core {
    var q := DoMove(c.pos, m);
    Core(q, c.line + [Moved(q, m, Captured(c.pos, m))], c.accDepth + 1, c.root)
  }

  ghost function TurnPassed(c: Core): Core {
    var q := DoNullMove(c.pos);
    Core(q, c.line + [Passed(q)], c.accDepth, c.root)
  }

  lemma LegalIsSteppable(rules: Rules, p: Position, m: Move)
    requires Sensible(rules) && Evaluable(p) && m in rules.legal(p)
    ensures Steppable(p, m) && |rules.legal(p)| <= 593
  {}

  /** Playing a legal move pushes one slot, still at most one for each ply. */
  lemma PlayedReady(rules: Rules, c: Core, m: Move, ply: nat)
    requires Ready(rules, c, ply) && ply < MAX_PLY && m in rules.legal(c.pos)
    ensures Ready(rules, Played(c, m), ply + 1)
    ensures Follow(c.line, Play(m)) == Played(c, m).line
  {
    hide Evaluable, Steppable, DoMove, Captured, Sensible, Linked, PathOf;
    LegalIsSteppable(rules, c.pos, m);
    EvaluableAfter(c.pos, m);
    var f := Moved(DoMove(c.pos, m), m, Captured(c.pos, m));
    PathExtend(c.line, f);
    assert LinkedAt(c.line + [f], |c.line|);
    LinkedExtend(c.line, f);
  }

  lemma PlayedBack(rules: Rules, c: Core, m: Move, ply: nat)
    requires Ready(rules, c, ply) && m in rules.legal(c.pos)
    ensures UndoMove(Played(c, m).pos, m, Captured(c.pos, m)) == c.pos
    ensures Follow(Played(c, m).line, TakeBack) == c.line
  {
    LegalIsSteppable(rules, c.pos, m);
    UndoRestores(c.pos, m);
    hide Evaluable, Steppable, DoMove, UndoMove, Captured, Sensible, Linked;
    assert Played(c, m).line[..|c.line|] == c.line;
  }

  lemma PassedReady(rules: Rules, c: Core, ply: nat)
    requires Ready(rules, c, ply) && ply < MAX_PLY
    ensures Ready(rules, TurnPassed(c), ply + 1)
    ensures Follow(c.line, Pass) == TurnPassed(c).line
  {
    PassedEvaluable(c.pos);
    hide Evaluable, DoNullMove, Sensible, Linked;
    var f := Passed(DoNullMove(c.pos));
    PathExtend(c.line, f);
    assert LinkedAt(c.line + [f], |c.line|);
    LinkedExtend(c.line, f);
  }

  lemma PassedBack(c: Core)
    requires c.line != []
    ensures DoNullMove(TurnPassed(c).pos) == c.pos
    ensures Follow(TurnPassed(c).line, Unpass) == c.line
  {
    assert TurnPassed(c).line[..|c.line|] == c.line;
  }

  /** At every evaluation the slot read is the one for the position on the board. */
  lemma SlotIsLive(rules: Rules, c: Core, ply: nat)
    requires Ready(rules, c, ply)
    ensures PathOf(c.line)[c.accDepth] == c.pos && c.accDepth < ACC_LEN
  {}
}
