/** The multi-list move picker: the simple definition of the order in which a search
    node gets its moves. */
module TwinPicker {
  import opened Wrappers
  import opened MoveSort

  const GOOD_QUIET_THRESHOLD := -14000

  type I32 = x: int | -0x8000_0000 <= x < 0x8000_0000

  datatype Kind = Main | QSearch | Evasion | ProbCut

  /** What the position answers: the generators' lists, and pure predicates. */
  datatype Env = Env(
    captures: seq<Move>, evasions: seq<Move>, quiets: seq<Move>,
    pseudoLegal: Move -> bool, legal: Move -> bool, isCapture: Move -> bool, seeGe: (Move, int) -> bool)

  /** The scores as the history tables stand at one call; searching a move may
      change them before the next. */
  datatype Scores = Scores(capture: Move -> I32, evasion: Move -> I32, quiet: Move -> I32)

  /** Division that rounds towards zero. */
  function TruncDiv(a: int, b: int): int
    requires b > 0
  {
    if a >= 0 then a / b else -((-a) / b)
  }

  /** 32-bit negation: the lowest value is its own negation. */
  function Negate(v: int): int {
    if v == I32_MIN then v else -v
  }

  predicate WinsExchange(env: Env, e: ExtMove) {
    env.seeGe(e.mv, TruncDiv(Negate(e.value), 18))
  }

  function Winning(env: Env): ExtMove -> bool {
    (e: ExtMove) => WinsExchange(env, e)
  }

  function Losing(env: Env): ExtMove -> bool {
    (e: ExtMove) => !WinsExchange(env, e)
  }

  function Clears(env: Env, threshold: int): ExtMove -> bool {
    (e: ExtMove) => env.seeGe(e.mv, threshold)
  }

  function GoodQuiet(): ExtMove -> bool {
    (e: ExtMove) => e.value > GOOD_QUIET_THRESHOLD
  }

  function BadQuiet(): ExtMove -> bool {
    (e: ExtMove) => e.value <= GOOD_QUIET_THRESHOLD
  }

  function Moves(s: seq<ExtMove>): (r: seq<Move>)
    ensures |r| == |s| && forall i :: 0 <= i < |s| ==> r[i] == s[i].mv
  {
    seq(|s|, i requires 0 <= i < |s| => s[i].mv)
  }

  function Scored(ms: seq<Move>, score: Move -> I32): (r: seq<ExtMove>)
    ensures |r| == |ms| && forall i :: 0 <= i < |ms| ==> r[i] == ExtMove(ms[i], score(ms[i]))
  {
    seq(|ms|, i requires 0 <= i < |ms| => ExtMove(ms[i], score(ms[i])))
  }

  /** The generated list without the illegal moves and the transposition-table move. */
  function Kept(env: Env, tt: Option<Move>, ms: seq<Move>): (r: seq<Move>)
    ensures |r| <= |ms|
    ensures forall i :: 0 <= i < |r| ==> r[i] in ms && env.legal(r[i]) && Some(r[i]) != tt
  {
    if ms == [] then []
    else
      var m := ms[|ms| - 1];
      Kept(env, tt, ms[..|ms| - 1]) + if env.legal(m) && Some(m) != tt then [m] else []
  }

  function Generated(env: Env, kind: Kind): seq<Move> {
    if kind.Evasion? then env.evasions else env.captures
  }

  /** Which transposition-table move a picker of this kind accepts. */
  function AcceptTt(env: Env, kind: Kind, m: Option<Move>): Option<Move> {
    if m.Some? && env.pseudoLegal(m.value) && env.legal(m.value) && (kind.ProbCut? ==> env.isCapture(m.value))
    then m else None
  }

  datatype Stage = AtTt | CaptureInit | GoodCaptures | QuietInit | GoodQuiets | BadCaptures | BadQuiets | Done {
    function Rank(): nat {
      match this
      case AtTt => 7
      case CaptureInit => 6
      case GoodCaptures => 5
      case QuietInit => 4
      case GoodQuiets => 3
      case BadCaptures => 2
      case BadQuiets => 1
      case Done => 0
    }
  }

  datatype Twin = Twin(
    kind: Kind, tt: Option<Move>, depth: int, threshold: int,
    rawCaptures: seq<Move>, rawQuiets: seq<Move>,
    goodCaptures: seq<Move>, badCaptures: seq<Move>, goodQuiets: seq<Move>, badQuiets: seq<Move>,
    skipQuiets: bool, stage: Stage, idx: nat)

  ghost predicate WellIndexed(t: Twin) {
    && (t.stage.GoodCaptures? ==> t.idx <= |t.goodCaptures|)
    && (t.stage.GoodQuiets? ==> t.idx <= |t.goodQuiets|)
    && (t.stage.BadCaptures? ==> t.idx <= |t.badCaptures|)
    && (t.stage.BadQuiets? ==> t.idx <= |t.badQuiets|)
  }

  /** Lists are empty before the stage that fills them, and quiets belong to the main search. */
  ghost predicate Sane(t: Twin) {
    && WellIndexed(t)
    && (!t.kind.Main? ==> t.rawQuiets == [])
    && (t.stage.Rank() >= 6 ==> t.goodCaptures == [] && t.badCaptures == [])
    && (t.stage.Rank() >= 4 ==> t.goodQuiets == [] && t.badQuiets == [])
  }

  /** Both raw lists are generated at construction. */
  function NewTwin(env: Env, kind: Kind, ttMove: Option<Move>, depth: int, threshold: int): (t: Twin)
    ensures Sane(t)
  {
    var tt := AcceptTt(env, kind, ttMove);
    Twin(kind, tt, depth, threshold,
         Kept(env, tt, Generated(env, kind)), if kind.Main? then env.quiets else [],
         [], [], [], [], false, AtTt, 0)
  }

  function SortedCaptures(t: Twin, h: Scores): seq<ExtMove> {
    SortDesc(Scored(t.rawCaptures, if t.kind.Evasion? then h.evasion else h.capture))
  }

  function InitCaptures(t: Twin, env: Env, h: Scores): Twin {
    var sorted := SortedCaptures(t, h);
    match t.kind
    case Main => t.(goodCaptures := Moves(Filter(Winning(env), sorted)),
                    badCaptures := Moves(Filter(Losing(env), sorted)))
    case ProbCut => t.(goodCaptures := Moves(Filter(Clears(env, t.threshold), sorted)))
    case QSearch => t.(goodCaptures := Moves(sorted))
    case Evasion => t.(goodCaptures := Moves(sorted))
  }

  /** The quiets are sorted with the illegal ones and the table move still in. */
  function SortedQuiets(t: Twin, h: Scores): seq<ExtMove> {
    PartialSort(Scored(t.rawQuiets, h.quiet), -3560 * t.depth)
  }

  function InitQuiets(t: Twin, h: Scores): Twin {
    var sorted := SortedQuiets(t, h);
    t.(goodQuiets := Moves(Filter(GoodQuiet(), sorted)), badQuiets := Moves(Filter(BadQuiet(), sorted)))
  }

  predicate Yieldable(env: Env, tt: Option<Move>, m: Move) {
    Some(m) != tt && env.legal(m)
  }

  /** The first index from `i` on whose move may be yielded, or the length. */
  function Scan(env: Env, tt: Option<Move>, ms: seq<Move>, i: nat): (j: nat)
    requires i <= |ms|
    ensures i <= j <= |ms|
    ensures j < |ms| ==> Yieldable(env, tt, ms[j])
    decreases |ms| - i
  {
    if i == |ms| || Yieldable(env, tt, ms[i]) then i else Scan(env, tt, ms, i + 1)
  }

  datatype Yield = Yield(move: Option<Move>, after: Twin)

  /** One stage transition without a yield. */
  function Enter(t: Twin, stage: Stage): Twin {
    t.(stage := stage, idx := 0)
  }

  /** The next move, with the scores read at each stage's entry. */
  ghost function Next(t: Twin, env: Env, h: Scores): (y: Yield)
    requires WellIndexed(t)
    ensures WellIndexed(y.after)
    decreases t.stage.Rank()
  {
    match t.stage
    case AtTt =>
      var u := t.(stage := CaptureInit);
      if t.tt.Some? then Yield(t.tt, u) else Next(u, env, h)
    case CaptureInit =>
      Next(Enter(InitCaptures(t, env, h), GoodCaptures), env, h)
    case GoodCaptures =>
      if t.idx < |t.goodCaptures| then Yield(Some(t.goodCaptures[t.idx]), t.(idx := t.idx + 1))
      else Next(Enter(t, QuietInit), env, h)
    case QuietInit =>
      Next(Enter(if t.kind.Main? && !t.skipQuiets then InitQuiets(t, h) else t, GoodQuiets), env, h)
    case GoodQuiets =>
      if t.skipQuiets then Next(Enter(t, BadCaptures), env, h)
      else
        var j := Scan(env, t.tt, t.goodQuiets, t.idx);
        if j < |t.goodQuiets| then Yield(Some(t.goodQuiets[j]), t.(idx := j + 1))
        else Next(Enter(t, BadCaptures), env, h)
    case BadCaptures =>
      if t.idx < |t.badCaptures| then Yield(Some(t.badCaptures[t.idx]), t.(idx := t.idx + 1))
      else Next(Enter(t, BadQuiets), env, h)
    case BadQuiets =>
      if t.skipQuiets then Yield(None, t.(stage := Done))
      else
        var j := Scan(env, t.tt, t.badQuiets, t.idx);
        if j < |t.badQuiets| then Yield(Some(t.badQuiets[j]), t.(idx := j + 1))
        else Yield(None, t.(stage := Done, idx := j))
    case Done => Yield(None, t)
  }

  /** The search may ask for no more quiets between any two calls. */
  function SkipQuietMoves(t: Twin): Twin {
    t.(skipQuiets := true)
  }
}
