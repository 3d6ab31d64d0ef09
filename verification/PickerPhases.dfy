/** The phases of the one-buffer picker: what its fields and buffer mean beside the twin
    in each, and how one step of a phase is one step of the twin. */
module PickerPhases {
  import opened Wrappers
  import opened MoveSort
  import opened SortFacts
  import opened TwinPicker
  import opened PickerSteps

  datatype Phase =
    | Tt
    | CaptureInitPhase | GoodCapturePhase | QuietInitPhase | GoodQuietPhase | BadCapturePhase | BadQuietPhase
    | QcaptureInitPhase | QcapturePhase
    | EvasionInitPhase | EvasionPhase
    | ProbcutInitPhase | ProbcutPhase
    | DonePhase
  {
    function Rank(): nat {
      match this
      case Tt => 7
      case CaptureInitPhase | QcaptureInitPhase | EvasionInitPhase | ProbcutInitPhase => 6
      case GoodCapturePhase => 5
      case QuietInitPhase => 4
      case GoodQuietPhase => 3
      case BadCapturePhase => 2
      case BadQuietPhase | QcapturePhase | EvasionPhase | ProbcutPhase => 1
      case DonePhase => 0
    }
  }

  /** The initial phase after the table move. */
  function InitPhase(kind: Kind): Phase {
    match kind
    case Main => CaptureInitPhase
    case QSearch => QcaptureInitPhase
    case Evasion => EvasionInitPhase
    case ProbCut => ProbcutInitPhase
  }

  /** The phase that walks the single list of the other kinds. */
  function WalkPhase(kind: Kind): Phase {
    match kind
    case Main => GoodCapturePhase
    case QSearch => QcapturePhase
    case Evasion => EvasionPhase
    case ProbCut => ProbcutPhase
  }

  /** What that phase tests. */
  function WalkTest(env: Env, kind: Kind, threshold: int): ExtMove -> bool {
    match kind
    case Main => Winning(env)
    case QSearch => Always()
    case Evasion => Always()
    case ProbCut => Clears(env, threshold)
  }

  /** The generators leave the value field for the scorer. */
  function Unscored(ms: seq<Move>): (r: seq<ExtMove>)
    ensures |r| == |ms| && forall i :: 0 <= i < |ms| ==> r[i] == ExtMove(ms[i], 0)
  {
    seq(|ms|, i requires 0 <= i < |ms| => ExtMove(ms[i], 0))
  }

  function CaptureScore(kind: Kind, h: Scores): Move -> I32 {
    if kind.Evasion? then h.evasion else h.capture
  }

  /** The capture list of one kind, scored and sorted. */
  ghost function SortedList(env: Env, kind: Kind, tt: Option<Move>, h: Scores): seq<ExtMove> {
    SortDesc(Scored(Kept(env, tt, Generated(env, kind)), CaptureScore(kind, h)))
  }

  /** A picker's fields, with its buffer as a value and the twin beside it. */
  datatype View = View(
    kind: Kind, tt: Option<Move>, depth: int, threshold: int, skipQuiets: bool,
    cur: nat, endCur: nat, endBadCaptures: nat, endCaptures: nat, endGenerated: nat,
    b: seq<ExtMove>, caps: seq<ExtMove>, quiets: seq<ExtMove>, twin: Twin)

  ghost predicate NoLists(t: Twin) {
    t.goodCaptures == [] && t.badCaptures == [] && NoQuiets(t)
  }

  ghost predicate NoQuiets(t: Twin) {
    t.goodQuiets == [] && t.badQuiets == []
  }

  // ----- what each phase keeps -----

  ghost predicate SameSettings(env: Env, v: View) {
    && v.twin.kind == v.kind && v.twin.tt == v.tt && v.twin.depth == v.depth && v.twin.threshold == v.threshold
    && v.twin.skipQuiets == v.skipQuiets
    && v.twin.rawCaptures == Kept(env, v.tt, Generated(env, v.kind))
    && v.twin.rawQuiets == (if v.kind.Main? then env.quiets else [])
  }

  ghost predicate Paired(env: Env, v: View) {
    && SameSettings(env, v)
    && WellIndexed(v.twin)
    && v.cur <= v.endCur <= v.endGenerated <= |v.b|
    && v.endBadCaptures <= v.endCaptures <= v.endGenerated
    && v.endCaptures <= |Generated(env, v.kind)|
    && |Generated(env, v.kind)| + |env.quiets| <= |v.b|
  }

  ghost predicate AtStart(env: Env, v: View) {
    Paired(env, v) && v.twin.stage.AtTt? && NoLists(v.twin) && v.endGenerated == 0
  }

  ghost predicate BeforeCaptures(env: Env, v: View) {
    Paired(env, v) && v.twin.stage.CaptureInit? && NoLists(v.twin) && v.endGenerated == 0
  }

  ghost predicate InGoodCaptures(env: Env, v: View) {
    && Paired(env, v)
    && v.kind.Main? && v.twin.stage.GoodCaptures? && NoQuiets(v.twin)
    && v.endCur == v.endCaptures == v.endGenerated == |v.caps|
    && Lacks(v.tt, v.caps)
    && Compacted(env, v.caps, v.b, v.endBadCaptures, v.cur)
    && v.twin.goodCaptures == Moves(Filter(Winning(env), v.caps))
    && v.twin.badCaptures == Moves(Filter(Losing(env), v.caps))
    && v.twin.idx == Before(Winning(env), v.caps, v.cur)
  }

  /** The compacted losers are the twin's bad captures. */
  ghost predicate LosersInFront(env: Env, v: View)
    requires v.endBadCaptures <= |v.b|
  {
    && Lacks(v.tt, v.caps)
    && v.b[..v.endBadCaptures] == Filter(Losing(env), v.caps)
    && v.twin.badCaptures == Moves(Filter(Losing(env), v.caps))
  }

  ghost predicate QuietsBehind(v: View)
    requires v.endCaptures <= v.endGenerated <= |v.b|
  {
    && v.b[v.endCaptures..v.endGenerated] == v.quiets
    && v.twin.goodQuiets == Moves(Filter(GoodQuiet(), v.quiets))
    && v.twin.badQuiets == Moves(Filter(BadQuiet(), v.quiets))
  }

  ghost predicate BeforeQuiets(env: Env, v: View) {
    && Paired(env, v)
    && v.kind.Main? && v.twin.stage.QuietInit? && NoQuiets(v.twin)
    && v.endGenerated == v.endCaptures && LosersInFront(env, v)
  }

  ghost predicate InGoodQuiets(env: Env, v: View) {
    && Paired(env, v)
    && v.kind.Main? && v.twin.stage.GoodQuiets?
    && LosersInFront(env, v) && QuietsBehind(v)
    && v.endCaptures <= v.cur && v.endCur == v.endGenerated
    && v.twin.idx == Before(GoodQuiet(), v.quiets, v.cur - v.endCaptures)
  }

  ghost predicate InBadCaptures(env: Env, v: View) {
    && Paired(env, v)
    && v.kind.Main? && v.twin.stage.BadCaptures?
    && LosersInFront(env, v) && QuietsBehind(v)
    && v.endCur == v.endBadCaptures && v.twin.idx == v.cur
  }

  ghost predicate InBadQuiets(env: Env, v: View) {
    && Paired(env, v)
    && v.kind.Main? && QuietsBehind(v)
    && v.endCaptures <= v.cur && v.endCur == v.endGenerated
    && (if v.twin.stage.BadQuiets? then v.twin.idx == Before(BadQuiet(), v.quiets, v.cur - v.endCaptures)
        else v.twin.stage.Done? && v.cur == v.endCur)
  }

  ghost predicate InSingleList(env: Env, v: View) {
    && Paired(env, v)
    && !v.kind.Main? && v.twin.badCaptures == [] && NoQuiets(v.twin)
    && v.endCur == v.endCaptures == |v.caps| && v.b[..v.endCur] == v.caps
    && Lacks(v.tt, v.caps)
    && v.twin.goodCaptures == Moves(Filter(WalkTest(env, v.kind, v.threshold), v.caps))
    && (if v.twin.stage.GoodCaptures? then v.twin.idx == Before(WalkTest(env, v.kind, v.threshold), v.caps, v.cur)
        else v.twin.stage.Done? && v.cur == v.endCur)
  }

  ghost predicate Holds(env: Env, v: View, phase: Phase) {
    match phase
    case Tt => AtStart(env, v)
    case CaptureInitPhase => BeforeCaptures(env, v) && v.kind.Main?
    case QcaptureInitPhase => BeforeCaptures(env, v) && v.kind.QSearch?
    case EvasionInitPhase => BeforeCaptures(env, v) && v.kind.Evasion?
    case ProbcutInitPhase => BeforeCaptures(env, v) && v.kind.ProbCut?
    case GoodCapturePhase => InGoodCaptures(env, v)
    case QuietInitPhase => BeforeQuiets(env, v)
    case GoodQuietPhase => InGoodQuiets(env, v)
    case BadCapturePhase => InBadCaptures(env, v)
    case BadQuietPhase => InBadQuiets(env, v)
    case QcapturePhase => InSingleList(env, v) && v.kind.QSearch?
    case EvasionPhase => InSingleList(env, v) && v.kind.Evasion?
    case ProbcutPhase => InSingleList(env, v) && v.kind.ProbCut?
    case DonePhase => Paired(env, v) && v.twin.stage.Done?
  }

  /** What a step has come to: it yields `r`, or the call goes on from `u`. */
  ghost predicate Follows(env: Env, h: Scores, t: Twin, u: Twin, done: bool, r: Option<Move>) {
    && WellIndexed(t) && WellIndexed(u)
    && Next(t, env, h) == if done then Yield(r, u) else Next(u, env, h)
  }

  lemma SkipKeeps(env: Env, v: View, phase: Phase)
    requires Holds(env, v, phase)
    ensures Holds(env, v.(skipQuiets := true, twin := SkipQuietMoves(v.twin)), phase)
  {
    hide Kept, Filter, Before, Compacted, Lacks, Moves;
  }

  // ----- one phase at a time -----

  /** The twin after its own capture stage, in terms of the sorted list. */
  lemma InitCapturesFacts(t: Twin, env: Env, h: Scores, caps: seq<ExtMove>)
    requires t.rawCaptures == Kept(env, t.tt, Generated(env, t.kind)) && NoLists(t)
    requires caps == SortedList(env, t.kind, t.tt, h)
    ensures InitCaptures(t, env, h) == t.(
            goodCaptures := Moves(Filter(WalkTest(env, t.kind, t.threshold), caps)),
            badCaptures := if t.kind.Main? then Moves(Filter(Losing(env), caps)) else [])
    ensures Lacks(t.tt, caps)
  {
    hide SortDesc, Kept, Filter, Lacks, Scored, Moves, PartialSort;
    SortedCapturesFacts(t, env, h, Scored(t.rawCaptures, CaptureScore(t.kind, h)));
    FilterTakesAll(Always(), caps);
    assert SortedCaptures(t, h) == caps;
  }

  /** From the sorted captures to the first walk. */
  lemma StartWalk(env: Env, h: Scores, v: View, w: View)
    requires BeforeCaptures(env, v)
    requires w == v.(cur := 0, endBadCaptures := 0, endCur := |w.caps|, endCaptures := |w.caps|,
                     endGenerated := |w.caps|, b := w.b, caps := w.caps,
                     twin := Enter(InitCaptures(v.twin, env, h), GoodCaptures))
    requires |w.b| == |v.b| && |w.caps| <= |Generated(env, v.kind)|
    requires w.b[..|w.caps|] == w.caps == SortedList(env, v.kind, v.tt, h)
    ensures if v.kind.Main? then InGoodCaptures(env, w) else InSingleList(env, w)
    ensures Follows(env, h, v.twin, w.twin, false, None)
  {
    hide Next, InitCaptures, Kept, Filter, Before, Compacted, Lacks, SortedList, Moves, Generated, WalkTest;
    NextFromCaptureInit(v.twin, env, h);
    InitCapturesFacts(v.twin, env, h, w.caps);
    CompactedStart(env, w.caps, w.b);
    BeforeEnds(WalkTest(env, v.kind, v.threshold), w.caps);
    MainWalk(env, v.kind, v.threshold);
  }

  lemma MainWalk(env: Env, kind: Kind, threshold: int)
    ensures kind.Main? ==> WalkTest(env, kind, threshold) == Winning(env)
  {}

  lemma GoodCaptureYield(t: Twin, env: Env, h: Scores, caps: seq<ExtMove>, k: nat, j: nat)
    requires WellIndexed(t) && t.stage.GoodCaptures? && k <= |caps|
    requires t.goodCaptures == Moves(Filter(Winning(env), caps)) && t.idx == Before(Winning(env), caps, k)
    requires j == FirstFrom(Winning(env), caps, k) < |caps|
    ensures t.idx < |t.goodCaptures| && Before(Winning(env), caps, j + 1) == t.idx + 1
    ensures Next(t, env, h) == Yield(Some(caps[j].mv), t.(idx := t.idx + 1))
  {
    NextFromGoodCaptures(t, env, h);
    WalkIsNext(Winning(env), caps, k);
    hide Next, Filter, Before, FirstFrom;
  }

  /** A winner is met. */
  lemma GoodCaptureFound(env: Env, h: Scores, v: View, w: View, j: nat)
    requires InGoodCaptures(env, v) && j == FirstFrom(Winning(env), v.caps, v.cur) < |v.caps|
    requires Compacted(env, v.caps, w.b, w.endBadCaptures, j + 1) && |w.b| == |v.b|
    requires w == v.(cur := j + 1, endBadCaptures := w.endBadCaptures, b := w.b, twin := v.twin.(idx := v.twin.idx + 1))
    ensures InGoodCaptures(env, w)
    ensures Follows(env, h, v.twin, w.twin, true, Some(v.caps[j].mv))
  {
    GoodCaptureYield(v.twin, env, h, v.caps, v.cur, j);
    CompactedBound(env, v.caps, w.b, w.endBadCaptures, w.cur);
    hide Next, Kept, Filter, Before, Compacted, Lacks, FirstFrom, Generated;
  }

  /** None is left. */
  lemma GoodCapturesOut(env: Env, h: Scores, v: View, w: View)
    requires InGoodCaptures(env, v) && FirstFrom(Winning(env), v.caps, v.cur) == |v.caps|
    requires Compacted(env, v.caps, w.b, w.endBadCaptures, |v.caps|) && |w.b| == |v.b|
    requires w == v.(cur := |v.caps|, endBadCaptures := w.endBadCaptures, b := w.b, twin := Enter(v.twin, QuietInit))
    ensures BeforeQuiets(env, w)
    ensures Follows(env, h, v.twin, w.twin, false, None)
  {
    NextFromGoodCaptures(v.twin, env, h);
    WalkIsNext(Winning(env), v.caps, v.cur);
    CompactedBound(env, v.caps, w.b, w.endBadCaptures, w.cur);
    CompactedEnd(env, v.caps, w.b, w.endBadCaptures);
    hide Next, Kept, Filter, Before, Compacted, Lacks, FirstFrom;
  }

  lemma RoomForQuiets(env: Env, v: View)
    requires BeforeQuiets(env, v)
    ensures v.endGenerated == v.endCaptures && v.endCaptures + |env.quiets| <= |v.b|
  {}

  /** From the sorted quiets, or none when they are skipped, to their first walk. */
  lemma StartQuiets(env: Env, h: Scores, v: View, w: View)
    requires BeforeQuiets(env, v)
    requires w == v.(cur := v.endCaptures, endCur := w.endGenerated, endGenerated := w.endGenerated,
                     b := w.b, quiets := w.quiets,
                     twin := Enter(if v.skipQuiets then v.twin else InitQuiets(v.twin, h), GoodQuiets))
    requires |w.b| == |v.b| && v.endCaptures <= w.endGenerated <= |w.b|
    requires w.b[..v.endCaptures] == v.b[..v.endCaptures]
    requires w.b[v.endCaptures..w.endGenerated] == w.quiets
    requires w.quiets == if v.skipQuiets then [] else PartialSort(Scored(env.quiets, h.quiet), -3560 * v.depth)
    ensures InGoodQuiets(env, w)
    ensures Follows(env, h, v.twin, w.twin, false, None)
  {
    NextFromQuietInit(v.twin, env, h);
    BeforeEnds(GoodQuiet(), w.quiets);
    assert w.b[..v.endBadCaptures] == w.b[..v.endCaptures][..v.endBadCaptures] == v.b[..v.endBadCaptures];
    FilterTakesAll(GoodQuiet(), []);
    FilterTakesAll(BadQuiet(), []);
    hide Next, Kept, Filter, Before, Compacted, Lacks, PartialSort;
  }

  lemma GoodQuietYield(t: Twin, env: Env, h: Scores, quiets: seq<ExtMove>, k: nat, j: nat)
    requires WellIndexed(t) && t.stage.GoodQuiets? && !t.skipQuiets && k <= |quiets|
    requires t.goodQuiets == Moves(Filter(GoodQuiet(), quiets)) && t.idx == Before(GoodQuiet(), quiets, k)
    requires j == FirstFrom(Selectable(t.tt, Both(GoodQuiet(), env.legal)), quiets, k) < |quiets|
    ensures var i := Scan(env, t.tt, t.goodQuiets, t.idx);
      i < |t.goodQuiets| && Before(GoodQuiet(), quiets, j + 1) == i + 1
      && Next(t, env, h) == Yield(Some(quiets[j].mv), t.(idx := i + 1))
  {
    NextFromGoodQuiets(t, env, h);
    WalkIsScan(env, t.tt, GoodQuiet(), quiets, k);
    hide Next, Filter, Before, FirstFrom, Scan;
  }

  /** Moving the cursor and the twin's index along leaves the regions as they are. */
  lemma MovedAlong(env: Env, v: View, cur: nat, idx: nat)
    requires v.endBadCaptures <= |v.b|
    requires v.endCaptures <= v.endGenerated <= |v.b|
    ensures var w := v.(cur := cur, twin := v.twin.(idx := idx));
      && LosersInFront(env, w) == LosersInFront(env, v)
      && QuietsBehind(w) == QuietsBehind(v)
      && SameSettings(env, w) == SameSettings(env, v)
  {
    hide Filter, Lacks, Kept;
  }

  /** A quiet is met. */
  lemma TwinSettings(env: Env, v: View)
    requires SameSettings(env, v)
    ensures v.twin.tt == v.tt && v.twin.skipQuiets == v.skipQuiets
  {}

  lemma GoodQuietFound(env: Env, h: Scores, v: View, w: View, j: nat)
    requires InGoodQuiets(env, v) && !v.skipQuiets
    requires j < |v.quiets|
    requires j == FirstFrom(Selectable(v.tt, Both(GoodQuiet(), env.legal)), v.quiets, v.cur - v.endCaptures)
    requires w == v.(cur := v.endCaptures + j + 1,
                     twin := v.twin.(idx := Scan(env, v.tt, v.twin.goodQuiets, v.twin.idx) + 1))
    ensures InGoodQuiets(env, w)
    ensures Follows(env, h, v.twin, w.twin, true, Some(v.quiets[j].mv))
  {
    hide Next, Kept, Filter, Before, FirstFrom, Scan, Generated, LosersInFront, SameSettings;
    TwinSettings(env, v);
    GoodQuietYield(v.twin, env, h, v.quiets, v.cur - v.endCaptures, j);
    MovedAlong(env, v, w.cur, w.twin.idx);
    assert |v.quiets| == v.endGenerated - v.endCaptures;
  }

  /** Where the walk of the quiets stands. */
  lemma QuietBounds(env: Env, v: View)
    requires InGoodQuiets(env, v) || InBadQuiets(env, v)
    ensures v.endCaptures <= v.cur <= v.endCur == v.endGenerated <= |v.b|
    ensures v.b[v.endCaptures..v.endGenerated] == v.quiets && v.twin.skipQuiets == v.skipQuiets
    ensures InGoodQuiets(env, v) ==> v.twin.idx <= |v.twin.goodQuiets|
    ensures v.twin.stage.BadQuiets? ==> v.twin.idx <= |v.twin.badQuiets|
    ensures InBadQuiets(env, v) ==> v.twin.stage.BadQuiets? || v.cur == v.endCur
    ensures WellIndexed(v.twin)
  {}

  lemma FilteredLength(f: ExtMove -> bool, s: seq<ExtMove>)
    ensures |Moves(Filter(f, s))| == |Filter(f, s)|
  {
    hide Filter;
  }

  lemma GoodQuietsOut(env: Env, h: Scores, v: View)
    requires InGoodQuiets(env, v)
    requires v.skipQuiets
          || FirstFrom(Selectable(v.tt, Both(GoodQuiet(), env.legal)), v.quiets, v.cur - v.endCaptures) == |v.quiets|
    ensures var w := v.(cur := 0, endCur := v.endBadCaptures, twin := Enter(v.twin, BadCaptures));
      InBadCaptures(env, w) && Follows(env, h, v.twin, w.twin, false, None)
  {
    hide Next, Kept, Filter, Before, Lacks, FirstFrom, Scan, Moves, Generated, Selectable, Both, GoodQuiet, BadQuiet;
    NextFromGoodQuiets(v.twin, env, h);
    TwinSettings(env, v);
    if !v.skipQuiets {
      WalkIsScan(env, v.tt, GoodQuiet(), v.quiets, v.cur - v.endCaptures);
      FilteredLength(GoodQuiet(), v.quiets);
    }
  }

  /** No loser is the table move, so the replay takes every one. */
  lemma BadCaptureNext(env: Env, h: Scores, v: View)
    requires InBadCaptures(env, v)
    ensures v.cur <= v.endCur <= |v.b|
    ensures FirstFrom(Selectable(v.tt, Always()), v.b[..v.endCur], v.cur) == v.cur
    ensures v.cur < v.endCur ==>
      var w := v.(cur := v.cur + 1, twin := v.twin.(idx := v.twin.idx + 1));
      InBadCaptures(env, w) && Follows(env, h, v.twin, w.twin, true, Some(v.b[v.cur].mv))
  {
    NextFromBadCaptures(v.twin, env, h);
    var losers := Filter(Losing(env), v.caps);
    FilterMembers(Losing(env), v.caps);
    assert v.cur < v.endCur ==> v.b[..v.endCur][v.cur] in v.caps;
    hide Next, Kept, Filter, Before, Compacted;
    assert v.cur < v.endCur ==> v.b[v.cur] == losers[v.cur];
  }

  lemma BadCapturesOut(env: Env, h: Scores, v: View)
    requires InBadCaptures(env, v) && v.cur == v.endCur
    ensures var w := v.(cur := v.endCaptures, endCur := v.endGenerated, twin := Enter(v.twin, BadQuiets));
      InBadQuiets(env, w) && Follows(env, h, v.twin, w.twin, false, None)
  {
    NextFromBadCaptures(v.twin, env, h);
    BeforeEnds(BadQuiet(), v.quiets);
    hide Next, Kept, Filter, Before, Compacted, Lacks;
  }

  lemma NextFromBadQuiets(t: Twin, env: Env, h: Scores)
    requires WellIndexed(t) && t.stage.BadQuiets?
    ensures var j := Scan(env, t.tt, t.badQuiets, t.idx);
      Next(t, env, h)
      == if t.skipQuiets then Yield(None, t.(stage := Done))
         else if j < |t.badQuiets| then Yield(Some(t.badQuiets[j]), t.(idx := j + 1))
         else Yield(None, t.(stage := Done, idx := j))
  {}

  lemma NextFromDone(t: Twin, env: Env, h: Scores)
    requires WellIndexed(t) && t.stage.Done?
    ensures Next(t, env, h) == Yield(None, t)
  {}

  lemma DoneFollows(env: Env, h: Scores, v: View)
    requires Paired(env, v) && v.twin.stage.Done?
    ensures Follows(env, h, v.twin, v.twin, true, None)
  {
    NextFromDone(v.twin, env, h);
  }

  lemma BadQuietYield(t: Twin, env: Env, h: Scores, quiets: seq<ExtMove>, k: nat, j: nat)
    requires WellIndexed(t) && t.stage.BadQuiets? && !t.skipQuiets && k <= |quiets|
    requires t.badQuiets == Moves(Filter(BadQuiet(), quiets)) && t.idx == Before(BadQuiet(), quiets, k)
    requires j == FirstFrom(Selectable(t.tt, Both(BadQuiet(), env.legal)), quiets, k) < |quiets|
    ensures var i := Scan(env, t.tt, t.badQuiets, t.idx);
      i < |t.badQuiets| && Before(BadQuiet(), quiets, j + 1) == i + 1
      && Next(t, env, h) == Yield(Some(quiets[j].mv), t.(idx := i + 1))
  {
    NextFromBadQuiets(t, env, h);
    WalkIsScan(env, t.tt, BadQuiet(), quiets, k);
    hide Next, Filter, Before, FirstFrom, Scan;
  }

  lemma BadQuietFound(env: Env, h: Scores, v: View, w: View, j: nat)
    requires InBadQuiets(env, v) && !v.skipQuiets
    requires j == FirstFrom(Selectable(v.tt, Both(BadQuiet(), env.legal)), v.quiets, v.cur - v.endCaptures) < |v.quiets|
    requires w == v.(cur := v.endCaptures + j + 1,
                     twin := v.twin.(idx := Scan(env, v.tt, v.twin.badQuiets, v.twin.idx) + 1))
    ensures InBadQuiets(env, w)
    ensures Follows(env, h, v.twin, w.twin, true, Some(v.quiets[j].mv))
  {
    hide Next, Kept, Filter, Before, FirstFrom, Scan, Generated, Selectable, Both, GoodQuiet, BadQuiet, SameSettings;
    TwinSettings(env, v);
    BadQuietYield(v.twin, env, h, v.quiets, v.cur - v.endCaptures, j);
    MovedAlong(env, v, w.cur, w.twin.idx);
  }

  lemma BadQuietsEnd(env: Env, h: Scores, v: View)
    requires InBadQuiets(env, v) && !v.skipQuiets
    requires FirstFrom(Selectable(v.tt, Both(BadQuiet(), env.legal)), v.quiets, v.cur - v.endCaptures) == |v.quiets|
    ensures exists idx: nat :: Next(v.twin, env, h) == Yield(None, v.twin.(stage := Done, idx := idx))
  {
    if v.twin.stage.BadQuiets? {
      NextFromBadQuiets(v.twin, env, h);
      WalkIsScan(env, v.tt, BadQuiet(), v.quiets, v.cur - v.endCaptures);
    } else {
      NextFromDone(v.twin, env, h);
      assert v.twin == v.twin.(stage := Done, idx := v.twin.idx);
    }
  }

  /** The last phase stays where it is; only the twin notices the end. */
  lemma BadQuietsOut(env: Env, h: Scores, v: View)
    requires InBadQuiets(env, v) && !v.skipQuiets
    requires FirstFrom(Selectable(v.tt, Both(BadQuiet(), env.legal)), v.quiets, v.cur - v.endCaptures) == |v.quiets|
    ensures var w := v.(cur := v.endCur, twin := Next(v.twin, env, h).after);
      InBadQuiets(env, w) && Follows(env, h, v.twin, w.twin, true, None)
  {
    BadQuietsEnd(env, h, v);
    hide Next, Kept, Filter, Before, Compacted, Lacks, FirstFrom, Scan, Moves, Generated;
  }

  lemma BadQuietsSkipped(env: Env, h: Scores, v: View)
    requires InBadQuiets(env, v) && v.skipQuiets
    ensures var w := v.(twin := v.twin.(stage := Done));
      Paired(env, w) && Follows(env, h, v.twin, w.twin, false, None)
  {
    NextFromDone(v.twin.(stage := Done), env, h);
    if v.twin.stage.BadQuiets? {
      NextFromBadQuiets(v.twin, env, h);
    } else {
      NextFromDone(v.twin, env, h);
    }
    hide Next, Kept, Filter, Before, Compacted, Lacks, Scan, Moves;
  }

  lemma SingleListYield(t: Twin, env: Env, h: Scores, f: ExtMove -> bool, caps: seq<ExtMove>, k: nat, j: nat)
    requires WellIndexed(t) && t.stage.GoodCaptures? && k <= |caps| && Lacks(t.tt, caps)
    requires t.goodCaptures == Moves(Filter(f, caps)) && t.idx == Before(f, caps, k)
    requires j == FirstFrom(Selectable(t.tt, f), caps, k) < |caps|
    ensures t.idx < |t.goodCaptures| && Before(f, caps, j + 1) == t.idx + 1
    ensures Next(t, env, h) == Yield(Some(caps[j].mv), t.(idx := t.idx + 1))
  {
    NextFromGoodCaptures(t, env, h);
    FirstFromLacking(f, t.tt, caps, k);
    WalkIsNext(f, caps, k);
    hide Next, Filter, Before, FirstFrom, Lacks;
  }

  /** One walk over a single list meets a move. */
  lemma SingleListFound(env: Env, h: Scores, v: View, j: nat)
    requires InSingleList(env, v)
    requires j == FirstFrom(Selectable(v.tt, WalkTest(env, v.kind, v.threshold)), v.caps, v.cur) < |v.caps|
    ensures var w := v.(cur := j + 1, twin := v.twin.(idx := v.twin.idx + 1));
      InSingleList(env, w) && Follows(env, h, v.twin, w.twin, true, Some(v.caps[j].mv))
  {
    SingleListYield(v.twin, env, h, WalkTest(env, v.kind, v.threshold), v.caps, v.cur, j);
    hide Next, Kept, Filter, Before, Lacks, FirstFrom, WalkTest, Selectable, Generated;
  }

  /** Or comes to its end. */
  lemma SingleListEnd(env: Env, h: Scores, v: View)
    requires InSingleList(env, v)
    requires FirstFrom(Selectable(v.tt, WalkTest(env, v.kind, v.threshold)), v.caps, v.cur) == |v.caps|
    ensures exists idx: nat :: Next(v.twin, env, h) == Yield(None, v.twin.(stage := Done, idx := idx))
  {
    var f := WalkTest(env, v.kind, v.threshold);
    if v.twin.stage.Done? {
      NextFromDone(v.twin, env, h);
      assert v.twin == v.twin.(stage := Done, idx := v.twin.idx);
    } else {
      FirstFromLacking(f, v.tt, v.caps, v.cur);
      WalkIsNext(f, v.caps, v.cur);
      hide Next, Kept, Filter, Before, Lacks, FirstFrom, WalkTest, Selectable, Generated;
      DrainsOut(v.twin, env, h);
    }
  }

  lemma SingleListOut(env: Env, h: Scores, v: View)
    requires InSingleList(env, v)
    requires FirstFrom(Selectable(v.tt, WalkTest(env, v.kind, v.threshold)), v.caps, v.cur) == |v.caps|
    ensures var w := v.(cur := v.endCur, twin := Next(v.twin, env, h).after);
      InSingleList(env, w) && Follows(env, h, v.twin, w.twin, true, None)
  {
    SingleListEnd(env, h, v);
    hide Next, Kept, Filter, Before, Lacks, FirstFrom, WalkTest, Selectable, Moves, Generated;
  }

  lemma CompactedBound(env: Env, s: seq<ExtMove>, b: seq<ExtMove>, bad: nat, cur: nat)
    requires Compacted(env, s, b, bad, cur)
    ensures bad <= cur <= |s| <= |b|
  {}

  lemma HoldsIndexed(env: Env, v: View, phase: Phase)
    requires Holds(env, v, phase)
    ensures WellIndexed(v.twin)
  {
    hide Kept, Filter, Before, Compacted, Lacks, Moves, SameSettings;
  }
}
