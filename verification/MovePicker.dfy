/** The staged move picker on one buffer. Every call yields what the multi-list twin
    yields, whatever the scores are at that call and whenever quiets are skipped. */
module MovePickers {
  import opened Wrappers
  import opened MoveSort
  import opened SortFacts
  import opened TwinPicker
  import opened PickerSteps
  import opened PickerPhases

  /** The scored segment [lo, hi), element by element. */
  method ScoreInPlace(a: array<ExtMove>, lo: nat, hi: nat, score: Move -> I32)
    requires lo <= hi <= a.Length
    modifies a
    ensures a[..] == old(a[..lo]) + Scored(Moves(old(a[lo..hi])), score) + old(a[hi..])
  {
    for i := lo to hi
      invariant forall k :: 0 <= k < lo || i <= k < a.Length ==> a[k] == old(a[k])
      invariant forall k :: lo <= k < i ==> a[k] == ExtMove(old(a[k]).mv, score(old(a[k]).mv))
    {
      var m := a[i].mv;
      a[i] := ExtMove(m, score(m));
    }
  }

  /** A generator appends its list. */
  method Emit(a: array<ExtMove>, at: nat, ms: seq<Move>)
    requires at + |ms| <= a.Length
    modifies a
    ensures a[..] == old(a[..at]) + Unscored(ms) + old(a[at + |ms|..])
  {
    for i := 0 to |ms|
      invariant forall k :: 0 <= k < at || at + i <= k < a.Length ==> a[k] == old(a[k])
      invariant forall k :: at <= k < at + i ==> a[k] == ExtMove(ms[k - at], 0)
    {
      a[at + i] := ExtMove(ms[i], 0);
    }
  }

  lemma KeptNext(env: Env, tt: Option<Move>, s: seq<ExtMove>, i: nat)
    requires i < |s|
    ensures Kept(env, tt, Moves(s[..i + 1]))
         == Kept(env, tt, Moves(s[..i])) + if env.legal(s[i].mv) && Some(s[i].mv) != tt then [s[i].mv] else []
  {
    assert Moves(s[..i + 1])[..i] == Moves(s[..i]);
  }

  lemma KeptNone(env: Env, tt: Option<Move>)
    ensures Kept(env, tt, []) == []
  {}

  lemma MovesAppend(s: seq<ExtMove>, e: ExtMove)
    ensures Moves(s + [e]) == Moves(s) + [e.mv]
  {}

  /** One element: kept at `k`, or dropped. */
  method RetainOne(a: array<ExtMove>, i: nat, k0: nat, env: Env, tt: Option<Move>, ghost all: seq<ExtMove>)
    returns (k: nat)
    requires k0 <= i < a.Length == |all| && a[i..] == all[i..]
    requires Moves(a[..k0]) == Kept(env, tt, Moves(all[..i]))
    modifies a
    ensures k <= i + 1 && a[i + 1..] == all[i + 1..]
    ensures Moves(a[..k]) == Kept(env, tt, Moves(all[..i + 1]))
  {
    KeptNext(env, tt, all, i);
    hide Kept;
    k := k0;
    assert a[i] == a[i..][0] == all[i] && all[i + 1..] == all[i..][1..];
    if env.legal(a[i].mv) && Some(a[i].mv) != tt {
      MovesAppend(a[..k], a[i]);
      a[k] := a[i];
      k := k + 1;
      assert a[..k] == old(a[..k0]) + [all[i]];
    }
    assert a[i + 1..] == old(a[i..])[1..];
  }

  /** Drops, in place, the illegal moves and the table move from the first `n`. */
  method Retain(a: array<ExtMove>, n: nat, env: Env, tt: Option<Move>) returns (k: nat)
    requires n <= a.Length
    modifies a
    ensures k <= n
    ensures Moves(a[..k]) == Kept(env, tt, Moves(old(a[..n])))
    ensures a[n..] == old(a[n..])
  {
    k := 0;
    ghost var all := a[..];
    KeptNone(env, tt);
    hide Kept;
    for i := 0 to n
      invariant k <= i
      invariant Moves(a[..k]) == Kept(env, tt, Moves(all[..i]))
      invariant a[i..] == all[i..]
    {
      k := RetainOne(a, i, k, env, tt, all);
    }
    assert all[..n] == old(a[..n]) && all[n..] == old(a[n..]);
  }

  class MovePicker {
    const env: Env
    const buf: array<ExtMove>
    const kind: Kind
    const tt: Option<Move>
    const depth: int
    const threshold: int

    var skipQuiets: bool
    var phase: Phase
    var cur: nat
    var endCur: nat
    var endBadCaptures: nat
    var endCaptures: nat
    var endGenerated: nat

    /** The simple picker this one follows. */
    ghost var twin: Twin
    /** The captures and the quiets as their sorts left them. */
    ghost var caps: seq<ExtMove>
    ghost var quiets: seq<ExtMove>

    ghost function Snap(): View
      reads this, buf
    {
      View(kind, tt, depth, threshold, skipQuiets,
           cur, endCur, endBadCaptures, endCaptures, endGenerated, buf[..], caps, quiets, twin)
    }

    ghost predicate Valid()
      reads this, buf
    {
      Holds(env, Snap(), phase)
    }

    /** Nothing is generated here. */
    constructor (env: Env, kind: Kind, ttMove: Option<Move>, depth: int, threshold: int)
      ensures Valid() && fresh(buf)
      ensures this.env == env && twin == NewTwin(env, kind, ttMove, depth, threshold)
    {
      this.env, this.kind, this.depth, this.threshold := env, kind, depth, threshold;
      this.tt := AcceptTt(env, kind, ttMove);
      buf := new ExtMove[|Generated(env, kind)| + |env.quiets|];
      skipQuiets := false;
      phase := Tt;
      cur, endCur, endBadCaptures, endCaptures, endGenerated := 0, 0, 0, 0, 0;
      twin := NewTwin(env, kind, ttMove, depth, threshold);
      caps, quiets := [], [];
    }

    method SkipQuietMoves()
      requires Valid()
      modifies this
      ensures Valid()
      ensures twin == TwinPicker.SkipQuietMoves(old(twin))
    {
      SkipKeeps(env, Snap(), phase);
      hide Holds;
      skipQuiets := true;
      twin := TwinPicker.SkipQuietMoves(twin);
    }

    // ----- walking a segment -----

    /** Advances to the first move of the segment that passes `test` and is not the
        table move. */
    method Select(test: ExtMove -> bool) returns (r: Option<Move>)
      requires cur <= endCur <= buf.Length
      modifies this`cur
      ensures var j := FirstFrom(Selectable(tt, test), buf[..endCur], old(cur));
        if j < endCur then r == Some(buf[j].mv) && cur == j + 1 else r == None && cur == endCur
    {
      ghost var s := buf[..endCur];
      while cur < endCur
        invariant cur <= endCur
        invariant FirstFrom(Selectable(tt, test), s, cur) == FirstFrom(Selectable(tt, test), s, old(cur))
      {
        var m := buf[cur].mv;
        if Some(m) != tt && test(buf[cur]) {
          r := Some(buf[cur].mv);
          cur := cur + 1;
          return;
        }
        cur := cur + 1;
      }
      r := None;
    }

    /** The same walk over the captures, moving each loser it meets to the end of the
        compacted region in front. */
    method SelectGoodCapture() returns (r: Option<Move>)
      requires cur <= endCur == |caps| <= buf.Length && Lacks(tt, caps)
      requires Compacted(env, caps, buf[..], endBadCaptures, cur)
      modifies this`cur, this`endBadCaptures, buf
      ensures Compacted(env, caps, buf[..], endBadCaptures, cur) && cur <= endCur
      ensures var j := FirstFrom(Winning(env), caps, old(cur));
        if j < endCur then r == Some(caps[j].mv) && cur == j + 1 else r == None && cur == endCur
    {
      hide Compacted;
      while cur < endCur
        invariant cur <= endCur
        invariant Compacted(env, caps, buf[..], endBadCaptures, cur)
        invariant FirstFrom(Winning(env), caps, cur) == FirstFrom(Winning(env), caps, old(cur))
      {
        CompactedHere(env, caps, buf[..], endBadCaptures, cur);
        var e := buf[cur];
        if Some(e.mv) != tt {
          if env.seeGe(e.mv, TruncDiv(Negate(e.value), 18)) {
            CompactWinner(env, caps, buf[..], endBadCaptures, cur);
            r := Some(e.mv);
            cur := cur + 1;
            return;
          }
          SwapLoser();
        }
        cur := cur + 1;
      }
      r := None;
    }

    method SwapLoser()
      requires cur < |caps| && !WinsExchange(env, caps[cur])
      requires Compacted(env, caps, buf[..], endBadCaptures, cur)
      modifies this`endBadCaptures, buf
      ensures Compacted(env, caps, buf[..], endBadCaptures, cur + 1)
    {
      ghost var b := buf[..];
      CompactLoser(env, caps, b, endBadCaptures, cur);
      buf[endBadCaptures], buf[cur] := buf[cur], buf[endBadCaptures];
      assert buf[..] == b[endBadCaptures := b[cur]][cur := b[endBadCaptures]];
      hide Compacted;
      endBadCaptures := endBadCaptures + 1;
    }

    // ----- the initial stages -----

    /** Writes the capture or evasion list and drops what may not be yielded. */
    method GenerateCaptureList()
      requires |Generated(env, kind)| <= buf.Length
      modifies this`endCaptures, this`endGenerated, buf
      ensures endCaptures == endGenerated <= |Generated(env, kind)|
      ensures Moves(buf[..endCaptures]) == Kept(env, tt, Generated(env, kind))
    {
      hide Kept;
      var ms := Generated(env, kind);
      Emit(buf, 0, ms);
      assert Moves(buf[..|ms|]) == ms;
      endCaptures := Retain(buf, |ms|, env, tt);
      endGenerated := endCaptures;
    }

    /** Generation, scoring and the full sort, as every capture-like stage starts. */
    method LoadCaptures(h: Scores)
      requires |Generated(env, kind)| <= buf.Length
      modifies this`endCaptures, this`endGenerated, this`cur, this`endCur, this`caps, buf
      ensures cur == 0 && endCur == endCaptures == endGenerated == |caps| <= |Generated(env, kind)|
      ensures buf[..endCur] == caps
      ensures caps == SortedList(env, kind, tt, h)
    {
      hide Kept, SortDesc, PartialSort;
      GenerateCaptureList();
      ScoreInPlace(buf, 0, endCaptures, CaptureScore(kind, h));
      assert buf[0..endCaptures] == Scored(Kept(env, tt, Generated(env, kind)), CaptureScore(kind, h));
      PartialInsertionSort(buf, 0, endCaptures, I32_MIN);
      FullSortIsStableSort(Scored(Kept(env, tt, Generated(env, kind)), CaptureScore(kind, h)), I32_MIN);
      cur, endCur := 0, endCaptures;
      caps := buf[..endCaptures];
    }

    // ----- one phase at a time -----

    method StepTt(h: Scores) returns (done: bool, r: Option<Move>)
      requires AtStart(env, Snap())
      modifies this
      ensures phase == InitPhase(kind) && BeforeCaptures(env, Snap())
      ensures Follows(env, h, old(twin), twin, done, r)
    {
      NextFromTt(twin, env, h);
      hide Next, Kept;
      phase := InitPhase(kind);
      twin := twin.(stage := CaptureInit);
      done, r := tt.Some?, tt;
    }

    method StepCaptureInit(h: Scores)
      requires BeforeCaptures(env, Snap())
      modifies this, buf
      ensures phase == WalkPhase(kind) && if kind.Main? then InGoodCaptures(env, Snap()) else InSingleList(env, Snap())
      ensures Follows(env, h, old(twin), twin, false, None)
    {
      ghost var v := Snap();
      LoadCaptures(h);
      endBadCaptures := 0;
      phase := WalkPhase(kind);
      hide *;
      twin := Enter(InitCaptures(twin, env, h), GoodCaptures);
      StartWalk(env, h, v, Snap());
    }

    method StepGoodCapture(h: Scores) returns (done: bool, r: Option<Move>)
      requires InGoodCaptures(env, Snap())
      modifies this, buf
      ensures if done then phase == old(phase) && InGoodCaptures(env, Snap())
              else phase == QuietInitPhase && BeforeQuiets(env, Snap())
      ensures Follows(env, h, old(twin), twin, done, r)
    {
      hide Next, Kept, Filter, Before, Compacted;
      ghost var v := Snap();
      ghost var j := FirstFrom(Winning(env), caps, cur);
      r := SelectGoodCapture();
      done := r.Some?;
      if done {
        twin := twin.(idx := twin.idx + 1);
        GoodCaptureFound(env, h, v, Snap(), j);
      } else {
        phase := QuietInitPhase;
        twin := Enter(twin, QuietInit);
        GoodCapturesOut(env, h, v, Snap());
      }
    }

    method StepQuietInit(h: Scores)
      requires BeforeQuiets(env, Snap())
      modifies this, buf
      ensures phase == GoodQuietPhase && InGoodQuiets(env, Snap())
      ensures Follows(env, h, old(twin), twin, false, None)
    {
      hide BeforeQuiets, InGoodQuiets, Next, Kept, Filter, InitQuiets, PartialSort, Follows;
      ghost var v := Snap();
      RoomForQuiets(env, v);
      if !skipQuiets {
        LoadQuiets(h);
      } else {
        quiets := [];
      }
      cur, endCur := endCaptures, endGenerated;
      phase := GoodQuietPhase;
      twin := Enter(if skipQuiets then twin else InitQuiets(twin, h), GoodQuiets);
      assert buf[..][endCaptures..endGenerated] == buf[endCaptures..endGenerated];
      assert buf[..][..endCaptures] == buf[..endCaptures] && v.b[..v.endCaptures] == old(buf[..endCaptures]);
      StartQuiets(env, h, v, Snap());
    }

    /** The raw quiets, scored and partially sorted behind the captures. */
    method LoadQuiets(h: Scores)
      requires endCaptures + |env.quiets| <= buf.Length
      modifies this`endGenerated, this`quiets, buf
      ensures endGenerated == endCaptures + |env.quiets|
      ensures buf[..endCaptures] == old(buf[..endCaptures])
      ensures buf[endCaptures..endGenerated] == quiets
      ensures quiets == PartialSort(Scored(env.quiets, h.quiet), -3560 * depth)
    {
      hide PartialSort;
      Emit(buf, endCaptures, env.quiets);
      endGenerated := endCaptures + |env.quiets|;
      assert Moves(buf[endCaptures..endGenerated]) == env.quiets;
      ScoreInPlace(buf, endCaptures, endGenerated, h.quiet);
      assert buf[endCaptures..endGenerated] == Scored(env.quiets, h.quiet);
      PartialInsertionSort(buf, endCaptures, endGenerated, -3560 * depth);
      quiets := buf[endCaptures..endGenerated];
    }

    /** Select over the quiets, as a walk of the sorted quiets. */
    method SelectQuiet(test: ExtMove -> bool) returns (r: Option<Move>)
      requires endCaptures <= cur <= endCur == endGenerated <= buf.Length
      requires buf[endCaptures..endGenerated] == quiets
      modifies this`cur
      ensures var j := FirstFrom(Selectable(tt, Both(test, env.legal)), quiets, old(cur) - endCaptures);
        if j < |quiets| then r == Some(quiets[j].mv) && cur == endCaptures + j + 1 else r == None && cur == endCur
    {
      FirstFromPart(Selectable(tt, Both(test, env.legal)), buf[..], endCaptures, endCur, cur);
      assert buf[..][..endCur] == buf[..endCur] && buf[..][endCaptures..endCur] == buf[endCaptures..endCur];
      r := Select(Both(test, env.legal));
    }

    method StepGoodQuiet(h: Scores) returns (done: bool, r: Option<Move>)
      requires InGoodQuiets(env, Snap())
      modifies this
      ensures if done then phase == old(phase) && InGoodQuiets(env, Snap())
              else phase == BadCapturePhase && InBadCaptures(env, Snap())
      ensures Follows(env, h, old(twin), twin, done, r)
    {
      hide Next, FirstFrom, Scan, Follows, InGoodQuiets, InBadQuiets, InBadCaptures, Selectable, Both, GoodQuiet;
      ghost var v := Snap();
      QuietBounds(env, v);
      assert buf[..][endCaptures..endGenerated] == buf[endCaptures..endGenerated];
      ghost var j := FirstFrom(Selectable(tt, Both(GoodQuiet(), env.legal)), quiets, cur - endCaptures);
      r := None;
      if !skipQuiets {
        r := SelectQuiet(GoodQuiet());
      }
      done := r.Some?;
      if done {
        twin := twin.(idx := Scan(env, tt, twin.goodQuiets, twin.idx) + 1);
        GoodQuietFound(env, h, v, Snap(), j);
      } else {
        cur, endCur := 0, endBadCaptures;
        phase := BadCapturePhase;
        twin := Enter(twin, BadCaptures);
        GoodQuietsOut(env, h, v);
      }
    }

    method StepBadCapture(h: Scores) returns (done: bool, r: Option<Move>)
      requires InBadCaptures(env, Snap())
      modifies this
      ensures if done then phase == old(phase) && InBadCaptures(env, Snap())
              else phase == BadQuietPhase && InBadQuiets(env, Snap())
      ensures Follows(env, h, old(twin), twin, done, r)
    {
      hide Next, FirstFrom, Follows, InBadCaptures, InBadQuiets, Selectable, Always;
      ghost var v := Snap();
      BadCaptureNext(env, h, v);
      assert buf[..][..endCur] == buf[..endCur];
      r := Select(Always());
      done := r.Some?;
      if done {
        twin := twin.(idx := twin.idx + 1);
      } else {
        BadCapturesOut(env, h, v);
        cur, endCur := endCaptures, endGenerated;
        phase := BadQuietPhase;
        twin := Enter(twin, BadQuiets);
      }
    }

    method StepBadQuiet(h: Scores) returns (done: bool, r: Option<Move>)
      requires InBadQuiets(env, Snap())
      modifies this
      ensures if done then phase == old(phase) && InBadQuiets(env, Snap())
              else phase == DonePhase && Paired(env, Snap()) && twin.stage.Done?
      ensures Follows(env, h, old(twin), twin, done, r)
    {
      hide Next, FirstFrom, Scan, Follows, InBadQuiets, InGoodQuiets, Paired, Selectable, Both, BadQuiet;
      ghost var v := Snap();
      QuietBounds(env, v);
      assert buf[..][endCaptures..endGenerated] == buf[endCaptures..endGenerated];
      if skipQuiets {
        BadQuietsSkipped(env, h, v);
        phase := DonePhase;
        twin := twin.(stage := Done);
        return false, None;
      }
      ghost var j := FirstFrom(Selectable(tt, Both(BadQuiet(), env.legal)), quiets, cur - endCaptures);
      r := SelectQuiet(BadQuiet());
      done := true;
      if r.Some? {
        twin := twin.(idx := Scan(env, tt, twin.badQuiets, twin.idx) + 1);
        BadQuietFound(env, h, v, Snap(), j);
      } else {
        BadQuietsOut(env, h, v);
        twin := Next(twin, env, h).after;
      }
    }

    method StepSingleList(h: Scores) returns (r: Option<Move>)
      requires InSingleList(env, Snap())
      modifies this
      ensures phase == old(phase) && InSingleList(env, Snap())
      ensures Follows(env, h, old(twin), twin, true, r)
    {
      hide Next, Kept, Filter, Before, FirstFrom, Generated, WalkTest;
      ghost var v := Snap();
      ghost var j := FirstFrom(Selectable(tt, WalkTest(env, kind, threshold)), caps, cur);
      assert buf[..][..endCur] == buf[..endCur] == caps;
      r := Select(WalkTest(env, kind, threshold));
      if r.Some? {
        SingleListFound(env, h, v, j);
        twin := twin.(idx := twin.idx + 1);
      } else {
        SingleListOut(env, h, v);
        twin := Next(twin, env, h).after;
      }
    }

    /** One turn of the loop: the phase's own step. */
    method Step(h: Scores) returns (done: bool, r: Option<Move>)
      requires Valid()
      modifies this, buf
      ensures Valid() && (!done ==> phase.Rank() < old(phase).Rank())
      ensures Follows(env, h, old(twin), twin, done, r)
    {
      hide Next, Follows, Paired, AtStart, BeforeCaptures, InGoodCaptures, BeforeQuiets, InGoodQuiets, InBadCaptures,
           InBadQuiets, InSingleList;
      done, r := false, None;
      match phase {
        case Tt => done, r := StepTt(h);
        case CaptureInitPhase | QcaptureInitPhase | EvasionInitPhase | ProbcutInitPhase => StepCaptureInit(h);
        case GoodCapturePhase => done, r := StepGoodCapture(h);
        case QuietInitPhase => StepQuietInit(h);
        case GoodQuietPhase => done, r := StepGoodQuiet(h);
        case BadCapturePhase => done, r := StepBadCapture(h);
        case BadQuietPhase => done, r := StepBadQuiet(h);
        case QcapturePhase | EvasionPhase | ProbcutPhase =>
          r := StepSingleList(h);
          done := true;
        case DonePhase =>
          DoneFollows(env, h, Snap());
          done := true;
      }
    }

    /** The next move of the buffer is the next move of the twin. */
    method NextMove(h: Scores) returns (r: Option<Move>)
      requires Valid()
      modifies this, buf
      ensures Valid()
      ensures WellIndexed(old(twin)) && Next(old(twin), env, h) == Yield(r, twin)
    {
      HoldsIndexed(env, Snap(), phase);
      hide Next, Holds, WellIndexed;
      ghost var start := twin;
      var done := false;
      r := None;
      while !done
        invariant Valid()
        invariant Follows(env, h, start, twin, done, r)
        decreases !done, phase.Rank()
      {
        done, r := Step(h);
      }
    }
  }
}
