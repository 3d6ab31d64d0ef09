/** The list of root moves with its statistics, and the aspiration windows aimed by them. */
module SearchRoot {
  import opened Shogi
  import opened SearchCore
  import TwinPicker

  /** The mark of statistics not yet taken. */
  const NO_SQUARE := -(INF * INF)

  // A line above the squares of all values, with room for what averaging loses.
  const SLOPE := 36000
  const OFFSET := 1100000000

  /** What an average and the average of the signed squares of the same values can be: with
      a low average go squares far below zero. */
  predicate Statistics(average: int, meanSquared: int) {
    && -WORD <= average < INF && -WORD * WORD <= meanSquared < INF * INF
    && meanSquared <= SLOPE * average + OFFSET
  }

  function SignedSquare(v: int): int {
    v * (if v < 0 then -v else v)
  }

  function NewAverage(average: int, v: int): int {
    if average != -INF then TwinPicker.TruncDiv(v + average, 2) else v
  }

  function NewMeanSquared(meanSquared: int, v: int): int {
    if meanSquared != NO_SQUARE then TwinPicker.TruncDiv(SignedSquare(v) + meanSquared, 2) else SignedSquare(v)
  }

  lemma SquareAbove(w: int, c: int)
    ensures w * w >= 2 * c * w - c * c
  {
    assert (w - c) * (w - c) == w * w - 2 * c * w + c * c >= 0;
  }

  lemma SquareWithin(w: int, top: int)
    requires 0 <= w <= top
    ensures w * w <= top * w && w * w <= top * top
  {
    MulMonotone(w, top, w);
    MulMonotone(w, top, top);
  }

  lemma SquareOfLoss(w: int)
    requires 0 < w <= WORD
    ensures w * w <= WORD * WORD && w * w >= 36000 * w - 324000000 && w * w >= 18000 * w - 81000000
  {
    SquareWithin(w, WORD);
    SquareAbove(w, 18000);
    SquareAbove(w, 9000);
  }

  lemma SquareFacts(v: int)
    requires -WORD <= v < INF
    ensures -WORD * WORD <= SignedSquare(v) < INF * INF
    ensures SignedSquare(v) <= SLOPE * v + 324000000 && SignedSquare(v) <= 18000 * v + 500000000
  {
    if v < 0 {
      SquareOfLoss(-v);
      assert SignedSquare(v) == -((-v) * (-v));
    } else {
      SquareWithin(v, INF - 1);
    }
  }

  /** Any value of a root move may be taken into the statistics, whatever the table made of
      it, and even where an average happens to equal the mark of none. */
  lemma StatisticsStay(average: int, meanSquared: int, v: int)
    requires Statistics(average, meanSquared) && -WORD <= v < INF
    ensures Statistics(NewAverage(average, v), NewMeanSquared(meanSquared, v))
  {
    SquareFacts(v);
    assert INF * INF == 1024064001 && WORD * WORD == 1073741824;
    hide SignedSquare;
  }

  /** Half the sum, rounded towards zero; the first value is taken as it is. */
  lemma AverageHalves(average: int, v: int)
    ensures average == -INF ==> NewAverage(average, v) == v
    ensures average != -INF && v + average >= 0 ==> v + average - 1 <= 2 * NewAverage(average, v) <= v + average
    ensures average != -INF && v + average <= 0 ==> v + average <= 2 * NewAverage(average, v) <= v + average + 1
  {}

  datatype RootMove = RootMove(
    mv: Move, pv: seq<Move>, score: int, previousScore: int, averageScore: int, meanSquaredScore: int
  ) {
    /** Leads a line of legal moves from the root, with statistics of search values. */
    ghost predicate Ok(rules: Rules, root: Position) {
      && pv != [] && pv[0] == mv && LegalLine(rules, root, pv)
      && -INF <= score < INF && Statistics(averageScore, meanSquaredScore)
    }
  }

  /** A move before it has been searched. */
  lemma FreshMoveOk(rules: Rules, root: Position, m: Move)
    requires m in rules.legal(root)
    ensures RootMove(m, [m], -INF, -INF, -INF, NO_SQUARE).Ok(rules, root)
  {
    assert LegalLine(rules, DoMove(root, m), []);
    LegalLineCons(rules, root, m, []);
    assert [m] + [] == [m];
  }

  /** Each move of the list is all right, and none is there twice. */
  ghost predicate RootOk(rules: Rules, root: Position, rms: seq<RootMove>) {
    && (forall k :: 0 <= k < |rms| ==> rms[k].Ok(rules, root))
    && DistinctMoves(rms)
  }

  predicate DistinctMoves(rms: seq<RootMove>) {
    forall i, j :: 0 <= i < j < |rms| ==> rms[i].mv != rms[j].mv
  }

  /** The first root move that plays `m`. */
  function Find(rms: seq<RootMove>, m: Move): (k: nat)
    ensures k <= |rms| && (k < |rms| ==> rms[k].mv == m)
    ensures forall i :: 0 <= i < k ==> rms[i].mv != m
    decreases |rms|
  {
    if rms == [] || rms[0].mv == m then 0 else 1 + Find(rms[1..], m)
  }

  // ----- the order of the list -----

  /** Higher score first, then higher previous score; equal moves keep their order. */
  predicate Ahead(a: RootMove, b: RootMove) {
    a.score > b.score || (a.score == b.score && a.previousScore >= b.previousScore)
  }

  function InsertRoot(s: seq<RootMove>, x: RootMove): (r: seq<RootMove>)
    ensures |r| == |s| + 1 && multiset(r) == multiset(s) + multiset{x}
  {
    if s == [] || Ahead(s[|s| - 1], x) then s + [x]
    else
      assert s == s[..|s| - 1] + [s[|s| - 1]];
      InsertRoot(s[..|s| - 1], x) + [s[|s| - 1]]
  }

  function SortRoot(s: seq<RootMove>): (r: seq<RootMove>)
    ensures |r| == |s| && multiset(r) == multiset(s)
  {
    if s == [] then []
    else
      assert s == s[..|s| - 1] + [s[|s| - 1]];
      InsertRoot(SortRoot(s[..|s| - 1]), s[|s| - 1])
  }

  /** By falling score, and by falling previous score among equal ones. */
  predicate Falling(s: seq<RootMove>) {
    forall i, j :: 0 <= i < j < |s| ==>
      s[i].score > s[j].score || (s[i].score == s[j].score && s[i].previousScore >= s[j].previousScore)
  }

  /** The moves with these two scores, in the order of the list. */
  function WithScores(s: seq<RootMove>, score: int, previous: int): seq<RootMove> {
    if s == [] then []
    else
      var last := s[|s| - 1];
      WithScores(s[..|s| - 1], score, previous)
      + if last.score == score && last.previousScore == previous then [last] else []
  }

  lemma WithScoresLast(s: seq<RootMove>, x: RootMove, score: int, previous: int)
    ensures WithScores(s + [x], score, previous)
         == WithScores(s, score, previous) + if x.score == score && x.previousScore == previous then [x] else []
  {
    assert (s + [x])[..|s|] == s;
  }

  lemma Permuted(a: seq<RootMove>, b: seq<RootMove>, k: nat) returns (i: nat)
    requires multiset(a) == multiset(b) && k < |a|
    ensures i < |b| && b[i] == a[k]
  {
    assert a[k] in multiset(a);
    assert a[k] in b;
    i :| 0 <= i < |b| && b[i] == a[k];
  }

  lemma FallingAppend(s: seq<RootMove>, x: RootMove)
    requires Falling(s) && forall i :: 0 <= i < |s| ==> Ahead(s[i], x)
    ensures Falling(s + [x])
  {}

  lemma {:induction false} InsertKeepsFalling(s: seq<RootMove>, x: RootMove)
    requires Falling(s)
    ensures Falling(InsertRoot(s, x))
  {
    var n := |s| - 1;
    if s == [] || Ahead(s[n], x) {
      FallingAppend(s, x);
    } else {
      var r := InsertRoot(s[..n], x);
      InsertKeepsFalling(s[..n], x);
      forall i | 0 <= i < |r|
        ensures Ahead(r[i], s[n])
      {
        hide Falling, Ahead;
        var q := Permuted(r, s[..n] + [x], i);
        if q < n {
          FallingPair(s, q);
        } else {
          BehindLast(s[n], x);
        }
      }
      FallingAppend(r, s[n]);
      hide Falling, Ahead;
    }
  }

  lemma BehindLast(a: RootMove, x: RootMove)
    requires !Ahead(a, x)
    ensures Ahead(x, a)
  {}

  lemma FallingPair(s: seq<RootMove>, i: nat)
    requires Falling(s) && i < |s| - 1
    ensures Ahead(s[i], s[|s| - 1])
  {}

  lemma {:induction false} InsertIsStable(s: seq<RootMove>, x: RootMove, score: int, previous: int)
    ensures WithScores(InsertRoot(s, x), score, previous) == WithScores(s + [x], score, previous)
  {
    if s != [] && !Ahead(s[|s| - 1], x) {
      var n := |s| - 1;
      assert s == s[..n] + [s[n]];
      InsertIsStable(s[..n], x, score, previous);
      WithScoresLast(InsertRoot(s[..n], x), s[n], score, previous);
      WithScoresLast(s[..n], x, score, previous);
      WithScoresLast(s[..n], s[n], score, previous);
      WithScoresLast(s, x, score, previous);
    }
  }

  /** The sort is by falling score and previous score, and keeps the order of equal moves. */
  lemma {:induction false} SortRootSorts(s: seq<RootMove>, score: int, previous: int)
    ensures Falling(SortRoot(s)) && multiset(SortRoot(s)) == multiset(s)
    ensures WithScores(SortRoot(s), score, previous) == WithScores(s, score, previous)
  {
    if s != [] {
      var n := |s| - 1;
      SortRootSorts(s[..n], score, previous);
      InsertKeepsFalling(SortRoot(s[..n]), s[n]);
      InsertIsStable(SortRoot(s[..n]), s[n], score, previous);
      WithScoresLast(SortRoot(s[..n]), s[n], score, previous);
    }
  }

  lemma PermutationOk(rules: Rules, root: Position, a: seq<RootMove>, b: seq<RootMove>)
    requires RootOk(rules, root, a) && multiset(a) == multiset(b)
    ensures RootOk(rules, root, b) && |a| == |b|
  {
    assert |multiset(a)| == |multiset(b)|;
    forall k | 0 <= k < |b|
      ensures b[k].Ok(rules, root)
    {
      assert b[k] in multiset(b);
      assert b[k] in a;
    }
    forall i, j | 0 <= i < j < |b|
      ensures b[i].mv != b[j].mv
    {
      TwoPlaces(a, b, i, j);
    }
  }

  lemma Without(s: seq<RootMove>, k: nat)
    requires k < |s|
    ensures multiset(s[..k] + s[k + 1..]) == multiset(s) - multiset{s[k]}
  {
    assert s == s[..k] + [s[k]] + s[k + 1..];
  }

  lemma StillThere(s: seq<RootMove>, i: nat, j: nat)
    requires i < j < |s|
    ensures s[j] in multiset(s) - multiset{s[i]}
  {
    Without(s, i);
    var rest := s[..i] + s[i + 1..];
    assert rest[j - 1] == s[j];
    assert rest[j - 1] in multiset(rest);
  }

  lemma ElsewhereToo(s: seq<RootMove>, k: nat, e: RootMove) returns (q: nat)
    requires k < |s| && e in multiset(s) - multiset{s[k]}
    ensures q < |s| && q != k && s[q] == e
  {
    Without(s, k);
    var rest := s[..k] + s[k + 1..];
    assert e in multiset(rest);
    assert e in rest;
    var r :| 0 <= r < |rest| && rest[r] == e;
    q := if r < k then r else r + 1;
  }

  lemma TwoPlaces(a: seq<RootMove>, b: seq<RootMove>, i: nat, j: nat)
    requires DistinctMoves(a) && multiset(a) == multiset(b) && i < j < |b|
    ensures b[i].mv != b[j].mv
  {
    assert b[i] in multiset(b);
    assert b[i] in a;
    var k :| 0 <= k < |a| && a[k] == b[i];
    StillThere(b, i, j);
    var q := ElsewhereToo(a, k, b[j]);
    assert a[k].mv != a[q].mv;
  }

  /** Sorting one stretch of the list. */
  function SortPart(rms: seq<RootMove>, lo: nat, hi: nat): (r: seq<RootMove>)
    requires lo <= hi <= |rms|
    ensures |r| == |rms| && multiset(r) == multiset(rms)
  {
    assert rms == rms[..lo] + rms[lo..hi] + rms[hi..];
    rms[..lo] + SortRoot(rms[lo..hi]) + rms[hi..]
  }

  lemma SortedPart(rms: seq<RootMove>, lo: nat, hi: nat, k: nat)
    requires lo <= hi <= |rms| && k < |rms|
    ensures SortPart(rms, lo, hi)[k] == if lo <= k < hi then SortRoot(rms[lo..hi])[k - lo] else rms[k]
  {
    hide SortRoot;
  }

  /** The best of the stretch comes first. */
  lemma SortPartFirst(rms: seq<RootMove>, lo: nat, hi: nat)
    requires lo < hi <= |rms|
    ensures forall k :: lo <= k < hi ==> SortPart(rms, lo, hi)[k].score <= SortPart(rms, lo, hi)[lo].score
    ensures forall k :: 0 <= k < lo || hi <= k < |rms| ==> SortPart(rms, lo, hi)[k] == rms[k]
  {
    SortRootSorts(rms[lo..hi], 0, 0);
    hide SortRoot, SortPart;
    SortedPart(rms, lo, hi, lo);
    forall k | 0 <= k < |rms|
      ensures lo <= k < hi ==> SortPart(rms, lo, hi)[k].score <= SortPart(rms, lo, hi)[lo].score
      ensures k < lo || hi <= k ==> SortPart(rms, lo, hi)[k] == rms[k]
    {
      SortedPart(rms, lo, hi, k);
    }
  }

  /** The stretch is made of the same moves. */
  lemma SortPartSame(rms: seq<RootMove>, lo: nat, hi: nat, k: nat)
    requires lo <= k < hi <= |rms|
    ensures exists i :: lo <= i < hi && SortPart(rms, lo, hi)[i] == rms[k]
    ensures exists i :: lo <= i < hi && SortPart(rms, lo, hi)[k] == rms[i]
  {
    hide SortRoot, SortPart;
    var part := rms[lo..hi];
    var sorted := SortRoot(part);
    var i := Permuted(part, sorted, k - lo);
    SortedPart(rms, lo, hi, lo + i);
    assert SortPart(rms, lo, hi)[lo + i] == rms[k];
    var j := Permuted(sorted, part, k - lo);
    SortedPart(rms, lo, hi, k);
    assert SortPart(rms, lo, hi)[k] == rms[lo + j];
  }

  // ----- the scores of one search of the root -----

  /** The root move `m` takes its new value, and its line if it is the best so far. */
  function RootAfter(rms: seq<RootMove>, m: Move, value: int, alpha: int, moveCount: nat, child: seq<Move>)
    : (r: seq<RootMove>)
    ensures |r| == |rms|
  {
    var k := Find(rms, m);
    if k == |rms| then rms
    else
      var average := NewAverage(rms[k].averageScore, value);
      var meanSquared := NewMeanSquared(rms[k].meanSquaredScore, value);
      if moveCount == 1 || value > alpha then
        rms[k := RootMove(m, [m] + child, value, rms[k].previousScore, average, meanSquared)]
      else rms[k := RootMove(m, rms[k].pv, -INF, rms[k].previousScore, average, meanSquared)]
  }

  /** Only a value that may become the score has to be a proper one. */
  lemma RootAfterOk(
    rules: Rules, root: Position, rms: seq<RootMove>, m: Move, value: int, alpha: int, moveCount: nat, child: seq<Move>
  )
    requires RootOk(rules, root, rms) && -WORD <= value < INF && (moveCount == 1 || value > alpha ==> InRange(value))
    requires m in rules.legal(root) && LegalLine(rules, DoMove(root, m), child)
    ensures RootOk(rules, root, RootAfter(rms, m, value, alpha, moveCount, child))
  {
    hide Statistics, NewAverage, NewMeanSquared;
    var k := Find(rms, m);
    if k < |rms| {
      assert rms[k].Ok(rules, root);
      LegalLineCons(rules, root, m, child);
      StatisticsStay(rms[k].averageScore, rms[k].meanSquaredScore, value);
    }
    hide LegalLine;
  }

  /** After some moves of the open part of the list: alpha is the best value so far or where
      it started, no searched move has a higher score than that best value, and one has it if
      alpha was raised. */
  ghost predicate RootScores(
    rms: seq<RootMove>, pvIdx: nat, yielded: set<Move>, start: int, alpha: int, best: int, none: bool
  ) {
    && alpha == Max(start, best)
    && (forall k :: pvIdx <= k < |rms| && rms[k].mv in yielded ==> rms[k].score <= best)
    && (best > start ==> exists k :: pvIdx <= k < |rms| && rms[k].mv in yielded && rms[k].score == best)
    && (none ==> forall k :: pvIdx <= k < |rms| ==> rms[k].mv !in yielded)
  }

  lemma RootScoresNext(
    rms: seq<RootMove>, pvIdx: nat, yielded: set<Move>, start: int, alpha: int, best: int, moveCount: nat,
    m: Move, value: int, child: seq<Move>
  )
    requires RootScores(rms, pvIdx, yielded, start, alpha, best, moveCount == 0) && DistinctMoves(rms)
    requires m !in yielded && -INF <= best && exists k :: pvIdx <= k < |rms| && rms[k].mv == m
    ensures RootScores(RootAfter(rms, m, value, alpha, moveCount + 1, child), pvIdx, yielded + {m}, start,
                       if value > alpha then value else alpha, Max(best, value), false)
  {
    var after := RootAfter(rms, m, value, alpha, moveCount + 1, child);
    var k :| pvIdx <= k < |rms| && rms[k].mv == m;
    RootAfterAt(rms, m, value, alpha, moveCount + 1, child, k);
    hide RootAfter;
    if Max(best, value) > start {
      if value > best {
        assert after[k].score == value;
      } else {
        var i :| pvIdx <= i < |rms| && rms[i].mv in yielded && rms[i].score == best;
        assert after[i] == rms[i];
      }
    }
  }

  lemma RootAfterAt(
    rms: seq<RootMove>, m: Move, value: int, alpha: int, moveCount: nat, child: seq<Move>, k: nat
  )
    requires DistinctMoves(rms) && k < |rms| && rms[k].mv == m
    ensures var after := RootAfter(rms, m, value, alpha, moveCount, child);
      && after[k].mv == m && after[k].score == (if moveCount == 1 || value > alpha then value else -INF)
      && forall i :: 0 <= i < |rms| && i != k ==> after[i] == rms[i]
  {
    hide NewAverage, NewMeanSquared;
    assert Find(rms, m) == k;
  }

  /** A move outside the open part of the list changes nothing. */
  lemma RootScoresSkip(
    rms: seq<RootMove>, pvIdx: nat, yielded: set<Move>, start: int, alpha: int, best: int, none: bool, m: Move
  )
    requires RootScores(rms, pvIdx, yielded, start, alpha, best, none) && pvIdx <= |rms|
    requires Find(rms[pvIdx..], m) == |rms| - pvIdx
    ensures RootScores(rms, pvIdx, yielded + {m}, start, alpha, best, none)
  {
    forall k | pvIdx <= k < |rms|
      ensures rms[k].mv != m
    {
      assert rms[pvIdx..][k - pvIdx] == rms[k];
    }
  }

  /** The best score of the open part is `v`. */
  ghost predicate BestScore(rms: seq<RootMove>, pvIdx: nat, v: int) {
    && (forall k :: pvIdx <= k < |rms| ==> rms[k].score <= v)
    && exists k :: pvIdx <= k < |rms| && rms[k].score == v
  }

  /** When every move has been searched and alpha was raised, that is the best value. */
  lemma RootScoresEnd(
    rules: Rules, root: Position, rms: seq<RootMove>, pvIdx: nat, yielded: set<Move>, start: int, alpha: int, best: int,
    none: bool
  )
    requires RootOk(rules, root, rms) && RootScores(rms, pvIdx, yielded, start, alpha, best, none)
    requires rules.legal(root) <= yielded && pvIdx < |rms|
    ensures !none && (best > start ==> BestScore(rms, pvIdx, best))
  {
    forall k | pvIdx <= k < |rms|
      ensures rms[k].mv in yielded
    {
      assert rms[k].Ok(rules, root);
    }
    assert rms[pvIdx].mv in yielded;
  }

  /** The sort brings it to the front. */
  lemma BestScoreFirst(rms: seq<RootMove>, pvIdx: nat, v: int)
    requires BestScore(rms, pvIdx, v) && pvIdx < |rms|
    ensures var r := SortPart(rms, pvIdx, |rms|);
      r[pvIdx].score == v && forall k :: pvIdx <= k < |rms| ==> r[k].score <= v
  {
    SortPartFirst(rms, pvIdx, |rms|);
    var r := SortPart(rms, pvIdx, |rms|);
    hide SortPart;
    var k :| pvIdx <= k < |rms| && rms[k].score == v;
    SortPartSame(rms, pvIdx, |rms|, k);
    forall k | pvIdx <= k < |rms|
      ensures r[k].score <= v
    {
      SortPartSame(rms, pvIdx, |rms|, k);
    }
  }

  function MarkPrevious(rms: seq<RootMove>): (r: seq<RootMove>)
    ensures |r| == |rms| && forall k :: 0 <= k < |rms| ==> r[k] == rms[k].(previousScore := rms[k].score)
  {
    seq(|rms|, k requires 0 <= k < |rms| => rms[k].(previousScore := rms[k].score))
  }

  lemma MarkedOk(rules: Rules, root: Position, rms: seq<RootMove>)
    requires RootOk(rules, root, rms)
    ensures RootOk(rules, root, MarkPrevious(rms))
  {
    forall k | 0 <= k < |rms|
      ensures MarkPrevious(rms)[k].Ok(rules, root)
    {
      assert rms[k].Ok(rules, root);
    }
  }

  /** Which sides of an aspiration window can still be widened. */
  function Open(alpha: int, beta: int): (m: nat)
    ensures m <= 3
  {
    (if alpha > -INF then 2 else 0) + (if beta < INF then 1 else 0)
  }

  /** How wide the margin can have become with that much left to widen. */
  function DeltaBound(open: nat): int {
    if open >= 3 then 119309 else if open == 2 then 159078 else if open == 1 then 212104 else 282805
  }

  /** An aspiration window with its margin. */
  datatype Aspiration = Aspiration(alpha: int, beta: int, delta: int)

  predicate Aspiring(w: Aspiration) {
    Window(w.alpha, w.beta, true) && 5 <= w.delta <= DeltaBound(Open(w.alpha, w.beta))
  }

  /** The first window, around the move's average. */
  function Aim(average: int, meanSquared: int): Aspiration {
    var delta := 5 + (if meanSquared < 0 then -meanSquared else meanSquared) / 9000;
    Aspiration(Max(average - delta, -INF), Min(average + delta, INF), delta)
  }

  /** Even an average below all values aims at a window: its squares make the margin wide. */
  lemma AimAspires(average: int, meanSquared: int)
    requires Statistics(average, meanSquared)
    ensures Aspiring(Aim(average, meanSquared))
  {
    assert INF * INF == 1024064001 && WORD * WORD == 1073741824;
  }

  /** A side that is not open to the end lies the margin away from the average. */
  lemma AimSurrounds(average: int, meanSquared: int)
    requires InRange(average)
    ensures var w := Aim(average, meanSquared);
      && 9000 * (w.delta - 5) <= (if meanSquared < 0 then -meanSquared else meanSquared) < 9000 * (w.delta - 4)
      && w.alpha < average < w.beta
      && (w.alpha == average - w.delta || (w.alpha == -INF && average - w.delta < -INF))
      && (w.beta == average + w.delta || (w.beta == INF && average + w.delta > INF))
  {}

  /** The next window after a value outside this one. */
  function Widen(w: Aspiration, v: int): Aspiration {
    if v <= w.alpha then Aspiration(Max(v - w.delta, -INF), w.alpha, w.delta + w.delta / 3)
    else Aspiration(Max(w.beta - w.delta, w.alpha), Min(v + w.delta, INF), w.delta + w.delta / 3)
  }

  /** The next window takes in the value that fell outside this one, and every failure
      widens towards the full window: the margin grows until it covers all values, and then
      each failure closes a side for good. */
  lemma WidenProgresses(w: Aspiration, v: int)
    requires Aspiring(w) && InRange(v) && (v <= w.alpha || v >= w.beta)
    ensures Aspiring(Widen(w, v))
    ensures Widen(w, v).alpha <= v <= Widen(w, v).beta
    ensures if v <= w.alpha then Widen(w, v).alpha < v else v < Widen(w, v).beta
    ensures v <= w.alpha ==> Widen(w, v).beta == w.alpha && v - w.delta <= Widen(w, v).alpha
    ensures v >= w.beta ==> Widen(w, v).beta <= v + w.delta && w.alpha <= Widen(w, v).alpha < w.beta
    ensures Max(0, 2 * INF - Widen(w, v).delta) < Max(0, 2 * INF - w.delta)
         || (Widen(w, v).delta > w.delta >= 2 * INF
             && Open(Widen(w, v).alpha, Widen(w, v).beta) < Open(w.alpha, w.beta))
  {}
}
