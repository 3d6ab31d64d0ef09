/** What the picker promises over whole schedules of calls and of requests to skip
    quiets: the table move first, every legal generated move once, captures in order
    whatever is skipped, and nothing after the end. */
module PickerFacts {
  import opened Wrappers
  import opened MoveSort
  import opened SortFacts
  import opened TwinPicker
  import opened PickerSteps
  import opened PickerPhases

  // ----- counting moves -----

  lemma CountAppend(ms: seq<Move>, last: Move, m: Move)
    ensures multiset(ms + [last])[m] == multiset(ms)[m] + if last == m then 1 else 0
  {}

  lemma KeptLast(env: Env, tt: Option<Move>, ms: seq<Move>, last: Move)
    ensures Kept(env, tt, ms + [last]) == Kept(env, tt, ms) + if Yieldable(env, tt, last) then [last] else []
  {
    assert (ms + [last])[..|ms|] == ms;
  }

  /** Legality and the table move decide about each move by itself. */
  lemma {:induction false} KeptCount(env: Env, tt: Option<Move>, ms: seq<Move>, m: Move)
    ensures multiset(Kept(env, tt, ms))[m] == if env.legal(m) && Some(m) != tt then multiset(ms)[m] else 0
  {
    if ms == [] {
      KeptNothing(env, tt);
    } else {
      hide Kept;
      var front, last := ms[..|ms| - 1], ms[|ms| - 1];
      assert ms == front + [last];
      KeptCount(env, tt, front, m);
      CountAppend(front, last, m);
      KeptLast(env, tt, front, last);
      CountAppend(Kept(env, tt, front), last, m);
      assert Kept(env, tt, front) + [] == Kept(env, tt, front);
    }
  }

  lemma KeptNothing(env: Env, tt: Option<Move>)
    ensures Kept(env, tt, []) == []
  {}

  lemma KeptBag(env: Env, tt: Option<Move>, a: seq<Move>, b: seq<Move>)
    requires multiset(a) == multiset(b)
    ensures multiset(Kept(env, tt, a)) == multiset(Kept(env, tt, b))
  {
    hide Kept;
    forall m: Move
      ensures multiset(Kept(env, tt, a))[m] == multiset(Kept(env, tt, b))[m]
    {
      KeptCount(env, tt, a, m);
      KeptCount(env, tt, b, m);
    }
  }

  lemma {:induction false} KeptConcat(env: Env, tt: Option<Move>, a: seq<Move>, b: seq<Move>)
    ensures Kept(env, tt, a + b) == Kept(env, tt, a) + Kept(env, tt, b)
  {
    if b == [] {
      assert a + b == a;
    } else {
      assert (a + b)[..|a + b| - 1] == a + b[..|b| - 1];
      KeptConcat(env, tt, a, b[..|b| - 1]);
    }
  }

  lemma KeptOne(env: Env, tt: Option<Move>, m: Move)
    ensures Kept(env, tt, [m]) == if Yieldable(env, tt, m) then [m] else []
  {
    assert [m][..0] == [];
  }

  /** Scanning for the next yieldable quiet takes the kept list one move further. */
  lemma {:induction false} ScanTakesKept(env: Env, tt: Option<Move>, ms: seq<Move>, i: nat)
    requires i <= |ms|
    ensures var j := Scan(env, tt, ms, i);
      Kept(env, tt, ms[i..]) == if j < |ms| then [ms[j]] + Kept(env, tt, ms[j + 1..]) else []
    decreases |ms| - i
  {
    hide Kept, Yieldable;
    if i == |ms| {
      KeptNothing(env, tt);
    } else {
      assert ms[i..] == [ms[i]] + ms[i + 1..];
      KeptConcat(env, tt, [ms[i]], ms[i + 1..]);
      KeptOne(env, tt, ms[i]);
      if !Yieldable(env, tt, ms[i]) {
        assert [] + Kept(env, tt, ms[i + 1..]) == Kept(env, tt, ms[i + 1..]);
        ScanTakesKept(env, tt, ms, i + 1);
      }
    }
  }

  lemma Cancel(a: multiset<ExtMove>, b: multiset<ExtMove>, c: multiset<ExtMove>, x: ExtMove)
    requires a + multiset{x} + b == c + multiset{x}
    ensures a + b == c
  {
    forall e: ExtMove
      ensures (a + b)[e] == c[e]
    {
      assert (a + multiset{x} + b)[e] == (c + multiset{x})[e];
    }
  }

  lemma MovesConcat(a: seq<ExtMove>, b: seq<ExtMove>)
    ensures Moves(a + b) == Moves(a) + Moves(b)
  {}

  lemma MovesOne(e: ExtMove)
    ensures Moves([e]) == [e.mv]
  {}

  lemma MovesThree(a: seq<ExtMove>, e: ExtMove, b: seq<ExtMove>)
    ensures multiset(Moves(a + [e] + b)) == multiset(Moves(a + b)) + multiset{e.mv}
  {
    MovesConcat(a + [e], b);
    MovesConcat(a, [e]);
    MovesConcat(a, b);
    MovesOne(e);
  }

  lemma {:induction false} MovesBag(r: seq<ExtMove>, s: seq<ExtMove>)
    requires multiset(r) == multiset(s)
    ensures multiset(Moves(r)) == multiset(Moves(s))
    decreases |s|
  {
    assert |r| == |multiset(r)| == |multiset(s)| == |s|;
    hide Moves;
    if s != [] {
      var n := |s| - 1;
      assert s == s[..n] + [s[n]] + [] && s[..n] == s[..n] + [];
      assert s[n] in multiset(r);
      var i :| 0 <= i < |r| && r[i] == s[n];
      assert r == r[..i] + [r[i]] + r[i + 1..];
      Cancel(multiset(r[..i]), multiset(r[i + 1..]), multiset(s[..n]), s[n]);
      MovesBag(r[..i] + r[i + 1..], s[..n]);
      MovesThree(r[..i], s[n], r[i + 1..]);
      MovesThree(s[..n], s[n], []);
    } else {
      assert r == s;
    }
  }

  /** A test and its opposite split a list. */
  lemma {:induction false} FilterSplits(f: ExtMove -> bool, g: ExtMove -> bool, s: seq<ExtMove>)
    requires forall e: ExtMove :: f(e) != g(e)
    ensures multiset(Moves(Filter(f, s))) + multiset(Moves(Filter(g, s))) == multiset(Moves(s))
  {
    if s != [] {
      var n := |s| - 1;
      FilterSplits(f, g, s[..n]);
      assert Moves(s) == Moves(s[..n]) + [s[n].mv];
      MovesOfFilter(f, s);
      MovesOfFilter(g, s);
    }
  }

  lemma MovesOfFilter(f: ExtMove -> bool, s: seq<ExtMove>)
    requires s != []
    ensures Moves(Filter(f, s)) == Moves(Filter(f, s[..|s| - 1])) + if f(s[|s| - 1]) then [s[|s| - 1].mv] else []
  {
    FilterLast(f, s);
    hide Filter;
    var last := if f(s[|s| - 1]) then [s[|s| - 1]] else [];
    MovesConcat(Filter(f, s[..|s| - 1]), last);
    assert Moves(last) == if f(s[|s| - 1]) then [s[|s| - 1].mv] else [];
  }

  function MovesClearing(env: Env, threshold: int, ms: seq<Move>): (r: seq<Move>) {
    if ms == [] then []
    else
      var m := ms[|ms| - 1];
      MovesClearing(env, threshold, ms[..|ms| - 1]) + if env.seeGe(m, threshold) then [m] else []
  }

  lemma {:induction false} ClearingMoves(env: Env, threshold: int, s: seq<ExtMove>)
    ensures Moves(Filter(Clears(env, threshold), s)) == MovesClearing(env, threshold, Moves(s))
  {
    if s != [] {
      ClearingMoves(env, threshold, s[..|s| - 1]);
      MovesOfFilter(Clears(env, threshold), s);
      assert Moves(s)[..|s| - 1] == Moves(s[..|s| - 1]);
    }
  }

  lemma {:induction false} ClearingCount(env: Env, threshold: int, ms: seq<Move>, m: Move)
    ensures multiset(MovesClearing(env, threshold, ms))[m] == if env.seeGe(m, threshold) then multiset(ms)[m] else 0
  {
    if ms != [] {
      ClearingCount(env, threshold, ms[..|ms| - 1], m);
      assert ms == ms[..|ms| - 1] + [ms[|ms| - 1]];
    }
  }

  lemma ClearingBag(env: Env, threshold: int, a: seq<Move>, b: seq<Move>)
    requires multiset(a) == multiset(b)
    ensures multiset(MovesClearing(env, threshold, a)) == multiset(MovesClearing(env, threshold, b))
  {
    hide MovesClearing;
    forall m: Move
      ensures multiset(MovesClearing(env, threshold, a))[m] == multiset(MovesClearing(env, threshold, b))[m]
    {
      ClearingCount(env, threshold, a, m);
      ClearingCount(env, threshold, b, m);
    }
  }

  // ----- what is still to come -----

  /** The captures to come, in order, once they are sorted. */
  ghost function CaptureLine(t: Twin): seq<Move>
    requires WellIndexed(t)
  {
    match t.stage
    case GoodCaptures => t.goodCaptures[t.idx..] + t.badCaptures
    case QuietInit => t.badCaptures
    case GoodQuiets => t.badCaptures
    case BadCaptures => t.badCaptures[t.idx..]
    case _ => []
  }

  /** The quiets to come, in order, once they are sorted. */
  ghost function QuietLine(t: Twin, env: Env): seq<Move>
    requires WellIndexed(t)
  {
    if t.skipQuiets then []
    else match t.stage
      case GoodQuiets => Kept(env, t.tt, t.goodQuiets[t.idx..]) + Kept(env, t.tt, t.badQuiets)
      case BadCaptures => Kept(env, t.tt, t.badQuiets)
      case BadQuiets => Kept(env, t.tt, t.badQuiets[t.idx..])
      case _ => []
  }

  /** The moves of the capture stages, before they have an order. */
  ghost function CaptureList(t: Twin, env: Env): seq<Move> {
    if t.kind.ProbCut? then MovesClearing(env, t.threshold, t.rawCaptures) else t.rawCaptures
  }

  ghost function TableDue(t: Twin): multiset<Move> {
    if t.stage.AtTt? && t.tt.Some? then multiset{t.tt.value} else multiset{}
  }

  ghost function CapturesDue(t: Twin, env: Env): multiset<Move>
    requires WellIndexed(t)
  {
    if t.stage.AtTt? || t.stage.CaptureInit? then multiset(CaptureList(t, env)) else multiset(CaptureLine(t))
  }

  ghost function QuietsDue(t: Twin, env: Env): multiset<Move>
    requires WellIndexed(t)
  {
    if t.stage.Rank() < 4 then multiset(QuietLine(t, env))
    else if t.skipQuiets then multiset{} else multiset(Kept(env, t.tt, t.rawQuiets))
  }

  /** Everything still to come. */
  ghost function Due(t: Twin, env: Env): multiset<Move>
    requires WellIndexed(t)
  {
    TableDue(t) + CapturesDue(t, env) + QuietsDue(t, env)
  }

  // ----- the stages -----

  lemma SortedBags(t: Twin, h: Scores)
    ensures multiset(Moves(SortedCaptures(t, h))) == multiset(t.rawCaptures)
    ensures multiset(Moves(SortedQuiets(t, h))) == multiset(t.rawQuiets)
  {
    var score := if t.kind.Evasion? then h.evasion else h.capture;
    var caps := Scored(t.rawCaptures, score);
    var quiets := Scored(t.rawQuiets, h.quiet);
    assert Moves(caps) == t.rawCaptures && Moves(quiets) == t.rawQuiets;
    hide SortDesc, PartialSort;
    SortDescSorts(caps);
    MovesBag(SortDesc(caps), caps);
    PartialSortOrders(quiets, -3560 * t.depth);
    MovesBag(PartialSort(quiets, -3560 * t.depth), quiets);
  }

  /** Sorting and splitting the captures loses none and adds none. */
  lemma InitCapturesBag(t: Twin, env: Env, h: Scores)
    requires t.badCaptures == []
    ensures var u := InitCaptures(t, env, h);
      multiset(u.goodCaptures + u.badCaptures) == multiset(CaptureList(t, env))
      && (u.kind, u.rawQuiets, u.goodQuiets, u.badQuiets) == (t.kind, t.rawQuiets, t.goodQuiets, t.badQuiets)
      && (u.tt, u.skipQuiets) == (t.tt, t.skipQuiets)
  {
    var sorted := SortedCaptures(t, h);
    SortedBags(t, h);
    hide SortedCaptures, Filter, MovesClearing, Moves;
    if t.kind.Main? {
      FilterSplits(Winning(env), Losing(env), sorted);
    } else if t.kind.ProbCut? {
      ClearingMoves(env, t.threshold, sorted);
      ClearingBag(env, t.threshold, Moves(sorted), t.rawCaptures);
    }
  }

  lemma InitCapturesKeeps(t: Twin, env: Env, h: Scores)
    requires Sane(t) && t.stage.CaptureInit?
    ensures var u := Enter(InitCaptures(t, env, h), GoodCaptures);
      Sane(u) && Due(u, env) == Due(t, env)
  {
    hide InitCaptures, Kept, CaptureList;
    InitCapturesBag(t, env, h);
    var u := Enter(InitCaptures(t, env, h), GoodCaptures);
    assert u.goodCaptures[0..] == u.goodCaptures;
  }

  lemma InitQuietsBag(t: Twin, env: Env, h: Scores)
    ensures var u := InitQuiets(t, h);
      multiset(Kept(env, t.tt, u.goodQuiets) + Kept(env, t.tt, u.badQuiets)) == multiset(Kept(env, t.tt, t.rawQuiets))
  {
    SortedBags(t, h);
    var sorted := SortedQuiets(t, h);
    hide SortedQuiets, Filter, Moves, Kept;
    FilterSplits(GoodQuiet(), BadQuiet(), sorted);
    var good, bad := Moves(Filter(GoodQuiet(), sorted)), Moves(Filter(BadQuiet(), sorted));
    KeptBag(env, t.tt, good + bad, t.rawQuiets);
    KeptConcat(env, t.tt, good, bad);
  }

  lemma InitQuietsKeeps(t: Twin, env: Env, h: Scores)
    requires Sane(t) && t.stage.QuietInit?
    ensures var u := Enter(if t.kind.Main? && !t.skipQuiets then InitQuiets(t, h) else t, GoodQuiets);
      Sane(u) && Due(u, env) == Due(t, env)
  {
    hide SortedQuiets, Filter, Moves, Kept;
    InitQuietsBag(t, env, h);
    var u := Enter(if t.kind.Main? && !t.skipQuiets then InitQuiets(t, h) else t, GoodQuiets);
    KeptNothing(env, t.tt);
    assert u.goodQuiets[0..] == u.goodQuiets;
  }

  ghost function Yielded(m: Option<Move>): multiset<Move> {
    if m.Some? then multiset{m.value} else multiset{}
  }

  /** The move just yielded came from the captures; the other two cases are the table
      move and a quiet. */
  predicate FromCaptures(y: Yield) {
    y.move.Some? && (y.after.stage.GoodCaptures? || y.after.stage.BadCaptures?)
  }

  predicate FromQuiets(y: Yield) {
    y.move.Some? && (y.after.stage.GoodQuiets? || y.after.stage.BadQuiets?)
  }

  /** From `t` to `u` by yielding `m`, or nothing. */
  ghost predicate Accounts(t: Twin, u: Twin, env: Env, m: Option<Move>) {
    && Sane(t) && Sane(u)
    && Due(t, env) == Due(u, env) + Yielded(m)
  }

  lemma Sum3(a: multiset<Move>, b: multiset<Move>, c: multiset<Move>, y: multiset<Move>)
    ensures (a + y) + b + c == (a + b + c) + y
    ensures a + (b + y) + c == (a + b + c) + y
    ensures a + b + (c + y) == (a + b + c) + y
  {}

  lemma TableAccounts(t: Twin, env: Env)
    requires Sane(t) && t.stage.AtTt?
    ensures Accounts(t, t.(stage := CaptureInit), env, t.tt)
  {
    hide Kept, MovesClearing;
    var u := t.(stage := CaptureInit);
    assert CaptureList(u, env) == CaptureList(t, env) && t.stage.Rank() == 7 && u.stage.Rank() == 6;
    assert CapturesDue(u, env) == CapturesDue(t, env) && QuietsDue(u, env) == QuietsDue(t, env);
    assert TableDue(t) == TableDue(u) + Yielded(t.tt);
    hide CapturesDue, QuietsDue, TableDue, Yielded;
    Sum3(TableDue(u), CapturesDue(u, env), QuietsDue(u, env), Yielded(t.tt));
  }

  lemma CaptureAccounts(t: Twin, u: Twin, env: Env, m: Option<Move>)
    requires Sane(t) && Sane(u)
    requires TableDue(u) == TableDue(t) && QuietsDue(u, env) == QuietsDue(t, env)
    requires CapturesDue(t, env) == CapturesDue(u, env) + Yielded(m)
    ensures Accounts(t, u, env, m)
  {
    hide CapturesDue, QuietsDue, TableDue, Yielded;
    Sum3(TableDue(u), CapturesDue(u, env), QuietsDue(u, env), Yielded(m));
  }

  lemma QuietAccounts(t: Twin, u: Twin, env: Env, m: Option<Move>)
    requires Sane(t) && Sane(u)
    requires TableDue(u) == TableDue(t) && CapturesDue(u, env) == CapturesDue(t, env)
    requires QuietsDue(t, env) == QuietsDue(u, env) + Yielded(m)
    ensures Accounts(t, u, env, m)
  {
    hide CapturesDue, QuietsDue, TableDue, Yielded;
    Sum3(TableDue(u), CapturesDue(u, env), QuietsDue(u, env), Yielded(m));
  }

  lemma FirstOf(m: Move, line: seq<Move>)
    ensures multiset([m] + line) == multiset(line) + multiset{m}
  {}

  /** From the sorted captures on, what is due is what stands in the two lines. */
  lemma CaptureTaken(t: Twin, u: Twin, env: Env, m: Move)
    requires Sane(t) && Sane(u) && t.stage.Rank() <= 5 && u.stage.Rank() <= 5
    requires CaptureLine(t) == [m] + CaptureLine(u) && QuietsDue(u, env) == QuietsDue(t, env)
    ensures Accounts(t, u, env, Some(m))
  {
    hide CaptureLine, QuietsDue, Accounts;
    FirstOf(m, CaptureLine(u));
    CaptureAccounts(t, u, env, Some(m));
  }

  lemma QuietTaken(t: Twin, u: Twin, env: Env, m: Move)
    requires Sane(t) && Sane(u) && t.stage.Rank() <= 3 && u.stage.Rank() <= 3
    requires QuietLine(t, env) == [m] + QuietLine(u, env) && CaptureLine(u) == CaptureLine(t)
    ensures Accounts(t, u, env, Some(m))
  {
    hide CaptureLine, QuietLine, Accounts;
    FirstOf(m, QuietLine(u, env));
    QuietAccounts(t, u, env, Some(m));
  }

  /** Passing on to a stage with the same lines. */
  lemma NothingTaken(t: Twin, u: Twin, env: Env)
    requires Sane(t) && Sane(u) && t.stage.Rank() <= 3 && u.stage.Rank() <= 3
    requires QuietLine(t, env) == QuietLine(u, env) && CaptureLine(u) == CaptureLine(t)
    ensures Accounts(t, u, env, None)
  {
    hide CaptureLine, QuietLine, Accounts;
    QuietAccounts(t, u, env, None);
  }

  lemma GoodCaptureAccounts(t: Twin, env: Env)
    requires Sane(t) && t.stage.GoodCaptures? && t.idx < |t.goodCaptures|
    ensures Accounts(t, t.(idx := t.idx + 1), env, Some(t.goodCaptures[t.idx]))
  {
    hide Kept, Accounts;
    var u := t.(idx := t.idx + 1);
    assert CaptureLine(t) == [t.goodCaptures[t.idx]] + CaptureLine(u);
    hide CaptureLine;
    CaptureTaken(t, u, env, t.goodCaptures[t.idx]);
  }

  lemma GoodCapturesAccount(t: Twin, env: Env)
    requires Sane(t) && t.stage.GoodCaptures? && t.idx == |t.goodCaptures|
    ensures Accounts(t, Enter(t, QuietInit), env, None)
  {
    hide Kept, Accounts;
    assert t.goodCaptures[t.idx..] + t.badCaptures == t.badCaptures;
    CaptureAccounts(t, Enter(t, QuietInit), env, None);
  }

  /** A scan that finds a quiet takes the first of the line. */
  lemma GoodQuietFirst(t: Twin, env: Env, j: nat)
    requires WellIndexed(t) && t.stage.GoodQuiets? && !t.skipQuiets
    requires j == Scan(env, t.tt, t.goodQuiets, t.idx) < |t.goodQuiets|
    ensures QuietLine(t, env) == [t.goodQuiets[j]] + QuietLine(t.(idx := j + 1), env)
  {
    hide Kept, Scan;
    ScanTakesKept(env, t.tt, t.goodQuiets, t.idx);
    Associative(t.goodQuiets[j], Kept(env, t.tt, t.goodQuiets[j + 1..]), Kept(env, t.tt, t.badQuiets));
  }

  lemma Associative(m: Move, a: seq<Move>, b: seq<Move>)
    ensures ([m] + a) + b == [m] + (a + b)
  {}

  lemma BadQuietFirst(t: Twin, env: Env, j: nat)
    requires WellIndexed(t) && t.stage.BadQuiets? && !t.skipQuiets
    requires j == Scan(env, t.tt, t.badQuiets, t.idx) < |t.badQuiets|
    ensures QuietLine(t, env) == [t.badQuiets[j]] + QuietLine(t.(idx := j + 1), env)
  {
    hide Kept, Scan;
    ScanTakesKept(env, t.tt, t.badQuiets, t.idx);
  }

  lemma BadQuietsGone(t: Twin, env: Env)
    requires WellIndexed(t) && t.stage.BadQuiets?
    requires t.skipQuiets || Scan(env, t.tt, t.badQuiets, t.idx) == |t.badQuiets|
    ensures QuietLine(t, env) == [] && CaptureLine(t) == []
  {
    hide Kept, Scan;
    ScanTakesKept(env, t.tt, t.badQuiets, t.idx);
  }

  lemma GoodQuietAccounts(t: Twin, env: Env, j: nat)
    requires Sane(t) && t.stage.GoodQuiets? && !t.skipQuiets
    requires j == Scan(env, t.tt, t.goodQuiets, t.idx) < |t.goodQuiets|
    ensures Accounts(t, t.(idx := j + 1), env, Some(t.goodQuiets[j]))
  {
    hide Kept, Scan, Accounts, QuietLine;
    GoodQuietFirst(t, env, j);
    QuietTaken(t, t.(idx := j + 1), env, t.goodQuiets[j]);
  }

  lemma GoodQuietsAccount(t: Twin, env: Env)
    requires Sane(t) && t.stage.GoodQuiets?
    requires t.skipQuiets || Scan(env, t.tt, t.goodQuiets, t.idx) == |t.goodQuiets|
    ensures Accounts(t, Enter(t, BadCaptures), env, None)
  {
    hide Kept, Scan, Accounts;
    ScanTakesKept(env, t.tt, t.goodQuiets, t.idx);
    var u := Enter(t, BadCaptures);
    var bad := Kept(env, t.tt, t.badQuiets);
    assert [] + bad == bad && t.badCaptures[0..] == t.badCaptures;
    NothingTaken(t, u, env);
  }

  lemma BadCaptureAccounts(t: Twin, env: Env)
    requires Sane(t) && t.stage.BadCaptures? && t.idx < |t.badCaptures|
    ensures Accounts(t, t.(idx := t.idx + 1), env, Some(t.badCaptures[t.idx]))
  {
    hide Kept, Accounts;
    var u := t.(idx := t.idx + 1);
    assert CaptureLine(t) == [t.badCaptures[t.idx]] + CaptureLine(u);
    hide CaptureLine;
    CaptureTaken(t, u, env, t.badCaptures[t.idx]);
  }

  lemma BadCapturesAccount(t: Twin, env: Env)
    requires Sane(t) && t.stage.BadCaptures? && t.idx == |t.badCaptures|
    ensures Accounts(t, Enter(t, BadQuiets), env, None)
  {
    hide Kept, Accounts;
    var u := Enter(t, BadQuiets);
    assert t.badQuiets[0..] == t.badQuiets;
    NothingTaken(t, u, env);
  }

  lemma BadQuietsAccount(t: Twin, env: Env, h: Scores)
    requires Sane(t) && t.stage.BadQuiets?
    ensures var y := Next(t, env, h);
      Accounts(t, y.after, env, y.move) && (y.move.None? ==> y.after.stage.Done?)
  {
    hide Kept, Scan, Next, Accounts, QuietLine;
    NextFromBadQuiets(t, env, h);
    var j := Scan(env, t.tt, t.badQuiets, t.idx);
    if !t.skipQuiets && j < |t.badQuiets| {
      BadQuietFirst(t, env, j);
      QuietTaken(t, t.(idx := j + 1), env, t.badQuiets[j]);
    } else {
      BadQuietsGone(t, env);
      NothingAfter(Next(t, env, h).after, env);
      NothingTaken(t, Next(t, env, h).after, env);
    }
  }

  lemma NothingAfter(t: Twin, env: Env)
    requires WellIndexed(t) && t.stage.Done?
    ensures QuietLine(t, env) == [] && CaptureLine(t) == []
  {}

  /** What one call answers, and that it fits what was due. */
  ghost predicate Answered(t: Twin, env: Env, y: Yield) {
    Accounts(t, y.after, env, y.move) && (y.move.None? ==> y.after.stage.Done?)
  }

  /** Passing through a stage that yields nothing. */
  lemma PassOn(t: Twin, u: Twin, env: Env, y: Yield)
    requires Accounts(t, u, env, None) && Answered(u, env, y)
    ensures Answered(t, env, y)
  {
    hide Due, Sane;
  }

  lemma AnsweredAtEnd(t: Twin, env: Env, h: Scores)
    requires Sane(t) && (t.stage.BadQuiets? || t.stage.Done?)
    ensures Answered(t, env, Next(t, env, h))
  {
    hide Next, Due;
    if t.stage.BadQuiets? {
      BadQuietsAccount(t, env, h);
    } else {
      NextFromDone(t, env, h);
    }
  }

  lemma AnsweredFromBadCaptures(t: Twin, env: Env, h: Scores)
    requires Sane(t) && t.stage.BadCaptures?
    ensures Answered(t, env, Next(t, env, h))
  {
    hide Next, Due;
    NextFromBadCaptures(t, env, h);
    if t.idx < |t.badCaptures| {
      BadCaptureAccounts(t, env);
    } else {
      BadCapturesAccount(t, env);
      AnsweredAtEnd(Enter(t, BadQuiets), env, h);
      PassOn(t, Enter(t, BadQuiets), env, Next(t, env, h));
    }
  }

  lemma AnsweredFromGoodQuiets(t: Twin, env: Env, h: Scores)
    requires Sane(t) && t.stage.GoodQuiets?
    ensures Answered(t, env, Next(t, env, h))
  {
    hide Next, Due, Scan;
    NextFromGoodQuiets(t, env, h);
    var j := Scan(env, t.tt, t.goodQuiets, t.idx);
    if !t.skipQuiets && j < |t.goodQuiets| {
      GoodQuietAccounts(t, env, j);
    } else {
      GoodQuietsAccount(t, env);
      AnsweredFromBadCaptures(Enter(t, BadCaptures), env, h);
      PassOn(t, Enter(t, BadCaptures), env, Next(t, env, h));
    }
  }

  lemma AnsweredFromQuietInit(t: Twin, env: Env, h: Scores)
    requires Sane(t) && t.stage.QuietInit?
    ensures Answered(t, env, Next(t, env, h))
  {
    hide Next, Due, InitQuiets;
    var u := Enter(if t.kind.Main? && !t.skipQuiets then InitQuiets(t, h) else t, GoodQuiets);
    NextFromQuietInit(t, env, h);
    InitQuietsKeeps(t, env, h);
    AnsweredFromGoodQuiets(u, env, h);
    SameDue(t, u, env);
    PassOn(t, u, env, Next(t, env, h));
  }

  lemma SameDue(t: Twin, u: Twin, env: Env)
    requires Sane(t) && Sane(u) && Due(u, env) == Due(t, env)
    ensures Accounts(t, u, env, None)
  {}

  lemma AnsweredFromGoodCaptures(t: Twin, env: Env, h: Scores)
    requires Sane(t) && t.stage.GoodCaptures?
    ensures Answered(t, env, Next(t, env, h))
  {
    hide Next, Due;
    NextFromGoodCaptures(t, env, h);
    if t.idx < |t.goodCaptures| {
      GoodCaptureAccounts(t, env);
    } else {
      GoodCapturesAccount(t, env);
      AnsweredFromQuietInit(Enter(t, QuietInit), env, h);
      PassOn(t, Enter(t, QuietInit), env, Next(t, env, h));
    }
  }

  lemma AnsweredFromCaptureInit(t: Twin, env: Env, h: Scores)
    requires Sane(t) && t.stage.CaptureInit?
    ensures Answered(t, env, Next(t, env, h))
  {
    hide Next, Due, InitCaptures;
    var u := Enter(InitCaptures(t, env, h), GoodCaptures);
    NextFromCaptureInit(t, env, h);
    InitCapturesKeeps(t, env, h);
    AnsweredFromGoodCaptures(u, env, h);
    SameDue(t, u, env);
    PassOn(t, u, env, Next(t, env, h));
  }

  /** One call yields one of the moves due, or nothing when none is due. */
  lemma NextAccounts(t: Twin, env: Env, h: Scores)
    requires Sane(t)
    ensures var y := Next(t, env, h);
      Accounts(t, y.after, env, y.move) && (y.move.None? ==> y.after.stage.Done?)
  {
    hide Next, Accounts, Due;
    match t.stage {
      case AtTt =>
        NextFromTt(t, env, h);
        TableAccounts(t, env);
        if t.tt.None? {
          AccountsSane(t, t.(stage := CaptureInit), env, None);
          AnsweredFromCaptureInit(t.(stage := CaptureInit), env, h);
          PassOn(t, t.(stage := CaptureInit), env, Next(t, env, h));
        }
      case CaptureInit => AnsweredFromCaptureInit(t, env, h);
      case GoodCaptures => AnsweredFromGoodCaptures(t, env, h);
      case QuietInit => AnsweredFromQuietInit(t, env, h);
      case GoodQuiets => AnsweredFromGoodQuiets(t, env, h);
      case BadCaptures => AnsweredFromBadCaptures(t, env, h);
      case _ => AnsweredAtEnd(t, env, h);
    }
  }

  lemma AccountsSane(t: Twin, u: Twin, env: Env, m: Option<Move>)
    requires Accounts(t, u, env, m)
    ensures Sane(t) && Sane(u)
  {}
}
