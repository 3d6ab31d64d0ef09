/** The order in which a picker brings its moves out, written down whole: which list comes
    when, by which score and which threshold, for every schedule of calls and skips. */
module PickerOrder {
  import opened Wrappers
  import opened MoveSort
  import opened TwinPicker
  import opened PickerSteps
  import opened PickerPhases
  import opened PickerFacts
  import opened PickerRuns
  import opened MovePickers

  /** The sections of a picker's moves, in the order they come.  Skipping the quiets takes
      the second and the last away. */
  datatype Order = Order(front: seq<Move>, good: seq<Move>, losers: seq<Move>, bad: seq<Move>) {
    function Whole(): seq<Move> {
      front + good + losers + bad
    }

    function WithoutQuiets(): Order {
      Order(front, [], losers, [])
    }
  }

  // ----- the order of a new picker -----

  /** The exchange a capture of this value has to win: the negated value over 18, rounded
      towards zero, in 32 bits. */
  function Bar(value: int): (bar: int)
    ensures value != I32_MIN ==> -18 < value + 18 * bar < 18
    ensures value != I32_MIN && value + 18 * bar != 0 ==> (value + 18 * bar > 0 <==> value > 0)
  {
    if value == I32_MIN then -119304647 else if value >= 0 then -(value / 18) else (-value) / 18
  }

  /** The table move, if a picker of this kind takes it: a legal one, and for ProbCut a capture. */
  function TableMove(env: Env, kind: Kind, ttMove: Option<Move>): seq<Move> {
    if ttMove.None? || !env.pseudoLegal(ttMove.value) || !env.legal(ttMove.value) then []
    else if kind == ProbCut && !env.isCapture(ttMove.value) then []
    else [ttMove.value]
  }

  /** Call number `i` reads the scores `hs(i)`: the captures are scored at the call that
      follows the table move, the quiets at the call that follows the last winner. */
  ghost function OrderOf(
    env: Env, kind: Kind, ttMove: Option<Move>, depth: int, threshold: int, hs: nat -> Scores
  ): Order {
    var table := TableMove(env, kind, ttMove);
    var tt := if table == [] then None else Some(table[0]);
    var h := hs(|table|);
    match kind
    case Main =>
      var captures := SortDesc(Scored(Kept(env, tt, env.captures), h.capture));
      var winners := Moves(Filter((e: ExtMove) => env.seeGe(e.mv, Bar(e.value)), captures));
      var losers := Moves(Filter((e: ExtMove) => !env.seeGe(e.mv, Bar(e.value)), captures));
      var quiets := PartialSort(Scored(env.quiets, hs(|table| + |winners|).quiet), -3560 * depth);
      Order(table + winners, Kept(env, tt, Moves(Filter((e: ExtMove) => e.value > -14000, quiets))),
            losers, Kept(env, tt, Moves(Filter((e: ExtMove) => e.value <= -14000, quiets))))
    case QSearch => Order(table + Moves(SortDesc(Scored(Kept(env, tt, env.captures), h.capture))), [], [], [])
    case Evasion => Order(table + Moves(SortDesc(Scored(Kept(env, tt, env.evasions), h.evasion))), [], [], [])
    case ProbCut =>
      var captures := SortDesc(Scored(Kept(env, tt, env.captures), h.capture));
      Order(table + Moves(Filter((e: ExtMove) => env.seeGe(e.mv, threshold), captures)), [], [], [])
  }

  // ----- the order of what is left -----

  ghost function Quiets(t: Twin, env: Env, ms: seq<Move>): seq<Move> {
    if t.skipQuiets then [] else Kept(env, t.tt, ms)
  }

  /** What a picker will bring out if its next call is number `k`. */
  ghost function Left(t: Twin, env: Env, hs: nat -> Scores, k: nat): Order
    requires WellIndexed(t)
    decreases t.stage.Rank()
  {
    match t.stage
    case AtTt =>
      var table := if t.tt.Some? then [t.tt.value] else [];
      var o := Left(t.(stage := CaptureInit), env, hs, k + |table|);
      o.(front := table + o.front)
    case CaptureInit => Left(Enter(InitCaptures(t, env, hs(k)), GoodCaptures), env, hs, k)
    case GoodCaptures =>
      var winners := t.goodCaptures[t.idx..];
      var o := Left(Enter(t, QuietInit), env, hs, k + |winners|);
      o.(front := winners + o.front)
    case QuietInit => Left(Enter(if t.kind.Main? && !t.skipQuiets then InitQuiets(t, hs(k)) else t, GoodQuiets), env,
        hs, k)
    case GoodQuiets => Order([], Quiets(t, env, t.goodQuiets[t.idx..]), t.badCaptures, Quiets(t, env, t.badQuiets))
    case BadCaptures => Order([], [], t.badCaptures[t.idx..], Quiets(t, env, t.badQuiets))
    case BadQuiets => Order([], [], [], Quiets(t, env, t.badQuiets[t.idx..]))
    case Done => Order([], [], [], [])
  }

  function Cut(s: seq<Move>, n: int): seq<Move> {
    if n <= 0 then s else if n <= |s| then s[n..] else []
  }

  /** Without its first move. */
  function Rest(o: Order): Order {
    if o.front != [] then o.(front := o.front[1..])
    else if o.good != [] then o.(good := o.good[1..])
    else if o.losers != [] then o.(losers := o.losers[1..])
    else if o.bad != [] then o.(bad := o.bad[1..])
    else o
  }

  /** After `n` moves have come out. */
  function After(o: Order, n: nat): Order
    decreases n
  {
    if n == 0 then o else After(Rest(o), n - 1)
  }

  /** One call takes the first move that is left. */
  ghost predicate Takes(y: Yield, env: Env, hs: nat -> Scores, k: nat, o: Order) {
    && Sane(y.after)
    && y.move == (if o.Whole() == [] then None else Some(o.Whole()[0]))
    && Left(y.after, env, hs, k + 1) == Rest(o)
  }

  // Taking the first move of a section, when the sections before it are empty.

  lemma TakenFront(m: Move, o: Order)
    ensures var all := o.(front := [m] + o.front); all.Whole() != [] && all.Whole()[0] == m && Rest(all) == o
  {}

  lemma TakenGood(m: Move, o: Order)
    requires o.front == []
    ensures var all := o.(good := [m] + o.good); all.Whole() != [] && all.Whole()[0] == m && Rest(all) == o
  {}

  lemma TakenLoser(m: Move, o: Order)
    requires o.front == [] && o.good == []
    ensures var all := o.(losers := [m] + o.losers); all.Whole() != [] && all.Whole()[0] == m && Rest(all) == o
  {}

  lemma TakenBad(m: Move, o: Order)
    requires o.front == [] && o.good == [] && o.losers == []
    ensures var all := o.(bad := [m] + o.bad); all.Whole() != [] && all.Whole()[0] == m && Rest(all) == o
  {}

  // What is left, stage by stage.

  lemma LeftAtEnd(t: Twin, env: Env, hs: nat -> Scores, k: nat)
    requires WellIndexed(t) && t.stage.Rank() <= 1
    ensures t.stage.Done? ==> Left(t, env, hs, k) == Order([], [], [], [])
    ensures t.stage.BadQuiets? ==> Left(t, env, hs, k) == Order([], [], [], Quiets(t, env, t.badQuiets[t.idx..]))
  {
    hide Quiets;
  }

  lemma LeftBadCaptures(t: Twin, env: Env, hs: nat -> Scores, k: nat)
    requires WellIndexed(t) && t.stage.BadCaptures?
    ensures Left(t, env, hs, k) == Order([], [], t.badCaptures[t.idx..], Quiets(t, env, t.badQuiets))
  {
    hide Quiets;
  }

  lemma LeftGoodQuiets(t: Twin, env: Env, hs: nat -> Scores, k: nat)
    requires WellIndexed(t) && t.stage.GoodQuiets?
    ensures Left(t, env, hs, k)
         == Order([], Quiets(t, env, t.goodQuiets[t.idx..]), t.badCaptures, Quiets(t, env, t.badQuiets))
  {
    hide Quiets;
  }

  /** The quiets from `i` on begin with the first that may be yielded. */
  lemma QuietsFrom(t: Twin, env: Env, ms: seq<Move>, i: nat)
    requires i <= |ms|
    ensures var j := Scan(env, t.tt, ms, i);
      if !t.skipQuiets && j < |ms| then Quiets(t, env, ms[i..]) == [ms[j]] + Quiets(t, env, ms[j + 1..])
      else Quiets(t, env, ms[i..]) == []
  {
    hide Quiets, Kept, Scan, Yieldable;
    QuietsAre(t, env, ms[i..]);
    if !t.skipQuiets {
      ScanTakesKept(env, t.tt, ms, i);
      var j := Scan(env, t.tt, ms, i);
      if j < |ms| {
        QuietsAre(t, env, ms[j + 1..]);
      }
    }
  }

  lemma QuietsAre(t: Twin, env: Env, ms: seq<Move>)
    ensures Quiets(t, env, ms) == if t.skipQuiets then [] else Kept(env, t.tt, ms)
  {
    hide Kept;
  }

  lemma FirstThenRest(s: seq<Move>, i: nat)
    requires i < |s|
    ensures s[i..] == [s[i]] + s[i + 1..]
  {}

  lemma FromStart(s: seq<Move>)
    ensures s[0..] == s
  {}

  lemma NoneLeft()
    ensures var o := Order([], [], [], []); o.Whole() == [] && Rest(o) == o
  {}

  // What a call takes, stage by stage.

  lemma TakesAtEnd(t: Twin, env: Env, hs: nat -> Scores, k: nat)
    requires Sane(t) && t.stage.Rank() <= 1
    ensures Takes(Next(t, env, hs(k)), env, hs, k, Left(t, env, hs, k))
  {
    hide Next, Due, Accounts, Kept, Scan, Rest, Order.Whole, Yieldable, Left, Quiets;
    NextSane(t, env, hs(k));
    NoneLeft();
    var y := Next(t, env, hs(k));
    LeftAtEnd(t, env, hs, k);
    if t.stage.Done? {
      NextFromDone(t, env, hs(k));
      LeftAtEnd(t, env, hs, k + 1);
    } else {
      NextFromBadQuiets(t, env, hs(k));
      QuietsFrom(t, env, t.badQuiets, t.idx);
      LeftAtEnd(y.after, env, hs, k + 1);
      var j := Scan(env, t.tt, t.badQuiets, t.idx);
      if !t.skipQuiets && j < |t.badQuiets| {
        SameQuiets(t, y.after, env, t.badQuiets[j + 1..]);
        TakenBad(t.badQuiets[j], Left(y.after, env, hs, k + 1));
      }
    }
  }

  lemma SameQuiets(t: Twin, u: Twin, env: Env, ms: seq<Move>)
    requires t.tt == u.tt && t.skipQuiets == u.skipQuiets
    ensures Quiets(t, env, ms) == Quiets(u, env, ms)
  {}

  lemma TakesBadCaptures(t: Twin, env: Env, hs: nat -> Scores, k: nat)
    requires Sane(t) && t.stage.BadCaptures?
    ensures Takes(Next(t, env, hs(k)), env, hs, k, Left(t, env, hs, k))
  {
    hide Next, Rest, Order.Whole, Left, Quiets;
    NextFromBadCaptures(t, env, hs(k));
    LeftBadCaptures(t, env, hs, k);
    if t.idx < |t.badCaptures| {
      var u := t.(idx := t.idx + 1);
      FirstThenRest(t.badCaptures, t.idx);
      LeftBadCaptures(u, env, hs, k + 1);
      SameQuiets(t, u, env, t.badQuiets);
      TakenLoser(t.badCaptures[t.idx], Left(u, env, hs, k + 1));
    } else {
      var u := Enter(t, BadQuiets);
      LeftAtEnd(u, env, hs, k);
      SameQuiets(t, u, env, t.badQuiets);
      FromStart(t.badQuiets);
      TakesAtEnd(u, env, hs, k);
    }
  }

  lemma TakesGoodQuiets(t: Twin, env: Env, hs: nat -> Scores, k: nat)
    requires Sane(t) && t.stage.GoodQuiets?
    ensures Takes(Next(t, env, hs(k)), env, hs, k, Left(t, env, hs, k))
  {
    hide Next, Scan, Rest, Order.Whole, Left, Quiets, Yieldable;
    NextFromGoodQuiets(t, env, hs(k));
    LeftGoodQuiets(t, env, hs, k);
    QuietsFrom(t, env, t.goodQuiets, t.idx);
    var j := Scan(env, t.tt, t.goodQuiets, t.idx);
    if !t.skipQuiets && j < |t.goodQuiets| {
      var u := t.(idx := j + 1);
      LeftGoodQuiets(u, env, hs, k + 1);
      SameQuiets(t, u, env, t.badQuiets);
      SameQuiets(t, u, env, t.goodQuiets[j + 1..]);
      TakenGood(t.goodQuiets[j], Left(u, env, hs, k + 1));
    } else {
      var u := Enter(t, BadCaptures);
      LeftBadCaptures(u, env, hs, k);
      SameQuiets(t, u, env, t.badQuiets);
      FromStart(t.badCaptures);
      TakesBadCaptures(u, env, hs, k);
    }
  }

  lemma TakesFromQuietInit(t: Twin, env: Env, hs: nat -> Scores, k: nat)
    requires Sane(t) && t.stage.QuietInit?
    ensures Takes(Next(t, env, hs(k)), env, hs, k, Left(t, env, hs, k))
  {
    hide Next, InitQuiets, Takes;
    NextFromQuietInit(t, env, hs(k));
    InitQuietsKeeps(t, env, hs(k));
    TakesGoodQuiets(Enter(if t.kind.Main? && !t.skipQuiets then InitQuiets(t, hs(k)) else t, GoodQuiets), env, hs, k);
  }

  lemma TakesGoodCaptures(t: Twin, env: Env, hs: nat -> Scores, k: nat)
    requires Sane(t) && t.stage.GoodCaptures?
    ensures Takes(Next(t, env, hs(k)), env, hs, k, Left(t, env, hs, k))
  {
    hide Next, InitQuiets, Rest, Order.Whole;
    NextFromGoodCaptures(t, env, hs(k));
    if t.idx < |t.goodCaptures| {
      FirstThenRest(t.goodCaptures, t.idx);
      var u := t.(idx := t.idx + 1);
      WinnersLeft(t, env, hs, k);
      TakenFront(t.goodCaptures[t.idx], Left(u, env, hs, k + 1));
    } else {
      TakesFromQuietInit(Enter(t, QuietInit), env, hs, k);
      NothingInFront(Left(Enter(t, QuietInit), env, hs, k));
    }
  }

  lemma NothingInFront(o: Order)
    ensures o.(front := [] + o.front) == o
  {}

  lemma WinnersLeft(t: Twin, env: Env, hs: nat -> Scores, k: nat)
    requires Sane(t) && t.stage.GoodCaptures? && t.idx < |t.goodCaptures|
    ensures var o := Left(t.(idx := t.idx + 1), env, hs, k + 1);
      Left(t, env, hs, k) == o.(front := [t.goodCaptures[t.idx]] + o.front)
  {
    hide InitQuiets;
    FirstThenRest(t.goodCaptures, t.idx);
    var u := t.(idx := t.idx + 1);
    assert Enter(u, QuietInit) == Enter(t, QuietInit);
    var o := Left(Enter(t, QuietInit), env, hs, k + |t.goodCaptures[t.idx..]|);
    hide Left;
    assert ([t.goodCaptures[t.idx]] + t.goodCaptures[t.idx + 1..]) + o.front
        == [t.goodCaptures[t.idx]] + (t.goodCaptures[t.idx + 1..] + o.front);
  }

  lemma TakesFromCaptureInit(t: Twin, env: Env, hs: nat -> Scores, k: nat)
    requires Sane(t) && t.stage.CaptureInit?
    ensures Takes(Next(t, env, hs(k)), env, hs, k, Left(t, env, hs, k))
  {
    hide Next, InitCaptures, Takes;
    NextFromCaptureInit(t, env, hs(k));
    InitCapturesKeeps(t, env, hs(k));
    TakesGoodCaptures(Enter(InitCaptures(t, env, hs(k)), GoodCaptures), env, hs, k);
  }

  /** A call takes the first move left, in any stage. */
  lemma NextTakes(t: Twin, env: Env, hs: nat -> Scores, k: nat)
    requires Sane(t)
    ensures Takes(Next(t, env, hs(k)), env, hs, k, Left(t, env, hs, k))
  {
    hide Next, InitCaptures, Order.Whole, Rest, Takes, Left;
    match t.stage {
      case AtTt => TakesTable(t, env, hs, k);
      case CaptureInit => TakesFromCaptureInit(t, env, hs, k);
      case GoodCaptures => TakesGoodCaptures(t, env, hs, k);
      case QuietInit => TakesFromQuietInit(t, env, hs, k);
      case GoodQuiets => TakesGoodQuiets(t, env, hs, k);
      case BadCaptures => TakesBadCaptures(t, env, hs, k);
      case _ => TakesAtEnd(t, env, hs, k);
    }
  }

  lemma TakesTable(t: Twin, env: Env, hs: nat -> Scores, k: nat)
    requires Sane(t) && t.stage.AtTt?
    ensures Takes(Next(t, env, hs(k)), env, hs, k, Left(t, env, hs, k))
  {
    hide Next, InitCaptures, Order.Whole, Rest;
    NextFromTt(t, env, hs(k));
    var u := t.(stage := CaptureInit);
    if t.tt.Some? {
      TakenFront(t.tt.value, Left(u, env, hs, k + 1));
    } else {
      TakesFromCaptureInit(u, env, hs, k);
      NothingInFront(Left(u, env, hs, k));
    }
  }

  // ----- whole runs -----

  /** The calls of a schedule read the scores `hs`, from call number `k` on. */
  ghost predicate Reads(events: seq<Event>, hs: nat -> Scores, k: nat) {
    events == [] || match events[0]
      case Skip => Reads(events[1..], hs, k)
      case Call(h) => h == hs(k) && Reads(events[1..], hs, k + 1)
  }

  /** The calls before the first request to skip. */
  function Patience(events: seq<Event>): (n: nat)
    ensures n <= Calls(events)
  {
    if events == [] || events[0].Skip? then 0 else 1 + Patience(events[1..])
  }

  /** The answers to `n` calls: the moves in order, then none. */
  function Shown(s: seq<Move>, n: nat): (r: seq<Option<Move>>)
    ensures |r| == n && forall i :: 0 <= i < n ==> r[i] == if i < |s| then Some(s[i]) else None
  {
    seq(n, i requires 0 <= i < n => if i < |s| then Some(s[i]) else None)
  }

  lemma ShownFirst(s: seq<Move>, n: nat)
    requires n > 0
    ensures Shown(s, n) == [if s == [] then None else Some(s[0])] + Shown(Cut(s, 1), n - 1)
  {}

  lemma ShownOn(s: seq<Move>, n: nat, m: nat)
    ensures Shown(s, n) + Shown(Cut(s, n), m) == Shown(s, n + m)
  {}

  lemma CutSum(a: seq<Move>, b: seq<Move>, n: nat)
    ensures Cut(a + b, n) == Cut(a, n) + Cut(b, n - |a|)
  {}

  lemma CutRest(s: seq<Move>, n: nat)
    requires n > 0 && s != []
    ensures Cut(s[1..], n - 1) == Cut(s, n)
  {
    if 1 < n <= |s| {
      assert s[1..][n - 1..] == s[n..];
    }
  }

  /** What each section has left after `n` moves. */
  function Cuts(o: Order, n: nat): Order {
    Order(Cut(o.front, n), Cut(o.good, n - |o.front|), Cut(o.losers, n - |o.front| - |o.good|),
          Cut(o.bad, n - |o.front| - |o.good| - |o.losers|))
  }

  lemma CutsRest(o: Order, n: nat)
    requires n > 0
    ensures Cuts(Rest(o), n - 1) == Cuts(o, n)
  {
    if o.front != [] {
      CutRest(o.front, n);
      hide Cut;
    } else if o.good != [] {
      CutRest(o.good, n);
      assert Cut(o.front, n) == Cut(o.front, n - 1) == [];
      hide Cut;
    } else if o.losers != [] {
      CutRest(o.losers, n);
      assert Cut(o.front, n) == Cut(o.front, n - 1) == [] && Cut(o.good, n) == Cut(o.good, n - 1) == [];
      hide Cut;
    } else if o.bad != [] {
      CutRest(o.bad, n);
    }
  }

  lemma {:induction false} AfterCuts(o: Order, n: nat)
    ensures After(o, n) == Cuts(o, n)
    decreases n
  {
    if n > 0 {
      AfterCuts(Rest(o), n - 1);
      CutsRest(o, n);
      hide Cuts, Rest;
    }
  }

  /** What comes out is the front of what is left. */
  lemma WholeAfter(o: Order, n: nat)
    ensures After(o, n).Whole() == Cut(o.Whole(), n)
  {
    AfterCuts(o, n);
    CutSum(o.front, o.good, n);
    CutSum(o.front + o.good, o.losers, n);
    CutSum(o.front + o.good + o.losers, o.bad, n);
    hide Cut, After;
  }

  /** Skipping takes the quiets away and leaves the rest as it is. */
  lemma SkipLeaves(t: Twin, env: Env, hs: nat -> Scores, k: nat)
    requires Sane(t)
    ensures Left(SkipQuietMoves(t), env, hs, k) == Left(t, env, hs, k).WithoutQuiets()
  {
    hide InitCaptures;
    match t.stage {
      case AtTt =>
        var table := if t.tt.Some? then [t.tt.value] else [];
        SkipLeavesCaptures(t.(stage := CaptureInit), env, hs, k + |table|);
      case CaptureInit => SkipLeavesCaptures(t, env, hs, k);
      case GoodCaptures => SkipLeavesWinners(t, env, hs, k);
      case _ => SkipLeavesRest(t, env, hs, k);
    }
  }

  lemma SkipLeavesRest(t: Twin, env: Env, hs: nat -> Scores, k: nat)
    requires Sane(t) && t.stage.Rank() <= 4
    ensures Left(SkipQuietMoves(t), env, hs, k) == Left(t, env, hs, k).WithoutQuiets()
  {
    hide Kept, Filter, SortedQuiets;
  }

  lemma SkipLeavesWinners(t: Twin, env: Env, hs: nat -> Scores, k: nat)
    requires Sane(t) && t.stage.GoodCaptures?
    ensures Left(SkipQuietMoves(t), env, hs, k) == Left(t, env, hs, k).WithoutQuiets()
  {
    SkipLeavesRest(Enter(t, QuietInit), env, hs, k + |t.goodCaptures[t.idx..]|);
  }

  lemma SkipLeavesCaptures(t: Twin, env: Env, hs: nat -> Scores, k: nat)
    requires Sane(t) && t.stage.CaptureInit?
    ensures Left(SkipQuietMoves(t), env, hs, k) == Left(t, env, hs, k).WithoutQuiets()
  {
    InitCapturesKeeps(t, env, hs(k));
    SkipBefore(t, env, hs(k));
    hide InitCaptures;
    SkipLeavesWinners(Enter(InitCaptures(t, env, hs(k)), GoodCaptures), env, hs, k);
  }

  lemma SkipBefore(t: Twin, env: Env, h: Scores)
    ensures InitCaptures(SkipQuietMoves(t), env, h) == SkipQuietMoves(InitCaptures(t, env, h))
  {
    hide Filter, SortDesc;
  }

  /** Without quiets to take away, skipping changes nothing. */
  lemma SkippedRun(o: Order, n: nat, m: nat)
    requires o.good == o.bad == []
    ensures Shown(o.Whole(), n) + Shown(After(o, n).WithoutQuiets().Whole(), m) == Shown(o.Whole(), n + m)
  {
    AfterCuts(o, n);
    hide After, Shown;
    assert After(o, n).WithoutQuiets() == After(o, n);
    WholeAfter(o, n);
    ShownOn(o.Whole(), n, m);
  }

  /** One call, and then the rest of a run. */
  lemma ShownCall(o: Order, n: nat, m: nat)
    ensures [if o.Whole() == [] then None else Some(o.Whole()[0])]
            + (Shown(Rest(o).Whole(), n) + Shown(After(Rest(o), n).WithoutQuiets().Whole(), m))
         == Shown(o.Whole(), n + 1) + Shown(After(o, n + 1).WithoutQuiets().Whole(), m)
  {
    hide Rest, Order.Whole, Shown, Cut;
    ShownFirst(o.Whole(), n + 1);
    WholeAfter(o, 1);
    assert After(o, n + 1) == After(Rest(o), n) && After(o, 1) == Rest(o);
    hide After;
  }

  lemma NoneGone(o: Order)
    ensures After(o, 0) == o
  {}

  /** Every run brings out what is left in order, and from the first request to skip on
      what is left without the quiets. */
  lemma {:induction false} RunShows(t: Twin, env: Env, events: seq<Event>, hs: nat -> Scores, k: nat)
    requires Sane(t) && Reads(events, hs, k)
    ensures var o := Left(t, env, hs, k);
      var n := Patience(events);
      Answers(t, env, events)
      == Shown(o.Whole(), n) + Shown(After(o, n).WithoutQuiets().Whole(), Calls(events) - n)
    decreases |events|
  {
    hide Next, Left, Shown, Rest, Order.Whole, After;
    var o := Left(t, env, hs, k);
    NoneGone(o);
    if events == [] {
      assert Shown(o.Whole(), 0) == [] && Shown(o.WithoutQuiets().Whole(), 0) == [];
    } else {
      AnswersStep(t, env, events);
      var rest := events[1..];
      match events[0] {
        case Skip =>
          SkipLeaves(t, env, hs, k);
          RunShows(SkipQuietMoves(t), env, rest, hs, k);
          SkippedRun(o.WithoutQuiets(), Patience(rest), Calls(rest) - Patience(rest));
          assert Shown(o.Whole(), 0) == [];
        case Call(h) =>
          var n := 1 + Patience(rest);
          NextTakes(t, env, hs, k);
          RunShows(Next(t, env, h).after, env, rest, hs, k + 1);
          ShownCall(o, n - 1, Calls(events) - n);
      }
    }
  }

  // ----- new pickers -----

  lemma {:induction false} FilterSame(f: ExtMove -> bool, g: ExtMove -> bool, s: seq<ExtMove>)
    requires forall e: ExtMove :: f(e) == g(e)
    ensures Filter(f, s) == Filter(g, s)
  {
    if s != [] {
      FilterSame(f, g, s[..|s| - 1]);
    }
  }

  lemma NewTable(env: Env, kind: Kind, ttMove: Option<Move>)
    ensures var tt := AcceptTt(env, kind, ttMove);
      TableMove(env, kind, ttMove) == if tt.Some? then [tt.value] else []
  {}

  lemma BarIsExchange(env: Env, e: ExtMove)
    ensures WinsExchange(env, e) == env.seeGe(e.mv, Bar(e.value))
  {}

  lemma LeftQuietInit(t: Twin, env: Env, hs: nat -> Scores, k: nat)
    requires Sane(t) && t.stage.QuietInit? && !t.skipQuiets && t.goodQuiets == t.badQuiets == []
    ensures var u := if t.kind.Main? then InitQuiets(t, hs(k)) else t;
      Left(t, env, hs, k) == Order([], Kept(env, t.tt, u.goodQuiets), t.badCaptures, Kept(env, t.tt, u.badQuiets))
  {
    InitQuietsKeeps(t, env, hs(k));
    SettingsStay(t, hs(k));
    hide InitQuiets, Kept;
    var w := Enter(if t.kind.Main? then InitQuiets(t, hs(k)) else t, GoodQuiets);
    LeftGoodQuiets(w, env, hs, k);
    FromStart(w.goodQuiets);
  }

  lemma SettingsStay(t: Twin, h: Scores)
    ensures InitQuiets(t, h) == t.(goodQuiets := InitQuiets(t, h).goodQuiets, badQuiets := InitQuiets(t, h).badQuiets)
  {}

  lemma LeftWinners(t: Twin, env: Env, hs: nat -> Scores, k: nat)
    requires Sane(t) && t.stage.GoodCaptures? && t.idx == 0
    ensures var o := Left(Enter(t, QuietInit), env, hs, k + |t.goodCaptures|);
      Left(t, env, hs, k) == o.(front := t.goodCaptures + o.front)
  {
    hide InitQuiets;
    FromStart(t.goodCaptures);
  }

  ghost function InitialQuiets(t: Twin, h: Scores): Twin {
    if t.kind.Main? then InitQuiets(t, h) else t
  }

  lemma EnterThenInit(t: Twin, h: Scores)
    ensures InitialQuiets(Enter(t, QuietInit), h).goodQuiets == InitialQuiets(t, h).goodQuiets
    ensures InitialQuiets(Enter(t, QuietInit), h).badQuiets == InitialQuiets(t, h).badQuiets
  {}

  /** What a picker has left when its captures are in order. */
  lemma LeftSorted(t: Twin, env: Env, hs: nat -> Scores, k: nat)
    requires Sane(t) && t.stage.GoodCaptures? && t.idx == 0 && !t.skipQuiets && t.goodQuiets == t.badQuiets == []
    ensures var u := InitialQuiets(t, hs(k + |t.goodCaptures|));
      Left(t, env, hs, k)
      == Order(t.goodCaptures, Kept(env, t.tt, u.goodQuiets), t.badCaptures, Kept(env, t.tt, u.badQuiets))
  {
    hide InitQuiets, Kept, Left;
    LeftWinners(t, env, hs, k);
    LeftQuietInit(Enter(t, QuietInit), env, hs, k + |t.goodCaptures|);
    EnterThenInit(t, hs(k + |t.goodCaptures|));
    assert t.goodCaptures + [] == t.goodCaptures;
  }

  lemma LeftAtStart(t: Twin, env: Env, hs: nat -> Scores)
    requires Sane(t) && t.stage.AtTt?
    ensures var table := if t.tt.Some? then [t.tt.value] else [];
      var u := t.(stage := CaptureInit);
      Sane(Enter(InitCaptures(u, env, hs(|table|)), GoodCaptures))
      && var o := Left(Enter(InitCaptures(u, env, hs(|table|)), GoodCaptures), env, hs, |table|);
      Left(t, env, hs, 0) == o.(front := table + o.front)
  {
    var table := if t.tt.Some? then [t.tt.value] else [];
    InitCapturesKeeps(t.(stage := CaptureInit), env, hs(|table|));
    hide InitCaptures;
  }

  /** The capture lists, by what each comparison says. */
  lemma FirstLists(env: Env, t: Twin, h: Scores)
    requires t.badCaptures == []
    ensures var u := InitCaptures(t, env, h);
      match t.kind
      case Main =>
        var captures := SortDesc(Scored(t.rawCaptures, h.capture));
        && u.goodCaptures == Moves(Filter((e: ExtMove) => env.seeGe(e.mv, Bar(e.value)), captures))
        && u.badCaptures == Moves(Filter((e: ExtMove) => !env.seeGe(e.mv, Bar(e.value)), captures))
      case QSearch => u.goodCaptures == Moves(SortDesc(Scored(t.rawCaptures, h.capture))) && u.badCaptures == []
      case Evasion => u.goodCaptures == Moves(SortDesc(Scored(t.rawCaptures, h.evasion))) && u.badCaptures == []
      case ProbCut =>
        var captures := SortDesc(Scored(t.rawCaptures, h.capture));
        && u.goodCaptures == Moves(Filter((e: ExtMove) => env.seeGe(e.mv, t.threshold), captures))
        && u.badCaptures == []
  {
    hide SortDesc, Filter;
    if t.kind.Main? {
      var captures := SortDesc(Scored(t.rawCaptures, h.capture));
      forall e: ExtMove
        ensures WinsExchange(env, e) == env.seeGe(e.mv, Bar(e.value))
      {
        BarIsExchange(env, e);
      }
      hide WinsExchange, Bar;
      FilterSame(Winning(env), (e: ExtMove) => env.seeGe(e.mv, Bar(e.value)), captures);
      FilterSame(Losing(env), (e: ExtMove) => !env.seeGe(e.mv, Bar(e.value)), captures);
    } else if t.kind.ProbCut? {
      FilterSame(Clears(env, t.threshold), (e: ExtMove) => env.seeGe(e.mv, t.threshold),
                 SortDesc(Scored(t.rawCaptures, h.capture)));
    }
  }

  lemma FirstQuiets(t: Twin, h: Scores)
    ensures var u := InitQuiets(t, h);
      var quiets := PartialSort(Scored(t.rawQuiets, h.quiet), -3560 * t.depth);
      && u.goodQuiets == Moves(Filter((e: ExtMove) => e.value > -14000, quiets))
      && u.badQuiets == Moves(Filter((e: ExtMove) => e.value <= -14000, quiets))
  {
    hide PartialSort, Filter;
    var quiets := PartialSort(Scored(t.rawQuiets, h.quiet), -3560 * t.depth);
    FilterSame(GoodQuiet(), (e: ExtMove) => e.value > -14000, quiets);
    FilterSame(BadQuiet(), (e: ExtMove) => e.value <= -14000, quiets);
  }

  /** What a new picker has before it, in terms of the lists it will fill. */
  lemma LeftNew(t: Twin, env: Env, hs: nat -> Scores)
    requires Sane(t) && t.stage.AtTt? && !t.skipQuiets
    ensures var table := if t.tt.Some? then [t.tt.value] else [];
      var u := InitCaptures(t, env, hs(|table|));
      var v := InitialQuiets(t, hs(|table| + |u.goodCaptures|));
      Left(t, env, hs, 0)
      == Order(table + u.goodCaptures, Kept(env, t.tt, v.goodQuiets), u.badCaptures, Kept(env, t.tt, v.badQuiets))
  {
    hide InitCaptures, InitialQuiets, Left, Kept;
    var table := if t.tt.Some? then [t.tt.value] else [];
    var h := hs(|table|);
    LeftAtStart(t, env, hs);
    CapturesOnly(t, env, h);
    var u := Enter(InitCaptures(t.(stage := CaptureInit), env, h), GoodCaptures);
    LeftSorted(u, env, hs, |table|);
    QuietsAgree(t, u, hs(|table| + |u.goodCaptures|));
  }

  lemma CapturesOnly(t: Twin, env: Env, h: Scores)
    ensures var u := InitCaptures(t.(stage := CaptureInit), env, h);
      u == t.(stage := CaptureInit, goodCaptures := u.goodCaptures, badCaptures := u.badCaptures)
    ensures InitCaptures(t.(stage := CaptureInit), env, h).goodCaptures == InitCaptures(t, env, h).goodCaptures
    ensures InitCaptures(t.(stage := CaptureInit), env, h).badCaptures == InitCaptures(t, env, h).badCaptures
  {
    hide SortDesc, Filter;
  }

  lemma QuietsAgree(t: Twin, u: Twin, h: Scores)
    requires t.kind == u.kind && t.rawQuiets == u.rawQuiets && t.depth == u.depth
    requires t.goodQuiets == u.goodQuiets && t.badQuiets == u.badQuiets
    ensures InitialQuiets(t, h).goodQuiets == InitialQuiets(u, h).goodQuiets
    ensures InitialQuiets(t, h).badQuiets == InitialQuiets(u, h).badQuiets
  {}

  /** A new picker has the written order before it. */
  lemma LeftAtFirst(env: Env, kind: Kind, ttMove: Option<Move>, depth: int, threshold: int, hs: nat -> Scores)
    ensures Left(NewTwin(env, kind, ttMove, depth, threshold), env, hs, 0)
         == OrderOf(env, kind, ttMove, depth, threshold, hs)
  {
    var t := NewTwin(env, kind, ttMove, depth, threshold);
    NewTable(env, kind, ttMove);
    KeptNothing(env, t.tt);
    hide Left, AcceptTt, TableMove, Kept, SortDesc, PartialSort, Filter;
    LeftNew(t, env, hs);
    var table := TableMove(env, kind, ttMove);
    var u := InitCaptures(t, env, hs(|table|));
    FirstLists(env, t, hs(|table|));
    FirstQuiets(t, hs(|table| + |u.goodCaptures|));
    hide InitCaptures, InitQuiets;
  }

  /** The whole emission of a new picker, over every schedule: up to the first request to
      skip the moves come in the written order, after it in the same order without the
      quiets, and then none. */
  lemma WholeRun(
    env: Env, kind: Kind, ttMove: Option<Move>, depth: int, threshold: int, events: seq<Event>, hs: nat -> Scores
  )
    requires Reads(events, hs, 0)
    ensures var o := OrderOf(env, kind, ttMove, depth, threshold, hs);
      var n := Patience(events);
      Answers(NewTwin(env, kind, ttMove, depth, threshold), env, events)
      == Shown(o.front + o.good + o.losers + o.bad, n)
         + Shown(Cut(o.front, n) + Cut(o.losers, n - |o.front| - |o.good|), Calls(events) - n)
  {
    hide NewTwin, Left, OrderOf, Answers, Reads, Cut, Shown;
    LeftAtFirst(env, kind, ttMove, depth, threshold, hs);
    RunShows(NewTwin(env, kind, ttMove, depth, threshold), env, events, hs, 0);
    var o, n := OrderOf(env, kind, ttMove, depth, threshold, hs), Patience(events);
    AfterCuts(o, n);
    hide After;
    assert Cut(o.front, n) + [] + Cut(o.losers, n - |o.front| - |o.good|) + []
        == Cut(o.front, n) + Cut(o.losers, n - |o.front| - |o.good|);
  }

  /** The one-buffer picker, from its construction on. */
  method DriveNew(
    env: Env, kind: Kind, ttMove: Option<Move>, depth: int, threshold: int, events: seq<Event>, ghost hs: nat -> Scores
  ) returns (out: seq<Option<Move>>)
    requires Reads(events, hs, 0)
    ensures var o := OrderOf(env, kind, ttMove, depth, threshold, hs);
      var n := Patience(events);
      out == Shown(o.front + o.good + o.losers + o.bad, n)
             + Shown(Cut(o.front, n) + Cut(o.losers, n - |o.front| - |o.good|), Calls(events) - n)
  {
    hide *;
    var p := new MovePicker(env, kind, ttMove, depth, threshold);
    WholeRun(env, kind, ttMove, depth, threshold, events, hs);
    out := Drive(p, events);
  }
}
