/** Whole runs of a picker: any schedule of calls, each with the scores of its moment,
    and of requests to skip the remaining quiets. */
module PickerRuns {
  import opened Wrappers
  import opened MoveSort
  import opened TwinPicker
  import opened PickerSteps
  import opened PickerPhases
  import opened PickerFacts
  import opened MovePickers

  datatype Event = Call(scores: Scores) | Skip

  /** What a schedule brings out, by the stage it comes from, and what it skips. */
  datatype Run = Run(table: seq<Move>, captures: seq<Move>, quiets: seq<Move>, skipped: multiset<Move>, after: Twin)

  ghost function Add(y: Yield, r: Run): Run {
    if y.move.None? then r
    else if FromCaptures(y) then r.(captures := [y.move.value] + r.captures)
    else if FromQuiets(y) then r.(quiets := [y.move.value] + r.quiets)
    else r.(table := [y.move.value] + r.table)
  }

  ghost function Play(t: Twin, env: Env, events: seq<Event>): Run
    requires Sane(t)
    decreases |events|
  {
    if events == [] then Run([], [], [], multiset{}, t)
    else match events[0]
      case Skip =>
        var r := Play(SkipQuietMoves(t), env, events[1..]);
        r.(skipped := QuietsDue(t, env) + r.skipped)
      case Call(h) =>
        NextAccounts(t, env, h);
        var y := Next(t, env, h);
        Add(y, Play(y.after, env, events[1..]))
  }

  ghost function Emitted(r: Run): multiset<Move> {
    multiset(r.table) + multiset(r.captures) + multiset(r.quiets)
  }

  lemma AddEmits(y: Yield, r: Run)
    ensures Emitted(Add(y, r)) == Emitted(r) + Yielded(y.move)
    ensures Add(y, r).skipped == r.skipped && Add(y, r).after == r.after
  {
    if y.move.Some? {
      var m := y.move.value;
      FirstOf(m, r.captures);
      FirstOf(m, r.quiets);
      FirstOf(m, r.table);
      Sum3(multiset(r.table), multiset(r.captures), multiset(r.quiets), multiset{m});
    }
  }

  lemma SkipDue(t: Twin, env: Env)
    requires Sane(t)
    ensures Sane(SkipQuietMoves(t))
    ensures QuietsDue(SkipQuietMoves(t), env) == multiset{}
    ensures Due(t, env) == Due(SkipQuietMoves(t), env) + QuietsDue(t, env)
  {
    hide Kept, MovesClearing;
    var u := SkipQuietMoves(t);
    assert CapturesDue(u, env) == CapturesDue(t, env) && TableDue(u) == TableDue(t);
  }

  lemma SumMoves(due: multiset<Move>, due': multiset<Move>, y: multiset<Move>, e: multiset<Move>, s: multiset<Move>,
      rest: multiset<Move>)
    requires due == due' + y && due' == e + s + rest
    ensures due == (e + y) + s + rest
    ensures due == e + (y + s) + rest
  {}

  /** Nothing is lost and nothing made up: over any schedule, what was due is what came
      out, what was skipped, and what is still due. */
  lemma {:induction false} PlayAccounts(t: Twin, env: Env, events: seq<Event>)
    requires Sane(t)
    ensures var r := Play(t, env, events);
      Sane(r.after) && Due(t, env) == Emitted(r) + r.skipped + Due(r.after, env)
    decreases |events|
  {
    hide Due, QuietsDue, Next, Emitted, Add, WellIndexed;
    if events == [] {
      NothingEmitted(t);
    } else {
      match events[0] {
        case Skip =>
          var u := SkipQuietMoves(t);
          SkipDue(t, env);
          PlayAccounts(u, env, events[1..]);
          var r := Play(u, env, events[1..]);
          SameEmitted(r, QuietsDue(t, env) + r.skipped);
          SumMoves(Due(t, env), Due(u, env), QuietsDue(t, env), Emitted(r), r.skipped, Due(r.after, env));
        case Call(h) =>
          NextAccounts(t, env, h);
          var y := Next(t, env, h);
          PlayAccounts(y.after, env, events[1..]);
          var r := Play(y.after, env, events[1..]);
          AddEmits(y, r);
          SumMoves(Due(t, env), Due(y.after, env), Yielded(y.move), Emitted(r), r.skipped, Due(r.after, env));
      }
    }
  }

  lemma NothingEmitted(t: Twin)
    ensures Emitted(Run([], [], [], multiset{}, t)) == multiset{}
  {}

  lemma SameEmitted(r: Run, skipped: multiset<Move>)
    ensures Emitted(r.(skipped := skipped)) == Emitted(r)
  {}

  // ----- the end -----

  /** Once exhausted, a picker stays so. */
  lemma {:induction false} DoneStays(t: Twin, env: Env, events: seq<Event>)
    requires Sane(t) && t.stage.Done?
    ensures Play(t, env, events).after.stage.Done? && Emitted(Play(t, env, events)) == multiset{}
    decreases |events|
  {
    if events != [] {
      match events[0] {
        case Skip => DoneStays(SkipQuietMoves(t), env, events[1..]);
        case Call(h) =>
          NextFromDone(t, env, h);
          DoneStays(t, env, events[1..]);
      }
    }
  }

  function Calls(events: seq<Event>): nat {
    if events == [] then 0 else (if events[0].Call? then 1 else 0) + Calls(events[1..])
  }

  /** A call too many has found the end. */
  lemma {:induction false} PlayEnds(t: Twin, env: Env, events: seq<Event>)
    requires Sane(t) && Calls(events) > |Due(t, env)|
    ensures Play(t, env, events).after.stage.Done?
    decreases |events|
  {
    hide Due, Next, WellIndexed, Add;
    match events[0] {
      case Skip =>
        SkipDue(t, env);
        PlayEnds(SkipQuietMoves(t), env, events[1..]);
      case Call(h) =>
        NextAccounts(t, env, h);
        var y := Next(t, env, h);
        AddEmits(y, Play(y.after, env, events[1..]));
        if y.move.Some? {
          PlayEnds(y.after, env, events[1..]);
        } else {
          DoneStays(y.after, env, events[1..]);
        }
    }
  }

  lemma DoneOwesNothing(t: Twin, env: Env)
    requires Sane(t) && t.stage.Done?
    ensures Due(t, env) == multiset{}
  {}

  // ----- order -----

  /** What one call takes from the captures in line. */
  ghost function Taken(y: Yield): seq<Move> {
    if FromCaptures(y) then [y.move.value] else []
  }

  ghost predicate InLine(t: Twin, y: Yield)
    requires WellIndexed(t)
  {
    && Sane(y.after) && y.after.stage.Rank() <= 5
    && CaptureLine(t) == Taken(y) + CaptureLine(y.after)
    && (y.move.Some? ==> FromCaptures(y) || FromQuiets(y))
  }

  /** Passing on to a stage with the same line. */
  lemma SameLine(t: Twin, u: Twin, y: Yield)
    requires WellIndexed(t) && WellIndexed(u) && CaptureLine(u) == CaptureLine(t)
    requires InLine(u, y)
    ensures InLine(t, y)
  {}

  lemma CaptureInLine(t: Twin)
    requires Sane(t) && (t.stage.GoodCaptures? || t.stage.BadCaptures?)
    ensures t.stage.GoodCaptures? && t.idx < |t.goodCaptures| ==>
      InLine(t, Yield(Some(t.goodCaptures[t.idx]), t.(idx := t.idx + 1)))
    ensures t.stage.BadCaptures? && t.idx < |t.badCaptures| ==>
      InLine(t, Yield(Some(t.badCaptures[t.idx]), t.(idx := t.idx + 1)))
  {
    if t.stage.GoodCaptures? && t.idx < |t.goodCaptures| {
      assert t.goodCaptures[t.idx..] == [t.goodCaptures[t.idx]] + t.goodCaptures[t.idx + 1..];
    } else if t.stage.BadCaptures? && t.idx < |t.badCaptures| {
      assert t.badCaptures[t.idx..] == [t.badCaptures[t.idx]] + t.badCaptures[t.idx + 1..];
    }
  }

  lemma LinesAgree(t: Twin)
    requires Sane(t)
    ensures t.stage.GoodCaptures? && t.idx == |t.goodCaptures| ==> CaptureLine(Enter(t, QuietInit)) == CaptureLine(t)
    ensures t.stage.GoodQuiets? ==> CaptureLine(Enter(t, BadCaptures)) == CaptureLine(t)
    ensures t.stage.BadCaptures? && t.idx == |t.badCaptures| ==> CaptureLine(Enter(t, BadQuiets)) == CaptureLine(t)
  {}

  /** A quiet leaves the captures where they are. */
  lemma QuietInLine(t: Twin, y: Yield)
    requires Sane(t) && Sane(y.after) && y.after == t.(idx := y.after.idx)
    requires t.stage.GoodQuiets? || t.stage.BadQuiets?
    ensures InLine(t, y)
  {
    assert [] + CaptureLine(t) == CaptureLine(t);
  }

  lemma EndInLine(t: Twin, y: Yield)
    requires Sane(t) && Sane(y.after) && y.after.stage.Done? && y.move.None?
    requires t.stage.BadQuiets? || t.stage.Done?
    ensures InLine(t, y)
  {}

  lemma InitQuietsLine(t: Twin, h: Scores)
    requires Sane(t) && t.stage.QuietInit?
    ensures var u := Enter(if t.kind.Main? && !t.skipQuiets then InitQuiets(t, h) else t, GoodQuiets);
      Sane(u) && CaptureLine(u) == CaptureLine(t)
  {
    hide SortedQuiets, Moves, Filter;
  }

  lemma NextSane(t: Twin, env: Env, h: Scores)
    requires Sane(t)
    ensures Sane(Next(t, env, h).after)
  {
    NextAccounts(t, env, h);
  }

  lemma LineFromEnd(t: Twin, env: Env, h: Scores)
    requires Sane(t) && t.stage.Rank() <= 1
    ensures InLine(t, Next(t, env, h))
  {
    NextAccounts(t, env, h);
    hide Next, InLine, Scan, Due;
    if t.stage.BadQuiets? {
      NextFromBadQuiets(t, env, h);
    } else {
      NextFromDone(t, env, h);
    }
    if Next(t, env, h).move.Some? {
      QuietInLine(t, Next(t, env, h));
    } else {
      EndInLine(t, Next(t, env, h));
    }
  }

  lemma LineFromBadCaptures(t: Twin, env: Env, h: Scores)
    requires Sane(t) && t.stage.BadCaptures?
    ensures InLine(t, Next(t, env, h))
  {
    hide Next, InLine, CaptureLine;
    NextFromBadCaptures(t, env, h);
    CaptureInLine(t);
    if t.idx == |t.badCaptures| {
      LinesAgree(t);
      LineFromEnd(Enter(t, BadQuiets), env, h);
      SameLine(t, Enter(t, BadQuiets), Next(t, env, h));
    }
  }

  lemma LineFromGoodQuiets(t: Twin, env: Env, h: Scores)
    requires Sane(t) && t.stage.GoodQuiets?
    ensures InLine(t, Next(t, env, h))
  {
    hide Next, InLine, CaptureLine, Scan, Due, Accounts;
    NextFromGoodQuiets(t, env, h);
    if !t.skipQuiets && Scan(env, t.tt, t.goodQuiets, t.idx) < |t.goodQuiets| {
      NextSane(t, env, h);
      QuietInLine(t, Next(t, env, h));
    } else {
      LinesAgree(t);
      LineFromBadCaptures(Enter(t, BadCaptures), env, h);
      SameLine(t, Enter(t, BadCaptures), Next(t, env, h));
    }
  }

  lemma LineFromQuietInit(t: Twin, env: Env, h: Scores)
    requires Sane(t) && t.stage.QuietInit?
    ensures InLine(t, Next(t, env, h))
  {
    hide Next, InLine, CaptureLine, InitQuiets;
    NextFromQuietInit(t, env, h);
    InitQuietsLine(t, h);
    var u := Enter(if t.kind.Main? && !t.skipQuiets then InitQuiets(t, h) else t, GoodQuiets);
    LineFromGoodQuiets(u, env, h);
    SameLine(t, u, Next(t, env, h));
  }

  /** From the sorted captures on, a call takes the first capture in line or none. */
  lemma NextKeepsLine(t: Twin, env: Env, h: Scores)
    requires Sane(t) && t.stage.Rank() <= 5
    ensures InLine(t, Next(t, env, h))
  {
    hide Next, InLine, CaptureLine;
    match t.stage {
      case GoodCaptures =>
        NextFromGoodCaptures(t, env, h);
        CaptureInLine(t);
        if t.idx == |t.goodCaptures| {
          LinesAgree(t);
          LineFromQuietInit(Enter(t, QuietInit), env, h);
          SameLine(t, Enter(t, QuietInit), Next(t, env, h));
        }
      case QuietInit => LineFromQuietInit(t, env, h);
      case GoodQuiets => LineFromGoodQuiets(t, env, h);
      case BadCaptures => LineFromBadCaptures(t, env, h);
      case _ => LineFromEnd(t, env, h);
    }
  }

  lemma AddTakes(y: Yield, r: Run)
    requires y.move.Some? ==> FromCaptures(y) || FromQuiets(y)
    ensures Add(y, r).captures == Taken(y) + r.captures && Add(y, r).table == r.table && Add(y, r).after == r.after
  {}

  lemma Regroup(a: seq<Move>, b: seq<Move>, c: seq<Move>)
    ensures (a + b) + c == a + (b + c)
  {}

  /** Whenever quiets are skipped, the captures come in the same order and none is
      lost: those that came out are the front of the line, and the rest is still there. */
  lemma {:induction false} CapturesInOrder(t: Twin, env: Env, events: seq<Event>)
    requires Sane(t) && t.stage.Rank() <= 5
    ensures var r := Play(t, env, events);
      Sane(r.after) && r.captures + CaptureLine(r.after) == CaptureLine(t) && r.table == []
    decreases |events|
  {
    hide Next, CaptureLine, WellIndexed, Add, Taken, QuietsDue;
    if events != [] {
      match events[0] {
        case Skip =>
          SkipKeepsLine(t);
          CapturesInOrder(SkipQuietMoves(t), env, events[1..]);
        case Call(h) =>
          NextKeepsLine(t, env, h);
          var y := Next(t, env, h);
          CapturesInOrder(y.after, env, events[1..]);
          var r := Play(y.after, env, events[1..]);
          AddTakes(y, r);
          Regroup(Taken(y), r.captures, CaptureLine(r.after));
      }
    } else {
      assert [] + CaptureLine(t) == CaptureLine(t);
    }
  }

  lemma SkipKeepsLine(t: Twin)
    requires Sane(t)
    ensures Sane(SkipQuietMoves(t)) && CaptureLine(SkipQuietMoves(t)) == CaptureLine(t)
  {}

  /** The line itself: the winners by their own exchange threshold, then the losers, in
      the order of the stable sort at the first call that reaches the captures. */
  lemma CaptureOrder(t: Twin, env: Env, h: Scores, events: seq<Event>)
    requires Sane(t) && t.stage.CaptureInit? && t.kind.Main?
    requires events != [] && events[0] == Call(h)
    ensures var r := Play(t, env, events);
      var sorted := SortedCaptures(t, h);
      Sane(r.after)
      && r.captures + CaptureLine(r.after) == Moves(Filter(Winning(env), sorted)) + Moves(Filter(Losing(env), sorted))
  {
    var u := Enter(InitCaptures(t, env, h), GoodCaptures);
    NextFromCaptureInit(t, env, h);
    InitCapturesKeeps(t, env, h);
    hide Next, Due, Filter, SortedCaptures;
    assert u.goodCaptures[0..] == u.goodCaptures;
    assert Play(t, env, events) == Play(u, env, events);
    CapturesInOrder(u, env, events);
  }

  // ----- skipping -----

  lemma {:induction false} NextSkips(t: Twin, env: Env, h: Scores)
    requires Sane(t) && t.skipQuiets
    ensures Next(t, env, h).after.skipQuiets && !FromQuiets(Next(t, env, h))
    decreases t.stage.Rank()
  {
    hide Next, Due, Kept, InitQuiets, CaptureList;
    match t.stage {
      case AtTt =>
        NextFromTt(t, env, h);
        if t.tt.None? {
          NextSkips(t.(stage := CaptureInit), env, h);
        }
      case CaptureInit =>
        NextFromCaptureInit(t, env, h);
        InitCapturesKeeps(t, env, h);
        NextSkips(Enter(InitCaptures(t, env, h), GoodCaptures), env, h);
      case GoodCaptures =>
        NextFromGoodCaptures(t, env, h);
        if t.idx == |t.goodCaptures| {
          NextSkips(Enter(t, QuietInit), env, h);
        }
      case QuietInit =>
        NextFromQuietInit(t, env, h);
        NextSkips(Enter(t, GoodQuiets), env, h);
      case GoodQuiets =>
        NextFromGoodQuiets(t, env, h);
        NextSkips(Enter(t, BadCaptures), env, h);
      case BadCaptures =>
        NextFromBadCaptures(t, env, h);
        if t.idx == |t.badCaptures| {
          NextSkips(Enter(t, BadQuiets), env, h);
        }
      case BadQuiets =>
        NextFromBadQuiets(t, env, h);
      case Done =>
        NextFromDone(t, env, h);
    }
  }

  /** After a request to skip, no schedule brings out another quiet. */
  lemma {:induction false} NoQuietAfterSkip(t: Twin, env: Env, events: seq<Event>)
    requires Sane(t) && t.skipQuiets
    ensures Play(t, env, events).quiets == [] && Play(t, env, events).skipped == multiset{}
    decreases |events|
  {
    hide Next;
    if events != [] {
      match events[0] {
        case Skip =>
          SkipDue(t, env);
          assert SkipQuietMoves(t) == t;
          NoQuietAfterSkip(t, env, events[1..]);
        case Call(h) =>
          NextAccounts(t, env, h);
          NextSkips(t, env, h);
          NoQuietAfterSkip(Next(t, env, h).after, env, events[1..]);
      }
    }
  }

  // ----- a fresh picker -----

  /** The table move, if the picker accepts it, comes first. */
  lemma TableMoveFirst(env: Env, kind: Kind, ttMove: Option<Move>, depth: int, threshold: int, h: Scores)
    requires AcceptTt(env, kind, ttMove).Some?
    ensures Next(NewTwin(env, kind, ttMove, depth, threshold), env, h).move == ttMove
  {
    hide Kept;
    NextFromTt(NewTwin(env, kind, ttMove, depth, threshold), env, h);
  }

  predicate NoSkip(events: seq<Event>) {
    forall i :: 0 <= i < |events| ==> events[i].Call?
  }

  lemma {:induction false} NothingSkipped(t: Twin, env: Env, events: seq<Event>)
    requires Sane(t) && NoSkip(events)
    ensures Play(t, env, events).skipped == multiset{}
    decreases |events|
  {
    hide Next, Add;
    if events != [] {
      match events[0] {
        case Call(h) =>
          NextAccounts(t, env, h);
          var y := Next(t, env, h);
          NothingSkipped(y.after, env, events[1..]);
          AddEmits(y, Play(y.after, env, events[1..]));
      }
    }
  }

  /** How often a picker of one kind is to bring out a move other than the table move. */
  function Offers(env: Env, kind: Kind, threshold: int, m: Move): nat {
    if !env.legal(m) || (kind.ProbCut? && !env.seeGe(m, threshold)) then 0
    else multiset(Generated(env, kind))[m] + if kind.Main? then multiset(env.quiets)[m] else 0
  }

  /** What a new picker owes: the table move once, and every other move it offers. */
  lemma OwedAtStart(env: Env, kind: Kind, ttMove: Option<Move>, depth: int, threshold: int, m: Move)
    ensures var t := NewTwin(env, kind, ttMove, depth, threshold);
      Due(t, env)[m] == if t.tt == Some(m) then 1 else Offers(env, kind, threshold, m)
  {
    var t := NewTwin(env, kind, ttMove, depth, threshold);
    KeptCount(env, t.tt, Generated(env, kind), m);
    KeptCount(env, t.tt, env.quiets, m);
    ClearingCount(env, threshold, t.rawCaptures, m);
    KeptNothing(env, t.tt);
    hide Kept, MovesClearing, Generated;
    assert Due(t, env)[m] == TableDue(t)[m] + CapturesDue(t, env)[m] + QuietsDue(t, env)[m];
  }

  /** The generators a picker of this kind uses repeat no move. */
  ghost predicate Distinct(env: Env, kind: Kind) {
    forall m: Move :: multiset(Generated(env, kind))[m] + (if kind.Main? then multiset(env.quiets)[m] else 0) <= 1
  }

  predicate Generates(env: Env, kind: Kind, m: Move) {
    m in Generated(env, kind) || (kind.Main? && m in env.quiets)
  }

  lemma Present(ms: seq<Move>, m: Move)
    ensures m in ms <==> multiset(ms)[m] > 0
  {
    assert m in multiset(ms) <==> m in ms;
  }

  lemma OffersOnce(env: Env, kind: Kind, threshold: int, m: Move)
    requires Distinct(env, kind)
    ensures Offers(env, kind, threshold, m)
         == if env.legal(m) && Generates(env, kind, m) && (kind.ProbCut? ==> env.seeGe(m, threshold)) then 1 else 0
  {
    hide Generated;
    Present(Generated(env, kind), m);
    Present(env.quiets, m);
    var captures, quiets := multiset(Generated(env, kind))[m], if kind.Main? then multiset(env.quiets)[m] else 0;
    assert captures + quiets <= 1;
  }

  /** Called often enough and never told to skip, a picker of any kind yields the table
      move and every legal move its generators give exactly once, and nothing else; a
      ProbCut picker only those that clear its threshold. */
  lemma EveryMoveOnce(env: Env, kind: Kind, ttMove: Option<Move>, depth: int, threshold: int, events: seq<Event>,
      m: Move)
    requires Distinct(env, kind) && NoSkip(events)
    requires Calls(events) > |Due(NewTwin(env, kind, ttMove, depth, threshold), env)|
    ensures var t := NewTwin(env, kind, ttMove, depth, threshold);
      Emitted(Play(t, env, events))[m]
      == if t.tt == Some(m)
            || (env.legal(m) && Generates(env, kind, m) && (kind.ProbCut? ==> env.seeGe(m, threshold))) then 1 else 0
  {
    var t := NewTwin(env, kind, ttMove, depth, threshold);
    OwedAtStart(env, kind, ttMove, depth, threshold, m);
    OffersOnce(env, kind, threshold, m);
    PlayAccounts(t, env, events);
    PlayEnds(t, env, events);
    NothingSkipped(t, env, events);
    DoneOwesNothing(Play(t, env, events).after, env);
    hide Play, Due, Emitted, NewTwin, Sane, Offers, Generates, Distinct;
  }

  /** Every move that comes out is legal, whatever the kind and the schedule. */
  lemma OnlyLegalMoves(env: Env, kind: Kind, ttMove: Option<Move>, depth: int, threshold: int, events: seq<Event>,
      m: Move)
    requires Emitted(Play(NewTwin(env, kind, ttMove, depth, threshold), env, events))[m] > 0
    ensures env.legal(m)
  {
    var t := NewTwin(env, kind, ttMove, depth, threshold);
    OwedAtStart(env, kind, ttMove, depth, threshold, m);
    PlayAccounts(t, env, events);
    hide Play, Due, Emitted, Sane, Kept, Generated;
  }

  // ----- the real picker -----

  /** What each call of a schedule answers. */
  ghost function Answers(t: Twin, env: Env, events: seq<Event>): seq<Option<Move>>
    requires Sane(t)
    decreases |events|
  {
    if events == [] then []
    else match events[0]
      case Skip => Answers(SkipQuietMoves(t), env, events[1..])
      case Call(h) =>
        NextAccounts(t, env, h);
        [Next(t, env, h).move] + Answers(Next(t, env, h).after, env, events[1..])
  }

  /** Over every schedule the one-buffer picker answers what its twin answers. */
  method Drive(p: MovePicker, events: seq<Event>) returns (out: seq<Option<Move>>)
    requires p.Valid() && Sane(p.twin)
    modifies p, p.buf
    ensures p.Valid()
    ensures out == Answers(old(p.twin), p.env, events)
  {
    out := [];
    ghost var start := p.twin;
    for i := 0 to |events|
      invariant p.Valid() && Sane(p.twin)
      invariant out + Answers(p.twin, p.env, events[i..]) == Answers(start, p.env, events)
    {
      hide Next, Answers, Sane;
      ghost var t := p.twin;
      ghost var rest := Answers(t, p.env, events[i..]);
      AnswersStep(t, p.env, events[i..]);
      assert events[i..][0] == events[i] && events[i..][1..] == events[i + 1..];
      match events[i] {
        case Skip => p.SkipQuietMoves();
        case Call(h) =>
          var m := p.NextMove(h);
          out := out + [m];
      }
    }
  }

  lemma AnswersStep(t: Twin, env: Env, events: seq<Event>)
    requires Sane(t) && events != []
    ensures match events[0]
            case Skip =>
              Sane(SkipQuietMoves(t)) && Answers(t, env, events) == Answers(SkipQuietMoves(t), env, events[1..])
            case Call(h) =>
              Sane(Next(t, env, h).after)
              && Answers(t, env, events) == [Next(t, env, h).move] + Answers(Next(t, env, h).after, env, events[1..])
  {
    hide Next;
    if events[0].Call? {
      NextAccounts(t, env, events[0].scores);
    }
  }
}
