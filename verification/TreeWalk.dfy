/** Any walk over the game tree: moves played and taken back, turns passed and
    unpassed, in any order.  After every step the live slot of the accumulator
    stack is what a refresh from scratch would give for the position on the board. */
module TreeWalk {
  import opened Wrappers
  import opened Shogi
  import opened MoveDelta
  import opened Transformer
  import opened Accumulators

  datatype Action = Play(m: Move) | TakeBack | Pass | Unpass

  /** How the walk came to a position. */
  datatype Frame = Root(pos: Position) | Moved(pos: Position, m: Move, captured: Cell) | Passed(pos: Position)

  ghost predicate CanPlay(line: seq<Frame>, m: Move)
    requires line != []
  {
    Steppable(line[|line| - 1].pos, m) && |PathOf(line)| < ACC_LEN
  }

  /** The walk on positions alone: taking back means going back to the position
      that was there before.  An action that does not apply is skipped. */
  ghost function Follow(line: seq<Frame>, a: Action): (r: seq<Frame>)
    requires line != []
    ensures r != []
  {
    var n := |line| - 1;
    match a
    case Play(m) =>
      if CanPlay(line, m) then line + [Moved(DoMove(line[n].pos, m), m, Captured(line[n].pos, m))] else line
    case TakeBack => if n > 0 && line[n].Moved? then line[..n] else line
    case Pass => line + [Passed(DoNullMove(line[n].pos))]
    case Unpass => if n > 0 && line[n].Passed? then line[..n] else line
  }

  ghost function FollowAll(line: seq<Frame>, script: seq<Action>): (r: seq<Frame>)
    requires line != []
    ensures r != []
  {
    if script == [] then line else Follow(FollowAll(line, script[..|script| - 1]), script[|script| - 1])
  }

  /** The positions the live slots stand for: a passed turn shares its slot. */
  ghost function PathOf(line: seq<Frame>): (r: seq<Position>)
    requires line != []
    ensures 1 <= |r| <= |line| && r[|r| - 1] == line[|line| - 1].pos
  {
    var n := |line| - 1;
    if n == 0 then [line[0].pos]
    else if line[n].Passed? then PathOf(line[..n])[|PathOf(line[..n])| - 1 := line[n].pos]
    else PathOf(line[..n]) + [line[n].pos]
  }

  /** Each frame records how its position came from the one before. */
  ghost predicate Linked(line: seq<Frame>) {
    forall i :: 0 < i < |line| ==> LinkedAt(line, i)
  }

  ghost predicate LinkedAt(line: seq<Frame>, i: nat)
    requires 0 < i < |line|
  {
    match line[i]
    case Root(_) => false
    case Moved(q, m, captured) =>
      Steppable(line[i - 1].pos, m) && q == DoMove(line[i - 1].pos, m) && captured == Captured(line[i - 1].pos, m)
    case Passed(q) => q == DoNullMove(line[i - 1].pos)
  }

  /** What the walker itself remembers about a step: enough to take it back. */
  datatype Undo = UndoMoved(m: Move, captured: Cell) | UndoPassed

  ghost function UndoOf(f: Frame): Undo {
    if f.Moved? then UndoMoved(f.m, f.captured) else UndoPassed
  }

  /** The walker's board and undo records agree with the line. */
  ghost predicate Tracks(pos: Position, undos: seq<Undo>, line: seq<Frame>) {
    && line != [] && Linked(line)
    && pos == line[|line| - 1].pos
    && |undos| == |line| - 1
    && (forall i :: 0 <= i < |undos| ==> undos[i] == UndoOf(line[i + 1]))
    && (forall i :: 0 <= i < |line| ==> Evaluable(line[i].pos))
  }

  lemma LinkedExtend(line: seq<Frame>, f: Frame)
    requires line != [] && Linked(line)
    requires LinkedAt(line + [f], |line|)
    ensures Linked(line + [f])
  {
    hide Steppable, DoMove, Captured, DoNullMove;
    var longer := line + [f];
    forall i | 0 < i < |longer|
      ensures LinkedAt(longer, i)
    {
      if i < |line| {
        assert LinkedAt(line, i);
        assert longer[i] == line[i] && longer[i - 1] == line[i - 1];
      }
    }
  }

  lemma LinkedShorten(line: seq<Frame>)
    requires |line| > 1 && Linked(line)
    ensures Linked(line[..|line| - 1])
  {
    hide Steppable, DoMove, Captured, DoNullMove;
    var shorter := line[..|line| - 1];
    forall i | 0 < i < |shorter|
      ensures LinkedAt(shorter, i)
    {
      assert LinkedAt(line, i);
      assert shorter[i] == line[i] && shorter[i - 1] == line[i - 1];
    }
  }

  lemma PathExtend(line: seq<Frame>, f: Frame)
    requires line != []
    ensures PathOf(line + [f]) ==
      if f.Passed? then PathOf(line)[|PathOf(line)| - 1 := f.pos] else PathOf(line) + [f.pos]
  {
    assert (line + [f])[..|line|] == line;
  }

  lemma PlayTracks(pos: Position, undos: seq<Undo>, m: Move, line: seq<Frame>)
    requires Tracks(pos, undos, line) && CanPlay(line, m)
    ensures Tracks(DoMove(pos, m), undos + [UndoMoved(m, Captured(pos, m))], Follow(line, Play(m)))
    ensures PathOf(Follow(line, Play(m))) == PathOf(line) + [DoMove(pos, m)]
  {
    hide Evaluable, Steppable, DoMove, Captured, Linked, PathOf;
    EvaluableAfter(pos, m);
    var f := Moved(DoMove(pos, m), m, Captured(pos, m));
    PathExtend(line, f);
    assert LinkedAt(line + [f], |line|);
    LinkedExtend(line, f);
  }

  lemma ShorterTracks(pos: Position, undos: seq<Undo>, line: seq<Frame>)
    requires Tracks(pos, undos, line) && undos != []
    ensures Tracks(line[|undos| - 1].pos, undos[..|undos| - 1], line[..|undos|])
  {
    hide Evaluable, Linked, UndoOf;
    LinkedShorten(line);
  }

  lemma TakeBackTracks(pos: Position, undos: seq<Undo>, line: seq<Frame>)
    requires Tracks(pos, undos, line) && undos != [] && undos[|undos| - 1].UndoMoved?
    ensures Tracks(UndoMove(pos, undos[|undos| - 1].m, undos[|undos| - 1].captured), undos[..|undos| - 1],
                   Follow(line, TakeBack))
    ensures PathOf(line) == PathOf(Follow(line, TakeBack)) + [pos]
  {
    var n := |undos|;
    hide Evaluable, Steppable, DoMove, UndoMove, Captured;
    assert undos[n - 1] == UndoOf(line[n]);
    assert LinkedAt(line, n);
    TakenBack(line, n);
    ShorterTracks(pos, undos, line);
  }

  /** Undoing a frame's move leads to the position before. */
  lemma TakenBack(line: seq<Frame>, n: nat)
    requires 0 < n < |line| && LinkedAt(line, n) && line[n].Moved? && Evaluable(line[n - 1].pos)
    ensures UndoMove(line[n].pos, line[n].m, line[n].captured) == line[n - 1].pos
  {
    hide UndoMove, DoMove;
    UndoRestores(line[n - 1].pos, line[n].m);
  }

  lemma PassedEvaluable(p: Position)
    requires Evaluable(p)
    ensures Evaluable(DoNullMove(p))
  {
    forall k: Kind
      ensures Total(DoNullMove(p), k) <= k.Population()
    {
      assert Total(p, k) <= k.Population();
    }
  }

  lemma PassTracks(pos: Position, undos: seq<Undo>, line: seq<Frame>)
    requires Tracks(pos, undos, line)
    ensures Tracks(DoNullMove(pos), undos + [UndoPassed], Follow(line, Pass))
    ensures PathOf(Follow(line, Pass)) == PathOf(line)[|PathOf(line)| - 1 := DoNullMove(pos)]
  {
    hide Evaluable, DoNullMove, Linked, PathOf;
    PassedEvaluable(pos);
    var f := Passed(DoNullMove(pos));
    PathExtend(line, f);
    assert LinkedAt(line + [f], |line|);
    LinkedExtend(line, f);
  }

  lemma UnpassTracks(pos: Position, undos: seq<Undo>, line: seq<Frame>)
    requires Tracks(pos, undos, line) && undos != [] && undos[|undos| - 1].UndoPassed?
    ensures Tracks(DoNullMove(pos), undos[..|undos| - 1], Follow(line, Unpass))
    ensures PathOf(Follow(line, Unpass)) == PathOf(line)[|PathOf(line)| - 1 := DoNullMove(pos)]
  {
    var n := |undos|;
    assert undos[n - 1] == UndoOf(line[n]);
    assert LinkedAt(line, n);
    assert DoNullMove(pos) == line[n - 1].pos;
    hide Evaluable, DoNullMove;
    ShorterTracks(pos, undos, line);
  }

  /** There is something of this kind to take back exactly when the line ends so. */
  lemma UndoneAtAll(pos: Position, undos: seq<Undo>, line: seq<Frame>)
    requires Tracks(pos, undos, line)
    ensures undos != [] && undos[|undos| - 1].UndoMoved? <==> Follow(line, TakeBack) != line
    ensures undos != [] && undos[|undos| - 1].UndoPassed? <==> Follow(line, Unpass) != line
  {
    var n := |undos|;
    if n > 0 {
      assert undos[n - 1] == UndoOf(line[n]) && LinkedAt(line, n);
    }
  }

  /** One step of the walk on the real board and the real stack. */
  method Step(stack: AccumulatorStack, pos: Position, undos: seq<Undo>, a: Action, ghost line: seq<Frame>)
    returns (next: Position, after: seq<Undo>)
    requires stack.Valid() && Tracks(pos, undos, line) && stack.path == PathOf(line)
    modifies stack.Repr()
    ensures stack.Valid() && stack.net == old(stack.net)
    ensures Tracks(next, after, Follow(line, a)) && stack.path == PathOf(Follow(line, a))
  {
    if a.Play? {
      next, after := PlayStep(stack, pos, undos, a.m, line);
    } else if a.TakeBack? {
      next, after := TakeBackStep(stack, pos, undos, line);
    } else {
      next, after := PassStep(stack, pos, undos, a, line);
    }
  }

  /** The live slot is the one of the position on the board. */
  lemma EndIsLive(stack: AccumulatorStack, pos: Position, undos: seq<Undo>, line: seq<Frame>)
    requires stack.Valid() && Tracks(pos, undos, line) && stack.path == PathOf(line)
    ensures |stack.path| == stack.depth + 1 && stack.path[stack.depth] == pos && Evaluable(pos)
    ensures stack in stack.Repr()
  {
    hide Evaluable, Linked;
  }

  method PlayStep(stack: AccumulatorStack, pos: Position, undos: seq<Undo>, m: Move, ghost line: seq<Frame>)
    returns (next: Position, after: seq<Undo>)
    requires stack.Valid() && Tracks(pos, undos, line) && stack.path == PathOf(line)
    modifies stack.Repr()
    ensures stack.Valid() && stack.net == old(stack.net)
    ensures Tracks(next, after, Follow(line, Play(m))) && stack.path == PathOf(Follow(line, Play(m)))
  {
    hide Evaluable, Steppable, DoMove, Captured, FromMove, PathOf, Linked, AccumulatorStack.Valid;
    EndIsLive(stack, pos, undos, line);
    next, after := pos, undos;
    if Steppable(pos, m) && stack.depth + 1 < ACC_LEN {
      PlayTracks(pos, undos, m, line);
      EvaluableHasKings(pos);
      var delta := ComputeDelta(pos, m);
      next, after := DoMove(pos, m), undos + [UndoMoved(m, Captured(pos, m))];
      stack.Push(next, delta, m);
    }
  }

  method TakeBackStep(stack: AccumulatorStack, pos: Position, undos: seq<Undo>, ghost line: seq<Frame>)
    returns (next: Position, after: seq<Undo>)
    requires stack.Valid() && Tracks(pos, undos, line) && stack.path == PathOf(line)
    modifies stack.Repr()
    ensures stack.Valid() && stack.net == old(stack.net)
    ensures Tracks(next, after, Follow(line, TakeBack)) && stack.path == PathOf(Follow(line, TakeBack))
  {
    hide Evaluable, UndoMove, Tracks, Follow, PathOf, AccumulatorStack.Valid, AccumulatorStack.Repr;
    EndIsLive(stack, pos, undos, line);
    UndoneAtAll(pos, undos, line);
    next, after := pos, undos;
    if undos != [] && undos[|undos| - 1].UndoMoved? {
      TakeBackTracks(pos, undos, line);
      var n := |undos| - 1;
      next, after := UndoMove(pos, undos[n].m, undos[n].captured), undos[..n];
      stack.Pop();
    }
  }

  method PassStep(stack: AccumulatorStack, pos: Position, undos: seq<Undo>, a: Action, ghost line: seq<Frame>)
    returns (next: Position, after: seq<Undo>)
    requires stack.Valid() && Tracks(pos, undos, line) && stack.path == PathOf(line) && (a.Pass? || a.Unpass?)
    modifies stack.Repr()
    ensures stack.Valid() && stack.net == old(stack.net)
    ensures Tracks(next, after, Follow(line, a)) && stack.path == PathOf(Follow(line, a))
  {
    hide Evaluable, DoNullMove, Tracks, Follow, PathOf, AccumulatorStack.Valid, AccumulatorStack.Repr;
    EndIsLive(stack, pos, undos, line);
    UndoneAtAll(pos, undos, line);
    next, after := pos, undos;
    if a.Pass? {
      stack.NullMove();
      PassTracks(pos, undos, line);
      next, after := DoNullMove(pos), undos + [UndoPassed];
    } else if undos != [] && undos[|undos| - 1].UndoPassed? {
      UnpassTracks(pos, undos, line);
      next, after := DoNullMove(pos), undos[..|undos| - 1];
      stack.NullMove();
    }
  }

  lemma EvaluableHasKings(p: Position)
    requires Evaluable(p)
    ensures KingSquare(p, Black).Some? && KingSquare(p, White).Some?
  {}

  /** Where a walk on positions alone ends up. */
  ghost function Reached(root: Position, script: seq<Action>): Position {
    var line := FollowAll([Root(root)], script);
    line[|line| - 1].pos
  }

  /** The live slot holds the from-scratch halves of `pos`. */
  ghost predicate LiveIs(stack: AccumulatorStack, pos: Position)
    reads stack.Repr()
  {
    && stack.Valid() && Evaluable(pos)
    && stack.slots[stack.depth].black[..] == FreshFor(stack.net, pos, Black)
    && stack.slots[stack.depth].white[..] == FreshFor(stack.net, pos, White)
  }

  lemma LiveSlot(stack: AccumulatorStack, pos: Position, undos: seq<Undo>, line: seq<Frame>)
    requires stack.Valid() && Tracks(pos, undos, line) && stack.path == PathOf(line)
    ensures LiveIs(stack, pos) && pos == line[|line| - 1].pos
  {
    hide Evaluable, FreshFor;
    assert stack.slots[stack.depth].Represents(stack.net, stack.path[stack.depth]);
  }

  lemma StartTracks(root: Position)
    requires Evaluable(root)
    ensures Tracks(root, [], [Root(root)]) && PathOf([Root(root)]) == [root]
  {
    hide Evaluable;
  }

  /** The rest of the script, from its `k`-th action on. */
  method WalkFrom(stack: AccumulatorStack, root: Position, script: seq<Action>, k: nat, pos0: Position,
      undos0: seq<Undo>,
                  ghost line: seq<Frame>)
    returns (pos: Position)
    requires k <= |script| && line == FollowAll([Root(root)], script[..k])
    requires stack.Valid() && Tracks(pos0, undos0, line) && stack.path == PathOf(line)
    modifies stack.Repr()
    ensures stack.net == old(stack.net)
    ensures LiveIs(stack, pos) && pos == Reached(root, script)
    decreases |script| - k
  {
    hide Evaluable, FreshFor, Follow, Tracks, PathOf, LiveIs, AccumulatorStack.Valid, AccumulatorStack.Repr;
    if k == |script| {
      assert script[..k] == script;
      LiveSlot(stack, pos0, undos0, line);
      return pos0;
    }
    assert script[..k + 1][..k] == script[..k];
    var next, undos := Step(stack, pos0, undos0, script[k], line);
    pos := WalkFrom(stack, root, script, k + 1, next, undos, Follow(line, script[k]));
  }

  method WalkOn(stack: AccumulatorStack, root: Position, script: seq<Action>) returns (pos: Position)
    requires stack.Valid() && stack.path == [root]
    modifies stack.Repr()
    ensures stack.net == old(stack.net)
    ensures LiveIs(stack, pos) && pos == Reached(root, script)
  {
    assert Evaluable(stack.path[0]);
    StartTracks(root);
    hide Evaluable, FreshFor, Follow, Tracks, PathOf, LiveIs, AccumulatorStack.Valid, AccumulatorStack.Repr;
    pos := WalkFrom(stack, root, script, 0, root, [], [Root(root)]);
  }

  /** A whole walk from a freshly seeded root.  The cache may be cold, warm from
      other walks, or left by another network; the live slot still ends up as the
      from-scratch refresh of the position the walk has reached. */
  method Walk(stack: AccumulatorStack, net: Network, root: Position, script: seq<Action>) returns (pos: Position)
    requires stack.Shape() && stack.finny.Valid()
    requires net.Valid() && net.lanes == stack.lanes && Evaluable(root)
    requires stack.finny.token == Some(net.token) ==> stack.finny.built == net
    modifies stack.Repr()
    ensures stack.net == net
    ensures LiveIs(stack, pos) && pos == Reached(root, script)
  {
    hide LiveIs, Reached, Evaluable;
    stack.Seed(net, root);
    pos := WalkOn(stack, root, script);
  }
}
