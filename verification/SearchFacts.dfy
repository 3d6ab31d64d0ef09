/** What the search relies on elsewhere, and where one of its own assertions is too strong. */
module SearchFacts {
  import opened Shogi
  import opened Accumulators
  import opened TreeWalk
  import opened SearchCore
  import opened Search

  /** The pushes, pops and null moves a search has made so far are a walk of the tree that
      ends on its board: whatever stack of accumulators makes that walk from the root holds
      the from-scratch halves of the position being evaluated. */
  lemma ScriptReachesBoard(w: Worker, ply: nat)
    requires w.Valid(ply)
    ensures Reached(w.root, w.script) == w.pos && Evaluable(w.pos)
  {}

  /** A stack of accumulators that follows the script of a search. */
  method FollowScript(w: Worker, ghost ply: nat, stack: AccumulatorStack, script: seq<Action>, root: Position)
    returns (pos: Position)
    requires w.Valid(ply) && script == w.script && root == w.root
    requires stack.Valid() && stack.path == [root]
    modifies stack.Repr()
    ensures LiveIs(stack, pos) && pos == old(w.pos)
  {
    ScriptReachesBoard(w, ply);
    hide LiveIs, Reached, Ready;
    pos := WalkOn(stack, root, script);
  }

  /** The search of the other moves asks about a window the entry assertions allow, for
      every table value that may start it, exactly up to a certain depth. */
  lemma SingularWindowDepth(depth: nat, wide: bool)
    requires 6 <= depth <= MAX_PLY + 1
    ensures (forall v | !IsDecisive(v) :: Window(SingularBeta(v, depth, wide) - 1, SingularBeta(v, depth, wide), false))
       <==> depth <= if wide then 108 else 227
  {
    var lowest := 1 - WIN;
    assert !IsDecisive(lowest);
    var alpha := SingularBeta(lowest, depth, wide) - 1;
    if depth <= (if wide then 108 else 227) {
      assert alpha >= -INF;
      forall v | !IsDecisive(v)
        ensures Window(SingularBeta(v, depth, wide) - 1, SingularBeta(v, depth, wide), false)
      {
        assert SingularBeta(v, depth, wide) - SingularBeta(lowest, depth, wide) == v - lowest;
      }
    } else {
      assert alpha < -INF;
      assert !Window(SingularBeta(lowest, depth, wide) - 1, SingularBeta(lowest, depth, wide), false);
    }
  }

  /** What an aborted capture may leave in the table: read at any ply it passes for a mate
      that nobody has found, and on the way to the root for more than any value there is. */
  lemma AbortedMarkReads(ply: nat, reader: nat)
    requires ply <= MAX_PLY && reader <= MAX_PLY
    ensures !Storable(Lower, ValueToTt(INF, ply))
    ensures var r := ValueFromTt(ValueToTt(INF, ply), reader);
      r == NONE || (IsWin(r) && (InRange(r) <==> ply < reader))
  {}
}
