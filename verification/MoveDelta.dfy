/** The feature columns one move changes, read off the move and the position
    before it, and why they are exactly the difference of the two full scans. */
module MoveDelta {
  import opened Wrappers
  import opened Shogi
  import opened Features

  /** A board or hand slot the move touches, whoever is looking. */
  datatype Dirty =
    | OnBoard(sq: Square, piece: Piece)
    | InHand(color: Color, kind: Kind, count: nat)
  {
    function Encode(v: View): Feature {
      match this
      case OnBoard(sq, piece) => PieceFeature(v, sq, piece)
      case InHand(color, kind, count) => HandFeature(v, color, kind, count)
    }
  }

  datatype PerspectiveDelta = PerspectiveDelta(removed: seq<Feature>, added: seq<Feature>)

  /** One half per perspective; `None` asks for a rebuild. */
  datatype Delta = Delta(black: Option<PerspectiveDelta>, white: Option<PerspectiveDelta>) {
    function Half(c: Color): Option<PerspectiveDelta> {
      if c.Black? then black else white
    }
  }

  function Removed(p: Position, m: Move): (r: seq<Dirty>)
    ensures 1 <= |r| <= 2
  {
    if m.Drop? then [InHand(p.stm, m.kind, HandCount(p.HandOf(p.stm), m.kind))]
    else [OnBoard(m.from, Before(m))]
         + match p.board[m.to] case None => [] case Some(victim) => [OnBoard(m.to, victim)]
  }

  function Added(p: Position, m: Move): (r: seq<Dirty>)
    ensures 1 <= |r| <= 2
  {
    if m.Drop? then [OnBoard(m.to, Piece(m.kind, p.stm, false))]
    else [OnBoard(m.to, m.after)]
         + match p.board[m.to]
           case None => []
           case Some(victim) => [InHand(p.stm, victim.kind, HandCount(p.HandOf(p.stm), victim.kind) + 1)]
  }

  function EncodeAll(v: View, ds: seq<Dirty>): (r: seq<Feature>)
    ensures |r| == |ds| && forall i :: 0 <= i < |ds| ==> r[i] == ds[i].Encode(v)
  {
    seq(|ds|, i requires 0 <= i < |ds| => ds[i].Encode(v))
  }

  function DeltaIn(v: View, p: Position, m: Move): PerspectiveDelta {
    PerspectiveDelta(EncodeAll(v, Removed(p, m)), EncodeAll(v, Added(p, m)))
  }

  predicate RequiresFullRefresh(m: Move, persp: Color) {
    MovesKingOf(m, persp)
  }

  function HalfOf(p: Position, m: Move, persp: Color): Option<PerspectiveDelta>
    requires RequiresFullRefresh(m, persp) || KingSquare(p, persp).Some?
  {
    if RequiresFullRefresh(m, persp) then None
    else Some(DeltaIn(ViewFrom(persp, KingSquare(p, persp).value), p, m))
  }

  function FromMove(p: Position, m: Move): Delta
    requires KingSquare(p, Black).Some? && KingSquare(p, White).Some?
  {
    Delta(HalfOf(p, m, Black), HalfOf(p, m, White))
  }

  // ----- one cell or one hand slot at a time -----

  /** How often `f` occurs among the features of the pieces themselves. */
  function Occurs(v: View, p: Position, f: Feature): nat {
    multiset(RealFeatures(v, p))[f]
  }

  function Times(fs: seq<Feature>, f: Feature): nat {
    multiset(fs)[f]
  }

  lemma TimesConcat(a: seq<Feature>, b: seq<Feature>, f: Feature)
    ensures Times(a + b, f) == Times(a, f) + Times(b, f)
  {}

  lemma BoardFeaturesSplit(v: View, b: seq<Cell>, f: Feature)
    requires 0 < |b| <= SQUARES
    ensures Times(BoardFeatures(v, b), f)
         == Times(BoardFeatures(v, b[..|b| - 1]), f) + Times(CellFeatures(v, |b| - 1, b[|b| - 1]), f)
  {
    hide CellFeatures;
    TimesConcat(BoardFeatures(v, b[..|b| - 1]), CellFeatures(v, |b| - 1, b[|b| - 1]), f);
  }

  lemma {:induction false} BoardFeaturesUpdate(v: View, b: seq<Cell>, i: nat, c: Cell, f: Feature)
    requires i < |b| <= SQUARES
    ensures Times(BoardFeatures(v, b[i := c]), f) + Times(CellFeatures(v, i, b[i]), f)
         == Times(BoardFeatures(v, b), f) + Times(CellFeatures(v, i, c), f)
  {
    hide BoardFeatures, CellFeatures, Times;
    var n := |b| - 1;
    BoardFeaturesSplit(v, b, f);
    BoardFeaturesSplit(v, b[i := c], f);
    if i == n {
      assert b[i := c][..n] == b[..n];
    } else {
      assert b[i := c][..n] == b[..n][i := c];
      BoardFeaturesUpdate(v, b[..n], i, c, f);
    }
  }

  lemma SlotFeaturesGrow(v: View, color: Color, k: Kind, count: nat, f: Feature)
    ensures Times(SlotFeatures(v, color, k, count + 1), f)
         == Times(SlotFeatures(v, color, k, count), f) + One(HandFeature(v, color, k, count + 1) == f)
  {
    hide HandFeature;
    TimesConcat(SlotFeatures(v, color, k, count), [HandFeature(v, color, k, count + 1)], f);
  }

  lemma HandFeaturesSplit(v: View, color: Color, h: seq<nat>, f: Feature)
    requires 0 < |h| <= HAND_KINDS
    ensures Times(HandFeatures(v, color, h), f)
         == Times(HandFeatures(v, color, h[..|h| - 1]), f)
          + Times(SlotFeatures(v, color, HandKind(|h| - 1), h[|h| - 1]), f)
  {
    hide SlotFeatures;
    TimesConcat(HandFeatures(v, color, h[..|h| - 1]), SlotFeatures(v, color, HandKind(|h| - 1), h[|h| - 1]), f);
  }

  lemma {:induction false} HandFeaturesUpdate(v: View, color: Color, h: seq<nat>, j: nat, f: Feature)
    requires j < |h| <= HAND_KINDS
    ensures Times(HandFeatures(v, color, h[j := h[j] + 1]), f)
         == Times(HandFeatures(v, color, h), f) + One(HandFeature(v, color, HandKind(j), h[j] + 1) == f)
  {
    hide HandFeature, SlotFeatures, HandFeatures, HandKind;
    var n := |h| - 1;
    var g := h[j := h[j] + 1];
    HandFeaturesSplit(v, color, h, f);
    HandFeaturesSplit(v, color, g, f);
    if j == n {
      assert g[..n] == h[..n];
      SlotFeaturesGrow(v, color, HandKind(n), h[n], f);
    } else {
      assert g[..n] == h[..n][j := h[j] + 1];
      HandFeaturesUpdate(v, color, h[..n], j, f);
    }
  }

  lemma RealFeaturesParts(v: View, p: Position, f: Feature)
    ensures Occurs(v, p, f)
         == Times(BoardFeatures(v, p.board), f)
          + Times(HandFeatures(v, Black, p.black), f)
          + Times(HandFeatures(v, White, p.white), f)
  {
    TimesConcat(BoardFeatures(v, p.board), HandFeatures(v, Black, p.black), f);
    TimesConcat(BoardFeatures(v, p.board) + HandFeatures(v, Black, p.black), HandFeatures(v, White, p.white), f);
  }

  lemma HandKindIndex(k: Kind)
    requires !k.King?
    ensures HandKind(k.Index()) == k
  {}

  lemma GrowHand(v: View, p: Position, c: Color, k: Kind, f: Feature)
    requires !k.King? && HandCount(p.HandOf(c), k) < k.Population()
    ensures Occurs(v, p.WithHand(c, Increment(p.HandOf(c), k)), f)
         == Occurs(v, p, f) + One(HandFeature(v, c, k, HandCount(p.HandOf(c), k) + 1) == f)
  {
    hide HandFeature, HandFeatures, SlotFeatures, RealFeatures, Occurs, Times, HandKind, BoardFeatures;
    var q := p.WithHand(c, Increment(p.HandOf(c), k));
    HandKindIndex(k);
    HandFeaturesUpdate(v, c, p.HandOf(c), k.Index(), f);
    RealFeaturesParts(v, p, f);
    RealFeaturesParts(v, q, f);
  }

  lemma ShrinkHand(v: View, p: Position, c: Color, k: Kind, f: Feature)
    requires !k.King? && 0 < HandCount(p.HandOf(c), k) <= k.Population()
    ensures Occurs(v, p.WithHand(c, Decrement(p.HandOf(c), k)), f)
            + One(HandFeature(v, c, k, HandCount(p.HandOf(c), k)) == f)
         == Occurs(v, p, f)
  {
    hide HandFeature, Occurs;
    var q := p.WithHand(c, Decrement(p.HandOf(c), k));
    GrowHand(v, q, c, k, f);
    assert Increment(q.HandOf(c), k) == p.HandOf(c);
    assert q.WithHand(c, Increment(q.HandOf(c), k)) == p;
  }

  lemma ChangeCell(v: View, p: Position, i: Square, c: Cell, f: Feature)
    ensures Occurs(v, p.(board := p.board[i := c]), f) + Times(CellFeatures(v, i, p.board[i]), f)
         == Occurs(v, p, f) + Times(CellFeatures(v, i, c), f)
  {
    hide BoardFeatures, HandFeatures, CellFeatures, PieceFeature;
    BoardFeaturesUpdate(v, p.board, i, c, f);
    RealFeaturesParts(v, p, f);
    RealFeaturesParts(v, p.(board := p.board[i := c]), f);
  }

  lemma {:induction false} BoardFeaturesLength(v: View, b: seq<Cell>)
    requires |b| <= SQUARES
    ensures |BoardFeatures(v, b)| == Occupied(b)
  {
    if b != [] {
      BoardFeaturesLength(v, b[..|b| - 1]);
    }
  }

  function SumOf(h: seq<nat>): nat {
    if h == [] then 0 else SumOf(h[..|h| - 1]) + h[|h| - 1]
  }

  lemma {:induction false} HandFeaturesLength(v: View, color: Color, h: seq<nat>)
    requires |h| <= HAND_KINDS
    ensures |HandFeatures(v, color, h)| == SumOf(h)
  {
    if h != [] {
      HandFeaturesLength(v, color, h[..|h| - 1]);
    }
  }

  lemma SumOfHand(h: Hand)
    ensures SumOf(h) == HandTotal(h)
  {
    assert h[..6][..5] == h[..5] && h[..5][..4] == h[..4] && h[..4][..3] == h[..3];
    assert h[..3][..2] == h[..2] && h[..2][..1] == h[..1] && h[..1][..0] == [];
    assert SumOf(h[..1]) == h[0];
    assert SumOf(h[..2]) == h[0] + h[1];
    assert SumOf(h[..3]) == h[0] + h[1] + h[2];
    assert SumOf(h[..4]) == h[0] + h[1] + h[2] + h[3];
    assert SumOf(h[..5]) == h[0] + h[1] + h[2] + h[3] + h[4];
    assert SumOf(h[..6]) == h[0] + h[1] + h[2] + h[3] + h[4] + h[5];
  }

  /** One feature per piece on board and in hand. */
  lemma RealFeaturesLength(v: View, p: Position)
    ensures |RealFeatures(v, p)| == Pieces(p)
  {
    BoardFeaturesLength(v, p.board);
    HandFeaturesLength(v, Black, p.black);
    HandFeaturesLength(v, White, p.white);
    SumOfHand(p.black);
    SumOfHand(p.white);
  }

  // ----- a whole move -----

  lemma HeldWithinPopulation(p: Position, m: Move)
    requires Sound(p) && m.Drop?
    ensures HandCount(p.HandOf(p.stm), m.kind) <= m.kind.Population()
  {
    assert Total(p, m.kind) <= m.kind.Population();
  }

  lemma TimesNone(f: Feature)
    ensures Times([], f) == 0
  {}

  /** Features come and go with the dirty slots, the captured king's hand slot
      apart, which no scan reports. */
  lemma DropChanges(v: View, p: Position, m: Move, f: Feature)
    requires Sound(p) && Playable(p, m) && m.Drop?
    ensures Occurs(v, DoMove(p, m), f) + One(Removed(p, m)[0].Encode(v) == f)
         == Occurs(v, p, f) + One(Added(p, m)[0].Encode(v) == f)
  {
    hide HandFeature, PieceFeature, Increment, Occurs, Times, Decrement, Total;
    HeldWithinPopulation(p, m);
    ShrinkHand(v, p, p.stm, m.kind, f);
    var q := p.WithHand(p.stm, Decrement(p.HandOf(p.stm), m.kind));
    ChangeCell(v, q, m.to, Some(Piece(m.kind, p.stm, false)), f);
    TimesNone(f);
    TimesOne(PieceFeature(v, m.to, Piece(m.kind, p.stm, false)), f);
    OccursIgnoresTurn(v, q.(board := q.board[m.to := Some(Piece(m.kind, p.stm, false))]), p.stm.Flip(), f);
  }

  lemma ShiftChanges(v: View, p: Position, m: Move, f: Feature)
    requires Playable(p, m) && m.Board?
    ensures Occurs(v, p.(board := p.board[m.to := Some(m.after)][m.from := None]), f)
            + One(PieceFeature(v, m.from, Before(m)) == f) + Times(CellFeatures(v, m.to, p.board[m.to]), f)
         == Occurs(v, p, f) + One(PieceFeature(v, m.to, m.after) == f)
  {
    hide PieceFeature, Occurs;
    ChangeCell(v, p, m.to, Some(m.after), f);
    ChangeCell(v, p.(board := p.board[m.to := Some(m.after)]), m.from, None, f);
  }

  lemma TimesOne(a: Feature, f: Feature)
    ensures Times([a], f) == One(a == f)
  {}

  lemma TimesTwo(a: Feature, b: Feature, f: Feature)
    ensures Times([a, b], f) == One(a == f) + One(b == f)
  {
    assert [a, b] == [a] + [b];
    TimesConcat([a], [b], f);
  }

  /** A king in hand is encoded at the padding index: the plane base is the
      largest 64-bit number, and adding slot one wraps round to zero. */
  lemma KingSlotIsPadding(v: View, c: Color)
    ensures HandFeature(v, c, King, 1) == Padding(v)
  {}

  lemma OccursIgnoresTurn(v: View, p: Position, c: Color, f: Feature)
    ensures Occurs(v, p.(stm := c), f) == Occurs(v, p, f)
  {}

  lemma TakeKing(v: View, p: Position, m: Move, f: Feature)
    requires Playable(p, m) && m.Board? && p.board[m.to].Some? && p.board[m.to].value.kind.King?
    ensures Occurs(v, DoMove(p, m), f) + One(PieceFeature(v, m.from, Before(m)) == f)
            + One(PieceFeature(v, m.to, p.board[m.to].value) == f)
         == Occurs(v, p, f) + One(PieceFeature(v, m.to, m.after) == f)
  {
    hide PieceFeature, Occurs;
    var q := p.(board := p.board[m.to := Some(m.after)][m.from := None]);
    ShiftChanges(v, p, m, f);
    OccursIgnoresTurn(v, q, p.stm.Flip(), f);
    TimesOne(PieceFeature(v, m.to, p.board[m.to].value), f);
  }

  lemma TakePiece(v: View, p: Position, m: Move, f: Feature)
    requires Sound(p) && Playable(p, m) && m.Board? && p.board[m.to].Some? && !p.board[m.to].value.kind.King?
    ensures Occurs(v, DoMove(p, m), f) + One(PieceFeature(v, m.from, Before(m)) == f)
            + One(PieceFeature(v, m.to, p.board[m.to].value) == f)
         == Occurs(v, p, f) + One(PieceFeature(v, m.to, m.after) == f)
            + One(HandFeature(v, p.stm, p.board[m.to].value.kind,
                              HandCount(p.HandOf(p.stm), p.board[m.to].value.kind) + 1) == f)
  {
    hide HandFeature, PieceFeature, Occurs;
    var victim := p.board[m.to].value;
    var q := p.(board := p.board[m.to := Some(m.after)][m.from := None]);
    ShiftChanges(v, p, m, f);
    RoomForVictim(p, m);
    GrowHand(v, q, p.stm, victim.kind, f);
    OccursIgnoresTurn(v, q.WithHand(p.stm, Increment(q.HandOf(p.stm), victim.kind)), p.stm.Flip(), f);
    TimesOne(PieceFeature(v, m.to, victim), f);
  }

  /** The two encoded lists, spelt out. */
  lemma DeltaTimes(v: View, p: Position, m: Move, f: Feature)
    ensures m.Drop? || p.board[m.to].None? ==>
      Times(DeltaIn(v, p, m).removed, f) == One(Removed(p, m)[0].Encode(v) == f)
      && Times(DeltaIn(v, p, m).added, f) == One(Added(p, m)[0].Encode(v) == f)
    ensures m.Board? && p.board[m.to].Some? ==>
      Times(DeltaIn(v, p, m).removed, f) == One(Removed(p, m)[0].Encode(v) == f) + One(Removed(p, m)[1].Encode(v) == f)
      && Times(DeltaIn(v, p, m).added, f) == One(Added(p, m)[0].Encode(v) == f) + One(Added(p, m)[1].Encode(v) == f)
  {
    hide HandFeature, PieceFeature, Dirty.Encode, Times;
    var removed, added := Removed(p, m), Added(p, m);
    var r, a := DeltaIn(v, p, m).removed, DeltaIn(v, p, m).added;
    if m.Drop? || p.board[m.to].None? {
      TimesOne(removed[0].Encode(v), f);
      TimesOne(added[0].Encode(v), f);
      assert r == [removed[0].Encode(v)] && a == [added[0].Encode(v)];
    } else {
      TimesTwo(removed[0].Encode(v), removed[1].Encode(v), f);
      TimesTwo(added[0].Encode(v), added[1].Encode(v), f);
      assert r == [removed[0].Encode(v), removed[1].Encode(v)];
      assert a == [added[0].Encode(v), added[1].Encode(v)];
    }
  }

  lemma MoveChanges(v: View, p: Position, m: Move, f: Feature)
    requires Sound(p) && Playable(p, m)
    ensures Occurs(v, DoMove(p, m), f) + Times(DeltaIn(v, p, m).removed, f)
            + One(IsKind(Captured(p, m), King) && Padding(v) == f)
         == Occurs(v, p, f) + Times(DeltaIn(v, p, m).added, f)
  {
    hide HandFeature, PieceFeature, Occurs, DoMove, Times, DeltaIn, Padding;
    DeltaTimes(v, p, m, f);
    if m.Drop? {
      DropChanges(v, p, m, f);
    } else if p.board[m.to].None? {
      ShiftKeeps(v, p, m, f);
    } else if p.board[m.to].value.kind.King? {
      TakeKing(v, p, m, f);
      KingSlotIsPadding(v, p.stm);
    } else {
      TakePiece(v, p, m, f);
    }
  }

  lemma ShiftKeeps(v: View, p: Position, m: Move, f: Feature)
    requires Playable(p, m) && m.Board? && p.board[m.to].None?
    ensures Occurs(v, DoMove(p, m), f) + One(PieceFeature(v, m.from, Before(m)) == f)
         == Occurs(v, p, f) + One(PieceFeature(v, m.to, m.after) == f)
  {
    hide PieceFeature, Occurs;
    ShiftChanges(v, p, m, f);
    OccursIgnoresTurn(v, p.(board := p.board[m.to := Some(m.after)][m.from := None]), p.stm.Flip(), f);
  }

  lemma {:induction false} TimesPad(v: View, n: nat, f: Feature)
    ensures Times(Pad(v, n), f) == if f == Padding(v) then n else 0
  {
    if n > 0 {
      TimesPad(v, n - 1, f);
      assert Pad(v, n) == Pad(v, n - 1) + [Padding(v)];
      TimesConcat(Pad(v, n - 1), [Padding(v)], f);
    } else {
      assert Pad(v, n) == [];
    }
  }

  lemma TimesActive(v: View, p: Position, f: Feature)
    requires Sound(p)
    ensures Times(ActiveIn(v, p), f) == Occurs(v, p, f) + if f == Padding(v) then MAX_ACTIVE - Pieces(p) else 0
  {
    hide RealFeatures, Pad, Sound;
    AtMostForty(p);
    RealFeaturesLength(v, p);
    TimesPad(v, MAX_ACTIVE - Pieces(p), f);
    TimesConcat(RealFeatures(v, p), Pad(v, MAX_ACTIVE - Pieces(p)), f);
  }

  /** Only columns that are in the accumulator get subtracted. */
  lemma RemovedWereThere(v: View, p: Position, m: Move, f: Feature)
    requires Sound(p) && Playable(p, m)
    ensures Times(DeltaIn(v, p, m).removed, f) <= Occurs(v, p, f)
  {
    hide HandFeature, PieceFeature, Occurs, DeltaIn;
    DeltaTimes(v, p, m, f);
    if m.Drop? {
      assert Total(p, m.kind) <= m.kind.Population();
      ShrinkHand(v, p, p.stm, m.kind, f);
    } else {
      ChangeCell(v, p, m.from, None, f);
      ChangeCell(v, p.(board := p.board[m.from := None]), m.to, None, f);
    }
  }

  /** The delta is exact for every view that stays the same across the move:
      taking out the removed columns and putting in the added ones turns the
      features before the move into the features after it, padding included. */
  lemma DeltaIsExact(v: View, p: Position, m: Move)
    requires Sound(p) && Playable(p, m)
    ensures multiset(ActiveIn(v, p)) - multiset(DeltaIn(v, p, m).removed) + multiset(DeltaIn(v, p, m).added)
         == multiset(ActiveIn(v, DoMove(p, m)))
    ensures multiset(DeltaIn(v, p, m).removed) <= multiset(ActiveIn(v, p))
  {
    hide ActiveIn, DeltaIn;
    var d := DeltaIn(v, p, m);
    SoundAfterMove(p, m);
    MoveConservesPieces(p, m);
    forall f: Feature
      ensures Times(ActiveIn(v, DoMove(p, m)), f) + Times(d.removed, f) == Times(ActiveIn(v, p), f) + Times(d.added, f)
    {
      MoveChanges(v, p, m, f);
      TimesActive(v, p, f);
      TimesActive(v, DoMove(p, m), f);
    }
    forall f: Feature
      ensures Times(d.removed, f) <= Times(ActiveIn(v, p), f)
    {
      RemovedWereThere(v, p, m, f);
      AtMostForty(p);
      TimesActive(v, p, f);
    }
    assert multiset(d.removed) <= multiset(ActiveIn(v, p)) by {
      forall f: Feature
        ensures multiset(d.removed)[f] <= multiset(ActiveIn(v, p))[f]
      {
        assert Times(d.removed, f) <= Times(ActiveIn(v, p), f);
      }
    }
    var x, y, z := multiset(ActiveIn(v, p)), multiset(d.removed), multiset(d.added);
    assert x - y + z == multiset(ActiveIn(v, DoMove(p, m))) by {
      forall f: Feature
        ensures (x - y + z)[f] == multiset(ActiveIn(v, DoMove(p, m)))[f]
      {
        assert Times(d.removed, f) <= Times(ActiveIn(v, p), f);
        assert Times(ActiveIn(v, DoMove(p, m)), f) + Times(d.removed, f)
            == Times(ActiveIn(v, p), f) + Times(d.added, f);
      }
    }
  }

  /** For a perspective whose king neither moves nor is taken, the incremental
      half turns its features before the move into its features after it. */
  lemma HalfIsExact(p: Position, m: Move, persp: Color)
    requires Sound(p) && Playable(p, m) && KingSquare(p, persp).Some?
    requires !RequiresFullRefresh(m, persp) && !IsKingOf(Captured(p, m), persp)
    ensures HalfOf(p, m, persp).Some? && KingSquare(DoMove(p, m), persp).Some?
    ensures multiset(ActiveFeatures(p, persp)) - multiset(HalfOf(p, m, persp).value.removed)
            + multiset(HalfOf(p, m, persp).value.added)
         == multiset(ActiveFeatures(DoMove(p, m), persp))
    ensures multiset(HalfOf(p, m, persp).value.removed) <= multiset(ActiveFeatures(p, persp))
  {
    hide ActiveIn, DeltaIn, ViewFrom;
    KingStays(p, m, persp);
    DeltaIsExact(ViewFrom(persp, KingSquare(p, persp).value), p, m);
  }

  /** The move's dirty slots, encoded for both perspectives. */
  method ComputeDelta(p: Position, m: Move) returns (d: Delta)
    requires KingSquare(p, Black).Some? && KingSquare(p, White).Some?
    ensures d == FromMove(p, m)
  {
    var removed, added := Removed(p, m), Added(p, m);
    var b := EncodeHalf(p, m, Black, removed, added);
    var w := EncodeHalf(p, m, White, removed, added);
    d := Delta(b, w);
  }

  method EncodeHalf(p: Position, m: Move, persp: Color, removed: seq<Dirty>, added: seq<Dirty>)
    returns (h: Option<PerspectiveDelta>)
    requires KingSquare(p, persp).Some?
    requires removed == Removed(p, m) && added == Added(p, m)
    ensures h == HalfOf(p, m, persp)
  {
    hide Dirty.Encode;
    if RequiresFullRefresh(m, persp) {
      return None;
    }
    var v := ViewFrom(persp, KingSquare(p, persp).value);
    var r, a := [], [];
    for i := 0 to |removed|
      invariant r == EncodeAll(v, removed[..i])
    {
      r := r + [removed[i].Encode(v)];
    }
    for i := 0 to |added|
      invariant a == EncodeAll(v, added[..i])
    {
      a := a + [added[i].Encode(v)];
    }
    assert removed[..|removed|] == removed && added[..|added|] == added;
    h := Some(PerspectiveDelta(r, a));
  }
}
