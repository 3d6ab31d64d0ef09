/** The shape of the index space: forty indices, all in range, with padding the
    only repetition, and the two symmetries of the board they respect. */
module FeatureSpace {
  import opened Wrappers
  import opened Shogi
  import opened Features
  import opened MoveDelta

  const BOARD_PLANES := 18

  // ----- one index -----

  /** A piece's index splits into its plane and the square as the view sees it. */
  function PlaneNumber(v: View, piece: Piece): (n: nat)
    ensures n <= BOARD_PLANES
  {
    if piece.kind.King? then BOARD_PLANES
    else (BoardPlane(piece.kind, piece.promoted, piece.color == v.persp) - FE_HAND_END) / SQUARES
  }

  lemma PieceIndex(v: View, s: Square, piece: Piece)
    ensures PieceFeature(v, s, piece)
         == E_KING * v.kingCode + FE_HAND_END + SQUARES * PlaneNumber(v, piece) + SquareCode(v, s)
  {
    hide SquareCode, BoardPlane, PlaneNumber, WrappingAdd;
    PlaneBase(v, piece);
    if !piece.kind.King? {
      NoWrap(BoardPlane(piece.kind, piece.promoted, piece.color == v.persp), SquareCode(v, s));
    }
  }

  lemma PlaneBase(v: View, piece: Piece)
    ensures if piece.kind.King? then FE_END == FE_HAND_END + SQUARES * PlaneNumber(v, piece)
            else
              BoardPlane(piece.kind, piece.promoted, piece.color == v.persp)
              == FE_HAND_END + SQUARES * PlaneNumber(v, piece)
  {}

  lemma NoWrap(a: nat, b: nat)
    requires a <= E_KING && b <= SQUARES
    ensures WrappingAdd(a, b) == a + b
  {}

  lemma HandIndex(v: View, color: Color, k: Kind, count: nat)
    requires !k.King? && count <= k.Population()
    ensures HandFeature(v, color, k, count) == E_KING * v.kingCode + HandPlane(k, color == v.persp) + count
    ensures HandPlane(k, color == v.persp) + count < FE_HAND_END
  {}

  lemma SquareCodeInjective(v: View, s: Square, t: Square)
    requires SquareCode(v, s) == SquareCode(v, t)
    ensures s == t
  {}

  /** Equal piece indices mean the same square and the same plane. */
  lemma PieceIndexInjective(v: View, s: Square, a: Piece, t: Square, b: Piece)
    requires PieceFeature(v, s, a) == PieceFeature(v, t, b)
    ensures s == t && PlaneNumber(v, a) == PlaneNumber(v, b)
  {
    hide PieceFeature, SquareCode, PlaneNumber;
    PieceIndex(v, s, a);
    PieceIndex(v, t, b);
    SquareCodeInjective(v, s, t);
  }

  /** Hand planes are disjoint, so an index names its owner, kind and slot. */
  lemma HandIndexInjective(v: View, c: Color, k: Kind, i: nat, d: Color, l: Kind, j: nat)
    requires !k.King? && 1 <= i <= k.Population() && !l.King? && 1 <= j <= l.Population()
    requires HandFeature(v, c, k, i) == HandFeature(v, d, l, j)
    ensures c == d && k == l && i == j
  {
    hide HandFeature;
    HandIndex(v, c, k, i);
    HandIndex(v, d, l, j);
  }

  lemma PieceIsNotHand(v: View, s: Square, a: Piece, c: Color, k: Kind, i: nat)
    requires !k.King? && i <= k.Population()
    ensures PieceFeature(v, s, a) != HandFeature(v, c, k, i)
  {
    hide HandFeature, PieceFeature, PlaneNumber, SquareCode;
    PieceIndex(v, s, a);
    HandIndex(v, c, k, i);
  }

  // ----- what the scan reports -----

  predicate OnBoardAs(v: View, b: seq<Cell>, s: nat, f: Feature)
    requires |b| <= SQUARES
  {
    s < |b| && b[s].Some? && f == PieceFeature(v, s, b[s].value)
  }

  predicate InHandAs(v: View, c: Color, h: seq<nat>, n: nat, i: nat, f: Feature)
    requires |h| <= HAND_KINDS
  {
    n < |h| && 1 <= i <= h[n] && f == HandFeature(v, c, HandKind(n), i)
  }

  lemma {:induction false} BoardMember(v: View, b: seq<Cell>, f: Feature)
    requires |b| <= SQUARES
    ensures f in BoardFeatures(v, b) <==> exists s: nat :: OnBoardAs(v, b, s, f)
  {
    hide PieceFeature;
    if b != [] {
      var n := |b| - 1;
      BoardMember(v, b[..n], f);
      forall s: nat | OnBoardAs(v, b[..n], s, f)
        ensures OnBoardAs(v, b, s, f)
      {}
      forall s: nat | OnBoardAs(v, b, s, f)
        ensures s == n || OnBoardAs(v, b[..n], s, f)
      {}
      if f in CellFeatures(v, n, b[n]) {
        assert OnBoardAs(v, b, n, f);
      }
    }
  }

  lemma {:induction false} SlotMember(v: View, c: Color, k: Kind, count: nat, f: Feature)
    ensures f in SlotFeatures(v, c, k, count) <==> exists i: nat :: 1 <= i <= count && f == HandFeature(v, c, k, i)
  {
    hide HandFeature;
    if count > 0 {
      SlotMember(v, c, k, count - 1, f);
    }
  }

  lemma {:induction false} HandMember(v: View, c: Color, h: seq<nat>, f: Feature)
    requires |h| <= HAND_KINDS
    ensures f in HandFeatures(v, c, h) <==> exists n: nat, i: nat :: InHandAs(v, c, h, n, i, f)
  {
    hide HandFeature, HandKind;
    if h != [] {
      var n := |h| - 1;
      HandMember(v, c, h[..n], f);
      SlotMember(v, c, HandKind(n), h[n], f);
      forall m: nat, i: nat | InHandAs(v, c, h[..n], m, i, f)
        ensures InHandAs(v, c, h, m, i, f)
      {}
      forall m: nat, i: nat | InHandAs(v, c, h, m, i, f)
        ensures m == n || InHandAs(v, c, h[..n], m, i, f)
      {}
      if f in SlotFeatures(v, c, HandKind(n), h[n]) {
        var i: nat :| 1 <= i <= h[n] && f == HandFeature(v, c, HandKind(n), i);
        assert InHandAs(v, c, h, n, i, f);
      }
    }
  }

  ghost predicate Reports(v: View, p: Position, f: Feature) {
    || (exists s: nat :: OnBoardAs(v, p.board, s, f))
    || (exists n: nat, i: nat :: InHandAs(v, Black, p.black, n, i, f))
    || (exists n: nat, i: nat :: InHandAs(v, White, p.white, n, i, f))
  }

  lemma RealMember(v: View, p: Position, f: Feature)
    ensures f in RealFeatures(v, p) <==> Reports(v, p, f)
  {
    BoardMember(v, p.board, f);
    HandMember(v, Black, p.black, f);
    HandMember(v, White, p.white, f);
  }

  // ----- no index twice -----

  predicate WithinCaps(h: seq<nat>)
    requires |h| <= HAND_KINDS
  {
    forall n :: 0 <= n < |h| ==> h[n] <= HandKind(n).Population()
  }

  lemma SoundHands(p: Position)
    requires Sound(p)
    ensures WithinCaps(p.black) && WithinCaps(p.white)
  {
    forall n | 0 <= n < HAND_KINDS
      ensures p.black[n] <= HandKind(n).Population() && p.white[n] <= HandKind(n).Population()
    {
      assert Total(p, HandKind(n)) <= HandKind(n).Population();
    }
  }

  lemma {:induction false} BoardDistinct(v: View, b: seq<Cell>, f: Feature)
    requires |b| <= SQUARES
    ensures Times(BoardFeatures(v, b), f) <= 1
  {
    hide PieceFeature, SquareCode;
    if b != [] {
      var n := |b| - 1;
      BoardDistinct(v, b[..n], f);
      TimesConcat(BoardFeatures(v, b[..n]), CellFeatures(v, n, b[n]), f);
      if b[n].Some? && f == PieceFeature(v, n, b[n].value) {
        NotBelow(v, b, n);
      }
    }
  }

  /** No piece on the squares before has the same column. */
  lemma NotBelow(v: View, b: seq<Cell>, n: nat)
    requires n < |b| <= SQUARES && b[n].Some?
    ensures Times(BoardFeatures(v, b[..n]), PieceFeature(v, n, b[n].value)) == 0
  {
    hide PieceFeature, SquareCode, BoardFeatures;
    var f := PieceFeature(v, n, b[n].value);
    BoardMember(v, b[..n], f);
    if s: nat :| OnBoardAs(v, b[..n], s, f) {
      PieceIndexInjective(v, s, b[s].value, n, b[n].value);
    }
  }

  lemma {:induction false} SlotDistinct(v: View, c: Color, k: Kind, count: nat, f: Feature)
    requires !k.King? && count <= k.Population()
    ensures Times(SlotFeatures(v, c, k, count), f) <= 1
  {
    hide HandFeature;
    if count > 0 {
      SlotDistinct(v, c, k, count - 1, f);
      TimesConcat(SlotFeatures(v, c, k, count - 1), [HandFeature(v, c, k, count)], f);
      if f == HandFeature(v, c, k, count) {
        SlotMember(v, c, k, count - 1, f);
        if i: nat :| 1 <= i <= count - 1 && f == HandFeature(v, c, k, i) {
          HandIndexInjective(v, c, k, i, c, k, count);
        }
      }
    }
  }

  lemma {:induction false} HandDistinct(v: View, c: Color, h: seq<nat>, f: Feature)
    requires |h| <= HAND_KINDS && WithinCaps(h)
    ensures Times(HandFeatures(v, c, h), f) <= 1
  {
    hide HandFeature, HandKind, SlotFeatures;
    if h != [] {
      var n := |h| - 1;
      HandDistinct(v, c, h[..n], f);
      SlotDistinct(v, c, HandKind(n), h[n], f);
      HandFeaturesSplit(v, c, h, f);
      if f in SlotFeatures(v, c, HandKind(n), h[n]) && f in HandFeatures(v, c, h[..n]) {
        SlotMember(v, c, HandKind(n), h[n], f);
        var i: nat :| 1 <= i <= h[n] && f == HandFeature(v, c, HandKind(n), i);
        HandMember(v, c, h[..n], f);
        var m: nat, j: nat :| InHandAs(v, c, h[..n], m, j, f);
        HandIndexInjective(v, c, HandKind(n), i, c, HandKind(m), j);
        assert false;
      }
    }
  }

  /** No feature of a piece, on board or in hand, occurs twice. */
  lemma RealDistinct(v: View, p: Position, f: Feature)
    requires WithinCaps(p.black) && WithinCaps(p.white)
    ensures Occurs(v, p, f) <= 1
  {
    hide HandFeature, PieceFeature, HandKind, BoardFeatures, HandFeatures, Occurs, RealFeatures;
    RealFeaturesParts(v, p, f);
    BoardDistinct(v, p.board, f);
    HandDistinct(v, Black, p.black, f);
    HandDistinct(v, White, p.white, f);
    BoardMember(v, p.board, f);
    HandMember(v, Black, p.black, f);
    HandMember(v, White, p.white, f);
    if f in HandFeatures(v, Black, p.black) {
      var n: nat, i: nat :| InHandAs(v, Black, p.black, n, i, f);
      if f in BoardFeatures(v, p.board) {
        var s: nat :| OnBoardAs(v, p.board, s, f);
        PieceIsNotHand(v, s, p.board[s].value, Black, HandKind(n), i);
        assert false;
      }
      if f in HandFeatures(v, White, p.white) {
        var m: nat, j: nat :| InHandAs(v, White, p.white, m, j, f);
        HandIndexInjective(v, Black, HandKind(n), i, White, HandKind(m), j);
        assert false;
      }
    } else if f in HandFeatures(v, White, p.white) && f in BoardFeatures(v, p.board) {
      var m: nat, j: nat :| InHandAs(v, White, p.white, m, j, f);
      var s: nat :| OnBoardAs(v, p.board, s, f);
      PieceIsNotHand(v, s, p.board[s].value, White, HandKind(m), j);
      assert false;
    }
  }

  /** The padding index belongs to no piece. */
  lemma PaddingIsNoPiece(v: View, p: Position)
    requires Sound(p)
    ensures Occurs(v, p, Padding(v)) == 0
  {
    hide HandFeature, PieceFeature, HandKind, SquareCode, PlaneNumber;
    SoundHands(p);
    RealMember(v, p, Padding(v));
    if s: nat :| OnBoardAs(v, p.board, s, Padding(v)) {
      PieceIndex(v, s, p.board[s].value);
    }
    if n: nat, i: nat :| InHandAs(v, Black, p.black, n, i, Padding(v)) {
      HandIndex(v, Black, HandKind(n), i);
    }
    if n: nat, i: nat :| InHandAs(v, White, p.white, n, i, Padding(v)) {
      HandIndex(v, White, HandKind(n), i);
    }
  }

  lemma BoardInRange(v: View, b: seq<Cell>, s: nat, f: Feature)
    requires |b| <= SQUARES && OnBoardAs(v, b, s, f)
    ensures E_KING * v.kingCode < f < E_KING * (v.kingCode + 1)
  {
    hide PieceFeature, SquareCode, PlaneNumber;
    PieceIndex(v, s, b[s].value);
  }

  lemma HandInRange(v: View, c: Color, h: Hand, n: nat, i: nat, f: Feature)
    requires WithinCaps(h) && InHandAs(v, c, h, n, i, f)
    ensures E_KING * v.kingCode < f < E_KING * (v.kingCode + 1)
  {
    hide HandFeature, HandKind;
    HandIndex(v, c, HandKind(n), i);
  }

  lemma RealInRange(v: View, p: Position, f: Feature)
    requires Sound(p) && v.kingCode < SQ_K_COUNT && f in RealFeatures(v, p)
    ensures E_KING * v.kingCode < f < E_KING * (v.kingCode + 1)
  {
    hide HandFeature, PieceFeature, HandKind, Sound, RealFeatures, OnBoardAs, InHandAs;
    SoundHands(p);
    RealMember(v, p, f);
    if s: nat :| OnBoardAs(v, p.board, s, f) {
      BoardInRange(v, p.board, s, f);
    } else if n: nat, i: nat :| InHandAs(v, Black, p.black, n, i, f) {
      HandInRange(v, Black, p.black, n, i, f);
    } else {
      var n: nat, i: nat :| InHandAs(v, White, p.white, n, i, f);
      HandInRange(v, White, p.white, n, i, f);
    }
  }

  lemma PaddingInRange(v: View)
    requires v.kingCode < SQ_K_COUNT
    ensures Padding(v) < FEATURE_DIMENSION
  {}

  lemma ActiveInRange(v: View, p: Position, f: Feature)
    requires Sound(p) && v.kingCode < SQ_K_COUNT && f in ActiveIn(v, p)
    ensures f < FEATURE_DIMENSION
  {
    hide Padding, RealFeatures;
    PaddingInRange(v);
    if f in RealFeatures(v, p) {
      RealInRange(v, p, f);
    }
  }

  lemma ActiveDistinct(v: View, p: Position, f: Feature)
    requires Sound(p)
    ensures multiset(ActiveIn(v, p))[f] <= if f == Padding(v) then MAX_ACTIVE - Pieces(p) else 1
    ensures multiset(ActiveIn(v, p))[Padding(v)] == MAX_ACTIVE - Pieces(p)
  {
    hide Padding, ActiveIn, Pieces, Occurs;
    PaddingIsNoPiece(v, p);
    TimesActive(v, p, Padding(v));
    SoundHands(p);
    RealDistinct(v, p, f);
    TimesActive(v, p, f);
  }

  /** Every perspective of every sound position yields exactly forty indices
      below the feature dimension, repeating nothing but the padding, which
      stands for exactly the pieces that are missing. */
  lemma ActiveFeaturesShape(p: Position, persp: Color)
    requires Sound(p) && KingSquare(p, persp).Some?
    ensures |ActiveFeatures(p, persp)| == MAX_ACTIVE
    ensures forall f: Feature :: f in ActiveFeatures(p, persp) ==> f < FEATURE_DIMENSION
    ensures forall f: Feature :: f != Padding(ViewFrom(persp, KingSquare(p, persp).value)) ==>
      multiset(ActiveFeatures(p, persp))[f] <= 1
    ensures multiset(ActiveFeatures(p, persp))[Padding(ViewFrom(persp, KingSquare(p, persp).value))]
         == MAX_ACTIVE - Pieces(p)
  {
    hide ViewFrom, Padding, RealFeatures, Pieces;
    var v := ViewFrom(persp, KingSquare(p, persp).value);
    AtMostForty(p);
    RealFeaturesLength(v, p);
    forall f: Feature
      ensures f in ActiveIn(v, p) ==> f < FEATURE_DIMENSION
      ensures multiset(ActiveIn(v, p))[f] <= (if f == Padding(v) then MAX_ACTIVE - Pieces(p) else 1)
      ensures multiset(ActiveIn(v, p))[Padding(v)] == MAX_ACTIVE - Pieces(p)
    {
      ActiveDistinct(v, p, f);
      if f in ActiveIn(v, p) {
        ActiveInRange(v, p, f);
      }
    }
  }
}
