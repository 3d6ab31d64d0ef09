/** What a feature index means, told without the planes: the king's square, the place of the
    piece's type in a fixed order, whose piece it is, and its square, all as one side sees
    them. */
module FeatureMeaning {
  import opened Wrappers
  import opened Shogi
  import opened Features
  import opened FeatureSpace

  /** The types a board piece can count as, friend and enemy plane of each side by side. */
  datatype Shape = Pawns | Lances | Knights | Silvers | Golds | Bishops | Horses | Rooks | Dragons

  const ORDER: seq<Shape> := [Pawns, Lances, Knights, Silvers, Golds, Bishops, Horses, Rooks, Dragons]

  /** Promoted minor pieces count as gold. */
  function ShapeOf(piece: Piece): Shape
    requires !piece.kind.King?
  {
    if piece.kind.Bishop? then (if piece.promoted then Horses else Bishops)
    else if piece.kind.Rook? then (if piece.promoted then Dragons else Rooks)
    else if piece.promoted || piece.kind.Gold? then Golds
    else if piece.kind.Pawn? then Pawns
    else if piece.kind.Lance? then Lances
    else if piece.kind.Knight? then Knights
    else Silvers
  }

  /** File and rank as one side sees them, from its own right-hand corner. */
  function FileSeen(s: Square, persp: Color): nat {
    if persp.Black? then s / 9 else 8 - s / 9
  }

  function RankSeen(s: Square, persp: Color): nat {
    if persp.Black? then s % 9 else 8 - s % 9
  }

  /** A king beyond the middle file is brought back by a mirror, and the rest with it. */
  function CodeSeen(persp: Color, king: Square, s: Square): nat {
    9 * (if FileSeen(king, persp) >= 5 then 8 - FileSeen(s, persp) else FileSeen(s, persp)) + RankSeen(s, persp)
  }

  lemma CodesSeen(persp: Color, king: Square, s: Square)
    ensures SquareCode(ViewFrom(persp, king), s) == CodeSeen(persp, king, s)
    ensures ViewFrom(persp, king).kingCode == CodeSeen(persp, king, king) < 45
    ensures ViewFrom(persp, king).persp == persp
  {
    TurnedRound(king);
    TurnedRound(s);
  }

  lemma TurnedRound(s: Square)
    ensures (80 - s) / 9 == 8 - s / 9 && (80 - s) % 9 == 8 - s % 9
  {}

  /** The place of a piece's type in the order. */
  function PlaceOf(piece: Piece): (n: nat)
    requires !piece.kind.King?
    ensures n < 9 && ORDER[n] == ShapeOf(piece)
  {
    match ShapeOf(piece)
    case Pawns => 0
    case Lances => 1
    case Knights => 2
    case Silvers => 3
    case Golds => 4
    case Bishops => 5
    case Horses => 6
    case Rooks => 7
    case Dragons => 8
  }

  /** The index of a board piece; the kings of both sides share one plane. */
  function PieceMeaning(persp: Color, king: Square, s: Square, piece: Piece): nat {
    1629 * CodeSeen(persp, king, king) + CodeSeen(persp, king, s)
    + if piece.kind.King? then 1548 else 90 + 81 * (2 * PlaceOf(piece) + if piece.color == persp then 0 else 1)
  }

  lemma BoardMeaning(persp: Color, king: Square, s: Square, piece: Piece)
    ensures PieceFeature(ViewFrom(persp, king), s, piece) == PieceMeaning(persp, king, s, piece)
  {
    var v := ViewFrom(persp, king);
    CodesSeen(persp, king, s);
    PlanePlace(v, piece);
    PieceIndex(v, s, piece);
    hide CodeSeen, SquareCode, ViewFrom, PlaneNumber, PieceFeature, PlaceOf;
  }

  lemma PlanePlace(v: View, piece: Piece)
    ensures PlaneNumber(v, piece)
         == if piece.kind.King? then 18 else 2 * PlaceOf(piece) + if piece.color == v.persp then 0 else 1
  {}

  /** A full set of each kind a hand can hold, in order. */
  const FULL_SET: seq<nat> := [18, 4, 4, 4, 4, 2, 2]

  /** Where the slots of the `n`-th kind begin: behind those of both sides for each kind
      before it, one for every count from none to the full set. */
  function SlotsBefore(n: nat): nat
    requires n <= 7
  {
    if n == 0 then 0 else SlotsBefore(n - 1) + 2 * (FULL_SET[n - 1] + 1)
  }

  lemma SlotTable()
    ensures SlotsBefore(0) == 0 && SlotsBefore(1) == 38 && SlotsBefore(2) == 48 && SlotsBefore(3) == 58
    ensures SlotsBefore(4) == 68 && SlotsBefore(5) == 78 && SlotsBefore(6) == 84 && SlotsBefore(7) == 90
  {}

  /** The index of the `count`-th piece of the `n`-th kind in hand. */
  function HeldMeaning(persp: Color, king: Square, color: Color, n: nat, count: nat): nat
    requires n < 7
  {
    1629 * CodeSeen(persp, king, king) + SlotsBefore(n) + (if color == persp then 0 else FULL_SET[n] + 1) + count
  }

  lemma HandMeaning(persp: Color, king: Square, color: Color, n: nat, count: nat)
    requires n < 7 && count <= FULL_SET[n]
    ensures HandKind(n) == [Pawn, Lance, Knight, Silver, Gold, Bishop, Rook][n]
    ensures HandKind(n).Population() == FULL_SET[n]
    ensures HandFeature(ViewFrom(persp, king), color, HandKind(n), count) == HeldMeaning(persp, king, color, n, count)
  {
    CodesSeen(persp, king, king);
    SlotTable();
    HandIndex(ViewFrom(persp, king), color, HandKind(n), count);
    hide CodeSeen, ViewFrom, SlotsBefore;
  }

  /** An absent piece. */
  lemma PaddingMeaning(persp: Color, king: Square)
    ensures Padding(ViewFrom(persp, king)) == 1629 * CodeSeen(persp, king, king)
  {
    CodesSeen(persp, king, king);
  }

  ghost predicate OnBoardMeans(p: Position, persp: Color, king: Square, f: Feature) {
    exists s: nat :: s < SQUARES && p.board[s].Some? && f == PieceMeaning(persp, king, s, p.board[s].value)
  }

  ghost predicate InHandMeans(h: Hand, color: Color, persp: Color, king: Square, f: Feature) {
    exists n: nat, i: nat :: n < 7 && 1 <= i <= h[n] && f == HeldMeaning(persp, king, color, n, i)
  }

  /** A perspective reports the index of each piece on the board and of each piece in hand,
      and no other. */
  lemma ReportedExactly(p: Position, persp: Color, king: Square, f: Feature)
    requires Sound(p)
    ensures f in RealFeatures(ViewFrom(persp, king), p) <==>
            || OnBoardMeans(p, persp, king, f)
            || InHandMeans(p.black, Black, persp, king, f) || InHandMeans(p.white, White, persp, king, f)
  {
    hide PieceMeaning, HeldMeaning, PieceFeature, HandFeature, ViewFrom, RealFeatures, HandKind;
    var v := ViewFrom(persp, king);
    RealMember(v, p, f);
    SoundHands(p);
    BoardSame(p, persp, king, f);
    HandSame(p.black, Black, persp, king, f);
    HandSame(p.white, White, persp, king, f);
  }

  lemma BoardSame(p: Position, persp: Color, king: Square, f: Feature)
    ensures (exists s: nat :: OnBoardAs(ViewFrom(persp, king), p.board, s, f)) <==> OnBoardMeans(p, persp, king, f)
  {
    hide PieceMeaning, PieceFeature, ViewFrom;
    forall s: nat | s < SQUARES && p.board[s].Some?
      ensures PieceFeature(ViewFrom(persp, king), s, p.board[s].value) == PieceMeaning(persp, king, s, p.board[s].value)
    {
      BoardMeaning(persp, king, s, p.board[s].value);
    }
    if OnBoardMeans(p, persp, king, f) {
      var s: nat :| s < SQUARES && p.board[s].Some? && f == PieceMeaning(persp, king, s, p.board[s].value);
      assert OnBoardAs(ViewFrom(persp, king), p.board, s, f);
    }
  }

  lemma HandSame(h: Hand, color: Color, persp: Color, king: Square, f: Feature)
    requires WithinCaps(h)
    ensures (exists n: nat, i: nat :: InHandAs(ViewFrom(persp, king), color, h, n, i, f))
       <==> InHandMeans(h, color, persp, king, f)
  {
    hide HeldMeaning, HandFeature, ViewFrom;
    forall n: nat, i: nat | n < 7 && 1 <= i <= h[n]
      ensures HandFeature(ViewFrom(persp, king), color, HandKind(n), i) == HeldMeaning(persp, king, color, n, i)
    {
      FullSets(n);
      HandMeaning(persp, king, color, n, i);
    }
    if InHandMeans(h, color, persp, king, f) {
      var n: nat, i: nat :| n < 7 && 1 <= i <= h[n] && f == HeldMeaning(persp, king, color, n, i);
      assert InHandAs(ViewFrom(persp, king), color, h, n, i, f);
    }
  }

  lemma FullSets(n: nat)
    requires n < 7
    ensures HandKind(n).Population() == FULL_SET[n]
  {}
}
